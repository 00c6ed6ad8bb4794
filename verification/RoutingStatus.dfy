// The status page of internal/httpapi/routing_policy_status.go, which states the routing policy a second
// time, as warnings about a node.
module RoutingStatus {
  import opened RouterSpec

  datatype Severity = Blocked | Limited
  datatype Scope = RoutingAndConsensus | Consensus | Routing

  datatype Warning = Warning(severity: Severity, scope: Scope, code: Reason)

  function Block(code: Reason): Warning { Warning(Blocked, RoutingAndConsensus, code) }

  // The page reads a node with functions of its own.

  function PageControl(n: Node): Control { if n.control == Passive then Passive else Managed }

  function PageTrust(n: Node): Trust {
    match n.trust
    case LanTrusted => LanTrusted
    case LanUnverified => LanUnverified
    case External => External
    case _ => Local
  }

  predicate PageHeartbeatRequired(n: Node) {
    if PageControl(n) != Managed || n.observed.None? then false else n.observed.value.heartbeatRequired
  }

  function PageFreshness(n: Node, now: int): Freshness {
    match n.lastReportedAt
    case None => Missing
    case Some(at) => if at == 0 then Missing else if now - at > HEARTBEAT_WINDOW then Stale else Fresh
  }

  predicate HeartbeatIs(n: Node, now: int, freshness: Freshness) {
    PageHeartbeatRequired(n) && PageFreshness(n, now) == freshness
  }

  function ApprovalStateOf(n: Node): Approval {
    if n.approval != NoApprovalState then n.approval else if n.approved then Approved else Pending
  }

  predicate StatusApproved(n: Node) { ApprovalStateOf(n) == Approved && n.approved }

  function Add(warnings: seq<Warning>, c: bool, w: Warning): seq<Warning> { if c then warnings + [w] else warnings }

  function AdmissionWarnings(n: Node): seq<Warning> {
    var w1 := Add([], !n.enabled, Block(NodeDisabled));
    var w2 := Add(w1, !StatusApproved(n), Block(NodeNotApproved));
    Add(w2, n.health == Disabled || n.health == FailedHealth, Block(StatusExcluded(n.health)))
  }

  function BlockingWarnings(n: Node, now: int): seq<Warning> {
    var w3 := AdmissionWarnings(n);
    var w4 := Add(w3, HeartbeatIs(n, now, Missing), Block(HeartbeatMissing));
    var w5 := Add(w4, HeartbeatIs(n, now, Stale), Block(HeartbeatStale));
    Add(w5, PageTrust(n) == External, Block(ExternalExcluded))
  }

  function Warnings(n: Node, now: int): seq<Warning> {
    var w6 := BlockingWarnings(n, now);
    var w7 := Add(w6, PageControl(n) == Passive, Warning(Limited, Consensus, PassiveConsensusExcluded));
    var w8 := Add(w7, PageTrust(n) == LanUnverified, Warning(Limited, Routing, UnverifiedDeprioritized));
    Add(w8, PageTrust(n) == LanUnverified, Warning(Blocked, Consensus, UnverifiedConsensusExcluded))
  }

  method WarningsForNode(n: Node, now: int) returns (warnings: seq<Warning>)
    ensures warnings == Warnings(n, now)
  {
    warnings := [];
    if !n.enabled {
      warnings := warnings + [Block(NodeDisabled)];
    }
    if !StatusApproved(n) {
      warnings := warnings + [Block(NodeNotApproved)];
    }
    if n.health == Disabled || n.health == FailedHealth {
      warnings := warnings + [Block(StatusExcluded(n.health))];
    }
    assert warnings == AdmissionWarnings(n);
    if PageHeartbeatRequired(n) {
      match PageFreshness(n, now) {
        case Missing => warnings := warnings + [Block(HeartbeatMissing)];
        case Stale => warnings := warnings + [Block(HeartbeatStale)];
        case Fresh =>
      }
    }
    if PageTrust(n) == External {
      warnings := warnings + [Block(ExternalExcluded)];
    }
    assert warnings == BlockingWarnings(n, now);
    if PageControl(n) == Passive {
      warnings := warnings + [Warning(Limited, Consensus, PassiveConsensusExcluded)];
    }
    if PageTrust(n) == LanUnverified {
      warnings := warnings + [Warning(Limited, Routing, UnverifiedDeprioritized)];
      warnings := warnings + [Warning(Blocked, Consensus, UnverifiedConsensusExcluded)];
    }
  }

  // ---------------------------------------------------------------- agreement with the router

  /** When the page has a warning. */
  predicate Applies(w: Warning, n: Node, now: int) {
    match w.code
    case NodeDisabled => w == Block(w.code) && !n.enabled
    case NodeNotApproved => w == Block(w.code) && !StatusApproved(n)
    case StatusExcluded(h) =>
      w == Block(w.code) && h == n.health && (h == Disabled || h == FailedHealth)
    case HeartbeatMissing =>
      w == Block(w.code) && HeartbeatIs(n, now, Missing)
    case HeartbeatStale =>
      w == Block(w.code) && HeartbeatIs(n, now, Stale)
    case ExternalExcluded => w == Block(w.code) && PageTrust(n) == External
    case PassiveConsensusExcluded => w == Warning(Limited, Consensus, w.code) && PageControl(n) == Passive
    case UnverifiedDeprioritized => w == Warning(Limited, Routing, w.code) && PageTrust(n) == LanUnverified
    case UnverifiedConsensusExcluded => w == Warning(Blocked, Consensus, w.code) && PageTrust(n) == LanUnverified
    case _ => false
  }

  predicate IsAdmission(code: Reason) { code == NodeDisabled || code == NodeNotApproved || code.StatusExcluded? }

  lemma AddMember(warnings: seq<Warning>, c: bool, x: Warning, w: Warning)
    ensures w in Add(warnings, c, x) <==> w in warnings || (c && w == x)
  {
  }

  lemma AdmissionMembers(n: Node, now: int, w: Warning)
    ensures w in AdmissionWarnings(n) <==> Applies(w, n, now) && IsAdmission(w.code)
  {
    var w1 := Add([], !n.enabled, Block(NodeDisabled));
    var w2 := Add(w1, !StatusApproved(n), Block(NodeNotApproved));
    AddMember([], !n.enabled, Block(NodeDisabled), w);
    AddMember(w1, !StatusApproved(n), Block(NodeNotApproved), w);
  }

  predicate IsBlocking(code: Reason) {
    IsAdmission(code) || code == HeartbeatMissing || code == HeartbeatStale || code == ExternalExcluded
  }

  lemma BlockingMembers(n: Node, now: int, w: Warning)
    ensures w in BlockingWarnings(n, now) <==> Applies(w, n, now) && IsBlocking(w.code)
  {
    AdmissionMembers(n, now, w);
    var w3 := AdmissionWarnings(n);
    var w4 := Add(w3, HeartbeatIs(n, now, Missing), Block(HeartbeatMissing));
    var w5 := Add(w4, HeartbeatIs(n, now, Stale), Block(HeartbeatStale));
    AddMember(w3, HeartbeatIs(n, now, Missing), Block(HeartbeatMissing), w);
    AddMember(w4, HeartbeatIs(n, now, Stale), Block(HeartbeatStale), w);
    AddMember(w5, PageTrust(n) == External, Block(ExternalExcluded), w);
  }

  /** Exactly the warnings that apply are shown. */
  lemma Members(n: Node, now: int, w: Warning)
    ensures w in Warnings(n, now) <==> Applies(w, n, now)
  {
    BlockingMembers(n, now, w);
    var w6 := BlockingWarnings(n, now);
    var w7 := Add(w6, PageControl(n) == Passive, Warning(Limited, Consensus, PassiveConsensusExcluded));
    var w8 := Add(w7, PageTrust(n) == LanUnverified, Warning(Limited, Routing, UnverifiedDeprioritized));
    AddMember(w6, PageControl(n) == Passive, Warning(Limited, Consensus, PassiveConsensusExcluded), w);
    AddMember(w7, PageTrust(n) == LanUnverified, Warning(Limited, Routing, UnverifiedDeprioritized), w);
    AddMember(w8, PageTrust(n) == LanUnverified, Warning(Blocked, Consensus, UnverifiedConsensusExcluded), w);
  }

  /** The two readings of a node are the same: control, trust, approval, and the heartbeat at every instant. */
  lemma SameReading(n: Node, now: int)
    ensures PageControl(n) == ControlOf(n) && PageTrust(n) == TrustOf(n)
    ensures StatusApproved(n) <==> IsApproved(n)
    ensures PageHeartbeatRequired(n) <==> HeartbeatRequired(n)
    ensures PageFreshness(n, now) == HeartbeatFreshness(n, now)
  {
  }

  predicate Warns(warnings: seq<Warning>, scope: Scope) { exists w :: w in warnings && w.scope == scope }

  /** How the page words a reason of the router. */
  function Wording(reason: Reason): Warning {
    match reason
    case PassiveConsensusExcluded => Warning(Limited, Consensus, reason)
    case UnverifiedConsensusExcluded => Warning(Blocked, Consensus, reason)
    case _ => Block(reason)
  }

  /** Whatever reason the router gives for refusing a node, the page shows a warning with the same code. */
  lemma ReasonsAreShown(n: Node, consensus: bool, now: int, reason: Reason)
    requires !Classify(n, consensus, now).eligible && reason in Classify(n, consensus, now).reasons
    ensures Wording(reason) in Warnings(n, now)
    ensures !consensus ==> Wording(reason).scope == RoutingAndConsensus
  {
    SameReading(n, now);
    Members(n, now, Wording(reason));
  }

  lemma WarningsRefuse(n: Node, now: int, w: Warning)
    requires w in Warnings(n, now) && w.scope != Routing
    ensures !Classify(n, true, now).eligible && (w.scope == RoutingAndConsensus ==> !Classify(n, false, now).eligible)
  {
    SameReading(n, now);
    Members(n, now, w);
  }

  /** The page and the router agree: the router refuses a node for a single route exactly if the page has a
   *  warning about routing and consensus, and for consensus exactly if it has that or one about consensus. */
  lemma PageAgreesWithRouter(n: Node, now: int)
    ensures !Classify(n, false, now).eligible <==> Warns(Warnings(n, now), RoutingAndConsensus)
    ensures !Classify(n, true, now).eligible
       <==> Warns(Warnings(n, now), RoutingAndConsensus) || Warns(Warnings(n, now), Consensus)
  {
    if !Classify(n, false, now).eligible {
      ReasonsAreShown(n, false, now, Classify(n, false, now).reasons[0]);
    }
    if !Classify(n, true, now).eligible {
      ReasonsAreShown(n, true, now, Classify(n, true, now).reasons[0]);
    }
    forall w | w in Warnings(n, now) && w.scope != Routing
      ensures !Classify(n, true, now).eligible && (w.scope == RoutingAndConsensus ==> !Classify(n, false, now).eligible)
    {
      WarningsRefuse(n, now, w);
    }
  }

  /** The page says that an unverified node is de-prioritized: the same node with any trust that lets it take
   *  part in consensus scores higher, for both kinds of requests. */
  lemma UnverifiedScoresLower(n: Node, trust: Trust, now: int, consensus: bool)
    requires Warning(Limited, Routing, UnverifiedDeprioritized) in Warnings(n, now)
    requires trust != External && trust != LanUnverified
    ensures Score(n, consensus) < Score(n.(trust := trust), consensus)
  {
    SameReading(n, now);
    Members(n, now, Warning(Limited, Routing, UnverifiedDeprioritized));
  }
}
