// Node selection of internal/routing/routing.go: scores, policy, benchmark placement and the decision.
// Instants count nanoseconds from the zero time, so the zero time is 0.
module RouterSpec {
  import opened Common
  import opened StableSort

  datatype Approval = NoApprovalState | Pending | Approved | OtherApproval
  datatype Health = Healthy | Disabled | FailedHealth | Configured | OtherHealth
  datatype Control = Managed | Passive | OtherControl
  datatype Trust = Local | LanTrusted | LanUnverified | External | OtherTrust
  datatype Source = NoSource | SubscriberReported | OtherSource

  datatype Result = Result(
    model: string, source: Source, status: string, completedAt: Option<int>, rate: real, outputRate: real)

  datatype Observed = Observed(
    heartbeatRequired: bool, source: Source, updatedAt: Option<int>, results: seq<Result>, lastResult: Option<Result>)

  datatype Node = Node(
    id: string, enabled: bool, approved: bool, approval: Approval, health: Health, control: Control, trust: Trust,
    capability: string, source: Source, observed: Option<Observed>, lastReportedAt: Option<int>,
    models: seq<string>, tags: seq<string>, activeJobs: int, ollama: bool)

  datatype Alias = Alias(
    strategy: string, candidates: seq<string>, mode: string, minParticipants: int, maxParticipants: int,
    affinity: string)

  datatype Config = Config(
    defaultAlias: string, defaultMode: string, defaultAffinity: string, aliases: map<string, Alias>,
    subscribers: seq<string>)

  datatype Request = Request(model: string, mode: string)

  /** Codes of the reasons a decision carries; the status page warns with the same codes. */
  datatype Reason =
    | NodeDisabled | NodeNotApproved | StatusExcluded(health: Health) | HeartbeatMissing | HeartbeatStale
    | ExternalExcluded | PassiveConsensusExcluded | UnverifiedConsensusExcluded
    | ManagedControl | PassiveSingleRouteAllowed | TrustsLocal | TrustsLan | UnverifiedDeprioritized
    | PassiveProbeIgnored | UntrustedIgnored | SourceIgnored | SummaryMissing | StatusIgnored
    | FreshnessMissing | SummaryStale | RateMissing | PlacementApplied | PlacementFresh
    | NoEligibleNode | ConsensusApplied | MaxApplied | MinUnmet
    | ModelAvailable | NodeEnabled | NodeIsApproved | TrustEligible | SingleRouteApplied | PrimaryCode

  const SECOND := 1_000_000_000
  const HEARTBEAT_WINDOW := 120 * SECOND
  const BENCHMARK_WINDOW := 86_400 * SECOND
  const MAX_PARTICIPANTS := 8

  // ---------------------------------------------------------------- what a node is taken for

  function ControlOf(n: Node): Control { if n.control == Passive then Passive else Managed }

  function TrustOf(n: Node): Trust { if n.trust == OtherTrust then Local else n.trust }

  predicate IsApproved(n: Node) {
    if n.approval == NoApprovalState then n.approved else n.approval == Approved && n.approved
  }

  predicate HeartbeatRequired(n: Node) {
    ControlOf(n) == Managed && n.observed.Some? && n.observed.value.heartbeatRequired
  }

  datatype Freshness = Missing | Stale | Fresh

  function HeartbeatFreshness(n: Node, now: int): Freshness {
    if n.lastReportedAt.None? || n.lastReportedAt.value == 0 then Missing
    else if now - n.lastReportedAt.value > HEARTBEAT_WINDOW then Stale
    else Fresh
  }

  function TagScore(tags: seq<string>): int {
    if tags == [] then 0
    else (if tags[0] == "primary-code" || tags[0] == "heavy" then 20 else 0) + TagScore(tags[1..])
  }

  function Score(n: Node, consensus: bool): int {
    (if n.health == Healthy then 100 else 0) + (if n.ollama then 50 else 0)
    + |n.models| * 5 - n.activeJobs * 15 + TagScore(n.tags)
    + (if ControlOf(n) == Managed then 15 else -20)
    + (match TrustOf(n) case Local => 20 case LanTrusted => 10 case LanUnverified => -40 case External => -1000
       case OtherTrust => 0)
    + (if consensus && ControlOf(n) == Managed then 20 else 0)
  }

  /** Higher scores first, equal scores by id. */
  predicate NodeLess(a: Node, b: Node, consensus: bool) {
    if Score(a, consensus) != Score(b, consensus) then Score(a, consensus) > Score(b, consensus)
    else StringLess(a.id, b.id)
  }

  function ByScore(consensus: bool): (Node, Node) -> bool { (a: Node, b: Node) => NodeLess(a, b, consensus) }

  // ---------------------------------------------------------------- policy

  datatype Policy = Policy(eligible: bool, reasons: seq<Reason>)

  function Classify(n: Node, consensus: bool, now: int): Policy {
    if !n.enabled || !IsApproved(n) then
      Policy(false, (if !n.enabled then [NodeDisabled] else []) + (if !IsApproved(n) then [NodeNotApproved] else []))
    else if n.health == Disabled || n.health == FailedHealth then Policy(false, [StatusExcluded(n.health)])
    else if HeartbeatRequired(n) && HeartbeatFreshness(n, now) == Missing then Policy(false, [HeartbeatMissing])
    else if HeartbeatRequired(n) && HeartbeatFreshness(n, now) == Stale then Policy(false, [HeartbeatStale])
    else if TrustOf(n) == External then Policy(false, [ExternalExcluded])
    else if consensus && ControlOf(n) == Passive then Policy(false, [PassiveConsensusExcluded])
    else if consensus && TrustOf(n) == LanUnverified then Policy(false, [UnverifiedConsensusExcluded])
    else
      Policy(true, [if ControlOf(n) == Managed then ManagedControl else PassiveSingleRouteAllowed]
        + (match TrustOf(n) case Local => [TrustsLocal] case LanTrusted => [TrustsLan]
           case LanUnverified => [UnverifiedDeprioritized] case _ => []))
  }

  // ---------------------------------------------------------------- benchmark placement

  function Results(n: Node): seq<Result> {
    if n.observed.None? then []
    else if n.observed.value.results != [] then n.observed.value.results
    else if n.observed.value.lastResult.Some? then [n.observed.value.lastResult.value]
    else []
  }

  function CompletedAt(r: Result): int { if r.completedAt.Some? then r.completedAt.value else 0 }

  predicate About(r: Result, model: string) { model == "" || r.model == "" || r.model == model }

  /** The newest result about the model, the first listed of equally new ones. */
  function Latest(results: seq<Result>, model: string, best: Option<Result>): Option<Result> {
    if results == [] then best
    else if About(results[0], model) && (best.None? || CompletedAt(results[0]) > CompletedAt(best.value))
    then Latest(results[1..], model, Some(results[0]))
    else Latest(results[1..], model, best)
  }

  function SourceOf(n: Node): Source {
    if n.source != NoSource then n.source
    else if n.observed.Some? && n.observed.value.source != NoSource then n.observed.value.source
    else if ControlOf(n) == Managed then SubscriberReported
    else OtherSource
  }

  datatype Placement = Placement(eligible: bool, score: real, reasons: seq<Reason>)

  function Ignored(reason: Reason): Placement { Placement(false, 0.0, [reason]) }

  function Rate(r: Result): real { if r.rate <= 0.0 then r.outputRate else r.rate }

  function Place(n: Node, model: string, now: int): Placement {
    if ControlOf(n) != Managed then Ignored(PassiveProbeIgnored)
    else if TrustOf(n) != Local && TrustOf(n) != LanTrusted then Ignored(UntrustedIgnored)
    else if SourceOf(n) != SubscriberReported then Ignored(SourceIgnored)
    else
      match Latest(Results(n), model, None)
      case None => Ignored(SummaryMissing)
      case Some(r) =>
        if r.source == OtherSource then Ignored(SourceIgnored)
        else if r.status != "" && r.status != "completed" && r.status != "reported" then Ignored(StatusIgnored)
        else
          var at := if r.completedAt.Some? then r.completedAt
                    else if n.observed.Some? then n.observed.value.updatedAt else None;
          if at.None? || at.value == 0 then Ignored(FreshnessMissing)
          else if now - at.value > BENCHMARK_WINDOW then Ignored(SummaryStale)
          else if Rate(r) <= 0.0 then Ignored(RateMissing)
          else Placement(true, Rate(r), [PlacementApplied, PlacementFresh])
  }

  // ---------------------------------------------------------------- the decision

  predicate Contains(s: string, part: string) { exists i :: 0 <= i <= |s| && part <= s[i..] }

  predicate ConsensusMode(mode: string, strategy: string) {
    Contains(mode, "consensus") || Contains(strategy, "consensus")
  }

  function Bounds(minParticipants: int, maxParticipants: int): (r: (int, int))
    ensures 1 <= r.0 <= r.1 <= MAX_PARTICIPANTS
    ensures 1 <= minParticipants <= maxParticipants <= MAX_PARTICIPANTS ==> r == (minParticipants, maxParticipants)
  {
    var lo := if minParticipants < 1 then 2 else minParticipants;
    var lo' := if lo > MAX_PARTICIPANTS then MAX_PARTICIPANTS else lo;
    var hi := if maxParticipants < 1 then 4 else maxParticipants;
    var hi' := if hi < lo' then lo' else hi;
    (lo', if hi' > MAX_PARTICIPANTS then MAX_PARTICIPANTS else hi')
  }

  /** What the request and the configuration ask for. */
  datatype Plan = Plan(
    model: string, wanted: seq<string>, strategy: string, mode: string, affinity: string,
    consensus: bool, required: int, limit: int)

  function PlanFor(cfg: Config, req: Request): (p: Plan)
    ensures p.consensus ==> 1 <= p.required <= p.limit <= MAX_PARTICIPANTS
  {
    var model := if req.model == "" then cfg.defaultAlias else req.model;
    var known := model in cfg.aliases;
    var strategy := if known then cfg.aliases[model].strategy else "weighted_best_available";
    var asked := if known && cfg.aliases[model].mode != "" then cfg.aliases[model].mode else req.mode;
    var mode := if asked == "" then cfg.defaultMode else asked;
    var affinity :=
      if known && cfg.aliases[model].affinity != "" then cfg.aliases[model].affinity else cfg.defaultAffinity;
    var bounds :=
      if known then Bounds(cfg.aliases[model].minParticipants, cfg.aliases[model].maxParticipants) else Bounds(0, 0);
    var consensus := ConsensusMode(mode, strategy);
    Plan(model, if known then cfg.aliases[model].candidates else [model], strategy, mode, affinity,
         consensus, if consensus then bounds.0 else 0, if consensus then bounds.1 else 0)
  }

  /** A configured subscriber no stored node stands for. */
  function FromSubscriber(id: string): Node {
    Node(id, true, true, Approved, Configured, Managed, LanTrusted, "", NoSource, None, None, [], [], 0, false)
  }

  function Unseen(subscribers: seq<string>, seen: set<string>): seq<Node> {
    if subscribers == [] then []
    else (if subscribers[0] in seen then [] else [FromSubscriber(subscribers[0])]) + Unseen(subscribers[1..], seen)
  }

  function Ids(nodes: seq<Node>): set<string> { set n | n in nodes :: n.id }

  function Ranked(cfg: Config, nodes: seq<Node>, consensus: bool): seq<Node> {
    Sort(nodes + Unseen(cfg.subscribers, Ids(nodes)), ByScore(consensus))
  }

  datatype Metadata = Metadata(id: string, control: Control, trust: Trust, capability: string, reasons: seq<Reason>)

  function MetadataOf(n: Node, reasons: seq<Reason>): Metadata {
    Metadata(n.id, ControlOf(n), TrustOf(n), n.capability, reasons)
  }

  datatype Candidate = Candidate(node: Node, placement: Placement, metadata: Metadata)

  predicate Serves(n: Node, model: string) { model in n.models || n.models == [] }

  predicate Fits(n: Node, model: string, consensus: bool, now: int) {
    Classify(n, consensus, now).eligible && Serves(n, model)
  }

  function CandidateOf(n: Node, model: string, consensus: bool, now: int): Candidate {
    var placement := Place(n, model, now);
    Candidate(n, placement, MetadataOf(n, Classify(n, consensus, now).reasons + placement.reasons))
  }

  function CandidateIf(n: Node, model: string, consensus: bool, now: int): seq<Candidate> {
    if Fits(n, model, consensus, now) then [CandidateOf(n, model, consensus, now)] else []
  }

  function Candidates(nodes: seq<Node>, model: string, consensus: bool, now: int): seq<Candidate> {
    if nodes == [] then []
    else CandidateIf(nodes[0], model, consensus, now) + Candidates(nodes[1..], model, consensus, now)
  }

  /** Placed candidates first, the faster ones before the slower ones. */
  predicate PlacedBefore(a: Candidate, b: Candidate) {
    if a.placement.eligible != b.placement.eligible then a.placement.eligible
    else a.placement.eligible && a.placement.score > b.placement.score
  }

  function ByPlacement(): (Candidate, Candidate) -> bool { (a: Candidate, b: Candidate) => PlacedBefore(a, b) }

  datatype Resolved = Resolved(model: string, candidates: seq<Candidate>)

  /** The first wanted model some node can serve, with its candidates in the order they are tried. */
  function Resolve(ranked: seq<Node>, wanted: seq<string>, consensus: bool, now: int): Option<Resolved> {
    if wanted == [] then None
    else
      var found := Candidates(ranked, wanted[0], consensus, now);
      if found != [] then Some(Resolved(wanted[0], Sort(found, ByPlacement())))
      else Resolve(ranked, wanted[1..], consensus, now)
  }

  function RejectionIf(n: Node, consensus: bool, now: int, seen: set<string>): seq<Metadata> {
    var policy := Classify(n, consensus, now);
    if policy.eligible || n.id in seen then [] else [MetadataOf(n, policy.reasons)]
  }

  function NextSeen(n: Node, consensus: bool, now: int, seen: set<string>): set<string> {
    if Classify(n, consensus, now).eligible then seen else seen + {n.id}
  }

  /** The rejected nodes with their reasons, each id once. */
  function Excluded(nodes: seq<Node>, consensus: bool, now: int, seen: set<string>): seq<Metadata> {
    if nodes == [] then []
    else
      RejectionIf(nodes[0], consensus, now, seen)
      + Excluded(nodes[1..], consensus, now, NextSeen(nodes[0], consensus, now, seen))
  }

  datatype Decision = Decision(
    model: string, resolvedModel: string, selectedNode: string, candidateNodes: seq<string>,
    candidateMetadata: seq<Metadata>, fallbackNodes: seq<string>, excludedNodes: seq<Metadata>,
    strategy: string, reasons: seq<Reason>, mode: string, affinity: string, required: int, limit: int)

  function NodeIds(candidates: seq<Candidate>): (ids: seq<string>)
    ensures |ids| == |candidates| && forall i :: 0 <= i < |ids| ==> ids[i] == candidates[i].node.id
  {
    if candidates == [] then [] else [candidates[0].node.id] + NodeIds(candidates[1..])
  }

  function AllMetadata(candidates: seq<Candidate>): (ms: seq<Metadata>)
    ensures |ms| == |candidates| && forall i :: 0 <= i < |ms| ==> ms[i] == candidates[i].metadata
  {
    if candidates == [] then [] else [candidates[0].metadata] + AllMetadata(candidates[1..])
  }

  function Undecided(plan: Plan, excluded: seq<Metadata>): Decision {
    Decision(plan.model, "", "", [], [], [], excluded, plan.strategy, [], plan.mode, plan.affinity,
             plan.required, plan.limit)
  }

  /** Consensus keeps at most limit candidates and needs at least the required ones. */
  function Conclude(plan: Plan, excluded: seq<Metadata>, resolved: Option<Resolved>): (Decision, bool)
    requires plan.consensus ==> 1 <= plan.required <= plan.limit
    requires resolved.Some? ==> resolved.value.candidates != []
  {
    var none := Undecided(plan, excluded);
    if resolved.None? then
      (none.(reasons := [NoEligibleNode] + if plan.consensus then [ConsensusApplied] else []), false)
    else
      var all := resolved.value.candidates;
      var over := plan.consensus && |all| > plan.limit;
      var kept := if over then all[..plan.limit] else all;
      var cut := if over then [MaxApplied] else [];
      var d := none.(resolvedModel := resolved.value.model, candidateNodes := NodeIds(kept),
                     candidateMetadata := AllMetadata(kept));
      if plan.consensus && |kept| < plan.required then (d.(reasons := cut + [MinUnmet]), false)
      else
        (d.(selectedNode := kept[0].node.id, fallbackNodes := NodeIds(kept)[1..],
            reasons := cut + [ModelAvailable, NodeEnabled, NodeIsApproved, TrustEligible]
                       + [if plan.consensus then ConsensusApplied else SingleRouteApplied]
                       + kept[0].metadata.reasons
                       + (if Contains(plan.strategy, "code") then [PrimaryCode] else [])), true)
  }

  lemma {:induction false} ResolvedNotEmpty(ranked: seq<Node>, wanted: seq<string>, consensus: bool, now: int)
    ensures var r := Resolve(ranked, wanted, consensus, now); r.Some? ==> r.value.candidates != []
  {
    if wanted != [] {
      SortKeeps(Candidates(ranked, wanted[0], consensus, now), ByPlacement());
      ResolvedNotEmpty(ranked, wanted[1..], consensus, now);
    }
  }

  /** The decision for the nodes, in the order the node map happened to be read. */
  function Decide(cfg: Config, nodes: seq<Node>, req: Request, now: int): (Decision, bool) {
    var plan := PlanFor(cfg, req);
    var ranked := Ranked(cfg, nodes, plan.consensus);
    ResolvedNotEmpty(ranked, plan.wanted, plan.consensus, now);
    Conclude(plan, if plan.wanted == [] then [] else Excluded(ranked, plan.consensus, now, {}),
             Resolve(ranked, plan.wanted, plan.consensus, now))
  }
}
