// What a routing decision depends on, in terms of the request, the configuration and the nodes as they are: who
// is admitted, what makes a node score higher, what a request asks for, and what the decision says about itself.
module RouterPolicy {
  import opened Common
  import opened StableSort
  import opened RouterSpec
  import opened RouterSafety

  // ---------------------------------------------------------------- who is admitted

  /** The node reported at an instant at most two minutes ago. */
  predicate HeardFrom(n: Node, now: int) {
    n.lastReportedAt.Some? && n.lastReportedAt.value != 0 && now - n.lastReportedAt.value <= 120_000_000_000
  }

  predicate ApprovedNode(n: Node) { n.approved && (n.approval == NoApprovalState || n.approval == Approved) }

  predicate MustReport(n: Node) {
    n.control != Passive && n.observed.Some? && n.observed.value.heartbeatRequired
  }

  /** Enabled, approved and in a state to work; heard from, if it is one that has to report; not external; and for
   *  consensus neither passive nor unverified. */
  predicate Admits(n: Node, consensus: bool, now: int) {
    && n.enabled && ApprovedNode(n) && n.health != Disabled && n.health != FailedHealth
    && (MustReport(n) ==> HeardFrom(n, now)) && n.trust != External
    && (consensus ==> n.control != Passive && n.trust != LanUnverified)
  }

  predicate Has(n: Node, model: string) { n.models == [] || model in n.models }

  /** The policy admits exactly these nodes. */
  lemma PolicyAdmits(n: Node, model: string, consensus: bool, now: int)
    ensures Classify(n, consensus, now).eligible <==> Admits(n, consensus, now)
    ensures Fits(n, model, consensus, now) <==> Admits(n, consensus, now) && Has(n, model)
  {
  }

  /** A rejected node is told why, both if it is disabled and if it is not approved. */
  lemma RejectionGiven(n: Node, consensus: bool, now: int)
    ensures var reasons := Classify(n, consensus, now).reasons;
      && reasons != []
      && (NodeDisabled in reasons <==> !n.enabled) && (NodeNotApproved in reasons <==> !ApprovedNode(n))
  {
  }

  /** An admitted node carries how it is controlled and how far it is trusted. */
  lemma AdmissionGiven(n: Node, consensus: bool, now: int)
    requires Admits(n, consensus, now)
    ensures Classify(n, consensus, now).reasons
         == [if n.control == Passive then PassiveSingleRouteAllowed else ManagedControl,
             if n.trust == LanTrusted then TrustsLan else if n.trust == LanUnverified then UnverifiedDeprioritized
             else TrustsLocal]
  {
    PolicyAdmits(n, "", consensus, now);
  }

  /** The nodes a decision looks at: the stored ones, and for every configured subscriber that none of them stands
   *  for, an approved, managed node of the trusted network about which nothing else is known. */
  lemma {:induction false} PoolIs(cfg: Config, nodes: seq<Node>, n: Node)
    ensures n in Pool(cfg, nodes) <==> n in nodes || IsSubscriber(cfg, nodes, n)
  {
    UnseenAre(cfg.subscribers, Ids(nodes), n);
    forall id ensures id in Ids(nodes) <==> exists m :: m in nodes && m.id == id {}
  }

  ghost predicate IsSubscriber(cfg: Config, nodes: seq<Node>, n: Node) {
    && n.id in cfg.subscribers && !(exists m :: m in nodes && m.id == n.id)
    && n == Node(n.id, true, true, Approved, Configured, Managed, LanTrusted, "", NoSource, None, None, [], [], 0,
                 false)
  }

  lemma {:induction false} UnseenAre(subscribers: seq<string>, seen: set<string>, n: Node)
    ensures n in Unseen(subscribers, seen) <==> n.id in subscribers && n.id !in seen && n == FromSubscriber(n.id)
  {
    if subscribers != [] { UnseenAre(subscribers[1..], seen, n); }
  }

  // ---------------------------------------------------------------- what makes a node score higher

  function HeavyTags(tags: seq<string>): nat {
    if tags == [] then 0 else (if tags[0] == "heavy" || tags[0] == "primary-code" then 1 else 0) + HeavyTags(tags[1..])
  }

  function TrustRank(trust: Trust): nat {
    match trust case External => 0 case LanUnverified => 1 case LanTrusted => 2 case _ => 3
  }

  lemma {:induction false} TagsCount(tags: seq<string>)
    ensures TagScore(tags) == 20 * HeavyTags(tags)
  {
    if tags != [] { TagsCount(tags[1..]); }
  }

  lemma {:induction false} TagsSnoc(tags: seq<string>, tag: string)
    ensures HeavyTags(tags + [tag]) == HeavyTags(tags) + if tag == "heavy" || tag == "primary-code" then 1 else 0
  {
    if tags == [] {
      assert [tag][1..] == [] && tags + [tag] == [tag];
    } else {
      assert (tags + [tag])[1..] == tags[1..] + [tag];
      TagsSnoc(tags[1..], tag);
    }
  }

  lemma TagWorth(n: Node, consensus: bool, tag: string)
    ensures Score(n.(tags := n.tags + [tag]), consensus)
         == Score(n, consensus) + if tag == "heavy" || tag == "primary-code" then 20 else 0
  {
    TagsCount(n.tags);
    TagsCount(n.tags + [tag]);
    TagsSnoc(n.tags, tag);
  }

  lemma JobsAndModelsWorth(n: Node, consensus: bool, model: string)
    ensures Score(n.(activeJobs := n.activeJobs + 1), consensus) == Score(n, consensus) - 15
    ensures Score(n.(models := n.models + [model]), consensus) == Score(n, consensus) + 5
  {
  }

  lemma HealthWorth(n: Node, consensus: bool, health: Health)
    requires health != Healthy
    ensures Score(n.(health := Healthy), consensus) == Score(n.(health := health), consensus) + 100
    ensures Score(n.(ollama := true), consensus) == Score(n.(ollama := false), consensus) + 50
  {
  }

  lemma ControlWorth(n: Node, consensus: bool)
    ensures Score(n.(control := Managed), consensus)
         == Score(n.(control := Passive), consensus) + (if consensus then 55 else 35)
  {
  }

  lemma TrustWorth(n: Node, consensus: bool)
    ensures Score(n.(trust := Local), consensus) == Score(n.(trust := LanTrusted), consensus) + 10
    ensures Score(n.(trust := LanTrusted), consensus) == Score(n.(trust := LanUnverified), consensus) + 50
    ensures Score(n.(trust := LanUnverified), consensus) == Score(n.(trust := External), consensus) + 960
  {
  }

  lemma SubscriberWorth(id: string, consensus: bool)
    ensures Score(FromSubscriber(id), consensus) == if consensus then 45 else 25
  {
  }

  /** What one unit of each attribute is worth: a job takes fifteen points, a model brings five, a heavy tag twenty,
   *  good health a hundred, the program fifty, being managed thirty-five, or fifty-five where consensus is asked
   *  for, and each step of trust ten, fifty and nine hundred and sixty. A subscriber nothing is known about has
   *  twenty-five points, and forty-five for consensus. */
  lemma WhatCounts(n: Node, consensus: bool, model: string, tag: string, health: Health)
    ensures Score(n.(activeJobs := n.activeJobs + 1), consensus) == Score(n, consensus) - 15
    ensures Score(n.(models := n.models + [model]), consensus) == Score(n, consensus) + 5
    ensures Score(n.(tags := n.tags + [tag]), consensus)
         == Score(n, consensus) + if tag == "heavy" || tag == "primary-code" then 20 else 0
    ensures health != Healthy ==>
      Score(n.(health := Healthy), consensus) == Score(n.(health := health), consensus) + 100
    ensures Score(n.(ollama := true), consensus) == Score(n.(ollama := false), consensus) + 50
    ensures Score(n.(control := Managed), consensus)
         == Score(n.(control := Passive), consensus) + (if consensus then 55 else 35)
    ensures Score(n.(trust := Local), consensus) == Score(n.(trust := LanTrusted), consensus) + 10
    ensures Score(n.(trust := LanTrusted), consensus) == Score(n.(trust := LanUnverified), consensus) + 50
    ensures Score(n.(trust := LanUnverified), consensus) == Score(n.(trust := External), consensus) + 960
    ensures Score(FromSubscriber(n.id), consensus) == if consensus then 45 else 25
  {
    JobsAndModelsWorth(n, consensus, model);
    TagWorth(n, consensus, tag);
    HealthWorth(n, consensus, if health == Healthy then Disabled else health);
    ControlWorth(n, consensus);
    TrustWorth(n, consensus);
    SubscriberWorth(n.id, consensus);
  }

  /** The nodes differ in their id and in one attribute, and there the first is better off: it is healthy, runs the
   *  program, has fewer jobs, more models or more of the heavy tags, is managed, or is trusted more. */
  predicate BetterOff(a: Node, b: Node) {
    || (b == a.(id := b.id, activeJobs := b.activeJobs) && a.activeJobs < b.activeJobs)
    || (b == a.(id := b.id, health := b.health) && a.health == Healthy && b.health != Healthy)
    || (b == a.(id := b.id, ollama := b.ollama) && a.ollama && !b.ollama)
    || (b == a.(id := b.id, models := b.models) && |a.models| > |b.models|)
    || (b == a.(id := b.id, tags := b.tags) && HeavyTags(a.tags) > HeavyTags(b.tags))
    || (b == a.(id := b.id, control := b.control) && a.control != Passive && b.control == Passive)
    || (b == a.(id := b.id, trust := b.trust) && TrustRank(a.trust) > TrustRank(b.trust))
  }

  lemma TagsDecide(a: Node, b: Node, consensus: bool)
    requires b == a.(id := b.id, tags := b.tags) && HeavyTags(a.tags) > HeavyTags(b.tags)
    ensures NodeLess(a, b, consensus)
  {
    TagsCount(a.tags);
    TagsCount(b.tags);
  }

  lemma BetterOffScores(a: Node, b: Node, consensus: bool)
    requires BetterOff(a, b)
    ensures NodeLess(a, b, consensus)
  {
    if b == a.(id := b.id, tags := b.tags) && HeavyTags(a.tags) > HeavyTags(b.tags) { TagsDecide(a, b, consensus); }
  }

  /** Benchmarks do not tell the two apart. */
  predicate EquallyPlaced(a: Node, b: Node, model: string, now: int) {
    var x, y := Place(a, model, now), Place(b, model, now);
    x.eligible == y.eligible && (x.eligible ==> x.score == y.score)
  }

  /** Of two candidates that benchmarks do not tell apart and that differ in one thing only, the one that is better
   *  off there is tried first. */
  lemma BetterOffComesFirst(cfg: Config, nodes: seq<Node>, req: Request, now: int, a: Node, b: Node, i: nat, j: nat)
    requires DistinctIds(Pool(cfg, nodes)) && Decide(cfg, nodes, req, now).1
    requires a in Pool(cfg, nodes) && b in Pool(cfg, nodes) && a.id != b.id && BetterOff(a, b)
    requires EquallyPlaced(a, b, Decide(cfg, nodes, req, now).0.resolvedModel, now)
    requires i < |Decide(cfg, nodes, req, now).0.candidateNodes| && j < |Decide(cfg, nodes, req, now).0.candidateNodes|
    requires Decide(cfg, nodes, req, now).0.candidateNodes[i] == a.id
    requires Decide(cfg, nodes, req, now).0.candidateNodes[j] == b.id
    ensures i < j
  {
    var consensus := PlanFor(cfg, req).consensus;
    var listed := DecisionInOrder(cfg, nodes, req, now);
    OneOfThatId(Pool(cfg, nodes), listed[i].node, a);
    OneOfThatId(Pool(cfg, nodes), listed[j].node, b);
    BetterOffScores(a, b, consensus);
    if j < i { InListedOrder(listed, Decide(cfg, nodes, req, now).0.resolvedModel, consensus, now, i, j); }
  }

  lemma InListedOrder(listed: seq<Candidate>, model: string, consensus: bool, now: int, i: nat, j: nat)
    requires Ordered(listed, ByPlacement(), OlderOrder(consensus)) && AllCandidatesFor(listed, model, consensus, now)
    requires j < i < |listed| && EquallyPlaced(listed[i].node, listed[j].node, model, now)
    ensures !NodeLess(listed[i].node, listed[j].node, consensus)
  {
    assert InOrder(listed[j], listed[i], ByPlacement(), OlderOrder(consensus));
  }

  lemma OneOfThatId(nodes: seq<Node>, m: Node, n: Node)
    requires DistinctIds(nodes) && m in nodes && n in nodes && m.id == n.id
    ensures m == n
  {
  }

  // ---------------------------------------------------------------- what a request asks for

  /** The part stands in the string at place i. */
  predicate StandsAt(part: string, s: string, i: nat) { i + |part| <= |s| && s[i..i + |part|] == part }

  predicate Occurs(part: string, s: string) { exists i: nat :: i <= |s| && StandsAt(part, s, i) }

  lemma OccursIs(s: string, part: string)
    ensures Contains(s, part) <==> Occurs(part, s)
  {
    forall i: nat | i <= |s| ensures part <= s[i..] <==> StandsAt(part, s, i) {}
  }

  /** The first of the two that says anything. */
  function Either(a: string, b: string): string { if a != "" then a else b }

  predicate ForConsensus(d: Decision) { Occurs("consensus", d.mode) || Occurs("consensus", d.strategy) }

  function AtMostEight(n: int): int { if n > 8 then 8 else n }

  /** The decision answers what was asked. The model is the request's, or the default alias. An alias brings its
   *  candidate models, its strategy and, where it has them, its mode and affinity; the mode of the request counts
   *  after the alias's and before the configured one. Consensus is meant where mode or strategy say so; it needs
   *  two nodes and takes four unless the alias says otherwise, never more than eight. */
  lemma DecisionAnswers(cfg: Config, nodes: seq<Node>, req: Request, now: int)
    ensures var d := Decide(cfg, nodes, req, now).0;
      && d.model == Either(req.model, cfg.defaultAlias)
      && (if d.model in cfg.aliases then
            var alias := cfg.aliases[d.model];
            && PlanFor(cfg, req).wanted == alias.candidates && d.strategy == alias.strategy
            && d.mode == Either(alias.mode, Either(req.mode, cfg.defaultMode))
            && d.affinity == Either(alias.affinity, cfg.defaultAffinity)
          else
            && PlanFor(cfg, req).wanted == [d.model] && d.strategy == "weighted_best_available"
            && d.mode == Either(req.mode, cfg.defaultMode) && d.affinity == cfg.defaultAffinity)
      && (PlanFor(cfg, req).consensus <==> ForConsensus(d))
      && (!ForConsensus(d) ==> d.required == d.limit == 0)
      && (ForConsensus(d) ==>
            var lo := if d.model in cfg.aliases then cfg.aliases[d.model].minParticipants else 0;
            var hi := if d.model in cfg.aliases then cfg.aliases[d.model].maxParticipants else 0;
            && d.required == AtMostEight(if lo < 1 then 2 else lo)
            && d.limit == (if AtMostEight(if hi < 1 then 4 else hi) > d.required
                           then AtMostEight(if hi < 1 then 4 else hi) else d.required))
  {
    var plan := PlanFor(cfg, req);
    OccursIs(plan.mode, "consensus");
    OccursIs(plan.strategy, "consensus");
    CarriesPlan(cfg, nodes, req, now);
  }

  lemma DecideIs(cfg: Config, nodes: seq<Node>, req: Request, now: int)
    returns (excluded: seq<Metadata>, resolved: Option<Resolved>)
    ensures var plan := PlanFor(cfg, req);
      resolved == Resolve(Ranked(cfg, nodes, plan.consensus), plan.wanted, plan.consensus, now)
    ensures resolved.Some? ==> resolved.value.candidates != []
    ensures Decide(cfg, nodes, req, now) == Conclude(PlanFor(cfg, req), excluded, resolved)
  {
    var plan := PlanFor(cfg, req);
    var ranked := Ranked(cfg, nodes, plan.consensus);
    ResolvedNotEmpty(ranked, plan.wanted, plan.consensus, now);
    excluded := if plan.wanted == [] then [] else Excluded(ranked, plan.consensus, now, {});
    resolved := Resolve(ranked, plan.wanted, plan.consensus, now);
  }

  lemma ConcludeCarries(plan: Plan, excluded: seq<Metadata>, resolved: Option<Resolved>)
    requires plan.consensus ==> 1 <= plan.required <= plan.limit
    requires resolved.Some? ==> resolved.value.candidates != []
    ensures var d := Conclude(plan, excluded, resolved).0;
      && d.model == plan.model && d.strategy == plan.strategy && d.mode == plan.mode && d.affinity == plan.affinity
      && d.required == plan.required && d.limit == plan.limit
  {
  }

  lemma CarriesPlan(cfg: Config, nodes: seq<Node>, req: Request, now: int)
    ensures var d, plan := Decide(cfg, nodes, req, now).0, PlanFor(cfg, req);
      && d.model == plan.model && d.strategy == plan.strategy && d.mode == plan.mode && d.affinity == plan.affinity
      && d.required == plan.required && d.limit == plan.limit
  {
    var excluded, resolved := DecideIs(cfg, nodes, req, now);
    ConcludeCarries(PlanFor(cfg, req), excluded, resolved);
  }

  // ---------------------------------------------------------------- what the decision says about itself

  /** A candidate is described by its id, how it is controlled and trusted, and why it was admitted and placed. */
  lemma CandidateDescribed(n: Node, model: string, consensus: bool, now: int)
    ensures CandidateOf(n, model, consensus, now).metadata
         == Metadata(n.id, if n.control == Passive then Passive else Managed,
                     if n.trust == OtherTrust then Local else n.trust, n.capability,
                     Classify(n, consensus, now).reasons + Place(n, model, now).reasons)
    ensures var reasons := Place(n, model, now).reasons;
      if Place(n, model, now).eligible then reasons == [PlacementApplied, PlacementFresh]
      else if n.control == Passive then reasons == [PassiveProbeIgnored]
      else if n.trust == LanUnverified || n.trust == External then reasons == [UntrustedIgnored]
      else |reasons| == 1 && reasons[0] in [SourceIgnored, SummaryMissing, StatusIgnored, FreshnessMissing,
                                            SummaryStale, RateMissing]
  {
  }

  /** Reasons that are about the decision, not about its first node. */
  predicate AboutDecision(r: Reason) {
    r == NoEligibleNode || r == MaxApplied || r == MinUnmet || r == ConsensusApplied || r == SingleRouteApplied
    || r == PrimaryCode
  }

  lemma PolicyReasons(n: Node, consensus: bool, now: int, r: Reason)
    requires r in Classify(n, consensus, now).reasons
    ensures !AboutDecision(r)
  {
  }

  lemma PlacementReasons(n: Node, model: string, now: int, r: Reason)
    requires r in Place(n, model, now).reasons
    ensures !AboutDecision(r)
  {
  }

  lemma NodeReasons(n: Node, model: string, consensus: bool, now: int, r: Reason)
    requires AboutDecision(r)
    ensures r !in CandidateOf(n, model, consensus, now).metadata.reasons
  {
    if r in Classify(n, consensus, now).reasons { PolicyReasons(n, consensus, now, r); }
    if r in Place(n, model, now).reasons { PlacementReasons(n, model, now, r); }
  }

  lemma AmongParts(a: seq<Reason>, b: seq<Reason>, c: seq<Reason>, d: seq<Reason>, e: seq<Reason>, r: Reason)
    ensures r in a + b + c + d + e <==> r in a || r in b || r in c || r in d || r in e
  {
  }

  /** What a decision says about itself, when this many nodes were found. */
  predicate Says(r: Reason, consensus: bool, found: nat, required: int, limit: int, ok: bool, code: bool) {
    match r
    case NoEligibleNode => found == 0
    case MaxApplied => consensus && found > limit
    case MinUnmet => consensus && 0 < found < required
    case ConsensusApplied => consensus && !(0 < found < required)
    case SingleRouteApplied => found > 0 && !consensus
    case _ => ok && code
  }

  lemma RoutedReasons(plan: Plan, excluded: seq<Metadata>, resolved: Resolved)
    returns (cut: seq<Reason>, fixed: seq<Reason>, mode: seq<Reason>, own: seq<Reason>, code: seq<Reason>)
    requires resolved.candidates != [] && (plan.consensus ==> 1 <= plan.required <= plan.limit)
    requires plan.consensus ==> plan.required <= |resolved.candidates|
    ensures Conclude(plan, excluded, Some(resolved)).1
    ensures Conclude(plan, excluded, Some(resolved)).0.reasons == cut + fixed + mode + own + code
    ensures cut == if plan.consensus && |resolved.candidates| > plan.limit then [MaxApplied] else []
    ensures fixed == [ModelAvailable, NodeEnabled, NodeIsApproved, TrustEligible]
    ensures mode == [if plan.consensus then ConsensusApplied else SingleRouteApplied]
    ensures own == resolved.candidates[0].metadata.reasons
    ensures code == if Contains(plan.strategy, "code") then [PrimaryCode] else []
  {
    cut := if plan.consensus && |resolved.candidates| > plan.limit then [MaxApplied] else [];
    fixed := [ModelAvailable, NodeEnabled, NodeIsApproved, TrustEligible];
    mode := [if plan.consensus then ConsensusApplied else SingleRouteApplied];
    own := resolved.candidates[0].metadata.reasons;
    code := if Contains(plan.strategy, "code") then [PrimaryCode] else [];
  }

  lemma PartsSay(cut: seq<Reason>, fixed: seq<Reason>, mode: seq<Reason>, own: seq<Reason>, code: seq<Reason>,
                 r: Reason, consensus: bool, found: nat, required: int, limit: int, about: bool)
    requires AboutDecision(r) && r !in own && found > 0 && (consensus ==> required <= found)
    requires cut == if consensus && found > limit then [MaxApplied] else []
    requires fixed == [ModelAvailable, NodeEnabled, NodeIsApproved, TrustEligible]
    requires mode == [if consensus then ConsensusApplied else SingleRouteApplied]
    requires code == if about then [PrimaryCode] else []
    ensures r in cut + fixed + mode + own + code <==> Says(r, consensus, found, required, limit, true, about)
  {
    AmongParts(cut, fixed, mode, own, code, r);
  }

  lemma RoutedSays(plan: Plan, excluded: seq<Metadata>, resolved: Resolved, r: Reason)
    requires resolved.candidates != [] && (plan.consensus ==> 1 <= plan.required <= plan.limit)
    requires plan.consensus ==> plan.required <= |resolved.candidates|
    requires AboutDecision(r) && r !in resolved.candidates[0].metadata.reasons
    ensures var (d, ok) := Conclude(plan, excluded, Some(resolved));
      ok && (r in d.reasons <==>
               Says(r, plan.consensus, |resolved.candidates|, plan.required, plan.limit, true,
                    Contains(plan.strategy, "code")))
  {
    var cut, fixed, mode, own, code := RoutedReasons(plan, excluded, resolved);
    PartsSay(cut, fixed, mode, own, code, r, plan.consensus, |resolved.candidates|, plan.required, plan.limit,
             Contains(plan.strategy, "code"));
  }

  lemma UnroutedSays(plan: Plan, excluded: seq<Metadata>, resolved: Option<Resolved>, r: Reason)
    requires plan.consensus ==> 1 <= plan.required <= plan.limit
    requires resolved.Some? ==>
      plan.consensus && 0 < |resolved.value.candidates| < plan.required && resolved.value.candidates != []
    requires AboutDecision(r)
    ensures var (d, ok) := Conclude(plan, excluded, resolved);
      var found := if resolved.Some? then |resolved.value.candidates| else 0;
      !ok && (r in d.reasons <==> Says(r, plan.consensus, found, plan.required, plan.limit, false, false))
  {
  }

  /** Number of nodes that were found for the request: those that fit the first wanted model any node fits. */
  function Found(cfg: Config, nodes: seq<Node>, req: Request, now: int): nat {
    var plan, pool := PlanFor(cfg, req), Pool(cfg, nodes);
    var k := FirstServed(pool, plan.wanted, plan.consensus, now);
    if k < |plan.wanted| then Fitting(pool, plan.wanted[k], plan.consensus, now) else 0
  }

  lemma FoundAll(cfg: Config, nodes: seq<Node>, req: Request, now: int, resolved: Option<Resolved>, r: Reason)
    requires AboutDecision(r)
    requires var plan := PlanFor(cfg, req);
      resolved == Resolve(Ranked(cfg, nodes, plan.consensus), plan.wanted, plan.consensus, now)
    requires resolved.Some? ==> resolved.value.candidates != []
    ensures Found(cfg, nodes, req, now) == if resolved.Some? then |resolved.value.candidates| else 0
    ensures resolved.Some? ==> r !in resolved.value.candidates[0].metadata.reasons
  {
    var plan := PlanFor(cfg, req);
    var k := FirstServed(Pool(cfg, nodes), plan.wanted, plan.consensus, now);
    ResolveIsFirst(cfg, nodes, plan.wanted, plan.consensus, now);
    if k < |plan.wanted| {
      ChosenAre(cfg, nodes, plan.wanted[k], plan.consensus, now);
      NodeReasons(resolved.value.candidates[0].node, plan.wanted[k], plan.consensus, now, r);
    }
  }

  lemma ConcludeSays(plan: Plan, excluded: seq<Metadata>, resolved: Option<Resolved>, r: Reason, found: nat)
    requires AboutDecision(r) && (plan.consensus ==> 1 <= plan.required <= plan.limit)
    requires resolved.Some? ==>
      resolved.value.candidates != [] && r !in resolved.value.candidates[0].metadata.reasons
    requires found == if resolved.Some? then |resolved.value.candidates| else 0
    ensures var (d, ok) := Conclude(plan, excluded, resolved);
      r in d.reasons <==>
        Says(r, plan.consensus, found, plan.required, plan.limit, ok, Contains(plan.strategy, "code"))
  {
    if resolved.Some? && (plan.consensus ==> plan.required <= found) {
      RoutedSays(plan, excluded, resolved.value, r);
    } else {
      UnroutedSays(plan, excluded, resolved, r);
    }
  }

  /** The decision gives its own reasons exactly where they hold: no node was found, consensus took only as many as
   *  the limit allows or found fewer than it needs, one route or consensus was meant, the strategy is about code. */
  lemma DecisionExplains(cfg: Config, nodes: seq<Node>, req: Request, now: int, r: Reason)
    requires AboutDecision(r)
    ensures var (d, ok) := Decide(cfg, nodes, req, now);
      var found := Found(cfg, nodes, req, now);
      r in d.reasons <==> Says(r, ForConsensus(d), found, d.required, d.limit, ok, Occurs("code", d.strategy))
  {
    var plan := PlanFor(cfg, req);
    var excluded, resolved := DecideIs(cfg, nodes, req, now);
    FoundAll(cfg, nodes, req, now, resolved, r);
    ConcludeSays(plan, excluded, resolved, r, Found(cfg, nodes, req, now));
    OccursIs(plan.strategy, "code");
    ConcludeCarries(plan, excluded, resolved);
    MeansConsensus(cfg, req);
  }

  lemma MeansConsensus(cfg: Config, req: Request)
    ensures var plan := PlanFor(cfg, req);
      plan.consensus <==> Occurs("consensus", plan.mode) || Occurs("consensus", plan.strategy)
  {
    OccursIs(PlanFor(cfg, req).mode, "consensus");
    OccursIs(PlanFor(cfg, req).strategy, "consensus");
  }
}
