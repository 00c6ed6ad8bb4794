// The loops of Select in internal/routing/routing.go: collecting the nodes, filtering them by policy for
// each wanted model in turn, and building the decision.
module Router {
  import opened Common
  import opened StableSort
  import opened RouterSpec
  import opened RouterSafety

  /** The newest result about the model. */
  method FindLatest(results: seq<Result>, model: string) returns (best: Option<Result>)
    ensures best == Latest(results, model, None)
  {
    best := None;
    for i := 0 to |results|
      invariant Latest(results[i..], model, best) == Latest(results, model, None)
    {
      assert results[i..][0] == results[i] && results[i..][1..] == results[i + 1..];
      if !About(results[i], model) {
        continue;
      }
      if best.None? || CompletedAt(results[i]) > CompletedAt(best.value) {
        best := Some(results[i]);
      }
    }
  }

  /** The stored nodes in the order the map yields them, then the subscribers none of them stands for. */
  method CollectNodes(stored: seq<Node>, subscribers: seq<string>) returns (nodes: seq<Node>)
    ensures nodes == stored + Unseen(subscribers, Ids(stored))
  {
    nodes := [];
    var seen: set<string> := {};
    for i := 0 to |stored|
      invariant nodes == stored[..i] && seen == Ids(stored[..i])
    {
      nodes := nodes + [stored[i]];
      assert stored[..i + 1] == stored[..i] + [stored[i]];
      seen := seen + {stored[i].id};
    }
    assert stored[..|stored|] == stored;
    for i := 0 to |subscribers|
      invariant nodes + Unseen(subscribers[i..], seen) == stored + Unseen(subscribers, seen)
    {
      assert subscribers[i..][0] == subscribers[i] && subscribers[i..][1..] == subscribers[i + 1..];
      ghost var rest := Unseen(subscribers[i + 1..], seen);
      if subscribers[i] !in seen {
        assert nodes + ([FromSubscriber(subscribers[i])] + rest) == nodes + [FromSubscriber(subscribers[i])] + rest;
        nodes := nodes + [FromSubscriber(subscribers[i])];
      } else {
        assert [] + rest == rest;
      }
    }
    assert nodes + [] == nodes;
  }

  /** One node: a candidate, or recorded as rejected unless its id already was, or passed over. */
  method Consider(node: Node, model: string, consensus: bool, now: int, found0: seq<Candidate>,
                  excluded0: seq<Metadata>, seen0: set<string>)
    returns (found: seq<Candidate>, excluded: seq<Metadata>, seen: set<string>)
    ensures found == found0 + CandidateIf(node, model, consensus, now)
    ensures excluded == excluded0 + RejectionIf(node, consensus, now, seen0)
    ensures seen == NextSeen(node, consensus, now, seen0)
  {
    found, excluded, seen := found0, excluded0, seen0;
    var policy := Classify(node, consensus, now);
    if !policy.eligible {
      if node.id !in seen {
        excluded := excluded + [MetadataOf(node, policy.reasons)];
        seen := seen + {node.id};
      }
      return;
    }
    if model in node.models || |node.models| == 0 {
      var placement := Place(node, model, now);
      found := found + [Candidate(node, placement, MetadataOf(node, policy.reasons + placement.reasons))];
    }
  }

  function SeenAfter(nodes: seq<Node>, consensus: bool, now: int, seen: set<string>): (r: set<string>)
    ensures seen <= r
    ensures forall n :: n in nodes && !Classify(n, consensus, now).eligible ==> n.id in r
  {
    if nodes == [] then seen else SeenAfter(nodes[1..], consensus, now, NextSeen(nodes[0], consensus, now, seen))
  }

  /** One wanted model: candidates are appended, rejected nodes are recorded unless they already were. */
  method Gather(ranked: seq<Node>, model: string, consensus: bool, now: int, excluded0: seq<Metadata>,
                seen0: set<string>)
    returns (found: seq<Candidate>, excluded: seq<Metadata>, seen: set<string>)
    ensures found == Candidates(ranked, model, consensus, now)
    ensures excluded == excluded0 + Excluded(ranked, consensus, now, seen0)
    ensures seen == SeenAfter(ranked, consensus, now, seen0)
  {
    found, excluded, seen := [], excluded0, seen0;
    for i := 0 to |ranked|
      invariant found + Candidates(ranked[i..], model, consensus, now) == Candidates(ranked, model, consensus, now)
      invariant excluded + Excluded(ranked[i..], consensus, now, seen)
             == excluded0 + Excluded(ranked, consensus, now, seen0)
      invariant SeenAfter(ranked[i..], consensus, now, seen) == SeenAfter(ranked, consensus, now, seen0)
    {
      ghost var node, rest := ranked[i], ranked[i + 1..];
      assert ranked[i..] == [node] + rest && ranked[i..][1..] == rest;
      Regroup(found, CandidateIf(node, model, consensus, now), Candidates(rest, model, consensus, now));
      Regroup(excluded, RejectionIf(node, consensus, now, seen),
              Excluded(rest, consensus, now, NextSeen(node, consensus, now, seen)));
      found, excluded, seen := Consider(ranked[i], model, consensus, now, found, excluded, seen);
    }
    assert found + [] == found && excluded + [] == excluded;
  }

  /** Once all rejected ids were recorded, later models record none. */
  lemma {:induction false} NothingNew(nodes: seq<Node>, consensus: bool, now: int, seen: set<string>)
    requires forall n :: n in nodes && !Classify(n, consensus, now).eligible ==> n.id in seen
    ensures Excluded(nodes, consensus, now, seen) == []
  {
    if nodes != [] {
      assert NextSeen(nodes[0], consensus, now, seen) == seen;
      NothingNew(nodes[1..], consensus, now, seen);
    }
  }

  /** The candidate models in turn, until one is served. */
  method FindServed(ranked: seq<Node>, wanted: seq<string>, consensus: bool, now: int)
    returns (resolved: Option<Resolved>, excluded: seq<Metadata>)
    ensures resolved == Resolve(ranked, wanted, consensus, now)
    ensures excluded == if wanted == [] then [] else Excluded(ranked, consensus, now, {})
  {
    resolved, excluded := None, [];
    var seen: set<string> := {};
    for i := 0 to |wanted|
      invariant Resolve(ranked, wanted[i..], consensus, now) == Resolve(ranked, wanted, consensus, now)
      invariant resolved == None
      invariant i == 0 ==> excluded == [] && seen == {}
      invariant i > 0 ==> excluded == Excluded(ranked, consensus, now, {})
      invariant i > 0 ==> forall n :: n in ranked && !Classify(n, consensus, now).eligible ==> n.id in seen
    {
      assert wanted[i..][0] == wanted[i] && wanted[i..][1..] == wanted[i + 1..];
      if i > 0 { NothingNew(ranked, consensus, now, seen); }
      var found;
      found, excluded, seen := Gather(ranked, wanted[i], consensus, now, excluded, seen);
      if |found| > 0 {
        resolved := Some(Resolved(wanted[i], Sort(found, ByPlacement())));
        return;
      }
    }
  }

  /** The decision about what was found. */
  method Finish(plan: Plan, excluded: seq<Metadata>, resolved: Option<Resolved>) returns (d: Decision, ok: bool)
    requires plan.consensus ==> 1 <= plan.required <= plan.limit
    requires resolved.Some? ==> resolved.value.candidates != []
    ensures (d, ok) == Conclude(plan, excluded, resolved)
  {
    d := Undecided(plan, excluded);
    var reasons: seq<Reason> := [];
    if resolved.None? {
      reasons := [NoEligibleNode];
      if plan.consensus {
        reasons := reasons + [ConsensusApplied];
      } else {
        assert reasons + [] == reasons;
      }
      return d.(reasons := reasons), false;
    }
    var kept := resolved.value.candidates;
    if plan.consensus && |kept| > plan.limit {
      kept := kept[..plan.limit];
      reasons := [MaxApplied];
    }
    d := d.(resolvedModel := resolved.value.model);
    d := d.(candidateNodes := NodeIds(kept), candidateMetadata := AllMetadata(kept));
    if plan.consensus && |d.candidateNodes| < plan.required {
      reasons := reasons + [MinUnmet];
      return d.(reasons := reasons), false;
    }
    d := d.(selectedNode := d.candidateNodes[0], fallbackNodes := d.candidateNodes[1..]);
    reasons := reasons + [ModelAvailable, NodeEnabled, NodeIsApproved, TrustEligible];
    reasons := reasons + [if plan.consensus then ConsensusApplied else SingleRouteApplied];
    reasons := reasons + d.candidateMetadata[0].reasons;
    if Contains(d.strategy, "code") {
      reasons := reasons + [PrimaryCode];
    } else {
      assert reasons + [] == reasons;
    }
    return d.(reasons := reasons), true;
  }

  /** Select, for the nodes in the order the map yields them. */
  method Select(cfg: Config, stored: seq<Node>, req: Request, now: int) returns (d: Decision, ok: bool)
    ensures (d, ok) == Decide(cfg, stored, req, now)
  {
    var plan := PlanFor(cfg, req);
    var nodes := CollectNodes(stored, cfg.subscribers);
    var ranked := Sort(nodes, ByScore(plan.consensus));
    var resolved, excluded := FindServed(ranked, plan.wanted, plan.consensus, now);
    ResolvedNotEmpty(ranked, plan.wanted, plan.consensus, now);
    d, ok := Finish(plan, excluded, resolved);
  }
}
