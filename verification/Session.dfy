// Session affinity (internal/session/session.go): a session may pin a single-route request to the node that
// served it before, as long as that node is still a candidate.
module Session {
  import opened Common
  import opened StableSort
  import opened RouterSpec
  import opened RouterSafety
  import ProxySafety
  import ProxySpec

  datatype Record = Record(id: string, affinity: string, node: string, model: string, request: string)

  /** The node a request goes to, given the node of the session's record, "" when there is none. */
  function Pinned(affinity: string, recorded: string, chosen: string, candidates: seq<string>): string {
    if recorded != "" && (affinity == "strict" || affinity == "task") && recorded in candidates
    then recorded
    else chosen
  }

  predicate Tracked(id: string, affinity: string) { id != "" && affinity != "none" }

  class Store {
    var sessions: map<string, Record>

    constructor ()
      ensures sessions == map[]
    {
      sessions := map[];
    }

    function RecordedNode(id: string): string
      reads this
    {
      if id in sessions then sessions[id].node else ""
    }

    /** The decision's node, or the one the session is pinned to, which is then recorded. */
    method ApplyAffinity(id: string, affinity: string, chosen: string, model: string, request: string,
                         candidates: seq<string>)
      returns (node: string)
      modifies this
      ensures !Tracked(id, affinity) ==> node == chosen && sessions == old(sessions)
      ensures Tracked(id, affinity) ==> node == Pinned(affinity, old(RecordedNode(id)), chosen, candidates)
      ensures Tracked(id, affinity) ==> sessions == old(sessions)[id := Record(id, affinity, node, model, request)]
    {
      node := chosen;
      if id == "" || affinity == "none" {
        return;
      }
      if id in sessions {
        var existing := sessions[id];
        if existing.node != "" && (affinity == "soft" || affinity == "strict" || affinity == "task") {
          if affinity == "strict" || affinity == "task" {
            var held := ContainsNode(candidates, existing.node);
            if held {
              node := existing.node;
            }
          }
        }
      }
      sessions := sessions[id := Record(id, affinity, node, model, request)];
    }
  }

  method ContainsNode(nodes: seq<string>, id: string) returns (found: bool)
    ensures found <==> id in nodes
  {
    for i := 0 to |nodes|
      invariant id !in nodes[..i]
    {
      if nodes[i] == id {
        return true;
      }
    }
    return false;
  }

  // ---------------------------------------------------------------- what is contacted

  /** The nodes a single-route request tries: the selected one, then the fallbacks of the decision. */
  function Contacted(d: Decision, selected: string): seq<string> { [selected] + d.fallbackNodes }

  /** Whatever the session recorded, every node tried passed the policy and serves the resolved model. */
  lemma ContactsEligible(cfg: Config, nodes: seq<Node>, req: Request, now: int, recorded: string)
    requires Decide(cfg, nodes, req, now).1 && !PlanFor(cfg, req).consensus
    ensures var d := Decide(cfg, nodes, req, now).0;
      var tried := Contacted(d, Pinned(d.affinity, recorded, d.selectedNode, d.candidateNodes));
      forall i :: 0 <= i < |tried| ==> Eligible(tried[i], d.resolvedModel, Pool(cfg, nodes), false, now)
  {
    var d := Decide(cfg, nodes, req, now).0;
    DecisionSound(cfg, nodes, req, now);
    var tried := Contacted(d, Pinned(d.affinity, recorded, d.selectedNode, d.candidateNodes));
    forall i | 0 <= i < |tried| ensures Eligible(tried[i], d.resolvedModel, Pool(cfg, nodes), false, now) {
      assert tried[i] in d.candidateNodes;
      var k :| 0 <= k < |d.candidateNodes| && d.candidateNodes[k] == tried[i];
    }
  }

  /** Joined to the wire: whatever the upstreams answer, the client accepts and the session recorded, every node a
   *  single-route request contacts passed the policy and serves the resolved model. */
  lemma OnlyEligibleContacted(cfg: Config, nodes: seq<Node>, req: Request, now: int, recorded: string,
                              writes: seq<ProxySpec.WriteResult>, attempts: seq<ProxySpec.Attempt>, stream: bool,
                              render: int -> ProxySpec.Bytes) returns (tried: seq<string>)
    requires Decide(cfg, nodes, req, now).1 && !PlanFor(cfg, req).consensus
    requires |attempts| == |Decide(cfg, nodes, req, now).0.candidateNodes|
    ensures var d := Decide(cfg, nodes, req, now).0;
      && tried == Contacted(d, Pinned(d.affinity, recorded, d.selectedNode, d.candidateNodes))
      && |tried| == |attempts|
      && ContactsOnly(ProxySpec.Serve(ProxySpec.Wire([], writes), tried, attempts, stream, render).0.log,
                      d.resolvedModel, Pool(cfg, nodes), now)
  {
    tried := AllTried(cfg, nodes, req, now, recorded);
    ProxySafety.OnlyGivenNodes(writes, tried, attempts, stream, render);
    var log := ProxySpec.Serve(ProxySpec.Wire([], writes), tried, attempts, stream, render).0.log;
    TriedOnWire(log, tried, Decide(cfg, nodes, req, now).0.resolvedModel, Pool(cfg, nodes), now);
  }

  /** Every contact of the log is with an eligible node. */
  ghost predicate ContactsOnly(log: seq<ProxySpec.Event>, model: string, pool: seq<Node>, now: int) {
    forall e :: e in log && e.Contacted? ==> Eligible(e.node, model, pool, false, now)
  }

  lemma AllTried(cfg: Config, nodes: seq<Node>, req: Request, now: int, recorded: string) returns (tried: seq<string>)
    requires Decide(cfg, nodes, req, now).1 && !PlanFor(cfg, req).consensus
    ensures var d := Decide(cfg, nodes, req, now).0;
      && tried == Contacted(d, Pinned(d.affinity, recorded, d.selectedNode, d.candidateNodes))
      && |tried| == |d.candidateNodes|
      && forall i :: 0 <= i < |tried| ==> Eligible(tried[i], d.resolvedModel, Pool(cfg, nodes), false, now)
  {
    var d := Decide(cfg, nodes, req, now).0;
    tried := Contacted(d, Pinned(d.affinity, recorded, d.selectedNode, d.candidateNodes));
    DecisionSound(cfg, nodes, req, now);
    ContactsEligible(cfg, nodes, req, now, recorded);
  }

  lemma TriedOnWire(log: seq<ProxySpec.Event>, tried: seq<string>, model: string, pool: seq<Node>, now: int)
    requires forall e :: e in log && e.Contacted? ==> e.node in tried
    requires forall i :: 0 <= i < |tried| ==> Eligible(tried[i], model, pool, false, now)
    ensures ContactsOnly(log, model, pool, now)
  {
    forall e | e in log && e.Contacted? ensures Eligible(e.node, model, pool, false, now) {
      var k :| 0 <= k < |tried| && tried[k] == e.node;
    }
  }

  /** The session holds the request on a node that is a candidate, but not the first. */
  predicate Moves(d: Decision, recorded: string)
    requires d.candidateNodes != []
  {
    recorded != "" && (d.affinity == "strict" || d.affinity == "task") && recorded in d.candidateNodes[1..]
  }

  /** The fallbacks are not recomputed for a pinned node: some node is tried twice, and the first candidate
   *  never, exactly if the session holds the request on a later candidate. */
  lemma TriedOnceIffUnmoved(d: Decision, recorded: string)
    requires NoRepeats(d.candidateNodes) && d.candidateNodes != []
    requires d.selectedNode == d.candidateNodes[0] && d.fallbackNodes == d.candidateNodes[1..]
    ensures var tried := Contacted(d, Pinned(d.affinity, recorded, d.selectedNode, d.candidateNodes));
      && (NoRepeats(tried) <==> !Moves(d, recorded))
      && (d.candidateNodes[0] in tried <==> !Moves(d, recorded))
      && |tried| == |d.candidateNodes|
  {
    var first, rest := d.candidateNodes[0], d.candidateNodes[1..];
    var pinned := Pinned(d.affinity, recorded, d.selectedNode, d.candidateNodes);
    var tried := Contacted(d, pinned);
    assert d.candidateNodes == [first] + rest;
    if Moves(d, recorded) {
      var k :| 0 <= k < |rest| && rest[k] == recorded;
      assert tried[0] == tried[k + 1] == recorded && d.candidateNodes[k + 1] == recorded;
      forall i | 0 <= i < |tried| ensures tried[i] != first {
        assert i > 0 ==> tried[i] == d.candidateNodes[i];
      }
    } else {
      assert pinned == first && tried == d.candidateNodes;
    }
  }

  /** A session held on the second of two equal nodes: it is the only one tried, twice. */
  lemma HeldOnSecondNode() returns (cfg: Config, req: Request)
    ensures var (d, ok) := Decide(cfg, [], req, 0);
      && ok && d.candidateNodes == ["a", "b"] && d.affinity == "strict"
      && Contacted(d, Pinned(d.affinity, "b", d.selectedNode, d.candidateNodes)) == ["b", "b"]
  {
    cfg := Config("m", "", "", map["m" := Alias("", ["m"], "", 0, 0, "strict")], ["a", "b"]);
    req := Request("m", "");
    var a, b := FromSubscriber("a"), FromSubscriber("b");
    assert PlanFor(cfg, req).wanted == ["m"] && !PlanFor(cfg, req).consensus;
    assert Unseen(["a", "b"][1..], {}) == [b];
    assert Pool(cfg, []) == [a, b];
    TwoInOrder(a, b);
    assert Ranked(cfg, [], false) == [a, b];
    ServesUnplaced(a);
    ServesUnplaced(b);
    TwoCandidates(a, b);
  }

  lemma TwoInOrder(a: Node, b: Node)
    requires a == FromSubscriber("a") && b == FromSubscriber("b")
    ensures Sort([a, b], ByScore(false)) == [a, b]
  {
    assert Score(a, false) == Score(b, false) && !StringLess("b", "a");
    SortTwo(a, b, ByScore(false));
  }

  lemma ServesUnplaced(n: Node)
    requires n == FromSubscriber(n.id)
    ensures Fits(n, "m", false, 0) && Place(n, "m", 0) == Ignored(SummaryMissing)
  {
  }

  lemma TwoCandidates(a: Node, b: Node)
    requires a == FromSubscriber("a") && b == FromSubscriber("b")
    requires Fits(a, "m", false, 0) && Fits(b, "m", false, 0)
    requires Place(a, "m", 0) == Place(b, "m", 0) == Ignored(SummaryMissing)
    ensures Resolve([a, b], ["m"], false, 0)
         == Some(Resolved("m", [CandidateOf(a, "m", false, 0), CandidateOf(b, "m", false, 0)]))
  {
    var x, y := CandidateOf(a, "m", false, 0), CandidateOf(b, "m", false, 0);
    assert [a, b][1..] == [b] && [b][1..] == [];
    assert Candidates([b], "m", false, 0) == [y];
    assert Candidates([a, b], "m", false, 0) == [x, y];
    SortTwo(x, y, ByPlacement());
    assert ["m"][0] == "m";
  }

  /** The nodes of consecutive requests of one strict session, given the decision of each. */
  function Route(recorded: string, affinity: string, decisions: seq<Decision>): seq<string>
    decreases |decisions|
  {
    if decisions == [] then []
    else
      var node := Pinned(affinity, recorded, decisions[0].selectedNode, decisions[0].candidateNodes);
      [node] + Route(node, affinity, decisions[1..])
  }

  /** A pinned session stays where it is for as long as its node stays a candidate, whatever is selected. */
  lemma {:induction false} StrictSessionsStick(node: string, affinity: string, decisions: seq<Decision>)
    requires node != "" && (affinity == "strict" || affinity == "task")
    requires forall i :: 0 <= i < |decisions| ==> node in decisions[i].candidateNodes
    ensures var route := Route(node, affinity, decisions);
      |route| == |decisions| && forall i :: 0 <= i < |route| ==> route[i] == node
    decreases |decisions|
  {
    if decisions != [] { StrictSessionsStick(node, affinity, decisions[1..]); }
  }
}
