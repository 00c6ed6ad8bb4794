// What a routing decision guarantees: it does not depend on the order the node map is read in, it is
// resolved to the first model somebody serves, and every candidate passed the policy.
module RouterSafety {
  import opened Common
  import opened StableSort
  import opened RouterSpec

  lemma ByScoreOrders(consensus: bool)
    ensures WeakOrder(ByScore(consensus))
  {
    var less := ByScore(consensus);
    forall x, y | less(x, y) ensures !less(y, x) { StringLessTotal(x.id, y.id); }
    forall x, y, z | less(x, z) ensures less(x, y) || less(y, z) {
      if StringLess(x.id, z.id) { StringLessSplit(x.id, y.id, z.id); }
    }
  }

  lemma ByPlacementOrders()
    ensures WeakOrder(ByPlacement())
  {
  }

  /** Different node ids never tie. */
  lemma IdsBreakTies(a: Node, b: Node, consensus: bool)
    requires a.id != b.id
    ensures !Tied(a, b, ByScore(consensus))
  {
    StringLessTotal(a.id, b.id);
  }

  // ---------------------------------------------------------------- the order of the node map

  ghost predicate DistinctIds(nodes: seq<Node>) {
    forall i, j :: 0 <= i < j < |nodes| ==> nodes[i].id != nodes[j].id
  }

  lemma DistinctIdsNoTies(nodes: seq<Node>, consensus: bool)
    requires DistinctIds(nodes)
    ensures NoTies(nodes, ByScore(consensus))
  {
    forall i, j | 0 <= i < j < |nodes| ensures !Tied(nodes[i], nodes[j], ByScore(consensus)) {
      IdsBreakTies(nodes[i], nodes[j], consensus);
    }
  }

  lemma RankedIrrelevant(cfg: Config, nodes: seq<Node>, others: seq<Node>, consensus: bool)
    requires DistinctIds(nodes) && DistinctIds(others) && multiset(nodes) == multiset(others)
    ensures Ranked(cfg, nodes, consensus) == Ranked(cfg, others, consensus)
  {
    var less, subs := ByScore(consensus), Unseen(cfg.subscribers, Ids(nodes));
    MemberOf(nodes, others);
    assert Ids(nodes) == Ids(others);
    ByScoreOrders(consensus);
    DistinctIdsNoTies(nodes, consensus);
    DistinctIdsNoTies(others, consensus);
    OrderIrrelevant(nodes, others, [], less);
    InsertAllConcat(nodes, subs, [], less);
    InsertAllConcat(others, subs, [], less);
  }

  /** And for every stable sort: any list of the nodes that is sorted by score and id and keeps ties in their old
   *  order is the ranked list, whatever the enumeration was. */
  lemma EveryStableSortRanks(cfg: Config, nodes: seq<Node>, others: seq<Node>, consensus: bool, ranked: seq<Node>)
    requires DistinctIds(nodes) && DistinctIds(others) && multiset(nodes) == multiset(others)
    requires Sorted(ranked, ByScore(consensus))
    requires SameTies(others + Unseen(cfg.subscribers, Ids(others)), ranked, ByScore(consensus))
    ensures ranked == Ranked(cfg, nodes, consensus)
  {
    ByScoreOrders(consensus);
    OneStableSort(others + Unseen(cfg.subscribers, Ids(others)), ranked, ByScore(consensus));
    RankedIrrelevant(cfg, nodes, others, consensus);
  }

  /** The decision is a function of the set of nodes: any two enumerations of it decide alike, in every field. */
  lemma EnumerationIrrelevant(cfg: Config, nodes: seq<Node>, others: seq<Node>, req: Request, now: int)
    requires DistinctIds(nodes) && DistinctIds(others) && multiset(nodes) == multiset(others)
    ensures Decide(cfg, nodes, req, now) == Decide(cfg, others, req, now)
  {
    RankedIrrelevant(cfg, nodes, others, PlanFor(cfg, req).consensus);
  }

  // ---------------------------------------------------------------- which nodes become candidates

  function Pool(cfg: Config, nodes: seq<Node>): seq<Node> { nodes + Unseen(cfg.subscribers, Ids(nodes)) }

  lemma {:induction false} CandidatesConcat(s: seq<Node>, t: seq<Node>, model: string, consensus: bool, now: int)
    ensures Candidates(s + t, model, consensus, now)
         == Candidates(s, model, consensus, now) + Candidates(t, model, consensus, now)
  {
    if s == [] {
      assert s + t == t;
    } else {
      assert (s + t)[1..] == s[1..] + t;
      CandidatesConcat(s[1..], t, model, consensus, now);
    }
  }

  lemma {:induction false} CandidatesAre(s: seq<Node>, model: string, consensus: bool, now: int)
    ensures forall c :: c in Candidates(s, model, consensus, now) ==>
      c.node in s && Fits(c.node, model, consensus, now) && c == CandidateOf(c.node, model, consensus, now)
    ensures forall n :: n in s && Fits(n, model, consensus, now) ==>
      CandidateOf(n, model, consensus, now) in Candidates(s, model, consensus, now)
  {
    if s != [] { CandidatesAre(s[1..], model, consensus, now); }
  }

  lemma {:induction false} InsertCandidates(x: Node, s: seq<Node>, less: (Node, Node) -> bool, model: string,
                                            consensus: bool, now: int)
    ensures multiset(Candidates(Insert(x, s, less), model, consensus, now))
         == multiset(Candidates([x], model, consensus, now)) + multiset(Candidates(s, model, consensus, now))
  {
    if s != [] && !less(x, s[0]) {
      InsertCandidates(x, s[1..], less, model, consensus, now);
      CandidatesConcat([s[0]], Insert(x, s[1..], less), model, consensus, now);
      CandidatesConcat([s[0]], s[1..], model, consensus, now);
      assert s == [s[0]] + s[1..];
    } else {
      CandidatesConcat([x], s, model, consensus, now);
      assert [x] + [] == [x];
    }
  }

  /** Sorting the nodes first only rearranges the candidates. */
  lemma {:induction false} InsertAllCandidates(xs: seq<Node>, s: seq<Node>, less: (Node, Node) -> bool, model: string,
                                               consensus: bool, now: int)
    ensures multiset(Candidates(InsertAll(xs, s, less), model, consensus, now))
         == multiset(Candidates(xs, model, consensus, now)) + multiset(Candidates(s, model, consensus, now))
  {
    if xs != [] {
      InsertCandidates(xs[0], s, less, model, consensus, now);
      InsertAllCandidates(xs[1..], Insert(xs[0], s, less), less, model, consensus, now);
      CandidatesConcat([xs[0]], xs[1..], model, consensus, now);
      assert xs == [xs[0]] + xs[1..];
    }
  }

  /** Nodes of the pool that pass the policy and serve the model. */
  function Fitting(pool: seq<Node>, model: string, consensus: bool, now: int): nat {
    |Candidates(pool, model, consensus, now)|
  }

  /** The candidates found for a wanted model: the fitting nodes of the pool, all of them, rearranged. */
  lemma FoundAre(cfg: Config, nodes: seq<Node>, model: string, consensus: bool, now: int)
    ensures var found := Candidates(Ranked(cfg, nodes, consensus), model, consensus, now);
      multiset(found) == multiset(Candidates(Pool(cfg, nodes), model, consensus, now))
      && |found| == Fitting(Pool(cfg, nodes), model, consensus, now)
  {
    var pool := Pool(cfg, nodes);
    InsertAllCandidates(pool, [], ByScore(consensus), model, consensus, now);
    var found := Candidates(Ranked(cfg, nodes, consensus), model, consensus, now);
    assert |multiset(found)| == |found|;
    assert |multiset(Candidates(pool, model, consensus, now))| == Fitting(pool, model, consensus, now);
  }

  /** Index of the first wanted model that some node of the pool fits. */
  function FirstServed(pool: seq<Node>, wanted: seq<string>, consensus: bool, now: int): (k: nat)
    ensures k <= |wanted|
    ensures k < |wanted| ==> Fitting(pool, wanted[k], consensus, now) > 0
    ensures forall j :: 0 <= j < k ==> Fitting(pool, wanted[j], consensus, now) == 0
  {
    if |wanted| == 0 || Fitting(pool, wanted[0], consensus, now) > 0 then 0
    else 1 + FirstServed(pool, wanted[1..], consensus, now)
  }

  lemma {:induction false} ResolveFirst(ranked: seq<Node>, pool: seq<Node>, wanted: seq<string>, consensus: bool,
                                        now: int)
    requires forall m: string :: |Candidates(ranked, m, consensus, now)| == Fitting(pool, m, consensus, now)
    ensures var k := FirstServed(pool, wanted, consensus, now);
      Resolve(ranked, wanted, consensus, now)
        == if k == |wanted| then None
           else Some(Resolved(wanted[k], Sort(Candidates(ranked, wanted[k], consensus, now), ByPlacement())))
  {
    if |wanted| > 0 {
      assert |Candidates(ranked, wanted[0], consensus, now)| == Fitting(pool, wanted[0], consensus, now);
      ResolveFirst(ranked, pool, wanted[1..], consensus, now);
    }
  }

  lemma ResolveIsFirst(cfg: Config, nodes: seq<Node>, wanted: seq<string>, consensus: bool, now: int)
    ensures var k := FirstServed(Pool(cfg, nodes), wanted, consensus, now);
      var ranked := Ranked(cfg, nodes, consensus);
      Resolve(ranked, wanted, consensus, now)
        == if k == |wanted| then None
           else Some(Resolved(wanted[k], Sort(Candidates(ranked, wanted[k], consensus, now), ByPlacement())))
  {
    var ranked, pool := Ranked(cfg, nodes, consensus), Pool(cfg, nodes);
    forall m: string ensures |Candidates(ranked, m, consensus, now)| == Fitting(pool, m, consensus, now) {
      FoundAre(cfg, nodes, m, consensus, now);
    }
    ResolveFirst(ranked, pool, wanted, consensus, now);
  }

  /** The candidates of a decision, before consensus cuts the list. */
  function Chosen(cfg: Config, nodes: seq<Node>, model: string, consensus: bool, now: int): seq<Candidate> {
    Sort(Candidates(Ranked(cfg, nodes, consensus), model, consensus, now), ByPlacement())
  }

  lemma ChosenAre(cfg: Config, nodes: seq<Node>, model: string, consensus: bool, now: int)
    ensures var c := Chosen(cfg, nodes, model, consensus, now); var pool := Pool(cfg, nodes);
      && |c| == Fitting(pool, model, consensus, now)
      && (forall i :: 0 <= i < |c| ==> c[i].node in pool && Fits(c[i].node, model, consensus, now)
                                       && c[i] == CandidateOf(c[i].node, model, consensus, now))
      && (forall n :: n in pool && Fits(n, model, consensus, now) ==> CandidateOf(n, model, consensus, now) in c)
  {
    var c, pool := Chosen(cfg, nodes, model, consensus, now), Pool(cfg, nodes);
    var found := Candidates(Ranked(cfg, nodes, consensus), model, consensus, now);
    FoundAre(cfg, nodes, model, consensus, now);
    SortKeeps(found, ByPlacement());
    MemberOf(c, Candidates(pool, model, consensus, now));
    CandidatesAre(pool, model, consensus, now);
    forall i | 0 <= i < |c| ensures c[i] in Candidates(pool, model, consensus, now) {}
  }

  predicate Enough(plan: Plan, pool: seq<Node>, model: string, now: int) {
    plan.consensus ==> plan.required <= Fitting(pool, model, plan.consensus, now)
  }

  /** A request is routed exactly if some wanted model is served, and for consensus by enough nodes. The
   *  resolved model is the first served one; every candidate passed the policy and serves it; a single route
   *  lists all such nodes, consensus between the required number and the limit, at most eight. */
  lemma DecisionSound(cfg: Config, nodes: seq<Node>, req: Request, now: int)
    ensures var (d, ok) := Decide(cfg, nodes, req, now);
      var plan, pool := PlanFor(cfg, req), Pool(cfg, nodes);
      var k := FirstServed(pool, plan.wanted, plan.consensus, now);
      && (ok <==> k < |plan.wanted| && Enough(plan, pool, plan.wanted[k], now))
      && (ok ==> Admitted(d, plan, pool, plan.wanted[k], now))
      && (!ok ==> d.selectedNode == "" && d.fallbackNodes == [])
  {
    var plan, pool := PlanFor(cfg, req), Pool(cfg, nodes);
    var k := FirstServed(pool, plan.wanted, plan.consensus, now);
    ResolveIsFirst(cfg, nodes, plan.wanted, plan.consensus, now);
    if k < |plan.wanted| {
      var all := Chosen(cfg, nodes, plan.wanted[k], plan.consensus, now);
      ChosenAre(cfg, nodes, plan.wanted[k], plan.consensus, now);
      ConcludeAdmits(plan, Decide(cfg, nodes, req, now).0.excludedNodes, plan.wanted[k], all, pool, now);
    }
  }

  ghost predicate Admitted(d: Decision, plan: Plan, pool: seq<Node>, model: string, now: int) {
    && d.resolvedModel == model && d.candidateNodes != []
    && d.selectedNode == d.candidateNodes[0] && d.fallbackNodes == d.candidateNodes[1..]
    && |d.candidateMetadata| == |d.candidateNodes|
    && (forall i :: 0 <= i < |d.candidateNodes| ==> Eligible(d.candidateNodes[i], model, pool, plan.consensus, now))
    && (!plan.consensus ==> forall n :: n in pool && Fits(n, model, false, now) ==> n.id in d.candidateNodes)
    && (plan.consensus ==>
          1 <= d.required <= |d.candidateNodes| <= d.limit <= MAX_PARTICIPANTS
          && d.required == plan.required && d.limit == plan.limit
          && (|d.candidateNodes| < d.limit ==> |d.candidateNodes| == Fitting(pool, model, true, now)))
  }

  ghost predicate Eligible(id: string, model: string, pool: seq<Node>, consensus: bool, now: int) {
    exists n :: n in pool && n.id == id && Fits(n, model, consensus, now)
  }

  lemma ConcludeAdmits(plan: Plan, excluded: seq<Metadata>, model: string, all: seq<Candidate>, pool: seq<Node>,
                       now: int)
    requires all != [] && (plan.consensus ==> 1 <= plan.required <= plan.limit <= MAX_PARTICIPANTS)
    requires forall i :: 0 <= i < |all| ==> all[i].node in pool && Fits(all[i].node, model, plan.consensus, now)
    requires forall n :: n in pool && Fits(n, model, plan.consensus, now) ==>
      CandidateOf(n, model, plan.consensus, now) in all
    requires |all| == Fitting(pool, model, plan.consensus, now)
    ensures var (d, ok) := Conclude(plan, excluded, Some(Resolved(model, all)));
      && (ok <==> (plan.consensus ==> plan.required <= |all|))
      && (ok ==> Admitted(d, plan, pool, model, now))
  {
    var (d, ok) := Conclude(plan, excluded, Some(Resolved(model, all)));
    forall i | 0 <= i < |d.candidateNodes| ensures Eligible(d.candidateNodes[i], model, pool, plan.consensus, now) {
      assert d.candidateNodes[i] == all[i].node.id;
    }
    if !plan.consensus {
      forall n | n in pool && Fits(n, model, false, now) ensures n.id in d.candidateNodes {
        var c := CandidateOf(n, model, false, now);
        assert c in all;
        var i :| 0 <= i < |all| && all[i] == c;
        assert d.candidateNodes[i] == n.id;
      }
    }
  }

  // ---------------------------------------------------------------- the order the candidates are tried in

  function OlderOrder(consensus: bool): (Candidate, Candidate) -> bool {
    (a: Candidate, b: Candidate) => NodeLess(a.node, b.node, consensus)
  }

  ghost predicate InNodeOrder(s: seq<Node>, consensus: bool) {
    forall i, j :: 0 <= i < j < |s| ==> !NodeLess(s[j], s[i], consensus)
  }

  lemma RankedInOrder(cfg: Config, nodes: seq<Node>, consensus: bool)
    ensures InNodeOrder(Ranked(cfg, nodes, consensus), consensus)
  {
    var less, pool := ByScore(consensus), Pool(cfg, nodes);
    ByScoreOrders(consensus);
    SortOrdered(pool, less, (a: Node, b: Node) => false);
    var s := Ranked(cfg, nodes, consensus);
    forall i, j | 0 <= i < j < |s| ensures !NodeLess(s[j], s[i], consensus) {
      assert InOrder(s[i], s[j], less, (a: Node, b: Node) => false);
    }
  }

  ghost predicate StillInOrder(c: seq<Candidate>, consensus: bool) {
    forall i, j :: 0 <= i < j < |c| ==> !OlderOrder(consensus)(c[j], c[i])
  }

  lemma {:induction false} CandidatesInOrder(s: seq<Node>, model: string, consensus: bool, now: int)
    requires InNodeOrder(s, consensus)
    ensures StillInOrder(Candidates(s, model, consensus, now), consensus)
  {
    if s != [] {
      var rest := Candidates(s[1..], model, consensus, now);
      CandidatesInOrder(s[1..], model, consensus, now);
      CandidatesAre(s[1..], model, consensus, now);
      if Fits(s[0], model, consensus, now) {
        var first := CandidateOf(s[0], model, consensus, now);
        forall j | 0 <= j < |rest| ensures !OlderOrder(consensus)(rest[j], first) {
          assert rest[j] in rest;
          var k :| 0 <= k < |s[1..]| && s[1..][k] == rest[j].node;
          assert s[k + 1] == rest[j].node;
        }
        PrependInOrder(first, rest, consensus);
      } else {
        assert [] + rest == rest;
      }
    }
  }

  lemma PrependInOrder(first: Candidate, rest: seq<Candidate>, consensus: bool)
    requires StillInOrder(rest, consensus) && forall j :: 0 <= j < |rest| ==> !OlderOrder(consensus)(rest[j], first)
    ensures StillInOrder([first] + rest, consensus)
  {
    var c := [first] + rest;
    forall i, j | 0 <= i < j < |c| ensures !OlderOrder(consensus)(c[j], c[i]) {
      assert c[j] == rest[j - 1] && (i > 0 ==> c[i] == rest[i - 1]);
    }
  }

  /** Candidates with a fresh benchmark come first, by rate; where that does not decide, score and id do. */
  lemma ChosenInOrder(cfg: Config, nodes: seq<Node>, model: string, consensus: bool, now: int)
    ensures Ordered(Chosen(cfg, nodes, model, consensus, now), ByPlacement(), OlderOrder(consensus))
  {
    var found, older := Candidates(Ranked(cfg, nodes, consensus), model, consensus, now), OlderOrder(consensus);
    RankedInOrder(cfg, nodes, consensus);
    CandidatesInOrder(Ranked(cfg, nodes, consensus), model, consensus, now);
    ByPlacementOrders();
    assert forall i, j :: 0 <= i < j < |found| ==> !older(found[j], found[i]);
    SortOrdered(found, ByPlacement(), older);
  }

  ghost predicate AllCandidatesFor(c: seq<Candidate>, model: string, consensus: bool, now: int) {
    forall i :: 0 <= i < |c| ==> c[i] == CandidateOf(c[i].node, model, consensus, now)
  }

  lemma ConcludeLists(plan: Plan, excluded: seq<Metadata>, model: string, all: seq<Candidate>) returns (n: nat)
    requires all != [] && (plan.consensus ==> 1 <= plan.required <= plan.limit)
    ensures n <= |all|
    ensures var d := Conclude(plan, excluded, Some(Resolved(model, all))).0;
      d.resolvedModel == model && d.candidateNodes == NodeIds(all[..n]) && d.candidateMetadata == AllMetadata(all[..n])
  {
    n := if plan.consensus && |all| > plan.limit then plan.limit else |all|;
    assert all[..|all|] == all;
  }

  /** The decision lists its candidates in that order. */
  lemma DecisionInOrder(cfg: Config, nodes: seq<Node>, req: Request, now: int) returns (listed: seq<Candidate>)
    requires Decide(cfg, nodes, req, now).1
    ensures Decide(cfg, nodes, req, now).0.candidateNodes == NodeIds(listed)
    ensures Decide(cfg, nodes, req, now).0.candidateMetadata == AllMetadata(listed)
    ensures Ordered(listed, ByPlacement(), OlderOrder(PlanFor(cfg, req).consensus))
    ensures AllCandidatesFor(listed, Decide(cfg, nodes, req, now).0.resolvedModel, PlanFor(cfg, req).consensus, now)
    ensures forall i :: 0 <= i < |listed| ==> listed[i].node in Pool(cfg, nodes)
  {
    var plan, pool := PlanFor(cfg, req), Pool(cfg, nodes);
    var k := FirstServed(pool, plan.wanted, plan.consensus, now);
    ResolveIsFirst(cfg, nodes, plan.wanted, plan.consensus, now);
    var all := Chosen(cfg, nodes, plan.wanted[k], plan.consensus, now);
    ChosenAre(cfg, nodes, plan.wanted[k], plan.consensus, now);
    var n := ConcludeLists(plan, Decide(cfg, nodes, req, now).0.excludedNodes, plan.wanted[k], all);
    listed := all[..n];
    ChosenInOrder(cfg, nodes, plan.wanted[k], plan.consensus, now);
    OrderedPrefix(all, n, ByPlacement(), OlderOrder(plan.consensus));
  }

  /** m is tried before n: a fresh benchmark first, the faster first; otherwise the higher score, then the id. */
  predicate Preferred(m: Node, n: Node, model: string, consensus: bool, now: int) {
    var a, b := Place(m, model, now), Place(n, model, now);
    if a.eligible != b.eligible then a.eligible
    else if a.eligible && a.score != b.score then a.score > b.score
    else
      Score(m, consensus) > Score(n, consensus)
      || (Score(m, consensus) == Score(n, consensus) && !StringLess(n.id, m.id))
  }

  /** The selected node is preferred to every node of the pool that passes the policy and serves the model. */
  lemma SelectedIsBest(cfg: Config, nodes: seq<Node>, req: Request, now: int, n: Node) returns (m: Node)
    requires Decide(cfg, nodes, req, now).1
    requires n in Pool(cfg, nodes)
    requires Fits(n, Decide(cfg, nodes, req, now).0.resolvedModel, PlanFor(cfg, req).consensus, now)
    ensures m in Pool(cfg, nodes) && m.id == Decide(cfg, nodes, req, now).0.selectedNode
    ensures Preferred(m, n, Decide(cfg, nodes, req, now).0.resolvedModel, PlanFor(cfg, req).consensus, now)
  {
    var plan, pool := PlanFor(cfg, req), Pool(cfg, nodes);
    var k := FirstServed(pool, plan.wanted, plan.consensus, now);
    ResolveIsFirst(cfg, nodes, plan.wanted, plan.consensus, now);
    var model := plan.wanted[k];
    var all := Chosen(cfg, nodes, model, plan.consensus, now);
    ChosenAre(cfg, nodes, model, plan.consensus, now);
    m := all[0].node;
    ChosenInOrder(cfg, nodes, model, plan.consensus, now);
    FirstIsPreferred(all, model, plan.consensus, now, n);
  }

  lemma FirstIsPreferred(all: seq<Candidate>, model: string, consensus: bool, now: int, n: Node)
    requires all != [] && all[0] == CandidateOf(all[0].node, model, consensus, now)
    requires CandidateOf(n, model, consensus, now) in all && Ordered(all, ByPlacement(), OlderOrder(consensus))
    ensures Preferred(all[0].node, n, model, consensus, now)
  {
    var c := CandidateOf(n, model, consensus, now);
    var i :| 0 <= i < |all| && all[i] == c;
    StringLessTotal(n.id, n.id);
    if i > 0 { assert InOrder(all[0], all[i], ByPlacement(), OlderOrder(consensus)); }
  }

  lemma EarlierIsPreferred(all: seq<Candidate>, model: string, consensus: bool, now: int, i: nat, j: nat)
    requires i < j < |all| && AllCandidatesFor(all, model, consensus, now)
    requires Ordered(all, ByPlacement(), OlderOrder(consensus))
    ensures Preferred(all[i].node, all[j].node, model, consensus, now)
  {
    assert InOrder(all[i], all[j], ByPlacement(), OlderOrder(consensus));
    StringLessTotal(all[j].node.id, all[i].node.id);
  }

  /** Consensus leaves out nobody it should have asked: every node it takes is preferred to every fitting node it
   *  does not take. */
  lemma CutAreNotPreferred(cfg: Config, nodes: seq<Node>, req: Request, now: int, n: Node, i: nat) returns (m: Node)
    requires Decide(cfg, nodes, req, now).1 && i < |Decide(cfg, nodes, req, now).0.candidateNodes|
    requires n in Pool(cfg, nodes) && n.id !in Decide(cfg, nodes, req, now).0.candidateNodes
    requires Fits(n, Decide(cfg, nodes, req, now).0.resolvedModel, PlanFor(cfg, req).consensus, now)
    ensures m in Pool(cfg, nodes) && m.id == Decide(cfg, nodes, req, now).0.candidateNodes[i]
    ensures Preferred(m, n, Decide(cfg, nodes, req, now).0.resolvedModel, PlanFor(cfg, req).consensus, now)
  {
    var plan, pool, d := PlanFor(cfg, req), Pool(cfg, nodes), Decide(cfg, nodes, req, now).0;
    var k := FirstServed(pool, plan.wanted, plan.consensus, now);
    ResolveIsFirst(cfg, nodes, plan.wanted, plan.consensus, now);
    var model := plan.wanted[k];
    var all := Chosen(cfg, nodes, model, plan.consensus, now);
    ChosenAre(cfg, nodes, model, plan.consensus, now);
    ChosenInOrder(cfg, nodes, model, plan.consensus, now);
    var taken := ConcludeLists(plan, d.excludedNodes, model, all);
    m := all[i].node;
    var j := PlaceInList(all, CandidateOf(n, model, plan.consensus, now), taken, d.candidateNodes);
    EarlierIsPreferred(all, model, plan.consensus, now, i, j);
  }

  lemma PlaceInList(all: seq<Candidate>, c: Candidate, taken: nat, ids: seq<string>) returns (j: nat)
    requires c in all && taken <= |all| && ids == NodeIds(all[..taken]) && c.node.id !in ids
    ensures taken <= j < |all| && all[j] == c
  {
    assert forall i :: 0 <= i < taken ==> ids[i] == all[i].node.id && ids[i] in ids;
    j :| 0 <= j < |all| && all[j] == c;
  }

  lemma OrderedPrefix<T(!new)>(s: seq<T>, n: nat, less: (T, T) -> bool, older: (T, T) -> bool)
    requires Ordered(s, less, older) && n <= |s|
    ensures Ordered(s[..n], less, older)
  {
    forall i, j | 0 <= i < j < n ensures InOrder(s[..n][i], s[..n][j], less, older) {
      assert InOrder(s[i], s[j], less, older);
    }
  }

  // ---------------------------------------------------------------- candidates are distinct

  ghost predicate NoRepeats(s: seq<string>) { forall i, j :: 0 <= i < j < |s| ==> s[i] != s[j] }

  function SameId(): (Candidate, Candidate) -> bool { (a: Candidate, b: Candidate) => a.node.id == b.node.id }

  lemma {:induction false} CandidatesApart(s: seq<Node>, model: string, consensus: bool, now: int)
    requires Apart(s, (a: Node, b: Node) => a.id == b.id)
    ensures Apart(Candidates(s, model, consensus, now), SameId())
  {
    if s != [] {
      var rest := Candidates(s[1..], model, consensus, now);
      CandidatesApart(s[1..], model, consensus, now);
      CandidatesAre(s[1..], model, consensus, now);
      if Fits(s[0], model, consensus, now) {
        forall c | c in rest ensures c.node.id != s[0].id {
          var k :| 0 <= k < |s[1..]| && s[1..][k] == c.node;
          assert s[k + 1] == c.node;
        }
        PrependApart(CandidateOf(s[0], model, consensus, now), rest, SameId());
      } else {
        assert [] + rest == rest;
      }
    }
  }

  lemma ChosenApart(cfg: Config, nodes: seq<Node>, model: string, consensus: bool, now: int)
    requires DistinctIds(Pool(cfg, nodes))
    ensures Apart(Chosen(cfg, nodes, model, consensus, now), SameId())
  {
    var same := (a: Node, b: Node) => a.id == b.id;
    InsertAllApart(Pool(cfg, nodes), [], ByScore(consensus), same);
    CandidatesApart(Ranked(cfg, nodes, consensus), model, consensus, now);
    InsertAllApart(Candidates(Ranked(cfg, nodes, consensus), model, consensus, now), [], ByPlacement(), SameId());
  }

  /** With distinct nodes no candidate is listed twice. */
  lemma CandidatesDistinct(cfg: Config, nodes: seq<Node>, req: Request, now: int)
    requires DistinctIds(Pool(cfg, nodes))
    ensures NoRepeats(Decide(cfg, nodes, req, now).0.candidateNodes)
  {
    var plan, pool := PlanFor(cfg, req), Pool(cfg, nodes);
    var k := FirstServed(pool, plan.wanted, plan.consensus, now);
    ResolveIsFirst(cfg, nodes, plan.wanted, plan.consensus, now);
    if k < |plan.wanted| {
      var all := Chosen(cfg, nodes, plan.wanted[k], plan.consensus, now);
      ChosenApart(cfg, nodes, plan.wanted[k], plan.consensus, now);
      ChosenAre(cfg, nodes, plan.wanted[k], plan.consensus, now);
      var n := ConcludeLists(plan, Decide(cfg, nodes, req, now).0.excludedNodes, plan.wanted[k], all);
      IdsApart(all, n);
    }
  }

  lemma IdsApart(c: seq<Candidate>, n: nat)
    requires Apart(c, SameId()) && n <= |c|
    ensures NoRepeats(NodeIds(c[..n]))
  {
    forall i, j | 0 <= i < j < n ensures NodeIds(c[..n])[i] != NodeIds(c[..n])[j] {
      assert !SameId()(c[i], c[j]);
    }
  }

  // ---------------------------------------------------------------- excluded nodes

  lemma ExcludedSkips(nodes: seq<Node>, consensus: bool, now: int, seen: set<string>)
    requires nodes != [] && (Classify(nodes[0], consensus, now).eligible || nodes[0].id in seen)
    ensures Excluded(nodes, consensus, now, seen) == Excluded(nodes[1..], consensus, now, seen)
  {
    var rest := Excluded(nodes[1..], consensus, now, seen);
    assert NextSeen(nodes[0], consensus, now, seen) == seen;
    assert [] + rest == rest;
  }

  lemma {:induction false} ExcludedAreRejected(nodes: seq<Node>, consensus: bool, now: int, seen: set<string>)
    ensures forall m :: m in Excluded(nodes, consensus, now, seen) ==>
      m.id !in seen && exists n :: n in nodes && Rejected(n, m, consensus, now)
  {
    if nodes != [] {
      var n, policy := nodes[0], Classify(nodes[0], consensus, now);
      if policy.eligible || n.id in seen {
        ExcludedSkips(nodes, consensus, now, seen);
        ExcludedAreRejected(nodes[1..], consensus, now, seen);
      } else {
        ExcludedAreRejected(nodes[1..], consensus, now, seen + {n.id});
        assert NextSeen(n, consensus, now, seen) == seen + {n.id};
        assert Rejected(n, MetadataOf(n, policy.reasons), consensus, now);
      }
    }
  }

  lemma {:induction false} RejectedAreExcluded(nodes: seq<Node>, consensus: bool, now: int, seen: set<string>, n: Node)
    requires n in nodes && !Classify(n, consensus, now).eligible && n.id !in seen
    ensures exists m :: m in Excluded(nodes, consensus, now, seen) && m.id == n.id
  {
    var first := nodes[0];
    if Classify(first, consensus, now).eligible || first.id in seen {
      ExcludedSkips(nodes, consensus, now, seen);
      RejectedAreExcluded(nodes[1..], consensus, now, seen, n);
    } else if first.id == n.id {
      assert Excluded(nodes, consensus, now, seen)[0].id == n.id;
    } else {
      RejectedAreExcluded(nodes[1..], consensus, now, seen + {first.id}, n);
    }
  }

  lemma ExcludedFrom(nodes: seq<Node>, consensus: bool, now: int)
    ensures AreTheRejected(Excluded(nodes, consensus, now, {}), nodes, consensus, now)
  {
    ExcludedAreRejected(nodes, consensus, now, {});
    forall n | n in nodes && !Classify(n, consensus, now).eligible
      ensures Listed(n, Excluded(nodes, consensus, now, {}))
    {
      RejectedAreExcluded(nodes, consensus, now, {}, n);
    }
    ExcludedOnce(nodes, consensus, now, {});
  }

  /** Exactly the nodes that failed the policy, each id once, with the reasons it failed for. */
  ghost predicate AreTheRejected(ms: seq<Metadata>, nodes: seq<Node>, consensus: bool, now: int) {
    && (forall m :: m in ms ==> HasCause(m, nodes, consensus, now))
    && (forall n :: n in nodes && !Classify(n, consensus, now).eligible ==> Listed(n, ms))
    && OnceEach(ms)
  }

  ghost predicate HasCause(m: Metadata, nodes: seq<Node>, consensus: bool, now: int) {
    exists n :: n in nodes && Rejected(n, m, consensus, now)
  }

  ghost predicate Listed(n: Node, ms: seq<Metadata>) { exists m :: m in ms && m.id == n.id }

  /** The decision, routed or not, excludes exactly the nodes of the pool that failed the policy; for an alias
   *  without candidates nothing was looked at and nobody is excluded. */
  lemma ExcludedAre(cfg: Config, nodes: seq<Node>, req: Request, now: int)
    ensures var ms, plan := Decide(cfg, nodes, req, now).0.excludedNodes, PlanFor(cfg, req);
      if plan.wanted == [] then ms == [] else AreTheRejected(ms, Pool(cfg, nodes), plan.consensus, now)
  {
    var plan, pool := PlanFor(cfg, req), Pool(cfg, nodes);
    var ranked := Ranked(cfg, nodes, plan.consensus);
    ExcludedFrom(ranked, plan.consensus, now);
    SortKeeps(pool, ByScore(plan.consensus));
    MemberOf(ranked, pool);
    SameRejected(Excluded(ranked, plan.consensus, now, {}), ranked, pool, plan.consensus, now);
    DecisionExcludes(cfg, nodes, req, now);
  }

  lemma SameCause(m: Metadata, a: seq<Node>, b: seq<Node>, consensus: bool, now: int)
    requires HasCause(m, a, consensus, now) && forall n :: n in a <==> n in b
    ensures HasCause(m, b, consensus, now)
  {
    var n :| n in a && Rejected(n, m, consensus, now);
    assert n in b;
  }

  lemma SameRejected(ms: seq<Metadata>, a: seq<Node>, b: seq<Node>, consensus: bool, now: int)
    requires AreTheRejected(ms, a, consensus, now) && forall n :: n in a <==> n in b
    ensures AreTheRejected(ms, b, consensus, now)
  {
    forall m | m in ms ensures HasCause(m, b, consensus, now) { SameCause(m, a, b, consensus, now); }
  }

  lemma DecisionExcludes(cfg: Config, nodes: seq<Node>, req: Request, now: int)
    ensures var plan := PlanFor(cfg, req);
      Decide(cfg, nodes, req, now).0.excludedNodes
        == if plan.wanted == [] then [] else Excluded(Ranked(cfg, nodes, plan.consensus), plan.consensus, now, {})
  {
  }

  ghost predicate OnceEach(ms: seq<Metadata>) { forall i, j :: 0 <= i < j < |ms| ==> ms[i].id != ms[j].id }

  lemma {:induction false} ExcludedOnce(nodes: seq<Node>, consensus: bool, now: int, seen: set<string>)
    ensures OnceEach(Excluded(nodes, consensus, now, seen))
  {
    if nodes != [] {
      var first := nodes[0];
      if Classify(first, consensus, now).eligible || first.id in seen {
        ExcludedSkips(nodes, consensus, now, seen);
        ExcludedOnce(nodes[1..], consensus, now, seen);
      } else {
        var rest := Excluded(nodes[1..], consensus, now, seen + {first.id});
        ExcludedOnce(nodes[1..], consensus, now, seen + {first.id});
        ExcludedAreRejected(nodes[1..], consensus, now, seen + {first.id});
        forall j | 0 <= j < |rest| ensures rest[j].id != first.id { assert rest[j] in rest; }
      }
    }
  }

  predicate Rejected(n: Node, m: Metadata, consensus: bool, now: int) {
    !Classify(n, consensus, now).eligible && m == MetadataOf(n, Classify(n, consensus, now).reasons)
  }

  // ---------------------------------------------------------------- benchmark results

  /** A result says something about a model unless it names another one. */
  predicate Concerns(r: Result, model: string) { r.model == model || r.model == "" || model == "" }

  /** When a result was completed; one without an instant is as old as can be. */
  function When(r: Result): int { match r.completedAt case Some(at) => at case None => 0 }

  /** The placement looks at the newest result about the model, the first listed of equally new ones. */
  lemma {:induction false} LatestIsNewest(results: seq<Result>, model: string, best: Option<Result>)
    ensures var r := Latest(results, model, best);
      && (best.Some? ==> r.Some? && When(r.value) >= When(best.value))
      && (forall i :: 0 <= i < |results| && Concerns(results[i], model) ==>
            r.Some? && When(r.value) >= When(results[i]))
      && (r != best ==> exists i :: 0 <= i < |results| && FirstNewest(results, model, i) && r == Some(results[i])
                                    && (best.Some? ==> When(results[i]) > When(best.value)))
  {
    if results != [] {
      var better := Concerns(results[0], model) && (best.None? || When(results[0]) > When(best.value));
      var next := if better then Some(results[0]) else best;
      LatestIsNewest(results[1..], model, next);
      var r := Latest(results[1..], model, next);
      if r != next {
        var i :| 0 <= i < |results[1..]| && FirstNewest(results[1..], model, i) && r == Some(results[1..][i])
                 && (next.Some? ==> When(results[1..][i]) > When(next.value));
        assert results[i + 1] == results[1..][i];
        forall j | 0 <= j < i + 1 && Concerns(results[j], model)
          ensures When(results[j]) < When(results[i + 1])
        {
          if j > 0 { assert results[j] == results[1..][j - 1]; }
        }
        assert FirstNewest(results, model, i + 1);
      } else if better {
        assert FirstNewest(results, model, 0);
      }
    }
  }

  /** It concerns the model, and is newer than every earlier result about it. */
  ghost predicate FirstNewest(results: seq<Result>, model: string, i: nat)
    requires i < |results|
  {
    Concerns(results[i], model)
    && forall j :: 0 <= j < i && Concerns(results[j], model) ==> When(results[j]) < When(results[i])
  }

  /** The first of the newest results about the model. */
  ghost predicate Decisive(results: seq<Result>, model: string, i: nat)
    requires i < |results|
  {
    && FirstNewest(results, model, i)
    && forall j :: 0 <= j < |results| && Concerns(results[j], model) ==> When(results[j]) <= When(results[i])
  }

  lemma OneDecisive(results: seq<Result>, model: string, i: nat)
    requires i < |results| && Decisive(results, model, i)
    ensures Latest(results, model, None) == Some(results[i])
  {
    LatestIsNewest(results, model, None);
    var k :| 0 <= k < |results| && FirstNewest(results, model, k) && Latest(results, model, None) == Some(results[k]);
  }

  lemma LatestIsDecisive(results: seq<Result>, model: string) returns (i: nat)
    requires Latest(results, model, None).Some?
    ensures i < |results| && Decisive(results, model, i) && Latest(results, model, None) == Some(results[i])
  {
    LatestIsNewest(results, model, None);
    i :| 0 <= i < |results| && FirstNewest(results, model, i) && Latest(results, model, None) == Some(results[i]);
  }

  /** Who measured the node: the node itself unless its record, or else what was observed of it, says otherwise. */
  predicate ReportedItself(n: Node) {
    if n.source != NoSource then n.source == SubscriberReported
    else n.observed.Some? && n.observed.value.source != NoSource ==> n.observed.value.source == SubscriberReported
  }

  /** Tokens per second, or output tokens per second where that is missing. */
  function Speed(r: Result): real { if r.rate > 0.0 then r.rate else r.outputRate }

  /** The results that count: the list that was observed or, where that is empty, the last result. */
  lemma ResultsAre(n: Node)
    ensures n.observed.Some? && n.observed.value.results != [] ==> Results(n) == n.observed.value.results
    ensures n.observed.Some? && n.observed.value.results == [] && n.observed.value.lastResult.Some? ==>
      Results(n) == [n.observed.value.lastResult.value]
    ensures n.observed.None? || (n.observed.value.results == [] && n.observed.value.lastResult.None?) ==>
      Results(n) == []
  {
  }

  /** A result that may move its node to the front: reported by a managed node that is local or trusted, finished,
   *  at most twenty-four hours old, with a rate. */
  predicate Places(n: Node, r: Result, now: int) {
    && n.control != Passive && n.trust != LanUnverified && n.trust != External
    && ReportedItself(n) && r.source != OtherSource && r.status in ["", "completed", "reported"]
    && (r.completedAt.Some? || n.observed.Some?)
    && (var at := if r.completedAt.Some? then r.completedAt else n.observed.value.updatedAt;
        at.Some? && at.value != 0 && now - at.value <= 86_400_000_000_000)
    && Speed(r) > 0.0
  }

  /** A node is placed by its benchmark exactly if its decisive result about the model says so, and by its rate;
   *  an older or a later, equally new result never counts. */
  lemma PlacedByDecisiveResult(n: Node, model: string, now: int)
    ensures Place(n, model, now).eligible <==>
      exists i :: 0 <= i < |Results(n)| && Decisive(Results(n), model, i) && Places(n, Results(n)[i], now)
    ensures Place(n, model, now).eligible ==>
      forall i :: 0 <= i < |Results(n)| && Decisive(Results(n), model, i) ==>
        Place(n, model, now).score == Speed(Results(n)[i])
  {
    var results := Results(n);
    forall i | 0 <= i < |results| && Decisive(results, model, i)
      ensures Latest(results, model, None) == Some(results[i])
    {
      OneDecisive(results, model, i);
    }
    if Latest(results, model, None).Some? {
      var k := LatestIsDecisive(results, model);
    }
  }
}
