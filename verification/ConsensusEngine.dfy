// The voting engine of internal/consensus/engine.go: group candidates by response signature, pick
// the best group, pick the best member of it. The signature, the validator and the evaluator are
// functions the engine is given; scores are reals.
module ConsensusEngine {
  import opened Common

  type Bytes = seq<bv8>

  datatype Candidate = Candidate(nodeID: string, body: Bytes)

  datatype Engine = Engine(
    signature: Bytes -> string,
    strategy: Bytes -> string,
    validator: Option<Candidate -> bool>,
    evaluator: Option<Candidate -> real>)
  {
    function Sig(c: Candidate): string { signature(c.body) }

    function Validated(c: Candidate): bool { validator.Some? && validator.value(c) }

    function ScoreOf(c: Candidate): real { if evaluator.Some? then evaluator.value(c) else 0.0 }
  }

  datatype Scored = Scored(candidate: Candidate, validated: bool, score: real, index: nat)

  /** The group's score starts at zero, so members that score below zero never lower or raise it. */
  datatype Group = Group(members: seq<Scored>, firstIndex: nat, strategy: string, validated: bool, score: real)

  datatype Result = Result(
    winner: Candidate, agreementScore: real, agreementCount: nat, candidateCount: nat, consensusReached: bool,
    disagreement: bool, strategy: string, validatorPassed: bool, evaluatorScore: real)

  function NoCandidate(): Candidate { Candidate("", []) }
  function EmptyGroup(): Group { Group([], 0, "", false, 0.0) }

  // ---------------------------------------------------------------- grouping

  function ScoreAt(e: Engine, cs: seq<Candidate>, i: nat): Scored
    requires i < |cs|
  {
    Scored(cs[i], e.Validated(cs[i]), e.ScoreOf(cs[i]), i)
  }

  function AddMember(g: Group, x: Scored, strategy: string): Group {
    var base := if g.members == [] then Group([], x.index, strategy, false, 0.0) else g;
    base.(members := base.members + [x], validated := base.validated || x.validated,
           score := if x.score > base.score then x.score else base.score)
  }

  /** The group of signature s among the first n candidates. */
  function GroupOf(e: Engine, cs: seq<Candidate>, n: nat, s: string): Group
    requires n <= |cs|
  {
    if n == 0 then EmptyGroup()
    else
      var g := GroupOf(e, cs, n - 1, s);
      if e.Sig(cs[n - 1]) == s then AddMember(g, ScoreAt(e, cs, n - 1), e.strategy(cs[n - 1].body)) else g
  }

  /** The signatures of the first n candidates, each once, in the order they first appear. */
  function Order(e: Engine, cs: seq<Candidate>, n: nat): seq<string>
    requires n <= |cs|
  {
    if n == 0 then []
    else
      var o, s := Order(e, cs, n - 1), e.Sig(cs[n - 1]);
      if s in o then o else o + [s]
  }

  // ---------------------------------------------------------------- choosing

  predicate BetterGroup(a: Group, b: Group) {
    if |a.members| != |b.members| then |a.members| > |b.members|
    else if a.validated != b.validated then a.validated
    else if a.score != b.score then a.score > b.score
    else a.firstIndex < b.firstIndex
  }

  function BestSignature(e: Engine, cs: seq<Candidate>, order: seq<string>, k: nat): (s: string)
    requires 1 <= k <= |order|
    ensures s in order[..k]
  {
    if k == 1 then order[0]
    else
      var best := BestSignature(e, cs, order, k - 1);
      if BetterGroup(GroupOf(e, cs, |cs|, order[k - 1]), GroupOf(e, cs, |cs|, best)) then order[k - 1] else best
  }

  predicate BetterMember(a: Scored, b: Scored) {
    (a.validated && !b.validated) || (a.validated == b.validated && a.score > b.score)
  }

  function BestMember(ms: seq<Scored>, k: nat): (m: Scored)
    requires 1 <= k <= |ms|
    ensures m in ms[..k]
  {
    if k == 1 then ms[0]
    else
      var best := BestMember(ms, k - 1);
      if BetterMember(ms[k - 1], best) then ms[k - 1] else best
  }

  function WinningSignature(e: Engine, cs: seq<Candidate>): (s: string)
    requires cs != []
  {
    OrderFacts(e, cs, |cs|);
    var order := Order(e, cs, |cs|);
    BestSignature(e, cs, order, |order|)
  }

  function Verdict(e: Engine, cs: seq<Candidate>): (r: Result) {
    if cs == [] then Result(NoCandidate(), 0.0, 0, 0, false, false, "", false, 0.0)
    else
      OrderFacts(e, cs, |cs|);
      var s := WinningSignature(e, cs);
      var g := GroupOf(e, cs, |cs|, s);
      WinnerHasMembers(e, cs);
      var m := BestMember(g.members, |g.members|);
      Result(m.candidate, (|g.members| as real) / (|cs| as real), |g.members|, |cs|,
             |g.members| >= 2 && |g.members| * 2 > |cs|, |Order(e, cs, |cs|)| > 1, g.strategy, m.validated, m.score)
  }

  // ---------------------------------------------------------------- what grouping means

  function Signatures(e: Engine, cs: seq<Candidate>): (r: seq<string>)
    ensures |r| == |cs| && forall i :: 0 <= i < |cs| ==> r[i] == e.Sig(cs[i])
  {
    seq(|cs|, i requires 0 <= i < |cs| => e.Sig(cs[i]))
  }

  /** How many candidates gave the response with signature s. */
  function Votes(e: Engine, cs: seq<Candidate>, s: string): nat { multiset(Signatures(e, cs))[s] }

  lemma {:induction false} OrderFacts(e: Engine, cs: seq<Candidate>, n: nat)
    requires n <= |cs|
    ensures forall s :: s in Order(e, cs, n) <==> exists i :: 0 <= i < n && e.Sig(cs[i]) == s
    ensures forall i, j :: 0 <= i < j < |Order(e, cs, n)| ==> Order(e, cs, n)[i] != Order(e, cs, n)[j]
    ensures n > 0 ==> Order(e, cs, n) != []
  {
    if n > 0 {
      OrderFacts(e, cs, n - 1);
      var o, s := Order(e, cs, n - 1), e.Sig(cs[n - 1]);
      forall t | t in Order(e, cs, n)
        ensures exists i :: 0 <= i < n && e.Sig(cs[i]) == t
      {
        if t in o {
          var i :| 0 <= i < n - 1 && e.Sig(cs[i]) == t;
        } else {
          assert e.Sig(cs[n - 1]) == t;
        }
      }
    }
  }

  /** These are candidates of signature s, in rank order. */
  ghost predicate MembersOf(e: Engine, cs: seq<Candidate>, n: nat, s: string, ms: seq<Scored>)
    requires n <= |cs|
  {
    && (forall i :: 0 <= i < |ms| ==> ms[i].index < n && ms[i] == ScoreAt(e, cs, ms[i].index))
    && (forall i :: 0 <= i < |ms| ==> e.Sig(ms[i].candidate) == s)
    && (forall i, j :: 0 <= i < j < |ms| ==> ms[i].index < ms[j].index)
  }

  /** ... and all of them. */
  ghost predicate AllMembersOf(e: Engine, cs: seq<Candidate>, n: nat, s: string, ms: seq<Scored>)
    requires n <= |cs|
  {
    forall i :: 0 <= i < n && e.Sig(cs[i]) == s ==> ScoreAt(e, cs, i) in ms
  }

  ghost predicate Labelled(e: Engine, cs: seq<Candidate>, g: Group) {
    if g.members == [] then g == EmptyGroup()
    else g.firstIndex == g.members[0].index && g.firstIndex < |cs| && g.strategy == e.strategy(cs[g.firstIndex].body)
  }

  /** A group is validated exactly if some member is, and its score is the highest of its members', or zero if
      none is positive. */
  ghost predicate Summed(g: Group) {
    && (g.validated <==> exists i :: 0 <= i < |g.members| && g.members[i].validated)
    && g.score >= 0.0 && (forall i :: 0 <= i < |g.members| ==> g.members[i].score <= g.score)
    && (g.score == 0.0 || exists i :: 0 <= i < |g.members| && g.members[i].score == g.score)
  }

  /** A group holds exactly the candidates of its signature, in rank order. */
  ghost predicate GroupHolds(e: Engine, cs: seq<Candidate>, n: nat, s: string, g: Group)
    requires n <= |cs|
  {
    MembersOf(e, cs, n, s, g.members) && AllMembersOf(e, cs, n, s, g.members) && Labelled(e, cs, g)
  }

  lemma SumKept(g: Group, x: Scored, strategy: string)
    requires Summed(g) && (g.members == [] ==> g == EmptyGroup())
    ensures Summed(AddMember(g, x, strategy))
  {
    var r := AddMember(g, x, strategy);
    var n := |g.members|;
    assert r.members[n] == x && forall i :: 0 <= i < n ==> r.members[i] == g.members[i];
    if g.validated {
      var i :| 0 <= i < n && g.members[i].validated;
      assert r.members[i].validated;
    }
    if x.score <= g.score && g.score != 0.0 {
      var i :| 0 <= i < n && g.members[i].score == g.score;
      assert r.members[i].score == r.score;
    }
  }

  /** What the second and third key of the group order mean. */
  lemma {:induction false} GroupSums(e: Engine, cs: seq<Candidate>, n: nat, s: string)
    requires n <= |cs|
    ensures Summed(GroupOf(e, cs, n, s))
  {
    if n > 0 {
      GroupSums(e, cs, n - 1, s);
      GroupFacts(e, cs, n - 1, s);
      SumKept(GroupOf(e, cs, n - 1, s), ScoreAt(e, cs, n - 1), e.strategy(cs[n - 1].body));
    }
  }

  lemma MemberAdded(e: Engine, cs: seq<Candidate>, n: nat, s: string, ms: seq<Scored>)
    requires n < |cs| && MembersOf(e, cs, n, s, ms) && AllMembersOf(e, cs, n, s, ms) && e.Sig(cs[n]) == s
    ensures MembersOf(e, cs, n + 1, s, ms + [ScoreAt(e, cs, n)])
    ensures AllMembersOf(e, cs, n + 1, s, ms + [ScoreAt(e, cs, n)])
  {
  }

  lemma LabelKept(e: Engine, cs: seq<Candidate>, n: nat, g: Group)
    requires n < |cs| && Labelled(e, cs, g)
    ensures Labelled(e, cs, AddMember(g, ScoreAt(e, cs, n), e.strategy(cs[n].body)))
  {
  }

  lemma {:induction false} GroupFacts(e: Engine, cs: seq<Candidate>, n: nat, s: string)
    requires n <= |cs|
    ensures GroupHolds(e, cs, n, s, GroupOf(e, cs, n, s))
  {
    if n > 0 {
      GroupFacts(e, cs, n - 1, s);
      if e.Sig(cs[n - 1]) == s {
        MemberAdded(e, cs, n - 1, s, GroupOf(e, cs, n - 1, s).members);
        LabelKept(e, cs, n - 1, GroupOf(e, cs, n - 1, s));
      }
    }
  }

  lemma {:induction false} GroupSize(e: Engine, cs: seq<Candidate>, n: nat, s: string)
    requires n <= |cs|
    ensures |GroupOf(e, cs, n, s).members| == multiset(Signatures(e, cs)[..n])[s]
  {
    if n > 0 {
      GroupSize(e, cs, n - 1, s);
      assert Signatures(e, cs)[..n] == Signatures(e, cs)[..n - 1] + [e.Sig(cs[n - 1])];
    }
  }

  lemma GroupVotes(e: Engine, cs: seq<Candidate>, s: string)
    ensures |GroupOf(e, cs, |cs|, s).members| == Votes(e, cs, s)
  {
    GroupSize(e, cs, |cs|, s);
    assert Signatures(e, cs)[..|cs|] == Signatures(e, cs);
  }

  lemma WinnerHasMembers(e: Engine, cs: seq<Candidate>)
    requires cs != []
    ensures GroupOf(e, cs, |cs|, WinningSignature(e, cs)).members != []
  {
    OrderFacts(e, cs, |cs|);
    var s := WinningSignature(e, cs);
    GroupFacts(e, cs, |cs|, s);
    var order := Order(e, cs, |cs|);
    assert s in order[..|order|] && s in order;
  }

  // ---------------------------------------------------------------- what choosing means

  lemma FirstIndexDiffers(e: Engine, cs: seq<Candidate>, s: string, t: string)
    requires s != t && GroupOf(e, cs, |cs|, s).members != [] && GroupOf(e, cs, |cs|, t).members != []
    ensures GroupOf(e, cs, |cs|, s).firstIndex != GroupOf(e, cs, |cs|, t).firstIndex
  {
    GroupFacts(e, cs, |cs|, s);
    GroupFacts(e, cs, |cs|, t);
    var a, b := GroupOf(e, cs, |cs|, s).members[0], GroupOf(e, cs, |cs|, t).members[0];
    assert e.Sig(a.candidate) == s && e.Sig(b.candidate) == t;
  }

  lemma InOrderHasMembers(e: Engine, cs: seq<Candidate>, s: string)
    ensures s in Order(e, cs, |cs|) <==> GroupOf(e, cs, |cs|, s).members != []
    ensures s in Order(e, cs, |cs|) <==> s in Signatures(e, cs)
  {
    OrderFacts(e, cs, |cs|);
    GroupFacts(e, cs, |cs|, s);
    if GroupOf(e, cs, |cs|, s).members != [] {
      var m := GroupOf(e, cs, |cs|, s).members[0];
      assert e.Sig(cs[m.index]) == s;
    }
    if i :| 0 <= i < |cs| && e.Sig(cs[i]) == s {
      assert Signatures(e, cs)[i] == s;
    }
  }

  lemma {:induction false} BestSignatureBeats(e: Engine, cs: seq<Candidate>, order: seq<string>, k: nat, t: string)
    requires 1 <= k <= |order| && t in order[..k]
    requires order == Order(e, cs, |cs|)
    ensures var s := BestSignature(e, cs, order, k);
      s == t || BetterGroup(GroupOf(e, cs, |cs|, s), GroupOf(e, cs, |cs|, t))
    decreases k
  {
    if k > 1 {
      var s, last := BestSignature(e, cs, order, k - 1), order[k - 1];
      InOrderHasMembers(e, cs, s);
      InOrderHasMembers(e, cs, last);
      if t in order[..k - 1] {
        BestSignatureBeats(e, cs, order, k - 1, t);
      } else {
        assert t == last;
        if s != last {
          FirstIndexDiffers(e, cs, s, last);
        }
      }
    }
  }

  lemma WinningGroupBeats(e: Engine, cs: seq<Candidate>, t: string)
    requires cs != [] && t in Signatures(e, cs) && t != WinningSignature(e, cs)
    ensures WinningSignature(e, cs) in Signatures(e, cs)
    ensures BetterGroup(GroupOf(e, cs, |cs|, WinningSignature(e, cs)), GroupOf(e, cs, |cs|, t))
  {
    var order := Order(e, cs, |cs|);
    InOrderHasMembers(e, cs, t);
    WinnerHasMembers(e, cs);
    InOrderHasMembers(e, cs, WinningSignature(e, cs));
    assert order[..|order|] == order;
    BestSignatureBeats(e, cs, order, |order|, t);
  }

  lemma {:induction false} BestMemberBeats(ms: seq<Scored>, k: nat, i: nat)
    requires 1 <= k <= |ms| && i < k
    requires forall a, b :: 0 <= a < b < |ms| ==> ms[a].index < ms[b].index
    ensures var m := BestMember(ms, k);
      m == ms[i] || BetterMember(m, ms[i]) || (!BetterMember(ms[i], m) && m.index < ms[i].index)
    decreases k
  {
    if k > 1 {
      assert BestMember(ms, k - 1) in ms[..k - 1];
      if i < k - 1 {
        BestMemberBeats(ms, k - 1, i);
      }
    }
  }

  lemma WinningMember(e: Engine, cs: seq<Candidate>, i: nat) returns (w: nat)
    requires i < |cs| && e.Sig(cs[i]) == WinningSignature(e, cs)
    ensures w < |cs| && Verdict(e, cs).winner == cs[w] && e.Sig(cs[w]) == WinningSignature(e, cs)
    ensures Verdict(e, cs).validatorPassed == ScoreAt(e, cs, w).validated
    ensures Verdict(e, cs).evaluatorScore == ScoreAt(e, cs, w).score
    ensures var a, b := ScoreAt(e, cs, w), ScoreAt(e, cs, i);
      BetterMember(a, b) || (!BetterMember(b, a) && w <= i)
  {
    var s := WinningSignature(e, cs);
    WinnerHasMembers(e, cs);
    GroupFacts(e, cs, |cs|, s);
    var ms := GroupOf(e, cs, |cs|, s).members;
    assert ScoreAt(e, cs, i) in ms;
    var j :| 0 <= j < |ms| && ms[j] == ScoreAt(e, cs, i);
    BestMemberBeats(ms, |ms|, j);
    assert BestMember(ms, |ms|) in ms;
    w := BestMember(ms, |ms|).index;
  }

  lemma SomebodyWins(e: Engine, cs: seq<Candidate>) returns (i: nat)
    requires cs != []
    ensures i < |cs| && e.Sig(cs[i]) == WinningSignature(e, cs)
  {
    WinnerHasMembers(e, cs);
    InOrderHasMembers(e, cs, WinningSignature(e, cs));
    i :| 0 <= i < |cs| && Signatures(e, cs)[i] == WinningSignature(e, cs);
  }

  lemma WinnerGaveIt(e: Engine, cs: seq<Candidate>)
    requires cs != []
    ensures e.signature(Verdict(e, cs).winner.body) == WinningSignature(e, cs)
  {
    var i := SomebodyWins(e, cs);
    var w := WinningMember(e, cs, i);
  }

  // ---------------------------------------------------------------- what wins, from the candidates alone

  /** Candidate i gives the response with this signature. */
  predicate Gives(e: Engine, cs: seq<Candidate>, s: string, i: int) {
    0 <= i < |cs| && e.signature(cs[i].body) == s
  }

  predicate Accepts(e: Engine, c: Candidate) { e.validator.Some? && e.validator.value(c) }

  function Rating(e: Engine, c: Candidate): real { if e.evaluator.Some? then e.evaluator.value(c) else 0.0 }

  /** What speaks for one response: its votes, whether a candidate that gives it is validated, the highest rating
      among those candidates or zero, and the rank of the first. */
  datatype Standing = Standing(votes: nat, validated: bool, top: real, first: nat)

  ghost predicate Stands(e: Engine, cs: seq<Candidate>, s: string, k: Standing) {
    && k.votes == Votes(e, cs, s)
    && (k.validated <==> exists i :: Gives(e, cs, s, i) && Accepts(e, cs[i]))
    && k.top >= 0.0 && (forall i :: Gives(e, cs, s, i) ==> Rating(e, cs[i]) <= k.top)
    && (k.top == 0.0 || exists i :: Gives(e, cs, s, i) && Rating(e, cs[i]) == k.top)
    && Gives(e, cs, s, k.first) && (forall i :: Gives(e, cs, s, i) ==> k.first <= i)
  }

  lemma MemberGives(e: Engine, cs: seq<Candidate>, s: string, ms: seq<Scored>, i: nat)
    requires MembersOf(e, cs, |cs|, s, ms) && i < |ms|
    ensures Gives(e, cs, s, ms[i].index) && ms[i].candidate == cs[ms[i].index]
    ensures ms[i].validated == Accepts(e, cs[ms[i].index]) && ms[i].score == Rating(e, cs[ms[i].index])
  {
  }

  lemma GivesMember(e: Engine, cs: seq<Candidate>, s: string, ms: seq<Scored>, i: nat) returns (j: nat)
    requires AllMembersOf(e, cs, |cs|, s, ms) && Gives(e, cs, s, i)
    ensures j < |ms| && ms[j] == ScoreAt(e, cs, i)
    ensures ms[j].validated == Accepts(e, cs[i]) && ms[j].score == Rating(e, cs[i]) && ms[j].index == i
  {
    assert e.Sig(cs[i]) == s;
    j :| 0 <= j < |ms| && ms[j] == ScoreAt(e, cs, i);
  }

  lemma GroupStands(e: Engine, cs: seq<Candidate>, s: string) returns (k: Standing)
    requires GroupOf(e, cs, |cs|, s).members != []
    ensures var g := GroupOf(e, cs, |cs|, s); k == Standing(|g.members|, g.validated, g.score, g.firstIndex)
    ensures Stands(e, cs, s, k)
  {
    var g := GroupOf(e, cs, |cs|, s);
    var ms := g.members;
    k := Standing(|ms|, g.validated, g.score, g.firstIndex);
    GroupSums(e, cs, |cs|, s);
    GroupFacts(e, cs, |cs|, s);
    GroupVotes(e, cs, s);
    forall i | 0 <= i < |ms|
      ensures Gives(e, cs, s, ms[i].index) && ms[i].validated == Accepts(e, cs[ms[i].index])
      ensures ms[i].score == Rating(e, cs[ms[i].index])
    {
      MemberGives(e, cs, s, ms, i);
    }
    forall i | Gives(e, cs, s, i)
      ensures Rating(e, cs[i]) <= k.top && k.first <= i && (Accepts(e, cs[i]) ==> k.validated)
    {
      var j := GivesMember(e, cs, s, ms, i);
    }
  }

  /** The winning response beats every other one: by its votes, then by having a validated candidate, then by its
      highest rating, then by coming first. */
  lemma WinnerBeatsAll(e: Engine, cs: seq<Candidate>, t: string) returns (a: Standing, b: Standing)
    requires cs != [] && t in Signatures(e, cs) && t != e.signature(Verdict(e, cs).winner.body)
    ensures Stands(e, cs, e.signature(Verdict(e, cs).winner.body), a) && Stands(e, cs, t, b)
    ensures a.votes > b.votes || (a.votes == b.votes && (
      (a.validated && !b.validated) || (a.validated == b.validated && (
        a.top > b.top || (a.top == b.top && a.first < b.first)))))
  {
    WinnerGaveIt(e, cs);
    InOrderHasMembers(e, cs, t);
    WinnerHasMembers(e, cs);
    a := GroupStands(e, cs, WinningSignature(e, cs));
    b := GroupStands(e, cs, t);
    WinningGroupBeats(e, cs, t);
  }

  /** Among the candidates that give the winning response the winner is the best: validated before not validated,
      then the higher rating, then the earlier rank. */
  lemma WinnerIsBestMember(e: Engine, cs: seq<Candidate>, i: nat) returns (w: nat)
    requires i < |cs| && e.signature(cs[i].body) == e.signature(Verdict(e, cs).winner.body)
    ensures w < |cs| && Verdict(e, cs).winner == cs[w]
    ensures var x, y := Accepts(e, cs[w]), Accepts(e, cs[i]);
      (x && !y) || (x == y && (
        Rating(e, cs[w]) > Rating(e, cs[i]) || (Rating(e, cs[w]) == Rating(e, cs[i]) && w <= i)))
  {
    WinnerGaveIt(e, cs);
    w := WinningMember(e, cs, i);
  }

  lemma VerdictOfGroup(e: Engine, cs: seq<Candidate>)
    requires cs != []
    ensures var r, g := Verdict(e, cs), GroupOf(e, cs, |cs|, WinningSignature(e, cs));
      && r.candidateCount == |cs| && r.strategy == g.strategy
      && r.agreementScore == (|g.members| as real) / (|cs| as real)
  {
  }

  lemma WinnerReported(e: Engine, cs: seq<Candidate>)
    requires cs != []
    ensures var r := Verdict(e, cs);
      r.winner in cs && r.validatorPassed == Accepts(e, r.winner) && r.evaluatorScore == Rating(e, r.winner)
  {
    var i := SomebodyWins(e, cs);
    var w := WinningMember(e, cs, i);
  }

  lemma FirstInGroup(e: Engine, cs: seq<Candidate>, s: string) returns (k: Standing)
    requires GroupOf(e, cs, |cs|, s).members != []
    ensures Stands(e, cs, s, k) && k.votes == |GroupOf(e, cs, |cs|, s).members|
    ensures GroupOf(e, cs, |cs|, s).strategy == e.strategy(cs[k.first].body)
  {
    GroupFacts(e, cs, |cs|, s);
    k := GroupStands(e, cs, s);
  }

  /** What is reported beside the winner: the share of the votes its response has, the comparison its response was
      put to, and how the winner itself was validated and rated. */
  lemma VerdictReports(e: Engine, cs: seq<Candidate>) returns (r: Result, k: Standing)
    requires cs != []
    ensures r == Verdict(e, cs) && r.winner in cs && r.candidateCount == |cs|
    ensures Stands(e, cs, e.signature(r.winner.body), k)
    ensures r.agreementScore == (k.votes as real) / (|cs| as real) && r.strategy == e.strategy(cs[k.first].body)
    ensures r.validatorPassed == Accepts(e, r.winner) && r.evaluatorScore == Rating(e, r.winner)
  {
    r := Verdict(e, cs);
    WinnerGaveIt(e, cs);
    WinnerHasMembers(e, cs);
    k := FirstInGroup(e, cs, WinningSignature(e, cs));
    VerdictOfGroup(e, cs);
    WinnerReported(e, cs);
  }

  lemma NobodyWins(e: Engine)
    ensures Verdict(e, []) == Result(Candidate("", []), 0.0, 0, 0, false, false, "", false, 0.0)
  {
  }

  // ---------------------------------------------------------------- majority

  /** AgreementCount is the largest number of votes any response has; consensus is reached exactly
      when some response has at least two votes and more than half of them. */
  lemma Majority(e: Engine, cs: seq<Candidate>)
    requires cs != []
    ensures var r := Verdict(e, cs);
      && r.agreementCount == Votes(e, cs, WinningSignature(e, cs)) == Votes(e, cs, e.Sig(r.winner))
      && (forall s :: Votes(e, cs, s) <= r.agreementCount)
      && (r.consensusReached <==> exists s :: Votes(e, cs, s) >= 2 && Votes(e, cs, s) * 2 > |cs|)
  {
    var w := WinningSignature(e, cs);
    GroupVotes(e, cs, w);
    WinnerHasMembers(e, cs);
    WinnerGaveIt(e, cs);
    forall s
      ensures Votes(e, cs, s) <= Verdict(e, cs).agreementCount
    {
      GroupVotes(e, cs, s);
      if s != w && s in Signatures(e, cs) {
        WinningGroupBeats(e, cs, s);
      }
    }
  }

  lemma DisagreementIs(e: Engine, cs: seq<Candidate>)
    ensures Verdict(e, cs).disagreement <==> |Order(e, cs, |cs|)| > 1
  {
  }

  predicate Differ(e: Engine, cs: seq<Candidate>, i: int, j: int) {
    0 <= i < |cs| && 0 <= j < |cs| && e.Sig(cs[i]) != e.Sig(cs[j])
  }

  lemma TwoSignatures(e: Engine, cs: seq<Candidate>, order: seq<string>)
    requires forall s :: s in order <==> exists i :: 0 <= i < |cs| && e.Sig(cs[i]) == s
    requires forall i, j :: 0 <= i < j < |order| ==> order[i] != order[j]
    ensures |order| > 1 <==> exists i, j :: Differ(e, cs, i, j)
  {
    if |order| > 1 {
      assert order[0] in order && order[1] in order;
      var i :| 0 <= i < |cs| && e.Sig(cs[i]) == order[0];
      var j :| 0 <= j < |cs| && e.Sig(cs[j]) == order[1];
      assert Differ(e, cs, i, j);
    }
    if i, j :| Differ(e, cs, i, j) {
      assert e.Sig(cs[i]) in order && e.Sig(cs[j]) in order;
    }
  }

  /** Disagreement means that two candidates differ. */
  lemma DisagreementMeansTwoAnswers(e: Engine, cs: seq<Candidate>)
    ensures Verdict(e, cs).disagreement <==> exists i, j :: Differ(e, cs, i, j)
  {
    DisagreementIs(e, cs);
    OrderFacts(e, cs, |cs|);
    TwoSignatures(e, cs, Order(e, cs, |cs|));
  }

  // ---------------------------------------------------------------- order does not matter

  lemma SignaturesWithout(e: Engine, cs: seq<Candidate>, i: nat)
    requires i < |cs|
    ensures multiset(Signatures(e, cs)) == multiset(Signatures(e, RemoveAt(cs, i))) + multiset{e.Sig(cs[i])}
  {
    RemoveAtMultiset(Signatures(e, cs), i);
    assert RemoveAt(Signatures(e, cs), i) == Signatures(e, RemoveAt(cs, i));
  }

  lemma {:induction false} SameVotes(e: Engine, a: seq<Candidate>, b: seq<Candidate>)
    requires multiset(a) == multiset(b)
    ensures multiset(Signatures(e, a)) == multiset(Signatures(e, b))
    decreases |a|
  {
    SameLength(a, b);
    if a != [] {
      assert a[0] in multiset(b);
      var i :| 0 <= i < |b| && b[i] == a[0];
      RemoveAtMultiset(a, 0);
      RemoveAtMultiset(b, i);
      assert multiset(RemoveAt(a, 0)) == multiset(a) - multiset{a[0]} == multiset(RemoveAt(b, i));
      SameVotes(e, RemoveAt(a, 0), RemoveAt(b, i));
      SignaturesWithout(e, a, 0);
      SignaturesWithout(e, b, i);
    }
  }

  lemma OneMajority(sigs: seq<string>, s: string, t: string)
    requires multiset(sigs)[s] * 2 > |sigs| && multiset(sigs)[t] * 2 > |sigs|
    ensures s == t
  {
    if s != t {
      TwoCounts(sigs, s, t);
    }
  }

  lemma {:induction false} TwoCounts(sigs: seq<string>, s: string, t: string)
    requires s != t
    ensures multiset(sigs)[s] + multiset(sigs)[t] <= |sigs|
  {
    if sigs != [] {
      assert sigs == sigs[..|sigs| - 1] + [sigs[|sigs| - 1]];
      TwoCounts(sigs[..|sigs| - 1], s, t);
    }
  }

  lemma SameLength<T>(a: seq<T>, b: seq<T>)
    requires multiset(a) == multiset(b)
    ensures |a| == |b|
  {
    assert |a| == |multiset(a)| == |multiset(b)| == |b|;
  }

  lemma SameCounts(e: Engine, a: seq<Candidate>, b: seq<Candidate>)
    requires multiset(a) == multiset(b) && a != [] && |a| == |b|
    ensures var ra, rb := Verdict(e, a), Verdict(e, b);
      && ra.agreementCount == rb.agreementCount && ra.agreementScore == rb.agreementScore
      && ra.consensusReached == rb.consensusReached && ra.candidateCount == rb.candidateCount
  {
    SameVotes(e, a, b);
    Majority(e, a);
    Majority(e, b);
    var wa, wb := WinningSignature(e, a), WinningSignature(e, b);
    assert Votes(e, a, wa) == Votes(e, b, wa) && Votes(e, a, wb) == Votes(e, b, wb);
  }

  /** Reordering the candidates changes neither the counts nor the verdicts, nor, once consensus is
      reached, the winning response. */
  lemma ReorderingIsHarmless(e: Engine, a: seq<Candidate>, b: seq<Candidate>)
    requires multiset(a) == multiset(b) && a != []
    ensures b != []
    ensures var ra, rb := Verdict(e, a), Verdict(e, b);
      && ra.agreementCount == rb.agreementCount && ra.agreementScore == rb.agreementScore
      && ra.consensusReached == rb.consensusReached && ra.disagreement == rb.disagreement
      && ra.candidateCount == rb.candidateCount
      && (ra.consensusReached ==> WinningSignature(e, a) == WinningSignature(e, b))
  {
    SameLength(a, b);
    SameCounts(e, a, b);
    SameDisagreement(e, a, b);
    if Verdict(e, a).consensusReached {
      SameVotes(e, a, b);
      Majority(e, a);
      Majority(e, b);
      OneMajority(Signatures(e, a), WinningSignature(e, a), WinningSignature(e, b));
    }
  }

  lemma IndexOfMember(a: seq<Candidate>, b: seq<Candidate>, i: nat) returns (k: nat)
    requires multiset(a) == multiset(b) && i < |a|
    ensures k < |b| && b[k] == a[i]
  {
    assert a[i] in multiset(b);
    k :| 0 <= k < |b| && b[k] == a[i];
  }

  lemma DifferElsewhere(e: Engine, a: seq<Candidate>, b: seq<Candidate>)
    requires multiset(a) == multiset(b)
    ensures (exists i, j :: Differ(e, a, i, j)) ==> exists i, j :: Differ(e, b, i, j)
  {
    if i, j :| Differ(e, a, i, j) {
      var k := IndexOfMember(a, b, i);
      var l := IndexOfMember(a, b, j);
      assert Differ(e, b, k, l);
    }
  }

  lemma SameDisagreement(e: Engine, a: seq<Candidate>, b: seq<Candidate>)
    requires multiset(a) == multiset(b)
    ensures Verdict(e, a).disagreement == Verdict(e, b).disagreement
  {
    DisagreementMeansTwoAnswers(e, a);
    DisagreementMeansTwoAnswers(e, b);
    DifferElsewhere(e, a, b);
    DifferElsewhere(e, b, a);
  }

  // ---------------------------------------------------------------- no validator, no evaluator

  lemma {:induction false} PlainGroup(e: Engine, cs: seq<Candidate>, n: nat, s: string)
    requires n <= |cs| && e.validator.None? && e.evaluator.None?
    ensures var g := GroupOf(e, cs, n, s); !g.validated && g.score == 0.0
  {
    if n > 0 {
      PlainGroup(e, cs, n - 1, s);
    }
  }

  /** Without validator and evaluator the winner is the first candidate of its response, and every
      other response has fewer votes, or as many and appears later. */
  lemma PlainVote(e: Engine, cs: seq<Candidate>, i: nat) returns (w: nat)
    requires i < |cs| && e.validator.None? && e.evaluator.None?
    ensures w < |cs| && Verdict(e, cs).winner == cs[w]
    ensures forall j :: 0 <= j < w ==> e.Sig(cs[j]) != e.Sig(cs[w])
    ensures Votes(e, cs, e.Sig(cs[i])) <= Votes(e, cs, e.Sig(cs[w]))
    ensures Votes(e, cs, e.Sig(cs[i])) == Votes(e, cs, e.Sig(cs[w])) ==> w <= i
  {
    var s, t := WinningSignature(e, cs), e.Sig(cs[i]);
    WinnerHasMembers(e, cs);
    GroupFacts(e, cs, |cs|, s);
    GroupFacts(e, cs, |cs|, t);
    GroupVotes(e, cs, s);
    GroupVotes(e, cs, t);
    PlainGroup(e, cs, |cs|, s);
    PlainGroup(e, cs, |cs|, t);
    assert Signatures(e, cs)[i] == t;
    assert ScoreAt(e, cs, i) in GroupOf(e, cs, |cs|, t).members;
    var first := GroupOf(e, cs, |cs|, s).members[0].index;
    w := WinningMember(e, cs, first);
    forall j | 0 <= j < |cs| && e.Sig(cs[j]) == s ensures first <= j {
      assert ScoreAt(e, cs, j) in GroupOf(e, cs, |cs|, s).members;
    }
    if s != t {
      WinningGroupBeats(e, cs, t);
    }
  }

  // ---------------------------------------------------------------- the loops of the engine

  /** The groups built so far: one for every signature among the first n candidates. */
  ghost predicate Grouped(e: Engine, cs: seq<Candidate>, n: nat, groups: map<string, Group>, order: seq<string>)
    requires n <= |cs|
  {
    && order == Order(e, cs, n)
    && (forall s :: s in groups <==> s in order)
    && (forall s :: s in groups ==> groups[s] == GroupOf(e, cs, n, s) && groups[s].members != [])
  }

  lemma GroupedNext(e: Engine, cs: seq<Candidate>, n: nat, groups: map<string, Group>, order: seq<string>)
    requires n < |cs| && Grouped(e, cs, n, groups, order)
    ensures var s := e.Sig(cs[n]);
      var g := AddMember(if s in groups then groups[s] else EmptyGroup(), ScoreAt(e, cs, n), e.strategy(cs[n].body));
      Grouped(e, cs, n + 1, groups[s := g], if s in groups then order else order + [s])
  {
    var s := e.Sig(cs[n]);
    OrderFacts(e, cs, n);
    GroupFacts(e, cs, n, s);
  }

  method BuildGroups(e: Engine, cs: seq<Candidate>) returns (groups: map<string, Group>, order: seq<string>)
    ensures Grouped(e, cs, |cs|, groups, order)
  {
    groups, order := map[], [];
    for index := 0 to |cs|
      invariant Grouped(e, cs, index, groups, order)
    {
      GroupedNext(e, cs, index, groups, order);
      var signature := e.Sig(cs[index]);
      var scored := ScoreAt(e, cs, index);
      var group := EmptyGroup();
      if signature in groups {
        group := groups[signature];
      } else {
        order := order + [signature];
      }
      groups := groups[signature := AddMember(group, scored, e.strategy(cs[index].body))];
    }
  }

  method ChooseGroup(e: Engine, cs: seq<Candidate>, groups: map<string, Group>, order: seq<string>)
    returns (winner: Group)
    requires cs != [] && Grouped(e, cs, |cs|, groups, order) && order != []
    ensures winner == GroupOf(e, cs, |cs|, WinningSignature(e, cs)) && winner.members != []
  {
    ghost var winning := order[0];
    winner := groups[order[0]];
    for k := 1 to |order|
      invariant winning in groups && winner == groups[winning]
      invariant winning == BestSignature(e, cs, order, k)
    {
      var candidate := groups[order[k]];
      if BetterGroup(candidate, winner) {
        winner, winning := candidate, order[k];
      }
    }
  }

  method ChooseMember(members: seq<Scored>) returns (winner: Scored)
    requires members != []
    ensures winner == BestMember(members, |members|)
  {
    winner := members[0];
    for i := 1 to |members|
      invariant winner == BestMember(members, i)
    {
      var member := members[i];
      if member.validated && !winner.validated {
        winner := member;
        continue;
      }
      if member.validated == winner.validated && member.score > winner.score {
        winner := member;
      }
    }
  }

  method Evaluate(e: Engine, cs: seq<Candidate>) returns (result: Result)
    ensures result == Verdict(e, cs)
  {
    if |cs| == 0 {
      return Result(NoCandidate(), 0.0, 0, 0, false, false, "", false, 0.0);
    }
    OrderFacts(e, cs, |cs|);
    var groups, order := BuildGroups(e, cs);
    var winner := ChooseGroup(e, cs, groups, order);
    var member := ChooseMember(winner.members);
    var count := |winner.members|;
    result := Result(member.candidate, (count as real) / (|cs| as real), count, |cs|,
                     count >= 2 && count * 2 > |cs|, |order| > 1, winner.strategy, member.validated, member.score);
  }
}
