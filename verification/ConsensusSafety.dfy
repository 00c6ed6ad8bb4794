// What consensus promises whatever the arrival order: the outcome is a function of which answers
// came, participants are partitioned in rank order, counts add up, and a body is sent only for a
// winner among enough successes.
module ConsensusSafety {
  import opened Common
  import opened ConsensusEngine
  import opened ConsensusSpec
  import ProxySpec

  // ---------------------------------------------------------------- arrival order does not matter

  ghost predicate Distinct(xs: seq<string>) { forall i, j :: 0 <= i < j < |xs| ==> xs[i] != xs[j] }

  ghost predicate OnePerNode(arrivals: seq<Arrival>) {
    forall i, j :: 0 <= i < j < |arrivals| ==> arrivals[i].nodeID != arrivals[j].nodeID
  }

  /** Only participants answer, each at most once. */
  ghost predicate Possible(participants: seq<string>, arrivals: seq<Arrival>) {
    OnePerNode(arrivals) && forall a :: a in arrivals ==> a.nodeID in participants
  }

  /** The two maps say no more and no less than the set of answers. */
  ghost predicate Recorded(arrivals: seq<Arrival>, responses: map<string, Arrival>, failures: map<string, Failure>) {
    && (forall p :: p in responses ==> responses[p].Success? && responses[p].nodeID == p && responses[p] in arrivals)
    && (forall p :: p in failures ==>
          exists a :: a in arrivals && a.Failed? && a.nodeID == p && failures[p] == FailureOf(a))
    && (forall a :: a in arrivals ==> (if a.Success? then a.nodeID in responses else a.nodeID in failures))
  }

  lemma {:induction false} MapsRecordAnswers(arrivals: seq<Arrival>)
    ensures Recorded(arrivals, Responses(arrivals), Failures(arrivals))
  {
    if arrivals != [] {
      var rest, last := arrivals[..|arrivals| - 1], arrivals[|arrivals| - 1];
      MapsRecordAnswers(rest);
      assert arrivals == rest + [last];
      var failures := Failures(arrivals);
      forall p | p in failures
        ensures exists a :: a in arrivals && a.Failed? && a.nodeID == p && failures[p] == FailureOf(a)
      {
        if last.Failed? && p == last.nodeID {
          assert last in arrivals;
        } else {
          var a :| a in rest && a.Failed? && a.nodeID == p && Failures(rest)[p] == FailureOf(a);
          assert a in arrivals;
        }
      }
    }
  }

  lemma SameAnswer(arrivals: seq<Arrival>, a: Arrival, b: Arrival)
    requires OnePerNode(arrivals) && a in arrivals && b in arrivals && a.nodeID == b.nodeID
    ensures a == b
  {
  }

  lemma SameResponses(a: seq<Arrival>, b: seq<Arrival>)
    requires OnePerNode(a) && (forall x :: x in a <==> x in b)
    ensures Responses(a) == Responses(b)
  {
    MapsRecordAnswers(a);
    MapsRecordAnswers(b);
    var ra, rb := Responses(a), Responses(b);
    forall p | p in ra
      ensures p in rb && ra[p] == rb[p]
    {
      SameAnswer(a, ra[p], rb[p]);
    }
    assert ra.Keys == rb.Keys;
  }

  lemma FailureIs(arrivals: seq<Arrival>, p: string) returns (x: Arrival)
    requires p in Failures(arrivals)
    ensures x in arrivals && x.Failed? && x.nodeID == p && Failures(arrivals)[p] == FailureOf(x)
  {
    MapsRecordAnswers(arrivals);
    x :| x in arrivals && x.Failed? && x.nodeID == p && Failures(arrivals)[p] == FailureOf(x);
  }

  lemma SameFailure(a: seq<Arrival>, b: seq<Arrival>, p: string)
    requires OnePerNode(a) && (forall x :: x in a <==> x in b) && p in Failures(a)
    ensures p in Failures(b) && Failures(a)[p] == Failures(b)[p]
  {
    var x := FailureIs(a, p);
    MapsRecordAnswers(b);
    var y := FailureIs(b, p);
    SameAnswer(a, x, y);
  }

  lemma SameFailures(a: seq<Arrival>, b: seq<Arrival>)
    requires OnePerNode(a) && (forall x :: x in a <==> x in b)
    ensures Failures(a) == Failures(b)
  {
    forall p | p in Failures(a)
      ensures p in Failures(b) && Failures(a)[p] == Failures(b)[p]
    {
      SameFailure(a, b, p);
    }
    forall p | p in Failures(b)
      ensures p in Failures(a)
    {
      var x := FailureIs(b, p);
      MapsRecordAnswers(a);
    }
    assert Failures(a).Keys == Failures(b).Keys;
  }

  /** Schedule independence: two schedules in which the same answers arrived before the wait ended
      the same way have the same outcome and show the client the same bytes. */
  lemma ScheduleIndependence(w: ProxySpec.Wire, e: Engine, participants: seq<string>, required: int,
                             a: seq<Arrival>, b: seq<Arrival>, interrupt: Interrupt, elapsed: int)
    requires Possible(participants, a) && multiset(a) == multiset(b)
    ensures Settle(w, e, participants, required, a, interrupt, elapsed)
         == Settle(w, e, participants, required, b, interrupt, elapsed)
  {
    SameLength(a, b);
    forall x ensures x in a <==> x in b {
      assert x in a <==> x in multiset(a);
      assert x in b <==> x in multiset(b);
    }
    SameResponses(a, b);
    SameFailures(a, b);
  }

  // ---------------------------------------------------------------- a partition in rank order

  ghost predicate Subsequence(xs: seq<string>, ys: seq<string>) {
    xs == [] || (ys != [] &&
      var x, y, ys' := xs[|xs| - 1], ys[|ys| - 1], ys[..|ys| - 1];
      if x == y then Subsequence(xs[..|xs| - 1], ys') else Subsequence(xs, ys'))
  }

  lemma {:induction false} SubsequenceDrop(xs: seq<string>, ys: seq<string>, y: string)
    requires Subsequence(xs, ys) && (xs != [] ==> xs[|xs| - 1] != y)
    ensures Subsequence(xs, ys + [y])
  {
    assert (ys + [y])[..|ys|] == ys;
  }

  lemma SubsequenceKeep(xs: seq<string>, ys: seq<string>, y: string)
    requires Subsequence(xs, ys)
    ensures Subsequence(xs + [y], ys + [y])
  {
    assert (ys + [y])[..|ys|] == ys && (xs + [y])[..|xs|] == xs;
  }

  lemma {:induction false} KeepsRankOrder(participants: seq<string>, responses: map<string, Arrival>)
    requires Distinct(participants)
    ensures Subsequence(Succeeded(participants, responses), participants)
    ensures Subsequence(Missed(participants, responses), participants)
  {
    if participants != [] {
      var rest, last := participants[..|participants| - 1], participants[|participants| - 1];
      KeepsRankOrder(rest, responses);
      SucceededAnswered(rest, responses);
      assert participants == rest + [last];
      var yes, no := Succeeded(rest, responses), Missed(rest, responses);
      if last in responses {
        SubsequenceKeep(yes, rest, last);
        SubsequenceDrop(no, rest, last);
      } else {
        SubsequenceDrop(yes, rest, last);
        SubsequenceKeep(no, rest, last);
      }
    }
  }

  lemma {:induction false} CoversAll(participants: seq<string>, responses: map<string, Arrival>)
    ensures multiset(Succeeded(participants, responses)) + multiset(Missed(participants, responses))
         == multiset(participants)
  {
    if participants != [] {
      var rest, last := participants[..|participants| - 1], participants[|participants| - 1];
      CoversAll(rest, responses);
      assert participants == rest + [last];
    }
  }

  lemma ListsPartition(participants: seq<string>, responses: map<string, Arrival>)
    requires Distinct(participants)
    ensures var yes, no := Succeeded(participants, responses), Missed(participants, responses);
      && Subsequence(yes, participants) && Subsequence(no, participants)
      && multiset(yes) + multiset(no) == multiset(participants)
      && (forall p :: p in yes <==> p in participants && p in responses)
      && (forall p :: p in no <==> p in participants && p !in responses)
  {
    KeepsRankOrder(participants, responses);
    CoversAll(participants, responses);
    SucceededAnswered(participants, responses);
  }

  // ---------------------------------------------------------------- reason counts

  function WithReason(fs: seq<Failure>, r: Reason): nat {
    if fs == [] then 0 else WithReason(fs[..|fs| - 1], r) + (if fs[|fs| - 1].reason == r then 1 else 0)
  }

  function Total(counts: map<Reason, nat>): nat {
    Get(counts, MissingProxyURL) + Get(counts, ConnectionError) + Get(counts, Upstream4xx) + Get(counts, Upstream5xx)
    + Get(counts, BodyRead) + Get(counts, ResponseSize) + Get(counts, Timeout) + Get(counts, Cancellation)
  }

  lemma OneMoreOf(counts: map<Reason, nat>, r: Reason, x: Reason)
    ensures Get(counts[r := Get(counts, r) + 1], x) == Get(counts, x) + if x == r then 1 else 0
  {
  }

  lemma OneMoreInTotal(counts: map<Reason, nat>, r: Reason) returns (more: map<Reason, nat>)
    ensures more == counts[r := Get(counts, r) + 1] && Total(more) == Total(counts) + 1
  {
    more := counts[r := Get(counts, r) + 1];
    OneMoreOf(counts, r, MissingProxyURL);
    OneMoreOf(counts, r, ConnectionError);
    OneMoreOf(counts, r, Upstream4xx);
    OneMoreOf(counts, r, Upstream5xx);
    OneMoreOf(counts, r, BodyRead);
    OneMoreOf(counts, r, ResponseSize);
    OneMoreOf(counts, r, Timeout);
    OneMoreOf(counts, r, Cancellation);
  }

  lemma {:induction false} EachCounted(fs: seq<Failure>, r: Reason)
    ensures Get(CountReasons(fs), r) == WithReason(fs, r)
  {
    if |fs| > 0 {
      EachCounted(fs[..|fs| - 1], r);
    }
  }

  lemma {:induction false} AllCounted(fs: seq<Failure>)
    ensures Total(CountReasons(fs)) == |fs|
  {
    if |fs| > 0 {
      var counts, last := CountReasons(fs[..|fs| - 1]), fs[|fs| - 1].reason;
      AllCounted(fs[..|fs| - 1]);
      var more := OneMoreInTotal(counts, last);
      assert CountReasons(fs) == more;
    }
  }

  // ---------------------------------------------------------------- the settled outcome

  /** The number of successes a request needs: two unless the decision asks for another positive number. */
  function Needed(required: int): int { if required >= 1 then required else 2 }

  /** What the outcome reports is what was classified; with too few participants there is nothing to report. */
  lemma SettledLists(w: ProxySpec.Wire, e: Engine, participants: seq<string>, required: int,
                     arrivals: seq<Arrival>, interrupt: Interrupt, elapsed: int)
    ensures var (r, o) := Settle(w, e, participants, required, arrivals, interrupt, elapsed);
      var responses := Responses(arrivals);
      if |participants| < Required(required) then
        r == w && !o.committed && o.successful == [] && o.failed == [] && o.failures == [] && o.counts == map[]
      else
        && o.successful == Succeeded(participants, responses) && o.failed == Missed(participants, responses)
        && o.failures
           == FailuresOf(o.failed, Failures(arrivals), Ending(participants, arrivals, interrupt), elapsed)
        && o.counts == CountReasons(o.failures)
  {
    if |participants| >= Required(required) {
      var responses := Responses(arrivals);
      var ending := Ending(participants, arrivals, interrupt);
      var o := Classify(participants, responses, Failures(arrivals), ending, elapsed);
      ResponsesSucceed(arrivals);
      SucceededAnswered(participants, responses);
      CommitKeepsLists(w, e, responses, o);
    }
  }

  lemma CommitKeepsLists(w: ProxySpec.Wire, e: Engine, responses: map<string, Arrival>, o: Outcome)
    requires forall p :: p in o.successful ==> p in responses && responses[p].Success?
    requires forall p :: p in responses ==> responses[p].Success?
    ensures var c := Commit(w, e, responses, o).1;
      c.successful == o.successful && c.failed == o.failed && c.failures == o.failures && c.counts == o.counts
  {
  }

  ghost predicate AnsweredWell(arrivals: seq<Arrival>, p: string) {
    exists a :: a in arrivals && a.Success? && a.nodeID == p
  }

  lemma RespondedIs(arrivals: seq<Arrival>, p: string)
    ensures p in Responses(arrivals) <==> AnsweredWell(arrivals, p)
  {
    MapsRecordAnswers(arrivals);
    if p in Responses(arrivals) { assert Responses(arrivals)[p] in arrivals; }
  }

  /** Every participant is in exactly one of the outcome's two lists, in rank order: among the successes exactly
   *  if it answered with success in time. With fewer participants than required both lists are empty and
   *  nothing is sent. */
  lemma Partition(w: ProxySpec.Wire, e: Engine, participants: seq<string>, required: int,
                  arrivals: seq<Arrival>, interrupt: Interrupt, elapsed: int)
    requires Distinct(participants)
    ensures var (r, o) := Settle(w, e, participants, required, arrivals, interrupt, elapsed);
      if |participants| < Needed(required) then r == w && !o.committed && o.successful == [] && o.failed == []
      else
        && Subsequence(o.successful, participants) && Subsequence(o.failed, participants)
        && multiset(o.successful) + multiset(o.failed) == multiset(participants)
        && (forall p :: p in o.successful <==> p in participants && AnsweredWell(arrivals, p))
  {
    SettledLists(w, e, participants, required, arrivals, interrupt, elapsed);
    ListsPartition(participants, Responses(arrivals));
    forall p ensures p in Responses(arrivals) <==> AnsweredWell(arrivals, p) { RespondedIs(arrivals, p); }
  }

  predicate Reports(a: Arrival, p: string) { a.Failed? && a.nodeID == p }

  /** This failure is what that participant reported: its reason, a connection error when it gave none, its status,
   *  and how long it took, never less than nothing. */
  predicate RecordOf(f: Failure, a: Arrival)
    requires a.Failed?
  {
    && f.nodeID == a.nodeID && f.status == a.status
    && f.reason == (if a.reason.Some? then a.reason.value else ConnectionError)
    && f.durationMS == (if a.durationMS > 0 then a.durationMS else 0)
  }

  /** Some participant had not answered when the wait ended. */
  predicate SomeMissing(participants: seq<string>, arrivals: seq<Arrival>) { |arrivals| < |participants| }

  /** A failure names its participant and says what that one reported or, if it reported no failure, that the client
   *  went away or the time was up. */
  ghost predicate Explains(f: Failure, p: string, participants: seq<string>, arrivals: seq<Arrival>,
                           interrupt: Interrupt, elapsed: int)
  {
    f.nodeID == p &&
    if exists a :: a in arrivals && Reports(a, p)
    then exists a :: a in arrivals && Reports(a, p) && RecordOf(f, a)
    else
      && f.status == 0 && f.durationMS == elapsed
      && f.reason == (if !SomeMissing(participants, arrivals) then ConnectionError
                      else if interrupt == ClientGone then Cancellation else Timeout)
  }

  lemma FailureExplains(p: string, participants: seq<string>, arrivals: seq<Arrival>, interrupt: Interrupt,
                        elapsed: int)
    ensures Explains(FailureFor(p, Failures(arrivals), Ending(participants, arrivals, interrupt), elapsed), p,
                     participants, arrivals, interrupt, elapsed)
  {
    MapsRecordAnswers(arrivals);
    if p in Failures(arrivals) {
      var x := FailureIs(arrivals, p);
      assert Reports(x, p) && RecordOf(Failures(arrivals)[p], x);
    }
  }

  /** The outcome explains each failed participant, in order; each of its reason counts is the number of those
   *  failures, and together the counts are all failed participants. */
  lemma CountsAddUp(w: ProxySpec.Wire, e: Engine, participants: seq<string>, required: int,
                    arrivals: seq<Arrival>, interrupt: Interrupt, elapsed: int, reason: Reason)
    ensures var o := Settle(w, e, participants, required, arrivals, interrupt, elapsed).1;
      && |o.failures| == |o.failed| && Total(o.counts) == |o.failed|
      && Get(o.counts, reason) == WithReason(o.failures, reason)
      && (forall i :: 0 <= i < |o.failed| ==>
            Explains(o.failures[i], o.failed[i], participants, arrivals, interrupt, elapsed))
  {
    var o := Settle(w, e, participants, required, arrivals, interrupt, elapsed).1;
    SettledLists(w, e, participants, required, arrivals, interrupt, elapsed);
    EachCounted(o.failures, reason);
    AllCounted(o.failures);
    forall i | 0 <= i < |o.failed|
      ensures Explains(o.failures[i], o.failed[i], participants, arrivals, interrupt, elapsed)
    {
      FailureExplains(o.failed[i], participants, arrivals, interrupt, elapsed);
    }
  }

  // ---------------------------------------------------------------- when a body is sent

  lemma {:induction false} SucceededCount(participants: seq<string>, responses: map<string, Arrival>,
                                          known: set<string>)
    requires Distinct(participants) && known == set p | p in participants && p in responses
    ensures |Succeeded(participants, responses)| == |known|
  {
    if participants != [] {
      var rest, last := participants[..|participants| - 1], participants[|participants| - 1];
      assert participants == rest + [last];
      assert last !in rest;
      var before := set p | p in rest && p in responses;
      SucceededCount(rest, responses, before);
      assert known == if last in responses then before + {last} else before;
    }
  }

  lemma AllResponsesCounted(participants: seq<string>, arrivals: seq<Arrival>)
    requires Distinct(participants) && Possible(participants, arrivals)
    ensures |Succeeded(participants, Responses(arrivals))| == |Responses(arrivals)|
  {
    MapsRecordAnswers(arrivals);
    var responses := Responses(arrivals);
    forall p | p in responses ensures p in participants {
      assert responses[p].nodeID == p && responses[p] in arrivals;
    }
    assert responses.Keys == set p | p in participants && p in responses;
    SucceededCount(participants, responses, responses.Keys);
  }

  lemma WinnerAnswered(e: Engine, cs: seq<Candidate>) returns (i: nat)
    requires cs != []
    ensures i < |cs| && Verdict(e, cs).winner == cs[i]
  {
    var r, k := VerdictReports(e, cs);
    i :| 0 <= i < |cs| && cs[i] == Verdict(e, cs).winner;
  }

  /** Somebody answered this. */
  ghost predicate Said(arrivals: seq<Arrival>, p: string, body: Bytes) {
    exists a :: a in arrivals && a.Success? && a.nodeID == p && a.body == body
  }

  /** The candidates of the vote: the successes in rank order, each with what it answered. */
  ghost predicate AreSuccesses(cs: seq<Candidate>, successful: seq<string>, arrivals: seq<Arrival>) {
    |cs| == |successful|
    && forall i :: 0 <= i < |cs| ==> cs[i].nodeID == successful[i] && Said(arrivals, successful[i], cs[i].body)
  }

  /** How much of a body the client takes, and whether it says that it failed. */
  function TakenOf(w: ProxySpec.Wire, body: Bytes): nat {
    if w.writes == [] || |body| <= w.writes[0].accepts then |body| else w.writes[0].accepts
  }

  predicate WriteFails(w: ProxySpec.Wire) { w.writes != [] && w.writes[0].fails }

  /** The wire gains the answer of the participant that won the vote over these candidates: one status line, and of
   *  its body what the client takes. */
  ghost predicate SendsWinner(w: ProxySpec.Wire, r: ProxySpec.Wire, e: Engine, cs: seq<Candidate>,
                              answer: Arrival, arrivals: seq<Arrival>, o: Outcome)
  {
    && AreSuccesses(cs, o.successful, arrivals) && o.verdict == Some(Verdict(e, cs))
    && answer in arrivals && answer.Success? && answer.nodeID == Verdict(e, cs).winner.nodeID
    && answer.body == Verdict(e, cs).winner.body && o.winner == Some(answer.nodeID) && answer.nodeID in o.successful
    && o.written == TakenOf(w, answer.body)
    && r.log == w.log + [ProxySpec.StatusLine(answer.status), ProxySpec.Body(answer.body[..o.written])]
  }

  lemma CandidatesSaid(successful: seq<string>, arrivals: seq<Arrival>)
    requires forall p :: p in successful ==> p in Responses(arrivals) && Responses(arrivals)[p].Success?
    ensures AreSuccesses(CandidatesOf(successful, Responses(arrivals)), successful, arrivals)
  {
    var responses := Responses(arrivals);
    var cs := CandidatesOf(successful, responses);
    ResponsesSucceed(arrivals);
    forall i | 0 <= i < |cs| ensures cs[i].nodeID == successful[i] && Said(arrivals, successful[i], cs[i].body) {
      assert responses[successful[i]] in arrivals;
    }
  }

  lemma CommitSendsWinner(w: ProxySpec.Wire, e: Engine, arrivals: seq<Arrival>, o: Outcome)
    returns (cs: seq<Candidate>, answer: Arrival)
    requires forall p :: p in o.successful ==> p in Responses(arrivals) && Responses(arrivals)[p].Success?
    requires forall p :: p in Responses(arrivals) ==> Responses(arrivals)[p].Success?
    requires o.successful != []
    ensures var (r, c) := Commit(w, e, Responses(arrivals), o);
      && c.committed && SendsWinner(w, r, e, cs, answer, arrivals, c)
      && c.err == (if WriteFails(w) then WriteFailed else NoError)
      && c == o.(winner := c.winner, verdict := c.verdict, committed := true, written := c.written, err := c.err)
  {
    var responses := Responses(arrivals);
    cs := CandidatesOf(o.successful, responses);
    CandidatesSaid(o.successful, arrivals);
    ResponsesSucceed(arrivals);
    var i := WinnerAnswered(e, cs);
    assert cs[i].nodeID == o.successful[i];
    answer := responses[cs[i].nodeID];
  }

  // ---------------------------------------------------------------- how a request ends

  /** The participants that answered with success before the wait ended. */
  ghost function Winners(participants: seq<string>, arrivals: seq<Arrival>): set<string> {
    set p | p in participants && AnsweredWell(arrivals, p)
  }

  lemma WinnersCounted(participants: seq<string>, arrivals: seq<Arrival>)
    requires Distinct(participants) && Possible(participants, arrivals)
    ensures |Winners(participants, arrivals)| == |Succeeded(participants, Responses(arrivals))| <= |participants|
    ensures |Responses(arrivals)| == |Winners(participants, arrivals)|
  {
    var responses := Responses(arrivals);
    AllResponsesCounted(participants, arrivals);
    forall p ensures p in responses <==> AnsweredWell(arrivals, p) { RespondedIs(arrivals, p); }
    SucceededCount(participants, responses, Winners(participants, arrivals));
    CoversAll(participants, responses);
    var yes, no := Succeeded(participants, responses), Missed(participants, responses);
    assert |multiset(yes) + multiset(no)| == |multiset(participants)|;
    assert |multiset(yes)| == |yes| && |multiset(participants)| == |participants|;
  }

  lemma TooFewParticipants(w: ProxySpec.Wire, e: Engine, participants: seq<string>, required: int,
                           arrivals: seq<Arrival>, interrupt: Interrupt, elapsed: int)
    requires |participants| < Needed(required)
    ensures var (r, o) := Settle(w, e, participants, required, arrivals, interrupt, elapsed);
      && r == w && !o.clientCancelled && !o.timedOut && !o.committed && o.winner == None && o.verdict == None
      && o.written == 0 && o.err == InsufficientSuccesses
  {
  }

  /** What is known once every participant is classified, and what comes of it. */
  lemma AfterClassifying(w: ProxySpec.Wire, e: Engine, participants: seq<string>, required: int,
                         arrivals: seq<Arrival>, interrupt: Interrupt, elapsed: int) returns (o: Outcome)
    requires Needed(required) <= |participants|
    ensures o.successful == Succeeded(participants, Responses(arrivals))
    ensures o.clientCancelled == (SomeMissing(participants, arrivals) && interrupt == ClientGone)
    ensures o.timedOut == (SomeMissing(participants, arrivals) && interrupt == Deadline)
    ensures o.winner == None && o.verdict == None && !o.committed && o.written == 0
    ensures o.err == if o.clientCancelled then ClientCancelled else NoError
    ensures forall p :: p in Responses(arrivals) ==> Responses(arrivals)[p].Success?
    ensures forall p :: p in o.successful ==> p in Responses(arrivals) && Responses(arrivals)[p].Success?
    ensures Settle(w, e, participants, required, arrivals, interrupt, elapsed)
         == if o.clientCancelled then (w, o)
            else if |Responses(arrivals)| < Needed(required) then (w, o.(err := InsufficientSuccesses))
            else Commit(w, e, Responses(arrivals), o)
  {
    var responses := Responses(arrivals);
    ResponsesSucceed(arrivals);
    SucceededAnswered(participants, responses);
    o := Classify(participants, responses, Failures(arrivals), Ending(participants, arrivals, interrupt), elapsed);
  }

  /** The whole outcome of a request, as its inputs decide it. The client is reported gone exactly if it went while
   *  answers were missing, the time is reported up exactly if it was up then, and with fewer participants than
   *  needed nothing is waited for. A response goes out exactly if enough participants answered well and the client
   *  was not gone, also after a timeout; it is that of the winner of the vote over the successes, and otherwise the
   *  wire is untouched. The winner is never missing. */
  lemma CommitsOnlyWinners(w: ProxySpec.Wire, e: Engine, participants: seq<string>, required: int,
                           arrivals: seq<Arrival>, interrupt: Interrupt, elapsed: int)
    returns (cs: seq<Candidate>, answer: Arrival)
    requires Distinct(participants) && Possible(participants, arrivals)
    ensures var (r, o) := Settle(w, e, participants, required, arrivals, interrupt, elapsed);
      var enough := Needed(required) <= |participants|;
      var won := Needed(required) <= |Winners(participants, arrivals)|;
      && (o.clientCancelled <==> enough && SomeMissing(participants, arrivals) && interrupt == ClientGone)
      && (o.timedOut <==> enough && SomeMissing(participants, arrivals) && interrupt == Deadline)
      && (o.committed <==> won && !(SomeMissing(participants, arrivals) && interrupt == ClientGone))
      && (o.committed ==> SendsWinner(w, r, e, cs, answer, arrivals, o))
      && (!o.committed ==> r == w && o.winner == None && o.verdict == None && o.written == 0)
      && o.err == (if o.clientCancelled then ClientCancelled else if !won then InsufficientSuccesses
                   else if WriteFails(w) then WriteFailed else NoError)
  {
    cs, answer := [], Failed("", 0, None, 0);
    WinnersCounted(participants, arrivals);
    if |participants| < Needed(required) {
      TooFewParticipants(w, e, participants, required, arrivals, interrupt, elapsed);
    } else {
      var o := AfterClassifying(w, e, participants, required, arrivals, interrupt, elapsed);
      if o.successful != [] {
        cs, answer := CommitSendsWinner(w, e, arrivals, o);
      }
    }
  }
}
