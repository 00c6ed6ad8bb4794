// The consensus request as it runs: a collect loop filling two maps, a classification loop filling
// the outcome, and the commit on the client connection; proved against ConsensusSpec.
module Consensus {
  import opened Common
  import opened ConsensusEngine
  import opened ConsensusSpec
  import opened Proxy
  import ProxySpec

  /** Receives answers until all participants have answered or the wait is interrupted. At most one
      answer per participant is ever sent on the channel. */
  method Collect(participants: seq<string>, arrivals: seq<Arrival>, interrupt: Interrupt)
    returns (responses: map<string, Arrival>, failures: map<string, Failure>, timedOut: bool, clientCancelled: bool)
    requires |arrivals| <= |participants|
    ensures responses == Responses(arrivals) && failures == Failures(arrivals)
    ensures timedOut == (Ending(participants, arrivals, interrupt) == Some(Deadline))
    ensures clientCancelled == (Ending(participants, arrivals, interrupt) == Some(ClientGone))
  {
    responses, failures, timedOut, clientCancelled := map[], map[], false, false;
    var completed := 0;
    while completed < |participants|
      invariant 0 <= completed <= |arrivals| && !timedOut && !clientCancelled
      invariant responses == Responses(arrivals[..completed]) && failures == Failures(arrivals[..completed])
    {
      if completed == |arrivals| {
        assert arrivals[..completed] == arrivals;
        if interrupt == ClientGone {
          clientCancelled := true;
        } else {
          timedOut := true;
        }
        return;
      }
      var response := arrivals[completed];
      completed := completed + 1;
      assert arrivals[..completed][..completed - 1] == arrivals[..completed - 1];
      if response.Failed? {
        failures := failures[response.nodeID := FailureOf(response)];
        continue;
      }
      responses := responses[response.nodeID := response];
    }
    assert arrivals[..completed] == arrivals;
  }

  lemma OneMissed(failed: seq<string>, id: string, failures: map<string, Failure>, ending: Option<Interrupt>,
                  elapsed: int)
    ensures var failure := FailureFor(id, failures, ending, elapsed);
      var before := FailuresOf(failed, failures, ending, elapsed);
      && FailuresOf(failed + [id], failures, ending, elapsed) == before + [failure]
      && CountReasons(before + [failure])
         == CountReasons(before)[failure.reason := Get(CountReasons(before), failure.reason) + 1]
  {
    var failure := FailureFor(id, failures, ending, elapsed);
    var before := FailuresOf(failed, failures, ending, elapsed);
    assert (before + [failure])[..|before|] == before;
  }

  /** The outcome lists hold the classification of these participants. */
  ghost predicate Classified(participants: seq<string>, responses: map<string, Arrival>, failures: map<string, Failure>,
                             ending: Option<Interrupt>, elapsed: int, successful: seq<string>, failed: seq<string>,
                             reported: seq<Failure>, counts: map<Reason, nat>)
  {
    && successful == Succeeded(participants, responses) && failed == Missed(participants, responses)
    && reported == FailuresOf(failed, failures, ending, elapsed) && counts == CountReasons(reported)
  }

  lemma OneClassified(participants: seq<string>, p: string, responses: map<string, Arrival>,
                      failures: map<string, Failure>,
                      ending: Option<Interrupt>, elapsed: int, successful: seq<string>, failed: seq<string>,
                      reported: seq<Failure>, counts: map<Reason, nat>)
    requires Classified(participants, responses, failures, ending, elapsed, successful, failed, reported, counts)
    ensures p in responses ==>
      Classified(participants + [p], responses, failures, ending, elapsed, successful + [p], failed, reported, counts)
    ensures p !in responses ==>
      var f := FailureFor(p, failures, ending, elapsed);
      Classified(participants + [p], responses, failures, ending, elapsed, successful, failed + [p], reported + [f],
                 counts[f.reason := Get(counts, f.reason) + 1])
  {
    assert (participants + [p])[..|participants|] == participants;
    OneMissed(failed, p, failures, ending, elapsed);
  }

  ghost function EndingOf(timedOut: bool, clientCancelled: bool): Option<Interrupt> {
    if clientCancelled then Some(ClientGone) else if timedOut then Some(Deadline) else None
  }

  /** The failure record of a participant without a response. */
  method MissedFailure(nodeID: string, failures: map<string, Failure>, timedOut: bool, clientCancelled: bool,
                       elapsed: int) returns (failure: Failure)
    ensures failure == FailureFor(nodeID, failures, EndingOf(timedOut, clientCancelled), elapsed)
  {
    if nodeID in failures {
      return failures[nodeID];
    }
    var unfinished: Option<Reason> := None;
    if clientCancelled {
      unfinished := Some(Cancellation);
    } else if timedOut {
      unfinished := Some(Timeout);
    }
    failure := Failure(nodeID, if unfinished.Some? then unfinished.value else ConnectionError, 0, elapsed);
  }

  method ClassifyParticipants(participants: seq<string>, responses: map<string, Arrival>,
                              failures: map<string, Failure>,
                              timedOut: bool, clientCancelled: bool, elapsed: int) returns (o: Outcome)
    requires !(timedOut && clientCancelled)
    ensures o == Classify(participants, responses, failures, EndingOf(timedOut, clientCancelled), elapsed)
  {
    ghost var ending := EndingOf(timedOut, clientCancelled);
    var successful, failed, reported := [], [], [];
    var counts: map<Reason, nat> := map[];
    for i := 0 to |participants|
      invariant Classified(participants[..i], responses, failures, ending, elapsed,
                           successful, failed, reported, counts)
    {
      var nodeID := participants[i];
      OneClassified(participants[..i], nodeID, responses, failures, ending, elapsed,
                    successful, failed, reported, counts);
      assert participants[..i + 1] == participants[..i] + [nodeID];
      if nodeID in responses {
        successful := successful + [nodeID];
        continue;
      }
      var failure := MissedFailure(nodeID, failures, timedOut, clientCancelled, elapsed);
      failed := failed + [nodeID];
      reported := reported + [failure];
      counts := counts[failure.reason := Get(counts, failure.reason) + 1];
    }
    assert participants[..|participants|] == participants;
    o := Outcome(successful, failed, reported, counts, None, None, timedOut, clientCancelled, false, 0,
                 if clientCancelled then ClientCancelled else NoError);
  }

  method ForwardConsensus(client: Connection, e: Engine, participants: seq<string>, required: int,
                          arrivals: seq<Arrival>, interrupt: Interrupt, elapsed: int) returns (o: Outcome)
    requires |arrivals| <= |participants|
    modifies client
    ensures (client.Wire(), o) == Settle(old(client.Wire()), e, participants, required, arrivals, interrupt, elapsed)
  {
    if |participants| < Required(required) {
      return Outcome([], [], [], map[], None, None, false, false, false, 0, InsufficientSuccesses);
    }
    var responses, failures, timedOut, clientCancelled := Collect(participants, arrivals, interrupt);
    o := ClassifyParticipants(participants, responses, failures, timedOut, clientCancelled, elapsed);
    if clientCancelled {
      return;
    }
    if |responses| < Required(required) {
      return o.(err := InsufficientSuccesses);
    }
    ResponsesSucceed(arrivals);
    SucceededAnswered(participants, responses);
    var candidates := [];
    for i := 0 to |o.successful|
      invariant candidates == CandidatesOf(o.successful, responses)[..i]
    {
      candidates := candidates + [Candidate(o.successful[i], responses[o.successful[i]].body)];
    }
    assert candidates == CandidatesOf(o.successful, responses);
    var verdict := Evaluate(e, candidates);
    var winner := verdict.winner.nodeID;
    if winner !in responses {
      return o.(err := WinnerMissing);
    }
    client.WriteHeader(responses[winner].status);
    var written, failed := client.Write(responses[winner].body);
    o := o.(winner := Some(winner), verdict := Some(verdict), committed := true, written := written,
            err := if failed then WriteFailed else NoError);
  }
}
