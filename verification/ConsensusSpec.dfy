// Consensus fan-out of internal/httpapi/consensus.go: collect participant results as they arrive
// until all have or the wait is cut off, classify every participant, and commit at most one
// response. The arrival order and the moment of the cut are arbitrary.
module ConsensusSpec {
  import opened Common
  import opened ConsensusEngine
  import ProxySpec

  datatype Reason =
    | MissingProxyURL | ConnectionError | Upstream4xx | Upstream5xx | BodyRead | ResponseSize | Timeout | Cancellation

  /** What one participant reports. A failed one may come without a reason. */
  datatype Arrival =
    | Success(nodeID: string, status: int, body: Bytes)
    | Failed(nodeID: string, status: int, reason: Option<Reason>, durationMS: int)

  datatype Failure = Failure(nodeID: string, reason: Reason, status: int, durationMS: int)

  /** What ends the wait when participants are still missing. */
  datatype Interrupt = Deadline | ClientGone

  datatype Error = NoError | InsufficientSuccesses | ClientCancelled | WinnerMissing | WriteFailed

  datatype Outcome = Outcome(
    successful: seq<string>, failed: seq<string>, failures: seq<Failure>, counts: map<Reason, nat>,
    winner: Option<string>, verdict: Option<Result>, timedOut: bool, clientCancelled: bool,
    committed: bool, written: nat, err: Error)

  const DefaultMinParticipants := 2

  function Required(required: int): (r: int)
    ensures r >= 1
  {
    if required < 1 then DefaultMinParticipants else required
  }

  // ---------------------------------------------------------------- collecting

  function FailureOf(a: Arrival): Failure
    requires a.Failed?
  {
    Failure(a.nodeID, if a.reason.Some? then a.reason.value else ConnectionError, a.status,
            if a.durationMS < 0 then 0 else a.durationMS)
  }

  function Responses(arrivals: seq<Arrival>): map<string, Arrival> {
    if arrivals == [] then map[]
    else
      var last := arrivals[|arrivals| - 1];
      var m := Responses(arrivals[..|arrivals| - 1]);
      if last.Success? then m[last.nodeID := last] else m
  }

  function Failures(arrivals: seq<Arrival>): map<string, Failure> {
    if arrivals == [] then map[]
    else
      var last := arrivals[|arrivals| - 1];
      var m := Failures(arrivals[..|arrivals| - 1]);
      if last.Failed? then m[last.nodeID := FailureOf(last)] else m
  }

  /** How the collect loop ended: None when every participant answered. */
  function Ending(participants: seq<string>, arrivals: seq<Arrival>, interrupt: Interrupt): Option<Interrupt> {
    if |arrivals| >= |participants| then None else Some(interrupt)
  }

  // ---------------------------------------------------------------- classifying

  function UnfinishedReason(ending: Option<Interrupt>): Reason {
    match ending
    case Some(ClientGone) => Cancellation
    case Some(Deadline) => Timeout
    case None => ConnectionError
  }

  function FailureFor(p: string, failures: map<string, Failure>, ending: Option<Interrupt>, elapsed: int): Failure {
    if p in failures then failures[p] else Failure(p, UnfinishedReason(ending), 0, elapsed)
  }

  function Succeeded(participants: seq<string>, responses: map<string, Arrival>): seq<string> {
    if participants == [] then []
    else
      var rest := Succeeded(participants[..|participants| - 1], responses);
      var p := participants[|participants| - 1];
      if p in responses then rest + [p] else rest
  }

  function Missed(participants: seq<string>, responses: map<string, Arrival>): seq<string> {
    if participants == [] then []
    else
      var rest := Missed(participants[..|participants| - 1], responses);
      var p := participants[|participants| - 1];
      if p in responses then rest else rest + [p]
  }

  function FailuresOf(missed: seq<string>, failures: map<string, Failure>, ending: Option<Interrupt>, elapsed: int)
    : (r: seq<Failure>)
    ensures |r| == |missed| && forall i :: 0 <= i < |r| ==> r[i] == FailureFor(missed[i], failures, ending, elapsed)
  {
    seq(|missed|, i requires 0 <= i < |missed| => FailureFor(missed[i], failures, ending, elapsed))
  }

  function Get(counts: map<Reason, nat>, r: Reason): nat { if r in counts then counts[r] else 0 }

  function CountReasons(fs: seq<Failure>): map<Reason, nat> {
    if fs == [] then map[]
    else
      var m, r := CountReasons(fs[..|fs| - 1]), fs[|fs| - 1].reason;
      m[r := Get(m, r) + 1]
  }

  // ---------------------------------------------------------------- committing

  function CandidatesOf(successful: seq<string>, responses: map<string, Arrival>): (r: seq<Candidate>)
    requires forall p :: p in successful ==> p in responses && responses[p].Success?
    ensures |r| == |successful|
    ensures forall i :: 0 <= i < |r| ==> r[i] == Candidate(successful[i], responses[successful[i]].body)
  {
    seq(|successful|, i requires 0 <= i < |successful| => Candidate(successful[i], responses[successful[i]].body))
  }

  lemma {:induction false} ResponsesSucceed(arrivals: seq<Arrival>)
    ensures forall p :: p in Responses(arrivals) ==>
      Responses(arrivals)[p].Success? && Responses(arrivals)[p].nodeID == p && Responses(arrivals)[p] in arrivals
  {
    if arrivals != [] {
      ResponsesSucceed(arrivals[..|arrivals| - 1]);
    }
  }

  lemma {:induction false} SucceededAnswered(participants: seq<string>, responses: map<string, Arrival>)
    ensures forall p :: p in Succeeded(participants, responses) <==> p in participants && p in responses
    ensures forall p :: p in Missed(participants, responses) <==> p in participants && p !in responses
  {
    if participants != [] {
      var rest, last := participants[..|participants| - 1], participants[|participants| - 1];
      SucceededAnswered(rest, responses);
      assert participants == rest + [last];
    }
  }

  /** Evaluate the successes and send the winner's response. */
  function Commit(w: ProxySpec.Wire, e: Engine, responses: map<string, Arrival>, o: Outcome): (ProxySpec.Wire, Outcome)
    requires forall p :: p in o.successful ==> p in responses && responses[p].Success?
    requires forall p :: p in responses ==> responses[p].Success?
  {
    var verdict := Verdict(e, CandidatesOf(o.successful, responses));
    var id := verdict.winner.nodeID;
    if id !in responses then (w, o.(err := WinnerMissing))
    else
      var w1 := ProxySpec.SendStatus(w, responses[id].status);
      var body := responses[id].body;
      (ProxySpec.SendBody(w1, body),
       o.(winner := Some(id), verdict := Some(verdict), committed := true, written := ProxySpec.Accepted(w1, body),
          err := if ProxySpec.NextWrite(w1, body).fails then WriteFailed else NoError))
  }

  /** Every participant sorted into success or failure, before anything is sent. */
  function Classify(participants: seq<string>, responses: map<string, Arrival>, failures: map<string, Failure>,
                    ending: Option<Interrupt>, elapsed: int): Outcome
  {
    var failed := Missed(participants, responses);
    var reported := FailuresOf(failed, failures, ending, elapsed);
    Outcome(Succeeded(participants, responses), failed, reported, CountReasons(reported), None, None,
            ending == Some(Deadline), ending == Some(ClientGone), false, 0,
            if ending == Some(ClientGone) then ClientCancelled else NoError)
  }

  /** The client cancelled, too few succeeded, or the winner's response goes out. */
  function Settle(w: ProxySpec.Wire, e: Engine, participants: seq<string>, required: int,
                  arrivals: seq<Arrival>, interrupt: Interrupt, elapsed: int): (ProxySpec.Wire, Outcome)
  {
    if |participants| < Required(required) then
      (w, Outcome([], [], [], map[], None, None, false, false, false, 0, InsufficientSuccesses))
    else
      var responses := Responses(arrivals);
      var ending := Ending(participants, arrivals, interrupt);
      var o := Classify(participants, responses, Failures(arrivals), ending, elapsed);
      if o.clientCancelled then (w, o)
      else if |responses| < Required(required) then (w, o.(err := InsufficientSuccesses))
      else
        ResponsesSucceed(arrivals);
        SucceededAnswered(participants, responses);
        Commit(w, e, responses, o)
  }
}
