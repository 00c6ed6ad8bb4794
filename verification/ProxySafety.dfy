// Single-origin output: whatever upstreams and client connections do, a client sees at most one
// response, from one upstream, and no retry happens behind something the client already saw.
module ProxySafety {
  import opened Common
  import opened ProxySpec

  // ---------------------------------------------------------------- what one copy sends

  /** `to` extends `from` by the events `added`. */
  ghost predicate Adds(from: Wire, to: Wire, added: seq<Event>) { to.log == from.log + added }

  /** The body event a write of this data puts on the wire. */
  function Chunk(w: Wire, data: Bytes): (e: Event)
    ensures Payload(e) <= data && |Payload(e)| == Accepted(w, data)
  {
    Body(data[..Accepted(w, data)])
  }

  lemma BodyOfFirst(chunks: seq<ReadResult>)
    requires chunks != []
    ensures chunks[0].data <= BodyOf(chunks)
    ensures BodyOf(chunks) == if chunks[0].err == NoError then chunks[0].data + BodyOf(chunks[1..]) else chunks[0].data
  {
  }

  // ---------------------------------------------------------------- what the client takes

  function Left(writes: seq<WriteResult>): seq<WriteResult> { if writes == [] then [] else writes[1..] }

  /** This write takes the data as far as the copy looks: streamed, all of it and without an error; in one piece,
      without an error. */
  predicate Takes(x: WriteResult, data: Bytes, stream: bool) { !x.fails && (stream ==> |data| <= x.accepts) }

  /** The first of these pieces that the client does not take, or |pieces| when it takes all. */
  function FirstBad(pieces: seq<Bytes>, writes: seq<WriteResult>, stream: bool): (k: nat)
    ensures k <= |pieces|
    ensures k < |pieces| ==> k < |writes| && !Takes(writes[k], pieces[k], stream)
    ensures forall i :: 0 <= i < k && i < |writes| ==> Takes(writes[i], pieces[i], stream)
    decreases |pieces|
  {
    if pieces == [] || (writes != [] && !Takes(writes[0], pieces[0], stream)) then 0
    else 1 + FirstBad(pieces[1..], Left(writes), stream)
  }

  /** The bytes the client gets: whole pieces, and of the first it does not take whole what it accepts. */
  function Taken(pieces: seq<Bytes>, writes: seq<WriteResult>): Bytes
    decreases |pieces|
  {
    if pieces == [] then []
    else if writes == [] then pieces[0] + Taken(pieces[1..], [])
    else if Takes(writes[0], pieces[0], true) then pieces[0] + Taken(pieces[1..], writes[1..])
    else if writes[0].accepts < |pieces[0]| then pieces[0][..writes[0].accepts]
    else pieces[0]
  }

  /** The pieces a stream passes on: what every read brought, up to the first error. */
  function Pieces(chunks: seq<ReadResult>): seq<Bytes> {
    if chunks == [] then []
    else
      (if chunks[0].data != [] then [chunks[0].data] else [])
      + (if chunks[0].err == NoError then Pieces(chunks[1..]) else [])
  }

  /** ... where the first read is passed on even when it brought nothing yet. */
  function Opening(chunks: seq<ReadResult>): seq<Bytes>
    requires chunks != []
  {
    [chunks[0].data] + (if chunks[0].err == NoError then Pieces(chunks[1..]) else [])
  }

  /** Everything a copy asks the client to take. */
  function Asked(response: Response, stream: bool): seq<Bytes> {
    if !stream then (if Complete(response.chunks) then [BodyOf(response.chunks)] else [])
    else
      var r := NextRead(response.chunks);
      if r.data == [] && r.err != NoError then [] else Opening(response.chunks)
  }

  function Concat(pieces: seq<Bytes>): Bytes { if pieces == [] then [] else pieces[0] + Concat(pieces[1..]) }

  lemma ConcatOne(piece: Bytes, rest: seq<Bytes>)
    ensures Concat([piece] + rest) == piece + Concat(rest)
  {
    assert ([piece] + rest)[1..] == rest;
  }

  /** The pieces are the body, cut up. */
  lemma {:induction false} PiecesAreBody(chunks: seq<ReadResult>)
    ensures Concat(Pieces(chunks)) == BodyOf(chunks)
    ensures chunks != [] ==> Concat(Opening(chunks)) == BodyOf(chunks)
  {
    if chunks != [] {
      var rest := if chunks[0].err == NoError then Pieces(chunks[1..]) else [];
      BodyOfFirst(chunks);
      if chunks[0].err == NoError { PiecesAreBody(chunks[1..]); }
      ConcatOne(chunks[0].data, rest);
      assert Concat([]) == [] && chunks[0].data + [] == chunks[0].data;
      if chunks[0].data == [] { assert [] + rest == rest && [] + Concat(rest) == Concat(rest); }
    }
  }

  lemma AskedIsBody(response: Response, stream: bool)
    requires !Quiet(response, stream)
    ensures Concat(Asked(response, stream)) == BodyOf(response.chunks)
  {
    if stream { PiecesAreBody(response.chunks); } else { ConcatOne(BodyOf(response.chunks), []); }
    assert Asked(response, false) == [BodyOf(response.chunks)] + [] || stream || !Complete(response.chunks);
  }

  lemma {:induction false} TakenPart(pieces: seq<Bytes>, writes: seq<WriteResult>)
    ensures Taken(pieces, writes) <= Concat(pieces)
    ensures FirstBad(pieces, writes, true) == |pieces| ==> Taken(pieces, writes) == Concat(pieces)
    decreases |pieces|
  {
    if pieces != [] { TakenPart(pieces[1..], Left(writes)); }
  }

  lemma FirstTaken(piece: Bytes, rest: seq<Bytes>, writes: seq<WriteResult>, stream: bool)
    ensures var first := writes == [] || Takes(writes[0], piece, stream);
      FirstBad([piece] + rest, writes, stream) == if first then 1 + FirstBad(rest, Left(writes), stream) else 0
    ensures Taken([piece] + rest, writes)
         == if writes == [] || Takes(writes[0], piece, true) then piece + Taken(rest, Left(writes))
            else if writes[0].accepts < |piece| then piece[..writes[0].accepts] else piece
  {
    assert ([piece] + rest)[1..] == rest;
  }

  // ---------------------------------------------------------------- what one copy sends

  /** How a copy ends that passes on these pieces and then finds the end of the body, or no end. */
  function EndsWith(pieces: seq<Bytes>, whole: bool, writes: seq<WriteResult>, stream: bool): CopyError {
    var k := FirstBad(pieces, writes, stream);
    if k < |pieces| then (if writes[k].fails then WriteFailed else ShortWrite)
    else if whole then Delivered
    else ReadFailed
  }

  /** Body bytes only, those the client takes of the pieces, and the outcome that goes with them. */
  ghost predicate Sends(added: seq<Event>, pieces: seq<Bytes>, whole: bool, writes: seq<WriteResult>, written: nat,
                        err: CopyError)
  {
    && OnlyBody(added) && Sent(added) == Taken(pieces, writes) && written == |Sent(added)|
    && err == EndsWith(pieces, whole, writes, true)
  }

  lemma SendsMore(e: Event, more: seq<Event>, piece: Bytes, rest: seq<Bytes>, whole: bool, writes: seq<WriteResult>,
                  written: nat, err: CopyError)
    requires (writes == [] || Takes(writes[0], piece, true)) && e == Body(piece)
    requires Sends(more, rest, whole, Left(writes), written, err)
    ensures Sends([e] + more, [piece] + rest, whole, writes, |piece| + written, err)
  {
    SentConcat([e], more);
    SentOne(e);
    FirstTaken(piece, rest, writes, true);
  }

  lemma SendsLast(w: Wire, piece: Bytes, whole: bool)
    ensures Sends([Chunk(w, piece)], [piece], whole, w.writes, Accepted(w, piece),
                  if AfterWrite(w, piece) != Delivered then AfterWrite(w, piece)
                  else if whole then Delivered else ReadFailed)
  {
    SentOne(Chunk(w, piece));
    FirstTaken(piece, [], w.writes, true);
    assert [piece] + [] == [piece] && piece + [] == piece && piece[..|piece|] == piece;
  }

  lemma SendsCut(w: Wire, piece: Bytes, rest: seq<Bytes>, whole: bool)
    requires AfterWrite(w, piece) != Delivered
    ensures Sends([Chunk(w, piece)], [piece] + rest, whole, w.writes, Accepted(w, piece), AfterWrite(w, piece))
  {
    SentOne(Chunk(w, piece));
    FirstTaken(piece, rest, w.writes, true);
    assert piece[..|piece|] == piece;
  }

  lemma {:induction false} StreamChunkSends(w: Wire, chunks: seq<ReadResult>, written: nat) returns (added: seq<Event>)
    requires chunks != []
    ensures var (r, o) := StreamChunk(w, chunks, written);
      && Adds(w, r, added) && o.committed && o.written >= written
      && Sends(added, Opening(chunks), Complete(chunks), w.writes, o.written - written, o.err)
    decreases |chunks|, 0
  {
    var data := chunks[0].data;
    var e, o := Chunk(w, data), StreamChunk(w, chunks, written).1;
    added := [e];
    if AfterWrite(w, data) != Delivered {
      SendsCut(w, data, Opening(chunks)[1..], Complete(chunks));
      assert Opening(chunks) == [data] + Opening(chunks)[1..];
    } else if chunks[0].err != NoError {
      SendsLast(w, data, Complete(chunks));
      assert Opening(chunks) == [data];
    } else {
      GoesOn(w, chunks, written);
      var more := StreamRestSends(SendBody(w, data), chunks[1..], written + |data|);
      SendsMore(e, more, data, Pieces(chunks[1..]), Complete(chunks), w.writes, o.written - (written + |data|), o.err);
      added := [e] + more;
      Regroup(w.log, [e], more);
    }
  }

  lemma GoesOn(w: Wire, chunks: seq<ReadResult>, written: nat)
    requires chunks != [] && chunks[0].err == NoError && AfterWrite(w, chunks[0].data) == Delivered
    ensures var data := chunks[0].data;
      && StreamChunk(w, chunks, written) == StreamRest(SendBody(w, data), chunks[1..], written + |data|)
      && SendBody(w, data) == Wire(w.log + [Body(data)], Left(w.writes)) && Chunk(w, data) == Body(data)
      && (w.writes == [] || Takes(w.writes[0], data, true)) && Complete(chunks) == Complete(chunks[1..])
      && Opening(chunks) == [data] + Pieces(chunks[1..])
  {
    var data := chunks[0].data;
    assert data[..|data|] == data;
  }

  lemma {:induction false} StreamRestSends(w: Wire, chunks: seq<ReadResult>, written: nat) returns (added: seq<Event>)
    ensures var (r, o) := StreamRest(w, chunks, written);
      && Adds(w, r, added) && o.committed && o.written >= written
      && Sends(added, Pieces(chunks), Complete(chunks), w.writes, o.written - written, o.err)
    decreases |chunks|, 1
  {
    var r := NextRead(chunks);
    added := [];
    if r.data != [] {
      added := StreamChunkSends(w, chunks, written);
      assert Pieces(chunks) == Opening(chunks);
    } else if r.err == NoError {
      added := StreamRestSends(w, chunks[1..], written);
      assert Pieces(chunks) == [] + Pieces(chunks[1..]) == Pieces(chunks[1..]);
    }
  }

  /** The upstream breaks before a copy has anything to show. */
  predicate Quiet(response: Response, stream: bool) {
    if stream then NextRead(response.chunks) == ReadResult([], Broken) else !Complete(response.chunks)
  }

  /** The one write of an unstreamed body takes fewer bytes than given and reports no error. */
  predicate ShortButSilent(w: Wire, response: Response) {
    var body := BodyOf(response.chunks);
    !NextWrite(w, body).fails && Accepted(w, body) < |body|
  }

  /** The client takes the whole copy: no write of the body fails or, when streaming, is short. */
  predicate TakesAll(response: Response, stream: bool, writes: seq<WriteResult>) {
    forall i :: 0 <= i < |Asked(response, stream)| && i < |writes| ==>
      !writes[i].fails && (stream ==> |Asked(response, stream)[i]| <= writes[i].accepts)
  }

  /** What a copy shows the client: nothing at all when it did not commit, else the upstream's status line followed
      by body bytes only, exactly those the client takes, a prefix of the upstream's body. */
  ghost predicate ShowsOneResponse(added: seq<Event>, response: Response, stream: bool, writes: seq<WriteResult>,
                                   o: CopyOutcome)
  {
    && (o.committed <==> added != [])
    && (added != [] ==> added[0] == StatusLine(response.status) && OnlyBody(added[1..]))
    && Sent(added) == Taken(Asked(response, stream), writes) && o.written == |Sent(added)|
    && Sent(added) <= BodyOf(response.chunks)
  }

  lemma StreamCopySends(w: Wire, response: Response) returns (bodies: seq<Event>)
    requires !Quiet(response, true)
    ensures var (r, o) := StreamCopy(w, response);
      && o.committed && Adds(SendStatus(w, response.status), r, bodies)
      && Sends(bodies, Asked(response, true), Complete(response.chunks), w.writes, o.written, o.err)
  {
    var chunks, r := response.chunks, NextRead(response.chunks);
    if r.data == [] && r.err == Eof {
      bodies := [];
    } else {
      bodies := StreamChunkSends(SendStatus(w, response.status), chunks, 0);
    }
  }

  lemma PlainCopySends(w: Wire, response: Response) returns (bodies: seq<Event>)
    requires !Quiet(response, false)
    ensures var (r, o) := PlainCopy(w, response);
      && o.committed && Adds(SendStatus(w, response.status), r, bodies) && OnlyBody(bodies)
      && Sent(bodies) == Taken(Asked(response, false), w.writes) && o.written == |Sent(bodies)|
      && o.err == EndsWith(Asked(response, false), true, w.writes, false)
      && (Sent(bodies) == BodyOf(response.chunks)
          <==> Accepted(w, BodyOf(response.chunks)) == |BodyOf(response.chunks)|)
  {
    var body := BodyOf(response.chunks);
    var e := Chunk(w, body);
    bodies := [e];
    SentOne(e);
    FirstTaken(body, [], w.writes, false);
    assert [body] + [] == [body] && body + [] == body && body[..|body|] == body;
  }

  lemma AfterStatus(w: Wire, to: Wire, code: int, bodies: seq<Event>) returns (added: seq<Event>)
    requires Adds(SendStatus(w, code), to, bodies) && OnlyBody(bodies)
    ensures Adds(w, to, added) && added != [] && added[0] == StatusLine(code) && OnlyBody(added[1..])
    ensures Sent(added) == Sent(bodies)
  {
    added := [StatusLine(code)] + bodies;
    SentConcat([StatusLine(code)], bodies);
    SentOne(StatusLine(code));
    Regroup(w.log, [StatusLine(code)], bodies);
    assert added[1..] == bodies;
  }

  /** A copy is complete exactly if the body is and the client takes all of it, and each way it can fail is told
      exactly. The client gets the pieces it takes. Delivered is delivered, except that an unstreamed body is not
      checked for a short write that reports no error: then, and only then, success is claimed for a body cut
      short. */
  lemma CopySends(w: Wire, response: Response, stream: bool) returns (added: seq<Event>)
    ensures var (r, o) := Copy(w, response, stream);
      && Adds(w, r, added) && ShowsOneResponse(added, response, stream, w.writes, o)
      && (o.committed <==> !Quiet(response, stream)) && (!o.committed ==> r == w && o.written == 0)
      && o.err == EndsWith(Asked(response, stream), Complete(response.chunks), w.writes, stream)
      && (o.err == Delivered <==> Complete(response.chunks) && TakesAll(response, stream, w.writes))
      && (o.err == ReadFailed <==> !Complete(response.chunks) && TakesAll(response, stream, w.writes))
      && (TakesAll(response, stream, w.writes) && o.committed ==>
            (Sent(added) == BodyOf(response.chunks) <==> stream || !ShortButSilent(w, response)))
  {
    added := [];
    if Quiet(response, stream) {
      assert Asked(response, stream) == [] && Taken([], w.writes) == Sent([]);
    } else {
      var bodies;
      if stream { bodies := StreamCopySends(w, response); } else { bodies := PlainCopySends(w, response); }
      added := AfterStatus(w, Copy(w, response, stream).0, response.status, bodies);
      TakenPart(Asked(response, stream), w.writes);
      AskedIsBody(response, stream);
    }
    AllTaken(response, stream, w.writes);
  }

  lemma AllTaken(response: Response, stream: bool, writes: seq<WriteResult>)
    ensures TakesAll(response, stream, writes)
       <==> FirstBad(Asked(response, stream), writes, stream) == |Asked(response, stream)|
  {
    var asked := Asked(response, stream);
    var k := FirstBad(asked, writes, stream);
    if k < |asked| { assert !Takes(writes[k], asked[k], stream); }
    forall i | k == |asked| && 0 <= i < |asked| && i < |writes|
      ensures !writes[i].fails && (stream ==> |asked[i]| <= writes[i].accepts)
    {
      assert Takes(writes[i], asked[i], stream);
    }
  }

  // ---------------------------------------------------------------- which nodes are tried

  /** The attempt failed before the client saw anything and before the client went away. */
  predicate Retryable(a: Attempt, stream: bool) {
    match a
    case NoProxyURL => true
    case InvalidRequest => false
    case TransportError(cancelled) => !cancelled
    case Responded(response, cancelled) =>
      || response.status >= 500
      || (response.status < 400 && !cancelled && Quiet(response, stream))
  }

  /** The first attempt from i on that is not retryable, or |attempts| when all are. */
  function FirstFinal(attempts: seq<Attempt>, stream: bool, i: nat): (f: nat)
    requires i <= |attempts|
    ensures i <= f <= |attempts|
    ensures forall j :: i <= j < f ==> Retryable(attempts[j], stream)
    ensures f < |attempts| ==> !Retryable(attempts[f], stream)
    decreases |attempts| - i
  {
    if i == |attempts| || !Retryable(attempts[i], stream) then i else FirstFinal(attempts, stream, i + 1)
  }

  predicate ReachesNode(a: Attempt) { a.TransportError? || a.Responded? }

  /** The contacts made by the attempts from i up to, not including, j. */
  function Contacts(nodes: seq<string>, attempts: seq<Attempt>, i: nat, j: nat): (r: seq<Event>)
    requires |attempts| == |nodes| && i <= j <= |nodes|
    ensures OnlyContacts(r)
    decreases j - i
  {
    if i == j then []
    else (if ReachesNode(attempts[i]) then [Contacted(nodes[i])] else []) + Contacts(nodes, attempts, i + 1, j)
  }

  /** Where the forwarding loop stops: after the first attempt that is final. */
  function Stop(attempts: seq<Attempt>, stream: bool, i: nat): (j: nat)
    requires i <= |attempts|
    ensures i <= j <= |attempts|
  {
    var f := FirstFinal(attempts, stream, i);
    if f < |attempts| then f + 1 else f
  }

  /** The response is copied to the client. */
  predicate Relays(a: Attempt) { a.Responded? && a.response.status < 400 }

  /** The response is turned into a normalized error. */
  predicate Refuses(a: Attempt) { a.Responded? && 400 <= a.response.status < 500 }

  /** The attempt has something to show: a normalized error, or a response that does not break before it starts. */
  predicate Speaks(a: Attempt, stream: bool) { Refuses(a) || (Relays(a) && !Quiet(a.response, stream)) }

  /** Everything the client was shown came from this one attempt: its status, and of its body, or of the normalized
      error, exactly what the client took. */
  ghost predicate ShownBy(a: Attempt, shown: seq<Event>, stream: bool, writes: seq<WriteResult>, render: int -> Bytes) {
    && (Refuses(a) || Relays(a)) && shown != [] && shown[0] == StatusLine(a.response.status) && SingleResponse(shown)
    && if Refuses(a) then Sent(shown) == Taken([render(a.response.status)], writes)
       else Sent(shown) == Taken(Asked(a.response, stream), writes) && Sent(shown) <= BodyOf(a.response.chunks)
  }

  predicate WholeBody(a: Attempt, shown: seq<Event>)
    requires a.Responded?
  {
    Sent(shown) == BodyOf(a.response.chunks)
  }

  /** The attempt brings a complete body, and the client takes all of it. */
  predicate Succeeds(a: Attempt, stream: bool, writes: seq<WriteResult>) {
    Relays(a) && Complete(a.response.chunks) && TakesAll(a.response, stream, writes)
  }

  /** The client was found to be gone: when the request failed, or when the copy did. */
  predicate FoundGone(a: Attempt, stream: bool, writes: seq<WriteResult>) {
    (a.TransportError? && a.cancelled) || (Relays(a) && a.cancelled && !Succeeds(a, stream, writes))
  }

  /** What is reported of the final attempt, the i-th, and what the client was shown by it. */
  ghost predicate AttemptResult(writes: seq<WriteResult>, a: Attempt, i: nat, stream: bool, render: int -> Bytes,
                                shown: seq<Event>, o: ProxyOutcome)
  {
    && o.fallbackUsed == (i > 0) && o.retryCount == (if a.Responded? then i else 0)
    && (o.committed <==> Speaks(a, stream)) && (o.committed <==> shown != [])
    && (o.committed ==> ShownBy(a, shown, stream, writes, render))
    && (o.err == NoProxyError <==> Succeeds(a, stream, writes))
    && (o.clientCancelled <==> FoundGone(a, stream, writes))
    && (o.partial <==> Relays(a) && !Succeeds(a, stream, writes) && Sent(shown) != [])
    && o.written == (if Relays(a) then |Sent(shown)| else 0)
    && (o.err == BadRequestError <==> a.InvalidRequest?) && (o.err == UpstreamRejected <==> Refuses(a))
    && (o.err == Cancelled <==> FoundGone(a, stream, writes)) && o.err != Unavailable
    && (o.err == NoProxyError ==>
          (WholeBody(a, shown) <==> stream || !ShortButSilent(Wire([], writes), a.response)))
  }

  /** The outcome of the forwarding loop: that of the final attempt f, or that no node is available. */
  ghost predicate ForwardResult(writes: seq<WriteResult>, attempts: seq<Attempt>, stream: bool, render: int -> Bytes,
                                f: nat, shown: seq<Event>, o: ProxyOutcome)
    requires f <= |attempts|
  {
    if f == |attempts|
    then shown == [] && o == ProxyOutcome(|attempts| > 1, 0, 0, false, false, false, Unavailable)
    else AttemptResult(writes, attempts[f], f, stream, render, shown, o)
  }

  /** A normalized error is its status line and what the client takes of its text. */
  lemma SendErrorAdds(w: Wire, code: int, render: int -> Bytes) returns (shown: seq<Event>)
    ensures Adds(w, SendError(w, code, render), shown) && SingleResponse(shown)
    ensures shown != [] && shown[0] == StatusLine(code) && Sent(shown) == Taken([render(code)], w.writes)
  {
    var text := render(code);
    var e := Chunk(SendStatus(w, code), text);
    shown := [StatusLine(code), e];
    SentOne(e);
    SentOne(StatusLine(code));
    SentConcat([StatusLine(code)], [e]);
    FirstTaken(text, [], w.writes, true);
    assert shown == [StatusLine(code)] + [e] && [text] + [] == [text];
    assert text + [] == text && text[..|text|] == text;
  }

  /** How the loop reports a copy that is final. */
  ghost predicate CopyReported(o: ProxyOutcome, c: CopyOutcome, i: nat, cancelled: bool) {
    && o.fallbackUsed == (i > 0) && o.retryCount == i && o.written == c.written && o.committed == c.committed
    && (o.err == NoProxyError <==> c.err == Delivered) && (o.err == Cancelled <==> c.err != Delivered && cancelled)
    && (o.err == CopyFailed <==> c.err != Delivered && !cancelled)
    && o.partial == (c.err != Delivered && c.written > 0) && o.clientCancelled == (c.err != Delivered && cancelled)
  }

  lemma RelayIsReported(w: Wire, nodes: seq<string>, attempts: seq<Attempt>, stream: bool, render: int -> Bytes,
                        i: nat, c: CopyOutcome)
    requires |attempts| == |nodes| && i < |nodes| && !Retryable(attempts[i], stream) && Relays(attempts[i])
    requires c == Copy(w.(log := w.log + [Contacted(nodes[i])]), attempts[i].response, stream).1
    requires c.committed <==> !Quiet(attempts[i].response, stream)
    ensures var (r, o) := Forward(w, nodes, attempts, stream, render, i);
      && r == Copy(w.(log := w.log + [Contacted(nodes[i])]), attempts[i].response, stream).0
      && CopyReported(o, c, i, attempts[i].cancelled)
  {
  }

  lemma ReportMeans(writes: seq<WriteResult>, a: Attempt, i: nat, stream: bool, render: int -> Bytes,
                    shown: seq<Event>, c: CopyOutcome, o: ProxyOutcome)
    requires Relays(a) && CopyReported(o, c, i, a.cancelled)
    requires ShowsOneResponse(shown, a.response, stream, writes, c) && (c.committed <==> !Quiet(a.response, stream))
    requires c.err == Delivered <==> Succeeds(a, stream, writes)
    requires c.err == Delivered ==>
      (WholeBody(a, shown) <==> stream || !ShortButSilent(Wire([], writes), a.response))
    ensures AttemptResult(writes, a, i, stream, render, shown, o)
  {
  }

  lemma FinalRelay(w: Wire, nodes: seq<string>, attempts: seq<Attempt>, stream: bool, render: int -> Bytes, i: nat)
    returns (shown: seq<Event>)
    requires |attempts| == |nodes| && i < |nodes| && !Retryable(attempts[i], stream) && Relays(attempts[i])
    ensures var (r, o) := Forward(w, nodes, attempts, stream, render, i);
      && r.log == w.log + [Contacted(nodes[i])] + shown && (!o.committed ==> r.writes == w.writes)
      && AttemptResult(w.writes, attempts[i], i, stream, render, shown, o)
  {
    var contacted, a := w.(log := w.log + [Contacted(nodes[i])]), attempts[i];
    var c := Copy(contacted, a.response, stream).1;
    shown := CopySends(contacted, a.response, stream);
    RelayIsReported(w, nodes, attempts, stream, render, i, c);
    ReportMeans(w.writes, a, i, stream, render, shown, c, Forward(w, nodes, attempts, stream, render, i).1);
  }

  lemma FinalOther(w: Wire, nodes: seq<string>, attempts: seq<Attempt>, stream: bool, render: int -> Bytes, i: nat)
    returns (shown: seq<Event>)
    requires |attempts| == |nodes| && i < |nodes| && !Retryable(attempts[i], stream) && !Relays(attempts[i])
    ensures var (r, o) := Forward(w, nodes, attempts, stream, render, i);
      && r.log == w.log + (if ReachesNode(attempts[i]) then [Contacted(nodes[i])] else []) + shown
      && (!o.committed ==> r.writes == w.writes)
      && AttemptResult(w.writes, attempts[i], i, stream, render, shown, o)
  {
    shown := [];
    assert Sent([]) == [];
    if attempts[i].Responded? {
      shown := SendErrorAdds(w.(log := w.log + [Contacted(nodes[i])]), attempts[i].response.status, render);
    }
  }

  lemma FinalAttempt(w: Wire, nodes: seq<string>, attempts: seq<Attempt>, stream: bool, render: int -> Bytes, i: nat)
    returns (shown: seq<Event>)
    requires |attempts| == |nodes| && i < |nodes| && !Retryable(attempts[i], stream)
    ensures var (r, o) := Forward(w, nodes, attempts, stream, render, i);
      && r.log == w.log + Contacts(nodes, attempts, i, i + 1) + shown && (!o.committed ==> r.writes == w.writes)
      && ForwardResult(w.writes, attempts, stream, render, i, shown, o)
  {
    assert Contacts(nodes, attempts, i + 1, i + 1) == [];
    if Relays(attempts[i]) {
      shown := FinalRelay(w, nodes, attempts, stream, render, i);
    } else {
      shown := FinalOther(w, nodes, attempts, stream, render, i);
    }
  }

  lemma RetriedAttempt(w: Wire, nodes: seq<string>, attempts: seq<Attempt>, stream: bool, render: int -> Bytes, i: nat)
    requires |attempts| == |nodes| && i < |nodes| && Retryable(attempts[i], stream)
    ensures var w' := w.(log := w.log + Contacts(nodes, attempts, i, i + 1));
      Forward(w, nodes, attempts, stream, render, i) == Forward(w', nodes, attempts, stream, render, i + 1)
  {
    var w' := w.(log := w.log + Contacts(nodes, attempts, i, i + 1));
    assert Contacts(nodes, attempts, i + 1, i + 1) == [];
    if !ReachesNode(attempts[i]) {
      assert w' == w;
    } else {
      assert w' == w.(log := w.log + [Contacted(nodes[i])]);
      if attempts[i].Responded? && attempts[i].response.status < 400 {
        var _ := CopySends(w', attempts[i].response, stream);
      }
    }
  }

  lemma {:induction false} ContactsSplit(nodes: seq<string>, attempts: seq<Attempt>, i: nat, j: nat)
    requires |attempts| == |nodes| && i < j <= |nodes|
    ensures Contacts(nodes, attempts, i, j) == Contacts(nodes, attempts, i, i + 1) + Contacts(nodes, attempts, i + 1, j)
  {
    assert Contacts(nodes, attempts, i + 1, i + 1) == [];
  }

  lemma {:induction false} ForwardShows(w: Wire, nodes: seq<string>, attempts: seq<Attempt>, stream: bool,
                                        render: int -> Bytes, i: nat) returns (shown: seq<Event>)
    requires |attempts| == |nodes| && i <= |nodes|
    ensures var (r, o) := Forward(w, nodes, attempts, stream, render, i);
      && r.log == w.log + Contacts(nodes, attempts, i, Stop(attempts, stream, i)) + shown
      && (!o.committed ==> r.writes == w.writes)
      && ForwardResult(w.writes, attempts, stream, render, FirstFinal(attempts, stream, i), shown, o)
    decreases |nodes| - i
  {
    if i == |nodes| {
      shown := [];
      assert Sent([]) == [];
    } else if Retryable(attempts[i], stream) {
      var here := Contacts(nodes, attempts, i, i + 1);
      var w' := w.(log := w.log + here);
      RetriedAttempt(w, nodes, attempts, stream, render, i);
      shown := ForwardShows(w', nodes, attempts, stream, render, i + 1);
      var j := Stop(attempts, stream, i);
      ContactsSplit(nodes, attempts, i, j);
      Regroup(w.log, here, Contacts(nodes, attempts, i + 1, j));
    } else {
      shown := FinalAttempt(w, nodes, attempts, stream, render, i);
    }
  }

  // ---------------------------------------------------------------- the main theorem

  /** What the client was shown and the caller is told, f being the first final attempt. If it has something to say,
      the response comes from it alone; otherwise it is the gateway error, or nothing if the client was found to be
      gone. Success is reported exactly if the final attempt brings a complete body and the client takes it; its body
      then arrived whole, with the one exception of CopySends. */
  ghost predicate Served(writes: seq<WriteResult>, attempts: seq<Attempt>, stream: bool, render: int -> Bytes,
                         f: nat, shown: seq<Event>, o: ProxyOutcome)
    requires f <= |attempts|
  {
    && (o.committed <==> f < |attempts| && Speaks(attempts[f], stream))
    && (o.clientCancelled <==> f < |attempts| && FoundGone(attempts[f], stream, writes))
    && (if o.committed then ShownBy(attempts[f], shown, stream, writes, render)
        else if o.clientCancelled then shown == []
        else SingleResponse(shown) && shown != [] && shown[0] == StatusLine(502)
             && Sent(shown) == Taken([render(502)], writes))
    && (o.err == NoProxyError <==> f < |attempts| && Succeeds(attempts[f], stream, writes))
    && (o.err == NoProxyError ==>
          o.written == |Sent(shown)|
          && (WholeBody(attempts[f], shown) <==> stream || !ShortButSilent(Wire([], writes), attempts[f].response)))
    && (o.partial <==> f < |attempts| && Relays(attempts[f]) && o.err != NoProxyError && o.written > 0)
  }

  lemma ServedAsForwarded(writes: seq<WriteResult>, attempts: seq<Attempt>, stream: bool, render: int -> Bytes,
                          f: nat, shown: seq<Event>, o: ProxyOutcome)
    requires f <= |attempts| && ForwardResult(writes, attempts, stream, render, f, shown, o)
    requires o.err == NoProxyError || o.clientCancelled || o.committed
    ensures Served(writes, attempts, stream, render, f, shown, o)
  {
  }

  lemma ServedByGateway(writes: seq<WriteResult>, attempts: seq<Attempt>, stream: bool, render: int -> Bytes,
                        f: nat, nothing: seq<Event>, shown: seq<Event>, o: ProxyOutcome)
    requires f <= |attempts| && ForwardResult(writes, attempts, stream, render, f, nothing, o) && nothing == []
    requires o.err != NoProxyError && !o.clientCancelled && !o.committed
    requires SingleResponse(shown) && shown != [] && shown[0] == StatusLine(502)
    requires Sent(shown) == Taken([render(502)], writes)
    ensures Served(writes, attempts, stream, render, f, shown, o)
  {
    assert Sent([]) == [];
  }

  /** For every script of upstreams and client writes: the log is the contacts of the attempts up to the first
      final one, then at most one response, and both the response and the report are what that attempt makes them. */
  lemma SingleOrigin(writes: seq<WriteResult>, nodes: seq<string>, attempts: seq<Attempt>, stream: bool,
                     render: int -> Bytes) returns (shown: seq<Event>)
    requires |attempts| == |nodes|
    ensures var (r, o) := Serve(Wire([], writes), nodes, attempts, stream, render);
      && r.log == Contacts(nodes, attempts, 0, Stop(attempts, stream, 0)) + shown && SingleResponse(shown)
      && Served(writes, attempts, stream, render, FirstFinal(attempts, stream, 0), shown, o)
  {
    var w, f := Wire([], writes), FirstFinal(attempts, stream, 0);
    shown := ForwardShows(w, nodes, attempts, stream, render, 0);
    var (w', o) := Forward(w, nodes, attempts, stream, render, 0);
    var contacts := Contacts(nodes, attempts, 0, Stop(attempts, stream, 0));
    assert [] + contacts == contacts;
    if o.err != NoProxyError && !o.clientCancelled && !o.committed {
      var nothing := shown;
      assert contacts + [] == contacts;
      shown := SendErrorAdds(w', 502, render);
      ServedByGateway(writes, attempts, stream, render, f, nothing, shown, o);
    } else {
      ServedAsForwarded(writes, attempts, stream, render, f, shown, o);
    }
  }

  /** A writer as the Go interface asks for: a write that takes less than the body it is given reports an error. */
  ghost predicate ShortWritesFail(writes: seq<WriteResult>, attempts: seq<Attempt>) {
    forall x, a :: x in writes && a in attempts && a.Responded? && x.accepts < |BodyOf(a.response.chunks)| ==> x.fails
  }

  lemma NeverSilent(writes: seq<WriteResult>, attempts: seq<Attempt>, f: nat)
    requires ShortWritesFail(writes, attempts) && f < |attempts| && attempts[f].Responded?
    ensures !ShortButSilent(Wire([], writes), attempts[f].response)
  {
    if writes != [] { assert writes[0] in writes && attempts[f] in attempts; }
  }

  /** With such a writer success always means the whole body, streamed or not. */
  lemma SuccessIsWhole(writes: seq<WriteResult>, nodes: seq<string>, attempts: seq<Attempt>, stream: bool,
                       render: int -> Bytes) returns (shown: seq<Event>)
    requires |attempts| == |nodes| && ShortWritesFail(writes, attempts)
    ensures var (r, o) := Serve(Wire([], writes), nodes, attempts, stream, render);
      var f := FirstFinal(attempts, stream, 0);
      && r.log == Contacts(nodes, attempts, 0, Stop(attempts, stream, 0)) + shown
      && (o.err == NoProxyError ==>
            f < |attempts| && ShownBy(attempts[f], shown, stream, writes, render) && WholeBody(attempts[f], shown))
  {
    shown := SingleOrigin(writes, nodes, attempts, stream, render);
    var f := FirstFinal(attempts, stream, 0);
    if f < |attempts| && attempts[f].Responded? { NeverSilent(writes, attempts, f); }
  }

  lemma {:induction false} ContactsAmong(nodes: seq<string>, attempts: seq<Attempt>, i: nat, j: nat)
    requires |attempts| == |nodes| && i <= j <= |nodes|
    ensures forall e :: e in Contacts(nodes, attempts, i, j) ==> e.Contacted? && e.node in nodes
    decreases j - i
  {
    if i < j { ContactsAmong(nodes, attempts, i + 1, j); }
  }

  /** Nobody else is contacted: every contact on the wire is one of the nodes handed in. */
  lemma OnlyGivenNodes(writes: seq<WriteResult>, nodes: seq<string>, attempts: seq<Attempt>, stream: bool,
                       render: int -> Bytes)
    requires |attempts| == |nodes|
    ensures forall e :: e in Serve(Wire([], writes), nodes, attempts, stream, render).0.log && e.Contacted? ==>
      e.node in nodes
  {
    var shown := SingleOrigin(writes, nodes, attempts, stream, render);
    ContactsAmong(nodes, attempts, 0, Stop(attempts, stream, 0));
    forall e | e in shown ensures !e.Contacted? {
      var k :| 0 <= k < |shown| && shown[k] == e;
      if k > 0 { assert shown[1..][k - 1] == e; }
    }
  }

  /** The exception is real: a client connection that takes one byte of two and reports no error, which the Go
      interface forbids its writers, makes the proxy report success for half a body. */
  lemma SilentShortWriteIsSuccess()
    ensures var response := Response(200, [ReadResult([1, 2], Eof)]);
      var (r, o) := Serve(Wire([], [WriteResult(1, false)]), ["n"], [Responded(response, false)], false, code => []);
      o.err == NoProxyError && r.log == [Contacted("n"), StatusLine(200), Body([1])]
  {
    var response := Response(200, [ReadResult([1, 2], Eof)]);
    assert BodyOf(response.chunks) == [1, 2];
    var w := Wire([Contacted("n")], [WriteResult(1, false)]);
    assert BodyOf(response.chunks)[..1] == [1];
    assert PlainCopy(w, response).0.log == [Contacted("n"), StatusLine(200), Body([1])];
  }
}
