// What the single-route proxy of internal/httpapi/server.go may show to a client.
//
// Everything outside the program is a script: what each upstream attempt does, read by read, and
// what each write to the client does. The wire log records, in order, every upstream contacted
// and everything sent to the client.
module ProxySpec {

  type Bytes = seq<bv8>

  datatype ReadError = NoError | Eof | Broken

  /** One call to Read on an upstream body; Go readers may return data and an error together. */
  datatype ReadResult = ReadResult(data: Bytes, err: ReadError)

  datatype Response = Response(status: int, chunks: seq<ReadResult>)

  /** What happens when one node is tried. `cancelled` says whether the client's context had ended
      when the proxy looked at it, which it does only after a failure. */
  datatype Attempt =
    | NoProxyURL
    | InvalidRequest
    | TransportError(cancelled: bool)
    | Responded(response: Response, cancelled: bool)

  /** One write to the client: how many bytes it would accept, and whether it reports an error. */
  datatype WriteResult = WriteResult(accepts: nat, fails: bool)

  datatype Event = Contacted(node: string) | StatusLine(code: int) | Body(data: Bytes)

  datatype Wire = Wire(log: seq<Event>, writes: seq<WriteResult>)

  datatype CopyError = Delivered | ReadFailed | WriteFailed | ShortWrite

  datatype CopyOutcome = CopyOutcome(written: nat, committed: bool, err: CopyError)

  datatype ProxyError = NoProxyError | BadRequestError | Unavailable | UpstreamRejected | Cancelled | CopyFailed

  datatype ProxyOutcome = ProxyOutcome(
    fallbackUsed: bool, retryCount: nat, written: nat, committed: bool, partial: bool,
    clientCancelled: bool, err: ProxyError)

  // ---------------------------------------------------------------- the client connection

  function SendStatus(w: Wire, code: int): Wire { w.(log := w.log + [StatusLine(code)]) }

  function NextWrite(w: Wire, data: Bytes): WriteResult {
    if w.writes == [] then WriteResult(|data|, false) else w.writes[0]
  }

  /** How many bytes of data the client accepts now. */
  function Accepted(w: Wire, data: Bytes): (n: nat)
    ensures n <= |data|
  {
    var a := NextWrite(w, data).accepts;
    if a < |data| then a else |data|
  }

  function SendBody(w: Wire, data: Bytes): Wire {
    Wire(w.log + [Body(data[..Accepted(w, data)])], if w.writes == [] then [] else w.writes[1..])
  }

  // ---------------------------------------------------------------- copying one response

  function NextRead(chunks: seq<ReadResult>): ReadResult {
    if chunks == [] then ReadResult([], Eof) else chunks[0]
  }

  /** The bytes an upstream sends before its first error, and whether that error is a clean end. */
  function BodyOf(chunks: seq<ReadResult>): Bytes {
    if chunks == [] then []
    else chunks[0].data + (if chunks[0].err == NoError then BodyOf(chunks[1..]) else [])
  }

  predicate Complete(chunks: seq<ReadResult>) {
    chunks == [] || chunks[0].err == Eof || (chunks[0].err == NoError && Complete(chunks[1..]))
  }

  function AfterWrite(w: Wire, data: Bytes): CopyError {
    if NextWrite(w, data).fails then WriteFailed
    else if Accepted(w, data) != |data| then ShortWrite
    else Delivered
  }

  /** Write what the last read returned, then go on reading unless something went wrong. */
  function StreamChunk(w: Wire, chunks: seq<ReadResult>, written: nat): (Wire, CopyOutcome)
    requires chunks != []
    decreases |chunks|, 0
  {
    var r := chunks[0];
    var w', total, sent := SendBody(w, r.data), written + Accepted(w, r.data), AfterWrite(w, r.data);
    if sent != Delivered then (w', CopyOutcome(total, true, sent))
    else if r.err == Eof then (w', CopyOutcome(total, true, Delivered))
    else if r.err == Broken then (w', CopyOutcome(total, true, ReadFailed))
    else StreamRest(w', chunks[1..], total)
  }

  /** The streaming loop after the first chunk: an empty read writes nothing. */
  function StreamRest(w: Wire, chunks: seq<ReadResult>, written: nat): (Wire, CopyOutcome)
    decreases |chunks|, 1
  {
    var r := NextRead(chunks);
    if r.data != [] then StreamChunk(w, chunks, written)
    else if r.err == Eof then (w, CopyOutcome(written, true, Delivered))
    else if r.err == Broken then (w, CopyOutcome(written, true, ReadFailed))
    else StreamRest(w, chunks[1..], written)
  }

  function StreamCopy(w: Wire, response: Response): (Wire, CopyOutcome) {
    var r := NextRead(response.chunks);
    if r.data == [] && r.err == Eof then (SendStatus(w, response.status), CopyOutcome(0, true, Delivered))
    else if r.data == [] && r.err == Broken then (w, CopyOutcome(0, false, ReadFailed))
    else StreamChunk(SendStatus(w, response.status), response.chunks, 0)
  }

  /** Without streaming, the whole body is read first, then written with one call. */
  function PlainCopy(w: Wire, response: Response): (Wire, CopyOutcome) {
    if !Complete(response.chunks) then (w, CopyOutcome(0, false, ReadFailed))
    else
      var body := BodyOf(response.chunks);
      var w1 := SendStatus(w, response.status);
      (SendBody(w1, body),
       CopyOutcome(Accepted(w1, body), true, if NextWrite(w1, body).fails then WriteFailed else Delivered))
  }

  function Copy(w: Wire, response: Response, stream: bool): (Wire, CopyOutcome) {
    if stream then StreamCopy(w, response) else PlainCopy(w, response)
  }

  // ---------------------------------------------------------------- trying the nodes

  /** A normalized error: its status line, then one write whose result is ignored. */
  function SendError(w: Wire, code: int, render: int -> Bytes): Wire {
    SendBody(SendStatus(w, code), render(code))
  }

  function Forward(w: Wire, nodes: seq<string>, attempts: seq<Attempt>, stream: bool, render: int -> Bytes, i: nat)
    : (Wire, ProxyOutcome)
    requires |attempts| == |nodes| && i <= |nodes|
    decreases |nodes| - i
  {
    if i == |nodes| then (w, ProxyOutcome(|nodes| > 1, 0, 0, false, false, false, Unavailable))
    else
      var contacted := w.(log := w.log + [Contacted(nodes[i])]);
      match attempts[i]
      case NoProxyURL => Forward(w, nodes, attempts, stream, render, i + 1)
      case InvalidRequest => (w, ProxyOutcome(i > 0, 0, 0, false, false, false, BadRequestError))
      case TransportError(cancelled) =>
        if cancelled then (contacted, ProxyOutcome(i > 0, 0, 0, false, false, true, Cancelled))
        else Forward(contacted, nodes, attempts, stream, render, i + 1)
      case Responded(response, cancelled) =>
        if 400 <= response.status < 500 then
          (SendError(contacted, response.status, render),
           ProxyOutcome(i > 0, i, 0, true, false, false, UpstreamRejected))
        else if response.status < 400 then
          var (w', c) := Copy(contacted, response, stream);
          if c.err == Delivered then (w', ProxyOutcome(i > 0, i, c.written, c.committed, false, false, NoProxyError))
          else if cancelled then
            (w', ProxyOutcome(i > 0, i, c.written, c.committed, c.written > 0, true, Cancelled))
          else if c.written > 0 || c.committed then
            (w', ProxyOutcome(i > 0, i, c.written, c.committed, c.written > 0, false, CopyFailed))
          else Forward(w', nodes, attempts, stream, render, i + 1)
        else Forward(contacted, nodes, attempts, stream, render, i + 1)
  }

  const BadGateway := 502

  /** The single-route tail of the handler: an uncommitted failure becomes a gateway error. */
  function Serve(w: Wire, nodes: seq<string>, attempts: seq<Attempt>, stream: bool, render: int -> Bytes)
    : (Wire, ProxyOutcome)
    requires |attempts| == |nodes|
  {
    var (w', o) := Forward(w, nodes, attempts, stream, render, 0);
    if o.err != NoProxyError && !o.clientCancelled && !o.committed
    then (SendError(w', BadGateway, render), o)
    else (w', o)
  }

  // ---------------------------------------------------------------- reading a log

  predicate OnlyContacts(log: seq<Event>) { forall i :: 0 <= i < |log| ==> log[i].Contacted? }

  predicate OnlyBody(log: seq<Event>) { forall i :: 0 <= i < |log| ==> log[i].Body? }

  function Payload(e: Event): Bytes { if e.Body? then e.data else [] }

  /** Everything of the body that reached the client, in order. */
  function Sent(log: seq<Event>): Bytes {
    if log == [] then [] else Payload(log[0]) + Sent(log[1..])
  }

  /** The response part of a log: nothing, or one status line followed by body bytes only. */
  predicate SingleResponse(log: seq<Event>) {
    log == [] || (log[0].StatusLine? && OnlyBody(log[1..]))
  }

  lemma {:induction false} SentConcat(a: seq<Event>, b: seq<Event>)
    ensures Sent(a + b) == Sent(a) + Sent(b)
  {
    if a == [] {
      assert a + b == b;
    } else {
      assert (a + b)[0] == a[0] && (a + b)[1..] == a[1..] + b;
      SentConcat(a[1..], b);
      assert Payload(a[0]) + (Sent(a[1..]) + Sent(b)) == Payload(a[0]) + Sent(a[1..]) + Sent(b);
    }
  }

  lemma SentOne(e: Event)
    ensures Sent([e]) == Payload(e)
  {
    assert [e][1..] == [];
    assert Sent([]) == [];
  }
}
