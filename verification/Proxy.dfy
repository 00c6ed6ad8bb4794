// The proxy's loops as they run: a client connection and upstream bodies that change with every
// call, early returns, and byte counters; proved against ProxySpec.
module Proxy {
  import opened ProxySpec

  /** The client connection, with the log of everything that happened on the wire. */
  class Connection {
    var log: seq<Event>
    var writes: seq<WriteResult>

    constructor (writes: seq<WriteResult>)
      ensures Wire() == ProxySpec.Wire([], writes)
    {
      this.log, this.writes := [], writes;
    }

    ghost function Wire(): ProxySpec.Wire
      reads this
    {
      ProxySpec.Wire(log, writes)
    }

    method Contact(node: string)
      modifies this
      ensures Wire() == old(Wire()).(log := old(log) + [Contacted(node)])
    {
      log := log + [Contacted(node)];
    }

    method WriteHeader(code: int)
      modifies this
      ensures Wire() == SendStatus(old(Wire()), code)
    {
      log := log + [StatusLine(code)];
    }

    method Write(data: Bytes) returns (n: nat, failed: bool)
      modifies this
      ensures Wire() == SendBody(old(Wire()), data)
      ensures n == Accepted(old(Wire()), data) && failed == NextWrite(old(Wire()), data).fails
    {
      var result := if |writes| == 0 then WriteResult(|data|, false) else writes[0];
      n := if result.accepts < |data| then result.accepts else |data|;
      failed := result.fails;
      log := log + [Body(data[..n])];
      if |writes| > 0 {
        writes := writes[1..];
      }
    }

    method WriteError(code: int, render: int -> Bytes)
      modifies this
      ensures Wire() == SendError(old(Wire()), code, render)
    {
      WriteHeader(code);
      var _, _ := Write(render(code));
    }
  }

  /** An upstream response body, consumed by reading. */
  class UpstreamBody {
    var chunks: seq<ReadResult>

    constructor (chunks: seq<ReadResult>)
      ensures this.chunks == chunks
    {
      this.chunks := chunks;
    }

    method Read() returns (data: Bytes, err: ReadError)
      modifies this
      ensures ReadResult(data, err) == NextRead(old(chunks))
      ensures chunks == if old(chunks) == [] then [] else old(chunks)[1..]
    {
      if |chunks| == 0 {
        return [], Eof;
      }
      data, err := chunks[0].data, chunks[0].err;
      chunks := chunks[1..];
    }

    method ReadAll() returns (data: Bytes, ok: bool)
      modifies this
      ensures data == BodyOf(old(chunks)) && ok == Complete(old(chunks))
    {
      data := [];
      ghost var total := BodyOf(chunks);
      var more := true;
      ok := false;
      while more
        invariant more ==> data + BodyOf(chunks) == total && Complete(chunks) == Complete(old(chunks))
        invariant !more ==> data == total && ok == Complete(old(chunks))
        decreases more, |chunks|
      {
        ghost var before := chunks;
        var part, err := Read();
        assert before != [] ==> BodyOf(before) == part + (if err == NoError then BodyOf(chunks) else []);
        data := data + part;
        if err != NoError {
          more := false;
          ok := err == Eof;
        }
      }
    }
  }

  method CopyUpstreamResponse(client: Connection, status: int, body: UpstreamBody, stream: bool)
    returns (o: CopyOutcome)
    modifies client, body
    ensures (client.Wire(), o) == Copy(old(client.Wire()), Response(status, old(body.chunks)), stream)
  {
    if !stream {
      var data, ok := body.ReadAll();
      if !ok {
        return CopyOutcome(0, false, ReadFailed);
      }
      client.WriteHeader(status);
      var n, failed := client.Write(data);
      return CopyOutcome(n, true, if failed then WriteFailed else Delivered);
    }

    var data, err := body.Read();
    if |data| == 0 && err != NoError {
      if err == Eof {
        client.WriteHeader(status);
        return CopyOutcome(0, true, Delivered);
      }
      return CopyOutcome(0, false, ReadFailed);
    }

    client.WriteHeader(status);
    var n, failed := client.Write(data);
    var bytesWritten := n;
    if failed {
      return CopyOutcome(bytesWritten, true, WriteFailed);
    }
    if n != |data| {
      return CopyOutcome(bytesWritten, true, ShortWrite);
    }
    if err == Eof {
      return CopyOutcome(bytesWritten, true, Delivered);
    }
    if err != NoError {
      return CopyOutcome(bytesWritten, true, ReadFailed);
    }

    ghost var goal := StreamRest(client.Wire(), body.chunks, bytesWritten);
    while true
      invariant StreamRest(client.Wire(), body.chunks, bytesWritten) == goal
      decreases |body.chunks|
    {
      data, err := body.Read();
      if |data| > 0 {
        n, failed := client.Write(data);
        bytesWritten := bytesWritten + n;
        if failed {
          return CopyOutcome(bytesWritten, true, WriteFailed);
        }
        if n != |data| {
          return CopyOutcome(bytesWritten, true, ShortWrite);
        }
      }
      if err == Eof {
        return CopyOutcome(bytesWritten, true, Delivered);
      }
      if err != NoError {
        return CopyOutcome(bytesWritten, true, ReadFailed);
      }
    }
  }

  method ForwardWithFallback(client: Connection, nodes: seq<string>, attempts: seq<Attempt>, stream: bool,
                             render: int -> Bytes) returns (o: ProxyOutcome)
    requires |attempts| == |nodes|
    modifies client
    ensures (client.Wire(), o) == Forward(old(client.Wire()), nodes, attempts, stream, render, 0)
  {
    for i := 0 to |nodes|
      invariant Forward(client.Wire(), nodes, attempts, stream, render, i)
             == Forward(old(client.Wire()), nodes, attempts, stream, render, 0)
    {
      if attempts[i].NoProxyURL? {
        continue;
      }
      if attempts[i].InvalidRequest? {
        return ProxyOutcome(i > 0, 0, 0, false, false, false, BadRequestError);
      }
      client.Contact(nodes[i]);
      if attempts[i].TransportError? {
        if attempts[i].cancelled {
          return ProxyOutcome(i > 0, 0, 0, false, false, true, Cancelled);
        }
        continue;
      }
      var response := attempts[i].response;
      if response.status >= 400 && response.status < 500 {
        client.WriteError(response.status, render);
        return ProxyOutcome(i > 0, i, 0, true, false, false, UpstreamRejected);
      }
      if response.status < 400 {
        var body := new UpstreamBody(response.chunks);
        var c := CopyUpstreamResponse(client, response.status, body, stream);
        if c.err == Delivered {
          return ProxyOutcome(i > 0, i, c.written, c.committed, false, false, NoProxyError);
        }
        if attempts[i].cancelled {
          return ProxyOutcome(i > 0, i, c.written, c.committed, c.written > 0, true, Cancelled);
        }
        if c.written > 0 || c.committed {
          return ProxyOutcome(i > 0, i, c.written, c.committed, c.written > 0, false, CopyFailed);
        }
        continue;
      }
    }
    return ProxyOutcome(|nodes| > 1, 0, 0, false, false, false, Unavailable);
  }

  method ServeSingleRoute(client: Connection, nodes: seq<string>, attempts: seq<Attempt>, stream: bool,
                          render: int -> Bytes) returns (o: ProxyOutcome)
    requires |attempts| == |nodes|
    modifies client
    ensures (client.Wire(), o) == Serve(old(client.Wire()), nodes, attempts, stream, render)
  {
    o := ForwardWithFallback(client, nodes, attempts, stream, render);
    if o.err != NoProxyError {
      if o.clientCancelled || o.committed {
        return;
      }
      client.WriteError(BadGateway, render);
    }
  }
}
