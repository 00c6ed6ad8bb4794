// mDNS packets of internal/httpapi/peer_discovery.go: the query the discovery sends and the parser
// for what comes back (section 4.1 of RFC 1035). `steps` is the budget of one name, MAX_STEPS in
// the program; `norm` is the program's normalization of names used as keys.
module MdnsPackets {
  import opened Common
  import opened DnsNames

  datatype Records = Records(
    ptr: map<Bytes, seq<Bytes>>, srv: map<Bytes, (Bytes, int)>, addr: map<Bytes, seq<Bytes>>)

  function NoRecords(): Records { Records(map[], map[], map[]) }
  const TYPE_A := 1
  const TYPE_PTR := 12
  const TYPE_TXT := 16
  const TYPE_AAAA := 28
  const TYPE_SRV := 33
  const HEADER := 12

  // ---------------------------------------------------------------- sixteen-bit numbers

  /** Big-endian, wrapped to sixteen bits as the program's conversion does. */
  function Put16(n: nat): (r: Bytes)
    ensures |r| == 2
  {
    [n / 256 % 256, n % 256]
  }

  function Get16(packet: Bytes, offset: nat): nat
    requires offset + 2 <= |packet|
  {
    var high: int := packet[offset];
    high * 256 + packet[offset + 1]
  }

  lemma Get16Put16(packet: Bytes, offset: nat, n: nat)
    requires Holds(packet, offset, Put16(n)) && n < 65536
    ensures Get16(packet, offset) == n
  {
    HoldsAt(packet, offset, Put16(n), 0);
    HoldsAt(packet, offset, Put16(n), 1);
  }

  // ---------------------------------------------------------------- the query

  function Question(name: Bytes): Bytes { Wire(Labels(name)) + (Put16(TYPE_PTR) + Put16(1)) }

  function Questions(services: seq<Bytes>): Bytes {
    if services == [] then [] else Question(services[0]) + Questions(services[1..])
  }

  function Header(questions: nat, answers: nat): (r: Bytes)
    ensures |r| == HEADER
  {
    [0, 0, 0, 0] + Put16(questions) + Put16(answers) + [0, 0, 0, 0]
  }

  method AppendQuestion(packet: Bytes, name: Bytes) returns (out: Bytes)
    ensures out == packet + Question(name)
  {
    out := AppendDNSName(packet, name);
    out := out + Put16(TYPE_PTR);
    out := out + Put16(1);
    assert packet + Wire(Labels(name)) + Put16(TYPE_PTR) + Put16(1) == packet + Question(name);
  }

  lemma QuestionsFrom(packet: Bytes, services: seq<Bytes>, i: nat)
    requires i < |services|
    ensures packet + Questions(services[i..]) == packet + Question(services[i]) + Questions(services[i + 1..])
  {
    assert services[i..][1..] == services[i + 1..];
  }

  method BuildMDNSQuery(services: seq<Bytes>) returns (packet: Bytes)
    ensures packet == Header(|services|, 0) + Questions(services)
  {
    packet := [0, 0, 0, 0] + Put16(|services|) + Put16(0) + [0, 0, 0, 0];
    for i := 0 to |services|
      invariant packet + Questions(services[i..]) == Header(|services|, 0) + Questions(services)
    {
      QuestionsFrom(packet, services, i);
      packet := AppendQuestion(packet, services[i]);
    }
    assert packet + [] == packet;
  }

  // ---------------------------------------------------------------- what the parser should find

  /** The offset after n questions. */
  function SkipQuestions(packet: Bytes, offset: nat, n: nat, steps: nat): Option<nat>
    decreases n
  {
    if n == 0 then Some(offset)
    else
      var name := ReadName(packet, offset, steps);
      if name.None? || name.value.1 + 4 > |packet| then None
      else SkipQuestions(packet, name.value.1 + 4, n - 1, steps)
  }

  function Append(m: map<Bytes, seq<Bytes>>, key: Bytes, value: Bytes): map<Bytes, seq<Bytes>> {
    m[key := (if key in m then m[key] else []) + [value]]
  }

  /** One record's data, by type; data of the wrong size and unknown types are ignored. */
  function AddRecord(packet: Bytes, rs: Records, key: Bytes, rrType: nat, rdata: nat, rdLen: nat,
                     norm: Bytes -> Bytes, steps: nat): Records
    requires rdata + rdLen <= |packet|
  {
    if (rrType == TYPE_A && rdLen == 4) || (rrType == TYPE_AAAA && rdLen == 16) then
      rs.(addr := Append(rs.addr, key, packet[rdata..rdata + rdLen]))
    else if rrType == TYPE_PTR then
      var target := ReadName(packet, rdata, steps);
      if target.None? then rs else rs.(ptr := Append(rs.ptr, key, norm(target.value.0)))
    else if rrType == TYPE_SRV && rdLen >= 6 then
      var target := ReadName(packet, rdata + 6, steps);
      if target.None? then rs else rs.(srv := rs.srv[key := (norm(target.value.0), Get16(packet, rdata + 4))])
    else rs
  }

  function ParseRecord(packet: Bytes, offset: nat, rs: Records, norm: Bytes -> Bytes, steps: nat)
    : Option<(Records, nat)>
  {
    var name := ReadName(packet, offset, steps);
    if name.None? || name.value.1 + 10 > |packet| then None
    else
      var next := name.value.1;
      var rdLen := Get16(packet, next + 8);
      if next + 10 + rdLen > |packet| then None
      else Some((AddRecord(packet, rs, norm(name.value.0), Get16(packet, next), next + 10, rdLen, norm, steps),
                 next + 10 + rdLen))
  }

  function ParseRecords(packet: Bytes, offset: nat, n: nat, rs: Records, norm: Bytes -> Bytes, steps: nat)
    : Option<(Records, nat)>
    decreases n
  {
    if n == 0 then Some((rs, offset))
    else
      var one := ParseRecord(packet, offset, rs, norm, steps);
      if one.None? then None else ParseRecords(packet, one.value.1, n - 1, one.value.0, norm, steps)
  }

  /** The records of a packet and how far the parser read, or None when the packet is malformed. */
  function Parse(packet: Bytes, norm: Bytes -> Bytes, steps: nat): Option<(Records, nat)> {
    if |packet| < HEADER then None
    else
      var records := Get16(packet, 6) + Get16(packet, 8) + Get16(packet, 10);
      var start := SkipQuestions(packet, HEADER, Get16(packet, 4), steps);
      if start.None? then None else ParseRecords(packet, start.value, records, NoRecords(), norm, steps)
  }

  // ---------------------------------------------------------------- the parser's loops

  /** Total on every packet: no read leaves the packet, whatever its bytes are. */
  method ParseMDNSRecords(packet: Bytes, norm: Bytes -> Bytes) returns (r: Option<(Records, nat)>)
    ensures r == Parse(packet, norm, MAX_STEPS)
  {
    r := ParseWithin(packet, norm, MAX_STEPS);
  }

  method ParseWithin(packet: Bytes, norm: Bytes -> Bytes, steps: nat) returns (r: Option<(Records, nat)>)
    ensures r == Parse(packet, norm, steps)
  {
    if |packet| < HEADER {
      return None;
    }
    var qd, an, ns, ar := Get16(packet, 4), Get16(packet, 6), Get16(packet, 8), Get16(packet, 10);
    var start := ReadQuestions(packet, HEADER, qd, steps);
    if start.None? {
      return None;
    }
    assert Parse(packet, norm, steps) == ParseRecords(packet, start.value, an + ns + ar, NoRecords(), norm, steps);
    r := ReadRecords(packet, start.value, an + ns + ar, norm, steps);
  }

  method ReadQuestions(packet: Bytes, start: nat, qd: nat, steps: nat) returns (end: Option<nat>)
    ensures end == SkipQuestions(packet, start, qd, steps)
  {
    var offset: nat := start;
    for i := 0 to qd
      invariant SkipQuestions(packet, offset, qd - i, steps) == SkipQuestions(packet, start, qd, steps)
    {
      var name := ReadWithin(packet, offset, steps);
      if name.None? {
        return None;
      }
      offset := name.value.1 + 4;
      if offset > |packet| {
        return None;
      }
    }
    return Some(offset);
  }

  method ReadRecords(packet: Bytes, start: nat, count: nat, norm: Bytes -> Bytes, steps: nat)
    returns (r: Option<(Records, nat)>)
    ensures r == ParseRecords(packet, start, count, NoRecords(), norm, steps)
  {
    var records, offset: nat := NoRecords(), start;
    for i := 0 to count
      invariant ParseRecords(packet, offset, count - i, records, norm, steps)
             == ParseRecords(packet, start, count, NoRecords(), norm, steps)
    {
      var one := ReadRecord(packet, offset, records, norm, steps);
      if one.None? {
        return None;
      }
      records, offset := one.value.0, one.value.1;
    }
    return Some((records, offset));
  }

  method ReadRecord(packet: Bytes, start: nat, rs: Records, norm: Bytes -> Bytes, steps: nat)
    returns (r: Option<(Records, nat)>)
    ensures r == ParseRecord(packet, start, rs, norm, steps)
  {
    var name := ReadWithin(packet, start, steps);
    if name.None? {
      return None;
    }
    var next := name.value.1;
    if next + 10 > |packet| {
      return None;
    }
    var rrType, rdLen := Get16(packet, next), Get16(packet, next + 8);
    var rdata := next + 10;
    var offset := rdata + rdLen;
    if offset > |packet| {
      return None;
    }
    var records := StoreRecord(packet, rs, norm(name.value.0), rrType, rdata, rdLen, norm, steps);
    return Some((records, offset));
  }

  method StoreRecord(packet: Bytes, rs: Records, key: Bytes, rrType: nat, rdata: nat, rdLen: nat,
                     norm: Bytes -> Bytes, steps: nat) returns (r: Records)
    requires rdata + rdLen <= |packet|
    ensures r == AddRecord(packet, rs, key, rrType, rdata, rdLen, norm, steps)
  {
    r := rs;
    if rrType == TYPE_A || rrType == TYPE_AAAA {
      if rdLen == (if rrType == TYPE_A then 4 else 16) {
        r := r.(addr := Append(r.addr, key, packet[rdata..rdata + rdLen]));
      }
    } else if rrType == TYPE_PTR {
      var target := ReadWithin(packet, rdata, steps);
      if target.Some? {
        r := r.(ptr := Append(r.ptr, key, norm(target.value.0)));
      }
    } else if rrType == TYPE_SRV {
      if rdLen >= 6 {
        var port := Get16(packet, rdata + 4);
        var target := ReadWithin(packet, rdata + 6, steps);
        if target.Some? {
          r := r.(srv := r.srv[key := (norm(target.value.0), port)]);
        }
      }
    }
  }

  // ---------------------------------------------------------------- the query round trip

  ghost predicate Readable(name: Bytes, steps: nat) { |Labels(name)| < steps }

  /** One question is read to its end exactly when its name fits the step budget. */
  lemma QuestionReads(packet: Bytes, offset: nat, name: Bytes, steps: nat)
    requires Holds(packet, offset, Question(name))
    ensures Readable(name, steps) ==>
      ReadName(packet, offset, steps).Some? && ReadName(packet, offset, steps).value.1 + 4 == offset + |Question(name)|
    ensures !Readable(name, steps) ==> ReadName(packet, offset, steps) == None
  {
    var wire := Wire(Labels(name));
    HoldsPart(packet, offset, Question(name), 0, |wire|);
    assert Question(name)[0..|wire|] == wire;
    WireReads(packet, offset, Labels(name), steps);
  }

  ghost predicate AllReadable(services: seq<Bytes>, steps: nat) {
    services == [] || (Readable(services[0], steps) && AllReadable(services[1..], steps))
  }

  lemma {:induction false} AllReadableMeans(services: seq<Bytes>, steps: nat)
    ensures AllReadable(services, steps) <==> forall i :: 0 <= i < |services| ==> |Labels(services[i])| < steps
  {
    if services != [] {
      AllReadableMeans(services[1..], steps);
      forall i | 0 < i < |services| ensures services[i] == services[1..][i - 1] {}
    }
  }

  /** The questions stand in the packet one after another. */
  ghost predicate LaidOut(packet: Bytes, offset: nat, services: seq<Bytes>)
    decreases |services|
  {
    services == [] || (
      Holds(packet, offset, Question(services[0])) && LaidOut(packet, offset + |Question(services[0])|, services[1..]))
  }

  function EndOf(offset: nat, services: seq<Bytes>): nat
    decreases |services|
  {
    if services == [] then offset else EndOf(offset + |Question(services[0])|, services[1..])
  }

  lemma {:induction false} QuestionsLaidOut(packet: Bytes, offset: nat, services: seq<Bytes>)
    requires Holds(packet, offset, Questions(services))
    ensures LaidOut(packet, offset, services) && EndOf(offset, services) == offset + |Questions(services)|
    decreases |services|
  {
    if services != [] {
      var first, rest := Question(services[0]), Questions(services[1..]);
      HoldsTwo(packet, offset, first, rest);
      QuestionsLaidOut(packet, offset + |first|, services[1..]);
    }
  }

  /** One question is skipped to its end, or refuses the packet. */
  lemma FirstQuestion(packet: Bytes, offset: nat, name: Bytes, n: nat, steps: nat) returns (next: nat)
    requires n > 0 && Holds(packet, offset, Question(name))
    ensures next == offset + |Question(name)|
    ensures SkipQuestions(packet, offset, n, steps)
         == if Readable(name, steps) then SkipQuestions(packet, next, n - 1, steps) else None
  {
    next := offset + |Question(name)|;
    QuestionReads(packet, offset, name, steps);
  }

  /** Questions are skipped to the end of the last one exactly when every name fits the step budget. */
  lemma {:induction false} QuestionsRead(packet: Bytes, offset: nat, services: seq<Bytes>, steps: nat)
    requires LaidOut(packet, offset, services)
    ensures SkipQuestions(packet, offset, |services|, steps)
         == if AllReadable(services, steps) then Some(EndOf(offset, services)) else None
    decreases |services|
  {
    if services != [] {
      var next := FirstQuestion(packet, offset, services[0], |services|, steps);
      QuestionsRead(packet, next, services[1..], steps);
    }
  }

  lemma HeaderReads(questions: nat, answers: nat, body: Bytes)
    requires questions < 65536 && answers < 65536
    ensures var packet := Header(questions, answers) + body;
      && Get16(packet, 4) == questions && Get16(packet, 6) == answers
      && Get16(packet, 8) == 0 && Get16(packet, 10) == 0
      && Holds(packet, HEADER, body)
  {
    var packet := Header(questions, answers) + body;
    HoldsBetween([0, 0, 0, 0], Put16(questions), Put16(answers) + [0, 0, 0, 0] + body);
    HoldsBetween([0, 0, 0, 0] + Put16(questions), Put16(answers), [0, 0, 0, 0] + body);
    assert packet == [0, 0, 0, 0] + Put16(questions) + (Put16(answers) + [0, 0, 0, 0] + body);
    assert packet == [0, 0, 0, 0] + Put16(questions) + Put16(answers) + ([0, 0, 0, 0] + body);
    Get16Put16(packet, 4, questions);
    Get16Put16(packet, 6, answers);
  }

  lemma ParsesOnlyQuestions(packet: Bytes, n: nat, norm: Bytes -> Bytes, steps: nat, end: Option<nat>)
    requires |packet| >= HEADER && Get16(packet, 4) == n
    requires Get16(packet, 6) == 0 && Get16(packet, 8) == 0 && Get16(packet, 10) == 0
    requires SkipQuestions(packet, HEADER, n, steps) == end
    ensures Parse(packet, norm, steps) == if end.None? then None else Some((NoRecords(), end.value))
  {
  }

  lemma QuestionsEnd(packet: Bytes, services: seq<Bytes>, steps: nat) returns (end: Option<nat>)
    requires Holds(packet, HEADER, Questions(services)) && |packet| == HEADER + |Questions(services)|
    ensures SkipQuestions(packet, HEADER, |services|, steps) == end
    ensures end == if AllReadable(services, steps) then Some(|packet|) else None
  {
    QuestionsLaidOut(packet, HEADER, services);
    QuestionsRead(packet, HEADER, services, steps);
    end := SkipQuestions(packet, HEADER, |services|, steps);
  }

  lemma QueryParses(services: seq<Bytes>, norm: Bytes -> Bytes, steps: nat) returns (packet: Bytes)
    requires |services| < 65536
    ensures packet == Header(|services|, 0) + Questions(services)
    ensures Parse(packet, norm, steps) == if AllReadable(services, steps) then Some((NoRecords(), |packet|)) else None
  {
    packet := Header(|services|, 0) + Questions(services);
    HeaderReads(|services|, 0, Questions(services));
    var end := QuestionsEnd(packet, services, steps);
    ParsesOnlyQuestions(packet, |services|, norm, steps, end);
  }

  ghost predicate AtMost31Labels(services: seq<Bytes>) {
    forall i :: 0 <= i < |services| ==> |Labels(services[i])| <= 31
  }

  /** The parser accepts a built query of fewer than 65536 questions, finds no records in it and
      consumes it exactly, if and only if every name has at most 31 labels. */
  lemma QueryRoundTrip(services: seq<Bytes>, norm: Bytes -> Bytes)
    requires |services| < 65536
    ensures var packet := Header(|services|, 0) + Questions(services);
      Parse(packet, norm, MAX_STEPS) == if AtMost31Labels(services) then Some((NoRecords(), |packet|)) else None
  {
    AllReadableMeans(services, MAX_STEPS);
    var _ := QueryParses(services, norm, MAX_STEPS);
  }

  /** From this offset to the end of the packet stand the questions for these services: the name of each, then two
      bytes for the type of pointer records, 12, and two for the class of the internet, 1. */
  ghost predicate Asks(packet: Bytes, offset: nat, services: seq<Bytes>)
    decreases |services|
  {
    if services == [] then offset == |packet|
    else
      var next := offset + |Wire(Labels(services[0]))|;
      && Holds(packet, offset, Wire(Labels(services[0]))) && next + 4 <= |packet|
      && packet[next] == 0 && packet[next + 1] == 12 && packet[next + 2] == 0 && packet[next + 3] == 1
      && Asks(packet, next + 4, services[1..])
  }

  lemma QuestionAsks(packet: Bytes, offset: nat, name: Bytes) returns (next: nat)
    requires Holds(packet, offset, Question(name))
    ensures next == offset + |Wire(Labels(name))| && next + 4 == offset + |Question(name)| <= |packet|
    ensures Holds(packet, offset, Wire(Labels(name)))
    ensures packet[next] == 0 && packet[next + 1] == 12 && packet[next + 2] == 0 && packet[next + 3] == 1
  {
    next := offset + |Wire(Labels(name))|;
    HoldsTwo(packet, offset, Wire(Labels(name)), Put16(TYPE_PTR) + Put16(1));
    HoldsAt(packet, next, Put16(TYPE_PTR) + Put16(1), 0);
    HoldsAt(packet, next, Put16(TYPE_PTR) + Put16(1), 1);
    HoldsAt(packet, next, Put16(TYPE_PTR) + Put16(1), 2);
    HoldsAt(packet, next, Put16(TYPE_PTR) + Put16(1), 3);
  }

  lemma {:induction false} QuestionsAsk(packet: Bytes, offset: nat, services: seq<Bytes>)
    requires Holds(packet, offset, Questions(services)) && offset + |Questions(services)| == |packet|
    ensures Asks(packet, offset, services)
    decreases |services|
  {
    if services != [] {
      HoldsTwo(packet, offset, Question(services[0]), Questions(services[1..]));
      var next := QuestionAsks(packet, offset, services[0]);
      QuestionsAsk(packet, next + 4, services[1..]);
    }
  }

  lemma HeaderBytes(questions: nat, body: Bytes)
    requires questions < 65536
    ensures var packet := Header(questions, 0) + body;
      && packet[0] == packet[1] == packet[2] == packet[3] == 0
      && (packet[4] as int) * 256 + (packet[5] as int) == questions
      && forall i :: 6 <= i < 12 ==> packet[i] == 0
  {
    var head, packet := Header(questions, 0), Header(questions, 0) + body;
    assert forall i :: 0 <= i < 12 ==> packet[i] == head[i];
    assert head[4] == questions / 256 % 256 && head[5] == questions % 256;
  }

  lemma QueryBody(services: seq<Bytes>) returns (packet: Bytes)
    requires |services| < 65536
    ensures packet == Header(|services|, 0) + Questions(services) && Asks(packet, 12, services)
  {
    var head, body := Header(|services|, 0), Questions(services);
    packet := head + body;
    HoldsEnd(head, body);
    QuestionsAsk(packet, HEADER, services);
  }

  /** A built query is a standard query: no identifier and no flags, the number of its questions, and nothing in the
      other sections. Then come its questions, and nothing else. */
  lemma QueryAsks(services: seq<Bytes>) returns (packet: Bytes)
    requires |services| < 65536
    ensures packet == Header(|services|, 0) + Questions(services)
    ensures packet[0] == packet[1] == packet[2] == packet[3] == 0
    ensures (packet[4] as int) * 256 + (packet[5] as int) == |services|
    ensures forall i :: 6 <= i < 12 ==> packet[i] == 0
    ensures Asks(packet, 12, services)
  {
    packet := QueryBody(services);
    HeaderBytes(|services|, Questions(services));
  }

  // ---------------------------------------------------------------- the response round trip

  /** What a resource record of section 4.1.3 of RFC 1035 says, its names as labels. */
  datatype Resource =
    | Address(name: seq<Bytes>, ip: Bytes)
    | Pointer(name: seq<Bytes>, target: seq<Bytes>)
    | Service(name: seq<Bytes>, weights: Bytes, port: nat, target: seq<Bytes>)

  predicate WellFormed(r: Resource, steps: nat) {
    && WireLabels(r.name) && |r.name| < steps
    && match r
       case Address(_, ip) => |ip| == 4 || |ip| == 16
       case Pointer(_, target) => WireLabels(target) && |target| < steps && |Wire(target)| < 65536
       case Service(_, weights, port, target) =>
         |weights| == 4 && port < 65536 && WireLabels(target) && |target| < steps && |Wire(target)| + 6 < 65536
  }

  function TypeOf(r: Resource): nat {
    match r
    case Address(_, ip) => if |ip| == 4 then 1 else 28
    case Pointer(_, _) => 12
    case Service(_, _, _, _) => 33
  }

  function Data(r: Resource, steps: nat): (d: Bytes)
    requires WellFormed(r, steps)
    ensures |d| < 65536
  {
    match r
    case Address(_, ip) => ip
    case Pointer(_, target) => Wire(target)
    case Service(_, weights, port, target) => weights + Put16(port) + Wire(target)
  }

  /** Type, then six bytes of class and lifetime, then the length of the data and the data. */
  function Tail(r: Resource, meta: Bytes, steps: nat): (t: Bytes)
    requires WellFormed(r, steps) && |meta| == 6
    ensures |t| == 10 + |Data(r, steps)|
  {
    Put16(TypeOf(r)) + meta + Put16(|Data(r, steps)|) + Data(r, steps)
  }

  function Encode(r: Resource, meta: Bytes, steps: nat): Bytes
    requires WellFormed(r, steps) && |meta| == 6
  {
    Wire(r.name) + Tail(r, meta, steps)
  }

  function Dotted(labels: seq<Bytes>): Bytes { Join(labels) + [DOT] }

  /** What a resource means for the record set, whatever packet carried it. */
  function Learn(rs: Records, r: Resource, norm: Bytes -> Bytes): Records {
    var key := norm(Dotted(r.name));
    match r
    case Address(_, ip) => rs.(addr := Append(rs.addr, key, ip))
    case Pointer(_, target) => rs.(ptr := Append(rs.ptr, key, norm(Dotted(target))))
    case Service(_, _, port, target) => rs.(srv := rs.srv[key := (norm(Dotted(target)), port)])
  }

  lemma TailReads(packet: Bytes, offset: nat, r: Resource, meta: Bytes, steps: nat)
    requires WellFormed(r, steps) && |meta| == 6 && Holds(packet, offset, Tail(r, meta, steps))
    ensures Get16(packet, offset) == TypeOf(r) && Get16(packet, offset + 8) == |Data(r, steps)|
    ensures Holds(packet, offset + 10, Data(r, steps))
  {
    var tail, data := Tail(r, meta, steps), Data(r, steps);
    HoldsPart(packet, offset, tail, 0, 2);
    HoldsPart(packet, offset, tail, 8, 10);
    HoldsPart(packet, offset, tail, 10, |tail|);
    assert tail[0..2] == Put16(TypeOf(r)) && tail[8..10] == Put16(|data|) && tail[10..|tail|] == data;
    Get16Put16(packet, offset, TypeOf(r));
    Get16Put16(packet, offset + 8, |data|);
  }

  lemma NameReads(packet: Bytes, offset: nat, labels: seq<Bytes>, steps: nat, next: nat) returns (name: Bytes)
    requires WireLabels(labels) && |labels| < steps && Holds(packet, offset, Wire(labels))
    requires next == offset + |Wire(labels)|
    ensures ReadName(packet, offset, steps) == Some((name, next)) && name == Dotted(labels)
  {
    WireReads(packet, offset, labels, steps);
    name := Dotted(labels);
  }

  lemma DataReads(packet: Bytes, offset: nat, rs: Records, r: Resource, norm: Bytes -> Bytes, steps: nat,
                  key: Bytes, rrType: nat, rdLen: nat) returns (added: Records)
    requires WellFormed(r, steps) && Holds(packet, offset, Data(r, steps))
    requires key == norm(Dotted(r.name)) && rrType == TypeOf(r) && rdLen == |Data(r, steps)|
    ensures offset + rdLen <= |packet|
    ensures AddRecord(packet, rs, key, rrType, offset, rdLen, norm, steps) == added
    ensures added == Learn(rs, r, norm)
  {
    added := Learn(rs, r, norm);
    match r
    case Address(_, _) =>
    case Pointer(_, target) =>
      var _ := NameReads(packet, offset, target, steps, offset + rdLen);
    case Service(_, weights, port, target) =>
      var data := Data(r, steps);
      HoldsPart(packet, offset, data, 4, 6);
      HoldsPart(packet, offset, data, 6, |data|);
      assert data[4..6] == Put16(port) && data[6..|data|] == Wire(target);
      Get16Put16(packet, offset + 4, port);
      var _ := NameReads(packet, offset + 6, target, steps, offset + rdLen);
  }

  /** The layout of one record: what each of its parts reads as decides what the parser does. */
  lemma ParsesLayout(packet: Bytes, offset: nat, rs: Records, norm: Bytes -> Bytes, steps: nat,
                     name: Bytes, next: nat, rrType: nat, rdLen: nat, added: Records)
    requires ReadName(packet, offset, steps) == Some((name, next)) && next + 10 + rdLen <= |packet|
    requires Get16(packet, next) == rrType && Get16(packet, next + 8) == rdLen
    requires AddRecord(packet, rs, norm(name), rrType, next + 10, rdLen, norm, steps) == added
    ensures ParseRecord(packet, offset, rs, norm, steps) == Some((added, next + 10 + rdLen))
  {
  }

  lemma ResourceParts(packet: Bytes, offset: nat, r: Resource, meta: Bytes, steps: nat) returns (next: nat)
    requires WellFormed(r, steps) && |meta| == 6 && Holds(packet, offset, Encode(r, meta, steps))
    ensures Holds(packet, offset, Wire(r.name)) && next == offset + |Wire(r.name)|
    ensures Holds(packet, next, Tail(r, meta, steps))
    ensures next + |Tail(r, meta, steps)| == offset + |Encode(r, meta, steps)| <= |packet|
  {
    HoldsTwo(packet, offset, Wire(r.name), Tail(r, meta, steps));
    next := offset + |Wire(r.name)|;
  }

  /** The bytes of a resource are its name's, then its tail's. */
  lemma ResourceBytes(packet: Bytes, offset: nat, r: Resource, meta: Bytes, steps: nat)
    returns (name: Bytes, next: nat, rrType: nat, rdLen: nat)
    requires WellFormed(r, steps) && |meta| == 6 && Holds(packet, offset, Encode(r, meta, steps))
    ensures ReadName(packet, offset, steps) == Some((name, next)) && name == Dotted(r.name)
    ensures next + 10 + rdLen <= |packet| && next + 10 + rdLen == offset + |Encode(r, meta, steps)|
    ensures Get16(packet, next) == rrType && Get16(packet, next + 8) == rdLen
    ensures rrType == TypeOf(r) && rdLen == |Data(r, steps)| && Holds(packet, next + 10, Data(r, steps))
  {
    next := ResourceParts(packet, offset, r, meta, steps);
    name := NameReads(packet, offset, r.name, steps, next);
    TailReads(packet, next, r, meta, steps);
    rrType, rdLen := TypeOf(r), |Data(r, steps)|;
  }

  lemma ResourceReads(packet: Bytes, offset: nat, rs: Records, r: Resource, meta: Bytes, norm: Bytes -> Bytes,
                      steps: nat)
    returns (added: Records, end: nat)
    requires WellFormed(r, steps) && |meta| == 6 && Holds(packet, offset, Encode(r, meta, steps))
    ensures ParseRecord(packet, offset, rs, norm, steps) == Some((added, end))
    ensures added == Learn(rs, r, norm) && end == offset + |Encode(r, meta, steps)|
  {
    var name, next, rrType, rdLen := ResourceBytes(packet, offset, r, meta, steps);
    added := DataReads(packet, next + 10, rs, r, norm, steps, norm(name), rrType, rdLen);
    end := next + 10 + rdLen;
    ParsesLayout(packet, offset, rs, norm, steps, name, next, rrType, rdLen, added);
  }

  predicate AllWellFormed(resources: seq<Resource>, steps: nat) {
    resources == [] || (WellFormed(resources[0], steps) && AllWellFormed(resources[1..], steps))
  }

  function EncodeAll(resources: seq<Resource>, meta: Bytes, steps: nat): Bytes
    requires |meta| == 6 && AllWellFormed(resources, steps)
  {
    if resources == [] then [] else Encode(resources[0], meta, steps) + EncodeAll(resources[1..], meta, steps)
  }

  function LearnAll(rs: Records, resources: seq<Resource>, norm: Bytes -> Bytes): Records
    decreases |resources|
  {
    if resources == [] then rs else LearnAll(Learn(rs, resources[0], norm), resources[1..], norm)
  }

  lemma ParsesOneMore(packet: Bytes, offset: nat, n: nat, rs: Records, norm: Bytes -> Bytes, steps: nat,
                      next: Records, mid: nat, learned: Records, end: nat)
    requires n > 0 && ParseRecord(packet, offset, rs, norm, steps) == Some((next, mid))
    requires ParseRecords(packet, mid, n - 1, next, norm, steps) == Some((learned, end))
    ensures ParseRecords(packet, offset, n, rs, norm, steps) == Some((learned, end))
  {
  }

  /** The first of several encoded resources is read, and the others follow it. */
  lemma FirstResource(packet: Bytes, offset: nat, rs: Records, resources: seq<Resource>, meta: Bytes,
                      norm: Bytes -> Bytes, steps: nat) returns (next: Records, mid: nat)
    requires |meta| == 6 && resources != [] && AllWellFormed(resources, steps)
    requires Holds(packet, offset, EncodeAll(resources, meta, steps))
    ensures ParseRecord(packet, offset, rs, norm, steps) == Some((next, mid)) && next == Learn(rs, resources[0], norm)
    ensures Holds(packet, mid, EncodeAll(resources[1..], meta, steps))
    ensures mid == offset + |EncodeAll(resources, meta, steps)| - |EncodeAll(resources[1..], meta, steps)|
  {
    var first := Encode(resources[0], meta, steps);
    HoldsTwo(packet, offset, first, EncodeAll(resources[1..], meta, steps));
    next, mid := ResourceReads(packet, offset, rs, resources[0], meta, norm, steps);
  }

  lemma {:induction false} ResourcesRead(packet: Bytes, offset: nat, rs: Records, resources: seq<Resource>, meta: Bytes,
                                         norm: Bytes -> Bytes, steps: nat) returns (learned: Records, end: nat)
    requires |meta| == 6 && AllWellFormed(resources, steps)
    requires Holds(packet, offset, EncodeAll(resources, meta, steps))
    ensures ParseRecords(packet, offset, |resources|, rs, norm, steps) == Some((learned, end))
    ensures learned == LearnAll(rs, resources, norm) && end == offset + |EncodeAll(resources, meta, steps)|
    decreases |resources|
  {
    if resources == [] {
      learned, end := rs, offset;
    } else {
      var next, mid := FirstResource(packet, offset, rs, resources, meta, norm, steps);
      var rest := resources[1..];
      learned, end := ResourcesRead(packet, mid, next, rest, meta, norm, steps);
      assert |rest| == |resources| - 1;
      ParsesOneMore(packet, offset, |resources|, rs, norm, steps, next, mid, learned, end);
    }
  }

  lemma ParsesWithoutQuestions(packet: Bytes, n: nat, norm: Bytes -> Bytes, steps: nat, learned: Records, end: nat)
    requires |packet| >= HEADER && Get16(packet, 4) == 0
    requires Get16(packet, 6) == n && Get16(packet, 8) == 0 && Get16(packet, 10) == 0
    requires ParseRecords(packet, HEADER, n, NoRecords(), norm, steps) == Some((learned, end))
    ensures Parse(packet, norm, steps) == Some((learned, end))
  {
  }

  /** A response of well-formed records is parsed into exactly what its records say, in order, and
      consumed exactly. */
  lemma ResponseRoundTrip(resources: seq<Resource>, meta: Bytes, norm: Bytes -> Bytes, steps: nat)
    returns (learned: Records, end: nat)
    requires |meta| == 6 && |resources| < 65536 && AllWellFormed(resources, steps)
    ensures Parse(Header(0, |resources|) + EncodeAll(resources, meta, steps), norm, steps) == Some((learned, end))
    ensures learned == LearnAll(NoRecords(), resources, norm) && end == HEADER + |EncodeAll(resources, meta, steps)|
  {
    var body := EncodeAll(resources, meta, steps);
    var packet := Header(0, |resources|) + body;
    HeaderReads(0, |resources|, body);
    learned, end := ResourcesRead(packet, HEADER, NoRecords(), resources, meta, norm, steps);
    ParsesWithoutQuestions(packet, |resources|, norm, steps, learned, end);
  }

  // ---------------------------------------------------------------- what a packet says, however it is written

  /** These labels stand at this offset, written out or compressed, and their bytes end at next. */
  ghost predicate NameStands(packet: Bytes, offset: nat, labels: seq<Bytes>, steps: nat, next: nat) {
    NameAt(packet, offset, steps) == Some(labels) && EndAt(packet, offset, steps) == next
  }

  ghost predicate DataSays(packet: Bytes, rdata: nat, len: nat, r: Resource, steps: nat) {
    rdata + len <= |packet| &&
    match r
    case Address(_, ip) => (|ip| == 4 || |ip| == 16) && packet[rdata..rdata + len] == ip
    case Pointer(_, target) => NameAt(packet, rdata, steps) == Some(target)
    case Service(_, weights, port, target) =>
      len >= 6 && packet[rdata..rdata + 4] == weights && Get16(packet, rdata + 4) == port
      && NameAt(packet, rdata + 6, steps) == Some(target)
  }

  /** The record at this offset, up to end, says this resource. */
  ghost predicate Says(packet: Bytes, offset: nat, r: Resource, steps: nat, end: nat) {
    var next := EndAt(packet, offset, steps);
    && NameStands(packet, offset, r.name, steps, next) && next + 10 <= end <= |packet|
    && Get16(packet, next) == TypeOf(r) && next + 10 + Get16(packet, next + 8) == end
    && DataSays(packet, next + 10, end - next - 10, r, steps)
  }

  /** What stands in one record: a resource, or data the parser has no use for. */
  datatype Entry = Informs(resource: Resource) | Skipped

  /** Data of an unknown type, of the wrong length, or naming a target that does not read. */
  predicate Unusable(packet: Bytes, rrType: nat, rdata: nat, len: nat, steps: nat) {
    && !(rrType == 1 && len == 4) && !(rrType == 28 && len == 16)
    && (rrType == 12 ==> NameAt(packet, rdata, steps).None?)
    && (rrType == 33 && len >= 6 ==> NameAt(packet, rdata + 6, steps).None?)
  }

  /** The record at this offset is a record: its name reads, and its length fits into the packet. */
  predicate RecordFits(packet: Bytes, offset: nat, steps: nat) {
    var next := EndAt(packet, offset, steps);
    NameAt(packet, offset, steps).Some? && next + 10 <= |packet| && next + 10 + Get16(packet, next + 8) <= |packet|
  }

  function RecordEnd(packet: Bytes, offset: nat, steps: nat): nat
    requires RecordFits(packet, offset, steps)
  {
    var next := EndAt(packet, offset, steps);
    next + 10 + Get16(packet, next + 8)
  }

  /** The record at this offset, up to end, is this entry. */
  ghost predicate Stands(packet: Bytes, offset: nat, entry: Entry, steps: nat, end: nat) {
    match entry
    case Informs(r) => Says(packet, offset, r, steps, end)
    case Skipped =>
      var next := EndAt(packet, offset, steps);
      && RecordFits(packet, offset, steps) && end == RecordEnd(packet, offset, steps)
      && Unusable(packet, Get16(packet, next), next + 10, end - next - 10, steps)
  }

  /** The records from this offset on are these entries, one after another, with these ends. */
  ghost predicate Tells(packet: Bytes, offset: nat, entries: seq<Entry>, steps: nat, ends: seq<nat>)
    decreases |entries|
  {
    |ends| == |entries| && (entries == [] || (
      Stands(packet, offset, entries[0], steps, ends[0]) && Tells(packet, ends[0], entries[1..], steps, ends[1..])))
  }

  function LearnEntry(rs: Records, entry: Entry, norm: Bytes -> Bytes): Records {
    match entry
    case Informs(r) => Learn(rs, r, norm)
    case Skipped => rs
  }

  function LearnEntries(rs: Records, entries: seq<Entry>, norm: Bytes -> Bytes): Records
    decreases |entries|
  {
    if entries == [] then rs else LearnEntries(LearnEntry(rs, entries[0], norm), entries[1..], norm)
  }

  lemma DataMeans(packet: Bytes, rdata: nat, len: nat, rs: Records, r: Resource, norm: Bytes -> Bytes, steps: nat)
    requires DataSays(packet, rdata, len, r, steps)
    ensures AddRecord(packet, rs, norm(Dotted(r.name)), TypeOf(r), rdata, len, norm, steps) == Learn(rs, r, norm)
  {
  }

  lemma ResourceMeans(packet: Bytes, offset: nat, rs: Records, r: Resource, norm: Bytes -> Bytes, steps: nat, end: nat)
    requires Says(packet, offset, r, steps, end)
    ensures ParseRecord(packet, offset, rs, norm, steps) == Some((Learn(rs, r, norm), end))
  {
    var next := EndAt(packet, offset, steps);
    DataMeans(packet, next + 10, end - next - 10, rs, r, norm, steps);
    ParsesLayout(packet, offset, rs, norm, steps, Dotted(r.name), next, TypeOf(r), end - next - 10, Learn(rs, r, norm));
  }

  lemma UnusableAddsNothing(packet: Bytes, rs: Records, key: Bytes, rrType: nat, rdata: nat, len: nat,
                            norm: Bytes -> Bytes, steps: nat)
    requires rdata + len <= |packet| && Unusable(packet, rrType, rdata, len, steps)
    ensures AddRecord(packet, rs, key, rrType, rdata, len, norm, steps) == rs
  {
  }

  /** A record is parsed into what its entry teaches, and read to its end. */
  lemma RecordMeans(packet: Bytes, offset: nat, rs: Records, entry: Entry, norm: Bytes -> Bytes, steps: nat, end: nat)
    requires Stands(packet, offset, entry, steps, end)
    ensures ParseRecord(packet, offset, rs, norm, steps) == Some((LearnEntry(rs, entry, norm), end))
  {
    match entry
    case Informs(r) => ResourceMeans(packet, offset, rs, r, norm, steps, end);
    case Skipped =>
      var next, name := EndAt(packet, offset, steps), Dotted(NameAt(packet, offset, steps).value);
      UnusableAddsNothing(packet, rs, norm(name), Get16(packet, next), next + 10, end - next - 10, norm, steps);
      ParsesLayout(packet, offset, rs, norm, steps, name, next, Get16(packet, next), end - next - 10, rs);
  }

  /** The entry a record is, whatever its bytes are. */
  function EntryAt(packet: Bytes, offset: nat, steps: nat): Entry
    requires RecordFits(packet, offset, steps)
  {
    var name, next := NameAt(packet, offset, steps).value, EndAt(packet, offset, steps);
    DataEntry(packet, name, Get16(packet, next), next + 10, Get16(packet, next + 8), steps)
  }

  function DataEntry(packet: Bytes, name: seq<Bytes>, rrType: nat, rdata: nat, len: nat, steps: nat): Entry
    requires rdata + len <= |packet|
  {
    if (rrType == TYPE_A && len == 4) || (rrType == TYPE_AAAA && len == 16)
    then Informs(Address(name, packet[rdata..rdata + len]))
    else if rrType == TYPE_PTR && NameAt(packet, rdata, steps).Some?
    then Informs(Pointer(name, NameAt(packet, rdata, steps).value))
    else if rrType == TYPE_SRV && len >= 6 && NameAt(packet, rdata + 6, steps).Some?
    then
      var target := NameAt(packet, rdata + 6, steps).value;
      Informs(Service(name, packet[rdata..rdata + 4], Get16(packet, rdata + 4), target))
    else Skipped
  }

  lemma DataEntryIs(packet: Bytes, name: seq<Bytes>, rrType: nat, rdata: nat, len: nat, steps: nat)
    requires rdata + len <= |packet|
    ensures match DataEntry(packet, name, rrType, rdata, len, steps)
            case Informs(r) => r.name == name && rrType == TypeOf(r) && DataSays(packet, rdata, len, r, steps)
            case Skipped => Unusable(packet, rrType, rdata, len, steps)
  {
  }

  lemma EntryStands(packet: Bytes, offset: nat, steps: nat)
    requires RecordFits(packet, offset, steps)
    ensures Stands(packet, offset, EntryAt(packet, offset, steps), steps, RecordEnd(packet, offset, steps))
  {
    var name, next := NameAt(packet, offset, steps).value, EndAt(packet, offset, steps);
    DataEntryIs(packet, name, Get16(packet, next), next + 10, Get16(packet, next + 8), steps);
  }

  lemma ParsedFits(packet: Bytes, offset: nat, rs: Records, norm: Bytes -> Bytes, steps: nat)
    ensures ParseRecord(packet, offset, rs, norm, steps).Some? <==> RecordFits(packet, offset, steps)
  {
  }

  function LastOf(offset: nat, ends: seq<nat>): nat { if ends == [] then offset else ends[|ends| - 1] }

  lemma {:induction false} RecordsMean(packet: Bytes, offset: nat, rs: Records, entries: seq<Entry>,
                                       norm: Bytes -> Bytes, steps: nat, ends: seq<nat>)
    returns (learned: Records, end: nat)
    requires Tells(packet, offset, entries, steps, ends)
    ensures ParseRecords(packet, offset, |entries|, rs, norm, steps) == Some((learned, end))
    ensures learned == LearnEntries(rs, entries, norm) && end == LastOf(offset, ends)
    decreases |entries|
  {
    if |entries| == 0 {
      learned, end := rs, offset;
    } else {
      var next, rest := LearnEntry(rs, entries[0], norm), entries[1..];
      RecordMeans(packet, offset, rs, entries[0], norm, steps, ends[0]);
      learned, end := RecordsMean(packet, ends[0], next, rest, norm, steps, ends[1..]);
      assert |rest| == |entries| - 1;
      ParsesOneMore(packet, offset, |entries|, rs, norm, steps, next, ends[0], learned, end);
    }
  }

  lemma TellsOneMore(packet: Bytes, offset: nat, entry: Entry, end: nat, steps: nat, rest: seq<Entry>, ends: seq<nat>)
    requires Stands(packet, offset, entry, steps, end) && Tells(packet, end, rest, steps, ends)
    ensures Tells(packet, offset, [entry] + rest, steps, [end] + ends)
  {
    assert ([entry] + rest)[1..] == rest && ([end] + ends)[1..] == ends;
  }

  /** Records the parser accepts are entries. */
  lemma {:induction false} RecordsStand(packet: Bytes, offset: nat, n: nat, rs: Records, norm: Bytes -> Bytes,
                                        steps: nat)
    returns (entries: seq<Entry>, ends: seq<nat>)
    requires ParseRecords(packet, offset, n, rs, norm, steps).Some?
    ensures |entries| == n && Tells(packet, offset, entries, steps, ends)
    decreases n
  {
    if n == 0 {
      entries, ends := [], [];
    } else {
      var one := ParseRecord(packet, offset, rs, norm, steps);
      ParsedFits(packet, offset, rs, norm, steps);
      EntryStands(packet, offset, steps);
      var entry, end := EntryAt(packet, offset, steps), RecordEnd(packet, offset, steps);
      RecordMeans(packet, offset, rs, entry, norm, steps, end);
      var rest, more := RecordsStand(packet, end, n - 1, one.value.0, norm, steps);
      TellsOneMore(packet, offset, entry, end, steps, rest, more);
      entries, ends := [entry] + rest, [end] + more;
    }
  }

  /** The packet has a header, its questions end at start, and from there on stand these entries, as many as the
   *  header announces over its three sections. */
  ghost predicate Contents(packet: Bytes, steps: nat, start: nat, entries: seq<Entry>, ends: seq<nat>) {
    && |packet| >= HEADER && SkipQuestions(packet, HEADER, Get16(packet, 4), steps) == Some(start)
    && |entries| == Get16(packet, 6) + Get16(packet, 8) + Get16(packet, 10)
    && Tells(packet, start, entries, steps, ends)
  }

  lemma ContentsMean(packet: Bytes, norm: Bytes -> Bytes, steps: nat, start: nat, entries: seq<Entry>, ends: seq<nat>)
    requires Contents(packet, steps, start, entries, ends)
    ensures Parse(packet, norm, steps) == Some((LearnEntries(NoRecords(), entries, norm), LastOf(start, ends)))
  {
    var learned, end := RecordsMean(packet, start, NoRecords(), entries, norm, steps, ends);
  }

  lemma AcceptedHasContents(packet: Bytes, norm: Bytes -> Bytes, steps: nat)
    returns (start: nat, entries: seq<Entry>, ends: seq<nat>)
    requires Parse(packet, norm, steps).Some?
    ensures Contents(packet, steps, start, entries, ends)
  {
    start := SkipQuestions(packet, HEADER, Get16(packet, 4), steps).value;
    var n := Get16(packet, 6) + Get16(packet, 8) + Get16(packet, 10);
    entries, ends := RecordsStand(packet, start, n, NoRecords(), norm, steps);
  }

  /** A packet is accepted exactly if its questions read and it has as many records as it announces; then the
   *  result is what its records say, in order, up to the end of the last one. Names may be written out or
   *  compressed, and records with data the parser has no use for are passed over. */
  lemma PacketMeans(packet: Bytes, norm: Bytes -> Bytes, steps: nat)
    ensures Parse(packet, norm, steps).Some?
       <==> exists start, entries, ends :: Contents(packet, steps, start, entries, ends)
    ensures forall start, entries, ends :: Contents(packet, steps, start, entries, ends) ==>
      Parse(packet, norm, steps) == Some((LearnEntries(NoRecords(), entries, norm), LastOf(start, ends)))
  {
    forall start, entries, ends | Contents(packet, steps, start, entries, ends)
      ensures Parse(packet, norm, steps) == Some((LearnEntries(NoRecords(), entries, norm), LastOf(start, ends)))
    {
      ContentsMean(packet, norm, steps, start, entries, ends);
    }
    if Parse(packet, norm, steps).Some? {
      var start, entries, ends := AcceptedHasContents(packet, norm, steps);
    }
  }

  // ---------------------------------------------------------------- what is learned about a name

  /** The addresses, the pointer targets, and the last service the entries give for a name, in order. */
  function Addresses(entries: seq<Entry>, key: Bytes, norm: Bytes -> Bytes): seq<Bytes> {
    if entries == [] then []
    else
      (match entries[0]
       case Informs(Address(name, ip)) => if norm(Dotted(name)) == key then [ip] else []
       case _ => [])
      + Addresses(entries[1..], key, norm)
  }

  function Targets(entries: seq<Entry>, key: Bytes, norm: Bytes -> Bytes): seq<Bytes> {
    if entries == [] then []
    else
      (match entries[0]
       case Informs(Pointer(name, target)) => if norm(Dotted(name)) == key then [norm(Dotted(target))] else []
       case _ => [])
      + Targets(entries[1..], key, norm)
  }

  function LastService(entries: seq<Entry>, key: Bytes, norm: Bytes -> Bytes): Option<(Bytes, int)> {
    if entries == [] then None
    else
      var later := LastService(entries[1..], key, norm);
      if later.Some? then later
      else
        match entries[0]
        case Informs(Service(name, _, port, target)) =>
          if norm(Dotted(name)) == key then Some((norm(Dotted(target)), port)) else None
        case _ => None
  }

  function Listed(m: map<Bytes, seq<Bytes>>, key: Bytes): seq<Bytes> { if key in m then m[key] else [] }

  function Stored(m: map<Bytes, (Bytes, int)>, key: Bytes): Option<(Bytes, int)> {
    if key in m then Some(m[key]) else None
  }

  lemma EntryTeaches(rs: Records, entry: Entry, norm: Bytes -> Bytes, key: Bytes)
    ensures var r := LearnEntry(rs, entry, norm);
      && Listed(r.addr, key) == Listed(rs.addr, key) + Addresses([entry], key, norm)
      && Listed(r.ptr, key) == Listed(rs.ptr, key) + Targets([entry], key, norm)
      && Stored(r.srv, key) == (if LastService([entry], key, norm).Some? then LastService([entry], key, norm)
                                else Stored(rs.srv, key))
  {
    assert [entry][1..] == [];
    assert Addresses([], key, norm) == [] && Targets([], key, norm) == [] && LastService([], key, norm) == None;
  }

  lemma OneThenRest(entries: seq<Entry>, norm: Bytes -> Bytes, key: Bytes)
    requires entries != []
    ensures Addresses(entries, key, norm) == Addresses([entries[0]], key, norm) + Addresses(entries[1..], key, norm)
    ensures Targets(entries, key, norm) == Targets([entries[0]], key, norm) + Targets(entries[1..], key, norm)
    ensures LastService(entries, key, norm)
         == if LastService(entries[1..], key, norm).Some? then LastService(entries[1..], key, norm)
            else LastService([entries[0]], key, norm)
  {
    assert [entries[0]][1..] == [];
    assert Addresses([], key, norm) == [] && Targets([], key, norm) == [] && LastService([], key, norm) == None;
  }

  /** What the parser knows about a name in the end: every address and every target that a record gave for it, in
   *  the order of the records, and the last service. */
  lemma {:induction false} LearnedAbout(rs: Records, entries: seq<Entry>, norm: Bytes -> Bytes, key: Bytes)
    ensures var r := LearnEntries(rs, entries, norm);
      && Listed(r.addr, key) == Listed(rs.addr, key) + Addresses(entries, key, norm)
      && Listed(r.ptr, key) == Listed(rs.ptr, key) + Targets(entries, key, norm)
      && Stored(r.srv, key) == (if LastService(entries, key, norm).Some? then LastService(entries, key, norm)
                                else Stored(rs.srv, key))
    decreases |entries|
  {
    if entries == [] {
      assert Listed(rs.addr, key) + [] == Listed(rs.addr, key) && Listed(rs.ptr, key) + [] == Listed(rs.ptr, key);
    } else {
      var next := LearnEntry(rs, entries[0], norm);
      EntryTeaches(rs, entries[0], norm, key);
      OneThenRest(entries, norm, key);
      LearnedAbout(next, entries[1..], norm, key);
      Regroup(Listed(rs.addr, key), Addresses([entries[0]], key, norm), Addresses(entries[1..], key, norm));
      Regroup(Listed(rs.ptr, key), Targets([entries[0]], key, norm), Targets(entries[1..], key, norm));
    }
  }

  // ---------------------------------------------------------------- compressed responses

  lemma PlainStands(packet: Bytes, offset: nat, labels: seq<Bytes>, steps: nat)
    requires WireLabels(labels) && |labels| < steps && Holds(packet, offset, Wire(labels))
    ensures NameStands(packet, offset, labels, steps, offset + |Wire(labels)|)
  {
    WireReads(packet, offset, labels, steps);
  }

  lemma CompressedStands(packet: Bytes, offset: nat, labels: seq<Bytes>, target: nat, suffix: seq<Bytes>, steps: nat)
    requires WireLabels(labels) && target < 64 * 256 && Holds(packet, offset, CompressedWire(labels, target))
    requires WireLabels(suffix) && Holds(packet, target, Wire(suffix)) && |labels| + 1 + |suffix| < steps
    ensures NameStands(packet, offset, labels + suffix, steps, offset + |CompressedWire(labels, target)|)
  {
    WireReads(packet, target, suffix, |suffix| + 1);
    CompressionTransparent(packet, offset, labels, target, suffix, |suffix| + 1, steps);
  }

  /** Type, six bytes of class and lifetime, length. */
  function RecordHead(rrType: nat, meta: Bytes, len: nat): (h: Bytes)
    requires |meta| == 6
    ensures |h| == 10
  {
    Put16(rrType) + meta + Put16(len)
  }

  lemma HeadReads(packet: Bytes, offset: nat, rrType: nat, meta: Bytes, len: nat)
    requires |meta| == 6 && rrType < 65536 && len < 65536 && Holds(packet, offset, RecordHead(rrType, meta, len))
    ensures Get16(packet, offset) == rrType && Get16(packet, offset + 8) == len
  {
    var head := RecordHead(rrType, meta, len);
    HoldsPart(packet, offset, head, 0, 2);
    HoldsPart(packet, offset, head, 8, 10);
    assert head[0..2] == Put16(rrType) && head[8..10] == Put16(len);
    Get16Put16(packet, offset, rrType);
    Get16Put16(packet, offset + 8, len);
  }

  /** A service announces an instance of itself, compressed: the instance's own labels, then a pointer to the
   *  service name in the same record. */
  function Announcement(service: seq<Bytes>, own: seq<Bytes>, meta: Bytes): Bytes
    requires WireLabels(service) && WireLabels(own) && |meta| == 6
  {
    var data := CompressedWire(own, HEADER);
    Wire(service) + RecordHead(TYPE_PTR, meta, |data|) + data
  }

  /** The bytes of such an announcement: the service name, the head of the record, its data. */
  lemma AnnouncementParts(packet: Bytes, service: seq<Bytes>, own: seq<Bytes>, meta: Bytes)
    returns (next: nat, len: nat)
    requires WireLabels(service) && WireLabels(own) && |meta| == 6
    requires |CompressedWire(own, HEADER)| < 65536 && Holds(packet, HEADER, Announcement(service, own, meta))
    ensures next == HEADER + |Wire(service)| && len == |CompressedWire(own, HEADER)|
    ensures Holds(packet, HEADER, Wire(service)) && Holds(packet, next + 10, CompressedWire(own, HEADER))
    ensures next + 10 + len <= |packet| && Get16(packet, next) == TYPE_PTR && Get16(packet, next + 8) == len
    ensures next + 10 + len == HEADER + |Announcement(service, own, meta)|
  {
    var name, data := Wire(service), CompressedWire(own, HEADER);
    len := |data|;
    var head := RecordHead(TYPE_PTR, meta, len);
    HoldsTwo(packet, HEADER, name + head, data);
    HoldsTwo(packet, HEADER, name, head);
    next := HEADER + |name|;
    HeadReads(packet, next, TYPE_PTR, meta, len);
  }

  lemma PointerSays(packet: Bytes, offset: nat, name: seq<Bytes>, target: seq<Bytes>, steps: nat, next: nat, len: nat)
    returns (r: Resource)
    requires NameStands(packet, offset, name, steps, next) && next + 10 + len <= |packet|
    requires Get16(packet, next) == TYPE_PTR && Get16(packet, next + 8) == len
    requires NameAt(packet, next + 10, steps) == Some(target)
    ensures r == Pointer(name, target) && Says(packet, offset, r, steps, next + 10 + len)
  {
    r := Pointer(name, target);
  }

  lemma AnnouncementSays(packet: Bytes, service: seq<Bytes>, own: seq<Bytes>, meta: Bytes, steps: nat)
    returns (r: Resource, end: nat)
    requires WireLabels(service) && WireLabels(own) && |meta| == 6 && |own| + 1 + |service| < steps
    requires |CompressedWire(own, HEADER)| < 65536 && Holds(packet, HEADER, Announcement(service, own, meta))
    ensures r == Pointer(service, own + service) && Says(packet, HEADER, r, steps, end)
    ensures end == HEADER + |Announcement(service, own, meta)|
  {
    var next, len := AnnouncementParts(packet, service, own, meta);
    PlainStands(packet, HEADER, service, steps);
    CompressedStands(packet, next + 10, own, HEADER, service, steps);
    r := PointerSays(packet, HEADER, service, own + service, steps, next, len);
    end := next + 10 + len;
  }

  lemma OneTells(packet: Bytes, offset: nat, r: Resource, norm: Bytes -> Bytes, steps: nat, end: nat)
    requires Says(packet, offset, r, steps, end)
    ensures Tells(packet, offset, [Informs(r)], steps, [end]) && LastOf(offset, [end]) == end
    ensures LearnEntries(NoRecords(), [Informs(r)], norm) == Learn(NoRecords(), r, norm)
  {
    var e := Informs(r);
    assert [e][1..] == [] && [end][1..] == [];
    assert LearnEntries(NoRecords(), [e], norm) == LearnEntries(LearnEntry(NoRecords(), e, norm), [e][1..], norm);
  }

  /** Such an announcement is parsed as if it were written out, and consumed exactly. */
  lemma CompressedRoundTrip(service: seq<Bytes>, own: seq<Bytes>, meta: Bytes, norm: Bytes -> Bytes, steps: nat)
    returns (packet: Bytes, r: Resource)
    requires WireLabels(service) && WireLabels(own) && |meta| == 6 && |own| + 1 + |service| < steps
    requires |CompressedWire(own, HEADER)| < 65536
    ensures packet == Header(0, 1) + Announcement(service, own, meta)
    ensures r == Pointer(service, own + service)
    ensures Parse(packet, norm, steps) == Some((Learn(NoRecords(), r, norm), |packet|))
  {
    var body := Announcement(service, own, meta);
    packet := OneRecordHeader(body);
    r := AnnouncementParses(packet, body, service, own, meta, norm, steps);
  }

  lemma AnnouncementParses(packet: Bytes, body: Bytes, service: seq<Bytes>, own: seq<Bytes>, meta: Bytes,
                           norm: Bytes -> Bytes, steps: nat) returns (r: Resource)
    requires WireLabels(service) && WireLabels(own) && |meta| == 6 && |own| + 1 + |service| < steps
    requires |CompressedWire(own, HEADER)| < 65536 && body == Announcement(service, own, meta)
    requires Holds(packet, HEADER, body) && |packet| == HEADER + |body| && Get16(packet, 4) == 0
    requires Get16(packet, 6) == 1 && Get16(packet, 8) == 0 && Get16(packet, 10) == 0
    ensures r == Pointer(service, own + service)
    ensures Parse(packet, norm, steps) == Some((Learn(NoRecords(), r, norm), |packet|))
  {
    var end;
    r, end := AnnouncementSays(packet, service, own, meta, steps);
    OneSaid(packet, r, norm, steps, end);
  }

  lemma OneSaid(packet: Bytes, r: Resource, norm: Bytes -> Bytes, steps: nat, end: nat)
    requires |packet| >= HEADER && Get16(packet, 4) == 0
    requires Get16(packet, 6) == 1 && Get16(packet, 8) == 0 && Get16(packet, 10) == 0
    requires Says(packet, HEADER, r, steps, end)
    ensures Parse(packet, norm, steps) == Some((Learn(NoRecords(), r, norm), end))
  {
    OneTells(packet, HEADER, r, norm, steps, end);
    OneRecordPacket(packet, r, norm, steps, end);
  }

  lemma OneRecordHeader(body: Bytes) returns (packet: Bytes)
    ensures packet == Header(0, 1) + body && |packet| == HEADER + |body| && Holds(packet, HEADER, body)
    ensures Get16(packet, 4) == 0 && Get16(packet, 6) == 1 && Get16(packet, 8) == 0 && Get16(packet, 10) == 0
  {
    packet := Header(0, 1) + body;
    HeaderReads(0, 1, body);
  }

  lemma OneRecordPacket(packet: Bytes, r: Resource, norm: Bytes -> Bytes, steps: nat, end: nat)
    requires |packet| >= HEADER && Get16(packet, 4) == 0
    requires Get16(packet, 6) == 1 && Get16(packet, 8) == 0 && Get16(packet, 10) == 0
    requires Tells(packet, HEADER, [Informs(r)], steps, [end]) && LastOf(HEADER, [end]) == end
    requires LearnEntries(NoRecords(), [Informs(r)], norm) == Learn(NoRecords(), r, norm)
    ensures Parse(packet, norm, steps) == Some((Learn(NoRecords(), r, norm), end))
  {
    ContentsMean(packet, norm, steps, HEADER, [Informs(r)], [end]);
  }

  lemma TextStands(packet: Bytes, name: seq<Bytes>, text: Bytes, meta: Bytes, steps: nat) returns (end: nat)
    requires WireLabels(name) && |name| < steps && |meta| == 6 && |text| < 65536
    requires Holds(packet, HEADER, Wire(name) + RecordHead(TYPE_TXT, meta, |text|) + text)
    ensures Stands(packet, HEADER, Skipped, steps, end) && end == HEADER + |Wire(name)| + 10 + |text|
  {
    var head, next := RecordHead(TYPE_TXT, meta, |text|), HEADER + |Wire(name)|;
    HoldsTwo(packet, HEADER, Wire(name) + head, text);
    HoldsTwo(packet, HEADER, Wire(name), head);
    PlainStands(packet, HEADER, name, steps);
    HeadReads(packet, next, TYPE_TXT, meta, |text|);
    end := next + 10 + |text|;
  }

  /** A record of a type the parser does not know, a text record say, is passed over: the packet is accepted and
   *  teaches nothing. */
  lemma TextRecordPassedOver(name: seq<Bytes>, text: Bytes, meta: Bytes, norm: Bytes -> Bytes, steps: nat)
    returns (packet: Bytes)
    requires WireLabels(name) && |name| < steps && |meta| == 6 && |text| < 65536
    ensures packet == Header(0, 1) + (Wire(name) + RecordHead(TYPE_TXT, meta, |text|) + text)
    ensures Parse(packet, norm, steps) == Some((NoRecords(), |packet|))
  {
    packet := OneRecordHeader(Wire(name) + RecordHead(TYPE_TXT, meta, |text|) + text);
    var end := TextStands(packet, name, text, meta, steps);
    OneSkipped(packet, norm, steps, end);
  }

  lemma OneSkipped(packet: Bytes, norm: Bytes -> Bytes, steps: nat, end: nat)
    requires |packet| >= HEADER && Get16(packet, 4) == 0
    requires Get16(packet, 6) == 1 && Get16(packet, 8) == 0 && Get16(packet, 10) == 0
    requires Stands(packet, HEADER, Skipped, steps, end)
    ensures Parse(packet, norm, steps) == Some((NoRecords(), end))
  {
    var none: seq<Entry> := [Skipped];
    assert none[1..] == [] && [end][1..] == [];
    assert LearnEntries(NoRecords(), none, norm) == LearnEntries(NoRecords(), none[1..], norm) == NoRecords();
    ContentsMean(packet, norm, steps, HEADER, none, [end]);
  }
}
