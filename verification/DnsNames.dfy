// The DNS name codec of internal/httpapi/peer_discovery.go: length-prefixed labels ended by a zero
// byte (section 3.1 of RFC 1035), read back through compression pointers (section 4.1.4).
module DnsNames {
  import opened Common

  type Byte = b: int | 0 <= b < 256
  type Bytes = seq<Byte>

  const DOT: Byte := 46
  const MAX_LABEL := 63
  const MAX_STEPS := 32

  // ---------------------------------------------------------------- names as text

  function TrimDot(name: Bytes): Bytes {
    if name != [] && name[|name| - 1] == DOT then name[..|name| - 1] else name
  }

  function Split(name: Bytes): (r: seq<Bytes>)
    ensures r != []
  {
    if name == [] then [[]]
    else
      var rest := Split(name[1..]);
      if name[0] == DOT then [[]] + rest else [[name[0]] + rest[0]] + rest[1..]
  }

  function Join(labels: seq<Bytes>): Bytes {
    if labels == [] then []
    else if |labels| == 1 then labels[0]
    else labels[0] + [DOT] + Join(labels[1..])
  }

  function Truncate(piece: Bytes): Bytes {
    if |piece| > MAX_LABEL then piece[..MAX_LABEL] else piece
  }

  /** Empty labels are dropped and long ones are cut. */
  function Clean(labels: seq<Bytes>): (r: seq<Bytes>)
    ensures forall i :: 0 <= i < |r| ==> 1 <= |r[i]| <= MAX_LABEL
  {
    if labels == [] then []
    else if labels[0] == [] then Clean(labels[1..])
    else [Truncate(labels[0])] + Clean(labels[1..])
  }

  /** The labels that encoding a name puts on the wire. */
  function Labels(name: Bytes): (r: seq<Bytes>)
    ensures WireLabels(r)
  {
    Clean(Split(TrimDot(name)))
  }

  predicate WireLabels(labels: seq<Bytes>) {
    forall i :: 0 <= i < |labels| ==> 1 <= |labels[i]| <= MAX_LABEL
  }

  // ---------------------------------------------------------------- writing

  /** Length-prefixed labels, then the zero byte. */
  function Wire(labels: seq<Bytes>): (r: Bytes)
    requires WireLabels(labels)
    ensures |r| >= 1
  {
    if labels == [] then [0] else [|labels[0]|] + labels[0] + Wire(labels[1..])
  }

  method AppendDNSName(packet: Bytes, name: Bytes) returns (out: Bytes)
    ensures out == packet + Wire(Labels(name))
  {
    var labels := Split(TrimDot(name));
    out := packet;
    for i := 0 to |labels|
      invariant out + Wire(Clean(labels[i..])) == packet + Wire(Labels(name))
    {
      var piece := labels[i];
      assert labels[i..][1..] == labels[i + 1..];
      if |piece| == 0 {
        continue;
      }
      if |piece| > MAX_LABEL {
        piece := piece[..MAX_LABEL];
      }
      assert Clean(labels[i..]) == [piece] + Clean(labels[i + 1..]);
      WireOne(out, piece, Clean(labels[i + 1..]));
      out := out + [|piece|] + piece;
    }
    out := out + [0];
  }

  lemma WireOne(out: Bytes, piece: Bytes, rest: seq<Bytes>)
    requires 1 <= |piece| <= MAX_LABEL && WireLabels(rest)
    ensures WireLabels([piece] + rest)
    ensures out + Wire([piece] + rest) == out + [|piece|] + piece + Wire(rest)
  {
    assert ([piece] + rest)[1..] == rest;
  }

  // ---------------------------------------------------------------- what a packet says

  predicate IsPointer(l: Byte) { l >= 192 }

  /** The 14-bit offset in the two bytes of a pointer. */
  function Target(hi: Byte, lo: Byte): nat
    requires IsPointer(hi)
  {
    var high: int := hi;
    (high - 192) * 256 + lo
  }

  /** The labels of the name at an offset, following pointers, in at most `fuel` steps. */
  function NameAt(packet: Bytes, offset: nat, fuel: nat): Option<seq<Bytes>>
    decreases fuel
  {
    if fuel == 0 || offset >= |packet| then None
    else
      var l := packet[offset];
      if l == 0 then Some([])
      else if IsPointer(l) then
        if offset + 1 >= |packet| then None
        else NameAt(packet, Target(l, packet[offset + 1]), fuel - 1)
      else if offset + 1 + l > |packet| then None
      else
        var rest := NameAt(packet, offset + 1 + l, fuel - 1);
        if rest.None? then None else Some([packet[offset + 1..offset + 1 + l]] + rest.value)
  }

  /** Where the bytes of that name end: after its zero byte, or after its first pointer. */
  function EndAt(packet: Bytes, offset: nat, fuel: nat): nat
    decreases fuel
  {
    if fuel == 0 || offset >= |packet| || packet[offset] == 0 then offset + 1
    else if IsPointer(packet[offset]) then offset + 2
    else EndAt(packet, offset + 1 + packet[offset], fuel - 1)
  }

  /** What reading at an offset should give: the dotted name and the offset after it. */
  function ReadName(packet: Bytes, offset: nat, steps: nat): Option<(Bytes, nat)> {
    var labels := NameAt(packet, offset, steps);
    if labels.None? then None else Some((Join(labels.value) + [DOT], EndAt(packet, offset, steps)))
  }

  ghost predicate Continues(whole: Option<seq<Bytes>>, done: seq<Bytes>, rest: Option<seq<Bytes>>) {
    whole == if rest.None? then None else Some(done + rest.value)
  }

  /** Where the reading loop stands: `labels` are read, the rest of the name is at `offset`, and the
      end of the name is known once a pointer has been followed. */
  ghost predicate Reading(packet: Bytes, start: nat, steps: nat, labels: seq<Bytes>, offset: nat, left: nat,
                          jumped: bool, original: nat)
  {
    && Continues(NameAt(packet, start, steps), labels, NameAt(packet, offset, left))
    && EndAt(packet, start, steps) == if jumped then original else EndAt(packet, offset, left)
  }

  lemma ReadsLabel(packet: Bytes, start: nat, steps: nat, labels: seq<Bytes>, offset: nat, left: nat,
                   jumped: bool, original: nat)
    requires Reading(packet, start, steps, labels, offset, left, jumped, original)
    requires left > 0 && offset < |packet| && packet[offset] != 0 && !IsPointer(packet[offset])
    ensures var next := offset + 1 + packet[offset];
      if next > |packet| then NameAt(packet, start, steps) == None
      else Reading(packet, start, steps, labels + [packet[offset + 1..next]], next, left - 1, jumped, original)
  {
    var next := offset + 1 + packet[offset];
    if next <= |packet| && NameAt(packet, next, left - 1).Some? {
      var rest := NameAt(packet, next, left - 1).value;
      assert labels + ([packet[offset + 1..next]] + rest) == labels + [packet[offset + 1..next]] + rest;
    }
  }

  lemma ReadsPointer(packet: Bytes, start: nat, steps: nat, labels: seq<Bytes>, offset: nat, left: nat,
                     jumped: bool, original: nat)
    requires Reading(packet, start, steps, labels, offset, left, jumped, original)
    requires left > 0 && offset < |packet| && packet[offset] != 0 && IsPointer(packet[offset])
    ensures if offset + 1 >= |packet| then NameAt(packet, start, steps) == None
            else Reading(packet, start, steps, labels, Target(packet[offset], packet[offset + 1]), left - 1, true,
                         if jumped then original else offset + 2)
  {
  }

  lemma ReadsZero(packet: Bytes, start: nat, steps: nat, labels: seq<Bytes>, offset: nat, left: nat,
                  jumped: bool, original: nat)
    requires Reading(packet, start, steps, labels, offset, left, jumped, original)
    requires left > 0 && offset < |packet| && packet[offset] == 0
    ensures ReadName(packet, start, steps) == Some((Join(labels) + [DOT], if jumped then original else offset + 1))
  {
    assert labels + [] == labels;
  }

  lemma StartsReading(packet: Bytes, start: nat, steps: nat)
    ensures Reading(packet, start, steps, [], start, steps, false, start)
  {
    var whole := NameAt(packet, start, steps);
    assert whole.Some? ==> [] + whole.value == whole.value;
  }

  /** The reading loop: one step for each label or pointer, one flag for having jumped. */
  method ReadDNSName(packet: Bytes, start: nat) returns (r: Option<(Bytes, nat)>)
    ensures r == ReadName(packet, start, MAX_STEPS)
  {
    r := ReadWithin(packet, start, MAX_STEPS);
  }

  method ReadWithin(packet: Bytes, start: nat, steps: nat) returns (r: Option<(Bytes, nat)>)
    ensures r == ReadName(packet, start, steps)
  {
    var labels: seq<Bytes> := [];
    var offset: nat, original: nat, jumped := start, start, false;
    StartsReading(packet, start, steps);
    for depth := 0 to steps
      invariant Reading(packet, start, steps, labels, offset, steps - depth, jumped, original)
    {
      if offset >= |packet| {
        return None;
      }
      var l := packet[offset];
      if l == 0 {
        ReadsZero(packet, start, steps, labels, offset, steps - depth, jumped, original);
        return Some((Join(labels) + [DOT], if jumped then original else offset + 1));
      }
      if IsPointer(l) {
        ReadsPointer(packet, start, steps, labels, offset, steps - depth, jumped, original);
        if offset + 1 >= |packet| {
          return None;
        }
        var ptr := Target(l, packet[offset + 1]);
        if !jumped {
          original := offset + 2;
          jumped := true;
        }
        offset := ptr;
        continue;
      }
      ReadsLabel(packet, start, steps, labels, offset, steps - depth, jumped, original);
      offset := offset + 1;
      if offset + l > |packet| {
        return None;
      }
      labels := labels + [packet[offset..offset + l]];
      offset := offset + l;
    }
    return None;
  }

  // ---------------------------------------------------------------- round trip

  /** These bytes stand in the packet at this offset. */
  ghost predicate Holds(packet: Bytes, offset: nat, bytes: Bytes) {
    offset + |bytes| <= |packet| && packet[offset..offset + |bytes|] == bytes
  }

  lemma HoldsBetween(pre: Bytes, bytes: Bytes, post: Bytes)
    ensures Holds(pre + bytes + post, |pre|, bytes)
  {
  }

  lemma HoldsEnd(pre: Bytes, bytes: Bytes)
    ensures Holds(pre + bytes, |pre|, bytes) && |pre| + |bytes| == |pre + bytes|
  {
  }

  lemma HoldsPart(packet: Bytes, offset: nat, bytes: Bytes, i: nat, j: nat)
    requires Holds(packet, offset, bytes) && i <= j <= |bytes|
    ensures Holds(packet, offset + i, bytes[i..j])
  {
    forall k | i <= k < j ensures packet[offset + k] == bytes[k] {
      assert packet[offset..offset + |bytes|][k] == packet[offset + k];
    }
  }

  lemma HoldsAt(packet: Bytes, offset: nat, bytes: Bytes, i: nat)
    requires Holds(packet, offset, bytes) && i < |bytes|
    ensures packet[offset + i] == bytes[i]
  {
    assert packet[offset..offset + |bytes|][i] == packet[offset + i];
  }

  lemma HoldsTwo(packet: Bytes, offset: nat, first: Bytes, second: Bytes)
    requires Holds(packet, offset, first + second)
    ensures Holds(packet, offset, first) && Holds(packet, offset + |first|, second)
  {
    var both := first + second;
    HoldsPart(packet, offset, both, 0, |first|);
    HoldsPart(packet, offset, both, |first|, |both|);
    assert both[0..|first|] == first && both[|first|..|both|] == second;
  }

  /** A label and what follows it: one step of reading. */
  lemma OneLabel(packet: Bytes, offset: nat, piece: Bytes, tail: Bytes, fuel: nat)
    requires 1 <= |piece| <= MAX_LABEL && fuel > 0 && Holds(packet, offset, [|piece|] + piece + tail)
    ensures Holds(packet, offset + 1 + |piece|, tail)
    ensures var rest := NameAt(packet, offset + 1 + |piece|, fuel - 1);
      NameAt(packet, offset, fuel) == if rest.None? then None else Some([piece] + rest.value)
    ensures EndAt(packet, offset, fuel) == EndAt(packet, offset + 1 + |piece|, fuel - 1)
  {
    var bytes := [|piece|] + piece + tail;
    assert bytes[0] == |piece| && bytes[1..1 + |piece|] == piece && bytes[1 + |piece|..] == tail;
    HoldsAt(packet, offset, bytes, 0);
    HoldsPart(packet, offset, bytes, 1, 1 + |piece|);
    HoldsPart(packet, offset, bytes, 1 + |piece|, |bytes|);
  }

  /** Reading encoded labels gives them back and stops right after them, exactly when the steps
      suffice: one for each label and one for the zero byte. */
  lemma {:induction false} WireReads(packet: Bytes, offset: nat, labels: seq<Bytes>, fuel: nat)
    requires WireLabels(labels) && Holds(packet, offset, Wire(labels))
    ensures NameAt(packet, offset, fuel) == if |labels| < fuel then Some(labels) else None
    ensures |labels| < fuel ==> EndAt(packet, offset, fuel) == offset + |Wire(labels)|
    decreases |labels|
  {
    if labels == [] {
      ZeroReads(packet, offset, fuel);
    } else if fuel > 0 {
      var first, rest := labels[0], labels[1..];
      WireParts(labels);
      OneLabel(packet, offset, first, Wire(rest), fuel);
      WireReads(packet, offset + 1 + |first|, rest, fuel - 1);
    }
  }

  lemma ZeroReads(packet: Bytes, offset: nat, fuel: nat)
    requires Holds(packet, offset, [0])
    ensures NameAt(packet, offset, fuel) == if 0 < fuel then Some([]) else None
    ensures 0 < fuel ==> EndAt(packet, offset, fuel) == offset + 1
  {
    assert packet[offset] == packet[offset..offset + 1][0] == 0;
  }

  lemma WireParts(labels: seq<Bytes>)
    requires labels != [] && WireLabels(labels)
    ensures Wire(labels) == [|labels[0]|] + labels[0] + Wire(labels[1..])
    ensures |Wire(labels)| == 1 + |labels[0]| + |Wire(labels[1..])| && [labels[0]] + labels[1..] == labels
  {
  }

  lemma ReadsBack(pre: Bytes, labels: seq<Bytes>, post: Bytes, steps: nat)
    requires WireLabels(labels)
    ensures ReadName(pre + Wire(labels) + post, |pre|, steps) ==
      if |labels| < steps then Some((Join(labels) + [DOT], |pre| + |Wire(labels)|)) else None
  {
    HoldsBetween(pre, Wire(labels), post);
    WireReads(pre + Wire(labels) + post, |pre|, labels, steps);
  }

  /** For every name, at every packet position: what was written is read back in canonical form and
      the reader stops exactly after it, if and only if the name has at most 31 labels. */
  lemma RoundTrip(pre: Bytes, name: Bytes, post: Bytes)
    ensures ReadName(pre + Wire(Labels(name)) + post, |pre|, MAX_STEPS) ==
      if |Labels(name)| <= 31 then Some((Join(Labels(name)) + [DOT], |pre| + |Wire(Labels(name))|)) else None
  {
    ReadsBack(pre, Labels(name), post, MAX_STEPS);
  }

  predicate DotFree(piece: Bytes) { forall i :: 0 <= i < |piece| ==> piece[i] != DOT }

  predicate ProperLabels(labels: seq<Bytes>) {
    forall i :: 0 <= i < |labels| ==> 1 <= |labels[i]| <= MAX_LABEL && DotFree(labels[i])
  }

  lemma {:induction false} SplitFirst(piece: Bytes, rest: Bytes)
    requires DotFree(piece)
    ensures Split(piece) == [piece]
    ensures Split(piece + [DOT] + rest) == [piece] + Split(rest)
  {
    var whole := piece + [DOT] + rest;
    if piece == [] {
      assert whole[1..] == rest;
    } else {
      SplitFirst(piece[1..], rest);
      assert [piece[0]] + piece[1..] == piece;
      assert whole[1..] == piece[1..] + [DOT] + rest;
    }
  }

  lemma {:induction false} SplitJoin(labels: seq<Bytes>)
    requires labels != [] && ProperLabels(labels)
    ensures Split(Join(labels)) == labels && Clean(labels) == labels
    ensures Join(labels) != [] && Join(labels)[|Join(labels)| - 1] != DOT
  {
    if |labels| == 1 {
      SplitFirst(labels[0], []);
      assert Clean(labels[1..]) == [];
    } else {
      SplitFirst(labels[0], Join(labels[1..]));
      SplitJoin(labels[1..]);
    }
  }

  /** A dotted name of proper labels survives the trip, with or without its final dot. */
  lemma ProperNameRoundTrip(pre: Bytes, labels: seq<Bytes>, post: Bytes, dot: bool)
    requires 1 <= |labels| <= 31 && ProperLabels(labels)
    ensures var name := if dot then Join(labels) + [DOT] else Join(labels);
      && Labels(name) == labels
      && ReadName(pre + Wire(Labels(name)) + post, |pre|, MAX_STEPS)
         == Some((TrimDot(name) + [DOT], |pre| + |Wire(labels)|))
  {
    var name := if dot then Join(labels) + [DOT] else Join(labels);
    SplitJoin(labels);
    assert TrimDot(name) == Join(labels);
    ReadsBack(pre, labels, post, MAX_STEPS);
  }

  // ---------------------------------------------------------------- what the labels of a name are

  lemma {:induction false} CleanConcat(a: seq<Bytes>, b: seq<Bytes>)
    ensures Clean(a + b) == Clean(a) + Clean(b)
  {
    if a == [] {
      assert a + b == b;
    } else {
      assert (a + b)[1..] == a[1..] + b;
      CleanConcat(a[1..], b);
    }
  }

  lemma {:induction false} SplitConcat(a: Bytes, b: Bytes)
    ensures Split(a + [DOT] + b) == Split(a) + Split(b)
  {
    var whole := a + [DOT] + b;
    if a == [] {
      assert whole[1..] == b;
    } else {
      assert whole[1..] == a[1..] + [DOT] + b && whole[0] == a[0];
      SplitConcat(a[1..], b);
    }
  }

  lemma FinalDotIsNothing(name: Bytes)
    ensures Labels(name) == Clean(Split(name))
  {
    if name != [] && name[|name| - 1] == DOT {
      var short := name[..|name| - 1];
      assert name == short + [DOT] + [];
      SplitConcat(short, []);
      CleanConcat(Split(short), Split([]));
      assert Split([]) == [[]] && Clean([[]]) == Clean([]) == [];
    }
  }

  /** The labels of a name are those before a dot, then those after it, whichever dot it is. */
  lemma LabelsAroundDot(a: Bytes, b: Bytes)
    ensures Labels(a + [DOT] + b) == Labels(a) + Labels(b)
  {
    SplitConcat(a, b);
    CleanConcat(Split(a), Split(b));
    FinalDotIsNothing(a);
    FinalDotIsNothing(b);
    FinalDotIsNothing(a + [DOT] + b);
  }

  /** A piece without a dot is one label, cut at sixty-three bytes; an empty one is none. */
  lemma LabelsOfPiece(piece: Bytes)
    requires DotFree(piece)
    ensures Labels(piece) == if piece == [] then [] else if |piece| <= 63 then [piece] else [piece[..63]]
  {
    FinalDotIsNothing(piece);
    SplitFirst(piece, []);
    assert [piece][1..] == [] && Clean([]) == [];
  }

  /** The limit is met in practice: a name of 32 one-letter labels is written, but not read back. */
  lemma ThirtyTwoLabelsAreLost() returns (name: Bytes)
    ensures name == Join(seq(32, _ => [97])) && |Labels(name)| == 32
    ensures ReadName(Wire(Labels(name)), 0, MAX_STEPS) == None
  {
    var labels: seq<Bytes> := seq(32, _ => [97]);
    name := Join(labels);
    SplitJoin(labels);
    RoundTrip([], name, []);
    assert [] + Wire(Labels(name)) + [] == Wire(Labels(name));
  }

  // ---------------------------------------------------------------- compression

  lemma {:induction false} MoreFuel(packet: Bytes, offset: nat, fuel: nat, more: nat)
    requires NameAt(packet, offset, fuel).Some? && fuel <= more
    ensures NameAt(packet, offset, more) == NameAt(packet, offset, fuel)
    decreases fuel
  {
    var l := packet[offset];
    if l != 0 {
      if IsPointer(l) {
        MoreFuel(packet, Target(l, packet[offset + 1]), fuel - 1, more - 1);
      } else {
        MoreFuel(packet, offset + 1 + l, fuel - 1, more - 1);
      }
    }
  }

  function PointerBytes(target: nat): (r: Bytes)
    requires target < 64 * 256
    ensures |r| == 2
  {
    [192 + target / 256, target % 256]
  }

  /** Labels followed by a pointer instead of the zero byte. */
  function CompressedWire(labels: seq<Bytes>, target: nat): (r: Bytes)
    requires WireLabels(labels) && target < 64 * 256
  {
    if labels == [] then PointerBytes(target)
    else [|labels[0]|] + labels[0] + CompressedWire(labels[1..], target)
  }

  /** The two bytes at this offset are a pointer to the target. */
  ghost predicate Points(packet: Bytes, offset: nat, target: nat) {
    && offset + 1 < |packet| && IsPointer(packet[offset])
    && Target(packet[offset], packet[offset + 1]) == target
  }

  lemma PointsTo(packet: Bytes, offset: nat, target: nat)
    requires target < 64 * 256 && Holds(packet, offset, PointerBytes(target))
    ensures Points(packet, offset, target)
  {
    var bytes := PointerBytes(target);
    HoldsAt(packet, offset, bytes, 0);
    HoldsAt(packet, offset, bytes, 1);
  }

  /** A pointer denotes the name it points to, and the reader goes on right after it. */
  lemma PointerReads(packet: Bytes, offset: nat, target: nat, used: nat, fuel: nat)
    requires Points(packet, offset, target) && NameAt(packet, target, used).Some? && used < fuel
    ensures NameAt(packet, offset, fuel) == NameAt(packet, target, used)
    ensures EndAt(packet, offset, fuel) == offset + 2
  {
    MoreFuel(packet, target, used, fuel - 1);
  }

  lemma FirstThenRest<T>(xs: seq<T>, ys: seq<T>)
    requires xs != []
    ensures [xs[0]] + (xs[1..] + ys) == xs + ys
  {
  }

  /** Compression is transparent: labels that end in a pointer to a name denote these labels followed
      by that name's, within the step budget, and the reader goes on right after the pointer. */
  lemma {:induction false} CompressionTransparent(packet: Bytes, offset: nat, labels: seq<Bytes>, target: nat,
                                                  suffix: seq<Bytes>, used: nat, fuel: nat)
    requires WireLabels(labels) && target < 64 * 256 && Holds(packet, offset, CompressedWire(labels, target))
    requires NameAt(packet, target, used) == Some(suffix) && |labels| + 1 + used <= fuel
    ensures NameAt(packet, offset, fuel) == Some(labels + suffix)
    ensures EndAt(packet, offset, fuel) == offset + |CompressedWire(labels, target)|
    decreases |labels|
  {
    if labels == [] {
      PointsTo(packet, offset, target);
      PointerReads(packet, offset, target, used, fuel);
      assert [] + suffix == suffix;
    } else {
      var first, rest := labels[0], labels[1..];
      CompressedParts(labels, target);
      OneLabel(packet, offset, first, CompressedWire(rest, target), fuel);
      CompressionTransparent(packet, offset + 1 + |first|, rest, target, suffix, used, fuel - 1);
      FirstThenRest(labels, suffix);
    }
  }

  lemma CompressedParts(labels: seq<Bytes>, target: nat)
    requires labels != [] && WireLabels(labels) && target < 64 * 256
    ensures CompressedWire(labels, target) == [|labels[0]|] + labels[0] + CompressedWire(labels[1..], target)
    ensures |CompressedWire(labels, target)| == 1 + |labels[0]| + |CompressedWire(labels[1..], target)|
  {
  }

  /** Fewer steps do not do: one is needed for each label, one for the pointer, and those of the name pointed to. */
  lemma {:induction false} CompressionNeeds(packet: Bytes, offset: nat, labels: seq<Bytes>, target: nat, used: nat,
                                            fuel: nat)
    requires WireLabels(labels) && target < 64 * 256 && Holds(packet, offset, CompressedWire(labels, target))
    requires used > 0 && NameAt(packet, target, used - 1) == None && fuel < |labels| + 1 + used
    ensures NameAt(packet, offset, fuel) == None
    decreases |labels|
  {
    if labels == [] {
      PointsTo(packet, offset, target);
      PointerNeeds(packet, offset, target, used, fuel);
    } else if fuel > 0 {
      var next := FirstNeeds(packet, offset, labels, target, fuel);
      CompressionNeeds(packet, next, labels[1..], target, used, fuel - 1);
    }
  }

  lemma FirstNeeds(packet: Bytes, offset: nat, labels: seq<Bytes>, target: nat, fuel: nat) returns (next: nat)
    requires labels != [] && WireLabels(labels) && target < 64 * 256 && fuel > 0
    requires Holds(packet, offset, CompressedWire(labels, target))
    ensures Holds(packet, next, CompressedWire(labels[1..], target))
    ensures NameAt(packet, next, fuel - 1) == None ==> NameAt(packet, offset, fuel) == None
  {
    next := offset + 1 + |labels[0]|;
    CompressedParts(labels, target);
    OneLabel(packet, offset, labels[0], CompressedWire(labels[1..], target), fuel);
  }

  lemma PointerNeeds(packet: Bytes, offset: nat, target: nat, used: nat, fuel: nat)
    requires Points(packet, offset, target) && fuel <= used
    requires used > 0 && NameAt(packet, target, used - 1) == None
    ensures NameAt(packet, offset, fuel) == None
  {
    if fuel > 0 && NameAt(packet, target, fuel - 1).Some? { MoreFuel(packet, target, fuel - 1, used - 1); }
  }

  /** The exact budget of a compressed name, where the name pointed to needs `used` steps and no fewer. */
  lemma CompressionBudget(packet: Bytes, offset: nat, labels: seq<Bytes>, target: nat, suffix: seq<Bytes>,
                          used: nat, fuel: nat)
    requires WireLabels(labels) && target < 64 * 256 && Holds(packet, offset, CompressedWire(labels, target))
    requires NameAt(packet, target, used) == Some(suffix) && used > 0 && NameAt(packet, target, used - 1) == None
    ensures NameAt(packet, offset, fuel) == if |labels| + 1 + used <= fuel then Some(labels + suffix) else None
  {
    if |labels| + 1 + used <= fuel {
      CompressionTransparent(packet, offset, labels, target, suffix, used, fuel);
    } else {
      CompressionNeeds(packet, offset, labels, target, used, fuel);
    }
  }

  /** A pointer that leads back to itself is refused, however many steps are allowed. */
  lemma {:induction false} SelfPointerRefused(packet: Bytes, offset: nat, fuel: nat)
    requires offset + 1 < |packet| && IsPointer(packet[offset])
    requires Target(packet[offset], packet[offset + 1]) == offset
    ensures NameAt(packet, offset, fuel) == None
  {
    if fuel > 0 {
      SelfPointerRefused(packet, offset, fuel - 1);
    }
  }

  // ---------------------------------------------------------------- an example

  lemma WireAgain(piece: Bytes, rest: seq<Bytes>, tail: Bytes) returns (all: seq<Bytes>)
    requires 1 <= |piece| <= MAX_LABEL && WireLabels(rest) && Wire(rest) == tail
    ensures all == [piece] + rest && WireLabels(all) && Wire(all) == [|piece|] + piece + tail
  {
    all := [piece] + rest;
    WireOne([], piece, rest);
  }

  lemma ExampleNames() returns (arpa: seq<Bytes>, name: seq<Bytes>)
    ensures arpa == [[65, 82, 80, 65]] && name == [[70]] + ([[73, 83, 73]] + arpa)
    ensures WireLabels(arpa) && Wire(arpa) == [4] + [65, 82, 80, 65] + [0]
    ensures WireLabels(name) && Wire(name) == [1] + [70] + ([3] + [73, 83, 73] + ([4] + [65, 82, 80, 65] + [0]))
  {
    arpa := WireAgain([65, 82, 80, 65], [], [0]);
    var isi := WireAgain([73, 83, 73], arpa, Wire(arpa));
    name := WireAgain([70], isi, Wire(isi));
  }

  lemma ThenPointer(packet: Bytes, offset: nat, own: seq<Bytes>, target: nat, suffix: seq<Bytes>) returns (end: nat)
    requires WireLabels(own) && WireLabels(suffix) && target < 64 * 256 && |own| + |suffix| < 30
    requires Holds(packet, target, Wire(suffix)) && Holds(packet, offset, CompressedWire(own, target))
    ensures NameAt(packet, offset, MAX_STEPS) == Some(own + suffix)
    ensures EndAt(packet, offset, MAX_STEPS) == end && end == offset + |CompressedWire(own, target)|
  {
    WireReads(packet, target, suffix, |suffix| + 1);
    CompressionTransparent(packet, offset, own, target, suffix, |suffix| + 1, MAX_STEPS);
    end := offset + |CompressedWire(own, target)|;
  }

  lemma FooWire() returns (foo: seq<Bytes>)
    ensures foo == [[70, 79, 79]] && WireLabels(foo)
    ensures CompressedWire(foo, 0) == [3, 70, 79, 79, 192, 0] && CompressedWire([], 6) == [192, 6]
  {
    foo := [[70, 79, 79]];
    CompressedParts(foo, 0);
    assert foo[1..] == [];
  }

  lemma ExampleBytes(a: Bytes, b: Bytes, c: Bytes, d: Bytes) returns (packet: Bytes)
    requires |a| == 12 && |b| == 6 && |c| == 2 && |d| == 1
    ensures packet == a + b + c + d
    ensures Holds(packet, 0, a) && Holds(packet, 12, b) && Holds(packet, 18, c) && Holds(packet, 20, d)
    ensures Holds(packet, 6, a[6..12])
  {
    packet := a + b + c + d;
    HoldsBetween([], a, b + c + d);
    HoldsBetween(a, b, c + d);
    HoldsBetween(a + b, c, d);
    HoldsBetween(a + b + c, d, []);
    assert packet == [] + a + (b + c + d) == a + b + (c + d) == a + b + c + d + [];
    HoldsPart(packet, 0, a, 6, 12);
  }

  lemma PlainReads(packet: Bytes, offset: nat, labels: seq<Bytes>)
    requires WireLabels(labels) && |labels| <= 3 && Holds(packet, offset, Wire(labels))
    ensures NameAt(packet, offset, MAX_STEPS) == Some(labels)
    ensures EndAt(packet, offset, MAX_STEPS) == offset + |Wire(labels)|
  {
    WireReads(packet, offset, labels, MAX_STEPS);
  }

  lemma ExamplePointers(packet: Bytes, name: seq<Bytes>, foo: seq<Bytes>, arpa: seq<Bytes>)
    requires WireLabels(name) && WireLabels(foo) && WireLabels(arpa) && |name| == 3 && |foo| == |arpa| == 1
    requires Holds(packet, 0, Wire(name)) && Holds(packet, 12, CompressedWire(foo, 0))
    requires Holds(packet, 18, CompressedWire([], 6)) && Holds(packet, 6, Wire(arpa))
    ensures NameAt(packet, 12, MAX_STEPS) == Some(foo + name) && NameAt(packet, 18, MAX_STEPS) == Some(arpa)
    ensures EndAt(packet, 12, MAX_STEPS) == 12 + |CompressedWire(foo, 0)|
    ensures EndAt(packet, 18, MAX_STEPS) == 18 + |CompressedWire([], 6)|
  {
    var end := ThenPointer(packet, 12, foo, 0, name);
    end := ThenPointer(packet, 18, [], 6, arpa);
    assert [] + arpa == arpa;
  }

  lemma ExampleReads(packet: Bytes, name: seq<Bytes>, foo: seq<Bytes>, arpa: seq<Bytes>)
    requires WireLabels(name) && WireLabels(foo) && WireLabels(arpa) && |name| == 3 && |foo| == |arpa| == 1
    requires Holds(packet, 0, Wire(name)) && Holds(packet, 12, CompressedWire(foo, 0))
    requires Holds(packet, 18, CompressedWire([], 6)) && Holds(packet, 20, Wire([])) && Holds(packet, 6, Wire(arpa))
    ensures NameAt(packet, 0, MAX_STEPS) == Some(name) && NameAt(packet, 12, MAX_STEPS) == Some(foo + name)
    ensures NameAt(packet, 18, MAX_STEPS) == Some(arpa) && NameAt(packet, 20, MAX_STEPS) == Some([])
    ensures EndAt(packet, 0, MAX_STEPS) == |Wire(name)|
    ensures EndAt(packet, 12, MAX_STEPS) == 12 + |CompressedWire(foo, 0)|
    ensures EndAt(packet, 18, MAX_STEPS) == 18 + |CompressedWire([], 6)|
    ensures EndAt(packet, 20, MAX_STEPS) == 20 + |Wire([])|
  {
    PlainReads(packet, 0, name);
    ExamplePointers(packet, name, foo, arpa);
    PlainReads(packet, 20, []);
  }

  lemma ExampleFirst() returns (arpa: seq<Bytes>, name: seq<Bytes>, first: Bytes)
    ensures arpa == [[65, 82, 80, 65]] && name == [[70]] + ([[73, 83, 73]] + arpa)
    ensures WireLabels(arpa) && WireLabels(name) && first == [1, 70, 3, 73, 83, 73, 4, 65, 82, 80, 65, 0]
    ensures Wire(name) == first && Wire(arpa) == first[6..12]
  {
    arpa, name := ExampleNames();
    first := [1, 70, 3, 73, 83, 73, 4, 65, 82, 80, 65, 0];
  }

  /** The names F.ISI.ARPA, FOO.F.ISI.ARPA and ARPA and the root, as section 4.1.4 of RFC 1035 lays them out: the
   *  first written out, the second a label and a pointer to the first, the third a pointer into the first. */
  lemma RfcExample() returns (packet: Bytes, arpa: seq<Bytes>, name: seq<Bytes>, foo: seq<Bytes>)
    ensures packet == [1, 70, 3, 73, 83, 73, 4, 65, 82, 80, 65, 0] + [3, 70, 79, 79, 192, 0] + [192, 6] + [0]
    ensures foo == [[70, 79, 79]] && arpa == [[65, 82, 80, 65]] && name == [[70]] + ([[73, 83, 73]] + arpa)
    ensures NameAt(packet, 0, MAX_STEPS) == Some(name) && NameAt(packet, 12, MAX_STEPS) == Some(foo + name)
    ensures NameAt(packet, 18, MAX_STEPS) == Some(arpa) && NameAt(packet, 20, MAX_STEPS) == Some([])
    ensures EndAt(packet, 0, MAX_STEPS) == 12 && EndAt(packet, 12, MAX_STEPS) == 18
    ensures EndAt(packet, 18, MAX_STEPS) == 20 && EndAt(packet, 20, MAX_STEPS) == 21
  {
    var first: Bytes;
    arpa, name, first := ExampleFirst();
    foo := FooWire();
    packet := ExampleBytes(first, CompressedWire(foo, 0), CompressedWire([], 6), [0]);
    ExampleReads(packet, name, foo, arpa);
  }
}
