/** A sender for the reassembler (RFC 6184 packetization), and what single packets of it do.
    Packets are counted by an unbounded index; the wire carries the index modulo 2^16. */
module H264Sender {
  import opened Wrappers
  import opened Bytes
  import opened H264
  import opened Lists
  import Slices

  /** One way to send something: a NAL unit as it is, several in an aggregation packet,
      or one (header byte and the pieces of its remaining bytes) in FU-A fragments. */
  datatype Group =
    | Single(nal: Data)
    | Stap(header: Byte, nals: seq<Data>)
    | Fragmented(header: Byte, pieces: seq<Data>)

  predicate ValidGroup(g: Group) {
    match g
    case Single(nal) => nal != [] && 1 <= Low5(nal[0]) <= 23
    case Stap(header, nals) => Low5(header) == 24 && forall k :: 0 <= k < |nals| ==> |nals[k]| < 0x1_0000
    case Fragmented(_, pieces) => |pieces| >= 2
  }

  predicate Valid(gs: seq<Group>) {
    forall k :: 0 <= k < |gs| ==> ValidGroup(gs[k])
  }

  function Flat(pieces: seq<Data>): Data {
    if pieces == [] then [] else pieces[0] + Flat(pieces[1..])
  }

  /** The NAL units a group stands for. */
  function Nals(g: Group): seq<Data> {
    match g
    case Single(nal) => [nal]
    case Stap(_, nals) => nals
    case Fragmented(header, pieces) => [[header] + Flat(pieces)]
  }

  function EncodeUnit(nal: Data): Data
    requires |nal| < 0x1_0000
  {
    [|nal| / 256, |nal| % 256] + nal
  }

  function EncodeUnits(nals: seq<Data>): Data
    requires forall k :: 0 <= k < |nals| ==> |nals[k]| < 0x1_0000
  {
    if nals == [] then [] else EncodeUnit(nals[0]) + EncodeUnits(nals[1..])
  }

  function Fragment(header: Byte, flags: Byte, piece: Data): Data
    requires flags < 224
  {
    [High3(header) + 28, flags + Low5(header)] + piece
  }

  /** The fragments after the first: the last one carries the end bit. */
  function Continuations(header: Byte, pieces: seq<Data>): seq<Data> {
    if pieces == [] then []
    else if |pieces| == 1 then [Fragment(header, 64, pieces[0])]
    else [Fragment(header, 0, pieces[0])] + Continuations(header, pieces[1..])
  }

  function Payloads(g: Group): seq<Data>
    requires ValidGroup(g)
  {
    match g
    case Single(nal) => [nal]
    case Stap(header, nals) => [[header] + EncodeUnits(nals)]
    case Fragmented(header, pieces) =>
      [Fragment(header, 128, pieces[0])] + Continuations(header, pieces[1..])
  }

  /** Packets with consecutive sequence numbers, the first one being number `n`. */
  function Number(payloads: seq<Data>, n: int): seq<Packet> {
    if payloads == [] then [] else [Packet(n % 0x1_0000, payloads[0])] + Number(payloads[1..], n + 1)
  }

  /** The packets that arrive. */
  function Deliver(ps: seq<Packet>, arrived: seq<bool>): seq<Packet>
    requires |ps| == |arrived|
  {
    if ps == [] then []
    else (if arrived[0] then [ps[0]] else []) + Deliver(ps[1..], arrived[1..])
  }

  function Parts(gs: seq<Group>): (r: seq<seq<Data>>)
    requires Valid(gs)
    ensures |r| == |gs| && forall q :: 0 <= q < |gs| ==> r[q] == Payloads(gs[q])
  {
    seq(|gs|, q requires 0 <= q < |gs| => Payloads(gs[q]))
  }

  function Units(gs: seq<Group>): (r: seq<seq<Data>>)
    ensures |r| == |gs| && forall q :: 0 <= q < |gs| ==> r[q] == Nals(gs[q])
  {
    seq(|gs|, q requires 0 <= q < |gs| => Nals(gs[q]))
  }

  function AllPayloads(gs: seq<Group>): seq<Data>
    requires Valid(gs)
  {
    Concat(Parts(gs))
  }

  /** What ought to come out: exactly the groups whose packets all arrived. */
  function Expected(gs: seq<Group>, arrived: seq<bool>): seq<Data>
    requires Valid(gs) && |arrived| == |AllPayloads(gs)|
  {
    Gains(Parts(gs), Units(gs), arrived)
  }

  // ---- streams in parts ----

  lemma {:induction false} NumberLength(payloads: seq<Data>, n: int)
    ensures |Number(payloads, n)| == |payloads|
  {
    if payloads == [] {
    } else {
      NumberLength(payloads[1..], n + 1);
    }
  }

  lemma {:induction false} NumberAppend(p: seq<Data>, q: seq<Data>, n: int)
    ensures Number(p + q, n) == Number(p, n) + Number(q, n + |p|)
  {
    if p == [] {
      assert p + q == q;
    } else {
      assert (p + q)[1..] == p[1..] + q;
      NumberAppend(p[1..], q, n + 1);
    }
  }

  lemma {:induction false} DeliverAppend(xs: seq<Packet>, ys: seq<Packet>, a: seq<bool>, b: seq<bool>)
    requires |xs| == |a| && |ys| == |b|
    ensures Deliver(xs + ys, a + b) == Deliver(xs, a) + Deliver(ys, b)
  {
    if xs == [] {
      assert xs + ys == ys && a + b == b;
    } else {
      assert (xs + ys)[1..] == xs[1..] + ys && (a + b)[1..] == a[1..] + b;
      DeliverAppend(xs[1..], ys, a[1..], b);
      Slices.Assoc(if a[0] then [xs[0]] else [], Deliver(xs[1..], a[1..]), Deliver(ys, b));
    }
  }

  lemma {:induction false} NumberAt(payloads: seq<Data>, n: int, k: nat)
    requires k < |payloads|
    ensures |Number(payloads, n)| == |payloads| && Number(payloads, n)[k] == Packet((n + k) % 0x1_0000, payloads[k])
  {
    if k == 0 {
      NumberLength(payloads, n);
    } else {
      NumberAt(payloads[1..], n + 1, k - 1);
    }
  }

  // ---- fragments ----

  lemma HeaderBytes(header: Byte, flags: Byte, piece: Data)
    requires flags == 0 || flags == 64 || flags == 128
    ensures var f := Fragment(header, flags, piece);
      && Low5(f[0]) == 28 && f[2..] == piece && High3(f[0]) + Low5(f[1]) == header
      && (Bit7(f[1]) <==> flags == 128) && (flags != 128 ==> (Bit6(f[1]) <==> flags == 64))
  {
  }

  lemma {:induction false} ContinuationsLength(header: Byte, pieces: seq<Data>)
    ensures |Continuations(header, pieces)| == |pieces|
  {
    if |pieces| <= 1 {
    } else {
      ContinuationsLength(header, pieces[1..]);
    }
  }

  /** Which fragment stands where. */
  lemma {:induction false} ContinuationAt(header: Byte, pieces: seq<Data>, k: nat)
    requires k < |pieces|
    ensures |Continuations(header, pieces)| == |pieces|
    ensures Continuations(header, pieces)[k] == Fragment(header, if k == |pieces| - 1 then 64 else 0, pieces[k])
    decreases |pieces|
  {
    ContinuationsLength(header, pieces);
    if k == 0 {
    } else {
      ContinuationAt(header, pieces[1..], k - 1);
    }
  }

  /** An FU-A payload without the start bit, in sequence. */
  lemma Continued(st: State, payload: Data, buf: Data, seqNo: nat)
    requires |payload| >= 2 && Low5(payload[0]) == 28 && !Bit7(payload[1])
    requires st.fuBuf == Some(buf) && st.lastSeq.Some? && seqNo == NextSeq(st.lastSeq.value)
    ensures var (st1, out) := Step(st, Packet(seqNo, payload));
      && st1.lastSeq == Some(seqNo)
      && (Bit6(payload[1]) ==> st1.fuBuf.None? && out == [buf + payload[2..]])
      && (!Bit6(payload[1]) ==> st1.fuBuf == Some(buf + payload[2..]) && out == [])
  {
  }

  /** An FU-A payload with the start bit. */
  lemma Started(st: State, payload: Data, seqNo: nat)
    requires |payload| >= 2 && Low5(payload[0]) == 28 && Bit7(payload[1])
    ensures var (st1, out) := Step(st, Packet(seqNo, payload));
      && st1.lastSeq == Some(seqNo) && out == []
      && st1.fuBuf == Some([High3(payload[0]) + Low5(payload[1])] + payload[2..])
  {
  }

  lemma NextInSequence(n: int)
    ensures n % 0x1_0000 == NextSeq((n - 1) % 0x1_0000)
  {
  }

  /** A continuation that arrives in sequence. */
  lemma OpenStep(st: State, header: Byte, flags: Byte, buf: Data, piece: Data, n: int)
    requires flags == 0 || flags == 64
    requires st.fuBuf == Some(buf) && st.lastSeq == Some((n - 1) % 0x1_0000)
    ensures var (st1, out) := Step(st, Packet(n % 0x1_0000, Fragment(header, flags, piece)));
      && st1.lastSeq == Some(n % 0x1_0000)
      && (flags == 64 ==> st1.fuBuf.None? && out == [buf + piece])
      && (flags == 0 ==> st1.fuBuf == Some(buf + piece) && out == [])
  {
    HeaderBytes(header, flags, piece);
    NextInSequence(n);
    Continued(st, Fragment(header, flags, piece), buf, n % 0x1_0000);
  }

  /** The first fragment. */
  lemma StartStep(st: State, header: Byte, piece: Data, seqNo: nat)
    ensures var (st1, out) := Step(st, Packet(seqNo, Fragment(header, 128, piece)));
      st1.lastSeq == Some(seqNo) && st1.fuBuf == Some([header] + piece) && out == []
  {
    HeaderBytes(header, 128, piece);
    Started(st, Fragment(header, 128, piece), seqNo);
  }

  lemma {:induction false} FlatSnoc(pieces: seq<Data>, last: Data)
    ensures Flat(pieces + [last]) == Flat(pieces) + last
  {
    if pieces == [] {
      assert [last][1..] == [] && Flat([last]) == last + Flat([]);
      assert [] + [last] == [last];
    } else {
      assert (pieces + [last])[1..] == pieces[1..] + [last];
      FlatSnoc(pieces[1..], last);
      Slices.Assoc(pieces[0], Flat(pieces[1..]), last);
    }
  }

  // ---- aggregation packets ----

  lemma UnitBytes(nal: Data, rest: Data)
    requires |nal| < 0x1_0000
    ensures var bytes := EncodeUnit(nal) + rest;
      && U16(bytes[0], bytes[1]) == |nal| && bytes[2..2 + |nal|] == nal && bytes[2 + |nal|..] == rest
  {
  }

  /** One unit at the front of what remains. */
  lemma StapOne(payload: Data, i: nat, tail: Data, nal: Data)
    requires i <= |payload| && tail == payload[i..]
    requires |tail| >= 2 + |nal| && U16(tail[0], tail[1]) == |nal| && tail[2..2 + |nal|] == nal
    ensures StapUnits(payload, i) == [nal] + StapUnits(payload, i + 2 + |nal|)
    ensures payload[i + 2 + |nal|..] == tail[2 + |nal|..]
  {
    assert payload[i] == tail[0] && payload[i + 1] == tail[1];
    assert payload[i + 2..i + 2 + |nal|] == tail[2..2 + |nal|];
  }

  lemma FirstUnit(payload: Data, i: nat, nal: Data, rest: Data)
    requires i <= |payload| && |nal| < 0x1_0000 && payload[i..] == EncodeUnit(nal) + rest
    ensures i + 2 + |nal| <= |payload| && payload[i + 2 + |nal|..] == rest
    ensures StapUnits(payload, i) == [nal] + StapUnits(payload, i + 2 + |nal|)
  {
    UnitBytes(nal, rest);
    StapOne(payload, i, payload[i..], nal);
  }

  /** Splitting an aggregation packet undoes joining. */
  lemma {:induction false} UnitsRoundTrip(payload: Data, i: nat, nals: seq<Data>)
    requires i <= |payload| && forall k :: 0 <= k < |nals| ==> |nals[k]| < 0x1_0000
    requires payload[i..] == EncodeUnits(nals)
    ensures StapUnits(payload, i) == nals
    decreases |nals|
  {
    if nals == [] {
    } else {
      FirstUnit(payload, i, nals[0], EncodeUnits(nals[1..]));
      UnitsRoundTrip(payload, i + 2 + |nals[0]|, nals[1..]);
      Slices.HeadTail(nals);
    }
  }
}
