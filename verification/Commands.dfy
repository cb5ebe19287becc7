/** Camera commands as protocol-buffer messages, written by hand in the source, against a
    decoder of the wire format. */
module Commands {
  import opened Bytes
  import opened Slices
  import opened Wrappers

  const TWO_32: nat := 0x1_0000_0000
  const TWO_64: nat := 0x1_0000_0000_0000_0000
  const MAX_FIELD: nat := 0x1FFF_FFFF

  type U32 = x: int | 0 <= x < TWO_32
  type U64 = x: int | 0 <= x < TWO_64

  // ---- the wire format: how a message is read ----

  datatype Field =
    | Number(num: nat, value: nat)
    | Len(num: nat, payload: Data)
    | Fixed(num: nat, bytes: Data)

  /** Seven bits a byte, low bits first, in at most `budget` bytes; the value and what follows. */
  function ReadVarint(s: Data, budget: nat): (r: Option<(nat, Data)>)
    ensures r.Some? ==> |r.value.1| < |s|
  {
    if s == [] || budget == 0 then None
    else if !Bit7(s[0]) then Some((s[0], s[1..]))
    else match ReadVarint(s[1..], budget - 1)
      case None => None
      case Some((v, rest)) => Some((s[0] - 128 + 128 * v, rest))
  }

  /** A varint of the wire: at most ten bytes and 64 bits. */
  function DecodeVarint(s: Data): (r: Option<(U64, Data)>)
    ensures r.Some? ==> |r.value.1| < |s|
  {
    match ReadVarint(s, 10)
    case None => None
    case Some((v, rest)) => if v < TWO_64 then Some((v, rest)) else None
  }

  function Take(num: nat, n: nat, s: Data, asLen: bool): (r: Option<(Field, Data)>)
    ensures r.Some? ==> |r.value.1| <= |s|
  {
    if n > |s| then None
    else Some((if asLen then Len(num, s[..n]) else Fixed(num, s[..n]), s[n..]))
  }

  /** One field: its tag, which is number * 8 + wire type, and its value. */
  function DecodeField(s: Data): (r: Option<(Field, Data)>)
    ensures r.Some? ==> |r.value.1| < |s|
  {
    match DecodeVarint(s)
    case None => None
    case Some((tag, rest)) =>
      var num, wire := tag / 8, tag % 8;
      if num == 0 || num > MAX_FIELD then None
      else if wire == 0 then
        match DecodeVarint(rest) case None => None case Some((v, after)) => Some((Number(num, v), after))
      else if wire == 2 then
        match DecodeVarint(rest) case None => None case Some((n, after)) => Take(num, n, after, true)
      else if wire == 1 then Take(num, 8, rest, false)
      else if wire == 5 then Take(num, 4, rest, false)
      else None
  }

  function Decode(s: Data): Option<seq<Field>>
    decreases |s|
  {
    if s == [] then Some([])
    else match DecodeField(s)
      case None => None
      case Some((f, rest)) =>
        match Decode(rest) case None => None case Some(fs) => Some([f] + fs)
  }

  // ---- what the encoders write ----

  function Varint(v: nat): Data {
    if v < 128 then [v] else [v % 128 + 128] + Varint(v / 128)
  }

  function Tag(num: nat, wire: nat): nat { num * 8 + wire }

  function NumberField(num: nat, v: nat): Data { Varint(Tag(num, 0)) + Varint(v) }

  function LenField(num: nat, payload: Data): Data { Varint(Tag(num, 2)) + Varint(|payload|) + payload }

  /** The tag is shifted in 32 bits. */
  function CameraTrigger(fieldNum: U32, token: Data): Data {
    Varint(fieldNum * 8 % TWO_32) + Varint(1) + Varint(Tag(11, 2)) + Varint(|token|) + token
  }

  function SetMode(mode: U32, token: Data): Data {
    var sub := NumberField(4, mode);
    Varint(Tag(3, 2)) + Varint(|sub|) + sub + Varint(Tag(6, 2)) + Varint(|token|) + token
  }

  function SetQuality(quality: U32, token: Data): Data {
    var sub := NumberField(1, quality);
    Varint(Tag(4, 2)) + Varint(0) + Varint(Tag(6, 2)) + Varint(|token|) + token
      + Varint(Tag(8, 2)) + Varint(|sub|) + sub
  }

  /** The byte vector the encoders extend in place. */
  class Buffer {
    var bytes: Data

    constructor ()
      ensures bytes == []
    {
      bytes := [];
    }

    method Extend(more: Data)
      modifies this
      ensures bytes == old(bytes) + more
    {
      bytes := bytes + more;
    }

    method EncodeVarint(v: U64)
      modifies this
      ensures bytes == old(bytes) + Varint(v)
    {
      var value: nat := v;
      while value >= 0x80
        invariant bytes + Varint(value) == old(bytes) + Varint(v)
      {
        ghost var before := bytes;
        bytes := bytes + [Or80(value % 256)];
        assert Varint(value) == [value % 128 + 128] + Varint(value / 128);
        assert before + Varint(value) == bytes + Varint(value / 128);
        value := value / 128;
      }
      bytes := bytes + [value];
    }
  }

  // ---- varints ----

  /** Every 64-bit value is read back, and nothing after it is touched. */
  lemma {:induction false} VarintReads(v: nat, rest: Data, budget: nat)
    requires |Varint(v)| <= budget
    ensures ReadVarint(Varint(v) + rest, budget) == Some((v, rest))
  {
    var s := Varint(v) + rest;
    if v < 128 {
      assert s[1..] == rest;
    } else {
      assert s[1..] == Varint(v / 128) + rest;
      VarintReads(v / 128, rest, budget - 1);
    }
  }

  function Pow128(k: nat): nat { if k == 0 then 1 else 128 * Pow128(k - 1) }

  /** A varint has k bytes exactly if its value needs k groups of seven bits. */
  lemma {:induction false} VarintLength(v: nat, k: nat)
    requires k > 0
    ensures |Varint(v)| <= k <==> v < Pow128(k)
    decreases k
  {
    if v < 128 {
      PowPositive(k - 1);
    } else if k > 1 {
      VarintLength(v / 128, k - 1);
    } else {
      assert Pow128(1) == 128 * Pow128(0);
    }
  }

  lemma {:induction false} PowPositive(k: nat)
    ensures Pow128(k) >= 1
  {
    if k == 0 {
    } else {
      PowPositive(k - 1);
    }
  }

  lemma TenBytes(v: U64)
    ensures |Varint(v)| <= 10
  {
    PowTen();
    VarintLength(v, 10);
  }

  lemma PowTen()
    ensures Pow128(10) == 64 * TWO_64
  {
    assert Pow128(2) == 0x4000;
    assert Pow128(4) == 0x1000_0000;
    assert Pow128(6) == 0x400_0000_0000;
    assert Pow128(8) == 0x100_0000_0000_0000;
  }

  lemma VarintRoundTrip(v: U64, rest: Data)
    ensures |Varint(v)| <= 10 && DecodeVarint(Varint(v) + rest) == Some((v, rest))
  {
    TenBytes(v);
    VarintReads(v, rest, 10);
  }

  /** No other bytes that read as `v` are as short. */
  lemma {:induction false} VarintMinimal(s: Data, budget: nat)
    requires ReadVarint(s, budget).Some?
    ensures var (v, rest) := ReadVarint(s, budget).value;
      s == Varint(v) + rest || |s| - |rest| > |Varint(v)|
  {
    if !Bit7(s[0]) {
    } else {
      VarintMinimal(s[1..], budget - 1);
      var (high, rest) := ReadVarint(s[1..], budget - 1).value;
      var v := s[0] - 128 + 128 * high;
      if high == 0 {
        assert Varint(v) == [v];
      } else {
        assert v / 128 == high && v % 128 == s[0] - 128;
        assert Varint(v) == [s[0]] + Varint(high);
        if s[1..] == Varint(high) + rest {
          assert s == [s[0]] + s[1..];
          assert [s[0]] + (Varint(high) + rest) == Varint(v) + rest;
        }
      }
    }
  }

  // ---- messages ----

  predicate Writable(f: Field) {
    && 1 <= f.num <= MAX_FIELD
    && match f
       case Number(_, v) => v < TWO_64
       case Len(_, payload) => |payload| < TWO_64
       case Fixed(_, bytes) => |bytes| == 4 || |bytes| == 8
  }

  function Written(f: Field): Data {
    match f
    case Number(num, v) => NumberField(num, v)
    case Len(num, payload) => LenField(num, payload)
    case Fixed(num, bytes) => Varint(Tag(num, if |bytes| == 8 then 1 else 5)) + bytes
  }

  function Message(fs: seq<Field>): Data {
    if fs == [] then [] else Written(fs[0]) + Message(fs[1..])
  }

  lemma NumberDecodes(num: nat, v: nat, rest: Data)
    requires Writable(Number(num, v))
    ensures DecodeField(NumberField(num, v) + rest) == Some((Number(num, v), rest))
  {
    VarintRoundTrip(Tag(num, 0), Varint(v) + rest);
    VarintRoundTrip(v, rest);
    Assoc(Varint(Tag(num, 0)), Varint(v), rest);
  }

  lemma TakeExact(num: nat, bytes: Data, rest: Data, asLen: bool)
    ensures Take(num, |bytes|, bytes + rest, asLen) == Some((if asLen then Len(num, bytes) else Fixed(num, bytes), rest))
  {
    assert (bytes + rest)[..|bytes|] == bytes && (bytes + rest)[|bytes|..] == rest;
  }

  lemma LenDecodes(num: nat, payload: Data, rest: Data)
    requires Writable(Len(num, payload))
    ensures DecodeField(LenField(num, payload) + rest) == Some((Len(num, payload), rest))
  {
    var after := payload + rest;
    VarintRoundTrip(Tag(num, 2), Varint(|payload|) + after);
    VarintRoundTrip(|payload|, after);
    Assoc4(Varint(Tag(num, 2)), Varint(|payload|), payload, rest);
    TakeExact(num, payload, rest, true);
  }

  lemma FixedDecodes(num: nat, bytes: Data, rest: Data)
    requires Writable(Fixed(num, bytes))
    ensures DecodeField(Written(Fixed(num, bytes)) + rest) == Some((Fixed(num, bytes), rest))
  {
    var tag, after := Tag(num, if |bytes| == 8 then 1 else 5), bytes + rest;
    VarintRoundTrip(tag, after);
    Assoc(Varint(tag), bytes, rest);
    TakeExact(num, bytes, rest, false);
  }

  lemma FieldDecodes(f: Field, rest: Data)
    requires Writable(f)
    ensures DecodeField(Written(f) + rest) == Some((f, rest))
  {
    match f
    case Number(num, v) => NumberDecodes(num, v, rest);
    case Len(num, payload) => LenDecodes(num, payload, rest);
    case Fixed(num, bytes) => FixedDecodes(num, bytes, rest);
  }

  /** Every list of fields is read back as it was written. */
  lemma {:induction false} MessageRoundTrip(fs: seq<Field>)
    requires forall k :: 0 <= k < |fs| ==> Writable(fs[k])
    ensures Decode(Message(fs)) == Some(fs)
  {
    if fs == [] {
    } else {
      var rest := Message(fs[1..]);
      FieldDecodes(fs[0], rest);
      MessageRoundTrip(fs[1..]);
      assert fs == [fs[0]] + fs[1..];
    }
  }

  lemma MessageOf(a: Field, b: Field, c: Field)
    ensures Message([a]) == Written(a)
    ensures Message([a, b]) == Written(a) + Written(b)
    ensures Message([a, b, c]) == Written(a) + Written(b) + Written(c)
  {
    assert [a][1..] == [] && [a, b][1..] == [b] && [b][1..] == [] && [a, b, c][1..] == [b, c] && [b, c][1..] == [c];
    assert [c][1..] == [] && Message([c]) == Written(c) && Message([b, c]) == Written(b) + Written(c);
    Assoc(Written(a), Written(b), Written(c));
  }

  lemma SubMessage(num: nat, v: U32)
    requires 1 <= num <= MAX_FIELD
    ensures Decode(NumberField(num, v)) == Some([Number(num, v)])
  {
    MessageRoundTrip([Number(num, v)]);
    MessageOf(Number(num, v), Number(num, v), Number(num, v));
  }

  /** A message whose only field is a number is short enough to be embedded. */
  lemma SubMessageShort(num: nat, v: U32)
    requires 1 <= num <= MAX_FIELD
    ensures |NumberField(num, v)| <= 20
  {
    TenBytes(Tag(num, 0));
    TenBytes(v);
  }

  /** The tag keeps the low 29 bits of the field number. */
  lemma TriggerIs(fieldNum: U32, token: Data)
    requires |token| < TWO_64
    ensures CameraTrigger(fieldNum, token) == Varint(fieldNum % (MAX_FIELD + 1) * 8) + (Varint(1) + LenField(11, token))
  {
    assert fieldNum * 8 % TWO_32 == fieldNum % (MAX_FIELD + 1) * 8;
    Assoc4(Varint(Tag(fieldNum, 0)), Varint(1), Varint(Tag(11, 2)) + Varint(|token|), token);
  }

  /** For every 32-bit field number, and no decoder accepts the message if those are zero. */
  lemma TriggerDecodes(fieldNum: U32, token: Data)
    requires |token| < TWO_64
    ensures var low := fieldNum % (MAX_FIELD + 1);
      Decode(CameraTrigger(fieldNum, token)) == if low == 0 then None else Some([Number(low, 1), Len(11, token)])
  {
    var low := fieldNum % (MAX_FIELD + 1);
    TriggerIs(fieldNum, token);
    if low == 0 {
      VarintRoundTrip(0, Varint(1) + LenField(11, token));
    } else {
      MessageRoundTrip([Number(low, 1), Len(11, token)]);
      MessageOf(Number(low, 1), Len(11, token), Len(11, token));
      Assoc(Varint(low * 8), Varint(1), LenField(11, token));
    }
  }

  /** The trigger means what the caller asked for exactly if the field number fits 29 bits. */
  lemma TriggerFaithfulIff(fieldNum: U32, token: Data)
    requires |token| < TWO_64
    ensures Decode(CameraTrigger(fieldNum, token)) == Some([Number(fieldNum, 1), Len(11, token)]) <==>
      1 <= fieldNum <= MAX_FIELD
  {
    TriggerDecodes(fieldNum, token);
    var low := fieldNum % (MAX_FIELD + 1);
    assert [Number(low, 1), Len(11, token)][0] == Number(low, 1);
    assert [Number(fieldNum, 1), Len(11, token)][0] == Number(fieldNum, 1);
  }

  lemma SetModeDecodes(mode: U32, token: Data)
    requires |token| < TWO_64
    ensures var sub := NumberField(4, mode);
      && Decode(SetMode(mode, token)) == Some([Len(3, sub), Len(6, token)])
      && Decode(sub) == Some([Number(4, mode)])
  {
    var sub := NumberField(4, mode);
    SubMessage(4, mode);
    SubMessageShort(4, mode);
    MessageRoundTrip([Len(3, sub), Len(6, token)]);
    MessageOf(Len(3, sub), Len(6, token), Len(6, token));
    Assoc4(LenField(3, sub), Varint(Tag(6, 2)), Varint(|token|), token);
  }

  lemma SetQualityDecodes(quality: U32, token: Data)
    requires |token| < TWO_64
    ensures var sub := NumberField(1, quality);
      && Decode(SetQuality(quality, token)) == Some([Len(4, []), Len(6, token), Len(8, sub)])
      && Decode(sub) == Some([Number(1, quality)])
  {
    var sub := NumberField(1, quality);
    SubMessage(1, quality);
    SubMessageShort(1, quality);
    MessageRoundTrip([Len(4, []), Len(6, token), Len(8, sub)]);
    MessageOf(Len(4, []), Len(6, token), Len(8, sub));
    var four, six := LenField(4, []), LenField(6, token);
    assert four == Varint(Tag(4, 2)) + Varint(0);
    Assoc4(four, Varint(Tag(6, 2)), Varint(|token|), token);
    Assoc4(four + six, Varint(Tag(8, 2)), Varint(|sub|), sub);
  }

  // ---- the encoders ----

  method EncodeCameraTrigger(fieldNum: U32, token: Data) returns (out: Data)
    requires |token| < TWO_64
    ensures out == CameraTrigger(fieldNum, token)
  {
    var buf := new Buffer();
    var tag := fieldNum * 8 % TWO_32;
    buf.EncodeVarint(tag);
    buf.EncodeVarint(1);
    buf.EncodeVarint(Tag(11, 2));
    buf.EncodeVarint(|token|);
    buf.Extend(token);
    out := buf.bytes;
  }

  method EncodeSetMode(mode: U32, token: Data) returns (out: Data)
    requires |token| < TWO_64
    ensures out == SetMode(mode, token)
  {
    var sub := new Buffer();
    sub.EncodeVarint(Tag(4, 0));
    sub.EncodeVarint(mode);
    var payload := sub.bytes;
    assert payload == NumberField(4, mode);
    SubMessageShort(4, mode);
    var buf := new Buffer();
    buf.EncodeVarint(Tag(3, 2));
    buf.EncodeVarint(|payload|);
    buf.Extend(payload);
    buf.EncodeVarint(Tag(6, 2));
    buf.EncodeVarint(|token|);
    buf.Extend(token);
    out := buf.bytes;
  }

  method EncodeSetQuality(quality: U32, token: Data) returns (out: Data)
    requires |token| < TWO_64
    ensures out == SetQuality(quality, token)
  {
    var sub := new Buffer();
    sub.EncodeVarint(Tag(1, 0));
    sub.EncodeVarint(quality);
    SubMessageShort(1, quality);
    var buf := new Buffer();
    buf.EncodeVarint(Tag(4, 2));
    buf.EncodeVarint(0);
    buf.EncodeVarint(Tag(6, 2));
    buf.EncodeVarint(|token|);
    buf.Extend(token);
    buf.EncodeVarint(Tag(8, 2));
    buf.EncodeVarint(|sub.bytes|);
    buf.Extend(sub.bytes);
    out := buf.bytes;
  }
}
