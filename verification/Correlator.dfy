/** Joining binary events with their attachments. */
module Correlator {
  import opened Wrappers
  import opened SocketIo
  import Slices

  type Bytes = seq<bv8>

  datatype Pending = Pending(name: string, expected: nat, received: map<nat, Bytes>)

  datatype Delivered =
    | TextEvent(name: string, args: seq<Json>)
    | BinaryEvent(name: string, attachments: seq<Bytes>)
    | Connected(auth: Option<string>)
    | Disconnected
    | Acked(id: nat, args: seq<Json>)

  datatype Error =
    | Parse(e: ParseError)
    | UnexpectedBinary
    | InterleavedText(received: nat, expected: nat)
    | TooManyBinaries(n: nat, expected: nat)

  type Answer = Result<Option<Delivered>, Error>

  function FeedText(p: Option<Pending>, frame: string): (Option<Pending>, Answer) {
    if p.Some? then (p, Err(InterleavedText(|p.value.received|, p.value.expected)))
    else match ParseText(frame)
      case Err(e) => (p, Err(Parse(e)))
      case Ok(Connect(auth)) => (p, Ok(Some(Connected(auth))))
      case Ok(Disconnect) => (p, Ok(Some(Disconnected)))
      case Ok(Event(_, name, args)) => (p, Ok(Some(TextEvent(name, args))))
      case Ok(Ack(id, args)) => (p, Ok(Some(Acked(id, args))))
      case Ok(BinaryEventHeader(n, _, name, _)) =>
        if n == 0 then (p, Ok(Some(BinaryEvent(name, [])))) else (Some(Pending(name, n, map[])), Ok(None))
  }

  /** Attachments i, i+1, ..., a missing one read as empty. */
  function Collected(received: map<nat, Bytes>, i: nat, n: nat): seq<Bytes>
    requires i <= n
    decreases n - i
  {
    if i == n then [] else [if i in received then received[i] else []] + Collected(received, i + 1, n)
  }

  function FeedBinary(p: Option<Pending>, payload: Bytes): (Option<Pending>, Answer) {
    if p.None? then (p, Err(UnexpectedBinary))
    else
      var next := |p.value.received|;
      if next >= p.value.expected then (p, Err(TooManyBinaries(next + 1, p.value.expected)))
      else
        var received := p.value.received[next := payload];
        if |received| == p.value.expected
        then (None, Ok(Some(BinaryEvent(p.value.name, Collected(received, 0, p.value.expected)))))
        else (Some(p.value.(received := received)), Ok(None))
  }

  class Correlator {
    var pending: Option<Pending>

    constructor ()
      ensures pending == None
    {
      pending := None;
    }

    method FeedTextFrame(frame: string) returns (r: Answer)
      modifies this
      ensures (pending, r) == FeedText(old(pending), frame)
    {
      if pending.Some? {
        return Err(InterleavedText(|pending.value.received|, pending.value.expected));
      }
      var packet := ParseText(frame);
      match packet {
        case Err(e) => r := Err(Parse(e));
        case Ok(Connect(auth)) => r := Ok(Some(Connected(auth)));
        case Ok(Disconnect) => r := Ok(Some(Disconnected));
        case Ok(Event(_, name, args)) => r := Ok(Some(TextEvent(name, args)));
        case Ok(Ack(id, args)) => r := Ok(Some(Acked(id, args)));
        case Ok(BinaryEventHeader(n, _, name, _)) =>
          if n == 0 {
            r := Ok(Some(BinaryEvent(name, [])));
          } else {
            pending := Some(Pending(name, n, map[]));
            r := Ok(None);
          }
      }
    }

    method FeedBinaryFrame(payload: Bytes) returns (r: Answer)
      modifies this
      ensures (pending, r) == FeedBinary(old(pending), payload)
    {
      if pending.None? {
        return Err(UnexpectedBinary);
      }
      var p := pending.value;
      var next := |p.received|;
      if next >= p.expected {
        return Err(TooManyBinaries(next + 1, p.expected));
      }
      p := p.(received := p.received[next := payload]);
      pending := Some(p);
      if |p.received| == p.expected {
        pending := None;
        var attachments := Collect(p);
        return Ok(Some(BinaryEvent(p.name, attachments)));
      }
      r := Ok(None);
    }

    static method Collect(p: Pending) returns (attachments: seq<Bytes>)
      ensures attachments == Collected(p.received, 0, p.expected)
    {
      attachments := [];
      for i := 0 to p.expected
        invariant attachments + Collected(p.received, i, p.expected) == Collected(p.received, 0, p.expected)
      {
        ghost var before := attachments;
        var next := if i in p.received then p.received[i] else [];
        attachments := attachments + [next];
        Slices.Assoc(before, [next], Collected(p.received, i + 1, p.expected));
      }
    }
  }

  // ---- any frames ----

  datatype Frame = Text(text: string) | Binary(payload: Bytes)

  function Feed(p: Option<Pending>, f: Frame): (Option<Pending>, Answer) {
    match f case Text(t) => FeedText(p, t) case Binary(b) => FeedBinary(p, b)
  }

  function FeedAll(p: Option<Pending>, fs: seq<Frame>): (Option<Pending>, seq<Answer>)
    decreases |fs|
  {
    if fs == [] then (p, [])
    else
      var (q, a) := Feed(p, fs[0]);
      var (r, more) := FeedAll(q, fs[1..]);
      (r, [a] + more)
  }

  /** The received attachments are numbered from 0 without a gap, and some are missing. */
  ghost predicate Sound(p: Option<Pending>) {
    p.Some? ==>
      && |p.value.received| < p.value.expected
      && forall k: nat :: k in p.value.received <==> k < |p.value.received|
  }

  predicate TooMany(a: Answer) { a.Err? && a.error.TooManyBinaries? }

  lemma FeedSound(p: Option<Pending>, f: Frame)
    requires Sound(p)
    ensures Sound(Feed(p, f).0) && !TooMany(Feed(p, f).1)
  {
    if p.Some? && f.Binary? {
      var next := |p.value.received|;
      var received := p.value.received[next := f.payload];
      assert received.Keys == p.value.received.Keys + {next};
      assert |received| == next + 1;
    }
  }

  /** Whatever arrives, TooManyBinaries is never the answer. */
  lemma {:induction false} NeverTooMany(p: Option<Pending>, fs: seq<Frame>)
    requires Sound(p)
    ensures Sound(FeedAll(p, fs).0)
    ensures forall k :: 0 <= k < |FeedAll(p, fs).1| ==> !TooMany(FeedAll(p, fs).1[k])
    decreases |fs|
  {
    if fs == [] {
    } else {
      FeedSound(p, fs[0]);
      NeverTooMany(Feed(p, fs[0]).0, fs[1..]);
    }
  }

  /** And the stand-in for a missing attachment is never used: an event is delivered by
      the frame that was missing, which becomes its last attachment, after all those
      received before it in their order. */
  lemma DeliversWhatWasReceived(p: Option<Pending>, payload: Bytes)
    requires Sound(p) && p.Some? && FeedBinary(p, payload).0.None?
    ensures |p.value.received| + 1 == p.value.expected
    ensures var r := FeedBinary(p, payload).1;
      && r.Ok? && r.value.Some? && r.value.value.BinaryEvent? && r.value.value.name == p.value.name
      && |r.value.value.attachments| == p.value.expected
      && r.value.value.attachments[|p.value.received|] == payload
      && forall i :: 0 <= i < |p.value.received| ==> r.value.value.attachments[i] == p.value.received[i]
  {
    var next := |p.value.received|;
    var received := p.value.received[next := payload];
    assert received.Keys == p.value.received.Keys + {next};
    CollectedAll(received, 0, next + 1);
  }

  lemma {:induction false} CollectedAll(r: map<nat, Bytes>, i: nat, n: nat)
    requires i <= n && forall k: nat :: k < n ==> k in r
    ensures |Collected(r, i, n)| == n - i
    ensures forall k :: 0 <= k < n - i ==> Collected(r, i, n)[k] == r[i + k]
    decreases n - i
  {
    if i == n {
    } else {
      CollectedAll(r, i + 1, n);
    }
  }

  // ---- events sent by encode_binary_event ----

  /** An event as a peer sends it: its header, then its attachments, each preceded by
      stray text frames that the correlator has to reject. */
  datatype Sent = Sent(name: string, attachments: seq<Bytes>, ack: Option<nat>, stray: seq<seq<string>>)

  predicate Sendable(e: Sent) {
    && |e.attachments| <= U32_MAX && (e.ack.Some? ==> e.ack.value <= U64_MAX)
    && |e.stray| == |e.attachments|
  }

  function Texts(ts: seq<string>): seq<Frame> {
    if ts == [] then [] else [Text(ts[0])] + Texts(ts[1..])
  }

  function AttachmentFrames(atts: seq<Bytes>, stray: seq<seq<string>>): seq<Frame>
    requires |atts| == |stray|
  {
    if atts == [] then [] else Texts(stray[0]) + [Binary(atts[0])] + AttachmentFrames(atts[1..], stray[1..])
  }

  function Frames(e: Sent): seq<Frame>
    requires Sendable(e)
  {
    [Text(EncodeBinaryEvent(e.name, |e.attachments|, e.ack))] + AttachmentFrames(e.attachments, e.stray)
  }

  function AllFrames(es: seq<Sent>): seq<Frame>
    requires forall k :: 0 <= k < |es| ==> Sendable(es[k])
  {
    if es == [] then [] else Frames(es[0]) + AllFrames(es[1..])
  }

  /** The event one answer delivers. */
  function EventOf(a: Answer): seq<Delivered> { if a.Ok? && a.value.Some? then [a.value.value] else [] }

  /** The events among the answers. */
  function Events(answers: seq<Answer>): seq<Delivered> {
    if answers == [] then []
    else EventOf(answers[0]) + Events(answers[1..])
  }

  function Delivers(p: Option<Pending>, fs: seq<Frame>): seq<Delivered> { Events(FeedAll(p, fs).1) }

  lemma DeliversFirst(p: Option<Pending>, fs: seq<Frame>)
    requires fs != []
    ensures var (q, a) := Feed(p, fs[0]);
      && FeedAll(p, fs).0 == FeedAll(q, fs[1..]).0
      && Delivers(p, fs) == EventOf(a) + Delivers(q, fs[1..])
  {
    var (q, a) := Feed(p, fs[0]);
    var (_, more) := FeedAll(q, fs[1..]);
    assert ([a] + more)[1..] == more;
  }

  lemma {:induction false} FeedAppend(p: Option<Pending>, xs: seq<Frame>, ys: seq<Frame>)
    ensures var q := FeedAll(p, xs).0;
      && FeedAll(p, xs + ys).0 == FeedAll(q, ys).0
      && Delivers(p, xs + ys) == Delivers(p, xs) + Delivers(q, ys)
    decreases |xs|
  {
    if xs == [] {
      assert xs + ys == ys;
    } else {
      assert (xs + ys)[1..] == xs[1..] + ys;
      var (q, a) := Feed(p, xs[0]);
      DeliversFirst(p, xs + ys);
      DeliversFirst(p, xs);
      FeedAppend(q, xs[1..], ys);
      Slices.Assoc(EventOf(a), Delivers(q, xs[1..]), Delivers(FeedAll(p, xs).0, ys));
    }
  }

  /** Text in mid-event is rejected and changes nothing. */
  lemma {:induction false} StrayTextIgnored(p: Option<Pending>, ts: seq<string>)
    requires p.Some?
    ensures FeedAll(p, Texts(ts)).0 == p && Delivers(p, Texts(ts)) == []
    decreases |ts|
  {
    if ts == [] {
    } else {
      StrayTextIgnored(p, ts[1..]);
      assert Texts(ts)[1..] == Texts(ts[1..]);
      var (q, a) := Feed(p, Text(ts[0]));
      var (_, more) := FeedAll(q, Texts(ts[1..]));
      assert ([a] + more)[1..] == more;
    }
  }

  function Numbered(atts: seq<Bytes>): map<nat, Bytes> {
    map i: nat | 0 <= i < |atts| :: atts[i]
  }

  lemma {:induction false} NumberedSnoc(got: seq<Bytes>, a: Bytes)
    ensures |Numbered(got)| == |got| && Numbered(got)[|got| := a] == Numbered(got + [a])
  {
    if got != [] {
      var before := got[..|got| - 1];
      NumberedSnoc(before, got[|got| - 1]);
      assert got == before + [got[|got| - 1]];
      assert Numbered(got).Keys == Numbered(before).Keys + {|before|};
    } else {
      assert Numbered(got) == map[];
    }
  }

  lemma OneAttachment(name: string, got: seq<Bytes>, a: Bytes, expected: nat)
    requires |got| < expected
    ensures Feed(Some(Pending(name, expected, Numbered(got))), Binary(a)) ==
      if |got| + 1 == expected then (None, Ok(Some(BinaryEvent(name, got + [a]))))
      else (Some(Pending(name, expected, Numbered(got + [a]))), Ok(None))
  {
    NumberedSnoc(got, a);
    NumberedSnoc(got + [a], a);
    if |got| + 1 == expected {
      CollectedAll(Numbered(got + [a]), 0, expected);
      assert Collected(Numbered(got + [a]), 0, expected) == got + [a];
    }
  }

  lemma FirstFrame(p: Option<Pending>, f: Frame, rest: seq<Frame>)
    ensures var (q, a) := Feed(p, f);
      FeedAll(p, [f] + rest).0 == FeedAll(q, rest).0 && Delivers(p, [f] + rest) == EventOf(a) + Delivers(q, rest)
  {
    assert ([f] + rest)[1..] == rest;
    DeliversFirst(p, [f] + rest);
  }

  /** One attachment behind its stray text. */
  lemma OneDelivered(p: Option<Pending>, ts: seq<string>, payload: Bytes, rest: seq<Frame>)
    requires p.Some?
    ensures var (q, a) := Feed(p, Binary(payload));
      var fs := Texts(ts) + [Binary(payload)] + rest;
      FeedAll(p, fs).0 == FeedAll(q, rest).0 && Delivers(p, fs) == EventOf(a) + Delivers(q, rest)
  {
    StrayTextIgnored(p, ts);
    Slices.Assoc(Texts(ts), [Binary(payload)], rest);
    FeedAppend(p, Texts(ts), [Binary(payload)] + rest);
    FirstFrame(p, Binary(payload), rest);
  }

  lemma {:induction false} AttachmentsDeliver(name: string, got: seq<Bytes>, atts: seq<Bytes>, stray: seq<seq<string>>)
    requires |atts| == |stray| > 0
    ensures var p := Some(Pending(name, |got| + |atts|, Numbered(got)));
      && FeedAll(p, AttachmentFrames(atts, stray)).0 == None
      && Delivers(p, AttachmentFrames(atts, stray)) == [BinaryEvent(name, got + atts)]
    decreases |atts|
  {
    var n := |got| + |atts|;
    var p := Some(Pending(name, n, Numbered(got)));
    var rest := AttachmentFrames(atts[1..], stray[1..]);
    assert AttachmentFrames(atts, stray) == Texts(stray[0]) + [Binary(atts[0])] + rest;
    OneDelivered(p, stray[0], atts[0], rest);
    OneAttachment(name, got, atts[0], n);
    if |atts| == 1 {
      assert rest == [] && atts == [atts[0]];
      assert FeedAll(None, []) == (None, []) && Delivers(None, []) == [];
    } else {
      AttachmentsDeliver(name, got + [atts[0]], atts[1..], stray[1..]);
      assert got + [atts[0]] + atts[1..] == got + atts;
    }
  }

  lemma HeaderOnly(frame: string, name: string, n: nat, ack: Option<nat>, nums: seq<nat>)
    requires ParseText(frame) == Ok(BinaryEventHeader(n, ack, name, nums))
    ensures FeedText(None, frame) ==
      if n == 0 then (None, Ok(Some(BinaryEvent(name, [])))) else (Some(Pending(name, n, map[])), Ok(None))
  {
  }

  /** A header leaves its event pending, or delivers it if there is nothing to wait for. */
  lemma HeaderFed(name: string, n: nat, ack: Option<nat>)
    requires n <= U32_MAX && (ack.Some? ==> ack.value <= U64_MAX)
    ensures Feed(None, Text(EncodeBinaryEvent(name, n, ack))) ==
      if n == 0 then (None, Ok(Some(BinaryEvent(name, [])))) else (Some(Pending(name, n, map[])), Ok(None))
  {
    HeaderRoundTrip(name, n, ack);
    HeaderOnly(EncodeBinaryEvent(name, n, ack), name, n, ack, UpTo(0, n));
  }

  lemma EmptyDelivers(e: Sent)
    requires Sendable(e) && e.attachments == []
    ensures FeedAll(None, Frames(e)).0 == None && Delivers(None, Frames(e)) == [BinaryEvent(e.name, [])]
  {
    HeaderFed(e.name, 0, e.ack);
    FirstFrame(None, Text(EncodeBinaryEvent(e.name, 0, e.ack)), []);
    assert FeedAll(None, []) == (None, []) && Delivers(None, []) == [];
  }

  lemma FullDelivers(e: Sent)
    requires Sendable(e) && e.attachments != []
    ensures FeedAll(None, Frames(e)).0 == None && Delivers(None, Frames(e)) == [BinaryEvent(e.name, e.attachments)]
  {
    var n := |e.attachments|;
    HeaderFed(e.name, n, e.ack);
    FirstFrame(None, Text(EncodeBinaryEvent(e.name, n, e.ack)), AttachmentFrames(e.attachments, e.stray));
    assert Numbered([]) == map[];
    AttachmentsDeliver(e.name, [], e.attachments, e.stray);
    assert [] + e.attachments == e.attachments;
  }

  lemma EventDelivers(e: Sent)
    requires Sendable(e)
    ensures FeedAll(None, Frames(e)).0 == None && Delivers(None, Frames(e)) == [BinaryEvent(e.name, e.attachments)]
  {
    if e.attachments == [] { EmptyDelivers(e); } else { FullDelivers(e); }
  }

  /** Everything sent is delivered: the same events in the same order, each with its
      attachments in order, and nothing else. */
  lemma {:induction false} EventsRoundTrip(es: seq<Sent>)
    requires forall k :: 0 <= k < |es| ==> Sendable(es[k])
    ensures FeedAll(None, AllFrames(es)).0 == None
    ensures |Delivers(None, AllFrames(es))| == |es|
    ensures forall k :: 0 <= k < |es| ==> Delivers(None, AllFrames(es))[k] == BinaryEvent(es[k].name, es[k].attachments)
  {
    if es == [] {
    } else {
      EventDelivers(es[0]);
      EventsRoundTrip(es[1..]);
      FeedAppend(None, Frames(es[0]), AllFrames(es[1..]));
    }
  }
}
