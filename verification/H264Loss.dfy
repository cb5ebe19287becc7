/** What the reassembler makes of a sender's packets when some of them are lost. */
module H264Loss {
  import opened Wrappers
  import opened Bytes
  import opened H264
  import opened H264Sender
  import opened H264Garbage
  import opened Lists
  import Slices

  /** The last packet seen was number `a`, the next one sent is `n`: no packet arrives
      right after a run of lost packets whose length is a positive multiple of 2^16. */
  predicate NoWrappingGap(a: int, n: int, arrived: seq<bool>)
    decreases |arrived|
  {
    if arrived == [] then true
    else if arrived[0] then (n - 1 - a > 0 ==> (n - 1 - a) % 0x1_0000 != 0) && NoWrappingGap(n, n + 1, arrived[1..])
    else NoWrappingGap(a, n + 1, arrived[1..])
  }

  function LastSeen(a: int, n: int, arrived: seq<bool>): int
    decreases |arrived|
  {
    if arrived == [] then a else LastSeen(if arrived[0] then n else a, n + 1, arrived[1..])
  }

  /** If a unit is pending, the last packet the reassembler saw was number `a`. */
  predicate Saw(st: State, a: int) {
    st.fuBuf.Some? ==> st.lastSeq == Some(a % 0x1_0000)
  }

  // ---- a stream with losses, packet by packet ----

  /** A numbered stream, which of its packets arrive, and the reassembler in front of it. */
  datatype Stream = Stream(st: State, a: int, n: int, ps: seq<Packet>, arrived: seq<bool>)

  predicate Fits(x: Stream) {
    && |x.ps| == |x.arrived| && x.a < x.n && Saw(x.st, x.a)
    && forall k :: 0 <= k < |x.ps| ==> x.ps[k].payload != [] && x.ps[k].seqNo == (x.n + k) % 0x1_0000
  }

  /** The state in front of packet `k`. */
  function StateAt(x: Stream, k: nat): State
    requires Fits(x) && k <= |x.ps|
  {
    Final(x.st, Deliver(x.ps[..k], x.arrived[..k]))
  }

  /** What packet `k` puts out. */
  function OutAt(x: Stream, k: nat): seq<Data>
    requires Fits(x) && k < |x.ps|
  {
    if x.arrived[k] then Step(StateAt(x, k), x.ps[k]).1 else []
  }

  /** The number of the last packet seen before packet `k`. */
  function Seen(x: Stream, k: nat): int
    requires Fits(x) && k <= |x.ps|
  {
    LastSeen(x.a, x.n, x.arrived[..k])
  }

  /** Packet `k` has the number the reassembler expects next, modulo 2^16. */
  predicate Follows(x: Stream, k: nat)
    requires Fits(x) && k <= |x.ps|
  {
    (x.n + k - Seen(x, k)) % 0x1_0000 == 1
  }

  /** Something is pending from `i` on: an arrived start fragment, or, for -1, what was
      pending before the stream. */
  predicate Opens(x: Stream, i: int)
    requires Fits(x)
  {
    if i == -1 then x.st.fuBuf.Some? else 0 <= i < |x.ps| && x.arrived[i] && Starts(x.ps[i])
  }

  /** Between `i` and `k` nothing that arrived starts or ends a unit or breaks the sequence. */
  predicate Carries(x: Stream, i: int, k: nat)
    requires Fits(x) && k <= |x.ps|
  {
    forall m: nat :: i < m < k && x.arrived[m] ==> !Starts(x.ps[m]) && !Ends(x.ps[m]) && Follows(x, m)
  }

  predicate LostBetween(x: Stream, i: int, j: nat)
    requires Fits(x) && j <= |x.ps|
  {
    exists m: nat :: i < m < j && !x.arrived[m]
  }

  /** The end fragment `j` is joined to what `i` opened although packets between were lost:
      every lost run is then so long that the numbers wrap around it. */
  predicate Splice(x: Stream, i: int, j: nat)
    requires Fits(x)
  {
    && -1 <= i < j < |x.ps| && Opens(x, i) && Carries(x, i, j)
    && x.arrived[j] && Ends(x.ps[j]) && Follows(x, j) && LostBetween(x, i, j)
  }

  ghost predicate Spliced(x: Stream, j: nat)
    requires Fits(x)
  {
    exists i: int :: Splice(x, i, j)
  }

  lemma {:induction false} SeenSnoc(a: int, n: int, bs: seq<bool>, b: bool)
    ensures LastSeen(a, n, bs + [b]) == if b then n + |bs| else LastSeen(a, n, bs)
    decreases |bs|
  {
    if bs == [] {
      assert [] + [b] == [b] && [b][1..] == [];
    } else {
      assert (bs + [b])[1..] == bs[1..] + [b];
      SeenSnoc(if bs[0] then n else a, n + 1, bs[1..], b);
    }
  }

  lemma SeenNext(x: Stream, k: nat)
    requires Fits(x) && k < |x.ps|
    ensures Seen(x, k + 1) == if x.arrived[k] then x.n + k else Seen(x, k)
  {
    Slices.TakeNext(x.arrived, k);
    SeenSnoc(x.a, x.n, x.arrived[..k], x.arrived[k]);
  }

  lemma StateNext(x: Stream, k: nat)
    requires Fits(x) && k < |x.ps|
    ensures StateAt(x, k + 1) == if x.arrived[k] then Step(StateAt(x, k), x.ps[k]).0 else StateAt(x, k)
    ensures Output(x.st, Deliver(x.ps[..k + 1], x.arrived[..k + 1])) ==
      Output(x.st, Deliver(x.ps[..k], x.arrived[..k])) + OutAt(x, k)
  {
    var before, out := Deliver(x.ps[..k], x.arrived[..k]), Output(x.st, Deliver(x.ps[..k], x.arrived[..k]));
    Slices.TakeNext(x.ps, k);
    Slices.TakeNext(x.arrived, k);
    DeliverAppend(x.ps[..k], [x.ps[k]], x.arrived[..k], [x.arrived[k]]);
    DeliverOne(x.ps[k], x.arrived[k]);
    if x.arrived[k] {
      RunSnoc(x.st, before, x.ps[k]);
    } else {
      assert before + [] == before && out + [] == out;
    }
  }

  lemma DeliverOne(p: Packet, b: bool)
    ensures Deliver([p], [b]) == if b then [p] else []
  {
    assert [p][1..] == [] && [b][1..] == [];
    assert [p] + [] == [p];
  }

  // ---- what is pending ----

  /** While a unit is pending, the reassembler knows the last number seen. */
  lemma {:induction false} SawAlong(x: Stream, k: nat)
    requires Fits(x) && k <= |x.ps|
    ensures Saw(StateAt(x, k), Seen(x, k))
  {
    if k == 0 {
      assert Deliver(x.ps[..0], x.arrived[..0]) == [];
    } else {
      SawAlong(x, k - 1);
      StateNext(x, k - 1);
      SeenNext(x, k - 1);
    }
  }

  /** And packet `k` continues it if and only if it follows. */
  lemma KeptIff(x: Stream, k: nat)
    requires Fits(x) && k < |x.ps|
    ensures Kept(StateAt(x, k), x.ps[k]).Some? <==> StateAt(x, k).fuBuf.Some? && Follows(x, k)
  {
    SawAlong(x, k);
    if StateAt(x, k).fuBuf.Some? { SameNumber(x.n + k, Seen(x, k)); }
  }

  lemma SameNumber(m: int, last: int)
    ensures m % 0x1_0000 == NextSeq(last % 0x1_0000) <==> (m - last) % 0x1_0000 == 1
  {
  }

  ghost predicate Pends(x: Stream, k: nat)
    requires Fits(x) && k <= |x.ps|
  {
    exists i: int :: -1 <= i < k && Opens(x, i) && Carries(x, i, k)
  }

  lemma CarriesNext(x: Stream, i: int, k: nat)
    requires Fits(x) && k < |x.ps| && i < k
    ensures Carries(x, i, k + 1) <==>
      Carries(x, i, k) && (x.arrived[k] ==> !Starts(x.ps[k]) && !Ends(x.ps[k]) && Follows(x, k))
  {
  }

  lemma PendsNext(x: Stream, k: nat)
    requires Fits(x) && k < |x.ps|
    ensures Pends(x, k + 1) <==>
      if !x.arrived[k] then Pends(x, k)
      else Starts(x.ps[k]) || (Pends(x, k) && !Ends(x.ps[k]) && Follows(x, k))
  {
    forall i: int | i < k
      ensures Carries(x, i, k + 1) <==>
        Carries(x, i, k) && (x.arrived[k] ==> !Starts(x.ps[k]) && !Ends(x.ps[k]) && Follows(x, k))
    {
      CarriesNext(x, i, k);
    }
    assert Carries(x, k, k + 1);
    if x.arrived[k] && Starts(x.ps[k]) { assert Opens(x, k); }
  }

  /** A unit is pending in front of packet `k` exactly if some fragment opened one and all
      that arrived since carries it on. */
  lemma {:induction false} PendingIff(x: Stream, k: nat)
    requires Fits(x) && k <= |x.ps|
    ensures StateAt(x, k).fuBuf.Some? <==> Pends(x, k)
  {
    if k == 0 {
      assert Deliver(x.ps[..0], x.arrived[..0]) == [];
      if x.st.fuBuf.Some? { assert Opens(x, -1) && Carries(x, -1, 0); }
    } else {
      PendingIff(x, k - 1);
      StateNext(x, k - 1);
      PendsNext(x, k - 1);
      if x.arrived[k - 1] {
        KeptIff(x, k - 1);
        BufferStep(StateAt(x, k - 1), x.ps[k - 1]);
      }
    }
  }

  // ---- one group in its place ----

  /** The payloads of a group stand at `s`. */
  predicate Stands(x: Stream, g: Group, s: nat) {
    && Fits(x) && ValidGroup(g) && s + |Payloads(g)| <= |x.ps|
    && forall m :: 0 <= m < |Payloads(g)| ==> x.ps[s + m].payload == Payloads(g)[m]
  }

  predicate Complete(x: Stream, g: Group, s: nat)
    requires Stands(x, g, s)
  {
    AllTrue(x.arrived[s..s + |Payloads(g)|])
  }

  lemma CompleteAt(x: Stream, g: Group, s: nat)
    requires Stands(x, g, s)
    ensures Complete(x, g, s) <==> forall k: nat :: s <= k < s + |Payloads(g)| ==> x.arrived[k]
  {
    AllTrueSlice(x.arrived, s, s + |Payloads(g)|);
  }

  /** Its fragments, as the reassembler tells them apart. */
  lemma FragmentAt(x: Stream, g: Group, s: nat, m: nat)
    requires Stands(x, g, s) && g.Fragmented? && m < |g.pieces|
    ensures |Payloads(g)| == |g.pieces|
    ensures var flags := if m == 0 then 128 else if m == |g.pieces| - 1 then 64 else 0;
      x.ps[s + m] == Packet((x.n + s + m) % 0x1_0000, Fragment(g.header, flags, g.pieces[m]))
    ensures IsFuA(x.ps[s + m]) && (Starts(x.ps[s + m]) <==> m == 0) && (Ends(x.ps[s + m]) <==> m == |g.pieces| - 1)
  {
    ContinuationsLength(g.header, g.pieces[1..]);
    var flags := if m == 0 then 128 else if m == |g.pieces| - 1 then 64 else 0;
    if m > 0 { ContinuationAt(g.header, g.pieces[1..], m - 1); }
    assert x.ps[s + m].payload == Payloads(g)[m] == Fragment(g.header, flags, g.pieces[m]);
    HeaderBytes(g.header, flags, g.pieces[m]);
  }

  lemma FirstCollected(x: Stream, g: Group, s: nat)
    requires Stands(x, g, s) && g.Fragmented? && x.arrived[s]
    ensures s + 1 < |x.ps|
    ensures var st := StateAt(x, s + 1);
      st.fuBuf == Some([g.header] + Flat(g.pieces[..1])) && st.lastSeq == Some((x.n + s) % 0x1_0000)
  {
    FragmentAt(x, g, s, 0);
    StateNext(x, s);
    StartStep(StateAt(x, s), g.header, g.pieces[0], (x.n + s) % 0x1_0000);
    assert g.pieces[..1] == [] + [g.pieces[0]];
    FlatSnoc([], g.pieces[0]);
    assert Flat([]) + g.pieces[0] == g.pieces[0];
  }

  lemma NextCollected(x: Stream, g: Group, s: nat, m: nat)
    requires Stands(x, g, s) && g.Fragmented? && 1 <= m < |g.pieces| - 1 && s + m < |x.ps| && x.arrived[s + m]
    requires var st := StateAt(x, s + m);
      st.fuBuf == Some([g.header] + Flat(g.pieces[..m])) && st.lastSeq == Some((x.n + s + m - 1) % 0x1_0000)
    ensures var st := StateAt(x, s + m + 1);
      st.fuBuf == Some([g.header] + Flat(g.pieces[..m + 1])) && st.lastSeq == Some((x.n + s + m) % 0x1_0000)
  {
    var front, piece := g.pieces[..m], g.pieces[m];
    FragmentAt(x, g, s, m);
    StateNext(x, s + m);
    OpenStep(StateAt(x, s + m), g.header, 0, [g.header] + Flat(front), piece, x.n + s + m);
    Slices.TakeNext(g.pieces, m);
    FlatSnoc(front, piece);
    Slices.Assoc([g.header], Flat(front), piece);
  }

  /** While all fragments so far arrived, their bytes are pending. */
  lemma {:induction false} Collecting(x: Stream, g: Group, s: nat, m: nat)
    requires Stands(x, g, s) && g.Fragmented? && Complete(x, g, s) && 1 <= m < |g.pieces| && s + m <= |x.ps|
    ensures var st := StateAt(x, s + m);
      st.fuBuf == Some([g.header] + Flat(g.pieces[..m])) && st.lastSeq == Some((x.n + s + m - 1) % 0x1_0000)
    decreases m
  {
    CompleteAt(x, g, s);
    FragmentAt(x, g, s, m - 1);
    if m == 1 {
      FirstCollected(x, g, s);
    } else {
      Collecting(x, g, s, m - 1);
      NextCollected(x, g, s, m - 1);
    }
  }

  lemma CompleteFragments(x: Stream, g: Group, s: nat)
    requires Stands(x, g, s) && g.Fragmented? && Complete(x, g, s)
    ensures |Payloads(g)| == |g.pieces| && OutAt(x, s + |g.pieces| - 1) == Nals(g)
  {
    var m := |g.pieces| - 1;
    FragmentAt(x, g, s, m);
    CompleteAt(x, g, s);
    Collecting(x, g, s, m);
    OpenStep(StateAt(x, s + m), g.header, 64, [g.header] + Flat(g.pieces[..m]), g.pieces[m], x.n + s + m);
    Slices.TakeNext(g.pieces, m);
    assert g.pieces[..m + 1] == g.pieces;
    FlatSnoc(g.pieces[..m], g.pieces[m]);
    Slices.Assoc([g.header], Flat(g.pieces[..m]), g.pieces[m]);
  }

  lemma SilentUnlessEnd(st: State, p: Packet)
    requires IsFuA(p) && !Ends(p)
    ensures Step(st, p).1 == []
  {
  }

  lemma EndEmits(st: State, p: Packet)
    requires Ends(p)
    ensures |Step(st, p).1| == if Kept(st, p).Some? then 1 else 0
  {
  }

  /** What is pending at the end of a group with a lost packet was opened before the loss. */
  lemma OpenedBefore(x: Stream, g: Group, s: nat, i: int, m: nat)
    requires Stands(x, g, s) && g.Fragmented? && |Payloads(g)| == |g.pieces|
    requires s <= m < s + |g.pieces| - 1 && !x.arrived[m] && i < s + |g.pieces| - 1 && Opens(x, i)
    ensures i < m
  {
    if i > m { FragmentAt(x, g, s, i - s); }
  }

  /** The end fragment of an incomplete group puts out a unit exactly if it is a splice. */
  lemma IncompleteFragments(x: Stream, g: Group, s: nat)
    requires Stands(x, g, s) && g.Fragmented? && !Complete(x, g, s)
    ensures |Payloads(g)| == |g.pieces|
    ensures var j := s + |g.pieces| - 1;
      |OutAt(x, j)| == if Spliced(x, j) then 1 else 0
  {
    var j := s + |g.pieces| - 1;
    FragmentAt(x, g, s, |g.pieces| - 1);
    if x.arrived[j] {
      PendingIff(x, j);
      KeptIff(x, j);
      EndEmits(StateAt(x, j), x.ps[j]);
      if Pends(x, j) && Follows(x, j) {
        var i: int :| -1 <= i < j && Opens(x, i) && Carries(x, i, j);
        CompleteAt(x, g, s);
        var m: nat :| s <= m < s + |g.pieces| && !x.arrived[m];
        OpenedBefore(x, g, s, i, m);
        assert LostBetween(x, i, j) && Splice(x, i, j);
      }
    }
  }

  /** A complete group hides what was pending before it, so it is no splice. */
  lemma CompleteNoSplice(x: Stream, g: Group, s: nat, i: int)
    requires Stands(x, g, s) && g.Fragmented? && Complete(x, g, s)
    ensures |Payloads(g)| == |g.pieces| && !Splice(x, i, s + |g.pieces| - 1)
  {
    var j := s + |g.pieces| - 1;
    FragmentAt(x, g, s, 0);
    CompleteAt(x, g, s);
    if i < s {
      assert x.arrived[s] && Starts(x.ps[s]) && s < j;
    } else {
      assert !LostBetween(x, i, j);
    }
  }

  // ---- what each packet ought to put out ----

  function Outs(x: Stream, k: nat): (r: seq<seq<Data>>)
    requires Fits(x) && k <= |x.ps|
    ensures |r| == k && forall m: nat :: m < k ==> r[m] == OutAt(x, m)
  {
    if k == 0 then [] else Outs(x, k - 1) + [OutAt(x, k - 1)]
  }

  lemma {:induction false} OutsOutput(x: Stream, k: nat)
    requires Fits(x) && k <= |x.ps|
    ensures Concat(Outs(x, k)) == Output(x.st, Deliver(x.ps[..k], x.arrived[..k]))
  {
    if k == 0 {
      assert Deliver(x.ps[..0], x.arrived[..0]) == [];
    } else {
      OutsOutput(x, k - 1);
      StateNext(x, k - 1);
      ConcatAppend(Outs(x, k - 1), [OutAt(x, k - 1)]);
      ConcatOne(OutAt(x, k - 1));
    }
  }

  /** Packet `k` puts out what it ought to, unless it is the end of a splice. */
  ghost predicate SlotRight(x: Stream, k: nat, slot: seq<Data>)
    requires Fits(x) && k < |x.ps|
  {
    && (Spliced(x, k) ==> |OutAt(x, k)| == 1 && slot == [])
    && (!Spliced(x, k) ==> OutAt(x, k) == slot)
  }

  lemma FragmentSlots(x: Stream, g: Group, s: nat, k: nat)
    requires Stands(x, g, s) && g.Fragmented? && s <= k < s + |Payloads(g)|
    ensures SlotRight(x, k, if k == s + |Payloads(g)| - 1 && Complete(x, g, s) then Nals(g) else [])
  {
    FragmentAt(x, g, s, 0);
    FragmentAt(x, g, s, k - s);
    if k < s + |g.pieces| - 1 {
      if x.arrived[k] { SilentUnlessEnd(StateAt(x, k), x.ps[k]); }
    } else if Complete(x, g, s) {
      CompleteFragments(x, g, s);
      forall i: int
        ensures !Splice(x, i, k)
      {
        CompleteNoSplice(x, g, s, i);
      }
    } else {
      IncompleteFragments(x, g, s);
    }
  }

  lemma WholePacket(st: State, g: Group, seqNo: nat)
    requires ValidGroup(g) && !g.Fragmented?
    ensures |Payloads(g)| == 1 && !IsFuA(Packet(seqNo, Payloads(g)[0]))
    ensures Step(st, Packet(seqNo, Payloads(g)[0])).1 == Nals(g)
  {
    if g.Stap? {
      var payload := Payloads(g)[0];
      assert payload[1..] == EncodeUnits(g.nals);
      UnitsRoundTrip(payload, 1, g.nals);
    }
  }

  lemma WholeSlot(x: Stream, g: Group, s: nat)
    requires Stands(x, g, s) && !g.Fragmented?
    ensures |Payloads(g)| == 1 && SlotRight(x, s, if Complete(x, g, s) then Nals(g) else [])
  {
    WholePacket(StateAt(x, s), g, x.ps[s].seqNo);
    CompleteAt(x, g, s);
    assert x.ps[s + 0].payload == Payloads(g)[0];
  }

  lemma GroupSlots(x: Stream, g: Group, s: nat, k: nat, slot: seq<Data>)
    requires Stands(x, g, s) && s <= k < s + |Payloads(g)|
    requires slot == if k == s + |Payloads(g)| - 1 && AllTrue(x.arrived[s..s + |Payloads(g)|]) then Nals(g) else []
    ensures SlotRight(x, k, slot)
  {
    if g.Fragmented? { FragmentSlots(x, g, s, k); } else { WholeSlot(x, g, s); }
  }

  lemma GroupStands(x: Stream, all: seq<Data>, g: Group, t: nat)
    requires Fits(x) && ValidGroup(g) && |all| == |x.ps| && forall m :: 0 <= m < |x.ps| ==> x.ps[m].payload == all[m]
    requires t + |Payloads(g)| <= |all| && all[t..t + |Payloads(g)|] == Payloads(g)
    ensures Stands(x, g, t)
  {
    var own := Payloads(g);
    forall m | 0 <= m < |own|
      ensures x.ps[t + m].payload == own[m]
    {
      assert own[m] == all[t..t + |own|][m] == all[t + m];
    }
  }

  /** A numbered stream of groups, their payloads and their NAL units. */
  predicate Carrying(x: Stream, gs: seq<Group>, parts: seq<seq<Data>>, units: seq<seq<Data>>) {
    && Fits(x) && Valid(gs) && parts == Parts(gs) && units == Units(gs) && Proper(parts)
    && |Concat(parts)| == |x.ps| && forall m :: 0 <= m < |x.ps| ==> x.ps[m].payload == Concat(parts)[m]
  }

  lemma PartStands(x: Stream, gs: seq<Group>, parts: seq<seq<Data>>, units: seq<seq<Data>>, q: nat)
    requires Carrying(x, gs, parts, units) && q < |parts|
    ensures parts[q] == Payloads(gs[q]) && units[q] == Nals(gs[q]) && Stands(x, gs[q], Start(parts, q))
  {
    PartAt(parts, q);
    GroupStands(x, Concat(parts), gs[q], Start(parts, q));
  }

  lemma PartRight(x: Stream, g: Group, own: seq<Data>, gain: seq<Data>, s: nat, k: nat)
    requires Stands(x, g, s) && own == Payloads(g) && s <= k < s + |own|
    requires gain == if AllTrue(x.arrived[s..s + |own|]) then Nals(g) else []
    ensures SlotRight(x, k, if k == s + |own| - 1 then gain else [])
  {
    GroupSlots(x, g, s, k, if k == s + |own| - 1 then gain else []);
  }

  lemma SlotRightAt(x: Stream, gs: seq<Group>, parts: seq<seq<Data>>, units: seq<seq<Data>>, k: nat)
    requires Carrying(x, gs, parts, units) && k < |x.ps|
    ensures |Slots(parts, units, x.arrived)| == |x.ps| && SlotRight(x, k, Slots(parts, units, x.arrived)[k])
  {
    var q := Which(parts, k);
    var gain := Gain(parts, units, x.arrived, q);
    PartStands(x, gs, parts, units, q);
    PartRight(x, gs[q], parts[q], gain, Start(parts, q), k);
    SlotAt(parts, units, x.arrived, q, k);
    assert Slots(parts, units, x.arrived)[k] == if k == Start(parts, q) + |parts[q]| - 1 then gain else [];
  }

  // ---- loss exactness ----

  lemma GroupNonempty(g: Group)
    requires ValidGroup(g)
    ensures forall k :: 0 <= k < |Payloads(g)| ==> Payloads(g)[k] != []
  {
    if g.Fragmented? {
      forall k | 0 <= k < |Continuations(g.header, g.pieces[1..])|
        ensures Continuations(g.header, g.pieces[1..])[k] != []
      {
        ContinuationsLength(g.header, g.pieces[1..]);
        ContinuationAt(g.header, g.pieces[1..], k);
      }
    }
  }

  lemma PartsProper(gs: seq<Group>)
    requires Valid(gs)
    ensures Proper(Parts(gs))
  {
  }

  lemma PayloadsNonempty(gs: seq<Group>, k: nat)
    requires Valid(gs) && k < |AllPayloads(gs)|
    ensures AllPayloads(gs)[k] != []
  {
    var q := Which(Parts(gs), k);
    PartAt(Parts(gs), q);
    GroupNonempty(gs[q]);
    assert AllPayloads(gs)[k] == Payloads(gs[q])[k - Start(Parts(gs), q)];
  }

  /** The stream of a list of groups. */
  function Sent(st: State, gs: seq<Group>, a: int, n: int, arrived: seq<bool>): Stream
    requires Valid(gs)
  {
    Stream(st, a, n, Number(AllPayloads(gs), n), arrived)
  }

  lemma SentFits(st: State, gs: seq<Group>, a: int, n: int, arrived: seq<bool>)
    requires Valid(gs) && |arrived| == |AllPayloads(gs)| && Saw(st, a) && a < n
    ensures Fits(Sent(st, gs, a, n, arrived)) && |Number(AllPayloads(gs), n)| == |arrived|
    ensures forall k :: 0 <= k < |arrived| ==> Number(AllPayloads(gs), n)[k].payload == AllPayloads(gs)[k]
  {
    NumberLength(AllPayloads(gs), n);
    forall k | 0 <= k < |arrived|
      ensures Number(AllPayloads(gs), n)[k] == Packet((n + k) % 0x1_0000, AllPayloads(gs)[k])
      ensures AllPayloads(gs)[k] != []
    {
      NumberAt(AllPayloads(gs), n, k);
      PayloadsNonempty(gs, k);
    }
  }

  lemma SentSlots(st: State, gs: seq<Group>, a: int, n: int, arrived: seq<bool>)
    requires Valid(gs) && |arrived| == |AllPayloads(gs)| && Saw(st, a) && a < n
    ensures Proper(Parts(gs))
    ensures var x, slots := Sent(st, gs, a, n, arrived), Slots(Parts(gs), Units(gs), arrived);
      && Fits(x) && |x.ps| == |arrived| == |slots|
      && forall k: nat :: k < |arrived| ==> SlotRight(x, k, slots[k])
  {
    var x := Sent(st, gs, a, n, arrived);
    SentFits(st, gs, a, n, arrived);
    PartsProper(gs);
    SharesLengths(Parts(gs), Units(gs), arrived);
    forall k: nat | k < |arrived|
      ensures SlotRight(x, k, Slots(Parts(gs), Units(gs), arrived)[k])
    {
      SlotRightAt(x, gs, Parts(gs), Units(gs), k);
    }
  }

  /** Loss exactness. Whatever the reassembler holds when the stream starts, whatever
      packets are lost: it puts out, in order and byte for byte, exactly the NAL units
      whose packets all arrived, if and only if there is no splice. */
  lemma LossExactIff(st: State, gs: seq<Group>, a: int, n: int, arrived: seq<bool>)
    requires Valid(gs) && |arrived| == |AllPayloads(gs)| && Saw(st, a) && a < n
    ensures |Number(AllPayloads(gs), n)| == |arrived| && Fits(Sent(st, gs, a, n, arrived))
    ensures Output(st, Deliver(Number(AllPayloads(gs), n), arrived)) == Expected(gs, arrived) <==>
      !exists i: int, j: nat :: Splice(Sent(st, gs, a, n, arrived), i, j)
  {
    var x := Sent(st, gs, a, n, arrived);
    SentSlots(st, gs, a, n, arrived);
    var outs, slots := Outs(x, |arrived|), Slots(Parts(gs), Units(gs), arrived);
    SlotsAddUp(Parts(gs), Units(gs), arrived);
    OutsOutput(x, |arrived|);
    assert x.ps[..|arrived|] == x.ps && arrived[..|arrived|] == arrived;
    SlotsDecide(x, slots);
    ConcatEqualIff(outs, slots);
  }

  lemma SlotsDecide(x: Stream, slots: seq<seq<Data>>)
    requires Fits(x) && |slots| == |x.ps| && forall k: nat :: k < |x.ps| ==> SlotRight(x, k, slots[k])
    ensures OneMoreAtMost(Outs(x, |x.ps|), slots)
    ensures Outs(x, |x.ps|) == slots <==> !exists i: int, j: nat :: Splice(x, i, j)
  {
    var outs := Outs(x, |x.ps|);
    forall k: nat | k < |x.ps|
      ensures outs[k] == slots[k] || (|outs[k]| == 1 && slots[k] == [])
      ensures outs[k] == slots[k] <==> !Spliced(x, k)
    {
      assert SlotRight(x, k, slots[k]);
    }
    if i: int, j: nat :| Splice(x, i, j) {
      assert outs[j] != slots[j];
    }
  }

  /** A splice needs a lost run around which the numbers wrap. */
  lemma SpliceWraps(x: Stream, i: int, j: nat)
    requires Fits(x) && Splice(x, i, j)
    ensures !NoWrappingGap(x.a, x.n, x.arrived)
  {
    var m: nat :| i < m < j && !x.arrived[m];
    var k := NextArrival(x, m, j);
    assert Follows(x, k);
    WrapsAt(x, k);
  }

  lemma WrapsAt(x: Stream, k: nat)
    requires Fits(x) && k < |x.ps| && x.arrived[k] && Follows(x, k) && Seen(x, k) < x.n + k - 1
    ensures !NoWrappingGap(x.a, x.n, x.arrived)
  {
    NoWrappingGapMeaning(x.a, x.n, x.arrived);
    MultipleLost(x.n + k - 1 - LastSeen(x.a, x.n, x.arrived[..k]));
  }

  lemma MultipleLost(lost: int)
    requires (lost + 1) % 0x1_0000 == 1
    ensures lost % 0x1_0000 == 0
  {
  }

  /** The first arrival after a lost packet has seen at least that loss. */
  lemma {:induction false} NextArrival(x: Stream, m: nat, j: nat) returns (k: nat)
    requires Fits(x) && m < j < |x.ps| && !x.arrived[m] && x.arrived[j]
    ensures m < k <= j && x.arrived[k] && Seen(x, k) < x.n + k - 1
    decreases j - m
  {
    if x.arrived[m + 1] {
      k := m + 1;
      SeenNext(x, m);
      SeenBefore(x, m);
    } else {
      k := NextArrival(x, m + 1, j);
    }
  }

  lemma {:induction false} SeenBefore(x: Stream, k: nat)
    requires Fits(x) && k <= |x.ps|
    ensures Seen(x, k) < x.n + k
  {
    if k == 0 {
      assert x.arrived[..0] == [];
    } else {
      SeenBefore(x, k - 1);
      SeenNext(x, k - 1);
    }
  }

  /** In particular it is exact if no lost run wraps the sequence numbers. */
  lemma LossExactness(st: State, gs: seq<Group>, a: int, n: int, arrived: seq<bool>)
    requires Valid(gs) && |arrived| == |AllPayloads(gs)|
    requires Saw(st, a) && a < n && NoWrappingGap(a, n, arrived)
    ensures |Number(AllPayloads(gs), n)| == |arrived|
    ensures Output(st, Deliver(Number(AllPayloads(gs), n), arrived)) == Expected(gs, arrived)
  {
    LossExactIff(st, gs, a, n, arrived);
    forall i: int, j: nat
      ensures !Splice(Sent(st, gs, a, n, arrived), i, j)
    {
      if Splice(Sent(st, gs, a, n, arrived), i, j) { SpliceWraps(Sent(st, gs, a, n, arrived), i, j); }
    }
  }

  function AllNals(gs: seq<Group>): seq<Data> { Concat(Units(gs)) }

  lemma {:induction false} NothingLost(a: int, n: int, bs: seq<bool>)
    requires a == n - 1 && AllTrue(bs)
    ensures NoWrappingGap(a, n, bs)
    decreases |bs|
  {
    if bs == [] {
    } else {
      NothingLost(n, n + 1, bs[1..]);
    }
  }

  lemma {:induction false} DeliverAll(ps: seq<Packet>, bs: seq<bool>)
    requires |ps| == |bs| && AllTrue(bs)
    ensures Deliver(ps, bs) == ps
  {
    if ps == [] {
    } else {
      DeliverAll(ps[1..], bs[1..]);
    }
  }

  lemma ExpectAll(gs: seq<Group>, bs: seq<bool>)
    requires Valid(gs) && |bs| == |AllPayloads(gs)| && AllTrue(bs)
    ensures Expected(gs, bs) == AllNals(gs)
  {
    forall q: nat | q < |gs|
      ensures Gain(Parts(gs), Units(gs), bs, q) == Nals(gs[q])
    {
      PartAt(Parts(gs), q);
    }
    assert GainList(Parts(gs), Units(gs), bs) == Units(gs);
  }

  lemma OneGroup(g: Group, bs: seq<bool>)
    requires ValidGroup(g) && |bs| == |Payloads(g)|
    ensures AllPayloads([g]) == Payloads(g) && AllNals([g]) == Nals(g)
    ensures Expected([g], bs) == if AllTrue(bs) then Nals(g) else []
  {
    assert Parts([g]) == [Payloads(g)] && Units([g]) == [Nals(g)];
    ConcatOne(Payloads(g));
    ConcatOne(Nals(g));
    assert bs[0..|bs|] == bs && Start(Parts([g]), 0) == 0;
    var own := Gain(Parts([g]), Units([g]), bs, 0);
    assert GainList(Parts([g]), Units([g]), bs) == [own];
    ConcatOne(own);
  }

  /** The lossless case: reassembly undoes packetization from any first sequence number. */
  lemma RoundTrip(gs: seq<Group>, n: int)
    requires Valid(gs)
    ensures Output(FRESH, Number(AllPayloads(gs), n)) == AllNals(gs)
  {
    var bs := seq(|AllPayloads(gs)|, k => true);
    NumberLength(AllPayloads(gs), n);
    NothingLost(n - 1, n, bs);
    LossExactness(FRESH, gs, n - 1, n, bs);
    DeliverAll(Number(AllPayloads(gs), n), bs);
    ExpectAll(gs, bs);
  }

  /** The gap condition, run by run: before each arrival, the number of packets lost since
      the arrival before it is zero or no multiple of 2^16. */
  lemma {:induction false} NoWrappingGapMeaning(a: int, n: int, arrived: seq<bool>)
    ensures NoWrappingGap(a, n, arrived) <==>
              forall j :: 0 <= j < |arrived| && arrived[j] ==>
                var lost := n + j - 1 - LastSeen(a, n, arrived[..j]);
                lost > 0 ==> lost % 0x1_0000 != 0
    decreases |arrived|
  {
    if arrived == [] {
    } else {
      var rest, b := arrived[1..], if arrived[0] then n else a;
      NoWrappingGapMeaning(b, n + 1, rest);
      assert arrived[..0] == [];
      forall j | 0 < j < |arrived|
        ensures LastSeen(a, n, arrived[..j]) == LastSeen(b, n + 1, rest[..j - 1]) && arrived[j] == rest[j - 1]
      {
        assert arrived[..j][1..] == rest[..j - 1];
      }
      assert forall j :: 0 <= j < |rest| ==> rest[j] == arrived[j + 1];
    }
  }

  // ---- why the gap condition is needed ----

  function Flags(count: nat, b: bool): seq<bool> { seq(count, _ => b) }

  lemma {:induction false} DeliverNone(ps: seq<Packet>)
    ensures Deliver(ps, Flags(|ps|, false)) == []
  {
    if ps == [] {
    } else {
      assert Flags(|ps|, false)[1..] == Flags(|ps[1..]|, false);
      DeliverNone(ps[1..]);
    }
  }

  lemma {:induction false} NumberWraps(payloads: seq<Data>, n: int, d: int)
    requires d % 0x1_0000 == 0
    ensures Number(payloads, n + d) == Number(payloads, n)
  {
    if payloads == [] {
    } else {
      assert (n + d) % 0x1_0000 == n % 0x1_0000;
      assert n + d + 1 == n + 1 + d;
      NumberWraps(payloads[1..], n + 1, d);
    }
  }

  /** Losing a multiple of 2^16 packets in a row leaves exactly the packets of a stream in
      which they never existed. */
  lemma WrappingLossIsInvisible(p: seq<Data>, lost: seq<Data>, q: seq<Data>, n: int)
    requires |lost| % 0x1_0000 == 0
    ensures |Number(p + lost + q, n)| == |p + lost + q|
    ensures Deliver(Number(p + lost + q, n), Flags(|p|, true) + Flags(|lost|, false) + Flags(|q|, true)) == Number(p + q, n)
  {
    NumberLength(p + lost + q, n);
    NumberLength(p, n);
    NumberLength(lost, n + |p|);
    NumberLength(p + lost, n);
    NumberLength(q, n + |p| + |lost|);
    NumberAppend(p + lost, q, n);
    NumberAppend(p, lost, n);
    NumberAppend(p, q, n);
    NumberWraps(q, n + |p|, |lost|);
    DeliverAppend(Number(p + lost, n), Number(q, n + |p| + |lost|), Flags(|p|, true) + Flags(|lost|, false), Flags(|q|, true));
    DeliverAppend(Number(p, n), Number(lost, n + |p|), Flags(|p|, true), Flags(|lost|, false));
    DeliverAll(Number(p, n), Flags(|p|, true));
    DeliverNone(Number(lost, n + |p|));
    DeliverAll(Number(q, n + |p| + |lost|), Flags(|q|, true));
    assert Number(p, n) + [] == Number(p, n);
  }

  function Middles(header: Byte, pieces: seq<Data>): seq<Data> {
    if pieces == [] then [] else [Fragment(header, 0, pieces[0])] + Middles(header, pieces[1..])
  }

  lemma {:induction false} ContinuationsSplit(header: Byte, xs: seq<Data>, ys: seq<Data>)
    requires ys != []
    ensures Continuations(header, xs + ys) == Middles(header, xs) + Continuations(header, ys)
    ensures |Middles(header, xs)| == |xs|
  {
    if xs == [] {
      assert xs + ys == ys;
    } else {
      assert (xs + ys)[1..] == xs[1..] + ys;
      ContinuationsSplit(header, xs[1..], ys);
      Slices.Assoc([Fragment(header, 0, xs[0])], Middles(header, xs[1..]), Continuations(header, ys));
    }
  }

  /** So a NAL unit cut into more than 2^16 fragments, a multiple of 2^16 lost in the middle,
      comes out with those pieces missing instead of not at all. */
  lemma WrappingLossCorrupts(header: Byte, first: Data, lost: seq<Data>, tail: seq<Data>, n: int)
    requires |lost| > 0 && |lost| % 0x1_0000 == 0 && tail != []
    ensures var g := Fragmented(header, [first] + lost + tail);
            var arrived := Flags(1, true) + Flags(|lost|, false) + Flags(|tail|, true);
            && |Payloads(g)| == |Number(Payloads(g), n)| == |arrived|
            && AllPayloads([g]) == Payloads(g)
            && Expected([g], arrived) == []
            && Output(FRESH, Deliver(Number(Payloads(g), n), arrived)) == [[header] + Flat([first] + tail)]
  {
    var g, small := Fragmented(header, [first] + lost + tail), Fragmented(header, [first] + tail);
    var start := Fragment(header, 128, first);
    var arrived := Flags(1, true) + Flags(|lost|, false) + Flags(|tail|, true);
    assert ([first] + lost + tail)[1..] == lost + tail && ([first] + tail)[1..] == tail;
    ContinuationsSplit(header, lost, tail);
    ContinuationsLength(header, tail);
    assert Payloads(g) == [start] + Middles(header, lost) + Continuations(header, tail);
    assert Payloads(small) == [start] + Continuations(header, tail);
    WrappingLossIsInvisible([start], Middles(header, lost), Continuations(header, tail), n);
    OneGroup(g, arrived);
    OneGroup(small, Flags(|Payloads(small)|, true));
    assert !arrived[1];
    RoundTrip([small], n);
  }

  /** And what begins as one unit can end as another: the rest of the first and the front of
      the second lost together, its last fragment completes the first. */
  lemma WrappingLossJoins(first: Group, second: Group, n: int)
    requires ValidGroup(first) && ValidGroup(second) && first.Fragmented? && second.Fragmented?
    requires |first.pieces| - 1 + (|second.pieces| - 1) > 0 && (|first.pieces| - 1 + (|second.pieces| - 1)) % 0x1_0000 == 0
    ensures var lost := |first.pieces| - 1 + (|second.pieces| - 1);
            var arrived := Flags(1, true) + Flags(lost, false) + Flags(1, true);
            var all := Payloads(first) + Payloads(second);
            && |all| == |Number(all, n)| == |arrived|
            && AllPayloads([first, second]) == all
            && Expected([first, second], arrived) == []
            && Output(FRESH, Deliver(Number(all, n), arrived)) ==
                 [[first.header] + first.pieces[0] + second.pieces[|second.pieces| - 1]]
  {
    var p, q := Payloads(first), Payloads(second);
    ContinuationsLength(first.header, first.pieces[1..]);
    ContinuationsLength(second.header, second.pieces[1..]);
    var k := |q| - 1;
    var lost := p[1..] + q[..k];
    assert p + q == p[..1] + lost + q[k..];
    WrappingLossIsInvisible(p[..1], lost, q[k..], n);
    TwoGroups(first, second, Flags(1, true) + Flags(|lost|, false) + Flags(1, true));
    StartThenEnd(first, second, n);
  }

  lemma TwoParts(p: seq<Data>, q: seq<Data>, gains: seq<seq<Data>>, bs: seq<bool>)
    requires |p| >= 2 && |q| >= 2 && |gains| == 2 && |bs| == |p| + |q| && forall k :: 0 < k < |bs| - 1 ==> !bs[k]
    ensures Concat([p, q]) == p + q && Gains([p, q], gains, bs) == []
  {
    var parts := [p, q];
    assert parts == [p] + [q] && parts[1..] == [q];
    ConcatAppend([p], [q]);
    ConcatOne(p);
    ConcatOne(q);
    assert Start(parts[1..], 0) == 0 && Start(parts, 1) == |p| && Start(parts, 0) == 0;
    assert !bs[1] && !bs[|p|];
    assert bs[0..|p|][1] == bs[1] && bs[|p|..|p| + |q|][0] == bs[|p|];
    assert Gain(parts, gains, bs, 0) == [] && Gain(parts, gains, bs, 1) == [];
    assert GainList(parts, gains, bs) == Blank(2);
    ConcatBlank<Data>(2);
  }

  lemma TwoGroups(g: Group, h: Group, bs: seq<bool>)
    requires ValidGroup(g) && ValidGroup(h) && |bs| == |Payloads(g)| + |Payloads(h)|
    requires |Payloads(g)| >= 2 && |Payloads(h)| >= 2 && forall k :: 0 < k < |bs| - 1 ==> !bs[k]
    ensures AllPayloads([g, h]) == Payloads(g) + Payloads(h) && Expected([g, h], bs) == []
  {
    assert Parts([g, h]) == [Payloads(g), Payloads(h)];
    TwoParts(Payloads(g), Payloads(h), Units([g, h]), bs);
  }

  /** A start fragment and the end fragment of another unit, numbered in sequence. */
  lemma StartThenEnd(first: Group, second: Group, n: int)
    requires ValidGroup(first) && ValidGroup(second) && first.Fragmented? && second.Fragmented?
    ensures var p, q := Payloads(first), Payloads(second);
      |p| > 0 && |q| > 0 && Output(FRESH, Number(p[..1] + q[|q| - 1..], n)) ==
        [[first.header] + first.pieces[0] + second.pieces[|second.pieces| - 1]]
  {
    var p, q, last := Payloads(first), Payloads(second), |second.pieces| - 1;
    ContinuationAt(second.header, second.pieces[1..], last - 1);
    var a := Packet(n % 0x1_0000, Fragment(first.header, 128, first.pieces[0]));
    var b := Packet((n + 1) % 0x1_0000, Fragment(second.header, 64, second.pieces[last]));
    assert p[..1] + q[|q| - 1..] == [a.payload, b.payload];
    assert [a.payload, b.payload][1..] == [b.payload] && [b.payload][1..] == [];
    assert Number([b.payload], n + 1) == [b] && Number([a.payload, b.payload], n) == [a] + [b];
    StartStep(FRESH, first.header, first.pieces[0], n % 0x1_0000);
    RunSnoc(FRESH, [a], b);
    RunSnoc(FRESH, [], a);
    assert [] + [a] == [a];
    var st := Step(FRESH, a).0;
    OpenStep(st, second.header, 64, [first.header] + first.pieces[0], second.pieces[last], n + 1);
  }
}
