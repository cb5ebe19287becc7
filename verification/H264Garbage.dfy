/** The reassembler on arbitrary packets: duplicates, reordering and garbage included. */
module H264Garbage {
  import opened Wrappers
  import opened Bytes
  import opened H264
  import Slices

  predicate IsFuA(p: Packet) { |p.payload| >= 2 && Low5(p.payload[0]) == 28 }

  predicate Starts(p: Packet) { IsFuA(p) && Bit7(p.payload[1]) }

  predicate Continues(p: Packet) { IsFuA(p) && !Bit7(p.payload[1]) }

  predicate Ends(p: Packet) { Continues(p) && Bit6(p.payload[1]) }

  predicate InSequence(p: Packet, q: Packet) { q.seqNo == NextSeq(p.seqNo) }

  /** `ps[i]` is the latest start fragment, nothing has ended its unit, and from there to
      the end the sequence numbers are consecutive. */
  predicate Open(ps: seq<Packet>, i: nat) {
    && i < |ps| && Starts(ps[i])
    && (forall j :: i < j < |ps| ==> !Starts(ps[j]) && !Ends(ps[j]) && InSequence(ps[j - 1], ps[j]))
  }

  /** The header rebuilt from the start fragment, then the payloads of all FU-A packets. */
  function Assembled(ps: seq<Packet>, i: nat): Data
    requires i < |ps| && IsFuA(ps[i])
  {
    var last := ps[|ps| - 1];
    if i == |ps| - 1 then [High3(last.payload[0]) + Low5(last.payload[1])] + last.payload[2..]
    else Assembled(ps[..|ps| - 1], i) + if Continues(last) then last.payload[2..] else []
  }

  predicate NoneEmpty(ps: seq<Packet>) {
    forall k :: 0 <= k < |ps| ==> ps[k].payload != []
  }

  lemma RunSnoc(st: State, ps: seq<Packet>, p: Packet)
    ensures Final(st, ps + [p]) == Step(Final(st, ps), p).0
    ensures Output(st, ps + [p]) == Output(st, ps) + Step(Final(st, ps), p).1
  {
    RunAppend(st, ps, [p]);
    var (st1, out1) := Step(Final(st, ps), p);
    assert [p][1..] == [];
    assert Run(st1, []) == (st1, []) && out1 + [] == out1;
  }

  /** Packets without payload are as if they never came. */
  function WithoutEmpty(ps: seq<Packet>): (r: seq<Packet>)
    ensures NoneEmpty(r)
  {
    if ps == [] then [] else (if ps[0].payload == [] then [] else [ps[0]]) + WithoutEmpty(ps[1..])
  }

  lemma {:induction false} EmptyPacketsIgnored(st: State, ps: seq<Packet>)
    ensures Run(st, WithoutEmpty(ps)) == Run(st, ps)
    decreases |ps|
  {
    if ps == [] {
    } else {
      EmptyPacketsIgnored(Step(st, ps[0]).0, ps[1..]);
      var rest := WithoutEmpty(ps[1..]);
      if ps[0].payload == [] {
        assert [] + rest == rest;
        assert [] + Output(st, ps[1..]) == Output(st, ps[1..]);
      } else {
        assert ([ps[0]] + rest)[1..] == rest;
      }
    }
  }

  lemma LastSeqKnown(ps: seq<Packet>)
    requires NoneEmpty(ps)
    ensures Final(FRESH, ps).lastSeq == if ps == [] then None else Some(ps[|ps| - 1].seqNo)
  {
    if ps != [] {
      var before, p := ps[..|ps| - 1], ps[|ps| - 1];
      assert ps == before + [p];
      RunSnoc(FRESH, before, p);
    }
  }

  /** Both ways of a packet joining what came before. */
  lemma OpenSnoc(before: seq<Packet>, p: Packet, i: nat)
    ensures i < |before| ==>
              (Open(before + [p], i) <==> Open(before, i) && !Starts(p) && !Ends(p) && InSequence(before[|before| - 1], p))
    ensures i == |before| ==> (Open(before + [p], i) <==> Starts(p))
  {
    var ps := before + [p];
    if i < |before| {
      assert ps[|before|] == p && forall j :: 0 <= j < |before| ==> ps[j] == before[j];
      if Open(before, i) && !Starts(p) && !Ends(p) && InSequence(before[|before| - 1], p) {
        forall j | i < j < |ps|
          ensures !Starts(ps[j]) && !Ends(ps[j]) && InSequence(ps[j - 1], ps[j])
        {
        }
      }
      if Open(ps, i) {
        assert InSequence(ps[|before| - 1], ps[|before|]);
        forall j | i < j < |before|
          ensures !Starts(before[j]) && !Ends(before[j]) && InSequence(before[j - 1], before[j])
        {
          assert InSequence(ps[j - 1], ps[j]);
        }
      }
    }
  }

  lemma OneOpen(ps: seq<Packet>, i: nat, j: nat)
    requires Open(ps, i) && Open(ps, j)
    ensures i == j
  {
  }

  function Kept(st: State, p: Packet): Option<Data> {
    if st.lastSeq.Some? && p.seqNo != NextSeq(st.lastSeq.value) then None else st.fuBuf
  }

  /** What one packet does to the pending buffer. */
  lemma BufferStep(st: State, p: Packet)
    requires p.payload != []
    ensures Step(st, p).0.fuBuf ==
      if Starts(p) then Some([High3(p.payload[0]) + Low5(p.payload[1])] + p.payload[2..])
      else if Kept(st, p).None? || Ends(p) then None
      else Some(Kept(st, p).value + if Continues(p) then p.payload[2..] else [])
  {
    if Kept(st, p).Some? {
      assert Kept(st, p).value + [] == Kept(st, p).value;
    }
  }

  /** Joining a packet: the runs that stay open are those it continues, and the one it starts. */
  lemma OpenAfter(before: seq<Packet>, p: Packet)
    ensures forall i: nat :: Open(before + [p], i) <==>
      if i == |before| then Starts(p)
      else Open(before, i) && !Starts(p) && !Ends(p) && InSequence(before[|before| - 1], p)
  {
    forall i: nat
      ensures Open(before + [p], i) <==>
        if i == |before| then Starts(p)
        else Open(before, i) && !Starts(p) && !Ends(p) && InSequence(before[|before| - 1], p)
    {
      OpenSnoc(before, p, i);
    }
  }

  /** The buffer is the open run's bytes, if a run is open. */
  ghost predicate Holds(buf: Option<Data>, ps: seq<Packet>) {
    && (buf.None? ==> forall i: nat :: !Open(ps, i))
    && (buf.Some? ==> exists i: nat :: Open(ps, i) && buf.value == Assembled(ps, i))
  }

  lemma HoldsNext(st: State, before: seq<Packet>, p: Packet)
    requires p.payload != [] && Holds(st.fuBuf, before)
    requires st.lastSeq == if before == [] then None else Some(before[|before| - 1].seqNo)
    ensures Holds(Step(st, p).0.fuBuf, before + [p])
  {
    var ps := before + [p];
    BufferStep(st, p);
    OpenAfter(before, p);
    if Starts(p) {
      assert Open(ps, |before|);
    } else if Kept(st, p).Some? && !Ends(p) {
      var i: nat :| Open(before, i) && st.fuBuf.value == Assembled(before, i);
      assert ps[..|before|] == before;
      assert Open(ps, i) && Assembled(ps, i) == Assembled(before, i) + if Continues(p) then p.payload[2..] else [];
    }
  }

  lemma {:induction false} Pending(ps: seq<Packet>)
    requires NoneEmpty(ps)
    ensures Holds(Final(FRESH, ps).fuBuf, ps)
    decreases |ps|
  {
    if ps == [] {
    } else {
      var before, p := ps[..|ps| - 1], ps[|ps| - 1];
      assert ps == before + [p];
      RunSnoc(FRESH, before, p);
      LastSeqKnown(before);
      Pending(before);
      HoldsNext(Final(FRESH, before), before, p);
    }
  }

  /** On any packets whatever: a buffer is pending exactly when the latest start fragment
      begins an unbroken run that nothing has ended, and it holds the rebuilt header and
      the FU-A payloads of that run. */
  lemma PendingIsOneRun(ps: seq<Packet>, b: Data)
    requires NoneEmpty(ps)
    ensures Final(FRESH, ps).fuBuf == Some(b) <==> exists i: nat :: Open(ps, i) && b == Assembled(ps, i)
  {
    Pending(ps);
    if i: nat :| Open(ps, i) && b == Assembled(ps, i) {
      var j: nat :| Open(ps, j) && Final(FRESH, ps).fuBuf.value == Assembled(ps, j);
      OneOpen(ps, i, j);
    }
  }

  /** An FU-A packet puts out a unit exactly when it ends such a run, in sequence. */
  lemma FragmentsEmitOneRun(ps: seq<Packet>, p: Packet, nal: Data)
    requires NoneEmpty(ps) && p.payload != [] && Low5(p.payload[0]) == 28
    ensures Step(Final(FRESH, ps), p).1 == [nal] <==>
              Ends(p) && exists i: nat ::
                Open(ps, i) && InSequence(ps[|ps| - 1], p) && nal == Assembled(ps, i) + p.payload[2..]
    ensures |Step(Final(FRESH, ps), p).1| <= 1
  {
    LastSeqKnown(ps);
    var st := Final(FRESH, ps);
    var out := Step(st, p).1;
    if st.fuBuf.Some? {
      PendingIsOneRun(ps, st.fuBuf.value);
    }
    if Ends(p) {
      forall i: nat | Open(ps, i)
        ensures st.fuBuf == Some(Assembled(ps, i))
      {
        PendingIsOneRun(ps, Assembled(ps, i));
      }
    }
  }

  // ---- aggregation packets ----

  /** The bytes of a list of length-prefixed units. */
  predicate IsEncoded(bytes: Data, units: seq<Data>) {
    if units == [] then bytes == []
    else
      && |bytes| >= 2 + |units[0]|
      && U16(bytes[0], bytes[1]) == |units[0]|
      && bytes[2..2 + |units[0]|] == units[0]
      && IsEncoded(bytes[2 + |units[0]|..], units[1..])
  }

  predicate StartsWithUnit(bytes: Data) {
    |bytes| >= 2 && |bytes| >= 2 + U16(bytes[0], bytes[1])
  }

  lemma EncodedCons(bytes: Data, unit: Data, units: seq<Data>)
    requires |bytes| >= 2 + |unit| && U16(bytes[0], bytes[1]) == |unit| && bytes[2..2 + |unit|] == unit
    requires IsEncoded(bytes[2 + |unit|..], units)
    ensures IsEncoded(bytes, [unit] + units)
  {
    assert ([unit] + units)[1..] == units;
  }

  lemma FrontUnit(payload: Data, i: nat, j: nat, k: nat)
    requires i + 2 <= j <= k <= |payload|
    ensures var bytes := payload[i..k];
      && bytes[0] == payload[i] && bytes[1] == payload[i + 1]
      && bytes[2..j - i] == payload[i + 2..j] && bytes[j - i..] == payload[j..k]
  {
    Slices.Rest(payload, i, k, j - i);
    Slices.Nested(payload, i, k, 2, j - i);
  }

  lemma EncodedAt(payload: Data, i: nat, j: nat, k: nat, units: seq<Data>)
    requires i + 2 <= j <= k <= |payload| && U16(payload[i], payload[i + 1]) == j - i - 2
    requires IsEncoded(payload[j..k], units)
    ensures IsEncoded(payload[i..k], [payload[i + 2..j]] + units)
  {
    FrontUnit(payload, i, j, k);
    EncodedCons(payload[i..k], payload[i + 2..j], units);
  }

  /** The units are encoded at the front of the rest of the packet, and what follows them
      is not another whole unit. */
  lemma {:induction false} StapUnitsWellFormed(payload: Data, i: nat) returns (k: nat)
    requires i <= |payload|
    ensures i <= k <= |payload|
    ensures IsEncoded(payload[i..k], StapUnits(payload, i)) && !StartsWithUnit(payload[k..])
    decreases |payload| - i
  {
    UnitAt(payload, i);
    if StartsWithUnit(payload[i..]) {
      var j := i + 2 + U16(payload[i], payload[i + 1]);
      k := StapUnitsWellFormed(payload, j);
      EncodedAt(payload, i, j, k, StapUnits(payload, j));
    } else {
      k := i;
    }
  }

  /** The units from index `i` on, by whether the rest begins with one. */
  lemma UnitAt(payload: Data, i: nat)
    requires i <= |payload|
    ensures payload[i..i] == []
    ensures !StartsWithUnit(payload[i..]) ==> StapUnits(payload, i) == []
    ensures StartsWithUnit(payload[i..]) ==>
      && i + 2 <= |payload|
      && var j := i + 2 + U16(payload[i], payload[i + 1]);
         j <= |payload| && StapUnits(payload, i) == [payload[i + 2..j]] + StapUnits(payload, j)
  {
  }

  /** And they are the longest such list: any units encoded at the front are among the
      first of them. */
  lemma {:induction false} StapUnitsLongest(payload: Data, i: nat, k: nat, units: seq<Data>)
    requires i <= k <= |payload| && IsEncoded(payload[i..k], units)
    ensures units <= StapUnits(payload, i)
    decreases |units|
  {
    if units == [] {
    } else {
      var j := i + 2 + |units[0]|;
      var front := payload[i..k];
      assert front[0] == payload[i] && front[1] == payload[i + 1];
      Slices.Nested(payload, i, k, 2, j - i);
      Slices.Rest(payload, i, k, j - i);
      StapUnitsLongest(payload, j, k, units[1..]);
    }
  }
}
