/** The RTP to NAL-unit reassembler (RFC 6184, sections 5.6, 5.7.1 and 5.8). */
module H264 {
  import opened Wrappers
  import opened Bytes
  import Slices

  /** What `push` keeps between packets. `lastSeq` is a 16-bit number. */
  datatype State = State(fuBuf: Option<Data>, fuHeader: Byte, lastSeq: Option<nat>)

  const FRESH: State := State(None, 0, None)

  datatype Packet = Packet(seqNo: nat, payload: Data)

  /** `prev.wrapping_add(1)` on u16 */
  function NextSeq(prev: nat): nat { (prev + 1) % 0x1_0000 }

  /** After the sequence-gap check. */
  function Observe(st: State, seqNo: nat): State {
    var kept := if st.lastSeq.Some? && seqNo != NextSeq(st.lastSeq.value) then None else st.fuBuf;
    st.(fuBuf := kept, lastSeq := Some(seqNo))
  }

  /** The units of an aggregation packet from index `i` on. */
  function StapUnits(payload: Data, i: nat): seq<Data>
    requires i <= |payload|
    decreases |payload| - i
  {
    if i + 2 > |payload| then []
    else
      var len := U16(payload[i], payload[i + 1]);
      if i + 2 + len > |payload| then []
      else [payload[i + 2..i + 2 + len]] + StapUnits(payload, i + 2 + len)
  }

  function FuStep(st: State, payload: Data): (State, seq<Data>)
    requires |payload| > 0
  {
    if |payload| < 2 then (st, [])
    else if Bit7(payload[1]) then
      var header := High3(payload[0]) + Low5(payload[1]);
      (st.(fuBuf := Some([header] + payload[2..]), fuHeader := header), [])
    else if st.fuBuf.None? then (st, [])
    else
      var buf := st.fuBuf.value + payload[2..];
      if Bit6(payload[1]) then (st.(fuBuf := None), [buf]) else (st.(fuBuf := Some(buf)), [])
  }

  /** One packet: the new state and the NAL units it completes. */
  function Step(st: State, p: Packet): (State, seq<Data>) {
    if p.payload == [] then (st, [])
    else
      var st1 := Observe(st, p.seqNo);
      var unitType := Low5(p.payload[0]);
      if 1 <= unitType <= 23 then (st1, [p.payload])
      else if unitType == 24 then (st1, StapUnits(p.payload, 1))
      else if unitType == 28 then FuStep(st1, p.payload)
      else (st1, [])
  }

  /** A whole stream. */
  function Run(st: State, ps: seq<Packet>): (State, seq<Data>)
    decreases |ps|
  {
    if ps == [] then (st, [])
    else
      var (st1, out1) := Step(st, ps[0]);
      var (st2, out2) := Run(st1, ps[1..]);
      (st2, out1 + out2)
  }

  function Output(st: State, ps: seq<Packet>): seq<Data> { Run(st, ps).1 }

  function Final(st: State, ps: seq<Packet>): State { Run(st, ps).0 }

  lemma {:induction false} RunAppend(st: State, xs: seq<Packet>, ys: seq<Packet>)
    ensures Run(st, xs + ys) == (Final(Final(st, xs), ys), Output(st, xs) + Output(Final(st, xs), ys))
    decreases |xs|
  {
    if xs == [] {
      assert xs + ys == ys;
      assert [] + Output(st, ys) == Output(st, ys);
    } else {
      assert (xs + ys)[1..] == xs[1..] + ys;
      var (st1, out1) := Step(st, xs[0]);
      RunAppend(st1, xs[1..], ys);
      var rest := Output(Final(st, xs), ys);
      assert out1 + (Output(st1, xs[1..]) + rest) == (out1 + Output(st1, xs[1..])) + rest;
    }
  }

  class Reassembler {
    var fuBuf: Option<Data>
    var fuHeader: Byte
    var lastSeq: Option<nat>

    function View(): State
      reads this
    {
      State(fuBuf, fuHeader, lastSeq)
    }

    constructor ()
      ensures View() == FRESH
    {
      fuBuf, fuHeader, lastSeq := None, 0, None;
    }

    static method Units(payload: Data) returns (out: seq<Data>)
      requires payload != []
      ensures out == StapUnits(payload, 1)
    {
      out := [];
      var i := 1;
      while i + 2 <= |payload|
        invariant 1 <= i <= |payload|
        invariant out + StapUnits(payload, i) == StapUnits(payload, 1)
        decreases |payload| - i
      {
        ghost var before := out;
        var len := U16(payload[i], payload[i + 1]);
        i := i + 2;
        if i + len > |payload| {
          break;
        }
        out := out + [payload[i..i + len]];
        i := i + len;
        Slices.Assoc(before, [payload[i - len..i]], StapUnits(payload, i));
      }
    }

    method Push(payload: Data, seqNo: nat) returns (out: seq<Data>)
      modifies this
      ensures (View(), out) == Step(old(View()), Packet(seqNo, payload))
    {
      out := [];
      if payload == [] {
        return;
      }
      if lastSeq.Some? {
        if seqNo != NextSeq(lastSeq.value) && fuBuf.Some? {
          fuBuf := None;
        }
      }
      lastSeq := Some(seqNo);
      var nalHeader := payload[0];
      var unitType := Low5(nalHeader);
      if 1 <= unitType <= 23 {
        out := [payload];
      } else if unitType == 24 {
        out := Units(payload);
      } else if unitType == 28 {
        if |payload| < 2 {
          return;
        }
        var fu := payload[1];
        if Bit7(fu) {
          fuHeader := High3(nalHeader) + Low5(fu);
          fuBuf := Some([fuHeader] + payload[2..]);
          return;
        }
        if fuBuf.Some? {
          var buf := fuBuf.value + payload[2..];
          fuBuf := Some(buf);
          if Bit6(fu) {
            fuBuf := None;
            out := [buf];
          }
        }
      }
    }
  }
}
