/** Lists of lists: what a list of parts adds up to, and which part an element belongs to. */
module Lists {
  import Slices

  function Concat<T>(xs: seq<seq<T>>): seq<T> {
    if xs == [] then [] else xs[0] + Concat(xs[1..])
  }

  lemma {:induction false} ConcatAppend<T>(xs: seq<seq<T>>, ys: seq<seq<T>>)
    ensures Concat(xs + ys) == Concat(xs) + Concat(ys)
  {
    if xs == [] {
      assert xs + ys == ys;
    } else {
      assert (xs + ys)[1..] == xs[1..] + ys;
      ConcatAppend(xs[1..], ys);
      Slices.Assoc(xs[0], Concat(xs[1..]), Concat(ys));
    }
  }

  lemma ConcatOne<T>(x: seq<T>)
    ensures Concat([x]) == x
  {
    assert [x][1..] == [] && x + [] == x;
  }

  /** Where part `q` begins. */
  function Start<T>(xs: seq<seq<T>>, q: nat): nat
    requires q <= |xs|
  {
    if q == 0 then 0 else |xs[0]| + Start(xs[1..], q - 1)
  }

  lemma {:induction false} PartAt<T>(xs: seq<seq<T>>, q: nat)
    requires q < |xs|
    ensures Start(xs, q) + |xs[q]| <= |Concat(xs)|
    ensures Concat(xs)[Start(xs, q)..Start(xs, q) + |xs[q]|] == xs[q]
    decreases q
  {
    if q == 0 {
      Slices.Front(xs[0], Concat(xs[1..]));
    } else {
      var t := Start(xs[1..], q - 1);
      PartAt(xs[1..], q - 1);
      Slices.Back(xs[0], Concat(xs[1..]), t, t + |xs[q]|);
    }
  }

  /** Every element belongs to a part. */
  lemma {:induction false} Which<T>(xs: seq<seq<T>>, m: nat) returns (q: nat)
    requires m < |Concat(xs)|
    ensures q < |xs| && Start(xs, q) <= m < Start(xs, q) + |xs[q]|
    decreases |xs|
  {
    if m < |xs[0]| {
      q := 0;
    } else {
      var p := Which(xs[1..], m - |xs[0]|);
      q := p + 1;
    }
  }

  // ---- what is due when a part is complete ----

  predicate AllTrue(bs: seq<bool>) {
    forall k :: 0 <= k < |bs| ==> bs[k]
  }

  lemma AllTrueSlice(bs: seq<bool>, i: nat, k: nat)
    requires i <= k <= |bs|
    ensures AllTrue(bs[i..k]) <==> forall m: nat :: i <= m < k ==> bs[m]
  {
    if AllTrue(bs[i..k]) {
      forall m: nat | i <= m < k
        ensures bs[m]
      {
        assert bs[i..k][m - i] == bs[m];
      }
    }
  }

  /** No part is empty. */
  predicate Proper<T>(xs: seq<seq<T>>) {
    forall k :: 0 <= k < |xs| ==> xs[k] != []
  }

  /** A gain for every part and a bit for every element. */
  predicate Fitting<T, U>(parts: seq<seq<T>>, gains: seq<seq<U>>, bits: seq<bool>) {
    |parts| == |gains| && |bits| == |Concat(parts)|
  }

  /** The gain of part `q`, if all its elements have their bit. */
  function Gain<T, U>(parts: seq<seq<T>>, gains: seq<seq<U>>, bits: seq<bool>, q: nat): seq<U>
    requires Fitting(parts, gains, bits) && q < |parts|
  {
    PartAt(parts, q);
    if AllTrue(bits[Start(parts, q)..Start(parts, q) + |parts[q]|]) then gains[q] else []
  }

  function GainList<T, U>(parts: seq<seq<T>>, gains: seq<seq<U>>, bits: seq<bool>): (r: seq<seq<U>>)
    requires Fitting(parts, gains, bits)
    ensures |r| == |parts| && forall q: nat :: q < |parts| ==> r[q] == Gain(parts, gains, bits, q)
  {
    seq(|parts|, q requires 0 <= q < |parts| => Gain(parts, gains, bits, q))
  }

  /** All gains of the complete parts, in order. */
  function Gains<T, U>(parts: seq<seq<T>>, gains: seq<seq<U>>, bits: seq<bool>): seq<U>
    requires Fitting(parts, gains, bits)
  {
    Concat(GainList(parts, gains, bits))
  }

  function Blank<U>(k: nat): (r: seq<seq<U>>)
    ensures |r| == k && forall m :: 0 <= m < k ==> r[m] == []
  {
    seq(k, _ => [])
  }

  /** The same gains dealt out element by element: a part's gain to its last element. */
  function Shares<T, U>(parts: seq<seq<T>>, gains: seq<seq<U>>, bits: seq<bool>): (r: seq<seq<seq<U>>>)
    requires Fitting(parts, gains, bits) && Proper(parts)
    ensures |r| == |parts|
    ensures forall q: nat :: q < |parts| ==> r[q] == Blank(|parts[q]| - 1) + [Gain(parts, gains, bits, q)]
  {
    seq(|parts|, q requires 0 <= q < |parts| => Blank(|parts[q]| - 1) + [Gain(parts, gains, bits, q)])
  }

  function Slots<T, U>(parts: seq<seq<T>>, gains: seq<seq<U>>, bits: seq<bool>): seq<seq<U>>
    requires Fitting(parts, gains, bits) && Proper(parts)
  {
    Concat(Shares(parts, gains, bits))
  }

  lemma {:induction false} ConcatBlank<U>(k: nat)
    ensures Concat<U>(Blank(k)) == []
  {
    if k == 0 {
    } else {
      assert Blank<U>(k)[1..] == Blank<U>(k - 1);
      ConcatBlank<U>(k - 1);
    }
  }

  lemma {:induction false} ConcatTwice<U>(xss: seq<seq<seq<U>>>, ys: seq<seq<U>>)
    requires |xss| == |ys| && forall q :: 0 <= q < |xss| ==> Concat(xss[q]) == ys[q]
    ensures Concat(Concat(xss)) == Concat(ys)
  {
    if xss == [] {
    } else {
      ConcatTwice(xss[1..], ys[1..]);
      ConcatAppend(xss[0], Concat(xss[1..]));
    }
  }

  lemma SlotsAddUp<T, U>(parts: seq<seq<T>>, gains: seq<seq<U>>, bits: seq<bool>)
    requires Fitting(parts, gains, bits) && Proper(parts)
    ensures Concat(Slots(parts, gains, bits)) == Gains(parts, gains, bits)
  {
    var shares := Shares(parts, gains, bits);
    forall q: nat | q < |parts|
      ensures Concat(shares[q]) == Gain(parts, gains, bits, q)
    {
      var own := Gain(parts, gains, bits, q);
      ConcatAppend(Blank(|parts[q]| - 1), [own]);
      ConcatBlank<U>(|parts[q]| - 1);
      ConcatOne(own);
      assert [] + own == own;
    }
    ConcatTwice(shares, GainList(parts, gains, bits));
  }

  lemma {:induction false} StartsAgree<A, B>(xs: seq<seq<A>>, ys: seq<seq<B>>, q: nat)
    requires |xs| == |ys| && q <= |xs| && forall k :: 0 <= k < |xs| ==> |xs[k]| == |ys[k]|
    ensures Start(xs, q) == Start(ys, q)
  {
    if q == 0 {
    } else {
      StartsAgree(xs[1..], ys[1..], q - 1);
    }
  }

  lemma {:induction false} LengthsAgree<A, B>(xs: seq<seq<A>>, ys: seq<seq<B>>)
    requires |xs| == |ys| && forall k :: 0 <= k < |xs| ==> |xs[k]| == |ys[k]|
    ensures |Concat(xs)| == |Concat(ys)|
  {
    if xs == [] {
    } else {
      LengthsAgree(xs[1..], ys[1..]);
    }
  }

  lemma SharesLengths<T, U>(parts: seq<seq<T>>, gains: seq<seq<U>>, bits: seq<bool>)
    requires Fitting(parts, gains, bits) && Proper(parts)
    ensures |Slots(parts, gains, bits)| == |bits|
    ensures forall q :: 0 <= q < |parts| ==> Start(Shares(parts, gains, bits), q) == Start(parts, q)
  {
    var shares := Shares(parts, gains, bits);
    LengthsAgree(parts, shares);
    forall q | 0 <= q < |parts|
      ensures Start(shares, q) == Start(parts, q)
    {
      StartsAgree(parts, shares, q);
    }
  }

  lemma ShareAt<U>(shares: seq<seq<seq<U>>>, q: nat, size: nat, own: seq<U>, m: nat)
    requires q < |shares| && size > 0 && shares[q] == Blank(size - 1) + [own]
    requires Start(shares, q) <= m < Start(shares, q) + size
    ensures m < |Concat(shares)| && Concat(shares)[m] == if m == Start(shares, q) + size - 1 then own else []
  {
    PartAt(shares, q);
    Slices.At(Concat(shares), Start(shares, q), Start(shares, q) + size, m - Start(shares, q));
  }

  /** The slot of element `m`, which belongs to part `q`. */
  lemma SlotAt<T, U>(parts: seq<seq<T>>, gains: seq<seq<U>>, bits: seq<bool>, q: nat, m: nat)
    requires Fitting(parts, gains, bits) && Proper(parts) && q < |parts|
    requires Start(parts, q) <= m < Start(parts, q) + |parts[q]|
    ensures |Slots(parts, gains, bits)| == |bits| && m < |bits|
    ensures Slots(parts, gains, bits)[m] ==
      if m == Start(parts, q) + |parts[q]| - 1 then Gain(parts, gains, bits, q) else []
  {
    SharesLengths(parts, gains, bits);
    ShareAt(Shares(parts, gains, bits), q, |parts[q]|, Gain(parts, gains, bits, q), m);
  }

  // ---- comparing slots ----

  /** Either as it ought to be, or one unit too many. */
  predicate OneMoreAtMost<U(==)>(xs: seq<seq<U>>, ys: seq<seq<U>>) {
    |xs| == |ys| && forall k :: 0 <= k < |xs| ==> xs[k] == ys[k] || (|xs[k]| == 1 && ys[k] == [])
  }

  lemma {:induction false} ConcatEqualIff<U>(xs: seq<seq<U>>, ys: seq<seq<U>>)
    requires OneMoreAtMost(xs, ys)
    ensures |Concat(xs)| >= |Concat(ys)| && (|Concat(xs)| == |Concat(ys)| <==> xs == ys)
  {
    if xs == [] {
    } else {
      ConcatEqualIff(xs[1..], ys[1..]);
      Slices.HeadTail(xs);
      Slices.HeadTail(ys);
    }
  }
}
