/** Slices of slices, and concatenations of concatenations. */
module Slices {
  lemma Nested<T>(s: seq<T>, i: nat, k: nat, a: nat, b: nat)
    requires i <= k <= |s| && a <= b <= k - i
    ensures s[i..k][a..b] == s[i + a..i + b]
  {
    var l, r := s[i..k][a..b], s[i + a..i + b];
    assert |l| == |r|;
    forall j | 0 <= j < |l|
      ensures l[j] == r[j]
    {
      assert l[j] == s[i..k][a + j] == s[i + (a + j)];
    }
  }

  lemma Rest<T>(s: seq<T>, i: nat, k: nat, a: nat)
    requires i <= k <= |s| && a <= k - i
    ensures s[i..k][a..] == s[i + a..k]
  {
  }

  lemma Drops<T>(s: seq<T>, i: nat, k: nat)
    requires i + k <= |s|
    ensures s[i..][k..] == s[i + k..]
  {
  }

  lemma Front<T>(a: seq<T>, b: seq<T>)
    ensures (a + b)[0..|a|] == a
  {
  }

  lemma Behind<T>(a: seq<T>, b: seq<T>)
    ensures (a + b)[|a|..] == b
  {
  }

  lemma Middle<T>(a: seq<T>, b: seq<T>, c: seq<T>)
    ensures (a + b + c)[|a|..|a| + |b|] == b
  {
  }

  lemma Back<T>(a: seq<T>, b: seq<T>, i: nat, k: nat)
    requires i <= k <= |b|
    ensures (a + b)[i + |a|..i + |a| + (k - i)] == b[i..k]
  {
  }

  lemma TakeNext<T>(s: seq<T>, k: nat)
    requires k < |s|
    ensures s[..k + 1] == s[..k] + [s[k]]
  {
  }

  lemma At<T>(s: seq<T>, i: nat, k: nat, m: nat)
    requires i + m < k <= |s|
    ensures s[i..k][m] == s[i + m]
  {
  }

  lemma HeadTail<T>(s: seq<T>)
    requires s != []
    ensures [s[0]] + s[1..] == s
  {
  }

  lemma Assoc<T>(a: seq<T>, b: seq<T>, c: seq<T>)
    ensures a + b + c == a + (b + c)
  {
  }

  lemma Assoc4<T>(a: seq<T>, b: seq<T>, c: seq<T>, d: seq<T>)
    ensures a + b + c + d == a + (b + c + d)
    ensures a + b + c + d == a + (b + (c + d))
  {
    Assoc(a, b, c);
    Assoc(a, b + c, d);
    Assoc(b, c, d);
  }
}
