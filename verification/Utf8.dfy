/** Well-formed UTF-8 (RFC 3629, section 4), on strings of bytes. */
module Utf8 {
  import opened Wrappers

  predicate Tail(c: char) { 0x80 <= c as int <= 0xBF }

  /** Length of the sequence a first byte announces, or 0. */
  function Width(b: char): nat {
    if (b as int) < 0x80 then 1
    else if 0xC2 <= b as int <= 0xDF then 2
    else if 0xE0 <= b as int <= 0xEF then 3
    else if 0xF0 <= b as int <= 0xF4 then 4
    else 0
  }

  /** The second byte is a tail, with a narrower range after some first bytes. */
  predicate Second(b: char, c: char) {
    && (if b as int == 0xE0 then 0xA0 else if b as int == 0xF0 then 0x90 else 0x80) <= c as int
    && c as int <= (if b as int == 0xED then 0x9F else if b as int == 0xF4 then 0x8F else 0xBF)
  }

  /** Length of the well-formed sequence at the front, or 0 if there is none. */
  function FrontLength(s: string): (n: nat)
    requires s != []
    ensures n <= |s|
  {
    var w := Width(s[0]);
    if |s| < w || (w >= 2 && !Second(s[0], s[1])) || (w >= 3 && !Tail(s[2])) || (w == 4 && !Tail(s[3])) then 0 else w
  }

  predicate WellFormed(s: string)
    decreases |s|
  {
    s == [] || (FrontLength(s) > 0 && WellFormed(s[FrontLength(s)..]))
  }

  lemma FrontStays(a: string, b: string)
    requires a != [] && FrontLength(a) > 0
    ensures FrontLength(a + b) == FrontLength(a)
  {
  }

  lemma {:induction false} Append(a: string, b: string)
    requires WellFormed(a)
    ensures WellFormed(a + b) <==> WellFormed(b)
    decreases |a|
  {
    if a == [] {
      assert a + b == b;
    } else {
      FrontStays(a, b);
      var n := FrontLength(a);
      assert (a + b)[n..] == a[n..] + b;
      Append(a[n..], b);
    }
  }

  lemma {:induction false} Ascii(s: string)
    requires forall k :: 0 <= k < |s| ==> (s[k] as int) < 0x80
    ensures WellFormed(s)
  {
    if s == [] {
    } else {
      Ascii(s[1..]);
    }
  }

  /** `Utf8Error::valid_up_to` */
  function ValidUpTo(s: string): (n: nat)
    ensures n <= |s|
    decreases |s|
  {
    if s == [] || FrontLength(s) == 0 then 0 else FrontLength(s) + ValidUpTo(s[FrontLength(s)..])
  }

  /** `Utf8Error::error_len`, for what stands at that place: None if the text only ends too
      early. */
  function ErrorLength(s: string): Option<nat>
    requires s != [] && FrontLength(s) == 0
  {
    if Width(s[0]) == 0 then Some(1)
    else if |s| < 2 then None
    else if !Second(s[0], s[1]) then Some(1)
    else if |s| < 3 then None
    else if !Tail(s[2]) then Some(2)
    else if |s| < 4 then None
    else Some(3)
  }

  lemma {:induction false} StopsShort(s: string)
    requires !WellFormed(s)
    ensures ValidUpTo(s) < |s| && FrontLength(s[ValidUpTo(s)..]) == 0
    decreases |s|
  {
    var n := FrontLength(s);
    if n == 0 {
      assert s[0..] == s;
    } else {
      StopsShort(s[n..]);
      assert s[n..][ValidUpTo(s[n..])..] == s[ValidUpTo(s)..];
    }
  }

  lemma FrontOfPrefix(s: string, k: nat)
    requires s != [] && 0 < FrontLength(s) <= k <= |s|
    ensures FrontLength(s[..k]) == FrontLength(s)
  {
  }

  lemma FrontFirst(s: string, k: nat)
    requires s != [] && 0 < FrontLength(s) <= k <= |s|
    ensures WellFormed(s[..k]) <==> WellFormed(s[FrontLength(s)..][..k - FrontLength(s)])
  {
    FrontOfPrefix(s, k);
    assert s[..k][FrontLength(s)..] == s[FrontLength(s)..][..k - FrontLength(s)];
  }

  /** It is the length of the longest well-formed prefix. */
  lemma {:induction false} ValidUpToLongest(s: string, k: nat)
    requires k <= |s|
    ensures WellFormed(s[..ValidUpTo(s)])
    ensures WellFormed(s[..k]) ==> k <= ValidUpTo(s)
    decreases |s|
  {
    if s == [] || FrontLength(s) == 0 {
    } else {
      var n := FrontLength(s);
      ValidUpToLongest(s[n..], if n <= k then k - n else 0);
      FrontFirst(s, ValidUpTo(s));
      if n <= k { FrontFirst(s, k); }
    }
  }

  /** The text can be cut at an ASCII character. */
  lemma {:induction false} CutAtAscii(a: string, c: char, b: string)
    requires (c as int) < 0x80 && WellFormed(a + [c] + b)
    ensures WellFormed(a) && WellFormed(b)
    decreases |a|
  {
    var s := a + [c] + b;
    var n := FrontLength(s);
    if a == [] {
      assert s[1..] == b;
    } else {
      assert s[|a|] == c && forall j :: 0 <= j < |a| ==> s[j] == a[j];
      assert n <= |a|;
      assert s[n..] == a[n..] + [c] + b;
      CutAtAscii(a[n..], c, b);
    }
  }
}
