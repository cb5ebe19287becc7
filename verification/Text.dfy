/** The string operations the wire formats use, on strings of bytes. */
module Text {
  import opened Wrappers

  const CRLF: string := "\r\n"

  // ---- searching and splitting ----

  /** `windows(n).position(|w| w == needle)` and `str::find` */
  function Find(s: string, needle: string): Option<nat> {
    if |s| < |needle| then None
    else if s[..|needle|] == needle then Some(0)
    else if s == [] then None
    else match Find(s[1..], needle) case Some(i) => Some(i + 1) case None => None
  }

  predicate OccursAt(s: string, needle: string, i: nat) {
    i + |needle| <= |s| && s[i..i + |needle|] == needle
  }

  lemma {:induction false} FindFirst(s: string, needle: string)
    ensures var r := Find(s, needle);
      && (r.Some? ==> OccursAt(s, needle, r.value) && forall j: nat :: j < r.value ==> !OccursAt(s, needle, j))
      && (r.None? ==> forall j: nat :: !OccursAt(s, needle, j))
  {
    if |s| < |needle| || s[..|needle|] == needle || s == [] {
    } else {
      FindFirst(s[1..], needle);
      forall j: nat | 0 < j
        ensures OccursAt(s, needle, j) <==> OccursAt(s[1..], needle, j - 1)
      {
        if j + |needle| <= |s| {
          assert s[j..j + |needle|] == s[1..][j - 1..j - 1 + |needle|];
        }
      }
      assert !OccursAt(s, needle, 0);
    }
  }

  lemma FindUnique(s: string, needle: string, i: nat)
    requires OccursAt(s, needle, i) && forall j: nat :: j < i ==> !OccursAt(s, needle, j)
    ensures Find(s, needle) == Some(i)
  {
    FindFirst(s, needle);
  }

  /** `split_once` on a character */
  function SplitOnce(s: string, c: char): Option<(string, string)> {
    if s == [] then None
    else if s[0] == c then Some(([], s[1..]))
    else match SplitOnce(s[1..], c)
      case Some((a, b)) => Some(([s[0]] + a, b))
      case None => None
  }

  lemma {:induction false} SplitOnceAt(a: string, c: char, b: string)
    requires c !in a
    ensures SplitOnce(a + [c] + b, c) == Some((a, b))
  {
    if a == [] {
      assert (a + [c] + b)[1..] == b;
    } else {
      assert (a + [c] + b)[1..] == a[1..] + [c] + b;
      SplitOnceAt(a[1..], c, b);
      assert [a[0]] + a[1..] == a;
    }
  }

  lemma {:induction false} SplitOnceParts(s: string, c: char)
    ensures SplitOnce(s, c).Some? ==> SplitOnce(s, c).value.0 + [c] + SplitOnce(s, c).value.1 == s
  {
    if s == [] || s[0] == c {
    } else {
      SplitOnceParts(s[1..], c);
    }
  }

  /** `split` on a character */
  function Split(s: string, c: char): (r: seq<string>)
    ensures |r| >= 1
  {
    if s == [] then [[]]
    else
      var rest := Split(s[1..], c);
      if s[0] == c then [[]] + rest else [[s[0]] + rest[0]] + rest[1..]
  }

  function Join(parts: seq<string>, c: char): string
    requires |parts| >= 1
  {
    if |parts| == 1 then parts[0] else parts[0] + [c] + Join(parts[1..], c)
  }

  predicate Free(parts: seq<string>, c: char) {
    forall k :: 0 <= k < |parts| ==> c !in parts[k]
  }

  lemma {:induction false} SplitAfter(a: string, c: char, s: string)
    requires c !in a
    ensures Split(a + [c] + s, c) == [a] + Split(s, c)
  {
    if a == [] {
      assert (a + [c] + s)[1..] == s;
    } else {
      assert (a + [c] + s)[1..] == a[1..] + [c] + s;
      SplitAfter(a[1..], c, s);
      assert [a[0]] + a[1..] == a;
    }
  }

  lemma {:induction false} SplitNone(s: string, c: char)
    requires c !in s
    ensures Split(s, c) == [s]
  {
    if s == [] {
    } else {
      SplitNone(s[1..], c);
      assert [s[0]] + s[1..] == s;
    }
  }

  lemma {:induction false} SplitJoin(parts: seq<string>, c: char)
    requires |parts| >= 1 && Free(parts, c)
    ensures Split(Join(parts, c), c) == parts
  {
    if |parts| == 1 {
      SplitNone(parts[0], c);
    } else {
      SplitAfter(parts[0], c, Join(parts[1..], c));
      SplitJoin(parts[1..], c);
    }
  }

  lemma {:induction false} SplitPartsFree(s: string, c: char)
    ensures Free(Split(s, c), c)
  {
    if s == [] {
    } else {
      SplitPartsFree(s[1..], c);
    }
  }

  /** Every line with its line end. */
  function Lines(ls: seq<string>): string {
    if ls == [] then [] else ls[0] + CRLF + Lines(ls[1..])
  }

  lemma {:induction false} LinesAppend(xs: seq<string>, ys: seq<string>)
    ensures Lines(xs + ys) == Lines(xs) + Lines(ys)
  {
    if xs == [] {
      assert xs + ys == ys;
    } else {
      assert (xs + ys)[1..] == xs[1..] + ys;
      LinesAppend(xs[1..], ys);
    }
  }

  // ---- trimming and case ----

  // White space in UTF-8: the ASCII characters, U+0085 and U+00A0 in two bytes, and in three
  // U+1680, U+2000 to U+200A, U+2028, U+2029, U+202F, U+205F and U+3000.

  predicate IsSpace1(c: char) { c == ' ' || '\t' <= c <= '\r' }

  predicate IsSpace2(b: char, c: char) { b == '\U{C2}' && (c == '\U{85}' || c == '\U{A0}') }

  predicate IsSpace3(b: char, c: char, d: char) {
    || (b == '\U{E1}' && c == '\U{9A}' && d == '\U{80}')
    || (b == '\U{E2}' && c == '\U{80}' && ('\U{80}' <= d <= '\U{8A}' || d == '\U{A8}' || d == '\U{A9}' || d == '\U{AF}'))
    || (b == '\U{E2}' && c == '\U{81}' && d == '\U{9F}')
    || (b == '\U{E3}' && c == '\U{80}' && d == '\U{80}')
  }

  /** The string is one white-space character. */
  predicate IsSpace(s: string) {
    || (|s| == 1 && IsSpace1(s[0]))
    || (|s| == 2 && IsSpace2(s[0], s[1]))
    || (|s| == 3 && IsSpace3(s[0], s[1], s[2]))
  }

  /** Length of the white-space character that begins with `read` and goes on in `s`, or 0. */
  function SpaceFrom(read: string, s: string): (n: nat)
    ensures n <= |read| + |s|
    decreases |s|
  {
    if IsSpace(read) then |read| else if |read| >= 3 || s == [] then 0 else SpaceFrom(read + [s[0]], s[1..])
  }

  /** The same for one that ends with `read`. */
  function SpaceUpTo(s: string, read: string): (n: nat)
    ensures n <= |read| + |s|
    decreases |s|
  {
    if IsSpace(read) then |read|
    else if |read| >= 3 || s == [] then 0
    else SpaceUpTo(s[..|s| - 1], [s[|s| - 1]] + read)
  }

  /** Length of the white-space character at the front, or 0. */
  function SpaceFront(s: string): (n: nat)
    ensures n <= |s|
  {
    SpaceFrom([], s)
  }

  /** And at the end. */
  function SpaceBack(s: string): (n: nat)
    ensures n <= |s|
  {
    SpaceUpTo(s, [])
  }

  function TrimStart(s: string): string
    decreases |s|
  {
    if SpaceFront(s) > 0 then TrimStart(s[SpaceFront(s)..]) else s
  }

  function TrimEnd(s: string): string
    decreases |s|
  {
    if SpaceBack(s) > 0 then TrimEnd(s[..|s| - SpaceBack(s)]) else s
  }

  /** `trim` */
  function Trim(s: string): string { TrimEnd(TrimStart(s)) }

  predicate Trimmed(s: string) { SpaceFront(s) == 0 && SpaceBack(s) == 0 }

  predicate Visible(c: char) { '!' <= c <= '~' }

  lemma {:induction false} VisibleFront(read: string, s: string)
    requires if read == [] then s != [] ==> Visible(s[0]) else Visible(read[0])
    ensures SpaceFrom(read, s) == 0
    decreases |s|
  {
    if |read| >= 3 || s == [] {
    } else {
      VisibleFront(read + [s[0]], s[1..]);
    }
  }

  lemma {:induction false} VisibleBack(s: string, read: string)
    requires if read == [] then s != [] ==> Visible(s[|s| - 1]) else Visible(read[|read| - 1])
    ensures SpaceUpTo(s, read) == 0
    decreases |s|
  {
    if |read| >= 3 || s == [] {
    } else {
      VisibleBack(s[..|s| - 1], [s[|s| - 1]] + read);
    }
  }

  lemma VisibleEnds(s: string)
    requires s != [] && Visible(s[0]) && Visible(s[|s| - 1])
    ensures Trimmed(s)
  {
    VisibleFront([], s);
    VisibleBack(s, []);
  }

  lemma TrimmedLast(s: string)
    requires Trimmed(s) && s != []
    ensures s[|s| - 1] != '\r'
  {
    assert [s[|s| - 1]] + [] == [s[|s| - 1]];
    assert SpaceBack(s) == SpaceUpTo(s[..|s| - 1], [s[|s| - 1]]);
  }

  lemma TrimOneSpace(s: string)
    ensures Trim([' '] + s) == Trim(s)
  {
    assert ([' '] + s)[1..] == s && [] + [' '] == [' '];
    assert SpaceFront([' '] + s) == SpaceFrom([' '], s) == 1;
  }

  lemma TrimOfTrimmed(s: string)
    requires Trimmed(s)
    ensures Trim(s) == s && Trim([' '] + s) == s
  {
    TrimOneSpace(s);
  }

  lemma {:induction false} SpaceOfPrefix(read: string, s: string, k: nat)
    requires k <= |s|
    ensures SpaceFrom(read, s[..k]) > 0 ==> SpaceFrom(read, s) > 0
    decreases k
  {
    if k == 0 {
    } else {
      assert s[..k][1..] == s[1..][..k - 1];
      SpaceOfPrefix(read + [s[0]], s[1..], k - 1);
    }
  }

  lemma {:induction false} TrimEndTrims(s: string)
    ensures TrimEnd(s) <= s && SpaceBack(TrimEnd(s)) == 0
    decreases |s|
  {
    if SpaceBack(s) == 0 {
    } else {
      TrimEndTrims(s[..|s| - SpaceBack(s)]);
    }
  }

  lemma {:induction false} TrimStartTrims(s: string)
    ensures SpaceFront(TrimStart(s)) == 0 && forall c :: c in TrimStart(s) ==> c in s
    decreases |s|
  {
    if SpaceFront(s) == 0 {
    } else {
      TrimStartTrims(s[SpaceFront(s)..]);
    }
  }

  lemma TrimTrims(s: string)
    ensures Trimmed(Trim(s)) && forall c :: c in Trim(s) ==> c in s
  {
    TrimStartTrims(s);
    TrimEndTrims(TrimStart(s));
    SpaceOfPrefix([], TrimStart(s), |Trim(s)|);
    assert TrimStart(s)[..|Trim(s)|] == Trim(s);
  }

  function LowerChar(c: char): char {
    if 'A' <= c <= 'Z' then 'a' + (c - 'A') else c
  }

  /** `to_ascii_lowercase` */
  function Lower(s: string): string {
    seq(|s|, i requires 0 <= i < |s| => LowerChar(s[i]))
  }

  // ---- numbers ----

  function Digit(d: nat): char
    requires d < 10
  {
    '0' + d as char
  }

  predicate IsDigit(c: char) { '0' <= c <= '9' }

  function Dec(n: nat): string {
    if n < 10 then [Digit(n)] else Dec(n / 10) + [Digit(n % 10)]
  }

  predicate Digits(s: string) { forall k :: 0 <= k < |s| ==> IsDigit(s[k]) }

  function Value(s: string): nat
    requires Digits(s)
  {
    if s == [] then 0 else Value(s[..|s| - 1]) * 10 + (s[|s| - 1] - '0') as nat
  }

  /** `parse` into an unsigned type whose greatest value is `max` */
  function ParseUint(s: string, max: nat): Option<nat> {
    var d := if s != [] && s[0] == '+' then s[1..] else s;
    if d == [] || !Digits(d) || Value(d) > max then None else Some(Value(d))
  }

  lemma {:induction false} DecDigits(n: nat)
    ensures Digits(Dec(n)) && Dec(n) != [] && Value(Dec(n)) == n
  {
    if n < 10 {
    } else {
      DecDigits(n / 10);
      var s := Dec(n);
      assert s[..|s| - 1] == Dec(n / 10);
      assert s[|s| - 1] == Digit(n % 10);
    }
  }

  lemma DecTrimmed(n: nat)
    ensures Trimmed(Dec(n))
  {
    DecDigits(n);
    DigitsVisible(Dec(n));
  }

  lemma DigitsVisible(s: string)
    requires Digits(s) && s != []
    ensures Trimmed(s)
  {
    assert IsDigit(s[0]) && IsDigit(s[|s| - 1]);
    VisibleEnds(s);
  }

  lemma DecParses(n: nat, max: nat)
    requires n <= max
    ensures ParseUint(Dec(n), max) == Some(n)
    ensures forall c :: c in Dec(n) ==> IsDigit(c)
  {
    DecDigits(n);
  }
}
