/** Socket.IO text packets and the correlator that joins a binary event's header with the
    attachments that follow it. Of JSON only the arrays `encode_binary_event` prints are
    modelled: strings with the escapes it prints, and placeholder objects. */
module SocketIo {
  import opened Wrappers
  import opened Text
  import Slices

  const U32_MAX: nat := 0xFFFF_FFFF
  const U64_MAX: nat := 0xFFFF_FFFF_FFFF_FFFF

  datatype Json = Str(s: string) | Placeholder(num: nat)

  datatype TextPacket =
    | Connect(auth: Option<string>)
    | Disconnect
    | Event(id: Option<nat>, name: string, args: seq<Json>)
    | Ack(ackId: nat, args: seq<Json>)
    | BinaryEventHeader(count: nat, id: Option<nat>, name: string, placeholders: seq<nat>)

  datatype ParseError = Empty | UnknownType | BadJson | BadBinaryHeader | MissingEventName

  // ---- the JSON arrays ----

  function HexDigit(n: nat): char
    requires n < 16
  {
    if n < 10 then '0' + n as char else 'a' + (n - 10) as char
  }

  function HexValue(c: char): Option<nat> {
    if '0' <= c <= '9' then Some((c - '0') as nat)
    else if 'a' <= c <= 'f' then Some((c - 'a') as nat + 10)
    else if 'A' <= c <= 'F' then Some((c - 'A') as nat + 10)
    else None
  }

  const BACKSPACE: char := '\U{08}'
  const FORM_FEED: char := '\U{0C}'

  /** The letter behind the backslash, for the characters that have one. */
  function ShortEscape(c: char): Option<char> {
    if c == '"' || c == '\\' then Some(c)
    else if c == BACKSPACE then Some('b')
    else if c == '\t' then Some('t')
    else if c == '\n' then Some('n')
    else if c == FORM_FEED then Some('f')
    else if c == '\r' then Some('r')
    else None
  }

  function EscapeChar(c: char): string {
    match ShortEscape(c)
    case Some(e) => ['\\', e]
    case None =>
      if c < ' ' then ['\\', 'u', '0', '0', HexDigit(c as nat / 16), HexDigit(c as nat % 16)] else [c]
  }

  function Escape(s: string): string {
    if s == [] then [] else EscapeChar(s[0]) + Escape(s[1..])
  }

  function ShortUnescape(e: char): Option<char> {
    if e == '"' || e == '\\' || e == '/' then Some(e)
    else if e == 'b' then Some(BACKSPACE)
    else if e == 't' then Some('\t')
    else if e == 'n' then Some('\n')
    else if e == 'f' then Some(FORM_FEED)
    else if e == 'r' then Some('\r')
    else None
  }

  /** A `\u` escape below U+0080; the others, which are never printed, are left out. */
  function HexUnescape(s: string): Option<char>
    requires |s| >= 6
  {
    if s[2] != '0' || s[3] != '0' then None
    else match (HexValue(s[4]), HexValue(s[5]))
      case (Some(h), Some(l)) => if h < 8 then Some((h * 16 + l) as char) else None
      case _ => None
  }

  /** A string up to its closing quote, and what follows. */
  function ParseString(s: string): (r: Option<(string, string)>)
    ensures r.Some? ==> |r.value.1| < |s|
  {
    if s == [] then None
    else if s[0] == '"' then Some(([], s[1..]))
    else if s[0] == '\\' then
      if |s| >= 2 && ShortUnescape(s[1]).Some? then Prefixed(ShortUnescape(s[1]).value, ParseString(s[2..]))
      else if |s| >= 6 && s[1] == 'u' && HexUnescape(s).Some? then Prefixed(HexUnescape(s).value, ParseString(s[6..]))
      else None
    else if s[0] < ' ' then None
    else Prefixed(s[0], ParseString(s[1..]))
  }

  function Prefixed(c: char, r: Option<(string, string)>): Option<(string, string)> {
    match r case None => None case Some((s, rest)) => Some(([c] + s, rest))
  }

  const PLACEHOLDER: string := "{\"_placeholder\":true,\"num\":"

  function EncodePlaceholder(num: nat): string { PLACEHOLDER + Dec(num) + "}" }

  /** Placeholders from `i` up to `n`, each with its comma, and the closing bracket. */
  function EncodePlaceholders(i: nat, n: nat): string
    requires i <= n
    decreases n - i
  {
    if i == n then "]" else "," + EncodePlaceholder(i) + EncodePlaceholders(i + 1, n)
  }

  function EncodeArgs(name: string, n: nat): string { "[\"" + Escape(name) + "\"" + EncodePlaceholders(0, n) }

  /** Length of the leading run of digits. */
  function DigitRun(s: string): (n: nat)
    ensures n <= |s| && Digits(s[..n]) && (n < |s| ==> !IsDigit(s[n]))
  {
    if s == [] || !IsDigit(s[0]) then 0
    else
      var m := DigitRun(s[1..]);
      assert s[..m + 1] == [s[0]] + s[1..][..m];
      m + 1
  }

  function ParsePlaceholder(s: string): (r: Option<(Json, string)>)
    ensures r.Some? ==> |r.value.1| < |s|
  {
    if !(PLACEHOLDER <= s) then None
    else
      var t := s[|PLACEHOLDER|..];
      var n := DigitRun(t);
      if n > 0 && (n == 1 || t[0] != '0') && n < |t| && t[n] == '}' then Some((Placeholder(Value(t[..n])), t[n + 1..]))
      else None
  }

  /** One array element and what follows it. */
  function ParseElement(s: string): Option<(Json, string)> {
    if s == [] then None
    else if s[0] == '"' then
      match ParseString(s[1..]) case None => None case Some((str, rest)) => Some((Str(str), rest))
    else ParsePlaceholder(s)
  }

  lemma ElementTakes(s: string)
    ensures ParseElement(s).Some? ==> |ParseElement(s).value.1| < |s|
  {
  }

  function ParseElements(s: string): Option<seq<Json>>
    decreases |s|
  {
    ElementTakes(s);
    match ParseElement(s)
    case None => None
    case Some((e, rest)) =>
      if rest == "]" then Some([e])
      else if rest != [] && rest[0] == ',' then
        match ParseElements(rest[1..]) case None => None case Some(es) => Some([e] + es)
      else None
  }

  function ParseArray(s: string): Option<seq<Json>> {
    if s == "[]" then Some([])
    else if s != [] && s[0] == '[' then ParseElements(s[1..])
    else None
  }

  // ---- text packets ----

  /** A leading id, if it fits 64 bits, and the remainder. */
  function SplitOptionalId(s: string): (Option<nat>, string) {
    var n := DigitRun(s);
    if n == 0 then (None, s) else (ParseUint(s[..n], U64_MAX), s[n..])
  }

  function PlaceholderNumbers(args: seq<Json>): seq<nat> {
    if args == [] then []
    else (if args[0].Placeholder? && args[0].num <= U64_MAX then [args[0].num % (U32_MAX + 1)] else []) + PlaceholderNumbers(args[1..])
  }

  /** `<count>-[<id>]<array>` */
  function ParseBinaryHeader(rest: string): Result<TextPacket, ParseError> {
    match SplitOnce(rest, '-')
    case None => Err(BadBinaryHeader)
    case Some((count, after)) =>
      match ParseUint(count, U32_MAX)
      case None => Err(BadBinaryHeader)
      case Some(n) =>
        var (id, body) := SplitOptionalId(after);
        match ParseArray(body)
        case None => Err(BadJson)
        case Some(args) =>
          if args == [] || !args[0].Str? then Err(MissingEventName)
          else Ok(BinaryEventHeader(n, id, args[0].s, PlaceholderNumbers(args[1..])))
  }

  function ParseText(frame: string): Result<TextPacket, ParseError> {
    if frame == [] then Err(Empty)
    else
      var kind, rest := frame[0], frame[1..];
      if kind == '0' then Ok(Connect(if rest == [] then None else Some(rest)))
      else if kind == '1' then Ok(Disconnect)
      else if kind == '2' then
        var (id, body) := SplitOptionalId(rest);
        match ParseArray(body)
        case None => Err(BadJson)
        case Some(args) =>
          if args == [] || !args[0].Str? then Err(MissingEventName) else Ok(Event(id, args[0].s, args[1..]))
      else if kind == '3' then
        var (id, body) := SplitOptionalId(rest);
        if id.None? then Err(BadBinaryHeader)
        else match ParseArray(body) case None => Err(BadJson) case Some(args) => Ok(Ack(id.value, args))
      else if kind == '5' then ParseBinaryHeader(rest)
      else Err(UnknownType)
  }

  function AckText(ack: Option<nat>): string { if ack.Some? then Dec(ack.value) else "" }

  function EncodeBinaryEvent(name: string, count: nat, ack: Option<nat>): string {
    "5" + Dec(count) + "-" + AckText(ack) + EncodeArgs(name, count)
  }

  // ---- the header's round trip ----

  function Placeholders(i: nat, n: nat): seq<Json>
    requires i <= n
    decreases n - i
  {
    if i == n then [] else [Placeholder(i)] + Placeholders(i + 1, n)
  }

  lemma {:induction false} DigitRunOf(d: string, rest: string)
    requires Digits(d) && (rest != [] ==> !IsDigit(rest[0]))
    ensures DigitRun(d + rest) == |d|
  {
    if d == [] {
      assert d + rest == rest;
    } else {
      assert (d + rest)[1..] == d[1..] + rest;
      DigitRunOf(d[1..], rest);
    }
  }

  lemma {:induction false} DecNoLeadingZero(n: nat)
    ensures n > 0 ==> Dec(n)[0] != '0'
    ensures n < 10 ==> |Dec(n)| == 1
  {
    if n < 10 {
    } else {
      DecNoLeadingZero(n / 10);
    }
  }

  lemma NumberThenBrace(d: string, rest: string)
    requires Digits(d) && d != [] && (|d| > 1 ==> d[0] != '0')
    ensures ParsePlaceholder(PLACEHOLDER + (d + ("}" + rest))) == Some((Placeholder(Value(d)), rest))
  {
    var t := d + ("}" + rest);
    Slices.Behind(PLACEHOLDER, t);
    DigitRunOf(d, "}" + rest);
    Slices.Behind(d, "}" + rest);
    assert t[..|d|] == d && t[|d|] == '}';
    Slices.Behind("}", rest);
    Slices.Drops(t, |d|, 1);
  }

  lemma PlaceholderShape(num: nat, rest: string)
    ensures EncodePlaceholder(num) + rest == PLACEHOLDER + (Dec(num) + ("}" + rest))
  {
    Slices.Assoc4(PLACEHOLDER, Dec(num), "}", rest);
  }

  lemma PlaceholderParses(num: nat, rest: string)
    ensures ParseElement(EncodePlaceholder(num) + rest) == Some((Placeholder(num), rest))
  {
    DecDigits(num);
    DecNoLeadingZero(num);
    NumberThenBrace(Dec(num), rest);
    PlaceholderShape(num, rest);
    assert (PLACEHOLDER + (Dec(num) + ("}" + rest)))[0] == '{';
  }

  lemma HexRoundTrip(n: nat)
    requires n < 16
    ensures HexValue(HexDigit(n)) == Some(n)
  {
  }

  /** One escaped character is read back. */
  lemma EscapedChar(c: char, rest: string)
    ensures ParseString(EscapeChar(c) + rest) == Prefixed(c, ParseString(rest))
  {
    var s := EscapeChar(c) + rest;
    if ShortEscape(c).Some? {
      assert s[0] == '\\' && s[1] == ShortEscape(c).value && s[2..] == rest;
    } else if c < ' ' {
      var n := c as nat;
      HexRoundTrip(n / 16);
      HexRoundTrip(n % 16);
      assert s[0] == '\\' && s[1] == 'u' && s[2] == '0' && s[3] == '0' && s[4] == HexDigit(n / 16) && s[5] == HexDigit(n % 16);
      assert s[6..] == rest;
    } else {
      assert s[1..] == rest;
    }
  }

  /** And so is every string. */
  lemma {:induction false} EscapeRoundTrip(name: string, rest: string)
    ensures ParseString(Escape(name) + (['"'] + rest)) == Some((name, rest))
  {
    if name == [] {
      assert [] + (['"'] + rest) == ['"'] + rest && (['"'] + rest)[1..] == rest;
    } else {
      EscapedChar(name[0], Escape(name[1..]) + (['"'] + rest));
      EscapeRoundTrip(name[1..], rest);
      Slices.Assoc(EscapeChar(name[0]), Escape(name[1..]), ['"'] + rest);
      Slices.HeadTail(name);
    }
  }

  lemma NameParses(name: string, rest: string)
    ensures ParseElement("\"" + Escape(name) + "\"" + rest) == Some((Str(name), rest))
  {
    var s := "\"" + Escape(name) + "\"" + rest;
    assert s[0] == '"' && s[1..] == Escape(name) + (['"'] + rest);
    EscapeRoundTrip(name, rest);
  }

  /** After an element `e`, the printed placeholders parse. */
  lemma {:induction false} PlaceholdersParse(s: string, e: Json, i: nat, n: nat)
    requires i <= n && ParseElement(s) == Some((e, EncodePlaceholders(i, n)))
    ensures ParseElements(s) == Some([e] + Placeholders(i, n))
    decreases n - i
  {
    ElementTakes(s);
    var rest := EncodePlaceholders(i, n);
    if i == n {
      assert [e] + Placeholders(i, n) == [e];
    } else {
      var tail := EncodePlaceholder(i) + EncodePlaceholders(i + 1, n);
      var more := [Placeholder(i)] + Placeholders(i + 1, n);
      assert rest == "," + tail && rest[0] == ',' && rest[1..] == tail;
      PlaceholderParses(i, EncodePlaceholders(i + 1, n));
      PlaceholdersParse(tail, Placeholder(i), i + 1, n);
      assert ParseElements(rest[1..]) == Some(more) && Placeholders(i, n) == more;
      assert rest != "]";
    }
  }

  lemma ArgsParse(name: string, n: nat)
    ensures ParseArray(EncodeArgs(name, n)) == Some([Str(name)] + Placeholders(0, n))
  {
    var inner := "\"" + Escape(name) + "\"" + EncodePlaceholders(0, n);
    assert "[\"" == "[" + "\"";
    assert EncodeArgs(name, n) == "[" + inner;
    assert EncodeArgs(name, n)[1..] == inner && EncodeArgs(name, n)[1] == '"';
    NameParses(name, EncodePlaceholders(0, n));
    PlaceholdersParse(inner, Str(name), 0, n);
  }

  function UpTo(i: nat, n: nat): (r: seq<nat>)
    requires i <= n
    ensures |r| == n - i && forall k :: 0 <= k < |r| ==> r[k] == i + k
    decreases n - i
  {
    if i == n then [] else [i] + UpTo(i + 1, n)
  }

  lemma {:induction false} NumbersOf(i: nat, n: nat)
    requires i <= n <= U32_MAX + 1
    ensures PlaceholderNumbers(Placeholders(i, n)) == UpTo(i, n)
    decreases n - i
  {
    if i == n {
    } else {
      var rest := Placeholders(i + 1, n);
      NumbersOf(i + 1, n);
      assert ([Placeholder(i)] + rest)[1..] == rest;
      assert PlaceholderNumbers(Placeholders(i, n)) == [i] + PlaceholderNumbers(rest);
    }
  }

  lemma IdParses(ack: Option<nat>, body: string)
    requires (ack.Some? ==> ack.value <= U64_MAX) && body != [] && !IsDigit(body[0])
    ensures SplitOptionalId(AckText(ack) + body) == (ack, body)
  {
    if ack.Some? {
      var d := Dec(ack.value);
      DecDigits(ack.value);
      DecParses(ack.value, U64_MAX);
      DigitRunOf(d, body);
      assert (d + body)[..|d|] == d && (d + body)[|d|..] == body;
    } else {
      assert "" + body == body;
    }
  }

  /** The pieces of a binary header, once each of them parses. */
  lemma HeaderParses(count: nat, after: string, ack: Option<nat>, body: string, name: string, args: seq<Json>)
    requires count <= U32_MAX
    requires SplitOptionalId(after) == (ack, body) && ParseArray(body) == Some([Str(name)] + args)
    ensures ParseBinaryHeader(Dec(count) + ['-'] + after) == Ok(BinaryEventHeader(count, ack, name, PlaceholderNumbers(args)))
  {
    DecParses(count, U32_MAX);
    SplitOnceAt(Dec(count), '-', after);
    assert ([Str(name)] + args)[1..] == args;
  }

  lemma FrameShape(name: string, count: nat, ack: Option<nat>)
    ensures var frame := EncodeBinaryEvent(name, count, ack);
      && |frame| > 0 && frame[0] == '5'
      && frame[1..] == Dec(count) + ['-'] + (AckText(ack) + EncodeArgs(name, count))
  {
    var frame, d, a, args := EncodeBinaryEvent(name, count, ack), Dec(count), AckText(ack), EncodeArgs(name, count);
    assert frame == "5" + d + "-" + a + args;
    Shape(d, a, args);
  }

  lemma Shape(d: string, a: string, args: string)
    ensures ("5" + d + "-" + a + args)[1..] == d + ['-'] + (a + args)
  {
    Slices.Assoc4("5", d, "-", a);
    Slices.Assoc("5", d + "-" + a, args);
    Slices.Assoc(d + "-", a, args);
    assert ("5" + (d + "-" + a + args))[1..] == d + "-" + a + args;
  }

  lemma KindFive(frame: string, rest: string)
    requires |frame| > 0 && frame[0] == '5' && frame[1..] == rest
    ensures ParseText(frame) == ParseBinaryHeader(rest)
  {
  }

  lemma BodyParses(name: string, count: nat, ack: Option<nat>)
    requires count <= U32_MAX && (ack.Some? ==> ack.value <= U64_MAX)
    ensures ParseBinaryHeader(Dec(count) + ['-'] + (AckText(ack) + EncodeArgs(name, count)))
            == Ok(BinaryEventHeader(count, ack, name, UpTo(0, count)))
  {
    var body := EncodeArgs(name, count);
    ArgsParse(name, count);
    IdParses(ack, body);
    HeaderParses(count, AckText(ack) + body, ack, body, name, Placeholders(0, count));
    NumbersOf(0, count);
  }

  /** What was encoded is what is parsed: count, id, name and placeholder numbers. */
  lemma HeaderRoundTrip(name: string, count: nat, ack: Option<nat>)
    requires count <= U32_MAX && (ack.Some? ==> ack.value <= U64_MAX)
    ensures ParseText(EncodeBinaryEvent(name, count, ack)) == Ok(BinaryEventHeader(count, ack, name, UpTo(0, count)))
  {
    FrameShape(name, count, ack);
    BodyParses(name, count, ack);
    KindFive(EncodeBinaryEvent(name, count, ack), Dec(count) + ['-'] + (AckText(ack) + EncodeArgs(name, count)));
  }
}
