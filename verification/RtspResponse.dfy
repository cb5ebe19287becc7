/** Printing responses, and reading them back with the request parser. */
module RtspResponse {
  import opened Wrappers
  import opened Text
  import opened RtspMessage
  import Slices
  import Utf8

  datatype Response = Response(status: nat, reason: string, cseq: nat, headers: seq<(string, string)>, body: Option<string>)

  /** The lines in front of the blank line, each as (name, value). */
  function HeaderFields(r: Response): seq<(string, string)> {
    [("CSeq", Dec(r.cseq))]
    + (if r.body.Some? then [("Content-Length", Dec(|r.body.value|))] else [])
    + r.headers
  }

  function StatusLine(r: Response): string { "RTSP/1.0 " + Dec(r.status) + " " + r.reason }

  function FieldLine(f: (string, string)): string { f.0 + ": " + f.1 }

  function FieldLines(fs: seq<(string, string)>): seq<string> {
    if fs == [] then [] else [FieldLine(fs[0])] + FieldLines(fs[1..])
  }

  function BodyOf(r: Response): string {
    if r.body.Some? then r.body.value else []
  }

  function Formatted(r: Response): string {
    Lines([StatusLine(r)] + FieldLines(HeaderFields(r))) + CRLF + BodyOf(r)
  }

  lemma {:induction false} FieldLinesSnoc(fs: seq<(string, string)>, f: (string, string))
    ensures FieldLines(fs + [f]) == FieldLines(fs) + [FieldLine(f)]
  {
    if fs == [] {
    } else {
      assert (fs + [f])[1..] == fs[1..] + [f];
      FieldLinesSnoc(fs[1..], f);
    }
  }

  lemma TwoLines(a: string, b: string)
    ensures Lines([a, b]) == a + CRLF + b + CRLF
  {
    assert [a, b][1..] == [b] && [b][1..] == [];
    assert Lines([b]) == b + CRLF;
    assert a + CRLF + (b + CRLF) == a + CRLF + b + CRLF;
  }

  lemma FirstLines(r: Response)
    ensures "RTSP/1.0 " + Dec(r.status) + " " + r.reason + CRLF + "CSeq: " + Dec(r.cseq) + CRLF
            == Lines([StatusLine(r)] + FieldLines([("CSeq", Dec(r.cseq))]))
  {
    var fields := [("CSeq", Dec(r.cseq))];
    TwoLines(StatusLine(r), "CSeq: " + Dec(r.cseq));
    assert fields[1..] == [] && FieldLine(fields[0]) == "CSeq: " + Dec(r.cseq);
    assert [StatusLine(r)] + FieldLines(fields) == [StatusLine(r), "CSeq: " + Dec(r.cseq)];
  }

  /** The printer as it runs, appending to a string. */
  method Format(r: Response) returns (out: string)
    ensures out == Formatted(r)
  {
    out := "RTSP/1.0 " + Dec(r.status) + " " + r.reason + CRLF + "CSeq: " + Dec(r.cseq) + CRLF;
    ghost var fields := [("CSeq", Dec(r.cseq))];
    ghost var first := [StatusLine(r)];
    FirstLines(r);
    if r.body.Some? {
      var length := Dec(|r.body.value|);
      OneMoreLine(first, fields, ("Content-Length", length));
      out := out + "Content-Length: " + length + CRLF;
      fields := fields + [("Content-Length", length)];
    }
    ghost var fixed := fields;
    var k := 0;
    while k < |r.headers|
      invariant 0 <= k <= |r.headers|
      invariant fields == fixed + r.headers[..k]
      invariant out == Lines(first + FieldLines(fields))
    {
      OneMoreLine(first, fields, r.headers[k]);
      Slices.TakeNext(r.headers, k);
      Slices.Assoc(fixed, r.headers[..k], [r.headers[k]]);
      out := out + r.headers[k].0 + ": " + r.headers[k].1 + CRLF;
      fields := fields + [r.headers[k]];
      k := k + 1;
    }
    assert r.headers[..k] == r.headers;
    assert fields == HeaderFields(r);
    out := out + CRLF;
    if r.body.Some? {
      out := out + r.body.value;
    }
  }

  lemma OneMoreLine(first: seq<string>, fs: seq<(string, string)>, f: (string, string))
    ensures Lines(first + FieldLines(fs + [f])) == Lines(first + FieldLines(fs)) + f.0 + ": " + f.1 + CRLF
  {
    FieldLinesSnoc(fs, f);
    assert first + FieldLines(fs + [f]) == (first + FieldLines(fs)) + [FieldLine(f)];
    LinesAppend(first + FieldLines(fs), [FieldLine(f)]);
    assert [FieldLine(f)][1..] == [];
  }

  // ---- reading it back ----

  predicate BreakAt(s: string, k: nat) { k + 1 < |s| && s[k] == '\r' && s[k + 1] == '\n' }

  /** Without line breaks. A carriage return or a line feed alone does not end a line. */
  predicate Unbroken(s: string) { forall k: nat :: k < |s| ==> !BreakAt(s, k) }

  lemma UnbrokenWithout(s: string)
    requires '\r' !in s || '\n' !in s
    ensures Unbroken(s)
  {
  }

  lemma UnbrokenPart(a: string, b: string, c: string)
    requires Unbroken(a + b + c)
    ensures Unbroken(b)
  {
    forall k: nat
      ensures !BreakAt(b, k)
    {
      if BreakAt(b, k) { assert BreakAt(a + b + c, |a| + k); }
    }
  }

  lemma UnbrokenTail(s: string)
    requires Unbroken(s) && s != []
    ensures Unbroken(s[1..])
  {
    assert [s[0]] + s[1..] + [] == s;
    UnbrokenPart([s[0]], s[1..], []);
  }

  /** A text in between that has no break characters keeps the ends apart. */
  lemma UnbrokenParts(a: string, mid: string, b: string)
    requires Unbroken(a) && Unbroken(b) && mid != [] && '\r' !in mid && '\n' !in mid
    ensures Unbroken(a + mid + b)
  {
    var s := a + mid + b;
    forall k: nat
      ensures !BreakAt(s, k)
    {
      assert !BreakAt(a, k);
      if k >= |a| + |mid| {
        assert !BreakAt(b, k - |a| - |mid|);
        assert k + 1 < |s| ==> s[k] == b[k - |a| - |mid|] && s[k + 1] == b[k + 1 - |a| - |mid|];
      } else if |a| <= k {
        assert s[k] == mid[k - |a|];
      } else if k + 1 == |a| {
        assert s[k + 1] == mid[0];
      } else {
        assert s[k] == a[k] && s[k + 1] == a[k + 1];
      }
    }
  }

  predicate Plain(s: string) { Unbroken(s) && Utf8.WellFormed(s) }

  /** Without line breaks and colons in the wrong place, and no generated header repeated. */
  predicate PrintableField(f: (string, string)) {
    && Plain(f.0) && Plain(f.1) && ':' !in f.0
    && Key(f.0) != "cseq" && Key(f.0) != "content-length"
  }

  /** What a response must look like to be printed as one message, of a text that fits in
      memory. */
  predicate Printable(r: Response) {
    && r.cseq <= U32_MAX && Plain(r.reason) && |Formatted(r)| <= USIZE_MAX
    && forall k :: 0 <= k < |r.headers| ==> PrintableField(r.headers[k])
  }

  /** Neither empty nor broken. */
  predicate Solid(line: string) { line != [] && Plain(line) }

  predicate Nonblank(ls: seq<string>) { forall k :: 0 <= k < |ls| ==> ls[k] != [] && Unbroken(ls[k]) }

  predicate AllSolid(ls: seq<string>) { forall k :: 0 <= k < |ls| ==> Solid(ls[k]) }

  lemma FrontUnbroken(line: string, rest: string)
    requires line != [] && Unbroken(line)
    ensures !BreakAt(line + CRLF + rest, 0)
  {
    assert !BreakAt(line, 0);
    if |line| == 1 { assert (line + CRLF + rest)[1] == '\r'; }
  }

  /** The first blank line after solid lines is the one printed there. */
  lemma {:induction false} NoEarlyBlankLine(ls: seq<string>, rest: string, j: nat)
    requires Nonblank(ls) && ls != [] && j < |Lines(ls)| - 2
    ensures !OccursAt(Lines(ls) + CRLF + rest, BLANK_LINE, j)
    decreases |ls|
  {
    var s := Lines(ls) + CRLF + rest;
    var line, tail := ls[0], Lines(ls[1..]) + CRLF + rest;
    assert s == line + CRLF + tail;
    if j + 4 > |s| {
    } else {
      var w := s[j..j + 4];
      assert w[0] == s[j] && w[1] == s[j + 1] && w[2] == s[j + 2] && w[3] == s[j + 3];
      if j < |line| {
        assert !BreakAt(line, j);
        assert s[j] == line[j] && s[j + 1] == (if j + 1 < |line| then line[j + 1] else '\r');
      } else if j == |line| {
        assert ls[1..] != [];
        FrontUnbroken(ls[1], Lines(ls[1..][1..]) + CRLF + rest);
        assert tail == ls[1] + CRLF + (Lines(ls[1..][1..]) + CRLF + rest);
        assert s[j + 2] == tail[0] && s[j + 3] == tail[1];
      } else if j == |line| + 1 {
        assert s[j] == '\n';
      } else {
        NoEarlyBlankLine(ls[1..], rest, j - |line| - 2);
        assert tail[j - |line| - 2..j - |line| + 2] == w;
      }
    }
  }

  /** The text in front of the blank line. */
  function HeadText(ls: seq<string>): string
    requires ls != []
  {
    LinesEndCrlf(ls);
    Lines(ls)[..|Lines(ls)| - 2]
  }

  lemma {:induction false} LinesEndCrlf(ls: seq<string>)
    requires ls != []
    ensures |Lines(ls)| >= 2 && Lines(ls)[|Lines(ls)| - 2..] == CRLF
  {
    if |ls| == 1 {
    } else {
      LinesEndCrlf(ls[1..]);
    }
  }

  lemma BlankLineFound(ls: seq<string>, rest: string)
    requires Nonblank(ls) && ls != []
    ensures |Lines(ls)| >= 2
    ensures Find(Lines(ls) + CRLF + rest, BLANK_LINE) == Some(|Lines(ls)| - 2)
    ensures (Lines(ls) + CRLF + rest)[..|Lines(ls)| - 2] == HeadText(ls)
  {
    LinesEndCrlf(ls);
    var s, i := Lines(ls) + CRLF + rest, |Lines(ls)| - 2;
    assert s[i..i + 4] == Lines(ls)[i..] + CRLF == BLANK_LINE;
    forall j: nat | j < i
      ensures !OccursAt(s, BLANK_LINE, j)
    {
      NoEarlyBlankLine(ls, rest, j);
    }
    FindUnique(s, BLANK_LINE, i);
  }

  lemma {:induction false} SplitSolidAfter(line: string, s: string)
    requires Unbroken(line)
    ensures SplitCrlf(line + CRLF + s) == [line] + SplitCrlf(s)
  {
    if line == [] {
      assert (line + CRLF + s)[2..] == s;
    } else {
      FrontUnbroken(line, s);
      UnbrokenTail(line);
      assert (line + CRLF + s)[1..] == line[1..] + CRLF + s;
      SplitSolidAfter(line[1..], s);
      assert [line[0]] + line[1..] == line;
    }
  }

  lemma {:induction false} SplitSolid(line: string)
    requires Unbroken(line)
    ensures SplitCrlf(line) == [line]
  {
    if line == [] {
    } else {
      assert !BreakAt(line, 0);
      UnbrokenTail(line);
      SplitSolid(line[1..]);
      assert [line[0]] + line[1..] == line;
    }
  }

  predicate Ascii(s: string) { forall k :: 0 <= k < |s| ==> (s[k] as int) < 0x80 }

  lemma PlainParts(a: string, mid: string, b: string)
    requires Plain(a) && Plain(b) && Ascii(mid) && mid != [] && '\r' !in mid && '\n' !in mid
    ensures Plain(a + mid + b)
  {
    UnbrokenParts(a, mid, b);
    WellFormedParts(a, mid, b);
  }

  lemma WellFormedParts(a: string, mid: string, b: string)
    requires Utf8.WellFormed(a) && Utf8.WellFormed(b) && Ascii(mid)
    ensures Utf8.WellFormed(a + mid + b)
  {
    Utf8.Append(a, mid);
    Utf8.Ascii(mid);
    Utf8.Append(a + mid, b);
  }

  lemma PlainAfter(front: string, b: string)
    requires Plain(b) && Ascii(front) && front != [] && '\r' !in front && '\n' !in front
    ensures Plain(front + b)
  {
    assert [] + front + b == front + b;
    PlainParts([], front, b);
  }

  lemma {:induction false} SplitText(ls: seq<string>)
    requires AllSolid(ls) && ls != []
    ensures SplitCrlf(HeadText(ls)) == ls && Utf8.WellFormed(HeadText(ls))
  {
    LinesEndCrlf(ls);
    if |ls| == 1 {
      assert Lines(ls[1..]) == [];
      assert HeadText(ls) == ls[0];
      SplitSolid(ls[0]);
    } else {
      LinesEndCrlf(ls[1..]);
      assert HeadText(ls) == ls[0] + CRLF + HeadText(ls[1..]);
      SplitText(ls[1..]);
      SplitSolidAfter(ls[0], HeadText(ls[1..]));
      WellFormedParts(ls[0], CRLF, HeadText(ls[1..]));
    }
  }

  /** The header map of a list of fields, later ones replacing earlier ones. */
  function Collect(fs: seq<(string, string)>, seen: map<string, string>): map<string, string> {
    if fs == [] then seen else Collect(fs[1..], seen[Key(fs[0].0) := Trim(fs[0].1)])
  }

  predicate NoColons(fs: seq<(string, string)>) { forall k :: 0 <= k < |fs| ==> ':' !in fs[k].0 }

  lemma {:induction false} FieldsParse(fs: seq<(string, string)>, seen: map<string, string>)
    requires NoColons(fs)
    ensures ParseHeaders(FieldLines(fs), seen) == Ok(Collect(fs, seen))
  {
    if fs == [] {
    } else {
      var (name, value) := fs[0];
      assert FieldLine(fs[0]) == name + [':'] + ([' '] + value);
      SplitOnceAt(name, ':', [' '] + value);
      TrimOneSpace(value);
      FieldsParse(fs[1..], seen[Key(name) := Trim(value)]);
    }
  }

  lemma {:induction false} CollectKeeps(fs: seq<(string, string)>, seen: map<string, string>, key: string)
    requires forall k :: 0 <= k < |fs| ==> Key(fs[k].0) != key
    ensures key in Collect(fs, seen) <==> key in seen
    ensures key in seen ==> Collect(fs, seen)[key] == seen[key]
  {
    if fs == [] {
    } else {
      CollectKeeps(fs[1..], seen[Key(fs[0].0) := Trim(fs[0].1)], key);
    }
  }

  lemma KeyIs(name: string, key: string)
    requires name != [] && Visible(name[0]) && Visible(name[|name| - 1])
    requires |key| == |name| && forall k :: 0 <= k < |name| ==> key[k] == LowerChar(name[k])
    ensures Key(name) == key
  {
    VisibleEnds(name);
    TrimOfTrimmed(name);
    assert Lower(name) == key;
  }

  lemma CSeqKey()
    ensures Key("CSeq") == "cseq"
  {
    KeyIs("CSeq", "cseq");
  }

  lemma LengthKey()
    ensures Key("Content-Length") == "content-length"
  {
    KeyIs("Content-Length", "content-length");
  }

  /** The generated headers survive whatever else is printed. */
  lemma GeneratedHeaders(r: Response)
    requires Printable(r)
    ensures var h := Collect(HeaderFields(r), map[]);
      && "cseq" in h && h["cseq"] == Dec(r.cseq)
      && BodyLength(h) == Ok(|BodyOf(r)|)
  {
    CSeqKey();
    LengthKey();
    DecParses(r.cseq, U32_MAX);
    DecTrimmed(r.cseq);
    TrimOfTrimmed(Dec(r.cseq));
    var fs := HeaderFields(r);
    var m := map["cseq" := Dec(r.cseq)];
    assert map[]["cseq" := Dec(r.cseq)] == m;
    if r.body.Some? {
      var length := Dec(|r.body.value|);
      DecParses(|r.body.value|, USIZE_MAX);
      DecTrimmed(|r.body.value|);
      TrimOfTrimmed(length);
      assert fs[1..][1..] == r.headers;
      m := m["content-length" := length];
    } else {
      assert fs[1..] == r.headers;
    }
    assert Collect(fs, map[]) == Collect(r.headers, m);
    CollectKeeps(r.headers, m, "cseq");
    CollectKeeps(r.headers, m, "content-length");
  }

  lemma DecPlain(n: nat)
    ensures Solid(Dec(n)) && ' ' !in Dec(n)
  {
    DecDigits(n);
    Utf8.Ascii(Dec(n));
    UnbrokenWithout(Dec(n));
  }

  lemma {:induction false} FieldLinesSolid(fs: seq<(string, string)>)
    requires forall k :: 0 <= k < |fs| ==> Plain(fs[k].0) && Plain(fs[k].1)
    ensures AllSolid(FieldLines(fs))
  {
    if fs == [] {
    } else {
      PlainParts(fs[0].0, ": ", fs[0].1);
      FieldLinesSolid(fs[1..]);
    }
  }

  lemma StatusLinePlain(r: Response)
    requires Plain(r.reason)
    ensures Plain(StatusLine(r))
  {
    DecPlain(r.status);
    PlainParts(Dec(r.status), " ", r.reason);
    PlainAfter("RTSP/1.0 ", Dec(r.status) + " " + r.reason);
    Slices.Assoc4("RTSP/1.0 ", Dec(r.status), " ", r.reason);
  }

  lemma StatusLineParses(r: Response)
    ensures var first := ParseRequestLine(StatusLine(r));
      && first.Ok? && ParseMethod(first.value.0) == Unsupported && first.value.1 == Dec(r.status)
  {
    DecPlain(r.status);
    var rest := Dec(r.status) + " " + r.reason;
    assert StatusLine(r) == "RTSP/1.0" + [' '] + rest;
    SplitOnceAt("RTSP/1.0", ' ', rest);
    SplitOnceAt(Dec(r.status), ' ', r.reason);
  }

  function AllLines(r: Response): seq<string> { [StatusLine(r)] + FieldLines(HeaderFields(r)) }

  lemma GeneratedLine(name: string, n: nat)
    requires Ascii(name) && '\r' !in name && '\n' !in name
    ensures Solid(FieldLine((name, Dec(n))))
  {
    DecPlain(n);
    PlainAfter(name + ": ", Dec(n));
  }

  lemma FieldsNoColons(r: Response)
    requires Printable(r)
    ensures NoColons(HeaderFields(r))
  {
  }

  lemma HeaderFieldsSolid(r: Response)
    requires Printable(r)
    ensures AllSolid(FieldLines(HeaderFields(r)))
  {
    var fs := HeaderFields(r);
    GeneratedLine("CSeq", r.cseq);
    GeneratedLine("Content-Length", |BodyOf(r)|);
    FieldLinesSolid(r.headers);
    if r.body.Some? {
      assert fs[1..][1..] == r.headers;
    } else {
      assert fs[1..] == r.headers;
    }
  }

  lemma AllLinesSolid(r: Response)
    requires Printable(r)
    ensures AllSolid(AllLines(r))
  {
    StatusLinePlain(r);
    HeaderFieldsSolid(r);
  }

  lemma HeadOf(text: string, ls: seq<string>, first: (string, string), headers: map<string, string>)
    requires Utf8.WellFormed(text) && SplitCrlf(text) == ls && ls != []
    requires ParseRequestLine(ls[0]) == Ok(first) && ParseHeaders(ls[1..], map[]) == Ok(headers)
    ensures ParseHead(text) == Ok(Head(ParseMethod(first.0), first.1, headers))
  {
  }

  lemma HeadParses(r: Response)
    requires Printable(r)
    ensures ParseHead(HeadText(AllLines(r))) == Ok(Head(Unsupported, Dec(r.status), Collect(HeaderFields(r), map[])))
  {
    AllLinesSolid(r);
    SplitText(AllLines(r));
    StatusLineParses(r);
    FieldsNoColons(r);
    FieldsParse(HeaderFields(r), map[]);
    Slices.Behind([StatusLine(r)], FieldLines(HeaderFields(r)));
    HeadOf(HeadText(AllLines(r)), AllLines(r), ParseRequestLine(StatusLine(r)).value, Collect(HeaderFields(r), map[]));
  }

  lemma FormatFront(r: Response, rest: string)
    requires Printable(r)
    ensures var buf := Formatted(r) + rest; var i := |Lines(AllLines(r))| - 2;
      && i >= 0 && Find(buf, BLANK_LINE) == Some(i) && i + 4 + |BodyOf(r)| == |Formatted(r)|
      && buf[..i] == HeadText(AllLines(r))
  {
    AllLinesSolid(r);
    FrontOf(AllLines(r), BodyOf(r), rest);
  }

  lemma FrontOf(ls: seq<string>, body: string, rest: string)
    requires Nonblank(ls) && ls != []
    ensures var text := Lines(ls) + CRLF + body; var i := |Lines(ls)| - 2;
      && i >= 0 && Find(text + rest, BLANK_LINE) == Some(i) && i + 4 + |body| == |text|
      && (text + rest)[..i] == HeadText(ls)
  {
    var head := Lines(ls) + CRLF;
    Slices.Assoc(head, body, rest);
    BlankLineFound(ls, body + rest);
  }

  // Parse in two steps, first the head and then the body.

  lemma HeadTaken(buf: string, i: nat, head: Head)
    requires Find(buf, BLANK_LINE) == Some(i) && i + 4 <= |buf|
    requires ParseHead(buf[..i]) == Ok(head)
    ensures Parse(buf) == TakeBody(buf, i + 4, head)
  {
  }

  lemma BodyTaken(buf: string, end: nat, head: Head, body: string)
    requires BodyLength(head.headers) == Ok(|body|) && end <= USIZE_MAX
    requires |body| <= end <= |buf| && buf[end - |body|..end] == body
    ensures TakeBody(buf, end - |body|, head) == Ok((Request(head.verb, head.uri, head.headers, body), end))
  {
  }

  lemma CSeqOf(req: Request, n: nat)
    requires n <= U32_MAX && "cseq" in req.headers && req.headers["cseq"] == Dec(n)
    ensures CSeq(req) == Some(n)
  {
    DecParses(n, U32_MAX);
    DecTrimmed(n);
    TrimOfTrimmed(Dec(n));
  }

  lemma FormatHeadTaken(r: Response, rest: string, head: Head)
    requires Printable(r) && head == Head(Unsupported, Dec(r.status), Collect(HeaderFields(r), map[]))
    ensures |BodyOf(r)| <= |Formatted(r)|
    ensures Parse(Formatted(r) + rest) == TakeBody(Formatted(r) + rest, |Formatted(r)| - |BodyOf(r)|, head)
  {
    FormatFront(r, rest);
    HeadParses(r);
    HeadTaken(Formatted(r) + rest, |Lines(AllLines(r))| - 2, head);
  }

  lemma FormatBack(r: Response, rest: string)
    ensures |BodyOf(r)| <= |Formatted(r)|
    ensures (Formatted(r) + rest)[|Formatted(r)| - |BodyOf(r)|..|Formatted(r)|] == BodyOf(r)
  {
    Slices.Middle(Lines([StatusLine(r)] + FieldLines(HeaderFields(r))) + CRLF, BodyOf(r), rest);
  }

  lemma FormatBodyTaken(r: Response, rest: string, head: Head)
    requires BodyLength(head.headers) == Ok(|BodyOf(r)|) && |Formatted(r)| <= USIZE_MAX
    ensures |BodyOf(r)| <= |Formatted(r)|
    ensures TakeBody(Formatted(r) + rest, |Formatted(r)| - |BodyOf(r)|, head)
            == Ok((Request(head.verb, head.uri, head.headers, BodyOf(r)), |Formatted(r)|))
  {
    FormatBack(r, rest);
    BodyTaken(Formatted(r) + rest, |Formatted(r)|, head, BodyOf(r));
  }

  lemma FormatCSeq(r: Response, req: Request)
    requires Printable(r) && req.headers == Collect(HeaderFields(r), map[])
    ensures CSeq(req) == Some(r.cseq)
  {
    GeneratedHeaders(r);
    CSeqOf(req, r.cseq);
  }

  /** Printed and followed by anything, a response is read back as exactly its bytes, with
      all its header fields, its CSeq and its body. */
  lemma FormatParses(r: Response, rest: string)
    requires Printable(r)
    ensures var req := Request(Unsupported, Dec(r.status), Collect(HeaderFields(r), map[]), BodyOf(r));
      && Parse(Formatted(r) + rest) == Ok((req, |Formatted(r)|))
      && CSeq(req) == Some(r.cseq)
  {
    var head := Head(Unsupported, Dec(r.status), Collect(HeaderFields(r), map[]));
    FormatHeadTaken(r, rest, head);
    GeneratedHeaders(r);
    FormatBodyTaken(r, rest, head);
    FormatCSeq(r, Request(Unsupported, Dec(r.status), head.headers, BodyOf(r)));
  }

  // ---- many responses in a row ----

  function FormattedAll(rs: seq<Response>): string {
    if rs == [] then [] else Formatted(rs[0]) + FormattedAll(rs[1..])
  }

  /** Everything that parses off the front of a buffer, and what is left. */
  function ParseAll(buf: string): (seq<Request>, string)
    decreases |buf|
  {
    ParseTakes(buf);
    match Parse(buf)
    case Err(_) => ([], buf)
    case Ok((req, n)) =>
      var (more, left) := ParseAll(buf[n..]);
      ([req] + more, left)
  }

  lemma FirstOfStream(r: Response, rest: string)
    requires Printable(r)
    ensures var (reqs, left) := ParseAll(Formatted(r) + rest);
      && reqs != [] && (reqs[1..], left) == ParseAll(rest)
      && CSeq(reqs[0]) == Some(r.cseq) && reqs[0].body == BodyOf(r)
  {
    FormatParses(r, rest);
    Slices.Behind(Formatted(r), rest);
    var (reqs, _) := ParseAll(Formatted(r) + rest);
    Slices.Behind([reqs[0]], ParseAll(rest).0);
  }

  /** A stream of responses parses into as many messages, none left over, each carrying
      its own CSeq and body. */
  lemma {:induction false} StreamRoundTrip(rs: seq<Response>)
    requires forall k :: 0 <= k < |rs| ==> Printable(rs[k])
    ensures var (reqs, left) := ParseAll(FormattedAll(rs));
      && left == [] && |reqs| == |rs|
      && forall k :: 0 <= k < |rs| ==> CSeq(reqs[k]) == Some(rs[k].cseq) && reqs[k].body == BodyOf(rs[k])
  {
    if rs == [] {
      FindFirst([], BLANK_LINE);
    } else {
      FirstOfStream(rs[0], FormattedAll(rs[1..]));
      StreamRoundTrip(rs[1..]);
    }
  }
}
