/** RTSP requests and responses on the wire (RFC 2326, sections 6 and 7). Buffers are
    strings of bytes. */
module RtspMessage {
  import opened Wrappers
  import opened Text
  import Slices
  import Utf8

  const BLANK_LINE: string := "\r\n\r\n"
  const U32_MAX: nat := 0xFFFF_FFFF
  const USIZE_MAX: nat := 0xFFFF_FFFF_FFFF_FFFF

  datatype Method = Options | Describe | Setup | Play | Teardown | GetParameter | Unsupported

  datatype Request = Request(verb: Method, uri: string, headers: map<string, string>, body: string)

  /** Overflow is no error of the source: it stands for the panic when the end of the body
      has no `usize`. */
  datatype ParseError =
    | Incomplete
    | BadRequestLine(line: string)
    | BadHeaderLine(line: string)
    | BadUtf8(validUpTo: nat, length: Option<nat>)
    | BadContentLength(value: string)
    | Overflow

  /** What stands before the blank line. */
  datatype Head = Head(verb: Method, uri: string, headers: map<string, string>)

  function ParseMethod(s: string): Method {
    if s == "OPTIONS" then Options
    else if s == "DESCRIBE" then Describe
    else if s == "SETUP" then Setup
    else if s == "PLAY" then Play
    else if s == "TEARDOWN" then Teardown
    else if s == "GET_PARAMETER" then GetParameter
    else Unsupported
  }

  /** `split("\r\n")` */
  function SplitCrlf(s: string): (r: seq<string>)
    ensures |r| >= 1
  {
    if |s| >= 2 && s[0] == '\r' && s[1] == '\n' then [[]] + SplitCrlf(s[2..])
    else if s == [] then [[]]
    else
      var rest := SplitCrlf(s[1..]);
      [[s[0]] + rest[0]] + rest[1..]
  }

  function ParseRequestLine(line: string): Result<(string, string), ParseError> {
    match SplitOnce(line, ' ')
    case None => Err(BadRequestLine(line))
    case Some((verb, rest)) =>
      match SplitOnce(rest, ' ')
      case None => Err(BadRequestLine(line))
      case Some((uri, _)) => Ok((verb, uri))
  }

  function Key(name: string): string { Lower(Trim(name)) }

  /** The header lines from left to right; a later line replaces an earlier one. */
  function ParseHeaders(lines: seq<string>, seen: map<string, string>): Result<map<string, string>, ParseError> {
    if lines == [] then Ok(seen)
    else if lines[0] == [] then ParseHeaders(lines[1..], seen)
    else match SplitOnce(lines[0], ':')
      case None => Err(BadHeaderLine(lines[0]))
      case Some((name, value)) => ParseHeaders(lines[1..], seen[Key(name) := Trim(value)])
  }

  /** Where the text stops being well-formed, and for how many bytes. */
  function Utf8Error(text: string): ParseError
    requires !Utf8.WellFormed(text)
  {
    var n := Utf8.ValidUpTo(text);
    Utf8.StopsShort(text);
    BadUtf8(n, Utf8.ErrorLength(text[n..]))
  }

  function ParseHead(text: string): Result<Head, ParseError> {
    if !Utf8.WellFormed(text) then Err(Utf8Error(text))
    else
      var lines := SplitCrlf(text);
      match ParseRequestLine(lines[0])
      case Err(e) => Err(e)
      case Ok((verb, uri)) =>
        match ParseHeaders(lines[1..], map[])
        case Err(e) => Err(e)
        case Ok(headers) => Ok(Head(ParseMethod(verb), uri, headers))
  }

  function BodyLength(headers: map<string, string>): Result<nat, ParseError> {
    if "content-length" !in headers then Ok(0)
    else
      var value := headers["content-length"];
      match ParseUint(value, USIZE_MAX)
      case None => Err(BadContentLength(value))
      case Some(n) => Ok(n)
  }

  /** The request with its body, which starts at `from`. */
  function TakeBody(buf: string, from: nat, head: Head): Result<(Request, nat), ParseError>
    requires from <= |buf|
  {
    match BodyLength(head.headers)
    case Err(e) => Err(e)
    case Ok(n) =>
      if from + n > USIZE_MAX then Err(Overflow)
      else if |buf| < from + n then Err(Incomplete)
      else Ok((Request(head.verb, head.uri, head.headers, buf[from..from + n]), from + n))
  }

  /** One request from the front of the buffer, with the number of bytes it takes. */
  function Parse(buf: string): Result<(Request, nat), ParseError> {
    match Find(buf, BLANK_LINE)
    case None => Err(Incomplete)
    case Some(i) =>
      FindFirst(buf, BLANK_LINE);
      match ParseHead(buf[..i])
      case Err(e) => Err(e)
      case Ok(head) => TakeBody(buf, i + 4, head)
  }

  /** The parser as it runs, filling the header map line by line. */
  method ParseRequest(buf: string) returns (r: Result<(Request, nat), ParseError>)
    ensures r == Parse(buf)
  {
    FindFirst(buf, BLANK_LINE);
    var at := Find(buf, BLANK_LINE);
    if at.None? {
      return Err(Incomplete);
    }
    var headerEnd := at.value + 4;
    var text := buf[..at.value];
    if !Utf8.WellFormed(text) {
      return Err(Utf8Error(text));
    }
    var lines := SplitCrlf(text);
    var first := ParseRequestLine(lines[0]);
    if first.Err? {
      return Err(first.error);
    }
    var headers: map<string, string> := map[];
    var k := 1;
    while k < |lines|
      invariant 1 <= k <= |lines|
      invariant ParseHeaders(lines[k..], headers) == ParseHeaders(lines[1..], map[])
    {
      Slices.Drops(lines, k, 1);
      var line := lines[k];
      k := k + 1;
      if line == [] {
        continue;
      }
      var parts := SplitOnce(line, ':');
      if parts.None? {
        return Err(BadHeaderLine(line));
      }
      headers := headers[Key(parts.value.0) := Trim(parts.value.1)];
    }
    var bodyLen := BodyLength(headers);
    if bodyLen.Err? {
      return Err(bodyLen.error);
    }
    if headerEnd + bodyLen.value > USIZE_MAX {
      return Err(Overflow);
    }
    if |buf| < headerEnd + bodyLen.value {
      return Err(Incomplete);
    }
    var body := buf[headerEnd..headerEnd + bodyLen.value];
    r := Ok((Request(ParseMethod(first.value.0), first.value.1, headers, body), headerEnd + bodyLen.value));
  }

  function CSeq(req: Request): Option<nat> {
    if "cseq" in req.headers then ParseUint(Trim(req.headers["cseq"]), U32_MAX) else None
  }

  function Header(req: Request, name: string): Option<string> {
    if Lower(name) in req.headers then Some(req.headers[Lower(name)]) else None
  }

  // ---- the parser on growing buffers ----

  lemma FindInLonger(buf: string, more: string)
    requires Find(buf, BLANK_LINE).Some?
    ensures Find(buf + more, BLANK_LINE) == Find(buf, BLANK_LINE)
  {
    FindFirst(buf, BLANK_LINE);
    var i := Find(buf, BLANK_LINE).value;
    forall j: nat | j <= i
      ensures OccursAt(buf + more, BLANK_LINE, j) <==> OccursAt(buf, BLANK_LINE, j)
    {
      assert j + 4 <= |buf| ==> (buf + more)[j..j + 4] == buf[j..j + 4];
    }
    FindUnique(buf + more, BLANK_LINE, i);
  }

  lemma BodyStable(buf: string, more: string, from: nat, head: Head)
    requires from <= |buf| && TakeBody(buf, from, head) != Err(Incomplete)
    ensures TakeBody(buf + more, from, head) == TakeBody(buf, from, head)
  {
    if TakeBody(buf, from, head).Ok? {
      var n := TakeBody(buf, from, head).value.1;
      assert (buf + more)[from..n] == buf[from..n];
    }
  }

  /** A request, once parsed, is what it is whatever follows; so is every error but
      Incomplete. */
  lemma ParseStable(buf: string, more: string)
    requires Parse(buf) != Err(Incomplete)
    ensures Parse(buf + more) == Parse(buf)
  {
    FindFirst(buf, BLANK_LINE);
    FindInLonger(buf, more);
    var i := Find(buf, BLANK_LINE).value;
    assert (buf + more)[..i] == buf[..i];
    var head := ParseHead(buf[..i]);
    if head.Ok? {
      BodyStable(buf, more, i + 4, head.value);
    }
  }

  /** Nothing shorter than the whole request parses. */
  lemma ParseMinimal(buf: string, k: nat)
    requires Parse(buf).Ok? && k < Parse(buf).value.1
    ensures k <= |buf| && Parse(buf[..k]) == Err(Incomplete)
  {
    FindFirst(buf, BLANK_LINE);
    var i := Find(buf, BLANK_LINE).value;
    var short := buf[..k];
    FindFirst(short, BLANK_LINE);
    if Find(short, BLANK_LINE).Some? {
      assert buf == short + buf[k..];
      FindInLonger(short, buf[k..]);
      assert short[..i] == buf[..i];
    }
  }

  lemma ParseTakes(buf: string)
    ensures Parse(buf).Ok? ==> 4 <= Parse(buf).value.1 <= |buf|
  {
  }
}
