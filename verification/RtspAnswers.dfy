/** What a client reads back: the connection's responses, printed and parsed again. */
module RtspAnswers {
  import opened Wrappers
  import opened Text
  import opened RtspMessage
  import opened RtspResponse
  import opened RtspSession
  import opened RtspServer
  import opened Sdp
  import Slices
  import Utf8

  // ---- the fields of a response ----

  /** Neither of the characters of a line break, not even alone. */
  predicate OneLine(s: string) { '\r' !in s && '\n' !in s }

  predicate Graphic(s: string) { forall k :: 0 <= k < |s| ==> ' ' <= s[k] <= '~' }

  lemma GraphicPlain(s: string)
    requires Graphic(s)
    ensures Plain(s) && OneLine(s)
  {
    Utf8.Ascii(s);
    UnbrokenWithout(s);
  }

  /** A header name that is neither of the generated ones, by its length alone. */
  predicate OwnName(name: string) {
    && Graphic(name) && ':' !in name && |name| >= 5 && |name| != 14
    && Visible(name[0]) && Visible(name[|name| - 1])
  }

  lemma OwnField(f: (string, string))
    requires OwnName(f.0) && Plain(f.1)
    ensures PrintableField(f)
  {
    GraphicPlain(f.0);
    VisibleEnds(f.0);
    TrimOfTrimmed(f.0);
    assert |Key(f.0)| == |f.0| && |"cseq"| == 4 && |"content-length"| == 14;
  }

  /** The fields a session sends, but for the echoed URI. */
  predicate KnownField(f: (string, string), id: string) {
    || f == ("Public", "OPTIONS, DESCRIBE, SETUP, PLAY, TEARDOWN, GET_PARAMETER")
    || f == ("Content-Type", "application/sdp")
    || f == ("Range", "npt=0.000-")
    || (f.0 == "Transport" && Graphic(f.1))
    || (f.0 == "Session" && (f.1 == [] || f.1 == id))
  }

  predicate KnownReason(s: string) {
    || s == "OK" || s == "Not Found" || s == "Bad Request" || s == "Unsupported Transport"
    || s == "Method Not Valid In This State" || s == "Session Not Found" || s == "Not Implemented"
  }

  lemma ShortReasonsGraphic()
    ensures Graphic("OK") && Graphic("Not Found") && Graphic("Bad Request") && Graphic("Not Implemented")
  {
  }

  lemma LongReasonsGraphic()
    ensures Graphic("Unsupported Transport") && Graphic("Method Not Valid In This State") && Graphic("Session Not Found")
  {
  }

  lemma KnownReasonGraphic(s: string)
    requires KnownReason(s)
    ensures Graphic(s)
  {
    ShortReasonsGraphic();
    LongReasonsGraphic();
  }

  lemma GraphicParts(a: string, b: string)
    requires Graphic(a) && Graphic(b)
    ensures Graphic(a + b)
  {
  }

  lemma PublicFront()
    ensures Graphic("OPTIONS, DESCRIBE, SETUP, ")
  {
  }

  lemma PublicBack()
    ensures Graphic("PLAY, TEARDOWN, GET_PARAMETER")
  {
  }

  lemma PublicGraphic()
    ensures Graphic("OPTIONS, DESCRIBE, SETUP, PLAY, TEARDOWN, GET_PARAMETER")
  {
    PublicFront();
    PublicBack();
    GraphicParts("OPTIONS, DESCRIBE, SETUP, ", "PLAY, TEARDOWN, GET_PARAMETER");
    assert "OPTIONS, DESCRIBE, SETUP, PLAY, TEARDOWN, GET_PARAMETER" == "OPTIONS, DESCRIBE, SETUP, " + "PLAY, TEARDOWN, GET_PARAMETER";
  }

  lemma TextsGraphic()
    ensures Graphic("application/sdp") && Graphic("npt=0.000-")
  {
  }

  lemma LongNamesOwn()
    ensures OwnName("Content-Type") && OwnName("Content-Base")
  {
  }

  lemma ShortNamesOwn()
    ensures OwnName("Public") && OwnName("Range") && OwnName("Transport") && OwnName("Session")
  {
  }

  lemma KnownFieldOwn(f: (string, string), id: string)
    requires KnownField(f, id)
    ensures OwnName(f.0) && (Graphic(f.1) || f.1 == id)
  {
    PublicGraphic();
    TextsGraphic();
    LongNamesOwn();
    ShortNamesOwn();
  }

  predicate OwnFields(headers: seq<(string, string)>, id: string) {
    forall k :: 0 <= k < |headers| ==> KnownField(headers[k], id)
  }

  lemma OwnFieldsPrintable(headers: seq<(string, string)>, id: string)
    requires OwnFields(headers, id) && Plain(id)
    ensures PrintableFields(headers)
  {
    forall k | 0 <= k < |headers|
      ensures PrintableField(headers[k])
    {
      KnownFieldOwn(headers[k], id);
      if Graphic(headers[k].1) { GraphicPlain(headers[k].1); }
      OwnField(headers[k]);
    }
  }

  predicate PrintableFields(headers: seq<(string, string)>) {
    forall k :: 0 <= k < |headers| ==> PrintableField(headers[k])
  }

  lemma DigitsGraphic(n: nat)
    ensures Graphic(Dec(n))
  {
    DecDigits(n);
  }

  lemma TransportGraphic(pair: (nat, nat))
    ensures Graphic(TransportText(pair))
  {
    DigitsGraphic(pair.0);
    DigitsGraphic(pair.1);
  }

  lemma CSeqInRange(req: Request)
    ensures CSeq(req).Some? ==> CSeq(req).value <= U32_MAX
  {
  }

  function CSeqOr0(req: Request): nat {
    match CSeq(req) case Some(n) => n case None => 0
  }

  /** An accepted DESCRIBE: its answer repeats the URI. */
  predicate Echoes(env: Env, req: Request) { req.verb.Describe? && UriMatches(req.uri, env.path) }

  predicate KnowsOnly(s: View, id: string) { s.sessionId.Some? ==> s.sessionId.value == id }

  lemma KnowsStep(s: View, req: Request, ctx: Context)
    requires KnowsOnly(s, ctx.newSessionId)
    ensures KnowsOnly(Handle(s, req, ctx).0, ctx.newSessionId)
  {
  }

  lemma AnswersInOrder(s: View, req: Request, ctx: Context)
    ensures Handle(s, req, ctx).1.cseq == CSeqOr0(req)
  {
  }

  lemma SetupReason(s: View, req: Request, ctx: Context)
    requires req.verb.Setup?
    ensures KnownReason(Handle(s, req, ctx).1.reason)
  {
  }

  lemma PlayReason(s: View, req: Request, ctx: Context)
    requires req.verb.Play?
    ensures KnownReason(Handle(s, req, ctx).1.reason)
  {
  }

  lemma OtherReason(s: View, req: Request, ctx: Context)
    requires !req.verb.Setup? && !req.verb.Play?
    ensures KnownReason(Handle(s, req, ctx).1.reason)
  {
  }

  lemma ReasonKnown(s: View, req: Request, ctx: Context)
    ensures KnownReason(Handle(s, req, ctx).1.reason)
  {
    if req.verb.Setup? {
      SetupReason(s, req, ctx);
    } else if req.verb.Play? {
      PlayReason(s, req, ctx);
    } else {
      OtherReason(s, req, ctx);
    }
  }

  lemma DescribeFields(s: View, req: Request, ctx: Context)
    requires req.verb.Describe? && UriMatches(req.uri, ctx.expectedPath)
    ensures var headers := Handle(s, req, ctx).1.headers;
      && |headers| == 2 && KnownField(headers[0], [])
      && OwnName(headers[1].0) && headers[1].1 == req.uri
  {
    LongNamesOwn();
  }

  lemma SetupFields(s: View, req: Request, ctx: Context)
    requires req.verb.Setup?
    ensures OwnFields(Handle(s, req, ctx).1.headers, ctx.newSessionId)
  {
    if Granted(req).Some? { TransportGraphic(Granted(req).value); }
  }

  lemma OtherFields(s: View, req: Request, ctx: Context)
    requires !req.verb.Describe? && !req.verb.Setup? && KnowsOnly(s, ctx.newSessionId)
    ensures OwnFields(Handle(s, req, ctx).1.headers, ctx.newSessionId)
  {
  }

  lemma EchoedField(first: (string, string), echo: (string, string))
    requires PrintableField(first) && OwnName(echo.0) && Plain(echo.1)
    ensures PrintableFields([first, echo])
  {
    OwnField(echo);
    assert [first, echo][0] == first && [first, echo][1] == echo;
  }

  lemma KnownFieldPrintable(f: (string, string), id: string)
    requires KnownField(f, id) && Plain(id)
    ensures PrintableField(f)
  {
    OwnFieldsPrintable([f], id);
    assert [f][0] == f;
  }

  lemma DescribePrintable(s: View, req: Request, ctx: Context)
    requires req.verb.Describe? && UriMatches(req.uri, ctx.expectedPath) && Plain(req.uri)
    ensures PrintableFields(Handle(s, req, ctx).1.headers)
  {
    var headers := Handle(s, req, ctx).1.headers;
    DescribeFields(s, req, ctx);
    KnownFieldPrintable(headers[0], []);
    EchoedField(headers[0], headers[1]);
    assert headers == [headers[0], headers[1]];
  }

  lemma FixedFields(s: View, req: Request, ctx: Context)
    requires KnowsOnly(s, ctx.newSessionId) && !(req.verb.Describe? && UriMatches(req.uri, ctx.expectedPath))
    ensures OwnFields(Handle(s, req, ctx).1.headers, ctx.newSessionId)
  {
    if req.verb.Setup? {
      SetupFields(s, req, ctx);
    } else if !req.verb.Describe? {
      OtherFields(s, req, ctx);
    }
  }

  /** The answer to a request prints as one message, if it fits in memory. */
  lemma AnswerPrintable(s: View, req: Request, ctx: Context)
    requires Plain(ctx.newSessionId) && KnowsOnly(s, ctx.newSessionId) && Plain(req.uri)
    requires |Formatted(Handle(s, req, ctx).1)| <= USIZE_MAX
    ensures Printable(Handle(s, req, ctx).1)
  {
    var r := Handle(s, req, ctx).1;
    AnswersInOrder(s, req, ctx);
    CSeqInRange(req);
    ReasonKnown(s, req, ctx);
    KnownReasonGraphic(r.reason);
    GraphicPlain(r.reason);
    if req.verb.Describe? && UriMatches(req.uri, ctx.expectedPath) {
      DescribePrintable(s, req, ctx);
    } else {
      FixedFields(s, req, ctx);
      OwnFieldsPrintable(r.headers, ctx.newSessionId);
    }
  }

  /** Every header in one line, for readers that end a line at a single character too. */
  predicate OneLineFields(headers: seq<(string, string)>) {
    forall k :: 0 <= k < |headers| ==> OneLine(headers[k].0) && OneLine(headers[k].1)
  }

  lemma KnownFieldOneLine(f: (string, string), id: string)
    requires KnownField(f, id) && OneLine(id)
    ensures OneLine(f.0) && OneLine(f.1)
  {
    KnownFieldOwn(f, id);
    GraphicPlain(f.0);
    if Graphic(f.1) { GraphicPlain(f.1); }
  }

  lemma OwnFieldsOneLine(headers: seq<(string, string)>, id: string)
    requires OwnFields(headers, id) && OneLine(id)
    ensures OneLineFields(headers)
  {
    forall k | 0 <= k < |headers|
      ensures OneLine(headers[k].0) && OneLine(headers[k].1)
    {
      KnownFieldOneLine(headers[k], id);
    }
  }

  lemma EchoedOneLine(headers: seq<(string, string)>, uri: string)
    requires |headers| == 2 && OneLine(headers[0].0) && OneLine(headers[0].1) && OneLine(headers[1].0) && headers[1].1 == uri
    ensures OneLineFields(headers) <==> OneLine(uri)
  {
  }

  /** Its headers are in one line each exactly if it repeats no URI with such a character. */
  lemma AnswerOneLineIff(s: View, req: Request, ctx: Context)
    requires OneLine(ctx.newSessionId) && KnowsOnly(s, ctx.newSessionId)
    ensures OneLineFields(Handle(s, req, ctx).1.headers) <==>
      (req.verb.Describe? && UriMatches(req.uri, ctx.expectedPath) ==> OneLine(req.uri))
  {
    var headers := Handle(s, req, ctx).1.headers;
    if req.verb.Describe? && UriMatches(req.uri, ctx.expectedPath) {
      DescribeFields(s, req, ctx);
      KnownFieldOneLine(headers[0], []);
      GraphicPlain(headers[1].0);
      EchoedOneLine(headers, req.uri);
    } else {
      FixedFields(s, req, ctx);
      OwnFieldsOneLine(headers, ctx.newSessionId);
    }
  }

  // ---- the answers of a connection ----

  /** The requests that get an answer: those up to the one that ends the connection, and that
      one too, unless the camera is unavailable. */
  function Answered(c: Conn, env: Env, reqs: seq<Request>): seq<Request>
    decreases |reqs|
  {
    if reqs == [] || c.end.Some? then []
    else
      var d := HandleOne(c, env, reqs[0]);
      (if d.end == Some(Unavailable) then [] else [reqs[0]]) + Answered(d, env, reqs[1..])
  }

  lemma {:induction false} AnsweredAmong(c: Conn, env: Env, reqs: seq<Request>)
    ensures forall req :: req in Answered(c, env, reqs) ==> req in reqs
    decreases |reqs|
  {
    if reqs == [] || c.end.Some? {
    } else {
      AnsweredAmong(HandleOne(c, env, reqs[0]), env, reqs[1..]);
    }
  }

  /** The response belongs to the request: it has its CSeq, prints as one message, and has
      its headers in one line each unless it repeats a URI that is not. */
  predicate Suits(env: Env, req: Request, r: Response) {
    && r.cseq == CSeqOr0(req)
    && (Plain(req.uri) && |Formatted(r)| <= USIZE_MAX ==> Printable(r))
    && (OneLineFields(r.headers) <==> (Echoes(env, req) ==> OneLine(req.uri)))
  }

  /** As every session id the server makes is. */
  predicate GoodId(env: Env) { Plain(env.sessionId) && OneLine(env.sessionId) }

  /** The id of the n-th connection. */
  function MadeId(n: nat): string { "BUDDY3D-" + Dec(n) }

  lemma MadeIdsGood(env: Env, n: nat)
    requires env.sessionId == MadeId(n)
    ensures GoodId(env)
  {
    DigitsGraphic(n);
    GraphicPlain(MadeId(n));
  }

  lemma HandleSuits(c: Conn, env: Env, sub: Option<H264Params>, req: Request)
    requires KnowsOnly(c.session, env.sessionId) && GoodId(env)
    ensures Suits(env, req, Handle(c.session, req, ContextFor(env, sub)).1)
  {
    var ctx := ContextFor(env, sub);
    AnswersInOrder(c.session, req, ctx);
    AnswerOneLineIff(c.session, req, ctx);
    if Plain(req.uri) && |Formatted(Handle(c.session, req, ctx).1)| <= USIZE_MAX {
      AnswerPrintable(c.session, req, ctx);
    }
  }

  function Latest(c: Conn): Response {
    if c.out == [] then OkResponse(0, []) else c.out[|c.out| - 1]
  }

  lemma StepAnswers(c: Conn, env: Env, req: Request)
    requires KnowsOnly(c.session, env.sessionId) && GoodId(env) && c.end.None?
    ensures var d := HandleOne(c, env, req);
      && KnowsOnly(d.session, env.sessionId)
      && (d.end != Some(Unavailable) ==> Suits(env, req, Latest(d)))
  {
    var sub := if c.sub.None? && NeedsSubscription(req.verb) then env.subscribed else c.sub;
    KnowsStep(c.session, req, ContextFor(env, sub));
    HandleSuits(c, env, sub, req);
  }

  /** The responses to them. */
  function Responses(c: Conn, env: Env, reqs: seq<Request>): seq<Response>
    decreases |reqs|
  {
    if reqs == [] || c.end.Some? then []
    else
      var d := HandleOne(c, env, reqs[0]);
      (if d.end == Some(Unavailable) then [] else [Latest(d)]) + Responses(d, env, reqs[1..])
  }

  lemma OutGrows(c: Conn, env: Env, req: Request)
    requires c.end.None?
    ensures var d := HandleOne(c, env, req); d.out == c.out + (if d.end == Some(Unavailable) then [] else [Latest(d)])
  {
  }

  lemma {:induction false} ServeSends(c: Conn, env: Env, reqs: seq<Request>)
    ensures Serve(c, env, reqs).out == c.out + Responses(c, env, reqs)
    decreases |reqs|
  {
    if reqs == [] || c.end.Some? {
    } else {
      var d := HandleOne(c, env, reqs[0]);
      OutGrows(c, env, reqs[0]);
      ServeSends(d, env, reqs[1..]);
      Slices.Assoc(c.out, if d.end == Some(Unavailable) then [] else [Latest(d)], Responses(d, env, reqs[1..]));
    }
  }

  predicate AllSuit(env: Env, reqs: seq<Request>, out: seq<Response>) {
    |reqs| == |out| && forall k :: 0 <= k < |out| ==> Suits(env, reqs[k], out[k])
  }

  lemma SuitsFirst(env: Env, req: Request, r: Response, reqs: seq<Request>, out: seq<Response>)
    requires Suits(env, req, r) && AllSuit(env, reqs, out)
    ensures AllSuit(env, [req] + reqs, [r] + out)
  {
  }

  lemma {:induction false} AnswersSuit(c: Conn, env: Env, reqs: seq<Request>)
    requires KnowsOnly(c.session, env.sessionId) && GoodId(env)
    ensures AllSuit(env, Answered(c, env, reqs), Responses(c, env, reqs))
    decreases |reqs|
  {
    if reqs == [] || c.end.Some? {
    } else {
      var d := HandleOne(c, env, reqs[0]);
      StepAnswers(c, env, reqs[0]);
      AnswersSuit(d, env, reqs[1..]);
      if d.end == Some(Unavailable) {
        assert [] + Answered(d, env, reqs[1..]) == Answered(d, env, reqs[1..]);
        assert [] + Responses(d, env, reqs[1..]) == Responses(d, env, reqs[1..]);
      } else {
        SuitsFirst(env, reqs[0], Latest(d), Answered(d, env, reqs[1..]), Responses(d, env, reqs[1..]));
      }
    }
  }

  // ---- requests parsed from bytes ----

  lemma {:induction false} FirstLine(text: string) returns (rest: string)
    ensures text == SplitCrlf(text)[0] || text == SplitCrlf(text)[0] + ['\r'] + rest
    decreases |text|
  {
    if |text| >= 2 && text[0] == '\r' && text[1] == '\n' {
      rest := text[1..];
    } else if text == [] {
      rest := [];
    } else {
      rest := FirstLine(text[1..]);
      Slices.HeadTail(text);
      Slices.Assoc4([text[0]], SplitCrlf(text[1..])[0], ['\r'], rest);
    }
  }

  lemma {:induction false} FirstLineUnbroken(text: string)
    ensures Unbroken(SplitCrlf(text)[0])
    decreases |text|
  {
    if text == [] || (|text| >= 2 && text[0] == '\r' && text[1] == '\n') {
    } else {
      var line := SplitCrlf(text)[0];
      var more := SplitCrlf(text[1..])[0];
      var rest := FirstLine(text[1..]);
      FirstLineUnbroken(text[1..]);
      forall k: nat
        ensures !BreakAt(line, k)
      {
        if k == 0 {
          assert more != [] ==> line[1] == more[0] == text[1..][0];
        } else {
          assert !BreakAt(more, k - 1);
          assert k + 1 < |line| ==> line[k] == more[k - 1] && line[k + 1] == more[k];
        }
      }
    }
  }

  lemma UriPlain(line: string)
    requires Plain(line) && ParseRequestLine(line).Ok?
    ensures Plain(ParseRequestLine(line).value.1)
  {
    SplitOnceParts(line, ' ');
    var (verb, rest) := SplitOnce(line, ' ').value;
    Utf8.CutAtAscii(verb, ' ', rest);
    SplitOnceParts(rest, ' ');
    var (uri, version) := SplitOnce(rest, ' ').value;
    Utf8.CutAtAscii(uri, ' ', version);
    Slices.Assoc(verb + [' '], uri, [' '] + version);
    Slices.Assoc(uri, [' '], version);
    UnbrokenPart(verb + [' '], uri, [' '] + version);
  }

  lemma HeadUriPlain(text: string)
    requires ParseHead(text).Ok?
    ensures Plain(ParseHead(text).value.uri)
  {
    var line := SplitCrlf(text)[0];
    var rest := FirstLine(text);
    if text != line { Utf8.CutAtAscii(line, '\r', rest); }
    FirstLineUnbroken(text);
    UriPlain(line);
  }

  lemma {:induction false} ParsedUrisPlain(buf: string)
    ensures forall req :: req in ParseAll(buf).0 ==> Plain(req.uri)
    decreases |buf|
  {
    ParseTakes(buf);
    if Parse(buf).Err? {
    } else {
      FindFirst(buf, BLANK_LINE);
      HeadUriPlain(buf[..Find(buf, BLANK_LINE).value]);
      ParsedUrisPlain(buf[Parse(buf).value.1..]);
    }
  }

  // ---- what the client reads ----

  function AnsweredOf(env: Env, chunks: seq<string>): seq<Request> {
    Answered(OPENED, env, ParseAll(Whole(chunks)).0)
  }

  predicate Fits(out: seq<Response>) {
    forall k :: 0 <= k < |out| ==> |Formatted(out[k])| <= USIZE_MAX
  }

  lemma AnsweredUris(env: Env, chunks: seq<string>)
    ensures forall req :: req in AnsweredOf(env, chunks) ==> Plain(req.uri)
  {
    ParsedUrisPlain(Whole(chunks));
    AnsweredAmong(OPENED, env, ParseAll(Whole(chunks)).0);
  }

  lemma SentSuits(env: Env, chunks: seq<string>)
    requires GoodId(env)
    ensures AllSuit(env, AnsweredOf(env, chunks), ReadAll(OPENED, env, chunks).out)
  {
    var reqs := ParseAll(Whole(chunks)).0;
    SentFor(env, chunks);
    ServeSends(OPENED, env, reqs);
    assert [] + Responses(OPENED, env, reqs) == Responses(OPENED, env, reqs);
    AnswersSuit(OPENED, env, reqs);
  }

  lemma SentPrintable(env: Env, chunks: seq<string>)
    requires GoodId(env) && Fits(ReadAll(OPENED, env, chunks).out)
    ensures forall k :: 0 <= k < |ReadAll(OPENED, env, chunks).out| ==> Printable(ReadAll(OPENED, env, chunks).out[k])
  {
    var out, answered := ReadAll(OPENED, env, chunks).out, AnsweredOf(env, chunks);
    SentSuits(env, chunks);
    AnsweredUris(env, chunks);
    forall k | 0 <= k < |out|
      ensures Printable(out[k])
    {
      assert answered[k] in answered && Suits(env, answered[k], out[k]);
    }
  }

  /** Whatever bytes come in, in whatever chunks: who reads what the connection sent with the
      same parser finds one message for each answered request, in order, with the request's
      CSeq and the body, and nothing else. */
  lemma SentReadsBack(env: Env, chunks: seq<string>)
    requires GoodId(env) && Fits(ReadAll(OPENED, env, chunks).out)
    ensures var out, answered := ReadAll(OPENED, env, chunks).out, AnsweredOf(env, chunks);
      var (msgs, left) := ParseAll(FormattedAll(out));
      && left == [] && |msgs| == |answered| == |out|
      && forall k :: 0 <= k < |msgs| ==> CSeq(msgs[k]) == Some(CSeqOr0(answered[k])) && msgs[k].body == BodyOf(out[k])
  {
    SentSuits(env, chunks);
    SentPrintable(env, chunks);
    StreamRoundTrip(ReadAll(OPENED, env, chunks).out);
  }

  /** For a reader that ends lines at a single carriage return or line feed too: all headers
      sent are in one line exactly if no accepted DESCRIBE has such a character in its URI. */
  lemma SentOneLineIff(env: Env, chunks: seq<string>)
    requires GoodId(env)
    ensures (forall r :: r in ReadAll(OPENED, env, chunks).out ==> OneLineFields(r.headers)) <==>
      forall req :: req in AnsweredOf(env, chunks) && Echoes(env, req) ==> OneLine(req.uri)
  {
    SentSuits(env, chunks);
    var out, answered := ReadAll(OPENED, env, chunks).out, AnsweredOf(env, chunks);
    forall k | 0 <= k < |out|
      ensures out[k] in out && answered[k] in answered
      ensures OneLineFields(out[k].headers) <==> (Echoes(env, answered[k]) ==> OneLine(answered[k].uri))
    {
      assert Suits(env, answered[k], out[k]);
    }
  }

  // ---- a URI with a line feed that is accepted ----

  /** What a path needs so that a URI can end in it: of printable characters, without the
      ones that end a path. */
  predicate SimplePath(path: string) {
    Graphic(path) && ' ' !in path && '/' !in path && ';' !in path
  }

  function BrokenUri(path: string): string { "rtsp://h/" + (path + [';'] + "\nx") }

  lemma {:induction false} SplitNoCr(line: string)
    requires '\r' !in line
    ensures SplitCrlf(line) == [line]
  {
    if line == [] {
    } else {
      SplitNoCr(line[1..]);
      Slices.HeadTail(line);
    }
  }

  lemma PathOf(tail: string)
    requires '/' !in tail
    ensures AfterSlashes("rtsp://h/" + tail, 3) == Some(tail)
  {
    var s2 := "h" + ['/'] + tail;
    var s1 := [] + ['/'] + s2;
    assert "rtsp://h/" + tail == "rtsp:" + ['/'] + s1;
    SplitOnceAt("rtsp:", '/', s1);
    SplitOnceAt([], '/', s2);
    SplitOnceAt("h", '/', tail);
    assert AfterSlashes(tail, 0) == Some(tail);
    assert AfterSlashes(s2, 1) == Some(tail);
    assert AfterSlashes(s1, 2) == Some(tail);
  }

  lemma BrokenUriMatches(path: string)
    requires SimplePath(path)
    ensures UriMatches(BrokenUri(path), path)
  {
    var tail := path + [';'] + "\nx";
    assert '/' !in tail && tail[0] != '/';
    PathOf(tail);
    SplitNone(tail, '/');
    SplitAfter(path, ';', "\nx");
  }

  lemma BlankAfter(line: string)
    requires '\r' !in line
    ensures Find(line + BLANK_LINE, BLANK_LINE) == Some(|line|)
  {
    var buf := line + BLANK_LINE;
    assert buf[|line|..|line| + 4] == BLANK_LINE;
    forall j: nat | j < |line|
      ensures !OccursAt(buf, BLANK_LINE, j)
    {
      assert buf[j] == line[j] && buf[j..j + 4][0] == buf[j];
    }
    FindUnique(buf, BLANK_LINE, |line|);
  }

  /** A request line and nothing else. */
  lemma LineParses(line: string, first: (string, string))
    requires '\r' !in line && (forall k :: 0 <= k < |line| ==> (line[k] as int) < 0x80)
    requires ParseRequestLine(line) == Ok(first) && |line| + 4 <= USIZE_MAX
    ensures Parse(line + BLANK_LINE) == Ok((Request(ParseMethod(first.0), first.1, map[], []), |line| + 4))
  {
    var buf := line + BLANK_LINE;
    BlankAfter(line);
    assert buf[..|line|] == line;
    Utf8.Ascii(line);
    SplitNoCr(line);
    HeadOf(line, [line], first, map[]);
    HeadTaken(buf, |line|, Head(ParseMethod(first.0), first.1, map[]));
    BodyTaken(buf, |line| + 4, Head(ParseMethod(first.0), first.1, map[]), []);
  }

  lemma DescribeLine(uri: string)
    requires ' ' !in uri
    ensures ParseRequestLine("DESCRIBE" + ([' '] + (uri + [' '] + "RTSP/1.0"))) == Ok(("DESCRIBE", uri))
  {
    var rest := uri + [' '] + "RTSP/1.0";
    Slices.Assoc("DESCRIBE", [' '], rest);
    SplitOnceAt("DESCRIBE", ' ', rest);
    SplitOnceAt(uri, ' ', "RTSP/1.0");
  }

  function DescribeBytes(uri: string): string { "DESCRIBE" + ([' '] + (uri + [' '] + "RTSP/1.0")) + BLANK_LINE }

  lemma DescribeParses(uri: string)
    requires ' ' !in uri && '\r' !in uri && (forall k :: 0 <= k < |uri| ==> (uri[k] as int) < 0x80)
    requires |DescribeBytes(uri)| <= USIZE_MAX
    ensures ParseAll(DescribeBytes(uri)) == ([Request(Describe, uri, map[], [])], [])
  {
    var line := "DESCRIBE" + ([' '] + (uri + [' '] + "RTSP/1.0"));
    var req := Request(Describe, uri, map[], []);
    DescribeLine(uri);
    LineParses(line, ("DESCRIBE", uri));
    assert DescribeBytes(uri)[|line| + 4..] == [];
    FindFirst([], BLANK_LINE);
    assert ParseAll([]) == ([], []);
    assert [req] + [] == [req];
  }

  lemma DescribeAnswered(env: Env, req: Request)
    requires req.verb.Describe? && env.subscribed.Some?
    ensures Answered(OPENED, env, [req]) == [req]
  {
    var d := HandleOne(OPENED, env, req);
    assert d.end.None?;
    assert [req][1..] == [] && Answered(d, env, []) == [] && [req] + [] == [req];
  }

  lemma BrokenUriBroken(path: string)
    requires SimplePath(path)
    ensures var uri := BrokenUri(path);
      && !OneLine(uri) && ' ' !in uri && '\r' !in uri && forall k :: 0 <= k < |uri| ==> (uri[k] as int) < 0x80
  {
    var uri := BrokenUri(path);
    assert uri[|uri| - 2] == '\n';
  }

  lemma BrokenBreaks(env: Env, uri: string)
    requires GoodId(env) && env.subscribed.Some? && UriMatches(uri, env.path) && |DescribeBytes(uri)| <= USIZE_MAX
    requires !OneLine(uri) && ' ' !in uri && '\r' !in uri && forall k :: 0 <= k < |uri| ==> (uri[k] as int) < 0x80
    ensures var out := ReadAll(OPENED, env, [DescribeBytes(uri)]).out; |out| == 1 && !OneLineFields(out[0].headers)
  {
    var chunks, req := [DescribeBytes(uri)], Request(Describe, uri, map[], []);
    assert Whole(chunks) == DescribeBytes(uri) by {
      assert chunks[1..] == [] && DescribeBytes(uri) + [] == DescribeBytes(uri);
    }
    DescribeParses(uri);
    DescribeAnswered(env, req);
    assert AnsweredOf(env, chunks) == [req];
    SentSuits(env, chunks);
    assert Suits(env, req, ReadAll(OPENED, env, chunks).out[0]);
  }

  /** With these bytes a connection sends a response with a header that is not in one line. */
  lemma BrokenUriBreaks(env: Env)
    requires SimplePath(env.path) && GoodId(env) && env.subscribed.Some?
    requires |DescribeBytes(BrokenUri(env.path))| <= USIZE_MAX
    ensures var out := ReadAll(OPENED, env, [DescribeBytes(BrokenUri(env.path))]).out;
      |out| == 1 && !OneLineFields(out[0].headers)
  {
    var uri := BrokenUri(env.path);
    BrokenUriBroken(env.path);
    BrokenUriMatches(env.path);
    BrokenBreaks(env, uri);
  }
}
