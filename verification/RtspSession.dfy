/** The per-connection RTSP state machine (RFC 2326, sections 10.2 to 10.8). */
module RtspSession {
  import opened Wrappers
  import opened Text
  import opened RtspMessage
  import opened RtspResponse
  import opened Sdp

  datatype State = Init | Described | SetUp | Playing | TornDown

  datatype Action = NoAction | StartStreaming(channel: nat) | Stop

  datatype View = View(state: State, sessionId: Option<string>, rtpChannel: Option<nat>)

  const NEW_SESSION: View := View(Init, None, None)

  datatype Context = Context(cameraName: string, params: H264Params, expectedPath: string, newSessionId: string)

  function TrimSlashes(s: string): string {
    if s != [] && s[0] == '/' then TrimSlashes(s[1..]) else s
  }

  /** `splitn(n + 1, '/').nth(n)`: what follows the n-th slash. */
  function AfterSlashes(s: string, n: nat): Option<string>
    decreases n
  {
    if n == 0 then Some(s)
    else match SplitOnce(s, '/') case None => None case Some((_, rest)) => AfterSlashes(rest, n - 1)
  }

  predicate UriMatches(uri: string, expected: string) {
    var path := match AfterSlashes(uri, 3) case Some(p) => TrimSlashes(p) case None => TrimSlashes(uri);
    var main := Split(path, '/')[0];
    Split(main, ';')[0] == expected
  }

  const TCP: string := "RTP/AVP/TCP"
  const INTERLEAVED: string := "interleaved="

  function ChannelPair(s: string): Option<(nat, nat)> {
    match SplitOnce(s, '-')
    case None => None
    case Some((a, b)) =>
      match (ParseUint(a, U8_MAX), ParseUint(b, U8_MAX))
      case (Some(x), Some(y)) => Some((x, y))
      case _ => None
  }

  /** The first part that names interleaved channels decides. */
  function FirstChannels(parts: seq<string>): Option<(nat, nat)> {
    if parts == [] then None
    else match StripPrefix(Trim(parts[0]), INTERLEAVED)
      case Some(rest) => ChannelPair(rest)
      case None => FirstChannels(parts[1..])
  }

  function ParseInterleaved(transport: string): Option<(nat, nat)> {
    if Find(transport, TCP).None? then None else FirstChannels(Split(transport, ';'))
  }

  function ChannelText(pair: (nat, nat)): string { Dec(pair.0) + "-" + Dec(pair.1) }

  function TransportText(pair: (nat, nat)): string {
    TCP + ";unicast;" + (INTERLEAVED + ChannelText(pair))
  }

  function OkResponse(cseq: nat, headers: seq<(string, string)>): Response {
    Response(200, "OK", cseq, headers, None)
  }

  function ErrorResponse(status: nat, reason: string, cseq: nat): Response {
    Response(status, reason, cseq, [], None)
  }

  /** One request: the new session, the response and what the connection has to do. */
  function Handle(s: View, req: Request, ctx: Context): (View, Response, Action) {
    var cseq := match CSeq(req) case Some(n) => n case None => 0;
    var id := match s.sessionId case Some(i) => i case None => "";
    if !UriMatches(req.uri, ctx.expectedPath) && req.verb != Options then
      (s, ErrorResponse(404, "Not Found", cseq), NoAction)
    else match req.verb
      case Options =>
        (s, OkResponse(cseq, [("Public", "OPTIONS, DESCRIBE, SETUP, PLAY, TEARDOWN, GET_PARAMETER")]), NoAction)
      case Describe =>
        (s.(state := Described),
         Response(200, "OK", cseq, [("Content-Type", "application/sdp"), ("Content-Base", req.uri)],
                  Some(BuildSdp(ctx.cameraName, ctx.params))),
         NoAction)
      case Setup =>
        (match Header(req, "transport")
         case None => (s, ErrorResponse(400, "Bad Request", cseq), NoAction)
         case Some(transport) =>
           match ParseInterleaved(transport)
           case None => (s, ErrorResponse(461, "Unsupported Transport", cseq), NoAction)
           case Some(pair) =>
             (View(SetUp, Some(ctx.newSessionId), Some(pair.0)),
              OkResponse(cseq, [("Transport", TransportText(pair)), ("Session", ctx.newSessionId)]),
              NoAction))
      case Play =>
        if s.state != SetUp then (s, ErrorResponse(455, "Method Not Valid In This State", cseq), NoAction)
        else if s.sessionId.None? then (s, ErrorResponse(454, "Session Not Found", cseq), NoAction)
        else
          (s.(state := Playing),
           OkResponse(cseq, [("Session", s.sessionId.value), ("Range", "npt=0.000-")]),
           StartStreaming(match s.rtpChannel case Some(c) => c case None => 0))
      case Teardown => (s.(state := TornDown), OkResponse(cseq, [("Session", id)]), Stop)
      case GetParameter => (s, OkResponse(cseq, if id == "" then [] else [("Session", id)]), NoAction)
      case Unsupported => (s, ErrorResponse(501, "Not Implemented", cseq), NoAction)
  }

  class Session {
    var state: State
    var sessionId: Option<string>
    var rtpChannel: Option<nat>

    function Now(): View
      reads this
    {
      View(state, sessionId, rtpChannel)
    }

    constructor ()
      ensures Now() == NEW_SESSION
    {
      state, sessionId, rtpChannel := Init, None, None;
    }

    method HandleRequest(req: Request, ctx: Context) returns (resp: Response, action: Action)
      modifies this
      ensures (Now(), resp, action) == Handle(old(Now()), req, ctx)
    {
      var cseq := 0;
      if CSeq(req).Some? {
        cseq := CSeq(req).value;
      }
      var id := if sessionId.Some? then sessionId.value else "";
      action := NoAction;
      if !UriMatches(req.uri, ctx.expectedPath) && req.verb != Options {
        resp := ErrorResponse(404, "Not Found", cseq);
        return;
      }
      match req.verb {
        case Options =>
          resp := OkResponse(cseq, [("Public", "OPTIONS, DESCRIBE, SETUP, PLAY, TEARDOWN, GET_PARAMETER")]);
        case Describe =>
          state := Described;
          resp := Response(200, "OK", cseq, [("Content-Type", "application/sdp"), ("Content-Base", req.uri)],
                           Some(BuildSdp(ctx.cameraName, ctx.params)));
        case Setup =>
          var transport := Header(req, "transport");
          if transport.None? {
            resp := ErrorResponse(400, "Bad Request", cseq);
            return;
          }
          var pair := ParseInterleaved(transport.value);
          if pair.None? {
            resp := ErrorResponse(461, "Unsupported Transport", cseq);
            return;
          }
          sessionId := Some(ctx.newSessionId);
          rtpChannel := Some(pair.value.0);
          state := SetUp;
          resp := OkResponse(cseq, [("Transport", TransportText(pair.value)), ("Session", ctx.newSessionId)]);
        case Play =>
          if state != SetUp {
            resp := ErrorResponse(455, "Method Not Valid In This State", cseq);
            return;
          }
          if sessionId.None? {
            resp := ErrorResponse(454, "Session Not Found", cseq);
            return;
          }
          state := Playing;
          resp := OkResponse(cseq, [("Session", sessionId.value), ("Range", "npt=0.000-")]);
          action := StartStreaming(if rtpChannel.Some? then rtpChannel.value else 0);
        case Teardown =>
          state := TornDown;
          resp := OkResponse(cseq, [("Session", id)]);
          action := Stop;
        case GetParameter =>
          resp := OkResponse(cseq, if id == "" then [] else [("Session", id)]);
        case Unsupported =>
          resp := ErrorResponse(501, "Not Implemented", cseq);
      }
    }
  }

  // ---- the transport header ----

  lemma TransportSplits(pair: (nat, nat))
    ensures Split(TransportText(pair), ';') == [TCP, "unicast", INTERLEAVED + ChannelText(pair)]
  {
    DecDigits(pair.0);
    DecDigits(pair.1);
    var last := INTERLEAVED + ChannelText(pair);
    JoinThree(TCP, "unicast", last);
    assert ";unicast;" == ";" + "unicast" + ";";
    assert TransportText(pair) == Join([TCP, "unicast", last], ';');
    SplitJoin([TCP, "unicast", last], ';');
  }

  lemma ChannelTextParses(pair: (nat, nat))
    requires pair.0 <= U8_MAX && pair.1 <= U8_MAX
    ensures ChannelPair(ChannelText(pair)) == Some(pair)
  {
    DecParses(pair.0, U8_MAX);
    DecParses(pair.1, U8_MAX);
    SplitOnceAt(Dec(pair.0), '-', Dec(pair.1));
    assert ChannelText(pair) == Dec(pair.0) + ['-'] + Dec(pair.1);
  }

  lemma ChannelPartTrimmed(pair: (nat, nat))
    ensures Trim(INTERLEAVED + ChannelText(pair)) == INTERLEAVED + ChannelText(pair)
  {
    DecDigits(pair.1);
    var last := INTERLEAVED + ChannelText(pair);
    assert last[|last| - 1] == Dec(pair.1)[|Dec(pair.1)| - 1];
    VisibleEnds(last);
    TrimOfTrimmed(last);
  }

  lemma StripAdded(prefix: string, s: string)
    ensures StripPrefix(prefix + s, prefix) == Some(s)
  {
    assert (prefix + s)[|prefix|..] == s;
  }

  lemma NotAChannelPart(part: string)
    requires part != [] && part[0] != 'i' && Visible(part[0]) && Visible(part[|part| - 1])
    ensures StripPrefix(Trim(part), INTERLEAVED).None?
  {
    VisibleEnds(part);
    TrimOfTrimmed(part);
  }

  /** The Transport header of an accepted SETUP says the pair that was asked for. */
  lemma TransportRoundTrip(pair: (nat, nat))
    requires pair.0 <= U8_MAX && pair.1 <= U8_MAX
    ensures ParseInterleaved(TransportText(pair)) == Some(pair)
  {
    TransportSplits(pair);
    assert OccursAt(TransportText(pair), TCP, 0);
    FindUnique(TransportText(pair), TCP, 0);
    NotAChannelPart(TCP);
    NotAChannelPart("unicast");
    ChannelPartTrimmed(pair);
    StripAdded(INTERLEAVED, ChannelText(pair));
    ChannelTextParses(pair);
    var parts := [TCP, "unicast", INTERLEAVED + ChannelText(pair)];
    assert FirstChannels(parts) == FirstChannels(parts[1..]) == FirstChannels(parts[1..][1..]);
  }

  lemma {:induction false} ChannelsAreBytes(parts: seq<string>)
    ensures FirstChannels(parts).Some? ==> FirstChannels(parts).value.0 <= U8_MAX && FirstChannels(parts).value.1 <= U8_MAX
  {
    if parts == [] {
    } else {
      ChannelsAreBytes(parts[1..]);
    }
  }

  /** The pair an accepted SETUP is granted. */
  function Granted(req: Request): Option<(nat, nat)> {
    match Header(req, "transport") case None => None case Some(t) => ParseInterleaved(t)
  }

  /** A client reading the answer to its SETUP finds the pair it was granted. */
  lemma SetupAnswersWithGrantedPair(s: View, req: Request, ctx: Context)
    requires req.verb == Setup && UriMatches(req.uri, ctx.expectedPath) && Granted(req).Some?
    ensures var (t, resp, action) := Handle(s, req, ctx);
      && resp.status == 200 && resp.headers[0].0 == "Transport"
      && ParseInterleaved(resp.headers[0].1) == Granted(req)
  {
    ChannelsAreBytes(Split(Header(req, "transport").value, ';'));
    TransportRoundTrip(Granted(req).value);
  }

  /** The 454 answer needs a set-up session without an id, and streaming a set-up session. */
  lemma RareAnswers(s: View, req: Request, ctx: Context)
    ensures var (t, resp, action) := Handle(s, req, ctx);
      && (resp.status == 454 ==> req.verb.Play? && s.state.SetUp? && s.sessionId.None?)
      && (action.StartStreaming? ==> req.verb.Play? && s.state.SetUp?)
  {
  }
}
