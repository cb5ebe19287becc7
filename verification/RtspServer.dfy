/** One RTSP connection: the loop that reads, parses and dispatches. What the stream
    source would answer to `subscribe` is part of the environment. */
module RtspServer {
  import opened Wrappers
  import opened Text
  import opened RtspMessage
  import opened RtspResponse
  import opened RtspSession
  import opened Sdp

  datatype Env = Env(cameraName: string, path: string, sessionId: string, subscribed: Option<H264Params>)

  /** Why `handle_connection` returns, or panics. */
  datatype End = Closed | BadRequest | Panicked | Unavailable | StreamingOn(channel: nat) | Stopped | NoSubscription

  datatype Conn = Conn(buf: string, session: View, sub: Option<H264Params>, out: seq<Response>, end: Option<End>)

  const OPENED: Conn := Conn([], NEW_SESSION, None, [], None)

  const DEFAULT_PARAMS: H264Params := H264Params("42c01e", [], 1, 96)

  predicate NeedsSubscription(m: Method) { m.Describe? || m.Setup? || m.Play? }

  function ContextFor(env: Env, sub: Option<H264Params>): Context {
    Context(env.cameraName, if sub.Some? then sub.value else DEFAULT_PARAMS, env.path, env.sessionId)
  }

  function HandleOne(c: Conn, env: Env, req: Request): Conn {
    var sub := if c.sub.None? && NeedsSubscription(req.verb) then env.subscribed else c.sub;
    if sub.None? && NeedsSubscription(req.verb) then c.(end := Some(Unavailable))
    else
      var (session, resp, action) := Handle(c.session, req, ContextFor(env, sub));
      var d := Conn(c.buf, session, sub, c.out + [resp], None);
      match action
      case NoAction => d
      case StartStreaming(ch) => d.(end := Some(if sub.Some? then StreamingOn(ch) else NoSubscription))
      case Stop => d.(end := Some(Stopped))
  }

  /** Handles what the buffer yields; a connection that ended has no use for the rest. */
  function Drain(c: Conn, env: Env): Conn
    decreases |c.buf|
  {
    ParseTakes(c.buf);
    match Parse(c.buf)
    case Err(Incomplete) => c
    case Err(e) => c.(buf := [], end := Some(if e.Overflow? then Panicked else BadRequest))
    case Ok((req, n)) =>
      var d := HandleOne(c.(buf := c.buf[n..]), env, req);
      if d.end.Some? then d.(buf := []) else Drain(d, env)
  }

  function Feed(c: Conn, env: Env, chunk: string): Conn {
    if c.end.Some? then c else Drain(c.(buf := c.buf + chunk), env)
  }

  function Close(c: Conn): Conn {
    if c.end.Some? then c else c.(buf := [], end := Some(Closed))
  }

  /** One read from the socket; a read of nothing is the end of the stream. */
  function Read(c: Conn, env: Env, chunk: string): Conn {
    if chunk == [] then Close(c) else Feed(c, env, chunk)
  }

  function ReadAll(c: Conn, env: Env, chunks: seq<string>): Conn
    decreases |chunks|
  {
    if chunks == [] then c else ReadAll(Read(c, env, chunks[0]), env, chunks[1..])
  }

  class Connection {
    var buf: string
    var sub: Option<H264Params>
    var out: seq<Response>
    var end: Option<End>
    const session: Session

    function Now(): Conn
      reads this, session
    {
      Conn(buf, session.Now(), sub, out, end)
    }

    constructor ()
      ensures Now() == OPENED && fresh(session)
    {
      buf, sub, out, end := [], None, [], None;
      session := new Session();
    }

    /** One turn of the outer loop: read, extend the buffer, then the inner loop. */
    method Receive(env: Env, chunk: string)
      requires end.None?
      modifies this, session
      ensures Now() == Read(old(Now()), env, chunk)
    {
      if chunk == [] {
        buf, end := [], Some(Closed);
        return;
      }
      buf := buf + chunk;
      while true
        invariant end.None? && Drain(Now(), env) == Feed(old(Now()), env, chunk)
        decreases |buf|
      {
        ParseTakes(buf);
        var parsed := ParseRequest(buf);
        match parsed {
          case Err(Incomplete) => return;
          case Err(e) =>
            buf, end := [], Some(if e.Overflow? then Panicked else BadRequest);
            return;
          case Ok((req, n)) =>
            buf := buf[n..];
            if sub.None? && NeedsSubscription(req.verb) {
              if env.subscribed.None? {
                buf, end := [], Some(Unavailable);
                return;
              }
              sub := env.subscribed;
            }
            var resp, action := session.HandleRequest(req, ContextFor(env, sub));
            out := out + [resp];
            match action {
              case NoAction =>
              case StartStreaming(ch) =>
                buf, end := [], Some(if sub.Some? then StreamingOn(ch) else NoSubscription);
                return;
              case Stop =>
                buf, end := [], Some(Stopped);
                return;
            }
        }
      }
    }
  }

  /** Handling a request does not look at the rest of the buffer. */
  lemma HandleIgnoresBuffer(c: Conn, env: Env, req: Request, b: string)
    ensures HandleOne(c.(buf := b), env, req) == HandleOne(c, env, req).(buf := b)
  {
  }

  // ---- the split of the stream into reads ----

  lemma DrainOnce(c: Conn, env: Env)
    requires Parse(c.buf).Ok?
    ensures var (req, n) := Parse(c.buf).value; var d := HandleOne(c, env, req);
      && n <= |c.buf|
      && Drain(c, env) == if d.end.Some? then d.(buf := []) else Drain(d.(buf := c.buf[n..]), env)
  {
    ParseTakes(c.buf);
    var (req, n) := Parse(c.buf).value;
    HandleIgnoresBuffer(c, env, req, c.buf[n..]);
  }

  lemma {:induction false} DrainMore(c: Conn, env: Env, more: string)
    requires c.end.None?
    ensures Drain(c.(buf := c.buf + more), env) == Feed(Drain(c, env), env, more)
    decreases |c.buf|
  {
    if Parse(c.buf) == Err(Incomplete) {
    } else {
      ParseStable(c.buf, more);
      ParseTakes(c.buf);
      if Parse(c.buf).Ok? {
        var (req, n) := Parse(c.buf).value;
        assert (c.buf + more)[n..] == c.buf[n..] + more;
        var d := HandleOne(c, env, req);
        DrainOnce(c, env);
        DrainOnce(c.(buf := c.buf + more), env);
        HandleIgnoresBuffer(c, env, req, c.buf + more);
        if d.end.None? { DrainMore(d.(buf := c.buf[n..]), env, more); }
      }
    }
  }

  /** The bytes read before the end of the stream. */
  function Whole(chunks: seq<string>): string {
    if chunks == [] || chunks[0] == [] then [] else chunks[0] + Whole(chunks[1..])
  }

  predicate AtEof(chunks: seq<string>) { [] in chunks }

  /** Nothing is left in the buffer that would parse. */
  predicate Settled(c: Conn, env: Env) { c.end.None? ==> Drain(c, env) == c }

  lemma {:induction false} DrainSettles(c: Conn, env: Env)
    requires c.end.None?
    ensures Settled(Drain(c, env), env) && (Drain(c, env).end.Some? ==> Drain(c, env).buf == [])
    decreases |c.buf|
  {
    ParseTakes(c.buf);
    if Parse(c.buf).Err? {
    } else {
      var (req, n) := Parse(c.buf).value;
      var d := HandleOne(c.(buf := c.buf[n..]), env, req);
      if d.end.None? { DrainSettles(d, env); }
    }
  }

  lemma FeedSettles(c: Conn, env: Env, chunk: string)
    requires Settled(c, env)
    ensures Settled(Feed(c, env, chunk), env)
  {
    if c.end.None? { DrainSettles(c.(buf := c.buf + chunk), env); }
  }

  lemma FeedTwice(c: Conn, env: Env, a: string, b: string)
    ensures Feed(Feed(c, env, a), env, b) == Feed(c, env, a + b)
  {
    if c.end.None? {
      DrainMore(c.(buf := c.buf + a), env, b);
      assert c.buf + a + b == c.buf + (a + b);
    }
  }

  lemma {:induction false} AfterClose(c: Conn, env: Env, chunks: seq<string>)
    requires c.end.Some?
    ensures ReadAll(c, env, chunks) == c
    decreases |chunks|
  {
    if chunks == [] {
    } else {
      AfterClose(c, env, chunks[1..]);
    }
  }

  lemma {:induction false} ReadWhole(c: Conn, env: Env, chunks: seq<string>)
    requires Settled(c, env)
    ensures var d := Feed(c, env, Whole(chunks)); ReadAll(c, env, chunks) == if AtEof(chunks) then Close(d) else d
    decreases |chunks|
  {
    if chunks == [] || chunks[0] == [] {
      assert c.buf + [] == c.buf;
      if chunks != [] { AfterClose(Close(c), env, chunks[1..]); }
    } else {
      FeedSettles(c, env, chunks[0]);
      ReadWhole(Feed(c, env, chunks[0]), env, chunks[1..]);
      FeedTwice(c, env, chunks[0], Whole(chunks[1..]));
    }
  }

  /** However the client's bytes are split into reads, the connection handles the same
      requests, sends the same responses and ends, or waits, in the same place. */
  lemma ChunkingInvariance(env: Env, xs: seq<string>, ys: seq<string>)
    requires Whole(xs) == Whole(ys) && (AtEof(xs) <==> AtEof(ys))
    ensures ReadAll(OPENED, env, xs) == ReadAll(OPENED, env, ys)
  {
    FindFirst([], BLANK_LINE);
    ReadWhole(OPENED, env, xs);
    ReadWhole(OPENED, env, ys);
  }

  // ---- the requests behind the bytes ----

  /** The requests of a stream, handled until one ends the connection. */
  function Serve(c: Conn, env: Env, reqs: seq<Request>): Conn
    decreases |reqs|
  {
    if reqs == [] || c.end.Some? then c else Serve(HandleOne(c, env, reqs[0]), env, reqs[1..])
  }

  lemma {:induction false} ServeIgnoresBuffer(c: Conn, env: Env, reqs: seq<Request>, b: string)
    ensures Serve(c.(buf := b), env, reqs) == Serve(c, env, reqs).(buf := b)
    decreases |reqs|
  {
    if reqs == [] || c.end.Some? {
    } else {
      HandleIgnoresBuffer(c, env, reqs[0], b);
      ServeIgnoresBuffer(HandleOne(c, env, reqs[0]), env, reqs[1..], b);
    }
  }

  /** A connection does to its bytes what serving the parsed requests does; it stops for a
      malformed request only after all the requests before it. */
  lemma {:induction false} DrainServes(c: Conn, env: Env)
    requires c.end.None?
    ensures var (reqs, left) := ParseAll(c.buf); var d := Serve(c, env, reqs);
      Drain(c, env) ==
        if d.end.Some? then d.(buf := [])
        else if Parse(left) == Err(Incomplete) then d.(buf := left)
        else d.(buf := [], end := Some(if Parse(left) == Err(Overflow) then Panicked else BadRequest))
    decreases |c.buf|
  {
    ParseTakes(c.buf);
    if Parse(c.buf).Err? {
    } else {
      var (req, n) := Parse(c.buf).value;
      var d, rest := HandleOne(c, env, req), c.buf[n..];
      var more := ParseAll(rest).0;
      assert ([req] + more)[1..] == more;
      DrainOnce(c, env);
      ServeIgnoresBuffer(d, env, more, rest);
      if d.end.None? { DrainServes(d.(buf := rest), env); }
    }
  }

  // ---- when streaming starts ----

  datatype Change = Describing | Granting(channel: nat)

  /** What a request would change, if accepted. */
  function ChangeOf(env: Env, req: Request): Option<Change> {
    if !UriMatches(req.uri, env.path) then None
    else if req.verb.Describe? then Some(Describing)
    else if req.verb.Setup? && Granted(req).Some? then Some(Granting(Granted(req).value.0))
    else None
  }

  function LastChange(env: Env, reqs: seq<Request>): Option<Change> {
    if reqs == [] then None
    else
      var last := ChangeOf(env, reqs[|reqs| - 1]);
      if last.Some? then last else LastChange(env, reqs[..|reqs| - 1])
  }

  lemma {:induction false} ServeSnoc(c: Conn, env: Env, reqs: seq<Request>, req: Request)
    ensures var d := Serve(c, env, reqs);
            Serve(c, env, reqs + [req]) == if d.end.Some? then d else HandleOne(d, env, req)
    decreases |reqs|
  {
    if reqs != [] && c.end.None? {
      assert (reqs + [req])[1..] == reqs[1..] + [req];
      ServeSnoc(HandleOne(c, env, reqs[0]), env, reqs[1..], req);
    } else if reqs == [] {
      assert ([] + [req])[1..] == [];
    }
  }

  /** What an open connection remembers is the last accepted change. */
  ghost predicate Remembers(c: Conn, env: Env, last: Option<Change>) {
    && (last.Some? ==> c.sub.Some?)
    && match last
       case None => c.session == NEW_SESSION
       case Some(Describing) => c.session.state == Described
       case Some(Granting(ch)) => c.session == View(SetUp, Some(env.sessionId), Some(ch))
  }

  predicate No454(out: seq<Response>) { forall k :: 0 <= k < |out| ==> out[k].status != 454 }

  lemma RememberStep(c: Conn, env: Env, last: Option<Change>, req: Request)
    requires c.end.None? && Remembers(c, env, last)
    ensures var d := HandleOne(c, env, req);
            d.end.None? ==> Remembers(d, env, if ChangeOf(env, req).Some? then ChangeOf(env, req) else last)
  {
  }

  lemma EndStep(c: Conn, env: Env, last: Option<Change>, req: Request)
    requires c.end.None? && Remembers(c, env, last)
    ensures var d := HandleOne(c, env, req);
      forall ch: nat :: d.end == Some(StreamingOn(ch)) <==>
        req.verb.Play? && UriMatches(req.uri, env.path) && last == Some(Granting(ch))
  {
  }

  lemma SubscribedStep(c: Conn, env: Env, last: Option<Change>, req: Request)
    requires c.end.None? && Remembers(c, env, last)
    ensures HandleOne(c, env, req).end != Some(NoSubscription)
  {
    var sub := if c.sub.None? && NeedsSubscription(req.verb) then env.subscribed else c.sub;
    RareAnswers(c.session, req, ContextFor(env, sub));
  }

  /** A request appends one answer at most. */
  lemma AnswersOnce(c: Conn, env: Env, req: Request)
    ensures var sub := if c.sub.None? && NeedsSubscription(req.verb) then env.subscribed else c.sub;
      var d := HandleOne(c, env, req);
      d.out == c.out || d.out == c.out + [Handle(c.session, req, ContextFor(env, sub)).1]
  {
  }

  lemma No454Step(c: Conn, env: Env, last: Option<Change>, req: Request)
    requires c.end.None? && Remembers(c, env, last) && No454(c.out)
    ensures No454(HandleOne(c, env, req).out)
  {
    var sub := if c.sub.None? && NeedsSubscription(req.verb) then env.subscribed else c.sub;
    RareAnswers(c.session, req, ContextFor(env, sub));
    AnswersOnce(c, env, req);
    assert !(c.session.state.SetUp? && c.session.sessionId.None?);
  }

  lemma {:induction false} Remembered(env: Env, reqs: seq<Request>)
    ensures var c := Serve(OPENED, env, reqs);
      && (c.end.None? ==> Remembers(c, env, LastChange(env, reqs)))
      && c.end != Some(NoSubscription) && No454(c.out)
    decreases |reqs|
  {
    if reqs == [] {
    } else {
      var before, req := reqs[..|reqs| - 1], reqs[|reqs| - 1];
      assert reqs == before + [req];
      Remembered(env, before);
      ServeSnoc(OPENED, env, before, req);
      var c := Serve(OPENED, env, before);
      if c.end.None? {
        RememberStep(c, env, LastChange(env, before), req);
        SubscribedStep(c, env, LastChange(env, before), req);
        No454Step(c, env, LastChange(env, before), req);
      }
    }
  }

  /** Streaming starts on a channel exactly with a PLAY for the right path whose last
      accepted DESCRIBE or SETUP before it was a SETUP granted that lower channel. It ends
      the reading of requests, so it starts at most once. */
  lemma StreamingStartsIff(env: Env, reqs: seq<Request>, req: Request, ch: nat)
    requires Serve(OPENED, env, reqs).end.None?
    ensures Serve(OPENED, env, reqs + [req]).end == Some(StreamingOn(ch)) <==>
              req.verb.Play? && UriMatches(req.uri, env.path) && LastChange(env, reqs) == Some(Granting(ch))
  {
    Remembered(env, reqs);
    ServeSnoc(OPENED, env, reqs, req);
    EndStep(Serve(OPENED, env, reqs), env, LastChange(env, reqs), req);
  }

  /** What was sent for a stream of bytes is what serving its requests sends. */
  lemma SentFor(env: Env, chunks: seq<string>)
    ensures var c := ReadAll(OPENED, env, chunks); var d := Serve(OPENED, env, ParseAll(Whole(chunks)).0);
      c.out == d.out && (c.end == Some(NoSubscription) ==> d.end == c.end)
  {
    FindFirst([], BLANK_LINE);
    ReadWhole(OPENED, env, chunks);
    assert OPENED.buf + Whole(chunks) == Whole(chunks);
    DrainServes(OPENED.(buf := Whole(chunks)), env);
    ServeIgnoresBuffer(OPENED, env, ParseAll(Whole(chunks)).0, Whole(chunks));
  }

  /** The 454 answer and the missing subscription cannot happen, whatever the client sends. */
  lemma NeverWithoutSession(env: Env, chunks: seq<string>)
    ensures var c := ReadAll(OPENED, env, chunks); No454(c.out) && c.end != Some(NoSubscription)
  {
    SentFor(env, chunks);
    Remembered(env, ParseAll(Whole(chunks)).0);
  }
}
