/** Whole messages: what the application is told of a message is what the message says, and the parser is ready for the next
    one exactly if the connection is to be kept. */
module HttpMessages {
  import opened HttpTypes
  import opened HttpChars
  import opened HttpTransition
  import opened HttpFeed
  import opened HttpBodies
  import opened HttpFields
  import opened HttpValues
  import opened HttpFraming
  import opened HttpRules
  import N = HttpLines
  import M = HttpMethods

  datatype FirstLine =
    | RequestLine(verb: Method, url: string, major: char, minor: char)
    | StatusLine(code: string, reason: string, major: char, minor: char)

  predicate LineFits(l: FirstLine, p: Parser) {
    && IsNum(l.major) && IsNum(l.minor)
    && match l
       case RequestLine(verb, url, _, _) => p.state.StartReq? && p.kind.Request? && N.Target(verb, url)
       case StatusLine(code, reason, _, _) =>
         p.state.StartRes? && p.kind.Response? && code != "" && Digits(code) && DecValue(code) <= 999 && N.OneLine(reason)
  }

  function LineText(l: FirstLine): string {
    match l
    case RequestLine(verb, url, major, minor) => MethodName(verb) + " " + (url + " ") + (N.VersionText(major, minor) + [CR] + [LF])
    case StatusLine(code, reason, major, minor) => N.VersionText(major, minor) + " " + code + " " + reason + [CR] + [LF]
  }

  function LineHeard(l: FirstLine, out: seq<Event>): seq<Event> {
    Emit(Emit(out, Notify(MessageBegin)), if l.RequestLine? then Data(Url, l.url) else Data(Status, l.reason))
  }

  /** The parser behind the first line. */
  function Started(p: Parser, l: FirstLine): Parser
    requires LineFits(l, p)
  {
    var q := Fresh(p).(state := HeaderFieldStart, major := Digit(l.major), minor := Digit(l.minor));
    match l
    case RequestLine(verb, _, _, _) => q.(verb := verb, index := |MethodName(verb)| + 1)
    case StatusLine(code, _, _, _) => q.(status := DecValue(code), index := 0)
  }

  lemma LineRead(ask: Answers, p: Parser, out: seq<Event>, l: FirstLine)
    requires LineFits(l, p)
    ensures Feed(ask, p, out, LineText(l)) == Fed(Started(p, l), LineHeard(l, out)) && Behind(Started(p, l))
  {
    hide Feed, Emit, N.Target, N.OneLine, N.VersionText, MethodName, IsNum, Digit;
    match l
    case RequestLine(verb, url, major, minor) => N.RequestLineRead(ask, p, out, verb, url, major, minor);
    case StatusLine(code, reason, major, minor) => N.StatusLineRead(ask, p, out, major, minor, code, reason);
  }

  // --------------------------------------------------------------------------------------------------------
  // The head

  function HeadText(l: FirstLine, hs: seq<Header>): string { LineText(l) + (HeadersText(hs) + [CR, LF]) }

  /** What the application is told up to the end of the headers. */
  function Head(l: FirstLine, hs: seq<Header>, out: seq<Event>): seq<Event> { HeadHeard(hs, LineHeard(l, out)) }

  /** A message whose body is found by the rules, that is not refused, that does not ask for another protocol, and to which the
      application has no objection. */
  predicate Proper(ask: Answers, p: Parser, out: seq<Event>, l: FirstLine, hs: seq<Header>) {
    && LineFits(l, p) && AllWritten(hs) && Regular(Started(p, l), hs) && !Rules(Started(p, l), hs).Unreliable?
    && !Switches(Started(p, l), hs) && ask(Head(l, hs, out)) == 0
  }

  /** The parser at the end of the headers. */
  predicate AtBody(p: Parser, l: FirstLine, hs: seq<Header>, q: Parser)
    requires LineFits(l, p)
  {
    && Alike(Summary(Started(p, l), hs).(state := HeadersDone, upgrade := false), q)
    && Choice(q) == Rules(Started(p, l), hs)
  }

  lemma HeadTold(ask: Answers, p: Parser, out: seq<Event>, l: FirstLine, hs: seq<Header>) returns (q: Parser)
    requires Proper(ask, p, out, l, hs)
    ensures Feed(ask, p, out, HeadText(l, hs)) == Awaiting(q, Head(l, hs, out), Rules(Started(p, l), hs)) && AtBody(p, l, hs, q)
  {
    hide Feed, Emit, LineText, LineHeard, HeadersText, Awaiting, LineFits, Started, Regular, Rules, Switches, AllWritten, HeadHeard, Behind, Summary;
    var r, told := Started(p, l), LineHeard(l, out);
    LineRead(ask, p, out, l);
    FeedOn(ask, p, out, LineText(l), HeadersText(hs) + [CR, LF], r, told);
    ChosenByRules(r, hs);
    q := HeadersAwaited(ask, r, told, hs);
    assert Notes(r, hs).Reads?;
  }

  /** The connection is kept behind the message: since version 1.1 unless it is to be closed, before only if it is asked for. */
  predicate Kept(l: FirstLine, hs: seq<Header>)
    requires IsNum(l.major) && IsNum(l.minor)
  {
    if Digit(l.major) > 0 && Digit(l.minor) > 0 then !Any(hs, Seeing(CLOSE)) else Any(hs, Seeing(KEEP_ALIVE))
  }

  /** The state behind the message. */
  function Next(l: FirstLine, hs: seq<Header>): State
    requires IsNum(l.major) && IsNum(l.minor)
  {
    if !Kept(l, hs) then Dead else if l.RequestLine? then StartReq else StartRes
  }

  lemma NextIs(p: Parser, l: FirstLine, hs: seq<Header>, q: Parser, r: Parser)
    requires LineFits(l, p) && AtBody(p, l, hs, q) && !Choice(q).UntilClose? && !Choice(q).Unreliable?
    requires r == q.(contentLength := 0, flags := q.flags.(trailing := r.flags.trailing)) || r == q
    ensures NewMessage(r) == Next(l, hs)
  {
    hide N.Target, N.OneLine, Any, IsNum, Digit, MethodName, Rules;
  }

  // --------------------------------------------------------------------------------------------------------
  // Messages

  /** A message without a body. */
  lemma MessageWithoutBody(ask: Answers, p: Parser, out: seq<Event>, l: FirstLine, hs: seq<Header>) returns (q: Parser)
    requires Proper(ask, p, out, l, hs) && Rules(Started(p, l), hs) == Nothing
    ensures Feed(ask, p, out, HeadText(l, hs)) == Fed(q, Emit(Head(l, hs, out), Notify(MessageComplete)))
    ensures q.state == Next(l, hs)
  {
    hide Feed, Emit, HeadText, Rules, Proper, NewMessage, Choice, Summary;
    ProperFits(ask, p, out, l, hs);
    hide LineFits;
    var r := HeadTold(ask, p, out, l, hs);
    NextIs(p, l, hs, r, r);
    q := r.(state := NewMessage(r));
  }

  lemma ProperFits(ask: Answers, p: Parser, out: seq<Event>, l: FirstLine, hs: seq<Header>)
    requires Proper(ask, p, out, l, hs)
    ensures LineFits(l, p) && IsNum(l.major) && IsNum(l.minor)
  {
  }

  /** A message with a Content-Length: the application is told of the first line, of the headers in their order, and of exactly
      the bytes that the length counts. */
  lemma MessageWithLength(ask: Answers, p: Parser, out: seq<Event>, l: FirstLine, hs: seq<Header>, body: string) returns (q: Parser)
    requires Proper(ask, p, out, l, hs) && body != "" && Rules(Started(p, l), hs) == Bytes(|body|)
    ensures Feed(ask, p, out, HeadText(l, hs) + body) == Fed(q, Emit(Emit(Head(l, hs, out), Data(Body, body)), Notify(MessageComplete)))
    ensures q.state == Next(l, hs)
  {
    hide Feed, Emit, HeadText, Rules, Proper, NewMessage, Choice, Summary;
    ProperFits(ask, p, out, l, hs);
    hide LineFits;
    var r := HeadTold(ask, p, out, l, hs);
    var r' := r.(state := BodyIdentity, contentLength := |body|);
    FeedOn(ask, p, out, HeadText(l, hs), body, r', Head(l, hs, out));
    IdentityBody(ask, r', Head(l, hs, out), body);
    NextIs(p, l, hs, r, r.(contentLength := 0));
    NewMessageState(r.(contentLength := 0));
    q := r.(contentLength := 0, state := NewMessage(r.(contentLength := 0)));
  }

  /** A chunked message: the application is told of exactly its chunks. */
  lemma MessageWithChunks(ask: Answers, p: Parser, out: seq<Event>, l: FirstLine, hs: seq<Header>, chunks: seq<Chunk>, last: Chunk) returns (q: Parser)
    requires Proper(ask, p, out, l, hs) && Rules(Started(p, l), hs) == Chunks
    requires (forall i | 0 <= i < |chunks| :: WellFormed(chunks[i]) && chunks[i].bytes != "") && WellFormed(last) && last.bytes == ""
    ensures Feed(ask, p, out, HeadText(l, hs) + Encode(chunks, last)) ==
            Fed(q, Emit(ChunksTold(chunks, Head(l, hs, out)), Notify(MessageComplete)))
    ensures q.state == Next(l, hs)
  {
    hide Feed, Emit, HeadText, Rules, Proper, NewMessage, Choice, Summary, WellFormed, Encode, ChunksTold;
    ProperFits(ask, p, out, l, hs);
    hide LineFits;
    var r := HeadTold(ask, p, out, l, hs);
    FeedOn(ask, p, out, HeadText(l, hs), Encode(chunks, last), r.(state := ChunkSizeStart), Head(l, hs, out));
    ChunkedDecodesEncoding(ask, r.(state := ChunkSizeStart), Head(l, hs, out), chunks, last);
    var r' := r.(contentLength := 0, flags := r.flags.(trailing := true));
    NextIs(p, l, hs, r, r');
    NewMessageState(r');
    q := r'.(state := NewMessage(r'));
  }

  lemma EofByte(ask: Answers, p: Parser, out: seq<Event>, ch: char)
    requires p.state.BodyIdentityEof?
    ensures Step(ask, p, out, ch) == Consumed(p, Emit(out, Data(Body, [ch])), false)
  {
    hide Emit;
  }

  lemma {:induction false} EofBody(ask: Answers, p: Parser, out: seq<Event>, body: string)
    requires p.state.BodyIdentityEof? && body != ""
    ensures Feed(ask, p, out, body) == Fed(p, Emit(out, Data(Body, body)))
    decreases |body|
  {
    hide Feed, Step, Emit;
    var x, ch := body[..|body| - 1], body[|body| - 1];
    assert body == x + [ch];
    if x == "" {
      assert body == [ch];
      EofByte(ask, p, out, ch);
      FeedByte(ask, p, out, ch);
    } else {
      EofBody(ask, p, out, x);
      FeedOn(ask, p, out, x, [ch], p, Emit(out, Data(Body, x)));
      EofByte(ask, p, Emit(out, Data(Body, x)), ch);
      FeedByte(ask, p, Emit(out, Data(Body, x)), ch);
      EmitJoins(out, Body, x, [ch]);
    }
  }

  /** A response without a length: all that comes is its body, until the input ends. */
  lemma MessageUntilClose(ask: Answers, p: Parser, out: seq<Event>, l: FirstLine, hs: seq<Header>, body: string) returns (q: Parser)
    requires Proper(ask, p, out, l, hs) && body != "" && Rules(Started(p, l), hs) == UntilClose
    ensures Feed(ask, p, out, HeadText(l, hs) + body) == Fed(q, Emit(Head(l, hs, out), Data(Body, body)))
    ensures q.state.BodyIdentityEof?
  {
    hide Feed, Emit, HeadText, Rules, Proper, Choice, Summary;
    ProperFits(ask, p, out, l, hs);
    hide LineFits;
    var r := HeadTold(ask, p, out, l, hs);
    q := r.(state := BodyIdentityEof);
    FeedOn(ask, p, out, HeadText(l, hs), body, q, Head(l, hs, out));
    EofBody(ask, q, Head(l, hs, out), body);
  }
}
