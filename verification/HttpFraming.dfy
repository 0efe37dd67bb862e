/** How the length of a message body is chosen, against the rules of section 3.3.3 of RFC 7230. */
module HttpFraming {
  import opened HttpTypes
  import opened HttpChars
  import opened HttpTransition
  import opened HttpInvariant
  import opened HttpFeed
  import opened HttpBodies

  /** What follows the headers of a message. */
  datatype Framing = Nothing | Chunks | Bytes(n: nat) | UntilClose | Unreliable

  /** A response with one of these status codes has no body, whatever its headers say. */
  predicate Bodyless(p: Parser) {
    p.kind.Response? && (p.status / 100 == 1 || p.status == 204 || p.status == 304)
  }

  /** What the parser chooses by its notes, when `p` has read the headers. */
  function Choice(p: Parser): Framing {
    if p.transferEncoding && p.flags.contentLength then Unreliable
    else if p.flags.chunked then Chunks
    else if p.transferEncoding then if p.kind.Response? then UntilClose else Unreliable
    else if p.contentLength != NO_LENGTH then if p.contentLength == 0 then Nothing else Bytes(p.contentLength)
    else if p.kind.Response? && !Bodyless(p) then UntilClose else Nothing
  }

  /** The parser that awaits such a body. */
  function Awaiting(p: Parser, out: seq<Event>, f: Framing): FeedResult {
    match f
    case Nothing => Completed(p, out)
    case Chunks => Fed(p.(state := ChunkSizeStart), out)
    case Bytes(n) => Fed(p.(state := BodyIdentity, contentLength := n), out)
    case UntilClose => Fed(p.(state := BodyIdentityEof), out)
    case Unreliable => Failed(if p.flags.contentLength then UnexpectedContentLength else InvalidTransferEncoding)
  }

  /** The parser when the application has been told that the headers are complete. */
  function HeadersRead(p: Parser): Parser {
    p.(state := HeadersDone,
       upgrade := if p.flags.upgrade && p.flags.connUpgrade then p.kind.Request? || p.status == 101 else p.verb.CONNECT?)
  }

  /** The last byte of the headers of a message, up to the answer of the application. */
  lemma HeadersEnd(ask: Answers, p: Parser, out: seq<Event>)
    requires p.state.HeadersAlmostDone? && !p.flags.trailing && !(p.transferEncoding && p.flags.contentLength)
    ensures var told := Emit(out, Notify(HeadersComplete));
      Step(ask, p, out, LF) ==
      if 0 <= ask(told) <= 2 then Step(ask, Answered(HeadersRead(p), ask(told)), told, LF) else Refused(CbHeadersComplete)
  {
    hide Emit, Answered, ResponseLine, RequestMethod, RequestVersion, RequestUrl, HeaderName, HeaderValueMove, BodyMove;
  }

  lemma BodyChosen(ask: Answers, p: Parser, out: seq<Event>)
    requires p.state.HeadersDone? && (p.kind.Request? || p.kind.Response?) && !p.upgrade && !(p.transferEncoding && p.flags.contentLength)
    ensures var r := Step(ask, p, out, LF);
      var empty := Consumed(p.(state := NewMessage(p)), Emit(out, Notify(MessageComplete)), true);
      if p.flags.skipBody then r == empty
      else if Choice(p).Nothing? then r == empty
      else if Choice(p).Chunks? then r == Consumed(p.(state := ChunkSizeStart), out, true)
      else if Choice(p).Bytes? then r == Consumed(p.(state := BodyIdentity), out, true) && p.contentLength == Choice(p).n
      else if Choice(p).UntilClose? then r == Consumed(p.(state := BodyIdentityEof), out, true)
      else r == Refused(InvalidTransferEncoding)
  {
    hide Emit, NewMessage, ResponseLine, RequestMethod, RequestVersion, RequestUrl, HeaderName, HeaderValueMove, BodyMove;
  }

  lemma BothRefused(ask: Answers, p: Parser, out: seq<Event>)
    requires p.state.HeadersAlmostDone? && !p.flags.trailing && p.transferEncoding && p.flags.contentLength
    ensures Step(ask, p, out, LF) == Refused(UnexpectedContentLength)
  {
    hide ResponseLine, RequestMethod, RequestVersion, RequestUrl, HeaderName, HeaderValueMove, BodyMove;
  }

  /** Where the application has no objection and the message does not ask for another protocol, the parser awaits the body
      that it has chosen. */
  lemma ChoiceAwaited(ask: Answers, p: Parser, out: seq<Event>)
    requires p.state.HeadersAlmostDone? && (p.kind.Request? || p.kind.Response?) && !p.flags.trailing && !p.flags.skipBody
    requires ask(Emit(out, Notify(HeadersComplete))) == 0 && !HeadersRead(p).upgrade
    ensures Feed(ask, p, out, [LF]) == Awaiting(HeadersRead(p), Emit(out, Notify(HeadersComplete)), Choice(p))
  {
    hide Step, Emit, Feed, NewMessage;
    var told := Emit(out, Notify(HeadersComplete));
    FeedByte(ask, p, out, LF);
    if p.transferEncoding && p.flags.contentLength {
      BothRefused(ask, p, out);
    } else {
      HeadersEnd(ask, p, out);
      BodyChosen(ask, HeadersRead(p), told);
      NewIsNotBody(HeadersRead(p));
    }
  }

  /** An application that answers 1 has no body to come, and one that answers 2 takes over what is behind the
      headers; so does a request to connect, and a message that asks for another protocol and has no body. */
  lemma AnswersObeyed(ask: Answers, p: Parser, out: seq<Event>)
    requires p.state.HeadersAlmostDone? && !p.flags.trailing && !(p.transferEncoding && p.flags.contentLength)
    ensures var told := Emit(out, Notify(HeadersComplete));
      var q := Answered(HeadersRead(p), ask(told));
      if ask(told) == 1 || ask(told) == 2 || (ask(told) == 0 && q.upgrade && (p.verb.CONNECT? || !HasBody(p)))
      then Feed(ask, p, out, [LF]) == Completed(q, told)
      else ask(told) != 0 ==> Feed(ask, p, out, [LF]) == Failed(CbHeadersComplete)
  {
    hide Step, Emit, Feed, NewMessage;
    var told := Emit(out, Notify(HeadersComplete));
    FeedByte(ask, p, out, LF);
    HeadersEnd(ask, p, out);
    NoBodyChosen(ask, Answered(HeadersRead(p), ask(told)), told);
  }

  lemma NoBodyChosen(ask: Answers, p: Parser, out: seq<Event>)
    requires p.state.HeadersDone?
    ensures p.flags.skipBody || (p.upgrade && (p.verb.CONNECT? || !HasBody(p))) ==>
      var q, told := p.(state := NewMessage(p)), Emit(out, Notify(MessageComplete));
      Step(ask, p, out, LF) == if p.upgrade then Left(q, told) else Consumed(q, told, true)
  {
    hide Emit, NewMessage, ResponseLine, RequestMethod, RequestVersion, RequestUrl, HeaderName, HeaderValueMove, BodyMove;
  }

  lemma NewIsNotBody(p: Parser)
    ensures !BodyState(NewMessage(p))
  {
  }
}
