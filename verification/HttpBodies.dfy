/** Lengths and bodies: the parser undoes the encodings of a message body. */
module HttpBodies {
  import opened HttpTypes
  import opened HttpChars
  import opened HttpTransition
  import opened HttpInvariant
  import opened HttpFeed
  import opened HttpRuns

  // --------------------------------------------------------------------------------------------------------
  // Numbers

  predicate Digits(s: string) { forall i | 0 <= i < |s| :: IsNum(s[i]) }

  predicate HexDigits(s: string) { forall i | 0 <= i < |s| :: IsHex(s[i]) }

  /** The number written in decimal. */
  function DecValue(s: string): nat
    requires Digits(s)
  {
    if s == "" then 0 else DecValue(s[..|s| - 1]) * 10 + Digit(s[|s| - 1])
  }

  /** The number written in hexadecimal. */
  function HexValue(s: string): nat
    requires HexDigits(s)
  {
    if s == "" then 0 else HexValue(s[..|s| - 1]) * 16 + Unhex(s[|s| - 1])
  }

  /** A continuation of a feed. */
  lemma FeedOn(ask: Answers, p: Parser, out: seq<Event>, x: string, y: string, q: Parser, told: seq<Event>)
    requires Feed(ask, p, out, x) == Fed(q, told)
    ensures Feed(ask, p, out, x + y) == Feed(ask, q, told, y)
  {
    hide Feed;
    FeedSplits(ask, p, out, x, y);
  }

  /** A byte on its own. */
  function Alone(r: ByteResult): FeedResult {
    match r
    case Consumed(q, told, _) => Fed(q, told)
    case Left(q, told) => Exited(q, told, "")
    case Refused(e) => Failed(e)
  }

  lemma FeedByte(ask: Answers, p: Parser, out: seq<Event>, ch: char)
    ensures Feed(ask, p, out, [ch]) == Alone(Step(ask, p, out, ch))
  {
    hide Step;
  }

  // --------------------------------------------------------------------------------------------------------
  // Content-Length

  /** The state behind the digits of a Content-Length. */
  function LengthRead(p: Parser, n: nat): Parser {
    p.(state := HeaderValue, index := 0, header := ContentLengthNum, contentLength := n,
       flags := p.flags.(contentLength := true))
  }

  lemma FirstDigit(ask: Answers, p: Parser, out: seq<Event>, ch: char)
    requires p.state.HeaderValueDiscardWs? && p.header.ContentLength? && !p.flags.contentLength && IsNum(ch)
    ensures Step(ask, p, out, ch) == Consumed(LengthRead(p, Digit(ch)), Emit(out, Data(Value, [ch])), false)
  {
    hide Emit, ResponseLine, RequestMethod, RequestVersion, RequestUrl, HeaderName, EndOfHeaders, BodyMove;
  }

  lemma NextDigit(ask: Answers, p: Parser, out: seq<Event>, ch: char, n: nat)
    requires IsNum(ch)
    ensures Step(ask, LengthRead(p, n), out, ch) ==
            if (NO_LENGTH - 10) / 10 < n then Refused(InvalidContentLength)
            else Consumed(LengthRead(p, n * 10 + Digit(ch)), Emit(out, Data(Value, [ch])), false)
  {
    hide Emit, ResponseLine, RequestMethod, RequestVersion, RequestUrl, HeaderName, EndOfHeaders, BodyMove;
  }

  lemma DecValueMonotone(s: string)
    requires Digits(s) && s != ""
    ensures Digits(s[..|s| - 1]) && DecValue(s[..|s| - 1]) <= DecValue(s)
  {
  }

  /** A Content-Length of digits is taken exactly when all but its last digit make a number of at most
      (2^64 - 11) / 10. Then `content_length` is its value, which is never the mark for an unknown length. */
  lemma {:induction false} ContentLengthExact(ask: Answers, p: Parser, out: seq<Event>, s: string)
    requires p.state.HeaderValueDiscardWs? && p.header.ContentLength? && !p.flags.contentLength
    requires s != "" && Digits(s)
    ensures Feed(ask, p, out, s) ==
            if DecValue(s[..|s| - 1]) <= (NO_LENGTH - 10) / 10
            then Fed(LengthRead(p, DecValue(s)), Emit(out, Data(Value, s)))
            else Failed(InvalidContentLength)
    ensures DecValue(s[..|s| - 1]) <= (NO_LENGTH - 10) / 10 ==> DecValue(s) < NO_LENGTH
    decreases |s|
  {
    hide Step, Emit, Feed, IsNum;
    var x, ch := s[..|s| - 1], s[|s| - 1];
    assert s == x + [ch];
    if x == "" {
      assert s == [ch];
      FirstDigit(ask, p, out, ch);
      FeedByte(ask, p, out, ch);
      assert DecValue(x) == 0;
    } else {
      ContentLengthExact(ask, p, out, x);
      DecValueMonotone(x);
      FeedSplits(ask, p, out, x, [ch]);
      NextDigit(ask, p, Emit(out, Data(Value, x)), ch, DecValue(x));
      FeedByte(ask, LengthRead(p, DecValue(x)), Emit(out, Data(Value, x)), ch);
      EmitJoins(out, Value, x, [ch]);
    }
    DigitBound(ch);
  }

  lemma DigitBound(ch: char)
    requires IsNum(ch)
    ensures Digit(ch) <= 9
  {
  }

  // --------------------------------------------------------------------------------------------------------
  // Identity bodies

  /** The result of a message that is complete. */
  function Completed(p: Parser, out: seq<Event>): FeedResult {
    var q, told := p.(state := NewMessage(p)), Emit(out, Notify(MessageComplete));
    if p.upgrade then Exited(q, told, "") else Fed(q, told)
  }

  lemma MessageEnds(ask: Answers, p: Parser, out: seq<Event>, ch: char)
    requires p.state.MessageDone?
    ensures var q, told := p.(state := NewMessage(p)), Emit(out, Notify(MessageComplete));
            Step(ask, p, out, ch) == if p.upgrade then Left(q, told) else Consumed(q, told, false)
  {
    hide Emit, NewMessage;
  }

  lemma BodyEnds(ask: Answers, p: Parser, out: seq<Event>, ch: char)
    requires p.state.BodyIdentity? && p.contentLength == 1
    ensures Step(ask, p, out, ch) ==
            Step(ask, p.(contentLength := 0, state := MessageDone), Emit(out, Data(Body, [ch])), ch)
  {
    hide Emit, Step;
    StepAgain(ask, p, out, ch, Transition(p, ch));
  }

  lemma LastBodyByte(ask: Answers, p: Parser, out: seq<Event>, ch: char)
    requires p.state.BodyIdentity? && p.contentLength == 1
    ensures Feed(ask, p, out, [ch]) == Completed(p.(contentLength := 0), Emit(out, Data(Body, [ch])))
  {
    hide Emit, Step, NewMessage;
    BodyEnds(ask, p, out, ch);
    MessageEnds(ask, p.(contentLength := 0, state := MessageDone), Emit(out, Data(Body, [ch])), ch);
    FeedByte(ask, p, out, ch);
    NewMessageOf(p);
  }

  lemma NewMessageOf(p: Parser)
    ensures NewMessage(p.(contentLength := 0, state := MessageDone)) == NewMessage(p.(contentLength := 0))
  {
  }

  /** A body of a given length is passed on whole: after fewer bytes that many are passed on and the rest is
      awaited, after exactly that many the message is complete. */
  lemma IdentityBody(ask: Answers, p: Parser, out: seq<Event>, body: string)
    requires p.state.BodyIdentity? && 0 < |body| <= p.contentLength
    ensures Feed(ask, p, out, body) ==
            if |body| < p.contentLength then Fed(p.(contentLength := p.contentLength - |body|), Emit(out, Data(Body, body)))
            else Completed(p.(contentLength := 0), Emit(out, Data(Body, body)))
  {
    hide Emit, Step, Completed, Run;
    if |body| < p.contentLength {
      BodyRun(ask, p, body, |body|);
      RunFeeds(ask, BodyStates(p, |body|), Body, out, body, 0, 0);
      assert body[..|body|] == body && body[|body|..] == "";
    } else {
      var k := |body| - 1;
      var x, ch := body[..k], body[k];
      BodyRun(ask, p, body, k);
      RunFeeds(ask, BodyStates(p, k), Body, out, body, 0, 0);
      assert body[k..] == [ch] && body == x + [ch];
      LastBodyByte(ask, BodySkip(p, k), Grown(out, Body, x), ch);
      GrownGrows(out, Body, x, ch);
    }
  }

  // --------------------------------------------------------------------------------------------------------
  // Chunked bodies (section 4.1 of RFC 7230)

  /** A chunk as it is sent: its size in hexadecimal digits of either case, an extension, its bytes. */
  datatype Chunk = Chunk(size: string, extension: string, bytes: string)

  /** The size is a number, and the one the bytes have; an extension begins with a semicolon or a space and
      keeps to its line. */
  predicate WellFormed(c: Chunk) {
    && c.size != "" && HexDigits(c.size) && HexValue(c.size) == |c.bytes| <= NO_LENGTH - 16
    && (c.extension != "" ==> c.extension[0] == ';' || c.extension[0] == ' ')
    && (forall i | 0 <= i < |c.extension| :: c.extension[i] != CR)
  }

  function EncodeChunk(c: Chunk): string {
    c.size + c.extension + [CR] + [LF] + c.bytes + (if c.bytes == "" then "" else [CR] + [LF])
  }

  /** All chunks, then the last one, which is empty, and the empty trailer. */
  function Encode(chunks: seq<Chunk>, last: Chunk): string {
    if chunks == [] then EncodeChunk(last) + ([CR] + [LF]) else EncodeChunk(chunks[0]) + Encode(chunks[1..], last)
  }

  /** What the application is told of a chunk ... */
  function ChunkTold(c: Chunk, out: seq<Event>): seq<Event> {
    Emit(Emit(Emit(out, Notify(ChunkHeader)), Data(Body, c.bytes)), Notify(ChunkComplete))
  }

  /** ... and of all of them. */
  function ChunksTold(chunks: seq<Chunk>, out: seq<Event>): seq<Event> {
    if chunks == [] then Emit(Emit(out, Notify(ChunkHeader)), Notify(ChunkComplete))
    else ChunksTold(chunks[1..], ChunkTold(chunks[0], out))
  }

  lemma HexValueMonotone(s: string)
    requires HexDigits(s) && s != ""
    ensures HexDigits(s[..|s| - 1]) && HexValue(s[..|s| - 1]) * 16 <= HexValue(s)
  {
    hide IsHex;
    assert IsHex(s[|s| - 1]);
  }

  lemma FirstHex(ask: Answers, p: Parser, out: seq<Event>, ch: char)
    requires p.state.ChunkSizeStart? && IsHex(ch)
    ensures Step(ask, p, out, ch) == Consumed(p.(state := ChunkSize, contentLength := Unhex(ch)), out, false)
  {
    hide Emit;
  }

  lemma NextHex(ask: Answers, p: Parser, out: seq<Event>, ch: char)
    requires p.state.ChunkSize? && IsHex(ch)
    ensures Step(ask, p, out, ch) ==
            if (NO_LENGTH - 16) / 16 < p.contentLength then Refused(InvalidContentLength)
            else Consumed(p.(contentLength := p.contentLength * 16 + Unhex(ch)), out, false)
  {
    hide Emit;
  }

  /** A chunk size is taken exactly when all but its last digit make a number of at most (2^64 - 17) / 16. */
  lemma {:induction false} ChunkSizeExact(ask: Answers, p: Parser, out: seq<Event>, s: string)
    requires p.state.ChunkSizeStart? && s != "" && HexDigits(s)
    ensures Feed(ask, p, out, s) ==
            if HexValue(s[..|s| - 1]) <= (NO_LENGTH - 16) / 16
            then Fed(p.(state := ChunkSize, contentLength := HexValue(s)), out)
            else Failed(InvalidContentLength)
    ensures HexValue(s[..|s| - 1]) <= (NO_LENGTH - 16) / 16 ==> HexValue(s) < NO_LENGTH
    decreases |s|
  {
    hide Step, Feed, IsHex, Unhex;
    var x, ch := s[..|s| - 1], s[|s| - 1];
    assert s == x + [ch] && IsHex(ch);
    assert -1 <= Unhex(ch) < 16;
    if x == "" {
      assert s == [ch];
      FirstHex(ask, p, out, ch);
      FeedByte(ask, p, out, ch);
      assert HexValue(x) == 0;
    } else {
      var q := p.(state := ChunkSize, contentLength := HexValue(x));
      ChunkSizeExact(ask, p, out, x);
      HexValueMonotone(x);
      FeedSplits(ask, p, out, x, [ch]);
      NextHex(ask, q, out, ch);
      FeedByte(ask, q, out, ch);
    }
  }

  lemma ExtensionBegins(ask: Answers, p: Parser, out: seq<Event>, ch: char)
    requires p.state.ChunkSize? && (ch == ';' || ch == ' ')
    ensures Step(ask, p, out, ch) == Consumed(p.(state := ChunkParameters), out, false)
  {
    hide Emit;
  }

  lemma ExtensionGoesOn(ask: Answers, p: Parser, out: seq<Event>, ch: char)
    requires p.state.ChunkParameters? && ch != CR
    ensures Step(ask, p, out, ch) == Consumed(p, out, false)
  {
    hide Emit;
  }

  lemma {:induction false} ExtensionRest(ask: Answers, p: Parser, out: seq<Event>, s: string)
    requires p.state.ChunkParameters? && forall i | 0 <= i < |s| :: s[i] != CR
    ensures Feed(ask, p, out, s) == Fed(p, out)
    decreases |s|
  {
    hide Step;
    if s != "" {
      ExtensionGoesOn(ask, p, out, s[0]);
      ExtensionRest(ask, p, out, s[1..]);
    }
  }

  lemma SizeLineEnds(ask: Answers, p: Parser, out: seq<Event>)
    requires p.state.ChunkSize? || p.state.ChunkParameters?
    ensures Step(ask, p, out, CR) == Consumed(p.(state := ChunkSizeAlmostDone), out, false)
  {
    hide Emit;
  }

  lemma ChunkOpens(ask: Answers, p: Parser, out: seq<Event>)
    requires p.state.ChunkSizeAlmostDone?
    ensures Step(ask, p, out, LF) ==
            Consumed(if p.contentLength == 0 then p.(flags := p.flags.(trailing := true), state := HeaderFieldStart)
                     else p.(state := ChunkData),
                     Emit(out, Notify(ChunkHeader)), true)
  {
    hide Emit;
  }

  /** A size line. */
  lemma SizeLine(ask: Answers, p: Parser, out: seq<Event>, c: Chunk)
    requires p.state.ChunkSizeStart? && WellFormed(c)
    ensures Feed(ask, p, out, c.size + c.extension + [CR] + [LF]) ==
            Fed(if c.bytes == "" then p.(contentLength := 0, flags := p.flags.(trailing := true), state := HeaderFieldStart)
                else p.(contentLength := |c.bytes|, state := ChunkData),
                Emit(out, Notify(ChunkHeader)))
  {
    hide Step, Feed, Emit, IsHex, HexValue;
    HexValueMonotone(c.size);
    ChunkSizeExact(ask, p, out, c.size);
    var q := p.(state := ChunkSize, contentLength := |c.bytes|);
    var r := if c.extension == "" then q else q.(state := ChunkParameters);
    assert Feed(ask, p, out, c.size + c.extension) == Fed(r, out) by {
      if c.extension == "" {
        assert c.size + c.extension == c.size;
      } else {
        var first, more := c.extension[0], c.extension[1..];
        assert c.extension == [first] + more;
        FeedOn(ask, p, out, c.size, c.extension, q, out);
        ExtensionBegins(ask, q, out, first);
        FeedByte(ask, q, out, first);
        FeedOn(ask, q, out, [first], more, r, out);
        ExtensionRest(ask, r, out, more);
      }
    }
    var s := r.(state := ChunkSizeAlmostDone);
    FeedOn(ask, p, out, c.size + c.extension, [CR], r, out);
    SizeLineEnds(ask, r, out);
    FeedByte(ask, r, out, CR);
    FeedOn(ask, p, out, c.size + c.extension + [CR], [LF], s, out);
    ChunkOpens(ask, s, out);
    FeedByte(ask, s, out, LF);
  }

  lemma ChunkByte(ask: Answers, p: Parser, out: seq<Event>, ch: char)
    requires p.state.ChunkData? && p.contentLength == 1
    ensures Step(ask, p, out, ch) ==
            Consumed(p.(contentLength := 0, state := ChunkDataAlmostDone), Emit(out, Data(Body, [ch])), false)
  {
    hide Emit;
  }

  lemma ChunkBytesEnd(ask: Answers, p: Parser, out: seq<Event>)
    requires p.state.ChunkDataAlmostDone?
    ensures Step(ask, p, out, CR) == Consumed(p.(state := ChunkDataDone), out, false)
  {
    hide Emit;
  }

  lemma ChunkShuts(ask: Answers, p: Parser, out: seq<Event>)
    requires p.state.ChunkDataDone?
    ensures Step(ask, p, out, LF) == Consumed(p.(state := ChunkSizeStart), Emit(out, Notify(ChunkComplete)), true)
  {
    hide Emit;
  }

  lemma ChunkBytes(ask: Answers, p: Parser, out: seq<Event>, bytes: string)
    requires p.state.ChunkData? && |bytes| == p.contentLength > 0
    ensures Feed(ask, p, out, bytes) == Fed(p.(contentLength := 0, state := ChunkDataAlmostDone), Emit(out, Data(Body, bytes)))
  {
    hide Step, Emit, Run;
    var k := |bytes| - 1;
    var x, ch := bytes[..k], bytes[k];
    assert bytes == x + [ch] && bytes[k..] == [ch];
    BodyRun(ask, p, bytes, k);
    RunFeeds(ask, BodyStates(p, k), Body, out, bytes, 0, 0);
    ChunkByte(ask, BodySkip(p, k), Grown(out, Body, x), ch);
    GrownGrows(out, Body, x, ch);
  }

  /** A chunk with bytes. */
  lemma OneChunk(ask: Answers, p: Parser, out: seq<Event>, c: Chunk)
    requires p.state.ChunkSizeStart? && WellFormed(c) && c.bytes != ""
    ensures Feed(ask, p, out, EncodeChunk(c)) == Fed(p.(contentLength := 0), ChunkTold(c, out))
  {
    hide Step, Feed, Emit, WellFormed;
    var line := c.size + c.extension + [CR] + [LF];
    SizeLine(ask, p, out, c);
    var q := p.(contentLength := |c.bytes|, state := ChunkData);
    var o1 := Emit(out, Notify(ChunkHeader));
    var r := p.(contentLength := 0, state := ChunkDataAlmostDone);
    var o2 := Emit(o1, Data(Body, c.bytes));
    FeedOn(ask, p, out, line, c.bytes, q, o1);
    ChunkBytes(ask, q, o1, c.bytes);
    ChunkBytesEnd(ask, r, o2);
    ChunkShuts(ask, r.(state := ChunkDataDone), o2);
    FeedOn(ask, p, out, line + c.bytes, [CR], r, o2);
    FeedByte(ask, r, o2, CR);
    FeedOn(ask, p, out, line + c.bytes + [CR], [LF], r.(state := ChunkDataDone), o2);
    FeedByte(ask, r.(state := ChunkDataDone), o2, LF);
    assert EncodeChunk(c) == line + c.bytes + [CR] + [LF];
  }

  lemma TrailerBegins(ask: Answers, p: Parser, out: seq<Event>)
    requires p.state.HeaderFieldStart?
    ensures Step(ask, p, out, CR) == Consumed(p.(state := HeadersAlmostDone), out, false)
  {
    hide Emit;
  }

  lemma TrailerEnds(ask: Answers, p: Parser, out: seq<Event>)
    requires p.state.HeadersAlmostDone? && p.flags.trailing
    ensures Step(ask, p, out, LF) == Step(ask, p.(state := MessageDone), Emit(out, Notify(ChunkComplete)), LF)
  {
    hide Emit, Step;
    StepAgain(ask, p, out, LF, Transition(p, LF));
  }

  /** The last chunk and the end of the message. */
  lemma LastChunk(ask: Answers, p: Parser, out: seq<Event>, last: Chunk)
    requires p.state.ChunkSizeStart? && WellFormed(last) && last.bytes == ""
    ensures Feed(ask, p, out, EncodeChunk(last) + ([CR] + [LF])) ==
            Completed(p.(contentLength := 0, flags := p.flags.(trailing := true)), ChunksTold([], out))
  {
    hide Step, Feed, Emit, WellFormed, NewMessage;
    var line := last.size + last.extension + [CR] + [LF];
    SizeLine(ask, p, out, last);
    var q := p.(contentLength := 0, flags := p.flags.(trailing := true), state := HeaderFieldStart);
    var o1 := Emit(out, Notify(ChunkHeader));
    FeedOn(ask, p, out, line, [CR] + [LF], q, o1);
    TrailerBegins(ask, q, o1);
    TrailerEnds(ask, q.(state := HeadersAlmostDone), o1);
    FeedByte(ask, q, o1, CR);
    FeedOn(ask, q, o1, [CR], [LF], q.(state := HeadersAlmostDone), o1);
    FeedByte(ask, q.(state := HeadersAlmostDone), o1, LF);
    MessageEnds(ask, q.(state := MessageDone), Emit(o1, Notify(ChunkComplete)), LF);
    assert EncodeChunk(last) == line;
    NewMessageState(q);
  }

  lemma NewMessageState(p: Parser)
    ensures forall s :: NewMessage(p.(state := s)) == NewMessage(p)
  {
  }

  /** Chunked decoding undoes chunked encoding: the bytes of each chunk are passed on, between one
      `chunk_header` and one `chunk_complete`, then one more of each for the last chunk, then the message is
      complete. */
  lemma {:induction false} ChunkedDecodesEncoding(ask: Answers, p: Parser, out: seq<Event>, chunks: seq<Chunk>, last: Chunk)
    requires p.state.ChunkSizeStart?
    requires forall i | 0 <= i < |chunks| :: WellFormed(chunks[i]) && chunks[i].bytes != ""
    requires WellFormed(last) && last.bytes == ""
    ensures Feed(ask, p, out, Encode(chunks, last)) ==
            Completed(p.(contentLength := 0, flags := p.flags.(trailing := true)), ChunksTold(chunks, out))
    decreases |chunks|
  {
    hide Step, Feed, Emit, WellFormed, Completed, EncodeChunk, ChunkTold;
    if chunks == [] {
      LastChunk(ask, p, out, last);
    } else {
      OneChunk(ask, p, out, chunks[0]);
      FeedOn(ask, p, out, EncodeChunk(chunks[0]), Encode(chunks[1..], last), p.(contentLength := 0), ChunkTold(chunks[0], out));
      ChunkedDecodesEncoding(ask, p.(contentLength := 0), ChunkTold(chunks[0], out), chunks[1..], last);
    }
  }
}
