/** Header lines: what the application is told of a header is what was written, and what the parser remembers of it. */
module HttpFields {
  import opened HttpTypes
  import opened HttpChars
  import opened HttpTransition
  import opened HttpInvariant
  import opened HttpFeed
  import opened HttpBodies
  import opened HttpHeaders
  import L = HttpLists

  /** A field name is a token. */
  predicate IsName(s: string) { s != "" && forall i | 0 <= i < |s| :: IsToken(s[i]) }

  /** The name begins with "transfer-encoding", in any case; the parser takes note of that whatever follows. */
  predicate LooksCoded(s: string) {
    s != "" && (IsCoding(Lowered(s)) || LooksCoded(s[..|s| - 1]))
  }

  predicate IsCoding(s: string) { s == TRANSFER_ENCODING }

  /** The parser after a field name. */
  function Named(p: Parser, s: string, i: nat): Parser {
    p.(state := HeaderField, header := Expected(Lowered(s)), index := i, transferEncoding := p.transferEncoding || LooksCoded(s))
  }

  lemma NextOfField(ask: Answers, p: Parser, out: seq<Event>, ch: char)
    requires p.state.HeaderField? && IsToken(ch)
    ensures Step(ask, p, out, ch) == Consumed(FieldChar(p, ch), Emit(out, Data(Field, [ch])), false)
  {
    hide Emit, FieldChar;
  }

  lemma {:induction false} LoweredLength(s: string)
    ensures |Lowered(s)| == |s|
  {
    if s != "" {
      LoweredLength(s[..|s| - 1]);
    }
  }

  lemma LooksCodedOne(ch: char)
    ensures !LooksCoded([ch])
  {
    LoweredLength([ch]);
    assert [ch][..0] == "";
  }

  lemma LooksCodedGrows(s: string, ch: char)
    ensures LooksCoded(s + [ch]) <==> LooksCoded(s) || IsCoding(Lowered(s + [ch]))
  {
    hide Lowered, IsCoding;
    assert (s + [ch])[..|s|] == s;
  }

  /** A name looks so exactly if its first letters are that word. */
  lemma {:induction false} LooksCodedIs(s: string)
    ensures LooksCoded(s) <==> |s| >= |TRANSFER_ENCODING| && IsCoding(Lowered(s[..|TRANSFER_ENCODING|]))
    decreases |s|
  {
    hide Lowered;
    LoweredLength(s);
    if s != "" {
      var x := s[..|s| - 1];
      LooksCodedIs(x);
      if |s| > |TRANSFER_ENCODING| {
        assert x[..|TRANSFER_ENCODING|] == s[..|TRANSFER_ENCODING|];
      } else {
        assert s[..|s|] == s;
      }
    }
  }

  /** When the last letter of "transfer-encoding" is read, the matcher says so. */
  lemma CodedNow(s: string, c: char)
    requires s != ""
    ensures Expected(s).MatchingTransferEncoding? && Expected(s + [c]).TransferEncoding? <==> IsCoding(s + [c])
  {
    hide Begins;
    ExpectedSpecial(s + [c]);
    if s + [c] == TRANSFER_ENCODING {
      assert s == TRANSFER_ENCODING[..16] by { assert (s + [c])[..16] == s; }
      assert Begins(s, TRANSFER_ENCODING) by { BeginsLonger(s, c, TRANSFER_ENCODING); BeginsWhole(s + [c], TRANSFER_ENCODING); }
      Letters(s);
      assert s[0] == 't' by { assert TRANSFER_ENCODING[..16][0] == 't'; }
    }
  }

  lemma LoweredOne(ch: char)
    ensures Lowered([ch]) == [Token(ch)]
  {
    hide Token;
    LoweredGrows("", ch);
    assert "" + [ch] == [ch] && [] + [Token(ch)] == [Token(ch)];
  }

  /** A field name, from its first byte. */
  lemma {:induction false} NameRead(ask: Answers, p: Parser, out: seq<Event>, s: string) returns (i: nat)
    requires p.state.HeaderFieldStart? && IsName(s)
    ensures Feed(ask, p, out, s) == Fed(Named(p, s, i), Emit(out, Data(Field, s)))
    ensures !Expected(Lowered(s)).General? ==> i == |s| - 1
    decreases |s|
  {
    hide Step, Feed, Emit, IsToken, Token, Expected, FirstOfName, LooksCoded, IsCoding, FieldChar, Lowered;
    var x, ch := s[..|s| - 1], s[|s| - 1];
    assert s == x + [ch];
    FeedByte(ask, p, out, ch);
    if x == "" {
      assert s == [ch];
      L.FieldByte(ask, p, out, ch);
      ExpectedFirst(Token(ch));
      LooksCodedOne(ch);
      LoweredOne(ch);
      i := 0;
    } else {
      var j := NameRead(ask, p, out, x);
      var q, told := Named(p, x, j), Emit(out, Data(Field, x));
      FeedOn(ask, p, out, x, [ch], q, told);
      FeedByte(ask, q, told, ch);
      NextOfField(ask, q, told, ch);
      EmitJoins(out, Field, x, [ch]);
      LettersRead(q, x, ch);
      LooksCodedGrows(x, ch);
      i := FieldChar(q, ch).index;
    }
  }

  lemma LettersRead(p: Parser, x: string, ch: char)
    requires x != "" && p.header == Expected(Lowered(x)) && (!p.header.General? ==> p.index == |x| - 1)
    ensures var q := FieldChar(p, ch);
      && q.header == Expected(Lowered(x + [ch])) && (!q.header.General? ==> q.index == |x|)
      && q == p.(header := q.header, index := q.index, transferEncoding := p.transferEncoding || IsCoding(Lowered(x + [ch])))
  {
    hide Expected, NameStep, Token, IsCoding, Lowered, FieldChar;
    LoweredGrows(x, ch);
    LoweredLength(x);
    LetterRead(p, Lowered(x), ch);
  }

  lemma LetterRead(p: Parser, s: string, ch: char)
    requires s != "" && p.header == Expected(s) && (!p.header.General? ==> p.index == |s| - 1)
    ensures var q := FieldChar(p, ch);
      && q.header == Expected(s + [Token(ch)]) && (!q.header.General? ==> q.index == |s|)
      && q == p.(header := q.header, index := q.index, transferEncoding := p.transferEncoding || IsCoding(s + [Token(ch)]))
  {
    hide Expected, NameStep, Token, IsCoding, Counting;
    NameStepExpected(s, Token(ch));
    NameStepCounts(p.header, p.index, Token(ch));
    NameStepCounts(p.header, |s| - 1, Token(ch));
    CodedNow(s, Token(ch));
  }

  // --------------------------------------------------------------------------------------------------------
  // Whole lines

  lemma ColonRead(ask: Answers, p: Parser, out: seq<Event>)
    requires p.state.HeaderField?
    ensures Step(ask, p, out, ':') == Consumed(p.(state := HeaderValueDiscardWs), Emit(out, Data(Field, "")), false)
  {
    hide Emit, FieldChar;
  }

  /** The name of a header and the colon. */
  lemma NameLine(ask: Answers, p: Parser, out: seq<Event>, name: string) returns (i: nat)
    requires p.state.HeaderFieldStart? && IsName(name)
    ensures Feed(ask, p, out, name + ":") == Fed(Named(p, name, i).(state := HeaderValueDiscardWs), Emit(out, Data(Field, name)))
  {
    hide Step, Feed, Emit, IsToken, Expected, LooksCoded;
    i := NameRead(ask, p, out, name);
    var q, told := Named(p, name, i), Emit(out, Data(Field, name));
    FeedOn(ask, p, out, name, ":", q, told);
    FeedByte(ask, q, told, ':');
    ColonRead(ask, q, told);
    EmitJoins(out, Field, name, "");
    assert name + "" == name;
  }

  lemma BlankRead(ask: Answers, p: Parser, out: seq<Event>, ch: char)
    requires p.state.HeaderValueDiscardWs? && Blank(ch)
    ensures Step(ask, p, out, ch) == Consumed(p, out, false)
  {
  }

  lemma {:induction false} BlanksRead(ask: Answers, p: Parser, out: seq<Event>, s: string)
    requires p.state.HeaderValueDiscardWs? && Blanks(s)
    ensures Feed(ask, p, out, s) == Fed(p, out)
    decreases |s|
  {
    hide Step, Blank;
    if s != "" {
      BlankRead(ask, p, out, s[0]);
      BlanksRead(ask, p, out, s[1..]);
    }
  }

  /** A line without a value. */
  lemma GapEnds(ask: Answers, p: Parser, out: seq<Event>)
    requires p.state.HeaderValueDiscardWs?
    ensures Feed(ask, p, out, [CR, LF]) == Fed(p.(state := HeaderValueDiscardLws), out)
  {
    hide Step, Feed;
    var q := p.(state := HeaderValueDiscardWsAlmostDone);
    GapReturn(ask, p, out);
    GapLineFeed(ask, q, out);
    assert [CR, LF] == [CR] + [LF];
    FeedByte(ask, p, out, CR);
    FeedOn(ask, p, out, [CR], [LF], q, out);
    FeedByte(ask, q, out, LF);
  }

  lemma GapReturn(ask: Answers, p: Parser, out: seq<Event>)
    requires p.state.HeaderValueDiscardWs?
    ensures Step(ask, p, out, CR) == Consumed(p.(state := HeaderValueDiscardWsAlmostDone), out, false)
  {
    hide ResponseLine, RequestMethod, RequestVersion, RequestUrl, HeaderName, EndOfHeaders, BodyMove;
  }

  lemma GapLineFeed(ask: Answers, p: Parser, out: seq<Event>)
    requires p.state.HeaderValueDiscardWsAlmostDone?
    ensures Step(ask, p, out, LF) == Consumed(p.(state := HeaderValueDiscardLws), out, false)
  {
    hide ResponseLine, RequestMethod, RequestVersion, RequestUrl, HeaderName, EndOfHeaders, BodyMove;
  }

  lemma GapGoesOn(ask: Answers, p: Parser, out: seq<Event>, s: string)
    requires p.state.HeaderValueDiscardLws? && s != "" && Blank(s[0])
    ensures Feed(ask, p, out, s) == Feed(ask, p.(state := HeaderValueDiscardWs), out, s)
  {
    hide Step, Blank;
    var q := p.(state := HeaderValueDiscardWs);
    BlankRead(ask, q, out, s[0]);
    GapAgain(ask, p, out, s[0]);
  }

  lemma GapAgain(ask: Answers, p: Parser, out: seq<Event>, ch: char)
    requires p.state.HeaderValueDiscardLws? && Blank(ch)
    ensures Step(ask, p, out, ch) == Consumed(p.(state := HeaderValueDiscardWs), out, false)
  {
    hide ResponseLine, RequestMethod, RequestVersion, RequestUrl, HeaderName, EndOfHeaders, BodyMove;
  }

  /** Lines of blanks, and blanks on the line behind them: what may stand in front of a value. */
  predicate Gap(lead: seq<string>, gap: string) {
    if lead == [] then Blanks(gap)
    else Blanks(lead[0]) && (if |lead| == 1 then gap else lead[1]) != "" && Gap(lead[1..], gap)
  }

  function LinesText(lines: seq<string>): string {
    if lines == [] then "" else lines[0] + [CR, LF] + LinesText(lines[1..])
  }

  lemma {:induction false} GapRead(ask: Answers, p: Parser, out: seq<Event>, lead: seq<string>, gap: string)
    requires p.state.HeaderValueDiscardWs? && Gap(lead, gap)
    ensures Feed(ask, p, out, LinesText(lead) + gap) == Fed(p, out)
    decreases |lead|
  {
    hide Step, Feed, Blank;
    if lead == [] {
      BlanksRead(ask, p, out, gap);
      assert LinesText(lead) + gap == gap;
    } else {
      var x, behind := lead[0], LinesText(lead[1..]) + gap;
      assert LinesText(lead) + gap == x + [CR, LF] + behind;
      BlanksRead(ask, p, out, x);
      FeedOn(ask, p, out, x, [CR, LF], p, out);
      GapEnds(ask, p, out);
      FeedOn(ask, p, out, x + [CR, LF], behind, p.(state := HeaderValueDiscardLws), out);
      GapBegins(lead, gap);
      GapGoesOn(ask, p.(state := HeaderValueDiscardLws), out, behind);
      GapRead(ask, p, out, lead[1..], gap);
    }
  }

  lemma GapBegins(lead: seq<string>, gap: string)
    requires lead != [] && Gap(lead, gap)
    ensures var behind := LinesText(lead[1..]) + gap; behind != "" && Blank(behind[0])
  {
    hide Blank;
    if |lead| > 1 {
      assert (LinesText(lead[1..]) + gap)[0] == lead[1][0];
    } else {
      assert LinesText(lead[1..]) + gap == gap;
    }
  }

  /** A header without a value is over when the next line begins. */
  lemma NothingTold(ask: Answers, p: Parser, out: seq<Event>, s: string)
    requires p.state.HeaderValueDiscardLws? && s != "" && !Blank(s[0])
    ensures Feed(ask, p, out, s) ==
            if p.header.ContentLength? then Failed(InvalidContentLength)
            else Feed(ask, Finished(p), Emit(out, Data(Value, "")), s)
  {
    hide Transition, Step, FinishHeader, Emit;
    NothingMove(p, s[0]);
    if !p.header.ContentLength? {
      StepAgain(ask, p, out, s[0], Transition(p, s[0]));
    } else {
      NothingRefused(ask, p, out, s[0]);
    }
  }

  lemma NothingMove(p: Parser, ch: char)
    requires p.state.HeaderValueDiscardLws? && !Blank(ch)
    ensures Transition(p, ch) ==
            if p.header.ContentLength? then Reject(InvalidContentLength)
            else Move(Finished(p), Some(Value), UpTo(Value), false, Again)
  {
    hide FinishHeader, ResponseLine, RequestMethod, RequestVersion, RequestUrl, HeaderName, EndOfHeaders, BodyMove;
  }

  lemma NothingRefused(ask: Answers, p: Parser, out: seq<Event>, ch: char)
    requires Transition(p, ch) == Reject(InvalidContentLength)
    ensures Step(ask, p, out, ch) == Refused(InvalidContentLength)
  {
    hide Transition;
  }

  lemma ValueFirst(ask: Answers, p: Parser, out: seq<Event>, ch: char)
    requires p.state.HeaderValueDiscardWs? && !p.header.ContentLength? && !p.header.ContentLengthWs?
    requires L.ValueByte(ch) && !Blank(ch)
    ensures ValueStart(p, ch).Move?
    ensures var r := Step(ask, p, out, ch);
      r.Consumed? && L.InList(r.p) && r.out == Emit(out, Data(Value, [ch])) && !r.reset && Same(p, r.p) && r.p == ValueStart(p, ch).p
  {
    hide Emit, Lower, IsHeaderChar, ValueStart;
    FirstSame(p, ch);
    assert Transition(p, ch) == ValueStart(p, ch);
    hide Transition;
  }

  lemma FirstSame(p: Parser, ch: char)
    requires !p.header.ContentLength? && !p.header.ContentLengthWs?
    ensures var mv := ValueStart(p, ch); mv.Move? && mv == Marked(mv.p) && L.InList(mv.p) && Same(p, mv.p)
  {
    hide Lower;
  }

  /** Only what a value can change, but for a length. */
  predicate Same(p: Parser, q: Parser) {
    q == p.(state := q.state, header := q.header, index := q.index, flags := q.flags)
  }

  lemma ConnectionSame(p: Parser, ch: char)
    ensures Same(p, ConnectionChar(p, ch))
  {
    hide Lower, IsToken, MatchValue, FirstOfConnection, FinishHeader;
    MatchSame(p, KEEP_ALIVE, Lower(ch), MatchingKeepAlive, ConnectionKeepAlive, ConnectionToken);
    MatchSame(p, CLOSE, Lower(ch), MatchingClose, ConnectionClose, ConnectionToken);
    MatchSame(p, UPGRADE, Lower(ch), MatchingConnUpgrade, ConnectionUpgrade, ConnectionToken);
  }

  lemma MatchSame(p: Parser, name: string, c: char, going: HeaderState, done: HeaderState, other: HeaderState)
    ensures var q := MatchValue(p, name, c, going, done, other); q == p.(header := q.header, index := q.index)
  {
  }

  lemma CodingSame(p: Parser, ch: char)
    ensures Same(p, CodingChar(p, ch))
  {
    hide Lower, IsToken, MatchValue;
    MatchSame(p, CHUNKED, Lower(ch), MatchingChunked, TransferEncodingChunked, TransferEncodingToken);
  }

  lemma ListCharSame(p: Parser, ch: char)
    ensures Same(p, L.ListChar(p, ch))
  {
    hide CodingChar, ConnectionChar;
    CodingSame(p, ch);
    ConnectionSame(p, ch);
  }

  /** More bytes of a value. */
  lemma {:induction false} RestTold(ask: Answers, p: Parser, out: seq<Event>, s: string) returns (q: Parser)
    requires L.InList(p) && s != "" && L.ValueBytes(s)
    ensures q == L.ListChars(p, s) && L.InList(q) && Same(p, q) && Feed(ask, p, out, s) == Fed(q, Emit(out, Data(Value, s)))
    decreases |s|
  {
    hide Step, Feed, Emit;
    hide L.ValueByte, L.ListChar, L.ListChars;
    var x, ch := s[..|s| - 1], s[|s| - 1];
    assert s == x + [ch];
    if x == "" {
      assert s == [ch];
      L.NextByte(ask, p, out, ch);
      L.ListCharStays(p, ch);
      ListCharSame(p, ch);
      FeedByte(ask, p, out, ch);
      L.ListCharsOne(p, ch);
      q := L.ListChar(p, ch);
    } else {
      var r := RestTold(ask, p, out, x);
      var told := Emit(out, Data(Value, x));
      FeedOn(ask, p, out, x, [ch], r, told);
      L.NextByte(ask, r, told, ch);
      L.ListCharStays(r, ch);
      ListCharSame(r, ch);
      FeedByte(ask, r, told, ch);
      EmitJoins(out, Value, x, [ch]);
      L.ListCharsJoin(p, x, [ch]);
      L.ListCharsOne(r, ch);
      q := L.ListChar(r, ch);
    }
  }

  /** A value from a byte on that has led to `r`. */
  lemma BytesTold(ask: Answers, p: Parser, out: seq<Event>, s: string, r: Parser) returns (q: Parser)
    requires s != "" && L.ValueBytes(s) && L.InList(r) && Same(p, r)
    requires Feed(ask, p, out, [s[0]]) == Fed(r, Emit(out, Data(Value, [s[0]])))
    ensures q == L.ListChars(r, s[1..]) && L.InList(q) && Same(p, q) && Feed(ask, p, out, s) == Fed(q, Emit(out, Data(Value, s)))
  {
    hide Feed, Emit;
    hide L.ValueByte, L.ListChars;
    if |s| == 1 {
      assert s == [s[0]] && s[1..] == "";
      L.NoChars(r);
      q := r;
    } else {
      assert s == [s[0]] + s[1..];
      FeedOn(ask, p, out, [s[0]], s[1..], r, Emit(out, Data(Value, [s[0]])));
      q := RestTold(ask, r, Emit(out, Data(Value, [s[0]])), s[1..]);
      EmitJoins(out, Value, [s[0]], s[1..]);
    }
  }

  lemma ValueTold(ask: Answers, p: Parser, out: seq<Event>, v: string) returns (q: Parser)
    requires p.state.HeaderValueDiscardWs? && !p.header.ContentLength? && !p.header.ContentLengthWs?
    requires v != "" && !Blank(v[0]) && L.ValueBytes(v)
    ensures L.InList(q) && Same(p, q) && Feed(ask, p, out, v) == Fed(q, Emit(out, Data(Value, v)))
    ensures q == L.ListChars(ValueStart(p, v[0]).p, v[1..])
  {
    hide Step, Feed, Emit, Blank, ValueStart;
    hide L.ValueByte, L.ListChars;
    ValueFirst(ask, p, out, v[0]);
    FeedByte(ask, p, out, v[0]);
    q := BytesTold(ask, p, out, v, ValueStart(p, v[0]).p);
  }

  /** The end of a line of a value. */
  lemma LineEnd(ask: Answers, p: Parser, out: seq<Event>)
    requires p.state.HeaderValue?
    ensures Feed(ask, p, out, [CR, LF]) == Fed(p.(state := HeaderValueLws), Emit(out, Data(Value, "")))
  {
    hide Step, Feed, Emit;
    var q, told := p.(state := HeaderAlmostDone), Emit(out, Data(Value, ""));
    L.ReturnByte(ask, p, out);
    L.LineFeedByte(ask, q, told);
    assert [CR, LF] == [CR] + [LF];
    FeedByte(ask, p, out, CR);
    FeedOn(ask, p, out, [CR], [LF], q, told);
    FeedByte(ask, q, told, LF);
  }

  /** The parser when a header is over. */
  function Finished(p: Parser): Parser { p.(flags := FinishHeader(p.flags, p.header), state := HeaderFieldStart) }

  /** The next line, if it does not begin with a blank, begins behind the header. */
  lemma NextLine(ask: Answers, p: Parser, out: seq<Event>, s: string)
    requires p.state.HeaderValueLws? && s != "" && !Blank(s[0])
    ensures Feed(ask, p, out, s) == Feed(ask, Finished(p), out, s)
  {
    hide Transition, Step, FinishHeader;
    NextMove(p, s[0]);
    StepAgain(ask, p, out, s[0], Transition(p, s[0]));
  }

  lemma NextMove(p: Parser, ch: char)
    requires p.state.HeaderValueLws? && !Blank(ch)
    ensures Transition(p, ch) == Redo(p.(flags := FinishHeader(p.flags, p.header)), HeaderFieldStart)
  {
    hide FinishHeader, ResponseLine, RequestMethod, RequestVersion, RequestUrl, HeaderName, EndOfHeaders, BodyMove;
  }

  // --------------------------------------------------------------------------------------------------------
  // Lines that belong to a value

  /** The header states inside a value that is not a length. */
  predicate Going(h: HeaderState) {
    h.General? || CodingHeader(h) || h.ConnectionTokenStart? || h.MatchingKeepAlive? || h.MatchingClose? || h.MatchingConnUpgrade? ||
    h.ConnectionToken? || h.ConnectionKeepAlive? || h.ConnectionClose? || h.ConnectionUpgrade?
  }

  /** The parser behind the blank that begins a line of a value: only the start of an element outlasts the end of a line. */
  function FoldStart(p: Parser): Parser {
    p.(state := HeaderValue, index := 0, header := if p.header.TransferEncodingTokenStart? || p.header.ConnectionTokenStart? then p.header else General)
  }

  lemma FoldStartIs(p: Parser, ch: char)
    requires Going(p.header)
    ensures ValueStart(p.(state := HeaderValueStart), ch) == Marked(FoldStart(p))
  {
    hide Lower;
  }

  lemma FoldFirst(ask: Answers, p: Parser, out: seq<Event>, ch: char)
    requires p.state.HeaderValueLws? && Going(p.header) && Blank(ch)
    ensures Step(ask, p, out, ch) == Consumed(FoldStart(p), Emit(out, Data(Value, [ch])), false)
  {
    hide Emit, ValueStart;
    FoldStartIs(p, ch);
    FoldMove(p, ch);
    hide Transition;
    StepAgain(ask, p, out, ch, Transition(p, ch));
  }

  lemma FoldMove(p: Parser, ch: char)
    requires p.state.HeaderValueLws? && Blank(ch)
    ensures Transition(p, ch) == Redo(if p.header.ContentLengthNum? then p.(header := ContentLengthWs) else p, HeaderValueStart)
    ensures Transition(p.(state := HeaderValueStart), ch) == ValueStart(p.(state := HeaderValueStart), ch)
  {
    hide ValueStart, ResponseLine, RequestMethod, RequestVersion, RequestUrl, HeaderName, EndOfHeaders, BodyMove;
  }

  /** Lines that belong to a value. */
  predicate Folds(folds: seq<string>) { forall i | 0 <= i < |folds| :: folds[i] != "" && Blank(folds[i][0]) && L.ValueBytes(folds[i]) }

  function Joined(folds: seq<string>): string { if folds == [] then "" else folds[0] + Joined(folds[1..]) }

  /** The parser after such a line, at the beginning of the next ... */
  function FoldRead(p: Parser, line: string): Parser
    requires line != ""
  {
    L.ListChars(FoldStart(p), line[1..]).(state := HeaderValueLws)
  }

  /** ... and after all of them. */
  function FoldsRead(p: Parser, folds: seq<string>): Parser
    requires Folds(folds)
    decreases |folds|
  {
    if folds == [] then p else FoldsRead(FoldRead(p, folds[0]), folds[1..])
  }

  lemma GoesOn(p: Parser, ch: char)
    requires Going(p.header)
    ensures Going(L.ListChar(p, ch).header)
  {
    hide Lower, IsToken, FinishHeader;
  }

  lemma {:induction false} AllGoesOn(p: Parser, s: string)
    requires Going(p.header)
    ensures Going(L.ListChars(p, s).header)
    decreases |s|
  {
    hide L.ListChar, Going;
    if s != "" {
      AllGoesOn(p, s[..|s| - 1]);
      GoesOn(L.ListChars(p, s[..|s| - 1]), s[|s| - 1]);
    }
  }

  lemma FoldStartGoes(p: Parser)
    ensures Going(FoldStart(p).header) && L.InList(FoldStart(p)) && Same(p, FoldStart(p))
  {
  }

  /** A line that begins with a blank belongs to the value before it. */
  lemma FoldTold(ask: Answers, p: Parser, out: seq<Event>, line: string)
    requires p.state.HeaderValueLws? && Going(p.header) && line != "" && Blank(line[0]) && L.ValueBytes(line)
    ensures Feed(ask, p, out, line + [CR, LF]) == Fed(FoldRead(p, line), Emit(out, Data(Value, line)))
    ensures Going(FoldRead(p, line).header) && Same(p, FoldRead(p, line))
  {
    hide Step, Feed, Emit, FoldStart, Blank, Going;
    hide L.ValueByte, L.ListChars;
    FoldStartGoes(p);
    FoldFirst(ask, p, out, line[0]);
    FeedByte(ask, p, out, line[0]);
    var r := BytesTold(ask, p, out, line, FoldStart(p));
    AllGoesOn(FoldStart(p), line[1..]);
    FeedOn(ask, p, out, line, [CR, LF], r, Emit(out, Data(Value, line)));
    InListIs(r);
    LineEnd(ask, r, Emit(out, Data(Value, line)));
    EmitJoins(out, Value, line, "");
    assert line + "" == line;
  }

  lemma {:induction false} FoldsTold(ask: Answers, p: Parser, out: seq<Event>, v: string, folds: seq<string>)
    requires p.state.HeaderValueLws? && Going(p.header) && Folds(folds)
    ensures var q := FoldsRead(p, folds); q.state.HeaderValueLws? && Going(q.header) && Same(p, q)
    ensures Feed(ask, p, Emit(out, Data(Value, v)), LinesText(folds)) == Fed(FoldsRead(p, folds), Emit(out, Data(Value, v + Joined(folds))))
    decreases |folds|
  {
    hide Step, Feed, Emit, FoldRead, Blank, Going, L.ValueByte;
    var told := Emit(out, Data(Value, v));
    if folds == [] {
      FeedNothing(ask, p, told);
      assert v + "" == v;
    } else {
      var line, rest := folds[0], folds[1..];
      FoldTold(ask, p, told, line);
      EmitJoins(out, Value, v, line);
      FoldReadState(p, line);
      FeedOn(ask, p, told, line + [CR, LF], LinesText(rest), FoldRead(p, line), Emit(out, Data(Value, v + line)));
      FoldsTold(ask, FoldRead(p, line), out, v + line, rest);
      assert v + line + Joined(rest) == v + (line + Joined(rest));
    }
  }

  lemma FoldReadState(p: Parser, line: string)
    requires line != ""
    ensures FoldRead(p, line).state.HeaderValueLws?
  {
    hide L.ListChars;
  }

  lemma FeedNothing(ask: Answers, p: Parser, out: seq<Event>)
    ensures Feed(ask, p, out, "") == Fed(p, out)
  {
  }

  lemma InListIs(p: Parser)
    requires L.InList(p)
    ensures p.state.HeaderValue? && !p.header.ContentLengthNum? && !p.header.ContentLengthWs?
  {
  }

  lemma ExpectedNames(s: string)
    ensures var h := Expected(s); !h.ContentLengthWs? && !h.ContentLengthNum? && !h.TransferEncodingTokenStart? && !h.ConnectionTokenStart?
  {
    hide Begins;
  }
}
