/** What the parser recognises: header names, and the codings of a Transfer-Encoding. */
module HttpHeaders {
  import opened HttpTypes
  import opened HttpChars
  import opened HttpTransition
  import opened HttpInvariant
  import opened HttpFeed
  import opened HttpGrammar

  // --------------------------------------------------------------------------------------------------------
  // Names

  /** A string with its capital letters lowered. */
  function Lowered(s: string): string {
    if s == "" then "" else Lowered(s[..|s| - 1]) + [Token(s[|s| - 1])]
  }

  predicate Begins(s: string, name: string) { |s| <= |name| && name[..|s|] == s }

  lemma BeginsLonger(s: string, c: char, name: string)
    ensures Begins(s + [c], name) <==> Begins(s, name) && |s| < |name| && name[|s|] == c
  {
    if |s| < |name| {
      assert name[..|s| + 1] == name[..|s|] + [name[|s|]];
      if Begins(s + [c], name) {
        assert name[..|s| + 1][..|s|] == s;
        assert name[..|s| + 1][|s|] == c;
      }
    }
  }

  /** The letters by which the names are told apart. */
  lemma Letters(s: string)
    requires s != ""
    ensures Begins(s, CONNECTION) || Begins(s, CONTENT_LENGTH) ==> s[0] == 'c'
    ensures Begins(s, PROXY_CONNECTION) ==> s[0] == 'p'
    ensures Begins(s, TRANSFER_ENCODING) ==> s[0] == 't'
    ensures Begins(s, UPGRADE) ==> s[0] == 'u'
    ensures |s| >= 4 && Begins(s, CONNECTION) ==> s[3] == 'n'
    ensures |s| >= 4 && Begins(s, CONTENT_LENGTH) ==> s[3] == 't'
  {
    FirstLetter(s, CONNECTION);
    FirstLetter(s, CONTENT_LENGTH);
    FirstLetter(s, PROXY_CONNECTION);
    FirstLetter(s, TRANSFER_ENCODING);
    FirstLetter(s, UPGRADE);
  }

  lemma FirstLetter(s: string, name: string)
    requires s != ""
    ensures Begins(s, name) ==> s[0] == name[0] && (|s| >= 4 ==> s[3] == name[3])
  {
    if Begins(s, name) {
      assert name[..|s|][0] == name[0];
    }
  }

  lemma ShortNames()
    ensures Begins("c", CONNECTION) && Begins("co", CONNECTION) && Begins("con", CONNECTION)
    ensures Begins("c", CONTENT_LENGTH) && Begins("co", CONTENT_LENGTH) && Begins("con", CONTENT_LENGTH)
  {
  }

  /** The first letters of the two names that begin alike. */
  lemma ShortOnly(s: string)
    requires 1 <= |s| <= 3
    ensures Begins(s, CONNECTION) || Begins(s, CONTENT_LENGTH) ==> s == "c" || s == "co" || s == "con"
  {
  }

  function Progress(s: string, name: string, going: HeaderState, done: HeaderState): HeaderState {
    if |s| == |name| then done else going
  }

  /** The header state that a field name, so far `s` in lower case, must have. */
  function Expected(s: string): HeaderState {
    if s == "c" then C else if s == "co" then CO else if s == "con" then CON
    else if |s| >= 4 && Begins(s, CONNECTION) then Progress(s, CONNECTION, MatchingConnection, Connection)
    else if |s| >= 4 && Begins(s, CONTENT_LENGTH) then Progress(s, CONTENT_LENGTH, MatchingContentLength, ContentLength)
    else if s != "" && Begins(s, PROXY_CONNECTION) then Progress(s, PROXY_CONNECTION, MatchingProxyConnection, Connection)
    else if s != "" && Begins(s, TRANSFER_ENCODING) then
      Progress(s, TRANSFER_ENCODING, MatchingTransferEncoding, TransferEncoding)
    else if s != "" && Begins(s, UPGRADE) then Progress(s, UPGRADE, MatchingUpgrade, Upgrade)
    else General
  }

  /** A name is special exactly when it is one of the names the parser knows. */
  lemma ExpectedSpecial(s: string)
    ensures Expected(s).Connection? <==> s == CONNECTION || s == PROXY_CONNECTION
    ensures Expected(s).ContentLength? <==> s == CONTENT_LENGTH
    ensures Expected(s).TransferEncoding? <==> s == TRANSFER_ENCODING
    ensures Expected(s).Upgrade? <==> s == UPGRADE
  {
    BeginsWhole(s, CONNECTION);
    BeginsWhole(s, CONTENT_LENGTH);
    BeginsWhole(s, PROXY_CONNECTION);
    BeginsWhole(s, TRANSFER_ENCODING);
    BeginsWhole(s, UPGRADE);
    hide Begins;
    if s != "" {
      Letters(s);
    }
  }

  lemma BeginsWhole(s: string, name: string)
    ensures |s| == |name| && Begins(s, name) <==> s == name
  {
    assert name[..|name|] == name;
  }

  /** The matchers of the program follow the expectation letter by letter. */
  lemma NameStepExpected(s: string, c: char)
    requires s != ""
    ensures NameStep(Expected(s), |s| - 1, c) == Expected(s + [c])
  {
    hide Begins;
    Letters(s);
    Letters(s + [c]);
    ShortNames();
    if |s| <= 3 {
      ShortOnly(s);
    }
    BeginsLonger(s, c, CONNECTION);
    BeginsLonger(s, c, CONTENT_LENGTH);
    BeginsLonger(s, c, PROXY_CONNECTION);
    BeginsLonger(s, c, TRANSFER_ENCODING);
    BeginsLonger(s, c, UPGRADE);
  }

  // --------------------------------------------------------------------------------------------------------
  // Values of Transfer-Encoding

  predicate Blank(ch: char) { ch == ' ' || ch == '\t' }

  predicate Blanks(s: string) { forall i | 0 <= i < |s| :: Blank(s[i]) }

  /** The element of a list value behind its last comma. */
  function LastElement(v: string): string {
    if v == "" || v[|v| - 1] == ',' then "" else LastElement(v[..|v| - 1]) + [v[|v| - 1]]
  }

  /** `e` is blanks, then `word` up to case, then blanks. */
  ghost predicate IsWord(e: string, word: string, after: string) {
    exists lead | 0 <= lead <= |e| - |word| - |after| :: Shape(e, word, after, lead)
  }

  predicate Shape(e: string, word: string, after: string, lead: int) {
    0 <= lead && |e| == lead + |word| + |after| && Blanks(e[..lead]) && Blanks(after) &&
    Lowered(e[lead..lead + |word|]) == word && e[lead + |word|..] == after
  }

  /** The last element of a Transfer-Encoding is "chunked", in any case, between blanks. */
  ghost predicate EndsChunked(v: string) { exists after: string :: IsWord(LastElement(v), CHUNKED, after) }

  /** What the header state says of the value of a Transfer-Encoding read so far. */
  ghost predicate CodingFits(h: HeaderState, i: nat, v: string) {
    match h
    case TransferEncodingTokenStart => i == 0 && Blanks(LastElement(v))
    case MatchingChunked => i <= 5 && IsWord(LastElement(v), CHUNKED[..i + 1], "")
    case TransferEncodingChunked => EndsChunked(v)
    case _ => true
  }

  lemma LastElementGrows(v: string, ch: char)
    ensures LastElement(v + [ch]) == if ch == ',' then "" else LastElement(v) + [ch]
  {
    assert (v + [ch])[..|v|] == v;
  }

  lemma LoweredGrows(s: string, ch: char)
    ensures Lowered(s + [ch]) == Lowered(s) + [Token(ch)]
  {
    assert (s + [ch])[..|s|] == s;
  }

  lemma LowerIsLetter(ch: char, letter: char)
    requires 'a' <= letter <= 'z' && Lower(ch) == letter
    ensures Token(ch) == letter && ch != ',' && !Blank(ch)
  {
  }

  lemma ChunkedLetters(i: nat)
    requires i < 7
    ensures 'a' <= CHUNKED[i] <= 'z' && |CHUNKED| == 7
  {
  }

  /** One more letter of the word. */
  lemma WordGrows(e: string, i: nat, ch: char)
    requires i <= 5 && IsWord(e, CHUNKED[..i + 1], "") && Lower(ch) == CHUNKED[i + 1]
    ensures IsWord(e + [ch], CHUNKED[..i + 2], "")
  {
    ChunkedLetters(i + 1);
    hide Lower, Token, Blanks;
    LowerIsLetter(ch, CHUNKED[i + 1]);
    var word := CHUNKED[..i + 1];
    var lead :| 0 <= lead <= |e| - |word| && Shape(e, word, "", lead);
    WordAndLetter(CHUNKED, i);
    ShapeGrows(e, word, lead, ch, CHUNKED[i + 1]);
  }

  lemma WordAndLetter(s: string, i: nat)
    requires i + 2 <= |s|
    ensures s[..i + 2] == s[..i + 1] + [s[i + 1]]
  {
  }

  lemma ShapeGrows(e: string, word: string, lead: nat, ch: char, letter: char)
    requires Shape(e, word, "", lead) && Token(ch) == letter
    ensures Shape(e + [ch], word + [letter], "", lead)
  {
    hide Token, Blanks;
    var e' := e + [ch];
    assert e'[..lead] == e[..lead];
    assert e[lead..lead + |word|] == e[lead..];
    assert e'[lead..lead + |word| + 1] == e[lead..] + [ch];
    assert e'[lead + |word| + 1..] == "";
    LoweredGrows(e[lead..], ch);
  }

  /** The first letter of the word. */
  lemma WordBegins(e: string, ch: char)
    requires Blanks(e) && Lower(ch) == 'c'
    ensures IsWord(e + [ch], CHUNKED[..1], "")
  {
    hide Lower, Token;
    LowerIsLetter(ch, 'c');
    EmptyShape(e);
    ShapeGrows(e, "", |e|, ch, 'c');
    FirstOfChunked();
    assert "" + ['c'] == CHUNKED[..1];
    hide Shape;
  }

  lemma EmptyShape(e: string)
    requires Blanks(e)
    ensures Shape(e, "", "", |e|)
  {
    assert e[..|e|] == e;
  }

  lemma FirstOfChunked()
    ensures CHUNKED[..1] == ['c']
  {
  }

  /** Lower-case letters and other characters stay. */
  lemma {:induction false} LoweredLower(s: string)
    requires forall i | 0 <= i < |s| :: Token(s[i]) == s[i]
    ensures Lowered(s) == s
    decreases |s|
  {
    hide Token;
    if s != "" {
      LoweredLower(s[..|s| - 1]);
    }
  }

  /** A blank behind the word. */
  lemma WordRests(e: string, after: string, ch: char)
    requires IsWord(e, CHUNKED, after) && Blank(ch)
    ensures IsWord(e + [ch], CHUNKED, after + [ch])
  {
    hide Lowered;
    var lead :| 0 <= lead <= |e| - 7 - |after| && Shape(e, CHUNKED, after, lead);
    var e' := e + [ch];
    assert e'[..lead] == e[..lead] && e'[lead..lead + 7] == e[lead..lead + 7];
    assert e'[lead + 7..] == e[lead + 7..] + [ch];
    assert Shape(e', CHUNKED, after + [ch], lead);
  }

  lemma ElementStartFits(p: Parser, ch: char, v: string)
    requires p.header.TransferEncodingTokenStart? && CodingFits(p.header, p.index, v) && IsHeaderChar(ch)
    ensures CodingFits(CodingChar(p, ch).header, CodingChar(p, ch).index, v + [ch])
  {
    hide IsWord, IsToken;
    LastElementGrows(v, ch);
    if Lower(ch) == 'c' {
      WordBegins(LastElement(v), ch);
      LowerIsLetter(ch, 'c');
    } else {
      assert CodingChar(p, ch).header.TransferEncodingTokenStart? ==> ch == ' ';
    }
  }

  lemma MatchingFits(p: Parser, ch: char, v: string)
    requires p.header.MatchingChunked? && CodingFits(p.header, p.index, v)
    ensures CodingFits(CodingChar(p, ch).header, CodingChar(p, ch).index, v + [ch])
  {
    hide IsWord, Lower, LastElement;
    LastElementGrows(v, ch);
    if p.index + 1 < 7 && Lower(ch) == CHUNKED[p.index + 1] {
      ChunkedLetters(p.index + 1);
      LowerIsLetter(ch, CHUNKED[p.index + 1]);
      WordGrows(LastElement(v), p.index, ch);
      assert CHUNKED[..7] == CHUNKED;
    }
  }

  lemma RestingFits(p: Parser, ch: char, v: string)
    requires p.header.TransferEncodingChunked? && CodingFits(p.header, p.index, v)
    ensures CodingFits(CodingChar(p, ch).header, CodingChar(p, ch).index, v + [ch])
  {
    hide IsWord;
    LastElementGrows(v, ch);
    if ch == ' ' {
      var after :| IsWord(LastElement(v), CHUNKED, after);
      WordRests(LastElement(v), after, ch);
    }
  }

  /** One more byte of a Transfer-Encoding keeps the fit. */
  lemma CodingCharFits(p: Parser, ch: char, v: string)
    requires CodingHeader(p.header) && CodingFits(p.header, p.index, v) && IsHeaderChar(ch)
    ensures CodingFits(CodingChar(p, ch).header, CodingChar(p, ch).index, v + [ch])
  {
    match p.header
    case TransferEncodingTokenStart => ElementStartFits(p, ch, v);
    case MatchingChunked => MatchingFits(p, ch, v);
    case TransferEncodingToken => LastElementGrows(v, ch);
    case TransferEncodingChunked => RestingFits(p, ch, v);
  }

  // --------------------------------------------------------------------------------------------------------
  // Headers in a run

  predicate EndsWith(out: seq<Event>, d: DataKind) { out != [] && out[|out| - 1].Data? && out[|out| - 1].kind == d }

  /** The last field name of the trace, in lower case. */
  function LastName(out: seq<Event>): string {
    if EndsWith(out, Field) then Lowered(out[|out| - 1].bytes)
    else if |out| >= 2 && EndsWith(out, Value) && EndsWith(out[..|out| - 1], Field) then Lowered(out[|out| - 2].bytes)
    else ""
  }

  /** The last field value of the trace. */
  function LastValue(out: seq<Event>): string {
    if EndsWith(out, Value) then out[|out| - 1].bytes else ""
  }

  /** The header state knows what the trace has shown of the current header. */
  ghost predicate Knows(p: Parser, out: seq<Event>) {
    match p.state
    case HeaderField => KnowsName(p, out)
    case HeaderValueDiscardWs => KnowsName(p, out)
    case HeaderValueDiscardWsAlmostDone => KnowsName(p, out)
    case HeaderValueDiscardLws => KnowsName(p, out)
    case HeaderValueStart => KnowsValue(p, out)
    case HeaderValue => KnowsValue(p, out)
    case HeaderAlmostDone => KnowsValue(p, out)
    case HeaderValueLws => KnowsValue(p, out)
    case _ => true
  }

  /** The header state is the one expected for the name, and the matcher is at its last letter. */
  predicate KnowsName(p: Parser, out: seq<Event>) {
    && EndsWith(out, Field) && LastName(out) != "" && p.header == Expected(LastName(out))
    && (!p.header.General? ==> p.index == |LastName(out)| - 1)
  }

  /** A header state of a Transfer-Encoding belongs to one, and fits its value. */
  ghost predicate KnowsValue(p: Parser, out: seq<Event>) {
    EndsWith(out, Value) &&
    (CodingHeader(p.header) ==> LastName(out) == TRANSFER_ENCODING && CodingFits(p.header, p.index, LastValue(out)))
  }

  /** A new field name. */
  lemma NameBegins(out: seq<Event>, ch: char)
    requires !EndsWith(out, Field)
    ensures var told := Emit(out, Data(Field, [ch])); EndsWith(told, Field) && LastName(told) == [Token(ch)]
  {
    LoweredGrows("", ch);
    assert "" + [ch] == [ch];
  }

  lemma NameGrows(out: seq<Event>, bytes: string)
    requires EndsWith(out, Field)
    ensures var told := Emit(out, Data(Field, bytes));
            && EndsWith(told, Field) && told[..|told| - 1] == out[..|out| - 1]
            && told[|told| - 1].bytes == out[|out| - 1].bytes + bytes
  {
  }

  lemma ValueBegins(out: seq<Event>, bytes: string)
    requires EndsWith(out, Field)
    ensures var told := Emit(out, Data(Value, bytes));
            EndsWith(told, Value) && LastName(told) == LastName(out) && LastValue(told) == bytes
  {
    hide Lowered;
    var told := Emit(out, Data(Value, bytes));
    assert told[..|told| - 1] == out;
  }

  lemma ValueGrows(out: seq<Event>, bytes: string)
    requires EndsWith(out, Value)
    ensures var told := Emit(out, Data(Value, bytes));
            EndsWith(told, Value) && LastName(told) == LastName(out) && LastValue(told) == LastValue(out) + bytes
  {
    hide Lowered;
    var told := Emit(out, Data(Value, bytes));
    assert told[..|told| - 1] == out[..|out| - 1];
  }

  /** The trace after an arm, when the current byte is all there is in the buffer. */
  function Traced(s: State, mv: Move, out: seq<Event>, ch: char): seq<Event>
    requires mv.Move?
  {
    var open := Open(s, mv.mark);
    var told := Called(mv.call, open, out, ch);
    if mv.next.Advance? && mv.call.NoCallback? then Flushed(open, told, ch) else told
  }

  ghost predicate Learns(p: Parser, mv: Move, out: seq<Event>, ch: char) {
    mv.Move? ==>
      && Knows(mv.p, Traced(p.state, mv, out, ch))
      && (mv.p.state.HeaderValueStart? ==> mv.next.Again? && Blank(ch))
  }

  lemma PlaceOfName(out: seq<Event>)
    requires EndsWith(out, Field)
    ensures PlaceOf(out).AtField? || PlaceOf(out).TrailField? || PlaceOf(out).Wrong?
  {
  }

  lemma ExpectedFirst(c: char)
    ensures FirstOfName(c) == Expected([c])
  {
    Letters([c]);
    FirstLetterBegins(c, PROXY_CONNECTION);
    FirstLetterBegins(c, TRANSFER_ENCODING);
    FirstLetterBegins(c, UPGRADE);
  }

  lemma FirstLetterBegins(c: char, name: string)
    requires name != ""
    ensures Begins([c], name) <==> c == name[0]
  {
  }

  lemma NameLearns(p: Parser, out: seq<Event>, ch: char)
    requires FieldState(p.state) && Knows(p, out) && Fits(p, PlaceOf(out))
    ensures Learns(p, HeaderName(p, ch), out, ch)
  {
    hide Learns, HeaderName, Knows, Fits;
    if p.state.HeaderFieldStart? {
      NameStartLearns(p, out, ch);
    } else {
      NameNextLearns(p, out, ch);
    }
  }

  lemma NameStartLearns(p: Parser, out: seq<Event>, ch: char)
    requires p.state.HeaderFieldStart? && Knows(p, out) && Fits(p, PlaceOf(out))
    ensures Learns(p, HeaderName(p, ch), out, ch)
  {
    hide Emit, Lowered, Expected, NameStep, IsToken, Token, After, FirstOfName, PlaceOf;
    if IsToken(ch) {
      if EndsWith(out, Field) {
        PlaceOfName(out);
      }
      NameBegins(out, ch);
      ExpectedFirst(Token(ch));
    }
  }

  lemma NameNextLearns(p: Parser, out: seq<Event>, ch: char)
    requires p.state.HeaderField? && Knows(p, out)
    ensures Learns(p, HeaderName(p, ch), out, ch)
  {
    hide Emit, Lowered, Expected, NameStep, IsToken, Token, FirstOfName;
    NameGrows(out, "");
    NameGrows(out, [ch]);
    var name := out[|out| - 1].bytes;
    assert name + "" == name;
    LoweredGrows(name, ch);
    NameStepExpected(Lowered(name), Token(ch));
    NameStepCounts(p.header, p.index, Token(ch));
    NameStepCounts(p.header, |Lowered(name)| - 1, Token(ch));
  }

  lemma NameStepCounts(h: HeaderState, i: nat, c: char)
    ensures !NameStep(h, i, c).General? ==> Counting(h)
    ensures h.General? ==> NameStep(h, i, c).General?
  {
  }

  lemma ExpectedIsName(s: string)
    ensures !CodingHeader(Expected(s))
  {
    hide Begins;
  }

  /** The header state after the first byte of a value belongs to a Transfer-Encoding only behind its name. */
  lemma ValueStartCoding(p: Parser, ch: char)
    requires p.state.HeaderValueDiscardWs? && !CodingHeader(p.header)
    ensures var mv := ValueStart(p, ch);
            mv.Move? ==>
              && mv == Marked(mv.p) && mv.p.state.HeaderValue?
              && (CodingHeader(mv.p.header) ==> p.header.TransferEncoding?)
              && (mv.p.header.MatchingChunked? ==> Lower(ch) == 'c' && mv.p.index == 0)
              && !mv.p.header.TransferEncodingTokenStart? && !mv.p.header.TransferEncodingChunked?
  {
    hide Lower, IsNum, Digit;
  }

  lemma ValueStartLearns(p: Parser, out: seq<Event>, ch: char)
    requires p.state.HeaderValueDiscardWs? && KnowsName(p, out)
    ensures Learns(p, ValueStart(p, ch), out, ch)
  {
    hide Emit, Lowered, Expected, LastName, LastValue, EndsWith, IsWord, ValueStart, Lower, LastElement;
    ExpectedIsName(LastName(out));
    ExpectedSpecial(LastName(out));
    ValueBegins(out, [ch]);
    ValueStartCoding(p, ch);
    if Lower(ch) == 'c' {
      OneLetter(ch);
    }
  }

  lemma OneLetter(ch: char)
    requires Lower(ch) == 'c'
    ensures IsWord(LastElement([ch]), CHUNKED[..1], "")
  {
    hide IsWord, Lower;
    WordBegins("", ch);
    LowerIsLetter(ch, 'c');
    LastElementGrows("", ch);
    assert "" + [ch] == [ch];
    assert LastElement("") == "";
  }

  lemma FoldLearns(p: Parser, out: seq<Event>, ch: char)
    requires p.state.HeaderValueStart? && KnowsValue(p, out) && Blank(ch) && ValueState(p.header, p.index)
    ensures Learns(p, ValueStart(p, ch), out, ch)
  {
    hide Emit, Lowered, LastName, LastValue, EndsWith, IsWord;
    ValueGrows(out, [ch]);
    if p.header.TransferEncodingTokenStart? {
      LastElementGrows(LastValue(out), ch);
    }
    hide LastElement;
  }

  lemma ValueCharCoding(p: Parser, ch: char)
    requires p.state.HeaderValue? && !CodingHeader(p.header) && ValueState(p.header, p.index)
    ensures ValueChar(p, ch).Move? ==> !CodingHeader(ValueChar(p, ch).p.header)
  {
    hide Lower, IsToken, FinishHeader;
  }

  lemma ValueLearns(p: Parser, out: seq<Event>, ch: char)
    requires p.state.HeaderValue? && Knows(p, out) && ValueState(p.header, p.index)
    ensures Learns(p, HeaderValueMove(p, ch), out, ch)
  {
    hide Emit, Lowered, LastName, LastValue, EndsWith, CodingFits, ValueState, LengthChar, ConnectionChar, CodingChar, IsHeaderChar;
    ValueGrows(out, [ch]);
    ValueGrows(out, "");
    assert LastValue(out) + "" == LastValue(out);
    ValueCharGoes(p, ch);
    if CodingHeader(p.header) {
      if IsHeaderChar(ch) {
        CodingCharFits(p, ch, LastValue(out));
      }
    } else {
      ValueCharCoding(p, ch);
    }
  }

  lemma LineEndLearns(p: Parser, out: seq<Event>, ch: char)
    requires ValueGroup(p.state) && !p.state.HeaderValue? && !p.state.HeaderValueStart? && Knows(p, out)
    requires p.state.HeaderValueDiscardWs? ==> ch == ' ' || ch == '\t' || ch == CR || ch == LF
    ensures Learns(p, HeaderValueMove(p, ch), out, ch)
  {
    hide Emit, Lowered, LastName, LastValue, EndsWith, CodingFits, Expected, FinishHeader;
  }

  lemma HeaderValueLearns(p: Parser, out: seq<Event>, ch: char)
    requires ValueGroup(p.state) && Knows(p, out) && Valid(p) && (p.state.HeaderValueStart? ==> Blank(ch))
    ensures Learns(p, HeaderValueMove(p, ch), out, ch)
  {
    hide Learns, KnowsName, KnowsValue, MethodName;
    if p.state.HeaderValue? {
      ValueLearns(p, out, ch);
    } else if p.state.HeaderValueStart? {
      FoldLearns(p, out, ch);
    } else if p.state.HeaderValueDiscardWs? && ch != ' ' && ch != '\t' && ch != CR && ch != LF {
      ValueStartLearns(p, out, ch);
    } else {
      LineEndLearns(p, out, ch);
    }
  }

  /** The other arms do not lead into a header. */
  predicate Outside(mv: Move) { mv.Move? ==> !mv.p.state.HeaderField? && !ValueGroup(mv.p.state) }

  lemma HeadOutside(p: Parser, ch: char)
    ensures Outside(ResponseLine(p, ch)) && Outside(RequestMethod(p, ch))
  {
    hide Outside, ResponseLine, RequestMethod;
    ResponseOutside(p, ch);
    MethodOutside(p, ch);
  }

  lemma ResponseOutside(p: Parser, ch: char)
    ensures Outside(ResponseLine(p, ch))
  {
    hide IsNum, Digit;
  }

  lemma MethodOutside(p: Parser, ch: char)
    ensures Outside(RequestMethod(p, ch))
  {
    hide MethodName, FirstGuess, NextGuess;
  }

  lemma VersionOutside(p: Parser, ch: char)
    ensures Outside(RequestVersion(p, ch))
  {
    hide IsNum, Digit;
  }

  lemma UrlOutside(p: Parser, ch: char)
    ensures UrlState(p.state) ==> Outside(RequestUrl(p, ch))
  {
    hide UrlStep;
    UrlStepOutside(p.state, ch);
    UrlStepOutside(ReqServerStart, ch);
  }

  lemma UrlStepOutside(s: State, ch: char)
    ensures !UrlStep(s, ch).HeaderField? && !ValueGroup(UrlStep(s, ch))
  {
    hide IsUrlChar, IsUserinfoChar, IsAlpha;
  }

  lemma RestOutside(p: Parser, ch: char)
    ensures Outside(EndOfHeaders(p, ch)) && (BodyState(p.state) ==> Outside(BodyMove(p, ch)))
  {
    hide Unhex, ShouldKeepAlive, NeedsEof, HasBody;
  }

  lemma OutsideLearns(p: Parser, mv: Move, out: seq<Event>, ch: char)
    requires Outside(mv)
    ensures Learns(p, mv, out, ch)
  {
    hide Traced, KnowsName, KnowsValue;
  }

  lemma TransitionLearns(p: Parser, out: seq<Event>, ch: char)
    requires Knows(p, out) && Fits(p, PlaceOf(out)) && Valid(p) && (p.state.HeaderValueStart? ==> Blank(ch))
    ensures Learns(p, Transition(p, ch), out, ch)
  {
    hide ResponseLine, RequestMethod, RequestVersion, RequestUrl, HeaderName, HeaderValueMove, EndOfHeaders, BodyMove;
    hide Fits, Learns, Knows, Valid, Outside;
    if FieldState(p.state) { NameLearns(p, out, ch); }
    else if ValueGroup(p.state) { HeaderValueLearns(p, out, ch); }
    else {
      HeadOutside(p, ch);
      VersionOutside(p, ch);
      UrlOutside(p, ch);
      RestOutside(p, ch);
      OutsideLearns(p, Transition(p, ch), out, ch);
    }
  }

  lemma {:induction false} StepLearns(ask: Answers, p: Parser, out: seq<Event>, ch: char)
    requires Knows(p, out) && Fits(p, PlaceOf(out)) && Valid(p) && (p.state.HeaderValueStart? ==> Blank(ch))
    ensures var r := Step(ask, p, out, ch);
            !r.Refused? ==> Knows(r.p, r.out) && !r.p.state.HeaderValueStart? && Valid(r.p) && Fits(r.p, PlaceOf(r.out))
    decreases Rank(p.state)
  {
    hide Transition, Fits, Emit, PlaceOf, After, Called, Flushed, Answered, Valid, KnowsName, KnowsValue;
    var mv := Transition(p, ch);
    TransitionLearns(p, out, ch);
    TransitionOrderly(p, ch, PlaceOf(out));
    TransitionKeeps(p, ch);
    TransitionShaped(p, ch);
    if mv.Move? {
      var open := Open(p.state, mv.mark);
      var told := Called(mv.call, open, out, ch);
      CalledPlace(mv.call, open, out, ch);
      CalledPlace(mv.call, open, told, ch);
      CalledSilent(open, out, ch);
      if mv.call == Callback.Note(HeadersComplete) {
        if 0 <= ask(told) <= 2 {
          AnsweredFits(mv.p, ask(told), PlaceOf(told));
          AnsweredKeeps(mv.p, ask(told));
          StepLearns(ask, Answered(mv.p, ask(told)), told, ch);
        }
      } else if mv.next.Again? {
        StepLearns(ask, mv.p, told, ch);
      }
    }
  }

  /** What every run from the start knows of its headers. */
  ghost predicate Informed(p: Parser, out: seq<Event>) {
    Knows(p, out) && !p.state.HeaderValueStart? && Valid(p) && Fits(p, PlaceOf(out))
  }

  lemma {:induction false} FeedLearns(ask: Answers, p: Parser, out: seq<Event>, data: string)
    requires Informed(p, out)
    ensures var r := Feed(ask, p, out, data); !r.Failed? ==> Informed(r.p, r.out)
    decreases |data|
  {
    hide Step, Fits, PlaceOf, Knows, Valid;
    if data != "" {
      StepLearns(ask, p, out, data[0]);
      match Step(ask, p, out, data[0])
      case Consumed(q, told, _) => FeedLearns(ask, q, told, data[1..]);
      case Left(q, told) =>
      case Refused(e) =>
    }
  }

  lemma InitInformed(kind: Kind)
    ensures Informed(Init(kind), [])
  {
    hide Fits, MethodName, PlaceOf;
    InitFits(kind);
  }

  /** In every run, when the colon behind a field name has been read the header state is special exactly for the
      names the parser knows, in any case. */
  lemma NamesAreRecognised(ask: Answers, kind: Kind, data: string)
    ensures var r := Feed(ask, Init(kind), [], data);
            r.Fed? && r.p.state.HeaderValueDiscardWs? ==>
              var name := LastName(r.out);
              && (r.p.header.Connection? <==> name == CONNECTION || name == PROXY_CONNECTION)
              && (r.p.header.ContentLength? <==> name == CONTENT_LENGTH)
              && (r.p.header.TransferEncoding? <==> name == TRANSFER_ENCODING)
              && (r.p.header.Upgrade? <==> name == UPGRADE)
  {
    hide Step, Fits, PlaceOf, Valid, Feed, LastName, Expected, Init;
    InitInformed(kind);
    FeedLearns(ask, Init(kind), [], data);
    var r := Feed(ask, Init(kind), [], data);
    if r.Fed? && r.p.state.HeaderValueDiscardWs? {
      ExpectedSpecial(LastName(r.out));
    }
  }

  /** The flag for a chunked body is set at the end of a header line and nowhere else. */
  predicate SetsChunked(p: Parser, mv: Move) {
    mv.Move? && mv.p.flags.chunked && !p.flags.chunked ==>
      (p.state.HeaderValueLws? || p.state.HeaderValueDiscardLws?) && p.header.TransferEncodingChunked?
  }

  lemma HeadSets(p: Parser, ch: char)
    ensures SetsChunked(p, ResponseLine(p, ch)) && SetsChunked(p, RequestMethod(p, ch))
    ensures SetsChunked(p, RequestVersion(p, ch)) && SetsChunked(p, RequestUrl(p, ch))
  {
    hide MethodName, FirstGuess, NextGuess, IsNum, Digit, UrlStep;
  }

  lemma RestSets(p: Parser, ch: char)
    ensures SetsChunked(p, HeaderName(p, ch)) && SetsChunked(p, EndOfHeaders(p, ch)) && SetsChunked(p, BodyMove(p, ch))
  {
    hide Unhex, ShouldKeepAlive, NeedsEof, HasBody, NameStep, FirstOfName;
  }

  lemma FinishSets(f: Flags, h: HeaderState)
    ensures FinishHeader(f, h).chunked == (f.chunked || h.TransferEncodingChunked?)
  {
    hide FinishHeader;
    FinishOnly(f, h);
  }

  lemma ConnectionCharSets(p: Parser, ch: char)
    ensures ConnectionChar(p, ch).flags.chunked == p.flags.chunked
  {
    hide Lower, IsToken, MatchValue, FirstOfConnection, FinishHeader;
    FinishSets(p.flags, p.header);
    MatchValueKeeps(p, KEEP_ALIVE, Lower(ch), MatchingKeepAlive, ConnectionKeepAlive, ConnectionToken);
    MatchValueKeeps(p, CLOSE, Lower(ch), MatchingClose, ConnectionClose, ConnectionToken);
    MatchValueKeeps(p, UPGRADE, Lower(ch), MatchingConnUpgrade, ConnectionUpgrade, ConnectionToken);
  }

  lemma ValueCharSets(p: Parser, ch: char)
    ensures ValueChar(p, ch).Move? ==> ValueChar(p, ch).p.flags.chunked == p.flags.chunked
  {
    hide Lower, IsToken, IsNum, Digit, ConnectionChar;
    ConnectionCharSets(p, ch);
  }

  lemma ValueStartSets(p: Parser, ch: char)
    ensures var mv := ValueStart(p, ch); mv.Move? ==> mv == Marked(mv.p) && mv.p.flags.chunked == p.flags.chunked
  {
    hide ValueStart, Marked;
    ValueStartShaped(p, ch);
  }

  lemma ValueSets(p: Parser, ch: char)
    ensures SetsChunked(p, HeaderValueMove(p, ch))
  {
    hide ValueChar, ValueStart, IsHeaderChar, FinishHeader;
    FinishSets(p.flags, p.header);
    ValueCharSets(p, ch);
    ValueStartSets(p, ch);
  }

  lemma TransitionSets(p: Parser, ch: char)
    ensures SetsChunked(p, Transition(p, ch))
  {
    hide ResponseLine, RequestMethod, RequestVersion, RequestUrl, HeaderName, HeaderValueMove, EndOfHeaders, BodyMove, SetsChunked;
    HeadSets(p, ch);
    RestSets(p, ch);
    ValueSets(p, ch);
  }

  lemma AnsweredSets(p: Parser, answer: int)
    requires p.state.HeadersDone? && 0 <= answer <= 2
    ensures Answered(p, answer).flags.chunked == p.flags.chunked && Answered(p, answer).state == p.state
  {
  }

  /** Behind the first arm of a byte the flag is not set any more. */
  lemma {:induction false} NeverSets(ask: Answers, p: Parser, out: seq<Event>, ch: char)
    requires !p.flags.chunked && !p.state.HeaderValueLws? && !p.state.HeaderValueDiscardLws?
    ensures var r := Step(ask, p, out, ch); !r.Refused? ==> !r.p.flags.chunked
    decreases Rank(p.state)
  {
    hide Transition, Emit, Called, Flushed, Answered;
    var mv := Transition(p, ch);
    TransitionSets(p, ch);
    TransitionShaped(p, ch);
    if mv.Move? {
      var told := Called(mv.call, Open(p.state, mv.mark), out, ch);
      if mv.call == Callback.Note(HeadersComplete) {
        if 0 <= ask(told) <= 2 {
          AnsweredSets(mv.p, ask(told));
          NeverSets(ask, Answered(mv.p, ask(told)), told, ch);
        }
      } else if mv.next.Again? {
        NeverSets(ask, mv.p, told, ch);
      }
    }
  }

  /** In every run, the byte that sets the flag for a chunked body comes behind a Transfer-Encoding whose last
      element is "chunked". */
  lemma ChunkedOnlyIfLast(ask: Answers, p: Parser, out: seq<Event>, ch: char)
    requires Informed(p, out) && !p.flags.chunked
    ensures var r := Step(ask, p, out, ch);
            !r.Refused? && r.p.flags.chunked ==> LastName(out) == TRANSFER_ENCODING && EndsChunked(LastValue(out))
  {
    hide Transition, Emit, Called, Flushed, Answered, Step, Expected, LastName, LastValue, EndsChunked, Fits, Valid;
    if p.state.HeaderValueDiscardLws? {
      ExpectedIsName(LastName(out));
    }
    var mv := Transition(p, ch);
    TransitionSets(p, ch);
    if mv.Move? && mv.p.flags.chunked {
    } else {
      StepSetsNot(ask, p, out, ch);
    }
  }

  lemma StepSetsNot(ask: Answers, p: Parser, out: seq<Event>, ch: char)
    requires var mv := Transition(p, ch); mv.Move? ==> !mv.p.flags.chunked
    ensures var r := Step(ask, p, out, ch); !r.Refused? ==> !r.p.flags.chunked
  {
    hide Transition, Emit, Called, Flushed, Answered;
    var mv := Transition(p, ch);
    TransitionShaped(p, ch);
    if mv.Move? {
      var told := Called(mv.call, Open(p.state, mv.mark), out, ch);
      if mv.call == Callback.Note(HeadersComplete) {
        if 0 <= ask(told) <= 2 {
          AnsweredSets(mv.p, ask(told));
          NeverSets(ask, Answered(mv.p, ask(told)), told, ch);
        }
      } else if mv.next.Again? {
        NeverSets(ask, mv.p, told, ch);
      }
    }
  }
}
