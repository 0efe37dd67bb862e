/** The invariant that every arm of the state switch keeps, for every byte. */
module HttpInvariant {
  import opened HttpTypes
  import opened HttpChars
  import opened HttpTransition

  /** The header states that can occur while a field name is read, with how far the matcher has come. */
  predicate NameState(h: HeaderState, i: nat) {
    match h
    case General => true
    case C => i == 0
    case CO => i == 1
    case CON => i == 2
    case MatchingConnection => 3 <= i <= 8
    case MatchingProxyConnection => i <= 14
    case MatchingContentLength => 3 <= i <= 12
    case MatchingTransferEncoding => i <= 15
    case MatchingUpgrade => i <= 5
    case Connection => i == 9 || i == 15
    case ContentLength => i == 13
    case TransferEncoding => i == 16
    case Upgrade => i == 6
    case _ => false
  }

  /** The header states that can occur while a field value is read. */
  predicate ValueState(h: HeaderState, i: nat) {
    match h
    case General => true
    case ContentLengthNum => true
    case ContentLengthWs => true
    case TransferEncodingTokenStart => i == 0
    case MatchingChunked => i <= 5
    case TransferEncodingToken => true
    case TransferEncodingChunked => i == 6
    case ConnectionTokenStart => i == 0
    case MatchingKeepAlive => i <= 8
    case MatchingClose => i <= 3
    case MatchingConnUpgrade => i <= 5
    case ConnectionToken => true
    case ConnectionKeepAlive => i == 9
    case ConnectionClose => i == 4
    case ConnectionUpgrade => i == 6
    case _ => false
  }

  predicate ValidMatcher(p: Parser) {
    match p.state
    case ReqMethod => 1 <= p.index <= |MethodName(p.verb)|
    case HeaderField => NameState(p.header, p.index)
    case HeaderValueDiscardWs => NameState(p.header, p.index)
    case HeaderValueDiscardWsAlmostDone => NameState(p.header, p.index)
    case HeaderValueDiscardLws => NameState(p.header, p.index)
    case HeaderValueStart => ValueState(p.header, p.index)
    case HeaderValue => ValueState(p.header, p.index)
    case HeaderValueLws => ValueState(p.header, p.index)
    case HeaderAlmostDone => ValueState(p.header, p.index)
    case _ => true
  }

  predicate ValidLength(p: Parser) {
    match p.state
    case ChunkSizeStart => p.flags.chunked
    case ChunkSize => p.flags.chunked && p.contentLength < NO_LENGTH
    case ChunkParameters => p.flags.chunked && p.contentLength < NO_LENGTH
    case ChunkSizeAlmostDone => p.flags.chunked && p.contentLength < NO_LENGTH
    case ChunkData => p.flags.chunked && 0 < p.contentLength < NO_LENGTH
    case ChunkDataAlmostDone => p.flags.chunked && p.contentLength == 0
    case ChunkDataDone => p.flags.chunked && p.contentLength == 0
    case BodyIdentity => 0 < p.contentLength < NO_LENGTH
    case _ => true
  }

  /** Every field fits its width, and the matcher and the length are what the state needs. */
  predicate Valid(p: Parser) {
    p.index < 32 && p.contentLength <= NO_LENGTH && p.major <= 9 && p.minor <= 9 && p.status <= 999 &&
    ValidMatcher(p) && ValidLength(p)
  }

  /** What the program asserts of its fields on the way through the switch. */
  predicate Asserted(p: Parser) {
    && (p.state.HeaderField? ==> NameState(p.header, p.index))
    && (p.state.HeaderValue? ==> !p.header.Connection? && !p.header.TransferEncoding?)
    && (p.state.BodyIdentity? || p.state.ChunkData? ==> p.contentLength != 0 && p.contentLength != NO_LENGTH)
    && ((p.state.ChunkSizeStart? || p.state.ChunkSize? || p.state.ChunkParameters? || p.state.ChunkSizeAlmostDone? ||
         p.state.ChunkData? || p.state.ChunkDataAlmostDone? || p.state.ChunkDataDone?) ==> p.flags.chunked)
    && (p.state.ChunkDataAlmostDone? ==> p.contentLength == 0)
  }

  /** None of these assertions can fail. */
  lemma AssertsHold(p: Parser)
    requires Valid(p)
    ensures Asserted(p)
  {
    hide MethodName;
  }

  /** There is an arm for every state: the default arm is never taken. */
  lemma EveryStateHandled(p: Parser, ch: char)
    ensures Transition(p, ch) != Reject(InvalidInternalState)
  {
    hide ResponseLine, RequestMethod, RequestVersion, RequestUrl, HeaderName, HeaderValueMove, EndOfHeaders, BodyMove;
    StartsHandled(p, ch);
    RequestsHandled(p, ch);
    HeadersHandled(p, ch);
    BodiesHandled(p, ch);
  }

  lemma StartsHandled(p: Parser, ch: char)
    ensures ResponseState(p.state) ==> ResponseLine(p, ch) != Reject(InvalidInternalState)
    ensures MethodState(p.state) ==> RequestMethod(p, ch) != Reject(InvalidInternalState)
  {
    hide MethodName, FirstGuess, NextGuess, IsNum, Digit;
  }

  lemma RequestsHandled(p: Parser, ch: char)
    ensures VersionState(p.state) ==> RequestVersion(p, ch) != Reject(InvalidInternalState)
    ensures RequestUrl(p, ch) != Reject(InvalidInternalState)
  {
    hide UrlStep, IsNum, Digit;
  }

  lemma HeadersHandled(p: Parser, ch: char)
    ensures FieldState(p.state) ==> HeaderName(p, ch) != Reject(InvalidInternalState)
    ensures ValueGroup(p.state) ==> HeaderValueMove(p, ch) != Reject(InvalidInternalState)
  {
    hide Lower, IsNum, Digit, CodingChar, ConnectionChar, FinishHeader, FieldChar, FirstOfName;
  }

  lemma BodiesHandled(p: Parser, ch: char)
    ensures EndState(p.state) ==> EndOfHeaders(p, ch) != Reject(InvalidInternalState)
    ensures BodyState(p.state) ==> BodyMove(p, ch) != Reject(InvalidInternalState)
  {
    hide Unhex, NeedsEof, ShouldKeepAlive, HasBody;
  }

  /** How many more times the switch can be entered for one byte. */
  function Rank(s: State): nat {
    match s
    case StartReqOrRes => 1
    case ResStatusCode => 2
    case ResStatusStart => 1
    case HeaderValue => 1
    case HeaderValueLws => 3
    case HeaderValueDiscardLws => 3
    case HeaderFieldStart => 2
    case HeadersAlmostDone => 1
    case BodyIdentity => 1
    case _ => 0
  }

  /** Marks and callbacks fit together: marked bytes stay marked until their callback is made, a callback
      leaves no mark behind, and a notification is made only when nothing is marked. */
  predicate Tidy(s: State, mv: Move)
    requires mv.Move?
  {
    var open := Open(s, mv.mark);
    var after := Seed(mv.p.state);
    && (mv.mark.Some? && Seed(s).Some? ==> mv.mark == Seed(s))
    && (mv.mark.Some? && mv.mark != Some(Body) ==> !BodyHeld(s))
    && match mv.call
       case NoCallback =>
         (open == Some(Body) ==> after.None? && BodyHeld(mv.p.state) && mv.next.Advance?) &&
         (open != Some(Body) ==> after == open && !BodyHeld(s)) && !mv.next.Exit?
       case UpTo(d) =>
         after.None? && !BodyHeld(mv.p.state) && !mv.next.Exit? &&
         (open == Some(d) || (open.None? && d == Body && s.ChunkDataAlmostDone?)) &&
         (d == Body <==> s.ChunkDataAlmostDone?) && (BodyHeld(s) ==> d == Body)
       case Through(d) =>
         d == Body && open == Some(Body) && after.None? && !BodyHeld(mv.p.state) && mv.next.Again?
       case Note(_) =>
         open.None? && !BodyHeld(s) && after.None?
  }


  /** The states at the end of a field value, from where the end of the headers is not reached in the same byte. */
  predicate InValue(s: State) { s.HeaderValue? || s.HeaderAlmostDone? }

  /** What every arm guarantees of the shape of its move. */
  predicate Shaped(s: State, mv: Move) {
    mv.Move? ==>
      && (mv.next.Again? ==> Rank(mv.p.state) < Rank(s) && !mv.reset)
      && (mv.p.state.ChunkSizeStart? ==> mv.reset && mv.next.Advance?)
      && (InValue(s) ==> mv.call != Callback.Note(HeadersComplete) && (mv.next.Again? ==> InValue(mv.p.state)))
      && (mv.call == Callback.Note(HeadersComplete) ==> mv.next.Again? && mv.p.state.HeadersDone?)
      && Tidy(s, mv)
  }

  lemma ResponseLineShaped(p: Parser, ch: char)
    requires ResponseState(p.state)
    ensures Shaped(p.state, ResponseLine(p, ch))
  {
    hide IsNum, Digit;
  }

  lemma RequestMethodShaped(p: Parser, ch: char)
    requires MethodState(p.state)
    ensures Shaped(p.state, RequestMethod(p, ch))
  {
    hide MethodName, NextGuess, FirstGuess, IsAlpha;
  }

  lemma RequestVersionShaped(p: Parser, ch: char)
    requires VersionState(p.state)
    ensures Shaped(p.state, RequestVersion(p, ch))
  {
    VersionGoes(p, ch);
    VersionQuiet(p.state);
    hide RequestVersion, VersionState;
  }

  /** A byte of a version is only taken. */
  lemma VersionGoes(p: Parser, ch: char)
    requires VersionState(p.state)
    ensures var mv := RequestVersion(p, ch); mv.Move? ==> mv == Go(mv.p) && (VersionState(mv.p.state) || mv.p.state.HeaderFieldStart?)
  {
    hide IsNum, Digit;
  }

  lemma VersionQuiet(s: State)
    requires VersionState(s) || s.HeaderFieldStart?
    ensures Seed(s).None? && !BodyHeld(s) && !InValue(s)
  {
  }

  lemma RequestUrlShaped(p: Parser, ch: char)
    requires UrlState(p.state)
    ensures Shaped(p.state, RequestUrl(p, ch))
  {
  }

  lemma HeaderNameShaped(p: Parser, ch: char)
    requires FieldState(p.state)
    ensures Shaped(p.state, HeaderName(p, ch))
  {
    hide NameStep;
  }

  lemma ValueCharGoes(p: Parser, ch: char)
    requires p.state.HeaderValue?
    ensures var mv := ValueChar(p, ch); mv.Move? ==> mv == Go(mv.p) && mv.p.state.HeaderValue?
  {
  }

  lemma MarkedIs(q: Parser)
    ensures Marked(q).Move? && Marked(q).p == q
  {
  }

  /** A value begins with its mark, and sets no more than two flags. */
  lemma ValueStartShaped(p: Parser, ch: char)
    ensures var mv := ValueStart(p, ch);
      && (mv.Move? ==> mv == Marked(mv.p) && mv.p.state.HeaderValue?)
      && (mv.Move? ==> mv.p.flags.trailing == p.flags.trailing && mv.p.flags.chunked == p.flags.chunked)
  {
    hide Marked, Lower, IsNum, Digit, FirstOfConnection;
    var q := p.(state := HeaderValue, index := 0);
    MarkedIs(q);
    match p.header
    case Upgrade => MarkedIs(q.(flags := p.flags.(upgrade := true), header := General));
    case TransferEncoding => MarkedIs(q.(header := if Lower(ch) == 'c' then MatchingChunked else TransferEncodingToken));
    case ContentLength =>
      if IsNum(ch) {
        MarkedIs(q.(flags := p.flags.(contentLength := true), contentLength := Digit(ch), header := ContentLengthNum));
      }
    case Connection => MarkedIs(q.(header := FirstOfConnection(Lower(ch))));
    case _ => MarkedIs(q.(header := General));
  }

  lemma HeaderValueShaped(p: Parser, ch: char)
    requires ValueGroup(p.state)
    ensures Shaped(p.state, HeaderValueMove(p, ch))
  {
    hide HeaderValueMove, Shaped;
    if p.state.HeaderValue? {
      InValueShaped(p, ch);
    } else {
      AroundValueShaped(p, ch);
    }
  }

  lemma InValueShaped(p: Parser, ch: char)
    requires p.state.HeaderValue?
    ensures Shaped(p.state, HeaderValueMove(p, ch))
  {
    hide ValueChar, ValueStart, FinishHeader, IsHeaderChar;
    ValueCharGoes(p, ch);
  }

  lemma AroundValueShaped(p: Parser, ch: char)
    requires ValueGroup(p.state) && !p.state.HeaderValue?
    ensures Shaped(p.state, HeaderValueMove(p, ch))
  {
    hide Shaped, HeaderValueMove;
    if p.state.HeaderAlmostDone? || p.state.HeaderValueLws? {
      BehindValueShaped(p, ch);
    } else {
      BeforeValueShaped(p, ch);
    }
  }

  lemma BehindValueShaped(p: Parser, ch: char)
    requires p.state.HeaderAlmostDone? || p.state.HeaderValueLws?
    ensures Shaped(p.state, HeaderValueMove(p, ch))
  {
    hide FinishHeader;
  }

  lemma BeforeValueShaped(p: Parser, ch: char)
    requires ValueGroup(p.state) && !p.state.HeaderValue? && !p.state.HeaderAlmostDone? && !p.state.HeaderValueLws?
    ensures Shaped(p.state, HeaderValueMove(p, ch))
  {
    hide ValueStart, FinishHeader;
    ValueStartShaped(p, ch);
  }

  lemma EndOfHeadersShaped(p: Parser, ch: char)
    requires EndState(p.state)
    ensures Shaped(p.state, EndOfHeaders(p, ch))
  {
    hide ShouldKeepAlive, NeedsEof;
  }

  lemma BodyMoveShaped(p: Parser, ch: char)
    requires BodyState(p.state)
    ensures Shaped(p.state, BodyMove(p, ch))
  {
    hide Shaped, BodyMove;
    if BodyHeld(p.state) {
      BytesShaped(p, ch);
    } else {
      ChunkLineShaped(p, ch);
    }
  }

  lemma BytesShaped(p: Parser, ch: char)
    requires BodyHeld(p.state)
    ensures Shaped(p.state, BodyMove(p, ch))
  {
  }

  lemma ChunkLineShaped(p: Parser, ch: char)
    requires BodyState(p.state) && !BodyHeld(p.state)
    ensures Shaped(p.state, BodyMove(p, ch))
  {
    hide Unhex;
  }

  /** Every arm of the state switch is shaped as the loop around it needs. */
  lemma TransitionShaped(p: Parser, ch: char)
    ensures Shaped(p.state, Transition(p, ch))
  {
    hide ResponseLine, RequestMethod, RequestVersion, RequestUrl, HeaderName, HeaderValueMove, EndOfHeaders, BodyMove;
    hide Shaped;
    if ResponseState(p.state) { ResponseLineShaped(p, ch); }
    else if UrlState(p.state) { RequestUrlShaped(p, ch); }
    else if FieldState(p.state) { HeaderNameShaped(p, ch); }
    else if ValueGroup(p.state) { HeaderValueShaped(p, ch); }
    else if EndState(p.state) { EndOfHeadersShaped(p, ch); }
    else if MethodState(p.state) { RequestMethodShaped(p, ch); }
    else if VersionState(p.state) { RequestVersionShaped(p, ch); }
    else { BodyMoveShaped(p, ch); }
  }

  // --------------------------------------------------------------------------------------------------------

  /** A move keeps the invariant. */
  predicate Keeps(mv: Move) { mv.Move? ==> Valid(mv.p) }

  lemma ResponseLineKeeps(p: Parser, ch: char)
    requires Valid(p) && ResponseState(p.state)
    ensures Keeps(ResponseLine(p, ch))
  {
    if p.state.ResOrRespH? {
    } else {
      hide MethodName;
    }
  }

  lemma MethodNameLength(m: Method)
    ensures 3 <= |MethodName(m)| <= 11
  {
  }

  /** A corrected guess agrees with every letter read so far, the current one included. */
  lemma NextGuessAgrees(m: Method, i: nat, ch: char)
    requires NextGuess(m, i, ch).Some? && 1 <= i <= |MethodName(m)|
    ensures var n := MethodName(NextGuess(m, i, ch).value);
            i < |MethodName(m)| && i < |n| && n[..i + 1] == MethodName(m)[..i] + [ch]
  {
    if m.MKCOL? || m.UNLOCK? {
      NextGuessAgreesLong(m, i, ch);
    }
  }

  lemma NextGuessAgreesLong(m: Method, i: nat, ch: char)
    requires m.MKCOL? || m.UNLOCK?
    requires NextGuess(m, i, ch).Some? && 1 <= i <= |MethodName(m)|
    ensures var n := MethodName(NextGuess(m, i, ch).value);
            i < |MethodName(m)| && i < |n| && n[..i + 1] == MethodName(m)[..i] + [ch]
  {
  }

  lemma RequestMethodKeeps(p: Parser, ch: char)
    requires Valid(p) && MethodState(p.state)
    ensures Keeps(RequestMethod(p, ch))
  {
    hide MethodName, NextGuess;
    MethodNameLength(p.verb);
    if p.state.StartReq? && FirstGuess(ch).Some? {
      MethodNameLength(FirstGuess(ch).value);
    } else if p.state.ReqMethod? && NextGuess(p.verb, p.index, ch).Some? {
      NextGuessAgrees(p.verb, p.index, ch);
      MethodNameLength(NextGuess(p.verb, p.index, ch).value);
    }
  }

  lemma RequestVersionKeeps(p: Parser, ch: char)
    requires Valid(p) && VersionState(p.state)
    ensures Keeps(RequestVersion(p, ch))
  {
    hide MethodName;
  }

  lemma RequestUrlKeeps(p: Parser, ch: char)
    requires Valid(p) && UrlState(p.state)
    ensures Keeps(RequestUrl(p, ch))
  {
    hide MethodName;
  }

  lemma NameStepKeeps(h: HeaderState, i: nat, c: char)
    requires NameState(h, i)
    ensures NameState(NameStep(h, i, c), if Counting(h) then i + 1 else i)
  {
  }

  /** Each header state sets its flag at the end of a value. */
  lemma FinishOnly(f: Flags, h: HeaderState)
    ensures FinishHeader(f, h) ==
            f.(keepAlive := f.keepAlive || h.ConnectionKeepAlive?, close := f.close || h.ConnectionClose?,
               chunked := f.chunked || h.TransferEncodingChunked?, connUpgrade := f.connUpgrade || h.ConnectionUpgrade?)
  {
    match h
    case ConnectionKeepAlive =>
    case ConnectionClose =>
    case TransferEncodingChunked =>
    case ConnectionUpgrade =>
    case _ => assert FinishHeader(f, h) == f;
  }

  lemma HeaderNameKeeps(p: Parser, ch: char)
    requires Valid(p) && FieldState(p.state)
    ensures Keeps(HeaderName(p, ch))
  {
    hide Keeps, HeaderName;
    if p.state.HeaderField? {
      NameGoesOnKeeps(p, ch);
    } else {
      NameStartKeeps(p, ch);
    }
  }

  lemma NameStartKeeps(p: Parser, ch: char)
    requires Valid(p) && p.state.HeaderFieldStart?
    ensures Keeps(HeaderName(p, ch))
  {
    hide MethodName, NameStep, IsToken, Token;
  }

  lemma NameGoesOnKeeps(p: Parser, ch: char)
    requires Valid(p) && p.state.HeaderField?
    ensures Keeps(HeaderName(p, ch))
  {
    hide MethodName, NameStep, IsToken, Token, NameState, Counting;
    NameStepKeeps(p.header, p.index, Token(ch));
    NameIndex(NameStep(p.header, p.index, Token(ch)), if Counting(p.header) then p.index + 1 else p.index);
    NameIndex(p.header, p.index);
  }

  lemma NameIndex(h: HeaderState, i: nat)
    requires NameState(h, i)
    ensures h.General? || i < 31
    ensures h.General? ==> !Counting(h)
  {
  }

  lemma ValueStartKeeps(p: Parser, ch: char)
    requires Valid(p)
    ensures Keeps(ValueStart(p, ch))
  {
    hide MethodName;
  }

  lemma LengthCharKeeps(p: Parser, ch: char)
    requires Valid(p) && p.state.HeaderValue? && NumberHeader(p.header)
    ensures Keeps(LengthChar(p, ch))
  {
    hide MethodName;
  }

  lemma MatchValueKeeps(p: Parser, name: string, c: char, going: HeaderState, done: HeaderState, other: HeaderState)
    ensures var q := MatchValue(p, name, c, going, done, other);
            && q == p.(header := q.header, index := q.index) && q.index == p.index + 1
            && (q.header == other || (q.header == done && q.index == |name| - 1) || (q.header == going && q.index < |name| - 1))
  {
  }

  lemma CodingCharKeeps(p: Parser, ch: char)
    requires Valid(p) && p.state.HeaderValue? && CodingHeader(p.header)
    ensures Valid(CodingChar(p, ch))
  {
    hide MethodName, Lower, IsToken;
  }

  lemma ConnectionCharKeeps(p: Parser, ch: char)
    requires Valid(p) && p.state.HeaderValue? && !NumberHeader(p.header) && !CodingHeader(p.header)
    ensures Valid(ConnectionChar(p, ch))
  {
    hide MethodName, Lower, IsToken, MatchValue;
    if p.header.MatchingKeepAlive? {
      MatchValueKeeps(p, KEEP_ALIVE, Lower(ch), MatchingKeepAlive, ConnectionKeepAlive, ConnectionToken);
    } else if p.header.MatchingClose? {
      MatchValueKeeps(p, CLOSE, Lower(ch), MatchingClose, ConnectionClose, ConnectionToken);
    } else if p.header.MatchingConnUpgrade? {
      MatchValueKeeps(p, UPGRADE, Lower(ch), MatchingConnUpgrade, ConnectionUpgrade, ConnectionToken);
    }
  }

  lemma ValueCharKeeps(p: Parser, ch: char)
    requires Valid(p) && p.state.HeaderValue?
    ensures Keeps(ValueChar(p, ch))
  {
    hide LengthChar, CodingChar, ConnectionChar, Valid;
    if NumberHeader(p.header) { LengthCharKeeps(p, ch); }
    else if CodingHeader(p.header) { CodingCharKeeps(p, ch); }
    else { ConnectionCharKeeps(p, ch); }
  }

  lemma HeaderValueKeeps(p: Parser, ch: char)
    requires Valid(p) && ValueGroup(p.state)
    ensures Keeps(HeaderValueMove(p, ch))
  {
    hide MethodName, ValueChar, ValueStart;
    if p.state.HeaderValue? {
      ValueCharKeeps(p, ch);
    } else if p.state.HeaderValueDiscardWs? || p.state.HeaderValueStart? {
      ValueStartKeeps(p, ch);
    }
  }

  lemma EndOfHeadersKeeps(p: Parser, ch: char)
    requires Valid(p) && EndState(p.state)
    ensures Keeps(EndOfHeaders(p, ch))
  {
    hide MethodName, NeedsEof, ShouldKeepAlive;
  }

  lemma BodyMoveKeeps(p: Parser, ch: char)
    requires Valid(p) && BodyState(p.state)
    ensures Keeps(BodyMove(p, ch))
  {
    hide MethodName, Unhex;
    assert -1 <= Unhex(ch) < 16;
    if p.state.ChunkSize? {
      ChunkSizeKeeps(p, ch);
    }
  }

  lemma ChunkSizeKeeps(p: Parser, ch: char)
    requires Valid(p) && p.state.ChunkSize?
    ensures Keeps(BodyMove(p, ch))
  {
    hide MethodName, Unhex;
    assert -1 <= Unhex(ch) < 16;
  }

  /** The invariant is kept by every arm, for every byte. */
  lemma TransitionKeeps(p: Parser, ch: char)
    requires Valid(p)
    ensures Keeps(Transition(p, ch))
  {
    hide ResponseLine, RequestMethod, RequestVersion, RequestUrl, HeaderName, HeaderValueMove, EndOfHeaders, BodyMove;
    hide Valid, Keeps;
    if ResponseState(p.state) { ResponseLineKeeps(p, ch); }
    else if MethodState(p.state) { RequestMethodKeeps(p, ch); }
    else if UrlState(p.state) { RequestUrlKeeps(p, ch); }
    else if VersionState(p.state) { RequestVersionKeeps(p, ch); }
    else if FieldState(p.state) { HeaderNameKeeps(p, ch); }
    else if ValueGroup(p.state) { HeaderValueKeeps(p, ch); }
    else if EndState(p.state) { EndOfHeadersKeeps(p, ch); }
    else { BodyMoveKeeps(p, ch); }
  }

  lemma AnsweredKeeps(p: Parser, answer: int)
    requires Valid(p) && p.state.HeadersDone? && 0 <= answer <= 2
    ensures Valid(Answered(p, answer)) && Answered(p, answer).state.HeadersDone?
  {
    hide MethodName;
  }
}
