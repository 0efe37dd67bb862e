/** The order in which callbacks can come. */
module HttpGrammar {
  import opened HttpTypes
  import opened HttpChars
  import opened HttpTransition
  import opened HttpInvariant
  import opened HttpFeed

  /** A callback without its bytes. */
  datatype Letter = D(kind: DataKind) | N(note: Note)

  function LetterOf(e: Event): Letter {
    match e
    case Data(d, _) => D(d)
    case Notify(n) => N(n)
  }

  /** How far the trace of a message has come. `Wrong` is for ever. */
  datatype Place =
    | Idle | Begun | AtUrl | AtStatus | AtField | AtValue | Headed
    | AtBody | ChunkOpen | ChunkBody | ChunkShut | TrailField | TrailValue | LastShut | Wrong

  /** The grammar: a message is `message_begin`, then url or status data, then fields each followed by a value,
      then `headers_complete`, then body data, or chunks from `chunk_header` to `chunk_complete` of which the
      last has no data but can have fields and values, then `message_complete`. */
  function After(g: Place, l: Letter): Place {
    match (g, l)
    case (Idle, N(MessageBegin)) => Begun
    case (Begun, D(Url)) => AtUrl
    case (Begun, D(Status)) => AtStatus
    case (AtUrl, D(Url)) => AtUrl
    case (AtUrl, D(Field)) => AtField
    case (AtUrl, N(HeadersComplete)) => Headed
    case (AtStatus, D(Status)) => AtStatus
    case (AtStatus, D(Field)) => AtField
    case (AtStatus, N(HeadersComplete)) => Headed
    case (AtField, D(Field)) => AtField
    case (AtField, D(Value)) => AtValue
    case (AtValue, D(Value)) => AtValue
    case (AtValue, D(Field)) => AtField
    case (AtValue, N(HeadersComplete)) => Headed
    case (Headed, D(Body)) => AtBody
    case (Headed, N(ChunkHeader)) => ChunkOpen
    case (Headed, N(MessageComplete)) => Idle
    case (AtBody, D(Body)) => AtBody
    case (AtBody, N(MessageComplete)) => Idle
    case (ChunkOpen, D(Body)) => ChunkBody
    case (ChunkOpen, D(Field)) => TrailField
    case (ChunkOpen, N(ChunkComplete)) => LastShut
    case (ChunkBody, D(Body)) => ChunkBody
    case (ChunkBody, N(ChunkComplete)) => ChunkShut
    case (ChunkShut, N(ChunkHeader)) => ChunkOpen
    case (TrailField, D(Field)) => TrailField
    case (TrailField, D(Value)) => TrailValue
    case (TrailValue, D(Value)) => TrailValue
    case (TrailValue, D(Field)) => TrailField
    case (TrailValue, N(ChunkComplete)) => LastShut
    case (LastShut, N(MessageComplete)) => Idle
    case _ => Wrong
  }

  /** Where a whole trace leads. */
  function PlaceOf(out: seq<Event>): Place {
    if out == [] then Idle else After(PlaceOf(out[..|out| - 1]), LetterOf(out[|out| - 1]))
  }

  /** Joining data callbacks of one kind does not change where a trace leads. */
  lemma PlaceOfEmit(out: seq<Event>, e: Event)
    ensures PlaceOf(Emit(out, e)) == After(PlaceOf(out), LetterOf(e))
  {
    var all := Emit(out, e);
    if |all| == |out| {
      assert all[..|all| - 1] == out[..|out| - 1];
    } else {
      assert all[..|all| - 1] == out;
    }
  }

  /** The part of a message that a state belongs to. */
  datatype Part =
    | Between | Opening | InStatus | StatusEnd | InUrl | LineBegin | InName | InValue
    | AllHeaders | ChunkHead | ChunkBytes | ChunkEnd | Bytes | Closing

  function PartOf(s: State): Part {
    match s
    case Dead => Between case StartReqOrRes => Between case StartRes => Between case StartReq => Between
    case ResOrRespH => Opening case ResH => Opening case ResHT => Opening case ResHTT => Opening
    case ResHTTP => Opening case ResHttpMajor => Opening case ResHttpDot => Opening case ResHttpMinor => Opening
    case ResHttpEnd => Opening case ResFirstStatusCode => Opening case ResStatusCode => Opening
    case ResStatusStart => Opening case ReqMethod => Opening case ReqSpacesBeforeUrl => Opening
    case ResStatus => InStatus
    case ResLineAlmostDone => StatusEnd
    case ReqSchema => InUrl case ReqSchemaSlash => InUrl case ReqSchemaSlashSlash => InUrl
    case ReqServerStart => InUrl case ReqServer => InUrl case ReqServerWithAt => InUrl case ReqPath => InUrl
    case ReqQueryStringStart => InUrl case ReqQueryString => InUrl case ReqFragmentStart => InUrl
    case ReqFragment => InUrl case ReqHttpStart => InUrl case ReqHttpH => InUrl case ReqHttpHT => InUrl
    case ReqHttpHTT => InUrl case ReqHttpHTTP => InUrl case ReqHttpI => InUrl case ReqHttpIC => InUrl
    case ReqHttpMajor => InUrl case ReqHttpDot => InUrl case ReqHttpMinor => InUrl case ReqHttpEnd => InUrl
    case ReqLineAlmostDone => InUrl
    case HeaderFieldStart => LineBegin case HeadersAlmostDone => LineBegin
    case HeaderField => InName case HeaderValueDiscardWs => InName
    case HeaderValueDiscardWsAlmostDone => InName case HeaderValueDiscardLws => InName
    case HeaderValueStart => Part.InValue case HeaderValue => Part.InValue case HeaderValueLws => Part.InValue
    case HeaderAlmostDone => Part.InValue
    case HeadersDone => AllHeaders
    case ChunkSizeStart => ChunkHead case ChunkSize => ChunkHead case ChunkParameters => ChunkHead
    case ChunkSizeAlmostDone => ChunkHead
    case ChunkData => ChunkBytes
    case ChunkDataAlmostDone => ChunkEnd case ChunkDataDone => ChunkEnd
    case BodyIdentity => Bytes case BodyIdentityEof => Bytes
    case MessageDone => Closing
  }

  /** The places that go with a part of a message, in the trailer of a chunked body or not. */
  predicate Home(part: Part, trailing: bool, g: Place) {
    match part
    case Between => g.Idle?
    case Opening => g.Begun? && !trailing
    case InStatus => (g.Begun? || g.AtStatus?) && !trailing
    case StatusEnd => g.AtStatus? && !trailing
    case InUrl => g.AtUrl? && !trailing
    case LineBegin => if trailing then g.ChunkOpen? || g.TrailValue? else g.AtUrl? || g.AtStatus? || g.AtValue?
    case InName => if trailing then g.TrailField? else g.AtField?
    case InValue => if trailing then g.TrailValue? else g.AtValue?
    case AllHeaders => g.Headed? && !trailing
    case ChunkHead => g.Headed? || g.ChunkShut?
    case ChunkBytes => g.ChunkOpen? || g.ChunkBody?
    case ChunkEnd => g.ChunkBody?
    case Bytes => g.Headed? || g.AtBody?
    case Closing => g.AtBody? || g.LastShut?
  }

  predicate Fits(p: Parser, g: Place) { Home(PartOf(p.state), p.flags.trailing, g) }

  /** The place after the callback of an arm, and after the byte if the arm goes on to the next one. */
  function Told(call: Callback, open: Option<DataKind>, g: Place): Place {
    match call
    case NoCallback => g
    case Note(n) => After(g, N(n))
    case UpTo(d) => if open == Some(d) then After(g, D(d)) else g
    case Through(d) => After(g, D(d))
  }

  predicate Orderly(p: Parser, mv: Move, g: Place) {
    mv.Move? ==>
      var open := Open(p.state, mv.mark);
      var g' := Told(mv.call, open, g);
      Fits(mv.p, if mv.next.Advance? && mv.call.NoCallback? && open.Some? then After(g', D(open.value)) else g')
  }

  /** The rows of the table that the arms use. */
  lemma StartTable()
    ensures After(Idle, N(MessageBegin)) == Begun
    ensures After(Begun, D(Url)) == AtUrl && After(AtUrl, D(Url)) == AtUrl
    ensures After(Begun, D(Status)) == AtStatus && After(AtStatus, D(Status)) == AtStatus
  {
  }

  lemma FieldTable()
    ensures After(AtUrl, D(Field)) == AtField && After(AtStatus, D(Field)) == AtField
    ensures After(AtValue, D(Field)) == AtField && After(AtField, D(Field)) == AtField
    ensures After(ChunkOpen, D(Field)) == TrailField && After(TrailValue, D(Field)) == TrailField
    ensures After(TrailField, D(Field)) == TrailField
    ensures After(AtField, D(Value)) == AtValue && After(AtValue, D(Value)) == AtValue
    ensures After(TrailField, D(Value)) == TrailValue && After(TrailValue, D(Value)) == TrailValue
  {
  }

  lemma EndTable()
    ensures After(AtUrl, N(HeadersComplete)) == Headed && After(AtStatus, N(HeadersComplete)) == Headed
    ensures After(AtValue, N(HeadersComplete)) == Headed && After(Headed, N(MessageComplete)) == Idle
    ensures After(AtBody, N(MessageComplete)) == Idle && After(LastShut, N(MessageComplete)) == Idle
    ensures After(ChunkOpen, N(ChunkComplete)) == LastShut && After(TrailValue, N(ChunkComplete)) == LastShut
  {
  }

  lemma BodyTable()
    ensures After(Headed, D(Body)) == AtBody && After(AtBody, D(Body)) == AtBody
    ensures After(Headed, N(ChunkHeader)) == ChunkOpen && After(ChunkShut, N(ChunkHeader)) == ChunkOpen
    ensures After(ChunkOpen, D(Body)) == ChunkBody && After(ChunkBody, D(Body)) == ChunkBody
    ensures After(ChunkBody, N(ChunkComplete)) == ChunkShut
  {
  }

  predicate OpeningState(s: State) {
    s.ResOrRespH? || s.ResH? || s.ResHT? || s.ResHTT? || s.ResHTTP? || s.ResHttpMajor? || s.ResHttpDot? ||
    s.ResHttpMinor? || s.ResHttpEnd? || s.ResFirstStatusCode? || s.ResStatusCode? || s.ResStatusStart? || s.ReqMethod?
  }

  lemma OpeningParts(s: State)
    requires OpeningState(s)
    ensures PartOf(s) == Opening && Seed(s).None?
  {
  }

  lemma OpeningMoves(p: Parser, ch: char)
    requires ResponseState(p.state) && OpeningState(p.state) && !p.state.ResStatusStart?
    ensures var mv := ResponseLine(p, ch);
            mv.Move? ==> mv.mark.None? && mv.call.NoCallback? && OpeningState(mv.p.state) && mv.p.flags == p.flags
  {
    hide IsNum, Digit;
  }

  lemma ResponseLineOrderly(p: Parser, ch: char, g: Place)
    requires ResponseState(p.state) && Fits(p, g)
    ensures Orderly(p, ResponseLine(p, ch), g)
  {
    hide After;
    StartTable();
    if OpeningState(p.state) && !p.state.ResStatusStart? {
      hide ResponseLine, PartOf, Seed;
      OpeningMoves(p, ch);
      OpeningParts(p.state);
      var mv := ResponseLine(p, ch);
      if mv.Move? {
        OpeningParts(mv.p.state);
      }
    } else if p.state.ResStatus? || p.state.ResStatusStart? || p.state.ResLineAlmostDone? {
      StatusOrderly(p, ch, g);
    }
  }

  lemma StatusParts()
    ensures PartOf(ResStatusStart) == Opening && PartOf(ResStatus) == InStatus && PartOf(ResLineAlmostDone) == StatusEnd
    ensures PartOf(HeaderFieldStart) == LineBegin && Seed(ResStatus) == Some(Status)
    ensures Seed(ResStatusStart).None? && Seed(ResLineAlmostDone).None?
  {
  }

  lemma StatusHomes(trailing: bool, g: Place)
    ensures Home(InStatus, trailing, g) <==> (g.Begun? || g.AtStatus?) && !trailing
    ensures Home(StatusEnd, trailing, g) <==> g.AtStatus? && !trailing
    ensures !trailing && g.AtStatus? ==> Home(LineBegin, trailing, g)
  {
  }

  lemma StatusStartOrderly(p: Parser, ch: char, g: Place)
    requires p.state.ResStatusStart? && Fits(p, g)
    ensures Orderly(p, ResponseLine(p, ch), g)
  {
    hide After, PartOf, Seed, IsNum, Digit;
    StartTable();
    StatusParts();
  }

  lemma InStatusOrderly(p: Parser, ch: char, g: Place)
    requires p.state.ResStatus? && Fits(p, g)
    ensures Orderly(p, ResponseLine(p, ch), g)
  {
    hide After, PartOf, Seed, Home;
    StartTable();
    StatusParts();
    StatusHomes(p.flags.trailing, g);
    StatusHomes(p.flags.trailing, AtStatus);
  }

  lemma StatusEndOrderly(p: Parser, ch: char, g: Place)
    requires p.state.ResLineAlmostDone? && Fits(p, g)
    ensures Orderly(p, ResponseLine(p, ch), g)
  {
    hide After, PartOf, Seed, IsNum, Digit;
    StartTable();
    StatusParts();
  }

  lemma StatusOrderly(p: Parser, ch: char, g: Place)
    requires (p.state.ResStatus? || p.state.ResStatusStart? || p.state.ResLineAlmostDone?) && Fits(p, g)
    ensures Orderly(p, ResponseLine(p, ch), g)
  {
    hide Orderly, Fits, ResponseLine;
    if p.state.ResStatus? {
      InStatusOrderly(p, ch, g);
    } else if p.state.ResStatusStart? {
      StatusStartOrderly(p, ch, g);
    } else {
      StatusEndOrderly(p, ch, g);
    }
  }

  lemma RequestMethodOrderly(p: Parser, ch: char, g: Place)
    requires MethodState(p.state) && Fits(p, g)
    ensures Orderly(p, RequestMethod(p, ch), g)
  {
    hide MethodName, NextGuess, FirstGuess, After;
    StartTable();
  }

  lemma VersionParts(s: State)
    requires VersionState(s) || s.HeaderFieldStart?
    ensures PartOf(s) == (if s.HeaderFieldStart? then LineBegin else InUrl) && Seed(s).None?
  {
  }

  lemma VersionMoves(p: Parser, ch: char)
    requires VersionState(p.state)
    ensures var mv := RequestVersion(p, ch);
            mv.Move? ==> mv == Go(mv.p) && (VersionState(mv.p.state) || mv.p.state.HeaderFieldStart?) && mv.p.flags == p.flags
  {
    hide IsNum, Digit;
  }

  lemma RequestVersionOrderly(p: Parser, ch: char, g: Place)
    requires VersionState(p.state) && Fits(p, g)
    ensures Orderly(p, RequestVersion(p, ch), g)
  {
    hide After, RequestVersion, PartOf, Seed;
    VersionMoves(p, ch);
    VersionParts(p.state);
    var mv := RequestVersion(p, ch);
    if mv.Move? {
      VersionParts(mv.p.state);
    }
  }

  lemma UrlStepUrl(s: State, ch: char)
    ensures UrlStep(s, ch).Dead? || (Seed(UrlStep(s, ch)) == Some(Url) && PartOf(UrlStep(s, ch)) == InUrl)
  {
    hide IsUrlChar, IsUserinfoChar, IsAlpha;
  }

  lemma RequestUrlOrderly(p: Parser, ch: char, g: Place)
    requires UrlState(p.state) && Fits(p, g)
    ensures Orderly(p, RequestUrl(p, ch), g)
  {
    hide After, UrlStep;
    StartTable();
    UrlStepUrl(if p.state.ReqSpacesBeforeUrl? && p.verb.CONNECT? then ReqServerStart else p.state, ch);
  }

  lemma NameBeginOrderly(p: Parser, ch: char, g: Place)
    requires p.state.HeaderFieldStart? && Fits(p, g)
    ensures Orderly(p, HeaderName(p, ch), g)
  {
    hide NameStep, After, IsToken, Token, FirstOfName, PartOf, Seed;
    FieldTable();
    LineParts();
  }

  lemma LineParts()
    ensures PartOf(HeaderFieldStart) == LineBegin && PartOf(HeaderField) == InName && PartOf(HeadersAlmostDone) == LineBegin
    ensures Seed(HeaderFieldStart).None? && Seed(HeaderField) == Some(Field) && Seed(HeadersAlmostDone).None?
  {
  }

  lemma InNameOrderly(p: Parser, ch: char, g: Place)
    requires p.state.HeaderField? && Fits(p, g)
    ensures Orderly(p, HeaderName(p, ch), g)
  {
    hide NameStep, After, IsToken, Token, FirstOfName;
    FieldTable();
  }

  lemma HeaderNameOrderly(p: Parser, ch: char, g: Place)
    requires FieldState(p.state) && Fits(p, g)
    ensures Orderly(p, HeaderName(p, ch), g)
  {
    hide Orderly, Fits, HeaderName;
    if p.state.HeaderFieldStart? {
      NameBeginOrderly(p, ch, g);
    } else {
      InNameOrderly(p, ch, g);
    }
  }

  lemma ElementOrderly(p: Parser, ch: char, first: HeaderState, token: HeaderState)
    ensures var q := ElementStart(p, ch, first, token); q.state == p.state && q.flags == p.flags
  {
    hide Lower, IsToken;
  }

  lemma OptionOrderly(p: Parser, ch: char)
    ensures var q := ConnectionElement(p, ch); q.state == p.state && q.flags.trailing == p.flags.trailing
    ensures var q := ListElement(p, ch, ConnectionTokenStart); q.state == p.state && q.flags == p.flags
  {
    hide FinishHeader;
    FinishHeaderOrderly(p.flags, p.header);
  }

  lemma ConnectionCharOrderly(p: Parser, ch: char)
    ensures ConnectionChar(p, ch).state == p.state && ConnectionChar(p, ch).flags.trailing == p.flags.trailing
  {
    hide Lower, IsToken, MatchValue, FirstOfConnection, FinishHeader, ElementStart, ListElement, ConnectionElement;
    ElementOrderly(p, ch, FirstOfConnection(Lower(ch)), ConnectionToken);
    OptionOrderly(p, ch);
    MatchValueKeeps(p, KEEP_ALIVE, Lower(ch), MatchingKeepAlive, ConnectionKeepAlive, ConnectionToken);
    MatchValueKeeps(p, CLOSE, Lower(ch), MatchingClose, ConnectionClose, ConnectionToken);
    MatchValueKeeps(p, UPGRADE, Lower(ch), MatchingConnUpgrade, ConnectionUpgrade, ConnectionToken);
  }

  lemma ValueCharOrderly(p: Parser, ch: char)
    requires p.state.HeaderValue?
    ensures var mv := ValueChar(p, ch); mv.Move? ==> mv == Go(mv.p) && mv.p.state.HeaderValue? && mv.p.flags.trailing == p.flags.trailing
  {
    hide ConnectionChar, Lower;
    ConnectionCharOrderly(p, ch);
  }

  lemma ValueStartOrderly(p: Parser, ch: char)
    ensures var mv := ValueStart(p, ch); mv.Move? ==> mv == Marked(mv.p) && mv.p.state.HeaderValue? && mv.p.flags.trailing == p.flags.trailing
  {
    hide ValueStart, Marked;
    ValueStartShaped(p, ch);
  }

  lemma FinishHeaderOrderly(f: Flags, h: HeaderState)
    ensures FinishHeader(f, h).trailing == f.trailing
  {
    hide FinishHeader;
    FinishOnly(f, h);
  }

  lemma ValueParts()
    ensures PartOf(HeaderValueDiscardWs) == InName && PartOf(HeaderValueDiscardWsAlmostDone) == InName
    ensures PartOf(HeaderValueDiscardLws) == InName && PartOf(HeaderValue) == Part.InValue
    ensures PartOf(HeaderValueStart) == Part.InValue && PartOf(HeaderAlmostDone) == Part.InValue
    ensures Seed(HeaderValueDiscardWs).None? && Seed(HeaderValueStart).None? && Seed(HeaderValue) == Some(Value)
  {
  }

  lemma ValueOrderly(p: Parser, ch: char, g: Place)
    requires (p.state.HeaderValue? || p.state.HeaderValueDiscardWs? || p.state.HeaderValueStart?) && Fits(p, g)
    ensures Orderly(p, HeaderValueMove(p, ch), g)
  {
    hide ValueChar, ValueStart, IsHeaderChar, After, PartOf, Seed;
    FieldTable();
    ValueParts();
    if p.state.HeaderValue? {
      ValueCharOrderly(p, ch);
    } else {
      ValueStartOrderly(p, ch);
    }
  }

  lemma HeaderValueOrderly(p: Parser, ch: char, g: Place)
    requires ValueGroup(p.state) && Fits(p, g)
    ensures Orderly(p, HeaderValueMove(p, ch), g)
  {
    hide HeaderValueMove, Fits, Orderly;
    if p.state.HeaderValue? || p.state.HeaderValueDiscardWs? || p.state.HeaderValueStart? {
      ValueOrderly(p, ch, g);
    } else {
      LineEndOrderly(p, ch, g);
    }
  }

  lemma LineEndOrderly(p: Parser, ch: char, g: Place)
    requires ValueGroup(p.state) && Fits(p, g)
    requires !p.state.HeaderValue? && !p.state.HeaderValueDiscardWs? && !p.state.HeaderValueStart?
    ensures Orderly(p, HeaderValueMove(p, ch), g)
  {
    hide Fits, Orderly, HeaderValueMove;
    if p.state.HeaderAlmostDone? || p.state.HeaderValueLws? {
      ValueEndOrderly(p, ch, g);
    } else {
      EmptyValueOrderly(p, ch, g);
    }
  }

  lemma ValueEndOrderly(p: Parser, ch: char, g: Place)
    requires (p.state.HeaderAlmostDone? || p.state.HeaderValueLws?) && Fits(p, g)
    ensures Orderly(p, HeaderValueMove(p, ch), g)
  {
    hide FinishHeader, After;
    FieldTable();
    FinishHeaderOrderly(p.flags, p.header);
  }

  lemma EmptyValueOrderly(p: Parser, ch: char, g: Place)
    requires (p.state.HeaderValueDiscardWsAlmostDone? || p.state.HeaderValueDiscardLws?) && Fits(p, g)
    ensures Orderly(p, HeaderValueMove(p, ch), g)
  {
    hide FinishHeader, After;
    FieldTable();
    FinishHeaderOrderly(p.flags, p.header);
  }

  lemma NewMessageParts(p: Parser)
    ensures PartOf(NewMessage(p)) == Between && Seed(NewMessage(p)).None?
  {
    hide ShouldKeepAlive;
  }

  lemma AlmostDoneOrderly(p: Parser, ch: char, g: Place)
    requires (p.state.Dead? || p.state.HeadersAlmostDone?) && Fits(p, g)
    ensures Orderly(p, EndOfHeaders(p, ch), g)
  {
    hide After, NeedsEof, HasBody, NewMessage;
    EndTable();
  }

  lemma EndOfHeadersOrderly(p: Parser, ch: char, g: Place)
    requires EndState(p.state) && Fits(p, g)
    ensures Orderly(p, EndOfHeaders(p, ch), g)
  {
    if p.state.Dead? || p.state.HeadersAlmostDone? {
      hide EndOfHeaders, Fits, Orderly;
      AlmostDoneOrderly(p, ch, g);
    } else {
      hide EndOfHeaders, Fits, Orderly;
      DoneOrderly(p, ch, g);
    }
  }

  lemma DoneOrderly(p: Parser, ch: char, g: Place)
    requires (p.state.HeadersDone? || p.state.MessageDone?) && Fits(p, g)
    ensures Orderly(p, EndOfHeaders(p, ch), g)
  {
    hide After, NeedsEof, HasBody, NewMessage, ShouldKeepAlive, PartOf, Seed;
    EndTable();
    BodyParts();
    BodySeeds();
    NewMessageParts(p);
  }

  /** The parts of the states around a body, and the marks that go with them. */
  lemma ChunkParts()
    ensures PartOf(ChunkSizeStart) == ChunkHead && PartOf(ChunkSize) == ChunkHead && PartOf(ChunkParameters) == ChunkHead
    ensures PartOf(ChunkSizeAlmostDone) == ChunkHead
  {
  }

  lemma BodyParts()
    ensures PartOf(HeadersDone) == AllHeaders && PartOf(ChunkSizeStart) == ChunkHead
    ensures PartOf(BodyIdentity) == Bytes && PartOf(BodyIdentityEof) == Bytes && PartOf(MessageDone) == Closing
  {
  }

  lemma BodySeeds()
    ensures Seed(ChunkSizeStart).None? && Seed(ChunkSize).None? && Seed(ChunkParameters).None?
    ensures Seed(HeadersDone).None? && Seed(MessageDone).None?
  {
  }

  lemma ChunkHeadOrderly(p: Parser, ch: char, g: Place)
    requires (p.state.ChunkSizeStart? || p.state.ChunkSize? || p.state.ChunkParameters?) && Fits(p, g)
    ensures Orderly(p, BodyMove(p, ch), g)
  {
    hide Unhex, After, PartOf, Seed;
    ChunkParts();
    BodySeeds();
  }

  lemma ChunkSizeOrderly(p: Parser, ch: char, g: Place)
    requires p.state.ChunkSizeAlmostDone? && Fits(p, g)
    ensures Orderly(p, BodyMove(p, ch), g)
  {
    hide After;
    BodyTable();
  }

  lemma ChunkDataOrderly(p: Parser, ch: char, g: Place)
    requires (p.state.ChunkData? || p.state.ChunkDataAlmostDone? || p.state.ChunkDataDone?) && Fits(p, g)
    ensures Orderly(p, BodyMove(p, ch), g)
  {
    hide After;
    BodyTable();
  }

  lemma BytesOrderly(p: Parser, ch: char, g: Place)
    requires (p.state.BodyIdentity? || p.state.BodyIdentityEof?) && Fits(p, g)
    ensures Orderly(p, BodyMove(p, ch), g)
  {
    hide After;
    BodyTable();
  }

  lemma BodyMoveOrderly(p: Parser, ch: char, g: Place)
    requires BodyState(p.state) && Fits(p, g)
    ensures Orderly(p, BodyMove(p, ch), g)
  {
    hide Fits, Orderly, BodyMove;
    if p.state.ChunkSizeStart? || p.state.ChunkSize? || p.state.ChunkParameters? { ChunkHeadOrderly(p, ch, g); }
    else if p.state.ChunkSizeAlmostDone? { ChunkSizeOrderly(p, ch, g); }
    else if p.state.BodyIdentity? || p.state.BodyIdentityEof? { BytesOrderly(p, ch, g); }
    else { ChunkDataOrderly(p, ch, g); }
  }

  /** Every arm keeps to the grammar. */
  lemma TransitionOrderly(p: Parser, ch: char, g: Place)
    requires Fits(p, g)
    ensures Orderly(p, Transition(p, ch), g)
  {
    hide ResponseLine, RequestMethod, RequestVersion, RequestUrl, HeaderName, HeaderValueMove, EndOfHeaders, BodyMove;
    hide Fits, Orderly;
    if ResponseState(p.state) { ResponseLineOrderly(p, ch, g); }
    else if MethodState(p.state) { RequestMethodOrderly(p, ch, g); }
    else if UrlState(p.state) { RequestUrlOrderly(p, ch, g); }
    else if VersionState(p.state) { RequestVersionOrderly(p, ch, g); }
    else if FieldState(p.state) { HeaderNameOrderly(p, ch, g); }
    else if ValueGroup(p.state) { HeaderValueOrderly(p, ch, g); }
    else if EndState(p.state) { EndOfHeadersOrderly(p, ch, g); }
    else { BodyMoveOrderly(p, ch, g); }
  }

  lemma AnsweredFits(p: Parser, answer: int, g: Place)
    requires Fits(p, g) && p.state.HeadersDone? && 0 <= answer <= 2
    ensures Fits(Answered(p, answer), g) && Answered(p, answer).state == p.state
  {
    hide PartOf, Home;
  }

  lemma CalledPlace(call: Callback, open: Option<DataKind>, out: seq<Event>, ch: char)
    ensures PlaceOf(Called(call, open, out, ch)) == Told(call, open, PlaceOf(out))
    ensures open.Some? ==> PlaceOf(Flushed(open, out, ch)) == After(PlaceOf(out), D(open.value))
  {
    hide After, Emit, PlaceOf;
    if open.Some? {
      PlaceOfEmit(out, Data(open.value, [ch]));
    }
    match call
    case NoCallback =>
    case Note(n) => PlaceOfEmit(out, Notify(n));
    case UpTo(d) => PlaceOfEmit(out, Data(d, ""));
    case Through(d) => PlaceOfEmit(out, Data(d, [ch]));
  }

  /** Every byte keeps to the grammar. */
  lemma {:induction false} StepOrderly(ask: Answers, p: Parser, out: seq<Event>, ch: char)
    requires Fits(p, PlaceOf(out))
    ensures var r := Step(ask, p, out, ch); !r.Refused? ==> Fits(r.p, PlaceOf(r.out))
    decreases Rank(p.state)
  {
    hide Transition, Fits, Emit, PlaceOf, After, Called, Told, Flushed, Answered;
    var mv := Transition(p, ch);
    TransitionOrderly(p, ch, PlaceOf(out));
    TransitionShaped(p, ch);
    if mv.Move? {
      var open := Open(p.state, mv.mark);
      var told := Called(mv.call, open, out, ch);
      CalledPlace(mv.call, open, out, ch);
      CalledPlace(mv.call, open, told, ch);
      if mv.call == Callback.Note(HeadersComplete) {
        if 0 <= ask(told) <= 2 {
          AnsweredFits(mv.p, ask(told), PlaceOf(told));
          StepOrderly(ask, Answered(mv.p, ask(told)), told, ch);
        }
      } else if mv.next.Again? {
        StepOrderly(ask, mv.p, told, ch);
      } else if mv.call.NoCallback? {
        CalledSilent(open, out, ch);
      }
    }
  }

  lemma CalledSilent(open: Option<DataKind>, out: seq<Event>, ch: char)
    ensures Called(NoCallback, open, out, ch) == out && (open.None? ==> Flushed(open, out, ch) == out)
  {
  }

  /** Every input keeps to the grammar. */
  lemma {:induction false} FeedOrderly(ask: Answers, p: Parser, out: seq<Event>, data: string)
    requires Fits(p, PlaceOf(out))
    ensures var r := Feed(ask, p, out, data); !r.Failed? ==> Fits(r.p, PlaceOf(r.out))
    decreases |data|
  {
    hide Step, Fits, PlaceOf;
    if data != "" {
      StepOrderly(ask, p, out, data[0]);
      match Step(ask, p, out, data[0])
      case Consumed(q, told, _) => FeedOrderly(ask, q, told, data[1..]);
      case Left(q, told) =>
      case Refused(e) =>
    }
  }

  lemma FitsRight(p: Parser, g: Place)
    requires Fits(p, g)
    ensures !g.Wrong?
    ensures p.state.BodyIdentityEof? ==> After(g, N(MessageComplete)).Idle?
  {
    hide PartOf;
    if p.state.BodyIdentityEof? {
      BodyParts();
    }
  }

  lemma InitFits(kind: Kind)
    ensures Fits(Init(kind), PlaceOf([]))
  {
    hide After;
  }

  /** The trace that the application has been told of when a byte is done with or refused. */
  function ByteTrace(ask: Answers, p: Parser, out: seq<Event>, ch: char): seq<Event>
    decreases Rank(p.state)
  {
    var mv := Transition(p, ch);
    if mv.Reject? then out else
    var open := Open(p.state, mv.mark);
    var told := Called(mv.call, open, out, ch);
    var asked := mv.call == Callback.Note(HeadersComplete);
    if asked && !(0 <= ask(told) <= 2) then told else
    TransitionShaped(p, ch);
    match mv.next
    case Again => ByteTrace(ask, if asked then Answered(mv.p, ask(told)) else mv.p, told, ch)
    case Advance => if mv.call.NoCallback? then Flushed(open, told, ch) else told
    case Exit => told
  }

  /** The same for a text. */
  function TraceOf(ask: Answers, p: Parser, out: seq<Event>, data: string): seq<Event>
    decreases |data|
  {
    if data == "" then out else
    var told := ByteTrace(ask, p, out, data[0]);
    match Step(ask, p, out, data[0])
    case Consumed(q, _, _) => TraceOf(ask, q, told, data[1..])
    case _ => told
  }

  lemma {:induction false} ByteTraceIs(ask: Answers, p: Parser, out: seq<Event>, ch: char)
    ensures var r := Step(ask, p, out, ch); !r.Refused? ==> ByteTrace(ask, p, out, ch) == r.out
    decreases Rank(p.state)
  {
    hide Transition, Emit, Called, Flushed, Answered;
    var mv := Transition(p, ch);
    TransitionShaped(p, ch);
    if mv.Move? && mv.next.Again? {
      var told := Called(mv.call, Open(p.state, mv.mark), out, ch);
      if mv.call == Callback.Note(HeadersComplete) {
        if 0 <= ask(told) <= 2 {
          AnsweredState(mv.p, ask(told));
          ByteTraceIs(ask, Answered(mv.p, ask(told)), told, ch);
        }
      } else {
        ByteTraceIs(ask, mv.p, told, ch);
      }
    }
  }

  lemma AnsweredState(p: Parser, answer: int)
    ensures Answered(p, answer).state == p.state
  {
  }

  /** Without an error it is the trace of `Feed`. */
  lemma {:induction false} TraceOfIs(ask: Answers, p: Parser, out: seq<Event>, data: string)
    ensures var r := Feed(ask, p, out, data); !r.Failed? ==> TraceOf(ask, p, out, data) == r.out
    decreases |data|
  {
    hide Step, ByteTrace;
    if data != "" {
      ByteTraceIs(ask, p, out, data[0]);
      match Step(ask, p, out, data[0])
      case Consumed(q, told, _) => TraceOfIs(ask, q, told, data[1..]);
      case Left(q, told) =>
      case Refused(e) =>
    }
  }

  /** A byte keeps to the grammar even if it is refused. */
  lemma {:induction false} ByteTraceRight(ask: Answers, p: Parser, out: seq<Event>, ch: char)
    requires Fits(p, PlaceOf(out))
    ensures !PlaceOf(ByteTrace(ask, p, out, ch)).Wrong?
    decreases Rank(p.state)
  {
    hide Transition, Fits, Emit, PlaceOf, After, Called, Told, Flushed, Answered;
    var mv := Transition(p, ch);
    TransitionOrderly(p, ch, PlaceOf(out));
    TransitionShaped(p, ch);
    FitsRight(p, PlaceOf(out));
    if mv.Move? {
      var open := Open(p.state, mv.mark);
      var told := Called(mv.call, open, out, ch);
      CalledPlace(mv.call, open, out, ch);
      CalledPlace(mv.call, open, told, ch);
      CalledSilent(open, out, ch);
      if mv.call == Callback.Note(HeadersComplete) {
        FitsRight(mv.p, PlaceOf(told));
        if 0 <= ask(told) <= 2 {
          AnsweredFits(mv.p, ask(told), PlaceOf(told));
          ByteTraceRight(ask, Answered(mv.p, ask(told)), told, ch);
        }
      } else if mv.next.Again? {
        ByteTraceRight(ask, mv.p, told, ch);
      } else {
        FitsRight(mv.p, PlaceOf(ByteTrace(ask, p, out, ch)));
      }
    }
  }

  /** Every input keeps to the grammar, however it ends. */
  lemma {:induction false} TraceRight(ask: Answers, p: Parser, out: seq<Event>, data: string)
    requires Fits(p, PlaceOf(out))
    ensures !PlaceOf(TraceOf(ask, p, out, data)).Wrong?
    decreases |data|
  {
    hide Step, ByteTrace, Fits, PlaceOf;
    FitsRight(p, PlaceOf(out));
    if data != "" {
      StepOrderly(ask, p, out, data[0]);
      ByteTraceIs(ask, p, out, data[0]);
      ByteTraceRight(ask, p, out, data[0]);
      match Step(ask, p, out, data[0])
      case Consumed(q, told, _) => TraceRight(ask, q, told, data[1..]);
      case Left(q, told) =>
      case Refused(e) =>
    }
  }

  /** The trace of every run from the start, whether it ends in an error or not, is a prefix of a sequence of well-formed
      messages; the signal of the end of the stream, given once and last, keeps it so. */
  lemma TraceIsGrammatical(ask: Answers, kind: Kind, data: string)
    ensures !PlaceOf(TraceOf(ask, Init(kind), [], data)).Wrong?
    ensures var r := Feed(ask, Init(kind), [], data);
            !r.Failed? ==> r.out == TraceOf(ask, Init(kind), [], data) &&
                           (r.p.state.BodyIdentityEof? ==> PlaceOf(Emit(r.out, Notify(MessageComplete))).Idle?)
  {
    hide Step, Feed, Emit, Init, PlaceOf, After, Fits, TraceOf;
    InitFits(kind);
    FeedOrderly(ask, Init(kind), [], data);
    TraceRight(ask, Init(kind), [], data);
    TraceOfIs(ask, Init(kind), [], data);
    var r := Feed(ask, Init(kind), [], data);
    if !r.Failed? {
      FitsRight(r.p, PlaceOf(r.out));
      PlaceOfEmit(r.out, Notify(MessageComplete));
    }
  }

  // --------------------------------------------------------------------------------------------------------
  // The last message of a connection

  /** Only the end of the headers and the end of a body complete a message, and they look at keep-alive. */
  lemma CompletesInHead(p: Parser, ch: char)
    ensures var mv := ResponseLine(p, ch); mv.Move? ==> mv.call != Callback.Note(MessageComplete)
    ensures var mv := RequestMethod(p, ch); mv.Move? ==> mv.call != Callback.Note(MessageComplete)
    ensures var mv := RequestUrl(p, ch); mv.Move? ==> mv.call != Callback.Note(MessageComplete)
    ensures var mv := RequestVersion(p, ch); mv.Move? ==> mv.call != Callback.Note(MessageComplete)
  {
    hide MethodName, FirstGuess, NextGuess, UrlStep, IsNum, Digit;
  }

  lemma CompletesInBody(p: Parser, ch: char)
    ensures var mv := HeaderName(p, ch); mv.Move? ==> mv.call != Callback.Note(MessageComplete)
    ensures var mv := HeaderValueMove(p, ch); mv.Move? && !p.state.HeaderValue? ==> mv.call != Callback.Note(MessageComplete)
    ensures var mv := BodyMove(p, ch); mv.Move? ==> mv.call != Callback.Note(MessageComplete)
  {
    hide NameStep, ValueChar, ValueStart, Unhex;
    ValueStartOrderly(p, ch);
  }

  lemma Completes(p: Parser, ch: char)
    ensures var mv := Transition(p, ch);
            mv.Move? && mv.call == Callback.Note(MessageComplete) ==>
              !mv.next.Again? && (ShouldKeepAlive(mv.p) || mv.p.state.Dead?)
  {
    hide ResponseLine, RequestMethod, RequestVersion, RequestUrl, HeaderName, HeaderValueMove, BodyMove, NeedsEof;
    CompletesInHead(p, ch);
    CompletesInBody(p, ch);
    NeedsEofState(p);
    if p.state.HeaderValue? {
      HeaderValueShaped(p, ch);
      ValueByteCall(p, ch);
    }
  }

  lemma ValueByteCall(p: Parser, ch: char)
    requires p.state.HeaderValue?
    ensures var mv := HeaderValueMove(p, ch); mv.Move? ==> mv.call != Callback.Note(MessageComplete)
  {
    hide ValueChar;
    ValueCharOrderly(p, ch);
  }

  lemma NeedsEofState(p: Parser)
    ensures forall s :: NeedsEof(p.(state := s)) == NeedsEof(p)
  {
  }

  /** A byte that completes a message leaves the parser dead if the connection is not kept alive. */
  lemma {:induction false} LastMessage(ask: Answers, p: Parser, out: seq<Event>, ch: char)
    requires !PlaceOf(out).Idle?
    ensures var r := Step(ask, p, out, ch);
            !r.Refused? && PlaceOf(r.out).Idle? && !ShouldKeepAlive(r.p) ==> r.p.state.Dead?
    decreases Rank(p.state)
  {
    hide Transition, Emit, PlaceOf, After, Called, Told, Flushed, Answered, ShouldKeepAlive;
    var mv := Transition(p, ch);
    Completes(p, ch);
    TransitionShaped(p, ch);
    if mv.Move? {
      var open := Open(p.state, mv.mark);
      var told := Called(mv.call, open, out, ch);
      CalledPlace(mv.call, open, out, ch);
      CalledPlace(mv.call, open, told, ch);
      if mv.call != Callback.Note(MessageComplete) {
        OnlyComplete(mv.call, open, PlaceOf(out));
      }
      if mv.call == Callback.Note(HeadersComplete) {
        if 0 <= ask(told) <= 2 {
          AnsweredKeepsState(mv.p, ask(told));
          LastMessage(ask, Answered(mv.p, ask(told)), told, ch);
        }
      } else if mv.next.Again? {
        LastMessage(ask, mv.p, told, ch);
      } else if mv.call.NoCallback? {
        CalledSilent(open, out, ch);
        if open.Some? {
          OnlyComplete(UpTo(open.value), open, PlaceOf(out));
          UpToPlace(open, PlaceOf(out));
        }
      }
    }
  }

  lemma AnsweredKeepsState(p: Parser, answer: int)
    requires p.state.HeadersDone? && 0 <= answer <= 2
    ensures Answered(p, answer).state == p.state
  {
  }

  lemma UpToPlace(open: Option<DataKind>, g: Place)
    requires open.Some?
    ensures Told(UpTo(open.value), open, g) == After(g, D(open.value))
  {
    hide After;
  }

  lemma OnlyComplete(call: Callback, open: Option<DataKind>, g: Place)
    requires !g.Idle? && call != Callback.Note(MessageComplete)
    ensures !Told(call, open, g).Idle?
  {
  }

  /** A dead parser never makes another callback: it takes line ends and refuses all else. */
  lemma {:induction false} DeadIsSilent(ask: Answers, p: Parser, out: seq<Event>, data: string)
    requires p.state.Dead?
    ensures var r := Feed(ask, p, out, data);
            r == if forall i | 0 <= i < |data| :: data[i] == CR || data[i] == LF then Fed(p, out) else Failed(ClosedConnection)
    decreases |data|
  {
    if data != "" {
      assert Step(ask, p, out, data[0]) ==
        if data[0] == CR || data[0] == LF then Consumed(p, out, false) else Refused(ClosedConnection);
      hide Step;
      DeadIsSilent(ask, p, out, data[1..]);
      assert forall i | 1 <= i < |data| :: data[i] == data[1..][i - 1];
    }
  }
}
