/** What the parser does with one byte in one state: the arms of the state switch in `http_parser_execute`,
    together with the invariant every arm keeps. */
module HttpTransition {
  import opened HttpTypes
  import opened HttpChars

  /** The callback an arm makes. `UpTo` passes the marked bytes before the current one, `Through` includes it. */
  datatype Callback = NoCallback | Note(note: Note) | UpTo(kind: DataKind) | Through(kind: DataKind)

  /** Where an arm goes: to the next byte, to the switch again with the same byte, or out of the parser
      just behind this byte. */
  datatype Next = Advance | Again | Exit

  /** The effect of one arm: new fields, a mark to set if it is not set, a callback, whether the byte counter
      restarts, and where to go. */
  datatype Move =
    | Move(p: Parser, mark: Option<DataKind>, call: Callback, reset: bool, next: Next)
    | Reject(errno: Errno)

  function Go(p: Parser): Move { Move(p, None, NoCallback, false, Advance) }

  function To(p: Parser, s: State): Move { Go(p.(state := s)) }

  function Restart(p: Parser, s: State): Move { Move(p.(state := s), None, NoCallback, true, Advance) }

  function Redo(p: Parser, s: State): Move { Move(p.(state := s), None, NoCallback, false, Again) }

  function Expect(p: Parser, ok: bool, s: State, e: Errno): Move { if ok then To(p, s) else Reject(e) }

  // --------------------------------------------------------------------------------------------------------
  // Names, and the data callback a state belongs to

  const CONNECTION := "connection"
  const PROXY_CONNECTION := "proxy-connection"
  const CONTENT_LENGTH := "content-length"
  const TRANSFER_ENCODING := "transfer-encoding"
  const UPGRADE := "upgrade"
  const CHUNKED := "chunked"
  const KEEP_ALIVE := "keep-alive"
  const CLOSE := "close"

  /** The data callback that a state is in the middle of: the mark that is put at the start of a buffer. */
  function Seed(s: State): Option<DataKind> {
    match s
    case HeaderField => Some(Field)
    case HeaderValue => Some(Value)
    case ResStatus => Some(Status)
    case ReqPath => Some(Url)
    case ReqSchema => Some(Url)
    case ReqSchemaSlash => Some(Url)
    case ReqSchemaSlashSlash => Some(Url)
    case ReqServerStart => Some(Url)
    case ReqServer => Some(Url)
    case ReqServerWithAt => Some(Url)
    case ReqQueryStringStart => Some(Url)
    case ReqQueryString => Some(Url)
    case ReqFragmentStart => Some(Url)
    case ReqFragment => Some(Url)
    case _ => None
  }

  /** The states in which body bytes can be pending without the state telling so. */
  predicate BodyHeld(s: State) {
    s.BodyIdentity? || s.BodyIdentityEof? || s.ChunkData? || s.ChunkDataAlmostDone?
  }

  /** The data callback that the current byte is part of, given the mark the arm sets. */
  function Open(s: State, mark: Option<DataKind>): Option<DataKind> {
    if mark.Some? then mark else Seed(s)
  }

  // --------------------------------------------------------------------------------------------------------
  // Start lines

  /** The fields that the first byte of a message resets. */
  function Fresh(p: Parser): Parser {
    p.(flags := NO_FLAGS, transferEncoding := false, contentLength := NO_LENGTH)
  }

  predicate ResponseState(s: State) {
    s.StartReqOrRes? || s.ResOrRespH? || s.StartRes? || s.ResH? || s.ResHT? || s.ResHTT? || s.ResHTTP? ||
    s.ResHttpMajor? || s.ResHttpDot? || s.ResHttpMinor? || s.ResHttpEnd? || s.ResFirstStatusCode? ||
    s.ResStatusCode? || s.ResStatusStart? || s.ResStatus? || s.ResLineAlmostDone?
  }

  function ResponseLine(p: Parser, ch: char): Move
  {
    match p.state
    case StartReqOrRes =>
      if ch == CR || ch == LF then Go(p)
      else if ch == 'H' then Move(Fresh(p).(state := ResOrRespH), None, Callback.Note(MessageBegin), false, Advance)
      else Redo(Fresh(p).(kind := Request), StartReq)
    case ResOrRespH =>
      if ch == 'T' then To(p.(kind := Response), ResHT)
      else if ch == 'E' then To(p.(kind := Request, verb := HEAD, index := 2), ReqMethod)
      else Reject(InvalidConstant)
    case StartRes =>
      if ch == CR || ch == LF then Go(p)
      else if ch == 'H' then Move(Fresh(p).(state := ResH), None, Callback.Note(MessageBegin), false, Advance)
      else Reject(InvalidConstant)
    case ResH => Expect(p, ch == 'T', ResHT, Strict)
    case ResHT => Expect(p, ch == 'T', ResHTT, Strict)
    case ResHTT => Expect(p, ch == 'P', ResHTTP, Strict)
    case ResHTTP => Expect(p, ch == '/', ResHttpMajor, Strict)
    case ResHttpMajor =>
      if IsNum(ch) then To(p.(major := Digit(ch)), ResHttpDot) else Reject(InvalidVersion)
    case ResHttpDot => Expect(p, ch == '.', ResHttpMinor, InvalidVersion)
    case ResHttpMinor =>
      if IsNum(ch) then To(p.(minor := Digit(ch)), ResHttpEnd) else Reject(InvalidVersion)
    case ResHttpEnd => Expect(p, ch == ' ', ResFirstStatusCode, InvalidVersion)
    case ResFirstStatusCode =>
      if IsNum(ch) then To(p.(status := Digit(ch)), ResStatusCode)
      else if ch == ' ' then Go(p)
      else Reject(InvalidStatus)
    case ResStatusCode =>
      if IsNum(ch) then
        var status := p.status * 10 + Digit(ch);
        if status > 999 then Reject(InvalidStatus) else Go(p.(status := status))
      else if ch == ' ' then To(p, ResStatusStart)
      else if ch == CR || ch == LF then Redo(p, ResStatusStart)
      else Reject(InvalidStatus)
    case ResStatusStart =>
      Move(p.(state := ResStatus, index := 0), Some(Status), NoCallback, false,
           if ch == CR || ch == LF then Again else Advance)
    case ResStatus =>
      if ch == CR then Move(p.(state := ResLineAlmostDone), None, UpTo(Status), false, Advance)
      else if ch == LF then Move(p.(state := HeaderFieldStart), None, UpTo(Status), false, Advance)
      else Go(p)
    case ResLineAlmostDone => Expect(p, ch == LF, HeaderFieldStart, Strict)
    case _ => Reject(InvalidInternalState)
  }

  /** The method guessed from its first letter. */
  function FirstGuess(ch: char): Option<Method> {
    match ch
    case 'A' => Some(ACL) case 'B' => Some(BIND) case 'C' => Some(CONNECT) case 'D' => Some(DELETE)
    case 'G' => Some(GET) case 'H' => Some(HEAD) case 'L' => Some(LOCK) case 'M' => Some(MKCOL)
    case 'N' => Some(NOTIFY) case 'O' => Some(OPTIONS) case 'P' => Some(POST) case 'R' => Some(REPORT)
    case 'S' => Some(SUBSCRIBE) case 'T' => Some(TRACE) case 'U' => Some(UNLOCK)
    case _ => None
  }

  /** The method guessed instead, when the letter at `i` is not the one of method `m`. */
  function NextGuess(m: Method, i: nat, ch: char): Option<Method> {
    match m
    case POST => if i != 1 then None
                 else if ch == 'U' then Some(PUT) else if ch == 'A' then Some(PATCH)
                 else if ch == 'R' then Some(PROPFIND) else None
    case PUT => if i == 2 && ch == 'R' then Some(PURGE) else None
    case CONNECT => if i == 1 && ch == 'H' then Some(CHECKOUT)
                    else if i == 2 && ch == 'P' then Some(COPY) else None
    case MKCOL => if i == 1 && ch == 'O' then Some(MOVE) else if i == 1 && ch == 'E' then Some(MERGE)
                  else if i == 1 && ch == '-' then Some(MSEARCH) else if i == 2 && ch == 'A' then Some(MKACTIVITY)
                  else if i == 3 && ch == 'A' then Some(MKCALENDAR) else None
    case SUBSCRIBE => if i == 1 && ch == 'E' then Some(SEARCH)
                      else if i == 1 && ch == 'O' then Some(SOURCE) else None
    case REPORT => if i == 2 && ch == 'B' then Some(REBIND) else None
    case PROPFIND => if i == 4 && ch == 'P' then Some(PROPPATCH) else None
    case LOCK => if i == 1 && ch == 'I' then Some(LINK) else None
    case UNLOCK => if i == 2 && ch == 'S' then Some(UNSUBSCRIBE) else if i == 2 && ch == 'B' then Some(UNBIND)
                   else if i == 3 && ch == 'I' then Some(UNLINK) else None
    case _ => None
  }

  predicate MethodState(s: State) { s.StartReq? || s.ReqMethod? }

  function RequestMethod(p: Parser, ch: char): Move
  {
    match p.state
    case StartReq =>
      if ch == CR || ch == LF then Go(p) else
      (match FirstGuess(ch)
       case None => Reject(InvalidMethod)
       case Some(m) =>
         Move(Fresh(p).(verb := m, index := 1, state := ReqMethod), None, Callback.Note(MessageBegin), false, Advance))
    case ReqMethod =>
      var name := MethodName(p.verb);
      if ch == '\0' then Reject(InvalidMethod)
      else if ch == ' ' && p.index == |name| then To(p.(index := p.index + 1), ReqSpacesBeforeUrl)
      else if p.index < |name| && ch == name[p.index] then Go(p.(index := p.index + 1))
      else if 'A' <= ch <= 'Z' || ch == '-' then
        (match NextGuess(p.verb, p.index, ch)
         case None => Reject(InvalidMethod)
         case Some(m) => Go(p.(verb := m, index := p.index + 1)))
      else Reject(InvalidMethod)
    case _ => Reject(InvalidInternalState)
  }

  /** `parse_url_char`: the next URL state, or `Dead`. */
  function UrlStep(s: State, ch: char): (t: State)
    ensures t.Dead? || Seed(t) == Some(Url)
  {
    if ch == ' ' || ch == CR || ch == LF || ch == '\t' || ch == '\U{C}' then Dead else
    match s
    case ReqSpacesBeforeUrl =>
      if ch == '/' || ch == '*' then ReqPath else if IsAlpha(ch) then ReqSchema else Dead
    case ReqSchema => if IsAlpha(ch) then ReqSchema else if ch == ':' then ReqSchemaSlash else Dead
    case ReqSchemaSlash => if ch == '/' then ReqSchemaSlashSlash else Dead
    case ReqSchemaSlashSlash => if ch == '/' then ReqServerStart else Dead
    case ReqServerWithAt => if ch == '@' then Dead else ServerStep(ch)
    case ReqServerStart => ServerStep(ch)
    case ReqServer => ServerStep(ch)
    case ReqPath =>
      if IsUrlChar(ch) then ReqPath else if ch == '?' then ReqQueryStringStart
      else if ch == '#' then ReqFragmentStart else Dead
    case ReqQueryStringStart => QueryStep(ch)
    case ReqQueryString => QueryStep(ch)
    case ReqFragmentStart =>
      if IsUrlChar(ch) || ch == '?' then ReqFragment else if ch == '#' then ReqFragmentStart else Dead
    case ReqFragment => if IsUrlChar(ch) || ch == '?' || ch == '#' then ReqFragment else Dead
    case _ => Dead
  }

  function ServerStep(ch: char): State {
    if ch == '/' then ReqPath else if ch == '?' then ReqQueryStringStart
    else if ch == '@' then ReqServerWithAt
    else if IsUserinfoChar(ch) || ch == '[' || ch == ']' then ReqServer else Dead
  }

  function QueryStep(ch: char): State {
    if IsUrlChar(ch) || ch == '?' then ReqQueryString else if ch == '#' then ReqFragmentStart else Dead
  }

  predicate UrlState(s: State) { s.ReqSpacesBeforeUrl? || Seed(s) == Some(Url) }

  function RequestUrl(p: Parser, ch: char): Move
  {
    if p.state.ReqSpacesBeforeUrl? then
      if ch == ' ' then Go(p) else
      var t := UrlStep(if p.verb.CONNECT? then ReqServerStart else ReqSpacesBeforeUrl, ch);
      if t.Dead? then Reject(InvalidUrl)
      else Move(p.(state := t), Some(Url), NoCallback, false, Advance)
    else if ch == ' ' || ch == CR || ch == LF then
      if p.state.ReqSchema? || p.state.ReqSchemaSlash? || p.state.ReqSchemaSlashSlash? || p.state.ReqServerStart?
      then Reject(InvalidUrl)
      else if ch == ' ' then Move(p.(state := ReqHttpStart), None, UpTo(Url), false, Advance)
      else Move(p.(major := 0, minor := 9, state := if ch == CR then ReqLineAlmostDone else HeaderFieldStart),
                None, UpTo(Url), false, Advance)
    else
      var t := UrlStep(p.state, ch);
      if t.Dead? then Reject(InvalidUrl) else To(p, t)
  }

  predicate VersionState(s: State) {
    s.ReqHttpStart? || s.ReqHttpH? || s.ReqHttpHT? || s.ReqHttpHTT? || s.ReqHttpHTTP? || s.ReqHttpI? ||
    s.ReqHttpIC? || s.ReqHttpMajor? || s.ReqHttpDot? || s.ReqHttpMinor? || s.ReqHttpEnd? || s.ReqLineAlmostDone?
  }

  function RequestVersion(p: Parser, ch: char): Move
  {
    match p.state
    case ReqHttpStart =>
      if ch == ' ' then Go(p) else if ch == 'H' then To(p, ReqHttpH)
      else if ch == 'I' && p.verb.SOURCE? then To(p, ReqHttpI) else Reject(InvalidConstant)
    case ReqHttpH => Expect(p, ch == 'T', ReqHttpHT, Strict)
    case ReqHttpHT => Expect(p, ch == 'T', ReqHttpHTT, Strict)
    case ReqHttpHTT => Expect(p, ch == 'P', ReqHttpHTTP, Strict)
    case ReqHttpI => Expect(p, ch == 'C', ReqHttpIC, Strict)
    case ReqHttpIC => Expect(p, ch == 'E', ReqHttpHTTP, Strict)
    case ReqHttpHTTP => Expect(p, ch == '/', ReqHttpMajor, Strict)
    case ReqHttpMajor =>
      if IsNum(ch) then To(p.(major := Digit(ch)), ReqHttpDot) else Reject(InvalidVersion)
    case ReqHttpDot => Expect(p, ch == '.', ReqHttpMinor, InvalidVersion)
    case ReqHttpMinor =>
      if IsNum(ch) then To(p.(minor := Digit(ch)), ReqHttpEnd) else Reject(InvalidVersion)
    case ReqHttpEnd =>
      if ch == CR then To(p, ReqLineAlmostDone) else Expect(p, ch == LF, HeaderFieldStart, InvalidVersion)
    case ReqLineAlmostDone => Expect(p, ch == LF, HeaderFieldStart, LfExpected)
    case _ => Reject(InvalidInternalState)
  }

  // --------------------------------------------------------------------------------------------------------
  // Header fields

  /** The header state and the matcher index after one more token character `c` (already lowered) of a name. */
  function MatchName(name: string, i: nat, c: char, going: HeaderState, done: HeaderState): HeaderState {
    if i + 1 >= |name| || c != name[i + 1] then General
    else if i + 1 == |name| - 1 then done
    else going
  }

  function NameStep(h: HeaderState, i: nat, c: char): HeaderState
  {
    match h
    case General => General
    case C => if c == 'o' then CO else General
    case CO => if c == 'n' then CON else General
    case CON => if c == 'n' then MatchingConnection else if c == 't' then MatchingContentLength else General
    case MatchingConnection => MatchName(CONNECTION, i, c, h, Connection)
    case MatchingProxyConnection => MatchName(PROXY_CONNECTION, i, c, h, Connection)
    case MatchingContentLength => MatchName(CONTENT_LENGTH, i, c, h, ContentLength)
    case MatchingTransferEncoding => MatchName(TRANSFER_ENCODING, i, c, h, TransferEncoding)
    case MatchingUpgrade => MatchName(UPGRADE, i, c, h, Upgrade)
    case _ => General
  }

  /** Whether the arm of this header state moves the matcher. */
  predicate Counting(h: HeaderState) {
    h.C? || h.CO? || h.CON? || h.MatchingConnection? || h.MatchingProxyConnection? ||
    h.MatchingContentLength? || h.MatchingTransferEncoding? || h.MatchingUpgrade?
  }

  /** One more token character of a field name. */
  function FieldChar(p: Parser, ch: char): Parser
  {
    var h := NameStep(p.header, p.index, Token(ch));
    p.(header := h,
       index := if Counting(p.header) then p.index + 1 else p.index,
       transferEncoding := p.transferEncoding || (p.header.MatchingTransferEncoding? && h.TransferEncoding?))
  }

  predicate FieldState(s: State) { s.HeaderFieldStart? || s.HeaderField? }

  function FirstOfName(c: char): HeaderState {
    match c
    case 'c' => C
    case 'p' => MatchingProxyConnection
    case 't' => MatchingTransferEncoding
    case 'u' => MatchingUpgrade
    case _ => General
  }

  function HeaderName(p: Parser, ch: char): Move
  {
    match p.state
    case HeaderFieldStart =>
      if ch == CR then To(p, HeadersAlmostDone)
      else if ch == LF then Redo(p, HeadersAlmostDone)
      else if !IsToken(ch) then Reject(InvalidHeaderToken)
      else Move(p.(index := 0, state := HeaderField, header := FirstOfName(Token(ch))),
                Some(Field), NoCallback, false, Advance)
    case HeaderField =>
      if IsToken(ch) then Go(FieldChar(p, ch))
      else if ch == ':' then Move(p.(state := HeaderValueDiscardWs), None, UpTo(Field), false, Advance)
      else Reject(InvalidHeaderToken)
    case _ => Reject(InvalidInternalState)
  }

  /** The flags after a header whose value has ended in header state `h`. */
  function FinishHeader(f: Flags, h: HeaderState): Flags {
    match h
    case ConnectionKeepAlive => f.(keepAlive := true)
    case ConnectionClose => f.(close := true)
    case TransferEncodingChunked => f.(chunked := true)
    case ConnectionUpgrade => f.(connUpgrade := true)
    case _ => f
  }

  function FirstOfConnection(c: char): HeaderState {
    if c == 'k' then MatchingKeepAlive else if c == 'c' then MatchingClose
    else if c == 'u' then MatchingConnUpgrade else ConnectionToken
  }

  /** The first byte of a value (or of a folded line of it). */
  function ValueStart(p: Parser, ch: char): Move
  {
    var q := p.(state := HeaderValue, index := 0);
    var c := Lower(ch);
    match p.header
    case Upgrade => Marked(q.(flags := p.flags.(upgrade := true), header := General))
    case TransferEncoding => Marked(q.(header := if c == 'c' then MatchingChunked else TransferEncodingToken))
    case TransferEncodingTokenStart => Marked(q)
    case ContentLength =>
      if !IsNum(ch) then Reject(InvalidContentLength)
      else if p.flags.contentLength then Reject(UnexpectedContentLength)
      else Marked(q.(flags := p.flags.(contentLength := true), contentLength := Digit(ch), header := ContentLengthNum))
    case ContentLengthWs => Marked(q)
    case Connection => Marked(q.(header := FirstOfConnection(c)))
    case ConnectionTokenStart => Marked(q)
    case _ => Marked(q.(header := General))
  }

  function Marked(q: Parser): Move { Move(q, Some(Value), NoCallback, false, Advance) }

  /** The header state and matcher index after a byte of a value that is matched against `name`. */
  function MatchValue(p: Parser, name: string, c: char, going: HeaderState, done: HeaderState, other: HeaderState): Parser {
    var i := p.index + 1;
    p.(index := i,
       header := if i >= |name| || c != name[i] then other else if i == |name| - 1 then done else going)
  }

  /** The start of one more element of a list value: `first` is where the element's first byte leads. */
  function ElementStart(p: Parser, ch: char, first: HeaderState, token: HeaderState): Parser {
    var c := Lower(ch);
    if first != token then p.(header := first)
    else if IsToken(c) then p.(header := token)
    else if c == ' ' || c == '\t' then p
    else p.(header := General)
  }

  function ListElement(p: Parser, ch: char, start: HeaderState): Parser {
    if ch == ',' then p.(header := start, index := 0) else p
  }

  predicate NumberHeader(h: HeaderState) { h.General? || h.ContentLengthNum? || h.ContentLengthWs? }

  predicate CodingHeader(h: HeaderState) {
    h.TransferEncodingTokenStart? || h.MatchingChunked? || h.TransferEncodingToken? || h.TransferEncodingChunked?
  }

  /** One more digit of a Content-Length. */
  function LengthChar(p: Parser, ch: char): Move
  {
    match p.header
    case ContentLengthWs => if ch == ' ' then Go(p) else Reject(InvalidContentLength)
    case ContentLengthNum =>
      if ch == ' ' then Go(p.(header := ContentLengthWs))
      else if !IsNum(ch) then Reject(InvalidContentLength)
      else if (NO_LENGTH - 10) / 10 < p.contentLength then Reject(InvalidContentLength)
      else Go(p.(contentLength := p.contentLength * 10 + Digit(ch)))
    case _ => Go(p)
  }

  /** One more byte of a Transfer-Encoding. */
  function CodingChar(p: Parser, ch: char): Parser
  {
    match p.header
    case TransferEncodingTokenStart =>
      ElementStart(p, ch, if Lower(ch) == 'c' then MatchingChunked else TransferEncodingToken, TransferEncodingToken)
    case MatchingChunked =>
      MatchValue(p, CHUNKED, Lower(ch), MatchingChunked, TransferEncodingChunked, TransferEncodingToken)
    case TransferEncodingToken => ListElement(p, ch, TransferEncodingTokenStart)
    case TransferEncodingChunked => if ch != ' ' then p.(header := TransferEncodingToken) else p
    case _ => p
  }

  /** One more byte after an element of a Connection that is known. */
  function ConnectionElement(p: Parser, ch: char): Parser {
    if ch == ',' then p.(flags := FinishHeader(p.flags, p.header), header := ConnectionTokenStart, index := 0)
    else if ch != ' ' then p.(header := ConnectionToken)
    else p
  }

  /** One more byte of a Connection. */
  function ConnectionChar(p: Parser, ch: char): Parser
  {
    match p.header
    case ConnectionTokenStart => ElementStart(p, ch, FirstOfConnection(Lower(ch)), ConnectionToken)
    case MatchingKeepAlive =>
      MatchValue(p, KEEP_ALIVE, Lower(ch), MatchingKeepAlive, ConnectionKeepAlive, ConnectionToken)
    case MatchingClose => MatchValue(p, CLOSE, Lower(ch), MatchingClose, ConnectionClose, ConnectionToken)
    case MatchingConnUpgrade =>
      MatchValue(p, UPGRADE, Lower(ch), MatchingConnUpgrade, ConnectionUpgrade, ConnectionToken)
    case ConnectionToken => ListElement(p, ch, ConnectionTokenStart)
    case ConnectionKeepAlive => ConnectionElement(p, ch)
    case ConnectionClose => ConnectionElement(p, ch)
    case ConnectionUpgrade => ConnectionElement(p, ch)
    case _ => p.(header := General)
  }

  /** One more byte of a value that is neither its end nor a control character. */
  function ValueChar(p: Parser, ch: char): Move
  {
    if NumberHeader(p.header) then LengthChar(p, ch)
    else if CodingHeader(p.header) then Go(CodingChar(p, ch))
    else Go(ConnectionChar(p, ch))
  }

  predicate ValueGroup(s: State) {
    s.HeaderValueDiscardWs? || s.HeaderValueDiscardWsAlmostDone? || s.HeaderValueDiscardLws? ||
    s.HeaderValueStart? || s.HeaderValue? || s.HeaderValueLws? || s.HeaderAlmostDone?
  }

  function HeaderValueMove(p: Parser, ch: char): Move
  {
    match p.state
    case HeaderValueDiscardWs =>
      if ch == ' ' || ch == '\t' then Go(p)
      else if ch == CR then To(p, HeaderValueDiscardWsAlmostDone)
      else if ch == LF then To(p, HeaderValueDiscardLws)
      else ValueStart(p, ch)
    case HeaderValueStart => ValueStart(p, ch)
    case HeaderValue =>
      if ch == CR then Move(p.(state := HeaderAlmostDone), None, UpTo(Value), false, Advance)
      else if ch == LF then Move(p.(state := HeaderAlmostDone), None, UpTo(Value), false, Again)
      else if !IsHeaderChar(ch) then Reject(InvalidHeaderToken)
      else ValueChar(p, ch)
    case HeaderAlmostDone => Expect(p, ch == LF, HeaderValueLws, LfExpected)
    case HeaderValueLws =>
      if ch == ' ' || ch == '\t' then
        Redo(if p.header.ContentLengthNum? then p.(header := ContentLengthWs) else p, HeaderValueStart)
      else Redo(p.(flags := FinishHeader(p.flags, p.header)), HeaderFieldStart)
    case HeaderValueDiscardWsAlmostDone => Expect(p, ch == LF, HeaderValueDiscardLws, Strict)
    case HeaderValueDiscardLws =>
      if ch == ' ' || ch == '\t' then To(p, HeaderValueDiscardWs)
      else if p.header.ContentLength? then Reject(InvalidContentLength)
      else Move(p.(flags := FinishHeader(p.flags, p.header), state := HeaderFieldStart),
                Some(Value), UpTo(Value), false, Again)
    case _ => Reject(InvalidInternalState)
  }

  // --------------------------------------------------------------------------------------------------------
  // The end of the headers

  /** Does the end of the stream end the message? */
  predicate NeedsEof(p: Parser) {
    if p.kind.Request? then false
    else if p.status / 100 == 1 || p.status == 204 || p.status == 304 || p.flags.skipBody then false
    else if p.transferEncoding && !p.flags.chunked then true
    else if p.flags.chunked || p.contentLength != NO_LENGTH then false
    else true
  }

  predicate ShouldKeepAlive(p: Parser) {
    && (if p.major > 0 && p.minor > 0 then !p.flags.close else p.flags.keepAlive)
    && !NeedsEof(p)
  }

  /** The state after a message: the start of another, or the end. */
  function NewMessage(p: Parser): State {
    if !ShouldKeepAlive(p) then Dead else if p.kind.Request? then StartReq else StartRes
  }

  function Complete(p: Parser, next: Next, reset: bool): Move {
    Move(p.(state := NewMessage(p)), None, Callback.Note(MessageComplete), reset, next)
  }

  predicate HasBody(p: Parser) {
    p.flags.chunked || (p.contentLength > 0 && p.contentLength != NO_LENGTH)
  }

  predicate EndState(s: State) { s.HeadersAlmostDone? || s.HeadersDone? || s.MessageDone? || s.Dead? }

  function EndOfHeaders(p: Parser, ch: char): Move
  {
    match p.state
    case Dead => if ch == CR || ch == LF then Go(p) else Reject(ClosedConnection)
    case HeadersAlmostDone =>
      if ch != LF then Reject(Strict)
      else if p.flags.trailing then
        Move(p.(state := MessageDone), None, Callback.Note(ChunkComplete), false, Again)
      else if p.transferEncoding && p.flags.contentLength then Reject(UnexpectedContentLength)
      else
        Move(p.(state := HeadersDone,
                upgrade := if p.flags.upgrade && p.flags.connUpgrade then p.kind.Request? || p.status == 101
                           else p.verb.CONNECT?),
             None, Callback.Note(HeadersComplete), false, Again)
    case HeadersDone =>
      if ch != LF then Reject(Strict)
      else if p.upgrade && (p.verb.CONNECT? || p.flags.skipBody || !HasBody(p)) then Complete(p, Exit, true)
      else if p.flags.skipBody then Complete(p, Advance, true)
      else if p.flags.chunked then Restart(p, ChunkSizeStart)
      else if p.transferEncoding then
        if p.kind.Request? then Reject(InvalidTransferEncoding) else Restart(p, BodyIdentityEof)
      else if p.contentLength == 0 then Complete(p, Advance, true)
      else if p.contentLength != NO_LENGTH then Restart(p, BodyIdentity)
      else if !NeedsEof(p) then Complete(p, Advance, true)
      else Restart(p, BodyIdentityEof)
    case MessageDone => Complete(p, if p.upgrade then Exit else Advance, false)
    case _ => Reject(InvalidInternalState)
  }

  /** What the answer 0, 1 or 2 of `on_headers_complete` changes. */
  function Answered(p: Parser, answer: int): Parser
  {
    if answer == 0 then p
    else p.(flags := p.flags.(skipBody := true), upgrade := p.upgrade || answer == 2)
  }

  // --------------------------------------------------------------------------------------------------------
  // Bodies

  predicate BodyState(s: State) {
    BodyHeld(s) || s.ChunkSizeStart? || s.ChunkSize? || s.ChunkParameters? || s.ChunkSizeAlmostDone? || s.ChunkDataDone?
  }

  /** One byte of a body. Where the program reads many bytes at once this is the effect of one of them. */
  function BodyMove(p: Parser, ch: char): Move
  {
    match p.state
    case BodyIdentity =>
      var q := p.(contentLength := if p.contentLength == 0 then 0 else p.contentLength - 1);
      if q.contentLength == 0 then Move(q.(state := MessageDone), Some(Body), Through(Body), false, Again)
      else Move(q, Some(Body), NoCallback, false, Advance)
    case BodyIdentityEof => Move(p, Some(Body), NoCallback, false, Advance)
    case ChunkSizeStart =>
      if Unhex(ch) == -1 then Reject(InvalidChunkSize) else To(p.(contentLength := Unhex(ch)), ChunkSize)
    case ChunkSize =>
      if ch == CR then To(p, ChunkSizeAlmostDone)
      else if Unhex(ch) == -1 then
        if ch == ';' || ch == ' ' then To(p, ChunkParameters) else Reject(InvalidChunkSize)
      else if (NO_LENGTH - 16) / 16 < p.contentLength then Reject(InvalidContentLength)
      else Go(p.(contentLength := p.contentLength * 16 + Unhex(ch)))
    case ChunkParameters => if ch == CR then To(p, ChunkSizeAlmostDone) else Go(p)
    case ChunkSizeAlmostDone =>
      if ch != LF then Reject(Strict)
      else if p.contentLength == 0 then
        Move(p.(flags := p.flags.(trailing := true), state := HeaderFieldStart), None, Callback.Note(ChunkHeader), true, Advance)
      else Move(p.(state := ChunkData), None, Callback.Note(ChunkHeader), true, Advance)
    case ChunkData =>
      var q := p.(contentLength := if p.contentLength == 0 then 0 else p.contentLength - 1);
      Move(if q.contentLength == 0 then q.(state := ChunkDataAlmostDone) else q, Some(Body), NoCallback, false, Advance)
    case ChunkDataAlmostDone =>
      if ch != CR then Reject(Strict)
      else Move(p.(state := ChunkDataDone), None, UpTo(Body), false, Advance)
    case ChunkDataDone =>
      if ch != LF then Reject(Strict)
      else Move(p.(state := ChunkSizeStart), None, Callback.Note(ChunkComplete), true, Advance)
    case _ => Reject(InvalidInternalState)
  }

  // --------------------------------------------------------------------------------------------------------

  /** The state switch. */
  function Transition(p: Parser, ch: char): Move
  {
    if ResponseState(p.state) then ResponseLine(p, ch)
    else if MethodState(p.state) then RequestMethod(p, ch)
    else if UrlState(p.state) then RequestUrl(p, ch)
    else if VersionState(p.state) then RequestVersion(p, ch)
    else if FieldState(p.state) then HeaderName(p, ch)
    else if ValueGroup(p.state) then HeaderValueMove(p, ch)
    else if EndState(p.state) then EndOfHeaders(p, ch)
    else BodyMove(p, ch)
  }
}
