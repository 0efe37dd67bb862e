/** The length of a message body as section 3.3.3 of RFC 7230 rules it, from the headers of the message alone, and exactly when the
    parser follows these rules. */
module HttpRules {
  import opened HttpTypes
  import opened HttpChars
  import opened HttpTransition
  import opened HttpFeed
  import opened HttpBodies
  import opened HttpFields
  import opened HttpValues
  import opened HttpFraming
  import H = HttpHeaders
  import L = HttpLists

  // --------------------------------------------------------------------------------------------------------
  // The rules

  /** A text without the blanks at its ends. */
  function Stripped(s: string): string {
    if s == "" then s
    else if H.Blank(s[0]) then Stripped(s[1..])
    else if H.Blank(s[|s| - 1]) then Stripped(s[..|s| - 1])
    else s
  }

  /** The last coding in a list, in lower case; elements that are empty do not count. */
  function LastCoding(v: string): string {
    var e := H.LastElement(v);
    if Stripped(e) != "" then H.Lowered(Stripped(e))
    else if |e| >= |v| then ""
    else LastCoding(v[..|v| - |e| - 1])
  }

  /** The message has a Transfer-Encoding. */
  predicate Coded(hs: seq<Header>) { Any(hs, IsCoded) }

  /** The last coding over all Transfer-Encodings of the message, as if they were one list. */
  function FinalCoding(hs: seq<Header>): string {
    if hs == [] then "" else
    var h := hs[|hs| - 1];
    if IsCoded(h) && LastCoding(Whole(h)) != "" then LastCoding(Whole(h)) else FinalCoding(hs[..|hs| - 1])
  }

  /** The length a Content-Length states, if it is a number. */
  function Stated(h: Header): Option<nat> {
    var t := Stripped(Whole(h));
    if t != "" && Digits(t) then Some(DecValue(t)) else None
  }

  /** The length the message states. More than one Content-Length may be refused, and is. */
  function StatedLength(hs: seq<Header>): Option<nat> {
    if |Lengths(hs)| == 1 then Stated(Lengths(hs)[0]) else None
  }

  /** The rules, in the order of the standard, for a message whose first line is in `p`. A message with a Transfer-Encoding
      and a Content-Length ought to be handled as an error. */
  function Rules(p: Parser, hs: seq<Header>): Framing {
    if Bodyless(p) then Nothing
    else if Coded(hs) && Lengths(hs) != [] then Unreliable
    else if Coded(hs) && FinalCoding(hs) == CHUNKED then Chunks
    else if Coded(hs) then if p.kind.Response? then UntilClose else Unreliable
    else if Lengths(hs) != [] then
      (match StatedLength(hs)
       case None => Unreliable
       case Some(n) => if n == 0 then Nothing else Bytes(n))
    else if p.kind.Response? then UntilClose
    else Nothing
  }

  // --------------------------------------------------------------------------------------------------------
  // When they are followed

  /** The parser takes a Transfer-Encoding of the message to be chunked. */
  predicate TakenForChunked(hs: seq<Header>) { Any(hs, SeesChunked) }

  /** Some name begins with "transfer-encoding", but none is it. */
  predicate Misnamed(hs: seq<Header>) { !Coded(hs) && Any(hs, NamedLikeCoding) }

  /** A message to which no body is announced. */
  predicate Unannounced(hs: seq<Header>) {
    && !Any(hs, NamedLikeCoding)
    && (Lengths(hs) == [] || (|Lengths(hs)| == 1 && Taken(Lengths(hs)[0]) && Number(Lengths(hs)[0]) == 0))
  }

  /** The messages whose bodies the parser finds by the rules: no body is announced where none may be; "chunked" is looked at
      where it is the last coding, and has not been taken for it in an earlier header where it is not; a length is one the
      parser takes, and no name only begins like that of a Transfer-Encoding, unless the end of the connection is awaited
      anyway. */
  predicate Regular(p: Parser, hs: seq<Header>) {
    if Bodyless(p) then Unannounced(hs)
    else if Coded(hs) && Lengths(hs) == [] then
      (FinalCoding(hs) == CHUNKED ==> TakenForChunked(hs)) && (FinalCoding(hs) != CHUNKED ==> !TakenForChunked(hs))
    else if Coded(hs) then true
    else if Lengths(hs) == [] then Misnamed(hs) ==> p.kind.Response?
    else StatedLength(hs).Some? ==> Taken(Lengths(hs)[0]) && !Misnamed(hs)
  }

  /** The parser's choice in terms of the headers, behind the first line. */
  function Chosen(p: Parser, hs: seq<Header>): Framing
    requires AllWritten(hs)
  {
    match Notes(p, hs)
    case Refuses(_) => Unreliable
    case Reads(q) => Choice(q)
  }

  /** Nothing has been noted yet. */
  predicate Behind(p: Parser) {
    p.state.HeaderFieldStart? && (p.kind.Request? || p.kind.Response?) && p.flags == NO_FLAGS && !p.transferEncoding && p.contentLength == NO_LENGTH
  }

  // --------------------------------------------------------------------------------------------------------
  // Lengths

  predicate Trim(s: string) { s != "" && !H.Blank(s[0]) && !H.Blank(s[|s| - 1]) }

  lemma {:induction false} StrippedEnd(d: string, b: string)
    requires Trim(d) && H.Blanks(b)
    ensures Stripped(d + b) == d
    decreases |b|
  {
    hide H.Blank;
    if b == "" {
      assert d + b == d;
    } else {
      var s := d + b;
      assert s[0] == d[0] && s[|s| - 1] == b[|b| - 1];
      assert s[..|s| - 1] == d + b[..|b| - 1];
      StrippedEnd(d, b[..|b| - 1]);
    }
  }

  lemma {:induction false} StrippedLead(b: string, y: string)
    requires H.Blanks(b)
    ensures Stripped(b + y) == Stripped(y)
    decreases |b|
  {
    hide H.Blank;
    if b == "" {
      assert b + y == y;
    } else {
      assert (b + y)[0] == b[0] && (b + y)[1..] == b[1..] + y;
      StrippedLead(b[1..], y);
    }
  }

  lemma {:induction false} PaddingIsBlank(folds: seq<string>)
    requires Folds(folds) && Padding(folds)
    ensures H.Blanks(Joined(folds))
    decreases |folds|
  {
    hide L.ValueByte;
    if folds != [] {
      var line := folds[0];
      assert forall i | 0 < i < |line| :: line[i] == line[1..][i - 1];
      PaddingSplit(folds);
      PaddingIsBlank(folds[1..]);
    }
  }

  /** A length that is taken states its number. */
  lemma TakenIsStated(h: Header)
    requires Taken(h)
    ensures Stated(h) == Some(Number(h))
  {
    hide L.ValueByte, DecValue, Spaces, WellWritten;
    Written(h);
    var d := Leading(h.value);
    var s := h.value[|d|..];
    PaddingIsBlank(h.folds);
    SpacesAreBlank(s);
    DigitsTrim(d);
    assert Whole(h) == d + (s + Joined(h.folds));
    StrippedEnd(d, s + Joined(h.folds));
  }

  lemma SpacesAreBlank(s: string)
    requires Spaces(s)
    ensures H.Blanks(s)
  {
  }

  lemma DigitsTrim(d: string)
    requires d != "" && Digits(d)
    ensures Trim(d)
  {
    assert IsNum(d[0]) && IsNum(d[|d| - 1]);
  }

  // --------------------------------------------------------------------------------------------------------
  // The theorem

  /** The choice is that of the rules, if and only if the message is regular. */
  lemma ChosenByRules(p: Parser, hs: seq<Header>)
    requires Behind(p) && AllWritten(hs)
    ensures Chosen(p, hs) == Rules(p, hs) <==> Regular(p, hs)
  {
    hide WellWritten, Any, LengthTaken, Stated, DecValue, Leading, H.Lowered, LooksCoded, SeesChunked;
    NotesAre(p, hs);
    CodedIsNamed(hs);
    ChunkedIsCoded(hs);
    if |Lengths(hs)| == 1 && Taken(Lengths(hs)[0]) {
      TakenIsStated(Lengths(hs)[0]);
      NumberIsKnown(Lengths(hs)[0]);
    }
  }

  lemma CodedIsNamed(hs: seq<Header>)
    requires AllWritten(hs)
    ensures Coded(hs) ==> Any(hs, NamedLikeCoding)
  {
    if i :| 0 <= i < |hs| && IsCoded(hs[i]) {
      assert WellWritten(hs[i]);
      assert LooksCoded(hs[i].name);
      assert NamedLikeCoding(hs[i]);
    }
  }

  lemma ChunkedIsCoded(hs: seq<Header>)
    ensures Any(hs, SeesChunked) ==> Coded(hs)
  {
    if i :| 0 <= i < |hs| && SeesChunked(hs[i]) {
      assert IsCoded(hs[i]);
    }
  }

  lemma NumberIsKnown(h: Header)
    requires Taken(h)
    ensures Number(h) < NO_LENGTH
  {
    hide Spaces, Padding, WellWritten;
    var d := Leading(h.value);
    DigitBound(d[|d| - 1]);
  }

  /** The message asks for another protocol. */
  predicate Switches(p: Parser, hs: seq<Header>) {
    if Any(hs, Upgrades) && Any(hs, Seeing(UPGRADE)) then p.kind.Request? || p.status == 101 else p.verb.CONNECT?
  }

  /** What the application is told of the headers. */
  function HeadHeard(hs: seq<Header>, out: seq<Event>): seq<Event> { Emit(AllHeard(hs, out), Notify(HeadersComplete)) }

  /** What the parser awaits behind the headers. */
  lemma HeadersAwaited(ask: Answers, p: Parser, out: seq<Event>, hs: seq<Header>) returns (q: Parser)
    requires Behind(p) && AllWritten(hs) && !Switches(p, hs) && ask(HeadHeard(hs, out)) == 0
    ensures Feed(ask, p, out, HeadersText(hs) + [CR, LF]) ==
            if Notes(p, hs).Refuses? then Failed(Notes(p, hs).errno) else Awaiting(q, HeadHeard(hs, out), Choice(Summary(p, hs)))
    ensures Notes(p, hs).Reads? ==>
      Notes(p, hs).p == Summary(p, hs) && Alike(Summary(p, hs).(state := HeadersDone, upgrade := false), q)
  {
    hide Step, Feed, Emit, Awaiting, AllWritten, Notes, HeadersText, AllHeard, Any;
    assert NewLine([CR, LF]) by { LineEndIsNewLine(); }
    q := HeadersTold(ask, p, out, hs, [CR, LF]);
    NotesAre(p, hs);
    if Notes(p, hs).Reads? {
      var r := q.(state := HeadersAlmostDone);
      TrailerBegins(ask, q, AllHeard(hs, out));
      FeedByte(ask, q, AllHeard(hs, out), CR);
      assert [CR, LF] == [CR] + [LF];
      FeedOn(ask, q, AllHeard(hs, out), [CR], [LF], r, AllHeard(hs, out));
      ChoiceAwaited(ask, r, AllHeard(hs, out));
      q := HeadersRead(r);
    }
  }

  lemma LineEndIsNewLine()
    ensures NewLine([CR, LF])
  {
  }

  /** A result in which the body of the message is awaited, or all has been read, or an error has been found. */
  predicate Obeys(r: FeedResult, told: seq<Event>, f: Framing) {
    match f
    case Nothing => !r.Failed? && r.out == Emit(told, Notify(MessageComplete))
    case Chunks => r.Fed? && r.out == told && r.p.state.ChunkSizeStart?
    case Bytes(n) => r.Fed? && r.out == told && r.p.state.BodyIdentity? && r.p.contentLength == n
    case UntilClose => r.Fed? && r.out == told && r.p.state.BodyIdentityEof?
    case Unreliable => r.Failed?
  }

  lemma AwaitedObeys(p: Parser, told: seq<Event>, f: Framing, g: Framing)
    ensures Obeys(Awaiting(p, told, g), told, f) <==> f == g
  {
    hide NewMessage;
    NewIsNotBody(p);
    assert Emit(told, Notify(MessageComplete)) == told + [Notify(MessageComplete)];
  }

  /** From the headers of a message to what is awaited behind them: for all headers, where the application has no objection and
      the message does not ask for another protocol, the parser does what the rules say if and only if the message is
      regular. */
  lemma RulesFollowed(ask: Answers, p: Parser, out: seq<Event>, hs: seq<Header>)
    requires Behind(p) && AllWritten(hs) && !Switches(p, hs) && ask(HeadHeard(hs, out)) == 0
    ensures Obeys(Feed(ask, p, out, HeadersText(hs) + [CR, LF]), HeadHeard(hs, out), Rules(p, hs)) <==> Regular(p, hs)
  {
    hide Feed, Emit, Awaiting, Obeys, Behind, Switches, HeadHeard, Rules, Regular, Choice, HeadersText;
    var q := HeadersAwaited(ask, p, out, hs);
    ChosenByRules(p, hs);
    match Notes(p, hs)
    case Refuses(e) => RefusalObeys(e, HeadHeard(hs, out), Rules(p, hs));
    case Reads(r) => AwaitedObeys(q, HeadHeard(hs, out), Rules(p, hs), Choice(r));
  }

  lemma RefusalObeys(e: Errno, told: seq<Event>, f: Framing)
    ensures Obeys(Failed(e), told, f) <==> f == Unreliable
  {
  }

  // --------------------------------------------------------------------------------------------------------
  // Transfer-Encodings

  lemma {:induction false} LastElementJoin(x: string, y: string)
    ensures H.LastElement(x + y) == if L.NoComma(y) then H.LastElement(x) + y else H.LastElement(y)
    decreases |y|
  {
    hide H.LastElement;
    if y == "" {
      assert x + y == x && H.LastElement(x) + y == H.LastElement(x);
    } else {
      var z, ch := y[..|y| - 1], y[|y| - 1];
      assert y == z + [ch] && x + y == (x + z) + [ch];
      CommaFree(z, [ch]);
      LastElementJoin(x, z);
      H.LastElementGrows(x + z, ch);
      H.LastElementGrows(z, ch);
    }
  }

  lemma LastElementShort(v: string)
    ensures |H.LastElement(v)| <= |v| && (|H.LastElement(v)| == |v| <==> L.NoComma(v))
    decreases |v|
  {
    if v != "" {
      LastElementShort(v[..|v| - 1]);
      assert v == v[..|v| - 1] + [v[|v| - 1]];
    }
  }

  /** A blank behind an element that is empty so far changes nothing. */
  lemma {:induction false} BlankIn(v: string, b: char, y: string)
    requires H.Blank(b) && H.Blanks(H.LastElement(v))
    ensures LastCoding(v + [b] + y) == LastCoding(v + y)
    decreases |y|
  {
    hide H.Blank, H.LastElement, Stripped, H.Lowered, LastCoding, L.NoComma;
    if L.NoComma(y) {
      BlankInLast(v, b, y);
    } else {
      LastElementJoin(v, y);
      LastElementJoin(v + [b], y);
      LastElementShort(y);
      var e := H.LastElement(y);
      var z := y[..|y| - |e| - 1];
      BlankIn(v, b, z);
      CodingBefore(v, y);
      CodingBefore(v + [b], y);
    }
  }

  lemma CodingBefore(v: string, y: string)
    requires var e := H.LastElement(y); H.LastElement(v + y) == e && |e| < |y|
    ensures var e := H.LastElement(y);
      LastCoding(v + y) == if Stripped(e) != "" then H.Lowered(Stripped(e)) else LastCoding(v + y[..|y| - |e| - 1])
  {
    hide H.LastElement, Stripped, H.Lowered, LastCoding;
    LastCodingIs(v + y);
    var e := H.LastElement(y);
    assert (v + y)[..|v + y| - |e| - 1] == v + y[..|y| - |e| - 1];
  }

  lemma BlankInLast(v: string, b: char, y: string)
    requires H.Blank(b) && H.Blanks(H.LastElement(v)) && L.NoComma(y)
    ensures LastCoding(v + [b] + y) == LastCoding(v + y)
  {
    assert b != ',';
    BlankElement(v, b);
    hide H.Blank, H.LastElement, Stripped, H.Lowered, LastCoding;
    CodingAtEnd(v, y);
    CodingAtEnd(v + [b], y);
    LastElementShort(v);
    var n := |v| - |H.LastElement(v)| - 1;
    if n >= 0 {
      assert (v + [b])[..n] == v[..n];
    }
  }

  lemma BlankElement(v: string, b: char)
    requires H.Blank(b) && H.Blanks(H.LastElement(v))
    ensures H.LastElement(v + [b]) == H.LastElement(v) + [b] && H.Blanks(H.LastElement(v + [b]))
  {
    H.LastElementGrows(v, b);
  }

  /** The last element is empty but for `y`. */
  lemma CodingAtEnd(v: string, y: string)
    requires H.Blanks(H.LastElement(v)) && L.NoComma(y)
    ensures |H.LastElement(v)| <= |v|
    ensures LastCoding(v + y) ==
            if Stripped(y) != "" then H.Lowered(Stripped(y))
            else if |H.LastElement(v)| == |v| then "" else LastCoding(v[..|v| - |H.LastElement(v)| - 1])
  {
    hide H.Blank, H.LastElement, Stripped, H.Lowered, LastCoding;
    LastElementJoin(v, y);
    LastElementShort(v);
    LastCodingIs(v + y);
    var e := H.LastElement(v);
    StrippedLead(e, y);
    if |e| < |v| {
      assert (v + y)[..|v + y| - |e + y| - 1] == v[..|v| - |e| - 1];
    }
  }

  lemma LastCodingIs(v: string)
    ensures var e := H.LastElement(v);
      LastCoding(v) == if Stripped(e) != "" then H.Lowered(Stripped(e)) else if |e| >= |v| then "" else LastCoding(v[..|v| - |e| - 1])
  {
  }

  lemma CommaFree(x: string, y: string)
    ensures L.NoComma(x + y) <==> L.NoComma(x) && L.NoComma(y)
  {
    var s := x + y;
    assert forall i | 0 <= i < |x| :: s[i] == x[i];
    assert forall i | 0 <= i < |y| :: s[|x| + i] == y[i];
  }

  /** A value that ends in "chunked" has it as its last coding. */
  lemma EndIsLast(v: string)
    requires H.EndsChunked(v)
    ensures LastCoding(v) == CHUNKED
  {
    hide H.Blank, H.Lowered, H.LastElement, Stripped;
    var e := H.LastElement(v);
    var after :| H.IsWord(e, CHUNKED, after);
    var lead :| 0 <= lead <= |e| - 7 - |after| && H.Shape(e, CHUNKED, after, lead);
    var w := e[lead..lead + 7];
    assert e == e[..lead] + (w + after);
    WordTrims(w);
    StrippedLead(e[..lead], w + after);
    StrippedEnd(w, after);
  }

  lemma LoweredAt(s: string, k: nat)
    requires k < |s|
    ensures |H.Lowered(s)| == |s| && H.Lowered(s)[k] == Token(s[k])
    decreases |s|
  {
    hide Token;
    LoweredLength(s);
    if k < |s| - 1 {
      LoweredAt(s[..|s| - 1], k);
      LoweredLength(s[..|s| - 1]);
    } else {
      LoweredLength(s[..|s| - 1]);
    }
  }

  lemma WordTrims(w: string)
    requires H.Lowered(w) == CHUNKED
    ensures Trim(w)
  {
    hide H.Lowered;
    LoweredLength(w);
    LoweredAt(w, 0);
    LoweredAt(w, 6);
  }

  /** The header state fits the value that has been read. */
  lemma {:induction false} ReadFits(p: Parser, v: string)
    requires p.header.TransferEncoding? && v != "" && L.ValueBytes(v)
    ensures var h := L.ReadList(p, v).header; (CodingHeader(h) || h.General?) && H.CodingFits(h, L.ReadList(p, v).index, v)
    decreases |v|
  {
    hide L.ReadList, L.ListChar, H.CodingFits, CodingHeader, Lower, IsHeaderChar;
    var x, ch := v[..|v| - 1], v[|v| - 1];
    assert v == x + [ch] && L.ValueByte(ch);
    if x == "" {
      assert v == [ch];
      L.ReadOne(p, ch);
      FirstFits(p, ch);
    } else {
      ReadFits(p, x);
      L.ReadListJoin(p, x, [ch]);
      L.ListCharsOne(L.ReadList(p, x), ch);
      NextFits(L.ReadList(p, x), ch, x);
    }
  }

  lemma FirstFits(p: Parser, ch: char)
    requires p.header.TransferEncoding?
    ensures var h := L.FirstOf(p, ch).header; CodingHeader(h) && H.CodingFits(h, L.FirstOf(p, ch).index, [ch])
  {
    hide Lower, H.IsWord, H.LastElement;
    if Lower(ch) == 'c' {
      H.OneLetter(ch);
    }
  }

  lemma NextFits(p: Parser, ch: char, v: string)
    requires (CodingHeader(p.header) || p.header.General?) && H.CodingFits(p.header, p.index, v) && IsHeaderChar(ch)
    ensures var q := L.ListChar(p, ch); (CodingHeader(q.header) || q.header.General?) && H.CodingFits(q.header, q.index, v + [ch])
  {
    if CodingHeader(p.header) {
      H.CodingCharFits(p, ch, v);
    }
    hide H.IsWord, H.EndsChunked, H.LastElement, IsHeaderChar, Lower, IsToken;
  }

  /** "chunked" is only seen where it is the last coding. */
  lemma {:induction false} SeenIsLast(v: string, folds: seq<string>)
    requires v != "" && !H.Blank(v[0]) && L.ValueBytes(v) && Folds(folds) && ChunkedSeen(v, folds)
    ensures LastCoding(v + Joined(folds)) == CHUNKED
    decreases |folds|
  {
    hide H.Blank, L.ValueByte, L.Elements, L.List, L.ListText, L.Seen, L.Names, L.LastWord, L.StateAfter, L.FlagsBefore, L.ReadList, LastCoding, H.LastElement;
    hide H.EndsChunked;
    var es := L.Elements(v);
    var p := Init(Request).(header := TransferEncoding);
    L.EveryValueIsList(v);
    L.ListRead(L.Codings, p, es);
    ReadFits(p, v);
    if folds == [] {
      CodingStateIs(es);
      EndIsLast(v);
      assert v + Joined(folds) == v;
    } else {
      var line, rest := folds[0], folds[1..];
      OpenIs(L.Codings, es);
      SeenIsLast(v + line[1..], rest);
      assert v + line[1..] + Joined(rest) == v + (line[1..] + Joined(rest));
      assert v + Joined(folds) == v + [line[0]] + (line[1..] + Joined(rest));
      BlankIn(v, line[0], line[1..] + Joined(rest));
    }
  }

  lemma SeesItsLast(h: Header)
    requires SeesChunked(h)
    ensures LastCoding(Whole(h)) == CHUNKED && IsCoded(h)
  {
    hide ChunkedSeen, LastCoding, WellWritten, H.Lowered;
    Written(h);
    SeenIsLast(h.value, h.folds);
  }

  /** Where "chunked" is wrongly taken for the last coding, an earlier header has set the flag. */
  lemma {:induction false} EarlierSets(hs: seq<Header>) returns (i: nat, j: nat)
    requires TakenForChunked(hs) && FinalCoding(hs) != CHUNKED
    ensures i < j < |hs| && SeesChunked(hs[i]) && IsCoded(hs[j]) && LastCoding(Whole(hs[j])) !in {"", CHUNKED}
    decreases |hs|
  {
    hide SeesChunked, LastCoding, IsCoded;
    i :| 0 <= i < |hs| && SeesChunked(hs[i]);
    SeesItsLast(hs[i]);
    j := |hs| - 1;
    if !IsCoded(hs[j]) || LastCoding(Whole(hs[j])) == "" {
      var init := hs[..j];
      assert CHUNKED != "" by { assert |CHUNKED| == 7; }
      assert i < j && SeesChunked(init[i]);
      i, j := EarlierSets(init);
    }
  }

  /** In a message with one Transfer-Encoding, "chunked" is missed or rightly seen, and never wrongly. */
  lemma OneCoding(p: Parser, hs: seq<Header>, k: nat)
    requires AllWritten(hs) && !Bodyless(p) && Lengths(hs) == [] && k < |hs|
    requires IsCoded(hs[k]) && forall i | 0 <= i < |hs| && i != k :: !IsCoded(hs[i])
    ensures Regular(p, hs) <==> (LastCoding(Whole(hs[k])) == CHUNKED ==> SeesChunked(hs[k]))
  {
    hide WellWritten, LastCoding, H.Lowered, IsCoded, Bodyless;
    OnlyCoding(hs, k);
    SeesIsCoded(hs);
    if SeesChunked(hs[k]) {
      SeesItsLast(hs[k]);
    }
    hide SeesChunked;
    assert TakenForChunked(hs) <==> SeesChunked(hs[k]);
    hide TakenForChunked, FinalCoding;
  }

  lemma SeesIsCoded(hs: seq<Header>)
    ensures forall i | 0 <= i < |hs| :: SeesChunked(hs[i]) ==> IsCoded(hs[i])
  {
    hide WellWritten, H.Lowered;
  }

  lemma {:induction false} OnlyCoding(hs: seq<Header>, k: nat)
    requires k < |hs| && IsCoded(hs[k]) && forall i | 0 <= i < |hs| && i != k :: !IsCoded(hs[i])
    ensures FinalCoding(hs) == LastCoding(Whole(hs[k]))
    decreases |hs|
  {
    hide LastCoding, H.Lowered, IsCoded;
    var init := hs[..|hs| - 1];
    if k == |hs| - 1 {
      NoCoding(init);
    } else {
      assert init[k] == hs[k];
      OnlyCoding(init, k);
    }
  }

  lemma {:induction false} NoCoding(hs: seq<Header>)
    requires forall i | 0 <= i < |hs| :: !IsCoded(hs[i])
    ensures FinalCoding(hs) == ""
    decreases |hs|
  {
    hide LastCoding, IsCoded;
    if hs != [] {
      NoCoding(hs[..|hs| - 1]);
    }
  }
}
