/** Lists in header values: exactly which elements of a Transfer-Encoding and of a Connection take effect. */
module HttpLists {
  import opened HttpTypes
  import opened HttpChars
  import opened HttpTransition
  import opened HttpInvariant
  import opened HttpFeed
  import opened HttpBodies
  import H = HttpHeaders

  // --------------------------------------------------------------------------------------------------------
  // Values as lists

  predicate ValueByte(ch: char) { IsHeaderChar(ch) && ch != CR && ch != LF }

  predicate ValueBytes(s: string) { forall i | 0 <= i < |s| :: ValueByte(s[i]) }

  predicate NoComma(s: string) { forall i | 0 <= i < |s| :: s[i] != ',' }

  /** The elements of a value, as commas separate them: any text but for the commas. The first byte of a value is never taken
      as a separator, and it is not a blank. */
  predicate List(es: seq<string>) {
    && es != [] && es[0] != "" && !H.Blank(es[0][0]) && NoComma(es[0][1..])
    && (forall i | 0 < i < |es| :: NoComma(es[i]))
    && (forall i | 0 <= i < |es| :: ValueBytes(es[i]))
  }

  /** The list as a header value. */
  function ListText(es: seq<string>): string
    requires es != []
  {
    if |es| == 1 then es[0] else ListText(es[..|es| - 1]) + "," + es[|es| - 1]
  }

  lemma ListInit(es: seq<string>)
    requires List(es) && |es| > 1
    ensures List(es[..|es| - 1]) && NoComma(es[|es| - 1])
  {
    hide ValueByte;
  }

  lemma ListMore(es: seq<string>, e: string)
    requires List(es) && NoComma(e) && ValueBytes(e)
    ensures List(es + [e]) && ListText(es + [e]) == ListText(es) + "," + e
  {
    hide ValueByte, H.Blank;
    assert (es + [e])[..|es|] == es;
  }

  /** The elements of a value. */
  function Elements(v: string): (es: seq<string>)
    ensures v != "" ==> es != []
  {
    if v == "" then [] else
    var es, ch := Elements(v[..|v| - 1]), v[|v| - 1];
    if es == [] then [[ch]] else if ch == ',' then es + [""] else es[..|es| - 1] + [es[|es| - 1] + [ch]]
  }

  /** Every value on one line is the text of its list of elements. */
  lemma {:induction false} EveryValueIsList(v: string)
    requires v != "" && !H.Blank(v[0]) && ValueBytes(v)
    ensures List(Elements(v)) && ListText(Elements(v)) == v
    decreases |v|
  {
    hide ValueByte, H.Blank, List, ListText;
    var x, ch := v[..|v| - 1], v[|v| - 1];
    assert v == x + [ch];
    if x == "" {
      assert Elements(v) == [[ch]] && [ch][1..] == "" && v == [ch];
      OneElement(v);
    } else {
      EveryValueIsList(x);
      if ch == ',' {
        ListMore(Elements(x), "");
      } else {
        ElementMore(Elements(x), ch);
      }
    }
  }

  /** The elements of the text of a list are those of the list. */
  lemma {:induction false} ListIsItsValue(es: seq<string>)
    requires List(es)
    ensures ListText(es) != "" && Elements(ListText(es)) == es
    decreases |es|
  {
    hide ValueByte, H.Blank, List, Elements, ListText;
    ListParts(es);
    if |es| == 1 {
      FirstElements(es[0]);
      assert es == [es[0]] && ListText(es) == es[0] by { OneText(es); }
    } else {
      var init, e := es[..|es| - 1], es[|es| - 1];
      ListInit(es);
      ListIsItsValue(init);
      CommaElements(ListText(init));
      ElementsGrow(ListText(init) + ",", e);
      assert (init + [""])[..|init|] == init && "" + e == e && es == init + [e];
      MoreText(es);
    }
  }

  lemma OneText(es: seq<string>)
    requires |es| == 1
    ensures ListText(es) == es[0]
  {
  }

  lemma MoreText(es: seq<string>)
    requires |es| > 1
    ensures ListText(es) == ListText(es[..|es| - 1]) + "," + es[|es| - 1]
  {
  }

  lemma FirstElements(e: string)
    requires e != "" && NoComma(e[1..])
    ensures Elements(e) == [e]
  {
    var v := [e[0]];
    assert e == v + e[1..] && v[..0] == "";
    assert Elements(v) == [v];
    hide Elements;
    ElementsGrow(v, e[1..]);
  }

  lemma CommaElements(v: string)
    requires v != ""
    ensures Elements(v + ",") == Elements(v) + [""]
  {
    assert (v + ",")[..|v|] == v;
  }

  lemma ListParts(es: seq<string>)
    requires List(es)
    ensures es != [] && es[0] != "" && NoComma(es[0][1..])
  {
  }

  /** What has no comma belongs to the last element. */
  lemma {:induction false} ElementsGrow(v: string, x: string)
    requires v != "" && NoComma(x)
    ensures Elements(v) != [] && Elements(v + x) == Elements(v)[..|Elements(v)| - 1] + [Elements(v)[|Elements(v)| - 1] + x]
    decreases |x|
  {
    hide Elements;
    if x == "" {
      assert v + x == v && Elements(v)[|Elements(v)| - 1] + x == Elements(v)[|Elements(v)| - 1];
    } else {
      var y, ch := x[..|x| - 1], x[|x| - 1];
      ElementsGrow(v, y);
      assert v + x == v + y + [ch] && y + [ch] == x;
      ElementsStep(v + y, ch);
      var e := Elements(v)[|Elements(v)| - 1];
      assert e + x == e + y + [ch];
    }
  }

  lemma ElementsStep(v: string, ch: char)
    requires v != "" && ch != ','
    ensures var es := Elements(v); Elements(v + [ch]) == es[..|es| - 1] + [es[|es| - 1] + [ch]]
  {
    assert (v + [ch])[..|v|] == v;
  }

  lemma OneElement(v: string)
    requires v != "" && !H.Blank(v[0]) && ValueBytes(v) && NoComma(v[1..])
    ensures List([v]) && ListText([v]) == v
  {
  }

  lemma ElementMore(es: seq<string>, ch: char)
    requires List(es) && ch != ',' && ValueByte(ch)
    ensures var fs := es[..|es| - 1] + [es[|es| - 1] + [ch]]; List(fs) && ListText(fs) == ListText(es) + [ch]
  {
    hide ValueByte, H.Blank;
    var init, e := es[..|es| - 1], es[|es| - 1];
    var fs := init + [e + [ch]];
    assert fs[..|fs| - 1] == init;
    if init == [] {
      assert (e + [ch])[1..] == e[1..] + [ch];
    }
  }

  /** The word is a beginning of `name` in any case, or all of it with spaces behind. */
  predicate CouldBe(w: string, name: string) {
    forall k | 0 <= k < |w| :: if k < |name| then Lower(w[k]) == name[k] else w[k] == ' '
  }

  /** The word is `name` in any case, perhaps with spaces behind. */
  predicate Names(w: string, name: string) { |w| >= |name| && CouldBe(w, name) }

  lemma CouldBeMore(w: string, name: string, ch: char)
    ensures CouldBe(w + [ch], name) <==> CouldBe(w, name) && (if |w| < |name| then Lower(ch) == name[|w|] else ch == ' ')
  {
    var u := w + [ch];
    assert forall k | 0 <= k < |w| :: u[k] == w[k];
    assert u[|w|] == ch;
  }

  // --------------------------------------------------------------------------------------------------------
  // A value byte by byte

  /** The parser after one more byte of a list. */
  function ListChar(p: Parser, ch: char): Parser {
    if NumberHeader(p.header) then p else if CodingHeader(p.header) then CodingChar(p, ch) else ConnectionChar(p, ch)
  }

  /** The parser after a string of a list. */
  function ListChars(p: Parser, s: string): Parser {
    if s == "" then p else ListChar(ListChars(p, s[..|s| - 1]), s[|s| - 1])
  }

  lemma {:induction false} ListCharsJoin(p: Parser, x: string, y: string)
    ensures ListChars(p, x + y) == ListChars(ListChars(p, x), y)
    decreases |y|
  {
    hide ListChar;
    if y == "" {
      assert x + y == x;
    } else {
      assert (x + y)[..|x + y| - 1] == x + y[..|y| - 1];
      ListCharsJoin(p, x, y[..|y| - 1]);
    }
  }

  lemma ListCharsOne(p: Parser, ch: char)
    ensures ListChars(p, [ch]) == ListChar(p, ch)
  {
    hide ListChar;
    assert [ch][..0] == "";
    assert ListChars(p, "") == p;
  }

  /** No header state of a length in a list. */
  predicate InList(p: Parser) { p.state.HeaderValue? && !p.header.ContentLengthNum? && !p.header.ContentLengthWs? }

  lemma ListCharStays(p: Parser, ch: char)
    requires InList(p)
    ensures InList(ListChar(p, ch))
  {
    hide CodingChar, ConnectionChar;
    CodingStays(p, ch);
    ConnectionStays(p, ch);
  }

  lemma CodingStays(p: Parser, ch: char)
    requires InList(p)
    ensures InList(CodingChar(p, ch))
  {
    hide Lower, IsToken;
  }

  lemma ConnectionStays(p: Parser, ch: char)
    requires InList(p)
    ensures InList(ConnectionChar(p, ch))
  {
    hide Lower, IsToken, FinishHeader;
  }

  lemma NextByte(ask: Answers, p: Parser, out: seq<Event>, ch: char)
    requires InList(p) && ValueByte(ch)
    ensures Step(ask, p, out, ch) == Consumed(ListChar(p, ch), Emit(out, Data(Value, [ch])), false)
  {
    hide Emit, CodingChar, ConnectionChar, IsHeaderChar;
  }

  /** The parser after the first byte of a list. */
  function FirstOf(p: Parser, ch: char): Parser
    requires p.header.TransferEncoding? || p.header.Connection?
  {
    p.(state := HeaderValue, index := 0,
       header := if p.header.Connection? then FirstOfConnection(Lower(ch))
                 else if Lower(ch) == 'c' then MatchingChunked else TransferEncodingToken)
  }

  lemma FirstByte(ask: Answers, p: Parser, out: seq<Event>, ch: char)
    requires p.state.HeaderValueDiscardWs? && (p.header.TransferEncoding? || p.header.Connection?) && ValueByte(ch) && !H.Blank(ch)
    ensures Step(ask, p, out, ch) == Consumed(FirstOf(p, ch), Emit(out, Data(Value, [ch])), false) && InList(FirstOf(p, ch))
  {
    hide Emit, Lower, IsHeaderChar;
    FirstMove(p, ch);
    hide Transition;
  }

  lemma FirstMove(p: Parser, ch: char)
    requires p.state.HeaderValueDiscardWs? && (p.header.TransferEncoding? || p.header.Connection?) && ValueByte(ch) && !H.Blank(ch)
    ensures Transition(p, ch) == Marked(FirstOf(p, ch))
  {
    hide Lower, IsHeaderChar, ResponseLine, RequestMethod, RequestVersion, RequestUrl, HeaderName, EndOfHeaders, BodyMove;
    assert Transition(p, ch) == ValueStart(p, ch);
  }

  /** The parser after a whole value, from the byte behind the blanks on. */
  function ReadList(p: Parser, v: string): Parser
    requires v != "" && (p.header.TransferEncoding? || p.header.Connection?)
  {
    ListChars(FirstOf(p, v[0]), v[1..])
  }

  /** What has been read of a list goes on. */
  lemma ReadListJoin(p: Parser, x: string, y: string)
    requires x != "" && (p.header.TransferEncoding? || p.header.Connection?)
    ensures ReadList(p, x + y) == ListChars(ReadList(p, x), y)
  {
    hide ListChars, FirstOf;
    assert (x + y)[1..] == x[1..] + y && (x + y)[0] == x[0];
    ListCharsJoin(FirstOf(p, x[0]), x[1..], y);
  }

  lemma {:induction false} ValueRead(ask: Answers, p: Parser, out: seq<Event>, v: string)
    requires p.state.HeaderValueDiscardWs? && (p.header.TransferEncoding? || p.header.Connection?)
    requires v != "" && ValueBytes(v) && !H.Blank(v[0])
    ensures Feed(ask, p, out, v) == Fed(ReadList(p, v), Emit(out, Data(Value, v))) && InList(ReadList(p, v))
    decreases |v|
  {
    hide Step, Emit, Feed, ListChar, ListChars, Lower, ValueByte, FirstOf, ReadList;
    var x, ch := v[..|v| - 1], v[|v| - 1];
    assert v == x + [ch];
    FeedByte(ask, p, out, ch);
    if x == "" {
      assert v == [ch];
      FirstByte(ask, p, out, ch);
      ReadOne(p, ch);
    } else {
      assert v[0] == x[0];
      ValueRead(ask, p, out, x);
      var q, told := ReadList(p, x), Emit(out, Data(Value, x));
      FeedOn(ask, p, out, x, [ch], q, told);
      FeedByte(ask, q, told, ch);
      NextByte(ask, q, told, ch);
      ListCharStays(q, ch);
      ReadListJoin(p, x, [ch]);
      ListCharsOne(q, ch);
      EmitJoins(out, Value, x, [ch]);
    }
  }

  lemma ReadOne(p: Parser, ch: char)
    requires p.header.TransferEncoding? || p.header.Connection?
    ensures ReadList(p, [ch]) == FirstOf(p, ch)
  {
    assert [ch][1..] == "";
  }

  /** The end of a line, and the first byte of the next header. */
  lemma LineRead(ask: Answers, p: Parser, out: seq<Event>, ch: char)
    requires InList(p) && IsToken(ch)
    ensures var r := Feed(ask, p, out, [CR, LF, ch]);
            && r.Fed? && r.p.state.HeaderField? && r.p.flags == FinishHeader(p.flags, p.header) && r.p.transferEncoding == p.transferEncoding
            && r.out == Emit(Emit(out, Data(Value, "")), Data(Field, [ch]))
  {
    hide Emit, IsToken, FinishHeader, FirstOfName, Token, Step, Feed;
    var q, told := p.(state := HeaderAlmostDone), Emit(out, Data(Value, ""));
    var q' := q.(state := HeaderValueLws);
    EndBytes(ask, p, out, ch);
    assert [CR, LF, ch] == [CR] + [LF] + [ch];
    FeedByte(ask, p, out, CR);
    FeedOn(ask, p, out, [CR], [LF], q, told);
    FeedByte(ask, q, told, LF);
    FeedOn(ask, p, out, [CR] + [LF], [ch], q', told);
    FeedByte(ask, q', told, ch);
  }

  lemma EndBytes(ask: Answers, p: Parser, out: seq<Event>, ch: char)
    requires p.state.HeaderValue? && IsToken(ch)
    ensures var q, told := p.(state := HeaderAlmostDone), Emit(out, Data(Value, ""));
      && Step(ask, p, out, CR) == Consumed(q, told, false)
      && Step(ask, q, told, LF) == Consumed(q.(state := HeaderValueLws), told, false)
      && Step(ask, q.(state := HeaderValueLws), told, ch) ==
         Consumed(q.(state := HeaderField, index := 0, header := FirstOfName(Token(ch)), flags := FinishHeader(p.flags, p.header)),
                  Emit(told, Data(Field, [ch])), false)
  {
    hide Emit, FinishHeader, FirstOfName, Token, Step, IsToken;
    var q, told := p.(state := HeaderAlmostDone), Emit(out, Data(Value, ""));
    ReturnByte(ask, p, out);
    LineFeedByte(ask, q, told);
    NextHeaderByte(ask, q.(state := HeaderValueLws), told, ch);
  }

  lemma ReturnByte(ask: Answers, p: Parser, out: seq<Event>)
    requires p.state.HeaderValue?
    ensures Step(ask, p, out, CR) == Consumed(p.(state := HeaderAlmostDone), Emit(out, Data(Value, "")), false)
  {
    hide Emit;
  }

  lemma LineFeedByte(ask: Answers, p: Parser, out: seq<Event>)
    requires p.state.HeaderAlmostDone?
    ensures Step(ask, p, out, LF) == Consumed(p.(state := HeaderValueLws), out, false)
  {
  }

  lemma NextHeaderByte(ask: Answers, p: Parser, out: seq<Event>, ch: char)
    requires p.state.HeaderValueLws? && IsToken(ch)
    ensures Step(ask, p, out, ch) ==
            Consumed(p.(state := HeaderField, index := 0, header := FirstOfName(Token(ch)), flags := FinishHeader(p.flags, p.header)),
                     Emit(out, Data(Field, [ch])), false)
  {
    hide Emit, FinishHeader, FirstOfName, Token, Transition, Step, IsToken;
    EndMove(p, ch);
    StepAgain(ask, p, out, ch, Transition(p, ch));
    FieldByte(ask, Transition(p, ch).p, out, ch);
  }

  lemma EndMove(p: Parser, ch: char)
    requires p.state.HeaderValueLws? && IsToken(ch)
    ensures Transition(p, ch) == Redo(p.(flags := FinishHeader(p.flags, p.header)), HeaderFieldStart)
  {
    hide FinishHeader;
  }

  lemma FieldByte(ask: Answers, p: Parser, out: seq<Event>, ch: char)
    requires p.state.HeaderFieldStart? && IsToken(ch)
    ensures Step(ask, p, out, ch) ==
            Consumed(p.(state := HeaderField, index := 0, header := FirstOfName(Token(ch))), Emit(out, Data(Field, [ch])), false)
  {
    hide Emit, FirstOfName, Token;
  }

  // --------------------------------------------------------------------------------------------------------
  // One word

  /** The two headers that are read as lists. */
  datatype ListKind = Codings | Options

  function Start(kind: ListKind): HeaderState { if kind.Codings? then TransferEncodingTokenStart else ConnectionTokenStart }

  function Other(kind: ListKind): HeaderState { if kind.Codings? then TransferEncodingToken else ConnectionToken }

  /** The name that a word with this first letter may be. */
  function NameFor(kind: ListKind, c: char): string {
    if kind.Codings? then (if c == 'c' then CHUNKED else "")
    else if c == 'k' then KEEP_ALIVE else if c == 'c' then CLOSE else if c == 'u' then UPGRADE else ""
  }

  function Going(kind: ListKind, c: char): HeaderState {
    if kind.Codings? then MatchingChunked else FirstOfConnection(c)
  }

  function Done(kind: ListKind, c: char): HeaderState {
    if kind.Codings? then TransferEncodingChunked
    else if c == 'k' then ConnectionKeepAlive else if c == 'c' then ConnectionClose else ConnectionUpgrade
  }

  /** The header state after a word that is read from its start. */
  function WordState(kind: ListKind, w: string): HeaderState
    requires w != ""
  {
    var c := Lower(w[0]);
    var name := NameFor(kind, c);
    if name == "" || !CouldBe(w, name) then Other(kind) else if |w| < |name| then Going(kind, c) else Done(kind, c)
  }

  predicate Matching(h: HeaderState) { h.MatchingChunked? || h.MatchingKeepAlive? || h.MatchingClose? || h.MatchingConnUpgrade? }

  /** The parser after a word. */
  predicate After(kind: ListKind, p: Parser, q: Parser, w: string)
    requires w != ""
  {
    && q == p.(header := q.header, index := q.index) && q.header == WordState(kind, w)
    && (Matching(q.header) ==> q.index == |w| - 1)
  }

  /** The first byte of a word, at the start of a value or behind a comma. */
  lemma WordStarts(kind: ListKind, p: Parser, ch: char)
    ensures WordState(kind, [ch]) == if NameFor(kind, Lower(ch)) == "" then Other(kind) else Going(kind, Lower(ch))
  {
    hide Lower, CouldBe;
    CouldBeNone(NameFor(kind, Lower(ch)));
    CouldBeMore("", NameFor(kind, Lower(ch)), ch);
    assert "" + [ch] == [ch];
  }

  lemma CouldBeNone(name: string)
    ensures CouldBe("", name)
  {
  }

  lemma FirstOfWord(kind: ListKind, p: Parser, ch: char)
    requires p.header == Start(kind) && p.index == 0 && IsToken(Lower(ch))
    ensures After(kind, p, ListChar(p, ch), [ch])
  {
    hide IsToken, Lower, CouldBe;
    WordStarts(kind, p, ch);
    hide WordState;
  }

  lemma FirstOfValue(kind: ListKind, p: Parser, ch: char)
    requires if kind.Codings? then p.header.TransferEncoding? else p.header.Connection?
    ensures After(kind, p.(state := HeaderValue), FirstOf(p, ch), [ch])
  {
    hide Lower, CouldBe;
    WordStarts(kind, p, ch);
    hide WordState;
  }

  lemma NextOfWord(kind: ListKind, p: Parser, w: string, ch: char)
    requires w != "" && ch != ',' && p.header == WordState(kind, w) && (Matching(p.header) ==> p.index == |w| - 1)
    ensures After(kind, p, ListChar(p, ch), w + [ch])
  {
    hide Lower, CouldBe;
    assert (w + [ch])[0] == w[0];
    CouldBeMore(w, NameFor(kind, Lower(w[0])), ch);
  }

  /** The rest of a word of which `w` has been read. */
  lemma {:induction false} WordGoesOn(kind: ListKind, p: Parser, q: Parser, w: string, rest: string)
    requires w != "" && After(kind, p, q, w) && NoComma(rest)
    ensures After(kind, p, ListChars(q, rest), w + rest)
    decreases |rest|
  {
    hide ListChar, ListChars, WordState;
    if rest == "" {
      assert w + rest == w;
      NoChars(q);
    } else {
      var x, ch := rest[..|rest| - 1], rest[|rest| - 1];
      WordGoesOn(kind, p, q, w, x);
      assert rest == x + [ch] && w + rest == (w + x) + [ch];
      ListCharsJoin(q, x, [ch]);
      ListCharsOne(ListChars(q, x), ch);
      NextOfWord(kind, ListChars(q, x), w + x, ch);
    }
  }

  lemma NoChars(p: Parser)
    ensures ListChars(p, "") == p
  {
  }

  // --------------------------------------------------------------------------------------------------------
  // One element

  /** An element without the spaces in front of it. */
  function Trimmed(e: string): string {
    if e != "" && e[0] == ' ' then Trimmed(e[1..]) else e
  }

  /** How the parser comes to an element: it looks for a name, or takes it for a part of the one before, or does not look for
      names any more. */
  datatype Mode = Fresh | Passing | Lost

  /** The word of an element; the first one has no spaces in front. */
  function WordOf(first: bool, e: string): string { if first then e else Trimmed(e) }

  /** The header state after an element. */
  function ElementState(kind: ListKind, first: bool, mode: Mode, e: string): HeaderState {
    match mode
    case Lost => General
    case Passing => Other(kind)
    case Fresh =>
      var w := WordOf(first, e);
      if w == "" then Start(kind) else if !first && !IsToken(Lower(w[0])) then General else WordState(kind, w)
  }

  /** How the parser comes to the element behind a comma: only from a word that no name begins with, or from an option. Behind
      a word that may be a beginning of a name, and behind a coding that is one, the comma is not seen; behind an element that
      is empty or begins with another character than those of a token, tabs included, all is lost. */
  function Behind(kind: ListKind, h: HeaderState): Mode {
    if h == Other(kind) then Fresh
    else if kind.Options? && (h.ConnectionKeepAlive? || h.ConnectionClose? || h.ConnectionUpgrade?) then Fresh
    else if h == Start(kind) || h.General? then Lost
    else Passing
  }

  predicate Reads(p: Parser, kind: ListKind, mode: Mode) {
    match mode
    case Fresh => p.header == Start(kind) && p.index == 0
    case Passing => p.header == Other(kind)
    case Lost => p.header.General?
  }

  /** The parser after an element. */
  predicate AfterElement(p: Parser, q: Parser, h: HeaderState) {
    q == p.(header := q.header, index := q.index) && q.header == h
  }

  lemma {:induction false} NothingRead(p: Parser, s: string)
    requires p.header.General?
    ensures ListChars(p, s) == p
    decreases |s|
  {
    if s != "" {
      NothingRead(p, s[..|s| - 1]);
    }
  }

  /** A word that is not read from its start. */
  lemma {:induction false} WordPassed(kind: ListKind, p: Parser, w: string)
    requires p.header == Other(kind) && NoComma(w)
    ensures ListChars(p, w) == p
    decreases |w|
  {
    if w != "" {
      WordPassed(kind, p, w[..|w| - 1]);
    }
  }

  lemma SpaceSkipped(kind: ListKind, p: Parser)
    requires p.header == Start(kind)
    ensures ListChar(p, ' ') == p
  {
    assert !IsToken(Lower(' '));
  }

  /** Spaces in front of an element change nothing. */
  lemma {:induction false} SpacesRead(kind: ListKind, p: Parser, e: string)
    requires p.header == Start(kind)
    ensures ListChars(p, e) == ListChars(p, Trimmed(e))
    decreases |e|
  {
    hide ListChar, ListChars;
    if e != "" && e[0] == ' ' {
      assert e == [' '] + e[1..];
      ListCharsJoin(p, [' '], e[1..]);
      ListCharsOne(p, ' ');
      SpaceSkipped(kind, p);
      SpacesRead(kind, p, e[1..]);
    }
  }

  lemma {:induction false} TrimmedIs(e: string)
    ensures var w := Trimmed(e); (w != "" ==> w[0] != ' ') && (NoComma(e) ==> NoComma(w))
    decreases |e|
  {
    if e != "" && e[0] == ' ' {
      TrimmedIs(e[1..]);
    }
  }

  lemma OddStart(kind: ListKind, p: Parser, ch: char)
    requires p.header == Start(kind) && !IsToken(Lower(ch)) && ch != ' ' && ch != '\0'
    ensures ListChar(p, ch) == p.(header := General)
  {
    LowSpace(ch);
    hide Lower;
    assert IsToken('c') && IsToken('k') && IsToken('u');
    hide IsToken;
  }

  lemma LowSpace(ch: char)
    ensures Lower(ch) == ' ' ==> ch == ' ' || ch == '\0'
    ensures Lower(ch) != '\t'
  {
  }

  lemma ElementRead(kind: ListKind, p: Parser, mode: Mode, e: string)
    requires Reads(p, kind, mode) && NoComma(e) && ValueBytes(e)
    ensures AfterElement(p, ListChars(p, e), ElementState(kind, false, mode, e))
  {
    hide ListChars, WordState, IsToken, Lower;
    match mode
    case Lost => NothingRead(p, e);
    case Passing => WordPassed(kind, p, e);
    case Fresh =>
      var w := Trimmed(e);
      SpacesRead(kind, p, e);
      TrimmedIs(e);
      if w == "" {
        NoChars(p);
      } else {
        FreshRead(kind, p, e, w);
      }
  }

  lemma {:induction false} TrimmedBytes(e: string)
    requires ValueBytes(e)
    ensures ValueBytes(Trimmed(e))
    decreases |e|
  {
    hide ValueByte;
    if e != "" && e[0] == ' ' {
      TrimmedBytes(e[1..]);
    }
  }

  lemma FreshRead(kind: ListKind, p: Parser, e: string, w: string)
    requires p.header == Start(kind) && p.index == 0 && w == Trimmed(e) && w != "" && NoComma(w) && ValueBytes(e)
    ensures AfterElement(p, ListChars(p, w), if !IsToken(Lower(w[0])) then General else WordState(kind, w))
  {
    hide ListChars, ListChar, WordState, IsToken, Lower, Trimmed;
    TrimmedIs(e);
    TrimmedBytes(e);
    assert w == [w[0]] + w[1..];
    ListCharsJoin(p, [w[0]], w[1..]);
    ListCharsOne(p, w[0]);
    if IsToken(Lower(w[0])) {
      FirstOfWord(kind, p, w[0]);
      WordGoesOn(kind, p, ListChar(p, w[0]), [w[0]], w[1..]);
    } else {
      assert ValueByte(w[0]);
      OddStart(kind, p, w[0]);
      NothingRead(p.(header := General), w[1..]);
    }
  }

  // --------------------------------------------------------------------------------------------------------
  // Lists

  /** How the parser comes to the last element. */
  function ModeAt(kind: ListKind, es: seq<string>): Mode
    requires es != []
    decreases |es|, 0
  {
    if |es| == 1 then Fresh else Behind(kind, StateAfter(kind, es[..|es| - 1]))
  }

  /** The header state after a list. */
  function StateAfter(kind: ListKind, es: seq<string>): HeaderState
    requires es != []
    decreases |es|, 1
  {
    ElementState(kind, |es| == 1, ModeAt(kind, es), es[|es| - 1])
  }

  /** The flags before the last element. */
  function FlagsBefore(kind: ListKind, f: Flags, es: seq<string>): Flags
    requires es != []
  {
    if kind.Codings? || |es| == 1 then f
    else FinishHeader(FlagsBefore(kind, f, es[..|es| - 1]), StateAfter(kind, es[..|es| - 1]))
  }

  /** What a comma does. */
  lemma CommaRead(kind: ListKind, p: Parser, w: string)
    requires p.header == Start(kind) || p.header == Other(kind) || p.header.General? || (w != "" && p.header == WordState(kind, w))
    ensures var q := ListChar(p, ',');
      && q == p.(header := q.header, index := q.index, flags := q.flags)
      && q.flags == (if kind.Codings? then p.flags else FinishHeader(p.flags, p.header))
      && Reads(q, kind, Behind(kind, p.header))
  {
    hide CouldBe;
    assert Lower(',') == ',' && !IsToken(',');
    hide Lower, IsToken;
  }

  /** The parser after a list. */
  predicate AfterList(kind: ListKind, p: Parser, q: Parser, es: seq<string>)
    requires es != []
  {
    && q == p.(state := HeaderValue, header := q.header, index := q.index, flags := q.flags)
    && q.flags == FlagsBefore(kind, p.flags, es) && q.header == StateAfter(kind, es)
  }

  lemma {:induction false} ListRead(kind: ListKind, p: Parser, es: seq<string>)
    requires List(es) && if kind.Codings? then p.header.TransferEncoding? else p.header.Connection?
    ensures ListText(es) != "" && AfterList(kind, p, ReadList(p, ListText(es)), es)
    decreases |es|
  {
    hide ListChars, ListChar, WordState, FinishHeader, ElementState, Behind, FirstOf, ReadList;
    var last := es[|es| - 1];
    if |es| == 1 {
      FirstElement(kind, p, es[0]);
      assert ListText(es) == es[0] && last == es[0] && ModeAt(kind, es) == Fresh;
      assert StateAfter(kind, es) == ElementState(kind, true, Fresh, es[0]);
    } else {
      var init := es[..|es| - 1];
      ListInit(es);
      ListRead(kind, p, init);
      var q := ReadList(p, ListText(init));
      var c := ListChar(q, ',');
      StateIsWord(kind, init);
      CommaRead(kind, q, WordOf(|init| == 1, init[|init| - 1]));
      ReadListJoin(p, ListText(init), ",");
      ListCharsOne(q, ',');
      ElementRead(kind, c, ModeAt(kind, es), last);
      ReadListJoin(p, ListText(init) + ",", last);
    }
  }

  lemma FirstElement(kind: ListKind, p: Parser, e: string)
    requires e != "" && NoComma(e[1..]) && if kind.Codings? then p.header.TransferEncoding? else p.header.Connection?
    ensures AfterElement(p.(state := HeaderValue), ReadList(p, e), ElementState(kind, true, Fresh, e))
  {
    hide ListChars, FirstOf, WordState;
    FirstOfValue(kind, p, e[0]);
    WordGoesOn(kind, p.(state := HeaderValue), FirstOf(p, e[0]), [e[0]], e[1..]);
    assert [e[0]] + e[1..] == e;
  }

  /** The header state after a list belongs to its last word. */
  lemma StateIsWord(kind: ListKind, es: seq<string>)
    requires List(es)
    ensures var h, w := StateAfter(kind, es), WordOf(|es| == 1, es[|es| - 1]);
      h == Start(kind) || h.General? || (w != "" && h == WordState(kind, w)) || h == Other(kind)
  {
    hide WordState, Behind;
  }

  // --------------------------------------------------------------------------------------------------------
  // What takes effect

  /** Whether the last element is looked at as one. */
  predicate Seen(kind: ListKind, es: seq<string>)
    requires es != []
  {
    ModeAt(kind, es).Fresh?
  }

  /** The word of the last element. */
  function LastWord(es: seq<string>): string
    requires es != []
  {
    WordOf(|es| == 1, es[|es| - 1])
  }

  /** A comma behind this word begins another element: no name begins with the word, or it is an option. */
  predicate LetsGo(kind: ListKind, w: string)
    requires w != ""
  {
    var name := NameFor(kind, Lower(w[0]));
    name == "" || !CouldBe(w, name) || (kind.Options? && Names(w, name))
  }

  /** An element is looked at if the one before it was not but names are still looked for, or if that one was, is not empty,
      begins with a character of a token, unless it is the first, and does not hide the comma. */
  lemma SeenExactly(kind: ListKind, es: seq<string>)
    requires List(es) && |es| > 1
    ensures var init := es[..|es| - 1];
      var w := LastWord(init);
      match ModeAt(kind, init)
      case Lost => !Seen(kind, es)
      case Passing => Seen(kind, es)
      case Fresh => Seen(kind, es) <==> w != "" && (|init| == 1 || IsToken(Lower(w[0]))) && LetsGo(kind, w)
  {
    hide LetsGo, CouldBe, Lower, IsToken, Trimmed;
    var init := es[..|es| - 1];
    assert ModeAt(kind, es) == Behind(kind, ElementState(kind, |init| == 1, ModeAt(kind, init), init[|init| - 1]));
    hide ModeAt, WordState;
    if LastWord(init) != "" {
      BehindWord(kind, LastWord(init));
    }
  }

  lemma BehindWord(kind: ListKind, w: string)
    requires w != ""
    ensures Behind(kind, WordState(kind, w)).Fresh? <==> LetsGo(kind, w)
  {
    hide CouldBe, Lower;
  }

  lemma FirstLetter(w: string, name: string)
    requires w != "" && name != ""
    ensures CouldBe(w, name) ==> Lower(w[0]) == name[0]
  {
  }

  /** A list as the value of a header, up to the first byte of the next header. */
  lemma ListLineRead(ask: Answers, p: Parser, out: seq<Event>, es: seq<string>, ch: char)
    requires p.state.HeaderValueDiscardWs? && (p.header.TransferEncoding? || p.header.Connection?) && List(es) && IsToken(ch)
    ensures var r := Feed(ask, p, out, ListText(es) + [CR, LF, ch]);
      var kind := if p.header.TransferEncoding? then Codings else Options;
      && r.Fed? && r.p.state.HeaderField?
      && r.p.flags == FinishHeader(FlagsBefore(kind, p.flags, es), StateAfter(kind, es))
  {
    hide ListChars, Feed, FlagsBefore, StateAfter, FinishHeader, ListText, Lower, IsToken, ReadList;
    var v := ListText(es);
    ListBytes(es);
    ListRead(if p.header.TransferEncoding? then Codings else Options, p, es);
    ValueRead(ask, p, out, v);
    var q, told := ReadList(p, v), Emit(out, Data(Value, v));
    FeedOn(ask, p, out, v, [CR, LF, ch], q, told);
    LineRead(ask, q, told, ch);
  }

  lemma {:induction false} ListBytes(es: seq<string>)
    requires List(es)
    ensures var v := ListText(es); v != "" && ValueBytes(v) && !H.Blank(v[0])
    decreases |es|
  {
    if |es| > 1 {
      ListInit(es);
      ListBytes(es[..|es| - 1]);
    }
  }

  /** For every value on one line: the flag for a chunked body is set exactly when the last coding is looked at and is
      "chunked", in any case and with spaces around it. */
  lemma CodingsTakeEffect(ask: Answers, p: Parser, out: seq<Event>, es: seq<string>, ch: char)
    requires p.state.HeaderValueDiscardWs? && p.header.TransferEncoding? && List(es) && IsToken(ch)
    ensures var r := Feed(ask, p, out, ListText(es) + [CR, LF, ch]);
      && r.Fed? && r.p.state.HeaderField?
      && r.p.flags == p.flags.(chunked := p.flags.chunked || (Seen(Codings, es) && Names(LastWord(es), CHUNKED)))
  {
    hide Feed, ModeAt, CouldBe, Trimmed;
    ListLineRead(ask, p, out, es, ch);
    if LastWord(es) != "" {
      FirstLetter(LastWord(es), CHUNKED);
      assert IsToken('c');
    }
  }

  /** The flags after a Connection header. */
  function Told(f: Flags, es: seq<string>): Flags
    requires es != []
  {
    FinishHeader(FlagsBefore(Options, f, es), StateAfter(Options, es))
  }

  lemma OptionsTakeEffect(ask: Answers, p: Parser, out: seq<Event>, es: seq<string>, ch: char)
    requires p.state.HeaderValueDiscardWs? && p.header.Connection? && List(es) && IsToken(ch)
    ensures var r := Feed(ask, p, out, ListText(es) + [CR, LF, ch]);
      r.Fed? && r.p.state.HeaderField? && r.p.flags == Told(p.flags, es)
  {
    hide Feed, StateAfter;
    ListLineRead(ask, p, out, es, ch);
  }

  /** Some element that is looked at is `name`. */
  predicate Among(es: seq<string>, name: string)
    requires es != []
  {
    (Seen(Options, es) && Names(LastWord(es), name)) || (|es| > 1 && Among(es[..|es| - 1], name))
  }

  /** Each option has its effect if and only if it is among the elements that are looked at. */
  lemma {:induction false} ToldExactly(f: Flags, es: seq<string>)
    requires List(es)
    ensures Told(f, es) == f.(keepAlive := f.keepAlive || Among(es, KEEP_ALIVE), close := f.close || Among(es, CLOSE),
                              connUpgrade := f.connUpgrade || Among(es, UPGRADE))
    decreases |es|
  {
    hide StateAfter, FinishHeader, Names, Seen, LastWord;
    var g := FlagsBefore(Options, f, es);
    if |es| > 1 {
      ListInit(es);
      ToldExactly(f, es[..|es| - 1]);
    }
    OneOption(g, es);
  }

  lemma OneOption(f: Flags, es: seq<string>)
    requires es != []
    ensures FinishHeader(f, StateAfter(Options, es)) ==
            f.(keepAlive := f.keepAlive || (Seen(Options, es) && Names(LastWord(es), KEEP_ALIVE)),
               close := f.close || (Seen(Options, es) && Names(LastWord(es), CLOSE)),
               connUpgrade := f.connUpgrade || (Seen(Options, es) && Names(LastWord(es), UPGRADE)))
  {
    hide StateAfter, FinishHeader, Seen, Names, LastWord;
    FinishOnly(f, StateAfter(Options, es));
    OptionState(es);
  }

  /** The header state after a list is that of an option exactly if its last word is seen and is that option. */
  lemma OptionState(es: seq<string>)
    requires es != []
    ensures StateAfter(Options, es).ConnectionKeepAlive? <==> Seen(Options, es) && Names(LastWord(es), KEEP_ALIVE)
    ensures StateAfter(Options, es).ConnectionClose? <==> Seen(Options, es) && Names(LastWord(es), CLOSE)
    ensures StateAfter(Options, es).ConnectionUpgrade? <==> Seen(Options, es) && Names(LastWord(es), UPGRADE)
    ensures !StateAfter(Options, es).TransferEncodingChunked?
  {
    var w := LastWord(es);
    if w != "" {
      FirstLetter(w, KEEP_ALIVE);
      FirstLetter(w, CLOSE);
      FirstLetter(w, UPGRADE);
      assert IsToken('k') && IsToken('c') && IsToken('u');
    }
    hide CouldBe, ModeAt, Trimmed, Lower, IsToken;
  }

  // --------------------------------------------------------------------------------------------------------
  // Codings that are missed

  lemma {:induction false} LastOf(v: string, e: string)
    requires NoComma(e)
    ensures H.LastElement(v + "," + e) == e
    decreases |e|
  {
    if e == "" {
      assert v + "," + e == v + ",";
    } else {
      var x, ch := e[..|e| - 1], e[|e| - 1];
      assert e == x + [ch] && v + "," + e == (v + "," + x) + [ch];
      LastOf(v, x);
      H.LastElementGrows(v + "," + x, ch);
    }
  }

  /** The word "chunked", between blanks. */
  lemma EndsInChunked(v: string, lead: string)
    requires forall i | 0 <= i < |lead| :: lead[i] == '\t'
    ensures H.EndsChunked(v + "," + (lead + CHUNKED))
  {
    var e := lead + CHUNKED;
    assert NoComma(e) by {
      forall i | 0 <= i < |e| ensures e[i] != ',' {
        assert i >= |lead| ==> e[i] == CHUNKED[i - |lead|];
      }
    }
    LastOf(v, e);
    assert e[|lead|..|lead| + 7] == CHUNKED && e[|lead| + 7..] == "" && e[..|lead|] == lead;
    LoweredChunked();
    assert H.Shape(e, CHUNKED, "", |lead|);
    assert H.IsWord(H.LastElement(v + "," + e), CHUNKED, "");
  }

  lemma LoweredChunked()
    ensures H.Lowered(CHUNKED) == CHUNKED
  {
    forall i | 0 <= i < |CHUNKED| ensures Token(CHUNKED[i]) == CHUNKED[i] {
      H.ChunkedLetters(i);
    }
    H.LoweredLower(CHUNKED);
  }

  lemma Missed(ask: Answers, p: Parser, out: seq<Event>, es: seq<string>, ch: char)
    requires p.state.HeaderValueDiscardWs? && p.header.TransferEncoding? && !p.flags.chunked && List(es) && IsToken(ch)
    requires !Seen(Codings, es) || !Names(LastWord(es), CHUNKED)
    ensures var r := Feed(ask, p, out, ListText(es) + [CR, LF, ch]); r.Fed? && !r.p.flags.chunked
  {
    hide Feed, Seen, Names;
    CodingsTakeEffect(ask, p, out, es, ch);
  }

  /** Values that end in "chunked" and do not set the flag: the comma is hidden by a beginning of the word, a tab stands in
      front of it, or an element is empty. */
  lemma CodingMissed(ask: Answers, p: Parser, out: seq<Event>, ch: char)
    requires p.state.HeaderValueDiscardWs? && p.header.TransferEncoding? && !p.flags.chunked && IsToken(ch)
    ensures forall v | v == "c,chunked" || v == "gzip,\tchunked" || v == "gzip,,chunked" ::
              H.EndsChunked(v) && var r := Feed(ask, p, out, v + [CR, LF, ch]); r.Fed? && !r.p.flags.chunked
  {
    hide Feed, H.EndsChunked;
    forall v | v == "c,chunked" || v == "gzip,\tchunked" || v == "gzip,,chunked"
      ensures H.EndsChunked(v) && var r := Feed(ask, p, out, v + [CR, LF, ch]); r.Fed? && !r.p.flags.chunked
    {
      var es := if v == "c,chunked" then ["c", "chunked"] else if v == "gzip,\tchunked" then ["gzip", "\tchunked"] else ["gzip", "", "chunked"];
      ThreeLists(es);
      assert ListText(es) == v;
      Missed(ask, p, out, es, ch);
      if v == "c,chunked" {
        assert v == "c" + "," + ("" + CHUNKED);
        EndsInChunked("c", "");
      } else if v == "gzip,\tchunked" {
        assert v == "gzip" + "," + ("\t" + CHUNKED);
        EndsInChunked("gzip", "\t");
      } else {
        assert v == "gzip," + "," + ("" + CHUNKED);
        EndsInChunked("gzip,", "");
      }
    }
  }

  lemma ThreeLists(es: seq<string>)
    requires es == ["c", "chunked"] || es == ["gzip", "\tchunked"] || es == ["gzip", "", "chunked"]
    ensures List(es) && (!Seen(Codings, es) || !Names(LastWord(es), CHUNKED))
    ensures ListText(es) == if |es| == 3 then "gzip,,chunked" else if es[0] == "c" then "c,chunked" else "gzip,\tchunked"
  {
    hide Seen, Names, List;
    if es == ["c", "chunked"] {
      HiddenComma(es);
    } else if es == ["gzip", "\tchunked"] {
      TabInFront(es);
    } else {
      EmptyElement(es);
    }
  }

  lemma HiddenComma(es: seq<string>)
    requires es == ["c", "chunked"]
    ensures List(es) && !Seen(Codings, es) && ListText(es) == "c,chunked"
  {
    assert es[..1] == ["c"];
    assert CouldBe("c", CHUNKED);
    assert StateAfter(Codings, ["c"]) == MatchingChunked;
  }

  lemma GzipPasses()
    ensures StateAfter(Codings, ["gzip"]) == TransferEncodingToken
  {
  }

  lemma TabInFront(es: seq<string>)
    requires es == ["gzip", "\tchunked"]
    ensures List(es) && !Names(LastWord(es), CHUNKED) && ListText(es) == "gzip,\tchunked"
  {
    hide List, Names;
    TabList(es);
    TabIsNoLetter("\tchunked");
    TabStays("\tchunked");
    assert es[..1] == ["gzip"];
  }

  lemma TabList(es: seq<string>)
    requires es == ["gzip", "\tchunked"]
    ensures List(es)
  {
  }

  lemma TabStays(w: string)
    requires w != "" && w[0] == '\t'
    ensures Trimmed(w) == w
  {
  }

  lemma TabIsNoLetter(w: string)
    requires w != "" && w[0] == '\t'
    ensures !Names(w, CHUNKED)
  {
    assert Lower('\t') != 'c';
    FirstLetter(w, CHUNKED);
    hide CouldBe, Lower;
  }

  lemma EmptyElement(es: seq<string>)
    requires es == ["gzip", "", "chunked"]
    ensures List(es) && !Seen(Codings, es) && ListText(es) == "gzip,,chunked"
  {
    assert es[..2] == ["gzip", ""] && es[..2][..1] == ["gzip"];
    GzipPasses();
    assert StateAfter(Codings, ["gzip", ""]) == TransferEncodingTokenStart by {
      assert ["gzip", ""][..1] == ["gzip"];
      assert ModeAt(Codings, ["gzip", ""]) == Fresh;
    }
  }
}
