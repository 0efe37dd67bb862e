/** Whole headers: what the application is told of a header is what was written, and exactly what the parser notes of it or
    why it refuses it. */
module HttpValues {
  import opened HttpTypes
  import opened HttpChars
  import opened HttpTransition
  import opened HttpInvariant
  import opened HttpFeed
  import opened HttpBodies
  import opened HttpFields
  import H = HttpHeaders
  import L = HttpLists

  /** A header as it is written: its name and the colon, blanks, perhaps over several lines, the value, and the lines
      that belong to it. */
  datatype Header = Header(name: string, lead: seq<string>, gap: string, value: string, folds: seq<string>)

  predicate WellWritten(h: Header) {
    && IsName(h.name) && Gap(h.lead, h.gap) && L.ValueBytes(h.value) && Folds(h.folds)
    && (if h.value == "" then h.folds == [] else !H.Blank(h.value[0]))
  }

  function HeaderText(h: Header): string {
    h.name + ":" + (LinesText(h.lead) + h.gap) + h.value + [CR, LF] + LinesText(h.folds)
  }

  /** The value on all lines; a line begins with a blank. */
  function Whole(h: Header): string { h.value + Joined(h.folds) }

  /** What the application is told of a header. */
  function Heard(h: Header, out: seq<Event>): seq<Event> { Emit(Emit(out, Data(Field, h.name)), Data(Value, Whole(h))) }

  // --------------------------------------------------------------------------------------------------------
  // Lists on several lines

  /** The list ends with an empty element that is looked at; the next line is read as if it stood there. Any other line that
      belongs to a value is passed over. */
  predicate Open(kind: L.ListKind, es: seq<string>)
    requires es != []
  {
    L.Seen(kind, es) && L.LastWord(es) == ""
  }

  lemma OpenIs(kind: L.ListKind, es: seq<string>)
    requires es != []
    ensures Open(kind, es) <==> L.StateAfter(kind, es) == L.Start(kind)
  {
    hide L.ModeAt, L.CouldBe, L.Trimmed;
  }

  /** The flags after a list on several lines. */
  function ListFlags(kind: L.ListKind, f: Flags, v: string, folds: seq<string>): Flags
    requires v != "" && Folds(folds)
    decreases |folds|
  {
    var es := L.Elements(v);
    if folds == [] then FinishHeader(L.FlagsBefore(kind, f, es), L.StateAfter(kind, es))
    else if Open(kind, es) then ListFlags(kind, f, v + folds[0][1..], folds[1..])
    else L.FlagsBefore(kind, f, es)
  }

  /** The matcher is at rest at the start of an element. */
  predicate AtRest(p: Parser) { p.header.TransferEncodingTokenStart? || p.header.ConnectionTokenStart? ==> p.index == 0 }

  lemma RestKept(p: Parser, ch: char)
    requires AtRest(p)
    ensures AtRest(L.ListChar(p, ch))
  {
    hide Lower, IsToken, FinishHeader;
  }

  lemma {:induction false} AllAtRest(p: Parser, s: string)
    requires AtRest(p)
    ensures AtRest(L.ListChars(p, s))
    decreases |s|
  {
    hide L.ListChar, AtRest;
    if s != "" {
      AllAtRest(p, s[..|s| - 1]);
      RestKept(L.ListChars(p, s[..|s| - 1]), s[|s| - 1]);
    }
  }

  lemma ListAtRest(p: Parser, v: string)
    requires v != "" && (p.header.TransferEncoding? || p.header.Connection?)
    ensures AtRest(L.ReadList(p, v)) && Going(L.ReadList(p, v).header)
  {
    hide L.ListChars, Lower;
    assert AtRest(L.FirstOf(p, v[0])) && Going(L.FirstOf(p, v[0]).header);
    hide L.FirstOf, AtRest, Going;
    AllAtRest(L.FirstOf(p, v[0]), v[1..]);
    AllGoesOn(L.FirstOf(p, v[0]), v[1..]);
  }

  /** Nothing is read any more. */
  lemma {:induction false} Passed(p: Parser, folds: seq<string>)
    requires p.header.General? && Folds(folds)
    ensures var q := FoldsRead(p, folds); q.header.General? && q.flags == p.flags
    decreases |folds|
  {
    hide L.ListChars, H.Blank;
    if folds != [] {
      L.NothingRead(FoldStart(p), folds[0][1..]);
      Passed(FoldRead(p, folds[0]), folds[1..]);
    }
  }

  lemma {:induction false} ListFolds(kind: L.ListKind, p: Parser, v: string, folds: seq<string>)
    requires v != "" && !H.Blank(v[0]) && L.ValueBytes(v) && Folds(folds)
    requires if kind.Codings? then p.header.TransferEncoding? else p.header.Connection?
    ensures var q := FoldsRead(L.ReadList(p, v).(state := HeaderValueLws), folds);
      FinishHeader(q.flags, q.header) == ListFlags(kind, p.flags, v, folds)
    decreases |folds|
  {
    hide L.ListChars, L.ReadList, L.FlagsBefore, L.StateAfter, FinishHeader, H.Blank, L.ValueByte, L.List, L.ListText, L.Elements, Open;
    var es, q := L.Elements(v), L.ReadList(p, v);
    L.EveryValueIsList(v);
    L.ListRead(kind, p, es);
    if folds != [] {
      var line, start := folds[0], FoldStart(q.(state := HeaderValueLws));
      OpenIs(kind, es);
      if Open(kind, es) {
        ListAtRest(p, v);
        assert start == q;
        L.ReadListJoin(p, v, line[1..]);
        ListFolds(kind, p, v + line[1..], folds[1..]);
        ListGoesOn(p, v, line, q);
      } else {
        NotOpen(kind, p, v, q);
        L.NothingRead(start, line[1..]);
        Passed(FoldRead(q.(state := HeaderValueLws), line), folds[1..]);
        GeneralFinish(L.FlagsBefore(kind, p.flags, es));
      }
    }
  }

  lemma GeneralFinish(f: Flags)
    ensures FinishHeader(f, General) == f
  {
  }

  lemma ListGoesOn(p: Parser, v: string, line: string, q: Parser)
    requires v != "" && line != "" && (p.header.TransferEncoding? || p.header.Connection?) && q == L.ReadList(p, v)
    requires FoldStart(q.(state := HeaderValueLws)) == q
    ensures FoldRead(q.(state := HeaderValueLws), line) == L.ReadList(p, v + line[1..]).(state := HeaderValueLws)
  {
    hide L.ListChars, L.ReadList, FoldStart;
    L.ReadListJoin(p, v, line[1..]);
  }

  lemma NotOpen(kind: L.ListKind, p: Parser, v: string, q: Parser)
    requires v != "" && if kind.Codings? then p.header.TransferEncoding? else p.header.Connection?
    requires q == L.ReadList(p, v) && L.AfterList(kind, p, q, L.Elements(v)) && q.header != L.Start(kind)
    ensures FoldStart(q.(state := HeaderValueLws)).header.General?
  {
    hide L.ListChars, L.ReadList, L.FlagsBefore, FinishHeader, L.Elements, L.ModeAt, L.CouldBe, L.Trimmed;
  }

  /** "chunked" is seen in a Transfer-Encoding: it is the last coding, and it is looked at. */
  predicate ChunkedSeen(v: string, folds: seq<string>)
    requires v != "" && Folds(folds)
    decreases |folds|
  {
    var es := L.Elements(v);
    if folds == [] then L.Seen(L.Codings, es) && L.Names(L.LastWord(es), CHUNKED)
    else Open(L.Codings, es) && ChunkedSeen(v + folds[0][1..], folds[1..])
  }

  /** The option is seen in a Connection: some element that is looked at names it. */
  predicate OptionSeen(v: string, folds: seq<string>, name: string)
    requires v != "" && Folds(folds)
    decreases |folds|
  {
    var es := L.Elements(v);
    if folds == [] then L.Among(es, name)
    else if Open(L.Options, es) then OptionSeen(v + folds[0][1..], folds[1..], name)
    else |es| > 1 && L.Among(es[..|es| - 1], name)
  }

  lemma CodingStateIs(es: seq<string>)
    requires es != []
    ensures var h := L.StateAfter(L.Codings, es);
      && (h.TransferEncodingChunked? <==> L.Seen(L.Codings, es) && L.Names(L.LastWord(es), CHUNKED))
      && !h.ConnectionKeepAlive? && !h.ConnectionClose? && !h.ConnectionUpgrade?
  {
    if L.LastWord(es) != "" {
      L.FirstLetter(L.LastWord(es), CHUNKED);
      assert IsToken('c');
    }
    hide L.ModeAt, L.CouldBe, L.Trimmed, IsToken, Lower;
  }

  lemma CodingState(f: Flags, es: seq<string>)
    requires es != []
    ensures FinishHeader(f, L.StateAfter(L.Codings, es)) ==
            f.(chunked := f.chunked || (L.Seen(L.Codings, es) && L.Names(L.LastWord(es), CHUNKED)))
  {
    hide L.StateAfter, FinishHeader, L.Seen, L.Names, L.LastWord;
    CodingStateIs(es);
    FinishOnly(f, L.StateAfter(L.Codings, es));
  }

  lemma {:induction false} CodingFlags(f: Flags, v: string, folds: seq<string>)
    requires v != "" && Folds(folds)
    ensures ListFlags(L.Codings, f, v, folds) == f.(chunked := f.chunked || ChunkedSeen(v, folds))
    decreases |folds|
  {
    hide L.Elements, L.StateAfter, Open, L.Seen, L.Names, L.LastWord, H.Blank, L.ValueByte, FinishHeader;
    CodingState(f, L.Elements(v));
    if folds != [] {
      CodingFlags(f, v + folds[0][1..], folds[1..]);
    }
  }

  lemma {:induction false} OptionFlags(f: Flags, v: string, folds: seq<string>)
    requires v != "" && !H.Blank(v[0]) && L.ValueBytes(v) && Folds(folds)
    ensures ListFlags(L.Options, f, v, folds) ==
            f.(keepAlive := f.keepAlive || OptionSeen(v, folds, KEEP_ALIVE), close := f.close || OptionSeen(v, folds, CLOSE),
               connUpgrade := f.connUpgrade || OptionSeen(v, folds, UPGRADE))
    decreases |folds|
  {
    hide L.Elements, L.StateAfter, L.FlagsBefore, L.Told, Open, L.Among, L.List, H.Blank, L.ValueByte, FinishHeader;
    var es := L.Elements(v);
    L.EveryValueIsList(v);
    if folds == [] {
      L.ToldExactly(f, es);
      ToldIs(f, es);
    } else if Open(L.Options, es) {
      assert L.ValueBytes(v + folds[0][1..]);
      OptionFlags(f, v + folds[0][1..], folds[1..]);
    } else {
      FlagsPassed(f, es);
    }
  }

  lemma ToldIs(f: Flags, es: seq<string>)
    requires es != []
    ensures L.Told(f, es) == FinishHeader(L.FlagsBefore(L.Options, f, es), L.StateAfter(L.Options, es))
    ensures L.FlagsBefore(L.Options, f, es) == if |es| == 1 then f else L.Told(f, es[..|es| - 1])
  {
    hide L.StateAfter, FinishHeader;
  }

  /** The flags before the last element. */
  lemma FlagsPassed(f: Flags, es: seq<string>)
    requires L.List(es)
    ensures L.FlagsBefore(L.Options, f, es) ==
            if |es| == 1 then f
            else f.(keepAlive := f.keepAlive || L.Among(es[..|es| - 1], KEEP_ALIVE), close := f.close || L.Among(es[..|es| - 1], CLOSE),
                    connUpgrade := f.connUpgrade || L.Among(es[..|es| - 1], UPGRADE))
  {
    ToldIs(f, es);
    if |es| > 1 {
      L.ListInit(es);
      L.ToldExactly(f, es[..|es| - 1]);
    }
    hide L.StateAfter, L.FlagsBefore, L.Told, L.Among, L.List, FinishHeader;
  }

  // --------------------------------------------------------------------------------------------------------
  // Lengths

  /** The digits a value begins with. */
  function Leading(v: string): (d: string)
    ensures Digits(d) && |d| <= |v| && v[..|d|] == d && (|d| < |v| ==> !IsNum(v[|d|]))
  {
    if v != "" && IsNum(v[0]) then [v[0]] + Leading(v[1..]) else ""
  }

  predicate Spaces(s: string) { forall i | 0 <= i < |s| :: s[i] == ' ' }

  predicate Padding(folds: seq<string>)
    requires Folds(folds)
  {
    forall i | 0 <= i < |folds| :: Spaces(folds[i][1..])
  }

  /** A length that the parser takes: digits, which are no number beyond the bound, and spaces. */
  predicate LengthTaken(v: string, folds: seq<string>)
    requires Folds(folds)
  {
    var d := Leading(v);
    d != "" && DecValue(d[..|d| - 1]) <= (NO_LENGTH - 10) / 10 && Spaces(v[|d|..]) && Padding(folds)
  }

  predicate LengthHeader(h: HeaderState) { h.ContentLengthNum? || h.ContentLengthWs? }

  lemma LengthByte(ask: Answers, p: Parser, out: seq<Event>, ch: char)
    requires p.state.HeaderValue? && LengthHeader(p.header) && L.ValueByte(ch) && (p.header.ContentLengthNum? ==> !IsNum(ch))
    ensures Step(ask, p, out, ch) ==
            if ch == ' ' then Consumed(p.(header := ContentLengthWs), Emit(out, Data(Value, [ch])), false) else Refused(InvalidContentLength)
  {
    hide Emit, IsNum, IsHeaderChar;
  }

  /** What stands behind the digits. */
  lemma {:induction false} PaddingRead(ask: Answers, p: Parser, out: seq<Event>, w: string, s: string)
    requires p.state.HeaderValue? && LengthHeader(p.header) && L.ValueBytes(s)
    requires s == "" || p.header.ContentLengthWs? || !IsNum(s[0])
    ensures Feed(ask, p, Emit(out, Data(Value, w)), s) ==
            if Spaces(s) then Fed(p.(header := if s == "" then p.header else ContentLengthWs), Emit(out, Data(Value, w + s)))
            else Failed(InvalidContentLength)
    decreases |s|
  {
    hide Step, Emit, L.ValueByte, IsNum;
    if s == "" {
      assert w + s == w;
    } else {
      var told := Emit(out, Data(Value, w));
      LengthByte(ask, p, told, s[0]);
      if s[0] == ' ' {
        EmitJoins(out, Value, w, [s[0]]);
        PaddingRead(ask, p.(header := ContentLengthWs), out, w + [s[0]], s[1..]);
        assert w + [s[0]] + s[1..] == w + s;
        assert Spaces(s) <==> Spaces(s[1..]) by { SpacesSplit(s); }
      }
    }
  }

  lemma SpacesSplit(s: string)
    requires s != "" && s[0] == ' '
    ensures Spaces(s) <==> Spaces(s[1..])
  {
    assert s == [s[0]] + s[1..];
    if Spaces(s[1..]) {
      forall i | 0 < i < |s| ensures s[i] == ' ' {
        assert s[i] == s[1..][i - 1];
      }
    }
  }

  lemma LengthFold(ask: Answers, p: Parser, out: seq<Event>, ch: char)
    requires p.state.HeaderValueLws? && LengthHeader(p.header) && H.Blank(ch)
    ensures Step(ask, p, out, ch) == Consumed(p.(state := HeaderValue, index := 0, header := ContentLengthWs), Emit(out, Data(Value, [ch])), false)
  {
    hide Emit, ValueStart;
    var q := p.(header := ContentLengthWs, state := HeaderValueStart);
    FoldMove(p, ch);
    FoldMove(p.(header := ContentLengthWs), ch);
    PaddingStart(q, ch);
    hide Transition;
    StepAgain(ask, p, out, ch, Transition(p, ch));
  }

  lemma PaddingStart(p: Parser, ch: char)
    requires p.header.ContentLengthWs?
    ensures ValueStart(p, ch) == Marked(p.(state := HeaderValue, index := 0))
  {
  }

  /** The parser when lines have been read behind a length. */
  function Padded(p: Parser, folds: seq<string>): Parser {
    if folds == [] then p else p.(index := 0, header := ContentLengthWs)
  }

  lemma {:induction false} LengthFolds(ask: Answers, p: Parser, out: seq<Event>, w: string, folds: seq<string>)
    requires p.state.HeaderValueLws? && LengthHeader(p.header) && Folds(folds)
    ensures Feed(ask, p, Emit(out, Data(Value, w)), LinesText(folds)) ==
            if Padding(folds) then Fed(Padded(p, folds), Emit(out, Data(Value, w + Joined(folds)))) else Failed(InvalidContentLength)
    decreases |folds|
  {
    hide Step, Emit, Feed, H.Blank, L.ValueByte, Spaces;
    var told := Emit(out, Data(Value, w));
    if folds == [] {
      FeedNothing(ask, p, told);
      assert w + "" == w;
    } else {
      var line, rest := folds[0], folds[1..];
      var q := p.(index := 0, header := ContentLengthWs);
      assert Padding(folds) <==> Spaces(line[1..]) && Padding(rest) by { PaddingSplit(folds); }
      LengthLine(ask, p, out, w, line);
      FeedSplits(ask, p, told, line + [CR, LF], LinesText(rest));
      if Spaces(line[1..]) {
        LengthFolds(ask, q, out, w + line, rest);
        assert w + line + Joined(rest) == w + (line + Joined(rest));
      }
    }
  }

  lemma PaddingSplit(folds: seq<string>)
    requires folds != [] && Folds(folds)
    ensures Padding(folds) <==> Spaces(folds[0][1..]) && Padding(folds[1..])
  {
    hide Spaces, H.Blank, L.ValueByte;
    if Padding(folds[1..]) {
      forall i | 0 < i < |folds| ensures folds[i] == folds[1..][i - 1] {
      }
    }
  }

  lemma LengthLine(ask: Answers, p: Parser, out: seq<Event>, w: string, line: string)
    requires p.state.HeaderValueLws? && LengthHeader(p.header) && line != "" && H.Blank(line[0]) && L.ValueBytes(line)
    ensures Feed(ask, p, Emit(out, Data(Value, w)), line + [CR, LF]) ==
            if Spaces(line[1..]) then Fed(p.(index := 0, header := ContentLengthWs), Emit(out, Data(Value, w + line)))
            else Failed(InvalidContentLength)
  {
    hide Step, Emit, Feed, H.Blank, L.ValueByte, Spaces;
    var told, q := Emit(out, Data(Value, w)), p.(state := HeaderValue, index := 0, header := ContentLengthWs);
    LengthFold(ask, p, told, line[0]);
    FeedByte(ask, p, told, line[0]);
    EmitJoins(out, Value, w, [line[0]]);
    FeedOn(ask, p, told, [line[0]], line[1..], q, Emit(out, Data(Value, w + [line[0]])));
    PaddingRead(ask, q, out, w + [line[0]], line[1..]);
    assert [line[0]] + line[1..] == line && w + [line[0]] + line[1..] == w + line;
    FeedSplits(ask, p, told, line, [CR, LF]);
    LineEnd(ask, q, Emit(out, Data(Value, w + line)));
    EmitJoins(out, Value, w + line, "");
    assert w + line + "" == w + line;
  }

  lemma NoDigit(ask: Answers, p: Parser, out: seq<Event>, ch: char)
    requires p.state.HeaderValueDiscardWs? && p.header.ContentLength? && !H.Blank(ch) && L.ValueByte(ch)
    requires !IsNum(ch) || p.flags.contentLength
    ensures Step(ask, p, out, ch) == Refused(if IsNum(ch) then UnexpectedContentLength else InvalidContentLength)
  {
    hide Emit, IsNum, IsHeaderChar, ResponseLine, RequestMethod, RequestVersion, RequestUrl, HeaderName, EndOfHeaders, BodyMove;
  }

  lemma RefusedAtOnce(ask: Answers, p: Parser, out: seq<Event>, s: string, e: Errno)
    requires s != "" && Step(ask, p, out, s[0]) == Refused(e)
    ensures Feed(ask, p, out, s) == Failed(e)
  {
    hide Step;
  }

  /** Why a header is refused; only a length can be. */
  function Refusal(f: Flags, h: Header): Option<Errno>
    requires WellWritten(h)
  {
    if H.Lowered(h.name) != CONTENT_LENGTH then None
    else if h.value == "" || !IsNum(h.value[0]) then Some(InvalidContentLength)
    else if f.contentLength then Some(UnexpectedContentLength)
    else if LengthTaken(h.value, h.folds) then None
    else Some(InvalidContentLength)
  }

  /** The parser when a length has been read. */
  predicate LengthKnown(p: Parser, q: Parser, n: nat) {
    LengthHeader(q.header) && q == p.(state := HeaderValueLws, header := q.header, index := q.index, contentLength := n, flags := p.flags.(contentLength := true))
  }

  /** The digits and what is behind them on the first line. */
  lemma NumberRead(ask: Answers, p: Parser, out: seq<Event>, v: string) returns (q: Parser)
    requires p.state.HeaderValueDiscardWs? && p.header.ContentLength? && !p.flags.contentLength
    requires v != "" && L.ValueBytes(v) && IsNum(v[0])
    ensures var d := Leading(v);
      Feed(ask, p, out, v + [CR, LF]) ==
      if d != "" && DecValue(d[..|d| - 1]) <= (NO_LENGTH - 10) / 10 && Spaces(v[|d|..]) then Fed(q, Emit(out, Data(Value, v)))
      else Failed(InvalidContentLength)
    ensures LengthKnown(p, q, DecValue(Leading(v)))
  {
    hide Step, Feed, Emit, L.ValueByte, IsNum, Spaces, DecValue;
    var d, s := Leading(v), v[|Leading(v)|..];
    assert v == d + s && d != "";
    var n := DecValue(d);
    ContentLengthExact(ask, p, out, d);
    FeedSplits(ask, p, out, v, [CR, LF]);
    FeedSplits(ask, p, out, d, s);
    PaddingRead(ask, LengthRead(p, n), out, d, s);
    q := LengthRead(p, n).(state := HeaderValueLws, header := if s == "" then ContentLengthNum else ContentLengthWs);
    LineEnd(ask, q.(state := HeaderValue), Emit(out, Data(Value, v)));
    EmitJoins(out, Value, v, "");
    assert v + "" == v;
  }

  /** The lines of a length from its first byte on. */
  lemma LengthLines(ask: Answers, p: Parser, out: seq<Event>, h: Header) returns (q: Parser)
    requires p.state.HeaderValueDiscardWs? && p.header.ContentLength? && WellWritten(h) && h.value != "" && H.Lowered(h.name) == CONTENT_LENGTH
    ensures Feed(ask, p, out, h.value + [CR, LF] + LinesText(h.folds)) ==
            if Refusal(p.flags, h).Some? then Failed(Refusal(p.flags, h).value) else Fed(q, Emit(out, Data(Value, Whole(h))))
    ensures LengthKnown(p, q, DecValue(Leading(h.value)))
  {
    hide Step, Feed, Emit, H.Blank, L.ValueByte, IsNum, H.Lowered, Padding, Spaces, DecValue;
    var v := h.value;
    assert L.ValueByte(v[0]);
    FeedSplits(ask, p, out, v + [CR, LF], LinesText(h.folds));
    if !IsNum(v[0]) || p.flags.contentLength {
      NoDigit(ask, p, out, v[0]);
      assert (v + [CR, LF])[0] == v[0];
      RefusedAtOnce(ask, p, out, v + [CR, LF], if IsNum(v[0]) then UnexpectedContentLength else InvalidContentLength);
      q := p.(state := HeaderValueLws, header := ContentLengthNum, contentLength := DecValue(Leading(v)), flags := p.flags.(contentLength := true));
    } else {
      var r := NumberRead(ask, p, out, v);
      LengthFolds(ask, r, out, v, h.folds);
      q := Padded(r, h.folds);
    }
  }

  // --------------------------------------------------------------------------------------------------------
  // Any header

  predicate IsLength(h: Header) { H.Lowered(h.name) == CONTENT_LENGTH }

  predicate IsCoded(h: Header) { H.Lowered(h.name) == TRANSFER_ENCODING }

  predicate IsConnection(h: Header) { H.Lowered(h.name) == CONNECTION || H.Lowered(h.name) == PROXY_CONNECTION }

  predicate IsUpgrade(h: Header) { H.Lowered(h.name) == UPGRADE }

  /** The header is a Transfer-Encoding in which "chunked" is seen. */
  predicate SeesChunked(h: Header) {
    WellWritten(h) && IsCoded(h) && h.value != "" && ChunkedSeen(h.value, h.folds)
  }

  /** The header is a Connection in which the option is seen. */
  predicate SeesOption(h: Header, name: string) {
    WellWritten(h) && IsConnection(h) && h.value != "" && OptionSeen(h.value, h.folds, name)
  }

  /** What the parser notes of a header that it does not refuse. */
  function Noted(p: Parser, h: Header): Parser
    requires WellWritten(h)
  {
    p.(transferEncoding := p.transferEncoding || LooksCoded(h.name),
       contentLength := if IsLength(h) then DecValue(Leading(h.value)) else p.contentLength,
       flags := p.flags.(
         contentLength := p.flags.contentLength || IsLength(h),
         upgrade := p.flags.upgrade || (IsUpgrade(h) && h.value != ""),
         chunked := p.flags.chunked || SeesChunked(h),
         keepAlive := p.flags.keepAlive || SeesOption(h, KEEP_ALIVE),
         close := p.flags.close || SeesOption(h, CLOSE),
         connUpgrade := p.flags.connUpgrade || SeesOption(h, UPGRADE)))
  }

  /** The same, but for the header state and the matcher, which the next header begins anew. */
  predicate Alike(p: Parser, q: Parser) { q == p.(header := q.header, index := q.index) }

  /** The lines of a list. */
  lemma ListLines(ask: Answers, p: Parser, out: seq<Event>, h: Header) returns (q: Parser)
    requires p.state.HeaderValueDiscardWs? && WellWritten(h) && h.value != ""
    requires p.header.TransferEncoding? || p.header.Connection?
    ensures Feed(ask, p, out, h.value + [CR, LF] + LinesText(h.folds)) == Fed(q, Emit(out, Data(Value, Whole(h))))
    ensures q.state.HeaderValueLws? && Same(p, q)
    ensures FinishHeader(q.flags, q.header) == ListFlags(if p.header.TransferEncoding? then L.Codings else L.Options, p.flags, h.value, h.folds)
  {
    hide Step, Feed, Emit, H.Blank, L.ValueByte, L.ReadList, L.List, L.ListText, L.Elements, L.FlagsBefore, L.StateAfter, FoldsRead, FinishHeader, ListFlags, Going;
    var v, kind := h.value, if p.header.TransferEncoding? then L.Codings else L.Options;
    L.ValueRead(ask, p, out, v);
    L.EveryValueIsList(v);
    L.ListRead(kind, p, L.Elements(v));
    ListAtRest(p, v);
    var r, told := L.ReadList(p, v), Emit(out, Data(Value, v));
    InListIs(r);
    FeedOn(ask, p, out, v, [CR, LF], r, told);
    LineEnd(ask, r, told);
    EmitJoins(out, Value, v, "");
    assert v + "" == v;
    FoldsTold(ask, r.(state := HeaderValueLws), out, v, h.folds);
    FeedOn(ask, p, out, v + [CR, LF], LinesText(h.folds), r.(state := HeaderValueLws), told);
    ListFolds(kind, p, v, h.folds);
    q := FoldsRead(r.(state := HeaderValueLws), h.folds);
  }

  /** The lines of any other value. */
  lemma PlainLines(ask: Answers, p: Parser, out: seq<Event>, h: Header) returns (q: Parser)
    requires p.state.HeaderValueDiscardWs? && WellWritten(h) && h.value != "" && p.header == H.Expected(H.Lowered(h.name))
    requires !p.header.TransferEncoding? && !p.header.Connection? && !p.header.ContentLength?
    ensures Feed(ask, p, out, h.value + [CR, LF] + LinesText(h.folds)) == Fed(q, Emit(out, Data(Value, Whole(h))))
    ensures q.state.HeaderValueLws? && Same(p, q)
    ensures FinishHeader(q.flags, q.header) == p.flags.(upgrade := p.flags.upgrade || p.header.Upgrade?)
  {
    hide Step, Feed, Emit, H.Blank, L.ValueByte, FoldsRead, FinishHeader, ValueStart, H.Expected, L.ListChars;
    var v := h.value;
    ExpectedNames(H.Lowered(h.name));
    PlainStart(p, v[0]);
    var r := ValueTold(ask, p, out, v);
    var told := Emit(out, Data(Value, v));
    L.NothingRead(ValueStart(p, v[0]).p, v[1..]);
    FeedOn(ask, p, out, v, [CR, LF], r, told);
    LineEnd(ask, r, told);
    EmitJoins(out, Value, v, "");
    assert v + "" == v;
    FoldsTold(ask, r.(state := HeaderValueLws), out, v, h.folds);
    FeedOn(ask, p, out, v + [CR, LF], LinesText(h.folds), r.(state := HeaderValueLws), told);
    Passed(r.(state := HeaderValueLws), h.folds);
    q := FoldsRead(r.(state := HeaderValueLws), h.folds);
    GeneralFinish(q.flags);
  }

  lemma PlainStart(p: Parser, ch: char)
    requires !p.header.TransferEncoding? && !p.header.Connection? && !p.header.ContentLength?
    requires !p.header.ContentLengthWs? && !p.header.TransferEncodingTokenStart? && !p.header.ConnectionTokenStart?
    ensures ValueStart(p, ch) ==
            Marked(p.(state := HeaderValue, index := 0, header := General, flags := p.flags.(upgrade := p.flags.upgrade || p.header.Upgrade?)))
  {
    hide Lower;
  }

  /** The lines of a header from the first byte of its value on. */
  lemma ValueLines(ask: Answers, p: Parser, out: seq<Event>, h: Header) returns (q: Parser)
    requires p.state.HeaderValueDiscardWs? && WellWritten(h) && h.value != "" && p.header == H.Expected(H.Lowered(h.name))
    ensures Feed(ask, p, out, h.value + [CR, LF] + LinesText(h.folds)) ==
            if Refusal(p.flags, h).Some? then Failed(Refusal(p.flags, h).value) else Fed(q, Emit(out, Data(Value, Whole(h))))
    ensures q.state.HeaderValueLws? && q == p.(state := q.state, header := q.header, index := q.index, flags := q.flags, contentLength := q.contentLength)
    ensures var r := Noted(p, h); FinishHeader(q.flags, q.header) == r.flags && q.contentLength == r.contentLength
  {
    hide Step, Feed, Emit, H.Blank, L.ValueByte, H.Expected, H.Lowered, WellWritten, ChunkedSeen, OptionSeen, ListFlags, FinishHeader, LooksCoded;
    H.ExpectedSpecial(H.Lowered(h.name));
    SpecialNames();
    Written(h);
    if IsLength(h) {
      q := LengthLines(ask, p, out, h);
      LengthFinish(q.flags, q.header);
    } else if IsCoded(h) {
      q := ListLines(ask, p, out, h);
      CodingFlags(p.flags, h.value, h.folds);
    } else if IsConnection(h) {
      q := ListLines(ask, p, out, h);
      OptionFlags(p.flags, h.value, h.folds);
    } else {
      q := PlainLines(ask, p, out, h);
    }
  }

  lemma Written(h: Header)
    requires WellWritten(h)
    ensures Folds(h.folds) && L.ValueBytes(h.value) && (if h.value == "" then h.folds == [] else !H.Blank(h.value[0])) && Gap(h.lead, h.gap) && IsName(h.name)
  {
  }

  lemma SpecialNames()
    ensures CONTENT_LENGTH != TRANSFER_ENCODING && CONTENT_LENGTH != CONNECTION && CONTENT_LENGTH != PROXY_CONNECTION && CONTENT_LENGTH != UPGRADE
    ensures TRANSFER_ENCODING != CONNECTION && TRANSFER_ENCODING != PROXY_CONNECTION && TRANSFER_ENCODING != UPGRADE
    ensures UPGRADE != CONNECTION && UPGRADE != PROXY_CONNECTION
  {
    assert |CONTENT_LENGTH| == 14 && |TRANSFER_ENCODING| == 17 && |CONNECTION| == 10 && |PROXY_CONNECTION| == 16 && |UPGRADE| == 7;
  }

  lemma LengthFinish(f: Flags, h: HeaderState)
    requires LengthHeader(h)
    ensures FinishHeader(f, h) == f
  {
  }

  /** A text that begins a line of its own. */
  predicate NewLine(s: string) { s != "" && !H.Blank(s[0]) }

  /** Any header: it is told as it was written but for the blanks in front of its value and its line ends, and the parser has
      noted what `Noted` says; or it is a length that is refused. */
  lemma HeaderTold(ask: Answers, p: Parser, out: seq<Event>, h: Header, rest: string) returns (q: Parser)
    requires p.state.HeaderFieldStart? && WellWritten(h) && NewLine(rest)
    ensures Feed(ask, p, out, HeaderText(h) + rest) ==
            if Refusal(p.flags, h).Some? then Failed(Refusal(p.flags, h).value) else Feed(ask, q, Heard(h, out), rest)
    ensures Refusal(p.flags, h).None? ==> Alike(Noted(p, h), q)
  {
    hide Step, Feed, Emit, H.Blank, L.ValueByte, H.Expected, H.Lowered, WellWritten, LooksCoded, FinishHeader, Refusal, SeesChunked, SeesOption, Folds, Gap, IsName;
    Written(h);
    var i := NameLine(ask, p, out, h.name);
    var q1, told := Named(p, h.name, i).(state := HeaderValueDiscardWs), Emit(out, Data(Field, h.name));
    GapRead(ask, q1, told, h.lead, h.gap);
    var before := h.name + ":" + (LinesText(h.lead) + h.gap);
    FeedOn(ask, p, out, h.name + ":", LinesText(h.lead) + h.gap, q1, told);
    if h.value == "" {
      q := EmptyTold(ask, q1, told, h, rest);
      EmptyRefused(p.flags, h);
      FeedOn(ask, p, out, before, [CR, LF] + rest, q1, told);
      EmptyText(h, before, rest);
    } else {
      var lines := h.value + [CR, LF] + LinesText(h.folds);
      FeedOn(ask, p, out, before, lines, q1, told);
      TextParts(h, before, lines, rest);
      var q2 := ValueLines(ask, q1, told, h);
      RefusedAlike(p.flags, q1.flags, h);
      FeedSplits(ask, p, out, before + lines, rest);
      NextLine(ask, q2, Heard(h, out), rest);
      q := Finished(q2);
    }
  }

  lemma EmptyText(h: Header, before: string, rest: string)
    requires before == h.name + ":" + (LinesText(h.lead) + h.gap) && h.value == "" && h.folds == []
    ensures HeaderText(h) + rest == before + ([CR, LF] + rest)
  {
    hide LinesText;
    assert LinesText(h.folds) == "" by { NoLines(); }
  }

  lemma NoLines()
    ensures LinesText([]) == "" && Joined([]) == ""
  {
  }

  lemma TextParts(h: Header, before: string, lines: string, rest: string)
    requires before == h.name + ":" + (LinesText(h.lead) + h.gap) && lines == h.value + [CR, LF] + LinesText(h.folds)
    ensures HeaderText(h) + rest == before + lines + rest
  {
    hide LinesText;
  }

  lemma RefusedAlike(f: Flags, g: Flags, h: Header)
    requires WellWritten(h) && f == g
    ensures Refusal(f, h) == Refusal(g, h)
  {
  }

  lemma EmptyTold(ask: Answers, p: Parser, out: seq<Event>, h: Header, rest: string) returns (q: Parser)
    requires p.state.HeaderValueDiscardWs? && WellWritten(h) && h.value == "" && p.header == H.Expected(H.Lowered(h.name)) && NewLine(rest)
    ensures Feed(ask, p, out, [CR, LF] + rest) ==
            if Refusal(p.flags, h).Some? then Failed(Refusal(p.flags, h).value)
            else Feed(ask, q, Emit(out, Data(Value, Whole(h))), rest)
    ensures !IsLength(h) ==> Alike(Noted(p, h).(state := HeaderFieldStart, transferEncoding := p.transferEncoding), q)
  {
    hide Step, Feed, Emit, H.Blank, H.Expected, H.Lowered, FinishHeader, LooksCoded;
    NoLines();
    GapEnds(ask, p, out);
    FeedOn(ask, p, out, [CR, LF], rest, p.(state := HeaderValueDiscardLws), out);
    H.ExpectedSpecial(H.Lowered(h.name));
    NothingTold(ask, p.(state := HeaderValueDiscardLws), out, rest);
    NameFinish(p.flags, H.Lowered(h.name));
    assert Whole(h) == "";
    q := Finished(p.(state := HeaderValueDiscardLws));
  }

  lemma EmptyRefused(f: Flags, h: Header)
    requires WellWritten(h) && h.value == ""
    ensures IsLength(h) <==> Refusal(f, h).Some?
  {
  }

  lemma NameFinish(f: Flags, s: string)
    ensures FinishHeader(f, H.Expected(s)) == f
  {
    hide H.Begins;
  }

  // --------------------------------------------------------------------------------------------------------
  // All headers of a message

  predicate AllWritten(hs: seq<Header>) { forall i | 0 <= i < |hs| :: WellWritten(hs[i]) }

  function HeadersText(hs: seq<Header>): string {
    if hs == [] then "" else HeaderText(hs[0]) + HeadersText(hs[1..])
  }

  function AllHeard(hs: seq<Header>, out: seq<Event>): seq<Event> {
    if hs == [] then out else AllHeard(hs[1..], Heard(hs[0], out))
  }

  datatype Reading = Reads(p: Parser) | Refuses(errno: Errno)

  /** What the parser has noted when it has read the headers, or why it refuses one. */
  function Notes(p: Parser, hs: seq<Header>): Reading
    requires AllWritten(hs)
    decreases |hs|
  {
    if hs == [] then Reads(p) else
    match Refusal(p.flags, hs[0])
    case Some(e) => Refuses(e)
    case None => Notes(Noted(p, hs[0]), hs[1..])
  }

  /** The header state and the matcher do not matter. */
  lemma {:induction false} NotesAlike(p: Parser, q: Parser, hs: seq<Header>)
    requires AllWritten(hs) && Alike(p, q)
    ensures if Notes(p, hs).Refuses? then Notes(q, hs) == Notes(p, hs) else Notes(q, hs).Reads? && Alike(Notes(p, hs).p, Notes(q, hs).p)
    decreases |hs|
  {
    hide Refusal, WellWritten;
    if hs != [] {
      NotedAlike(p, q, hs[0]);
      if Refusal(p.flags, hs[0]).None? {
        NotesAlike(Noted(p, hs[0]), Noted(q, hs[0]), hs[1..]);
      }
    }
  }

  lemma NotedAlike(p: Parser, q: Parser, h: Header)
    requires WellWritten(h) && Alike(p, q)
    ensures Alike(Noted(p, h), Noted(q, h))
  {
    hide WellWritten, SeesChunked, SeesOption, H.Lowered, LooksCoded;
  }

  lemma {:induction false} HeadersNewLine(hs: seq<Header>, rest: string)
    requires AllWritten(hs) && NewLine(rest)
    ensures NewLine(HeadersText(hs) + rest)
  {
    if hs != [] {
      assert WellWritten(hs[0]);
      assert (HeadersText(hs) + rest)[0] == hs[0].name[0];
      assert IsToken(hs[0].name[0]);
    }
  }

  lemma {:induction false} HeadersTold(ask: Answers, p: Parser, out: seq<Event>, hs: seq<Header>, rest: string) returns (q: Parser)
    requires p.state.HeaderFieldStart? && AllWritten(hs) && NewLine(rest)
    ensures Feed(ask, p, out, HeadersText(hs) + rest) ==
            if Notes(p, hs).Refuses? then Failed(Notes(p, hs).errno) else Feed(ask, q, AllHeard(hs, out), rest)
    ensures Notes(p, hs).Reads? ==> Alike(Notes(p, hs).p, q)
    decreases |hs|
  {
    hide Feed, Emit, WellWritten, HeaderText, Refusal, Noted, NewLine, Heard;
    if hs == [] {
      assert HeadersText(hs) + rest == rest;
      q := p;
    } else {
      var h, behind := hs[0], HeadersText(hs[1..]) + rest;
      assert HeadersText(hs) + rest == HeaderText(h) + behind;
      HeadersNewLine(hs[1..], rest);
      q := HeaderTold(ask, p, out, h, behind);
      if Refusal(p.flags, h).None? {
        NotedState(p, h);
        NotesAlike(Noted(p, h), q, hs[1..]);
        q := HeadersTold(ask, q, Heard(h, out), hs[1..], rest);
      }
    }
  }

  lemma NotedState(p: Parser, h: Header)
    requires WellWritten(h)
    ensures Noted(p, h).state == p.state
  {
  }

  /** Some header is such. */
  predicate Any(hs: seq<Header>, test: Header -> bool) { exists i | 0 <= i < |hs| :: test(hs[i]) }

  lemma AnyFirst(hs: seq<Header>, test: Header -> bool)
    requires hs != []
    ensures Any(hs, test) <==> test(hs[0]) || Any(hs[1..], test)
  {
    if i :| 0 < i < |hs| && test(hs[i]) {
      assert hs[1..][i - 1] == hs[i];
    }
  }

  /** The name begins like that of a Transfer-Encoding. */
  predicate NamedLikeCoding(h: Header) { LooksCoded(h.name) }

  predicate Upgrades(h: Header) { IsUpgrade(h) && h.value != "" }

  function Seeing(name: string): Header -> bool { h => SeesOption(h, name) }

  /** The lengths among the headers. */
  function Lengths(hs: seq<Header>): (ls: seq<Header>)
    ensures AllWritten(hs) ==> AllWritten(ls)
  {
    if hs == [] then [] else (if IsLength(hs[0]) then [hs[0]] else []) + Lengths(hs[1..])
  }

  predicate Taken(h: Header) { WellWritten(h) && LengthTaken(h.value, h.folds) }

  /** The number a length begins with. */
  function Number(h: Header): nat { DecValue(Leading(h.value)) }

  /** The notes in terms of all headers, when none is refused. */
  function Summary(p: Parser, hs: seq<Header>): Parser {
    p.(transferEncoding := p.transferEncoding || Any(hs, NamedLikeCoding),
       contentLength := if Lengths(hs) == [] then p.contentLength else Number(Lengths(hs)[0]),
       flags := p.flags.(
         contentLength := p.flags.contentLength || Lengths(hs) != [],
         upgrade := p.flags.upgrade || Any(hs, Upgrades),
         chunked := p.flags.chunked || Any(hs, SeesChunked),
         keepAlive := p.flags.keepAlive || Any(hs, Seeing(KEEP_ALIVE)),
         close := p.flags.close || Any(hs, Seeing(CLOSE)),
         connUpgrade := p.flags.connUpgrade || Any(hs, Seeing(UPGRADE))))
  }

  /** The headers are refused exactly if there are two lengths, or one that is not taken; if not, each note is about some
      header. */
  lemma {:induction false} NotesAre(p: Parser, hs: seq<Header>)
    requires AllWritten(hs)
    ensures var ls := Lengths(hs); Notes(p, hs).Reads? <==> ls == [] || (|ls| == 1 && Taken(ls[0]) && !p.flags.contentLength)
    ensures Notes(p, hs).Reads? ==> Notes(p, hs).p == Summary(p, hs)
    decreases |hs|
  {
    hide WellWritten, H.Lowered, LooksCoded, SeesChunked, SeesOption, LengthTaken, Any, Summary;
    if hs == [] {
      SummaryOfNone(p);
    } else {
      RefusalIs(p.flags, hs[0]);
      hide Refusal, Taken;
      if Refusal(p.flags, hs[0]).None? {
        NotesAre(Noted(p, hs[0]), hs[1..]);
        if Notes(p, hs).Reads? {
          SummaryGrows(p, hs);
        }
      }
    }
  }

  lemma SummaryOfNone(p: Parser)
    ensures Summary(p, []) == p
  {
    NoneOf([], NamedLikeCoding);
    NoneOf([], Upgrades);
    NoneOf([], SeesChunked);
    NoneOf([], Seeing(KEEP_ALIVE));
    NoneOf([], Seeing(CLOSE));
    NoneOf([], Seeing(UPGRADE));
    hide Any;
  }

  lemma SummaryGrows(p: Parser, hs: seq<Header>)
    requires hs != [] && WellWritten(hs[0])
    requires IsLength(hs[0]) ==> Lengths(hs[1..]) == []
    ensures Summary(Noted(p, hs[0]), hs[1..]) == Summary(p, hs)
  {
    AnyFirst(hs, NamedLikeCoding);
    AnyFirst(hs, Upgrades);
    AnyFirst(hs, SeesChunked);
    AnyFirst(hs, Seeing(KEEP_ALIVE));
    AnyFirst(hs, Seeing(CLOSE));
    AnyFirst(hs, Seeing(UPGRADE));
    hide Any, WellWritten, H.Lowered, LooksCoded, SeesChunked, SeesOption, DecValue, Leading;
  }

  lemma NoneOf(hs: seq<Header>, test: Header -> bool)
    requires hs == []
    ensures !Any(hs, test)
  {
  }

  lemma RefusalIs(f: Flags, h: Header)
    requires WellWritten(h)
    ensures Refusal(f, h).Some? <==> IsLength(h) && (f.contentLength || !Taken(h))
  {
    hide Padding, Spaces, DecValue;
    if h.value != "" && !IsNum(h.value[0]) {
      assert Leading(h.value) == "";
    }
  }
}
