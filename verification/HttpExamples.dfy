/** Inputs at which the parser falls short: headers that end at the limit, and a value that passes it unseen. */
module HttpExamples {
  import opened HttpTypes
  import opened HttpChars
  import opened HttpTransition
  import opened HttpInvariant
  import opened HttpFeed
  import opened HttpHalts
  import opened HttpRuns
  import opened HttpOverrun
  import opened HttpParser
  import opened HttpPauses
  import M = HttpMethods
  import F = HttpFraming

  /** A byte of the headers that neither ends them nor restarts the counter. */
  lemma Goes(ask: Answers, p: Parser, out: seq<Event>, n: nat, limit: nat, data: string, q: Parser, told: seq<Event>)
    requires data != "" && Step(ask, p, out, data[0]) == Consumed(q, told, false) && ParsingHeader(p.state) && n + 1 <= limit
    ensures Feed(ask, p, out, data) == Feed(ask, q, told, data[1..])
    ensures Tally(ask, p, out, n, limit, data) == Tally(ask, q, told, n + 1, limit, data[1..])
    ensures Roomy(ask, p, out, n, limit, data) ==> Roomy(ask, q, told, n + 1, limit, data[1..])
  {
    hide Step, Asks;
  }

  const CHOSEN := Init(Request).(verb := GET, state := ReqSpacesBeforeUrl, contentLength := NO_LENGTH, index := 4)

  lemma FirstLetter(ask: Answers)
    ensures Step(ask, Init(Request), [], 'G') == Consumed(M.Reading(Init(Request), GET, 1), [Notify(MessageBegin)], false)
  {
    M.FirstLetterRead(ask, Init(Request), [], 'G');
    hide Step;
  }

  lemma NextLetter(ask: Answers, i: nat, out: seq<Event>)
    requires 1 <= i < 3
    ensures Step(ask, M.Reading(Init(Request), GET, i), out, "GET"[i]) == Consumed(M.Reading(Init(Request), GET, i + 1), out, false)
  {
    M.LetterRead(ask, M.Reading(Init(Request), GET, i), out, "GET"[i]);
    hide Step, NextGuess;
    assert MethodName(GET) == "GET";
  }

  lemma LastLetter(ask: Answers, out: seq<Event>)
    ensures Step(ask, M.Reading(Init(Request), GET, 3), out, ' ') == Consumed(CHOSEN, out, false)
  {
    M.LetterRead(ask, M.Reading(Init(Request), GET, 3), out, ' ');
    hide Step, NextGuess;
    assert MethodName(GET) == "GET";
  }

  lemma PathBytes(ask: Answers, p: Parser, out: seq<Event>)
    requires p.state.ReqSpacesBeforeUrl? && !p.verb.CONNECT?
    ensures Step(ask, p, out, '/') == Consumed(p.(state := ReqPath), Emit(out, Data(Url, "/")), false)
    ensures Step(ask, p.(state := ReqPath), out, LF) ==
            Consumed(p.(state := HeaderFieldStart, major := 0, minor := 9), Emit(out, Data(Url, "")), false)
  {
    hide Emit;
  }

  /** The parser behind the request line "GET /" of HTTP/0.9, whose six bytes are all counted. */
  const ASKED := CHOSEN.(state := HeaderFieldStart, major := 0, minor := 9)
  const TOLD := [Notify(MessageBegin), Data(Url, "/")]

  /** Reading `data` from `p` comes to reading `rest` from `q`, with `k` more bytes counted. */
  ghost predicate Leads(
      ask: Answers, limit: nat, p: Parser, out: seq<Event>, n: nat, data: string, q: Parser, told: seq<Event>, rest: string, m: nat)
  {
    && Feed(ask, p, out, data) == Feed(ask, q, told, rest)
    && Tally(ask, p, out, n, limit, data) == Tally(ask, q, told, m, limit, rest)
    && (Roomy(ask, p, out, n, limit, data) ==> Roomy(ask, q, told, m, limit, rest))
  }

  lemma MethodLeads(ask: Answers, limit: nat, rest: string)
    requires limit >= 4
    ensures Leads(ask, limit, Init(Request), [], 0, ['G'] + (['E'] + (['T'] + ([' '] + rest))), CHOSEN, [Notify(MessageBegin)], rest, 4)
  {
    hide Step, Feed, Tally, Roomy, M.Reading;
    var begun := [Notify(MessageBegin)];
    FirstLetter(ask);
    NextLetter(ask, 1, begun);
    NextLetter(ask, 2, begun);
    LastLetter(ask, begun);
    var r1 := [' '] + rest;
    var r2 := ['T'] + r1;
    var r3 := ['E'] + r2;
    ReadingCounts(1);
    ReadingCounts(2);
    ReadingCounts(3);
    Goes(ask, Init(Request), [], 0, limit, ['G'] + r3, M.Reading(Init(Request), GET, 1), begun);
    Goes(ask, M.Reading(Init(Request), GET, 1), begun, 1, limit, r3, M.Reading(Init(Request), GET, 2), begun);
    Goes(ask, M.Reading(Init(Request), GET, 2), begun, 2, limit, r2, M.Reading(Init(Request), GET, 3), begun);
    Goes(ask, M.Reading(Init(Request), GET, 3), begun, 3, limit, r1, CHOSEN, begun);
  }

  lemma ReadingCounts(i: nat)
    ensures ParsingHeader(M.Reading(Init(Request), GET, i).state)
  {
  }

  lemma PathLeads(ask: Answers, limit: nat, rest: string)
    requires limit >= 6
    ensures Leads(ask, limit, CHOSEN, [Notify(MessageBegin)], 4, ['/'] + ([LF] + rest), ASKED, TOLD, rest, 6)
  {
    hide Step, Feed, Tally, Roomy;
    var begun := [Notify(MessageBegin)];
    PathBytes(ask, CHOSEN, begun);
    PathBytes(ask, CHOSEN, TOLD);
    assert TOLD[..1] == begun && "/" + "" == "/";
    Goes(ask, CHOSEN, begun, 4, limit, ['/'] + ([LF] + rest), CHOSEN.(state := ReqPath), TOLD);
    Goes(ask, CHOSEN.(state := ReqPath), TOLD, 5, limit, [LF] + rest, ASKED, TOLD);
  }

  lemma RequestLeads(ask: Answers, limit: nat, rest: string)
    requires limit >= 6
    ensures Leads(ask, limit, Init(Request), [], 0, "GET /" + [LF] + rest, ASKED, TOLD, rest, 6)
  {
    hide Feed, Tally, Roomy;
    MethodLeads(ask, limit, ['/'] + ([LF] + rest));
    PathLeads(ask, limit, rest);
    assert "GET /" + [LF] + rest == ['G'] + (['E'] + (['T'] + ([' '] + (['/'] + ([LF] + rest)))));
  }

  // --------------------------------------------------------------------------------------------------------
  // Headers that end at the limit

  lemma LastByte(ask: Answers)
    requires ask(TOLD + [Notify(HeadersComplete)]) == 0
    ensures Asks(ask, ASKED, TOLD, LF)
    ensures Step(ask, ASKED, TOLD, LF) == Consumed(ASKED.(state := Dead), TOLD + [Notify(HeadersComplete), Notify(MessageComplete)], true)
  {
    var q := ASKED.(state := HeadersAlmostDone);
    assert Transition(ASKED, LF) == Redo(ASKED, HeadersAlmostDone);
    HeadersEnd(ask, q);
    StepAgain(ask, ASKED, TOLD, LF, Transition(ASKED, LF));
  }

  lemma HeadersEnd(ask: Answers, q: Parser)
    requires q == ASKED.(state := HeadersAlmostDone) && ask(TOLD + [Notify(HeadersComplete)]) == 0
    ensures Asks(ask, q, TOLD, LF)
    ensures Step(ask, q, TOLD, LF) == Consumed(ASKED.(state := Dead), TOLD + [Notify(HeadersComplete), Notify(MessageComplete)], true)
  {
    HeadersAsk(ask, q, TOLD);
    F.HeadersEnd(ask, q, TOLD);
    F.BodyChosen(ask, F.HeadersRead(q), TOLD + [Notify(HeadersComplete)]);
    hide Step, Asks;
    assert TOLD + [Notify(HeadersComplete)] + [Notify(MessageComplete)] == TOLD + [Notify(HeadersComplete), Notify(MessageComplete)];
  }

  lemma HeadersAsk(ask: Answers, q: Parser, out: seq<Event>)
    requires q.state.HeadersAlmostDone? && !q.flags.trailing && !(q.transferEncoding && q.flags.contentLength)
    requires 0 <= ask(Emit(out, Notify(HeadersComplete))) <= 2
    ensures Asks(ask, q, out, LF)
  {
    hide Emit;
  }

  lemma ByteAlone(ask: Answers, p: Parser, out: seq<Event>, n: nat, ch: char, q: Parser, told: seq<Event>)
    requires Step(ask, p, out, ch) == Consumed(q, told, true) && ParsingHeader(p.state) && Asks(ask, p, out, ch)
    ensures Feed(ask, p, out, [ch]) == Fed(q, told)
    ensures Tally(ask, p, out, n, n + 1, [ch]).Some? && !Roomy(ask, p, out, n, n + 1, [ch])
  {
    hide Step, Asks;
    assert [ch][1..] == "" && [ch][0] == ch;
    assert Tally(ask, q, told, 0, n + 1, "") == Some(0) && Feed(ask, q, told, "") == Fed(q, told);
    assert TallyRest(ask, p, out, n + 1, n + 1, [ch]) == Tally(ask, q, told, 0, n + 1, [ch][1..]);
  }

  /** "GET /" and two line feeds are seven bytes. With a limit of seven they are read without an error, but there is no room
      for a pause at the end of the headers. */
  lemma SevenBytes(ask: Answers)
    requires ask(TOLD + [Notify(HeadersComplete)]) == 0
    ensures var data := "GET /" + [LF] + [LF];
      && Feed(ask, Init(Request), [], data) == Fed(ASKED.(state := Dead), TOLD + [Notify(HeadersComplete), Notify(MessageComplete)])
      && Tally(ask, Init(Request), [], 0, 7, data).Some?
      && !Roomy(ask, Init(Request), [], 0, 7, data)
  {
    hide Step, Asks, Feed, Tally, Roomy;
    RequestLeads(ask, 7, [LF]);
    LastByte(ask);
    ByteAlone(ask, ASKED, TOLD, 6, LF, ASKED.(state := Dead), TOLD + [Notify(HeadersComplete), Notify(MessageComplete)]);
  }

  /** So the call that pauses there leaves a parser that refuses the very byte that it was about to take. */
  lemma SevenBytesBreak(ask: Answers) returns (react: Reactions)
    requires ask(TOLD + [Notify(HeadersComplete)]) == 0
    ensures forall j: nat :: !react(j).Fail?
    ensures forall after, n: nat, overran | Call(ask, react, 7, View(Init(Request), [], 0, Fine), after, "GET /" + [LF] + [LF], n, overran) ::
              after.errno.Paused? && n < 7 && BreaksQuietly(ask, 7, after, ("GET /" + [LF] + [LF])[n..])
  {
    hide Step, Asks, Feed, Tally, Roomy, Halts, FirstCut;
    var v, data := View(Init(Request), [], 0, Fine), "GET /" + [LF] + [LF];
    SevenBytes(ask);
    StartReady();
    react := PauseOnce(ask, 7, v, data);
  }

  lemma StartReady()
    ensures Ready(View(Init(Request), [], 0, Fine), 7)
  {
    hide MethodName;
  }

  // --------------------------------------------------------------------------------------------------------
  // A value that passes the limit

  /** The parser behind the request line and "A:b", nine bytes of headers. */
  const VALUED := ASKED.(state := HeaderValue, index := 0)
  const HEARD := TOLD + [Data(Field, "A"), Data(Value, "b")]

  lemma NameOne(ask: Answers, p: Parser, out: seq<Event>)
    requires p.state.HeaderFieldStart? && p.header.General?
    ensures Step(ask, p, out, 'A') == Consumed(p.(state := HeaderField, index := 0), Emit(out, Data(Field, "A")), false)
  {
    hide Emit, ResponseLine, RequestMethod, RequestVersion, RequestUrl, HeaderValueMove, EndOfHeaders, BodyMove;
  }

  lemma ColonOne(ask: Answers, p: Parser, out: seq<Event>)
    requires p.state.HeaderField?
    ensures Step(ask, p, out, ':') == Consumed(p.(state := HeaderValueDiscardWs), Emit(out, Data(Field, "")), false)
  {
    hide Emit, FieldChar, ResponseLine, RequestMethod, RequestVersion, RequestUrl, HeaderValueMove, EndOfHeaders, BodyMove;
  }

  lemma ValueOne(ask: Answers, p: Parser, out: seq<Event>)
    requires p.state.HeaderValueDiscardWs? && p.header.General?
    ensures Step(ask, p, out, 'b') == Consumed(p.(state := HeaderValue, index := 0), Emit(out, Data(Value, "b")), false)
  {
    hide Emit;
  }

  lemma ValueLeads(ask: Answers, rest: string)
    ensures Leads(ask, 10, Init(Request), [], 0, "GET /" + [LF] + ("A:b" + rest), VALUED, HEARD, rest, 9)
  {
    hide Step, Feed, Tally, Roomy;
    var named := TOLD + [Data(Field, "A")];
    NameOne(ask, ASKED, TOLD);
    ColonOne(ask, ASKED.(state := HeaderField, index := 0), named);
    ValueOne(ask, ASKED.(state := HeaderValueDiscardWs, index := 0), named);
    assert named[..|TOLD|] == TOLD && "A" + "" == "A";
    assert named + [Data(Value, "b")] == HEARD;
    RequestLeads(ask, 10, "A:b" + rest);
    assert "A:b" + rest == ['A'] + ([':'] + (['b'] + rest));
    Goes(ask, ASKED, TOLD, 6, 10, ['A'] + ([':'] + (['b'] + rest)), ASKED.(state := HeaderField, index := 0), named);
    Goes(ask, ASKED.(state := HeaderField, index := 0), named, 7, 10, [':'] + (['b'] + rest), ASKED.(state := HeaderValueDiscardWs, index := 0), named);
    Goes(ask, ASKED.(state := HeaderValueDiscardWs, index := 0), named, 8, 10, ['b'] + rest, VALUED, HEARD);
  }

  const TEN := "cccccccccc"

  /** With a limit of ten bytes, nine of which are used up, a value goes on with ten bytes of text, a line feed and a CR. The
      search for its end is cut off before the line feed, and goes on behind it. */
  lemma LineFeedUnseen()
    ensures Cut(VALUED, TEN + [LF] + [CR], 10) && ValueTail(VALUED, TEN + [LF] + [CR], 10) == (VALUED, [CR])
  {
    var s := TEN + [LF] + [CR];
    hide ValueChars, ValueTail;
    forall i | 0 <= i < 10 ensures Plain(s[i]) {
      assert s[i] == TEN[i];
    }
    PlainTen(s);
    assert s[..0] == "" && s[0..] == s;
    assert ValueChars(VALUED, s[..0]) == Some(VALUED) by { NoChars(VALUED); }
    assert !Stops(VALUED, s[0]) by { GeneralValue(VALUED, s[0]); }
    GeneralStep(VALUED, s, 0, VALUED, 10);
    assert CutAt(VALUED, s, 0, 10);
    assert s[11..] == [CR];
    TailEnds(VALUED, [CR], 10);
  }

  lemma NoChars(p: Parser)
    ensures ValueChars(p, "") == Some(p)
  {
  }

  lemma PlainTen(s: string)
    requires |s| >= 10 && forall i | 0 <= i < 10 :: Plain(s[i])
    ensures PlainRun(s, 10) == 10
  {
  }

  /** Fed one at a time these bytes pass the limit, but the parser, if it is paused by the callback for the value, has told
      the application of a value that contains a line feed, and is within the limit. */
  lemma LimitPassed(ask: Answers, react: Reactions, after: View, n: nat, overran: bool)
    requires react(0).Pause? && Call(ask, react, 10, View(VALUED, HEARD, 9, Fine), after, TEN + [LF] + [CR], n, overran)
    ensures Tally(ask, VALUED, HEARD, 9, 10, TEN + [LF] + [CR]).None?
    ensures overran && after == View(VALUED.(state := HeaderAlmostDone), TOLD + [Data(Field, "A"), Data(Value, "b" + TEN + [LF])], 9, Paused)
    ensures n == 12
  {
    hide Feed, Tally, Halts, Cut, ValueTail, Ends, FirstCutRest;
    LineFeedUnseen();
    var s := TEN + [LF] + [CR];
    assert s[..11] == TEN + [LF];
    CutFirst(ask, react, VALUED, HEARD, 9, 10, s);
    assert HEARD[..|TOLD| + 1] == TOLD + [Data(Field, "A")];
    assert "b" + (TEN + [LF]) == "b" + TEN + [LF];
    assert HEARD[..|HEARD| - 1] + [Data(Value, "b" + TEN + [LF])] == TOLD + [Data(Field, "A"), Data(Value, "b" + TEN + [LF])];
  }

  lemma CutFirst(ask: Answers, react: Reactions, p: Parser, out: seq<Event>, n: nat, limit: nat, s: string)
    requires p.state.HeaderValue? && n < limit && Cut(p, s, limit) && s != ""
    ensures FirstCut(ask, react, p, out, Counters(n, n, 0, false), limit, s) == Some(CutPoint(p, out, n, 0, s))
  {
    hide Cut;
  }
}
