/** The first line of a message: what the parser reads off it is what was written. */
module HttpLines {
  import opened HttpTypes
  import opened HttpChars
  import opened HttpTransition
  import opened HttpInvariant
  import opened HttpFeed
  import opened HttpBodies
  import opened HttpMethods

  /** A byte that only moves the parser on. */
  lemma FeedMove(ask: Answers, p: Parser, out: seq<Event>, x: string, q: Parser, told: seq<Event>, ch: char, q': Parser)
    requires Feed(ask, p, out, x) == Fed(q, told) && Transition(q, ch) == Go(q') && Seed(q.state).None?
    ensures Feed(ask, p, out, x + [ch]) == Fed(q', told)
  {
    hide Feed, Transition, Step;
    FeedOn(ask, p, out, x, [ch], q, told);
    FeedByte(ask, q, told, ch);
    StepMove(ask, q, told, ch, q');
  }

  lemma StepMove(ask: Answers, p: Parser, out: seq<Event>, ch: char, q: Parser)
    requires Transition(p, ch) == Go(q) && Seed(p.state).None?
    ensures Step(ask, p, out, ch) == Consumed(q, out, false)
  {
    hide Transition;
  }

  function VersionText(major: char, minor: char): string { "HTTP/" + [major] + "." + [minor] }

  // --------------------------------------------------------------------------------------------------------
  // Responses

  lemma ProtocolMoves(p: Parser)
    ensures Transition(p.(state := ResH), 'T') == Go(p.(state := ResHT))
    ensures Transition(p.(state := ResHT), 'T') == Go(p.(state := ResHTT))
    ensures Transition(p.(state := ResHTT), 'P') == Go(p.(state := ResHTTP))
    ensures Transition(p.(state := ResHTTP), '/') == Go(p.(state := ResHttpMajor))
  {
  }

  lemma ResponseMoves(p: Parser, major: char, minor: char)
    requires IsNum(major) && IsNum(minor)
    ensures Transition(p.(state := ResHttpMajor), major) == Go(p.(state := ResHttpDot, major := Digit(major)))
    ensures Transition(p.(state := ResHttpDot), '.') == Go(p.(state := ResHttpMinor))
    ensures Transition(p.(state := ResHttpMinor), minor) == Go(p.(state := ResHttpEnd, minor := Digit(minor)))
    ensures Transition(p.(state := ResHttpEnd), ' ') == Go(p.(state := ResFirstStatusCode))
  {
    hide IsNum, Digit;
  }

  lemma StartMove(ask: Answers, p: Parser, out: seq<Event>)
    requires p.state.StartRes?
    ensures Step(ask, p, out, 'H') == Consumed(Fresh(p).(state := ResH), Emit(out, Notify(MessageBegin)), false)
  {
    hide Emit;
  }

  lemma VersionOfResponse(ask: Answers, p: Parser, out: seq<Event>, major: char, minor: char)
    requires p.state.StartRes? && IsNum(major) && IsNum(minor)
    ensures Feed(ask, p, out, VersionText(major, minor) + " ") ==
            Fed(Fresh(p).(state := ResFirstStatusCode, major := Digit(major), minor := Digit(minor)), Emit(out, Notify(MessageBegin)))
  {
    hide Feed, Step, Emit, Transition, Fresh, IsNum, Digit;
    var q, told := Fresh(p), Emit(out, Notify(MessageBegin));
    var q1 := q.(major := Digit(major));
    var q2 := q1.(minor := Digit(minor));
    StartMove(ask, p, out);
    FeedByte(ask, p, out, 'H');
    ProtocolMoves(q);
    ResponseMoves(q, major, minor);
    ResponseMoves(q1, major, minor);
    ResponseMoves(q2, major, minor);
    FeedMove(ask, p, out, "H", q.(state := ResH), told, 'T', q.(state := ResHT));
    FeedMove(ask, p, out, "H" + "T", q.(state := ResHT), told, 'T', q.(state := ResHTT));
    FeedMove(ask, p, out, "H" + "T" + "T", q.(state := ResHTT), told, 'P', q.(state := ResHTTP));
    FeedMove(ask, p, out, "H" + "T" + "T" + "P", q.(state := ResHTTP), told, '/', q.(state := ResHttpMajor));
    assert "H" + "T" + "T" + "P" + "/" == "HTTP/";
    FeedMove(ask, p, out, "HTTP/", q.(state := ResHttpMajor), told, major, q1.(state := ResHttpDot));
    FeedMove(ask, p, out, "HTTP/" + [major], q1.(state := ResHttpDot), told, '.', q1.(state := ResHttpMinor));
    FeedMove(ask, p, out, "HTTP/" + [major] + ".", q1.(state := ResHttpMinor), told, minor, q2.(state := ResHttpEnd));
    FeedMove(ask, p, out, VersionText(major, minor), q2.(state := ResHttpEnd), told, ' ', q2.(state := ResFirstStatusCode));
  }

  lemma FirstOfStatus(ask: Answers, p: Parser, out: seq<Event>, ch: char)
    requires p.state.ResFirstStatusCode? && IsNum(ch)
    ensures Step(ask, p, out, ch) == Consumed(p.(state := ResStatusCode, status := Digit(ch)), out, false)
  {
  }

  lemma NextOfStatus(ask: Answers, p: Parser, out: seq<Event>, ch: char)
    requires p.state.ResStatusCode? && IsNum(ch)
    ensures Step(ask, p, out, ch) ==
            if p.status * 10 + Digit(ch) <= 999 then Consumed(p.(status := p.status * 10 + Digit(ch)), out, false) else Refused(InvalidStatus)
  {
  }

  /** A status code of any number of digits is taken exactly when it is at most 999. */
  lemma {:induction false} StatusExact(ask: Answers, p: Parser, out: seq<Event>, s: string)
    requires p.state.ResFirstStatusCode? && s != "" && Digits(s)
    ensures Feed(ask, p, out, s) ==
            if DecValue(s) <= 999 then Fed(p.(state := ResStatusCode, status := DecValue(s)), out) else Failed(InvalidStatus)
    decreases |s|
  {
    hide Step, Feed, IsNum;
    var x, ch := s[..|s| - 1], s[|s| - 1];
    assert s == x + [ch];
    if x == "" {
      assert s == [ch] && DecValue(x) == 0;
      FirstOfStatus(ask, p, out, ch);
      FeedByte(ask, p, out, ch);
      DigitBound(ch);
    } else {
      StatusExact(ask, p, out, x);
      FeedSplits(ask, p, out, x, [ch]);
      var q := p.(state := ResStatusCode, status := DecValue(x));
      NextOfStatus(ask, q, out, ch);
      FeedByte(ask, q, out, ch);
      DigitBound(ch);
    }
  }

  predicate OneLine(s: string) { forall i | 0 <= i < |s| :: s[i] != CR && s[i] != LF }

  lemma ReasonByte(ask: Answers, p: Parser, out: seq<Event>, ch: char)
    requires (p.state.ResStatusStart? || p.state.ResStatus?) && ch != CR && ch != LF
    ensures Step(ask, p, out, ch) ==
            Consumed(p.(state := ResStatus, index := if p.state.ResStatusStart? then 0 else p.index), Emit(out, Data(Status, [ch])), false)
  {
    hide Emit;
  }

  lemma {:induction false} ReasonRead(ask: Answers, p: Parser, out: seq<Event>, s: string)
    requires p.state.ResStatusStart? && s != "" && OneLine(s)
    ensures Feed(ask, p, out, s) == Fed(p.(state := ResStatus, index := 0), Emit(out, Data(Status, s)))
    decreases |s|
  {
    hide Step, Feed, Emit;
    var x, ch := s[..|s| - 1], s[|s| - 1];
    assert s == x + [ch];
    if x == "" {
      assert s == [ch];
      ReasonByte(ask, p, out, ch);
      FeedByte(ask, p, out, ch);
    } else {
      ReasonRead(ask, p, out, x);
      var q, told := p.(state := ResStatus, index := 0), Emit(out, Data(Status, x));
      FeedOn(ask, p, out, x, [ch], q, told);
      ReasonByte(ask, q, told, ch);
      FeedByte(ask, q, told, ch);
      EmitJoins(out, Status, x, [ch]);
    }
  }

  /** The end of the line; without a reason its callback is made all the same. */
  lemma ReasonEnds(ask: Answers, p: Parser, out: seq<Event>)
    requires p.state.ResStatusStart? || p.state.ResStatus?
    ensures Step(ask, p, out, CR) ==
            Consumed(p.(state := ResLineAlmostDone, index := if p.state.ResStatusStart? then 0 else p.index), Emit(out, Data(Status, "")), false)
  {
    hide Emit;
  }

  lemma LineEnds(p: Parser)
    ensures Transition(p.(state := ResLineAlmostDone), LF) == Go(p.(state := HeaderFieldStart))
    ensures Transition(p.(state := ResStatusCode), ' ') == Go(p.(state := ResStatusStart))
  {
  }

  /** A status line tells the application its reason, and leaves its version and its code in the parser. */
  lemma StatusLineRead(ask: Answers, p: Parser, out: seq<Event>, major: char, minor: char, code: string, reason: string)
    requires p.state.StartRes? && IsNum(major) && IsNum(minor)
    requires code != "" && Digits(code) && DecValue(code) <= 999 && OneLine(reason)
    ensures Feed(ask, p, out, VersionText(major, minor) + " " + code + " " + reason + [CR] + [LF]) ==
            Fed(Fresh(p).(state := HeaderFieldStart, index := 0, major := Digit(major), minor := Digit(minor), status := DecValue(code)),
                Emit(Emit(out, Notify(MessageBegin)), Data(Status, reason)))
  {
    hide Feed, Step, Emit, Transition, Fresh, IsNum, Digit, VersionText, DecValue;
    var told := Emit(out, Notify(MessageBegin));
    var line := VersionText(major, minor) + " ";
    var q := Fresh(p).(state := ResFirstStatusCode, major := Digit(major), minor := Digit(minor));
    VersionOfResponse(ask, p, out, major, minor);
    FeedOn(ask, p, out, line, code, q, told);
    StatusExact(ask, q, told, code);
    var q1 := q.(state := ResStatusCode, status := DecValue(code));
    LineEnds(q1);
    FeedMove(ask, p, out, line + code, q1, told, ' ', q1.(state := ResStatusStart));
    ReasonLineRead(ask, p, out, line + code + " ", q1.(state := ResStatusStart), told, reason);
  }

  lemma ReasonLineRead(ask: Answers, p: Parser, out: seq<Event>, line: string, q: Parser, told: seq<Event>, reason: string)
    requires Feed(ask, p, out, line) == Fed(q, told) && q.state.ResStatusStart? && OneLine(reason)
    ensures Feed(ask, p, out, line + reason + [CR] + [LF]) == Fed(q.(state := HeaderFieldStart, index := 0), Emit(told, Data(Status, reason)))
  {
    hide Feed, Step, Emit, Transition;
    var r, told' := q, told;
    if reason == "" {
      assert line + reason == line;
    } else {
      r, told' := q.(state := ResStatus, index := 0), Emit(told, Data(Status, reason));
      FeedOn(ask, p, out, line, reason, q, told);
      ReasonRead(ask, q, told, reason);
      EmitJoins(told, Status, reason, "");
      assert reason + "" == reason;
    }
    FeedOn(ask, p, out, line + reason, [CR], r, told');
    ReasonEnds(ask, r, told');
    FeedByte(ask, r, told', CR);
    LineEnds(r.(index := 0));
    FeedMove(ask, p, out, line + reason + [CR], r.(state := ResLineAlmostDone, index := 0), Emit(told', Data(Status, "")), LF,
             r.(state := HeaderFieldStart, index := 0));
  }

  // --------------------------------------------------------------------------------------------------------
  // Requests

  lemma RequestMoves(p: Parser)
    ensures Transition(p.(state := ReqHttpStart), 'H') == Go(p.(state := ReqHttpH))
    ensures Transition(p.(state := ReqHttpH), 'T') == Go(p.(state := ReqHttpHT))
    ensures Transition(p.(state := ReqHttpHT), 'T') == Go(p.(state := ReqHttpHTT))
  {
    hide ResponseLine, RequestMethod, RequestUrl, HeaderName, HeaderValueMove, EndOfHeaders, BodyMove;
  }

  lemma RequestNextMoves(p: Parser)
    ensures Transition(p.(state := ReqHttpHTT), 'P') == Go(p.(state := ReqHttpHTTP))
    ensures Transition(p.(state := ReqHttpHTTP), '/') == Go(p.(state := ReqHttpMajor))
  {
    hide ResponseLine, RequestMethod, RequestUrl, HeaderName, HeaderValueMove, EndOfHeaders, BodyMove;
  }

  lemma RequestVersionMoves(p: Parser, major: char, minor: char)
    requires IsNum(major) && IsNum(minor)
    ensures Transition(p.(state := ReqHttpMajor), major) == Go(p.(state := ReqHttpDot, major := Digit(major)))
    ensures Transition(p.(state := ReqHttpDot), '.') == Go(p.(state := ReqHttpMinor))
    ensures Transition(p.(state := ReqHttpMinor), minor) == Go(p.(state := ReqHttpEnd, minor := Digit(minor)))
  {
    hide IsNum, Digit, ResponseLine, RequestMethod, RequestUrl, HeaderName, HeaderValueMove, EndOfHeaders, BodyMove;
  }

  lemma RequestEndMoves(p: Parser)
    ensures Transition(p.(state := ReqHttpEnd), CR) == Go(p.(state := ReqLineAlmostDone))
    ensures Transition(p.(state := ReqLineAlmostDone), LF) == Go(p.(state := HeaderFieldStart))
  {
    hide ResponseLine, RequestMethod, RequestUrl, HeaderName, HeaderValueMove, EndOfHeaders, BodyMove;
  }

  lemma ProtocolOfRequest(ask: Answers, p: Parser, out: seq<Event>)
    requires p.state.ReqHttpStart?
    ensures Feed(ask, p, out, "HTTP/") == Fed(p.(state := ReqHttpMajor), out)
  {
    hide Feed, Step, Transition;
    RequestMoves(p);
    RequestNextMoves(p);
    FeedNone(ask, p, out);
    FeedMove(ask, p, out, "", p, out, 'H', p.(state := ReqHttpH));
    FeedMove(ask, p, out, "" + "H", p.(state := ReqHttpH), out, 'T', p.(state := ReqHttpHT));
    FeedMove(ask, p, out, "" + "H" + "T", p.(state := ReqHttpHT), out, 'T', p.(state := ReqHttpHTT));
    FeedMove(ask, p, out, "" + "H" + "T" + "T", p.(state := ReqHttpHTT), out, 'P', p.(state := ReqHttpHTTP));
    FeedMove(ask, p, out, "" + "H" + "T" + "T" + "P", p.(state := ReqHttpHTTP), out, '/', p.(state := ReqHttpMajor));
    assert "" + "H" + "T" + "T" + "P" + "/" == "HTTP/";
  }

  lemma VersionOfRequest(ask: Answers, p: Parser, out: seq<Event>, major: char, minor: char)
    requires p.state.ReqHttpStart? && IsNum(major) && IsNum(minor)
    ensures Feed(ask, p, out, VersionText(major, minor) + [CR] + [LF]) ==
            Fed(p.(state := HeaderFieldStart, major := Digit(major), minor := Digit(minor)), out)
  {
    hide Feed, Step, Transition, IsNum, Digit;
    var q1 := p.(major := Digit(major));
    var q2 := q1.(minor := Digit(minor));
    ProtocolOfRequest(ask, p, out);
    RequestVersionMoves(p, major, minor);
    RequestVersionMoves(q1, major, minor);
    RequestEndMoves(q2);
    FeedMove(ask, p, out, "HTTP/", p.(state := ReqHttpMajor), out, major, q1.(state := ReqHttpDot));
    FeedMove(ask, p, out, "HTTP/" + [major], q1.(state := ReqHttpDot), out, '.', q1.(state := ReqHttpMinor));
    FeedMove(ask, p, out, "HTTP/" + [major] + ".", q1.(state := ReqHttpMinor), out, minor, q2.(state := ReqHttpEnd));
    FeedMove(ask, p, out, VersionText(major, minor), q2.(state := ReqHttpEnd), out, CR, q2.(state := ReqLineAlmostDone));
    FeedMove(ask, p, out, VersionText(major, minor) + [CR], q2.(state := ReqLineAlmostDone), out, LF, q2.(state := HeaderFieldStart));
  }

  lemma FeedNone(ask: Answers, p: Parser, out: seq<Event>)
    ensures Feed(ask, p, out, "") == Fed(p, out)
  {
  }

  /** The URL automaton over a string. */
  function UrlRun(s: State, u: string): State {
    if u == "" then s else UrlStep(UrlRun(s, u[..|u| - 1]), u[|u| - 1])
  }

  /** A CONNECT request begins with the host. */
  function UrlStart(m: Method): State { if m.CONNECT? then ReqServerStart else ReqSpacesBeforeUrl }

  /** The text may be the URL of a request: a path, a whole URL, or for CONNECT a host. */
  predicate Target(m: Method, u: string) {
    var s := UrlRun(UrlStart(m), u);
    u != "" && !s.Dead? && !s.ReqSchema? && !s.ReqSchemaSlash? && !s.ReqSchemaSlashSlash? && !s.ReqServerStart?
  }

  predicate NoBreaks(u: string) { forall i | 0 <= i < |u| :: u[i] != ' ' && u[i] != CR && u[i] != LF }

  lemma UrlFirst(ask: Answers, p: Parser, out: seq<Event>, ch: char)
    requires p.state.ReqSpacesBeforeUrl? && ch != ' '
    ensures var t := UrlStep(UrlStart(p.verb), ch);
      Step(ask, p, out, ch) == if t.Dead? then Refused(InvalidUrl) else Consumed(p.(state := t), Emit(out, Data(Url, [ch])), false)
  {
    hide Emit, UrlStep;
  }

  lemma UrlNext(ask: Answers, p: Parser, out: seq<Event>, ch: char)
    requires Seed(p.state) == Some(Url) && ch != ' ' && ch != CR && ch != LF
    ensures var t := UrlStep(p.state, ch);
      Step(ask, p, out, ch) == if t.Dead? then Refused(InvalidUrl) else Consumed(p.(state := t), Emit(out, Data(Url, [ch])), false)
  {
    hide Emit, UrlStep, ResponseLine, RequestMethod, RequestVersion, HeaderName, HeaderValueMove, EndOfHeaders, BodyMove;
    SeedStays(p.state, ch);
  }

  lemma SeedStays(s: State, ch: char)
    ensures var t := UrlStep(s, ch); t.Dead? || Seed(t) == Some(Url)
  {
    hide UrlStep;
  }

  lemma DeadUrl(ch: char)
    ensures UrlStep(Dead, ch).Dead?
  {
  }

  /** The bytes of a URL, up to the first that it cannot have. */
  lemma {:induction false} UrlRead(ask: Answers, p: Parser, out: seq<Event>, u: string)
    requires p.state.ReqSpacesBeforeUrl? && u != "" && NoBreaks(u)
    ensures var s := UrlRun(UrlStart(p.verb), u);
      && (s.Dead? || Seed(s) == Some(Url))
      && Feed(ask, p, out, u) == if s.Dead? then Failed(InvalidUrl) else Fed(p.(state := s), Emit(out, Data(Url, u)))
    decreases |u|
  {
    hide Step, Feed, Emit, UrlStep, Seed;
    var x, ch := u[..|u| - 1], u[|u| - 1];
    assert u == x + [ch];
    FeedByte(ask, p, out, ch);
    if x == "" {
      assert u == [ch];
      UrlFirst(ask, p, out, ch);
      SeedStays(UrlStart(p.verb), ch);
    } else {
      var s := UrlRun(UrlStart(p.verb), x);
      UrlRead(ask, p, out, x);
      FeedSplits(ask, p, out, x, [ch]);
      SeedStays(s, ch);
      if s.Dead? {
        DeadUrl(ch);
      } else {
        var q, told := p.(state := s), Emit(out, Data(Url, x));
        UrlNext(ask, q, told, ch);
        FeedByte(ask, q, told, ch);
        EmitJoins(out, Url, x, [ch]);
      }
    }
  }

  /** The space behind the URL. */
  lemma UrlEnds(ask: Answers, p: Parser, out: seq<Event>)
    requires Seed(p.state) == Some(Url)
    ensures Step(ask, p, out, ' ') ==
            if p.state.ReqSchema? || p.state.ReqSchemaSlash? || p.state.ReqSchemaSlashSlash? || p.state.ReqServerStart? then Refused(InvalidUrl)
            else Consumed(p.(state := ReqHttpStart), Emit(out, Data(Url, "")), false)
  {
    hide Emit;
  }

  /** A text without spaces and line ends is taken as a URL exactly if it is one, and told as it was written. */
  lemma TargetRead(ask: Answers, p: Parser, out: seq<Event>, u: string)
    requires p.state.ReqSpacesBeforeUrl? && u != "" && NoBreaks(u)
    ensures Feed(ask, p, out, u + " ") ==
            if Target(p.verb, u) then Fed(p.(state := ReqHttpStart), Emit(out, Data(Url, u))) else Failed(InvalidUrl)
  {
    hide Step, Feed, Emit, UrlRun, Seed;
    UrlRead(ask, p, out, u);
    FeedSplits(ask, p, out, u, " ");
    var s := UrlRun(UrlStart(p.verb), u);
    if !s.Dead? {
      var q, told := p.(state := s), Emit(out, Data(Url, u));
      UrlEnds(ask, q, told);
      FeedByte(ask, q, told, ' ');
      EmitJoins(out, Url, u, "");
      assert u + "" == u;
    }
  }

  /** A target has no spaces and no line ends. */
  lemma {:induction false} TargetNoBreaks(s: State, u: string)
    requires !UrlRun(s, u).Dead?
    ensures NoBreaks(u)
    decreases |u|
  {
    hide IsUrlChar, IsUserinfoChar, IsAlpha;
    if u != "" {
      DeadUrl(u[|u| - 1]);
      TargetNoBreaks(s, u[..|u| - 1]);
    }
  }

  /** A request line, with any method and any URL that goes with it, tells the application the URL and leaves its method and
      version in the parser. */
  lemma RequestLineRead(ask: Answers, p: Parser, out: seq<Event>, m: Method, url: string, major: char, minor: char)
    requires p.state.StartReq? && Target(m, url) && IsNum(major) && IsNum(minor)
    ensures Feed(ask, p, out, MethodName(m) + " " + (url + " ") + (VersionText(major, minor) + [CR] + [LF])) ==
            Fed(Reading(p, m, |MethodName(m)| + 1).(state := HeaderFieldStart, major := Digit(major), minor := Digit(minor)),
                Emit(Emit(out, Notify(MessageBegin)), Data(Url, url)))
  {
    TargetNoBreaks(UrlStart(m), url);
    hide Feed, Step, Emit, Transition, IsNum, Digit, VersionText, MethodName, UrlRun;
    var q, told := Reading(p, m, |MethodName(m)| + 1).(state := ReqSpacesBeforeUrl), Emit(out, Notify(MessageBegin));
    var line := MethodName(m) + " ";
    MethodIsKnown(ask, p, out, m);
    FeedOn(ask, p, out, line, url + " ", q, told);
    TargetRead(ask, q, told, url);
    var q1, told1 := q.(state := ReqHttpStart), Emit(told, Data(Url, url));
    FeedOn(ask, p, out, line + (url + " "), VersionText(major, minor) + [CR] + [LF], q1, told1);
    VersionOfRequest(ask, q1, told1, major, minor);
  }
}
