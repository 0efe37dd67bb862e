/** The parser object, and what its calls do. */
module HttpParser {
  import opened HttpTypes
  import opened HttpChars
  import opened HttpTransition
  import opened HttpInvariant
  import opened HttpFeed
  import opened HttpHalts
  import opened HttpArm
  import opened HttpOrder
  import opened HttpRuns
  import opened HttpOverrun
  import opened HttpVerdict
  import opened HttpExecute
  import G = HttpGrammar

  /** What a call leaves behind: the fields, the trace of all callbacks so far, the byte counter, the error. */
  datatype View = View(p: Parser, out: seq<Event>, nread: nat, errno: Status)

  /** A parser that can be called. */
  predicate Ready(v: View, limit: nat) {
    Valid(v.p) && v.nread <= limit && (v.p.state.ChunkSizeStart? ==> v.nread == 0)
  }

  /** What a text means for a parser: the fields and the trace, the byte counter, the first callback that does not let the
      parser go on, the first value that is cut off, and what ends the call if there is none. */
  datatype Meaning = Meaning(whole: FeedResult, count: Option<nat>, halts: TextHalt, cut: Option<CutPoint>, verdict: Verdict)

  function Starting(v: View): Counters { Counters(v.nread, v.nread, 0, false) }

  ghost function MeaningOf(ask: Answers, react: Reactions, limit: nat, v: View, data: string): Meaning {
    Meaning(Feed(ask, v.p, v.out, data), Tally(ask, v.p, v.out, v.nread, limit, data),
            Halts(ask, react, v.p, v.out, Starting(v), data), FirstCut(ask, react, v.p, v.out, Starting(v), limit, data),
            Decide(ask, react, v.p, v.out, Starting(v), limit, None, data))
  }

  /** There are bytes at the end of a buffer that the application is told of before the call ends. */
  predicate Unfinished(p: Parser, k: Counters) { Seed(p.state).Some? || k.body }

  /** A callback has stopped the parser, and this is what it has left. */
  predicate HaltsAs(h: TextHalt, nread: nat, after: View, rest: string) {
    h.HaltAt? && h.rest == rest && h.h.Halted? && !after.errno.Fine? && (h.h.status.Paused? ==> nread == h.h.nread) &&
    h.h.p == after.p && h.h.out == after.out && nread == after.nread && h.h.status == after.errno
  }

  /** The callback for the last bytes of a buffer has stopped the parser. */
  predicate FlushHalts(react: Reactions, m: Meaning, after: View) {
    m.whole == Fed(after.p, after.out) && m.count.Some? && m.halts.NoHalt? && Unfinished(after.p, m.halts.k) &&
    after.nread == (if react(m.halts.k.calls).Fail? then m.halts.k.n else m.halts.k.saved) && after.errno == StatusAfter(react(m.halts.k.calls), Data(LastKind(after.p), ""))
  }

  function LastKind(p: Parser): DataKind { if Seed(p.state).Some? then Seed(p.state).value else Body }

  /** How a call ends, `n` bytes parsed, when no value was cut off. */
  predicate Ends(react: Reactions, m: Meaning, after: View, data: string, n: nat)
    requires n <= |data|
  {
    match m.verdict
    case ToEnd =>
      if after.errno.Fine? then
        && n > 0 && m.count.Some? && m.halts.NoHalt?
        && ((m.whole == Fed(after.p, after.out) && n == |data| && m.count == Some(after.nread) &&
             (Unfinished(after.p, m.halts.k) ==> react(m.halts.k.calls).Proceed?)) ||
            m.whole == Exited(after.p, after.out, data[n..]))
      else n == |data| && FlushHalts(react, m, after)
    case ByCallback(nread) => HaltsAs(m.halts, nread, after, data[n..])
    case ByError => after.errno.Broken? && m.halts.NoHalt? && m.whole == Failed(after.errno.errno)
    case ByLimit => after.errno == Broken(HeaderOverflow) && m.count.None?
  }

  /** The same when a value was cut off. */
  predicate EndsOverrun(react: Reactions, c: CutPoint, limit: nat, after: View, data: string, n: nat)
    requires n <= |data|
  {
    match Overrun(react, c, limit)
    case PausedBehind(p, out, nread, left) => n > 0 && after == View(p, out, nread, Paused) && left == data[n..]
    case Stopped(e) => after.errno == Broken(e)
  }

  /** What a call of `execute` on a non-empty buffer has to do with feeding the buffer one byte at a time. */
  ghost predicate Call(
      ask: Answers, react: Reactions, limit: nat, before: View, after: View, data: string, n: nat, overran: bool) {
    var m := MeaningOf(ask, react, limit, before, data);
    && n <= |data| && (overran <==> m.cut.Some?)
    && (overran ==> |data| > limit && m.count.None? && !after.errno.Fine?)
    && (!after.errno.Broken? ==> Ready(after, limit))
    && (if overran then EndsOverrun(react, m.cut.value, limit, after, data, n) else Ends(react, m, after, data, n))
  }

  // --------------------------------------------------------------------------------------------------------
  // The loop

  /** The loop has come to the cursor, and what is ahead of it is what is left of the whole. */
  ghost predicate Reached(ask: Answers, react: Reactions, c: Cursor, data: string, limit: nat, m: Meaning) {
    && Good(c, data) && Behind(c) && c.nread <= limit && c.saved <= limit
    && (c.p.state.ChunkSizeStart? ==> c.nread == 0 && c.saved == 0)
    && m == Meaning(Ahead(ask, c, data), AheadCount(ask, c, data, limit), HaltsAhead(ask, react, c, data), CutAhead(ask, react, c, data, limit),
                    VerdictAhead(ask, react, c, data, limit))
  }

  /** The same in the middle of a byte that is counted. */
  ghost predicate Within(ask: Answers, react: Reactions, c: Cursor, since: Option<nat>, data: string, limit: nat, m: Meaning) {
    && Good(c, data) && Behind(c) && c.i < |data| && c.saved <= limit
    && (c.p.state.ChunkSizeStart? ==> c.nread == 1)
    && m == Meaning(Ahead(ask, c, data), MidCount(ask, c, data, limit), MidHalts(ask, react, c, data), MidCut(ask, react, c, data, limit),
                    MidVerdict(ask, react, c, data, limit, since))
  }

  function Started(v: View): Cursor {
    Cursor(v.p, if Seed(v.p.state).Some? then map[Seed(v.p.state).value := 0] else map[], v.out, 0, v.nread, v.nread, 0)
  }

  lemma StartReached(ask: Answers, react: Reactions, v: View, data: string, limit: nat)
    requires Ready(v, limit)
    ensures Reached(ask, react, Started(v), data, limit, MeaningOf(ask, react, limit, v, data))
  {
    hide Valid, Step, Emit, Feed, Tally, Halts, FirstCut;
    assert data[0..] == data;
    NotBody(v.p.state);
  }

  lemma NotBody(s: State)
    ensures Seed(s) != Some(Body)
  {
  }

  lemma StartOrdered(v: View, data: string)
    requires G.Fits(v.p, G.PlaceOf(v.out))
    ensures Ordered(Started(v), data)
  {
    hide G.Fits, G.PlaceOf, Emit;
  }

  /** Counting the byte at the cursor. */
  function CountedByte(c: Cursor): Cursor { if ParsingHeader(c.p.state) then c.(nread := c.nread + 1) else c }

  lemma CountByte(ask: Answers, react: Reactions, c: Cursor, data: string, limit: nat, m: Meaning)
    requires Reached(ask, react, c, data, limit, m) && c.i < |data|
    ensures CountedByte(c).nread > limit ==> m.count.None? && m.cut.None? && m.verdict == ByLimit
    ensures CountedByte(c).nread <= limit ==> Within(ask, react, CountedByte(c), SinceHere(CountedByte(c)), data, limit, m)
  {
    hide Valid, Step, Emit, Visible, TallyRest, HaltsRest, FirstCutRest, DecideRest;
    SameTrace(c, data);
  }

  lemma SameTrace(c: Cursor, data: string)
    requires c.i <= |data|
    ensures Visible(CountedByte(c), data) == Visible(c, data)
    ensures Ordered(c, data) ==> Ordered(CountedByte(c), data)
  {
    hide G.Fits, G.PlaceOf;
  }

  /** The byte at the cursor goes through the switch: it is counted, and either the cursor is where the whole has led, or
      the bytes skipped before it have passed the limit and it belongs to a field value, perhaps one that was cut off. */
  ghost predicate Switching(
      ask: Answers, react: Reactions, c: Cursor, since: Option<nat>, data: string, limit: nat, overran: bool, m: Meaning) {
    && Good(c, data) && Behind(c) && c.i < |data| && c.saved <= limit && c.p.state.HeaderValue? == since.Some?
    && (c.p.state.HeaderValue? ==> limit > 0 && Stops(c.p, data[c.i]))
    && (!overran ==>
          Ahead(ask, c, data) == m.whole && MidHalts(ask, react, c, data) == m.halts && MidVerdict(ask, react, c, data, limit, since) == m.verdict)
    && (c.nread <= limit ==> Within(ask, react, c, since, data, limit, m) && !overran)
    && (c.nread > limit ==> m.count.None? && c.p.state.HeaderValue? && data[c.i] != LF && (!overran ==> m.cut.None?))
    && (overran ==> |data| > limit && m.cut.Some? && CutBehind(c, data, limit, m.cut.value))
  }

  /** The loop over a value that is cut off has come to the cursor. */
  predicate CutBehind(c: Cursor, data: string, limit: nat, cut: CutPoint)
    requires c.i <= |data|
  {
    && c.p.state.HeaderValue? && c.p.header.General? && (c.p, data[c.i..]) == ValueTail(cut.p, cut.rest, limit)
    && Visible(c, data) == Emit(cut.out, Data(Value, cut.rest[..|cut.rest| - |data[c.i..]|]))
    && c.saved == cut.saved && c.calls == cut.calls
  }

  lemma CutCursor(ask: Answers, react: Reactions, c: Cursor, c': Cursor, data: string, limit: nat)
    requires c.i < |data| && c'.i <= |data| && SkippedOn(ask, react, c, c', data, limit, true) && c'.saved == c.saved && c.p.state.HeaderValue?
    ensures MidCut(ask, react, c, data, limit).Some? && CutBehind(c', data, limit, MidCut(ask, react, c, data, limit).value)
  {
    hide Emit, Visible, FirstCutRest, ValueTail, HaltsRest;
    assert data[c.i..][..|data[c.i..]| - |data[c'.i..]|] == data[c.i..c'.i];
  }

  /** The fast loops on the way. */
  lemma SkipSwitching(ask: Answers, react: Reactions, c: Cursor, c': Cursor, data: string, limit: nat, late: bool, overran: bool, m: Meaning)
    requires Within(ask, react, c, SinceHere(c), data, limit, m) && Skipped(ask, c, c', data, limit, overran) && c'.i < |data|
    requires SkippedOn(ask, react, c, c', data, limit, overran)
    requires c'.nread <= limit || late
    requires late ==> c'.p.state.HeaderValue? && data[c'.i] != LF
    requires c.nread <= limit && (ParsingHeader(c.p.state) ==> 1 <= c.nread)
    ensures Switching(ask, react, c', SinceHere(c), data, limit, overran, m)
  {
    hide Valid, Step, Emit, Visible, TallyRest, MarksFit, Feed, Behind, HaltsRest, FirstCutRest, Stops, CutBehind, DecideRest;
    if overran {
      CutCursor(ask, react, c, c', data, limit);
    }
  }

  /** The bytes skipped have passed the limit, or the loop has come to the end of the buffer. */
  lemma SkipEnds(ask: Answers, react: Reactions, c: Cursor, c': Cursor, data: string, limit: nat, overran: bool, m: Meaning)
    requires Within(ask, react, c, SinceHere(c), data, limit, m) && Skipped(ask, c, c', data, limit, overran) && c'.i <= |data|
    requires SkippedOn(ask, react, c, c', data, limit, overran)
    ensures c'.nread > limit ==> m.count.None? && (!overran ==> m.cut.None? && (!Late(c', data) ==> m.verdict == ByLimit))
    ensures overran ==> c'.nread > limit && |data| > limit && m.cut.Some? && CutBehind(c', data, limit, m.cut.value)
    ensures Continues(c, c', data) && (overran ==> c.p.state.HeaderValue?)
    ensures c'.nread <= limit && c'.i == |data| ==> Reached(ask, react, c', data, limit, m)
  {
    hide Valid, Step, Emit, Visible, TallyRest, MarksFit, Feed, Behind, HaltsRest, FirstCutRest, Stops, CutBehind, DecideRest;
    hide ParsingHeader;
    if overran {
      CutCursor(ask, react, c, c', data, limit);
    }
    if c'.i == |data| {
      assert data[c'.i..] == "";
      NothingAhead(ask, react, c', data, limit);
    }
  }

  lemma NothingAhead(ask: Answers, react: Reactions, c: Cursor, data: string, limit: nat)
    requires c.i == |data|
    ensures Ahead(ask, c, data) == Fed(c.p, Visible(c, data)) && AheadCount(ask, c, data, limit) == Some(c.nread)
    ensures HaltsAhead(ask, react, c, data) == NoHalt(CountersOf(c)) && CutAhead(ask, react, c, data, limit).None?
    ensures VerdictAhead(ask, react, c, data, limit) == if c.nread > limit then ByLimit else ToEnd
  {
    hide Visible;
    assert data[c.i..] == "";
  }

  /** The CR behind a value. */
  lemma ReturnBehind(ask: Answers, react: Reactions, p: Parser, out: seq<Event>, k: Counters)
    requires p.state.HeaderValue?
    ensures var q, told := p.(state := HeaderAlmostDone), Emit(out, Data(Value, ""));
      && Step(ask, p, out, CR) == Consumed(q, told, false)
      && HaltIn(ask, react, p, out, k, CR) ==
         if react(k.calls).Proceed? then Unhalted(k.(calls := k.calls + 1, body := false))
         else Halted(q, told, if react(k.calls).Fail? then k.n else k.saved, StatusAfter(react(k.calls), Data(Value, "")), false)
  {
    hide ResponseLine, RequestMethod, RequestVersion, RequestUrl, HeaderName, EndOfHeaders, BodyMove, Emit;
  }

  /** What else ends a value that cannot be special. */
  lemma WrongBehind(ask: Answers, react: Reactions, p: Parser, out: seq<Event>, k: Counters, ch: char)
    requires p.state.HeaderValue? && p.header.General? && Stops(p, ch) && ch != CR && ch != LF
    ensures Step(ask, p, out, ch) == Refused(InvalidHeaderToken) && HaltIn(ask, react, p, out, k, ch) == Unhalted(k)
  {
    hide ResponseLine, RequestMethod, RequestVersion, RequestUrl, HeaderName, EndOfHeaders, BodyMove, Emit;
  }

  /** The byte at which the loop over a value stops ends the value, if it is not refused. */
  lemma ValueLeft(ask: Answers, p: Parser, out: seq<Event>, ch: char)
    requires p.state.HeaderValue? && Stops(p, ch)
    ensures var r := Step(ask, p, out, ch); r.Consumed? ==> !r.p.state.HeaderValue?
  {
    hide ResponseLine, RequestMethod, RequestVersion, RequestUrl, HeaderName, EndOfHeaders, BodyMove;
    hide Emit, ValueChar, ValueStart, FinishHeader, Called, Flushed, IsHeaderChar;
    ValueCharGoes(p, ch);
  }

  /** Where no loop over a value goes on, its beginning does not matter, and the limit that has been passed ends the call. */
  lemma DecideBehind(
      ask: Answers, react: Reactions, p: Parser, out: seq<Event>, k: Counters, limit: nat, since: Option<nat>, data: string)
    requires !p.state.HeaderValue? || since.None?
    ensures Decide(ask, react, p, out, k, limit, since, data) == Decide(ask, react, p, out, k, limit, None, data)
    ensures k.n > limit ==> Decide(ask, react, p, out, k, limit, None, data) == ByLimit
  {
    hide DecideRest;
  }

  lemma VerdictOn(ask: Answers, react: Reactions, c: Cursor, c': Cursor, since: Option<nat>, data: string, limit: nat)
    requires Good(c, data) && c.i < |data| && c.p.state.HeaderValue? == since.Some? && (c.p.state.HeaderValue? ==> Stops(c.p, data[c.i]))
    requires Faithful(ask, react, c, data, Following(c')) && Halting(ask, react, c, data, Following(c'))
    ensures MidVerdict(ask, react, c, data, limit, since) == VerdictAhead(ask, react, c', data, limit)
    ensures c'.nread > limit ==> VerdictAhead(ask, react, c', data, limit) == ByLimit
  {
    hide Valid, Step, Emit, Visible, MarksFit, HaltIn, Decide, Stops;
    assert data[c.i..][1..] == data[c'.i..] && data[c.i..][0] == data[c.i];
    if since.Some? {
      ValueLeft(ask, c.p, Visible(c, data), data[c.i]);
    }
    DecideBehind(ask, react, c'.p, Visible(c', data), CountersOf(c'), limit, since, data[c'.i..]);
  }

  /** One byte is done with. */
  lemma ByteDone(ask: Answers, react: Reactions, c: Cursor, c': Cursor, since: Option<nat>, data: string, limit: nat, overran: bool, m: Meaning)
    requires Switching(ask, react, c, since, data, limit, overran, m)
    requires Faithful(ask, react, c, data, Following(c')) && Halting(ask, react, c, data, Following(c'))
    ensures c'.i == c.i + 1 && Good(c', data)
    ensures c'.nread > limit ==> m.count.None? && (!overran ==> m.cut.None? && m.verdict == ByLimit)
    ensures c'.nread > limit && overran ==> Overrun(react, m.cut.value, limit) == Stopped(HeaderOverflow)
    ensures c'.nread <= limit ==> Reached(ask, react, c', data, limit, m) && !overran
  {
    hide Valid, Step, Emit, Visible, MarksFit, HaltIn, Feed, Tally, Halts, FirstCut, Stops, Cut, ValueTail, MidVerdict, VerdictAhead;
    VerdictOn(ask, react, c, c', since, data, limit);
    if c.nread > limit {
      ValueByte(ask, c.p, Visible(c, data), data[c.i]);
      if overran {
        CutGoesOn(ask, react, c, c', data, limit, m.cut.value);
      }
    } else {
      ByteReached(ask, react, c, c', since, data, limit, m);
    }
  }

  /** The byte behind a cut value lets the parser go on only if it is a CR and the callback does so too. */
  lemma CutGoesOn(ask: Answers, react: Reactions, c: Cursor, c': Cursor, data: string, limit: nat, cut: CutPoint)
    requires Good(c, data) && c.i < |data| && CutBehind(c, data, limit, cut) && Stops(c.p, data[c.i]) && data[c.i] != LF
    requires Faithful(ask, react, c, data, Following(c')) && Halting(ask, react, c, data, Following(c'))
    ensures Overrun(react, cut, limit) == Stopped(HeaderOverflow)
  {
    hide Valid, Step, Emit, Visible, MarksFit, HaltIn, Stops, ValueTail;
    if data[c.i] == CR {
      ReturnBehind(ask, react, c.p, Visible(c, data), CountersOf(c));
    } else {
      WrongBehind(ask, react, c.p, Visible(c, data), CountersOf(c), data[c.i]);
    }
  }

  lemma ByteReached(ask: Answers, react: Reactions, c: Cursor, c': Cursor, since: Option<nat>, data: string, limit: nat, m: Meaning)
    requires Within(ask, react, c, since, data, limit, m) && c.nread <= limit && c.p.state.HeaderValue? == since.Some?
    requires c.p.state.HeaderValue? ==> limit > 0 && Stops(c.p, data[c.i])
    requires Faithful(ask, react, c, data, Following(c')) && Halting(ask, react, c, data, Following(c'))
    ensures Reached(ask, react, c', data, limit, m)
  {
    hide Valid, Step, Emit, Visible, MarksFit, HaltIn, Feed, Tally, Halts, FirstCut, Stops, Cut, MidVerdict, VerdictAhead;
    assert data[c.i..][1..] == data[c'.i..] && data[c.i..][0] == data[c.i];
    FeedsOn(ask, c, data);
    VerdictOn(ask, react, c, c', since, data, limit);
    if c.p.state.HeaderValue? {
      StopIsNoCut(c.p, data[c.i..], limit);
    }
  }

  lemma FeedsOn(ask: Answers, c: Cursor, data: string)
    requires c.i < |data|
    ensures var r := Rest(ask, c, data);
      Ahead(ask, c, data) ==
      if r.Consumed? then Feed(ask, r.p, r.out, data[c.i + 1..])
      else if r.Left? then Exited(r.p, r.out, data[c.i + 1..])
      else Failed(r.errno)
  {
    hide Step, Visible;
    assert data[c.i..][1..] == data[c.i + 1..] && data[c.i..][0] == data[c.i];
  }

  /** The counter that is left behind: a failure in the loop over a value comes before its bytes are counted. */
  function LeftCount(c: Cursor, c': Cursor, since: Option<nat>, status: Status, ch: char): nat {
    if status.Broken? && Uncounted(c.p, since, ch) then since.value else c'.nread
  }

  lemma VerdictDone(
      ask: Answers, react: Reactions, c: Cursor, c': Cursor, since: Option<nat>, status: Status, n: nat, data: string, limit: nat)
    requires Good(c, data) && c.i < |data|
    requires Faithful(ask, react, c, data, Return(c', status, n)) && Halting(ask, react, c, data, Return(c', status, n))
    ensures var v, h := MidVerdict(ask, react, c, data, limit, since), HaltOf(ask, react, c, data);
      if h.Halted? then v == ByCallback(LeftCount(c, c', since, status, data[c.i])) else v == if status.Fine? then ToEnd else ByError
  {
    hide Valid, Step, Emit, Visible, MarksFit, HaltIn, Decide;
    assert data[c.i..][0] == data[c.i];
  }

  /** The call ends in the switch. */
  lemma CallDone(
      ask: Answers, react: Reactions, limit: nat, before: View, c: Cursor, c': Cursor, since: Option<nat>, status: Status, n: nat, data: string, overran: bool)
    requires Switching(ask, react, c, since, data, limit, overran, MeaningOf(ask, react, limit, before, data))
    requires Faithful(ask, react, c, data, Return(c', status, n)) && Halting(ask, react, c, data, Return(c', status, n))
    ensures Call(ask, react, limit, before, View(c'.p, c'.out, LeftCount(c, c', since, status, data[c.i]), status), data, n, overran)
  {
    hide Valid, Step, Emit, Visible, MarksFit, HaltIn, Feed, Tally, Halts, FirstCut, Stops, Cut, ValueTail, MeaningOf, Overrun, MidVerdict;
    var m := MeaningOf(ask, react, limit, before, data);
    ValueByteIf(ask, c, data);
    FeedsOn(ask, c, data);
    VerdictDone(ask, react, c, c', since, status, n, data, limit);
    assert data[c.i..][1..] == data[c.i + 1..] && data[c.i..][0] == data[c.i];
    if overran {
      CutReturns(ask, react, c, c', since, status, n, data, limit, m.cut.value);
    } else if c.nread <= limit {
      NoCutReturns(ask, react, c, c', since, status, n, data, limit, m);
    }
  }

  lemma NoCutReturns(
      ask: Answers, react: Reactions, c: Cursor, c': Cursor, since: Option<nat>, status: Status, n: nat, data: string, limit: nat, m: Meaning)
    requires Within(ask, react, c, since, data, limit, m) && (c.p.state.HeaderValue? ==> limit > 0 && Stops(c.p, data[c.i]))
    requires Faithful(ask, react, c, data, Return(c', status, n)) && Halting(ask, react, c, data, Return(c', status, n))
    ensures m.cut.None? && (status.Fine? ==> m.count.Some?)
  {
    hide Valid, Step, Emit, Visible, MarksFit, HaltIn, Feed, Tally, Halts, FirstCut, Stops, Cut, MidVerdict;
    assert data[c.i..][0] == data[c.i];
    if c.p.state.HeaderValue? {
      StopIsNoCut(c.p, data[c.i..], limit);
    }
  }

  /** The call ends at the byte behind a cut value. */
  lemma CutReturns(
      ask: Answers, react: Reactions, c: Cursor, c': Cursor, since: Option<nat>, status: Status, n: nat, data: string, limit: nat, cut: CutPoint)
    requires Good(c, data) && c.i < |data| && CutBehind(c, data, limit, cut) && Stops(c.p, data[c.i]) && data[c.i] != LF
    requires Faithful(ask, react, c, data, Return(c', status, n)) && Halting(ask, react, c, data, Return(c', status, n))
    ensures n <= |data| && EndsOverrun(react, cut, limit, View(c'.p, c'.out, LeftCount(c, c', since, status, data[c.i]), status), data, n) && !status.Fine?
  {
    hide Valid, Step, Emit, Visible, MarksFit, HaltIn, Stops, ValueTail;
    if data[c.i] == CR {
      ReturnBehind(ask, react, c.p, Visible(c, data), CountersOf(c));
      EmitJoins(cut.out, Value, cut.rest[..|cut.rest| - |data[c.i..]|], "");
      assert cut.rest[..|cut.rest| - |data[c.i..]|] + "" == cut.rest[..|cut.rest| - |data[c.i..]|];
      assert data[c.i..][1..] == data[c.i + 1..] && data[c.i..][0] == data[c.i];
    } else {
      WrongBehind(ask, react, c.p, Visible(c, data), CountersOf(c), data[c.i]);
    }
  }

  lemma ValueByteIf(ask: Answers, c: Cursor, data: string)
    requires c.i < |data|
    ensures c.p.state.HeaderValue? ==> !Rest(ask, c, data).Left?
  {
    hide Visible;
    if c.p.state.HeaderValue? {
      ValueByte(ask, c.p, Visible(c, data), data[c.i]);
    }
  }

  // --------------------------------------------------------------------------------------------------------
  // The end of the buffer

  /** One of the callbacks for bytes that are still marked, unless an earlier one has stopped the parser. */
  function FlushOne(react: Reactions, c: Cursor, status: Status, d: DataKind, data: string): (Cursor, Status)
    requires c.i == |data| && forall e | e in c.marks :: c.marks[e] <= c.i
  {
    if !status.Fine? || d !in c.marks then (c, status) else
    var event := Data(d, data[c.marks[d]..]);
    (Notified(c, event), StatusAfter(react(c.calls), event))
  }

  lemma FlushOneAgrees(react: Reactions, c: Cursor, d: DataKind, data: string)
    requires c.i == |data| && (forall e | e in c.marks :: c.marks[e] < c.i) && (forall e, f | e in c.marks && f in c.marks :: e == f)
    ensures var (c', st) := FlushOne(react, c, Fine, d, data);
      if d in c.marks then
        c' == c.(out := Visible(c, data), calls := c'.calls, marks := map[]) && st == StatusAfter(react(c.calls), Data(d, ""))
      else c' == c && st == Fine
  {
    hide Emit;
    if d in c.marks {
      VisibleOne(c, data, d);
      assert c.marks - {d} == map[];
      assert data[c.marks[d]..] == data[c.marks[d]..c.i];
    }
  }

  /** The callbacks for all marked bytes, in the order of the program; there is at most one of them. */
  method Flush(react: Reactions, c: Cursor, data: string) returns (c': Cursor, status: Status)
    requires c.i == |data| && (forall d | d in c.marks :: c.marks[d] < c.i) && (forall d, e | d in c.marks && e in c.marks :: d == e)
    ensures c' == c.(out := c'.out, calls := c'.calls, marks := c'.marks) && c'.out == Visible(c, data)
    ensures c.marks == map[] ==> status.Fine?
    ensures forall d | d in c.marks :: status == StatusAfter(react(c.calls), Data(d, ""))
  {
    hide FlushOne, Visible;
    c', status := c, Fine;
    var kinds := [Field, Value, Url, Body, Status];
    forall d: DataKind ensures d in kinds {
      match d
      case Field => assert kinds[0] == d;
      case Value => assert kinds[1] == d;
      case Url => assert kinds[2] == d;
      case Body => assert kinds[3] == d;
      case Status => assert kinds[4] == d;
    }
    NothingSeen(c, data);
    var next := 0;
    while next < |kinds|
      invariant next <= |kinds|
      invariant c' == c.(out := c'.out, calls := c'.calls, marks := c'.marks)
      invariant (c' == c && status.Fine? && (forall d | d in c.marks :: d !in kinds[..next])) ||
                (c'.out == Visible(c, data) && c'.marks == map[] && c.marks != map[] &&
                 forall d | d in c.marks :: status == StatusAfter(react(c.calls), Data(d, "")))
    {
      FlushesOne(react, c', status, kinds[next], data);
      var (c1, st) := FlushOne(react, c', status, kinds[next], data);
      if c' == c && status.Fine? {
        FlushOneAgrees(react, c, kinds[next], data);
      }
      c', status := c1, st;
      next := next + 1;
    }
    assert kinds[..next] == kinds;
  }

  /** With nothing marked, or after a callback has stopped the parser, there is nothing to tell. */
  lemma FlushesOne(react: Reactions, c: Cursor, status: Status, d: DataKind, data: string)
    requires c.i == |data| && forall e | e in c.marks :: c.marks[e] <= c.i
    ensures c.marks == map[] || !status.Fine? ==> FlushOne(react, c, status, d, data) == (c, status)
  {
  }

  /** What is still marked at the end of a buffer. */
  lemma LastMarks(c: Cursor, data: string)
    requires Good(c, data)
    ensures Unfinished(c.p, CountersOf(c)) <==> c.marks != map[]
    ensures c.marks != map[] ==> LastKind(c.p) in c.marks
  {
    hide Valid;
    NotBody(c.p.state);
    if d :| d in c.marks {
    }
  }

  /** The call ends behind the last byte. */
  lemma BufferDone(
      ask: Answers, react: Reactions, limit: nat, before: View, c: Cursor, c': Cursor, status: Status, data: string)
    requires Reached(ask, react, c, data, limit, MeaningOf(ask, react, limit, before, data))
    requires c.i == |data| > 0 && c' == c.(out := c'.out, calls := c'.calls, marks := c'.marks) && c'.out == Visible(c, data)
    requires c.marks == map[] ==> status.Fine?
    requires forall d | d in c.marks :: status == StatusAfter(react(c.calls), Data(d, ""))
    ensures Call(ask, react, limit, before, View(c'.p, c'.out, if status.Paused? then c'.saved else c'.nread, status), data, |data|, false)
  {
    hide Valid, Step, Emit, Visible, MarksFit, MeaningOf, Unfinished, LastKind, Ahead, AheadCount, HaltsAhead, CutAhead, VerdictAhead;
    LastMarks(c, data);
    NothingAhead(ask, react, c, data, limit);
    assert data[|data|..] == "";
  }

  // --------------------------------------------------------------------------------------------------------
  // The object

  /** The signal of the end of the stream, as a change of what is left behind. */
  ghost predicate EndCall(react: Reactions, before: View, after: View, n: nat) {
    if before.p.state.BodyIdentityEof? then
      n == 0 && after.p == before.p && after.nread == before.nread &&
      after.out == Emit(before.out, Notify(MessageComplete)) &&
      after.errno == StatusAfter(react(0), Notify(MessageComplete))
    else if before.p.state.Dead? || before.p.state.StartReqOrRes? || before.p.state.StartRes? || before.p.state.StartReq? then
      n == 0 && after == before
    else
      n == 1 && after == before.(errno := Broken(InvalidEofState))
  }

  /** Where a parser stands in the callback grammar. */
  predicate InGrammar(v: View) { EndsOrdered(v.p, v.out, v.errno) }

  lemma RightView(v: View)
    requires InGrammar(v)
    ensures !G.PlaceOf(v.out).Wrong?
  {
    hide G.Fits, G.PlaceOf;
    if !v.errno.Broken? {
      G.FitsRight(v.p, G.PlaceOf(v.out));
    }
  }

  lemma StartInOrder(v: View, data: string)
    requires InGrammar(v) && v.errno.Fine?
    ensures Ordered(Started(v), data)
  {
    hide G.Fits, G.PlaceOf;
    StartOrdered(v, data);
  }

  /** The trace is in order when all of it has been told. */
  lemma ToldInOrder(c: Cursor, v: View, data: string)
    requires Good(c, data) && Ordered(c, data) && v.p == c.p && v.out == Visible(c, data)
    ensures InGrammar(v)
  {
    hide G.Fits, G.PlaceOf, Visible, Valid, MarksFit;
    G.FitsRight(c.p, G.PlaceOf(v.out));
  }

  lemma ReturnInOrder(r: ArmResult, data: string)
    requires r.Return? && InOrder(r, data)
    ensures InGrammar(View(r.c.p, r.c.out, r.c.nread, r.status))
  {
    hide EndsOrdered;
  }

  lemma ReachedGood(ask: Answers, react: Reactions, c: Cursor, data: string, limit: nat, m: Meaning)
    requires Reached(ask, react, c, data, limit, m)
    ensures Good(c, data) && Behind(c) && c.nread <= limit && c.i <= |data|
    ensures c.i < |data| ==> Good(CountedByte(c), data) && Behind(CountedByte(c)) && (ParsingHeader(c.p.state) ==> 1 <= CountedByte(c).nread)
    ensures c.i == |data| > 0 ==> (forall d | d in c.marks :: c.marks[d] < c.i) && (forall d, e | d in c.marks && e in c.marks :: d == e)
  {
    hide Valid, Step, Emit, Visible;
  }

  lemma SkippedMoves(ask: Answers, c: Cursor, c': Cursor, data: string, limit: nat, overran: bool)
    requires c.i < |data| && Skipped(ask, c, c', data, limit, overran)
    ensures c.i <= c'.i <= |data| && c'.p.state == c.p.state && Good(c', data)
  {
    hide Valid, Step, Emit, Visible, MarksFit;
  }

  lemma SwitchingGood(ask: Answers, react: Reactions, c: Cursor, since: Option<nat>, data: string, limit: nat, overran: bool, m: Meaning)
    requires Switching(ask, react, c, since, data, limit, overran, m)
    ensures Good(c, data) && c.i < |data| && (c.p.state.ChunkSizeStart? ==> c.nread == 1)
  {
    hide Valid, Step, Emit, Visible, MarksFit, HaltsRest, FirstCutRest;
  }

  /** A call that ends because the counter has passed the limit. */
  lemma CallOverflows(
      ask: Answers, react: Reactions, limit: nat, before: View, c: Cursor, data: string, n: nat, overran: bool)
    requires var m := MeaningOf(ask, react, limit, before, data);
      && m.count.None? && (overran <==> m.cut.Some?) && (!overran ==> m.verdict == ByLimit)
      && (overran ==> |data| > limit && Overrun(react, m.cut.value, limit) == Stopped(HeaderOverflow))
    requires n <= |data|
    ensures Call(ask, react, limit, before, View(c.p, c.out, c.nread, Broken(HeaderOverflow)), data, n, overran)
  {
    hide Valid, Step, Emit, Visible, MarksFit, MeaningOf, Overrun;
  }

  /** The value ends with the buffer, or with an LF. */
  lemma CutStops(react: Reactions, c: Cursor, data: string, limit: nat, cut: CutPoint)
    requires c.i <= |data| && CutBehind(c, data, limit, cut) && (c.i == |data| || data[c.i] == LF)
    ensures Overrun(react, cut, limit) == Stopped(HeaderOverflow)
  {
    hide Visible, ValueTail;
    if c.i < |data| {
      assert data[c.i..][0] == data[c.i];
    }
  }

  /** The trace at the cursor is in order when the call ends there in an error. */
  lemma OrderedStops(c: Cursor, data: string)
    requires Good(c, data) && Ordered(c, data)
    ensures EndsOrdered(c.p, c.out, Broken(HeaderOverflow))
  {
    hide Good, Ordered, G.PlaceOf;
    ToldRight(c, data);
  }

  class HttpParser {
    const limit: nat
    var core: Parser
    var nread: nat
    var errno: Status
    var trace: seq<Event>

    function Look(): View
      reads this
    {
      View(core, trace, nread, errno)
    }

    constructor (kind: Kind, limit: nat)
      ensures this.limit == limit && Look() == View(Init(kind), [], 0, Fine) && Ready(Look(), limit) && InGrammar(Look())
    {
      hide MethodName, G.Fits, G.PlaceOf;
      G.InitFits(kind);
      this.limit := limit;
      core := Init(kind);
      nread, errno, trace := 0, Fine, [];
    }

    /** `http_parser_pause`, for a parser that is not in an error state. */
    method SetPaused(paused: bool)
      requires !errno.Broken?
      modifies this`errno
      ensures Look() == old(Look()).(errno := if paused then Paused else Fine)
      ensures old(InGrammar(Look())) ==> InGrammar(Look())
    {
      errno := if paused then Paused else Fine;
    }

    /** What every way out writes back. */
    method Store(c: Cursor, status: Status)
      modifies this`core, this`nread, this`errno, this`trace
      ensures Look() == View(c.p, c.out, c.nread, status)
    {
      core, nread, errno, trace := c.p, c.nread, status, c.out;
    }

    /** The way out when the counter has passed the limit. */
    method Stop(
        ask: Answers, react: Reactions, ghost before: View, c: Cursor, ghost data: string, ghost n: nat, ghost overran: bool, ghost inOrder: bool)
      requires var m := MeaningOf(ask, react, limit, before, data);
        && m.count.None? && (overran <==> m.cut.Some?) && (!overran ==> m.verdict == ByLimit)
        && (overran ==> |data| > limit && Overrun(react, m.cut.value, limit) == Stopped(HeaderOverflow))
      requires n <= |data| && (inOrder ==> Good(c, data) && Ordered(c, data))
      modifies this`core, this`nread, this`errno, this`trace
      ensures Call(ask, react, limit, before, Look(), data, n, overran) && (inOrder ==> InGrammar(Look()))
    {
      hide Valid, Step, Emit, Visible, MarksFit, Feed, Tally, TallyRest, Halts, HaltsRest, FirstCut, FirstCutRest, Reached, Within, Switching,
        Faithful, Halting, Skipped, SkippedOn, Continues, Call, EndCall, Good, Behind, Ready, Ordered, EndsOrdered, MeaningOf,
        Overrun, CutBehind, ParsingHeader, Decide, DecideRest;
      CallOverflows(ask, react, limit, before, c, data, n, overran);
      if inOrder {
        OrderedStops(c, data);
      }
      Store(c, Broken(HeaderOverflow));
    }

    /** A call without bytes: the stream has ended. */
    method SignalEnd(react: Reactions) returns (n: nat)
      requires errno.Fine?
      modifies this`errno, this`trace
      ensures EndCall(react, old(Look()), Look(), n)
      ensures old(InGrammar(Look())) ==> !G.PlaceOf(trace).Wrong?
    {
      hide Emit, G.Fits, G.PlaceOf;
      if InGrammar(Look()) {
        G.FitsRight(core, G.PlaceOf(trace));
        G.PlaceOfEmit(trace, Notify(MessageComplete));
      }
      match core.state
      case BodyIdentityEof =>
        trace := Emit(trace, Notify(MessageComplete));
        errno := StatusAfter(react(0), Notify(MessageComplete));
        n := 0;
      case Dead => n := 0;
      case StartReqOrRes => n := 0;
      case StartRes => n := 0;
      case StartReq => n := 0;
      case _ =>
        errno := Broken(InvalidEofState);
        n := 1;
    }

    /** `http_parser_execute`. The number returned is how many bytes were parsed. A buffer must be short enough
        for the 32-bit byte counter not to wrap. */
    method Execute(ask: Answers, react: Reactions, data: string) returns (n: nat, ghost overran: bool)
      requires errno.Fine? ==> Ready(Look(), limit)
      requires |data| + limit < 0x1_0000_0000
      modifies this`core, this`nread, this`errno, this`trace
      ensures !old(errno).Fine? ==> n == 0 && Look() == old(Look())
      ensures old(errno).Fine? && data != "" ==> Call(ask, react, limit, old(Look()), Look(), data, n, overran)
      ensures old(errno).Fine? && data == "" ==> EndCall(react, old(Look()), Look(), n)
      ensures old(InGrammar(Look())) ==> if data != "" then InGrammar(Look()) else !G.PlaceOf(trace).Wrong?
    {
      hide Valid, Step, Emit, Visible, MarksFit, Feed, Tally, TallyRest, Halts, HaltsRest, FirstCut, FirstCutRest, Reached, Within, Switching,
        Faithful, Halting, Skipped, SkippedOn, Continues, Call, EndCall, Good, Behind, Ready, Ordered, EndsOrdered, MeaningOf,
        Overrun, CutBehind, ParsingHeader, Decide, DecideRest;
      overran := false;
      if !errno.Fine? {
        if InGrammar(Look()) {
          RightView(Look());
        }
        return 0, false;
      }
      if data == "" {
        n := SignalEnd(react);
        return n, false;
      }
      ghost var before := Look();
      ghost var m := MeaningOf(ask, react, limit, before, data);
      ghost var inOrder := InGrammar(before);
      StartReached(ask, react, before, data, limit);
      if inOrder {
        StartInOrder(before, data);
      }
      var c := Started(Look());
      ReachedGood(ask, react, c, data, limit, m);
      while c.i < |data|
        invariant c.i <= |data| && unchanged(this) && !overran
        invariant Reached(ask, react, c, data, limit, m)
        invariant inOrder ==> Ordered(c, data)
      {
        var c1 := CountedByte(c);
        ReachedGood(ask, react, c, data, limit, m);
        CountByte(ask, react, c, data, limit, m);
        SameTrace(c, data);
        if c1.nread > limit {
          Stop(ask, react, before, c1, data, c.i, false, inOrder);
          return c.i, false;
        }
        var c2, late;
        c2, late, overran := FastForward(ask, react, c1, data, limit);
        SkipEnds(ask, react, c1, c2, data, limit, overran, m);
        SkippedMoves(ask, c1, c2, data, limit, overran);
        if inOrder {
          ContinuesOrdered(c1, c2, data);
        }
        if c2.nread > limit && !late {
          if overran {
            CutStops(react, c2, data, limit, m.cut.value);
          }
          n := if c2.i == |data| then c2.i - 1 else c2.i;
          Stop(ask, react, before, c2, data, n, overran, inOrder);
          return n, overran;
        }
        if c2.i < |data| {
          SkipSwitching(ask, react, c1, c2, data, limit, late, overran, m);
          ghost var since := SinceHere(c1);
          SwitchingGood(ask, react, c2, since, data, limit, overran, m);
          var r := Reexecute(ask, react, c2, data);
          if r.Return? {
            CallDone(ask, react, limit, before, c2, r.c, since, r.status, r.n, data, overran);
            if inOrder {
              ReturnInOrder(r, data);
            }
            Store(if late && r.status.Broken? then r.c.(nread := c1.nread) else r.c, r.status);
            return r.n, overran;
          }
          ByteDone(ask, react, c2, r.c, since, data, limit, overran, m);
          c := r.c;
          if c.nread > limit {
            Stop(ask, react, before, c, data, c2.i, overran, inOrder);
            return c2.i, overran;
          }
        } else {
          c := c2;
        }
      }
      ReachedGood(ask, react, c, data, limit, m);
      var c', status := Flush(react, c, data);
      BufferDone(ask, react, limit, before, c, c', status, data);
      if inOrder {
        ToldInOrder(c, View(c'.p, c'.out, if status.Paused? then c'.saved else c'.nread, status), data);
      }
      Store(if status.Paused? then c'.(nread := c'.saved) else c', status);
      return |data|, false;
    }
  }
}
