/** `http_parser_execute`: the loop over a buffer, proved to mean the same as feeding its bytes one at a time. */
module HttpExecute {
  import opened HttpTypes
  import opened HttpChars
  import opened HttpTransition
  import opened HttpInvariant
  import opened HttpFeed
  import opened HttpHalts
  import opened HttpArm
  import opened HttpOrder
  import opened HttpRuns
  import opened HttpOverrun
  import opened HttpVerdict
  import G = HttpGrammar

  /** What the bytes from the cursor on still do. */
  function Ahead(ask: Answers, c: Cursor, data: string): FeedResult
    requires c.i <= |data|
  {
    Feed(ask, c.p, Visible(c, data), data[c.i..])
  }

  /** What they do to the byte counter, when the byte at the cursor is not counted yet ... */
  function AheadCount(ask: Answers, c: Cursor, data: string, limit: nat): Option<nat>
    requires c.i <= |data|
  {
    Tally(ask, c.p, Visible(c, data), c.nread, limit, data[c.i..])
  }

  /** ... and when it is. */
  function MidCount(ask: Answers, c: Cursor, data: string, limit: nat): Option<nat>
    requires c.i < |data|
  {
    TallyRest(ask, c.p, Visible(c, data), c.nread, limit, data[c.i..])
  }

  /** Where a callback stops them, when the byte at the cursor is not counted yet ... */
  function HaltsAhead(ask: Answers, react: Reactions, c: Cursor, data: string): TextHalt
    requires c.i <= |data|
  {
    Halts(ask, react, c.p, Visible(c, data), CountersOf(c), data[c.i..])
  }

  /** ... and when it is. */
  function MidHalts(ask: Answers, react: Reactions, c: Cursor, data: string): TextHalt
    requires c.i < |data|
  {
    HaltsRest(ask, react, c.p, Visible(c, data), CountersOf(c), data[c.i..])
  }

  /** Where a value is cut off, when the byte at the cursor is not counted yet ... */
  ghost function CutAhead(ask: Answers, react: Reactions, c: Cursor, data: string, limit: nat): Option<CutPoint>
    requires c.i <= |data|
  {
    FirstCut(ask, react, c.p, Visible(c, data), CountersOf(c), limit, data[c.i..])
  }

  /** ... and when it is. */
  ghost function MidCut(ask: Answers, react: Reactions, c: Cursor, data: string, limit: nat): Option<CutPoint>
    requires c.i < |data|
  {
    FirstCutRest(ask, react, c.p, Visible(c, data), CountersOf(c), limit, data[c.i..])
  }

  /** What ends the call, when the byte at the cursor is not counted yet and no loop over a value has begun ... */
  function VerdictAhead(ask: Answers, react: Reactions, c: Cursor, data: string, limit: nat): Verdict
    requires c.i <= |data|
  {
    Decide(ask, react, c.p, Visible(c, data), CountersOf(c), limit, None, data[c.i..])
  }

  /** ... and when it is, and the loop over a value has begun at the counter `since`. */
  function MidVerdict(ask: Answers, react: Reactions, c: Cursor, data: string, limit: nat, since: Option<nat>): Verdict
    requires c.i < |data|
  {
    DecideRest(ask, react, c.p, Visible(c, data), CountersOf(c), limit, since, data[c.i..])
  }

  /** A loop over a value begins here. */
  function SinceHere(c: Cursor): Option<nat> { Since(c.p, c.nread, None) }

  /** The loop over a value has stopped at a byte that comes before the bytes are counted. */
  predicate Late(c: Cursor, data: string) { c.p.state.HeaderValue? && c.i < |data| && data[c.i] != LF }

  predicate Behind(c: Cursor) { forall d | d in c.marks :: c.marks[d] < c.i || c.i == 0 }

  // --------------------------------------------------------------------------------------------------------
  // Fast loops on the cursor

  /** A fast loop has moved the cursor from `c` to `c'` without changing what the buffer means; or it has
      `overran` the limit, and so would the bytes one at a time. */
  predicate Skipped(ask: Answers, c: Cursor, c': Cursor, data: string, limit: nat, overran: bool)
    requires c.i < |data|
  {
    && Good(c', data) && c.i <= c'.i && Behind(c') && c'.saved == c.saved
    && c'.p.state == c.p.state && (c' == c || (c'.i > c.i && !c.p.state.ChunkSizeStart?))
    && (overran ==> MidCount(ask, c, data, limit).None? && c'.nread > limit && |data| > limit)
    && (!overran ==>
          && Ahead(ask, c', data) == Ahead(ask, c, data)
          && MidCount(ask, c, data, limit) ==
             if c'.nread > limit then None
             else if c'.i == |data| then Some(c'.nread) else MidCount(ask, c', data, limit))
  }

  /** The kind of data that a fast loop passes over. */
  function DataOf(s: State): DataKind {
    match s case HeaderField => Field case HeaderValue => Value case _ => Body
  }

  /** The bytes passed over are data of one kind, to be told later. */
  predicate Continues(c: Cursor, c': Cursor, data: string)
    requires c.i < |data| && c'.i <= |data|
  {
    && c.i <= c'.i && c'.p.state == c.p.state && c'.p.flags.trailing == c.p.flags.trailing && c'.out == c.out
    && (c'.i == c.i ==> c' == c)
    && (c'.i > c.i ==>
          && (c.p.state.HeaderField? || c.p.state.HeaderValue? || BodyHeld(c.p.state))
          && Visible(c', data) == Emit(Visible(c, data), Data(DataOf(c.p.state), data[c.i..c'.i])))
  }

  /** Data of the kind that the state asks for keeps the order. */
  lemma ContinuesOrdered(c: Cursor, c': Cursor, data: string)
    requires c.i < |data| && c'.i <= |data| && Continues(c, c', data) && Ordered(c, data)
    ensures Ordered(c', data)
  {
    hide Emit, Visible, G.After, G.PlaceOf;
    if c'.i > c.i {
      var d := DataOf(c.p.state);
      G.PlaceOfEmit(Visible(c, data), Data(d, data[c.i..c'.i]));
      DataStays(c.p, G.PlaceOf(Visible(c, data)));
    }
  }

  lemma DataStays(p: Parser, g: G.Place)
    requires G.Fits(p, g) && (p.state.HeaderField? || p.state.HeaderValue? || BodyHeld(p.state))
    ensures G.Fits(p, G.After(g, G.D(DataOf(p.state))))
  {
  }

  /** What ends the call is decided behind the bytes passed over, unless they pass the limit. */
  predicate SameVerdict(ask: Answers, react: Reactions, c: Cursor, c': Cursor, data: string, limit: nat)
    requires c.i < |data| && c'.i <= |data|
  {
    MidVerdict(ask, react, c, data, limit, SinceHere(c)) ==
    if c'.nread > limit && !Late(c', data) then ByLimit else if c'.i == |data| then ToEnd
    else MidVerdict(ask, react, c', data, limit, SinceHere(c))
  }

  /** Besides, no callback has been passed over and no value cut off, unless the loop itself has `overran` the limit;
      then it has gone on to the end of the value as the source does. */
  ghost predicate SkippedOn(ask: Answers, react: Reactions, c: Cursor, c': Cursor, data: string, limit: nat, overran: bool)
    requires c.i < |data| && c'.i <= |data|
  {
    && Continues(c, c', data) && c'.calls == c.calls && (c'.i < |data| && c'.p.state.HeaderValue? ==> Stops(c'.p, data[c'.i]))
    && (!overran ==>
          && MidHalts(ask, react, c, data) == (if c'.i == |data| then NoHalt(CountersOf(c')) else MidHalts(ask, react, c', data))
          && MidCut(ask, react, c, data, limit) ==
             (if c'.nread > limit || c'.i == |data| then None else MidCut(ask, react, c', data, limit))
          && SameVerdict(ask, react, c, c', data, limit))
    && (overran ==>
          && c.i < c'.i && c'.p.state.HeaderValue? && c'.p.header.General?
          && MidCut(ask, react, c, data, limit) == Some(CutPoint(c.p, Visible(c, data), c.saved, c.calls, data[c.i..]))
          && (c'.p, data[c'.i..]) == ValueTail(c.p, data[c.i..], limit))
  }

  lemma VisibleGrows(c: Cursor, c': Cursor, data: string, d: DataKind)
    requires c.i <= c'.i <= |data| && c'.out == c.out && MarksFit(c.p.state, c.marks, c.i)
    requires c'.marks == c.marks || (c.marks == map[] && c'.marks == map[d := c.i])
    requires c'.i > c.i ==> d in c'.marks
    ensures Visible(c', data) == Grown(Visible(c, data), d, data[c.i..c'.i])
  {
    hide Emit;
    if c'.i > c.i {
      VisibleOne(c, data, d);
      VisibleOne(c', data, d);
      var m := c'.marks[d];
      assert data[m..c.i] + data[c.i..c'.i] == data[m..c'.i];
      EmitJoins(c.out, d, data[m..c.i], data[c.i..c'.i]);
    } else if d in c'.marks && d !in c.marks {
      VisibleOne(c, data, d);
      VisibleOne(c', data, d);
    }
  }

  /** A run of bytes moves the cursor. */
  lemma RunSkips(ask: Answers, c: Cursor, c': Cursor, data: string, limit: nat, d: DataKind, states: seq<Parser>)
    requires Good(c, data) && c.i < |data| && Good(c', data) && Behind(c') && Behind(c) && c.nread <= limit
    requires |states| >= 1 && Run(ask, states, d, data[c.i..]) && states[0] == c.p && states[|states| - 1] == c'.p
    requires c'.i == c.i + |states| - 1 && c'.saved == c.saved && c'.out == c.out && c'.calls == c.calls
    requires c'.p.state == c.p.state && !c.p.state.ChunkSizeStart?
    requires c'.marks == c.marks || (c.marks == map[] && c'.marks == map[d := c.i] && c'.i > c.i)
    requires c'.i > c.i ==> d in c'.marks
    requires c'.nread == if !ParsingHeader(c.p.state) || c'.i == c.i then c.nread
                         else if c'.i == |data| then c.nread + (c'.i - c.i) - 1 else c.nread + (c'.i - c.i)
    ensures Skipped(ask, c, c', data, limit, false)
  {
    hide Emit, Visible, Valid, Run, MarksFit, Step, Tally, TallyRest, Grown;
    var rest := data[c.i..];
    var k := |states| - 1;
    assert rest[..k] == data[c.i..c'.i] && rest[k..] == data[c'.i..];
    VisibleGrows(c, c', data, d);
    assert k == 0 ==> c' == c;
    if k == |rest| {
      RunEnds(ask, states, d, Visible(c, data), rest, c.nread, limit);
      assert rest[..k] == rest && data[c'.i..] == "";
    } else {
      RunFeeds(ask, states, d, Visible(c, data), rest, c.nread, limit);
    }
  }

  lemma RunContinues(c: Cursor, c': Cursor, data: string, d: DataKind)
    requires Good(c, data) && c.i < |data| && c.i <= c'.i <= |data| && (c'.i == c.i ==> c' == c) && c'.out == c.out
    requires c'.p.state == c.p.state && c'.p.flags.trailing == c.p.flags.trailing
    requires d == DataOf(c.p.state) && (c.p.state.HeaderField? || c.p.state.HeaderValue? || BodyHeld(c.p.state))
    requires Visible(c', data) == Grown(Visible(c, data), d, data[c.i..c'.i])
    ensures Continues(c, c', data)
  {
    hide Emit, Visible, Valid, MarksFit, Grown;
    if c'.i > c.i {
      GrownSome(Visible(c, data), d, data[c.i..c'.i]);
    }
  }

  lemma RunSkipsOn(
      ask: Answers, react: Reactions, c: Cursor, c': Cursor, data: string, limit: nat, d: DataKind, states: seq<Parser>)
    requires Good(c, data) && c.i < |data| && Good(c', data) && c.nread <= limit
    requires |states| >= 1 && Run(ask, states, d, data[c.i..]) && states[0] == c.p && states[|states| - 1] == c'.p
    requires Uncut(states, data[c.i..], limit)
    requires c'.i == c.i + |states| - 1 && c'.saved == c.saved && c'.out == c.out && c'.calls == c.calls
    requires c'.i == c.i ==> c' == c
    requires c'.p.state == c.p.state && c'.p.flags.trailing == c.p.flags.trailing
    requires d == DataOf(c.p.state) && (c.p.state.HeaderField? || c.p.state.HeaderValue? || BodyHeld(c.p.state))
    requires c'.marks == c.marks || (c.marks == map[] && c'.marks == map[d := c.i] && c'.i > c.i)
    requires c'.i > c.i ==> d in c'.marks
    requires c'.nread == if !ParsingHeader(c.p.state) || c'.i == c.i then c.nread
                         else if c'.i == |data| then c.nread + (c'.i - c.i) - 1 else c.nread + (c'.i - c.i)
    requires c'.i < |data| && c'.p.state.HeaderValue? ==> Stops(c'.p, data[c'.i])
    requires forall t | 0 <= t < |states| :: states[t].state.HeaderValue? == c.p.state.HeaderValue?
    ensures SkippedOn(ask, react, c, c', data, limit, false)
  {
    hide Emit, Visible, Valid, Run, MarksFit, Step, HaltsRest, Grown, Uncut, FirstCutRest, Stops, DecideRest;
    GoodMarks(c, data);
    VisibleGrows(c, c', data, d);
    RunContinues(c, c', data, d);
    RunVerdict(ask, react, c, c', data, limit, d, states);
    RunHaltsOn(ask, react, c, c', data, limit, d, states);
    hide Continues, SameVerdict, Passed, MidHalts, MidCut;
  }

  /** The cursor has passed over a run. */
  ghost predicate Passed(ask: Answers, c: Cursor, c': Cursor, data: string, d: DataKind, states: seq<Parser>) {
    && c.i < |data| && c.i <= c'.i <= |data| && MarksFit(c.p.state, c.marks, c.i)
    && |states| >= 1 && Run(ask, states, d, data[c.i..]) && states[0] == c.p && states[|states| - 1] == c'.p
    && c'.i == c.i + |states| - 1 && c'.saved == c.saved && c'.calls == c.calls && (c'.i == c.i ==> c' == c)
    && c'.p.state == c.p.state && d == DataOf(c.p.state)
    && (c'.marks == c.marks || (c.marks == map[] && c'.marks == map[d := c.i] && c'.i > c.i)) && (c'.i > c.i ==> d in c'.marks)
    && c'.nread == (if !ParsingHeader(c.p.state) || c'.i == c.i then c.nread
                    else if c'.i == |data| then c.nread + (c'.i - c.i) - 1 else c.nread + (c'.i - c.i))
    && Visible(c', data) == Grown(Visible(c, data), d, data[c.i..c'.i])
  }

  lemma RunHaltsOn(
      ask: Answers, react: Reactions, c: Cursor, c': Cursor, data: string, limit: nat, d: DataKind, states: seq<Parser>)
    requires Passed(ask, c, c', data, d, states) && c.nread <= limit && Uncut(states, data[c.i..], limit)
    ensures MidHalts(ask, react, c, data) == if c'.i == |data| then NoHalt(CountersOf(c')) else MidHalts(ask, react, c', data)
    ensures MidCut(ask, react, c, data, limit) ==
            if c'.nread > limit || c'.i == |data| then None else MidCut(ask, react, c', data, limit)
  {
    hide Emit, Visible, Run, MarksFit, Step, HaltsRest, Grown, Uncut, FirstCutRest;
    var rest := data[c.i..];
    var k := |states| - 1;
    assert rest[..k] == data[c.i..c'.i] && rest[k..] == data[c'.i..];
    if k == |rest| {
      RunHaltsEnds(ask, react, states, d, Visible(c, data), rest, CountersOf(c));
      RunCutEnds(ask, react, states, d, Visible(c, data), rest, CountersOf(c), limit);
      RunEndCounters(c, c', data, d);
    } else {
      RunCounters(c, c', data, d);
      hide Ran;
      RunHalts(ask, react, states, d, Visible(c, data), rest, CountersOf(c));
      RunCut(ask, react, states, d, Visible(c, data), rest, CountersOf(c), limit);
    }
  }

  lemma RunVerdict(
      ask: Answers, react: Reactions, c: Cursor, c': Cursor, data: string, limit: nat, d: DataKind, states: seq<Parser>)
    requires Passed(ask, c, c', data, d, states) && c.nread <= limit
    requires forall t | 0 <= t < |states| :: states[t].state.HeaderValue? == c.p.state.HeaderValue?
    ensures SameVerdict(ask, react, c, c', data, limit)
  {
    hide Emit, Visible, Run, MarksFit, Step, Grown, DecideRest;
    var rest, since := data[c.i..], SinceHere(c);
    var k := |states| - 1;
    assert rest[..k] == data[c.i..c'.i] && rest[k..] == data[c'.i..];
    if since.Some? {
      NoLineFeed(ask, states, rest);
    }
    if k == |rest| {
      RunDecideEnds(ask, react, states, d, Visible(c, data), rest, CountersOf(c), limit, since);
    } else {
      RunCounters(c, c', data, d);
      RunDecide(ask, react, states, d, Visible(c, data), rest, CountersOf(c), limit, since);
    }
  }

  lemma RunEndCounters(c: Cursor, c': Cursor, data: string, d: DataKind)
    requires MarksFit(c.p.state, c.marks, c.i) && c'.saved == c.saved && c'.calls == c.calls && c.i < c'.i == |data|
    requires d == DataOf(c.p.state) && d in c'.marks && (c'.marks == c.marks || (c.marks == map[] && c'.marks == map[d := c.i]))
    requires c'.nread == if ParsingHeader(c.p.state) then c.nread + (c'.i - c.i) - 1 else c.nread
    ensures var k := CountersOf(c); CountersOf(c') == Ran(k, c.p, d, c'.i - c.i).(n := if ParsingHeader(c.p.state) then k.n + (c'.i - c.i) - 1 else k.n)
  {
    hide ParsingHeader;
  }

  /** The counters of a cursor that has passed over a run. */
  lemma RunCounters(c: Cursor, c': Cursor, data: string, d: DataKind)
    requires MarksFit(c.p.state, c.marks, c.i) && c'.saved == c.saved && c'.calls == c.calls && c.i <= c'.i < |data| && (c'.i == c.i ==> c' == c)
    requires d == DataOf(c.p.state)
    requires c'.marks == c.marks || (c.marks == map[] && c'.marks == map[d := c.i] && c'.i > c.i)
    requires c'.i > c.i ==> d in c'.marks
    requires c'.nread == if ParsingHeader(c.p.state) then c.nread + (c'.i - c.i) else c.nread
    ensures CountersOf(c') == Ran(CountersOf(c), c.p, d, c'.i - c.i)
  {
    hide ParsingHeader;
  }

  lemma GoodMarks(c: Cursor, data: string)
    requires Good(c, data)
    ensures MarksFit(c.p.state, c.marks, c.i)
  {
    hide Valid, MarksFit;
  }

  /** A value of general text that runs past the limit: fed one at a time, its bytes pass the limit too. */
  lemma LongValue(ask: Answers, c: Cursor, data: string, limit: nat)
    requires Good(c, data) && c.i < |data| && c.p.state.HeaderValue? && 1 <= c.nread <= limit && Cut(c.p, data[c.i..], limit)
    ensures MidCount(ask, c, data, limit).None? && |data| > limit
  {
    hide Emit, Visible, Valid, Run, ValueChars;
    var rest := data[c.i..];
    CutIsLong(c.p, rest, limit);
    var k: nat :| CutAt(c.p, rest, k, limit);
    ValueRun(ask, c.p, rest, k + limit);
    RunFeeds(ask, ValueStates(c.p, rest, k + limit), Value, Visible(c, data), rest, c.nread, limit);
  }

  method SkipField(ghost ask: Answers, ghost react: Reactions, c: Cursor, data: string, limit: nat) returns (c': Cursor)
    requires Good(c, data) && Behind(c) && c.i < |data| && c.p.state.HeaderField? && c.nread <= limit
    ensures Skipped(ask, c, c', data, limit, false) && c'.i <= |data| && SkippedOn(ask, react, c, c', data, limit, false)
  {
    hide *;
    var q, j := FieldLoop(c.p, data, c.i, limit);
    c' := c.(p := q, i := j,
             nread := if j == c.i then c.nread else if j == |data| then c.nread + (j - c.i) - 1 else c.nread + (j - c.i));
    SkipFieldProof(ask, react, c, c', data, limit);
  }

  lemma SkipFieldProof(ask: Answers, react: Reactions, c: Cursor, c': Cursor, data: string, limit: nat)
    requires Good(c, data) && Behind(c) && c.i < |data| && c.p.state.HeaderField? && c.nread <= limit
    requires c.i <= c'.i <= |data| && Tokens(data[c.i..c'.i]) && c'.p == FieldChars(c.p, data[c.i..c'.i])
    requires c' == c.(p := c'.p, i := c'.i, nread := if c'.i == c.i then c.nread
               else if c'.i == |data| then c.nread + (c'.i - c.i) - 1 else c.nread + (c'.i - c.i))
    ensures Skipped(ask, c, c', data, limit, false) && SkippedOn(ask, react, c, c', data, limit, false)
  {
    hide Emit, Visible, Valid, FieldChars, IsToken, Skipped, SkippedOn, Run, Uncut;
    var rest, k := data[c.i..], c'.i - c.i;
    assert rest[..k] == data[c.i..c'.i];
    FieldCharsKeep(c.p, data[c.i..c'.i]);
    FieldRun(ask, c.p, rest, k);
    FieldUncut(ask, c.p, rest, k, limit);
    RunSkips(ask, c, c', data, limit, Field, FieldStates(c.p, rest, k));
    FieldStatesStay(ask, c.p, rest, k);
    RunSkipsOn(ask, react, c, c', data, limit, Field, FieldStates(c.p, rest, k));
  }

  lemma FieldStatesStay(ask: Answers, p: Parser, data: string, k: nat)
    requires p.state.HeaderField? && k <= |data| && Tokens(data[..k])
    ensures forall t | 0 <= t <= k :: !FieldStates(p, data, k)[t].state.HeaderValue?
  {
    hide IsToken, FieldChars, Run;
    forall t | 0 <= t <= k ensures FieldChars(p, data[..t]).state.HeaderField? {
      assert data[..t] == data[..k][..t];
      FieldRun(ask, p, data, t);
    }
  }

  lemma ValueStatesStay(ask: Answers, p: Parser, data: string, k: nat)
    requires p.state.HeaderValue? && k <= |data| && ValueChars(p, data[..k]).Some?
    ensures forall t | 0 <= t <= k :: ValueStates(p, data, k)[t].state.HeaderValue?
  {
    hide ValueChars, Run;
    forall t | 0 <= t <= k ensures ValueChars(p, data[..t]).Some? && ValueChars(p, data[..t]).value.state.HeaderValue? {
      assert data[..k][..t] == data[..t] && data[..t] + data[t..k] == data[..k];
      ValueCharsJoin(p, data[..t], data[t..k]);
      ValueRun(ask, p, data, t);
    }
  }

  lemma FieldUncut(ask: Answers, p: Parser, data: string, k: nat, limit: nat)
    requires p.state.HeaderField? && k <= |data| && Tokens(data[..k])
    ensures Uncut(FieldStates(p, data, k), data, limit)
  {
    hide IsToken, FieldChars, Run, Cut;
    forall t | 0 <= t < k ensures FieldChars(p, data[..t]).state.HeaderField? {
      assert data[..t] == data[..k][..t];
      FieldRun(ask, p, data, t);
    }
  }

  method SkipValue(ghost ask: Answers, ghost react: Reactions, c: Cursor, data: string, limit: nat)
    returns (c': Cursor, ghost overran: bool)
    requires Good(c, data) && Behind(c) && c.i < |data| && c.p.state.HeaderValue? && 1 <= c.nread <= limit
    ensures Skipped(ask, c, c', data, limit, overran) && c'.i <= |data| && SkippedOn(ask, react, c, c', data, limit, overran)
    ensures overran <==> Cut(c.p, data[c.i..], limit)
  {
    hide *;
    ValidOf(c, data);
    var q, j;
    q, j, overran := ValueLoop(c.p, data, c.i, limit);
    c' := c.(p := q, i := j,
             nread := if j == c.i then c.nread else if j == |data| then c.nread + (j - c.i) - 1 else c.nread + (j - c.i));
    SkipValueProof(ask, react, c, c', data, limit, overran);
  }

  lemma ValidOf(c: Cursor, data: string)
    requires Good(c, data)
    ensures Valid(c.p)
  {
    hide Valid;
  }

  lemma SkipValueProof(ask: Answers, react: Reactions, c: Cursor, c': Cursor, data: string, limit: nat, overran: bool)
    requires Good(c, data) && Behind(c) && c.i < |data| && c.p.state.HeaderValue? && 1 <= c.nread <= limit
    requires c.i <= c'.i <= |data| && Valid(c'.p) && c'.p.state.HeaderValue? && c'.p.flags.trailing == c.p.flags.trailing
    requires overran <==> Cut(c.p, data[c.i..], limit)
    requires (c'.p, data[c'.i..]) == ValueTail(c.p, data[c.i..], limit)
    requires !overran ==> ValueChars(c.p, data[c.i..c'.i]) == Some(c'.p)
    requires overran ==> c'.i - c.i > limit && c'.p.header.General?
    requires c'.i < |data| ==> Stops(c'.p, data[c'.i])
    requires c' == c.(p := c'.p, i := c'.i, nread := if c'.i == c.i then c.nread
               else if c'.i == |data| then c.nread + (c'.i - c.i) - 1 else c.nread + (c'.i - c.i))
    ensures Skipped(ask, c, c', data, limit, overran) && SkippedOn(ask, react, c, c', data, limit, overran)
  {
    hide Emit, Visible, Valid, ValueChars, Run, Cut, Stops, ValueTail, Uncut, FirstCutRest, TallyRest, HaltsRest, Feed;
    if overran {
      LongValue(ask, c, data, limit);
      ValueSeen(c, c', data);
      CutNow(ask, react, c, data, limit);
    } else {
      SkipUncut(ask, react, c, c', data, limit);
    }
  }

  lemma SkipUncut(ask: Answers, react: Reactions, c: Cursor, c': Cursor, data: string, limit: nat)
    requires Good(c, data) && Behind(c) && c.i < |data| && c.p.state.HeaderValue? && 1 <= c.nread <= limit
    requires c.i <= c'.i <= |data| && Valid(c'.p) && c'.p.state.HeaderValue? && c'.p.flags.trailing == c.p.flags.trailing
    requires !Cut(c.p, data[c.i..], limit) && ValueChars(c.p, data[c.i..c'.i]) == Some(c'.p)
    requires c'.i < |data| ==> Stops(c'.p, data[c'.i])
    requires c' == c.(p := c'.p, i := c'.i, nread := if c'.i == c.i then c.nread
               else if c'.i == |data| then c.nread + (c'.i - c.i) - 1 else c.nread + (c'.i - c.i))
    ensures Skipped(ask, c, c', data, limit, false) && SkippedOn(ask, react, c, c', data, limit, false)
  {
    hide Emit, Visible, Valid, ValueChars, Run, Cut, Stops, Uncut, FirstCutRest, TallyRest, HaltsRest, Feed, Skipped, SkippedOn;
    var rest, k := data[c.i..], c'.i - c.i;
    assert rest[..k] == data[c.i..c'.i];
    ValueRun(ask, c.p, rest, k);
    ValueUncut(c.p, rest, k, limit);
    ValueStatesStay(ask, c.p, rest, k);
    RunSkips(ask, c, c', data, limit, Value, ValueStates(c.p, rest, k));
    RunSkipsOn(ask, react, c, c', data, limit, Value, ValueStates(c.p, rest, k));
  }

  lemma CutNow(ask: Answers, react: Reactions, c: Cursor, data: string, limit: nat)
    requires c.i < |data| && c.p.state.HeaderValue? && Cut(c.p, data[c.i..], limit)
    ensures MidCut(ask, react, c, data, limit) == Some(CutPoint(c.p, Visible(c, data), c.saved, c.calls, data[c.i..]))
  {
    hide Visible, Cut;
  }

  lemma ValueSeen(c: Cursor, c': Cursor, data: string)
    requires Good(c, data) && c.p.state.HeaderValue? && c.i < c'.i <= |data| && c'.out == c.out && c'.marks == c.marks
    ensures Visible(c', data) == Emit(Visible(c, data), Data(Value, data[c.i..c'.i]))
  {
    hide Emit, Visible, Valid;
    VisibleGrows(c, c', data, Value);
  }

  lemma BodyLeft(p: Parser)
    requires Valid(p)
    ensures p.state.BodyIdentity? || p.state.ChunkData? ==> p.contentLength > 0
  {
    hide ValidMatcher;
  }

  lemma BodySkipKeeps(p: Parser, k: nat)
    requires Valid(p) && (p.state.BodyIdentityEof? || ((p.state.BodyIdentity? || p.state.ChunkData?) && k < p.contentLength))
    ensures Valid(BodySkip(p, k)) && BodySkip(p, k).state == p.state && (k == 0 ==> BodySkip(p, k) == p)
  {
    hide MethodName;
  }

  lemma BodyMarks(c: Cursor, data: string, k: nat)
    requires Good(c, data) && BodyHeld(c.p.state)
    ensures var marks := if k == 0 then c.marks else Mark(c.marks, Body, c.i);
            && MarksFit(c.p.state, marks, c.i + k)
            && (marks == c.marks || (c.marks == map[] && marks == map[Body := c.i] && k > 0))
            && (k > 0 ==> Body in marks)
            && (Behind(c) ==> Behind(c.(i := c.i + k, marks := marks)))
  {
    hide Valid;
    if Body in c.marks {
    } else {
      assert c.marks == map[];
    }
  }

  /** Body bytes are taken in one go; the last of them is left for the switch. */
  method SkipBody(ghost ask: Answers, ghost react: Reactions, c: Cursor, data: string, limit: nat) returns (c': Cursor)
    requires Good(c, data) && Behind(c) && c.i < |data| && c.nread <= limit
    requires c.p.state.BodyIdentity? || c.p.state.ChunkData? || c.p.state.BodyIdentityEof?
    ensures Skipped(ask, c, c', data, limit, false) && c'.i <= |data| && SkippedOn(ask, react, c, c', data, limit, false)
  {
    hide Emit, Visible, Skipped, SkippedOn, Run, Valid, MarksFit, Step, Cut;
    BodyLeft(c.p);
    var left := |data| - c.i;
    var toRead := if c.p.state.BodyIdentityEof? || left < c.p.contentLength then left else c.p.contentLength;
    var k := toRead - 1;
    c' := c.(p := BodySkip(c.p, k), i := c.i + k, marks := if k == 0 then c.marks else Mark(c.marks, Body, c.i));
    BodySkipKeeps(c.p, k);
    BodyMarks(c, data, k);
    BodyRun(ask, c.p, data[c.i..], k);
    RunSkips(ask, c, c', data, limit, Body, BodyStates(c.p, k));
    RunSkipsOn(ask, react, c, c', data, limit, Body, BodyStates(c.p, k));
  }

  /** The inner loops. `late` tells that the bytes skipped are compared with the limit only after the switch. */
  method FastForward(ghost ask: Answers, ghost react: Reactions, c: Cursor, data: string, limit: nat)
    returns (c': Cursor, late: bool, ghost overran: bool)
    requires Good(c, data) && Behind(c) && c.i < |data| && c.nread <= limit
    requires ParsingHeader(c.p.state) ==> 1 <= c.nread
    ensures Skipped(ask, c, c', data, limit, overran) && c'.i <= |data| && SkippedOn(ask, react, c, c', data, limit, overran)
    ensures late <==> c.p.state.HeaderValue? && c'.i < |data| && data[c'.i] != LF
  {
    c', late, overran := c, false, false;
    if c.p.state.HeaderField? {
      hide *;
      c' := SkipField(ask, react, c, data, limit);
    } else if c.p.state.HeaderValue? {
      hide Visible, Valid, Step, MarksFit, Emit, Feed, Tally, TallyRest, Behind;
      c', overran := SkipValue(ask, react, c, data, limit);
      late := c'.i < |data| && data[c'.i] != LF;
    } else if c.p.state.BodyIdentity? || c.p.state.ChunkData? || c.p.state.BodyIdentityEof? {
      hide *;
      c' := SkipBody(ask, react, c, data, limit);
    } else {
      hide Visible, Valid, Step, MarksFit, Emit, Feed, Tally, TallyRest, Behind;
      assert c'.nread <= limit;
    }
  }

  // --------------------------------------------------------------------------------------------------------
  // The switch

  /** Passing through the switch until the byte is done with. */
  method Reexecute(ask: Answers, react: Reactions, c: Cursor, data: string) returns (r: ArmResult)
    requires Good(c, data) && c.i < |data| && (c.p.state.ChunkSizeStart? ==> c.nread == 1)
    ensures Faithful(ask, react, c, data, r) && Halting(ask, react, c, data, r) && !r.Same?
    ensures Ordered(c, data) ==> InOrder(r, data)
  {
    hide Visible, Valid, Step, MarksFit, Emit, Transition, Arm, HaltIn, Ordered, G.Fits, EndsOrdered;
    var cur := c;
    MarksPlaced(cur, data);
    AssertsHold(cur.p);
    r := Arm(ask, react, cur, data);
    PassAgrees(ask, react, cur, data);
    while r.Same?
      invariant Faithful(ask, react, c, data, r) && Halting(ask, react, c, data, r)
      invariant Ordered(c, data) ==> InOrder(r, data)
      decreases if r.Same? then Rank(r.c.p.state) + 1 else 0
    {
      cur := r.c;
      MarksPlaced(cur, data);
      AssertsHold(cur.p);
      r := Arm(ask, react, cur, data);
      PassAgrees(ask, react, cur, data);
    }
  }

  /** One pass. */
  lemma PassAgrees(ask: Answers, react: Reactions, c: Cursor, data: string)
    requires Good(c, data) && c.i < |data| && forall d | d in c.marks :: c.marks[d] <= c.i
    ensures var r := Arm(ask, react, c, data);
      Faithful(ask, react, c, data, r) && Halting(ask, react, c, data, r) && (Ordered(c, data) ==> InOrder(r, data))
  {
    hide *;
    ArmFaithful(ask, react, c, data);
    ArmHalts(ask, react, c, data);
    if Ordered(c, data) {
      ArmOrdered(ask, react, c, data);
    }
  }

  lemma MarksPlaced(c: Cursor, data: string)
    requires Good(c, data)
    ensures forall d | d in c.marks :: c.marks[d] <= c.i
  {
    hide Valid;
  }
}
