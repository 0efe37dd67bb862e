/** Field values that pass the header limit unseen: exactly when that happens in a call, and what it leads to. */
module HttpOverrun {
  import opened HttpTypes
  import opened HttpChars
  import opened HttpTransition
  import opened HttpInvariant
  import opened HttpFeed
  import opened HttpHalts
  import opened HttpRuns

  /** The parser at the byte where the loop over a value starts that is cut off. */
  datatype CutPoint = CutPoint(p: Parser, out: seq<Event>, saved: nat, calls: nat, rest: string)

  /** The first cut in a text, unless a callback, the header limit or an error ends the call before. */
  ghost function FirstCut(ask: Answers, react: Reactions, p: Parser, out: seq<Event>, k: Counters, limit: nat, data: string): Option<CutPoint>
    decreases |data|, 1
  {
    if data == "" || (ParsingHeader(p.state) && k.n + 1 > limit) then None
    else FirstCutRest(ask, react, p, out, Counted(p, k), limit, data)
  }

  /** The same, when the first byte is counted already. */
  ghost function FirstCutRest(ask: Answers, react: Reactions, p: Parser, out: seq<Event>, k: Counters, limit: nat, data: string): Option<CutPoint>
    requires data != ""
    decreases |data|, 0
  {
    if p.state.HeaderValue? && Cut(p, data, limit) then Some(CutPoint(p, out, k.saved, k.calls, data))
    else match HaltIn(ask, react, p, out, k, data[0])
    case Halted(_, _, _, _, _) => None
    case Unhalted(k') =>
      match Step(ask, p, out, data[0])
      case Consumed(q, told, _) => FirstCut(ask, react, q, told, k', limit, data[1..])
      case _ => None
  }

  /** A value that is cut off later is cut off now. */
  lemma CutLater(p: Parser, q: Parser, s: string, t: nat, limit: nat)
    requires t <= |s| && ValueChars(p, s[..t]) == Some(q) && Cut(q, s[t..], limit)
    ensures Cut(p, s, limit)
  {
    hide ValueChars;
    var k: nat :| CutAt(q, s[t..], k, limit);
    assert s[t..][..k] == s[t..t + k] && s[t..][..k + limit] == s[t..t + k + limit];
    assert s[..t] + s[t..t + k] == s[..t + k] && s[..t] + s[t..t + k + limit] == s[..t + k + limit];
    ValueCharsJoin(p, s[..t], s[t..t + k]);
    ValueCharsJoin(p, s[..t], s[t..t + k + limit]);
    assert CutAt(p, s, t + k, limit);
  }

  /** A byte that ends the value is not cut off. */
  lemma StopIsNoCut(p: Parser, s: string, limit: nat)
    requires limit > 0 && s != "" && Stops(p, s[0])
    ensures !Cut(p, s, limit)
  {
    hide Stops, ValueChar;
    forall k: nat | CutAt(p, s, k, limit) ensures false {
      assert s[..0] == "";
      PrefixStops(p, s, 0, k + limit, p);
    }
  }

  /** A cut needs more bytes than the limit. */
  lemma CutIsLong(p: Parser, s: string, limit: nat)
    requires Cut(p, s, limit)
    ensures |s| > limit
  {
    hide ValueChars;
  }

  lemma RunCutByte(
      ask: Answers, react: Reactions, p: Parser, d: DataKind, out: seq<Event>, data: string, k: Counters, limit: nat, q: Parser)
    requires |data| > 1 && StepsTo(ask, p, d, data[0], q) && ParsingHeader(q.state) == ParsingHeader(p.state)
    requires p.state.HeaderValue? ==> !Cut(p, data, limit)
    ensures FirstCutRest(ask, react, p, out, k, limit, data) ==
            if ParsingHeader(p.state) && k.n + 1 > limit then None
            else FirstCutRest(ask, react, q, Emit(out, Data(d, [data[0]])), Ran(k, p, d, 1), limit, data[1..])
  {
    hide Step, Emit, HaltIn, Cut, StepsTo, Silent;
    StepIs(ask, p, d, data[0], q, out);
    SilentByte(ask, react, p, d, out, k, data[0]);
  }

  lemma RunCutLast(
      ask: Answers, react: Reactions, p: Parser, d: DataKind, out: seq<Event>, data: string, k: Counters, limit: nat, q: Parser)
    requires |data| == 1 && StepsTo(ask, p, d, data[0], q) && (p.state.HeaderValue? ==> !Cut(p, data, limit))
    ensures FirstCutRest(ask, react, p, out, k, limit, data).None?
  {
    hide Step, Emit, HaltIn, Cut;
    SilentByte(ask, react, p, d, out, k, data[0]);
  }

  /** There is no cut in a run that is not cut off at any of its bytes. */
  ghost predicate Uncut(states: seq<Parser>, data: string, limit: nat)
    requires |states| <= |data| + 1
  {
    forall t | 0 <= t < |states| - 1 :: states[t].state.HeaderValue? ==> !Cut(states[t], data[t..], limit)
  }

  lemma UncutShorter(states: seq<Parser>, data: string, limit: nat)
    requires 1 < |states| <= |data| + 1 && Uncut(states, data, limit)
    ensures var t := |states| - 1;
      Uncut(states[..t], data, limit) && (states[t - 1].state.HeaderValue? ==> !Cut(states[t - 1], data[t - 1..], limit))
  {
    hide Cut;
  }

  lemma {:induction false} RunCut(
      ask: Answers, react: Reactions, states: seq<Parser>, d: DataKind, out: seq<Event>, data: string, k: Counters, limit: nat)
    requires 1 <= |states| <= |data| + 1 && Run(ask, states, d, data) && Uncut(states, data, limit)
    ensures var t := |states| - 1;
            t < |data| ==>
              FirstCutRest(ask, react, states[0], out, k, limit, data) ==
              if t > 0 && ParsingHeader(states[0].state) && k.n + t > limit then None
              else FirstCutRest(ask, react, states[t], Grown(out, d, data[..t]), Ran(k, states[0], d, t), limit, data[t..])
    decreases |states|
  {
    hide Step, Emit, HaltIn, FirstCutRest, Cut, Run, StepsTo, Grown, Uncut, Ran, ParsingHeader;
    var t := |states| - 1;
    if t == 0 {
      assert data[..0] == "" && data[0..] == data;
      GrownNone(out, d);
      RanMore(k, states[0], states[0], d, 0);
    } else if t < |data| {
      RunLast(ask, states, d, data);
      RanMore(k, states[0], states[t - 1], d, t - 1);
      UncutShorter(states, data, limit);
      RunCut(ask, react, states[..t], d, out, data, k, limit);
      PrefixGrows(data, t);
      GrownGrows(out, d, data[..t - 1], data[t - 1]);
      RunCutByte(ask, react, states[t - 1], d, Grown(out, d, data[..t - 1]), data[t - 1..], Ran(k, states[0], d, t - 1), limit, states[t]);
    }
  }

  lemma RunCutEnds(
      ask: Answers, react: Reactions, states: seq<Parser>, d: DataKind, out: seq<Event>, data: string, k: Counters, limit: nat)
    requires Run(ask, states, d, data) && Uncut(states, data, limit) && |states| - 1 == |data| > 0
    ensures FirstCutRest(ask, react, states[0], out, k, limit, data).None?
  {
    hide Step, Emit, HaltIn, FirstCutRest, Cut;
    var t := |data|;
    var before, ch := data[..t - 1], data[t - 1];
    RunShorter(ask, states, d, data);
    UncutShorter(states, data, limit);
    hide Uncut;
    RunCut(ask, react, states[..t], d, out, data, k, limit);
    PrefixGrows(data, t);
    assert StepsTo(ask, states[t - 1], d, data[t - 1], states[t]);
    hide Run, StepsTo, Grown;
    RunCutLast(ask, react, states[t - 1], d, Grown(out, d, before), data[t - 1..], Ran(k, states[0], d, t - 1), limit, states[t]);
  }

  lemma ValueUncut(p: Parser, data: string, k: nat, limit: nat)
    requires k <= |data| && ValueChars(p, data[..k]).Some? && !Cut(p, data, limit)
    ensures Uncut(ValueStates(p, data, k), data, limit)
  {
    hide ValueChars, Cut;
    forall t | 0 <= t < k ensures !Cut(ValueStates(p, data, k)[t], data[t..], limit) {
      assert data[..k][..t] == data[..t] && data[..t] + data[t..k] == data[..k];
      ValueCharsJoin(p, data[..t], data[t..k]);
      if Cut(ValueStates(p, data, k)[t], data[t..], limit) {
        CutLater(p, ValueStates(p, data, k)[t], data, t, limit);
      }
    }
  }

  // --------------------------------------------------------------------------------------------------------
  // What a cut leads to

  /** How a call ends that has cut off a value. */
  datatype Outcome =
    | PausedBehind(p: Parser, out: seq<Event>, nread: nat, left: string)
    | Stopped(errno: Errno)

  /** The value goes on to where the loop stops, whatever is passed over unseen. If a CR has ended it the application is
      told of it, and may pause or fail; in all other cases the call ends in an error. */
  function Overrun(react: Reactions, c: CutPoint, limit: nat): Outcome {
    var (q, rest) := ValueTail(c.p, c.rest, limit);
    if rest == "" || rest[0] == LF then Stopped(HeaderOverflow)
    else if rest[0] == CR then
      match react(c.calls)
      case Proceed => Stopped(HeaderOverflow)
      case Pause =>
        PausedBehind(q.(state := HeaderAlmostDone), Emit(c.out, Data(Value, c.rest[..|c.rest| - |rest|])), c.saved, rest[1..])
      case Fail => Stopped(CbHeaderValue)
    else Stopped(InvalidHeaderToken)
  }
}
