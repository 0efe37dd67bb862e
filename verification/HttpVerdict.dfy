/** What ends a call: a callback, an error in the text, or the header limit, whichever comes first. */
module HttpVerdict {
  import opened HttpTypes
  import opened HttpChars
  import opened HttpTransition
  import opened HttpInvariant
  import opened HttpFeed
  import opened HttpHalts
  import opened HttpRuns

  /** `nread` is the counter that a callback leaves behind which does not let the parser go on. */
  datatype Verdict = ToEnd | ByCallback(nread: nat) | ByError | ByLimit

  /** A loop over a value that has begun counts its other bytes only behind the value, but for an LF that ends it. */
  predicate Uncounted(p: Parser, since: Option<nat>, ch: char) { p.state.HeaderValue? && since.Some? && ch != LF }

  /** The counter at the start of the loop over a value. */
  function Since(p: Parser, n: nat, since: Option<nat>): Option<nat> {
    if !p.state.HeaderValue? then None else if since.Some? then since else Some(n)
  }

  /** The end of a call on a text in which no value is cut off. */
  function Decide(
      ask: Answers, react: Reactions, p: Parser, out: seq<Event>, k: Counters, limit: nat, since: Option<nat>, data: string): Verdict
    decreases |data|, 1
  {
    if data == "" then if k.n > limit then ByLimit else ToEnd
    else
      var k1 := Counted(p, k);
      if k1.n > limit && !Uncounted(p, since, data[0]) then ByLimit
      else DecideRest(ask, react, p, out, k1, limit, Since(p, k1.n, since), data)
  }

  /** The same, when the first byte is counted already. */
  function DecideRest(
      ask: Answers, react: Reactions, p: Parser, out: seq<Event>, k: Counters, limit: nat, since: Option<nat>, data: string): Verdict
    requires data != ""
    decreases |data|, 0
  {
    match HaltIn(ask, react, p, out, k, data[0])
    case Halted(_, _, nread, status, _) => ByCallback(if status.Broken? && Uncounted(p, since, data[0]) then since.value else nread)
    case Unhalted(k') =>
      match Step(ask, p, out, data[0])
      case Consumed(q, told, _) => Decide(ask, react, q, told, k', limit, since, data[1..])
      case Left(_, _) => ToEnd
      case Refused(_) => ByError
  }

  /** A byte of a field value neither ends the call nor restarts the counter. */
  lemma ValueByte(ask: Answers, p: Parser, out: seq<Event>, ch: char)
    requires p.state.HeaderValue?
    ensures var r := Step(ask, p, out, ch); !r.Left? && (r.Consumed? ==> !r.reset)
  {
    hide Transition, Emit, Called, Flushed;
    ValueMoves(p, ch);
    if ch == LF {
      StepAgain(ask, p, out, ch, Transition(p, ch));
    }
  }

  lemma ValueMoves(p: Parser, ch: char)
    requires p.state.HeaderValue?
    ensures var mv := Transition(p, ch);
      if ch == LF then
        mv.Move? && mv.call != Callback.Note(HeadersComplete) && mv.next.Again? && Transition(mv.p, ch) == Go(mv.p.(state := HeaderValueLws))
      else mv.Move? ==> !mv.reset && mv.call != Callback.Note(HeadersComplete) && mv.next.Advance?
  {
    hide ResponseLine, RequestMethod, RequestVersion, RequestUrl, HeaderName, EndOfHeaders, BodyMove, ValueChar, ValueStart, FinishHeader, IsHeaderChar;
    ValueCharGoes(p, ch);
  }

  /** What a verdict says of the text: it ends well only if nothing fails, no callback stops the parser and the limit is kept;
      and if not, what ends it is there. */
  lemma {:induction false} VerdictMeans(
      ask: Answers, react: Reactions, p: Parser, out: seq<Event>, k: Counters, limit: nat, since: Option<nat>, data: string)
    ensures var h, whole := Halts(ask, react, p, out, k, data), Feed(ask, p, out, data);
      var verdict := Decide(ask, react, p, out, k, limit, since, data);
      && (verdict.ToEnd? ==> k.n <= limit && Tally(ask, p, out, k.n, limit, data).Some? && h.NoHalt? && !whole.Failed?)
      && (verdict.ByCallback? ==> h.HaltAt?)
      && (verdict.ByError? ==> h.NoHalt? && whole.Failed?)
      && (verdict.ByLimit? ==> k.n > limit || Tally(ask, p, out, k.n, limit, data).None?)
    decreases |data|
  {
    hide Step, HaltIn;
    if data != "" {
      var k1 := Counted(p, k);
      UnhaltedMeans(ask, react, p, out, k1, data[0]);
      if p.state.HeaderValue? {
        ValueByte(ask, p, out, data[0]);
      }
      if k1.n <= limit || Uncounted(p, since, data[0]) {
        assert Decide(ask, react, p, out, k, limit, since, data) == DecideRest(ask, react, p, out, k1, limit, Since(p, k1.n, since), data);
        match HaltIn(ask, react, p, out, k1, data[0])
        case Halted(_, _, _, _, _) =>
        case Unhalted(k') =>
          match Step(ask, p, out, data[0])
          case Consumed(q, told, _) => VerdictMeans(ask, react, q, told, k', limit, Since(p, k1.n, since), data[1..]);
          case Left(q, told) =>
          case Refused(e) =>
      }
    }
  }

  lemma RunDecideByte(
      ask: Answers, react: Reactions, p: Parser, d: DataKind, out: seq<Event>, data: string, k: Counters, limit: nat, since: Option<nat>, q: Parser)
    requires |data| > 1 && StepsTo(ask, p, d, data[0], q) && ParsingHeader(q.state) == ParsingHeader(p.state)
    requires q.state.HeaderValue? == p.state.HeaderValue? == since.Some? && (!ParsingHeader(p.state) ==> k.n <= limit)
    ensures DecideRest(ask, react, p, out, k, limit, since, data) ==
            if ParsingHeader(p.state) && k.n + 1 > limit && !Uncounted(p, since, data[1]) then ByLimit
            else DecideRest(ask, react, q, Emit(out, Data(d, [data[0]])), Ran(k, p, d, 1), limit, since, data[1..])
  {
    hide Step, Emit, HaltIn, StepsTo, Silent;
    StepIs(ask, p, d, data[0], q, out);
    SilentByte(ask, react, p, d, out, k, data[0]);
  }

  /** What is left of a run is decided behind it, or the limit is passed in it. */
  lemma {:induction false} RunDecide(
      ask: Answers, react: Reactions, states: seq<Parser>, d: DataKind, out: seq<Event>, data: string, k: Counters, limit: nat, since: Option<nat>)
    requires |states| >= 1 && Run(ask, states, d, data) && (!ParsingHeader(states[0].state) ==> k.n <= limit)
    requires forall t | 0 <= t < |states| :: states[t].state.HeaderValue? == since.Some?
    requires since.Some? ==> forall t | 0 <= t < |states| - 1 :: data[t] != LF
    ensures var t := |states| - 1;
            t < |data| ==>
              DecideRest(ask, react, states[0], out, k, limit, since, data) ==
              if t > 0 && ParsingHeader(states[0].state) && k.n + t > limit && !Uncounted(states[0], since, data[t]) then ByLimit
              else DecideRest(ask, react, states[t], Grown(out, d, data[..t]), Ran(k, states[0], d, t), limit, since, data[t..])
    decreases |states|
  {
    hide Step, Emit, HaltIn, DecideRest, Run, StepsTo, Grown, ParsingHeader, Ran;
    var t := |states| - 1;
    if t == 0 {
      assert data[..0] == "" && data[0..] == data;
      GrownNone(out, d);
      RanMore(k, states[0], states[0], d, 0);
    } else if t < |data| {
      RunLast(ask, states, d, data);
      RanMore(k, states[0], states[t - 1], d, t - 1);
      RunDecide(ask, react, states[..t], d, out, data, k, limit, since);
      PrefixGrows(data, t);
      GrownGrows(out, d, data[..t - 1], data[t - 1]);
      assert data[t - 1..][1] == data[t];
      RunDecideByte(ask, react, states[t - 1], d, Grown(out, d, data[..t - 1]), data[t - 1..], Ran(k, states[0], d, t - 1), limit, since, states[t]);
    }
  }

  /** A run to the very end of the buffer. */
  lemma RunDecideEnds(
      ask: Answers, react: Reactions, states: seq<Parser>, d: DataKind, out: seq<Event>, data: string, k: Counters, limit: nat, since: Option<nat>)
    requires Run(ask, states, d, data) && |states| - 1 == |data| > 0 && k.n <= limit
    requires forall t | 0 <= t < |states| :: states[t].state.HeaderValue? == since.Some?
    requires since.Some? ==> forall t | 0 <= t < |states| - 1 :: data[t] != LF
    ensures DecideRest(ask, react, states[0], out, k, limit, since, data) ==
            if ParsingHeader(states[0].state) && k.n + |data| - 1 > limit then ByLimit else ToEnd
  {
    hide Step, Emit, HaltIn, DecideRest, Run, StepsTo, Grown, ParsingHeader, Silent;
    var t := |data|;
    RunLast(ask, states, d, data);
    RunDecide(ask, react, states[..t], d, out, data, k, limit, since);
    PrefixGrows(data, t);
    var told, k' := Grown(out, d, data[..t - 1]), Ran(k, states[0], d, t - 1);
    StepIs(ask, states[t - 1], d, data[t - 1], states[t], told);
    SilentByte(ask, react, states[t - 1], d, told, k', data[t - 1]);
    LastDecision(ask, react, states[t - 1], told, data[t - 1..], k', k'.(body := k'.body || d == Body), limit, since);
  }

  lemma LastDecision(
      ask: Answers, react: Reactions, p: Parser, out: seq<Event>, data: string, k: Counters, k': Counters, limit: nat, since: Option<nat>)
    requires |data| == 1 && HaltIn(ask, react, p, out, k, data[0]) == Unhalted(k') && Step(ask, p, out, data[0]).Consumed?
    ensures DecideRest(ask, react, p, out, k, limit, since, data) == if k'.n > limit then ByLimit else ToEnd
  {
    hide Step, HaltIn;
    assert data[1..] == "";
  }

  /** A byte in the middle of a value is no LF. */
  lemma NoLineFeed(ask: Answers, states: seq<Parser>, data: string)
    requires Run(ask, states, Value, data) && forall t | 0 <= t < |states| :: states[t].state.HeaderValue?
    ensures forall t | 0 <= t < |states| - 1 :: data[t] != LF
  {
    hide StepsTo;
    forall t | 0 <= t < |states| - 1 ensures data[t] != LF {
      SilentStep(ask, states[t], data[t], states[t + 1]);
    }
  }

  lemma SilentStep(ask: Answers, p: Parser, ch: char, q: Parser)
    requires p.state.HeaderValue? && StepsTo(ask, p, Value, ch, q)
    ensures ch != LF
  {
    hide Step, Emit;
    assert Silent(p, Value, ch);
  }
}
