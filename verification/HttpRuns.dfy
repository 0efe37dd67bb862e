/** The fast loops of `http_parser_execute`: runs of bytes that one state consumes. */
module HttpRuns {
  import opened HttpTypes
  import opened HttpChars
  import opened HttpTransition
  import opened HttpInvariant
  import opened HttpFeed
  import opened HttpHalts

  /** The trace after some bytes of one kind. */
  function Grown(out: seq<Event>, d: DataKind, bytes: string): seq<Event> {
    if bytes == "" then out else Emit(out, Data(d, bytes))
  }

  lemma GrownSome(out: seq<Event>, d: DataKind, bytes: string)
    requires bytes != ""
    ensures Grown(out, d, bytes) == Emit(out, Data(d, bytes))
  {
  }

  lemma GrownGrows(out: seq<Event>, d: DataKind, x: string, ch: char)
    ensures Emit(Grown(out, d, x), Data(d, [ch])) == Grown(out, d, x + [ch])
  {
    if x == "" {
      assert x + [ch] == [ch];
    } else {
      EmitJoins(out, d, x, [ch]);
    }
  }

  /** Whatever was told before, the byte takes the parser from `p` to `q` and is passed to the callback `d`. */
  ghost predicate StepsTo(ask: Answers, p: Parser, d: DataKind, ch: char, q: Parser) {
    && (forall out :: Step(ask, p, out, ch) == Consumed(q, Emit(out, Data(d, [ch])), false))
    && Silent(p, d, ch)
  }

  /** The byte makes no callback of its own. */
  predicate Silent(p: Parser, d: DataKind, ch: char) {
    var mv := Transition(p, ch);
    mv.Move? && mv.call.NoCallback? && mv.next.Advance? && !mv.reset && (mv.mark == Some(Body) <==> d == Body)
  }

  lemma StepIs(ask: Answers, p: Parser, d: DataKind, ch: char, q: Parser, out: seq<Event>)
    requires StepsTo(ask, p, d, ch, q)
    ensures Step(ask, p, out, ch) == Consumed(q, Emit(out, Data(d, [ch])), false) && Silent(p, d, ch)
  {
    hide Step, Emit, Silent;
  }

  lemma SilentByte(ask: Answers, react: Reactions, p: Parser, d: DataKind, out: seq<Event>, k: Counters, ch: char)
    requires Silent(p, d, ch)
    ensures HaltIn(ask, react, p, out, k, ch) == Unhalted(k.(body := k.body || d == Body))
  {
    hide Transition, Emit, Called;
  }

  /** A run: each byte takes the parser from one of `states` to the next and is passed to the callback `d`. */
  ghost predicate Run(ask: Answers, states: seq<Parser>, d: DataKind, data: string) {
    && 1 <= |states| <= |data| + 1
    && (forall t | 0 <= t < |states| - 1 :: StepsTo(ask, states[t], d, data[t], states[t + 1]))
    && (forall t | 0 <= t < |states| :: ParsingHeader(states[t].state) == ParsingHeader(states[0].state))
  }

  /** A text with one more byte of it. */
  lemma PrefixGrows(s: string, k: nat)
    requires 0 < k <= |s|
    ensures s[..k] == s[..k - 1] + [s[k - 1]] && s[..k][..k - 1] == s[..k - 1] && s[..k][k - 1] == s[k - 1]
    ensures s[k - 1..][0] == s[k - 1] && s[k - 1..][1..] == s[k..]
  {
  }

  lemma RunShorter(ask: Answers, states: seq<Parser>, d: DataKind, data: string)
    requires Run(ask, states, d, data) && |states| > 1
    ensures Run(ask, states[..|states| - 1], d, data)
  {
    hide StepsTo;
  }

  /** The last byte of a run. */
  lemma RunLast(ask: Answers, states: seq<Parser>, d: DataKind, data: string)
    requires Run(ask, states, d, data) && |states| > 1
    ensures var t := |states| - 1;
      && t <= |data| && StepsTo(ask, states[t - 1], d, data[t - 1], states[t]) && Run(ask, states[..t], d, data)
      && ParsingHeader(states[t - 1].state) == ParsingHeader(states[0].state) == ParsingHeader(states[t].state)
  {
    hide StepsTo;
    RunShorter(ask, states, d, data);
  }

  lemma RunLonger(ask: Answers, short: seq<Parser>, all: seq<Parser>, d: DataKind, data: string)
    requires Run(ask, short, d, data) && |all| == |short| + 1 <= |data| + 1 && all[..|short|] == short
    requires var k := |short|;
             && ParsingHeader(all[k].state) == ParsingHeader(all[k - 1].state)
             && StepsTo(ask, all[k - 1], d, data[k - 1], all[k])
    ensures Run(ask, all, d, data)
  {
    hide StepsTo;
    forall t | 0 <= t < |short| ensures all[t] == short[t] {
      assert all[..|short|][t] == short[t];
    }
  }

  lemma RunFeedsByte(ask: Answers, p: Parser, d: DataKind, out: seq<Event>, data: string, n: nat, limit: nat, q: Parser)
    requires data != "" && StepsTo(ask, p, d, data[0], q)
    ensures Feed(ask, p, out, data) == Feed(ask, q, Emit(out, Data(d, [data[0]])), data[1..])
    ensures |data| > 1 ==>
              TallyRest(ask, p, out, n, limit, data) ==
              if ParsingHeader(q.state) && n + 1 > limit then None
              else TallyRest(ask, q, Emit(out, Data(d, [data[0]])), if ParsingHeader(q.state) then n + 1 else n, limit, data[1..])
  {
    hide Step, Emit, StepsTo, Silent;
    StepIs(ask, p, d, data[0], q, out);
  }

  /** Feeding a run is one jump. */
  lemma {:induction false} RunFeeds(
      ask: Answers, states: seq<Parser>, d: DataKind, out: seq<Event>, data: string, n: nat, limit: nat)
    requires |states| >= 1 && Run(ask, states, d, data)
    ensures var k := |states| - 1;
            && Feed(ask, states[0], out, data) == Feed(ask, states[k], Grown(out, d, data[..k]), data[k..])
            && (k < |data| ==>
                  var n' := if ParsingHeader(states[0].state) then n + k else n;
                  TallyRest(ask, states[0], out, n, limit, data) ==
                  if k > 0 && ParsingHeader(states[0].state) && n' > limit then None
                  else TallyRest(ask, states[k], Grown(out, d, data[..k]), n', limit, data[k..]))
    decreases |states|
  {
    hide Step, Emit, Run, StepsTo, Grown, Feed, TallyRest, ParsingHeader;
    var k := |states| - 1;
    if k == 0 {
      assert data[..0] == "" && data[0..] == data;
      GrownNone(out, d);
    } else {
      RunLast(ask, states, d, data);
      RunFeeds(ask, states[..k], d, out, data, n, limit);
      PrefixGrows(data, k);
      GrownGrows(out, d, data[..k - 1], data[k - 1]);
      var n' := if ParsingHeader(states[0].state) then n + k - 1 else n;
      RunFeedsByte(ask, states[k - 1], d, Grown(out, d, data[..k - 1]), data[k - 1..], n', limit, states[k]);
    }
  }

  /** A run to the very end of the buffer. */
  lemma RunEnds(ask: Answers, states: seq<Parser>, d: DataKind, out: seq<Event>, data: string, n: nat, limit: nat)
    requires Run(ask, states, d, data) && |states| - 1 == |data| > 0
    ensures var k := |data|;
            && Feed(ask, states[0], out, data) == Fed(states[k], Grown(out, d, data))
            && var n' := if ParsingHeader(states[0].state) then n + k - 1 else n;
               TallyRest(ask, states[0], out, n, limit, data) ==
               if k > 1 && ParsingHeader(states[0].state) && n' > limit then None else Some(n')
  {
    hide Step, Emit, Run, StepsTo, Grown, ParsingHeader;
    var k := |data|;
    RunLast(ask, states, d, data);
    RunFeeds(ask, states, d, out, data, n, limit);
    RunFeeds(ask, states[..k], d, out, data, n, limit);
    PrefixGrows(data, k);
    assert data[..k] == data && data[k..] == "";
    StepIs(ask, states[k - 1], d, data[k - 1], states[k], Grown(out, d, data[..k - 1]));
    LastOfRest(ask, states[k - 1], Grown(out, d, data[..k - 1]), data[k - 1..], if ParsingHeader(states[0].state) then n + k - 1 else n, limit);
  }

  lemma LastOfRest(ask: Answers, p: Parser, out: seq<Event>, data: string, n: nat, limit: nat)
    requires |data| == 1 && Step(ask, p, out, data[0]).Consumed? && !Step(ask, p, out, data[0]).reset
    ensures TallyRest(ask, p, out, n, limit, data) == Some(n)
  {
    hide Step;
    assert data[1..] == "";
  }

  /** The counters after `t` bytes of a run, when the first one was counted already and the next one is. */
  function Ran(k: Counters, p: Parser, d: DataKind, t: nat): Counters {
    if t == 0 then k else k.(n := if ParsingHeader(p.state) then k.n + t else k.n, body := k.body || d == Body)
  }

  lemma RunHaltsByte(ask: Answers, react: Reactions, p: Parser, d: DataKind, out: seq<Event>, data: string, k: Counters, q: Parser)
    requires |data| > 1 && StepsTo(ask, p, d, data[0], q) && ParsingHeader(q.state) == ParsingHeader(p.state)
    ensures HaltsRest(ask, react, p, out, k, data) == HaltsRest(ask, react, q, Emit(out, Data(d, [data[0]])), Ran(k, p, d, 1), data[1..])
  {
    hide Step, Emit, HaltIn, StepsTo, Silent;
    StepIs(ask, p, d, data[0], q, out);
    SilentByte(ask, react, p, d, out, k, data[0]);
  }

  lemma RanMore(k: Counters, p: Parser, q: Parser, d: DataKind, t: nat)
    requires ParsingHeader(p.state) == ParsingHeader(q.state)
    ensures Ran(Ran(k, p, d, t), q, d, 1) == Ran(k, p, d, t + 1)
    ensures Ran(k, p, d, t).n == if ParsingHeader(p.state) then k.n + t else k.n
    ensures Ran(k, p, d, 0) == k
  {
    hide ParsingHeader;
  }

  /** No callback stops the parser in a run. */
  lemma {:induction false} RunHalts(
      ask: Answers, react: Reactions, states: seq<Parser>, d: DataKind, out: seq<Event>, data: string, k: Counters)
    requires |states| >= 1 && Run(ask, states, d, data)
    ensures var t := |states| - 1;
            t < |data| ==>
              HaltsRest(ask, react, states[0], out, k, data) ==
              HaltsRest(ask, react, states[t], Grown(out, d, data[..t]), Ran(k, states[0], d, t), data[t..])
    decreases |states|
  {
    hide Step, Emit, HaltIn, HaltsRest, Run, StepsTo, Grown;
    var t := |states| - 1;
    if t == 0 {
      assert data[..0] == "" && data[0..] == data;
      GrownNone(out, d);
    } else if t < |data| {
      RunLast(ask, states, d, data);
      RunHalts(ask, react, states[..t], d, out, data, k);
      PrefixGrows(data, t);
      GrownGrows(out, d, data[..t - 1], data[t - 1]);
      RunHaltsByte(ask, react, states[t - 1], d, Grown(out, d, data[..t - 1]), data[t - 1..], Ran(k, states[0], d, t - 1), states[t]);
    }
  }

  lemma GrownNone(out: seq<Event>, d: DataKind)
    ensures Grown(out, d, "") == out
  {
  }

  lemma RunHaltsEnds(ask: Answers, react: Reactions, states: seq<Parser>, d: DataKind, out: seq<Event>, data: string, k: Counters)
    requires Run(ask, states, d, data) && |states| - 1 == |data| > 0
    ensures var t := |data|;
            HaltsRest(ask, react, states[0], out, k, data) ==
            NoHalt(Ran(k, states[0], d, t).(n := if ParsingHeader(states[0].state) then k.n + t - 1 else k.n))
  {
    hide Step, Emit, HaltIn, HaltsRest, Run, StepsTo, Grown, ParsingHeader, Silent;
    var t := |data|;
    RunLast(ask, states, d, data);
    RunHalts(ask, react, states[..t], d, out, data, k);
    PrefixGrows(data, t);
    var told := Grown(out, d, data[..t - 1]);
    StepIs(ask, states[t - 1], d, data[t - 1], states[t], told);
    SilentByte(ask, react, states[t - 1], d, told, Ran(k, states[0], d, t - 1), data[t - 1]);
    LastHalt(ask, react, states[t - 1], told, data[t - 1..], Ran(k, states[0], d, t - 1), Ran(k, states[0], d, t - 1).(body := k.body || d == Body));
  }

  lemma LastHalt(ask: Answers, react: Reactions, p: Parser, out: seq<Event>, data: string, k: Counters, k': Counters)
    requires |data| == 1 && HaltIn(ask, react, p, out, k, data[0]) == Unhalted(k') && Step(ask, p, out, data[0]).Consumed?
    ensures HaltsRest(ask, react, p, out, k, data) == NoHalt(k')
  {
    hide Step, HaltIn;
    assert data[1..] == "";
  }

  // --------------------------------------------------------------------------------------------------------
  // Field names

  /** The fields after a run of token characters. */
  function FieldChars(p: Parser, s: string): Parser {
    if s == "" then p else FieldChar(FieldChars(p, s[..|s| - 1]), s[|s| - 1])
  }

  predicate Tokens(s: string) { forall k | 0 <= k < |s| :: IsToken(s[k]) }

  lemma FieldStep(ask: Answers, p: Parser, ch: char)
    requires p.state.HeaderField? && IsToken(ch)
    ensures StepsTo(ask, p, Field, ch, FieldChar(p, ch))
    ensures FieldChar(p, ch).state.HeaderField?
  {
    hide Emit, NameStep, IsToken;
  }

  function FieldStates(p: Parser, data: string, k: nat): seq<Parser>
    requires k <= |data|
  {
    seq(k + 1, t requires 0 <= t <= k => FieldChars(p, data[..t]))
  }

  lemma {:induction false} FieldRun(ask: Answers, p: Parser, data: string, k: nat)
    requires p.state.HeaderField? && k <= |data| && Tokens(data[..k])
    ensures Run(ask, FieldStates(p, data, k), Field, data)
    ensures FieldStates(p, data, k)[0] == p && FieldChars(p, data[..k]).state.HeaderField?
  {
    hide Step, Emit, FieldChar, IsToken;
    if k == 0 {
      assert data[..0] == "";
    } else {
      var before, ch := data[..k - 1], data[k - 1];
      PrefixGrows(data, k);
      FieldRun(ask, p, data, k - 1);
      assert IsToken(data[..k][k - 1]);
      FieldStep(ask, FieldChars(p, before), ch);
      var short, all := FieldStates(p, data, k - 1), FieldStates(p, data, k);
      assert all[..k] == short;
      RunLonger(ask, short, all, Field, data);
    }
  }

  lemma {:induction false} FieldCharsKeep(p: Parser, s: string)
    requires Valid(p) && p.state.HeaderField? && Tokens(s)
    ensures Valid(FieldChars(p, s)) && FieldChars(p, s).state.HeaderField? && FieldChars(p, s).flags == p.flags
  {
    hide Valid, NameStep, IsToken;
    if s != "" {
      var q := FieldChars(p, s[..|s| - 1]);
      FieldCharsKeep(p, s[..|s| - 1]);
      TransitionKeeps(q, s[|s| - 1]);
      assert IsToken(s[|s| - 1]);
    }
  }

  /** The loop over a field name, with its inner loop for names that can no longer be special. It stops at the
      first byte that is not a token character. */
  method FieldLoop(p: Parser, data: string, i: nat, limit: nat) returns (q: Parser, j: nat)
    requires p.state.HeaderField? && i < |data|
    ensures i <= j <= |data| && Tokens(data[i..j]) && q == FieldChars(p, data[i..j])
    ensures j < |data| ==> !IsToken(data[j])
  {
    hide FieldChars, FieldChar, IsToken, Tokens;
    q, j := p, i;
    RunBegins(p, data, i);
    while j < |data|
      invariant i <= j <= |data| && Tokens(data[i..j]) && q == FieldChars(p, data[i..j])
    {
      if !IsToken(data[j]) {
        return;
      }
      FieldExtends(p, data, i, j);
      if q.header.General? {
        GeneralField(q, data[j]);
        var end := if |data| - j < limit then |data| else j + limit;
        while j + 1 < end && IsToken(data[j + 1])
          invariant i <= j < |data| && end <= |data|
          invariant Tokens(data[i..j + 1]) && q == FieldChars(p, data[i..j + 1])
        {
          j := j + 1;
          FieldExtends(p, data, i, j);
          GeneralField(q, data[j]);
        }
      } else {
        q := FieldChar(q, data[j]);
      }
      j := j + 1;
    }
  }

  lemma RunBegins(p: Parser, data: string, i: nat)
    requires i <= |data|
    ensures Tokens(data[i..i]) && FieldChars(p, data[i..i]) == p
  {
  }

  lemma FieldExtends(p: Parser, data: string, i: nat, j: nat)
    requires i <= j < |data| && Tokens(data[i..j]) && IsToken(data[j])
    ensures Tokens(data[i..j + 1]) && FieldChars(p, data[i..j + 1]) == FieldChar(FieldChars(p, data[i..j]), data[j])
  {
    hide FieldChar, IsToken;
    assert data[i..j + 1] == data[i..j] + [data[j]];
    assert data[i..j + 1][..j - i] == data[i..j];
  }

  lemma GeneralField(q: Parser, ch: char)
    requires q.header.General?
    ensures FieldChar(q, ch) == q
  {
  }

  // --------------------------------------------------------------------------------------------------------
  // Field values

  /** A byte at which the loop over a value stops: its end, or an error. */
  predicate Stops(p: Parser, ch: char) {
    ch == CR || ch == LF || !IsHeaderChar(ch) || ValueChar(p, ch).Reject?
  }

  /** The fields after a run of value bytes, or `None` if one of them stops the run. */
  function ValueChars(p: Parser, s: string): Option<Parser> {
    if s == "" then Some(p) else
    match ValueChars(p, s[..|s| - 1])
    case None => None
    case Some(q) => if Stops(q, s[|s| - 1]) then None else Some(ValueChar(q, s[|s| - 1]).p)
  }

  lemma ValueStep(ask: Answers, p: Parser, ch: char)
    requires p.state.HeaderValue? && !Stops(p, ch)
    ensures StepsTo(ask, p, Value, ch, ValueChar(p, ch).p)
    ensures ValueChar(p, ch).p.state.HeaderValue?
  {
    hide Emit, ValueChar, IsHeaderChar;
    ValueCharGoes(p, ch);
  }

  function ValueStates(p: Parser, data: string, k: nat): seq<Parser>
    requires k <= |data|
  {
    seq(k + 1, t requires 0 <= t <= k => ValueChars(p, data[..t]).GetOr(p))
  }

  lemma {:induction false} ValueRun(ask: Answers, p: Parser, data: string, k: nat)
    requires p.state.HeaderValue? && k <= |data| && ValueChars(p, data[..k]).Some?
    ensures Run(ask, ValueStates(p, data, k), Value, data)
    ensures ValueStates(p, data, k)[0] == p && ValueChars(p, data[..k]).value.state.HeaderValue?
  {
    hide Step, Emit, ValueChar, Stops;
    if k == 0 {
      assert data[..0] == "";
    } else {
      var before, ch := data[..k - 1], data[k - 1];
      PrefixGrows(data, k);
      ValueRun(ask, p, data, k - 1);
      ValueStep(ask, ValueChars(p, before).value, ch);
      var short, all := ValueStates(p, data, k - 1), ValueStates(p, data, k);
      assert all[..k] == short;
      RunLonger(ask, short, all, Value, data);
    }
  }

  /** How many bytes of plain text there are at the beginning, at most `limit`. */
  function PlainRun(s: string, limit: nat): (r: nat)
    ensures r <= |s| && r <= limit && forall i | 0 <= i < r :: Plain(s[i])
    ensures r < limit && r < |s| ==> !Plain(s[r])
  {
    if limit == 0 || s == "" || !Plain(s[0]) then 0
    else
      var r := 1 + PlainRun(s[1..], limit - 1);
      assert forall i | 0 < i < r :: s[i] == s[1..][i - 1];
      r
  }

  predicate Plain(ch: char) { ch != CR && ch != LF && IsHeaderChar(ch) }

  /** What the loop over a value makes of the bytes `s`, and what it leaves of them. In a value that cannot be special
      any more it looks at no more than `limit` bytes at a time, and if there are more it passes over the next one unseen. */
  function ValueTail(p: Parser, s: string, limit: nat): (r: (Parser, string))
    ensures |r.1| <= |s|
    decreases |s|
  {
    if s == "" || Stops(p, s[0]) then (p, s)
    else if p.header.General? then
      var r := PlainRun(s, limit);
      if r == limit && r < |s| then ValueTail(p, s[r + 1..], limit)
      else if r == 0 then (p, s) else ValueTail(p, s[r..], limit)
    else ValueTail(ValueChar(p, s[0]).p, s[1..], limit)
  }

  /** The search is cut off in a value that continues with `s`: after `k` bytes it cannot be special, `limit` bytes more are
      plain text, and there are still more. */
  ghost predicate Cut(p: Parser, s: string, limit: nat) { exists k: nat :: CutAt(p, s, k, limit) }

  predicate CutAt(p: Parser, s: string, k: nat, limit: nat) {
    && k + limit < |s| && ValueChars(p, s[..k + limit]).Some?
    && var v := ValueChars(p, s[..k]); v.Some? && v.value.header.General?
  }

  /** A value is read in parts. */
  lemma {:induction false} ValueCharsJoin(p: Parser, x: string, y: string)
    ensures ValueChars(p, x + y) == if ValueChars(p, x).None? then None else ValueChars(ValueChars(p, x).value, y)
    decreases |y|
  {
    hide Stops, ValueChar;
    if y == "" {
      assert x + y == x;
    } else {
      assert (x + y)[..|x + y| - 1] == x + y[..|y| - 1];
      ValueCharsJoin(p, x, y[..|y| - 1]);
    }
  }

  /** Up to here the value could still be special. */
  predicate NotYet(p: Parser, s: string, t: nat)
    requires t <= |s|
  {
    forall k | 0 <= k < t :: var v := ValueChars(p, s[..k]); v.Some? ==> !v.value.header.General?
  }

  lemma NotYetMore(p: Parser, s: string, t: nat, q: Parser)
    requires t < |s| && NotYet(p, s, t) && ValueChars(p, s[..t]) == Some(q) && !q.header.General?
    ensures NotYet(p, s, t + 1)
  {
    hide ValueChars;
  }

  /** The value ends, or the buffer, before the search is cut off. */
  lemma NoCut(p: Parser, s: string, t: nat, q: Parser, r: nat, limit: nat)
    requires t + r <= |s| && NotYet(p, s, t) && ValueChars(p, s[..t]) == Some(q) && q.state.HeaderValue? && r <= limit
    requires q.header.General? ==> ValueChars(p, s[..t + r]) == Some(q)
    requires t + r < |s| ==> Stops(q, s[t + r]) && (q.header.General? ==> r < limit)
    requires !q.header.General? ==> r == 0
    ensures !Cut(p, s, limit)
  {
    hide ValueChars, Stops;
    forall k: nat | CutAt(p, s, k, limit) ensures false {
      assert k >= t;
      if t + r < |s| && t + r < k + limit {
        PrefixStops(p, s, t + r, k + limit, q);
      }
    }
  }

  lemma PrefixStops(p: Parser, s: string, t: nat, u: nat, q: Parser)
    requires t < u <= |s| && ValueChars(p, s[..t]) == Some(q) && Stops(q, s[t])
    ensures ValueChars(p, s[..u]).None?
  {
    hide Stops, ValueChar;
    assert s[..t + 1][..t] == s[..t];
    assert s[..u] == s[..t + 1] + s[t + 1..u];
    ValueCharsJoin(p, s[..t + 1], s[t + 1..u]);
  }

  /** Plain text does not change a value that cannot be special any more. */
  lemma {:induction false} PlainChars(q: Parser, s: string)
    requires q.state.HeaderValue? && q.header.General? && forall i | 0 <= i < |s| :: Plain(s[i])
    ensures ValueChars(q, s) == Some(q)
    decreases |s|
  {
    hide IsHeaderChar;
    if s != "" {
      PlainChars(q, s[..|s| - 1]);
      GeneralValue(q, s[|s| - 1]);
    }
  }

  /** What the inner loop does from place `t` of the value `s` on. */
  lemma GeneralStep(p: Parser, s: string, t: nat, q: Parser, limit: nat)
    requires t < |s| && limit > 0 && q.state.HeaderValue? && q.header.General? && !Stops(q, s[t])
    ensures var r := PlainRun(s[t..], limit);
      && 0 < r && t + r <= |s|
      && ValueTail(q, s[t..], limit) == (if r == limit && t + r < |s| then ValueTail(q, s[t + r + 1..], limit) else ValueTail(q, s[t + r..], limit))
      && (t + r < |s| && r < limit ==> Stops(q, s[t + r]))
      && (ValueChars(p, s[..t]) == Some(q) ==> ValueChars(p, s[..t + r]) == Some(q))
  {
    hide ValueChars, IsHeaderChar;
    var r := PlainRun(s[t..], limit);
    assert s[t..][0] == s[t];
    assert Plain(s[t]);
    assert s[t..][r..] == s[t + r..];
    if t + r < |s| {
      assert s[t..][r] == s[t + r] && s[t..][r + 1..] == s[t + r + 1..];
    }
    assert s[t..][..r] == s[t..t + r];
    PlainChars(q, s[t..t + r]);
    assert s[..t] + s[t..t + r] == s[..t + r];
    ValueCharsJoin(p, s[..t], s[t..t + r]);
  }

  lemma CutHere(p: Parser, s: string, t: nat, q: Parser, limit: nat)
    requires t + limit < |s| && q.header.General? && ValueChars(p, s[..t]) == Some(q) && ValueChars(p, s[..t + limit]).Some?
    ensures Cut(p, s, limit)
  {
    hide ValueChars;
    assert CutAt(p, s, t, limit);
  }

  lemma TailStep(q: Parser, s: string, limit: nat)
    requires s != "" && !q.header.General? && !Stops(q, s[0])
    ensures ValueTail(q, s, limit) == ValueTail(ValueChar(q, s[0]).p, s[1..], limit)
  {
  }

  lemma TailEnds(q: Parser, s: string, limit: nat)
    requires s == "" || Stops(q, s[0])
    ensures ValueTail(q, s, limit) == (q, s)
  {
  }

  /** The loop over the value `s` has come to place `t`. */
  ghost predicate Looping(p: Parser, s: string, t: nat, q: Parser, limit: nat, overran: bool) {
    && t <= |s| && Valid(q) && q.state.HeaderValue? && q.flags.trailing == p.flags.trailing
    && ValueTail(p, s, limit) == ValueTail(q, s[t..], limit)
    && (!overran ==> ValueChars(p, s[..t]) == Some(q) && (NotYet(p, s, t) || (!Cut(p, s, limit) && (t == |s| || Stops(q, s[t])))))
    && (overran ==> t > limit && q.header.General? && Cut(p, s, limit))
  }

  lemma LoopBegins(p: Parser, s: string, limit: nat)
    requires Valid(p) && p.state.HeaderValue?
    ensures Looping(p, s, 0, p, limit, false)
  {
    hide Valid, ValueTail, Cut, Stops;
    assert s[..0] == "" && s[0..] == s;
  }

  lemma LoopGeneral(p: Parser, s: string, t: nat, q: Parser, limit: nat, overran: bool, r: nat)
    requires Looping(p, s, t, q, limit, overran) && t < |s| && !Stops(q, s[t]) && q.header.General? && limit > 0
    requires r == PlainRun(s[t..], limit)
    ensures 0 < r && t + r <= |s|
    ensures if r == limit && t + r < |s| then Looping(p, s, t + r + 1, q, limit, true) else Looping(p, s, t + r, q, limit, overran)
  {
    hide ValueChar, IsHeaderChar, Valid, ValueTail, Cut, ValueChars, Stops, NotYet, PlainRun;
    GeneralStep(p, s, t, q, limit);
    if !overran {
      if r == limit && t + r < |s| {
        CutHere(p, s, t, q, limit);
      } else {
        NoCut(p, s, t, q, r, limit);
      }
    }
  }

  lemma LoopSpecial(p: Parser, s: string, t: nat, q: Parser, limit: nat, overran: bool)
    requires Looping(p, s, t, q, limit, overran) && t < |s| && !Stops(q, s[t]) && !q.header.General?
    ensures var mv := ValueChar(q, s[t]); mv.Move? && Looping(p, s, t + 1, mv.p, limit, overran)
  {
    hide ValueChar, Valid, ValueTail, Cut, ValueChars, Stops, NotYet;
    SpecialStep(p, s, t, q, limit);
  }

  lemma LoopEnds(p: Parser, s: string, t: nat, q: Parser, limit: nat, overran: bool)
    requires Looping(p, s, t, q, limit, overran) && (t == |s| || Stops(q, s[t])) && limit > 0
    ensures (q, s[t..]) == ValueTail(p, s, limit) && (overran <==> Cut(p, s, limit))
    ensures !overran ==> ValueChars(p, s[..t]) == Some(q)
    ensures overran ==> t > limit && q.header.General?
    ensures Valid(q) && q.state.HeaderValue? && q.flags.trailing == p.flags.trailing
  {
    hide ValueChar, Valid, ValueTail, Cut, ValueChars, Stops, NotYet;
    TailEnds(q, s[t..], limit);
    if !overran && NotYet(p, s, t) {
      NoCut(p, s, t, q, 0, limit);
    }
  }

  /** The loop over a field value. `overran` tells whether the search was cut off. */
  method ValueLoop(p: Parser, data: string, i: nat, limit: nat)
    returns (q: Parser, j: nat, ghost overran: bool)
    requires Valid(p) && p.state.HeaderValue? && i < |data| && limit > 0
    ensures i <= j <= |data| && Valid(q) && q.state.HeaderValue? && q.flags.trailing == p.flags.trailing
    ensures (q, data[j..]) == ValueTail(p, data[i..], limit)
    ensures overran <==> Cut(p, data[i..], limit)
    ensures !overran ==> ValueChars(p, data[i..j]) == Some(q)
    ensures overran ==> j - i > limit && q.header.General?
    ensures j < |data| ==> Stops(q, data[j])
  {
    hide ValueChar, IsHeaderChar, Valid, ValueTail, Cut, ValueChars, Stops, Looping, PlainRun;
    q, j, overran := p, i, false;
    ghost var s := data[i..];
    LoopBegins(p, s, limit);
    while j < |data| && !Stops(q, data[j])
      invariant i <= j <= |data| && Looping(p, s, j - i, q, limit, overran)
    {
      assert s[j - i] == data[j];
      if q.header.General? {
        ghost var t := j - i;
        ghost var r := PlainRun(s[t..], limit);
        LoopGeneral(p, s, t, q, limit, overran, r);
        var end := if |data| - j < limit then |data| else j + limit;
        PlainEnds(s, t, limit, t);
        while j < end && data[j] != CR && data[j] != LF && IsHeaderChar(data[j])
          invariant i + t <= j <= i + t + r <= end
        {
          PlainEnds(s, t, limit, j - i);
          j := j + 1;
        }
        PlainEnds(s, t, limit, j - i);
        if j == end && j < |data| {
          j, overran := j + 1, true;
        }
      } else {
        LoopSpecial(p, s, j - i, q, limit, overran);
        q := ValueChar(q, data[j]).p;
        j := j + 1;
      }
    }
    LoopEnds(p, s, j - i, q, limit, overran);
    assert s[j - i..] == data[j..] && data[i..j] == s[..j - i];
  }

  lemma PlainEnds(s: string, t: nat, limit: nat, j: nat)
    requires t <= j <= |s| && j - t <= PlainRun(s[t..], limit)
    ensures var r := PlainRun(s[t..], limit);
      && t + r <= |s| && r <= limit
      && (j - t < r ==> Plain(s[j])) && (j - t == r && r < limit && j < |s| ==> !Plain(s[j]))
  {
    hide Plain;
    if j < |s| {
      assert s[t..][j - t] == s[j];
    }
  }

  /** One more byte of a value that may be special. */
  lemma SpecialStep(p: Parser, s: string, t: nat, q: Parser, limit: nat)
    requires t < |s| && Valid(q) && q.state.HeaderValue? && !q.header.General? && !Stops(q, s[t])
    requires ValueChars(p, s[..t]) == Some(q) && NotYet(p, s, t)
    ensures var mv := ValueChar(q, s[t]);
      && mv.Move? && Valid(mv.p) && mv.p.state.HeaderValue? && mv.p.flags.trailing == q.flags.trailing
      && ValueTail(q, s[t..], limit) == ValueTail(mv.p, s[t + 1..], limit)
      && ValueChars(p, s[..t + 1]) == Some(mv.p) && NotYet(p, s, t + 1)
  {
    hide ValueChar, Valid, NotYet, ValueTail, IsHeaderChar;
    NotYetMore(p, s, t, q);
    TailStep(q, s[t..], limit);
    assert s[t..][1..] == s[t + 1..] && s[t..][0] == s[t];
    assert s[..t + 1][..t] == s[..t];
    ValueCharGoes(q, s[t]);
    ValueCharKeeps(q, s[t]);
    TrailingStays(q, s[t]);
  }

  lemma TrailingStays(q: Parser, ch: char)
    ensures ValueChar(q, ch).Move? ==> ValueChar(q, ch).p.flags.trailing == q.flags.trailing
  {
    hide CodingChar, ConnectionChar;
    CodingTrailing(q, ch);
    ConnectionTrailing(q, ch);
  }

  lemma CodingTrailing(q: Parser, ch: char)
    ensures CodingChar(q, ch).flags == q.flags
  {
    hide Lower, IsToken;
  }

  lemma ConnectionTrailing(q: Parser, ch: char)
    ensures ConnectionChar(q, ch).flags.trailing == q.flags.trailing
  {
    FinishTrailing(q.flags, q.header);
    hide Lower, IsToken, FinishHeader, MatchValue;
    MatchFlags(q, KEEP_ALIVE, Lower(ch), MatchingKeepAlive, ConnectionKeepAlive, ConnectionToken);
    MatchFlags(q, CLOSE, Lower(ch), MatchingClose, ConnectionClose, ConnectionToken);
    MatchFlags(q, UPGRADE, Lower(ch), MatchingConnUpgrade, ConnectionUpgrade, ConnectionToken);
  }

  lemma FinishTrailing(f: Flags, h: HeaderState)
    ensures FinishHeader(f, h).trailing == f.trailing
  {
    hide FinishHeader;
    FinishOnly(f, h);
  }

  lemma MatchFlags(p: Parser, name: string, c: char, going: HeaderState, done: HeaderState, other: HeaderState)
    ensures MatchValue(p, name, c, going, done, other).flags == p.flags
  {
  }

  lemma GeneralValue(q: Parser, ch: char)
    requires q.state.HeaderValue? && q.header.General? && ch != CR && ch != LF && IsHeaderChar(ch)
    ensures !Stops(q, ch) && ValueChar(q, ch).p == q
  {
  }

  // --------------------------------------------------------------------------------------------------------
  // Bodies

  /** The fields after `k` bytes of a body. */
  function BodySkip(p: Parser, k: nat): Parser {
    if p.state.BodyIdentityEof? || p.contentLength < k then p else p.(contentLength := p.contentLength - k)
  }

  function BodyStates(p: Parser, k: nat): seq<Parser> {
    seq(k + 1, t requires 0 <= t <= k => BodySkip(p, t))
  }

  /** A body is read in one go: all bytes but the last leave the parser where it is. */
  lemma BodyRun(ask: Answers, p: Parser, data: string, k: nat)
    requires p.state.BodyIdentityEof? || ((p.state.BodyIdentity? || p.state.ChunkData?) && k < p.contentLength)
    requires k <= |data|
    ensures Run(ask, BodyStates(p, k), Body, data) && BodyStates(p, k)[0] == p
  {
    hide StepsTo;
    var states := BodyStates(p, k);
    forall t | 0 <= t < k
      ensures StepsTo(ask, states[t], Body, data[t], states[t + 1])
    {
      BodyStep(ask, BodySkip(p, t), data[t]);
    }
  }

  lemma BodyStep(ask: Answers, p: Parser, ch: char)
    requires p.state.BodyIdentityEof? || ((p.state.BodyIdentity? || p.state.ChunkData?) && 1 < p.contentLength)
    ensures StepsTo(ask, p, Body, ch, BodySkip(p, 1))
  {
    hide Emit, ResponseLine, RequestMethod, RequestVersion, RequestUrl, HeaderName, EndOfHeaders, HeaderValueMove;
  }
}
