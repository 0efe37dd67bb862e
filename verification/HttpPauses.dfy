/** Pausing the parser anywhere changes nothing, as long as the headers keep clear of the limit. */
module HttpPauses {
  import opened HttpTypes
  import opened HttpTransition
  import opened HttpInvariant
  import opened HttpFeed
  import opened HttpHalts
  import opened HttpOverrun
  import opened HttpVerdict
  import opened HttpParser
  import Cuts = HttpCuts

  // --------------------------------------------------------------------------------------------------------
  // Room for pauses

  /** Whether the byte ends the headers of a message, so that `on_headers_complete` is called and answers. */
  predicate Asks(ask: Answers, p: Parser, out: seq<Event>, ch: char)
    decreases Rank(p.state)
  {
    var mv := Transition(p, ch);
    TransitionShaped(p, ch);
    mv.Move? &&
    var told := Called(mv.call, Open(p.state, mv.mark), out, ch);
    if mv.call == Callback.Note(HeadersComplete) then 0 <= ask(told) <= 2 else mv.next.Again? && Asks(ask, mv.p, told, ch)
  }

  /** The header bytes stay within the limit, and where headers end there is one byte to spare: a pause there writes the
      counter back, and the byte is counted again when the parser goes on. */
  predicate Roomy(ask: Answers, p: Parser, out: seq<Event>, n: nat, limit: nat, data: string)
    decreases |data|
  {
    data != "" ==>
      var n' := if ParsingHeader(p.state) then n + 1 else n;
      && (ParsingHeader(p.state) ==> n' <= limit)
      && (Asks(ask, p, out, data[0]) ==> n' < limit)
      && match Step(ask, p, out, data[0])
         case Consumed(q, told, reset) => Roomy(ask, q, told, if reset then 0 else n', limit, data[1..])
         case _ => true
  }

  lemma {:induction false} RoomyCounts(ask: Answers, p: Parser, out: seq<Event>, n: nat, limit: nat, data: string)
    requires Roomy(ask, p, out, n, limit, data)
    ensures Tally(ask, p, out, n, limit, data).Some?
    decreases |data|
  {
    hide Step, Asks;
    if data != "" {
      match Step(ask, p, out, data[0])
      case Consumed(q, told, reset) =>
        var n' := if ParsingHeader(p.state) then n + 1 else n;
        RoomyCounts(ask, q, told, if reset then 0 else n', limit, data[1..]);
      case _ =>
    }
  }

  lemma {:induction false} RoomyLess(ask: Answers, p: Parser, out: seq<Event>, n: nat, m: nat, limit: nat, data: string)
    requires Roomy(ask, p, out, n, limit, data) && m <= n
    ensures Roomy(ask, p, out, m, limit, data)
    decreases |data|
  {
    hide Step, Asks;
    if data != "" {
      match Step(ask, p, out, data[0])
      case Consumed(q, told, reset) =>
        if !reset {
          RoomyLess(ask, q, told, if ParsingHeader(p.state) then n + 1 else n, if ParsingHeader(p.state) then m + 1 else m, limit, data[1..]);
        }
      case _ =>
    }
  }

  /** Behind the end of the headers the counter restarts, and nothing is asked again. */
  lemma HeadersDoneResets(ask: Answers, p: Parser, out: seq<Event>, ch: char)
    requires p.state.HeadersDone?
    ensures !Asks(ask, p, out, ch)
    ensures var r := Step(ask, p, out, ch); r.Consumed? ==> r.reset
  {
    hide Emit, NeedsEof, ShouldKeepAlive, HasBody, ResponseLine, RequestMethod, RequestVersion, RequestUrl, HeaderName, HeaderValueMove, BodyMove;
  }

  /** A pause that leaves the byte to be parsed again asks nothing again, and the counter it leaves is the one at the
      beginning of the call, but after `on_headers_complete`. */
  lemma {:induction false} PauseAsks(ask: Answers, react: Reactions, p: Parser, out: seq<Event>, k: Counters, ch: char)
    ensures var h := HaltIn(ask, react, p, out, k, ch);
      h.Halted? && h.status.Paused? && h.stays ==>
        && (Asks(ask, h.p, h.out, ch) ==> Asks(ask, p, out, ch))
        && (h.nread == k.saved || (h.nread == k.n && h.p.state.HeadersDone? && Asks(ask, p, out, ch)))
    decreases Rank(p.state)
  {
    hide Transition, Emit, Called, Answered, Rings;
    TransitionShaped(p, ch);
    var mv := Transition(p, ch);
    if mv.Move? && mv.next.Again? {
      var asked := mv.call == Callback.Note(HeadersComplete);
      var told := Called(mv.call, Open(p.state, mv.mark), out, ch);
      var q := if asked then Answered(mv.p, ask(told)) else mv.p;
      AnsweredState(mv.p, ask(told));
      PauseAsks(ask, react, q, told, Advanced(k, mv, Rings(mv.call, Open(p.state, mv.mark), k.body)), ch);
      if asked {
        HeadersDoneResets(ask, q, told, ch);
      }
    }
  }

  /** A pause leaves room for what is left. */
  lemma {:induction false} PauseRoomy(
      ask: Answers, react: Reactions, p: Parser, out: seq<Event>, k: Counters, limit: nat, data: string)
    requires Valid(p) && k.saved <= k.n && Roomy(ask, p, out, k.n, limit, data) && !Feed(ask, p, out, data).Exited?
    ensures var h := Halts(ask, react, p, out, k, data);
      h.HaltAt? && h.h.Halted? && h.h.status.Paused? ==> Roomy(ask, h.h.p, h.h.out, h.h.nread, limit, h.rest)
    decreases |data|
  {
    hide Step, HaltIn, Asks, Valid;
    if data != "" {
      var k1 := Counted(p, k);
      HaltMeans(ask, react, p, out, k1, data[0]);
      UnhaltedMeans(ask, react, p, out, k1, data[0]);
      StepKeeps(ask, p, out, data[0]);
      match HaltIn(ask, react, p, out, k1, data[0])
      case Halted(q, told, nread, status, stays) =>
        if status.Paused? {
          PauseAsks(ask, react, p, out, k1, data[0]);
          HaltRoomy(ask, react, p, out, k, limit, data, HaltIn(ask, react, p, out, k1, data[0]));
        }
      case Unhalted(k') =>
        match Step(ask, p, out, data[0])
        case Consumed(q, told, _) => PauseRoomy(ask, react, q, told, k', limit, data[1..]);
        case Left(q, told) =>
        case Refused(e) =>
    }
  }

  lemma HaltRoomy(
      ask: Answers, react: Reactions, p: Parser, out: seq<Event>, k: Counters, limit: nat, data: string, h: Halt)
    requires data != "" && k.saved <= k.n && Roomy(ask, p, out, k.n, limit, data) && h.Halted? && h.status.Paused?
    requires HaltFits(ask, p, h, Counted(p, k), data[0], Step(ask, p, out, data[0])) && !Step(ask, p, out, data[0]).Left?
    requires h.stays ==>
        && (Asks(ask, h.p, h.out, data[0]) ==> Asks(ask, p, out, data[0]))
        && (h.nread == k.saved || (h.nread == Counted(p, k).n && h.p.state.HeadersDone? && Asks(ask, p, out, data[0])))
    ensures Roomy(ask, h.p, h.out, h.nread, limit, if h.stays then data else data[1..])
  {
    hide Step, HaltIn, Asks;
    var n' := Counted(p, k).n;
    match Step(ask, p, out, data[0])
    case Consumed(q, told, reset) =>
      var m := if reset then 0 else n';
      if !h.stays {
        RoomyLess(ask, q, told, m, h.nread, limit, data[1..]);
      } else {
        if h.p.state.HeadersDone? {
          HeadersDoneResets(ask, h.p, h.out, data[0]);
        }
        if !reset {
          RoomyLess(ask, q, told, m, if ParsingHeader(h.p.state) then h.nread + 1 else h.nread, limit, data[1..]);
        }
      }
    case Refused(e) =>
      if h.p.state.HeadersDone? {
        HeadersDoneResets(ask, h.p, h.out, data[0]);
      }
  }

  /** One call, when no callback fails: it does what the text means, or pauses on the way with room for the rest. */
  lemma CallRoomy(
      ask: Answers, react: Reactions, limit: nat, before: View, after: View, data: string, n: nat, overran: bool)
    requires Call(ask, react, limit, before, after, data, n, overran) && Ready(before, limit) && data != ""
    requires Roomy(ask, before.p, before.out, before.nread, limit, data) && !Feed(ask, before.p, before.out, data).Exited?
    requires forall j: nat :: !react(j).Fail?
    ensures !overran
    ensures var whole := Feed(ask, before.p, before.out, data);
      if after.errno.Fine? then whole == Fed(after.p, after.out) && n == |data|
      else if after.errno.Paused? then
        && Feed(ask, after.p, after.out, data[n..]) == whole && Roomy(ask, after.p, after.out, after.nread, limit, data[n..])
        && (n == 0 ==> Rank(after.p.state) < Rank(before.p.state))
      else whole == Failed(after.errno.errno)
  {
    hide Feed, Tally, Halts, Decide, FirstCut, Roomy, Valid;
    var k := Starting(before);
    RoomyCounts(ask, before.p, before.out, before.nread, limit, data);
    HaltsMean(ask, react, before.p, before.out, k, data);
    PauseRoomy(ask, react, before.p, before.out, k, limit, data);
    HaltsPause(ask, react, before.p, before.out, k, data);
    if n == |data| {
      NothingLeft(ask, after.p, after.out, after.nread, limit, data[n..]);
    }
  }

  lemma NothingLeft(ask: Answers, p: Parser, out: seq<Event>, n: nat, limit: nat, data: string)
    requires data == ""
    ensures Feed(ask, p, out, data) == Fed(p, out) && Roomy(ask, p, out, n, limit, data)
  {
  }

  /** Without a failing callback, all halts are pauses. */
  lemma {:induction false} HaltPauses(ask: Answers, react: Reactions, p: Parser, out: seq<Event>, k: Counters, ch: char)
    requires forall j: nat :: !react(j).Fail?
    ensures var h := HaltIn(ask, react, p, out, k, ch); h.Halted? ==> h.status.Paused?
    decreases Rank(p.state)
  {
    hide Transition, Emit, Called, Rings;
    TransitionShaped(p, ch);
    var mv := Transition(p, ch);
    if mv.Move? && mv.next.Again? {
      var asked := mv.call == Callback.Note(HeadersComplete);
      var told := Called(mv.call, Open(p.state, mv.mark), out, ch);
      var q := if asked then Answered(mv.p, ask(told)) else mv.p;
      AnsweredState(mv.p, ask(told));
      HaltPauses(ask, react, q, told, Advanced(k, mv, Rings(mv.call, Open(p.state, mv.mark), k.body)), ch);
    }
  }

  lemma {:induction false} HaltsPause(ask: Answers, react: Reactions, p: Parser, out: seq<Event>, k: Counters, data: string)
    requires forall j: nat :: !react(j).Fail?
    ensures var h := Halts(ask, react, p, out, k, data); h.HaltAt? ==> h.h.Halted? && h.h.status.Paused?
    decreases |data|
  {
    hide Step, HaltIn;
    if data != "" {
      HaltPauses(ask, react, p, out, Counted(p, k), data[0]);
      match HaltIn(ask, react, p, out, Counted(p, k), data[0])
      case Halted(_, _, _, _, _) =>
      case Unhalted(k') =>
        match Step(ask, p, out, data[0])
        case Consumed(q, told, _) => HaltsPause(ask, react, q, told, k', data[1..]);
        case Left(q, told) =>
        case Refused(e) =>
    }
  }

  /** Feeding a whole input although callbacks may pause the parser: it is unpaused and given the bytes that it
      has not parsed. `schedule(k)` is how the callbacks of the k-th call react. */
  method Drive(parser: HttpParser, ask: Answers, schedule: nat -> Reactions, data: string)
    returns (pos: nat, ghost overran: bool)
    requires parser.errno.Fine? && Ready(parser.Look(), parser.limit) && |data| + parser.limit < 0x1_0000_0000
    requires !Feed(ask, parser.core, parser.trace, data).Exited?
    modifies parser`core, parser`nread, parser`errno, parser`trace
    ensures old(Roomy(ask, parser.core, parser.trace, parser.nread, parser.limit, data)) && (forall j: nat, k: nat :: !schedule(j)(k).Fail?) ==>
              !overran && match old(Feed(ask, parser.core, parser.trace, data))
                          case Fed(p, out) => parser.errno.Fine? && pos == |data| && parser.core == p && parser.trace == out
                          case Exited(_, _, _) => false
                          case Failed(e) => parser.errno == Broken(e)
    ensures !overran && parser.errno.Fine? ==>
              pos == |data| && Feed(ask, old(parser.core), old(parser.trace), data) == Fed(parser.core, parser.trace)
    ensures !parser.errno.Paused? && (overran ==> |data| > parser.limit)
    ensures old(InGrammar(parser.Look())) ==> InGrammar(parser.Look())
  {
    hide Tally, Valid, Step, Feed, Halts, Decide, FirstCut, Roomy, InGrammar;
    ghost var whole := Feed(ask, parser.core, parser.trace, data);
    ghost var roomy := Roomy(ask, parser.core, parser.trace, parser.nread, parser.limit, data) && (forall j: nat, k: nat :: !schedule(j)(k).Fail?);
    pos, overran := 0, false;
    var k := 0;
    assert data[0..] == data;
    while pos < |data| && parser.errno.Fine?
      invariant pos <= |data| && !parser.errno.Paused?
      invariant parser.errno.Fine? ==> Ready(parser.Look(), parser.limit)
      invariant overran ==> |data| > parser.limit
      invariant !overran && parser.errno.Fine? ==> Feed(ask, parser.core, parser.trace, data[pos..]) == whole
      invariant roomy ==> !overran
      invariant roomy && parser.errno.Fine? ==> Roomy(ask, parser.core, parser.trace, parser.nread, parser.limit, data[pos..])
      invariant roomy && parser.errno.Broken? ==> whole == FeedResult.Failed(parser.errno.errno)
      invariant old(InGrammar(parser.Look())) ==> InGrammar(parser.Look())
      decreases |data| - pos, if parser.errno.Fine? then Rank(parser.core.state) + 1 else 0
    {
      ghost var before := parser.Look();
      var n, long := parser.Execute(ask, schedule(k), data[pos..]);
      CallGoesOn(ask, schedule(k), parser.limit, before, parser.Look(), data[pos..], n, long);
      if roomy {
        CallRoomy(ask, schedule(k), parser.limit, before, parser.Look(), data[pos..], n, long);
      }
      overran := overran || long;
      assert data[pos..][n..] == data[pos + n..];
      pos, k := pos + n, k + 1;
      if parser.errno.Paused? {
        parser.SetPaused(false);
      }
      if pos == |data| {
        NothingLeft(ask, parser.core, parser.trace, parser.nread, parser.limit, data[pos..]);
      }
    }
    if pos == |data| {
      NothingLeft(ask, parser.core, parser.trace, parser.nread, parser.limit, data[pos..]);
    }
  }

  /** One call, whatever callbacks do: it comes forward, and unless a value is cut off what is left means what it did. */
  lemma CallGoesOn(
      ask: Answers, react: Reactions, limit: nat, before: View, after: View, data: string, n: nat, overran: bool)
    requires Call(ask, react, limit, before, after, data, n, overran) && Ready(before, limit) && data != ""
    ensures n <= |data| && (overran ==> |data| > limit)
    ensures !after.errno.Broken? ==> Ready(after, limit) && (n == 0 ==> Rank(after.p.state) < Rank(before.p.state))
    ensures !overran && !after.errno.Broken? && !Feed(ask, before.p, before.out, data).Exited? ==>
      Feed(ask, after.p, after.out, data[n..]) == Feed(ask, before.p, before.out, data)
  {
    hide Feed, Tally, Halts, Decide, FirstCut, Valid, Overrun, Unfinished, StatusAfter, LastKind, Ends;
    if !overran && !after.errno.Broken? {
      EndsGoOn(ask, react, MeaningOf(ask, react, limit, before, data), before, after, data, n);
    }
  }

  lemma EndsGoOn(ask: Answers, react: Reactions, m: Meaning, before: View, after: View, data: string, n: nat)
    requires n <= |data| && Ends(react, m, after, data, n) && Valid(before.p) && data != "" && !after.errno.Broken?
    requires m.whole == Feed(ask, before.p, before.out, data) && m.halts == Halts(ask, react, before.p, before.out, Starting(before), data)
    ensures n == 0 ==> Rank(after.p.state) < Rank(before.p.state)
    ensures !m.whole.Exited? ==> Feed(ask, after.p, after.out, data[n..]) == m.whole
  {
    hide Feed, Halts, Decide, Valid, Unfinished, StatusAfter, LastKind;
    HaltsMean(ask, react, before.p, before.out, Starting(before), data);
    if n == |data| {
      NothingLeft(ask, after.p, after.out, after.nread, 0, data[n..]);
    }
  }

  // --------------------------------------------------------------------------------------------------------
  // Without the room

  /** The callback with this number pauses the parser, and no other does anything. */
  function PauseAt(m: nat): Reactions { (k: nat) => if k == m then Pause else Proceed }

  /** A callback that comes later leaves the byte as it is. */
  lemma {:induction false} PauseLater(ask: Answers, m: nat, p: Parser, out: seq<Event>, k: Counters, ch: char)
    requires var h := HaltIn(ask, Cuts.QUIET, p, out, k, ch); h.Unhalted? && h.k.calls <= m
    ensures HaltIn(ask, PauseAt(m), p, out, k, ch) == HaltIn(ask, Cuts.QUIET, p, out, k, ch)
    ensures k.calls <= HaltIn(ask, Cuts.QUIET, p, out, k, ch).k.calls
    decreases Rank(p.state)
  {
    hide Transition, Emit, Called, Rings;
    TransitionShaped(p, ch);
    var mv := Transition(p, ch);
    if mv.Move? && mv.next.Again? {
      var asked := mv.call == Callback.Note(HeadersComplete);
      var told := Called(mv.call, Open(p.state, mv.mark), out, ch);
      var q := if asked then Answered(mv.p, ask(told)) else mv.p;
      AnsweredState(mv.p, ask(told));
      if !asked || 0 <= ask(told) <= 2 {
        PauseLater(ask, m, q, told, Advanced(k, mv, Rings(mv.call, Open(p.state, mv.mark), k.body)), ch);
      }
    }
  }

  /** The parser may be paused where the headers end, and the counter with the last byte in it is written back. */
  lemma {:induction false} PauseInByte(ask: Answers, p: Parser, out: seq<Event>, k: Counters, ch: char) returns (m: nat)
    requires Asks(ask, p, out, ch)
    ensures k.calls <= m
    ensures var h := HaltIn(ask, PauseAt(m), p, out, k, ch);
      h.Halted? && h.p.state.HeadersDone? && h.nread == k.n && h.status.Paused? && h.stays
    decreases Rank(p.state)
  {
    hide Transition, Emit, Called, Rings;
    TransitionShaped(p, ch);
    var mv := Transition(p, ch);
    var told := Called(mv.call, Open(p.state, mv.mark), out, ch);
    if mv.call == Callback.Note(HeadersComplete) {
      m := k.calls;
      NoteRings(mv.call, Open(p.state, mv.mark), k.body);
      AnsweredState(mv.p, ask(told));
    } else {
      m := PauseInByte(ask, mv.p, told, Advanced(k, mv, Rings(mv.call, Open(p.state, mv.mark), k.body)), ch);
    }
  }

  lemma NoteRings(call: Callback, open: Option<DataKind>, body: bool)
    ensures call.Note? ==> Rings(call, open, body)
  {
  }

  /** With headers that end at the limit, there is a callback whose pause leaves no room for what is left. */
  lemma {:induction false} PauseInText(ask: Answers, p: Parser, out: seq<Event>, k: Counters, limit: nat, data: string) returns (m: nat)
    requires Tally(ask, p, out, k.n, limit, data).Some? && !Roomy(ask, p, out, k.n, limit, data)
    ensures k.calls <= m
    ensures var h := Halts(ask, PauseAt(m), p, out, k, data);
      h.HaltAt? && h.h.Halted? && h.h.status.Paused? && h.rest != "" && Tally(ask, h.h.p, h.h.out, h.h.nread, limit, h.rest).None?
    decreases |data|
  {
    hide Step, HaltIn, Asks, PauseAt;
    var k1 := Counted(p, k);
    if Asks(ask, p, out, data[0]) && k1.n >= limit {
      m := PauseInByte(ask, p, out, k1, data[0]);
    } else {
      var h := HaltIn(ask, Cuts.QUIET, p, out, k1, data[0]);
      QuietByte(ask, Cuts.QUIET, p, out, k1, data[0]);
      UnhaltedMeans(ask, Cuts.QUIET, p, out, k1, data[0]);
      var r := Step(ask, p, out, data[0]);
      m := k.calls;
      if r.Consumed? {
        m := PauseInText(ask, r.p, r.out, h.k, limit, data[1..]);
        PauseLater(ask, h.k.calls, p, out, k1, data[0]);
        PauseLater(ask, m, p, out, k1, data[0]);
      }
    }
  }

  /** If the headers stay within the limit but do not keep clear of it, there are callbacks, none of them failing, with
      which the call pauses and fails when it goes on. */
  lemma PauseOnce(ask: Answers, limit: nat, before: View, data: string) returns (react: Reactions)
    requires Ready(before, limit) && !Roomy(ask, before.p, before.out, before.nread, limit, data)
    requires Tally(ask, before.p, before.out, before.nread, limit, data).Some?
    ensures forall j: nat :: !react(j).Fail?
    ensures forall after, n: nat, overran | Call(ask, react, limit, before, after, data, n, overran) ::
              after.errno.Paused? && n < |data| && BreaksQuietly(ask, limit, after, data[n..])
  {
    hide Feed, Tally, Halts, Decide, FirstCut, Roomy, Ready;
    var m := PauseInText(ask, before.p, before.out, Starting(before), limit, data);
    react := PauseAt(m);
    forall after, n: nat, overran | Call(ask, react, limit, before, after, data, n, overran)
      ensures after.errno.Paused? && n < |data| && BreaksQuietly(ask, limit, after, data[n..])
    {
      PausedThere(ask, m, limit, before, after, data, n, overran);
      NothingCounted(ask, limit, after, data[n..]);
    }
  }

  /** Pausing is harmless only if there is room: otherwise there are callbacks, none of them failing, with which the call
      fails at once, or pauses and fails when it goes on. */
  lemma PauseBreaks(ask: Answers, limit: nat, before: View, data: string) returns (react: Reactions)
    requires Ready(before, limit) && !Roomy(ask, before.p, before.out, before.nread, limit, data)
    ensures forall j: nat :: !react(j).Fail?
    ensures forall after, n: nat, overran | Call(ask, react, limit, before, after, data, n, overran) ::
              after.errno.Broken? || (after.errno.Paused? && n < |data| && BreaksQuietly(ask, limit, after, data[n..]))
  {
    hide Feed, Tally, Halts, Decide, FirstCut, Roomy, Ready;
    if Tally(ask, before.p, before.out, before.nread, limit, data).None? {
      react := Cuts.QUIET;
      forall after, n: nat, overran | Call(ask, react, limit, before, after, data, n, overran) ensures after.errno.Broken? {
        Cuts.QuietCall(ask, limit, before, after, data, n, overran);
      }
    } else {
      react := PauseOnce(ask, limit, before, data);
    }
  }

  lemma PausedThere(ask: Answers, m: nat, limit: nat, before: View, after: View, data: string, n: nat, overran: bool)
    requires Call(ask, PauseAt(m), limit, before, after, data, n, overran)
    requires Tally(ask, before.p, before.out, before.nread, limit, data).Some?
    requires var h := Halts(ask, PauseAt(m), before.p, before.out, Starting(before), data);
      h.HaltAt? && h.h.Halted? && h.h.status.Paused? && h.rest != "" && Tally(ask, h.h.p, h.h.out, h.h.nread, limit, h.rest).None?
    ensures after.errno.Paused? && n < |data| && Tally(ask, after.p, after.out, after.nread, limit, data[n..]).None?
  {
    hide Feed, Tally, Halts, Decide, FirstCut, Ready, Overrun, PauseAt;
  }

  /** Going on without pauses ends in an error. */
  ghost predicate BreaksQuietly(ask: Answers, limit: nat, paused: View, rest: string) {
    forall after, n: nat, overran | Call(ask, Cuts.QUIET, limit, paused.(errno := Fine), after, rest, n, overran) :: after.errno.Broken?
  }

  lemma NothingCounted(ask: Answers, limit: nat, paused: View, rest: string)
    requires Tally(ask, paused.p, paused.out, paused.nread, limit, rest).None?
    ensures BreaksQuietly(ask, limit, paused, rest)
  {
    hide Feed, Tally, Halts, Decide, FirstCut, Ready;
    forall after, n: nat, overran | Call(ask, Cuts.QUIET, limit, paused.(errno := Fine), after, rest, n, overran) ensures after.errno.Broken? {
      Cuts.QuietCall(ask, limit, paused.(errno := Fine), after, rest, n, overran);
      MeaningParts(ask, Cuts.QUIET, limit, paused.(errno := Fine), rest);
    }
  }

  lemma MeaningParts(ask: Answers, react: Reactions, limit: nat, v: View, data: string)
    ensures MeaningOf(ask, react, limit, v, data).count == Tally(ask, v.p, v.out, v.nread, limit, data)
  {
    hide Feed, Tally, Halts, Decide, FirstCut;
  }
}
