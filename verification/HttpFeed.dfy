/** What the parser means: it is fed one byte at a time, as if every byte were a buffer of its own. */
module HttpFeed {
  import opened HttpTypes
  import opened HttpTransition
  import opened HttpInvariant

  /** What `on_headers_complete` answers, given everything the application has been told so far. */
  type Answers = seq<Event> -> int

  /** A trace of callbacks with one more. A data callback is joined to one of its kind just before it, so that
      a trace does not show how the data was cut into pieces. */
  function Emit(out: seq<Event>, e: Event): seq<Event> {
    if e.Data? && out != [] && out[|out| - 1].Data? && out[|out| - 1].kind == e.kind
    then out[..|out| - 1] + [Data(e.kind, out[|out| - 1].bytes + e.bytes)]
    else out + [e]
  }

  lemma EmitLast(init: seq<Event>, d: DataKind, b: string, x: string)
    ensures Emit(init + [Data(d, b)], Data(d, x)) == init + [Data(d, b + x)]
  {
    var out := init + [Data(d, b)];
    assert out[|out| - 1] == Data(d, b) && out[..|out| - 1] == init;
  }

  lemma EmitJoins(out: seq<Event>, d: DataKind, x: string, y: string)
    ensures Emit(Emit(out, Data(d, x)), Data(d, y)) == Emit(out, Data(d, x + y))
  {
    if out != [] && out[|out| - 1].Data? && out[|out| - 1].kind == d {
      var init, b := out[..|out| - 1], out[|out| - 1].bytes;
      assert out == init + [Data(d, b)];
      hide Emit;
      EmitLast(init, d, b, x);
      EmitLast(init, d, b + x, y);
      EmitLast(init, d, b, x + y);
      assert b + x + y == b + (x + y);
    } else {
      EmitLast(out, d, x, y);
    }
  }

  datatype ByteResult =
    | Consumed(p: Parser, out: seq<Event>, reset: bool)
    | Left(p: Parser, out: seq<Event>)
    | Refused(errno: Errno)

  /** The trace after the callback of an arm, when the current byte `ch` is all there is in the buffer. */
  function Called(call: Callback, open: Option<DataKind>, out: seq<Event>, ch: char): seq<Event> {
    match call
    case NoCallback => out
    case Note(n) => Emit(out, Notify(n))
    case UpTo(d) => if open == Some(d) then Emit(out, Data(d, "")) else out
    case Through(d) => Emit(out, Data(d, [ch]))
  }

  /** The trace after a byte that ends with its mark still set. */
  function Flushed(open: Option<DataKind>, out: seq<Event>, ch: char): seq<Event> {
    if open.Some? then Emit(out, Data(open.value, [ch])) else out
  }

  /** One byte. */
  function Step(ask: Answers, p: Parser, out: seq<Event>, ch: char): ByteResult
    decreases Rank(p.state)
  {
    var mv := Transition(p, ch);
    if mv.Reject? then Refused(mv.errno) else
    var open := Open(p.state, mv.mark);
    var told := Called(mv.call, open, out, ch);
    var asked := mv.call == Callback.Note(HeadersComplete);
    if asked && !(0 <= ask(told) <= 2) then Refused(CbHeadersComplete) else
    TransitionShaped(p, ch);
    var q := if asked then Answered(mv.p, ask(told)) else mv.p;
    match mv.next
    case Again => Step(ask, q, told, ch)
    case Advance => Consumed(q, if mv.call.NoCallback? then Flushed(open, told, ch) else told, mv.reset)
    case Exit => Left(q, told)
  }

  /** An arm that goes back to the switch. */
  lemma StepAgain(ask: Answers, p: Parser, out: seq<Event>, ch: char, mv: Move)
    requires mv == Transition(p, ch) && mv.Move? && mv.next.Again? && mv.call != Callback.Note(HeadersComplete)
    ensures Step(ask, p, out, ch) == Step(ask, mv.p, Called(mv.call, Open(p.state, mv.mark), out, ch), ch)
  {
    hide Transition, Called;
  }

  datatype FeedResult =
    | Fed(p: Parser, out: seq<Event>)
    | Exited(p: Parser, out: seq<Event>, rest: string)
    | Failed(errno: Errno)

  /** A whole string. `Exited` is a message that hands over to another protocol, with the bytes behind it. */
  function Feed(ask: Answers, p: Parser, out: seq<Event>, data: string): FeedResult
    decreases |data|
  {
    if data == "" then Fed(p, out) else
    match Step(ask, p, out, data[0])
    case Consumed(q, told, _) => Feed(ask, q, told, data[1..])
    case Left(q, told) => Exited(q, told, data[1..])
    case Refused(e) => Failed(e)
  }

  /** A string behind another. */
  function Onward(ask: Answers, r: FeedResult, y: string): FeedResult {
    match r
    case Fed(q, told) => Feed(ask, q, told, y)
    case Exited(q, told, rest) => Exited(q, told, rest + y)
    case Failed(e) => Failed(e)
  }

  /** Feeding a string is feeding its two halves in turn. */
  lemma {:induction false} FeedSplits(ask: Answers, p: Parser, out: seq<Event>, x: string, y: string)
    ensures Feed(ask, p, out, x + y) == Onward(ask, Feed(ask, p, out, x), y)
    decreases |x|
  {
    hide Step;
    if x == "" {
      assert x + y == y;
    } else {
      assert (x + y)[0] == x[0] && (x + y)[1..] == x[1..] + y;
      match Step(ask, p, out, x[0])
      case Consumed(q, told, _) => FeedSplits(ask, q, told, x[1..], y);
      case Left(q, told) =>
      case Refused(e) =>
    }
  }

  /** The counter of header bytes after a whole string, or `None` if it passes the limit on the way. */
  function Tally(ask: Answers, p: Parser, out: seq<Event>, n: nat, limit: nat, data: string): Option<nat>
    decreases |data|, 1
  {
    if data == "" then Some(n)
    else if !ParsingHeader(p.state) then TallyRest(ask, p, out, n, limit, data)
    else if n + 1 > limit then None
    else TallyRest(ask, p, out, n + 1, limit, data)
  }

  /** The same, when the first byte is counted already. */
  function TallyRest(ask: Answers, p: Parser, out: seq<Event>, n: nat, limit: nat, data: string): Option<nat>
    requires data != ""
    decreases |data|, 0
  {
    match Step(ask, p, out, data[0])
    case Consumed(q, told, reset) => Tally(ask, q, told, if reset then 0 else n, limit, data[1..])
    case _ => Some(n)
  }

  function TallyOnward(ask: Answers, r: FeedResult, t: Option<nat>, limit: nat, y: string): Option<nat> {
    if r.Fed? && t.Some? then Tally(ask, r.p, r.out, t.value, limit, y) else t
  }

  lemma {:induction false} TallySplits(
      ask: Answers, p: Parser, out: seq<Event>, n: nat, limit: nat, x: string, y: string)
    ensures Tally(ask, p, out, n, limit, x + y) == TallyOnward(ask, Feed(ask, p, out, x), Tally(ask, p, out, n, limit, x), limit, y)
    decreases |x|
  {
    hide Step;
    if x == "" {
      assert x + y == y;
    } else {
      assert (x + y)[0] == x[0] && (x + y)[1..] == x[1..] + y;
      var m := if ParsingHeader(p.state) then n + 1 else n;
      match Step(ask, p, out, x[0])
      case Consumed(q, told, reset) => TallySplits(ask, q, told, if reset then 0 else m, limit, x[1..], y);
      case Left(q, told) =>
      case Refused(e) =>
    }
  }

  /** The invariant holds after every byte. */
  lemma {:induction false} StepKeeps(ask: Answers, p: Parser, out: seq<Event>, ch: char)
    requires Valid(p)
    ensures var r := Step(ask, p, out, ch);
            && (r.Consumed? ==> Valid(r.p) && (r.p.state.ChunkSizeStart? ==> r.reset))
            && (r.Left? ==> Valid(r.p))
    decreases Rank(p.state)
  {
    hide Transition, Valid, Answered;
    TransitionKeeps(p, ch);
    TransitionShaped(p, ch);
    var mv := Transition(p, ch);
    if mv.Move? {
      var told := Called(mv.call, Open(p.state, mv.mark), out, ch);
      var asked := mv.call == Callback.Note(HeadersComplete);
      if asked && 0 <= ask(told) <= 2 {
        AnsweredKeeps(mv.p, ask(told));
        StepKeeps(ask, Answered(mv.p, ask(told)), told, ch);
      } else if !asked && mv.next.Again? {
        StepKeeps(ask, mv.p, told, ch);
      }
    }
  }
}
