/** Callbacks that pause or fail: where a text is left when a callback does not let the parser go on. */
module HttpHalts {
  import opened HttpTypes
  import opened HttpTransition
  import opened HttpInvariant
  import opened HttpFeed

  /** What a callback does besides looking: nothing, pause the parser, or return an error. */
  datatype Reaction = Proceed | Pause | Fail

  /** The reaction of the n-th callback made during one call. */
  type Reactions = nat -> Reaction

  datatype Status = Fine | Paused | Broken(errno: Errno)

  function CallbackError(e: Event): Errno {
    match e
    case Data(Url, _) => CbUrl
    case Data(Status, _) => CbStatus
    case Data(Field, _) => CbHeaderField
    case Data(Value, _) => CbHeaderValue
    case Data(Body, _) => CbBody
    case Notify(MessageBegin) => CbMessageBegin
    case Notify(HeadersComplete) => CbHeadersComplete
    case Notify(MessageComplete) => CbMessageComplete
    case Notify(ChunkHeader) => CbChunkHeader
    case Notify(ChunkComplete) => CbChunkComplete
  }

  /** The byte counter, its copy in the parser, the number of callbacks made during the call, and whether there are body
      bytes of this call that the application has not been told of. */
  datatype Counters = Counters(n: nat, saved: nat, calls: nat, body: bool)

  /** What is left behind where a callback has stopped the parser; the current byte `stays` to be parsed, or not. */
  datatype Halt =
    | Halted(p: Parser, out: seq<Event>, nread: nat, status: Status, stays: bool)
    | Unhalted(k: Counters)

  /** Whether the callback of an arm is made; a data callback needs bytes to tell of. */
  predicate Rings(call: Callback, open: Option<DataKind>, body: bool) {
    match call
    case NoCallback => false
    case Note(_) => true
    case UpTo(d) => open == Some(d) || (body && d == Body)
    case Through(_) => true
  }

  /** The kind of event a callback is made for; its bytes do not matter here. */
  function EventKind(call: Callback): Event
    requires !call.NoCallback?
  {
    match call
    case Note(n) => Notify(n)
    case UpTo(d) => Data(d, "")
    case Through(d) => Data(d, "")
  }

  function StatusAfter(r: Reaction, e: Event): Status {
    match r case Proceed => Fine case Pause => Paused case Fail => Broken(CallbackError(e))
  }

  /** The counters behind an arm whose callback, if any, lets the parser go on. */
  function Advanced(k: Counters, mv: Move, rings: bool): Counters
    requires mv.Move?
  {
    Counters(if mv.reset then 0 else k.n, if mv.reset then 0 else k.saved, if rings then k.calls + 1 else k.calls,
             mv.call.NoCallback? && (k.body || mv.mark == Some(Body)))
  }

  /** One byte: the first of its callbacks that does not let the parser go on. The counter is written back after
      `on_headers_complete`, and when a callback fails. */
  function HaltIn(ask: Answers, react: Reactions, p: Parser, out: seq<Event>, k: Counters, ch: char): Halt
    decreases Rank(p.state)
  {
    var mv := Transition(p, ch);
    if mv.Reject? then Unhalted(k) else
    var open := Open(p.state, mv.mark);
    var told := Called(mv.call, open, out, ch);
    var asked := mv.call == Callback.Note(HeadersComplete);
    if asked && !(0 <= ask(told) <= 2) then Unhalted(k) else
    TransitionShaped(p, ch);
    var q := if asked then Answered(mv.p, ask(told)) else mv.p;
    var rings := Rings(mv.call, open, k.body);
    var k' := Advanced(k, mv, rings);
    if rings && !react(k.calls).Proceed? then
      Halted(if react(k.calls).Fail? then mv.p else q, told, if asked || react(k.calls).Fail? then k'.n else k'.saved, StatusAfter(react(k.calls), EventKind(mv.call)), mv.next.Again?)
    else if mv.next.Again? then HaltIn(ask, react, q, told, k', ch)
    else Unhalted(k')
  }

  /** The same for a text: `rest` is what is still to be parsed. */
  datatype TextHalt = HaltAt(h: Halt, rest: string) | NoHalt(k: Counters)

  function Counted(p: Parser, k: Counters): Counters {
    if ParsingHeader(p.state) then k.(n := k.n + 1) else k
  }

  function Halts(ask: Answers, react: Reactions, p: Parser, out: seq<Event>, k: Counters, data: string): TextHalt
    decreases |data|, 1
  {
    if data == "" then NoHalt(k) else HaltsRest(ask, react, p, out, Counted(p, k), data)
  }

  /** The same, when the first byte is counted already. */
  function HaltsRest(ask: Answers, react: Reactions, p: Parser, out: seq<Event>, k: Counters, data: string): TextHalt
    requires data != ""
    decreases |data|, 0
  {
    match HaltIn(ask, react, p, out, k, data[0])
    case Halted(q, told, nread, status, stays) =>
      HaltAt(Halted(q, told, nread, status, stays), if stays then data else data[1..])
    case Unhalted(k') =>
      match Step(ask, p, out, data[0])
      case Consumed(q, told, _) => Halts(ask, react, q, told, k', data[1..])
      case _ => NoHalt(k')
  }

  // --------------------------------------------------------------------------------------------------------
  // What a halt means

  /** A byte without a halt: the counter restarts as the byte says. */
  lemma {:induction false} UnhaltedMeans(ask: Answers, react: Reactions, p: Parser, out: seq<Event>, k: Counters, ch: char)
    ensures var h, r := HaltIn(ask, react, p, out, k, ch), Step(ask, p, out, ch);
      h.Unhalted? && r.Consumed? ==> h.k.n == (if r.reset then 0 else k.n) && h.k.saved == (if r.reset then 0 else k.saved)
    decreases Rank(p.state)
  {
    hide Transition, Emit, Called, Flushed, Answered, Rings;
    TransitionShaped(p, ch);
    var mv := Transition(p, ch);
    if mv.Move? && mv.next.Again? {
      var asked := mv.call == Callback.Note(HeadersComplete);
      var told := Called(mv.call, Open(p.state, mv.mark), out, ch);
      var q := if asked then Answered(mv.p, ask(told)) else mv.p;
      if !asked || 0 <= ask(told) <= 2 {
        AnsweredState(mv.p, ask(told));
        UnhaltedMeans(ask, react, q, told, Advanced(k, mv, Rings(mv.call, Open(p.state, mv.mark), k.body)), ch);
      }
    }
  }

  lemma AnsweredState(p: Parser, answer: int)
    ensures Answered(p, answer).state == p.state
  {
  }

  /** What stays behind a halt in a byte. */
  predicate HaltFits(ask: Answers, p: Parser, h: Halt, k: Counters, ch: char, r: ByteResult)
    requires h.Halted?
  {
    if h.stays then
      && Rank(h.p.state) < Rank(p.state) && Step(ask, h.p, h.out, ch) == r && !h.p.state.ChunkSizeStart?
      && (ParsingHeader(h.p.state) ==> ParsingHeader(p.state))
      && (h.nread == k.saved || (h.p.state.HeadersDone? && h.nread == k.n))
    else
      && (r.Left? || (r.Consumed? && h.nread == if r.reset then 0 else k.saved)) && r.p == h.p && r.out == h.out
      && h.nread <= k.saved && (h.p.state.ChunkSizeStart? ==> h.nread == 0)
  }

  /** Where a callback has paused the parser in a byte, the byte goes on as if it had not. */
  lemma {:induction false} HaltMeans(ask: Answers, react: Reactions, p: Parser, out: seq<Event>, k: Counters, ch: char)
    requires Valid(p)
    ensures var h := HaltIn(ask, react, p, out, k, ch);
      h.Halted? && h.status.Paused? ==> Valid(h.p) && HaltFits(ask, p, h, k, ch, Step(ask, p, out, ch))
    decreases Rank(p.state)
  {
    hide Transition, Emit, Called, Flushed, Answered, Valid;
    TransitionShaped(p, ch);
    TransitionKeeps(p, ch);
    var mv := Transition(p, ch);
    if mv.Move? {
      AgainCounts(p, ch);
      var asked := mv.call == Callback.Note(HeadersComplete);
      var told := Called(mv.call, Open(p.state, mv.mark), out, ch);
      var q := if asked then Answered(mv.p, ask(told)) else mv.p;
      if !asked || 0 <= ask(told) <= 2 {
        AnsweredState(mv.p, ask(told));
        if asked {
          AnsweredKeeps(mv.p, ask(told));
        }
        if mv.next.Again? {
          HaltMeans(ask, react, q, told, Advanced(k, mv, Rings(mv.call, Open(p.state, mv.mark), k.body)), ch);
        }
      }
    }
  }

  /** An arm that goes back to the switch does not go from a body state to a state that counts. */
  lemma AgainCounts(p: Parser, ch: char)
    ensures var mv := Transition(p, ch); mv.Move? && mv.next.Again? && ParsingHeader(mv.p.state) ==> ParsingHeader(p.state)
  {
    hide ResponseLine, RequestMethod, RequestVersion, RequestUrl, HeaderName, HeaderValueMove, EndOfHeaders;
    if EndState(p.state) {
      MessageDoneEnds(p, ch);
    }
  }

  lemma MessageDoneEnds(p: Parser, ch: char)
    ensures p.state.MessageDone? ==> !EndOfHeaders(p, ch).next.Again?
  {
  }

  /** Where a callback has paused the parser in a text, the rest of the text goes on as if it had not. */
  lemma {:induction false} HaltsMean(ask: Answers, react: Reactions, p: Parser, out: seq<Event>, k: Counters, data: string)
    requires Valid(p)
    ensures var h := Halts(ask, react, p, out, k, data);
      h.HaltAt? && h.h.Halted? && h.h.status.Paused? ==>
        && Valid(h.h.p) && |h.rest| <= |data| && h.rest == data[|data| - |h.rest|..]
        && (|h.rest| == |data| ==> Rank(h.h.p.state) < Rank(p.state))
        && (Feed(ask, p, out, data) == Feed(ask, h.h.p, h.h.out, h.rest) || Feed(ask, p, out, data) == Exited(h.h.p, h.h.out, h.rest))
    decreases |data|
  {
    hide Step, HaltIn, Valid;
    if data != "" {
      HaltMeans(ask, react, p, out, Counted(p, k), data[0]);
      StepKeeps(ask, p, out, data[0]);
      match HaltIn(ask, react, p, out, Counted(p, k), data[0])
      case Halted(_, _, _, _, _) =>
      case Unhalted(k') =>
        match Step(ask, p, out, data[0])
        case Consumed(q, told, _) => HaltsMean(ask, react, q, told, k', data[1..]);
        case Left(q, told) =>
        case Refused(e) =>
    }
  }

  lemma {:induction false} QuietByte(ask: Answers, react: Reactions, p: Parser, out: seq<Event>, k: Counters, ch: char)
    requires forall j: nat :: react(j).Proceed?
    ensures HaltIn(ask, react, p, out, k, ch).Unhalted?
    decreases Rank(p.state)
  {
    hide Transition, Emit, Called, Rings;
    TransitionShaped(p, ch);
    var mv := Transition(p, ch);
    if mv.Move? && mv.next.Again? {
      var asked := mv.call == Callback.Note(HeadersComplete);
      var told := Called(mv.call, Open(p.state, mv.mark), out, ch);
      var q := if asked then Answered(mv.p, ask(told)) else mv.p;
      AnsweredState(mv.p, ask(told));
      QuietByte(ask, react, q, told, Advanced(k, mv, Rings(mv.call, Open(p.state, mv.mark), k.body)), ch);
    }
  }

  lemma {:induction false} QuietText(ask: Answers, react: Reactions, p: Parser, out: seq<Event>, k: Counters, data: string)
    requires forall j: nat :: react(j).Proceed?
    ensures Halts(ask, react, p, out, k, data).NoHalt?
    decreases |data|
  {
    hide Step, HaltIn;
    if data != "" {
      QuietByte(ask, react, p, out, Counted(p, k), data[0]);
      match Step(ask, p, out, data[0])
      case Consumed(q, told, _) => QuietText(ask, react, q, told, HaltIn(ask, react, p, out, Counted(p, k), data[0]).k, data[1..]);
      case Left(q, told) =>
      case Refused(e) =>
    }
  }
}
