/** One pass through the state switch of `http_parser_execute`, with its marks and callbacks in a buffer. */
module HttpArm {
  import opened HttpTypes
  import opened HttpChars
  import opened HttpTransition
  import opened HttpInvariant
  import opened HttpFeed
  import opened HttpHalts

  /** The local variables of the function: the parser's fields, the five marks, the trace so far, the position,
      the byte counter with its copy in the parser, and how many callbacks were made. */
  datatype Cursor = Cursor(
    p: Parser, marks: map<DataKind, nat>, out: seq<Event>, i: nat, nread: nat, saved: nat, calls: nat)

  function Mark(marks: map<DataKind, nat>, d: DataKind, i: nat): map<DataKind, nat> {
    if d in marks then marks else marks[d := i]
  }

  /** The marks point into the buffer, at most one of them is set, and it is the one the state asks for.
      A mark on body bytes is behind the position. */
  predicate MarksFit(s: State, marks: map<DataKind, nat>, i: nat) {
    && (forall d | d in marks :: marks[d] <= i)
    && (forall d, e | d in marks && e in marks :: d == e)
    && (Seed(s).Some? ==> Seed(s).value in marks)
    && (forall d | d in marks :: if d == Body then BodyHeld(s) && marks[d] < i else Seed(s) == Some(d))
  }

  predicate Good(c: Cursor, data: string) {
    Valid(c.p) && c.i <= |data| && MarksFit(c.p.state, c.marks, c.i)
  }

  /** The trace, with the marked bytes of kind `d` added. */
  function Pending(out: seq<Event>, marks: map<DataKind, nat>, d: DataKind, data: string, i: nat): seq<Event>
    requires i <= |data|
  {
    if d in marks && marks[d] < i then Emit(out, Data(d, data[marks[d]..i])) else out
  }

  /** The trace, with all marked bytes added: what the last lines of the function make of it. */
  function Visible(c: Cursor, data: string): seq<Event>
    requires c.i <= |data|
  {
    var o1 := Pending(c.out, c.marks, Field, data, c.i);
    var o2 := Pending(o1, c.marks, Value, data, c.i);
    var o3 := Pending(o2, c.marks, Url, data, c.i);
    var o4 := Pending(o3, c.marks, Body, data, c.i);
    Pending(o4, c.marks, Status, data, c.i)
  }

  lemma VisibleOne(c: Cursor, data: string, d: DataKind)
    requires c.i <= |data| && forall e | e in c.marks :: e == d
    ensures Visible(c, data) == Pending(c.out, c.marks, d, data, c.i)
  {
    hide Emit;
  }

  /** What the byte at the cursor still does, seen from the cursor. */
  function Rest(ask: Answers, c: Cursor, data: string): ByteResult
    requires c.i < |data|
  {
    Step(ask, c.p, Visible(c, data), data[c.i])
  }

  datatype ArmResult = Same(c: Cursor) | Following(c: Cursor) | Return(c: Cursor, status: Status, n: nat)

  /** The bytes or the notice a callback is called with, if it is called at all. */
  function EventOf(call: Callback, marks: map<DataKind, nat>, data: string, i: nat): Option<Event>
    requires i < |data| && forall d | d in marks :: marks[d] <= i
  {
    match call
    case NoCallback => None
    case Note(n) => Some(Notify(n))
    case UpTo(d) => if d in marks then Some(Data(d, data[marks[d]..i])) else None
    case Through(d) => if d in marks then Some(Data(d, data[marks[d]..i + 1])) else None
  }

  function Moved(c: Cursor, next: Next): ArmResult {
    match next
    case Again => Same(c)
    case Advance => Following(c.(i := c.i + 1))
    case Exit => Return(c, Fine, c.i + 1)
  }

  /** The cursor after the fields, the mark and the counter of an arm are set. */
  function Assigned(c: Cursor, mv: Move): Cursor
    requires mv.Move?
  {
    c.(p := mv.p,
       marks := if mv.mark.Some? then Mark(c.marks, mv.mark.value, c.i) else c.marks,
       nread := if mv.reset then 0 else c.nread,
       saved := if mv.reset then 0 else c.saved)
  }

  function Notified(c: Cursor, e: Event): Cursor {
    c.(out := Emit(c.out, e), calls := c.calls + 1, marks := if e.Data? then c.marks - {e.kind} else c.marks)
  }

  /** `on_headers_complete`: its answer 1 or 2 is taken in before a pause is looked at. */
  function Asked(ask: Answers, r: Reaction, c: Cursor): ArmResult {
    var answer := ask(c.out);
    if !(0 <= answer <= 2) || r.Fail? then Return(c, Broken(CbHeadersComplete), c.i)
    else
      var c' := c.(p := Answered(c.p, answer));
      if r.Pause? then Return(c', Paused, c.i) else Same(c')
  }

  /** One pass through the state switch. */
  function Arm(ask: Answers, react: Reactions, c: Cursor, data: string): ArmResult
    requires c.i < |data| && forall d | d in c.marks :: c.marks[d] <= c.i
  {
    var mv := Transition(c.p, data[c.i]);
    if mv.Reject? then Return(c, Broken(mv.errno), c.i) else
    var c1 := Assigned(c, mv);
    var event := EventOf(mv.call, c1.marks, data, c.i);
    if event.None? then Moved(c1, mv.next) else
    var c2 := Notified(c1, event.value);
    var r := react(c1.calls);
    if event.value == Notify(HeadersComplete) then Asked(ask, r, c2) else
    match r
    case Proceed => Moved(c2, mv.next)
    case Pause => Return(c2.(nread := c2.saved), Paused, if mv.next.Again? then c.i else c.i + 1)
    case Fail => Return(c2, Broken(CallbackError(event.value)), if mv.next.Again? then c.i else c.i + 1)
  }

  // --------------------------------------------------------------------------------------------------------

  /** The callback of an arm tells the application what one-byte buffers would have told it. */
  lemma CallbackAgrees(c: Cursor, data: string, mv: Move)
    requires Good(c, data) && c.i < |data| && mv.Move? && Tidy(c.p.state, mv) && !mv.call.NoCallback?
    ensures var c1 := Assigned(c, mv);
            var event := EventOf(mv.call, c1.marks, data, c.i);
            var told := Called(mv.call, Open(c.p.state, mv.mark), Visible(c, data), data[c.i]);
            && (event.None? ==> told == c1.out && c1.marks == map[])
            && (event.Some? ==> told == Notified(c1, event.value).out && Notified(c1, event.value).marks == map[])
  {
    hide Valid, Emit;
    var s, ch := c.p.state, data[c.i];
    var open := Open(s, mv.mark);
    var c1 := Assigned(c, mv);
    match mv.call
    case Note(n) =>
      assert c.marks == map[];
      VisibleOne(c, data, Field);
    case UpTo(d) =>
      VisibleOne(c, data, d);
      assert data[c.i..c.i] == "";
      if d in c.marks {
        EmitJoins(c.out, d, data[c.marks[d]..c.i], "");
        assert data[c.marks[d]..c.i] + "" == data[c.marks[d]..c.i];
      }
    case Through(d) =>
      VisibleOne(c, data, d);
      if d in c.marks {
        EmitJoins(c.out, d, data[c.marks[d]..c.i], [ch]);
        assert data[c.marks[d]..c.i] + [ch] == data[c.marks[d]..c.i + 1];
      } else {
        assert data[c.i..c.i + 1] == [ch];
      }
  }

  /** What one pass through the switch has to do with what the byte does when it is fed on its own. */
  ghost predicate Faithful(ask: Answers, react: Reactions, c: Cursor, data: string, r: ArmResult)
    requires Good(c, data) && c.i < |data|
  {
    var rest := Rest(ask, c, data);
    match r
    case Same(c') =>
      Good(c', data) && c'.i == c.i && (InValue(c.p.state) ==> InValue(c'.p.state)) && Rank(c'.p.state) < Rank(c.p.state) && c'.nread == c.nread &&
      c'.saved == c.saved && !c'.p.state.ChunkSizeStart? && Rest(ask, c', data) == rest
    case Following(c') =>
      Good(c', data) && c'.i == c.i + 1 && (forall d | d in c'.marks :: c'.marks[d] < c'.i) && rest.Consumed? && rest.p == c'.p && rest.out == Visible(c', data) &&
      c'.nread == (if rest.reset then 0 else c.nread) && c'.saved == (if rest.reset then 0 else c.saved) &&
      (c'.p.state.ChunkSizeStart? ==> rest.reset)
    case Return(c', Fine, n) =>
      Valid(c'.p) && c'.nread <= c.nread && n == c.i + 1 && rest == Left(c'.p, c'.out) && !c'.p.state.ChunkSizeStart?
    case Return(c', Paused, n) =>
      Valid(c'.p) && (c'.p.state.ChunkSizeStart? ==> c'.nread == 0) &&
      (c'.nread <= c.saved || (c'.nread <= c.nread && !InValue(c.p.state))) && (exists k: nat :: react(k).Pause?) &&
      ((n == c.i && rest == Step(ask, c'.p, c'.out, data[c.i]) && Rank(c'.p.state) < Rank(c.p.state)) ||
       (n == c.i + 1 && (rest.Consumed? || rest.Left?) && rest.p == c'.p && rest.out == c'.out))
    case Return(c', Broken(e), n) =>
      c.i <= n <= c.i + 1 && ((exists k: nat :: react(k).Fail?) || rest == Refused(e))
  }

  /** Without a callback the marks stay, and the current byte joins the marked ones. */
  lemma MarksGoOn(c: Cursor, data: string, mv: Move)
    requires Good(c, data) && c.i < |data| && mv.Move? && Tidy(c.p.state, mv) && mv.call.NoCallback?
    ensures var c1 := Assigned(c, mv);
            && MarksFit(mv.p.state, c1.marks, c.i + 1)
            && (mv.next.Again? ==> MarksFit(mv.p.state, c1.marks, c.i))
            && (forall d | d in c1.marks :: c1.marks[d] <= c.i)
            && Visible(c1, data) == Visible(c, data)
            && Visible(c1.(i := c.i + 1), data) == Flushed(Open(c.p.state, mv.mark), Visible(c, data), data[c.i])
  {
    hide Valid, Emit;
    var open := Open(c.p.state, mv.mark);
    var c1 := Assigned(c, mv);
    if open.Some? {
      var d := open.value;
      VisibleOne(c, data, d);
      VisibleOne(c1, data, d);
      VisibleOne(c1.(i := c.i + 1), data, d);
      var m := c1.marks[d];
      EmitJoins(c.out, d, data[m..c.i], [data[c.i]]);
      assert data[m..c.i] + [data[c.i]] == data[m..c.i + 1];
      assert data[c.i..c.i + 1] == [data[c.i]];
    } else {
      assert c1.marks == map[];
    }
  }

  /** An arm without a callback. */
  lemma SilentArm(ask: Answers, react: Reactions, c: Cursor, data: string)
    requires Good(c, data) && c.i < |data|
    requires var mv := Transition(c.p, data[c.i]); mv.Move? && mv.call.NoCallback?
    ensures Faithful(ask, react, c, data, Arm(ask, react, c, data))
  {
    hide Transition, Valid, Visible, Emit, MarksFit, Tidy;
    var mv := Transition(c.p, data[c.i]);
    TransitionShaped(c.p, data[c.i]);
    TransitionKeeps(c.p, data[c.i]);
    MarksGoOn(c, data, mv);
    assert !mv.next.Exit? by { ExitCalls(c.p.state, mv); }
  }

  lemma ExitCalls(s: State, mv: Move)
    requires mv.Move? && Tidy(s, mv) && mv.call.NoCallback?
    ensures !mv.next.Exit?
  {
  }

  /** Nothing is marked: the trace is all there is to see. */
  lemma NothingMarked(c: Cursor, data: string)
    requires c.i <= |data| && c.marks == map[]
    ensures Visible(c, data) == c.out
    ensures Seed(c.p.state).None? ==> MarksFit(c.p.state, c.marks, c.i)
  {
  }

  /** An arm that makes a callback, when the callback lets the parser go on. */
  lemma MovesOn(ask: Answers, react: Reactions, c: Cursor, data: string, mv: Move, c2: Cursor)
    requires Good(c, data) && c.i < |data| && mv == Transition(c.p, data[c.i]) && mv.Move? && !mv.call.NoCallback?
    requires mv.call != Callback.Note(HeadersComplete)
    requires c2.p == mv.p && c2.marks == map[] && c2.i == c.i
    requires c2.nread == (if mv.reset then 0 else c.nread) && c2.saved == (if mv.reset then 0 else c.saved)
    requires c2.out == Called(mv.call, Open(c.p.state, mv.mark), Visible(c, data), data[c.i])
    ensures Faithful(ask, react, c, data, Moved(c2, mv.next))
    ensures (exists k: nat :: react(k).Pause?) ==>
            Faithful(ask, react, c, data, Return(c2.(nread := c2.saved), Paused, if mv.next.Again? then c.i else c.i + 1))
  {
    hide Transition, Valid, Emit, Visible, MarksFit, Called;
    TransitionShaped(c.p, data[c.i]);
    TransitionKeeps(c.p, data[c.i]);
    NothingMarked(c2, data);
    NothingMarked(c2.(i := c.i + 1), data);
  }

  lemma CallingArm(ask: Answers, react: Reactions, c: Cursor, data: string)
    requires Good(c, data) && c.i < |data|
    requires var mv := Transition(c.p, data[c.i]);
             mv.Move? && !mv.call.NoCallback? && mv.call != Callback.Note(HeadersComplete)
    ensures Faithful(ask, react, c, data, Arm(ask, react, c, data))
  {
    hide Transition, Valid, Emit, Visible, Called, Tidy, Step;
    var mv := Transition(c.p, data[c.i]);
    TransitionShaped(c.p, data[c.i]);
    CallbackAgrees(c, data, mv);
    var c1 := Assigned(c, mv);
    var event := EventOf(mv.call, c1.marks, data, c.i);
    MovesOn(ask, react, c, data, mv, if event.Some? then Notified(c1, event.value) else c1);
  }

  /** The arm that makes the `on_headers_complete` callback. */
  lemma AskingArm(ask: Answers, react: Reactions, c: Cursor, data: string)
    requires Good(c, data) && c.i < |data|
    requires var mv := Transition(c.p, data[c.i]); mv.Move? && mv.call == Callback.Note(HeadersComplete)
    ensures Faithful(ask, react, c, data, Arm(ask, react, c, data))
  {
    hide Transition, Valid, Emit, Visible, MarksFit, Answered;
    var mv := Transition(c.p, data[c.i]);
    TransitionShaped(c.p, data[c.i]);
    TransitionKeeps(c.p, data[c.i]);
    CallbackAgrees(c, data, mv);
    var c2 := Notified(Assigned(c, mv), Notify(HeadersComplete));
    if 0 <= ask(c2.out) <= 2 {
      AnsweredKeeps(c2.p, ask(c2.out));
      NothingMarked(c2.(p := Answered(c2.p, ask(c2.out))), data);
    }
  }

  lemma RejectingArm(ask: Answers, react: Reactions, c: Cursor, data: string)
    requires Good(c, data) && c.i < |data| && Transition(c.p, data[c.i]).Reject?
    ensures Faithful(ask, react, c, data, Arm(ask, react, c, data))
  {
    hide Transition, Visible, Valid, MarksFit;
  }

  /** One pass through the switch, whatever the callbacks do, is one step of the byte fed on its own. */
  lemma ArmFaithful(ask: Answers, react: Reactions, c: Cursor, data: string)
    requires Good(c, data) && c.i < |data|
    ensures Faithful(ask, react, c, data, Arm(ask, react, c, data))
  {
    var mv := Transition(c.p, data[c.i]);
    if mv.Reject? {
      hide *;
      RejectingArm(ask, react, c, data);
    } else if mv.call.NoCallback? {
      hide *;
      SilentArm(ask, react, c, data);
    } else if mv.call == Callback.Note(HeadersComplete) {
      hide *;
      AskingArm(ask, react, c, data);
    } else {
      hide *;
      CallingArm(ask, react, c, data);
    }
  }

  // --------------------------------------------------------------------------------------------------------
  // Where callbacks stop the parser

  function CountersOf(c: Cursor): Counters { Counters(c.nread, c.saved, c.calls, Body in c.marks) }

  /** Where the byte at the cursor is stopped, seen from the cursor. */
  function HaltOf(ask: Answers, react: Reactions, c: Cursor, data: string): Halt
    requires c.i < |data|
  {
    HaltIn(ask, react, c.p, Visible(c, data), CountersOf(c), data[c.i])
  }

  /** A pass through the switch is stopped exactly where the byte fed on its own is. */
  predicate Halting(ask: Answers, react: Reactions, c: Cursor, data: string, r: ArmResult)
    requires c.i < |data|
  {
    var h := HaltOf(ask, react, c, data);
    match r
    case Same(c') => c'.i == c.i && HaltOf(ask, react, c', data) == h
    case Following(c') => h == Unhalted(CountersOf(c'))
    case Return(c', Fine, n) => h.Unhalted?
    case Return(c', Paused, n) => h == Halted(c'.p, c'.out, c'.nread, Paused, n == c.i)
    case Return(c', Broken(e), n) =>
      if Rest(ask, c, data) == Refused(e) && h.Unhalted? then n == c.i
      else h == Halted(c'.p, c'.out, c'.nread, Broken(e), n == c.i)
  }

  /** A callback of an arm is made when there are bytes to tell of. */
  lemma RingsAgree(c: Cursor, data: string, mv: Move)
    requires Good(c, data) && c.i < |data| && mv.Move? && Tidy(c.p.state, mv)
    ensures var c1 := Assigned(c, mv);
            var event := EventOf(mv.call, c1.marks, data, c.i);
            var rings := Rings(mv.call, Open(c.p.state, mv.mark), Body in c.marks);
            && (event.Some? <==> rings)
            && (event.Some? ==> CallbackError(event.value) == CallbackError(EventKind(mv.call)))
            && (event.Some? ==> CountersOf(Notified(c1, event.value)) == Advanced(CountersOf(c), mv, true))
            && (event.None? ==> CountersOf(c1) == Advanced(CountersOf(c), mv, false))
  {
    hide Valid, Emit;
  }

  /** What is to be seen of the trace after the callback of an arm. */
  lemma SeenAfter(c: Cursor, data: string, mv: Move)
    requires Good(c, data) && c.i < |data| && mv.Move? && Tidy(c.p.state, mv)
    ensures var c1 := Assigned(c, mv);
            var event := EventOf(mv.call, c1.marks, data, c.i);
            var told := Called(mv.call, Open(c.p.state, mv.mark), Visible(c, data), data[c.i]);
            && (event.None? ==> Visible(c1, data) == told)
            && (event.Some? ==> Notified(c1, event.value).out == told && Notified(c1, event.value).marks == map[])
  {
    hide Valid, Visible, Emit, Tidy, MarksFit;
    if mv.call.NoCallback? {
      SameSeen(c, data, mv);
    } else {
      CallbackAgrees(c, data, mv);
      NothingSeen(Assigned(c, mv), data);
    }
  }

  lemma NothingSeen(c: Cursor, data: string)
    requires c.i <= |data|
    ensures c.marks == map[] ==> Visible(c, data) == c.out
  {
  }

  lemma SameSeen(c: Cursor, data: string, mv: Move)
    requires Good(c, data) && c.i < |data| && mv.Move? && Tidy(c.p.state, mv) && mv.call.NoCallback?
    ensures Visible(Assigned(c, mv), data) == Visible(c, data)
  {
    hide Visible, Valid;
    MarksGoOn(c, data, mv);
  }

  lemma MarksHere(c: Cursor, data: string, mv: Move)
    requires Good(c, data) && mv.Move?
    ensures forall d | d in Assigned(c, mv).marks :: Assigned(c, mv).marks[d] <= c.i
    ensures forall d | d in c.marks :: c.marks[d] <= c.i
  {
    hide Valid;
  }

  /** The byte at the cursor is stopped where a pass through the switch stops. */
  lemma ArmHalts(ask: Answers, react: Reactions, c: Cursor, data: string)
    requires Good(c, data) && c.i < |data|
    ensures Halting(ask, react, c, data, Arm(ask, react, c, data))
  {
    hide Transition, Valid, Emit, Called, Visible, MarksFit, Tidy, Rings, EventOf, Answered, Open;
    var mv := Transition(c.p, data[c.i]);
    if mv.Move? {
      MarksHere(c, data, mv);
      TransitionShaped(c.p, data[c.i]);
      RingsAgree(c, data, mv);
      SeenAfter(c, data, mv);
      var c1 := Assigned(c, mv);
      var event := EventOf(mv.call, c1.marks, data, c.i);
      if event.None? {
        NoteRings(mv.call, c1.marks, data, c.i);
      } else {
        var c2 := Notified(c1, event.value);
        NothingSeen(c2, data);
        NothingSeen(c2.(p := Answered(c2.p, ask(c2.out))), data);
        EventIsNote(mv.call, c1.marks, data, c.i);
      }
    } else {
      MarksHere(c, data, Go(c.p));
    }
  }

  lemma NoteRings(call: Callback, marks: map<DataKind, nat>, data: string, i: nat)
    requires i < |data| && forall d | d in marks :: marks[d] <= i
    ensures EventOf(call, marks, data, i).None? ==> !call.Note?
  {
  }

  lemma EventIsNote(call: Callback, marks: map<DataKind, nat>, data: string, i: nat)
    requires i < |data| && forall d | d in marks :: marks[d] <= i
    ensures var e := EventOf(call, marks, data, i); e.Some? ==> (e.value == Notify(HeadersComplete) <==> call == Callback.Note(HeadersComplete))
  {
  }
}
