/** The order of callbacks on the way through a buffer, errors and pauses included. */
module HttpOrder {
  import opened HttpTypes
  import opened HttpTransition
  import opened HttpInvariant
  import opened HttpFeed
  import opened HttpHalts
  import opened HttpArm
  import G = HttpGrammar

  /** The trace told, with the marked bytes added, is where the state should be in the grammar. */
  predicate Ordered(c: Cursor, data: string)
    requires c.i <= |data|
  {
    G.Fits(c.p, G.PlaceOf(Visible(c, data)))
  }

  /** What is left behind a call: in an error the trace is still a beginning of what the grammar allows. */
  predicate EndsOrdered(p: Parser, out: seq<Event>, status: Status) {
    if status.Broken? then !G.PlaceOf(out).Wrong? else G.Fits(p, G.PlaceOf(out))
  }

  predicate InOrder(r: ArmResult, data: string) {
    match r
    case Same(c') => c'.i <= |data| && Ordered(c', data)
    case Following(c') => c'.i <= |data| && Ordered(c', data)
    case Return(c', status, _) => EndsOrdered(c'.p, c'.out, status)
  }

  /** What has been told is in order if it is so together with the bytes that are still to be told. */
  lemma ToldRight(c: Cursor, data: string)
    requires Good(c, data) && Ordered(c, data)
    ensures !G.PlaceOf(c.out).Wrong?
  {
    hide G.Fits, G.PlaceOf, Emit, Valid;
    G.FitsRight(c.p, G.PlaceOf(Visible(c, data)));
    if d :| d in c.marks {
      VisibleOne(c, data, d);
      G.PlaceOfEmit(c.out, Data(d, data[c.marks[d]..c.i]));
    } else {
      NothingSeen(c, data);
    }
  }

  /** Where the marks are after a byte without a callback. */
  lemma SilentOrdered(c: Cursor, data: string, mv: Move)
    requires Good(c, data) && c.i < |data| && mv == Transition(c.p, data[c.i]) && mv.Move? && mv.call.NoCallback? && Ordered(c, data)
    ensures var c1 := Assigned(c, mv); if mv.next.Again? then Ordered(c1, data) else mv.next.Advance? ==> Ordered(c1.(i := c1.i + 1), data)
  {
    hide Transition, Valid, Visible, Emit, MarksFit, Tidy, Flushed, G.Fits, G.PlaceOf, G.After;
    TransitionShaped(c.p, data[c.i]);
    MarksGoOn(c, data, mv);
    var g, open := G.PlaceOf(Visible(c, data)), Open(c.p.state, mv.mark);
    G.TransitionOrderly(c.p, data[c.i], g);
    G.CalledPlace(mv.call, open, Visible(c, data), data[c.i]);
    G.CalledSilent(open, Visible(c, data), data[c.i]);
  }

  /** An arm that makes a callback, or would. */
  lemma ToldOrdered(c: Cursor, data: string, mv: Move)
    requires Good(c, data) && c.i < |data| && mv == Transition(c.p, data[c.i]) && mv.Move? && !mv.call.NoCallback? && Ordered(c, data)
    ensures G.Fits(mv.p, G.PlaceOf(Called(mv.call, Open(c.p.state, mv.mark), Visible(c, data), data[c.i])))
  {
    hide Transition, Valid, Visible, Emit, Called, G.Fits, G.PlaceOf, G.After, Open;
    G.TransitionOrderly(c.p, data[c.i], G.PlaceOf(Visible(c, data)));
    G.CalledPlace(mv.call, Open(c.p.state, mv.mark), Visible(c, data), data[c.i]);
  }

  /** A pass through the switch keeps the order. */
  lemma ArmOrdered(ask: Answers, react: Reactions, c: Cursor, data: string)
    requires Good(c, data) && c.i < |data| && Ordered(c, data)
    requires forall d | d in c.marks :: c.marks[d] <= c.i
    ensures InOrder(Arm(ask, react, c, data), data)
  {
    hide Transition, Valid, Visible, Emit, Called, MarksFit, Tidy, EventOf, Answered, Open, G.Fits, G.PlaceOf;
    var mv := Transition(c.p, data[c.i]);
    ToldRight(c, data);
    if mv.Move? {
      MarksHere(c, data, mv);
      TransitionShaped(c.p, data[c.i]);
      SeenAfter(c, data, mv);
      var c1 := Assigned(c, mv);
      var event := EventOf(mv.call, c1.marks, data, c.i);
      if mv.call.NoCallback? {
        SilentEvent(c1.marks, data, c.i);
        SilentOrdered(c, data, mv);
        SilentMoves(mv, c.p.state);
      } else {
        ToldOrdered(c, data, mv);
        G.FitsRight(mv.p, G.PlaceOf(Called(mv.call, Open(c.p.state, mv.mark), Visible(c, data), data[c.i])));
        if event.Some? {
          EventIsNote(mv.call, c1.marks, data, c.i);
          CallingOrdered(ask, react(c1.calls), c, data, mv, Notified(c1, event.value));
        } else {
          CallbackAgrees(c, data, mv);
          NothingSeen(c1.(i := c1.i + 1), data);
        }
      }
    }
  }

  lemma SilentEvent(marks: map<DataKind, nat>, data: string, i: nat)
    requires i < |data| && forall d | d in marks :: marks[d] <= i
    ensures EventOf(NoCallback, marks, data, i).None?
  {
  }

  lemma SilentMoves(mv: Move, s: State)
    requires mv.Move? && Tidy(s, mv) && mv.call.NoCallback?
    ensures !mv.next.Exit?
  {
    hide Open;
  }

  lemma CallingOrdered(ask: Answers, r: Reaction, c: Cursor, data: string, mv: Move, c2: Cursor)
    requires Good(c, data) && c.i < |data| && mv == Transition(c.p, data[c.i]) && mv.Move? && c2.p == mv.p && c2.i == c.i
    requires c2.marks == map[] && G.Fits(mv.p, G.PlaceOf(c2.out)) && !G.PlaceOf(c2.out).Wrong?
    ensures InOrder(Moved(c2, mv.next), data)
    ensures mv.call == Callback.Note(HeadersComplete) ==> InOrder(Asked(ask, r, c2), data)
    ensures EndsOrdered(c2.p, c2.out, Paused)
  {
    hide Transition, Valid, Visible, Emit, MarksFit, Tidy, Answered, G.Fits, G.PlaceOf;
    NothingSeen(c2, data);
    NothingSeen(c2.(i := c2.i + 1), data);
    if mv.call == Callback.Note(HeadersComplete) && 0 <= ask(c2.out) <= 2 {
      TransitionShaped(c.p, data[c.i]);
      G.AnsweredFits(mv.p, ask(c2.out), G.PlaceOf(c2.out));
      NothingSeen(c2.(p := Answered(c2.p, ask(c2.out))), data);
    }
  }
}
