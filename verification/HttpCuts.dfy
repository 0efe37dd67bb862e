/** Cutting the input into buffers changes nothing. */
module HttpCuts {
  import opened HttpTypes
  import opened HttpTransition
  import opened HttpInvariant
  import opened HttpFeed
  import opened HttpHalts
  import opened HttpParser
  import opened HttpVerdict

  /** Callbacks that neither pause nor fail. */
  const QUIET: Reactions := (k: nat) => Proceed

  function Concat(pieces: seq<string>): string {
    if pieces == [] then "" else pieces[0] + Concat(pieces[1..])
  }

  /** One call after the other, each but the last without an error. */
  ghost predicate Calls(ask: Answers, limit: nat, views: seq<View>, pieces: seq<string>) {
    |views| == |pieces| + 1 && forall i | 0 <= i < |pieces| :: Called(ask, limit, views[i], views[i + 1], pieces[i])
  }

  ghost predicate Called(ask: Answers, limit: nat, before: View, after: View, piece: string) {
    before.errno.Fine? && exists n, overran :: Call(ask, QUIET, limit, before, after, piece, n, overran)
  }

  /** A call in which callbacks do nothing but look. */
  lemma QuietCall(ask: Answers, limit: nat, before: View, after: View, data: string, n: nat, overran: bool)
    requires Call(ask, QUIET, limit, before, after, data, n, overran)
    ensures var m := MeaningOf(ask, QUIET, limit, before, data);
      if after.errno.Fine? then
        || (m.whole == Fed(after.p, after.out) && n == |data| && m.count == Some(after.nread))
        || (m.whole == Exited(after.p, after.out, data[n..]) && m.count.Some?)
      else after.errno.Broken? && (m.count.None? || m.whole.Failed?)
  {
    hide Ready, Feed, Tally, Halts, Decide;
    QuietText(ask, QUIET, before.p, before.out, Starting(before), data);
  }

  /** A sequence of calls is one long feed. */
  lemma {:induction false} CallsFeed(ask: Answers, limit: nat, views: seq<View>, pieces: seq<string>)
    requires Calls(ask, limit, views, pieces) && (pieces == [] ==> views[0].errno.Fine?)
    requires !Feed(ask, views[0].p, views[0].out, Concat(pieces)).Exited?
    ensures var last := views[|pieces|];
            var whole := Feed(ask, views[0].p, views[0].out, Concat(pieces));
            var count := Tally(ask, views[0].p, views[0].out, views[0].nread, limit, Concat(pieces));
            if last.errno.Fine? then whole == Fed(last.p, last.out) && count == Some(last.nread)
            else whole.Failed? || count.None?
    decreases |pieces|
  {
    if pieces != [] {
      hide Step, Ready, Feed, Tally;
      var v, x, rest := views[0], pieces[0], Concat(pieces[1..]);
      FeedSplits(ask, v.p, v.out, x, rest);
      TallySplits(ask, v.p, v.out, v.nread, limit, x, rest);
      assert Called(ask, limit, views[0], views[1], pieces[0]);
      var n, overran :| Call(ask, QUIET, limit, v, views[1], x, n, overran);
      QuietCall(ask, limit, v, views[1], x, n, overran);
      hide Call;
      if views[1].errno.Fine? {
        forall i | 0 <= i < |pieces| - 1
          ensures Called(ask, limit, views[1..][i], views[1..][i + 1], pieces[1..][i])
        {
          assert Called(ask, limit, views[i + 1], views[i + 2], pieces[i + 1]);
        }
        assert Calls(ask, limit, views[1..], pieces[1..]);
        CallsFeed(ask, limit, views[1..], pieces[1..]);
      } else {
        assert |pieces| > 1 ==> Called(ask, limit, views[1], views[2], pieces[1]);
        assert Concat(pieces[1..]) == "";
        assert x + rest == x;
      }
    }
  }

  lemma CallsLength(ask: Answers, limit: nat, views: seq<View>, pieces: seq<string>)
    requires Calls(ask, limit, views, pieces)
    ensures |views| == |pieces| + 1
  {
    hide Called;
  }

  /** Split independence. The input is cut into `pieces`; calls are made until one fails or all are done. If no
      message hands over to another protocol, they succeed exactly when the call on the whole input does, and
      leave the same fields, the same trace and the same byte counter. */
  lemma SplitIndependence(
      ask: Answers, limit: nat, views: seq<View>, pieces: seq<string>, rest: string, whole: View, n: nat, overran: bool)
    requires pieces != [] && Calls(ask, limit, views, pieces)
    requires rest != "" ==> !views[|pieces|].errno.Fine?
    requires Call(ask, QUIET, limit, views[0], whole, Concat(pieces) + rest, n, overran)
    requires !Feed(ask, views[0].p, views[0].out, Concat(pieces)).Exited?
    ensures whole.errno.Fine? <==> views[|pieces|].errno.Fine?
    ensures whole.errno.Fine? ==> whole == views[|pieces|]
  {
    hide Step, Ready, Feed, Tally, Call, Called, Calls;
    CallsLength(ask, limit, views, pieces);
    var v := views[0];
    QuietCall(ask, limit, v, whole, Concat(pieces) + rest, n, overran);
    CallsFeed(ask, limit, views, pieces);
    FeedSplits(ask, v.p, v.out, Concat(pieces), rest);
    TallySplits(ask, v.p, v.out, v.nread, limit, Concat(pieces), rest);
    assert Concat(pieces) + "" == Concat(pieces);
  }
}
