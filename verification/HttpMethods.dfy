/** The request methods: a request line is taken exactly when it begins with the name of a method. */
module HttpMethods {
  import opened HttpTypes
  import opened HttpChars
  import opened HttpTransition
  import opened HttpInvariant
  import opened HttpFeed
  import opened HttpBodies

  /** The state in which `i` letters of the name of `m` have been read. */
  function Reading(p: Parser, m: Method, i: nat): Parser {
    Fresh(p).(state := ReqMethod, verb := m, index := i)
  }

  lemma LetterRead(ask: Answers, p: Parser, out: seq<Event>, ch: char)
    requires p.state.ReqMethod?
    ensures var mv := RequestMethod(p, ch);
            Step(ask, p, out, ch) == if mv.Reject? then Refused(mv.errno) else Consumed(mv.p, out, false)
  {
    hide MethodName, NextGuess, Emit;
  }

  lemma FirstLetterRead(ask: Answers, p: Parser, out: seq<Event>, ch: char)
    requires p.state.StartReq? && FirstGuess(ch).Some?
    ensures Step(ask, p, out, ch) == Consumed(Reading(p, FirstGuess(ch).value, 1), Emit(out, Notify(MessageBegin)), false)
  {
    hide MethodName, NextGuess, Emit;
  }

  /** Where the name of a method branches off: the method that is guessed before, and the letter that corrects the guess. */
  function Branch(m: Method): Option<(Method, nat)> {
    match m
    case PUT => Some((POST, 1)) case PATCH => Some((POST, 1)) case PROPFIND => Some((POST, 1))
    case PROPPATCH => Some((PROPFIND, 4)) case PURGE => Some((PUT, 2))
    case CHECKOUT => Some((CONNECT, 1)) case COPY => Some((CONNECT, 2))
    case MOVE => Some((MKCOL, 1)) case MERGE => Some((MKCOL, 1)) case MSEARCH => Some((MKCOL, 1))
    case MKACTIVITY => Some((MKCOL, 2)) case MKCALENDAR => Some((MKCOL, 3))
    case SEARCH => Some((SUBSCRIBE, 1)) case SOURCE => Some((SUBSCRIBE, 1))
    case REBIND => Some((REPORT, 2)) case LINK => Some((LOCK, 1))
    case UNSUBSCRIBE => Some((UNLOCK, 2)) case UNBIND => Some((UNLOCK, 2)) case UNLINK => Some((UNLOCK, 3))
    case _ => None
  }

  function BranchPlace(m: Method): nat { if Branch(m).Some? then Branch(m).value.1 else 0 }

  /** The guess after the first `k` letters of the name of `m`. */
  function Guess(m: Method, k: nat): Method
    decreases BranchPlace(m)
  {
    if Branch(m).Some? && k <= BranchPlace(m) then Guess(Branch(m).value.0, k) else m
  }

  /** What a branch is: the names agree up to its letter, which differs and leads from one guess to the other. */
  predicate BranchesOff(m: Method, g: Method, i: nat) {
    && BranchPlace(g) < i < |MethodName(m)| && i < |MethodName(g)| && MethodName(g)[i] != MethodName(m)[i]
    && (forall k | 0 <= k < i :: MethodName(g)[k] == MethodName(m)[k])
    && NextGuess(g, i, MethodName(m)[i]) == Some(m)
  }

  /** The table of branches is right. */
  lemma BranchFits(m: Method)
    ensures Branch(m).Some? ==> BranchesOff(m, Branch(m).value.0, Branch(m).value.1)
  {
    hide Branch, BranchesOff;
    FirstBranches(m);
    MakeBranches(m);
    LaterBranches(m);
    LastBranches(m);
    NoBranchAtStart(m);
  }

  lemma NoBranchAtStart(m: Method)
    ensures Branch(m).Some? ==> BranchPlace(m) >= 1
  {
  }

  lemma FirstBranches(m: Method)
    ensures Branch(m).Some? && BranchPlace(m) == 1 && !Branch(m).value.0.MKCOL? ==> BranchesOff(m, Branch(m).value.0, 1)
  {
  }

  lemma MakeBranches(m: Method)
    ensures Branch(m).Some? && Branch(m).value.0.MKCOL? ==> BranchesOff(m, Branch(m).value.0, Branch(m).value.1)
  {
  }

  lemma LaterBranches(m: Method)
    ensures Branch(m).Some? && BranchPlace(m) == 2 && !Branch(m).value.0.MKCOL? ==> BranchesOff(m, Branch(m).value.0, Branch(m).value.1)
  {
  }

  lemma LastBranches(m: Method)
    ensures Branch(m).Some? && BranchPlace(m) > 2 && !Branch(m).value.0.MKCOL? ==> BranchesOff(m, Branch(m).value.0, Branch(m).value.1)
  {
  }

  /** The table at one letter. */
  lemma BranchAt(m: Method, k: nat)
    requires Branch(m).Some? && k <= BranchPlace(m)
    ensures var g, i := Branch(m).value.0, BranchPlace(m);
      && BranchPlace(g) < i < |MethodName(m)| && k < |MethodName(g)|
      && if k < i then MethodName(g)[k] == MethodName(m)[k]
         else MethodName(g)[k] != MethodName(m)[k] && NextGuess(g, k, MethodName(m)[k]) == Some(m)
  {
    hide MethodName, NextGuess, Branch;
    BranchFits(m);
  }

  lemma NameLetters(m: Method, k: nat)
    requires k < |MethodName(m)|
    ensures 'A' <= MethodName(m)[k] <= 'Z' || MethodName(m)[k] == '-'
  {
  }

  /** The k-th letter either agrees with the guess or corrects it. */
  predicate GoesRight(m: Method, k: nat) {
    var ch, guess := (if k < |MethodName(m)| then MethodName(m)[k] else ' '), Guess(m, k);
    && ('A' <= ch <= 'Z' || ch == '-')
    && if k < |MethodName(guess)| && MethodName(guess)[k] == ch then Guess(m, k + 1) == guess
       else NextGuess(guess, k, ch) == Some(Guess(m, k + 1))
  }

  lemma GuessIs(m: Method, k: nat)
    ensures Guess(m, k) == if Branch(m).Some? && k <= BranchPlace(m) then Guess(Branch(m).value.0, k) else m
  {
    hide Branch;
  }

  lemma {:induction false} NameGoesRight(m: Method, k: nat)
    requires 1 <= k < |MethodName(m)|
    ensures GoesRight(m, k)
    decreases BranchPlace(m)
  {
    hide MethodName, NextGuess, Branch, Guess, BranchesOff;
    NameLetters(m, k);
    GuessIs(m, k);
    GuessIs(m, k + 1);
    if Branch(m).Some? && k <= BranchPlace(m) {
      BranchAt(m, k);
      var g := Branch(m).value.0;
      GuessIs(g, k);
      if k < BranchPlace(m) {
        NameGoesRight(g, k);
      }
    }
  }

  lemma RootFits(m: Method)
    ensures 3 <= |MethodName(m)| && (Branch(m).None? ==> FirstGuess(MethodName(m)[0]) == Some(m))
  {
  }

  lemma {:induction false} NameBegins(m: Method)
    ensures 3 <= |MethodName(m)|
    ensures Guess(m, |MethodName(m)|) == m && FirstGuess(MethodName(m)[0]) == Some(Guess(m, 1))
    decreases BranchPlace(m)
  {
    hide MethodName, NextGuess, FirstGuess, Branch;
    RootFits(m);
    BranchFits(m);
    if Branch(m).Some? {
      NameBegins(Branch(m).value.0);
    }
  }

  /** Every method name is read letter by letter ... */
  lemma {:induction false} PrefixRead(ask: Answers, p: Parser, out: seq<Event>, m: Method, k: nat)
    requires p.state.StartReq? && 1 <= k <= |MethodName(m)|
    ensures Feed(ask, p, out, MethodName(m)[..k]) == Fed(Reading(p, Guess(m, k), k), Emit(out, Notify(MessageBegin)))
  {
    hide Step, Feed, Emit, MethodName, Guess, NextGuess, FirstGuess;
    NameBegins(m);
    var name := MethodName(m);
    if k == 1 {
      assert name[..1] == [name[0]];
      FirstLetterRead(ask, p, out, name[0]);
      FeedByte(ask, p, out, name[0]);
    } else {
      var told := Emit(out, Notify(MessageBegin));
      var q, ch := Reading(p, Guess(m, k - 1), k - 1), name[k - 1];
      PrefixRead(ask, p, out, m, k - 1);
      assert name[..k] == name[..k - 1] + [ch];
      FeedOn(ask, p, out, name[..k - 1], [ch], q, told);
      NameGoesRight(m, k - 1);
      LetterRead(ask, q, told, ch);
      FeedByte(ask, q, told, ch);
    }
  }

  /** ... and with the space behind it, it is known. */
  lemma MethodIsKnown(ask: Answers, p: Parser, out: seq<Event>, m: Method)
    requires p.state.StartReq?
    ensures Feed(ask, p, out, MethodName(m) + " ") ==
            Fed(Reading(p, m, |MethodName(m)| + 1).(state := ReqSpacesBeforeUrl), Emit(out, Notify(MessageBegin)))
  {
    hide Step, Feed, Emit, MethodName, Guess, NextGuess, FirstGuess;
    NameBegins(m);
    var name := MethodName(m);
    var told := Emit(out, Notify(MessageBegin));
    PrefixRead(ask, p, out, m, |name|);
    assert name[..|name|] == name;
    FeedOn(ask, p, out, name, " ", Reading(p, m, |name|), told);
    LetterRead(ask, Reading(p, m, |name|), told, ' ');
    FeedByte(ask, Reading(p, m, |name|), told, ' ');
  }

  /** No other letters lead to the space: what has been read is always the beginning of the guessed name. */
  lemma {:induction false} LettersAreName(ask: Answers, p: Parser, out: seq<Event>, s: string)
    requires p.state.StartReq? && s != "" && s[0] != CR && s[0] != LF
    requires forall k | 1 <= k < |s| :: var r := Feed(ask, p, out, s[..k]); r.Fed? && r.p.state.ReqMethod?
    ensures var r := Feed(ask, p, out, s);
            && (r.Fed? && r.p.state.ReqMethod? ==>
                  1 <= |s| == r.p.index <= |MethodName(r.p.verb)| && s == MethodName(r.p.verb)[..|s|])
            && (r.Fed? && r.p.state.ReqSpacesBeforeUrl? ==> s == MethodName(r.p.verb) + " ")
    decreases |s|
  {
    hide Step, Feed, Emit, MethodName, NextGuess, FirstGuess;
    var x, ch := s[..|s| - 1], s[|s| - 1];
    assert s == x + [ch];
    if x == "" {
      assert s == [ch];
      FeedByte(ask, p, out, ch);
      FirstLetterCases(ask, p, out, ch);
    } else {
      assert forall k | 1 <= k < |x| :: x[..k] == s[..k];
      LettersAreName(ask, p, out, x);
      var r := Feed(ask, p, out, x);
      FeedOn(ask, p, out, x, [ch], r.p, r.out);
      LetterRead(ask, r.p, r.out, ch);
      FeedByte(ask, r.p, r.out, ch);
      LetterCases(r.p, ch, x);
    }
  }

  lemma FirstLetterCases(ask: Answers, p: Parser, out: seq<Event>, ch: char)
    requires p.state.StartReq? && ch != CR && ch != LF
    ensures var r := Step(ask, p, out, ch);
            if FirstGuess(ch).None? then r.Refused?
            else r == Consumed(Reading(p, FirstGuess(ch).value, 1), Emit(out, Notify(MessageBegin)), false) &&
                 |MethodName(FirstGuess(ch).value)| >= 1 && MethodName(FirstGuess(ch).value)[..1] == [ch]
  {
    if FirstGuess(ch).Some? {
      FirstLetterRead(ask, p, out, ch);
      FirstLetterOf(ch);
    } else {
      hide Emit, MethodName;
    }
  }

  lemma FirstLetterOf(ch: char)
    requires FirstGuess(ch).Some?
    ensures var name := MethodName(FirstGuess(ch).value); |name| >= 1 && name[..1] == [ch]
  {
  }

  lemma LetterCases(p: Parser, ch: char, x: string)
    requires p.state.ReqMethod? && x != "" && |x| == p.index <= |MethodName(p.verb)| && x == MethodName(p.verb)[..|x|]
    ensures var mv := RequestMethod(p, ch);
            mv.Move? ==>
              && (mv.p.state.ReqMethod? ==>
                    |x| + 1 == mv.p.index <= |MethodName(mv.p.verb)| && x + [ch] == MethodName(mv.p.verb)[..|x| + 1])
              && (mv.p.state.ReqSpacesBeforeUrl? ==> x + [ch] == MethodName(mv.p.verb) + " ")
  {
    hide MethodName, NextGuess;
    var name := MethodName(p.verb);
    if NextGuess(p.verb, p.index, ch).Some? {
      NextGuessAgrees(p.verb, p.index, ch);
    }
    if p.index < |name| {
      assert name[..p.index + 1] == name[..p.index] + [name[p.index]];
    } else {
      assert name[..p.index] == name;
    }
  }
}
