/** Taking blanks and comments out of a text, in place. */
module JsonMinify {
  import opened JsonText
  import opened JsonParse
  import opened JsonRoundTrip

  predicate IsBlank(c: char) { c == ' ' || c == '\t' || c == '\r' || c == '\n' }

  /** The end of a comment to the end of its line. */
  function LineEnd(t: string, i: nat): (j: nat)
    requires i <= |t|
    ensures i <= j <= |t|
    decreases |t| - i
  {
    if i < |t| && t[i] != '\n' then LineEnd(t, i + 1) else i
  }

  /** The star and slash that close a comment. */
  function CommentEnd(t: string, i: nat): (r: Option<nat>)
    ensures r.Some? ==> i + 2 <= r.value <= |t|
    decreases |t| - i
  {
    if i >= |t| then None
    else if t[i] == '*' && At(t, i + 1) == '/' then Some(i + 2)
    else CommentEnd(t, i + 1)
  }

  /** The end of a string literal, from behind its opening quote. */
  function LiteralEnd(t: string, i: nat): (r: Option<nat>)
    ensures r.Some? ==> i < r.value <= |t|
    decreases |t| - i
  {
    if i >= |t| then None
    else if t[i] == '\"' then Some(i + 1)
    else if t[i] == '\\' then LiteralEnd(t, i + 2)
    else LiteralEnd(t, i + 1)
  }

  /** What is left of the text from `i` on; nothing if a literal or a comment does not end. */
  function Minified(t: string, i: nat): Option<string>
    decreases |t| - i
  {
    if i >= |t| then Some("")
    else if IsBlank(t[i]) then Minified(t, i + 1)
    else if t[i] == '/' && At(t, i + 1) == '/' then Minified(t, LineEnd(t, i))
    else if t[i] == '/' && At(t, i + 1) == '*' then
      var e := CommentEnd(t, i);
      if e.None? then None else Minified(t, e.value)
    else if t[i] == '\"' then
      var e := LiteralEnd(t, i + 1);
      if e.None? then None else Ahead(t[i..e.value], Minified(t, e.value))
    else Ahead([t[i]], Minified(t, i + 1))
  }

  function Ahead(s: string, r: Option<string>): Option<string> { if r.None? then None else Some(s + r.value) }

  lemma AheadJoins(a: string, b: string, r: Option<string>)
    ensures Ahead(a, Ahead(b, r)) == Ahead(a + b, r)
    ensures Ahead("", r) == r
  {
    if r.Some? {
      assert a + (b + r.value) == a + b + r.value;
      assert "" + r.value == r.value;
    }
  }

  /** The array holds a string and the NUL behind it. */
  ghost predicate Holds(a: array<char>, s: string)
    reads a
  {
    |s| < a.Length && a[..|s|] == s && a[|s|] == '\0' && NulFree(s)
  }

  /** The text from `j` on is still as it was. */
  ghost predicate Kept(json: array<char>, t: string, j: nat)
    reads json
  {
    |t| < json.Length && forall k | j <= k <= |t| :: json[k] == At(t, k)
  }

  lemma KeptAt(json: array<char>, t: string, j: nat)
    requires Kept(json, t, j) && j <= |t| && NulFree(t)
    ensures |t| < json.Length && json[j] == At(t, j) && (json[j] == '\0' <==> j == |t|) && (j < |t| ==> json[j + 1] == At(t, j + 1))
  {
    assert j < |t| ==> t[j] in t;
  }

  method SkipLine(json: array<char>, ghost t: string, j: nat) returns (k: nat)
    requires Kept(json, t, j) && j <= |t| && NulFree(t)
    ensures k == LineEnd(t, j)
  {
    k := j;
    KeptAt(json, t, k);
    while json[k] != '\0' && json[k] != '\n'
      invariant j <= k <= |t| && LineEnd(t, k) == LineEnd(t, j)
      invariant json[k] == At(t, k) && (json[k] == '\0' <==> k == |t|)
      decreases |t| - k
    {
      k := k + 1;
      KeptAt(json, t, k);
    }
  }

  method SkipComment(json: array<char>, ghost t: string, j: nat) returns (k: nat)
    requires Kept(json, t, j) && j <= |t| && NulFree(t) && CommentEnd(t, j).Some?
    ensures k == CommentEnd(t, j).value
  {
    k := j;
    KeptAt(json, t, k);
    while json[k] != '\0' && !(json[k] == '*' && json[k + 1] == '/')
      invariant j <= k <= |t| && CommentEnd(t, k) == CommentEnd(t, j)
      invariant json[k] == At(t, k) && (json[k] == '\0' <==> k == |t|) && (k < |t| ==> json[k + 1] == At(t, k + 1))
      decreases |t| - k
    {
      k := k + 1;
      KeptAt(json, t, k);
    }
    k := k + 2;
  }

  /** Copies one character down. */
  method CopyDown(json: array<char>, ghost t: string, into: nat, j: nat)
    requires into <= j < |t| < json.Length && Kept(json, t, j)
    modifies json
    ensures Kept(json, t, j + 1) && json[..into] == old(json[..into]) && json[into] == t[j]
    ensures json[..into + 1] == old(json[..into]) + [t[j]]
  {
    json[into] := json[j];
  }

  /** Copies a literal down, from behind its opening quote. */
  method CopyLiteral(json: array<char>, ghost t: string, into: nat, j: nat) returns (into': nat, j': nat)
    requires into <= j <= |t| < json.Length && NulFree(t) && Kept(json, t, j) && LiteralEnd(t, j).Some?
    modifies json
    ensures j' == LiteralEnd(t, j).value && into' == into + (j' - j) && Kept(json, t, j')
    ensures json[..into'] == old(json[..into]) + t[j..j']
  {
    hide Kept, LiteralEnd;
    into', j' := into, j;
    KeptAt(json, t, j);
    ghost var out := json[..into];
    assert out + t[j..j] == out;
    LiteralNext(t, j);
    while json[j'] != '\0' && json[j'] != '\"'
      invariant j <= j' <= |t| && into' == into + (j' - j) && Kept(json, t, j')
      invariant LiteralEnd(t, j').Some? && LiteralEnd(t, j') == LiteralEnd(t, j)
      invariant json[j'] == At(t, j') && (json[j'] == '\0' <==> j' == |t|)
      invariant json[..into'] == out + t[j..j']
      decreases |t| - j'
    {
      LiteralNext(t, j');
      if json[j'] == '\\' {
        SliceMore(out, t, j, j');
        CopyDown(json, t, into', j');
        into', j' := into' + 1, j' + 1;
      }
      SliceMore(out, t, j, j');
      CopyDown(json, t, into', j');
      into', j' := into' + 1, j' + 1;
      KeptAt(json, t, j');
    }
    LiteralNext(t, j');
    SliceMore(out, t, j, j');
    CopyDown(json, t, into', j');
    into', j' := into' + 1, j' + 1;
  }

  lemma LiteralNext(t: string, i: nat)
    requires LiteralEnd(t, i).Some?
    ensures i < |t| && if t[i] == '\"' then LiteralEnd(t, i) == Some(i + 1)
      else if t[i] == '\\' then i + 1 < |t| && LiteralEnd(t, i) == LiteralEnd(t, i + 2)
      else LiteralEnd(t, i) == LiteralEnd(t, i + 1)
  {
  }

  lemma SliceMore(out: string, t: string, i: nat, j: nat)
    requires i <= j < |t|
    ensures out + t[i..j] + [t[j]] == out + t[i..j + 1]
  {
    assert t[i..j + 1] == t[i..j] + [t[j]];
  }

  /** One round of `cJSON_Minify`, at a character that is not the last one. */
  method MinifyNext(json: array<char>, ghost t: string, into: nat, j: nat, ghost out: string) returns (into': nat, j': nat, ghost out': string)
    requires into <= j < |t| < json.Length && NulFree(t) && Kept(json, t, j) && |out| == into && json[..into] == out
    requires Minified(t, j).Some?
    modifies json
    ensures into' <= j' <= |t| && j < j' && Kept(json, t, j') && |out'| == into' && json[..into'] == out'
    ensures Minified(t, j').Some? && Ahead(out', Minified(t, j')) == Ahead(out, Minified(t, j))
  {
    hide Kept;
    KeptAt(json, t, j);
    into', j', out' := into, j, out;
    if json[j] == ' ' || json[j] == '\t' || json[j] == '\r' || json[j] == '\n' {
      KeptOn(json, t, j, j + 1);
      j' := j + 1;
    } else if json[j] == '/' && json[j + 1] == '/' {
      KeptOn(json, t, j, LineEnd(t, j));
      j' := SkipLine(json, t, j);
    } else if json[j] == '/' && json[j + 1] == '*' {
      KeptOn(json, t, j, CommentEnd(t, j).value);
      j' := SkipComment(json, t, j);
    } else if json[j] == '\"' {
      CopyDown(json, t, into, j);
      into', j' := CopyLiteral(json, t, into + 1, j + 1);
      assert [t[j]] + t[j + 1..j'] == t[j..j'];
      AheadJoins(out, t[j..j'], Minified(t, j'));
      assert out + [t[j]] + t[j + 1..j'] == out + t[j..j'];
      out' := out + t[j..j'];
    } else {
      AheadJoins(out, [t[j]], Minified(t, j + 1));
      CopyDown(json, t, into, j);
      into', j', out' := into + 1, j + 1, out + [t[j]];
    }
  }

  /** `cJSON_Minify`. */
  method Minify(json: array<char>, ghost t: string)
    requires Holds(json, t) && Minified(t, 0).Some?
    modifies json
    ensures Holds(json, Minified(t, 0).value)
  {
    hide Kept, Minified, Ahead;
    var j, into := 0, 0;
    ghost var out := "";
    AheadJoins("", "", Minified(t, 0));
    KeptAll(json, t);
    while json[j] != '\0'
      invariant into <= j <= |t| < json.Length && Kept(json, t, j) && |out| == into
      invariant json[j] == At(t, j) && (json[j] == '\0' <==> j == |t|)
      invariant json[..into] == out && Minified(t, 0) == Ahead(out, Minified(t, j)) && Minified(t, j).Some?
      decreases |t| - j
    {
      into, j, out := MinifyNext(json, t, into, j, out);
      KeptAt(json, t, j);
    }
    json[into] := '\0';
    AheadEnds(out, t, j);
    MinifiedNulFree(t, 0);
  }

  lemma {:induction false} MinifiedNulFree(t: string, i: nat)
    requires NulFree(t) && Minified(t, i).Some?
    ensures NulFree(Minified(t, i).value)
    decreases |t| - i
  {
    if i >= |t| {
    } else if IsBlank(t[i]) {
      MinifiedNulFree(t, i + 1);
    } else if t[i] == '/' && At(t, i + 1) == '/' {
      MinifiedNulFree(t, LineEnd(t, i));
    } else if t[i] == '/' && At(t, i + 1) == '*' {
      MinifiedNulFree(t, CommentEnd(t, i).value);
    } else if t[i] == '\"' {
      var e := LiteralEnd(t, i + 1).value;
      MinifiedNulFree(t, e);
      assert forall c | c in t[i..e] :: c in t;
    } else {
      MinifiedNulFree(t, i + 1);
      assert t[i] in t;
    }
  }

  lemma AheadEnds(out: string, t: string, j: nat)
    requires j >= |t|
    ensures Ahead(out, Minified(t, j)) == Some(out)
  {
    assert out + "" == out;
  }

  lemma KeptOn(json: array<char>, t: string, j: nat, k: nat)
    requires Kept(json, t, j) && j <= k
    ensures Kept(json, t, k)
  {
  }

  lemma KeptAll(json: array<char>, t: string)
    requires Holds(json, t)
    ensures Kept(json, t, 0)
    ensures json[0] == At(t, 0) && (json[0] == '\0' <==> 0 == |t|) && (0 < |t| ==> json[1] == At(t, 1))
  {
    forall k | 0 <= k <= |t| ensures json[k] == At(t, k) {
      assert k < |t| ==> json[..|t|][k] == json[k];
    }
    KeptAt(json, t, 0);
  }

  // What minifying does to a printed text.

  /** The text from `i` to `j` is turned into `w`. */
  predicate Gives(t: string, i: nat, w: string, j: nat) { Minified(t, i) == Ahead(w, Minified(t, j)) }

  lemma GivesJoin(t: string, i: nat, a: string, j: nat, b: string, k: nat)
    requires Gives(t, i, a, j) && Gives(t, j, b, k)
    ensures Gives(t, i, a + b, k)
  {
    AheadJoins(a, b, Minified(t, k));
  }

  lemma GivesNothing(t: string, i: nat)
    ensures Gives(t, i, "", i)
  {
    AheadJoins("", "", Minified(t, i));
  }

  lemma {:induction false} BlanksGo(t: string, i: nat, w: string)
    requires StartsAt(t, i, w) && forall c | c in w :: IsBlank(c)
    ensures Gives(t, i, "", i + |w|)
    decreases |w|
  {
    if w == "" {
      GivesNothing(t, i);
    } else {
      Head(t, i, w);
      assert w[0] in w && forall c | c in w[1..] :: c in w;
      BlanksGo(t, i + 1, w[1..]);
    }
  }

  predicate Solid(w: string) { forall c | c in w :: !IsBlank(c) && c != '/' && c != '\"' }

  lemma {:induction false} SolidStays(t: string, i: nat, w: string)
    requires StartsAt(t, i, w) && Solid(w)
    ensures Gives(t, i, w, i + |w|)
    decreases |w|
  {
    if w == "" {
      GivesNothing(t, i);
    } else {
      Head(t, i, w);
      assert w[0] in w && forall c | c in w[1..] :: c in w;
      SolidStays(t, i + 1, w[1..]);
      AheadJoins([w[0]], w[1..], Minified(t, i + |w|));
      assert [w[0]] + w[1..] == w;
    }
  }

  lemma {:induction false} LiteralOver(t: string, p: nat, s: string)
    requires NulFree(s) && StartsAt(t, p, Escaped(s) + "\"")
    ensures LiteralEnd(t, p) == Some(p + |Escaped(s)| + 1)
    decreases |s|
  {
    hide StartsAt, EscapedChar;
    Split(t, p, Escaped(s), "\"");
    FirstAt(t, p + |Escaped(s)|, "\"");
    if s != "" {
      var e, rest := EscapedChar(s[0]), Escaped(s[1..]);
      assert Escaped(s) + "\"" == e + (rest + "\"");
      Split(t, p, e, rest + "\"");
      CharOver(t, p, s[0]);
      LiteralOver(t, p + |e|, s[1..]);
    }
  }

  lemma CharOver(t: string, p: nat, c: char)
    requires c != '\0' && StartsAt(t, p, EscapedChar(c))
    ensures LiteralEnd(t, p) == LiteralEnd(t, p + |EscapedChar(c)|)
  {
    var e := EscapedChar(c);
    CharRead(t, p, c);
    if |e| > 2 {
      HexOver(t, p, c);
    }
  }

  lemma HexOver(t: string, p: nat, c: char)
    requires '\0' < c < ' ' && StartsAt(t, p, "\\u00" + [HexDigit(c as nat / 16), HexDigit(c as nat % 16)])
    ensures LiteralEnd(t, p) == LiteralEnd(t, p + 6)
  {
    var e := "\\u00" + [HexDigit(c as nat / 16), HexDigit(c as nat % 16)];
    var s := t[p..p + 6];
    assert s[0] == t[p] && s[2] == t[p + 2] && s[3] == t[p + 3] && s[4] == t[p + 4] && s[5] == t[p + 5];
    LiteralStep(t, p + 2);
    LiteralStep(t, p + 3);
    LiteralStep(t, p + 4);
    LiteralStep(t, p + 5);
  }

  lemma LiteralStep(t: string, p: nat)
    requires p < |t| && t[p] != '\"' && t[p] != '\\'
    ensures LiteralEnd(t, p) == LiteralEnd(t, p + 1)
  {
  }

  lemma QuotedStays(t: string, i: nat, s: string)
    requires NulFree(s) && StartsAt(t, i, Quoted(s))
    ensures Gives(t, i, Quoted(s), i + |Quoted(s)|)
  {
    Head(t, i, Quoted(s));
    Split(t, i, "\"", Escaped(s) + "\"");
    LiteralOver(t, i + 1, s);
  }

  lemma DecimalSolid(n: int)
    ensures Solid(Decimal(n))
  {
  }

  lemma {:induction false} TextMinified(v: Json, depth: nat, depth': nat, t: string, i: nat)
    requires Plain(v) && StartsAt(t, i, Text(v, depth, true))
    ensures Gives(t, i, Text(v, depth', false), i + |Text(v, depth, true)|)
    decreases v, 1
  {
    hide StartsAt, Gives, Quoted, Decimal, Pad, Newline, Elements, Members;
    match v
    case Null => SolidStays(t, i, "null");
    case False => SolidStays(t, i, "false");
    case True => SolidStays(t, i, "true");
    case Number(n, _) => DecimalSolid(n); SolidStays(t, i, Decimal(n));
    case String(s) => QuotedStays(t, i, s);
    case Array(c) =>
      Split(t, i, "[", Elements(c, depth + 1, true) + "]");
      Split(t, i + 1, Elements(c, depth + 1, true), "]");
      var b := i + 1 + |Elements(c, depth + 1, true)|;
      SolidStays(t, i, "[");
      ElementsMinified(c, depth + 1, depth' + 1, t, i + 1);
      SolidStays(t, b, "]");
      GivesJoin(t, i + 1, Elements(c, depth' + 1, false), b, "]", b + 1);
      GivesJoin(t, i, "[", i + 1, Elements(c, depth' + 1, false) + "]", b + 1);
    case Object(c) => ObjectMinified(c, depth, depth', t, i);
  }

  lemma {:induction false} ElementsMinified(c: Items, depth: nat, depth': nat, t: string, i: nat)
    requires PlainItems(c, true) && StartsAt(t, i, Elements(c, depth, true))
    ensures Gives(t, i, Elements(c, depth', false), i + |Elements(c, depth, true)|)
    decreases c, 0
  {
    hide StartsAt, Gives, Text, Separator;
    if c.End? {
      GivesNothing(t, i);
    } else {
      var w, comma, rest := Text(c.value, depth, true), Separator(c.next.End?, true), Elements(c.next, depth, true);
      var w', comma', rest' := Text(c.value, depth', false), Separator(c.next.End?, false), Elements(c.next, depth', false);
      var a := i + |w|;
      var b := a + |comma|;
      Split(t, i, w, comma + rest);
      Split(t, a, comma, rest);
      TextMinified(c.value, depth, depth', t, i);
      SeparatorMinified(t, a, c.next.End?);
      ElementsMinified(c.next, depth, depth', t, b);
      GivesJoin(t, a, comma', b, rest', b + |rest|);
      GivesJoin(t, i, w', a, comma' + rest', b + |rest|);
    }
  }

  lemma SeparatorMinified(t: string, i: nat, last: bool)
    requires StartsAt(t, i, Separator(last, true))
    ensures Gives(t, i, Separator(last, false), i + |Separator(last, true)|)
  {
    hide StartsAt, Gives;
    if last {
      GivesNothing(t, i);
    } else {
      assert Separator(last, true) == "," + " ";
      Split(t, i, ",", " ");
      SolidStays(t, i, ",");
      BlanksGo(t, i + 1, " ");
      GivesJoin(t, i, ",", i + 1, "", i + 2);
      assert "," + "" == Separator(last, false);
    }
  }

  lemma {:induction false} ObjectMinified(c: Items, depth: nat, depth': nat, t: string, i: nat)
    requires PlainItems(c, false) && StartsAt(t, i, Text(Object(c), depth, true))
    ensures Gives(t, i, Text(Object(c), depth', false), i + |Text(Object(c), depth, true)|)
    decreases c, 1
  {
    hide StartsAt, Gives, Members, Tabs;
    var inner, inner', pad := Members(c, depth + 1, true), Members(c, depth' + 1, false), Pad(if c.End? then depth - 1 else depth, true);
    var a := i + 2 + |inner|;
    var end := a + |pad| + 1;
    Split(t, i, "{", "\n" + (inner + (pad + "}")));
    Split(t, i + 1, "\n", inner + (pad + "}"));
    Split(t, i + 2, inner, pad + "}");
    Split(t, a, pad, "}");
    SolidStays(t, i, "{");
    BlanksGo(t, i + 1, "\n");
    MembersMinified(c, depth + 1, depth' + 1, t, i + 2);
    BlanksGo(t, a, pad);
    SolidStays(t, a + |pad|, "}");
    GivesJoin(t, a, "", a + |pad|, "}", end);
    GivesJoin(t, i + 2, inner', a, "" + "}", end);
    GivesJoin(t, i + 1, "", i + 2, inner' + ("" + "}"), end);
    GivesJoin(t, i, "{", i + 1, "" + (inner' + ("" + "}")), end);
  }

  lemma {:induction false} MembersMinified(c: Items, depth: nat, depth': nat, t: string, i: nat)
    requires PlainItems(c, false) && StartsAt(t, i, Members(c, depth, true))
    ensures Gives(t, i, Members(c, depth', false), i + |Members(c, depth, true)|)
    decreases c, 0
  {
    hide StartsAt, Gives, Text, Member;
    if c.End? {
      GivesNothing(t, i);
    } else {
      var w, w' := Text(c.value, depth, true), Text(c.value, depth', false);
      var m, m' := Member(c.name, w, c.next.End?, depth, true), Member(c.name, w', c.next.End?, depth', false);
      var rest, rest' := Members(c.next, depth, true), Members(c.next, depth', false);
      Split(t, i, m, rest);
      var r := ValueIn(t, i, c.name, w, c.next.End?, depth);
      TextMinified(c.value, depth, depth', t, r);
      MemberMinified(t, i, c.name, w, w', c.next.End?, depth, depth', r);
      MembersMinified(c.next, depth, depth', t, i + |m|);
      GivesJoin(t, i, m', i + |m|, rest', i + |m| + |rest|);
    }
  }

  lemma ValueIn(t: string, i: nat, name: string, w: string, last: bool, depth: nat) returns (r: nat)
    requires StartsAt(t, i, Member(name, w, last, depth, true))
    ensures r == i + |Pad(depth, true)| + |Quoted(name)| + 2 && StartsAt(t, r, w)
  {
    hide StartsAt, Pad, Quoted;
    var tail := Tail(last, true);
    r := i + |Pad(depth, true)| + |Quoted(name)| + 2;
    Split(t, i, Pad(depth, true), Quoted(name) + (":\t" + (w + tail)));
    Split(t, i + |Pad(depth, true)|, Quoted(name), ":\t" + (w + tail));
    Split(t, r - 2, ":\t", w + tail);
    Split(t, r, w, tail);
  }

  lemma MemberMinified(t: string, i: nat, name: string, w: string, w': string, last: bool, depth: nat, depth': nat, r: nat)
    requires NulFree(name) && StartsAt(t, i, Member(name, w, last, depth, true))
    requires r == i + |Pad(depth, true)| + |Quoted(name)| + 2 && Gives(t, r, w', r + |w|)
    ensures Gives(t, i, Member(name, w', last, depth', false), i + |Member(name, w, last, depth, true)|)
  {
    hide StartsAt, Gives, Quoted, Tabs, Tail;
    var pad, q, tail, tail' := Pad(depth, true), Quoted(name), Tail(last, true), Tail(last, false);
    var a := i + |pad|;
    var b := a + |q|;
    var e := r + |w|;
    var end := e + |tail|;
    Split(t, i, pad, q + (":\t" + (w + tail)));
    Split(t, a, q, ":\t" + (w + tail));
    Split(t, b, ":\t", w + tail);
    assert ":\t" == ":" + "\t";
    Split(t, b, ":", "\t");
    Split(t, r, w, tail);
    BlanksGo(t, i, pad);
    QuotedStays(t, a, name);
    SolidStays(t, b, ":");
    BlanksGo(t, b + 1, "\t");
    GivesJoin(t, b, ":", b + 1, "", r);
    TailMinified(t, e, last);
    GivesJoin(t, r, w', e, tail', end);
    GivesJoin(t, b, ":" + "", r, w' + tail', end);
    GivesJoin(t, a, q, b, (":" + "") + (w' + tail'), end);
    GivesJoin(t, i, "", a, q + ((":" + "") + (w' + tail')), end);
    assert ":" + "" == ":";
  }

  lemma TailMinified(t: string, i: nat, last: bool)
    requires StartsAt(t, i, Tail(last, true))
    ensures Gives(t, i, Tail(last, false), i + |Tail(last, true)|)
  {
    hide StartsAt, Gives;
    if last {
      assert Tail(last, true) == "\n" && Tail(last, false) == "";
      BlanksGo(t, i, "\n");
    } else {
      assert Tail(last, true) == "," + "\n" && Tail(last, false) == ",";
      Split(t, i, ",", "\n");
      SolidStays(t, i, ",");
      BlanksGo(t, i + 1, "\n");
      GivesJoin(t, i, ",", i + 1, "", i + 2);
      assert "," + "" == ",";
    }
  }

  /** Minifying the text for reading gives the short one. */
  lemma MinifyShortens(v: Json)
    requires Plain(v)
    ensures Minified(Text(v, 0, true), 0) == Some(Text(v, 0, false))
  {
    hide Text;
    var t := Text(v, 0, true);
    assert t[0..0 + |t|] == t;
    TextMinified(v, 0, 0, t, 0);
    AheadEnds(Text(v, 0, false), t, |t|);
  }
}
