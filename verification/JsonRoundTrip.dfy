/** Parsing the text of a value gives the value back. */
module JsonRoundTrip {
  import opened JsonText
  import opened JsonParse

  lemma Split(t: string, i: nat, a: string, b: string)
    ensures StartsAt(t, i, a + b) <==> StartsAt(t, i, a) && StartsAt(t, i + |a|, b)
  {
    if i + |a + b| <= |t| {
      assert t[i..i + |a + b|] == t[i..i + |a|] + t[i + |a|..i + |a| + |b|];
      if t[i..i + |a + b|] == a + b {
        assert (a + b)[..|a|] == a && (a + b)[|a|..] == b;
        assert t[i..i + |a|] == t[i..i + |a + b|][..|a|];
        assert t[i + |a|..i + |a| + |b|] == t[i..i + |a + b|][|a|..];
      }
    }
  }

  lemma Head(t: string, i: nat, w: string)
    requires StartsAt(t, i, w) && |w| > 0
    ensures i < |t| && t[i] == w[0] && StartsAt(t, i + 1, w[1..])
  {
    Split(t, i, [w[0]], w[1..]);
    assert w == [w[0]] + w[1..];
    assert t[i..i + |w|][0] == t[i];
  }

  lemma FirstAt(t: string, i: nat, w: string)
    requires |w| > 0
    ensures StartsAt(t, i, w) ==> i < |t| && At(t, i) == w[0]
  {
    if StartsAt(t, i, w) {
      Head(t, i, w);
    }
  }

  // Numbers.

  function Folded(s: string, n: nat): nat
    requires forall c | c in s :: IsDigit(c)
  {
    if s == "" then n else Folded(s[1..], n * 10 + DigitValue(s[0]))
  }

  lemma {:induction false} FoldedLast(s: string, c: char, n: nat)
    requires (forall x | x in s :: IsDigit(x)) && IsDigit(c)
    ensures (forall x | x in s + [c] :: IsDigit(x)) && Folded(s + [c], n) == Folded(s, n) * 10 + DigitValue(c)
  {
    if s != "" {
      assert (s + [c])[1..] == s[1..] + [c];
      FoldedLast(s[1..], c, n * 10 + DigitValue(s[0]));
    }
  }

  lemma {:induction false} NaturalFolded(n: nat)
    ensures Folded(Natural(n), 0) == n
    ensures if n == 0 then Natural(n) == "0" else '1' <= Natural(n)[0] <= '9'
  {
    if n >= 10 {
      NaturalFolded(n / 10);
      FoldedLast(Natural(n / 10), Digit(n % 10), 0);
    }
  }

  lemma {:induction false} DigitsRead(t: string, i: nat, s: string, n: nat)
    requires (forall c | c in s :: IsDigit(c)) && StartsAt(t, i, s) && !IsDigit(At(t, i + |s|))
    ensures DigitsFrom(t, i, n) == Read(Folded(s, n), i + |s|)
    decreases |s|
  {
    if s != "" {
      Head(t, i, s);
      DigitsRead(t, i + 1, s[1..], n * 10 + DigitValue(s[0]));
    }
  }

  /** Nothing that could go on a number. */
  predicate EndsNumber(c: char) { !IsDigit(c) && c != '.' && c != 'e' && c != 'E' }

  lemma NumberRead(t: string, i: nat, n: int)
    requires StartsAt(t, i, Decimal(n)) && EndsNumber(At(t, i + |Decimal(n)|))
    ensures i < |t| && (t[i] == '-' || IsDigit(t[i])) && ParseNumber(t, i) == Read(Number(n, 0), i + |Decimal(n)|)
  {
    hide DigitsFrom, StartsAt, Natural;
    var m := if n < 0 then -n else n;
    Head(t, i, Decimal(n));
    assert n < 0 ==> Decimal(n)[1..] == Natural(m);
    WholeRead(t, if n < 0 then i + 1 else i, m);
  }

  /** The digits of a number, at the place where its sign has been passed over. */
  lemma WholeRead(t: string, i: nat, m: nat)
    requires StartsAt(t, i, Natural(m)) && EndsNumber(At(t, i + |Natural(m)|))
    ensures i < |t| && IsDigit(t[i])
    ensures var i2 := if At(t, i) == '0' then i + 1 else i;
      (if '1' <= At(t, i2) <= '9' then DigitsFrom(t, i2, 0) else Read(0, i2)) == Read(m, i + |Natural(m)|)
  {
    hide DigitsFrom, StartsAt, Natural;
    var s := Natural(m);
    assert s[0] in s;
    FirstAt(t, i, s);
    NaturalFolded(m);
    if m != 0 {
      DigitsRead(t, i, s, 0);
    }
  }

  // Strings.

  lemma {:induction false} EscapedRead(t: string, p: nat, s: string)
    requires NulFree(s) && StartsAt(t, p, Escaped(s)) && At(t, p + |Escaped(s)|) == '\"'
    ensures Unescaped(t, p) == Some(Read(s, p + |Escaped(s)|))
    decreases |s|
  {
    hide StartsAt, EscapedChar, Unescape1;
    if s != "" {
      var e, rest := EscapedChar(s[0]), Escaped(s[1..]);
      Split(t, p, e, rest);
      EscapedRead(t, p + |e|, s[1..]);
      CharRead(t, p, s[0]);
      assert s == [s[0]] + s[1..];
    }
  }

  lemma CharRead(t: string, p: nat, c: char)
    requires c != '\0' && StartsAt(t, p, EscapedChar(c))
    ensures p < |t| && t[p] != '\"' && t[p] != '\0'
    ensures if t[p] == '\\' then Unescape1(t, p + 1) == Some(Read([c], p + |EscapedChar(c)|)) else t[p] == c && |EscapedChar(c)| == 1
  {
    var e := EscapedChar(c);
    Head(t, p, e);
    if |e| > 1 {
      Head(t, p + 1, e[1..]);
      if |e| > 2 {
        ControlRead(t, p, c);
      }
    }
  }

  lemma ControlRead(t: string, p: nat, c: char)
    requires '\0' < c < ' ' && StartsAt(t, p, "\\u00" + [HexDigit(c as nat / 16), HexDigit(c as nat % 16)])
    ensures Unicode(t, p + 1) == Some(Read([c], p + 6))
  {
    var e := "\\u00" + [HexDigit(c as nat / 16), HexDigit(c as nat % 16)];
    assert forall k | 0 <= k < 6 :: t[p + k] == t[p..p + 6][k] == e[k];
    assert t[p + 2] == '0' && t[p + 3] == '0' && t[p + 4] == HexDigit(c as nat / 16) && t[p + 5] == HexDigit(c as nat % 16);
    HexBack(c as nat / 16);
    HexBack(c as nat % 16);
    assert Hex4(t, p + 2) == c as nat;
  }

  lemma HexBack(d: nat)
    requires d < 16
    ensures HexValue(HexDigit(d)) == Some(d)
  {
  }

  lemma QuotedRead(t: string, i: nat, s: string)
    requires NulFree(s) && StartsAt(t, i, Quoted(s))
    ensures ParseString(t, i) == Some(Read(s, i + |Quoted(s)|)) && At(t, i) == '\"'
  {
    hide StartsAt, Escaped, Unescaped;
    Split(t, i, "\"", Escaped(s) + "\"");
    Split(t, i + 1, Escaped(s), "\"");
    FirstAt(t, i, "\"");
    FirstAt(t, i + 1 + |Escaped(s)|, "\"");
    EscapedRead(t, i + 1, s);
  }

  // Layout.

  predicate Blank(t: string, a: nat, b: nat) { a <= b <= |t| && forall k | a <= k < b :: '\0' < t[k] <= ' ' }

  lemma {:induction false} SkipBlank(t: string, a: nat, b: nat)
    requires Blank(t, a, b) && (At(t, b) == '\0' || At(t, b) > ' ')
    ensures Skip(t, a) == b
    decreases b - a
  {
    if a < b {
      SkipBlank(t, a + 1, b);
    }
  }

  lemma BlankAt(t: string, i: nat, w: string)
    requires StartsAt(t, i, w) && forall c | c in w :: '\0' < c <= ' '
    ensures Blank(t, i, i + |w|)
  {
    forall k | i <= k < i + |w| ensures t[k] in w {
      assert t[i..i + |w|][k - i] == t[k];
    }
  }

  /** The parts of a member: blanks, name, colon, blanks, value, comma if there is another one, blanks. */
  lemma MemberAt(t: string, i: nat, name: string, text: string, last: bool, depth: nat, fmt: bool) returns (q: nat, r: nat)
    requires StartsAt(t, i, Member(name, text, last, depth, fmt))
    ensures Blank(t, i, q) && StartsAt(t, q, Quoted(name)) && At(t, q + |Quoted(name)|) == ':'
    ensures Blank(t, q + |Quoted(name)| + 1, r) && StartsAt(t, r, text)
    ensures var e, end := r + |text|, i + |Member(name, text, last, depth, fmt)|;
      if last then Blank(t, e, end) else At(t, e) == ',' && Blank(t, e + 1, end)
  {
    hide StartsAt, Blank, Quoted, Pad, Colon, Tail;
    var pad, colon, tail := Pad(depth, fmt), Colon(fmt), Tail(last, fmt);
    q := i + |pad|;
    var c := q + |Quoted(name)|;
    r := c + |colon|;
    var end := r + |text|;
    Split(t, i, pad, Quoted(name) + (colon + (text + tail)));
    Split(t, q, Quoted(name), colon + (text + tail));
    Split(t, c, colon, text + tail);
    Split(t, r, text, tail);
    PadBlank(t, i, depth, fmt);
    ColonAt(t, c, fmt);
    TailAt(t, end, last, fmt);
  }

  lemma PadBlank(t: string, i: nat, n: int, fmt: bool)
    requires StartsAt(t, i, Pad(n, fmt))
    ensures Blank(t, i, i + |Pad(n, fmt)|)
  {
    BlankAt(t, i, Pad(n, fmt));
  }

  lemma ColonAt(t: string, i: nat, fmt: bool)
    requires StartsAt(t, i, Colon(fmt))
    ensures At(t, i) == ':' && Blank(t, i + 1, i + |Colon(fmt)|)
  {
    Head(t, i, Colon(fmt));
    BlankAt(t, i + 1, Colon(fmt)[1..]);
  }

  lemma TailAt(t: string, i: nat, last: bool, fmt: bool)
    requires StartsAt(t, i, Tail(last, fmt))
    ensures if last then Blank(t, i, i + |Tail(last, fmt)|) else At(t, i) == ',' && Blank(t, i + 1, i + |Tail(last, fmt)|)
  {
    if last {
      BlankAt(t, i, Tail(last, fmt));
    } else {
      Head(t, i, Tail(last, fmt));
      BlankAt(t, i + 1, Tail(last, fmt)[1..]);
    }
  }

  // Values.

  lemma TextStarts(v: Json, depth: nat, fmt: bool)
    ensures |Text(v, depth, fmt)| > 0 && ' ' < Text(v, depth, fmt)[0]
    ensures Text(v, depth, fmt)[0] !in {']', '}', ','}
  {
    if v.Number? {
      NaturalFolded(if v.digits < 0 then -v.digits else v.digits);
    }
  }

  lemma NoLiteral(t: string, i: nat)
    requires At(t, i) !in {'n', 'f', 't'}
    ensures !StartsAt(t, i, "null") && !StartsAt(t, i, "false") && !StartsAt(t, i, "true")
  {
    FirstAt(t, i, "null");
    FirstAt(t, i, "false");
    FirstAt(t, i, "true");
  }

  lemma {:induction false} ValueRead(v: Json, depth: nat, fmt: bool, t: string, i: nat)
    requires Plain(v) && StartsAt(t, i, Text(v, depth, fmt)) && EndsNumber(At(t, i + |Text(v, depth, fmt)|))
    ensures ParseValue(t, i) == Some(Read(v, i + |Text(v, depth, fmt)|))
    decreases v, 1
  {
    hide StartsAt, Decimal, Quoted, ParseArray, ParseObject, ParseNumber, ParseString, EndsNumber;
    match v
    case Null =>
    case False => NotBoth(t, i, "false", "null");
    case True => NotBoth(t, i, "true", "null"); NotBoth(t, i, "true", "false");
    case Number(n, _) => NumberRead(t, i, n); NoLiteral(t, i);
    case String(s) => QuotedRead(t, i, s); NoLiteral(t, i);
    case Array(c) => ArrayRead(c, depth, fmt, t, i); NoLiteral(t, i);
    case Object(c) => ObjectRead(c, depth, fmt, t, i); NoLiteral(t, i);
  }

  lemma NotBoth(t: string, i: nat, a: string, b: string)
    requires StartsAt(t, i, a) && |a| > 0 && |b| > 0 && a[0] != b[0]
    ensures !StartsAt(t, i, b)
  {
    FirstAt(t, i, a);
    FirstAt(t, i, b);
  }

  lemma {:induction false} ArrayRead(c: Items, depth: nat, fmt: bool, t: string, i: nat)
    requires PlainItems(c, true) && StartsAt(t, i, Text(Array(c), depth, fmt))
    ensures At(t, i) == '[' && ParseArray(t, i) == Some(Read(Array(c), i + |Text(Array(c), depth, fmt)|))
    decreases c, 2
  {
    hide StartsAt, Blank, Skip, ParseElements;
    var inner := Elements(c, depth + 1, fmt);
    Split(t, i, "[", inner + "]");
    Split(t, i + 1, inner, "]");
    FirstAt(t, i, "[");
    FirstAt(t, i + 1 + |inner|, "]");
    if c.Item? {
      ElementsStart(c, depth + 1, fmt, t, i + 1);
      ElementsRead(c, depth + 1, fmt, t, i + 1, i + 1);
    } else {
      SkipNone(t, i + 1);
    }
  }

  lemma SkipNone(t: string, i: nat)
    requires i <= |t| && (At(t, i) == '\0' || At(t, i) > ' ')
    ensures Skip(t, i) == i && Blank(t, i, i)
  {
  }

  lemma ElementsStart(c: Items, depth: nat, fmt: bool, t: string, i: nat)
    requires c.Item? && StartsAt(t, i, Elements(c, depth, fmt))
    ensures StartsAt(t, i, Text(c.value, depth, fmt))
    ensures At(t, i) > ' ' && At(t, i) !in {']', '}', ','} && Skip(t, i) == i && Blank(t, i, i)
  {
    hide StartsAt, Text, Separator;
    Split(t, i, Text(c.value, depth, fmt), Separator(c.next.End?, fmt) + Elements(c.next, depth, fmt));
    TextFirst(c.value, depth, fmt, t, i);
  }

  lemma TextFirst(v: Json, depth: nat, fmt: bool, t: string, i: nat)
    requires StartsAt(t, i, Text(v, depth, fmt))
    ensures i < |t| && At(t, i) > ' ' && At(t, i) !in {']', '}', ','} && Skip(t, i) == i && Blank(t, i, i)
  {
    TextStarts(v, depth, fmt);
    Head(t, i, Text(v, depth, fmt));
  }

  lemma {:induction false} ElementsRead(c: Items, depth: nat, fmt: bool, t: string, j: nat, i: nat)
    requires c.Item? && PlainItems(c, true) && StartsAt(t, i, Elements(c, depth, fmt)) && Blank(t, j, i)
    requires At(t, i + |Elements(c, depth, fmt)|) == ']'
    ensures ParseElements(t, j) == Some(Read(c, i + |Elements(c, depth, fmt)|))
    decreases c, 1
  {
    hide StartsAt, Blank, Skip, Text, Separator, ParseValue;
    var w, rest, comma := Text(c.value, depth, fmt), Elements(c.next, depth, fmt), Separator(c.next.End?, fmt);
    var e := i + |w|;
    Split(t, i, w, comma + rest);
    Split(t, e, comma, rest);
    TextFirst(c.value, depth, fmt, t, i);
    SkipBlank(t, j, i);
    SeparatorAt(t, e, c.next.End?, fmt);
    if c.next.Item? {
      ElementsRead(c.next, depth, fmt, t, e + 1, e + |comma|);
    }
    SkipNone(t, e);
    ValueRead(c.value, depth, fmt, t, i);
  }

  lemma SeparatorAt(t: string, i: nat, last: bool, fmt: bool)
    requires StartsAt(t, i, Separator(last, fmt))
    ensures i <= |t| && if last then Separator(last, fmt) == "" else At(t, i) == ',' && Blank(t, i + 1, i + |Separator(last, fmt)|)
  {
    if !last {
      Head(t, i, Separator(last, fmt));
      BlankAt(t, i + 1, Separator(last, fmt)[1..]);
    }
  }

  lemma {:induction false} ObjectRead(c: Items, depth: nat, fmt: bool, t: string, i: nat)
    requires PlainItems(c, false) && StartsAt(t, i, Text(Object(c), depth, fmt))
    ensures At(t, i) == '{' && ParseObject(t, i) == Some(Read(Object(c), i + |Text(Object(c), depth, fmt)|))
    decreases c, 2
  {
    hide StartsAt, Blank, Skip, ParseMembers, Pad, Newline, PlainItems, Members;
    var open, inner, pad := Newline(fmt), Members(c, depth + 1, fmt), Pad(if c.End? then depth - 1 else depth, fmt);
    var a := i + 1 + |open|;
    var b := a + |inner|;
    Split(t, i, "{", open + (inner + (pad + "}")));
    Split(t, i + 1, open, inner + (pad + "}"));
    Split(t, a, inner, pad + "}");
    Split(t, b, pad, "}");
    FirstAt(t, i, "{");
    FirstAt(t, b + |pad|, "}");
    NewlineBlank(t, i + 1, fmt);
    PadBlank(t, b, if c.End? then depth - 1 else depth, fmt);
    if c.Item? {
      var s := MembersRead(c, depth + 1, fmt, t, i + 1, a, b + |pad|);
    } else {
      NoMembers(depth + 1, fmt);
      BlankJoin(t, i + 1, a, b + |pad|);
      SkipBlank(t, i + 1, b + |pad|);
    }
  }

  lemma NoMembers(depth: nat, fmt: bool)
    ensures Members(End, depth, fmt) == ""
  {
  }

  lemma NewlineBlank(t: string, i: nat, fmt: bool)
    requires StartsAt(t, i, Newline(fmt))
    ensures Blank(t, i, i + |Newline(fmt)|)
  {
    BlankAt(t, i, Newline(fmt));
  }

  lemma BlankJoin(t: string, a: nat, b: nat, c: nat)
    requires Blank(t, a, b) && Blank(t, b, c)
    ensures Blank(t, a, c)
  {
  }

  /** The members start at `i`, behind some blanks from `j` on; the name of the first one is at `s`. */
  lemma {:induction false} MembersRead(c: Items, depth: nat, fmt: bool, t: string, j: nat, i: nat, close: nat) returns (s: nat)
    requires c.Item? && PlainItems(c, false) && StartsAt(t, i, Members(c, depth, fmt)) && Blank(t, j, i)
    requires Blank(t, i + |Members(c, depth, fmt)|, close) && At(t, close) == '}'
    ensures s == Skip(t, j) && At(t, s) == '\"' && ParseMembers(t, s) == ParseMembers(t, j) == Some(Read(c, close))
    decreases c, 1
  {
    hide StartsAt, Blank, Skip, Text, Member, ParseValue, ParseString, ParseMembers, Quoted, Plain, NulFree;
    var w := Text(c.value, depth, fmt);
    var m, rest := Member(c.name, w, c.next.End?, depth, fmt), Members(c.next, depth, fmt);
    Split(t, i, m, rest);
    var r;
    s, r := MemberAt(t, i, c.name, w, c.next.End?, depth, fmt);
    QuotedRead(t, s, c.name);
    QuotedFirst(t, s, c.name);
    BlankJoin(t, j, i, s);
    SkipBlank(t, j, s);
    var colon := s + |Quoted(c.name)|;
    SkipNone(t, colon);
    TextFirst(c.value, depth, fmt, t, r);
    SkipBlank(t, colon + 1, r);
    var e := r + |w|;
    if c.next.Item? {
      SkipNone(t, e);
      var s' := MembersRead(c.next, depth, fmt, t, e + 1, i + |m|, close);
    } else {
      BlankJoin(t, e, i + |m|, close);
      SkipBlank(t, e, close);
    }
    ValueRead(c.value, depth, fmt, t, r);
    MemberParsed(t, j, s, Read(c.name, colon), r, Read(c.value, e));
    MemberParsed(t, s, s, Read(c.name, colon), r, Read(c.value, e));
  }

  lemma MemberParsed(t: string, j: nat, s: nat, name: Read<string>, r: nat, v: Read<Json>)
    requires Skip(t, j) == s && ParseString(t, s) == Some(name) && Skip(t, name.end) == name.end && At(t, name.end) == ':'
    requires Skip(t, name.end + 1) == r && ParseValue(t, r) == Some(v)
    ensures var k := Skip(t, v.end);
      ParseMembers(t, j) ==
      if At(t, k) != ',' then Some(Read(Item(name.value, v.value, End), k)) else Preceded(name.value, v.value, ParseMembers(t, k + 1))
  {
    hide Skip, ParseString, ParseValue, Preceded;
  }

  lemma QuotedFirst(t: string, i: nat, s: string)
    requires StartsAt(t, i, Quoted(s))
    ensures i < |t| && Skip(t, i) == i && At(t, i) == '\"'
  {
    Head(t, i, Quoted(s));
  }

  /** The printed text of a value is read to its end, and gives the value back. */
  lemma RoundTrip(v: Json, fmt: bool, whole: bool)
    requires Plain(v)
    ensures Parsed(Text(v, 0, fmt), whole) == Some(Read(v, |Text(v, 0, fmt)|))
  {
    hide Text, ParseValue;
    var t := Text(v, 0, fmt);
    assert t[0..0 + |t|] == t;
    TextFirst(v, 0, fmt, t, 0);
    ValueRead(v, 0, fmt, t, 0);
    SkipNone(t, |t|);
  }

  /** Different values have different texts. */
  lemma TextDetermines(v: Json, v': Json, fmt: bool)
    requires Plain(v) && Plain(v') && Text(v, 0, fmt) == Text(v', 0, fmt)
    ensures v == v'
  {
    RoundTrip(v, fmt, true);
    RoundTrip(v', fmt, true);
  }

  // Escapes of code points.

  function Hex4Text(n: nat): (s: string)
    requires n < 0x10000
    ensures |s| == 4
  {
    [HexDigit(n / 0x1000), HexDigit(n / 0x100 % 16), HexDigit(n / 16 % 16), HexDigit(n % 16)]
  }

  /** A code point that is a character by itself: not zero, and no surrogate. */
  predicate Scalar(uc: nat) { 0 < uc < 0x110000 && !IsLow(uc) && !IsHigh(uc) }

  /** The code point in UTF-16, each unit escaped. */
  function Utf16Escaped(uc: nat): string
    requires Scalar(uc)
  {
    if uc < 0x10000 then Unit(uc) else Unit(0xD800 + (uc - 0x10000) / 0x400) + Unit(0xDC00 + (uc - 0x10000) % 0x400)
  }

  function Unit(n: nat): string
    requires n < 0x10000
  {
    "\\u" + Hex4Text(n)
  }

  lemma UnitAt(t: string, p: nat, n: nat)
    requires n < 0x10000 && StartsAt(t, p, Unit(n))
    ensures |Unit(n)| == 6 && p + 6 <= |t| && t[p] == '\\' && t[p + 1] == 'u' && Hex4(t, p + 2) == n
  {
    hide StartsAt, Hex4, Hex4Text;
    Split(t, p, "\\u", Hex4Text(n));
    Head(t, p, "\\u");
    FirstAt(t, p + 1, "\\u"[1..]);
    Hex4Back(t, p + 2, n);
  }

  lemma Hex4Back(t: string, i: nat, n: nat)
    requires n < 0x10000 && StartsAt(t, i, Hex4Text(n))
    ensures i + 4 <= |t| && Hex4(t, i) == n
  {
    FourAt(t, i, Hex4Text(n));
    hide StartsAt, HexValue, HexDigit;
    HexBack(n / 0x1000);
    HexBack(n / 0x100 % 16);
    HexBack(n / 16 % 16);
    HexBack(n % 16);
    FourDigits(n);
  }

  lemma FourAt(t: string, i: nat, w: string)
    requires |w| == 4 && StartsAt(t, i, w)
    ensures i + 4 <= |t| && At(t, i) == w[0] && At(t, i + 1) == w[1] && At(t, i + 2) == w[2] && At(t, i + 3) == w[3]
  {
    var s := t[i..i + 4];
    assert s[0] == t[i] && s[1] == t[i + 1] && s[2] == t[i + 2] && s[3] == t[i + 3];
  }

  lemma FourDigits(n: nat)
    ensures ((n / 0x1000 * 16 + n / 0x100 % 16) * 16 + n / 16 % 16) * 16 + n % 16 == n
  {
    assert n / 0x100 / 16 == n / 0x1000 && n / 16 / 16 == n / 0x100;
  }

  /** Escapes of UTF-16 units are read as UTF-8. */
  lemma Utf16BecomesUtf8(t: string, p: nat, uc: nat)
    requires Scalar(uc) && StartsAt(t, p, Utf16Escaped(uc))
    ensures At(t, p) == '\\' && Unescape1(t, p + 1) == Some(Read(Utf8(uc), p + |Utf16Escaped(uc)|))
  {
    hide StartsAt, Hex4, Utf8, Unit;
    if uc < 0x10000 {
      UnitAt(t, p, uc);
    } else {
      var high, low := 0xD800 + (uc - 0x10000) / 0x400, 0xDC00 + (uc - 0x10000) % 0x400;
      Split(t, p, Unit(high), Unit(low));
      UnitAt(t, p, high);
      UnitAt(t, p + 6, low);
      assert Paired(high, low) == uc;
    }
  }

  /** The bits after a mark of `mark` in a leading or a following byte. */
  function Payload(c: char, mark: nat, size: nat): Option<nat> {
    if mark <= c as nat < mark + size then Some(c as nat - mark) else None
  }

  /** Reads one code point by the table in section 3 of RFC 3629; longer forms than needed and surrogates do not count. */
  function Utf8Read(s: string): Option<nat> {
    if |s| == 1 then Payload(s[0], 0, 0x80)
    else if |s| == 2 then
      var a, b := Payload(s[0], 0xC0, 32), Payload(s[1], 0x80, 64);
      if a.Some? && b.Some? && a.value >= 2 then Some(a.value * 64 + b.value) else None
    else if |s| == 3 then
      var a, b, c := Payload(s[0], 0xE0, 16), Payload(s[1], 0x80, 64), Payload(s[2], 0x80, 64);
      if a.None? || b.None? || c.None? then None
      else
        var n := (a.value * 64 + b.value) * 64 + c.value;
        if n >= 0x800 && !IsLow(n) && !IsHigh(n) then Some(n) else None
    else if |s| == 4 then
      var a, b, c, d := Payload(s[0], 0xF0, 8), Payload(s[1], 0x80, 64), Payload(s[2], 0x80, 64), Payload(s[3], 0x80, 64);
      if a.None? || b.None? || c.None? || d.None? then None
      else
        var n := ((a.value * 64 + b.value) * 64 + c.value) * 64 + d.value;
        if 0x10000 <= n < 0x110000 then Some(n) else None
    else None
  }

  lemma Utf8IsStandard(uc: nat)
    requires Scalar(uc)
    ensures Utf8Read(Utf8(uc)) == Some(uc)
  {
  }

  // The space that is set aside for a string.

  /** What the first loop of `parse_string` counts: an escape as one, without the character behind the backslash. */
  function Counted(t: string, p: nat): nat
    decreases |t| - p
  {
    if p >= |t| || t[p] == '\"' || t[p] == '\0' then 0
    else if t[p] == '\\' then 1 + Counted(t, p + 2)
    else 1 + Counted(t, p + 1)
  }

  predicate HexDigits(t: string, i: nat) { i + 4 <= |t| && forall k | i <= k < i + 4 :: HexValue(t[k]).Some? }

  /** Every `\u` up to the end of the string has its four digits. */
  predicate Complete(t: string, p: nat)
    decreases |t| - p
  {
    if p >= |t| || t[p] == '\"' || t[p] == '\0' then true
    else if t[p] != '\\' then Complete(t, p + 1)
    else if At(t, p + 1) == 'u' then HexDigits(t, p + 2) && Complete(t, p + 6)
    else Complete(t, p + 2)
  }

  lemma DigitsCounted(t: string, i: nat)
    requires HexDigits(t, i)
    ensures Counted(t, i) == 4 + Counted(t, i + 4)
  {
    DigitCounted(t, i);
    DigitCounted(t, i + 1);
    DigitCounted(t, i + 2);
    DigitCounted(t, i + 3);
  }

  lemma DigitCounted(t: string, i: nat)
    requires i < |t| && HexValue(t[i]).Some?
    ensures Counted(t, i) == 1 + Counted(t, i + 1)
  {
  }

  /** With complete escapes the string fits in the space that was counted for it. */
  lemma {:induction false} StringFits(t: string, p: nat)
    requires Complete(t, p) && Unescaped(t, p).Some?
    ensures |Unescaped(t, p).value.value| <= Counted(t, p)
    decreases |t| - p
  {
    if p >= |t| || t[p] == '\"' || t[p] == '\0' {
    } else if t[p] != '\\' {
      StringFits(t, p + 1);
    } else if At(t, p + 1) == 'u' {
      DigitsCounted(t, p + 2);
      var e := Unicode(t, p + 1).value;
      if e.end == p + 12 {
        assert t[p + 6] == '\\' && t[p + 7] == 'u';
        DigitsCounted(t, p + 8);
      }
      StringFits(t, e.end);
    } else {
      StringFits(t, p + 2);
    }
  }
}
