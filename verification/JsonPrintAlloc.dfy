/** Putting the texts of children together. */
module JsonPrintAlloc {
  import opened JsonText
  import opened JsonMinify
  import opened JsonPrint

  lemma {:induction false} TextNulFree(v: Json, depth: nat, fmt: bool)
    requires Plain(v)
    ensures NulFree(Text(v, depth, fmt))
    decreases v, 1
  {
    match v
    case Number(n, _) => DecimalFits(n);
    case String(s) => QuotedIsNulFree(s);
    case Array(c) => ElementsNulFree(c, depth + 1, fmt);
    case Object(c) => MembersNulFree(c, depth + 1, fmt);
    case _ =>
  }

  lemma {:induction false} ElementsNulFree(c: Items, depth: nat, fmt: bool)
    requires PlainItems(c, true)
    ensures NulFree(Elements(c, depth, fmt))
    decreases c, 0
  {
    if c.Item? {
      TextNulFree(c.value, depth, fmt);
      ElementsNulFree(c.next, depth, fmt);
    }
  }

  lemma {:induction false} MembersNulFree(c: Items, depth: nat, fmt: bool)
    requires PlainItems(c, false)
    ensures NulFree(Members(c, depth, fmt))
    decreases c, 0
  {
    if c.Item? {
      QuotedIsNulFree(c.name);
      TextNulFree(c.value, depth, fmt);
      MembersNulFree(c.next, depth, fmt);
    }
  }

  function Drop(c: Items, k: nat): Items
    decreases k
  {
    if k == 0 || c.End? then c else Drop(c.next, k - 1)
  }

  lemma {:induction false} DropOne(c: Items, k: nat)
    requires Drop(c, k).Item?
    ensures Drop(c, k + 1) == Drop(c, k).next
    decreases k
  {
    if k > 0 {
      DropOne(c.next, k - 1);
    }
  }

  /** The texts of the first children. */
  ghost predicate Texts(entries: seq<array<char>>, c: Items, depth: nat, fmt: bool)
    reads set a | a in entries
  {
    forall k | 0 <= k < |entries| :: Drop(c, k).Item? && Holds(entries[k], Text(Drop(c, k).value, depth, fmt))
  }

  lemma TextsMore(entries: seq<array<char>>, c: Items, depth: nat, fmt: bool, ret: array<char>)
    requires Texts(entries, c, depth, fmt) && Drop(c, |entries|).Item? && Holds(ret, Text(Drop(c, |entries|).value, depth, fmt))
    ensures Texts(entries + [ret], c, depth, fmt)
  {
  }

  lemma TextAt(entries: seq<array<char>>, c: Items, depth: nat, fmt: bool, k: nat)
    requires Texts(entries, c, depth, fmt) && k < |entries| && Drop(c, |entries|).End?
    ensures Drop(c, k).next.End? <==> k == |entries| - 1
    ensures Drop(c, k).Item? && Holds(entries[k], Text(Drop(c, k).value, depth, fmt)) && Drop(c, k + 1) == Drop(c, k).next
  {
    DropOne(c, k);
  }

  /** What the first loop of `print_array` adds up for the children. */
  function ElementsSize(c: Items, depth: nat, fmt: bool): nat {
    if c.End? then 0 else |Text(c.value, depth, fmt)| + 2 + (if fmt then 1 else 0) + ElementsSize(c.next, depth, fmt)
  }

  lemma {:induction false} ElementsFit(c: Items, depth: nat, fmt: bool)
    ensures |Elements(c, depth, fmt)| <= ElementsSize(c, depth, fmt)
  {
    if c.Item? {
      ElementsFit(c.next, depth, fmt);
    }
  }

  /** `print_value` without a buffer. */
  method PrintValue(item: Json, depth: nat, fmt: bool) returns (out: array<char>)
    requires Plain(item)
    ensures fresh(out) && Holds(out, Text(item, depth, fmt))
    decreases Size(item), 1
  {
    match item
    case Null => out := PrintLiteral("null");
    case False => out := PrintLiteral("false");
    case True => out := PrintLiteral("true");
    case Number(n, _) => out := PrintNumber(n);
    case String(s) => out := PrintString(s);
    case Array(c) => out := PrintArray(c, depth, fmt);
    case Object(c) => out := PrintObject(c, depth, fmt);
  }

  /** `cJSON_strdup`. */
  method PrintLiteral(w: string) returns (out: array<char>)
    requires NulFree(w)
    ensures fresh(out) && Holds(out, w)
  {
    out := new char[|w| + 1];
    var end := PutString(out, "", 0, w);
    assert "" + w == w;
  }

  /** `print_array` without a buffer. */
  method PrintArray(c: Items, depth: nat, fmt: bool) returns (out: array<char>)
    requires PlainItems(c, true)
    ensures fresh(out) && Holds(out, Text(Array(c), depth, fmt))
    decreases ItemsSize(c), 2
  {
    if c.End? {
      out := PrintLiteral("[]");
      return;
    }
    var entries, len := PrintElements(c, depth + 1, fmt);
    ElementsFit(c, depth + 1, fmt);
    out := new char[len];
    ComposeArray(out, entries, c, depth + 1, fmt);
    TextNulFree(Array(c), depth, fmt);
  }

  /** The texts of all elements, and the space that they need. */
  method PrintElements(c: Items, depth: nat, fmt: bool) returns (entries: seq<array<char>>, len: nat)
    requires PlainItems(c, true)
    ensures Texts(entries, c, depth, fmt) && Drop(c, |entries|).End? && len == 5 + ElementsSize(c, depth, fmt)
    ensures forall a | a in entries :: fresh(a)
    decreases ItemsSize(c), 1
  {
    hide Texts, Holds, Text;
    entries, len := [], 5;
    assert Texts([], c, depth, fmt) by {
      NoTexts(c, depth, fmt);
    }
    var child := c;
    while child.Item?
      invariant child == Drop(c, |entries|) && PlainItems(child, true) && ItemsSize(child) <= ItemsSize(c)
      invariant Texts(entries, c, depth, fmt) && len + ElementsSize(child, depth, fmt) == 5 + ElementsSize(c, depth, fmt)
      invariant forall a | a in entries :: fresh(a)
      decreases child
    {
      DropOne(c, |entries|);
      var ret := PrintValue(child.value, depth, fmt);
      TextsMore(entries, c, depth, fmt, ret);
      entries := entries + [ret];
      var n := Strlen(ret, Text(child.value, depth, fmt));
      len := len + n + 2 + (if fmt then 1 else 0);
      child := child.next;
    }
  }

  lemma NoTexts(c: Items, depth: nat, fmt: bool)
    ensures Texts([], c, depth, fmt) && Names([], c)
  {
  }

  /** The loop of `print_array` that composes the text. */
  method ComposeArray(out: array<char>, entries: seq<array<char>>, c: Items, depth: nat, fmt: bool)
    requires Texts(entries, c, depth, fmt) && Drop(c, |entries|).End? && out !in entries
    requires |Elements(c, depth, fmt)| + 3 <= out.Length
    modifies out
    ensures Begins(out, "[" + (Elements(c, depth, fmt) + "]")) && out[|Elements(c, depth, fmt)| + 2] == '\0'
  {
    hide Texts, Holds, Text, Begins, Separator, Elements;
    NoText(out);
    Put(out, "", 0, '[');
    var ptr := 1;
    ghost var all, done := Elements(c, depth, fmt), "";
    assert "[" + done == "" + ['['];
    assert done + all == all;
    for i := 0 to |entries|
      invariant done + Elements(Drop(c, i), depth, fmt) == all
      invariant Begins(out, "[" + done) && ptr == 1 + |done|
      invariant Texts(entries, c, depth, fmt)
    {
      TextAt(entries, c, depth, fmt, i);
      ghost var child := Drop(c, i);
      ghost var element := Element(child, depth, fmt);
      ElementFirst(child, depth, fmt);
      Assoc(done, element, Elements(child.next, depth, fmt));
      ptr := ComposeElement(out, "[" + done, ptr, entries[i], child, i == |entries| - 1, depth, fmt);
      Assoc("[", done, element);
      done := done + element;
    }
    NoElements(depth, fmt);
    assert done + "" == done;
    Put(out, "[" + done, ptr, ']');
    Assoc("[", done, "]");
    PutNul(out, "[" + (done + "]"), ptr + 1);
  }

  /** The text of one element, and what is behind it. */
  function Element(c: Items, depth: nat, fmt: bool): string
    requires c.Item?
  {
    Text(c.value, depth, fmt) + Separator(c.next.End?, fmt)
  }

  lemma ElementFirst(c: Items, depth: nat, fmt: bool)
    requires c.Item?
    ensures Elements(c, depth, fmt) == Element(c, depth, fmt) + Elements(c.next, depth, fmt)
  {
    Assoc(Text(c.value, depth, fmt), Separator(c.next.End?, fmt), Elements(c.next, depth, fmt));
  }

  lemma NoElements(depth: nat, fmt: bool)
    ensures Elements(End, depth, fmt) == "" && Members(End, depth, fmt) == ""
  {
  }

  /** One round of the loop that composes an array. */
  method ComposeElement(out: array<char>, ghost s: string, at: nat, entry: array<char>, ghost c: Items, last: bool, depth: nat, fmt: bool)
    returns (ptr: nat)
    requires c.Item? && Begins(out, s) && at == |s| && Holds(entry, Text(c.value, depth, fmt)) && out != entry && last == c.next.End?
    requires at + |Element(c, depth, fmt)| <= out.Length
    modifies out
    ensures Begins(out, s + Element(c, depth, fmt)) && ptr == at + |Element(c, depth, fmt)|
  {
    hide Holds, Begins, Separator, Text;
    ghost var w := Text(c.value, depth, fmt);
    var tmplen := Strlen(entry, w);
    ptr := PutText(out, s, at, entry, tmplen, w);
    ptr := PutSeparator(out, s + w, ptr, last, fmt);
    Assoc(s, w, Separator(last, fmt));
  }

  lemma NoText(a: array<char>)
    ensures Begins(a, "")
  {
  }

  method PutSeparator(out: array<char>, ghost s: string, at: nat, last: bool, fmt: bool) returns (end: nat)
    requires Begins(out, s) && at == |s| && at + |Separator(last, fmt)| <= out.Length
    modifies out
    ensures Begins(out, s + Separator(last, fmt)) && end == at + |Separator(last, fmt)|
  {
    end := at;
    assert last ==> s + Separator(last, fmt) == s;
    if !last {
      Put(out, s, end, ',');
      end := end + 1;
      assert !fmt ==> s + [','] == s + Separator(last, fmt);
      if fmt {
        Put(out, s + [','], end, ' ');
        end := end + 1;
        assert s + [','] + [' '] == s + Separator(last, fmt);
      }
    }
  }

  /** What the first loop of `print_object` adds up for the members. */
  function MembersSize(c: Items, depth: nat, fmt: bool): nat {
    if c.End? then 0
    else |Text(c.value, depth, fmt)| + |Quoted(c.name)| + 2 + (if fmt then 2 + depth else 0) + MembersSize(c.next, depth, fmt)
  }

  lemma {:induction false} MembersFit(c: Items, depth: nat, fmt: bool)
    ensures |Members(c, depth, fmt)| <= MembersSize(c, depth, fmt)
  {
    if c.Item? {
      MembersFit(c.next, depth, fmt);
    }
  }

  ghost predicate Names(names: seq<array<char>>, c: Items)
    reads set a | a in names
  {
    forall k | 0 <= k < |names| :: Drop(c, k).Item? && Holds(names[k], Quoted(Drop(c, k).name))
  }

  /** `print_object` without a buffer. */
  method PrintObject(c: Items, depth0: nat, fmt: bool) returns (out: array<char>)
    requires PlainItems(c, false)
    ensures fresh(out) && Holds(out, Text(Object(c), depth0, fmt))
    decreases ItemsSize(c), 2
  {
    TextNulFree(Object(c), depth0, fmt);
    if c.End? {
      out := PrintEmptyObject(depth0, fmt);
      return;
    }
    hide Texts, Names, NulFree;
    var depth := depth0 + 1;
    var names, entries, len := PrintMembers(c, depth, fmt);
    MembersFit(c, depth, fmt);
    out := new char[len];
    ComposeObject(out, names, entries, c, depth, fmt);
  }

  method PrintEmptyObject(depth: nat, fmt: bool) returns (out: array<char>)
    ensures fresh(out) && Holds(out, Text(Object(End), depth, fmt))
  {
    TextNulFree(Object(End), depth, fmt);
    out := new char[if fmt then depth + 4 else 3];
    PutEmptyObject(out, "", 0, depth, fmt);
    assert "" + Text(Object(End), depth, fmt) == Text(Object(End), depth, fmt);
  }

  /** The text of an empty object. */
  method PutEmptyObject(a: array<char>, ghost s: string, at: nat, depth: nat, fmt: bool)
    requires Begins(a, s) && at == |s| && at + (if fmt then depth + 4 else 3) <= a.Length
    modifies a
    ensures Begins(a, s + Text(Object(End), depth, fmt)) && a[at + |Text(Object(End), depth, fmt)|] == '\0'
  {
    Put(a, s, at, '{');
    var ptr := at + 1;
    if fmt {
      Put(a, s + ['{'], ptr, '\n');
      ptr := PutTabs(a, s + ['{'] + ['\n'], ptr + 1, depth - 1);
    }
    ghost var done := s + ['{'] + (if fmt then ['\n'] + Tabs(depth - 1) else []);
    assert fmt ==> done == s + ['{'] + ['\n'] + Tabs(depth - 1);
    assert !fmt ==> done == s + ['{'];
    Put(a, done, ptr, '}');
    assert done + ['}'] == s + Text(Object(End), depth, fmt);
    a[ptr + 1] := '\0';
  }

  /** The texts of all names and values, and the space that they need. */
  method PrintMembers(c: Items, depth: nat, fmt: bool) returns (names: seq<array<char>>, entries: seq<array<char>>, len: nat)
    requires PlainItems(c, false)
    ensures Texts(entries, c, depth, fmt) && Names(names, c) && |names| == |entries| && Drop(c, |entries|).End?
    ensures len == 7 + (if fmt then depth else 0) + MembersSize(c, depth, fmt)
    ensures forall a | a in entries :: fresh(a)
    ensures forall a | a in names :: fresh(a)
    decreases ItemsSize(c), 1
  {
    hide Texts, Names, Holds, Text, Quoted;
    names, entries, len := [], [], 7 + if fmt then depth else 0;
    NoTexts(c, depth, fmt);
    var child := c;
    while child.Item?
      invariant |names| == |entries| && child == Drop(c, |entries|) && PlainItems(child, false) && ItemsSize(child) <= ItemsSize(c)
      invariant Texts(entries, c, depth, fmt) && Names(names, c)
      invariant len + MembersSize(child, depth, fmt) == 7 + (if fmt then depth else 0) + MembersSize(c, depth, fmt)
      invariant forall a | a in entries :: fresh(a)
      invariant forall a | a in names :: fresh(a)
      decreases child
    {
      DropOne(c, |entries|);
      var str := PrintString(child.name);
      var ret := PrintValue(child.value, depth, fmt);
      TextsMore(entries, c, depth, fmt, ret);
      NamesMore(names, c, str);
      names, entries := names + [str], entries + [ret];
      var n := Strlen(ret, Text(child.value, depth, fmt));
      var k := Strlen(str, Quoted(child.name));
      len := len + n + k + 2 + (if fmt then 2 + depth else 0);
      child := child.next;
    }
  }

  lemma NamesMore(names: seq<array<char>>, c: Items, str: array<char>)
    requires Names(names, c) && Drop(c, |names|).Item? && Holds(str, Quoted(Drop(c, |names|).name))
    ensures Names(names + [str], c)
  {
  }

  lemma NameAt(names: seq<array<char>>, c: Items, k: nat)
    requires Names(names, c) && k < |names|
    ensures Drop(c, k).Item? && Holds(names[k], Quoted(Drop(c, k).name))
  {
  }

  /** The part of `print_object` that composes the text. */
  method ComposeObject(out: array<char>, names: seq<array<char>>, entries: seq<array<char>>, c: Items, depth: nat, fmt: bool)
    requires c.Item? && depth > 0 && Texts(entries, c, depth, fmt) && Names(names, c) && |names| == |entries| && Drop(c, |entries|).End?
    requires out !in entries && out !in names && |Members(c, depth, fmt)| + (if fmt then 4 + depth else 3) <= out.Length
    modifies out
    ensures Begins(out, Text(Object(c), depth - 1, fmt)) && |Text(Object(c), depth - 1, fmt)| < out.Length
    ensures out[|Text(Object(c), depth - 1, fmt)|] == '\0'
  {
    var ptr := PutOpen(out, "", 0, fmt);
    assert "" + ("{" + Newline(fmt)) == "{" + Newline(fmt);
    ObjectIs(c, depth - 1, fmt);
    hide Texts, Names, Begins, Members, Newline, Pad, Text;
    ghost var open, all, pad := "{" + Newline(fmt), Members(c, depth, fmt), Pad(depth - 1, fmt);
    ptr := ComposeMembers(out, open, ptr, names, entries, c, depth, fmt);
    ptr := PutPad(out, open + all, ptr, depth - 1, fmt);
    Put(out, open + all + pad, ptr, '}');
    PutNul(out, open + all + pad + ['}'], ptr + 1);
  }

  method ComposeMembers(out: array<char>, ghost open: string, at: nat, names: seq<array<char>>, entries: seq<array<char>>, c: Items, depth: nat, fmt: bool)
    returns (ptr: nat)
    requires Texts(entries, c, depth, fmt) && Names(names, c) && |names| == |entries| && Drop(c, |entries|).End?
    requires out !in entries && out !in names && Begins(out, open) && at == |open| && at + |Members(c, depth, fmt)| <= out.Length
    modifies out
    ensures Begins(out, open + Members(c, depth, fmt)) && ptr == at + |Members(c, depth, fmt)|
  {
    hide Texts, Names, Holds, Begins, Member, Members, Text, Quoted;
    ghost var all, done := Members(c, depth, fmt), "";
    assert open + done == open;
    assert done + all == all;
    ptr := at;
    for i := 0 to |entries|
      invariant done + Members(Drop(c, i), depth, fmt) == all
      invariant Begins(out, open + done) && ptr == |open| + |done|
      invariant Texts(entries, c, depth, fmt) && Names(names, c)
    {
      TextAt(entries, c, depth, fmt, i);
      NameAt(names, c, i);
      ghost var child := Drop(c, i);
      ghost var w := Text(child.value, depth, fmt);
      ghost var member := Member(child.name, w, child.next.End?, depth, fmt);
      MemberFirst(child, depth, fmt);
      Assoc(done, member, Members(child.next, depth, fmt));
      ptr := ComposeMember(out, open + done, ptr, names[i], entries[i], child.name, w, i == |entries| - 1, depth, fmt);
      Assoc(open, done, member);
      done := done + member;
    }
    NoElements(depth, fmt);
    assert done + "" == done;
  }

  lemma MemberFirst(c: Items, depth: nat, fmt: bool)
    requires c.Item?
    ensures Members(c, depth, fmt) == Member(c.name, Text(c.value, depth, fmt), c.next.End?, depth, fmt) + Members(c.next, depth, fmt)
  {
  }

  lemma ObjectIs(c: Items, depth: nat, fmt: bool)
    requires c.Item?
    ensures "{" + Newline(fmt) + Members(c, depth + 1, fmt) + Pad(depth, fmt) + ['}'] == Text(Object(c), depth, fmt)
  {
    var open, all, pad := Newline(fmt), Members(c, depth + 1, fmt), Pad(depth, fmt);
    Assoc("{", open, all);
    Assoc("{", open + all, pad);
    Assoc("{", open + all + pad, "}");
    Assoc(open, all, pad);
    Assoc(open, all + pad, "}");
    Assoc(all, pad, "}");
  }

  method PutOpen(out: array<char>, ghost s: string, at: nat, fmt: bool) returns (ptr: nat)
    requires Begins(out, s) && at == |s| && at + 1 + |Newline(fmt)| <= out.Length
    modifies out
    ensures Begins(out, s + ("{" + Newline(fmt))) && ptr == at + 1 + |Newline(fmt)|
  {
    Put(out, s, at, '{');
    ptr := at + 1;
    assert !fmt ==> s + ['{'] == s + ("{" + Newline(fmt));
    if fmt {
      Put(out, s + ['{'], ptr, '\n');
      ptr := ptr + 1;
      assert s + ['{'] + ['\n'] == s + ("{" + Newline(fmt));
    }
  }

  method PutPad(out: array<char>, ghost s: string, at: nat, n: nat, fmt: bool) returns (end: nat)
    requires Begins(out, s) && at == |s| && at + |Pad(n, fmt)| <= out.Length
    modifies out
    ensures Begins(out, s + Pad(n, fmt)) && end == at + |Pad(n, fmt)|
  {
    end := at;
    assert !fmt ==> s + Pad(n, fmt) == s;
    if fmt {
      end := PutTabs(out, s, at, n);
    }
  }

  method PutColon(out: array<char>, ghost s: string, at: nat, fmt: bool) returns (end: nat)
    requires Begins(out, s) && at == |s| && at + |Colon(fmt)| <= out.Length
    modifies out
    ensures Begins(out, s + Colon(fmt)) && end == at + |Colon(fmt)|
  {
    Put(out, s, at, ':');
    end := at + 1;
    if fmt {
      Put(out, s + [':'], end, '\t');
      end := end + 1;
      assert s + [':'] + ['\t'] == s + Colon(fmt);
    }
  }

  method PutTail(out: array<char>, ghost s: string, at: nat, last: bool, fmt: bool) returns (end: nat)
    requires Begins(out, s) && at == |s| && at + |Tail(last, fmt)| <= out.Length
    modifies out
    ensures Begins(out, s + Tail(last, fmt)) && end == at + |Tail(last, fmt)|
  {
    end := at;
    ghost var t := s + (if last then "" else ",");
    assert last ==> t == s;
    if !last {
      Put(out, s, end, ',');
      end := end + 1;
    }
    assert !fmt ==> t == s + Tail(last, fmt);
    if fmt {
      Put(out, t, end, '\n');
      end := end + 1;
      assert t + ['\n'] == s + Tail(last, fmt);
    }
  }

  /** One round of the loop that composes an object. */
  method ComposeMember(out: array<char>, ghost s: string, at: nat, name: array<char>, entry: array<char>, ghost n: string, ghost w: string,
      last: bool, depth: nat, fmt: bool) returns (ptr: nat)
    requires Begins(out, s) && at == |s| && Holds(name, Quoted(n)) && Holds(entry, w) && out != name && out != entry
    requires at + |Member(n, w, last, depth, fmt)| <= out.Length
    modifies out
    ensures Begins(out, s + Member(n, w, last, depth, fmt)) && ptr == at + |Member(n, w, last, depth, fmt)|
  {
    hide Begins, Holds, Pad, Colon, Tail, Quoted;
    ghost var a, b, d, e := s + Pad(depth, fmt), s + Pad(depth, fmt) + Quoted(n), s + Pad(depth, fmt) + Quoted(n) + Colon(fmt),
      s + Pad(depth, fmt) + Quoted(n) + Colon(fmt) + w;
    assert e + Tail(last, fmt) == s + Member(n, w, last, depth, fmt);
    ptr := PutPad(out, s, at, depth, fmt);
    var tmplen := Strlen(name, Quoted(n));
    ptr := PutText(out, a, ptr, name, tmplen, Quoted(n));
    ptr := PutColon(out, b, ptr, fmt);
    var k := Strlen(entry, w);
    ptr := PutText(out, d, ptr, entry, k, w);
    ptr := PutTail(out, e, ptr, last, fmt);
  }
}
