/** The printer that writes into one buffer, which grows where it has to. */
module JsonBuffer {
  import opened Bits
  import opened JsonText
  import opened JsonMinify
  import opened JsonPrint
  import opened JsonPrintAlloc
  import opened JsonGrow

  /** Sizes up to here are computed without overflow. */
  const MAX_SIZE := 0x4000_0000

  /** More than the text itself, this is what a value may ask for. */
  const SLACK := 21

  class PrintBuffer {
    var buffer: array<char>
    var length: nat
    var offset: nat

    ghost predicate Valid()
      reads this
    {
      length == buffer.Length && offset <= length
    }

    constructor (prebuffer: nat)
      requires prebuffer >= 1
      ensures Valid() && offset == 0 && fresh(buffer)
    {
      buffer := new char[prebuffer];
      length, offset := prebuffer, 0;
    }

    /** `ensure`: room for `needed` characters at the offset. */
    method Ensure(ghost s: string, needed: nat)
      requires Valid() && offset == |s| && Begins(buffer, s) && offset + needed <= MAX_SIZE
      modifies this`buffer, this`length
      ensures Valid() && Begins(buffer, s) && offset + needed <= buffer.Length
      ensures buffer == old(buffer) || fresh(buffer)
      ensures if |s| + needed <= old(length) then buffer == old(buffer) else exists k :: length == Pow2(k) && Pow2(k) < 2 * (|s| + needed)
    {
      var total := needed + offset;
      if total <= length {
        return;
      }
      var newsize := Pow2gt(total);
      ghost var k := Pow2gtIsLeast(total);
      Tight(total, k);
      var newbuffer := new char[newsize];
      forall i | 0 <= i < length {
        newbuffer[i] := buffer[i];
      }
      assert newbuffer[..|s|] == buffer[..|s|];
      length, buffer := newsize, newbuffer;
    }

    /** `update`: the end of the string at the offset. */
    method Update(ghost s: string) returns (end: nat)
      requires Valid() && offset <= |s| < buffer.Length && Begins(buffer, s) && buffer[|s|] == '\0'
      requires forall i | offset <= i < |s| :: s[i] != '\0'
      ensures end == |s|
    {
      end := offset;
      EndAt(buffer, s, end);
      while buffer[end] != '\0'
        invariant offset <= end <= |s| && (end < |s| ==> buffer[end] == s[end])
        decreases |s| - end
      {
        end := end + 1;
        EndAt(buffer, s, end);
      }
    }

    /** `print_value` into the buffer: the text is at the offset, which may still stand before its last part. */
    method PrintValue(ghost s: string, item: Json, depth: nat, fmt: bool)
      requires Valid() && offset == |s| && Begins(buffer, s) && Plain(item)
      requires |s| + |Text(item, depth, fmt)| + SLACK <= MAX_SIZE
      modifies this, buffer
      ensures Printed(s, Text(item, depth, fmt))
      ensures buffer == old(buffer) || fresh(buffer)
      decreases Size(item), 1
    {
      match item
      case Null => PrintLiteral(s, "null", 5);
      case False => PrintLiteral(s, "false", 6);
      case True => PrintLiteral(s, "true", 5);
      case Number(n, _) =>
        DecimalFits(n);
        PrintLiteral(s, if n == 0 then "0" else Decimal(n), if n == 0 then 2 else 21);
      case String(str) => PrintString(s, str);
      case Array(c) => PrintArray(s, c, depth, fmt);
      case Object(c) => PrintObject(s, c, depth, fmt);
    }

    /** The buffer holds `s` and behind it `w`, up to a NUL. */
    ghost predicate Printed(s: string, w: string)
      reads this, buffer
    {
      && Valid() && |s| <= offset <= |s + w| < buffer.Length
      && Begins(buffer, s + w) && buffer[|s + w|] == '\0'
    }

    method PrintLiteral(ghost s: string, w: string, needed: nat)
      requires Valid() && offset == |s| && Begins(buffer, s) && |w| < needed && |s| + needed <= MAX_SIZE
      modifies this`buffer, this`length, buffer
      ensures Printed(s, w) && (buffer == old(buffer) || fresh(buffer))
    {
      Ensure(s, needed);
      var end := PutString(buffer, s, offset, w);
    }

    /** `print_string_ptr` into the buffer. */
    method PrintString(ghost s: string, str: string)
      requires Valid() && offset == |s| && Begins(buffer, s) && NulFree(str) && |s| + |Quoted(str)| + SLACK <= MAX_SIZE
      modifies this`buffer, this`length, buffer
      ensures Printed(s, Quoted(str)) && (buffer == old(buffer) || fresh(buffer))
    {
      var flag := NeedsEscapes(str);
      var len := |str|;
      if flag {
        len := EscapedLength(str);
      } else {
        NothingEscaped(str);
      }
      Ensure(s, len + 3);
      PutQuoted(buffer, s, offset, str, flag);
    }

    /** The buffer holds `s`, and the offset is behind it. */
    ghost predicate Written(s: string)
      reads this, buffer
    {
      Valid() && offset == |s| && Begins(buffer, s)
    }

    /** To the end of what has been printed. */
    method Advance(ghost s: string, ghost w: string)
      requires Printed(s, w) && NulFree(w)
      modifies this`offset
      ensures Written(s + w)
    {
      forall i | offset <= i < |s + w| ensures (s + w)[i] != '\0' {
        assert (s + w)[i] == w[i - |s|] && w[i - |s|] in w;
      }
      offset := Update(s + w);
    }

    /** `print_array` into the buffer. */
    method PrintArray(ghost s: string, c: Items, depth: nat, fmt: bool)
      requires Written(s) && PlainItems(c, true)
      requires |s| + |Text(Array(c), depth, fmt)| + SLACK <= MAX_SIZE
      modifies this, buffer
      ensures Printed(s, Text(Array(c), depth, fmt))
      ensures buffer == old(buffer) || fresh(buffer)
      decreases ItemsSize(c), 2
    {
      if c.End? {
        PrintLiteral(s, "[]", 3);
        return;
      }
      ArrayJoins(s, c, depth, fmt);
      hide Begins, Elements, Text, Printed;
      ghost var all := Elements(c, depth + 1, fmt);
      OpenArray(s);
      PrintElements(s + "[", c, depth + 1, fmt);
      CloseArray(s + "[" + all);
      PrintedJoins(s, "[" + all, "]");
    }

    method OpenArray(ghost s: string)
      requires Written(s) && |s| + 1 <= MAX_SIZE
      modifies this, buffer
      ensures Written(s + "[")
      ensures buffer == old(buffer) || fresh(buffer)
    {
      Ensure(s, 1);
      Put(buffer, s, offset, '[');
      offset := offset + 1;
    }

    method CloseArray(ghost s: string)
      requires Written(s) && |s| + 2 <= MAX_SIZE
      modifies this`buffer, this`length, buffer
      ensures Printed(s, "]")
      ensures buffer == old(buffer) || fresh(buffer)
    {
      Ensure(s, 2);
      Put(buffer, s, offset, ']');
      PutNul(buffer, s + "]", offset + 1);
    }

    lemma PrintedJoins(s: string, v: string, w: string)
      requires Printed(s + v, w)
      ensures Printed(s, v + w)
    {
      Assoc(s, v, w);
    }

    method PrintElements(ghost s: string, c: Items, depth: nat, fmt: bool)
      requires Written(s) && PlainItems(c, true)
      requires |s| + |Elements(c, depth, fmt)| + SLACK <= MAX_SIZE
      modifies this, buffer
      ensures Written(s + Elements(c, depth, fmt))
      ensures buffer == old(buffer) || fresh(buffer)
      decreases ItemsSize(c), 1
    {
      hide Written, Elements, Element;
      ghost var all, done := Elements(c, depth, fmt), "";
      assert s + done == s && done + all == all;
      var child := c;
      while child.Item?
        invariant done + Elements(child, depth, fmt) == all && PlainItems(child, true) && ItemsSize(child) <= ItemsSize(c)
        invariant Written(s + done)
        invariant buffer == old(buffer) || fresh(buffer)
        decreases child
      {
        ghost var element := Element(child, depth, fmt);
        ElementFirst(child, depth, fmt);
        Assoc(done, element, Elements(child.next, depth, fmt));
        Assoc(s, done, element);
        PrintElement(s + done, child, depth, fmt);
        done := done + element;
        child := child.next;
      }
      NoElements(depth, fmt);
      assert done + "" == done;
    }

    /** One round of the loop in `print_array`. */
    method PrintElement(ghost s: string, child: Items, depth: nat, fmt: bool)
      requires Written(s) && PlainItems(child, true) && child.Item?
      requires |s| + |Element(child, depth, fmt)| + SLACK <= MAX_SIZE
      modifies this, buffer
      ensures Written(s + Element(child, depth, fmt))
      ensures buffer == old(buffer) || fresh(buffer)
      decreases ItemsSize(child), 0
    {
      hide Begins, Text, Separator;
      ghost var w, sep := Text(child.value, depth, fmt), Separator(child.next.End?, fmt);
      PrintValue(s, child.value, depth, fmt);
      TextNulFree(child.value, depth, fmt);
      Advance(s, w);
      Assoc(s, w, sep);
      SeparatorLength(child.next.End?, fmt);
      if child.next.Item? {
        var len := if fmt then 2 else 1;
        Ensure(s + w, len + 1);
        var ptr := PutSeparator(buffer, s + w, offset, false, fmt);
        PutNul(buffer, s + w + sep, ptr);
        offset := offset + len;
      }
    }

    /** `print_object` into the buffer. */
    method PrintObject(ghost s: string, c: Items, depth0: nat, fmt: bool)
      requires Written(s) && PlainItems(c, false)
      requires |s| + |Text(Object(c), depth0, fmt)| + SLACK <= MAX_SIZE
      modifies this, buffer
      ensures Printed(s, Text(Object(c), depth0, fmt))
      ensures buffer == old(buffer) || fresh(buffer)
      decreases ItemsSize(c), 2
    {
      if c.End? {
        PrintEmpty(s, depth0, fmt);
        return;
      }
      var depth := depth0 + 1;
      ObjectJoins(s, c, depth0, fmt);
      hide Begins, Members, Newline, Pad, Text;
      ghost var open, all, pad := "{" + Newline(fmt), Members(c, depth, fmt), Pad(depth0, fmt);
      Open(s, fmt);
      PrintMembers(s + open, c, depth, fmt);
      Close(s + open + all, depth, fmt);
    }

    method Open(ghost s: string, fmt: bool)
      requires Written(s) && |s| + 3 <= MAX_SIZE
      modifies this, buffer
      ensures Written(s + ("{" + Newline(fmt)))
      ensures buffer == old(buffer) || fresh(buffer)
    {
      var len := if fmt then 2 else 1;
      Ensure(s, len + 1);
      var ptr := PutOpen(buffer, s, offset, fmt);
      PutNul(buffer, s + ("{" + Newline(fmt)), ptr);
      offset := offset + len;
    }

    method Close(ghost s: string, depth: nat, fmt: bool)
      requires Written(s) && depth > 0 && |s| + |Pad(depth - 1, fmt)| + 2 <= MAX_SIZE
      modifies this`buffer, this`length, buffer
      ensures Printed(s, Pad(depth - 1, fmt) + "}")
      ensures buffer == old(buffer) || fresh(buffer)
    {
      Ensure(s, if fmt then depth + 1 else 2);
      var ptr := PutPad(buffer, s, offset, depth - 1, fmt);
      Put(buffer, s + Pad(depth - 1, fmt), ptr, '}');
      Assoc(s, Pad(depth - 1, fmt), "}");
      PutNul(buffer, s + (Pad(depth - 1, fmt) + "}"), ptr + 1);
    }

    method PrintEmpty(ghost s: string, depth: nat, fmt: bool)
      requires Written(s) && |s| + |Text(Object(End), depth, fmt)| + SLACK <= MAX_SIZE
      modifies this`buffer, this`length, buffer
      ensures Printed(s, Text(Object(End), depth, fmt))
      ensures buffer == old(buffer) || fresh(buffer)
    {
      Ensure(s, if fmt then depth + 4 else 3);
      PutEmptyObject(buffer, s, offset, depth, fmt);
    }

    method PrintMembers(ghost s: string, c: Items, depth: nat, fmt: bool)
      requires Written(s) && PlainItems(c, false)
      requires |s| + |Members(c, depth, fmt)| + SLACK <= MAX_SIZE
      modifies this, buffer
      ensures Written(s + Members(c, depth, fmt))
      ensures buffer == old(buffer) || fresh(buffer)
      decreases ItemsSize(c), 1
    {
      hide Written, Members, Member;
      ghost var all, done := Members(c, depth, fmt), "";
      assert s + done == s && done + all == all;
      var child := c;
      while child.Item?
        invariant done + Members(child, depth, fmt) == all && PlainItems(child, false) && ItemsSize(child) <= ItemsSize(c)
        invariant Written(s + done)
        invariant buffer == old(buffer) || fresh(buffer)
        decreases child
      {
        ghost var member := Member(child.name, Text(child.value, depth, fmt), child.next.End?, depth, fmt);
        MemberFirst(child, depth, fmt);
        Assoc(done, member, Members(child.next, depth, fmt));
        Assoc(s, done, member);
        PrintMember(s + done, child, depth, fmt);
        done := done + member;
        child := child.next;
      }
      NoElements(depth, fmt);
      assert done + "" == done;
    }

    /** One round of the loop in `print_object`. */
    method PrintMember(ghost s: string, child: Items, depth: nat, fmt: bool)
      requires Written(s) && PlainItems(child, false) && child.Item?
      requires |s| + |Member(child.name, Text(child.value, depth, fmt), child.next.End?, depth, fmt)| + SLACK <= MAX_SIZE
      modifies this, buffer
      ensures Written(s + Member(child.name, Text(child.value, depth, fmt), child.next.End?, depth, fmt))
      ensures buffer == old(buffer) || fresh(buffer)
      decreases ItemsSize(child), 0
    {
      ghost var pad, name, colon, w, tail :=
        Pad(depth, fmt), Quoted(child.name), Colon(fmt), Text(child.value, depth, fmt), Tail(child.next.End?, fmt);
      MemberJoins(s, pad, name, colon, w, tail);
      TextNulFree(child.value, depth, fmt);
      QuotedIsNulFree(child.name);
      hide Written, Begins, Pad, Quoted, Colon, Text, Tail, Printed;
      Indent(s, depth, fmt);
      PrintString(s + pad, child.name);
      Advance(s + pad, name);
      Colons(s + pad + name, fmt);
      PrintValue(s + pad + name + colon, child.value, depth, fmt);
      Advance(s + pad + name + colon, w);
      Finish(s + pad + name + colon + w, child.next.End?, fmt);
    }

    method Indent(ghost s: string, depth: nat, fmt: bool)
      requires Written(s) && |s| + |Pad(depth, fmt)| <= MAX_SIZE
      modifies this, buffer
      ensures Written(s + Pad(depth, fmt))
      ensures buffer == old(buffer) || fresh(buffer)
    {
      assert !fmt ==> s + Pad(depth, fmt) == s;
      if fmt {
        Ensure(s, depth);
        var ptr := PutTabs(buffer, s, offset, depth);
        offset := offset + depth;
      }
    }

    method Colons(ghost s: string, fmt: bool)
      requires Written(s) && |s| + |Colon(fmt)| <= MAX_SIZE
      modifies this, buffer
      ensures Written(s + Colon(fmt))
      ensures buffer == old(buffer) || fresh(buffer)
    {
      var len := if fmt then 2 else 1;
      Ensure(s, len);
      var ptr := PutColon(buffer, s, offset, fmt);
      offset := offset + len;
    }

    method Finish(ghost s: string, last: bool, fmt: bool)
      requires Written(s) && |s| + |Tail(last, fmt)| + 1 <= MAX_SIZE
      modifies this, buffer
      ensures Written(s + Tail(last, fmt))
      ensures buffer == old(buffer) || fresh(buffer)
    {
      var len := (if fmt then 1 else 0) + (if last then 0 else 1);
      Ensure(s, len + 1);
      var ptr := PutTail(buffer, s, offset, last, fmt);
      PutNul(buffer, s + Tail(last, fmt), ptr);
      offset := offset + len;
    }
  }

  lemma SeparatorLength(last: bool, fmt: bool)
    ensures Separator(false, fmt) == (if fmt then ", " else ",")
    ensures last ==> Separator(last, fmt) == "" && forall s: string :: s + Separator(last, fmt) == s
  {
  }

  lemma MemberJoins(s: string, pad: string, name: string, colon: string, w: string, tail: string)
    ensures s + pad + name + colon + w + tail == s + (pad + (name + (colon + (w + tail))))
  {
    Assoc(s, pad, name + (colon + (w + tail)));
    Assoc(s + pad, name, colon + (w + tail));
    Assoc(s + pad + name, colon, w + tail);
    Assoc(s + pad + name + colon, w, tail);
  }

  lemma ArrayJoins(s: string, c: Items, depth: nat, fmt: bool)
    ensures var all := Elements(c, depth + 1, fmt);
      s + "[" + all == s + ("[" + all) && "[" + all + "]" == Text(Array(c), depth, fmt) && |Text(Array(c), depth, fmt)| == 2 + |all|
  {
    var all := Elements(c, depth + 1, fmt);
    Assoc(s, "[", all);
    Assoc("[", all, "]");
  }

  lemma ObjectJoins(s: string, c: Items, depth: nat, fmt: bool)
    requires c.Item?
    ensures var open, all, pad := "{" + Newline(fmt), Members(c, depth + 1, fmt), Pad(depth, fmt);
      s + open + all + (pad + "}") == s + Text(Object(c), depth, fmt)
    ensures |Text(Object(c), depth, fmt)| == 2 + |Newline(fmt)| + |Members(c, depth + 1, fmt)| + |Pad(depth, fmt)|
  {
    var open, all, pad := Newline(fmt), Members(c, depth + 1, fmt), Pad(depth, fmt);
    Assoc("{", open, all + (pad + "}"));
    Assoc(s, "{" + open, all + (pad + "}"));
    Assoc(s + ("{" + open), all, pad + "}");
  }

  lemma EndAt(a: array<char>, s: string, end: nat)
    requires Begins(a, s)
    ensures end < |s| ==> a[end] == s[end]
  {
    if end < |s| {
      assert a[end] == a[..|s|][end];
    }
  }

  lemma Tight(x: nat, k: nat)
    requires x > 0 && x <= Pow2(k) && forall j: nat | x <= Pow2(j) :: k <= j
    ensures Pow2(k) < 2 * x
  {
    if k > 0 {
      assert !(x <= Pow2(k - 1));
    }
  }

  /** `cJSON_PrintBuffered`: the same text as without a buffer, from any size on. */
  method PrintBuffered(item: Json, prebuffer: nat, fmt: bool) returns (out: array<char>)
    requires Plain(item) && prebuffer >= 1 && |Text(item, 0, fmt)| + SLACK <= MAX_SIZE
    ensures fresh(out) && Holds(out, Text(item, 0, fmt))
  {
    var p := new PrintBuffer(prebuffer);
    p.PrintValue("", item, 0, fmt);
    TextNulFree(item, 0, fmt);
    assert "" + Text(item, 0, fmt) == Text(item, 0, fmt);
    out := p.buffer;
  }
}
