/** The printer that allocates a text for every value, and puts the texts of children together. */
module JsonPrint {
  import opened JsonText
  import opened JsonMinify

  // Writing behind what is there already.

  ghost predicate Begins(a: array<char>, s: string)
    reads a
  {
    |s| <= a.Length && a[..|s|] == s
  }

  /** `*ptr++ = c`. */
  method Put(a: array<char>, ghost s: string, at: nat, c: char)
    requires Begins(a, s) && at == |s| < a.Length
    modifies a
    ensures Begins(a, s + [c])
  {
    a[at] := c;
  }

  method PutNul(a: array<char>, ghost s: string, at: nat)
    requires Begins(a, s) && |s| <= at < a.Length
    modifies a
    ensures Begins(a, s) && a[at] == '\0'
  {
    a[at] := '\0';
  }

  lemma Assoc(a: string, b: string, c: string)
    ensures a + b + c == a + (b + c) && |a + b| <= |a + (b + c)|
  {
  }

  /** As many tabs as `n` says. */
  method PutTabs(a: array<char>, ghost s: string, at: nat, n: int) returns (end: nat)
    requires Begins(a, s) && at == |s| && at + |Tabs(n)| <= a.Length
    modifies a
    ensures Begins(a, s + Tabs(n)) && end == at + |Tabs(n)|
  {
    var i := 0;
    end := at;
    assert s + Tabs(n)[..0] == s;
    while i < n
      invariant 0 <= i && i <= |Tabs(n)| && end == at + i && Begins(a, s + Tabs(n)[..i])
    {
      Put(a, s + Tabs(n)[..i], end, '\t');
      assert s + Tabs(n)[..i] + ['\t'] == s + Tabs(n)[..i + 1];
      i, end := i + 1, end + 1;
    }
    assert Tabs(n)[..i] == Tabs(n);
  }

  /** `strcpy` and `sprintf`: a string, and a NUL behind it. */
  method PutString(a: array<char>, ghost s: string, at: nat, w: string) returns (end: nat)
    requires Begins(a, s) && at == |s| && at + |w| < a.Length
    modifies a
    ensures Begins(a, s + w) && end == at + |w| && a[end] == '\0'
  {
    end := at;
    assert s + w[..0] == s;
    while end < at + |w|
      invariant at <= end <= at + |w| && Begins(a, s + w[..end - at])
    {
      Put(a, s + w[..end - at], end, w[end - at]);
      assert s + w[..end - at] + [w[end - at]] == s + w[..end - at + 1];
      end := end + 1;
    }
    assert w[..|w|] == w;
    a[end] := '\0';
  }

  /** `memcpy` from another text. */
  method PutText(a: array<char>, ghost s: string, at: nat, b: array<char>, n: nat, ghost w: string) returns (end: nat)
    requires Begins(a, s) && at == |s| && Holds(b, w) && n == |w| && at + n <= a.Length && a != b
    modifies a
    ensures Begins(a, s + w) && end == at + n
  {
    end := at;
    assert s + w[..0] == s;
    while end < at + n
      invariant at <= end <= at + n && Begins(a, s + w[..end - at]) && b[..] == old(b[..])
    {
      assert b[end - at] == b[..|w|][end - at] == w[end - at];
      Put(a, s + w[..end - at], end, b[end - at]);
      assert s + w[..end - at] + [w[end - at]] == s + w[..end - at + 1];
      end := end + 1;
    }
    assert w[..|w|] == w;
  }

  /** `strlen`. */
  method Strlen(a: array<char>, ghost s: string) returns (n: nat)
    requires Holds(a, s)
    ensures n == |s|
  {
    n := 0;
    NulAt(a, s, n);
    while a[n] != '\0'
      invariant n <= |s| && (a[n] == '\0' <==> n == |s|)
      decreases |s| - n
    {
      n := n + 1;
      NulAt(a, s, n);
    }
  }

  lemma NulAt(a: array<char>, s: string, n: nat)
    requires Holds(a, s) && n <= |s|
    ensures a[n] == '\0' <==> n == |s|
  {
    if n < |s| {
      assert a[n] == a[..|s|][n] && s[n] in s;
    }
  }

  // Strings.

  predicate Escapes(c: char) { c < ' ' || c == '\"' || c == '\\' }

  predicate HasEscapes(s: string) { s != "" && (Escapes(s[0]) || HasEscapes(s[1..])) }

  /** The first loop of `print_string_ptr`. */
  method NeedsEscapes(str: string) returns (flag: bool)
    requires NulFree(str)
    ensures flag == HasEscapes(str)
  {
    flag := false;
    for i := 0 to |str|
      invariant (flag || HasEscapes(str[i..])) == HasEscapes(str)
    {
      assert str[i..][0] == str[i] && str[i..][1..] == str[i + 1..] && str[i] in str;
      flag := flag || (0 as char < str[i] < ' ') || str[i] == '\"' || str[i] == '\\';
    }
  }

  lemma {:induction false} NothingEscaped(str: string)
    requires !HasEscapes(str)
    ensures Escaped(str) == str
  {
    if str != "" {
      assert str == [str[0]] + str[1..];
      NothingEscaped(str[1..]);
    }
  }

  /** The loop that counts the characters of the escaped string. */
  method EscapedLength(str: string) returns (len: nat)
    requires NulFree(str)
    ensures len == |Escaped(str)|
  {
    len := 0;
    for i := 0 to |str|
      invariant len + |Escaped(str[i..])| == |Escaped(str)|
    {
      var token := str[i];
      assert str[i..][0] == token && str[i..][1..] == str[i + 1..];
      len := len + 1;
      if token in "\"\\\n\r\t" || token == BACKSPACE || token == FORM_FEED {
        len := len + 1;
      } else if token < ' ' {
        len := len + 5;
      }
    }
  }

  /** The loop that writes the escaped string. */
  method PutEscaped(a: array<char>, ghost s: string, at: nat, str: string) returns (end: nat)
    requires Begins(a, s) && at == |s| && NulFree(str) && at + |Escaped(str)| < a.Length
    modifies a
    ensures Begins(a, s + Escaped(str)) && end == at + |Escaped(str)|
  {
    hide EscapedChar;
    end := at;
    ghost var done := "";
    for i := 0 to |str|
      invariant done + Escaped(str[i..]) == Escaped(str)
      invariant Begins(a, s + done) && end == at + |done|
    {
      var c := str[i];
      ghost var e := EscapedChar(c);
      assert str[i..][0] == c && str[i..][1..] == str[i + 1..];
      assert done + e + Escaped(str[i + 1..]) == Escaped(str);
      assert c in str;
      end := PutChar(a, s + done, end, c);
      assert s + done + e == s + (done + e);
      done := done + e;
    }
    assert done + Escaped("") == done;
  }

  /** One character of the escaped string. */
  method PutChar(a: array<char>, ghost s: string, at: nat, c: char) returns (end: nat)
    requires Begins(a, s) && at == |s| && c != '\0' && at + |EscapedChar(c)| < a.Length
    modifies a
    ensures Begins(a, s + EscapedChar(c)) && end == at + |EscapedChar(c)|
  {
    if c >= ' ' && c != '\"' && c != '\\' {
      Put(a, s, at, c);
      end := at + 1;
    } else {
      end := PutEscape(a, s, at, c);
    }
  }

  /** A backslash and what follows it. */
  method PutEscape(a: array<char>, ghost s: string, at: nat, c: char) returns (end: nat)
    requires Begins(a, s) && at == |s| && Escapes(c) && c != '\0' && at + |EscapedChar(c)| < a.Length
    modifies a
    ensures Begins(a, s + EscapedChar(c)) && end == at + |EscapedChar(c)|
  {
    Put(a, s, at, '\\');
    var rest :=
      if c == BACKSPACE then "b" else if c == FORM_FEED then "f" else if c == '\n' then "n"
      else if c == '\r' then "r" else if c == '\t' then "t" else if c == '\"' then "\"" else if c == '\\' then "\\"
      else "u00" + [HexDigit(c as nat / 16), HexDigit(c as nat % 16)];
    assert EscapedChar(c) == "\\" + rest;
    end := PutString(a, s + ['\\'], at + 1, rest);
    assert s + ['\\'] + rest == s + EscapedChar(c);
  }

  /** Writes a quoted string into the space that has been set aside for it. */
  method PutQuoted(a: array<char>, ghost s: string, at: nat, str: string, flag: bool)
    requires Begins(a, s) && at == |s| && NulFree(str) && at + |Quoted(str)| < a.Length
    requires flag == HasEscapes(str)
    modifies a
    ensures Begins(a, s + Quoted(str)) && a[at + |Quoted(str)|] == '\0'
  {
    Put(a, s, at, '\"');
    var end;
    if !flag {
      NothingEscaped(str);
      end := PutString(a, s + ['\"'], at + 1, str);
    } else {
      end := PutEscaped(a, s + ['\"'], at + 1, str);
    }
    Put(a, s + ['\"'] + Escaped(str), end, '\"');
    assert s + ['\"'] + Escaped(str) + ['\"'] == s + Quoted(str);
    a[end + 1] := '\0';
  }

  /** `print_string_ptr` without a buffer. */
  method PrintString(str: string) returns (out: array<char>)
    requires NulFree(str)
    ensures fresh(out) && Holds(out, Quoted(str))
  {
    var flag := NeedsEscapes(str);
    var len := |str|;
    if flag {
      len := EscapedLength(str);
    } else {
      NothingEscaped(str);
    }
    out := new char[len + 3];
    PutQuoted(out, "", 0, str, flag);
    QuotedIsNulFree(str);
    assert "" + Quoted(str) == Quoted(str);
  }

  lemma {:induction false} EscapedIsNulFree(str: string)
    requires NulFree(str)
    ensures NulFree(Escaped(str))
  {
    if str != "" {
      EscapedIsNulFree(str[1..]);
      assert NulFree(EscapedChar(str[0]));
    }
  }

  lemma QuotedIsNulFree(str: string)
    requires NulFree(str)
    ensures NulFree(Quoted(str))
  {
    EscapedIsNulFree(str);
  }

  // Numbers.

  /** `%d` needs at most eleven characters. */
  lemma DecimalFits(n: int)
    requires -INT_MAX - 1 <= n <= INT_MAX
    ensures |Decimal(n)| <= 11 && NulFree(Decimal(n))
  {
    NaturalFits(if n < 0 then -n else n, 10, 10_000_000_000);
  }

  lemma {:induction false} NaturalFits(n: nat, k: nat, bound: nat)
    requires k > 0 && n < bound && bound == Ten(k)
    ensures |Natural(n)| <= k
  {
    if n >= 10 {
      NaturalFits(n / 10, k - 1, bound / 10);
    }
  }

  function Ten(k: nat): nat { if k == 0 then 1 else 10 * Ten(k - 1) }

  /** `print_number` without a buffer. */
  method PrintNumber(n: int) returns (out: array<char>)
    requires -INT_MAX - 1 <= n <= INT_MAX
    ensures fresh(out) && Holds(out, Decimal(n))
  {
    DecimalFits(n);
    if n == 0 {
      out := new char[2];
    } else {
      out := new char[21];
    }
    var end := PutString(out, "", 0, if n == 0 then "0" else Decimal(n));
    assert "" + Decimal(n) == Decimal(n);
  }
}
