/** What the parser reads from a text. A text is a C string: at its end there is a NUL. */
module JsonParse {
  import opened JsonText

  datatype Option<T> = None | Some(value: T)

  /** Something read, and where it ends. */
  datatype Read<T> = Read(value: T, end: nat)

  function At(t: string, i: nat): char { if i < |t| then t[i] else '\0' }

  /** `skip`: past blanks and control characters. */
  function Skip(t: string, i: nat): (j: nat)
    ensures i <= j && (i <= |t| ==> j <= |t|)
    decreases |t| - i
  {
    if i < |t| && t[i] != '\0' && t[i] <= ' ' then Skip(t, i + 1) else i
  }

  predicate StartsAt(t: string, i: nat, w: string) { i + |w| <= |t| && t[i..i + |w|] == w }

  // Numbers.

  function DigitsFrom(t: string, i: nat, n: nat): (r: Read<nat>)
    ensures i <= r.end && (i <= |t| ==> r.end <= |t|)
    decreases |t| - i
  {
    if i < |t| && IsDigit(t[i]) then DigitsFrom(t, i + 1, n * 10 + DigitValue(t[i])) else Read(n, i)
  }

  /** The digits, the fraction and the exponent; each of them may be missing. */
  function ParseNumber(t: string, i: nat): (r: Read<Json>)
    requires i < |t| && (t[i] == '-' || IsDigit(t[i]))
    ensures i < r.end <= |t|
  {
    var i1 := if t[i] == '-' then i + 1 else i;
    var i2 := if At(t, i1) == '0' then i1 + 1 else i1;
    var whole := if '1' <= At(t, i2) <= '9' then DigitsFrom(t, i2, 0) else Read(0, i2);
    var part := if At(t, whole.end) == '.' && IsDigit(At(t, whole.end + 1)) then DigitsFrom(t, whole.end + 1, whole.value) else whole;
    var scale: int := if part.end > whole.end then whole.end + 1 - part.end else 0;
    var power := Exponent(t, part.end);
    var n: int := part.value;
    Read(Number(if t[i] == '-' then -n else n, scale + power.value), power.end)
  }

  function Exponent(t: string, i: nat): (r: Read<int>)
    requires i <= |t|
    ensures i <= r.end <= |t|
  {
    if At(t, i) == 'e' || At(t, i) == 'E' then
      var c := At(t, i + 1);
      var r := DigitsFrom(t, if c == '+' || c == '-' then i + 2 else i + 1, 0);
      var n: int := r.value;
      Read(if c == '-' then -n else n, r.end)
    else
      Read(0, i)
  }

  // Strings.

  function HexValue(c: char): Option<nat> {
    if '0' <= c <= '9' then Some((c - '0') as nat)
    else if 'A' <= c <= 'F' then Some(10 + (c - 'A') as nat)
    else if 'a' <= c <= 'f' then Some(10 + (c - 'a') as nat)
    else None
  }

  /** `parse_hex4`: zero if there are no four digits. */
  function Hex4(t: string, i: nat): (n: nat)
    ensures n < 0x10000
  {
    var a, b, c, d := HexValue(At(t, i)), HexValue(At(t, i + 1)), HexValue(At(t, i + 2)), HexValue(At(t, i + 3));
    if a.Some? && b.Some? && c.Some? && d.Some? then ((a.value * 16 + b.value) * 16 + c.value) * 16 + d.value else 0
  }

  /** The bytes that are written for a code point: as many as its size needs, the lower bits in the last ones. */
  function Utf8(uc: nat): (s: string)
    requires uc < 0x110000
    ensures 1 <= |s| <= 4
  {
    if uc < 0x80 then [uc as char]
    else if uc < 0x800 then [(0xC0 + uc / 64) as char, Trail(uc)]
    else if uc < 0x10000 then [(0xE0 + uc / 64 / 64) as char, Trail(uc / 64), Trail(uc)]
    else [(0xF0 + uc / 64 / 64 / 64) as char, Trail(uc / 64 / 64), Trail(uc / 64), Trail(uc)]
  }

  function Trail(uc: nat): char { (0x80 + uc % 64) as char }

  predicate IsLow(uc: nat) { 0xDC00 <= uc <= 0xDFFF }

  predicate IsHigh(uc: nat) { 0xD800 <= uc <= 0xDBFF }

  function Paired(high: nat, low: nat): (uc: nat)
    requires IsHigh(high) && IsLow(low)
    ensures 0x10000 <= uc < 0x110000
  {
    0x10000 + high % 0x400 * 0x400 + low % 0x400
  }

  /** What the escape after the backslash at `q - 1` stands for; nothing if it runs over the end of the text. */
  function Unescape1(t: string, q: nat): (r: Option<Read<string>>)
    ensures r.Some? ==> q < r.value.end <= |t|
  {
    if q >= |t| then None
    else if t[q] == 'b' then Some(Read([BACKSPACE], q + 1))
    else if t[q] == 'f' then Some(Read([FORM_FEED], q + 1))
    else if t[q] == 'n' then Some(Read("\n", q + 1))
    else if t[q] == 'r' then Some(Read("\r", q + 1))
    else if t[q] == 't' then Some(Read("\t", q + 1))
    else if t[q] == 'u' then Unicode(t, q)
    else Some(Read([t[q]], q + 1))
  }

  /** `\u` and four digits; two such escapes may stand for one code point. */
  function Unicode(t: string, q: nat): (r: Option<Read<string>>)
    ensures r.Some? ==> q < r.value.end <= |t|
  {
    var uc := Hex4(t, q + 1);
    if q + 4 >= |t| then None
    else if IsLow(uc) || uc == 0 then Some(Read("", q + 5))
    else if IsHigh(uc) then
      if At(t, q + 5) != '\\' || At(t, q + 6) != 'u' then Some(Read("", q + 5))
      else if q + 10 >= |t| then None
      else
        var low := Hex4(t, q + 7);
        Some(Read(if IsLow(low) then Utf8(Paired(uc, low)) else "", q + 11))
    else Some(Read(Utf8(uc), q + 5))
  }

  /** The characters up to the closing quote, or to the end of the text. */
  function Unescaped(t: string, p: nat): (r: Option<Read<string>>)
    ensures r.Some? && p <= |t| ==> p <= r.value.end <= |t|
    decreases |t| - p
  {
    if p >= |t| || t[p] == '\"' || t[p] == '\0' then Some(Read("", p))
    else if t[p] != '\\' then Before([t[p]], Unescaped(t, p + 1))
    else
      var e := Unescape1(t, p + 1);
      if e.None? then None else Before(e.value.value, Unescaped(t, e.value.end))
  }

  function Before(s: string, r: Option<Read<string>>): Option<Read<string>> {
    if r.None? then None else Some(Read(s + r.value.value, r.value.end))
  }

  lemma BeforeJoins(a: string, b: string, r: Option<Read<string>>)
    ensures Before(a, Before(b, r)) == Before(a + b, r)
    ensures Before("", r) == r && (r.None? ==> Before(a, r).None?)
    ensures r.Some? && r.value.value == "" ==> Before(a, r) == Some(Read(a, r.value.end))
  {
    if r.Some? {
      assert a + (b + r.value.value) == a + b + r.value.value;
      assert "" + r.value.value == r.value.value;
      assert a + "" == a;
    }
  }

  /** `parse_string`: a string need not be closed. */
  function ParseString(t: string, i: nat): (r: Option<Read<string>>)
    ensures r.Some? ==> i < r.value.end <= |t|
  {
    if At(t, i) != '\"' then None
    else
      var r := Unescaped(t, i + 1);
      if r.None? then None
      else Some(Read(r.value.value, if At(t, r.value.end) == '\"' then r.value.end + 1 else r.value.end))
  }

  // Values.

  function ParseValue(t: string, i: nat): (r: Option<Read<Json>>)
    ensures r.Some? ==> i < r.value.end <= |t|
    decreases |t| - i, 1
  {
    if StartsAt(t, i, "null") then Some(Read(Null, i + 4))
    else if StartsAt(t, i, "false") then Some(Read(False, i + 5))
    else if StartsAt(t, i, "true") then Some(Read(True, i + 4))
    else if At(t, i) == '\"' then
      var r := ParseString(t, i);
      if r.None? then None else Some(Read(String(r.value.value), r.value.end))
    else if At(t, i) == '-' || IsDigit(At(t, i)) then Some(ParseNumber(t, i))
    else if At(t, i) == '[' then ParseArray(t, i)
    else if At(t, i) == '{' then ParseObject(t, i)
    else None
  }

  function ParseArray(t: string, i: nat): (r: Option<Read<Json>>)
    requires At(t, i) == '['
    ensures r.Some? ==> i < r.value.end <= |t|
    decreases |t| - i, 0
  {
    var j := Skip(t, i + 1);
    if At(t, j) == ']' then Some(Read(Array(End), j + 1)) else Closed(t, ParseElements(t, j), true)
  }

  function ParseObject(t: string, i: nat): (r: Option<Read<Json>>)
    requires At(t, i) == '{'
    ensures r.Some? ==> i < r.value.end <= |t|
    decreases |t| - i, 0
  {
    var j := Skip(t, i + 1);
    if At(t, j) == '}' then Some(Read(Object(End), j + 1)) else Closed(t, ParseMembers(t, j), false)
  }

  /** The bracket after the children. */
  function Closed(t: string, r: Option<Read<Items>>, square: bool): (c: Option<Read<Json>>)
    ensures c.Some? ==> r.Some? && c.value.end == r.value.end + 1 <= |t|
  {
    if r.None? || At(t, r.value.end) != (if square then ']' else '}') then None
    else Some(Read(if square then Array(r.value.value) else Object(r.value.value), r.value.end + 1))
  }

  /** Values with commas between them, and the space behind the last one. */
  function ParseElements(t: string, i: nat): (r: Option<Read<Items>>)
    ensures r.Some? ==> i < r.value.end <= |t|
    decreases |t| - i, 2
  {
    var v := ParseValue(t, Skip(t, i));
    if v.None? then None
    else
      var k := Skip(t, v.value.end);
      if At(t, k) != ',' then Some(Read(Item("", v.value.value, End), k))
      else Preceded("", v.value.value, ParseElements(t, k + 1))
  }

  function Preceded(name: string, v: Json, r: Option<Read<Items>>): Option<Read<Items>> {
    if r.None? then None else Some(Read(Item(name, v, r.value.value), r.value.end))
  }

  /** Names and values with commas between them. */
  function ParseMembers(t: string, i: nat): (r: Option<Read<Items>>)
    ensures r.Some? ==> i < r.value.end <= |t|
    decreases |t| - i, 2
  {
    var name := ParseString(t, Skip(t, i));
    if name.None? || At(t, Skip(t, name.value.end)) != ':' then None
    else
      var v := ParseValue(t, Skip(t, Skip(t, name.value.end) + 1));
      if v.None? then None
      else
        var k := Skip(t, v.value.end);
        if At(t, k) != ',' then Some(Read(Item(name.value.value, v.value.value, End), k))
        else Preceded(name.value.value, v.value.value, ParseMembers(t, k + 1))
  }

  /** `cJSON_ParseWithOpts`; nothing but space may follow if the text has to end there. */
  function Parsed(t: string, whole: bool): Option<Read<Json>> {
    var r := ParseValue(t, Skip(t, 0));
    if r.None? || !whole then r
    else if Skip(t, r.value.end) < |t| then None
    else Some(Read(r.value.value, Skip(t, r.value.end)))
  }
}
