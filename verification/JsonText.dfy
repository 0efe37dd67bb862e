/** JSON values and the texts that stand for them. */
module JsonText {

  /** A value; a number is `digits` times ten to the power `scale`. */
  datatype Json =
    | Null | False | True
    | Number(digits: int, scale: int)
    | String(s: string)
    | Array(child: Items)
    | Object(child: Items)

  /** The children of an array, which have empty names, or of an object. */
  datatype Items = End | Item(name: string, value: Json, next: Items)

  function Size(v: Json): nat { if v.Array? || v.Object? then 1 + ItemsSize(v.child) else 1 }

  function ItemsSize(c: Items): nat { if c.End? then 0 else 1 + Size(c.value) + ItemsSize(c.next) }

  /** A C string: it ends where its NUL is. */
  predicate NulFree(s: string) { '\0' !in s }

  const INT_MAX := 0x7fff_ffff

  /** What the printers are for: numbers that fit an `int`, and strings without NUL. */
  predicate Plain(v: Json) {
    match v
    case Number(n, e) => e == 0 && -INT_MAX - 1 <= n <= INT_MAX
    case String(s) => NulFree(s)
    case Array(c) => PlainItems(c, true)
    case Object(c) => PlainItems(c, false)
    case _ => true
  }

  predicate PlainItems(c: Items, unnamed: bool) {
    c.Item? ==> NulFree(c.name) && (unnamed ==> c.name == []) && Plain(c.value) && PlainItems(c.next, unnamed)
  }

  // Numbers.

  function Digit(d: nat): (c: char)
    requires d < 10
    ensures IsDigit(c) && DigitValue(c) == d
  {
    '0' + d as char
  }

  predicate IsDigit(c: char) { '0' <= c <= '9' }

  function DigitValue(c: char): nat
    requires IsDigit(c)
  {
    (c - '0') as nat
  }

  function Natural(n: nat): (s: string)
    ensures |s| > 0 && forall c | c in s :: IsDigit(c)
  {
    if n < 10 then [Digit(n)] else Natural(n / 10) + [Digit(n % 10)]
  }

  /** `%d`. */
  function Decimal(n: int): string { if n < 0 then "-" + Natural(-n) else Natural(n) }

  // Strings.

  const BACKSPACE: char := 8 as char
  const FORM_FEED: char := 12 as char

  function HexDigit(d: nat): char
    requires d < 16
  {
    if d < 10 then '0' + d as char else 'a' + (d - 10) as char
  }

  /** A character inside the quotes. */
  function EscapedChar(c: char): (s: string)
    ensures |s| > 0
  {
    if c == '\\' then "\\\\"
    else if c == '\"' then "\\\""
    else if c == BACKSPACE then "\\b"
    else if c == FORM_FEED then "\\f"
    else if c == '\n' then "\\n"
    else if c == '\r' then "\\r"
    else if c == '\t' then "\\t"
    else if c < ' ' then "\\u00" + [HexDigit(c as nat / 16), HexDigit(c as nat % 16)]
    else [c]
  }

  function Escaped(s: string): string { if s == "" then "" else EscapedChar(s[0]) + Escaped(s[1..]) }

  function Quoted(s: string): string { "\"" + (Escaped(s) + "\"") }

  // Values.

  function Tabs(n: int): (s: string)
    ensures |s| == if n > 0 then n else 0
    ensures forall i | 0 <= i < |s| :: s[i] == '\t'
  {
    seq(if n > 0 then n else 0, _ => '\t')
  }

  // Layout for reading, if `fmt` holds.

  function Pad(n: int, fmt: bool): string { if fmt then Tabs(n) else "" }

  function Newline(fmt: bool): string { if fmt then "\n" else "" }

  function Colon(fmt: bool): string { if fmt then ":\t" else ":" }

  /** What is behind an element of an array. */
  function Separator(last: bool, fmt: bool): string { if last then "" else if fmt then ", " else "," }

  /** What is behind a member of an object. */
  function Tail(last: bool, fmt: bool): string { (if last then "" else ",") + Newline(fmt) }

  /** The text of a value at a depth. */
  function Text(v: Json, depth: nat, fmt: bool): string
    decreases v, 1
  {
    match v
    case Null => "null"
    case False => "false"
    case True => "true"
    case Number(n, _) => Decimal(n)
    case String(s) => Quoted(s)
    case Array(c) => "[" + (Elements(c, depth + 1, fmt) + "]")
    case Object(c) =>
      "{" + (Newline(fmt) + (Members(c, depth + 1, fmt) + (Pad(if c.End? then depth - 1 else depth, fmt) + "}")))
  }

  function Elements(c: Items, depth: nat, fmt: bool): string
    decreases c, 0
  {
    match c
    case End => ""
    case Item(_, v, next) => Text(v, depth, fmt) + (Separator(next.End?, fmt) + Elements(next, depth, fmt))
  }

  function Members(c: Items, depth: nat, fmt: bool): string
    decreases c, 0
  {
    match c
    case End => ""
    case Item(name, v, next) => Member(name, Text(v, depth, fmt), next.End?, depth, fmt) + Members(next, depth, fmt)
  }

  /** One name and the text of its value. */
  function Member(name: string, text: string, last: bool, depth: nat, fmt: bool): string {
    Pad(depth, fmt) + (Quoted(name) + (Colon(fmt) + (text + Tail(last, fmt))))
  }
}
