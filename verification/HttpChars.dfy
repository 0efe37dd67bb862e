/** The character classes of the strict build. A byte is a `char`; the classes are total on all of them. */
module HttpChars {

  const CR := '\r'
  const LF := '\n'

  /** Sets bit 5 of a byte. */
  function Lower(c: char): char {
    if c < ' ' || '@' <= c < '`' || '\U{80}' <= c < '\U{A0}' || '\U{C0}' <= c < '\U{E0}'
    then (c as int + 32) as char else c
  }

  predicate IsAlpha(c: char) { 'a' <= c <= 'z' || 'A' <= c <= 'Z' }

  predicate IsNum(c: char) { '0' <= c <= '9' }

  predicate IsAlphaNum(c: char) { IsAlpha(c) || IsNum(c) }

  predicate IsHex(c: char) { IsNum(c) || 'a' <= c <= 'f' || 'A' <= c <= 'F' }

  function Digit(c: char): nat
    requires IsNum(c)
  {
    c as int - '0' as int
  }

  /** The value of a hexadecimal digit, or -1. */
  function Unhex(c: char): (r: int)
    ensures -1 <= r < 16
    ensures r == -1 <==> !IsHex(c)
  {
    if IsNum(c) then c as int - '0' as int
    else if 'a' <= c <= 'f' then c as int - 'a' as int + 10
    else if 'A' <= c <= 'F' then c as int - 'A' as int + 10
    else -1
  }

  predicate IsMark(c: char) {
    c == '-' || c == '_' || c == '.' || c == '!' || c == '~' || c == '*' || c == '\'' || c == '(' || c == ')'
  }

  predicate IsUserinfoChar(c: char) {
    IsAlphaNum(c) || IsMark(c) || c == '%' || c == ';' || c == ':' || c == '&' || c == '=' ||
    c == '+' || c == '$' || c == ','
  }

  predicate IsHostChar(c: char) { IsAlphaNum(c) || c == '.' || c == '-' }

  predicate IsUrlChar(c: char) { '!' <= c <= '~' && c != '#' && c != '?' }

  predicate IsHeaderChar(c: char) {
    c == CR || c == LF || c == '\t' || (c > '\U{1F}' && c != '\U{7F}')
  }

  predicate IsToken(c: char) {
    IsAlphaNum(c) || c == '!' || '#' <= c <= '\'' || c == '*' || c == '+' || c == '-' || c == '.' ||
    '^' <= c <= '`' || c == '|' || c == '~'
  }

  /** A token character, with capital letters lowered. */
  function Token(c: char): char { if 'A' <= c <= 'Z' then (c as int + 32) as char else c }
}
