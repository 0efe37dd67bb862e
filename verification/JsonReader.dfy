/** The parser as it runs: loops over a text, and values that grow at their end. */
module JsonReader {
  import opened JsonText
  import opened JsonParse

  method SkipSpace(t: string, i: nat) returns (j: nat)
    requires i <= |t|
    ensures j == Skip(t, i) <= |t|
  {
    j := i;
    while j < |t| && t[j] != '\0' && t[j] <= ' '
      invariant i <= j <= |t| && Skip(t, j) == Skip(t, i)
    {
      j := j + 1;
    }
  }

  method ReadDigits(t: string, i: nat, n0: nat) returns (n: nat, j: nat)
    requires i <= |t|
    ensures Read(n, j) == DigitsFrom(t, i, n0) && j <= |t|
  {
    n, j := n0, i;
    while j < |t| && IsDigit(t[j])
      invariant i <= j <= |t| && DigitsFrom(t, j, n) == DigitsFrom(t, i, n0)
    {
      n, j := n * 10 + DigitValue(t[j]), j + 1;
    }
  }

  /** `parse_number`. */
  method ReadNumber(t: string, i: nat) returns (item: Json, num: nat)
    requires i < |t| && (t[i] == '-' || IsDigit(t[i]))
    ensures Read(item, num) == ParseNumber(t, i)
  {
    hide DigitsFrom, Exponent;
    var n: nat, sign, scale, subscale := 0, 1, 0, 0;
    num := i;
    if t[num] == '-' {
      sign, num := -1, num + 1;
    }
    if At(t, num) == '0' {
      num := num + 1;
    }
    if '1' <= At(t, num) <= '9' {
      n, num := ReadDigits(t, num, 0);
    }
    if At(t, num) == '.' && IsDigit(At(t, num + 1)) {
      var point := num;
      n, num := ReadDigits(t, num + 1, n);
      scale := point + 1 - num;
    }
    subscale, num := ReadExponent(t, num);
    item := Number(sign * n, scale + subscale);
  }

  method ReadExponent(t: string, i: nat) returns (power: int, num: nat)
    requires i <= |t|
    ensures Read(power, num) == Exponent(t, i)
  {
    hide DigitsFrom;
    var subscale: nat, signsubscale := 0, 1;
    num := i;
    if At(t, num) == 'e' || At(t, num) == 'E' {
      num := num + 1;
      if At(t, num) == '+' {
        num := num + 1;
      } else if At(t, num) == '-' {
        signsubscale, num := -1, num + 1;
      }
      subscale, num := ReadDigits(t, num, 0);
    }
    power := subscale * signsubscale;
  }

  /** The second loop of `parse_string`. */
  method ReadString(t: string, i: nat) returns (r: Option<Read<string>>)
    requires i <= |t|
    ensures r == ParseString(t, i)
  {
    hide Unescape1, Before;
    if At(t, i) != '\"' {
      return None;
    }
    var p, out := i + 1, "";
    BeforeJoins("", "", Unescaped(t, i + 1));
    while p < |t| && t[p] != '\"' && t[p] != '\0'
      invariant i < p <= |t| && Unescaped(t, i + 1) == Before(out, Unescaped(t, p))
      decreases |t| - p
    {
      if t[p] != '\\' {
        BeforeJoins(out, [t[p]], Unescaped(t, p + 1));
        out, p := out + [t[p]], p + 1;
      } else {
        var e := Unescape1(t, p + 1);
        if e.None? {
          BeforeJoins(out, "", Unescaped(t, p));
          return None;
        }
        BeforeJoins(out, e.value.value, Unescaped(t, e.value.end));
        out, p := out + e.value.value, e.value.end;
      }
    }
    BeforeJoins(out, "", Unescaped(t, p));
    return Some(Read(out, if At(t, p) == '\"' then p + 1 else p));
  }

  /** `parse_value`. */
  method ReadValue(t: string, i: nat) returns (r: Option<Read<Json>>)
    requires i <= |t|
    ensures r == ParseValue(t, i)
    decreases |t| - i, 1
  {
    hide StartsAt, ParseArray, ParseObject, ParseString, ParseNumber;
    if StartsAt(t, i, "null") {
      return Some(Read(Null, i + 4));
    }
    if StartsAt(t, i, "false") {
      return Some(Read(False, i + 5));
    }
    if StartsAt(t, i, "true") {
      return Some(Read(True, i + 4));
    }
    if At(t, i) == '\"' {
      var s := ReadString(t, i);
      return if s.None? then None else Some(Read(String(s.value.value), s.value.end));
    }
    if At(t, i) == '-' || IsDigit(At(t, i)) {
      var item, num := ReadNumber(t, i);
      return Some(Read(item, num));
    }
    if At(t, i) == '[' {
      r := ReadArray(t, i);
      return;
    }
    if At(t, i) == '{' {
      r := ReadObject(t, i);
      return;
    }
    return None;
  }

  /** The children `c` and behind them what a loop has still to read. */
  function Behind(c: Items, r: Option<Read<Items>>): Option<Read<Items>> {
    if r.None? then None else Some(Read(Joined(c, r.value.value), r.value.end))
  }

  function Joined(c: Items, d: Items): Items { if c.End? then d else Item(c.name, c.value, Joined(c.next, d)) }

  lemma {:induction false} JoinedOne(c: Items, name: string, v: Json, d: Items)
    ensures Joined(Joined(c, Item(name, v, End)), d) == Joined(c, Item(name, v, d))
  {
    if c.Item? {
      JoinedOne(c.next, name, v, d);
    }
  }

  lemma BehindEnd(r: Option<Read<Items>>)
    ensures Behind(End, r) == r
  {
  }

  lemma BehindNone(c: Items)
    ensures Behind(c, None).None?
  {
  }

  lemma BehindOne(c: Items, name: string, v: Json, k: nat, r: Option<Read<Items>>)
    ensures Behind(Joined(c, Item(name, v, End)), r) == Behind(c, Preceded(name, v, r))
    ensures Behind(c, Some(Read(Item(name, v, End), k))) == Some(Read(Joined(c, Item(name, v, End)), k))
  {
    if r.Some? {
      JoinedOne(c, name, v, r.value.value);
    }
  }

  /** `parse_array`: each new value goes to the end of the children. */
  method ReadArray(t: string, i: nat) returns (r: Option<Read<Json>>)
    requires At(t, i) == '['
    ensures r == ParseArray(t, i)
    decreases |t| - i, 0
  {
    hide ParseValue, Skip, Joined, Behind, Preceded;
    var value := SkipSpace(t, i + 1);
    if At(t, value) == ']' {
      return Some(Read(Array(End), value + 1));
    }
    ghost var all := ParseElements(t, value);
    BehindEnd(all);
    var child := End;
    var start := value;
    while true
      invariant i < start <= |t| && all == Behind(child, ParseElements(t, start))
      decreases |t| - start
    {
      value := SkipSpace(t, start);
      var v := ReadValue(t, value);
      if v.None? {
        BehindNone(child);
        return None;
      }
      value := SkipSpace(t, v.value.end);
      BehindOne(child, "", v.value.value, value, ParseElements(t, value + 1));
      child := Joined(child, Item("", v.value.value, End));
      if At(t, value) != ',' {
        break;
      }
      start := value + 1;
    }
    return if At(t, value) == ']' then Some(Read(Array(child), value + 1)) else None;
  }

  /** `parse_object`. */
  method ReadObject(t: string, i: nat) returns (r: Option<Read<Json>>)
    requires At(t, i) == '{'
    ensures r == ParseObject(t, i)
    decreases |t| - i, 0
  {
    hide ParseValue, ParseString, Skip, Joined, Behind, Preceded;
    var value := SkipSpace(t, i + 1);
    if At(t, value) == '}' {
      return Some(Read(Object(End), value + 1));
    }
    ghost var all := ParseMembers(t, value);
    BehindEnd(all);
    var child := End;
    var start := value;
    while true
      invariant i < start <= |t| && all == Behind(child, ParseMembers(t, start))
      decreases |t| - start
    {
      value := SkipSpace(t, start);
      var name := ReadString(t, value);
      if name.None? {
        BehindNone(child);
        return None;
      }
      value := SkipSpace(t, name.value.end);
      if At(t, value) != ':' {
        BehindNone(child);
        return None;
      }
      value := SkipSpace(t, value + 1);
      var v := ReadValue(t, value);
      if v.None? {
        BehindNone(child);
        return None;
      }
      value := SkipSpace(t, v.value.end);
      BehindOne(child, name.value.value, v.value.value, value, ParseMembers(t, value + 1));
      child := Joined(child, Item(name.value.value, v.value.value, End));
      if At(t, value) != ',' {
        break;
      }
      start := value + 1;
    }
    return if At(t, value) == '}' then Some(Read(Object(child), value + 1)) else None;
  }

  /** `cJSON_ParseWithOpts`. */
  method Parse(t: string, whole: bool) returns (r: Option<Read<Json>>)
    ensures r == Parsed(t, whole)
  {
    var value := SkipSpace(t, 0);
    r := ReadValue(t, value);
    if r.Some? && whole {
      var end := SkipSpace(t, r.value.end);
      r := if end < |t| then None else Some(Read(r.value.value, end));
    }
  }
}
