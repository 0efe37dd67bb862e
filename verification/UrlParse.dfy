/** `http_parser_parse_url` and `http_parse_host`: a URL is cut into its fields. */
module UrlParse {
  import opened HttpTypes
  import opened HttpChars
  import opened HttpTransition

  datatype Part = Schema | Userinfo | Host | Port | Path | Query | Fragment

  /** Offset and length of a field, both 16 bits wide. */
  datatype Span = Span(off: nat, len: nat)

  const WIDTH: nat := 0x1_0000

  function Longer(s: Span): Span { s.(len := (s.len + 1) % WIDTH) }

  // --------------------------------------------------------------------------------------------------------
  // The URL

  /** The field that the bytes of a state belong to; delimiters belong to none. */
  function FieldOf(s: State): Option<Part> {
    match s
    case ReqSchema => Some(Schema)
    case ReqServer => Some(Host)
    case ReqServerWithAt => Some(Host)
    case ReqPath => Some(Path)
    case ReqQueryString => Some(Query)
    case ReqFragment => Some(Fragment)
    case _ => None
  }

  /** The variables of the loop. The fields that are set are the keys of `fields`. */
  datatype Scan = Scan(s: State, fields: map<Part, Span>, last: Option<Part>, at: bool)

  function ScanByte(c: Scan, i: nat, ch: char): Option<Scan> {
    var t := UrlStep(c.s, ch);
    if t.Dead? then None else
    match FieldOf(t)
    case None => Some(c.(s := t))
    case Some(f) =>
      var span := if c.last == Some(f) && f in c.fields then Longer(c.fields[f]) else Span(i % WIDTH, 1);
      Some(Scan(t, c.fields[f := span], Some(f), c.at || t.ReqServerWithAt?))
  }

  function ScanStart(isConnect: bool): Scan {
    Scan(if isConnect then ReqServerStart else ReqSpacesBeforeUrl, map[], None, false)
  }

  /** The loop over a string. */
  function ScanAll(isConnect: bool, s: string): Option<Scan> {
    if s == "" then Some(ScanStart(isConnect)) else
    match ScanAll(isConnect, s[..|s| - 1])
    case None => None
    case Some(c) => ScanByte(c, |s| - 1, s[|s| - 1])
  }

  // --------------------------------------------------------------------------------------------------------
  // The host

  datatype HostState =
    | HostDead | UserinfoStart | InUserinfo | HostStart | V6Start | InHost | InV6 | V6End | ZoneStart | InZone
    | PortStart | InPort

  function HostStep(s: HostState, ch: char): HostState {
    match s
    case UserinfoStart => if ch == '@' then HostStart else if IsUserinfoChar(ch) then InUserinfo else HostDead
    case InUserinfo => if ch == '@' then HostStart else if IsUserinfoChar(ch) then InUserinfo else HostDead
    case HostStart => if ch == '[' then V6Start else if IsHostChar(ch) then InHost else HostDead
    case InHost => if IsHostChar(ch) then InHost else if ch == ':' then PortStart else HostDead
    case V6End => if ch == ':' then PortStart else HostDead
    case InV6 =>
      if ch == ']' then V6End else if IsHex(ch) || ch == ':' || ch == '.' then InV6
      else if ch == '%' then ZoneStart else HostDead
    case V6Start => if IsHex(ch) || ch == ':' || ch == '.' then InV6 else HostDead
    case InZone => if ch == ']' then V6End else if IsZoneChar(ch) then InZone else HostDead
    case ZoneStart => if IsZoneChar(ch) then InZone else HostDead
    case PortStart => if IsNum(ch) then InPort else HostDead
    case InPort => if IsNum(ch) then InPort else HostDead
    case HostDead => HostDead
  }

  predicate IsZoneChar(ch: char) {
    IsAlphaNum(ch) || ch == '%' || ch == '.' || ch == '-' || ch == '_' || ch == '~'
  }

  datatype HostScan = HostScan(s: HostState, fields: map<Part, Span>)

  /** One byte more of field `f`, which starts here unless `going`. */
  function Extend(fields: map<Part, Span>, f: Part, going: bool, i: nat): map<Part, Span> {
    fields[f := if going && f in fields then Longer(fields[f]) else Span(i % WIDTH, 1)]
  }

  /** The host field keeps its length when its first byte is found: the length was cleared before. */
  function HostByte(h: HostScan, i: nat, ch: char): Option<HostScan>
    requires Host in h.fields
  {
    var t := HostStep(h.s, ch);
    var host := h.fields[Host];
    match t
    case HostDead => None
    case InHost =>
      Some(HostScan(t, h.fields[Host := Longer(if h.s.InHost? then host else host.(off := i % WIDTH))]))
    case InV6 =>
      Some(HostScan(t, h.fields[Host := Longer(if h.s.InV6? then host else host.(off := i % WIDTH))]))
    case ZoneStart => Some(HostScan(t, h.fields[Host := Longer(host)]))
    case InZone => Some(HostScan(t, h.fields[Host := Longer(host)]))
    case InPort => Some(HostScan(t, Extend(h.fields, Port, h.s.InPort?, i)))
    case InUserinfo => Some(HostScan(t, Extend(h.fields, Userinfo, h.s.InUserinfo?, i)))
    case _ => Some(HostScan(t, h.fields))
  }

  function HostBegin(fields: map<Part, Span>, at: bool): HostScan
    requires Host in fields
  {
    HostScan(if at then UserinfoStart else HostStart, fields[Host := fields[Host].(len := 0)])
  }

  /** The loop over the host field `s`, which begins at `base`. */
  function HostAll(fields: map<Part, Span>, at: bool, base: nat, s: string): (r: Option<HostScan>)
    requires Host in fields
    ensures r.Some? ==> Host in r.value.fields
  {
    if s == "" then Some(HostBegin(fields, at)) else
    match HostAll(fields, at, base, s[..|s| - 1])
    case None => None
    case Some(h) => HostByte(h, base + |s| - 1, s[|s| - 1])
  }

  predicate HostMayEnd(s: HostState) { s.InHost? || s.V6End? || s.InPort? }

  // --------------------------------------------------------------------------------------------------------
  // The whole

  /** The value of the port digits, or `None` above 65535. */
  function PortValue(s: string): Option<nat> {
    if s == "" then Some(0) else
    match PortValue(s[..|s| - 1])
    case None => None
    case Some(v) =>
      var d := s[|s| - 1] as int - '0' as int;
      if v * 10 + d < 0 || v * 10 + d > 0xFFFF then None else Some(v * 10 + d)
  }

  datatype UrlParts = UrlParts(fields: map<Part, Span>, port: nat)

  /** The bytes of a span, as far as they are inside the buffer. */
  function Slice(buf: string, s: Span): string {
    if s.off + s.len <= |buf| then buf[s.off..s.off + s.len] else ""
  }

  /** The fields behind `http_parse_host`. */
  function WithHost(buf: string, c: Scan): Option<map<Part, Span>> {
    if Host !in c.fields then Some(c.fields) else
    var h := HostAll(c.fields, c.at, c.fields[Host].off, Slice(buf, c.fields[Host]));
    if h.Some? && HostMayEnd(h.value.s) then Some(h.value.fields) else None
  }

  /** `http_parser_parse_url`. */
  function ParseUrl(buf: string, isConnect: bool): Option<UrlParts> {
    if buf == "" then None else
    var c := ScanAll(isConnect, buf);
    if c.None? || (Schema in c.value.fields && Host !in c.value.fields) then None else
    var fields := WithHost(buf, c.value);
    if fields.None? || (isConnect && fields.value.Keys != {Host, Port}) then None
    else if Port !in fields.value then Some(UrlParts(fields.value, 0))
    else
      var port := PortValue(Slice(buf, fields.value[Port]));
      if port.None? then None else Some(UrlParts(fields.value, port.value))
  }

  // --------------------------------------------------------------------------------------------------------
  // The loops

  method ScanLoop(isConnect: bool, buf: string) returns (r: Option<Scan>)
    ensures r == ScanAll(isConnect, buf)
  {
    hide ScanByte;
    var c := ScanStart(isConnect);
    for i := 0 to |buf|
      invariant ScanAll(isConnect, buf[..i]) == Some(c)
    {
      assert buf[..i + 1][..i] == buf[..i];
      var next := ScanByte(c, i, buf[i]);
      if next.None? {
        ScanStaysDead(isConnect, buf, i + 1);
        return None;
      }
      c := next.value;
    }
    assert buf[..|buf|] == buf;
    return Some(c);
  }

  lemma {:induction false} ScanStaysDead(isConnect: bool, buf: string, k: nat)
    requires k <= |buf| && ScanAll(isConnect, buf[..k]).None?
    ensures ScanAll(isConnect, buf).None?
    decreases |buf| - k
  {
    hide ScanByte;
    if k == |buf| {
      assert buf[..k] == buf;
    } else {
      assert buf[..k + 1][..k] == buf[..k];
      ScanStaysDead(isConnect, buf, k + 1);
    }
  }

  method HostLoop(fields: map<Part, Span>, at: bool, base: nat, s: string) returns (r: Option<HostScan>)
    requires Host in fields
    ensures r == HostAll(fields, at, base, s)
  {
    hide HostByte;
    var h := HostBegin(fields, at);
    for i := 0 to |s|
      invariant Host in h.fields && HostAll(fields, at, base, s[..i]) == Some(h)
    {
      assert s[..i + 1][..i] == s[..i];
      var next := HostByte(h, base + i, s[i]);
      if next.None? {
        HostStaysDead(fields, at, base, s, i + 1);
        return None;
      }
      HostKept(fields, at, base, s[..i + 1]);
      h := next.value;
    }
    assert s[..|s|] == s;
    return Some(h);
  }

  lemma HostKept(fields: map<Part, Span>, at: bool, base: nat, s: string)
    requires Host in fields
    ensures HostAll(fields, at, base, s).Some? ==> Host in HostAll(fields, at, base, s).value.fields
  {
  }

  lemma {:induction false} HostStaysDead(fields: map<Part, Span>, at: bool, base: nat, s: string, k: nat)
    requires Host in fields && k <= |s| && HostAll(fields, at, base, s[..k]).None?
    ensures HostAll(fields, at, base, s).None?
    decreases |s| - k
  {
    hide HostByte;
    if k == |s| {
      assert s[..k] == s;
    } else {
      assert s[..k + 1][..k] == s[..k];
      HostStaysDead(fields, at, base, s, k + 1);
    }
  }

  method PortLoop(s: string) returns (r: Option<nat>)
    ensures r == PortValue(s)
  {
    var v := 0;
    for i := 0 to |s|
      invariant v <= 0xFFFF && PortValue(s[..i]) == Some(v)
    {
      assert s[..i + 1][..i] == s[..i];
      var w := v * 10 + (s[i] as int - '0' as int);
      if w < 0 || w > 0xFFFF {
        PortStaysDead(s, i + 1);
        return None;
      }
      v := w;
    }
    assert s[..|s|] == s;
    return Some(v);
  }

  lemma {:induction false} PortStaysDead(s: string, k: nat)
    requires k <= |s| && PortValue(s[..k]).None?
    ensures PortValue(s).None?
    decreases |s| - k
  {
    if k == |s| {
      assert s[..k] == s;
    } else {
      assert s[..k + 1][..k] == s[..k];
      PortStaysDead(s, k + 1);
    }
  }

  /** The function as the program runs it. */
  method Parse(buf: string, isConnect: bool) returns (r: Option<UrlParts>)
    ensures r == ParseUrl(buf, isConnect)
  {
    hide ScanAll, HostAll, PortValue, Slice;
    if buf == "" {
      return None;
    }
    var c := ScanLoop(isConnect, buf);
    if c.None? || (Schema in c.value.fields && Host !in c.value.fields) {
      return None;
    }
    var fields := c.value.fields;
    if Host in fields {
      var h := HostLoop(fields, c.value.at, fields[Host].off, Slice(buf, fields[Host]));
      if h.None? || !HostMayEnd(h.value.s) {
        return None;
      }
      fields := h.value.fields;
    }
    if isConnect && fields.Keys != {Host, Port} {
      return None;
    }
    if Port !in fields {
      return Some(UrlParts(fields, 0));
    }
    var port := PortLoop(Slice(buf, fields[Port]));
    if port.None? {
      return None;
    }
    return Some(UrlParts(fields, port.value));
  }
}
