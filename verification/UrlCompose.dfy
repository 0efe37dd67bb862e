/** Parsing a URL undoes composing it (section 3 of RFC 3986). */
module UrlCompose {
  import opened HttpTypes
  import opened HttpChars
  import opened HttpTransition
  import opened UrlParse
  import HttpBodies

  /** A host by its name, or an address in brackets with an optional zone. */
  datatype HostText = Name(name: string) | Address(address: string, zone: Option<string>)

  function TextOfHost(h: HostText): string {
    match h
    case Name(n) => n
    case Address(a, zone) => "[" + a + (if zone.Some? then "%" + zone.value else "") + "]"
  }

  predicate All(s: string, p: char -> bool) { forall i | 0 <= i < |s| :: p(s[i]) }

  predicate IsAddressChar(ch: char) { IsHex(ch) || ch == ':' || ch == '.' }

  predicate GoodHost(h: HostText) {
    match h
    case Name(n) => n != "" && All(n, IsHostChar)
    case Address(a, zone) =>
      && a != "" && All(a, IsAddressChar)
      && (zone.Some? ==> zone.value != "" && All(zone.value, IsZoneChar))
  }

  datatype Components = Components(
    schema: string, userinfo: Option<string>, host: HostText, port: Option<string>,
    path: string, query: Option<string>, fragment: Option<string>)

  predicate GoodComponents(c: Components) {
    && c.schema != "" && All(c.schema, IsAlpha)
    && (c.userinfo.Some? ==> c.userinfo.value != "" && All(c.userinfo.value, IsUserinfoChar))
    && GoodHost(c.host)
    && (c.port.Some? ==> c.port.value != "" && HttpBodies.Digits(c.port.value) && HttpBodies.DecValue(c.port.value) <= 0xFFFF)
    && c.path != "" && c.path[0] == '/' && All(c.path, IsUrlChar)
    && (c.query.Some? ==> c.query.value != "" && All(c.query.value, IsQueryChar))
    && (c.fragment.Some? ==>
          c.fragment.value != "" && c.fragment.value[0] != '#' && All(c.fragment.value, IsFragmentChar))
  }

  predicate IsQueryChar(ch: char) { IsUrlChar(ch) || ch == '?' }

  predicate IsFragmentChar(ch: char) { IsUrlChar(ch) || ch == '?' || ch == '#' }

  function Prefixed(mark: string, s: Option<string>): string { if s.Some? then mark + s.value else "" }

  function UserinfoText(c: Components): string { if c.userinfo.Some? then c.userinfo.value + "@" else "" }

  /** The host with its port. */
  function Server(c: Components): string { TextOfHost(c.host) + Prefixed(":", c.port) }

  function Authority(c: Components): string { UserinfoText(c) + Server(c) }

  function Compose(c: Components): string {
    c.schema + "://" + Authority(c) + c.path + Prefixed("?", c.query) + Prefixed("#", c.fragment)
  }

  // --------------------------------------------------------------------------------------------------------
  // Where the fields are

  function HostSpan(h: HostText, at: nat): Span {
    match h
    case Name(n) => Span(at, |n|)
    case Address(a, zone) => Span(at + 1, |a| + (if zone.Some? then 1 + |zone.value| else 0))
  }

  function Put(m: map<Part, Span>, f: Part, off: nat, s: Option<string>): map<Part, Span> {
    if s.Some? then m[f := Span(off, |s.value|)] else m
  }

  /** The fields that the loop over the URL finds: the host field is the whole authority. */
  function CoarseFields(c: Components): map<Part, Span> {
    var o1 := |c.schema| + 3;
    var o2 := o1 + |Authority(c)|;
    var o3 := o2 + |c.path| + 1;
    var m := map[Schema := Span(0, |c.schema|), Host := Span(o1, |Authority(c)|), Path := Span(o2, |c.path|)];
    Put(Put(m, Query, o3, c.query), Fragment, o2 + |c.path| + |Prefixed("?", c.query)| + 1, c.fragment)
  }

  /** The fields in the end. */
  function Fields(c: Components): map<Part, Span> {
    var o1 := |c.schema| + 3;
    var o2 := o1 + |UserinfoText(c)|;
    var m := CoarseFields(c)[Host := HostSpan(c.host, o2)];
    Put(Put(m, Userinfo, o1, c.userinfo), Port, o2 + |TextOfHost(c.host)| + 1, c.port)
  }

  // --------------------------------------------------------------------------------------------------------
  // Segments of the URL

  lemma FieldByte(c: Scan, i: nat, ch: char, t: State, f: Part)
    requires UrlStep(c.s, ch) == t && FieldOf(t) == Some(f) && !t.ReqServerWithAt?
    requires c.last == Some(f) ==> f in c.fields
    ensures ScanByte(c, i, ch) ==
            Some(Scan(t, c.fields[f := if c.last == Some(f) then Longer(c.fields[f]) else Span(i % WIDTH, 1)], Some(f), c.at))
  {
    hide UrlStep, FieldOf;
    DeadHasNoField();
  }

  /** What a field is after `n` more bytes, which begin at `off` if the field does. */
  function SpanOver(c: Scan, f: Part, off: nat, n: nat): Span
    requires c.last == Some(f) ==> f in c.fields
  {
    if c.last == Some(f) then Span(c.fields[f].off, c.fields[f].len + n) else Span(off, n)
  }

  lemma FirstByte(isConnect: bool, x: string, ch: char, c: Scan, t: State, f: Part)
    requires ScanAll(isConnect, x) == Some(c) && |x| + 1 < WIDTH
    requires UrlStep(c.s, ch) == t && FieldOf(t) == Some(f) && !t.ReqServerWithAt?
    requires c.last == Some(f) ==> f in c.fields && c.fields[f].len + 1 < WIDTH
    ensures ScanAll(isConnect, x + [ch]) == Some(Scan(t, c.fields[f := SpanOver(c, f, |x|, 1)], Some(f), c.at))
  {
    hide UrlStep, FieldOf, ScanByte, ScanAll;
    ScanOneMore(isConnect, x, ch);
    FieldByte(c, |x|, ch, t, f);
  }

  lemma OtherByte(isConnect: bool, xz: string, ch: char, fields: map<Part, Span>, t: State, f: Part, a: Span, at: bool)
    requires ScanAll(isConnect, xz) == Some(Scan(t, fields[f := a], Some(f), at)) && a.len + 1 < WIDTH
    requires UrlStep(t, ch) == t && FieldOf(t) == Some(f) && !t.ReqServerWithAt?
    ensures ScanAll(isConnect, xz + [ch]) == Some(Scan(t, fields[f := Span(a.off, a.len + 1)], Some(f), at))
  {
    hide UrlStep, FieldOf, ScanByte, ScanAll;
    ScanOneMore(isConnect, xz, ch);
    FieldByte(Scan(t, fields[f := a], Some(f), at), |xz|, ch, t, f);
    PutTwice(fields, f, a);
  }

  /** A segment of bytes that lead to state `t` of field `f` and stay there. */
  lemma {:induction false} Segment(isConnect: bool, x: string, y: string, c: Scan, t: State, f: Part)
    requires ScanAll(isConnect, x) == Some(c) && y != "" && |x + y| < WIDTH
    requires UrlStep(c.s, y[0]) == t && FieldOf(t) == Some(f) && !t.ReqServerWithAt?
    requires forall i | 1 <= i < |y| :: UrlStep(t, y[i]) == t
    requires c.last == Some(f) ==> f in c.fields && c.fields[f].len + |y| < WIDTH
    ensures ScanAll(isConnect, x + y) == Some(Scan(t, c.fields[f := SpanOver(c, f, |x|, |y|)], Some(f), c.at))
  {
    hide UrlStep, FieldOf, ScanByte, ScanAll;
    var z, ch := y[..|y| - 1], y[|y| - 1];
    assert y == z + [ch] && x + y == (x + z) + [ch];
    if z == "" {
      assert y == [ch];
      FirstByte(isConnect, x, ch, c, t, f);
    } else {
      Segment(isConnect, x, z, c, t, f);
      OtherByte(isConnect, x + z, ch, c.fields, t, f, SpanOver(c, f, |x|, |z|), c.at);
    }
  }

  lemma ScanOneMore(isConnect: bool, s: string, ch: char)
    ensures ScanAll(isConnect, s + [ch]) ==
            if ScanAll(isConnect, s).None? then None else ScanByte(ScanAll(isConnect, s).value, |s|, ch)
  {
    hide ScanByte;
    assert (s + [ch])[..|s|] == s;
  }

  lemma PutTwice(m: map<Part, Span>, f: Part, a: Span)
    ensures m[f := a][f := Longer(a)] == m[f := Longer(a)]
  {
  }

  lemma DeadHasNoField()
    ensures FieldOf(Dead).None?
  {
  }

  /** A delimiter. */
  lemma Delimiter(isConnect: bool, x: string, ch: char, c: Scan, t: State)
    requires ScanAll(isConnect, x) == Some(c) && UrlStep(c.s, ch) == t && !t.Dead? && FieldOf(t).None?
    ensures ScanAll(isConnect, x + [ch]) == Some(c.(s := t))
  {
    hide UrlStep, FieldOf;
    ScanOneMore(isConnect, x, ch);
  }

  /** The at-sign behind the user information belongs to the host field here. */
  lemma AtSign(isConnect: bool, x: string, c: Scan)
    requires ScanAll(isConnect, x) == Some(c) && c.s.ReqServer? && c.last == Some(Host) && Host in c.fields
    requires c.fields[Host].len + 1 < WIDTH
    ensures ScanAll(isConnect, x + "@") ==
            Some(Scan(ReqServerWithAt, c.fields[Host := Span(c.fields[Host].off, c.fields[Host].len + 1)], Some(Host), true))
  {
    assert (x + "@")[..|x|] == x;
  }

  predicate IsServerChar(ch: char) { IsUserinfoChar(ch) || ch == '[' || ch == ']' }

  lemma ServerChar(ch: char)
    requires IsServerChar(ch)
    ensures UrlStep(ReqServer, ch) == ReqServer && UrlStep(ReqServerStart, ch) == ReqServer
    ensures UrlStep(ReqServerWithAt, ch) == ReqServer
  {
  }

  lemma HostCharsAreServerChars(ch: char)
    ensures IsHostChar(ch) || IsZoneChar(ch) || IsHex(ch) || IsNum(ch) || ch == ':' || ch == '.' ==> IsServerChar(ch)
  {
  }

  /** A host with its port is made of server characters. */
  lemma ServerIsServerChars(c: Components)
    requires GoodHost(c.host) && (c.port.Some? ==> HttpBodies.Digits(c.port.value))
    ensures Server(c) != "" && All(Server(c), IsServerChar)
  {
    hide IsServerChar, IsHostChar, IsZoneChar, IsHex, IsNum;
    var s := Server(c);
    forall ch { HostCharsAreServerChars(ch); }
    assert IsServerChar('[') && IsServerChar(']') && IsServerChar('%') by { BracketsAreServerChars(); }
  }

  lemma BracketsAreServerChars()
    ensures IsServerChar('[') && IsServerChar(']') && IsServerChar('%')
  {
  }

  // --------------------------------------------------------------------------------------------------------
  // The scan of a composed URL

  lemma Letter(ch: char)
    ensures IsAlpha(ch) ==> UrlStep(ReqSpacesBeforeUrl, ch) == ReqSchema && UrlStep(ReqSchema, ch) == ReqSchema
    ensures IsUrlChar(ch) ==> UrlStep(ReqPath, ch) == ReqPath
    ensures IsQueryChar(ch) ==> UrlStep(ReqQueryStringStart, ch) == ReqQueryString && UrlStep(ReqQueryString, ch) == ReqQueryString
    ensures IsFragmentChar(ch) ==> UrlStep(ReqFragment, ch) == ReqFragment
    ensures IsFragmentChar(ch) && ch != '#' ==> UrlStep(ReqFragmentStart, ch) == ReqFragment
  {
  }

  lemma Marks()
    ensures UrlStep(ReqSchema, ':') == ReqSchemaSlash && UrlStep(ReqSchemaSlash, '/') == ReqSchemaSlashSlash
    ensures UrlStep(ReqSchemaSlashSlash, '/') == ReqServerStart && UrlStep(ReqServer, '/') == ReqPath
    ensures UrlStep(ReqPath, '?') == ReqQueryStringStart && UrlStep(ReqPath, '#') == ReqFragmentStart
    ensures UrlStep(ReqQueryString, '#') == ReqFragmentStart
  {
    hide UrlStep;
    AuthorityMarks();
    PathMarks();
  }

  lemma AuthorityMarks()
    ensures UrlStep(ReqSchema, ':') == ReqSchemaSlash && UrlStep(ReqSchemaSlash, '/') == ReqSchemaSlashSlash
    ensures UrlStep(ReqSchemaSlashSlash, '/') == ReqServerStart && UrlStep(ReqServer, '/') == ReqPath
  {
  }

  lemma PathMarks()
    ensures UrlStep(ReqPath, '?') == ReqQueryStringStart && UrlStep(ReqPath, '#') == ReqFragmentStart
    ensures UrlStep(ReqQueryString, '#') == ReqFragmentStart
  {
  }

  lemma FieldsOfStates()
    ensures FieldOf(ReqSchema) == Some(Schema) && FieldOf(ReqServer) == Some(Host) && FieldOf(ReqPath) == Some(Path)
    ensures FieldOf(ReqQueryString) == Some(Query) && FieldOf(ReqFragment) == Some(Fragment)
    ensures FieldOf(ReqSchemaSlash).None? && FieldOf(ReqSchemaSlashSlash).None? && FieldOf(ReqServerStart).None?
    ensures FieldOf(ReqQueryStringStart).None? && FieldOf(ReqFragmentStart).None?
  {
  }

  lemma SchemaRun(s: string)
    requires s != "" && All(s, IsAlpha)
    ensures UrlStep(ReqSpacesBeforeUrl, s[0]) == ReqSchema && forall i | 0 <= i < |s| :: UrlStep(ReqSchema, s[i]) == ReqSchema
  {
    hide UrlStep, IsAlpha;
    forall i | 0 <= i < |s| ensures UrlStep(ReqSchema, s[i]) == ReqSchema {
      Letter(s[i]);
    }
    Letter(s[0]);
  }

  lemma PathRun(s: string)
    requires All(s, IsUrlChar)
    ensures forall i | 0 <= i < |s| :: UrlStep(ReqPath, s[i]) == ReqPath
  {
    hide UrlStep, IsUrlChar;
    forall i | 0 <= i < |s| ensures UrlStep(ReqPath, s[i]) == ReqPath {
      Letter(s[i]);
    }
  }

  lemma QueryRun(s: string)
    requires s != "" && All(s, IsQueryChar)
    ensures UrlStep(ReqQueryStringStart, s[0]) == ReqQueryString && forall i | 0 <= i < |s| :: UrlStep(ReqQueryString, s[i]) == ReqQueryString
  {
    hide UrlStep, IsQueryChar;
    forall i | 0 <= i < |s| ensures UrlStep(ReqQueryString, s[i]) == ReqQueryString {
      Letter(s[i]);
    }
    Letter(s[0]);
  }

  lemma FragmentRun(s: string)
    requires s != "" && s[0] != '#' && All(s, IsFragmentChar)
    ensures UrlStep(ReqFragmentStart, s[0]) == ReqFragment && forall i | 0 <= i < |s| :: UrlStep(ReqFragment, s[i]) == ReqFragment
  {
    hide UrlStep, IsFragmentChar;
    forall i | 0 <= i < |s| ensures UrlStep(ReqFragment, s[i]) == ReqFragment {
      Letter(s[i]);
    }
    Letter(s[0]);
  }

  lemma ScanSchema(c: Components)
    requires GoodComponents(c) && |Compose(c)| < WIDTH
    ensures ScanAll(false, c.schema + "://") ==
            Some(Scan(ReqServerStart, map[Schema := Span(0, |c.schema|)], Some(Schema), false))
  {
    hide ScanAll, UrlStep, FieldOf, ScanByte, IsAlpha;
    Marks();
    FieldsOfStates();
    SchemaRun(c.schema);
    var s := c.schema;
    ScanNothing();
    assert "" + s == s;
    Segment(false, "", s, ScanStart(false), ReqSchema, Schema);
    var m := map[Schema := Span(0, |s|)];
    assert ScanStart(false).fields[Schema := Span(0, |s|)] == m;
    var c1 := Scan(ReqSchema, m, Some(Schema), false);
    Delimiter(false, s, ':', c1, ReqSchemaSlash);
    Delimiter(false, s + ":", '/', c1.(s := ReqSchemaSlash), ReqSchemaSlashSlash);
    Delimiter(false, s + ":" + "/", '/', c1.(s := ReqSchemaSlashSlash), ReqServerStart);
    assert s + ":" + "/" + "/" == s + "://";
  }

  lemma ScanNothing()
    ensures ScanAll(false, "") == Some(ScanStart(false))
  {
  }

  lemma ScanAuthority(c: Components)
    requires GoodComponents(c) && |Compose(c)| < WIDTH
    ensures ScanAll(false, c.schema + "://" + Authority(c)) ==
            Some(Scan(ReqServer, map[Schema := Span(0, |c.schema|), Host := Span(|c.schema| + 3, |Authority(c)|)],
                      Some(Host), c.userinfo.Some?))
  {
    hide ScanAll, UrlStep, FieldOf, ScanByte, IsServerChar, IsUserinfoChar;
    FieldsOfStates();
    ScanSchema(c);
    ServerIsServerChars(c);
    var x, y, o := c.schema + "://", Server(c), |c.schema| + 3;
    var m := map[Schema := Span(0, |c.schema|)];
    var c0 := Scan(ReqServerStart, m, Some(Schema), false);
    ServerRun(y);
    if c.userinfo.None? {
      assert Authority(c) == y;
      Segment(false, x, y, c0, ReqServer, Host);
    } else {
      var u := c.userinfo.value;
      UserinfoIsServerChars(u);
      ServerRun(u);
      Segment(false, x, u, c0, ReqServer, Host);
      var c1 := Scan(ReqServer, m[Host := Span(o, |u|)], Some(Host), false);
      AtSign(false, x + u, c1);
      var c2 := Scan(ReqServerWithAt, m[Host := Span(o, |u| + 1)], Some(Host), true);
      assert c1.fields[Host := Span(o, |u| + 1)] == c2.fields;
      Segment(false, x + u + "@", y, c2, ReqServer, Host);
      assert x + u + "@" + y == x + Authority(c);
      assert c2.fields[Host := Span(o, |u| + 1 + |y|)] == m[Host := Span(o, |Authority(c)|)];
    }
  }

  lemma UserinfoIsServerChars(u: string)
    requires All(u, IsUserinfoChar)
    ensures All(u, IsServerChar)
  {
  }

  lemma ServerRun(y: string)
    requires y != "" && All(y, IsServerChar)
    ensures UrlStep(ReqServerStart, y[0]) == ReqServer && UrlStep(ReqServerWithAt, y[0]) == ReqServer
    ensures forall i | 0 <= i < |y| :: UrlStep(ReqServer, y[i]) == ReqServer
  {
    hide UrlStep, IsServerChar;
    forall i | 0 <= i < |y| ensures UrlStep(ReqServer, y[i]) == ReqServer {
      ServerChar(y[i]);
    }
    ServerChar(y[0]);
  }

  /** A fragment, if there is one, behind a path or a query. */
  lemma FragmentScanned(x: string, c: Scan, fragment: Option<string>)
    requires ScanAll(false, x) == Some(c) && UrlStep(c.s, '#') == ReqFragmentStart && Fragment !in c.fields
    requires fragment.Some? ==> fragment.value != "" && fragment.value[0] != '#' && All(fragment.value, IsFragmentChar) && |x| + 1 + |fragment.value| < WIDTH
    requires c.last != Some(Fragment)
    ensures var r := ScanAll(false, x + Prefixed("#", fragment));
      && r.Some? && r.value.at == c.at
      && r.value.fields == if fragment.Some? then c.fields[Fragment := Span(|x| + 1, |fragment.value|)] else c.fields
  {
    hide ScanAll, UrlStep, FieldOf, IsFragmentChar;
    if fragment.Some? {
      var f := fragment.value;
      FieldsOfStates();
      FragmentRun(f);
      Delimiter(false, x, '#', c, ReqFragmentStart);
      Segment(false, x + "#", f, c.(s := ReqFragmentStart), ReqFragment, Fragment);
      assert x + Prefixed("#", fragment) == x + "#" + f;
    } else {
      assert x + Prefixed("#", fragment) == x;
    }
  }

  /** The loop over a composed URL finds its parts, with the whole authority as the host. */
  lemma ScanComposed(c: Components)
    requires GoodComponents(c) && |Compose(c)| < WIDTH
    ensures var r := ScanAll(false, Compose(c));
            r.Some? && r.value.fields == CoarseFields(c) && r.value.at == c.userinfo.Some?
  {
    hide ScanAll, UrlStep, FieldOf, ScanByte, Authority, IsUrlChar, IsQueryChar, IsFragmentChar;
    Marks();
    FieldsOfStates();
    ScanAuthority(c);
    PathRun(c.path);
    var x, at := c.schema + "://" + Authority(c), c.userinfo.Some?;
    var m0 := map[Schema := Span(0, |c.schema|), Host := Span(|c.schema| + 3, |Authority(c)|)];
    Segment(false, x, c.path, Scan(ReqServer, m0, Some(Host), at), ReqPath, Path);
    var m1 := m0[Path := Span(|x|, |c.path|)];
    var x1, c1 := x + c.path, Scan(ReqPath, m1, Some(Path), at);
    var x2, c2 := x1, c1;
    if c.query.Some? {
      var q := c.query.value;
      QueryRun(q);
      Delimiter(false, x1, '?', c1, ReqQueryStringStart);
      Segment(false, x1 + "?", q, c1.(s := ReqQueryStringStart), ReqQueryString, Query);
      x2, c2 := x1 + "?" + q, Scan(ReqQueryString, m1[Query := Span(|x1| + 1, |q|)], Some(Query), at);
      assert x1 + Prefixed("?", c.query) == x2;
    } else {
      assert x1 + Prefixed("?", c.query) == x2;
    }
    FragmentScanned(x2, c2, c.fragment);
  }

  // --------------------------------------------------------------------------------------------------------
  // The host of a composed URL

  lemma HostOneMore(m: map<Part, Span>, at: bool, base: nat, s: string, ch: char)
    requires Host in m
    ensures HostAll(m, at, base, s + [ch]) ==
            if HostAll(m, at, base, s).None? then None else HostByte(HostAll(m, at, base, s).value, base + |s|, ch)
  {
    hide HostByte;
    assert (s + [ch])[..|s|] == s;
  }

  /** The field whose bytes a state of the host automaton reads. */
  function HostField(t: HostState): Part {
    match t case InUserinfo => Userinfo case InPort => Port case _ => Host
  }

  lemma HostFieldByte(h: HostScan, i: nat, ch: char, t: HostState)
    requires HostStep(h.s, ch) == t && Host in h.fields && i < WIDTH
    requires t.InUserinfo? || t.InHost? || t.InV6? || t.InZone? || t.InPort?
    requires h.s == t ==> HostField(t) in h.fields
    requires h.s != t && (t.InHost? || t.InV6?) ==> h.fields[Host].len == 0
    ensures HostByte(h, i, ch) ==
            Some(HostScan(t, h.fields[HostField(t) :=
                   if h.s == t || t.InZone? then Longer(h.fields[HostField(t)]) else Span(i, 1)]))
  {
    hide HostStep;
  }

  /** A segment of bytes that lead to `t` and stay there. In a zone the host field goes on; in the other states a
      field begins, the host with the length it has, which is 0 before a name or an address. */
  lemma {:induction false} HostSegment(
      m: map<Part, Span>, at: bool, base: nat, x: string, y: string, h: HostScan, t: HostState)
    requires Host in m && HostAll(m, at, base, x) == Some(h) && y != "" && base + |x + y| < WIDTH
    requires t.InUserinfo? || t.InHost? || t.InV6? || t.InZone? || t.InPort?
    requires HostStep(h.s, y[0]) == t && h.s != t && forall i | 1 <= i < |y| :: HostStep(t, y[i]) == t
    requires Host in h.fields && (t.InHost? || t.InV6? ==> h.fields[Host].len == 0)
    requires t.InZone? ==> h.fields[Host].len + |y| < WIDTH
    ensures HostAll(m, at, base, x + y) ==
            Some(HostScan(t, h.fields[HostField(t) :=
                   if t.InZone? then Span(h.fields[Host].off, h.fields[Host].len + |y|) else Span(base + |x|, |y|)]))
  {
    hide HostStep, HostAll, HostByte;
    var z, ch := y[..|y| - 1], y[|y| - 1];
    assert y == z + [ch] && x + y == (x + z) + [ch];
    HostOneMore(m, at, base, x + z, ch);
    if z == "" {
      assert x + z == x;
      HostFieldByte(h, base + |x|, ch, t);
    } else {
      HostSegment(m, at, base, x, z, h, t);
      HostFieldByte(HostAll(m, at, base, x + z).value, base + |x + z|, ch, t);
      PutTwice(h.fields, HostField(t),
               if t.InZone? then Span(h.fields[Host].off, h.fields[Host].len + |z|) else Span(base + |x|, |z|));
    }
  }

  /** A delimiter in the host; the percent sign before a zone counts with the host. */
  lemma HostDelimiter(m: map<Part, Span>, at: bool, base: nat, x: string, ch: char, h: HostScan, t: HostState)
    requires Host in m && HostAll(m, at, base, x) == Some(h) && HostStep(h.s, ch) == t && Host in h.fields
    requires t.HostStart? || t.V6Start? || t.V6End? || t.PortStart? || t.ZoneStart?
    requires t.ZoneStart? ==> h.fields[Host].len + 1 < WIDTH
    ensures HostAll(m, at, base, x + [ch]) ==
            Some(HostScan(t, if t.ZoneStart? then h.fields[Host := Span(h.fields[Host].off, h.fields[Host].len + 1)] else h.fields))
  {
    hide HostStep, HostAll;
    HostOneMore(m, at, base, x, ch);
  }

  lemma HostLetter(ch: char)
    ensures IsUserinfoChar(ch) ==> HostStep(UserinfoStart, ch) == InUserinfo && HostStep(InUserinfo, ch) == InUserinfo
    ensures IsHostChar(ch) ==> HostStep(HostStart, ch) == InHost && HostStep(InHost, ch) == InHost
    ensures IsHex(ch) || ch == ':' || ch == '.' ==> HostStep(V6Start, ch) == InV6 && HostStep(InV6, ch) == InV6
    ensures IsZoneChar(ch) ==> HostStep(ZoneStart, ch) == InZone && HostStep(InZone, ch) == InZone
    ensures IsNum(ch) ==> HostStep(PortStart, ch) == InPort && HostStep(InPort, ch) == InPort
  {
  }

  lemma HostMarks()
    ensures HostStep(InUserinfo, '@') == HostStart && HostStep(HostStart, '[') == V6Start
    ensures HostStep(InV6, '%') == ZoneStart && HostStep(InV6, ']') == V6End && HostStep(InZone, ']') == V6End
    ensures HostStep(InHost, ':') == PortStart && HostStep(V6End, ':') == PortStart
  {
  }

  lemma UserinfoRun(u: string)
    requires u != "" && All(u, IsUserinfoChar)
    ensures HostStep(UserinfoStart, u[0]) == InUserinfo && forall i | 0 <= i < |u| :: HostStep(InUserinfo, u[i]) == InUserinfo
  {
    hide HostStep, IsUserinfoChar;
    forall i | 0 <= i < |u| ensures HostStep(InUserinfo, u[i]) == InUserinfo {
      HostLetter(u[i]);
    }
    HostLetter(u[0]);
  }

  lemma PortRun(p: string)
    requires p != "" && HttpBodies.Digits(p)
    ensures HostStep(PortStart, p[0]) == InPort && forall i | 0 <= i < |p| :: HostStep(InPort, p[i]) == InPort
  {
    hide HostStep, IsNum;
    forall i | 0 <= i < |p| ensures HostStep(InPort, p[i]) == InPort {
      HostLetter(p[i]);
    }
    HostLetter(p[0]);
  }

  /** User information and the at-sign. */
  lemma HostUserinfo(m: map<Part, Span>, c: Components, base: nat)
    requires GoodComponents(c) && Host in m && base + |Authority(c)| < WIDTH
    ensures var m0 := m[Host := m[Host].(len := 0)];
            HostAll(m, c.userinfo.Some?, base, UserinfoText(c)) == Some(HostScan(HostStart, Put(m0, Userinfo, base, c.userinfo)))
  {
    hide HostStep, IsUserinfoChar;
    HostMarks();
    if c.userinfo.Some? {
      UserinfoRun(c.userinfo.value);
      var u := c.userinfo.value;
      var h := HostBegin(m, true);
      assert "" + u == u;
      HostSegment(m, true, base, "", u, h, InUserinfo);
      HostDelimiter(m, true, base, u, '@', HostScan(InUserinfo, h.fields[Userinfo := Span(base, |u|)]), HostStart);
    }
  }

  lemma AddressRun(a: string)
    requires a != "" && All(a, IsAddressChar)
    ensures HostStep(V6Start, a[0]) == InV6 && forall i | 0 <= i < |a| :: HostStep(InV6, a[i]) == InV6
  {
    hide HostStep;
    forall i | 0 <= i < |a| ensures HostStep(InV6, a[i]) == InV6 {
      HostLetter(a[i]);
    }
    HostLetter(a[0]);
  }

  lemma ZoneRun(z: string)
    requires z != "" && All(z, IsZoneChar)
    ensures HostStep(ZoneStart, z[0]) == InZone && forall i | 0 <= i < |z| :: HostStep(InZone, z[i]) == InZone
  {
    hide HostStep, IsZoneChar;
    forall i | 0 <= i < |z| ensures HostStep(InZone, z[i]) == InZone {
      HostLetter(z[i]);
    }
    HostLetter(z[0]);
  }

  lemma NameRun(n: string)
    requires n != "" && All(n, IsHostChar)
    ensures HostStep(HostStart, n[0]) == InHost && forall i | 0 <= i < |n| :: HostStep(InHost, n[i]) == InHost
  {
    hide HostStep, IsHostChar;
    forall i | 0 <= i < |n| ensures HostStep(InHost, n[i]) == InHost {
      HostLetter(n[i]);
    }
    HostLetter(n[0]);
  }

  /** An address up to its closing bracket. */
  lemma HostAddress(m: map<Part, Span>, at: bool, base: nat, x: string, h: HostScan, a: string, zone: Option<string>)
    requires GoodHost(Address(a, zone)) && Host in m && HostAll(m, at, base, x) == Some(h) && h.s.HostStart?
    requires Host in h.fields && h.fields[Host].len == 0 && base + |x| + |TextOfHost(Address(a, zone))| < WIDTH
    ensures HostAll(m, at, base, x + TextOfHost(Address(a, zone))) ==
            Some(HostScan(V6End, h.fields[Host := HostSpan(Address(a, zone), base + |x|)]))
  {
    AddressGood(a, zone);
    AddressRun(a);
    hide HostStep, HostAll, HostByte, All;
    HostBracket(m, at, base, x, h, a);
    match zone
    case None => PlainAddress(m, at, base, x, h, a);
    case Some(z) => ZoneAddress(m, at, base, x, h, a, z);
  }

  lemma PlainAddress(m: map<Part, Span>, at: bool, base: nat, x: string, h: HostScan, a: string)
    requires Host in m && HostAll(m, at, base, x + "[" + a) == Some(HostScan(InV6, h.fields[Host := Span(base + |x| + 1, |a|)]))
    ensures HostAll(m, at, base, x + TextOfHost(Address(a, None))) ==
            Some(HostScan(V6End, h.fields[Host := HostSpan(Address(a, None), base + |x|)]))
  {
    hide HostAll;
    HostClose(m, at, base, x + "[" + a, h.fields, Span(base + |x| + 1, |a|));
    assert x + "[" + a + "]" == x + TextOfHost(Address(a, None));
  }

  lemma ZoneAddress(m: map<Part, Span>, at: bool, base: nat, x: string, h: HostScan, a: string, z: string)
    requires z != "" && All(z, IsZoneChar) && Host in m && Host in h.fields && base + |x| + |a| + |z| + 3 < WIDTH
    requires HostAll(m, at, base, x + "[" + a) == Some(HostScan(InV6, h.fields[Host := Span(base + |x| + 1, |a|)]))
    ensures HostAll(m, at, base, x + TextOfHost(Address(a, Some(z)))) ==
            Some(HostScan(V6End, h.fields[Host := HostSpan(Address(a, Some(z)), base + |x|)]))
  {
    hide HostAll, All;
    HostZone(m, at, base, x, h, a, z);
    assert x + "[" + a + "%" + z + "]" == x + TextOfHost(Address(a, Some(z)));
  }

  lemma AddressGood(a: string, zone: Option<string>)
    requires GoodHost(Address(a, zone))
    ensures a != "" && All(a, IsAddressChar) && (zone.Some? ==> zone.value != "" && All(zone.value, IsZoneChar))
  {
  }

  lemma HostClose(m: map<Part, Span>, at: bool, base: nat, y: string, fields: map<Part, Span>, host: Span)
    requires Host in m && HostAll(m, at, base, y) == Some(HostScan(InV6, fields[Host := host]))
    ensures HostAll(m, at, base, y + "]") == Some(HostScan(V6End, fields[Host := host]))
  {
    hide HostStep, HostAll;
    HostMarks();
    HostDelimiter(m, at, base, y, ']', HostScan(InV6, fields[Host := host]), V6End);
  }

  lemma HostBracket(m: map<Part, Span>, at: bool, base: nat, x: string, h: HostScan, a: string)
    requires a != "" && HostStep(V6Start, a[0]) == InV6 && forall i | 0 <= i < |a| :: HostStep(InV6, a[i]) == InV6
    requires Host in m && HostAll(m, at, base, x) == Some(h) && h.s.HostStart? && Host in h.fields && h.fields[Host].len == 0
    requires base + |x| + 1 + |a| < WIDTH
    ensures HostAll(m, at, base, x + "[" + a) == Some(HostScan(InV6, h.fields[Host := Span(base + |x| + 1, |a|)]))
  {
    hide HostStep, HostAll, HostByte;
    HostMarks();
    HostDelimiter(m, at, base, x, '[', h, V6Start);
    HostSegment(m, at, base, x + "[", a, h.(s := V6Start), InV6);
  }

  lemma HostZone(m: map<Part, Span>, at: bool, base: nat, x: string, h: HostScan, a: string, z: string)
    requires z != "" && All(z, IsZoneChar) && Host in m && Host in h.fields && base + |x| + |a| + |z| + 3 < WIDTH
    requires HostAll(m, at, base, x + "[" + a) == Some(HostScan(InV6, h.fields[Host := Span(base + |x| + 1, |a|)]))
    ensures HostAll(m, at, base, x + "[" + a + "%" + z + "]") ==
            Some(HostScan(V6End, h.fields[Host := Span(base + |x| + 1, |a| + 1 + |z|)]))
  {
    hide HostStep, HostAll, IsZoneChar, HostByte;
    HostMarks();
    ZoneRun(z);
    var o, y := base + |x| + 1, x + "[" + a;
    var h1 := HostScan(InV6, h.fields[Host := Span(o, |a|)]);
    HostDelimiter(m, at, base, y, '%', h1, ZoneStart);
    var h2 := HostScan(ZoneStart, h.fields[Host := Span(o, |a| + 1)]);
    assert h1.fields[Host := Span(o, |a| + 1)] == h2.fields;
    HostSegment(m, at, base, y + "%", z, h2, InZone);
    var h3 := HostScan(InZone, h.fields[Host := Span(o, |a| + 1 + |z|)]);
    assert h2.fields[Host := Span(o, |a| + 1 + |z|)] == h3.fields;
    HostDelimiter(m, at, base, y + "%" + z, ']', h3, V6End);
  }

  /** The host itself. */
  lemma HostProper(m: map<Part, Span>, at: bool, base: nat, x: string, h: HostScan, t: HostText)
    requires GoodHost(t) && Host in m && HostAll(m, at, base, x) == Some(h) && h.s.HostStart?
    requires Host in h.fields && h.fields[Host].len == 0 && base + |x| + |TextOfHost(t)| < WIDTH
    ensures HostAll(m, at, base, x + TextOfHost(t)) ==
            Some(HostScan(if t.Name? then InHost else V6End, h.fields[Host := HostSpan(t, base + |x|)]))
  {
    hide HostStep, HostAll, HostByte;
    match t
    case Name(n) =>
      NameRun(n);
      HostSegment(m, at, base, x, n, h, InHost);
    case Address(a, zone) =>
      HostAddress(m, at, base, x, h, a, zone);
  }

  /** The whole authority. */
  lemma HostComposed(m: map<Part, Span>, c: Components, base: nat)
    requires GoodComponents(c) && Host in m && base + |Authority(c)| < WIDTH
    ensures var r := HostAll(m, c.userinfo.Some?, base, Authority(c));
            var o := base + |UserinfoText(c)|;
            && r.Some? && HostMayEnd(r.value.s)
            && r.value.fields == Put(Put(m[Host := HostSpan(c.host, o)], Userinfo, base, c.userinfo),
                                     Port, o + |TextOfHost(c.host)| + 1, c.port)
  {
    hide HostStep, HostAll, GoodHost, IsNum, TextOfHost;
    HostMarks();
    HostUserinfo(m, c, base);
    var x, at := UserinfoText(c), c.userinfo.Some?;
    var h := HostScan(HostStart, Put(m[Host := m[Host].(len := 0)], Userinfo, base, c.userinfo));
    HostProper(m, at, base, x, h, c.host);
    var t := TextOfHost(c.host);
    var h1 := HostScan(if c.host.Name? then InHost else V6End, h.fields[Host := HostSpan(c.host, base + |x|)]);
    if c.port.None? {
      assert Authority(c) == x + t;
    } else {
      var p := c.port.value;
      PortRun(p);
      HostDelimiter(m, at, base, x + t, ':', h1, PortStart);
      HostSegment(m, at, base, x + t + ":", p, h1.(s := PortStart), InPort);
      assert x + t + ":" + p == Authority(c);
    }
  }

  lemma {:induction false} PortIsNumber(s: string)
    requires HttpBodies.Digits(s)
    ensures PortValue(s) == if HttpBodies.DecValue(s) <= 0xFFFF then Some(HttpBodies.DecValue(s)) else None
    decreases |s|
  {
    if s != "" {
      var x := s[..|s| - 1];
      assert IsNum(s[|s| - 1]);
      PortIsNumber(x);
      HttpBodies.DecValueMonotone(s);
    }
  }

  lemma Lengths(c: Components)
    ensures |Compose(c)| == |c.schema| + 3 + |Authority(c)| + |c.path| + |Prefixed("?", c.query)| + |Prefixed("#", c.fragment)|
    ensures |Authority(c)| == |UserinfoText(c)| + |TextOfHost(c.host)| + |Prefixed(":", c.port)|
  {
  }

  /** The authority, and the port in it, are where the fields say. */
  lemma Slices(c: Components)
    ensures Slice(Compose(c), Span(|c.schema| + 3, |Authority(c)|)) == Authority(c)
    ensures c.port.Some? ==>
              Slice(Compose(c), Span(|c.schema| + 3 + |UserinfoText(c)| + |TextOfHost(c.host)| + 1, |c.port.value|)) == c.port.value
  {
    hide TextOfHost;
    var x, y := c.schema + "://", c.path + Prefixed("?", c.query) + Prefixed("#", c.fragment);
    assert Compose(c) == x + Authority(c) + y;
    if c.port.Some? {
      assert Authority(c) == UserinfoText(c) + TextOfHost(c.host) + ":" + c.port.value;
      var z := x + UserinfoText(c) + TextOfHost(c.host) + ":";
      assert Compose(c) == z + c.port.value + y;
    }
  }

  /** Parsing undoes composing: every field is found at its place with its length, and the port is the number
      its digits stand for. */
  lemma ParseUndoesCompose(c: Components)
    requires GoodComponents(c) && |Compose(c)| < WIDTH
    ensures ParseUrl(Compose(c), false) ==
            Some(UrlParts(Fields(c), if c.port.Some? then HttpBodies.DecValue(c.port.value) else 0))
  {
    hide ScanAll, HostAll, GoodHost, TextOfHost, PortValue, Slice, Compose, Authority;
    ScanComposed(c);
    Lengths(c);
    Slices(c);
    HostComposed(CoarseFields(c), c, |c.schema| + 3);
    if c.port.Some? {
      PortIsNumber(c.port.value);
    }
    var o := |c.schema| + 3 + |UserinfoText(c)|;
    assert Put(Put(CoarseFields(c)[Host := HostSpan(c.host, o)], Userinfo, |c.schema| + 3, c.userinfo),
               Port, o + |TextOfHost(c.host)| + 1, c.port) == Fields(c);
  }
}
