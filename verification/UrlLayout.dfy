/** Whatever URL is accepted, its fields are non-empty pieces of it, from left to right. */
module UrlLayout {
  import opened HttpTypes
  import opened HttpChars
  import opened HttpTransition
  import opened UrlParse
  import HttpBodies
  import UrlCompose

  /** The order of the fields in a URL. */
  function Order(f: Part): nat {
    match f
    case Schema => 1 case Userinfo => 2 case Host => 3 case Port => 4 case Path => 5 case Query => 7 case Fragment => 9
  }

  function End(s: Span): nat { s.off + s.len }

  /** The fields are non-empty, end by `n`, and each ends before the next begins. */
  predicate LaidOut(m: map<Part, Span>, n: nat) {
    && (forall f | f in m :: 1 <= m[f].len && End(m[f]) <= n)
    && (forall f, g | f in m && g in m && Order(f) < Order(g) :: End(m[f]) <= m[g].off)
  }

  /** How far in a URL a state is: as far as the order of its field, or just before that of the next. */
  function Level(s: State): nat {
    match s
    case ReqSpacesBeforeUrl => 0
    case ReqSchema => 1
    case ReqSchemaSlash => 2 case ReqSchemaSlashSlash => 2 case ReqServerStart => 2
    case ReqServer => 3 case ReqServerWithAt => 3
    case ReqPath => 5
    case ReqQueryStringStart => 6
    case ReqQueryString => 7
    case ReqFragmentStart => 8
    case ReqFragment => 9
    case _ => 10
  }

  lemma LevelRises(s: State, ch: char)
    ensures var t := UrlStep(s, ch); !t.Dead? ==> Level(s) <= Level(t) < 10
  {
    hide IsUrlChar, IsUserinfoChar, IsAlpha;
  }

  lemma FieldHasLevel(s: State)
    ensures FieldOf(s).Some? ==> Level(s) == Order(FieldOf(s).value)
    ensures Level(s) < 10 && FieldOf(s).None? ==>
              Level(s) != Order(Schema) && Level(s) != Order(Host) && Level(s) != Order(Path) &&
              Level(s) != Order(Query) && Level(s) != Order(Fragment)
    ensures FieldOf(s) != Some(Userinfo) && FieldOf(s) != Some(Port)
  {
  }

  /** What the loop over the URL keeps. */
  predicate ScanInv(c: Scan, i: nat) {
    && LaidOut(c.fields, i) && Level(c.s) < 10
    && Userinfo !in c.fields && Port !in c.fields
    && (forall f | f in c.fields :: Order(f) <= Level(c.s))
    && (c.last.Some? ==> c.last.value in c.fields)
    && (FieldOf(c.s).Some? ==> c.last == FieldOf(c.s) && End(c.fields[c.last.value]) == i)
  }

  /** The rightmost field is new at byte `i`, or grows by it. */
  lemma PutLaidOut(m: map<Part, Span>, f: Part, s: Span, i: nat)
    requires LaidOut(m, i) && forall g | g in m :: Order(g) <= Order(f)
    requires (f !in m && s == Span(i, 1)) || (f in m && s.off == m[f].off && End(s) == i + 1 && End(m[f]) == i)
    ensures LaidOut(m[f := s], i + 1)
  {
    SameOrder();
  }

  lemma SameOrder()
    ensures forall f, g :: Order(f) == Order(g) ==> f == g
  {
  }

  lemma LaidOutLater(m: map<Part, Span>, i: nat)
    requires LaidOut(m, i)
    ensures LaidOut(m, i + 1)
  {
  }

  lemma ScanByteKeeps(c: Scan, i: nat, ch: char)
    requires ScanInv(c, i) && i + 1 < WIDTH
    ensures var r := ScanByte(c, i, ch); r.Some? ==> ScanInv(r.value, i + 1)
  {
    hide UrlStep, Level, FieldOf, LaidOut;
    InBoundsAll(c.fields, i);
    LaidOutLater(c.fields, i);
    SameOrder();
    LevelRises(c.s, ch);
    var t := UrlStep(c.s, ch);
    FieldHasLevel(c.s);
    FieldHasLevel(t);
    if FieldOf(t).Some? && !t.Dead? {
      var f := FieldOf(t).value;
      if c.last == Some(f) {
        assert Level(c.s) == Level(t);
        assert FieldOf(c.s) == Some(f);
        PutLaidOut(c.fields, f, Longer(c.fields[f]), i);
      } else {
        assert f !in c.fields;
        PutLaidOut(c.fields, f, Span(i, 1), i);
      }
    }
  }

  lemma {:induction false} ScanKeeps(isConnect: bool, s: string)
    requires |s| < WIDTH
    ensures var r := ScanAll(isConnect, s); r.Some? ==> ScanInv(r.value, |s|)
    decreases |s|
  {
    hide ScanByte;
    if s != "" {
      ScanKeeps(isConnect, s[..|s| - 1]);
      var c := ScanAll(isConnect, s[..|s| - 1]);
      if c.Some? {
        ScanByteKeeps(c.value, |s| - 1, s[|s| - 1]);
      }
    }
  }

  // --------------------------------------------------------------------------------------------------------
  // The host

  /** What the loop over the host field keeps: user information, host and port follow one another, the last one
      up to the current byte `i`, and nothing else changes. */
  predicate HostInv(m: map<Part, Span>, base: nat, h: HostScan, i: nat) {
    && Host in h.fields && base <= i
    && (forall f | f in m && f != Host :: f in h.fields && h.fields[f] == m[f])
    && (forall f | f in h.fields :: f in m || f == Userinfo || f == Port)
    && (Userinfo in h.fields ==> base <= h.fields[Userinfo].off && h.fields[Userinfo].len >= 1 && End(h.fields[Userinfo]) <= i)
    && (h.s.InUserinfo? ==> Userinfo in h.fields && End(h.fields[Userinfo]) == i)
    && (Port in h.fields <==> h.s.InPort?)
    && !h.s.HostDead?
    && if h.s.UserinfoStart? || h.s.InUserinfo? || h.s.HostStart? || h.s.V6Start? then
         h.fields[Host].len == 0 && (h.s.UserinfoStart? ==> Userinfo !in h.fields)
       else
         var host := h.fields[Host];
         && base <= host.off && host.len >= 1 && End(host) <= i
         && (Userinfo in h.fields ==> End(h.fields[Userinfo]) <= host.off)
         && (h.s.InHost? || h.s.InV6? || h.s.ZoneStart? || h.s.InZone? ==> End(host) == i)
         && (h.s.InPort? ==>
               End(host) <= h.fields[Port].off && h.fields[Port].len >= 1 && End(h.fields[Port]) == i)
  }

  lemma HostByteKeeps(m: map<Part, Span>, base: nat, h: HostScan, i: nat, ch: char)
    requires Host in m && Userinfo !in m && Port !in m && HostInv(m, base, h, i) && i + 1 < WIDTH
    ensures var r := HostByte(h, i, ch); r.Some? ==> HostInv(m, base, r.value, i + 1)
  {
    HostStepFrom(h.s, ch);
    hide HostStep;
  }

  /** Where each state of the host automaton can be entered from. */
  lemma HostStepFrom(s: HostState, ch: char)
    ensures var t := HostStep(s, ch);
            && (t.InUserinfo? ==> s.UserinfoStart? || s.InUserinfo?)
            && (t.HostStart? ==> s.UserinfoStart? || s.InUserinfo?)
            && (t.V6Start? ==> s.HostStart?)
            && (t.InHost? ==> s.HostStart? || s.InHost?)
            && (t.InV6? ==> s.V6Start? || s.InV6?)
            && (t.ZoneStart? ==> s.InV6?)
            && (t.InZone? ==> s.ZoneStart? || s.InZone?)
            && (t.V6End? ==> s.InV6? || s.InZone?)
            && (t.PortStart? ==> s.InHost? || s.V6End?)
            && (t.InPort? ==> (s.PortStart? || s.InPort?) && IsNum(ch))
            && !t.UserinfoStart?
  {
    hide IsUserinfoChar, IsHostChar, IsZoneChar, IsHex, IsNum;
  }

  /** The port digits are digits. */
  predicate PortDigits(base: nat, h: HostScan, s: string) {
    h.s.InPort? && Port in h.fields ==>
      base <= h.fields[Port].off <= base + |s| && HttpBodies.Digits(s[h.fields[Port].off - base..])
  }

  lemma PortDigitsGrow(m: map<Part, Span>, base: nat, h: HostScan, s: string, ch: char)
    requires HostInv(m, base, h, base + |s|) && PortDigits(base, h, s) && base + |s| + 1 < WIDTH
    ensures var r := HostByte(h, base + |s|, ch); r.Some? ==> PortDigits(base, r.value, s + [ch])
  {
    HostStepFrom(h.s, ch);
    hide HostStep, IsNum;
    if h.s.InPort? {
      var o := h.fields[Port].off - base;
      assert (s + [ch])[o..] == s[o..] + [ch];
    } else {
      assert (s + [ch])[|s|..] == [ch];
    }
  }

  lemma HostBegins(m: map<Part, Span>, at: bool, base: nat)
    requires Host in m && Userinfo !in m && Port !in m
    ensures HostInv(m, base, HostBegin(m, at), base) && PortDigits(base, HostBegin(m, at), "")
  {
  }

  lemma {:induction false} HostKeeps(m: map<Part, Span>, at: bool, base: nat, s: string)
    requires Host in m && Userinfo !in m && Port !in m && base + |s| < WIDTH
    ensures var r := HostAll(m, at, base, s); r.Some? ==> HostInv(m, base, r.value, base + |s|) && PortDigits(base, r.value, s)
    decreases |s|
  {
    hide HostByte, HostInv, PortDigits;
    if s == "" {
      HostBegins(m, at, base);
    } else {
      var x, ch := s[..|s| - 1], s[|s| - 1];
      assert s == x + [ch];
      HostKeeps(m, at, base, x);
      var h := HostAll(m, at, base, x);
      if h.Some? {
        HostByteKeeps(m, base, h.value, base + |x|, ch);
        PortDigitsGrow(m, base, h.value, x, ch);
      }
    }
  }

  /** Splitting the host field keeps the layout. */
  lemma HostLaidOut(m: map<Part, Span>, h: HostScan, n: nat)
    requires LaidOut(m, n) && Host in m && Userinfo !in m && Port !in m
    requires HostInv(m, m[Host].off, h, End(m[Host])) && HostMayEnd(h.s)
    ensures LaidOut(h.fields, n)
  {
    forall f, g | f in h.fields && g in h.fields && Order(f) < Order(g)
      ensures End(h.fields[f]) <= h.fields[g].off
    {
      PairLaidOut(m, h, n, f, g);
    }
    forall f | f in h.fields ensures 1 <= h.fields[f].len && End(h.fields[f]) <= n {
      assert End(m[Host]) <= n;
    }
  }

  lemma PairLaidOut(m: map<Part, Span>, h: HostScan, n: nat, f: Part, g: Part)
    requires LaidOut(m, n) && Host in m && Userinfo !in m && Port !in m
    requires HostInv(m, m[Host].off, h, End(m[Host])) && HostMayEnd(h.s)
    requires f in h.fields && g in h.fields && Order(f) < Order(g)
    ensures End(h.fields[f]) <= h.fields[g].off
  {
    if f in m && f != Host && g in m && g != Host {
      assert End(m[f]) <= m[g].off;
    } else if f in m && f != Host {
      assert End(m[f]) <= m[Host].off;
    } else if g in m && g != Host {
      assert End(m[Host]) <= m[g].off;
    }
  }

  /** Whatever is accepted: the fields are non-empty, inside the URL, disjoint and from left to right; a schema has
      a host; CONNECT has a host and a port and nothing else; the port is the number its digits stand for. */
  lemma AcceptedIsLaidOut(buf: string, isConnect: bool)
    requires |buf| < WIDTH && ParseUrl(buf, isConnect).Some?
    ensures var u := ParseUrl(buf, isConnect).value;
            && LaidOut(u.fields, |buf|)
            && (Schema in u.fields ==> Host in u.fields)
            && (isConnect ==> u.fields.Keys == {Host, Port})
            && (Port in u.fields ==>
                  var digits := Slice(buf, u.fields[Port]);
                  HttpBodies.Digits(digits) && |digits| == u.fields[Port].len && u.port == HttpBodies.DecValue(digits) <= 0xFFFF)
            && (Port !in u.fields ==> u.port == 0)
  {
    hide ScanAll, WithHost, PortValue, LaidOut, Slice, HttpBodies.Digits, HttpBodies.DecValue;
    var c := ScanAll(isConnect, buf).value;
    var fields := WithHost(buf, c).value;
    FieldsLaidOut(buf, isConnect, c, fields);
    if Port in fields {
      UrlCompose.PortIsNumber(Slice(buf, fields[Port]));
    }
  }

  lemma FieldsLaidOut(buf: string, isConnect: bool, c: Scan, fields: map<Part, Span>)
    requires |buf| < WIDTH && ScanAll(isConnect, buf) == Some(c) && WithHost(buf, c) == Some(fields)
    requires Schema in c.fields ==> Host in c.fields
    ensures LaidOut(fields, |buf|) && (Schema in fields ==> Host in fields)
    ensures Port in fields ==> HttpBodies.Digits(Slice(buf, fields[Port])) && |Slice(buf, fields[Port])| == fields[Port].len
  {
    hide ScanAll, HostAll, HostInv, LaidOut;
    ScanKeeps(isConnect, buf);
    if Host in c.fields {
      var host := c.fields[Host];
      var s := Slice(buf, host);
      InBounds(c.fields, Host, |buf|);
      HostKeeps(c.fields, c.at, host.off, s);
      var h := HostAll(c.fields, c.at, host.off, s).value;
      HostLaidOut(c.fields, h, |buf|);
      KeepsFields(c.fields, host.off, h, End(host));
      if Port in h.fields {
        InBounds(h.fields, Port, |buf|);
        PortPlace(c.fields, host.off, h, End(host));
        PortSlice(buf, host, h.fields[Port]);
      }
    }
  }

  lemma PortSlice(buf: string, host: Span, port: Span)
    requires End(host) <= |buf| && host.off <= port.off && End(port) == End(host)
    ensures Slice(buf, port) == Slice(buf, host)[port.off - host.off..] && |Slice(buf, port)| == port.len
  {
  }

  lemma InBoundsAll(m: map<Part, Span>, n: nat)
    requires LaidOut(m, n)
    ensures forall f | f in m :: End(m[f]) <= n
  {
  }

  lemma InBounds(m: map<Part, Span>, f: Part, n: nat)
    requires LaidOut(m, n) && f in m
    ensures End(m[f]) <= n
  {
  }

  lemma PortPlace(m: map<Part, Span>, base: nat, h: HostScan, i: nat)
    requires HostInv(m, base, h, i) && Port in h.fields
    ensures base <= h.fields[Port].off && End(h.fields[Port]) == i && h.s.InPort?
  {
  }

  lemma KeepsFields(m: map<Part, Span>, base: nat, h: HostScan, i: nat)
    requires HostInv(m, base, h, i)
    ensures Host in h.fields && (Schema in h.fields ==> Schema in m)
  {
  }
}
