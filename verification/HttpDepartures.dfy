/** Messages whose bodies the parser does not find by the rules: an input for each way in which a message can be irregular. */
module HttpDepartures {
  import opened HttpTypes
  import opened HttpChars
  import opened HttpTransition
  import opened HttpFeed
  import opened HttpBodies
  import opened HttpFields
  import opened HttpValues
  import opened HttpFraming
  import opened HttpRules
  import H = HttpHeaders
  import L = HttpLists

  /** A header on one line, with a space in front of its value. */
  function Line(name: string, value: string): Header { Header(name, [], " ", value, []) }

  predicate Small(s: string) { forall i | 0 <= i < |s| :: 'a' <= s[i] <= 'z' || s[i] == '-' }

  lemma SmallName(s: string)
    requires s != "" && Small(s)
    ensures IsName(s) && H.Lowered(s) == s
  {
    H.LoweredLower(s);
  }

  lemma LineWritten(name: string, value: string)
    requires name != "" && Small(name) && value != "" && !H.Blank(value[0]) && L.ValueBytes(value)
    ensures WellWritten(Line(name, value)) && Whole(Line(name, value)) == value
  {
    SmallName(name);
    hide IsName, L.ValueByte;
    assert H.Blank(' ');
    assert value + "" == value;
  }

  lemma OneOf(h: Header, test: Header -> bool)
    ensures Any([h], test) <==> test(h)
  {
    assert [h][0] == h;
  }

  lemma TwoOf(h: Header, k: Header, test: Header -> bool)
    ensures Any([h, k], test) <==> test(h) || test(k)
  {
    assert [h, k][0] == h && [h, k][1] == k;
  }

  lemma NamesDiffer()
    ensures Small(CONTENT_LENGTH) && Small(TRANSFER_ENCODING) && Small("transfer-encoding-x")
    ensures |CONTENT_LENGTH| == 14 && |TRANSFER_ENCODING| == 17 && |"transfer-encoding-x"| == 19
    ensures |CONNECTION| == 10 && |PROXY_CONNECTION| == 16 && |UPGRADE| == 7
    ensures "transfer-encoding-x"[..17] == TRANSFER_ENCODING
  {
  }

  /** Without an Upgrade no other protocol is asked for. */
  lemma NoSwitch(p: Parser, hs: seq<Header>)
    requires !p.verb.CONNECT? && forall i | 0 <= i < |hs| :: !IsUpgrade(hs[i])
    ensures !Switches(p, hs)
  {
    hide H.Lowered;
  }

  /** What is awaited behind headers that are not refused. */
  lemma Awaited(ask: Answers, p: Parser, out: seq<Event>, hs: seq<Header>) returns (q: Parser)
    requires Behind(p) && !p.verb.CONNECT? && AllWritten(hs) && (forall i | 0 <= i < |hs| :: !IsUpgrade(hs[i])) && ask(HeadHeard(hs, out)) == 0
    ensures if Notes(p, hs).Refuses? then Feed(ask, p, out, HeadersText(hs) + [CR, LF]).Failed?
            else Feed(ask, p, out, HeadersText(hs) + [CR, LF]) == Awaiting(q, HeadHeard(hs, out), Choice(Summary(p, hs)))
    ensures q.flags.contentLength == (Lengths(hs) != [])
  {
    hide Feed, Awaiting, HeadHeard, HeadersText, AllWritten, IsUpgrade, Choice, Notes, Any, Switches;
    NoSwitch(p, hs);
    q := HeadersAwaited(ask, p, out, hs);
    if Notes(p, hs).Refuses? {
      q := p.(flags := p.flags.(contentLength := Lengths(hs) != []));
    }
  }

  /** 1. A response that must not have a body, and announces one. */
  lemma BodilessAwaitsBody(ask: Answers, p: Parser, out: seq<Event>) returns (q: Parser)
    requires var hs := [Line(CONTENT_LENGTH, "5")]; Behind(p) && Bodyless(p) && !p.verb.CONNECT? && ask(HeadHeard(hs, out)) == 0
    ensures var hs := [Line(CONTENT_LENGTH, "5")];
      && Feed(ask, p, out, HeadersText(hs) + [CR, LF]) == Fed(q, HeadHeard(hs, out)) && q.state.BodyIdentity? && q.contentLength == 5
      && Rules(p, hs) == Nothing && !Regular(p, hs)
  {
    hide Feed, HeadHeard, HeadersText, WellWritten, Any, LooksCoded, Notes;
    NamesDiffer();
    SmallName(CONTENT_LENGTH);
    FiveTaken();
    var h := Line(CONTENT_LENGTH, "5");
    hide Taken, Number, H.Lowered;
    LooksCodedIs(h.name);
    OneOf(h, NamedLikeCoding);
    OneOf(h, SeesChunked);
    var r := Awaited(ask, p, out, [h]);
    NotesAre(p, [h]);
    q := r.(state := BodyIdentity, contentLength := 5);
  }

  lemma FiveTaken()
    ensures Taken(Line(CONTENT_LENGTH, "5")) && Number(Line(CONTENT_LENGTH, "5")) == 5
  {
    NamesDiffer();
    LineWritten(CONTENT_LENGTH, "5");
    hide WellWritten;
    assert Leading("5") == ['5'] + Leading("5"[1..]) && "5"[1..] == "";
    assert Leading("5") == "5" && "5"[..0] == "" && DecValue("5") == 5;
  }

  /** 2. A header whose name only begins like that of a Transfer-Encoding, in a request without a body. */
  lemma LongNameRefused(ask: Answers, p: Parser, out: seq<Event>)
    requires var hs := [Line("transfer-encoding-x", "a")];
      Behind(p) && p.kind.Request? && !p.verb.CONNECT? && ask(HeadHeard(hs, out)) == 0
    ensures var hs := [Line("transfer-encoding-x", "a")];
      && Feed(ask, p, out, HeadersText(hs) + [CR, LF]) == Failed(InvalidTransferEncoding)
      && Rules(p, hs) == Nothing && !Regular(p, hs)
  {
    hide Feed, HeadHeard, HeadersText, WellWritten, Any, LooksCoded, Notes, IsLength, IsCoded, IsUpgrade, SeesChunked;
    var h := Line("transfer-encoding-x", "a");
    LongNameIs();
    OneOf(h, NamedLikeCoding);
    OneOf(h, SeesChunked);
    OneOf(h, IsCoded);
    NoLengths(h, h);
    var r := Awaited(ask, p, out, [h]);
    NotesAre(p, [h]);
  }

  lemma LongNameIs()
    ensures var h := Line("transfer-encoding-x", "a");
      WellWritten(h) && NamedLikeCoding(h) && !SeesChunked(h) && !IsCoded(h) && !IsLength(h) && !IsUpgrade(h)
  {
    NamesDiffer();
    SmallName("transfer-encoding-x");
    SmallName(TRANSFER_ENCODING);
    LineWritten("transfer-encoding-x", "a");
    LooksCodedIs("transfer-encoding-x");
    hide H.Lowered, WellWritten, LooksCoded, ChunkedSeen;
  }

  /** A Transfer-Encoding on one line. */
  function Coding(value: string): Header { Line(TRANSFER_ENCODING, value) }

  /** What a Transfer-Encoding on one line is to the parser. */
  lemma CodingIs(es: seq<string>)
    requires L.List(es)
    ensures var h := Coding(L.ListText(es));
      && WellWritten(h) && IsCoded(h) && !IsLength(h) && !IsUpgrade(h) && NamedLikeCoding(h) && Whole(h) == L.ListText(es)
      && (SeesChunked(h) <==> L.Seen(L.Codings, es) && L.Names(L.LastWord(es), CHUNKED))
  {
    hide L.List, L.ListText, L.ValueByte, LooksCoded, L.Seen, L.Names, L.LastWord, L.Elements;
    NamesDiffer();
    SmallName(TRANSFER_ENCODING);
    L.ListBytes(es);
    L.ListIsItsValue(es);
    LineWritten(TRANSFER_ENCODING, L.ListText(es));
    LooksCodedIs(TRANSFER_ENCODING);
    assert TRANSFER_ENCODING[..17] == TRANSFER_ENCODING;
    hide H.Lowered;
  }

  lemma ChunkedLine()
    ensures L.List(["chunked"]) && L.ListText(["chunked"]) == "chunked"
    ensures L.Seen(L.Codings, ["chunked"]) && L.Names(L.LastWord(["chunked"]), CHUNKED)
  {
    forall k | 0 <= k < 7 ensures Lower("chunked"[k]) == CHUNKED[k] {
      H.ChunkedLetters(k);
    }
  }

  lemma GzipLine()
    ensures L.List(["gzip"]) && L.ListText(["gzip"]) == "gzip" && LastCoding("gzip") == "gzip" != CHUNKED
    ensures !L.Names(L.LastWord(["gzip"]), CHUNKED)
  {
    assert |CHUNKED| == 7 && |"gzip"| == 4;
    assert Small("gzip");
    SmallIsLast("gzip");
    GzipIsList();
    hide L.List, LastCoding, Small;
  }

  lemma GzipIsList()
    ensures L.List(["gzip"])
  {
  }

  /** A word in small letters is its own last coding. */
  lemma SmallIsLast(w: string)
    requires w != "" && Small(w)
    ensures LastCoding(w) == w
  {
    SmallName(w);
    assert L.NoComma(w) && Trim(w);
    hide H.Lowered, H.LastElement;
    LastElementJoin("", w);
    NoElement();
    assert "" + w == w;
    assert Stripped(w) == w;
  }

  lemma NoElement()
    ensures H.LastElement("") == ""
  {
  }

  lemma LastOfTwo(h: Header, k: Header)
    requires IsCoded(k) && LastCoding(Whole(k)) != ""
    ensures FinalCoding([h, k]) == LastCoding(Whole(k))
  {
    hide LastCoding, IsCoded;
    assert [h, k][1] == k;
  }

  lemma NoLengths(h: Header, k: Header)
    requires !IsLength(h) && !IsLength(k)
    ensures Lengths([h, k]) == [] && Lengths([k]) == []
  {
    hide IsLength;
    assert [k][1..] == [];
    assert Lengths([k]) == [];
    assert [h, k][1..] == [k];
  }

  /** 3. "chunked" in one Transfer-Encoding, and "gzip" behind it in another. */
  lemma EarlierCodingStays(ask: Answers, p: Parser, out: seq<Event>) returns (q: Parser)
    requires var hs := [Coding("chunked"), Coding("gzip")]; Behind(p) && !p.verb.CONNECT? && !Bodyless(p) && ask(HeadHeard(hs, out)) == 0
    ensures var hs := [Coding("chunked"), Coding("gzip")];
      && Feed(ask, p, out, HeadersText(hs) + [CR, LF]) == Fed(q, HeadHeard(hs, out)) && q.state.ChunkSizeStart?
      && Rules(p, hs) == (if p.kind.Response? then UntilClose else Unreliable) && !Regular(p, hs)
  {
    hide Feed, HeadHeard, HeadersText, WellWritten, Any, LooksCoded, Notes, LastCoding, L.Seen, L.Names, L.List, L.ListText, H.Lowered, SeesChunked;
    ChunkedLine();
    GzipLine();
    CodingIs(["chunked"]);
    CodingIs(["gzip"]);
    var h, k := Coding("chunked"), Coding("gzip");
    LastOfTwo(h, k);
    hide IsCoded, IsLength, IsUpgrade;
    TwoOf(h, k, NamedLikeCoding);
    TwoOf(h, k, SeesChunked);
    TwoOf(h, k, IsCoded);
    hide FinalCoding;
    NoLengths(h, k);
    var r := Awaited(ask, p, out, [h, k]);
    NotesAre(p, [h, k]);
    q := r.(state := ChunkSizeStart);
  }

  /** 4. A tab in front of "chunked". */
  lemma TabHidesChunked(ask: Answers, p: Parser, out: seq<Event>) returns (q: Parser)
    requires var hs := [Coding("gzip,\tchunked")]; Behind(p) && !p.verb.CONNECT? && !Bodyless(p) && ask(HeadHeard(hs, out)) == 0
    ensures var hs := [Coding("gzip,\tchunked")];
      && Rules(p, hs) == Chunks && !Regular(p, hs)
      && Feed(ask, p, out, HeadersText(hs) + [CR, LF]) ==
         if p.kind.Response? then Fed(q.(state := BodyIdentityEof), HeadHeard(hs, out)) else Failed(InvalidTransferEncoding)
  {
    hide Feed, HeadHeard, HeadersText, WellWritten, Any, LooksCoded, Notes, LastCoding, L.Seen, L.Names, L.List, L.ListText, H.Lowered, SeesChunked;
    var es := ["gzip", "\tchunked"];
    L.ThreeLists(es);
    CodingIs(es);
    TabIsChunked();
    var h := Coding("gzip,\tchunked");
    OnlyCoding([h], 0);
    hide FinalCoding, IsCoded, IsLength, IsUpgrade;
    NoLengths(h, h);
    OneOf(h, NamedLikeCoding);
    OneOf(h, SeesChunked);
    OneOf(h, IsCoded);
    q := Awaited(ask, p, out, [h]);
    NotesAre(p, [h]);
  }

  lemma TabIsChunked()
    ensures LastCoding("gzip,\tchunked") == CHUNKED
  {
    assert "gzip,\tchunked" == "gzip" + "," + ("\t" + CHUNKED);
    L.EndsInChunked("gzip", "\t");
    EndIsLast("gzip,\tchunked");
  }

  /** 5. A tab behind a length. */
  lemma TabSpoilsLength(ask: Answers, p: Parser, out: seq<Event>)
    requires var hs := [Line(CONTENT_LENGTH, "5\t")]; Behind(p) && !p.verb.CONNECT? && !Bodyless(p) && ask(HeadHeard(hs, out)) == 0
    ensures var hs := [Line(CONTENT_LENGTH, "5\t")];
      Feed(ask, p, out, HeadersText(hs) + [CR, LF]).Failed? && Rules(p, hs) == Bytes(5) && !Regular(p, hs)
  {
    hide Feed, HeadHeard, HeadersText, WellWritten, Any, LooksCoded, Notes;
    NamesDiffer();
    SmallName(CONTENT_LENGTH);
    SmallName(TRANSFER_ENCODING);
    var h := Line(CONTENT_LENGTH, "5\t");
    FiveStated();
    hide Taken, Stated, H.Lowered;
    OneOf(h, IsCoded);
    var r := Awaited(ask, p, out, [h]);
    NotesAre(p, [h]);
  }

  lemma FiveStated()
    ensures var h := Line(CONTENT_LENGTH, "5\t"); WellWritten(h) && !Taken(h) && Stated(h) == Some(5)
  {
    NamesDiffer();
    var v := "5\t";
    LineWritten(CONTENT_LENGTH, v);
    hide WellWritten;
    assert Leading(v) == ['5'] + Leading(v[1..]) && Leading(v[1..]) == "";
    assert v[1..][0] == '\t';
    assert v[..1] == "5" && Stripped(v) == Stripped("5") && Stripped("5") == "5";
    assert "5"[..0] == "" && DecValue("5") == 5;
  }

  /** 6. A length that is too large, whatever it is. */
  lemma LengthTooLarge(ask: Answers, p: Parser, out: seq<Event>, d: string)
    requires Behind(p) && !p.verb.CONNECT? && !Bodyless(p) && ask(HeadHeard([Line(CONTENT_LENGTH, d)], out)) == 0
    requires d != "" && Digits(d) && DecValue(d[..|d| - 1]) > (NO_LENGTH - 10) / 10
    ensures var hs := [Line(CONTENT_LENGTH, d)];
      Feed(ask, p, out, HeadersText(hs) + [CR, LF]).Failed? && Rules(p, hs) == Bytes(DecValue(d)) && !Regular(p, hs)
  {
    hide Feed, HeadHeard, HeadersText, WellWritten, Any, LooksCoded, Notes, DecValue;
    NamesDiffer();
    SmallName(CONTENT_LENGTH);
    SmallName(TRANSFER_ENCODING);
    var h := Line(CONTENT_LENGTH, d);
    DigitsStated(d);
    DecValueMonotone(d);
    hide Taken, Stated, H.Lowered;
    OneOf(h, IsCoded);
    var r := Awaited(ask, p, out, [h]);
    NotesAre(p, [h]);
  }

  lemma DigitsStated(d: string)
    requires d != "" && Digits(d) && DecValue(d[..|d| - 1]) > (NO_LENGTH - 10) / 10
    ensures var h := Line(CONTENT_LENGTH, d); WellWritten(h) && !Taken(h) && Stated(h) == Some(DecValue(d))
  {
    hide WellWritten, DecValue, L.ValueByte, Spaces, Padding, H.Blank, Stripped;
    NamesDiffer();
    DigitsAreBytes(d);
    LineWritten(CONTENT_LENGTH, d);
    AllLeading(d);
    StrippedDigits(d);
  }

  lemma StrippedDigits(d: string)
    requires d != "" && Digits(d)
    ensures Stripped(d) == d
  {
    DigitsTrim(d);
  }

  lemma {:induction false} AllLeading(d: string)
    requires Digits(d)
    ensures Leading(d) == d
    decreases |d|
  {
    if d != "" {
      assert Digits(d[1..]);
      AllLeading(d[1..]);
    }
  }

  lemma DigitsAreBytes(d: string)
    requires Digits(d)
    ensures L.ValueBytes(d) && (d != "" ==> !H.Blank(d[0]))
  {
    forall i | 0 <= i < |d| ensures L.ValueByte(d[i]) {
      assert IsNum(d[i]);
    }
    assert d != "" ==> IsNum(d[0]);
  }
}
