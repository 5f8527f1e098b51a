/** How proxies write the headers that carry client addresses, and which addresses count as private. */
module ClientIpText {
  import opened Basics
  import opened Octets
  import opened PartHeaders
  import opened ClientIp

  // -------------------------------------------------------------- Forwarded headers

  /** A parameter of a Forwarded header after the delimiters before it. The content of a quoted value is taken as it
      is written, with its backslash pairs. */
  datatype Pair = Pair(sep: Text, key: Text, quoted: bool, value: Text)

  predicate AllDelimit(s: Text) { forall i :: 0 <= i < |s| ==> Delimits(s[i]) }

  predicate NoneDelimit(s: Text) { forall i :: 0 <= i < |s| ==> !Delimits(s[i]) }

  /** Every quote stands after a backslash, and every backslash before something. */
  predicate IsQuotedContent(v: Text) {
    v != [] ==>
      && v[0] != '"'
      && if v[0] == '\\' then |v| >= 2 && IsQuotedContent(v[2..]) else IsQuotedContent(v[1..])
  }

  predicate IsPair(p: Pair) {
    && AllDelimit(p.sep) && p.key != [] && NoneDelimit(p.key) && '=' !in p.key
    && if p.quoted then IsQuotedContent(p.value) else NoneDelimit(p.value) && (p.value == [] || p.value[0] != '"')
  }

  /** Only the first parameter may come without a delimiter. */
  predicate ArePairs(ps: seq<Pair>) {
    && (forall i :: 0 <= i < |ps| ==> IsPair(ps[i]))
    && (forall i :: 0 < i < |ps| ==> ps[i].sep != [])
  }

  function PairValue(p: Pair): Text {
    if p.quoted then ['"'] + (p.value + ['"']) else p.value
  }

  function PairsText(ps: seq<Pair>, end: Text): Text {
    if ps == [] then end
    else ps[0].sep + (ps[0].key + (['='] + (PairValue(ps[0]) + PairsText(ps[1..], end))))
  }

  /** The values of the parameters called `for`, in any case; an empty token is none. */
  function Fors(ps: seq<Pair>): seq<Text> {
    if ps == [] then [] else ForOf(ps[0]) + Fors(ps[1..])
  }

  function ForOf(p: Pair): seq<Text> {
    if IsForKey(p.key) && (p.quoted || p.value != []) then [p.value] else []
  }

  predicate IsForKey(key: Text) {
    |key| == 3 && key[0] in {'f', 'F'} && key[1] in {'o', 'O'} && key[2] in {'r', 'R'}
  }

  lemma ForKeyIsFor(key: Text)
    ensures IsForKey(key) <==> IsFor(key)
  {
  }

  lemma DelimitersSkipped(sep: Text, s: Text)
    requires AllDelimit(sep) && (s == [] || !Delimits(s[0]))
    ensures SkipDelimiters(sep + s) == s
  {
    var t := sep + s;
    assert forall i :: 0 <= i < |sep| ==> t[i] == sep[i];
    SpanIs(t, KeepsValue, |sep|);
    assert t[|sep|..] == s;
  }

  lemma {:induction false} ContentEnds(v: Text, r: Text)
    requires IsQuotedContent(v)
    ensures QuoteEnd(v + (['"'] + r)) == |v|
  {
    var s := v + (['"'] + r);
    if v != [] {
      assert s[0] == v[0];
      if v[0] == '\\' {
        assert s[2..] == v[2..] + (['"'] + r);
        ContentEnds(v[2..], r);
      } else {
        assert s[1..] == v[1..] + (['"'] + r);
        ContentEnds(v[1..], r);
      }
    }
  }

  /** A value, then nothing or a delimiter. */
  lemma ValueIsRead(p: Pair, wanted: bool, r: Text)
    requires IsPair(p) && PairValue(p) + r != [] && (r == [] || Delimits(r[0]))
    ensures ValueHead(wanted, PairValue(p) + r)
         == Some((if wanted && (p.quoted || p.value != []) then [p.value] else [],
                  if p.quoted || r == [] then r else r[1..]))
  {
    if p.quoted {
      QuotedIsRead(p.value, wanted, r, PairValue(p) + r);
    } else {
      TokenIsRead(p.value, wanted, r, PairValue(p) + r);
    }
  }

  lemma QuotedIsRead(value: Text, wanted: bool, r: Text, v: Text)
    requires IsQuotedContent(value) && v == (['"'] + (value + ['"'])) + r
    ensures ValueHead(wanted, v) == Some((if wanted then [value] else [], r))
  {
    var q := v[1..];
    assert q == value + (['"'] + r);
    ContentEnds(value, r);
    assert q[..|value|] == value && q[|value| + 1..] == r;
  }

  lemma TokenIsRead(value: Text, wanted: bool, r: Text, v: Text)
    requires NoneDelimit(value) && (value == [] || value[0] != '"') && (r == [] || Delimits(r[0]))
    requires v == value + r && v != []
    ensures ValueHead(wanted, v)
         == Some((if wanted && value != [] then [value] else [], if r == [] then [] else r[1..]))
  {
    assert v[0] == if value == [] then r[0] else value[0];
    TokenSpan(value, r, v);
    assert v[..|value|] == value;
    assert Past(v, |value|) == if r == [] then [] else r[1..];
  }

  lemma TokenSpan(value: Text, r: Text, v: Text)
    requires NoneDelimit(value) && (r == [] || Delimits(r[0])) && v == value + r
    ensures Span(v, Delimits) == |value|
  {
    assert forall i :: 0 <= i < |value| ==> v[i] == value[i];
    SpanIs(v, Delimits, |value|);
  }

  lemma KeyIsRead(p: Pair, z: Text)
    requires IsPair(p)
    ensures NameHead(p.key + (['='] + z)) == ValueHead(IsFor(p.key), z)
  {
    var t := p.key + (['='] + z);
    var n := |p.key| - 1;
    assert t[1..] == p.key[1..] + (['='] + z);
    assert t[1..][..n] == p.key[1..];
    BeforeIs(t[1..], '=', n);
    assert t[..n + 1] == p.key && t[n + 2..] == z;
  }

  lemma OneMoreDelimiter(r: Text)
    requires r != [] && Delimits(r[0])
    ensures ForValues(r[1..]) == ForValues(r)
  {
    DelimiterSkipped(r, 0);
    assert r[0..] == r;
  }

  lemma PairIsRead(p: Pair, r: Text)
    requires IsPair(p) && (r == [] || Delimits(r[0]))
    ensures ForValues(p.sep + (p.key + (['='] + (PairValue(p) + r)))) == ForOf(p) + ForValues(r)
  {
    var z := PairValue(p) + r;
    var t := p.key + (['='] + z);
    assert t[0] == p.key[0];
    DelimitersSkipped(p.sep, t);
    KeyIsRead(p, z);
    ForKeyIsFor(p.key);
    if z == [] {
      assert ForValues([]) == [];
    } else {
      ValueIsRead(p, IsFor(p.key), r);
      if r != [] {
        OneMoreDelimiter(r);
      }
    }
  }

  /** A Forwarded header with any parameters, quoted or not, is read as exactly its `for` values, in order. */
  lemma {:induction false} ForwardedIsRead(ps: seq<Pair>, end: Text)
    requires ArePairs(ps) && AllDelimit(end)
    ensures ForValues(PairsText(ps, end)) == Fors(ps)
  {
    if ps == [] {
      DelimitersSkipped(end, []);
      assert end + [] == end;
    } else {
      var r := PairsText(ps[1..], end);
      assert r == [] || Delimits(r[0]) by {
        if |ps| > 1 {
          assert ps[1..][0] == ps[1] && r[0] == ps[1].sep[0];
        }
      }
      PairIsRead(ps[0], r);
      ForwardedIsRead(ps[1..], end);
    }
  }

  // -------------------------------------------------------------- lists of addresses

  /** An entry of a list and the spaces before it. */
  datatype Entry = Entry(gap: Text, text: Text)

  predicate IsEntry(e: Entry) {
    (forall i :: 0 <= i < |e.gap| ==> e.gap[i] == ' ') && ',' !in e.text && (e.text == [] || e.text[0] != ' ')
  }

  /** Nothing after the last comma is no entry. */
  predicate AreEntries(es: seq<Entry>) {
    && es != [] && (forall i :: 0 <= i < |es| ==> IsEntry(es[i]))
    && (|es| > 1 ==> es[|es| - 1] != Entry([], []))
  }

  function ListText(es: seq<Entry>): Text
    requires es != []
  {
    es[0].gap + (es[0].text + if |es| == 1 then [] else [','] + ListText(es[1..]))
  }

  function Texts(es: seq<Entry>): seq<Text> {
    if es == [] then [] else [es[0].text] + Texts(es[1..])
  }

  lemma SpacesSkipped(gap: Text, s: Text)
    requires (forall i :: 0 <= i < |gap| ==> gap[i] == ' ') && (s == [] || s[0] != ' ')
    ensures SkipSpaces(gap + s) == s
  {
    var t := gap + s;
    assert forall i :: 0 <= i < |gap| ==> t[i] == gap[i];
    SpanIs(t, EndsSpaces, |gap|);
    assert t[|gap|..] == s;
  }

  lemma EntryIsRead(e: Entry, r: Text)
    requires IsEntry(e) && (r == [] || r[0] == ',')
    ensures Segments(e.gap + (e.text + r)) == [e.text] + if |r| > 1 then Segments(r[1..]) else []
  {
    var t := e.text + r;
    assert t == [] || t[0] == if e.text == [] then r[0] else e.text[0];
    SpacesSkipped(e.gap, t);
    assert t[..|e.text|] == e.text;
    BeforeIs(t, ',', |e.text|);
    FirstSegment(e.gap + t, t, e.text, r);
  }

  lemma FirstSegment(s: Text, t: Text, text: Text, r: Text)
    requires SkipSpaces(s) == t == text + r && Before(t, ',') == |text|
    ensures Segments(s) == [text] + if |r| > 1 then Segments(r[1..]) else []
  {
    assert t[..|text|] == text;
    assert |r| > 1 ==> t[|text| + 1..] == r[1..];
  }

  /** A list of addresses is read as its entries, in order. */
  lemma {:induction false} ListIsRead(es: seq<Entry>)
    requires AreEntries(es)
    ensures Segments(ListText(es)) == Texts(es)
  {
    if |es| == 1 {
      assert Texts(es[1..]) == [];
      EntryIsRead(es[0], []);
    } else {
      var rest := es[1..];
      assert rest[|rest| - 1] == es[|es| - 1];
      SomethingFollows(rest);
      EntryIsRead(es[0], [','] + ListText(rest));
      assert ([','] + ListText(rest))[1..] == ListText(rest);
      ListIsRead(rest);
    }
  }

  lemma SomethingFollows(es: seq<Entry>)
    requires es != [] && es[|es| - 1] != Entry([], [])
    ensures ListText(es) != []
  {
  }

  // -------------------------------------------------------------------- which header wins

  predicate NoPublic(c: seq<Ip>) { forall i :: 0 <= i < |c| ==> IsPrivate(c[i]) }

  function InHeader(parse: IpParser, s: Source, headers: seq<Header>): seq<Ip> {
    InValues(parse, s.forwarded, ValuesOf(headers, s.key))
  }

  /** The candidates of one header, after those of the headers before it and before all others. */
  lemma {:induction false} CandidatesAround(parse: IpParser, sources: seq<Source>, headers: seq<Header>, i: nat)
    requires i < |sources|
    ensures Candidates(parse, sources, headers)
         == Candidates(parse, sources[..i], headers)
            + (InHeader(parse, sources[i], headers) + Candidates(parse, sources[i + 1..], headers))
  {
    if i == 0 {
      assert sources[..0] == [];
    } else {
      var tail, here := sources[1..], InHeader(parse, sources[i], headers);
      CandidatesAround(parse, tail, headers, i - 1);
      assert sources[..i][1..] == tail[..i - 1] && tail[i..] == sources[i + 1..];
      IpsRegroup(InHeader(parse, sources[0], headers), Candidates(parse, tail[..i - 1], headers),
                 here + Candidates(parse, sources[i + 1..], headers));
    }
  }

  lemma IpsRegroup(a: seq<Ip>, b: seq<Ip>, c: seq<Ip>)
    ensures a + (b + c) == (a + b) + c
  {
  }

  lemma {:induction false} NoPublicBefore(parse: IpParser, sources: seq<Source>, headers: seq<Header>)
    requires forall i :: 0 <= i < |sources| ==> NoPublic(InHeader(parse, sources[i], headers))
    ensures NoPublic(Candidates(parse, sources, headers))
  {
    if sources != [] {
      assert forall i :: 0 <= i < |sources[1..]| ==> sources[1..][i] == sources[i + 1];
      NoPublicBefore(parse, sources[1..], headers);
      assert NoPublic(InHeader(parse, sources[0], headers));
    }
  }

  predicate FirstPublic(c: seq<Ip>, i: nat)
    requires i < |c|
  {
    !IsPrivate(c[i]) && forall j :: 0 <= j < i ==> IsPrivate(c[j])
  }

  /** The rule in full: a public candidate before all others of them, else a public remote address, else the first
      candidate, else the remote address. */
  lemma ResolutionIs(c: seq<Ip>, remote: Option<Ip>)
    ensures forall i :: 0 <= i < |c| && FirstPublic(c, i) ==> Resolution(c, remote) == Some(c[i])
    ensures NoPublic(c) ==>
              Resolution(c, remote)
              == if c == [] || (remote.Some? && !IsPrivate(remote.value)) then remote else Some(c[0])
  {
    PickIsFirst(c);
    forall i | 0 <= i < |c| && FirstPublic(c, i) ensures Pick(c) == Public(c[i]) {
      var k :| 0 <= k < |c| && c[k] == Pick(c).ip && FirstPublic(c, k);
    }
  }

  /** The first public address of a header is the client's if no header before it has one, whatever comes after. */
  lemma EarlierHeaderWins(parse: IpParser, headers: seq<Header>, remote: Option<Ip>, i: nat, ip: Ip)
    requires i < |PRIORITY| && Pick(InHeader(parse, PRIORITY[i], headers)) == Public(ip)
    requires forall j :: 0 <= j < i ==> NoPublic(InHeader(parse, PRIORITY[j], headers))
    ensures Resolution(Candidates(parse, PRIORITY, headers), remote) == Some(ip)
  {
    var before, here := Candidates(parse, PRIORITY[..i], headers), InHeader(parse, PRIORITY[i], headers);
    var after := Candidates(parse, PRIORITY[i + 1..], headers);
    CandidatesAround(parse, PRIORITY, headers, i);
    assert forall j :: 0 <= j < i ==> PRIORITY[..i][j] == PRIORITY[j];
    NoPublicBefore(parse, PRIORITY[..i], headers);
    PickIsFirst(before);
    PickAppend(before, here + after);
    PickAppend(here, after);
  }

  // -------------------------------------------------------------------- private ranges

  predicate IsOctet(n: int) { 0 <= n < 256 }

  function FromOctets(a: nat, b: nat, c: nat, d: nat): Ip {
    V4(0x100_0000 * a + 0x1_0000 * b + 0x100 * c + d)
  }

  /** The private IPv4 addresses by their octets. */
  lemma PrivateOctets(a: nat, b: nat, c: nat, d: nat)
    requires IsOctet(a) && IsOctet(b) && IsOctet(c) && IsOctet(d)
    ensures IsPrivate(FromOctets(a, b, c, d))
       <==> || a == 10 || a == 127
            || (a == 172 && 16 <= b <= 31) || (a == 192 && b == 168)
            || (a == 169 && b == 254) || (a == 100 && 64 <= b <= 127)
  {
    var n := 0x100_0000 * a + 0x1_0000 * b + 0x100 * c + d;
    assert n / 0x100_0000 == a;
    assert n / 0x1_0000 == 0x100 * a + b;
    assert n / 0x10_0000 == 0x10 * a + b / 0x10;
    assert n / 0x40_0000 == 4 * a + b / 0x40;
  }

  /** An IPv6 address whose first group is `g` and whose other bits above the lower half are `rest`. */
  function FromGroups(g: nat, rest: nat, low: nat): Ip {
    V6(0x1_0000_0000_0000 * g + rest, low)
  }

  /** The private IPv6 addresses by their first group: link-local, site-local and unique local ones, and ::1. */
  lemma PrivateGroups(g: nat, rest: nat, low: nat)
    requires g < 0x1_0000 && rest < 0x1_0000_0000_0000
    ensures IsPrivate(FromGroups(g, rest, low))
       <==> (g == 0 && rest == 0 && low == 1) || 0xFE80 <= g <= 0xFEFF || 0xFC00 <= g <= 0xFDFF
  {
    var n := 0x1_0000_0000_0000 * g + rest;
    assert n / 0x40_0000_0000_0000 == g / 0x40;
    assert n / 0x100_0000_0000_0000 == g / 0x100;
    assert n / 0x200_0000_0000_0000 == g / 0x200;
  }
}
