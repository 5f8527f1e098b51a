/** Which client address is reported: the loops over headers, occurrences and segments against one flat
    rule over all candidate addresses. */
module ClientIp {
  import opened Basics
  import opened Octets
  import opened PartHeaders

  /** An IPv4 address, or an IPv6 address as its two halves. */
  datatype Ip = V4(addr: nat) | V6(high: nat, low: nat)

  /** 10/8, 172.16/12, 192.168/16, 127/8, 169.254/16 and 100.64/10; ::1, fe80/10, fec0/10, fd/8 and fc/7. */
  predicate IsPrivate(ip: Ip) {
    match ip
    case V4(a) =>
      || a / 0x100_0000 == 0x0A || a / 0x10_0000 == 0xAC1 || a / 0x1_0000 == 0xC0A8
      || a / 0x100_0000 == 0x7F || a / 0x1_0000 == 0xA9FE || a / 0x40_0000 == 0x191
    case V6(high, low) =>
      || (high == 0 && low == 1) || high / 0x40_0000_0000_0000 == 0x3FA || high / 0x40_0000_0000_0000 == 0x3FB
      || high / 0x100_0000_0000_0000 == 0xFD || high / 0x200_0000_0000_0000 == 0x7E
  }

  /** Reading an address, perhaps with a port, from text; the address text parser is a parameter. */
  type IpParser = Text -> Option<Ip>

  /** What the loops rely on: neither nothing nor a single character is an address. */
  ghost predicate Sensible(parse: IpParser) {
    forall t: Text :: |t| <= 1 ==> parse(t) == None
  }

  // ------------------------------------------------------------------- the flat rule

  datatype Extract = Public(ip: Ip) | Private(ip: Ip) | Failure

  /** The first public candidate, else the first one. */
  function Pick(candidates: seq<Ip>): Extract {
    if candidates == [] then Failure
    else if !IsPrivate(candidates[0]) then Public(candidates[0])
    else Or(Some(candidates[0]), Pick(candidates[1..]))
  }

  /** What a later result comes to when a private address was seen before it. */
  function Or(seen: Option<Ip>, later: Extract): Extract {
    if later.Public? || seen.None? then later else Private(seen.value)
  }

  function Seen(seen: Option<Ip>, e: Extract): Option<Ip> {
    if seen.None? && e.Private? then Some(e.ip) else seen
  }

  lemma {:induction false} PickAppend(a: seq<Ip>, b: seq<Ip>)
    ensures Pick(a + b) == if Pick(a).Public? then Pick(a) else Or(Seen(None, Pick(a)), Pick(b))
  {
    if a == [] {
      assert a + b == b;
    } else {
      assert (a + b)[1..] == a[1..] + b;
      PickAppend(a[1..], b);
    }
  }

  /** `Pick` says what it should: a public candidate before which all are private, or the first of all. */
  lemma {:induction false} PickIsFirst(c: seq<Ip>)
    ensures Pick(c) == Failure <==> c == []
    ensures Pick(c).Public? <==> exists i :: 0 <= i < |c| && !IsPrivate(c[i])
    ensures Pick(c).Public? ==>
              exists i :: 0 <= i < |c| && c[i] == Pick(c).ip && !IsPrivate(c[i])
                          && forall j :: 0 <= j < i ==> IsPrivate(c[j])
    ensures Pick(c).Private? ==> Pick(c).ip == c[0]
  {
    if c != [] && IsPrivate(c[0]) {
      PickIsFirst(c[1..]);
      if Pick(c[1..]).Public? {
        var i :| 0 <= i < |c[1..]| && c[1..][i] == Pick(c[1..]).ip && !IsPrivate(c[1..][i])
                 && forall j :: 0 <= j < i ==> IsPrivate(c[1..][j]);
        assert c[i + 1] == c[1..][i];
        forall j | 0 <= j < i + 1 ensures IsPrivate(c[j]) {
          if j > 0 {
            assert c[1..][j - 1] == c[j];
          }
        }
      } else {
        forall i | 0 <= i < |c| ensures IsPrivate(c[i]) {
          if i > 0 {
            assert c[1..][i - 1] == c[i];
          }
        }
      }
    }
  }

  /** The addresses among some texts. */
  function Parsed(parse: IpParser, texts: seq<Text>): seq<Ip> {
    if texts == [] then []
    else (match parse(texts[0]) case None => [] case Some(ip) => [ip]) + Parsed(parse, texts[1..])
  }

  // -------------------------------------------------------------- lists of addresses

  predicate EndsSpaces(c: Octet) { c != ' ' }

  function SkipSpaces(s: Text): Text { s[Span(s, EndsSpaces)..] }

  /** The texts between commas, without leading spaces. */
  function Segments(s: Text): seq<Text>
    decreases |s|
  {
    var t := SkipSpaces(s);
    var n := Before(t, ',');
    [t[..n]] + if n + 1 < |t| then Segments(t[n + 1..]) else []
  }

  method SkipLeadingSpaces(s: Text) returns (t: Text)
    ensures t == SkipSpaces(s)
  {
    var spaces;
    spaces, t := TakeSpan(s, EndsSpaces);
  }

  /** One candidate seen: stop at a public one, remember the first private one. */
  lemma PickHead(parse: IpParser, seen: Option<Ip>, text: Text, rest: seq<Text>)
    ensures Or(seen, Pick(Parsed(parse, [text] + rest)))
         == match parse(text)
            case None => Or(seen, Pick(Parsed(parse, rest)))
            case Some(ip) =>
              if !IsPrivate(ip) then Public(ip)
              else Or(if seen.None? then Some(ip) else seen, Pick(Parsed(parse, rest)))
  {
    assert ([text] + rest)[1..] == rest;
    match parse(text)
    case None => assert Parsed(parse, [text] + rest) == Parsed(parse, rest);
    case Some(ip) => assert ([ip] + Parsed(parse, rest))[1..] == Parsed(parse, rest);
  }

  method ParseList(parse: IpParser, value: Text) returns (r: Extract)
    ensures r == Pick(Parsed(parse, Segments(value)))
  {
    var firstPrivate: Option<Ip> := None;
    var left := value;
    while true
      invariant Or(firstPrivate, Pick(Parsed(parse, Segments(left)))) == Pick(Parsed(parse, Segments(value)))
      decreases |left|
    {
      var t := SkipLeadingSpaces(left);
      var n := Before(t, ',');
      var current := parse(t[..n]);
      ghost var rest := if n + 1 < |t| then Segments(t[n + 1..]) else [];
      PickHead(parse, firstPrivate, t[..n], rest);
      if current.Some? {
        if !IsPrivate(current.value) {
          return Public(current.value);
        }
        if firstPrivate.None? {
          firstPrivate := current;
        }
      }
      if n + 1 >= |t| {
        break;
      }
      left := t[n + 1..];
    }
    r := if firstPrivate.Some? then Private(firstPrivate.value) else Failure;
  }

  // ---------------------------------------------------------------- Forwarded headers

  predicate Delimits(c: Octet) { c == ' ' || c == ';' || c == ',' }
  predicate KeepsValue(c: Octet) { !Delimits(c) }

  predicate IsFor(key: Text) {
    |key| == 3 && Lower(key[0]) == 'f' && Lower(key[1]) == 'o' && Lower(key[2]) == 'r'
  }

  /** Where the closing quote is, past backslash pairs; at least the length of the text when there is none. */
  function QuoteEnd(s: Text): nat {
    if s == [] || s[0] == '"' then 0
    else if s[0] == '\\' then 2 + QuoteEnd(s[if |s| >= 2 then 2 else 1..])
    else 1 + QuoteEnd(s[1..])
  }

  /** A `for` value if there was one, and the text after it; nothing when the header ends before. */
  type Head = Option<(seq<Text>, Text)>

  /** From after an opening quote; an unclosed quote has no value. */
  function QuotedHead(wanted: bool, q: Text): Head {
    var n := QuoteEnd(q);
    if n >= |q| then None else Some((if wanted then [q[..n]] else [], q[n + 1..]))
  }

  /** From after an equals sign: a value is quoted or runs to a delimiter. */
  function ValueHead(wanted: bool, v: Text): Head {
    if v == [] then None
    else if v[0] == '"' then QuotedHead(wanted, v[1..])
    else
      var n := Span(v, Delimits);
      Some((if wanted && n > 0 then [v[..n]] else [], Past(v, n)))
  }

  /** From the start of a name, which runs to its equals sign. */
  function NameHead(t: Text): Head
    requires t != []
  {
    var e := 1 + Before(t[1..], '=');
    if e == |t| then None else ValueHead(IsFor(t[..e]), t[e + 1..])
  }

  function SkipDelimiters(s: Text): (t: Text)
    ensures |t| <= |s|
  {
    s[Span(s, KeepsValue)..]
  }

  /** The values of the `for` parameters of a header. */
  function ForValues(s: Text): seq<Text>
    decreases |s|
  {
    var t := SkipDelimiters(s);
    if t == [] then []
    else
      match NameHead(t)
      case None => []
      case Some((values, rest)) => values + ForValues(rest)
  }

  function Resumed(head: Head): seq<Text> {
    match head
    case None => []
    case Some((values, rest)) => values + ForValues(rest)
  }

  datatype State = Between | Key | BeforeValue | ValueToken | ValueQuoted

  /** The scan stands before `r`, with a name or value started at `start`. */
  ghost predicate At(s: Text, r: nat, start: nat, state: State) {
    && r <= |s| + 1 && (state != ValueQuoted ==> r <= |s|)
    && match state
       case Between => true
       case BeforeValue => true
       case Key => start < r && !Delimits(s[start]) && '=' !in s[start + 1..r]
       case ValueToken =>
         && start < r && s[start] != '"' && (r < |s| || start + 1 == |s|)
         && forall i :: start <= i < r ==> !Delimits(s[i])
       case ValueQuoted =>
         && start <= r && start <= |s|
         && QuoteEnd(s[start..]) == r - start + QuoteEnd(s[if r <= |s| then r else |s|..])
  }

  /** What is still to be found from there. */
  ghost function ToCome(s: Text, r: nat, start: nat, state: State, wanted: bool): seq<Text>
    requires At(s, r, start, state)
  {
    match state
    case Between => ForValues(s[r..])
    case Key => Resumed(NameHead(s[start..]))
    case BeforeValue => Resumed(ValueHead(wanted, s[r..]))
    case ValueToken => Resumed(ValueHead(wanted, s[start..]))
    case ValueQuoted => Resumed(QuotedHead(wanted, s[start..]))
  }

  lemma DelimiterSkipped(s: Text, r: nat)
    requires r < |s| && Delimits(s[r])
    ensures ForValues(s[r..]) == ForValues(s[r + 1..])
  {
    var t := s[r..];
    assert t[1..] == s[r + 1..];
    assert Span(t, KeepsValue) == 1 + Span(t[1..], KeepsValue);
    assert SkipDelimiters(t) == SkipDelimiters(t[1..]);
  }

  lemma NameStarts(s: Text, r: nat)
    requires r < |s| && !Delimits(s[r])
    ensures ForValues(s[r..]) == Resumed(NameHead(s[r..]))
  {
    assert SkipDelimiters(s[r..]) == s[r..];
  }

  lemma KeyEnds(s: Text, r: nat, start: nat)
    requires At(s, r, start, Key) && r < |s| && s[r] == '='
    ensures NameHead(s[start..]) == ValueHead(IsFor(s[start..r]), s[r + 1..])
  {
    var t := s[start..];
    assert t[1..][..r - start - 1] == s[start + 1..r];
    BeforeIs(t[1..], '=', r - start - 1);
    assert t[..r - start] == s[start..r] && t[r - start + 1..] == s[r + 1..];
  }

  lemma KeyNeverEnds(s: Text, start: nat)
    requires At(s, |s|, start, Key)
    ensures NameHead(s[start..]) == None
  {
    var t := s[start..];
    assert t[1..][..|t| - 1] == s[start + 1..|s|];
    BeforeIs(t[1..], '=', |t| - 1);
  }

  lemma EmptyValue(s: Text, r: nat, wanted: bool)
    requires r < |s| && Delimits(s[r])
    ensures ValueHead(wanted, s[r..]) == Some(([], s[r + 1..]))
  {
    var v := s[r..];
    assert Span(v, Delimits) == 0 && Past(v, 0) == s[r + 1..];
  }

  /** A token that stops at `r`, by a delimiter or by the end of the text. */
  lemma TokenEnds(s: Text, r: nat, start: nat, wanted: bool)
    requires start < r <= |s| && s[start] != '"' && (forall i :: start <= i < r ==> !Delimits(s[i]))
    requires r < |s| ==> Delimits(s[r])
    ensures ValueHead(wanted, s[start..])
         == Some((if wanted then [s[start..r]] else [], s[if r < |s| then r + 1 else |s|..]))
  {
    var v := s[start..];
    forall i | 0 <= i < r - start ensures !Delimits(v[i]) {
      assert v[i] == s[start + i];
    }
    SpanIs(v, Delimits, r - start);
    assert v[..r - start] == s[start..r];
    assert Past(v, r - start) == s[if r < |s| then r + 1 else |s|..];
  }

  lemma QuoteCloses(s: Text, r: nat, start: nat, wanted: bool)
    requires At(s, r, start, ValueQuoted) && r < |s| && s[r] == '"'
    ensures QuotedHead(wanted, s[start..]) == Some((if wanted then [s[start..r]] else [], s[r + 1..]))
  {
    assert s[r..][0] == '"';
    assert s[start..][..r - start] == s[start..r];
    assert s[start..][r - start + 1..] == s[r + 1..];
  }

  lemma QuoteNeverCloses(s: Text, r: nat, start: nat, wanted: bool)
    requires At(s, r, start, ValueQuoted) && r >= |s|
    ensures QuotedHead(wanted, s[start..]) == None
  {
  }

  lemma QuoteGoesOn(s: Text, r: nat, start: nat)
    requires At(s, r, start, ValueQuoted) && r < |s| && s[r] != '"'
    ensures At(s, if s[r] == '\\' then r + 2 else r + 1, start, ValueQuoted)
  {
    var t := s[r..];
    assert t[1..] == s[r + 1..];
    assert |t| >= 2 ==> t[2..] == s[r + 2..];
    assert s[|s|..] == [];
  }

  /** One step: where the scan goes, and that what was to come is what was found and what is to come. */
  ghost predicate Goes(s: Text, r: nat, start: nat, state: State, wanted: bool,
                       r': nat, start': nat, state': State, wanted': bool, found: Option<Text>)
    requires At(s, r, start, state)
  {
    && At(s, r', start', state') && r < r'
    && ToCome(s, r, start, state, wanted)
       == (if found.None? then [] else [found.value]) + ToCome(s, r', start', state', wanted')
  }

  lemma GoesQuietly(s: Text, r: nat, start: nat, state: State, wanted: bool,
                    r': nat, start': nat, state': State, wanted': bool)
    requires At(s, r, start, state) && At(s, r', start', state') && r < r'
    requires ToCome(s, r, start, state, wanted) == ToCome(s, r', start', state', wanted')
    ensures Goes(s, r, start, state, wanted, r', start', state', wanted', None)
  {
    var rest := ToCome(s, r', start', state', wanted');
    assert [] + rest == rest;
  }

  lemma StepBetween(s: Text, r: nat, start: nat, wanted: bool, start': nat, state': State)
    requires r < |s|
    requires start' == if Delimits(s[r]) then start else r
    requires state' == if Delimits(s[r]) then Between else Key
    ensures Goes(s, r, start, Between, wanted, r + 1, start', state', wanted, None)
  {
    if Delimits(s[r]) {
      DelimiterSkipped(s, r);
    } else {
      NameStarts(s, r);
    }
    GoesQuietly(s, r, start, Between, wanted, r + 1, start', state', wanted);
  }

  lemma KeyGoesOn(s: Text, r: nat, start: nat)
    requires At(s, r, start, Key) && r < |s| && s[r] != '='
    ensures At(s, r + 1, start, Key)
  {
    assert s[start + 1..r + 1] == s[start + 1..r] + [s[r]];
  }

  lemma StepKey(s: Text, r: nat, start: nat, wanted: bool)
    requires At(s, r, start, Key) && r < |s| && s[r] != '='
    ensures Goes(s, r, start, Key, wanted, r + 1, start, Key, wanted, None)
  {
    KeyGoesOn(s, r, start);
    GoesQuietly(s, r, start, Key, wanted, r + 1, start, Key, wanted);
  }

  lemma StepEquals(s: Text, r: nat, start: nat, wanted: bool)
    requires At(s, r, start, Key) && r < |s| && s[r] == '='
    ensures Goes(s, r, start, Key, wanted, r + 1, start, BeforeValue, IsFor(s[start..r]), None)
  {
    KeyEnds(s, r, start);
    GoesQuietly(s, r, start, Key, wanted, r + 1, start, BeforeValue, IsFor(s[start..r]));
  }

  lemma StepBeforeValue(s: Text, r: nat, start: nat, wanted: bool, start': nat, state': State)
    requires r < |s|
    requires start' == if s[r] == '"' then r + 1 else if Delimits(s[r]) then start else r
    requires state' == if s[r] == '"' then ValueQuoted else if Delimits(s[r]) then Between else ValueToken
    ensures Goes(s, r, start, BeforeValue, wanted, r + 1, start', state', wanted, None)
  {
    if s[r] == '"' {
      assert s[r..][1..] == s[r + 1..];
    } else if Delimits(s[r]) {
      EmptyValue(s, r, wanted);
      assert [] + ForValues(s[r + 1..]) == ForValues(s[r + 1..]);
    }
    GoesQuietly(s, r, start, BeforeValue, wanted, r + 1, start', state', wanted);
  }

  lemma StepToken(s: Text, r: nat, start: nat, wanted: bool)
    requires At(s, r, start, ValueToken) && r < |s|
    ensures var end := if Delimits(s[r]) then r else |s|;
            if Delimits(s[r]) || r + 1 == |s| then
              Goes(s, r, start, ValueToken, wanted, r + 1, start, Between, wanted,
                   if wanted then Some(s[start..end]) else None)
            else Goes(s, r, start, ValueToken, wanted, r + 1, start, ValueToken, wanted, None)
  {
    if Delimits(s[r]) {
      TokenEnds(s, r, start, wanted);
    } else if r + 1 == |s| {
      TokenEnds(s, |s|, start, wanted);
    } else {
      GoesQuietly(s, r, start, ValueToken, wanted, r + 1, start, ValueToken, wanted);
    }
  }

  lemma StepQuoted(s: Text, r: nat, start: nat, wanted: bool, r': nat, state': State, found: Option<Text>)
    requires At(s, r, start, ValueQuoted) && r < |s|
    requires r' == if s[r] == '\\' then r + 2 else r + 1
    requires state' == if s[r] == '"' then Between else ValueQuoted
    requires found == if s[r] == '"' && wanted then Some(s[start..r]) else None
    ensures Goes(s, r, start, ValueQuoted, wanted, r', start, state', wanted, found)
  {
    if s[r] == '"' {
      QuoteCloses(s, r, start, wanted);
    } else {
      QuoteGoesOn(s, r, start);
      GoesQuietly(s, r, start, ValueQuoted, wanted, r', start, ValueQuoted, wanted);
    }
  }

  /** The switch of the scan: the next position and state, and a `for` value when one just ended. */
  method Scan(s: Text, r: nat, start: nat, state: State, wanted: bool)
    returns (r': nat, start': nat, state': State, wanted': bool, found: Option<Text>)
    requires At(s, r, start, state) && r < |s|
    ensures Goes(s, r, start, state, wanted, r', start', state', wanted', found)
  {
    var c := s[r];
    r', start', state', wanted', found := r + 1, start, state, wanted, None;
    match state {
      case Between =>
        if !Delimits(c) {
          start', state' := r, Key;
        }
        StepBetween(s, r, start, wanted, start', state');
      case Key =>
        if c == '=' {
          StepEquals(s, r, start, wanted);
          wanted', state' := IsFor(s[start..r]), BeforeValue;
        } else {
          StepKey(s, r, start, wanted);
        }
      case BeforeValue =>
        if c == '"' {
          start', state' := r + 1, ValueQuoted;
        } else if Delimits(c) {
          state' := Between;
        } else {
          start', state' := r, ValueToken;
        }
        StepBeforeValue(s, r, start, wanted, start', state');
      case ValueToken =>
        state', found := ScanToken(s, r, start, wanted);
      case ValueQuoted =>
        r', state', found := ScanQuoted(s, r, start, wanted);
    }
  }

  method ScanToken(s: Text, r: nat, start: nat, wanted: bool) returns (state': State, found: Option<Text>)
    requires At(s, r, start, ValueToken) && r < |s|
    ensures Goes(s, r, start, ValueToken, wanted, r + 1, start, state', wanted, found)
  {
    StepToken(s, r, start, wanted);
    state', found := ValueToken, None;
    var c := s[r];
    if Delimits(c) || r + 1 == |s| {
      var end := if Delimits(c) then r else |s|;
      found := if wanted then Some(s[start..end]) else None;
      state' := Between;
    }
  }

  method ScanQuoted(s: Text, r: nat, start: nat, wanted: bool) returns (r': nat, state': State, found: Option<Text>)
    requires At(s, r, start, ValueQuoted) && r < |s|
    ensures Goes(s, r, start, ValueQuoted, wanted, r', start, state', wanted, found)
  {
    r', state', found := r + 1, ValueQuoted, None;
    if s[r] == '"' {
      found := if wanted then Some(s[start..r]) else None;
      state' := Between;
    } else if s[r] == '\\' {
      r' := r + 2;
    }
    StepQuoted(s, r, start, wanted, r', state', found);
  }

  lemma NothingToCome(parse: IpParser, s: Text, r: nat, start: nat, state: State, wanted: bool)
    requires Sensible(parse) && At(s, r, start, state) && r >= |s|
    ensures Parsed(parse, ToCome(s, r, start, state, wanted)) == []
  {
    assert s[|s|..] == [];
    match state {
      case Between => assert s[r..] == [];
      case BeforeValue => assert s[r..] == [];
      case Key => KeyNeverEnds(s, start);
      case ValueToken =>
        TokenEnds(s, |s|, start, wanted);
        assert ForValues([]) == [];
        assert |s[start..|s|]| == 1;
        assert Parsed(parse, []) == [];
      case ValueQuoted => QuoteNeverCloses(s, r, start, wanted);
    }
  }

  /** Nothing found leaves what is owed as it is; something found is looked at. */
  lemma PickFound(parse: IpParser, seen: Option<Ip>, found: Option<Text>, before: seq<Text>, rest: seq<Text>)
    requires before == (if found.None? then [] else [found.value]) + rest
    ensures Or(seen, Pick(Parsed(parse, before)))
         == if found.None? || parse(found.value).None? then Or(seen, Pick(Parsed(parse, rest)))
            else if !IsPrivate(parse(found.value).value) then Public(parse(found.value).value)
            else Or(if seen.None? then parse(found.value) else seen, Pick(Parsed(parse, rest)))
  {
    if found.None? {
      assert before == rest;
    } else {
      PickHead(parse, seen, found.value, rest);
    }
  }

  method ParseForwarded(parse: IpParser, value: Text) returns (result: Extract)
    requires Sensible(parse)
    ensures result == Pick(Parsed(parse, ForValues(value)))
  {
    var firstPrivate: Option<Ip> := None;
    var r, start, state, wanted := 0, 0, Between, false;
    assert value[0..] == value;
    ghost var todo := ForValues(value);
    while r < |value|
      invariant At(value, r, start, state) && todo == ToCome(value, r, start, state, wanted)
      invariant Or(firstPrivate, Pick(Parsed(parse, todo))) == Pick(Parsed(parse, ForValues(value)))
      decreases |value| + 1 - r
    {
      var found;
      r, start, state, wanted, found := Scan(value, r, start, state, wanted);
      ghost var rest := ToCome(value, r, start, state, wanted);
      PickFound(parse, firstPrivate, found, todo, rest);
      if found.Some? {
        var current := parse(found.value);
        if current.Some? {
          if !IsPrivate(current.value) {
            return Public(current.value);
          }
          if firstPrivate.None? {
            firstPrivate := current;
          }
        }
      }
      todo := rest;
    }
    NothingToCome(parse, value, r, start, state, wanted);
    result := if firstPrivate.Some? then Private(firstPrivate.value) else Failure;
  }

  // -------------------------------------------------------------------- all headers

  /** A request header with its name in lower case. */
  datatype Header = Header(key: Text, value: Text)

  /** A header to look at, and whether it is of the Forwarded kind. */
  datatype Source = Source(key: Text, forwarded: bool)

  const PRIORITY: seq<Source> := [
    Source("x-forwarded-for", false), Source("x-real-ip", false), Source("true-client-ip", false),
    Source("x-client-ip", false), Source("x-forwarded", true), Source("forwarded", true),
    Source("forwarded-for", false), Source("x-cluster-client-ip", false), Source("fastly-client-ip", false),
    Source("cf-connecting-ip", false), Source("cf-connecting-ipv6", false)]

  function ValuesOf(headers: seq<Header>, key: Text): seq<Text> {
    if headers == [] then []
    else
      var n := |headers| - 1;
      ValuesOf(headers[..n], key) + if headers[n].key == key then [headers[n].value] else []
  }

  function InValue(parse: IpParser, forwarded: bool, value: Text): seq<Ip> {
    Parsed(parse, if forwarded then ForValues(value) else Segments(value))
  }

  function InValues(parse: IpParser, forwarded: bool, values: seq<Text>): seq<Ip> {
    if values == [] then [] else InValue(parse, forwarded, values[0]) + InValues(parse, forwarded, values[1..])
  }

  /** Every candidate of a request, by header priority, then occurrence, then position. */
  function Candidates(parse: IpParser, sources: seq<Source>, headers: seq<Header>): seq<Ip> {
    if sources == [] then []
    else
      InValues(parse, sources[0].forwarded, ValuesOf(headers, sources[0].key))
      + Candidates(parse, sources[1..], headers)
  }

  /** First public candidate, else a public remote address, else the first candidate, else the remote address. */
  function Resolution(candidates: seq<Ip>, remote: Option<Ip>): Option<Ip> {
    match Pick(candidates)
    case Public(ip) => Some(ip)
    case Private(ip) => if remote.Some? && !IsPrivate(remote.value) then remote else Some(ip)
    case Failure => remote
  }

  method ParseMultiple(parse: IpParser, forwarded: bool, values: seq<Text>) returns (r: Extract)
    requires Sensible(parse)
    ensures r == Pick(InValues(parse, forwarded, values))
  {
    var firstPrivate: Option<Ip> := None;
    for i := 0 to |values|
      invariant Or(firstPrivate, Pick(InValues(parse, forwarded, values[i..])))
             == Pick(InValues(parse, forwarded, values))
    {
      var res;
      if forwarded {
        res := ParseForwarded(parse, values[i]);
      } else {
        res := ParseList(parse, values[i]);
      }
      assert values[i..][1..] == values[i + 1..];
      PickAppend(InValue(parse, forwarded, values[i]), InValues(parse, forwarded, values[i + 1..]));
      if res.Public? {
        return res;
      } else if firstPrivate.None? && res.Private? {
        firstPrivate := Some(res.ip);
      }
    }
    r := if firstPrivate.Some? then Private(firstPrivate.value) else Failure;
  }

  predicate IsSource(sources: seq<Source>, key: Text) {
    exists i :: 0 <= i < |sources| && sources[i].key == key
  }

  ghost predicate Indexes(index: map<Text, seq<Text>>, sources: seq<Source>, headers: seq<Header>) {
    && (forall key :: key in index <==> IsSource(sources, key) && ValuesOf(headers, key) != [])
    && (forall key :: key in index ==> index[key] == ValuesOf(headers, key))
  }

  /** Collects the occurrences of each header of interest, in order. */
  method IndexHeaders(sources: seq<Source>, headers: seq<Header>) returns (index: map<Text, seq<Text>>)
    ensures Indexes(index, sources, headers)
  {
    index := map[];
    assert headers[..0] == [];
    for i := 0 to |headers|
      invariant Indexes(index, sources, headers[..i])
    {
      var h := headers[i];
      IndexedMore(index, sources, headers[..i], h);
      assert headers[..i + 1] == headers[..i] + [h];
      if IsSource(sources, h.key) {
        index := index[h.key := (if h.key in index then index[h.key] else []) + [h.value]];
      }
    }
    assert headers[..|headers|] == headers;
  }

  lemma IndexedMore(index: map<Text, seq<Text>>, sources: seq<Source>, headers: seq<Header>, h: Header)
    requires Indexes(index, sources, headers)
    ensures IsSource(sources, h.key) ==>
              Indexes(index[h.key := (if h.key in index then index[h.key] else []) + [h.value]], sources, headers + [h])
    ensures !IsSource(sources, h.key) ==> Indexes(index, sources, headers + [h])
  {
    var more := headers + [h];
    assert more[..|headers|] == headers;
    forall key {:trigger ValuesOf(more, key)}
      ensures ValuesOf(more, key) == ValuesOf(headers, key) + if h.key == key then [h.value] else []
    {
    }
  }

  /** The result over all headers is the flat rule over all their candidates. */
  method Resolve(parse: IpParser, headers: seq<Header>, remote: Option<Ip>) returns (r: Option<Ip>)
    requires Sensible(parse)
    ensures r == Resolution(Candidates(parse, PRIORITY, headers), remote)
  {
    var res := LookThrough(parse, PRIORITY, headers);
    if res.Public? {
      return Some(res.ip);
    }
    if remote.Some? && (!IsPrivate(remote.value) || res.Failure?) {
      return remote;
    }
    r := if res.Private? then Some(res.ip) else None;
  }

  method LookThrough(parse: IpParser, sources: seq<Source>, headers: seq<Header>) returns (r: Extract)
    requires Sensible(parse)
    ensures r == Pick(Candidates(parse, sources, headers))
  {
    var index := IndexHeaders(sources, headers);
    var current: Option<Ip> := None;
    for i := 0 to |sources|
      invariant Or(current, Pick(Candidates(parse, sources[i..], headers))) == Pick(Candidates(parse, sources, headers))
    {
      var source := sources[i];
      assert IsSource(sources, sources[i].key);
      assert sources[i..][1..] == sources[i + 1..];
      PickAppend(InValues(parse, source.forwarded, ValuesOf(headers, source.key)),
                 Candidates(parse, sources[i + 1..], headers));
      if source.key in index {
        var res := ParseMultiple(parse, source.forwarded, index[source.key]);
        if res.Public? {
          return res;
        }
        if res.Private? && current.None? {
          current := Some(res.ip);
        }
      }
    }
    r := if current.Some? then Private(current.value) else Failure;
  }

  /** With a configured header only its first occurrence counts, read as Forwarded and else as a list. */
  method ResolveConfigured(parse: IpParser, headers: seq<Header>, configured: Text) returns (r: Option<Ip>)
    requires Sensible(parse)
    ensures ValuesOf(headers, configured) == [] ==> r == None
    ensures ValuesOf(headers, configured) != [] ==>
              var value := ValuesOf(headers, configured)[0];
              var found := InValue(parse, true, value);
              r == Resolution(if found == [] then InValue(parse, false, value) else found, None)
  {
    var i := 0;
    while i < |headers| && headers[i].key != configured
      invariant 0 <= i <= |headers| && ValuesOf(headers[..i], configured) == []
    {
      assert headers[..i + 1][..i] == headers[..i];
      i := i + 1;
    }
    assert headers[..|headers|] == headers;
    if i == |headers| {
      return None;
    }
    FirstValue(headers, configured, i);
    var value := headers[i].value;
    PickIsFirst(InValue(parse, true, value));
    var res := ParseForwarded(parse, value);
    if res.Failure? {
      res := ParseList(parse, value);
    }
    r := if res.Failure? then None else Some(res.ip);
  }

  lemma {:induction false} FirstValue(headers: seq<Header>, key: Text, i: nat)
    requires i < |headers| && headers[i].key == key && ValuesOf(headers[..i], key) == []
    ensures ValuesOf(headers, key) != [] && ValuesOf(headers, key)[0] == headers[i].value
    decreases |headers|
  {
    var n := |headers| - 1;
    var init := ValuesOf(headers[..n], key);
    if i < n {
      assert headers[..n][..i] == headers[..i];
      FirstValue(headers[..n], key, i);
      assert ValuesOf(headers, key)[0] == init[0];
    } else {
      assert init == [];
      assert ValuesOf(headers, key) == [headers[n].value];
    }
  }
}
