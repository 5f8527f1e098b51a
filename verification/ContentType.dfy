/** The Content-Type header: media type, charset and multipart boundary. */
module ContentType {
  import opened Basics
  import opened Octets
  import opened PartHeaders

  datatype HttpContentType = HttpContentType(mainType: Text, subtype: Text, encoding: Text, boundary: Text)

  const TCHAR_MARKS: Text := "!#$%&'*+-.^_`|~"

  predicate IsTchar(c: Octet) {
    'a' <= c <= 'z' || 'A' <= c <= 'Z' || '0' <= c <= '9' || c in TCHAR_MARKS
  }

  predicate EndsTokenText(c: Octet) { !IsTchar(c) }

  predicate IsOws(c: Octet) { c == ' ' || c == '\t' }

  predicate EndsOws(c: Octet) { !IsOws(c) }

  function SkipOws(sv: Text): Text { sv[Span(sv, EndsOws)..] }

  function TokenLen(sv: Text): (n: nat)
    ensures n <= |sv|
  {
    Span(sv, EndsTokenText)
  }

  function LowerAll(s: Text): (r: Text)
    ensures |r| == |s| && forall i :: 0 <= i < |s| ==> r[i] == Lower(s[i])
  {
    if s == [] then [] else [Lower(s[0])] + LowerAll(s[1..])
  }

  predicate EqualsCi(a: Text, lower: Text) {
    LowerAll(a) == lower
  }

  /** What a quoted pair may hold; quoted text excludes the backslash and the quote as well. */
  predicate IsQuotable(c: Octet) {
    c == '\t' || c == ' ' || (c as int >= 0x21 && c as int != 0x7F)
  }

  /** From after the opening quote: the value and what follows the closing quote. */
  function QuotedRest(sv: Text): (r: Option<(Text, Text)>)
    ensures r.Some? ==> |r.value.1| < |sv|
  {
    if sv == [] then None
    else if sv[0] == '"' then Some(([], sv[1..]))
    else if sv[0] != '\\' then
      if !IsQuotable(sv[0]) then None
      else
        match QuotedRest(sv[1..])
        case None => None
        case Some((value, rest)) => Some(([sv[0]] + value, rest))
    else if |sv| == 1 || !IsQuotable(sv[1]) then None
    else
      match QuotedRest(sv[2..])
      case None => None
      case Some((value, rest)) => Some(([sv[1]] + value, rest))
  }

  function WithParameter(ct: HttpContentType, name: Text, value: Text): HttpContentType {
    if EqualsCi(name, "charset") then ct.(encoding := value)
    else if EqualsCi(name, "boundary") then ct.(boundary := value)
    else ct
  }

  /** A parameter's value, from after the equals sign. */
  function ValueOf(v: Text): (r: Option<(Text, Text)>)
    requires v != []
    ensures r.Some? ==> |r.value.1| < |v|
  {
    if v[0] == '"' then QuotedRest(v[1..])
    else if TokenLen(v) == 0 then None
    else Some((v[..TokenLen(v)], v[TokenLen(v)..]))
  }

  /** Semicolons with or without a parameter after them, up to the end of the header. */
  function Parameters(sv: Text, ct: HttpContentType): Option<HttpContentType>
    decreases |sv|
  {
    var s := SkipOws(sv);
    if s == [] then Some(ct)
    else if s[0] != ';' then None
    else
      var p := SkipOws(s[1..]);
      var n := TokenLen(p);
      if p == [] then Some(ct)
      else if n == 0 then Parameters(p, ct)
      else
        match ParameterOf(p)
        case None => None
        case Some((value, rest)) => Parameters(rest, WithParameter(ct, p[..n], value))
  }

  /** The value of the parameter that a text starts with. */
  function ParameterOf(p: Text): (r: Option<(Text, Text)>)
    ensures r.Some? ==> |r.value.1| < |p|
  {
    var n := TokenLen(p);
    if |p| < n + 2 || p[n] != '=' then None else ValueOf(p[n + 1..])
  }

  /** A token is refused only when something else stands in its place: none at the end is empty. */
  function MediaType(sv: Text): Option<HttpContentType> {
    var s := SkipOws(sv);
    var n := TokenLen(s);
    if n == 0 || n == |s| || s[n] != '/' then None
    else
      var t := s[n + 1..];
      var m := TokenLen(t);
      if m == 0 && t != [] then None
      else Parameters(t[m..], HttpContentType(LowerAll(s[..n]), LowerAll(t[..m]), [], []))
  }

  // ---------------------------------------------------------------------- the parser

  method ConsumeOws(sv: Text) returns (left: Text)
    ensures left == SkipOws(sv)
  {
    left := sv;
    while left != [] && IsOws(left[0])
      invariant SkipOws(left) == SkipOws(sv)
      decreases |left|
    {
      assert left[1..][Span(left[1..], EndsOws)..] == left[Span(left, EndsOws)..];
      left := left[1..];
    }
    assert left[0..] == left;
  }

  method ConsumeToken(sv: Text) returns (token: Option<Text>, left: Text)
    ensures token == if TokenLen(sv) == 0 && sv != [] then None else Some(sv[..TokenLen(sv)])
    ensures left == sv[TokenLen(sv)..]
  {
    var taken;
    taken, left := TakeSpan(sv, EndsTokenText);
    token := if taken == [] && sv != [] then None else Some(taken);
  }

  method ConsumeQuotedString(sv: Text) returns (value: Option<Text>, left: Text)
    requires sv != [] && sv[0] == '"'
    ensures match QuotedRest(sv[1..])
            case None => value == None
            case Some((v, rest)) => value == Some(v) && left == rest
  {
    left := sv[1..];
    var result: Text := [];
    assert QuotedRest(left).Some? ==> [] + QuotedRest(left).value.0 == QuotedRest(left).value.0;
    while left != []
      invariant QuotedRest(sv[1..])
             == match QuotedRest(left) case None => None case Some((v, rest)) => Some((result + v, rest))
      decreases |left|
    {
      var c := left[0];
      ghost var tail := if |left| >= 2 then QuotedRest(left[2..]) else None;
      ghost var next := QuotedRest(left[1..]);
      if c == '"' {
        assert result + [] == result;
        return Some(result), left[1..];
      }
      if c != '\\' && IsQuotable(c) {
        if next.Some? {
          Regroup(result, [c], next.value.0);
        }
        left := left[1..];
      } else {
        if c != '\\' || |left| == 1 || !IsQuotable(left[1]) {
          return None, left;
        }
        c := left[1];
        if tail.Some? {
          Regroup(result, [c], tail.value.0);
        }
        left := left[2..];
      }
      result := result + [c];
    }
    value := None;
  }

  method ForString(input: Text) returns (r: Option<HttpContentType>)
    ensures r == MediaType(input)
  {
    var s := ConsumeOws(input);
    var mainType, sv := ConsumeToken(s);
    if mainType.None? {
      return None;
    }
    if sv == [] || sv[0] != '/' {
      return None;
    }
    AfterSlash(s, sv);
    var subtype;
    subtype, sv := ConsumeToken(sv[1..]);
    if subtype.None? {
      return None;
    }
    r := ReadParameters(sv, HttpContentType(LowerAll(mainType.value), LowerAll(subtype.value), [], []));
  }

  lemma AfterSlash(s: Text, sv: Text)
    requires sv == s[TokenLen(s)..] && sv != []
    ensures TokenLen(s) < |s| && s[TokenLen(s)] == sv[0] && s[TokenLen(s) + 1..] == sv[1..]
  {
  }

  method ReadParameters(input: Text, start: HttpContentType) returns (r: Option<HttpContentType>)
    ensures r == Parameters(input, start)
  {
    var sv, ct := input, start;
    while true
      invariant Parameters(sv, ct) == Parameters(input, start)
      decreases |sv|
    {
      var s := ConsumeOws(sv);
      if s == [] {
        return Some(ct);
      }
      if s[0] != ';' {
        return None;
      }
      var p := ConsumeOws(s[1..]);
      if p == [] {
        return Some(ct);
      }
      var name, v := ConsumeToken(p);
      if name.None? {
        sv := p;
        continue;
      }
      var value;
      value, v := ReadValue(p, v);
      if value.None? {
        return None;
      }
      sv, ct := v, WithParameter(ct, name.value, value.value);
    }
  }

  method ReadValue(p: Text, afterName: Text) returns (value: Option<Text>, left: Text)
    requires afterName == p[TokenLen(p)..]
    ensures match ParameterOf(p)
            case None => value == None
            case Some((v, rest)) => value == Some(v) && left == rest
  {
    if |afterName| < 2 || afterName[0] != '=' {
      return None, [];
    }
    var v := afterName[1..];
    assert v == p[TokenLen(p) + 1..];
    if v[0] == '"' {
      value, left := ConsumeQuotedString(v);
    } else {
      value, left := ConsumeToken(v);
    }
  }

  // ------------------------------------------------------------- what a boundary can be

  lemma {:induction false} QuotedIsOneLine(sv: Text)
    requires QuotedRest(sv).Some?
    ensures OneLine(QuotedRest(sv).value.0)
    decreases |sv|
  {
    if sv[0] == '"' {
    } else if sv[0] != '\\' {
      QuotedIsOneLine(sv[1..]);
    } else {
      QuotedIsOneLine(sv[2..]);
    }
  }

  lemma ValueIsOneLine(v: Text)
    requires v != [] && ValueOf(v).Some?
    ensures OneLine(ValueOf(v).value.0)
  {
    if v[0] == '"' {
      QuotedIsOneLine(v[1..]);
    } else {
      forall i | 0 <= i < TokenLen(v) ensures v[i] != '\r' && v[i] != '\n' {
        assert !EndsTokenText(v[i]);
      }
    }
  }

  /** The boundary of a parsed Content-Type never contains a line end, which is all the multipart parser asks of it. */
  lemma {:induction false} BoundaryIsOneLine(sv: Text, ct: HttpContentType)
    requires OneLine(ct.boundary) && Parameters(sv, ct).Some?
    ensures OneLine(Parameters(sv, ct).value.boundary)
    decreases |sv|
  {
    var s := SkipOws(sv);
    if s != [] {
      var p := SkipOws(s[1..]);
      var n := TokenLen(p);
      if p != [] {
        if n == 0 {
          BoundaryIsOneLine(p, ct);
        } else {
          var (value, rest) := ValueOf(p[n + 1..]).value;
          ValueIsOneLine(p[n + 1..]);
          BoundaryIsOneLine(rest, WithParameter(ct, p[..n], value));
        }
      }
    }
  }

  lemma ParsedBoundaryIsOneLine(sv: Text)
    requires MediaType(sv).Some?
    ensures OneLine(MediaType(sv).value.boundary)
  {
    var s := SkipOws(sv);
    var t := s[TokenLen(s) + 1..];
    BoundaryIsOneLine(t[TokenLen(t)..],
                      HttpContentType(LowerAll(s[..TokenLen(s)]), LowerAll(t[..TokenLen(t)]), [], []));
  }

  // ---------------------------------------------------------------------- round trip

  predicate IsToken(s: Text) {
    s != [] && forall i :: 0 <= i < |s| ==> IsTchar(s[i])
  }

  predicate IsBlankText(s: Text) {
    forall i :: 0 <= i < |s| ==> IsOws(s[i])
  }

  /** A character of a quoted string, with a backslash before it or not. */
  datatype Quoted = Quoted(c: Octet, slash: bool)

  predicate IsQuoted(q: Quoted) {
    IsQuotable(q.c) && (q.c == '"' || q.c == '\\' ==> q.slash)
  }

  function QuotedText(qs: seq<Quoted>): Text {
    if qs == [] then [] else (if qs[0].slash then ['\\', qs[0].c] else [qs[0].c]) + QuotedText(qs[1..])
  }

  function QuotedChars(qs: seq<Quoted>): Text {
    if qs == [] then [] else [qs[0].c] + QuotedChars(qs[1..])
  }

  /** A value as a token or as a quoted string. */
  datatype SentValue = AsToken(token: Text) | AsQuoted(chars: seq<Quoted>)

  predicate IsSentValue(v: SentValue) {
    match v case AsToken(t) => IsToken(t) case AsQuoted(qs) => forall i :: 0 <= i < |qs| ==> IsQuoted(qs[i])
  }

  function ValueText(v: SentValue): Text {
    match v case AsToken(t) => t case AsQuoted(qs) => ['"'] + (QuotedText(qs) + ['"'])
  }

  function Meant(v: SentValue): Text {
    match v case AsToken(t) => t case AsQuoted(qs) => QuotedChars(qs)
  }

  const CHARSET: Text := "charset"
  const BOUNDARY: Text := "boundary"

  /** A semicolon between blanks, and the parameter after it if there is one. */
  datatype Setting = Setting(before: Text, after: Text, item: Option<Item>)
  datatype Item = Item(name: Text, value: SentValue)

  predicate IsSetting(s: Setting) {
    && IsBlankText(s.before) && IsBlankText(s.after)
    && (s.item.Some? ==> IsToken(s.item.value.name) && IsSentValue(s.item.value.value))
  }

  function ItemText(item: Option<Item>): Text {
    if item.None? then [] else item.value.name + (['='] + ValueText(item.value.value))
  }

  function SettingsText(ss: seq<Setting>, end: Text): Text {
    if ss == [] then end
    else ss[0].before + ([';'] + (ss[0].after + (ItemText(ss[0].item) + SettingsText(ss[1..], end))))
  }

  predicate AreSettings(ss: seq<Setting>) { forall i :: 0 <= i < |ss| ==> IsSetting(ss[i]) }

  /** The value of the last parameter of this name, in any case. */
  function LastOf(ss: seq<Setting>, key: Text, default: Text): Text {
    if ss == [] then default
    else
      var n := |ss| - 1;
      var item := ss[n].item;
      if item.Some? && LowerAll(item.value.name) == key then Meant(item.value.value) else LastOf(ss[..n], key, default)
  }

  function WithLast(ss: seq<Setting>, ct: HttpContentType): HttpContentType {
    ct.(encoding := LastOf(ss, CHARSET, ct.encoding), boundary := LastOf(ss, BOUNDARY, ct.boundary))
  }

  lemma {:induction false} QuotedTextReads(qs: seq<Quoted>, r: Text)
    requires forall i :: 0 <= i < |qs| ==> IsQuoted(qs[i])
    ensures QuotedRest(QuotedText(qs) + (['"'] + r)) == Some((QuotedChars(qs), r))
  {
    var s := QuotedText(qs) + (['"'] + r);
    if qs == [] {
      assert s[1..] == r;
    } else {
      QuotedTextReads(qs[1..], r);
      var rest := QuotedText(qs[1..]) + (['"'] + r);
      if qs[0].slash {
        assert s == ['\\', qs[0].c] + rest && s[2..] == rest;
      } else {
        assert s == [qs[0].c] + rest && s[1..] == rest;
      }
    }
  }

  lemma TokenThen(t: Text, x: Text)
    requires IsToken(t) && (x == [] || !IsTchar(x[0]))
    ensures TokenLen(t + x) == |t| && (t + x)[..|t|] == t && (t + x)[|t|..] == x
  {
    forall i | 0 <= i < |t| ensures !EndsTokenText((t + x)[i]) {
      assert (t + x)[i] == t[i];
    }
    SpanIs(t + x, EndsTokenText, |t|);
  }

  lemma BlanksThen(t: Text, x: Text)
    requires IsBlankText(t) && (x == [] || !IsOws(x[0]))
    ensures SkipOws(t + x) == x
  {
    forall i | 0 <= i < |t| ensures !EndsOws((t + x)[i]) {
      assert (t + x)[i] == t[i];
    }
    SpanIs(t + x, EndsOws, |t|);
  }

  lemma NotOws(c: Octet)
    requires IsTchar(c)
    ensures !IsOws(c)
  {
  }

  lemma NotTchar(c: Octet)
    requires c == '/' || c == ';' || c == '=' || c == '"' || IsOws(c)
    ensures !IsTchar(c)
  {
  }

  /** A value, then something that is part of no token. */
  lemma ValueReads(v: SentValue, r: Text)
    requires IsSentValue(v) && (r == [] || !IsTchar(r[0]))
    ensures ValueText(v) + r != [] && ValueOf(ValueText(v) + r) == Some((Meant(v), r))
  {
    match v
    case AsToken(t) =>
      TokenThen(t, r);
      NotTchar('"');
      assert (t + r)[0] == t[0];
    case AsQuoted(qs) =>
      var s := ValueText(v) + r;
      assert s[1..] == QuotedText(qs) + (['"'] + r);
      QuotedTextReads(qs, r);
  }

  lemma ItemReads(item: Item, r: Text, p: Text)
    requires IsToken(item.name) && IsSentValue(item.value) && (r == [] || !IsTchar(r[0]))
    requires p == item.name + (['='] + (ValueText(item.value) + r))
    ensures TokenLen(p) == |item.name| && p[..|item.name|] == item.name
    ensures ParameterOf(p) == Some((Meant(item.value), r))
  {
    var z := ValueText(item.value) + r;
    NotTchar('=');
    TokenThen(item.name, ['='] + z);
    ValueReads(item.value, r);
    assert p[|item.name|] == '=' && p[|item.name| + 1..] == z;
  }

  lemma BlanksBefore(t: Text, r: Text)
    requires IsBlankText(t)
    ensures SkipOws(t + r) == SkipOws(r)
  {
    var p := SkipOws(r);
    var a := r[..|r| - |p|];
    assert r == a + p && t + r == (t + a) + p;
    BlanksThen(t + a, p);
  }

  /** Only what follows the blanks counts. */
  lemma BlanksDoNotCount(sv: Text, r: Text, ct: HttpContentType)
    requires SkipOws(sv) == SkipOws(r)
    ensures Parameters(sv, ct) == Parameters(r, ct)
  {
  }

  lemma SkippedOnce(r: Text)
    ensures SkipOws(SkipOws(r)) == SkipOws(r)
  {
    BlanksThen([], SkipOws(r));
    assert [] + SkipOws(r) == SkipOws(r);
  }

  /** What may follow a parameter: another, or blanks and the end. */
  predicate Follows(r: Text) {
    (r == [] || !IsTchar(r[0])) && (SkipOws(r) == [] || SkipOws(r)[0] == ';')
  }

  lemma SettingsFollow(ss: seq<Setting>, end: Text)
    requires AreSettings(ss) && IsBlankText(end)
    ensures Follows(SettingsText(ss, end))
  {
    var r := SettingsText(ss, end);
    if ss == [] {
      BlanksThen(end, []);
      assert end + [] == end;
    } else {
      BlanksThen(ss[0].before, r[|ss[0].before|..]);
      assert ss[0].before + r[|ss[0].before|..] == r;
      assert r[0] == if ss[0].before == [] then ';' else ss[0].before[0];
    }
    if r != [] {
      NotTchar(r[0]);
    }
  }

  /** Only `charset` and `boundary` are kept. */
  function Kept(item: Option<Item>, ct: HttpContentType): HttpContentType {
    if item.None? then ct
    else if LowerAll(item.value.name) == CHARSET then ct.(encoding := Meant(item.value.value))
    else if LowerAll(item.value.name) == BOUNDARY then ct.(boundary := Meant(item.value.value))
    else ct
  }

  lemma KeptIsTaken(item: Item, ct: HttpContentType)
    ensures Kept(Some(item), ct) == WithParameter(ct, item.name, Meant(item.value))
  {
  }

  lemma SettingReads(s: Setting, r: Text, p: Text, sv: Text, ct: HttpContentType, ct': HttpContentType)
    requires IsSetting(s) && Follows(r) && p == ItemText(s.item) + r && sv == s.before + ([';'] + (s.after + p))
    requires ct' == Kept(s.item, ct)
    ensures Parameters(sv, ct) == Parameters(r, ct')
  {
    BlanksThen(s.before, [';'] + (s.after + p));
    if s.item.Some? {
      KeptIsTaken(s.item.value, ct);
      NamedSettingReads(sv, s.after, s.item.value, r, p, ct, ct');
    } else {
      assert p == r;
      EmptySettingReads(sv, s.after, r, ct);
    }
  }

  lemma NamedSettingReads(sv: Text, after: Text, item: Item, r: Text, p: Text, ct: HttpContentType,
                          ct': HttpContentType)
    requires IsToken(item.name) && IsSentValue(item.value) && Follows(r) && IsBlankText(after)
    requires p == ItemText(Some(item)) + r && SkipOws(sv) == [';'] + (after + p)
    requires ct' == WithParameter(ct, item.name, Meant(item.value))
    ensures Parameters(sv, ct) == Parameters(r, ct')
  {
    ItemFound(after, item, r, p);
    ParameterTaken(sv, after + p, p, item.name, Meant(item.value), r, ct, ct');
  }

  lemma ItemFound(after: Text, item: Item, r: Text, p: Text)
    requires IsToken(item.name) && IsSentValue(item.value) && Follows(r) && IsBlankText(after)
    requires p == ItemText(Some(item)) + r
    ensures p != [] && SkipOws(after + p) == p && item.name == p[..TokenLen(p)] != []
    ensures ParameterOf(p) == Some((Meant(item.value), r))
  {
    ItemShape(item.name, ValueText(item.value), r);
    FirstOfToken(item.name, ['='] + (ValueText(item.value) + r));
    BlanksThen(after, p);
    ItemReads(item, r, p);
  }

  lemma ItemShape(name: Text, v: Text, r: Text)
    ensures (name + (['='] + v)) + r == name + (['='] + (v + r))
  {
  }

  lemma FirstOfToken(t: Text, x: Text)
    requires IsToken(t)
    ensures t + x != [] && !IsOws((t + x)[0])
  {
    assert (t + x)[0] == t[0];
    NotOws(t[0]);
  }

  /** One turn of the loop over parameters. */
  lemma ParameterTaken(sv: Text, w: Text, p: Text, name: Text, value: Text, r: Text, ct: HttpContentType,
                       ct': HttpContentType)
    requires SkipOws(sv) == [';'] + w && SkipOws(w) == p && p != [] && name == p[..TokenLen(p)] != []
    requires ParameterOf(p) == Some((value, r)) && ct' == WithParameter(ct, name, value)
    ensures Parameters(sv, ct) == Parameters(r, ct')
  {
    assert ([';'] + w)[1..] == w;
  }

  lemma EmptySettingReads(sv: Text, after: Text, r: Text, ct: HttpContentType)
    requires SkipOws(sv) == [';'] + (after + r) && IsBlankText(after) && Follows(r)
    ensures Parameters(sv, ct) == Parameters(r, ct)
  {
    var p := SkipOws(r);
    BlanksBefore(after, r);
    SkippedOnce(r);
    if p == [] {
      NothingSet(sv, after + r, r, ct);
    } else {
      SemicolonIsNoToken(p);
      NoParameter(sv, after + r, p, ct);
      BlanksDoNotCount(p, r, ct);
    }
  }

  lemma SemicolonIsNoToken(p: Text)
    requires p != [] && p[0] == ';'
    ensures TokenLen(p) == 0
  {
    NotTchar(p[0]);
  }

  lemma NothingSet(sv: Text, w: Text, r: Text, ct: HttpContentType)
    requires SkipOws(sv) == [';'] + w && SkipOws(w) == [] && SkipOws(r) == []
    ensures Parameters(sv, ct) == Parameters(r, ct)
  {
    assert ([';'] + w)[1..] == w;
  }

  lemma NoParameter(sv: Text, w: Text, p: Text, ct: HttpContentType)
    requires SkipOws(sv) == [';'] + w && SkipOws(w) == p && p != [] && TokenLen(p) == 0
    ensures Parameters(sv, ct) == Parameters(p, ct)
  {
    assert ([';'] + w)[1..] == w;
  }

  lemma {:induction false} LastOfMore(ss: seq<Setting>, key: Text, default: Text)
    requires ss != []
    ensures LastOf(ss, key, default) == LastOf(ss[1..], key, LastOf(ss[..1], key, default))
  {
    var n := |ss| - 1;
    if n > 0 {
      LastOfMore(ss[..n], key, default);
      assert ss[1..][..n - 1] == ss[..n][1..] && ss[1..][n - 1] == ss[n];
    }
  }

  /** Any parameters, in any order and spelling: the last charset and the last boundary count, others do not. */
  lemma {:induction false} SettingsRead(ss: seq<Setting>, end: Text, ct: HttpContentType)
    requires AreSettings(ss) && IsBlankText(end)
    ensures Parameters(SettingsText(ss, end), ct) == Some(WithLast(ss, ct))
  {
    if ss == [] {
      BlanksThen(end, []);
      assert end + [] == end;
    } else {
      var r, ct' := SettingsText(ss[1..], end), Kept(ss[0].item, ct);
      SettingsFollow(ss[1..], end);
      SettingReads(ss[0], r, ItemText(ss[0].item) + r, SettingsText(ss, end), ct, ct');
      SettingsRead(ss[1..], end, ct');
      LastOfMore(ss, CHARSET, ct.encoding);
      LastOfMore(ss, BOUNDARY, ct.boundary);
      KeptIsLast(ss[0], ss[..1], ct);
    }
  }

  lemma KeptIsLast(s: Setting, one: seq<Setting>, ct: HttpContentType)
    requires one == [s]
    ensures Kept(s.item, ct).encoding == LastOf(one, CHARSET, ct.encoding)
    ensures Kept(s.item, ct).boundary == LastOf(one, BOUNDARY, ct.boundary)
    ensures Kept(s.item, ct) == ct.(encoding := Kept(s.item, ct).encoding, boundary := Kept(s.item, ct).boundary)
  {
    assert one[..0] == [];
    NotBoth();
  }

  lemma NotBoth()
    ensures CHARSET != BOUNDARY
  {
    assert |BOUNDARY| == 8 && |CHARSET| == 7;
  }

  /** A whole header: blanks, type, subtype and parameters. */
  datatype Spelling = Spelling(lead: Text, mainType: Text, subtype: Text, settings: seq<Setting>, end: Text)

  predicate WellSpelled(sp: Spelling) {
    && IsBlankText(sp.lead) && IsToken(sp.mainType) && IsToken(sp.subtype)
    && AreSettings(sp.settings) && IsBlankText(sp.end)
  }

  function Spelled(sp: Spelling): Text {
    sp.lead + (sp.mainType + (['/'] + (sp.subtype + SettingsText(sp.settings, sp.end))))
  }

  function BoundaryOf(sp: Spelling): Text { LastOf(sp.settings, BOUNDARY, []) }

  lemma TypeReads(sv: Text, mainType: Text, subtype: Text, params: Text, s: Text, t: Text)
    requires IsToken(mainType) && IsToken(subtype) && (params == [] || !IsTchar(params[0]))
    requires t == subtype + params && s == mainType + (['/'] + t) && SkipOws(sv) == s
    ensures MediaType(sv) == Parameters(params, HttpContentType(LowerAll(mainType), LowerAll(subtype), [], []))
  {
    NotTchar('/');
    TokenThen(mainType, ['/'] + t);
    TokenThen(subtype, params);
    assert s[|mainType|] == '/' && s[|mainType| + 1..] == t;
    TwoTokens(sv, s, mainType, t, subtype, params);
  }

  lemma TwoTokens(sv: Text, s: Text, mainType: Text, t: Text, subtype: Text, params: Text)
    requires SkipOws(sv) == s && 0 < TokenLen(s) < |s| && s[..TokenLen(s)] == mainType && s[TokenLen(s)] == '/'
    requires s[TokenLen(s) + 1..] == t
    requires TokenLen(t) > 0 && t[..TokenLen(t)] == subtype && t[TokenLen(t)..] == params
    ensures MediaType(sv) == Parameters(params, HttpContentType(LowerAll(mainType), LowerAll(subtype), [], []))
  {
  }

  /** A header in any spelling is read as its type, its last charset and its last boundary, whatever other parameters
      there are and whether their values are quoted. */
  lemma HeaderRoundTrip(sp: Spelling)
    requires WellSpelled(sp)
    ensures MediaType(Spelled(sp))
         == Some(HttpContentType(LowerAll(sp.mainType), LowerAll(sp.subtype), LastOf(sp.settings, CHARSET, []),
                                 BoundaryOf(sp)))
  {
    var params := SettingsText(sp.settings, sp.end);
    var s := sp.mainType + (['/'] + (sp.subtype + params));
    FirstOfToken(sp.mainType, ['/'] + (sp.subtype + params));
    BlanksThen(sp.lead, s);
    SettingsFollow(sp.settings, sp.end);
    TypeReads(Spelled(sp), sp.mainType, sp.subtype, params, s, sp.subtype + params);
    SettingsRead(sp.settings, sp.end, HttpContentType(LowerAll(sp.mainType), LowerAll(sp.subtype), [], []));
  }
}
