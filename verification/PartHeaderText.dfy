/** How a client may write the headers of a part, and what is read of them, whole or cut short: any headers around
    the Content-Disposition, any parameters around the name, quoted or not, folded over any number of lines. */
module PartHeaderText {
  import opened Basics
  import opened Octets
  import opened PercentDecoding
  import opened PartHeaders

  predicate Blanks(s: Text) { forall i :: 0 <= i < |s| ==> IsBlank(s[i]) }

  predicate Spaces(s: Text) { forall i :: 0 <= i < |s| ==> s[i] == ' ' || s[i] == '\t' }

  // -------------------------------------------------------------------- parameters

  /** One parameter, with the blanks before its key and after its value. */
  datatype Param = Param(gap: Text, key: Text, quoted: bool, value: Text, trail: Text)

  /** The key `name`, in any case. */
  predicate IsNameKey(key: Text) {
    |key| == 4 && Lower(key[0]) == 'n' && Lower(key[1]) == 'a' && Lower(key[2]) == 'm' && Lower(key[3]) == 'e'
  }

  predicate IsTokenValue(v: Text) {
    (v == [] || v[0] != '"') && forall i :: 0 <= i < |v| ==> !EndsToken(v[i])
  }

  predicate WellFormed(p: Param) {
    && Blanks(p.gap) && OneLine(p.key) && '=' !in p.key && ';' !in p.key && (p.key == [] || !IsBlank(p.key[0]))
    && OneLine(p.value) && (if p.quoted then '"' !in p.value else IsTokenValue(p.value)) && Spaces(p.trail)
  }

  function ValueText(p: Param): Text {
    if p.quoted then ['"'] + (p.value + ['"']) else p.value
  }

  function ParamText(p: Param): Text {
    p.gap + (p.key + (['='] + ValueText(p)))
  }

  function ParamsText(ps: seq<Param>): Text {
    if ps == [] then [] else [';'] + (ParamText(ps[0]) + (ps[0].trail + ParamsText(ps[1..])))
  }

  predicate AllWellFormed(ps: seq<Param>) {
    forall i :: 0 <= i < |ps| ==> WellFormed(ps[i])
  }

  /** A `name` parameter gives the name: a quoted value decoded, a token as it is unless it is empty. Any other
      parameter leaves the name as it was. */
  function Taken(p: Param, name: Text): Text {
    if !IsNameKey(p.key) then name
    else if p.quoted then Unquoted(p.value)
    else if p.value == [] then name
    else p.value
  }

  function Named(ps: seq<Param>, name: Text): Text {
    if ps == [] then name else Named(ps[1..], Taken(ps[0], name))
  }

  lemma {:induction false} SkipsGap(gap: Text, s: Text)
    requires Blanks(gap) && (s == [] || !IsBlank(s[0]))
    ensures SkipBlanks(gap + s) == s
  {
    if gap == [] {
      assert gap + s == s;
    } else {
      assert (gap + s)[1..] == gap[1..] + s;
      SkipsGap(gap[1..], s);
    }
  }

  lemma {:induction false} MatchPrefix(s: Text, x: Text, token: Text)
    requires MatchLen(s, token) == |s|
    ensures MatchLen(s + x, token) == |s| + MatchLen(x, token[|s|..])
  {
    if s == [] {
      assert s + x == x && token[0..] == token;
    } else {
      var all := s + x;
      assert all[1..] == s[1..] + x && all[0] == s[0];
      MatchPrefix(s[1..], x, token[1..]);
      assert token[1..][|s| - 1..] == token[|s|..];
      assert MatchLen(all, token) == 1 + MatchLen(all[1..], token[1..]);
    }
  }

  lemma {:induction false} MatchCut(s: Text, token: Text, k: nat)
    requires k <= |s|
    ensures MatchLen(s[..k], token) <= MatchLen(s, token)
  {
    if k > 0 && token != [] && Lower(s[0]) == token[0] {
      assert s[..k][1..] == s[1..][..k - 1];
      MatchCut(s[1..], token[1..], k - 1);
    }
  }

  lemma MatchIs(s: Text, token: Text, n: nat)
    requires n <= |s| && n <= |token| && (forall i :: 0 <= i < n ==> Lower(s[i]) == token[i])
    requires n < |s| && n < |token| ==> Lower(s[n]) != token[n]
    ensures MatchLen(s, token) == n
  {
    assert MatchLen(s, token) >= n;
  }

  /** The five characters looked for are a key and its equals sign. */
  lemma KeyMatches(key: Text, z: Text, p: Text)
    requires '=' !in key && p == key + (['='] + z)
    ensures IsNameKey(key) ==> MatchLen(p, NAME) == 5
    ensures !IsNameKey(key) ==> MatchLen(p, NAME) < 5 && MatchLen(p, NAME) <= |key|
  {
    assert p[|key|] == '=' && p[..|key|] == key;
    if IsNameKey(key) {
      NameKeyMatches(key, p);
    } else {
      OtherKeyMatches(key, p);
    }
  }

  lemma NameKeyMatches(key: Text, p: Text)
    requires IsNameKey(key) && |p| > 4 && p[..4] == key && p[4] == '='
    ensures MatchLen(p, NAME) == 5
  {
    NameIs();
    assert p[0] == key[0] && p[1] == key[1] && p[2] == key[2] && p[3] == key[3];
    MatchIs(p, NAME, 5);
  }

  lemma NameIs()
    ensures |NAME| == 5 && NAME[0] == 'n' && NAME[1] == 'a' && NAME[2] == 'm' && NAME[3] == 'e' && NAME[4] == '='
  {
  }

  lemma OtherKeyMatches(key: Text, p: Text)
    requires !IsNameKey(key) && '=' !in key && |p| > |key| && p[|key|] == '=' && p[..|key|] == key
    ensures MatchLen(p, NAME) < 5 && MatchLen(p, NAME) <= |key|
  {
    NameIs();
    assert forall i :: 0 <= i < |key| ==> p[i] == key[i];
    if |key| > 4 {
      LowerEquals(key[4]);
      assert key[4] in key;
    }
  }

  lemma LowerEquals(c: Octet)
    ensures Lower(c) == '=' ==> c == '='
  {
  }

  lemma KeyRead(h: Text, gap: Text, key: Text, z: Text, name: Text)
    requires Blanks(gap) && '=' !in key && ';' !in key && (key == [] || !IsBlank(key[0]))
    requires h == gap + (key + (['='] + z))
    ensures AfterSemicolon(h, name) == ParameterValue(z, IsNameKey(key), name)
  {
    var p := key + (['='] + z);
    assert p[0] == if key == [] then '=' else key[0];
    SkipsGap(gap, p);
    KeyMatches(key, z, p);
    if IsNameKey(key) {
      NameKeyRead(h, p, z, name);
    } else {
      OtherKeyRead(h, p, p[MatchLen(p, NAME)..], name);
      OtherKeyEnds(key, z, MatchLen(p, NAME), p[MatchLen(p, NAME)..], name);
    }
  }

  lemma NameKeyRead(h: Text, p: Text, z: Text, name: Text)
    requires SkipBlanks(h) == p && MatchLen(p, NAME) == 5 && p[5..] == z
    ensures AfterSemicolon(h, name) == ParameterValue(z, true, name)
  {
    assert |NAME| == 5;
  }

  lemma OtherKeyRead(h: Text, p: Text, q: Text, name: Text)
    requires SkipBlanks(h) == p && MatchLen(p, NAME) < 5 && q == p[MatchLen(p, NAME)..]
    ensures AfterSemicolon(h, name) == InOtherKey(q, name)
  {
    assert |NAME| == 5;
  }

  lemma OtherKeyEnds(key: Text, z: Text, m: nat, q: Text, name: Text)
    requires '=' !in key && ';' !in key && m <= |key| && q == (key + (['='] + z))[m..]
    ensures InOtherKey(q, name) == ParameterValue(z, false, name)
  {
    var rest := key[m..];
    assert q == rest + (['='] + z);
    KeySpan(rest, z, q);
    EqualsFound(q, |rest|, z, name);
  }

  lemma KeySpan(rest: Text, z: Text, q: Text)
    requires '=' !in rest && ';' !in rest && q == rest + (['='] + z)
    ensures Span(q, EndsName) == |rest| < |q| && q[|rest|] == '=' && q[|rest| + 1..] == z
  {
    forall i | 0 <= i < |rest| ensures !EndsName(q[i]) {
      assert q[i] == rest[i] && rest[i] in rest;
    }
    SpanIs(q, EndsName, |rest|);
  }

  lemma EqualsFound(q: Text, n: nat, z: Text, name: Text)
    requires Span(q, EndsName) == n < |q| && q[n] == '=' && q[n + 1..] == z
    ensures InOtherKey(q, name) == ParameterValue(z, false, name)
  {
  }

  /** A value, then nothing or a character that ends a token. */
  lemma ValueRead(p: Param, r: Text, name: Text)
    requires WellFormed(p) && (r == [] || EndsToken(r[0]))
    ensures ParameterValue(ValueText(p) + r, IsNameKey(p.key), name) == NextParameter(r, Taken(p, name))
  {
    if p.quoted {
      assert ValueText(p) + r == ['"'] + (p.value + (['"'] + r));
      QuotedRead(p.value, r, IsNameKey(p.key), name);
    } else {
      TokenRead(p.value, r, IsNameKey(p.key), name);
    }
  }

  lemma QuotedRead(value: Text, r: Text, isName: bool, name: Text)
    requires '"' !in value
    ensures ParameterValue(['"'] + (value + (['"'] + r)), isName, name)
         == NextParameter(r, if isName then Unquoted(value) else name)
  {
    var v := ['"'] + (value + (['"'] + r));
    assert v[1..] == value + (['"'] + r);
    assert v[1..][..|value|] == value;
    BeforeIs(v[1..], '"', |value|);
    assert v[1..|value| + 1] == value && v[|value| + 2..] == r;
  }

  lemma TokenRead(value: Text, r: Text, isName: bool, name: Text)
    requires IsTokenValue(value) && (r == [] || EndsToken(r[0]))
    ensures ParameterValue(value + r, isName, name) == NextParameter(r, if isName && value != [] then value else name)
  {
    var v := value + r;
    if v == [] {
      NothingLeft(name);
    } else {
      assert v[0] == if value == [] then r[0] else value[0];
      SpanIs(v, EndsToken, |value|);
      assert v[..|value|] == value && v[|value|..] == r;
    }
  }

  /** Whatever comes before the next semicolon does not matter. */
  lemma SkipsToSemicolon(t: Text, r: Text, name: Text)
    requires ';' !in t && (r == [] || r[0] == ';')
    ensures NextParameter(t + r, name) == NextParameter(r, name)
  {
    var s := t + r;
    assert s[..|t|] == t;
    BeforeIs(s, ';', |t|);
    if r == [] {
      assert Past(s, |t|) == [] == Past(r, Before(r, ';'));
    } else {
      BeforeIs(r, ';', 0);
      assert s[|t| + 1..] == r[1..];
    }
  }

  lemma ParamsStart(ps: seq<Param>)
    ensures ParamsText(ps) == [] || ParamsText(ps)[0] == ';'
  {
  }

  lemma SpacesAreNoSemicolons(s: Text)
    requires Spaces(s)
    ensures ';' !in s
  {
  }

  /** One parameter and what follows it. */
  lemma ParamRead(p: Param, r: Text, name: Text)
    requires WellFormed(p) && (r == [] || r[0] == ';')
    ensures NextParameter([';'] + (ParamText(p) + (p.trail + r)), name) == NextParameter(r, Taken(p, name))
  {
    var rest := p.trail + r;
    var y := ParamText(p) + rest;
    BeforeIs([';'] + y, ';', 0);
    assert ([';'] + y)[1..] == y;
    assert y == p.gap + (p.key + (['='] + (ValueText(p) + rest)));
    KeyRead(y, p.gap, p.key, ValueText(p) + rest, name);
    assert rest == [] || rest[0] == if p.trail == [] then r[0] else p.trail[0];
    ValueRead(p, rest, name);
    SpacesAreNoSemicolons(p.trail);
    SkipsToSemicolon(p.trail, r, Taken(p, name));
  }

  /** Any list of parameters: the last `name` among them gives the name. */
  lemma {:induction false} ParamsRead(ps: seq<Param>, name: Text)
    requires AllWellFormed(ps)
    ensures NextParameter(ParamsText(ps), name) == Named(ps, name)
  {
    if ps == [] {
      NothingLeft(name);
    } else {
      ParamsStart(ps[1..]);
      ParamRead(ps[0], ParamsText(ps[1..]), name);
      ParamsRead(ps[1..], Taken(ps[0], name));
    }
  }

  // ----------------------------------------------------------- parameters that are cut

  predicate IsTokenName(p: Param) { IsNameKey(p.key) && !p.quoted }

  /** What reading may stop with: the name so far, or the start of a name sent as a token. */
  predicate StopsWith(ps: seq<Param>, name: Text, r: Text) {
    || r == name
    || (ps != [] && ((IsTokenName(ps[0]) && r != [] && r <= ps[0].value) || StopsWith(ps[1..], Taken(ps[0], name), r)))
  }

  lemma Cut(a: Text, b: Text, k: nat)
    requires k <= |a| + |b|
    ensures (a + b)[..k] == if k <= |a| then a[..k] else a + b[..k - |a|]
  {
  }

  lemma BlanksOnly(s: Text)
    requires Blanks(s)
    ensures SkipBlanks(s) == []
  {
    SkipsGap(s, []);
    assert s + [] == s;
  }

  /** Without an equals sign or a semicolon there is no value. */
  lemma KeyCut(gap: Text, key: Text, k: nat, name: Text)
    requires Blanks(gap) && '=' !in key && ';' !in key && (key == [] || !IsBlank(key[0])) && k <= |gap| + |key|
    ensures AfterSemicolon((gap + key)[..k], name) == name
  {
    Cut(gap, key, k);
    if k <= |gap| {
      BlanksOnly(gap[..k]);
      assert MatchLen([], NAME) == 0 && |NAME| == 5;
    } else {
      var p := key[..k - |gap|];
      assert p[0] == key[0];
      SkipsGap(gap, p);
      NoEquals(p);
    }
  }

  lemma NoEquals(p: Text)
    requires '=' !in p && ';' !in p
    ensures MatchLen(p, NAME) < 5 && Span(p[MatchLen(p, NAME)..], EndsName) == |p| - MatchLen(p, NAME)
  {
    NoNameKey(p);
    NothingEnds(p[MatchLen(p, NAME)..]);
  }

  lemma NoNameKey(p: Text)
    requires '=' !in p
    ensures MatchLen(p, NAME) < 5
  {
    assert |NAME| == 5 && NAME[4] == '=';
    if |p| > 4 {
      LowerEquals(p[4]);
      assert p[4] in p;
    }
  }

  lemma NothingEnds(q: Text)
    requires '=' !in q && ';' !in q
    ensures Span(q, EndsName) == |q|
  {
    assert forall i :: 0 <= i < |q| ==> q[i] in q;
    SpanIs(q, EndsName, |q|);
  }

  /** A quoted value that is not closed gives nothing, the start of a token gives itself. */
  lemma ValueCut(p: Param, i: nat, name: Text)
    requires WellFormed(p) && i < |ValueText(p)|
    ensures ParameterValue(ValueText(p)[..i], IsNameKey(p.key), name)
         == if IsTokenName(p) && i > 0 then p.value[..i] else name
  {
    var v := ValueText(p)[..i];
    if i > 0 && p.quoted {
      assert v == ['"'] + p.value[..i - 1];
      assert v[1..] == p.value[..i - 1] && v[1..][..i - 1] == v[1..];
      BeforeIs(v[1..], '"', i - 1);
    } else if i > 0 {
      assert v == p.value[..i] && v[0] == p.value[0];
      SpanIs(v, EndsToken, i);
      assert v[i..] == [] && v[..i] == v;
      NothingLeft(if IsNameKey(p.key) then v else name);
    }
  }

  lemma ParamCut(p: Param, k: nat, name: Text)
    requires WellFormed(p) && k < |ParamText(p)|
    ensures var r := AfterSemicolon(ParamText(p)[..k], name);
            r == name || (IsTokenName(p) && r != [] && r <= p.value)
  {
    var start := p.gap + p.key;
    assert ParamText(p) == start + (['='] + ValueText(p));
    Cut(start, ['='] + ValueText(p), k);
    if k <= |start| {
      KeyCut(p.gap, p.key, k, name);
    } else {
      var i := k - |start| - 1;
      assert (['='] + ValueText(p))[..i + 1] == ['='] + ValueText(p)[..i];
      assert start + (['='] + ValueText(p)[..i]) == p.gap + (p.key + (['='] + ValueText(p)[..i]));
      KeyRead(ParamText(p)[..k], p.gap, p.key, ValueText(p)[..i], name);
      ValueCut(p, i, name);
    }
  }

  lemma {:induction false} ParamsCut(ps: seq<Param>, k: nat, name: Text)
    requires AllWellFormed(ps) && k <= |ParamsText(ps)|
    ensures StopsWith(ps, name, NextParameter(ParamsText(ps)[..k], name))
  {
    if k == 0 {
      assert ParamsText(ps)[..k] == [];
      NothingLeft(name);
    } else {
      var p, rest := ps[0], ParamsText(ps[1..]);
      var whole := [';'] + (ParamText(p) + p.trail);
      assert ParamsText(ps) == whole + rest;
      Cut(whole, rest, k);
      if k <= |whole| {
        FirstParamCut(ps, k, name);
      } else {
        var j := k - |whole|;
        assert whole + rest[..j] == [';'] + (ParamText(p) + (p.trail + rest[..j]));
        ParamsStart(ps[1..]);
        assert rest[..j][0] == ';';
        ParamRead(p, rest[..j], name);
        ParamsCut(ps[1..], j, Taken(p, name));
      }
    }
  }

  lemma FirstParamCut(ps: seq<Param>, k: nat, name: Text)
    requires ps != [] && AllWellFormed(ps) && 0 < k <= 1 + |ParamText(ps[0])| + |ps[0].trail|
    ensures StopsWith(ps, name, NextParameter(([';'] + (ParamText(ps[0]) + ps[0].trail))[..k], name))
  {
    var p := ps[0];
    var t := ([';'] + (ParamText(p) + p.trail))[..k];
    Cut(ParamText(p), p.trail, k - 1);
    if k - 1 < |ParamText(p)| {
      assert t == [';'] + ParamText(p)[..k - 1];
      BeforeIs(t, ';', 0);
      assert t[1..] == ParamText(p)[..k - 1];
      ParamCut(p, k - 1, name);
    } else {
      var some := p.trail[..k - 1 - |ParamText(p)|];
      var p' := p.(trail := some);
      assert ParamText(p') == ParamText(p) && some + [] == some;
      assert t == [';'] + (ParamText(p) + some);
      ParamRead(p', [], name);
      NothingLeft(Taken(p, name));
      assert StopsWith(ps[1..], Taken(p, name), Taken(p, name));
    }
  }

  // ---------------------------------------------------------------------- header lines

  /** A Content-Disposition header: its name in any case with the colon, the type, the parameters. */
  datatype Spec = Spec(header: Text, gap: Text, kind: Text, params: seq<Param>)

  predicate WellSpecified(s: Spec) {
    && |s.header| == |DISPOSITION| && MatchLen(s.header, DISPOSITION) == |DISPOSITION| && OneLine(s.header)
    && Blanks(s.gap) && s.kind != [] && OneLine(s.kind) && ';' !in s.kind && !IsBlank(s.kind[0])
    && AllWellFormed(s.params)
  }

  function LineOf(s: Spec): Text {
    s.header + (s.gap + (s.kind + ParamsText(s.params)))
  }

  lemma HeaderNameRead(s: Spec, tail: Text, name: Text)
    requires WellSpecified(s) && (tail == [] || !IsBlank(tail[0]))
    ensures NameAfter(s.header + (s.gap + tail), name) == NextParameter(Past(tail, 0), name)
  {
    MatchPrefix(s.header, s.gap + tail, DISPOSITION);
    assert (s.header + (s.gap + tail))[|DISPOSITION|..] == s.gap + tail;
    SkipsGap(s.gap, tail);
  }

  lemma KindRead(s: Spec, r: Text, name: Text)
    requires WellSpecified(s) && (r == [] || r[0] == ';')
    ensures NameAfter(s.header + (s.gap + (s.kind + r)), name) == NextParameter(r, name)
  {
    var tail := s.kind + r;
    assert tail[0] == s.kind[0];
    HeaderNameRead(s, tail, name);
    KindSkipped(s.kind, r, name);
  }

  lemma KindSkipped(kind: Text, r: Text, name: Text)
    requires kind != [] && ';' !in kind && (r == [] || r[0] == ';')
    ensures NextParameter(Past(kind + r, 0), name) == NextParameter(r, name)
  {
    assert Past(kind + r, 0) == kind[1..] + r;
    SkipsToSemicolon(kind[1..], r, name);
  }

  lemma LineRead(s: Spec, name: Text)
    requires WellSpecified(s)
    ensures NameAfter(LineOf(s), name) == Named(s.params, name)
  {
    ParamsStart(s.params);
    KindRead(s, ParamsText(s.params), name);
    ParamsRead(s.params, name);
  }

  lemma LineCut(s: Spec, k: nat, name: Text)
    requires WellSpecified(s) && k <= |LineOf(s)|
    ensures StopsWith(s.params, name, NameAfter(LineOf(s)[..k], name))
  {
    var start, ps := s.header + (s.gap + s.kind), ParamsText(s.params);
    assert LineOf(s) == start + ps;
    Cut(start, ps, k);
    if k <= |start| {
      StartCut(s, k, name);
    } else {
      var j := k - |start|;
      assert start + ps[..j] == s.header + (s.gap + (s.kind + ps[..j]));
      ParamsStart(s.params);
      assert ps[..j][0] == ';';
      KindRead(s, ps[..j], name);
      ParamsCut(s.params, j, name);
    }
  }

  lemma StartCut(s: Spec, k: nat, name: Text)
    requires WellSpecified(s) && k <= |s.header| + |s.gap| + |s.kind|
    ensures NameAfter((s.header + (s.gap + s.kind))[..k], name) == name
  {
    Cut(s.header, s.gap + s.kind, k);
    if k < |s.header| {
      assert |s.header[..k]| < |DISPOSITION|;
    } else {
      var tail := (s.gap + s.kind)[..k - |s.header|];
      Cut(s.gap, s.kind, k - |s.header|);
      assert (s.header + (s.gap + s.kind))[..k] == s.header + tail;
      if |tail| <= |s.gap| {
        GapOnly(s, tail, name);
      } else {
        var d := s.kind[..|tail| - |s.gap|];
        assert tail == s.gap + d && d[0] == s.kind[0];
        HeaderNameRead(s, d, name);
        NoSemicolon(d[1..], name);
      }
    }
  }

  lemma GapOnly(s: Spec, tail: Text, name: Text)
    requires WellSpecified(s) && Blanks(tail)
    ensures NameAfter(s.header + tail, name) == name
  {
    HeaderNameRead(s.(gap := tail), [], name);
    assert tail + [] == tail;
    NothingLeft(name);
  }

  lemma NoSemicolon(t: Text, name: Text)
    requires ';' !in t
    ensures NextParameter(t, name) == name
  {
    SkipsToSemicolon(t, [], name);
    assert t + [] == t;
    NothingLeft(name);
  }

  // ------------------------------------------------------------------------- folding

  /** The rest of a header on another line, after blanks. */
  datatype Fold = Fold(blanks: Text, piece: Text)

  /** A header as it is sent, and what it says if it is a Content-Disposition. */
  datatype HeaderText = HeaderText(first: Text, folds: seq<Fold>, spec: Option<Spec>)

  function FlatFolds(folds: seq<Fold>): Text {
    if folds == [] then [] else folds[0].piece + FlatFolds(folds[1..])
  }

  function Flat(h: HeaderText): Text { h.first + FlatFolds(h.folds) }

  predicate WellFolded(folds: seq<Fold>) {
    forall i :: 0 <= i < |folds| ==>
      && folds[i].blanks != [] && Blanks(folds[i].blanks) && OneLine(folds[i].piece)
      && (folds[i].piece == [] || !IsBlank(folds[i].piece[0]))
  }

  predicate IsHeader(h: HeaderText) {
    && h.first != [] && OneLine(h.first) && !IsBlank(h.first[0]) && WellFolded(h.folds)
    && match h.spec
       case None => MatchLen(Flat(h), DISPOSITION) < |DISPOSITION|
       case Some(s) => WellSpecified(s) && Flat(h) == LineOf(s)
  }

  predicate IsEol(eol: Text) { eol == "\r\n" || eol == "\n" }

  function RawFolds(eol: Text, folds: seq<Fold>): Text {
    if folds == [] then [] else eol + (folds[0].blanks + (folds[0].piece + RawFolds(eol, folds[1..])))
  }

  function Raw(eol: Text, h: HeaderText): Text { h.first + RawFolds(eol, h.folds) }

  lemma {:induction false} BodyRuns(w: Text, r: Text)
    requires OneLine(w)
    ensures UnfoldedBody(w + r) == (w + UnfoldedBody(r).0, UnfoldedBody(r).1)
  {
    if w == [] {
      assert w + r == r && w + UnfoldedBody(r).0 == UnfoldedBody(r).0;
    } else {
      var s := w + r;
      assert s[0] == w[0] && s[1..] == w[1..] + r;
      BodyRuns(w[1..], r);
      assert [w[0]] + (w[1..] + UnfoldedBody(r).0) == w + UnfoldedBody(r).0;
    }
  }

  /** A line end before a line that does not start with a blank. */
  lemma EolEnds(eol: Text, x: Text)
    requires IsEol(eol) && (x == [] || !IsBlank(x[0]))
    ensures UnfoldedBody(eol + x) == ([], x)
  {
    var s := eol + x;
    if eol == "\r\n" {
      assert s[1..] == "\n" + x;
      assert UnfoldedBody(s) == UnfoldedBody("\n" + x);
    }
    assert ("\n" + x)[1..] == x;
    assert x != [] ==> ("\n" + x)[1] == x[0];
  }

  /** A line end before blanks: both are dropped. */
  lemma EolFolds(eol: Text, blanks: Text, y: Text)
    requires IsEol(eol) && Blanks(blanks) && blanks != [] && (y == [] || !IsBlank(y[0]))
    ensures UnfoldedBody(eol + (blanks + y)) == UnfoldedBody(y)
  {
    var x := blanks + y;
    var s := eol + x;
    if eol == "\r\n" {
      assert s[1..] == "\n" + x;
      assert UnfoldedBody(s) == UnfoldedBody("\n" + x);
    }
    assert ("\n" + x)[1..] == x && ("\n" + x)[1] == x[0] == blanks[0];
    SkipsGap(blanks, y);
  }

  lemma {:induction false} FoldsRun(eol: Text, folds: seq<Fold>, y: Text)
    requires IsEol(eol) && WellFolded(folds) && (y == [] || !IsBlank(y[0]))
    ensures UnfoldedBody(RawFolds(eol, folds) + y) == (FlatFolds(folds) + UnfoldedBody(y).0, UnfoldedBody(y).1)
  {
    if folds == [] {
      assert RawFolds(eol, folds) + y == y && [] + UnfoldedBody(y).0 == UnfoldedBody(y).0;
    } else {
      var f, rest := folds[0], RawFolds(eol, folds[1..]) + y;
      FoldsRun(eol, folds[1..], y);
      FoldsStart(eol, folds[1..], y);
      FoldsHead(eol, folds, y);
      FoldThen(eol, f, rest);
      Regroup(f.piece, FlatFolds(folds[1..]), UnfoldedBody(y).0);
    }
  }

  lemma FoldsHead(eol: Text, folds: seq<Fold>, y: Text)
    requires folds != []
    ensures RawFolds(eol, folds) + y
         == (eol + (folds[0].blanks + folds[0].piece)) + (RawFolds(eol, folds[1..]) + y)
  {
  }

  lemma FoldsStart(eol: Text, folds: seq<Fold>, y: Text)
    requires IsEol(eol) && (y == [] || !IsBlank(y[0]))
    ensures RawFolds(eol, folds) + y == [] || !IsBlank((RawFolds(eol, folds) + y)[0])
  {
    if folds != [] {
      assert (RawFolds(eol, folds) + y)[0] == eol[0];
    }
  }

  lemma StartsBody(s: Text)
    requires s != [] && !IsBlank(s[0]) && s[0] != '\r' && s[0] != '\n'
    ensures Unfolded(s) == UnfoldedBody(s)
  {
  }

  /** A header on any number of lines is unfolded into one. */
  lemma RawUnfolds(eol: Text, h: HeaderText, x: Text)
    requires IsEol(eol) && IsHeader(h) && (x == [] || !IsBlank(x[0]))
    ensures Unfolded(Raw(eol, h) + (eol + x)) == (Flat(h), x)
  {
    var y := eol + x;
    assert Raw(eol, h) + y == h.first + (RawFolds(eol, h.folds) + y);
    assert h.first[0] in h.first;
    StartsBody(h.first + (RawFolds(eol, h.folds) + y));
    BodyRuns(h.first, RawFolds(eol, h.folds) + y);
    FoldsRun(eol, h.folds, y);
    EolEnds(eol, x);
    assert FlatFolds(h.folds) + [] == FlatFolds(h.folds);
  }

  /** A piece of text that is cut off unfolds into itself. */
  lemma BodyAlone(w: Text)
    requires OneLine(w)
    ensures UnfoldedBody(w) == (w, [])
  {
    BodyRuns(w, []);
    assert w + [] == w;
  }

  lemma {:induction false} FoldsCut(eol: Text, folds: seq<Fold>, k: nat) returns (j: nat)
    requires IsEol(eol) && WellFolded(folds) && k <= |RawFolds(eol, folds)|
    ensures j <= |FlatFolds(folds)| && UnfoldedBody(RawFolds(eol, folds)[..k]) == (FlatFolds(folds)[..j], [])
  {
    if folds == [] || k == 0 {
      assert RawFolds(eol, folds)[..k] == [];
      j := 0;
    } else {
      var f, rest := folds[0], RawFolds(eol, folds[1..]);
      var start := eol + (f.blanks + f.piece);
      assert RawFolds(eol, folds) == start + rest;
      Cut(start, rest, k);
      if k <= |start| {
        j := FoldCut(eol, f, k);
        assert FlatFolds(folds)[..j] == f.piece[..j];
      } else {
        var i := k - |start|;
        j := FoldsCut(eol, folds[1..], i);
        assert rest[..i][0] == eol[0];
        FoldThen(eol, f, rest[..i]);
        assert FlatFolds(folds)[..|f.piece| + j] == f.piece + FlatFolds(folds[1..])[..j];
        j := |f.piece| + j;
      }
    }
  }

  lemma FoldThen(eol: Text, f: Fold, y: Text)
    requires IsEol(eol) && WellFolded([f]) && (y == [] || !IsBlank(y[0]))
    ensures UnfoldedBody((eol + (f.blanks + f.piece)) + y) == (f.piece + UnfoldedBody(y).0, UnfoldedBody(y).1)
  {
    assert [f][0] == f;
    assert (eol + (f.blanks + f.piece)) + y == eol + (f.blanks + (f.piece + y));
    assert (f.piece + y) == [] || (f.piece + y)[0] == if f.piece == [] then y[0] else f.piece[0];
    EolFolds(eol, f.blanks, f.piece + y);
    BodyRuns(f.piece, y);
  }

  lemma FoldCut(eol: Text, f: Fold, k: nat) returns (j: nat)
    requires IsEol(eol) && WellFolded([f]) && 0 < k <= |eol| + |f.blanks| + |f.piece|
    ensures j <= |f.piece| && UnfoldedBody((eol + (f.blanks + f.piece))[..k]) == (f.piece[..j], [])
  {
    assert [f][0] == f;
    j := 0;
    Cut(eol, f.blanks + f.piece, k);
    if k <= |eol| {
      var s := eol[..k];
      assert s == "\r" || s == "\r\n" || s == "\n";
      CutEol(s);
    } else {
      var t := (f.blanks + f.piece)[..k - |eol|];
      Cut(f.blanks, f.piece, |t|);
      if |t| <= |f.blanks| {
        EolFolds(eol, t, []);
        assert t + [] == t;
      } else {
        j := |t| - |f.blanks|;
        assert f.piece[..j][0] == f.piece[0];
        EolFolds(eol, f.blanks, f.piece[..j]);
        BodyAlone(f.piece[..j]);
      }
    }
  }

  lemma CutEol(s: Text)
    requires s == "\r" || s == "\r\n" || s == "\n"
    ensures UnfoldedBody(s) == ([], [])
  {
    assert s[1..] == [] || s[1..] == "\n";
    assert UnfoldedBody([]) == ([], []);
    assert "\n"[1..] == [];
    assert UnfoldedBody("\n") == ([], []);
  }

  /** A header that is cut unfolds into a start of what it says. */
  lemma RawCut(eol: Text, h: HeaderText, k: nat, s: Text) returns (j: nat)
    requires IsEol(eol) && IsHeader(h) && 0 < k <= |Raw(eol, h)| + |eol| && s == (Raw(eol, h) + eol)[..k]
    ensures 0 < j <= |Flat(h)| && Unfolded(s) == (Flat(h)[..j], [])
  {
    var more := RawFolds(eol, h.folds) + eol;
    Regroup(h.first, RawFolds(eol, h.folds), eol);
    StartOfHeader(h.first, more, k, s);
    if k <= |h.first| {
      j := k;
      BodyStarts(h.first, more, FlatFolds(h.folds), k, s);
    } else {
      var i := k - |h.first|;
      j := FoldsAndEolCut(eol, h.folds, i);
      Cut(h.first, more, k);
      BodyThen(h.first, more[..i], FlatFolds(h.folds), j, s);
      j := |h.first| + j;
    }
  }

  lemma BodyStarts(w: Text, more: Text, flat: Text, k: nat, s: Text)
    requires OneLine(w) && k <= |w| && s == (w + more)[..k]
    ensures UnfoldedBody(s) == ((w + flat)[..k], [])
  {
    BodyAlone(w[..k]);
    assert (w + more)[..k] == w[..k] == (w + flat)[..k];
  }

  lemma StartOfHeader(first: Text, more: Text, k: nat, s: Text)
    requires first != [] && OneLine(first) && !IsBlank(first[0]) && 0 < k <= |first| + |more|
    requires s == (first + more)[..k]
    ensures Unfolded(s) == UnfoldedBody(s)
  {
    assert s[0] == first[0] && first[0] in first;
    StartsBody(s);
  }

  lemma BodyThen(w: Text, y: Text, flat: Text, j: nat, s: Text)
    requires OneLine(w) && j <= |flat| && UnfoldedBody(y) == (flat[..j], []) && s == w + y
    ensures UnfoldedBody(s) == ((w + flat)[..|w| + j], [])
  {
    BodyRuns(w, y);
    assert (w + flat)[..|w| + j] == w + flat[..j];
  }

  lemma FoldsAndEolCut(eol: Text, folds: seq<Fold>, k: nat) returns (j: nat)
    requires IsEol(eol) && WellFolded(folds) && 0 < k <= |RawFolds(eol, folds)| + |eol|
    ensures j <= |FlatFolds(folds)|
    ensures UnfoldedBody((RawFolds(eol, folds) + eol)[..k]) == (FlatFolds(folds)[..j], [])
  {
    Cut(RawFolds(eol, folds), eol, k);
    if k <= |RawFolds(eol, folds)| {
      j := FoldsCut(eol, folds, k);
    } else {
      var s := eol[..k - |RawFolds(eol, folds)|];
      assert s == "\r" || s == "\r\n" || s == "\n";
      CutEol(s);
      FoldsRun(eol, folds, s);
      j := |FlatFolds(folds)|;
      assert FlatFolds(folds)[..j] == FlatFolds(folds) == FlatFolds(folds) + [];
    }
  }

  // --------------------------------------------------------------------- all headers

  /** The headers of a part with the empty line after them. */
  function HeadersText(eol: Text, hs: seq<HeaderText>): Text {
    if hs == [] then eol else Raw(eol, hs[0]) + (eol + HeadersText(eol, hs[1..]))
  }

  predicate AreHeaders(hs: seq<HeaderText>) {
    forall i :: 0 <= i < |hs| ==> IsHeader(hs[i])
  }

  function ParamsOf(h: HeaderText): seq<Param> {
    if h.spec.None? then [] else h.spec.value.params
  }

  /** The parameters of all Content-Disposition headers. */
  function AllParams(hs: seq<HeaderText>): seq<Param> {
    if hs == [] then [] else ParamsOf(hs[0]) + AllParams(hs[1..])
  }

  function NameOf(hs: seq<HeaderText>): Text { Named(AllParams(hs), []) }

  lemma HeaderRead(h: HeaderText, name: Text)
    requires IsHeader(h)
    ensures NameAfter(Flat(h), name) == Named(ParamsOf(h), name)
  {
    if h.spec.Some? {
      LineRead(h.spec.value, name);
    }
  }

  lemma HeaderCut(h: HeaderText, j: nat, name: Text)
    requires IsHeader(h) && j <= |Flat(h)|
    ensures StopsWith(ParamsOf(h), name, NameAfter(Flat(h)[..j], name))
  {
    if h.spec.Some? {
      LineCut(h.spec.value, j, name);
    } else {
      MatchCut(Flat(h), DISPOSITION, j);
    }
  }

  lemma {:induction false} NamedInTurn(a: seq<Param>, b: seq<Param>, name: Text)
    ensures Named(a + b, name) == Named(b, Named(a, name))
  {
    if a == [] {
      assert a + b == b;
    } else {
      assert (a + b)[1..] == a[1..] + b;
      NamedInTurn(a[1..], b, Taken(a[0], name));
    }
  }

  lemma {:induction false} StopsEarly(a: seq<Param>, b: seq<Param>, name: Text, r: Text)
    requires StopsWith(a, name, r)
    ensures StopsWith(a + b, name, r)
  {
    if a != [] && r != name {
      assert (a + b)[1..] == a[1..] + b;
      if StopsWith(a[1..], Taken(a[0], name), r) {
        StopsEarly(a[1..], b, Taken(a[0], name), r);
      }
    }
  }

  lemma {:induction false} StopsLate(a: seq<Param>, b: seq<Param>, name: Text, r: Text)
    requires StopsWith(b, Named(a, name), r)
    ensures StopsWith(a + b, name, r)
  {
    if a == [] {
      assert a + b == b;
    } else {
      assert (a + b)[1..] == a[1..] + b;
      StopsLate(a[1..], b, Taken(a[0], name), r);
    }
  }

  lemma HeadersStart(eol: Text, hs: seq<HeaderText>, x: Text)
    requires IsEol(eol) && AreHeaders(hs)
    ensures HeadersText(eol, hs) != [] && !IsBlank((HeadersText(eol, hs) + x)[0])
  {
    if hs != [] {
      assert (HeadersText(eol, hs) + x)[0] == hs[0].first[0];
    }
  }

  /** The headers of a part give the name that the last `name` parameter among them gives. */
  lemma {:induction false} HeadersRead(eol: Text, hs: seq<HeaderText>, x: Text, name: Text)
    requires IsEol(eol) && AreHeaders(hs)
    ensures Disposition(HeadersText(eol, hs) + x, name) == (Named(AllParams(hs), name), x)
  {
    var s := HeadersText(eol, hs) + x;
    if hs == [] {
      EmptyLine(eol, x, name);
    } else {
      var h, rest := hs[0], HeadersText(eol, hs[1..]) + x;
      HeadersStart(eol, hs[1..], x);
      Regroup(Raw(eol, h), eol + HeadersText(eol, hs[1..]), x);
      Regroup(eol, HeadersText(eol, hs[1..]), x);
      FirstHeaderRead(eol, h, rest, name);
      NamedInTurn(ParamsOf(h), AllParams(hs[1..]), name);
      HeadersRead(eol, hs[1..], x, Named(ParamsOf(h), name));
    }
  }

  lemma EmptyLine(eol: Text, x: Text, name: Text)
    requires IsEol(eol)
    ensures Disposition(eol + x, name) == (name, x)
  {
    var s := eol + x;
    assert s[|eol|..] == x;
    assert Unfolded(s) == ([], x);
  }

  lemma FirstHeaderRead(eol: Text, h: HeaderText, rest: Text, name: Text)
    requires IsEol(eol) && IsHeader(h) && (rest == [] || !IsBlank(rest[0]))
    ensures Disposition(Raw(eol, h) + (eol + rest), name) == Disposition(rest, Named(ParamsOf(h), name))
  {
    RawUnfolds(eol, h, rest);
    HeaderRead(h, name);
    assert Flat(h)[0] == h.first[0];
  }

  /** Headers cut anywhere use up the input, and give what the parameters before the cut give. */
  lemma {:induction false} HeadersCut(eol: Text, hs: seq<HeaderText>, k: nat, name: Text)
    requires IsEol(eol) && AreHeaders(hs) && k < |HeadersText(eol, hs)|
    ensures Disposition(HeadersText(eol, hs)[..k], name).1 == []
    ensures StopsWith(AllParams(hs), name, Disposition(HeadersText(eol, hs)[..k], name).0)
    decreases |hs|, 1
  {
    var s := HeadersText(eol, hs)[..k];
    if k == 0 {
      assert s == [];
    } else if hs == [] {
      assert s == "\r";
      assert Unfolded(s) == ([], []);
    } else {
      var h, rest := hs[0], HeadersText(eol, hs[1..]);
      assert HeadersText(eol, hs) == (Raw(eol, h) + eol) + rest;
      Cut(Raw(eol, h) + eol, rest, k);
      if k <= |Raw(eol, h)| + |eol| {
        var j := RawCut(eol, h, k, s);
        assert Disposition(s, name) == (NameAfter(Flat(h)[..j], name), []);
        HeaderCut(h, j, name);
        StopsEarly(ParamsOf(h), AllParams(hs[1..]), name, NameAfter(Flat(h)[..j], name));
      } else {
        LaterHeaderCut(eol, hs, k, name);
      }
    }
  }

  lemma {:induction false} LaterHeaderCut(eol: Text, hs: seq<HeaderText>, k: nat, name: Text)
    requires IsEol(eol) && AreHeaders(hs) && hs != []
    requires |Raw(eol, hs[0])| + |eol| < k < |HeadersText(eol, hs)|
    ensures Disposition(HeadersText(eol, hs)[..k], name).1 == []
    ensures StopsWith(AllParams(hs), name, Disposition(HeadersText(eol, hs)[..k], name).0)
    decreases |hs|, 0
  {
    var h, rest := hs[0], HeadersText(eol, hs[1..]);
    var i := k - |Raw(eol, h)| - |eol|;
    var s := HeadersText(eol, hs)[..k];
    assert s == Raw(eol, h) + (eol + rest[..i]);
    HeadersStart(eol, hs[1..], []);
    assert rest + [] == rest && rest[..i][0] == rest[0];
    FirstHeaderRead(eol, h, rest[..i], name);
    HeadersCut(eol, hs[1..], i, Named(ParamsOf(h), name));
    StopsLate(ParamsOf(h), AllParams(hs[1..]), name, Disposition(s, name).0);
  }

  // ------------------------------------------------------------------------ one name

  predicate NoNames(ps: seq<Param>) {
    forall i :: 0 <= i < |ps| ==> !IsNameKey(ps[i].key)
  }

  /** At most one `name`; whether it is a token. */
  predicate OneName(ps: seq<Param>, token: bool) {
    ps != [] ==> if IsNameKey(ps[0].key) then NoNames(ps[1..]) && ps[0].quoted == !token else OneName(ps[1..], token)
  }

  lemma {:induction false} NoNamesKeep(ps: seq<Param>, name: Text, r: Text)
    requires NoNames(ps)
    ensures Named(ps, name) == name && (StopsWith(ps, name, r) ==> r == name)
  {
    if ps != [] {
      NoNamesKeep(ps[1..], name, r);
    }
  }

  /** With one name, reading stops with it or with none, or with the start of it when it is a token. */
  lemma {:induction false} OneNameStops(ps: seq<Param>, token: bool, r: Text)
    requires OneName(ps, token) && StopsWith(ps, [], r)
    ensures r == [] || r == Named(ps, []) || (token && r <= Named(ps, []))
  {
    if ps != [] && r != [] {
      if IsNameKey(ps[0].key) {
        NoNamesKeep(ps[1..], Taken(ps[0], []), r);
      } else {
        OneNameStops(ps[1..], token, r);
      }
    }
  }

  /** A name among other parameters is found, wherever it stands. */
  lemma {:induction false} NameAmongOthers(a: seq<Param>, p: Param, b: seq<Param>, name: Text)
    requires NoNames(a) && NoNames(b) && IsNameKey(p.key)
    ensures Named(a + ([p] + b), name) == Taken(p, name) && OneName(a + ([p] + b), !p.quoted)
  {
    var ps := a + ([p] + b);
    if a == [] {
      assert ps[0] == p && ps[1..] == b;
      NoNamesKeep(b, Taken(p, name), []);
    } else {
      assert ps[0] == a[0] && ps[1..] == a[1..] + ([p] + b);
      NameAmongOthers(a[1..], p, b, name);
    }
  }

  /** A name in quotes: in any spelling without a quote or a line end as such. */
  predicate IsQuotedName(us: seq<Coded>) {
    AllCoded(false, us) && NeverPlain(us, '"') && NeverPlain(us, '\r') && NeverPlain(us, '\n')
  }

  lemma QuotedNameIsRead(us: seq<Coded>)
    requires IsQuotedName(us)
    ensures OneLine(CodedText(us)) && '"' !in CodedText(us) && Unquoted(CodedText(us)) == Chars(us)
  {
    CodedAvoids(false, us, '"');
    CodedAvoids(false, us, '\r');
    CodedAvoids(false, us, '\n');
    DecodedCoded(false, us);
    if '%' !in CodedText(us) {
      DecodedPlain(false, CodedText(us));
    }
  }

  /** A name sent in quotes in any spelling, or as it is when it is a token, is read back, whatever other parameters
      and headers are around it. */
  lemma SentNameIsRead(us: seq<Coded>, p: Param, a: seq<Param>, b: seq<Param>, hs: seq<HeaderText>)
    requires IsNameKey(p.key) && Blanks(p.gap) && Spaces(p.trail) && NoNames(a) && NoNames(b)
    requires if p.quoted then IsQuotedName(us) && p.value == CodedText(us)
             else p.value != [] && OneLine(p.value) && IsTokenValue(p.value)
    requires AllParams(hs) == a + ([p] + b)
    ensures WellFormed(p) && NameOf(hs) == (if p.quoted then Chars(us) else p.value)
    ensures OneName(AllParams(hs), !p.quoted)
  {
    if p.quoted {
      QuotedNameIsRead(us);
    }
    KeyIsPlain(p.key);
    NameAmongOthers(a, p, b, []);
  }

  lemma KeyIsPlain(key: Text)
    requires IsNameKey(key)
    ensures OneLine(key) && '=' !in key && ';' !in key && !IsBlank(key[0])
  {
    assert forall i :: 0 <= i < 4 ==> Lower(key[i]) in {'n', 'a', 'm', 'e'};
  }
}
