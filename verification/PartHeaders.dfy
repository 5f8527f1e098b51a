/** The headers of a multipart part: unfolding, and the name in its Content-Disposition. */
module PartHeaders {
  import opened Basics
  import opened Octets
  import opened ChainStream
  import opened MultipartLines
  import opened PercentDecoding

  function SkipBlanks(s: Text): (r: Text)
    ensures |r| <= |s| && (r != [] ==> !IsBlank(r[0]))
  {
    if s == [] || !IsBlank(s[0]) then s else SkipBlanks(s[1..])
  }

  // ---------------------------------------------------------------------- unfolding

  /** A header's characters and what follows it; no characters mean the end of the headers. A line that
      starts with a blank before any header is skipped. */
  function Unfolded(s: Text): (r: (Text, Text))
    ensures |r.1| <= |s| && (s != [] ==> |r.1| < |s|)
    decreases |s|
  {
    if s == [] then ([], [])
    else if IsBlank(s[0]) then Unfolded(AfterLine(s))
    else if s[0] == '\r' then
      if |s| == 1 then ([], [])
      else if s[1] == '\n' then ([], s[2..])
      else UnfoldedBody(s[1..])
    else if s[0] == '\n' then ([], s[1..])
    else UnfoldedBody(s)
  }

  /** Carriage returns are dropped; a line feed ends the header unless a blank follows it. */
  function UnfoldedBody(s: Text): (r: (Text, Text))
    ensures |r.1| <= |s| && (s != [] ==> |r.1| < |s|)
    decreases |s|
  {
    if s == [] then ([], [])
    else if s[0] == '\r' then UnfoldedBody(s[1..])
    else if s[0] != '\n' then ([s[0]] + UnfoldedBody(s[1..]).0, UnfoldedBody(s[1..]).1)
    else if |s| > 1 && IsBlank(s[1]) then UnfoldedBody(SkipBlanks(s[1..]))
    else ([], s[1..])
  }

  /** What is left to do when `h` has been produced and `todo` is still to be unfolded. */
  ghost predicate Unfolding(s: Text, h: Text, todo: Text) {
    Unfolded(s) == (h + UnfoldedBody(todo).0, UnfoldedBody(todo).1)
  }

  lemma UnfoldingStep(s: Text, h: Text, c: Octet, rest: Text)
    requires Unfolding(s, h, [c] + rest)
    ensures c == '\r' ==> Unfolding(s, h, rest)
    ensures c != '\r' && c != '\n' ==> Unfolding(s, h + [c], rest)
    ensures c == '\n' && rest != [] && IsBlank(rest[0]) ==> Unfolding(s, h, SkipBlanks(rest))
    ensures c == '\n' && (rest == [] || !IsBlank(rest[0])) ==> Unfolded(s) == (h, rest)
  {
    var all := [c] + rest;
    assert all[1..] == rest && all[0] == c;
    if c == '\n' {
      assert rest != [] ==> all[1] == rest[0];
      assert h + [] == h;
    } else if c != '\r' {
      assert UnfoldedBody(all) == ([c] + UnfoldedBody(rest).0, UnfoldedBody(rest).1);
      Regroup(h, [c], UnfoldedBody(rest).0);
    }
  }

  lemma UnfoldingStarts(s: Text, todo: Text)
    requires Unfolded(s) == UnfoldedBody(todo)
    ensures Unfolding(s, [], todo)
  {
    assert [] + UnfoldedBody(todo).0 == UnfoldedBody(todo).0;
  }

  lemma UnfoldingEnds(s: Text, h: Text)
    requires Unfolding(s, h, [])
    ensures Unfolded(s) == (h, [])
  {
    assert h + [] == h;
  }

  method SkipBlankInput(input: NgxChainInputStream)
    requires input.ByteWise() && input.rest != [] && IsBlank(input.rest[0])
    modifies input
    ensures input.ByteWise() && input.rest == SkipBlanks(old(input.rest))
  {
    var _ := input.Read();
    while true
      invariant input.ByteWise() && SkipBlanks(input.rest) == SkipBlanks(old(input.rest))
      decreases |input.rest|
    {
      if input.Eof() {
        return;
      }
      var c := input.Peek();
      if !IsBlank(c) {
        return;
      }
      var _ := input.Read();
    }
  }

  /** Up to the first character of a header; `None` when there is none. */
  method FirstOfHeader(input: NgxChainInputStream) returns (first: Option<Octet>)
    requires input.ByteWise()
    modifies input
    ensures input.ByteWise()
    ensures first.None? ==> Unfolded(old(input.rest)) == ([], input.rest)
    ensures first.Some? ==> Unfolding(old(input.rest), [], [first.value] + input.rest)
  {
    while true
      invariant input.ByteWise() && Unfolded(input.rest) == Unfolded(old(input.rest))
      decreases |input.rest|
    {
      if input.Eof() {
        return None;
      }
      ghost var before := input.rest;
      var c := input.Read();
      assert [c] + input.rest == before;
      if IsBlank(c) {
        LineHead(before);
        var _ := RestOfLine(input);
      } else if c == '\r' {
        if input.Eof() {
          return None;
        }
        c := input.Read();
        assert [c] + input.rest == before[1..];
        if c == '\n' {
          return None;
        }
        UnfoldingStarts(old(input.rest), [c] + input.rest);
        return Some(c);
      } else {
        if c == '\n' {
          return None;
        }
        UnfoldingStarts(old(input.rest), [c] + input.rest);
        return Some(c);
      }
    }
  }

  /** The generator of header characters, run to its end: its consumer always drains it. */
  method UnfoldNextHeader(input: NgxChainInputStream) returns (h: Text)
    requires input.ByteWise()
    modifies input
    ensures input.ByteWise() && Unfolded(old(input.rest)) == (h, input.rest)
  {
    h := [];
    var first := FirstOfHeader(input);
    if first.None? {
      return;
    }
    var c := first.value;
    while true
      invariant input.ByteWise() && Unfolding(old(input.rest), h, [c] + input.rest)
      decreases |input.rest|
    {
      UnfoldingStep(old(input.rest), h, c, input.rest);
      if c == '\n' {
        var folded := SkipFold(input);
        if !folded {
          return;
        }
      } else if c != '\r' {
        h := h + [c];
      }
      if input.Eof() {
        UnfoldingEnds(old(input.rest), h);
        return;
      }
      ghost var before := input.rest;
      c := input.Read();
      assert [c] + input.rest == before;
    }
  }

  /** After a line feed: blanks at the start of the next line continue the header. */
  method SkipFold(input: NgxChainInputStream) returns (folded: bool)
    requires input.ByteWise()
    modifies input
    ensures input.ByteWise() && folded == (old(input.rest) != [] && IsBlank(old(input.rest)[0]))
    ensures folded ==> input.rest == SkipBlanks(old(input.rest)) && |input.rest| < |old(input.rest)|
    ensures !folded ==> input.rest == old(input.rest)
  {
    if input.Eof() {
      return false;
    }
    var c := input.Peek();
    if !IsBlank(c) {
      return false;
    }
    SkipsSome(input.rest);
    SkipBlankInput(input);
    folded := true;
  }

  lemma SkipsSome(s: Text)
    requires s != [] && IsBlank(s[0])
    ensures |SkipBlanks(s)| < |s|
  {
  }

  // ------------------------------------------------------------- Content-Disposition

  const DISPOSITION: Text := "content-disposition:"
  const NAME: Text := "name="

  /** How much of a lower-case token the text starts with, in any case. */
  function MatchLen(s: Text, token: Text): (n: nat)
    ensures n <= |s| && n <= |token|
    ensures forall i :: 0 <= i < n ==> Lower(s[i]) == token[i]
    ensures n < |s| && n < |token| ==> Lower(s[n]) != token[n]
  {
    if s == [] || token == [] || Lower(s[0]) != token[0] then 0 else 1 + MatchLen(s[1..], token[1..])
  }

  predicate EndsToken(c: Octet) { c == ' ' || c == '\t' || c == ';' }
  predicate EndsName(c: Octet) { c == '=' || c == ';' }

  /** The length of the longest prefix whose characters all fail `stop`. */
  function Span(s: Text, stop: Octet -> bool): (n: nat)
    ensures n <= |s| && (n < |s| ==> stop(s[n])) && forall i :: 0 <= i < n ==> !stop(s[i])
  {
    if s == [] || stop(s[0]) then 0 else 1 + Span(s[1..], stop)
  }

  lemma SpanIs(s: Text, stop: Octet -> bool, n: nat)
    requires n <= |s| && (n < |s| ==> stop(s[n])) && forall i :: 0 <= i < n ==> !stop(s[i])
    ensures Span(s, stop) == n
  {
    if n < |s| {
      assert stop(s[n]);
    }
  }

  function Past(s: Text, n: nat): Text { if n < |s| then s[n + 1..] else [] }

  /** The name that a header leaves, given the name found before it. */
  function NameAfter(h: Text, name: Text): Text {
    if MatchLen(h, DISPOSITION) < |DISPOSITION| then name
    else NextParameter(Past(SkipBlanks(h[|DISPOSITION|..]), 0), name)
  }

  /** From anywhere in a parameter: go past the next semicolon. */
  function NextParameter(h: Text, name: Text): Text
    decreases |h|, 3
  {
    AfterSemicolon(Past(h, Before(h, ';')), name)
  }

  function AfterSemicolon(h: Text, name: Text): Text
    decreases |h|, 2
  {
    var p := SkipBlanks(h);
    var m := MatchLen(p, NAME);
    if m == |NAME| then ParameterValue(p[m..], true, name) else InOtherKey(p[m..], name)
  }

  /** Inside the key of another parameter: its value may hold semicolons, so it is read as well. */
  function InOtherKey(q: Text, name: Text): Text
    decreases |q|, 1
  {
    var n := Span(q, EndsName);
    if n == |q| then name
    else if q[n] == ';' then AfterSemicolon(q[n + 1..], name)
    else ParameterValue(q[n + 1..], false, name)
  }

  function ParameterValue(v: Text, isName: bool, name: Text): Text
    decreases |v|, 4
  {
    if v == [] then name
    else if v[0] == '"' then
      var n := Before(v[1..], '"');
      if n == |v| - 1 then name
      else NextParameter(v[n + 2..], if isName then Unquoted(v[1..n + 1]) else name)
    else
      var n := Span(v, EndsToken);
      NextParameter(v[n..], if isName && n > 0 then v[..n] else name)
  }

  lemma NothingLeft(name: Text)
    ensures NextParameter([], name) == name && AfterSemicolon([], name) == name
  {
    assert SkipBlanks([]) == [] && MatchLen([], NAME) == 0;
    assert |NAME| == 5;
    assert InOtherKey([], name) == name;
  }

  function Unquoted(value: Text): Text {
    if '%' in value then Decoded(false, value) else value
  }

  /** All headers of a part: the last name wins; what follows the headers is left. */
  function Disposition(s: Text, name: Text): (r: (Text, Text))
    ensures |r.1| <= |s|
    decreases |s|
  {
    if s == [] then (name, [])
    else
      var (h, rest) := Unfolded(s);
      if h == [] then (name, rest) else Disposition(rest, NameAfter(h, name))
  }

  // --------------------------------------------------------------- the loops of the scan

  method TryMatchToken(gen: Text, token: Text) returns (matched: bool, left: Text)
    ensures matched == (MatchLen(gen, token) == |token|) && left == gen[MatchLen(gen, token)..]
  {
    var i := 0;
    left := gen;
    while left != [] && i < |token|
      invariant 0 <= i <= |token| && i <= MatchLen(gen, token) && left == gen[i..]
      decreases |token| - i
    {
      if Lower(left[0]) != token[i] {
        break;
      }
      left := left[1..];
      i := i + 1;
    }
    matched := i == |token|;
  }

  method DropBlanks(gen: Text) returns (left: Text)
    ensures left == SkipBlanks(gen)
  {
    left := gen;
    while left != [] && IsBlank(left[0])
      invariant SkipBlanks(left) == SkipBlanks(gen)
      decreases |left|
    {
      left := left[1..];
    }
  }

  /** Takes characters up to the first that stops it. */
  method TakeSpan(gen: Text, stop: Octet -> bool) returns (taken: Text, left: Text)
    ensures taken == gen[..Span(gen, stop)] && left == gen[Span(gen, stop)..]
  {
    taken, left := [], gen;
    while left != [] && !stop(left[0])
      invariant taken + left == gen && |taken| + Span(left, stop) == Span(gen, stop)
      decreases |left|
    {
      Regroup(taken, [left[0]], left[1..]);
      assert [left[0]] + left[1..] == left;
      taken, left := taken + [left[0]], left[1..];
    }
    assert gen[..|taken|] == taken && gen[|taken|..] == left;
  }

  method DropPast(gen: Text, c: Octet) returns (left: Text)
    ensures left == Past(gen, Before(gen, c))
  {
    left := gen;
    while left != []
      invariant Past(left, Before(left, c)) == Past(gen, Before(gen, c))
      decreases |left|
    {
      var stop := left[0] == c;
      ghost var whole := left;
      left := left[1..];
      if stop {
        return;
      }
      assert whole[1 + Before(left, c)..] == left[Before(left, c)..];
    }
  }

  method TakeBefore(gen: Text, c: Octet) returns (taken: Text, left: Text)
    ensures taken == gen[..Before(gen, c)] && left == gen[Before(gen, c)..]
  {
    taken, left := [], gen;
    while left != [] && left[0] != c
      invariant taken + left == gen && |taken| + Before(left, c) == Before(gen, c)
      decreases |left|
    {
      Regroup(taken, [left[0]], left[1..]);
      assert [left[0]] + left[1..] == left;
      taken, left := taken + [left[0]], left[1..];
    }
    assert gen[..|taken|] == taken && gen[|taken|..] == left;
  }

  method ReadValue(gen: Text, isName: bool, name: Text) returns (name': Text, left: Text)
    requires gen != []
    ensures ParameterValue(gen, isName, name) == AfterSemicolon(left, name') && |left| <= |gen|
  {
    if gen[0] == '"' {
      var value, q := TakeBefore(gen[1..], '"');
      if q == [] {
        return name, [];
      }
      assert gen[Before(gen[1..], '"') + 2..] == q[1..] && gen[1..|value| + 1] == value;
      name' := name;
      if isName {
        if '%' in value {
          name' := DecodePercent(false, value);
        } else {
          name' := value;
        }
      }
      left := DropPast(q[1..], ';');
    } else {
      var value, q := TakeSpan(gen, EndsToken);
      name' := if value != [] && isName then value else name;
      left := DropPast(q, ';');
    }
  }

  method ReadParameter(gen: Text, name: Text) returns (name': Text, left: Text)
    ensures AfterSemicolon(gen, name) == AfterSemicolon(left, name')
    ensures |left| < |gen| || left == []
  {
    NothingLeft(name);
    var p := DropBlanks(gen);
    if p == [] {
      return name, [];
    }
    var isName, q := TryMatchToken(p, NAME);
    assert isName ==> AfterSemicolon(gen, name) == ParameterValue(q, true, name);
    if !isName {
      assert AfterSemicolon(gen, name) == InOtherKey(q, name);
      var _, r := TakeSpan(q, EndsName);
      if r == [] {
        return name, [];
      }
      q := r[1..];
      if r[0] == ';' {
        return name, q;
      }
    }
    assert AfterSemicolon(gen, name) == ParameterValue(q, isName, name);
    if q == [] {
      return name, [];
    }
    name', left := ReadValue(q, isName, name);
  }

  /** One unfolded header. */
  method ReadHeader(h: Text, before: Text) returns (name: Text)
    ensures name == NameAfter(h, before)
  {
    name := before;
    var matched, gen := TryMatchToken(h, DISPOSITION);
    if !matched {
      return;
    }
    gen := DropBlanks(gen);
    if |gen| <= 1 {
      assert Past(gen, 0) == [];
      NothingLeft(before);
      return;
    }
    gen := DropPast(gen[1..], ';');
    while gen != []
      invariant AfterSemicolon(gen, name) == NameAfter(h, before)
      decreases |gen|
    {
      name, gen := ReadParameter(gen, name);
    }
  }

  /** MimeContentDisposition::for_stream: reads all headers of a part. */
  method ForStream(input: NgxChainInputStream) returns (name: Option<Text>)
    requires input.ByteWise()
    modifies input
    ensures input.ByteWise() && input.rest == Disposition(old(input.rest), []).1
    ensures name == var n := Disposition(old(input.rest), []).0; if n == [] then None else Some(n)
  {
    var cd: Text := [];
    while !input.Eof()
      invariant input.ByteWise() && Disposition(input.rest, cd) == Disposition(old(input.rest), [])
      decreases |input.rest|
    {
      var h := UnfoldNextHeader(input);
      if h == [] {
        return if cd == [] then None else Some(cd);
      }
      cd := ReadHeader(h, cd);
    }
    name := if cd == [] then None else Some(cd);
  }
}
