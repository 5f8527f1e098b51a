/** Reading a multipart body line by line and recognising its boundary lines. */
module MultipartLines {
  import opened Octets
  import opened ChainStream

  datatype LineType = Boundary | BoundaryEnd | Other | EndOfFile

  /** What a boundary line starts with. */
  function Opening(b: Text): Text { "--" + b }

  /** The kind of the first line. Input that stops inside what may be a boundary counts as its end. */
  function KindOf(b: Text, s: Text): LineType {
    if s == [] then EndOfFile
    else if Opening(b) <= FirstLine(s) then
      if "--" <= FirstLine(s)[|Opening(b)|..] then BoundaryEnd else Boundary
    else if FirstLine(s) <= Opening(b) then BoundaryEnd
    else Other
  }

  lemma LineGoesOn(w: Text, r: Text)
    requires '\n' !in w
    ensures FirstLine(w + r) == w + FirstLine(r) && AfterLine(w + r) == AfterLine(r)
  {
    var m := Before(r, '\n');
    var n := |w| + m;
    assert (w + r)[..n] == w + r[..m];
    BeforeIs(w + r, '\n', n);
    assert m < |r| ==> (w + r)[..n + 1] == w + r[..m + 1];
    assert (w + r)[|FirstLine(w + r)|..] == r[|FirstLine(r)|..];
  }

  lemma LineStops(w: Text, r: Text)
    requires w != [] && w[|w| - 1] == '\n' && '\n' !in w[..|w| - 1]
    ensures FirstLine(w + r) == w && AfterLine(w + r) == r
  {
    assert (w + r)[..|w| - 1] == w[..|w| - 1];
    BeforeIs(w + r, '\n', |w| - 1);
  }

  /** Reads to the end of the line. */
  method RestOfLine(input: NgxChainInputStream) returns (line: Text)
    requires input.ByteWise()
    modifies input
    ensures input.ByteWise() && line == FirstLine(old(input.rest)) && input.rest == AfterLine(old(input.rest))
  {
    line := [];
    while !input.Eof()
      invariant input.ByteWise() && AfterLine(input.rest) == AfterLine(old(input.rest))
      invariant line + FirstLine(input.rest) == FirstLine(old(input.rest))
      decreases |input.rest|
    {
      ghost var before := input.rest;
      LineHead(before);
      var c := input.Read();
      if c == '\n' {
        line := line + [c];
        return;
      }
      Regroup(line, [c], FirstLine(input.rest));
      line := line + [c];
    }
  }

  lemma LineHead(r: Text)
    requires r != []
    ensures r[0] == '\n' ==> FirstLine(r) == [r[0]] && AfterLine(r) == r[1..]
    ensures r[0] != '\n' ==> FirstLine(r) == [r[0]] + FirstLine(r[1..]) && AfterLine(r) == AfterLine(r[1..])
  {
    assert r == [r[0]] + r[1..];
    if r[0] == '\n' {
      LineStops([r[0]], r[1..]);
    } else {
      LineGoesOn([r[0]], r[1..]);
    }
  }

  /** The loop that compares what was read with the start of a boundary. */
  method Matches(b: Text, read: Text) returns (matched: bool)
    requires |read| < |Opening(b)|
    ensures matched == (read <= Opening(b))
  {
    matched := true;
    var i := 0;
    while matched && i < |read|
      invariant 0 <= i <= |read|
      invariant if matched then read[..i] == Opening(b)[..i] else i > 0 && read[i - 1] != Opening(b)[i - 1]
      decreases |read| - i
    {
      if i < 2 {
        matched := read[i] == '-';
      } else {
        matched := read[i] == b[i - 2];
      }
      i := i + 1;
    }
  }

  /** Consumes one line; `line` is what the caller may append when the line is no boundary. */
  method ConsumeLine(b: Text, input: NgxChainInputStream) returns (kind: LineType, line: Text)
    requires input.ByteWise() && '\n' !in b
    modifies input
    ensures input.ByteWise() && kind == KindOf(b, old(input.rest)) && input.rest == AfterLine(old(input.rest))
    ensures kind == Other ==> line == FirstLine(old(input.rest))
  {
    var buf := input.ReadUntil(|b| + 2, '\n');
    ghost var rest := input.rest;
    if buf == [] {
      assert old(input.rest) == rest == [];
      return EndOfFile, [];
    }
    if buf[|buf| - 1] == '\n' {
      LineStops(buf, rest);
      ShortLine(b, buf, rest);
      return Other, buf;
    }
    assert buf == buf[..|buf| - 1] + [buf[|buf| - 1]];
    if input.Eof() && |buf| < |b| + 2 {
      var matched := Matches(b, buf);
      if matched {
        PartialBoundary(b, buf);
        assert buf + [] == buf;
        return BoundaryEnd, [];
      }
    }
    if |buf| == |b| + 2 && buf[..2] == "--" && buf[2..] == b {
      assert buf == Opening(b);
      FullBoundary(b, rest);
      kind := AfterOpening(input);
      line := [];
    } else {
      NoBoundary(b, buf, rest);
      line := RestOfLine(input);
      kind, line := Other, buf + line;
    }
  }

  lemma PartialBoundary(b: Text, w: Text)
    requires '\n' !in b && w != [] && w <= Opening(b) && |w| < |Opening(b)|
    ensures KindOf(b, w) == BoundaryEnd && AfterLine(w) == []
  {
    assert forall i :: 0 <= i < |w| ==> w[i] == Opening(b)[i] != '\n';
    LineGoesOn(w, []);
    assert w + [] == w;
  }

  lemma FullBoundary(b: Text, r: Text)
    requires '\n' !in b
    ensures KindOf(b, Opening(b) + r) == if "--" <= FirstLine(r) then BoundaryEnd else Boundary
    ensures AfterLine(Opening(b) + r) == AfterLine(r)
  {
    LineGoesOn(Opening(b), r);
    assert FirstLine(Opening(b) + r)[|Opening(b)|..] == FirstLine(r);
  }

  /** A line feed within the length of a boundary rules the boundary out. */
  lemma ShortLine(b: Text, w: Text, r: Text)
    requires '\n' !in b && w != [] && w[|w| - 1] == '\n' && |w| <= |b| + 2 && FirstLine(w + r) == w
    ensures KindOf(b, w + r) == Other
  {
    var n := |w| - 1;
    assert Opening(b)[n] != '\n';
  }

  lemma NoBoundary(b: Text, w: Text, r: Text)
    requires '\n' !in b && w != [] && '\n' !in w
    requires |w| == |b| + 2 || (|w| < |b| + 2 && r == [])
    requires w != Opening(b) && (|w| < |b| + 2 ==> !(w <= Opening(b)))
    ensures KindOf(b, w + r) == Other && FirstLine(w + r) == w + FirstLine(r) && AfterLine(w + r) == AfterLine(r)
  {
    LineGoesOn(w, r);
    assert (w + FirstLine(r))[..|w|] == w;
  }

  /** After the boundary itself: two dashes end the body; the rest of the line does not matter. */
  method AfterOpening(input: NgxChainInputStream) returns (kind: LineType)
    requires input.ByteWise()
    modifies input
    ensures input.ByteWise() && input.rest == AfterLine(old(input.rest))
    ensures kind == if "--" <= FirstLine(old(input.rest)) then BoundaryEnd else Boundary
  {
    ghost var s := input.rest;
    var c: Octet := 0 as char;
    var ended := false;
    if !input.Eof() {
      c := input.Read();
      if c == '-' && !input.Eof() {
        c := input.Read();
        ended := c == '-';
        assert s == ['-', c] + input.rest;
        if c == '\n' {
          LineStops(['-', c], input.rest);
        } else {
          LineGoesOn(['-', c], input.rest);
        }
      } else {
        assert s == [c] + input.rest;
        if c == '\n' {
          LineStops([c], input.rest);
        } else {
          LineGoesOn([c], input.rest);
        }
      }
    }
    if c != '\n' {
      var _ := RestOfLine(input);
    }
    kind := if ended then BoundaryEnd else Boundary;
  }
}
