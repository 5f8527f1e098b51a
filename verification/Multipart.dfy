/** Parsing a multipart/form-data body into the contents of each name. */
module Multipart {
  import opened Basics
  import opened Octets
  import opened ChainStream
  import opened Fields
  import opened MultipartLines
  import opened PartHeaders

  // ------------------------------------------------------------------ what is parsed

  function WithoutFinalCrlf(content: Text): (r: Text)
    ensures r <= content
  {
    if content == [] || content[|content| - 1] != '\n' then content
    else if |content| >= 2 && content[|content| - 2] == '\r' then content[..|content| - 2]
    else content[..|content| - 1]
  }

  /** The line end before a boundary belongs to it; at the end of the input part of one may be missing. */
  function Finished(kind: LineType, content: Text): (r: Text)
    ensures r <= content
  {
    var c := WithoutFinalCrlf(content);
    if kind == EndOfFile && c != [] && c[|c| - 1] == '\r' then c[..|c| - 1] else c
  }

  /** The lines before the next boundary, what ended them, and what follows the boundary line. */
  function Content(b: Text, s: Text): (r: (LineType, Text, Text))
    ensures r.0 != Other && |r.2| <= |s| && (r.0 != EndOfFile ==> |r.2| < |s|)
    decreases |s|
  {
    if KindOf(b, s) != Other then (KindOf(b, s), [], AfterLine(s))
    else
      var (kind, content, rest) := Content(b, AfterLine(s));
      (kind, FirstLine(s) + content, rest)
  }

  /** The named parts, from right after a boundary line. */
  function Parts(b: Text, s: Text): seq<Part>
    decreases |s|
  {
    var (name, body) := Disposition(s, []);
    var (kind, content, rest) := Content(b, body);
    (if name == [] then [] else [Part(name, Finished(kind, content))])
    + (if kind == Boundary && rest != [] then Parts(b, rest) else [])
  }

  /** What follows the first boundary line, if the body goes on after it. */
  function AfterPreamble(b: Text, s: Text): Option<Text>
    decreases |s|
  {
    if s == [] || KindOf(b, s) == BoundaryEnd then None
    else if KindOf(b, s) == Boundary then if AfterLine(s) == [] then None else Some(AfterLine(s))
    else AfterPreamble(b, AfterLine(s))
  }

  function AllParts(b: Text, s: Text): seq<Part> {
    match AfterPreamble(b, s)
    case None => []
    case Some(rest) => Parts(b, rest)
  }

  /** Each name with its contents; a body without named parts is a failure. */
  ghost predicate IsResult(parts: seq<Part>, r: Option<map<Text, Field>>) {
    if parts == [] then r == None else r.Some? && Grouped(r.value, parts)
  }

  // ---------------------------------------------------------------------- the parser

  method ReadContent(b: Text, input: NgxChainInputStream) returns (kind: LineType, content: Text)
    requires input.ByteWise() && '\n' !in b
    modifies input
    ensures input.ByteWise()
    ensures kind == Content(b, old(input.rest)).0 && input.rest == Content(b, old(input.rest)).2
    ensures content == Finished(kind, Content(b, old(input.rest)).1)
  {
    content := [];
    while true
      invariant input.ByteWise() && Content(b, input.rest).0 == Content(b, old(input.rest)).0
      invariant Content(b, input.rest).2 == Content(b, old(input.rest)).2
      invariant content + Content(b, input.rest).1 == Content(b, old(input.rest)).1
      decreases |input.rest|
    {
      var line;
      ghost var before := input.rest;
      kind, line := ConsumeLine(b, input);
      if kind != Other {
        break;
      }
      Regroup(content, line, Content(b, input.rest).1);
      content := content + line;
    }
    assert content + [] == content;
    content := RemoveFinalCrlf(content);
    if kind == EndOfFile && content != [] && content[|content| - 1] == '\r' {
      content := content[..|content| - 1];
    }
  }

  method RemoveFinalCrlf(content: Text) returns (r: Text)
    ensures r == WithoutFinalCrlf(content)
  {
    r := content;
    if |r| >= 1 && r[|r| - 1] == '\n' {
      r := r[..|r| - 1];
      if |r| >= 1 && r[|r| - 1] == '\r' {
        r := r[..|r| - 1];
      }
    }
  }

  /** Discards everything up to the first boundary line. */
  method SkipPreamble(b: Text, input: NgxChainInputStream) returns (ok: bool)
    requires input.ByteWise() && '\n' !in b
    modifies input
    ensures input.ByteWise() && ok == AfterPreamble(b, old(input.rest)).Some?
    ensures ok ==> AfterPreamble(b, old(input.rest)) == Some(input.rest)
  {
    while !input.Eof()
      invariant input.ByteWise() && AfterPreamble(b, input.rest) == AfterPreamble(b, old(input.rest))
      decreases |input.rest|
    {
      var kind, _ := ConsumeLine(b, input);
      if kind == Boundary {
        return !input.Eof();
      } else if kind == BoundaryEnd {
        return false;
      }
    }
    ok := false;
  }

  method ParseMultipart(b: Text, links: seq<Text>) returns (r: Option<map<Text, Field>>)
    requires Readable(links) && '\n' !in b
    ensures IsResult(AllParts(b, Joined(links)), r)
  {
    var input := new NgxChainInputStream(links);
    var ok := SkipPreamble(b, input);
    if !ok {
      return None;
    }
    ghost var all := Parts(b, input.rest);
    ghost var left := all;
    var data: Groups := map[];
    var more := true;
    while more
      invariant input.ByteWise() && fresh(input) && left == if more then Parts(b, input.rest) else []
      invariant Absorbed(data, left) == Absorbed(map[], all)
      decreases more, |input.rest|
    {
      var part;
      part, more := ReadPart(b, input);
      left := if more then Parts(b, input.rest) else [];
      if part.Some? {
        data := AddTo(data, part.value, left);
      } else {
        assert [] + left == left;
      }
    }
    AbsorbedIsGrouped(data, all);
    r := if data == map[] then None else Some(map name | name in data :: AsField(data[name]));
  }

  method AddTo(data: Groups, part: Part, ghost left: seq<Part>) returns (data': Groups)
    ensures Absorbed(data', left) == Absorbed(data, [part] + left)
  {
    assert ([part] + left)[1..] == left;
    var values := if part.name in data then data[part.name] else [];
    data' := data[part.name := values + [part.content]];
  }

  /** From right after a boundary line to the next. */
  method ReadPart(b: Text, input: NgxChainInputStream) returns (part: Option<Part>, more: bool)
    requires input.ByteWise() && '\n' !in b
    modifies input
    ensures input.ByteWise() && |input.rest| <= |old(input.rest)| && (more ==> |input.rest| < |old(input.rest)|)
    ensures Parts(b, old(input.rest))
         == (if part.None? then [] else [part.value]) + (if more then Parts(b, input.rest) else [])
  {
    var cd := ForStream(input);
    var kind, content := ReadContent(b, input);
    part := if cd.None? then None else Some(Part(cd.value, content));
    more := kind == Boundary && !input.Eof();
  }
}
