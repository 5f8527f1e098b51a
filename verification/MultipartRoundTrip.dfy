/** Bodies written by a well-behaved client are read back exactly, and a body cut anywhere gives the
    parts before the cut plus at most a shortened one. */
module MultipartRoundTrip {
  import opened Basics
  import opened Octets
  import opened Fields
  import opened MultipartLines
  import opened PartHeaders
  import opened PartHeaderText
  import opened Multipart

  /** A part as a client sends it: its headers with their line end, whether its name is a token, and its content. */
  datatype Sending = Sending(eol: Text, headers: seq<HeaderText>, token: bool, content: Text)

  function HeadersOf(s: Sending): Text { HeadersText(s.eol, s.headers) }

  function NameIn(s: Sending): Text { NameOf(s.headers) }

  /** What the parts are: those without a name do not count. */
  function PartsOf(sent: seq<Sending>): seq<Part> {
    if sent == [] then [] else OwnPart(sent[0]) + PartsOf(sent[1..])
  }

  function OwnPart(s: Sending): seq<Part> {
    if NameIn(s) == [] then [] else [Part(NameIn(s), s.content)]
  }

  /** What is around the parts: the rest of each boundary line, which may be anything but two dashes, and what
      follows the last boundary. */
  datatype Frame = Frame(pad: Text, epilogue: Text)

  predicate IsFrame(fr: Frame) {
    && fr.pad != [] && fr.pad[|fr.pad| - 1] == '\n' && '\n' !in fr.pad[..|fr.pad| - 1]
    && !("--" <= fr.pad)
  }

  /** The body from its first boundary on. */
  function Rendered(fr: Frame, b: Text, sent: seq<Sending>): Text {
    Opening(b) + AfterOpeningOf(fr, b, sent)
  }

  /** What follows a boundary when these parts are still to come. */
  function AfterOpeningOf(fr: Frame, b: Text, sent: seq<Sending>): Text
    decreases |sent|, 2
  {
    if sent == [] then "--" + fr.epilogue else fr.pad + Block(fr, b, sent)
  }

  function Block(fr: Frame, b: Text, sent: seq<Sending>): Text
    requires sent != []
    decreases |sent|, 1
  {
    HeadersOf(sent[0]) + Ending(fr, b, sent)
  }

  /** A part's content and everything after it. */
  function Ending(fr: Frame, b: Text, sent: seq<Sending>): Text
    requires sent != []
    decreases |sent|, 0
  {
    sent[0].content + (sent[0].eol + (Opening(b) + AfterOpeningOf(fr, b, sent[1..])))
  }

  /** No line starts with the boundary. */
  predicate Unbounded(b: Text, s: Text) {
    forall i :: 0 <= i <= |s| && (i == 0 || s[i - 1] == '\n') ==> !(Opening(b) <= s[i..])
  }

  predicate Sendable(b: Text, sent: seq<Sending>) {
    OneLine(b) && forall i :: 0 <= i < |sent| ==> IsSending(b, sent[i])
  }

  predicate IsSending(b: Text, s: Sending) {
    IsEol(s.eol) && AreHeaders(s.headers) && Unbounded(b, s.content) && EndsApart(s.eol, s.content)
  }

  /** No part has more than one name, so that no other can be taken for it when the rest is missing. */
  predicate OneNameEach(sent: seq<Sending>) {
    forall i :: 0 <= i < |sent| ==> OneName(AllParams(sent[i].headers), sent[i].token)
  }

  /** A bare line feed is told from the content it follows. */
  predicate EndsApart(eol: Text, c: Text) {
    eol == "\n" && c != [] ==> c[|c| - 1] != '\r'
  }

  /** Lines before the first boundary. */
  predicate IsPreamble(b: Text, pre: Text) {
    pre == [] || (pre[|pre| - 1] == '\n' && Unbounded(b, pre[..|pre| - 1]))
  }

  // ---------------------------------------------------------------------- the content

  lemma FirstLineOf(c: Text, x: Text)
    requires '\n' in c
    ensures FirstLine(c + x) == FirstLine(c) && AfterLine(c + x) == AfterLine(c) + x
    ensures FirstLine(c) != [] && FirstLine(c)[|FirstLine(c)| - 1] == '\n'
  {
    var n := Before(c, '\n');
    assert n < |c| by {
      assert c[..|c|] == c;
    }
    assert (c + x)[..n] == c[..n];
    BeforeIs(c + x, '\n', n);
    assert (c + x)[n + 1..] == c[n + 1..] + x;
  }

  lemma OnlyLine(c: Text)
    requires '\n' !in c
    ensures FirstLine(c) == c && AfterLine(c) == []
  {
    LineGoesOn(c, []);
    assert c + [] == c;
  }

  lemma UnboundedTail(b: Text, s: Text)
    requires Unbounded(b, s) && '\n' in s
    ensures Unbounded(b, AfterLine(s))
  {
    FirstLineOf(s, []);
    var n := |FirstLine(s)|;
    assert s[n - 1] == FirstLine(s)[n - 1] == '\n';
    forall i | 0 <= i <= |AfterLine(s)| && (i == 0 || AfterLine(s)[i - 1] == '\n')
      ensures !(Opening(b) <= AfterLine(s)[i..])
    {
      assert AfterLine(s)[i..] == s[n + i..];
      assert i > 0 ==> s[n + i - 1] == AfterLine(s)[i - 1];
    }
  }

  lemma PrefixOfPrefix(a: Text, m: Text, s: Text)
    requires a <= m <= s
    ensures a <= s
  {
  }

  lemma UnboundedLine(b: Text, s: Text)
    requires Unbounded(b, s)
    ensures !(Opening(b) <= s) && !(Opening(b) <= FirstLine(s))
  {
    assert s[0..] == s;
    if Opening(b) <= FirstLine(s) {
      PrefixOfPrefix(Opening(b), FirstLine(s), s);
    }
  }

  /** A text that ends in a line feed is no part of a boundary. */
  lemma WholeLineIsLonger(b: Text, l: Text)
    requires OneLine(b) && l != [] && l[|l| - 1] == '\n'
    ensures !(l <= Opening(b))
  {
    assert forall i :: 0 <= i < |Opening(b)| ==> Opening(b)[i] != '\n';
  }

  /** Adding a line end to text does not make it a boundary. */
  lemma BoundaryHasNoEol(b: Text, c: Text, x: Text)
    requires OneLine(b) && x != [] && (x[0] == '\r' || x[0] == '\n') && Opening(b) <= c + x
    ensures Opening(b) <= c
  {
    assert forall i :: 0 <= i < |Opening(b)| ==> Opening(b)[i] != '\r' && Opening(b)[i] != '\n';
    assert (c + x)[|c|] == x[0];
    assert Opening(b) == (c + x)[..|Opening(b)|] == c[..|Opening(b)|];
  }

  /** Content without boundary lines, then a line end, then something that is no ordinary line. */
  lemma {:induction false} ContentWhole(b: Text, eol: Text, c: Text, x: Text)
    requires OneLine(b) && IsEol(eol) && Unbounded(b, c) && KindOf(b, x) != Other
    ensures Content(b, c + (eol + x)) == (KindOf(b, x), c + eol, AfterLine(x))
    decreases |c|
  {
    UnboundedLine(b, c);
    if '\n' in c {
      UnboundedTail(b, c);
      ContentWhole(b, eol, AfterLine(c), x);
      FirstContentLine(b, c, eol + x);
      Regroup(FirstLine(c), AfterLine(c), eol);
    } else {
      LastContentLine(b, eol, c, x);
    }
  }

  lemma FirstContentLine(b: Text, c: Text, y: Text)
    requires OneLine(b) && !(Opening(b) <= FirstLine(c)) && '\n' in c
    ensures Content(b, c + y)
         == var rest := Content(b, AfterLine(c) + y); (rest.0, FirstLine(c) + rest.1, rest.2)
  {
    FirstLineOf(c, y);
    WholeLineIsLonger(b, FirstLine(c));
    assert KindOf(b, c + y) == Other;
  }

  lemma LastContentLine(b: Text, eol: Text, c: Text, x: Text)
    requires OneLine(b) && IsEol(eol) && !(Opening(b) <= c) && '\n' !in c && KindOf(b, x) != Other
    ensures Content(b, c + (eol + x)) == (KindOf(b, x), c + eol, AfterLine(x))
  {
    var l := c + eol;
    LineOfContent(eol, c, x);
    WholeLineIsLonger(b, l);
    if Opening(b) <= l {
      BoundaryHasNoEol(b, c, eol);
    }
    assert KindOf(b, c + (eol + x)) == Other;
    assert Content(b, x) == (KindOf(b, x), [], AfterLine(x));
    assert l + [] == l;
  }

  lemma LineOfContent(eol: Text, c: Text, x: Text)
    requires IsEol(eol) && '\n' !in c
    ensures FirstLine(c + (eol + x)) == c + eol && AfterLine(c + (eol + x)) == x
  {
    var l := c + eol;
    Regroup(c, eol, x);
    assert l[..|l| - 1] == if eol == "\n" then c else c + ['\r'];
    LineStops(l, x);
  }

  /** How content is read when the input stops before the boundary. */
  ghost predicate CutContent(b: Text, s: Text, kind: LineType, raw: Text) {
    || (kind == EndOfFile && raw == s)
    || (kind == BoundaryEnd && raw <= s && |raw| < |s| && (raw == [] || raw[|raw| - 1] == '\n')
        && s[|raw|..] <= Opening(b))
  }

  lemma {:induction false} ContentCut(b: Text, s: Text)
    requires OneLine(b) && Unbounded(b, s)
    ensures CutContent(b, s, Content(b, s).0, Content(b, s).1)
    decreases |s|
  {
    UnboundedLine(b, s);
    if KindOf(b, s) == Other {
      var l, rest := FirstLine(s), AfterLine(s);
      var inner := Content(b, rest);
      if '\n' in s {
        FirstLineOf(s, []);
        UnboundedTail(b, s);
        ContentCut(b, rest);
      } else {
        OnlyLine(s);
        assert inner == (EndOfFile, [], []);
      }
      CutContentMore(b, s, l, rest, inner.0, inner.1);
      assert Content(b, s) == (inner.0, l + inner.1, inner.2);
    } else {
      NoLineRead(b, s);
    }
  }

  lemma NoLineRead(b: Text, s: Text)
    requires OneLine(b) && KindOf(b, s) != Other && !(Opening(b) <= FirstLine(s))
    ensures CutContent(b, s, Content(b, s).0, Content(b, s).1)
  {
    assert Content(b, s) == (KindOf(b, s), [], AfterLine(s));
    if s != [] {
      assert forall i :: 0 <= i < |FirstLine(s)| ==> FirstLine(s)[i] == Opening(b)[i] != '\n';
      if '\n' in s {
        FirstLineOf(s, []);
      }
      OnlyLine(s);
    }
  }

  lemma CutContentMore(b: Text, s: Text, l: Text, rest: Text, kind: LineType, raw: Text)
    requires s == l + rest && CutContent(b, rest, kind, raw) && l != []
    requires l[|l| - 1] == '\n' || kind == EndOfFile
    ensures CutContent(b, s, kind, l + raw)
  {
    if raw != [] {
      assert (l + raw)[|l + raw| - 1] == raw[|raw| - 1];
    }
    assert l + raw <= l + rest && s[|l + raw|..] == rest[|raw|..];
  }

  lemma UnboundedCut(b: Text, eol: Text, c: Text, s: Text)
    requires OneLine(b) && IsEol(eol) && Unbounded(b, c) && s <= c + eol
    ensures Unbounded(b, s)
  {
    forall i | 0 <= i <= |s| && (i == 0 || s[i - 1] == '\n') ensures !(Opening(b) <= s[i..]) {
      if i <= |c| {
        assert i > 0 ==> c[i - 1] == s[i - 1];
        assert s[i..] <= c[i..] + eol;
        if Opening(b) <= s[i..] {
          PrefixOfPrefix(Opening(b), s[i..], c[i..] + eol);
          BoundaryHasNoEol(b, c[i..], eol);
        }
      }
    }
  }

  /** Whatever was cut, what is kept is a prefix of the content. */
  lemma CutIsPrefix(b: Text, eol: Text, c: Text, s: Text, kind: LineType, raw: Text)
    requires IsEol(eol) && s <= c + eol && CutContent(b, s, kind, raw)
    ensures Finished(kind, raw) <= c
  {
    PrefixOfPrefix(raw, s, c + eol);
    if |raw| <= |c| {
      assert raw <= c;
      PrefixOfPrefix(Finished(kind, raw), raw, c);
    } else {
      var e := eol[..|raw| - |c|];
      assert raw == c + e;
      assert e == [eol[0]] || e == eol;
      assert raw[|raw| - 1] == e[|e| - 1];
      StrippedIsPrefix(kind, c, e);
    }
  }

  lemma StrippedIsPrefix(kind: LineType, c: Text, e: Text)
    requires e == "\r" || e == "\r\n" || e == "\n"
    requires e == "\r" ==> kind == EndOfFile
    ensures Finished(kind, c + e) <= c
  {
    assert (c + e)[..|c|] == c;
  }

  // -------------------------------------------------------------------- the round trip

  lemma BoundaryThenLine(fr: Frame, b: Text, y: Text)
    requires OneLine(b) && IsFrame(fr)
    ensures KindOf(b, Opening(b) + (fr.pad + y)) == Boundary && AfterLine(Opening(b) + (fr.pad + y)) == y
  {
    LineStops(fr.pad, y);
    assert FirstLine(fr.pad + y) == fr.pad;
    FullBoundary(b, fr.pad + y);
  }

  lemma BoundaryThenDashes(b: Text, y: Text)
    requires OneLine(b) && "--" <= y
    ensures KindOf(b, Opening(b) + y) == BoundaryEnd
  {
    FullBoundary(b, y);
    assert y == "--" + y[2..];
    LineGoesOn("--", y[2..]);
  }

  lemma BoundaryAlone(b: Text, y: Text)
    requires OneLine(b) && '\n' !in y
    ensures KindOf(b, Opening(b) + y) in {Boundary, BoundaryEnd} && AfterLine(Opening(b) + y) == []
  {
    FullBoundary(b, y);
    OnlyLine(y);
  }

  /** A boundary with parts still to come is followed by them; one without ends the body. */
  lemma AfterBoundary(fr: Frame, b: Text, sent: seq<Sending>)
    requires OneLine(b) && IsFrame(fr)
    ensures KindOf(b, Rendered(fr, b, sent)) == if sent == [] then BoundaryEnd else Boundary
    ensures sent != [] ==> AfterLine(Rendered(fr, b, sent)) == Block(fr, b, sent)
  {
    if sent == [] {
      BoundaryThenDashes(b, "--" + fr.epilogue);
    } else {
      BoundaryThenLine(fr, b, Block(fr, b, sent));
    }
  }

  lemma FinishedWhole(kind: LineType, eol: Text, c: Text)
    requires kind != EndOfFile && IsEol(eol) && EndsApart(eol, c)
    ensures Finished(kind, c + eol) == c
  {
    assert (c + eol)[..|c|] == c;
  }

  /** The parts found from a part's content on. */
  function FromContent(b: Text, name: Text, x: Text): seq<Part> {
    var (kind, content, rest) := Content(b, x);
    (if name == [] then [] else [Part(name, Finished(kind, content))])
    + (if kind == Boundary && rest != [] then Parts(b, rest) else [])
  }

  lemma AfterHeaders(b: Text, s: Sending, x: Text)
    requires IsSending(b, s)
    ensures Parts(b, HeadersOf(s) + x) == FromContent(b, NameIn(s), x)
  {
    HeadersRead(s.eol, s.headers, x, []);
  }

  /** The parts after a boundary line. */
  function FollowingParts(b: Text, x: Text): seq<Part> {
    if KindOf(b, x) == Boundary && AfterLine(x) != [] then Parts(b, AfterLine(x)) else []
  }

  lemma WholeContent(b: Text, s: Sending, x: Text)
    requires OneLine(b) && IsSending(b, s) && KindOf(b, x) in {Boundary, BoundaryEnd}
    ensures FromContent(b, NameIn(s), s.content + (s.eol + x)) == OwnPart(s) + FollowingParts(b, x)
  {
    ContentWhole(b, s.eol, s.content, x);
    FinishedWhole(KindOf(b, x), s.eol, s.content);
  }

  lemma BlockIsSomething(fr: Frame, b: Text, sent: seq<Sending>)
    requires IsFrame(fr) && Sendable(b, sent) && sent != []
    ensures Block(fr, b, sent) != []
  {
    HeadersStart(sent[0].eol, sent[0].headers, []);
  }

  lemma SendableTail(b: Text, sent: seq<Sending>)
    requires Sendable(b, sent) && sent != []
    ensures Sendable(b, sent[1..]) && IsSending(b, sent[0])
  {
  }

  /** Parsing what was rendered gives the parts back. */
  lemma {:induction false} PartsWhole(fr: Frame, b: Text, sent: seq<Sending>)
    requires IsFrame(fr) && Sendable(b, sent) && sent != []
    ensures Parts(b, Block(fr, b, sent)) == PartsOf(sent)
    decreases |sent|
  {
    var s, rest := sent[0], sent[1..];
    SendableTail(b, sent);
    AfterHeaders(b, s, Ending(fr, b, sent));
    AfterBoundary(fr, b, rest);
    WholeContent(b, s, Rendered(fr, b, rest));
    if rest != [] {
      BlockIsSomething(fr, b, rest);
      PartsWhole(fr, b, rest);
    }
  }

  /** Everything before the first boundary line is skipped. */
  lemma {:induction false} PreambleSkipped(b: Text, pre: Text, x: Text)
    requires OneLine(b) && IsPreamble(b, pre)
    ensures AfterPreamble(b, pre + x) == AfterPreamble(b, x)
    decreases |pre|
  {
    if pre == [] {
      assert pre + x == x;
    } else {
      FirstPreambleLine(b, pre, x);
      PreambleSkipped(b, AfterLine(pre), x);
    }
  }

  lemma FirstPreambleLine(b: Text, pre: Text, x: Text)
    requires OneLine(b) && IsPreamble(b, pre) && pre != []
    ensures IsPreamble(b, AfterLine(pre)) && KindOf(b, pre + x) == Other && AfterLine(pre + x) == AfterLine(pre) + x
  {
    var c := pre[..|pre| - 1];
    assert pre == c + ['\n'] && '\n' in pre;
    FirstLineOf(pre, x);
    WholeLineIsLonger(b, FirstLine(pre));
    UnboundedLine(b, c);
    if '\n' in c {
      FirstLineOf(c, ['\n']);
      UnboundedTail(b, c);
      assert AfterLine(pre)[..|AfterLine(pre)| - 1] == AfterLine(c);
    } else {
      LineStops(pre, []);
      assert pre + [] == pre;
      if Opening(b) <= pre {
        BoundaryHasNoEol(b, c, ['\n']);
      }
    }
  }

  /** Any parts, with any headers, preamble and epilogue, are parsed back; those without a name do not count. */
  lemma RoundTrip(pre: Text, fr: Frame, b: Text, sent: seq<Sending>)
    requires IsFrame(fr) && IsPreamble(b, pre) && Sendable(b, sent)
    ensures AllParts(b, pre + Rendered(fr, b, sent)) == PartsOf(sent)
  {
    PreambleSkipped(b, pre, Rendered(fr, b, sent));
    AfterBoundary(fr, b, sent);
    if sent != [] {
      BlockIsSomething(fr, b, sent);
      PartsWhole(fr, b, sent);
    }
  }

  // ---------------------------------------------------------------------- truncation

  /** The start of a part: its name with a start of its content, or the start of a name sent as a token. */
  predicate IsStart(s: Sending, p: Part) {
    || (p.name == NameIn(s) && p.content <= s.content)
    || (p.content == [] && s.token && p.name <= NameIn(s))
  }

  /** The first parts unchanged, the last of them perhaps only started. */
  predicate Shortened(sent: seq<Sending>, got: seq<Part>) {
    got == [] ||
    (sent != [] &&
     if NameIn(sent[0]) == [] then Shortened(sent[1..], got)
     else (|got| == 1 && IsStart(sent[0], got[0]))
          || (got[0] == Part(NameIn(sent[0]), sent[0].content) && Shortened(sent[1..], got[1..])))
  }

  lemma ShortenedMore(sent: seq<Sending>, got: seq<Part>)
    requires sent != [] && Shortened(sent[1..], got)
    ensures Shortened(sent, OwnPart(sent[0]) + got)
  {
    var all := OwnPart(sent[0]) + got;
    if NameIn(sent[0]) == [] {
      assert all == got;
    } else {
      assert all[1..] == got;
    }
  }

  /** Where a cut boundary line leads: nowhere, or into the parts after it. */
  lemma CutBoundary(fr: Frame, b: Text, sent: seq<Sending>, n: nat, s: Text)
    requires OneLine(b) && IsFrame(fr) && 0 < n <= |Rendered(fr, b, sent)| && s == Rendered(fr, b, sent)[..n]
    ensures KindOf(b, s) in {Boundary, BoundaryEnd}
    ensures KindOf(b, s) == Boundary && AfterLine(s) != [] ==>
              && sent != [] && |Opening(b)| + |fr.pad| <= n
              && AfterLine(s) == Block(fr, b, sent)[..n - |Opening(b)| - |fr.pad|]
  {
    var after := AfterOpeningOf(fr, b, sent);
    Cut(Opening(b), after, n);
    if n < |Opening(b)| {
      PartialBoundary(b, Opening(b)[..n]);
    } else {
      var i := n - |Opening(b)|;
      assert s == Opening(b) + after[..i];
      CutAfterOpening(fr, b, sent, i, after[..i]);
    }
  }

  lemma CutAfterOpening(fr: Frame, b: Text, sent: seq<Sending>, i: nat, y: Text)
    requires OneLine(b) && IsFrame(fr) && i <= |AfterOpeningOf(fr, b, sent)| && y == AfterOpeningOf(fr, b, sent)[..i]
    ensures KindOf(b, Opening(b) + y) in {Boundary, BoundaryEnd}
    ensures KindOf(b, Opening(b) + y) == BoundaryEnd
         || AfterLine(Opening(b) + y) == []
         || (sent != [] && i >= |fr.pad| && AfterLine(Opening(b) + y) == Block(fr, b, sent)[..i - |fr.pad|])
  {
    if sent == [] {
      DashesCut(fr, b, i, y);
    } else {
      var block := Block(fr, b, sent);
      Cut(fr.pad, block, i);
      if i < |fr.pad| {
        assert y == fr.pad[..|fr.pad| - 1][..i];
        BoundaryAlone(b, y);
      } else {
        assert y == fr.pad + block[..i - |fr.pad|];
        BoundaryThenLine(fr, b, block[..i - |fr.pad|]);
      }
    }
  }

  lemma DashesCut(fr: Frame, b: Text, i: nat, y: Text)
    requires OneLine(b) && i <= 2 + |fr.epilogue| && y == ("--" + fr.epilogue)[..i]
    ensures KindOf(b, Opening(b) + y) in {Boundary, BoundaryEnd}
    ensures KindOf(b, Opening(b) + y) == BoundaryEnd || AfterLine(Opening(b) + y) == []
  {
    if i < 2 {
      assert i == 1 ==> y == "-";
      BoundaryAlone(b, y);
    } else {
      BoundaryThenDashes(b, y);
    }
  }

  lemma NoContent(b: Text, s: Text, name: Text)
    requires Disposition(s, []) == (name, [])
    ensures Parts(b, s) == if name == [] then [] else [Part(name, [])]
  {
    assert Content(b, []) == (EndOfFile, [], []);
  }

  lemma CutInHeaders(b: Text, sent: seq<Sending>, k: nat)
    requires sent != [] && IsSending(b, sent[0]) && OneNameEach(sent) && k < |HeadersOf(sent[0])|
    ensures Shortened(sent, Parts(b, HeadersOf(sent[0])[..k]))
  {
    var s, t := sent[0], HeadersOf(sent[0])[..k];
    var name := Disposition(t, []).0;
    HeadersCut(s.eol, s.headers, k, []);
    OneNameStops(AllParams(s.headers), s.token, name);
    NoContent(b, t, name);
    StartOfName(sent, name);
  }

  lemma StartOfName(sent: seq<Sending>, name: Text)
    requires sent != [] && (name == [] || name == NameIn(sent[0]) || (sent[0].token && name <= NameIn(sent[0])))
    ensures Shortened(sent, if name == [] then [] else [Part(name, [])])
  {
    if name != [] {
      assert IsStart(sent[0], Part(name, []));
    }
  }

  /** The input stops inside a part's content. */
  lemma CutInContent(b: Text, sent: seq<Sending>, s: Text)
    requires sent != [] && OneLine(b) && IsSending(b, sent[0]) && s <= sent[0].content + sent[0].eol
    ensures Shortened(sent, FromContent(b, NameIn(sent[0]), s))
  {
    var (kind, raw, _) := Content(b, s);
    UnboundedCut(b, sent[0].eol, sent[0].content, s);
    ContentCut(b, s);
    CutIsPrefix(b, sent[0].eol, sent[0].content, s, kind, raw);
    OnlyPart(b, sent, s, kind, raw);
  }

  lemma OnlyPart(b: Text, sent: seq<Sending>, s: Text, kind: LineType, raw: Text)
    requires sent != [] && kind == Content(b, s).0 != Boundary && raw == Content(b, s).1
    requires Finished(kind, raw) <= sent[0].content
    ensures Shortened(sent, FromContent(b, NameIn(sent[0]), s))
  {
    var name := NameIn(sent[0]);
    assert FromContent(b, name, s) == if name == [] then [] else [Part(name, Finished(kind, raw))];
  }

  lemma {:induction false} PartsCut(fr: Frame, b: Text, sent: seq<Sending>, n: nat, s: Text)
    requires IsFrame(fr) && Sendable(b, sent) && OneNameEach(sent) && sent != []
    requires n <= |Block(fr, b, sent)| && s == Block(fr, b, sent)[..n]
    ensures Shortened(sent, Parts(b, s))
    decreases |sent|, 1
  {
    var h, ending := HeadersOf(sent[0]), Ending(fr, b, sent);
    SendableTail(b, sent);
    Cut(h, ending, n);
    if n < |h| {
      CutInHeaders(b, sent, n);
    } else {
      var m := n - |h|;
      assert s == h + ending[..m];
      AfterHeaders(b, sent[0], ending[..m]);
      EndingCut(fr, b, sent, Rendered(fr, b, sent[1..]), m, ending[..m]);
    }
  }

  lemma {:induction false} EndingCut(fr: Frame, b: Text, sent: seq<Sending>, x: Text, m: nat, s: Text)
    requires IsFrame(fr) && Sendable(b, sent) && OneNameEach(sent) && sent != [] && x == Rendered(fr, b, sent[1..])
    requires m <= |sent[0].content| + |sent[0].eol| + |x| && s == (sent[0].content + (sent[0].eol + x))[..m]
    ensures Shortened(sent, FromContent(b, NameIn(sent[0]), s))
    decreases |sent|, 0
  {
    var c, eol := sent[0].content, sent[0].eol;
    SendableTail(b, sent);
    ContentThenCut(eol, c, x, m, s);
    if m <= |c| + |eol| {
      CutInContent(b, sent, s);
    } else {
      var y := x[..m - |c| - |eol|];
      FollowingCut(fr, b, sent[1..], |y|, y);
      CutAfterContent(b, sent, y, s);
    }
  }

  /** The whole content is there, and the input stops in or after the next boundary. */
  lemma CutAfterContent(b: Text, sent: seq<Sending>, x: Text, s: Text)
    requires OneLine(b) && sent != [] && IsSending(b, sent[0]) && KindOf(b, x) in {Boundary, BoundaryEnd}
    requires Shortened(sent[1..], FollowingParts(b, x)) && s == sent[0].content + (sent[0].eol + x)
    ensures Shortened(sent, FromContent(b, NameIn(sent[0]), s))
  {
    WholeContent(b, sent[0], x);
    ShortenedMore(sent, FollowingParts(b, x));
  }

  lemma ContentThenCut(eol: Text, c: Text, x: Text, m: nat, s: Text)
    requires m <= |c| + |eol| + |x| && s == (c + (eol + x))[..m]
    ensures m <= |c| + |eol| ==> s <= c + eol
    ensures m > |c| + |eol| ==> s == c + (eol + x[..m - |c| - |eol|])
  {
    Regroup(c, eol, x);
    Cut(c + eol, x, m);
    if m > |c| + |eol| {
      Regroup(c, eol, x[..m - |c| - |eol|]);
    }
  }

  /** The input stops in or after the boundary that these parts follow. */
  lemma {:induction false} FollowingCut(fr: Frame, b: Text, rest: seq<Sending>, j: nat, x: Text)
    requires IsFrame(fr) && Sendable(b, rest) && OneNameEach(rest)
    requires 0 < j <= |Rendered(fr, b, rest)| && x == Rendered(fr, b, rest)[..j]
    ensures KindOf(b, x) in {Boundary, BoundaryEnd} && Shortened(rest, FollowingParts(b, x))
    decreases |rest|, 2
  {
    CutBoundary(fr, b, rest, j, x);
    if KindOf(b, x) == Boundary && AfterLine(x) != [] {
      PartsCut(fr, b, rest, j - |Opening(b)| - |fr.pad|, AfterLine(x));
    }
  }

  /** Nothing is found in a preamble that is cut. */
  lemma {:induction false} PreambleCut(b: Text, pre: Text, n: nat)
    requires OneLine(b) && IsPreamble(b, pre) && n <= |pre|
    ensures AfterPreamble(b, pre[..n]) == None
    decreases |pre|
  {
    var s := pre[..n];
    if 0 < n == |pre| {
      PreambleSkipped(b, pre, []);
      assert s == pre && pre + [] == pre;
    } else if 0 < n {
      assert s == pre[..|pre| - 1][..n];
      UnboundedStart(b, pre[..|pre| - 1], n);
      UnboundedHasNoParts(b, s);
    }
  }

  lemma UnboundedStart(b: Text, c: Text, n: nat)
    requires Unbounded(b, c) && n <= |c|
    ensures Unbounded(b, c[..n])
  {
    forall i | 0 <= i <= n && (i == 0 || c[..n][i - 1] == '\n') ensures !(Opening(b) <= c[..n][i..]) {
      if Opening(b) <= c[..n][i..] {
        assert c[..n][i..] == c[i..][..n - i];
        PrefixOfPrefix(Opening(b), c[..n][i..], c[i..]);
      }
    }
  }

  lemma {:induction false} UnboundedHasNoParts(b: Text, s: Text)
    requires OneLine(b) && Unbounded(b, s)
    ensures AfterPreamble(b, s) == None
    decreases |s|
  {
    UnboundedLine(b, s);
    if KindOf(b, s) == Other && s != [] {
      if '\n' in s {
        UnboundedTail(b, s);
        UnboundedHasNoParts(b, AfterLine(s));
      } else {
        OnlyLine(s);
      }
    }
  }

  // ------------------------------------------------- how much of a cut content is kept

  /** A line end or part of one; at the end of the input one more carriage return may go with it. */
  predicate IsLineEnd(e: Text) { e == [] || e == "\r" || e == "\n" || e == "\r\n" || e == "\r\r\n" }

  /** All but a line end, and after it the start of what may be a boundary. */
  ghost predicate AlmostAll(b: Text, s: Text, got: Text) {
    exists e: Text, q: Text :: Lost(b, s, got, e, q)
  }

  predicate Lost(b: Text, s: Text, got: Text, e: Text, q: Text) {
    s == got + (e + q) && IsLineEnd(e) && q <= Opening(b)
  }

  lemma WithoutLineEnd(raw: Text) returns (e: Text)
    ensures raw == WithoutFinalCrlf(raw) + e && (e == [] || e == "\n" || e == "\r\n")
    ensures e == "\n" ==> WithoutFinalCrlf(raw) == [] || WithoutFinalCrlf(raw)[|raw| - 2] != '\r'
  {
    var n := |raw|;
    if raw == [] || raw[n - 1] != '\n' {
      e := [];
    } else if n >= 2 && raw[n - 2] == '\r' {
      e := "\r\n";
      assert raw == raw[..n - 2] + e;
    } else {
      e := "\n";
      assert raw == raw[..n - 1] + e;
    }
  }

  lemma StrippedLineEnd(kind: LineType, raw: Text) returns (e: Text)
    ensures raw == Finished(kind, raw) + e && IsLineEnd(e)
  {
    e := WithoutLineEnd(raw);
    var c := WithoutFinalCrlf(raw);
    if kind == EndOfFile && c != [] && c[|c| - 1] == '\r' {
      assert c == c[..|c| - 1] + "\r";
      Regroup(c[..|c| - 1], "\r", e);
      assert "\r" + [] == "\r" && "\r" + "\r\n" == "\r\r\n";
      e := "\r" + e;
    }
  }

  /** What is read of content that is cut: almost all of it. */
  lemma CutKeepsAlmostAll(b: Text, s: Text, kind: LineType, raw: Text, rest: Text)
    requires OneLine(b) && Unbounded(b, s) && Content(b, s) == (kind, raw, rest)
    ensures kind != Boundary && AlmostAll(b, s, Finished(kind, raw))
  {
    ContentCut(b, s);
    var e := StrippedLineEnd(kind, raw);
    OnlyThatIsLost(b, s, kind, raw, Finished(kind, raw), e);
  }

  lemma OnlyThatIsLost(b: Text, s: Text, kind: LineType, raw: Text, got: Text, e: Text)
    requires CutContent(b, s, kind, raw) && raw == got + e && IsLineEnd(e)
    ensures AlmostAll(b, s, got)
  {
    var q := s[|raw|..];
    assert s == raw + q;
    Regroup(got, e, q);
    assert Lost(b, s, got, e, q);
  }

  /** From after a boundary line: whole parts, then one whose content stops after `x`. */
  function UpToContent(fr: Frame, b: Text, whole: seq<Sending>, s: Sending, x: Text): Text {
    if whole == [] then HeadersOf(s) + x
    else
      HeadersOf(whole[0]) + (whole[0].content + (whole[0].eol
                             + (Opening(b) + (fr.pad + UpToContent(fr, b, whole[1..], s, x)))))
  }

  lemma UpToContentIsSomething(fr: Frame, b: Text, whole: seq<Sending>, s: Sending, x: Text)
    requires IsSending(b, s)
    ensures UpToContent(fr, b, whole, s, x) != [] || whole != []
  {
    HeadersStart(s.eol, s.headers, []);
  }

  lemma {:induction false} PartsUpToContent(fr: Frame, b: Text, whole: seq<Sending>, s: Sending, x: Text)
    returns (got: Text)
    requires IsFrame(fr) && Sendable(b, whole) && IsSending(b, s) && OneLine(b) && x <= s.content
    ensures AlmostAll(b, x, got) && UpToContent(fr, b, whole, s, x) != []
    ensures Parts(b, UpToContent(fr, b, whole, s, x))
         == PartsOf(whole) + if NameIn(s) == [] then [] else [Part(NameIn(s), got)]
  {
    if whole == [] {
      got := LastIsCut(b, s, x);
      UpToContentIsSomething(fr, b, whole, s, x);
    } else {
      var p, more := whole[0], UpToContent(fr, b, whole[1..], s, x);
      SendableTail(b, whole);
      got := PartsUpToContent(fr, b, whole[1..], s, x);
      BoundaryThenLine(fr, b, more);
      HeadersStart(p.eol, p.headers, []);
      AfterHeaders(b, p, p.content + (p.eol + (Opening(b) + (fr.pad + more))));
      WholeContent(b, p, Opening(b) + (fr.pad + more));
      PartsRegroup(OwnPart(p), PartsOf(whole[1..]), if NameIn(s) == [] then [] else [Part(NameIn(s), got)]);
    }
  }

  lemma PartsRegroup(a: seq<Part>, b: seq<Part>, c: seq<Part>)
    ensures a + (b + c) == (a + b) + c
  {
  }

  lemma LastIsCut(b: Text, s: Sending, x: Text) returns (got: Text)
    requires OneLine(b) && IsSending(b, s) && x <= s.content
    ensures AlmostAll(b, x, got)
    ensures Parts(b, HeadersOf(s) + x) == if NameIn(s) == [] then [] else [Part(NameIn(s), got)]
  {
    var (kind, raw, rest) := Content(b, x);
    AfterHeaders(b, s, x);
    UnboundedStart(b, s.content, |x|);
    assert s.content[..|x|] == x;
    CutKeepsAlmostAll(b, x, kind, raw, rest);
    got := Finished(kind, raw);
  }

  /** A body that stops inside a part's content gives all parts before it, and of that content everything but a line
      end and what may be the start of a boundary. */
  lemma CutContentIsKept(pre: Text, fr: Frame, b: Text, whole: seq<Sending>, s: Sending, x: Text) returns (got: Text)
    requires IsFrame(fr) && IsPreamble(b, pre) && Sendable(b, whole) && IsSending(b, s) && x <= s.content
    ensures AlmostAll(b, x, got)
    ensures AllParts(b, pre + (Opening(b) + (fr.pad + UpToContent(fr, b, whole, s, x))))
         == PartsOf(whole) + if NameIn(s) == [] then [] else [Part(NameIn(s), got)]
  {
    got := PartsUpToContent(fr, b, whole, s, x);
    var more := UpToContent(fr, b, whole, s, x);
    BoundaryThenLine(fr, b, more);
    PartsAfterPreamble(b, pre, Opening(b) + (fr.pad + more));
  }

  /** A body cut anywhere: a failure, or the first parts with at most the last one shortened. */
  lemma Truncation(pre: Text, fr: Frame, b: Text, sent: seq<Sending>, n: nat)
    requires IsFrame(fr) && IsPreamble(b, pre) && Sendable(b, sent) && OneNameEach(sent)
    requires n <= |pre| + |Rendered(fr, b, sent)|
    ensures Shortened(sent, AllParts(b, (pre + Rendered(fr, b, sent))[..n]))
  {
    var whole := (pre + Rendered(fr, b, sent))[..n];
    Cut(pre, Rendered(fr, b, sent), n);
    if n <= |pre| {
      CutInPreamble(b, pre, sent, whole);
    } else {
      CutAfterPreamble(pre, fr, b, sent, Rendered(fr, b, sent)[..n - |pre|], whole);
    }
  }

  lemma CutInPreamble(b: Text, pre: Text, sent: seq<Sending>, s: Text)
    requires OneLine(b) && IsPreamble(b, pre) && s <= pre
    ensures Shortened(sent, AllParts(b, s))
  {
    PreambleCut(b, pre, |s|);
    assert s == pre[..|s|];
  }

  lemma CutAfterPreamble(pre: Text, fr: Frame, b: Text, sent: seq<Sending>, x: Text, s: Text)
    requires IsFrame(fr) && IsPreamble(b, pre) && Sendable(b, sent) && OneNameEach(sent)
    requires x != [] && x <= Rendered(fr, b, sent) && s == pre + x
    ensures Shortened(sent, AllParts(b, s))
  {
    FollowingCut(fr, b, sent, |x|, x);
    PartsAfterPreamble(b, pre, x);
  }

  lemma PartsAfterPreamble(b: Text, pre: Text, s: Text)
    requires OneLine(b) && IsPreamble(b, pre) && s != [] && KindOf(b, s) in {Boundary, BoundaryEnd}
    ensures AllParts(b, pre + s) == FollowingParts(b, s)
  {
    PreambleSkipped(b, pre, s);
  }
}
