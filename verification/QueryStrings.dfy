/** Query strings: the iterator over their pairs, and rendering pairs so that it reads them back. */
module QueryStrings {
  import opened Basics
  import opened Octets
  import opened PercentDecoding
  import opened PartHeaders
  import opened Fields

  function PairOf(kv: Text): Part {
    var e := Before(kv, '=');
    Part(Decoded(true, kv[..e]), Decoded(true, Past(kv, e)))
  }

  /** The pairs between separators; nothing after a final separator. */
  function Pairs(sep: Octet, qs: Text): seq<Part>
    decreases |qs|
  {
    if qs == [] then []
    else
      var n := Before(qs, sep);
      [PairOf(qs[..n])] + Pairs(sep, Past(qs, n))
  }

  function UpToNul(s: Text): Text { s[..Before(s, 0 as char)] }

  /** find_first_of: whether any of the characters occurs. */
  method FindsPercentOrPlus(sv: Text) returns (found: bool)
    ensures found <==> '%' in sv || '+' in sv
  {
    var i := 0;
    while i < |sv|
      invariant 0 <= i <= |sv| && '%' !in sv[..i] && '+' !in sv[..i]
    {
      if sv[i] == '%' || sv[i] == '+' {
        return true;
      }
      i := i + 1;
    }
    found := false;
  }

  class QueryStringIter {
    const qs: Text
    const separator: Octet
    var pos: nat
    var interned: set<Text>
    /** The pairs not visited yet. */
    ghost var left: seq<Part>

    ghost predicate Valid()
      reads this
    {
      pos <= |qs| && left == Pairs(separator, qs[pos..])
    }

    constructor (qs: Text, separator: Octet)
      ensures Valid() && this.qs == qs && this.separator == separator && pos == 0 && left == Pairs(separator, qs)
    {
      this.qs, this.separator, pos, interned := qs, separator, 0, {};
      left := Pairs(separator, qs);
      assert qs[0..] == qs;
    }

    function Ended(): (end: bool)
      reads this
      requires Valid()
      ensures end <==> left == []
    {
      pos == |qs|
    }

    method Reset()
      modifies this`pos, this`left
      ensures Valid() && pos == 0 && left == Pairs(separator, qs)
    {
      pos, left := 0, Pairs(separator, qs);
      assert qs[0..] == qs;
    }

    /** The set keeps a new string only up to its first NUL, but what is returned is always the string. */
    method Intern(s: Text) returns (r: Text)
      modifies this`interned
      ensures r == s
    {
      if s in interned {
        r :| r in interned && r == s;
      } else {
        interned := interned + {UpToNul(s)};
        r := s;
      }
    }

    method Decode(sv: Text) returns (r: Text)
      modifies this`interned
      ensures r == Decoded(true, sv)
    {
      if sv == [] {
        return [];
      }
      var coded := FindsPercentOrPlus(sv);
      if !coded {
        DecodedPlain(true, sv);
        return sv;
      }
      var result := DecodePercent(true, sv);
      r := Intern(result);
    }

    /** The text of the current pair. */
    function CurrentText(): Text
      reads this
      requires Valid()
    {
      qs[pos..][..Before(qs[pos..], separator)]
    }

    method CurKey() returns (key: Text)
      requires Valid() && !Ended()
      modifies this`interned
      ensures key == left[0].name
    {
      var kv := CurrentText();
      key := Decode(kv[..Before(kv, '=')]);
    }

    method Current() returns (pair: Part)
      requires Valid() && !Ended()
      modifies this`interned
      ensures pair == left[0]
    {
      var kv := CurrentText();
      var e := Before(kv, '=');
      if e == |kv| {
        assert kv[..e] == kv;
        var key := Decode(kv);
        return Part(key, "");
      }
      if e == |kv| - 1 {
        assert Past(kv, e) == [];
        var key := Decode(kv[..e]);
        return Part(key, "");
      }
      var key := Decode(kv[..e]);
      var value := Decode(kv[e + 1..]);
      pair := Part(key, value);
    }

    method Advance()
      requires Valid() && !Ended()
      modifies this`pos, this`left
      ensures Valid() && left == old(left)[1..] && pos > old(pos)
    {
      var n := Before(qs[pos..], separator);
      var next := if n == |qs| - pos then |qs| else pos + n + 1;
      PairsTail(separator, qs, pos, next);
      left, pos := left[1..], next;
    }
  }

  lemma PairsTail(sep: Octet, qs: Text, pos: nat, next: nat)
    requires pos < |qs|
    requires var n := Before(qs[pos..], sep); next == if n == |qs| - pos then |qs| else pos + n + 1
    ensures Pairs(sep, qs[pos..])[1..] == Pairs(sep, qs[next..])
  {
    var rest := qs[pos..];
    var n := Before(rest, sep);
    assert Past(rest, n) == qs[next..];
    assert Pairs(sep, rest) == [PairOf(rest[..n])] + Pairs(sep, qs[next..]);
  }

  // -------------------------------------------------------------------- the round trip

  /** A pair as it is sent: a key alone, or with a value. */
  datatype SentPair = SentPair(key: seq<Coded>, value: Option<seq<Coded>>)

  function SentText(p: SentPair): Text {
    CodedText(p.key) + if p.value.None? then [] else ['='] + CodedText(p.value.value)
  }

  function SentPart(p: SentPair): Part {
    Part(Chars(p.key), if p.value.None? then "" else Chars(p.value.value))
  }

  /** The separator is spelled out nowhere and the equals sign not in the key; it may be in the value. */
  predicate IsSent(sep: Octet, p: SentPair) {
    && AllCoded(true, p.key) && NeverPlain(p.key, sep) && NeverPlain(p.key, '=')
    && (p.value.Some? ==> AllCoded(true, p.value.value) && NeverPlain(p.value.value, sep))
  }

  predicate Separates(sep: Octet) {
    sep != '%' && sep != '+' && sep != '=' && !IsHex(sep)
  }

  /** Nothing after the last separator is no pair. */
  predicate AreSent(sep: Octet, sent: seq<SentPair>) {
    && (forall i :: 0 <= i < |sent| ==> IsSent(sep, sent[i]))
    && (sent != [] ==> sent[|sent| - 1] != SentPair([], None))
  }

  function SentPairs(sep: Octet, sent: seq<SentPair>): Text {
    if sent == [] then []
    else if |sent| == 1 then SentText(sent[0])
    else SentText(sent[0]) + ([sep] + SentPairs(sep, sent[1..]))
  }

  function SentParts(sent: seq<SentPair>): seq<Part> {
    if sent == [] then [] else [SentPart(sent[0])] + SentParts(sent[1..])
  }

  lemma PairReads(sep: Octet, p: SentPair)
    requires Separates(sep) && IsSent(sep, p)
    ensures PairOf(SentText(p)) == SentPart(p) && sep !in SentText(p)
  {
    CodedAvoids(true, p.key, '=');
    CodedAvoids(true, p.key, sep);
    DecodedCoded(true, p.key);
    if p.value.Some? {
      CodedAvoids(true, p.value.value, sep);
      DecodedCoded(true, p.value.value);
      KeyAndValue(CodedText(p.key), ['='] + CodedText(p.value.value));
    } else {
      assert Decoded(true, []) == [];
      KeyAndValue(CodedText(p.key), []);
    }
  }

  lemma KeyAndValue(k: Text, rest: Text)
    requires '=' !in k && (rest == [] || rest[0] == '=')
    ensures PairOf(k + rest) == Part(Decoded(true, k), Decoded(true, if rest == [] then [] else rest[1..]))
  {
    var kv := k + rest;
    assert kv[..|k|] == k;
    BeforeIs(kv, '=', |k|);
    assert Past(kv, |k|) == if rest == [] then [] else rest[1..];
  }

  lemma SomethingIsSent(p: SentPair)
    requires p != SentPair([], None)
    ensures SentText(p) != []
  {
    if p.key != [] {
      assert CodedUnit(p.key[0]) != [];
    }
  }

  /** Pairs in any spelling, joined by the separator, are read back in order, whatever bytes they hold: keys without
      a value, empty keys and values, and equals signs in values included. */
  lemma {:induction false} PairsRoundTrip(sep: Octet, sent: seq<SentPair>)
    requires Separates(sep) && AreSent(sep, sent)
    ensures Pairs(sep, SentPairs(sep, sent)) == SentParts(sent)
  {
    if sent != [] {
      var p, rest := sent[0], sent[1..];
      PairReads(sep, p);
      if rest == [] {
        SomethingIsSent(p);
        LastPair(sep, SentText(p));
      } else {
        assert rest[|rest| - 1] == sent[|sent| - 1];
        PairsRoundTrip(sep, rest);
        FirstPair(sep, SentText(p), SentPairs(sep, rest));
      }
    }
  }

  lemma LastPair(sep: Octet, first: Text)
    requires first != [] && sep !in first
    ensures Pairs(sep, first) == [PairOf(first)]
  {
    assert first[..|first|] == first;
    BeforeIs(first, sep, |first|);
    assert Past(first, |first|) == [];
  }

  lemma FirstPair(sep: Octet, first: Text, rest: Text)
    requires sep !in first
    ensures Pairs(sep, first + ([sep] + rest)) == [PairOf(first)] + Pairs(sep, rest)
  {
    var qs := first + ([sep] + rest);
    assert qs[..|first|] == first;
    BeforeIs(qs, sep, |first|);
    assert Past(qs, |first|) == rest;
  }
}
