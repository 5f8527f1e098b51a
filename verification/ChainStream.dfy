/** The cursor over a chain of buffers that the body parsers read from. */
module ChainStream {
  import opened Octets

  function Joined(links: seq<Text>): Text {
    if links == [] then [] else links[0] + Joined(links[1..])
  }

  /** What byte-wise reading relies on: only the first link may be empty. */
  predicate Readable(links: seq<Text>) {
    links != [] && forall i :: 0 < i < |links| ==> links[i] != []
  }

  /** A place of the cursor, what is left from there, and what the two byte-wise questions answer: whether this is
      the end, and the next byte, which is looked for in the current link or else in the one after it. */
  predicate Position(links: seq<Text>, current: nat, pos: nat) {
    current < |links| && pos <= |links[current]|
  }

  function RestFrom(links: seq<Text>, current: nat, pos: nat): Text
    requires Position(links, current, pos)
  {
    links[current][pos..] + Joined(links[current + 1..])
  }

  predicate SaysEof(links: seq<Text>, current: nat, pos: nat)
    requires Position(links, current, pos)
  {
    pos == |links[current]| && current + 1 == |links|
  }

  predicate FindsByte(links: seq<Text>, current: nat, pos: nat)
    requires Position(links, current, pos)
  {
    pos < |links[current]| || (current + 1 < |links| && links[current + 1] != [])
  }

  /** Both are right: the end is where nothing is left, and elsewhere the next byte is found. */
  predicate Right(links: seq<Text>, current: nat, pos: nat)
    requires Position(links, current, pos)
  {
    && (SaysEof(links, current, pos) <==> RestFrom(links, current, pos) == [])
    && (RestFrom(links, current, pos) != [] ==> FindsByte(links, current, pos))
  }

  /** Byte-wise reading is right everywhere exactly when only the first link may be empty. */
  lemma ReadableExactly(links: seq<Text>)
    requires links != []
    ensures Readable(links)
       <==> forall current: nat, pos: nat :: Position(links, current, pos) ==> Right(links, current, pos)
  {
    if Readable(links) {
      forall current: nat, pos: nat | Position(links, current, pos) ensures Right(links, current, pos) {
        if current + 1 < |links| {
          assert links[current + 1..][0] == links[current + 1];
        }
      }
    } else {
      var i :| 0 < i < |links| && links[i] == [];
      var end := |links[i - 1]|;
      assert Position(links, i - 1, end) && !SaysEof(links, i - 1, end) && !FindsByte(links, i - 1, end);
    }
  }

  /** The end of a message in a link of its own, as the filters keep it: after the last byte there is nothing
      left, and yet it is not the end. */
  lemma EmptyLastLinkHidesEnd()
    ensures RestFrom(["a", ""], 0, 1) == [] && !SaysEof(["a", ""], 0, 1)
  {
    assert ["a", ""][1..] == [""] && [""][1..] == [];
    assert Joined([""]) == "" + Joined([]);
  }

  class NgxChainInputStream {
    const links: seq<Text>
    var current: nat
    var pos: nat
    /** Everything not read yet. */
    ghost var rest: Text

    ghost predicate Valid()
      reads this
    {
      && current < |links| && pos <= |links[current]|
      && rest == links[current][pos..] + Joined(links[current + 1..])
    }

    ghost predicate ByteWise()
      reads this
    {
      Valid() && Readable(links)
    }

    constructor (links: seq<Text>)
      requires links != []
      ensures Valid() && this.links == links && rest == Joined(links)
    {
      this.links, current, pos := links, 0, 0;
      rest := Joined(links);
    }

    method AdvanceBuffer() returns (more: bool)
      requires Valid() && pos == |links[current]|
      modifies this`current, this`pos
      ensures Valid() && more == (old(current) + 1 < |links|)
      ensures more ==> current == old(current) + 1 && pos == 0
      ensures !more ==> rest == [] && current == old(current) && pos == old(pos)
    {
      more := current + 1 < |links|;
      if more {
        assert links[current + 1..][1..] == links[current + 2..];
        current, pos := current + 1, 0;
      }
    }

    /** Where it says so nothing is left, for any links; with empty links it may miss the end. */
    function Eof(): (end: bool)
      reads this
      requires Valid()
      ensures end ==> rest == []
      ensures Readable(links) && rest == [] ==> end
    {
      assert current + 1 < |links| ==>
          Joined(links[current + 1..]) == links[current + 1] + Joined(links[current + 1..][1..]);
      pos == |links[current]| && current + 1 == |links|
    }

    /** Moving the cursor inside the current link leaves the rest after it. */
    lemma Taken(n: nat)
      requires Valid() && pos + n <= |links[current]|
      ensures links[current][pos..pos + n]
            + (links[current][pos + n..] + Joined(links[current + 1..])) == rest
    {
    }

    method Peek() returns (c: Octet)
      requires ByteWise() && rest != []
      modifies this`current, this`pos
      ensures ByteWise() && c == rest[0]
    {
      if pos == |links[current]| {
        var _ := Eof();
        var _ := AdvanceBuffer();
      }
      c := links[current][pos];
    }

    /** Needs only that the next byte is where it is looked for. */
    method Read() returns (c: Octet)
      requires Valid() && rest != [] && (Readable(links) || FindsByte(links, current, pos))
      modifies this
      ensures Valid() && c == old(rest)[0] && rest == old(rest)[1..]
    {
      if pos == |links[current]| {
        var _ := Eof();
        var _ := AdvanceBuffer();
      }
      c := links[current][pos];
      Taken(1);
      pos, rest := pos + 1, rest[1..];
    }

    method Take(n: nat) returns (part: Text)
      requires Valid() && pos + n <= |links[current]|
      modifies this`pos, this`rest
      ensures Valid() && |part| == n && pos == old(pos) + n && part + rest == old(rest)
    {
      Taken(n);
      part := links[current][pos..pos + n];
      pos, rest := pos + n, rest[n..];
    }

    /** Bulk reading needs no link to be non-empty. */
    method ReadBulk(size: nat) returns (buffer: Text)
      requires Valid()
      modifies this
      ensures Valid() && buffer + rest == old(rest)
      ensures |buffer| == size || (|buffer| < size && rest == [])
    {
      buffer := [];
      while |buffer| < size
        invariant Valid() && |buffer| <= size && buffer + rest == old(rest)
        decreases size - |buffer|, |links| - current
      {
        var part, more := ReadSome(size - |buffer|);
        Regroup(buffer, part, rest);
        if !more {
          return;
        }
        buffer := buffer + part;
      }
    }

    /** What the current link, or else the next one, has of the bytes asked for. */
    method ReadSome(size: nat) returns (part: Text, more: bool)
      requires Valid() && size > 0
      modifies this
      ensures Valid() && part + rest == old(rest) && |part| <= size && current >= old(current)
      ensures if more then part != [] || current > old(current) else part == [] && rest == []
    {
      if pos == |links[current]| {
        more := AdvanceBuffer();
        if !more {
          return [], false;
        }
      }
      var left := |links[current]| - pos;
      part := Take(if left <= size then left else size);
      more := true;
    }

    /** Up to `limit` bytes, stopping after the first `delim`. */
    method ReadUntil(limit: nat, delim: Octet) returns (w: Text)
      requires ByteWise()
      modifies this
      ensures ByteWise() && w + rest == old(rest) && |w| <= limit
      ensures w == [] || delim !in w[..|w| - 1]
      ensures w == [] || w[|w| - 1] != delim ==> |w| == limit || rest == []
    {
      w := [];
      while !Eof() && |w| < limit
        invariant ByteWise() && w + rest == old(rest) && |w| <= limit && delim !in w
        decreases limit - |w|
      {
        ghost var before := rest;
        var c := Read();
        assert [c] + rest == before;
        Regroup(w, [c], rest);
        w := w + [c];
        if c == delim {
          break;
        }
      }
    }
  }
}
