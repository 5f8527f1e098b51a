/** Chains of nginx buffers, as the filters see them: the unread bytes of each buffer and
    whether it ends the message. */
module Chain {
  import opened Basics

  /** A link whose data sits in memory or in a file range; a special buffer has no bytes. */
  datatype Link = Link(bytes: seq<byte>, last: bool, inFile: bool)

  function Bytes(chain: seq<Link>): seq<byte> {
    if chain == [] then [] else chain[0].bytes + Bytes(chain[1..])
  }

  function Size(chain: seq<Link>): nat {
    if chain == [] then 0 else |chain[0].bytes| + Size(chain[1..])
  }

  /** Bytes between `pos` and `last` of a buffer: file ranges have none in memory. */
  function MemoryBytes(link: Link): seq<byte> {
    if link.inFile then [] else link.bytes
  }

  function MemorySize(chain: seq<Link>): nat {
    if chain == [] then 0 else |MemoryBytes(chain[0])| + MemorySize(chain[1..])
  }

  predicate HasLast(chain: seq<Link>) {
    exists i :: 0 <= i < |chain| && chain[i].last
  }

  lemma BytesRegroup(a: seq<byte>, b: seq<byte>, c: seq<byte>)
    ensures a + (b + c) == (a + b) + c
  {
  }

  lemma {:induction false} BytesConcat(a: seq<Link>, b: seq<Link>)
    ensures Bytes(a + b) == Bytes(a) + Bytes(b)
  {
    if a == [] {
      assert a + b == b;
    } else {
      BytesConcat(a[1..], b);
      assert (a + b)[1..] == a[1..] + b;
      BytesRegroup(a[0].bytes, Bytes(a[1..]), Bytes(b));
    }
  }

  lemma {:induction false} SizeConcat(a: seq<Link>, b: seq<Link>)
    ensures Size(a + b) == Size(a) + Size(b)
    ensures MemorySize(a + b) == MemorySize(a) + MemorySize(b)
  {
    if a == [] {
      assert a + b == b;
    } else {
      SizeConcat(a[1..], b);
      assert (a + b)[1..] == a[1..] + b;
    }
  }

  lemma LastConcat(a: seq<Link>, b: seq<Link>)
    ensures HasLast(a + b) <==> HasLast(a) || HasLast(b)
  {
    if i :| 0 <= i < |a| && a[i].last {
      assert (a + b)[i].last;
    }
    if i :| 0 <= i < |b| && b[i].last {
      assert (a + b)[|a| + i].last;
    }
    if i :| 0 <= i < |a + b| && (a + b)[i].last {
      assert if i < |a| then a[i].last else b[i - |a|].last;
    }
  }

  /** File ranges have a size but nothing in memory. */
  lemma {:induction false} MemoryIsPart(chain: seq<Link>)
    ensures MemorySize(chain) <= Size(chain)
  {
    if chain != [] {
      MemoryIsPart(chain[1..]);
    }
  }

  lemma {:induction false} SizeIsByteCount(chain: seq<Link>)
    ensures Size(chain) == |Bytes(chain)|
  {
    if chain != [] {
      SizeIsByteCount(chain[1..]);
    }
  }

  /** What a partial send of `n` bytes leaves of a chain. */
  function Unsent(chain: seq<Link>, n: nat): (rest: seq<Link>)
    requires n <= Size(chain)
  {
    if chain == [] then []
    else if |chain[0].bytes| <= n then Unsent(chain[1..], n - |chain[0].bytes|)
    else [chain[0].(bytes := chain[0].bytes[n..])] + chain[1..]
  }

  lemma {:induction false} UnsentKeepsTheRest(chain: seq<Link>, n: nat)
    requires n <= Size(chain)
    ensures n <= |Bytes(chain)|
    ensures Bytes(Unsent(chain, n)) == Bytes(chain)[n..]
  {
    SizeIsByteCount(chain);
    if chain != [] {
      var first, tail := chain[0].bytes, chain[1..];
      if |first| <= n {
        UnsentKeepsTheRest(tail, n - |first|);
        assert (first + Bytes(tail))[n..] == Bytes(tail)[n - |first|..];
      } else {
        var trimmed := chain[0].(bytes := first[n..]);
        assert ([trimmed] + tail)[1..] == tail;
        assert (first + Bytes(tail))[n..] == first[n..] + Bytes(tail);
      }
    }
  }
}
