/** The buffer behind each filter: a chain that grows at its tail, with its byte counts. */
module FilterBuffer {
  import opened Chain

  /** Value of a FilterCtx: the held chain, its size, how much of it was copied, and whether
      the end of the message was seen. */
  datatype Held = Held(out: seq<Link>, total: nat, copied: nat, foundLast: bool)

  const EMPTY := Held([], 0, 0, false)

  predicate Consistent(h: Held) {
    h.total == Size(h.out)
  }

  /** buffer_chain refuses links that come after the end of the message. */
  predicate Refuses(h: Held, chain: seq<Link>) {
    chain != [] && h.foundLast
  }

  function Buffered(h: Held, chain: seq<Link>, consume: bool): (h': Held) {
    Held(h.out + chain, h.total + Size(chain), h.copied + (if consume then MemorySize(chain) else 0),
         h.foundLast || HasLast(chain))
  }

  /** The end-of-message mark outlives the data. */
  function Cleared(h: Held): (h': Held) {
    Held([], 0, 0, h.foundLast)
  }

  function Replaced(h: Held, rest: seq<Link>): (h': Held) {
    Held(rest, Size(rest), 0, h.foundLast)
  }

  class FilterCtx {
    var out: seq<Link>
    var outTotal: nat
    var copiedTotal: nat
    var foundLast: bool

    function Value(): Held
      reads this
    {
      Held(out, outTotal, copiedTotal, foundLast)
    }

    constructor ()
      ensures Value() == EMPTY
    {
      out, outTotal, copiedTotal, foundLast := [], 0, 0, false;
    }

    method BufferChain(chain: seq<Link>, consume: bool) returns (ok: bool)
      modifies this
      ensures ok == !Refuses(old(Value()), chain)
      ensures Value() == if ok then Buffered(old(Value()), chain, consume) else old(Value())
    {
      if chain != [] && foundLast {
        return false;
      }
      ghost var before := Value();
      var i := 0;
      while i < |chain|
        invariant 0 <= i <= |chain|
        invariant Value() == Buffered(before, chain[..i], consume)
      {
        var link := chain[i];
        BufferOne(before, chain, i, consume);
        if consume {
          if !link.inFile {
            copiedTotal := copiedTotal + |link.bytes|;
          }
        }
        outTotal := outTotal + |link.bytes|;
        if link.last {
          foundLast := true;
        }
        out := out + [link];
        i := i + 1;
      }
      assert chain[..i] == chain;
      return true;
    }

    method Clear()
      modifies this
      ensures Value() == Cleared(old(Value()))
    {
      out, outTotal, copiedTotal := [], 0, 0;
    }

    method ReplaceOut(newOut: seq<Link>)
      modifies this
      ensures Value() == Replaced(old(Value()), newOut)
    {
      out, copiedTotal, outTotal := newOut, 0, 0;
      var i := 0;
      while i < |newOut|
        invariant 0 <= i <= |newOut|
        invariant Value() == Held(newOut, Size(newOut[..i]), 0, old(foundLast))
      {
        SizeConcat(newOut[..i], [newOut[i]]);
        assert newOut[..i + 1] == newOut[..i] + [newOut[i]];
        outTotal := outTotal + |newOut[i].bytes|;
        i := i + 1;
      }
      assert newOut[..i] == newOut;
    }
  }

  lemma BufferOne(h: Held, chain: seq<Link>, i: nat, consume: bool)
    requires i < |chain|
    ensures Buffered(h, chain[..i + 1], consume)
         == Held(h.out + chain[..i] + [chain[i]],
                 Buffered(h, chain[..i], consume).total + |chain[i].bytes|,
                 Buffered(h, chain[..i], consume).copied + (if consume then |MemoryBytes(chain[i])| else 0),
                 Buffered(h, chain[..i], consume).foundLast || chain[i].last)
  {
    assert chain[..i + 1] == chain[..i] + [chain[i]];
    SizeConcat(chain[..i], [chain[i]]);
    if HasLast(chain[..i + 1]) && !chain[i].last {
      var k :| 0 <= k < i + 1 && chain[..i + 1][k].last;
      assert chain[..i][k].last;
    }
    if HasLast(chain[..i]) {
      var k :| 0 <= k < i && chain[..i][k].last;
      assert chain[..i + 1][k].last;
    }
    assert chain[..i + 1][i] == chain[i];
  }
}
