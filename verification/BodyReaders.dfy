/** The two readers of a held body: the JSON parser's input stream and the copy for plain text. Each is a
    cursor that moves over the links, step by step. */
module BodyReaders {
  import opened Basics
  import opened Chain

  // -------------------------------------------------------------- what they read in all

  /** All the bytes the JSON reader can reach: it checks the limit only when it moves to another link. */
  function JsonWindow(chain: seq<Link>, limit: nat, read: nat): (w: seq<byte>)
    ensures chain != [] ==> MemoryBytes(chain[0]) <= w
  {
    if chain == [] then []
    else
      var here := MemoryBytes(chain[0]);
      if read + |here| >= limit then here else here + JsonWindow(chain[1..], limit, read + |here|)
  }

  function AllMemory(chain: seq<Link>): seq<byte> {
    if chain == [] then [] else MemoryBytes(chain[0]) + AllMemory(chain[1..])
  }

  function UpTo(bytes: seq<byte>, limit: nat): (r: seq<byte>)
    ensures r <= bytes
  {
    if |bytes| <= limit then bytes else bytes[..limit]
  }

  /** What a reader gets from a chain that does not change. */
  function Text(json: bool, chain: seq<Link>, limit: nat): seq<byte> {
    if json then JsonWindow(chain, limit, 0) else UpTo(AllMemory(chain), limit)
  }

  lemma {:induction false} MemoryCount(chain: seq<Link>)
    ensures |AllMemory(chain)| == MemorySize(chain)
  {
    if chain != [] {
      MemoryCount(chain[1..]);
    }
  }

  lemma {:induction false} AllMemoryConcat(a: seq<Link>, b: seq<Link>)
    ensures AllMemory(a + b) == AllMemory(a) + AllMemory(b)
  {
    if a == [] {
      assert a + b == b;
    } else {
      AllMemoryConcat(a[1..], b);
      assert (a + b)[1..] == a[1..] + b;
      BytesRegroup(MemoryBytes(a[0]), AllMemory(a[1..]), AllMemory(b));
    }
  }

  /** The JSON reader's bytes are the first ones of the body, at least as many as the limit if there are. */
  lemma {:induction false} WindowIsPrefix(chain: seq<Link>, limit: nat, read: nat)
    ensures JsonWindow(chain, limit, read) <= AllMemory(chain)
    ensures read + |JsonWindow(chain, limit, read)| >= limit || JsonWindow(chain, limit, read) == AllMemory(chain)
  {
    if chain != [] {
      WindowIsPrefix(chain[1..], limit, read + |MemoryBytes(chain[0])|);
    }
  }

  /** Once enough bytes are in memory, what is appended is out of reach. */
  lemma {:induction false} WindowStable(chain: seq<Link>, extra: seq<Link>, limit: nat, read: nat)
    requires chain != [] && read + MemorySize(chain) >= limit
    ensures JsonWindow(chain + extra, limit, read) == JsonWindow(chain, limit, read)
  {
    var first, tail := chain[0], chain[1..];
    var here := |MemoryBytes(first)|;
    assert chain == [first] + tail && chain + extra == [first] + (tail + extra);
    WindowHead(first, tail, limit, read);
    WindowHead(first, tail + extra, limit, read);
    if read + here < limit {
      WindowStable(tail, extra, limit, read + here);
    }
  }

  lemma WindowHead(first: Link, tail: seq<Link>, limit: nat, read: nat)
    ensures JsonWindow([first] + tail, limit, read)
         == var here := MemoryBytes(first);
            if read + |here| >= limit then here else here + JsonWindow(tail, limit, read + |here|)
  {
    var all := [first] + tail;
    assert all[0] == first && all[1..] == tail;
  }

  /** With too few bytes in memory, an appended byte changes what a reader gets. */
  lemma {:induction false} WindowGrows(chain: seq<Link>, b: byte, limit: nat, read: nat)
    requires read + MemorySize(chain) < limit
    ensures JsonWindow(chain + [Link([b], false, false)], limit, read) == JsonWindow(chain, limit, read) + [b]
  {
    var extra := [Link([b], false, false)];
    if chain == [] {
      assert chain + extra == extra && extra[1..] == [];
    } else {
      var here := MemoryBytes(chain[0]);
      assert (chain + extra)[1..] == chain[1..] + extra;
      WindowGrows(chain[1..], b, limit, read + |here|);
      BytesRegroup(here, JsonWindow(chain[1..], limit, read + |here|), [b]);
    }
  }

  lemma TextGrows(json: bool, chain: seq<Link>, b: byte, limit: nat)
    requires MemorySize(chain) < limit
    ensures Text(json, chain + [Link([b], false, false)], limit) == Text(json, chain, limit) + [b]
  {
    var extra := [Link([b], false, false)];
    if json {
      WindowGrows(chain, b, limit, 0);
    } else {
      MemoryCount(chain);
      AllMemoryConcat(chain, extra);
      assert AllMemory(extra) == [b] + AllMemory(extra[1..]) == [b];
    }
  }

  // ---------------------------------------------------------------------- step by step

  /** The link a reader stands in, the bytes of it that were taken, and all bytes that were. */
  datatype Cursor = Cursor(link: nat, pos: nat, read: nat)

  const AT_START: Cursor := Cursor(0, 0, 0)

  ghost predicate Stands(chain: seq<Link>, k: Cursor) {
    && k.link < |chain| && k.pos <= |MemoryBytes(chain[k.link])|
    && k.read == MemorySize(chain[..k.link]) + k.pos
  }

  /** A byte taken, the step to the next link, or the finding that there is nothing more to take. */
  datatype Move = Take(b: byte) | Next | End

  function TakenBy(m: Move): seq<byte> {
    if m.Take? then [m.b] else []
  }

  /** One step on the chain as it is at that moment. The JSON reader looks at its limit only between links,
      the text reader before every byte. */
  predicate Moves(json: bool, chain: seq<Link>, limit: nat, k: Cursor, m: Move, k': Cursor) {
    && k.link < |chain|
    && var here := MemoryBytes(chain[k.link]);
       match m
       case Take(b) =>
         k.pos < |here| && b == here[k.pos] && (json || k.read < limit) && k' == Cursor(k.link, k.pos + 1, k.read + 1)
       case Next =>
         k.pos == |here| && k.read < limit && k.link + 1 < |chain| && k' == Cursor(k.link + 1, 0, k.read)
       case End =>
         && k' == k
         && ((k.pos == |here| && (k.read >= limit || k.link + 1 == |chain|)) || (!json && k.read >= limit))
  }

  /** What a reader has still before it. */
  ghost function Ahead(json: bool, chain: seq<Link>, limit: nat, k: Cursor): seq<byte>
    requires Stands(chain, k)
  {
    if json then JsonWindow(chain[k.link..], limit, k.read - k.pos)[k.pos..]
    else if k.read >= limit then []
    else UpTo(AllMemory(chain[k.link..])[k.pos..], limit - k.read)
  }

  lemma AheadAtStart(json: bool, chain: seq<Link>, limit: nat)
    requires chain != []
    ensures Stands(chain, AT_START) && Ahead(json, chain, limit, AT_START) == Text(json, chain, limit)
  {
    assert chain[..0] == [] && chain[0..] == chain;
    assert AllMemory(chain)[0..] == AllMemory(chain);
  }

  lemma NextStands(chain: seq<Link>, k: Cursor)
    requires Stands(chain, k) && k.pos == |MemoryBytes(chain[k.link])| && k.link + 1 < |chain|
    ensures Stands(chain, Cursor(k.link + 1, 0, k.read))
  {
    assert chain[..k.link + 1] == chain[..k.link] + [chain[k.link]];
    SizeConcat(chain[..k.link], [chain[k.link]]);
    assert [chain[k.link]][1..] == [];
  }

  lemma TakeKeeps(json: bool, chain: seq<Link>, limit: nat, k: Cursor, b: byte, k': Cursor)
    requires Stands(chain, k) && Moves(json, chain, limit, k, Take(b), k')
    ensures Stands(chain, k') && Ahead(json, chain, limit, k) == [b] + Ahead(json, chain, limit, k')
  {
    var rest := chain[k.link..];
    var here := MemoryBytes(chain[k.link]);
    assert rest[0] == chain[k.link];
    if json {
      TakesNext(here, JsonWindow(rest, limit, k.read - k.pos), k.pos);
    } else {
      var m := AllMemory(rest);
      assert here <= m;
      TakesNext(here, m, k.pos);
      UpToMore(b, m[k.pos + 1..], limit - k.read);
    }
  }

  lemma TakesNext(here: seq<byte>, all: seq<byte>, pos: nat)
    requires here <= all && pos < |here|
    ensures all[pos..] == [here[pos]] + all[pos + 1..]
  {
    assert all[pos] == here[pos];
  }

  lemma UpToMore(b: byte, bytes: seq<byte>, limit: nat)
    requires limit > 0
    ensures UpTo([b] + bytes, limit) == [b] + UpTo(bytes, limit - 1)
    ensures limit == 1 ==> UpTo([b] + bytes, limit) == [b]
  {
  }

  lemma NextKeeps(json: bool, chain: seq<Link>, limit: nat, k: Cursor, k': Cursor)
    requires Stands(chain, k) && Moves(json, chain, limit, k, Next, k')
    ensures Stands(chain, k') && Ahead(json, chain, limit, k) == Ahead(json, chain, limit, k')
  {
    NextStands(chain, k);
    var rest, here := chain[k.link..], MemoryBytes(chain[k.link]);
    assert rest[0] == chain[k.link] && rest[1..] == chain[k.link + 1..];
    if json {
      var w := JsonWindow(rest[1..], limit, k.read);
      assert (here + w)[|here|..] == w == w[0..];
    } else {
      var m := AllMemory(rest[1..]);
      assert (here + m)[|here|..] == m == m[0..];
    }
  }

  lemma EndKeeps(json: bool, chain: seq<Link>, limit: nat, k: Cursor, k': Cursor)
    requires Stands(chain, k) && Moves(json, chain, limit, k, End, k')
    ensures Ahead(json, chain, limit, k) == []
  {
    var rest, here := chain[k.link..], MemoryBytes(chain[k.link]);
    assert rest[0] == chain[k.link];
    if k.link + 1 == |chain| {
      assert rest[1..] == [] && here + [] == here;
      assert AllMemory(rest) == here + AllMemory(rest[1..]) == here;
      assert JsonWindow(rest, limit, k.read - k.pos) == here by {
        assert JsonWindow([], limit, k.read) == [];
      }
    }
  }

  /** Every step takes exactly what was before the reader. */
  lemma MoveKeeps(json: bool, chain: seq<Link>, limit: nat, k: Cursor, m: Move, k': Cursor)
    requires Stands(chain, k) && Moves(json, chain, limit, k, m, k')
    ensures Stands(chain, k') && Ahead(json, chain, limit, k) == TakenBy(m) + Ahead(json, chain, limit, k')
    ensures m.End? ==> Ahead(json, chain, limit, k) == []
  {
    match m
    case Take(b) => TakeKeeps(json, chain, limit, k, b, k');
    case Next =>
      NextKeeps(json, chain, limit, k, k');
      assert [] + Ahead(json, chain, limit, k') == Ahead(json, chain, limit, k');
    case End =>
      EndKeeps(json, chain, limit, k, k');
      assert [] + Ahead(json, chain, limit, k') == Ahead(json, chain, limit, k');
  }

  /** Appending behind a reader changes nothing of what is before it, once enough is in memory. */
  lemma AheadStable(json: bool, chain: seq<Link>, extra: seq<Link>, longer: seq<Link>, limit: nat, k: Cursor)
    requires Stands(chain, k) && MemorySize(chain) >= limit && longer == chain + extra
    ensures Stands(longer, k) && Ahead(json, longer, limit, k) == Ahead(json, chain, limit, k)
  {
    FromHere(chain, extra, longer, k);
    RestStable(json, chain[k.link..], extra, longer[k.link..], limit, k);
  }

  /** The same for what is left of the chain from the reader's link on. */
  lemma RestStable(json: bool, rest: seq<Link>, extra: seq<Link>, all: seq<Link>, limit: nat, k: Cursor)
    requires all == rest + extra && rest != [] && k.pos <= k.read && k.read - k.pos + MemorySize(rest) >= limit
    ensures json ==> JsonWindow(all, limit, k.read - k.pos) == JsonWindow(rest, limit, k.read - k.pos)
    ensures !json && k.read < limit ==>
              && k.pos <= |AllMemory(all)| && k.pos <= |AllMemory(rest)|
              && UpTo(AllMemory(all)[k.pos..], limit - k.read) == UpTo(AllMemory(rest)[k.pos..], limit - k.read)
  {
    if json {
      WindowStable(rest, extra, limit, k.read - k.pos);
    } else if k.read < limit {
      MemoryAheadStable(rest, extra, all, k.pos, limit - k.read);
    }
  }

  lemma MemoryAheadStable(rest: seq<Link>, extra: seq<Link>, all: seq<Link>, pos: nat, limit: nat)
    requires all == rest + extra && pos + limit <= MemorySize(rest)
    ensures pos <= |AllMemory(all)| && pos <= |AllMemory(rest)|
    ensures UpTo(AllMemory(all)[pos..], limit) == UpTo(AllMemory(rest)[pos..], limit)
  {
    MemoryCount(rest);
    AllMemoryConcat(rest, extra);
    UpToStable(AllMemory(rest), AllMemory(extra), pos, limit);
  }

  lemma FromHere(chain: seq<Link>, extra: seq<Link>, all: seq<Link>, k: Cursor)
    requires Stands(chain, k) && all == chain + extra
    ensures Stands(all, k) && all[k.link..] == chain[k.link..] + extra
    ensures k.read - k.pos + MemorySize(chain[k.link..]) == MemorySize(chain)
  {
    var rest := chain[k.link..];
    assert all[k.link] == chain[k.link] && all[..k.link] == chain[..k.link] && all[k.link..] == rest + extra;
    assert chain == chain[..k.link] + rest;
    SizeConcat(chain[..k.link], rest);
  }

  lemma UpToStable(m: seq<byte>, more: seq<byte>, pos: nat, limit: nat)
    requires pos + limit <= |m|
    ensures UpTo((m + more)[pos..], limit) == UpTo(m[pos..], limit)
  {
    assert (m + more)[pos..][..limit] == m[pos..][..limit];
  }

  // ------------------------------------------------------------- the loops in the source

  /** The parser's input stream over a chain that stays as it is. */
  class RapidNgxChainInputStream {
    const chain: seq<Link>
    const limit: nat
    var k: Cursor

    ghost predicate Valid()
      reads this
    {
      Stands(chain, k)
    }

    /** What is still to be read. */
    ghost function Left(): seq<byte>
      reads this
      requires Valid()
    {
      Ahead(true, chain, limit, k)
    }

    constructor (chain: seq<Link>, limit: nat)
      requires chain != []
      ensures Valid() && this.chain == chain && this.limit == limit && Left() == JsonWindow(chain, limit, 0)
    {
      this.chain, this.limit, k := chain, limit, AT_START;
      AheadAtStart(true, chain, limit);
    }

    method AdvanceBuffer() returns (more: bool)
      requires Valid() && k.pos == |MemoryBytes(chain[k.link])|
      modifies this
      ensures Valid() && Left() == old(Left())
      ensures more ==> k.link == old(k.link) + 1
      ensures !more ==> Left() == []
    {
      if k.read >= limit || k.link + 1 >= |chain| {
        MoveKeeps(true, chain, limit, k, End, k);
        return false;
      }
      var k' := Cursor(k.link + 1, 0, k.read);
      NextKeeps(true, chain, limit, k, k');
      k := k';
      more := true;
    }

    method MakeReadable() returns (readable: bool)
      requires Valid()
      modifies this
      ensures Valid() && Left() == old(Left()) && readable == (Left() != [])
      ensures readable ==> k.pos < |MemoryBytes(chain[k.link])|
    {
      while k.pos == |MemoryBytes(chain[k.link])|
        invariant Valid() && Left() == old(Left())
        decreases |chain| - k.link
      {
        var more := AdvanceBuffer();
        if !more {
          return false;
        }
      }
      readable := true;
      TakeKeeps(true, chain, limit, k, MemoryBytes(chain[k.link])[k.pos], Cursor(k.link, k.pos + 1, k.read + 1));
    }

    /** The next byte, or NUL at the end. */
    method Peek() returns (c: byte)
      requires Valid()
      modifies this
      ensures Valid() && Left() == old(Left()) && c == if Left() == [] then 0 else Left()[0]
    {
      var readable := MakeReadable();
      if !readable {
        return 0;
      }
      c := MemoryBytes(chain[k.link])[k.pos];
      TakeKeeps(true, chain, limit, k, c, Cursor(k.link, k.pos + 1, k.read + 1));
    }

    method Take() returns (c: byte)
      requires Valid()
      modifies this
      ensures Valid() && if old(Left()) == [] then c == 0 && Left() == [] else old(Left()) == [c] + Left()
    {
      var readable := MakeReadable();
      if !readable {
        return 0;
      }
      c := MemoryBytes(chain[k.link])[k.pos];
      var k' := Cursor(k.link, k.pos + 1, k.read + 1);
      TakeKeeps(true, chain, limit, k, c, k');
      k := k';
    }
  }

  /** linearize_chain over a chain that stays as it is: the bytes asked for, or nothing, which throws. */
  method LinearizeChain(chain: seq<Link>, size: nat) returns (r: Option<seq<byte>>)
    requires chain != []
    ensures r == if MemorySize(chain) < size then None else Some(Text(false, chain, size))
    ensures r.Some? ==> |r.value| == size
  {
    var buf: seq<byte>, k := [], AT_START;
    AheadAtStart(false, chain, size);
    MemoryCount(chain);
    while k.read < size
      invariant Stands(chain, k) && |buf| == k.read <= size
      invariant buf + Ahead(false, chain, size, k) == Text(false, chain, size)
      decreases size - k.read, |chain| - k.link
    {
      var here := MemoryBytes(chain[k.link]);
      if k.pos == |here| {
        if k.link + 1 >= |chain| {
          EndKeeps(false, chain, size, k, k);
          return None;
        }
        NextKeeps(false, chain, size, k, Cursor(k.link + 1, 0, k.read));
        k := Cursor(k.link + 1, 0, k.read);
      } else {
        var k' := Cursor(k.link, k.pos + 1, k.read + 1);
        TakeKeeps(false, chain, size, k, here[k.pos], k');
        BytesRegroup(buf, [here[k.pos]], Ahead(false, chain, size, k'));
        buf, k := buf + [here[k.pos]], k';
      }
    }
    assert buf + [] == buf && |Text(false, chain, size)| == size;
    r := Some(buf);
  }
}
