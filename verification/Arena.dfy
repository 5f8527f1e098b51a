/** The arena that backs WAF objects: segments filled from the front, and a pool of object arrays that
    recycles outgrown ones. */
module Arena {
  import opened Basics

  /** A place for one object: segment and offset. */
  datatype Loc = Loc(seg: nat, off: nat)

  datatype Region = Region(at: Loc, len: nat)

  predicate Within(l: Loc, r: Region) {
    l.seg == r.at.seg && r.at.off <= l.off < r.at.off + r.len
  }

  predicate Disjoint(a: Region, b: Region) {
    a.at.seg != b.at.seg || a.at.off + a.len <= b.at.off || b.at.off + b.len <= a.at.off
  }

  function Slot(r: Region, i: nat): Loc {
    Loc(r.at.seg, r.at.off + i)
  }

  // ----------------------------------------------------------------- bump allocation

  /** Segment sizes so far and the fill mark of the last one. */
  datatype Segments = Segments(sizes: seq<nat>, stored: nat)

  function CurrentSize(s: Segments): nat {
    if s.sizes == [] then 0 else s.sizes[|s.sizes| - 1]
  }

  /** A request that would reach the end of the current segment opens a new one. */
  function Bumped(s: Segments, n: nat, minimum: nat): (Segments, Region) {
    if s.stored + n >= CurrentSize(s) then
      var size := if minimum >= n then minimum else n;
      (Segments(s.sizes + [size], n), Region(Loc(|s.sizes|, 0), n))
    else (Segments(s.sizes, s.stored + n), Region(Loc(|s.sizes| - 1, s.stored), n))
  }

  /** Regions handed out: inside their segment, below the fill mark of the last one, pairwise apart. */
  ghost predicate WellPlaced(s: Segments, blocks: seq<Region>) {
    && (s.sizes == [] ==> s.stored == 0) && s.stored <= CurrentSize(s)
    && (forall i :: 0 <= i < |blocks| ==>
          && blocks[i].at.seg < |s.sizes| && blocks[i].at.off + blocks[i].len <= s.sizes[blocks[i].at.seg]
          && (blocks[i].at.seg == |s.sizes| - 1 ==> blocks[i].at.off + blocks[i].len <= s.stored))
    && forall i, j :: 0 <= i < j < |blocks| ==> Disjoint(blocks[i], blocks[j])
  }

  lemma BumpedIsApart(s: Segments, blocks: seq<Region>, n: nat, minimum: nat)
    requires WellPlaced(s, blocks)
    ensures WellPlaced(Bumped(s, n, minimum).0, blocks + [Bumped(s, n, minimum).1])
    ensures Bumped(s, n, minimum).1.len == n
    ensures forall i :: 0 <= i < |blocks| ==> Disjoint(blocks[i], Bumped(s, n, minimum).1)
  {
    var (s', r) := Bumped(s, n, minimum);
    forall i | 0 <= i < |blocks| ensures Disjoint(blocks[i], r) {
    }
  }

  /** The segments, and the blocks handed out, after a series of requests. */
  function Served(requests: seq<nat>, minimum: nat): (Segments, seq<Region>) {
    if requests == [] then (Segments([], 0), [])
    else
      var (s, blocks) := Served(requests[..|requests| - 1], minimum);
      var (s', r) := Bumped(s, requests[|requests| - 1], minimum);
      (s', blocks + [r])
  }

  /** Whatever is asked for, in whatever order: every request gets a block of its size, inside its segment and
      apart from every other. */
  lemma {:induction false} EverySeriesIsApart(requests: seq<nat>, minimum: nat)
    ensures WellPlaced(Served(requests, minimum).0, Served(requests, minimum).1)
    ensures |Served(requests, minimum).1| == |requests|
    ensures forall i :: 0 <= i < |requests| ==> Served(requests, minimum).1[i].len == requests[i]
  {
    if requests != [] {
      var n := |requests| - 1;
      EverySeriesIsApart(requests[..n], minimum);
      BumpedIsApart(Served(requests[..n], minimum).0, Served(requests[..n], minimum).1, requests[n], minimum);
    }
  }

  ghost predicate Covers<T>(mem: map<Loc, T>, r: Region) {
    forall l :: Within(l, r) ==> l in mem
  }

  const MIN_OBJECTS: nat := 20
  const MIN_STRING: nat := 512

  /** Objects and strings come from separate segments; `mem` holds the objects. */
  class DdwafMemres<Obj(0)> {
    const zero: Obj
    var objects: Segments
    var strings: Segments
    var mem: map<Loc, Obj>
    ghost var objectBlocks: seq<Region>
    ghost var stringBlocks: seq<Region>

    ghost predicate Valid()
      reads this
    {
      && WellPlaced(objects, objectBlocks) && WellPlaced(strings, stringBlocks)
      && forall i :: 0 <= i < |objectBlocks| ==> Covers(mem, objectBlocks[i])
    }

    constructor (zero: Obj)
      ensures Valid() && this.zero == zero
      ensures objectBlocks == [] && stringBlocks == []
    {
      this.zero := zero;
      objects := Segments([], 0);
      strings := Segments([], 0);
      mem := map[];
      objectBlocks := [];
      stringBlocks := [];
    }

    /** The new objects are zeroed and no other object changes. */
    method AllocateObjects(n: nat) returns (r: Option<Region>)
      requires Valid()
      modifies this`objects, this`mem, this`objectBlocks
      ensures Valid() && r.None? == (n == 0)
      ensures n == 0 ==> objectBlocks == old(objectBlocks) && mem == old(mem)
      ensures n > 0 ==> objectBlocks == old(objectBlocks) + [r.value] && r.value.len == n
      ensures n > 0 ==> forall l :: Within(l, r.value) ==> l in mem && mem[l] == zero
      ensures n > 0 ==> forall l :: !Within(l, r.value) ==> (l in mem <==> l in old(mem))
      ensures n > 0 ==> forall l :: l in old(mem) && !Within(l, r.value) ==> mem[l] == old(mem)[l]
      ensures n > 0 ==> forall i :: 0 <= i < |old(objectBlocks)| ==> Disjoint(old(objectBlocks)[i], r.value)
    {
      if n == 0 {
        return None;
      }
      BumpedIsApart(objects, objectBlocks, n, MIN_OBJECTS);
      var (s', region) := Bumped(objects, n, MIN_OBJECTS);
      objects := s';
      mem := mem + map i | 0 <= i < n :: Slot(region, i) := zero;
      objectBlocks := objectBlocks + [region];
      assert forall l :: Within(l, region) ==> l == Slot(region, l.off - region.at.off);
      r := Some(region);
    }

    /** Zeroes the objects of a region. */
    method Clear(r: Region)
      requires Valid()
      modifies this`mem
      ensures Valid()
      ensures forall l :: Within(l, r) ==> l in mem && mem[l] == zero
      ensures forall l :: l in old(mem) && !Within(l, r) ==> l in mem && mem[l] == old(mem)[l]
    {
      mem := mem + map i | 0 <= i < r.len :: Slot(r, i) := zero;
      assert forall l :: Within(l, r) ==> l == Slot(r, l.off - r.at.off);
    }

    method Write(l: Loc, obj: Obj)
      requires Valid() && l in mem
      modifies this`mem
      ensures Valid() && mem == old(mem)[l := obj]
    {
      mem := mem[l := obj];
    }

    method AllocateString(len: nat) returns (r: Region)
      requires Valid()
      modifies this`strings, this`stringBlocks
      ensures Valid() && stringBlocks == old(stringBlocks) + [r] && r.len == len
      ensures forall i :: 0 <= i < |old(stringBlocks)| ==> Disjoint(old(stringBlocks)[i], r)
    {
      BumpedIsApart(strings, stringBlocks, len, MIN_STRING);
      var (s', region) := Bumped(strings, len, MIN_STRING);
      strings := s';
      stringBlocks := stringBlocks + [region];
      r := region;
    }
  }
}
