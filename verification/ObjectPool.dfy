/** The pool of object arrays that grow by replacement: an outgrown array goes to the free list of its
    size and may be handed out again. */
module ObjectPool {
  import opened Basics
  import opened Arena

  /** The free list of each size names distinct arrays, none of them in use. */
  ghost predicate FreeListed(free: map<nat, seq<Loc>>, idle: set<Region>) {
    forall n :: n in free ==>
      && (forall i :: 0 <= i < |free[n]| ==> Region(free[n][i], n) in idle)
      && (forall i, j :: 0 <= i < j < |free[n]| ==> free[n][i] != free[n][j])
  }

  class DdwafObjArrPool<Obj(0)> {
    const memres: DdwafMemres<Obj>
    var free: map<nat, seq<Loc>>
    ghost var regions: set<Region>
    ghost var live: set<Region>

    /** Every array of the pool is a block of its own of the arena; the free ones are not live. */
    ghost predicate Valid()
      reads this, memres
    {
      && memres.Valid() && live <= regions
      && (forall r :: r in regions ==> r.len > 0 && r in memres.objectBlocks)
      && FreeListed(free, regions - live)
    }

    constructor (memres: DdwafMemres<Obj>)
      requires memres.Valid()
      ensures Valid() && this.memres == memres && regions == {} && live == {}
    {
      this.memres := memres;
      free, regions, live := map[], {}, {};
    }

    /** No array for no objects; else a zeroed array that overlaps no other block, and nothing outside it
        changes. */
    method Alloc(size: nat) returns (r: Option<Region>)
      requires Valid()
      modifies this, memres
      ensures Valid() && r.None? == (size == 0)
      ensures r.None? ==> live == old(live) && regions == old(regions) && memres.mem == old(memres.mem)
      ensures old(memres.objectBlocks) <= memres.objectBlocks
      ensures r.Some? ==> r.value.len == size && r.value !in old(live)
      ensures r.Some? ==> live == old(live) + {r.value} && regions == old(regions) + {r.value}
      ensures r.Some? ==> forall b :: b in old(memres.objectBlocks) && b != r.value ==> Disjoint(b, r.value)
      ensures r.Some? ==> forall b :: b in old(live) ==> Disjoint(b, r.value)
      ensures r.Some? ==> forall b :: b in old(memres.objectBlocks) && b !in old(regions) ==>
                            b != r.value && Disjoint(b, r.value)
      ensures r.Some? ==> forall l :: Within(l, r.value) ==> l in memres.mem && memres.mem[l] == memres.zero
      ensures r.Some? ==> forall l :: l in old(memres.mem) && !Within(l, r.value) ==>
                            l in memres.mem && memres.mem[l] == old(memres.mem)[l]
    {
      if size in free && free[size] != [] {
        var taken := TakeFree(size);
        r := Some(taken);
      } else {
        r := memres.AllocateObjects(size);
        if r.None? {
          return;
        }
      }
      live, regions := live + {r.value}, regions + {r.value};
    }

    method TakeFree(size: nat) returns (r: Region)
      requires Valid() && size in free && free[size] != []
      modifies this`free, memres`mem
      ensures Valid() && r in regions - live && r.len == size && FreeListed(free, regions - live - {r})
      ensures forall b :: b in memres.objectBlocks && b != r ==> Disjoint(b, r)
      ensures forall l :: Within(l, r) ==> l in memres.mem && memres.mem[l] == memres.zero
      ensures forall l :: l in old(memres.mem) && !Within(l, r) ==>
                l in memres.mem && memres.mem[l] == old(memres.mem)[l]
    {
      var last := |free[size]| - 1;
      r := Region(free[size][last], size);
      free := free[size := free[size][..last]];
      BlocksApart(memres.objects, memres.objectBlocks, r);
      memres.Clear(r);
    }

    /** The new array starts with the old elements and is zero after them; the old one becomes free. */
    method Realloc(arr: Region, newSize: nat) returns (r: Region)
      requires Valid() && newSize > arr.len
      requires arr.len > 0 ==> arr in live
      modifies this, memres
      ensures Valid() && r.len == newSize && r !in old(live)
      ensures live == old(live) - {arr} + {r} && regions == old(regions) + {r}
      ensures old(memres.objectBlocks) <= memres.objectBlocks
      ensures forall b :: b in old(memres.objectBlocks) && b != r ==> Disjoint(b, r)
      ensures forall b :: b in old(live) ==> Disjoint(b, r)
      ensures forall b :: b in old(memres.objectBlocks) && b !in old(regions) ==> b != r && Disjoint(b, r)
      ensures forall i :: 0 <= i < newSize ==> Slot(r, i) in memres.mem
      ensures forall i :: 0 <= i < arr.len ==>
                Slot(arr, i) in old(memres.mem) && memres.mem[Slot(r, i)] == old(memres.mem)[Slot(arr, i)]
      ensures forall i :: arr.len <= i < newSize ==> memres.mem[Slot(r, i)] == memres.zero
      ensures forall l :: l in old(memres.mem) && !Within(l, r) ==>
                l in memres.mem && memres.mem[l] == old(memres.mem)[l]
    {
      var block := Alloc(newSize);
      r := block.value;
      if arr.len > 0 {
        assert arr != r && Disjoint(arr, r);
        assert forall i :: 0 <= i < arr.len ==> Within(Slot(arr, i), arr) && !Within(Slot(arr, i), r);
        assert forall i :: 0 <= i < newSize ==> Within(Slot(r, i), r);
        CopyObjects(arr, r);
        Recycle(arr);
      }
    }

    method Recycle(arr: Region)
      requires Valid() && arr in live
      modifies this`free, this`live
      ensures Valid() && live == old(live) - {arr}
    {
      var list := if arr.len in free then free[arr.len] else [];
      free := free[arr.len := list + [arr.at]];
      live := live - {arr};
    }

    method CopyObjects(from: Region, to: Region)
      requires Valid() && from in memres.objectBlocks && to in memres.objectBlocks
      requires Disjoint(from, to) && from.len <= to.len
      modifies memres`mem
      ensures Valid()
      ensures forall i :: 0 <= i < from.len ==>
                Slot(to, i) in memres.mem && Slot(from, i) in old(memres.mem)
                && memres.mem[Slot(to, i)] == old(memres.mem)[Slot(from, i)]
      ensures forall l :: l in old(memres.mem) && !(Within(l, to) && l.off < to.at.off + from.len) ==>
                l in memres.mem && memres.mem[l] == old(memres.mem)[l]
    {
      assert forall i :: 0 <= i < from.len ==> Within(Slot(from, i), from);
      var i := 0;
      while i < from.len
        invariant 0 <= i <= from.len && Valid()
        invariant forall k :: 0 <= k < i ==>
                    Slot(to, k) in memres.mem && memres.mem[Slot(to, k)] == old(memres.mem)[Slot(from, k)]
        invariant forall l :: l in old(memres.mem) && !(Within(l, to) && l.off < to.at.off + i) ==>
                    l in memres.mem && memres.mem[l] == old(memres.mem)[l]
      {
        memres.mem := memres.mem[Slot(to, i) := memres.mem[Slot(from, i)]];
        i := i + 1;
      }
    }
  }

  lemma BlocksApart(s: Segments, blocks: seq<Region>, r: Region)
    requires WellPlaced(s, blocks) && r in blocks
    ensures forall b :: b in blocks && b != r ==> Disjoint(b, r)
  {
  }
}
