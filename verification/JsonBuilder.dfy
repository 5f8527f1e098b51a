/** The handler that turns parser events into WAF objects: each open container grows its own array by
    doubling, outgrown arrays are recycled, and a closed container's array is never touched again. */
module JsonBuilder {
  import opened Basics
  import opened Arena
  import opened ObjectPool
  import opened JsonEvents

  /** What a WAF object holds; a container points to its first entry. */
  datatype Content = Invalid | Plain(scalar: Scalar) | Container(isMap: bool, at: Loc, n: nat)
  datatype Cell = Cell(key: Option<Text>, content: Content)

  type Memory = map<Loc, Cell>

  const ZERO: Cell := Cell(None, Invalid)
  const NULL: Loc := Loc(0, 0)
  const NO_ARRAY: Region := Region(NULL, 0)

  /** An open container's array, how much of it is used, and whether the last entry is only a key. */
  datatype Buf = Buf(arr: Region, len: nat, keyLast: bool)

  // ---------------------------------------------------- what the memory represents

  /** The cells lie in an array that no open container owns. */
  ghost predicate Frozen(fz: set<Region>, at: Loc, n: nat) {
    n == 0 || exists r :: r in fz && r.at == at && n <= r.len
  }

  ghost predicate Rep(mem: Memory, fz: set<Region>, v: Content, t: Tree)
    decreases t, 0
  {
    match t
    case Missing => v == Invalid
    case Leaf(s) => v == Plain(s)
    case Node(isMap, entries) =>
      && v.Container? && v.isMap == isMap && v.n == |entries| && Frozen(fz, v.at, v.n)
      && forall i :: 0 <= i < |entries| ==>
           && Slot(Region(v.at, v.n), i) in mem
           && RepCell(mem, fz, mem[Slot(Region(v.at, v.n), i)], entries[i])
  }

  ghost predicate RepCell(mem: Memory, fz: set<Region>, c: Cell, e: Entry)
    decreases e, 1
  {
    c.key == e.key && Rep(mem, fz, c.content, e.value)
  }

  /** The representation determines the tree. */
  lemma {:induction false} RepUnique(mem: Memory, fz: set<Region>, fz': set<Region>, v: Content, t: Tree, t': Tree)
    requires Rep(mem, fz, v, t) && Rep(mem, fz', v, t')
    ensures t == t'
    decreases t
  {
    if t.Node? {
      forall i | 0 <= i < |t.entries| ensures t.entries[i] == t'.entries[i] {
        var c := mem[Slot(Region(v.at, v.n), i)];
        assert RepCell(mem, fz, c, t.entries[i]) && RepCell(mem, fz', c, t'.entries[i]);
        RepUnique(mem, fz, fz', c.content, t.entries[i].value, t'.entries[i].value);
      }
      assert t.entries == t'.entries;
    }
  }

  ghost predicate Keeps(mem: Memory, mem': Memory, r: Region) {
    forall i :: 0 <= i < r.len && Slot(r, i) in mem ==> Slot(r, i) in mem' && mem'[Slot(r, i)] == mem[Slot(r, i)]
  }

  ghost predicate KeepsAll(mem: Memory, mem': Memory, fz: set<Region>) {
    forall r :: r in fz ==> Keeps(mem, mem', r)
  }

  lemma {:induction false} RepFrame(mem: Memory, mem': Memory, fz: set<Region>, fz': set<Region>, v: Content, t: Tree)
    requires Rep(mem, fz, v, t) && fz <= fz' && KeepsAll(mem, mem', fz)
    ensures Rep(mem', fz', v, t)
    decreases t
  {
    if t.Node? && t.entries != [] {
      var r :| r in fz && r.at == v.at && v.n <= r.len;
      forall i | 0 <= i < |t.entries|
        ensures Slot(Region(v.at, v.n), i) in mem'
        ensures RepCell(mem', fz', mem'[Slot(Region(v.at, v.n), i)], t.entries[i])
      {
        assert Slot(Region(v.at, v.n), i) == Slot(r, i);
        RepFrame(mem, mem', fz, fz', mem[Slot(r, i)].content, t.entries[i].value);
      }
    }
  }

  /** A cell of an open array: `own` is the key it has before it gets one. */
  ghost predicate OpenCell(mem: Memory, fz: set<Region>, own: Option<Text>, c: Cell, e: Entry) {
    c.key == (if e.key.Some? then e.key else own) && Rep(mem, fz, c.content, e.value)
  }

  /** The used cells represent the entries and the unused ones are as they were given. */
  ghost predicate BufRep(mem: Memory, fz: set<Region>, own: Option<Text>, buf: Buf, frame: Frame) {
    && buf.len == |frame.entries| <= buf.arr.len && buf.keyLast == frame.keyLast
    && (forall i :: 0 <= i < buf.arr.len ==> Slot(buf.arr, i) in mem)
    && (forall i :: 0 <= i < buf.len ==> OpenCell(mem, fz, own, mem[Slot(buf.arr, i)], frame.entries[i]))
    && (forall i :: buf.len <= i < buf.arr.len ==> mem[Slot(buf.arr, i)] == Cell(own, Invalid))
  }

  /** Only the root has a key of its own: the one its caller gave the slot. */
  function OwnKey(key: Option<Text>, j: nat): Option<Text> {
    if j == 0 then key else None
  }

  lemma BufRepFrame(mem: Memory, mem': Memory, fz: set<Region>, fz': set<Region>, own: Option<Text>, buf: Buf,
                    frame: Frame)
    requires BufRep(mem, fz, own, buf, frame) && fz <= fz'
    requires KeepsAll(mem, mem', fz) && Keeps(mem, mem', buf.arr)
    ensures BufRep(mem', fz', own, buf, frame)
  {
    forall i | 0 <= i < buf.len ensures OpenCell(mem', fz', own, mem'[Slot(buf.arr, i)], frame.entries[i]) {
      RepFrame(mem, mem', fz, fz', mem[Slot(buf.arr, i)].content, frame.entries[i].value);
    }
  }

  ghost predicate StackRep(mem: Memory, fz: set<Region>, key: Option<Text>, bufs: seq<Buf>, frames: seq<Frame>) {
    |bufs| == |frames| && forall j :: 0 <= j < |bufs| ==> BufRep(mem, fz, OwnKey(key, j), bufs[j], frames[j])
  }

  lemma StackRepFrame(mem: Memory, mem': Memory, fz: set<Region>, fz': set<Region>, key: Option<Text>,
                      bufs: seq<Buf>, frames: seq<Frame>)
    requires StackRep(mem, fz, key, bufs, frames) && fz <= fz' && KeepsAll(mem, mem', fz)
    requires forall j :: 0 <= j < |bufs| ==> Keeps(mem, mem', bufs[j].arr)
    ensures StackRep(mem', fz', key, bufs, frames)
  {
    forall j | 0 <= j < |bufs| ensures BufRep(mem', fz', OwnKey(key, j), bufs[j], frames[j]) {
      BufRepFrame(mem, mem', fz, fz', OwnKey(key, j), bufs[j], frames[j]);
    }
  }

  // ---------------------------------------------------------------- who owns what

  /** Open arrays overlap neither each other nor a frozen one. */
  ghost predicate Apart(bufs: seq<Buf>, fz: set<Region>) {
    && (forall i, j :: 0 <= i < j < |bufs| ==> Disjoint(bufs[i].arr, bufs[j].arr))
    && (forall i, r :: 0 <= i < |bufs| && r in fz ==> Disjoint(bufs[i].arr, r))
  }

  /** The root's array is the caller's slot; the others and the frozen ones are in use in the pool. */
  ghost predicate Laid(bufs: seq<Buf>, fz: set<Region>, root: Loc, live: set<Region>) {
    && bufs != [] && bufs[0].arr == Region(root, 1)
    && (forall r :: r in fz ==> r == NO_ARRAY || r in live)
    && (forall j :: 1 <= j < |bufs| ==> bufs[j].arr == NO_ARRAY || (bufs[j].arr.len > 0 && bufs[j].arr in live))
    && Apart(bufs, fz)
  }

  lemma ChangedOutside(mem: Memory, mem': Memory, r: Region, other: Region)
    requires Disjoint(other, r)
    requires forall l :: l in mem && !Within(l, r) ==> l in mem' && mem'[l] == mem[l]
    ensures Keeps(mem, mem', other)
  {
    forall i | 0 <= i < other.len && Slot(other, i) in mem
      ensures Slot(other, i) in mem' && mem'[Slot(other, i)] == mem[Slot(other, i)]
    {
      assert !Within(Slot(other, i), r);
    }
  }

  /** Writes into the innermost array disturb nothing else. */
  lemma OthersKept(mem: Memory, mem': Memory, bufs: seq<Buf>, fz: set<Region>, r: Region)
    requires forall l :: l in mem && !Within(l, r) ==> l in mem' && mem'[l] == mem[l]
    requires forall j :: 0 <= j < |bufs| ==> Disjoint(bufs[j].arr, r)
    requires forall f :: f in fz ==> Disjoint(f, r)
    ensures KeepsAll(mem, mem', fz)
    ensures forall j :: 0 <= j < |bufs| ==> Keeps(mem, mem', bufs[j].arr)
  {
    forall j | 0 <= j < |bufs| ensures Keeps(mem, mem', bufs[j].arr) {
      ChangedOutside(mem, mem', r, bufs[j].arr);
    }
    forall f | f in fz ensures Keeps(mem, mem', f) {
      ChangedOutside(mem, mem', r, f);
    }
  }

  lemma OuterKept(mem: Memory, fz: set<Region>, fz': set<Region>, key: Option<Text>, bufs: seq<Buf>, frames: seq<Frame>)
    requires StackRep(mem, fz, key, bufs, frames) && fz <= fz'
    ensures StackRep(mem, fz', key, bufs, frames)
  {
    StackRepFrame(mem, mem, fz, fz', key, bufs, frames);
  }

  lemma Outer(mem: Memory, fz: set<Region>, key: Option<Text>, bufs: seq<Buf>, frames: seq<Frame>)
    requires StackRep(mem, fz, key, bufs, frames) && bufs != []
    ensures StackRep(mem, fz, key, bufs[..|bufs| - 1], frames[..|frames| - 1])
    ensures BufRep(mem, fz, OwnKey(key, |bufs| - 1), bufs[|bufs| - 1], Top(frames))
  {
  }

  lemma Stacked(mem: Memory, fz: set<Region>, key: Option<Text>, bufs: seq<Buf>, frames: seq<Frame>, b: Buf, f: Frame)
    requires StackRep(mem, fz, key, bufs, frames) && BufRep(mem, fz, OwnKey(key, |bufs|), b, f)
    ensures StackRep(mem, fz, key, bufs + [b], frames + [f])
  {
  }

  /** A new innermost array, disjoint from all others, may replace the old one. */
  lemma TopReplaced(mem: Memory, mem': Memory, fz: set<Region>, key: Option<Text>, bufs: seq<Buf>,
                    frames: seq<Frame>, b: Buf, f: Frame)
    requires bufs != [] && StackRep(mem, fz, key, bufs, frames)
    requires forall l :: l in mem && !Within(l, b.arr) ==> l in mem' && mem'[l] == mem[l]
    requires forall j :: 0 <= j < |bufs| - 1 ==> Disjoint(bufs[j].arr, b.arr)
    requires forall r :: r in fz ==> Disjoint(r, b.arr)
    requires BufRep(mem', fz, OwnKey(key, |bufs| - 1), b, f)
    ensures StackRep(mem', fz, key, bufs[|bufs| - 1 := b], WithTop(frames, f))
  {
    var outer, outerFrames := bufs[..|bufs| - 1], frames[..|frames| - 1];
    Outer(mem, fz, key, bufs, frames);
    OthersKept(mem, mem', outer, fz, b.arr);
    StackRepFrame(mem, mem', fz, fz, key, outer, outerFrames);
    Stacked(mem', fz, key, outer, outerFrames, b, f);
    assert bufs[|bufs| - 1 := b] == outer + [b];
    assert WithTop(frames, f) == outerFrames + [f];
  }

  /** The same array, with another idea of what is in it. */
  lemma TopUpdated(mem: Memory, fz: set<Region>, key: Option<Text>, bufs: seq<Buf>, frames: seq<Frame>, b: Buf,
                   f: Frame)
    requires bufs != [] && StackRep(mem, fz, key, bufs, frames)
    requires BufRep(mem, fz, OwnKey(key, |bufs| - 1), b, f)
    ensures StackRep(mem, fz, key, bufs[|bufs| - 1 := b], WithTop(frames, f))
  {
  }

  function LastEntry(frames: seq<Frame>): Entry
    requires frames != [] && Top(frames).entries != []
  {
    Top(frames).entries[|Top(frames).entries| - 1]
  }

  function WithLast(frames: seq<Frame>, e: Entry): seq<Frame>
    requires frames != [] && Top(frames).entries != []
  {
    var f := Top(frames);
    WithTop(frames, f.(entries := f.entries[|f.entries| - 1 := e]))
  }

  lemma WithLastIsSound(frames: seq<Frame>, e: Entry)
    requires Sound(frames) && Top(frames).entries != []
    ensures Sound(WithLast(frames, e))
  {
    var f := Top(frames);
    SoundWithTop(frames, f.(entries := f.entries[|f.entries| - 1 := e]));
  }

  lemma LastValueSet(frames: seq<Frame>, v: Tree)
    requires frames != [] && Top(frames).entries != []
    ensures SetLastValue(frames, v) == WithLast(frames, LastEntry(frames).(value := v))
  {
  }

  lemma EmptyContainer(mem: Memory, fz: set<Region>, own: Option<Text>, c: Cell, e: Entry, isMap: bool)
    requires OpenCell(mem, fz, own, c, e)
    ensures OpenCell(mem, fz, own, c.(content := Container(isMap, NULL, 0)), e.(value := Node(isMap, [])))
  {
  }

  /** How the innermost open container was opened, and the entry it becomes when closed. */
  ghost function OpenedAs(frames: seq<Frame>): bool
    requires Sound(frames) && |frames| > 1
  {
    LastEntry(frames[..|frames| - 1]).value.isMap
  }

  ghost function ClosedEntry(frames: seq<Frame>): Entry
    requires Sound(frames) && |frames| > 1
  {
    LastEntry(frames[..|frames| - 1]).(value := Node(OpenedAs(frames), Top(frames).entries))
  }

  lemma NodeCell(mem: Memory, fz: set<Region>, own: Option<Text>, c: Cell, e: Entry)
    requires OpenCell(mem, fz, own, c, e)
    ensures e.value.Node? ==> c.content.Container? && c.content.isMap == e.value.isMap
  {
    assert Rep(mem, fz, c.content, e.value);
    if e.value.Node? {
      assert e.value == Node(e.value.isMap, e.value.entries);
    }
  }

  /** Setting the last used cell of the innermost array. */
  lemma CellWritten(mem: Memory, fz: set<Region>, key: Option<Text>, bufs: seq<Buf>, frames: seq<Frame>, l: Loc,
                    c: Cell, e: Entry)
    requires bufs != [] && StackRep(mem, fz, key, bufs, frames) && Apart(bufs, fz)
    requires Top(frames).entries != [] && OpenCell(mem, fz, OwnKey(key, |bufs| - 1), c, e)
    requires l == Slot(bufs[|bufs| - 1].arr, bufs[|bufs| - 1].len - 1)
    ensures l in mem && StackRep(mem[l := c], fz, key, bufs, WithLast(frames, e))
  {
    var b, f := bufs[|bufs| - 1], Top(frames);
    var mem' := mem[l := c];
    Outer(mem, fz, key, bufs, frames);
    assert Within(l, b.arr);
    forall r | r in fz ensures Disjoint(r, b.arr) { assert Disjoint(b.arr, r); }
    OthersKept(mem, mem', [], fz, b.arr);
    var f' := f.(entries := f.entries[b.len - 1 := e]);
    CellInBuf(mem, fz, OwnKey(key, |bufs| - 1), b, f, c, e);
    TopReplaced(mem, mem', fz, key, bufs, frames, b, f');
    assert bufs[|bufs| - 1 := b] == bufs && WithLast(frames, e) == WithTop(frames, f');
  }

  lemma CellInBuf(mem: Memory, fz: set<Region>, own: Option<Text>, b: Buf, f: Frame, c: Cell, e: Entry)
    requires BufRep(mem, fz, own, b, f) && b.len > 0 && OpenCell(mem, fz, own, c, e)
    requires KeepsAll(mem, mem[Slot(b.arr, b.len - 1) := c], fz)
    ensures BufRep(mem[Slot(b.arr, b.len - 1) := c], fz, own, b, f.(entries := f.entries[b.len - 1 := e]))
  {
    var n := b.len - 1;
    var mem' := mem[Slot(b.arr, n) := c];
    forall i | 0 <= i < b.len ensures OpenCell(mem', fz, own, mem'[Slot(b.arr, i)], f.entries[n := e][i]) {
      if i == n {
        RepFrame(mem, mem', fz, fz, c.content, e.value);
      } else {
        RepFrame(mem, mem', fz, fz, mem[Slot(b.arr, i)].content, f.entries[i].value);
      }
    }
  }

  /** One more zeroed cell of an array is an entry without key or value. */
  lemma CellOpened(mem: Memory, fz: set<Region>, own: Option<Text>, b: Buf, f: Frame, keyLast: bool)
    requires BufRep(mem, fz, own, b, f) && b.len < b.arr.len
    ensures BufRep(mem, fz, own, Buf(b.arr, b.len + 1, keyLast), Frame(f.entries + [Entry(None, Missing)], keyLast))
  {
    var entries := f.entries + [Entry(None, Missing)];
    forall i | 0 <= i < b.len + 1 ensures OpenCell(mem, fz, own, mem[Slot(b.arr, i)], entries[i]) {
      if i == b.len {
        assert mem[Slot(b.arr, i)] == Cell(own, Invalid);
      }
    }
  }

  /** Moving an array keeps what it represents. */
  lemma ArrayMoved(mem: Memory, mem': Memory, fz: set<Region>, b: Buf, f: Frame, r: Region)
    requires BufRep(mem, fz, None, b, f) && KeepsAll(mem, mem', fz) && b.arr.len <= r.len
    requires forall i :: 0 <= i < r.len ==> Slot(r, i) in mem'
    requires forall i :: 0 <= i < b.arr.len ==> mem'[Slot(r, i)] == mem[Slot(b.arr, i)]
    requires forall i :: b.arr.len <= i < r.len ==> mem'[Slot(r, i)] == ZERO
    ensures BufRep(mem', fz, None, b.(arr := r), f)
  {
    forall i | 0 <= i < b.len ensures OpenCell(mem', fz, None, mem'[Slot(r, i)], f.entries[i]) {
      RepFrame(mem, mem', fz, fz, mem[Slot(b.arr, i)].content, f.entries[i].value);
    }
    forall i | b.len <= i < r.len ensures mem'[Slot(r, i)] == ZERO {
      if i < b.arr.len {
        assert mem[Slot(b.arr, i)] == ZERO;
      }
    }
  }

  /** A closed container's array is frozen and its cell represents the container. */
  lemma ContainerClosed(mem: Memory, fz: set<Region>, b: Buf, f: Frame, isMap: bool)
    requires BufRep(mem, fz, None, b, f)
    ensures Rep(mem, fz + {b.arr}, Container(isMap, b.arr.at, b.len), Node(isMap, f.entries))
  {
    var fz' := fz + {b.arr};
    assert KeepsAll(mem, mem, fz) && Keeps(mem, mem, b.arr);
    BufRepFrame(mem, mem, fz, fz', None, b, f);
    assert b.arr in fz';
    forall i | 0 <= i < b.len
      ensures Slot(Region(b.arr.at, b.len), i) in mem
      ensures RepCell(mem, fz', mem[Slot(Region(b.arr.at, b.len), i)], f.entries[i])
    {
      assert Slot(Region(b.arr.at, b.len), i) == Slot(b.arr, i);
    }
  }

  /** Part of `whole`. */
  predicate PartOf(part: Region, whole: Region) {
    part.at.seg == whole.at.seg && whole.at.off <= part.at.off && part.at.off + part.len <= whole.at.off + whole.len
  }

  /** The array that a growing innermost container gets is apart from everything in use. */
  lemma GrownApart(bufs: seq<Buf>, fz: set<Region>, root: Loc, home: Region, live: set<Region>, r: Region)
    requires Laid(bufs, fz, root, live) && |bufs| > 1 && PartOf(Region(root, 1), home)
    requires Disjoint(home, r) && forall b :: b in live ==> Disjoint(b, r)
    ensures forall j :: 0 <= j < |bufs| - 1 ==> Disjoint(bufs[j].arr, r)
    ensures forall f :: f in fz ==> Disjoint(f, r)
  {
  }

  lemma GrownIsLaid(bufs: seq<Buf>, fz: set<Region>, root: Loc, live: set<Region>, live': set<Region>, b: Buf)
    requires Laid(bufs, fz, root, live) && |bufs| > 1
    requires live' == live - {bufs[|bufs| - 1].arr} + {b.arr} && b.arr.len > 0
    requires forall j :: 0 <= j < |bufs| - 1 ==> Disjoint(bufs[j].arr, b.arr)
    requires forall f :: f in fz ==> Disjoint(f, b.arr)
    ensures Laid(bufs[|bufs| - 1 := b], fz, root, live')
  {
    var arr := bufs[|bufs| - 1].arr;
    forall r | r in fz ensures r == NO_ARRAY || r in live' {
      assert Disjoint(arr, r);
    }
    forall j | 1 <= j < |bufs| - 1 ensures bufs[j].arr == NO_ARRAY || bufs[j].arr in live' {
      assert Disjoint(bufs[j].arr, arr);
    }
  }

  lemma RelabelledIsLaid(bufs: seq<Buf>, fz: set<Region>, root: Loc, live: set<Region>, b: Buf)
    requires Laid(bufs, fz, root, live) && b.arr == bufs[|bufs| - 1].arr
    ensures Laid(bufs[|bufs| - 1 := b], fz, root, live)
  {
    var bufs' := bufs[|bufs| - 1 := b];
    assert forall j :: 0 <= j < |bufs| ==> bufs'[j].arr == bufs[j].arr;
  }

  lemma PushedIsLaid(bufs: seq<Buf>, fz: set<Region>, root: Loc, live: set<Region>)
    requires Laid(bufs, fz, root, live)
    ensures Laid(bufs + [Buf(NO_ARRAY, 0, false)], fz, root, live)
  {
  }

  lemma PoppedIsLaid(bufs: seq<Buf>, fz: set<Region>, root: Loc, live: set<Region>)
    requires Laid(bufs, fz, root, live) && |bufs| > 1
    ensures Laid(bufs[..|bufs| - 1], fz + {bufs[|bufs| - 1].arr}, root, live)
  {
    var arr := bufs[|bufs| - 1].arr;
    forall i | 0 <= i < |bufs| - 1 ensures Disjoint(bufs[i].arr, arr) {
    }
  }

  /** The old elements come first and the rest is zero; nothing else changed. */
  ghost predicate Moved(mem: Memory, mem': Memory, arr: Region, r: Region) {
    && arr.len <= r.len
    && (forall i :: 0 <= i < r.len ==> Slot(r, i) in mem')
    && (forall i :: 0 <= i < arr.len ==> Slot(arr, i) in mem && mem'[Slot(r, i)] == mem[Slot(arr, i)])
    && (forall i :: arr.len <= i < r.len ==> mem'[Slot(r, i)] == ZERO)
    && (forall l :: l in mem && !Within(l, r) ==> l in mem' && mem'[l] == mem[l])
  }

  lemma Grown(mem: Memory, mem': Memory, fz: set<Region>, key: Option<Text>, bufs: seq<Buf>, frames: seq<Frame>,
              root: Loc, home: Region, live: set<Region>, live': set<Region>, r: Region)
    requires StackRep(mem, fz, key, bufs, frames) && Laid(bufs, fz, root, live) && |bufs| > 1
    requires PartOf(Region(root, 1), home)
    requires Disjoint(home, r) && r.len > 0 && forall b :: b in live ==> Disjoint(b, r)
    requires Moved(mem, mem', bufs[|bufs| - 1].arr, r) && live' == live - {bufs[|bufs| - 1].arr} + {r}
    ensures StackRep(mem', fz, key, bufs[|bufs| - 1 := bufs[|bufs| - 1].(arr := r)], frames)
    ensures Laid(bufs[|bufs| - 1 := bufs[|bufs| - 1].(arr := r)], fz, root, live')
  {
    var buf := bufs[|bufs| - 1];
    GrownApart(bufs, fz, root, home, live, r);
    OthersKept(mem, mem', [], fz, r);
    Outer(mem, fz, key, bufs, frames);
    ArrayMoved(mem, mem', fz, buf, Top(frames), r);
    TopReplaced(mem, mem', fz, key, bufs, frames, buf.(arr := r), Top(frames));
    GrownIsLaid(bufs, fz, root, live, live', buf.(arr := r));
    assert WithTop(frames, Top(frames)) == frames;
  }

  /** The objects in the blocks that were there before are as they were, except the root. */
  ghost predicate Untouched(before: Memory, mem: Memory, elders: seq<Region>, root: Loc) {
    forall b, l :: b in elders && Within(l, b) && l != root ==> l in before && l in mem && mem[l] == before[l]
  }

  lemma UntouchedOutside(before: Memory, mem: Memory, mem': Memory, elders: seq<Region>, root: Loc, r: Region)
    requires Untouched(before, mem, elders, root) && forall b :: b in elders ==> Disjoint(b, r)
    requires forall l :: l in mem && !Within(l, r) ==> l in mem' && mem'[l] == mem[l]
    ensures Untouched(before, mem', elders, root)
  {
    forall b, l | b in elders && Within(l, b) && l != root ensures l in before && l in mem' && mem'[l] == before[l] {
      assert Disjoint(b, r) && !Within(l, r);
    }
  }

  lemma UntouchedByRoot(before: Memory, mem: Memory, elders: seq<Region>, root: Loc, c: Cell)
    requires Untouched(before, mem, elders, root)
    ensures Untouched(before, mem[root := c], elders, root)
  {
  }

  class ToDdwafObjHandler {
    const memres: DdwafMemres<Cell>
    const pool: DdwafObjArrPool<Cell>
    const root: Loc
    var bufs: seq<Buf>
    ghost const key: Option<Text>
    ghost const home: Region
    ghost const elders: seq<Region>
    ghost const before: Memory
    ghost var frozen: set<Region>
    ghost var frames: seq<Frame>

    ghost predicate Valid()
      reads this, pool, memres
    {
      && pool.memres == memres && pool.Valid() && memres.zero == ZERO
      && home in elders && PartOf(Region(root, 1), home)
      && (forall b :: b in elders ==> b in memres.objectBlocks && b !in pool.regions)
      && Untouched(before, memres.mem, elders, root)
      && Laid(bufs, frozen, root, pool.live)
      && Sound(frames) && StackRep(memres.mem, frozen, key, bufs, frames)
    }

    /** The caller's slot is an object without contents in a block of the arena; it may have its key already. */
    constructor (memres: DdwafMemres<Cell>, root: Loc, ghost home: Region)
      requires memres.Valid() && memres.zero == ZERO && home in memres.objectBlocks
      requires PartOf(Region(root, 1), home) && root in memres.mem && memres.mem[root].content == Invalid
      ensures Valid() && fresh(pool) && this.memres == memres && this.root == root && frames == EMPTY_STACK
      ensures key == memres.mem[root].key && elders == memres.objectBlocks && before == memres.mem
    {
      this.memres, this.root, this.home := memres, root, home;
      key, elders, before := memres.mem[root].key, memres.objectBlocks, memres.mem;
      pool := new DdwafObjArrPool(memres);
      bufs := [Buf(Region(root, 1), 0, false)];
      frozen, frames := {}, EMPTY_STACK;
      new;
      assert Slot(Region(root, 1), 0) == root;
      assert BufRep(memres.mem, {}, key, bufs[0], frames[0]);
    }

    lemma EldersApart(arr: Region)
      requires Valid() && arr in pool.regions
      ensures forall b :: b in elders ==> Disjoint(b, arr)
    {
      BlocksApart(memres.objects, memres.objectBlocks, arr);
    }

    /** The innermost array moves to one of twice the size, apart from everything in use. */
    method MoveArray() returns (arr: Region)
      requires Valid() && |bufs| > 1
      modifies pool, memres
      ensures pool.Valid() && arr.len > bufs[|bufs| - 1].arr.len
      ensures Moved(old(memres.mem), memres.mem, bufs[|bufs| - 1].arr, arr)
      ensures pool.live == old(pool.live) - {bufs[|bufs| - 1].arr} + {arr}
      ensures forall b :: b in old(pool.live) ==> Disjoint(b, arr)
      ensures forall b :: b in elders ==> b in memres.objectBlocks && b !in pool.regions && Disjoint(b, arr)
    {
      var outgrown := bufs[|bufs| - 1].arr;
      var newCap := if outgrown.len * 2 > 1 then outgrown.len * 2 else 1;
      arr := pool.Realloc(outgrown, newCap);
    }

    /** Twice the room for the innermost container; its old array goes back to the pool. */
    method Grow()
      requires Valid() && |bufs| > 1 && bufs[|bufs| - 1].len == bufs[|bufs| - 1].arr.len
      modifies this`bufs, pool, memres
      ensures Valid() && |bufs| == old(|bufs|)
      ensures bufs[|bufs| - 1].len < bufs[|bufs| - 1].arr.len
    {
      var buf := bufs[|bufs| - 1];
      ghost var mem, live := memres.mem, pool.live;
      var arr := MoveArray();
      Grown(mem, memres.mem, frozen, key, bufs, frames, root, home, live, pool.live, arr);
      UntouchedOutside(before, mem, memres.mem, elders, root, arr);
      bufs := bufs[|bufs| - 1 := buf.(arr := arr)];
    }

    /** do_get_slot: the entry whose key came last, or the next cell, growing the array when it is full. */
    method GetSlot(forKey: bool)
      requires Valid() && (|bufs| > 1 || frames[0] == Frame([], false))
      requires forKey ==> !Top(frames).keyLast
      modifies this`bufs, this`frames, pool, memres
      ensures Valid() && frames == Slotted(old(frames), forKey)
    {
      var top := |bufs| - 1;
      if bufs[top].keyLast {
        Relabel(bufs[top].(keyLast := false), Top(frames).(keyLast := false));
        return;
      }
      if bufs[top].len == bufs[top].arr.len {
        Grow();
      }
      OpenCellAfter(forKey);
    }

    method OpenCellAfter(forKey: bool)
      requires Valid() && bufs[|bufs| - 1].len < bufs[|bufs| - 1].arr.len
      modifies this`bufs, this`frames
      ensures Valid()
      ensures frames == WithTop(old(frames), Frame(Top(old(frames)).entries + [Entry(None, Missing)], forKey))
    {
      var buf := bufs[|bufs| - 1];
      Outer(memres.mem, frozen, key, bufs, frames);
      CellOpened(memres.mem, frozen, OwnKey(key, |bufs| - 1), buf, Top(frames), forKey);
      Relabel(Buf(buf.arr, buf.len + 1, forKey), Frame(Top(frames).entries + [Entry(None, Missing)], forKey));
    }

    /** Changes what is recorded about the innermost array, not the array. */
    method Relabel(b: Buf, ghost f: Frame)
      requires Valid() && b.arr == bufs[|bufs| - 1].arr
      requires BufRep(memres.mem, frozen, OwnKey(key, |bufs| - 1), b, f)
      requires f.keyLast ==> f.entries != []
      modifies this`bufs, this`frames
      ensures Valid() && frames == WithTop(old(frames), f) && bufs == old(bufs)[|old(bufs)| - 1 := b]
    {
      TopUpdated(memres.mem, frozen, key, bufs, frames, b, f);
      RelabelledIsLaid(bufs, frozen, root, pool.live, b);
      SoundWithTop(frames, f);
      bufs := bufs[|bufs| - 1 := b];
      frames := WithTop(frames, f);
    }

    /** Stores into the last used cell of the innermost array. */
    method Store(c: Cell, ghost e: Entry)
      requires Valid() && Top(frames).entries != []
      requires OpenCell(memres.mem, frozen, OwnKey(key, |bufs| - 1), c, e)
      modifies this`frames, memres`mem
      ensures Valid()
      ensures frames == WithLast(old(frames), e)
    {
      var l := Slot(bufs[|bufs| - 1].arr, bufs[|bufs| - 1].len - 1);
      StoreKeeps(l, c, e);
      memres.Write(l, c);
      frames := WithLast(frames, e);
    }

    lemma StoreKeeps(l: Loc, c: Cell, e: Entry)
      requires Valid() && Top(frames).entries != []
      requires OpenCell(memres.mem, frozen, OwnKey(key, |bufs| - 1), c, e)
      requires l == Slot(bufs[|bufs| - 1].arr, bufs[|bufs| - 1].len - 1)
      ensures l in memres.mem && Sound(WithLast(frames, e))
      ensures StackRep(memres.mem[l := c], frozen, key, bufs, WithLast(frames, e))
      ensures Untouched(before, memres.mem[l := c], elders, root)
    {
      CellWritten(memres.mem, frozen, key, bufs, frames, l, c, e);
      StoreTouches(l, c);
      WithLastIsSound(frames, e);
    }

    /** A store into the innermost array touches nothing that was there before. */
    lemma StoreTouches(l: Loc, c: Cell)
      requires Valid() && Top(frames).entries != [] && l == Slot(bufs[|bufs| - 1].arr, bufs[|bufs| - 1].len - 1)
      ensures Untouched(before, memres.mem[l := c], elders, root)
    {
      var buf := bufs[|bufs| - 1];
      Outer(memres.mem, frozen, key, bufs, frames);
      if |bufs| == 1 {
        assert l == root;
        UntouchedByRoot(before, memres.mem, elders, root, c);
      } else {
        EldersApart(buf.arr);
        assert Within(l, buf.arr);
        UntouchedOutside(before, memres.mem, memres.mem[l := c], elders, root, buf.arr);
      }
    }

    function Current(): Cell
      reads this, pool, memres
      requires Valid() && Top(frames).entries != []
    {
      var buf := bufs[|bufs| - 1];
      memres.mem[Slot(buf.arr, buf.len - 1)]
    }

    method SetValue(s: Scalar)
      requires Valid() && Legal(frames, Value(s))
      modifies this`bufs, this`frames, pool, memres
      ensures Valid() && frames == Step(old(frames), Value(s))
    {
      GetSlot(false);
      CurrentRep();
      Store(Current().(content := Plain(s)), LastEntry(frames).(value := Leaf(s)));
    }

    method SetKey(k: Text)
      requires Valid() && Legal(frames, Key(k))
      modifies this`bufs, this`frames, pool, memres
      ensures Valid() && frames == Step(old(frames), Key(k))
    {
      GetSlot(true);
      CurrentRep();
      Store(Current().(key := Some(k)), LastEntry(frames).(key := Some(k)));
    }

    /** The slot was zero apart from its key, so only its type changes. */
    method SetContainer(isMap: bool)
      requires Valid() && Legal(frames, Start(isMap))
      modifies this`bufs, this`frames, pool, memres
      ensures Valid() && frames == Put(old(frames), Node(isMap, []))
    {
      GetSlot(false);
      var slot := Current();
      CurrentRep();
      EmptyContainer(memres.mem, frozen, OwnKey(key, |bufs| - 1), slot, LastEntry(frames), isMap);
      LastValueSet(frames, Node(isMap, []));
      Store(slot.(content := Container(isMap, NULL, 0)), LastEntry(frames).(value := Node(isMap, [])));
    }

    method PushContainer(isMap: bool)
      requires Valid() && Legal(frames, Start(isMap))
      modifies this`bufs, this`frames, pool, memres
      ensures Valid() && frames == Step(old(frames), Start(isMap))
    {
      StepIsSound(frames, Start(isMap));
      SetContainer(isMap);
      PushedIsLaid(bufs, frozen, root, pool.live);
      Stacked(memres.mem, frozen, key, bufs, frames, Buf(NO_ARRAY, 0, false), Frame([], false));
      bufs := bufs + [Buf(NO_ARRAY, 0, false)];
      frames := frames + [Frame([], false)];
    }

    /** Takes the innermost array off the stack for good. */
    method Detach(ghost isMap: bool) returns (buf: Buf)
      requires Valid() && |bufs| > 1
      modifies this`bufs, this`frames, this`frozen
      ensures Valid() && frames == old(frames)[..|old(frames)| - 1]
      ensures Rep(memres.mem, frozen, Container(isMap, buf.arr.at, buf.len), Node(isMap, Top(old(frames)).entries))
    {
      buf := bufs[|bufs| - 1];
      ghost var fz := frozen + {buf.arr};
      PoppedIsLaid(bufs, frozen, root, pool.live);
      Outer(memres.mem, frozen, key, bufs, frames);
      OuterKept(memres.mem, frozen, fz, key, bufs[..|bufs| - 1], frames[..|frames| - 1]);
      ContainerClosed(memres.mem, frozen, buf, Top(frames), isMap);
      bufs, frames, frozen := bufs[..|bufs| - 1], frames[..|frames| - 1], fz;
    }

    method PopContainer()
      requires Valid() && |bufs| > 1
      modifies this`bufs, this`frames, this`frozen, memres`mem
      ensures Valid() && frames == Popped(old(frames))
    {
      ghost var isMap := OpenedAs(frames);
      ghost var e := ClosedEntry(frames);
      var buf := Detach(isMap);
      var slot := Current();
      CurrentRep();
      assert slot.content.isMap == isMap;
      Store(slot.(content := Container(slot.content.isMap, buf.arr.at, buf.len)), e);
    }

    lemma CurrentRep()
      requires Valid() && Top(frames).entries != []
      ensures OpenCell(memres.mem, frozen, OwnKey(key, |bufs| - 1), Current(), LastEntry(frames))
      ensures LastEntry(frames).value.Node? ==>
                Current().content.Container? && Current().content.isMap == LastEntry(frames).value.isMap
    {
      Outer(memres.mem, frozen, key, bufs, frames);
      NodeCell(memres.mem, frozen, OwnKey(key, |bufs| - 1), Current(), LastEntry(frames));
    }

    method On(ev: Event)
      requires Valid() && Legal(frames, ev)
      modifies this`bufs, this`frames, this`frozen, pool, memres
      ensures Valid() && frames == Step(old(frames), ev)
    {
      match ev
      case Value(s) => SetValue(s);
      case Key(k) => SetKey(k);
      case Start(isMap) => PushContainer(isMap);
      case End(_) => PopContainer();
    }

    method Feed(events: seq<Event>)
      requires Valid() && LegalRun(frames, events)
      modifies this`bufs, this`frames, this`frozen, pool, memres
      ensures Valid() && frames == Run(old(frames), events)
    {
      var i := 0;
      while i < |events|
        invariant 0 <= i <= |events| && Valid() && LegalRun(frames, events[i..])
        invariant Run(frames, events[i..]) == Run(old(frames), events)
      {
        assert events[i..][1..] == events[i + 1..];
        On(events[i]);
        i := i + 1;
      }
    }

    method CloseAll()
      requires Valid()
      modifies this`bufs, this`frames, this`frozen, memres`mem
      ensures Valid() && |bufs| == 1 && frames[0].entries == Closed(old(frames))
    {
      ghost var entries := Closed(frames);
      while |bufs| > 1
        invariant Valid() && Closed(frames) == entries
        decreases |bufs|
      {
        ClosedPops(frames);
        PopContainer();
      }
    }

    /** Closes the containers still open and gives the root object, if there is one. */
    method Finish() returns (r: Option<Loc>)
      requires Valid()
      modifies this`bufs, this`frames, this`frozen, memres`mem
      ensures Valid() && |bufs| == 1 && frames[0].entries == Closed(old(frames))
      ensures r == if Closed(old(frames)) == [] then None else Some(root)
    {
      CloseAll();
      RootOnly();
      r := if bufs[0].len == 0 then None else Some(root);
    }

    lemma RootOnly()
      requires Valid() && |bufs| == 1
      ensures bufs[0].len <= 1 && (bufs[0].len == 0 <==> frames[0].entries == [])
    {
      Outer(memres.mem, frozen, key, bufs, frames);
    }
  }

  /** parse_json: the parser's events up to where it stopped, then finish(). Whatever prefix of a document
      the parser reported, the caller's slot ends up holding exactly the tree that prefix denotes, under the
      key the caller gave it; every other object that was there before is left alone. */
  method ParseJson(memres: DdwafMemres<Cell>, slot: Loc, events: seq<Event>, ghost home: Region, ghost t: Tree)
    returns (r: Option<Loc>, ghost frozen: set<Region>)
    requires memres.Valid() && memres.zero == ZERO && home in memres.objectBlocks
    requires PartOf(Region(slot, 1), home) && slot in memres.mem && memres.mem[slot].content == Invalid
    requires Complete(t) && events <= Events(t)
    modifies memres
    ensures memres.Valid() && slot in memres.mem && memres.mem[slot].key == old(memres.mem[slot].key)
    ensures Untouched(old(memres.mem), memres.mem, old(memres.objectBlocks), slot)
    ensures events == [] ==> r == None && memres.mem[slot].content == Invalid
    ensures events != [] ==> r == Some(slot)
    ensures events != [] ==> Rep(memres.mem, frozen, memres.mem[slot].content, Truncated(t, |events|))
  {
    var handler := new ToDdwafObjHandler(memres, slot, home);
    PrefixDenotes(t, |events|);
    assert events == Events(t)[..|events|];
    handler.Feed(events);
    r := handler.Finish();
    frozen := handler.frozen;
    RootRep(memres.mem, frozen, handler.key, handler.bufs[0], handler.frames[0], slot);
  }

  lemma RootRep(mem: Memory, fz: set<Region>, key: Option<Text>, b: Buf, f: Frame, slot: Loc)
    requires BufRep(mem, fz, key, b, f) && b.arr == Region(slot, 1)
    ensures slot in mem && |f.entries| <= 1
    ensures if f.entries == [] then mem[slot] == Cell(key, Invalid) else OpenCell(mem, fz, key, mem[slot], f.entries[0])
  {
    assert Slot(Region(slot, 1), 0) == slot;
  }
}
