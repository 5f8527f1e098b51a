/** The two builders that group a query string's pairs by key: the one for request bodies, which allocates
    every key before filling, and the one for query strings, which allocates as it fills. */
module Urlencoded {
  import opened Basics
  import opened Octets
  import opened ChainStream
  import opened QueryStrings
  import opened Fields

  /** A WAF object under construction: a string, or an array with room for `cap` strings. */
  datatype Slot = Single(text: Text) | Array(cap: nat, items: seq<Text>)

  function Finished(slot: Slot): Field {
    match slot case Single(t) => One(t) case Array(_, items) => Many(items)
  }

  // ------------------------------------------------------------------- counting the keys

  ghost predicate Counted(counts: map<Text, nat>, g: Groups) {
    counts.Keys == g.Keys && forall name :: name in counts ==> counts[name] == |g[name]| > 0
  }

  function Bumped(counts: map<Text, nat>, key: Text): map<Text, nat> {
    counts[key := (if key in counts then counts[key] else 0) + 1]
  }

  lemma CountedMore(counts: map<Text, nat>, g: Groups, p: Part)
    requires Counted(counts, g)
    ensures Counted(Bumped(counts, p.name), Added(g, p))
  {
  }

  method CountKeys(it: QueryStringIter) returns (counts: map<Text, nat>)
    requires it.Valid()
    modifies it
    ensures it.Valid() && Counted(counts, Absorbed(map[], old(it.left)))
  {
    counts := map[];
    ghost var g: Groups := map[];
    while !it.Ended()
      invariant it.Valid() && Absorbed(g, it.left) == Absorbed(map[], old(it.left)) && Counted(counts, g)
      decreases |it.left|
    {
      CountedMore(counts, g, it.left[0]);
      var key := it.CurKey();
      counts := Bumped(counts, key);
      g := Added(g, it.left[0]);
      it.Advance();
    }
  }

  // -------------------------------------------------------------- allocate, then fill

  /** Every group has a value, and none more than it will have. */
  ghost predicate Within(whole: Groups, g: Groups) {
    forall name :: name in g ==> name in whole && 0 < |g[name]| <= |whole[name]|
  }

  lemma {:induction false} AbsorbedWithin(g: Groups, parts: seq<Part>)
    requires forall name :: name in g ==> g[name] != []
    ensures Within(Absorbed(g, parts), g)
  {
    forall name | name in g ensures name in Absorbed(g, parts) && |g[name]| <= |Absorbed(g, parts)[name]| {
      AbsorbedIsValues(g, parts, name);
    }
  }

  /** Another pair fits: its key is among the keys and has a value to come. */
  ghost predicate Room(whole: Groups, g: Groups, p: Part) {
    p.name in whole && |Of(g, p.name)| < |whole[p.name]|
  }

  lemma RoomForNext(whole: Groups, g: Groups, left: seq<Part>)
    requires left != [] && whole == Absorbed(g, left) && Within(whole, g)
    ensures Room(whole, g, left[0]) && Within(whole, Added(g, left[0]))
    ensures whole == Absorbed(Added(g, left[0]), left[1..])
  {
    AbsorbedWithin(Added(g, left[0]), left[1..]);
  }

  /** What a key's slot holds when `g` has been stored out of `whole`. */
  ghost function Partly(whole: Groups, g: Groups, name: Text): Slot {
    var n := |Of(whole, name)|;
    if n != 1 then Array(n, Of(g, name)) else Single(if Of(g, name) == [] then "" else Of(g, name)[0])
  }

  function Stored(slot: Slot, value: Text): Slot {
    match slot case Single(_) => Single(value) case Array(cap, items) => Array(cap, items + [value])
  }

  lemma PartlyMore(whole: Groups, g: Groups, p: Part, name: Text)
    requires Room(whole, g, p)
    ensures name != p.name ==> Partly(whole, Added(g, p), name) == Partly(whole, g, name)
    ensures name == p.name ==> Partly(whole, Added(g, p), name) == Stored(Partly(whole, g, name), p.content)
  {
  }

  ghost predicate Filled(slots: map<Text, Slot>, whole: Groups, g: Groups) {
    slots.Keys == whole.Keys && forall name :: name in slots ==> slots[name] == Partly(whole, g, name)
  }

  /** parse_urlencoded; no result when the chain is shorter than the declared size, which throws. */
  method ParseUrlencoded(links: seq<Text>, size: nat) returns (r: Option<map<Text, Field>>)
    requires links != []
    ensures r.None? <==> |Joined(links)| < size
    ensures r.Some? ==> Grouped(r.value, Pairs('&', Joined(links)[..size]))
  {
    var stream := new NgxChainInputStream(links);
    var buf := stream.ReadBulk(size);
    assert Joined(links)[..|buf|] == buf;
    if |buf| < size {
      return None;
    }
    var it := new QueryStringIter(buf, '&');
    ghost var all := it.left;
    var counts := CountKeys(it);
    var slots := map name | name in counts :: if counts[name] == 1 then Single("") else Array(counts[name], []);
    it.Reset();
    slots := Fill(it, slots, Absorbed(map[], all));
    FilledAll(slots, all);
    r := Some(map name | name in slots :: Finished(slots[name]));
  }

  /** The second pass. Looking a key up never fails and writing an element never exceeds its array. */
  method Fill(it: QueryStringIter, start: map<Text, Slot>, ghost whole: Groups) returns (slots: map<Text, Slot>)
    requires it.Valid() && whole == Absorbed(map[], it.left) && Filled(start, whole, map[])
    modifies it
    ensures Filled(slots, whole, whole)
  {
    slots := start;
    ghost var g: Groups := map[];
    while !it.Ended()
      invariant it.Valid() && whole == Absorbed(g, it.left) && Within(whole, g) && Filled(slots, whole, g)
      decreases |it.left|
    {
      RoomForNext(whole, g, it.left);
      var pair := it.Current();
      slots := FillOne(slots, pair, whole, g);
      g := Added(g, pair);
      it.Advance();
    }
  }

  method FillOne(slots: map<Text, Slot>, pair: Part, ghost whole: Groups, ghost g: Groups)
    returns (slots': map<Text, Slot>)
    requires Filled(slots, whole, g) && Room(whole, g, pair)
    ensures Filled(slots', whole, Added(g, pair))
  {
    match slots[pair.name]
    case Single(_) =>
      slots' := slots[pair.name := Single(pair.content)];
    case Array(cap, items) =>
      assert |items| < cap;
      slots' := slots[pair.name := Array(cap, items + [pair.content])];
  }

  lemma FilledAll(slots: map<Text, Slot>, all: seq<Part>)
    requires Filled(slots, Absorbed(map[], all), Absorbed(map[], all))
    ensures Grouped(map name | name in slots :: Finished(slots[name]), all)
  {
    var g := Absorbed(map[], all);
    AbsorbedIsGrouped(g, all);
    forall name | name in slots ensures Finished(slots[name]) == AsField(g[name]) {
    }
  }

  // ---------------------------------------------------------------- allocate on the way

  /** A map entry of the WAF object. */
  datatype Entry = Entry(key: Text, slot: Slot)

  /** `at` tells where the entry of every key seen is; there are no other entries. */
  ghost predicate Entered(entries: seq<Entry>, at: map<Text, nat>, whole: Groups, g: Groups) {
    && at.Keys == g.Keys
    && (forall name :: name in at ==> at[name] < |entries| && entries[at[name]] == Entry(name, Partly(whole, g, name)))
    && (forall i :: 0 <= i < |entries| ==> entries[i].key in at && at[entries[i].key] == i)
  }

  /** The keys with an array are the ones that the builder keeps an index of. */
  ghost predicate Indexed(indexed: map<Text, nat>, at: map<Text, nat>, whole: Groups) {
    && (forall name :: name in indexed <==> name in at && |Of(whole, name)| != 1)
    && (forall name :: name in indexed ==> indexed[name] == at[name])
  }

  lemma NewEntry(entries: seq<Entry>, at: map<Text, nat>, whole: Groups, g: Groups, p: Part)
    requires Entered(entries, at, whole, g) && Room(whole, g, p) && p.name !in at
    ensures Entered(entries + [Entry(p.name, Stored(Partly(whole, g, p.name), p.content))], at[p.name := |entries|],
                    whole, Added(g, p))
  {
    var entries' := entries + [Entry(p.name, Stored(Partly(whole, g, p.name), p.content))];
    var at' := at[p.name := |entries|];
    forall name | name in at'
      ensures at'[name] < |entries'| && entries'[at'[name]] == Entry(name, Partly(whole, Added(g, p), name))
    {
      PartlyMore(whole, g, p, name);
    }
  }

  lemma SameEntry(entries: seq<Entry>, at: map<Text, nat>, whole: Groups, g: Groups, p: Part)
    requires Entered(entries, at, whole, g) && Room(whole, g, p) && p.name in at
    ensures Entered(entries[at[p.name] := Entry(p.name, Stored(Partly(whole, g, p.name), p.content))], at, whole,
                    Added(g, p))
  {
    var entries' := entries[at[p.name] := Entry(p.name, Stored(Partly(whole, g, p.name), p.content))];
    forall name | name in at ensures entries'[at[name]] == Entry(name, Partly(whole, Added(g, p), name)) {
      PartlyMore(whole, g, p, name);
      if name != p.name {
        assert at[name] != at[p.name];
      }
    }
  }

  lemma IndexedMore(indexed: map<Text, nat>, at: map<Text, nat>, whole: Groups, name: Text, k: nat)
    requires Indexed(indexed, at, whole) && name !in at
    ensures Indexed(if |Of(whole, name)| == 1 then indexed else indexed[name := k], at[name := k], whole)
  {
  }

  /** A key's first occurrence opens its entry. */
  method OpenEntry(entries: seq<Entry>, indexed: map<Text, nat>, pair: Part, occurrences: nat,
                   ghost at: map<Text, nat>, ghost whole: Groups, ghost g: Groups)
    returns (entries': seq<Entry>, indexed': map<Text, nat>)
    requires Entered(entries, at, whole, g) && Indexed(indexed, at, whole) && Room(whole, g, pair)
    requires pair.name !in at && occurrences == |whole[pair.name]|
    ensures Entered(entries', at[pair.name := |entries|], whole, Added(g, pair))
    ensures Indexed(indexed', at[pair.name := |entries|], whole)
  {
    var slot := if occurrences == 1 then Single(pair.content) else Array(occurrences, [pair.content]);
    assert slot == Stored(Partly(whole, g, pair.name), pair.content);
    NewEntry(entries, at, whole, g, pair);
    IndexedMore(indexed, at, whole, pair.name, |entries|);
    entries' := entries + [Entry(pair.name, slot)];
    indexed' := if occurrences == 1 then indexed else indexed[pair.name := |entries|];
  }

  /** Later occurrences extend its array, which has room for them. */
  method ExtendEntry(entries: seq<Entry>, k: nat, pair: Part, ghost at: map<Text, nat>, ghost whole: Groups,
                     ghost g: Groups)
    returns (entries': seq<Entry>)
    requires Entered(entries, at, whole, g) && Room(whole, g, pair)
    requires pair.name in at && at[pair.name] == k && |whole[pair.name]| != 1
    ensures Entered(entries', at, whole, Added(g, pair))
  {
    var slot := entries[k].slot;
    assert slot == Partly(whole, g, pair.name) && |slot.items| < slot.cap;
    SameEntry(entries, at, whole, g, pair);
    entries' := entries[k := Entry(pair.name, Array(slot.cap, slot.items + [pair.content]))];
  }

  method Enter(entries: seq<Entry>, indexed: map<Text, nat>, pair: Part, occurrences: nat,
               ghost at: map<Text, nat>, ghost whole: Groups, ghost g: Groups)
    returns (entries': seq<Entry>, indexed': map<Text, nat>, ghost at': map<Text, nat>)
    requires Entered(entries, at, whole, g) && Indexed(indexed, at, whole)
    requires Room(whole, g, pair) && Within(whole, g) && occurrences == |whole[pair.name]|
    ensures Entered(entries', at', whole, Added(g, pair)) && Indexed(indexed', at', whole)
  {
    if pair.name in indexed {
      entries' := ExtendEntry(entries, indexed[pair.name], pair, at, whole, g);
      indexed', at' := indexed, at;
    } else {
      assert pair.name !in at;
      entries', indexed' := OpenEntry(entries, indexed, pair, occurrences, at, whole, g);
      at' := at[pair.name := |entries|];
    }
  }

  /** There are never more entries than keys were counted. */
  lemma {:induction false} EntriesFit(entries: seq<Entry>, keys: set<Text>)
    requires forall i, j :: 0 <= i < j < |entries| ==> entries[i].key != entries[j].key
    requires forall i :: 0 <= i < |entries| ==> entries[i].key in keys
    ensures |entries| <= |keys|
  {
    if entries != [] {
      var n := |entries| - 1;
      EntriesFit(entries[..n], keys - {entries[n].key});
    }
  }

  lemma WithinCapacity(entries: seq<Entry>, at: map<Text, nat>, bag: map<Text, nat>, whole: Groups, g: Groups)
    requires Entered(entries, at, whole, g) && Within(whole, g) && Counted(bag, whole)
    ensures |entries| <= |bag|
  {
    EntriesFit(entries, bag.Keys);
  }

  /** set_value_from_iter. */
  method SetValueFromIter(it: QueryStringIter) returns (entries: seq<Entry>)
    requires it.Valid() && it.pos == 0
    modifies it
    ensures Listed(entries, Pairs(it.separator, it.qs))
  {
    ghost var all := Pairs(it.separator, it.qs);
    assert it.qs[0..] == it.qs;
    var bag := CountKeys(it);
    it.Reset();
    ghost var at;
    entries, at := FillOnTheWay(it, bag, Absorbed(map[], all));
    EnteredAll(entries, at, all);
  }

  /** The second pass. The entries, of which none is ever taken back, do not exceed those allocated, nor
      the elements of an array its capacity. */
  method FillOnTheWay(it: QueryStringIter, bag: map<Text, nat>, ghost whole: Groups)
    returns (entries: seq<Entry>, ghost at: map<Text, nat>)
    requires it.Valid() && whole == Absorbed(map[], it.left) && Counted(bag, whole)
    modifies it
    ensures Entered(entries, at, whole, whole) && |entries| <= |bag|
  {
    ghost var g: Groups := map[];
    entries, at := [], map[];
    var indexed: map<Text, nat> := map[];
    while !it.Ended()
      invariant it.Valid() && whole == Absorbed(g, it.left) && Within(whole, g)
      invariant Entered(entries, at, whole, g) && Indexed(indexed, at, whole)
      decreases |it.left|
    {
      RoomForNext(whole, g, it.left);
      var pair := it.Current();
      entries, indexed, at := Enter(entries, indexed, pair, bag[pair.name], at, whole, g);
      g := Added(g, pair);
      it.Advance();
    }
    WithinCapacity(entries, at, bag, whole, g);
  }

  /** Each entry has a key of its own with that key's values in order, and every key has one. */
  ghost predicate Listed(entries: seq<Entry>, all: seq<Part>) {
    && (forall i, j :: 0 <= i < j < |entries| ==> entries[i].key != entries[j].key)
    && (forall i :: 0 <= i < |entries| ==> Finished(entries[i].slot) == AsField(Values(all, entries[i].key)))
    && (forall name :: Values(all, name) != [] <==> exists i :: 0 <= i < |entries| && entries[i].key == name)
  }

  lemma EnteredAll(entries: seq<Entry>, at: map<Text, nat>, all: seq<Part>)
    requires Entered(entries, at, Absorbed(map[], all), Absorbed(map[], all))
    ensures Listed(entries, all)
  {
    forall i | 0 <= i < |entries| ensures Finished(entries[i].slot) == AsField(Values(all, entries[i].key)) {
      AbsorbedIsValues(map[], all, entries[i].key);
    }
    forall name ensures Values(all, name) != [] <==> exists i :: 0 <= i < |entries| && entries[i].key == name {
      AbsorbedIsValues(map[], all, name);
      if name in at {
        assert entries[at[name]].key == name;
      }
    }
  }

  // ------------------------------------------------------------------------ agreement

  /** Over the same pairs the two builders give the same keys the same values. */
  lemma BuildersAgree(fields: map<Text, Field>, entries: seq<Entry>, all: seq<Part>)
    requires Grouped(fields, all) && Listed(entries, all)
    ensures |entries| == |fields|
    ensures forall i :: 0 <= i < |entries| ==>
              entries[i].key in fields && fields[entries[i].key] == Finished(entries[i].slot)
  {
    forall i | 0 <= i < |entries| ensures entries[i].key in fields {
      assert entries[i].key == entries[i].key;
      assert Values(all, entries[i].key) != [];
    }
    var keys := set i | 0 <= i < |entries| :: entries[i].key;
    forall name | name in fields ensures name in keys {
      var i :| 0 <= i < |entries| && entries[i].key == name;
    }
    assert keys == fields.Keys;
    DistinctCount(entries);
  }

  lemma {:induction false} DistinctCount(entries: seq<Entry>)
    requires forall i, j :: 0 <= i < j < |entries| ==> entries[i].key != entries[j].key
    ensures |set i | 0 <= i < |entries| :: entries[i].key| == |entries|
  {
    if entries != [] {
      var n := |entries| - 1;
      DistinctCount(entries[..n]);
      var some := set i | 0 <= i < n :: entries[..n][i].key;
      assert (set i | 0 <= i < |entries| :: entries[i].key) == some + {entries[n].key};
    }
  }

  /** A form body of pairs in any spelling, in any split, is parsed into each key's values in order. */
  lemma FormRoundTrip(sent: seq<SentPair>, links: seq<Text>, fields: map<Text, Field>)
    requires AreSent('&', sent) && Joined(links) == SentPairs('&', sent)
    requires Grouped(fields, Pairs('&', Joined(links)[..|Joined(links)|]))
    ensures forall name ::
              name in fields <==> exists i :: 0 <= i < |SentParts(sent)| && SentParts(sent)[i].name == name
    ensures forall name :: name in fields ==>
              var values := Values(SentParts(sent), name);
              fields[name] == if |values| == 1 then One(values[0]) else Many(values)
  {
    var parts := SentParts(sent);
    assert Joined(links)[..|Joined(links)|] == Joined(links);
    PairsRoundTrip('&', sent);
    forall name ensures name in fields <==> exists i :: 0 <= i < |parts| && parts[i].name == name {
      ValuesOfNames(parts, name);
    }
  }
}
