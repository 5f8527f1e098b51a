/** JSON documents as trees and as streams of parser events, and what a stream that stops early
    denotes: the tree built so far with its open containers closed. */
module JsonEvents {
  import opened Basics

  type Text = seq<byte>

  datatype Scalar = Null | Bool(b: bool) | Signed(i: int) | Unsigned(u: nat) | Double(d: real) | Str(s: Text)

  /** `Missing` stands for the value of a key that was read without its value. */
  datatype Tree = Missing | Leaf(scalar: Scalar) | Node(isMap: bool, entries: seq<Entry>)
  datatype Entry = Entry(key: Option<Text>, value: Tree)

  datatype Event = Value(scalar: Scalar) | Key(text: Text) | Start(isMap: bool) | End(isMap: bool)

  /** A whole document: every key has its value, maps have keys and arrays have none. */
  predicate Complete(t: Tree) {
    match t
    case Missing => false
    case Leaf(_) => true
    case Node(isMap, entries) =>
      forall i :: 0 <= i < |entries| ==> entries[i].key.Some? == isMap && Complete(entries[i].value)
  }

  function Events(t: Tree): seq<Event> {
    match t
    case Missing => []
    case Leaf(s) => [Value(s)]
    case Node(isMap, entries) => [Start(isMap)] + EntriesEvents(entries) + [End(isMap)]
  }

  function EntryEvents(e: Entry): seq<Event> {
    (if e.key.Some? then [Key(e.key.value)] else []) + Events(e.value)
  }

  function EntriesEvents(entries: seq<Entry>): seq<Event> {
    if entries == [] then [] else EntryEvents(entries[0]) + EntriesEvents(entries[1..])
  }

  /** The tree denoted by the first `n` events of a document. */
  function Truncated(t: Tree, n: nat): Tree
    decreases t, 1
  {
    match t
    case Missing => Missing
    case Leaf(s) => Leaf(s)
    case Node(isMap, entries) => Node(isMap, if n == 0 then [] else TruncatedEntries(entries, n - 1))
  }

  function TruncatedEntries(entries: seq<Entry>, n: nat): seq<Entry>
    decreases entries, 0
  {
    if entries == [] || n == 0 then []
    else
      var whole := |EntryEvents(entries[0])|;
      if n >= whole then [entries[0]] + TruncatedEntries(entries[1..], n - whole)
      else [TruncatedEntry(entries[0], n)]
  }

  function TruncatedEntry(e: Entry, n: nat): Entry
    decreases e, 2
  {
    if e.key.None? then Entry(None, Truncated(e.value, n))
    else if n <= 1 then Entry(e.key, Missing)
    else Entry(e.key, Truncated(e.value, n - 1))
  }

  // ---------------------------------------------------- the stack of open containers

  /** The entries of an open container so far, and whether the last one still lacks its value. An
      entry whose container is open holds an empty node until it is closed. */
  datatype Frame = Frame(entries: seq<Entry>, keyLast: bool)

  const EMPTY_STACK: seq<Frame> := [Frame([], false)]

  function Top(frames: seq<Frame>): Frame
    requires frames != []
  {
    frames[|frames| - 1]
  }

  function WithTop(frames: seq<Frame>, f: Frame): seq<Frame>
    requires frames != []
  {
    frames[|frames| - 1 := f]
  }

  /** do_get_slot: the entry waiting for its value, or a new one. */
  function Slotted(frames: seq<Frame>, forKey: bool): (r: seq<Frame>)
    requires frames != []
    ensures |r| == |frames|
  {
    var f := Top(frames);
    if f.keyLast then WithTop(frames, Frame(f.entries, false))
    else WithTop(frames, Frame(f.entries + [Entry(None, Missing)], forKey))
  }

  function SetLastValue(frames: seq<Frame>, v: Tree): (r: seq<Frame>)
    requires frames != [] && Top(frames).entries != []
    ensures |r| == |frames|
  {
    var f := Top(frames);
    var n := |f.entries| - 1;
    WithTop(frames, f.(entries := f.entries[n := f.entries[n].(value := v)]))
  }

  function SetLastKey(frames: seq<Frame>, k: Text): (r: seq<Frame>)
    requires frames != [] && Top(frames).entries != []
    ensures |r| == |frames|
  {
    var f := Top(frames);
    var n := |f.entries| - 1;
    WithTop(frames, f.(entries := f.entries[n := f.entries[n].(key := Some(k))]))
  }

  /** Between a key and its value there is an entry. */
  predicate Sound(frames: seq<Frame>) {
    && frames != []
    && (forall j :: 0 <= j < |frames| && frames[j].keyLast ==> frames[j].entries != [])
    && forall j :: 0 <= j < |frames| - 1 ==>
         frames[j].entries != [] && frames[j].entries[|frames[j].entries| - 1].value.Node?
  }

  function Put(frames: seq<Frame>, v: Tree): (r: seq<Frame>)
    requires Sound(frames)
    ensures |r| == |frames|
  {
    SetLastValue(Slotted(frames, false), v)
  }

  /** Closing the innermost container puts its entries into the entry that opened it. */
  function Popped(frames: seq<Frame>): (r: seq<Frame>)
    requires Sound(frames) && |frames| > 1
    ensures |r| == |frames| - 1
  {
    var outer := frames[..|frames| - 1];
    var entries := Top(outer).entries;
    SetLastValue(outer, Node(entries[|entries| - 1].value.isMap, Top(frames).entries))
  }

  /** What a well-formed stream may do next: one root value, keys only in containers and one at a time. */
  predicate Legal(frames: seq<Frame>, ev: Event) {
    && Sound(frames)
    && match ev
       case Value(_) => |frames| > 1 || frames[0] == Frame([], false)
       case Start(_) => |frames| > 1 || frames[0] == Frame([], false)
       case Key(_) => |frames| > 1 && !Top(frames).keyLast
       case End(_) => |frames| > 1
  }

  function Step(frames: seq<Frame>, ev: Event): seq<Frame>
    requires Legal(frames, ev)
  {
    match ev
    case Value(s) => Put(frames, Leaf(s))
    case Key(k) => SetLastKey(Slotted(frames, true), k)
    case Start(isMap) => Put(frames, Node(isMap, [])) + [Frame([], false)]
    case End(_) => Popped(frames)
  }

  lemma SoundWithTop(frames: seq<Frame>, f: Frame)
    requires Sound(frames) && (f.keyLast ==> f.entries != [])
    ensures Sound(WithTop(frames, f)) && Top(WithTop(frames, f)) == f
  {
  }

  lemma SlottedIsSound(frames: seq<Frame>, forKey: bool)
    requires Sound(frames)
    ensures Sound(Slotted(frames, forKey)) && Top(Slotted(frames, forKey)).entries != []
  {
    var f := Top(frames);
    SoundWithTop(frames, if f.keyLast then Frame(f.entries, false)
                         else Frame(f.entries + [Entry(None, Missing)], forKey));
  }

  lemma StepIsSound(frames: seq<Frame>, ev: Event)
    requires Legal(frames, ev)
    ensures Sound(Step(frames, ev))
  {
    match ev {
      case Value(s) => PutIsSound(frames, Leaf(s));
      case Key(k) =>
        SlottedIsSound(frames, true);
        var f := Top(Slotted(frames, true));
        var n := |f.entries| - 1;
        SoundWithTop(Slotted(frames, true), f.(entries := f.entries[n := f.entries[n].(key := Some(k))]));
      case Start(isMap) => FilledNode(frames, isMap, Frame([], false));
      case End(_) => PoppedIsSound(frames);
    }
  }

  predicate LegalRun(frames: seq<Frame>, events: seq<Event>)
    decreases |events|
  {
    events == [] || (Legal(frames, events[0]) && LegalRun(Step(frames, events[0]), events[1..]))
  }

  function Run(frames: seq<Frame>, events: seq<Event>): seq<Frame>
    requires LegalRun(frames, events)
    decreases |events|
  {
    if events == [] then frames else Run(Step(frames, events[0]), events[1..])
  }

  /** finish(): closes everything that is still open; the entries of the root are left. */
  function Closed(frames: seq<Frame>): seq<Entry>
    requires Sound(frames)
    decreases |frames|
  {
    if |frames| == 1 then frames[0].entries
    else
      PoppedIsSound(frames);
      Closed(Popped(frames))
  }

  lemma ClosedPops(frames: seq<Frame>)
    requires Sound(frames) && |frames| > 1
    ensures Sound(Popped(frames)) && Closed(Popped(frames)) == Closed(frames)
  {
    PoppedIsSound(frames);
  }

  lemma PoppedIsSound(frames: seq<Frame>)
    requires Sound(frames) && |frames| > 1
    ensures Sound(Popped(frames))
  {
  }

  lemma {:induction false} RunSplit(frames: seq<Frame>, a: seq<Event>, b: seq<Event>)
    ensures LegalRun(frames, a + b) <==> LegalRun(frames, a) && LegalRun(Run(frames, a), b)
    ensures LegalRun(frames, a + b) ==> Run(frames, a + b) == Run(Run(frames, a), b)
    decreases |a|
  {
    if a == [] {
      assert a + b == b;
    } else {
      assert (a + b)[1..] == a[1..] + b;
      if Legal(frames, a[0]) {
        RunSplit(Step(frames, a[0]), a[1..], b);
      }
    }
  }

  lemma {:induction false} RunIsSound(frames: seq<Frame>, events: seq<Event>)
    requires Sound(frames) && LegalRun(frames, events)
    ensures Sound(Run(frames, events))
    decreases |events|
  {
    if events != [] {
      StepIsSound(frames, events[0]);
      RunIsSound(Step(frames, events[0]), events[1..]);
    }
  }

  /** The events are legal from `frames` and lead to `end`. */
  predicate Runs(frames: seq<Frame>, events: seq<Event>, end: seq<Frame>) {
    LegalRun(frames, events) && Run(frames, events) == end
  }

  lemma RunsOn(frames: seq<Frame>, a: seq<Event>, middle: seq<Frame>, b: seq<Event>, end: seq<Frame>)
    requires Runs(frames, a, middle) && Runs(middle, b, end)
    ensures Runs(frames, a + b, end)
  {
    RunSplit(frames, a, b);
  }

  // ------------------------------------------------------------ whole documents

  /** The stack can take a value. */
  predicate Accepts(frames: seq<Frame>) {
    Sound(frames) && (|frames| > 1 || frames[0] == Frame([], false))
  }

  lemma OneEvent(frames: seq<Frame>, ev: Event)
    requires Legal(frames, ev)
    ensures Runs(frames, [ev], Step(frames, ev))
  {
    assert [ev][1..] == [];
    assert LegalRun(Step(frames, ev), []);
  }

  lemma TopOf(outer: seq<Frame>, f: Frame, g: Frame)
    ensures Top(outer + [f]) == f && WithTop(outer + [f], g) == outer + [g]
    ensures (outer + [f])[..|outer|] == outer
  {
  }

  lemma PutIn(outer: seq<Frame>, f: Frame, v: Tree)
    requires Sound(outer + [f])
    ensures f.keyLast ==> f.entries != []
    ensures f.keyLast ==>
              Put(outer + [f], v)
              == outer + [Frame(f.entries[|f.entries| - 1 := f.entries[|f.entries| - 1].(value := v)], false)]
    ensures !f.keyLast ==> Put(outer + [f], v) == outer + [Frame(f.entries + [Entry(None, v)], false)]
  {
    TopOf(outer, f, f);
    assert (outer + [f])[|outer|] == f;
    var slotted := if f.keyLast then Frame(f.entries, false) else Frame(f.entries + [Entry(None, Missing)], false);
    TopOf(outer, f, slotted);
    var n := |slotted.entries| - 1;
    var filled := slotted.(entries := slotted.entries[n := slotted.entries[n].(value := v)]);
    TopOf(outer, slotted, filled);
    if !f.keyLast {
      assert filled.entries == f.entries + [Entry(None, v)];
    }
  }

  lemma PutThenReplace(frames: seq<Frame>, v: Tree, w: Tree)
    requires Sound(frames)
    ensures Top(Put(frames, v)).entries != []
    ensures Top(Put(frames, v)).entries[|Top(Put(frames, v)).entries| - 1].value == v
    ensures SetLastValue(Put(frames, v), w) == Put(frames, w)
  {
    SlottedIsSound(frames, false);
    SetTwice(Slotted(frames, false), v, w);
  }

  lemma SetTwice(frames: seq<Frame>, v: Tree, w: Tree)
    requires frames != [] && Top(frames).entries != []
    ensures Top(SetLastValue(frames, v)).entries != []
    ensures Top(SetLastValue(frames, v)).entries[|Top(SetLastValue(frames, v)).entries| - 1].value == v
    ensures SetLastValue(SetLastValue(frames, v), w) == SetLastValue(frames, w)
  {
    var f := Top(frames);
    var n := |f.entries| - 1;
    var a := f.(entries := f.entries[n := f.entries[n].(value := v)]);
    var b := f.(entries := f.entries[n := f.entries[n].(value := w)]);
    assert a.entries[n := a.entries[n].(value := w)] == b.entries;
    assert WithTop(WithTop(frames, a), b) == WithTop(frames, b);
  }

  lemma PutIsSound(frames: seq<Frame>, v: Tree)
    requires Sound(frames)
    ensures Sound(Put(frames, v))
  {
    SlottedIsSound(frames, false);
    var f := Top(Slotted(frames, false));
    var n := |f.entries| - 1;
    SoundWithTop(Slotted(frames, false), f.(entries := f.entries[n := f.entries[n].(value := v)]));
  }

  /** Opening, filling and closing a container is putting the container. */
  lemma FilledNode(frames: seq<Frame>, isMap: bool, f: Frame)
    requires Sound(frames) && (f.keyLast ==> f.entries != [])
    ensures Sound(Put(frames, Node(isMap, [])) + [f])
    ensures Popped(Put(frames, Node(isMap, [])) + [f]) == Put(frames, Node(isMap, f.entries))
  {
    var started := Put(frames, Node(isMap, []));
    PutIsSound(frames, Node(isMap, []));
    PutThenReplace(frames, Node(isMap, []), Node(isMap, f.entries));
    TopOf(started, f, f);
    assert forall j :: 0 <= j < |started| ==> (started + [f])[j] == started[j];
  }

  lemma {:induction false} DocumentIsPut(frames: seq<Frame>, t: Tree)
    requires Accepts(frames) && Complete(t)
    ensures Runs(frames, Events(t), Put(frames, t))
    decreases t, 1
  {
    match t {
      case Leaf(s) => OneEvent(frames, Value(s));
      case Node(isMap, entries) =>
        var started := Put(frames, Node(isMap, []));
        OneEvent(frames, Start(isMap));
        FilledNode(frames, isMap, Frame([], false));
        EntriesArePut(started, [], entries, isMap);
        assert [] + entries == entries;
        NodeEvents(frames, isMap, entries);
    }
  }

  lemma NodeEvents(frames: seq<Frame>, isMap: bool, entries: seq<Entry>)
    requires Accepts(frames)
    requires Runs(Put(frames, Node(isMap, [])) + [Frame([], false)], EntriesEvents(entries),
                  Put(frames, Node(isMap, [])) + [Frame(entries, false)])
    ensures Runs(frames, Events(Node(isMap, entries)), Put(frames, Node(isMap, entries)))
  {
    var started := Put(frames, Node(isMap, []));
    var inner, end := EntriesEvents(entries), Put(frames, Node(isMap, entries));
    OneEvent(frames, Start(isMap));
    FilledNode(frames, isMap, Frame(entries, false));
    OneEvent(started + [Frame(entries, false)], End(isMap));
    RunsOn(started + [Frame([], false)], inner, started + [Frame(entries, false)], [End(isMap)], end);
    RunsOn(frames, [Start(isMap)], started + [Frame([], false)], inner + [End(isMap)], end);
    assert Events(Node(isMap, entries)) == [Start(isMap)] + (inner + [End(isMap)]);
  }

  lemma {:induction false} EntriesArePut(outer: seq<Frame>, done: seq<Entry>, entries: seq<Entry>, isMap: bool)
    requires outer != [] && Sound(outer + [Frame(done, false)])
    requires forall i :: 0 <= i < |entries| ==> entries[i].key.Some? == isMap && Complete(entries[i].value)
    ensures Runs(outer + [Frame(done, false)], EntriesEvents(entries), outer + [Frame(done + entries, false)])
    decreases entries, 0
  {
    if entries == [] {
      assert done + entries == done;
    } else {
      EntryIsPut(outer, done, entries[0], isMap);
      EntriesArePut(outer, done + [entries[0]], entries[1..], isMap);
      assert done + [entries[0]] + entries[1..] == done + entries;
      RunsOn(outer + [Frame(done, false)], EntryEvents(entries[0]), outer + [Frame(done + [entries[0]], false)],
             EntriesEvents(entries[1..]), outer + [Frame(done + entries, false)]);
    }
  }

  lemma {:induction false} EntryIsPut(outer: seq<Frame>, done: seq<Entry>, e: Entry, isMap: bool)
    requires outer != [] && Sound(outer + [Frame(done, false)])
    requires e.key.Some? == isMap && Complete(e.value)
    ensures Runs(outer + [Frame(done, false)], EntryEvents(e), outer + [Frame(done + [e], false)])
    ensures Sound(outer + [Frame(done + [e], false)])
    decreases e, 2
  {
    var frames := outer + [Frame(done, false)];
    if isMap {
      KeyStep(outer, done, e.key.value);
      var keyed := outer + [Frame(done + [Entry(e.key, Missing)], true)];
      OneEvent(frames, Key(e.key.value));
      DocumentIsPut(keyed, e.value);
      PutAfterKey(outer, done, e.key.value, e.value);
      RunsOn(frames, [Key(e.key.value)], keyed, Events(e.value), outer + [Frame(done + [e], false)]);
    } else {
      assert EntryEvents(e) == Events(e.value);
      DocumentIsPut(frames, e.value);
      assert e == Entry(None, e.value);
      PutIn(outer, Frame(done, false), e.value);
      PutIsSound(frames, e.value);
    }
  }

  lemma KeyStep(outer: seq<Frame>, done: seq<Entry>, k: Text)
    requires outer != [] && Sound(outer + [Frame(done, false)])
    ensures Legal(outer + [Frame(done, false)], Key(k))
    ensures Step(outer + [Frame(done, false)], Key(k)) == outer + [Frame(done + [Entry(Some(k), Missing)], true)]
    ensures Sound(outer + [Frame(done + [Entry(Some(k), Missing)], true)])
  {
    var slotted, keyed := Frame(done + [Entry(None, Missing)], true), Frame(done + [Entry(Some(k), Missing)], true);
    TopOf(outer, Frame(done, false), slotted);
    TopOf(outer, slotted, keyed);
    assert slotted.entries[|done| := Entry(Some(k), Missing)] == keyed.entries;
    StepIsSound(outer + [Frame(done, false)], Key(k));
  }

  lemma PutAfterKey(outer: seq<Frame>, done: seq<Entry>, k: Text, v: Tree)
    requires outer != [] && Sound(outer + [Frame(done + [Entry(Some(k), Missing)], true)])
    ensures Put(outer + [Frame(done + [Entry(Some(k), Missing)], true)], v)
         == outer + [Frame(done + [Entry(Some(k), v)], false)]
    ensures Sound(outer + [Frame(done + [Entry(Some(k), v)], false)])
  {
    var keyed := Frame(done + [Entry(Some(k), Missing)], true);
    PutIn(outer, keyed, v);
    PutIsSound(outer + [keyed], v);
    assert keyed.entries[|done| := Entry(Some(k), v)] == done + [Entry(Some(k), v)];
  }

  // ---------------------------------------------------------- truncated documents

  /** The events are legal from `frames`, and closing what they leave open gives `entries`. */
  predicate ClosesTo(frames: seq<Frame>, events: seq<Event>, entries: seq<Entry>) {
    LegalRun(frames, events) && Sound(Run(frames, events)) && Closed(Run(frames, events)) == entries
  }

  lemma ClosesOn(frames: seq<Frame>, a: seq<Event>, middle: seq<Frame>, b: seq<Event>, entries: seq<Entry>)
    requires Runs(frames, a, middle) && ClosesTo(middle, b, entries)
    ensures ClosesTo(frames, a + b, entries)
  {
    RunSplit(frames, a, b);
  }

  lemma ClosesAtOnce(frames: seq<Frame>, events: seq<Event>, end: seq<Frame>)
    requires Runs(frames, events, end) && Sound(end)
    ensures ClosesTo(frames, events, Closed(end))
  {
  }

  lemma ClosedIgnoresKey(outer: seq<Frame>, entries: seq<Entry>)
    requires outer != [] && entries != [] && Sound(outer + [Frame(entries, false)])
    ensures Sound(outer + [Frame(entries, true)])
    ensures Closed(outer + [Frame(entries, true)]) == Closed(outer + [Frame(entries, false)])
  {
    var a, b := outer + [Frame(entries, true)], outer + [Frame(entries, false)];
    assert forall j :: 0 <= j < |a| - 1 ==> a[j] == b[j];
    TopOf(outer, Frame(entries, true), Frame(entries, true));
    TopOf(outer, Frame(entries, false), Frame(entries, false));
    assert Popped(a) == Popped(b);
  }

  lemma {:induction false} NothingTruncated(entries: seq<Entry>, n: nat)
    requires n >= |EntriesEvents(entries)|
    requires forall i :: 0 <= i < |entries| ==> Complete(entries[i].value)
    ensures TruncatedEntries(entries, n) == entries
  {
    if entries != [] {
      NonEmptyEvents(entries[0].value);
      NothingTruncated(entries[1..], n - |EntryEvents(entries[0])|);
    }
  }

  lemma NonEmptyEvents(t: Tree)
    requires Complete(t)
    ensures |Events(t)| > 0
  {
  }

  /** Any prefix of a document, closed, is the document truncated. */
  lemma {:induction false} DocumentPrefix(frames: seq<Frame>, t: Tree, n: nat)
    requires Accepts(frames) && Complete(t) && 0 < n <= |Events(t)|
    ensures Sound(Put(frames, Truncated(t, n)))
    ensures ClosesTo(frames, Events(t)[..n], Closed(Put(frames, Truncated(t, n))))
    decreases t, 1
  {
    if n == |Events(t)| {
      WholePrefix(frames, t);
    } else {
      match t {
        case Leaf(_) => assert false;
        case Node(isMap, entries) =>
          CutNode(frames, isMap, entries, n - 1);
      }
    }
  }

  lemma {:induction false} CutNode(frames: seq<Frame>, isMap: bool, entries: seq<Entry>, n: nat)
    requires Accepts(frames) && n <= |EntriesEvents(entries)|
    requires forall i :: 0 <= i < |entries| ==> entries[i].key.Some? == isMap && Complete(entries[i].value)
    ensures Sound(Put(frames, Truncated(Node(isMap, entries), n + 1)))
    ensures ClosesTo(frames, Events(Node(isMap, entries))[..n + 1],
                     Closed(Put(frames, Truncated(Node(isMap, entries), n + 1))))
    decreases entries, 1
  {
    FilledNode(frames, isMap, Frame([], false));
    EntriesPrefix(Put(frames, Node(isMap, [])), [], entries, n, isMap);
    assert [] + TruncatedEntries(entries, n) == TruncatedEntries(entries, n);
    NodePrefix(frames, isMap, entries, n);
  }

  lemma WholePrefix(frames: seq<Frame>, t: Tree)
    requires Accepts(frames) && Complete(t)
    ensures Sound(Put(frames, Truncated(t, |Events(t)|)))
    ensures ClosesTo(frames, Events(t)[..|Events(t)|], Closed(Put(frames, Truncated(t, |Events(t)|))))
  {
    WholeDocument(t);
    PutIsSound(frames, t);
    DocumentIsPut(frames, t);
    assert Events(t)[..|Events(t)|] == Events(t);
    ClosesAtOnce(frames, Events(t), Put(frames, t));
  }

  lemma NodePrefix(frames: seq<Frame>, isMap: bool, entries: seq<Entry>, n: nat)
    requires Accepts(frames) && n <= |EntriesEvents(entries)|
    requires Sound(Put(frames, Node(isMap, [])) + [Frame(TruncatedEntries(entries, n), false)])
    requires ClosesTo(Put(frames, Node(isMap, [])) + [Frame([], false)], EntriesEvents(entries)[..n],
                      Closed(Put(frames, Node(isMap, [])) + [Frame(TruncatedEntries(entries, n), false)]))
    ensures Sound(Put(frames, Truncated(Node(isMap, entries), n + 1)))
    ensures ClosesTo(frames, Events(Node(isMap, entries))[..n + 1],
                     Closed(Put(frames, Truncated(Node(isMap, entries), n + 1))))
  {
    var started := Put(frames, Node(isMap, []));
    var some := TruncatedEntries(entries, n);
    var open := started + [Frame(some, false)];
    PutIsSound(frames, Node(isMap, some));
    OneEvent(frames, Start(isMap));
    FilledNode(frames, isMap, Frame(some, false));
    assert Closed(open) == Closed(Put(frames, Node(isMap, some)));
    NodeSlice(isMap, entries, n);
    ClosesOn(frames, [Start(isMap)], started + [Frame([], false)], EntriesEvents(entries)[..n], Closed(open));
  }

  lemma NodeSlice(isMap: bool, entries: seq<Entry>, n: nat)
    requires n <= |EntriesEvents(entries)|
    ensures Events(Node(isMap, entries))[..n + 1] == [Start(isMap)] + EntriesEvents(entries)[..n]
  {
    CutAfter([Start(isMap)], EntriesEvents(entries) + [End(isMap)], n + 1);
    assert Events(Node(isMap, entries)) == [Start(isMap)] + (EntriesEvents(entries) + [End(isMap)]);
    assert (EntriesEvents(entries) + [End(isMap)])[..n] == EntriesEvents(entries)[..n];
  }

  lemma {:induction false} EntriesPrefix(outer: seq<Frame>, done: seq<Entry>, entries: seq<Entry>, n: nat, isMap: bool)
    requires outer != [] && Sound(outer + [Frame(done, false)]) && n <= |EntriesEvents(entries)|
    requires forall i :: 0 <= i < |entries| ==> entries[i].key.Some? == isMap && Complete(entries[i].value)
    ensures Sound(outer + [Frame(done + TruncatedEntries(entries, n), false)])
    ensures ClosesTo(outer + [Frame(done, false)], EntriesEvents(entries)[..n],
                     Closed(outer + [Frame(done + TruncatedEntries(entries, n), false)]))
    decreases entries, 0
  {
    var frames := outer + [Frame(done, false)];
    if entries == [] || n == 0 {
      assert done + TruncatedEntries(entries, n) == done;
      assert EntriesEvents(entries)[..n] == [];
    } else {
      var first, rest := EntryEvents(entries[0]), EntriesEvents(entries[1..]);
      if n >= |first| {
        var some := TruncatedEntries(entries[1..], n - |first|);
        EntryIsPut(outer, done, entries[0], isMap);
        EntriesPrefix(outer, done + [entries[0]], entries[1..], n - |first|, isMap);
        CutAfter(first, rest, n);
        EntriesRegroup(done, entries[0], some);
        ClosesOn(frames, first, outer + [Frame(done + [entries[0]], false)], rest[..n - |first|],
                 Closed(outer + [Frame((done + [entries[0]]) + some, false)]));
      } else {
        assert (first + rest)[..n] == first[..n];
        EntryPrefix(outer, done, entries[0], n, isMap);
      }
    }
  }

  lemma CutAfter(first: seq<Event>, rest: seq<Event>, n: nat)
    requires |first| <= n <= |first| + |rest|
    ensures (first + rest)[..n] == first + rest[..n - |first|]
  {
  }

  lemma EntriesRegroup(done: seq<Entry>, e: Entry, some: seq<Entry>)
    ensures (done + [e]) + some == done + ([e] + some)
  {
  }

  lemma {:induction false} EntryPrefix(outer: seq<Frame>, done: seq<Entry>, e: Entry, n: nat, isMap: bool)
    requires outer != [] && Sound(outer + [Frame(done, false)]) && 0 < n < |EntryEvents(e)|
    requires e.key.Some? == isMap && Complete(e.value)
    ensures Sound(outer + [Frame(done + [TruncatedEntry(e, n)], false)])
    ensures ClosesTo(outer + [Frame(done, false)], EntryEvents(e)[..n],
                     Closed(outer + [Frame(done + [TruncatedEntry(e, n)], false)]))
    decreases e, 2
  {
    var frames := outer + [Frame(done, false)];
    if isMap {
      var k := e.key.value;
      var keyed := outer + [Frame(done + [Entry(Some(k), Missing)], true)];
      KeyStep(outer, done, k);
      OneEvent(frames, Key(k));
      assert EntryEvents(e)[..n] == [Key(k)] + Events(e.value)[..n - 1];
      if n == 1 {
        assert EntryEvents(e)[..n] == [Key(k)];
        SoundUnkeyed(outer, done + [Entry(Some(k), Missing)]);
        ClosedIgnoresKey(outer, done + [Entry(Some(k), Missing)]);
        ClosesAtOnce(frames, [Key(k)], keyed);
      } else {
        DocumentPrefix(keyed, e.value, n - 1);
        PutAfterKey(outer, done, k, Truncated(e.value, n - 1));
        ClosesOn(frames, [Key(k)], keyed, Events(e.value)[..n - 1],
                 Closed(Put(keyed, Truncated(e.value, n - 1))));
      }
    } else {
      assert EntryEvents(e) == Events(e.value);
      DocumentPrefix(frames, e.value, n);
      PutIn(outer, Frame(done, false), Truncated(e.value, n));
    }
  }

  lemma SoundUnkeyed(outer: seq<Frame>, entries: seq<Entry>)
    requires outer != [] && Sound(outer + [Frame(entries, true)])
    ensures Sound(outer + [Frame(entries, false)])
  {
    var a, b := outer + [Frame(entries, true)], outer + [Frame(entries, false)];
    assert forall j :: 0 <= j < |a| - 1 ==> a[j] == b[j];
  }

  /** The stream of a document, cut anywhere, leaves the truncated document at the root. */
  lemma PrefixDenotes(t: Tree, n: nat)
    requires Complete(t) && n <= |Events(t)|
    ensures ClosesTo(EMPTY_STACK, Events(t)[..n], if n == 0 then [] else [Entry(None, Truncated(t, n))])
  {
    if n == 0 {
      assert Events(t)[..n] == [];
    } else {
      DocumentPrefix(EMPTY_STACK, t, n);
      RootIsPut(Truncated(t, n));
    }
  }

  lemma RootIsPut(v: Tree)
    ensures Sound(Put(EMPTY_STACK, v)) && Closed(Put(EMPTY_STACK, v)) == [Entry(None, v)]
  {
    assert EMPTY_STACK == [] + [Frame([], false)];
    PutIn([], Frame([], false), v);
    PutIsSound(EMPTY_STACK, v);
    assert [] + [Entry(None, v)] == [Entry(None, v)];
  }

  /** A stream that is not cut denotes the document itself. */
  lemma WholeDocument(t: Tree)
    requires Complete(t)
    ensures Truncated(t, |Events(t)|) == t
  {
    if t.Node? {
      NothingTruncated(t.entries, |Events(t)| - 1);
    }
  }

  // ------------------------------------------------- what truncation means for the stream

  /** `whole` goes on from `part` with the ends of containers only. */
  ghost predicate ClosedOff(part: seq<Event>, whole: seq<Event>) {
    part <= whole && forall i :: |part| <= i < |whole| ==> whole[i].End?
  }

  lemma ClosedOffAfter(first: seq<Event>, part: seq<Event>, whole: seq<Event>)
    requires ClosedOff(part, whole)
    ensures ClosedOff(first + part, first + whole)
  {
    var a, b := first + part, first + whole;
    forall i | |a| <= i < |b| ensures b[i].End? {
      assert b[i] == whole[i - |first|];
    }
  }

  lemma ClosedOffOnce(part: seq<Event>, whole: seq<Event>, isMap: bool)
    requires ClosedOff(part, whole)
    ensures ClosedOff(part, whole + [End(isMap)])
  {
  }

  /** The truncated document is the one whose stream is that of the document up to the cut, and then only closes what
      is open: nothing read is missing from it and nothing else is in it. */
  lemma {:induction false} TruncationClosesOff(t: Tree, n: nat)
    requires Complete(t) && 0 < n <= |Events(t)|
    ensures ClosedOff(Events(t)[..n], Events(Truncated(t, n)))
    decreases t, 1
  {
    match t
    case Leaf(s) => assert Events(t)[..n] == [Value(s)];
    case Node(isMap, entries) =>
      var all := EntriesEvents(entries);
      if n - 1 <= |all| {
        EntriesCloseOff(entries, n - 1);
        NodeSlice(isMap, entries, n - 1);
        NodeClosesOff(isMap, entries, n - 1);
      } else {
        WholeDocument(t);
        assert Events(t)[..n] == Events(t);
      }
  }

  lemma NodeClosesOff(isMap: bool, entries: seq<Entry>, n: nat)
    requires n <= |EntriesEvents(entries)|
    requires ClosedOff(EntriesEvents(entries)[..n], EntriesEvents(TruncatedEntries(entries, n)))
    ensures ClosedOff([Start(isMap)] + EntriesEvents(entries)[..n], Events(Truncated(Node(isMap, entries), n + 1)))
  {
    var part, whole := EntriesEvents(entries)[..n], EntriesEvents(TruncatedEntries(entries, n));
    ClosedOffAfter([Start(isMap)], part, whole);
    ClosedOffOnce([Start(isMap)] + part, [Start(isMap)] + whole, isMap);
  }

  lemma {:induction false} EntriesCloseOff(entries: seq<Entry>, n: nat)
    requires n <= |EntriesEvents(entries)| && forall i :: 0 <= i < |entries| ==> Complete(entries[i].value)
    ensures ClosedOff(EntriesEvents(entries)[..n], EntriesEvents(TruncatedEntries(entries, n)))
    decreases entries, 0
  {
    if entries != [] && n > 0 {
      var e, rest := entries[0], entries[1..];
      var first := EntryEvents(e);
      if n >= |first| {
        EntriesCloseOff(rest, n - |first|);
        CutAfter(first, EntriesEvents(rest), n);
        var some := TruncatedEntries(rest, n - |first|);
        assert ([e] + some)[1..] == some;
        ClosedOffAfter(first, EntriesEvents(rest)[..n - |first|], EntriesEvents(some));
      } else {
        EntryClosesOff(e, n);
        assert (first + EntriesEvents(rest))[..n] == first[..n];
        var one := [TruncatedEntry(e, n)];
        assert one[1..] == [] && EntriesEvents(one) == EntryEvents(one[0]) + [];
        assert EntriesEvents(one) == EntryEvents(one[0]);
      }
    }
  }

  lemma {:induction false} EntryClosesOff(e: Entry, n: nat)
    requires Complete(e.value) && 0 < n < |EntryEvents(e)|
    ensures ClosedOff(EntryEvents(e)[..n], EntryEvents(TruncatedEntry(e, n)))
    decreases e, 2
  {
    if e.key.None? {
      assert EntryEvents(e) == Events(e.value);
      TruncationClosesOff(e.value, n);
      assert EntryEvents(TruncatedEntry(e, n)) == Events(Truncated(e.value, n));
    } else {
      var key := [Key(e.key.value)];
      CutAfter(key, Events(e.value), n);
      if n == 1 {
        assert EntryEvents(e)[..n] == key && EntryEvents(TruncatedEntry(e, n)) == key;
      } else {
        TruncationClosesOff(e.value, n - 1);
        ClosedOffAfter(key, Events(e.value)[..n - 1], Events(Truncated(e.value, n - 1)));
      }
    }
  }
}
