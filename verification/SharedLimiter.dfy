/** The token bucket that nginx workers share: the refill loop against its closed form,
    and what the lock-free compare-and-swap protocol guarantees over every interleaving. */
module SharedLimiter {
  import opened LimiterArith
  import opened RefreshSlots

  /** The pair kept in one atomic word. */
  datatype Cell = Cell(tokens: u32, lastRefresh: u32)

  /** The read-only part of the shared state. */
  datatype Config = Config(max: u32, slots: seq<nat>)

  /** What initialize_shared_state establishes; 1,000,000 is a multiple of the slot count. */
  ghost predicate Initialized(cfg: Config) {
    0 < |cfg.slots| <= 1_000_000 && cfg.slots == Slots(|cfg.slots|, cfg.max)
  }

  function Min(a: nat, b: nat): (m: nat) { if a <= b then a else b }

  /** Tokens of the slots of ticks last+1 .. tick. */
  function Elapsed(cfg: Config, last: nat, tick: nat): nat
    requires |cfg.slots| > 0
  {
    if tick <= last then 0 else WindowSum(cfg.slots, last + 1, tick - last)
  }

  lemma ElapsedSplit(cfg: Config, a: nat, b: nat, c: nat)
    requires |cfg.slots| > 0 && a <= b <= c
    ensures Elapsed(cfg, a, c) == Elapsed(cfg, a, b) + Elapsed(cfg, b, c)
  {
    WindowSplit(cfg.slots, a + 1, b - a, c - b);
  }

  /** Each tick brings the tokens of the slot with its own number, and no other. */
  lemma TickBringsItsSlot(cfg: Config, last: nat)
    requires |cfg.slots| > 0
    ensures Elapsed(cfg, last, last + 1) == cfg.slots[(last + 1) % |cfg.slots|]
  {
    SlotOfIsModulo(last + 1, |cfg.slots|);
    assert WindowSum(cfg.slots, last + 1, 0) == 0;
  }

  // ---------------------------------------------------------------- the refill

  /** What refresh() tries to install: the elapsed slots capped at the quota, added in 32 bits,
      capped again. */
  function Refilled(cfg: Config, cur: Cell, tick: u32): Cell
    requires |cfg.slots| > 0
  {
    var sum := Wrap32(cur.tokens + Min(cfg.max, Elapsed(cfg, cur.lastRefresh, tick)));
    Cell(if sum > cfg.max then cfg.max else sum, tick)
  }

  /** The rule the refill is meant to follow, over unbounded integers. */
  function IdealTokens(cfg: Config, cur: Cell, tick: u32): nat
    requires |cfg.slots| > 0
  {
    Min(cfg.max, cur.tokens + Elapsed(cfg, cur.lastRefresh, tick))
  }

  /** One more slot of a turn that has not yet gathered the quota. */
  lemma GatheredSlot(cfg: Config, last: nat, i: nat)
    requires Initialized(cfg) && 1 <= i <= |cfg.slots| + 1
    requires WindowSum(cfg.slots, last + 1, i - 1) < cfg.max
    ensures i <= |cfg.slots|
    ensures WindowSum(cfg.slots, last + 1, i)
         == WindowSum(cfg.slots, last + 1, i - 1) + cfg.slots[(last + i) % |cfg.slots|] <= cfg.max
  {
    TurnEqualsQuota(|cfg.slots|, cfg.max, last + 1);
    SlotOfIsModulo(last + i, |cfg.slots|);
    WindowMonotone(cfg.slots, last + 1, i, |cfg.slots|);
  }

  /** Stopping at the quota loses nothing against the cap. */
  lemma GatheredEnough(cfg: Config, last: nat, tick: nat, i: nat)
    requires |cfg.slots| > 0 && last < tick && 1 <= i <= tick - last + 1
    requires WindowSum(cfg.slots, last + 1, i - 1) <= cfg.max
    requires i == tick - last + 1 || WindowSum(cfg.slots, last + 1, i - 1) == cfg.max
    ensures WindowSum(cfg.slots, last + 1, i - 1) == Min(cfg.max, Elapsed(cfg, last, tick))
  {
    WindowMonotone(cfg.slots, last + 1, i - 1, tick - last);
  }

  /** The loop of refresh(): stops as soon as a whole quota has been gathered. */
  method RefillLoop(cfg: Config, cur: Cell, tick: u32) returns (next: Cell, iterations: nat)
    requires Initialized(cfg) && tick > cur.lastRefresh
    ensures next == Refilled(cfg, cur, tick)
    ensures iterations <= |cfg.slots|
  {
    var extra: u32, i: u32 := 0, 1;
    var periods: u32 := tick - cur.lastRefresh;
    while i <= periods && extra < cfg.max
      invariant 1 <= i <= periods + 1 && i <= |cfg.slots| + 1
      invariant extra == WindowSum(cfg.slots, cur.lastRefresh + 1, i - 1) <= cfg.max
      decreases |cfg.slots| + 1 - i
    {
      GatheredSlot(cfg, cur.lastRefresh, i);
      var periodIndex := (cur.lastRefresh + i) % |cfg.slots|;
      extra := extra + cfg.slots[periodIndex];
      i := i + 1;
    }
    iterations := i - 1;
    GatheredEnough(cfg, cur.lastRefresh, tick, i);
    var sum := Wrap32(cur.tokens + extra);
    next := Cell(if sum > cfg.max then cfg.max else sum, tick);
  }

  /** The 32-bit refill follows the ideal rule exactly when its one addition does not wrap. */
  lemma RefillExactly(cfg: Config, cur: Cell, tick: u32)
    requires |cfg.slots| > 0 && cur.tokens <= cfg.max
    ensures Refilled(cfg, cur, tick).tokens == IdealTokens(cfg, cur, tick)
       <==> cur.tokens + Min(cfg.max, Elapsed(cfg, cur.lastRefresh, tick)) < WRAP
  {
    var sum := cur.tokens + Min(cfg.max, Elapsed(cfg, cur.lastRefresh, tick));
    if sum >= WRAP {
      assert Wrap32(sum) == sum - WRAP < cfg.max;
    }
  }

  /** The later of two ticks. */
  function Latest(a: u32, b: u32): u32 { if a > b then a else b }

  /** What a worker that nobody disturbs finds after refresh(). */
  function Refreshed(cfg: Config, cur: Cell, tick: u32): Cell
    requires |cfg.slots| > 0
  {
    if tick > cur.lastRefresh then Refilled(cfg, cur, tick) else cur
  }

  /** The bucket is not overfull and the one addition of the refill does not wrap. */
  predicate FitsWord(cfg: Config, cur: Cell, tick: u32)
    requires |cfg.slots| > 0
  {
    cur.tokens <= cfg.max && cur.tokens + Min(cfg.max, Elapsed(cfg, cur.lastRefresh, tick)) < WRAP
  }

  lemma RefreshedIsIdeal(cfg: Config, cur: Cell, tick: u32)
    requires |cfg.slots| > 0
    ensures FitsWord(cfg, cur, tick) ==>
              Refreshed(cfg, cur, tick) == Cell(IdealTokens(cfg, cur, tick), Latest(tick, cur.lastRefresh))
  {
    if FitsWord(cfg, cur, tick) {
      RefillExactly(cfg, cur, tick);
    }
  }

  /** Refreshing at two ticks in a row is refreshing at the second, when the quota is below 2^31. */
  lemma RefillComposes(cfg: Config, cur: Cell, t1: u32, t2: u32)
    requires |cfg.slots| > 0 && cur.tokens <= cfg.max < 0x8000_0000
    requires cur.lastRefresh <= t1 <= t2
    ensures Refilled(cfg, Refilled(cfg, cur, t1), t2) == Refilled(cfg, cur, t2)
  {
    ElapsedSplit(cfg, cur.lastRefresh, t1, t2);
    RefillExactly(cfg, cur, t1);
    RefillExactly(cfg, Refilled(cfg, cur, t1), t2);
    RefillExactly(cfg, cur, t2);
  }

  const HUGE: Config := Config(0x8000_0000, [0x8000_0000])

  /** With a quota of 2^31 a full bucket that refreshes after a whole turn is emptied. */
  lemma RefillWrapsForHugeQuota()
    ensures HUGE.slots == Slots(1, HUGE.max)
    ensures Refilled(HUGE, Cell(0x8000_0000, 0), 1) == Cell(0, 1)
    ensures IdealTokens(HUGE, Cell(0x8000_0000, 0), 1) == 0x8000_0000
  {
    var cfg := HUGE;
    assert Slots(1, cfg.max) == Spread(1, cfg.max, 0, 0);
    assert WindowSum(cfg.slots, 1, 1) == WindowSum(cfg.slots, 1, 0) + cfg.slots[SlotOf(1, 1)];
    assert SlotOf(1, 1) == SlotOf(0, 1) == 0;
  }

  // ------------------------------------------------------------ the CAS protocol

  /** Where a worker stands inside allow(): before it, retrying the refill with the value it
      last saw, or retrying the decrement. */
  datatype Worker = Idle | Refreshing(tick: u32, seen: Cell) | Taking(seen: Cell)

  /** The atomic word, the workers, and the number of times allow() returned true. */
  datatype Bucket = Bucket(cell: Cell, workers: seq<Worker>, granted: nat)

  /** A relaxed load may return a stale word, so a loaded value is left unconstrained. */
  datatype Action =
    | Enter(tick: u32, loaded: Cell)
    | CasSucceeds
    | CasFails(loaded: Cell)
    | Deny

  function AfterLoad(tick: u32, loaded: Cell): Worker {
    if tick > loaded.lastRefresh then Refreshing(tick, loaded) else Taking(loaded)
  }

  /** One atomic step of one worker, possible only when the action fits where it stands. */
  ghost predicate Step(cfg: Config, b: Bucket, b': Bucket, w: nat, action: Action)
    requires |cfg.slots| > 0
  {
    && w < |b.workers|
    && match (b.workers[w], action) {
         case (Idle, Enter(tick, loaded)) =>
           b' == b.(workers := b.workers[w := AfterLoad(tick, loaded)])
         case (Refreshing(tick, seen), CasSucceeds) =>
           && seen == b.cell
           && b' == b.(cell := Refilled(cfg, seen, tick), workers := b.workers[w := Taking(Refilled(cfg, seen, tick))])
         case (Refreshing(tick, _), CasFails(loaded)) =>
           b' == b.(workers := b.workers[w := AfterLoad(tick, loaded)])
         case (Taking(seen), Deny) =>
           seen.tokens == 0 && b' == b.(workers := b.workers[w := Idle])
         case (Taking(seen), CasSucceeds) =>
           && seen == b.cell && seen.tokens > 0
           && b' == b.(cell := Cell(seen.tokens - 1, seen.lastRefresh), workers := b.workers[w := Idle],
                       granted := b.granted + 1)
         case (Taking(seen), CasFails(loaded)) =>
           seen.tokens > 0 && b' == b.(workers := b.workers[w := Taking(loaded)])
         case _ => false
       }
  }

  /** A worker retries the refill only with a tick newer than the word it holds. */
  ghost predicate Reachable(cfg: Config, b: Bucket) {
    && b.cell.tokens <= cfg.max
    && forall w :: 0 <= w < |b.workers| && b.workers[w].Refreshing?
         ==> b.workers[w].tick > b.workers[w].seen.lastRefresh
  }

  predicate Start(cfg: Config, b: Bucket, tick: u32) {
    && b.cell == Cell(cfg.max, tick) && b.granted == 0
    && forall w :: 0 <= w < |b.workers| ==> b.workers[w] == Idle
  }

  lemma StartIsReachable(cfg: Config, b: Bucket, tick: u32)
    requires Start(cfg, b, tick)
    ensures Reachable(cfg, b)
  {
  }

  /** Tokens spent and kept never exceed those there were plus those the elapsed slots added. */
  ghost predicate Bounded(cfg: Config, b: Bucket, b': Bucket)
    requires |cfg.slots| > 0
  {
    && b.cell.lastRefresh <= b'.cell.lastRefresh
    && b.granted <= b'.granted
    && b'.granted + b'.cell.tokens
       <= b.granted + b.cell.tokens + Elapsed(cfg, b.cell.lastRefresh, b'.cell.lastRefresh)
  }

  lemma StepBounded(cfg: Config, b: Bucket, b': Bucket, w: nat, action: Action)
    requires |cfg.slots| > 0 && Reachable(cfg, b) && Step(cfg, b, b', w, action)
    ensures Reachable(cfg, b') && Bounded(cfg, b, b')
  {
  }

  lemma BoundedTransitive(cfg: Config, a: Bucket, b: Bucket, c: Bucket)
    requires |cfg.slots| > 0 && Bounded(cfg, a, b) && Bounded(cfg, b, c)
    ensures Bounded(cfg, a, c)
  {
    ElapsedSplit(cfg, a.cell.lastRefresh, b.cell.lastRefresh, c.cell.lastRefresh);
  }

  ghost predicate Next(cfg: Config, b: Bucket, b': Bucket)
    requires |cfg.slots| > 0
  {
    exists w: nat, action :: Step(cfg, b, b', w, action)
  }

  lemma NextBounded(cfg: Config, b: Bucket, b': Bucket)
    requires |cfg.slots| > 0 && Reachable(cfg, b) && Next(cfg, b, b')
    ensures Reachable(cfg, b') && Bounded(cfg, b, b')
  {
    var w: nat, action :| Step(cfg, b, b', w, action);
    StepBounded(cfg, b, b', w, action);
  }

  ghost predicate Run(cfg: Config, run: seq<Bucket>)
    requires |cfg.slots| > 0
  {
    forall i :: 0 < i < |run| ==> Next(cfg, run[i - 1], run[i])
  }

  /** Over every interleaving of any number of workers, with any ticks and stale loads. */
  lemma {:induction false} RunBounded(cfg: Config, run: seq<Bucket>, i: nat, j: nat)
    requires |cfg.slots| > 0 && Run(cfg, run) && i <= j < |run|
    requires Reachable(cfg, run[i])
    ensures Reachable(cfg, run[j]) && Bounded(cfg, run[i], run[j])
    decreases j
  {
    if i < j {
      RunBounded(cfg, run, i, j - 1);
      NextBounded(cfg, run[j - 1], run[j]);
      BoundedTransitive(cfg, run[i], run[j - 1], run[j]);
    }
  }

  lemma ElapsedShare(cfg: Config, last: nat, tick: nat)
    requires Initialized(cfg) && ProductsFit(|cfg.slots|, cfg.max % |cfg.slots|) && last <= tick
    ensures Elapsed(cfg, last, tick) <= CeilDiv((tick - last) * cfg.max, |cfg.slots|)
  {
    FittingProductsSpreadEvenly(|cfg.slots|, cfg.max, last + 1, tick - last);
  }

  /** Between any two states of a run, `k` ticks apart, at most the tokens of the first plus the
      rounded-up share of `k` slots are granted, hence at most the quota plus that share. */
  lemma RateBound(cfg: Config, run: seq<Bucket>, i: nat, j: nat, tick: u32)
    requires Initialized(cfg) && ProductsFit(|cfg.slots|, cfg.max % |cfg.slots|)
    requires Run(cfg, run) && i <= j < |run| && Start(cfg, run[0], tick)
    ensures run[i].cell.lastRefresh <= run[j].cell.lastRefresh
    ensures run[i].cell.tokens <= cfg.max
    ensures run[j].granted - run[i].granted
         <= run[i].cell.tokens + CeilDiv((run[j].cell.lastRefresh - run[i].cell.lastRefresh) * cfg.max, |cfg.slots|)
  {
    StartIsReachable(cfg, run[0], tick);
    RunBounded(cfg, run, 0, i);
    RunBounded(cfg, run, i, j);
    ElapsedShare(cfg, run[i].cell.lastRefresh, run[j].cell.lastRefresh);
  }

  /** A refill that would go over the quota. */
  ghost predicate Overflows(cfg: Config, b: Bucket, b': Bucket)
    requires |cfg.slots| > 0
  {
    b.cell.tokens + Elapsed(cfg, b.cell.lastRefresh, b'.cell.lastRefresh) > cfg.max
  }

  /** Every token there was or the elapsed slots added was granted or is still there. */
  ghost predicate AllSpent(cfg: Config, b: Bucket, b': Bucket)
    requires |cfg.slots| > 0
  {
    b'.granted + b'.cell.tokens == b.granted + b.cell.tokens + Elapsed(cfg, b.cell.lastRefresh, b'.cell.lastRefresh)
  }

  ghost predicate OverflowsAt(cfg: Config, run: seq<Bucket>, k: nat)
    requires |cfg.slots| > 0 && 0 < k < |run|
  {
    Overflows(cfg, run[k - 1], run[k])
  }

  ghost predicate NeverOverflows(cfg: Config, run: seq<Bucket>, i: nat, j: nat)
    requires |cfg.slots| > 0
  {
    forall k :: i < k <= j && k < |run| ==> !OverflowsAt(cfg, run, k)
  }

  lemma StepSpends(cfg: Config, b: Bucket, b': Bucket, w: nat, action: Action)
    requires |cfg.slots| > 0 && cfg.max < 0x8000_0000 && Reachable(cfg, b) && Step(cfg, b, b', w, action)
    ensures AllSpent(cfg, b, b') <==> !Overflows(cfg, b, b')
  {
    if b.workers[w].Refreshing? && action.CasSucceeds? {
      RefillExactly(cfg, b.cell, b.workers[w].tick);
    }
  }

  lemma NextSpends(cfg: Config, b: Bucket, b': Bucket)
    requires |cfg.slots| > 0 && cfg.max < 0x8000_0000 && Reachable(cfg, b) && Next(cfg, b, b')
    ensures AllSpent(cfg, b, b') <==> !Overflows(cfg, b, b')
  {
    var w: nat, action :| Step(cfg, b, b', w, action);
    StepSpends(cfg, b, b', w, action);
  }

  lemma SpentInTwo(cfg: Config, a: Bucket, b: Bucket, c: Bucket)
    requires |cfg.slots| > 0 && Bounded(cfg, a, b) && Bounded(cfg, b, c)
    ensures AllSpent(cfg, a, c) <==> AllSpent(cfg, a, b) && AllSpent(cfg, b, c)
  {
    ElapsedSplit(cfg, a.cell.lastRefresh, b.cell.lastRefresh, c.cell.lastRefresh);
  }

  lemma NeverOverflowsMore(cfg: Config, run: seq<Bucket>, i: nat, j: nat)
    requires |cfg.slots| > 0 && i < j < |run|
    ensures NeverOverflows(cfg, run, i, j)
       <==> NeverOverflows(cfg, run, i, j - 1) && !Overflows(cfg, run[j - 1], run[j])
  {
    if !Overflows(cfg, run[j - 1], run[j]) {
      assert !OverflowsAt(cfg, run, j);
    } else {
      assert OverflowsAt(cfg, run, j);
    }
  }

  /** Over every interleaving, with a quota below 2^31: no token is lost exactly when no refill went over the
      quota in between. */
  lemma {:induction false} SpentExactly(cfg: Config, run: seq<Bucket>, i: nat, j: nat)
    requires |cfg.slots| > 0 && cfg.max < 0x8000_0000 && Run(cfg, run) && i <= j < |run| && Reachable(cfg, run[i])
    ensures AllSpent(cfg, run[i], run[j]) <==> NeverOverflows(cfg, run, i, j)
    decreases j
  {
    if i < j {
      SpentExactly(cfg, run, i, j - 1);
      RunBounded(cfg, run, i, j - 1);
      NextSpends(cfg, run[j - 1], run[j]);
      NextBounded(cfg, run[j - 1], run[j]);
      SpentInTwo(cfg, run[i], run[j - 1], run[j]);
      NeverOverflowsMore(cfg, run, i, j);
    }
  }

  /** The limiter as it is deployed has 50 slots, for which the products of the distribution always fit. */
  lemma DeployedRateBound(cfg: Config, run: seq<Bucket>, i: nat, j: nat, tick: u32)
    requires cfg.slots == Slots(50, cfg.max) && Run(cfg, run) && i <= j < |run| && Start(cfg, run[0], tick)
    ensures run[i].cell.lastRefresh <= run[j].cell.lastRefresh
    ensures run[j].granted - run[i].granted
         <= cfg.max + CeilDiv((run[j].cell.lastRefresh - run[i].cell.lastRefresh) * cfg.max, 50)
  {
    RateBound(cfg, run, i, j, tick);
  }

  // ------------------------------------------------------- the state in memory

  class LimiterState {
    var cell: Cell
    const max: u32
    const refreshAmounts: array<u32>

    function Settings(): Config
      reads refreshAmounts
    {
      Config(max, refreshAmounts[..])
    }

    constructor InitializeSharedState(slotCount: nat, maxPerMin: u32, tick: u32)
      requires 0 < slotCount <= 1_000_000
      ensures fresh(refreshAmounts) && refreshAmounts.Length == slotCount
      ensures Initialized(Settings()) && max == maxPerMin && cell == Cell(maxPerMin, tick)
    {
      cell := Cell(maxPerMin, tick);
      max := maxPerMin;
      refreshAmounts := new u32[slotCount];
      new;
      DistributeRefreshAmounts(refreshAmounts, maxPerMin);
    }

    /** compare_exchange_weak: other workers may store first, and it may fail for no reason. */
    method CompareExchange(expected: Cell, desired: Cell, pending: seq<Disturbance>)
      returns (ok: bool, seen: Cell, left: seq<Disturbance>, ghost found: Cell)
      modifies this`cell
      ensures ok ==> found == expected && cell == desired
      ensures !ok ==> cell == found == seen
      ensures pending == [] ==> left == [] && found == old(cell) && ok == (found == expected)
      ensures pending != [] ==> left == pending[1..]
    {
      left := pending;
      var spurious := false;
      if pending != [] {
        match pending[0] {
          case Stores(other) => cell := other;
          case Spurious => spurious := true;
        }
        left := pending[1..];
      }
      found := cell;
      ok := cell == expected && !spurious;
      if ok {
        cell := desired;
      }
      seen := cell;
    }

    /** allow() with its two retry loops, for any first load and any interference: everything it does to the
        word is a sequence of protocol steps of one worker among the others' stores, from a load at this tick on,
        and it takes or denies only by a word no older than the tick. Undisturbed, it grants exactly when the
        tokens there were and those of the elapsed slots, up to the quota, are at least one. */
    method Allow(tick: u32, loaded: Cell, disturbances: seq<Disturbance>)
      returns (granted: bool, ghost run: seq<Bucket>)
      requires Initialized(Settings())
      modifies this`cell
      ensures Opens(run, old(cell), tick, loaded) && Trace(Settings(), run)
      ensures run[|run| - 1] == Bucket(cell, [Idle], if granted then 1 else 0)
      ensures Rising(run) && loaded.lastRefresh <= old(cell).lastRefresh ==> NeverStale(run, tick)
      ensures disturbances == [] && loaded == old(cell) && FitsWord(Settings(), old(cell), tick) ==>
                var tokens := IdealTokens(Settings(), old(cell), tick);
                && granted == (tokens > 0)
                && cell == Cell(if granted then tokens - 1 else 0, Latest(tick, old(cell).lastRefresh))
    {
      ghost var load := Load(old(cell), tick, loaded);
      var current, pending;
      current, pending, run := Refresh(tick, loaded, disturbances);
      RefreshedIsIdeal(Settings(), old(cell), tick);
      while current.tokens > 0
        invariant Stands(Settings(), load, run, Bucket(cell, [Taking(current)], 0), current)
        invariant disturbances == [] && loaded == old(cell) ==>
                    pending == [] && current == cell == Refreshed(Settings(), old(cell), tick)
        decreases |pending|, if current == cell then 0 else 1
      {
        var ok;
        ghost var found;
        ghost var was := current;
        ok, current, pending, found := CompareExchange(current, Cell(current.tokens - 1, current.lastRefresh), pending);
        run := StandsAmid(Settings(), load, run, was, found);
        if ok {
          run := StandsOn(Settings(), load, run, was, Bucket(cell, [Idle], 1), CasSucceeds, cell);
          return true, run;
        }
        run := StandsRetrying(Settings(), load, run, was, cell);
      }
      run := StandsOn(Settings(), load, run, current, Bucket(cell, [Idle], 0), Deny, cell);
      granted := false;
    }

    method Refresh(tick: u32, loaded: Cell, disturbances: seq<Disturbance>)
      returns (current: Cell, pending: seq<Disturbance>, ghost run: seq<Bucket>)
      requires Initialized(Settings())
      modifies this`cell
      ensures Stands(Settings(), Load(old(cell), tick, loaded), run, Bucket(cell, [Taking(current)], 0), current)
      ensures disturbances == [] && loaded == old(cell) ==>
                pending == [] && current == cell == Refreshed(Settings(), old(cell), tick)
    {
      ghost var load := Load(old(cell), tick, loaded);
      current, pending := loaded, disturbances;
      run := StandsFirst(Settings(), load);
      while tick > current.lastRefresh
        invariant Stands(Settings(), load, run, Bucket(cell, [AfterLoad(tick, current)], 0), current)
        invariant disturbances == [] && loaded == old(cell) ==> pending == [] && current == cell == old(cell)
        decreases |pending|, if current == cell then 0 else 1
      {
        var next, iterations := RefillLoop(Settings(), current, tick);
        var ok;
        ghost var found;
        ghost var was := current;
        ok, current, pending, found := CompareExchange(current, next, pending);
        run := StandsAmid(Settings(), load, run, was, found);
        if ok {
          run := StandsOn(Settings(), load, run, was, Bucket(cell, [Taking(next)], 0), CasSucceeds, next);
          return next, pending, run;
        }
        ghost var b := Bucket(cell, [AfterLoad(tick, current)], 0);
        run := StandsOn(Settings(), load, run, was, b, CasFails(current), cell);
      }
    }
  }

  /** What may happen to the word before a compare-and-exchange: another worker's store, or nothing but the
      exchange fails all the same. */
  datatype Disturbance = Stores(other: Cell) | Spurious

  /** The worker comes with this tick and loads this word. */
  predicate Opens(run: seq<Bucket>, cell: Cell, tick: u32, loaded: Cell) {
    |run| >= 2 && run[0] == Bucket(cell, [Idle], 0) && run[1] == Bucket(cell, [AfterLoad(tick, loaded)], 0)
  }

  /** Every step is one of the worker's own, or others changed the word. */
  ghost predicate Trace(cfg: Config, run: seq<Bucket>)
    requires |cfg.slots| > 0
  {
    forall i :: 0 < i < |run| ==> Next(cfg, run[i - 1], run[i]) || run[i] == run[i - 1].(cell := run[i].cell)
  }

  /** The word's last refresh never goes back. */
  ghost predicate Rising(run: seq<Bucket>) {
    forall i :: 0 < i < |run| ==> run[i - 1].cell.lastRefresh <= run[i].cell.lastRefresh
  }

  /** The worker takes or denies only by a word that was refreshed at its tick or later. */
  ghost predicate NeverStale(run: seq<Bucket>, tick: u32) {
    forall i :: 0 <= i < |run| ==> FreshTaker(run[i], tick)
  }

  predicate FreshTaker(b: Bucket, tick: u32) {
    forall w :: 0 <= w < |b.workers| && b.workers[w].Taking? ==> b.workers[w].seen.lastRefresh >= tick
  }

  /** A worker that loaded a word which was there before stays behind the word, and is never stale. */
  ghost predicate Honest(run: seq<Bucket>, tick: u32, loaded: Cell, current: Cell) {
    run != [] && (Rising(run) && loaded.lastRefresh <= run[0].cell.lastRefresh ==>
                    NeverStale(run, tick) && current.lastRefresh <= run[|run| - 1].cell.lastRefresh)
  }

  lemma RisingBefore(run: seq<Bucket>, b: Bucket)
    requires run != []
    ensures Rising(run + [b]) <==> Rising(run) && run[|run| - 1].cell.lastRefresh <= b.cell.lastRefresh
  {
    var run' := run + [b];
    assert forall i :: 0 <= i < |run| ==> run'[i] == run[i];
    if Rising(run') {
      assert run'[|run| - 1].cell.lastRefresh <= run'[|run|].cell.lastRefresh;
      forall i | 0 < i < |run| ensures run[i - 1].cell.lastRefresh <= run[i].cell.lastRefresh {
        assert run'[i - 1].cell.lastRefresh <= run'[i].cell.lastRefresh;
      }
    }
  }

  lemma HonestOn(run: seq<Bucket>, tick: u32, loaded: Cell, current: Cell, b: Bucket, current': Cell)
    requires Honest(run, tick, loaded, current) && current'.lastRefresh <= b.cell.lastRefresh
    requires FreshTaker(b, tick)
    ensures Honest(run + [b], tick, loaded, current')
  {
    RisingBefore(run, b);
  }

  /** Others store: the worker stands where it stood. */
  lemma HonestAmid(run: seq<Bucket>, tick: u32, loaded: Cell, current: Cell, found: Cell)
    requires Honest(run, tick, loaded, current)
    ensures Honest(run + [run[|run| - 1].(cell := found)], tick, loaded, current)
  {
    RisingBefore(run, run[|run| - 1].(cell := found));
  }

  /** A failed exchange of a taker shows it the word there is, which is no older than the one it had. */
  lemma HonestRetry(run: seq<Bucket>, tick: u32, loaded: Cell, current: Cell, cell: Cell)
    requires Honest(run, tick, loaded, current) && run[|run| - 1] == Bucket(cell, [Taking(current)], 0)
    ensures Honest(run + [Bucket(cell, [Taking(cell)], 0)], tick, loaded, cell)
  {
    RisingBefore(run, Bucket(cell, [Taking(cell)], 0));
    if Rising(run) && loaded.lastRefresh <= run[0].cell.lastRefresh {
      assert FreshTaker(run[|run| - 1], tick) && run[|run| - 1].workers[0] == Taking(current);
    }
  }

  /** A call: the word there was, the tick and what the first load gave. */
  datatype Load = Load(cell: Cell, tick: u32, loaded: Cell)

  /** The run of a call so far, which has come to `b` with `current` in hand. */
  ghost predicate Stands(cfg: Config, load: Load, run: seq<Bucket>, b: Bucket, current: Cell)
    requires |cfg.slots| > 0
  {
    && Opens(run, load.cell, load.tick, load.loaded) && Trace(cfg, run) && run[|run| - 1] == b
    && Honest(run, load.tick, load.loaded, current)
  }

  lemma StandsFirst(cfg: Config, load: Load) returns (run: seq<Bucket>)
    requires |cfg.slots| > 0
    ensures Stands(cfg, load, run, Bucket(load.cell, [AfterLoad(load.tick, load.loaded)], 0), load.loaded)
  {
    var b0, b1 := Bucket(load.cell, [Idle], 0), Bucket(load.cell, [AfterLoad(load.tick, load.loaded)], 0);
    run := [b0, b1];
    assert Step(cfg, b0, b1, 0, Enter(load.tick, load.loaded));
    assert Next(cfg, b0, b1);
  }

  lemma TraceOn(cfg: Config, run: seq<Bucket>, b: Bucket)
    requires |cfg.slots| > 0 && run != [] && Trace(cfg, run)
    requires Next(cfg, run[|run| - 1], b) || b == run[|run| - 1].(cell := b.cell)
    ensures Trace(cfg, run + [b])
  {
  }

  /** A step of the worker's own. */
  lemma StandsOn(cfg: Config, load: Load, run: seq<Bucket>, current: Cell, b: Bucket, action: Action, current': Cell)
    returns (run': seq<Bucket>)
    requires |cfg.slots| > 0 && run != [] && Stands(cfg, load, run, run[|run| - 1], current)
    requires Step(cfg, run[|run| - 1], b, 0, action)
    requires current'.lastRefresh <= b.cell.lastRefresh && FreshTaker(b, load.tick)
    ensures Stands(cfg, load, run', b, current')
  {
    run' := run + [b];
    assert Next(cfg, run[|run| - 1], b);
    TraceOn(cfg, run, b);
    HonestOn(run, load.tick, load.loaded, current, b, current');
  }

  lemma StandsRetrying(cfg: Config, load: Load, run: seq<Bucket>, current: Cell, cell: Cell)
    returns (run': seq<Bucket>)
    requires |cfg.slots| > 0 && Stands(cfg, load, run, Bucket(cell, [Taking(current)], 0), current)
    requires current.tokens > 0
    ensures Stands(cfg, load, run', Bucket(cell, [Taking(cell)], 0), cell)
  {
    var b := Bucket(cell, [Taking(cell)], 0);
    run' := run + [b];
    assert Step(cfg, run[|run| - 1], b, 0, CasFails(cell));
    assert Next(cfg, run[|run| - 1], b);
    TraceOn(cfg, run, b);
    HonestRetry(run, load.tick, load.loaded, current, cell);
  }

  /** Others changed the word. */
  lemma StandsAmid(cfg: Config, load: Load, run: seq<Bucket>, current: Cell, found: Cell) returns (run': seq<Bucket>)
    requires |cfg.slots| > 0 && run != [] && Stands(cfg, load, run, run[|run| - 1], current)
    ensures run' != [] && Stands(cfg, load, run', run[|run| - 1].(cell := found), current)
  {
    run' := run + [run[|run| - 1].(cell := found)];
    TraceOn(cfg, run, run[|run| - 1].(cell := found));
    HonestAmid(run, load.tick, load.loaded, current, found);
  }
}
