/** How the per-minute quota of the token bucket is spread over its refresh slots. */
module RefreshSlots {
  import opened LimiterArith

  const WRAP: nat := 0x1_0000_0000

  type u32 = x: int | 0 <= x < 0x1_0000_0000

  function Wrap32(x: nat): (w: u32)
    ensures w <= x
    ensures x < WRAP ==> w == x
  {
    x % WRAP
  }

  // ---------------------------------------------------------------- the slots

  /** Slot that receives the i-th unit of the remainder; the product is a 32-bit one. */
  function SpreadIndex(i: nat, slotCount: nat, remainder: nat): (j: nat)
    requires i < remainder < slotCount
    ensures j < slotCount
  {
    SpreadIndexInRange(i, slotCount, remainder);
    Wrap32(i * slotCount) / remainder
  }

  lemma SpreadIndexInRange(i: nat, slotCount: nat, remainder: nat)
    requires i < remainder < slotCount
    ensures Wrap32(i * slotCount) / remainder < slotCount
  {
    MulLe(i + 1, remainder, slotCount);
    assert (i + 1) * slotCount == i * slotCount + slotCount;
    assert Wrap32(i * slotCount) <= i * slotCount < slotCount * remainder;
    DivBelow(Wrap32(i * slotCount), slotCount, remainder);
  }

  /** The slots once `n` units of the remainder have been handed out. */
  function Spread(slotCount: nat, base: nat, remainder: nat, n: nat): (s: seq<nat>)
    requires n <= remainder < slotCount
    ensures |s| == slotCount
  {
    if n == 0 then seq(slotCount, _ => base)
    else
      var s := Spread(slotCount, base, remainder, n - 1);
      var j := SpreadIndex(n - 1, slotCount, remainder);
      s[j := s[j] + 1]
  }

  function Slots(slotCount: nat, max: nat): (s: seq<nat>)
    requires slotCount > 0
    ensures |s| == slotCount
  {
    Spread(slotCount, max / slotCount, max % slotCount, max % slotCount)
  }

  function PrefixSum(s: seq<nat>, x: nat): nat
    requires x <= |s|
  {
    if x == 0 then 0 else PrefixSum(s, x - 1) + s[x - 1]
  }

  lemma {:induction false} PrefixBump(s: seq<nat>, j: nat, x: nat)
    requires j < |s| && x <= |s|
    ensures PrefixSum(s[j := s[j] + 1], x) == PrefixSum(s, x) + if j < x then 1 else 0
  {
    if x > 0 {
      PrefixBump(s, j, x - 1);
    }
  }

  lemma {:induction false} PrefixConstant(n: nat, base: nat, x: nat)
    requires x <= n
    ensures PrefixSum(seq(n, _ => base), x) == base * x
  {
    if x > 0 {
      PrefixConstant(n, base, x - 1);
      assert base * x == base * (x - 1) + base;
    }
  }

  /** Units of the remainder, among the first `n`, that land in a slot before `x`. */
  function Below(slotCount: nat, remainder: nat, n: nat, x: nat): (c: nat)
    requires n <= remainder < slotCount
    ensures c <= n
  {
    if n == 0 then 0
    else Below(slotCount, remainder, n - 1, x) + if SpreadIndex(n - 1, slotCount, remainder) < x then 1 else 0
  }

  lemma {:induction false} SpreadPrefix(slotCount: nat, base: nat, remainder: nat, n: nat, x: nat)
    requires n <= remainder < slotCount && x <= slotCount
    ensures PrefixSum(Spread(slotCount, base, remainder, n), x) == base * x + Below(slotCount, remainder, n, x)
  {
    if n == 0 {
      PrefixConstant(slotCount, base, x);
    } else {
      SpreadPrefix(slotCount, base, remainder, n - 1, x);
      PrefixBump(Spread(slotCount, base, remainder, n - 1), SpreadIndex(n - 1, slotCount, remainder), x);
    }
  }

  lemma {:induction false} AllBelowEnd(slotCount: nat, remainder: nat, n: nat)
    requires n <= remainder < slotCount
    ensures Below(slotCount, remainder, n, slotCount) == n
  {
    if n > 0 {
      AllBelowEnd(slotCount, remainder, n - 1);
    }
  }

  lemma QuotaSplit(slotCount: nat, max: nat)
    requires slotCount > 0
    ensures max == (max / slotCount) * slotCount + max % slotCount
  {
  }

  lemma SpreadSum(slotCount: nat, base: nat, remainder: nat)
    requires remainder < slotCount
    ensures PrefixSum(Spread(slotCount, base, remainder, remainder), slotCount) == base * slotCount + remainder
  {
    SpreadPrefix(slotCount, base, remainder, remainder, slotCount);
    AllBelowEnd(slotCount, remainder, remainder);
  }

  /** No token is lost or invented: the slots always add up to the quota, wrapped product or not. */
  lemma SlotsSum(slotCount: nat, max: nat)
    requires slotCount > 0
    ensures PrefixSum(Slots(slotCount, max), slotCount) == max
  {
    QuotaSplit(slotCount, max);
    SpreadSum(slotCount, max / slotCount, max % slotCount);
  }

  // ------------------------------------------------- windows of elapsed slots

  /** Slot in charge of a tick: the tick modulo the number of slots. */
  function SlotOf(tick: nat, slotCount: nat): (j: nat)
    requires slotCount > 0
    ensures j < slotCount
  {
    if tick < slotCount then tick else SlotOf(tick - slotCount, slotCount)
  }

  lemma {:induction false} SlotOfIsModulo(tick: nat, slotCount: nat)
    requires slotCount > 0
    ensures SlotOf(tick, slotCount) == tick % slotCount
  {
    if tick >= slotCount {
      SlotOfIsModulo(tick - slotCount, slotCount);
      ModuloPeriodic(tick - slotCount, slotCount);
    }
  }

  lemma ModuloPeriodic(t: nat, n: nat)
    requires n > 0
    ensures (t + n) % n == t % n
  {
    var q, r := t / n, t % n;
    assert (q + 1) * n == q * n + n;
    assert t + n == (q + 1) * n + r;
    DivUnique(t + n, n, q + 1);
  }

  /** The tokens handed out by `k` consecutive slots starting at tick `a`. */
  function WindowSum(s: seq<nat>, a: nat, k: nat): nat
    requires |s| > 0
  {
    if k == 0 then 0 else WindowSum(s, a, k - 1) + s[SlotOf(a + k - 1, |s|)]
  }

  lemma {:induction false} WindowSplit(s: seq<nat>, a: nat, j: nat, k: nat)
    requires |s| > 0
    ensures WindowSum(s, a, j + k) == WindowSum(s, a, j) + WindowSum(s, a + j, k)
  {
    if k > 0 {
      WindowSplit(s, a, j, k - 1);
    }
  }

  lemma WindowMonotone(s: seq<nat>, a: nat, j: nat, k: nat)
    requires |s| > 0 && j <= k
    ensures WindowSum(s, a, j) <= WindowSum(s, a, k)
  {
    WindowSplit(s, a, j, k - j);
  }

  lemma {:induction false} WindowFromZero(s: seq<nat>, x: nat)
    requires |s| > 0 && x <= |s|
    ensures WindowSum(s, 0, x) == PrefixSum(s, x)
  {
    if x > 0 {
      WindowFromZero(s, x - 1);
    }
  }

  /** A full turn over the slots yields the same total wherever it starts. */
  lemma {:induction false} WindowFullTurn(s: seq<nat>, a: nat)
    requires |s| > 0
    ensures WindowSum(s, a, |s|) == PrefixSum(s, |s|)
  {
    if a == 0 {
      WindowFromZero(s, |s|);
    } else {
      var b := a - 1;
      WindowFullTurn(s, b);
      WindowSplit(s, b, 1, |s| - 1);
      WindowSplit(s, a, |s| - 1, 1);
      assert WindowSum(s, b, 1) == s[SlotOf(b, |s|)];
      assert WindowSum(s, b + |s|, 1) == s[SlotOf(b + |s|, |s|)];
    }
  }

  lemma TurnEqualsQuota(slotCount: nat, max: nat, a: nat)
    requires slotCount > 0
    ensures WindowSum(Slots(slotCount, max), a, slotCount) == max
  {
    WindowFullTurn(Slots(slotCount, max), a);
    SlotsSum(slotCount, max);
  }

  // ------------------------------------------------------------- even spread

  /** Every product of the distribution loop fits 32 bits. */
  predicate ProductsFit(slotCount: nat, remainder: nat) {
    remainder == 0 || (remainder - 1) * slotCount < WRAP
  }

  lemma ProductFits(i: nat, slotCount: nat, remainder: nat)
    requires slotCount > 0 && ProductsFit(slotCount, remainder) && i < remainder
    ensures Wrap32(i * slotCount) == i * slotCount
  {
    MulLe(i, remainder - 1, slotCount);
  }

  lemma IndexBefore(i: nat, slotCount: nat, remainder: nat, x: nat)
    requires 0 < remainder && 0 < slotCount
    ensures i * slotCount / remainder < x <==> i < CeilDiv(x * remainder, slotCount)
  {
    var q := i * slotCount / remainder;
    var c := CeilDiv(x * remainder, slotCount);
    assert q * remainder <= i * slotCount < q * remainder + remainder;
    assert (q + 1) * remainder == q * remainder + remainder;
    assert (c - 1) * slotCount == c * slotCount - slotCount;
    if q < x {
      MulLe(q + 1, x, remainder);
      MulLt(i, c, slotCount);
    } else {
      MulLe(x, q, remainder);
      MulLt(c - 1, i, slotCount);
    }
  }

  lemma {:induction false} BelowClosedForm(slotCount: nat, remainder: nat, n: nat, x: nat)
    requires ProductsFit(slotCount, remainder) && n <= remainder < slotCount
    ensures Below(slotCount, remainder, n, x)
         == if n <= CeilDiv(x * remainder, slotCount) then n else CeilDiv(x * remainder, slotCount)
  {
    if n > 0 {
      BelowClosedForm(slotCount, remainder, n - 1, x);
      ProductFits(n - 1, slotCount, remainder);
      IndexBefore(n - 1, slotCount, remainder, x);
    }
  }

  lemma ShareOfRemainder(slotCount: nat, remainder: nat, x: nat)
    requires x <= slotCount && slotCount > 0
    ensures CeilDiv(x * remainder, slotCount) <= remainder
  {
    assert (slotCount - x) * remainder >= 0;
    assert (slotCount - x) * remainder == remainder * slotCount - x * remainder;
    CeilDivMonotone(x * remainder, remainder * slotCount, slotCount);
    CeilDivUnique(remainder * slotCount, slotCount, remainder);
  }

  lemma ShareSplit(slotCount: nat, base: nat, remainder: nat, x: nat)
    requires slotCount > 0
    ensures CeilDiv(x * (base * slotCount + remainder), slotCount) == base * x + CeilDiv(x * remainder, slotCount)
  {
    assert x * (base * slotCount + remainder) == x * (base * slotCount) + x * remainder;
    assert x * (base * slotCount) == (base * x) * slotCount;
    CeilDivShift(x * remainder, slotCount, base * x);
  }

  /** The first `x` slots hold exactly the rounded-up share of the quota. */
  lemma SlotsPrefixClosedForm(slotCount: nat, max: nat, x: nat)
    requires slotCount > 0 && ProductsFit(slotCount, max % slotCount) && x <= slotCount
    ensures PrefixSum(Slots(slotCount, max), x) == CeilDiv(x * max, slotCount)
  {
    QuotaSplit(slotCount, max);
    SpreadPrefixClosedForm(slotCount, max / slotCount, max % slotCount, max, x);
  }

  lemma SpreadPrefixClosedForm(slotCount: nat, base: nat, remainder: nat, max: nat, x: nat)
    requires remainder < slotCount && max == base * slotCount + remainder
    requires ProductsFit(slotCount, remainder) && x <= slotCount
    ensures PrefixSum(Spread(slotCount, base, remainder, remainder), x) == CeilDiv(x * max, slotCount)
  {
    SpreadPrefix(slotCount, base, remainder, remainder, x);
    BelowClosedForm(slotCount, remainder, remainder, x);
    ShareOfRemainder(slotCount, remainder, x);
    ShareSplit(slotCount, base, remainder, x);
  }

  lemma {:induction false} SlotClosedForm(slotCount: nat, max: nat, y: nat)
    requires slotCount > 0 && ProductsFit(slotCount, max % slotCount)
    ensures Slots(slotCount, max)[SlotOf(y, slotCount)]
         == CeilDiv((y + 1) * max, slotCount) - CeilDiv(y * max, slotCount)
  {
    if y < slotCount {
      SlotsPrefixClosedForm(slotCount, max, y);
      SlotsPrefixClosedForm(slotCount, max, y + 1);
    } else {
      SlotClosedForm(slotCount, max, y - slotCount);
      TurnAdds(slotCount, max, y - slotCount);
      TurnAdds(slotCount, max, y + 1 - slotCount);
    }
  }

  lemma TurnAdds(slotCount: nat, max: nat, y: nat)
    requires slotCount > 0
    ensures CeilDiv((y + slotCount) * max, slotCount) == CeilDiv(y * max, slotCount) + max
  {
    assert (y + slotCount) * max == y * max + max * slotCount;
    CeilDivShift(y * max, slotCount, max);
  }

  lemma {:induction false} WindowClosedForm(slotCount: nat, max: nat, a: nat, k: nat)
    requires slotCount > 0 && ProductsFit(slotCount, max % slotCount)
    ensures WindowSum(Slots(slotCount, max), a, k) == CeilDiv((a + k) * max, slotCount) - CeilDiv(a * max, slotCount)
  {
    if k > 0 {
      WindowClosedForm(slotCount, max, a, k - 1);
      SlotClosedForm(slotCount, max, a + k - 1);
    }
  }

  /** Every window of `k` consecutive ticks yields the exact share, rounded down or up. */
  ghost predicate EvenlySpread(slotCount: nat, max: nat)
    requires slotCount > 0
  {
    forall a: nat, k: nat ::
      k * max / slotCount <= WindowSum(Slots(slotCount, max), a, k) <= CeilDiv(k * max, slotCount)
  }

  lemma FittingProductsSpreadEvenly(slotCount: nat, max: nat, a: nat, k: nat)
    requires slotCount > 0 && ProductsFit(slotCount, max % slotCount)
    ensures k * max / slotCount <= WindowSum(Slots(slotCount, max), a, k) <= CeilDiv(k * max, slotCount)
  {
    WindowClosedForm(slotCount, max, a, k);
    ShareDifference(slotCount, max, a, k);
  }

  lemma ShareDifference(slotCount: nat, max: nat, a: nat, k: nat)
    requires slotCount > 0
    ensures k * max / slotCount
         <= CeilDiv((a + k) * max, slotCount) - CeilDiv(a * max, slotCount)
         <= CeilDiv(k * max, slotCount)
  {
    var p, q := a * max, k * max;
    assert (a + k) * max == p + q;
    CeilDivDifference(p, q, slotCount);
  }

  /** The remainder goes to distinct slots, in increasing order. */
  lemma RemainderIndicesIncrease(slotCount: nat, remainder: nat, i: nat, j: nat)
    requires ProductsFit(slotCount, remainder)
    requires i < j < remainder < slotCount
    ensures SpreadIndex(i, slotCount, remainder) < SpreadIndex(j, slotCount, remainder)
  {
    ProductFits(i, slotCount, remainder);
    ProductFits(j, slotCount, remainder);
    var p, q := i * slotCount / remainder, j * slotCount / remainder;
    assert p * remainder <= i * slotCount;
    MulLe(i + 1, j, slotCount);
    assert (i + 1) * slotCount == i * slotCount + slotCount;
    assert j * slotCount < q * remainder + remainder;
    assert (q + 1) * remainder == q * remainder + remainder;
    assert (p + 1) * remainder == p * remainder + remainder;
    MulLt(p + 1, q + 1, remainder);
  }

  lemma {:induction false} BelowMonotone(slotCount: nat, remainder: nat, m: nat, n: nat, x: nat)
    requires m <= n <= remainder < slotCount
    ensures Below(slotCount, remainder, m, x) <= Below(slotCount, remainder, n, x)
    decreases n
  {
    if m < n {
      BelowMonotone(slotCount, remainder, m, n - 1, x);
    }
  }

  /** First unit whose product wraps: it lands at or before the slot of unit 1. */
  lemma FirstWrappedIndex(slotCount: nat, remainder: nat) returns (i: nat)
    requires remainder < slotCount < WRAP
    requires !ProductsFit(slotCount, remainder)
    ensures 1 < i < remainder
    ensures SpreadIndex(i, slotCount, remainder) <= SpreadIndex(1, slotCount, remainder)
  {
    i := CeilDiv(WRAP, slotCount);
    assert (i - 1) * slotCount == i * slotCount - slotCount;
    MulLt(1, i, slotCount);
    MulLt(i - 1, remainder - 1, slotCount);
    var w := Wrap32(i * slotCount);
    assert w == i * slotCount - WRAP < slotCount;
    var p, q := w / remainder, slotCount / remainder;
    assert p * remainder <= w;
    assert slotCount < q * remainder + remainder;
    assert (q + 1) * remainder == q * remainder + remainder;
    MulLt(p, q + 1, remainder);
    assert Wrap32(1 * slotCount) == slotCount;
  }

  /** A wrapped product piles three units into a window entitled to at most two. */
  lemma WrappedProductsPileUp(slotCount: nat, base: nat, remainder: nat, max: nat) returns (k: nat)
    requires remainder < slotCount < WRAP && !ProductsFit(slotCount, remainder)
    requires max == base * slotCount + remainder
    ensures WindowSum(Spread(slotCount, base, remainder, remainder), 0, k) > CeilDiv(k * max, slotCount)
  {
    var i := FirstWrappedIndex(slotCount, remainder);
    k := SpreadIndex(1, slotCount, remainder) + 1;
    assert Below(slotCount, remainder, 2, k) == 2 by {
      assert SpreadIndex(0, slotCount, remainder) == 0;
      assert Below(slotCount, remainder, 1, k) == 1;
    }
    BelowMonotone(slotCount, remainder, 2, i, k);
    BelowMonotone(slotCount, remainder, i + 1, remainder, k);
    SpreadPrefix(slotCount, base, remainder, remainder, k);
    WindowFromZero(Spread(slotCount, base, remainder, remainder), k);
    ShortWindowShare(slotCount, remainder, k);
    ShareSplit(slotCount, base, remainder, k);
  }

  lemma ShortWindowShare(slotCount: nat, remainder: nat, k: nat)
    requires 1 < remainder < slotCount < WRAP
    requires k == SpreadIndex(1, slotCount, remainder) + 1
    ensures CeilDiv(k * remainder, slotCount) <= 2
  {
    assert Wrap32(1 * slotCount) == slotCount;
    var q := slotCount / remainder;
    assert q * remainder <= slotCount;
    assert k * remainder == q * remainder + remainder;
    CeilDivMonotone(k * remainder, 2 * slotCount, slotCount);
    CeilDivUnique(2 * slotCount, slotCount, 2);
  }

  lemma UnevenWindow(slotCount: nat, max: nat) returns (k: nat)
    requires 0 < slotCount < WRAP && !ProductsFit(slotCount, max % slotCount)
    ensures WindowSum(Slots(slotCount, max), 0, k) > CeilDiv(k * max, slotCount)
  {
    QuotaSplit(slotCount, max);
    k := WrappedProductsPileUp(slotCount, max / slotCount, max % slotCount, max);
  }

  /** The quota is spread evenly exactly when no product of the distribution loop wraps. */
  lemma EvenSpreadExactly(slotCount: nat, max: nat)
    requires 0 < slotCount < WRAP
    ensures EvenlySpread(slotCount, max) <==> ProductsFit(slotCount, max % slotCount)
  {
    if ProductsFit(slotCount, max % slotCount) {
      forall a: nat, k: nat
        ensures k * max / slotCount <= WindowSum(Slots(slotCount, max), a, k) <= CeilDiv(k * max, slotCount)
      {
        FittingProductsSpreadEvenly(slotCount, max, a, k);
      }
    } else {
      var k := UnevenWindow(slotCount, max);
    }
  }

  // ------------------------------------------------------------ the loop itself

  method DistributeRefreshAmounts(amounts: array<u32>, max: u32)
    requires 0 < amounts.Length < WRAP
    modifies amounts
    ensures amounts[..] == Slots(amounts.Length, max)
  {
    var slotCount := amounts.Length;
    var base, remainder := max / slotCount, max % slotCount;
    UnitsFit(slotCount, max);
    HandOut(amounts, base, remainder);
  }

  method HandOut(amounts: array<u32>, base: u32, remainder: nat)
    requires remainder < amounts.Length && base + remainder < WRAP
    modifies amounts
    ensures amounts[..] == Spread(amounts.Length, base, remainder, remainder)
  {
    for j := 0 to amounts.Length
      invariant forall k :: 0 <= k < j ==> amounts[k] == base
    {
      amounts[j] := base;
    }
    assert amounts[..] == seq(amounts.Length, _ => base);
    for i := 0 to remainder
      invariant amounts[..] == Spread(amounts.Length, base, remainder, i)
      invariant forall k :: 0 <= k < amounts.Length ==> amounts[k] <= base + i
    {
      var index := SpreadIndex(i, amounts.Length, remainder);
      ghost var before := amounts[..];
      amounts[index] := amounts[index] + 1;
      assert amounts[..] == before[index := before[index] + 1];
    }
  }

  lemma UnitsFit(slotCount: nat, max: nat)
    requires slotCount > 0
    ensures max / slotCount + max % slotCount <= max
  {
    QuotaSplit(slotCount, max);
    MulLe(1, slotCount, max / slotCount + 1);
  }
}
