/** When the final WAF run is started and whether it gets the response body. */
module ResponseInspection {
  import opened Basics
  import opened Chain
  import opened FilterBuffer
  import opened Stages
  import opened Interception
  import opened InterceptionRuns
  import opened StageMachine

  // ------------------------------------------------------------------ what was decided

  /** A call of the header filter that the context acts on. */
  predicate Acts(w: World, ev: Event) {
    ev.OnHeader? && ev.nextOk && (w.ctx.stage == AfterBeginWaf || w.ctx.stage == AfterOnReqWaf)
  }

  /** Whether the response that the context acted on could be parsed; `None` before there was one. */
  function Parseable(w: World, events: seq<Event>): Option<bool> {
    if events == [] then None
    else
      var n := |events| - 1;
      match Play(w, events[..n])
      case Some(before) => if Acts(before, events[n]) then Some(events[n].parseable) else Parseable(w, events[..n])
      case None => None
  }

  /** The body is wanted: it is switched on and can be parsed. */
  predicate Wants(enabled: bool, parseable: Option<bool>) {
    enabled && parseable == Some(true)
  }

  /** What follows for the context. Nothing is held and nothing decided before the header; while the body is
      collected it is neither complete nor large enough; and the final run gets a body exactly when it is wanted and
      there is any. */
  predicate Judged(enabled: bool, parseable: Option<bool>, c: Ctx) {
    && (Rank(c.stage) < Rank(CollectingOnRespData) ==> c.sendRespBody == enabled && c.out == EMPTY && parseable == None)
    && (c.stage == CollectingOnRespData ==>
          && Wants(enabled, parseable) && c.sendRespBody && Consistent(c.out)
          && !c.out.foundLast && !HasLast(c.out.out) && c.out.total < MAX_FILTER_DATA)
    && (c.stage == PendingWafEnd ==>
          && parseable.Some? && Consistent(c.out)
          && (c.sendRespBody <==> Wants(enabled, parseable) && c.out.total > 0)
          && (Wants(enabled, parseable) && c.out.total == 0 ==> c.out.foundLast))
  }

  lemma HeaderJudges(enabled: bool, parseable: Option<bool>, c: Ctx, ev: Event, e: Effect)
    requires Judged(enabled, parseable, c) && ev.OnHeader?
    requires e == HeaderFilter(c, ev.emitted, ev.nextOk, ev.parseable, ev.posted)
    ensures var acts := ev.nextOk && (c.stage == AfterBeginWaf || c.stage == AfterOnReqWaf);
            Judged(enabled, if acts then Some(ev.parseable) else parseable, e.ctx)
  {
    assert Size([]) == 0;
  }

  lemma HoldJudges(enabled: bool, parseable: Option<bool>, c: Ctx, chain: seq<Link>, posted: bool)
    requires Judged(enabled, parseable, c) && Buffering(c.stage)
    ensures Judged(enabled, parseable, HoldBody(c, chain, posted).ctx)
  {
    var held := Buffered(c.out, chain, c.out.copied < c.maxSaved);
    HeldGrows(c.out, chain, c.out.copied < c.maxSaved);
    if c.stage == CollectingOnRespData {
      CollectJudges(enabled, parseable, c, chain, posted, held);
    } else {
      PendingJudges(enabled, parseable, c, chain, posted, held);
    }
  }

  lemma HeldGrows(h: Held, chain: seq<Link>, consume: bool)
    ensures Consistent(h) ==> Consistent(Buffered(h, chain, consume))
    ensures HasLast(Buffered(h, chain, consume).out) <==> HasLast(h.out) || HasLast(chain)
    ensures chain == [] ==> Buffered(h, chain, consume) == h
  {
    SizeConcat(h.out, chain);
    LastConcat(h.out, chain);
  }

  lemma CollectJudges(enabled: bool, parseable: Option<bool>, c: Ctx, chain: seq<Link>, posted: bool, held: Held)
    requires Judged(enabled, parseable, c) && c.stage == CollectingOnRespData
    requires held == Buffered(c.out, chain, c.out.copied < c.maxSaved) && Consistent(held)
    requires HasLast(held.out) <==> HasLast(c.out.out) || HasLast(chain)
    ensures Judged(enabled, parseable, HoldBody(c, chain, posted).ctx)
  {
    assert HoldBody(c, chain, posted).ctx.out == held;
  }

  lemma PendingJudges(enabled: bool, parseable: Option<bool>, c: Ctx, chain: seq<Link>, posted: bool, held: Held)
    requires Judged(enabled, parseable, c) && c.stage == PendingWafEnd
    requires held == Buffered(c.out, chain, c.out.copied < c.maxSaved) && Consistent(held)
    requires chain == [] ==> held == c.out
    ensures Judged(enabled, parseable, HoldBody(c, chain, posted).ctx)
  {
    assert HoldBody(c, chain, posted).ctx == if Refuses(c.out, chain) then c else c.(out := held);
  }

  lemma OutputBodyJudges(enabled: bool, parseable: Option<bool>, c: Ctx, chain: seq<Link>, how: HeaderSend,
                         posted: bool)
    requires Judged(enabled, parseable, c)
    ensures Judged(enabled, parseable, OutputBodyFilter(c, chain, how, posted).ctx)
  {
    if Buffering(c.stage) {
      HoldJudges(enabled, parseable, c, chain, posted);
    } else if c.stage != WafEndBlockCommit {
      ReleaseKeeps(c, chain, how, posted);
    }
  }

  lemma ReleaseKeeps(c: Ctx, chain: seq<Link>, how: HeaderSend, posted: bool)
    requires !Buffering(c.stage) && c.stage != WafEndBlockCommit
    ensures var c' := OutputBodyFilter(c, chain, how, posted).ctx;
            c'.stage == c.stage && c'.sendRespBody == c.sendRespBody && (c.out.out == [] ==> c'.out == c.out)
  {
  }

  lemma RequestBodyJudges(enabled: bool, parseable: Option<bool>, c: Ctx, chain: seq<Link>, preread: bool, posted: bool)
    requires Judged(enabled, parseable, c)
    ensures Judged(enabled, parseable, RequestBodyFilter(c, chain, preread, posted).ctx)
  {
  }

  lemma CompletionJudges(enabled: bool, parseable: Option<bool>, w: World, k: TaskKind, alive: bool, r: BlockResponse)
    requires Staged(w) && Judged(enabled, parseable, w.ctx) && Enabled(w, Completed(k, alive, r))
    ensures Judged(enabled, parseable, After(w, Completed(k, alive, r)).ctx)
  {
    var c := Verdict(Land(w, k).ctx, k, w.flights[k].blocks).ctx;
    assert Judged(enabled, parseable, c);
    OutputBodyJudges(enabled, parseable, c, r.body, WriteFilter(Ok), true);
  }

  lemma OtherJudges(enabled: bool, parseable: Option<bool>, w: World, ev: Event)
    requires Staged(w) && Judged(enabled, parseable, w.ctx) && Enabled(w, ev)
    requires ev.OnRequestStart? || ev.ThreadBegins? || ev.ThreadEnds? || ev.ThreadThrows?
    ensures Judged(enabled, parseable, After(w, ev).ctx)
  {
  }

  lemma EventJudges(enabled: bool, parseable: Option<bool>, w: World, ev: Event)
    requires Staged(w) && Judged(enabled, parseable, w.ctx) && Enabled(w, ev)
    ensures Judged(enabled, if Acts(w, ev) then Some(ev.parseable) else parseable, After(w, ev).ctx)
  {
    match ev {
      case OnHeader(emitted, nextOk, p, posted) =>
        HeaderJudges(enabled, parseable, w.ctx, ev, HeaderFilter(w.ctx, emitted, nextOk, p, posted));
      case OnOutputBody(chain, how, posted) => OutputBodyJudges(enabled, parseable, w.ctx, chain, how, posted);
      case OnRequestBody(chain, preread, posted) =>
        RequestBodyJudges(enabled, parseable, w.ctx, chain, preread, posted);
      case Completed(k, alive, r) => CompletionJudges(enabled, parseable, w, k, alive, r);
      case _ => OtherJudges(enabled, parseable, w, ev);
    }
  }

  lemma {:induction false} RunIsJudged(enabled: bool, maxSaved: nat, events: seq<Event>, w: World)
    requires Play(Fresh(enabled, maxSaved), events) == Some(w)
    ensures Staged(w) && Judged(enabled, Parseable(Fresh(enabled, maxSaved), events), w.ctx)
  {
    RunIsStaged(enabled, maxSaved, events);
    if events != [] {
      var start, n := Fresh(enabled, maxSaved), |events| - 1;
      var before := Play(start, events[..n]).value;
      RunIsJudged(enabled, maxSaved, events[..n], before);
      EventJudges(enabled, Parseable(start, events[..n]), before, events[n]);
    }
  }

  /** In every run: while the final task is in flight it has a body to read if and only if the body is switched on,
      the response could be parsed, and there is at least one byte of it. */
  lemma BodyIsInspectedExactly(enabled: bool, maxSaved: nat, events: seq<Event>, w: World)
    requires Play(Fresh(enabled, maxSaved), events) == Some(w) && FinalWaf in w.flights
    ensures Parseable(Fresh(enabled, maxSaved), events).Some?
    ensures w.ctx.sendRespBody
       <==> enabled && Parseable(Fresh(enabled, maxSaved), events) == Some(true) && Size(w.ctx.out.out) > 0
    ensures BodySize(w.ctx) == 0 <==> !w.ctx.sendRespBody
  {
    RunIsJudged(enabled, maxSaved, events, w);
  }

  // ---------------------------------------------------------------- when the run starts

  /** The events that start the final run: a header after which no body is wanted, or the links that complete a
      wanted body or reach the limit. */
  predicate StartsFinalRun(enabled: bool, w: World, ev: Event) {
    || (Acts(w, ev) && !(enabled && ev.parseable))
    || (ev.OnOutputBody? && w.ctx.stage == CollectingOnRespData
        && (HasLast(ev.chain) || Size(w.ctx.out.out + ev.chain) >= MAX_FILTER_DATA))
  }

  lemma HeaderStarts(enabled: bool, parseable: Option<bool>, c: Ctx, ev: Event, e: Effect)
    requires Judged(enabled, parseable, c) && ev.OnHeader?
    requires e == HeaderFilter(c, ev.emitted, ev.nextOk, ev.parseable, ev.posted)
    ensures e.task == if ev.nextOk && (c.stage == AfterBeginWaf || c.stage == AfterOnReqWaf)
                         && !(enabled && ev.parseable) then Some(FinalWaf) else None
  {
  }

  lemma OutputBodyStarts(enabled: bool, parseable: Option<bool>, c: Ctx, chain: seq<Link>, how: HeaderSend,
                         posted: bool, e: Effect)
    requires Judged(enabled, parseable, c) && e == OutputBodyFilter(c, chain, how, posted)
    ensures e.task == if c.stage == CollectingOnRespData
                         && (HasLast(chain) || Size(c.out.out + chain) >= MAX_FILTER_DATA) then Some(FinalWaf) else None
  {
    SizeConcat(c.out.out, chain);
    if !Buffering(c.stage) && c.stage != WafEndBlockCommit {
      ReleaseStartsNothing(c, chain, how, posted);
    }
  }

  lemma ReleaseStartsNothing(c: Ctx, chain: seq<Link>, how: HeaderSend, posted: bool)
    requires !Buffering(c.stage) && c.stage != WafEndBlockCommit
    ensures OutputBodyFilter(c, chain, how, posted).task == None
  {
  }

  lemma CompletionStarts(enabled: bool, parseable: Option<bool>, w: World, k: TaskKind, alive: bool, r: BlockResponse)
    requires Staged(w) && Judged(enabled, parseable, w.ctx) && Enabled(w, Completed(k, alive, r))
    ensures After(w, Completed(k, alive, r)).created == w.created
  {
    var blocks := w.flights[k].blocks;
    var w1 := Commit(Land(w, k), Verdict(w.ctx, k, blocks), false);
    VerdictStarts(w, k, blocks, w1);
    if alive && blocks {
      BlockStarts(w1, r);
    }
  }

  lemma VerdictStarts(w: World, k: TaskKind, blocks: bool, w1: World)
    requires Staged(w) && k in w.flights && w.flights[k] == Ran(blocks)
    requires w1 == Commit(Land(w, k), Verdict(w.ctx, k, blocks), false)
    ensures w1.created == w.created && (blocks ==> !Buffering(w1.ctx.stage))
  {
    assert w.created + [] == w.created;
  }

  lemma BlockStarts(w: World, r: BlockResponse)
    requires !Buffering(w.ctx.stage)
    ensures SendBlock(w, r).created == w.created
  {
    if w.ctx.stage != WafEndBlockCommit {
      ReleaseStartsNothing(w.ctx, r.body, WriteFilter(Ok), true);
    }
    assert w.created + [] == w.created;
  }

  lemma OtherStarts(w: World, ev: Event)
    requires Enabled(w, ev) && !ev.OnHeader? && !ev.OnOutputBody? && !ev.Completed? && FinalWaf !in w.created
    ensures FinalWaf !in After(w, ev).created
  {
  }

  /** In every run, an event creates the final task if and only if it is one of those that start the final run. */
  lemma FinalRunStartsExactly(enabled: bool, maxSaved: nat, events: seq<Event>, w: World, ev: Event)
    requires Play(Fresh(enabled, maxSaved), events) == Some(w) && Enabled(w, ev)
    ensures FinalWaf !in w.created && FinalWaf in After(w, ev).created <==> StartsFinalRun(enabled, w, ev)
  {
    RunIsJudged(enabled, maxSaved, events, w);
    EventStarts(enabled, Parseable(Fresh(enabled, maxSaved), events), w, ev);
  }

  lemma EventStarts(enabled: bool, parseable: Option<bool>, w: World, ev: Event)
    requires Staged(w) && Judged(enabled, parseable, w.ctx) && Enabled(w, ev)
    ensures FinalWaf !in w.created && FinalWaf in After(w, ev).created <==> StartsFinalRun(enabled, w, ev)
  {
    if Rank(w.ctx.stage) < Rank(PendingWafEnd) {
      NotCreatedBefore(w, FinalWaf);
    }
    match ev {
      case OnHeader(emitted, nextOk, p, posted) =>
        HeaderStarts(enabled, parseable, w.ctx, ev, HeaderFilter(w.ctx, emitted, nextOk, p, posted));
      case OnOutputBody(chain, how, posted) =>
        OutputBodyStarts(enabled, parseable, w.ctx, chain, how, posted, OutputBodyFilter(w.ctx, chain, how, posted));
      case Completed(k, alive, r) => CompletionStarts(enabled, parseable, w, k, alive, r);
      case _ =>
        if FinalWaf !in w.created {
          OtherStarts(w, ev);
        }
    }
  }

  // ------------------------------------------------------------------ how much is saved

  /** A call that holds links returns NGX_OK exactly when it copied them, and copies nothing once the limit is
      reached. */
  lemma HoldTakesOrWaits(c: Ctx, chain: seq<Link>, how: HeaderSend, posted: bool, e: Effect)
    requires Buffering(c.stage) && !Refuses(c.out, chain) && e == OutputBodyFilter(c, chain, how, posted)
    ensures e.code == (if c.out.copied < c.maxSaved then Ok else Again)
    ensures e.ctx.out.copied == c.out.copied + (if e.code == Ok then MemorySize(chain) else 0)
    ensures e.ctx.out.out == c.out.out + chain
  {
  }

  predicate SavesAtMost(c: Ctx, maxSaved: nat, bound: nat) {
    c.maxSaved == maxSaved && (c.out.copied == 0 || c.out.copied < maxSaved + bound)
  }

  lemma OutputBodySaves(c: Ctx, maxSaved: nat, bound: nat, chain: seq<Link>, how: HeaderSend, posted: bool)
    requires SavesAtMost(c, maxSaved, bound) && (Buffering(c.stage) ==> MemorySize(chain) <= bound)
    ensures SavesAtMost(OutputBodyFilter(c, chain, how, posted).ctx, maxSaved, bound)
  {
    var c' := OutputBodyFilter(c, chain, how, posted).ctx;
    if Buffering(c.stage) {
      assert || c'.out.copied == c.out.copied
             || (c.out.copied < maxSaved && c'.out.copied == c.out.copied + MemorySize(chain));
    } else {
      ReleaseSaves(c, chain, how, posted);
    }
  }

  lemma ReleaseSaves(c: Ctx, chain: seq<Link>, how: HeaderSend, posted: bool)
    requires !Buffering(c.stage)
    ensures var c' := OutputBodyFilter(c, chain, how, posted).ctx;
            c'.maxSaved == c.maxSaved && (c'.out.copied == c.out.copied || c'.out.copied == 0)
  {
  }

  predicate BringsAtMost(ev: Event, bound: nat) {
    ev.OnOutputBody? ==> MemorySize(ev.chain) <= bound
  }

  lemma EventSaves(w: World, ev: Event, maxSaved: nat, bound: nat)
    requires Staged(w) && Enabled(w, ev) && SavesAtMost(w.ctx, maxSaved, bound) && BringsAtMost(ev, bound)
    ensures SavesAtMost(After(w, ev).ctx, maxSaved, bound)
  {
    match ev {
      case OnOutputBody(chain, how, posted) => OutputBodySaves(w.ctx, maxSaved, bound, chain, how, posted);
      case Completed(k, alive, r) => CompletionSaves(w, k, alive, r, maxSaved, bound);
      case _ => OtherSaves(w, ev, maxSaved, bound);
    }
  }

  lemma OtherSaves(w: World, ev: Event, maxSaved: nat, bound: nat)
    requires Enabled(w, ev) && SavesAtMost(w.ctx, maxSaved, bound) && !ev.OnOutputBody? && !ev.Completed?
    ensures SavesAtMost(After(w, ev).ctx, maxSaved, bound)
  {
    match ev {
      case OnRequestBody(chain, preread, posted) => RequestBodyKeepsOut(w.ctx, chain, preread, posted);
      case OnHeader(emitted, nextOk, p, posted) => HeaderKeepsOut(w.ctx, emitted, nextOk, p, posted);
      case _ =>
    }
  }

  lemma RequestBodyKeepsOut(c: Ctx, chain: seq<Link>, preread: bool, posted: bool)
    ensures var c' := RequestBodyFilter(c, chain, preread, posted).ctx; c'.out == c.out && c'.maxSaved == c.maxSaved
  {
  }

  lemma HeaderKeepsOut(c: Ctx, emitted: seq<Link>, nextOk: bool, parseable: bool, posted: bool)
    ensures var c' := HeaderFilter(c, emitted, nextOk, parseable, posted).ctx;
            c'.out == c.out && c'.maxSaved == c.maxSaved
  {
  }

  lemma CompletionSaves(w: World, k: TaskKind, alive: bool, r: BlockResponse, maxSaved: nat, bound: nat)
    requires Staged(w) && Enabled(w, Completed(k, alive, r)) && SavesAtMost(w.ctx, maxSaved, bound)
    ensures SavesAtMost(After(w, Completed(k, alive, r)).ctx, maxSaved, bound)
  {
    var c := Verdict(Land(w, k).ctx, k, w.flights[k].blocks).ctx;
    if w.flights[k].blocks {
      assert !Buffering(c.stage);
      OutputBodySaves(c, maxSaved, bound, r.body, WriteFilter(Ok), true);
    }
  }

  /** In every run, what is copied of the response stays below the limit plus one chain, whatever comes. */
  lemma {:induction false} SavedDataIsBounded(enabled: bool, maxSaved: nat, events: seq<Event>, w: World, bound: nat)
    requires Play(Fresh(enabled, maxSaved), events) == Some(w)
    requires forall i :: 0 <= i < |events| ==> BringsAtMost(events[i], bound)
    ensures SavesAtMost(w.ctx, maxSaved, bound)
  {
    if events != [] {
      var n := |events| - 1;
      var before := Play(Fresh(enabled, maxSaved), events[..n]).value;
      SavedDataIsBounded(enabled, maxSaved, events[..n], before, bound);
      RunIsStaged(enabled, maxSaved, events[..n]);
      EventSaves(before, events[n], maxSaved, bound);
    }
  }
}
