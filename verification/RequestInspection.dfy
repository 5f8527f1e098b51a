/** When the request body goes to the WAF, and that nothing of it gets past the filter before. */
module RequestInspection {
  import opened Basics
  import opened Chain
  import opened FilterBuffer
  import opened Stages
  import opened Interception
  import opened InterceptionRuns
  import opened StageMachine
  import opened RequestConservation
  import opened ExampleRuns

  // -------------------------------------------------------------------- what is held

  /** The size of the held chain is right, until the WAF is done its end mark is that of its links, and as long as
      more is waited for all of it was copied out of the caller's buffers. */
  ghost predicate Gathered(c: Ctx) {
    && Consistent(c.req)
    && (Rank(c.stage) <= Rank(SuspendedOnReqWaf) ==> (c.req.foundLast <==> HasLast(c.req.out)))
    && (Rank(c.stage) <= Rank(CollectingOnReqData) ==> c.req.copied == MemorySize(c.req.out))
  }

  lemma GatherOne(h: Held, chain: seq<Link>, consume: bool)
    requires Consistent(h)
    ensures Consistent(Buffered(h, chain, consume)) && Buffered(h, chain, consume).total == Size(h.out + chain)
    ensures h.copied == MemorySize(h.out) ==> Buffered(h, chain, true).copied == MemorySize(h.out + chain)
    ensures (h.foundLast <==> HasLast(h.out)) ==> (Buffered(h, chain, consume).foundLast <==> HasLast(h.out + chain))
  {
    SizeConcat(h.out, chain);
    LastConcat(h.out, chain);
  }

  lemma RequestBodyGathers(c: Ctx, chain: seq<Link>, preread: bool, posted: bool)
    requires Gathered(c)
    ensures Gathered(RequestBodyFilter(c, chain, preread, posted).ctx)
  {
    if c.stage == CollectingOnReqData {
      CollectGathers(c, chain, posted, []);
    } else if c.stage == AfterBeginWaf {
      CollectGathers(c.(stage := CollectingOnReqData), chain, posted, [CollectingOnReqData]);
      PrereadGathers(c.(stage := CollectingOnReqDataPreread), chain, [CollectingOnReqDataPreread]);
    } else if c.stage == CollectingOnReqDataPreread {
      PrereadGathers(c, chain, []);
    } else {
      LaterGathers(c, chain, preread, posted);
    }
  }

  lemma PrereadGathers(c: Ctx, chain: seq<Link>, writes: seq<Stage>)
    requires Gathered(c) && c.stage == CollectingOnReqDataPreread
    ensures Gathered(PrereadCall(c, chain, writes).ctx)
  {
    GatherOne(c.req, chain, true);
  }

  lemma LaterGathers(c: Ctx, chain: seq<Link>, preread: bool, posted: bool)
    requires Gathered(c)
    requires c.stage != AfterBeginWaf && c.stage != CollectingOnReqDataPreread && c.stage != CollectingOnReqData
    ensures Gathered(RequestBodyFilter(c, chain, preread, posted).ctx)
  {
    GatherOne(c.req, chain, false);
  }

  lemma CollectGathers(c: Ctx, chain: seq<Link>, posted: bool, writes: seq<Stage>)
    requires Gathered(c) && c.stage == CollectingOnReqData
    ensures Gathered(CollectRequest(c, chain, posted, writes).ctx)
  {
    GatherOne(c.req, chain, true);
    GatherOne(c.req, chain, false);
    CollectLeaves(c, chain, posted, writes, CollectRequest(c, chain, posted, writes).ctx);
    assert Size([]) == 0;
  }

  lemma CollectLeaves(c: Ctx, chain: seq<Link>, posted: bool, writes: seq<Stage>, c': Ctx)
    requires c.stage == CollectingOnReqData && c' == CollectRequest(c, chain, posted, writes).ctx
    ensures || c'.req == c.req
            || c'.req == Buffered(c.req, chain, true)
            || (c'.req == Buffered(c.req, chain, false) && c'.stage == SuspendedOnReqWaf)
            || (c'.req == Cleared(Buffered(c.req, chain, false)) && c'.stage == AfterOnReqWaf)
    ensures c'.req == c.req ==> Refuses(c.req, chain) || chain == [] || c'.stage != CollectingOnReqData
                                || c'.req == Buffered(c.req, chain, true)
  {
  }

  lemma EventGathers(w: World, ev: Event)
    requires Staged(w) && Gathered(w.ctx) && Enabled(w, ev)
    ensures Gathered(After(w, ev).ctx)
  {
    if ev.OnRequestBody? {
      RequestBodyGathers(w.ctx, ev.chain, ev.preread, ev.posted);
    } else {
      OthersKeepRequest(w, ev);
      EventKeepsStaged(w, ev);
      EventExtendsTrail(w, ev);
      LaterRanks(w, After(w, ev));
    }
  }

  lemma {:induction false} RunGathers(sendRespBody: bool, maxSaved: nat, events: seq<Event>, w: World)
    requires Play(Fresh(sendRespBody, maxSaved), events) == Some(w)
    ensures Staged(w) && Gathered(w.ctx)
  {
    RunIsStaged(sendRespBody, maxSaved, events);
    if events != [] {
      var n := |events| - 1;
      var before := Play(Fresh(sendRespBody, maxSaved), events[..n]).value;
      RunGathers(sendRespBody, maxSaved, events[..n], before);
      EventGathers(before, events[n]);
    }
  }

  // --------------------------------------------------------------- which call inspects

  /** The calls that decide: those while collecting, but not the one for data read along with the headers. */
  predicate Decides(s: Stage, chain: seq<Link>, preread: bool) {
    s == CollectingOnReqData || (s == AfterBeginWaf && !(chain != [] && preread))
  }

  /** The body is complete, or there is enough of it; of new links only what is in memory counts towards that. */
  predicate Enough(held: seq<Link>, chain: seq<Link>) {
    HasLast(held + chain) || Size(held) + MemorySize(chain) >= MAX_FILTER_DATA
  }

  lemma CallInspects(c: Ctx, chain: seq<Link>, preread: bool, posted: bool, e: Effect)
    requires Gathered(c) && e == RequestBodyFilter(c, chain, preread, posted) && Decides(c.stage, chain, preread)
    requires chain == [] || !HasLast(c.req.out)
    ensures e.task == if Enough(c.req.out, chain) && Size(c.req.out + chain) > 0 then Some(ReqBodyWaf) else None
    ensures e.ctx.stage
         == if !Enough(c.req.out, chain) then CollectingOnReqData
            else if e.task.Some? && posted then SuspendedOnReqWaf
            else AfterOnReqWaf
    ensures e.ctx.stage == SuspendedOnReqWaf ==> e.ctx.req.copied == c.req.copied
  {
    GatherOne(c.req, chain, true);
    GatherOne(c.req, chain, false);
    LastConcat(c.req.out, chain);
  }

  /** A call that brought `chain` to what `w` held sent the body to the WAF if and only if there is anything in it
      and it is complete or large enough, and left the stage that goes with that. */
  predicate InspectedIfDue(w: World, chain: seq<Link>, posted: bool, w': World) {
    && ReqBodyWaf !in w.created
    && (ReqBodyWaf in w'.created <==> Size(w.ctx.req.out + chain) > 0 && Enough(w.ctx.req.out, chain))
    && w'.ctx.stage == (if !Enough(w.ctx.req.out, chain) then CollectingOnReqData
                        else if ReqBodyWaf in w'.created && posted then SuspendedOnReqWaf
                        else AfterOnReqWaf)
  }

  lemma CallInspectsIfDue(w: World, chain: seq<Link>, preread: bool, posted: bool, w': World, e: Effect)
    requires Staged(w) && Gathered(w.ctx) && Decides(w.ctx.stage, chain, preread)
    requires chain == [] || !HasLast(w.ctx.req.out)
    requires e == RequestBodyFilter(w.ctx, chain, preread, posted)
    requires w'.ctx == e.ctx && forall k :: k in w'.created <==> k in w.created || e.task == Some(k)
    ensures InspectedIfDue(w, chain, posted, w')
  {
    NotCreatedBefore(w, ReqBodyWaf);
    CallInspects(w.ctx, chain, preread, posted, e);
  }

  /** In every run, a deciding call that is not refused sends the body to the WAF exactly when it is due. */
  lemma InspectedExactly(sendRespBody: bool, maxSaved: nat, events: seq<Event>, w: World, chain: seq<Link>,
                         preread: bool, posted: bool, w': World)
    requires Play(Fresh(sendRespBody, maxSaved), events) == Some(w)
    requires w' == After(w, OnRequestBody(chain, preread, posted))
    requires Decides(w.ctx.stage, chain, preread) && (chain == [] || !HasLast(w.ctx.req.out))
    ensures InspectedIfDue(w, chain, posted, w')
  {
    RunGathers(sendRespBody, maxSaved, events, w);
    var e := RequestBodyFilter(w.ctx, chain, preread, posted);
    CallCommits(w, chain, preread, posted, w', e);
    CallInspectsIfDue(w, chain, preread, posted, w', e);
  }

  lemma CallCommits(w: World, chain: seq<Link>, preread: bool, posted: bool, w': World, e: Effect)
    requires w' == After(w, OnRequestBody(chain, preread, posted))
    requires e == RequestBodyFilter(w.ctx, chain, preread, posted)
    ensures w'.ctx == e.ctx && forall k :: k in w'.created <==> k in w.created || e.task == Some(k)
  {
    CommitCreates(w.(reqIn := w.reqIn + chain), e, posted, w');
  }

  lemma CommitCreates(w: World, e: Effect, posted: bool, w': World)
    requires w' == Commit(w, e, posted)
    ensures w'.ctx == e.ctx
    ensures forall k :: k in w'.created <==> k in w.created || e.task == Some(k)
  {
  }

  /** No other call or event sends the request body to the WAF. */
  lemma OnlyDecidingCallsInspect(w: World, ev: Event)
    requires Staged(w) && Enabled(w, ev) && ReqBodyWaf !in w.created && ReqBodyWaf in After(w, ev).created
    ensures ev.OnRequestBody? && Decides(w.ctx.stage, ev.chain, ev.preread)
  {
    match ev {
      case OnRequestBody(_, _, _) =>
      case Completed(k, alive, r) => CompletionCreatesNothing(w, k, alive, r);
      case _ =>
    }
  }

  lemma CompletionCreatesNothing(w: World, k: TaskKind, alive: bool, r: BlockResponse)
    requires Enabled(w, Completed(k, alive, r))
    ensures ReqBodyWaf in After(w, Completed(k, alive, r)).created ==> ReqBodyWaf in w.created
  {
    var c := Verdict(Land(w, k).ctx, k, w.flights[k].blocks).ctx;
    OutputBodyCreatesNoRequestTask(c, r.body, WriteFilter(Ok), true);
  }

  lemma OutputBodyCreatesNoRequestTask(c: Ctx, chain: seq<Link>, how: HeaderSend, posted: bool)
    ensures OutputBodyFilter(c, chain, how, posted).task != Some(ReqBodyWaf)
  {
  }

  // --------------------------------------------------------- nothing passes uninspected

  /** The stages from the first WAF run's pass on. */
  predicate Onward(s: Stage) {
    ReqSide(s) || Past(s)
  }

  lemma {:induction false} TrailOnward(trail: seq<Stage>, i: nat, j: nat)
    requires DocumentedTrail(trail) && i <= j < |trail| && Onward(trail[i])
    ensures Onward(trail[j])
    decreases j
  {
    if i < j {
      TrailOnward(trail, i, j - 1);
      assert Documented(trail[j - 1], trail[j]);
    }
  }

  /** A body that ended without a byte in it was let pass; nothing is left of it. */
  ghost predicate PassedEmpty(w: World) {
    ReqWafDone(w.ctx.stage) && ReqBodyWaf !in w.created ==>
      w.ctx.stage == AfterOnReqWaf && w.ctx.req.out == [] && w.ctx.req.foundLast
  }

  lemma EmptyCallPasses(c: Ctx, chain: seq<Link>, preread: bool, posted: bool, e: Effect)
    requires Gathered(c) && e == RequestBodyFilter(c, chain, preread, posted)
    requires c.stage == AfterBeginWaf || c.stage == CollectingOnReqDataPreread || c.stage == CollectingOnReqData
    ensures e.task == None ==> Size(e.forwarded) == 0
    ensures e.task == None && ReqWafDone(e.ctx.stage) ==> e.ctx.req.foundLast && e.ctx.req.out == []
  {
    GatherOne(c.req, chain, true);
    GatherOne(c.req, chain, false);
    SizeConcat(c.req.out, chain);
    MemoryIsPart(chain);
  }

  /** The blocking verdict on a request body needs a task. */
  lemma BlockNeedsTask(w: World)
    requires Staged(w) && (w.ctx.stage == AfterOnReqWafBlock || w.ctx.stage == SuspendedOnReqWaf)
    ensures ReqBodyWaf in w.created
  {
    var n := |w.trail| - 1;
    assert n > 0 && Documented(w.trail[n - 1], w.trail[n]);
    assert Mark(ReqBodyWaf) in w.trail;
  }

  lemma EventPassesEmpty(w: World, ev: Event)
    requires Staged(w) && Gathered(w.ctx) && PassedEmpty(w) && Onward(w.ctx.stage) && Enabled(w, ev)
    ensures PassedEmpty(After(w, ev))
  {
    var w' := After(w, ev);
    EventKeepsStaged(w, ev);
    if ReqWafDone(w'.ctx.stage) && ReqBodyWaf !in w'.created {
      if w'.ctx.stage == AfterOnReqWafBlock {
        BlockNeedsTask(w');
      }
      if ev.OnRequestBody? {
        BodyPassesEmpty(w, ev.chain, ev.preread, ev.posted);
      } else {
        OtherPassesEmpty(w, ev);
      }
    }
  }

  lemma BodyPassesEmpty(w: World, chain: seq<Link>, preread: bool, posted: bool)
    requires Staged(w) && Gathered(w.ctx) && PassedEmpty(w) && Onward(w.ctx.stage)
    requires var w' := After(w, OnRequestBody(chain, preread, posted));
             w'.ctx.stage == AfterOnReqWaf && ReqBodyWaf !in w'.created
    ensures var w' := After(w, OnRequestBody(chain, preread, posted)); w'.ctx.req.out == [] && w'.ctx.req.foundLast
  {
    if !ReqWafDone(w.ctx.stage) && w.ctx.stage != SuspendedOnReqWaf {
      EmptyCallPasses(w.ctx, chain, preread, posted, RequestBodyFilter(w.ctx, chain, preread, posted));
    }
  }

  /** Only a completion could end the inspection, and then there was one. */
  lemma OtherPassesEmpty(w: World, ev: Event)
    requires Staged(w) && PassedEmpty(w) && Onward(w.ctx.stage) && Enabled(w, ev) && !ev.OnRequestBody?
    requires After(w, ev).ctx.stage == AfterOnReqWaf && ReqBodyWaf !in After(w, ev).created
    ensures After(w, ev).ctx.req.out == [] && After(w, ev).ctx.req.foundLast
  {
    OthersKeepRequest(w, ev);
    EventExtendsTrail(w, ev);
    EventKeepsStaged(w, ev);
    var w' := After(w, ev);
    if w.ctx.stage != AfterOnReqWaf {
      NoWayAround(w, ev);
    }
  }

  lemma NoWayAround(w: World, ev: Event)
    requires Staged(w) && Enabled(w, ev) && !ev.OnRequestBody? && w.ctx.stage != AfterOnReqWaf
    requires After(w, ev).ctx.stage == AfterOnReqWaf
    ensures ReqBodyWaf in After(w, ev).created
  {
    match ev {
      case OnOutputBody(chain, how, posted) => OutputBodyIsRegular(w.ctx, chain, how, posted);
      case Completed(k, alive, r) => NoCompletionAround(w, k, alive, r);
      case _ =>
    }
  }

  lemma NoCompletionAround(w: World, k: TaskKind, alive: bool, r: BlockResponse)
    requires Staged(w) && Enabled(w, Completed(k, alive, r)) && w.ctx.stage != AfterOnReqWaf
    requires After(w, Completed(k, alive, r)).ctx.stage == AfterOnReqWaf
    ensures k == ReqBodyWaf && ReqBodyWaf in After(w, Completed(k, alive, r)).created
  {
    var c := Verdict(Land(w, k).ctx, k, w.flights[k].blocks).ctx;
    OutputBodyIsRegular(c, r.body, WriteFilter(Ok), true);
  }

  /** A call with bytes after a body without any had ended. */
  predicate LateAt(w: World, ev: Event) {
    ev.OnRequestBody? && w.ctx.stage == AfterOnReqWaf && ReqBodyWaf !in w.created && Size(ev.chain) > 0
  }

  predicate NeverLate(w: World, events: seq<Event>) {
    events == [] ||
    var n := |events| - 1;
    NeverLate(w, events[..n]) &&
    match Play(w, events[..n])
    case None => true
    case Some(before) => !LateAt(before, events[n])
  }

  lemma EventForwards(w: World, ev: Event, w': World)
    requires Staged(w) && Gathered(w.ctx) && PassedEmpty(w) && Onward(w.ctx.stage) && Enabled(w, ev)
    requires w' == After(w, ev) && ReqBodyWaf !in w'.created && !Past(w.ctx.stage)
    ensures ReqBodyWaf !in w.created && w.reqOut <= w'.reqOut
    ensures Size(w'.reqOut) == Size(w.reqOut) + if LateAt(w, ev) then Size(ev.chain) else 0
  {
    if ev.OnRequestBody? {
      var e := RequestBodyFilter(w.ctx, ev.chain, ev.preread, ev.posted);
      SizeConcat(w.reqOut, e.forwarded);
      BodyForwards(w, ev.chain, ev.preread, ev.posted, e);
    } else {
      OthersKeepRequest(w, ev);
    }
  }

  lemma BodyForwards(w: World, chain: seq<Link>, preread: bool, posted: bool, e: Effect)
    requires Staged(w) && Gathered(w.ctx) && PassedEmpty(w) && Onward(w.ctx.stage) && !Past(w.ctx.stage)
    requires e == RequestBodyFilter(w.ctx, chain, preread, posted) && ReqBodyWaf !in w.created
    requires e.task != Some(ReqBodyWaf)
    ensures Size(e.forwarded) == if w.ctx.stage == AfterOnReqWaf then Size(chain) else 0
  {
    if w.ctx.stage == SuspendedOnReqWaf || w.ctx.stage == AfterOnReqWafBlock {
      BlockNeedsTask(w);
      assert false;
    } else if w.ctx.stage == AfterOnReqWaf {
      assert e.forwarded == chain;
    } else {
      RequestBodyIsRegular(w.ctx, chain, preread, posted);
      EmptyCallPasses(w.ctx, chain, preread, posted, e);
    }
  }

  // ------------------------------------------------------------------- over the run

  /** What holds from the moment on at which the first run let the request pass. */
  ghost predicate Watched(w: World) {
    Staged(w) && Gathered(w.ctx) && PassedEmpty(w) && Onward(w.ctx.stage)
  }

  lemma EventWatched(w: World, ev: Event)
    requires Watched(w) && Enabled(w, ev)
    ensures Watched(After(w, ev))
  {
    EventKeepsStaged(w, ev);
    EventGathers(w, ev);
    EventPassesEmpty(w, ev);
    EventExtendsTrail(w, ev);
    StaysOnward(w, After(w, ev));
  }

  lemma StaysOnward(w: World, w': World)
    requires Staged(w) && Staged(w') && w.trail <= w'.trail && Onward(w.ctx.stage)
    ensures Onward(w'.ctx.stage)
  {
    TrailOnward(w'.trail, |w.trail| - 1, |w'.trail| - 1);
  }

  lemma {:induction false} RunWatched(w0: World, events: seq<Event>, w: World)
    requires Watched(w0) && Play(w0, events) == Some(w)
    ensures Watched(w)
  {
    if events != [] {
      var n := |events| - 1;
      var before := Play(w0, events[..n]).value;
      RunWatched(w0, events[..n], before);
      EventWatched(before, events[n]);
    }
  }

  /** From there on, as long as the body did not go to the WAF and the header filter did not move the stage, no
      byte is forwarded, if and only if no call brings bytes after a body without any had ended. */
  lemma {:induction false} UninspectedExactly(w0: World, events: seq<Event>, w: World)
    requires Watched(w0) && Play(w0, events) == Some(w) && ReqBodyWaf !in w.created && !Past(w.ctx.stage)
    ensures w0.reqOut <= w.reqOut && Size(w0.reqOut) <= Size(w.reqOut)
    ensures Size(w.reqOut) == Size(w0.reqOut) <==> NeverLate(w0, events)
  {
    if events != [] {
      var n := |events| - 1;
      var before := Play(w0, events[..n]).value;
      RunWatched(w0, events[..n], before);
      if Past(before.ctx.stage) {
        PastStays(before, events[n], w);
      }
      EventForwards(before, events[n], w);
      UninspectedExactly(w0, events[..n], before);
    }
  }

  // ------------------------------------------------------------ for a body that ends once

  /** No byte comes after a link that ends the body. */
  predicate EndsOnce(chain: seq<Link>) {
    forall i, j :: 0 <= i < j < |chain| && chain[i].last ==> chain[j].bytes == []
  }

  lemma {:induction false} SomeBytes(chain: seq<Link>) returns (j: nat)
    requires Size(chain) > 0
    ensures j < |chain| && chain[j].bytes != []
  {
    if chain[0].bytes != [] {
      j := 0;
    } else {
      j := SomeBytes(chain[1..]);
      j := j + 1;
    }
  }

  /** The end mark was seen on some link. */
  ghost predicate EndWasReceived(w: World) {
    w.ctx.req.foundLast ==> HasLast(w.reqIn)
  }

  lemma EventReceivesEnd(w: World, ev: Event)
    requires EndWasReceived(w) && Enabled(w, ev)
    ensures EndWasReceived(After(w, ev)) && w.reqIn <= After(w, ev).reqIn
  {
    if ev.OnRequestBody? {
      LastConcat(w.reqIn, ev.chain);
      FilterFindsEnd(w.ctx, ev.chain, ev.preread, ev.posted);
    } else {
      OthersKeepRequest(w, ev);
    }
  }

  lemma FilterFindsEnd(c: Ctx, chain: seq<Link>, preread: bool, posted: bool)
    ensures RequestBodyFilter(c, chain, preread, posted).ctx.req.foundLast ==> c.req.foundLast || HasLast(chain)
  {
  }

  lemma LateIsAfterEnd(w: World, ev: Event)
    requires PassedEmpty(w) && EndWasReceived(w) && LateAt(w, ev)
    ensures !EndsOnce(w.reqIn + ev.chain)
  {
    var all := w.reqIn + ev.chain;
    var i :| 0 <= i < |w.reqIn| && w.reqIn[i].last;
    var j := SomeBytes(ev.chain);
    assert all[i].last && all[|w.reqIn| + j].bytes != [];
  }

  lemma EndsOnceBefore(a: seq<Link>, b: seq<Link>)
    requires a <= b && EndsOnce(b)
    ensures EndsOnce(a)
  {
    assert forall i :: 0 <= i < |a| ==> a[i] == b[i];
  }

  lemma {:induction false} EndsOnceIsNeverLate(w0: World, events: seq<Event>, w: World)
    requires Watched(w0) && EndWasReceived(w0) && Play(w0, events) == Some(w) && EndsOnce(w.reqIn)
    ensures NeverLate(w0, events) && EndWasReceived(w)
  {
    if events != [] {
      var n := |events| - 1;
      var before := Play(w0, events[..n]).value;
      RunReceives(w0, events[..n], before);
      EventReceivesEnd(before, events[n]);
      EndsOnceBefore(before.reqIn, w.reqIn);
      EndsOnceIsNeverLate(w0, events[..n], before);
      RunWatched(w0, events[..n], before);
      if LateAt(before, events[n]) {
        LateIsAfterEnd(before, events[n]);
      }
    }
  }

  lemma {:induction false} RunReceives(w0: World, events: seq<Event>, w: World)
    requires EndWasReceived(w0) && Play(w0, events) == Some(w)
    ensures EndWasReceived(w)
  {
    if events != [] {
      var n := |events| - 1;
      var before := Play(w0, events[..n]).value;
      RunReceives(w0, events[..n], before);
      EventReceivesEnd(before, events[n]);
    }
  }

  /** The stage at which the first run has let the request pass is never just passed through. */
  lemma BeginIsSeen(w: World, ev: Event)
    requires Staged(w) && Enabled(w, ev) && AfterBeginWaf in After(w, ev).trail && AfterBeginWaf !in w.trail
    ensures After(w, ev).ctx.stage == AfterBeginWaf
  {
    match ev {
      case OnRequestBody(chain, preread, posted) => RequestBodyWritesNoBegin(w.ctx, chain, preread, posted);
      case OnOutputBody(chain, how, posted) => OutputBodyWritesNoBegin(w.ctx, chain, how, posted);
      case OnHeader(emitted, nextOk, parseable, posted) =>
        HeaderWritesNoBegin(w.ctx, emitted, nextOk, parseable, posted);
      case Completed(k, alive, r) => CompletionWritesNoBegin(w, k, alive, r);
      case _ => ThreadBeginIsSeen(w, ev);
    }
  }

  lemma ThreadBeginIsSeen(w: World, ev: Event)
    requires Enabled(w, ev) && AfterBeginWaf in After(w, ev).trail && AfterBeginWaf !in w.trail
    requires ev.OnRequestStart? || ev.ThreadBegins? || ev.ThreadEnds? || ev.ThreadThrows?
    ensures After(w, ev).ctx.stage == AfterBeginWaf
  {
  }

  lemma RequestBodyWritesNoBegin(c: Ctx, chain: seq<Link>, preread: bool, posted: bool)
    ensures AfterBeginWaf !in RequestBodyFilter(c, chain, preread, posted).writes
  {
  }

  lemma HeaderWritesNoBegin(c: Ctx, emitted: seq<Link>, nextOk: bool, parseable: bool, posted: bool)
    ensures AfterBeginWaf !in HeaderFilter(c, emitted, nextOk, parseable, posted).writes
  {
  }

  lemma CompletionWritesNoBegin(w: World, k: TaskKind, alive: bool, r: BlockResponse)
    requires Enabled(w, Completed(k, alive, r)) && AfterBeginWaf !in w.trail
    ensures AfterBeginWaf !in After(w, Completed(k, alive, r)).trail
  {
    var c := Verdict(Land(w, k).ctx, k, w.flights[k].blocks).ctx;
    OutputBodyWritesNoBegin(c, r.body, WriteFilter(Ok), true);
  }

  lemma OutputBodyWritesNoBegin(c: Ctx, chain: seq<Link>, how: HeaderSend, posted: bool)
    ensures AfterBeginWaf !in OutputBodyFilter(c, chain, how, posted).writes
  {
  }

  /** Where the run stood when the first run had let the request pass, and how it went on. */
  ghost predicate BeginsAt(start: World, events: seq<Event>, w: World, n: nat, w0: World) {
    && n <= |events| && Play(start, events[..n]) == Some(w0) && w0.ctx.stage == AfterBeginWaf
    && Play(w0, events[n..]) == Some(w)
  }

  lemma {:induction false} BeginOfRun(sendRespBody: bool, maxSaved: nat, events: seq<Event>, w: World)
    returns (n: nat, w0: World)
    requires Play(Fresh(sendRespBody, maxSaved), events) == Some(w) && AfterBeginWaf in w.trail
    ensures BeginsAt(Fresh(sendRespBody, maxSaved), events, w, n, w0)
  {
    var start, last := Fresh(sendRespBody, maxSaved), |events| - 1;
    var before := Play(start, events[..last]).value;
    if AfterBeginWaf in before.trail {
      n, w0 := BeginOfRun(sendRespBody, maxSaved, events[..last], before);
      BeganBefore(start, events[..last], before, events[last], events, w, n, w0);
    } else {
      RunIsStaged(sendRespBody, maxSaved, events[..last]);
      BeginIsSeen(before, events[last]);
      n, w0 := |events|, w;
      BeginsNow(start, events, w);
    }
  }

  lemma BeginsNow(start: World, events: seq<Event>, w: World)
    requires Play(start, events) == Some(w) && w.ctx.stage == AfterBeginWaf
    ensures BeginsAt(start, events, w, |events|, w)
  {
    assert events[..|events|] == events && events[|events|..] == [];
  }

  lemma BeganBefore(start: World, init: seq<Event>, before: World, ev: Event, events: seq<Event>, w: World, n: nat,
                    w0: World)
    requires events == init + [ev] && BeginsAt(start, init, before, n, w0)
    requires Enabled(before, ev) && w == After(before, ev)
    ensures BeginsAt(start, events, w, n, w0)
  {
    assert init[..n] == events[..n];
    Extended(w0, init[n..], before, ev, w);
    assert events[n..] == init[n..] + [ev];
  }

  lemma CollectingAfterBegin(w: World)
    requires Staged(w) && CollectingOnReqData in w.trail
    ensures AfterBeginWaf in w.trail
  {
    var i :| 0 <= i < |w.trail| && w.trail[i] == CollectingOnReqData;
    assert Documented(w.trail[i - 1], w.trail[i]);
    if w.trail[i - 1] != AfterBeginWaf {
      assert Documented(w.trail[i - 2], w.trail[i - 1]);
    }
  }

  /** In every run that collects a request body which ends once: as long as it did not go to the WAF and the header
      filter did not move the stage, not a byte was forwarded since the first run let the request pass. */
  lemma NoByteUninspected(sendRespBody: bool, maxSaved: nat, events: seq<Event>, w: World)
    returns (n: nat, w0: World)
    requires Play(Fresh(sendRespBody, maxSaved), events) == Some(w) && CollectingOnReqData in w.trail
    requires ReqBodyWaf !in w.created && !Past(w.ctx.stage) && EndsOnce(w.reqIn)
    ensures n <= |events| && Play(Fresh(sendRespBody, maxSaved), events[..n]) == Some(w0)
    ensures w0.ctx.stage == AfterBeginWaf && Size(w.reqOut) == Size(w0.reqOut)
  {
    RunGathers(sendRespBody, maxSaved, events, w);
    CollectingAfterBegin(w);
    n, w0 := BeginOfRun(sendRespBody, maxSaved, events, w);
    RunGathers(sendRespBody, maxSaved, events[..n], w0);
    RunReceives(Fresh(sendRespBody, maxSaved), events[..n], w0);
    EndsOnceIsNeverLate(w0, events[n..], w);
    UninspectedExactly(w0, events[n..], w);
  }

  // ---------------------------------------------------------------- a run that is late

  const NO_BYTES: Link := Link([], true, false)
  const LATE: Link := Link([1], true, false)

  const EMPTY_RUN: seq<Event> := PASSED + [OnRequestBody([NO_BYTES], false, true)]
  const LATE_RUN: seq<Event> := EMPTY_RUN + [OnRequestBody([LATE], false, true)]

  predicate EndedEmpty(w: World) {
    w.ctx.stage == AfterOnReqWaf && w.ctx.req.out == [] && ReqBodyWaf !in w.created && w.reqOut == [NO_BYTES]
  }

  lemma EmptyRun() returns (w: World)
    ensures Play(Fresh(true, 1), EMPTY_RUN) == Some(w) && EndedEmpty(w)
  {
    var w0, ev := PassedWorld(true, 1), OnRequestBody([NO_BYTES], false, true);
    PassedRun(true, 1);
    w := After(w0, ev);
    Extended(Fresh(true, 1), PASSED, w0, ev, w);
    EmptyBodyPasses(w0.ctx, RequestBodyFilter(w0.ctx, [NO_BYTES], false, true));
  }

  /** The byte was forwarded and the body never went to the WAF. */
  predicate LatePassed(w: World) {
    w.reqOut == [NO_BYTES, LATE] && ReqBodyWaf !in w.created && !Past(w.ctx.stage)
  }

  lemma LatePasses(w: World, ev: Event, w': World)
    requires EndedEmpty(w) && ev == OnRequestBody([LATE], false, true) && w' == After(w, ev)
    ensures LatePassed(w')
  {
    assert RequestBodyFilter(w.ctx, [LATE], false, true) == Still(w.ctx, Downstream).(forwarded := [LATE]);
  }

  /** A body ends without a byte, and the byte that comes all the same is forwarded without having been inspected. */
  lemma LateByteIsNotInspected() returns (w: World)
    ensures Play(Fresh(true, 1), LATE_RUN) == Some(w) && LatePassed(w)
  {
    var w1 := EmptyRun();
    var ev :| ev == OnRequestBody([LATE], false, true);
    w := After(w1, ev);
    Extended(Fresh(true, 1), EMPTY_RUN, w1, ev, w);
    LatePasses(w1, ev, w);
  }

  lemma EmptyBodyPasses(c: Ctx, e: Effect)
    requires c.stage == AfterBeginWaf && c.req == EMPTY && e == RequestBodyFilter(c, [NO_BYTES], false, true)
    ensures e.ctx.stage == AfterOnReqWaf && e.ctx.req.out == [] && e.task == None && e.forwarded == [NO_BYTES]
  {
    assert [NO_BYTES][1..] == [] && Size([NO_BYTES]) == 0;
    assert [NO_BYTES][0].last;
    assert [] + [NO_BYTES] == [NO_BYTES];
  }
}
