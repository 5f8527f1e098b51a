/** The request body: what was passed to the next filter, followed by what is held, is what was
    received, in order. */
module RequestConservation {
  import opened Basics
  import opened Chain
  import opened Stages
  import opened Interception
  import opened InterceptionRuns
  import opened ExampleRuns
  import opened StageMachine

  /** Stages in which the request body filter holds or replays the body. */
  predicate ReqSide(s: Stage) {
    || s == AfterBeginWaf || s == CollectingOnReqDataPreread || s == CollectingOnReqData
    || s == SuspendedOnReqWaf || ReqWafDone(s)
  }

  /** A call whose links are dropped because they come after the end of a body that is still held. */
  predicate Loses(c: Ctx, chain: seq<Link>) {
    chain != [] && c.req.foundLast && ReqSide(c.stage) && (ReqWafDone(c.stage) ==> c.req.out != [])
  }

  /** A call whose links go ahead of the held ones: the header filter moved the stage first. */
  predicate Overtakes(c: Ctx, chain: seq<Link>) {
    chain != [] && c.req.out != [] && !ReqSide(c.stage)
  }

  lemma CollectDelivers(c: Ctx, chain: seq<Link>, posted: bool, writes: seq<Stage>, e: Effect)
    requires e == CollectRequest(c, chain, posted, writes) && c.stage == CollectingOnReqData
    ensures e.forwarded + e.ctx.req.out == if chain != [] && c.req.foundLast then c.req.out else c.req.out + chain
    ensures e.ctx.stage == CollectingOnReqData || e.ctx.stage == SuspendedOnReqWaf ==> e.forwarded == []
  {
  }

  /** Nothing is forwarded while collecting or suspended, and the first call after the WAF run empties
      the held chain. */
  lemma RequestBodyDelivers(c: Ctx, chain: seq<Link>, preread: bool, posted: bool, e: Effect)
    requires e == RequestBodyFilter(c, chain, preread, posted) && !Overtakes(c, chain)
    ensures e.forwarded + e.ctx.req.out == if Loses(c, chain) then c.req.out else c.req.out + chain
    ensures e.ctx.stage in {CollectingOnReqDataPreread, CollectingOnReqData, SuspendedOnReqWaf} ==> e.forwarded == []
    ensures ReqWafDone(c.stage) && !Loses(c, chain) ==> e.ctx.req.out == []
  {
    if c.stage == AfterBeginWaf || c.stage == CollectingOnReqDataPreread || c.stage == CollectingOnReqData {
      CollectingDelivers(c, chain, preread, posted, e);
    } else {
      LaterDelivers(c, chain, preread, posted, e);
    }
  }

  lemma CollectingDelivers(c: Ctx, chain: seq<Link>, preread: bool, posted: bool, e: Effect)
    requires e == RequestBodyFilter(c, chain, preread, posted)
    requires c.stage == AfterBeginWaf || c.stage == CollectingOnReqDataPreread || c.stage == CollectingOnReqData
    ensures e.forwarded + e.ctx.req.out == if chain != [] && c.req.foundLast then c.req.out else c.req.out + chain
    ensures e.ctx.stage in {CollectingOnReqDataPreread, CollectingOnReqData, SuspendedOnReqWaf} ==> e.forwarded == []
  {
    if c.stage == AfterBeginWaf && !(chain != [] && preread) {
      CollectDelivers(c.(stage := CollectingOnReqData), chain, posted, [CollectingOnReqData], e);
    } else if c.stage == CollectingOnReqData {
      CollectDelivers(c, chain, posted, [], e);
    }
  }

  lemma LaterDelivers(c: Ctx, chain: seq<Link>, preread: bool, posted: bool, e: Effect)
    requires e == RequestBodyFilter(c, chain, preread, posted) && !Overtakes(c, chain)
    requires c.stage != AfterBeginWaf && c.stage != CollectingOnReqDataPreread && c.stage != CollectingOnReqData
    ensures e.forwarded + e.ctx.req.out == if Loses(c, chain) then c.req.out else c.req.out + chain
    ensures e.ctx.stage == c.stage && (c.stage == SuspendedOnReqWaf ==> e.forwarded == [])
    ensures ReqWafDone(c.stage) && !Loses(c, chain) ==> e.ctx.req.out == []
  {
  }

  predicate OvertakesAt(w: World, ev: Event) {
    ev.OnRequestBody? && Overtakes(w.ctx, ev.chain)
  }

  predicate LosesAt(w: World, ev: Event) {
    ev.OnRequestBody? && Loses(w.ctx, ev.chain)
  }

  /** No request body arrives behind the back of a held one. */
  predicate NeverOvertakes(w: World, events: seq<Event>) {
    events == [] ||
    var n := |events| - 1;
    NeverOvertakes(w, events[..n]) &&
    match Play(w, events[..n])
    case None => true
    case Some(before) => !OvertakesAt(before, events[n])
  }

  predicate Lossless(w: World, events: seq<Event>) {
    events == [] ||
    var n := |events| - 1;
    Lossless(w, events[..n]) &&
    match Play(w, events[..n])
    case None => true
    case Some(before) => !LosesAt(before, events[n])
  }

  ghost predicate Accounted(w: World, lossless: bool) {
    && |w.reqOut| + |w.ctx.req.out| <= |w.reqIn|
    && (|w.reqOut| + |w.ctx.req.out| == |w.reqIn| <==> lossless)
    && (lossless ==> w.reqOut + w.ctx.req.out == w.reqIn)
  }

  lemma HeaderKeepsRequest(c: Ctx, emitted: seq<Link>, nextOk: bool, parseable: bool, posted: bool)
    ensures HeaderFilter(c, emitted, nextOk, parseable, posted).ctx.req == c.req
    ensures HeaderFilter(c, emitted, nextOk, parseable, posted).forwarded == []
  {
  }

  lemma OutputBodyKeepsRequest(c: Ctx, chain: seq<Link>, how: HeaderSend, posted: bool)
    ensures OutputBodyFilter(c, chain, how, posted).ctx.req == c.req
    ensures OutputBodyFilter(c, chain, how, posted).forwarded == []
  {
  }

  lemma DeliveryAccounted(gone: seq<Link>, held: seq<Link>, received: seq<Link>, sent: seq<Link>, kept: seq<Link>,
                          chain: seq<Link>, loses: bool, lossless: bool)
    requires |gone| + |held| <= |received| && (|gone| + |held| == |received| <==> lossless)
    requires lossless ==> gone + held == received
    requires loses ==> chain != []
    requires sent + kept == if loses then held else held + chain
    ensures |gone + sent| + |kept| <= |received + chain|
    ensures |gone + sent| + |kept| == |received + chain| <==> lossless && !loses
    ensures lossless && !loses ==> gone + sent + kept == received + chain
  {
    assert |sent + kept| == |held| + if loses then 0 else |chain|;
    assert gone + sent + kept == gone + (sent + kept);
    assert gone + (held + chain) == (gone + held) + chain;
  }

  lemma EventAccounted(w: World, ev: Event, lossless: bool)
    requires Accounted(w, lossless) && Enabled(w, ev) && !OvertakesAt(w, ev)
    ensures Accounted(After(w, ev), lossless && !LosesAt(w, ev))
  {
    if ev.OnRequestBody? {
      var e := RequestBodyFilter(w.ctx, ev.chain, ev.preread, ev.posted);
      RequestBodyDelivers(w.ctx, ev.chain, ev.preread, ev.posted, e);
      DeliveryAccounted(w.reqOut, w.ctx.req.out, w.reqIn, e.forwarded, e.ctx.req.out, ev.chain, LosesAt(w, ev),
                        lossless);
    } else {
      OthersKeepRequest(w, ev);
    }
  }

  lemma OthersKeepRequest(w: World, ev: Event)
    requires Enabled(w, ev) && !ev.OnRequestBody?
    ensures After(w, ev).ctx.req == w.ctx.req && After(w, ev).reqOut == w.reqOut && After(w, ev).reqIn == w.reqIn
  {
    match ev {
      case OnHeader(emitted, nextOk, parseable, posted) =>
        HeaderKeepsRequest(w.ctx, emitted, nextOk, parseable, posted);
      case OnOutputBody(chain, how, posted) => OutputBodyKeepsRequest(w.ctx, chain, how, posted);
      case Completed(k, alive, r) => CompletionKeepsRequest(w, k, alive, r);
      case _ =>
    }
  }

  lemma CompletionKeepsRequest(w: World, k: TaskKind, alive: bool, r: BlockResponse)
    requires Enabled(w, Completed(k, alive, r))
    ensures var w' := After(w, Completed(k, alive, r));
            w'.ctx.req == w.ctx.req && w'.reqOut == w.reqOut && w'.reqIn == w.reqIn
  {
    var c := Verdict(Land(w, k).ctx, k, w.flights[k].blocks).ctx;
    OutputBodyKeepsRequest(c, r.body, WriteFilter(Ok), true);
  }

  lemma {:induction false} RunAccounted(sendRespBody: bool, maxSaved: nat, events: seq<Event>, w: World)
    requires Play(Fresh(sendRespBody, maxSaved), events) == Some(w)
    requires NeverOvertakes(Fresh(sendRespBody, maxSaved), events)
    ensures Accounted(w, Lossless(Fresh(sendRespBody, maxSaved), events))
  {
    if events != [] {
      var n, start := |events| - 1, Fresh(sendRespBody, maxSaved);
      var before := Play(start, events[..n]).value;
      RunAccounted(sendRespBody, maxSaved, events[..n], before);
      EventAccounted(before, events[n], Lossless(start, events[..n]));
    }
  }

  /** In every run, as long as the header filter did not move the stage past a held body, the request
      body is conserved exactly when no call came after the end of the body. */
  lemma RequestConservedExactly(sendRespBody: bool, maxSaved: nat, events: seq<Event>, w: World)
    requires Play(Fresh(sendRespBody, maxSaved), events) == Some(w)
    requires NeverOvertakes(Fresh(sendRespBody, maxSaved), events)
    ensures w.reqOut + w.ctx.req.out == w.reqIn <==> Lossless(Fresh(sendRespBody, maxSaved), events)
  {
    RunAccounted(sendRespBody, maxSaved, events, w);
  }

  // ---------------------------------------------------------------- overtaken for good

  /** The header filter has moved the stage: the request body filter only passes on. */
  predicate Past(s: Stage) {
    Rank(s) >= Rank(CollectingOnRespData)
  }

  function Arrived(ev: Event): seq<Link> {
    if ev.OnRequestBody? then ev.chain else []
  }

  lemma PastStays(w: World, ev: Event, w': World)
    requires Staged(w) && Past(w.ctx.stage) && Enabled(w, ev) && w' == After(w, ev)
    ensures Staged(w') && Past(w'.ctx.stage)
  {
    EventKeepsStaged(w, ev);
    EventExtendsTrail(w, ev);
    LaterRanks(w, w');
  }

  lemma LaterRanks(w: World, w': World)
    requires Staged(w) && Staged(w') && w.trail <= w'.trail
    ensures Rank(w.ctx.stage) <= Rank(w'.ctx.stage)
  {
    if |w'.trail| > |w.trail| {
      TrailRises(w'.trail, |w.trail| - 1, |w'.trail| - 1);
    }
  }

  lemma PastPassesOn(w: World, ev: Event, w': World)
    requires Past(w.ctx.stage) && Enabled(w, ev) && w' == After(w, ev)
    ensures w'.ctx.req == w.ctx.req
    ensures w'.reqOut == w.reqOut + Arrived(ev) && w'.reqIn == w.reqIn + Arrived(ev)
  {
    if !ev.OnRequestBody? {
      OthersKeepRequest(w, ev);
    }
  }

  /** What was forwarded since `w` is what arrived since, and what was held is held. */
  ghost predicate OvertakenSince(w: World, w': World) {
    && w'.ctx.req == w.ctx.req && w.reqIn <= w'.reqIn && w.reqOut <= w'.reqOut
    && w'.reqOut[|w.reqOut|..] == w'.reqIn[|w.reqIn|..]
  }

  lemma OvertakenMore(w: World, m: World, w': World, links: seq<Link>)
    requires OvertakenSince(w, m) && w'.ctx.req == m.ctx.req
    requires w'.reqOut == m.reqOut + links && w'.reqIn == m.reqIn + links
    ensures OvertakenSince(w, w')
  {
    assert w'.reqOut[|w.reqOut|..] == m.reqOut[|w.reqOut|..] + links;
    assert w'.reqIn[|w.reqIn|..] == m.reqIn[|w.reqIn|..] + links;
  }

  /** Once the stage is past the request body, no continuation of the run forwards the links still held:
      all it forwards are the links that arrive later. */
  lemma {:induction false} HeldRequestIsNeverForwarded(w: World, events: seq<Event>, w': World)
    requires Staged(w) && Past(w.ctx.stage) && Play(w, events) == Some(w')
    ensures Staged(w') && Past(w'.ctx.stage) && OvertakenSince(w, w')
  {
    if events != [] {
      var n := |events| - 1;
      var before := Play(w, events[..n]).value;
      HeldRequestIsNeverForwarded(w, events[..n], before);
      PastStays(before, events[n], w');
      PastPassesOn(before, events[n], w');
      OvertakenMore(w, before, w', Arrived(events[n]));
    }
  }

  // ---------------------------------------------------------------- a run that overtakes

  /** A large link without the end of the body, and the one after it. */
  const LARGE: Link := Link(Zeros(MAX_FILTER_DATA), false, false)
  const NEWER: Link := Link([1], true, false)
  const NO_BLOCK: BlockResponse := BlockResponse([], false, [])

  const COLLECTED_RUN: seq<Event> := PASSED + [OnRequestBody([LARGE], false, true)]
  const INSPECTED_RUN: seq<Event> :=
    COLLECTED_RUN + [ThreadBegins(ReqBodyWaf)] + [ThreadEnds(ReqBodyWaf, false)]
    + [Completed(ReqBodyWaf, true, NO_BLOCK)]
  const OVERTAKING_RUN: seq<Event> :=
    INSPECTED_RUN + [OnHeader([], true, false, false)] + [OnRequestBody([NEWER], false, true)]

  /** The body is with the WAF, and nothing of it was forwarded. */
  predicate Collected(w: World) {
    && w.ctx.stage == SuspendedOnReqWaf && w.ctx.req.out == [LARGE] && w.reqOut == [] && w.reqIn == [LARGE]
    && ReqBodyWaf in w.flights && w.flights[ReqBodyWaf] == Posted
  }

  lemma CollectedRun() returns (w: World)
    ensures Play(Fresh(true, 1), COLLECTED_RUN) == Some(w) && Collected(w)
  {
    var w0, ev := PassedWorld(true, 1), OnRequestBody([LARGE], false, true);
    PassedRun(true, 1);
    w := After(w0, ev);
    Extended(Fresh(true, 1), PASSED, w0, ev, w);
    assert MemorySize([LARGE]) == Size([LARGE]) == MAX_FILTER_DATA by {
      assert [LARGE][1..] == [];
    }
    var e := RequestBodyFilter(w0.ctx, [LARGE], false, true);
    assert e == CollectRequest(w0.ctx.(stage := CollectingOnReqData), [LARGE], true, [CollectingOnReqData]);
    assert e.ctx.req.out == [] + [LARGE] == [LARGE];
  }

  /** The WAF let the body pass, and it is still held. */
  predicate Inspected(w: World) {
    w.ctx.stage == AfterOnReqWaf && w.ctx.req.out == [LARGE] && w.reqOut == [] && w.reqIn == [LARGE]
  }

  lemma InspectedRun() returns (w: World)
    ensures Play(Fresh(true, 1), INSPECTED_RUN) == Some(w) && Inspected(w)
  {
    var start := Fresh(true, 1);
    var w0 := CollectedRun();
    var w1 := w0.(flights := w0.flights[ReqBodyWaf := Ran(false)]);
    RunsThrough(start, COLLECTED_RUN, w0, ReqBodyWaf, w1);
    w := After(w1, Completed(ReqBodyWaf, true, NO_BLOCK));
    Extended(start, COLLECTED_RUN + [ThreadBegins(ReqBodyWaf)] + [ThreadEnds(ReqBodyWaf, false)], w1,
             Completed(ReqBodyWaf, true, NO_BLOCK), w);
  }

  lemma HeaderMovesOn(w: World, w': World)
    requires Inspected(w) && w' == After(w, OnHeader([], true, false, false))
    ensures Past(w'.ctx.stage) && w'.ctx.req == w.ctx.req && w'.reqOut == w.reqOut && w'.reqIn == w.reqIn
  {
  }

  lemma OvertakingRun() returns (w: World)
    ensures Play(Fresh(true, 1), OVERTAKING_RUN) == Some(w)
    ensures w.reqIn == [LARGE, NEWER] && w.reqOut == [NEWER] && w.ctx.req.out == [LARGE]
    ensures Past(w.ctx.stage)
  {
    var ev := OnRequestBody([NEWER], false, true);
    var w1 := MovedOnRun();
    w := After(w1, ev);
    Extended(Fresh(true, 1), INSPECTED_RUN + [OnHeader([], true, false, false)], w1, ev, w);
    PastPassesOn(w1, ev, w);
    NewerPassesOn(w1.ctx);
  }

  lemma NewerPassesOn(c: Ctx)
    requires Past(c.stage)
    ensures RequestBodyFilter(c, [NEWER], false, true).ctx.stage == c.stage
  {
  }

  lemma MovedOnRun() returns (w: World)
    ensures Play(Fresh(true, 1), INSPECTED_RUN + [OnHeader([], true, false, false)]) == Some(w)
    ensures Past(w.ctx.stage) && w.ctx.req.out == [LARGE] && w.reqOut == [] && w.reqIn == [LARGE]
  {
    var w0 := InspectedRun();
    w := After(w0, OnHeader([], true, false, false));
    Extended(Fresh(true, 1), INSPECTED_RUN, w0, OnHeader([], true, false, false), w);
    HeaderMovesOn(w0, w);
  }

  /** A reachable run in which a newer link goes out ahead of an older one, which no continuation ever
      sends. */
  lemma HeaderFilterLetsLinksOvertake(w: World, later: seq<Event>, w': World)
    requires Play(Fresh(true, 1), OVERTAKING_RUN) == Some(w) && Play(w, later) == Some(w')
    ensures w.reqIn == [LARGE, NEWER] && w.reqOut == [NEWER]
    ensures w'.ctx.req.out == w.ctx.req.out == [LARGE] && OvertakenSince(w, w')
  {
    var _ := OvertakingRun();
    RunIsStaged(true, 1, OVERTAKING_RUN);
    HeldRequestIsNeverForwarded(w, later, w');
  }
}
