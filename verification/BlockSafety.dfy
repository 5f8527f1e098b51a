/** A request blocked by the final WAF run: nothing of the original response reaches the client. */
module BlockSafety {
  import opened Basics
  import opened Chain
  import opened Stages
  import opened Interception
  import opened InterceptionRuns
  import opened StageMachine

  predicate EarlyBlock(s: Stage) {
    s == AfterBeginWafBlock || s == AfterOnReqWafBlock
  }

  /** Nothing was sent before the header filter ran nor while the response is held back. */
  ghost predicate Shielded(w: World) {
    && (Buffering(w.ctx.stage) ==> w.wire == [])
    && (!w.headerSeen ==> Rank(w.ctx.stage) < Rank(CollectingOnRespData))
    && (!w.headerSeen && !EarlyBlock(w.ctx.stage) ==> w.wire == [] && w.ctx.hdr.out == [] && w.ctx.out.out == [])
  }

  /** The request side sends nothing of the response and stays before its stages. */
  predicate RequestSide(c: Ctx, e: Effect) {
    && e.sent == [] && e.ctx.hdr == c.hdr && e.ctx.out == c.out
    && (e.ctx.stage == c.stage || (Rank(e.ctx.stage) < Rank(CollectingOnRespData) && !EarlyBlock(c.stage)))
  }

  lemma RequestBodyIsRequestSide(c: Ctx, chain: seq<Link>, preread: bool, posted: bool)
    ensures RequestSide(c, RequestBodyFilter(c, chain, preread, posted))
  {
  }

  lemma RequestSideShielded(w: World, ev: Event)
    requires Shielded(w) && (ev.OnRequestStart? || ev.OnRequestBody?)
    ensures Shielded(After(w, ev))
  {
    match ev {
      case OnRequestStart(hasPool, posted) => CommitShielded(w, RequestStart(w.ctx, hasPool), posted);
      case OnRequestBody(chain, preread, posted) =>
        RequestBodyIsRequestSide(w.ctx, chain, preread, posted);
        CommitShielded(w.(reqIn := w.reqIn + chain), RequestBodyFilter(w.ctx, chain, preread, posted), posted);
    }
  }

  lemma CommitShielded(w: World, e: Effect, posted: bool)
    requires Shielded(w) && RequestSide(w.ctx, e)
    ensures Shielded(Commit(w, e, posted))
  {
    assert Commit(w, e, posted).wire == w.wire;
  }

  lemma HeaderShielded(w: World, ev: Event)
    requires Shielded(w) && ev.OnHeader? && Orderly(w, ev)
    ensures Shielded(After(w, ev))
  {
  }

  lemma HoldSendsNothing(c: Ctx, chain: seq<Link>, how: HeaderSend, posted: bool, e: Effect)
    requires Buffering(c.stage) && e == OutputBodyFilter(c, chain, how, posted)
    ensures e.sent == [] && Rank(e.ctx.stage) >= Rank(CollectingOnRespData)
  {
  }

  lemma IdleSendsNothing(c: Ctx, how: HeaderSend, posted: bool, e: Effect)
    requires Rank(c.stage) < Rank(CollectingOnRespData) && c.hdr.out == [] && c.out.out == []
    requires e == OutputBodyFilter(c, [], how, posted)
    ensures e.sent == [] && e.ctx == c
  {
  }

  lemma ReleaseKeepsStage(c: Ctx, chain: seq<Link>, how: HeaderSend, posted: bool, e: Effect)
    requires !Buffering(c.stage) && c.stage != WafEndBlockCommit && e == OutputBodyFilter(c, chain, how, posted)
    ensures e.ctx.stage == c.stage
  {
  }

  lemma OutputBodyShielded(w: World, ev: Event)
    requires Shielded(w) && ev.OnOutputBody? && Orderly(w, ev)
    ensures Shielded(After(w, ev))
  {
    var e := OutputBodyFilter(w.ctx, ev.chain, ev.how, ev.posted);
    if Buffering(w.ctx.stage) {
      HoldSendsNothing(w.ctx, ev.chain, ev.how, ev.posted, e);
    } else if w.ctx.stage != WafEndBlockCommit {
      ReleaseKeepsStage(w.ctx, ev.chain, ev.how, ev.posted, e);
      if !w.headerSeen && !EarlyBlock(w.ctx.stage) {
        IdleSendsNothing(w.ctx, ev.how, ev.posted, e);
      }
    }
  }

  lemma ThreadShielded(w: World, ev: Event)
    requires Shielded(w) && Staged(w) && Enabled(w, ev)
    requires ev.ThreadBegins? || ev.ThreadEnds? || ev.ThreadThrows?
    ensures Shielded(After(w, ev))
  {
  }

  /** The block response goes down by itself, whichever run asked for it. */
  lemma BlockIsSent(w: World, r: BlockResponse)
    requires EarlyBlock(w.ctx.stage) || w.ctx.stage == WafEndBlockCommit
    ensures SendBlock(w, r).headerSeen == w.headerSeen
    ensures EarlyBlock(w.ctx.stage) ==> SendBlock(w, r).ctx.stage == w.ctx.stage
    ensures w.ctx.stage == WafEndBlockCommit && !r.headerOk ==>
              SendBlock(w, r) == w.(wire := w.wire + [Header(r.header)])
    ensures w.ctx.stage == WafEndBlockCommit && r.headerOk ==>
              && SendBlock(w, r).ctx.stage == AfterRunWafEnd
              && SendBlock(w, r).ctx.hdr.out == [] && SendBlock(w, r).ctx.out.out == []
              && SendBlock(w, r).wire == w.wire + [Header(r.header)] + Bodies(r.body)
  {
  }

  lemma CompletionShielded(w: World, k: TaskKind, alive: bool, r: BlockResponse)
    requires Shielded(w) && Staged(w) && Enabled(w, Completed(k, alive, r))
    ensures Shielded(After(w, Completed(k, alive, r)))
  {
    var blocks := w.flights[k].blocks;
    var w1 := Commit(Land(w, k), Verdict(w.ctx, k, blocks), false);
    if alive {
      VerdictShielded(w, k, blocks, w1);
      if blocks {
        BlockShielded(w1, r);
      }
    }
  }

  lemma BlockShielded(w: World, r: BlockResponse)
    requires Shielded(w) && (EarlyBlock(w.ctx.stage) || w.ctx.stage == WafEndBlockCommit)
    ensures Shielded(SendBlock(w, r))
  {
    BlockIsSent(w, r);
  }

  /** A verdict ends the holding back; a blocking one leads to a stage that sends only the block. */
  lemma VerdictShielded(w: World, k: TaskKind, blocks: bool, w1: World)
    requires Shielded(w) && Staged(w) && k in w.flights && w.flights[k] == Ran(blocks)
    requires w1 == Commit(Land(w, k), Verdict(w.ctx, k, blocks), false)
    ensures w1.wire == w.wire && w1.headerSeen == w.headerSeen && Shielded(w1)
    ensures blocks ==> EarlyBlock(w1.ctx.stage) || w1.ctx.stage == WafEndBlockCommit
  {
  }

  lemma {:induction false} RunShielded(sendRespBody: bool, maxSaved: nat, events: seq<Event>, w: World)
    requires Play(Fresh(sendRespBody, maxSaved), events) == Some(w)
    requires OrderlyRun(Fresh(sendRespBody, maxSaved), events)
    ensures Shielded(w) && Staged(w)
  {
    RunIsStaged(sendRespBody, maxSaved, events);
    if events != [] {
      var n, start := |events| - 1, Fresh(sendRespBody, maxSaved);
      var before := Play(start, events[..n]).value;
      RunShielded(sendRespBody, maxSaved, events[..n], before);
      match events[n] {
        case OnHeader(_, _, _, _) => HeaderShielded(before, events[n]);
        case OnOutputBody(_, _, _) => OutputBodyShielded(before, events[n]);
        case Completed(k, alive, r) => CompletionShielded(before, k, alive, r);
        case OnRequestStart(_, _) => RequestSideShielded(before, events[n]);
        case OnRequestBody(_, _, _) => RequestSideShielded(before, events[n]);
        case _ => ThreadShielded(before, events[n]);
      }
    }
  }

  /** Up to the completion of a blocking final run nothing was sent; if the block header goes through,
      the client gets exactly the block response and everything held is dropped. */
  lemma BlockedResponseIsReplaced(sendRespBody: bool, maxSaved: nat, events: seq<Event>, w: World, r: BlockResponse)
    requires Play(Fresh(sendRespBody, maxSaved), events) == Some(w)
    requires OrderlyRun(Fresh(sendRespBody, maxSaved), events)
    requires FinalWaf in w.flights && w.flights[FinalWaf] == Ran(true)
    ensures w.wire == []
    ensures r.headerOk ==>
              var w' := After(w, Completed(FinalWaf, true, r));
              w'.wire == [Header(r.header)] + Bodies(r.body) && w'.ctx.hdr.out == [] && w'.ctx.out.out == []
              && w'.ctx.stage == AfterRunWafEnd
  {
    RunShielded(sendRespBody, maxSaved, events, w);
    assert w.ctx.stage == PendingWafEnd;
    FinalBlockIsSent(w, r, After(w, Completed(FinalWaf, true, r)));
  }

  /** The completion of a blocking final run commits to the block and sends it. */
  lemma FinalBlockIsSent(w: World, r: BlockResponse, w': World)
    requires Staged(w) && FinalWaf in w.flights && w.flights[FinalWaf] == Ran(true)
    requires w' == After(w, Completed(FinalWaf, true, r))
    ensures w'.headerSeen == w.headerSeen
    ensures !r.headerOk ==> w'.ctx.stage == WafEndBlockCommit && w'.wire == w.wire + [Header(r.header)]
    ensures r.headerOk ==>
              && w'.ctx.stage == AfterRunWafEnd && w'.ctx.hdr.out == [] && w'.ctx.out.out == []
              && w'.wire == w.wire + [Header(r.header)] + Bodies(r.body)
  {
    var w0 := Land(w, FinalWaf);
    var w1 := Commit(w0, Verdict(w0.ctx, FinalWaf, true), false);
    assert w1.ctx.stage == WafEndBlockCommit && w1.wire == w.wire;
    assert w' == SendBlock(w1, r);
    BlockIsSent(w1, r);
  }

  /** If the block header fails the context stays in the commit stage, and the next chain that comes,
      whoever sent it, is passed on as the block body. */
  lemma FailedBlockHeaderLetsNextChainThrough(w: World, r: BlockResponse, chain: seq<Link>, how: HeaderSend)
    requires Staged(w) && FinalWaf in w.flights && w.flights[FinalWaf] == Ran(true) && !r.headerOk
    ensures var w' := After(w, Completed(FinalWaf, true, r));
            w'.ctx.stage == WafEndBlockCommit
            && After(w', OnOutputBody(chain, how, true)).wire == w.wire + [Header(r.header)] + Bodies(chain)
  {
    FinalBlockIsSent(w, r, After(w, Completed(FinalWaf, true, r)));
  }

  // ------------------------------------------------------------- whichever run blocks

  /** Nothing of the response is held before the header filter acts on it. */
  predicate HoldsNothingYet(c: Ctx) {
    Rank(c.stage) < Rank(CollectingOnRespData) ==> c.hdr.out == [] && c.out.out == []
  }

  lemma OutputBodyHoldsNothing(c: Ctx, chain: seq<Link>, how: HeaderSend, posted: bool)
    requires HoldsNothingYet(c)
    ensures HoldsNothingYet(OutputBodyFilter(c, chain, how, posted).ctx)
  {
    if !Buffering(c.stage) && c.stage != WafEndBlockCommit {
      ReleaseKeepsStage(c, chain, how, posted, OutputBodyFilter(c, chain, how, posted));
    }
  }

  lemma CompletionHoldsNothing(w: World, k: TaskKind, alive: bool, r: BlockResponse)
    requires Staged(w) && HoldsNothingYet(w.ctx) && Enabled(w, Completed(k, alive, r))
    ensures HoldsNothingYet(After(w, Completed(k, alive, r)).ctx)
  {
    var c := Verdict(Land(w, k).ctx, k, w.flights[k].blocks).ctx;
    OutputBodyHoldsNothing(c, r.body, WriteFilter(Ok), true);
  }

  lemma EventHoldsNothing(w: World, ev: Event)
    requires Staged(w) && HoldsNothingYet(w.ctx) && Enabled(w, ev)
    ensures HoldsNothingYet(After(w, ev).ctx)
  {
    match ev {
      case OnRequestBody(chain, preread, posted) => RequestHoldsNothing(w.ctx, chain, preread, posted);
      case OnOutputBody(chain, how, posted) => OutputBodyHoldsNothing(w.ctx, chain, how, posted);
      case Completed(k, alive, r) => CompletionHoldsNothing(w, k, alive, r);
      case OnHeader(emitted, nextOk, parseable, posted) =>
        HeaderHoldsNothing(w.ctx, emitted, nextOk, parseable, posted);
      case _ => OtherHoldsNothing(w, ev);
    }
  }

  lemma RequestHoldsNothing(c: Ctx, chain: seq<Link>, preread: bool, posted: bool)
    requires HoldsNothingYet(c)
    ensures HoldsNothingYet(RequestBodyFilter(c, chain, preread, posted).ctx)
  {
    RequestBodyIsRequestSide(c, chain, preread, posted);
    if Rank(c.stage) >= Rank(CollectingOnRespData) {
      LateRequestBody(c, chain, preread, posted);
    }
  }

  lemma LateRequestBody(c: Ctx, chain: seq<Link>, preread: bool, posted: bool)
    requires Rank(c.stage) >= Rank(CollectingOnRespData)
    ensures RequestBodyFilter(c, chain, preread, posted).ctx == c
  {
  }

  lemma HeaderHoldsNothing(c: Ctx, emitted: seq<Link>, nextOk: bool, parseable: bool, posted: bool)
    requires HoldsNothingYet(c)
    ensures HoldsNothingYet(HeaderFilter(c, emitted, nextOk, parseable, posted).ctx)
  {
  }

  lemma OtherHoldsNothing(w: World, ev: Event)
    requires Staged(w) && HoldsNothingYet(w.ctx) && Enabled(w, ev)
    requires ev.OnRequestStart? || ev.ThreadBegins? || ev.ThreadEnds? || ev.ThreadThrows?
    ensures HoldsNothingYet(After(w, ev).ctx)
  {
  }

  lemma {:induction false} RunHoldsNothing(sendRespBody: bool, maxSaved: nat, events: seq<Event>, w: World)
    requires Play(Fresh(sendRespBody, maxSaved), events) == Some(w)
    ensures Staged(w) && HoldsNothingYet(w.ctx)
  {
    RunIsStaged(sendRespBody, maxSaved, events);
    if events != [] {
      var n := |events| - 1;
      var before := Play(Fresh(sendRespBody, maxSaved), events[..n]).value;
      RunHoldsNothing(sendRespBody, maxSaved, events[..n], before);
      EventHoldsNothing(before, events[n]);
    }
  }

  /** What a verdict sends. */
  function Answered(blocks: bool, r: BlockResponse): seq<Sent> {
    if !blocks then [] else [Header(r.header)] + if r.headerOk then Bodies(r.body) else []
  }

  /** In every run, the verdict of a task is the one its thread came to, for each of the three kinds. */
  lemma VerdictIsKept(sendRespBody: bool, maxSaved: nat, events: seq<Event>, w: World, k: TaskKind, blocks: bool)
    requires Play(Fresh(sendRespBody, maxSaved), events) == Some(w) && Enabled(w, ThreadEnds(k, blocks))
    ensures After(w, ThreadEnds(k, blocks)).flights == w.flights[k := Ran(blocks)]
  {
    RunIsStaged(sendRespBody, maxSaved, events);
  }

  /** In every run, a completion on a live request sends the block response exactly when the task blocks, and nothing
      else, for each of the three kinds. */
  lemma VerdictDecides(sendRespBody: bool, maxSaved: nat, events: seq<Event>, w: World, k: TaskKind, r: BlockResponse)
    requires Play(Fresh(sendRespBody, maxSaved), events) == Some(w) && Enabled(w, Completed(k, true, r))
    ensures After(w, Completed(k, true, r)).wire == w.wire + Answered(w.flights[k].blocks, r)
  {
    RunHoldsNothing(sendRespBody, maxSaved, events, w);
    LiveCompletionAnswers(w, k, r);
  }

  lemma LiveCompletionAnswers(w: World, k: TaskKind, r: BlockResponse)
    requires Staged(w) && HoldsNothingYet(w.ctx) && Enabled(w, Completed(k, true, r))
    ensures After(w, Completed(k, true, r)).wire == w.wire + Answered(w.flights[k].blocks, r)
  {
    var blocks := w.flights[k].blocks;
    var w1 := Commit(Land(w, k), Verdict(w.ctx, k, blocks), false);
    VerdictLeads(w, k, blocks, w1);
    CompletionAnswers(w, k, r, w1, After(w, Completed(k, true, r)));
  }

  /** A verdict by itself sends nothing, and a blocking one leads to a stage that lets the block response out. */
  lemma VerdictLeads(w: World, k: TaskKind, blocks: bool, w1: World)
    requires Staged(w) && HoldsNothingYet(w.ctx) && k in w.flights && w.flights[k] == Ran(blocks)
    requires w1 == Commit(Land(w, k), Verdict(w.ctx, k, blocks), false)
    ensures w1.wire == w.wire && HoldsNothingYet(w1.ctx)
    ensures blocks ==> EarlyBlock(w1.ctx.stage) || w1.ctx.stage == WafEndBlockCommit
  {
    assert w.wire + [] == w.wire;
  }

  lemma CompletionAnswers(w: World, k: TaskKind, r: BlockResponse, w1: World, w': World)
    requires Enabled(w, Completed(k, true, r)) && w' == After(w, Completed(k, true, r))
    requires w1 == Commit(Land(w, k), Verdict(w.ctx, k, w.flights[k].blocks), false)
    requires w1.wire == w.wire && HoldsNothingYet(w1.ctx)
    requires w.flights[k].blocks ==> EarlyBlock(w1.ctx.stage) || w1.ctx.stage == WafEndBlockCommit
    ensures w'.wire == w.wire + Answered(w.flights[k].blocks, r)
  {
    assert w' == if w.flights[k].blocks then SendBlock(w1, r) else w1;
    if w.flights[k].blocks {
      BlockGoesOut(w1, r);
    }
  }

  lemma BlockGoesOut(w: World, r: BlockResponse)
    requires EarlyBlock(w.ctx.stage) || w.ctx.stage == WafEndBlockCommit
    requires HoldsNothingYet(w.ctx)
    ensures SendBlock(w, r).wire == w.wire + Answered(true, r)
  {
    var w' := w.(wire := w.wire + [Header(r.header)]);
    var e := OutputBodyFilter(w.ctx, r.body, WriteFilter(Ok), true);
    if EarlyBlock(w.ctx.stage) {
      assert e == ReleaseBody(w.ctx, r.body, []);
      assert [] + Bodies(r.body) == Bodies(r.body);
    }
    assert e.sent == Bodies(r.body);
  }

  // ------------------------------------------------------------------ after the commit

  /** The last stage, with nothing held. */
  predicate Settled(w: World) {
    w.ctx.stage == AfterRunWafEnd && w.ctx.hdr.out == [] && w.ctx.out.out == [] && w.headerSeen
  }

  function Brought(ev: Event): seq<Link> {
    if ev.OnOutputBody? then ev.chain else []
  }

  /** What was sent since `w` is what came since. */
  ghost predicate PassedOn(w: World, w': World) {
    w.bodyIn <= w'.bodyIn && w'.wire == w.wire + Bodies(w'.bodyIn[|w.bodyIn|..])
  }

  lemma SettledBody(w: World, chain: seq<Link>, how: HeaderSend, posted: bool)
    requires Settled(w)
    ensures var w' := After(w, OnOutputBody(chain, how, posted));
            Settled(w') && w'.wire == w.wire + Bodies(chain) && w'.bodyIn == w.bodyIn + chain
  {
    assert OutputBodyFilter(w.ctx, chain, how, posted) == ReleaseBody(w.ctx, chain, []);
    assert [] + Bodies(chain) == Bodies(chain);
  }

  /** A completion in the last stage can only be the first task's, and that one did not block. */
  lemma SettledCompletion(w: World, k: TaskKind, alive: bool, r: BlockResponse)
    requires Staged(w) && Settled(w) && Enabled(w, Completed(k, alive, r))
    ensures var w' := After(w, Completed(k, alive, r)); Settled(w') && w'.wire == w.wire && w'.bodyIn == w.bodyIn
  {
    assert k == FirstWaf && w.flights[k] == Ran(false);
  }

  lemma SettledOther(w: World, ev: Event)
    requires Staged(w) && Settled(w) && Enabled(w, ev) && Orderly(w, ev) && !ev.OnOutputBody? && !ev.Completed?
    ensures var w' := After(w, ev); Settled(w') && w'.wire == w.wire && w'.bodyIn == w.bodyIn
  {
    if ev.OnRequestBody? {
      SettledRequestBody(w, ev.chain, ev.preread, ev.posted);
    }
  }

  lemma SettledRequestBody(w: World, chain: seq<Link>, preread: bool, posted: bool)
    requires Settled(w)
    ensures var w' := After(w, OnRequestBody(chain, preread, posted));
            Settled(w') && w'.wire == w.wire && w'.bodyIn == w.bodyIn
  {
    RequestBodyIsRequestSide(w.ctx, chain, preread, posted);
    LateRequestBody(w.ctx, chain, preread, posted);
  }

  lemma SettledPasses(w: World, ev: Event, w': World)
    requires Staged(w) && Settled(w) && Enabled(w, ev) && Orderly(w, ev) && w' == After(w, ev)
    ensures Settled(w') && w'.wire == w.wire + Bodies(Brought(ev)) && w'.bodyIn == w.bodyIn + Brought(ev)
  {
    match ev {
      case OnOutputBody(chain, how, posted) => SettledBody(w, chain, how, posted);
      case Completed(k, alive, r) => SettledCompletion(w, k, alive, r);
      case _ => SettledOther(w, ev);
    }
  }

  lemma PassedOnMore(w: World, m: World, w': World, b: seq<Link>)
    requires PassedOn(w, m) && w'.wire == m.wire + Bodies(b) && w'.bodyIn == m.bodyIn + b
    ensures PassedOn(w, w')
  {
    var a := m.bodyIn[|w.bodyIn|..];
    assert w'.bodyIn[|w.bodyIn|..] == a + b;
    BodiesJoin(a, b, w.wire);
  }

  /** From a settled state on, the client gets what comes later, and nothing else. */
  lemma {:induction false} SettledRunPasses(w: World, events: seq<Event>, w': World)
    requires Staged(w) && Settled(w) && Play(w, events) == Some(w') && OrderlyRun(w, events)
    ensures Staged(w') && Settled(w') && PassedOn(w, w')
  {
    if events == [] {
      assert w.wire + Bodies([]) == w.wire;
    } else {
      var n := |events| - 1;
      var before := Play(w, events[..n]).value;
      SettledRunPasses(w, events[..n], before);
      EventKeepsStaged(before, events[n]);
      SettledPasses(before, events[n], w');
      PassedOnMore(w, before, w', Brought(events[n]));
    }
  }

  lemma BodiesJoin(a: seq<Link>, b: seq<Link>, sent: seq<Sent>)
    ensures sent + Bodies(a + b) == (sent + Bodies(a)) + Bodies(b)
  {
  }

  /** A blocked response over the rest of the run: the block response, then whatever chains come later. */
  lemma BlockedResponseOverTheRun(sendRespBody: bool, maxSaved: nat, events: seq<Event>, w: World, r: BlockResponse,
                                  w1: World, later: seq<Event>, w2: World)
    requires Play(Fresh(sendRespBody, maxSaved), events) == Some(w)
    requires OrderlyRun(Fresh(sendRespBody, maxSaved), events)
    requires FinalWaf in w.flights && w.flights[FinalWaf] == Ran(true) && r.headerOk
    requires w1 == After(w, Completed(FinalWaf, true, r)) && Play(w1, later) == Some(w2) && OrderlyRun(w1, later)
    ensures w1.bodyIn <= w2.bodyIn
    ensures w2.wire == [Header(r.header)] + Bodies(r.body) + Bodies(w2.bodyIn[|w1.bodyIn|..])
  {
    BlockedResponseIsReplaced(sendRespBody, maxSaved, events, w, r);
    RunShielded(sendRespBody, maxSaved, events, w);
    CommitSettles(w, r, w1);
    EventKeepsStaged(w, Completed(FinalWaf, true, r));
    SettledRunPasses(w1, later, w2);
  }

  lemma CommitSettles(w: World, r: BlockResponse, w1: World)
    requires Staged(w) && Shielded(w) && FinalWaf in w.flights && w.flights[FinalWaf] == Ran(true) && r.headerOk
    requires w1 == After(w, Completed(FinalWaf, true, r))
    ensures Settled(w1)
  {
    FinalBlockIsSent(w, r, w1);
    assert w.ctx.stage == PendingWafEnd;
  }
}
