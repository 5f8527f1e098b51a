/** Every stage write follows the documented diagram, over every run of both threads, and so each
    kind of WAF task is created at most once per request. */
module StageMachine {
  import opened Basics
  import opened Chain
  import opened FilterBuffer
  import opened Stages
  import opened Interception
  import opened InterceptionRuns

  /** The stage whose entry accompanies the creation of a task. */
  function Mark(k: TaskKind): Stage {
    match k
    case FirstWaf => EnteredOnStart
    case ReqBodyWaf => SuspendedOnReqWaf
    case FinalWaf => PendingWafEnd
  }

  /** Stages that a task in flight relies on. */
  const PINNED: set<Stage> := {EnteredOnStart, AfterBeginWafBlock, SuspendedOnReqWaf, PendingWafEnd}

  /** What every callback of the main thread respects: its stage writes continue the diagram, it
      creates a task exactly when it enters that task's stage and stays there if the task was posted,
      and it leaves a stage that a task relies on alone. */
  ghost predicate Regular(c: Ctx, e: Effect, posted: bool) {
    RegularPath(c.stage, e.writes, e.ctx.stage, e.task, posted)
  }

  ghost predicate RegularPath(from: Stage, writes: seq<Stage>, to: Stage, task: Option<TaskKind>, posted: bool) {
    && DocumentedTrail([from] + writes)
    && ([from] + writes)[|writes|] == to
    && (forall k :: task == Some(k) <==> Mark(k) in writes)
    && (task.Some? && posted ==> to == Mark(task.value))
    && (from in PINNED ==> to == from && task == None)
  }

  lemma QuietIsRegular(c: Ctx, e: Effect, posted: bool)
    requires e.writes == [] && e.task == None && e.ctx.stage == c.stage
    ensures Regular(c, e, posted)
  {
  }

  lemma StartIsRegular(c: Ctx, hasPool: bool, posted: bool)
    ensures Regular(c, RequestStart(c, hasPool), posted)
  {
  }

  lemma RequestBodyIsRegular(c: Ctx, chain: seq<Link>, preread: bool, posted: bool)
    ensures Regular(c, RequestBodyFilter(c, chain, preread, posted), posted)
  {
    if c.stage == AfterBeginWaf && chain != [] && preread {
    } else if c.stage == AfterBeginWaf {
      CollectIsRegular(c, chain, posted, [CollectingOnReqData]);
    } else if c.stage == CollectingOnReqData {
      CollectIsRegular(c, chain, posted, []);
    } else if c.stage == CollectingOnReqDataPreread {
    } else {
      QuietIsRegular(c, RequestBodyFilter(c, chain, preread, posted), posted);
    }
  }

  lemma CollectIsRegular(c: Ctx, chain: seq<Link>, posted: bool, writes: seq<Stage>)
    requires (c.stage == AfterBeginWaf && writes == [CollectingOnReqData])
          || (c.stage == CollectingOnReqData && writes == [])
    ensures Regular(c, CollectRequest(c.(stage := CollectingOnReqData), chain, posted, writes), posted)
  {
    CollectPaths(posted);
    var e := CollectRequest(c.(stage := CollectingOnReqData), chain, posted, writes);
    assert writes + [AfterOnReqWaf] == if writes == [] then [AfterOnReqWaf] else [CollectingOnReqData, AfterOnReqWaf];
    assert writes + [SuspendedOnReqWaf]
        == if writes == [] then [SuspendedOnReqWaf] else [CollectingOnReqData, SuspendedOnReqWaf];
  }

  lemma CollectPaths(posted: bool)
    ensures RegularPath(AfterBeginWaf, [CollectingOnReqData], CollectingOnReqData, None, posted)
    ensures RegularPath(AfterBeginWaf, [CollectingOnReqData, AfterOnReqWaf], AfterOnReqWaf, None, posted)
    ensures RegularPath(AfterBeginWaf, [CollectingOnReqData, SuspendedOnReqWaf], SuspendedOnReqWaf,
                        Some(ReqBodyWaf), posted)
    ensures RegularPath(AfterBeginWaf, [CollectingOnReqData] + [SuspendedOnReqWaf, AfterOnReqWaf], AfterOnReqWaf,
                        Some(ReqBodyWaf), false)
    ensures RegularPath(CollectingOnReqData, [], CollectingOnReqData, None, posted)
    ensures RegularPath(CollectingOnReqData, [AfterOnReqWaf], AfterOnReqWaf, None, posted)
    ensures RegularPath(CollectingOnReqData, [SuspendedOnReqWaf], SuspendedOnReqWaf, Some(ReqBodyWaf), posted)
    ensures RegularPath(CollectingOnReqData, [] + [SuspendedOnReqWaf, AfterOnReqWaf], AfterOnReqWaf,
                        Some(ReqBodyWaf), false)
  {
  }

  lemma SubmitFinalIsRegular(c: Ctx, c': Ctx, posted: bool, code: Code)
    requires c.stage == c'.stage && Documented(c.stage, PendingWafEnd)
    ensures Regular(c, SubmitFinal(c', posted, code), posted)
  {
  }

  lemma HeaderIsRegular(c: Ctx, emitted: seq<Link>, nextOk: bool, parseable: bool, posted: bool)
    ensures Regular(c, HeaderFilter(c, emitted, nextOk, parseable, posted), posted)
  {
    var e := HeaderFilter(c, emitted, nextOk, parseable, posted);
    if e.task.Some? {
      var held := if Refuses(c.hdr, emitted) then c.hdr else Buffered(c.hdr, emitted, true);
      SubmitFinalIsRegular(c, c.(hdr := held, sendRespBody := false), posted, Ok);
    } else if e.writes == [] {
      QuietIsRegular(c, e, posted);
    }
  }

  lemma OutputBodyIsRegular(c: Ctx, chain: seq<Link>, how: HeaderSend, posted: bool)
    ensures Regular(c, OutputBodyFilter(c, chain, how, posted), posted)
  {
    var e := OutputBodyFilter(c, chain, how, posted);
    if Buffering(c.stage) {
      if e.task.Some? {
        var held := Buffered(c.out, chain, c.out.copied < c.maxSaved);
        SubmitFinalIsRegular(c, c.(out := held, sendRespBody := c.sendRespBody && held.total != 0), posted, e.code);
      } else {
        QuietIsRegular(c, e, posted);
      }
    } else if c.stage != WafEndBlockCommit {
      QuietIsRegular(c, e, posted);
    }
  }

  /** The trail is documented and ends at the current stage, each task created left its mark on it,
      and each task in flight pins the stage it needs. */
  ghost predicate Staged(w: World) {
    && w.trail != [] && w.trail[0] == Start && w.trail[|w.trail| - 1] == w.ctx.stage && DocumentedTrail(w.trail)
    && (forall i, j :: 0 <= i < j < |w.created| ==> w.created[i] != w.created[j])
    && (forall k :: k in w.created <==> Mark(k) in w.trail)
    && (forall k :: k in w.flights ==> k in w.created)
    && Pinned(w)
  }

  ghost predicate Pinned(w: World) {
    && (FirstWaf in w.flights && !w.flights[FirstWaf].Ran? ==> w.ctx.stage == EnteredOnStart)
    && (FirstWaf in w.flights && w.flights[FirstWaf].Running? ==> w.flights[FirstWaf].loaded == EnteredOnStart)
    && (FirstWaf in w.flights && w.flights[FirstWaf] == Ran(true) ==> w.ctx.stage == AfterBeginWafBlock)
    && (ReqBodyWaf in w.flights ==> w.ctx.stage == SuspendedOnReqWaf)
    && (FinalWaf in w.flights ==> w.ctx.stage == PendingWafEnd)
    && (FinalWaf in w.flights && w.flights[FinalWaf].Running? ==> w.flights[FinalWaf].loaded == PendingWafEnd)
  }

  lemma CommitKeepsTrail(w: World, e: Effect, posted: bool)
    requires Staged(w)
    requires DocumentedTrail([w.ctx.stage] + e.writes)
    requires ([w.ctx.stage] + e.writes)[|e.writes|] == e.ctx.stage
    requires forall k :: e.task == Some(k) <==> Mark(k) in e.writes
    ensures var w' := Commit(w, e, posted);
            Pinned(w') ==> Staged(w')
  {
    var w' := Commit(w, e, posted);
    TrailExtends(w.trail, e.writes);
    if e.task.Some? && e.task.value in w.created {
      var s := Mark(e.task.value);
      var i :| 0 <= i < |w.trail| && w.trail[i] == s;
      var j :| 0 <= j < |e.writes| && e.writes[j] == s;
      TrailRises(w'.trail, i, |w.trail| + j);
      assert false;
    }
    assert w'.trail[|w'.trail| - 1] == ([w.ctx.stage] + e.writes)[|e.writes|];
  }

  lemma RegularKeepsStaged(w: World, e: Effect, posted: bool)
    requires Staged(w) && Regular(w.ctx, e, posted)
    ensures Staged(Commit(w, e, posted))
  {
    CommitKeepsTrail(w, e, posted);
  }

  lemma CallbackKeepsStaged(w: World, ev: Event)
    requires Staged(w)
    requires ev.OnRequestStart? || ev.OnRequestBody? || ev.OnHeader? || ev.OnOutputBody?
    ensures Staged(After(w, ev))
  {
    match ev {
      case OnRequestStart(hasPool, posted) =>
        StartIsRegular(w.ctx, hasPool, posted);
        RegularKeepsStaged(w, RequestStart(w.ctx, hasPool), posted);
      case OnRequestBody(chain, preread, posted) =>
        RequestBodyIsRegular(w.ctx, chain, preread, posted);
        RegularKeepsStaged(w.(reqIn := w.reqIn + chain), RequestBodyFilter(w.ctx, chain, preread, posted), posted);
      case OnHeader(emitted, nextOk, parseable, posted) =>
        HeaderIsRegular(w.ctx, emitted, nextOk, parseable, posted);
        RegularKeepsStaged(w.(headerSeen := true, hdrIn := w.hdrIn + Bytes(emitted)),
                           HeaderFilter(w.ctx, emitted, nextOk, parseable, posted), posted);
      case OnOutputBody(chain, how, posted) =>
        OutputBodyIsRegular(w.ctx, chain, how, posted);
        RegularKeepsStaged(w.(bodyIn := w.bodyIn + chain), OutputBodyFilter(w.ctx, chain, how, posted), posted);
    }
  }

  /** The thread's load and store are two steps; the stage cannot move between them. */
  lemma ThreadKeepsStaged(w: World, ev: Event)
    requires Staged(w) && Enabled(w, ev)
    requires ev.ThreadBegins? || ev.ThreadEnds? || ev.ThreadThrows?
    ensures Staged(After(w, ev))
  {
    if ev.ThreadEnds? && ev.kind == FirstWaf {
      FirstRunKeepsStaged(w, ev.blocks);
    } else {
      var phase := After(w, ev).flights[ev.kind];
      PhaseKeepsStaged(w, ev.kind, phase);
      SameHistory(w, ev, phase);
    }
  }

  lemma SameHistory(w: World, ev: Event, phase: Phase)
    requires Enabled(w, ev) && (ev.ThreadBegins? || ev.ThreadEnds? || ev.ThreadThrows?)
    requires !(ev.ThreadEnds? && ev.kind == FirstWaf) && phase == After(w, ev).flights[ev.kind]
    ensures After(w, ev) == w.(flights := w.flights[ev.kind := phase])
  {
    assert w.trail + [] == w.trail && w.reqOut + [] == w.reqOut && w.wire + [] == w.wire && w.created + [] == w.created;
  }

  lemma PhaseKeepsStaged(w: World, k: TaskKind, phase: Phase)
    requires Staged(w) && k in w.flights && !w.flights[k].Ran?
    requires phase.Running? ==> phase.loaded == w.ctx.stage
    requires k == FirstWaf ==> phase != Ran(true)
    ensures Staged(w.(flights := w.flights[k := phase]))
  {
  }

  lemma FirstRunKeepsStaged(w: World, blocks: bool)
    requires Staged(w) && Enabled(w, ThreadEnds(FirstWaf, blocks))
    ensures Staged(After(w, ThreadEnds(FirstWaf, blocks)))
  {
    var e := RunWafStart(w.ctx, EnteredOnStart, blocks);
    CommitKeepsTrail(Land(w, FirstWaf), e, false);
    assert Staged(Commit(Land(w, FirstWaf), e, false));
  }

  lemma SendBlockKeepsStaged(w: World, r: BlockResponse)
    requires Staged(w)
    ensures Staged(SendBlock(w, r))
  {
    var w' := w.(wire := w.wire + [Header(r.header)]);
    OutputBodyIsRegular(w.ctx, r.body, WriteFilter(Ok), true);
    RegularKeepsStaged(w', OutputBodyFilter(w.ctx, r.body, WriteFilter(Ok), true), true);
  }

  lemma VerdictKeepsStaged(w: World, k: TaskKind, blocks: bool)
    requires Staged(w) && k !in w.flights
    requires k == ReqBodyWaf ==> w.ctx.stage == SuspendedOnReqWaf
    requires k == FinalWaf ==> w.ctx.stage == PendingWafEnd
    ensures Staged(Commit(w, Verdict(w.ctx, k, blocks), false))
  {
    CommitKeepsTrail(w, Verdict(w.ctx, k, blocks), false);
  }

  lemma CompletionKeepsStaged(w: World, k: TaskKind, alive: bool, r: BlockResponse)
    requires Staged(w) && Enabled(w, Completed(k, alive, r))
    ensures Staged(After(w, Completed(k, alive, r)))
  {
    var w0, blocks := Land(w, k), w.flights[k].blocks;
    LandKeepsStaged(w, k);
    if alive {
      VerdictKeepsStaged(w0, k, blocks);
      var w1 := Commit(w0, Verdict(w0.ctx, k, blocks), false);
      SendBlockKeepsStaged(w1, r);
      assert After(w, Completed(k, alive, r)) == if blocks then SendBlock(w1, r) else w1;
    }
  }

  lemma LandKeepsStaged(w: World, k: TaskKind)
    requires Staged(w)
    ensures Staged(Land(w, k))
  {
  }

  lemma EventKeepsStaged(w: World, ev: Event)
    requires Staged(w) && Enabled(w, ev)
    ensures Staged(After(w, ev))
  {
    match ev {
      case ThreadBegins(_) => ThreadKeepsStaged(w, ev);
      case ThreadEnds(_, _) => ThreadKeepsStaged(w, ev);
      case ThreadThrows(_) => ThreadKeepsStaged(w, ev);
      case Completed(k, alive, r) => CompletionKeepsStaged(w, k, alive, r);
      case _ => CallbackKeepsStaged(w, ev);
    }
  }

  /** A task is not created before its stage. */
  lemma NotCreatedBefore(w: World, k: TaskKind)
    requires Staged(w) && Rank(w.ctx.stage) < Rank(Mark(k))
    ensures k !in w.created
  {
    if k in w.created {
      var i :| 0 <= i < |w.trail| && w.trail[i] == Mark(k);
      if i < |w.trail| - 1 {
        TrailRises(w.trail, i, |w.trail| - 1);
      }
      assert false;
    }
  }

  /** Stage writes are only ever added. */
  lemma EventExtendsTrail(w: World, ev: Event)
    requires Enabled(w, ev)
    ensures w.trail <= After(w, ev).trail
  {
  }

  /** Every run, whatever the callbacks, threads and completions do and in whatever order. */
  lemma {:induction false} RunIsStaged(sendRespBody: bool, maxSaved: nat, events: seq<Event>)
    ensures var played := Play(Fresh(sendRespBody, maxSaved), events);
            played.Some? ==> Staged(played.value)
  {
    if events != [] {
      var n := |events| - 1;
      RunIsStaged(sendRespBody, maxSaved, events[..n]);
      var before := Play(Fresh(sendRespBody, maxSaved), events[..n]);
      if before.Some? && Enabled(before.value, events[n]) {
        EventKeepsStaged(before.value, events[n]);
      }
    }
  }

  /** Ranks rise along every run, nothing follows a final stage, and no kind of task is created twice. */
  lemma StagesRiseAndTasksAreUnique(sendRespBody: bool, maxSaved: nat, events: seq<Event>, w: World)
    requires Play(Fresh(sendRespBody, maxSaved), events) == Some(w)
    ensures w.trail != [] && w.trail[|w.trail| - 1] == w.ctx.stage && DocumentedTrail(w.trail)
    ensures forall i, j :: 0 <= i < j < |w.trail| ==>
              Rank(w.trail[i]) < Rank(w.trail[j]) && !PossibleFinal(w.trail[i])
    ensures forall i, j :: 0 <= i < j < |w.created| ==> w.created[i] != w.created[j]
  {
    RunIsStaged(sendRespBody, maxSaved, events);
    forall i, j | 0 <= i < j < |w.trail|
      ensures Rank(w.trail[i]) < Rank(w.trail[j]) && !PossibleFinal(w.trail[i])
    {
      TrailRises(w.trail, i, j);
    }
  }
}
