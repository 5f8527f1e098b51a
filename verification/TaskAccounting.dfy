/** Runs of a request with its books: the protocol's events, the completions as they really end, the drain of a
    held header, and what nginx does with its own references and handlers in between. */
module TaskAccounting {
  import opened Basics
  import opened Chain
  import opened Stages
  import opened Interception
  import opened InterceptionRuns
  import opened StageMachine
  import opened ExampleRuns
  import opened TaskBooks
  import opened BlockSafety

  /** `chosen` are the handlers that nginx set last. */
  datatype Request = Request(w: World, b: Books, chosen: Handlers)

  datatype Act =
    | Protocol(ev: Event)
    | Completes(kind: TaskKind, rearmed: bool, response: BlockResponse)
    | DrainRuns(how: HeaderSend, flushed: bool)
    | Acquires
    | Releases
    | GivesUp
    | Terminates
    | Chooses(handlers: Handlers)

  /** nginx gives up only references it holds, and sets handlers only while none of the module's are in place. */
  predicate Possible(r: Request, act: Act) {
    match act
    case Protocol(ev) => !ev.Completed? && Enabled(r.w, ev)
    case Completes(k, _, _) =>
      k in r.w.flights && r.w.flights[k].Ran? && k in r.b.saved && r.b.count > 0 && r.b.blocked > 0
    case DrainRuns(_, _) => r.b.drain.Some?
    case Acquires => true
    case Releases => r.b.others > 0 && r.b.count > 0
    case GivesUp => r.b.owed > 0 && r.b.count > 0
    case Terminates => true
    case Chooses(h) => r.b.saved == map[] && r.b.drain.None? && OwnedByNginx(h)
  }

  predicate IsCallback(ev: Event) {
    ev.OnRequestStart? || ev.OnRequestBody? || ev.OnHeader? || ev.OnOutputBody?
  }

  function EffectOf(w: World, ev: Event): Effect
    requires IsCallback(ev)
  {
    match ev
    case OnRequestStart(hasPool, _) => RequestStart(w.ctx, hasPool)
    case OnRequestBody(chain, preread, posted) => RequestBodyFilter(w.ctx, chain, preread, posted)
    case OnHeader(emitted, nextOk, parseable, posted) => HeaderFilter(w.ctx, emitted, nextOk, parseable, posted)
    case OnOutputBody(chain, how, posted) => OutputBodyFilter(w.ctx, chain, how, posted)
  }

  predicate HoldsHeader(w: World) { w.ctx.hdr.out != [] }

  /** The drain handler goes through the filters with no new links; it is done when they took everything. */
  predicate DrainDone(w: World, how: HeaderSend, flushed: bool) {
    var code := OutputBodyFilter(w.ctx, [], how, true).code;
    code != Again && code != Failed && flushed
  }

  function Next(r: Request, act: Act): Request
    requires Possible(r, act)
  {
    match act
    case Protocol(ev) =>
      var w' := After(r.w, ev);
      var k := if IsCallback(ev) then EffectOf(r.w, ev).task else None;
      r.(w := w', b := if k.Some? then Submitted(r.b, k.value, ev.posted, HoldsHeader(w')) else r.b)
    case Completes(k, rearmed, response) =>
      var w' := After(r.w, Completed(k, EndingOf(r.b, rearmed) == Completing, response));
      r.(w := w', b := Finished(r.b, k, rearmed, r.w.flights[k].blocks, HoldsHeader(w')))
    case DrainRuns(how, flushed) =>
      r.(w := After(r.w, OnOutputBody([], how, true)), b := if DrainDone(r.w, how, flushed) then Drained(r.b) else r.b)
    case Acquires => r.(b := r.b.(others := r.b.others + 1, count := r.b.count + 1))
    case Releases => r.(b := r.b.(others := r.b.others - 1, count := r.b.count - 1))
    case GivesUp => r.(b := r.b.(owed := r.b.owed - 1, count := r.b.count - 1))
    case Terminates => r.(b := r.b.(terminated := true))
    case Chooses(h) => r.(b := r.b.(handlers := h), chosen := h)
  }

  function Acted(r: Request, acts: seq<Act>): Option<Request> {
    if acts == [] then Some(r)
    else
      var n := |acts| - 1;
      match Acted(r, acts[..n])
      case None => None
      case Some(before) => if Possible(before, acts[n]) then Some(Next(before, acts[n])) else None
  }

  function Opened(sendRespBody: bool, maxSaved: nat, others: nat, proxied: bool, handlers: Handlers): Request {
    Request(Fresh(sendRespBody, maxSaved), Open(others, proxied, handlers), handlers)
  }

  /** Whether the first task completed under the request body task's handler or a drain's, since nginx last set
      the handlers. */
  predicate Stranded(r: Request, acts: seq<Act>) {
    acts != [] &&
    var n := |acts| - 1;
    match Acted(r, acts[..n])
    case None => false
    case Some(before) => StrandedAt(before, acts[n], Stranded(r, acts[..n]))
  }

  predicate StrandedAt(r: Request, act: Act, stranded: bool) {
    match act
    case Chooses(_) => false
    case Completes(k, _, _) => StrandedBy(r.b, k, stranded)
    case _ => stranded
  }

  // --------------------------------------------------------- where tasks are created

  lemma CallbackIsRegular(w: World, ev: Event, e: Effect)
    requires IsCallback(ev) && e == EffectOf(w, ev)
    ensures Regular(w.ctx, e, ev.posted) && After(w, ev).ctx == e.ctx
    ensures After(w, ev).flights == if e.task.Some? && ev.posted then w.flights[e.task.value := Posted] else w.flights
  {
    match ev {
      case OnRequestStart(hasPool, posted) => StartIsRegular(w.ctx, hasPool, posted);
      case OnRequestBody(chain, preread, posted) => RequestBodyIsRegular(w.ctx, chain, preread, posted);
      case OnHeader(emitted, nextOk, parseable, posted) => HeaderIsRegular(w.ctx, emitted, nextOk, parseable, posted);
      case OnOutputBody(chain, how, posted) => OutputBodyIsRegular(w.ctx, chain, how, posted);
    }
  }

  lemma CreationExtends(w: World, ev: Event)
    requires IsCallback(ev)
    ensures var k := EffectOf(w, ev).task; After(w, ev).created == w.created + if k.Some? then [k.value] else []
  {
  }

  /** A task is created only where none of its kind was before, where neither of the later tasks is in flight,
      and before the last stage. */
  lemma CreatedWhere(w: World, ev: Event, k: TaskKind)
    requires Staged(w) && IsCallback(ev) && EffectOf(w, ev).task == Some(k)
    ensures k !in w.created && k !in w.flights && k in After(w, ev).created
    ensures ReqBodyWaf !in w.flights && FinalWaf !in w.flights && w.ctx.stage != AfterRunWafEnd
  {
    var e := EffectOf(w, ev);
    CallbackIsRegular(w, ev, e);
    EventKeepsStaged(w, ev);
    CreationExtends(w, ev);
    CreatedOnce(w.created, k, After(w, ev).created);
    assert Mark(k) in e.writes;
    LeavesStage(w.ctx.stage, e.writes);
    assert w.ctx.stage !in PINNED;
  }

  lemma CreatedOnce(created: seq<TaskKind>, k: TaskKind, all: seq<TaskKind>)
    requires all == created + [k] && forall i, j :: 0 <= i < j < |all| ==> all[i] != all[j]
    ensures k !in created && k in all
  {
    assert all[|created|] == k;
    forall i | 0 <= i < |created| ensures created[i] != k {
      assert all[i] != all[|created|];
    }
  }

  lemma LeavesStage(from: Stage, writes: seq<Stage>)
    requires writes != [] && DocumentedTrail([from] + writes)
    ensures from != AfterRunWafEnd
  {
    assert Documented(([from] + writes)[0], ([from] + writes)[1]);
  }

  lemma FinalFailureEnds(w: World, ev: Event)
    requires IsCallback(ev) && EffectOf(w, ev).task == Some(FinalWaf) && !ev.posted
    ensures EffectOf(w, ev).ctx.stage == AfterRunWafEnd
  {
  }

  /** The last stage is never left, and no task is created in it. */
  lemma EndStays(w: World, ev: Event, w': World)
    requires Staged(w) && Enabled(w, ev) && w.ctx.stage == AfterRunWafEnd && w' == After(w, ev)
    ensures w'.ctx.stage == AfterRunWafEnd
  {
    EventKeepsStaged(w, ev);
    EventExtendsTrail(w, ev);
    TrailEnds(w, w');
  }

  lemma TrailEnds(w: World, w': World)
    requires Staged(w) && Staged(w') && w.trail <= w'.trail && w.ctx.stage == AfterRunWafEnd
    ensures w'.ctx.stage == AfterRunWafEnd
  {
    if |w'.trail| > |w.trail| {
      TrailRises(w'.trail, |w.trail| - 1, |w'.trail| - 1);
    }
  }

  lemma NoTaskAtEnd(w: World, ev: Event)
    requires Staged(w) && IsCallback(ev) && w.ctx.stage == AfterRunWafEnd
    ensures EffectOf(w, ev).task == None
  {
    if EffectOf(w, ev).task.Some? {
      CreatedWhere(w, ev, EffectOf(w, ev).task.value);
    }
  }

  lemma CompletionLands(w: World, k: TaskKind, alive: bool, r: BlockResponse)
    requires Staged(w) && Enabled(w, Completed(k, alive, r))
    ensures var w' := After(w, Completed(k, alive, r)); w'.flights == w.flights - {k} && w'.created == w.created
  {
    var blocks := w.flights[k].blocks;
    var w1 := Commit(Land(w, k), Verdict(w.ctx, k, blocks), false);
    assert w1.flights == w.flights - {k} && w1.created == w.created;
    if alive && blocks {
      assert !Buffering(w1.ctx.stage);
      assert OutputBodyFilter(w1.ctx, r.body, WriteFilter(Ok), true).task == None;
    }
  }

  // ------------------------------------------------------------------- the invariant

  /** The books know the tasks in flight, a drain is pending only in the last stage, and the first task is
      stranded only after it and what lay on top of it were there. */
  ghost predicate Linked(w: World, b: Books, stranded: bool) {
    && b.saved.Keys == w.flights.Keys && (b.drain.Some? ==> w.ctx.stage == AfterRunWafEnd)
    && (stranded ==> FirstWaf in w.created && (ReqBodyWaf in w.created || w.ctx.stage == AfterRunWafEnd))
  }

  /** The books follow the protocol's tasks, balance, and account for every handler. */
  ghost predicate Kept(r: Request, stranded: bool) {
    Staged(r.w) && Linked(r.w, r.b, stranded) && Sound(r.b, r.chosen, stranded)
  }

  /** What the protocol does without touching the books. */
  lemma KeptByWorld(r: Request, w': World, stranded: bool)
    requires Kept(r, stranded) && Staged(w') && w'.flights.Keys == r.w.flights.Keys && w'.created == r.w.created
    requires r.w.ctx.stage == AfterRunWafEnd ==> w'.ctx.stage == AfterRunWafEnd
    ensures Kept(r.(w := w'), stranded)
  {
  }

  lemma QuietWorld(w: World, ev: Event, w': World)
    requires Staged(w) && Enabled(w, ev) && !ev.Completed? && w' == After(w, ev)
    requires IsCallback(ev) ==> EffectOf(w, ev).task == None
    ensures Staged(w') && w'.flights.Keys == w.flights.Keys && w'.created == w.created
    ensures w.ctx.stage == AfterRunWafEnd ==> w'.ctx.stage == AfterRunWafEnd
  {
    EventKeepsStaged(w, ev);
    if IsCallback(ev) {
      CallbackIsRegular(w, ev, EffectOf(w, ev));
      CreationExtends(w, ev);
    } else {
      ThreadsAreQuiet(w, ev, w');
    }
    if w.ctx.stage == AfterRunWafEnd {
      EndStays(w, ev, w');
    }
  }

  lemma ThreadsAreQuiet(w: World, ev: Event, w': World)
    requires Enabled(w, ev) && !ev.Completed? && !IsCallback(ev) && w' == After(w, ev)
    ensures w'.flights.Keys == w.flights.Keys && w'.created == w.created
  {
  }

  lemma QuietKept(r: Request, ev: Event, stranded: bool)
    requires Kept(r, stranded) && Possible(r, Protocol(ev)) && (IsCallback(ev) ==> EffectOf(r.w, ev).task == None)
    ensures Kept(r.(w := After(r.w, ev)), stranded)
  {
    QuietWorld(r.w, ev, After(r.w, ev));
    KeptByWorld(r, After(r.w, ev), stranded);
  }

  /** A task is created and, if it was posted, in flight. */
  lemma CreationWorld(w: World, ev: Event, k: TaskKind, w': World)
    requires Staged(w) && IsCallback(ev) && EffectOf(w, ev).task == Some(k) && w' == After(w, ev)
    ensures Staged(w') && w'.created == w.created + [k]
    ensures w'.flights.Keys == w.flights.Keys + if ev.posted then {k} else {}
    ensures k == FinalWaf && !ev.posted ==> w'.ctx.stage == AfterRunWafEnd
  {
    CallbackIsRegular(w, ev, EffectOf(w, ev));
    EventKeepsStaged(w, ev);
    CreationExtends(w, ev);
    if k == FinalWaf && !ev.posted {
      FinalFailureEnds(w, ev);
    }
  }

  lemma SubmitLinked(w: World, b: Books, k: TaskKind, posted: bool, w': World, b': Books, stranded: bool)
    requires Linked(w, b, stranded) && w.ctx.stage != AfterRunWafEnd
    requires w'.created == w.created + [k] && w'.flights.Keys == w.flights.Keys + if posted then {k} else {}
    requires b'.saved.Keys == b.saved.Keys + if posted then {k} else {}
    requires b'.drain.Some? ==> w'.ctx.stage == AfterRunWafEnd
    ensures Linked(w', b', stranded)
  {
  }

  lemma CreationKept(r: Request, ev: Event, k: TaskKind, stranded: bool)
    requires Kept(r, stranded) && IsCallback(ev) && EffectOf(r.w, ev).task == Some(k)
    ensures Kept(r.(w := After(r.w, ev), b := Submitted(r.b, k, ev.posted, HoldsHeader(After(r.w, ev)))), stranded)
  {
    var w' := After(r.w, ev);
    var b' := Submitted(r.b, k, ev.posted, HoldsHeader(w'));
    CreatedWhere(r.w, ev, k);
    CreationWorld(r.w, ev, k, w');
    assert forall j :: j in r.b.saved.Keys <==> j in r.w.flights.Keys;
    SubmittedSound(r.b, k, ev.posted, HoldsHeader(w'), r.chosen, stranded);
    SubmitLinked(r.w, r.b, k, ev.posted, w', b', stranded);
  }

  lemma ProtocolKept(r: Request, ev: Event, stranded: bool)
    requires Kept(r, stranded) && Possible(r, Protocol(ev))
    ensures Kept(Next(r, Protocol(ev)), stranded)
  {
    if IsCallback(ev) && EffectOf(r.w, ev).task.Some? {
      CreationKept(r, ev, EffectOf(r.w, ev).task.value, stranded);
    } else {
      QuietKept(r, ev, stranded);
    }
  }

  lemma FinalEnds(w: World, r: BlockResponse)
    requires Staged(w) && FinalWaf in w.flights && w.flights[FinalWaf] == Ran(false)
    ensures After(w, Completed(FinalWaf, true, r)).ctx.stage == AfterRunWafEnd
  {
  }

  /** A completion in the protocol: the task lands, and an unblocked final one reaches the last stage. */
  lemma CompletionWorld(w: World, k: TaskKind, alive: bool, r: BlockResponse, w': World)
    requires Staged(w) && Enabled(w, Completed(k, alive, r)) && w' == After(w, Completed(k, alive, r))
    ensures Staged(w') && w'.flights.Keys == w.flights.Keys - {k} && w'.created == w.created
    ensures w.ctx.stage == AfterRunWafEnd || (alive && k == FinalWaf && !w.flights[k].blocks) ==>
              w'.ctx.stage == AfterRunWafEnd
    ensures k == FinalWaf ==> ReqBodyWaf !in w.flights && w.ctx.stage == PendingWafEnd
  {
    EventKeepsStaged(w, Completed(k, alive, r));
    CompletionLands(w, k, alive, r);
    if w.ctx.stage == AfterRunWafEnd {
      EndStays(w, Completed(k, alive, r), w');
    } else if alive && k == FinalWaf && !w.flights[k].blocks {
      FinalEnds(w, r);
    }
  }

  lemma FinishLinked(w: World, b: Books, k: TaskKind, w': World, b': Books, stranded: bool)
    requires Staged(w) && Linked(w, b, stranded) && k in b.saved
    requires w'.flights.Keys == w.flights.Keys - {k} && w'.created == w.created && b'.saved.Keys == b.saved.Keys - {k}
    requires w.ctx.stage == AfterRunWafEnd ==> w'.ctx.stage == AfterRunWafEnd
    requires b'.drain.Some? ==> b.drain.Some? || w'.ctx.stage == AfterRunWafEnd
    ensures Linked(w', b', StrandedBy(b, k, stranded))
  {
    assert forall j :: j in b.saved.Keys ==> j in w.flights.Keys && j in w.created;
  }

  lemma CompletesKept(r: Request, k: TaskKind, rearmed: bool, response: BlockResponse, stranded: bool)
    requires Kept(r, stranded) && Possible(r, Completes(k, rearmed, response))
    ensures Kept(Next(r, Completes(k, rearmed, response)), StrandedBy(r.b, k, stranded))
  {
    var alive, blocks := EndingOf(r.b, rearmed) == Completing, r.w.flights[k].blocks;
    var w' := After(r.w, Completed(k, alive, response));
    CompletionWorld(r.w, k, alive, response, w');
    assert ReqBodyWaf in r.b.saved.Keys <==> ReqBodyWaf in r.w.flights.Keys;
    FinishedSound(r.b, k, rearmed, blocks, HoldsHeader(w'), r.chosen, stranded);
    FinishLinked(r.w, r.b, k, w', Finished(r.b, k, rearmed, blocks, HoldsHeader(w')), stranded);
  }

  lemma DrainedKept(r: Request, stranded: bool)
    requires Kept(r, stranded) && r.b.drain.Some?
    ensures Kept(r.(b := Drained(r.b)), stranded)
  {
    DrainedSound(r.b, r.chosen, stranded);
  }

  lemma DrainRunsKept(r: Request, how: HeaderSend, flushed: bool, stranded: bool)
    requires Kept(r, stranded) && Possible(r, DrainRuns(how, flushed))
    ensures Kept(Next(r, DrainRuns(how, flushed)), stranded)
  {
    NoTaskAtEnd(r.w, OnOutputBody([], how, true));
    QuietKept(r, OnOutputBody([], how, true), stranded);
    var r1 := r.(w := After(r.w, OnOutputBody([], how, true)));
    if DrainDone(r.w, how, flushed) {
      DrainedKept(r1, stranded);
    }
  }

  /** What nginx does by itself: references, termination, and handlers while none of the module's are there. */
  lemma OwnActKept(r: Request, act: Act, stranded: bool)
    requires Kept(r, stranded) && Possible(r, act)
    requires act.Acquires? || act.Releases? || act.GivesUp? || act.Terminates? || act.Chooses?
    ensures Kept(Next(r, act), StrandedAt(r, act, stranded))
  {
    if act.Chooses? {
      ChosenSound(r.b, r.chosen, stranded, act.handlers);
    } else {
      ReferencesSound(r.b, r.chosen, stranded, Next(r, act).b);
    }
  }

  lemma NextKept(r: Request, act: Act, stranded: bool)
    requires Kept(r, stranded) && Possible(r, act)
    ensures Kept(Next(r, act), StrandedAt(r, act, stranded))
  {
    match act
    case Protocol(ev) => ProtocolKept(r, ev, stranded);
    case Completes(k, rearmed, response) => CompletesKept(r, k, rearmed, response, stranded);
    case DrainRuns(how, flushed) => DrainRunsKept(r, how, flushed, stranded);
    case _ => OwnActKept(r, act, stranded);
  }

  lemma {:induction false} RunKept(start: Request, acts: seq<Act>, r: Request)
    requires Kept(start, false) && Acted(start, acts) == Some(r)
    ensures Kept(r, Stranded(start, acts))
  {
    if acts != [] {
      var n := |acts| - 1;
      var before := Acted(start, acts[..n]).value;
      RunKept(start, acts[..n], before);
      NextKept(before, acts[n], Stranded(start, acts[..n]));
    }
  }

  lemma OpenedKept(sendRespBody: bool, maxSaved: nat, others: nat, proxied: bool, handlers: Handlers)
    requires OwnedByNginx(handlers)
    ensures Kept(Opened(sendRespBody, maxSaved, others, proxied, handlers), false)
  {
    RunIsStaged(sendRespBody, maxSaved, []);
  }

  // --------------------------------------------------------------- what every run keeps

  /** In every run the extra references are those of the tasks in flight and of finalizations under way,
      `blocked` counts the tasks in flight, and the statistics add up. A task that ran can always complete, and
      a request without references has none in flight. */
  lemma RunBalanced(sendRespBody: bool, maxSaved: nat, others: nat, proxied: bool, handlers: Handlers, acts: seq<Act>,
                    r: Request)
    requires OwnedByNginx(handlers) && Acted(Opened(sendRespBody, maxSaved, others, proxied, handlers), acts) == Some(r)
    ensures r.b.count == r.b.others + |r.w.flights| + r.b.owed && r.b.blocked == |r.w.flights|
    ensures r.b.destructed == r.b.completed + r.b.failed && r.b.created == r.b.destructed + |r.w.flights|
    ensures forall k, rearmed, response :: k in r.w.flights && r.w.flights[k].Ran? ==>
              Possible(r, Completes(k, rearmed, response))
    ensures r.b.count == 0 ==> r.w.flights == map[]
  {
    OpenedKept(sendRespBody, maxSaved, others, proxied, handlers);
    RunKept(Opened(sendRespBody, maxSaved, others, proxied, handlers), acts, r);
    SameCount(r.b.saved, r.w.flights);
    forall k | k in r.w.flights ensures k in r.b.saved && r.b.count > 0 && r.b.blocked > 0 {
      assert k in r.b.saved.Keys;
      FinishBalanced(r.b, k, true);
    }
  }

  lemma SameCount(saved: map<TaskKind, Handlers>, flights: map<TaskKind, Phase>)
    requires saved.Keys == flights.Keys
    ensures |saved| == |flights| && (|flights| == 0 ==> flights == map[]) && (flights == map[] ==> saved == map[])
  {
    assert |saved| == |saved.Keys| && |flights| == |flights.Keys|;
    assert flights == map[] ==> saved.Keys == {};
    assert |flights| == 0 ==> flights.Keys == {};
  }

  /** In every run, whenever no task is in flight, the handlers are those nginx chose if and only if no drain is
      pending and the first task did not complete under another handler since nginx chose them. */
  lemma HandlersBackExactly(sendRespBody: bool, maxSaved: nat, others: nat, proxied: bool, handlers: Handlers,
                            acts: seq<Act>, r: Request)
    requires OwnedByNginx(handlers) && Acted(Opened(sendRespBody, maxSaved, others, proxied, handlers), acts) == Some(r)
    requires r.w.flights == map[]
    ensures r.b.handlers == r.chosen <==>
              r.b.drain.None? && !Stranded(Opened(sendRespBody, maxSaved, others, proxied, handlers), acts)
  {
    var start := Opened(sendRespBody, maxSaved, others, proxied, handlers);
    OpenedKept(sendRespBody, maxSaved, others, proxied, handlers);
    RunKept(start, acts, r);
    SameCount(r.b.saved, r.w.flights);
    BackExactly(r.b, r.chosen, Stranded(start, acts));
  }

  /** Every run of a request with its books is a run of the protocol. */
  lemma {:induction false} ProtocolOf(start: Request, acts: seq<Act>, r: Request) returns (events: seq<Event>)
    requires Acted(start, acts) == Some(r)
    ensures Play(start.w, events) == Some(r.w)
  {
    if acts == [] {
      return [];
    }
    var n := |acts| - 1;
    var before := Acted(start, acts[..n]).value;
    events := ProtocolOf(start, acts[..n], before);
    var ev := EventOf(before, acts[n]);
    if ev.Some? {
      Extended(start.w, events, before.w, ev.value, r.w);
      events := events + [ev.value];
    }
  }

  /** What an act is to the protocol, if anything. */
  function EventOf(r: Request, act: Act): (ev: Option<Event>)
    requires Possible(r, act)
    ensures ev.Some? ==> Enabled(r.w, ev.value) && Next(r, act).w == After(r.w, ev.value)
    ensures ev.None? ==> Next(r, act).w == r.w
  {
    match act
    case Protocol(ev) => Some(ev)
    case Completes(k, rearmed, response) => Some(Completed(k, EndingOf(r.b, rearmed) == Completing, response))
    case DrainRuns(how, _) => Some(OnOutputBody([], how, true))
    case _ => None
  }

  /** In every run, a completion sends the block response exactly when its task blocks and the request was not
      terminated, is still held by others and could be re-armed; otherwise it sends nothing. */
  lemma BlocksExactlyWhenAlive(sendRespBody: bool, maxSaved: nat, others: nat, proxied: bool, handlers: Handlers,
                               acts: seq<Act>, r: Request, k: TaskKind, rearmed: bool, response: BlockResponse)
    requires OwnedByNginx(handlers) && Acted(Opened(sendRespBody, maxSaved, others, proxied, handlers), acts) == Some(r)
    requires Possible(r, Completes(k, rearmed, response))
    ensures var alive := !r.b.terminated && !IsLone(r.b, k) && rearmed;
            Next(r, Completes(k, rearmed, response)).w.wire
            == r.w.wire + Answered(alive && r.w.flights[k].blocks, response)
  {
    var start := Opened(sendRespBody, maxSaved, others, proxied, handlers);
    OpenedKept(sendRespBody, maxSaved, others, proxied, handlers);
    RunKept(start, acts, r);
    EndingsExactly(r.b, k, rearmed);
    var events := ProtocolOf(start, acts, r);
    RunHoldsNothing(sendRespBody, maxSaved, events, r.w);
    CompletionSends(r.w, k, EndingOf(r.b, rearmed) == Completing, response);
  }

  lemma CompletionSends(w: World, k: TaskKind, alive: bool, response: BlockResponse)
    requires Staged(w) && HoldsNothingYet(w.ctx) && Enabled(w, Completed(k, alive, response))
    ensures After(w, Completed(k, alive, response)).wire == w.wire + Answered(alive && w.flights[k].blocks, response)
  {
    if alive {
      LiveCompletionAnswers(w, k, response);
    } else {
      assert After(w, Completed(k, alive, response)) == Land(w, k);
    }
  }

  /** The ends of a final task after which a held header is to be drained: it completed and let the response pass,
      or it could not be posted. */
  predicate LetsPass(r: Request, act: Act) {
    match act
    case Protocol(ev) => IsCallback(ev) && EffectOf(r.w, ev).task == Some(FinalWaf) && !ev.posted
    case Completes(k, rearmed, _) =>
      k == FinalWaf && EndingOf(r.b, rearmed) == Completing && r.w.flights.Keys >= {k} && r.w.flights[k] == Ran(false)
    case _ => false
  }

  /** In every run, a drain is pending after a step exactly when the step let the response of a proxied request pass
      while its header is held, or it was pending and is not done. */
  lemma DrainPendingExactly(sendRespBody: bool, maxSaved: nat, others: nat, proxied: bool, handlers: Handlers,
                            acts: seq<Act>, r: Request, act: Act)
    requires OwnedByNginx(handlers) && Acted(Opened(sendRespBody, maxSaved, others, proxied, handlers), acts) == Some(r)
    requires Possible(r, act)
    ensures Next(r, act).b.drain.Some?
       <==> || (proxied && LetsPass(r, act) && HoldsHeader(Next(r, act).w))
            || (r.b.drain.Some? && !(act.DrainRuns? && DrainDone(r.w, act.how, act.flushed)))
  {
    ProxiedStays(Opened(sendRespBody, maxSaved, others, proxied, handlers), acts, r);
    DrainAfter(r, act);
  }

  lemma DrainAfter(r: Request, act: Act)
    requires Possible(r, act)
    ensures Next(r, act).b.drain.Some?
       <==> || (r.b.proxied && LetsPass(r, act) && HoldsHeader(Next(r, act).w))
            || (r.b.drain.Some? && !(act.DrainRuns? && DrainDone(r.w, act.how, act.flushed)))
  {
  }

  lemma {:induction false} ProxiedStays(start: Request, acts: seq<Act>, r: Request)
    requires Acted(start, acts) == Some(r)
    ensures r.b.proxied == start.b.proxied
  {
    if acts != [] {
      var n := |acts| - 1;
      var before := Acted(start, acts[..n]).value;
      ProxiedStays(start, acts[..n], before);
      ProxiedKept(before, acts[n]);
    }
  }

  lemma ProxiedKept(r: Request, act: Act)
    requires Possible(r, act)
    ensures Next(r, act).b.proxied == r.b.proxied
  {
  }

  /** A drain that is done has sent the header it was there for. */
  lemma DrainSendsHeader(r: Request, how: HeaderSend, flushed: bool, stranded: bool)
    requires Kept(r, stranded) && Possible(r, DrainRuns(how, flushed)) && DrainDone(r.w, how, flushed)
    ensures !HoldsHeader(Next(r, DrainRuns(how, flushed)).w)
    ensures Next(r, DrainRuns(how, flushed)).b.drain.None?
  {
    EndDrains(r.w.ctx, how);
  }

  lemma EndDrains(c: Ctx, how: HeaderSend)
    requires c.stage == AfterRunWafEnd
    ensures var e := OutputBodyFilter(c, [], how, true);
            e.code != Again && e.code != Failed ==> e.ctx.hdr.out == []
  {
  }

  // ------------------------------------------------------------------- runs that do not

  function Protocols(events: seq<Event>): (acts: seq<Act>)
    ensures |acts| == |events|
  {
    seq(|events|, i requires 0 <= i < |events| => Protocol(events[i]))
  }

  lemma OneMore(start: Request, acts: seq<Act>, r: Request, act: Act, r': Request)
    requires Acted(start, acts) == Some(r) && Possible(r, act) && r' == Next(r, act)
    ensures Acted(start, acts + [act]) == Some(r')
    ensures Stranded(start, acts + [act]) == StrandedAt(r, act, Stranded(start, acts))
  {
    assert (acts + [act])[..|acts|] == acts;
  }

  /** A run of the protocol without completions is a run of the request. */
  lemma {:induction false} ProtocolRuns(start: Request, events: seq<Event>, w: World) returns (r: Request)
    requires Play(start.w, events) == Some(w) && forall i :: 0 <= i < |events| ==> !events[i].Completed?
    ensures Acted(start, Protocols(events)) == Some(r) && r.w == w && !Stranded(start, Protocols(events))
    ensures r.b.proxied == start.b.proxied && r.chosen == start.chosen
  {
    if events == [] {
      return start;
    }
    var n := |events| - 1;
    var before := ProtocolRuns(start, events[..n], Play(start.w, events[..n]).value);
    r := Next(before, Protocol(events[n]));
    OneMore(start, Protocols(events[..n]), before, Protocol(events[n]), r);
    assert Protocols(events) == Protocols(events[..n]) + [Protocol(events[n])];
  }

  const WHOLE_BODY: seq<Link> := [Link([1], true, false)]
  const NO_BLOCK: BlockResponse := BlockResponse([], false, [])
  const DEFAULTS: Handlers := Handlers(Nginx(0), Nginx(1), Nginx(2), Nginx(3), None)

  /** The request body filter is called after the first task ran but before it completed. */
  const OVERLAPPING: seq<Event> :=
    PASSED + [OnRequestBody(WHOLE_BODY, false, true)] + [ThreadBegins(ReqBodyWaf)] + [ThreadEnds(ReqBodyWaf, false)]
  const STRANDING_RUN: seq<Act> :=
    Protocols(OVERLAPPING) + [Completes(FirstWaf, true, NO_BLOCK)] + [Completes(ReqBodyWaf, true, NO_BLOCK)]

  lemma BodyIsSubmitted(w: World)
    requires w == PassedWorld(true, 1)
    ensures After(w, OnRequestBody(WHOLE_BODY, false, true)).flights
         == map[FirstWaf := Ran(false), ReqBodyWaf := Posted]
  {
    assert HasLast(WHOLE_BODY) by {
      assert WHOLE_BODY[0].last;
    }
    assert Size(WHOLE_BODY) == 1 by {
      assert WHOLE_BODY[1..] == [];
    }
    assert RequestBodyFilter(w.ctx, WHOLE_BODY, false, true).task == Some(ReqBodyWaf);
  }

  lemma BothInFlight() returns (w: World)
    ensures Play(Fresh(true, 1), OVERLAPPING) == Some(w)
    ensures w.flights == map[FirstWaf := Ran(false), ReqBodyWaf := Ran(false)]
  {
    var start, w0 := Fresh(true, 1), PassedWorld(true, 1);
    PassedRun(true, 1);
    var w1 := After(w0, OnRequestBody(WHOLE_BODY, false, true));
    BodyIsSubmitted(w0);
    Extended(start, PASSED, w0, OnRequestBody(WHOLE_BODY, false, true), w1);
    w := w1.(flights := w1.flights[ReqBodyWaf := Ran(false)]);
    RunsThrough(start, PASSED + [OnRequestBody(WHOLE_BODY, false, true)], w1, ReqBodyWaf, w);
  }

  /** One completion in a run: possible, and the task is no longer in flight. */
  lemma CompletesNow(start: Request, acts: seq<Act>, r: Request, k: TaskKind) returns (r': Request)
    requires Kept(start, false) && Acted(start, acts) == Some(r) && k in r.w.flights && r.w.flights[k].Ran?
    ensures Acted(start, acts + [Completes(k, true, NO_BLOCK)]) == Some(r') && r'.w.flights == r.w.flights - {k}
    ensures Stranded(start, acts + [Completes(k, true, NO_BLOCK)]) == StrandedBy(r.b, k, Stranded(start, acts))
    ensures r.b.saved.Keys == r.w.flights.Keys && r'.chosen == r.chosen
    ensures Possible(r, Completes(k, true, NO_BLOCK)) && r' == Next(r, Completes(k, true, NO_BLOCK))
  {
    RunKept(start, acts, r);
    assert k in r.b.saved.Keys;
    FinishBalanced(r.b, k, true);
    CompletionLands(r.w, k, EndingOf(r.b, true) == Completing, NO_BLOCK);
    r' := Next(r, Completes(k, true, NO_BLOCK));
    OneMore(start, acts, r, Completes(k, true, NO_BLOCK), r');
  }

  /** A reachable run after which no task is in flight and the write handler is not back: the request body task
      was submitted before the first task completed, and the first task completed before it. */
  lemma OverlapLosesWriteHandler(others: nat, proxied: bool) returns (r: Request)
    ensures Acted(Opened(true, 1, others, proxied, DEFAULTS), STRANDING_RUN) == Some(r)
    ensures r.w.flights == map[] && r.chosen == DEFAULTS && r.b.handlers != r.chosen
  {
    var start := Opened(true, 1, others, proxied, DEFAULTS);
    OpenedKept(true, 1, others, proxied, DEFAULTS);
    var w := BothInFlight();
    assert forall i :: 0 <= i < |OVERLAPPING| ==> !OVERLAPPING[i].Completed?;
    var r0 := ProtocolRuns(start, OVERLAPPING, w);
    var r1 := CompletesNow(start, Protocols(OVERLAPPING), r0, FirstWaf);
    assert ReqBodyWaf in r0.b.saved.Keys;
    r := CompletesNow(start, Protocols(OVERLAPPING) + [Completes(FirstWaf, true, NO_BLOCK)], r1, ReqBodyWaf);
    assert r.w.flights == map[];
    HandlersBackExactly(true, 1, others, proxied, DEFAULTS, STRANDING_RUN, r);
  }

  /** A proxied request whose final task could not be posted: no task is in flight and the drain's handler is in
      place until the drain is done. */
  const AWAITING_DRAIN: seq<Act> :=
    Protocols(PASSED) + [Completes(FirstWaf, true, NO_BLOCK)]
    + [Protocol(OnHeader([Link([1], false, false)], true, false, false))]

  lemma ProxiedResponseAwaitsDrain(others: nat) returns (r: Request)
    ensures Acted(Opened(true, 1, others, true, DEFAULTS), AWAITING_DRAIN) == Some(r)
    ensures r.w.flights == map[] && r.b.handlers.write == Drain && r.chosen == DEFAULTS
  {
    var start := Opened(true, 1, others, true, DEFAULTS);
    var header := OnHeader([Link([1], false, false)], true, false, false);
    OpenedKept(true, 1, others, true, DEFAULTS);
    PassedRun(true, 1);
    assert forall i :: 0 <= i < |PASSED| ==> !PASSED[i].Completed?;
    var r0 := ProtocolRuns(start, PASSED, PassedWorld(true, 1));
    var r1 := CompletesNow(start, Protocols(PASSED), r0, FirstWaf);
    FirstCompletionKeepsContext(r0, r1);
    r := Next(r1, Protocol(header));
    OneMore(start, Protocols(PASSED) + [Completes(FirstWaf, true, NO_BLOCK)], r1, Protocol(header), r);
    assert r.b.drain.Some?;
    RunKept(start, AWAITING_DRAIN, r);
  }

  lemma FirstCompletionKeepsContext(r0: Request, r1: Request)
    requires r0.w == PassedWorld(true, 1) && Possible(r0, Completes(FirstWaf, true, NO_BLOCK))
    requires r1 == Next(r0, Completes(FirstWaf, true, NO_BLOCK))
    ensures r1.w.ctx == r0.w.ctx && r1.b.proxied == r0.b.proxied
  {
  }
}
