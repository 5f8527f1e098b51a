/** Runs of the interception protocol: nginx's main thread and the WAF threads taking turns on one
    request, and the history needed to say what must hold of every run. */
module InterceptionRuns {
  import opened Basics
  import opened Chain
  import opened FilterBuffer
  import opened Stages
  import opened Interception

  /** A posted task, then its thread has read the stage, then it has finished. */
  datatype Phase = Posted | Running(loaded: Stage) | Ran(blocks: bool)

  /** A block response: its header, whether sending it returned NGX_OK, and its body. */
  datatype BlockResponse = BlockResponse(header: seq<byte>, headerOk: bool, body: seq<Link>)

  datatype Event =
    | OnRequestStart(hasPool: bool, posted: bool)
    | OnRequestBody(chain: seq<Link>, preread: bool, posted: bool)
    | OnHeader(emitted: seq<Link>, nextOk: bool, parseable: bool, posted: bool)
    | OnOutputBody(chain: seq<Link>, how: HeaderSend, posted: bool)
    | ThreadBegins(kind: TaskKind)
    | ThreadEnds(kind: TaskKind, blocks: bool)
    | ThreadThrows(kind: TaskKind)
    | Completed(kind: TaskKind, alive: bool, response: BlockResponse)

  /** The context, the tasks in flight, and the history: all stage values, the tasks created, the
      request body in and out, the response header and body produced, whether the header filter was
      called, and what was sent towards the client. */
  datatype World = World(ctx: Ctx, flights: map<TaskKind, Phase>, trail: seq<Stage>, created: seq<TaskKind>,
                         reqIn: seq<Link>, reqOut: seq<Link>, headerSeen: bool, hdrIn: seq<byte>,
                         bodyIn: seq<Link>, wire: seq<Sent>)

  function Fresh(sendRespBody: bool, maxSaved: nat): World {
    World(Ctx(Start, EMPTY, EMPTY, EMPTY, sendRespBody, maxSaved), map[], [Start], [], [], [], false, [], [], [])
  }

  /** Records an effect in the history. */
  function Commit(w: World, e: Effect, posted: bool): World {
    w.(ctx := e.ctx, trail := w.trail + e.writes, reqOut := w.reqOut + e.forwarded, wire := w.wire + e.sent,
       created := w.created + (if e.task.Some? then [e.task.value] else []),
       flights := if e.task.Some? && posted then w.flights[e.task.value := Posted] else w.flights)
  }

  /** Thread events need a task in the right phase; everything else may happen at any time. */
  predicate Enabled(w: World, ev: Event) {
    match ev
    case ThreadBegins(k) => k in w.flights && w.flights[k].Posted?
    case ThreadEnds(k, _) => k in w.flights && w.flights[k].Running?
    case ThreadThrows(k) => k in w.flights && w.flights[k].Running?
    case Completed(k, _, _) => k in w.flights && w.flights[k].Ran?
    case _ => true
  }

  function Land(w: World, k: TaskKind): World {
    w.(flights := w.flights - {k})
  }

  /** BlockingService::block: the header filter, then, if it succeeded, the output body filter. */
  function SendBlock(w: World, r: BlockResponse): World {
    var w' := w.(wire := w.wire + [Header(r.header)]);
    if r.headerOk then Commit(w', OutputBodyFilter(w'.ctx, r.body, WriteFilter(Ok), true), true) else w'
  }

  /** What a completion handler does with the verdict before it blocks or lets pass. */
  function Verdict(c: Ctx, k: TaskKind, blocks: bool): Effect {
    match k
    case FirstWaf => Still(c, Ok)
    case ReqBodyWaf => WafReqPostDone(c, blocks)
    case FinalWaf => WafFinalDone(c, blocks)
  }

  function Complete(w: World, k: TaskKind, blocks: bool, r: BlockResponse): World {
    var w' := Commit(w, Verdict(w.ctx, k, blocks), false);
    if blocks then SendBlock(w', r) else w'
  }

  function After(w: World, ev: Event): World
    requires Enabled(w, ev)
  {
    match ev
    case OnRequestStart(hasPool, posted) => Commit(w, RequestStart(w.ctx, hasPool), posted)
    case OnRequestBody(chain, preread, posted) =>
      Commit(w.(reqIn := w.reqIn + chain), RequestBodyFilter(w.ctx, chain, preread, posted), posted)
    case OnHeader(emitted, nextOk, parseable, posted) =>
      Commit(w.(headerSeen := true, hdrIn := w.hdrIn + Bytes(emitted)),
             HeaderFilter(w.ctx, emitted, nextOk, parseable, posted), posted)
    case OnOutputBody(chain, how, posted) =>
      Commit(w.(bodyIn := w.bodyIn + chain), OutputBodyFilter(w.ctx, chain, how, posted), posted)
    case ThreadBegins(k) => w.(flights := w.flights[k := Running(w.ctx.stage)])
    case ThreadEnds(k, blocks) =>
      var verdict := if k.FirstWaf? && w.flights[k].loaded != EnteredOnStart then false
                     else if k.FinalWaf? && w.flights[k].loaded != PendingWafEnd then false
                     else blocks;
      var e := if k.FirstWaf? then RunWafStart(w.ctx, w.flights[k].loaded, verdict) else Still(w.ctx, Ok);
      Commit(w, e, false).(flights := w.flights[k := Ran(verdict)])
    case ThreadThrows(k) => w.(flights := w.flights[k := Ran(false)])
    case Completed(k, alive, r) =>
      if alive then Complete(Land(w, k), k, w.flights[k].blocks, r) else Land(w, k)
  }

  /** The world after a sequence of events, if each of them was possible in turn. */
  function Play(w: World, events: seq<Event>): Option<World> {
    if events == [] then Some(w)
    else
      var n := |events| - 1;
      match Play(w, events[..n])
      case None => None
      case Some(before) => if Enabled(before, events[n]) then Some(After(before, events[n])) else None
  }

  /** nginx's side of the bargain: one response header, before any body link. */
  predicate Orderly(w: World, ev: Event) {
    match ev
    case OnHeader(_, _, _, _) => !w.headerSeen
    case OnOutputBody(chain, _, _) => chain == [] || w.headerSeen
    case _ => true
  }

  predicate OrderlyRun(w: World, events: seq<Event>) {
    events == [] ||
    var n := |events| - 1;
    OrderlyRun(w, events[..n]) &&
    match Play(w, events[..n])
    case None => true
    case Some(before) => Orderly(before, events[n])
  }
}
