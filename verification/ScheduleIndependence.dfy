/** The final WAF run reads the held response body on its own thread while the main thread may go on
    appending to it: what it reads does not depend on when it reads. */
module ScheduleIndependence {
  import opened Basics
  import opened Chain
  import opened FilterBuffer
  import opened Stages
  import opened Interception
  import opened InterceptionRuns
  import opened StageMachine
  import opened BodyReaders
  import opened BlockSafety
  import opened ResponseInspection
  import opened ExampleRuns

  // ------------------------------------------------------- while the task is in flight

  /** What holds when the final task is submitted with a body to inspect. */
  predicate Inspectable(c: Ctx) {
    c.sendRespBody ==> c.out.out != [] && (c.out.total >= MAX_FILTER_DATA || c.out.foundLast)
  }

  /** `c'` may follow `c` while the final task is in flight. */
  ghost predicate Extends(c: Ctx, c': Ctx) {
    && c'.sendRespBody == c.sendRespBody && c.out.out <= c'.out.out
    && (c.out.foundLast ==> c'.out == c.out)
    && c'.out.total >= c.out.total
  }

  /** While the final task is in flight its body is fit for inspection. */
  ghost predicate Ready(w: World) {
    Consistent(w.ctx.out) && (FinalWaf in w.flights ==> Inspectable(w.ctx))
  }

  lemma HoldReady(c: Ctx, chain: seq<Link>, posted: bool, e: Effect)
    requires Consistent(c.out) && e == HoldBody(c, chain, posted)
    ensures Consistent(e.ctx.out)
    ensures e.task == Some(FinalWaf) ==> Inspectable(e.ctx)
    ensures c.stage == PendingWafEnd && Inspectable(c) ==> Inspectable(e.ctx)
  {
    SizeConcat(c.out.out, chain);
  }

  lemma ReleaseReady(c: Ctx, chain: seq<Link>, how: HeaderSend, posted: bool, e: Effect)
    requires Consistent(c.out) && !Buffering(c.stage) && e == OutputBodyFilter(c, chain, how, posted)
    ensures Consistent(e.ctx.out) && e.task == None
  {
    if c.stage != WafEndBlockCommit {
      var header := SendBufferedHeader(c, how);
      assert header.ctx.out == c.out;
      ReleasedReady(c, chain, []);
      ReleasedReady(header.ctx, chain, header.sent);
    }
  }

  lemma ReleasedReady(c: Ctx, chain: seq<Link>, sent: seq<Sent>)
    requires Consistent(c.out)
    ensures Consistent(ReleaseBody(c, chain, sent).ctx.out) && ReleaseBody(c, chain, sent).task == None
  {
  }

  lemma OutputBodyReady(c: Ctx, chain: seq<Link>, how: HeaderSend, posted: bool, e: Effect)
    requires Consistent(c.out) && e == OutputBodyFilter(c, chain, how, posted)
    ensures Consistent(e.ctx.out)
    ensures e.task == Some(FinalWaf) ==> Inspectable(e.ctx)
    ensures c.stage == PendingWafEnd && Inspectable(c) ==> Inspectable(e.ctx)
  {
    if Buffering(c.stage) {
      HoldReady(c, chain, posted, e);
    } else {
      ReleaseReady(c, chain, how, posted, e);
    }
  }

  lemma HeaderReady(c: Ctx, emitted: seq<Link>, nextOk: bool, parseable: bool, posted: bool, e: Effect)
    requires e == HeaderFilter(c, emitted, nextOk, parseable, posted)
    ensures e.ctx.out == c.out
    ensures e.task == Some(FinalWaf) ==> !e.ctx.sendRespBody
    ensures c.stage == PendingWafEnd ==> e.ctx == c
  {
  }

  lemma RequestSideReady(c: Ctx, chain: seq<Link>, preread: bool, posted: bool, e: Effect)
    requires e == RequestBodyFilter(c, chain, preread, posted)
    ensures e.ctx.out == c.out && e.ctx.sendRespBody == c.sendRespBody && e.task != Some(FinalWaf)
  {
  }

  lemma EventReady(w: World, ev: Event)
    requires Staged(w) && Ready(w) && Enabled(w, ev)
    ensures Ready(After(w, ev))
  {
    match ev {
      case OnRequestBody(chain, preread, posted) =>
        RequestSideReady(w.ctx, chain, preread, posted, RequestBodyFilter(w.ctx, chain, preread, posted));
      case OnHeader(emitted, nextOk, parseable, posted) =>
        HeaderReady(w.ctx, emitted, nextOk, parseable, posted, HeaderFilter(w.ctx, emitted, nextOk, parseable, posted));
      case OnOutputBody(chain, how, posted) =>
        OutputBodyReady(w.ctx, chain, how, posted, OutputBodyFilter(w.ctx, chain, how, posted));
      case Completed(k, alive, r) => CompletionReady(w, k, alive, r);
      case _ =>
    }
  }

  lemma CompletionReady(w: World, k: TaskKind, alive: bool, r: BlockResponse)
    requires Staged(w) && Ready(w) && Enabled(w, Completed(k, alive, r))
    ensures Ready(After(w, Completed(k, alive, r)))
  {
    var c := Verdict(Land(w, k).ctx, k, w.flights[k].blocks).ctx;
    OutputBodyReady(c, r.body, WriteFilter(Ok), true, OutputBodyFilter(c, r.body, WriteFilter(Ok), true));
  }

  lemma {:induction false} RunReady(sendRespBody: bool, maxSaved: nat, events: seq<Event>, w: World)
    requires Play(Fresh(sendRespBody, maxSaved), events) == Some(w)
    ensures Staged(w) && Ready(w)
  {
    RunIsStaged(sendRespBody, maxSaved, events);
    if events != [] {
      var n := |events| - 1;
      var before := Play(Fresh(sendRespBody, maxSaved), events[..n]).value;
      RunReady(sendRespBody, maxSaved, events[..n], before);
      EventReady(before, events[n]);
    }
  }

  lemma ExtendsTransitive(a: Ctx, b: Ctx, c: Ctx)
    requires Extends(a, b) && Extends(b, c)
    ensures Extends(a, c)
  {
  }

  /** Any event that leaves the final task in flight only appends to the held body. */
  lemma InFlightExtends(w: World, ev: Event)
    requires Staged(w) && FinalWaf in w.flights && Enabled(w, ev) && FinalWaf in After(w, ev).flights
    ensures Extends(w.ctx, After(w, ev).ctx)
  {
    match ev {
      case OnOutputBody(chain, how, posted) =>
        HoldExtends(w.ctx, chain, posted);
      case OnRequestBody(chain, preread, posted) =>
        assert RequestBodyFilter(w.ctx, chain, preread, posted).ctx == w.ctx;
      case OnHeader(emitted, nextOk, parseable, posted) =>
        assert HeaderFilter(w.ctx, emitted, nextOk, parseable, posted).ctx == w.ctx;
      case Completed(k, alive, r) => FirstCompletionIsQuiet(w, ev);
      case _ =>
    }
  }

  lemma HoldExtends(c: Ctx, chain: seq<Link>, posted: bool)
    requires c.stage == PendingWafEnd
    ensures Extends(c, HoldBody(c, chain, posted).ctx)
  {
  }

  lemma FirstCompletionIsQuiet(w: World, ev: Event)
    requires Staged(w) && FinalWaf in w.flights && Enabled(w, ev) && ev.Completed? && FinalWaf in After(w, ev).flights
    ensures After(w, ev).ctx == w.ctx
  {
    assert ev.kind == FirstWaf && w.flights[ev.kind] != Ran(true);
  }

  lemma BodySizeStable(c: Ctx, c': Ctx)
    requires Inspectable(c) && Extends(c, c')
    ensures BodySize(c') == BodySize(c)
  {
  }

  // -------------------------------------------------------------- reading in the meantime

  /** The request, and the WAF thread's reader: where it stands and what it has taken. */
  datatype Scene = Scene(w: World, k: Cursor, taken: seq<byte>)

  /** A turn of the main thread, or one step of the reader on the chain as it is then. */
  datatype Turn = Main(ev: Event) | Reads(m: Move)

  predicate TurnTo(json: bool, limit: nat, s: Scene, t: Turn, s': Scene) {
    match t
    case Main(ev) => Enabled(s.w, ev) && s' == s.(w := After(s.w, ev)) && FinalWaf in s'.w.flights
    case Reads(m) =>
      && Moves(json, s.w.ctx.out.out, limit, s.k, m, s'.k)
      && s' == Scene(s.w, s'.k, s.taken + TakenBy(m))
  }

  /** The turns of both threads, in any order, while the final task is in flight. */
  predicate Schedule(json: bool, limit: nat, scenes: seq<Scene>, turns: seq<Turn>) {
    |scenes| == |turns| + 1 && forall i :: 0 <= i < |turns| ==> Follows(json, limit, scenes, turns, i)
  }

  predicate Follows(json: bool, limit: nat, scenes: seq<Scene>, turns: seq<Turn>, i: nat)
    requires i < |turns| && |scenes| == |turns| + 1
  {
    TurnTo(json, limit, scenes[i], turns[i], scenes[i + 1])
  }

  /** The reader finds that there is nothing more to take. */
  predicate AtEnd(json: bool, limit: nat, s: Scene) {
    Moves(json, s.w.ctx.out.out, limit, s.k, End, s.k)
  }

  /** The body was complete at submission, or enough of it was in memory. */
  predicate Enough(c: Ctx, limit: nat) {
    c.out.foundLast || MemorySize(c.out.out) >= limit
  }

  /** At every moment, what was taken and what is ahead is the text as it was at submission (at `c`). */
  ghost predicate OnTrack(json: bool, limit: nat, c: Ctx, s: Scene) {
    && Staged(s.w) && FinalWaf in s.w.flights && Extends(c, s.w.ctx) && Stands(s.w.ctx.out.out, s.k)
    && s.taken + Ahead(json, s.w.ctx.out.out, limit, s.k) == Text(json, c.out.out, limit)
  }

  lemma ReadingStaysOnTrack(json: bool, limit: nat, c: Ctx, s: Scene, m: Move, s': Scene)
    requires OnTrack(json, limit, c, s) && TurnTo(json, limit, s, Reads(m), s')
    ensures OnTrack(json, limit, c, s')
  {
    var chain := s.w.ctx.out.out;
    MoveKeeps(json, chain, limit, s.k, m, s'.k);
    BytesRegroup(s.taken, TakenBy(m), Ahead(json, chain, limit, s'.k));
  }

  lemma AppendingStaysOnTrack(json: bool, limit: nat, c: Ctx, s: Scene, ev: Event, s': Scene)
    requires OnTrack(json, limit, c, s) && Enough(c, limit) && TurnTo(json, limit, s, Main(ev), s')
    ensures OnTrack(json, limit, c, s')
  {
    EventKeepsStaged(s.w, ev);
    InFlightExtends(s.w, ev);
    ExtendsTransitive(c, s.w.ctx, s'.w.ctx);
    GrowthIsBehind(json, limit, c, s.w.ctx, s'.w.ctx, s.k);
  }

  lemma GrowthIsBehind(json: bool, limit: nat, c: Ctx, c1: Ctx, c2: Ctx, k: Cursor)
    requires Extends(c, c1) && Extends(c1, c2) && Enough(c, limit) && Stands(c1.out.out, k)
    ensures Stands(c2.out.out, k) && Ahead(json, c2.out.out, limit, k) == Ahead(json, c1.out.out, limit, k)
  {
    if !c.out.foundLast {
      var extra := c2.out.out[|c1.out.out|..];
      assert c2.out.out == c1.out.out + extra;
      var grown := c1.out.out[|c.out.out|..];
      assert c1.out.out == c.out.out + grown;
      SizeConcat(c.out.out, grown);
      AheadStable(json, c1.out.out, extra, c2.out.out, limit, k);
    }
  }

  lemma TurnStaysOnTrack(json: bool, limit: nat, c: Ctx, s: Scene, t: Turn, s': Scene)
    requires OnTrack(json, limit, c, s) && Enough(c, limit) && TurnTo(json, limit, s, t, s')
    ensures OnTrack(json, limit, c, s')
  {
    match t
    case Main(ev) => AppendingStaysOnTrack(json, limit, c, s, ev, s');
    case Reads(m) => ReadingStaysOnTrack(json, limit, c, s, m, s');
  }

  /** What every turn keeps holds at every moment of a schedule. */
  ghost predicate KeptByTurns(json: bool, limit: nat, inv: Scene -> bool) {
    forall s, t, s' :: inv(s) && TurnTo(json, limit, s, t, s') ==> inv(s')
  }

  lemma {:induction false} AlongSchedule(json: bool, limit: nat, scenes: seq<Scene>, turns: seq<Turn>,
                                         inv: Scene -> bool, i: nat)
    requires Schedule(json, limit, scenes, turns) && i < |scenes| && inv(scenes[0]) && KeptByTurns(json, limit, inv)
    ensures inv(scenes[i])
  {
    if i > 0 {
      AlongSchedule(json, limit, scenes, turns, inv, i - 1);
      assert Follows(json, limit, scenes, turns, i - 1);
    }
  }

  lemma ScheduleStaysOnTrack(json: bool, limit: nat, c: Ctx, scenes: seq<Scene>, turns: seq<Turn>, i: nat)
    requires Schedule(json, limit, scenes, turns) && i < |scenes|
    requires Enough(c, limit) && OnTrack(json, limit, c, scenes[0])
    ensures OnTrack(json, limit, c, scenes[i])
  {
    var inv := (s: Scene) => OnTrack(json, limit, c, s);
    forall s, t, s' | inv(s) && TurnTo(json, limit, s, t, s') ensures inv(s') {
      TurnStaysOnTrack(json, limit, c, s, t, s');
    }
    AlongSchedule(json, limit, scenes, turns, inv, i);
  }

  /** The main thread only appends, wherever its turns fall. */
  lemma ScheduleExtends(json: bool, limit: nat, scenes: seq<Scene>, turns: seq<Turn>, i: nat)
    requires Schedule(json, limit, scenes, turns) && i < |scenes|
    requires Staged(scenes[0].w) && FinalWaf in scenes[0].w.flights
    ensures Extends(scenes[0].w.ctx, scenes[i].w.ctx)
  {
    var c := scenes[0].w.ctx;
    var inv := (s: Scene) => Staged(s.w) && FinalWaf in s.w.flights && Extends(c, s.w.ctx);
    forall s, t, s' | inv(s) && TurnTo(json, limit, s, t, s') ensures inv(s') {
      TurnExtends(json, limit, s, t, s');
      ExtendsTransitive(c, s.w.ctx, s'.w.ctx);
    }
    AlongSchedule(json, limit, scenes, turns, inv, i);
  }

  lemma TurnExtends(json: bool, limit: nat, s: Scene, t: Turn, s': Scene)
    requires Staged(s.w) && FinalWaf in s.w.flights && TurnTo(json, limit, s, t, s')
    ensures Staged(s'.w) && FinalWaf in s'.w.flights && Extends(s.w.ctx, s'.w.ctx)
  {
    if t.Main? {
      EventKeepsStaged(s.w, t.ev);
      InFlightExtends(s.w, t.ev);
    }
  }

  /** A reader that starts in `w`. */
  function Starting(w: World): Scene {
    Scene(w, AT_START, [])
  }

  lemma StartsOnTrack(json: bool, limit: nat, w: World)
    requires Staged(w) && Ready(w) && FinalWaf in w.flights && w.ctx.sendRespBody
    ensures OnTrack(json, limit, w.ctx, Starting(w))
  {
    AheadAtStart(json, w.ctx.out.out, limit);
    assert [] + Text(json, w.ctx.out.out, limit) == Text(json, w.ctx.out.out, limit);
  }

  /** On every schedule every byte taken is the next one of the text as submitted, and the reader comes to
      its end exactly with the last. The limit is the size read at any moment of the flight. */
  lemma FinalRunReadsSubmittedBody(json: bool, limit: nat, w: World, scenes: seq<Scene>, turns: seq<Turn>,
                                   i: nat, j: nat)
    requires Staged(w) && Ready(w) && FinalWaf in w.flights && w.ctx.sendRespBody && Enough(w.ctx, BodySize(w.ctx))
    requires Schedule(json, limit, scenes, turns) && i < |scenes| && j < |scenes| && scenes[0] == Starting(w)
    requires limit == BodySize(scenes[j].w.ctx)
    ensures limit == BodySize(w.ctx) && scenes[i].taken <= Text(json, w.ctx.out.out, limit)
    ensures AtEnd(json, limit, scenes[i]) ==> scenes[i].taken == Text(json, w.ctx.out.out, limit)
  {
    ScheduleExtends(json, limit, scenes, turns, j);
    BodySizeStable(w.ctx, scenes[j].w.ctx);
    StartsOnTrack(json, limit, w);
    ScheduleStaysOnTrack(json, limit, w.ctx, scenes, turns, i);
    var s := scenes[i];
    if AtEnd(json, limit, s) {
      MoveKeeps(json, s.w.ctx.out.out, limit, s.k, End, s.k);
      assert s.taken + [] == s.taken;
    }
  }

  // -------------------------------------------------------------------- the exact condition

  /** On every schedule a reader that comes to its end has taken `text`. */
  ghost predicate AlwaysReads(json: bool, limit: nat, w: World, text: seq<byte>) {
    forall scenes: seq<Scene>, turns: seq<Turn> ::
      Schedule(json, limit, scenes, turns) && scenes[0] == Starting(w) && AtEnd(json, limit, scenes[|turns|]) ==>
        scenes[|turns|].taken == text
  }

  lemma OneMoreTurn(json: bool, limit: nat, scenes: seq<Scene>, turns: seq<Turn>, t: Turn, s: Scene)
    requires Schedule(json, limit, scenes, turns) && TurnTo(json, limit, scenes[|turns|], t, s)
    ensures Schedule(json, limit, scenes + [s], turns + [t])
  {
    var scenes', turns' := scenes + [s], turns + [t];
    forall i | 0 <= i < |turns'| ensures Follows(json, limit, scenes', turns', i) {
      if i < |turns| {
        assert Follows(json, limit, scenes, turns, i);
        assert scenes'[i] == scenes[i] && turns'[i] == turns[i] && scenes'[i + 1] == scenes[i + 1];
      }
    }
  }

  /** Left alone, a reader goes on to its end and takes all that is ahead. */
  lemma {:induction false} ReadsOn(json: bool, limit: nat, scenes: seq<Scene>, turns: seq<Turn>)
    returns (scenes': seq<Scene>, turns': seq<Turn>)
    requires Schedule(json, limit, scenes, turns) && Stands(scenes[|turns|].w.ctx.out.out, scenes[|turns|].k)
    ensures Schedule(json, limit, scenes', turns') && scenes <= scenes' && AtEnd(json, limit, scenes'[|turns'|])
    ensures scenes'[|turns'|].taken
         == scenes[|turns|].taken + Ahead(json, scenes[|turns|].w.ctx.out.out, limit, scenes[|turns|].k)
    decreases |Ahead(json, scenes[|turns|].w.ctx.out.out, limit, scenes[|turns|].k)|,
              |scenes[|turns|].w.ctx.out.out| - scenes[|turns|].k.link
  {
    var s := scenes[|turns|];
    var chain := s.w.ctx.out.out;
    var m, k' := NextMove(json, chain, limit, s.k);
    MoveKeeps(json, chain, limit, s.k, m, k');
    var ahead := Ahead(json, chain, limit, k');
    if m.End? {
      assert s.taken + [] == s.taken;
      return scenes, turns;
    }
    var s' := Scene(s.w, k', s.taken + TakenBy(m));
    OneMoreTurn(json, limit, scenes, turns, Reads(m), s');
    BytesRegroup(s.taken, TakenBy(m), ahead);
    scenes', turns' := ReadsOn(json, limit, scenes + [s'], turns + [Reads(m)]);
  }

  /** There is always a step. */
  lemma NextMove(json: bool, chain: seq<Link>, limit: nat, k: Cursor) returns (m: Move, k': Cursor)
    requires Stands(chain, k)
    ensures Moves(json, chain, limit, k, m, k')
    ensures !m.End? ==> m.Take? || k'.link > k.link
  {
    var here := MemoryBytes(chain[k.link]);
    if k.pos < |here| && (json || k.read < limit) {
      return Take(here[k.pos]), Cursor(k.link, k.pos + 1, k.read + 1);
    } else if k.pos == |here| && k.read < limit && k.link + 1 < |chain| {
      return Next, Cursor(k.link + 1, 0, k.read);
    } else {
      return End, k;
    }
  }

  const EXTRA: Link := Link([0], false, false)

  /** With too little in memory, a schedule that appends a byte before the reader starts reads more. */
  lemma AppendedByteIsRead(json: bool, limit: nat, w: World)
    requires Staged(w) && Ready(w) && FinalWaf in w.flights && w.ctx.sendRespBody && limit == BodySize(w.ctx)
    requires !Enough(w.ctx, limit)
    ensures !AlwaysReads(json, limit, w, Text(json, w.ctx.out.out, limit))
  {
    var ev := OnOutputBody([EXTRA], WriteFilter(Ok), true);
    var w' := After(w, ev);
    var chain := w.ctx.out.out;
    EventKeepsStaged(w, ev);
    assert w'.ctx == HoldBody(w.ctx, [EXTRA], true).ctx && w'.ctx.out.out == chain + [EXTRA] && w'.flights == w.flights;
    var scenes, turns := [Starting(w)] + [Starting(w')], [Main(ev)];
    OneMoreTurn(json, limit, [Starting(w)], [], Main(ev), Starting(w'));
    assert [] + [Main(ev)] == turns;
    AheadAtStart(json, chain + [EXTRA], limit);
    var scenes', turns' := ReadsOn(json, limit, scenes, turns);
    TextGrows(json, chain, 0, limit);
    var text := Text(json, chain, limit);
    assert scenes'[0] == scenes[0] && [] + Text(json, chain + [EXTRA], limit) == text + [0];
    assert |scenes'[|turns'|].taken| == |text| + 1;
  }

  /** The condition is exact, for either reader: what it reads is the same on every schedule if and only if the
      body was complete at submission or enough of it was in memory. */
  lemma ScheduleIndependentExactly(json: bool, limit: nat, w: World)
    requires Staged(w) && Ready(w) && FinalWaf in w.flights && w.ctx.sendRespBody && limit == BodySize(w.ctx)
    ensures AlwaysReads(json, limit, w, Text(json, w.ctx.out.out, limit)) <==> Enough(w.ctx, limit)
  {
    var text := Text(json, w.ctx.out.out, limit);
    if Enough(w.ctx, limit) {
      forall scenes: seq<Scene>, turns: seq<Turn> | Schedule(json, limit, scenes, turns) && scenes[0] == Starting(w)
                                                    && AtEnd(json, limit, scenes[|turns|])
        ensures scenes[|turns|].taken == text
      {
        FinalRunReadsSubmittedBody(json, limit, w, scenes, turns, |turns|, 0);
      }
    } else {
      AppendedByteIsRead(json, limit, w);
    }
  }

  // ------------------------------------------------------------- what that is of the response

  /** While the response is held back, what is held is how the body starts. */
  ghost predicate HoldsStart(w: World) {
    && (Buffering(w.ctx.stage) ==> w.ctx.out.out <= w.bodyIn && (w.ctx.out.foundLast || w.ctx.out.out == w.bodyIn))
    && (!w.headerSeen ==> w.bodyIn == [])
  }

  lemma BodyHoldsStart(w: World, chain: seq<Link>, how: HeaderSend, posted: bool)
    requires HoldsStart(w) && Orderly(w, OnOutputBody(chain, how, posted))
    ensures HoldsStart(After(w, OnOutputBody(chain, how, posted)))
  {
    if Buffering(w.ctx.stage) {
      var e := HoldBody(w.ctx, chain, posted);
      assert e.ctx.out.out == if Refuses(w.ctx.out, chain) then w.ctx.out.out else w.ctx.out.out + chain;
    } else {
      NeverBuffersAgain(w.ctx, chain, how, posted);
    }
  }

  lemma NeverBuffersAgain(c: Ctx, chain: seq<Link>, how: HeaderSend, posted: bool)
    requires !Buffering(c.stage)
    ensures !Buffering(OutputBodyFilter(c, chain, how, posted).ctx.stage)
  {
  }

  lemma HeaderHoldsStart(w: World, emitted: seq<Link>, nextOk: bool, parseable: bool, posted: bool)
    requires HoldsStart(w) && Shielded(w) && Orderly(w, OnHeader(emitted, nextOk, parseable, posted))
    ensures HoldsStart(After(w, OnHeader(emitted, nextOk, parseable, posted)))
  {
  }

  lemma CompletionHoldsStart(w: World, k: TaskKind, alive: bool, r: BlockResponse)
    requires Staged(w) && HoldsStart(w) && Enabled(w, Completed(k, alive, r))
    ensures HoldsStart(After(w, Completed(k, alive, r)))
  {
    var c := Verdict(w.ctx, k, w.flights[k].blocks).ctx;
    if alive && w.flights[k].blocks {
      assert !Buffering(c.stage);
      NeverBuffersAgain(c, r.body, WriteFilter(Ok), true);
    }
  }

  lemma OtherHoldsStart(w: World, ev: Event)
    requires Staged(w) && HoldsStart(w) && Enabled(w, ev)
    requires !ev.OnHeader? && !ev.OnOutputBody? && !ev.Completed? && !ev.OnRequestBody?
    ensures HoldsStart(After(w, ev))
  {
  }

  lemma RequestHoldsStart(w: World, chain: seq<Link>, preread: bool, posted: bool)
    requires HoldsStart(w)
    ensures HoldsStart(After(w, OnRequestBody(chain, preread, posted)))
  {
    RequestBodyIsRequestSide(w.ctx, chain, preread, posted);
  }

  lemma {:induction false} RunHoldsStart(sendRespBody: bool, maxSaved: nat, events: seq<Event>, w: World)
    requires Play(Fresh(sendRespBody, maxSaved), events) == Some(w)
    requires OrderlyRun(Fresh(sendRespBody, maxSaved), events)
    ensures HoldsStart(w)
  {
    if events != [] {
      var n, start := |events| - 1, Fresh(sendRespBody, maxSaved);
      var before := Play(start, events[..n]).value;
      RunHoldsStart(sendRespBody, maxSaved, events[..n], before);
      RunShielded(sendRespBody, maxSaved, events[..n], before);
      match events[n] {
        case OnHeader(emitted, nextOk, parseable, posted) =>
          HeaderHoldsStart(before, emitted, nextOk, parseable, posted);
        case OnOutputBody(chain, how, posted) => BodyHoldsStart(before, chain, how, posted);
        case Completed(k, alive, r) => CompletionHoldsStart(before, k, alive, r);
        case OnRequestBody(chain, preread, posted) => RequestHoldsStart(before, chain, preread, posted);
        case _ => OtherHoldsStart(before, events[n]);
      }
    }
  }

  predicate InMemory(chain: seq<Link>) {
    forall i :: 0 <= i < |chain| ==> !chain[i].inFile
  }

  lemma {:induction false} MemoryIsAll(chain: seq<Link>)
    requires InMemory(chain)
    ensures AllMemory(chain) == Bytes(chain) && MemorySize(chain) == Size(chain)
  {
    if chain != [] {
      MemoryIsAll(chain[1..]);
    }
  }

  lemma BytesOfStart(a: seq<Link>, b: seq<Link>)
    requires a <= b
    ensures Bytes(a) <= Bytes(b)
  {
    BytesConcat(a, b[|a|..]);
    assert b == a + b[|a|..];
  }

  /** Over every run with a body to inspect (it is switched on, the response could be parsed, and there is a byte of
      it) and every schedule: the plain text read is the response body up to the size, which is the smaller of the
      body held at submission and the limit; the JSON parser reads on to the end of a link. */
  lemma EveryScheduleReadsTheResponse(sendRespBody: bool, maxSaved: nat, events: seq<Event>, w: World,
                                      json: bool, scenes: seq<Scene>, turns: seq<Turn>)
    requires Play(Fresh(sendRespBody, maxSaved), events) == Some(w)
    requires OrderlyRun(Fresh(sendRespBody, maxSaved), events)
    requires FinalWaf in w.flights && InMemory(w.ctx.out.out)
    requires sendRespBody && Parseable(Fresh(sendRespBody, maxSaved), events) == Some(true) && Size(w.ctx.out.out) > 0
    requires Schedule(json, BodySize(w.ctx), scenes, turns) && scenes[0] == Starting(w)
    requires AtEnd(json, BodySize(w.ctx), scenes[|turns|])
    ensures BodySize(w.ctx) == (if Size(w.ctx.out.out) <= MAX_FILTER_DATA then Size(w.ctx.out.out) else MAX_FILTER_DATA)
    ensures 0 < BodySize(w.ctx) <= |Bytes(w.bodyIn)|
    ensures !json ==> scenes[|turns|].taken == Bytes(w.bodyIn)[..BodySize(w.ctx)]
    ensures json ==> scenes[|turns|].taken <= Bytes(w.bodyIn) && |scenes[|turns|].taken| >= BodySize(w.ctx)
  {
    var limit, chain := BodySize(w.ctx), w.ctx.out.out;
    BodyIsInspectedExactly(sendRespBody, maxSaved, events, w);
    RunReady(sendRespBody, maxSaved, events, w);
    RunHoldsStart(sendRespBody, maxSaved, events, w);
    assert chain <= w.bodyIn && w.ctx.out.total == Size(chain);
    MemoryIsAll(chain);
    SizeIsByteCount(chain);
    BytesOfStart(chain, w.bodyIn);
    FinalRunReadsSubmittedBody(json, limit, w, scenes, turns, |turns|, 0);
    WindowIsPrefix(chain, limit, 0);
  }

  // ------------------------------------------------------------ a schedule that matters

  /** A body in a file: its size counts towards the limit, but there is nothing of it to read. */
  const IN_FILE: Link := Link(Zeros(MAX_FILTER_DATA), false, true)
  const HEADER_RUN: seq<Event> := PASSED + [OnHeader([], true, true, true)]
  const FILE_RUN: seq<Event> := HEADER_RUN + [OnOutputBody([IN_FILE], WriteFilter(Ok), true)]

  lemma HeaderRun() returns (w: World)
    ensures Play(Fresh(true, 1), HEADER_RUN) == Some(w) && w.ctx.stage == CollectingOnRespData
    ensures w.ctx.out == EMPTY && w.ctx.sendRespBody
  {
    var ev := OnHeader([], true, true, true);
    PassedRun(true, 1);
    w := After(PassedWorld(true, 1), ev);
    Extended(Fresh(true, 1), PASSED, PassedWorld(true, 1), ev, w);
  }

  lemma FileIsSubmitted(c: Ctx, e: Effect)
    requires c.stage == CollectingOnRespData && c.out == EMPTY && c.sendRespBody
    requires e == OutputBodyFilter(c, [IN_FILE], WriteFilter(Ok), true)
    ensures e.task == Some(FinalWaf) && e.ctx.sendRespBody
    ensures BodySize(e.ctx) == MAX_FILTER_DATA && !Enough(e.ctx, MAX_FILTER_DATA)
  {
    assert [IN_FILE][1..] == [];
    assert Size([IN_FILE]) == MAX_FILTER_DATA && MemorySize([IN_FILE]) == 0;
    assert [] + [IN_FILE] == [IN_FILE];
  }

  /** A reachable run after which what either reader gets depends on the schedule. */
  lemma FileBodyDependsOnSchedule(json: bool) returns (w: World)
    ensures Play(Fresh(true, 1), FILE_RUN) == Some(w) && FinalWaf in w.flights && w.ctx.sendRespBody
    ensures !AlwaysReads(json, BodySize(w.ctx), w, Text(json, w.ctx.out.out, BodySize(w.ctx)))
  {
    var ev := OnOutputBody([IN_FILE], WriteFilter(Ok), true);
    var w0 := HeaderRun();
    w := After(w0, ev);
    Extended(Fresh(true, 1), HEADER_RUN, w0, ev, w);
    FileIsSubmitted(w0.ctx, OutputBodyFilter(w0.ctx, [IN_FILE], WriteFilter(Ok), true));
    RunReady(true, 1, FILE_RUN, w);
    ScheduleIndependentExactly(json, BodySize(w.ctx), w);
  }
}
