/** Requests that are not inspected, because there is no thread pool or the first task could not be posted: everything
    goes through as it comes. */
module Bypass {
  import opened Basics
  import opened Chain
  import opened Stages
  import opened Interception
  import opened InterceptionRuns

  /** Nothing is held, no task is in flight, and the first run will never end. */
  predicate Off(w: World) {
    && (w.ctx.stage == Disabled || w.ctx.stage == EnteredOnStart) && w.flights == map[]
    && w.ctx.req.out == [] && w.ctx.hdr.out == [] && w.ctx.out.out == []
  }

  /** What an event would pass on without the module. */
  function Forwards(ev: Event): seq<Link> {
    if ev.OnRequestBody? then ev.chain else []
  }

  function Sends(ev: Event): seq<Sent> {
    match ev
    case OnHeader(emitted, _, _, _) => [Header(Bytes(emitted))]
    case OnOutputBody(chain, _, _) => Bodies(chain)
    case _ => []
  }

  function AllForwards(events: seq<Event>): seq<Link> {
    if events == [] then [] else AllForwards(events[..|events| - 1]) + Forwards(events[|events| - 1])
  }

  function AllSends(events: seq<Event>): seq<Sent> {
    if events == [] then [] else AllSends(events[..|events| - 1]) + Sends(events[|events| - 1])
  }

  lemma OffPasses(w: World, ev: Event, w': World)
    requires Off(w) && Enabled(w, ev) && w' == After(w, ev)
    ensures Off(w') && w'.created == w.created
    ensures w'.reqOut == w.reqOut + Forwards(ev) && w'.wire == w.wire + Sends(ev)
  {
    match ev {
      case OnRequestBody(chain, preread, posted) =>
        assert RequestBodyFilter(w.ctx, chain, preread, posted) == Still(w.ctx, Downstream).(forwarded := chain);
      case OnOutputBody(chain, how, posted) =>
        assert OutputBodyFilter(w.ctx, chain, how, posted) == ReleaseBody(w.ctx, chain, []);
        assert [] + Bodies(chain) == Bodies(chain);
      case _ =>
    }
  }

  /** Over every run from there, the request body and the response are what they would be without the module, and no
      task is ever created. */
  lemma {:induction false} OffPassesEverything(w: World, events: seq<Event>, w': World)
    requires Off(w) && Play(w, events) == Some(w')
    ensures Off(w') && w'.created == w.created
    ensures w'.reqOut == w.reqOut + AllForwards(events) && w'.wire == w.wire + AllSends(events)
  {
    if events != [] {
      var n := |events| - 1;
      var before := Play(w, events[..n]).value;
      OffPassesEverything(w, events[..n], before);
      OffPasses(before, events[n], w');
      LinksRegroup(w.reqOut, AllForwards(events[..n]), Forwards(events[n]));
      SentRegroup(w.wire, AllSends(events[..n]), Sends(events[n]));
    }
  }

  lemma LinksRegroup(a: seq<Link>, b: seq<Link>, c: seq<Link>)
    ensures a + (b + c) == (a + b) + c
  {
  }

  lemma SentRegroup(a: seq<Sent>, b: seq<Sent>, c: seq<Sent>)
    ensures a + (b + c) == (a + b) + c
  {
  }

  /** The start of a request creates the first task exactly when there is a pool; without a pool, or if the task
      could not be posted, the request is not inspected. */
  lemma StartDecides(sendRespBody: bool, maxSaved: nat, hasPool: bool, posted: bool, w: World)
    requires w == After(Fresh(sendRespBody, maxSaved), OnRequestStart(hasPool, posted))
    ensures w.created == if hasPool then [FirstWaf] else []
    ensures FirstWaf in w.flights <==> hasPool && posted
    ensures Off(w) <==> !(hasPool && posted)
  {
  }
}
