/** The start that concrete runs share: the first WAF run lets the request pass. */
module ExampleRuns {
  import opened Basics
  import opened FilterBuffer
  import opened Stages
  import opened Interception
  import opened InterceptionRuns

  function Zeros(n: nat): (s: seq<byte>)
    ensures |s| == n
  {
    seq(n, _ => 0)
  }

  const PASSED: seq<Event> := [OnRequestStart(true, true), ThreadBegins(FirstWaf), ThreadEnds(FirstWaf, false)]

  function PassedWorld(sendRespBody: bool, maxSaved: nat): World {
    World(Ctx(AfterBeginWaf, EMPTY, EMPTY, EMPTY, sendRespBody, maxSaved), map[FirstWaf := Ran(false)],
          [Start, EnteredOnStart, AfterBeginWaf], [FirstWaf], [], [], false, [], [], [])
  }

  /** One more event. */
  lemma Extended(w: World, events: seq<Event>, before: World, ev: Event, after: World)
    requires Play(w, events) == Some(before) && Enabled(before, ev) && after == After(before, ev)
    ensures Play(w, events + [ev]) == Some(after)
  {
    assert (events + [ev])[..|events|] == events;
  }

  /** A later task that was posted runs and finds nothing to block. */
  lemma RunsThrough(start: World, events: seq<Event>, w: World, k: TaskKind, w': World)
    requires Play(start, events) == Some(w) && k in w.flights && w.flights[k] == Posted && k != FirstWaf
    requires w' == w.(flights := w.flights[k := Ran(false)])
    ensures Play(start, events + [ThreadBegins(k)] + [ThreadEnds(k, false)]) == Some(w')
  {
    var w1 := w.(flights := w.flights[k := Running(w.ctx.stage)]);
    Extended(start, events, w, ThreadBegins(k), w1);
    ThreadOnlyRuns(w1, k, w');
    Extended(start, events + [ThreadBegins(k)], w1, ThreadEnds(k, false), w');
  }

  lemma ThreadOnlyRuns(w: World, k: TaskKind, w': World)
    requires k in w.flights && w.flights[k].Running? && k != FirstWaf
    requires w' == w.(flights := w.flights[k := Ran(false)])
    ensures After(w, ThreadEnds(k, false)) == w'
  {
    assert w.trail + [] == w.trail && w.reqOut + [] == w.reqOut && w.wire + [] == w.wire && w.created + [] == w.created;
  }

  lemma StartedWorld(sendRespBody: bool, maxSaved: nat) returns (w: World)
    ensures Play(Fresh(sendRespBody, maxSaved), [PASSED[0]]) == Some(w)
    ensures w == Fresh(sendRespBody, maxSaved).(flights := map[FirstWaf := Posted], created := [FirstWaf],
                   trail := [Start, EnteredOnStart], ctx := w.ctx)
    ensures w.ctx == Fresh(sendRespBody, maxSaved).ctx.(stage := EnteredOnStart)
  {
    var start := Fresh(sendRespBody, maxSaved);
    w := After(start, PASSED[0]);
    Extended(start, [], start, PASSED[0], w);
    assert [] + [PASSED[0]] == [PASSED[0]];
  }

  lemma PassedRun(sendRespBody: bool, maxSaved: nat)
    ensures Play(Fresh(sendRespBody, maxSaved), PASSED) == Some(PassedWorld(sendRespBody, maxSaved))
  {
    var start := Fresh(sendRespBody, maxSaved);
    var w1 := StartedWorld(sendRespBody, maxSaved);
    var w2 := w1.(flights := map[FirstWaf := Running(EnteredOnStart)]);
    assert After(w1, PASSED[1]) == w2;
    Extended(start, [PASSED[0]], w1, PASSED[1], w2);
    FirstRunPasses(w2, PassedWorld(sendRespBody, maxSaved));
    Extended(start, [PASSED[0]] + [PASSED[1]], w2, PASSED[2], PassedWorld(sendRespBody, maxSaved));
    assert PASSED == [PASSED[0]] + [PASSED[1]] + [PASSED[2]];
  }

  lemma FirstRunPasses(w: World, w': World)
    requires w.flights == map[FirstWaf := Running(EnteredOnStart)] && w.ctx.stage == EnteredOnStart
    requires w' == w.(flights := map[FirstWaf := Ran(false)], ctx := w.ctx.(stage := AfterBeginWaf),
                      trail := w.trail + [AfterBeginWaf])
    ensures After(w, ThreadEnds(FirstWaf, false)) == w'
  {
    assert w.reqOut + [] == w.reqOut && w.wire + [] == w.wire && w.created + [] == w.created;
  }
}
