/** What remote configuration asked for, read off the list of its events alone, and that the builder and the
    published handle hold exactly that. */
module RemoteHistory {
  import opened Basics
  import opened RemoteConfig

  // ----------------------------------------------------------------- what was asked for

  /** The events that can change what is asked for under a path. */
  predicate Concerns(ev: Event, p: Path) {
    (ev.Update? && ev.path == p) || (ev.Revert? && ev.path == p)
  }

  /** The rule set asked for under a path: a refused update leaves it or takes it away, as the builder says. */
  function Wanted(events: seq<Event>, p: Path): Option<Rules> {
    if events == [] then None
    else
      var n := |events| - 1;
      var before := Wanted(events[..n], p);
      if !Concerns(events[n], p) then before
      else
        match events[n]
        case Revert(_) => None
        case Update(_, rules, Accepted) => Some(rules)
        case Update(_, _, Refused(keepsOld)) => if keepsOld then before else None
  }

  ghost predicate DdWanted(events: seq<Event>) {
    exists k :: Wanted(events, Dd(k)).Some?
  }

  /** An event after which a rebuild is due: any update, or the removal of something there was. */
  predicate Dirties(events: seq<Event>, j: nat)
    requires j < |events|
  {
    events[j].Update? || (events[j].Revert? && Wanted(events[..j], events[j].path).Some?)
  }

  /** An event that fails: a refused update, or the removal of something there was not. */
  predicate Fails(events: seq<Event>, j: nat)
    requires j < |events|
  {
    (events[j].Update? && events[j].answer.Refused?)
    || (events[j].Revert? && Wanted(events[..j], events[j].path).None?)
  }

  predicate Marks(events: seq<Event>, j: nat, failing: bool)
    requires j < |events|
  {
    if failing then Fails(events, j) else Dirties(events, j)
  }

  /** Such an event came since the last batch. */
  predicate Since(events: seq<Event>, failing: bool) {
    exists j :: 0 <= j < |events| && Marks(events, j, failing)
                && forall i :: j < i < |events| ==> !events[i].EndOfBatch?
  }

  predicate Due(events: seq<Event>) {
    Since(events, false)
  }

  /** The batch at `b` publishes a handle. */
  ghost predicate Publishes(events: seq<Event>, b: nat)
    requires b < |events|
  {
    && events[b].EndOfBatch? && Due(events[..b])
    && events[b].built && (events[b].answer.Accepted? || DdWanted(events[..b]))
  }

  /** Whether the default rule set is in the builder: it goes with any update of the other kind and comes back with
      a batch. `a` is the builder's answer at the start. */
  ghost predicate DefaultThere(a: Answer, events: seq<Event>) {
    if events == [] then a.Accepted?
    else
      var n := |events| - 1;
      var before := DefaultThere(a, events[..n]);
      match events[n]
      case Update(p, _, _) => before && !p.Dd?
      case Revert(_) => before
      case EndOfBatch(answer, _) =>
        if Due(events[..n]) && !DdWanted(events[..n]) then answer.Accepted? || (answer.keepsOld && before) else before
  }

  // ------------------------------------------------------------------ what there is

  /** The remote rule sets are exactly those asked for. */
  ghost predicate HoldsWanted(c: Configs, events: seq<Event>) {
    forall p: Path :: !p.Bundled? ==>
      (p in c <==> Wanted(events, p).Some?) && (p in c ==> c[p] == Wanted(events, p).value)
  }

  /** What a batch publishes: the rule sets asked for, and the default one exactly when none of them replaces it. */
  ghost predicate HoldsAll(default: Rules, c: Configs, events: seq<Event>) {
    HoldsWanted(c, events) && (Bundled in c <==> !DdWanted(events)) && (Bundled in c ==> c[Bundled] == default)
  }

  /** The last batch to publish. */
  ghost predicate LastPublished(events: seq<Event>, b: nat) {
    b < |events| && Publishes(events, b) && forall i :: b < i < |events| ==> !Publishes(events, i)
  }

  lemma DdAgrees(c: Configs, events: seq<Event>)
    requires HoldsWanted(c, events)
    ensures HasDd(c) <==> DdWanted(events)
  {
    if HasDd(c) {
      var p :| p in c && p.Dd?;
      assert Wanted(events, Dd(p.key)).Some?;
    }
    if DdWanted(events) {
      var k :| Wanted(events, Dd(k)).Some?;
      assert Dd(k) in c;
    }
  }

  lemma SinceMore(events: seq<Event>, failing: bool)
    requires events != []
    ensures var n := |events| - 1;
            Since(events, failing)
            <==> Marks(events, n, failing) || (Since(events[..n], failing) && !events[n].EndOfBatch?)
  {
    var n := |events| - 1;
    var init := events[..n];
    assert forall j :: 0 <= j < n ==> init[j] == events[j] && init[..j] == events[..j];
    assert forall j :: 0 <= j < n ==> (Marks(init, j, failing) <==> Marks(events, j, failing));
    if Since(init, failing) && !events[n].EndOfBatch? {
      var j :| 0 <= j < n && Marks(init, j, failing) && forall i :: j < i < n ==> !init[i].EndOfBatch?;
      assert Marks(events, j, failing);
    }
    if Since(events, failing) && !Marks(events, n, failing) {
      var j :| 0 <= j < |events| && Marks(events, j, failing)
               && forall i :: j < i < |events| ==> !events[i].EndOfBatch?;
      assert j < n && Marks(init, j, failing);
    }
  }

  /** What the state is after a list of events. */
  ghost predicate Tracks(default: Rules, a: Answer, s: State, events: seq<Event>) {
    && s.default == default && HoldsWanted(s.builder, events)
    && s.dirty == Due(events) && s.failed == Since(events, true)
    && (Bundled in s.builder <==> DefaultThere(a, events)) && OneKind(default, s.builder)
  }

  lemma StepTracks(default: Rules, a: Answer, s: State, events: seq<Event>, ev: Event)
    requires Tracks(default, a, s, events) && Possible(ev) && Consistent(s)
    ensures Tracks(default, a, Step(s, ev), events + [ev])
  {
    var more := events + [ev];
    assert more[..|events|] == events && more[|events|] == ev;
    SinceMore(more, false);
    SinceMore(more, true);
    DdAgrees(s.builder, events);
    StepIsConsistent(s, ev);
    forall p: Path | !p.Bundled?
      ensures (p in Step(s, ev).builder <==> Wanted(more, p).Some?)
           && (p in Step(s, ev).builder ==> Step(s, ev).builder[p] == Wanted(more, p).value)
    {
    }
  }

  lemma {:induction false} RunTracks(default: Rules, a: Answer, built: bool, events: seq<Event>)
    requires AllPossible(events)
    ensures Tracks(default, a, Run(Started(default, a, built), events), events)
  {
    if events == [] {
      assert !HasDd(map[]);
    } else {
      var n := |events| - 1;
      RunTracks(default, a, built, events[..n]);
      RunIsConsistent(default, a, built, events[..n]);
      StepTracks(default, a, Run(Started(default, a, built), events[..n]), events[..n], events[n]);
      assert events[..n] + [events[n]] == events;
    }
  }

  // -------------------------------------------------------------------- the handle

  lemma StepPublishes(default: Rules, a: Answer, s: State, events: seq<Event>, ev: Event)
    requires Tracks(default, a, s, events) && Possible(ev) && Consistent(s)
    ensures var more := events + [ev];
            if Publishes(more, |events|) then
              Step(s, ev).handle.Some? && HoldsAll(default, Step(s, ev).handle.value, events)
            else Step(s, ev).handle == s.handle
  {
    var more := events + [ev];
    assert more[..|events|] == events && more[|events|] == ev;
    DdAgrees(s.builder, events);
    StepIsConsistent(s, ev);
    if Publishes(more, |events|) {
      var c := BeforeBuild(s.builder, default, ev.answer);
      assert Step(s, ev).handle == Some(c);
      assert forall p: Path :: !p.Bundled? ==> (p in c <==> p in s.builder);
    }
  }

  lemma PublishesAlready(events: seq<Event>, n: nat)
    requires n < |events|
    ensures forall b :: 0 <= b < n ==> events[..n][..b] == events[..b]
    ensures forall b :: 0 <= b < n ==> (Publishes(events[..n], b) <==> Publishes(events, b))
    ensures forall b: nat :: LastPublished(events, b) && b < n ==> LastPublished(events[..n], b)
  {
    assert forall b :: 0 <= b < n ==> events[..n][..b] == events[..b] && events[..n][b] == events[b];
  }

  /** In every run, the handle holds exactly what had been asked for when the last publishing batch came; before
      the first one, the default rules if they could be built. */
  lemma {:induction false} HandleHoldsWhatWasAsked(default: Rules, a: Answer, built: bool, events: seq<Event>)
    requires AllPossible(events)
    ensures var handle := Run(Started(default, a, built), events).handle;
            forall b: nat :: LastPublished(events, b) ==>
              handle.Some? && HoldsAll(default, handle.value, events[..b])
    ensures (forall b :: 0 <= b < |events| ==> !Publishes(events, b)) ==>
              Run(Started(default, a, built), events).handle
              == if a.Accepted? && built then Some(map[Bundled := default]) else None
  {
    if events == [] {
      assert !HasDd(map[]);
    } else {
      var n := |events| - 1;
      var init, s := events[..n], Run(Started(default, a, built), events[..n]);
      assert init + [events[n]] == events;
      PublishesAlready(events, n);
      HandleHoldsWhatWasAsked(default, a, built, init);
      RunTracks(default, a, built, init);
      RunIsConsistent(default, a, built, init);
      StepPublishes(default, a, s, init, events[n]);
    }
  }

  // ------------------------------------------------------------ the last event decides

  /** The last event at `i` that concerns a path. */
  ghost predicate LastWord(events: seq<Event>, p: Path, i: nat) {
    i < |events| && Concerns(events[i], p) && forall j :: i < j < |events| ==> !Concerns(events[j], p)
  }

  predicate Settles(ev: Event) {
    ev.Revert? || (ev.Update? && ev.answer.Accepted?)
  }

  function Settled(ev: Event): Option<Rules>
    requires Settles(ev)
  {
    if ev.Revert? then None else Some(ev.rules)
  }

  lemma {:induction false} WantedIsLastWord(events: seq<Event>, p: Path, i: nat)
    requires LastWord(events, p, i) && Settles(events[i])
    ensures Wanted(events, p) == Settled(events[i])
  {
    var n := |events| - 1;
    if i < n {
      assert events[..n][i] == events[i];
      WantedIsLastWord(events[..n], p, i);
    }
  }

  lemma {:induction false} NeverWanted(events: seq<Event>, p: Path)
    requires forall i :: 0 <= i < |events| ==> !Concerns(events[i], p)
    ensures Wanted(events, p) == None
  {
    if events != [] {
      NeverWanted(events[..|events| - 1], p);
    }
  }

  /** Under this path there is exactly this. */
  predicate Has(c: Configs, p: Path, rules: Option<Rules>) {
    if rules.Some? then p in c && c[p] == rules.value else p !in c
  }

  /** A path that was last reverted is not in the builder, nor in any handle published after that; a path whose
      last update was accepted has its rules in both. What happens to other paths changes nothing. */
  lemma LastEventDecides(default: Rules, a: Answer, built: bool, events: seq<Event>, p: Path, i: nat)
    requires AllPossible(events) && LastWord(events, p, i) && Settles(events[i])
    ensures Has(Run(Started(default, a, built), events).builder, p, Settled(events[i]))
    ensures forall b :: i < b < |events| && Publishes(events, b) ==>
              var handle := Run(Started(default, a, built), events).handle;
              handle.Some? && Has(handle.value, p, Settled(events[i]))
  {
    assert !p.Bundled?;
    RunTracks(default, a, built, events);
    WantedIsLastWord(events, p, i);
    HandleHoldsWhatWasAsked(default, a, built, events);
    if b :| i < b < |events| && Publishes(events, b) {
      var last := LastOne(events, b);
      assert events[..last][i] == events[i];
      WantedIsLastWord(events[..last], p, i);
    }
  }

  lemma {:induction false} LastOne(events: seq<Event>, b: nat) returns (last: nat)
    requires b < |events| && Publishes(events, b)
    ensures b <= last && LastPublished(events, last)
    decreases |events| - b
  {
    if i :| b < i < |events| && Publishes(events, i) {
      last := LastOne(events, i);
    } else {
      last := b;
    }
  }

  /** After an accepted update, the next batch publishes if its build succeeds. */
  lemma NextBatchPublishes(events: seq<Event>, i: nat, b: nat)
    requires i < b < |events| && events[i].Update? && events[i].answer.Accepted?
    requires events[b].EndOfBatch? && events[b].built && events[b].answer.Accepted?
    requires forall j :: i < j < b ==> !events[j].EndOfBatch?
    ensures Publishes(events, b)
  {
    assert events[..b][i] == events[i] && Marks(events[..b], i, false);
  }
}
