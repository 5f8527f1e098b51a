/** Remote configuration of the WAF: which rule sets the builder holds, and which of them the published
    handle was built from. */
module RemoteConfig {
  import opened Basics

  /** A configuration path: the bundled rule set, one that contains "/ASM_DD/", or any other. */
  datatype Path = Bundled | Dd(key: nat) | Other(key: nat)

  type Rules = nat

  type Configs = map<Path, Rules>

  predicate HasDd(c: Configs) { exists p :: p in c && p.Dd? }

  /** What the builder library answers: whether it accepted a rule set and, when it did not, whether the
      entry that was there before survived. */
  datatype Answer = Accepted | Refused(keepsOld: bool)

  function Adding(c: Configs, path: Path, rules: Rules, a: Answer): Configs {
    match a
    case Accepted => c[path := rules]
    case Refused(keepsOld) => if keepsOld then c else c - {path}
  }

  /** The default rule set makes way for the first one from remote configuration. */
  function AfterAdd(c: Configs, path: Path, rules: Rules, a: Answer): Configs {
    Adding(if Bundled in c && path.Dd? then c - {Bundled} else c, path, rules, a)
  }

  /** Without a remote rule set the default one is put back before building. */
  function BeforeBuild(c: Configs, default: Rules, a: Answer): Configs {
    if HasDd(c) then c else Adding(c, Bundled, default, a)
  }

  predicate Builds(c: Configs, a: Answer, built: bool) {
    (HasDd(c) || a.Accepted?) && built
  }

  // ------------------------------------------------------------------- the instance

  /** The builder, the published handle (the configurations it was built from) and the batch flags. */
  datatype State = State(default: Rules, builder: Configs, handle: Option<Configs>, dirty: bool, failed: bool)

  /** Never both kinds of rule set, and the bundled one is the default one. */
  predicate OneKind(default: Rules, c: Configs) {
    !(Bundled in c && HasDd(c)) && (Bundled in c ==> c[Bundled] == default)
  }

  predicate ExactlyOneKind(default: Rules, c: Configs) {
    OneKind(default, c) && (Bundled in c || HasDd(c))
  }

  /** What happens between two states of the service. Paths from remote configuration are never the bundled one. */
  datatype Event =
    | Update(path: Path, rules: Rules, answer: Answer)
    | Revert(path: Path)
    | EndOfBatch(answer: Answer, built: bool)

  predicate Possible(ev: Event) {
    match ev case Update(p, _, _) => !p.Bundled? case Revert(p) => !p.Bundled? case EndOfBatch(_, _) => true
  }

  function Rebuilt(s: State, a: Answer, built: bool): State {
    var c := BeforeBuild(s.builder, s.default, a);
    s.(builder := c, handle := if Builds(s.builder, a, built) then Some(c) else s.handle)
  }

  function Step(s: State, ev: Event): State {
    match ev
    case Update(path, rules, a) =>
      s.(builder := AfterAdd(s.builder, path, rules, a), dirty := true, failed := s.failed || a.Refused?)
    case Revert(path) =>
      if path in s.builder then s.(builder := s.builder - {path}, dirty := true) else s.(failed := true)
    case EndOfBatch(a, built) =>
      var s' := s.(dirty := false, failed := false);
      if s.dirty then Rebuilt(s', a, built) else s'
  }

  function Started(default: Rules, a: Answer, built: bool): State {
    Rebuilt(State(default, map[], None, false, false), a, built)
  }

  function Run(s: State, events: seq<Event>): State {
    if events == [] then s else Step(Run(s, events[..|events| - 1]), events[|events| - 1])
  }

  predicate AllPossible(events: seq<Event>) {
    forall i :: 0 <= i < |events| ==> Possible(events[i])
  }

  // ------------------------------------------------------------------------ safety

  ghost predicate Consistent(s: State) {
    && OneKind(s.default, s.builder)
    && (s.handle.Some? ==> ExactlyOneKind(s.default, s.handle.value))
  }

  lemma RebuiltIsConsistent(s: State, a: Answer, built: bool)
    requires Consistent(s)
    ensures Consistent(Rebuilt(s, a, built))
  {
    if !HasDd(s.builder) {
      assert forall p :: p in BeforeBuild(s.builder, s.default, a) && p.Dd? ==> p in s.builder;
    }
  }

  lemma StepIsConsistent(s: State, ev: Event)
    requires Consistent(s) && Possible(ev)
    ensures Consistent(Step(s, ev))
  {
    match ev
    case Update(path, rules, a) =>
      var base := if Bundled in s.builder && path.Dd? then s.builder - {Bundled} else s.builder;
      assert forall p :: p in AfterAdd(s.builder, path, rules, a) && p.Dd? && p != path ==> p in s.builder;
    case Revert(path) =>
      assert forall p :: p in s.builder - {path} && p.Dd? ==> p in s.builder;
    case EndOfBatch(a, built) =>
      RebuiltIsConsistent(s.(dirty := false, failed := false), a, built);
  }

  /** In every run the builder never holds both kinds of rule set, and every published handle was built with
      exactly one. */
  lemma {:induction false} RunIsConsistent(default: Rules, a: Answer, built: bool, events: seq<Event>)
    requires AllPossible(events)
    ensures Consistent(Run(Started(default, a, built), events))
  {
    if events == [] {
      RebuiltIsConsistent(State(default, map[], None, false, false), a, built);
    } else {
      RunIsConsistent(default, a, built, events[..|events| - 1]);
      StepIsConsistent(Run(Started(default, a, built), events[..|events| - 1]), events[|events| - 1]);
    }
  }

  // ------------------------------------------------------------------ up to date

  /** The handle is what would be built now, and there is nothing left to do. */
  ghost predicate Current(s: State) {
    !s.dirty && s.handle == Some(s.builder)
  }

  /** Rebuilding succeeded wherever it was tried. */
  ghost predicate Succeeds(s: State, ev: Event) {
    ev.EndOfBatch? && s.dirty ==> Builds(s.builder, ev.answer, ev.built)
  }

  ghost predicate AlwaysSucceeds(s: State, events: seq<Event>) {
    forall i :: 0 <= i < |events| ==> Succeeds(Run(s, events[..i]), events[i])
  }

  /** Whatever is not up to date is marked so. */
  lemma {:induction false} MarkedWhenStale(s: State, events: seq<Event>)
    requires Current(s) && AlwaysSucceeds(s, events)
    ensures Run(s, events).dirty || Current(Run(s, events))
  {
    if events != [] {
      var n := |events| - 1;
      assert forall i :: 0 <= i < n ==> events[..n][..i] == events[..i];
      MarkedWhenStale(s, events[..n]);
      assert Succeeds(Run(s, events[..n]), events[n]);
    }
  }

  /** While every rebuild succeeds, the published handle matches the builder at the end of every batch. */
  lemma UpToDateAfterEveryBatch(default: Rules, a: Answer, built: bool, events: seq<Event>)
    requires Builds(map[], a, built) && AlwaysSucceeds(Started(default, a, built), events)
    requires events != [] && events[|events| - 1].EndOfBatch?
    ensures Current(Run(Started(default, a, built), events))
  {
    MarkedWhenStale(Started(default, a, built), events);
  }

  /** A batch leaves the handle current exactly when nothing had changed and it was, or when it rebuilt, or when
      the rebuild failed but would have built what is published already. */
  lemma BatchExactly(s: State, a: Answer, built: bool)
    ensures Current(Step(s, EndOfBatch(a, built)))
       <==> if s.dirty then
              Builds(s.builder, a, built) || s.handle == Some(BeforeBuild(s.builder, s.default, a))
            else s.handle == Some(s.builder)
  {
  }

  /** A failed rebuild also clears the mark, so no number of quiet batches after it changes the handle. */
  lemma {:induction false} FailedRebuildIsNotTriedAgain(s: State, a: Answer, built: bool, quiet: seq<Event>)
    requires s.dirty && !Builds(s.builder, a, built)
    requires forall i :: 0 <= i < |quiet| ==> quiet[i].EndOfBatch?
    ensures Run(Step(s, EndOfBatch(a, built)), quiet) == Step(s, EndOfBatch(a, built))
    ensures Step(s, EndOfBatch(a, built)).handle == s.handle
  {
    if quiet != [] {
      FailedRebuildIsNotTriedAgain(s, a, built, quiet[..|quiet| - 1]);
    }
  }

  const STALE: seq<Event> := [Update(Dd(1), 7, Accepted), EndOfBatch(Accepted, false), EndOfBatch(Accepted, true)]

  /** One failed rebuild leaves the default rules published though the builder holds the remote ones. */
  lemma FailedRebuildStaysStale()
    ensures AllPossible(STALE)
    ensures var s := Run(Started(0, Accepted, true), STALE);
            s.handle == Some(map[Bundled := 0]) && s.builder == map[Dd(1) := 7] && !s.dirty
  {
    var s0 := Started(0, Accepted, true);
    assert !HasDd(map[]);
    assert s0.builder == map[Bundled := 0] && s0.handle == Some(map[Bundled := 0]);
    assert STALE[..2][..1] == [STALE[0]] && STALE[..1][..0] == [] && STALE[..3] == STALE;
    var s1 := Step(s0, STALE[0]);
    assert Run(s0, STALE[..1]) == s1;
    assert s1.builder == map[Dd(1) := 7] && Dd(1) in s1.builder;
    var s2 := Step(s1, STALE[1]);
    assert Run(s0, STALE[..2]) == s2;
    assert Run(s0, STALE) == Step(s2, STALE[2]);
  }

  // ----------------------------------------------------------------------- the code

  class UpdateableWafInstance {
    const default: Rules
    var builder: Configs
    var handle: Option<Configs>

    constructor (default: Rules)
      ensures this.default == default && builder == map[] && handle == None
    {
      this.default, builder, handle := default, map[], None;
    }

    method BuilderAdd(path: Path, rules: Rules, answer: Answer) returns (ok: bool)
      modifies this`builder
      ensures builder == Adding(old(builder), path, rules, answer) && ok == answer.Accepted?
    {
      if answer.Accepted? {
        builder := builder[path := rules];
      } else if !answer.keepsOld {
        builder := builder - {path};
      }
      ok := answer.Accepted?;
    }

    method BuilderRemove(path: Path) returns (ok: bool)
      modifies this`builder
      ensures ok == (path in old(builder)) && builder == old(builder) - {path}
    {
      ok := path in builder;
      builder := builder - {path};
    }

    method AddOrUpdateConfig(path: Path, rules: Rules, answer: Answer) returns (ok: bool)
      modifies this`builder
      ensures builder == AfterAdd(old(builder), path, rules, answer) && ok == answer.Accepted?
    {
      if Bundled in builder && path.Dd? {
        var _ := BuilderRemove(Bundled);
      }
      ok := BuilderAdd(path, rules, answer);
    }

    /** Puts the default rule set back if there is no remote one, builds, and publishes what was built. */
    method Update(answer: Answer, built: bool) returns (ok: bool)
      modifies this`builder, this`handle
      ensures ok == Builds(old(builder), answer, built)
      ensures builder == BeforeBuild(old(builder), default, answer)
      ensures handle == if ok then Some(builder) else old(handle)
    {
      if !HasDd(builder) {
        ok := BuilderAdd(Bundled, default, answer);
        if !ok {
          return;
        }
      }
      if !built {
        return false;
      }
      handle := Some(builder);
      ok := true;
    }
  }

  /** The configuration of the current batch and the listeners' callbacks. */
  class CurrentAppSecConfig {
    const waf: UpdateableWafInstance
    var dirty: bool
    var failed: bool

    ghost function View(): State
      reads this, waf
    {
      State(waf.default, waf.builder, waf.handle, dirty, failed)
    }

    constructor (waf: UpdateableWafInstance)
      ensures this.waf == waf && View() == State(waf.default, waf.builder, waf.handle, false, false)
    {
      this.waf, dirty, failed := waf, false, false;
    }

    /** Fails by throwing after the flags are set. */
    method SetConfig(path: Path, rules: Rules, answer: Answer) returns (thrown: bool)
      modifies this, waf
      ensures View() == Step(old(View()), Event.Update(path, rules, answer)) && thrown == answer.Refused?
    {
      var res := waf.AddOrUpdateConfig(path, rules, answer);
      dirty := true;
      if !res {
        failed := true;
      }
      thrown := !res;
    }

    method RemoveConfig(path: Path) returns (thrown: bool)
      modifies this, waf
      ensures View() == Step(old(View()), Revert(path)) && thrown == (path !in old(waf.builder))
    {
      var res := waf.BuilderRemove(path);
      if !res {
        assert waf.builder == old(waf.builder);
        failed := true;
        return true;
      }
      dirty := true;
      thrown := false;
    }

    /** The end-of-batch callback. */
    method PostProcess(answer: Answer, built: bool)
      modifies this, waf
      ensures View() == Step(old(View()), EndOfBatch(answer, built))
    {
      var wasDirty := dirty;
      dirty, failed := false, false;
      if wasDirty {
        var _ := waf.Update(answer, built);
      }
    }
  }
}
