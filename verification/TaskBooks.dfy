/** The books a request keeps for its WAF tasks: references, the `blocked` counter, the event handlers
    swapped out while a task is in flight or a held header is being drained, and the task statistics. */
module TaskBooks {
  import opened Basics
  import opened Interception

  /** Event handlers, as far as the tasks tell them apart. */
  datatype Handler =
    | Nginx(id: nat)
    | BlockReading
    | TaskWait(kind: TaskKind)
    | EmptyConnection
    | EmptyUpstream
    | Drain

  /** Handlers of the request, of its connection, and of an upgraded upstream connection if any. */
  datatype Handlers = Handlers(read: Handler, write: Handler, connRead: Handler, connWrite: Handler,
                               upstream: Option<Handler>)

  /** `others` counts the references nginx holds for itself, `owed` those that a finalization begun by a
      completion has yet to give up. Each task in flight saved some handlers, a pending drain the write
      handler. */
  datatype Books = Books(count: nat, blocked: nat, others: nat, owed: nat, terminated: bool, proxied: bool,
                         handlers: Handlers, saved: map<TaskKind, Handlers>, drain: Option<Handler>,
                         created: nat, submitted: nat, failed: nat, completed: nat, destructed: nat)

  function Open(others: nat, proxied: bool, handlers: Handlers): Books {
    Books(others, 0, others, 0, false, proxied, handlers, map[], None, 0, 0, 0, 0, 0)
  }

  function ReplaceHandlers(h: Handlers, k: TaskKind): Handlers {
    if k.FinalWaf? then
      h.(connRead := EmptyConnection, connWrite := EmptyConnection,
         upstream := if h.upstream.Some? then Some(EmptyUpstream) else None)
    else h.(read := BlockReading, write := TaskWait(k))
  }

  /** A handler that is no longer the task's own is left alone; the final task does not check. */
  function RestoreHandlers(h: Handlers, k: TaskKind, saved: Handlers): Handlers {
    if k.FinalWaf? then
      h.(connRead := saved.connRead, connWrite := saved.connWrite,
         upstream := if saved.upstream.Some? then saved.upstream else h.upstream)
    else
      h.(read := if h.read == BlockReading then saved.read else h.read,
         write := if h.write == TaskWait(k) then saved.write else h.write)
  }

  /** create() followed by submit(). */
  function Submit(b: Books, k: TaskKind, posted: bool): Books {
    var b1 := b.(handlers := ReplaceHandlers(b.handlers, k), count := b.count + 1, blocked := b.blocked + 1,
                 created := b.created + 1);
    if posted then b1.(saved := b1.saved[k := b.handlers], submitted := b1.submitted + 1)
    else
      b1.(count := b1.count - 1, blocked := b1.blocked - 1, failed := b1.failed + 1,
          handlers := RestoreHandlers(b1.handlers, k, b.handlers), destructed := b1.destructed + 1)
  }

  /** prepare_drain_buffered_header, for a request with an upstream. */
  function PrepareDrain(b: Books, headerHeld: bool): Books {
    if b.proxied && headerHeld then
      b.(drain := Some(b.handlers.write), handlers := b.handlers.(write := Drain))
    else b
  }

  /** The drain went through: the write handler it replaced is put back. */
  function Drained(b: Books): Books
    requires b.drain.Some?
  {
    b.(handlers := b.handlers.(write := b.drain.value), drain := None)
  }

  /** How a completion ends: the request was terminated, the read event could not be re-armed, the task
      completes, or its reference is the only one left. */
  datatype Ending = Terminated | NotRearmed | Completing | Lone

  function EndingOf(b: Books, rearmed: bool): Ending {
    if b.terminated then Terminated
    else if b.count > 1 then if rearmed then Completing else NotRearmed
    else Lone
  }

  /** completion_handler up to complete(). Two of the endings give up the task's reference at once, the others
      leave it to the finalization they begin. */
  function Finish(b: Books, k: TaskKind, rearmed: bool): Books
    requires k in b.saved && b.count > 0 && b.blocked > 0
  {
    var b1 := b.(blocked := b.blocked - 1, handlers := RestoreHandlers(b.handlers, k, b.saved[k]),
                 saved := b.saved - {k}, completed := b.completed + 1, destructed := b.destructed + 1);
    match EndingOf(b, rearmed)
    case Terminated => b1.(count := b1.count - 1)
    case NotRearmed => b1.(owed := b1.owed + 1)
    case Completing => b1.(count := b1.count - 1)
    case Lone => b1.(owed := b1.owed + 1)
  }

  // ----------------------------------------------------------------------- the balance

  /** Every reference is nginx's own, a task's in flight, or about to be given up; `blocked` counts the tasks
      in flight; every task that is not in flight any more was destructed once. */
  ghost predicate Balanced(b: Books) {
    && b.count == b.others + |b.saved| + b.owed && b.blocked == |b.saved|
    && b.destructed == b.completed + b.failed
    && b.created == b.destructed + |b.saved|
    && b.submitted == b.completed + |b.saved|
  }

  lemma SubmitBalanced(b: Books, k: TaskKind, posted: bool)
    requires Balanced(b) && k !in b.saved
    ensures Balanced(Submit(b, k, posted))
  {
    assert b.saved[k := b.handlers].Keys == b.saved.Keys + {k};
  }

  /** However a completion ends, the books balance. */
  lemma FinishBalanced(b: Books, k: TaskKind, rearmed: bool)
    requires Balanced(b) && k in b.saved
    ensures b.count > 0 && b.blocked > 0 && Balanced(Finish(b, k, rearmed))
  {
    assert (b.saved - {k}).Keys == b.saved.Keys - {k};
    assert |b.saved.Keys - {k}| == |b.saved.Keys| - 1;
  }

  /** A task's reference is the only one left: nginx has none, no other task is in flight and no finalization is
      under way. */
  ghost predicate IsLone(b: Books, k: TaskKind) {
    b.others == 0 && b.owed == 0 && b.saved.Keys == {k}
  }

  /** Which of the four endings a completion takes: it goes on to complete exactly when the request was not
      terminated, others still hold on to it and its read event could be re-armed. */
  lemma EndingsExactly(b: Books, k: TaskKind, rearmed: bool)
    requires Balanced(b) && k in b.saved
    ensures EndingOf(b, rearmed) == Terminated <==> b.terminated
    ensures EndingOf(b, rearmed) == Lone <==> !b.terminated && IsLone(b, k)
    ensures EndingOf(b, rearmed) == Completing <==> !b.terminated && !IsLone(b, k) && rearmed
    ensures EndingOf(b, rearmed) == NotRearmed <==> !b.terminated && !IsLone(b, k) && !rearmed
  {
    assert b.saved.Keys == {k} + (b.saved.Keys - {k});
    assert |b.saved| == |b.saved.Keys| == 1 + |b.saved.Keys - {k}|;
  }

  // --------------------------------------------------------------------- the handlers

  predicate OwnedByNginx(h: Handlers) {
    && h.read.Nginx? && h.write.Nginx? && h.connRead.Nginx? && h.connWrite.Nginx?
    && (h.upstream.Some? ==> h.upstream.value.Nginx?)
  }

  predicate SameConnection(a: Handlers, b: Handlers) {
    a.connRead == b.connRead && a.connWrite == b.connWrite && a.upstream == b.upstream
  }

  /** The connection's handlers are the final task's while it is in flight, else those nginx chose. */
  ghost predicate ConnectionHandled(b: Books, chosen: Handlers) {
    if FinalWaf in b.saved then
      SameConnection(b.saved[FinalWaf], chosen) && SameConnection(b.handlers, ReplaceHandlers(chosen, FinalWaf))
    else SameConnection(b.handlers, chosen)
  }

  /** The write handler under those of the request body task and of a drain: the first task's while it is in
      flight, and for good once it was stranded there. */
  function Under(b: Books, chosen: Handlers, stranded: bool): Handler {
    if FirstWaf in b.saved || stranded then TaskWait(FirstWaf) else chosen.write
  }

  /** The request's handlers in every combination of tasks in flight and a pending drain. `stranded` says that
      the first task completed when another handler lay on top of its own. */
  ghost predicate RequestHandled(b: Books, chosen: Handlers, stranded: bool) {
    var first, body := FirstWaf in b.saved, ReqBodyWaf in b.saved;
    && (stranded ==> !first) && (b.drain.Some? ==> !body)
    && (first ==> b.saved[FirstWaf].read == chosen.read && b.saved[FirstWaf].write == chosen.write)
    && (body ==> b.saved[ReqBodyWaf].write == Under(b, chosen, stranded))
    && (body && !stranded ==> b.saved[ReqBodyWaf].read == if first then BlockReading else chosen.read)
    && (b.drain.Some? ==> b.drain.value == Under(b, chosen, stranded))
    && b.handlers.read == (if first || (body && !stranded) then BlockReading else chosen.read)
    && b.handlers.write == if b.drain.Some? then Drain
                           else if body then TaskWait(ReqBodyWaf)
                           else Under(b, chosen, stranded)
  }

  ghost predicate Handled(b: Books, chosen: Handlers, stranded: bool) {
    OwnedByNginx(chosen) && ConnectionHandled(b, chosen) && RequestHandled(b, chosen, stranded)
  }

  lemma SubmitHandled(b: Books, k: TaskKind, posted: bool, chosen: Handlers, stranded: bool)
    requires Handled(b, chosen, stranded) && k !in b.saved
    requires ReqBodyWaf !in b.saved && FinalWaf !in b.saved && b.drain.None? && (k.FinalWaf? || !stranded)
    ensures Handled(Submit(b, k, posted), chosen, stranded)
  {
  }

  /** The first task is stranded when it completes under another handler. */
  function StrandedBy(b: Books, k: TaskKind, stranded: bool): bool {
    stranded || (k == FirstWaf && (ReqBodyWaf in b.saved || b.drain.Some?))
  }

  lemma FinishHandled(b: Books, k: TaskKind, rearmed: bool, chosen: Handlers, stranded: bool)
    requires Handled(b, chosen, stranded) && k in b.saved && b.count > 0 && b.blocked > 0
    ensures Handled(Finish(b, k, rearmed), chosen, StrandedBy(b, k, stranded))
  {
    match k
    case FirstWaf => FirstHandled(b, chosen, stranded, Finish(b, k, rearmed));
    case ReqBodyWaf => BodyHandled(b, chosen, stranded, Finish(b, k, rearmed));
    case FinalWaf => FinalHandled(b, chosen, stranded, Finish(b, k, rearmed));
  }

  lemma FinalHandled(b: Books, chosen: Handlers, stranded: bool, b': Books)
    requires Handled(b, chosen, stranded) && FinalWaf in b.saved && b'.drain == b.drain
    requires b'.handlers == RestoreHandlers(b.handlers, FinalWaf, b.saved[FinalWaf]) && b'.saved == b.saved - {FinalWaf}
    ensures Handled(b', chosen, stranded)
  {
  }

  lemma FirstHandled(b: Books, chosen: Handlers, stranded: bool, b': Books)
    requires Handled(b, chosen, stranded) && FirstWaf in b.saved && b'.drain == b.drain
    requires b'.handlers == RestoreHandlers(b.handlers, FirstWaf, b.saved[FirstWaf]) && b'.saved == b.saved - {FirstWaf}
    ensures Handled(b', chosen, StrandedBy(b, FirstWaf, stranded))
  {
  }

  lemma BodyHandled(b: Books, chosen: Handlers, stranded: bool, b': Books)
    requires Handled(b, chosen, stranded) && ReqBodyWaf in b.saved && b'.drain == b.drain
    requires b'.handlers == RestoreHandlers(b.handlers, ReqBodyWaf, b.saved[ReqBodyWaf])
    requires b'.saved == b.saved - {ReqBodyWaf}
    ensures Handled(b', chosen, stranded)
  {
  }

  lemma PrepareDrainHandled(b: Books, headerHeld: bool, chosen: Handlers, stranded: bool)
    requires Handled(b, chosen, stranded) && ReqBodyWaf !in b.saved && b.drain.None?
    ensures Handled(PrepareDrain(b, headerHeld), chosen, stranded)
  {
  }

  lemma DrainedHandled(b: Books, chosen: Handlers, stranded: bool)
    requires Handled(b, chosen, stranded) && b.drain.Some?
    ensures Handled(Drained(b), chosen, stranded)
  {
  }

  /** With no task in flight, the handlers are nginx's own exactly when no drain is pending and the first task
      was not stranded. */
  lemma BackExactly(b: Books, chosen: Handlers, stranded: bool)
    requires Handled(b, chosen, stranded) && b.saved == map[]
    ensures b.handlers == chosen <==> b.drain.None? && !stranded
  {
  }

  // -------------------------------------------------------------------- both together

  /** A final task that cannot be posted prepares the drain as its completion would. */
  function Submitted(b: Books, k: TaskKind, posted: bool, headerHeld: bool): Books {
    var b1 := Submit(b, k, posted);
    if k.FinalWaf? && !posted then PrepareDrain(b1, headerHeld) else b1
  }

  /** A completion with the part of complete() that concerns the books: an unblocked final run prepares the
      drain. */
  function Finished(b: Books, k: TaskKind, rearmed: bool, blocks: bool, headerHeld: bool): Books
    requires k in b.saved && b.count > 0 && b.blocked > 0
  {
    var b1 := Finish(b, k, rearmed);
    if EndingOf(b, rearmed) == Completing && k.FinalWaf? && !blocks then PrepareDrain(b1, headerHeld) else b1
  }

  ghost predicate Sound(b: Books, chosen: Handlers, stranded: bool) {
    Balanced(b) && Handled(b, chosen, stranded)
  }

  lemma SubmittedSound(b: Books, k: TaskKind, posted: bool, headerHeld: bool, chosen: Handlers, stranded: bool)
    requires Sound(b, chosen, stranded) && k !in b.saved
    requires ReqBodyWaf !in b.saved && FinalWaf !in b.saved && b.drain.None? && (k.FinalWaf? || !stranded)
    ensures Sound(Submitted(b, k, posted, headerHeld), chosen, stranded)
    ensures Submitted(b, k, posted, headerHeld).saved.Keys == b.saved.Keys + if posted then {k} else {}
    ensures Submitted(b, k, posted, headerHeld).drain.Some? ==> k == FinalWaf && !posted
  {
    var b1 := Submit(b, k, posted);
    SubmitBalanced(b, k, posted);
    SubmitHandled(b, k, posted, chosen, stranded);
    if k.FinalWaf? && !posted {
      PrepareDrainHandled(b1, headerHeld, chosen, stranded);
    }
  }

  lemma FinishedSound(b: Books, k: TaskKind, rearmed: bool, blocks: bool, headerHeld: bool, chosen: Handlers,
                      stranded: bool)
    requires Sound(b, chosen, stranded) && k in b.saved && b.count > 0 && b.blocked > 0
    requires k == FinalWaf ==> ReqBodyWaf !in b.saved && b.drain.None?
    ensures Sound(Finished(b, k, rearmed, blocks, headerHeld), chosen, StrandedBy(b, k, stranded))
    ensures Finished(b, k, rearmed, blocks, headerHeld).saved.Keys == b.saved.Keys - {k}
    ensures Finished(b, k, rearmed, blocks, headerHeld).drain.Some? ==>
              b.drain.Some? || (EndingOf(b, rearmed) == Completing && k == FinalWaf && !blocks)
  {
    var b1, stranded' := Finish(b, k, rearmed), StrandedBy(b, k, stranded);
    FinishBalanced(b, k, rearmed);
    FinishHandled(b, k, rearmed, chosen, stranded);
    if EndingOf(b, rearmed) == Completing && k.FinalWaf? && !blocks {
      PrepareDrainHandled(b1, headerHeld, chosen, stranded');
    }
  }

  lemma ReferencesSound(b: Books, chosen: Handlers, stranded: bool, b': Books)
    requires Sound(b, chosen, stranded)
    requires b' == b.(count := b'.count, others := b'.others, owed := b'.owed, terminated := b'.terminated)
    requires b'.count == b'.others + |b.saved| + b'.owed
    ensures Sound(b', chosen, stranded)
  {
  }

  lemma ChosenSound(b: Books, chosen: Handlers, stranded: bool, handlers: Handlers)
    requires Sound(b, chosen, stranded) && b.saved == map[] && b.drain.None? && OwnedByNginx(handlers)
    ensures Sound(b.(handlers := handlers), handlers, false)
  {
  }

  lemma DrainedSound(b: Books, chosen: Handlers, stranded: bool)
    requires Sound(b, chosen, stranded) && b.drain.Some?
    ensures Sound(Drained(b), chosen, stranded)
  {
    DrainedHandled(b, chosen, stranded);
  }
}
