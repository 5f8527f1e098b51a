/** The response of a request that is not blocked: what went towards the client, followed by what
    is held, is the header followed by the whole body, exactly once and in order. */
module ResponseConservation {
  import opened Basics
  import opened Chain
  import opened FilterBuffer
  import opened Stages
  import opened Interception
  import opened InterceptionRuns
  import opened ExampleRuns

  // -------------------------------------------------------------------- the wire

  function HeaderBytes(wire: seq<Sent>): seq<byte> {
    if wire == [] then []
    else if wire[0].Header? then wire[0].bytes + HeaderBytes(wire[1..])
    else HeaderBytes(wire[1..])
  }

  function BodyLinks(wire: seq<Sent>): seq<Link> {
    if wire == [] then []
    else if wire[0].Body? then [wire[0].link] + BodyLinks(wire[1..])
    else BodyLinks(wire[1..])
  }

  /** The bytes in the order they were sent. */
  function Flat(wire: seq<Sent>): seq<byte> {
    if wire == [] then []
    else if wire[0].Header? then wire[0].bytes + Flat(wire[1..])
    else wire[0].link.bytes + Flat(wire[1..])
  }

  predicate NoHeader(wire: seq<Sent>) {
    forall i :: 0 <= i < |wire| ==> wire[i].Body?
  }

  predicate NoBody(wire: seq<Sent>) {
    forall i :: 0 <= i < |wire| ==> wire[i].Header?
  }

  predicate HeadersFirst(wire: seq<Sent>) {
    forall i, j :: 0 <= i < j < |wire| ==> wire[i].Header? || wire[j].Body?
  }

  lemma {:induction false} HeaderBytesConcat(a: seq<Sent>, b: seq<Sent>)
    ensures HeaderBytes(a + b) == HeaderBytes(a) + HeaderBytes(b)
  {
    if a == [] {
      assert a + b == b;
    } else {
      HeaderBytesConcat(a[1..], b);
      assert (a + b)[1..] == a[1..] + b;
    }
  }

  lemma {:induction false} BodyLinksConcat(a: seq<Sent>, b: seq<Sent>)
    ensures BodyLinks(a + b) == BodyLinks(a) + BodyLinks(b)
  {
    if a == [] {
      assert a + b == b;
    } else {
      BodyLinksConcat(a[1..], b);
      assert (a + b)[1..] == a[1..] + b;
    }
  }

  lemma {:induction false} OnlyBodies(chain: seq<Link>)
    ensures BodyLinks(Bodies(chain)) == chain && HeaderBytes(Bodies(chain)) == [] && NoHeader(Bodies(chain))
  {
    if chain != [] {
      OnlyBodies(chain[1..]);
      assert Bodies(chain)[1..] == Bodies(chain[1..]);
    }
  }

  lemma {:induction false} NoHeaderNoBytes(wire: seq<Sent>)
    requires NoHeader(wire)
    ensures HeaderBytes(wire) == []
  {
    if wire != [] {
      NoHeaderNoBytes(wire[1..]);
    }
  }

  lemma {:induction false} NoBodyNoLinks(wire: seq<Sent>)
    ensures NoBody(wire) <==> BodyLinks(wire) == []
  {
    if wire != [] {
      NoBodyNoLinks(wire[1..]);
      assert NoBody(wire) <==> wire[0].Header? && NoBody(wire[1..]);
    }
  }

  lemma {:induction false} FlatWhenHeadersFirst(wire: seq<Sent>)
    requires HeadersFirst(wire)
    ensures Flat(wire) == HeaderBytes(wire) + Bytes(BodyLinks(wire))
  {
    if wire != [] {
      FlatWhenHeadersFirst(wire[1..]);
      if wire[0].Body? {
        assert NoHeader(wire[1..]);
        NoHeaderNoBytes(wire[1..]);
        BytesConcat([wire[0].link], BodyLinks(wire[1..]));
        assert Bytes([wire[0].link]) == wire[0].link.bytes;
      }
    }
  }

  // ------------------------------------------------------------------- one callback

  /** The calls that drop their links: a chain that comes after the end of the message while a chain
      is held, and a chain that comes when the held header cannot be sent in full. */
  predicate Loses(c: Ctx, chain: seq<Link>, how: HeaderSend) {
    chain != [] &&
    if Buffering(c.stage) then c.out.foundLast
    else (c.hdr.out != [] && SendBufferedHeader(c, how).code != Ok) || (c.out.out != [] && c.out.foundLast)
  }

  /** The header handed over, then the header still held, is the header that was held. */
  lemma HeaderSendConserves(c: Ctx, how: HeaderSend, e: Effect)
    requires e == SendBufferedHeader(c, how)
    ensures HeaderBytes(e.sent) + Bytes(e.ctx.hdr.out) == Bytes(c.hdr.out)
    ensures NoBody(e.sent) && BodyLinks(e.sent) == [] && e.ctx.out == c.out
    ensures e.code == Ok ==> e.ctx.hdr.out == []
  {
    NoBodyNoLinks(e.sent);
    if how.SendChain? {
      SizeIsByteCount(c.hdr.out);
      var n := if how.taken <= Size(c.hdr.out) then how.taken else Size(c.hdr.out);
      UnsentKeepsTheRest(c.hdr.out, n);
      assert Bytes(c.hdr.out)[..n] + Bytes(c.hdr.out)[n..] == Bytes(c.hdr.out);
    }
    assert e.sent != [] ==> e.sent[1..] == [];
  }

  lemma ReleaseConserves(c: Ctx, chain: seq<Link>, sent: seq<Sent>, e: Effect)
    requires NoBody(sent) && e == ReleaseBody(c, chain, sent)
    ensures BodyLinks(e.sent) + e.ctx.out.out
         == if chain != [] && c.out.out != [] && c.out.foundLast then c.out.out else c.out.out + chain
    ensures HeaderBytes(e.sent) == HeaderBytes(sent) && e.ctx.hdr == c.hdr
    ensures HeadersFirst(e.sent) && (sent == [] ==> NoHeader(e.sent))
  {
    var links := if c.out.out == [] then chain else c.out.out + chain;
    OnlyBodies(links);
    NoBodyNoLinks(sent);
    BodyLinksConcat(sent, Bodies(links));
    HeaderBytesConcat(sent, Bodies(links));
  }

  /** What a call that receives `chain` sends and holds, against what was held before. */
  ghost predicate Delivers(c: Ctx, e: Effect, chain: seq<Link>, loses: bool) {
    && BodyLinks(e.sent) + e.ctx.out.out == (if loses then c.out.out else c.out.out + chain)
    && HeaderBytes(e.sent) + Bytes(e.ctx.hdr.out) == Bytes(c.hdr.out)
    && HeadersFirst(e.sent)
    && (c.hdr.out == [] ==> NoHeader(e.sent) && e.ctx.hdr == c.hdr)
    && (e.ctx.hdr.out != [] ==> NoBody(e.sent))
  }

  /** One call of the output body filter, outside the commit of a block response. */
  lemma OutputBodyDelivers(c: Ctx, chain: seq<Link>, how: HeaderSend, posted: bool, e: Effect)
    requires c.stage != WafEndBlockCommit && e == OutputBodyFilter(c, chain, how, posted)
    ensures Delivers(c, e, chain, Loses(c, chain, how))
  {
    if Buffering(c.stage) {
    } else if c.hdr.out == [] {
      ReleaseConserves(c, chain, [], e);
    } else {
      var header := SendBufferedHeader(c, how);
      HeaderSendConserves(c, how, header);
      if header.code == Ok {
        ReleaseConserves(header.ctx, chain, header.sent, e);
      }
    }
  }

  // -------------------------------------------------------------------------- runs

  /** No WAF run finds a reason to block. */
  predicate Unblocked(ev: Event) {
    ev.ThreadEnds? ==> !ev.blocks
  }

  predicate UnblockedRun(events: seq<Event>) {
    forall i :: 0 <= i < |events| ==> Unblocked(events[i])
  }

  predicate LosesAt(w: World, ev: Event) {
    ev.OnOutputBody? && Loses(w.ctx, ev.chain, ev.how)
  }

  /** Number of links dropped over a run. */
  function Dropped(w: World, events: seq<Event>): nat {
    if events == [] then 0
    else
      var n := |events| - 1;
      Dropped(w, events[..n]) +
      match Play(w, events[..n])
      case None => 0
      case Some(before) => if LosesAt(before, events[n]) then |events[n].chain| else 0
  }

  predicate NoVerdictBlocks(w: World) {
    w.ctx.stage != WafEndBlockCommit && forall k :: k in w.flights && w.flights[k].Ran? ==> !w.flights[k].blocks
  }

  ghost predicate Accounted(w: World, dropped: nat) {
    && HeaderBytes(w.wire) + Bytes(w.ctx.hdr.out) == w.hdrIn
    && HeadersFirst(w.wire)
    && (w.ctx.hdr.out != [] ==> NoBody(w.wire))
    && (!w.headerSeen ==> w.wire == [] && w.bodyIn == [] && w.hdrIn == [] && w.ctx.hdr == EMPTY && w.ctx.out.out == [])
    && |BodyLinks(w.wire)| + |w.ctx.out.out| + dropped == |w.bodyIn|
    && (dropped == 0 ==> BodyLinks(w.wire) + w.ctx.out.out == w.bodyIn)
  }

  lemma LinksAddUp(gone: seq<Link>, held: seq<Link>, received: seq<Link>, sent: seq<Link>, kept: seq<Link>,
                   chain: seq<Link>, loses: bool, dropped: nat)
    requires |gone| + |held| + dropped == |received| && (dropped == 0 ==> gone + held == received)
    requires sent + kept == if loses then held else held + chain
    ensures |gone + sent| + |kept| + dropped + (if loses then |chain| else 0) == |received + chain|
    ensures dropped + (if loses then |chain| else 0) == 0 ==> gone + sent + kept == received + chain
  {
    assert |sent + kept| == |held| + if loses then 0 else |chain|;
    assert gone + sent + kept == gone + (sent + kept);
    assert gone + (held + chain) == (gone + held) + chain;
  }

  lemma HeaderAddsUp(gone: seq<byte>, sent: seq<byte>, kept: seq<byte>, held: seq<byte>, received: seq<byte>)
    requires gone + held == received && sent + kept == held
    ensures gone + sent + kept == received
  {
    assert gone + sent + kept == gone + (sent + kept);
  }

  lemma OrderAddsUp(wire: seq<Sent>, sent: seq<Sent>)
    requires HeadersFirst(wire) && HeadersFirst(sent)
    requires NoBody(wire) || NoHeader(sent)
    ensures HeadersFirst(wire + sent)
  {
  }

  lemma DeliveryAccounted(w: World, e: Effect, chain: seq<Link>, loses: bool, dropped: nat, posted: bool)
    requires Accounted(w, dropped) && Delivers(w.ctx, e, chain, loses)
    requires chain == [] || w.headerSeen
    ensures Accounted(Commit(w.(bodyIn := w.bodyIn + chain), e, posted), dropped + if loses then |chain| else 0)
  {
    BodyLinksConcat(w.wire, e.sent);
    HeaderBytesConcat(w.wire, e.sent);
    LinksAddUp(BodyLinks(w.wire), w.ctx.out.out, w.bodyIn, BodyLinks(e.sent), e.ctx.out.out, chain, loses, dropped);
    HeaderAddsUp(HeaderBytes(w.wire), HeaderBytes(e.sent), Bytes(e.ctx.hdr.out), Bytes(w.ctx.hdr.out), w.hdrIn);
    OrderAddsUp(w.wire, e.sent);
    if !w.headerSeen {
      NoBodyNoLinks(e.sent);
      assert e.sent == [];
    }
  }

  lemma OutputBodyAccounted(w: World, dropped: nat, ev: Event)
    requires NoVerdictBlocks(w) && Accounted(w, dropped) && ev.OnOutputBody? && Orderly(w, ev)
    ensures Accounted(After(w, ev), dropped + if LosesAt(w, ev) then |ev.chain| else 0)
  {
    var e := OutputBodyFilter(w.ctx, ev.chain, ev.how, ev.posted);
    OutputBodyDelivers(w.ctx, ev.chain, ev.how, ev.posted, e);
    DeliveryAccounted(w, e, ev.chain, LosesAt(w, ev), dropped, ev.posted);
  }

  lemma HeaderAccounted(w: World, dropped: nat, ev: Event)
    requires NoVerdictBlocks(w) && Accounted(w, dropped) && ev.OnHeader? && Orderly(w, ev)
    ensures Accounted(After(w, ev), dropped)
  {
    var e := HeaderFilter(w.ctx, ev.emitted, ev.nextOk, ev.parseable, ev.posted);
    assert w.wire + e.sent == e.sent;
    assert e.sent != [] ==> e.sent[1..] == [];
    assert w.ctx.hdr.out + ev.emitted == ev.emitted;
    assert e.ctx.out == w.ctx.out;
  }

  /** The request side of the context leaves the response side alone. */
  lemma RequestSideIsSeparate(c: Ctx, chain: seq<Link>, preread: bool, posted: bool, e: Effect)
    requires e == RequestBodyFilter(c, chain, preread, posted)
    ensures e.sent == [] && e.ctx.hdr == c.hdr && e.ctx.out == c.out
  {
  }

  lemma OtherAccounted(w: World, dropped: nat, ev: Event)
    requires NoVerdictBlocks(w) && Accounted(w, dropped) && Enabled(w, ev)
    requires !ev.OnHeader? && !ev.OnOutputBody? && Unblocked(ev)
    ensures Accounted(After(w, ev), dropped)
  {
    var w' := After(w, ev);
    if ev.OnRequestBody? {
      RequestSideIsSeparate(w.ctx, ev.chain, ev.preread, ev.posted,
                            RequestBodyFilter(w.ctx, ev.chain, ev.preread, ev.posted));
    }
    assert w'.ctx.hdr == w.ctx.hdr && w'.ctx.out == w.ctx.out;
    assert w'.wire == w.wire;
    assert w'.bodyIn == w.bodyIn && w'.hdrIn == w.hdrIn && w'.headerSeen == w.headerSeen;
  }

  lemma NoVerdictStays(w: World, ev: Event)
    requires NoVerdictBlocks(w) && Enabled(w, ev) && Unblocked(ev)
    ensures NoVerdictBlocks(After(w, ev))
  {
    match ev {
      case OnOutputBody(chain, how, posted) =>
        StaysUncommitted(w.ctx, OutputBodyFilter(w.ctx, chain, how, posted));
      case Completed(k, alive, r) => assert !w.flights[k].blocks;
      case _ =>
    }
  }

  lemma StaysUncommitted(c: Ctx, e: Effect)
    requires c.stage != WafEndBlockCommit
    requires exists chain, how, posted :: e == OutputBodyFilter(c, chain, how, posted)
    ensures e.ctx.stage != WafEndBlockCommit && (e.task.Some? ==> e.task == Some(FinalWaf))
  {
  }

  lemma {:induction false} RunAccounted(sendRespBody: bool, maxSaved: nat, events: seq<Event>, w: World)
    requires Play(Fresh(sendRespBody, maxSaved), events) == Some(w)
    requires OrderlyRun(Fresh(sendRespBody, maxSaved), events) && UnblockedRun(events)
    ensures NoVerdictBlocks(w) && Accounted(w, Dropped(Fresh(sendRespBody, maxSaved), events))
  {
    if events != [] {
      var n, start := |events| - 1, Fresh(sendRespBody, maxSaved);
      var before := Play(start, events[..n]).value;
      RunAccounted(sendRespBody, maxSaved, events[..n], before);
      assert Unblocked(events[n]);
      var dropped := Dropped(start, events[..n]);
      NoVerdictStays(before, events[n]);
      match events[n] {
        case OnHeader(_, _, _, _) => HeaderAccounted(before, dropped, events[n]);
        case OnOutputBody(_, _, _) => OutputBodyAccounted(before, dropped, events[n]);
        case _ => OtherAccounted(before, dropped, events[n]);
      }
    }
  }

  /** Sent, then held, is what was produced: bytes in order, and body links with their last marks. */
  ghost predicate Conserved(w: World) {
    && Flat(w.wire) + Bytes(w.ctx.hdr.out) + Bytes(w.ctx.out.out) == w.hdrIn + Bytes(w.bodyIn)
    && BodyLinks(w.wire) + w.ctx.out.out == w.bodyIn
    && (w.ctx.hdr.out != [] ==> NoBody(w.wire))
  }

  /** No step of the run dropped links. */
  predicate Lossless(w: World, events: seq<Event>) {
    events == [] ||
    var n := |events| - 1;
    Lossless(w, events[..n]) &&
    match Play(w, events[..n])
    case None => true
    case Some(before) => !LosesAt(before, events[n])
  }

  lemma {:induction false} LosslessExactly(w: World, events: seq<Event>)
    ensures Lossless(w, events) <==> Dropped(w, events) == 0
  {
    if events != [] {
      LosslessExactly(w, events[..|events| - 1]);
    }
  }

  /** In every run without a block verdict the response is conserved exactly when no call dropped
      its links. Since a prefix of a run is a run, this holds at every step. */
  lemma ResponseConservedExactly(sendRespBody: bool, maxSaved: nat, events: seq<Event>, w: World)
    requires Play(Fresh(sendRespBody, maxSaved), events) == Some(w)
    requires OrderlyRun(Fresh(sendRespBody, maxSaved), events) && UnblockedRun(events)
    ensures Conserved(w) <==> Lossless(Fresh(sendRespBody, maxSaved), events)
    ensures HeadersFirst(w.wire) && HeaderBytes(w.wire) + Bytes(w.ctx.hdr.out) == w.hdrIn
  {
    RunAccounted(sendRespBody, maxSaved, events, w);
    LosslessExactly(Fresh(sendRespBody, maxSaved), events);
    AccountedConserves(w, Dropped(Fresh(sendRespBody, maxSaved), events));
  }

  lemma AccountedConserves(w: World, dropped: nat)
    requires Accounted(w, dropped)
    ensures Conserved(w) <==> dropped == 0
  {
    FlatWhenHeadersFirst(w.wire);
    BytesConcat(BodyLinks(w.wire), w.ctx.out.out);
    NoBodyNoLinks(w.wire);
    if dropped == 0 {
      var header, sentBody, held := HeaderBytes(w.wire), Bytes(BodyLinks(w.wire)), Bytes(w.ctx.out.out);
      var heldHeader := Bytes(w.ctx.hdr.out);
      if w.ctx.hdr.out != [] {
        assert sentBody == [];
        assert header + sentBody == header;
        assert header + heldHeader + held == header + heldHeader + (sentBody + held);
      } else {
        assert header + sentBody + heldHeader + held == header + heldHeader + (sentBody + held);
      }
    }
  }

  // ------------------------------------------------------------------ a run that loses

  const GREETING: Link := Link([72], false, false)

  /** After the start the final run cannot be posted, so the header is held, and the first body link comes
      while none of the header can be sent. */
  const HOLDING_RUN: seq<Event> := PASSED + [OnHeader([GREETING], true, false, false)]
  const LOSING_RUN: seq<Event> := HOLDING_RUN + [OnOutputBody([GREETING], SendChain(0), true)]

  predicate HoldsHeader(w: World) {
    && w.ctx.stage == AfterRunWafEnd && w.ctx.hdr.out == [GREETING] && w.ctx.out == EMPTY
    && w.wire == [] && w.bodyIn == []
  }

  lemma HeaderIsHeld() returns (w: World)
    ensures Play(Fresh(true, 1), HOLDING_RUN) == Some(w) && HoldsHeader(w)
  {
    PassedRun(true, 1);
    w := After(PassedWorld(true, 1), OnHeader([GREETING], true, false, false));
    Extended(Fresh(true, 1), PASSED, PassedWorld(true, 1), OnHeader([GREETING], true, false, false), w);
  }

  lemma LinkIsLost(w: World, e: Effect)
    requires HoldsHeader(w) && e == OutputBodyFilter(w.ctx, [GREETING], SendChain(0), true)
    ensures e.sent == [Header([])] && e.ctx.out.out == []
  {
    assert Unsent([GREETING], 0) == [GREETING];
    assert SendBufferedHeader(w.ctx, SendChain(0)).code == Again;
  }

  /** A body call that gets NGX_AGAIN for the held header loses the links it brought. */
  lemma LinksAreLostOnAgain()
    ensures Play(Fresh(true, 1), LOSING_RUN).Some?
    ensures !Conserved(Play(Fresh(true, 1), LOSING_RUN).value)
  {
    var w := HeaderIsHeld();
    var ev := OnOutputBody([GREETING], SendChain(0), true);
    var w' := After(w, ev);
    Extended(Fresh(true, 1), HOLDING_RUN, w, ev, w');
    LinkIsLost(w, OutputBodyFilter(w.ctx, [GREETING], SendChain(0), true));
    assert w'.wire == [Header([])] && w'.bodyIn == [GREETING];
    NotConserved(w');
  }

  lemma NotConserved(w: World)
    requires w.wire == [Header([])] && w.bodyIn == [GREETING] && w.ctx.out.out == []
    ensures !Conserved(w)
  {
    assert BodyLinks([Header([])]) == BodyLinks([Header([])][1..]) == [];
  }
}
