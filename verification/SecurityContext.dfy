/** The security context as the object nginx's callbacks work on, each callback proved to do what the
    protocol says of it. */
module SecurityContext {
  import opened Basics
  import opened Chain
  import opened FilterBuffer
  import opened Stages
  import I = Interception

  class Context {
    var stage: Stage
    const filterCtx: FilterCtx
    const headerFilterCtx: FilterCtx
    const outFilterCtx: FilterCtx
    var wafSendRespBody: bool
    const maxSavedOutputData: nat
    ghost var trail: seq<Stage>

    ghost predicate Valid()
      reads this
    {
      filterCtx != headerFilterCtx && filterCtx != outFilterCtx && headerFilterCtx != outFilterCtx
    }

    function State(): I.Ctx
      reads this, filterCtx, headerFilterCtx, outFilterCtx
    {
      I.Ctx(stage, filterCtx.Value(), headerFilterCtx.Value(), outFilterCtx.Value(), wafSendRespBody,
            maxSavedOutputData)
    }

    constructor (maxSaved: nat)
      ensures Valid() && fresh(filterCtx) && fresh(headerFilterCtx) && fresh(outFilterCtx)
      ensures State() == I.Ctx(Start, EMPTY, EMPTY, EMPTY, true, maxSaved) && trail == [Start]
    {
      stage, trail := Start, [Start];
      filterCtx := new FilterCtx();
      headerFilterCtx := new FilterCtx();
      outFilterCtx := new FilterCtx();
      wafSendRespBody := true;
      maxSavedOutputData := maxSaved;
    }

    method TransitionToStage(st: Stage)
      modifies this`stage, this`trail
      ensures stage == st && trail == old(trail) + [st]
    {
      stage := st;
      trail := trail + [st];
    }

    method CheckedTransitionToStage(from: Stage, to: Stage) returns (done: bool)
      modifies this`stage, this`trail
      ensures done == (old(stage) == from)
      ensures stage == (if done then to else old(stage))
      ensures trail == old(trail) + if done then [to] else []
    {
      done := stage == from;
      if done {
        stage := to;
        trail := trail + [to];
      }
    }

    method WafReqPostDone(blocked: bool)
      modifies this`stage, this`trail
      ensures State() == I.WafReqPostDone(old(State()), blocked).ctx
      ensures trail == old(trail) + I.WafReqPostDone(old(State()), blocked).writes
    {
      var done := CheckedTransitionToStage(SuspendedOnReqWaf, if blocked then AfterOnReqWafBlock else AfterOnReqWaf);
    }

    method WafFinalDone(blocked: bool)
      modifies this`stage, this`trail
      ensures State() == I.WafFinalDone(old(State()), blocked).ctx
      ensures trail == old(trail) + I.WafFinalDone(old(State()), blocked).writes
    {
      var done := CheckedTransitionToStage(PendingWafEnd, if blocked then WafEndBlockCommit else AfterRunWafEnd);
    }

    /** Loop over the incoming links: total size in memory and whether one ends the body. */
    method Measure(chain: seq<Link>, size0: nat, last0: bool) returns (size: nat, last: bool)
      ensures size == size0 + MemorySize(chain) && last == (last0 || HasLast(chain))
    {
      size, last := size0, last0;
      var i := 0;
      while i < |chain|
        invariant 0 <= i <= |chain|
        invariant size == size0 + MemorySize(chain[..i])
        invariant last == (last0 || HasLast(chain[..i]))
      {
        BufferOne(Held([], 0, 0, last0), chain, i, true);
        size := size + |MemoryBytes(chain[i])|;
        last := last || chain[i].last;
        i := i + 1;
      }
      assert chain[..i] == chain;
    }

    method PassDownstream() returns (forwarded: seq<Link>)
      modifies filterCtx
      ensures forwarded == old(filterCtx.out) && filterCtx.Value() == Cleared(old(filterCtx.Value()))
    {
      forwarded := filterCtx.out;
      filterCtx.Clear();
    }

    method CollectRequestData(chain: seq<Link>, posted: bool)
        returns (code: I.Code, forwarded: seq<Link>, task: Option<I.TaskKind>)
      requires Valid() && stage == CollectingOnReqData
      modifies this`stage, this`trail, filterCtx
      ensures var e := I.CollectRequest(old(State()), chain, posted, []);
              State() == e.ctx && trail == old(trail) + e.writes && code == e.code && forwarded == e.forwarded
              && task == e.task
    {
      forwarded, task := [], None;
      var newSize, isLast := Measure(chain, filterCtx.outTotal, filterCtx.foundLast);
      var runWaf := isLast || newSize >= I.MAX_FILTER_DATA;
      var ok := filterCtx.BufferChain(chain, !runWaf);
      if !ok {
        return I.InternalServerError, forwarded, task;
      }
      if runWaf {
        if filterCtx.outTotal == 0 {
          TransitionToStage(AfterOnReqWaf);
          forwarded := PassDownstream();
          return I.Downstream, forwarded, task;
        }
        task := Some(I.ReqBodyWaf);
        TransitionToStage(SuspendedOnReqWaf);
        if !posted {
          TransitionToStage(AfterOnReqWaf);
          forwarded := PassDownstream();
        }
      }
      code := I.Downstream;
    }

    method ReplayRequestBody(chain: seq<Link>) returns (code: I.Code, forwarded: seq<Link>)
      requires Valid() && I.ReqWafDone(stage)
      modifies filterCtx
      ensures var e := I.RequestBodyFilter(old(State()), chain, false, false);
              State() == e.ctx && e.writes == [] && e.task == None && code == e.code && forwarded == e.forwarded
    {
      if filterCtx.out != [] {
        var ok := filterCtx.BufferChain(chain, false);
        if !ok {
          return I.InternalServerError, [];
        }
        forwarded := PassDownstream();
      } else {
        forwarded := chain;
      }
      code := I.Downstream;
    }

    method PrereadCall(chain: seq<Link>) returns (code: I.Code)
      requires Valid() && stage == CollectingOnReqDataPreread
      modifies this`stage, this`trail, filterCtx
      ensures var e := I.PrereadCall(old(State()), chain, []);
              State() == e.ctx && trail == old(trail) + e.writes && code == e.code
    {
      var ok := filterCtx.BufferChain(chain, true);
      if !ok {
        return I.InternalServerError;
      }
      TransitionToStage(CollectingOnReqData);
      code := I.Downstream;
    }

    /** First call: leaves AFTER_BEGIN_WAF, then treats the chain as any later call would. */
    method FirstRequestBodyCall(chain: seq<Link>, preread: bool, posted: bool)
        returns (code: I.Code, forwarded: seq<Link>, task: Option<I.TaskKind>)
      requires Valid() && stage == AfterBeginWaf
      modifies this`stage, this`trail, filterCtx
      ensures var e := I.RequestBodyFilter(old(State()), chain, preread, posted);
              State() == e.ctx && trail == old(trail) + e.writes && code == e.code && forwarded == e.forwarded
              && task == e.task
    {
      forwarded, task := [], None;
      if chain != [] && preread {
        TransitionToStage(CollectingOnReqDataPreread);
        code := PrereadCall(chain);
      } else {
        code, forwarded, task := StartCollecting(chain, posted);
      }
    }

    method StartCollecting(chain: seq<Link>, posted: bool)
        returns (code: I.Code, forwarded: seq<Link>, task: Option<I.TaskKind>)
      requires Valid()
      modifies this`stage, this`trail, filterCtx
      ensures var e := I.CollectRequest(old(State()).(stage := CollectingOnReqData), chain, posted,
                                        [CollectingOnReqData]);
              State() == e.ctx && trail == old(trail) + e.writes && code == e.code && forwarded == e.forwarded
              && task == e.task
    {
      TransitionToStage(CollectingOnReqData);
      CollectWrites(State(), chain, posted);
      code, forwarded, task := CollectRequestData(chain, posted);
    }

    method DoRequestBodyFilter(chain: seq<Link>, preread: bool, posted: bool)
        returns (code: I.Code, forwarded: seq<Link>, task: Option<I.TaskKind>)
      requires Valid()
      modifies this`stage, this`trail, filterCtx
      ensures var e := I.RequestBodyFilter(old(State()), chain, preread, posted);
              State() == e.ctx && trail == old(trail) + e.writes && code == e.code && forwarded == e.forwarded
              && task == e.task
    {
      forwarded, task := [], None;
      if stage == AfterBeginWaf {
        code, forwarded, task := FirstRequestBodyCall(chain, preread, posted);
      } else if stage == CollectingOnReqDataPreread {
        code := PrereadCall(chain);
      } else if stage == CollectingOnReqData {
        code, forwarded, task := CollectRequestData(chain, posted);
      } else if stage == AfterOnReqWaf || stage == AfterOnReqWafBlock {
        code, forwarded := ReplayRequestBody(chain);
      } else if stage == SuspendedOnReqWaf {
        var ok := filterCtx.BufferChain(chain, false);
        code := if ok then I.Downstream else I.InternalServerError;
      } else {
        code, forwarded := I.Downstream, chain;
      }
    }

    method SubmitFinal(posted: bool)
      requires Valid()
      modifies this`stage, this`trail
      ensures var e := I.SubmitFinal(old(State()), posted, I.Ok);
              State() == e.ctx && trail == old(trail) + e.writes
    {
      TransitionToStage(PendingWafEnd);
      if !posted {
        WafFinalDone(false);
      }
    }

    method DoHeaderFilter(emitted: seq<Link>, nextOk: bool, parseable: bool, posted: bool)
        returns (code: I.Code, sent: seq<I.Sent>, task: Option<I.TaskKind>)
      requires Valid()
      modifies this`stage, this`trail, this`wafSendRespBody, headerFilterCtx
      ensures var e := I.HeaderFilter(old(State()), emitted, nextOk, parseable, posted);
              State() == e.ctx && trail == old(trail) + e.writes && code == e.code && sent == e.sent && task == e.task
    {
      sent, task := [], None;
      if stage != AfterBeginWaf && stage != AfterOnReqWaf {
        return I.Downstream, [I.Header(Bytes(emitted))], task;
      }
      var buffered := headerFilterCtx.BufferChain(emitted, true);
      if !nextOk {
        TransitionToStage(AfterRunWafEnd);
        return I.Failed, sent, task;
      }
      task := StartFinalOrCollect(parseable, posted);
      code := I.Ok;
    }

    /** With the header held: the final run at once, or the response body first. */
    method StartFinalOrCollect(parseable: bool, posted: bool) returns (task: Option<I.TaskKind>)
      requires Valid()
      modifies this`stage, this`trail, this`wafSendRespBody
      ensures var c := old(State()).(sendRespBody := old(wafSendRespBody) && parseable);
              var e := if c.sendRespBody then I.Still(c.(stage := CollectingOnRespData), I.Ok)
                                              .(writes := [CollectingOnRespData])
                       else I.SubmitFinal(c, posted, I.Ok);
              State() == e.ctx && trail == old(trail) + e.writes && task == e.task
    {
      task := None;
      wafSendRespBody := wafSendRespBody && parseable;
      if !wafSendRespBody {
        task := Some(I.FinalWaf);
        SubmitFinal(posted);
      } else {
        TransitionToStage(CollectingOnRespData);
      }
    }

    method SendBufferedHeader(how: I.HeaderSend) returns (code: I.Code, sent: seq<I.Sent>)
      requires Valid()
      modifies headerFilterCtx
      ensures var e := I.SendBufferedHeader(old(State()), how);
              State() == e.ctx && code == e.code && sent == e.sent
    {
      match how
      case WriteFilter(rc) =>
        sent := [I.Header(Bytes(headerFilterCtx.out))];
        headerFilterCtx.Clear();
        code := rc;
      case SendChainError =>
        code, sent := I.Failed, [];
      case SendChain(taken) =>
        var chain := headerFilterCtx.out;
        SizeIsByteCount(chain);
        var n := if taken <= Size(chain) then taken else Size(chain);
        var rest := Unsent(chain, n);
        sent := [I.Header(Bytes(chain)[..n])];
        headerFilterCtx.ReplaceOut(rest);
        code := if rest == [] then I.Ok else I.Again;
    }

    method HoldOutputBody(chain: seq<Link>, posted: bool) returns (code: I.Code, task: Option<I.TaskKind>)
      requires Valid() && I.Buffering(stage)
      modifies this`stage, this`trail, this`wafSendRespBody, outFilterCtx
      ensures var e := I.HoldBody(old(State()), chain, posted);
              State() == e.ctx && trail == old(trail) + e.writes && code == e.code && task == e.task
    {
      task := None;
      var st := stage;
      var consume := outFilterCtx.copiedTotal < maxSavedOutputData;
      var ok := outFilterCtx.BufferChain(chain, consume);
      if !ok {
        return I.InternalServerError, task;
      }
      if st == CollectingOnRespData && (outFilterCtx.outTotal >= I.MAX_FILTER_DATA || HasLast(chain)) {
        if outFilterCtx.outTotal == 0 {
          wafSendRespBody := false;
        }
        task := Some(I.FinalWaf);
        SubmitFinal(posted);
      }
      code := if consume then I.Ok else I.Again;
    }

    method ReleaseOutputBody(chain: seq<Link>, before: seq<I.Sent>) returns (code: I.Code, sent: seq<I.Sent>)
      requires Valid()
      modifies outFilterCtx
      ensures var e := I.ReleaseBody(old(State()), chain, before);
              State() == e.ctx && e.writes == [] && e.task == None && code == e.code && sent == e.sent
    {
      if outFilterCtx.out != [] {
        var ok := outFilterCtx.BufferChain(chain, false);
        if !ok {
          return I.InternalServerError, before;
        }
        sent := before + I.Bodies(outFilterCtx.out);
        outFilterCtx.Clear();
      } else {
        sent := before + I.Bodies(chain);
      }
      code := I.Downstream;
    }

    /** Sends the held header first; the body follows only once the header went through. */
    method FlushHeld(chain: seq<Link>, how: I.HeaderSend) returns (code: I.Code, sent: seq<I.Sent>)
      requires Valid() && !I.Buffering(stage) && stage != WafEndBlockCommit
      modifies headerFilterCtx, outFilterCtx
      ensures var e := I.OutputBodyFilter(old(State()), chain, how, true);
              State() == e.ctx && e.writes == [] && e.task == None && code == e.code && sent == e.sent
    {
      sent := [];
      ghost var before := State();
      if headerFilterCtx.out != [] {
        code, sent := SendBufferedHeader(how);
        assert I.SendBufferedHeader(before, how) == I.Effect(State(), [], [], sent, None, code);
        if code != I.Ok {
          return;
        }
      }
      code, sent := ReleaseOutputBody(chain, sent);
    }

    method CommitBlock(chain: seq<Link>) returns (sent: seq<I.Sent>)
      requires Valid() && stage == WafEndBlockCommit
      modifies this`stage, this`trail, headerFilterCtx, outFilterCtx
      ensures var e := I.OutputBodyFilter(old(State()), chain, I.SendChainError, true);
              State() == e.ctx && trail == old(trail) + e.writes && sent == e.sent
    {
      headerFilterCtx.Clear();
      outFilterCtx.Clear();
      TransitionToStage(AfterRunWafEnd);
      sent := I.Bodies(chain);
    }

    method DoOutputBodyFilter(chain: seq<Link>, how: I.HeaderSend, posted: bool)
        returns (code: I.Code, sent: seq<I.Sent>, task: Option<I.TaskKind>)
      requires Valid()
      modifies this`stage, this`trail, this`wafSendRespBody, headerFilterCtx, outFilterCtx
      ensures var e := I.OutputBodyFilter(old(State()), chain, how, posted);
              State() == e.ctx && trail == old(trail) + e.writes && code == e.code && sent == e.sent && task == e.task
    {
      sent, task := [], None;
      if stage == PendingWafEnd || stage == CollectingOnRespData {
        code, task := HoldOutputBody(chain, posted);
      } else if stage == WafEndBlockCommit {
        sent := CommitBlock(chain);
        code := I.Downstream;
      } else {
        code, sent := FlushHeld(chain, how);
      }
    }
  }

  lemma CollectWrites(c: I.Ctx, chain: seq<Link>, posted: bool)
    ensures var e := I.CollectRequest(c, chain, posted, [CollectingOnReqData]);
            var e' := I.CollectRequest(c, chain, posted, []);
            e == e'.(writes := [CollectingOnReqData] + e'.writes)
  {
  }
}
