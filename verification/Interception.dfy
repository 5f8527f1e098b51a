/** What each callback of a request's security context does to its state, and what it sends on:
    the three filters, the two halves of each WAF task, and the completion handlers. */
module Interception {
  import opened Basics
  import opened Chain
  import opened FilterBuffer
  import opened Stages

  /** Most body data, in bytes, that a WAF run waits for. */
  const MAX_FILTER_DATA: nat := 40 * 1024

  /** The tasks that run on the thread pool. */
  datatype TaskKind = FirstWaf | ReqBodyWaf | FinalWaf

  /** req, hdr and out hold the request body, the response header and the response body. */
  datatype Ctx = Ctx(stage: Stage, req: Held, hdr: Held, out: Held, sendRespBody: bool, maxSaved: nat)

  /** What leaves the context towards the client. */
  datatype Sent = Header(bytes: seq<byte>) | Body(link: Link)

  datatype Code = Ok | Again | Failed | InternalServerError | Downstream

  /** Result of one callback: the new state, the stage writes in order, the request body links and
      the response parts passed on, the task it created if any, and the return code. */
  datatype Effect = Effect(ctx: Ctx, writes: seq<Stage>, forwarded: seq<Link>, sent: seq<Sent>,
                           task: Option<TaskKind>, code: Code)

  function Bodies(chain: seq<Link>): seq<Sent> {
    seq(|chain|, i requires 0 <= i < |chain| => Body(chain[i]))
  }

  function Still(c: Ctx, code: Code): Effect {
    Effect(c, [], [], [], None, code)
  }

  // -------------------------------------------------------------- start of request

  function RequestStart(c: Ctx, hasPool: bool): Effect {
    if c.stage != Start then Still(c, Ok)
    else if !hasPool then Still(c.(stage := Disabled), Ok).(writes := [Disabled])
    else Still(c.(stage := EnteredOnStart), Ok).(writes := [EnteredOnStart], task := Some(FirstWaf))
  }

  // ------------------------------------------------------------ request body filter

  predicate ReqWafDone(s: Stage) {
    s == AfterOnReqWaf || s == AfterOnReqWafBlock
  }

  /** pass_downstream: everything held goes to the next request body filter. */
  function ReplayRequest(c: Ctx, writes: seq<Stage>, task: Option<TaskKind>): Effect {
    Effect(c.(req := Cleared(c.req)), writes, c.req.out, [], task, Downstream)
  }

  function PrereadCall(c: Ctx, chain: seq<Link>, writes: seq<Stage>): Effect {
    if Refuses(c.req, chain) then Still(c, InternalServerError).(writes := writes)
    else
      Effect(c.(req := Buffered(c.req, chain, true), stage := CollectingOnReqData),
             writes + [CollectingOnReqData], [], [], None, Downstream)
  }

  /** Runs the WAF once the body is complete or large enough, else keeps collecting. */
  function CollectRequest(c: Ctx, chain: seq<Link>, posted: bool, writes: seq<Stage>): Effect {
    var runWaf := c.req.foundLast || HasLast(chain) || c.req.total + MemorySize(chain) >= MAX_FILTER_DATA;
    if Refuses(c.req, chain) then Still(c, InternalServerError).(writes := writes)
    else if !runWaf then
      Effect(c.(req := Buffered(c.req, chain, true)), writes, [], [], None, Downstream)
    else
      var held := Buffered(c.req, chain, false);
      if held.total == 0 then
        ReplayRequest(c.(req := held, stage := AfterOnReqWaf), writes + [AfterOnReqWaf], None)
      else if posted then
        Effect(c.(req := held, stage := SuspendedOnReqWaf), writes + [SuspendedOnReqWaf], [], [],
               Some(ReqBodyWaf), Downstream)
      else
        ReplayRequest(c.(req := held, stage := AfterOnReqWaf), writes + [SuspendedOnReqWaf, AfterOnReqWaf],
                      Some(ReqBodyWaf))
  }

  function RequestBodyFilter(c: Ctx, chain: seq<Link>, preread: bool, posted: bool): Effect {
    if c.stage == AfterBeginWaf && chain != [] && preread then
      PrereadCall(c.(stage := CollectingOnReqDataPreread), chain, [CollectingOnReqDataPreread])
    else if c.stage == AfterBeginWaf then
      CollectRequest(c.(stage := CollectingOnReqData), chain, posted, [CollectingOnReqData])
    else if c.stage == CollectingOnReqDataPreread then PrereadCall(c, chain, [])
    else if c.stage == CollectingOnReqData then CollectRequest(c, chain, posted, [])
    else if ReqWafDone(c.stage) && c.req.out != [] then
      if Refuses(c.req, chain) then Still(c, InternalServerError)
      else ReplayRequest(c.(req := Buffered(c.req, chain, false)), [], None)
    else if c.stage == SuspendedOnReqWaf then
      if Refuses(c.req, chain) then Still(c, InternalServerError)
      else Still(c.(req := Buffered(c.req, chain, false)), Downstream)
    else Still(c, Downstream).(forwarded := chain)
  }

  // ------------------------------------------------------------------ header filter

  /** Creation and submission of the final task; a failed post ends the final run at once. */
  function SubmitFinal(c: Ctx, posted: bool, code: Code): Effect {
    if posted then Effect(c.(stage := PendingWafEnd), [PendingWafEnd], [], [], Some(FinalWaf), code)
    else Effect(c.(stage := AfterRunWafEnd), [PendingWafEnd, AfterRunWafEnd], [], [], Some(FinalWaf), code)
  }

  /** `emitted` is what the next header filter writes, through send_chain or left in request.out. */
  function HeaderFilter(c: Ctx, emitted: seq<Link>, nextOk: bool, parseable: bool, posted: bool): Effect {
    if c.stage != AfterBeginWaf && c.stage != AfterOnReqWaf then
      Still(c, Downstream).(sent := [Header(Bytes(emitted))])
    else
      var held := if Refuses(c.hdr, emitted) then c.hdr else Buffered(c.hdr, emitted, true);
      if !nextOk then
        Still(c.(hdr := held, stage := AfterRunWafEnd), Failed).(writes := [AfterRunWafEnd])
      else
        var c' := c.(hdr := held, sendRespBody := c.sendRespBody && parseable);
        if !c'.sendRespBody then SubmitFinal(c', posted, Ok)
        else Still(c'.(stage := CollectingOnRespData), Ok).(writes := [CollectingOnRespData])
  }

  // -------------------------------------------------------------- output body filter

  /** Outcome of sending the held header: HTTP/1 hands all of it to the write filter; HTTP/2 sends
      some bytes of it, or fails. */
  datatype HeaderSend = WriteFilter(code: Code) | SendChain(taken: nat) | SendChainError

  function SendBufferedHeader(c: Ctx, how: HeaderSend): (e: Effect) {
    match how
    case WriteFilter(code) =>
      Still(c.(hdr := Cleared(c.hdr)), code).(sent := [Header(Bytes(c.hdr.out))])
    case SendChainError => Still(c, Failed)
    case SendChain(taken) =>
      SizeIsByteCount(c.hdr.out);
      var n := if taken <= Size(c.hdr.out) then taken else Size(c.hdr.out);
      var rest := Unsent(c.hdr.out, n);
      Still(c.(hdr := Replaced(c.hdr, rest)), if rest == [] then Ok else Again)
        .(sent := [Header(Bytes(c.hdr.out)[..n])])
  }

  predicate Buffering(s: Stage) {
    s == PendingWafEnd || s == CollectingOnRespData
  }

  function HoldBody(c: Ctx, chain: seq<Link>, posted: bool): Effect {
    var consume := c.out.copied < c.maxSaved;
    if Refuses(c.out, chain) then Still(c, InternalServerError)
    else
      var held := Buffered(c.out, chain, consume);
      var code := if consume then Ok else Again;
      if c.stage == CollectingOnRespData && (held.total >= MAX_FILTER_DATA || HasLast(chain)) then
        SubmitFinal(c.(out := held, sendRespBody := c.sendRespBody && held.total != 0), posted, code)
      else Still(c.(out := held), code)
  }

  /** The held body and the new links go down together, once no header is in the way. */
  function ReleaseBody(c: Ctx, chain: seq<Link>, sent: seq<Sent>): Effect {
    if c.out.out == [] then Still(c, Downstream).(sent := sent + Bodies(chain))
    else if Refuses(c.out, chain) then Still(c, InternalServerError).(sent := sent)
    else
      Still(c.(out := Cleared(Buffered(c.out, chain, false))), Downstream)
        .(sent := sent + Bodies(c.out.out + chain))
  }

  function OutputBodyFilter(c: Ctx, chain: seq<Link>, how: HeaderSend, posted: bool): Effect {
    if Buffering(c.stage) then HoldBody(c, chain, posted)
    else if c.stage == WafEndBlockCommit then
      Still(c.(hdr := Cleared(c.hdr), out := Cleared(c.out), stage := AfterRunWafEnd), Downstream)
        .(writes := [AfterRunWafEnd], sent := Bodies(chain))
    else if c.hdr.out == [] then ReleaseBody(c, chain, [])
    else
      var header := SendBufferedHeader(c, how);
      if header.code != Ok then header else ReleaseBody(header.ctx, chain, header.sent)
  }

  // -------------------------------------------------------------- tasks and completions

  /** Thread side of the first run: stores the verdict if it found the stage it expects. */
  function RunWafStart(c: Ctx, loaded: Stage, blocks: bool): Effect {
    if loaded != EnteredOnStart then Still(c, Ok)
    else
      var s := if blocks then AfterBeginWafBlock else AfterBeginWaf;
      Still(c.(stage := s), Ok).(writes := [s])
  }

  function CheckedTransition(c: Ctx, from: Stage, to: Stage): Effect {
    if c.stage == from then Still(c.(stage := to), Ok).(writes := [to]) else Still(c, Failed)
  }

  function WafReqPostDone(c: Ctx, blocked: bool): Effect {
    CheckedTransition(c, SuspendedOnReqWaf, if blocked then AfterOnReqWafBlock else AfterOnReqWaf)
  }

  function WafFinalDone(c: Ctx, blocked: bool): Effect {
    CheckedTransition(c, PendingWafEnd, if blocked then WafEndBlockCommit else AfterRunWafEnd)
  }

  /** Body handed to the final WAF run: the chain and the size limit it is read with. */
  function BodySize(c: Ctx): nat {
    if !c.sendRespBody then 0
    else if c.out.total <= MAX_FILTER_DATA then c.out.total else MAX_FILTER_DATA
  }
}
