# Models and proofs for the AppSec half of nginx-datadog

The nginx-datadog module can run a web application firewall (WAF) on every request. This project
models the parts of `src/security` where that is delicate, and proves what they guarantee over every
input, every run and every interleaving.

- **Interception protocol.** A request's security context shares a 14-stage machine between nginx's
  main thread and the WAF's thread pool. It holds back request body, response header and response body,
  suspends the request on up to three tasks, and then replays what it held or drops it for a block
  response. `Interception.dfy` gives the effect of each callback, `InterceptionRuns.dfy` the runs in
  which callbacks, the two halves of each thread's work and completions take turns, and
  `SecurityContext.dfy` / `FilterBuffer.dfy` the objects whose methods are proved to have these effects.
  `StageMachine.dfy`, `RequestInspection.dfy`, `ResponseInspection.dfy`, `RequestConservation.dfy`,
  `ResponseConservation.dfy`, `BlockSafety.dfy` and `Bypass.dfy` hold the theorems over all runs: which stages follow
  each other, what goes to the WAF and when, what is passed on, and what a verdict does. `BodyReaders.dfy` and `ScheduleIndependence.dfy` let the WAF thread read the held body
  step by step while the main thread goes on; `TaskBooks.dfy` and `TaskAccounting.dfy` add the request's
  references and event handlers, completions as they really end, and the drain of a held header.
  `ExampleRuns.dfy` is the start that the concrete runs share.
- **Shared token bucket.** `RefreshSlots.dfy` is the spread of a per-minute quota over slots,
  `SharedLimiter.dfy` the refill loop and the compare-and-swap protocol among workers.
- **WAF objects.** `Arena.dfy` and `ObjectPool.dfy` are the bump allocator and the pool of growing
  arrays, `JsonEvents.dfy` says what a stream of JSON events denotes when it stops anywhere, and
  `JsonBuilder.dfy` is the handler that builds it in that memory.
- **Body parsers.** `ChainStream.dfy`, `MultipartLines.dfy`, `PartHeaders.dfy`, `Multipart.dfy`,
  `ContentType.dfy`, `PercentDecoding.dfy`, `QueryStrings.dfy` and `Urlencoded.dfy` are the parsers, each loop
  proved against a function on byte strings; `PartHeaderText.dfy`, `MultipartRoundTrip.dfy`, `MultipartRequest.dfy`
  and the last parts of the others say what parsing recovers of what a client sent, in any of the ways it may be written.
- **Client address.** `ClientIp.dfy` and `AddressText.dfy` are the readers and the choice among candidates,
  `ClientIpText.dfy` how the headers are written and which ranges are private.
- **Remote configuration.** `RemoteConfig.dfy` is the service, `RemoteHistory.dfy` what its event list asks for.

`dafny verify dfyconfig.toml` checks everything.

## Where the code does less than one might expect

For each of these there is a theorem that says exactly when the expected property holds, and a reachable run or a
concrete input where it does not.

- A body call that gets `NGX_AGAIN` or an error while sending the held header loses the links it
  brought; the response is conserved exactly in the runs where no call does
  (`ResponseConservation.ResponseConservedExactly`, `ResponseConservation.LinksAreLostOnAgain`).
- After the header filter has moved the stage, new request body links overtake held ones, and no
  continuation of the run ever sends those (`RequestConservation.HeldRequestIsNeverForwarded`, with a run in
  `RequestConservation.HeaderFilterLetsLinksOvertake`); in runs where no link overtakes, the request body is
  conserved exactly when no call brings links after the last one (`RequestConservation.RequestConservedExactly`).
- Bytes that come after a request body without any had ended are forwarded uninspected; nothing else is, as long as
  the header filter did not move the stage (`RequestInspection.UninspectedExactly`, with a run in
  `RequestInspection.LateByteIsNotInspected`).
- What the final WAF run reads is the same on every schedule exactly when the body was complete or enough of it was
  in memory at submission: file ranges count towards the size but hold no bytes to read
  (`ScheduleIndependence.ScheduleIndependentExactly`, with a run in
  `ScheduleIndependence.FileBodyDependsOnSchedule`).
- With no task in flight, nginx's event handlers are back exactly when no drain of a held header is pending and the
  first task did not complete under the request body task's handler or a drain's
  (`TaskAccounting.HandlersBackExactly`, with runs in `TaskAccounting.OverlapLosesWriteHandler` and
  `TaskAccounting.ProxiedResponseAwaitsDrain`).
- The quota is spread evenly exactly when no 32-bit product of the distribution loop wraps
  (`RefreshSlots.EvenSpreadExactly`, with the uneven window in `RefreshSlots.UnevenWindow`), and the refill adds
  exactly what it should when one 32-bit addition does not (`SharedLimiter.RefillExactly`,
  `SharedLimiter.RefillWrapsForHugeQuota`). With the 50 slots in use the first always holds.
- An IPv6 address in brackets, with or without a port, is read as the address exactly when it is none, because its
  closing bracket is taken as part of it (`AddressText.BracketsExactly`, for every address and suffix).
- A batch leaves the published handle current exactly when `RemoteConfig.BatchExactly` says so; a failed rebuild
  clears the mark that one is due, so the old rules stay published through any number of quiet batches
  (`RemoteConfig.FailedRebuildIsNotTriedAgain`, with a run in `RemoteConfig.FailedRebuildStaysStale`).
- Byte-wise reading of a chain is right everywhere exactly when only the first link may be empty
  (`ChainStream.ReadableExactly`, with a chain in `ChainStream.EmptyLastLinkHidesEnd`).

Besides, if sending a block response's header fails, the next chain is let through as if it were the block body, in
every such state (`BlockSafety.FailedBlockHeaderLetsNextChainThrough`).

## Premises

Allocation succeeds. nginx calls the header filter once, before any body link reaches the output body filter; it sets
the request's and the connection's event handlers only while none of the module's are in place, and gives up only
references it holds. The verdicts of the WAF, whether a task could be posted, whether a read event could be re-armed,
how much of a header the next filter took, clock ticks and what an atomic load returns are parameters of the steps and
may be anything. The text parsers for addresses (`inet_pton`) and the WAF builder's answers are parameters as well.

## Model

| member | source | states |
|---|---|---|
| `FilterBuffer.FilterCtx.BufferChain` | src/security/context.cpp:971-1082 | Appends the links in order, keeps the byte counts and the end-of-message mark, and refuses links after that mark. |
| `FilterBuffer.FilterCtx.Clear` | src/security/context.cpp:1274-1286 | Empties the chain and its counts; the end-of-message mark outlives it. |
| `FilterBuffer.FilterCtx.ReplaceOut` | src/security/context.cpp:1288-1297 | Holds the new chain, with its size recounted. |
| `Chain.UnsentKeepsTheRest` | src/security/context.cpp:1104-1145 | What a partial send of n bytes leaves is exactly the bytes after the first n, for every chain. |
| `SecurityContext.Context.DoRequestBodyFilter` | src/security/context.cpp:827-969 | The filter's loop, buffering and stage writes have the effect that `RequestInspection` and `RequestConservation` say what it means. |
| `SecurityContext.Context.DoHeaderFilter` | src/security/context.cpp:1448-1523 | Holds the header, submits the final task or starts collecting, with the effect `HeaderFilter`. |
| `SecurityContext.Context.SendBufferedHeader` | src/security/context.cpp:1104-1145 | Sends all or part of the held header and keeps the rest. |
| `SecurityContext.Context.DoOutputBodyFilter` | src/security/context.cpp:1525-1680 | Holds, commits a block, or releases header then body, with the effect that `ResponseInspection`, `ResponseConservation` and `BlockSafety` say what it means. |
| `SecurityContext.Context.WafReqPostDone` | src/security/context.cpp:1703-1713 | The compare-and-exchange out of the suspended stage, for both verdicts. |
| `SecurityContext.Context.WafFinalDone` | src/security/context.cpp:1715-1726 | The compare-and-exchange out of the pending stage, for both verdicts. |
| `Stages.TrailRises` | src/security/context.h:105-263 | Along documented transitions the rank strictly rises and a possible final stage is never left. |
| `StageMachine.EventKeepsStaged` | src/security/context.cpp:453-530 | Every event, of either thread, writes only documented transitions and keeps every task in flight at the stage it needs. |
| `StageMachine.RunIsStaged` | src/security/context.h:105-263 | The stage invariant holds in every state of every run. |
| `StageMachine.StagesRiseAndTasksAreUnique` | src/security/context.h:105-263 | In every run all stage writes are documented, ranks rise, final stages absorb, and each kind of WAF task is created at most once. |
| `ResponseConservation.OutputBodyDelivers` | src/security/context.cpp:1525-1680 | One call: what it sends followed by what is then held is what was held plus the new links, headers before bodies, unless it is a call that loses links. |
| `ResponseConservation.ResponseConservedExactly` | src/security/context.cpp:1525-1680 | In every run without a block verdict, at every step, sent ++ held header ++ held body equals the header followed by all body links in arrival order, exactly when no call lost links; headers always precede bodies. |
| `ResponseConservation.LinksAreLostOnAgain` | src/security/context.cpp:1632-1639 | A concrete run in which a call with links gets NGX_AGAIN for the header and the response is not conserved. |
| `BlockSafety.RunShielded` | src/security/context.cpp:1548-1623 | In every run nothing is sent while the response is held back, nor before the header filter ran unless an earlier run blocked. |
| `BlockSafety.BlockedResponseIsReplaced` | src/security/context.cpp:624-668 | When the final run blocks, nothing was sent up to then, and if the block header goes through the client gets exactly the block header and body while everything held is dropped. |
| `BlockSafety.BlockedResponseOverTheRun` | src/security/context.cpp:1611-1680 | Over every continuation, what the client gets is the block response followed by exactly the chains that come later. |
| `BlockSafety.FinalBlockIsSent` | src/security/blocking.cpp:309-391 | The completion of a blocking final run commits to the block and sends its header and, if that worked, its body. |
| `BlockSafety.FailedBlockHeaderLetsNextChainThrough` | src/security/context.cpp:1615-1623 | If the block header fails, the stage stays at the commit and the next chain, whatever it is, is passed on. |
| `BlockSafety.VerdictIsKept` | src/security/context.cpp:503-530 | In every run the verdict of a task is the one its thread came to, for each of the three kinds. |
| `BlockSafety.VerdictDecides` | src/security/context.cpp:567-668 | In every run a completion on a live request sends exactly the block response when its task blocks and nothing when it does not, for each of the three kinds. |
| `Bypass.StartDecides` | src/security/context.cpp:460-500 | The start of a request creates the first task if and only if there is a pool, and the request goes uninspected if and only if there is none or the task could not be posted. |
| `Bypass.OffPassesEverything` | src/security/context.cpp:957-965 | Over every run of an uninspected request, request body and response are what they would be without the module, and no task is created. |
| `RequestConservation.RequestBodyDelivers` | src/security/context.cpp:827-969 | One call: forwarded ++ held is what was held plus the new links unless they come after the end; nothing is forwarded while collecting or suspended, and the first call after the WAF empties the held chain. |
| `RequestConservation.RequestConservedExactly` | src/security/context.cpp:827-969 | In every run before the header filter moves the stage past a held body, forwarded ++ held equals received exactly when no call came after the end of the body. |
| `RequestConservation.HeldRequestIsNeverForwarded` | src/security/context.cpp:957-965 | Once the stage is past the request body, every continuation keeps the held links held and forwards exactly the links that arrive later. |
| `RequestConservation.HeaderFilterLetsLinksOvertake` | src/security/context.cpp:1458-1521 | A reachable run in which a newer link goes out ahead of an older one, which no continuation sends. |
| `RequestInspection.RunGathers` | src/security/context.cpp:841-930 | In every run the held size is right, the end mark is that of the held links until the WAF is done, and everything held is a copy as long as more is waited for. |
| `RequestInspection.InspectedExactly` | src/security/context.cpp:870-927 | In every run, a call that collects and is not refused sends the body to the WAF if and only if held and new links have at least one byte and one of them is last or the size reaches the limit; the stage it leaves goes with that. |
| `RequestInspection.OnlyDecidingCallsInspect` | src/security/context.cpp:850-868 | No other call and no other event sends the request body to the WAF, the call for preread data included. |
| `RequestInspection.UninspectedExactly` | src/security/context.cpp:874-891 | From the pass of the first run on, as long as the body did not go to the WAF and the header filter did not move the stage, no byte is forwarded, if and only if no call brings bytes after a body without any had ended. |
| `RequestInspection.NoByteUninspected` | src/security/context.cpp:827-969 | In every run that collects a body which ends once, with no task created and the stage not moved on, not a byte was forwarded since the first run let the request pass. |
| `RequestInspection.LateByteIsNotInspected` | src/security/context.cpp:887-891 | A reachable run in which a byte after an empty body is forwarded uninspected. |
| `ResponseInspection.RunIsJudged` | src/security/context.cpp:1574-1583 | In every run nothing of the response is held before the header; while its body is collected it is neither complete nor at the limit. |
| `ResponseInspection.BodyIsInspectedExactly` | src/security/context.cpp:1490-1583 | In every run, while the final task is in flight it has a body to read if and only if the body is switched on, the response could be parsed and there is at least one byte of it. |
| `ResponseInspection.FinalRunStartsExactly` | src/security/context.cpp:1494-1596 | In every run an event creates the final task if and only if it is a header after which no body is wanted, or brings the links that complete a wanted body or reach the limit. |
| `ResponseInspection.HoldTakesOrWaits` | src/security/context.cpp:1551-1606 | A call that holds links returns NGX_OK exactly when it copied them and NGX_AGAIN once the limit on copies is reached, and holds them either way. |
| `ResponseInspection.SavedDataIsBounded` | src/security/context.cpp:1553-1567 | In every run what is copied of the response stays below the limit plus one chain. |
| `ScheduleIndependence.RunReady` | src/security/context.cpp:1574-1606 | In every run, while the final task is in flight with a body to inspect, the body is complete or has reached the size limit. |
| `ScheduleIndependence.InFlightExtends` | src/security/context.cpp:990-995 | Any event that leaves the final task in flight only appends to the held body, and not even that once its end was seen. |
| `BodyReaders.RapidNgxChainInputStream.Take` | src/security/body_parse/body_json.cpp:37-84 | The stream's loops deliver the JSON window byte by byte and NUL at its end. |
| `BodyReaders.LinearizeChain` | src/security/body_parse/body_parsing.cpp:83-94 | The copy loop gives the first bytes of the chain, or nothing exactly when there are too few in memory. |
| `BodyReaders.MoveKeeps` | src/security/body_parse/body_json.cpp:63-84 | Every single step of either reader takes exactly what was next. |
| `ScheduleIndependence.FinalRunReadsSubmittedBody` | src/security/context.cpp:1728-1753 | With the reader's steps and the main thread's events interleaved in any way, every byte taken is the next one of the text as submitted and the reader ends exactly with the last; the size may be read at any moment of the flight. |
| `ScheduleIndependence.ScheduleIndependentExactly` | src/security/context.cpp:1574-1606 | Either reader gets the same on every schedule if and only if the body was complete or had enough bytes in memory at submission. |
| `ScheduleIndependence.EveryScheduleReadsTheResponse` | src/security/context.cpp:1735-1743 | Over every run with the body switched on, a parseable response and at least one byte, in memory, and over every schedule: the size is min(held at submission, limit), the plain text read is that prefix of the response body, and the JSON window is a prefix at least as long. |
| `ScheduleIndependence.FileBodyDependsOnSchedule` | src/security/context.cpp:1574-1606 | A reachable run with the body in a file, after which what is read depends on the schedule. |
| `TaskAccounting.RunBalanced` | src/security/context.cpp:132-194 | In every run count = nginx's own + tasks in flight + references a finalization has yet to give up, blocked = tasks in flight, created = destructed + in flight, destructed = completed + failed; a task that ran can always complete, and a request without references has none in flight. |
| `TaskAccounting.HandlersBackExactly` | src/security/context.cpp:355-375 | In every run, with no task in flight, the handlers are those nginx chose if and only if no drain is pending and the first task did not complete under another handler. |
| `TaskAccounting.ProxiedResponseAwaitsDrain` | src/security/context.cpp:1244-1258 | A reachable run of a proxied request with no task in flight and the drain's write handler in place. |
| `TaskAccounting.DrainSendsHeader` | src/security/context.cpp:1204-1241 | In every reachable state, a drain that is done has sent the held header and is no longer pending. |
| `TaskAccounting.OverlapLosesWriteHandler` | src/security/context.cpp:360-375 | A reachable run after which no task is in flight and the write handler is not back. |
| `TaskAccounting.BlocksExactlyWhenAlive` | src/security/context.cpp:282-350 | In every run a completion sends the block response if and only if its task blocks and the request was not terminated, is held by others as well and could be re-armed; else it sends nothing. |
| `TaskAccounting.DrainPendingExactly` | src/security/context.cpp:1244-1258 | In every run a drain is pending after a step if and only if the step let the response of a proxied request pass with its header held, or it was pending and is not done. |
| `TaskBooks.FinishBalanced` | src/security/context.cpp:282-350 | Each of the four endings of a completion keeps the books balanced, whether it gives up the reference itself or leaves that to a finalization. |
| `TaskBooks.EndingsExactly` | src/security/context.cpp:295-346 | Which of the four endings a completion takes, each if and only if: terminated; the only reference left (nginx holds none, no other task is in flight, no finalization is under way); re-armed or not. |
| `TaskBooks.FinishHandled` | src/security/context.cpp:360-375 | What a completion leaves of every handler, in every combination of tasks in flight and a pending drain. |
| `RefreshSlots.SlotsSum` | src/security/shared_limiter.h:134-147 | The slots sum to the quota, for every quota and slot count, even when products wrap. |
| `RefreshSlots.RemainderIndicesIncrease` | src/security/shared_limiter.h:141-146 | The units of the remainder go to distinct slots, in increasing order. |
| `RefreshSlots.WindowClosedForm` | src/security/shared_limiter.h:134-147 | Every cyclic window of slots sums to a difference of two rounded-up shares. |
| `RefreshSlots.EvenSpreadExactly` | src/security/shared_limiter.h:134-147 | Every window of k slots holds k shares of the quota rounded down or up if and only if no product of the loop wraps. |
| `RefreshSlots.DistributeRefreshAmounts` | src/security/shared_limiter.h:134-147 | The in-place loop over the array computes the slots. |
| `RefreshSlots.WindowFullTurn` | src/security/shared_limiter.h:108-121 | A full turn over the slots yields the same total wherever it starts. |
| `SharedLimiter.TickBringsItsSlot` | src/security/shared_limiter.h:111-115 | One tick brings the tokens of the slot with its own number modulo the slot count. |
| `SharedLimiter.RefillLoop` | src/security/shared_limiter.h:106-121 | The early-exit loop runs at most one turn, no addition in it wraps, and it gives min(quota, elapsed slots) added in 32 bits and capped. |
| `SharedLimiter.RefillExactly` | src/security/shared_limiter.h:106-121 | The refill equals min(quota, tokens + elapsed slots) if and only if its one 32-bit addition does not wrap. |
| `SharedLimiter.RefillComposes` | src/security/shared_limiter.h:97-132 | Below 2^31, refreshing at t1 and then at t2 is refreshing at t2. |
| `SharedLimiter.RefillWrapsForHugeQuota` | src/security/shared_limiter.h:117-121 | With a quota of 2^31 a full bucket is emptied by a refill. |
| `SharedLimiter.StepBounded` | src/security/shared_limiter.h:48-67 | Each load, compare-and-swap or denial of any worker keeps the ticks rising and creates no tokens beyond the elapsed slots. |
| `SharedLimiter.RunBounded` | src/security/shared_limiter.h:97-132 | The same between any two states of any interleaving of any number of workers with stale loads and arbitrary ticks. |
| `SharedLimiter.RateBound` | src/security/shared_limiter.h:48-67 | From a fresh bucket on, tokens stay within the quota and the grants over k ticks are at most the tokens there were plus ceil(k * quota / slots). |
| `SharedLimiter.DeployedRateBound` | src/security/library.h:15-18 | With the 50 slots in use the bound is quota + ceil(k * quota / 50), for every quota. |
| `SharedLimiter.SpentExactly` | src/security/shared_limiter.h:48-132 | Over every interleaving, with a quota below 2^31: between two states every token there was or the elapsed slots added was granted or is still there, if and only if no refill in between went over the quota. |
| `SharedLimiter.LimiterState.InitializeSharedState` | src/security/shared_limiter.h:69-78 | A full bucket whose slots are spread over a fresh array. |
| `SharedLimiter.LimiterState.Allow` | src/security/shared_limiter.h:48-132 | Under any interference and spurious failure the two retry loops are protocol steps of one worker, from a load at this call's tick on, and it takes or denies only by a word no older than that tick; undisturbed it grants if and only if the tokens there were plus those of the elapsed slots, up to the quota, are at least one, and leaves one fewer at the later tick. |
| `Arena.BumpedIsApart` | src/security/ddwaf_memres.h:44-53 | A block from the arena lies in its segment and overlaps no earlier block. |
| `Arena.DdwafMemres.AllocateObjects` | src/security/ddwaf_memres.h:30-53 | No block for zero objects; else a zeroed block apart from all others, with every other object untouched. |
| `Arena.DdwafMemres.AllocateString` | src/security/ddwaf_memres.h:55-65 | A string block apart from all others. |
| `Arena.EverySeriesIsApart` | src/security/ddwaf_memres.h:30-65 | Over every series of requests each gets a block of its size, inside its segment and apart from every other. |
| `ObjectPool.DdwafObjArrPool.Alloc` | src/security/ddwaf_memres.h:109-121 | Nothing for no objects; else a zeroed array, recycled or new, that no live array and no other block overlaps. |
| `ObjectPool.DdwafObjArrPool.Realloc` | src/security/ddwaf_memres.h:123-135 | The new array starts with the old elements and is zero after them; the old one is on a free list and live no more. |
| `JsonEvents.DocumentIsPut` | src/security/body_parse/body_json.cpp:131-197 | The events of a whole document leave exactly that document in the slot it started in. |
| `JsonEvents.PrefixDenotes` | src/security/body_parse/body_json.cpp:102-129 | Any prefix of a document's events, with its open containers closed, leaves the truncated document at the root. |
| `JsonEvents.WholeDocument` | src/security/body_parse/body_json.cpp:102-129 | Truncating after the last event truncates nothing. |
| `JsonEvents.TruncationClosesOff` | src/security/body_parse/body_json.cpp:102-129 | A truncated document's own events are those of the document up to the cut followed by the ends of the containers open there: nothing read is missing and nothing else is in it. |
| `JsonBuilder.RepUnique` | src/security/body_parse/body_json.cpp:257-264 | What memory represents at an object is one tree at most. |
| `JsonBuilder.RepFrame` | src/security/ddwaf_memres.h:123-135 | A closed container keeps representing its tree whatever is written outside frozen arrays. |
| `JsonBuilder.ToDdwafObjHandler.GetSlot` | src/security/body_parse/body_json.cpp:219-243 | Gives the entry waiting for its value or a new one, growing by doubling, while every open and closed container keeps what it represents. |
| `JsonBuilder.ToDdwafObjHandler.PushContainer` | src/security/body_parse/body_json.cpp:245-255 | Opens a container whose array is still empty. |
| `JsonBuilder.ToDdwafObjHandler.PopContainer` | src/security/body_parse/body_json.cpp:257-264 | Closes the innermost container: its entry now represents all its entries. |
| `JsonBuilder.ToDdwafObjHandler.Finish` | src/security/body_parse/body_json.cpp:102-129 | Closes everything open and gives the root object if there is one. |
| `JsonBuilder.ParseJson` | src/security/body_parse/body_json.cpp:271-304 | For every document and every prefix of its events, the caller's slot represents exactly the truncated document under the key it had, under any doubling and recycling, and every other object that was there is untouched; no events, no object. |
| `ChainStream.ReadableExactly` | src/security/body_parse/chain_is.h:42-51 | Byte-wise eof and read are right at every position if and only if every link after the first is non-empty. |
| `ChainStream.EmptyLastLinkHidesEnd` | src/security/body_parse/chain_is.h:87-92 | With an empty last link nothing is left and yet eof is false. |
| `ChainStream.NgxChainInputStream.Eof` | src/security/body_parse/chain_is.h:87-92 | Where it says so nothing is left, for any links; with readable links it says so exactly there. |
| `ChainStream.NgxChainInputStream.Read` | src/security/body_parse/chain_is.h:42-51 | The next byte of the joined links, wherever it is in the current link or at the start of the next. |
| `ChainStream.NgxChainInputStream.ReadBulk` | src/security/body_parse/chain_is.h:53-68 | The next bytes of the joined links, as many as asked for or as there are, for any links. |
| `ChainStream.NgxChainInputStream.ReadUntil` | src/security/body_parse/chain_is.h:70-85 | Bytes up to and including the first delimiter, or the limit, or the end. |
| `MultipartLines.ConsumeLine` | src/security/body_parse/body_multipart.cpp:34-110 | Classifies the line and consumes exactly it; a start of a boundary cut off by the end of the input counts as its end. |
| `PartHeaders.UnfoldNextHeader` | src/security/body_parse/header.cpp:152-232 | One unfolded header and what follows it, carriage returns dropped, leading blank lines skipped. |
| `PartHeaders.ReadHeader` | src/security/body_parse/header.cpp:407-512 | The scan over parameters, quoted and token values gives the name that `PartHeaderText` reads off any Content-Disposition header. |
| `PartHeaders.ForStream` | src/security/body_parse/header.cpp:383-520 | Reads all headers of a part; the last name wins and an empty one is none. |
| `PartHeaderText.RawUnfolds` | src/security/body_parse/header.cpp:152-232 | A header folded over any number of lines, ended by CRLF or LF, is unfolded into one line. |
| `PartHeaderText.ParamsRead` | src/security/body_parse/header.cpp:428-512 | For every list of parameters, quoted (semicolons included) or tokens, the name is that of the last `name` parameter; all others leave it alone. |
| `PartHeaderText.HeadersRead` | src/security/body_parse/header.cpp:383-520 | For every list of headers, Content-Disposition or not, the name is that of the last `name` parameter among them, and what follows the empty line is left. |
| `PartHeaderText.HeadersCut` | src/security/body_parse/header.cpp:476-485 | Headers cut anywhere use up the input and give what the parameters before the cut give, or the start of a name sent as a token. |
| `PartHeaderText.SentNameIsRead` | src/security/body_parse/header.cpp:476-510 | A name sent in quotes in any spelling, or as a token, is read back whatever other parameters and headers surround it. |
| `Multipart.ReadContent` | src/security/body_parse/body_multipart.cpp:191-218 | The lines up to the next boundary without the line end that belongs to it. |
| `Multipart.ParseMultipart` | src/security/body_parse/body_multipart.cpp:147-252 | Each name of a named part with its contents in order and no other name; a function of the joined links only, so independent of how they are split. |
| `MultipartRoundTrip.ContentWhole` | src/security/body_parse/body_multipart.cpp:191-218 | Content in which no line starts with the boundary is read back whole. |
| `MultipartRoundTrip.RoundTrip` | src/security/body_parse/body_multipart.cpp:147-252 | For every list of parts with any headers and contents free of boundary lines, any preamble, padded boundary lines and epilogue, parsing gives exactly the named parts. |
| `MultipartRoundTrip.Truncation` | src/security/body_parse/body_multipart.cpp:54-69 | Such a body, with at most one name per part, cut anywhere gives a failure or the first parts, of which only the last may have just a start of its content, or of its name if that was a token. |
| `MultipartRoundTrip.CutContentIsKept` | src/security/body_parse/body_multipart.cpp:191-218 | A body that stops inside a part's content gives every part before it, and of that content everything but a line end and the start of what may be a boundary. |
| `ContentType.ForString` | src/security/body_parse/header.cpp:256-330 | Media type, charset and boundary of a header, or nothing where the grammar is not met. |
| `ContentType.ConsumeQuotedString` | src/security/body_parse/header.cpp:96-132 | The value of a quoted string with its pairs resolved and what follows it. |
| `ContentType.ParsedBoundaryIsOneLine` | src/security/body_parse/header.cpp:279-327 | A parsed boundary never contains a line end, for every header. |
| `ContentType.HeaderRoundTrip` | src/security/body_parse/header.cpp:256-330 | A header in any spelling, with any parameters as tokens or quoted strings, is read as its types in lower case, its last charset and its last boundary. |
| `MultipartRequest.ParseRequest` | src/security/body_parse/body_parsing.cpp:172-182 | The multipart branch: no result for a bad Content-Type, else the fields of the body under its boundary. |
| `MultipartRequest.RequestRoundTrip` | src/security/body_parse/body_multipart.cpp:147-252 | From any Content-Type header and the body as sent, in any split into links, to the fields: exactly the sent names, one value as a string, several as an array in order; a failure if and only if no part has a name. |
| `PercentDecoding.DecodePercent` | src/security/decode.cpp:16-68 | The three-state byte loop decodes by the grammar that reads with lookahead. |
| `PercentDecoding.DecodedCoded` | src/security/decode.cpp:16-68 | Whatever spelling was chosen for each character (as it is, a space as plus, hexadecimal in either case), decoding gives the characters. |
| `PercentDecoding.DecodedUnescaped` | src/security/decode.cpp:34-64 | Text without an escape or plus sign is left alone, stray percent signs included. |
| `Octets.HexIsPlace` | src/security/decode.cpp:43-50 | A hexadecimal digit is worth its place among the sixteen, in either case. |
| `QueryStrings.QueryStringIter.Current` | src/security/decode.cpp:78-98 | The first pair not visited yet. |
| `QueryStrings.QueryStringIter.Advance` | src/security/decode.h:68-76 | Drops exactly that pair; a final separator starts no pair. |
| `QueryStrings.QueryStringIter.Intern` | src/security/decode.cpp:114-127 | Gives back the same contents whatever is in the set, NULs included. |
| `QueryStrings.PairsRoundTrip` | src/security/decode.cpp:78-112 | Every list of pairs in any spelling is iterated back in order: keys without a value, empty keys and values, and equals signs in values included. |
| `Fields.AbsorbedIsValues` | src/security/body_parse/body_multipart.cpp:220-224 | Adding parts one by one collects each name's values in order. |
| `Urlencoded.ParseUrlencoded` | src/security/body_parse/body_parsing.cpp:104-151 | Fails exactly when the chain is shorter than the size; else each key with its values in order and no other key. |
| `Urlencoded.Fill` | src/security/body_parse/body_parsing.cpp:137-148 | The filling pass finds every key and never writes past the capacity counted for it. |
| `Urlencoded.SetValueFromIter` | src/security/collection.cpp:123-183 | One entry per key with its values in order, and an entry for every key. |
| `Urlencoded.FillOnTheWay` | src/security/collection.cpp:143-182 | The entries written never exceed those allocated, nor the elements of an array its capacity. |
| `Urlencoded.BuildersAgree` | src/security/collection.cpp:123-183 | The two builders give the same keys the same values. |
| `Urlencoded.FormRoundTrip` | src/security/body_parse/body_parsing.cpp:104-151 | A form of pairs in any spelling is parsed into exactly their keys, one value as a string, several as an array in order. |
| `ClientIp.PickIsFirst` | src/security/client_ip.cpp:328-350 | The choice is the first public candidate, else the first one. |
| `ClientIp.ParseList` | src/security/client_ip.cpp:357-387 | The choice among the comma-separated addresses. |
| `ClientIp.ParseForwarded` | src/security/client_ip.cpp:393-498 | The state machine chooses among exactly the values of the `for` parameters, as a grammar with lookahead finds them. |
| `ClientIp.ParseMultiple` | src/security/client_ip.cpp:328-350 | The choice over all occurrences of a header is the choice over all their candidates. |
| `ClientIp.IndexHeaders` | src/security/client_ip.cpp:281-323 | Every header of interest with its occurrences in order, and no other. |
| `ClientIp.Resolve` | src/security/client_ip.cpp:534-607 | The nested loops equal one flat rule: first public candidate by priority, occurrence and position, else a public remote address, else the first candidate, else the remote address. |
| `ClientIp.ResolveConfigured` | src/security/client_ip.cpp:535-556 | With a configured header: its first occurrence, read as Forwarded and, if that gives nothing, as a list. |
| `ClientIpText.ForwardedIsRead` | src/security/client_ip.cpp:393-498 | A Forwarded header with any parameters, tokens or quoted, is read as exactly the values of its `for` parameters, in order. |
| `ClientIpText.ListIsRead` | src/security/client_ip.cpp:357-387 | A list of addresses is read as its entries, in order, without the spaces before them. |
| `ClientIpText.ResolutionIs` | src/security/client_ip.cpp:559-607 | A public candidate with none before it is the answer; without one, a public remote address, else the first candidate, else the remote address. |
| `ClientIpText.EarlierHeaderWins` | src/security/client_ip.cpp:246-262 | The first public address of a header is the answer if no header before it in the order has one, whatever the others hold. |
| `ClientIpText.PrivateOctets` | src/security/client_ip.cpp:116-155 | The private IPv4 addresses by their octets, if and only if. |
| `ClientIpText.PrivateGroups` | src/security/client_ip.cpp:157-201 | The private IPv6 addresses by their first group, if and only if. |
| `AddressText.BracketsExactly` | src/security/client_ip.cpp:505-515 | A bracketed address with any suffix is read as the address if and only if it is none. |
| `AddressText.MaybePortIsSensible` | src/security/client_ip.cpp:500-525 | The reading of addresses with ports meets what `Resolve` asks of a parser. |
| `AddressText.PortIsDropped` | src/security/client_ip.cpp:517-526 | An IPv4 address is read without its port; text with more colons or none is read whole. |
| `AddressText.MappedIsV4` | src/security/client_ip.cpp:83-95 | An IPv4 address mapped into IPv6 is that IPv4 address. |
| `RemoteConfig.RunIsConsistent` | src/security/library.cpp:331-370 | In every run the builder never holds both the bundled rules and an /ASM_DD/ configuration, and every published handle was built with exactly one of them. |
| `RemoteConfig.UpToDateAfterEveryBatch` | src/security/waf_remote_cfg.cpp:386-408 | While every rebuild succeeds, the published handle matches the builder at the end of every batch. |
| `RemoteConfig.BatchExactly` | src/security/waf_remote_cfg.cpp:386-408 | A batch leaves the handle current if and only if nothing had changed and it was, or it rebuilt, or the failed rebuild would have built what is published. |
| `RemoteConfig.FailedRebuildIsNotTriedAgain` | src/security/waf_remote_cfg.cpp:148-152 | After a failed rebuild no number of quiet batches changes anything. |
| `RemoteConfig.FailedRebuildStaysStale` | src/security/waf_remote_cfg.cpp:401-407 | A concrete run whose published rules stay behind the builder's. |
| `RemoteHistory.RunTracks` | src/security/library.cpp:331-370 | After every list of events the builder holds exactly the remote rule sets that the list asks for, the default one as the list says, and the two flags are those of the events since the last batch. |
| `RemoteHistory.HandleHoldsWhatWasAsked` | src/security/waf_remote_cfg.cpp:386-408 | In every run the published handle holds exactly what had been asked for at the last batch that published, with the default rules if and only if no remote set replaces them. |
| `RemoteHistory.LastEventDecides` | src/security/waf_remote_cfg.cpp:115-141 | A path last reverted is in neither the builder nor any handle published after that; one whose last update was accepted has its rules in both; events on other paths change nothing for it. |
| `RemoteHistory.NextBatchPublishes` | src/security/waf_remote_cfg.cpp:401-407 | After an accepted update the next batch whose build succeeds publishes. |
| `RemoteConfig.UpdateableWafInstance.AddOrUpdateConfig` | src/security/library.cpp:331-342 | The bundled rules are removed before an /ASM_DD/ configuration is added, whatever becomes of it. |
| `RemoteConfig.UpdateableWafInstance.Update` | src/security/library.cpp:349-370 | The bundled rules are put back when no /ASM_DD/ configuration is there; a handle is published exactly when that and the build succeed. |
| `RemoteConfig.CurrentAppSecConfig.SetConfig` | src/security/waf_remote_cfg.cpp:115-129 | Marks the batch dirty even when the update is refused. |
| `RemoteConfig.CurrentAppSecConfig.RemoveConfig` | src/security/waf_remote_cfg.cpp:131-141 | Takes the configuration out of the builder and marks the batch dirty only then; `RemoteHistory` says what that comes to. |
| `RemoteConfig.CurrentAppSecConfig.PostProcess` | src/security/waf_remote_cfg.cpp:386-408 | The end-of-batch callback clears both flags and rebuilds when dirty. |

## Left out

- HTTP/2 send chains and frame surgery (src/security/context.cpp:1357-1445); sending a held header in parts is modelled by how many bytes were taken.
- Buffers as memory: links are values with their unread bytes and the last mark, so sharing and later reuse of nginx's buffers, flush and sync flags and mixed memory and file buffers are not captured.
- Allocation failures and the exception barriers around callbacks; `header_only` and the `buffered` bits of a request.
- TaskAccounting.HandlersBackExactly: nginx replacing a handler while one of the module's is in place is not modelled; the module then logs and leaves it.
- What the request body run reads if links keep arriving while it is in flight, which the source logs as unexpected.
- What a finalization or a termination does inside nginx; only that it gives up the references it owes.
- ChainStream.NgxChainInputStream.ReadUntil: and the multipart parser above it take chains in which only the first link may be empty, which is exactly when byte-wise reading is right; what reading beyond an empty link would give is not modelled.
- PartHeaders.UnfoldNextHeader: the generator is run to its end at once, since every path of its consumer drains it before going on.
- JsonBuilder.ParseJson: takes the parser's events as given; tokenising by rapidjson is not part of this model, and strings are values rather than arena memory.
- QueryStrings.QueryStringIter.Intern: strings are values, so where in the arena an interned string lies is not captured; the trimming mode, used for cookies only, is not modelled.
- Multipart.ParseMultipart: the values of a name are a sequence; their array grows through the pool whose guarantees `ObjectPool` states.
- The order of the entries in maps built from hash tables or ordered maps; only keys and values are stated.
- SharedLimiter.LimiterState.Allow: the limiter without shared state, which denies everything, is not modelled.
- Remote configuration paths are told apart only by whether they are the bundled one or contain "/ASM_DD/"; parsing of keys and documents, activation and logging are not modelled.
- AddressText.BracketsExactly: the system's text parsers are parameters, required only to refuse texts with a bracket and texts of at most one character.
- Response header deletion, cookies, directive tables, configuration merging, telemetry, RUM injection and the tracing half of the module: plumbing or easy members.
