/** The stages of a request's security context and the transitions documented for them. */
module Stages {
  datatype Stage =
    | Disabled
    | Start
    | EnteredOnStart
    | AfterBeginWaf
    | AfterBeginWafBlock
    | CollectingOnReqDataPreread
    | CollectingOnReqData
    | SuspendedOnReqWaf
    | AfterOnReqWaf
    | AfterOnReqWafBlock
    | CollectingOnRespData
    | PendingWafEnd
    | WafEndBlockCommit
    | AfterRunWafEnd

  /** The incoming transitions listed for each stage. */
  predicate Documented(from: Stage, to: Stage) {
    match to
    case Start => false
    case Disabled => from == Start
    case EnteredOnStart => from == Start
    case AfterBeginWaf => from == EnteredOnStart
    case AfterBeginWafBlock => from == EnteredOnStart
    case CollectingOnReqDataPreread => from == AfterBeginWaf
    case CollectingOnReqData => from == AfterBeginWaf || from == CollectingOnReqDataPreread
    case SuspendedOnReqWaf => from == CollectingOnReqData
    case AfterOnReqWaf => from == SuspendedOnReqWaf || from == CollectingOnReqData
    case AfterOnReqWafBlock => from == SuspendedOnReqWaf
    case CollectingOnRespData => from == AfterBeginWaf || from == AfterOnReqWaf
    case PendingWafEnd => from == AfterBeginWaf || from == AfterOnReqWaf || from == CollectingOnRespData
    case WafEndBlockCommit => from == PendingWafEnd
    case AfterRunWafEnd =>
      from == PendingWafEnd || from == WafEndBlockCommit || from == AfterBeginWaf || from == AfterOnReqWaf
  }

  predicate PossibleFinal(s: Stage) {
    s == Disabled || s == AfterBeginWafBlock || s == AfterOnReqWafBlock || s == AfterRunWafEnd
  }

  function Rank(s: Stage): nat {
    match s
    case Start => 0
    case Disabled => 1
    case EnteredOnStart => 1
    case AfterBeginWaf => 2
    case AfterBeginWafBlock => 2
    case CollectingOnReqDataPreread => 3
    case CollectingOnReqData => 4
    case SuspendedOnReqWaf => 5
    case AfterOnReqWaf => 6
    case AfterOnReqWafBlock => 6
    case CollectingOnRespData => 7
    case PendingWafEnd => 8
    case WafEndBlockCommit => 9
    case AfterRunWafEnd => 10
  }

  /** A trail of stage writes, first value first, that only takes documented transitions. */
  predicate DocumentedTrail(trail: seq<Stage>) {
    forall i :: 0 < i < |trail| ==> Documented(trail[i - 1], trail[i])
  }

  lemma {:induction false} TrailRises(trail: seq<Stage>, i: nat, j: nat)
    requires DocumentedTrail(trail) && i < j < |trail|
    ensures Rank(trail[i]) < Rank(trail[j]) && !PossibleFinal(trail[i])
    decreases j
  {
    assert Documented(trail[j - 1], trail[j]);
    if i < j - 1 {
      TrailRises(trail, i, j - 1);
    }
  }

  lemma TrailExtends(trail: seq<Stage>, writes: seq<Stage>)
    requires trail != [] && DocumentedTrail(trail)
    requires DocumentedTrail([trail[|trail| - 1]] + writes)
    ensures DocumentedTrail(trail + writes)
  {
    var long, tail := trail + writes, [trail[|trail| - 1]] + writes;
    forall i | 0 < i < |long| ensures Documented(long[i - 1], long[i]) {
      if i >= |trail| {
        var k := i - |trail| + 1;
        assert tail[k - 1] == long[i - 1] && tail[k] == long[i];
      }
    }
  }
}
