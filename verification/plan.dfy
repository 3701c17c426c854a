/**
 The complete step plan of a conversion, stage by stage, as a reference
 for `Run` that involves no oracle: a conversion performs a prefix of the
 plan, in order, and performs all of it exactly when it completes.
 */
module Plans {
  import opened Pipeline
  import opened Conversion

  /** Open and extract each of layers `k` to `n - 1`. */
  function LayerPlan(k: nat, n: nat): (plan: seq<Step>)
    requires k <= n
    ensures |plan| == 2 * (n - k)
    decreases n - k
  {
    if k == n then [] else [OpenLayer(k), Untar(k)] + LayerPlan(k + 1, n)
  }

  /** Every step of a stage, in source order, for a manifest of `n` layers. */
  function StagePlan(stage: Stage, n: nat): seq<Step>
  {
    match stage
    case Prepare => [MakeMountDir]
    case Allocate => [CreateTempImage, Fallocate, Mkfs, PublishImage, Mount]
    case Materialize => [FetchManifest] + LayerPlan(0, n)
    case Synthesize => [FetchConfig, ReadConfig, CreateTempInit, PublishInit, ChmodInit]
    case Inject => [WriteHosts, WriteResolvConf]
    case Unmount => [Umount]
    case Finalize => [E2fsck, Resize2fs]
    case Launch => [NewMachine, StartMachine, WaitMachine, StopMachine]
  }

  function PlanOf(stages: seq<Stage>, n: nat): seq<Step>
  {
    if |stages| == 0 then [] else StagePlan(stages[0], n) + PlanOf(stages[1..], n)
  }

  /** Every step of a conversion of an image with `n` layers. */
  function Plan(n: nat): seq<Step>
  {
    PlanOf(Order, n)
  }

  /** The layer loop performs a prefix of its plan, and all of it when it
      ends normally. */
  lemma {:induction false} ApplyLayersFollowsPlan(o: Oracle, k: nat, n: nat)
    requires k <= n
    ensures ApplyLayers(o, k, n).trace <= LayerPlan(k, n)
    ensures ApplyLayers(o, k, n).outcome.Ok? ==> ApplyLayers(o, k, n).trace == LayerPlan(k, n)
    decreases n - k
  {
    if k < n && LayerApplied(o, k) {
      ApplyLayersFollowsPlan(o, k + 1, n);
    }
  }

  /** Each stage performs a prefix of its plan, and all of it when it ends
      normally. */
  lemma StageFollowsPlan(h: Host, stage: Stage)
    ensures StageRun(h, stage).trace <= StagePlan(stage, h.layers)
    ensures StageRun(h, stage).outcome.Ok? ==> StageRun(h, stage).trace == StagePlan(stage, h.layers)
  {
    match stage
    case Materialize => ApplyLayersFollowsPlan(h.ok, 0, h.layers);
    case _ =>
  }

  lemma {:induction false} SequenceFollowsPlan(h: Host, stages: seq<Stage>)
    ensures Sequence(h, stages).trace <= PlanOf(stages, h.layers)
    ensures Sequence(h, stages).outcome.Ok? ==> Sequence(h, stages).trace == PlanOf(stages, h.layers)
    decreases |stages|
  {
    if |stages| > 0 {
      StageFollowsPlan(h, stages[0]);
      SequenceFollowsPlan(h, stages[1..]);
    }
  }

  /** A conversion performs the steps of the plan in order, with nothing
      skipped, repeated or added, and stops only at a failure: it performs
      the whole plan exactly when it completes. */
  lemma RunFollowsPlan(h: Host)
    ensures Run(h).trace <= Plan(h.layers)
    ensures Run(h).outcome.Ok? <==> Run(h).trace == Plan(h.layers)
  {
    SequenceFollowsPlan(h, Order);
    if Run(h).trace == Plan(h.layers) {
      StopInPlan(Order, h.layers);
      StopOnlyAfterCleanWait(h);
    }
  }

  /** The plan of any stage list that boots the guest ends up stopping it. */
  lemma {:induction false} StopInPlan(stages: seq<Stage>, n: nat)
    requires Launch in stages
    ensures StopMachine in PlanOf(stages, n)
    decreases |stages|
  {
    if stages[0] == Launch {
      assert StagePlan(Launch, n)[3] == StopMachine;
    } else {
      StopInPlan(stages[1..], n);
    }
  }
}
