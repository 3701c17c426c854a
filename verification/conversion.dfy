/**
 Properties of a whole conversion run: the stages run strictly in order,
 the first failure ends the run, and what has or has not happened to the
 disk image, its mount and the files written into it when the run ends.
 */
module Conversion {
  import opened Strings
  import opened InitScripts
  import opened Pipeline

  /** Stage ranks strictly increase along `stages`. */
  predicate Increasing(stages: seq<Stage>)
  {
    forall i, j :: 0 <= i < j < |stages| ==> Rank(stages[i]) < Rank(stages[j])
  }

  /** Stages of the steps of `t` never go backwards. */
  predicate StageSorted(t: seq<Step>)
  {
    forall i, j :: 0 <= i < j < |t| ==> Rank(StageOf(t[i])) <= Rank(StageOf(t[j]))
  }

  lemma OrderIsComplete(stage: Stage)
    ensures stage in Order
  {
  }

  lemma OrderIncreasing()
    ensures Increasing(Order)
  {
  }

  /** Running stages in sequence is fail-fast and never returns an error. */
  lemma {:induction false} SequenceFailFast(h: Host, stages: seq<Stage>)
    ensures FailFast(h.ok, Sequence(h, stages)) && !Sequence(h, stages).outcome.Err?
    decreases |stages|
  {
    if |stages| > 0 {
      var first := StageRun(h, stages[0]);
      StageRunStaged(h, stages[0]);
      SequenceFailFast(h, stages[1..]);
      if first.outcome.Ok? {
        PrefixedFailFast(h.ok, first.trace, Sequence(h, stages[1..]));
      }
    }
  }

  /** A step of a sequenced run was performed by its own stage, after every
      earlier stage ended normally. */
  lemma {:induction false} SequenceReach(h: Host, stages: seq<Stage>, s: Step)
    requires Increasing(stages)
    requires s in Sequence(h, stages).trace
    ensures StageOf(s) in stages
    ensures s in StageRun(h, StageOf(s)).trace
    ensures forall st :: st in stages && Rank(st) < Rank(StageOf(s)) ==> StageRun(h, st).outcome.Ok?
    decreases |stages|
  {
    var first := StageRun(h, stages[0]);
    var rest := stages[1..];
    StageRunStaged(h, stages[0]);
    if s in first.trace {
      forall st | st in stages
        ensures Rank(stages[0]) <= Rank(st)
      {
        var i :| 0 <= i < |stages| && stages[i] == st;
      }
    } else {
      assert first.outcome.Ok? && s in Sequence(h, rest).trace;
      SequenceReach(h, rest, s);
      forall st | st in stages && Rank(st) < Rank(StageOf(s))
        ensures StageRun(h, st).outcome.Ok?
      {
        if st != stages[0] {
          var i :| 0 <= i < |stages| && stages[i] == st;
          assert st == rest[i - 1];
        }
      }
    }
  }

  /** Once every stage before `st` ended normally, all of `st`'s steps are
      part of the run. */
  lemma {:induction false} SequenceIncludes(h: Host, stages: seq<Stage>, st: Stage)
    requires Increasing(stages) && st in stages
    requires forall p :: p in stages && Rank(p) < Rank(st) ==> StageRun(h, p).outcome.Ok?
    ensures forall s :: s in StageRun(h, st).trace ==> s in Sequence(h, stages).trace
    decreases |stages|
  {
    if st != stages[0] {
      var i :| 0 <= i < |stages| && stages[i] == st;
      assert Rank(stages[0]) < Rank(st);
      assert st == stages[1..][i - 1];
      SequenceIncludes(h, stages[1..], st);
    }
  }

  /** A sequenced run ends normally exactly when every stage does. */
  lemma {:induction false} SequenceOutcome(h: Host, stages: seq<Stage>)
    ensures Sequence(h, stages).outcome.Ok? <==> forall st :: st in stages ==> StageRun(h, st).outcome.Ok?
    decreases |stages|
  {
    if |stages| > 0 {
      SequenceOutcome(h, stages[1..]);
      assert forall st :: st in stages <==> st == stages[0] || st in stages[1..];
    }
  }

  /** The steps of a sequenced run go through the stages in order. */
  lemma {:induction false} SequenceSorted(h: Host, stages: seq<Stage>)
    requires Increasing(stages)
    ensures StageSorted(Sequence(h, stages).trace)
    decreases |stages|
  {
    if |stages| > 0 {
      var first := StageRun(h, stages[0]);
      StageRunStaged(h, stages[0]);
      if first.outcome.Ok? {
        var rest := Sequence(h, stages[1..]);
        SequenceSorted(h, stages[1..]);
        var t := first.trace + rest.trace;
        forall i, j | 0 <= i < j < |t|
          ensures Rank(StageOf(t[i])) <= Rank(StageOf(t[j]))
        {
          if j < |first.trace| {
            assert t[i] in first.trace && t[j] in first.trace;
          } else if i < |first.trace| {
            assert t[i] in first.trace;
            assert t[j] == rest.trace[j - |first.trace|];
            SequenceReach(h, stages[1..], t[j]);
            var p :| 0 <= p < |stages[1..]| && stages[1..][p] == StageOf(t[j]);
            assert stages[p + 1] == StageOf(t[j]);
          } else {
            assert t[i] == rest.trace[i - |first.trace|];
            assert t[j] == rest.trace[j - |first.trace|];
          }
        }
      }
    }
  }

  /** A conversion is fail-fast and terminates the process on every error. */
  lemma RunFailFast(h: Host)
    ensures FailFast(h.ok, Run(h))
    ensures !Run(h).outcome.Err?
  {
    SequenceFailFast(h, Order);
  }

  /** A step of a conversion was performed by its own stage, and only after
      every earlier stage ended normally. */
  lemma RunReach(h: Host, s: Step)
    requires s in Run(h).trace
    ensures s in StageRun(h, StageOf(s)).trace
    ensures forall st :: Rank(st) < Rank(StageOf(s)) ==> StageRun(h, st).outcome.Ok?
  {
    OrderIncreasing();
    SequenceReach(h, Order, s);
    forall st | Rank(st) < Rank(StageOf(s))
      ensures StageRun(h, st).outcome.Ok?
    {
      OrderIsComplete(st);
    }
  }

  /** Once every earlier stage ended normally, all of a stage's steps are in the run. */
  lemma RunIncludes(h: Host, st: Stage)
    requires forall p :: Rank(p) < Rank(st) ==> StageRun(h, p).outcome.Ok?
    ensures forall s :: s in StageRun(h, st).trace ==> s in Run(h).trace
  {
    OrderIncreasing();
    OrderIsComplete(st);
    SequenceIncludes(h, Order, st);
  }

  /** The stages of a conversion never go backwards, and nothing happens
      after the step that ends a failed run: every step performed belongs to
      the failing step's stage or an earlier one. */
  lemma StagesInOrder(h: Host)
    ensures StageSorted(Run(h).trace)
    ensures Run(h).outcome.Fatal? ==>
      var t := Run(h).trace;
      && t[|t| - 1] == Run(h).outcome.at
      && !Passed(h.ok, Run(h).outcome.at)
      && forall s :: s in t ==> Rank(StageOf(s)) <= Rank(StageOf(Run(h).outcome.at))
  {
    OrderIncreasing();
    SequenceSorted(h, Order);
    RunFailFast(h);
    var t := Run(h).trace;
    if Run(h).outcome.Fatal? {
      forall s | s in t
        ensures Rank(StageOf(s)) <= Rank(StageOf(Run(h).outcome.at))
      {
        var i :| 0 <= i < |t| && t[i] == s;
        if i < |t| - 1 {
          assert Rank(StageOf(t[i])) <= Rank(StageOf(t[|t| - 1]));
        }
      }
    }
  }

  /** Every stage ranked before `stage` ended normally. */
  predicate EarlierSucceeded(h: Host, stage: Stage)
  {
    forall p :: Rank(p) < Rank(stage) ==> StageSucceeds(h, p)
  }

  /** A step of a conversion was performed by its own stage, after the
      checked operations of every earlier stage succeeded. */
  lemma RunReachSucceeds(h: Host, s: Step)
    requires s in Run(h).trace
    ensures s in StageRun(h, StageOf(s)).trace
    ensures EarlierSucceeded(h, StageOf(s))
  {
    RunReach(h, s);
    forall p | Rank(p) < Rank(StageOf(s))
      ensures StageSucceeds(h, p)
    {
      StageRunOk(h, p);
    }
  }

  /** Once the checked operations of every earlier stage succeeded, the
      steps of `stage` are all in the run. */
  lemma RunIncludesSucceeds(h: Host, stage: Stage)
    requires EarlierSucceeded(h, stage)
    ensures forall s :: s in StageRun(h, stage).trace ==> s in Run(h).trace
  {
    forall p | Rank(p) < Rank(stage)
      ensures StageRun(h, p).outcome.Ok?
    {
      StageRunOk(h, p);
    }
    RunIncludes(h, stage);
  }

  /** The image file is published over the output path only once it was
      created, allocated and formatted, and mounted only after that. */
  lemma AllocationOrder(h: Host)
    ensures PublishImage in Run(h).trace ==> h.ok(MakeMountDir) && h.ok(CreateTempImage) && h.ok(Fallocate) && h.ok(Mkfs)
    ensures Mount in Run(h).trace ==> h.ok(MakeMountDir) && h.ok(CreateTempImage) && h.ok(Fallocate) && h.ok(Mkfs)
  {
    if PublishImage in Run(h).trace {
      RunReachSucceeds(h, PublishImage);
      assert StageSucceeds(h, Prepare);
    }
    if Mount in Run(h).trace {
      RunReachSucceeds(h, Mount);
      assert StageSucceeds(h, Prepare);
    }
  }

  /** The image is unmounted only after the mount, every layer, the init
      script and both host files succeeded. */
  lemma UnmountOnlyAfterMaterialization(h: Host)
    requires Umount in Run(h).trace
    ensures h.ok(Mount)
    ensures h.ok(FetchManifest) && LayersApplied(h.ok, 0, h.layers)
    ensures h.ok(FetchConfig) && h.ok(ReadConfig) && h.ok(CreateTempInit)
    ensures h.ok(WriteHosts) && h.ok(WriteResolvConf)
  {
    RunReachSucceeds(h, Umount);
    assert StageSucceeds(h, Allocate) && StageSucceeds(h, Materialize);
    assert StageSucceeds(h, Synthesize) && StageSucceeds(h, Inject);
  }

  /** The filesystem is checked only after a successful unmount. */
  lemma CheckOnlyAfterUnmount(h: Host)
    requires E2fsck in Run(h).trace
    ensures h.ok(Umount)
  {
    RunReachSucceeds(h, E2fsck);
    assert StageSucceeds(h, Unmount);
  }

  /** The filesystem is shrunk only after a successful unmount and a
      successful check. */
  lemma ResizeOnlyAfterCheck(h: Host)
    requires Resize2fs in Run(h).trace
    ensures h.ok(Umount) && h.ok(E2fsck)
  {
    RunReachSucceeds(h, Resize2fs);
    assert StageSucceeds(h, Unmount);
  }

  /** The guest is created, started, waited for or stopped only after the
      image was unmounted, checked and shrunk; it is started only once it
      was created. */
  lemma BootOnlyAfterFinalization(h: Host, s: Step)
    requires s in Run(h).trace && StageOf(s) == Launch
    ensures h.ok(Umount) && h.ok(E2fsck) && h.ok(Resize2fs)
    ensures s != NewMachine ==> h.ok(NewMachine)
  {
    RunReachSucceeds(h, s);
    assert StageSucceeds(h, Unmount) && StageSucceeds(h, Finalize);
  }

  /** A checked operation that fails ends its stage and the whole run. */
  lemma FailureEndsRun(h: Host, s: Step)
    requires s in Run(h).trace && !Passed(h.ok, s)
    ensures StageRun(h, StageOf(s)).outcome == Fatal(s)
    ensures Run(h).outcome == Fatal(s)
  {
    var t := Run(h).trace;
    RunFailFast(h);
    RunReach(h, s);
    var st := StageRun(h, StageOf(s));
    StageRunStaged(h, StageOf(s));
    var i :| 0 <= i < |st.trace| && st.trace[i] == s;
    assert i == |st.trace| - 1;
    var j :| 0 <= j < |t| && t[j] == s;
    assert j == |t| - 1;
  }

  /** Every layer step of a conversion belongs to the manifest and comes
      after the mount, the manifest lookup and every earlier layer. */
  lemma LayersAfterManifest(h: Host, s: Step)
    requires s in Run(h).trace && IsLayerStep(s)
    ensures s.k < h.layers
    ensures h.ok(Mount) && h.ok(FetchManifest)
    ensures LayersApplied(h.ok, 0, s.k)
  {
    var o := h.ok;
    RunReachSucceeds(h, s);
    assert StageSucceeds(h, Allocate);
    ExtractLayers(o, h.layers);
    assert s in ApplyLayers(o, 0, h.layers).trace;
    LayersAttemptedAfterEarlier(o, 0, h.layers);
  }

  /** When a layer cannot be opened or extracted, the process exits and no
      later layer of the manifest is touched. */
  lemma NoLayerAfterFailure(h: Host, s: Step)
    requires Run(h).outcome.Fatal? && IsLayerStep(Run(h).outcome.at)
    requires s in Run(h).trace && IsLayerStep(s)
    ensures s.k <= Run(h).outcome.at.k
  {
    var o := h.ok;
    var at := Run(h).outcome.at;
    RunFailFast(h);
    assert at in Run(h).trace;
    FailureEndsRun(h, at);
    ExtractLayers(o, h.layers);
    RunReach(h, s);
    assert s in ApplyLayers(o, 0, h.layers).trace;
    LayersStopAtFailure(o, 0, h.layers);
  }

  /** A conversion completes exactly when every checked operation of every
      stage succeeds; the ignored results do not matter. */
  lemma CompletedRun(h: Host)
    ensures Run(h).outcome.Ok? <==> forall st :: StageSucceeds(h, st)
    ensures !Run(h).outcome.Err?
  {
    RunFailFast(h);
    SequenceOutcome(h, Order);
    forall st
      ensures StageRun(h, st).outcome.Ok? <==> StageSucceeds(h, st)
      ensures st in Order
    {
      StageRunOk(h, st);
      OrderIsComplete(st);
    }
  }

  /** A conversion ends normally exactly when every stage does. */
  lemma RunOkWhenStagesOk(h: Host)
    ensures Run(h).outcome.Ok? <==> forall st :: StageRun(h, st).outcome.Ok?
  {
    SequenceOutcome(h, Order);
    forall st
      ensures st in Order
    {
      OrderIsComplete(st);
    }
  }

  /** A run that reached the deferred stop completed. */
  lemma StoppedRunCompleted(h: Host)
    requires StopMachine in Run(h).trace
    ensures Run(h).outcome.Ok?
  {
    RunReachSucceeds(h, StopMachine);
    StoppedBootSucceeds(h);
    CompletedRun(h);
  }

  /** A boot that got as far as the stop, after every earlier stage
      succeeded, leaves no stage with a failed checked operation. */
  lemma StoppedBootSucceeds(h: Host)
    requires StopMachine in StageRun(h, Launch).trace
    requires EarlierSucceeded(h, Launch)
    ensures forall st :: StageSucceeds(h, st)
  {
    StopDeferredUntilWait(h.ok);
    StageRunOk(h, Launch);
    forall st
      ensures StageSucceeds(h, st)
    {
      if st != Launch {
        assert Rank(st) < Rank(Launch);
      }
    }
  }

  /** A completed run performed the deferred stop. */
  lemma CompletedRunStopped(h: Host)
    requires Run(h).outcome.Ok?
    ensures StopMachine in Run(h).trace
  {
    RunOkWhenStagesOk(h);
    StopDeferredUntilWait(h.ok);
    assert StageRun(h, Launch).outcome.Ok?;
    RunIncludes(h, Launch);
  }

  /** The hypervisor is stopped exactly when the conversion completes: the
      exit after a failed wait skips the deferred stop. */
  lemma StopOnlyAfterCleanWait(h: Host)
    ensures StopMachine in Run(h).trace <==> Run(h).outcome.Ok?
  {
    if StopMachine in Run(h).trace {
      StoppedRunCompleted(h);
    }
    if Run(h).outcome.Ok? {
      CompletedRunStopped(h);
    }
  }

  /** The image is mounted and was not unmounted when the run ends. */
  predicate MountedAtExit(o: Oracle, t: seq<Step>)
  {
    Mount in t && o(Mount) && !(Umount in t && o(Umount))
  }

  /** A completed conversion leaves the image unmounted. */
  lemma CompletedRunUnmounts(h: Host)
    requires Run(h).outcome.Ok?
    ensures !MountedAtExit(h.ok, Run(h).trace)
  {
    CompletedRun(h);
    assert StageSucceeds(h, Unmount);
    RunIncludesSucceeds(h, Unmount);
  }

  /** A conversion that fails before the mount succeeded never leaves the
      image mounted. */
  lemma EarlyFailureNeverMounts(h: Host)
    requires Run(h).outcome.Fatal? && Rank(StageOf(Run(h).outcome.at)) <= Rank(Allocate)
    ensures !MountedAtExit(h.ok, Run(h).trace)
  {
    var t := Run(h).trace;
    var at := Run(h).outcome.at;
    StagesInOrder(h);
    if Mount in t && h.ok(Mount) {
      assert Rank(StageOf(Mount)) <= Rank(StageOf(at));
      assert at in t;
      FailureEndsRun(h, at);
      RunReach(h, Mount);
    }
  }

  /** Every step after the allocation stage comes after a successful mount. */
  lemma MountedBefore(h: Host, s: Step)
    requires s in Run(h).trace && Rank(Allocate) < Rank(StageOf(s))
    ensures Mount in Run(h).trace && h.ok(Mount)
  {
    RunReach(h, s);
    assert StageRun(h, Allocate).outcome.Ok?;
    RunIncludes(h, Allocate);
  }

  /** A failure while extracting layers, writing the init script or writing
      the host files exits the process with the image still mounted: the
      error path does not unmount. */
  lemma FailureAfterMountLeavesMounted(h: Host)
    requires Run(h).outcome.Fatal?
    requires StageOf(Run(h).outcome.at) in {Materialize, Synthesize, Inject}
    ensures MountedAtExit(h.ok, Run(h).trace)
  {
    var at := Run(h).outcome.at;
    StagesInOrder(h);
    MountedBefore(h, at);
    assert Rank(StageOf(at)) < Rank(StageOf(Umount));
  }

  /** Two oracles that agree on every operation whose result is checked. */
  ghost predicate AgreeOnChecked(o1: Oracle, o2: Oracle)
  {
    forall s :: !Ignored(s) ==> o1(s) == o2(s)
  }

  lemma {:induction false} ApplyLayersAgree(o1: Oracle, o2: Oracle, k: nat, n: nat)
    requires k <= n && AgreeOnChecked(o1, o2)
    ensures ApplyLayers(o1, k, n) == ApplyLayers(o2, k, n)
    decreases n - k
  {
    if k < n {
      ApplyLayersAgree(o1, o2, k + 1, n);
    }
  }

  lemma StageRunAgree(h1: Host, h2: Host, stage: Stage)
    requires h1.layers == h2.layers
    requires AgreeOnChecked(h1.ok, h2.ok)
    ensures StageRun(h1, stage) == StageRun(h2, stage)
  {
    var o1, o2 := h1.ok, h2.ok;
    match stage
    case Prepare => assert o1(MakeMountDir) == o2(MakeMountDir);
    case Allocate =>
      assert o1(CreateTempImage) == o2(CreateTempImage) && o1(Fallocate) == o2(Fallocate);
      assert o1(Mkfs) == o2(Mkfs) && o1(Mount) == o2(Mount);
    case Materialize =>
      assert o1(FetchManifest) == o2(FetchManifest);
      ApplyLayersAgree(o1, o2, 0, h1.layers);
    case Synthesize =>
      assert o1(FetchConfig) == o2(FetchConfig) && o1(ReadConfig) == o2(ReadConfig);
      assert o1(CreateTempInit) == o2(CreateTempInit);
    case Inject => assert o1(WriteHosts) == o2(WriteHosts) && o1(WriteResolvConf) == o2(WriteResolvConf);
    case Unmount => assert o1(Umount) == o2(Umount);
    case Finalize => assert o1(E2fsck) == o2(E2fsck) && o1(Resize2fs) == o2(Resize2fs);
    case Launch =>
      assert o1(NewMachine) == o2(NewMachine) && o1(StartMachine) == o2(StartMachine);
      assert o1(WaitMachine) == o2(WaitMachine);
  }

  lemma {:induction false} SequenceAgree(h1: Host, h2: Host, stages: seq<Stage>)
    requires forall st :: StageRun(h1, st) == StageRun(h2, st)
    ensures Sequence(h1, stages) == Sequence(h2, stages)
    decreases |stages|
  {
    if |stages| > 0 {
      SequenceAgree(h1, h2, stages[1..]);
    }
  }

  /** The results the source discards never steer a conversion: two hosts
      that agree on every checked operation and on the manifest perform the
      same steps and end the same way, whatever the atomic renames, the
      chmod and the hypervisor stop report. */
  lemma IgnoredResultsDoNotSteer(h1: Host, h2: Host)
    requires h1.layers == h2.layers
    requires AgreeOnChecked(h1.ok, h2.ok)
    ensures Run(h1) == Run(h2)
  {
    forall st
      ensures StageRun(h1, st) == StageRun(h2, st)
    {
      StageRunAgree(h1, h2, st);
    }
    SequenceAgree(h1, h2, Order);
  }

  /** The files a conversion writes into the guest filesystem itself,
      besides the layer contents, by path in the guest: the init script once
      its atomic rename took effect, and each host file once its write
      succeeded. */
  function WrittenFiles(h: Host): (files: map<string, string>)
    ensures files.Keys <= {InitPath, HostsPath, ResolvConfPath}
  {
    var t := Run(h).trace;
    var o := h.ok;
    var seen := Decoded(h.configDecodes, h.config);
    var init := if PublishInit in t && o(PublishInit) then map[InitPath := InitScript(seen.env, seen.cmd)] else map[];
    var hosts := if WriteHosts in t && o(WriteHosts) then init[HostsPath := HostsContent] else init;
    if WriteResolvConf in t && o(WriteResolvConf) then hosts[ResolvConfPath := ResolvConfContent] else hosts
  }

  /** Which files are present, and with what contents. */
  lemma WrittenFilesFacts(h: Host)
    ensures InitPath in WrittenFiles(h) <==> PublishInit in Run(h).trace && h.ok(PublishInit)
    ensures HostsPath in WrittenFiles(h) <==> WriteHosts in Run(h).trace && h.ok(WriteHosts)
    ensures ResolvConfPath in WrittenFiles(h) <==> WriteResolvConf in Run(h).trace && h.ok(WriteResolvConf)
    ensures InitPath in WrittenFiles(h) ==>
      WrittenFiles(h)[InitPath] == InitScript(Decoded(h.configDecodes, h.config).env, Decoded(h.configDecodes, h.config).cmd)
    ensures HostsPath in WrittenFiles(h) ==> WrittenFiles(h)[HostsPath] == HostsContent
    ensures ResolvConfPath in WrittenFiles(h) ==> WrittenFiles(h)[ResolvConfPath] == ResolvConfContent
  {
  }

  /** A completed conversion leaves both host files with their fixed
      contents, and the init script built from the image configuration
      whenever the rename onto init.sh took effect; an undecodable config
      still yields a script, with no exports and an empty command line. */
  lemma FilesOfCompletedRun(h: Host)
    requires Run(h).outcome.Ok?
    ensures HostsPath in WrittenFiles(h) && WrittenFiles(h)[HostsPath] == "127.0.0.1\tlocalhost\n"
    ensures ResolvConfPath in WrittenFiles(h) && WrittenFiles(h)[ResolvConfPath] == "nameserver 192.168.0.1\n"
    ensures InitPath in WrittenFiles(h) <==> h.ok(PublishInit)
    ensures InitPath in WrittenFiles(h) && h.configDecodes ==>
      WrittenFiles(h)[InitPath] == InitScript(h.config.env, h.config.cmd)
    ensures InitPath in WrittenFiles(h) && !h.configDecodes ==>
      WrittenFiles(h)[InitPath] == "#!/bin/sh\n\n"
  {
    CompletedRun(h);
    assert StageSucceeds(h, Synthesize) && StageSucceeds(h, Inject);
    assert EarlierSucceeded(h, Synthesize) && EarlierSucceeded(h, Inject);
    RunIncludesSucceeds(h, Synthesize);
    RunIncludesSucceeds(h, Inject);
    InitPublishedOnlyOnSuccess(h.ok);
    StageRunOk(h, Synthesize);
    StageRunOk(h, Inject);
    WrittenFilesFacts(h);
    UndecodableConfigScript(h.config);
  }

  /** /etc/resolv.conf is written only after /etc/hosts was written. */
  lemma HostsBeforeResolvConf(h: Host)
    ensures WriteResolvConf in Run(h).trace ==> WriteHosts in Run(h).trace && h.ok(WriteHosts)
    ensures ResolvConfPath in WrittenFiles(h) ==> HostsPath in WrittenFiles(h)
  {
    WrittenFilesFacts(h);
    if WriteResolvConf in Run(h).trace {
      RunReachSucceeds(h, WriteResolvConf);
      RunIncludesSucceeds(h, Inject);
    }
  }

  /** Files are written only into a mounted image that already holds every
      layer, so they replace whatever the layers put at those paths. */
  lemma FilesWrittenOverLayers(h: Host, path: string)
    requires path in WrittenFiles(h)
    ensures h.ok(Mount) && h.ok(FetchManifest) && LayersApplied(h.ok, 0, h.layers)
  {
    WrittenFilesFacts(h);
    var s: Step := if path == InitPath then PublishInit else if path == HostsPath then WriteHosts else WriteResolvConf;
    assert s in Run(h).trace;
    MaterializedBefore(h, s);
  }

  /** Every step after extraction comes after a successful mount and the
      extraction of every layer. */
  lemma MaterializedBefore(h: Host, s: Step)
    requires s in Run(h).trace && Rank(Materialize) < Rank(StageOf(s))
    ensures h.ok(Mount) && h.ok(FetchManifest) && LayersApplied(h.ok, 0, h.layers)
  {
    RunReachSucceeds(h, s);
    assert StageSucceeds(h, Allocate) && StageSucceeds(h, Materialize);
  }

  /** The init script is renamed into place only after the config was read
      and the temporary file created. */
  lemma PublishedAfterConfig(h: Host)
    requires PublishInit in Run(h).trace
    ensures h.ok(FetchConfig) && h.ok(ReadConfig) && h.ok(CreateTempInit)
  {
    RunReach(h, PublishInit);
    InitPublishedOnlyOnSuccess(h.ok);
  }

  /** The init script lands only when the config was read, and it always
      starts with the shebang line. */
  lemma InitScriptFromConfig(h: Host)
    requires InitPath in WrittenFiles(h)
    ensures h.ok(FetchConfig) && h.ok(ReadConfig) && h.ok(CreateTempInit)
    ensures var lines := Lines(WrittenFiles(h)[InitPath]); |lines| > 0 && lines[0] == Shebang
  {
    var seen := Decoded(h.configDecodes, h.config);
    WrittenFilesFacts(h);
    PublishedAfterConfig(h);
    FirstLineIsShebang(seen.env, seen.cmd);
  }
}
