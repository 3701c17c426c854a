/**
 The conversion pipeline of the `c2vm` command: create the mount directory,
 create and mount the disk image, extract the image layers, write the init
 script and the host files, unmount, check and shrink the filesystem, and
 boot the guest.

 Every external operation (a command, a content-store read, a file write, a
 hypervisor call) is a `Step`, and whether it succeeds is decided by an
 oracle supplied by the caller. Each source function is a function from the
 oracle to an `Exec`: the steps it attempted, in order, and how it ended.
 */
module Pipeline {
  import opened InitScripts

  /** The external operations of one conversion. Layer steps carry the
      layer's position `k` in the manifest. */
  datatype Step =
    | MakeMountDir        // temporary directory for the mount point
    | CreateTempImage     // renameio temporary file for the output path
    | Fallocate           // fallocate -l 2G
    | Mkfs                // mkfs.ext4 -F
    | PublishImage        // atomic rename onto the output path (result ignored)
    | Mount               // mount -o loop
    | FetchManifest       // manifest lookup in the content store
    | OpenLayer(k: nat)   // reader for layer k
    | Untar(k: nat)       // extraction of layer k onto the mount point
    | FetchConfig         // config descriptor lookup
    | ReadConfig          // config blob read
    | CreateTempInit      // renameio temporary file for /init.sh
    | PublishInit         // atomic rename onto init.sh (result ignored)
    | ChmodInit           // chmod 0755 of init.sh (result ignored)
    | WriteHosts          // write of etc/hosts
    | WriteResolvConf     // write of etc/resolv.conf
    | Umount              // umount
    | E2fsck              // e2fsck -p -f
    | Resize2fs           // resize2fs -M
    | NewMachine          // hypervisor machine creation
    | StartMachine        // hypervisor start
    | WaitMachine         // wait for the guest
    | StopMachine         // deferred stop of the hypervisor (result ignored)

  /** The stages of the conversion, in the order they run. */
  datatype Stage = Prepare | Allocate | Materialize | Synthesize | Inject | Unmount | Finalize | Launch

  function Rank(stage: Stage): nat
  {
    match stage
    case Prepare => 0
    case Allocate => 1
    case Materialize => 2
    case Synthesize => 3
    case Inject => 4
    case Unmount => 5
    case Finalize => 6
    case Launch => 7
  }

  /** The stage each operation belongs to. */
  function StageOf(s: Step): Stage
  {
    match s
    case MakeMountDir => Prepare
    case CreateTempImage | Fallocate | Mkfs | PublishImage | Mount => Allocate
    case FetchManifest | OpenLayer(_) | Untar(_) => Materialize
    case FetchConfig | ReadConfig | CreateTempInit | PublishInit | ChmodInit => Synthesize
    case WriteHosts | WriteResolvConf => Inject
    case Umount => Unmount
    case E2fsck | Resize2fs => Finalize
    case NewMachine | StartMachine | WaitMachine | StopMachine => Launch
  }

  /** Operations whose error the source discards. */
  predicate Ignored(s: Step)
  {
    s.PublishImage? || s.PublishInit? || s.ChmodInit? || s.StopMachine?
  }

  /** Whether each external operation succeeds. */
  type Oracle = Step -> bool

  /** The step succeeded, or its failure is not looked at. */
  predicate Passed(o: Oracle, s: Step)
  {
    Ignored(s) || o(s)
  }

  /** How a function ends: normally, by returning an error, or by
      terminating the process (`log.Fatalf`, `os.Exit(1)`). */
  datatype Outcome = Ok | Err(at: Step) | Fatal(at: Step)

  /** The operations attempted, in order, and how the run ended. */
  datatype Exec = Exec(trace: seq<Step>, outcome: Outcome)

  /** Fail-fast discipline: every attempted step but a failing last one
      passed, and a run that did not end normally ends at the step that
      failed. */
  predicate FailFast(o: Oracle, e: Exec)
  {
    && (forall i :: 0 <= i < |e.trace| - 1 ==> Passed(o, e.trace[i]))
    && (e.outcome.Ok? ==> forall i :: 0 <= i < |e.trace| ==> Passed(o, e.trace[i]))
    && (!e.outcome.Ok? ==>
          |e.trace| > 0 && e.trace[|e.trace| - 1] == e.outcome.at && !Passed(o, e.outcome.at))
  }

  /** All steps of `e` belong to `stage`. */
  predicate Within(e: Exec, stage: Stage)
  {
    forall s :: s in e.trace ==> StageOf(s) == stage
  }

  const Done: Exec := Exec([], Ok)

  /** The steps `done` ran and passed, and control went on to `rest`. */
  function Prefixed(done: seq<Step>, rest: Exec): Exec
  {
    Exec(done + rest.trace, rest.outcome)
  }

  /** Passed steps in front of a fail-fast run keep it fail-fast. */
  lemma PrefixedFailFast(o: Oracle, done: seq<Step>, rest: Exec)
    requires forall i :: 0 <= i < |done| ==> Passed(o, done[i])
    requires FailFast(o, rest)
    ensures FailFast(o, Prefixed(done, rest))
  {
  }

  /** Runs `b` only if `a` ended normally. */
  function Then(a: Exec, b: Exec): Exec
  {
    if a.outcome.Ok? then Exec(a.trace + b.trace, b.outcome) else a
  }

  /** The caller terminates the process on a returned error. */
  function OrExit(a: Exec): (e: Exec)
    ensures e.trace == a.trace
    ensures a.outcome.Err? ==> e.outcome == Fatal(a.outcome.at)
    ensures !a.outcome.Err? ==> e.outcome == a.outcome
  {
    match a.outcome
    case Err(s) => Exec(a.trace, Fatal(s))
    case _ => a
  }

  /** The temporary directory the image is mounted on. */
  function CreateMountDir(o: Oracle): (e: Exec)
    ensures FailFast(o, e) && Within(e, Prepare)
    ensures e.outcome.Ok? <==> o(MakeMountDir)
  {
    if !o(MakeMountDir) then Exec([MakeMountDir], Err(MakeMountDir))
    else Exec([MakeMountDir], Ok)
  }

  /** Allocates a 2G renameio temporary file for the output path, formats
      it, publishes it over the output path and loop-mounts it; the publish
      result is not checked. */
  function CreateLoopDevice(o: Oracle): (e: Exec)
    ensures FailFast(o, e) && Within(e, Allocate) && !e.outcome.Fatal?
    ensures e.outcome.Ok? <==> o(CreateTempImage) && o(Fallocate) && o(Mkfs) && o(Mount)
    ensures Mkfs in e.trace ==> o(CreateTempImage) && o(Fallocate)
    ensures PublishImage in e.trace <==> o(CreateTempImage) && o(Fallocate) && o(Mkfs)
    ensures Mount in e.trace <==> o(CreateTempImage) && o(Fallocate) && o(Mkfs)
  {
    if !o(CreateTempImage) then Exec([CreateTempImage], Err(CreateTempImage))
    else if !o(Fallocate) then Exec([CreateTempImage, Fallocate], Err(Fallocate))
    else if !o(Mkfs) then Exec([CreateTempImage, Fallocate, Mkfs], Err(Mkfs))
    else if !o(Mount) then Exec([CreateTempImage, Fallocate, Mkfs, PublishImage, Mount], Err(Mount))
    else Exec([CreateTempImage, Fallocate, Mkfs, PublishImage, Mount], Ok)
  }

  /** Layer `i` was opened and extracted. */
  predicate LayerApplied(o: Oracle, i: nat)
  {
    o(OpenLayer(i)) && o(Untar(i))
  }

  /** Layers `k` to `n - 1` were all opened and extracted. */
  predicate LayersApplied(o: Oracle, k: nat, n: nat)
  {
    forall i :: k <= i < n ==> LayerApplied(o, i)
  }

  /** Extracts layers `k` to `n - 1` in manifest order, stopping at the
      first layer that cannot be opened or extracted. */
  function ApplyLayers(o: Oracle, k: nat, n: nat): (e: Exec)
    requires k <= n
    ensures FailFast(o, e) && !e.outcome.Fatal?
    ensures forall s :: s in e.trace ==> IsLayerStep(s) && k <= s.k < n
    ensures e.outcome.Err? ==> IsLayerStep(e.outcome.at)
    ensures e.outcome.Ok? <==> LayersApplied(o, k, n)
    decreases n - k
  {
    if k == n then Done
    else if !o(OpenLayer(k)) then
      assert !LayerApplied(o, k);
      Exec([OpenLayer(k)], Err(OpenLayer(k)))
    else if !o(Untar(k)) then
      assert !LayerApplied(o, k);
      Exec([OpenLayer(k), Untar(k)], Err(Untar(k)))
    else
      var rest := ApplyLayers(o, k + 1, n);
      PrefixedFailFast(o, [OpenLayer(k), Untar(k)], rest);
      Prefixed([OpenLayer(k), Untar(k)], rest)
  }

  predicate IsLayerStep(s: Step)
  {
    s.OpenLayer? || s.Untar?
  }

  /** Layer steps appear by nondecreasing manifest position. */
  predicate InManifestOrder(t: seq<Step>)
  {
    forall i, j :: 0 <= i < j < |t| && IsLayerStep(t[i]) && IsLayerStep(t[j]) ==> t[i].k <= t[j].k
  }

  /** Putting a layer in front of steps of later layers keeps manifest order. */
  lemma PrependLayerInOrder(k: nat, rest: seq<Step>)
    requires InManifestOrder(rest)
    requires forall s :: s in rest ==> IsLayerStep(s) && k < s.k
    ensures InManifestOrder([OpenLayer(k), Untar(k)] + rest)
  {
    var t := [OpenLayer(k), Untar(k)] + rest;
    forall i, j | 0 <= i < j < |t| && IsLayerStep(t[i]) && IsLayerStep(t[j])
      ensures t[i].k <= t[j].k
    {
      if 2 <= i {
        assert t[i] == rest[i - 2] && t[j] == rest[j - 2];
      } else if 2 <= j {
        assert t[j] == rest[j - 2] && rest[j - 2] in rest;
      }
    }
  }

  /** Layers are attempted in manifest order. */
  lemma {:induction false} LayersInOrder(o: Oracle, k: nat, n: nat)
    requires k <= n
    ensures InManifestOrder(ApplyLayers(o, k, n).trace)
    decreases n - k
  {
    if k < n && LayerApplied(o, k) {
      LayersInOrder(o, k + 1, n);
      PrependLayerInOrder(k, ApplyLayers(o, k + 1, n).trace);
    } else if k < n {
      var t := ApplyLayers(o, k, n).trace;
      assert forall i :: 0 <= i < |t| ==> t[i].k == k;
    }
  }

  /** No layer after a failing one is attempted. */
  lemma {:induction false} LayersStopAtFailure(o: Oracle, k: nat, n: nat)
    requires k <= n
    ensures var e := ApplyLayers(o, k, n);
      e.outcome.Err? ==> forall s :: s in e.trace ==> s.k <= e.outcome.at.k
    decreases n - k
  {
    if k < n && LayerApplied(o, k) {
      LayersStopAtFailure(o, k + 1, n);
    }
  }

  /** A layer is attempted only once every earlier layer was applied. */
  lemma {:induction false} LayersAttemptedAfterEarlier(o: Oracle, k: nat, n: nat)
    requires k <= n
    ensures forall s :: s in ApplyLayers(o, k, n).trace ==> LayersApplied(o, k, s.k)
    decreases n - k
  {
    if k < n && LayerApplied(o, k) {
      LayersAttemptedAfterEarlier(o, k + 1, n);
    }
  }

  /** Looks up the manifest, which terminates the process on failure, then
      extracts every layer. */
  function Extract(o: Oracle, layers: nat): (e: Exec)
    ensures FailFast(o, e) && Within(e, Materialize)
    ensures e.outcome.Fatal? <==> !o(FetchManifest)
    ensures e.outcome.Ok? <==> o(FetchManifest) && LayersApplied(o, 0, layers)
    ensures |e.trace| > 0 && e.trace[0] == FetchManifest
    ensures e.outcome.Err? ==> IsLayerStep(e.outcome.at)
  {
    if !o(FetchManifest) then Exec([FetchManifest], Fatal(FetchManifest))
    else
      var layersRun := ApplyLayers(o, 0, layers);
      PrefixedFailFast(o, [FetchManifest], layersRun);
      Prefixed([FetchManifest], layersRun)
  }

  /** The layer steps of an extraction are those of the layer loop, which
      runs only after the manifest was found. */
  lemma ExtractLayers(o: Oracle, layers: nat)
    ensures !o(FetchManifest) ==> Extract(o, layers).trace == [FetchManifest]
    ensures o(FetchManifest) ==>
      && Extract(o, layers).trace == [FetchManifest] + ApplyLayers(o, 0, layers).trace
      && Extract(o, layers).outcome == ApplyLayers(o, 0, layers).outcome
  {
  }

  /** Reads the image config and publishes the init script; the publish and
      chmod results are not checked. */
  function WriteInitScript(o: Oracle): (e: Exec)
    ensures FailFast(o, e) && Within(e, Synthesize) && !e.outcome.Fatal?
    ensures e.outcome.Ok? <==> o(FetchConfig) && o(ReadConfig) && o(CreateTempInit)
  {
    if !o(FetchConfig) then Exec([FetchConfig], Err(FetchConfig))
    else if !o(ReadConfig) then Exec([FetchConfig, ReadConfig], Err(ReadConfig))
    else if !o(CreateTempInit) then Exec([FetchConfig, ReadConfig, CreateTempInit], Err(CreateTempInit))
    else Exec([FetchConfig, ReadConfig, CreateTempInit, PublishInit, ChmodInit], Ok)
  }

  /** The init script is published over init.sh and made executable only
      when the config was read and the temporary file created, and then
      whatever the rename and chmod report. */
  lemma InitPublishedOnlyOnSuccess(o: Oracle)
    ensures PublishInit in WriteInitScript(o).trace <==> WriteInitScript(o).outcome.Ok?
    ensures ChmodInit in WriteInitScript(o).trace <==> WriteInitScript(o).outcome.Ok?
    ensures WriteInitScript(o).outcome.Ok? ==>
      WriteInitScript(o).trace == [FetchConfig, ReadConfig, CreateTempInit, PublishInit, ChmodInit]
  {
  }

  const HostsPath: string := "/etc/hosts"
  const HostsContent: string := "127.0.0.1\tlocalhost\n"
  const ResolvConfPath: string := "/etc/resolv.conf"
  const ResolvConfContent: string := "nameserver 192.168.0.1\n"

  /** Writes etc/hosts, then etc/resolv.conf, stopping at the first failure. */
  function ExtraFiles(o: Oracle): (e: Exec)
    ensures FailFast(o, e) && Within(e, Inject) && !e.outcome.Fatal?
    ensures e.outcome.Ok? <==> o(WriteHosts) && o(WriteResolvConf)
    ensures |e.trace| > 0 && e.trace[0] == WriteHosts
    ensures WriteResolvConf in e.trace <==> o(WriteHosts)
  {
    if !o(WriteHosts) then Exec([WriteHosts], Err(WriteHosts))
    else if !o(WriteResolvConf) then Exec([WriteHosts, WriteResolvConf], Err(WriteResolvConf))
    else Exec([WriteHosts, WriteResolvConf], Ok)
  }

  function DetachLoopDevice(o: Oracle): (e: Exec)
    ensures FailFast(o, e) && Within(e, Unmount) && !e.outcome.Fatal?
    ensures e.outcome.Ok? <==> o(Umount)
    ensures Umount in e.trace
  {
    if !o(Umount) then Exec([Umount], Err(Umount))
    else Exec([Umount], Ok)
  }

  /** Checks the filesystem, then shrinks it; the shrink is not attempted
      when the check fails. */
  function ResizeImage(o: Oracle): (e: Exec)
    ensures FailFast(o, e) && Within(e, Finalize) && !e.outcome.Fatal?
    ensures e.outcome.Ok? <==> o(E2fsck) && o(Resize2fs)
    ensures Resize2fs in e.trace <==> o(E2fsck)
  {
    if !o(E2fsck) then Exec([E2fsck], Err(E2fsck))
    else if !o(Resize2fs) then Exec([E2fsck, Resize2fs], Err(Resize2fs))
    else Exec([E2fsck, Resize2fs], Ok)
  }

  /** Creates, starts and waits for the guest, terminating the process on
      any failure. The stop is deferred after a successful start, so it runs
      only when the wait returns normally: the exit on a failed wait skips it. */
  function BootVM(o: Oracle): (e: Exec)
    ensures FailFast(o, e) && Within(e, Launch) && !e.outcome.Err?
    ensures e.outcome.Ok? <==> o(NewMachine) && o(StartMachine) && o(WaitMachine)
  {
    if !o(NewMachine) then Exec([NewMachine], Fatal(NewMachine))
    else if !o(StartMachine) then Exec([NewMachine, StartMachine], Fatal(StartMachine))
    else if !o(WaitMachine) then Exec([NewMachine, StartMachine, WaitMachine], Fatal(WaitMachine))
    else Exec([NewMachine, StartMachine, WaitMachine, StopMachine], Ok)
  }

  /** The guest is waited for only after it was created and started, and
      the deferred stop runs exactly when the wait returned normally. */
  lemma StopDeferredUntilWait(o: Oracle)
    ensures WaitMachine in BootVM(o).trace ==> o(NewMachine) && o(StartMachine)
    ensures StopMachine in BootVM(o).trace <==> BootVM(o).outcome.Ok?
  {
  }

  /** Everything one conversion depends on besides the code: the outcome of
      each external operation, the number of layers in the manifest, and the
      image config with whether its blob decodes. */
  datatype Host = Host(ok: Oracle, layers: nat, configDecodes: bool, config: ImageConfig)

  /** The stages of `main`, in the order it runs them. */
  const Order: seq<Stage> := [Prepare, Allocate, Materialize, Synthesize, Inject, Unmount, Finalize, Launch]

  /** What `main` does for one stage; each returned error terminates the process. */
  function StageRun(h: Host, stage: Stage): Exec
  {
    var o := h.ok;
    match stage
    case Prepare => OrExit(CreateMountDir(o))
    case Allocate => OrExit(CreateLoopDevice(o))
    case Materialize => OrExit(Extract(o, h.layers))
    case Synthesize => OrExit(WriteInitScript(o))
    case Inject => OrExit(ExtraFiles(o))
    case Unmount => OrExit(DetachLoopDevice(o))
    case Finalize => OrExit(ResizeImage(o))
    case Launch => BootVM(o)
  }

  /** What has to go right for a stage to end normally, stated directly on
      the oracle: the checked operations of the stage all succeed. */
  predicate StageSucceeds(h: Host, stage: Stage)
  {
    var o := h.ok;
    match stage
    case Prepare => o(MakeMountDir)
    case Allocate => o(CreateTempImage) && o(Fallocate) && o(Mkfs) && o(Mount)
    case Materialize => o(FetchManifest) && LayersApplied(o, 0, h.layers)
    case Synthesize => o(FetchConfig) && o(ReadConfig) && o(CreateTempInit)
    case Inject => o(WriteHosts) && o(WriteResolvConf)
    case Unmount => o(Umount)
    case Finalize => o(E2fsck) && o(Resize2fs)
    case Launch => o(NewMachine) && o(StartMachine) && o(WaitMachine)
  }

  /** A stage ends normally exactly when its checked operations succeed;
      the results the source ignores play no part. */
  lemma StageRunOk(h: Host, stage: Stage)
    ensures StageRun(h, stage).outcome.Ok? <==> StageSucceeds(h, stage)
  {
  }

  /** The stage is fail-fast, never returns an error to its caller, and only
      performs operations of its own stage. */
  predicate Staged(o: Oracle, e: Exec, stage: Stage)
  {
    && FailFast(o, e)
    && !e.outcome.Err?
    && Within(e, stage)
  }

  /** Each stage of `main` is fail-fast, ends the process instead of
      returning an error, and performs only operations of its own stage. */
  lemma StageRunStaged(h: Host, stage: Stage)
    ensures Staged(h.ok, StageRun(h, stage), stage)
  {
  }

  /** Runs the stages in order until one does not end normally. */
  function Sequence(h: Host, stages: seq<Stage>): Exec
  {
    if |stages| == 0 then Done else Then(StageRun(h, stages[0]), Sequence(h, stages[1..]))
  }

  /** One conversion, as `main` performs it. */
  function Run(h: Host): Exec
  {
    Sequence(h, Order)
  }
}
