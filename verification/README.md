# c2vm conversion core, modelled in Dafny

`c2vm` turns a container image into a bootable Firecracker micro-VM disk
image. After pulling the image, `main` runs a strictly ordered, fail-fast
sequence of stages:

1. create a temporary mount directory;
2. allocate a 2G raw file as a renameio temporary file for the output
   path, format it as ext4, publish it over the output path and
   loop-mount it;
3. look up the image manifest and extract every layer onto the mount;
4. read the image config and write `/init.sh`: a shebang, one
   `export <entry>` line per environment entry, and the image command
   joined by single spaces;
5. write `/etc/hosts` and `/etc/resolv.conf`;
6. unmount;
7. run `e2fsck`, then shrink the filesystem with `resize2fs -M`;
8. boot the image under Firecracker and wait for the guest.

Every error before the boot ends the process with `log.Fatalf`. A boot
failure ends it with `os.Exit(1)`.

The model has six modules:

- `Strings` (`strings.dfy`) gives Go's `strings.Join` and `strings.Split`
  for a one-character separator. It also gives the newline-terminated
  layout that a run of `Fprintf("...\n")` calls produces (`Unlines`,
  `Lines`), with the round trips between them.
- `InitScripts` (`init_scripts.dfy`) is the init-script synthesiser. It
  holds the script text, its line layout, the documented example and the
  unescaped corner cases. `ParseScript` reads a script back, and both
  directions of the round trip are proved.
- `Pipeline` (`pipeline.dfy`) holds one function per source function.
  Each external operation is a `Step`: a command, a content-store read, a
  file write or a hypervisor call. An oracle `Step -> bool` supplied by
  the caller decides whether a step succeeds. Each stage returns an
  `Exec`, which records the steps attempted, in order, and how the stage
  ended (`Ok`, `Err` returned to the caller, or `Fatal` process exit).
  Results the source never looks at are `Ignored`: the two
  `CloseAtomicallyReplace` renames, the `Chmod` and the deferred
  `StopVMM`. `Run` is `main` from the mount directory onward.
- `Conversion` (`conversion.dfy`) proves properties of whole runs:
  - stage order;
  - what has to succeed before each step;
  - when a run completes;
  - which results cannot steer a run;
  - the mount left behind on failure;
  - the files written into the guest.
- `Plans` (`plan.dfy`) writes out every step of a conversion, stage by
  stage, with no oracle involved. It proves that a run performs a prefix
  of that plan and performs all of it exactly when it completes.
- `Boot` (`boot.dfy`) holds the kernel command line.

The model follows the source as written, including behaviour a reader
might not expect:

- The error paths after the mount exit with `log.Fatalf` and never
  unmount (main.go:98-108). `Conversion.FailureAfterMountLeavesMounted`
  states this.
- The formatted, still empty image is published over the output path at
  main.go:158, before it is mounted and filled. The layers are then
  extracted into the published file in place. This is the `PublishImage`
  step placed before `Mount` in `Pipeline.CreateLoopDevice`.
- Several results are never checked: the `json.Unmarshal` error
  (main.go:210), both `CloseAtomicallyReplace` calls (main.go:158 and
  229), the `Chmod` (main.go:232), and the `Fprintf` and `Flush` calls
  that write the script (main.go:222-227). The first four are modelled as
  ignored results; the writes are listed under "Left out".

## Model

| member | source | states |
|---|---|---|
| Strings.Join | cmd/c2vm/main.go:211 | joining no arguments gives the empty string; otherwise the result starts with the first argument and is as long as all arguments plus one separator between neighbours |
| Strings.JoinAppend | cmd/c2vm/main.go:211 | joining two non-empty argument lists one after the other gives the first list joined, one separator, then the second list joined: the arguments appear in order with one separator between neighbours |
| Strings.JoinMergesNeighbours | cmd/c2vm/main.go:211 | joining marks no argument boundaries: two neighbouring arguments give the same text as the one argument made of both with a separator between them |
| Strings.SplitJoin | cmd/c2vm/main.go:211 | for at least one argument, when no argument holds a space, splitting the joined command line at spaces gives back exactly the arguments |
| Strings.JoinSplit | cmd/c2vm/main.go:211 | splitting a text at a separator and joining the pieces again gives back the text |
| Strings.SplitUnlines | cmd/c2vm/main.go:222-226 | text written as newline-terminated lines without embedded newlines reads back as exactly those lines |
| InitScripts.FirstLineIsShebang | cmd/c2vm/main.go:222 | for every environment and command the script's first line is `#!/bin/sh` |
| InitScripts.ScriptLayout | cmd/c2vm/main.go:211-226 | with newline-free entries and arguments the script has \|env\|+2 lines: the shebang, `export <entry>` for each entry in order and unquoted, and the command joined by single spaces, each line newline-terminated |
| InitScripts.EchoExample | cmd/c2vm/main.go:211-226 | env ["FOO=bar"] with cmd ["/bin/echo","hi"] gives "#!/bin/sh\nexport FOO=bar\n/bin/echo hi\n" |
| InitScripts.CommandIsNotEscaped | cmd/c2vm/main.go:211 | for every environment and command, an argument `x y` holding a space gives the same script as the two arguments `x` and `y` in its place |
| InitScripts.NewlineInEntryAddsLine | cmd/c2vm/main.go:223-225 | an environment entry `a\nb` (with `a`, `b` and every argument newline-free) is written unquoted: its export line is split in two, and the script reads back as the four lines shebang, `export a`, `b` and the command line |
| InitScripts.UndecodableConfigScript | cmd/c2vm/main.go:209-226 | a config blob that does not decode still yields a script: the shebang followed by an empty command line |
| InitScripts.ParseRender | cmd/c2vm/main.go:221-226 | reading back a script with newline-free entries and command line recovers the environment and the command line |
| InitScripts.RenderParse | cmd/c2vm/main.go:221-226 | every text that reads as a script is the script written for what it reads as |
| InitScripts.CommandRoundTrip | cmd/c2vm/main.go:211-226 | for a non-empty command with no spaces or newlines in its arguments, the environment and the argument list can be read back from the script |
| Pipeline.CreateMountDir | cmd/c2vm/main.go:89-92 | creating the mount directory is one step, and a failure is an error at that step |
| Pipeline.CreateLoopDevice | cmd/c2vm/main.go:141-166 | stops at the first failure; formats only after the temporary file exists and fallocate succeeded; publishes and mounts exactly when fallocate and mkfs succeeded; ends normally exactly when the checked steps all succeed, whatever the ignored publish reports |
| Pipeline.ApplyLayers | cmd/c2vm/main.go:128-138 | each layer is opened and then extracted; the loop stops at the first layer that cannot be opened or extracted and returns that error; it ends normally exactly when every layer was applied |
| Pipeline.LayersInOrder | cmd/c2vm/main.go:128-138 | layers are attempted in manifest order |
| Pipeline.LayersStopAtFailure | cmd/c2vm/main.go:128-138 | no layer after a failing one is attempted |
| Pipeline.LayersAttemptedAfterEarlier | cmd/c2vm/main.go:128-138 | a layer is attempted only once every earlier layer was applied |
| Pipeline.Extract | cmd/c2vm/main.go:121-139 | a failed manifest lookup ends the process from inside the function; otherwise the layer loop's error is returned; the stage ends normally exactly when the manifest was found and every layer applied |
| Pipeline.WriteInitScript | cmd/c2vm/main.go:199-235 | stops at the first failure among the config lookup, the blob read and the temporary file; ends normally exactly when those succeed |
| Pipeline.InitPublishedOnlyOnSuccess | cmd/c2vm/main.go:214-233 | the script is renamed into place and made executable exactly when the stage ends normally, whatever the rename and chmod report |
| Pipeline.ExtraFiles | cmd/c2vm/main.go:189-197 | writes /etc/hosts first; writes /etc/resolv.conf only if the hosts write succeeded; ends normally exactly when both writes succeed |
| Pipeline.DetachLoopDevice | cmd/c2vm/main.go:168-172 | the unmount is one step whose failure is returned |
| Pipeline.ResizeImage | cmd/c2vm/main.go:174-187 | e2fsck runs first; resize2fs runs only if the check succeeded; ends normally exactly when both succeed |
| Pipeline.BootVM | cmd/c2vm/main.go:288-304 | every failure ends the process at the failed step; the boot ends normally exactly when creation, start and wait all succeed |
| Pipeline.StopDeferredUntilWait | cmd/c2vm/main.go:293-304 | the guest is waited for only after it was created and started; the deferred stop runs exactly when the wait returned normally |
| Pipeline.StageRunOk | cmd/c2vm/main.go:89-118 | each stage of `main` ends normally exactly when its checked operations succeed |
| Pipeline.StageRunStaged | cmd/c2vm/main.go:89-118 | each stage of `main` stops at its first failure, ends the process instead of returning an error, and performs only its own operations |
| Conversion.RunFailFast | cmd/c2vm/main.go:89-118 | in a conversion every step but a failing last one succeeded or was ignored; a conversion that does not complete ends the process at the failed step |
| Conversion.StagesInOrder | cmd/c2vm/main.go:89-118 | the steps of a conversion go through the stages in order, and nothing runs after the failing step |
| Conversion.RunReachSucceeds | cmd/c2vm/main.go:89-118 | a step of a conversion is performed by its own stage, after every checked operation of every earlier stage succeeded |
| Conversion.FailureEndsRun | cmd/c2vm/main.go:89-118 | a checked operation that fails is the last step of its stage and of the conversion |
| Conversion.CompletedRun | cmd/c2vm/main.go:89-118 | a conversion completes exactly when every checked operation of every stage succeeds; no error escapes `main` |
| Conversion.AllocationOrder | cmd/c2vm/main.go:148-165 | the image is published, and then mounted, only after the mount directory, the temporary file, fallocate and mkfs all succeeded |
| Conversion.LayersAfterManifest | cmd/c2vm/main.go:122-138 | every layer step belongs to the manifest and comes after the mount, the manifest lookup and every earlier layer |
| Conversion.NoLayerAfterFailure | cmd/c2vm/main.go:128-138 | when a layer fails, the process ends and no later layer is touched |
| Conversion.UnmountOnlyAfterMaterialization | cmd/c2vm/main.go:94-112 | the unmount runs only after the mount, every layer, the config reads, the temporary init file and both host file writes succeeded |
| Conversion.CheckOnlyAfterUnmount | cmd/c2vm/main.go:110-117 | e2fsck runs only after a successful unmount |
| Conversion.ResizeOnlyAfterCheck | cmd/c2vm/main.go:174-187 | resize2fs runs only after a successful unmount and a successful e2fsck |
| Conversion.BootOnlyAfterFinalization | cmd/c2vm/main.go:110-118 | the guest is created, started or waited for only after the unmount, the check and the shrink succeeded; it is started only once created |
| Conversion.StopOnlyAfterCleanWait | cmd/c2vm/main.go:298-304 | the hypervisor is stopped exactly when the conversion completes; the exit after a failed wait skips the deferred stop |
| Conversion.CompletedRunUnmounts | cmd/c2vm/main.go:110-112 | a completed conversion leaves the image unmounted |
| Conversion.EarlyFailureNeverMounts | cmd/c2vm/main.go:89-96 | a conversion that fails while creating the mount directory or the image never leaves the image mounted |
| Conversion.MountedBefore | cmd/c2vm/main.go:93-95 | every step of a stage after the allocation runs only once the image was mounted successfully, since a failed allocation exits the process |
| Conversion.FailureAfterMountLeavesMounted | cmd/c2vm/main.go:98-108 | a failure while extracting, writing the init script or writing the host files ends the process with the image still mounted |
| Conversion.IgnoredResultsDoNotSteer | cmd/c2vm/main.go:158 | two conversions that see the same results for every checked operation take the same steps and end the same way, whatever the publish renames, the chmod and the stop report |
| Conversion.FilesOfCompletedRun | cmd/c2vm/main.go:189-235 | a completed conversion leaves /etc/hosts holding "127.0.0.1\tlocalhost\n" and /etc/resolv.conf holding "nameserver 192.168.0.1\n"; /init.sh is present exactly when its rename took effect, and it holds the script built from the decoded config |
| Conversion.HostsBeforeResolvConf | cmd/c2vm/main.go:189-197 | /etc/resolv.conf is written only after /etc/hosts was written successfully |
| Conversion.FilesWrittenOverLayers | cmd/c2vm/main.go:98-108 | files are written only into a mounted image that already holds every layer |
| Conversion.PublishedAfterConfig | cmd/c2vm/main.go:199-215 | the init script is published only after the config was located, its blob read and the temporary file created |
| Conversion.InitScriptFromConfig | cmd/c2vm/main.go:199-226 | /init.sh is present only when the config was read and the temporary file created; its first line is the shebang |
| Plans.LayerPlan | cmd/c2vm/main.go:128-138 | the plan of the layer loop holds two steps per layer |
| Plans.ApplyLayersFollowsPlan | cmd/c2vm/main.go:128-138 | the layer loop performs a prefix of its plan, and all of it when it ends normally |
| Plans.StageFollowsPlan | cmd/c2vm/main.go:89-118 | each stage performs a prefix of its plan, and all of it when it ends normally |
| Plans.RunFollowsPlan | cmd/c2vm/main.go:89-118 | a conversion performs the planned steps in order, with nothing skipped, repeated or added; it performs the whole plan exactly when it completes |
| Boot.KernelArgs | cmd/c2vm/main.go:259 | the length of the kernel command line is the total length of the eleven parameters plus one space between neighbours |
| Boot.KernelArgsSplit | cmd/c2vm/main.go:259 | splitting the command line at spaces gives back the parameters |
| Boot.BootsInitScript | cmd/c2vm/main.go:259 | the guest boots with `init=/init.sh`, the path the script is written to, and with ACPI and PCI off |

## Left out

- The flags, the containerd client, the lease, the image pull and the
  size query (lines 41-87): these happen before the core. A `Run` starts
  at the mount directory.
- `archive.Untar` internals: whiteouts, overwrite order inside the tree
  and `NoLchown`. Extracting a layer is one oracle step, `Untar(k)`, so
  the contents of the tree are not modelled.
- What the external commands do: fallocate, mkfs.ext4, mount, umount,
  e2fsck and resize2fs. The 2G size and the shrunk size are not modelled
  either. Each command is a success or failure oracle.
- `renameio` semantics: `CloseAtomicallyReplace` is one ignored step, and
  `defer f.Cleanup()` is not modelled.
- The Firecracker configuration other than the kernel command line: the
  drive, the machine size, the CNI network and the metrics FIFO. Process
  supervision beyond create, start, wait and the deferred stop is left out
  too.
- Logging and the messages of `log.Fatalf`, `fmt.Errorf` and `fmt.Printf`.
- Errors from `Fprintf` and `Flush` while writing the script. The source
  ignores them, and the model assumes the buffered writes reach the
  temporary file.
- The deferred `client.Close`, `done(ctx)` and `vmmCancel`, which a fatal
  exit skips. They touch no modelled state.
- A partial `json.Unmarshal`, which fills some fields before failing: the
  blob either decodes to the given config or leaves the zero config.
- A partly written host file after a failed `ioutil.WriteFile`: a failed
  write counts as no file.
- Boot.KernelArgs: the command line is stated as the parameters joined by
  spaces. There is no separate lemma equating it with the one-string
  literal.
- Pipeline.LayersInOrder: manifest order is proved for the layer loop
  itself. At the level of a whole run, `Conversion.LayersAfterManifest`
  states that each layer step comes after every earlier layer was
  applied.
