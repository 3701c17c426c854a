/**
 The kernel command line the guest is booted with. It hands PID 1 to the
 init script the converter wrote, and turns off the platform features the
 micro-VM does not provide.
 */
module Boot {
  import opened Strings
  import opened InitScripts

  /** The kernel parameters, in the order they appear on the command line. */
  const KernelParams: seq<string> := [
    "console=ttyS0", "reboot=k", "panic=1", "acpi=off", "pci=off",
    "i8042.noaux", "i8042.nomux", "i8042.nopnp", "i8042.dumbkbd",
    "init=/init.sh", "random.trust_cpu=on"
  ]

  /** The command line: the parameters separated by single spaces. */
  function KernelArgs(): (args: string)
    ensures |args| == TotalLength(KernelParams) + |KernelParams| - 1
  {
    Join(KernelParams, ' ')
  }

  /** The parameters hold no spaces, so the kernel's word splitting of the
      command line gives back exactly the parameters. */
  lemma KernelArgsSplit()
    ensures Split(KernelArgs(), ' ') == KernelParams
  {
    forall i | 0 <= i < |KernelParams|
      ensures ' ' !in KernelParams[i]
    {
    }
    SplitJoin(KernelParams, ' ');
  }

  /** The guest runs the script at the path the converter wrote it to as
      PID 1, with ACPI and PCI off. */
  lemma BootsInitScript()
    ensures "init=" + InitPath in KernelParams
    ensures "acpi=off" in KernelParams && "pci=off" in KernelParams
  {
    assert "init=" + InitPath == KernelParams[9];
  }
}
