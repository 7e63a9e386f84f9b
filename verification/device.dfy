/**
 * Execution-device policy: the CPU/CUDA choice with its fallback, the
 * numeric precision that follows from it, the CPU-offload decision and
 * the boolean environment flags that steer them.
 */
module Device {
  import opened Text
  import opened Optional
  import opened ModelType

  datatype Target = Cpu | Cuda

  datatype Precision = Float16 | Float32

  /**
   * The CUDA trial: either some call inside the trial raised (allocating
   * the test tensor, adding to it, reading the device properties, or
   * reading the device name after a reading of at least 4 GiB), or it
   * reported the card's total memory in bytes.
   */
  datatype CudaProbe = ProbeRaised | Measured(totalMemoryBytes: nat)

  /** Why the device was chosen; app.py renders each as a message. */
  datatype Reason = ForcedCpu | CudaUnavailable | CudaError | InsufficientMemory(memoryBytes: nat) | Gpu(memoryBytes: nat)

  datatype Choice = Choice(target: Target, reason: Reason)

  /** The smallest card, in bytes, the application will run on. */
  const MinGpuMemory: nat := 4 * GiB

  /**
   * The device choice. The probe is consulted only when CUDA is reported
   * available and the CPU is not forced.
   */
  function OptimalDevice(forceCpu: bool, cudaAvailable: bool, probe: CudaProbe): (c: Choice)
    ensures c.target == Cuda <==> !forceCpu && cudaAvailable && probe.Measured? && probe.totalMemoryBytes >= MinGpuMemory
    ensures forceCpu ==> c == Choice(Cpu, ForcedCpu)
    ensures !forceCpu && !cudaAvailable ==> c == Choice(Cpu, CudaUnavailable)
    ensures c.reason.CudaError? <==> !forceCpu && cudaAvailable && probe.ProbeRaised?
    ensures c.reason.InsufficientMemory? ==> c.reason.memoryBytes < MinGpuMemory
    ensures c.reason.Gpu? <==> c.target == Cuda
  {
    if forceCpu then Choice(Cpu, ForcedCpu)
    else if !cudaAvailable then Choice(Cpu, CudaUnavailable)
    else match probe
      case ProbeRaised => Choice(Cpu, CudaError)
      case Measured(mem) =>
        if mem < MinGpuMemory then Choice(Cpu, InsufficientMemory(mem))
        else Choice(Cuda, Gpu(mem))
  }

  /** A bigger card never moves the choice from CUDA back to the CPU. */
  lemma MoreMemoryNeverDemotes(forceCpu: bool, cudaAvailable: bool, m1: nat, m2: nat)
    requires m1 <= m2
    requires OptimalDevice(forceCpu, cudaAvailable, Measured(m1)).target == Cuda
    ensures OptimalDevice(forceCpu, cudaAvailable, Measured(m2)).target == Cuda
  {
  }

  /** Half precision on the GPU, single precision on the CPU. */
  function PrecisionFor(t: Target): (p: Precision)
    ensures p == Float16 <==> t == Cuda
  {
    if t == Cuda then Float16 else Float32
  }

  /**
   * A boolean environment flag: the variable's value, or the default when
   * it is unset, lower-cased and compared with `true`.
   */
  function EnvFlag(value: Option<string>, default: string): (b: bool)
    ensures value.Some? ==> (b <==> Lower(value.value) == "true")
    ensures value.None? ==> (b <==> Lower(default) == "true")
  {
    var text := if value.Some? then value.value else default;
    Lower(text) == "true"
  }

  /** Any capitalisation of `true` sets a flag; an unset flag with default `false` is off. */
  lemma EnvFlagExamples()
    ensures EnvFlag(Some("TRUE"), "false")
    ensures EnvFlag(Some("True"), "false")
    ensures !EnvFlag(Some("1"), "false")
    ensures !EnvFlag(None, "false")
    ensures EnvFlag(None, "true")
  {
  }

  /**
   * Whether the pipeline is loaded with model CPU offload instead of being
   * moved wholesale to the device. In `auto` mode (matched exactly) it is
   * on for the CPU and for a card smaller than the configured ceiling of
   * `maxMemoryGb` gigabytes; any other mode is read as a boolean flag.
   */
  function CpuOffload(mode: string, device: Target, cudaAvailable: bool, totalMemoryBytes: nat, maxMemoryGb: real): (b: bool)
    ensures mode != "auto" ==> (b <==> Lower(mode) == "true")
    ensures mode == "auto" && device == Cpu ==> b
    ensures mode == "auto" && device == Cuda ==>
      (b <==> cudaAvailable && (totalMemoryBytes as real) < maxMemoryGb * (GiB as real))
  {
    if mode == "auto" then
      device == Cpu || (cudaAvailable && (totalMemoryBytes as real) < maxMemoryGb * (GiB as real))
    else Lower(mode) == "true"
  }

  /** A flag is set exactly by the four letters of `true`, each in either case. */
  lemma EnvFlagIsTrueInAnyCase(value: string, default: string)
    ensures EnvFlag(Some(value), default) <==>
      && |value| == 4
      && (value[0] == 't' || value[0] == 'T') && (value[1] == 'r' || value[1] == 'R')
      && (value[2] == 'u' || value[2] == 'U') && (value[3] == 'e' || value[3] == 'E')
  {
    var l := Lower(value);
    if |value| == 4 {
      assert l == "true" <==> l[0] == 't' && l[1] == 'r' && l[2] == 'u' && l[3] == 'e';
    }
  }

  /**
   * In `auto` mode offload is off exactly on CUDA when the card is at
   * least the ceiling, or CUDA is no longer reported available.
   */
  lemma AutoOffloadOffOnlyOnLargeCard(device: Target, cudaAvailable: bool, mem: nat, maxMemoryGb: real)
    ensures !CpuOffload("auto", device, cudaAvailable, mem, maxMemoryGb) <==>
      device == Cuda && (!cudaAvailable || (mem as real) >= maxMemoryGb * (GiB as real))
  {
  }

  /** A bigger card never switches offload on. */
  lemma MoreMemoryNeverAddsOffload(mode: string, device: Target, cudaAvailable: bool, m1: nat, m2: nat, maxMemoryGb: real)
    requires m1 <= m2
    requires !CpuOffload(mode, device, cudaAvailable, m1, maxMemoryGb)
    ensures !CpuOffload(mode, device, cudaAvailable, m2, maxMemoryGb)
  {
  }

  /** Outside `auto` mode the decision ignores the device, CUDA and the memory ceiling. */
  lemma FlagModeIgnoresHardware(mode: string, d1: Target, d2: Target, a1: bool, a2: bool,
                                m1: nat, m2: nat, g1: real, g2: real)
    requires mode != "auto"
    ensures CpuOffload(mode, d1, a1, m1, g1) == CpuOffload(mode, d2, a2, m2, g2)
  {
  }

  /** `auto` is matched case-sensitively: `AUTO` is read as a false flag and disables offload. */
  lemma CapitalisedAutoDisablesOffload(device: Target, cudaAvailable: bool, mem: nat, maxMemoryGb: real)
    ensures !CpuOffload("AUTO", device, cudaAvailable, mem, maxMemoryGb)
  {
    assert Lower("AUTO") == "auto";
  }

  /**
   * Under the shipped defaults (CPU not forced, offload `auto`, ceiling
   * 8 GB) the pipeline runs wholly on the GPU exactly when the CUDA probe
   * succeeds on a card of at least 8 GiB; a 4 to 8 GiB card runs on CUDA
   * with offload, and everything else runs on the CPU with offload.
   */
  lemma {:induction false} DefaultPolicy(cudaAvailable: bool, probe: CudaProbe)
    ensures var c := OptimalDevice(false, cudaAvailable, probe);
            var mem := if probe.Measured? then probe.totalMemoryBytes else 0;
            var off := CpuOffload("auto", c.target, cudaAvailable, mem, 8.0);
            (c.target == Cuda && !off) <==> cudaAvailable && probe.Measured? && probe.totalMemoryBytes >= 8 * GiB
  {
    var c := OptimalDevice(false, cudaAvailable, probe);
    if c.target == Cuda {
      var mem := probe.totalMemoryBytes;
      assert (mem as real) < 8.0 * (GiB as real) <==> mem < 8 * GiB;
    }
  }
}
