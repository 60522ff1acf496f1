/** internal/resources/resources.go and cmd/runner/resource.go: all machine resources of a job at once. */
module Resources {
  import opened Common
  import Cuda
  import CpuResource
  import DiskResource

  datatype AllocRequest = AllocRequest(gpu: Cuda.Want, maxCPU: u64, maxMem: u64, maxDisk: u64)

  datatype Allocated = Allocated(gpu: seq<Cuda.Handle>,
                                 cpu: Option<CpuResource.CPUAllocated>,
                                 disk: Option<DiskResource.DiskAllocated>)

  /** The state of the three trackers. */
  datatype Host = Host(cards: Cuda.Cards, cpu: CpuResource.Cpu, disk: DiskResource.Disk)

  datatype Outcome = NoGPU | NoCPU | NoDisk | Granted

  /** The first resource that is short, in the order in which Alloc asks for them. */
  function Decide(m: Host, rq: AllocRequest, fs: Option<DiskResource.Statfs>): Outcome {
    if !Cuda.Fits(m.cards, rq.gpu) then NoGPU
    else if !CpuResource.Fits(m.cpu, rq.maxCPU, rq.maxMem) then NoCPU
    else if !DiskResource.Fits(m.disk, rq.maxDisk, fs) then NoDisk
    else Granted
  }

  function Released(m: Host, a: Allocated): Host {
    Host(Cuda.ReturnAll(m.cards, a.gpu),
         if a.cpu.Some? then CpuResource.Release(m.cpu, a.cpu.value) else m.cpu,
         if a.disk.Some? then DiskResource.Release(m.disk, a.disk.value).0 else m.disk)
  }

  datatype Error = GPU(e: Cuda.ReturnError) | Disk(d: DiskResource.ReleaseError) | DiskMissing

  function GPUErrors(es: seq<Cuda.ReturnError>): seq<Error> {
    if es == [] then [] else GPUErrors(es[..|es|-1]) + [GPU(es[|es|-1])]
  }

  lemma ReturnedStep(cards: Cuda.Cards, hs: seq<Cuda.Handle>, i: nat)
    requires i < |hs|
    ensures var (after, e) := Cuda.ReturnOne(Cuda.ReturnAll(cards, hs[..i]), hs[i]);
      && Cuda.ReturnAll(cards, hs[..i+1]) == after
      && GPUErrors(Cuda.ReturnErrors(cards, hs[..i+1]))
        == GPUErrors(Cuda.ReturnErrors(cards, hs[..i])) + (if e.Some? then [GPU(e.value)] else [])
  {
    assert hs[..i+1][..i] == hs[..i];
    var es, e := Cuda.ReturnErrors(cards, hs[..i]), Cuda.ReturnOne(Cuda.ReturnAll(cards, hs[..i]), hs[i]).1;
    if e.Some? {
      assert (es + [e.value])[..|es|] == es;
    } else {
      assert es + [] == es;
    }
  }

  function ReleaseErrors(m: Host, a: Allocated): seq<Error> {
    GPUErrors(Cuda.ReturnErrors(m.cards, a.gpu)) +
    if a.disk.None? then [DiskMissing] else
    var err := DiskResource.Release(m.disk, a.disk.value).1;
    if err.Some? then [Disk(err.value)] else []
  }

  /** A release reports nothing exactly when no card is refused and the disk part is there and accepted. */
  lemma CleanReleaseIff(m: Host, a: Allocated)
    ensures ReleaseErrors(m, a) == [] <==>
      && Cuda.ReturnErrors(m.cards, a.gpu) == []
      && a.disk.Some? && !m.disk.initErr && a.disk.value.device == m.disk.device
    ensures a.disk.None? ==> DiskMissing in ReleaseErrors(m, a)
  {
    var es := Cuda.ReturnErrors(m.cards, a.gpu);
    assert GPUErrors(es) == [] <==> es == [];
    if a.disk.None? { assert ReleaseErrors(m, a)[|GPUErrors(es)|] == DiskMissing; }
  }

  function Full(m: Host, rq: AllocRequest, hs: seq<Cuda.Handle>): Allocated {
    Allocated(hs, Some(CpuResource.CPUAllocated(rq.maxCPU, rq.maxMem)),
              Some(DiskResource.DiskAllocated(m.disk.device, rq.maxDisk)))
  }

  /** The trackers after a live Alloc for which the GPU stage, if it succeeded, chose `hs`. */
  function AllocLive(m: Host, rq: AllocRequest, fs: Option<DiskResource.Statfs>, hs: seq<Cuda.Handle>): Host {
    var a := Full(m, rq, hs);
    var m1 := m.(cards := Cuda.Grant(m.cards, hs));
    var m2 := m1.(cpu := CpuResource.Grant(m.cpu, a.cpu.value));
    match Decide(m, rq, fs)
    case NoGPU => m
    case NoCPU => Released(m1, Allocated(hs, None, None))
    case NoDisk => Released(m2, Allocated(hs, a.cpu, None))
    case Granted => m2.(disk := DiskResource.Grant(m.disk, a.disk.value))
  }

  /** Resources: one tracker of each kind, each changed in place. */
  class HostResources {
    const gpu: Cuda.GpuTracker
    const cpu: CpuResource.CpuTracker
    const disk: DiskResource.DiskTracker

    constructor (m: Host)
      ensures fresh(gpu) && fresh(cpu) && fresh(disk) && State() == m
    {
      gpu := new Cuda.GpuTracker(m.cards);
      cpu := new CpuResource.CpuTracker(m.cpu);
      disk := new DiskResource.DiskTracker(m.disk);
    }

    function State(): Host
      reads gpu, cpu, disk
    {
      Host(gpu.allocs, cpu.State(), disk.State())
    }

    /**
     * Alloc: a dry run changes nothing and succeeds exactly when a live call would; a live call leaves
     * what AllocLive says.  `hs` are the handles the GPU stage made, also when they were given back.
     */
    method Alloc(rq: AllocRequest, live: bool, fs: Option<DiskResource.Statfs>, ids: seq<string>)
      returns (alloc: Option<Allocated>, ghost hs: seq<Cuda.Handle>)
      requires Cuda.Keyed(gpu.allocs)
      requires |ids| == rq.gpu.cardCount && forall i, j | 0 <= i < j < |ids| :: ids[i] != ids[j]
      modifies gpu, cpu, disk
      ensures alloc.Some? <==> Decide(old(State()), rq, fs) == Granted
      ensures !live ==> State() == old(State())
      ensures live && !Decide(old(State()), rq, fs).NoGPU? ==> Cuda.ValidGrant(old(gpu.allocs), rq.gpu, hs)
      ensures live && !Decide(old(State()), rq, fs).NoGPU? ==> forall i | 0 <= i < |hs| :: hs[i].tracking == ids[i]
      ensures live ==> State() == AllocLive(old(State()), rq, fs, hs)
      ensures live && alloc.Some? ==> alloc.value == Full(old(State()), rq, hs)
    {
      var ok, g := gpu.AllocGPU(rq.gpu, live, ids);
      hs := g;
      if !ok {
        return None, hs;
      }
      var c;
      ok, c := cpu.AllocCPU(rq.maxCPU, rq.maxMem, live);
      if !ok {
        if live {
          var _ := Release(Allocated(g, None, None));
        }
        return None, hs;
      }
      var d;
      ok, d := disk.AllocDisk(rq.maxDisk, live, fs);
      if !ok {
        if live {
          var _ := Release(Allocated(g, c, None));
        }
        return None, hs;
      }
      alloc := Some(Allocated(g, c, d));
    }

    /** Allocated.Release: every part is given back, whatever errors the parts before it gave. */
    method Release(a: Allocated) returns (errs: seq<Error>)
      modifies gpu, cpu, disk
      ensures State() == Released(old(State()), a)
      ensures errs == ReleaseErrors(old(State()), a)
    {
      errs := [];
      ghost var cards := gpu.allocs;
      for i := 0 to |a.gpu|
        invariant gpu.allocs == Cuda.ReturnAll(cards, a.gpu[..i])
        invariant errs == GPUErrors(Cuda.ReturnErrors(cards, a.gpu[..i]))
        invariant unchanged(cpu) && unchanged(disk)
      {
        ReturnedStep(cards, a.gpu, i);
        var e := gpu.ReturnGPU(a.gpu[i]);
        if e.Some? {
          errs := errs + [GPU(e.value)];
        }
      }
      assert a.gpu[..|a.gpu|] == a.gpu;
      if a.cpu.Some? {
        cpu.ReleaseCPU(a.cpu.value);
      }
      if a.disk.Some? {
        var e := disk.ReleaseDisk(a.disk.value);
        if e.Some? {
          errs := errs + [Disk(e.value)];
        }
      } else {
        errs := errs + [DiskMissing];
      }
    }
  }

  /**
   * All or nothing: when some resource is short, the trackers are as before exactly when the GPU stage
   * had failed already or had handed out no card without slots.
   */
  lemma AllOrNothing(m: Host, rq: AllocRequest, fs: Option<DiskResource.Statfs>,
                     hs: seq<Cuda.Handle>, held: multiset<Cuda.Handle>)
    requires Cuda.Exclusive(m.cards, held)
    requires !Decide(m, rq, fs).NoGPU? ==> Cuda.ValidGrant(m.cards, rq.gpu, hs)
    requires Decide(m, rq, fs) != Granted
    ensures AllocLive(m, rq, fs, hs) == m <==> Decide(m, rq, fs).NoGPU? || forall h | h in hs :: h.slots != 0
  {
    if !Decide(m, rq, fs).NoGPU? {
      Cuda.GrantReturn(m.cards, rq.gpu, hs, held);
      if Decide(m, rq, fs).NoDisk? {
        CpuResource.GrantRelease(m.cpu, CpuResource.CPUAllocated(rq.maxCPU, rq.maxMem));
      }
    }
  }

  /** What allocResource asks for on behalf of a job: its GPU slots are the one acceptable card size. */
  function JobRequest(gpus: u64, gpuCount: nat, gpuMem: u64, cpus: u64, ram: u64, hdd: u64): AllocRequest {
    AllocRequest(Cuda.Want(gpus, gpuMem, [gpus], gpuCount), cpus, ram, hdd)
  }

  /** A job starts exactly when there are enough free cards of its size, cores, memory and disk for it. */
  lemma JobStartsIff(m: Host, gpus: u64, gpuCount: nat, gpuMem: u64, cpus: u64, ram: u64, hdd: u64,
                     fs: Option<DiskResource.Statfs>)
    ensures Decide(m, JobRequest(gpus, gpuCount, gpuMem, cpus, ram, hdd), fs).Granted? <==>
      && ((gpus == 0 && gpuMem == 0) || |FreeCards(m.cards, gpus, gpuMem)| >= gpuCount)
      && !m.cpu.initErr
      && (cpus + m.cpu.allocCores) % TWO64 <= m.cpu.softMaxCores
      && (ram + m.cpu.allocMem) % TWO64 <= m.cpu.softMaxMem
      && hdd <= DiskResource.DiskFree(m.disk, fs)
  {
    assert Cuda.UsableCards(m.cards, Cuda.Want(gpus, gpuMem, [gpus], gpuCount)) == FreeCards(m.cards, gpus, gpuMem);
  }

  function FreeCards(cards: Cuda.Cards, gpus: u64, gpuMem: u64): set<string> {
    set k | k in cards && !cards[k].busy && cards[k].eccFailure == None
      && cards[k].slots == gpus && cards[k].mem >= gpuMem
  }

  /** An entry without slots and memory, as one made for a device that was not found, is never given to a job. */
  lemma NoJobOnPlaceholder(c: Cuda.Track, gpus: u64, gpuCount: nat, gpuMem: u64, cpus: u64, ram: u64, hdd: u64)
    requires c.slots == 0 && c.mem == 0
    ensures var w := JobRequest(gpus, gpuCount, gpuMem, cpus, ram, hdd).gpu; !w.Nothing() ==> !Cuda.Usable(c, w)
  {
  }

  /**
   * For a job the condition reads off the request: only a job that asks for cards by memory alone, with
   * no slots, can leave cards behind when another resource is short.
   */
  lemma JobAllOrNothing(m: Host, gpus: u64, gpuCount: nat, gpuMem: u64, cpus: u64, ram: u64, hdd: u64,
                        fs: Option<DiskResource.Statfs>, hs: seq<Cuda.Handle>, held: multiset<Cuda.Handle>)
    requires var rq := JobRequest(gpus, gpuCount, gpuMem, cpus, ram, hdd);
      Cuda.Exclusive(m.cards, held) && Cuda.ValidGrant(m.cards, rq.gpu, hs) && Decide(m, rq, fs) in {NoCPU, NoDisk}
    ensures var rq := JobRequest(gpus, gpuCount, gpuMem, cpus, ram, hdd);
      AllocLive(m, rq, fs, hs) == m <==> gpus != 0 || gpuMem == 0 || gpuCount == 0
  {
    var rq := JobRequest(gpus, gpuCount, gpuMem, cpus, ram, hdd);
    AllOrNothing(m, rq, fs, hs, held);
    assert forall h | h in hs :: h.slots == gpus;
    if |hs| > 0 { assert hs[0] in hs; }
  }
}
