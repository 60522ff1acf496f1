/** internal/cpu_resource/cpu.go: soft accounting of cores and memory. */
module CpuResource {
  import opened Common

  /** cpuTracker; the hardware limits only bound the soft ones and are not used after start up. */
  datatype Cpu = Cpu(allocCores: u64, allocMem: u64, softMaxCores: u64, softMaxMem: u64, initErr: bool)

  datatype CPUAllocated = CPUAllocated(cores: u64, mem: u64)

  predicate Fits(c: Cpu, cores: u64, mem: u64) {
    && !c.initErr
    && Add64(cores, c.allocCores) <= c.softMaxCores
    && Add64(mem, c.allocMem) <= c.softMaxMem
  }

  function Grant(c: Cpu, a: CPUAllocated): Cpu {
    c.(allocCores := Add64(c.allocCores, a.cores), allocMem := Add64(c.allocMem, a.mem))
  }

  function Release(c: Cpu, a: CPUAllocated): Cpu {
    if c.initErr then c else
    c.(allocCores := Sub64(c.allocCores, a.cores), allocMem := Sub64(c.allocMem, a.mem))
  }

  lemma GrantRelease(c: Cpu, a: CPUAllocated)
    requires !c.initErr
    ensures Release(Grant(c, a), a) == c
  {
    AddSummand(c.allocCores, a.cores);
    SubtractSummand(c.allocCores + a.cores, a.cores);
    AddSummand(c.allocMem, a.mem);
    SubtractSummand(c.allocMem + a.mem, a.mem);
  }

  /** A tracker that failed to start grants nothing and does not change. */
  lemma FailedIsInert(c: Cpu, cores: u64, mem: u64, a: CPUAllocated)
    requires c.initErr
    ensures !Fits(c, cores, mem) && Release(c, a) == c
  {
  }

  class CpuTracker {
    var allocCores: u64
    var allocMem: u64
    var softMaxCores: u64
    var softMaxMem: u64
    var initErr: bool

    constructor (c: Cpu)
      ensures State() == c
    {
      allocCores, allocMem, initErr := c.allocCores, c.allocMem, c.initErr;
      softMaxCores, softMaxMem := c.softMaxCores, c.softMaxMem;
    }

    function State(): Cpu
      reads this
    {
      Cpu(allocCores, allocMem, softMaxCores, softMaxMem, initErr)
    }

    method AllocCPU(maxCores: u64, maxMem: u64, live: bool) returns (ok: bool, alloc: Option<CPUAllocated>)
      modifies this
      ensures ok <==> Fits(old(State()), maxCores, maxMem)
      ensures alloc == if ok && live then Some(CPUAllocated(maxCores, maxMem)) else None
      ensures State() == if alloc.Some? then Grant(old(State()), alloc.value) else old(State())
    {
      if initErr {
        return false, None;
      }
      if Add64(maxCores, allocCores) > softMaxCores {
        return false, None;
      }
      if Add64(maxMem, allocMem) > softMaxMem {
        return false, None;
      }
      if !live {
        return true, None;
      }
      allocCores := Add64(allocCores, maxCores);
      allocMem := Add64(allocMem, maxMem);
      return true, Some(CPUAllocated(maxCores, maxMem));
    }

    method ReleaseCPU(a: CPUAllocated)
      modifies this
      ensures State() == Release(old(State()), a)
    {
      if initErr {
        return;
      }
      allocCores := Sub64(allocCores, a.cores);
      allocMem := Sub64(allocMem, a.mem);
    }
  }
}

/** internal/disk_resource/disk.go: disk space accounting against what the file system reports. */
module DiskResource {
  import opened Common

  datatype Disk = Disk(device: string, allocSpace: u64, minFree: u64, initErr: bool)

  datatype DiskAllocated = DiskAllocated(device: string, size: u64)

  /** The part of statfs(2) that is read. */
  datatype Statfs = Statfs(bfree: u64, bavail: u64, bsize: u64)

  /** GetDiskFree, for what statfs answered, if it answered */
  function DiskFree(d: Disk, fs: Option<Statfs>): u64 {
    if fs.None? then 0 else
    var hardwareFree := Mul64(fs.value.bfree, fs.value.bsize);
    if hardwareFree < d.minFree then 0 else
    var highWater := Sub64(Mul64(fs.value.bavail, fs.value.bsize), d.minFree);
    if highWater <= d.allocSpace then 0 else highWater - d.allocSpace
  }

  predicate Fits(d: Disk, size: u64, fs: Option<Statfs>) {
    DiskFree(d, fs) >= size
  }

  function Grant(d: Disk, a: DiskAllocated): Disk {
    d.(initErr := false, allocSpace := Add64(d.allocSpace, a.size))
  }

  datatype ReleaseError = NotInitialized | UntrackedDevice

  function Release(d: Disk, a: DiskAllocated): (Disk, Option<ReleaseError>) {
    if d.initErr then (d, Some(NotInitialized))
    else if a.device != d.device then (d, Some(UntrackedDevice))
    else (d.(allocSpace := Sub64(d.allocSpace, a.size)), None)
  }

  /** A release is refused exactly before the first grant or for another device, and then changes nothing. */
  lemma ReleaseRefusedIff(d: Disk, a: DiskAllocated)
    ensures Release(d, a).1.Some? <==> d.initErr || a.device != d.device
    ensures Release(d, a).1.Some? ==> Release(d, a).0 == d
    ensures Release(d, a).1.None? && a.size <= d.allocSpace ==>
      Release(d, a).0 == d.(allocSpace := d.allocSpace - a.size)
  {
  }

  /** The space the file system offers to the runner once the headroom is kept free. */
  function Headroom(d: Disk, fs: Statfs): int {
    Mul64(fs.bavail, fs.bsize) - d.minFree
  }

  /**
   * As long as root is left at least what users are, and not root alone the headroom, the free space is what
   * is on offer and not yet allocated, and none on a full disk or without an answer.
   */
  lemma FreeIsTheRest(d: Disk, fs: Statfs)
    requires Mul64(fs.bavail, fs.bsize) <= Mul64(fs.bfree, fs.bsize) && !RootOnly(d, fs)
    ensures DiskFree(d, Some(fs)) == if d.allocSpace <= Headroom(d, fs) then Headroom(d, fs) - d.allocSpace else 0
    ensures DiskFree(d, None) == 0
  {
  }

  /** Root is left the headroom and users are not: the one case in which the subtraction borrows. */
  predicate RootOnly(d: Disk, fs: Statfs) {
    Mul64(fs.bavail, fs.bsize) < d.minFree <= Mul64(fs.bfree, fs.bsize)
  }

  /** Nothing is granted on a disk that does not have the headroom. */
  lemma FullDiskRefused(d: Disk, size: u64, fs: Statfs)
    requires Mul64(fs.bfree, fs.bsize) < d.minFree
    ensures Fits(d, size, Some(fs)) <==> size == 0
  {
  }

  /** A grant never carries: what is allocated after it is the plain sum. */
  lemma GrantIsExact(d: Disk, size: u64, fs: Option<Statfs>)
    requires Fits(d, size, fs)
    ensures d.allocSpace + size < TWO64
    ensures Grant(d, DiskAllocated(d.device, size)).allocSpace == d.allocSpace + size
  {
  }

  /**
   * A non empty request keeps the total allocated within the space on offer exactly when the space the
   * file system leaves to unprivileged users is not below the headroom.  The test in the code compares
   * the headroom with the space left to root instead, and the unsigned subtraction then borrows.
   */
  lemma GrantWithinHeadroom(d: Disk, size: u64, fs: Statfs)
    requires Fits(d, size, Some(fs)) && size > 0
    ensures d.allocSpace + size <= Headroom(d, fs) <==> d.minFree <= Mul64(fs.bavail, fs.bsize)
  {
  }

  /** With ten bytes left to root, one to users and a headroom of two, any request at all is granted. */
  lemma BorrowedGrant()
    ensures exists d, size, fs :: Fits(d, size, Some(fs)) && size > 0 && d.allocSpace + size > Headroom(d, fs)
  {
    var d, fs := Disk("/", 0, 2, false), Statfs(10, 1, 1);
    var size: u64 := TWO64 - 1;
    assert Mul64(10, 1) == 10 && Mul64(1, 1) == 1;
    assert Sub64(1, 2) == TWO64 - 1;
    assert Fits(d, size, Some(fs));
    GrantWithinHeadroom(d, size, fs);
  }

  class DiskTracker {
    var device: string
    var allocSpace: u64
    var minFree: u64
    var initErr: bool

    constructor (d: Disk)
      ensures State() == d
    {
      device, allocSpace, minFree, initErr := d.device, d.allocSpace, d.minFree, d.initErr;
    }

    function State(): Disk
      reads this
    {
      Disk(device, allocSpace, minFree, initErr)
    }

    method GetDiskFree(fs: Option<Statfs>) returns (free: u64)
      ensures free == DiskFree(State(), fs)
    {
      if fs.None? {
        return 0;
      }
      var hardwareFree := Mul64(fs.value.bfree, fs.value.bsize);
      if hardwareFree < minFree {
        return 0;
      }
      var highWater := Sub64(Mul64(fs.value.bavail, fs.value.bsize), minFree);
      if highWater <= allocSpace {
        return 0;
      }
      return highWater - allocSpace;
    }

    method AllocDisk(maxSpace: u64, live: bool, fs: Option<Statfs>) returns (ok: bool, alloc: Option<DiskAllocated>)
      modifies this
      ensures ok <==> Fits(old(State()), maxSpace, fs)
      ensures alloc == if ok && live then Some(DiskAllocated(device, maxSpace)) else None
      ensures State() == if alloc.Some? then Grant(old(State()), alloc.value) else old(State())
    {
      var avail := GetDiskFree(fs);
      if avail < maxSpace {
        return false, None;
      }
      if !live {
        return true, None;
      }
      initErr := false;
      allocSpace := Add64(allocSpace, maxSpace);
      return true, Some(DiskAllocated(device, maxSpace));
    }

    method ReleaseDisk(a: DiskAllocated) returns (err: Option<ReleaseError>)
      modifies this
      ensures (State(), err) == Release(old(State()), a)
    {
      if initErr {
        return Some(NotInitialized);
      }
      if a.device != device {
        return Some(UntrackedDevice);
      }
      allocSpace := Sub64(allocSpace, a.size);
      return None;
    }
  }
}
