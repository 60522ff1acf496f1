/**
 * Every interleaving of jobs on one host.  cmd/runner/processor.go allocates once per job and releases
 * once in a deferred function; guardAllocation makes each call one step.
 */
module Jobs {
  import opened Common
  import opened Runs
  import opened Cuda
  import CpuResource
  import DiskResource
  import opened Resources

  /**
   * `out` holds the allocations of the jobs still running.  The rest is history: the handles of cards
   * without slots that were given back, which ReturnGPU ignores, and all tracking ids ever issued.
   */
  datatype World = World(host: Host, out: seq<Allocated>, lost: multiset<Handle>, issued: set<string>)

  datatype Event =
    | Start(rq: AllocRequest, fs: Option<DiskResource.Statfs>, hs: seq<Handle>)
    | DryRun(rq: AllocRequest, fs: Option<DiskResource.Statfs>)
    | Finish(i: nat)
    | Ecc(uuid: string, devErr: string)
    | Stray(h: Handle)

  function OutBag(out: seq<Allocated>): multiset<Handle> {
    if out == [] then multiset{} else OutBag(out[..|out|-1]) + Bag(out[|out|-1].gpu)
  }

  /** The handles whose cards are taken. */
  function Held(w: World): multiset<Handle> { OutBag(w.out) + w.lost }

  function Unslotted(hs: seq<Handle>): multiset<Handle> { Bag(hs) - Slotted(hs) }

  function Ids(hs: seq<Handle>): set<string> { set h | h in hs :: h.tracking }

  function Without<T>(s: seq<T>, i: nat): seq<T>
    requires i < |s|
  {
    s[..i] + s[i+1..]
  }

  /** A stray return uses a handle that is spent or foreign: no allocation in force carries its id. */
  ghost predicate Enabled(w: World, e: Event) {
    match e
    case Start(rq, fs, hs) =>
      if Decide(w.host, rq, fs).NoGPU? then hs == []
      else ValidGrant(w.host.cards, rq.gpu, hs) && forall h | h in hs :: h.tracking !in w.issued
    case DryRun(_, _) => true
    case Finish(i) => i < |w.out|
    case Ecc(_, _) => true
    case Stray(h) => forall g | g in Held(w) :: g.tracking != h.tracking
  }

  function Next(w: World, e: Event): World {
    match e
    case Start(rq, fs, hs) =>
      var host := AllocLive(w.host, rq, fs, hs);
      if Decide(w.host, rq, fs).Granted?
      then World(host, w.out + [Full(w.host, rq, hs)], w.lost, w.issued + Ids(hs))
      else World(host, w.out, w.lost + Unslotted(hs), w.issued + Ids(hs))
    case DryRun(_, _) => w
    case Finish(i) =>
      if i >= |w.out| then w else
      World(Released(w.host, w.out[i]), Without(w.out, i), w.lost + Unslotted(w.out[i].gpu), w.issued)
    case Ecc(uuid, devErr) => w.(host := w.host.(cards := MarkFailed(w.host.cards, uuid, devErr)))
    case Stray(h) => w.(host := w.host.(cards := ReturnOne(w.host.cards, h).0))
  }

  ghost const SYSTEM: Machine<World, Event> := Machine(Enabled, Next)

  function Total(f: Allocated -> nat, out: seq<Allocated>): nat {
    if out == [] then 0 else Total(f, out[..|out|-1]) + f(out[|out|-1])
  }

  function Cores(a: Allocated): nat { if a.cpu.Some? then a.cpu.value.cores else 0 }
  function Mem(a: Allocated): nat { if a.cpu.Some? then a.cpu.value.mem else 0 }
  function Space(a: Allocated): nat { if a.disk.Some? then a.disk.value.size else 0 }

  /** Cards are held exactly by the allocations in force and the lost handles, which have no slots. */
  ghost predicate CardsConserved(w: World) {
    && Exclusive(w.host.cards, Held(w))
    && (forall h | h in w.lost :: h.slots == 0)
    && (forall h | h in Held(w) :: h.tracking in w.issued)
  }

  /** The counters are the sums over the allocations in force, cores and memory modulo 2^64. */
  ghost predicate CountersConserved(w: World) {
    && w.host.cpu.allocCores == Total(Cores, w.out) % TWO64
    && w.host.cpu.allocMem == Total(Mem, w.out) % TWO64
    && w.host.disk.allocSpace == Total(Space, w.out)
    && (forall i | 0 <= i < |w.out| :: Complete(w.out[i], w.host))
  }

  ghost predicate Complete(a: Allocated, m: Host) {
    && a.cpu.Some? && a.disk.Some? && a.disk.value.device == m.disk.device
    && !m.cpu.initErr && !m.disk.initErr
  }

  ghost predicate Conserved(w: World) { CardsConserved(w) && CountersConserved(w) }

  // Sums and bags of sequences with one element taken out

  lemma WithoutFront<T>(s: seq<T>, i: nat)
    requires i < |s| - 1
    ensures Without(s, i)[..|s|-2] == Without(s[..|s|-1], i)
    ensures Without(s, i)[|s|-2] == s[|s|-1] && s[..|s|-1][i] == s[i]
  {
  }

  lemma {:induction false} TotalWithout(f: Allocated -> nat, out: seq<Allocated>, i: nat)
    requires i < |out|
    ensures Total(f, out) == Total(f, Without(out, i)) + f(out[i])
  {
    var n := |out| - 1;
    if i == n {
      assert Without(out, i) == out[..n];
    } else {
      WithoutFront(out, i);
      TotalWithout(f, out[..n], i);
    }
  }

  function Copies(h: Handle): Allocated -> nat { (a: Allocated) => Bag(a.gpu)[h] }

  lemma {:induction false} OutCount(out: seq<Allocated>, h: Handle)
    ensures OutBag(out)[h] == Total(Copies(h), out)
  {
    if out != [] { OutCount(out[..|out|-1], h); }
  }

  lemma CountWithout(out: seq<Allocated>, i: nat, h: Handle)
    requires i < |out|
    ensures OutBag(out)[h] == OutBag(Without(out, i))[h] + Bag(out[i].gpu)[h]
  {
    OutCount(out, h);
    OutCount(Without(out, i), h);
    TotalWithout(Copies(h), out, i);
  }

  lemma BagWithout(out: seq<Allocated>, i: nat)
    requires i < |out|
    ensures OutBag(out) == OutBag(Without(out, i)) + Bag(out[i].gpu)
  {
    forall h ensures OutBag(out)[h] == OutBag(Without(out, i))[h] + Bag(out[i].gpu)[h] { CountWithout(out, i, h); }
  }

  lemma SlottedWithin(hs: seq<Handle>)
    ensures Slotted(hs) <= Bag(hs)
    ensures forall h | h in Unslotted(hs) :: h.slots == 0
  {
    forall h ensures Slotted(hs)[h] == if h.slots != 0 then Bag(hs)[h] else 0 { SlottedCounts(hs, h); }
  }

  // The cards

  lemma GrantedHeld(w: World, rq: AllocRequest, fs: Option<DiskResource.Statfs>, hs: seq<Handle>)
    requires Decide(w.host, rq, fs).Granted?
    ensures Held(Next(w, Start(rq, fs, hs))) == Held(w) + Bag(hs)
  {
    assert (w.out + [Full(w.host, rq, hs)])[..|w.out|] == w.out;
  }

  lemma RefusedHeld(w: World, rq: AllocRequest, fs: Option<DiskResource.Statfs>, hs: seq<Handle>)
    requires !Decide(w.host, rq, fs).Granted?
    ensures Held(Next(w, Start(rq, fs, hs))) == Held(w) + Bag(hs) - Slotted(hs)
  {
    SlottedWithin(hs);
  }

  lemma FinishHeld(w: World, i: nat)
    requires i < |w.out|
    ensures Held(Next(w, Finish(i))) == Held(w) - Slotted(w.out[i].gpu)
    ensures Bag(w.out[i].gpu) <= Held(w)
  {
    var hs := w.out[i].gpu;
    BagWithout(w.out, i);
    SlottedWithin(hs);
    SomeLost(OutBag(Without(w.out, i)), Bag(hs), Slotted(hs), w.lost);
  }

  lemma SomeLost(rest: multiset<Handle>, all: multiset<Handle>, back: multiset<Handle>, lost: multiset<Handle>)
    requires back <= all
    ensures rest + (lost + (all - back)) == rest + all + lost - back && all <= rest + all + lost
  {
  }

  lemma HeldIssued(held: multiset<Handle>, hs: seq<Handle>, issued: set<string>)
    requires forall h | h in held :: h.tracking in issued
    ensures forall h | h in held + Bag(hs) :: h.tracking in issued + Ids(hs)
  {
    forall h | h in held + Bag(hs) ensures h.tracking in issued + Ids(hs) { BagCounts(hs, h); }
  }

  lemma LostUnslotted(lost: multiset<Handle>, hs: seq<Handle>)
    requires forall h | h in lost :: h.slots == 0
    ensures forall h | h in lost + Unslotted(hs) :: h.slots == 0
  {
    SlottedWithin(hs);
  }

  lemma StartCards(w: World, rq: AllocRequest, fs: Option<DiskResource.Statfs>, hs: seq<Handle>)
    requires CardsConserved(w) && Enabled(w, Start(rq, fs, hs))
    ensures CardsConserved(Next(w, Start(rq, fs, hs)))
  {
    var held := Held(w);
    HeldIssued(held, hs, w.issued);
    LostUnslotted(w.lost, hs);
    match Decide(w.host, rq, fs)
    case NoGPU =>
      RefusedHeld(w, rq, fs, hs);
      assert held + Bag([]) - Slotted([]) == held;
    case Granted =>
      GrantedHeld(w, rq, fs, hs);
      GrantExclusive(w.host.cards, rq.gpu, hs, held);
    case _ =>
      RefusedHeld(w, rq, fs, hs);
      GrantExclusive(w.host.cards, rq.gpu, hs, held);
      ReturnExclusive(Grant(w.host.cards, hs), held + Bag(hs), hs);
  }

  lemma FinishCards(w: World, i: nat)
    requires CardsConserved(w) && i < |w.out|
    ensures CardsConserved(Next(w, Finish(i)))
    ensures ReturnErrors(w.host.cards, w.out[i].gpu) == []
  {
    FinishHeld(w, i);
    ReturnExclusive(w.host.cards, Held(w), w.out[i].gpu);
    LostUnslotted(w.lost, w.out[i].gpu);
  }

  lemma StepCards(w: World, e: Event)
    requires CardsConserved(w) && Enabled(w, e)
    ensures CardsConserved(Next(w, e))
  {
    match e
    case Start(rq, fs, hs) => StartCards(w, rq, fs, hs);
    case DryRun(_, _) =>
    case Finish(i) => FinishCards(w, i);
    case Ecc(uuid, devErr) => MarkExclusive(w.host.cards, Held(w), uuid, devErr);
    case Stray(h) => StaleHandleRejected(w.host.cards, Held(w), h);
  }

  // The counters

  lemma TotalLast(f: Allocated -> nat, out: seq<Allocated>, a: Allocated)
    ensures Total(f, out + [a]) == Total(f, out) + f(a)
  {
    assert (out + [a])[..|out|] == out;
  }

  lemma GrantedCounters(w: World, rq: AllocRequest, fs: Option<DiskResource.Statfs>, hs: seq<Handle>)
    requires CountersConserved(w) && Decide(w.host, rq, fs).Granted?
    ensures CountersConserved(Next(w, Start(rq, fs, hs)))
  {
    var w', a := Next(w, Start(rq, fs, hs)), Full(w.host, rq, hs);
    TotalLast(Cores, w.out, a);
    TotalLast(Mem, w.out, a);
    TotalLast(Space, w.out, a);
    AddSummand(Total(Cores, w.out), rq.maxCPU);
    AddSummand(Total(Mem, w.out), rq.maxMem);
    DiskResource.GrantIsExact(w.host.disk, rq.maxDisk, fs);
    forall j | 0 <= j < |w'.out| ensures Complete(w'.out[j], w'.host) {
      if j < |w.out| { assert Complete(w.out[j], w.host); }
    }
  }

  lemma RefusedCounters(w: World, rq: AllocRequest, fs: Option<DiskResource.Statfs>, hs: seq<Handle>)
    requires !Decide(w.host, rq, fs).Granted?
    ensures var w' := Next(w, Start(rq, fs, hs));
      w'.host.cpu == w.host.cpu && w'.host.disk == w.host.disk && w'.out == w.out
  {
    if Decide(w.host, rq, fs).NoDisk? {
      CpuResource.GrantRelease(w.host.cpu, CpuResource.CPUAllocated(rq.maxCPU, rq.maxMem));
    }
  }

  lemma FinishCpu(w: World, i: nat)
    requires CountersConserved(w) && i < |w.out|
    ensures var c := Next(w, Finish(i)).host.cpu;
      && c.allocCores == Total(Cores, Without(w.out, i)) % TWO64
      && c.allocMem == Total(Mem, Without(w.out, i)) % TWO64
      && c.initErr == w.host.cpu.initErr
  {
    var a := w.out[i];
    assert Complete(a, w.host);
    TotalWithout(Cores, w.out, i);
    TotalWithout(Mem, w.out, i);
    SubtractSummand(Total(Cores, w.out), a.cpu.value.cores);
    SubtractSummand(Total(Mem, w.out), a.cpu.value.mem);
  }

  lemma FinishDisk(w: World, i: nat)
    requires CountersConserved(w) && i < |w.out|
    ensures var r := DiskResource.Release(w.host.disk, w.out[i].disk.value);
      && r.1.None? && r.0.allocSpace == Total(Space, Without(w.out, i))
      && r.0.(allocSpace := w.host.disk.allocSpace) == w.host.disk
  {
    assert Complete(w.out[i], w.host);
    TotalWithout(Space, w.out, i);
  }

  lemma FinishCounters(w: World, i: nat)
    requires CountersConserved(w) && i < |w.out|
    ensures CountersConserved(Next(w, Finish(i)))
    ensures DiskResource.Release(w.host.disk, w.out[i].disk.value).1.None?
  {
    FinishCpu(w, i);
    FinishDisk(w, i);
    var w' := Next(w, Finish(i));
    forall j | 0 <= j < |w'.out| ensures Complete(w'.out[j], w'.host) {
      assert Complete(w.out[if j < i then j else j + 1], w.host);
    }
  }

  /** Conservation, one step: what any event of any job leaves. */
  lemma StepConserves(w: World, e: Event)
    requires Conserved(w) && Enabled(w, e)
    ensures Conserved(Next(w, e))
  {
    StepCards(w, e);
    match e
    case Start(rq, fs, hs) =>
      if Decide(w.host, rq, fs).Granted? {
        GrantedCounters(w, rq, fs, hs);
      } else {
        RefusedCounters(w, rq, fs, hs);
      }
    case Finish(i) => FinishCounters(w, i);
    case _ =>
  }

  /** A host as it starts: limits set, nothing handed out. */
  ghost predicate Idle(m: Host) {
    && Keyed(m.cards) && (forall k | k in m.cards :: !m.cards[k].busy && m.cards[k].tracking == {})
    && m.cpu.allocCores == 0 && m.cpu.allocMem == 0 && m.disk.allocSpace == 0
  }

  function Initial(m: Host): World { World(m, [], multiset{}, {}) }

  /** Conservation over every run of every number of jobs. */
  lemma RunsConserve(m: Host, es: seq<Event>)
    requires Idle(m) && IsRun(SYSTEM, Initial(m), es)
    ensures Conserved(End(SYSTEM, Initial(m), es))
  {
    forall w, e | Conserved(w) && SYSTEM.enabled(w, e) ensures Conserved(SYSTEM.next(w, e)) { StepConserves(w, e); }
    InvariantOfRuns(SYSTEM, Conserved, Initial(m), es);
  }

  ghost predicate Reachable(w: World) { exists m :: Idle(m) && Reaches(SYSTEM, Initial(m), w) }

  lemma ReachableConserves(w: World)
    requires Reachable(w)
    ensures Conserved(w)
  {
    var m :| Idle(m) && Reaches(SYSTEM, Initial(m), w);
    var es :| IsRun(SYSTEM, Initial(m), es) && End(SYSTEM, Initial(m), es) == w;
    RunsConserve(m, es);
  }

  /** In a reachable world the release of a running job never fails in any part. */
  lemma FinishIsClean(w: World, i: nat)
    requires Reachable(w) && i < |w.out|
    ensures ReleaseErrors(w.host, w.out[i]) == []
  {
    ReachableConserves(w);
    FinishCards(w, i);
    FinishCounters(w, i);
    assert Complete(w.out[i], w.host);
  }

  // Exclusivity

  lemma {:induction false} InOutBag(out: seq<Allocated>, i: nat, a: nat)
    requires i < |out| && a < |out[i].gpu|
    ensures out[i].gpu[a] in OutBag(out)
  {
    CountWithout(out, i, out[i].gpu[a]);
    BagCounts(out[i].gpu, out[i].gpu[a]);
  }

  lemma {:induction false} TwiceInBag(hs: seq<Handle>, a: nat, b: nat)
    requires a < b < |hs| && hs[a] == hs[b]
    ensures Bag(hs)[hs[a]] >= 2
  {
    var front := hs[..|hs|-1];
    if b == |hs| - 1 {
      BagCounts(front, front[a]);
    } else {
      TwiceInBag(front, a, b);
    }
  }

  lemma TwoJobs(out: seq<Allocated>, i: nat, j: nat, b: nat, h: Handle)
    requires i < j < |out| && b < |out[j].gpu| && out[j].gpu[b] == h && h in out[i].gpu
    ensures OutBag(out)[h] >= 2
  {
    CountWithout(out, i, h);
    BagCounts(out[i].gpu, h);
    InOther(out, i, j, b);
  }

  lemma InOther(out: seq<Allocated>, i: nat, j: nat, b: nat)
    requires i < j < |out| && b < |out[j].gpu|
    ensures out[j].gpu[b] in OutBag(Without(out, i))
  {
    var rest := Without(out, i);
    assert rest[j-1] == out[j];
    InOutBag(rest, j - 1, b);
  }

  lemma TwoPlaces(out: seq<Allocated>, i: nat, a: nat, j: nat, b: nat)
    requires i < |out| && a < |out[i].gpu| && j < |out| && b < |out[j].gpu|
    requires (i < j || (i == j && a < b)) && out[i].gpu[a] == out[j].gpu[b]
    ensures OutBag(out)[out[i].gpu[a]] >= 2
  {
    if i == j {
      CountWithout(out, i, out[i].gpu[a]);
      TwiceInBag(out[i].gpu, a, b);
    } else {
      TwoJobs(out, i, j, b, out[i].gpu[a]);
    }
  }

  /** No card is in two outstanding allocations, nor twice in one. */
  lemma NoCardTwice(w: World, i: nat, a: nat, j: nat, b: nat)
    requires Reachable(w)
    requires i < |w.out| && a < |w.out[i].gpu| && j < |w.out| && b < |w.out[j].gpu|
    requires i < j || (i == j && a < b)
    ensures w.out[i].gpu[a].uuid != w.out[j].gpu[b].uuid
  {
    ReachableConserves(w);
    var g, h := w.out[i].gpu[a], w.out[j].gpu[b];
    InOutBag(w.out, i, a);
    InOutBag(w.out, j, b);
    if g.uuid == h.uuid {
      OneHandlePerCard(w.host.cards, Held(w), g, h);
      TwoPlaces(w.out, i, a, j, b);
    }
  }

  /** A card is busy exactly when one held handle carries the tracking id recorded on it. */
  lemma BusyMeansHeld(w: World, k: string)
    requires CardsConserved(w) && k in w.host.cards
    ensures var c := w.host.cards[k];
      c.busy <==> exists h :: h in Held(w) && h.uuid == k && c.tracking == {h.tracking}
  {
    var c := w.host.cards[k];
    if c.busy {
      var t :| t in c.tracking;
      assert Handle(t, k, c.slots, c.mem) in Held(w);
    }
  }

  // Limits

  /** The unsigned sums the CPU check makes do not carry. */
  predicate NoCarry(w: World, e: Event) {
    e.Start? ==> e.rq.maxCPU + w.host.cpu.allocCores < TWO64 && e.rq.maxMem + w.host.cpu.allocMem < TWO64
  }

  ghost predicate WithinLimits(w: World) {
    Total(Cores, w.out) <= w.host.cpu.softMaxCores && Total(Mem, w.out) <= w.host.cpu.softMaxMem
  }

  ghost predicate Bound(w: World) { Conserved(w) && WithinLimits(w) }

  lemma PlainSums(w: World)
    requires Bound(w)
    ensures w.host.cpu.allocCores == Total(Cores, w.out) <= w.host.cpu.softMaxCores
    ensures w.host.cpu.allocMem == Total(Mem, w.out) <= w.host.cpu.softMaxMem
  {
  }

  /** A grant keeps cores and memory within their limits exactly when the sums checked do not carry. */
  lemma GrantWithinLimits(w: World, e: Event)
    requires Conserved(w) && WithinLimits(w) && e.Start? && Decide(w.host, e.rq, e.fs).Granted?
    ensures WithinLimits(Next(w, e)) <==> NoCarry(w, e)
  {
    PlainSums(w);
    assert Next(w, e).out[..|w.out|] == w.out;
    CheckedSum(e.rq.maxCPU, w.host.cpu.allocCores, w.host.cpu.softMaxCores);
    CheckedSum(e.rq.maxMem, w.host.cpu.allocMem, w.host.cpu.softMaxMem);
  }

  lemma CheckedSum(x: u64, y: u64, limit: u64)
    requires Add64(x, y) <= limit
    ensures x + y <= limit <==> x + y < TWO64
  {
  }

  lemma StepWithinLimits(w: World, e: Event)
    requires Conserved(w) && WithinLimits(w) && Enabled(w, e) && NoCarry(w, e)
    ensures WithinLimits(Next(w, e))
  {
    if e.Start? && Decide(w.host, e.rq, e.fs).Granted? {
      GrantWithinLimits(w, e);
    } else if e.Finish? {
      TotalWithout(Cores, w.out, e.i);
      TotalWithout(Mem, w.out, e.i);
    }
  }

  ghost const BOUNDED: Machine<World, Event> := Machine((w, e) => Enabled(w, e) && NoCarry(w, e), Next)

  /** Over every run without a carry the counters are the plain sums and never exceed the limits. */
  lemma RunsWithinLimits(m: Host, es: seq<Event>)
    requires Idle(m) && IsRun(BOUNDED, Initial(m), es)
    ensures var w := End(BOUNDED, Initial(m), es);
      && w.host.cpu.allocCores == Total(Cores, w.out) <= w.host.cpu.softMaxCores
      && w.host.cpu.allocMem == Total(Mem, w.out) <= w.host.cpu.softMaxMem
  {
    forall w, e | Bound(w) && BOUNDED.enabled(w, e) ensures Bound(BOUNDED.next(w, e)) {
      StepConserves(w, e);
      StepWithinLimits(w, e);
    }
    InvariantOfRuns(BOUNDED, Bound, Initial(m), es);
    PlainSums(End(BOUNDED, Initial(m), es));
  }

  /**
   * A grant of disk space keeps what all jobs have been given within the space on offer exactly when the
   * space left to unprivileged users is not below the headroom.
   */
  lemma GrantWithinHeadroom(w: World, e: Event)
    requires Conserved(w) && e.Start? && e.fs.Some? && e.rq.maxDisk > 0 && Decide(w.host, e.rq, e.fs).Granted?
    ensures Total(Space, Next(w, e).out) <= DiskResource.Headroom(w.host.disk, e.fs.value)
            <==> w.host.disk.minFree <= Mul64(e.fs.value.bavail, e.fs.value.bsize)
  {
    assert Next(w, e).out[..|w.out|] == w.out;
    DiskResource.GrantWithinHeadroom(w.host.disk, e.rq.maxDisk, e.fs.value);
  }

  /** No answer of the file system leaves the headroom to root alone, or offers more than `most`. */
  predicate Offers(m: Host, most: nat, e: Event) {
    e.Start? && e.fs.Some? ==>
      !DiskResource.RootOnly(m.disk, e.fs.value) && DiskResource.Headroom(m.disk, e.fs.value) <= most
  }

  ghost function Offering(m: Host, most: nat): Machine<World, Event> {
    Machine((w, e) => Enabled(w, e) && Offers(m, most, e), Next)
  }

  ghost predicate WithinHeadroom(m: Host, most: nat, w: World) {
    Conserved(w) && SameLimits(m, w.host) && Total(Space, w.out) <= most
  }

  lemma StepWithinHeadroom(m: Host, most: nat, w: World, e: Event)
    requires WithinHeadroom(m, most, w) && Enabled(w, e) && Offers(m, most, e)
    ensures WithinHeadroom(m, most, Next(w, e))
  {
    StepConserves(w, e);
    StepLimits(m, w, e);
    if e.Start? && Decide(w.host, e.rq, e.fs).Granted? {
      GrantedSpace(m, most, w, e);
    } else if e.Finish? {
      TotalWithout(Space, w.out, e.i);
    }
  }

  lemma GrantedSpace(m: Host, most: nat, w: World, e: Event)
    requires WithinHeadroom(m, most, w) && Offers(m, most, e) && e.Start? && Decide(w.host, e.rq, e.fs).Granted?
    ensures Total(Space, Next(w, e).out) <= most
  {
    if e.rq.maxDisk == 0 {
      TotalLast(Space, w.out, Full(w.host, e.rq, e.hs));
    } else {
      assert e.fs.Some?;
      assert m.disk.minFree == w.host.disk.minFree;
      GrantWithinHeadroom(w, e);
    }
  }

  /**
   * Over every run in which the file system never leaves the headroom to root alone, however its answers
   * change, the jobs together never have more space than the most it ever offered.
   */
  lemma RunsWithinHeadroom(m: Host, most: nat, es: seq<Event>)
    requires Idle(m) && IsRun(Offering(m, most), Initial(m), es)
    ensures Total(Space, End(Offering(m, most), Initial(m), es).out) <= most
  {
    var inv, offering := w => WithinHeadroom(m, most, w), Offering(m, most);
    assert inv(Initial(m));
    forall w, e | inv(w) && offering.enabled(w, e) ensures inv(offering.next(w, e)) {
      StepWithinHeadroom(m, most, w, e);
    }
    InvariantOfRuns(offering, inv, Initial(m), es);
  }

  // What a whole run gives back

  /** Same cards and limits as `m`; ECC marks may have been added. */
  ghost predicate SameInventory(m: Host, w: World) {
    && w.host.cards.Keys == m.cards.Keys
    && (forall k | k in m.cards :: SameCard(m.cards[k], w.host.cards[k]))
    && SameLimits(m, w.host)
  }

  predicate SameLimits(m: Host, n: Host) {
    && n.cpu.(allocCores := m.cpu.allocCores, allocMem := m.cpu.allocMem) == m.cpu
    && n.disk.(allocSpace := m.disk.allocSpace, initErr := m.disk.initErr) == m.disk
  }

  predicate SameCard(c: Track, d: Track) {
    && d.(busy := c.busy, tracking := c.tracking, eccFailure := c.eccFailure) == c
    && (c.eccFailure.Some? ==> d.eccFailure == c.eccFailure)
  }

  lemma StartCard(w: World, rq: AllocRequest, fs: Option<DiskResource.Statfs>, hs: seq<Handle>, k: string)
    requires k in w.host.cards
    ensures var cards := AllocLive(w.host, rq, fs, hs).cards;
      cards.Keys == w.host.cards.Keys && SameCard(w.host.cards[k], cards[k])
  {
    GrantKeys(w.host.cards, hs);
    GrantFrame(w.host.cards, hs, k);
    ReturnKeys(Grant(w.host.cards, hs), hs);
    ReturnFrame(Grant(w.host.cards, hs), hs, k);
  }

  /** No event takes a card out of service, changes what it is, or clears an ECC mark. */
  lemma StepCard(w: World, e: Event, k: string)
    requires Keyed(w.host.cards) && k in w.host.cards
    ensures Next(w, e).host.cards.Keys == w.host.cards.Keys && SameCard(w.host.cards[k], Next(w, e).host.cards[k])
  {
    match e
    case Start(rq, fs, hs) => StartCard(w, rq, fs, hs, k);
    case Finish(i) =>
      if i < |w.out| {
        ReturnKeys(w.host.cards, w.out[i].gpu);
        ReturnFrame(w.host.cards, w.out[i].gpu, k);
      }
    case _ =>
  }

  lemma StartEffect(m: Host, rq: AllocRequest, fs: Option<DiskResource.Statfs>, hs: seq<Handle>)
    ensures var m' := AllocLive(m, rq, fs, hs);
      m'.cards == m.cards || m'.cards == Grant(m.cards, hs) || m'.cards == ReturnAll(Grant(m.cards, hs), hs)
  {
  }

  lemma StartKeys(w: World, rq: AllocRequest, fs: Option<DiskResource.Statfs>, hs: seq<Handle>)
    requires Keyed(w.host.cards)
    ensures Next(w, Start(rq, fs, hs)).host.cards.Keys == w.host.cards.Keys
  {
    GrantKeys(w.host.cards, hs);
    ReturnKeys(Grant(w.host.cards, hs), hs);
    StartEffect(w.host, rq, fs, hs);
  }

  lemma StepKeys(w: World, e: Event)
    requires Keyed(w.host.cards)
    ensures Next(w, e).host.cards.Keys == w.host.cards.Keys
  {
    match e
    case Start(rq, fs, hs) => StartKeys(w, rq, fs, hs);
    case Finish(i) => if i < |w.out| { ReturnKeys(w.host.cards, w.out[i].gpu); }
    case _ =>
  }

  lemma StepLimits(m: Host, w: World, e: Event)
    requires SameLimits(m, w.host)
    ensures SameLimits(m, Next(w, e).host)
  {
  }

  lemma StepInventory(m: Host, w: World, e: Event)
    requires SameInventory(m, w) && Keyed(w.host.cards)
    ensures SameInventory(m, Next(w, e))
  {
    StepLimits(m, w, e);
    StepKeys(w, e);
    forall k | k in m.cards ensures SameCard(m.cards[k], Next(w, e).host.cards[k]) { StepCard(w, e, k); }
  }

  ghost predicate FromStart(m: Host, w: World) { Conserved(w) && SameInventory(m, w) }

  predicate FreeAgain(m: Host, w: World, k: string) {
    k in m.cards && k in w.host.cards && w.host.cards[k] == m.cards[k].(eccFailure := w.host.cards[k].eccFailure)
  }

  /** Some start, granted or refused later on, picked the card. */
  predicate PickedIn(es: seq<Event>, k: string)
    decreases |es|
  {
    es != [] && (PicksCard(es[0], k) || PickedIn(es[1..], k))
  }

  predicate PicksCard(e: Event, k: string) { e.Start? && exists h :: h in e.hs && h.uuid == k }

  ghost predicate HeldFor(w: World, k: string) { exists h :: h in Held(w) && h.uuid == k }

  /** What an event leaves held: a handle without slots, once held, stays so. */
  lemma StepHeld(w: World, e: Event, h: Handle)
    requires Enabled(w, e) && h.slots == 0
    ensures h in Held(Next(w, e)) <==> h in Held(w) || (e.Start? && h in e.hs)
  {
    match e
    case Start(rq, fs, hs) =>
      BagCounts(hs, h);
      SlottedCounts(hs, h);
      if Decide(w.host, rq, fs).Granted? { GrantedHeld(w, rq, fs, hs); } else { RefusedHeld(w, rq, fs, hs); }
    case Finish(i) =>
      FinishHeld(w, i);
      SlottedCounts(w.out[i].gpu, h);
    case _ =>
  }

  lemma SlotlessHandle(w: World, e: Event, k: string, h: Handle)
    requires CardsConserved(w) && Enabled(w, e) && k in w.host.cards && w.host.cards[k].slots == 0 && h.uuid == k
    requires h in Held(w) || (e.Start? && h in e.hs)
    ensures h.slots == 0
  {
    if h in Held(w) { assert Describes(h, w.host.cards); }
  }

  lemma StepHeldFor(w: World, e: Event, k: string)
    requires Conserved(w) && Enabled(w, e) && k in w.host.cards && w.host.cards[k].slots == 0
    ensures HeldFor(Next(w, e), k) <==> HeldFor(w, k) || PicksCard(e, k)
  {
    var w' := Next(w, e);
    StepConserves(w, e);
    StepCard(w, e, k);
    if HeldFor(w', k) {
      var h :| h in Held(w') && h.uuid == k;
      assert Describes(h, w'.host.cards);
      StepHeld(w, e, h);
    }
    forall h: Handle | h.uuid == k && (h in Held(w) || (e.Start? && h in e.hs)) ensures h in Held(w') {
      SlotlessHandle(w, e, k, h);
      StepHeld(w, e, h);
    }
  }

  /** A card without slots is held at the end of a run exactly when it was at the start or was picked since. */
  lemma {:induction false} RunHeldFor(w: World, es: seq<Event>, k: string)
    requires Conserved(w) && IsRun(SYSTEM, w, es) && k in w.host.cards && w.host.cards[k].slots == 0
    ensures HeldFor(End(SYSTEM, w, es), k) <==> HeldFor(w, k) || PickedIn(es, k)
    decreases |es|
  {
    if es != [] {
      StepConserves(w, es[0]);
      StepCard(w, es[0], k);
      StepHeldFor(w, es[0], k);
      RunHeldFor(Next(w, es[0]), es[1..], k);
    }
  }

  /** Everything is as it started, up to ECC marks, except exactly the cards without slots that were picked. */
  ghost predicate Restored(m: Host, es: seq<Event>, w: World) {
    && w.host.cpu == m.cpu && w.host.disk.(initErr := m.disk.initErr) == m.disk
    && w.host.cards.Keys == m.cards.Keys
    && (forall k | k in m.cards :: FreeAgain(m, w, k) <==> m.cards[k].slots != 0 || !PickedIn(es, k))
  }

  lemma DrainedCard(m: Host, w: World, k: string)
    requires Idle(m) && FromStart(m, w) && w.out == [] && k in m.cards
    ensures FreeAgain(m, w, k) <==> !HeldFor(w, k)
    ensures HeldFor(w, k) ==> m.cards[k].slots == 0
  {
    assert Held(w) == w.lost;
    assert SameCard(m.cards[k], w.host.cards[k]);
    BusyMeansHeld(w, k);
  }

  /**
   * Once every job has released, cores, memory and disk are back where they started, and a card is back
   * up to ECC marks exactly when it has slots or was never picked.
   */
  lemma RunsDrain(m: Host, es: seq<Event>)
    requires Idle(m) && IsRun(SYSTEM, Initial(m), es) && End(SYSTEM, Initial(m), es).out == []
    ensures Restored(m, es, End(SYSTEM, Initial(m), es))
  {
    var inv := w => FromStart(m, w);
    forall w, e | inv(w) && SYSTEM.enabled(w, e) ensures inv(SYSTEM.next(w, e)) {
      StepConserves(w, e);
      StepInventory(m, w, e);
    }
    InvariantOfRuns(SYSTEM, inv, Initial(m), es);
    var w := End(SYSTEM, Initial(m), es);
    forall k | k in m.cards ensures FreeAgain(m, w, k) <==> m.cards[k].slots != 0 || !PickedIn(es, k) {
      DrainedCard(m, w, k);
      if m.cards[k].slots == 0 { RunHeldFor(Initial(m), es, k); }
    }
  }

  // Failed cards and spent handles

  /** A card marked failed stays failed and is never granted again: its holders are only ever old ones. */
  lemma FailedNeverGranted(w0: World, k: string, es: seq<Event>)
    requires Conserved(w0) && k in w0.host.cards && w0.host.cards[k].eccFailure.Some? && IsRun(SYSTEM, w0, es)
    ensures var w := End(SYSTEM, w0, es);
      && k in w.host.cards && w.host.cards[k].eccFailure == w0.host.cards[k].eccFailure
      && forall h | h in Held(w) && h.uuid == k :: h in Held(w0)
  {
    var inv := w => Conserved(w) && StillFailed(w0, k, w);
    forall w, e | inv(w) && SYSTEM.enabled(w, e) ensures inv(SYSTEM.next(w, e)) {
      StepConserves(w, e);
      StepStillFailed(w0, k, w, e);
    }
    InvariantOfRuns(SYSTEM, inv, w0, es);
  }

  /** Once a card is marked failed, by the first error it was marked with, it is never granted again. */
  lemma MarkedNeverGranted(w: World, k: string, devErr: string, es: seq<Event>)
    requires Conserved(w) && k in w.host.cards && IsRun(SYSTEM, w, [Ecc(k, devErr)] + es)
    ensures var w' := End(SYSTEM, w, [Ecc(k, devErr)] + es);
      && k in w'.host.cards
      && w'.host.cards[k].eccFailure == FirstOf(w.host.cards[k].eccFailure, devErr)
      && forall h | h in Held(w') && h.uuid == k :: h in Held(w)
  {
    var marked := Next(w, Ecc(k, devErr));
    assert ([Ecc(k, devErr)] + es)[1..] == es;
    StepConserves(w, Ecc(k, devErr));
    assert Held(marked) == Held(w);
    FailedNeverGranted(marked, k, es);
  }

  ghost predicate StillFailed(w0: World, k: string, w: World) {
    && k in w0.host.cards && w0.host.cards[k].eccFailure.Some?
    && k in w.host.cards && w.host.cards[k].eccFailure == w0.host.cards[k].eccFailure
    && forall h | h in Held(w) && h.uuid == k :: h in Held(w0)
  }

  lemma StepStillFailed(w0: World, k: string, w: World, e: Event)
    requires StillFailed(w0, k, w) && Conserved(w) && Enabled(w, e)
    ensures StillFailed(w0, k, Next(w, e))
  {
    StepCard(w, e, k);
    forall h | h in Held(Next(w, e)) && h.uuid == k ensures h in Held(w) { StepHolder(w, e, h); }
  }

  /** A card that gains a holder had no ECC failure. */
  lemma StepHolder(w: World, e: Event, h: Handle)
    requires Enabled(w, e) && h in Held(Next(w, e))
    ensures h in Held(w) || (h.uuid in w.host.cards && w.host.cards[h.uuid].eccFailure.None? && h.tracking !in w.issued)
  {
    match e
    case Start(rq, fs, hs) =>
      if Decide(w.host, rq, fs).Granted? { GrantedHeld(w, rq, fs, hs); } else { RefusedHeld(w, rq, fs, hs); }
      BagCounts(hs, h);
    case Finish(i) => FinishHeld(w, i);
    case _ =>
  }

  /** A handle once spent is never in force again, so it is rejected ever after. */
  lemma SpentStaysSpent(w0: World, t: string, es: seq<Event>)
    requires Conserved(w0) && Spent(t, w0) && IsRun(SYSTEM, w0, es)
    ensures var w := End(SYSTEM, w0, es);
      && Spent(t, w)
      && forall h: Handle | h.tracking == t ::
           ReturnOne(w.host.cards, h).0 == w.host.cards && (h.slots != 0 ==> ReturnOne(w.host.cards, h).1.Some?)
  {
    var inv := w => Conserved(w) && Spent(t, w);
    forall w, e | inv(w) && SYSTEM.enabled(w, e) ensures inv(SYSTEM.next(w, e)) {
      StepConserves(w, e);
      StepSpent(t, w, e);
    }
    InvariantOfRuns(SYSTEM, inv, w0, es);
    var w := End(SYSTEM, w0, es);
    forall h: Handle | h.tracking == t
      ensures ReturnOne(w.host.cards, h).0 == w.host.cards && (h.slots != 0 ==> ReturnOne(w.host.cards, h).1.Some?)
    {
      StaleHandleRejected(w.host.cards, Held(w), h);
    }
  }

  ghost predicate Spent(t: string, w: World) {
    t in w.issued && forall h | h in Held(w) :: h.tracking != t
  }

  lemma StepSpent(t: string, w: World, e: Event)
    requires Spent(t, w) && Enabled(w, e)
    ensures Spent(t, Next(w, e))
  {
    forall h | h in Held(Next(w, e)) ensures h.tracking != t { StepHolder(w, e, h); }
  }

  /** A job that starts and finishes leaves the cards as they were exactly when each it got has slots. */
  lemma StartFinish(w: World, rq: AllocRequest, fs: Option<DiskResource.Statfs>, hs: seq<Handle>)
    requires CardsConserved(w) && Enabled(w, Start(rq, fs, hs)) && Decide(w.host, rq, fs).Granted?
    ensures var w' := Next(Next(w, Start(rq, fs, hs)), Finish(|w.out|));
      w'.out == w.out && (w'.host.cards == w.host.cards <==> forall h | h in hs :: h.slots != 0)
  {
    StartFinishCards(w, rq, fs, hs);
    GrantReturn(w.host.cards, rq.gpu, hs, Held(w));
  }

  lemma StartFinishCards(w: World, rq: AllocRequest, fs: Option<DiskResource.Statfs>, hs: seq<Handle>)
    requires Decide(w.host, rq, fs).Granted?
    ensures var w' := Next(Next(w, Start(rq, fs, hs)), Finish(|w.out|));
      w'.out == w.out && w'.host.cards == ReturnAll(Grant(w.host.cards, hs), hs)
  {
    var a := Full(w.host, rq, hs);
    var w1 := Next(w, Start(rq, fs, hs));
    assert w1.out == w.out + [a] && w1.out[|w.out|] == a && Without(w1.out, |w.out|) == w.out;
    assert w1.host.cards == Grant(w.host.cards, hs);
  }

  // Inputs on which the unconditional statements fail

  /** A host with one card, which has no slots. */
  function OneCard(): Host {
    Host(map["gpu" := Track("gpu", 0, 8, false, None, {})],
         CpuResource.Cpu(0, 0, 4, 4, false), DiskResource.Disk("/", 0, 0, false))
  }

  function ByMemory(): AllocRequest { JobRequest(0, 1, 8, 1, 1, 0) }

  lemma MemoryGranted(hs: seq<Handle>)
    requires hs == [Handle("id", "gpu", 0, 8)]
    ensures Decide(OneCard(), ByMemory(), None).Granted? && ValidGrant(OneCard().cards, ByMemory().gpu, hs)
  {
    assert UsableCards(OneCard().cards, ByMemory().gpu) == {"gpu"};
  }

  /** A card without slots, asked for by memory alone, is not given back by the job that got it. */
  lemma SlotlessCardIsKept() returns (m: Host, e: Event)
    ensures Idle(m) && Enabled(Initial(m), e) && e.Start? && Decide(m, e.rq, e.fs).Granted?
    ensures Next(Next(Initial(m), e), Finish(0)).host.cards != m.cards
  {
    var hs := [Handle("id", "gpu", 0, 8)];
    m, e := OneCard(), Start(ByMemory(), None, hs);
    MemoryGranted(hs);
    assert hs[0] in hs;
    StartFinish(Initial(m), ByMemory(), None, hs);
  }

  /** A host without cards and with four cores, of which some are taken. */
  function Plain(cores: u64): Host {
    Host(map[], CpuResource.Cpu(cores, 0, 4, 4, false), DiskResource.Disk("/", 0, 0, false))
  }

  function CoresOnly(cores: u64): Event { Start(JobRequest(0, 0, 0, cores, 0, 0), None, []) }

  lemma CoresGranted(w: World, taken: u64, cores: u64)
    requires w.host == Plain(taken) && Add64(cores, taken) <= 4
    ensures Enabled(w, CoresOnly(cores)) && Decide(w.host, CoresOnly(cores).rq, None).Granted?
    ensures Next(w, CoresOnly(cores)).host == Plain(Add64(taken, cores))
  {
  }

  /** After a job with one core, a request whose sum carries is granted although it exceeds the limit by far. */
  lemma CarriedGrant() returns (m: Host, a: Event, b: Event)
    ensures Idle(m) && Enabled(Initial(m), a) && WithinLimits(Next(Initial(m), a))
    ensures Enabled(Next(Initial(m), a), b) && !WithinLimits(Next(Next(Initial(m), a), b))
  {
    m, a, b := Plain(0), CoresOnly(1), CoresOnly(TWO64 - 1);
    var w := Next(Initial(m), a);
    CoresGranted(Initial(m), 0, 1);
    StepConserves(Initial(m), a);
    GrantWithinLimits(Initial(m), a);
    CoresGranted(w, 1, TWO64 - 1);
    GrantWithinLimits(w, b);
  }
}
