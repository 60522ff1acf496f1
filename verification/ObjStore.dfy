/**
 * internal/runner/objectstore.go: many fetchers share one cache directory with a groomer and a clearer.
 * Each event is one file system call, one call on the in memory cache, or one decision between them.
 */
module ObjStore {
  import opened Common
  import opened Runs

  /** Where a call of Fetch is in its loop. */
  datatype At =
    | Top                                        // stat the cached file
    | Hit                                        // it was there: read it
    | Missed                                     // look at the context
    | Look                                       // stat the partial file
    | Waiting                                    // another download is pending, or the open failed
    | Create                                     // open the partial file exclusively
    | Copying                                    // downloading into the partial file
    | Copied                                     // downloaded: register it
    | Registered                                 // rename it to its final name
    | Broken                                     // the download failed: remove the partial file
    | Pausing                                    // before the next attempt
    | Done(failed: bool, data: Option<string>)   // returned, with what the caller was given
  {
    predicate Owning() { Copying? || Copied? || Registered? || Broken? }
  }

  datatype Fetcher = Fetcher(hash: string, cancelled: bool, at: At)

  /**
   * `origin` are the objects by hash.  `known` are the names the in memory cache holds unexpired items
   * for.  `listed` and `doomed` belong to the groomer.  History: `aged` are the names evicted or expired
   * since they were last registered, `owner` the fetcher that created each partial file.
   */
  datatype Cache = Cache(origin: map<string, string>,
                         files: map<string, string>, partial: map<string, string>,
                         known: set<string>, aged: set<string>,
                         fetchers: map<nat, Fetcher>, owner: map<string, nat>,
                         listed: set<string>, doomed: Option<string>)

  /** The steps of one fetcher. */
  datatype Step =
    | Cancel | StatFile | ReadFile(ok: bool) | NoStorage | CheckContext | StatPartial
    | OpenPartial(ok: bool) | Write(size: nat) | EndCopy(ok: bool) | Register | Rename
    | RemovePartial | Wake | GiveUp

  datatype Event =
    | Begin(f: nat, hash: string)
    | Run(f: nat, step: Step)
    | Age(name: string)
    | GroomList
    | GroomSample(name: string)
    | GroomSkip
    | GroomRemove
    | ClearFile(name: string)

  /**
   * File operations on an owned partial file succeed, and what a download writes is the object's bytes
   * in order.
   */
  predicate Ready(c: Cache, x: Fetcher, step: Step) {
    match step
    case Cancel => true
    case StatFile => x.at.Top?
    case ReadFile(_) => x.at.Hit?
    case NoStorage => x.at.Hit?
    case CheckContext => x.at.Missed?
    case StatPartial => x.at.Look?
    case OpenPartial(_) => x.at.Create?
    case Write(size) => x.at.Copying? && x.hash in c.partial && |c.partial[x.hash]| <= size
    case EndCopy(_) => x.at.Copying?
    case Register => x.at.Copied?
    case Rename => x.at.Registered?
    case RemovePartial => x.at.Broken?
    case Wake => x.at.Waiting? || x.at.Pausing?
    case GiveUp => x.cancelled && (x.at.Waiting? || x.at.Pausing?)
  }

  predicate Enabled(c: Cache, e: Event) {
    match e
    case Begin(f, hash) => f !in c.fetchers && hash in c.origin
    case Run(f, step) => f in c.fetchers && Ready(c, c.fetchers[f], step)
    case Age(name) => name in c.known
    case GroomList => c.doomed.None?
    case GroomSample(name) => name in c.listed && c.doomed.None?
    case GroomSkip => c.doomed.Some? && c.doomed.value !in c.files
    case GroomRemove => c.doomed.Some?
    case ClearFile(_) => true
  }

  function Take(s: string, n: nat): string { if n <= |s| then s[..n] else s }

  function Object(c: Cache, hash: string): string { if hash in c.origin then c.origin[hash] else "" }

  /** The place a step takes its fetcher to. */
  function Goto(c: Cache, x: Fetcher, step: Step): At {
    match step
    case Cancel => x.at
    case StatFile => if x.hash in c.files then Hit else Missed
    case ReadFile(ok) => if ok && x.hash in c.files then Done(false, Some(c.files[x.hash])) else Missed
    case NoStorage => Done(true, None)
    case CheckContext => if x.cancelled then Done(true, None) else Look
    case StatPartial => if x.hash in c.partial then Waiting else Create
    case OpenPartial(ok) => if ok && x.hash !in c.partial then Copying else Waiting
    case Write(_) => Copying
    case EndCopy(ok) => if ok then Copied else Broken
    case Register => Registered
    case Rename => Done(false, Some(Object(c, x.hash)))
    case RemovePartial => Pausing
    case Wake => Top
    // A waiter that is cancelled returns the outer error, which is nil.
    case GiveUp => Done(x.at.Pausing?, None)
  }

  /** What a step does to the directory and the in memory cache. */
  function Effect(c: Cache, f: nat, x: Fetcher, step: Step): Cache {
    var h := x.hash;
    match step
    case OpenPartial(ok) =>
      if ok && h !in c.partial then c.(partial := c.partial[h := ""], owner := c.owner[h := f]) else c
    case Write(size) => c.(partial := c.partial[h := Take(Object(c, h), size)])
    case EndCopy(ok) => if ok then c.(partial := c.partial[h := Object(c, h)]) else c
    case Register => c.(known := c.known + {h}, aged := c.aged - {h})
    case Rename =>
      if h !in c.partial then c else
      c.(files := c.files[h := c.partial[h]], partial := c.partial - {h}, owner := c.owner - {h})
    case RemovePartial => c.(partial := c.partial - {h}, owner := c.owner - {h})
    case _ => c
  }

  function Next(c: Cache, e: Event): Cache {
    match e
    case Begin(f, hash) => c.(fetchers := c.fetchers[f := Fetcher(hash, false, Top)])
    case Run(f, step) =>
      if f !in c.fetchers then c else
      var x := c.fetchers[f];
      var x' := Fetcher(x.hash, x.cancelled || step.Cancel?, Goto(c, x, step));
      Effect(c, f, x, step).(fetchers := c.fetchers[f := x'])
    case Age(name) => c.(known := c.known - {name}, aged := c.aged + {name})
    case GroomList => c.(listed := c.files.Keys)
    case GroomSample(name) =>
      if name in c.known then c.(listed := c.listed - {name}) else c.(doomed := Some(name))
    case GroomSkip =>
      if c.doomed.None? then c else c.(listed := c.listed - {c.doomed.value}, doomed := None)
    case GroomRemove =>
      if c.doomed.None? then c else
      c.(files := c.files - {c.doomed.value}, listed := c.listed - {c.doomed.value}, doomed := None)
    case ClearFile(name) => c.(files := c.files - {name})
  }

  const SYSTEM: Machine<Cache, Event> := Machine(Enabled, Next)

  // The invariant, part by part

  /** A partial file exists exactly while the one fetcher that created it still owns it. */
  ghost predicate OneOwner(c: Cache) {
    && c.partial.Keys == c.owner.Keys
    && (forall h | h in c.owner ::
          c.owner[h] in c.fetchers && c.fetchers[c.owner[h]].hash == h && c.fetchers[c.owner[h]].at.Owning())
    && (forall f | f in c.fetchers && c.fetchers[f].at.Owning() ::
          c.fetchers[f].hash in c.owner && c.owner[c.fetchers[f].hash] == f)
  }

  /** Cached files are whole; partial files are whole once downloaded, and beginnings before. */
  ghost predicate Contents(c: Cache) {
    && (forall h | h in c.files :: h in c.origin && c.files[h] == c.origin[h])
    && (forall h | h in c.partial :: h in c.origin && c.partial[h] <= c.origin[h])
    && (forall f | f in c.fetchers :: Delivers(c, c.fetchers[f]))
  }

  ghost predicate Delivers(c: Cache, x: Fetcher) {
    && x.hash in c.origin
    && (x.at.Copied? || x.at.Registered? ==> x.hash in c.partial && c.partial[x.hash] == c.origin[x.hash])
    && (x.at.Done? && !x.at.failed ==> x.at.data == Some(c.origin[x.hash]) || (x.cancelled && x.at.data.None?))
    && (x.at.Done? && x.at.failed ==> x.at.data.None?)
  }

  /** Whatever is or is about to be visible has been registered. */
  ghost predicate Visible(c: Cache) {
    && c.known !! c.aged
    && (forall h | h in c.files || h in c.listed :: h in c.known + c.aged)
    && (forall f | f in c.fetchers && c.fetchers[f].at.Registered? :: c.fetchers[f].hash in c.known + c.aged)
  }

  ghost predicate Inv(c: Cache) { OneOwner(c) && Contents(c) && Visible(c) }

  // Ownership

  lemma OwnerKept(c: Cache, c': Cache, f: nat, x': Fetcher)
    requires OneOwner(c) && f in c.fetchers && c'.fetchers == c.fetchers[f := x']
    requires x'.hash == c.fetchers[f].hash && x'.at.Owning() == c.fetchers[f].at.Owning()
    requires c'.partial.Keys == c.partial.Keys && c'.owner == c.owner
    ensures OneOwner(c')
  {
  }

  lemma OwnerGained(c: Cache, c': Cache, f: nat, x': Fetcher)
    requires OneOwner(c) && f in c.fetchers && c'.fetchers == c.fetchers[f := x']
    requires x'.hash == c.fetchers[f].hash && x'.at.Owning() && !c.fetchers[f].at.Owning()
    requires x'.hash !in c.partial && c'.partial == c.partial[x'.hash := ""] && c'.owner == c.owner[x'.hash := f]
    ensures OneOwner(c')
  {
  }

  lemma OwnerLost(c: Cache, c': Cache, f: nat, x': Fetcher)
    requires OneOwner(c) && f in c.fetchers && c'.fetchers == c.fetchers[f := x']
    requires x'.hash == c.fetchers[f].hash && !x'.at.Owning() && c.fetchers[f].at.Owning()
    requires c'.partial == c.partial - {x'.hash} && c'.owner == c.owner - {x'.hash}
    ensures OneOwner(c')
  {
  }

  lemma RunOwner(c: Cache, f: nat, step: Step)
    requires OneOwner(c) && Enabled(c, Run(f, step))
    ensures OneOwner(Next(c, Run(f, step)))
  {
    var x, c' := c.fetchers[f], Next(c, Run(f, step));
    var x' := c'.fetchers[f];
    if step.OpenPartial? && x'.at.Copying? {
      OwnerGained(c, c', f, x');
    } else if step.Rename? || step.RemovePartial? {
      OwnerLost(c, c', f, x');
    } else {
      OwnerKept(c, c', f, x');
    }
  }

  lemma StepOwner(c: Cache, e: Event)
    requires OneOwner(c) && Enabled(c, e)
    ensures OneOwner(Next(c, e))
  {
    if e.Run? { RunOwner(c, e.f, e.step); }
  }

  // Contents

  /** A fetcher that owns its partial file is not affected by what happens to other names. */
  lemma RunDelivers(c: Cache, f: nat, step: Step, g: nat)
    requires OneOwner(c) && Contents(c) && Enabled(c, Run(f, step)) && g in c.fetchers && g != f
    ensures Delivers(Next(c, Run(f, step)), c.fetchers[g])
  {
    assert Delivers(c, c.fetchers[g]);
    if c.fetchers[f].at.Owning() && c.fetchers[g].at.Owning() {
      assert c.fetchers[f].hash != c.fetchers[g].hash;
    }
  }

  lemma RunDeliversOwn(c: Cache, f: nat, step: Step)
    requires OneOwner(c) && Contents(c) && Enabled(c, Run(f, step))
    ensures Delivers(Next(c, Run(f, step)), Next(c, Run(f, step)).fetchers[f])
  {
    assert Delivers(c, c.fetchers[f]);
  }

  lemma RunFiles(c: Cache, f: nat, step: Step)
    requires OneOwner(c) && Contents(c) && Enabled(c, Run(f, step))
    ensures var c' := Next(c, Run(f, step));
      && (forall h | h in c'.files :: h in c'.origin && c'.files[h] == c'.origin[h])
      && (forall h | h in c'.partial :: h in c'.origin && c'.partial[h] <= c'.origin[h])
  {
    assert Delivers(c, c.fetchers[f]);
  }

  lemma StepContents(c: Cache, e: Event)
    requires OneOwner(c) && Contents(c) && Enabled(c, e)
    ensures Contents(Next(c, e))
  {
    match e
    case Run(f, step) =>
      RunFiles(c, f, step);
      forall g | g in c.fetchers ensures Delivers(Next(c, e), Next(c, e).fetchers[g]) {
        if g == f { RunDeliversOwn(c, f, step); } else { RunDelivers(c, f, step, g); }
      }
    case _ =>
      forall g | g in Next(c, e).fetchers ensures Delivers(Next(c, e), Next(c, e).fetchers[g]) {
        if g in c.fetchers { assert Delivers(c, c.fetchers[g]); }
      }
  }

  // Visibility

  lemma RunVisible(c: Cache, f: nat, step: Step)
    requires Visible(c) && Enabled(c, Run(f, step))
    ensures Visible(Next(c, Run(f, step)))
  {
  }

  lemma StepVisible(c: Cache, e: Event)
    requires Visible(c) && Enabled(c, e)
    ensures Visible(Next(c, e))
  {
    if e.Run? { RunVisible(c, e.f, e.step); }
  }

  // Every run

  lemma StepInv(c: Cache, e: Event)
    requires Inv(c) && Enabled(c, e)
    ensures Inv(Next(c, e))
  {
    StepOwner(c, e);
    StepContents(c, e);
    StepVisible(c, e);
  }

  /** InitObjStore: partial files are cleared and every file found is registered. */
  function Opened(origin: map<string, string>, files: map<string, string>): Cache {
    Cache(origin, files, map[], files.Keys, {}, map[], map[], {}, None)
  }

  lemma RunsKeepInv(origin: map<string, string>, files: map<string, string>, es: seq<Event>)
    requires CacheOf(origin, files)
    requires IsRun(SYSTEM, Opened(origin, files), es)
    ensures Inv(End(SYSTEM, Opened(origin, files), es))
  {
    forall c, e | Inv(c) && SYSTEM.enabled(c, e) ensures Inv(SYSTEM.next(c, e)) { StepInv(c, e); }
    InvariantOfRuns(SYSTEM, Inv, Opened(origin, files), es);
  }

  ghost predicate Reachable(c: Cache) {
    exists origin, files :: CacheOf(origin, files) && Reaches(SYSTEM, Opened(origin, files), c)
  }

  predicate CacheOf(origin: map<string, string>, files: map<string, string>) {
    forall h | h in files :: h in origin && files[h] == origin[h]
  }

  lemma ReachableInv(c: Cache)
    requires Reachable(c)
    ensures Inv(c)
  {
    var origin, files :| CacheOf(origin, files) && Reaches(SYSTEM, Opened(origin, files), c);
    var es :| IsRun(SYSTEM, Opened(origin, files), es) && End(SYSTEM, Opened(origin, files), es) == c;
    RunsKeepInv(origin, files, es);
  }

  /**
   * The ownership protocol: two downloads of one object never overlap; a partial file is there exactly
   * while one fetcher, which has neither returned nor gone back to the top of its loop, owns it.
   */
  lemma OneDownload(c: Cache, h: string)
    requires Reachable(c)
    ensures forall f, g | f in c.fetchers && g in c.fetchers && c.fetchers[f].at.Owning() && c.fetchers[g].at.Owning()
              && c.fetchers[f].hash == c.fetchers[g].hash :: f == g
    ensures h in c.partial <==> exists f :: f in c.fetchers && c.fetchers[f].hash == h && c.fetchers[f].at.Owning()
  {
    ReachableInv(c);
    if h in c.partial {
      assert h in c.owner.Keys;
      assert c.fetchers[c.owner[h]].hash == h;
    }
  }

  /** Nothing is left behind: when every fetcher has returned there are no partial files. */
  lemma NoOrphans(c: Cache)
    requires Reachable(c) && forall f | f in c.fetchers :: c.fetchers[f].at.Done?
    ensures c.partial == map[]
  {
    if h :| h in c.partial {
      OneDownload(c, h);
    }
  }

  /** A name the groomer has listed and finds missing or expired has been registered and aged out since. */
  lemma GroomedHasAged(c: Cache, name: string)
    requires Reachable(c) && Enabled(c, GroomSample(name)) && Next(c, GroomSample(name)).doomed == Some(name)
    ensures name in c.aged && name !in c.known
  {
    ReachableInv(c);
  }

  /** In every reachable state a file under its final name is the object its hash names, and was registered. */
  lemma FilesAreWhole(c: Cache, h: string)
    requires Reachable(c) && h in c.files
    ensures h in c.origin && c.files[h] == c.origin[h] && h in c.known + c.aged
  {
    ReachableInv(c);
  }

  /**
   * In every reachable state every call that returned without error while its context was alive has handed
   * the whole object over.
   */
  lemma ReturnedIsWhole(c: Cache, f: nat)
    requires Reachable(c) && f in c.fetchers && c.fetchers[f].at.Done? && !c.fetchers[f].cancelled
    ensures var x := c.fetchers[f];
      x.hash in c.origin && x.at.data == if x.at.failed then None else Some(c.origin[x.hash])
  {
    ReachableInv(c);
    assert Delivers(c, c.fetchers[f]);
  }

  /** The empty cache with one fetcher in it. */
  function Lone(origin: map<string, string>, x: Fetcher): Cache {
    Opened(origin, map[]).(fetchers := map[0 := x])
  }

  lemma LoneStep(origin: map<string, string>, h: string, x: Fetcher, step: Step, x': Fetcher, d: Cache)
    requires x.hash == x'.hash == h && x'.cancelled == (x.cancelled || step.Cancel?)
    requires step in {Cancel, StatFile, CheckContext, StatPartial, OpenPartial(false), GiveUp}
    requires var c := Lone(origin, x); Ready(c, x, step) && x'.at == Goto(c, x, step)
    requires Reaches(SYSTEM, Lone(origin, x'), d)
    ensures Reaches(SYSTEM, Lone(origin, x), d)
  {
    assert Next(Lone(origin, x), Run(0, step)) == Lone(origin, x');
    ReachFrom(SYSTEM, Lone(origin, x), Run(0, step), d);
  }

  lemma LoneBegin(origin: map<string, string>, h: string, d: Cache)
    requires h in origin && Reaches(SYSTEM, Lone(origin, Fetcher(h, false, Top)), d)
    ensures Reaches(SYSTEM, Opened(origin, map[]), d)
  {
    assert Next(Opened(origin, map[]), Begin(0, h)) == Lone(origin, Fetcher(h, false, Top));
    ReachFrom(SYSTEM, Opened(origin, map[]), Begin(0, h), d);
  }

  /** Cancellation while waiting is reported as success although nothing was delivered. */
  lemma SilentWaiter(origin: map<string, string>, h: string)
    requires h in origin
    ensures Reachable(Lone(origin, Fetcher(h, true, Done(false, None))))
  {
    var d := Lone(origin, Fetcher(h, true, Done(false, None)));
    ReachSelf(SYSTEM, d);
    LoneStep(origin, h, Fetcher(h, true, Waiting), GiveUp, Fetcher(h, true, Done(false, None)), d);
    LoneStep(origin, h, Fetcher(h, false, Waiting), Cancel, Fetcher(h, true, Waiting), d);
    LoneStep(origin, h, Fetcher(h, false, Create), OpenPartial(false), Fetcher(h, false, Waiting), d);
    LoneStep(origin, h, Fetcher(h, false, Look), StatPartial, Fetcher(h, false, Create), d);
    LoneStep(origin, h, Fetcher(h, false, Missed), CheckContext, Fetcher(h, false, Look), d);
    LoneStep(origin, h, Fetcher(h, false, Top), StatFile, Fetcher(h, false, Missed), d);
    LoneBegin(origin, h, d);
    assert CacheOf(origin, map[]);
  }

  /** Call `f` has returned without an error and without the object. */
  predicate Silent(c: Cache, f: nat) { f in c.fetchers && c.fetchers[f].at == Done(false, None) }

  /** The one step that returns so is giving up while waiting, for another download or after a failed open. */
  lemma SilentStep(c: Cache, f: nat, step: Step)
    requires Enabled(c, Run(f, step)) && !c.fetchers[f].at.Done?
    ensures Silent(Next(c, Run(f, step)), f) <==> step.GiveUp? && c.fetchers[f].at.Waiting?
  {
  }

  predicate SilentFor(c: Cache, f: nat, h: string, cancelled: bool) {
    Silent(c, f) && c.fetchers[f].hash == h && c.fetchers[f].cancelled == cancelled
  }

  /** For the caller: a call can return so exactly when its context was cancelled. */
  lemma SilentIffCancelled(origin: map<string, string>, h: string, cancelled: bool)
    requires h in origin
    ensures (exists c, f :: Reachable(c) && c.origin == origin && SilentFor(c, f, h, cancelled)) <==> cancelled
  {
    if cancelled {
      SilentWaiter(origin, h);
      var c := Lone(origin, Fetcher(h, true, Done(false, None)));
      assert Reachable(c) && SilentFor(c, 0, h, true);
    } else {
      forall c, f | Reachable(c) && Silent(c, f) ensures c.fetchers[f].cancelled {
        ReachableInv(c);
        assert Delivers(c, c.fetchers[f]);
      }
    }
  }

  // The groomer and names registered behind its back

  predicate Registers(c: Cache, e: Event, h: string) {
    e.Run? && e.step.Register? && e.f in c.fetchers && c.fetchers[e.f].hash == h
  }

  /** Some event of the run registers the name, and none after that lets it age. */
  predicate RegisteredSince(c: Cache, es: seq<Event>, h: string)
    decreases |es|
  {
    es != [] && (RegisteredSince(Next(c, es[0]), es[1..], h) || (Registers(c, es[0], h) && Age(h) !in es[1..]))
  }

  lemma {:induction false} KnownSince(c: Cache, es: seq<Event>, h: string)
    requires IsRun(SYSTEM, c, es)
    ensures h in End(SYSTEM, c, es).known <==> RegisteredSince(c, es, h) || (h in c.known && Age(h) !in es)
    decreases |es|
  {
    if es != [] {
      KnownSince(Next(c, es[0]), es[1..], h);
      assert es == [es[0]] + es[1..];
    }
  }

  lemma {:induction false} DoomedStays(c: Cache, es: seq<Event>)
    requires IsRun(SYSTEM, c, es) && c.doomed.Some? && GroomRemove !in es && GroomSkip !in es
    ensures End(SYSTEM, c, es).doomed == c.doomed
    decreases |es|
  {
    if es != [] {
      assert es[0] in es;
      DoomedStays(Next(c, es[0]), es[1..]);
    }
  }

  /**
   * A file the groomer found missing from the cache goes, unless it was not there when the groomer made sure
   * of it; by then the cache holds its name again exactly when a download has registered it since.
   */
  lemma RemovedIsKnownIff(c: Cache, name: string, es: seq<Event>)
    requires Enabled(c, GroomSample(name)) && name !in c.known
    requires var looked := Next(c, GroomSample(name)); IsRun(SYSTEM, looked, es)
    requires GroomRemove !in es && GroomSkip !in es
    ensures var looked := Next(c, GroomSample(name)); var last := End(SYSTEM, looked, es);
      && Enabled(last, GroomRemove) && name !in Next(last, GroomRemove).files
      && (name in last.known <==> RegisteredSince(looked, es, name))
  {
    var looked := Next(c, GroomSample(name));
    KnownSince(looked, es, name);
    DoomedStays(looked, es);
  }

  type Objects = map<string, string>

  function Single(h: string, v: Option<string>): Objects { if v.Some? then map[h := v.value] else map[] }

  /** A groomer that has found `h` missing, and perhaps a fetcher that downloads it. */
  function Groomed(origin: Objects, h: string, file: Option<string>, partial: Option<string>,
                   known: bool, x: Option<At>): Cache {
    Cache(origin, Single(h, file), Single(h, partial), if known then {h} else {}, if known then {} else {h},
          if x.Some? then map[0 := Fetcher(h, false, x.value)] else map[],
          if partial.Some? then map[h := 0] else map[], {h}, Some(h))
  }

  lemma GroomedStep(c: Cache, e: Event, c': Cache, d: Cache)
    requires Enabled(c, e) && Next(c, e) == c' && Reaches(SYSTEM, c', d)
    ensures Reaches(SYSTEM, c, d)
  {
    ReachVia(SYSTEM, c, e, c', d);
  }

  lemma GroomedCleared(origin: Objects, h: string, d: Cache)
    requires h in origin && Reaches(SYSTEM, Groomed(origin, h, None, None, false, None), d)
    ensures Reaches(SYSTEM, Groomed(origin, h, Some(origin[h]), None, false, None), d)
  {
    GroomedStep(Groomed(origin, h, Some(origin[h]), None, false, None), ClearFile(h),
                Groomed(origin, h, None, None, false, None), d);
  }

  /** The cache once its one name has aged, and perhaps was listed by the groomer. */
  function Aged(origin: Objects, h: string, listed: set<string>): Cache
    requires h in origin
  {
    Cache(origin, map[h := origin[h]], map[], {}, {h}, map[], map[], listed, None)
  }

  lemma GroomedSampled(origin: Objects, h: string, d: Cache)
    requires h in origin && Reaches(SYSTEM, Groomed(origin, h, Some(origin[h]), None, false, None), d)
    ensures Reaches(SYSTEM, Aged(origin, h, {h}), d)
  {
    GroomedStep(Aged(origin, h, {h}), GroomSample(h), Groomed(origin, h, Some(origin[h]), None, false, None), d);
  }

  lemma GroomedFound(origin: Objects, h: string, d: Cache)
    requires h in origin && Reaches(SYSTEM, Groomed(origin, h, None, None, false, None), d)
    ensures Reaches(SYSTEM, Opened(origin, map[h := origin[h]]), d)
  {
    GroomedCleared(origin, h, d);
    GroomedSampled(origin, h, d);
    GroomedStep(Aged(origin, h, {}), GroomList, Aged(origin, h, {h}), d);
    GroomedStep(Opened(origin, map[h := origin[h]]), Age(h), Aged(origin, h, {}), d);
  }

  /** The steps of a fetcher that only move it. */
  lemma GroomedMove(origin: Objects, h: string, x: At, step: Step, x': At, d: Cache)
    requires step.StatFile? || step.CheckContext? || step.StatPartial?
    requires var c := Groomed(origin, h, None, None, false, Some(x));
      Ready(c, Fetcher(h, false, x), step) && x' == Goto(c, Fetcher(h, false, x), step)
    requires Reaches(SYSTEM, Groomed(origin, h, None, None, false, Some(x')), d)
    ensures Reaches(SYSTEM, Groomed(origin, h, None, None, false, Some(x)), d)
  {
    GroomedStep(Groomed(origin, h, None, None, false, Some(x)), Run(0, step),
                Groomed(origin, h, None, None, false, Some(x')), d);
  }

  lemma GroomedBegun(origin: Objects, h: string, d: Cache)
    requires h in origin && Reaches(SYSTEM, Groomed(origin, h, None, None, false, Some(Create)), d)
    ensures Reaches(SYSTEM, Groomed(origin, h, None, None, false, None), d)
  {
    GroomedMove(origin, h, Look, StatPartial, Create, d);
    GroomedMove(origin, h, Missed, CheckContext, Look, d);
    GroomedMove(origin, h, Top, StatFile, Missed, d);
    GroomedStep(Groomed(origin, h, None, None, false, None), Begin(0, h),
                Groomed(origin, h, None, None, false, Some(Top)), d);
  }

  lemma GroomedCopied(origin: Objects, h: string, d: Cache)
    requires h in origin && Reaches(SYSTEM, Groomed(origin, h, None, Some(origin[h]), false, Some(Copied)), d)
    ensures Reaches(SYSTEM, Groomed(origin, h, None, Some(""), false, Some(Copying)), d)
  {
    GroomedStep(Groomed(origin, h, None, Some(""), false, Some(Copying)), Run(0, EndCopy(true)),
                Groomed(origin, h, None, Some(origin[h]), false, Some(Copied)), d);
  }

  lemma GroomedCreated(origin: Objects, h: string, d: Cache)
    requires h in origin && Reaches(SYSTEM, Groomed(origin, h, None, Some(""), false, Some(Copying)), d)
    ensures Reaches(SYSTEM, Groomed(origin, h, None, None, false, Some(Create)), d)
  {
    GroomedStep(Groomed(origin, h, None, None, false, Some(Create)), Run(0, OpenPartial(true)),
                Groomed(origin, h, None, Some(""), false, Some(Copying)), d);
  }

  lemma GroomedRegistered(origin: Objects, h: string) returns (c: Cache)
    requires h in origin
    ensures Reaches(SYSTEM, Groomed(origin, h, None, Some(origin[h]), false, Some(Copied)), c)
    ensures c.doomed == Some(h) && h in c.known && h in c.files
  {
    var registered := Groomed(origin, h, None, Some(origin[h]), true, Some(Registered));
    c := Groomed(origin, h, Some(origin[h]), None, true, Some(Done(false, Some(origin[h]))));
    ReachSelf(SYSTEM, c);
    GroomedStep(registered, Run(0, Rename), c, c);
    GroomedStep(Groomed(origin, h, None, Some(origin[h]), false, Some(Copied)), Run(0, Register), registered, c);
  }

  /** For every object a state is reachable in which the groomer is about to remove its file, held by the cache. */
  lemma KnownIsDoomed(origin: Objects, h: string) returns (c: Cache)
    requires h in origin
    ensures Reachable(c) && Enabled(c, GroomRemove) && c.doomed == Some(h) && h in c.known && h in c.files
  {
    c := GroomedRegistered(origin, h);
    GroomedCopied(origin, h, c);
    GroomedCreated(origin, h, c);
    GroomedBegun(origin, h, c);
    GroomedFound(origin, h, c);
    assert CacheOf(origin, map[h := origin[h]]);
  }
}
