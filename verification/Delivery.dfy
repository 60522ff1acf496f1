/**
 * internal/runner/objectstore.go: when a call of Fetch returns, with what, and that it always still can, in
 * the cache of ObjStore.
 */
module Delivery {
  import opened Common
  import opened Runs
  import opened ObjStore

  // Returns

  /** A call fails exactly without storage, on a cancelled context, or when it is cancelled after a failed download. */
  lemma FailsExactly(c: Cache, f: nat, step: Step)
    requires Enabled(c, Run(f, step)) && !c.fetchers[f].at.Done?
    ensures Next(c, Run(f, step)).fetchers[f].at == Done(true, None) <==>
      || step.NoStorage?
      || (step.CheckContext? && c.fetchers[f].cancelled)
      || (step.GiveUp? && c.fetchers[f].at.Pausing?)
  {
  }

  /** A call hands its object over exactly by reading it from the cache or by renaming what it downloaded. */
  lemma DeliversExactly(c: Cache, f: nat, step: Step)
    requires Reachable(c) && Enabled(c, Run(f, step)) && !c.fetchers[f].at.Done?
    ensures var h := c.fetchers[f].hash;
      && h in c.origin
      && (Next(c, Run(f, step)).fetchers[f].at == Done(false, Some(c.origin[h]))
          <==> step.Rename? || (step == ReadFile(true) && h in c.files))
  {
    ReachableInv(c);
    assert Delivers(c, c.fetchers[f]);
  }

  /** A call waits exactly when a download of its object is pending or it cannot create the partial file. */
  lemma WaitsExactly(c: Cache, f: nat, step: Step)
    requires Enabled(c, Run(f, step)) && !c.fetchers[f].at.Waiting?
    ensures Next(c, Run(f, step)).fetchers[f].at.Waiting? <==>
      || (step.StatPartial? && c.fetchers[f].hash in c.partial)
      || (step.OpenPartial? && (c.fetchers[f].hash in c.partial || !step.ok))
  {
  }

  /** A partial file starts empty, holds the bytes written so far, and the whole object at the end. */
  lemma PartialGrows(c: Cache, f: nat, step: Step)
    requires Reachable(c) && Enabled(c, Run(f, step))
    ensures var h, c' := c.fetchers[f].hash, Next(c, Run(f, step));
      && h in c.origin
      && (c'.fetchers[f].at.Copying? && step.OpenPartial? ==> h in c'.partial && c'.partial[h] == "")
      && (step.Write? ==> h in c'.partial && c'.partial[h] == Take(c.origin[h], step.size))
      && (step == EndCopy(true) ==> h in c'.partial && c'.partial[h] == c.origin[h])
  {
    ReachableInv(c);
    assert Delivers(c, c.fetchers[f]);
  }

  /** What is cached is handed over without a download. */
  lemma CacheHit(c: Cache, f: nat)
    requires Reachable(c) && f in c.fetchers && c.fetchers[f].at.Top? && c.fetchers[f].hash in c.files
    ensures var h, hit := c.fetchers[f].hash, Next(c, Run(f, StatFile));
      && Enabled(c, Run(f, StatFile)) && Enabled(hit, Run(f, ReadFile(true)))
      && var c' := Next(hit, Run(f, ReadFile(true)));
         && h in c.origin && c'.fetchers[f].at == Done(false, Some(c.origin[h]))
         && c'.files == c.files && c'.partial == c.partial
  {
    FilesAreWhole(c, c.fetchers[f].hash);
  }

  // The directory

  /** Files come only by the rename of a whole download, and go only by the groomer or the clearer. */
  lemma FilesChange(c: Cache, e: Event)
    requires Reachable(c) && Enabled(c, e)
    ensures var h := if e.Run? then c.fetchers[e.f].hash else "";
      Next(c, e).files ==
        if e.Run? && e.step.Rename? then c.files[h := Object(c, h)]
        else if e.GroomRemove? then c.files - {c.doomed.value}
        else if e.ClearFile? then c.files - {e.name}
        else c.files
  {
    if e.Run? { RunFilesChange(c, e.f, e.step); }
  }

  lemma RunFilesChange(c: Cache, f: nat, step: Step)
    requires Reachable(c) && Enabled(c, Run(f, step))
    ensures var h := c.fetchers[f].hash;
      Next(c, Run(f, step)).files == if step.Rename? then c.files[h := Object(c, h)] else c.files
  {
    ReachableInv(c);
    assert Delivers(c, c.fetchers[f]);
  }

  /** What the groomer has still to do. */
  function Rank(c: Cache): nat { 2 * |c.listed| + if c.doomed.None? then 1 else 0 }

  /** Each step of the groomer after listing brings its pass nearer to the end. */
  lemma GroomProgress(c: Cache, e: Event)
    requires Reachable(c) && Enabled(c, e) && (e.GroomSample? || e.GroomSkip? || e.GroomRemove?)
    ensures Rank(Next(c, e)) < Rank(c)
  {
    ReachableListed(c);
  }

  ghost predicate Listed(c: Cache) { c.doomed.Some? ==> c.doomed.value in c.listed }

  /** The groomer makes sure only of names it has listed. */
  lemma ReachableListed(c: Cache)
    requires Reachable(c)
    ensures Listed(c)
  {
    var origin, files :| CacheOf(origin, files) && Reaches(SYSTEM, Opened(origin, files), c);
    var es :| IsRun(SYSTEM, Opened(origin, files), es) && End(SYSTEM, Opened(origin, files), es) == c;
    forall d, e | Listed(d) && SYSTEM.enabled(d, e) ensures Listed(SYSTEM.next(d, e)) { StepListed(d, e); }
    InvariantOfRuns(SYSTEM, Listed, Opened(origin, files), es);
  }

  lemma StepListed(c: Cache, e: Event)
    requires Listed(c) && Enabled(c, e)
    ensures Listed(Next(c, e))
  {
  }

  // Every call can still succeed

  /** Some run leads to a state in which call `f`, never cancelled, has returned `data`. */
  ghost predicate CanReturn(c: Cache, f: nat, h: string, data: string) {
    exists d :: Reaches(SYSTEM, c, d) && Returned(d, f, h, data)
  }

  predicate Returned(c: Cache, f: nat, h: string, data: string) {
    f in c.fetchers && c.fetchers[f] == Fetcher(h, false, Done(false, Some(data)))
  }

  lemma Then(c: Cache, e: Event, f: nat, h: string, data: string)
    requires Enabled(c, e) && CanReturn(Next(c, e), f, h, data)
    ensures CanReturn(c, f, h, data)
  {
    var d :| Reaches(SYSTEM, Next(c, e), d) && Returned(d, f, h, data);
    ReachFrom(SYSTEM, c, e, d);
  }

  ghost predicate Live(c: Cache, f: nat, h: string, data: string) {
    && Inv(c) && f in c.fetchers && c.fetchers[f].hash == h && !c.fetchers[f].cancelled
    && h in c.origin && c.origin[h] == data
  }

  lemma StaysLive(c: Cache, e: Event, f: nat, h: string, data: string)
    requires Live(c, f, h, data) && Enabled(c, e) && e != Run(f, Cancel)
    ensures Live(Next(c, e), f, h, data)
  {
    StepInv(c, e);
  }

  lemma FromRegistered(c: Cache, f: nat, h: string, data: string)
    requires Live(c, f, h, data) && c.fetchers[f].at.Registered?
    ensures CanReturn(c, f, h, data)
  {
    var c' := Next(c, Run(f, Rename));
    ReachSelf(SYSTEM, c');
    assert Returned(c', f, h, data);
    Then(c, Run(f, Rename), f, h, data);
  }

  lemma FromCopied(c: Cache, f: nat, h: string, data: string)
    requires Live(c, f, h, data) && c.fetchers[f].at.Copied?
    ensures CanReturn(c, f, h, data)
  {
    StaysLive(c, Run(f, Register), f, h, data);
    FromRegistered(Next(c, Run(f, Register)), f, h, data);
    Then(c, Run(f, Register), f, h, data);
  }

  lemma FromCopying(c: Cache, f: nat, h: string, data: string)
    requires Live(c, f, h, data) && c.fetchers[f].at.Copying?
    ensures CanReturn(c, f, h, data)
  {
    StaysLive(c, Run(f, EndCopy(true)), f, h, data);
    FromCopied(Next(c, Run(f, EndCopy(true))), f, h, data);
    Then(c, Run(f, EndCopy(true)), f, h, data);
  }

  lemma FromCreate(c: Cache, f: nat, h: string, data: string)
    requires Live(c, f, h, data) && c.fetchers[f].at.Create? && h !in c.partial
    ensures CanReturn(c, f, h, data)
  {
    StaysLive(c, Run(f, OpenPartial(true)), f, h, data);
    FromCopying(Next(c, Run(f, OpenPartial(true))), f, h, data);
    Then(c, Run(f, OpenPartial(true)), f, h, data);
  }

  lemma FromLook(c: Cache, f: nat, h: string, data: string)
    requires Live(c, f, h, data) && c.fetchers[f].at.Look? && h !in c.partial
    ensures CanReturn(c, f, h, data)
  {
    StaysLive(c, Run(f, StatPartial), f, h, data);
    FromCreate(Next(c, Run(f, StatPartial)), f, h, data);
    Then(c, Run(f, StatPartial), f, h, data);
  }

  lemma FromMissed(c: Cache, f: nat, h: string, data: string)
    requires Live(c, f, h, data) && c.fetchers[f].at.Missed? && h !in c.partial
    ensures CanReturn(c, f, h, data)
  {
    StaysLive(c, Run(f, CheckContext), f, h, data);
    FromLook(Next(c, Run(f, CheckContext)), f, h, data);
    Then(c, Run(f, CheckContext), f, h, data);
  }

  lemma FromHit(c: Cache, f: nat, h: string, data: string)
    requires Live(c, f, h, data) && c.fetchers[f].at.Hit? && h !in c.partial
    ensures CanReturn(c, f, h, data)
  {
    var c' := Next(c, Run(f, ReadFile(true)));
    if h in c.files {
      ReachSelf(SYSTEM, c');
      assert Returned(c', f, h, data);
    } else {
      StaysLive(c, Run(f, ReadFile(true)), f, h, data);
      FromMissed(c', f, h, data);
    }
    Then(c, Run(f, ReadFile(true)), f, h, data);
  }

  lemma FromTop(c: Cache, f: nat, h: string, data: string)
    requires Live(c, f, h, data) && c.fetchers[f].at.Top? && h !in c.partial
    ensures CanReturn(c, f, h, data)
  {
    var c' := Next(c, Run(f, StatFile));
    StaysLive(c, Run(f, StatFile), f, h, data);
    if h in c.files { FromHit(c', f, h, data); } else { FromMissed(c', f, h, data); }
    Then(c, Run(f, StatFile), f, h, data);
  }

  lemma FromWait(c: Cache, f: nat, h: string, data: string)
    requires Live(c, f, h, data) && (c.fetchers[f].at.Waiting? || c.fetchers[f].at.Pausing?) && h !in c.partial
    ensures CanReturn(c, f, h, data)
  {
    StaysLive(c, Run(f, Wake), f, h, data);
    FromTop(Next(c, Run(f, Wake)), f, h, data);
    Then(c, Run(f, Wake), f, h, data);
  }

  lemma FromBroken(c: Cache, f: nat, h: string, data: string)
    requires Live(c, f, h, data) && c.fetchers[f].at.Broken?
    ensures CanReturn(c, f, h, data)
  {
    StaysLive(c, Run(f, RemovePartial), f, h, data);
    FromWait(Next(c, Run(f, RemovePartial)), f, h, data);
    Then(c, Run(f, RemovePartial), f, h, data);
  }

  /** From every place, when no other call is downloading the object. */
  lemma FromAnywhere(c: Cache, f: nat, h: string, data: string)
    requires Live(c, f, h, data) && !c.fetchers[f].at.Done? && (c.fetchers[f].at.Owning() || h !in c.partial)
    ensures CanReturn(c, f, h, data)
  {
    match c.fetchers[f].at
    case Top => FromTop(c, f, h, data);
    case Hit => FromHit(c, f, h, data);
    case Missed => FromMissed(c, f, h, data);
    case Look => FromLook(c, f, h, data);
    case Waiting => FromWait(c, f, h, data);
    case Create => FromCreate(c, f, h, data);
    case Copying => FromCopying(c, f, h, data);
    case Copied => FromCopied(c, f, h, data);
    case Registered => FromRegistered(c, f, h, data);
    case Broken => FromBroken(c, f, h, data);
    case Pausing => FromWait(c, f, h, data);
  }

  /** The step by which a call that is downloading comes nearer to giving its partial file up. */
  function Onward(at: ObjStore.At): Step {
    if at.Copying? then EndCopy(false)
    else if at.Broken? then RemovePartial
    else if at.Copied? then Register
    else Rename
  }

  function Left(at: ObjStore.At): nat { if at.Copying? || at.Copied? then 1 else 0 }

  lemma {:induction false} FromBehind(c: Cache, f: nat, h: string, data: string, g: nat)
    requires Live(c, f, h, data) && !c.fetchers[f].at.Done? && !c.fetchers[f].at.Owning()
    requires g in c.fetchers && g != f && c.fetchers[g].hash == h && c.fetchers[g].at.Owning()
    ensures CanReturn(c, f, h, data)
    decreases Left(c.fetchers[g].at)
  {
    var step := Onward(c.fetchers[g].at);
    var c' := Next(c, Run(g, step));
    StaysLive(c, Run(g, step), f, h, data);
    assert c'.fetchers[f] == c.fetchers[f];
    if Left(c.fetchers[g].at) == 1 { FromBehind(c', f, h, data, g); } else { FromAnywhere(c', f, h, data); }
    Then(c, Run(g, step), f, h, data);
  }

  /** Whatever has happened so far, a call that is neither cancelled nor done can still be handed its object. */
  lemma EveryFetchCanSucceed(c: Cache, f: nat)
    requires Reachable(c) && f in c.fetchers && !c.fetchers[f].cancelled && !c.fetchers[f].at.Done?
    ensures var h := c.fetchers[f].hash; h in c.origin && CanReturn(c, f, h, c.origin[h])
  {
    ReachableInv(c);
    var x := c.fetchers[f];
    assert Delivers(c, x);
    if x.at.Owning() || x.hash !in c.partial {
      FromAnywhere(c, f, x.hash, c.origin[x.hash]);
    } else {
      assert x.hash in c.owner.Keys;
      FromBehind(c, f, x.hash, c.origin[x.hash], c.owner[x.hash]);
    }
  }

  /** In particular every object can be fetched, whatever the cache holds at first. */
  lemma FetchDelivers(origin: map<string, string>, files: map<string, string>, f: nat, h: string)
    requires CacheOf(origin, files) && h in origin
    ensures CanReturn(Opened(origin, files), f, h, origin[h])
  {
    var c := Opened(origin, files);
    var c' := Next(c, Begin(f, h));
    StepInv(c, Begin(f, h));
    FromAnywhere(c', f, h, origin[h]);
    Then(c, Begin(f, h), f, h, origin[h]);
  }
}
