/**
 * cmd/runner/project.go: one background runner per project.  Cycle starts runners for projects it finds
 * and cancels those it does not; a runner removes its project's entry when it stops, for whatever reason.
 */
module Projects {
  import opened Common
  import opened Runs

  /** A runner is known by its project and by the pass of Cycle that started it. */
  datatype Runner = Runner(proj: string, pass: nat)

  /**
   * `projects` maps a project to the cancel function of a runner, or to nil once that was called.
   * `running` are the runners whose deferred cleanup has not happened, with whether their context was
   * cancelled.  History: the runner each entry was made for.
   */
  datatype Live = Live(projects: map<string, Option<Runner>>, running: map<Runner, bool>, passes: nat,
                       holder: map<string, Runner>)

  function Started(s: Live, found: set<string>): set<Runner> {
    set p | p in found && p !in s.projects :: Runner(p, s.passes)
  }

  /** The runners a pass cancels. */
  predicate Dropped(s: Live, found: set<string>, r: Runner) {
    r.proj !in found && r.proj in s.projects && s.projects[r.proj] == Some(r)
  }

  function Cycled(s: Live, found: set<string>): Live {
    Live(map p | p in s.projects.Keys + found ::
           if p !in found then None else if p in s.projects then s.projects[p] else Some(Runner(p, s.passes)),
         map r | r in s.running.Keys + Started(s, found) :: r in s.running && (s.running[r] || Dropped(s, found, r)),
         s.passes + 1,
         map p | p in s.holder.Keys + found :: if p in s.holder then s.holder[p] else Runner(p, s.passes))
  }

  function Stopped(s: Live, r: Runner): Live {
    s.(projects := s.projects - {r.proj}, running := s.running - {r}, holder := s.holder - {r.proj})
  }

  /** A pass that goes as far as taking the lock, or the cleanup of a runner that has stopped. */
  datatype Event = Cycle(found: set<string>) | Stop(r: Runner)

  predicate Enabled(s: Live, e: Event) { e.Stop? ==> e.r in s.running }

  function Next(s: Live, e: Event): Live {
    match e
    case Cycle(found) => Cycled(s, found)
    case Stop(r) => Stopped(s, r)
  }

  const SYSTEM: Machine<Live, Event> := Machine(Enabled, Next)

  /** Every entry has its one runner, and every runner its entry; nil means cancelled. */
  ghost predicate Inv(s: Live) {
    && s.projects.Keys == s.holder.Keys
    && (forall p | p in s.holder :: s.holder[p].proj == p && s.holder[p] in s.running)
    && (forall r | r in s.running :: r.pass < s.passes && r.proj in s.holder && s.holder[r.proj] == r)
    && (forall p | p in s.projects :: s.projects[p] == if s.running[s.holder[p]] then None else Some(s.holder[p]))
  }

  lemma StepInv(s: Live, e: Event)
    requires Inv(s) && Enabled(s, e)
    ensures Inv(Next(s, e))
  {
    if e.Cycle? { CycleInv(s, e.found); }
  }

  lemma CycleInv(s: Live, found: set<string>)
    requires Inv(s)
    ensures Inv(Cycled(s, found))
  {
  }

  const EMPTY := Live(map[], map[], 0, map[])

  /** Over every interleaving of passes and stopping runners. */
  lemma RunsKeepInv(es: seq<Event>)
    requires IsRun(SYSTEM, EMPTY, es)
    ensures Inv(End(SYSTEM, EMPTY, es))
  {
    forall s, e | Inv(s) && SYSTEM.enabled(s, e) ensures Inv(SYSTEM.next(s, e)) { StepInv(s, e); }
    InvariantOfRuns(SYSTEM, Inv, EMPTY, es);
  }

  ghost predicate Reachable(s: Live) { Reaches(SYSTEM, EMPTY, s) }

  lemma ReachableInv(s: Live)
    requires Reachable(s)
    ensures Inv(s)
  {
    var es :| IsRun(SYSTEM, EMPTY, es) && End(SYSTEM, EMPTY, es) == s;
    RunsKeepInv(es);
  }

  /** A project has an entry exactly when one runner has not done its cleanup, and never two. */
  lemma OneRunner(s: Live, p: string)
    requires Reachable(s)
    ensures p in s.projects <==> exists r :: r in s.running && r.proj == p
    ensures forall r, t | r in s.running && t in s.running && r.proj == t.proj :: r == t
  {
    ReachableInv(s);
    if p in s.projects {
      assert p in s.holder.Keys;
      assert s.holder[p] in s.running;
    }
  }

  /** A cleanup removes the entry made for the runner that stops, and no other. */
  lemma CleanupIsOwn(s: Live, r: Runner)
    requires Reachable(s) && r in s.running
    ensures r.proj in s.projects && (s.projects[r.proj] == Some(r) || s.running[r])
    ensures Stopped(s, r).projects == s.projects - {r.proj}
    ensures forall t | t in s.running && t != r :: t.proj in Stopped(s, r).projects
  {
    ReachableInv(s);
    assert r.proj in s.holder && s.holder[r.proj] == r;
    forall t | t in s.running && t != r ensures t.proj in Stopped(s, r).projects {
      assert t.proj in s.holder.Keys;
    }
  }

  /** After a pass exactly the runners of projects not found, and those cancelled before, are cancelled. */
  lemma CycleCancels(s: Live, found: set<string>)
    requires Reachable(s)
    ensures var s' := Cycled(s, found);
      && (forall r | r in s'.running :: s'.running[r] <==> r.proj !in found || (r in s.running && s.running[r]))
      && (forall p | p in found :: p in s'.projects)
  {
    ReachableInv(s);
    forall r | r in s.running && r.proj !in found && !s.running[r] ensures Dropped(s, found, r) {
      assert r.proj in s.projects.Keys;
    }
  }

  /** Once a runner has stopped, the next pass that finds its project starts a new one. */
  lemma StartedAgain(s: Live, r: Runner, found: set<string>)
    requires Reachable(s) && r in s.running && r.proj in found
    ensures var s', r' := Cycled(Stopped(s, r), found), Runner(r.proj, s.passes);
      r' != r && r' in s'.running && !s'.running[r'] && s'.projects[r.proj] == Some(r')
  {
    ReachableInv(s);
    assert Runner(r.proj, s.passes) in Started(Stopped(s, r), found) by {
      assert r.proj !in Stopped(s, r).projects;
    }
  }

  // The two loops of Cycle, entry by entry

  function AddedEntry(s: Live, seen: set<string>, p: string): Option<Option<Runner>> {
    if p in s.projects then Some(s.projects[p]) else if p in seen then Some(Some(Runner(p, s.passes))) else None
  }

  function AddedRunner(s: Live, seen: set<string>, r: Runner): Option<bool> {
    if r.pass == s.passes && r.proj in seen && r.proj !in s.projects then Some(false) else At(s.running, r)
  }

  function AddedHolder(s: Live, seen: set<string>, p: string): Option<Runner> {
    if p in seen && p !in s.projects then Some(Runner(p, s.passes)) else At(s.holder, p)
  }

  /** `s'` is `s` with the projects in `seen` added. */
  ghost predicate Added(s: Live, seen: set<string>, s': Live) {
    && s'.passes == s.passes
    && (forall p :: At(s'.projects, p) == AddedEntry(s, seen, p))
    && (forall r :: At(s'.running, r) == AddedRunner(s, seen, r))
    && (forall p :: At(s'.holder, p) == AddedHolder(s, seen, p))
  }

  function CancelledEntry(s: Live, kept: set<string>, p: string): Option<Option<Runner>> {
    if p in s.projects && p !in kept then Some(None) else At(s.projects, p)
  }

  /** `s'` is `s` with the projects that are neither found nor left in `rest` cancelled. */
  ghost predicate Cancelled(s: Live, found: set<string>, rest: set<string>, s': Live) {
    && s'.passes == s.passes && s'.holder == s.holder
    && (forall p :: At(s'.projects, p) == CancelledEntry(s, found + rest, p))
    && (forall r :: At(s'.running, r) == if Dropped(s, found + rest, r) then Some(true) else At(s.running, r))
  }

  function AddOne(s: Live, p: string): Live {
    if p in s.projects then s else
    var r := Runner(p, s.passes);
    s.(projects := s.projects[p := Some(r)], running := s.running[r := false], holder := s.holder[p := r])
  }

  function CancelOne(s: Live, found: set<string>, p: string): Live {
    if p in s.projects && s.projects[p].Some? && p !in found
    then s.(projects := s.projects[p := None], running := s.running[s.projects[p].value := true])
    else s
  }

  lemma AddStep(s: Live, seen: set<string>, s1: Live, proj: string)
    requires Added(s, seen, s1)
    ensures Added(s, seen + {proj}, AddOne(s1, proj))
  {
    var s2 := AddOne(s1, proj);
    assert At(s1.projects, proj) == AddedEntry(s, seen, proj);
    forall p
      ensures At(s2.projects, p) == AddedEntry(s, seen + {proj}, p)
      ensures At(s2.holder, p) == AddedHolder(s, seen + {proj}, p)
    {
      assert At(s1.projects, p) == AddedEntry(s, seen, p) && At(s1.holder, p) == AddedHolder(s, seen, p);
    }
    forall r ensures At(s2.running, r) == AddedRunner(s, seen + {proj}, r) {
      assert At(s1.running, r) == AddedRunner(s, seen, r);
    }
  }

  lemma CancelStep(s: Live, found: set<string>, rest: set<string>, s1: Live, proj: string)
    requires Quits(s) && Cancelled(s, found, rest, s1) && proj in rest && proj in s.projects
    ensures Cancelled(s, found, rest - {proj}, CancelOne(s1, found, proj))
  {
    var s2, rest' := CancelOne(s1, found, proj), rest - {proj};
    assert At(s1.projects, proj) == At(s.projects, proj);
    forall p ensures At(s2.projects, p) == CancelledEntry(s, found + rest', p) {
      assert At(s1.projects, p) == CancelledEntry(s, found + rest, p);
    }
    forall r ensures At(s2.running, r) == if Dropped(s, found + rest', r) then Some(true) else At(s.running, r) {
      assert At(s1.running, r) == if Dropped(s, found + rest, r) then Some(true) else At(s.running, r);
    }
  }

  /** Cancel functions belong to the runner of the project they are kept under. */
  ghost predicate Quits(s: Live) {
    forall p | p in s.projects && s.projects[p].Some? ::
      s.projects[p].value.proj == p && s.projects[p].value in s.running
  }

  lemma AddedQuits(s: Live, found: set<string>, s1: Live)
    requires Inv(s) && Added(s, found, s1)
    ensures Quits(s1)
  {
    forall p | p in s1.projects && s1.projects[p].Some?
      ensures s1.projects[p].value.proj == p && s1.projects[p].value in s1.running
    {
      assert At(s1.projects, p) == AddedEntry(s, found, p);
      assert At(s1.running, s1.projects[p].value).Some?;
    }
  }

  lemma CycleIs(s: Live, found: set<string>, s1: Live, s': Live)
    requires Inv(s) && Added(s, found, s1) && Cancelled(s1, found, {}, s'.(passes := s.passes))
    requires s'.passes == s.passes + 1
    ensures s' == Cycled(s, found)
  {
    var c := Cycled(s, found);
    forall p ensures At(s'.projects, p) == At(c.projects, p) && At(s'.holder, p) == At(c.holder, p) {
      assert At(s1.projects, p) == AddedEntry(s, found, p);
      assert At(s1.holder, p) == AddedHolder(s, found, p);
    }
    SameMap(s'.projects, c.projects);
    SameMap(s'.holder, c.holder);
    CycleRuns(s, found, s1, s');
  }

  lemma CycleRuns(s: Live, found: set<string>, s1: Live, s': Live)
    requires Inv(s) && Added(s, found, s1) && Cancelled(s1, found, {}, s'.(passes := s.passes))
    ensures s'.running == Cycled(s, found).running
  {
    var c := Cycled(s, found);
    forall r ensures At(s'.running, r) == At(c.running, r) {
      assert At(s1.running, r) == AddedRunner(s, found, r);
      assert At(s1.projects, r.proj) == AddedEntry(s, found, r.proj);
      assert r in Started(s, found) <==> r.pass == s.passes && r.proj in found && r.proj !in s.projects;
    }
    SameMap(s'.running, c.running);
  }

  class ProjectTable {
    var projects: map<string, Option<Runner>>
    var running: map<Runner, bool>
    var passes: nat
    ghost var holder: map<string, Runner>

    constructor ()
      ensures State() == EMPTY
    {
      projects, running, passes, holder := map[], map[], 0, map[];
    }

    ghost function State(): Live
      reads this
    {
      Live(projects, running, passes, holder)
    }

    /**
     * Projects.Cycle.  `open` says that the node accepts work; `ready` stands for the checks that come
     * next: the state watcher has started, the context is alive and the message keys are usable.
     */
    method Cycle(found: set<string>, open: bool, ready: bool) returns (err: bool)
      requires Inv(State())
      modifies this
      ensures Inv(State())
      ensures err <==> found == {} || (open && !ready)
      ensures State() == if found != {} && open && ready then Cycled(old(State()), found) else old(State())
    {
      if found == {} {
        return true;
      }
      if !open {
        return false;
      }
      if !ready {
        return true;
      }
      ghost var s := State();
      Add(found);
      ghost var s1 := State();
      AddedQuits(s, found, s1);
      Cancel(found);
      passes := passes + 1;
      CycleIs(s, found, s1, State());
      CycleInv(s, found);
      err := false;
    }

    /** The loop over the projects found. */
    method Add(found: set<string>)
      modifies this`projects, this`running, this`holder
      ensures Added(old(State()), found, State())
    {
      ghost var s := State();
      var rest := found;
      ghost var seen := {};
      while rest != {}
        invariant seen == found - rest && rest <= found
        invariant Added(s, seen, State())
        decreases |rest|
      {
        var proj :| proj in rest;
        AddStep(s, seen, State(), proj);
        if proj !in projects {
          var r := Runner(proj, passes);
          projects := projects[proj := Some(r)];
          running := running[r := false];
          holder := holder[proj := r];
        }
        rest := rest - {proj};
        seen := seen + {proj};
      }
    }

    /** The loop over the projects known. */
    method Cancel(found: set<string>)
      requires Quits(State())
      modifies this`projects, this`running
      ensures Cancelled(old(State()), found, {}, State())
    {
      ghost var s := State();
      var rest := projects.Keys;
      while rest != {}
        invariant rest <= s.projects.Keys
        invariant Cancelled(s, found, rest, State())
        decreases |rest|
      {
        var proj :| proj in rest;
        assert At(projects, proj) == At(s.projects, proj);
        CancelStep(s, found, rest, State(), proj);
        var quiter := projects[proj];
        if quiter.Some? {
          if proj !in found {
            running := running[quiter.value := true];
            projects := projects[proj := None];
          }
        }
        rest := rest - {proj};
      }
    }

    /** The deferred function of run. */
    method Stop(r: Runner)
      requires Inv(State()) && r in running
      modifies this
      ensures Inv(State()) && State() == Stopped(old(State()), r)
    {
      StepInv(State(), Event.Stop(r));
      projects := projects - {r.proj};
      running := running - {r};
      holder := holder - {r.proj};
    }
  }
}
