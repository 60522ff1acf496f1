/** cmd/runner/queues.go: the busy set that admits one poller at a time to a subscription. */
module Queuer {
  import opened Runs

  /** `busy` is busyQs.subs; `inside` are the calls of filterWork that are in doWork, with their subscriptions. */
  datatype Queues = Queues(busy: set<string>, inside: map<nat, string>)

  /** A request reaches the busy set, or a call leaves doWork and its deferred function runs. */
  datatype Event = Filter(w: nat, sub: string, backoff: bool) | Leave(w: nat)

  predicate Enabled(q: Queues, e: Event) {
    match e
    case Filter(w, _, _) => w !in q.inside
    case Leave(w) => w in q.inside
  }

  function Next(q: Queues, e: Event): Queues {
    match e
    case Filter(w, sub, backoff) =>
      if backoff || sub in q.busy then q else Queues(q.busy + {sub}, q.inside[w := sub])
    case Leave(w) =>
      if w !in q.inside then q else Queues(q.busy - {q.inside[w]}, q.inside - {w})
  }

  const SYSTEM: Machine<Queues, Event> := Machine(Enabled, Next)

  /** A subscription is busy exactly while one poller is inside for it. */
  ghost predicate OnePoller(q: Queues) {
    && (forall w | w in q.inside :: q.inside[w] in q.busy)
    && (forall s | s in q.busy :: exists w :: w in q.inside && q.inside[w] == s)
    && (forall v, w | v in q.inside && w in q.inside && q.inside[v] == q.inside[w] :: v == w)
  }

  lemma StepOnePoller(q: Queues, e: Event)
    requires OnePoller(q) && Enabled(q, e)
    ensures OnePoller(Next(q, e))
  {
    var q' := Next(q, e);
    forall s | s in q'.busy ensures exists w :: w in q'.inside && q'.inside[w] == s {
      if s in q.busy {
        var w :| w in q.inside && q.inside[w] == s;
        assert w in q'.inside && q'.inside[w] == s;
      } else {
        assert e.w in q'.inside;
      }
    }
  }

  lemma RunsOnePoller(es: seq<Event>)
    requires IsRun(SYSTEM, Queues({}, map[]), es)
    ensures OnePoller(End(SYSTEM, Queues({}, map[]), es))
  {
    forall q, e | OnePoller(q) && SYSTEM.enabled(q, e) ensures OnePoller(SYSTEM.next(q, e)) { StepOnePoller(q, e); }
    InvariantOfRuns(SYSTEM, OnePoller, Queues({}, map[]), es);
  }

  /** A call that leaves takes only itself away, and the next request for its subscription gets in. */
  lemma LeaveFrees(q: Queues, w: nat, v: nat)
    requires OnePoller(q) && w in q.inside && v !in q.inside
    ensures var q', sub := Next(q, Leave(w)), q.inside[w];
      && q' == Queues(q.busy - {sub}, q.inside - {w}) && OnePoller(q')
      && Next(q', Filter(v, sub, false)).inside == (q.inside - {w})[v := sub]
  {
    StepOnePoller(q, Leave(w));
  }

  /** A request is turned away exactly for a back off or because some poller is inside for its subscription. */
  lemma Admitted(q: Queues, w: nat, sub: string, backoff: bool)
    requires OnePoller(q) && w !in q.inside
    ensures w in Next(q, Filter(w, sub, backoff)).inside <==> !backoff && forall v | v in q.inside :: q.inside[v] != sub
  {
  }
}
