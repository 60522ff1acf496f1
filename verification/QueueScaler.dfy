/**
 * tools/queue-scaler/job.go: each queue gets the node group that offers the cheapest instance type its
 * work fits on, and queues that need no more runners are dropped.
 */
module QueueScaler {
  import opened Common

  /** Prices are taken as exact numbers; `top` below stands for math.MaxFloat64. */
  datatype Instance = Instance(name: string, resource: string, price: real)

  datatype Queue = Queue(resource: string, instances: seq<Instance>,
                         ready: int, notVisible: int, running: int, nodeGroup: string)

  /** The node groups of each instance type. */
  type Catalog = map<string, seq<string>>

  /** Resource.Fit: whether a queue's work fits on an instance, or nothing when it cannot tell. */
  type Fit = (string, string) -> Option<bool>

  // The catalog

  function AddCatalog(group: string, item: string, groups: Catalog): Catalog {
    if group in groups then groups[group := groups[group] + [item]] else groups[group := [item]]
  }

  predicate Lists(c: Catalog, group: string, item: string) { group in c && item in c[group] }

  /** jobQAssign turns the instance types of each group into the groups of each instance type. */
  method Invert(groups: Catalog) returns (instances: Catalog)
    ensures forall t, g :: Lists(instances, t, g) <==> Lists(groups, g, t)
  {
    instances := map[];
    var rest := groups.Keys;
    while rest != {}
      invariant rest <= groups.Keys
      invariant forall t, g :: Lists(instances, t, g) <==> g !in rest && Lists(groups, g, t)
      decreases |rest|
    {
      var aGroup :| aGroup in rest;
      ghost var was := instances;
      for i := 0 to |groups[aGroup]|
        invariant forall t, g ::
          Lists(instances, t, g) <==> Lists(was, t, g) || (g == aGroup && t in groups[aGroup][..i])
      {
        ghost var before := instances;
        instances := AddCatalog(groups[aGroup][i], aGroup, instances);
        forall t, g ensures Lists(instances, t, g) <==> Lists(before, t, g) || (g == aGroup && t == groups[aGroup][i]) {
        }
        assert groups[aGroup][..i+1] == groups[aGroup][..i] + [groups[aGroup][i]];
      }
      assert groups[aGroup][..|groups[aGroup]|] == groups[aGroup];
      rest := rest - {aGroup};
    }
  }

  // One queue

  /** Group `g` offers the `i`th instance type of the queue, and its work fits there. */
  predicate Offer(q: Queue, c: Catalog, fit: Fit, i: int, g: string) {
    0 <= i < |q.instances| && Lists(c, q.instances[i].name, g) && fit(q.resource, q.instances[i].resource) == Some(true)
  }

  predicate SortedByPrice(s: seq<Instance>) {
    forall i, j | 0 <= i < j < |s| :: s[i].price <= s[j].price
  }

  /** The groups matched so far: each with the first instance type it offers among the first `n`. */
  ghost predicate Matched(q: Queue, c: Catalog, fit: Fit, n: int, matches: map<string, int>) {
    && (forall g | g in matches :: matches[g] < n && Offer(q, c, fit, matches[g], g))
    && (forall i, g | i < n && Offer(q, c, fit, i, g) :: g in matches && matches[g] <= i)
  }

  /** The search for groups; a group's cost is kept as the index of the instance type it was matched by. */
  method FindMatches(q: Queue, c: Catalog, fit: Fit) returns (ok: bool, matches: map<string, int>)
    ensures ok ==> Matched(q, c, fit, |q.instances|, matches)
    ensures !ok ==> exists i :: 0 <= i < |q.instances| && fit(q.resource, q.instances[i].resource).None?
  {
    matches := map[];
    for i := 0 to |q.instances|
      invariant Matched(q, c, fit, i, matches)
    {
      var instance := q.instances[i];
      if instance.name in c {
        var groups := c[instance.name];
        for k := 0 to |groups|
          invariant forall g | g in matches :: matches[g] <= i && Offer(q, c, fit, matches[g], g)
          invariant forall j, g | j < i && Offer(q, c, fit, j, g) :: g in matches && matches[g] <= j
          invariant forall j | 0 <= j < k && Offer(q, c, fit, i, groups[j]) :: groups[j] in matches
        {
          var groupName := groups[k];
          if groupName !in matches {
            var fits := fit(q.resource, instance.resource);
            if fits.None? {
              return false, matches;
            }
            if !fits.value {
              continue;
            }
            matches := matches[groupName := i];
          }
        }
        assert forall g | Offer(q, c, fit, i, g) :: exists j :: 0 <= j < |groups| && groups[j] == g;
      }
    }
    ok := true;
  }

  /** `g` offers an instance type on which the work fits and which nothing else undercuts. */
  ghost predicate Cheapest(q: Queue, c: Catalog, fit: Fit, top: real, g: string) {
    exists i :: Offer(q, c, fit, i, g) && q.instances[i].price < top
      && forall j, h | Offer(q, c, fit, j, h) :: q.instances[i].price <= q.instances[j].price
  }

  /** The choice among the matches of one queue. */
  method Choose(q: Queue, c: Catalog, fit: Fit, top: real, matches: map<string, int>) returns (group: Option<string>)
    requires SortedByPrice(q.instances) && Matched(q, c, fit, |q.instances|, matches)
    ensures group.Some? ==> Cheapest(q, c, fit, top, group.value)
    ensures group.None? ==> forall i, g | Offer(q, c, fit, i, g) :: q.instances[i].price >= top
  {
    group := None;
    var cheapest, rest := top, matches.Keys;
    while rest != {}
      invariant rest <= matches.Keys && cheapest <= top
      invariant group.None? ==> cheapest == top
      invariant group.Some? ==> group.value in matches && q.instances[matches[group.value]].price == cheapest < top
      invariant forall g | g in matches && g !in rest :: cheapest <= q.instances[matches[g]].price
      decreases |rest|
    {
      var groupName :| groupName in rest;
      if q.instances[matches[groupName]].price < cheapest {
        group := Some(groupName);
        cheapest := q.instances[matches[groupName]].price;
      }
      rest := rest - {groupName};
    }
    forall i, g | Offer(q, c, fit, i, g) ensures cheapest <= q.instances[i].price {
      assert g in matches && matches[g] <= i;
    }
    if group.Some? {
      assert Offer(q, c, fit, matches[group.value], group.value);
    }
  }

  // All queues

  type Queues = map<string, Queue>

  ghost predicate NothingBelow(q: Queue, c: Catalog, fit: Fit, top: real) {
    forall i, g | Offer(q, c, fit, i, g) :: q.instances[i].price >= top
  }

  /** For some instance type of some queue it cannot be told whether its work fits. */
  ghost predicate Undecided(queues: Queues, fit: Fit) {
    exists n, i :: n in queues && 0 <= i < |queues[n].instances|
      && fit(queues[n].resource, queues[n].instances[i].resource).None?
  }

  /** What loadNodeGroups leaves of a queue: a cheapest group, or the queue untouched when nothing is on offer. */
  ghost predicate Assigned(q: Queue, c: Catalog, fit: Fit, top: real, q': Queue) {
    && q' == q.(nodeGroup := q'.nodeGroup)
    && if NothingBelow(q, c, fit, top) then q' == q else Cheapest(q, c, fit, top, q'.nodeGroup)
  }

  method LoadNodeGroups(queues: Queues, instances: Catalog, fit: Fit, top: real) returns (ok: bool, r: Queues)
    requires forall n | n in queues :: SortedByPrice(queues[n].instances)
    ensures r.Keys == queues.Keys
    ensures ok ==> forall n | n in queues :: Assigned(queues[n], instances, fit, top, r[n])
    ensures !ok ==> Undecided(queues, fit)
  {
    r := queues;
    var rest := queues.Keys;
    while rest != {}
      invariant rest <= queues.Keys == r.Keys
      invariant forall n | n in rest :: r[n] == queues[n]
      invariant forall n | n in queues && n !in rest :: Assigned(queues[n], instances, fit, top, r[n])
      decreases |rest|
    {
      var qName :| qName in rest;
      var qDetails := r[qName];
      var found, group := AssignOne(qDetails, instances, fit, top);
      if !found {
        return false, r;
      }
      if group.Some? {
        r := r[qName := qDetails.(nodeGroup := group.value)];
      }
      rest := rest - {qName};
    }
    ok := true;
  }

  /** The pass over one queue: the group to record, if any. */
  method AssignOne(q: Queue, c: Catalog, fit: Fit, top: real) returns (ok: bool, group: Option<string>)
    requires SortedByPrice(q.instances)
    ensures ok ==> Assigned(q, c, fit, top, if group.Some? then q.(nodeGroup := group.value) else q)
    ensures !ok ==> exists i :: 0 <= i < |q.instances| && fit(q.resource, q.instances[i].resource).None?
  {
    var matches;
    ok, matches := FindMatches(q, c, fit);
    if !ok {
      return false, None;
    }
    group := Choose(q, c, fit, top, matches);
    if group.Some? {
      OfferBelow(q, c, fit, top, group.value);
    }
  }

  lemma OfferBelow(q: Queue, c: Catalog, fit: Fit, top: real, g: string)
    requires Cheapest(q, c, fit, top, g)
    ensures !forall i, h | Offer(q, c, fit, i, h) :: q.instances[i].price >= top
    ensures Cheapest(q.(nodeGroup := g), c, fit, top, g)
  {
    var i :| Offer(q, c, fit, i, g) && q.instances[i].price < top
      && forall j, h | Offer(q, c, fit, j, h) :: q.instances[i].price <= q.instances[j].price;
    var q' := q.(nodeGroup := g);
    assert forall j, h :: Offer(q', c, fit, j, h) <==> Offer(q, c, fit, j, h);
    assert Offer(q', c, fit, i, g);
  }

  /** A queue that has a group and more messages than runners. */
  predicate Short(q: Queue) { q.nodeGroup != "" && q.running < q.ready + q.notVisible }

  method GroomQueues(queues: Queues) returns (r: Queues)
    ensures r == map n | n in queues && Short(queues[n]) :: queues[n]
  {
    r := queues;
    var rest := queues.Keys;
    while rest != {}
      invariant rest <= queues.Keys
      invariant r == map n | n in queues && (n in rest || Short(queues[n])) :: queues[n]
      decreases |rest|
    {
      var qName :| qName in rest;
      var qDetails := r[qName];
      if |qDetails.nodeGroup| == 0 || qDetails.running >= qDetails.ready + qDetails.notVisible {
        r := r - {qName};
      }
      rest := rest - {qName};
    }
  }

  /** Some node group of the cluster has an instance type on which the queue's work fits, below `top`. */
  ghost predicate Servable(q: Queue, groups: Catalog, fit: Fit, top: real) {
    exists i, g :: 0 <= i < |q.instances| && ClusterOffer(q, groups, fit, i, g) && q.instances[i].price < top
  }

  predicate ClusterOffer(q: Queue, groups: Catalog, fit: Fit, i: int, g: string) {
    && 0 <= i < |q.instances| && Lists(groups, g, q.instances[i].name)
    && fit(q.resource, q.instances[i].resource) == Some(true)
  }

  /** The group offers the globally cheapest instance type of the cluster on which the work fits. */
  ghost predicate GloballyCheapest(q: Queue, groups: Catalog, fit: Fit, g: string) {
    exists i :: ClusterOffer(q, groups, fit, i, g)
      && forall j, h | ClusterOffer(q, groups, fit, j, h) :: q.instances[i].price <= q.instances[j].price
  }

  predicate Lacking(q: Queue) { q.running < q.ready + q.notVisible }

  /** A queue the cluster can serve got a globally cheapest group, any other is as it was. */
  ghost predicate Served(q: Queue, groups: Catalog, fit: Fit, top: real, q': Queue) {
    if Servable(q, groups, fit, top)
    then q' == q.(nodeGroup := q'.nodeGroup) && GloballyCheapest(q, groups, fit, q'.nodeGroup)
    else q' == q
  }

  /**
   * jobQAssign followed by groomQueues: what remains are exactly the queues the cluster can serve, or
   * that had a group before, that have more messages than runners; each queue it can serve has a node
   * group that offers the cheapest fitting instance type of the whole cluster, the others are as before.
   */
  method AssignAndGroom(queues: Queues, groups: Catalog, fit: Fit, top: real) returns (ok: bool, r: Queues)
    requires "" !in groups
    requires forall n | n in queues :: SortedByPrice(queues[n].instances)
    ensures ok ==> forall n :: n in r <==>
      n in queues && Lacking(queues[n]) && (Servable(queues[n], groups, fit, top) || queues[n].nodeGroup != "")
    ensures ok ==> forall n | n in r :: Served(queues[n], groups, fit, top, r[n])
    ensures !ok ==> Undecided(queues, fit)
  {
    var instances := Invert(groups);
    var loaded;
    ok, loaded := LoadNodeGroups(queues, instances, fit, top);
    if !ok {
      return false, loaded;
    }
    r := GroomQueues(loaded);
    forall n | n in queues
      ensures loaded[n].nodeGroup != "" <==> Servable(queues[n], groups, fit, top) || queues[n].nodeGroup != ""
      ensures Served(queues[n], groups, fit, top, loaded[n])
    {
      AssignedServes(queues[n], instances, groups, fit, top, loaded[n]);
    }
  }

  lemma AssignedServes(q: Queue, instances: Catalog, groups: Catalog, fit: Fit, top: real, q': Queue)
    requires forall t, g :: Lists(instances, t, g) <==> Lists(groups, g, t)
    requires Assigned(q, instances, fit, top, q') && "" !in groups
    ensures q'.nodeGroup != "" <==> Servable(q, groups, fit, top) || q.nodeGroup != ""
    ensures Served(q, groups, fit, top, q')
  {
    assert forall i, g :: Offer(q, instances, fit, i, g) <==> ClusterOffer(q, groups, fit, i, g);
    if Cheapest(q, instances, fit, top, q'.nodeGroup) {
      var i :| Offer(q, instances, fit, i, q'.nodeGroup) && q.instances[i].price < top
        && forall j, h | Offer(q, instances, fit, j, h) :: q.instances[i].price <= q.instances[j].price;
      assert ClusterOffer(q, groups, fit, i, q'.nodeGroup);
      assert forall j, h | ClusterOffer(q, groups, fit, j, h) :: q.instances[i].price <= q.instances[j].price;
    }
  }
}
