/**
 * internal/runner/localfilequeue.go: a directory is the queue.  An item is published by renaming a whole
 * file into it, claimed by removing that file, and published again when its handler does not accept it.
 */
module LocalQueue {
  import opened Common
  import opened Runs

  /** Where a publisher or worker is.  Names are those xid gives out and are never used twice. */
  datatype At =
    | Idle
    | Writing(name: string, body: string, size: nat, again: bool)   // Publish, `size` bytes so far
    | Picked(name: string)                                          // chosen from the listing
    | HasRead(name: string, data: string)                           // read, not yet removed
    | Holding(name: string, data: string)                           // removed: with the handler

  /**
   * `files` are the items in the directory.  History: the bodies published, acknowledged, and dropped
   * because they could not be published again; what was written under each name; who claimed each name;
   * and, for every claim of an item that was not read to its end, what it held and what was read of it.
   */
  datatype Queue = Queue(files: map<string, string>, agents: map<nat, At>,
                         published: multiset<string>, acked: multiset<string>, dropped: multiset<string>,
                         bodyOf: map<string, string>, claimed: map<string, nat>, garbled: seq<(string, string)>)

  datatype Event =
    | Publish(a: nat, name: string, body: string)
    | Write(a: nat, size: nat)
    | Rename(a: nat)
    | FailPublish(a: nat)
    | Pick(a: nat, name: string)
    | Read(a: nat, count: nat)
    | Remove(a: nat)
    | Ack(a: nat)
    | Nack(a: nat, name: string)
    | Fail(a: nat)

  /** What readBytes gives for a file when its one call of Read gets `count` bytes: the rest stays zero. */
  function Short(file: string, count: nat): string {
    if count >= |file| then file else file[..count] + seq(|file| - count, _ => '\0')
  }

  predicate Enabled(q: Queue, e: Event) {
    && e.a in q.agents
    && var x := q.agents[e.a];
       match e
       case Publish(_, name, _) => x.Idle? && name !in q.bodyOf
       case Write(_, size) => x.Writing? && x.size <= size <= |x.body|
       case Rename(_) => x.Writing? && x.size == |x.body|
       case FailPublish(_) => x.Writing?
       case Pick(_, name) => x.Idle? && name in q.files
       case Read(_, count) => x.Picked? && (x.name in q.files && q.files[x.name] != "" ==> count > 0)
       case Remove(_) => x.HasRead?
       case Ack(_) => x.Holding?
       case Nack(_, name) => x.Holding? && name !in q.bodyOf
       case Fail(_) => x.Picked? || x.HasRead?
  }

  function Next(q: Queue, e: Event): Queue {
    if !Enabled(q, e) then q else
    var x := q.agents[e.a];
    match e
    case Publish(a, name, body) =>
      q.(agents := q.agents[a := Writing(name, body, 0, false)], bodyOf := q.bodyOf[name := body])
    case Write(a, size) => q.(agents := q.agents[a := x.(size := size)])
    case Rename(a) =>
      q.(agents := q.agents[a := Idle], files := q.files[x.name := x.body[..x.size]],
         published := q.published + if x.again then multiset{} else multiset{x.body})
    case FailPublish(a) =>
      // Work does not look at the error of its Publish.
      q.(agents := q.agents[a := Idle], dropped := q.dropped + if x.again then multiset{x.body} else multiset{})
    case Pick(a, name) => q.(agents := q.agents[a := Picked(name)])
    case Read(a, count) =>
      q.(agents := q.agents[a := if x.name in q.files then HasRead(x.name, Short(q.files[x.name], count)) else Idle])
    case Remove(a) =>
      if x.name !in q.files then q.(agents := q.agents[a := Idle]) else
      q.(agents := q.agents[a := Holding(x.name, x.data)], files := q.files - {x.name},
         claimed := q.claimed[x.name := a],
         garbled := q.garbled + if x.data != q.files[x.name] then [(q.files[x.name], x.data)] else [])
    case Ack(a) => q.(agents := q.agents[a := Idle], acked := q.acked + multiset{x.data})
    case Nack(a, name) =>
      q.(agents := q.agents[a := Writing(name, x.data, 0, true)], bodyOf := q.bodyOf[name := x.data])
    case Fail(a) => q.(agents := q.agents[a := Idle])
  }

  const SYSTEM: Machine<Queue, Event> := Machine(Enabled, Next)

  /** What an agent has in hand: an item claimed and not yet acknowledged or back in the directory. */
  function Hand(x: At): Option<string> {
    if x.Holding? then Some(x.data) else if x.Writing? && x.again then Some(x.body) else None
  }

  function Is(body: string): string -> nat { (b: string) => if b == body then 1 else 0 }
  function Has(body: string): At -> nat { (x: At) => if Hand(x) == Some(body) then 1 else 0 }

  /** The sum of `f` over the values of a map. */
  ghost function Sum<K, V>(m: map<K, V>, f: V -> nat): nat
    decreases |m|
  {
    if m == map[] then 0 else
    var k :| k in m;
    assert |m - {k}| < |m| by { Shrinks(m, k); }
    f(m[k]) + Sum(m - {k}, f)
  }

  lemma Shrinks<K, V>(m: map<K, V>, k: K)
    requires k in m
    ensures |m - {k}| == |m| - 1
  {
    assert (m - {k}).Keys == m.Keys - {k};
    assert |m.Keys| == |m| && |(m - {k}).Keys| == |m - {k}|;
  }

  lemma {:induction false} SumWithout<K, V>(m: map<K, V>, f: V -> nat, k: K)
    requires k in m
    ensures Sum(m, f) == Sum(m - {k}, f) + f(m[k])
    decreases |m|
  {
    var j :| j in m && Sum(m, f) == f(m[j]) + Sum(m - {j}, f);
    if j != k {
      Shrinks(m, j);
      Shrinks(m, k);
      SumWithout(m - {j}, f, k);
      SumWithout(m - {k}, f, j);
      assert m - {j} - {k} == m - {k} - {j};
    }
  }

  lemma SumUpdate<K, V>(m: map<K, V>, f: V -> nat, k: K, v: V)
    ensures Sum(m[k := v], f) == Sum(m - {k}, f) + f(v)
  {
    SumWithout(m[k := v], f, k);
    assert m[k := v] - {k} == m - {k};
  }

  /** How often a body is in the directory, and how often it is in hand. */
  ghost function Stored(q: Queue, body: string): nat { Sum(q.files, Is(body)) }
  ghost function InHand(q: Queue, body: string): nat { Sum(q.agents, Has(body)) }

  // Short reads

  /** The bytes of a message that are not zero. */
  function Weight(s: string): nat {
    if s == "" then 0 else Weight(s[..|s|-1]) + if s[|s|-1] == '\0' then 0 else 1
  }

  /** `data` is `body` or has lost some of its bytes. */
  predicate Cut(body: string, data: string) { data == body || Weight(data) < Weight(body) }

  lemma {:induction false} ShortIsCut(file: string, count: nat)
    ensures Cut(file, Short(file, count))
    ensures Short(file, count) == file <==> forall i | count <= i < |file| :: file[i] == '\0'
    decreases |file|
  {
    if count < |file| {
      var n := |file| - 1;
      var front, s := file[..n], Short(file, count);
      ShortIsCut(front, count);
      assert s[..n] == Short(front, count) && s[n] == '\0';
      assert file == front + [file[n]] && s == s[..n] + [s[n]];
    }
  }

  function Firsts(g: seq<(string, string)>): multiset<string> {
    if g == [] then multiset{} else Firsts(g[..|g|-1]) + multiset{g[|g|-1].0}
  }

  function Seconds(g: seq<(string, string)>): multiset<string> {
    if g == [] then multiset{} else Seconds(g[..|g|-1]) + multiset{g[|g|-1].1}
  }

  ghost predicate Lossy(g: seq<(string, string)>) {
    forall i | 0 <= i < |g| :: Weight(g[i].1) < Weight(g[i].0)
  }

  lemma {:induction false} Sizes(g: seq<(string, string)>)
    ensures |Firsts(g)| == |Seconds(g)| == |g|
  {
    if g != [] { Sizes(g[..|g|-1]); }
  }

  lemma {:induction false} FindSecond(g: seq<(string, string)>, s: string) returns (i: nat)
    requires s in Seconds(g)
    ensures i < |g| && g[i].1 == s
  {
    if g[|g|-1].1 == s { i := |g| - 1; } else { i := FindSecond(g[..|g|-1], s); }
  }

  lemma {:induction false} FirstAt(g: seq<(string, string)>, i: nat)
    requires i < |g|
    ensures g[i].0 in Firsts(g)
  {
    if i < |g| - 1 { FirstAt(g[..|g|-1], i); }
  }

  lemma {:induction false} Heaviest(g: seq<(string, string)>) returns (i: nat)
    requires g != []
    ensures i < |g| && forall j | 0 <= j < |g| :: Weight(g[j].0) <= Weight(g[i].0)
  {
    i := |g| - 1;
    if |g| > 1 {
      var front := g[..|g|-1];
      var k := Heaviest(front);
      assert forall j | 0 <= j < |front| :: front[j] == g[j];
      if Weight(g[i].0) < Weight(g[k].0) { i := k; }
    }
  }

  /** Losses cannot cancel out: the heaviest message that lost something was not made by another loss. */
  lemma LossesShow(g: seq<(string, string)>)
    requires Lossy(g) && Firsts(g) == Seconds(g)
    ensures g == []
  {
    if g != [] {
      var i := Heaviest(g);
      FirstAt(g, i);
      var j := FindSecond(g, g[i].0);
    }
  }

  /**
   * Every body is published, or made by a short read, as often as it is in the directory, in hand,
   * acknowledged, dropped and cut by a short read together.
   */
  ghost predicate Conserved(q: Queue) {
    forall b :: Balanced(q, b)
  }

  ghost predicate Balanced(q: Queue, b: string) {
    q.published[b] + Seconds(q.garbled)[b]
    == Stored(q, b) + InHand(q, b) + q.acked[b] + q.dropped[b] + Firsts(q.garbled)[b]
  }

  /** Items in the directory are whole, and a name is claimed once at most. */
  ghost predicate Sound(q: Queue) {
    && (forall n | n in q.files :: n in q.bodyOf && q.files[n] == q.bodyOf[n] && n !in q.claimed)
    && (forall n | n in q.claimed :: n in q.bodyOf)
    && (forall a | a in q.agents :: AgentSound(q, a, q.agents[a]))
    && (forall a, b | a in q.agents && b in q.agents && a != b && q.agents[a].Writing? && q.agents[b].Writing? ::
          q.agents[a].name != q.agents[b].name)
    && Lossy(q.garbled)
  }

  ghost predicate AgentSound(q: Queue, a: nat, x: At) {
    match x
    case Idle => true
    case Writing(name, body, size, _) =>
      name in q.bodyOf && q.bodyOf[name] == body && name !in q.files && name !in q.claimed && size <= |body|
    case Picked(name) => name in q.bodyOf
    case HasRead(name, data) => name in q.bodyOf && Cut(q.bodyOf[name], data)
    case Holding(name, data) =>
      && name in q.bodyOf && name in q.claimed && q.claimed[name] == a
      && Cut(q.bodyOf[name], data) && (q.garbled == [] ==> data == q.bodyOf[name])
  }

  lemma StepAgent(q: Queue, e: Event, b: nat)
    requires Sound(q) && Enabled(q, e) && b in q.agents
    ensures AgentSound(Next(q, e), b, Next(q, e).agents[b])
  {
    assert AgentSound(q, b, q.agents[b]) && AgentSound(q, e.a, q.agents[e.a]);
    if e.Read? && q.agents[e.a].name in q.files { ShortIsCut(q.files[q.agents[e.a].name], e.count); }
  }

  lemma StepLossy(q: Queue, e: Event)
    requires Sound(q) && Enabled(q, e)
    ensures Lossy(Next(q, e).garbled)
  {
    assert AgentSound(q, e.a, q.agents[e.a]);
  }

  lemma StepFiles(q: Queue, e: Event)
    requires Sound(q) && Enabled(q, e)
    ensures var q' := Next(q, e);
      && (forall n | n in q'.files :: n in q'.bodyOf && q'.files[n] == q'.bodyOf[n] && n !in q'.claimed)
      && (forall n | n in q'.claimed :: n in q'.bodyOf)
  {
    assert AgentSound(q, e.a, q.agents[e.a]);
  }

  lemma StepNames(q: Queue, e: Event, a: nat, b: nat)
    requires Sound(q) && Enabled(q, e) && a in q.agents && b in q.agents && a != b
    requires Next(q, e).agents[a].Writing? && Next(q, e).agents[b].Writing?
    ensures Next(q, e).agents[a].name != Next(q, e).agents[b].name
  {
    assert AgentSound(q, a, q.agents[a]) && AgentSound(q, b, q.agents[b]);
  }

  lemma StepSound(q: Queue, e: Event)
    requires Sound(q) && Enabled(q, e)
    ensures Sound(Next(q, e))
  {
    var q' := Next(q, e);
    StepFiles(q, e);
    StepLossy(q, e);
    assert q'.agents.Keys == q.agents.Keys;
    forall b | b in q'.agents ensures AgentSound(q', b, q'.agents[b]) { StepAgent(q, e, b); }
    forall a, b | a in q'.agents && b in q'.agents && a != b && q'.agents[a].Writing? && q'.agents[b].Writing?
      ensures q'.agents[a].name != q'.agents[b].name
    {
      StepNames(q, e, a, b);
    }
  }

  lemma NextAgents(q: Queue, e: Event)
    requires Enabled(q, e)
    ensures e.a in Next(q, e).agents && Next(q, e).agents == q.agents[e.a := Next(q, e).agents[e.a]]
  {
  }

  /** The agent of an event exchanges what it has in hand; the others keep theirs. */
  lemma HandMoves(q: Queue, e: Event, b: string)
    requires Enabled(q, e)
    ensures InHand(Next(q, e), b) == InHand(q, b) - Has(b)(q.agents[e.a]) + Has(b)(Next(q, e).agents[e.a])
  {
    NextAgents(q, e);
    HandExchanged(q.agents, e.a, Next(q, e).agents[e.a], b);
  }

  lemma HandExchanged(m: map<nat, At>, a: nat, x': At, b: string)
    requires a in m
    ensures Sum(m[a := x'], Has(b)) == Sum(m, Has(b)) - Has(b)(m[a]) + Has(b)(x')
  {
    SumWithout(m, Has(b), a);
    SumUpdate(m, Has(b), a, x');
  }

  /** The change an event makes to the copies of a body in the directory. */
  function Delta(q: Queue, e: Event, b: string): int
    requires Enabled(q, e)
  {
    var x := q.agents[e.a];
    if e.Rename? then Is(b)(x.body)
    else if e.Remove? && x.name in q.files then 0 - Is(b)(q.files[x.name])
    else 0
  }

  lemma StoredMoves(q: Queue, e: Event, b: string)
    requires Sound(q) && Enabled(q, e)
    ensures Stored(Next(q, e), b) == Stored(q, b) + Delta(q, e, b)
  {
    var x := q.agents[e.a];
    assert AgentSound(q, e.a, x);
    if e.Rename? {
      assert x.body[..x.size] == x.body;
      SumUpdate(q.files, Is(b), x.name, x.body);
      assert q.files - {x.name} == q.files;
    } else if e.Remove? && x.name in q.files {
      SumWithout(q.files, Is(b), x.name);
    }
  }

  /** Both sides of the account move by the same amount. */
  lemma Ledger(q: Queue, e: Event, b: string)
    requires Enabled(q, e)
    ensures var q' := Next(q, e);
      q'.published[b] + Seconds(q'.garbled)[b]
      + Has(b)(q.agents[e.a]) + q.acked[b] + q.dropped[b] + Firsts(q.garbled)[b]
      == q.published[b] + Seconds(q.garbled)[b] + Delta(q, e, b)
         + Has(b)(q'.agents[e.a]) + q'.acked[b] + q'.dropped[b] + Firsts(q'.garbled)[b]
  {
    Booked(q, e, b);
    Misread(q, e, b);
    HandAfter(q, e, b);
  }

  /** What an event books as published, acknowledged and dropped. */
  lemma Booked(q: Queue, e: Event, b: string)
    requires Enabled(q, e)
    ensures var q', x := Next(q, e), q.agents[e.a];
      && q'.published[b] == q.published[b] + (if e.Rename? && !x.again then Is(b)(x.body) else 0)
      && q'.acked[b] == q.acked[b] + (if e.Ack? then Is(b)(x.data) else 0)
      && q'.dropped[b] == q.dropped[b] + (if e.FailPublish? && x.again then Is(b)(x.body) else 0)
  {
  }

  /** The event claims an item that was not read to its end. */
  predicate Garbles(q: Queue, e: Event) {
    e.Remove? && e.a in q.agents && q.agents[e.a].HasRead? && q.agents[e.a].name in q.files
    && q.agents[e.a].data != q.files[q.agents[e.a].name]
  }

  lemma Misread(q: Queue, e: Event, b: string)
    requires Enabled(q, e)
    ensures var q', x := Next(q, e), q.agents[e.a];
      && Seconds(q'.garbled)[b] == Seconds(q.garbled)[b] + (if Garbles(q, e) then Is(b)(x.data) else 0)
      && Firsts(q'.garbled)[b] == Firsts(q.garbled)[b] + (if Garbles(q, e) then Is(b)(q.files[x.name]) else 0)
  {
    var x := q.agents[e.a];
    if Garbles(q, e) {
      var g := q.garbled + [(q.files[x.name], x.data)];
      assert Next(q, e).garbled == g && g[..|q.garbled|] == q.garbled;
    } else {
      assert Next(q, e).garbled == q.garbled;
    }
  }

  /** What the agent of an event has in hand afterwards. */
  lemma HandAfter(q: Queue, e: Event, b: string)
    requires Enabled(q, e)
    ensures var x := q.agents[e.a];
      Has(b)(Next(q, e).agents[e.a]) == if e.Remove? && x.name in q.files then Is(b)(x.data)
                                        else if e.Rename? || e.FailPublish? || e.Ack? then 0 else Has(b)(x)
  {
  }

  /** Conservation, one step. */
  lemma StepConserves(q: Queue, e: Event)
    requires Sound(q) && Conserved(q) && Enabled(q, e)
    ensures Conserved(Next(q, e))
  {
    forall b ensures Balanced(Next(q, e), b) {
      HandMoves(q, e, b);
      StoredMoves(q, e, b);
      Ledger(q, e, b);
      assert Balanced(q, b);
    }
  }

  // Every run

  ghost predicate Inv(q: Queue) { Sound(q) && Conserved(q) }

  /** An empty queue and agents with nothing to do. */
  function Fresh(agents: set<nat>): Queue {
    Queue(map[], map a | a in agents :: Idle, multiset{}, multiset{}, multiset{}, map[], map[], [])
  }

  lemma {:induction false} IdleHands(m: map<nat, At>, b: string)
    requires forall a | a in m :: m[a].Idle?
    ensures Sum(m, Has(b)) == 0
    decreases |m|
  {
    if m != map[] {
      var k :| k in m;
      Shrinks(m, k);
      SumWithout(m, Has(b), k);
      IdleHands(m - {k}, b);
    }
  }

  /** For any number of agents and any interleaving the accounts balance. */
  lemma RunsConserve(agents: set<nat>, es: seq<Event>)
    requires IsRun(SYSTEM, Fresh(agents), es)
    ensures Inv(End(SYSTEM, Fresh(agents), es))
  {
    forall b ensures Balanced(Fresh(agents), b) { IdleHands(Fresh(agents).agents, b); }
    forall q, e | Inv(q) && SYSTEM.enabled(q, e) ensures Inv(SYSTEM.next(q, e)) {
      StepSound(q, e);
      StepConserves(q, e);
    }
    InvariantOfRuns(SYSTEM, Inv, Fresh(agents), es);
  }

  ghost predicate Reachable(q: Queue) { exists agents :: Reaches(SYSTEM, Fresh(agents), q) }

  lemma ReachableInv(q: Queue)
    requires Reachable(q)
    ensures Inv(q)
  {
    var agents :| Reaches(SYSTEM, Fresh(agents), q);
    var es :| IsRun(SYSTEM, Fresh(agents), es) && End(SYSTEM, Fresh(agents), es) == q;
    RunsConserve(agents, es);
  }

  /** Only the worker whose removal succeeded goes on: from then on nobody else can ever claim the item. */
  lemma ClaimIsFinal(q: Queue, n: string, es: seq<Event>)
    requires Reachable(q) && n in q.claimed && IsRun(SYSTEM, q, es)
    ensures var q' := End(SYSTEM, q, es);
      && n !in q'.files && n in q'.claimed && q'.claimed[n] == q.claimed[n]
      && forall a | a in q'.agents && q'.agents[a].Holding? && q'.agents[a].name == n :: a == q.claimed[n]
  {
    ReachableInv(q);
    var inv := (p: Queue) => Sound(p) && n in p.claimed && p.claimed[n] == q.claimed[n];
    forall p, e | inv(p) && SYSTEM.enabled(p, e) ensures inv(SYSTEM.next(p, e)) {
      StepSound(p, e);
      assert AgentSound(p, e.a, p.agents[e.a]);
    }
    InvariantOfRuns(SYSTEM, inv, q, es);
    var q' := End(SYSTEM, q, es);
    assert forall a | a in q'.agents :: AgentSound(q', a, q'.agents[a]);
  }

  /** No two workers have the same item, and an item a worker has is not in the directory. */
  lemma ClaimedOnce(q: Queue, a: nat, b: nat)
    requires Reachable(q) && a in q.agents && b in q.agents && q.agents[a].Holding? && q.agents[b].Holding?
    ensures q.agents[a].name == q.agents[b].name ==> a == b
    ensures q.agents[a].name !in q.files
  {
    ReachableInv(q);
    assert AgentSound(q, a, q.agents[a]) && AgentSound(q, b, q.agents[b]);
  }

  /**
   * What a worker reads is the beginning of a whole body, never of one still being written; it is all of it
   * exactly when only zeros are left after the bytes its one call of Read got.
   */
  lemma NeverHalfWritten(q: Queue, a: nat, count: nat)
    requires Reachable(q) && Enabled(q, Read(a, count)) && q.agents[a].name in q.files
    ensures var name, x := q.agents[a].name, Next(q, Read(a, count)).agents[a];
      && name in q.bodyOf && x == HasRead(name, Short(q.bodyOf[name], count))
      && (x.data == q.bodyOf[name] <==> forall i | count <= i < |q.bodyOf[name]| :: q.bodyOf[name][i] == '\0')
  {
    ReachableInv(q);
    ShortIsCut(q.bodyOf[q.agents[a].name], count);
  }

  // What a worker can always do

  /** An idle worker can take any item from the directory and have it acknowledged. */
  lemma CanServe(q: Queue, a: nat, n: string)
    requires Reachable(q) && a in q.agents && q.agents[a].Idle? && n in q.files
    ensures var acked := q.acked + multiset{q.files[n]};
      Reaches(SYSTEM, q, q.(files := q.files - {n}, acked := acked, claimed := q.claimed[n := a]))
  {
    var body := q.files[n];
    var held := Claimed(q, a, n);
    var end := held.(agents := q.agents, acked := q.acked + multiset{body});
    ReachSelf(SYSTEM, end);
    assert held.agents[a := Idle] == q.agents;
    ReachVia(SYSTEM, held, Ack(a), end, end);
    CanClaim(q, a, n, end);
  }

  /** Item `n` with worker `a`. */
  function Claimed(q: Queue, a: nat, n: string): Queue
    requires n in q.files
  {
    q.(agents := q.agents[a := Holding(n, q.files[n])], files := q.files - {n}, claimed := q.claimed[n := a])
  }

  lemma CanClaim(q: Queue, a: nat, n: string, end: Queue)
    requires a in q.agents && q.agents[a].Idle? && n in q.files
    requires Reaches(SYSTEM, Claimed(q, a, n), end)
    ensures Reaches(SYSTEM, q, end)
  {
    var body := q.files[n];
    var picked, read := q.(agents := q.agents[a := Picked(n)]), q.(agents := q.agents[a := HasRead(n, body)]);
    var held := Claimed(q, a, n);
    assert read.agents[a := Holding(n, body)] == held.agents && picked.agents[a := HasRead(n, body)] == read.agents;
    assert q.garbled + [] == q.garbled;
    ReachVia(SYSTEM, read, Remove(a), held, end);
    ReachVia(SYSTEM, picked, Read(a, |body|), read, end);
    ReachVia(SYSTEM, q, Pick(a, n), picked, end);
  }

  /** A message a worker refuses can go back to the directory as it was handed over, under a new name. */
  lemma CanReturn(q: Queue, a: nat, n: string)
    requires a in q.agents && q.agents[a].Holding? && n !in q.bodyOf
    ensures var data := q.agents[a].data;
      Reaches(SYSTEM, q, q.(files := q.files[n := data], agents := q.agents[a := Idle], bodyOf := q.bodyOf[n := data]))
  {
    var data := q.agents[a].data;
    var begun := q.(agents := q.agents[a := Writing(n, data, 0, true)], bodyOf := q.bodyOf[n := data]);
    var written := begun.(agents := q.agents[a := Writing(n, data, |data|, true)]);
    var end := written.(agents := q.agents[a := Idle], files := q.files[n := data]);
    ReachSelf(SYSTEM, end);
    assert data[..|data|] == data && q.published + multiset{} == q.published;
    assert written.agents[a := Idle] == end.agents;
    assert begun.agents[a := Writing(n, data, |data|, true)] == written.agents;
    ReachVia(SYSTEM, written, Rename(a), end, end);
    ReachVia(SYSTEM, begun, Write(a, |data|), written, end);
    ReachVia(SYSTEM, q, Nack(a, n), begun, end);
  }

  /** Of several workers that picked one item, those that come too late go away with nothing. */
  lemma TooLate(q: Queue, e: Event)
    requires Enabled(q, e) && (e.Read? || e.Remove?) && q.agents[e.a].name !in q.files
    ensures Next(q, e) == q.(agents := q.agents[e.a := Idle])
  {
  }

  /** A worker that cannot open, read or remove an item leaves it where it is. */
  lemma FailLeaves(q: Queue, a: nat)
    requires Enabled(q, Fail(a))
    ensures Next(q, Fail(a)) == q.(agents := q.agents[a := Idle])
  {
  }

  // Messages that are lost

  /** The event is a failure to publish a refused message again. */
  predicate Loses(q: Queue, e: Event) {
    e.FailPublish? && e.a in q.agents && q.agents[e.a].Writing? && q.agents[e.a].again
  }

  predicate NeverLoses(q: Queue, es: seq<Event>)
    decreases |es|
  {
    es == [] || (!Loses(q, es[0]) && NeverLoses(Next(q, es[0]), es[1..]))
  }

  lemma {:induction false} DroppedGrows(q: Queue, es: seq<Event>)
    requires IsRun(SYSTEM, q, es)
    ensures q.dropped <= End(SYSTEM, q, es).dropped
    ensures q.dropped == End(SYSTEM, q, es).dropped <==> NeverLoses(q, es)
    decreases |es|
  {
    if es != [] {
      var q' := Next(q, es[0]);
      DroppedGrows(q', es[1..]);
      if Loses(q, es[0]) {
        var body := q.agents[es[0].a].body;
        assert q.dropped[body] < q'.dropped[body] <= End(SYSTEM, q, es).dropped[body];
      }
    }
  }

  predicate NeverGarbles(q: Queue, es: seq<Event>)
    decreases |es|
  {
    es == [] || (!Garbles(q, es[0]) && NeverGarbles(Next(q, es[0]), es[1..]))
  }

  lemma {:induction false} GarbledGrows(q: Queue, es: seq<Event>)
    requires IsRun(SYSTEM, q, es)
    ensures |q.garbled| <= |End(SYSTEM, q, es).garbled|
    ensures |q.garbled| == |End(SYSTEM, q, es).garbled| <==> NeverGarbles(q, es)
    decreases |es|
  {
    if es != [] {
      GarbledGrows(Next(q, es[0]), es[1..]);
    }
  }

  /** Over every run without short reads a worker has what was published under the name it claimed. */
  lemma RunsHandWhole(agents: set<nat>, es: seq<Event>, a: nat)
    requires IsRun(SYSTEM, Fresh(agents), es) && NeverGarbles(Fresh(agents), es)
    ensures var q := End(SYSTEM, Fresh(agents), es);
      a in q.agents && q.agents[a].Holding? ==>
        q.agents[a].name in q.bodyOf && q.agents[a].data == q.bodyOf[q.agents[a].name]
  {
    var q := End(SYSTEM, Fresh(agents), es);
    RunsConserve(agents, es);
    GarbledGrows(Fresh(agents), es);
    assert a in q.agents ==> AgentSound(q, a, q.agents[a]);
  }

  /** Every published message is stored, in hand or acknowledged. */
  ghost predicate Accounted(q: Queue, b: string) { q.published[b] == Stored(q, b) + InHand(q, b) + q.acked[b] }

  lemma AccountedIff(q: Queue)
    requires Inv(q)
    ensures (forall b :: Accounted(q, b)) <==> q.dropped == multiset{} && q.garbled == []
  {
    forall b ensures Accounted(q, b) <==> Seconds(q.garbled)[b] == q.dropped[b] + Firsts(q.garbled)[b] {
      assert Balanced(q, b);
    }
    if forall b :: Accounted(q, b) {
      forall b ensures Seconds(q.garbled)[b] == (q.dropped + Firsts(q.garbled))[b] { assert Accounted(q, b); }
      assert Seconds(q.garbled) == q.dropped + Firsts(q.garbled);
      Sizes(q.garbled);
      assert |q.dropped| == 0;
      LossesShow(q.garbled);
    }
  }

  /**
   * A run keeps account of every message exactly when no refused message fails to be published again and no
   * claimed one was read short.
   */
  lemma RunsAccount(agents: set<nat>, es: seq<Event>)
    requires IsRun(SYSTEM, Fresh(agents), es)
    ensures (forall b :: Accounted(End(SYSTEM, Fresh(agents), es), b))
            <==> NeverLoses(Fresh(agents), es) && NeverGarbles(Fresh(agents), es)
  {
    RunsConserve(agents, es);
    DroppedGrows(Fresh(agents), es);
    GarbledGrows(Fresh(agents), es);
    AccountedIff(End(SYSTEM, Fresh(agents), es));
  }

  /** One agent and one message: published under "a" by then, and claimed or not. */
  function Solo(body: string, stored: bool, x: At): Queue {
    Queue(if stored then map["a" := body] else map[], map[0 := x], multiset{body}, multiset{}, multiset{},
          map["a" := body], if stored then map[] else map["a" := 0], [])
  }

  lemma OneAgent(m: map<nat, At>, x: At)
    requires m.Keys == {0}
    ensures m[0 := x] == map[0 := x]
  {
    assert m[0 := x].Keys == {0};
  }

  /** The state `q` gets to by the steps of its one agent. */
  lemma SoloStep(q: Queue, e: Event, x: At, q': Queue, end: Queue)
    requires q.agents.Keys == {0} && Enabled(q, e) && Next(q, e).agents[0] == x
    requires q' == Next(q, e).(agents := map[0 := x]) && Reaches(SYSTEM, q', end)
    ensures Reaches(SYSTEM, q, end)
  {
    NextAgents(q, e);
    OneAgent(q.agents, x);
    ReachFrom(SYSTEM, q, e, end);
  }

  lemma SoloRenamed(body: string, q: Queue, end: Queue)
    requires q == Fresh({0}).(bodyOf := map["a" := body], agents := map[0 := Writing("a", body, |body|, false)])
    requires Reaches(SYSTEM, Solo(body, true, Idle), end)
    ensures Reaches(SYSTEM, q, end)
  {
    assert body[..|body|] == body;
    SoloStep(q, Rename(0), Idle, Solo(body, true, Idle), end);
  }

  lemma SoloPublished(body: string, end: Queue)
    requires Reaches(SYSTEM, Solo(body, true, Idle), end)
    ensures Reaches(SYSTEM, Fresh({0}), end)
  {
    var begun, written := Writing("a", body, 0, false), Writing("a", body, |body|, false);
    var q := Fresh({0}).(bodyOf := map["a" := body], agents := map[0 := begun]);
    var q' := q.(agents := map[0 := written]);
    SoloRenamed(body, q', end);
    SoloStep(q, Write(0, |body|), written, q', end);
    SoloStep(Fresh({0}), Publish(0, "a", body), begun, q, end);
  }

  lemma SoloRemoved(body: string, end: Queue)
    requires Reaches(SYSTEM, Solo(body, false, Holding("a", body)), end)
    ensures Reaches(SYSTEM, Solo(body, true, HasRead("a", body)), end)
  {
    SoloStep(Solo(body, true, HasRead("a", body)), Remove(0), Holding("a", body),
             Solo(body, false, Holding("a", body)), end);
  }

  lemma SoloClaimed(body: string, end: Queue)
    requires Reaches(SYSTEM, Solo(body, false, Holding("a", body)), end)
    ensures Reaches(SYSTEM, Solo(body, true, Idle), end)
  {
    SoloRemoved(body, end);
    SoloStep(Solo(body, true, Picked("a")), Read(0, |body|), HasRead("a", body),
             Solo(body, true, HasRead("a", body)), end);
    SoloStep(Solo(body, true, Idle), Pick(0, "a"), Picked("a"), Solo(body, true, Picked("a")), end);
  }

  lemma SoloRefused(body: string) returns (q: Queue)
    ensures Reaches(SYSTEM, Solo(body, false, Holding("a", body)), q)
    ensures q.agents == map[0 := Idle] && q.files == map[] && q.published == multiset{body} && q.acked == multiset{}
  {
    var again := Writing("b", body, 0, true);
    var refused := Solo(body, false, again).(bodyOf := map["a" := body, "b" := body]);
    q := refused.(agents := map[0 := Idle], dropped := multiset{body});
    ReachSelf(SYSTEM, q);
    SoloStep(refused, FailPublish(0), Idle, q, q);
    SoloStep(Solo(body, false, Holding("a", body)), Nack(0, "b"), again, refused, q);
  }

  /** A message that is published, claimed, refused and not published again is nowhere. */
  lemma LostMessage(body: string) returns (q: Queue)
    ensures Reachable(q) && q.published[body] == 1 && q.acked[body] == 0
    ensures Stored(q, body) == 0 && InHand(q, body) == 0
  {
    q := SoloRefused(body);
    IdleHands(q.agents, body);
    SoloClaimed(body, q);
    SoloPublished(body, q);
  }

  /** A message of which a part that matters was not read is handed on changed, and was never published so. */
  lemma GarbledMessage(body: string, count: nat) returns (q: Queue)
    requires 0 < count && Short(body, count) != body
    ensures Reachable(q) && 0 in q.agents && q.agents[0] == Holding("a", Short(body, count))
    ensures q.published == multiset{body} && Stored(q, body) == 0
  {
    var data := Short(body, count);
    q := Solo(body, false, Holding("a", data)).(garbled := [(body, data)]);
    ReachSelf(SYSTEM, q);
    SoloCut(body, data, q);
    SoloStep(Solo(body, true, Picked("a")), Read(0, count), HasRead("a", data),
             Solo(body, true, HasRead("a", data)), q);
    SoloStep(Solo(body, true, Idle), Pick(0, "a"), Picked("a"), Solo(body, true, Picked("a")), q);
    SoloPublished(body, q);
  }

  lemma SoloCut(body: string, data: string, q: Queue)
    requires data != body && q == Solo(body, false, Holding("a", data)).(garbled := [(body, data)])
    requires Reaches(SYSTEM, q, q)
    ensures Reaches(SYSTEM, Solo(body, true, HasRead("a", data)), q)
  {
    SoloStep(Solo(body, true, HasRead("a", data)), Remove(0), Holding("a", data), q, q);
  }

  // Choosing an item

  datatype FileInfo = FileInfo(isDir: bool, modTime: int)

  predicate Eligible(i: FileInfo, now: int) { !i.isDir && i.modTime < now + 3_600_000_000_000 }

  /** getOldest: the first among the oldest items not dated more than an hour ahead. */
  method GetOldest(list: seq<FileInfo>, now: int) returns (result: int)
    ensures result == -1 <==> forall i | 0 <= i < |list| :: !Eligible(list[i], now)
    ensures result != -1 ==> 0 <= result < |list| && Eligible(list[result], now)
    ensures result != -1 ==> forall i | 0 <= i < |list| && Eligible(list[i], now) ::
      list[result].modTime < list[i].modTime || (list[result].modTime == list[i].modTime && result <= i)
  {
    result := -1;
    if |list| == 0 {
      return;
    }
    var minTime := now + 3_600_000_000_000;
    for i := 0 to |list|
      invariant -1 <= result < i
      invariant minTime == if result == -1 then now + 3_600_000_000_000 else list[result].modTime
      invariant result != -1 ==> Eligible(list[result], now)
      invariant forall j | 0 <= j < i && Eligible(list[j], now) ::
        result != -1 && (minTime < list[j].modTime || (minTime == list[j].modTime && result <= j))
    {
      if !list[i].isDir && list[i].modTime < minTime {
        result := i;
        minTime := list[i].modTime;
      }
    }
  }
}
