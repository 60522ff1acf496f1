/**
 * internal/defense/dynamic_store.go: keys kept in a directory, read again when their files change, and
 * selected by the longest name that prefixes a queue's name.
 */
module DynamicStore {
  import opened Common

  /** A regular file; the modification time is in nanoseconds. */
  datatype File = File(modTime: int, data: string)

  /** A flat directory of regular files that are not hidden; it stands still during a pass. */
  type Dir = map<string, File>

  /** time.Round to the nearest whole second, halves upwards */
  function RoundSecond(t: int): (r: int)
    ensures -500_000_000 < r * 1_000_000_000 - t <= 500_000_000
  {
    (t + 500_000_000) / 1_000_000_000
  }

  function Time(d: Dir, n: string): Option<int> { if n in d then Some(RoundSecond(d[n].modTime)) else None }

  /** The last seen modification times and the items decoded so far. */
  datatype Store<T> = Store(entries: map<string, int>, contents: map<string, T>)

  /** The item one pass leaves under one name. */
  function Item<T>(extract: string -> Option<T>, s: Store<T>, d: Dir, n: string): Option<T> {
    if n !in d then None
    else if At(s.entries, n) != Time(d, n) && extract(d[n].data).Some? then extract(d[n].data)
    else At(s.contents, n)
  }

  /** The store after a pass over `d`. */
  function Refresh<T>(extract: string -> Option<T>, s: Store<T>, d: Dir): Store<T> {
    Store(map n | n in d :: RoundSecond(d[n].modTime),
          map n | n in d && Item(extract, s, d, n).Some? :: Item(extract, s, d, n).value)
  }

  lemma RefreshIs<T>(extract: string -> Option<T>, s: Store<T>, d: Dir, s': Store<T>)
    requires forall n :: At(s'.entries, n) == Time(d, n) && At(s'.contents, n) == Item(extract, s, d, n)
    ensures s' == Refresh(extract, s, d)
  {
    var r := Refresh(extract, s, d);
    forall n ensures At(s'.entries, n) == At(r.entries, n) && At(s'.contents, n) == At(r.contents, n) {
      assert At(s'.entries, n) == Time(d, n);
    }
    SameMap(s'.entries, r.entries);
    SameMap(s'.contents, r.contents);
  }

  class DynStore<T> {
    const extract: string -> Option<T>
    var entries: map<string, int>
    var contents: map<string, T>

    constructor (extract: string -> Option<T>)
      ensures this.extract == extract && State() == Store(map[], map[])
    {
      this.extract := extract;
      entries, contents := map[], map[];
    }

    function State(): Store<T>
      reads this
    {
      Store(entries, contents)
    }

    /** update: read one file again, or forget it when it is gone. */
    method Update(d: Dir, name: string) returns (ok: bool)
      modifies this`contents
      ensures ok <==> name !in d || extract(d[name].data).Some?
      ensures forall n | n != name :: At(contents, n) == old(At(contents, n))
      ensures At(contents, name) ==
        if name !in d then None else if ok then extract(d[name].data) else old(At(contents, name))
    {
      if name !in d {
        contents := contents - {name};
        return true;
      }
      var pub := extract(d[name].data);
      if pub.None? {
        return false;
      }
      contents := contents[name := pub.value];
      ok := true;
    }

    /** The handling of one file found. */
    method Visit(d: Dir, name: string)
      requires name in d
      modifies this
      ensures forall n | n != name :: At(entries, n) == old(At(entries, n)) && At(contents, n) == old(At(contents, n))
      ensures At(entries, name) == Time(d, name)
      ensures At(contents, name) == Item(extract, old(State()), d, name)
    {
      var entry := d[name];
      if name !in entries || entries[name] != RoundSecond(entry.modTime) {
        entries := entries[name := RoundSecond(entry.modTime)];
        var _ := Update(d, name);
      }
    }

    /** One refresh of serviceDynamicStore. */
    method Pass(d: Dir)
      requires contents.Keys <= entries.Keys
      modifies this
      ensures State() == Refresh(extract, old(State()), d)
      ensures contents.Keys <= entries.Keys
    {
      ghost var s := State();
      Reload(d);
      Forget(d) by {
        forall n | n in contents ensures n in entries {
          assert At(contents, n).Some?;
          if n !in d { assert old(At(contents, n)).Some? && old(At(entries, n)).Some?; }
          assert At(entries, n).Some?;
        }
      }
      assert forall n :: At(entries, n) == Time(d, n) && At(contents, n) == Item(extract, s, d, n);
      RefreshIs(extract, s, d, State());
    }

    /** The loop over the files found. */
    method Reload(d: Dir)
      modifies this
      ensures forall n :: At(entries, n) == if n in d then Time(d, n) else old(At(entries, n))
      ensures forall n :: At(contents, n) == if n in d then Item(extract, old(State()), d, n) else old(At(contents, n))
    {
      ghost var s := State();
      var rest := d.Keys;
      while rest != {}
        invariant rest <= d.Keys
        invariant forall n :: At(entries, n) == if n in d && n !in rest then Time(d, n) else At(s.entries, n)
        invariant forall n ::
          At(contents, n) == if n in d && n !in rest then Item(extract, s, d, n) else At(s.contents, n)
        decreases |rest|
      {
        var name :| name in rest;
        assert At(entries, name) == At(s.entries, name) && At(contents, name) == At(s.contents, name);
        Visit(d, name);
        assert At(contents, name) == Item(extract, s, d, name);
        rest := rest - {name};
      }
    }

    /** The loop over the names seen before. */
    method Forget(d: Dir)
      requires contents.Keys <= entries.Keys
      modifies this
      ensures forall n :: At(entries, n) == if n in d then old(At(entries, n)) else None
      ensures forall n :: At(contents, n) == if n in d then old(At(contents, n)) else None
    {
      ghost var s := State();
      var rest := entries.Keys;
      while rest != {}
        invariant forall n :: At(entries, n) == if n in d || n in rest then At(s.entries, n) else None
        invariant forall n :: At(contents, n) == if n in d || n in rest then At(s.contents, n) else None
        decreases |rest|
      {
        var name :| name in rest;
        if name !in d {
          var _ := Update(d, name);
          entries := entries - {name};
        }
        rest := rest - {name};
      }
    }
  }

  // Agreement with the directory over time

  /** The store after passes over the directory as it was at each of them. */
  function After<T>(extract: string -> Option<T>, hist: seq<Dir>): Store<T> {
    if hist == [] then Store(map[], map[]) else Refresh(extract, After(extract, hist[..|hist|-1]), hist[|hist|-1])
  }

  /**
   * What should be under a name: nothing for a file that is not there, the decoded file when it decodes,
   * and otherwise whatever was there before.
   */
  function Expected<T>(extract: string -> Option<T>, hist: seq<Dir>, n: string): Option<T> {
    if hist == [] || n !in hist[|hist|-1] then None
    else if extract(hist[|hist|-1][n].data).Some? then extract(hist[|hist|-1][n].data)
    else Expected(extract, hist[..|hist|-1], n)
  }

  function Seen(hist: seq<Dir>, n: string): Option<int> { if hist == [] then None else Time(hist[|hist|-1], n) }

  ghost predicate Agrees<T>(extract: string -> Option<T>, s: Store<T>, hist: seq<Dir>) {
    forall n :: At(s.entries, n) == Seen(hist, n) && At(s.contents, n) == Expected(extract, hist, n)
  }

  /** The file decodes to something new although its time, to the second, is the one seen before. */
  predicate Hidden<T(==)>(extract: string -> Option<T>, hist: seq<Dir>, d: Dir, n: string) {
    && n in d && Time(d, n) == Seen(hist, n)
    && extract(d[n].data).Some? && extract(d[n].data) != Expected(extract, hist, n)
  }

  /** A pass keeps the store in agreement with the directory exactly when no change is hidden. */
  lemma PassAgrees<T>(extract: string -> Option<T>, s: Store<T>, hist: seq<Dir>, d: Dir)
    requires Agrees(extract, s, hist)
    ensures Agrees(extract, Refresh(extract, s, d), hist + [d]) <==> forall n :: !Hidden(extract, hist, d, n)
  {
    var r, hist' := Refresh(extract, s, d), hist + [d];
    assert hist'[..|hist|] == hist;
    forall n
      ensures At(r.entries, n) == Seen(hist', n)
      ensures At(r.contents, n) == Expected(extract, hist', n) <==> !Hidden(extract, hist, d, n)
    {
      assert At(s.entries, n) == Seen(hist, n) && At(s.contents, n) == Expected(extract, hist, n);
    }
  }

  /** A file whose time to the second is the same in two successive passes has the same data in both. */
  ghost predicate TimesTell(hist: seq<Dir>) {
    |hist| <= 1 || (TimesTell(hist[..|hist|-1]) && Tells(hist[|hist|-2], hist[|hist|-1]))
  }

  ghost predicate Tells(d: Dir, d': Dir) {
    forall n | n in d && n in d' && Time(d, n) == Time(d', n) :: d[n].data == d'[n].data
  }

  /** When times tell, the store agrees with the directory after every pass. */
  lemma {:induction false} StoreAgrees<T>(extract: string -> Option<T>, hist: seq<Dir>)
    requires TimesTell(hist)
    ensures Agrees(extract, After(extract, hist), hist)
  {
    if hist != [] {
      var front, d := hist[..|hist|-1], hist[|hist|-1];
      StoreAgrees(extract, front);
      PassAgrees(extract, After(extract, front), front, d);
      forall n ensures !Hidden(extract, front, d, n) {
        if n in d && Time(d, n) == Seen(front, n) {
          assert front[|front|-1] == hist[|hist|-2];
        }
      }
      assert front + [d] == hist;
    }
  }

  /** Only present files are named, and every file that decodes is held as it is now. */
  lemma {:induction false} StoreIsCurrent<T>(extract: string -> Option<T>, hist: seq<Dir>, n: string)
    requires TimesTell(hist) && hist != []
    ensures var s, d := After(extract, hist), hist[|hist|-1];
      && (n in s.contents ==> n in d)
      && (n in d && extract(d[n].data).Some? ==> n in s.contents && s.contents[n] == extract(d[n].data).value)
  {
    StoreAgrees(extract, hist);
    var s := After(extract, hist);
    assert At(s.contents, n) == Expected(extract, hist, n);
  }

  /** A file rewritten within the second is held as it was before. */
  lemma HiddenChange<T>(extract: string -> Option<T>, name: string, x: string, y: string)
    requires extract(x).Some? && extract(y).Some? && extract(x) != extract(y)
    ensures var hist := [map[name := File(0, x)], map[name := File(1, y)]];
      At(After(extract, hist).contents, name) == extract(x) != Expected(extract, hist, name)
  {
    var d, d' := map[name := File(0, x)], map[name := File(1, y)];
    assert [d, d'][..1] == [d] && [d][..0] == [];
    assert After(extract, [d]) == Refresh(extract, Store(map[], map[]), d);
    assert After(extract, [d, d']) == Refresh(extract, After(extract, [d]), d');
    assert At(After(extract, [d]).contents, name) == extract(x);
  }

  // Selection

  predicate Matches(name: string, q: string) { name != "" && name <= q }

  /** The names stored.  They are then sorted, which changes their order and nothing that is proved below. */
  method Names<T>(contents: map<string, T>) returns (prefixes: seq<string>)
    ensures forall n :: n in prefixes <==> n in contents
    ensures |prefixes| == |contents|
  {
    prefixes := [];
    var rest := contents.Keys;
    while rest != {}
      invariant rest <= contents.Keys && |prefixes| + |rest| == |contents|
      invariant forall n :: n in prefixes <==> n in contents && n !in rest
      decreases |rest|
    {
      var k :| k in rest;
      prefixes := prefixes + [k];
      rest := rest - {k};
    }
  }

  /** selection: the names are scanned until one equals the query or all are seen. */
  method Selection<T>(contents: map<string, T>, q: string) returns (item: Option<T>, ghost best: string)
    ensures item.None? <==> forall n | n in contents :: !Matches(n, q)
    ensures item.Some? ==> best in contents && item.value == contents[best] && Matches(best, q)
    ensures item.Some? ==> forall n | n in contents && Matches(n, q) && n != best :: |n| < |best|
  {
    best := "";
    if contents == map[] {
      return None, best;
    }
    var prefixes := Names(contents);
    var bestMatch, wouldBeAt := "", 0;
    while true
      invariant 0 <= wouldBeAt < |prefixes|
      invariant bestMatch != "" ==> bestMatch in contents && Matches(bestMatch, q)
      invariant forall i | 0 <= i < wouldBeAt && Matches(prefixes[i], q) :: |prefixes[i]| <= |bestMatch|
      decreases |prefixes| - wouldBeAt
    {
      if prefixes[wouldBeAt] == q {
        bestMatch := prefixes[wouldBeAt];
        break;
      }
      if prefixes[wouldBeAt] <= q {
        if |bestMatch| == 0 || |bestMatch| < |prefixes[wouldBeAt]| {
          bestMatch := prefixes[wouldBeAt];
        }
      }
      wouldBeAt := wouldBeAt + 1;
      if wouldBeAt >= |prefixes| {
        break;
      }
    }
    assert forall n | n in contents && Matches(n, q) :: |n| <= |bestMatch| by {
      forall n | n in contents && Matches(n, q) ensures |n| <= |bestMatch| {
        var i :| 0 <= i < |prefixes| && prefixes[i] == n;
      }
    }
    if |bestMatch| == 0 {
      return None, best;
    }
    best := bestMatch;
    forall n | n in contents && Matches(n, q) && n != best ensures |n| < |best| { LongestUnique(n, best, q); }
    item := Some(contents[bestMatch]);
  }

  /** Prefixes of one name are told apart by their lengths. */
  lemma LongestUnique(a: string, b: string, q: string)
    requires a <= q && b <= q
    ensures |a| == |b| ==> a == b
  {
    assert a == q[..|a|] && b == q[..|b|];
  }
}
