/**
 * tools/serving-bridge/tfx_serving.go: the TFX serving configuration is rescanned and rewritten until it
 * serves exactly the models in the index.
 */
module TfxServing {
  import opened Common

  /** An entry of the model configuration list; `extra` are the settings the bridge does not touch. */
  datatype ModelConfig = ModelConfig(basePath: string, name: string, platform: string, extra: string)

  /** The location of a model whose key in the bucket is `base`. */
  function Location(bucket: string, base: string): string {
    "s3://" + bucket + "/" + base + "/"
  }

  function Locations(bucket: string, bases: seq<string>): set<string> {
    set b | b in bases :: Location(bucket, b)
  }

  function Paths(cfgs: seq<ModelConfig>): set<string> {
    if cfgs == [] then {} else Paths(cfgs[..|cfgs|-1]) + {cfgs[|cfgs|-1].basePath}
  }

  lemma {:induction false} PathAt(cfgs: seq<ModelConfig>, i: nat)
    requires i < |cfgs|
    ensures cfgs[i].basePath in Paths(cfgs)
  {
    if i < |cfgs| - 1 { PathAt(cfgs[..|cfgs|-1], i); }
  }

  lemma {:induction false} FindPath(cfgs: seq<ModelConfig>, path: string) returns (i: nat)
    requires path in Paths(cfgs)
    ensures i < |cfgs| && cfgs[i].basePath == path
  {
    if cfgs[|cfgs|-1].basePath == path {
      i := |cfgs| - 1;
    } else {
      i := FindPath(cfgs[..|cfgs|-1], path);
    }
  }

  /** The entries whose models are still wanted, in their order. */
  function Wanted(cfgs: seq<ModelConfig>, locs: set<string>): seq<ModelConfig> {
    if cfgs == [] then [] else
    Wanted(cfgs[..|cfgs|-1], locs) + (if cfgs[|cfgs|-1].basePath in locs then [cfgs[|cfgs|-1]] else [])
  }

  lemma {:induction false} WantedConcat(a: seq<ModelConfig>, b: seq<ModelConfig>, locs: set<string>)
    ensures Wanted(a + b, locs) == Wanted(a, locs) + Wanted(b, locs)
    decreases |b|
  {
    if b == [] {
      assert a + b == a;
    } else {
      assert (a + b)[..|a+b|-1] == a + b[..|b|-1];
      WantedConcat(a, b[..|b|-1], locs);
    }
  }

  lemma {:induction false} WantedCount(cfgs: seq<ModelConfig>, locs: set<string>)
    ensures |Wanted(cfgs, locs)| <= |cfgs|
    ensures Paths(cfgs) <= locs <==> |Wanted(cfgs, locs)| == |cfgs|
    ensures Paths(cfgs) <= locs ==> Wanted(cfgs, locs) == cfgs
  {
    if cfgs != [] {
      WantedCount(cfgs[..|cfgs|-1], locs);
    }
  }

  lemma {:induction false} WantedPaths(cfgs: seq<ModelConfig>, locs: set<string>)
    ensures Paths(Wanted(cfgs, locs)) == Paths(cfgs) * locs
  {
    if cfgs != [] {
      var front, c := cfgs[..|cfgs|-1], cfgs[|cfgs|-1];
      WantedPaths(front, locs);
      PathsConcat(Wanted(front, locs), if c.basePath in locs then [c] else []);
      assert Paths([c]) == {c.basePath} by { assert [c][..0] == []; }
    }
  }

  lemma {:induction false} PathsConcat(a: seq<ModelConfig>, b: seq<ModelConfig>)
    ensures Paths(a + b) == Paths(a) + Paths(b)
    decreases |b|
  {
    if b == [] {
      assert a + b == a;
    } else {
      assert (a + b)[..|a+b|-1] == a + b[..|b|-1];
      PathsConcat(a, b[..|b|-1]);
    }
  }

  /** The loop that takes the first entry of one base path out of the list. */
  method DeleteFirst(cfgs: seq<ModelConfig>, path: string, ghost locs: set<string>) returns (r: seq<ModelConfig>)
    requires path in Paths(cfgs) && path !in locs
    ensures |r| == |cfgs| - 1 && Wanted(r, locs) == Wanted(cfgs, locs)
    ensures Paths(cfgs) - {path} <= Paths(r)
  {
    ghost var at := FindPath(cfgs, path);
    var i := 0;
    while cfgs[i].basePath != path
      invariant i <= at < |cfgs| && cfgs[at].basePath == path
      decreases |cfgs| - i
    {
      i := i + 1;
    }
    r := cfgs[..i] + cfgs[i+1..];
    assert cfgs == cfgs[..i] + [cfgs[i]] + cfgs[i+1..];
    WantedSplice(cfgs[..i], cfgs[i], cfgs[i+1..], locs);
    PathsSplice(cfgs[..i], cfgs[i], cfgs[i+1..]);
  }

  lemma WantedSplice(a: seq<ModelConfig>, c: ModelConfig, b: seq<ModelConfig>, locs: set<string>)
    requires c.basePath !in locs
    ensures Wanted(a + [c] + b, locs) == Wanted(a + b, locs)
  {
    assert (a + [c])[..|a|] == a;
    WantedConcat(a + [c], b, locs);
    WantedConcat(a, b, locs);
  }

  lemma PathsSplice(a: seq<ModelConfig>, c: ModelConfig, b: seq<ModelConfig>)
    ensures Paths(a + [c] + b) == Paths(a + b) + {c.basePath}
  {
    assert (a + [c])[..|a|] == a;
    PathsConcat(a + [c], b);
    PathsConcat(a, b);
  }

  /** The entries made for models that are not yet served: each location once, named by its model. */
  ghost predicate Additions(adds: seq<ModelConfig>, missing: set<string>, bucket: string, bases: seq<string>) {
    && Paths(adds) == missing
    && (forall i, j | 0 <= i < j < |adds| :: adds[i].basePath != adds[j].basePath)
    && (forall i | 0 <= i < |adds| :: NewEntry(adds[i], bucket, bases))
  }

  ghost predicate NewEntry(a: ModelConfig, bucket: string, bases: seq<string>) {
    a.name in bases && a == ModelConfig(Location(bucket, a.name), a.name, "tensorflow", "")
  }

  /** An entry made for a model says where it is, by what name it is served, and on which platform. */
  lemma NewEntryIs(a: ModelConfig, bucket: string, bases: seq<string>)
    requires NewEntry(a, bucket, bases)
    ensures a.name in bases && a.basePath == "s3://" + bucket + "/" + a.name + "/"
    ensures a.platform == "tensorflow" && a.extra == ""
  {
  }

  /** One scan: what is written when the configuration does not match the index yet. */
  method ScanConfig(cfgs: seq<ModelConfig>, bucket: string, bases: seq<string>)
    returns (updated: Option<seq<ModelConfig>>, ghost adds: seq<ModelConfig>)
    ensures updated.None? <==> Paths(cfgs) == Locations(bucket, bases)
    ensures updated.None? ==> adds == []
    ensures updated.Some? ==> var locs := Locations(bucket, bases);
      && Additions(adds, locs - Paths(cfgs), bucket, bases)
      && Wanted(updated.value, locs) == Wanted(cfgs, locs) + adds
      && |updated.value| - |adds| == |cfgs| - |Paths(cfgs) - locs|
  {
    adds := [];
    var tfxDirs := Paths(cfgs);
    var names, mdlDirs := Index(bucket, bases);
    var deletions := tfxDirs - mdlDirs;
    var additions := mdlDirs - tfxDirs;
    if deletions == {} && additions == {} {
      return None, [];
    }
    var kept := Delete(cfgs, deletions, mdlDirs);
    var mdls := Make(additions, names, bucket, bases);
    adds := mdls;
    WantedConcat(kept, mdls, mdlDirs);
    WantedCount(mdls, mdlDirs);
    updated := Some(kept + mdls);
  }

  /** The model locations and the names they stand for. */
  method Index(bucket: string, bases: seq<string>) returns (names: map<string, string>, mdlDirs: set<string>)
    ensures mdlDirs == Locations(bucket, bases) == names.Keys
    ensures forall l | l in names :: names[l] in bases && Location(bucket, names[l]) == l
  {
    names, mdlDirs := map[], {};
    for i := 0 to |bases|
      invariant mdlDirs == Locations(bucket, bases[..i]) == names.Keys
      invariant forall l | l in names :: names[l] in bases && Location(bucket, names[l]) == l
    {
      assert bases[..i+1] == bases[..i] + [bases[i]];
      var loc := Location(bucket, bases[i]);
      mdlDirs := mdlDirs + {loc};
      names := names[loc := bases[i]];
    }
    assert bases[..|bases|] == bases;
  }

  method Delete(cfgs: seq<ModelConfig>, deletions: set<string>, ghost locs: set<string>) returns (r: seq<ModelConfig>)
    requires deletions == Paths(cfgs) - locs
    ensures Wanted(r, locs) == Wanted(cfgs, locs) && |r| == |cfgs| - |deletions|
  {
    r := cfgs;
    var rest := deletions;
    while rest != {}
      invariant rest <= deletions && rest <= Paths(r)
      invariant Wanted(r, locs) == Wanted(cfgs, locs)
      invariant |r| == |cfgs| - |deletions| + |rest|
      decreases |rest|
    {
      var path :| path in rest;
      r := DeleteFirst(r, path, locs);
      rest := rest - {path};
    }
  }

  lemma AdditionsStep(mdls: seq<ModelConfig>, done: set<string>, bucket: string, bases: seq<string>, mdl: ModelConfig)
    requires Additions(mdls, done, bucket, bases) && mdl.basePath !in done && NewEntry(mdl, bucket, bases)
    ensures Additions(mdls + [mdl], done + {mdl.basePath}, bucket, bases)
  {
    forall i | 0 <= i < |mdls| ensures mdls[i].basePath != mdl.basePath { PathAt(mdls, i); }
    assert (mdls + [mdl])[..|mdls|] == mdls;
  }

  method Make(additions: set<string>, names: map<string, string>, ghost bucket: string, ghost bases: seq<string>)
    returns (mdls: seq<ModelConfig>)
    requires additions <= names.Keys && "" !in additions
    requires forall l | l in names :: names[l] in bases && Location(bucket, names[l]) == l
    ensures Additions(mdls, additions, bucket, bases)
  {
    mdls := [];
    var rest := additions;
    ghost var done: set<string> := {};
    while rest != {}
      invariant rest + done == additions && rest !! done
      invariant Additions(mdls, done, bucket, bases)
      decreases |rest|
    {
      var addName :| addName in rest;
      if addName != "" {
        var mdl := ModelConfig(addName, names[addName], "tensorflow", "");
        AdditionsStep(mdls, done, bucket, bases, mdl);
        mdls := mdls + [mdl];
      }
      rest, done := rest - {addName}, done + {addName};
    }
  }

  /** The locations served after a scan: all that are wanted. */
  lemma ScannedPaths(cfgs: seq<ModelConfig>, updated: seq<ModelConfig>, adds: seq<ModelConfig>, locs: set<string>)
    requires Wanted(updated, locs) == Wanted(cfgs, locs) + adds && Paths(adds) == locs - Paths(cfgs)
    ensures locs <= Paths(updated)
  {
    WantedPaths(cfgs, locs);
    WantedPaths(updated, locs);
    PathsConcat(Wanted(cfgs, locs), adds);
  }

  /** Entries of models that are not wanted, and wanted models without an entry. */
  function Mismatch(cfgs: seq<ModelConfig>, locs: set<string>): nat {
    WantedCount(cfgs, locs);
    |cfgs| - |Wanted(cfgs, locs)| + |locs - Paths(cfgs)|
  }

  /** The number of entries to correct falls with every scan that changes anything. */
  lemma ScanProgress(cfgs: seq<ModelConfig>, updated: seq<ModelConfig>, adds: seq<ModelConfig>, locs: set<string>)
    requires Paths(cfgs) != locs
    requires Wanted(updated, locs) == Wanted(cfgs, locs) + adds && Paths(adds) == locs - Paths(cfgs)
    requires |updated| - |adds| == |cfgs| - |Paths(cfgs) - locs|
    ensures Mismatch(updated, locs) < Mismatch(cfgs, locs)
  {
    ScannedPaths(cfgs, updated, adds, locs);
    assert locs - Paths(updated) == {};
    if Paths(cfgs) - locs == {} {
      assert locs - Paths(cfgs) != {};
    }
  }

  /**
   * tfxScan with a fixed index and reads and writes that succeed: it stops with exactly the models of the
   * index served; entries still wanted are unchanged, in order, and come first; each missing model has
   * been added once.
   */
  method Scan(cfgs: seq<ModelConfig>, bucket: string, bases: seq<string>)
    returns (served: seq<ModelConfig>, ghost adds: seq<ModelConfig>)
    ensures Paths(served) == Locations(bucket, bases)
    ensures served == Wanted(cfgs, Locations(bucket, bases)) + adds
    ensures Additions(adds, Locations(bucket, bases) - Paths(cfgs), bucket, bases)
  {
    served, adds := cfgs, [];
    ghost var locs := Locations(bucket, bases);
    while true
      invariant Wanted(served, locs) == Wanted(cfgs, locs) + adds
      invariant || (served == cfgs && adds == [])
                || (locs <= Paths(served) && Additions(adds, locs - Paths(cfgs), bucket, bases))
      decreases Mismatch(served, locs)
    {
      var updated, more := ScanConfig(served, bucket, bases);
      if updated.None? {
        WantedCount(served, locs);
        return;
      }
      ScanProgress(served, updated.value, more, locs);
      ScannedPaths(served, updated.value, more, locs);
      if locs <= Paths(served) {
        assert Paths(more) == {} && more == [];
        assert Wanted(updated.value, locs) == Wanted(served, locs);
        if served == cfgs && adds == [] { assert locs - Paths(cfgs) == {}; }
      } else {
        adds := more;
      }
      served := updated.value;
    }
  }
}
