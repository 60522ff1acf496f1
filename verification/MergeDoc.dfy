/**
 * internal/runner/experiment_json.go: the experiment document is built by merging one directive after
 * the other into it.
 */
module MergeDoc {
  import opened Common

  /** A decoded JSON value; numbers, strings and booleans are all handled alike. */
  datatype Json = Null | Scalar(text: string) | Array(items: seq<Json>) | Object(members: map<string, Json>)

  /** mergeMaps: `x1` is preferred, the members of two objects are merged recursively. */
  function Merge(x1: Json, x2: Json): Json {
    match x1
    case Object(m1) =>
      if !x2.Object? then x1 else
      var m2 := x2.members;
      Object(map k | k in m1.Keys + m2.Keys ::
        if k !in m2 then m1[k] else if k in m1 then Merge(m1[k], m2[k]) else m2[k])
    case Null => if x2.Object? then x2 else x1
    case _ => x1
  }

  /** mergeMaps as it is written: the members of `x2` are written into `x1` one by one. */
  method MergeMaps(x1: Json, x2: Json) returns (r: Json)
    ensures r == Merge(x1, x2)
    decreases x1
  {
    r := x1;
    match x1 {
      case Object(m1) =>
        if x2.Object? {
          var m := MergeMembers(x1, m1, x2.members, Merge(x1, x2).members);
          r := Object(m);
        }
      case Null =>
        if x2.Object? {
          r := x2;
        }
      case _ =>
    }
  }

  ghost predicate Merged(m1: map<string, Json>, m2: map<string, Json>, goal: map<string, Json>) {
    && goal.Keys == m1.Keys + m2.Keys
    && (forall k | k in m1 && k !in m2 :: goal[k] == m1[k])
    && (forall k | k in m2 :: goal[k] == if k in m1 then Merge(m1[k], m2[k]) else m2[k])
  }

  /** The loop of mergeMaps. */
  method MergeMembers(ghost x1: Json, m1: map<string, Json>, m2: map<string, Json>, ghost goal: map<string, Json>)
    returns (m: map<string, Json>)
    requires x1 == Object(m1) && Merged(m1, m2, goal)
    ensures m == goal
    decreases x1, 0
  {
    m := m1;
    var rest := m2.Keys;
    while rest != {}
      invariant rest <= m2.Keys
      invariant forall k :: k in m <==> k in goal && (k in m1 || k !in rest)
      invariant forall k | k in m :: m[k] == if k in rest then m1[k] else goal[k]
      decreases |rest|
    {
      var k :| k in rest;
      if k in m {
        var v := MergeMaps(m[k], m2[k]);
        m := m[k := v];
      } else {
        m := m[k := m2[k]];
      }
      rest := rest - {k};
    }
    assert m.Keys == goal.Keys;
  }

  /** A directive as text: no JSON at all, or the value it decodes to. */
  datatype Directive = Malformed | Decoded(value: Json)

  /** Applying the operations of an RFC 6902 patch, which may fail; a library does it. */
  type Patcher = (seq<Json>, Json) -> Option<Json>

  /** DecodePatch accepts lists of objects; null counts as an object there, and as the empty list. */
  predicate IsPatch(v: Json) {
    v.Null? || (v.Array? && forall i | 0 <= i < |v.items| :: v.items[i].Object? || v.items[i].Null?)
  }

  function Operations(v: Json): seq<Json> { if v.Array? then v.items else [] }

  /** A patch without operations leaves the document, which must not be a scalar, as it is. */
  function Apply(patch: Patcher, ops: seq<Json>, doc: Json): Option<Json> {
    if ops != [] then patch(ops, doc) else if doc.Scalar? then None else Some(doc)
  }

  /** One directive: a patch if it decodes as one, an edit to be merged otherwise. */
  function Edited(patch: Patcher, doc: Json, d: Directive): Option<Json> {
    if d.Malformed? then None
    else if IsPatch(d.value) then Apply(patch, Operations(d.value), doc)
    else Some(Merge(d.value, doc))
  }

  /** The document after all directives, or nothing when one of them fails. */
  function EditedAll(patch: Patcher, doc: Json, ds: seq<Directive>): Option<Json>
    decreases |ds|
  {
    if ds == [] then Some(doc) else
    var next := Edited(patch, doc, ds[0]);
    if next.None? then None else EditedAll(patch, next.value, ds[1..])
  }

  function Fold(doc: Json, edits: seq<Json>): Json
    decreases |edits|
  {
    if edits == [] then doc else Fold(Merge(edits[0], doc), edits[1..])
  }

  /** JSONEditor; an empty old document stands for the empty object. */
  method JSONEditor(patch: Patcher, oldDoc: Option<Json>, ds: seq<Directive>) returns (result: Option<Json>)
    ensures result == EditedAll(patch, if oldDoc.Some? then oldDoc.value else Object(map[]), ds)
  {
    var doc := if oldDoc.Some? then oldDoc.value else Object(map[]);
    ghost var doc0 := doc;
    for i := 0 to |ds|
      invariant EditedAll(patch, doc0, ds) == EditedAll(patch, doc, ds[i..])
    {
      assert ds[i..][1..] == ds[i+1..];
      if ds[i].Malformed? {
        return None;
      }
      if IsPatch(ds[i].value) {
        var applied := Apply(patch, Operations(ds[i].value), doc);
        if applied.None? {
          return None;
        }
        doc := applied.value;
      } else {
        doc := MergeMaps(ds[i].value, doc);
      }
    }
    return Some(doc);
  }

  function Directives(edits: seq<Json>): seq<Directive> {
    seq(|edits|, i requires 0 <= i < |edits| => Decoded(edits[i]))
  }

  /** Directives that are not patches build the fold of the merge. */
  lemma {:induction false} EditedIsFold(patch: Patcher, doc: Json, edits: seq<Json>)
    requires forall i | 0 <= i < |edits| :: !IsPatch(edits[i])
    ensures EditedAll(patch, doc, Directives(edits)) == Some(Fold(doc, edits))
    decreases |edits|
  {
    if edits != [] {
      EditedIsFold(patch, Merge(edits[0], doc), edits[1..]);
      assert Directives(edits)[1..] == Directives(edits[1..]);
    }
  }

  /** A list of directives is one part after the other, and stops at the first that fails. */
  lemma {:induction false} EditedInTurn(patch: Patcher, doc: Json, a: seq<Directive>, b: seq<Directive>)
    ensures var first := EditedAll(patch, doc, a);
      EditedAll(patch, doc, a + b) == if first.None? then None else EditedAll(patch, first.value, b)
    decreases |a|
  {
    if a == [] {
      assert a + b == b;
    } else {
      assert (a + b)[1..] == a[1..] + b;
      var next := Edited(patch, doc, a[0]);
      if next.Some? { EditedInTurn(patch, next.value, a[1..], b); }
    }
  }

  /** What is no JSON is an error; what decodes as a patch is applied as one, and fails where that does. */
  lemma PatchesFirst(patch: Patcher, doc: Json, v: Json)
    ensures Edited(patch, doc, Malformed) == None
    ensures IsPatch(v) && Operations(v) != [] ==> Edited(patch, doc, Decoded(v)) == patch(v.items, doc)
    ensures IsPatch(v) && Operations(v) == [] ==>
      Edited(patch, doc, Decoded(v)) == if doc.Scalar? then None else Some(doc)
  {
  }

  // Absorption and survival

  /** Merging the same edit again changes nothing. */
  lemma {:induction false} MergeAbsorbs(e: Json, doc: Json)
    ensures Merge(e, Merge(e, doc)) == Merge(e, doc)
    decreases e
  {
    if e.Object? {
      MergeSelf(e);
      if doc.Object? {
        var once := Merge(e, doc);
        forall k | k in e.members && k in doc.members { MergeAbsorbs(e.members[k], doc.members[k]); }
        forall k | k in e.members && k !in doc.members { MergeSelf(e.members[k]); }
        assert Merge(e, once).members == once.members;
      }
    }
  }

  lemma {:induction false} MergeSelf(e: Json)
    ensures Merge(e, e) == e
  {
    if e.Object? {
      forall k | k in e.members { MergeSelf(e.members[k]); }
      assert Merge(e, e).members == e.members;
    }
  }

  type Path = seq<string>

  /** The value at a member path. */
  function At(doc: Json, p: Path): Option<Json> {
    if p == [] then Some(doc)
    else if doc.Object? && p[0] in doc.members then At(doc.members[p[0]], p[1..])
    else None
  }

  function MergedAt(edit: Option<Json>, was: Json): Json {
    if edit.Some? then Merge(edit.value, was) else was
  }

  /** The edit holds something that is neither an object nor null strictly above `p`. */
  ghost predicate Blocked(e: Json, p: Path) {
    exists n: nat | n < |p| :: At(e, p[..n]).Some? && !At(e, p[..n]).value.Object? && !At(e, p[..n]).value.Null?
  }

  predicate BlockedRec(e: Json, p: Path) {
    && p != []
    && ((!e.Object? && !e.Null?) || (e.Object? && p[0] in e.members && BlockedRec(e.members[p[0]], p[1..])))
  }

  lemma {:induction false} BlockedIsRec(e: Json, p: Path)
    ensures Blocked(e, p) <==> BlockedRec(e, p)
  {
    if p != [] {
      if e.Object? && p[0] in e.members {
        BlockedIsRec(e.members[p[0]], p[1..]);
        if Blocked(e, p) {
          var n: nat :| n < |p| && At(e, p[..n]).Some? && !At(e, p[..n]).value.Object? && !At(e, p[..n]).value.Null?;
          assert p[..n][1..] == p[1..][..n-1];
        }
        if Blocked(e.members[p[0]], p[1..]) {
          var n: nat :| n < |p[1..]| && At(e.members[p[0]], p[1..][..n]).Some?
            && !At(e.members[p[0]], p[1..][..n]).value.Object? && !At(e.members[p[0]], p[1..][..n]).value.Null?;
          assert p[..n+1][1..] == p[1..][..n];
        }
      } else {
        assert p[..0] == [];
      }
    }
  }

  /**
   * A member path of the old document survives exactly when the edit does not block it, and then holds
   * its old value with whatever the edit has there merged in.
   */
  lemma {:induction false} MergeSurvival(e: Json, doc: Json, p: Path)
    requires At(doc, p).Some?
    ensures At(Merge(e, doc), p).Some? <==> !Blocked(e, p)
    ensures !Blocked(e, p) ==> At(Merge(e, doc), p).value == MergedAt(At(e, p), At(doc, p).value)
  {
    BlockedIsRec(e, p);
    SurvivalRec(e, doc, p);
  }

  lemma {:induction false} SurvivalRec(e: Json, doc: Json, p: Path)
    requires At(doc, p).Some?
    ensures At(Merge(e, doc), p).Some? <==> !BlockedRec(e, p)
    ensures !BlockedRec(e, p) ==> At(Merge(e, doc), p).value == MergedAt(At(e, p), At(doc, p).value)
    decreases |p|
  {
    if p != [] && e.Object? && p[0] in e.members {
      SurvivalRec(e.members[p[0]], doc.members[p[0]], p[1..]);
    }
  }

  // The order of directives

  /** Two edits can be merged in either order, whatever the document. */
  ghost predicate Commute(a: Json, b: Json) {
    forall doc :: Merge(a, Merge(b, doc)) == Merge(b, Merge(a, doc))
  }

  /** Where both edits hold a member, both hold objects or null, or the same value. */
  predicate Agree(a: Json, b: Json) {
    if a.Object? && b.Object? then forall k | k in a.members && k in b.members :: Agree(a.members[k], b.members[k])
    else if a.Null? || b.Null? then (a.Null? || a.Object?) && (b.Null? || b.Object?)
    else a == b
  }

  lemma {:induction false} AgreeCommute(a: Json, b: Json, doc: Json)
    requires Agree(a, b)
    ensures Merge(a, Merge(b, doc)) == Merge(b, Merge(a, doc))
    decreases a
  {
    if a.Object? && b.Object? {
      AgreeBase(a, b);
      if doc.Object? {
        var ab, ba := Merge(a, Merge(b, doc)).members, Merge(b, Merge(a, doc)).members;
        forall k | k in ab ensures k in ba && ab[k] == ba[k] {
          if k in a.members && k in b.members {
            AgreeBase(a.members[k], b.members[k]);
            if k in doc.members { AgreeCommute(a.members[k], b.members[k], doc.members[k]); }
          }
        }
        assert ab.Keys == ba.Keys;
      }
    }
  }

  lemma {:induction false} AgreeBase(a: Json, b: Json)
    requires Agree(a, b)
    ensures Merge(a, b) == Merge(b, a)
    decreases a
  {
    if a.Object? && b.Object? {
      forall k | k in a.members && k in b.members { AgreeBase(a.members[k], b.members[k]); }
      assert Merge(a, b).members == Merge(b, a).members;
    }
  }

  /** A document on which edits that do not agree give different results in different orders. */
  lemma {:induction false} DisagreeWitness(a: Json, b: Json) returns (doc: Json)
    requires !Agree(a, b)
    ensures Merge(a, Merge(b, doc)) != Merge(b, Merge(a, doc))
    decreases a
  {
    if a.Object? && b.Object? {
      var k :| k in a.members && k in b.members && !Agree(a.members[k], b.members[k]);
      var d := DisagreeWitness(a.members[k], b.members[k]);
      doc := Object(map[k := d]);
      assert Merge(b, doc).members[k] == Merge(b.members[k], d);
      assert Merge(a, doc).members[k] == Merge(a.members[k], d);
      assert Merge(a, Merge(b, doc)).members[k] == Merge(a.members[k], Merge(b.members[k], d));
      assert Merge(b, Merge(a, doc)).members[k] == Merge(b.members[k], Merge(a.members[k], d));
    } else {
      doc := Null;
    }
  }

  /** Two edits commute on every document exactly when they agree. */
  lemma CommuteIffAgree(a: Json, b: Json)
    ensures Commute(a, b) <==> Agree(a, b)
  {
    if Agree(a, b) {
      forall doc ensures Merge(a, Merge(b, doc)) == Merge(b, Merge(a, doc)) { AgreeCommute(a, b, doc); }
    } else {
      var doc := DisagreeWitness(a, b);
    }
  }

  /** The documented rule: no two directives hold the same tag, except for objects, which nest. */
  predicate TagsOnce(a: Json, b: Json) {
    a.Object? && b.Object? && forall k | k in a.members && k in b.members :: TagsOnce(a.members[k], b.members[k])
  }

  lemma {:induction false} TagsOnceAgree(a: Json, b: Json)
    requires TagsOnce(a, b)
    ensures Agree(a, b) && Agree(b, a)
    decreases a
  {
    forall k | k in a.members && k in b.members { TagsOnceAgree(a.members[k], b.members[k]); }
  }

  ghost predicate Compatible(edits: seq<Json>) {
    forall i, j | 0 <= i < j < |edits| :: Agree(edits[i], edits[j])
  }

  lemma {:induction false} AgreeSymmetric(a: Json, b: Json)
    requires Agree(a, b)
    ensures Agree(b, a)
    decreases a
  {
    if a.Object? && b.Object? {
      forall k | k in a.members && k in b.members { AgreeSymmetric(a.members[k], b.members[k]); }
    }
  }

  /** A directive that agrees with all before it may as well come first. */
  lemma {:induction false} FoldToFront(doc: Json, edits: seq<Json>, i: nat)
    requires i < |edits| && forall j | 0 <= j < i :: Agree(edits[j], edits[i])
    ensures Fold(doc, edits) == Fold(Merge(edits[i], doc), edits[..i] + edits[i+1..])
    decreases i
  {
    if i == 0 {
      assert edits[..0] + edits[1..] == edits[1..];
    } else {
      FoldToFront(Merge(edits[0], doc), edits[1..], i - 1);
      AgreeCommute(edits[0], edits[i], doc);
      assert (edits[..i] + edits[i+1..])[1..] == edits[1..][..i-1] + edits[1..][i..];
    }
  }

  lemma FirstIndex(x: Json, ys: seq<Json>) returns (i: nat)
    requires x in ys
    ensures i < |ys| && ys[i] == x && x !in ys[..i]
  {
    i := 0;
    while ys[i] != x
      invariant i < |ys| && x !in ys[..i] && x in ys[i..]
      decreases |ys| - i
    {
      i := i + 1;
    }
  }

  lemma DropBoth(xs: seq<Json>, ys: seq<Json>, i: nat)
    requires xs != [] && i < |ys| && ys[i] == xs[0] && multiset(xs) == multiset(ys)
    ensures multiset(xs[1..]) == multiset(ys[..i] + ys[i+1..])
  {
    assert xs == [xs[0]] + xs[1..];
    assert ys == ys[..i] + [ys[i]] + ys[i+1..];
    var a, b, x := multiset(xs[1..]), multiset(ys[..i] + ys[i+1..]), multiset([xs[0]]);
    assert multiset(xs) == x + a;
    assert multiset(ys) == multiset(ys[..i] + [ys[i]]) + multiset(ys[i+1..]) == x + b;
    assert a == (x + a) - x && b == (x + b) - x;
  }

  lemma SameMembers(xs: seq<Json>, ys: seq<Json>, x: Json)
    requires multiset(xs) == multiset(ys) && x in ys
    ensures x in xs
  {
    assert x in multiset(ys);
  }

  lemma OthersAgree(xs: seq<Json>, y: Json)
    requires Compatible(xs) && y in xs && y != xs[0]
    ensures Agree(y, xs[0])
  {
    var t :| 0 <= t < |xs| && xs[t] == y;
    AgreeSymmetric(xs[0], xs[t]);
  }

  /** The document does not depend on the order in which compatible directives arrive. */
  lemma {:induction false} OrderIndependence(doc: Json, xs: seq<Json>, ys: seq<Json>)
    requires Compatible(xs) && multiset(xs) == multiset(ys)
    ensures Fold(doc, xs) == Fold(doc, ys)
    decreases |xs|
  {
    assert |xs| == |multiset(xs)| == |ys|;
    if xs != [] {
      SameMembers(ys, xs, xs[0]);
      var i := FirstIndex(xs[0], ys);
      forall j | 0 <= j < i ensures Agree(ys[j], ys[i]) {
        SameMembers(xs, ys, ys[j]);
        assert ys[j] == ys[..i][j];
        OthersAgree(xs, ys[j]);
      }
      FoldToFront(doc, ys, i);
      DropBoth(xs, ys, i);
      OrderIndependence(Merge(xs[0], doc), xs[1..], ys[..i] + ys[i+1..]);
    }
  }

  /** The documented rule is enough: directives in which every tag appears once merge in any order. */
  lemma TagsOnceOrderIndependence(doc: Json, xs: seq<Json>, ys: seq<Json>)
    requires forall i, j | 0 <= i < j < |xs| :: TagsOnce(xs[i], xs[j])
    requires multiset(xs) == multiset(ys)
    ensures Fold(doc, xs) == Fold(doc, ys)
  {
    forall i, j | 0 <= i < j < |xs| ensures Agree(xs[i], xs[j]) { TagsOnceAgree(xs[i], xs[j]); }
    OrderIndependence(doc, xs, ys);
  }

  // RFC 7396

  /** MergePatch of section 2 of RFC 7396; an absent target is `None`. */
  function MergePatch(target: Option<Json>, patch: Json): Json
    decreases patch
  {
    if !patch.Object? then patch else
    var t := if target.Some? && target.value.Object? then target.value.members else map[];
    var p := patch.members;
    Object(map k | k in t.Keys + p.Keys && (k in p ==> !p[k].Null?) ::
      if k in p then MergePatch(if k in t then Some(t[k]) else None, p[k]) else t[k])
  }

  /** No object in the edit, at any depth, has a null member. */
  predicate NoNullMembers(e: Json) {
    e.Object? ==> forall k | k in e.members :: !e.members[k].Null? && NoNullMembers(e.members[k])
  }

  /** Merging into nothing gives the edit back exactly when there is nothing to delete. */
  lemma {:induction false} PatchOfNothing(t: Option<Json>, e: Json)
    requires t.None? || !t.value.Object?
    ensures MergePatch(t, e) == e <==> NoNullMembers(e)
    decreases e
  {
    if e.Object? {
      var p := MergePatch(t, e).members;
      forall k | k in e.members { PatchOfNothing(None, e.members[k]); }
      if NoNullMembers(e) {
        assert p == e.members;
      } else {
        var k :| k in e.members && (e.members[k].Null? || !NoNullMembers(e.members[k]));
        assert k !in p || p[k] != e.members[k];
      }
    }
  }

  /**
   * The merge is the one of RFC 7396 exactly when the edit has no null member and does not replace an
   * object by null: there the code keeps what the standard deletes.
   */
  lemma {:induction false} MergeIsMergePatch(e: Json, doc: Json)
    ensures Merge(e, doc) == MergePatch(Some(doc), e) <==> NoNullMembers(e) && !(e.Null? && doc.Object?)
    decreases e
  {
    if e.Object? && !doc.Object? {
      PatchOfNothing(Some(doc), e);
    } else if e.Object? {
      MemberwisePatch(e, doc);
    }
  }

  lemma {:induction false} MemberwisePatch(e: Json, doc: Json)
    requires e.Object? && doc.Object?
    ensures Merge(e, doc) == MergePatch(Some(doc), e) <==> NoNullMembers(e)
    decreases e, 0
  {
    var m, p := Merge(e, doc).members, MergePatch(Some(doc), e).members;
    forall k | k in e.members
      ensures k in m && ((k in p && m[k] == p[k]) <==> !e.members[k].Null? && NoNullMembers(e.members[k]))
    {
      if k in doc.members {
        MergeIsMergePatch(e.members[k], doc.members[k]);
      } else {
        PatchOfNothing(None, e.members[k]);
      }
    }
    assert forall k | k in doc.members && k !in e.members :: k in m && k in p && m[k] == p[k];
    if NoNullMembers(e) {
      assert m == p;
    }
  }

  function Patched(doc: Json, edits: seq<Json>): Json
    decreases |edits|
  {
    if edits == [] then doc else Patched(MergePatch(Some(doc), edits[0]), edits[1..])
  }

  /** Edits without nulls, one merged after the other, build the document RFC 7396 builds. */
  lemma {:induction false} FoldFollowsStandard(doc: Json, edits: seq<Json>)
    requires forall i | 0 <= i < |edits| :: NoNullMembers(edits[i]) && !edits[i].Null?
    ensures Fold(doc, edits) == Patched(doc, edits)
    decreases |edits|
  {
    if edits != [] {
      MergeIsMergePatch(edits[0], doc);
      FoldFollowsStandard(Merge(edits[0], doc), edits[1..]);
    }
  }

  /** So does the editor, for every list of directives that are not patches and hold no null member. */
  lemma EditorFollowsStandard(patch: Patcher, doc: Json, edits: seq<Json>)
    requires forall i | 0 <= i < |edits| :: NoNullMembers(edits[i]) && !IsPatch(edits[i])
    ensures EditedAll(patch, doc, Directives(edits)) == Some(Patched(doc, edits))
  {
    EditedIsFold(patch, doc, edits);
    FoldFollowsStandard(doc, edits);
  }

  /**
   * One directive that holds no patch operation does what RFC 7396 says exactly when it has no null
   * member; null and the empty list, taken for patches that do nothing, only where they change nothing.
   */
  lemma DirectiveFollowsStandard(patch: Patcher, doc: Json, e: Json)
    requires IsPatch(e) ==> Operations(e) == []
    ensures Edited(patch, doc, Decoded(e)) == Some(MergePatch(Some(doc), e))
            <==> if IsPatch(e) then doc == e else NoNullMembers(e)
  {
    if !IsPatch(e) { MergeIsMergePatch(e, doc); }
  }

  /** The directive null, for which RFC 7396 replaces the document by null, leaves every object as it is. */
  lemma NullIsIgnored(patch: Patcher, doc: Json)
    requires doc.Object?
    ensures Edited(patch, doc, Decoded(Null)) == Some(doc) != Some(MergePatch(Some(doc), Null))
  {
  }
}
