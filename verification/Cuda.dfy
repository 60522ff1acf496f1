/** internal/cuda/cuda.go: whole card GPU allocation with tracking ids. */
module Cuda {
  import opened Common

  /** GPUTrack */
  datatype Track = Track(uuid: string, slots: u64, mem: u64, busy: bool,
                         eccFailure: Option<string>, tracking: set<string>)

  /** GPUAllocated, without the environment variables it carries for the job */
  datatype Handle = Handle(tracking: string, uuid: string, slots: u64, mem: u64)

  type Cards = map<string, Track>

  datatype ReturnError = NotInService | InvalidAllocation

  /** The request parameters of AllocGPU. */
  datatype Want = Want(maxGPU: u64, maxGPUMem: u64, units: seq<int>, cardCount: nat)
  {
    predicate Nothing() { maxGPU == 0 && maxGPUMem == 0 }
  }

  predicate Keyed(cards: Cards) {
    forall k | k in cards :: cards[k].uuid == k
  }

  /** Free, without ECC failure, with the memory asked for, and of an acceptable size. */
  predicate Usable(c: Track, w: Want) {
    !c.busy && c.eccFailure.None? && c.mem >= w.maxGPUMem && c.slots in w.units
  }

  function UsableCards(cards: Cards, w: Want): set<string> {
    set k | k in cards && Usable(cards[k], w)
  }

  predicate Fits(cards: Cards, w: Want) {
    w.Nothing() || |UsableCards(cards, w)| >= w.cardCount
  }

  function GrantOne(cards: Cards, h: Handle): Cards {
    if h.uuid !in cards then cards else
    var c := cards[h.uuid];
    cards[h.uuid := c.(busy := true, tracking := c.tracking + {h.tracking})]
  }

  function Grant(cards: Cards, hs: seq<Handle>): Cards {
    if hs == [] then cards else GrantOne(Grant(cards, hs[..|hs|-1]), hs[|hs|-1])
  }

  lemma GrantLast(cards: Cards, hs: seq<Handle>, h: Handle)
    ensures Grant(cards, hs + [h]) == GrantOne(Grant(cards, hs), h)
  {
    assert (hs + [h])[..|hs|] == hs;
  }

  /** The effect and the outcome of ReturnGPU. */
  function ReturnOne(cards: Cards, h: Handle): (Cards, Option<ReturnError>) {
    if h.slots == 0 then (cards, None)
    else if h.uuid !in cards then (cards, Some(NotInService))
    else if h.tracking !in cards[h.uuid].tracking then (cards, Some(InvalidAllocation))
    else
      var c := cards[h.uuid];
      (cards[h.uuid := c.(tracking := c.tracking - {h.tracking}, busy := false)], None)
  }

  /** A handle that is accepted takes its own id off its card and nothing else, and the card is free. */
  lemma ReturnTakesOne(cards: Cards, h: Handle)
    requires h.slots != 0 && ReturnOne(cards, h).1.None?
    ensures var cards' := ReturnOne(cards, h).0;
      && h.uuid in cards && h.tracking in cards[h.uuid].tracking && cards'.Keys == cards.Keys
      && (forall k | k in cards && k != h.uuid :: cards'[k] == cards[k])
      && (forall t :: t in cards'[h.uuid].tracking <==> t in cards[h.uuid].tracking && t != h.tracking)
      && cards'[h.uuid].(tracking := cards[h.uuid].tracking, busy := cards[h.uuid].busy) == cards[h.uuid]
      && !cards'[h.uuid].busy
  {
  }

  function ReturnAll(cards: Cards, hs: seq<Handle>): Cards {
    if hs == [] then cards else ReturnOne(ReturnAll(cards, hs[..|hs|-1]), hs[|hs|-1]).0
  }

  /** The errors ReturnGPU gives while `hs` are returned one after the other. */
  function ReturnErrors(cards: Cards, hs: seq<Handle>): seq<ReturnError> {
    if hs == [] then [] else
    var front, h := hs[..|hs|-1], hs[|hs|-1];
    var err := ReturnOne(ReturnAll(cards, front), h).1;
    ReturnErrors(cards, front) + (if err.Some? then [err.value] else [])
  }

  function MarkFailed(cards: Cards, uuid: string, devErr: string): Cards {
    if uuid in cards && cards[uuid].eccFailure.None?
    then cards[cards[uuid].uuid := cards[uuid].(eccFailure := Some(devErr))]
    else cards
  }

  /** Different usable cards, each under a tracking id of its own. */
  ghost predicate Picks(cards: Cards, w: Want, hs: seq<Handle>) {
    && (forall i | 0 <= i < |hs| :: Describes(hs[i], cards) && Usable(cards[hs[i].uuid], w))
    && (forall i, j | 0 <= i < j < |hs| :: hs[i].uuid != hs[j].uuid && hs[i].tracking != hs[j].tracking)
  }

  /** A choice of cards AllocGPU may make. */
  ghost predicate ValidGrant(cards: Cards, w: Want, hs: seq<Handle>) {
    |hs| == (if w.Nothing() then 0 else w.cardCount) && Picks(cards, w, hs)
  }

  function Bag(hs: seq<Handle>): multiset<Handle> {
    if hs == [] then multiset{} else Bag(hs[..|hs|-1]) + multiset{hs[|hs|-1]}
  }

  lemma {:induction false} BagCounts(hs: seq<Handle>, h: Handle)
    ensures h in Bag(hs) <==> h in hs
  {
    if hs != [] {
      BagCounts(hs[..|hs|-1], h);
      assert hs == hs[..|hs|-1] + [hs[|hs|-1]];
    }
  }

  ghost predicate Describes(h: Handle, cards: Cards) {
    h.uuid in cards && h.slots == cards[h.uuid].slots && h.mem == cards[h.uuid].mem
  }

  /** Cards are held exactly by the handles in `live`: one handle to a card, one card to a handle. */
  ghost predicate Exclusive(cards: Cards, live: multiset<Handle>) {
    && Keyed(cards)
    && (forall h | h in live :: live[h] == 1 && Describes(h, cards) && cards[h.uuid].tracking == {h.tracking})
    && (forall k, t | k in cards && t in cards[k].tracking :: Handle(t, k, cards[k].slots, cards[k].mem) in live)
    && (forall k | k in cards :: cards[k].busy <==> cards[k].tracking != {})
  }

  lemma OneHandlePerCard(cards: Cards, live: multiset<Handle>, g: Handle, h: Handle)
    requires Exclusive(cards, live) && g in live && h in live && g.uuid == h.uuid
    ensures g == h && live[g] == 1
  {
    assert cards[g.uuid].tracking == {g.tracking};
    assert {g.tracking} == {h.tracking};
    assert g.tracking in {h.tracking};
  }

  lemma GrantOneExclusive(cards: Cards, live: multiset<Handle>, h: Handle)
    requires Exclusive(cards, live) && Describes(h, cards) && !cards[h.uuid].busy
    ensures Exclusive(GrantOne(cards, h), live + multiset{h})
  {
    assert cards[h.uuid].tracking == {};
  }

  /** A grant leaves the inventory, and every card it does not pick, as they were. */
  lemma {:induction false} GrantFrame(cards: Cards, hs: seq<Handle>, k: string)
    requires k in cards
    ensures Grant(cards, hs).Keys == cards.Keys
    ensures Grant(cards, hs)[k].(busy := cards[k].busy, tracking := cards[k].tracking) == cards[k]
    ensures (forall i | 0 <= i < |hs| :: hs[i].uuid != k) ==> Grant(cards, hs)[k] == cards[k]
  {
    if hs != [] {
      GrantFrame(cards, hs[..|hs|-1], k);
    }
  }

  lemma PlusStep(live: multiset<Handle>, a: multiset<Handle>, b: multiset<Handle>)
    ensures live + (a + b) == live + a + b
  {
  }

  lemma {:induction false} GrantExclusive(cards: Cards, w: Want, hs: seq<Handle>, live: multiset<Handle>)
    requires Exclusive(cards, live) && Picks(cards, w, hs)
    ensures Exclusive(Grant(cards, hs), live + Bag(hs))
  {
    if hs == [] {
      assert live + Bag(hs) == live;
    } else {
      var front, h := hs[..|hs|-1], hs[|hs|-1];
      GrantExclusive(cards, w, front, live);
      GrantFrame(cards, front, h.uuid);
      GrantOneExclusive(Grant(cards, front), live + Bag(front), h);
      PlusStep(live, Bag(front), multiset{h});
    }
  }

  lemma ReturnOneExclusive(cards: Cards, live: multiset<Handle>, h: Handle)
    requires Exclusive(cards, live) && h in live && h.slots != 0
    ensures ReturnOne(cards, h).1.None?
    ensures Exclusive(ReturnOne(cards, h).0, live - multiset{h})
  {
    forall g | g in live - multiset{h} ensures g.uuid != h.uuid {
      if g.uuid == h.uuid { OneHandlePerCard(cards, live, g, h); }
    }
  }

  /** The handles among `hs` that ReturnGPU acts on. */
  function Slotted(hs: seq<Handle>): multiset<Handle> {
    if hs == [] then multiset{} else
    Slotted(hs[..|hs|-1]) + (if hs[|hs|-1].slots != 0 then multiset{hs[|hs|-1]} else multiset{})
  }

  lemma {:induction false} SlottedCounts(hs: seq<Handle>, h: Handle)
    ensures Slotted(hs)[h] == if h.slots != 0 then Bag(hs)[h] else 0
  {
    if hs != [] { SlottedCounts(hs[..|hs|-1], h); }
  }

  lemma ReturnStep(live: multiset<Handle>, hs: seq<Handle>)
    requires hs != [] && Bag(hs) <= live
    ensures var front, h := hs[..|hs|-1], hs[|hs|-1];
      && Bag(front) <= live && h in live - Slotted(front)
      && live - Slotted(hs) == live - Slotted(front) - (if h.slots != 0 then multiset{h} else multiset{})
  {
    var front, h := hs[..|hs|-1], hs[|hs|-1];
    var one := if h.slots != 0 then multiset{h} else multiset{};
    SlottedCounts(front, h);
    WithinStep(live, Bag(front), h);
    MinusStep(live, Slotted(front), one);
  }

  lemma WithinStep(live: multiset<Handle>, front: multiset<Handle>, h: Handle)
    requires front + multiset{h} <= live
    ensures front <= live && front[h] < live[h]
  {
    assert (front + multiset{h})[h] == front[h] + 1;
    assert front <= front + multiset{h};
  }

  lemma MinusStep(live: multiset<Handle>, a: multiset<Handle>, b: multiset<Handle>)
    ensures live - (a + b) == live - a - b
  {
  }

  /** Returning live handles frees their cards, except those of handles without slots. */
  lemma {:induction false} ReturnExclusive(cards: Cards, live: multiset<Handle>, hs: seq<Handle>)
    requires Exclusive(cards, live) && Bag(hs) <= live
    ensures Exclusive(ReturnAll(cards, hs), live - Slotted(hs)) && ReturnErrors(cards, hs) == []
  {
    if hs == [] {
      assert live - Slotted(hs) == live;
    } else {
      var front, h := hs[..|hs|-1], hs[|hs|-1];
      ReturnStep(live, hs);
      ReturnExclusive(cards, live, front);
      if h.slots != 0 {
        ReturnOneExclusive(ReturnAll(cards, front), live - Slotted(front), h);
      }
    }
  }

  lemma {:induction false} ReturnFrame(cards: Cards, hs: seq<Handle>, k: string)
    requires k in cards
    ensures ReturnAll(cards, hs).Keys == cards.Keys
    ensures ReturnAll(cards, hs)[k].(busy := cards[k].busy, tracking := cards[k].tracking) == cards[k]
  {
    if hs != [] { ReturnFrame(cards, hs[..|hs|-1], k); }
  }

  /** Two tables with the same cards under the same holders are the same table. */
  lemma ExclusiveDetermines(a: Cards, b: Cards, live: multiset<Handle>)
    requires Exclusive(a, live) && Exclusive(b, live) && a.Keys == b.Keys
    requires forall k | k in a :: a[k].(busy := b[k].busy, tracking := b[k].tracking) == b[k]
    ensures a == b
  {
    forall k | k in a ensures a[k] == b[k] {
      forall t ensures t in a[k].tracking <==> t in b[k].tracking {
        var h := Handle(t, k, a[k].slots, a[k].mem);
        if t in a[k].tracking || t in b[k].tracking { assert h in live; }
      }
    }
  }

  /** A handle that holds no card, whether spent or never issued, cannot disturb the table. */
  lemma StaleHandleRejected(cards: Cards, live: multiset<Handle>, h: Handle)
    requires Exclusive(cards, live)
    requires forall g | g in live :: g.uuid != h.uuid || g.tracking != h.tracking
    ensures ReturnOne(cards, h).0 == cards
    ensures h.slots != 0 ==> ReturnOne(cards, h).1 == Some(if h.uuid in cards then InvalidAllocation else NotInService)
  {
    if h.uuid in cards {
      var c := cards[h.uuid];
      assert forall t | t in c.tracking :: Handle(t, h.uuid, c.slots, c.mem) in live;
    }
  }

  function FirstOf(was: Option<string>, devErr: string): Option<string> { if was.Some? then was else Some(devErr) }

  /** A card that is there is marked with the first error reported for it; all others are left alone. */
  lemma Marked(cards: Cards, uuid: string, devErr: string)
    requires Keyed(cards)
    ensures var cards' := MarkFailed(cards, uuid, devErr);
      && cards'.Keys == cards.Keys
      && (forall k | k in cards && k != uuid :: cards'[k] == cards[k])
      && (uuid in cards ==> cards'[uuid] == cards[uuid].(eccFailure := FirstOf(cards[uuid].eccFailure, devErr)))
  {
  }

  lemma MarkExclusive(cards: Cards, live: multiset<Handle>, uuid: string, devErr: string)
    requires Exclusive(cards, live)
    ensures Exclusive(MarkFailed(cards, uuid, devErr), live)
  {
  }

  /**
   * Granting cards and returning the same handles gives back the old table exactly when none of the
   * cards granted was without slots.
   */
  lemma GrantReturn(cards: Cards, w: Want, hs: seq<Handle>, live: multiset<Handle>)
    requires Exclusive(cards, live) && Picks(cards, w, hs)
    ensures ReturnAll(Grant(cards, hs), hs) == cards <==> forall h | h in hs :: h.slots != 0
  {
    GrantExclusive(cards, w, hs, live);
    var granted, held := Grant(cards, hs), live + Bag(hs);
    ReturnExclusive(granted, held, hs);
    GrantReturnFrame(cards, hs);
    var back := ReturnAll(granted, hs);
    if h :| h in hs && h.slots == 0 {
      SlottedCounts(hs, h);
      BagCounts(hs, h);
      assert h in held - Slotted(hs);
      assert back[h.uuid].tracking == {h.tracking};
      assert !cards[h.uuid].busy && cards[h.uuid].tracking == {};
    } else {
      forall h ensures Slotted(hs)[h] == Bag(hs)[h] {
        SlottedCounts(hs, h);
        BagCounts(hs, h);
      }
      assert held - Slotted(hs) == live;
      ExclusiveDetermines(back, cards, live);
    }
  }

  lemma GrantReturnFrame(cards: Cards, hs: seq<Handle>)
    ensures var back := ReturnAll(Grant(cards, hs), hs);
      && back.Keys == cards.Keys
      && forall k | k in cards :: back[k].(busy := cards[k].busy, tracking := cards[k].tracking) == cards[k]
  {
    GrantKeys(cards, hs);
    ReturnKeys(Grant(cards, hs), hs);
    forall k | k in cards
      ensures ReturnAll(Grant(cards, hs), hs)[k].(busy := cards[k].busy, tracking := cards[k].tracking) == cards[k]
    {
      GrantFrame(cards, hs, k);
      ReturnFrame(Grant(cards, hs), hs, k);
    }
  }

  lemma {:induction false} GrantKeys(cards: Cards, hs: seq<Handle>)
    ensures Grant(cards, hs).Keys == cards.Keys
  {
    if hs != [] { GrantKeys(cards, hs[..|hs|-1]); }
  }

  lemma {:induction false} ReturnKeys(cards: Cards, hs: seq<Handle>)
    ensures ReturnAll(cards, hs).Keys == cards.Keys
  {
    if hs != [] { ReturnKeys(cards, hs[..|hs|-1]); }
  }

  datatype SlotsByUUID = SlotsByUUID(uuid: string, slots: u64, mem: u64)
  {
    function Under(id: string): Handle { Handle(id, uuid, slots, mem) }
    predicate Of(c: Track) { uuid == c.uuid && slots == c.slots && mem == c.mem }
  }

  ghost predicate Lists(cards: Cards, w: Want, cs: seq<SlotsByUUID>) {
    && (forall i | 0 <= i < |cs| :: cs[i].uuid in cards && Usable(cards[cs[i].uuid], w) && cs[i].Of(cards[cs[i].uuid]))
    && (forall i, j | 0 <= i < j < |cs| :: cs[i].uuid != cs[j].uuid)
  }

  /** The scan of AllocGPU for cards that can be given out. */
  method Candidates(cards: Cards, w: Want) returns (cs: seq<SlotsByUUID>)
    requires Keyed(cards)
    ensures Lists(cards, w, cs) && |cs| == |UsableCards(cards, w)|
  {
    cs := [];
    var rest := cards.Keys;
    ghost var seen: set<string> := {};
    while rest != {}
      invariant rest <= cards.Keys
      invariant Lists(cards, w, cs) && |cs| == |seen|
      invariant forall i | 0 <= i < |cs| :: cs[i].uuid in seen
      invariant forall k :: k in seen <==> k in cards && k !in rest && Usable(cards[k], w)
      decreases |rest|
    {
      var k :| k in rest;
      var v := cards[k];
      rest := rest - {k};
      if v.busy {
        continue;
      }
      if v.eccFailure.Some? {
        continue;
      }
      if v.mem < w.maxGPUMem && w.maxGPUMem != 0 {
        continue;
      }
      // The units are sorted and searched, which finds exactly their members.
      if v.slots in w.units {
        cs := cs + [SlotsByUUID(v.uuid, v.slots, v.mem)];
        seen := seen + {k};
      }
    }
    assert seen == UsableCards(cards, w);
  }

  // The order in which cards are picked

  /** Go's order of strings. */
  predicate Before(a: string, b: string)
    decreases |a|
  {
    b != "" && (a == "" || a[0] < b[0] || (a[0] == b[0] && Before(a[1..], b[1..])))
  }

  lemma {:induction false} BeforeTrans(a: string, b: string, c: string)
    requires Before(a, b) && Before(b, c)
    ensures Before(a, c)
    decreases |a|
  {
    if a != "" && a[0] == b[0] == c[0] { BeforeTrans(a[1..], b[1..], c[1..]); }
  }

  lemma {:induction false} BeforeOneWay(a: string, b: string)
    ensures a != b ==> (Before(a, b) <==> !Before(b, a))
    decreases |a|
  {
    if a != "" && b != "" && a[0] == b[0] {
      BeforeOneWay(a[1..], b[1..]);
      assert a == [a[0]] + a[1..] && b == [b[0]] + b[1..];
    }
  }

  /** `b` continues `a`, or is the larger where they first differ. */
  ghost predicate DifferAt(a: string, b: string, n: nat) {
    && n <= |a| && n < |b| && a[..n] == b[..n]
    && (n == |a| || a[n] < b[n])
  }

  lemma SameHead(a: string, b: string, n: nat)
    ensures DifferAt(a, b, n) && n > 0 ==> a[0] == b[0]
  {
    if DifferAt(a, b, n) && n > 0 { assert a[..n][0] == b[..n][0]; }
  }

  lemma {:induction false} BeforeIff(a: string, b: string)
    ensures Before(a, b) <==> exists n :: DifferAt(a, b, n)
    decreases |a|
  {
    if a != "" && b != "" && a[0] == b[0] {
      BeforeIff(a[1..], b[1..]);
      if Before(a, b) {
        var n: nat :| DifferAt(a[1..], b[1..], n);
        assert a[..n+1] == [a[0]] + a[1..][..n] && b[..n+1] == [b[0]] + b[1..][..n];
        assert DifferAt(a, b, n + 1);
      }
      if n: nat :| DifferAt(a, b, n) {
        assert a[1..][..n-1] == a[..n][1..] && b[1..][..n-1] == b[..n][1..];
        assert DifferAt(a[1..], b[1..], n - 1);
      }
    } else if Before(a, b) {
      assert DifferAt(a, b, 0);
    } else {
      forall n: nat { SameHead(a, b, n); }
    }
  }

  /** The comparison AllocGPU sorts by. */
  predicate Less(a: SlotsByUUID, b: SlotsByUUID) { a.slots <= b.slots && Before(a.uuid, b.uuid) }

  /** If `a` is smaller its id comes first. */
  predicate InStep(a: SlotsByUUID, b: SlotsByUUID) { a.slots < b.slots ==> Before(a.uuid, b.uuid) }

  /** The comparison tells two cards apart exactly when their ids are in the order of their sizes. */
  lemma LessDecides(a: SlotsByUUID, b: SlotsByUUID)
    requires a.uuid != b.uuid
    ensures Less(a, b) || Less(b, a) <==> InStep(a, b) && InStep(b, a)
    ensures InStep(a, b) && InStep(b, a) ==> (Less(a, b) <==> Before(a.uuid, b.uuid))
  {
    BeforeOneWay(a.uuid, b.uuid);
  }

  ghost predicate Aligned(cs: seq<SlotsByUUID>) {
    forall a, b | a in cs && b in cs :: InStep(a, b)
  }

  predicate Different(cs: seq<SlotsByUUID>) { forall i, j | 0 <= i < j < |cs| :: cs[i].uuid != cs[j].uuid }

  ghost predicate Ascending(cs: seq<SlotsByUUID>) {
    forall i, j | 0 <= i < j < |cs| :: Before(cs[i].uuid, cs[j].uuid)
  }

  // What sorting by the comparison can lead to

  /** An order of the cards that no comparison speaks against. */
  ghost predicate Arrangement(cs: seq<SlotsByUUID>, r: seq<SlotsByUUID>) {
    multiset(r) == multiset(cs) && forall i, j | 0 <= i < j < |r| :: !Less(r[j], r[i])
  }

  predicate BySize(r: seq<SlotsByUUID>) { forall i, j | 0 <= i < j < |r| :: r[i].slots <= r[j].slots }

  lemma SameCards(cs: seq<SlotsByUUID>, r: seq<SlotsByUUID>, x: SlotsByUUID)
    requires multiset(r) == multiset(cs)
    ensures x in r <==> x in cs
  {
    assert x in multiset(r) <==> x in multiset(cs);
  }

  lemma AlignedBySize(cs: seq<SlotsByUUID>, r: seq<SlotsByUUID>)
    requires Aligned(cs) && Arrangement(cs, r)
    ensures BySize(r)
  {
    forall i, j | 0 <= i < j < |r| ensures r[i].slots <= r[j].slots {
      SameCards(cs, r, r[i]);
      SameCards(cs, r, r[j]);
      assert InStep(r[j], r[i]);
    }
  }

  lemma {:induction false} InsertByUuid(s: seq<SlotsByUUID>, x: SlotsByUUID) returns (r: seq<SlotsByUUID>)
    requires Ascending(s) && forall k | 0 <= k < |s| :: s[k].uuid != x.uuid
    ensures multiset(r) == multiset(s) + multiset{x} && Ascending(r)
  {
    var n := |s| - 1;
    if s == [] || Before(s[n].uuid, x.uuid) {
      r := s + [x];
      forall k | 0 <= k < n ensures Before(s[k].uuid, x.uuid) { BeforeTrans(s[k].uuid, s[n].uuid, x.uuid); }
    } else {
      BeforeOneWay(x.uuid, s[n].uuid);
      var front := InsertByUuid(s[..n], x);
      assert s == s[..n] + [s[n]];
      r := front + [s[n]];
      forall k | 0 <= k < |front| ensures Before(front[k].uuid, s[n].uuid) {
        assert front[k] in multiset(front);
        if front[k] != x { assert front[k] in s[..n]; }
      }
    }
  }

  lemma {:induction false} SortByUuid(cs: seq<SlotsByUUID>) returns (r: seq<SlotsByUUID>)
    requires Different(cs)
    ensures multiset(r) == multiset(cs) && Ascending(r)
  {
    if cs == [] {
      r := [];
    } else {
      var front, x := cs[..|cs|-1], cs[|cs|-1];
      var s := SortByUuid(front);
      forall k | 0 <= k < |s| ensures s[k].uuid != x.uuid { SameCards(front, s, s[k]); }
      assert cs == front + [x];
      r := InsertByUuid(s, x);
    }
  }

  lemma AscendingIsArrangement(cs: seq<SlotsByUUID>, r: seq<SlotsByUUID>)
    requires multiset(r) == multiset(cs) && Ascending(r)
    ensures Arrangement(cs, r)
  {
    forall i, j | 0 <= i < j < |r| ensures !Less(r[j], r[i]) {
      BeforeIrreflexive(r[i].uuid);
      BeforeOneWay(r[i].uuid, r[j].uuid);
    }
  }

  lemma {:induction false} BeforeIrreflexive(a: string)
    ensures !Before(a, a)
  {
    if a != "" { BeforeIrreflexive(a[1..]); }
  }

  /**
   * Smaller cards come first, whatever order the sort settles for, exactly when the ids of the cards are in
   * the order of their sizes.
   */
  lemma SmallestFirstIff(cs: seq<SlotsByUUID>)
    requires Different(cs)
    ensures (forall r :: Arrangement(cs, r) ==> BySize(r)) <==> Aligned(cs)
  {
    if Aligned(cs) {
      forall r | Arrangement(cs, r) ensures BySize(r) { AlignedBySize(cs, r); }
    } else {
      var r := SortByUuid(cs);
      AscendingIsArrangement(cs, r);
      var a, b :| a in cs && b in cs && !InStep(a, b);
      SameCards(cs, r, a);
      SameCards(cs, r, b);
      var i :| 0 <= i < |r| && r[i] == a;
      var j :| 0 <= j < |r| && r[j] == b;
      assert !BySize(r);
    }
  }

  /** Two cards of which the larger may come first. */
  lemma LargerFirst() returns (cs: seq<SlotsByUUID>)
    ensures Different(cs) && Arrangement(cs, cs) && |cs| == 2 && cs[0].slots > cs[1].slots
  {
    cs := [SlotsByUUID("a", 2, 0), SlotsByUUID("b", 1, 0)];
    BeforeOneWay("a", "b");
    assert Before("a", "b");
  }

  // The sort

  /** Where an insertion sort puts `x`. */
  method Place(cs: seq<SlotsByUUID>, x: SlotsByUUID) returns (j: nat)
    ensures j <= |cs| && (j > 0 ==> !Less(x, cs[j-1])) && forall k | j <= k < |cs| :: Less(x, cs[k])
  {
    j := |cs|;
    while j > 0 && Less(x, cs[j-1])
      invariant j <= |cs| && forall k | j <= k < |cs| :: Less(x, cs[k])
    {
      j := j - 1;
    }
  }

  lemma PlacedAscending(cs: seq<SlotsByUUID>, x: SlotsByUUID, j: nat)
    requires Ascending(cs) && forall k | 0 <= k < |cs| :: cs[k].uuid != x.uuid && InStep(cs[k], x) && InStep(x, cs[k])
    requires j <= |cs| && (j > 0 ==> !Less(x, cs[j-1])) && forall k | j <= k < |cs| :: Less(x, cs[k])
    ensures Ascending(cs[..j] + [x] + cs[j..])
  {
    forall k | 0 <= k < j ensures Before(cs[k].uuid, x.uuid) {
      LessDecides(x, cs[j-1]);
      BeforeOneWay(x.uuid, cs[j-1].uuid);
      if k < j - 1 { BeforeTrans(cs[k].uuid, cs[j-1].uuid, x.uuid); }
    }
  }

  lemma PlacedListed(cards: Cards, w: Want, cs: seq<SlotsByUUID>, x: SlotsByUUID, j: nat, from: seq<SlotsByUUID>)
    requires Lists(cards, w, cs) && Lists(cards, w, [x]) && j <= |cs|
    requires forall k | 0 <= k < |cs| :: cs[k].uuid != x.uuid
    requires x in from && forall k | 0 <= k < |cs| :: cs[k] in from
    ensures var r := cs[..j] + [x] + cs[j..]; Lists(cards, w, r) && forall k | 0 <= k < |r| :: r[k] in from
  {
    var r := cs[..j] + [x] + cs[j..];
    forall k | 0 <= k < |r| ensures r[k] == if k < j then cs[k] else if k == j then x else cs[k-1] {
    }
  }

  /** The same cards, by their ids if those are in the order of the sizes. */
  method Arrange(cs: seq<SlotsByUUID>, ghost cards: Cards, ghost w: Want) returns (r: seq<SlotsByUUID>)
    requires Lists(cards, w, cs)
    ensures Lists(cards, w, r) && |r| == |cs| && (Aligned(cs) ==> Ascending(r))
  {
    r := [];
    for i := 0 to |cs|
      invariant |r| == i && Lists(cards, w, r) && (Aligned(cs) ==> Ascending(r))
      invariant forall k | 0 <= k < i :: r[k] in cs[..i]
    {
      var j := Place(r, cs[i]);
      forall k | 0 <= k < i ensures r[k].uuid != cs[i].uuid && r[k] in cs {
        var t :| 0 <= t < i && cs[..i][t] == r[k];
      }
      if Aligned(cs) { PlacedAscending(r, cs[i], j); }
      PlacedListed(cards, w, r, cs[i], j, cs[..i+1]);
      r := r[..j] + [cs[i]] + r[j..];
    }
  }

  function Uuids(cs: seq<SlotsByUUID>): set<string> {
    if cs == [] then {} else Uuids(cs[..|cs|-1]) + {cs[|cs|-1].uuid}
  }

  lemma {:induction false} FindUuid(cs: seq<SlotsByUUID>, k: string) returns (i: nat)
    requires k in Uuids(cs)
    ensures i < |cs| && cs[i].uuid == k
  {
    if cs[|cs|-1].uuid == k { i := |cs| - 1; } else { i := FindUuid(cs[..|cs|-1], k); }
  }

  lemma {:induction false} UuidsCount(cs: seq<SlotsByUUID>)
    requires forall i, j | 0 <= i < j < |cs| :: cs[i].uuid != cs[j].uuid
    ensures |Uuids(cs)| == |cs|
  {
    if cs != [] {
      var front, last := cs[..|cs|-1], cs[|cs|-1];
      UuidsCount(front);
      if last.uuid in Uuids(front) {
        var i := FindUuid(front, last.uuid);
      }
    }
  }

  /** A listing as long as the usable cards are many has them all. */
  lemma ListsAll(cards: Cards, w: Want, cs: seq<SlotsByUUID>, k: string) returns (i: nat)
    requires Lists(cards, w, cs) && |cs| == |UsableCards(cards, w)| && k in UsableCards(cards, w)
    ensures i < |cs| && cs[i].uuid == k
  {
    UuidsCount(cs);
    var all, listed := UsableCards(cards, w), Uuids(cs);
    forall u | u in listed ensures u in all { var t := FindUuid(cs, u); }
    if listed != all {
      assert |all - listed| == |all| - |listed| == 0;
    }
    i := FindUuid(cs, k);
  }

  /** The handles are to the first usable cards in the order of their ids. */
  ghost predicate FirstOnes(cards: Cards, w: Want, hs: seq<Handle>) {
    && (forall i, j | 0 <= i < j < |hs| :: Before(hs[i].uuid, hs[j].uuid))
    && (forall i, k | 0 <= i < |hs| && k in UsableCards(cards, w) && (forall j | 0 <= j < |hs| :: hs[j].uuid != k) ::
          Before(hs[i].uuid, k))
  }

  /** No smaller one of them was left. */
  ghost predicate SmallestOnes(cards: Cards, w: Want, hs: seq<Handle>) {
    && (forall i, j | 0 <= i < j < |hs| :: hs[i].slots <= hs[j].slots)
    && (forall i, k | 0 <= i < |hs| && k in UsableCards(cards, w) && (forall j | 0 <= j < |hs| :: hs[j].uuid != k) ::
          hs[i].slots <= cards[k].slots)
  }

  /** The ids of the usable cards are in the order of their sizes. */
  ghost predicate CardsAligned(cards: Cards, w: Want) {
    forall j, k | j in UsableCards(cards, w) && k in UsableCards(cards, w) ::
      cards[j].slots < cards[k].slots ==> Before(j, k)
  }

  /** All usable cards have one size, as they do for every job. */
  ghost predicate OneSize(cards: Cards, w: Want) {
    forall j, k | j in UsableCards(cards, w) && k in UsableCards(cards, w) :: cards[j].slots == cards[k].slots
  }

  lemma JobsAskForOneSize(cards: Cards, w: Want)
    requires |w.units| == 1
    ensures OneSize(cards, w) && CardsAligned(cards, w)
  {
    forall k | k in UsableCards(cards, w) ensures cards[k].slots == w.units[0] {
    }
  }

  lemma FirstAreSmallest(cards: Cards, w: Want, hs: seq<Handle>)
    requires Keyed(cards) && CardsAligned(cards, w) && Picks(cards, w, hs) && FirstOnes(cards, w, hs)
    ensures SmallestOnes(cards, w, hs)
  {
    forall i, k | 0 <= i < |hs| && k in UsableCards(cards, w) && Before(hs[i].uuid, k)
      ensures hs[i].slots <= cards[k].slots
    {
      BeforeIrreflexive(k);
      BeforeOneWay(hs[i].uuid, k);
      assert hs[i].uuid in UsableCards(cards, w);
    }
    forall i, j | 0 <= i < j < |hs| ensures hs[i].slots <= hs[j].slots {
      assert hs[j].uuid in UsableCards(cards, w) && hs[j].slots == cards[hs[j].uuid].slots;
    }
  }

  lemma ArrangedFirst(cards: Cards, w: Want, cs: seq<SlotsByUUID>, hs: seq<Handle>)
    requires Lists(cards, w, cs) && |cs| == |UsableCards(cards, w)| && Ascending(cs)
    requires |hs| <= |cs| && forall i | 0 <= i < |hs| :: hs[i].uuid == cs[i].uuid
    ensures FirstOnes(cards, w, hs)
  {
    forall i, k | 0 <= i < |hs| && k in UsableCards(cards, w) && (forall j | 0 <= j < |hs| :: hs[j].uuid != k)
      ensures Before(hs[i].uuid, k)
    {
      var t := ListsAll(cards, w, cs, k);
    }
  }

  /** The cards AllocGPU takes; `arranged` are all it could take. */
  method Select(cards: Cards, w: Want) returns (ok: bool, cs: seq<SlotsByUUID>, ghost arranged: seq<SlotsByUUID>)
    requires Keyed(cards)
    ensures ok <==> |UsableCards(cards, w)| >= w.cardCount
    ensures ok ==> Lists(cards, w, arranged) && |arranged| == |UsableCards(cards, w)|
    ensures ok ==> |arranged| >= w.cardCount && cs == arranged[..w.cardCount]
    ensures ok && CardsAligned(cards, w) ==> Ascending(arranged)
  {
    var slotsByUUID := Candidates(cards, w);
    if |slotsByUUID| < w.cardCount {
      return false, [], [];
    }
    if CardsAligned(cards, w) {
      forall a, b | a in slotsByUUID && b in slotsByUUID ensures InStep(a, b) {
        assert a.uuid in UsableCards(cards, w) && b.uuid in UsableCards(cards, w);
      }
    }
    var sorted := Arrange(slotsByUUID, cards, w);
    return true, sorted[..w.cardCount], sorted;
  }

  /** gpuTracker.  The mutex makes each method one atomic step. */
  class GpuTracker {
    var allocs: Cards

    constructor (cards: Cards)
      ensures allocs == cards
    {
      allocs := cards;
    }

    /**
     * `ids` are the tracking ids xid.New yields, which never repeat.  The cards chosen are the first
     * `cardCount` of the usable ones after sorting; the sort stands for the library's, which for cards
     * of different sizes may leave them in another order.
     */
    method AllocGPU(w: Want, live: bool, ids: seq<string>) returns (ok: bool, alloc: seq<Handle>)
      requires Keyed(allocs)
      requires |ids| == w.cardCount && forall i, j | 0 <= i < j < |ids| :: ids[i] != ids[j]
      modifies this
      ensures ok <==> Fits(old(allocs), w)
      ensures ok && live ==> ValidGrant(old(allocs), w, alloc) && allocs == Grant(old(allocs), alloc)
      ensures ok && live ==> forall i | 0 <= i < |alloc| :: alloc[i].tracking == ids[i]
      ensures ok && live && CardsAligned(old(allocs), w) ==>
        FirstOnes(old(allocs), w, alloc) && SmallestOnes(old(allocs), w, alloc)
      ensures !(ok && live) ==> allocs == old(allocs) && alloc == []
    {
      alloc := [];
      if w.maxGPU == 0 && w.maxGPUMem == 0 {
        return true, alloc;
      }
      var slotsByUUID;
      ghost var arranged;
      ok, slotsByUUID, arranged := Select(allocs, w);
      if !ok || !live {
        return;
      }
      alloc := Take(slotsByUUID, ids);
      if CardsAligned(old(allocs), w) {
        ArrangedFirst(old(allocs), w, arranged, alloc);
        FirstAreSmallest(old(allocs), w, alloc);
      }
    }

    /** The loop that allocates the cards taken. */
    method Take(slotsByUUID: seq<SlotsByUUID>, ids: seq<string>) returns (alloc: seq<Handle>)
      requires |ids| == |slotsByUUID| && forall i | 0 <= i < |slotsByUUID| :: slotsByUUID[i].uuid in allocs
      modifies this
      ensures |alloc| == |ids| && allocs == Grant(old(allocs), alloc)
      ensures forall i | 0 <= i < |alloc| :: alloc[i] == slotsByUUID[i].Under(ids[i])
    {
      alloc := [];
      for i := 0 to |slotsByUUID|
        invariant |alloc| == i && allocs == Grant(old(allocs), alloc)
        invariant forall j | 0 <= j < i :: alloc[j] == slotsByUUID[j].Under(ids[j])
      {
        var detail, tracking := slotsByUUID[i], ids[i];
        GrantKeys(old(allocs), alloc);
        assert detail.uuid in old(allocs);
        ghost var before := allocs;
        allocs := allocs[detail.uuid := allocs[detail.uuid].(busy := true)];
        var h := detail.Under(tracking);
        allocs := allocs[detail.uuid := allocs[detail.uuid].(tracking := allocs[detail.uuid].tracking + {tracking})];
        assert allocs == GrantOne(before, h);
        GrantLast(old(allocs), alloc, h);
        alloc := alloc + [h];
      }
    }

    method ReturnGPU(h: Handle) returns (err: Option<ReturnError>)
      modifies this
      ensures (allocs, err) == ReturnOne(old(allocs), h)
    {
      if h.slots == 0 {
        return None;
      }
      if h.uuid !in allocs {
        return Some(NotInService);
      }
      if h.tracking !in allocs[h.uuid].tracking {
        return Some(InvalidAllocation);
      }
      var c := allocs[h.uuid];
      c := c.(tracking := c.tracking - {h.tracking});
      c := c.(busy := false);
      allocs := allocs[h.uuid := c];
      err := None;
    }

    method MarkFailure(uuid: string, devErr: string)
      modifies this
      ensures allocs == MarkFailed(old(allocs), uuid, devErr)
    {
      if uuid in allocs {
        var gpu := allocs[uuid];
        if gpu.eccFailure.None? {
          gpu := gpu.(eccFailure := Some(devErr));
          allocs := allocs[gpu.uuid := gpu];
        }
      }
    }
  }
}
