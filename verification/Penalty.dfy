/**
 * internal/runner/executionEMA.go, backoffs.go and the end of fetchWork in cmd/runner/queues.go: how long
 * a queue is left alone, from how long its jobs have been running.  Durations are in nanoseconds.
 */
module Penalty {
  import opened Common

  const SECOND: int := 1_000_000_000
  const HOUR: int := 3600 * SECOND

  /** Duration.Seconds, exactly */
  function Seconds(d: int): real { d as real / SECOND as real }

  /** Go's conversion of a float to an integer drops the fraction. */
  function Trunc(r: real): int { if r >= 0.0 then r.Floor else -(-r).Floor }

  function Mix(alpha: real, x: real, y: real): real { alpha * x + (1.0 - alpha) * y }

  /** One average after one more observation, `alpha` being the weight of the new value. */
  function Blend(alpha: real, value: int, was: int): int {
    Trunc(Mix(alpha, Seconds(value), Seconds(was))) * SECOND
  }

  /** A duration cut to whole seconds. */
  function Whole(d: int): int { d / SECOND * SECOND }

  /** `avg` is the weighted mean of the value and the old average, cut to whole seconds. */
  predicate MeanOf(alpha: real, value: int, was: int, avg: int) {
    && avg % SECOND == 0
    && avg as real <= alpha * value as real + (1.0 - alpha) * was as real < (avg + SECOND) as real
  }

  lemma BlendIsMean(alpha: real, value: int, was: int)
    requires 0.0 <= alpha <= 1.0 && value >= 0 && was >= 0
    ensures MeanOf(alpha, value, was, Blend(alpha, value, was))
  {
    var second, x, y := SECOND as real, Seconds(value), Seconds(was);
    var mean := Mix(alpha, x, y);
    var n := mean.Floor;
    Convex(alpha, x, y, 0.0, if x < y then y else x);
    assert value as real == x * second && was as real == y * second;
    assert alpha * (x * second) == alpha * x * second && (1.0 - alpha) * (y * second) == (1.0 - alpha) * y * second;
    assert alpha * value as real + (1.0 - alpha) * was as real == mean * second;
    assert n as real <= mean < n as real + 1.0;
    assert (n * SECOND) as real == n as real * second && (n * SECOND + SECOND) as real == (n as real + 1.0) * second;
    Scaled(n as real, mean, second);
    Scaled(mean, n as real + 1.0, second);
  }

  lemma Scaled(a: real, b: real, s: real)
    requires s > 0.0
    ensures a <= b ==> a * s <= b * s
    ensures a < b ==> a * s < b * s
  {
  }

  /** The average stays between the bounds its inputs have, the lower one in whole seconds. */
  lemma BlendBounds(alpha: real, value: int, was: int, lo: int, hi: int)
    requires 0.0 <= alpha <= 1.0 && 0 <= lo <= value <= hi && Whole(lo) <= was <= hi
    ensures Whole(lo) <= Blend(alpha, value, was) <= hi
  {
    Convex(alpha, Seconds(value), Seconds(was), Seconds(Whole(lo)), Seconds(hi));
    WholeSeconds(lo, hi, Mix(alpha, Seconds(value), Seconds(was)));
  }

  lemma WholeSeconds(lo: int, hi: int, r: real)
    requires 0 <= lo && Seconds(Whole(lo)) <= r <= Seconds(hi)
    ensures Whole(lo) <= Trunc(r) * SECOND <= hi
  {
    assert Seconds(Whole(lo)) == (lo / SECOND) as real;
    assert 0.0 <= (lo / SECOND) as real;
    assert lo / SECOND <= r.Floor;
    var n := r.Floor;
    assert n as real <= Seconds(hi);
    assert n as real * SECOND as real <= hi as real;
    assert (n * SECOND) as real == n as real * SECOND as real;
  }

  lemma Convex(alpha: real, x: real, y: real, lo: real, hi: real)
    requires 0.0 <= alpha <= 1.0 && lo <= x <= hi && lo <= y <= hi
    ensures lo <= Mix(alpha, x, y) <= hi
  {
    Weighted(alpha, x - lo);
    Weighted(1.0 - alpha, y - lo);
    Weighted(alpha, hi - x);
    Weighted(1.0 - alpha, hi - y);
    assert alpha * (x - lo) + (1.0 - alpha) * (y - lo) == Mix(alpha, x, y) - lo;
    assert alpha * (hi - x) + (1.0 - alpha) * (hi - y) == hi - Mix(alpha, x, y);
  }

  lemma Weighted(w: real, x: real)
    requires 0.0 <= w && 0.0 <= x
    ensures 0.0 <= w * x
  {
  }

  datatype Window = Window(nanoseconds: int)

  /** The exponential of minus the time passed over the window. */
  type Decay = (int, Window) -> real

  /** The average of one window after an observation. */
  function Updated(decay: Decay, passed: int, value: int, avgs: map<Window, int>, w: Window): Option<int> {
    if w in avgs then Some(Blend(1.0 - decay(passed, w), value, avgs[w])) else None
  }

  /** Every window has the mean of the value and its old average, by a weight from 0 to 1. */
  ghost predicate Means(decay: Decay, passed: int, value: int, was: map<Window, int>, avgs: map<Window, int>) {
    forall w | w in was && was[w] >= 0 && 0.0 <= decay(passed, w) <= 1.0 ::
      w in avgs && MeanOf(1.0 - decay(passed, w), value, was[w], avgs[w])
  }

  lemma UpdateMeans(decay: Decay, passed: int, value: int, was: map<Window, int>, avgs: map<Window, int>)
    requires value >= 0 && forall w :: At(avgs, w) == Updated(decay, passed, value, was, w)
    ensures Means(decay, passed, value, was, avgs)
  {
    forall w | w in was && was[w] >= 0 && 0.0 <= decay(passed, w) <= 1.0
      ensures w in avgs && MeanOf(1.0 - decay(passed, w), value, was[w], avgs[w])
    {
      assert At(avgs, w) == Updated(decay, passed, value, was, w);
      BlendIsMean(1.0 - decay(passed, w), value, was[w]);
    }
  }

  /** An observed run time and the time passed since the one before it. */
  datatype Sample = Sample(value: int, passed: int)

  /** The observations a window has seen, with the weights it gave them. */
  function Seen(decay: Decay, samples: seq<Sample>, w: Window): (obs: seq<Observation>)
    ensures |obs| == |samples|
  {
    if samples == [] then [] else
    var s := samples[|samples|-1];
    Seen(decay, samples[..|samples|-1], w) + [Observation(1.0 - decay(s.passed, w), s.value)]
  }

  lemma SeenLast(decay: Decay, samples: seq<Sample>, s: Sample, w: Window, initial: int)
    ensures Average(initial, Seen(decay, samples + [s], w))
         == Blend(1.0 - decay(s.passed, w), s.value, Average(initial, Seen(decay, samples, w)))
  {
    assert (samples + [s])[..|samples|] == samples;
    var obs := Seen(decay, samples, w);
    assert (obs + [Observation(1.0 - decay(s.passed, w), s.value)])[..|obs|] == obs;
  }

  /** Every window holds the average of all it has seen. */
  ghost predicate Holds(avgs: map<Window, int>, decay: Decay, samples: seq<Sample>, initial: int) {
    forall w | w in avgs :: avgs[w] == Average(initial, Seen(decay, samples, w))
  }

  lemma UpdateHolds(decay: Decay, samples: seq<Sample>, s: Sample, initial: int,
                    was: map<Window, int>, avgs: map<Window, int>)
    requires Holds(was, decay, samples, initial)
    requires forall w :: At(avgs, w) == Updated(decay, s.passed, s.value, was, w)
    ensures Holds(avgs, decay, samples + [s], initial) && avgs.Keys == was.Keys
  {
    forall w ensures w in avgs <==> w in was { assert At(avgs, w) == Updated(decay, s.passed, s.value, was, w); }
    forall w | w in avgs ensures avgs[w] == Average(initial, Seen(decay, samples + [s], w)) {
      assert At(avgs, w) == Updated(decay, s.passed, s.value, was, w);
      SeenLast(decay, samples, s, w, initial);
    }
  }

  /** TimeEMA: one average for each window, all seen by every observation. */
  class TimeEMA {
    var avgs: map<Window, int>
    var last: int
    const decay: Decay
    ghost const initial: int
    ghost var samples: seq<Sample>

    ghost predicate Valid()
      reads this
    {
      Holds(avgs, decay, samples, initial)
    }

    constructor (windows: seq<Window>, initial: int, now: int, decay: Decay)
      ensures Valid() && samples == [] && this.initial == initial && this.decay == decay && last == now
      ensures forall w :: At(avgs, w) == if w in windows then Some(initial) else None
    {
      last := now;
      avgs := map[];
      this.decay, this.initial, samples := decay, initial, [];
      new;
      for i := 0 to |windows|
        invariant last == now && samples == [] && this.initial == initial && this.decay == decay
        invariant forall w :: At(avgs, w) == if w in windows[..i] then Some(initial) else None
      {
        avgs := avgs[windows[i] := initial];
        assert windows[..i+1] == windows[..i] + [windows[i]];
      }
      assert windows[..|windows|] == windows;
      forall w | w in avgs ensures avgs[w] == Average(initial, Seen(decay, [], w)) {
        assert At(avgs, w) == Some(initial);
      }
    }

    method Update(value: int, now: int)
      requires Valid()
      modifies this
      ensures Valid() && last == now && samples == old(samples) + [Sample(value, now - old(last))]
      ensures forall w :: At(avgs, w) == Updated(decay, now - old(last), value, old(avgs), w)
      ensures value >= 0 ==> Means(decay, now - old(last), value, old(avgs), avgs)
    {
      var fdtime := now - last;
      last := now;
      ghost var was := avgs;
      avgs := UpdateAll(avgs, value, fdtime, decay);
      samples := samples + [Sample(value, fdtime)];
      UpdateHolds(decay, old(samples), Sample(value, fdtime), initial, was, avgs);
      if value >= 0 { UpdateMeans(decay, fdtime, value, was, avgs); }
    }

    /** Get, and what follows for it when all run times were between `lo` and `hi`. */
    method Get(w: Window, ghost lo: int, ghost hi: int) returns (avg: Option<int>)
      requires Valid()
      ensures avg == At(avgs, w)
      ensures avg.Some? ==> avg.value == Average(initial, Seen(decay, samples, w))
      ensures avg.Some? && 0 <= lo <= initial <= hi && Sampled(decay, samples, w, lo, hi) ==>
        && Whole(lo) <= avg.value <= hi
        && 10 * SECOND <= Backoff(avg) <= Max(15 * SECOND, Trunc(Hours(hi) / 2.0) * (10 * SECOND))
    {
      avg := if w in avgs then Some(avgs[w]) else None;
      if avg.Some? && 0 <= lo <= initial <= hi && Sampled(decay, samples, w, lo, hi) {
        SeenBetween(decay, samples, w, initial, lo, hi);
        AverageBounds(initial, Seen(decay, samples, w), lo, hi);
        PenaltyBounds(initial, Seen(decay, samples, w), lo, hi);
      }
    }
  }

  /** Run times between `lo` and `hi`, at times for which the exponential is from 0 to 1. */
  ghost predicate Sampled(decay: Decay, samples: seq<Sample>, w: Window, lo: int, hi: int) {
    forall i | 0 <= i < |samples| :: 0.0 <= decay(samples[i].passed, w) <= 1.0 && lo <= samples[i].value <= hi
  }

  lemma {:induction false} SeenBetween(decay: Decay, samples: seq<Sample>, w: Window, initial: int, lo: int, hi: int)
    requires 0 <= lo <= initial <= hi && Sampled(decay, samples, w, lo, hi)
    ensures Between(initial, Seen(decay, samples, w), lo, hi)
  {
    if samples != [] {
      var front := samples[..|samples|-1];
      assert forall i | 0 <= i < |front| :: front[i] == samples[i];
      SeenBetween(decay, front, w, initial, lo, hi);
    }
  }

  /** The loop of Update over the windows. */
  method UpdateAll(was: map<Window, int>, value: int, fdtime: int, decay: Decay) returns (avgs: map<Window, int>)
    ensures forall w :: At(avgs, w) == Updated(decay, fdtime, value, was, w)
  {
    avgs := was;
    var rest := was.Keys;
    while rest != {}
      invariant rest <= was.Keys
      invariant forall w :: At(avgs, w) == if w !in rest then Updated(decay, fdtime, value, was, w) else At(was, w)
      decreases |rest|
    {
      var ftime :| ftime in rest;
      assert At(avgs, ftime) == At(was, ftime);
      var alpha := 1.0 - decay(fdtime, ftime);
      avgs := avgs[ftime := Blend(alpha, value, avgs[ftime])];
      rest := rest - {ftime};
    }
  }

  /** An observation right after the last one has no weight; one long after it has all of it. */
  lemma UpdatedEnds(decay: Decay, passed: int, value: int, avgs: map<Window, int>, w: Window)
    requires w in avgs && avgs[w] >= 0 && value >= 0
    ensures decay(passed, w) == 1.0 ==> Updated(decay, passed, value, avgs, w) == Some(Whole(avgs[w]))
    ensures decay(passed, w) == 0.0 ==> Updated(decay, passed, value, avgs, w) == Some(Whole(value))
  {
    WholeTrunc(avgs[w]);
    WholeTrunc(value);
    assert Mix(0.0, Seconds(value), Seconds(avgs[w])) == Seconds(avgs[w]);
    assert Mix(1.0, Seconds(value), Seconds(avgs[w])) == Seconds(value);
  }

  lemma WholeTrunc(d: int)
    requires d >= 0
    ensures Trunc(Seconds(d)) * SECOND == Whole(d)
  {
    var n := d / SECOND;
    assert n * SECOND <= d < (n + 1) * SECOND;
    assert n as real <= Seconds(d) < (n + 1) as real;
  }

  /** Every average lies between `lo`, in whole seconds, and `hi`. */
  ghost predicate Within(avgs: map<Window, int>, lo: int, hi: int) {
    forall w | w in avgs :: Whole(lo) <= avgs[w] <= hi
  }

  /** What Update leaves of averages within bounds is within them again, for any exponential weights. */
  lemma UpdateWithin(decay: Decay, passed: int, value: int,
                     was: map<Window, int>, avgs: map<Window, int>, lo: int, hi: int)
    requires forall w :: At(avgs, w) == Updated(decay, passed, value, was, w)
    requires forall w | w in was :: 0.0 <= decay(passed, w) <= 1.0
    requires 0 <= lo <= value <= hi && Within(was, lo, hi)
    ensures Within(avgs, lo, hi) && avgs.Keys == was.Keys
  {
    forall w ensures w in avgs <==> w in was { assert At(avgs, w) == Updated(decay, passed, value, was, w); }
    forall w | w in avgs ensures Whole(lo) <= avgs[w] <= hi {
      assert At(avgs, w) == Updated(decay, passed, value, was, w);
      BlendBounds(1.0 - decay(passed, w), value, was[w], lo, hi);
    }
  }

  /** An observed run time and the weight it had for one window. */
  datatype Observation = Observation(alpha: real, value: int)

  function Average(initial: int, obs: seq<Observation>): int {
    if obs == [] then initial else Blend(obs[|obs|-1].alpha, obs[|obs|-1].value, Average(initial, obs[..|obs|-1]))
  }

  ghost predicate Between(initial: int, obs: seq<Observation>, lo: int, hi: int) {
    && 0 <= lo <= initial <= hi
    && forall i | 0 <= i < |obs| :: 0.0 <= obs[i].alpha <= 1.0 && lo <= obs[i].value <= hi
  }

  /** Over every sequence of run times the average stays between the shortest and the longest of them. */
  lemma {:induction false} AverageBounds(initial: int, obs: seq<Observation>, lo: int, hi: int)
    requires Between(initial, obs, lo, hi)
    ensures Whole(lo) <= Average(initial, obs) <= hi
  {
    if obs != [] {
      var n := |obs| - 1;
      AverageBounds(initial, obs[..n], lo, hi);
      BlendBounds(obs[n].alpha, obs[n].value, Average(initial, obs[..n]), lo, hi);
    }
  }

  /** Duration.Hours, exactly */
  function Hours(d: int): real { d as real / HOUR as real }

  const POLL_INTERVAL: int := 10 * SECOND
  const DEFAULT_BACKOFF: int := 15 * SECOND

  /** The penalty fetchWork sets on a queue, from its average run time if the work went well. */
  function Backoff(average: Option<int>): int {
    var penalty := if average.Some? then Trunc(Hours(average.value) / 2.0) * POLL_INTERVAL else DEFAULT_BACKOFF;
    if penalty == 0 then DEFAULT_BACKOFF else penalty
  }

  function Max(a: int, b: int): int { if a < b then b else a }

  /** Fifteen seconds below two hours and without an average; from there on ten seconds for every two hours. */
  lemma BackoffCases(average: int, k: nat)
    requires 2 * HOUR * k <= average < 2 * HOUR * (k + 1)
    ensures Backoff(Some(average)) == (if k == 0 then 15 else 10 * k) * SECOND
    ensures Backoff(None) == 15 * SECOND
  {
    var x := Hours(average) / 2.0;
    assert k as real <= x < (k + 1) as real;
  }

  lemma BackoffBounds(average: int, hi: int)
    requires 0 <= average <= hi
    ensures 10 * SECOND <= Backoff(Some(average)) <= Max(15 * SECOND, Trunc(Hours(hi) / 2.0) * (10 * SECOND))
  {
    var x, y := Hours(average) / 2.0, Hours(hi) / 2.0;
    assert 0.0 <= x <= y;
    assert 0 <= x.Floor <= y.Floor;
  }

  /**
   * Every penalty that follows from run times between `lo` and `hi` is at least ten seconds and at most
   * the larger of fifteen seconds and ten seconds for every two hours of the longest run.
   */
  lemma PenaltyBounds(initial: int, obs: seq<Observation>, lo: int, hi: int)
    requires Between(initial, obs, lo, hi)
    ensures 10 * SECOND <= Backoff(Some(Average(initial, obs)))
    ensures Backoff(Some(Average(initial, obs))) <= Max(15 * SECOND, Trunc(Hours(hi) / 2.0) * (10 * SECOND))
  {
    AverageBounds(initial, obs, lo, hi);
    BackoffBounds(Average(initial, obs), hi);
  }

  /** A blocker, and when the cache drops it, if ever. */
  datatype Item = Item(expires: int, until: Option<int>)

  type Items = map<string, Item>

  /**
   * The cache keeps an item for the duration given, for its default of ten seconds when given none, and
   * for ever when given a negative one.
   */
  function Kept(d: int, now: int): Option<int> {
    if d > 0 then Some(now + d) else if d == 0 then Some(now + 10 * SECOND) else None
  }

  /** Get: the blocker in effect at a time. */
  function Blocker(items: Items, k: string, t: int): Option<int> {
    if k in items && (items[k].until.None? || t <= items[k].until.value) then Some(items[k].expires) else None
  }

  function Blocked(items: Items, k: string, d: int, now: int): Items {
    var e := Blocker(items, k, now);
    if e.Some? && now + d < e.value then items else items[k := Item(now + d, Kept(d, now))]
  }

  /** Blockers are dropped at the time they carry. */
  ghost predicate Timed(items: Items) { forall k | k in items :: items[k].until == Some(items[k].expires) }

  /** With positive durations a blocker is in effect exactly until the later of the old and the new time. */
  lemma BlockedUntil(items: Items, k: string, d: int, now: int, t: int)
    requires Timed(items) && d > 0
    ensures var items', e := Blocked(items, k, d, now), Blocker(items, k, now);
      && Timed(items')
      && (Blocker(items', k, t).Some? <==> t <= if e.Some? then Max(e.value, now + d) else now + d)
  {
  }

  /** A call of Set. */
  datatype Call = Call(k: string, d: int, now: int)

  function BlockedAll(items: Items, calls: seq<Call>): Items {
    if calls == [] then items else
    var c := calls[|calls|-1];
    Blocked(BlockedAll(items, calls[..|calls|-1]), c.k, c.d, c.now)
  }

  /** No calls with positive durations made up to a time take away a blocker that is in effect at that time. */
  lemma {:induction false} NeverShortened(items: Items, calls: seq<Call>, k: string, t: int)
    requires Timed(items) && forall i | 0 <= i < |calls| :: calls[i].d > 0 && calls[i].now <= t
    ensures Timed(BlockedAll(items, calls))
    ensures Blocker(items, k, t).Some? ==> Blocker(BlockedAll(items, calls), k, t).Some?
  {
    if calls != [] {
      var front, c := calls[..|calls|-1], calls[|calls|-1];
      NeverShortened(items, front, k, t);
      BlockedUntil(BlockedAll(items, front), c.k, c.d, c.now, t);
    }
  }

  /** `items'` keeps all of a blocker that `items` has from `now` on. */
  ghost predicate Keeps(items: Items, items': Items, k: string, now: int) {
    forall t | now <= t && Blocker(items, k, t).Some? :: Blocker(items', k, t).Some?
  }

  /**
   * For any duration, a blocker in effect keeps its time exactly when it carries a later time than the new
   * one, or the cache is to keep the new one for at least as long as the old.
   */
  lemma KeepsIff(items: Items, k: string, d: int, now: int)
    requires Blocker(items, k, now).Some?
    ensures Keeps(items, Blocked(items, k, d, now), k, now) <==>
      || now + d < items[k].expires
      || Kept(d, now).None?
      || (items[k].until.Some? && items[k].until.value <= Kept(d, now).value)
  {
    var items', was := Blocked(items, k, d, now), items[k].until;
    if now + d >= items[k].expires && Kept(d, now).Some? && !(was.Some? && was.value <= Kept(d, now).value) {
      var t := if was.Some? then was.value else Max(now, Kept(d, now).value + 1);
      assert Blocker(items, k, t).Some? && Blocker(items', k, t).None?;
    }
  }

  /** After a call without a duration, one for a second cuts the blocker short. */
  lemma ShortenedBlocker(k: string) returns (items: Items)
    ensures items == Blocked(map[], k, 0, 0)
    ensures !Keeps(items, Blocked(items, k, SECOND, 0), k, 0)
  {
    items := Blocked(map[], k, 0, 0);
    KeepsIff(items, k, SECOND, 0);
  }

  /** Without a duration a blocker stays for ten seconds, with a negative one for ever. */
  lemma OtherDurations(k: string, d: int, now: int, t: int)
    requires d <= 0
    ensures Blocker(Blocked(map[], k, d, now), k, t) == if d < 0 || t <= now + 10 * SECOND then Some(now + d) else None
  {
  }

  /** Backoffs: the time until which each resource is blocked.  Each method is one step. */
  class Backoffs {
    var items: Items

    /** The blocker in effect at `now`, if any. */
    function InEffect(k: string, now: int): Option<int>
      reads this
    {
      Blocker(items, k, now)
    }

    /** Set: with positive durations a blocker in effect is never shortened. */
    method Set(k: string, d: int, now: int)
      modifies this
      ensures items == Blocked(old(items), k, d, now)
      ensures InEffect(k, now) ==
        Some(if old(InEffect(k, now)).Some? then Max(old(InEffect(k, now)).value, now + d) else now + d)
      ensures old(InEffect(k, now)).None? && d > 0 ==> forall t :: InEffect(k, t).Some? <==> t <= now + d
      ensures old(Timed(items)) && d > 0 ==>
        Timed(items) && forall t :: InEffect(k, t).Some? <==> t <= InEffect(k, now).value
      ensures forall j | j != k :: At(items, j) == old(At(items, j))
    {
      var e := InEffect(k, now);
      if e.Some? && now + d < e.value {
        return;
      }
      items := items[k := Item(now + d, Kept(d, now))];
    }

    /** The end of fetchWork: the penalty is set unless a blocker is in effect. */
    method Penalise(k: string, average: Option<int>, now: int) returns (backoff: int)
      requires average.Some? ==> average.value >= 0
      modifies this
      ensures old(InEffect(k, now)).Some? ==> items == old(items)
      ensures old(InEffect(k, now)).None? ==>
        && backoff == Backoff(average) >= 10 * SECOND
        && forall t :: InEffect(k, t) == if t <= now + backoff then Some(now + backoff) else None
      ensures old(Timed(items)) ==> Timed(items)
    {
      backoff := DEFAULT_BACKOFF;
      if average.Some? {
        backoff := Trunc(Hours(average.value) / 2.0) * POLL_INTERVAL;
        BackoffBounds(average.value, average.value);
      }
      var delayed := InEffect(k, now);
      if delayed.None? {
        if backoff == 0 {
          backoff := DEFAULT_BACKOFF;
        }
        Set(k, backoff, now);
      } else {
        backoff := Whole(delayed.value - now);
      }
    }
  }
}
