/** Small shared vocabulary: optional values, 64 bit unsigned arithmetic and whole runs. */
module Common {

  datatype Option<+T> = None | Some(value: T)

  /** Looking up a key that may be absent. */
  function At<K, V>(m: map<K, V>, k: K): Option<V> { if k in m then Some(m[k]) else None }

  lemma SameMap<K(!new), V>(a: map<K, V>, b: map<K, V>)
    requires forall k :: At(a, k) == At(b, k)
    ensures a == b
  {
    forall k ensures k in a <==> k in b { assert At(a, k) == At(b, k); }
    forall k | k in a ensures a[k] == b[k] { assert At(a, k) == At(b, k); }
  }

  const TWO64: int := 0x1_0000_0000_0000_0000

  /** Go's `uint` and `uint64` on the runner's 64 bit targets. */
  type u64 = n: int | 0 <= n < 0x1_0000_0000_0000_0000

  type byte = b: int | 0 <= b < 256

  /** Go's unsigned addition, which drops the carry. */
  function Add64(a: u64, b: u64): u64 { (a + b) % TWO64 }

  /** Go's unsigned subtraction, which borrows from 2^64. */
  function Sub64(a: u64, b: u64): u64 { (a - b) % TWO64 }

  /** Go's unsigned multiplication. */
  function Mul64(a: u64, b: u64): u64 { (a * b) % TWO64 }

  /** Subtracting one summand of a sum taken modulo 2^64 leaves the rest of that sum. */
  lemma SubtractSummand(total: nat, part: u64)
    requires part <= total
    ensures Sub64(total % TWO64, part) == (total - part) % TWO64
  {
    var q := total / TWO64;
    assert total == q * TWO64 + total % TWO64;
    ModShift(total % TWO64 - part, q);
  }

  /** Adding a summand to a sum taken modulo 2^64 gives the larger sum modulo 2^64. */
  lemma AddSummand(total: nat, part: u64)
    ensures Add64(total % TWO64, part) == (total + part) % TWO64
  {
    var q := total / TWO64;
    assert total == q * TWO64 + total % TWO64;
    ModShift(total % TWO64 + part, q);
  }

  lemma ModShift(x: int, q: int)
    ensures (x + q * TWO64) % TWO64 == x % TWO64
  {
    var r, d := x % TWO64, x / TWO64;
    assert x + q * TWO64 == (d + q) * TWO64 + r;
  }
}

/**
 * Interleavings.  A machine is given by the events it accepts in a state and the state each of them
 * leads to; every nondeterministic choice is part of the event, so a run is a sequence of events.
 */
module Runs {

  datatype Machine<!S, !E> = Machine(enabled: (S, E) -> bool, next: (S, E) -> S)

  predicate IsRun<S, E>(m: Machine<S, E>, s: S, es: seq<E>)
    decreases |es|
  {
    es == [] || (m.enabled(s, es[0]) && IsRun(m, m.next(s, es[0]), es[1..]))
  }

  function End<S, E>(m: Machine<S, E>, s: S, es: seq<E>): S
    decreases |es|
  {
    if es == [] then s else End(m, m.next(s, es[0]), es[1..])
  }

  /** Some run leads from `s` to `t`. */
  ghost predicate Reaches<S(!new), E(!new)>(m: Machine<S, E>, s: S, t: S) {
    exists es :: IsRun(m, s, es) && End(m, s, es) == t
  }

  /** An event in front of a run. */
  lemma ReachFrom<S(!new), E(!new)>(m: Machine<S, E>, s: S, e: E, t: S)
    requires m.enabled(s, e) && Reaches(m, m.next(s, e), t)
    ensures Reaches(m, s, t)
  {
    var es :| IsRun(m, m.next(s, e), es) && End(m, m.next(s, e), es) == t;
    var es' := [e] + es;
    assert es'[1..] == es;
    assert IsRun(m, s, es') && End(m, s, es') == t;
  }

  /** The same with the state in between given by name. */
  lemma ReachVia<S(!new), E(!new)>(m: Machine<S, E>, s: S, e: E, s': S, t: S)
    requires m.enabled(s, e) && m.next(s, e) == s' && Reaches(m, s', t)
    ensures Reaches(m, s, t)
  {
    ReachFrom(m, s, e, t);
  }

  lemma ReachSelf<S(!new), E(!new)>(m: Machine<S, E>, s: S)
    ensures Reaches(m, s, s)
  {
    assert IsRun(m, s, []) && End(m, s, []) == s;
  }

  /** What every enabled event keeps holds at the end of every run. */
  lemma {:induction false} InvariantOfRuns<S(!new), E(!new)>(m: Machine<S, E>, inv: S -> bool, s: S, es: seq<E>)
    requires inv(s) && IsRun(m, s, es)
    requires forall t, e :: inv(t) && m.enabled(t, e) ==> inv(m.next(t, e))
    ensures inv(End(m, s, es))
    decreases |es|
  {
    if es != [] {
      InvariantOfRuns(m, inv, m.next(s, es[0]), es[1..]);
    }
  }
}
