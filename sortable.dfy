/**
 * `arrayMove(array, from, to)` of the sortable drag-and-drop library: a copy of the array with the
 * element at `from` taken out and spliced back in at `to`. The insertion index is normalised the
 * way JavaScript's `splice` does it, evaluated against the length BEFORE the removal: a negative
 * `to` counts from the end (so -1, what `findIndex` returns on a miss, means "last slot"), and an
 * index past the end lands on the last slot.
 */
module Sortable {

  /** The sequence without its element at `i`. */
  function Without<T>(a: seq<T>, i: nat): (r: seq<T>)
    requires i < |a|
    ensures |r| == |a| - 1
  {
    a[..i] + a[i + 1..]
  }

  /** The final index of the moved element for a length-`n` array and a requested `to`. */
  function Target(n: nat, to: int): (k: nat)
    requires 0 < n && -(n as int) <= to
    ensures k < n
  {
    var p := if to < 0 then n + to else to;
    if p < n then p else n - 1
  }

  /**
   * The moved element ends at `Target(|a|, to)`, and taking it out again gives back exactly the
   * other elements in their original order.
   */
  function ArrayMove<T>(a: seq<T>, from: nat, to: int): (r: seq<T>)
    requires from < |a| && -|a| <= to
    ensures |r| == |a|
    ensures r[Target(|a|, to)] == a[from]
    ensures Without(r, Target(|a|, to)) == Without(a, from)
  {
    var rest := Without(a, from);
    var k := Target(|a|, to);
    assert (rest[..k] + [a[from]] + rest[k..])[..k] == rest[..k];
    assert (rest[..k] + [a[from]] + rest[k..])[k + 1..] == rest[k..];
    rest[..k] + [a[from]] + rest[k..]
  }

  /** The index in the original array of the element that `ArrayMove` puts at `t`. */
  function MovedFrom(from: nat, k: nat, t: nat): nat
  {
    if t == k then from
    else
      var u := if t < k then t else t - 1;
      if u < from then u else u + 1
  }

  lemma {:induction false} ArrayMoveAt<T>(a: seq<T>, from: nat, to: int, t: nat)
    requires from < |a| && -|a| <= to && t < |a|
    ensures MovedFrom(from, Target(|a|, to), t) < |a|
    ensures ArrayMove(a, from, to)[t] == a[MovedFrom(from, Target(|a|, to), t)]
  {
    var r := ArrayMove(a, from, to);
    var k := Target(|a|, to);
    if t != k {
      var u := if t < k then t else t - 1;
      assert r[t] == Without(r, k)[u];
      assert Without(a, from)[u] == a[if u < from then u else u + 1];
    }
  }

  /** Moving an element onto its own index changes nothing. */
  lemma {:induction false} ArrayMoveSame<T>(a: seq<T>, i: nat)
    requires i < |a|
    ensures ArrayMove(a, i, i) == a
  {
    var r := ArrayMove(a, i, i);
    forall t | 0 <= t < |a| ensures r[t] == a[t] {
      ArrayMoveAt(a, i, i, t);
    }
  }

  /** The result holds the same elements with the same multiplicities. */
  lemma {:induction false} ArrayMovePermutes<T>(a: seq<T>, from: nat, to: int)
    requires from < |a| && -|a| <= to
    ensures multiset(ArrayMove(a, from, to)) == multiset(a)
  {
    var r := ArrayMove(a, from, to);
    var k := Target(|a|, to);
    assert a == a[..from] + [a[from]] + a[from + 1..];
    assert r == r[..k] + [r[k]] + r[k + 1..];
    calc {
      multiset(r);
      multiset(r[..k]) + multiset([a[from]]) + multiset(r[k + 1..]);
      multiset(Without(r, k)) + multiset([a[from]]);
      multiset(Without(a, from)) + multiset([a[from]]);
      multiset(a[..from]) + multiset([a[from]]) + multiset(a[from + 1..]);
      multiset(a);
    }
  }
}
