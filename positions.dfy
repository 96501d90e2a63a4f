/**
 * How the server keeps the order of the members of a container (the cards of a column, the
 * columns of a board): every member carries an integer `position`; a new member is put after the
 * largest one, a reorder request renumbers the named members by their index in the request, and
 * reads come back sorted by position. Deleting never renumbers, so gaps are allowed.
 */
module Positions {
  import opened Entities

  // ------------------------------------------------------------ new members

  /**
   * `p` is where a new member of the container goes, the container being the members of `m`
   * that pass `keep`: one more than the largest `key`, or 0 for an empty container
   * (`lastX ? lastX.position + 1 : 0`).
   */
  predicate IsNextPosition<T>(m: map<Id, T>, keep: T -> bool, key: T -> int, p: int)
  {
    && ((forall id :: id in m ==> !keep(m[id])) ==> p == 0)
    && ((exists id :: id in m && keep(m[id])) ==>
          && (exists id :: id in m && keep(m[id]) && key(m[id]) == p - 1)
          && forall id :: id in m && keep(m[id]) ==> key(m[id]) < p)
  }

  /** There is exactly one such position. */
  lemma NextPositionUnique<T>(m: map<Id, T>, keep: T -> bool, key: T -> int, p: int, q: int)
    requires IsNextPosition(m, keep, key, p) && IsNextPosition(m, keep, key, q)
    ensures p == q
  {
    if exists id :: id in m && keep(m[id]) {
      var a :| a in m && keep(m[a]) && key(m[a]) == p - 1;
      var b :| b in m && keep(m[b]) && key(m[b]) == q - 1;
      assert key(m[a]) < q && key(m[b]) < p;
    }
  }

  /** The query "the member of the container with the largest position", as a scan. */
  method NextPosition<T>(m: map<Id, T>, keep: T -> bool, key: T -> int) returns (p: int)
    ensures IsNextPosition(m, keep, key, p)
  {
    var left := m.Keys;
    var last: Id := "";
    var found := false;
    while |left| > 0
      invariant left <= m.Keys
      invariant found ==> last in m && keep(m[last]) && last !in left
      invariant found ==> forall id :: id in m && id !in left && keep(m[id]) ==> key(m[id]) <= key(m[last])
      invariant !found ==> forall id :: id in m && id !in left ==> !keep(m[id])
      decreases |left|
    {
      var id :| id in left;
      if keep(m[id]) && (!found || key(m[last]) < key(m[id])) {
        last, found := id, true;
      }
      left := left - {id};
    }
    p := if found then key(m[last]) + 1 else 0;
  }

  // ---------------------------------------------------------------- reorder

  /**
   * The index of the LAST occurrence of `id` in `ids`, or -1. The reorder handler issues one
   * `position := index` write per entry, so for a repeated id the last write is the one that
   * stays (the writes are taken to land in request order).
   */
  function LastIndex(ids: seq<Id>, id: Id): (i: int)
    ensures -1 <= i < |ids|
    ensures 0 <= i ==> ids[i] == id
    ensures forall j :: i < j < |ids| ==> ids[j] != id
    ensures i < 0 <==> id !in ids
  {
    if |ids| == 0 then -1
    else if ids[|ids| - 1] == id then |ids| - 1
    else LastIndex(ids[..|ids| - 1], id)
  }

  /** Appending one more entry to a request (the loop's step). */
  lemma {:induction false} LastIndexSnoc(ids: seq<Id>, x: Id, id: Id)
    ensures LastIndex(ids + [x], id) == if x == id then |ids| else LastIndex(ids, id)
  {
    assert (ids + [x])[..|ids|] == ids;
  }

  /** A member's position after a reorder request `ids`; `p` is its position before. */
  function Reordered(ids: seq<Id>, id: Id, p: int): int
  {
    var i := LastIndex(ids, id);
    if 0 <= i then i else p
  }

  /** The ids of a request are pairwise different. */
  predicate Distinct(ids: seq<Id>)
  {
    forall i, j :: 0 <= i < j < |ids| ==> ids[i] != ids[j]
  }

  /**
   * With distinct ids the named member `ids[i]` ends at position i, so the named members take
   * exactly the positions 0 .. |ids| - 1; an unnamed member keeps its position.
   */
  lemma ReorderedNamed(ids: seq<Id>, i: nat, p: int)
    requires Distinct(ids) && i < |ids|
    ensures Reordered(ids, ids[i], p) == i
  {
  }

  lemma ReorderedUnnamed(ids: seq<Id>, id: Id, p: int)
    requires id !in ids
    ensures Reordered(ids, id, p) == p
  {
  }

  /** A reorder applied to its own result changes nothing: the request is idempotent. */
  lemma ReorderedIdempotent(ids: seq<Id>, id: Id, p: int)
    ensures Reordered(ids, id, Reordered(ids, id, p)) == Reordered(ids, id, p)
  {
  }

  // ------------------------------------------------------------------ reads

  /** `ids` name members of `m`, in ascending `key` order. */
  predicate SortedBy<T>(ids: seq<Id>, m: map<Id, T>, key: T -> int)
  {
    && (forall i :: 0 <= i < |ids| ==> ids[i] in m)
    && forall i, j :: 0 <= i < j < |ids| ==> key(m[ids[i]]) <= key(m[ids[j]])
  }

  /**
   * `find(filter).sort({ position: 1 })`: the ids of exactly the members that pass `keep`, each
   * once, in ascending `key`. Members with equal keys come in an order this model does not fix.
   */
  method SortedSelection<T>(m: map<Id, T>, keep: T -> bool, key: T -> int) returns (r: seq<Id>)
    ensures Distinct(r) && SortedBy(r, m, key)
    ensures forall id :: id in r <==> id in m && keep(m[id])
  {
    var left := set id | id in m && keep(m[id]);
    r := [];
    while |left| > 0
      invariant Distinct(r) && SortedBy(r, m, key)
      invariant forall id :: id in left ==> id in m && keep(m[id]) && id !in r
      invariant forall id :: id in m && keep(m[id]) ==> id in left || id in r
      invariant forall id :: id in r ==> id in m && keep(m[id])
      decreases |left|
    {
      var id :| id in left;
      r := InsertSorted(r, id, m, key);
      left := left - {id};
    }
  }

  /** Puts `id` into a sorted sequence after every entry whose key is not larger. */
  method InsertSorted<T>(r: seq<Id>, id: Id, m: map<Id, T>, key: T -> int) returns (s: seq<Id>)
    requires Distinct(r) && SortedBy(r, m, key) && id in m && id !in r
    ensures Distinct(s) && SortedBy(s, m, key)
    ensures forall x :: x in s <==> x in r || x == id
  {
    var k := key(m[id]);
    var i := 0;
    while i < |r| && key(m[r[i]]) <= k
      invariant 0 <= i <= |r|
      invariant forall j :: 0 <= j < i ==> key(m[r[j]]) <= k
    {
      i := i + 1;
    }
    InsertedSorted(r, i, id, m, key);
    s := r[..i] + [id] + r[i..];
  }

  lemma InsertedSorted<T>(r: seq<Id>, i: nat, id: Id, m: map<Id, T>, key: T -> int)
    requires Distinct(r) && SortedBy(r, m, key) && id in m && id !in r && i <= |r|
    requires forall j :: 0 <= j < i ==> key(m[r[j]]) <= key(m[id])
    requires i < |r| ==> key(m[id]) < key(m[r[i]])
    ensures var s := r[..i] + [id] + r[i..];
            && Distinct(s) && SortedBy(s, m, key)
            && forall x :: x in s <==> x in r || x == id
  {
    SplicedSorted(r, i, id, m, key);
    SplicedDistinct(r, i, id);
    SplicedMembers(r, i, id);
  }

  lemma SplicedSorted<T>(r: seq<Id>, i: nat, id: Id, m: map<Id, T>, key: T -> int)
    requires SortedBy(r, m, key) && id in m && i <= |r|
    requires forall j :: 0 <= j < i ==> key(m[r[j]]) <= key(m[id])
    requires i < |r| ==> key(m[id]) < key(m[r[i]])
    ensures SortedBy(r[..i] + [id] + r[i..], m, key)
  {
    var s := r[..i] + [id] + r[i..];
    Spliced(r, i, id);
    forall a, b | 0 <= a < b < |s| ensures key(m[s[a]]) <= key(m[s[b]]) {
      SplicedPair(r, i, id, m, key, a, b);
    }
  }

  lemma SplicedDistinct(r: seq<Id>, i: nat, id: Id)
    requires Distinct(r) && id !in r && i <= |r|
    ensures Distinct(r[..i] + [id] + r[i..])
  {
    var s := r[..i] + [id] + r[i..];
    Spliced(r, i, id);
    forall a, b | 0 <= a < b < |s| ensures s[a] != s[b] {
      assert s[a] == if a < i then r[a] else if a == i then id else r[a - 1];
      assert s[b] == if b < i then r[b] else if b == i then id else r[b - 1];
    }
  }

  lemma SplicedMembers(r: seq<Id>, i: nat, id: Id)
    requires i <= |r|
    ensures forall x :: x in r[..i] + [id] + r[i..] <==> x in r || x == id
  {
    assert r == r[..i] + r[i..];
  }

  /** Where each entry of the spliced sequence comes from. */
  lemma Spliced(r: seq<Id>, i: nat, id: Id)
    requires i <= |r|
    ensures var s := r[..i] + [id] + r[i..];
            && |s| == |r| + 1
            && forall a :: 0 <= a < |s| ==> s[a] == if a < i then r[a] else if a == i then id else r[a - 1]
  {
  }

  lemma SplicedPair<T>(r: seq<Id>, i: nat, id: Id, m: map<Id, T>, key: T -> int, a: nat, b: nat)
    requires SortedBy(r, m, key) && id in m && i <= |r| && a < b <= |r|
    requires forall j :: 0 <= j < i ==> key(m[r[j]]) <= key(m[id])
    requires i < |r| ==> key(m[id]) < key(m[r[i]])
    ensures var x := if a < i then r[a] else if a == i then id else r[a - 1];
            var y := if b < i then r[b] else if b == i then id else r[b - 1];
            key(m[x]) <= key(m[y])
  {
    if a == i {
      assert key(m[r[i]]) <= key(m[r[b - 1]]);
    } else if a < i < b {
      assert key(m[r[a]]) <= key(m[id]) < key(m[r[i]]) <= key(m[r[b - 1]]);
    }
  }
}
