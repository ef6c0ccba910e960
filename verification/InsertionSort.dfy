/** The insertion sort by swaps that the server uses on slices of envelopes and
    of strings. It is specified as repeated insertion and performed in place
    on an array; what makes the result sorted depends on the order and is
    proved where the order is known. */
module InsertionSort {
  import opened Seqs

  /** Moves x down past the elements it is less than. */
  function Insert<T>(s: seq<T>, x: T, less: (T, T) -> bool): (r: seq<T>)
    ensures |r| == |s| + 1
  {
    if s == [] || !less(x, s[|s| - 1]) then s + [x]
    else Insert(s[..|s| - 1], x, less) + [s[|s| - 1]]
  }

  function Sorted<T>(s: seq<T>, less: (T, T) -> bool): (r: seq<T>)
    ensures |r| == |s|
  {
    if s == [] then [] else Insert(Sorted(s[..|s| - 1], less), s[|s| - 1], less)
  }

  lemma {:induction false} InsertPermutes<T>(s: seq<T>, x: T, less: (T, T) -> bool)
    ensures multiset(Insert(s, x, less)) == multiset(s) + multiset{x}
    decreases |s|
  {
    if s != [] && less(x, s[|s| - 1]) {
      InsertPermutes(s[..|s| - 1], x, less);
      assert s == s[..|s| - 1] + [s[|s| - 1]];
    }
  }

  lemma InsertMembers<T>(s: seq<T>, x: T, less: (T, T) -> bool)
    ensures forall y :: y in Insert(s, x, less) <==> y == x || y in s
  {
    InsertPermutes(s, x, less);
    SameMembers(Insert(s, x, less), s + [x]);
  }

  lemma {:induction false} SortedPermutes<T>(s: seq<T>, less: (T, T) -> bool)
    ensures multiset(Sorted(s, less)) == multiset(s)
    decreases |s|
  {
    if s != [] {
      SortedPermutes(s[..|s| - 1], less);
      InsertPermutes(Sorted(s[..|s| - 1], less), s[|s| - 1], less);
      assert s == s[..|s| - 1] + [s[|s| - 1]];
    }
  }

  lemma {:induction false} InsertedFrom<T>(s: seq<T>, x: T, less: (T, T) -> bool, i: nat)
    requires i <= |s|
    ensures Insert(s, x, less)[i] == x || exists k :: 0 <= k < |s| && s[k] == Insert(s, x, less)[i]
    decreases |s|
  {
    if s == [] || !less(x, s[|s| - 1]) {
      assert i < |s| ==> (s + [x])[i] == s[i];
    } else if i < |s| {
      InsertedFrom(s[..|s| - 1], x, less, i);
    } else {
      assert Insert(s, x, less)[i] == s[|s| - 1];
    }
  }

  // ---- ordering by a key ----

  function ByKey<T>(key: T -> int): (T, T) -> bool { (a: T, b: T) => key(a) < key(b) }

  lemma AppendOrdered<T>(s: seq<T>, x: T, key: T -> int)
    requires Ordered(s, key) && forall i :: 0 <= i < |s| ==> key(s[i]) <= key(x)
    ensures Ordered(s + [x], key)
  {
  }

  lemma {:induction false} InsertOrders<T>(s: seq<T>, x: T, key: T -> int)
    requires Ordered(s, key)
    ensures Ordered(Insert(s, x, ByKey(key)), key)
    decreases |s|
  {
    if s == [] || !(key(x) < key(s[|s| - 1])) {
      AppendOrdered(s, x, key);
    } else {
      var front, last := s[..|s| - 1], s[|s| - 1];
      InsertOrders(front, x, key);
      var r := Insert(front, x, ByKey(key));
      forall i | 0 <= i < |r| ensures key(r[i]) <= key(last) { InsertedFrom(front, x, ByKey(key), i); }
      AppendOrdered(r, last, key);
    }
  }

  /** Sorting by a key orders by that key. */
  lemma {:induction false} SortedOrders<T>(s: seq<T>, key: T -> int)
    ensures Ordered(Sorted(s, ByKey(key)), key)
    decreases |s|
  {
    if s != [] {
      SortedOrders(s[..|s| - 1], key);
      InsertOrders(Sorted(s[..|s| - 1], ByKey(key)), s[|s| - 1], key);
    }
  }

  // ---- in place ----

  /** x belongs at position j of s: not less than its left neighbour, less
      than all from j on. */
  ghost predicate Belongs<T>(s: seq<T>, j: nat, x: T, less: (T, T) -> bool) {
    && j <= |s|
    && (j > 0 ==> !less(x, s[j - 1]))
    && forall k :: j <= k < |s| ==> less(x, s[k])
  }

  lemma {:induction false} BelongsIsInsert<T>(s: seq<T>, j: nat, x: T, less: (T, T) -> bool)
    requires Belongs(s, j, x, less)
    ensures Insert(s, x, less) == s[..j] + [x] + s[j..]
    decreases |s|
  {
    if j < |s| {
      var front, last := s[..|s| - 1], s[|s| - 1];
      BelongsIsInsert(front, j, x, less);
      assert s[j..] == front[j..] + [last] && front[..j] == s[..j];
    } else {
      assert s[..j] == s;
    }
  }

  /** The element at i moved down to j, the ones between moved up. */
  ghost predicate MovedDown<T>(all: seq<T>, now: seq<T>, i: nat, j: nat) {
    && j <= i < |all| == |now| && now[j] == all[i]
    && (forall k :: 0 <= k < j ==> now[k] == all[k])
    && (forall k :: j < k <= i ==> now[k] == all[k - 1])
    && (forall k :: i < k < |all| ==> now[k] == all[k])
  }

  lemma MovedText<T>(all: seq<T>, now: seq<T>, i: nat, j: nat)
    requires MovedDown(all, now, i, j)
    ensures now == all[..i][..j] + [all[i]] + all[..i][j..] + all[i + 1..]
  {
  }

  /** One element sinks into the sorted front of the array. */
  method Sink<T>(a: array<T>, i: nat, less: (T, T) -> bool) returns (j: nat)
    requires i < a.Length
    modifies a
    ensures Belongs(old(a[..i]), j, old(a[i]), less)
    ensures a[..] == old(a[..i])[..j] + [old(a[i])] + old(a[..i])[j..] + old(a[i + 1..])
  {
    ghost var all := a[..];
    ghost var x := all[i];
    j := i;
    while j > 0 && less(a[j], a[j - 1])
      invariant 0 <= j <= i
      invariant a[j] == x
      invariant forall k :: 0 <= k < j ==> a[k] == all[k]
      invariant forall k :: j < k <= i ==> a[k] == all[k - 1]
      invariant forall k :: j <= k < i ==> less(x, all[k])
      invariant forall k :: i < k < a.Length ==> a[k] == all[k]
    {
      a[j], a[j - 1] := a[j - 1], a[j];
      j := j - 1;
    }
    MovedText(all, a[..], i, j);
  }

  lemma SortStep<T>(s: seq<T>, i: nat, less: (T, T) -> bool)
    requires i < |s|
    ensures Sorted(s[..i + 1], less) == Insert(Sorted(s[..i], less), s[i], less)
    ensures s[i..] == [s[i]] + s[i + 1..]
  {
    assert s[..i + 1][..i] == s[..i];
  }

  method SortInPlace<T>(a: array<T>, less: (T, T) -> bool)
    modifies a
    ensures a[..] == Sorted(old(a[..]), less)
  {
    ghost var s := a[..];
    if a.Length == 0 { return; }
    SortStep(s, 0, less);
    assert s[..0] == [] && s[0..] == s;
    assert Sorted(s[..0], less) == [] && Insert([], s[0], less) == [s[0]];
    for i := 1 to a.Length
      invariant a[..] == Sorted(s[..i], less) + s[i..]
    {
      ghost var front := Sorted(s[..i], less);
      SortStep(s, i, less);
      assert a[..i] == front && a[i] == s[i] && a[i + 1..] == s[i + 1..];
      var j := Sink(a, i, less);
      BelongsIsInsert(front, j, s[i], less);
    }
    assert s[..a.Length] == s && s[a.Length..] == [];
  }
}
