/** Facts about ordered sequences: an ascending sequence is determined by its
    elements and extended only at its end by larger ones; permutations keep
    members and distinctness; and the contract of sort.Slice, which may leave
    elements with equal keys in any order. */
module Seqs {

  predicate Ascending(s: seq<int>) {
    forall i, j :: 0 <= i < j < |s| ==> s[i] < s[j]
  }

  predicate SameElements(a: seq<int>, b: seq<int>) {
    (forall x :: x in a ==> x in b) && (forall x :: x in b ==> x in a)
  }

  /** A strictly ascending sequence is determined by its elements. */
  lemma {:induction false} AscendingUnique(a: seq<int>, b: seq<int>)
    requires Ascending(a) && Ascending(b) && SameElements(a, b)
    ensures a == b
    decreases |a|
  {
    if a == [] {
      assert forall i :: 0 <= i < |b| ==> b[i] in a;
    } else {
      assert a[0] in a;
      assert b[0] in b;
      assert a[0] == b[0];
      forall x | x in a[1..] ensures x in b[1..] {
        assert x in a && x != a[0];
      }
      forall x | x in b[1..] ensures x in a[1..] {
        assert x in b && x != b[0];
      }
      AscendingUnique(a[1..], b[1..]);
    }
  }

  /** Adding only elements above a bound to an ascending sequence whose
      elements lie below it extends the sequence at its end. */
  lemma AscendingExtends(old_: seq<int>, new_: seq<int>, bound: int)
    requires Ascending(old_) && Ascending(new_)
    requires forall x :: x in old_ ==> x < bound && x in new_
    requires forall x :: x in new_ ==> x in old_ || x >= bound
    ensures |old_| <= |new_| && new_[..|old_|] == old_
    ensures forall i :: |old_| <= i < |new_| ==> new_[i] >= bound
  {
    var k := 0;
    while k < |new_| && new_[k] < bound
      invariant 0 <= k <= |new_|
      invariant forall i :: 0 <= i < k ==> new_[i] < bound
    {
      k := k + 1;
    }
    var low := new_[..k];
    forall x | x in old_ ensures x in low {
      var i :| 0 <= i < |new_| && new_[i] == x;
      assert i < k;
      assert low[i] == x;
    }
    AscendingUnique(low, old_);
  }

  ghost predicate Ordered<T>(s: seq<T>, key: T -> int) {
    forall i, j :: 0 <= i < j < |s| ==> key(s[i]) <= key(s[j])
  }

  lemma SpliceMultiset<T>(s: seq<T>, at: nat, x: T)
    requires at <= |s|
    ensures multiset(s[..at] + [x] + s[at..]) == multiset(s) + multiset{x}
  {
    assert s == s[..at] + s[at..];
  }

  method InsertByKey<T>(s: seq<T>, x: T, key: T -> int) returns (r: seq<T>)
    requires Ordered(s, key)
    ensures |r| == |s| + 1 && Ordered(r, key)
    ensures multiset(r) == multiset(s) + multiset{x}
  {
    var at := 0;
    while at < |s| && key(s[at]) <= key(x)
      invariant 0 <= at <= |s|
      invariant forall i :: 0 <= i < at ==> key(s[i]) <= key(x)
    {
      at := at + 1;
    }
    r := s[..at] + [x] + s[at..];
    SpliceMultiset(s, at, x);
    forall i, j | 0 <= i < j < |r| ensures key(r[i]) <= key(r[j]) {
      var i' := if i < at then i else i - 1;
      var j' := if j < at then j else j - 1;
      assert i != at ==> r[i] == s[i'];
      assert j != at ==> r[j] == s[j'];
    }
  }

  /** sort.Slice: some ordered rearrangement of its argument; elements with
      equal keys may come out in any order. */
  method SortSlice<T>(s: seq<T>, key: T -> int) returns (r: seq<T>)
    ensures multiset(r) == multiset(s)
    ensures |r| == |s|
    ensures Ordered(r, key)
  {
    r := [];
    for n := 0 to |s|
      invariant |r| == n
      invariant multiset(r) == multiset(s[..n])
      invariant Ordered(r, key)
    {
      r := InsertByKey(r, s[n], key);
      assert s[..n + 1] == s[..n] + [s[n]];
    }
    assert s[..|s|] == s;
  }

  lemma SameMembers<T>(a: seq<T>, b: seq<T>)
    requires multiset(a) == multiset(b)
    ensures forall x :: x in a <==> x in b
  {
    forall x ensures x in a <==> x in b {
      assert x in a <==> x in multiset(a);
      assert x in b <==> x in multiset(b);
    }
  }

  ghost predicate Distinct<T>(s: seq<T>) {
    forall i, j :: 0 <= i < j < |s| ==> s[i] != s[j]
  }

  lemma {:induction false} CountOfDistinct<T>(s: seq<T>, x: T)
    requires Distinct(s)
    ensures multiset(s)[x] <= 1
    decreases |s|
  {
    if s != [] {
      var n := |s| - 1;
      assert s == s[..n] + [s[n]];
      CountOfDistinct(s[..n], x);
      if s[n] == x {
        assert forall i :: 0 <= i < n ==> s[..n][i] != x;
      }
    }
  }

  lemma TwiceCountsTwo<T>(s: seq<T>, i: nat, j: nat)
    requires i < j < |s| && s[i] == s[j]
    ensures multiset(s)[s[i]] >= 2
  {
    assert s == s[..i] + [s[i]] + s[i + 1..j] + [s[j]] + s[j + 1..];
  }

  lemma PermutationDistinct<T>(a: seq<T>, b: seq<T>)
    requires multiset(a) == multiset(b) && Distinct(a)
    ensures Distinct(b)
  {
    forall i, j | 0 <= i < j < |b| ensures b[i] != b[j] {
      if b[i] == b[j] {
        TwiceCountsTwo(b, i, j);
        CountOfDistinct(a, b[i]);
      }
    }
  }

  lemma OneOfDistinct<T>(s: seq<T>, x: T)
    requires Distinct(s)
    ensures multiset(s)[x] == if x in s then 1 else 0
  {
    CountOfDistinct(s, x);
    assert x in s <==> x in multiset(s);
  }

  /** Sequences without repetition and with the same members are as long. */
  lemma SameLength<T>(a: seq<T>, b: seq<T>)
    requires Distinct(a) && Distinct(b) && forall x :: x in a <==> x in b
    ensures |a| == |b|
  {
    forall x ensures multiset(a)[x] == multiset(b)[x] {
      OneOfDistinct(a, x);
      OneOfDistinct(b, x);
    }
    assert multiset(a) == multiset(b);
    assert |multiset(a)| == |a| && |multiset(b)| == |b|;
  }
}
