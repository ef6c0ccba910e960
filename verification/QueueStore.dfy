/** The outbound queue: one stored envelope per recipient, listed oldest first
    and filtered by due time. */
module QueueStore {
  import opened Text
  import opened Seqs
  import opened InsertionSort

  datatype Envelope = Envelope(id: string, from: string, rcpt: string, domain: string,
                               attempts: nat, nextAttempt: int, created: int, lastError: string)

  // ---- the insertion sort ----

  function Created(): Envelope -> int { (e: Envelope) => e.created }

  function Older(): (Envelope, Envelope) -> bool { ByKey(Created()) }

  ghost predicate OldestFirst(s: seq<Envelope>) {
    forall i, j :: 0 <= i < j < |s| ==> s[i].created <= s[j].created
  }

  /** The envelopes created at c, in order. */
  function CreatedAt(s: seq<Envelope>, c: int): seq<Envelope> {
    if s == [] then []
    else CreatedAt(s[..|s| - 1], c) + (if s[|s| - 1].created == c then [s[|s| - 1]] else [])
  }

  lemma {:induction false} CreatedAtAppend(s: seq<Envelope>, e: Envelope, c: int)
    ensures CreatedAt(s + [e], c) == CreatedAt(s, c) + (if e.created == c then [e] else [])
  {
    assert (s + [e])[..|s|] == s;
  }

  lemma {:induction false} InsertIsStable(s: seq<Envelope>, e: Envelope, c: int)
    ensures CreatedAt(Insert(s, e, Older()), c) == CreatedAt(s, c) + (if e.created == c then [e] else [])
    decreases |s|
  {
    if s != [] && e.created < s[|s| - 1].created {
      var front, last := s[..|s| - 1], s[|s| - 1];
      InsertIsStable(front, e, c);
      CreatedAtAppend(Insert(front, e, Older()), last, c);
    } else {
      CreatedAtAppend(s, e, c);
    }
  }

  lemma {:induction false} SortedKeepsTies(s: seq<Envelope>, c: int)
    ensures CreatedAt(Sorted(s, Older()), c) == CreatedAt(s, c)
    decreases |s|
  {
    if s != [] {
      SortedKeepsTies(s[..|s| - 1], c);
      InsertIsStable(Sorted(s[..|s| - 1], Older()), s[|s| - 1], c);
    }
  }

  /** The sort gives a stable permutation, oldest first. */
  lemma SortedIsStableSort(s: seq<Envelope>)
    ensures OldestFirst(Sorted(s, Older()))
    ensures multiset(Sorted(s, Older())) == multiset(s)
    ensures forall c :: CreatedAt(Sorted(s, Older()), c) == CreatedAt(s, c)
  {
    SortedOrders(s, Created());
    SortedPermutes(s, Older());
    forall c ensures CreatedAt(Sorted(s, Older()), c) == CreatedAt(s, c) { SortedKeepsTies(s, c); }
  }

  // ---- due and pending ----

  function DueOf(s: seq<Envelope>, now: int): seq<Envelope> {
    if s == [] then []
    else DueOf(s[..|s| - 1], now) + (if s[|s| - 1].nextAttempt <= now then [s[|s| - 1]] else [])
  }

  lemma {:induction false} DueMembers(s: seq<Envelope>, now: int)
    ensures forall e :: e in DueOf(s, now) <==> e in s && e.nextAttempt <= now
    decreases |s|
  {
    if s != [] {
      DueMembers(s[..|s| - 1], now);
      assert s == s[..|s| - 1] + [s[|s| - 1]];
    }
  }

  lemma {:induction false} DueKeepsOrder(s: seq<Envelope>, now: int)
    requires OldestFirst(s)
    ensures OldestFirst(DueOf(s, now))
    decreases |s|
  {
    if s != [] {
      var front, last := s[..|s| - 1], s[|s| - 1];
      DueKeepsOrder(front, now);
      DueMembers(front, now);
      forall e | e in DueOf(front, now) ensures e.created <= last.created {
        var i :| 0 <= i < |front| && front[i] == e;
      }
      AppendOrders(DueOf(front, now), last);
    }
  }

  lemma AppendOrders(d: seq<Envelope>, e: Envelope)
    requires OldestFirst(d) && forall x :: x in d ==> x.created <= e.created
    ensures OldestFirst(d + [e])
  {
    assert forall i :: 0 <= i < |d| ==> d[i] in d;
  }

  lemma {:induction false} DueKeepsDistinct(s: seq<Envelope>, now: int)
    requires Distinct(s)
    ensures Distinct(DueOf(s, now))
    decreases |s|
  {
    if s != [] {
      var front, last := s[..|s| - 1], s[|s| - 1];
      DueKeepsDistinct(front, now);
      DueMembers(front, now);
      assert last !in front;
      AppendDistinct(DueOf(front, now), last);
    }
  }

  lemma AppendDistinct(d: seq<Envelope>, e: Envelope)
    requires Distinct(d) && e !in d
    ensures Distinct(d + [e])
  {
  }

  // ---- in place, on one array ----

  /** The filter writes its result over the front of the slice it reads. */
  method FilterInPlace(a: array<Envelope>, now: int) returns (w: nat)
    modifies a
    ensures w <= a.Length && a[..w] == DueOf(old(a[..]), now)
  {
    ghost var s := a[..];
    w := 0;
    for i := 0 to a.Length
      invariant w <= i
      invariant a[..w] == DueOf(s[..i], now)
      invariant a[i..] == s[i..]
    {
      assert s[..i + 1][..i] == s[..i] && s[..i + 1][i] == a[i];
      if !(a[i].nextAttempt > now) {
        a[w] := a[i];
        w := w + 1;
      }
    }
    assert s[..a.Length] == s;
  }

  // ---- the store ----

  ghost predicate Lists(listing: seq<Envelope>, store: map<string, Envelope>) {
    && Distinct(listing)
    && (forall i :: 0 <= i < |listing| ==> listing[i].id in store && store[listing[i].id] == listing[i])
    && (forall id :: id in store && store[id].id == id ==> store[id] in listing)
  }

  /** Every envelope is filed under its own id. */
  ghost predicate Filed(store: map<string, Envelope>) {
    forall id :: id in store ==> store[id].id == id
  }

  /** What Due promises of its result. */
  ghost predicate IsDue(due: seq<Envelope>, store: map<string, Envelope>, now: int) {
    && Distinct(due)
    && OldestFirst(due)
    && forall e :: e in due <==> e.id in store && store[e.id] == e && e.nextAttempt <= now
  }

  lemma DueFromListing(listing: seq<Envelope>, store: map<string, Envelope>, now: int)
    requires Lists(listing, store) && Filed(store)
    ensures IsDue(DueOf(Sorted(listing, Older()), now), store, now)
  {
    SortedIsStableSort(listing);
    SameMembers(Sorted(listing, Older()), listing);
    PermutationDistinct(listing, Sorted(listing, Older()));
    DueKeepsOrder(Sorted(listing, Older()), now);
    DueKeepsDistinct(Sorted(listing, Older()), now);
    DueMembers(Sorted(listing, Older()), now);
    forall e | e in listing ensures e.id in store && store[e.id] == e {
      var i :| 0 <= i < |listing| && listing[i] == e;
    }
  }

  class Queue {
    var store: map<string, Envelope>

    constructor ()
      ensures store == map[]
    {
      store := map[];
    }

    /** Enqueue: due at once, no attempt made; the id is new. */
    method Enqueue(id: string, from: string, rcpt: string, domain: string, now: int)
      modifies this
      ensures store == old(store)[id := Envelope(id, Lower(from), Lower(rcpt), domain, 0, now, now, "")]
    {
      store := store[id := Envelope(id, Lower(from), Lower(rcpt), domain, 0, now, now, "")];
    }

    method Update(e: Envelope)
      modifies this
      ensures store == old(store)[e.id := e]
    {
      store := store[e.id := e];
    }

    method Remove(e: Envelope)
      modifies this
      ensures store == old(store) - {e.id}
    {
      store := store - {e.id};
    }

    /** The directory listing, in whatever order the names come. */
    method ReadAll() returns (listing: seq<Envelope>)
      requires Filed(store)
      ensures Lists(listing, store)
    {
      listing := [];
      var left := store.Keys;
      while left != {}
        invariant left <= store.Keys
        invariant Distinct(listing)
        invariant forall i :: 0 <= i < |listing| ==>
          listing[i].id in store && listing[i].id !in left && store[listing[i].id] == listing[i]
        invariant forall id :: id in store && id !in left ==> store[id] in listing
        decreases |left|
      {
        var id :| id in left;
        listing := listing + [store[id]];
        left := left - {id};
      }
    }

    /** Due: loads, sorts in place, filters in place on the same array. */
    method Due(now: int) returns (due: seq<Envelope>, ghost listing: seq<Envelope>)
      requires Filed(store)
      ensures Lists(listing, store) && due == DueOf(Sorted(listing, Older()), now)
      ensures IsDue(due, store, now)
    {
      var all := ReadAll();
      listing := all;
      var a := new Envelope[|all|](i requires 0 <= i < |all| => all[i]);
      assert a[..] == all;
      SortInPlace(a, Older());
      var w := FilterInPlace(a, now);
      due := a[..w];
      DueFromListing(listing, store, now);
    }

    /** Earliest: the soonest attempt strictly after now, over exactly the
        envelopes Due leaves out. */
    method Earliest(now: int) returns (earliest: int, found: bool)
      requires Filed(store)
      ensures found <==> exists id :: id in store && store[id].nextAttempt > now
      ensures found ==> earliest > now && exists id :: id in store && store[id].nextAttempt == earliest
      ensures found ==> forall id :: id in store && store[id].nextAttempt > now ==> earliest <= store[id].nextAttempt
    {
      var all := ReadAll();
      earliest, found := 0, false;
      for i := 0 to |all|
        invariant found <==> exists k :: 0 <= k < i && all[k].nextAttempt > now
        invariant found ==> earliest > now && exists k :: 0 <= k < i && all[k].nextAttempt == earliest
        invariant forall k :: 0 <= k < i && all[k].nextAttempt > now ==> earliest <= all[k].nextAttempt
      {
        if all[i].nextAttempt > now && (!found || all[i].nextAttempt < earliest) {
          earliest, found := all[i].nextAttempt, true;
        }
      }
      forall id | id in store && store[id].nextAttempt > now ensures found && earliest <= store[id].nextAttempt {
        assert store[id] in all;
      }
    }
  }
}
