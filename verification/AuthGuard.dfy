/** Failed logins per key: progressive delays, lockout, and pruning of entries
    that no longer matter. Times count nanoseconds. Pruned and unpruned guards
    are compared by the answers they give from now on. */
module AuthGuard {
  import opened Text

  const MILLISECOND: int := 1_000_000

  datatype Params = Params(maxFailures: int, lockout: nat)

  /** None stands for the zero time: never locked, never failed. */
  datatype Entry = Entry(fails: nat, lockedUntil: Option<int>, last: Option<int>)

  type Entries = map<string, Entry>

  const FRESH := Entry(0, None, None)

  function Get(es: Entries, key: string): Entry { if key in es then es[key] else FRESH }

  predicate Blocked(es: Entries, key: string, now: int) {
    Get(es, key).lockedUntil.Some? && now < Get(es, key).lockedUntil.value
  }

  /** Failures that still count at now: a quiet period of twice the lockout
      forgives the old ones. */
  function Standing(p: Params, e: Entry, now: int): nat {
    if e.last.None? || now - e.last.value > 2 * p.lockout then 0 else e.fails
  }

  function Failed(p: Params, e: Entry, now: int): Entry {
    var fails := Standing(p, e, now) + 1;
    Entry(fails, if fails >= p.maxFailures then Some(now + p.lockout) else e.lockedUntil, Some(now))
  }

  function Shift(n: nat): int { if n == 0 then 1 else 2 * Shift(n - 1) }

  /** 250 ms, doubling per failure, capped at 4 s. */
  function Delay(fails: nat): int
    requires fails >= 1
  {
    250 * MILLISECOND * Shift(if fails - 1 > 4 then 4 else fails - 1)
  }

  function Fail(p: Params, es: Entries, key: string, now: int): (int, Entries) {
    var e := Failed(p, Get(es, key), now);
    (Delay(e.fails), es[key := e])
  }

  function Success(es: Entries, key: string): Entries { es - {key} }

  predicate Prunable(p: Params, e: Entry, now: int) {
    && (e.lockedUntil.None? || now > e.lockedUntil.value)
    && (e.last.None? || now - e.last.value > 2 * p.lockout)
  }

  function Prune(p: Params, es: Entries, now: int): Entries {
    map k | k in es && !Prunable(p, es[k], now) :: es[k]
  }

  // ---- what a caller can see ----

  /** Two guards that will answer alike for every key from now on. */
  ghost predicate Alike(p: Params, a: Entries, b: Entries, now: int) {
    forall k, t :: now <= t ==>
      Blocked(a, k, t) == Blocked(b, k, t) && Standing(p, Get(a, k), t) == Standing(p, Get(b, k), t)
  }

  lemma PruneAlike(p: Params, a: Entries, now: int)
    ensures Alike(p, Prune(p, a, now), a, now)
  {
  }

  lemma FailAlike(p: Params, a: Entries, b: Entries, key: string, now: int)
    requires Alike(p, a, b, now)
    ensures Fail(p, a, key, now).0 == Fail(p, b, key, now).0
    ensures Alike(p, Fail(p, a, key, now).1, Fail(p, b, key, now).1, now)
  {
    assert Blocked(a, key, now) == Blocked(b, key, now);
    forall k, t | now <= t
      ensures Blocked(Fail(p, a, key, now).1, k, t) == Blocked(Fail(p, b, key, now).1, k, t)
      ensures Standing(p, Get(Fail(p, a, key, now).1, k), t) == Standing(p, Get(Fail(p, b, key, now).1, k), t)
    {
      assert Blocked(a, k, t) == Blocked(b, k, t);
    }
  }

  lemma SuccessAlike(p: Params, a: Entries, b: Entries, key: string, now: int)
    requires Alike(p, a, b, now)
    ensures Alike(p, Success(a, key), Success(b, key), now)
  {
    forall k, t | now <= t
      ensures Blocked(Success(a, key), k, t) == Blocked(Success(b, key), k, t)
      ensures Standing(p, Get(Success(a, key), k), t) == Standing(p, Get(Success(b, key), k), t)
    {
      assert Blocked(a, k, t) == Blocked(b, k, t);
    }
  }

  datatype Event =
    | AskBlocked(key: string, at: int)
    | Failure(key: string, at: int)
    | Passed(key: string, at: int)
    | PruneNow(at: int)

  datatype Answer = IsBlocked(blocked: bool) | DelayOf(delay: int)

  ghost predicate InOrder(es: seq<Event>, from: int) {
    && (forall i :: 0 <= i < |es| ==> from <= es[i].at)
    && (forall i, j :: 0 <= i < j < |es| ==> es[i].at <= es[j].at)
  }

  function Step(p: Params, s: Entries, e: Event, pruning: bool): Entries {
    match e
    case AskBlocked(_, _) => s
    case Failure(k, t) => Fail(p, s, k, t).1
    case Passed(k, _) => Success(s, k)
    case PruneNow(t) => if pruning then Prune(p, s, t) else s
  }

  function Reply(p: Params, s: Entries, e: Event): seq<Answer> {
    match e
    case AskBlocked(k, t) => [IsBlocked(Blocked(s, k, t))]
    case Failure(k, t) => [DelayOf(Fail(p, s, k, t).0)]
    case _ => []
  }

  function Answers(p: Params, s: Entries, es: seq<Event>, pruning: bool): seq<Answer>
    decreases |es|
  {
    if es == [] then [] else Reply(p, s, es[0]) + Answers(p, Step(p, s, es[0], pruning), es[1..], pruning)
  }

  lemma StepAlike(p: Params, a: Entries, b: Entries, e: Event, now: int)
    requires Alike(p, a, b, now) && now <= e.at
    ensures Reply(p, a, e) == Reply(p, b, e)
    ensures Alike(p, Step(p, a, e, true), Step(p, b, e, false), e.at)
  {
    assert Alike(p, a, b, e.at);
    match e
    case AskBlocked(k, t) => assert Blocked(a, k, t) == Blocked(b, k, t);
    case Failure(k, t) => FailAlike(p, a, b, k, t);
    case Passed(k, t) => SuccessAlike(p, a, b, k, t);
    case PruneNow(t) => PruneAlike(p, a, t); AlikeThrough(p, Prune(p, a, t), a, b, t);
  }

  lemma AlikeThrough(p: Params, a: Entries, b: Entries, c: Entries, now: int)
    requires Alike(p, a, b, now) && Alike(p, b, c, now)
    ensures Alike(p, a, c, now)
  {
    forall k, t | now <= t
      ensures Blocked(a, k, t) == Blocked(c, k, t) && Standing(p, Get(a, k), t) == Standing(p, Get(c, k), t)
    {
      assert Blocked(a, k, t) == Blocked(b, k, t);
      assert Blocked(b, k, t) == Blocked(c, k, t);
    }
  }

  lemma {:induction false} SameAnswers(p: Params, a: Entries, b: Entries, es: seq<Event>, now: int)
    requires Alike(p, a, b, now) && InOrder(es, now)
    ensures Answers(p, a, es, true) == Answers(p, b, es, false)
    decreases |es|
  {
    if es != [] {
      StepAlike(p, a, b, es[0], now);
      assert forall i :: 0 <= i < |es[1..]| ==> es[1..][i] == es[i + 1];
      SameAnswers(p, Step(p, a, es[0], true), Step(p, b, es[0], false), es[1..], es[0].at);
    }
  }

  /** A guard that prunes at any moments gives, for every sequence of calls, the
      lockout answers and the delays of one that never prunes. */
  lemma PruningIsUnobservable(p: Params, s: Entries, es: seq<Event>, now: int)
    requires InOrder(es, now)
    ensures Answers(p, s, es, true) == Answers(p, s, es, false)
  {
    SameAnswers(p, s, s, es, now);
  }

  /** Failures of one key, none more than twice the lockout after the one
      before, lock the key from the maxFailures-th on, for the lockout. */
  function Failures(p: Params, s: Entries, key: string, times: seq<int>): Entries
    decreases |times|
  {
    if times == [] then s
    else Fail(p, Failures(p, s, key, times[..|times| - 1]), key, times[|times| - 1]).1
  }

  ghost predicate Close(p: Params, times: seq<int>) {
    forall i :: 0 < i < |times| ==> times[i] - times[i - 1] <= 2 * p.lockout
  }

  lemma {:induction false} FailuresCount(p: Params, s: Entries, key: string, times: seq<int>)
    requires key !in s && times != [] && Close(p, times)
    ensures var e := Get(Failures(p, s, key, times), key);
      && e.fails == |times| && e.last == Some(times[|times| - 1])
      && (e.lockedUntil == if |times| >= p.maxFailures then Some(times[|times| - 1] + p.lockout) else None)
    decreases |times|
  {
    var n := |times| - 1;
    if n > 0 {
      FailuresCount(p, s, key, times[..n]);
      assert times[..n][n - 1] == times[n - 1];
    } else {
      assert times[..0] == [];
    }
  }

  /** Consecutive failures lock a key exactly from the configured count on,
      until the lockout has passed since the last of them. */
  lemma LocksExactly(p: Params, s: Entries, key: string, times: seq<int>, t: int)
    requires key !in s && times != [] && Close(p, times)
    ensures Blocked(Failures(p, s, key, times), key, t) <==> |times| >= p.maxFailures && t < times[|times| - 1] + p.lockout
  {
    FailuresCount(p, s, key, times);
  }

  /** The delay starts at 250 ms and doubles with every failure, up to 4 s. */
  lemma DelayDoubles(n: nat)
    requires n >= 1
    ensures Delay(1) == 250 * MILLISECOND
    ensures Delay(n + 1) == if 2 * Delay(n) < 4000 * MILLISECOND then 2 * Delay(n) else 4000 * MILLISECOND
  {
    var four: nat := 4;
    assert Shift(four) == 2 * Shift(3) == 16 && Shift(3) == 8;
    if n <= 4 { ShiftBelow(n - 1); }
  }

  lemma ShiftBelow(n: nat)
    requires n <= 3
    ensures 1 <= Shift(n) <= 8
  {
    assert Shift(0) == 1 && Shift(1) == 2 && Shift(2) == 4 && Shift(3) == 8;
  }

  /** A success frees the key at once, its next failure counts as the first,
      and no other key is touched. */
  lemma SuccessForgets(p: Params, s: Entries, key: string, other: string, t: int)
    requires key != other
    ensures !Blocked(Success(s, key), key, t)
    ensures Fail(p, Success(s, key), key, t).0 == 250 * MILLISECOND
    ensures Get(Fail(p, Success(s, key), key, t).1, key).fails == 1
    ensures Get(Success(s, key), other) == Get(s, other)
  {
    assert Shift(0) == 1;
  }

  /** So does a failure more than twice the lockout after the last one. */
  lemma QuietForgets(p: Params, s: Entries, key: string, t: int)
    requires key in s && s[key].last.Some? && t - s[key].last.value > 2 * p.lockout
    ensures Fail(p, s, key, t).0 == 250 * MILLISECOND && Get(Fail(p, s, key, t).1, key).fails == 1
  {
    assert Shift(0) == 1;
  }

  // ---- the imperative form ----

  const PRUNE_AT: nat := 65536

  function PruneIfFull(p: Params, es: Entries, key: string, now: int): Entries {
    if key !in es && |es| >= PRUNE_AT then Prune(p, es, now) else es
  }

  class Guard {
    const p: Params
    var entries: Entries

    constructor (maxFailures: int, lockout: nat)
      ensures p == Params(maxFailures, lockout) && entries == map[]
    {
      p, entries := Params(maxFailures, lockout), map[];
    }

    method IsLocked(key: string, now: int) returns (blocked: bool)
      ensures blocked == Blocked(entries, key, now)
    {
      blocked := key in entries && entries[key].lockedUntil.Some? && now < entries[key].lockedUntil.value;
    }

    method RecordFailure(key: string, now: int) returns (delay: int)
      modifies this`entries
      ensures (delay, entries) == Fail(p, PruneIfFull(p, old(entries), key, now), key, now)
    {
      var e := FRESH;
      if key !in entries {
        if |entries| >= PRUNE_AT { DropStale(now); }
      } else {
        e := entries[key];
      }
      if e.last.None? || now - e.last.value > 2 * p.lockout {
        e := e.(fails := 0);
      }
      e := e.(fails := e.fails + 1, last := Some(now));
      if e.fails >= p.maxFailures {
        e := e.(lockedUntil := Some(now + p.lockout));
      }
      entries := entries[key := e];
      delay := Delay(e.fails);
    }

    method RecordSuccess(key: string)
      modifies this`entries
      ensures entries == Success(old(entries), key)
    {
      entries := entries - {key};
    }

    method DropStale(now: int)
      modifies this`entries
      ensures entries == Prune(p, old(entries), now)
    {
      var left := entries.Keys;
      while left != {}
        invariant left <= old(entries).Keys
        invariant forall k :: k in entries ==> k in old(entries) && entries[k] == old(entries)[k]
        invariant forall k :: k in left ==> k in entries
        invariant forall k :: k in old(entries) && k !in left ==> (k in entries <==> !Prunable(p, old(entries)[k], now))
        decreases |left|
      {
        var k :| k in left;
        if Prunable(p, entries[k], now) { entries := entries - {k}; }
        left := left - {k};
      }
    }
  }
}
