/** The delivery scheduler: due envelopes are attempted, transient failures
    retried with backoff, everything else delivered or bounced. */
module Scheduler {
  import opened Seqs
  import opened QueueStore
  import Runs
  import Pace

  const MINUTE: int := 60_000_000_000

  // ---- backoff ----

  function Pow2(n: nat): nat { if n == 0 then 1 else 2 * Pow2(n - 1) }

  /** 1, 2, 4, 8, ... minutes, capped at four hours; the shift is clamped. */
  function Backoff(attempts: nat): int
    requires attempts >= 1
  {
    var n := if attempts > 9 then 9 else attempts;
    var d := MINUTE * Pow2(n - 1);
    if d > 240 * MINUTE then 240 * MINUTE else d
  }

  lemma {:induction false} Pow2Monotone(m: nat, n: nat)
    requires m <= n
    ensures Pow2(m) <= Pow2(n)
    decreases n - m
  {
    if m < n { Pow2Monotone(m + 1, n); }
  }

  /** The clamped shift is the capped power of two, for every count. */
  lemma BackoffIsCapped(n: nat)
    requires n >= 1
    ensures Backoff(n) == MINUTE * (if Pow2(n - 1) < 240 then Pow2(n - 1) else 240)
  {
    assert Pow2(7) == 128 && Pow2(8) == 256;
    if n > 9 { Pow2Monotone(8, n - 1); }
    else if n <= 8 { Pow2Monotone(n - 1, 7); }
  }

  // ---- one attempt ----

  /** What pacing and transport answer. */
  datatype Outcome = Paced(wait: int) | Delivered | Permanent | Transient(error: string)

  datatype Bounce = Bounce(id: string, exhausted: bool)

  /** The store, what left it and how, and every transport call made. */
  datatype Ledger = Ledger(store: map<string, Envelope>, delivered: seq<string>, bounced: seq<Bounce>, calls: multiset<string>)

  function Retried(e: Envelope, now: int, error: string): Envelope {
    e.(attempts := e.attempts + 1, lastError := error, nextAttempt := now + Backoff(e.attempts + 1))
  }

  function Attempt(l: Ledger, max: int, e: Envelope, now: int, o: Outcome): Ledger {
    match o
    case Paced(wait) => l.(store := l.store[e.id := e.(nextAttempt := now + wait)])
    case Delivered =>
      l.(store := l.store - {e.id}, delivered := l.delivered + [e.id], calls := l.calls + multiset{e.id})
    case Permanent =>
      l.(store := l.store - {e.id}, bounced := l.bounced + [Bounce(e.id, false)], calls := l.calls + multiset{e.id})
    case Transient(error) =>
      if e.attempts + 1 >= max then
        l.(store := l.store - {e.id}, bounced := l.bounced + [Bounce(e.id, true)], calls := l.calls + multiset{e.id})
      else
        l.(store := l.store[e.id := Retried(e, now, error)], calls := l.calls + multiset{e.id})
  }

  function AttemptAll(l: Ledger, max: int, due: seq<Envelope>, now: int, os: seq<Outcome>): Ledger
    requires |os| == |due|
    decreases |due|
  {
    if due == [] then l
    else AttemptAll(Attempt(l, max, due[0], now, os[0]), max, due[1..], now, os[1..])
  }

  lemma AttemptAllStep(l: Ledger, max: int, due: seq<Envelope>, now: int, os: seq<Outcome>, i: nat)
    requires i < |due| == |os|
    ensures AttemptAll(l, max, due[i..], now, os[i..])
         == AttemptAll(Attempt(l, max, due[i], now, os[i]), max, due[i + 1..], now, os[i + 1..])
  {
    assert due[i..][0] == due[i] && due[i..][1..] == due[i + 1..];
    assert os[i..][0] == os[i] && os[i..][1..] == os[i + 1..];
  }

  class SchedulerService {
    const q: Queue
    const maxAttempts: int
    var delivered: seq<string>
    var bounced: seq<Bounce>
    ghost var calls: multiset<string>

    constructor (q: Queue, maxAttempts: int)
      ensures this.q == q && this.maxAttempts == maxAttempts
      ensures delivered == [] && bounced == [] && calls == multiset{}
    {
      this.q, this.maxAttempts := q, maxAttempts;
      delivered, bounced, calls := [], [], multiset{};
    }

    ghost function Value(): Ledger reads this, q { Ledger(q.store, delivered, bounced, calls) }

    /** attempt: o stands for the answers of throttle and transport. */
    method AttemptOne(e: Envelope, now: int, o: Outcome)
      modifies this, q
      ensures Value() == Attempt(old(Value()), maxAttempts, e, now, o)
    {
      if o.Paced? {
        q.Update(e.(nextAttempt := now + o.wait));
        return;
      }
      calls := calls + multiset{e.id};
      if o.Delivered? {
        delivered := delivered + [e.id];
        q.Remove(e);
        return;
      }
      if o.Permanent? {
        bounced := bounced + [Bounce(e.id, false)];
        q.Remove(e);
        return;
      }
      var e' := e.(attempts := e.attempts + 1, lastError := o.error);
      if e'.attempts >= maxAttempts {
        bounced := bounced + [Bounce(e.id, true)];
        q.Remove(e');
        return;
      }
      q.Update(e'.(nextAttempt := now + Backoff(e'.attempts)));
    }

    /** Process: every due envelope once, with the answers os. */
    method Process(now: int, os: seq<Outcome>) returns (ghost due: seq<Envelope>)
      requires Filed(q.store) && |os| >= |q.store|
      modifies this, q
      ensures IsDue(due, old(q.store), now) && |due| <= |os|
      ensures Value() == AttemptAll(old(Value()), maxAttempts, due, now, os[..|due|])
    {
      var all; ghost var listing;
      all, listing := q.Due(now);
      due := all;
      DueFits(due, q.store, now);
      ghost var answers := os[..|all|];
      for i := 0 to |all|
        invariant AttemptAll(Value(), maxAttempts, due[i..], now, answers[i..])
               == AttemptAll(old(Value()), maxAttempts, due, now, answers)
      {
        AttemptAllStep(Value(), maxAttempts, due, now, answers, i);
        AttemptOne(all[i], now, os[i]);
      }
    }
  }

  lemma {:induction false} DueFits(due: seq<Envelope>, store: map<string, Envelope>, now: int)
    requires IsDue(due, store, now)
    ensures |due| <= |store|
  {
    forall i, j | 0 <= i < j < |due| ensures due[i].id != due[j].id {
      assert due[i] in due && due[j] in due;
    }
    IdsCount(due);
    forall id | id in IdSet(due) ensures id in store {
      var i :| 0 <= i < |due| && due[i].id == id;
      assert due[i] in due;
    }
    SubsetSize(IdSet(due), store.Keys);
  }

  ghost function IdSet(due: seq<Envelope>): set<string> {
    set i | 0 <= i < |due| :: due[i].id
  }

  lemma {:induction false} IdsCount(due: seq<Envelope>)
    requires forall i, j :: 0 <= i < j < |due| ==> due[i].id != due[j].id
    ensures |IdSet(due)| == |due|
    decreases |due|
  {
    if due != [] {
      var n := |due| - 1;
      IdsCount(due[..n]);
      assert IdSet(due) == IdSet(due[..n]) + {due[n].id};
    }
  }

  lemma {:induction false} SubsetSize(a: set<string>, b: set<string>)
    requires a <= b
    ensures |a| <= |b|
    decreases |a|
  {
    if a != {} {
      var x :| x in a;
      SubsetSize(a - {x}, b - {x});
    }
  }

  // ---- whole runs ----

  /** The ledger, every id ever enqueued, and the envelopes the current pass
      still has to attempt. */
  datatype World = World(ledger: Ledger, enqueued: set<string>, pending: seq<Envelope>, now: int)

  datatype Step =
    | Enqueue(e: Envelope)
    | StartPass(now: int, due: seq<Envelope>)
    | AttemptNext(outcome: Outcome)

  /** Envelopes may be enqueued at any moment, also between two attempts of a
      pass (a bounce does). */
  ghost predicate Next(max: int, w: World, s: Step, w': World) {
    match s
    case Enqueue(e) =>
      && e.id !in w.enqueued && e.attempts == 0
      && w' == w.(ledger := w.ledger.(store := w.ledger.store[e.id := e]), enqueued := w.enqueued + {e.id})
    case StartPass(now, due) =>
      && w.pending == [] && IsDue(due, w.ledger.store, now)
      && w' == w.(pending := due, now := now)
    case AttemptNext(o) =>
      && w.pending != []
      && w' == w.(ledger := Attempt(w.ledger, max, w.pending[0], w.now, o), pending := w.pending[1..])
  }

  ghost function Ids(bs: seq<Bounce>): (r: seq<string>)
    ensures |r| == |bs|
    ensures forall i :: 0 <= i < |bs| ==> r[i] == bs[i].id
  {
    seq(|bs|, i requires 0 <= i < |bs| => bs[i].id)
  }

  /** No envelope sees more transport calls than this. */
  function Limit(max: int): nat { if max < 1 then 1 else max }

  /** Each envelope is exactly one of queued, delivered once, bounced once. */
  ghost predicate Accounted(w: World) {
    var l := w.ledger;
    && Distinct(l.delivered) && Distinct(Ids(l.bounced))
    && (forall id :: id in l.store ==> id in w.enqueued && id !in l.delivered && id !in Ids(l.bounced))
    && (forall id :: id in l.delivered ==> id in w.enqueued && id !in Ids(l.bounced))
    && (forall id :: id in Ids(l.bounced) ==> id in w.enqueued)
    && (forall id :: id in w.enqueued ==> id in l.store || id in l.delivered || id in Ids(l.bounced))
  }

  ghost predicate Counted(max: int, w: World) {
    var l := w.ledger;
    && (forall id :: id in l.store ==> l.store[id].attempts < Limit(max) && l.calls[id] == l.store[id].attempts)
    && (forall id :: id in l.delivered ==> 1 <= l.calls[id] <= Limit(max))
    && (forall i :: 0 <= i < |l.bounced| ==> 1 <= l.calls[l.bounced[i].id] <= Limit(max))
    && (forall i :: 0 <= i < |l.bounced| && l.bounced[i].exhausted ==> l.calls[l.bounced[i].id] == Limit(max))
    && (forall id :: id !in w.enqueued ==> l.calls[id] == 0)
  }

  ghost predicate PendingStored(w: World) {
    && Filed(w.ledger.store)
    && (forall i :: 0 <= i < |w.pending| ==> w.pending[i].id in w.ledger.store && w.ledger.store[w.pending[i].id] == w.pending[i])
    && (forall i, j :: 0 <= i < j < |w.pending| ==> w.pending[i].id != w.pending[j].id)
  }

  ghost predicate Inv(max: int, w: World) {
    Accounted(w) && Counted(max, w) && PendingStored(w)
  }

  lemma LeavesAccounted(w: World, w': World, id: string)
    requires Accounted(w) && id in w.ledger.store && w'.enqueued == w.enqueued
    requires w'.ledger.store == w.ledger.store - {id}
    requires || (w'.ledger.delivered == w.ledger.delivered + [id] && w'.ledger.bounced == w.ledger.bounced)
             || (w'.ledger.delivered == w.ledger.delivered && exists x :: w'.ledger.bounced == w.ledger.bounced + [Bounce(id, x)])
    ensures Accounted(w')
  {
    if w'.ledger.delivered == w.ledger.delivered {
      var x :| w'.ledger.bounced == w.ledger.bounced + [Bounce(id, x)];
      assert Ids(w'.ledger.bounced) == Ids(w.ledger.bounced) + [id];
    }
  }

  lemma PendingAfter(max: int, w: World, o: Outcome, w': World)
    requires PendingStored(w) && Next(max, w, AttemptNext(o), w')
    ensures PendingStored(w')
  {
    var e := w.pending[0];
    forall i | 0 <= i < |w'.pending| ensures w'.pending[i].id in w'.ledger.store && w'.ledger.store[w'.pending[i].id] == w'.pending[i] {
      assert w'.pending[i] == w.pending[i + 1];
    }
  }

  lemma AttemptCounts(max: int, w: World, o: Outcome, w': World)
    requires Inv(max, w) && Next(max, w, AttemptNext(o), w')
    ensures Counted(max, w')
  {
    var e := w.pending[0];
    assert w.ledger.store[e.id] == e;
    assert e.id in w.enqueued && e.id !in w.ledger.delivered && e.id !in Ids(w.ledger.bounced);
    OthersBounced(w.ledger.bounced, e.id);
    match o
    case Paced(_) =>
    case Delivered =>
    case Permanent => OneMoreBounced(max, w, w', e, false);
    case Transient(_) => if e.attempts + 1 >= max { OneMoreBounced(max, w, w', e, true); }
  }

  lemma OthersBounced(bs: seq<Bounce>, id: string)
    requires id !in Ids(bs)
    ensures forall i :: 0 <= i < |bs| ==> bs[i].id != id
  {
    forall i | 0 <= i < |bs| ensures bs[i].id != id { assert Ids(bs)[i] == bs[i].id; }
  }

  lemma OneMoreBounced(max: int, w: World, w': World, e: Envelope, exhausted: bool)
    requires Counted(max, w) && e.id in w.ledger.store && w.ledger.store[e.id] == e && e.id in w.enqueued
    requires e.id !in w.ledger.delivered && forall i :: 0 <= i < |w.ledger.bounced| ==> w.ledger.bounced[i].id != e.id
    requires exhausted ==> e.attempts + 1 >= max
    requires w' == w.(ledger := w'.ledger, pending := w'.pending)
    requires w'.ledger == w.ledger.(store := w.ledger.store - {e.id}, bounced := w.ledger.bounced + [Bounce(e.id, exhausted)],
                                    calls := w.ledger.calls + multiset{e.id})
    ensures Counted(max, w')
  {
  }

  lemma AttemptAccounts(max: int, w: World, o: Outcome, w': World)
    requires Inv(max, w) && Next(max, w, AttemptNext(o), w')
    ensures Accounted(w')
  {
    var e := w.pending[0];
    assert e.id in w.ledger.store;
    match o
    case Paced(_) =>
    case Delivered => LeavesAccounted(w, w', e.id);
    case Permanent =>
      assert w'.ledger.bounced == w.ledger.bounced + [Bounce(e.id, false)];
      LeavesAccounted(w, w', e.id);
    case Transient(_) =>
      if e.attempts + 1 >= max {
        assert w'.ledger.bounced == w.ledger.bounced + [Bounce(e.id, true)];
        LeavesAccounted(w, w', e.id);
      }
  }

  lemma StepKeeps(max: int, w: World, s: Step, w': World)
    requires Inv(max, w) && Next(max, w, s, w')
    ensures Inv(max, w')
  {
    match s
    case Enqueue(e) =>
      EnqueueKeeps(max, w, e, w');
    case StartPass(now, due) =>
      forall i | 0 <= i < |due| ensures due[i].id in w.ledger.store && w.ledger.store[due[i].id] == due[i] { assert due[i] in due; }
    case AttemptNext(o) =>
      AttemptAccounts(max, w, o, w');
      AttemptCounts(max, w, o, w');
      PendingAfter(max, w, o, w');
  }

  lemma EnqueueKeeps(max: int, w: World, e: Envelope, w': World)
    requires Inv(max, w) && Next(max, w, Enqueue(e), w')
    ensures Inv(max, w')
  {
  }

  /** A whole pass of Process keeps the invariant too. */
  lemma {:induction false} PassKeeps(max: int, w: World, os: seq<Outcome>)
    requires Inv(max, w) && |os| == |w.pending|
    ensures Inv(max, w.(ledger := AttemptAll(w.ledger, max, w.pending, w.now, os), pending := []))
    decreases |os|
  {
    if os != [] {
      var w' := w.(ledger := Attempt(w.ledger, max, w.pending[0], w.now, os[0]), pending := w.pending[1..]);
      StepKeeps(max, w, AttemptNext(os[0]), w');
      PassKeeps(max, w', os[1..]);
    } else {
      assert w.(ledger := w.ledger, pending := []) == w;
    }
  }

  const START := World(Ledger(map[], [], [], multiset{}), {}, [], 0)

  ghost predicate Run(max: int, ws: seq<World>, steps: seq<Step>) {
    Runs.IsRun(ws, steps, (w: World, s: Step, w': World) => Next(max, w, s, w')) && ws[0] == START
  }

  /** Whatever is enqueued whenever, and whatever transport and pacing answer,
      no envelope is lost, delivered twice, bounced twice, or both delivered
      and bounced; and none sees more than maxAttempts transport calls. */
  lemma NothingIsLost(max: int, ws: seq<World>, steps: seq<Step>, i: nat)
    requires Run(max, ws, steps) && i < |ws|
    ensures Accounted(ws[i]) && Counted(max, ws[i])
    ensures |ws[i].ledger.delivered| + |ws[i].ledger.bounced| + |ws[i].ledger.store| == |ws[i].enqueued|
  {
    RunInv(max, ws, steps, i);
    Conservation(ws[i]);
  }

  lemma RunInv(max: int, ws: seq<World>, steps: seq<Step>, i: nat)
    requires Run(max, ws, steps) && i < |ws|
    ensures Inv(max, ws[i])
  {
    forall w, s, w' | Inv(max, w) && Next(max, w, s, w') ensures Inv(max, w') { StepKeeps(max, w, s, w'); }
    Runs.Invariant(ws, steps, (w: World, s: Step, w': World) => Next(max, w, s, w'), (w: World) => Inv(max, w), i);
  }

  lemma {:induction false} DistinctSize(s: seq<string>)
    requires Distinct(s)
    ensures |Elements(s)| == |s|
    decreases |s|
  {
    if s != [] {
      var n := |s| - 1;
      DistinctSize(s[..n]);
      assert s == s[..n] + [s[n]];
      assert Elements(s) == Elements(s[..n]) + {s[n]};
      assert s[n] !in s[..n];
    }
  }

  ghost function Elements(s: seq<string>): set<string> { set x | x in s }

  lemma Conservation(w: World)
    requires Accounted(w)
    ensures |w.ledger.delivered| + |w.ledger.bounced| + |w.ledger.store| == |w.enqueued|
  {
    var d, b, q := Elements(w.ledger.delivered), Elements(Ids(w.ledger.bounced)), w.ledger.store.Keys;
    DistinctSize(w.ledger.delivered);
    DistinctSize(Ids(w.ledger.bounced));
    assert d !! b !! q;
    assert d + b + q == w.enqueued;
  }

  /** The answer of pacing is the longest wait of a refused reservation. */
  ghost predicate FromThrottle(o: Outcome, bs: Pace.Buckets, ss: seq<Pace.Scoped>, now: int) {
    o.Paced? ==> Pace.Rates(ss) && !Pace.AllReady(bs, ss, now) && o.wait == Pace.MaxWait(bs, ss, now)
  }

  /** Pacing never counts as an attempt, and what stays queued always lies
      ahead: by a millisecond at least when paced, by the backoff otherwise. */
  lemma RetriesLieAhead(l: Ledger, max: int, e: Envelope, now: int, o: Outcome, bs: Pace.Buckets, ss: seq<Pace.Scoped>)
    requires e.id in Attempt(l, max, e, now, o).store && FromThrottle(o, bs, ss, now)
    ensures var e' := Attempt(l, max, e, now, o).store[e.id];
      && (o.Paced? ==> e'.attempts == e.attempts && now + Pace.MILLISECOND <= e'.nextAttempt && Attempt(l, max, e, now, o).calls == l.calls)
      && (!o.Paced? ==> e'.attempts == e.attempts + 1 < max && now + MINUTE <= e'.nextAttempt <= now + 240 * MINUTE)
  {
    if o.Paced? { Pace.MaxWaitCovers(bs, ss, now); }
    if o.Transient? {
      BackoffIsCapped(e.attempts + 1);
      Pow2Monotone(0, e.attempts);
    }
  }
}
