/** Per-key token buckets that refill lazily and are pruned when they carry no
    state any more. Times count nanoseconds. */
module RateLimit {

  /** limit events per window, with a burst of the same size. */
  datatype Params = Params(limit: nat, window: int)
  {
    predicate Valid() { window > 0 }
    function Max(): real { limit as real }
    /** Tokens that flow in over d nanoseconds. */
    function Flow(d: int): real
      requires window > 0
    {
      d as real / window as real * limit as real
    }
  }

  datatype Bucket = Bucket(tokens: real, last: int)

  type Buckets<!K> = map<K, Bucket>

  function Min(a: real, b: real): real { if a < b then a else b }

  /** Tokens of a bucket at a moment; one not created is full. */
  function Level<K>(p: Params, bs: Buckets<K>, key: K, now: int): real
    requires p.Valid()
  {
    if key in bs then Min(p.Max(), bs[key].tokens + p.Flow(now - bs[key].last)) else p.Max()
  }

  /** One request for a token. */
  function Allow<K>(p: Params, bs: Buckets<K>, key: K, now: int): (bool, Buckets<K>)
    requires p.Valid()
  {
    var level := Level(p, bs, key, now);
    if level < 1.0 then (false, bs[key := Bucket(level, now)])
    else (true, bs[key := Bucket(level - 1.0, now)])
  }

  /** Drops the buckets that have refilled completely. */
  function Prune<K>(p: Params, bs: Buckets<K>, now: int): Buckets<K>
    requires p.Valid()
  {
    map k | k in bs && !(bs[k].tokens + p.Flow(now - bs[k].last) >= p.Max()) :: bs[k]
  }

  // ---- arithmetic of the refill ----

  lemma FlowAdds(p: Params, a: int, b: int, c: int)
    requires p.Valid() && a <= b <= c
    ensures p.Flow(b - a) >= 0.0
    ensures p.Flow(c - a) == p.Flow(b - a) + p.Flow(c - b)
    ensures p.Flow(0) == 0.0
  {
    var w, l := p.window as real, p.limit as real;
    var x, y := (b - a) as real, (c - b) as real;
    assert (c - a) as real == x + y;
    assert (x + y) / w == x / w + y / w;
    assert (x / w + y / w) * l == x / w * l + y / w * l;
    assert x / w >= 0.0;
    MulNonNeg(x / w, l);
  }

  lemma MulNonNeg(a: real, b: real)
    requires a >= 0.0 && b >= 0.0
    ensures a * b >= 0.0
  {
  }

  ghost predicate NotAfter<K(!new)>(bs: Buckets<K>, now: int) {
    forall k :: k in bs ==> bs[k].last <= now
  }

  // ---- pruning cannot be observed ----

  /** Two states that show the same level of every key from now on. */
  ghost predicate Alike<K(!new)>(p: Params, a: Buckets<K>, b: Buckets<K>, now: int)
    requires p.Valid()
  {
    forall k, t :: now <= t ==> Level(p, a, k, t) == Level(p, b, k, t)
  }

  lemma PruneAlike<K(!new)>(p: Params, a: Buckets<K>, now: int)
    requires p.Valid() && NotAfter(a, now)
    ensures Alike(p, Prune(p, a, now), a, now) && NotAfter(Prune(p, a, now), now)
  {
    forall k, t | now <= t ensures Level(p, Prune(p, a, now), k, t) == Level(p, a, k, t) {
      if k in a && k !in Prune(p, a, now) {
        FlowAdds(p, a[k].last, now, t);
        FlowAdds(p, now, t, t);
      }
    }
  }

  lemma AllowAlike<K(!new)>(p: Params, a: Buckets<K>, b: Buckets<K>, key: K, now: int)
    requires p.Valid() && Alike(p, a, b, now) && NotAfter(a, now) && NotAfter(b, now)
    ensures Allow(p, a, key, now).0 == Allow(p, b, key, now).0
    ensures Alike(p, Allow(p, a, key, now).1, Allow(p, b, key, now).1, now)
    ensures NotAfter(Allow(p, a, key, now).1, now) && NotAfter(Allow(p, b, key, now).1, now)
  {
    assert Level(p, a, key, now) == Level(p, b, key, now);
    forall k, t | now <= t
      ensures Level(p, Allow(p, a, key, now).1, k, t) == Level(p, Allow(p, b, key, now).1, k, t)
    {
      if k != key { assert Level(p, a, k, t) == Level(p, b, k, t); }
    }
  }

  /** A call of the limiter, or a moment at which it happens to prune. */
  datatype Event<K> = Ask(key: K, at: int) | PruneNow(at: int)

  ghost predicate InOrder<K>(es: seq<Event<K>>, from: int) {
    && (forall i :: 0 <= i < |es| ==> from <= es[i].at)
    && (forall i, j :: 0 <= i < j < |es| ==> es[i].at <= es[j].at)
  }

  lemma TailInOrder<K>(es: seq<Event<K>>, from: int)
    requires es != [] && InOrder(es, from)
    ensures InOrder(es[1..], es[0].at)
  {
    assert forall i :: 0 <= i < |es[1..]| ==> es[1..][i] == es[i + 1];
  }

  /** The answers to the calls, with pruning done or ignored. */
  function Answers<K>(p: Params, bs: Buckets<K>, es: seq<Event<K>>, pruning: bool): seq<bool>
    requires p.Valid()
    decreases |es|
  {
    if es == [] then []
    else
      match es[0]
      case Ask(key, at) =>
        var (ok, bs') := Allow(p, bs, key, at);
        [ok] + Answers(p, bs', es[1..], pruning)
      case PruneNow(at) =>
        Answers(p, if pruning then Prune(p, bs, at) else bs, es[1..], pruning)
  }

  lemma AlikeLater<K(!new)>(p: Params, a: Buckets<K>, b: Buckets<K>, now: int, t: int)
    requires p.Valid() && Alike(p, a, b, now) && NotAfter(a, now) && NotAfter(b, now) && now <= t
    ensures Alike(p, a, b, t) && NotAfter(a, t) && NotAfter(b, t)
  {
  }

  lemma {:induction false} SameAnswers<K(!new)>(p: Params, a: Buckets<K>, b: Buckets<K>, es: seq<Event<K>>, now: int)
    requires p.Valid() && Alike(p, a, b, now) && NotAfter(a, now) && NotAfter(b, now) && InOrder(es, now)
    ensures Answers(p, a, es, true) == Answers(p, b, es, false)
    decreases |es|
  {
    if es != [] {
      TailInOrder(es, now);
      var t := es[0].at;
      AlikeLater(p, a, b, now, t);
      match es[0]
      case Ask(key, at) =>
        AllowAlike(p, a, b, key, at);
        SameAnswers(p, Allow(p, a, key, at).1, Allow(p, b, key, at).1, es[1..], at);
      case PruneNow(at) =>
        PruneAlike(p, a, at);
        AlikeThrough(p, Prune(p, a, at), a, b, at);
        SameAnswers(p, Prune(p, a, at), b, es[1..], at);
    }
  }

  lemma AlikeThrough<K(!new)>(p: Params, a: Buckets<K>, b: Buckets<K>, c: Buckets<K>, now: int)
    requires p.Valid() && Alike(p, a, b, now) && Alike(p, b, c, now)
    ensures Alike(p, a, c, now)
  {
  }

  /** Pruning at any moments gives the answers of never pruning. */
  lemma PruningIsUnobservable<K(!new)>(p: Params, bs: Buckets<K>, es: seq<Event<K>>, now: int)
    requires p.Valid() && NotAfter(bs, now) && InOrder(es, now)
    ensures Answers(p, bs, es, true) == Answers(p, bs, es, false)
  {
    SameAnswers(p, bs, bs, es, now);
  }

  // ---- the admission bound ----

  ghost predicate WithinMax<K(!new)>(p: Params, bs: Buckets<K>) {
    forall k :: k in bs ==> 0.0 <= bs[k].tokens
  }

  function Admitted<K>(p: Params, bs: Buckets<K>, es: seq<Event<K>>, pruning: bool, key: K): nat
    requires p.Valid()
    decreases |es|
  {
    if es == [] then 0
    else
      match es[0]
      case Ask(k, at) =>
        (if k == key && Allow(p, bs, k, at).0 then 1 else 0) + Admitted(p, Allow(p, bs, k, at).1, es[1..], pruning, key)
      case PruneNow(at) =>
        Admitted(p, if pruning then Prune(p, bs, at) else bs, es[1..], pruning, key)
  }

  lemma LevelBetween<K(!new)>(p: Params, bs: Buckets<K>, key: K, now: int)
    requires p.Valid() && NotAfter(bs, now) && WithinMax(p, bs)
    ensures 0.0 <= Level(p, bs, key, now) <= p.Max()
  {
    if key in bs { FlowAdds(p, bs[key].last, now, now); }
  }

  lemma LevelGrows<K(!new)>(p: Params, bs: Buckets<K>, key: K, now: int, t: int)
    requires p.Valid() && NotAfter(bs, now) && now <= t
    ensures Level(p, bs, key, t) <= Level(p, bs, key, now) + p.Flow(t - now)
  {
    if key in bs { FlowAdds(p, bs[key].last, now, t); }
    FlowAdds(p, now, t, t);
  }

  lemma AskStep<K(!new)>(p: Params, bs: Buckets<K>, k: K, key: K, now: int)
    requires p.Valid() && NotAfter(bs, now) && WithinMax(p, bs)
    ensures var (ok, bs') := Allow(p, bs, k, now);
      && NotAfter(bs', now) && WithinMax(p, bs')
      && Level(p, bs', key, now) + (if k == key && ok then 1.0 else 0.0) == Level(p, bs, key, now)
  {
    LevelBetween(p, bs, k, now);
    FlowAdds(p, now, now, now);
  }

  lemma {:induction false} AdmittedBound<K(!new)>(p: Params, bs: Buckets<K>, es: seq<Event<K>>, pruning: bool, key: K, from: int, until: int)
    requires p.Valid() && NotAfter(bs, from) && WithinMax(p, bs) && InOrder(es, from)
    requires from <= until && forall i :: 0 <= i < |es| ==> es[i].at <= until
    ensures Admitted(p, bs, es, pruning, key) as real <= Level(p, bs, key, from) + p.Flow(until - from)
    decreases |es|
  {
    if es == [] {
      LevelBetween(p, bs, key, from);
      FlowAdds(p, from, until, until);
    } else {
      var t := es[0].at;
      TailInOrder(es, from);
      LevelGrows(p, bs, key, from, t);
      FlowAdds(p, from, t, until);
      assert NotAfter(bs, t);
      match es[0]
      case Ask(k, at) =>
        AskStep(p, bs, k, key, at);
        AdmittedBound(p, Allow(p, bs, k, at).1, es[1..], pruning, key, at, until);
      case PruneNow(at) =>
        PruneAlike(p, bs, at);
        var bs' := if pruning then Prune(p, bs, at) else bs;
        assert Level(p, bs', key, at) == Level(p, bs, key, at);
        AdmittedBound(p, bs', es[1..], pruning, key, at, until);
    }
  }

  lemma AdmittedByBurst<K(!new)>(p: Params, bs: Buckets<K>, es: seq<Event<K>>, pruning: bool, key: K, from: int, until: int)
    requires p.Valid() && NotAfter(bs, from) && WithinMax(p, bs) && InOrder(es, from)
    requires from <= until && forall i :: 0 <= i < |es| ==> es[i].at <= until
    ensures Admitted(p, bs, es, pruning, key) as real <= p.Max() + p.Flow(until - from)
  {
    AdmittedBound(p, bs, es, pruning, key, from, until);
    LevelBetween(p, bs, key, from);
  }

  /** limit * (1 + d / window) */
  function Allowance(p: Params, d: int): real
    requires p.Valid()
  {
    p.limit as real * (1.0 + d as real / p.window as real)
  }

  lemma BurstPlusFlow(p: Params, d: int)
    requires p.Valid()
    ensures p.Max() + p.Flow(d) == Allowance(p, d)
  {
    Factor(p.limit as real, d as real / p.window as real);
  }

  /** Over any interval of length T a key is admitted at most
      limit * (1 + T / window) times. */
  lemma AdmissionBound<K(!new)>(p: Params, bs: Buckets<K>, es: seq<Event<K>>, pruning: bool, key: K, from: int, until: int)
    requires p.Valid() && NotAfter(bs, from) && WithinMax(p, bs) && InOrder(es, from)
    requires from <= until && forall i :: 0 <= i < |es| ==> es[i].at <= until
    ensures Admitted(p, bs, es, pruning, key) as real <= Allowance(p, until - from)
  {
    AdmittedByBurst(p, bs, es, pruning, key, from, until);
    BurstPlusFlow(p, until - from);
  }

  lemma Factor(l: real, x: real)
    ensures l + x * l == l * (1.0 + x)
  {
  }

  // ---- and no less ----

  /** n requests of one key at one moment. */
  function Burst<K>(key: K, t: int, n: nat): (es: seq<Event<K>>)
    ensures |es| == n && forall i :: 0 <= i < n ==> es[i] == Ask(key, t)
  {
    seq(n, _ => Ask(key, t))
  }

  lemma {:induction false} LevelPays<K(!new)>(p: Params, bs: Buckets<K>, key: K, t: int, n: nat, level: nat)
    requires p.Valid() && NotAfter(bs, t) && WithinMax(p, bs) && Level(p, bs, key, t) == level as real
    ensures Admitted(p, bs, Burst(key, t, n), true, key) == if n < level then n else level
    decreases n
  {
    if n > 0 {
      var (ok, bs') := Allow(p, bs, key, t);
      AskStep(p, bs, key, key, t);
      assert Burst(key, t, n)[1..] == Burst(key, t, n - 1);
      LevelPays(p, bs', key, t, n - 1, if level == 0 then 0 else level - 1);
    }
  }

  lemma IdleIsFull<K(!new)>(p: Params, bs: Buckets<K>, key: K, t: int)
    requires p.Valid() && WithinMax(p, bs) && (key in bs ==> t - bs[key].last >= p.window)
    ensures Level(p, bs, key, t) == p.Max()
  {
    if key in bs {
      var d, w, l := (t - bs[key].last) as real, p.window as real, p.limit as real;
      assert d / w >= 1.0;
      assert (d / w - 1.0) * l >= 0.0;
    }
  }

  /** A key that is new, or has been idle for a window, is admitted exactly
      limit times at once. */
  lemma BurstExactly<K(!new)>(p: Params, bs: Buckets<K>, key: K, t: int, n: nat)
    requires p.Valid() && NotAfter(bs, t) && WithinMax(p, bs) && (key in bs ==> t - bs[key].last >= p.window)
    ensures Admitted(p, bs, Burst(key, t, n), true, key) == if n < p.limit then n else p.limit
  {
    IdleIsFull(p, bs, key, t);
    LevelPays(p, bs, key, t, n, p.limit);
  }

  // ---- the imperative form ----

  const PRUNE_AT: nat := 65536

  /** The limiter prunes when an unknown key finds the map full. */
  function PruneIfFull<K>(p: Params, bs: Buckets<K>, key: K, now: int): Buckets<K>
    requires p.Valid()
  {
    if key !in bs && |bs| >= PRUNE_AT then Prune(p, bs, now) else bs
  }

  class Limiter {
    const p: Params
    var buckets: Buckets<string>

    constructor (limit: nat, window: int)
      ensures p == Params(limit, window) && buckets == map[]
    {
      p, buckets := Params(limit, window), map[];
    }

    method AllowOne(key: string, now: int) returns (ok: bool)
      requires p.Valid() && NotAfter(buckets, now)
      modifies this`buckets
      ensures (ok, buckets) == Allow(p, PruneIfFull(p, old(buckets), key, now), key, now)
    {
      var b;
      if key !in buckets {
        if |buckets| >= PRUNE_AT { DropFull(now); }
        b := Bucket(p.Max(), now);
      } else {
        var tokens := buckets[key].tokens + p.Flow(now - buckets[key].last);
        b := Bucket(if tokens > p.Max() then p.Max() else tokens, now);
      }
      if b.tokens < 1.0 {
        buckets := buckets[key := b];
        return false;
      }
      buckets := buckets[key := b.(tokens := b.tokens - 1.0)];
      ok := true;
    }

    method DropFull(now: int)
      requires p.Valid()
      modifies this`buckets
      ensures buckets == Prune(p, old(buckets), now)
    {
      var left := buckets.Keys;
      while left != {}
        invariant left <= old(buckets).Keys
        invariant forall k :: k in buckets ==> k in old(buckets) && buckets[k] == old(buckets)[k]
        invariant forall k :: k in left ==> k in buckets
        invariant forall k :: k in old(buckets) && k !in left ==> (k in buckets <==> k in Prune(p, old(buckets), now))
        decreases |left|
      {
        var k :| k in left;
        var idle := p.Flow(now - buckets[k].last);
        if buckets[k].tokens + idle >= p.Max() {
          buckets := buckets - {k};
        }
        left := left - {k};
      }
    }
  }

  /** Answers of the limiter as it is, pruning when full. */
  function LimiterAnswers<K>(p: Params, bs: Buckets<K>, calls: seq<(K, int)>): seq<bool>
    requires p.Valid()
    decreases |calls|
  {
    if calls == [] then []
    else
      var (ok, bs') := Allow(p, PruneIfFull(p, bs, calls[0].0, calls[0].1), calls[0].0, calls[0].1);
      [ok] + LimiterAnswers(p, bs', calls[1..])
  }

  /** The same calls with no pruning at all. */
  function PlainAnswers<K>(p: Params, bs: Buckets<K>, calls: seq<(K, int)>): seq<bool>
    requires p.Valid()
    decreases |calls|
  {
    if calls == [] then []
    else
      var (ok, bs') := Allow(p, bs, calls[0].0, calls[0].1);
      [ok] + PlainAnswers(p, bs', calls[1..])
  }

  lemma {:induction false} LimiterIsPlain<K(!new)>(p: Params, a: Buckets<K>, b: Buckets<K>, calls: seq<(K, int)>, now: int)
    requires p.Valid() && Alike(p, a, b, now) && NotAfter(a, now) && NotAfter(b, now)
    requires forall i :: 0 <= i < |calls| ==> now <= calls[i].1
    requires forall i, j :: 0 <= i < j < |calls| ==> calls[i].1 <= calls[j].1
    ensures LimiterAnswers(p, a, calls) == PlainAnswers(p, b, calls)
    decreases |calls|
  {
    if calls != [] {
      var (key, t) := calls[0];
      AlikeLater(p, a, b, now, t);
      PruneAlike(p, a, t);
      var a' := PruneIfFull(p, a, key, t);
      AlikeThrough(p, a', a, b, t);
      AllowAlike(p, a', b, key, t);
      assert forall i :: 0 <= i < |calls[1..]| ==> calls[1..][i] == calls[i + 1];
      LimiterIsPlain(p, Allow(p, a', key, t).1, Allow(p, b, key, t).1, calls[1..], t);
    }
  }
}
