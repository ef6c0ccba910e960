/** Outbound pacing: token buckets per sender scope and per egress IP, refilled
    lazily, reserved all or none. Times count nanoseconds. */
module Pace {
  import opened Text

  datatype Limit = Limit(rate: real, burst: real)
  {
    function Cap(): real { if burst < 1.0 then 1.0 else burst }
  }

  type Ruleset = map<string, Limit>

  datatype Config = Config(global: Ruleset, perIP: Ruleset, byDomain: map<string, Ruleset>, byMailbox: map<string, Ruleset>)

  datatype Key = Key(mailbox: string, domain: string, egressIP: string, dest: string)

  datatype Scoped = Scoped(key: string, limit: Limit)

  datatype Bucket = Bucket(tokens: real, last: int)

  type Buckets = map<string, Bucket>

  // ---- which buckets apply ----

  function Lookup(rs: Ruleset, dest: string): Option<Limit> {
    if dest in rs then Some(rs[dest])
    else if "*" in rs then Some(rs["*"])
    else None
  }

  function LookupIn(scopes: map<string, Ruleset>, owner: string, dest: string): Option<Limit> {
    if owner in scopes then Lookup(scopes[owner], dest) else None
  }

  function BucketKey(tag: string, owner: string, dest: string): string {
    tag + owner + "|" + dest
  }

  function SenderScope(c: Config, k: Key): seq<Scoped> {
    var dest, mbx, dom := Lower(k.dest), Lower(k.mailbox), Lower(k.domain);
    match LookupIn(c.byMailbox, mbx, dest)
    case Some(l) => [Scoped(BucketKey("mbx:", mbx, dest), l)]
    case None =>
      match LookupIn(c.byDomain, dom, dest)
      case Some(l) => [Scoped(BucketKey("dom:", dom, dest), l)]
      case None =>
        match Lookup(c.global, dest)
        case Some(l) => [Scoped(BucketKey("g", "", dest), l)]
        case None => []
  }

  function IPScope(c: Config, k: Key): seq<Scoped> {
    if k.egressIP == "" then []
    else
      match Lookup(c.perIP, Lower(k.dest))
      case Some(l) => [Scoped(BucketKey("ip:", k.egressIP, Lower(k.dest)), l)]
      case None => []
  }

  /** The most specific sender scope with a rule, plus the egress IP's. */
  function Applicable(c: Config, k: Key): seq<Scoped> {
    SenderScope(c, k) + IPScope(c, k)
  }

  // ---- lazy refill ----

  function Seconds(d: int): real { d as real / 1000000000.0 }

  function Min(a: real, b: real): real { if a < b then a else b }

  /** Tokens the bucket holds at a moment not before its last refill; a bucket
      not yet created is full. */
  function Level(bs: Buckets, key: string, l: Limit, now: int): real {
    if key in bs then LevelOf(bs[key], l, now) else l.Cap()
  }

  function LevelOf(b: Bucket, l: Limit, now: int): real {
    Min(l.Cap(), b.tokens + Flow(l.rate, now - b.last))
  }

  /** Tokens that flow in over d nanoseconds. */
  function Flow(rate: real, d: int): real { Seconds(d) * rate }

  function Refill(bs: Buckets, s: Scoped, now: int): Buckets {
    bs[s.key := Bucket(Level(bs, s.key, s.limit, now), now)]
  }

  function RefillAll(bs: Buckets, ss: seq<Scoped>, now: int): Buckets
    decreases |ss|
  {
    if ss == [] then bs else RefillAll(Refill(bs, ss[0], now), ss[1..], now)
  }

  function Charge(bs: Buckets, s: Scoped): Buckets
    requires s.key in bs
  {
    bs[s.key := bs[s.key].(tokens := bs[s.key].tokens - 1.0)]
  }

  function ChargeAll(bs: Buckets, ss: seq<Scoped>): Buckets
    requires forall s :: s in ss ==> s.key in bs
    decreases |ss|
  {
    if ss == [] then bs else ChargeAll(Charge(bs, ss[0]), ss[1..])
  }

  // ---- reservation ----

  const MILLISECOND: int := 1_000_000

  /** The truncated wait until one bucket holds a token, at least 1 ms. */
  function WaitFor(tokens: real, l: Limit): int
    requires l.rate > 0.0
  {
    var w := ((1.0 - tokens) / l.rate * 1000000000.0).Floor;
    if w < MILLISECOND then MILLISECOND else w
  }

  predicate Rates(ss: seq<Scoped>) { forall s :: s in ss ==> s.limit.rate > 0.0 }

  predicate AllReady(bs: Buckets, ss: seq<Scoped>, now: int) {
    forall s :: s in ss ==> Level(bs, s.key, s.limit, now) >= 1.0
  }

  /** The longest of the waits. */
  function MaxWait(bs: Buckets, ss: seq<Scoped>, now: int): int
    requires Rates(ss)
  {
    if ss == [] then 0
    else
      var last := ss[|ss| - 1];
      var w := MaxWait(bs, ss[..|ss| - 1], now);
      var level := Level(bs, last.key, last.limit, now);
      if level < 1.0 && WaitFor(level, last.limit) > w then WaitFor(level, last.limit) else w
  }

  ghost predicate DistinctKeys(ss: seq<Scoped>) {
    forall i, j :: 0 <= i < j < |ss| ==> ss[i].key != ss[j].key
  }

  /** The bucket map after a reservation at now. */
  function Reserved(bs: Buckets, ss: seq<Scoped>, now: int): Buckets {
    var r := RefillAll(bs, ss, now);
    if AllReady(bs, ss, now) && (forall s :: s in ss ==> s.key in r) then ChargeAll(r, ss) else r
  }

  // ---- keys ----

  lemma KeyHead(tag: string, owner: string, dest: string)
    requires tag != ""
    ensures BucketKey(tag, owner, dest) != "" && BucketKey(tag, owner, dest)[0] == tag[0]
  {
  }

  /** A delivery never meets the same bucket twice. */
  lemma ScopesAreDistinct(c: Config, k: Key)
    ensures DistinctKeys(Applicable(c, k))
    ensures |SenderScope(c, k)| <= 1 && |IPScope(c, k)| <= 1
  {
    var dest := Lower(k.dest);
    KeyHead("mbx:", Lower(k.mailbox), dest);
    KeyHead("dom:", Lower(k.domain), dest);
    KeyHead("g", "", dest);
    KeyHead("ip:", k.egressIP, dest);
  }

  lemma KeyParts(tag: string, o1: string, d1: string, o2: string, d2: string)
    requires '|' !in d1 && '|' !in d2
    requires BucketKey(tag, o1, d1) == BucketKey(tag, o2, d2)
    ensures o1 == o2 && d1 == d2
  {
    var k1, k2 := BucketKey(tag, o1, d1), BucketKey(tag, o2, d2);
    var p1, p2 := |tag| + |o1|, |tag| + |o2|;
    assert k1[p1] == '|' && k2[p2] == '|';
    assert forall j :: p1 < j < |k1| ==> k1[j] == d1[j - p1 - 1];
    assert forall j :: p2 < j < |k2| ==> k2[j] == d2[j - p2 - 1];
    LastIndexOfAt(k1, '|', p1);
    LastIndexOfAt(k2, '|', p2);
    assert k1[|tag|..p1] == o1 && k2[|tag|..p2] == o2;
    assert k1[p1 + 1..] == d1 && k2[p2 + 1..] == d2;
  }

  /** The scope a bucket key of a delivery came from. */
  datatype Origin = Origin(tag: string, owner: string, dest: string)

  function LimitOf(c: Config, o: Origin): Option<Limit> {
    if o.tag == "mbx:" then LookupIn(c.byMailbox, o.owner, o.dest)
    else if o.tag == "dom:" then LookupIn(c.byDomain, o.owner, o.dest)
    else if o.tag == "g" then Lookup(c.global, o.dest)
    else Lookup(c.perIP, o.dest)
  }

  ghost predicate ComesFrom(c: Config, k: Key, s: Scoped, o: Origin) {
    && o.tag in {"mbx:", "dom:", "g", "ip:"}
    && o.dest == Lower(k.dest)
    && (o.tag == "g" ==> o.owner == "")
    && s.key == BucketKey(o.tag, o.owner, o.dest)
    && LimitOf(c, o) == Some(s.limit)
  }

  lemma OriginOf(c: Config, k: Key, s: Scoped) returns (o: Origin)
    requires s in Applicable(c, k)
    ensures ComesFrom(c, k, s, o)
  {
    var dest, mbx, dom := Lower(k.dest), Lower(k.mailbox), Lower(k.domain);
    if s in SenderScope(c, k) {
      if LookupIn(c.byMailbox, mbx, dest).Some? { o := Origin("mbx:", mbx, dest); }
      else if LookupIn(c.byDomain, dom, dest).Some? { o := Origin("dom:", dom, dest); }
      else { o := Origin("g", "", dest); }
    } else {
      o := Origin("ip:", k.egressIP, dest);
    }
  }

  /** A bucket is used under one limit only, as long as no destination holds
      the separator. */
  lemma KeyDeterminesLimit(c: Config, k1: Key, s1: Scoped, k2: Key, s2: Scoped)
    requires s1 in Applicable(c, k1) && s2 in Applicable(c, k2) && s1.key == s2.key
    requires '|' !in k1.dest && '|' !in k2.dest
    ensures s1.limit == s2.limit
  {
    var o1 := OriginOf(c, k1, s1);
    var o2 := OriginOf(c, k2, s2);
    KeyHead(o1.tag, o1.owner, o1.dest);
    KeyHead(o2.tag, o2.owner, o2.dest);
    assert o1.tag == o2.tag;
    NoBar(k1.dest);
    NoBar(k2.dest);
    KeyParts(o1.tag, o1.owner, o1.dest, o2.owner, o2.dest);
  }

  lemma NoBar(s: string)
    requires '|' !in s
    ensures '|' !in Lower(s)
  {
  }

  /** With the separator inside a destination two senders can share a bucket
      under different limits. */
  lemma BarCollides()
    ensures var l1, l2 := Limit(1.0, 1.0), Limit(2.0, 5.0);
      var c := Config(map[], map[], map[], map["a" := map["b|c" := l1], "a|b" := map["c" := l2]]);
      var k1, k2 := Key("a", "", "", "b|c"), Key("a|b", "", "", "c");
      Scoped("mbx:a|b|c", l1) in Applicable(c, k1) && Scoped("mbx:a|b|c", l2) in Applicable(c, k2) && l1 != l2
  {
    var l1, l2 := Limit(1.0, 1.0), Limit(2.0, 5.0);
    var c := Config(map[], map[], map[], map["a" := map["b|c" := l1], "a|b" := map["c" := l2]]);
    assert Lower("a") == "a" && Lower("b|c") == "b|c" && Lower("a|b") == "a|b" && Lower("c") == "c" && Lower("") == "";
    assert BucketKey("mbx:", "a", "b|c") == "mbx:a|b|c" == BucketKey("mbx:", "a|b", "c");
    assert SenderScope(c, Key("a", "", "", "b|c")) == [Scoped("mbx:a|b|c", l1)];
    assert SenderScope(c, Key("a|b", "", "", "c")) == [Scoped("mbx:a|b|c", l2)];
  }

  /** Whatever the configuration, deliveries to this destination share no
      bucket under another limit with deliveries to one without separator. */
  ghost predicate SafeDestination(d: string) {
    forall c: Config, k1: Key, s1: Scoped, k2: Key, s2: Scoped ::
      k1.dest == d && '|' !in k2.dest && s1 in Applicable(c, k1) && s2 in Applicable(c, k2) && s1.key == s2.key ==> s1.limit == s2.limit
  }

  /** Cut at the last separator, the front of the destination can pass for the
      end of a mailbox name. */
  lemma BarShares(d: string) returns (c: Config, k1: Key, s1: Scoped, k2: Key, s2: Scoped)
    requires '|' in d
    ensures k1.dest == d && '|' !in k2.dest && s1 in Applicable(c, k1) && s2 in Applicable(c, k2)
    ensures s1.key == s2.key && s1.limit != s2.limit
  {
    var low := Lower(d);
    KeepsBar(d);
    var i := LastIndexOf(low, '|');
    var x, y := low[..i], low[i + 1..];
    assert low == x + "|" + y;
    var l1, l2 := Limit(1.0, 1.0), Limit(2.0, 5.0);
    var owner := "a|" + x;
    c := Config(map[], map[], map[], map["a" := map[low := l1], owner := map[y := l2]]);
    k1, k2 := Key("a", "", "", d), Key(owner, "", "", y);
    LowerIdempotent(d);
    LowerOfPart(low, i);
    assert Lower("a") == "a" && Lower(owner) == owner;
    assert owner != "a" by { assert |owner| >= 2; }
    assert BucketKey("mbx:", "a", low) == BucketKey("mbx:", owner, y);
    s1, s2 := Scoped(BucketKey("mbx:", "a", low), l1), Scoped(BucketKey("mbx:", owner, y), l2);
    assert SenderScope(c, k1) == [s1] && SenderScope(c, k2) == [s2];
  }

  lemma KeepsBar(d: string)
    requires '|' in d
    ensures '|' in Lower(d)
  {
    var i :| 0 <= i < |d| && d[i] == '|';
    assert Lower(d)[i] == '|';
  }

  lemma LowerOfPart(s: string, i: nat)
    requires i < |s| && Lower(s) == s
    ensures Lower(s[..i]) == s[..i] && Lower(s[i + 1..]) == s[i + 1..] && Lower("a|" + s[..i]) == "a|" + s[..i]
  {
    assert forall k :: 0 <= k < |s| ==> LowerChar(s[k]) == s[k];
  }

  /** A destination is safe exactly when it does not hold the separator. */
  lemma BarExactly(d: string)
    ensures SafeDestination(d) <==> '|' !in d
  {
    if '|' in d {
      var c, k1, s1, k2, s2 := BarShares(d);
    } else {
      forall c: Config, k1: Key, s1: Scoped, k2: Key, s2: Scoped |
        k1.dest == d && '|' !in k2.dest && s1 in Applicable(c, k1) && s2 in Applicable(c, k2) && s1.key == s2.key
        ensures s1.limit == s2.limit
      {
        KeyDeterminesLimit(c, k1, s1, k2, s2);
      }
    }
  }

  // ---- refilling is not observable ----

  ghost predicate NotAfter(bs: Buckets, now: int) {
    forall key :: key in bs ==> bs[key].last <= now
  }

  lemma Gain(rate: real, a: int, b: int, c: int)
    requires rate > 0.0 && a <= b <= c
    ensures Flow(rate, b - a) >= 0.0
    ensures Flow(rate, c - a) == Flow(rate, b - a) + Flow(rate, c - b)
    ensures Flow(rate, 0) == 0.0
  {
    assert Seconds(c - a) == Seconds(b - a) + Seconds(c - b);
  }

  /** A bucket brought up to now shows the same level at every later moment. */
  lemma RefilledLevel(b: Bucket, l: Limit, now: int, t: int)
    requires l.rate > 0.0 && b.last <= now <= t
    ensures LevelOf(Bucket(LevelOf(b, l, now), now), l, t) == LevelOf(b, l, t)
  {
    Gain(l.rate, b.last, now, t);
    Gain(l.rate, now, t, t);
  }

  lemma FullLevel(l: Limit, now: int, t: int)
    requires l.rate > 0.0 && now <= t
    ensures LevelOf(Bucket(l.Cap(), now), l, t) == l.Cap()
  {
    Gain(l.rate, now, t, t);
  }

  lemma RefillKeepsLevel(bs: Buckets, key: string, l: Limit, now: int, t: int)
    requires l.rate > 0.0 && NotAfter(bs, now) && now <= t
    ensures LevelOf(Bucket(Level(bs, key, l, now), now), l, t) == Level(bs, key, l, t)
  {
    if key in bs { RefilledLevel(bs[key], l, now, t); } else { FullLevel(l, now, t); }
  }

  lemma LevelNow(tokens: real, l: Limit, now: int)
    requires l.rate > 0.0 && tokens <= l.Cap()
    ensures LevelOf(Bucket(tokens, now), l, now) == tokens
  {
    Gain(l.rate, now, now, now);
  }

  lemma LevelReaches(tokens: real, l: Limit, now: int, d: nat)
    ensures LevelOf(Bucket(tokens, now), l, now + d) >= 1.0 <==> tokens + Flow(l.rate, d) >= 1.0
  {
    assert now + d - now == d;
  }

  lemma LevelAtMost(bs: Buckets, key: string, l: Limit, now: int)
    ensures Level(bs, key, l, now) <= l.Cap()
  {
  }

  predicate Mentions(ss: seq<Scoped>, key: string) {
    exists i :: 0 <= i < |ss| && ss[i].key == key
  }

  ghost predicate Same(bs: Buckets, r: Buckets, key: string) {
    (key in r <==> key in bs) && (key in bs ==> r[key] == bs[key])
  }

  /** r is bs with every bucket of ss brought up to now less a charge. */
  ghost predicate Settled(bs: Buckets, ss: seq<Scoped>, now: int, charge: real, r: Buckets) {
    && (forall i :: 0 <= i < |ss| ==>
          ss[i].key in r && r[ss[i].key] == Bucket(Level(bs, ss[i].key, ss[i].limit, now) - charge, now))
    && (forall key :: !Mentions(ss, key) ==> Same(bs, r, key))
  }

  lemma TailKeys(ss: seq<Scoped>)
    requires ss != [] && DistinctKeys(ss)
    ensures DistinctKeys(ss[1..]) && !Mentions(ss[1..], ss[0].key)
    ensures forall key :: Mentions(ss, key) <==> key == ss[0].key || Mentions(ss[1..], key)
  {
    forall key ensures Mentions(ss, key) <==> key == ss[0].key || Mentions(ss[1..], key) {
      if Mentions(ss, key) && key != ss[0].key {
        var i :| 0 <= i < |ss| && ss[i].key == key;
        assert ss[1..][i - 1].key == key;
      }
      if Mentions(ss[1..], key) {
        var i :| 0 <= i < |ss[1..]| && ss[1..][i].key == key;
        assert ss[i + 1].key == key;
      }
      assert ss[0].key == key ==> Mentions(ss, key);
    }
  }

  lemma {:induction false} RefillAllSettles(bs: Buckets, ss: seq<Scoped>, now: int)
    requires DistinctKeys(ss)
    ensures Settled(bs, ss, now, 0.0, RefillAll(bs, ss, now))
    decreases |ss|
  {
    if ss != [] {
      var bs1, r := Refill(bs, ss[0], now), RefillAll(bs, ss, now);
      TailKeys(ss);
      RefillAllSettles(bs1, ss[1..], now);
      assert Same(bs1, r, ss[0].key);
      forall i | 0 <= i < |ss|
        ensures ss[i].key in r && r[ss[i].key] == Bucket(Level(bs, ss[i].key, ss[i].limit, now) - 0.0, now)
      {
        if i > 0 {
          assert ss[1..][i - 1] == ss[i];
          assert Mentions(ss[1..], ss[i].key);
        }
      }
    }
  }

  ghost predicate Charged(bs: Buckets, ss: seq<Scoped>, r: Buckets) {
    && (forall i :: 0 <= i < |ss| ==>
          ss[i].key in bs && ss[i].key in r && r[ss[i].key] == bs[ss[i].key].(tokens := bs[ss[i].key].tokens - 1.0))
    && (forall key :: !Mentions(ss, key) ==> Same(bs, r, key))
  }

  lemma {:induction false} ChargeAllCharges(bs: Buckets, ss: seq<Scoped>)
    requires DistinctKeys(ss) && forall s :: s in ss ==> s.key in bs
    ensures Charged(bs, ss, ChargeAll(bs, ss))
    decreases |ss|
  {
    if ss != [] {
      assert ss[0] in ss;
      var bs1, r := Charge(bs, ss[0]), ChargeAll(bs, ss);
      TailKeys(ss);
      ChargeAllCharges(bs1, ss[1..]);
      assert Same(bs1, r, ss[0].key);
      forall i | 0 <= i < |ss|
        ensures ss[i].key in bs && ss[i].key in r && r[ss[i].key] == bs[ss[i].key].(tokens := bs[ss[i].key].tokens - 1.0)
      {
        if i > 0 {
          assert ss[1..][i - 1] == ss[i];
          assert Mentions(ss[1..], ss[i].key);
        }
      }
    }
  }

  function Cost(bs: Buckets, ss: seq<Scoped>, now: int): real {
    if AllReady(bs, ss, now) then 1.0 else 0.0
  }

  /** Every bucket of the map after a reservation: one token from each that
      applies when all are ready, otherwise none from any. */
  lemma ReservedSettles(bs: Buckets, ss: seq<Scoped>, now: int)
    requires DistinctKeys(ss)
    ensures Settled(bs, ss, now, Cost(bs, ss, now), Reserved(bs, ss, now))
  {
    var r := RefillAll(bs, ss, now);
    RefillAllSettles(bs, ss, now);
    forall s | s in ss ensures s.key in r {
      var i :| 0 <= i < |ss| && ss[i] == s;
    }
    if AllReady(bs, ss, now) {
      ChargeAllCharges(r, ss);
    }
  }

  lemma SettledNotAfter(bs: Buckets, ss: seq<Scoped>, now: int, charge: real, r: Buckets)
    requires NotAfter(bs, now) && Settled(bs, ss, now, charge, r)
    ensures NotAfter(r, now)
  {
    forall key | key in r ensures r[key].last <= now {
      if Mentions(ss, key) {
        var i :| 0 <= i < |ss| && ss[i].key == key;
      } else {
        assert Same(bs, r, key);
      }
    }
  }

  // ---- all or nothing ----

  /** A refused reservation leaves every level as it was, now and at every later
      moment; a granted one takes exactly one token from each bucket that
      applies and none from any other. */
  lemma AllOrNothing(bs: Buckets, ss: seq<Scoped>, now: int, t: int, key: string, l: Limit)
    requires DistinctKeys(ss) && Rates(ss) && NotAfter(bs, now) && now <= t && l.rate > 0.0
    requires forall s :: s in ss && s.key == key ==> s.limit == l
    ensures !AllReady(bs, ss, now) || !Mentions(ss, key) ==>
      Level(Reserved(bs, ss, now), key, l, t) == Level(bs, key, l, t)
    ensures AllReady(bs, ss, now) && Mentions(ss, key) ==>
      Level(Reserved(bs, ss, now), key, l, now) == Level(bs, key, l, now) - 1.0
  {
    var r := Reserved(bs, ss, now);
    ReservedSettles(bs, ss, now);
    if Mentions(ss, key) {
      var i :| 0 <= i < |ss| && ss[i].key == key;
      assert ss[i] in ss;
      assert r[key] == Bucket(Level(bs, key, l, now) - Cost(bs, ss, now), now);
      RefillKeepsLevel(bs, key, l, now, t);
      LevelAtMost(bs, key, l, now);
      LevelNow(Level(bs, key, l, now) - 1.0, l, now);
    } else {
      assert Same(bs, r, key);
    }
  }

  ghost predicate Bounded(bs: Buckets) {
    forall key :: key in bs ==> bs[key].tokens >= 0.0
  }

  lemma LevelBounds(bs: Buckets, key: string, l: Limit, now: int)
    requires Bounded(bs) && NotAfter(bs, now) && l.rate > 0.0
    ensures 0.0 <= Level(bs, key, l, now) <= l.Cap()
  {
    if key in bs { Gain(l.rate, bs[key].last, now, now); }
  }

  /** Tokens never go below zero or above the burst. */
  lemma ReservedBounded(bs: Buckets, ss: seq<Scoped>, now: int)
    requires DistinctKeys(ss) && Rates(ss) && NotAfter(bs, now) && Bounded(bs)
    ensures Bounded(Reserved(bs, ss, now)) && NotAfter(Reserved(bs, ss, now), now)
    ensures forall i :: 0 <= i < |ss| ==>
      ss[i].key in Reserved(bs, ss, now) && Reserved(bs, ss, now)[ss[i].key].tokens <= ss[i].limit.Cap()
  {
    var r := Reserved(bs, ss, now);
    ReservedSettles(bs, ss, now);
    SettledNotAfter(bs, ss, now, Cost(bs, ss, now), r);
    forall i | 0 <= i < |ss| ensures 0.0 <= r[ss[i].key].tokens <= ss[i].limit.Cap() {
      assert ss[i] in ss;
      LevelBounds(bs, ss[i].key, ss[i].limit, now);
    }
    forall key | key in r ensures r[key].tokens >= 0.0 {
      if Mentions(ss, key) {
        var i :| 0 <= i < |ss| && ss[i].key == key;
      } else {
        assert Same(bs, r, key);
      }
    }
  }

  // ---- the rate bound ----

  /** One delivery asking for its tokens at a moment. */
  datatype Request = Request(ss: seq<Scoped>, at: int)

  ghost predicate Orderly(rs: seq<Request>, from: int, key: string, l: Limit) {
    && (forall i :: 0 <= i < |rs| ==> from <= rs[i].at && DistinctKeys(rs[i].ss) && Rates(rs[i].ss))
    && (forall i, j :: 0 <= i < j < |rs| ==> rs[i].at <= rs[j].at)
    && (forall i :: 0 <= i < |rs| ==> forall s :: s in rs[i].ss && s.key == key ==> s.limit == l)
  }

  /** How many requests of the bucket were granted. */
  function Granted(bs: Buckets, rs: seq<Request>, key: string): nat
    decreases |rs|
  {
    if rs == [] then 0
    else
      (if Mentions(rs[0].ss, key) && AllReady(bs, rs[0].ss, rs[0].at) then 1 else 0)
      + Granted(Reserved(bs, rs[0].ss, rs[0].at), rs[1..], key)
  }

  lemma LevelGrows(bs: Buckets, key: string, l: Limit, now: int, t: int)
    requires NotAfter(bs, now) && now <= t && l.rate > 0.0
    ensures Level(bs, key, l, t) <= Level(bs, key, l, now) + Flow(l.rate, t - now)
  {
    if key in bs { Gain(l.rate, bs[key].last, now, t); }
    Gain(l.rate, now, t, t);
  }

  lemma {:induction false} GrantedBound(bs: Buckets, rs: seq<Request>, from: int, until: int, key: string, l: Limit)
    requires l.rate > 0.0 && NotAfter(bs, from) && Bounded(bs) && Orderly(rs, from, key, l)
    requires from <= until && forall i :: 0 <= i < |rs| ==> rs[i].at <= until
    ensures Granted(bs, rs, key) as real <= Level(bs, key, l, from) + Flow(l.rate, until - from)
    decreases |rs|
  {
    if rs == [] {
      LevelBounds(bs, key, l, from);
      Gain(l.rate, from, until, until);
    } else {
      var t := rs[0].at;
      var r := Reserved(bs, rs[0].ss, t);
      GrantStep(bs, rs[0], from, key, l);
      TailOrderly(rs, from, key, l);
      GrantedBound(r, rs[1..], t, until, key, l);
      Gain(l.rate, from, t, until);
    }
  }

  lemma TailOrderly(rs: seq<Request>, from: int, key: string, l: Limit)
    requires rs != [] && Orderly(rs, from, key, l)
    ensures Orderly(rs[1..], rs[0].at, key, l)
  {
    assert forall i :: 0 <= i < |rs[1..]| ==> rs[1..][i] == rs[i + 1];
  }

  /** One request: what is granted is paid for by the level and the flow. */
  lemma GrantStep(bs: Buckets, q: Request, from: int, key: string, l: Limit)
    requires l.rate > 0.0 && NotAfter(bs, from) && Bounded(bs) && from <= q.at
    requires DistinctKeys(q.ss) && Rates(q.ss) && forall s :: s in q.ss && s.key == key ==> s.limit == l
    ensures var r := Reserved(bs, q.ss, q.at);
      && NotAfter(r, q.at) && Bounded(r)
      && Level(r, key, l, q.at) + (if Mentions(q.ss, key) && AllReady(bs, q.ss, q.at) then 1.0 else 0.0)
         <= Level(bs, key, l, from) + Flow(l.rate, q.at - from)
  {
    assert NotAfter(bs, q.at);
    ReservedBounded(bs, q.ss, q.at);
    LevelGrows(bs, key, l, from, q.at);
    AllOrNothing(bs, q.ss, q.at, q.at, key, l);
  }

  /** Over any interval of length T a bucket admits at most burst + rate * T. */
  lemma RateBound(bs: Buckets, rs: seq<Request>, from: int, until: int, key: string, l: Limit)
    requires l.rate > 0.0 && NotAfter(bs, from) && Bounded(bs) && Orderly(rs, from, key, l)
    requires from <= until && forall i :: 0 <= i < |rs| ==> rs[i].at <= until
    ensures Granted(bs, rs, key) as real <= l.Cap() + Flow(l.rate, until - from)
  {
    GrantedBound(bs, rs, from, until, key, l);
    LevelBounds(bs, key, l, from);
  }

  /** The requests that deliveries make under one configuration. */
  function Requests(c: Config, ks: seq<Key>, times: seq<int>): (rs: seq<Request>)
    requires |ks| == |times|
    ensures |rs| == |ks| && forall i :: 0 <= i < |ks| ==> rs[i] == Request(Applicable(c, ks[i]), times[i])
  {
    seq(|ks|, i requires 0 <= i < |ks| && |ks| == |times| => Request(Applicable(c, ks[i]), times[i]))
  }

  lemma OneLimit(c: Config, ks: seq<Key>, n: nat, s: Scoped)
    requires n < |ks| && s in Applicable(c, ks[n]) && forall i :: 0 <= i < |ks| ==> '|' !in ks[i].dest
    ensures forall i :: 0 <= i < |ks| ==> forall x :: x in Applicable(c, ks[i]) && x.key == s.key ==> x.limit == s.limit
  {
    forall i, x | 0 <= i < |ks| && x in Applicable(c, ks[i]) && x.key == s.key ensures x.limit == s.limit {
      KeyDeterminesLimit(c, ks[i], x, ks[n], s);
    }
  }

  /** Under any configuration, deliveries to destinations without separator:
      every bucket that one of them meets admits at most its burst plus its
      rate times T over an interval of length T. */
  lemma ConfiguredRateBound(c: Config, bs: Buckets, ks: seq<Key>, times: seq<int>, from: int, until: int, n: nat, s: Scoped)
    requires |ks| == |times| && n < |ks| && s in Applicable(c, ks[n])
    requires forall i :: 0 <= i < |ks| ==> '|' !in ks[i].dest && Rates(Applicable(c, ks[i])) && from <= times[i] <= until
    requires forall i, j :: 0 <= i < j < |ks| ==> times[i] <= times[j]
    requires NotAfter(bs, from) && Bounded(bs)
    ensures Granted(bs, Requests(c, ks, times), s.key) as real <= s.limit.Cap() + Flow(s.limit.rate, until - from)
  {
    var rs := Requests(c, ks, times);
    OneLimit(c, ks, n, s);
    forall i | 0 <= i < |rs| ensures DistinctKeys(rs[i].ss) { ScopesAreDistinct(c, ks[i]); }
    assert Orderly(rs, from, s.key, s.limit);
    RateBound(bs, rs, from, until, s.key, s.limit);
  }

  // ---- retrying ----

  /** After a refusal with no other consumer, a retry d later is granted exactly
      when the missing tokens have flowed in everywhere. */
  lemma RetryExactly(bs: Buckets, ss: seq<Scoped>, now: int, d: nat)
    requires DistinctKeys(ss) && Rates(ss) && NotAfter(bs, now) && !AllReady(bs, ss, now)
    ensures AllReady(Reserved(bs, ss, now), ss, now + d)
       <==> forall s :: s in ss ==> Level(bs, s.key, s.limit, now) + Flow(s.limit.rate, d) >= 1.0
  {
    var r := Reserved(bs, ss, now);
    ReservedSettles(bs, ss, now);
    forall s | s in ss
      ensures Level(r, s.key, s.limit, now + d) >= 1.0 <==> Level(bs, s.key, s.limit, now) + Flow(s.limit.rate, d) >= 1.0
    {
      var i :| 0 <= i < |ss| && ss[i] == s;
      assert r[s.key] == Bucket(Level(bs, s.key, s.limit, now), now);
      LevelReaches(Level(bs, s.key, s.limit, now), s.limit, now, d);
    }
  }

  lemma WaitSuffices(tokens: real, l: Limit, d: int)
    requires l.rate > 0.0 && tokens < 1.0 && d > WaitFor(tokens, l)
    ensures tokens + Flow(l.rate, d) >= 1.0
  {
    var x := (1.0 - tokens) / l.rate * 1000000000.0;
    assert d as real >= x;
    var y := (1.0 - tokens) / l.rate;
    assert Seconds(d) >= y;
    assert y * l.rate == 1.0 - tokens;
    MulMono(y, Seconds(d), l.rate);
  }

  lemma MulMono(a: real, b: real, c: real)
    requires a <= b && c > 0.0
    ensures a * c <= b * c
  {
  }

  lemma {:induction false} MaxWaitCovers(bs: Buckets, ss: seq<Scoped>, now: int)
    requires Rates(ss)
    ensures MaxWait(bs, ss, now) >= 0
    ensures !AllReady(bs, ss, now) ==> MaxWait(bs, ss, now) >= MILLISECOND
    ensures forall i :: 0 <= i < |ss| && Level(bs, ss[i].key, ss[i].limit, now) < 1.0 ==>
      ss[i].limit.rate > 0.0 && WaitFor(Level(bs, ss[i].key, ss[i].limit, now), ss[i].limit) <= MaxWait(bs, ss, now)
    decreases |ss|
  {
    if ss != [] {
      var n := |ss| - 1;
      MaxWaitCovers(bs, ss[..n], now);
      assert ss[n] in ss;
      forall i | 0 <= i < n ensures ss[i] in ss { }
      assert forall i :: 0 <= i < n ==> ss[..n][i] == ss[i];
    }
  }

  /** Waiting any longer than the reported time, alone, is always enough; the
      truncation costs at most a nanosecond. */
  lemma RetrySucceeds(bs: Buckets, ss: seq<Scoped>, now: int, d: nat)
    requires DistinctKeys(ss) && Rates(ss) && NotAfter(bs, now) && Bounded(bs) && !AllReady(bs, ss, now)
    requires d > MaxWait(bs, ss, now)
    ensures AllReady(Reserved(bs, ss, now), ss, now + d)
  {
    MaxWaitCovers(bs, ss, now);
    forall s | s in ss ensures Level(bs, s.key, s.limit, now) + Flow(s.limit.rate, d) >= 1.0 {
      var i :| 0 <= i < |ss| && ss[i] == s;
      var tokens := Level(bs, s.key, s.limit, now);
      if tokens < 1.0 {
        WaitSuffices(tokens, s.limit, d);
      } else {
        Gain(s.limit.rate, 0, d, d);
      }
    }
    RetryExactly(bs, ss, now, d);
  }

  /** Waiting exactly the truncated time can still be too short. */
  lemma TruncationBites()
    ensures var l := Limit(3.0, 1.0);
      var bs: Buckets := map["k" := Bucket(0.0, 0)];
      var ss := [Scoped("k", l)];
      var w := MaxWait(bs, ss, 0);
      w == 333_333_333 && !AllReady(bs, ss, 0) && !AllReady(Reserved(bs, ss, 0), ss, w)
  {
    var l := Limit(3.0, 1.0);
    var bs: Buckets := map["k" := Bucket(0.0, 0)];
    var ss := [Scoped("k", l)];
    assert ss[0] in ss && ss[..0] == [];
    assert Level(bs, "k", l, 0) == 0.0;
    var x := (1.0 - 0.0) / 3.0 * 1000000000.0;
    assert 333_333_333.0 <= x < 333_333_334.0;
    assert WaitFor(0.0, l) == 333_333_333;
    assert MaxWait(bs, [], 0) == 0;
    assert MaxWait(bs, ss, 0) == 333_333_333;
    RetryExactly(bs, ss, 0, 333_333_333);
    assert Flow(3.0, 333_333_333) < 1.0;
  }

  // ---- the imperative form ----

  class Throttle {
    const config: Config
    var buckets: Buckets

    constructor (config: Config)
      ensures this.config == config && buckets == map[]
    {
      this.config, buckets := config, map[];
    }

    /** Reserve, with the clock read once as now. */
    method Reserve(k: Key, now: int) returns (ok: bool, wait: int)
      requires Rates(Applicable(config, k)) && NotAfter(buckets, now)
      modifies this`buckets
      ensures buckets == Reserved(old(buckets), Applicable(config, k), now)
      ensures ok == AllReady(old(buckets), Applicable(config, k), now)
      ensures wait == if ok then 0 else MaxWait(old(buckets), Applicable(config, k), now)
      ensures !ok ==> wait >= MILLISECOND
    {
      var ss := Applicable(config, k);
      ScopesAreDistinct(config, k);
      MaxWaitCovers(buckets, ss, now);
      var blocked;
      blocked, wait := FirstPass(ss, now);
      if blocked { return false, wait; }
      Consume(ss);
      ok := true;
      wait := 0;
    }

    /** Refills every bucket and finds the longest wait of a dry one. */
    method FirstPass(ss: seq<Scoped>, now: int) returns (blocked: bool, wait: int)
      requires Rates(ss) && DistinctKeys(ss)
      modifies this`buckets
      ensures buckets == RefillAll(old(buckets), ss, now)
      ensures blocked == !AllReady(old(buckets), ss, now)
      ensures wait == MaxWait(old(buckets), ss, now)
      ensures forall s :: s in ss ==> s.key in buckets
    {
      blocked, wait := false, 0;
      assert ss[..0] == [] && ss[0..] == ss;
      for i := 0 to |ss|
        invariant RefillAll(buckets, ss[i..], now) == RefillAll(old(buckets), ss, now)
        invariant Settled(old(buckets), ss[..i], now, 0.0, buckets)
        invariant blocked == !AllReady(old(buckets), ss[..i], now)
        invariant wait == MaxWait(old(buckets), ss[..i], now)
      {
        var s := ss[i];
        NotYet(ss, i);
        assert Same(old(buckets), buckets, s.key);
        assert ss[i..][0] == s && ss[i..][1..] == ss[i + 1..];
        assert ss[..i + 1][..i] == ss[..i] && ss[..i + 1] == ss[..i] + [s];
        SettleOne(old(buckets), buckets, ss, i, now);
        buckets := Refill(buckets, s, now);
        assert s in ss;
        var tokens := buckets[s.key].tokens;
        if tokens < 1.0 {
          blocked := true;
          var w := WaitFor(tokens, s.limit);
          if w > wait { wait := w; }
        }
      }
      assert ss[..|ss|] == ss && ss[|ss|..] == [];
      forall s | s in ss ensures s.key in buckets {
        var i :| 0 <= i < |ss| && ss[i] == s;
      }
    }

    method Consume(ss: seq<Scoped>)
      requires forall s :: s in ss ==> s.key in buckets
      modifies this`buckets
      ensures buckets == ChargeAll(old(buckets), ss)
    {
      assert ss[0..] == ss;
      for i := 0 to |ss|
        invariant buckets.Keys == old(buckets).Keys
        invariant forall s :: s in ss[i..] ==> s.key in buckets
        invariant ChargeAll(buckets, ss[i..]) == ChargeAll(old(buckets), ss)
      {
        assert ss[i..][0] == ss[i] && ss[i..][1..] == ss[i + 1..];
        assert ss[i] in ss[i..];
        buckets := Charge(buckets, ss[i]);
      }
      assert ss[|ss|..] == [];
    }
  }

  lemma NotYet(ss: seq<Scoped>, i: nat)
    requires i < |ss| && DistinctKeys(ss)
    ensures !Mentions(ss[..i], ss[i].key)
  {
  }

  lemma SettleOne(bs: Buckets, cur: Buckets, ss: seq<Scoped>, i: nat, now: int)
    requires i < |ss| && DistinctKeys(ss) && Settled(bs, ss[..i], now, 0.0, cur)
    ensures Settled(bs, ss[..i + 1], now, 0.0, Refill(cur, ss[i], now))
  {
    var r := Refill(cur, ss[i], now);
    NotYet(ss, i);
    assert Same(bs, cur, ss[i].key);
    forall key | !Mentions(ss[..i + 1], key) ensures Same(bs, r, key) {
      assert ss[..i + 1][i].key != key;
      forall j | 0 <= j < i ensures ss[..i][j].key != key { assert ss[..i + 1][j].key != key; }
      assert Same(bs, cur, key);
    }
    forall j | 0 <= j < i + 1
      ensures ss[..i + 1][j].key in r && r[ss[j].key] == Bucket(Level(bs, ss[j].key, ss[j].limit, now) - 0.0, now)
    {
      if j < i { assert ss[..i][j] == ss[j]; }
    }
  }
}
