/** The custom rate-limit rules, visited in the order a map gives them. */
module Governor {
  import opened Text
  import opened Seqs
  import opened RateLimit

  datatype Dim = ByIP | BySenderDomain | BySenderMailbox | ByRecipient | ByRecipientDomain
  {
    predicate OfRecipient() { ByRecipient? || ByRecipientDomain? }
  }

  datatype Direction = Inbound | Outbound

  datatype Rule = Rule(dim: Dim, value: string, direction: Option<Direction>, window: int, messages: int, recipients: int)

  datatype Values = Values(ip: string, senderMailbox: string, senderDomain: string, recipient: string, recipientDomain: string)
  {
    function Get(dim: Dim): string {
      match dim
      case ByIP => ip
      case BySenderDomain => senderDomain
      case BySenderMailbox => senderMailbox
      case ByRecipient => recipient
      case ByRecipientDomain => recipientDomain
    }
  }

  datatype Rcpt = Rcpt(addr: string, domain: string)

  // ---- compiling the rules ----

  datatype Keyed = Keyed(generic: Option<Params>, over: map<string, Params>)

  type Compiled = map<Dim, Keyed>

  const HOUR: int := 3600_000_000_000

  function WindowOf(r: Rule): int { if r.window <= 0 then HOUR else r.window }

  predicate Applies(r: Rule, dir: Direction) { r.direction.None? || r.direction.value == dir }

  /** add: the generic limit, or the override of one value. */
  function Install(c: Compiled, r: Rule, count: nat): Compiled {
    var k := if r.dim in c then c[r.dim] else Keyed(None, map[]);
    var p := Params(count, WindowOf(r));
    c[r.dim := if r.value == "" then k.(generic := Some(p)) else k.(over := k.over[r.value := p])]
  }

  /** The message limits of one direction; a later rule replaces an earlier. */
  function Compile(rules: seq<Rule>, dir: Direction): Compiled {
    if rules == [] then map[]
    else
      var c, r := Compile(rules[..|rules| - 1], dir), rules[|rules| - 1];
      if Applies(r, dir) && r.messages > 0 then Install(c, r, r.messages) else c
  }

  // ---- the buckets a message asks ----

  /** One bucket per dimension and value; an override replaces the generic
      limit for its value. */
  datatype BucketId = BucketId(dim: Dim, overridden: bool, value: string)

  datatype Ask = Ask(id: BucketId, p: Params)

  /** keyed.allow: an override, else the generic limit, else unlimited. */
  function Choose(c: Compiled, dim: Dim, value: string): Option<Ask> {
    if value == "" || dim !in c then None
    else if value in c[dim].over then Some(Ask.Ask(BucketId(dim, true, value), c[dim].over[value]))
    else if c[dim].generic.Some? then Some(Ask.Ask(BucketId(dim, false, value), c[dim].generic.value))
    else None
  }

  function RcptValue(dim: Dim, r: Rcpt): string {
    if dim == ByRecipientDomain then r.domain else r.addr
  }

  function RcptValues(dim: Dim, rs: seq<Rcpt>): (vs: seq<string>)
    ensures |vs| == |rs|
    ensures forall i :: 0 <= i < |rs| ==> vs[i] == RcptValue(dim, rs[i])
  {
    seq(|rs|, i requires 0 <= i < |rs| => RcptValue(dim, rs[i]))
  }

  /** The values not seen before, in order. */
  function Unseen(vs: seq<string>, seen: set<string>): seq<string>
    decreases |vs|
  {
    if vs == [] then []
    else if vs[0] in seen then Unseen(vs[1..], seen)
    else [vs[0]] + Unseen(vs[1..], seen + {vs[0]})
  }

  function ValuesOf(dim: Dim, v: Values, rs: seq<Rcpt>): seq<string> {
    if dim.OfRecipient() then Unseen(RcptValues(dim, rs), {}) else [v.Get(dim)]
  }

  function AsksOf(c: Compiled, dim: Dim, vs: seq<string>): seq<Ask> {
    if vs == [] then []
    else
      (match Choose(c, dim, vs[0]) case None => [] case Some(a) => [a]) + AsksOf(c, dim, vs[1..])
  }

  function Asks(c: Compiled, order: seq<Dim>, v: Values, rs: seq<Rcpt>): seq<Ask> {
    if order == [] then []
    else AsksOf(c, order[0], ValuesOf(order[0], v, rs)) + Asks(c, order[1..], v, rs)
  }

  // ---- asking ----

  type State = Buckets<BucketId>

  /** One token from each bucket in turn, stopping at the first refusal. */
  function AskAll(st: State, asks: seq<Ask>, now: int): (bool, State)
    requires forall a :: a in asks ==> a.p.Valid()
    decreases |asks|
  {
    if asks == [] then (true, st)
    else
      var (ok, st') := Allow(asks[0].p, st, asks[0].id, now);
      if ok then AskAll(st', asks[1..], now) else (false, st')
  }

  ghost predicate ValidAsks(asks: seq<Ask>) { forall a :: a in asks ==> a.p.Valid() }

  ghost predicate DistinctIds(asks: seq<Ask>) {
    forall i, j :: 0 <= i < j < |asks| ==> asks[i].id != asks[j].id
  }

  ghost predicate Asked(asks: seq<Ask>, id: BucketId) {
    exists i :: 0 <= i < |asks| && asks[i].id == id
  }

  ghost predicate Ready(st: State, a: Ask, now: int)
    requires a.p.Valid()
  {
    Level(a.p, st, a.id, now) >= 1.0
  }

  ghost predicate AllReady(st: State, asks: seq<Ask>, now: int)
    requires ValidAsks(asks)
  {
    forall a :: a in asks ==> Ready(st, a, now)
  }

  lemma TailIds(asks: seq<Ask>)
    requires asks != [] && DistinctIds(asks)
    ensures DistinctIds(asks[1..]) && !Asked(asks[1..], asks[0].id)
    ensures forall a :: a in asks[1..] ==> a in asks && a.id != asks[0].id
    ensures forall a :: a in asks ==> a == asks[0] || a in asks[1..]
    ensures forall id :: Asked(asks, id) <==> id == asks[0].id || Asked(asks[1..], id)
  {
    forall id ensures Asked(asks, id) <==> id == asks[0].id || Asked(asks[1..], id) {
      if Asked(asks, id) && id != asks[0].id {
        var i :| 0 <= i < |asks| && asks[i].id == id;
        assert asks[1..][i - 1].id == id;
      }
      if Asked(asks[1..], id) {
        var i :| 0 <= i < |asks[1..]| && asks[1..][i].id == id;
        assert asks[i + 1].id == id;
      }
      assert asks[0].id == id ==> Asked(asks, id);
    }
  }

  /** The verdict: allowed exactly when every bucket asked has a token. */
  lemma {:induction false} VerdictExactly(st: State, asks: seq<Ask>, now: int)
    requires ValidAsks(asks) && DistinctIds(asks)
    ensures AskAll(st, asks, now).0 <==> AllReady(st, asks, now)
    decreases |asks|
  {
    if asks != [] {
      TailIds(asks);
      assert asks[0] in asks;
      AllowTouchesOne(st, asks[0], now);
      var st' := Allow(asks[0].p, st, asks[0].id, now).1;
      VerdictExactly(st', asks[1..], now);
      forall a | a in asks[1..] ensures Ready(st', a, now) == Ready(st, a, now) { UntouchedLevel(st, st', a, now); }
    }
  }

  ghost predicate Untouched(st: State, st': State, id: BucketId) {
    (id in st' <==> id in st) && (id in st ==> st'[id] == st[id])
  }

  /** The bucket has been brought up to now and lost n tokens. */
  ghost predicate Lost(st: State, st': State, a: Ask, now: int, n: real)
    requires a.p.Valid()
  {
    a.id in st' && st'[a.id] == Bucket(Level(a.p, st, a.id, now) - n, now)
  }

  lemma AllowTouchesOne(st: State, a: Ask, now: int)
    requires a.p.Valid()
    ensures var (ok, st') := Allow(a.p, st, a.id, now);
      && Lost(st, st', a, now, if ok then 1.0 else 0.0)
      && forall id :: id != a.id ==> Untouched(st, st', id)
  {
  }

  lemma UntouchedLevel(st: State, st': State, a: Ask, now: int)
    requires a.p.Valid() && Untouched(st, st', a.id)
    ensures Level(a.p, st', a.id, now) == Level(a.p, st, a.id, now)
  {
  }

  lemma LostThrough(st: State, s1: State, s2: State, a: Ask, now: int, n: real)
    requires a.p.Valid() && Untouched(st, s1, a.id) && Lost(s1, s2, a, now, n)
    ensures Lost(st, s2, a, now, n)
  {
    UntouchedLevel(st, s1, a, now);
  }

  /** An allowed message takes one token from each bucket asked, none from any
      other. */
  ghost predicate TakesOne(st: State, asks: seq<Ask>, now: int, st': State)
    requires ValidAsks(asks)
  {
    && (forall a :: a in asks ==> Lost(st, st', a, now, 1.0))
    && (forall id :: !Asked(asks, id) ==> Untouched(st, st', id))
  }

  lemma {:induction false} AllowedTakesOne(st: State, asks: seq<Ask>, now: int)
    requires ValidAsks(asks) && DistinctIds(asks) && AskAll(st, asks, now).0
    ensures TakesOne(st, asks, now, AskAll(st, asks, now).1)
    decreases |asks|
  {
    if asks != [] {
      TailIds(asks);
      assert asks[0] in asks;
      AllowTouchesOne(st, asks[0], now);
      var s1 := Allow(asks[0].p, st, asks[0].id, now).1;
      var s2 := AskAll(st, asks, now).1;
      AllowedTakesOne(s1, asks[1..], now);
      assert Untouched(s1, s2, asks[0].id);
      forall a | a in asks[1..] ensures Lost(st, s2, a, now, 1.0) {
        LostThrough(st, s1, s2, a, now, 1.0);
      }
    }
  }

  /** A refused message may have taken a token from some of the buckets, never
      two from one. */
  ghost predicate AtMostOne(st: State, st': State, a: Ask, now: int)
    requires a.p.Valid()
  {
    Untouched(st, st', a.id) || Lost(st, st', a, now, 0.0) || Lost(st, st', a, now, 1.0)
  }

  lemma AtMostOneThrough(st: State, s1: State, s2: State, a: Ask, now: int)
    requires a.p.Valid() && Untouched(st, s1, a.id) && AtMostOne(s1, s2, a, now)
    ensures AtMostOne(st, s2, a, now)
  {
    if Lost(s1, s2, a, now, 0.0) { LostThrough(st, s1, s2, a, now, 0.0); }
    else if Lost(s1, s2, a, now, 1.0) { LostThrough(st, s1, s2, a, now, 1.0); }
  }

  /** Allowed or not, no bucket loses more than one token, and a bucket not
      asked is untouched. */
  lemma {:induction false} AtMostOneEach(st: State, asks: seq<Ask>, now: int)
    requires ValidAsks(asks) && DistinctIds(asks)
    ensures forall a :: a in asks ==> AtMostOne(st, AskAll(st, asks, now).1, a, now)
    ensures forall id :: !Asked(asks, id) ==> Untouched(st, AskAll(st, asks, now).1, id)
    decreases |asks|
  {
    if asks != [] {
      TailIds(asks);
      assert asks[0] in asks;
      AllowTouchesOne(st, asks[0], now);
      var s1 := Allow(asks[0].p, st, asks[0].id, now).1;
      if Allow(asks[0].p, st, asks[0].id, now).0 {
        var s2 := AskAll(st, asks, now).1;
        AtMostOneEach(s1, asks[1..], now);
        assert Untouched(s1, s2, asks[0].id);
        forall a | a in asks[1..] ensures AtMostOne(st, s2, a, now) { AtMostOneThrough(st, s1, s2, a, now); }
      }
    }
  }

  // ---- which buckets, whatever the order ----

  lemma {:induction false} UnseenMembers(vs: seq<string>, seen: set<string>)
    ensures forall x :: x in Unseen(vs, seen) <==> x in vs && x !in seen
    ensures Distinct(Unseen(vs, seen))
    decreases |vs|
  {
    if vs != [] {
      assert vs == [vs[0]] + vs[1..];
      if vs[0] in seen { UnseenMembers(vs[1..], seen); }
      else {
        var rest := Unseen(vs[1..], seen + {vs[0]});
        UnseenMembers(vs[1..], seen + {vs[0]});
        assert forall i :: 0 <= i < |rest| ==> rest[i] in rest;
      }
    }
  }

  lemma ValuesDistinct(dim: Dim, v: Values, rs: seq<Rcpt>)
    ensures Distinct(ValuesOf(dim, v, rs))
  {
    UnseenMembers(RcptValues(dim, rs), {});
  }

  lemma {:induction false} AsksOfMembers(c: Compiled, dim: Dim, vs: seq<string>)
    ensures forall a :: a in AsksOf(c, dim, vs) <==> exists x :: x in vs && Choose(c, dim, x) == Some(a)
    decreases |vs|
  {
    if vs != [] {
      AsksOfMembers(c, dim, vs[1..]);
      assert vs == [vs[0]] + vs[1..];
      forall a ensures a in AsksOf(c, dim, vs) <==> exists x :: x in vs && Choose(c, dim, x) == Some(a) {
        if x :| x in vs && Choose(c, dim, x) == Some(a) {
          if x != vs[0] { assert x in vs[1..]; }
        }
      }
    }
  }

  lemma {:induction false} AsksOfDistinct(c: Compiled, dim: Dim, vs: seq<string>)
    requires Distinct(vs)
    ensures DistinctIds(AsksOf(c, dim, vs))
    ensures forall a :: a in AsksOf(c, dim, vs) ==> a.id.dim == dim && a.id.value in vs
    decreases |vs|
  {
    if vs != [] {
      AsksOfDistinct(c, dim, vs[1..]);
      var rest := AsksOf(c, dim, vs[1..]);
      assert vs[0] !in vs[1..];
      assert forall i :: 0 <= i < |rest| ==> rest[i] in rest;
    }
  }

  ghost predicate NeededFor(c: Compiled, dim: Dim, v: Values, rs: seq<Rcpt>, a: Ask) {
    exists x :: x in ValuesOf(dim, v, rs) && Choose(c, dim, x) == Some(a)
  }

  lemma {:induction false} AsksMembers(c: Compiled, order: seq<Dim>, v: Values, rs: seq<Rcpt>)
    ensures forall a: Ask :: a in Asks(c, order, v, rs) <==> a.id.dim in order && NeededFor(c, a.id.dim, v, rs, a)
    decreases |order|
  {
    if order != [] {
      AsksMembers(c, order[1..], v, rs);
      AsksOfMembers(c, order[0], ValuesOf(order[0], v, rs));
      assert order == [order[0]] + order[1..];
      var first, rest := AsksOf(c, order[0], ValuesOf(order[0], v, rs)), Asks(c, order[1..], v, rs);
      assert Asks(c, order, v, rs) == first + rest;
      forall a: Ask ensures a in first + rest <==> a.id.dim in order && NeededFor(c, a.id.dim, v, rs, a) {
        assert a in first <==> a.id.dim == order[0] && NeededFor(c, order[0], v, rs, a);
      }
    }
  }

  lemma {:induction false} AsksDistinct(c: Compiled, order: seq<Dim>, v: Values, rs: seq<Rcpt>)
    requires Distinct(order)
    ensures DistinctIds(Asks(c, order, v, rs))
    decreases |order|
  {
    if order != [] {
      AsksDistinct(c, order[1..], v, rs);
      AsksMembers(c, order[1..], v, rs);
      ValuesDistinct(order[0], v, rs);
      AsksOfDistinct(c, order[0], ValuesOf(order[0], v, rs));
      var first, rest := AsksOf(c, order[0], ValuesOf(order[0], v, rs)), Asks(c, order[1..], v, rs);
      assert forall i :: 0 <= i < |first| ==> first[i] in first;
      assert forall i :: 0 <= i < |rest| ==> rest[i] in rest;
      assert order[0] !in order[1..];
    }
  }

  ghost predicate ValidRules(c: Compiled) {
    forall d :: d in c ==> (c[d].generic.Some? ==> c[d].generic.value.Valid()) && forall x :: x in c[d].over ==> c[d].over[x].Valid()
  }

  lemma {:induction false} CompiledIsValid(rules: seq<Rule>, dir: Direction)
    ensures ValidRules(Compile(rules, dir))
    decreases |rules|
  {
    if rules != [] { CompiledIsValid(rules[..|rules| - 1], dir); }
  }

  lemma AsksValid(c: Compiled, order: seq<Dim>, v: Values, rs: seq<Rcpt>)
    requires ValidRules(c)
    ensures ValidAsks(Asks(c, order, v, rs))
  {
    AsksMembers(c, order, v, rs);
  }

  /** MsgAllowed at one instant: the order in which the dimensions come up
      changes neither the verdict nor, when allowed, what is charged. */
  lemma OrderIsIrrelevant(st: State, c: Compiled, o1: seq<Dim>, o2: seq<Dim>, v: Values, rs: seq<Rcpt>, now: int)
    requires ValidRules(c) && Distinct(o1) && Distinct(o2) && forall d :: d in o1 <==> d in o2
    ensures ValidAsks(Asks(c, o1, v, rs)) && ValidAsks(Asks(c, o2, v, rs))
    ensures AskAll(st, Asks(c, o1, v, rs), now).0 == AskAll(st, Asks(c, o2, v, rs), now).0
    ensures AskAll(st, Asks(c, o1, v, rs), now).0 ==>
      AskAll(st, Asks(c, o1, v, rs), now) == AskAll(st, Asks(c, o2, v, rs), now)
  {
    var a1, a2 := Asks(c, o1, v, rs), Asks(c, o2, v, rs);
    AsksValid(c, o1, v, rs);
    AsksValid(c, o2, v, rs);
    AsksMembers(c, o1, v, rs);
    AsksMembers(c, o2, v, rs);
    AsksDistinct(c, o1, v, rs);
    AsksDistinct(c, o2, v, rs);
    assert forall a :: a in a1 <==> a in a2;
    VerdictExactly(st, a1, now);
    VerdictExactly(st, a2, now);
    if AskAll(st, a1, now).0 {
      AllowedTakesOne(st, a1, now);
      AllowedTakesOne(st, a2, now);
      SameTaken(st, a1, a2, now, AskAll(st, a1, now).1, AskAll(st, a2, now).1);
    }
  }

  lemma SameTaken(st: State, a1: seq<Ask>, a2: seq<Ask>, now: int, s1: State, s2: State)
    requires ValidAsks(a1) && ValidAsks(a2) && forall a :: a in a1 <==> a in a2
    requires TakesOne(st, a1, now, s1) && TakesOne(st, a2, now, s2)
    ensures s1 == s2
  {
    forall id ensures Asked(a1, id) <==> Asked(a2, id) {
      if i :| 0 <= i < |a1| && a1[i].id == id { assert a1[i] in a2; }
      if i :| 0 <= i < |a2| && a2[i].id == id { assert a2[i] in a1; }
    }
    forall id ensures (id in s1 <==> id in s2) && (id in s1 ==> s1[id] == s2[id]) {
      if Asked(a1, id) {
        var i :| 0 <= i < |a1| && a1[i].id == id;
        assert a1[i] in a1;
        assert Lost(st, s1, a1[i], now, 1.0) && Lost(st, s2, a1[i], now, 1.0);
      } else {
        assert Untouched(st, s1, id) && Untouched(st, s2, id);
      }
    }
  }

  /** A value with an override never touches the generic bucket. */
  lemma OverrideShields(c: Compiled, order: seq<Dim>, v: Values, rs: seq<Rcpt>, dim: Dim, value: string)
    requires dim in c && value in c[dim].over
    ensures !Asked(Asks(c, order, v, rs), BucketId(dim, false, value))
  {
    var asks := Asks(c, order, v, rs);
    AsksMembers(c, order, v, rs);
    forall i | 0 <= i < |asks| ensures asks[i].id != BucketId(dim, false, value) {
      assert asks[i] in asks;
      assert NeededFor(c, asks[i].id.dim, v, rs, asks[i]);
    }
  }

  // ---- the last rule wins ----

  predicate Decides(r: Rule, dir: Direction, dim: Dim, value: string) {
    Applies(r, dir) && r.messages > 0 && r.dim == dim && r.value == value
  }

  /** Index of the last rule for a dimension and match, |rules| when none. */
  ghost predicate IsLast(rules: seq<Rule>, dir: Direction, dim: Dim, value: string, i: nat) {
    && i < |rules| && Decides(rules[i], dir, dim, value)
    && forall j :: i < j < |rules| ==> !Decides(rules[j], dir, dim, value)
  }

  function Installed(c: Compiled, dim: Dim, value: string): Option<Params> {
    if dim !in c then None
    else if value == "" then c[dim].generic
    else if value in c[dim].over then Some(c[dim].over[value])
    else None
  }

  lemma InstallStep(c: Compiled, r: Rule, count: nat, dim: Dim, value: string)
    ensures Installed(Install(c, r, count), dim, value)
         == if r.dim == dim && r.value == value then Some(Params(count, WindowOf(r))) else Installed(c, dim, value)
  {
  }

  /** The limit installed for a dimension and value is the last deciding
      rule's, and there is none exactly when no rule decides. */
  lemma {:induction false} LastRuleWins(rules: seq<Rule>, dir: Direction, dim: Dim, value: string)
    ensures Installed(Compile(rules, dir), dim, value).None? ==> forall j :: 0 <= j < |rules| ==> !Decides(rules[j], dir, dim, value)
    ensures Installed(Compile(rules, dir), dim, value).Some? ==>
      exists i: nat :: IsLast(rules, dir, dim, value, i)
        && Installed(Compile(rules, dir), dim, value) == Some(Params(rules[i].messages, WindowOf(rules[i])))
    decreases |rules|
  {
    if rules != [] {
      var n := |rules| - 1;
      var c, r := Compile(rules[..n], dir), rules[n];
      LastRuleWins(rules[..n], dir, dim, value);
      if Applies(r, dir) && r.messages > 0 { InstallStep(c, r, r.messages, dim, value); }
      if Decides(r, dir, dim, value) {
        assert IsLast(rules, dir, dim, value, n);
      } else if Installed(c, dim, value).Some? {
        var i: nat :| IsLast(rules[..n], dir, dim, value, i)
          && Installed(c, dim, value) == Some(Params(rules[..n][i].messages, WindowOf(rules[..n][i])));
        assert rules[..n][i] == rules[i];
        forall j | i < j < |rules| ensures !Decides(rules[j], dir, dim, value) {
          if j < n { assert rules[..n][j] == rules[j]; }
        }
        assert IsLast(rules, dir, dim, value, i);
      } else {
        forall j | 0 <= j < |rules| ensures !Decides(rules[j], dir, dim, value) {
          if j < n { assert rules[..n][j] == rules[j]; }
        }
      }
    }
  }

  // ---- the buckets asked, read off the rules and the message ----

  /** The message has this value in this dimension. */
  ghost predicate Bears(v: Values, rs: seq<Rcpt>, dim: Dim, x: string) {
    match dim
    case ByIP => x == v.ip
    case BySenderDomain => x == v.senderDomain
    case BySenderMailbox => x == v.senderMailbox
    case ByRecipient => exists i :: 0 <= i < |rs| && rs[i].addr == x
    case ByRecipientDomain => exists i :: 0 <= i < |rs| && rs[i].domain == x
  }

  /** The last rule for the dimension and match sets these parameters; a rule
      without a window means an hour. */
  ghost predicate Sets(rules: seq<Rule>, dir: Direction, dim: Dim, value: string, p: Params) {
    exists i: nat :: IsLast(rules, dir, dim, value, i)
      && p == Params(rules[i].messages, if rules[i].window > 0 then rules[i].window else 3600 * 1_000_000_000)
  }

  lemma InstalledBySets(rules: seq<Rule>, dir: Direction, dim: Dim, value: string, p: Params)
    ensures Installed(Compile(rules, dir), dim, value) == Some(p) <==> Sets(rules, dir, dim, value, p)
  {
    LastRuleWins(rules, dir, dim, value);
    if Sets(rules, dir, dim, value, p) {
      var i: nat :| IsLast(rules, dir, dim, value, i)
        && p == Params(rules[i].messages, if rules[i].window > 0 then rules[i].window else 3600 * 1_000_000_000);
      var j: nat :| IsLast(rules, dir, dim, value, j)
        && Installed(Compile(rules, dir), dim, value) == Some(Params(rules[j].messages, WindowOf(rules[j])));
      assert i == j;
    }
  }

  lemma BearsExactly(v: Values, rs: seq<Rcpt>, dim: Dim, x: string)
    ensures x in ValuesOf(dim, v, rs) <==> Bears(v, rs, dim, x)
  {
    var vs := RcptValues(dim, rs);
    UnseenMembers(vs, {});
    if dim.OfRecipient() {
      if x in vs { var i :| 0 <= i < |vs| && vs[i] == x; }
      if i :| 0 <= i < |rs| && RcptValue(dim, rs[i]) == x { assert vs[i] == x; }
    }
  }

  /** A message asks the bucket of a value exactly when it bears the value and
      a rule for it, or failing any such rule a generic one, counts messages in
      this direction; the last such rule gives the limit. */
  ghost predicate Called(rules: seq<Rule>, dir: Direction, v: Values, rs: seq<Rcpt>, a: Ask) {
    && a.id.value != "" && Bears(v, rs, a.id.dim, a.id.value)
    && if a.id.overridden
       then Sets(rules, dir, a.id.dim, a.id.value, a.p)
       else Sets(rules, dir, a.id.dim, "", a.p) && forall j :: 0 <= j < |rules| ==> !Decides(rules[j], dir, a.id.dim, a.id.value)
  }

  lemma ChosenExactly(rules: seq<Rule>, dir: Direction, dim: Dim, x: string, a: Ask)
    ensures Choose(Compile(rules, dir), dim, x) == Some(a) <==>
      && x != "" && a.id.dim == dim && a.id.value == x
      && if a.id.overridden
         then Sets(rules, dir, dim, x, a.p)
         else Sets(rules, dir, dim, "", a.p) && forall j :: 0 <= j < |rules| ==> !Decides(rules[j], dir, dim, x)
  {
    InstalledBySets(rules, dir, dim, x, a.p);
    InstalledBySets(rules, dir, dim, "", a.p);
    LastRuleWins(rules, dir, dim, x);
    var c := Compile(rules, dir);
    if Installed(c, dim, x).Some? {
      var i: nat :| IsLast(rules, dir, dim, x, i);
      assert Decides(rules[i], dir, dim, x);
    }
  }

  lemma AskedExactly(rules: seq<Rule>, dir: Direction, order: seq<Dim>, v: Values, rs: seq<Rcpt>, a: Ask)
    ensures a in Asks(Compile(rules, dir), order, v, rs) <==> a.id.dim in order && Called(rules, dir, v, rs, a)
  {
    var c, dim, x := Compile(rules, dir), a.id.dim, a.id.value;
    AsksMembers(c, order, v, rs);
    BearsExactly(v, rs, dim, x);
    ChosenExactly(rules, dir, dim, x, a);
    assert NeededFor(c, dim, v, rs, a) <==> x in ValuesOf(dim, v, rs) && Choose(c, dim, x) == Some(a);
  }

  // ---- the imperative form ----

  lemma {:induction false} AskAllConcat(st: State, a: seq<Ask>, b: seq<Ask>, now: int)
    requires ValidAsks(a + b)
    ensures ValidAsks(a) && ValidAsks(b)
    ensures AskAll(st, a + b, now)
         == if AskAll(st, a, now).0 then AskAll(AskAll(st, a, now).1, b, now) else AskAll(st, a, now)
    decreases |a|
  {
    assert forall x :: x in a ==> x in a + b;
    assert forall x :: x in b ==> x in a + b;
    if a == [] {
      assert a + b == b;
    } else {
      assert (a + b)[0] == a[0] && (a + b)[1..] == a[1..] + b;
      AskAllConcat(Allow(a[0].p, st, a[0].id, now).1, a[1..], b, now);
    }
  }

  class GovernorService {
    const c: Compiled
    var buckets: State

    constructor (rules: seq<Rule>, dir: Direction)
      ensures c == Compile(rules, dir) && ValidRules(c) && buckets == map[]
    {
      c, buckets := Compile(rules, dir), map[];
      CompiledIsValid(rules, dir);
    }

    /** keyed.allow */
    method AllowValue(dim: Dim, value: string, now: int) returns (ok: bool)
      requires ValidRules(c)
      modifies this`buckets
      ensures ValidAsks(AsksOf(c, dim, [value]))
      ensures (ok, buckets) == AskAll(old(buckets), AsksOf(c, dim, [value]), now)
    {
      assert [value][1..] == [];
      match Choose(c, dim, value)
      case None => ok := true;
      case Some(a) =>
        assert AsksOf(c, dim, [value]) == [a] && [a][1..] == [];
        var r := Allow(a.p, buckets, a.id, now);
        ok, buckets := r.0, r.1;
    }

    /** The recipient loop of one dimension, skipping values already seen. */
    method AllowRecipients(dim: Dim, rs: seq<Rcpt>, now: int) returns (ok: bool)
      requires ValidRules(c)
      modifies this`buckets
      ensures ValidAsks(AsksOf(c, dim, Unseen(RcptValues(dim, rs), {})))
      ensures (ok, buckets) == AskAll(old(buckets), AsksOf(c, dim, Unseen(RcptValues(dim, rs), {})), now)
    {
      ghost var vs := RcptValues(dim, rs);
      ghost var all := AsksOf(c, dim, Unseen(vs, {}));
      ChosenValid(c, dim, Unseen(vs, {}));
      var seen: set<string> := {};
      assert vs[0..] == vs;
      for i := 0 to |rs|
        invariant ValidAsks(AsksOf(c, dim, Unseen(vs[i..], seen)))
        invariant AskAll(buckets, AsksOf(c, dim, Unseen(vs[i..], seen)), now) == AskAll(old(buckets), all, now)
      {
        var val := RcptValue(dim, rs[i]);
        assert vs[i..][0] == val && vs[i..][1..] == vs[i + 1..];
        if val !in seen {
          ghost var rest := Unseen(vs[i + 1..], seen + {val});
          assert ([val] + rest)[0] == val && ([val] + rest)[1..] == rest;
          ChosenValid(c, dim, rest);
          AsksOfCons(c, dim, val, rest);
          AskAllConcat(buckets, AsksOf(c, dim, [val]), AsksOf(c, dim, rest), now);
          seen := seen + {val};
          ok := AllowValue(dim, val, now);
          if !ok { return; }
        }
      }
      assert vs[|rs|..] == [];
      ok := true;
    }

    method MsgAllowed(order: seq<Dim>, v: Values, rs: seq<Rcpt>, now: int) returns (ok: bool, deniedBy: Option<Dim>)
      requires ValidRules(c)
      modifies this`buckets
      ensures ValidAsks(Asks(c, order, v, rs))
      ensures (ok, buckets) == AskAll(old(buckets), Asks(c, order, v, rs), now)
      ensures ok == deniedBy.None?
    {
      AsksValid(c, order, v, rs);
      assert order[0..] == order;
      for i := 0 to |order|
        invariant ValidAsks(Asks(c, order[i..], v, rs))
        invariant AskAll(buckets, Asks(c, order[i..], v, rs), now) == AskAll(old(buckets), Asks(c, order, v, rs), now)
      {
        var dim := order[i];
        assert order[i..][0] == dim && order[i..][1..] == order[i + 1..];
        AskAllConcat(buckets, AsksOf(c, dim, ValuesOf(dim, v, rs)), Asks(c, order[i + 1..], v, rs), now);
        if dim.OfRecipient() {
          ok := AllowRecipients(dim, rs, now);
        } else {
          ok := AllowValue(dim, v.Get(dim), now);
        }
        if !ok { return false, Some(dim); }
      }
      assert order[|order|..] == [];
      return true, None;
    }
  }

  lemma AsksOfCons(c: Compiled, dim: Dim, x: string, rest: seq<string>)
    ensures AsksOf(c, dim, [x] + rest) == AsksOf(c, dim, [x]) + AsksOf(c, dim, rest)
  {
    assert ([x] + rest)[1..] == rest && [x][1..] == [];
    assert AsksOf(c, dim, []) == [];
  }

  lemma ChosenValid(c: Compiled, dim: Dim, vs: seq<string>)
    requires ValidRules(c)
    ensures ValidAsks(AsksOf(c, dim, vs))
  {
    AsksOfMembers(c, dim, vs);
  }
}
