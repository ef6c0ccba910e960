/** What happens to an accepted message body: stores, forwards, queue entries,
    and the one reply that answers for all recipients. */
module SmtpDelivery {
  import opened Text

  /** Something that reached a destination. */
  datatype Effect = Stored | Forwarded | Enqueued | Discarded

  /** One local mailbox of a plan, with the answers of filter, quota, store and
      the forward hook for the filter's own forwards. */
  datatype LocalTry = LocalTry(discard: bool, quotaOk: bool, storeOk: bool, filterForwards: seq<bool>)

  /** One recipient: a relay of the submission port, or a routed plan whose
      remote addresses the forward hook answers for. */
  datatype RcptTry = Relay(queueOk: bool) | Plan(local: seq<LocalTry>, remote: seq<bool>)

  datatype Failure = OverQuota | Failed

  /** Does some element satisfy p? */
  function Any<T>(s: seq<T>, p: T -> bool): bool {
    s != [] && (Any(s[..|s| - 1], p) || p(s[|s| - 1]))
  }

  lemma {:induction false} AnyIff<T>(s: seq<T>, p: T -> bool)
    ensures Any(s, p) <==> exists x :: x in s && p(x)
    decreases |s|
  {
    if s != [] {
      AnyIff(s[..|s| - 1], p);
      assert s == s[..|s| - 1] + [s[|s| - 1]];
    }
  }

  lemma AnyStep<T>(s: seq<T>, i: nat, p: T -> bool)
    requires i < |s|
    ensures Any(s[..i + 1], p) <==> Any(s[..i], p) || p(s[i])
  {
    assert s[..i + 1][..i] == s[..i];
  }

  // ---- model of one plan ----

  /** Forwards that were really sent; without a hook none is. */
  function Forwards(oks: seq<bool>, hook: bool): seq<Effect> {
    if oks == [] then []
    else Forwards(oks[..|oks| - 1], hook) + (if hook && oks[|oks| - 1] then [Forwarded] else [])
  }

  function LocalEffects(t: LocalTry, hook: bool): seq<Effect> {
    if t.discard then [Discarded]
    else if t.quotaOk && t.storeOk then [Stored] + Forwards(t.filterForwards, hook)
    else []
  }

  function AllLocalEffects(ts: seq<LocalTry>, hook: bool): seq<Effect> {
    if ts == [] then [] else AllLocalEffects(ts[..|ts| - 1], hook) + LocalEffects(ts[|ts| - 1], hook)
  }

  predicate Accepts(t: LocalTry) { t.discard || (t.quotaOk && t.storeOk) }

  predicate HeldByQuota(t: LocalTry) { !t.discard && !t.quotaOk }

  predicate StoreFails(t: LocalTry) { !t.discard && t.quotaOk && !t.storeOk }

  /** The code counts a forward without a hook as delivered. */
  function Counts(hook: bool): bool -> bool { (ok: bool) => !hook || ok }

  function Fails(hook: bool): bool -> bool { (ok: bool) => hook && !ok }

  predicate PlanDelivered(ts: seq<LocalTry>, remote: seq<bool>, hook: bool) {
    Any(ts, Accepts) || Any(remote, Counts(hook))
  }

  predicate PlanFailed(ts: seq<LocalTry>, remote: seq<bool>, hook: bool) {
    Any(ts, StoreFails) || Any(remote, Fails(hook))
  }

  /** deliverPlan's verdict: None is success. */
  function PlanVerdict(ts: seq<LocalTry>, remote: seq<bool>, hook: bool): Option<Failure> {
    if PlanDelivered(ts, remote, hook) then None
    else if PlanFailed(ts, remote, hook) then Some(Failed)
    else if Any(ts, HeldByQuota) then Some(OverQuota)
    else None
  }

  function PlanEffects(ts: seq<LocalTry>, remote: seq<bool>, hook: bool): seq<Effect> {
    AllLocalEffects(ts, hook) + Forwards(remote, hook)
  }

  // ---- model of the recipients and the reply ----

  function Verdict(r: RcptTry, hook: bool): Option<Failure> {
    match r
    case Relay(ok) => if ok then None else Some(Failed)
    case Plan(ts, remote) => PlanVerdict(ts, remote, hook)
  }

  function Effects(r: RcptTry, hook: bool): seq<Effect> {
    match r
    case Relay(ok) => if ok then [Enqueued] else []
    case Plan(ts, remote) => PlanEffects(ts, remote, hook)
  }

  function AllEffects(rs: seq<RcptTry>, hook: bool): seq<Effect> {
    if rs == [] then [] else AllEffects(rs[..|rs| - 1], hook) + Effects(rs[|rs| - 1], hook)
  }

  function Accepted(hook: bool): RcptTry -> bool { (r: RcptTry) => Verdict(r, hook).None? }

  function Held(hook: bool): RcptTry -> bool { (r: RcptTry) => Verdict(r, hook) == Some(OverQuota) }

  function Reply(rs: seq<RcptTry>, hook: bool): int {
    if Any(rs, Accepted(hook)) then 250
    else if Any(rs, Held(hook)) then 452
    else 451
  }

  // ---- accounting ----

  lemma {:induction false} LocalEffectsFrom(ts: seq<LocalTry>, hook: bool)
    ensures AllLocalEffects(ts, hook) == [] <==> !Any(ts, Accepts)
    decreases |ts|
  {
    if ts != [] { LocalEffectsFrom(ts[..|ts| - 1], hook); }
  }

  lemma {:induction false} ForwardsFrom(oks: seq<bool>, hook: bool)
    ensures hook ==> (Forwards(oks, hook) == [] <==> !Any(oks, Counts(hook)))
    ensures !hook ==> Forwards(oks, hook) == [] && (Any(oks, Counts(hook)) <==> oks != [])
    decreases |oks|
  {
    if oks != [] { ForwardsFrom(oks[..|oks| - 1], hook); }
  }

  lemma FailedPlanLeavesNothing(ts: seq<LocalTry>, remote: seq<bool>, hook: bool)
    requires !PlanDelivered(ts, remote, hook)
    ensures PlanEffects(ts, remote, hook) == []
  {
    LocalEffectsFrom(ts, hook);
    ForwardsFrom(remote, hook);
  }

  lemma {:induction false} NothingFromAll(rs: seq<RcptTry>, hook: bool)
    ensures AllEffects(rs, hook) == [] <==> forall r :: r in rs ==> Effects(r, hook) == []
    decreases |rs|
  {
    if rs != [] {
      NothingFromAll(rs[..|rs| - 1], hook);
      assert rs == rs[..|rs| - 1] + [rs[|rs| - 1]];
      assert rs[|rs| - 1] in rs;
    }
  }

  /** After 451 or 452 the sender may retry: nothing was stored, forwarded,
      queued or discarded for anyone. */
  lemma TemporaryMeansNothingDone(rs: seq<RcptTry>, hook: bool)
    requires Reply(rs, hook) != 250
    ensures AllEffects(rs, hook) == []
  {
    AnyIff(rs, Accepted(hook));
    forall r | r in rs ensures Effects(r, hook) == [] {
      assert !Accepted(hook)(r);
      if r.Plan? { FailedPlanLeavesNothing(r.local, r.remote, hook); }
    }
    NothingFromAll(rs, hook);
  }

  // ---- what is done and what is answered, by the answers given ----

  predicate StoreWorks(t: LocalTry) { !t.discard && t.quotaOk && t.storeOk }

  /** A mailbox is stored to unless its filter discards, its quota is full or
      its store fails; only what was stored is forwarded by the filter. */
  ghost predicate Does(r: RcptTry, hook: bool, e: Effect) {
    match e
    case Enqueued => r.Relay? && r.queueOk
    case Discarded => r.Plan? && exists t :: t in r.local && t.discard
    case Stored => r.Plan? && exists t :: t in r.local && StoreWorks(t)
    case Forwarded => r.Plan? && hook && (true in r.remote || exists t :: t in r.local && StoreWorks(t) && true in t.filterForwards)
  }

  lemma {:induction false} ForwardsMembers(oks: seq<bool>, hook: bool)
    ensures forall e :: e in Forwards(oks, hook) <==> e == Forwarded && hook && true in oks
    decreases |oks|
  {
    if oks != [] {
      var n := |oks| - 1;
      ForwardsMembers(oks[..n], hook);
      assert oks == oks[..n] + [oks[n]];
      assert true in oks <==> true in oks[..n] || oks[n];
    }
  }

  lemma {:induction false} LocalMembers(ts: seq<LocalTry>, hook: bool, e: Effect)
    ensures e in AllLocalEffects(ts, hook) <==> exists t :: t in ts && e in LocalEffects(t, hook)
    decreases |ts|
  {
    if ts != [] {
      LocalMembers(ts[..|ts| - 1], hook, e);
      assert ts == ts[..|ts| - 1] + [ts[|ts| - 1]];
    }
  }

  lemma LocalDoes(t: LocalTry, hook: bool, e: Effect)
    ensures e in LocalEffects(t, hook) <==>
      || (e == Discarded && t.discard)
      || (StoreWorks(t) && (e == Stored || (e == Forwarded && hook && true in t.filterForwards)))
  {
    ForwardsMembers(t.filterForwards, hook);
  }

  lemma RcptDoes(r: RcptTry, hook: bool, e: Effect)
    ensures e in Effects(r, hook) <==> Does(r, hook, e)
  {
    if r.Plan? {
      LocalMembers(r.local, hook, e);
      ForwardsMembers(r.remote, hook);
      forall t ensures e in LocalEffects(t, hook) <==>
        || (e == Discarded && t.discard)
        || (StoreWorks(t) && (e == Stored || (e == Forwarded && hook && true in t.filterForwards)))
      { LocalDoes(t, hook, e); }
    }
  }

  /** Something is stored, discarded, queued or forwarded exactly when some
      recipient calls for it. */
  lemma {:induction false} DoneExactly(rs: seq<RcptTry>, hook: bool, e: Effect)
    ensures e in AllEffects(rs, hook) <==> exists r :: r in rs && Does(r, hook, e)
    decreases |rs|
  {
    if rs != [] {
      DoneExactly(rs[..|rs| - 1], hook, e);
      RcptDoes(rs[|rs| - 1], hook, e);
      assert rs == rs[..|rs| - 1] + [rs[|rs| - 1]];
    }
  }

  /** The recipient counts as served: queued, or one mailbox or one remote
      address took the message, or there was nothing to do. */
  ghost predicate Served(r: RcptTry, hook: bool) {
    match r
    case Relay(ok) => ok
    case Plan(ts, remote) =>
      || (exists t :: t in ts && (t.discard || StoreWorks(t)))
      || (if hook then true in remote else remote != [])
      || (ts == [] && remote == [])
  }

  /** Mailboxes only, and each over its quota. */
  ghost predicate Full(r: RcptTry) {
    r.Plan? && r.local != [] && r.remote == [] && forall t :: t in r.local ==> !t.discard && !t.quotaOk
  }

  lemma RemoteAnswers(remote: seq<bool>, hook: bool)
    ensures Any(remote, Counts(hook)) <==> if hook then true in remote else remote != []
    ensures remote != [] ==> Any(remote, Counts(hook)) || Any(remote, Fails(hook))
    ensures remote == [] ==> !Any(remote, Fails(hook))
  {
    AnyIff(remote, Counts(hook));
    AnyIff(remote, Fails(hook));
    if remote != [] { assert remote[0] in remote; }
  }

  lemma VerdictBy(r: RcptTry, hook: bool)
    ensures Verdict(r, hook).None? <==> Served(r, hook)
    ensures Verdict(r, hook) == Some(OverQuota) <==> Full(r)
  {
    if r.Plan? {
      RemoteAnswers(r.remote, hook);
      AnyIff(r.local, Accepts);
      AnyIff(r.local, StoreFails);
      AnyIff(r.local, HeldByQuota);
      if r.local != [] { assert r.local[0] in r.local; }
    }
  }

  /** 250 exactly when some recipient was served, 452 exactly when none was and
      one met nothing but full mailboxes, 451 otherwise. */
  lemma ReplyExactly(rs: seq<RcptTry>, hook: bool)
    ensures Reply(rs, hook) == 250 <==> exists r :: r in rs && Served(r, hook)
    ensures Reply(rs, hook) == 452 <==> (forall r :: r in rs ==> !Served(r, hook)) && exists r :: r in rs && Full(r)
    ensures Reply(rs, hook) == 451 || Reply(rs, hook) == 452 || Reply(rs, hook) == 250
  {
    AnyIff(rs, Accepted(hook));
    AnyIff(rs, Held(hook));
    forall r ensures (Accepted(hook)(r) <==> Served(r, hook)) && (Held(hook)(r) <==> Full(r)) { VerdictBy(r, hook); }
  }

  // ---- when 250 stands for a delivery ----

  /** A recipient before delivery: only the size of its plan is known. */
  datatype Shape = RelayShape | PlanShape(locals: nat, remotes: nat)

  predicate Fits(r: RcptTry, s: Shape) {
    match s
    case RelayShape => r.Relay?
    case PlanShape(n, m) => r.Plan? && |r.local| == n && |r.remote| == m
  }

  predicate AllFit(rs: seq<RcptTry>, ss: seq<Shape>) {
    |rs| == |ss| && forall i :: 0 <= i < |rs| ==> Fits(rs[i], ss[i])
  }

  /** The plan leads somewhere, and a forward hook is there if it is needed. */
  predicate Sound(s: Shape, hook: bool) {
    s.RelayShape? || ((s.locals > 0 || s.remotes > 0) && (hook || s.remotes == 0))
  }

  lemma SoundAccepts(r: RcptTry, s: Shape, hook: bool)
    requires Fits(r, s) && Sound(s, hook) && Verdict(r, hook).None?
    ensures Effects(r, hook) != []
  {
    if r.Plan? {
      LocalEffectsFrom(r.local, hook);
      ForwardsFrom(r.remote, hook);
      SomeVerdict(r.local, r.remote, hook);
    }
  }

  /** A plan that leads somewhere is delivered, failed or held. */
  lemma SomeVerdict(ts: seq<LocalTry>, remote: seq<bool>, hook: bool)
    requires ts != [] || remote != []
    ensures PlanDelivered(ts, remote, hook) || PlanFailed(ts, remote, hook) || Any(ts, HeldByQuota)
  {
  }

  /** Every store and every queue write fails. */
  function AllFailing(s: Shape): (r: RcptTry)
    ensures Fits(r, s)
  {
    match s
    case RelayShape => Relay(false)
    case PlanShape(n, m) => Plan(seq(n, _ => LocalTry(false, true, false, [])), seq(m, _ => false))
  }

  function AllFailingAll(ss: seq<Shape>): (rs: seq<RcptTry>)
    ensures AllFit(rs, ss)
    ensures forall i :: 0 <= i < |ss| ==> rs[i] == AllFailing(ss[i])
  {
    seq(|ss|, i requires 0 <= i < |ss| => AllFailing(ss[i]))
  }

  lemma FailingHasNoEffect(s: Shape, hook: bool)
    ensures Effects(AllFailing(s), hook) == []
  {
    var r := AllFailing(s);
    if r.Plan? {
      LocalEffectsFrom(r.local, hook);
      ForwardsFrom(r.remote, hook);
      AnyIff(r.local, Accepts);
      AnyIff(r.remote, Counts(hook));
    }
  }

  lemma UnsoundIsAccepted(s: Shape, hook: bool)
    requires !Sound(s, hook)
    ensures Verdict(AllFailing(s), hook).None?
  {
    if s.remotes > 0 { ForwardsFrom(AllFailing(s).remote, hook); }
  }

  /** For these recipients every 250, whatever fails, stands for at least one
      store, forward, queue entry or deliberate discard. */
  ghost predicate NeverHollow(ss: seq<Shape>, hook: bool) {
    forall rs :: AllFit(rs, ss) && Reply(rs, hook) == 250 ==> AllEffects(rs, hook) != []
  }

  /** That holds exactly when every plan is non-empty and no plan with remote
      addresses lacks the forward hook. */
  lemma AcceptedExactly(ss: seq<Shape>, hook: bool)
    ensures NeverHollow(ss, hook) <==> forall s :: s in ss ==> Sound(s, hook)
  {
    if forall s :: s in ss ==> Sound(s, hook) {
      forall rs | AllFit(rs, ss) && Reply(rs, hook) == 250 ensures AllEffects(rs, hook) != [] {
        AnyIff(rs, Accepted(hook));
        var r :| r in rs && Accepted(hook)(r);
        var i :| 0 <= i < |rs| && rs[i] == r;
        assert ss[i] in ss;
        SoundAccepts(r, ss[i], hook);
        NothingFromAll(rs, hook);
      }
    } else {
      var s :| s in ss && !Sound(s, hook);
      var i :| 0 <= i < |ss| && ss[i] == s;
      var rs := AllFailingAll(ss);
      UnsoundIsAccepted(s, hook);
      AnyIff(rs, Accepted(hook));
      assert rs[i] in rs && Accepted(hook)(rs[i]);
      forall r | r in rs ensures Effects(r, hook) == [] {
        var k :| 0 <= k < |rs| && rs[k] == r;
        FailingHasNoEffect(ss[k], hook);
      }
      NothingFromAll(rs, hook);
    }
  }

  /** 250 answers for all recipients as soon as one accepts: the others are
      then neither stored nor reported back. */
  lemma OneAcceptsForAll(rs: seq<RcptTry>, hook: bool, good: RcptTry, bad: RcptTry)
    requires good in rs && bad in rs && Verdict(good, hook).None? && Verdict(bad, hook).Some?
    ensures Reply(rs, hook) == 250 && Effects(bad, hook) == []
  {
    AnyIff(rs, Accepted(hook));
    assert Accepted(hook)(good);
    if bad.Plan? { FailedPlanLeavesNothing(bad.local, bad.remote, hook); }
  }

  /** Every store and every queue write succeeds. */
  function AllWorking(s: Shape): (r: RcptTry)
    ensures Fits(r, s)
  {
    match s
    case RelayShape => Relay(true)
    case PlanShape(n, m) => Plan(seq(n, _ => LocalTry(false, true, true, [])), seq(m, _ => true))
  }

  lemma WorkingIsAccepted(s: Shape, hook: bool)
    ensures Verdict(AllWorking(s), hook).None?
  {
    var r := AllWorking(s);
    if r.Plan? {
      AnyIff(r.local, StoreFails);
      AnyIff(r.local, HeldByQuota);
      AnyIff(r.remote, Fails(hook));
    }
  }

  /** A recipient without a sound plan is accepted whatever happens. */
  lemma UnsoundAlwaysAccepted(r: RcptTry, s: Shape, hook: bool)
    requires Fits(r, s) && !Sound(s, hook)
    ensures Verdict(r, hook).None?
  {
    if s.remotes > 0 { ForwardsFrom(r.remote, hook); }
  }

  lemma SoundMayFail(s: Shape, hook: bool)
    requires Sound(s, hook)
    ensures Verdict(AllFailing(s), hook).Some?
  {
    if Verdict(AllFailing(s), hook).None? {
      FailingHasNoEffect(s, hook);
      SoundAccepts(AllFailing(s), s, hook);
    }
  }

  /** For these recipients every 250 means that each of them was accepted. */
  ghost predicate SpeaksForAll(ss: seq<Shape>, hook: bool) {
    forall rs :: AllFit(rs, ss) && Reply(rs, hook) == 250 ==> AllAccepted(rs, hook)
  }

  ghost predicate AllAccepted(rs: seq<RcptTry>, hook: bool) {
    forall i :: 0 <= i < |rs| ==> Verdict(rs[i], hook).None?
  }

  /** Only recipient i fails. */
  function OneFailing(ss: seq<Shape>, i: nat): (rs: seq<RcptTry>)
    ensures AllFit(rs, ss)
    ensures forall k :: 0 <= k < |ss| ==> rs[k] == if k == i then AllFailing(ss[k]) else AllWorking(ss[k])
  {
    seq(|ss|, k requires 0 <= k < |ss| => if k == i then AllFailing(ss[k]) else AllWorking(ss[k]))
  }

  lemma OneIsHidden(ss: seq<Shape>, hook: bool, i: nat)
    requires |ss| >= 2 && i < |ss| && Sound(ss[i], hook)
    ensures Reply(OneFailing(ss, i), hook) == 250 && !AllAccepted(OneFailing(ss, i), hook)
  {
    var rs := OneFailing(ss, i);
    var j := if i == 0 then 1 else 0;
    WorkingIsAccepted(ss[j], hook);
    AnyIff(rs, Accepted(hook));
    assert rs[j] in rs && Accepted(hook)(rs[j]);
    SoundMayFail(ss[i], hook);
  }

  /** 250 speaks for every recipient exactly when there is at most one, or
      none that could fail at all. */
  lemma SpeaksForAllExactly(ss: seq<Shape>, hook: bool)
    ensures SpeaksForAll(ss, hook) <==> |ss| <= 1 || forall s :: s in ss ==> !Sound(s, hook)
  {
    if |ss| <= 1 || forall s :: s in ss ==> !Sound(s, hook) {
      forall rs | AllFit(rs, ss) && Reply(rs, hook) == 250 ensures AllAccepted(rs, hook) {
        AnyIff(rs, Accepted(hook));
        var r :| r in rs && Accepted(hook)(r);
        forall i | 0 <= i < |rs| ensures Verdict(rs[i], hook).None? {
          assert ss[i] in ss;
          if |ss| <= 1 { assert rs[i] == r; } else { UnsoundAlwaysAccepted(rs[i], ss[i], hook); }
        }
      }
    } else {
      var s :| s in ss && Sound(s, hook);
      var i :| 0 <= i < |ss| && ss[i] == s;
      OneIsHidden(ss, hook, i);
    }
  }

  // ---- the imperative form ----

  lemma EffectSteps(ts: seq<LocalTry>, i: nat, hook: bool)
    requires i < |ts|
    ensures AllLocalEffects(ts[..i + 1], hook) == AllLocalEffects(ts[..i], hook) + LocalEffects(ts[i], hook)
  {
    assert ts[..i + 1][..i] == ts[..i];
  }

  lemma ForwardSteps(oks: seq<bool>, i: nat, hook: bool)
    requires i < |oks|
    ensures Forwards(oks[..i + 1], hook) == Forwards(oks[..i], hook) + (if hook && oks[i] then [Forwarded] else [])
  {
    assert oks[..i + 1][..i] == oks[..i];
  }

  method DeliverLocal(ts: seq<LocalTry>, hook: bool) returns (delivered: bool, failed: bool, held: bool, log: seq<Effect>)
    ensures delivered == Any(ts, Accepts) && failed == Any(ts, StoreFails) && held == Any(ts, HeldByQuota)
    ensures log == AllLocalEffects(ts, hook)
  {
    delivered, failed, held, log := false, false, false, [];
    for i := 0 to |ts|
      invariant delivered == Any(ts[..i], Accepts) && failed == Any(ts[..i], StoreFails) && held == Any(ts[..i], HeldByQuota)
      invariant log == AllLocalEffects(ts[..i], hook)
    {
      var t := ts[i];
      AnyStep(ts, i, Accepts);
      AnyStep(ts, i, StoreFails);
      AnyStep(ts, i, HeldByQuota);
      EffectSteps(ts, i, hook);
      if t.discard {
        delivered := true;
        log := log + [Discarded];
      } else if !t.quotaOk {
        held := true;
      } else if !t.storeOk {
        failed := true;
      } else {
        delivered := true;
        log := log + ([Stored] + Forwards(t.filterForwards, hook));
      }
    }
    assert ts[..|ts|] == ts;
  }

  method DeliverRemote(remote: seq<bool>, hook: bool) returns (delivered: bool, failed: bool, log: seq<Effect>)
    ensures delivered == Any(remote, Counts(hook)) && failed == Any(remote, Fails(hook))
    ensures log == Forwards(remote, hook)
  {
    delivered, failed, log := false, false, [];
    for i := 0 to |remote|
      invariant delivered == Any(remote[..i], Counts(hook)) && failed == Any(remote[..i], Fails(hook))
      invariant log == Forwards(remote[..i], hook)
    {
      AnyStep(remote, i, Counts(hook));
      AnyStep(remote, i, Fails(hook));
      ForwardSteps(remote, i, hook);
      if hook && !remote[i] {
        failed := true;
      } else {
        delivered := true;
        if hook { log := log + [Forwarded]; }
      }
    }
    assert remote[..|remote|] == remote;
  }

  method DeliverPlan(ts: seq<LocalTry>, remote: seq<bool>, hook: bool) returns (verdict: Option<Failure>, log: seq<Effect>)
    ensures verdict == PlanVerdict(ts, remote, hook)
    ensures log == PlanEffects(ts, remote, hook)
  {
    var d1, f1, held, log1 := DeliverLocal(ts, hook);
    var d2, f2, log2 := DeliverRemote(remote, hook);
    log := log1 + log2;
    if d1 || d2 { return None, log; }
    if f1 || f2 { return Some(Failed), log; }
    if held { return Some(OverQuota), log; }
    verdict := None;
  }

  lemma AllEffectSteps(rs: seq<RcptTry>, i: nat, hook: bool)
    requires i < |rs|
    ensures AllEffects(rs[..i + 1], hook) == AllEffects(rs[..i], hook) + Effects(rs[i], hook)
  {
    assert rs[..i + 1][..i] == rs[..i];
  }

  method DeliverOne(r: RcptTry, hook: bool) returns (verdict: Option<Failure>, log: seq<Effect>)
    ensures verdict == Verdict(r, hook) && log == Effects(r, hook)
  {
    match r
    case Relay(ok) =>
      verdict, log := if ok then None else Some(Failed), if ok then [Enqueued] else [];
    case Plan(ts, remote) =>
      verdict, log := DeliverPlan(ts, remote, hook);
  }

  /** The delivery loop of DATA. */
  method DeliverAll(rs: seq<RcptTry>, hook: bool) returns (reply: int, log: seq<Effect>)
    ensures reply == Reply(rs, hook)
    ensures log == AllEffects(rs, hook)
  {
    var accepted: nat, overQuota := 0, false;
    log := [];
    for i := 0 to |rs|
      invariant accepted > 0 <==> Any(rs[..i], Accepted(hook))
      invariant overQuota <==> Any(rs[..i], Held(hook))
      invariant log == AllEffects(rs[..i], hook)
    {
      AllEffectSteps(rs, i, hook);
      AnyStep(rs, i, Accepted(hook));
      AnyStep(rs, i, Held(hook));
      var verdict, more := DeliverOne(rs[i], hook);
      log := log + more;
      if verdict.Some? {
        if verdict.value.OverQuota? { overQuota := true; }
      } else {
        accepted := accepted + 1;
      }
    }
    assert rs[..|rs|] == rs;
    if accepted == 0 {
      reply := if overQuota then 452 else 451;
    } else {
      reply := 250;
    }
  }
}
