/** Sending reputation: scores that events move and time pulls back to the
    baseline, and the warm-up ramp of a new domain. Time is in days, scores
    are exact numbers, and the clock never runs backwards. */
module Reputation {
  import opened Runs

  const EXCELLENT := 100.0
  const NORMAL := 50.0
  const BLOCKED := 0.0

  datatype Event = Delivered | AuthPass | Bounce | SpamComplaint | Blacklisted | Anomaly

  function Delta(e: Event): real {
    match e
    case Delivered => 0.5
    case AuthPass => 0.2
    case Bounce => -2.0
    case SpamComplaint => -15.0
    case Blacklisted => -30.0
    case Anomaly => -25.0
  }

  function Min(a: real, b: real): real { if a < b then a else b }
  function Max(a: real, b: real): real { if a > b then a else b }
  function Clamp(v: real): real { Max(BLOCKED, Min(EXCELLENT, v)) }
  function Abs(v: real): real { if v < 0.0 then -v else v }

  datatype Record = Record(score: real, updated: real, first: real, sent: nat, bounced: nat, reported: nat,
                           daySent: nat, dayFrom: real)

  /** d points toward the baseline, stopping there. */
  function Toward(score: real, d: real): real {
    if score < NORMAL then Min(NORMAL, score + d)
    else if score > NORMAL then Max(NORMAL, score - d)
    else score
  }

  /** What looking at a known subject does to its record. */
  function Refreshed(r: Record, now: real): Record {
    var decayed := if now - r.updated >= 1.0 then r.(score := Toward(r.score, now - r.updated), updated := now) else r;
    if now - r.dayFrom >= 1.0 then decayed.(daySent := 0, dayFrom := now) else decayed
  }

  function Newcomer(now: real): Record { Record(NORMAL, now, now, 0, 0, 0, 0, now) }

  type Records = map<string, Record>

  function Lookup(rs: Records, key: string, now: real): Record {
    if key in rs then Refreshed(rs[key], now) else Newcomer(now)
  }

  function Applied(r: Record, e: Event, now: real): Record {
    var scored := r.(score := Clamp(r.score + Delta(e)), updated := now);
    match e
    case Delivered => scored.(sent := r.sent + 1, daySent := r.daySent + 1)
    case Bounce => scored.(bounced := r.bounced + 1)
    case SpamComplaint => scored.(reported := r.reported + 1)
    case _ => scored
  }

  // ---- decay under polling ----

  lemma TowardAdds(s: real, a: real, b: real)
    requires a >= 0.0 && b >= 0.0
    ensures Toward(Toward(s, a), b) == Toward(s, a + b)
  {
  }

  /** Decay moves toward 50, never past it, and d days make at most d points. */
  lemma TowardBounded(s: real, d: real)
    requires d >= 0.0
    ensures s <= NORMAL ==> s <= Toward(s, d) <= NORMAL
    ensures s >= NORMAL ==> NORMAL <= Toward(s, d) <= s
    ensures Abs(Toward(s, d) - s) <= d
  {
  }

  ghost predicate Later(start: real, times: seq<real>) {
    && (forall i :: 0 <= i < |times| ==> start <= times[i])
    && (forall i, j :: 0 <= i < j < |times| ==> times[i] <= times[j])
  }

  /** The record after looks at the given times. */
  function Polled(r: Record, times: seq<real>): Record {
    if times == [] then r else Refreshed(Polled(r, times[..|times| - 1]), times[|times| - 1])
  }

  lemma {:induction false} PollingFollows(r: Record, times: seq<real>)
    requires Later(r.updated, times)
    ensures var q := Polled(r, times);
      && r.updated <= q.updated
      && q.score == Toward(r.score, q.updated - r.updated)
      && (times != [] ==> q.updated <= times[|times| - 1] < q.updated + 1.0)
      && (times == [] ==> q == r)
    decreases |times|
  {
    if times != [] {
      var n := |times| - 1;
      PollingFollows(r, times[..n]);
      var p := Polled(r, times[..n]);
      if times[n] - p.updated >= 1.0 { TowardAdds(r.score, p.updated - r.updated, times[n] - p.updated); }
    }
  }

  /** However often a quiet subject is looked at, its score is behind exact
      decay of one point a day by less than one point, and never ahead. */
  lemma LagBelowOnePoint(r: Record, times: seq<real>)
    requires times != [] && Later(r.updated, times)
    ensures var exact := Toward(r.score, times[|times| - 1] - r.updated); var score := Polled(r, times).score;
      && Abs(exact - score) < 1.0
      && (r.score <= NORMAL ==> score <= exact <= NORMAL)
      && (r.score >= NORMAL ==> NORMAL <= exact <= score)
  {
    PollingFollows(r, times);
    var q, last := Polled(r, times), times[|times| - 1];
    TowardAdds(r.score, q.updated - r.updated, last - q.updated);
    TowardBounded(q.score, last - q.updated);
    TowardBounded(r.score, q.updated - r.updated);
  }

  // ---- events keep the clock of the decay from running ----

  datatype Timed = Timed(event: Event, at: real)

  function After(r: Record, es: seq<Timed>): Record {
    if es == [] then r
    else var n := |es| - 1; Applied(Refreshed(After(r, es[..n]), es[n].at), es[n].event, es[n].at)
  }

  function DeltasOnly(score: real, es: seq<Timed>): real {
    if es == [] then score else Clamp(DeltasOnly(score, es[..|es| - 1]) + Delta(es[|es| - 1].event))
  }

  /** The time from the previous event, or from the start, to the i-th. */
  function Gap(start: real, es: seq<Timed>, i: nat): real
    requires i < |es|
  {
    es[i].at - (if i == 0 then start else es[i - 1].at)
  }

  ghost predicate Busy(start: real, es: seq<Timed>) {
    forall i :: 0 <= i < |es| ==> Gap(start, es, i) < 1.0
  }

  /** A subject with an event at least once a day never decays: each event
      restarts the day. */
  lemma {:induction false} BusyNeverDecays(r: Record, es: seq<Timed>)
    requires Busy(r.updated, es)
    ensures After(r, es).score == DeltasOnly(r.score, es)
    ensures After(r, es).updated == if es == [] then r.updated else es[|es| - 1].at
    decreases |es|
  {
    if es != [] {
      var n := |es| - 1;
      BusyPrefix(r.updated, es, n);
      BusyNeverDecays(r, es[..n]);
      EventScores(After(r, es[..n]), es[n]);
    }
  }

  lemma BusyPrefix(start: real, es: seq<Timed>, n: nat)
    requires Busy(start, es) && n < |es|
    ensures Busy(start, es[..n]) && Gap(start, es, n) < 1.0
  {
    forall i | 0 <= i < n ensures Gap(start, es[..n], i) < 1.0 {
      assert Gap(start, es[..n], i) == Gap(start, es, i);
    }
  }

  lemma EventScores(r: Record, e: Timed)
    requires e.at - r.updated < 1.0
    ensures var q := Applied(Refreshed(r, e.at), e.event, e.at);
      q.score == Clamp(r.score + Delta(e.event)) && q.updated == e.at
  {
  }

  // ---- how much a sequence of events decays ----

  predicate Forward(start: real, es: seq<Timed>) {
    forall i :: 0 <= i < |es| ==> Gap(start, es, i) >= 0.0
  }

  function Distance(score: real): real { Abs(score - NORMAL) }

  /** What a gap takes off the distance to the baseline: nothing below a day,
      from a day on its whole length, as far as there is distance left. */
  function Loss(gap: real, score: real): real {
    if gap >= 1.0 then Min(gap, Distance(score)) else 0.0
  }

  /** A look moves the score exactly when at least a day has passed and the
      score is off the baseline, and by exactly that loss toward it. */
  lemma LookMoves(r: Record, now: real)
    requires r.updated <= now
    ensures Refreshed(r, now).score != r.score <==> now - r.updated >= 1.0 && r.score != NORMAL
    ensures Distance(r.score) - Distance(Refreshed(r, now).score) == Loss(now - r.updated, r.score)
    ensures Abs(Refreshed(r, now).score - r.score) == Loss(now - r.updated, r.score)
  {
  }

  lemma UpdatedAt(r: Record, es: seq<Timed>, i: nat)
    requires i < |es|
    ensures es[i].at - After(r, es[..i]).updated == Gap(r.updated, es, i)
  {
    if i > 0 {
      var front := es[..i];
      assert front[..i - 1] == es[..i - 1] && front[i - 1] == es[i - 1];
      assert After(r, front).updated == es[i - 1].at;
    }
  }

  /** How far decay moved the score before event i. */
  function Moved(r: Record, es: seq<Timed>, i: nat): real
    requires i < |es|
  {
    Abs(Refreshed(After(r, es[..i]), es[i].at).score - After(r, es[..i]).score)
  }

  /** Event by event: which gaps contribute decay, and how much. */
  lemma DecayAt(r: Record, es: seq<Timed>, i: nat)
    requires i < |es| && Forward(r.updated, es)
    ensures Moved(r, es, i) == Loss(Gap(r.updated, es, i), After(r, es[..i]).score)
  {
    UpdatedAt(r, es, i);
    LookMoves(After(r, es[..i]), es[i].at);
  }

  /** All movement by decay over the first n events. */
  function TotalDecay(r: Record, es: seq<Timed>, n: nat): real
    requires n <= |es|
  {
    if n == 0 then 0.0 else TotalDecay(r, es, n - 1) + Moved(r, es, n - 1)
  }

  lemma {:induction false} DecayIsZero(r: Record, es: seq<Timed>, n: nat)
    requires n <= |es|
    ensures TotalDecay(r, es, n) >= 0.0
    ensures TotalDecay(r, es, n) == 0.0 <==> forall i :: 0 <= i < n ==> Moved(r, es, i) == 0.0
  {
    if n > 0 { DecayIsZero(r, es, n - 1); }
  }

  /** A sequence of events decays not at all exactly when each event comes
      within a day of the one before or finds the score at the baseline. */
  lemma DecaysExactly(r: Record, es: seq<Timed>)
    requires Forward(r.updated, es)
    ensures TotalDecay(r, es, |es|) == 0.0
       <==> forall i :: 0 <= i < |es| ==> Gap(r.updated, es, i) < 1.0 || After(r, es[..i]).score == NORMAL
  {
    DecayIsZero(r, es, |es|);
    forall i | 0 <= i < |es|
      ensures Moved(r, es, i) == 0.0 <==> Gap(r.updated, es, i) < 1.0 || After(r, es[..i]).score == NORMAL
    {
      DecayAt(r, es, i);
    }
  }

  // ---- which way events move ----

  predicate Bad(e: Event) { e.Bounce? || e.SpamComplaint? || e.Blacklisted? || e.Anomaly? }

  /** A bad event never raises a score and a good one never lowers it; bad
      ones lower every score that is not at the bottom, a complaint more than
      a bounce. */
  lemma EventsMove(r: Record, e: Event, now: real)
    requires BLOCKED <= r.score <= EXCELLENT
    ensures Bad(e) ==> Applied(r, e, now).score <= r.score && (r.score > BLOCKED ==> Applied(r, e, now).score < r.score)
    ensures !Bad(e) ==> Applied(r, e, now).score >= r.score && (r.score < EXCELLENT ==> Applied(r, e, now).score > r.score)
    ensures Applied(r, SpamComplaint, now).score <= Applied(r, Bounce, now).score
  {
  }

  // ---- the warm-up ramp ----

  datatype WarmUp = WarmUp(enabled: bool, day1: nat, day7: nat, full: nat)
  {
    /** What the configuration check demands. */
    predicate Grows() { 0 < day1 <= day7 <= full }
  }

  /** The part f of the way from a to b, rounded down. */
  function Ramp(a: nat, b: nat, f: real): nat
    requires a <= b && f >= 0.0
  {
    Scaled(f, b - a);
    a + (f * ((b - a) as real)).Floor
  }

  lemma Scaled(f: real, n: nat)
    requires f >= 0.0
    ensures (f * (n as real)).Floor >= 0
    ensures f <= 1.0 ==> (f * (n as real)).Floor <= n
  {
    var x := n as real;
    ProductGrows(0.0, f, x);
    if f <= 1.0 {
      ProductGrows(f, 1.0, x);
      FloorGrows(f * x, x);
    }
  }

  lemma RampBounds(a: nat, b: nat, f: real)
    requires a <= b && 0.0 <= f <= 1.0
    ensures a <= Ramp(a, b, f) <= b
  {
    Scaled(f, b - a);
  }

  lemma RampMonotone(a: nat, b: nat, f: real, g: real)
    requires a <= b && 0.0 <= f <= g
    ensures Ramp(a, b, f) <= Ramp(a, b, g)
  {
    var n := (b - a) as real;
    ProductGrows(f, g, n);
    FloorGrows(f * n, g * n);
  }

  lemma ProductGrows(f: real, g: real, n: real)
    requires f <= g && n >= 0.0
    ensures f * n <= g * n
  {
    assert (g - f) * n >= 0.0;
  }

  lemma FloorGrows(x: real, y: real)
    requires x <= y
    ensures x.Floor <= y.Floor
  {
  }

  function DailyLimit(w: WarmUp, days: real): nat
    requires w.enabled ==> w.Grows()
  {
    if !w.enabled then 0
    else if days <= 1.0 then w.day1
    else if days >= 30.0 then w.full
    else if days <= 7.0 then Ramp(w.day1, w.day7, (days - 1.0) / 6.0)
    else Ramp(w.day7, w.full, (days - 7.0) / 23.0)
  }

  lemma Pieces(w: WarmUp, days: real)
    requires w.enabled && w.Grows()
    ensures days <= 7.0 ==> w.day1 <= DailyLimit(w, days) <= w.day7
    ensures days > 7.0 ==> w.day7 <= DailyLimit(w, days) <= w.full
  {
    if 1.0 < days <= 7.0 { RampBounds(w.day1, w.day7, (days - 1.0) / 6.0); }
    else if 7.0 < days < 30.0 { RampBounds(w.day7, w.full, (days - 7.0) / 23.0); }
  }

  /** The cap stays between Day1 and Full, meets its three anchors and never
      shrinks as the domain ages, across all pieces. */
  lemma RampIsSound(w: WarmUp, a: real, b: real)
    requires w.enabled && w.Grows() && a <= b
    ensures w.day1 <= DailyLimit(w, a) <= DailyLimit(w, b) <= w.full
    ensures DailyLimit(w, 1.0) == w.day1 && DailyLimit(w, 7.0) == w.day7 && DailyLimit(w, 30.0) == w.full
  {
    Pieces(w, a);
    Pieces(w, b);
    if 1.0 < a && b <= 7.0 {
      RampMonotone(w.day1, w.day7, (a - 1.0) / 6.0, (b - 1.0) / 6.0);
    } else if 7.0 < a && b < 30.0 {
      RampMonotone(w.day7, w.full, (a - 7.0) / 23.0, (b - 7.0) / 23.0);
    }
    WholeWeek(w);
  }

  lemma WholeWeek(w: WarmUp)
    requires w.enabled && w.Grows()
    ensures DailyLimit(w, 7.0) == w.day7
  {
    var f := (7.0 - 1.0) / 6.0;
    assert f == 1.0;
    assert f * ((w.day7 - w.day1) as real) == (w.day7 - w.day1) as real;
  }

  /** Between its anchors the cap is the straight line, rounded down. */
  lemma RampIsLinear(w: WarmUp, days: real)
    requires w.enabled && w.Grows()
    ensures 1.0 < days <= 7.0 ==>
      var line := w.day1 as real + (days - 1.0) / 6.0 * ((w.day7 - w.day1) as real);
      line - 1.0 < DailyLimit(w, days) as real <= line
    ensures 7.0 < days < 30.0 ==>
      var line := w.day7 as real + (days - 7.0) / 23.0 * ((w.full - w.day7) as real);
      line - 1.0 < DailyLimit(w, days) as real <= line
  {
  }

  // ---- every run ----

  /** The server asks the gate before it reads a message and counts the
      delivery after it; in between the message is under way, and it may be
      dropped. Other events come at any time. */
  datatype Op = Look(key: string) | Happens(key: string, event: Event) | Gate(key: string) | Count(key: string) | Drop(key: string)

  datatype Step = Step(op: Op, now: real)

  datatype World = World(records: Records, clock: real, underWay: map<string, nat>)
  {
    function UnderWay(key: string): nat { if key in underWay then underWay[key] else 0 }
  }

  predicate Allowed(r: Record, w: WarmUp, now: real)
    requires w.enabled ==> w.Grows()
  {
    !w.enabled || r.daySent < DailyLimit(w, now - r.first)
  }

  predicate Possible(w: World, op: Op) { op.Count? || op.Drop? ==> w.UnderWay(op.key) > 0 }

  function Outcome(w: World, op: Op, now: real, warm: WarmUp): World
    requires warm.enabled ==> warm.Grows()
    requires Possible(w, op)
  {
    var r := Lookup(w.records, op.key, now);
    match op
    case Look(k) => World(w.records[k := r], now, w.underWay)
    case Happens(k, e) => World(w.records[k := Applied(r, e, now)], now, w.underWay)
    case Gate(k) =>
      World(w.records[k := r], now, if Allowed(r, warm, now) then w.underWay[k := w.UnderWay(k) + 1] else w.underWay)
    case Count(k) => World(w.records[k := Applied(r, Delivered, now)], now, w.underWay[k := w.UnderWay(k) - 1])
    case Drop(k) => World(w.records, now, w.underWay[k := w.UnderWay(k) - 1])
  }

  predicate Next(warm: WarmUp, w: World, s: Step, w': World) {
    && (warm.enabled ==> warm.Grows())
    && s.now >= w.clock && Possible(w, s.op) && w' == Outcome(w, s.op, s.now, warm)
  }

  function Steps(warm: WarmUp): (World, Step, World) -> bool {
    (w: World, s: Step, w': World) => Next(warm, w, s, w')
  }

  predicate Initial(w: World) { w.records == map[] && w.underWay == map[] }

  predicate Sane(r: Record, clock: real) {
    BLOCKED <= r.score <= EXCELLENT && r.first <= r.dayFrom <= clock && r.updated <= clock
  }

  predicate Inv(w: World) { forall k :: k in w.records ==> Sane(w.records[k], w.clock) }

  lemma LookupIsSane(w: World, key: string, now: real)
    requires Inv(w) && w.clock <= now
    ensures Sane(Lookup(w.records, key, now), now)
  {
  }

  lemma StepKeeps(warm: WarmUp, w: World, s: Step, w': World)
    requires Inv(w) && Next(warm, w, s, w')
    ensures Inv(w')
  {
    LookupIsSane(w, s.op.key, s.now);
  }

  /** Scores stay in 0..100 in every run from an empty store. */
  lemma ScoresStayInRange(warm: WarmUp, ws: seq<World>, steps: seq<Step>, i: nat)
    requires IsRun(ws, steps, Steps(warm)) && i < |ws| && Initial(ws[0])
    ensures forall k :: k in ws[i].records ==> 0.0 <= ws[i].records[k].score <= 100.0
  {
    var inv := (w: World) => Inv(w);
    forall w, s, w' | inv(w) && Steps(warm)(w, s, w') ensures inv(w') { StepKeeps(warm, w, s, w'); }
    Invariant(ws, steps, Steps(warm), inv, i);
  }

  // ---- the cap on one subject ----

  /** Steps in which the subject's deliveries are counted only behind the gate
      and at most m of its messages are under way. */
  predicate GatedNext(warm: WarmUp, key: string, m: nat, w: World, s: Step, w': World) {
    Next(warm, w, s, w') && s.op != Happens(key, Delivered) && w'.UnderWay(key) <= m
  }

  function GatedSteps(warm: WarmUp, key: string, m: nat): (World, Step, World) -> bool {
    (w: World, s: Step, w': World) => GatedNext(warm, key, m, w, s, w')
  }

  ghost predicate IsGated(warm: WarmUp, key: string, m: nat, ws: seq<World>, steps: seq<Step>) {
    IsRun(ws, steps, GatedSteps(warm, key, m)) && Initial(ws[0])
  }

  predicate Within(warm: WarmUp, r: Record, clock: real, excess: int)
    requires warm.enabled && warm.Grows()
  {
    r.daySent <= DailyLimit(warm, clock - r.first) + excess
  }

  /** What is counted and what is under way together. */
  predicate Covered(warm: WarmUp, key: string, m: nat, w: World)
    requires warm.enabled && warm.Grows()
  {
    && w.UnderWay(key) <= m
    && (key !in w.records ==> w.UnderWay(key) == 0)
    && (key in w.records ==> Within(warm, w.records[key], w.clock, m as int - 1 - w.UnderWay(key)))
  }

  lemma LimitGrows(warm: WarmUp, first: real, clock: real, now: real)
    requires warm.enabled && warm.Grows() && clock <= now
    ensures 1 <= DailyLimit(warm, clock - first) <= DailyLimit(warm, now - first)
  {
    RampIsSound(warm, clock - first, now - first);
  }

  lemma CoveredLookup(warm: WarmUp, key: string, m: nat, w: World, now: real)
    requires warm.enabled && warm.Grows() && m >= 1 && Covered(warm, key, m, w) && w.clock <= now
    ensures Within(warm, Lookup(w.records, key, now), now, m as int - 1 - w.UnderWay(key))
  {
    if key in w.records {
      LimitGrows(warm, w.records[key].first, w.clock, now);
    } else {
      LimitGrows(warm, now, now, now);
    }
  }

  lemma CoverKept(warm: WarmUp, key: string, m: nat, w: World, s: Step, w': World)
    requires warm.enabled && warm.Grows() && m >= 1 && Covered(warm, key, m, w) && GatedNext(warm, key, m, w, s, w')
    ensures Covered(warm, key, m, w')
  {
    CoveredLookup(warm, key, m, w, s.now);
    if key in w.records { LimitGrows(warm, w.records[key].first, w.clock, s.now); }
  }

  /** With at most m messages under way, a subject counts at most m - 1
      deliveries in its day beyond what the ramp allows at its age. */
  lemma OvershootBound(warm: WarmUp, key: string, m: nat, ws: seq<World>, steps: seq<Step>, i: nat)
    requires warm.enabled && warm.Grows() && m >= 1
    requires IsGated(warm, key, m, ws, steps) && i < |ws| && key in ws[i].records
    ensures Within(warm, ws[i].records[key], ws[i].clock, m - 1)
  {
    var next := GatedSteps(warm, key, m);
    var inv := (w: World) => Covered(warm, key, m, w);
    forall w, s, w' | inv(w) && next(w, s, w') ensures inv(w') { CoverKept(warm, key, m, w, s, w'); }
    Invariant(ws, steps, next, inv, i);
  }

  // ---- a new day ----

  /** Whatever a subject has sent, a day after its count began it may send
      again; before that exactly while the count is below the limit. */
  lemma NextDayAllows(warm: WarmUp, r: Record, now: real)
    requires warm.enabled && warm.Grows()
    ensures now - r.dayFrom >= 1.0 ==> Refreshed(r, now).daySent == 0 && Allowed(Refreshed(r, now), warm, now)
    ensures now - r.dayFrom < 1.0 ==>
      (Allowed(Refreshed(r, now), warm, now) <==> r.daySent < DailyLimit(warm, now - r.first))
  {
    RampIsSound(warm, now - r.first, now - r.first);
  }

  // ---- the bound is reached ----

  /** The subject at the moment 0 of its first day. */
  ghost predicate At(w: World, key: string, sent: nat, flying: nat) {
    && w.clock == 0.0 && key in w.records && w.UnderWay(key) == flying
    && var r := w.records[key]; r.daySent == sent && r.first == 0.0 && r.dayFrom == 0.0 && r.updated == 0.0
  }

  ghost predicate Reaches(warm: WarmUp, key: string, m: nat, ws: seq<World>, steps: seq<Step>, sent: nat, flying: nat) {
    IsGated(warm, key, m, ws, steps) && At(ws[|ws| - 1], key, sent, flying)
  }

  lemma OneMore(warm: WarmUp, key: string, m: nat, ws: seq<World>, steps: seq<Step>, s: Step, w: World)
    requires IsGated(warm, key, m, ws, steps) && GatedNext(warm, key, m, ws[|ws| - 1], s, w)
    ensures IsGated(warm, key, m, ws + [w], steps + [s])
  {
    Extended(ws, steps, GatedSteps(warm, key, m), s, w);
  }

  lemma GatePasses(warm: WarmUp, key: string, m: nat, ws: seq<World>, steps: seq<Step>, sent: nat, flying: nat)
    returns (ws': seq<World>, steps': seq<Step>)
    requires warm.enabled && warm.Grows() && Reaches(warm, key, m, ws, steps, sent, flying)
    requires sent < warm.day1 && flying < m
    ensures Reaches(warm, key, m, ws', steps', sent, flying + 1)
  {
    var s := Step(Gate(key), 0.0);
    var w := Outcome(ws[|ws| - 1], s.op, s.now, warm);
    OneMore(warm, key, m, ws, steps, s, w);
    ws', steps' := ws + [w], steps + [s];
  }

  lemma CountComes(warm: WarmUp, key: string, m: nat, ws: seq<World>, steps: seq<Step>, sent: nat, flying: nat)
    returns (ws': seq<World>, steps': seq<Step>)
    requires warm.enabled && warm.Grows() && Reaches(warm, key, m, ws, steps, sent, flying)
    requires 1 <= flying <= m
    ensures Reaches(warm, key, m, ws', steps', sent + 1, flying - 1)
  {
    var s := Step(Count(key), 0.0);
    var w := Outcome(ws[|ws| - 1], s.op, s.now, warm);
    OneMore(warm, key, m, ws, steps, s, w);
    ws', steps' := ws + [w], steps + [s];
  }

  lemma Starts(warm: WarmUp, key: string, m: nat) returns (ws: seq<World>, steps: seq<Step>)
    requires warm.enabled && warm.Grows()
    ensures Reaches(warm, key, m, ws, steps, 0, 0)
  {
    var w0, s := World(map[], 0.0, map[]), Step(Look(key), 0.0);
    var w := Outcome(w0, s.op, s.now, warm);
    assert IsGated(warm, key, m, [w0], []);
    OneMore(warm, key, m, [w0], [], s, w);
    ws, steps := [w0] + [w], [] + [s];
  }

  /** Fill the day up to one below the cap, let m messages through the gate,
      then count them: the subject ends m - 1 above its cap. */
  lemma OvershootReached(warm: WarmUp, key: string, m: nat) returns (ws: seq<World>, steps: seq<Step>)
    requires warm.enabled && warm.Grows() && m >= 1
    ensures Reaches(warm, key, m, ws, steps, warm.day1 - 1 + m, 0)
  {
    ws, steps := Starts(warm, key, m);
    for n := 0 to warm.day1 - 1
      invariant Reaches(warm, key, m, ws, steps, n, 0)
    {
      ws, steps := GatePasses(warm, key, m, ws, steps, n, 0);
      ws, steps := CountComes(warm, key, m, ws, steps, n, 1);
    }
    for f := 0 to m
      invariant Reaches(warm, key, m, ws, steps, warm.day1 - 1, f)
    {
      ws, steps := GatePasses(warm, key, m, ws, steps, warm.day1 - 1, f);
    }
    for c := 0 to m
      invariant Reaches(warm, key, m, ws, steps, warm.day1 - 1 + c, m - c)
    {
      ws, steps := CountComes(warm, key, m, ws, steps, warm.day1 - 1 + c, m - c);
    }
  }

  /** No run with at most m messages of the subject under way passes the cap. */
  ghost predicate CapHolds(warm: WarmUp, key: string, m: nat)
    requires warm.enabled && warm.Grows()
  {
    forall ws, steps :: IsGated(warm, key, m, ws, steps) ==> NeverAbove(warm, key, ws)
  }

  ghost predicate NeverAbove(warm: WarmUp, key: string, ws: seq<World>)
    requires warm.enabled && warm.Grows()
  {
    forall i :: 0 <= i < |ws| && key in ws[i].records ==> Within(warm, ws[i].records[key], ws[i].clock, 0)
  }

  lemma FewerUnderWay(warm: WarmUp, key: string, m: nat, n: nat, ws: seq<World>, steps: seq<Step>)
    requires m <= n && IsGated(warm, key, m, ws, steps)
    ensures IsGated(warm, key, n, ws, steps)
  {
    forall k {:trigger steps[k]} | 0 <= k < |steps| ensures GatedSteps(warm, key, n)(ws[k], steps[k], ws[k + 1]) {
      assert GatedSteps(warm, key, m)(ws[k], steps[k], ws[k + 1]);
    }
  }

  /** The ramp is respected in every run exactly when no second message of the
      subject passes the gate before the first is counted or dropped. */
  lemma CapExactly(warm: WarmUp, key: string, m: nat)
    requires warm.enabled && warm.Grows()
    ensures CapHolds(warm, key, m) <==> m <= 1
  {
    if m <= 1 {
      forall ws: seq<World>, steps: seq<Step> | IsGated(warm, key, m, ws, steps) ensures NeverAbove(warm, key, ws) {
        FewerUnderWay(warm, key, m, 1, ws, steps);
        forall i | 0 <= i < |ws| && key in ws[i].records ensures Within(warm, ws[i].records[key], ws[i].clock, 0) {
          OvershootBound(warm, key, 1, ws, steps, i);
        }
      }
    } else {
      var ws, steps := OvershootReached(warm, key, m);
      assert DailyLimit(warm, 0.0) == warm.day1;
      assert !Within(warm, ws[|ws| - 1].records[key], ws[|ws| - 1].clock, 0);
    }
  }

  /** A subject whose deliveries are counted without the gate, as those of
      users are, passes any cap. */
  lemma UngatedPasses(key: string)
    ensures var warm := WarmUp(true, 1, 1, 1);
      var w0 := World(map[], 0.0, map[]);
      var w1 := Outcome(w0, Happens(key, Delivered), 0.0, warm);
      var w2 := Outcome(w1, Happens(key, Delivered), 0.0, warm);
      w2.records[key].daySent == 2 && DailyLimit(warm, 0.0) == 1
  {
  }

  // ---- the store ----

  class Store {
    var records: Records

    constructor ()
      ensures records == map[]
    {
      records := map[];
    }

    method Get(key: string, now: real) returns (r: Record)
      modifies this
      ensures r == Lookup(old(records), key, now)
      ensures records == old(records)[key := r]
    {
      if key !in records {
        r := Newcomer(now);
        records := records[key := r];
        return;
      }
      r := records[key];
      var days := now - r.updated;
      if days >= 1.0 {
        if r.score < NORMAL {
          r := r.(score := Min(NORMAL, r.score + days));
        } else if r.score > NORMAL {
          r := r.(score := Max(NORMAL, r.score - days));
        }
        r := r.(updated := now);
      }
      if now - r.dayFrom >= 1.0 {
        r := r.(daySent := 0, dayFrom := now);
      }
      records := records[key := r];
    }

    method RecordEvent(key: string, e: Event, now: real) returns (score: real)
      modifies this
      ensures records == old(records)[key := Applied(Lookup(old(records), key, now), e, now)]
      ensures score == records[key].score
    {
      var r := Get(key, now);
      r := r.(score := Clamp(r.score + Delta(e)), updated := now);
      match e {
        case Delivered => r := r.(sent := r.sent + 1, daySent := r.daySent + 1);
        case Bounce => r := r.(bounced := r.bounced + 1);
        case SpamComplaint => r := r.(reported := r.reported + 1);
        case _ =>
      }
      records := records[key := r];
      return r.score;
    }

    method AllowSend(key: string, w: WarmUp, now: real) returns (ok: bool, limit: nat)
      requires w.enabled ==> w.Grows()
      modifies this
      ensures ok == Allowed(Lookup(old(records), key, now), w, now)
      ensures limit == if w.enabled then DailyLimit(w, now - Lookup(old(records), key, now).first) else 0
      ensures records == if w.enabled then old(records)[key := Lookup(old(records), key, now)] else old(records)
    {
      if !w.enabled { return true, 0; }
      var r := Get(key, now);
      limit := DailyLimit(w, now - r.first);
      RampIsSound(w, now - r.first, now - r.first);
      ok := limit == 0 || r.daySent < limit;
    }
  }
}
