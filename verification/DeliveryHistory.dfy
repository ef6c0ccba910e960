/** What became of each envelope, by what the transport answered. */
module DeliveryHistory {
  import opened QueueStore
  import opened Scheduler
  import Runs

  /** The attempt s, made in w, is of this envelope. */
  predicate Attempts(w: World, s: Step, id: string) {
    s.AttemptNext? && w.pending != [] && w.pending[0].id == id
  }

  predicate Accepted(w: World, s: Step, id: string) { Attempts(w, s, id) && s.outcome.Delivered? }

  predicate Refused(w: World, s: Step, id: string) { Attempts(w, s, id) && s.outcome.Permanent? }

  predicate Failed(w: World, s: Step, id: string) { Attempts(w, s, id) && s.outcome.Transient? }

  /** What one step may do to the records of an envelope. */
  ghost predicate Records(max: int, w: World, s: Step, w': World, id: string) {
    var l, l' := w.ledger, w'.ledger;
    && (id in l'.delivered <==> id in l.delivered || Accepted(w, s, id))
    && (Bounce(id, false) in l'.bounced <==> Bounce(id, false) in l.bounced || Refused(w, s, id))
    && (Bounce(id, true) in l'.bounced <==>
          Bounce(id, true) in l.bounced || (Failed(w, s, id) && id in l.store && l.store[id].attempts + 1 >= Limit(max)))
    && (Failed(w, s, id) ==> id in l.store)
    && (id in l.store ==> id in w.enqueued)
    && (id in l'.store ==>
          if id in l.store then l'.store[id].attempts == l.store[id].attempts + (if Failed(w, s, id) then 1 else 0)
          else id !in w.enqueued && l'.store[id].attempts == 0)
    && (id in w.enqueued ==> id in w'.enqueued)
  }

  lemma AttemptRecords(max: int, w: World, o: Outcome, w': World, id: string)
    requires w.pending != [] && Next(max, w, AttemptNext(o), w')
    requires w.pending[0].id in w.ledger.store && w.ledger.store[w.pending[0].id] == w.pending[0]
    requires id in w.ledger.store ==> id in w.enqueued
    ensures Records(max, w, AttemptNext(o), w', id)
  {
    var e := w.pending[0];
    match o
    case Paced(_) =>
    case Delivered =>
    case Permanent => BouncedMore(w.ledger.bounced, e.id, false, id);
    case Transient(_) => BouncedMore(w.ledger.bounced, e.id, true, id);
  }

  lemma BouncedMore(bs: seq<Bounce>, e: string, x: bool, id: string)
    ensures forall y :: Bounce(id, y) in bs + [Bounce(e, x)] <==> Bounce(id, y) in bs || (id == e && x == y)
  {
  }

  lemma StepRecords(max: int, w: World, s: Step, w': World, id: string)
    requires Inv(max, w) && Next(max, w, s, w')
    ensures Records(max, w, s, w', id)
  {
    match s
    case AttemptNext(o) => AttemptRecords(max, w, o, w', id);
    case Enqueue(e) =>
    case StartPass(_, _) =>
  }

  ghost predicate Recorded(max: int, ws: seq<World>, steps: seq<Step>, id: string) {
    && |ws| == |steps| + 1 && ws[0] == START
    && forall k {:trigger steps[k]} :: 0 <= k < |steps| ==> Records(max, ws[k], steps[k], ws[k + 1], id)
  }

  lemma RunRecords(max: int, ws: seq<World>, steps: seq<Step>, id: string)
    requires Run(max, ws, steps)
    ensures Recorded(max, ws, steps, id)
  {
    forall k {:trigger steps[k]} | 0 <= k < |steps| ensures Records(max, ws[k], steps[k], ws[k + 1], id) {
      RunInv(max, ws, steps, k);
      var s := steps[k];
      StepRecords(max, ws[k], s, ws[k + 1], id);
    }
  }

  // ---- delivered and refused ----

  /** Before step n, some attempt of the envelope was answered so. */
  ghost predicate Before(ws: seq<World>, steps: seq<Step>, n: nat, answered: (World, Step) -> bool)
    requires n <= |steps| <= |ws|
  {
    exists k :: 0 <= k < n && answered(ws[k], steps[k])
  }

  function AcceptedId(id: string): (World, Step) -> bool { (w: World, s: Step) => Accepted(w, s, id) }

  function RefusedId(id: string): (World, Step) -> bool { (w: World, s: Step) => Refused(w, s, id) }

  lemma BeforeStep(ws: seq<World>, steps: seq<Step>, n: nat, answered: (World, Step) -> bool)
    requires n < |steps| <= |ws|
    ensures Before(ws, steps, n + 1, answered) <==> Before(ws, steps, n, answered) || answered(ws[n], steps[n])
  {
  }

  lemma {:induction false} DeliveredRecorded(max: int, ws: seq<World>, steps: seq<Step>, n: nat, id: string)
    requires Recorded(max, ws, steps, id) && n <= |steps|
    ensures id in ws[n].ledger.delivered <==> Before(ws, steps, n, AcceptedId(id))
  {
    if n > 0 {
      DeliveredRecorded(max, ws, steps, n - 1, id);
      BeforeStep(ws, steps, n - 1, AcceptedId(id));
      assert Records(max, ws[n - 1], steps[n - 1], ws[n], id);
    }
  }

  /** In every run an envelope is counted as delivered exactly when the
      transport has accepted it. */
  lemma DeliveredExactly(max: int, ws: seq<World>, steps: seq<Step>, n: nat, id: string)
    requires Run(max, ws, steps) && n < |ws|
    ensures id in ws[n].ledger.delivered <==> Before(ws, steps, n, AcceptedId(id))
  {
    RunRecords(max, ws, steps, id);
    DeliveredRecorded(max, ws, steps, n, id);
  }

  lemma {:induction false} RefusedRecorded(max: int, ws: seq<World>, steps: seq<Step>, n: nat, id: string)
    requires Recorded(max, ws, steps, id) && n <= |steps|
    ensures Bounce(id, false) in ws[n].ledger.bounced <==> Before(ws, steps, n, RefusedId(id))
  {
    if n > 0 {
      RefusedRecorded(max, ws, steps, n - 1, id);
      BeforeStep(ws, steps, n - 1, RefusedId(id));
      assert Records(max, ws[n - 1], steps[n - 1], ws[n], id);
    }
  }

  /** It is bounced at once exactly when the transport has refused it for good. */
  lemma RefusedExactly(max: int, ws: seq<World>, steps: seq<Step>, n: nat, id: string)
    requires Run(max, ws, steps) && n < |ws|
    ensures Bounce(id, false) in ws[n].ledger.bounced <==> Before(ws, steps, n, RefusedId(id))
  {
    RunRecords(max, ws, steps, id);
    RefusedRecorded(max, ws, steps, n, id);
  }

  // ---- given up ----

  /** How many attempts of the envelope failed for the time being, before n. */
  function Failures(ws: seq<World>, steps: seq<Step>, n: nat, id: string): nat
    requires n <= |steps| && |steps| <= |ws|
  {
    if n == 0 then 0 else Failures(ws, steps, n - 1, id) + (if Failed(ws[n - 1], steps[n - 1], id) then 1 else 0)
  }

  lemma {:induction false} AttemptsAreFailures(max: int, ws: seq<World>, steps: seq<Step>, n: nat, id: string)
    requires Recorded(max, ws, steps, id) && n <= |steps|
    ensures id in ws[n].ledger.store ==> ws[n].ledger.store[id].attempts == Failures(ws, steps, n, id)
    ensures id !in ws[n].enqueued ==> Failures(ws, steps, n, id) == 0
  {
    if n > 0 {
      AttemptsAreFailures(max, ws, steps, n - 1, id);
      assert Records(max, ws[n - 1], steps[n - 1], ws[n], id);
    }
  }

  /** Step k is the failure that used up the attempts. */
  ghost predicate LastFailure(max: int, ws: seq<World>, steps: seq<Step>, k: nat, id: string)
    requires k < |steps| <= |ws|
  {
    Failed(ws[k], steps[k], id) && Failures(ws, steps, k + 1, id) == Limit(max)
  }

  ghost predicate GaveUp(max: int, ws: seq<World>, steps: seq<Step>, n: nat, id: string)
    requires n <= |steps| <= |ws|
  {
    exists k: nat :: k < n && LastFailure(max, ws, steps, k, id)
  }

  lemma GaveUpStep(max: int, ws: seq<World>, steps: seq<Step>, n: nat, id: string)
    requires n < |steps| <= |ws|
    ensures GaveUp(max, ws, steps, n + 1, id) <==> GaveUp(max, ws, steps, n, id) || LastFailure(max, ws, steps, n, id)
  {
  }

  lemma ExhaustedStep(max: int, ws: seq<World>, steps: seq<Step>, n: nat, id: string)
    requires Recorded(max, ws, steps, id) && n < |steps|
    requires id in ws[n].ledger.store ==> ws[n].ledger.store[id].attempts < Limit(max)
    ensures Bounce(id, true) in ws[n + 1].ledger.bounced <==>
      Bounce(id, true) in ws[n].ledger.bounced || LastFailure(max, ws, steps, n, id)
  {
    AttemptsAreFailures(max, ws, steps, n, id);
    assert Records(max, ws[n], steps[n], ws[n + 1], id);
  }

  lemma {:induction false} ExhaustedRecorded(max: int, ws: seq<World>, steps: seq<Step>, n: nat, id: string)
    requires Recorded(max, ws, steps, id) && n <= |steps|
    requires forall k :: 0 <= k <= |steps| && id in ws[k].ledger.store ==> ws[k].ledger.store[id].attempts < Limit(max)
    ensures Bounce(id, true) in ws[n].ledger.bounced <==> GaveUp(max, ws, steps, n, id)
  {
    if n > 0 {
      ExhaustedRecorded(max, ws, steps, n - 1, id);
      ExhaustedStep(max, ws, steps, n - 1, id);
      GaveUpStep(max, ws, steps, n - 1, id);
    }
  }

  /** It is bounced as given up exactly when its last allowed attempt failed:
      the maxAttempts-th temporary failure, paced rounds not counted. */
  lemma ExhaustedExactly(max: int, ws: seq<World>, steps: seq<Step>, n: nat, id: string)
    requires Run(max, ws, steps) && n < |ws|
    ensures Bounce(id, true) in ws[n].ledger.bounced <==> GaveUp(max, ws, steps, n, id)
  {
    RunRecords(max, ws, steps, id);
    forall k | 0 <= k <= |steps| && id in ws[k].ledger.store ensures ws[k].ledger.store[id].attempts < Limit(max) {
      RunInv(max, ws, steps, k);
    }
    ExhaustedRecorded(max, ws, steps, n, id);
  }

  // ---- the time between attempts ----

  ghost predicate PendingDue(w: World) {
    forall i :: 0 <= i < |w.pending| ==> w.pending[i].nextAttempt <= w.now
  }

  lemma StepKeepsDue(max: int, w: World, s: Step, w': World)
    requires PendingDue(w) && Next(max, w, s, w')
    ensures PendingDue(w')
  {
    if s.StartPass? {
      forall i | 0 <= i < |s.due| ensures s.due[i].nextAttempt <= s.now { assert s.due[i] in s.due; }
    }
  }

  /** No attempt comes before the envelope is due. */
  lemma AttemptIsDue(max: int, ws: seq<World>, steps: seq<Step>, k: nat, id: string)
    requires Run(max, ws, steps) && k < |steps| && Attempts(ws[k], steps[k], id)
    ensures id in ws[k].ledger.store && ws[k].pending[0] == ws[k].ledger.store[id]
    ensures ws[k].ledger.store[id].nextAttempt <= ws[k].now
  {
    RunInv(max, ws, steps, k);
    forall w, s, w' | PendingDue(w) && Next(max, w, s, w') ensures PendingDue(w') { StepKeepsDue(max, w, s, w'); }
    Runs.Invariant(ws, steps, (w: World, s: Step, w': World) => Next(max, w, s, w'), PendingDue, k);
  }

  /** What is queued under the name in w is queued so in w', nothing for nothing. */
  ghost predicate SameEntry(w: World, w': World, id: string) {
    && id in w'.enqueued
    && (id in w.ledger.store <==> id in w'.ledger.store)
    && (id in w.ledger.store ==> w'.ledger.store[id] == w.ledger.store[id])
  }

  lemma UnattemptedStep(max: int, w: World, s: Step, w': World, id: string)
    requires Inv(max, w) && Next(max, w, s, w') && id in w.enqueued && !Attempts(w, s, id)
    ensures SameEntry(w, w', id)
  {
  }

  lemma {:induction false} Unattempted(max: int, ws: seq<World>, steps: seq<Step>, i: nat, n: nat, id: string)
    requires Run(max, ws, steps) && i <= n < |ws| && id in ws[i].enqueued
    requires forall k :: i <= k < n ==> !Attempts(ws[k], steps[k], id)
    ensures SameEntry(ws[i], ws[n], id)
    decreases n - i
  {
    if i < n {
      RunInv(max, ws, steps, i);
      var s := steps[i];
      UnattemptedStep(max, ws[i], s, ws[i + 1], id);
      Unattempted(max, ws, steps, i + 1, n, id);
    }
  }

  /** How long an envelope rests after an attempt: as long as pacing said, or
      one minute after the first failure, doubling up to four hours. */
  ghost predicate Rests(o: Outcome, failures: nat, time: int) {
    match o
    case Paced(wait) => time >= wait
    case Transient(_) => failures >= 1 && time >= MINUTE * (if Pow2(failures - 1) < 240 then Pow2(failures - 1) else 240)
    case _ => false
  }

  lemma AttemptReschedules(max: int, w: World, o: Outcome, w': World, id: string, failures: nat)
    requires Next(max, w, AttemptNext(o), w') && Attempts(w, AttemptNext(o), id)
    requires id in w'.ledger.store && failures == w'.ledger.store[id].attempts
    ensures Rests(o, failures, w'.ledger.store[id].nextAttempt - w.now)
  {
    if o.Transient? { BackoffIsCapped(w.pending[0].attempts + 1); }
  }

  lemma PutOff(max: int, ws: seq<World>, steps: seq<Step>, j: nat, id: string)
    requires Run(max, ws, steps) && j < |steps| && Attempts(ws[j], steps[j], id)
    ensures id in ws[j + 1].enqueued
    ensures id in ws[j + 1].ledger.store ==>
      Rests(steps[j].outcome, Failures(ws, steps, j + 1, id), ws[j + 1].ledger.store[id].nextAttempt - ws[j].now)
  {
    RunRecords(max, ws, steps, id);
    AttemptIsDue(max, ws, steps, j, id);
    var s := steps[j];
    assert Records(max, ws[j], s, ws[j + 1], id);
    AttemptsAreFailures(max, ws, steps, j + 1, id);
    if id in ws[j + 1].ledger.store {
      AttemptReschedules(max, ws[j], s.outcome, ws[j + 1], id, Failures(ws, steps, j + 1, id));
    }
  }

  /** Between two attempts of an envelope, with none in between, lies the time
      it was put off; after a final answer there is no further attempt. */
  lemma AttemptsRest(max: int, ws: seq<World>, steps: seq<Step>, j: nat, k: nat, id: string)
    requires Run(max, ws, steps) && j < k < |steps|
    requires Attempts(ws[j], steps[j], id) && Attempts(ws[k], steps[k], id)
    requires forall i :: j < i < k ==> !Attempts(ws[i], steps[i], id)
    ensures Rests(steps[j].outcome, Failures(ws, steps, j + 1, id), ws[k].now - ws[j].now)
  {
    PutOff(max, ws, steps, j, id);
    AttemptIsDue(max, ws, steps, k, id);
    Unattempted(max, ws, steps, j + 1, k, id);
  }

  // ---- what is queued is what was enqueued ----

  ghost predicate SameLetter(a: Envelope, b: Envelope) {
    a.id == b.id && a.from == b.from && a.rcpt == b.rcpt && a.domain == b.domain && a.created == b.created
  }

  lemma StepKeepsLetter(max: int, w: World, s: Step, w': World, id: string)
    requires PendingStored(w) && Next(max, w, s, w') && id in w.enqueued && id in w'.ledger.store
    ensures id in w.ledger.store && SameLetter(w.ledger.store[id], w'.ledger.store[id])
  {
  }

  lemma LetterStep(max: int, ws: seq<World>, steps: seq<Step>, i: nat, id: string)
    requires Run(max, ws, steps) && i < |steps| && id in ws[i].enqueued
    ensures id in ws[i + 1].enqueued
    ensures id in ws[i + 1].ledger.store ==>
      id in ws[i].ledger.store && SameLetter(ws[i].ledger.store[id], ws[i + 1].ledger.store[id])
  {
    RunInv(max, ws, steps, i);
    var s := steps[i];
    if id in ws[i + 1].ledger.store { StepKeepsLetter(max, ws[i], s, ws[i + 1], id); }
  }

  /** Sender, recipient and age of an envelope never change while it is queued. */
  lemma {:induction false} LettersUnchanged(max: int, ws: seq<World>, steps: seq<Step>, i: nat, n: nat, id: string)
    requires Run(max, ws, steps) && i <= n < |ws| && id in ws[i].enqueued && id in ws[n].ledger.store
    ensures id in ws[i].ledger.store && SameLetter(ws[i].ledger.store[id], ws[n].ledger.store[id])
    decreases n - i
  {
    if i < n {
      LetterStep(max, ws, steps, i, id);
      LettersUnchanged(max, ws, steps, i + 1, n, id);
    }
  }
}
