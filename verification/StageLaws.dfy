/** The transactions of checkpoints and finalization: what each grants and refuses, and what follows over every run. */
module StageLaws {
  import opened Common
  import opened QueueModel
  import opened QueueSpec
  import opened QueueLaws

  // ----- Checkpoints --------------------------------------------------------------------------

  /** The range is planned for the job and completed with the text. */
  predicate Stored(db: Db, job: int, r: PageRange, dpi: int, format: string, text: string) {
    var rows := db.BatchesOf(job);
    var i := FindBatch(rows, r, dpi, format);
    i < |rows| && rows[i].text == Some(text)
  }

  /** A checkpoint is granted exactly to an active claim for a planned range that is open or holds the same text;
      afterwards the text is stored, and the other rows of the plan are as before. A refused one changes nothing. */
  lemma CheckpointExactly(db: Db, now: Time, c: Claim, r: PageRange, dpi: int, format: string, text: string)
    ensures var tx := CheckpointBatch(db, now, c, r, dpi, format, text);
            var rows, i := db.BatchesOf(c.job), FindBatch(db.BatchesOf(c.job), r, dpi, format);
            && (tx.result.Ok? <==>
                  && c.Valid() && ValidRange(r) && dpi > 0 && !Blank(format) && !Blank(text) && ActiveLease(db, now, c)
                  && i < |rows| && (rows[i].text.None? || rows[i].text == Some(text)))
            && (tx.result.Ok? ==> Stored(tx.db, c.job, r, dpi, format, text))
            && (tx.result.Err? ==> tx.db == db)
            && tx.db == db.(batches := tx.db.batches)
            && |tx.db.BatchesOf(c.job)| == |rows| && (forall k | 0 <= k < |rows| && k != i :: tx.db.BatchesOf(c.job)[k] == rows[k])
  {
    var rows := db.BatchesOf(c.job);
    var i := FindBatch(rows, r, dpi, format);
    if i < |rows| {
      SameFind(rows, rows[i := rows[i].(text := Some(text))], r, dpi, format);
    }
  }

  lemma SameFind(a: seq<Batch>, b: seq<Batch>, r: PageRange, dpi: int, format: string)
    requires |a| == |b| && forall i | 0 <= i < |a| :: b[i] == a[i].(text := b[i].text)
    ensures FindBatch(b, r, dpi, format) == FindBatch(a, r, dpi, format)
  {
    var i, k := FindBatch(a, r, dpi, format), FindBatch(b, r, dpi, format);
    if i < |a| {
      assert b[i] == a[i].(text := b[i].text);
    }
    if k < |b| {
      assert b[k] == a[k].(text := b[k].text);
    }
  }

  lemma StoredStays(a: Db, b: Db, job: int, r: PageRange, dpi: int, format: string, text: string)
    requires Evolves(a, b) && Stored(a, job, r, dpi, format, text)
    ensures Stored(b, job, r, dpi, format, text)
  {
    var x, y := a.BatchesOf(job), b.BatchesOf(job);
    assert BatchesEvolve(x, y);
    forall i | 0 <= i < |x| ensures y[i] == x[i].(text := y[i].text) {
      assert BatchEvolves(x[i], y[i]);
    }
    var i := FindBatch(x, r, dpi, format);
    assert BatchEvolves(x[i], y[i]);
    SameFind(x, y, r, dpi, format);
  }

  /** Written once: after a checkpoint was granted, over every run any other text for the range is refused, whoever
      writes it. */
  lemma CheckpointOnce(db: Db, now: Time, c: Claim, r: PageRange, dpi: int, format: string, text: string,
                       events: seq<Event>, later: Time, d: Claim, other: string)
    requires CheckpointBatch(db, now, c, r, dpi, format, text).result.Ok? && d.job == c.job
    ensures var after := Run(CheckpointBatch(db, now, c, r, dpi, format, text).db, events);
            && Stored(after, c.job, r, dpi, format, text)
            && (CheckpointBatch(after, later, d, r, dpi, format, other).result.Ok? ==> other == text)
  {
    var first := CheckpointBatch(db, now, c, r, dpi, format, text);
    CheckpointExactly(db, now, c, r, dpi, format, text);
    RunEvolves(first.db, events);
    StoredStays(first.db, Run(first.db, events), c.job, r, dpi, format, text);
    CheckpointExactly(Run(first.db, events), later, d, r, dpi, format, other);
  }

  // ----- Admission ----------------------------------------------------------------------------

  /** Admission is granted exactly to an active claim when no other token of the same claim holds an unexpired one;
      it gives what is durable and leaves it as it is, and lasts until its expiry or that of the lease. */
  lemma AdmissionExactly(db: Db, now: Time, c: Claim, token: string, duration: int, t: Time)
    ensures var tx := AcquireFinalization(db, now, c, token, duration);
            && (tx.result.Ok? <==> c.Valid() && !Blank(token) && duration > 0 && ActiveLease(db, now, c)
                                   && !exists other :: other != token && Admitted(db, now, c, other))
            && (tx.result.Ok? ==>
                  && tx.result.value == FinalizationState(db.StageOf(c.job), db.DispatchOf(c.job), db.FailureOf(c.job))
                  && tx.result.value == FinalizationState(tx.db.StageOf(c.job), tx.db.DispatchOf(c.job), tx.db.FailureOf(c.job))
                  && tx.db.jobs == db.jobs && (Admitted(tx.db, t, c, token) <==> ActiveLease(db, t, c) && t < now + duration))
            && (tx.result.Err? ==> tx.db == db)
  {
    var a := ControlOf(db, c.job).admission;
    if ActiveLease(db, now, c) && !AdmissionFree(a, now, c, token) {
      assert Admitted(db, now, c, a.value.token);
    }
  }

  /** Only the holder of an admission extends it, and to exactly the new expiry. */
  lemma AdmissionRenewal(db: Db, now: Time, c: Claim, token: string, duration: int, t: Time)
    ensures var tx := RenewFinalization(db, now, c, token, duration);
            && (tx.result.Ok? <==> c.Valid() && !Blank(token) && duration > 0 && Admitted(db, now, c, token))
            && (tx.result.Ok? ==>
                  && tx.db == db.(controls := tx.db.controls)
                  && tx.db.DispatchOf(c.job) == db.DispatchOf(c.job) && tx.db.FailureOf(c.job) == db.FailureOf(c.job)
                  && (Admitted(tx.db, t, c, token) <==> ActiveLease(db, t, c) && t < now + duration))
            && (tx.result.Err? ==> tx.db == db)
  {
  }

  function ExpiryOf(db: Db, job: int): Time {
    var a := ControlOf(db, job).admission;
    if a.Some? then a.value.expires else 0
  }

  ghost predicate KeepsAdmission(db: Db, c: Claim, token: string) {
    && c.job in db.controls && db.controls[c.job].admission.Some?
    && var a := db.controls[c.job].admission.value;
    && a.token == token && a.attempt == c.attempt && a.owner == c.owner
  }

  /** Before event `i` the claim still holds its job, and the clock of the event is before the expiry. */
  ghost predicate InTime(db: Db, events: seq<Event>, i: nat, c: Claim)
    requires i < |events|
  {
    Holds(Run(db, events[..i]), c) && events[i].now < ExpiryOf(Run(db, events[..i]), c.job)
  }

  /** Over a whole run whose clocks stay before the expiry the admission stays with its token, whatever others do; and
      only the own token moves the expiry. */
  lemma {:induction false} AdmissionKept(db: Db, events: seq<Event>, c: Claim, token: string)
    requires KeepsAdmission(db, c, token) && forall i | 0 <= i < |events| :: InTime(db, events, i, c)
    ensures KeepsAdmission(Run(db, events), c, token)
    ensures (forall e | e in events :: !SetsAdmission(e.op, token)) ==> ExpiryOf(Run(db, events), c.job) == ExpiryOf(db, c.job)
    decreases |events|
  {
    if events != [] {
      var n := |events| - 1;
      var init := events[..n];
      forall i | 0 <= i < n ensures InTime(db, init, i, c) {
        assert InTime(db, events, i, c) && init[..i] == events[..i];
      }
      AdmissionKept(db, init, c, token);
      assert InTime(db, events, n, c);
      AdmissionNotDisplaced(Run(db, init), events[n].now, events[n].op, c, token);
      assert events[n] in events && forall e | e in init :: e in events;
    }
  }

  // ----- Stages and dispatch ------------------------------------------------------------------

  /** A stage is left only for a valid next one, and only under admission; an advance that was made before is granted
      again without effect, and nothing but the stage of the job ever changes. */
  lemma AdvanceExactly(db: Db, now: Time, c: Claim, token: string, from: Stage, to: Stage)
    ensures var tx := Advance(db, now, c, token, from, to);
            && (tx.result.Ok? <==> c.Valid() && !Blank(token) && ValidTransition(from, to) && Admitted(db, now, c, token)
                                   && (db.StageOf(c.job) == from || db.StageOf(c.job) == to))
            && (tx.result.Ok? ==> tx.db.StageOf(c.job) == to && Advance(tx.db, now, c, token, from, to) == tx)
            && (tx.result.Err? ==> tx.db == db)
            && tx.db == db.(stages := tx.db.stages) && (forall id | id != c.job :: tx.db.StageOf(id) == db.StageOf(id))
  {
  }

  /** Stages never go back: once an advance was granted, no run brings the job back to the stage it left. */
  lemma AdvancedForEver(db: Db, now: Time, c: Claim, token: string, from: Stage, to: Stage, events: seq<Event>)
    requires Advance(db, now, c, token, from, to).result.Ok?
    ensures var after := Run(Advance(db, now, c, token, from, to).db, events); StageLeq(to, after.StageOf(c.job)) && after.StageOf(c.job) != from
  {
    AdvanceExactly(db, now, c, token, from, to);
    var first := Advance(db, now, c, token, from, to).db;
    RunEvolves(first, events);
    assert StageLeq(first.StageOf(c.job), Run(first, events).StageOf(c.job));
  }

  /** The dispatch state moves by compare and set under admission only, and nothing else with it. */
  lemma DispatchExactly(db: Db, now: Time, c: Claim, token: string, from: Dispatch, to: Dispatch)
    ensures var tx := SetDispatch(db, now, c, token, from, to);
            && (tx.result.Ok? <==> c.Valid() && !Blank(token) && ValidDispatchTransition(from, to) && Admitted(db, now, c, token)
                                   && db.DispatchOf(c.job) == from)
            && (tx.result.Ok? ==> tx.db.DispatchOf(c.job) == to && tx.db.FailureOf(c.job) == db.FailureOf(c.job)
                                  && tx.db.controls[c.job].admission == db.controls[c.job].admission)
            && (tx.result.Err? ==> tx.db == db)
            && tx.db == db.(controls := tx.db.controls) && (forall id | id != c.job :: tx.db.DispatchOf(id) == db.DispatchOf(id))
  {
  }

  predicate Resets(op: Op, job: int) {
    && op.Carried? && op.claim.job == job && op.carried.OnFinalization? && op.carried.final.SetDispatchOp?
    && op.carried.final.fromDispatch == Reserved && op.carried.final.toDispatch == Unreserved
  }

  lemma FinalOpKeepsReservation(db: Db, now: Time, c: Claim, op: FinalOp, job: int)
    requires db.DispatchOf(job) != Unreserved && !Resets(Carried(c, OnFinalization(op)), job)
    ensures ApplyFinal(db, now, c, op).DispatchOf(job) != Unreserved
  {
    if op.SetDispatchOp? {
      DispatchExactly(db, now, c, op.token, op.fromDispatch, op.toDispatch);
    } else {
      FinalOpLocal(db, now, c, op);
    }
  }

  lemma OnlyResetsUnreserve(db: Db, now: Time, op: Op, job: int)
    requires db.DispatchOf(job) != Unreserved && !Resets(op, job)
    ensures Apply(db, now, op).DispatchOf(job) != Unreserved
  {
    match op
    case Intake(o) => IntakeKeeps(db, now, o);
    case Carried(c, OnLease(o)) => LeaseOpEvolves(db, now, c, o);
    case Carried(c, OnBatches(o)) => BatchOpEvolves(db, now, c, o);
    case Carried(c, OnFinalization(o)) => FinalOpKeepsReservation(db, now, c, o, job);
    case _ => SchedulerOpEvolves(db, now, op);
  }

  lemma {:induction false} StaysReserved(db: Db, events: seq<Event>, job: int)
    requires db.DispatchOf(job) != Unreserved && forall e | e in events :: !Resets(e.op, job)
    ensures Run(db, events).DispatchOf(job) != Unreserved
    decreases |events|
  {
    if events != [] {
      var n := |events| - 1;
      StaysReserved(db, events[..n], job);
      assert events[n] in events;
      OnlyResetsUnreserve(Run(db, events[..n]), events[n].now, events[n].op, job);
    }
  }

  /** Reserved once: after a reservation no other is granted over any run without a reset, by whatever claim or token. */
  lemma ReservedOnce(db: Db, now: Time, c: Claim, token: string, events: seq<Event>, later: Time, d: Claim, other: string)
    requires SetDispatch(db, now, c, token, Unreserved, Reserved).result.Ok? && d.job == c.job
    requires forall e | e in events :: !Resets(e.op, c.job)
    ensures var after := Run(SetDispatch(db, now, c, token, Unreserved, Reserved).db, events);
            SetDispatch(after, later, d, other, Unreserved, Reserved).result.Err?
  {
    DispatchExactly(db, now, c, token, Unreserved, Reserved);
    var first := SetDispatch(db, now, c, token, Unreserved, Reserved).db;
    StaysReserved(first, events, c.job);
    DispatchExactly(Run(first, events), later, d, other, Unreserved, Reserved);
  }

  /** A failure is recorded exactly by an active claim with a valid diagnostic before any success stage; from then on,
      over every run, a failure is recorded and no success stage is ever durable. */
  lemma FailureExcludesSuccess(db: Db, now: Time, c: Claim, d: Diagnostic, events: seq<Event>)
    ensures var tx := RecordFailure(db, now, c, d);
            var after := Run(tx.db, events);
            && (tx.result.Ok? <==> c.Valid() && d.Valid() && ActiveLease(db, now, c) && db.StageOf(c.job) in {NotStarted, FailurePending})
            && (tx.result.Err? ==> tx.db == db)
            && (tx.result.Ok? ==> tx.db.FailureOf(c.job) == Some(d) && tx.db.jobs == db.jobs
                                  && after.FailureOf(c.job).Some? && OnFailurePath(after.StageOf(c.job)))
  {
    var tx := RecordFailure(db, now, c, d);
    RunEvolves(tx.db, events);
    var after := Run(tx.db, events);
    assert StageLeq(tx.db.StageOf(c.job), after.StageOf(c.job));
    assert tx.db.FailureOf(c.job).Some? ==> after.FailureOf(c.job).Some?;
  }
}
