/** The life of a claim: how long it is active, what follows it, and what an expired lease holds up. */
module LeaseLaws {
  import opened Common
  import opened QueueModel
  import opened QueueSpec
  import opened QueueLaws

  // ----- How a job row may change -------------------------------------------------------------

  predicate Waiting(job: Job) {
    job.state == Pending || job.state == Retry
  }

  predicate Expired(job: Job, now: Time) {
    job.state == Processing && job.lease.Some? && job.lease.value.expires <= now
  }

  lemma EnqueueChangesRow(db: Db, now: Time, input: EnqueueInput, i: nat)
    requires i < |db.jobs|
    ensures var after := EnqueueRow(db, now, input).1;
            && i < |after.jobs|
            && (after.jobs[i] == db.jobs[i] || (Waiting(db.jobs[i]) && after.jobs[i] == db.jobs[i].(priority := after.jobs[i].priority)))
  {
  }

  lemma IntakeChangesRow(db: Db, now: Time, op: IntakeOp, i: nat)
    requires i < |db.jobs|
    ensures var after := ApplyIntake(db, now, op);
            && i < |after.jobs|
            && (after.jobs[i] == db.jobs[i] || (Waiting(db.jobs[i]) && after.jobs[i] == db.jobs[i].(priority := after.jobs[i].priority)))
  {
    match op
    case EnqueueOp(input) => EnqueueChangesRow(db, now, input, i);
    case ResolveOp(document, generation, input) =>
      if document in db.candidates {
        EnqueueChangesRow(db, now, input.(priority := db.candidates[document].priority), i);
      }
    case _ =>
  }

  /** What a transaction may do to a row: promote it while it waits, claim it when it is due, act for the claim that
      holds it, retry it when it failed, or recover it when its lease expired. Otherwise the row stays. */
  predicate MayChange(db: Db, now: Time, op: Op, i: nat)
    requires i < |db.jobs|
  {
    var a := db.jobs[i];
    || (op.Intake? && Waiting(a))
    || (op.ClaimOp? && Due(a, now))
    || (op.Carried? && op.claim.job == i + 1 && ActiveLease(db, now, op.claim))
    || (op.RetryFailedOp? && op.id == i + 1 && a.state == Failed)
    || (op.RecoverOp? && Expired(a, now))
  }

  lemma RowChanges(db: Db, now: Time, op: Op, i: nat)
    requires i < |db.jobs|
    ensures var after := Apply(db, now, op);
            && i < |after.jobs|
            && (!MayChange(db, now, op, i) ==> after.jobs[i] == db.jobs[i])
            && (op.Intake? ==> after.jobs[i] == db.jobs[i].(priority := after.jobs[i].priority))
  {
    match op
    case Intake(o) => IntakeChangesRow(db, now, o, i);
    case Carried(c, OnLease(o)) => LeaseOpEvolves(db, now, c, o);
    case Carried(c, OnBatches(o)) => BatchOpEvolves(db, now, c, o);
    case Carried(c, OnFinalization(o)) => FinalOpLocal(db, now, c, o);
    case _ => SchedulerChangesRow(db, now, op, i);
  }

  lemma SchedulerChangesRow(db: Db, now: Time, op: Op, i: nat)
    requires i < |db.jobs| && (op.ClaimOp? || op.RetryFailedOp? || op.RecoverOp?)
    ensures i < |Apply(db, now, op).jobs| && (!MayChange(db, now, op, i) ==> Apply(db, now, op).jobs[i] == db.jobs[i])
  {
  }

  /** The row stays over a run if none of its transactions may change it as it is. */
  lemma {:induction false} RowStays(db: Db, events: seq<Event>, i: nat)
    requires i < |db.jobs|
    requires forall mid: Db, e | e in events && i < |mid.jobs| && mid.jobs[i] == db.jobs[i] :: !MayChange(mid, e.now, e.op, i)
    ensures i < |Run(db, events).jobs| && Run(db, events).jobs[i] == db.jobs[i]
    decreases |events|
  {
    if events != [] {
      var n := |events| - 1;
      RowStays(db, events[..n], i);
      assert events[n] in events;
      RowChanges(Run(db, events[..n]), events[n].now, events[n].op, i);
    }
  }

  // ----- Claims and leases --------------------------------------------------------------------

  /** A new claim is active exactly until its lease expires. */
  lemma ClaimIsActiveUntil(db: Db, now: Time, owner: string, duration: int, t: Time)
    requires ClaimNext(db, now, owner, duration).result.Ok? && ClaimNext(db, now, owner, duration).result.value.Some?
    ensures var tx := ClaimNext(db, now, owner, duration);
            ActiveLease(tx.db, t, tx.result.value.value) <==> t < now + duration
  {
  }

  /** No claim is ever handed out twice: a later claim of the same job carries a larger attempt. */
  lemma ClaimsAreUnique(db: Db, now: Time, owner: string, duration: int, events: seq<Event>,
                        later: Time, other: string, length: int)
    requires ClaimNext(db, now, owner, duration).result.Ok? && ClaimNext(db, now, owner, duration).result.value.Some?
    requires var mid := Run(ClaimNext(db, now, owner, duration).db, events);
             ClaimNext(mid, later, other, length).result.Ok? && ClaimNext(mid, later, other, length).result.value.Some?
    ensures var first := ClaimNext(db, now, owner, duration);
            var c, d := first.result.value.value, ClaimNext(Run(first.db, events), later, other, length).result.value.value;
            d.job == c.job ==> d.attempt > c.attempt
  {
    var first := ClaimNext(db, now, owner, duration);
    var c := first.result.value.value;
    RunEvolves(first.db, events);
    assert JobEvolves(first.db.JobAt(c.job), Run(first.db, events).JobAt(c.job));
  }

  /** After a retry was scheduled the job is not due before its time, and due from then on. */
  lemma RetryIsDueFrom(db: Db, now: Time, c: Claim, availableAt: Time, d: Diagnostic, t: Time)
    requires ScheduleRetry(db, now, c, availableAt, d).result.Ok?
    ensures var after := ScheduleRetry(db, now, c, availableAt, d).db;
            Gone(after, c) && (Due(after.JobAt(c.job), t) <==> t >= availableAt) && availableAt > now
  {
  }

  /** A released job is due at once. */
  lemma ReleasedIsDue(db: Db, now: Time, c: Claim, t: Time)
    requires Release(db, now, c).result == Ok(true)
    ensures var after := Release(db, now, c).db; Gone(after, c) && (Due(after.JobAt(c.job), t) <==> t >= now)
  {
  }

  /** Recovery ends exactly the expired leases; what is still processing afterwards has a live lease. */
  lemma RecoveryIsExact(db: Db, now: Time, i: nat)
    requires i < |db.jobs| && RowOk(db.jobs[i])
    ensures var a, b := db.jobs[i], RecoverExpired(db, now).jobs[i];
            && (b != a <==> a.state == Processing && a.lease.value.expires <= now)
            && (b != a ==> Due(b, now) && b.attempts == a.attempts)
            && (b.state == Processing ==> b.lease.value.expires > now)
  {
  }

  /** Only the row of the claim may differ, and no other table. */
  ghost predicate OnlyRow(a: Db, b: Db, id: int) {
    && b == a.(jobs := b.jobs) && |b.jobs| == |a.jobs|
    && forall i | 0 <= i < |a.jobs| && i != id - 1 :: b.jobs[i] == a.jobs[i]
  }

  /** A renewal is granted exactly to the holder of an unexpired lease; the claim is then active until the new
      expiry, and nothing else has changed. A refused one changes nothing. */
  lemma RenewalExactly(db: Db, now: Time, c: Claim, duration: int, t: Time)
    ensures var tx := RenewLease(db, now, c, duration);
            && (tx.result.Ok? <==> c.Valid() && duration > 0 && ActiveLease(db, now, c))
            && (tx.result.Ok? ==> OnlyRow(db, tx.db, c.job) && (ActiveLease(tx.db, t, c) <==> t < now + duration))
            && (tx.result.Err? ==> tx.db == db)
  {
  }

  /** Until the lease expires nobody else can end the claim: whatever others do, it stays active. */
  lemma ClaimSurvivesOthers(db: Db, c: Claim, events: seq<Event>, t: Time)
    requires Holds(db, c)
    requires forall e | e in events :: e.now < db.JobAt(c.job).lease.value.expires && !Carries(e.op, c)
    ensures ActiveLease(Run(db, events), t, c) <==> t < db.JobAt(c.job).lease.value.expires
  {
    RowStays(db, events, c.job - 1);
  }

  /** A retry is granted exactly to an active claim with a valid diagnostic and a time in the future; then the job
      waits: over every run whose clocks stay before that time it is not claimed, and its claim is gone. */
  lemma {:induction false} RetryWaits(db: Db, now: Time, c: Claim, availableAt: Time, d: Diagnostic, events: seq<Event>)
    requires forall e | e in events :: e.now < availableAt
    ensures var tx := ScheduleRetry(db, now, c, availableAt, d);
            && (tx.result.Ok? <==> c.Valid() && d.Valid() && availableAt > now && ActiveLease(db, now, c))
            && (tx.result.Err? ==> tx.db == db)
            && (tx.result.Ok? ==>
                  && c.job <= |Run(tx.db, events).jobs|
                  && SameButPriority(tx.db.jobs[c.job - 1], Run(tx.db, events).jobs[c.job - 1])
                  && Run(tx.db, events).jobs[c.job - 1].state == Retry)
  {
    var tx := ScheduleRetry(db, now, c, availableAt, d);
    if tx.result.Ok? {
      WaitsUntilDue(tx.db, events, c.job - 1);
    }
  }

  predicate SameButPriority(a: Job, b: Job) {
    b == a.(priority := b.priority)
  }

  lemma {:induction false} WaitsUntilDue(db: Db, events: seq<Event>, i: nat)
    requires i < |db.jobs| && db.jobs[i].state == Retry && db.jobs[i].lease.None?
    requires forall e | e in events :: e.now < db.jobs[i].availableAt
    ensures i < |Run(db, events).jobs| && SameButPriority(db.jobs[i], Run(db, events).jobs[i])
    decreases |events|
  {
    if events != [] {
      var n := |events| - 1;
      WaitsUntilDue(db, events[..n], i);
      assert events[n] in events;
      RowChanges(Run(db, events[..n]), events[n].now, events[n].op, i);
    }
  }

  /** A release ends exactly an active claim, answers whether it did, and touches nothing else. */
  lemma ReleaseExactly(db: Db, now: Time, c: Claim)
    requires c.Valid()
    ensures var tx := Release(db, now, c);
            && tx.result == Ok(ActiveLease(db, now, c)) && OnlyRow(db, tx.db, c.job) && !ActiveLease(tx.db, now, c)
            && (tx.result == Ok(false) ==> tx.db == db)
  {
  }

  /** A job is completed exactly by an active claim, and then its row never changes again, over any run. */
  lemma CompletedForEver(db: Db, now: Time, c: Claim, events: seq<Event>)
    ensures var tx := Complete(db, now, c);
            && (tx.result.Ok? <==> c.Valid() && ActiveLease(db, now, c))
            && (tx.result.Err? ==> tx.db == db)
            && (tx.result.Ok? ==> OnlyRow(db, tx.db, c.job) && tx.db.JobAt(c.job).state == Completed
                                  && Run(tx.db, events).HasJob(c.job) && Run(tx.db, events).JobAt(c.job) == tx.db.JobAt(c.job))
  {
    var tx := Complete(db, now, c);
    if tx.result.Ok? {
      RowStays(tx.db, events, c.job - 1);
    }
  }

  /** A job is failed exactly by an active claim with a valid diagnostic, and stays failed with it over every run in
      which no operator retries it. */
  lemma FailedUntilRetried(db: Db, now: Time, c: Claim, d: Diagnostic, events: seq<Event>)
    requires forall e | e in events :: !(e.op.RetryFailedOp? && e.op.id == c.job)
    ensures var tx := Fail(db, now, c, d);
            && (tx.result.Ok? <==> c.Valid() && d.Valid() && ActiveLease(db, now, c))
            && (tx.result.Err? ==> tx.db == db)
            && (tx.result.Ok? ==> OnlyRow(db, tx.db, c.job) && tx.db.JobAt(c.job).state == Failed && tx.db.JobAt(c.job).error == Some(d)
                                  && Run(tx.db, events).HasJob(c.job) && Run(tx.db, events).JobAt(c.job) == tx.db.JobAt(c.job))
  {
    var tx := Fail(db, now, c, d);
    if tx.result.Ok? {
      RowStays(tx.db, events, c.job - 1);
    }
  }

  /** In every reachable state a failed job can be retried for any time in the future, and nothing else can: current
      work for the same source never stands in the way. The job is then due from that time on, with its attempts. */
  lemma RetryFailedExactly(db: Db, now: Time, id: int, availableAt: Time, t: Time)
    requires JobsOk(db.jobs)
    ensures var tx := RetryFailed(db, now, id, availableAt);
            && (tx.result.Ok? <==> db.HasJob(id) && db.JobAt(id).state == Failed && availableAt > now)
            && (tx.result.Err? ==> tx.db == db)
            && (tx.result.Ok? ==> OnlyRow(db, tx.db, id) && tx.db.JobAt(id).attempts == db.JobAt(id).attempts
                                  && (Due(tx.db.JobAt(id), t) <==> t >= availableAt))
  {
    if db.HasJob(id) {
      NoOtherRow(db.jobs, id);
    }
  }

  lemma NoOtherRow(jobs: seq<Job>, id: int)
    requires JobsOk(jobs) && 1 <= id <= |jobs|
    ensures forall k: nat | k < |jobs| && k != id - 1 :: !HasSource(jobs[k], jobs[id - 1].document, jobs[id - 1].checksum)
  {
    forall k: nat | k < |jobs| && k != id - 1 ensures !HasSource(jobs[k], jobs[id - 1].document, jobs[id - 1].checksum) {
      if k < id - 1 {
        assert !HasSource(jobs[k], jobs[id - 1].document, jobs[id - 1].checksum);
      } else {
        assert !HasSource(jobs[id - 1], jobs[k].document, jobs[k].checksum);
      }
    }
  }

  /** After any run, the state of a claim that was handed out tells what became of it: processing means it holds the
      job, any other state means it is gone with that state, and none means that a later claim has taken over. */
  lemma ClaimStateTells(db: Db, now: Time, owner: string, duration: int, events: seq<Event>)
    requires ClaimNext(db, now, owner, duration).result.Ok? && ClaimNext(db, now, owner, duration).result.value.Some?
    ensures var tx := ClaimNext(db, now, owner, duration);
            var c, after := tx.result.value.value, Run(tx.db, events);
            && (ClaimState(after, c) == Some(Processing) <==> Holds(after, c))
            && (ClaimState(after, c).Some? && ClaimState(after, c).value != Processing ==>
                  Gone(after, c) && after.JobAt(c.job).attempts == c.attempt && after.JobAt(c.job).state == ClaimState(after, c).value)
            && (ClaimState(after, c).None? ==> Gone(after, c) && after.JobAt(c.job).attempts > c.attempt)
  {
    var tx := ClaimNext(db, now, owner, duration);
    var c, after := tx.result.value.value, Run(tx.db, events);
    RunEvolves(tx.db, events);
    assert JobEvolves(tx.db.JobAt(c.job), after.JobAt(c.job));
    RunKeepsLeases(tx.db, events, c.job - 1);
  }

  /** A row that has a lease while it is processing always has one. */
  lemma {:induction false} RunKeepsLeases(db: Db, events: seq<Event>, i: nat)
    requires i < |db.jobs| && (db.jobs[i].state == Processing ==> db.jobs[i].lease.Some?)
    ensures i < |Run(db, events).jobs| && (Run(db, events).jobs[i].state == Processing ==> Run(db, events).jobs[i].lease.Some?)
    decreases |events|
  {
    if events != [] {
      var n := |events| - 1;
      RunKeepsLeases(db, events[..n], i);
      ApplyKeepsLease(Run(db, events[..n]), events[n].now, events[n].op, i);
    }
  }

  lemma ApplyKeepsLease(db: Db, now: Time, op: Op, i: nat)
    requires i < |db.jobs| && (db.jobs[i].state == Processing ==> db.jobs[i].lease.Some?)
    ensures i < |Apply(db, now, op).jobs| && (Apply(db, now, op).jobs[i].state == Processing ==> Apply(db, now, op).jobs[i].lease.Some?)
  {
    RowChanges(db, now, op, i);
    if op.Carried? && op.carried.OnLease? && MayChange(db, now, op, i) {
      LeaseOpKeepsLease(db, now, op.claim, op.carried.lease);
    }
  }

  lemma LeaseOpKeepsLease(db: Db, now: Time, c: Claim, op: LeaseOp)
    requires ActiveLease(db, now, c)
    ensures var after := ApplyLease(db, now, c, op);
            after.HasJob(c.job) && (after.JobAt(c.job).state == Processing ==> after.JobAt(c.job).lease.Some?)
  {
  }

  // ----- Enqueueing ---------------------------------------------------------------------------

  /** One row per source: a valid enqueue answers with the best row of the source, promotes it only while it waits, and
      appends a row exactly when there was none. Nothing else changes; an invalid one changes nothing. */
  lemma EnqueueExactly(db: Db, now: Time, input: EnqueueInput)
    ensures var tx := Enqueue(db, now, input);
            && (tx.result.Ok? <==> input.Valid()) && (tx.result.Err? ==> tx.db == db)
            && (tx.result.Ok? ==>
                  var (id, created) := tx.result.value;
                  && tx.db.HasJob(id) && HasSource(tx.db.JobAt(id), input.document, input.checksum)
                  && (created <==> forall i | 0 <= i < |db.jobs| :: !HasSource(db.jobs[i], input.document, input.checksum))
                  && tx.db == db.(jobs := tx.db.jobs) && |tx.db.jobs| == |db.jobs| + (if created then 1 else 0)
                  && (forall i | 0 <= i < |db.jobs| && i != id - 1 :: tx.db.jobs[i] == db.jobs[i])
                  && (created ==> tx.db.JobAt(id).state == Pending && tx.db.JobAt(id).priority == input.priority)
                  && (!created ==> IsAnswer(db, id, input) && PromotedBy(db.JobAt(id), tx.db.JobAt(id), input.priority)))
  {
  }

  /** The row is better than every other row of the source. */
  ghost predicate IsAnswer(db: Db, id: int, input: EnqueueInput) {
    && db.HasJob(id) && HasSource(db.JobAt(id), input.document, input.checksum)
    && forall i: nat | i < |db.jobs| && i != id - 1 && HasSource(db.jobs[i], input.document, input.checksum) :: Better(db.jobs, id - 1, i)
  }

  predicate PromotedBy(a: Job, b: Job, priority: int) {
    b == if Waiting(a) then a.(priority := Max(a.priority, priority)) else a
  }

  /** Over all runs the same source keeps its row: enqueueing it again answers with the same id and creates nothing. */
  lemma SameSourceSameRow(db: Db, now: Time, input: EnqueueInput, events: seq<Event>, later: Time, again: EnqueueInput)
    requires JobsOk(db.jobs) && input.Valid() && again.Valid()
    requires again.document == input.document && again.checksum == input.checksum
    ensures var first := Enqueue(db, now, input);
            Enqueue(Run(first.db, events), later, again).result == Ok((first.result.value.0, false))
  {
    var first := Enqueue(db, now, input);
    var id := first.result.value.0;
    EnqueueExactly(db, now, input);
    EnqueueKeepsJobsOk(db, now, input);
    RunKeepsJobsOk(first.db, events);
    SourceStays(first.db, events, id);
    FoundAgain(Run(first.db, events), later, again, id);
  }

  lemma SourceStays(db: Db, events: seq<Event>, id: int)
    requires db.HasJob(id)
    ensures Run(db, events).HasJob(id) && HasSource(Run(db, events).JobAt(id), db.JobAt(id).document, db.JobAt(id).checksum)
  {
    RunEvolves(db, events);
    assert JobEvolves(db.JobAt(id), Run(db, events).JobAt(id));
  }

  lemma FoundAgain(db: Db, now: Time, input: EnqueueInput, id: int)
    requires JobsOk(db.jobs) && input.Valid() && db.HasJob(id) && HasSource(db.JobAt(id), input.document, input.checksum)
    ensures Enqueue(db, now, input).result == Ok((id, false))
  {
    NoOtherRow(db.jobs, id);
    assert FindSource(db.jobs, input.document, input.checksum, |db.jobs|) == Some(id);
  }

  lemma {:induction false} RunKeepsJobsOk(db: Db, events: seq<Event>)
    requires JobsOk(db.jobs)
    ensures JobsOk(Run(db, events).jobs)
    decreases |events|
  {
    if events != [] {
      var n := |events| - 1;
      RunKeepsJobsOk(db, events[..n]);
      ApplyKeepsJobsOk(Run(db, events[..n]), events[n].now, events[n].op);
    }
  }

  // ----- What an expired lease holds up -------------------------------------------------------

  /** Recovery runs at startup only: until then an expired lease keeps every other job from being claimed. */
  lemma ExpiredLeaseBlocksClaims(db: Db, events: seq<Event>, i: nat, t: Time, owner: string, duration: int)
    requires i < |db.jobs|
    requires forall e | e in events :: Expired(db.jobs[i], e.now) && !e.op.RecoverOp?
    requires Expired(db.jobs[i], t) && !Blank(owner) && duration > 0
    ensures i < |Run(db, events).jobs| && Run(db, events).jobs[i] == db.jobs[i]
    ensures ClaimNext(Run(db, events), t, owner, duration).result == Ok(None)
  {
    RowStays(db, events, i);
  }
}
