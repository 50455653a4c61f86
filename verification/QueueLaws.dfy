/** What every queue transaction keeps, over whole runs. */
module QueueLaws {
  import opened Common
  import opened QueueModel
  import opened QueueSpec

  // ----- How tables may evolve ----------------------------------------------------------------

  ghost predicate JobEvolves(a: Job, b: Job) {
    && b.document == a.document && b.checksum == a.checksum && b.createdAt == a.createdAt
    && b.model == a.model && b.promptVersion == a.promptVersion
    && b.priority >= a.priority
    && b.attempts >= a.attempts
    && (a.state == Completed ==> b == a)
    && (b.attempts == a.attempts && b.state == Processing ==> a.state == Processing && OwnerOf(a) == OwnerOf(b))
  }

  function OwnerOf(j: Job): Option<string> {
    if j.lease.Some? then Some(j.lease.value.owner) else None
  }

  ghost predicate BatchEvolves(a: Batch, b: Batch) {
    && b.range == a.range && b.dpi == a.dpi && b.format == a.format
    && (a.text.Some? ==> b.text == a.text)
  }

  ghost predicate BatchesEvolve(a: seq<Batch>, b: seq<Batch>) {
    a == [] || (|a| == |b| && forall i | 0 <= i < |a| :: BatchEvolves(a[i], b[i]))
  }

  function StageRank(s: Stage): nat {
    match s
    case NotStarted => 0
    case ContentUpdated => 1
    case CompleteTagAdded => 2
    case FailedTagRemoved => 3
    case MetadataDispatched => 4
    case FailurePending => 1
    case FailureTagAdded => 2
  }

  predicate OnFailurePath(s: Stage) {
    s == FailurePending || s == FailureTagAdded
  }

  /** `to` is reachable from `from` by valid transitions. */
  predicate StageLeq(from: Stage, to: Stage) {
    from == to || from == NotStarted || (StageRank(from) <= StageRank(to) && OnFailurePath(from) == OnFailurePath(to) && to != NotStarted)
  }

  ghost predicate JobsEvolve(a: seq<Job>, b: seq<Job>) {
    |a| <= |b| && forall i | 0 <= i < |a| :: JobEvolves(a[i], b[i])
  }

  ghost predicate BatchTableEvolves(a: Db, b: Db) {
    forall id :: BatchesEvolve(a.BatchesOf(id), b.BatchesOf(id))
  }

  ghost predicate StageTableEvolves(a: Db, b: Db) {
    forall id :: StageLeq(a.StageOf(id), b.StageOf(id))
  }

  ghost predicate ControlTableEvolves(a: Db, b: Db) {
    forall id ::
      && (a.DispatchOf(id) == Confirmed ==> b.DispatchOf(id) == Confirmed)
      && (a.FailureOf(id).Some? ==> b.FailureOf(id).Some?)
  }

  /** The relation between the tables now and the tables any number of transactions later. */
  ghost predicate Evolves(a: Db, b: Db) {
    JobsEvolve(a.jobs, b.jobs) && BatchTableEvolves(a, b) && StageTableEvolves(a, b) && ControlTableEvolves(a, b)
  }

  lemma EvolvesTransitive(a: Db, b: Db, c: Db)
    requires Evolves(a, b) && Evolves(b, c)
    ensures Evolves(a, c)
  {
    forall i | 0 <= i < |a.jobs| ensures JobEvolves(a.jobs[i], c.jobs[i]) {
      assert JobEvolves(a.jobs[i], b.jobs[i]) && JobEvolves(b.jobs[i], c.jobs[i]);
    }
    forall id ensures BatchesEvolve(a.BatchesOf(id), c.BatchesOf(id)) {
      var x, y, z := a.BatchesOf(id), b.BatchesOf(id), c.BatchesOf(id);
      assert BatchesEvolve(x, y) && BatchesEvolve(y, z);
      forall i | x != [] && 0 <= i < |x| ensures BatchEvolves(x[i], z[i]) {
        assert BatchEvolves(x[i], y[i]) && BatchEvolves(y[i], z[i]);
      }
    }
    forall id ensures StageLeq(a.StageOf(id), c.StageOf(id)) {
      assert StageLeq(a.StageOf(id), b.StageOf(id)) && StageLeq(b.StageOf(id), c.StageOf(id));
    }
  }

  lemma EvolvesReflexive(a: Db)
    ensures Evolves(a, a)
  {
  }

  lemma EnqueueRowKeeps(db: Db, now: Time, input: EnqueueInput)
    ensures var after := EnqueueRow(db, now, input).1;
            after == db.(jobs := after.jobs) && JobsEvolve(db.jobs, after.jobs)
  {
  }

  lemma JobsOnlyEvolve(db: Db, after: Db)
    requires after == db.(jobs := after.jobs, candidates := after.candidates) && JobsEvolve(db.jobs, after.jobs)
    ensures Evolves(db, after)
  {
  }

  lemma ResolveKeeps(db: Db, now: Time, document: int, generation: int, input: EnqueueInput)
    ensures var after := ResolveCandidate(db, now, document, generation, input).db;
            after == db.(jobs := after.jobs, candidates := after.candidates) && JobsEvolve(db.jobs, after.jobs)
  {
    if document in db.candidates {
      EnqueueRowKeeps(db, now, input.(priority := db.candidates[document].priority));
    }
  }

  lemma IntakeKeeps(db: Db, now: Time, op: IntakeOp)
    ensures var after := ApplyIntake(db, now, op);
            after == db.(jobs := after.jobs, candidates := after.candidates) && JobsEvolve(db.jobs, after.jobs)
  {
    match op
    case EnqueueOp(input) => EnqueueRowKeeps(db, now, input);
    case ResolveOp(document, generation, input) => ResolveKeeps(db, now, document, generation, input);
    case _ =>
  }

  lemma IntakeEvolves(db: Db, now: Time, op: IntakeOp)
    ensures Evolves(db, ApplyIntake(db, now, op))
    ensures ApplyIntake(db, now, op) == db.(jobs := ApplyIntake(db, now, op).jobs, candidates := ApplyIntake(db, now, op).candidates)
  {
    IntakeKeeps(db, now, op);
    JobsOnlyEvolve(db, ApplyIntake(db, now, op));
  }

  /** A lease transaction rewrites at most the job row of its claim. */
  lemma LeaseOpEvolves(db: Db, now: Time, c: Claim, op: LeaseOp)
    ensures var after := ApplyLease(db, now, c, op);
            && (after == db || (ActiveLease(db, now, c) && JobEvolves(db.JobAt(c.job), after.jobs[c.job - 1])
                                && after == db.WithJob(c.job, after.jobs[c.job - 1])))
            && Evolves(db, after)
  {
  }

  lemma RowsEvolve(db: Db, id: int, rows: seq<Batch>)
    requires BatchesEvolve(db.BatchesOf(id), rows)
    ensures Evolves(db, db.(batches := db.batches[id := rows]))
  {
  }

  lemma EnsureEvolves(db: Db, now: Time, c: Claim, plan: seq<PageRange>, dpi: int, format: string)
    ensures var after := EnsureBatches(db, now, c, plan, dpi, format).db;
            after == db.(batches := after.batches) && (after == db || ActiveLease(db, now, c)) && Evolves(db, after)
  {
    if db.BatchesOf(c.job) == [] {
      RowsEvolve(db, c.job, PlannedRows(plan, dpi, format));
    }
  }

  lemma CheckpointEvolves(db: Db, now: Time, c: Claim, range: PageRange, dpi: int, format: string, text: string)
    ensures var after := CheckpointBatch(db, now, c, range, dpi, format, text).db;
            after == db.(batches := after.batches) && (after == db || ActiveLease(db, now, c)) && Evolves(db, after)
  {
    var rows := db.BatchesOf(c.job);
    var i := FindBatch(rows, range, dpi, format);
    if i < |rows| && rows[i].text.None? {
      RowsEvolve(db, c.job, rows[i := rows[i].(text := Some(text))]);
    }
  }

  lemma BatchOpEvolves(db: Db, now: Time, c: Claim, op: BatchOp)
    ensures var after := ApplyBatch(db, now, c, op);
            && after == db.(batches := after.batches)
            && (after == db || ActiveLease(db, now, c))
            && Evolves(db, after)
  {
    match op
    case EnsureOp(plan, dpi, format) => EnsureEvolves(db, now, c, plan, dpi, format);
    case CheckpointOp(range, dpi, format, text) => CheckpointEvolves(db, now, c, range, dpi, format, text);
  }

  /** A finalization transaction touches the stage and control row of its claim's job, and nothing else. */
  lemma FinalOpLocal(db: Db, now: Time, c: Claim, op: FinalOp)
    ensures var after := ApplyFinal(db, now, c, op);
            && after == db.(stages := after.stages, controls := after.controls)
            && (after == db || ActiveLease(db, now, c))
            && after.stages == (if c.job in after.stages then db.stages[c.job := after.stages[c.job]] else db.stages)
            && after.controls == (if c.job in after.controls then db.controls[c.job := after.controls[c.job]] else db.controls)
            && StageLeq(db.StageOf(c.job), after.StageOf(c.job))
            && (db.DispatchOf(c.job) == Confirmed ==> after.DispatchOf(c.job) == Confirmed)
            && (db.FailureOf(c.job).Some? ==> after.FailureOf(c.job).Some?)
            && ((db.FailureOf(c.job).Some? ==> OnFailurePath(db.StageOf(c.job)))
                ==> (after.FailureOf(c.job).Some? ==> OnFailurePath(after.StageOf(c.job))))
  {
  }

  lemma FinalOpEvolves(db: Db, now: Time, c: Claim, op: FinalOp)
    ensures Evolves(db, ApplyFinal(db, now, c, op))
  {
    FinalOpLocal(db, now, c, op);
    var after := ApplyFinal(db, now, c, op);
    forall id ensures StageLeq(db.StageOf(id), after.StageOf(id)) {
    }
    forall id
      ensures db.DispatchOf(id) == Confirmed ==> after.DispatchOf(id) == Confirmed
      ensures db.FailureOf(id).Some? ==> after.FailureOf(id).Some?
    {
    }
  }

  lemma JobRowsEvolve(db: Db, jobs: seq<Job>)
    requires JobsEvolve(db.jobs, jobs)
    ensures Evolves(db, db.(jobs := jobs))
  {
  }

  lemma ClaimNextEvolves(db: Db, now: Time, owner: string, duration: int)
    ensures var after := ClaimNext(db, now, owner, duration).db; after == db.(jobs := after.jobs) && JobsEvolve(db.jobs, after.jobs)
  {
  }

  lemma RetryFailedEvolves(db: Db, now: Time, id: int, availableAt: Time)
    ensures var after := RetryFailed(db, now, id, availableAt).db; after == db.(jobs := after.jobs) && JobsEvolve(db.jobs, after.jobs)
  {
  }

  lemma RecoverEvolves(db: Db, now: Time)
    ensures var after := RecoverExpired(db, now); after == db.(jobs := after.jobs) && JobsEvolve(db.jobs, after.jobs)
  {
  }

  lemma SchedulerOpEvolves(db: Db, now: Time, op: Op)
    requires op.ClaimOp? || op.RetryFailedOp? || op.RecoverOp?
    ensures var after := Apply(db, now, op); after == db.(jobs := after.jobs) && Evolves(db, after)
  {
    match op {
      case ClaimOp(owner, duration) => ClaimNextEvolves(db, now, owner, duration);
      case RetryFailedOp(id, availableAt) => RetryFailedEvolves(db, now, id, availableAt);
      case RecoverOp => RecoverEvolves(db, now);
    }
    JobRowsEvolve(db, Apply(db, now, op).jobs);
  }

  lemma ApplyEvolves(db: Db, now: Time, op: Op)
    ensures Evolves(db, Apply(db, now, op))
  {
    match op
    case Intake(o) => IntakeEvolves(db, now, o);
    case Carried(c, OnLease(o)) => LeaseOpEvolves(db, now, c, o);
    case Carried(c, OnBatches(o)) => BatchOpEvolves(db, now, c, o);
    case Carried(c, OnFinalization(o)) => FinalOpEvolves(db, now, c, o);
    case _ => SchedulerOpEvolves(db, now, op);
  }

  /** Over every run: priorities never drop, completed rows are final, completed batches are
      write-once, stages only move forward, and a confirmed dispatch stays confirmed. */
  lemma {:induction false} RunEvolves(db: Db, events: seq<Event>)
    ensures Evolves(db, Run(db, events))
    decreases |events|
  {
    if events != [] {
      var n := |events| - 1;
      RunEvolves(db, events[..n]);
      ApplyEvolves(Run(db, events[..n]), events[n].now, events[n].op);
      EvolvesTransitive(db, Run(db, events[..n]), Run(db, events));
    }
  }

  // ----- Claim fencing ------------------------------------------------------------------------

  /** The claim generation is over: its job has reached the attempt, and the claim does not hold it. */
  predicate Gone(db: Db, c: Claim) {
    db.HasJob(c.job) && db.JobAt(c.job).attempts >= c.attempt && !Holds(db, c)
  }

  predicate Carries(op: Op, c: Claim) {
    op.Carried? && op.claim == c
  }

  lemma GoneIsStable(a: Db, b: Db, c: Claim)
    requires Gone(a, c) && Evolves(a, b)
    ensures Gone(b, c)
  {
    assert JobEvolves(a.JobAt(c.job), b.JobAt(c.job));
  }

  /** A claim handed out by ClaimNext holds its job, and ever after either still holds it or is gone. */
  lemma ClaimHoldsUntilGone(db: Db, now: Time, owner: string, duration: int, events: seq<Event>)
    requires ClaimNext(db, now, owner, duration).result.Ok?
    requires ClaimNext(db, now, owner, duration).result.value.Some?
    ensures var t := ClaimNext(db, now, owner, duration);
            var c := t.result.value.value;
            && Holds(t.db, c) && !Holds(db, c)
            && (Holds(Run(t.db, events), c) <==> !Gone(Run(t.db, events), c))
  {
    var t := ClaimNext(db, now, owner, duration);
    var c := t.result.value.value;
    RunEvolves(t.db, events);
    assert JobEvolves(t.db.JobAt(c.job), Run(t.db, events).JobAt(c.job));
  }

  lemma StaleClaimDoesNothing(db: Db, now: Time, c: Claim, op: CarriedOp)
    requires !ActiveLease(db, now, c)
    ensures ApplyCarried(db, now, c, op) == db
  {
    match op
    case OnLease(o) => LeaseOpEvolves(db, now, c, o);
    case OnBatches(o) => BatchOpEvolves(db, now, c, o);
    case OnFinalization(o) => FinalOpLocal(db, now, c, o);
  }

  /** Fencing for ever: once a claim is gone, no later transaction that carries it changes anything. */
  lemma ClaimFencedForEver(db: Db, c: Claim, events: seq<Event>, k: nat)
    requires Gone(db, c)
    requires k < |events| && Carries(events[k].op, c)
    ensures Gone(Run(db, events[..k]), c)
    ensures Run(db, events[..k + 1]) == Run(db, events[..k])
  {
    var at := Run(db, events[..k]);
    RunEvolves(db, events[..k]);
    GoneIsStable(db, at, c);
    assert events[..k + 1][..k] == events[..k];
    StaleClaimDoesNothing(at, events[k].now, c, events[k].op.carried);
  }

  ghost predicate AdmittedAs(db: Db, c: Claim, token: string, now: Time) {
    && c.job in db.controls && db.controls[c.job].admission.Some?
    && var a := db.controls[c.job].admission.value;
    && a.token == token && a.attempt == c.attempt && a.owner == c.owner && a.expires > now
  }

  predicate SetsAdmission(op: Op, token: string) {
    && op.Carried? && op.carried.OnFinalization?
    && (op.carried.final.AcquireOp? || op.carried.final.RenewAdmissionOp?)
    && op.carried.final.token == token
  }

  lemma FinalOpKeepsAdmission(db: Db, now: Time, d: Claim, op: FinalOp, c: Claim, token: string)
    requires Holds(db, c) && AdmittedAs(db, c, token, now)
    ensures var after := ApplyFinal(db, now, d, op);
            && c.job in after.controls && after.controls[c.job].admission.Some?
            && var a, b := db.controls[c.job].admission.value, after.controls[c.job].admission.value;
            && b.token == a.token && b.attempt == a.attempt && b.owner == a.owner
            && (b == a || (d == c && (op.AcquireOp? || op.RenewAdmissionOp?) && op.token == token))
  {
    FinalOpLocal(db, now, d, op);
    if d.job == c.job && ActiveLease(db, now, d) {
      assert d == c;
    }
  }

  /** While the claim holds its job, no transaction displaces its unexpired admission by another token:
      afterwards the same admission is there, and only its own token may have moved the expiry. */
  lemma AdmissionNotDisplaced(db: Db, now: Time, op: Op, c: Claim, token: string)
    requires Holds(db, c) && AdmittedAs(db, c, token, now)
    ensures var after := Apply(db, now, op);
            && c.job in after.controls && after.controls[c.job].admission.Some?
            && var a, b := db.controls[c.job].admission.value, after.controls[c.job].admission.value;
            && b.token == a.token && b.attempt == a.attempt && b.owner == a.owner
            && (b == a || SetsAdmission(op, token))
  {
    match op
    case Intake(o) => IntakeEvolves(db, now, o);
    case Carried(d, OnLease(o)) => LeaseOpEvolves(db, now, d, o);
    case Carried(d, OnBatches(o)) => BatchOpEvolves(db, now, d, o);
    case Carried(d, OnFinalization(o)) => FinalOpKeepsAdmission(db, now, d, o, c, token);
    case _ => SchedulerOpEvolves(db, now, op);
  }

  // ----- Uniqueness ---------------------------------------------------------------------------

  ghost predicate RowOk(j: Job) {
    && j.attempts >= 0
    && (j.lease.Some? <==> j.state == Processing)
  }

  /** At most one job is processing, and no two rows have the same document and checksum. */
  ghost predicate JobsOk(jobs: seq<Job>) {
    && (forall i | 0 <= i < |jobs| :: RowOk(jobs[i]))
    && (forall i, k | 0 <= i < k < |jobs| :: !(jobs[i].state == Processing && jobs[k].state == Processing))
    && (forall i, k | 0 <= i < k < |jobs| :: !HasSource(jobs[i], jobs[k].document, jobs[k].checksum))
  }

  /** A recorded terminal failure and a success stage exclude each other. */
  ghost predicate FinalizationsOk(db: Db) {
    forall id :: db.FailureOf(id).Some? ==> OnFailurePath(db.StageOf(id))
  }

  ghost predicate QueueInv(db: Db) {
    JobsOk(db.jobs) && FinalizationsOk(db)
  }

  lemma JobChangeKeepsJobsOk(jobs: seq<Job>, i: int, job: Job)
    requires JobsOk(jobs) && 0 <= i < |jobs|
    requires HasSource(job, jobs[i].document, jobs[i].checksum) && RowOk(job)
    requires job.state == Processing ==> jobs[i].state == Processing || forall k | 0 <= k < |jobs| :: jobs[k].state != Processing
    ensures JobsOk(jobs[i := job])
  {
  }

  lemma NewJobKeepsJobsOk(jobs: seq<Job>, job: Job)
    requires JobsOk(jobs) && RowOk(job) && job.state != Processing
    requires forall i | 0 <= i < |jobs| :: !HasSource(jobs[i], job.document, job.checksum)
    ensures JobsOk(jobs + [job])
  {
  }

  lemma EnqueueKeepsJobsOk(db: Db, now: Time, input: EnqueueInput)
    requires JobsOk(db.jobs)
    ensures JobsOk(EnqueueRow(db, now, input).1.jobs)
  {
    var found := FindSource(db.jobs, input.document, input.checksum, |db.jobs|);
    if found.Some? {
      var job := db.JobAt(found.value);
      JobChangeKeepsJobsOk(db.jobs, found.value - 1, job.(priority := input.priority));
    } else {
      NewJobKeepsJobsOk(db.jobs, EnqueueRow(db, now, input).1.jobs[|db.jobs|]);
    }
  }

  /** The claim's row after one of the transactions that end or extend the claim. */
  lemma ClaimRowKeepsJobsOk(db: Db, now: Time, c: Claim, job: Job)
    requires JobsOk(db.jobs) && ActiveLease(db, now, c) && RowOk(job)
    requires HasSource(job, db.JobAt(c.job).document, db.JobAt(c.job).checksum)
    ensures JobsOk(db.WithJob(c.job, job).jobs)
  {
    JobChangeKeepsJobsOk(db.jobs, c.job - 1, job);
  }

  lemma RecoverKeepsJobsOk(db: Db, now: Time)
    requires JobsOk(db.jobs)
    ensures JobsOk(RecoverExpired(db, now).jobs)
  {
  }

  lemma IntakeKeepsJobsOk(db: Db, now: Time, op: IntakeOp)
    requires JobsOk(db.jobs)
    ensures JobsOk(ApplyIntake(db, now, op).jobs)
  {
    match op
    case EnqueueOp(input) => EnqueueKeepsJobsOk(db, now, input);
    case ResolveOp(document, _, input) =>
      if document in db.candidates {
        EnqueueKeepsJobsOk(db, now, input.(priority := db.candidates[document].priority));
      }
    case _ =>
  }

  lemma LeaseOpRowOk(db: Db, now: Time, c: Claim, op: LeaseOp)
    requires ActiveLease(db, now, c) && RowOk(db.JobAt(c.job))
    ensures RowOk(ApplyLease(db, now, c, op).jobs[c.job - 1])
  {
  }

  lemma ClaimKeepsJobsOk(db: Db, now: Time, owner: string, duration: int)
    requires JobsOk(db.jobs)
    ensures JobsOk(ClaimNext(db, now, owner, duration).db.jobs)
  {
    var first := FirstDue(db.jobs, now, |db.jobs|);
    if first.Some? && NoneProcessing(db) {
      var job := db.jobs[first.value];
      JobChangeKeepsJobsOk(db.jobs, first.value,
        job.(state := Processing, attempts := job.attempts + 1, lease := Some(Lease(owner, now + duration))));
    }
  }

  lemma ApplyKeepsJobsOk(db: Db, now: Time, op: Op)
    requires JobsOk(db.jobs)
    ensures JobsOk(Apply(db, now, op).jobs)
  {
    match op
    case Intake(o) => IntakeKeepsJobsOk(db, now, o);
    case ClaimOp(owner, duration) => ClaimKeepsJobsOk(db, now, owner, duration);
    case RetryFailedOp(id, availableAt) =>
      if db.HasJob(id) {
        JobChangeKeepsJobsOk(db.jobs, id - 1, db.JobAt(id).(state := Retry, availableAt := availableAt, lease := None, error := None));
      }
    case RecoverOp => RecoverKeepsJobsOk(db, now);
    case Carried(c, OnLease(o)) =>
      LeaseOpEvolves(db, now, c, o);
      if ActiveLease(db, now, c) {
        LeaseOpRowOk(db, now, c, o);
        ClaimRowKeepsJobsOk(db, now, c, ApplyLease(db, now, c, o).jobs[c.job - 1]);
      }
    case Carried(c, OnBatches(o)) => BatchOpEvolves(db, now, c, o);
    case Carried(c, OnFinalization(o)) => FinalOpLocal(db, now, c, o);
  }

  lemma FinalOpKeepsOk(db: Db, now: Time, c: Claim, op: FinalOp)
    requires FinalizationsOk(db)
    ensures FinalizationsOk(ApplyFinal(db, now, c, op))
  {
    FinalOpLocal(db, now, c, op);
    var after := ApplyFinal(db, now, c, op);
    forall id | after.FailureOf(id).Some? ensures OnFailurePath(after.StageOf(id)) {
      assert db.FailureOf(c.job).Some? ==> OnFailurePath(db.StageOf(c.job));
      assert id != c.job ==> db.FailureOf(id) == after.FailureOf(id) && db.StageOf(id) == after.StageOf(id);
    }
  }

  lemma ApplyKeepsFinalizationsOk(db: Db, now: Time, op: Op)
    requires FinalizationsOk(db)
    ensures FinalizationsOk(Apply(db, now, op))
  {
    var after := Apply(db, now, op);
    assert after.stages == db.stages && after.controls == db.controls ==> FinalizationsOk(after) by {
      assert forall id :: after.stages == db.stages && after.controls == db.controls ==>
        after.FailureOf(id) == db.FailureOf(id) && after.StageOf(id) == db.StageOf(id);
    }
    match op
    case Intake(o) => IntakeEvolves(db, now, o);
    case Carried(c, OnLease(o)) => LeaseOpEvolves(db, now, c, o);
    case Carried(c, OnBatches(o)) => BatchOpEvolves(db, now, c, o);
    case Carried(c, OnFinalization(o)) => FinalOpKeepsOk(db, now, c, o);
    case _ => SchedulerOpEvolves(db, now, op);
  }

  /** From the empty store, every run keeps the queue's uniqueness invariants. */
  lemma {:induction false} RunKeepsQueueInv(events: seq<Event>)
    ensures QueueInv(Run(EMPTY, events))
    decreases |events|
  {
    if events != [] {
      var n := |events| - 1;
      RunKeepsQueueInv(events[..n]);
      ApplyKeepsJobsOk(Run(EMPTY, events[..n]), events[n].now, events[n].op);
      ApplyKeepsFinalizationsOk(Run(EMPTY, events[..n]), events[n].now, events[n].op);
    }
  }

  /** The queue's guarantees over all runs, spelled out for any two points of a run. */
  lemma QueueUniqueness(before: seq<Event>, later: seq<Event>, i: nat, k: nat)
    requires i < |Run(EMPTY, before).jobs| && k < |Run(EMPTY, before + later).jobs|
    ensures var a, b := Run(EMPTY, before), Run(EMPTY, before + later);
            && i < |b.jobs|
            && a.jobs[i].priority <= b.jobs[i].priority
            && (a.jobs[i].state == Completed ==> b.jobs[i] == a.jobs[i])
            && (b.jobs[i].state == Processing && b.jobs[k].state == Processing ==> i == k)
            && (HasSource(b.jobs[k], a.jobs[i].document, a.jobs[i].checksum) ==> i == k)
  {
    RunConcat(EMPTY, before, later);
    RunEvolves(Run(EMPTY, before), later);
    RunKeepsQueueInv(before + later);
    assert JobEvolves(Run(EMPTY, before).jobs[i], Run(EMPTY, before + later).jobs[i]);
  }

  lemma {:induction false} RunConcat(db: Db, xs: seq<Event>, ys: seq<Event>)
    ensures Run(db, xs + ys) == Run(Run(db, xs), ys)
    decreases |ys|
  {
    if ys == [] {
      assert xs + ys == xs;
    } else {
      var n := |ys| - 1;
      RunConcat(db, xs, ys[..n]);
      assert (xs + ys)[..|xs + ys| - 1] == xs + ys[..n];
      assert (xs + ys)[|xs + ys| - 1] == ys[n];
    }
  }

  /** Claim hands out exactly the first due row, or nothing when a job is processing or none is due. */
  lemma ClaimIsFirstDue(db: Db, now: Time, owner: string, duration: int)
    requires !Blank(owner) && duration > 0
    ensures var t := ClaimNext(db, now, owner, duration);
            && t.result.Ok?
            && (t.result.value.None? <==> !NoneProcessing(db) || forall k | 0 <= k < |db.jobs| :: !Due(db.jobs[k], now))
            && (t.result.value.None? ==> t.db == db)
            && (t.result.value.Some? ==>
                  var i := t.result.value.value.job - 1;
                  && 0 <= i < |db.jobs| && Due(db.jobs[i], now)
                  && (forall k: nat | k < |db.jobs| && k != i && Due(db.jobs[k], now) :: ClaimedBefore(db.jobs, i, k))
                  && t.db.jobs[i].state == Processing && t.db.jobs[i].attempts == db.jobs[i].attempts + 1
                  && t.db.jobs[i].lease == Some(Lease(owner, now + duration))
                  && (forall k | 0 <= k < |db.jobs| && k != i :: t.db.jobs[k] == db.jobs[k]))
  {
    var first := FirstDue(db.jobs, now, |db.jobs|);
  }
}
