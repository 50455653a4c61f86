/** What each queue transaction answers and leaves behind, as a function of the tables and the clock. */
module QueueSpec {
  import opened Common
  import opened QueueModel

  datatype Error =
    | InvalidInput | StaleClaim | StaleAdmission | FinalizerActive | CheckpointChanged
    | PlanMismatch | UnplannedBatch | BatchImmutable | SuccessStarted | CurrentWorkExists | NotFailed

  datatype Tx<+T> = Tx(result: Result<T, Error>, db: Db)

  function Refuse<T>(error: Error, db: Db): Tx<T> {
    Tx(Err(error), db)
  }

  // ----- Enqueueing ---------------------------------------------------------------------------

  predicate Current(state: State) {
    state == Pending || state == Processing || state == Retry
  }

  function Rank(state: State): nat {
    if Current(state) then 0 else if state == Completed then 1 else 2
  }

  predicate HasSource(job: Job, document: int, checksum: string) {
    job.document == document && job.checksum == checksum
  }

  /** Row `i` answers for its source before row `k`: current before completed before failed, then the newer one. */
  predicate Better(jobs: seq<Job>, i: nat, k: nat)
    requires i < |jobs| && k < |jobs|
  {
    Rank(jobs[i].state) < Rank(jobs[k].state) || (Rank(jobs[i].state) == Rank(jobs[k].state) && i > k)
  }

  /** The id of the best of the first `n` rows for the source: current, then completed, then failed; then the newest. */
  function FindSource(jobs: seq<Job>, document: int, checksum: string, n: nat): (r: Option<int>)
    requires n <= |jobs|
    ensures r.Some? ==> 1 <= r.value <= n && HasSource(jobs[r.value - 1], document, checksum)
    ensures r.None? ==> forall i | 0 <= i < n :: !HasSource(jobs[i], document, checksum)
    ensures r.Some? ==> forall i: nat | i < n && i != r.value - 1 && HasSource(jobs[i], document, checksum) :: Better(jobs, r.value - 1, i)
  {
    if n == 0 then None
    else
      var best := FindSource(jobs, document, checksum, n - 1);
      if !HasSource(jobs[n - 1], document, checksum) then best
      else if best.Some? && Rank(jobs[best.value - 1].state) < Rank(jobs[n - 1].state) then best
      else Some(n)
  }

  /** The id of the row and whether the transaction created it. */
  function EnqueueRow(db: Db, now: Time, input: EnqueueInput): ((int, bool), Db) {
    match FindSource(db.jobs, input.document, input.checksum, |db.jobs|)
    case Some(id) =>
      var job := db.JobAt(id);
      if (job.state == Pending || job.state == Retry) && input.priority > job.priority
      then ((id, false), db.WithJob(id, job.(priority := input.priority)))
      else ((id, false), db)
    case None =>
      var job := Job(input.document, input.checksum, input.priority, Pending, 0, now, None,
                     input.model, input.promptVersion, None, now);
      ((|db.jobs| + 1, true), db.(jobs := db.jobs + [job]))
  }

  function Enqueue(db: Db, now: Time, input: EnqueueInput): Tx<(int, bool)> {
    if !input.Valid() then Refuse(InvalidInput, db)
    else var (answer, after) := EnqueueRow(db, now, input); Tx(Ok(answer), after)
  }

  // ----- Candidates ---------------------------------------------------------------------------

  function Max(a: int, b: int): int { if a < b then b else a }

  function EnqueueCandidate(db: Db, now: Time, document: int, priority: int): Tx<bool> {
    if document <= 0 || !ValidPriority(priority) then Refuse(InvalidInput, db)
    else if document in db.candidates then
      var c := db.candidates[document];
      var refreshed := c.(priority := Max(priority, c.priority), generation := c.generation + 1);
      Tx(Ok(false), db.(candidates := db.candidates[document := refreshed]))
    else
      Tx(Ok(true), db.(candidates := db.candidates[document := Candidate(priority, 1, now)]))
  }

  /** The candidate of `d` is resolved before that of `e`: higher priority, then older, then smaller document. */
  predicate ResolvedBefore(candidates: map<int, Candidate>, d: int, e: int)
    requires d in candidates && e in candidates
  {
    var x, y := candidates[d], candidates[e];
    || x.priority > y.priority
    || (x.priority == y.priority && (x.createdAt < y.createdAt || (x.createdAt == y.createdAt && d < e)))
  }

  predicate IsNextCandidate(candidates: map<int, Candidate>, d: int) {
    d in candidates && forall e | e in candidates && e != d :: ResolvedBefore(candidates, d, e)
  }

  predicate CandidateIs(db: Db, document: int, generation: int) {
    document in db.candidates && db.candidates[document].generation == generation
  }

  function DiscardCandidate(db: Db, document: int, generation: int): Tx<bool> {
    if document <= 0 || generation <= 0 then Refuse(InvalidInput, db)
    else if !CandidateIs(db, document, generation) then Tx(Ok(false), db)
    else Tx(Ok(true), db.(candidates := db.candidates - {document}))
  }

  /** Some answer when the candidate was resolved, none when it had been refreshed or removed. */
  function ResolveCandidate(db: Db, now: Time, document: int, generation: int, input: EnqueueInput): Tx<Option<(int, bool)>> {
    if document <= 0 || generation <= 0 || input.document != document || !input.Valid() then Refuse(InvalidInput, db)
    else if !CandidateIs(db, document, generation) then Tx(Ok(None), db)
    else
      var (answer, after) := EnqueueRow(db, now, input.(priority := db.candidates[document].priority));
      Tx(Ok(Some(answer)), after.(candidates := after.candidates - {document}))
  }

  // ----- Claims and leases --------------------------------------------------------------------

  predicate Due(job: Job, now: Time) {
    (job.state == Pending || job.state == Retry) && job.availableAt <= now
  }

  /** Row `i` is claimed before row `k`: higher priority, then older, then smaller id. */
  predicate ClaimedBefore(jobs: seq<Job>, i: nat, k: nat)
    requires i < |jobs| && k < |jobs|
  {
    || jobs[i].priority > jobs[k].priority
    || (jobs[i].priority == jobs[k].priority
        && (jobs[i].createdAt < jobs[k].createdAt || (jobs[i].createdAt == jobs[k].createdAt && i < k)))
  }

  function FirstDue(jobs: seq<Job>, now: Time, n: nat): (r: Option<nat>)
    requires n <= |jobs|
    ensures r.Some? ==> r.value < n && Due(jobs[r.value], now)
    ensures r.Some? ==> forall k: nat | k < n && Due(jobs[k], now) && k != r.value :: ClaimedBefore(jobs, r.value, k)
    ensures r.None? ==> forall k: nat | k < n :: !Due(jobs[k], now)
  {
    if n == 0 then None
    else
      var best := FirstDue(jobs, now, n - 1);
      if !Due(jobs[n - 1], now) then best
      else if best.Some? && ClaimedBefore(jobs, best.value, n - 1) then best
      else Some(n - 1)
  }

  predicate NoneProcessing(db: Db) {
    forall i | 0 <= i < |db.jobs| :: db.jobs[i].state != Processing
  }

  function ClaimNext(db: Db, now: Time, owner: string, duration: int): Tx<Option<Claim>> {
    if Blank(owner) || duration <= 0 then Refuse(InvalidInput, db)
    else if !NoneProcessing(db) then Tx(Ok(None), db)
    else
      match FirstDue(db.jobs, now, |db.jobs|)
      case None => Tx(Ok(None), db)
      case Some(i) =>
        var job := db.jobs[i];
        var claimed := job.(state := Processing, attempts := job.attempts + 1, lease := Some(Lease(owner, now + duration)));
        Tx(Ok(Some(Claim(i + 1, job.attempts + 1, owner))), db.WithJob(i + 1, claimed))
  }

  /** The claim still holds its job, whatever the clock says. */
  predicate Holds(db: Db, c: Claim) {
    && db.HasJob(c.job)
    && var job := db.JobAt(c.job);
    && job.state == Processing && job.attempts == c.attempt
    && job.lease.Some? && job.lease.value.owner == c.owner
  }

  predicate ActiveLease(db: Db, now: Time, c: Claim) {
    Holds(db, c) && db.JobAt(c.job).lease.value.expires > now
  }

  /** Guards a transaction that a claim carries: invalid input first, then the lease. */
  function LeaseError(db: Db, now: Time, c: Claim, inputOk: bool): Option<Error> {
    if !c.Valid() || !inputOk then Some(InvalidInput)
    else if !ActiveLease(db, now, c) then Some(StaleClaim)
    else None
  }

  function RenewLease(db: Db, now: Time, c: Claim, duration: int): Tx<()> {
    match LeaseError(db, now, c, duration > 0)
    case Some(e) => Refuse(e, db)
    case None => Tx(Ok(()), db.WithJob(c.job, db.JobAt(c.job).(lease := Some(Lease(c.owner, now + duration)))))
  }

  /** The claim gives its job up: the lease is cleared and the row moves to `state`. */
  function Leave(db: Db, c: Claim, state: State, availableAt: Time, error: Option<Diagnostic>): Db
    requires db.HasJob(c.job)
  {
    db.WithJob(c.job, db.JobAt(c.job).(state := state, availableAt := availableAt, lease := None, error := error))
  }

  function ScheduleRetry(db: Db, now: Time, c: Claim, availableAt: Time, d: Diagnostic): Tx<()> {
    if !c.Valid() || !d.Valid() || availableAt <= now then Refuse(InvalidInput, db)
    else if !ActiveLease(db, now, c) then Refuse(StaleClaim, db)
    else Tx(Ok(()), Leave(db, c, Retry, availableAt, Some(d)))
  }

  const SHUTTING_DOWN := Diagnostic(Internal, "service shutting down")
  const LEASE_EXPIRED := Diagnostic(Internal, "lease expired")

  function Release(db: Db, now: Time, c: Claim): Tx<bool> {
    if !c.Valid() then Refuse(InvalidInput, db)
    else if !ActiveLease(db, now, c) then Tx(Ok(false), db)
    else Tx(Ok(true), Leave(db, c, Retry, now, Some(SHUTTING_DOWN)))
  }

  function Complete(db: Db, now: Time, c: Claim): Tx<()> {
    match LeaseError(db, now, c, true)
    case Some(e) => Refuse(e, db)
    case None => Tx(Ok(()), Leave(db, c, Completed, db.JobAt(c.job).availableAt, None))
  }

  function Fail(db: Db, now: Time, c: Claim, d: Diagnostic): Tx<()> {
    match LeaseError(db, now, c, d.Valid())
    case Some(e) => Refuse(e, db)
    case None => Tx(Ok(()), Leave(db, c, Failed, db.JobAt(c.job).availableAt, Some(d)))
  }

  predicate ConflictsWith(db: Db, id: int, k: nat)
    requires db.HasJob(id) && k < |db.jobs|
  {
    k != id - 1 && HasSource(db.jobs[k], db.JobAt(id).document, db.JobAt(id).checksum) && Current(db.jobs[k].state)
  }

  function RetryFailed(db: Db, now: Time, id: int, availableAt: Time): Tx<()> {
    if id <= 0 || availableAt <= now then Refuse(InvalidInput, db)
    else if db.HasJob(id) && exists k: nat | k < |db.jobs| :: ConflictsWith(db, id, k) then Refuse(CurrentWorkExists, db)
    else if !db.HasJob(id) || db.JobAt(id).state != Failed then Refuse(NotFailed, db)
    else Tx(Ok(()), db.WithJob(id, db.JobAt(id).(state := Retry, availableAt := availableAt, lease := None, error := None)))
  }

  function Recovered(job: Job, now: Time): Job {
    if job.state == Processing && job.lease.Some? && job.lease.value.expires <= now
    then job.(state := Retry, availableAt := now, lease := None, error := Some(LEASE_EXPIRED))
    else job
  }

  function RecoverExpired(db: Db, now: Time): (after: Db)
    ensures |after.jobs| == |db.jobs|
    ensures forall i | 0 <= i < |db.jobs| :: after.jobs[i] == Recovered(db.jobs[i], now)
  {
    db.(jobs := seq(|db.jobs|, i requires 0 <= i < |db.jobs| => Recovered(db.jobs[i], now)))
  }

  /** The state of the job under exactly this claim generation. */
  function ClaimState(db: Db, c: Claim): Option<State> {
    if !db.HasJob(c.job) || db.JobAt(c.job).attempts != c.attempt then None
    else
      var job := db.JobAt(c.job);
      if job.state == Processing && (job.lease.None? || job.lease.value.owner != c.owner) then None
      else Some(job.state)
  }

  // ----- Batch plan and checkpoints -----------------------------------------------------------

  predicate ValidRange(r: PageRange) {
    r.first > 0 && r.last >= r.first && r.last - r.first < 5
  }

  predicate ValidPlan(plan: seq<PageRange>) {
    && plan != [] && plan[0].first == 1
    && (forall i | 0 <= i < |plan| :: ValidRange(plan[i]))
    && (forall i | 0 < i < |plan| :: plan[i].first == plan[i - 1].last + 1)
  }

  predicate SamePlan(rows: seq<Batch>, plan: seq<PageRange>, dpi: int, format: string) {
    |rows| == |plan| && forall i | 0 <= i < |rows| :: rows[i].range == plan[i] && rows[i].dpi == dpi && rows[i].format == format
  }

  function PlannedRows(plan: seq<PageRange>, dpi: int, format: string): seq<Batch> {
    seq(|plan|, i requires 0 <= i < |plan| => Batch(plan[i], dpi, format, None))
  }

  function EnsureBatches(db: Db, now: Time, c: Claim, plan: seq<PageRange>, dpi: int, format: string): Tx<seq<Batch>> {
    match LeaseError(db, now, c, ValidPlan(plan) && dpi > 0 && !Blank(format))
    case Some(e) => Refuse(e, db)
    case None =>
      var rows := db.BatchesOf(c.job);
      if rows == [] then
        var planned := PlannedRows(plan, dpi, format);
        Tx(Ok(planned), db.(batches := db.batches[c.job := planned]))
      else if SamePlan(rows, plan, dpi, format) then Tx(Ok(rows), db)
      else Refuse(PlanMismatch, db)
  }

  function ListBatches(db: Db, now: Time, c: Claim): Result<seq<Batch>, Error> {
    match LeaseError(db, now, c, true)
    case Some(e) => Err(e)
    case None => Ok(db.BatchesOf(c.job))
  }

  /** The row of the range, or `|rows|`. */
  function FindBatch(rows: seq<Batch>, r: PageRange, dpi: int, format: string): (i: nat)
    ensures i <= |rows|
    ensures i < |rows| ==> rows[i].range == r && rows[i].dpi == dpi && rows[i].format == format
    ensures forall k | 0 <= k < i :: !(rows[k].range == r && rows[k].dpi == dpi && rows[k].format == format)
  {
    if rows == [] || (rows[0].range == r && rows[0].dpi == dpi && rows[0].format == format) then 0
    else 1 + FindBatch(rows[1..], r, dpi, format)
  }

  function CheckpointBatch(db: Db, now: Time, c: Claim, r: PageRange, dpi: int, format: string, text: string): Tx<()> {
    match LeaseError(db, now, c, ValidRange(r) && dpi > 0 && !Blank(format) && !Blank(text))
    case Some(e) => Refuse(e, db)
    case None =>
      var rows := db.BatchesOf(c.job);
      var i := FindBatch(rows, r, dpi, format);
      if i == |rows| then Refuse(UnplannedBatch, db)
      else if rows[i].text.Some? then
        if rows[i].text.value == text then Tx(Ok(()), db) else Refuse(BatchImmutable, db)
      else Tx(Ok(()), db.(batches := db.batches[c.job := rows[i := rows[i].(text := Some(text))]]))
  }

  // ----- Finalization -------------------------------------------------------------------------

  predicate Admitted(db: Db, now: Time, c: Claim, token: string) {
    && ActiveLease(db, now, c)
    && c.job in db.controls
    && var a := db.controls[c.job].admission;
    && a.Some? && a.value.attempt == c.attempt && a.value.owner == c.owner
    && a.value.token == token && a.value.expires > now
  }

  function AdmissionError(db: Db, now: Time, c: Claim, token: string, inputOk: bool): Option<Error> {
    match LeaseError(db, now, c, !Blank(token) && inputOk)
    case Some(e) => Some(e)
    case None => if Admitted(db, now, c, token) then None else Some(StaleAdmission)
  }

  function ControlOf(db: Db, job: int): Control {
    if job in db.controls then db.controls[job] else Control(None, Unreserved, None)
  }

  /** A new admission may take over when there is none, it expired, or it belongs to another claim. */
  predicate AdmissionFree(a: Option<Admission>, now: Time, c: Claim, token: string) {
    a.None? || a.value.expires <= now || a.value.attempt != c.attempt || a.value.owner != c.owner || a.value.token == token
  }

  function AcquireFinalization(db: Db, now: Time, c: Claim, token: string, duration: int): Tx<FinalizationState> {
    match LeaseError(db, now, c, !Blank(token) && duration > 0)
    case Some(e) => Refuse(e, db)
    case None =>
      var control := ControlOf(db, c.job);
      if !AdmissionFree(control.admission, now, c, token) then Refuse(FinalizerActive, db)
      else
        var admitted := control.(admission := Some(Admission(token, c.attempt, c.owner, now + duration)));
        Tx(Ok(FinalizationState(db.StageOf(c.job), control.dispatch, control.failure)),
           db.(stages := db.stages[c.job := db.StageOf(c.job)], controls := db.controls[c.job := admitted]))
  }

  function RenewFinalization(db: Db, now: Time, c: Claim, token: string, duration: int): Tx<()> {
    match AdmissionError(db, now, c, token, duration > 0)
    case Some(e) => Refuse(e, db)
    case None =>
      var control := db.controls[c.job];
      Tx(Ok(()), db.(controls := db.controls[c.job := control.(admission := Some(Admission(token, c.attempt, c.owner, now + duration)))]))
  }

  predicate ValidTransition(from: Stage, to: Stage) {
    match from
    case NotStarted => to == ContentUpdated || to == FailurePending
    case ContentUpdated => to == CompleteTagAdded
    case CompleteTagAdded => to == FailedTagRemoved
    case FailedTagRemoved => to == MetadataDispatched
    case FailurePending => to == FailureTagAdded
    case _ => false
  }

  function Advance(db: Db, now: Time, c: Claim, token: string, from: Stage, to: Stage): Tx<()> {
    match AdmissionError(db, now, c, token, ValidTransition(from, to))
    case Some(e) => Refuse(e, db)
    case None =>
      if db.StageOf(c.job) == to then Tx(Ok(()), db)
      else if db.StageOf(c.job) != from then Refuse(CheckpointChanged, db)
      else Tx(Ok(()), db.(stages := db.stages[c.job := to]))
  }

  predicate ValidDispatchTransition(from: Dispatch, to: Dispatch) {
    (from == Unreserved && to == Reserved) || (from == Reserved && (to == Unreserved || to == Confirmed))
  }

  function SetDispatch(db: Db, now: Time, c: Claim, token: string, from: Dispatch, to: Dispatch): Tx<()> {
    match AdmissionError(db, now, c, token, ValidDispatchTransition(from, to))
    case Some(e) => Refuse(e, db)
    case None =>
      if db.DispatchOf(c.job) != from then Refuse(StaleClaim, db)
      else Tx(Ok(()), db.(controls := db.controls[c.job := db.controls[c.job].(dispatch := to)]))
  }

  function RecordFailure(db: Db, now: Time, c: Claim, d: Diagnostic): Tx<()> {
    match LeaseError(db, now, c, d.Valid())
    case Some(e) => Refuse(e, db)
    case None =>
      var stage := db.StageOf(c.job);
      if stage != NotStarted && stage != FailurePending then Refuse(SuccessStarted, db)
      else
        Tx(Ok(()), db.(stages := db.stages[c.job := FailurePending],
                       controls := db.controls[c.job := ControlOf(db, c.job).(failure := Some(d))]))
  }

  function TerminalFailure(db: Db, now: Time, c: Claim): Result<Option<Diagnostic>, Error> {
    match LeaseError(db, now, c, true)
    case Some(e) => Err(e)
    case None => Ok(db.FailureOf(c.job))
  }

  function SuccessStartedTx(db: Db, now: Time, c: Claim): Result<bool, Error> {
    match LeaseError(db, now, c, true)
    case Some(e) => Err(e)
    case None => Ok(db.StageOf(c.job) !in {NotStarted, FailurePending, FailureTagAdded})
  }

  // ----- All writing transactions -------------------------------------------------------------

  datatype IntakeOp =
    | EnqueueOp(input: EnqueueInput)
    | CandidateOp(document: int, priority: int)
    | DiscardOp(document: int, generation: int)
    | ResolveOp(document: int, generation: int, input: EnqueueInput)

  datatype LeaseOp =
    | RenewLeaseOp(duration: int)
    | ScheduleRetryOp(availableAt: Time, d: Diagnostic)
    | ReleaseOp
    | CompleteOp
    | FailOp(d: Diagnostic)

  datatype BatchOp =
    | EnsureOp(plan: seq<PageRange>, dpi: int, format: string)
    | CheckpointOp(range: PageRange, dpi: int, format: string, text: string)

  datatype FinalOp =
    | AcquireOp(token: string, duration: int)
    | RenewAdmissionOp(token: string, duration: int)
    | AdvanceOp(token: string, fromStage: Stage, toStage: Stage)
    | SetDispatchOp(token: string, fromDispatch: Dispatch, toDispatch: Dispatch)
    | RecordFailureOp(d: Diagnostic)

  datatype CarriedOp = OnLease(lease: LeaseOp) | OnBatches(batch: BatchOp) | OnFinalization(final: FinalOp)

  datatype Op =
    | Intake(intake: IntakeOp)
    | ClaimOp(owner: string, duration: int)
    | RetryFailedOp(id: int, availableAt: Time)
    | RecoverOp
    | Carried(claim: Claim, carried: CarriedOp)

  function ApplyIntake(db: Db, now: Time, op: IntakeOp): Db {
    match op
    case EnqueueOp(input) => Enqueue(db, now, input).db
    case CandidateOp(document, priority) => EnqueueCandidate(db, now, document, priority).db
    case DiscardOp(document, generation) => DiscardCandidate(db, document, generation).db
    case ResolveOp(document, generation, input) => ResolveCandidate(db, now, document, generation, input).db
  }

  function ApplyLease(db: Db, now: Time, c: Claim, op: LeaseOp): Db {
    match op
    case RenewLeaseOp(duration) => RenewLease(db, now, c, duration).db
    case ScheduleRetryOp(availableAt, d) => ScheduleRetry(db, now, c, availableAt, d).db
    case ReleaseOp => Release(db, now, c).db
    case CompleteOp => Complete(db, now, c).db
    case FailOp(d) => Fail(db, now, c, d).db
  }

  function ApplyBatch(db: Db, now: Time, c: Claim, op: BatchOp): Db {
    match op
    case EnsureOp(plan, dpi, format) => EnsureBatches(db, now, c, plan, dpi, format).db
    case CheckpointOp(r, dpi, format, text) => CheckpointBatch(db, now, c, r, dpi, format, text).db
  }

  function ApplyFinal(db: Db, now: Time, c: Claim, op: FinalOp): Db {
    match op
    case AcquireOp(token, duration) => AcquireFinalization(db, now, c, token, duration).db
    case RenewAdmissionOp(token, duration) => RenewFinalization(db, now, c, token, duration).db
    case AdvanceOp(token, from, to) => Advance(db, now, c, token, from, to).db
    case SetDispatchOp(token, from, to) => SetDispatch(db, now, c, token, from, to).db
    case RecordFailureOp(d) => RecordFailure(db, now, c, d).db
  }

  function ApplyCarried(db: Db, now: Time, c: Claim, op: CarriedOp): Db {
    match op
    case OnLease(o) => ApplyLease(db, now, c, o)
    case OnBatches(o) => ApplyBatch(db, now, c, o)
    case OnFinalization(o) => ApplyFinal(db, now, c, o)
  }

  function Apply(db: Db, now: Time, op: Op): Db {
    match op
    case Intake(o) => ApplyIntake(db, now, o)
    case ClaimOp(owner, duration) => ClaimNext(db, now, owner, duration).db
    case RetryFailedOp(id, availableAt) => RetryFailed(db, now, id, availableAt).db
    case RecoverOp => RecoverExpired(db, now)
    case Carried(c, o) => ApplyCarried(db, now, c, o)
  }

  /** A transaction with the clock reading it used. */
  datatype Event = Event(now: Time, op: Op)

  function Run(db: Db, events: seq<Event>): Db
    decreases |events|
  {
    if events == [] then db
    else
      var last := events[|events| - 1];
      Apply(Run(db, events[..|events| - 1]), last.now, last.op)
  }
}
