/** The queue as the object it is: one field a table, one method a transaction. */
module Queue {
  import opened Common
  import opened QueueModel
  import S = QueueSpec

  class Queue {
    var jobs: seq<Job>
    var batches: map<int, seq<Batch>>
    var stages: map<int, Stage>
    var controls: map<int, Control>
    var candidates: map<int, Candidate>

    constructor ()
      ensures State() == EMPTY
    {
      jobs, batches, stages, controls, candidates := [], map[], map[], map[], map[];
    }

    function State(): Db
      reads this
    {
      Db(jobs, batches, stages, controls, candidates)
    }

    // ----- Enqueueing and candidates ----------------------------------------------------------

    method InsertOrPromote(now: Time, input: EnqueueInput) returns (id: int, created: bool)
      modifies `jobs
      ensures ((id, created), State()) == S.EnqueueRow(old(State()), now, input)
    {
      var found := S.FindSource(jobs, input.document, input.checksum, |jobs|);
      if found.Some? {
        id, created := found.value, false;
        var job := jobs[id - 1];
        if (job.state == Pending || job.state == Retry) && input.priority > job.priority {
          jobs := jobs[id - 1 := job.(priority := input.priority)];
        }
      } else {
        jobs := jobs + [Job(input.document, input.checksum, input.priority, Pending, 0, now, None,
                            input.model, input.promptVersion, None, now)];
        id, created := |jobs|, true;
      }
    }

    method Enqueue(now: Time, input: EnqueueInput) returns (r: Result<(int, bool), S.Error>)
      modifies `jobs
      ensures S.Tx(r, State()) == S.Enqueue(old(State()), now, input)
    {
      if !input.Valid() {
        return Err(S.InvalidInput);
      }
      var id, created := InsertOrPromote(now, input);
      r := Ok((id, created));
    }

    method EnqueueCandidate(now: Time, document: int, priority: int) returns (r: Result<bool, S.Error>)
      modifies `candidates
      ensures S.Tx(r, State()) == S.EnqueueCandidate(old(State()), now, document, priority)
    {
      if document <= 0 || !ValidPriority(priority) {
        return Err(S.InvalidInput);
      }
      if document in candidates {
        var c := candidates[document];
        candidates := candidates[document := c.(priority := S.Max(priority, c.priority), generation := c.generation + 1)];
        return Ok(false);
      }
      candidates := candidates[document := Candidate(priority, 1, now)];
      r := Ok(true);
    }

    /** The candidate that is resolved first; it stays. */
    method NextCandidate() returns (next: Option<int>)
      ensures next.None? <==> candidates == map[]
      ensures next.Some? ==> S.IsNextCandidate(candidates, next.value)
    {
      next := None;
      var left := candidates.Keys;
      while left != {}
        invariant left <= candidates.Keys
        invariant next.None? ==> left == candidates.Keys
        invariant next.Some? ==> next.value in candidates && next.value !in left
        invariant next.Some? ==> forall e | e in candidates && e !in left && e != next.value :: S.ResolvedBefore(candidates, next.value, e)
        decreases |left|
      {
        var d := Pick(left);
        left := left - {d};
        if next.None? || S.ResolvedBefore(candidates, d, next.value) {
          next := Some(d);
        }
      }
    }

    method DiscardCandidate(document: int, generation: int) returns (r: Result<bool, S.Error>)
      modifies `candidates
      ensures S.Tx(r, State()) == S.DiscardCandidate(old(State()), document, generation)
    {
      if document <= 0 || generation <= 0 {
        return Err(S.InvalidInput);
      }
      if document !in candidates || candidates[document].generation != generation {
        return Ok(false);
      }
      candidates := candidates - {document};
      r := Ok(true);
    }

    method ResolveCandidate(now: Time, document: int, generation: int, input: EnqueueInput) returns (r: Result<Option<(int, bool)>, S.Error>)
      modifies `jobs, `candidates
      ensures S.Tx(r, State()) == S.ResolveCandidate(old(State()), now, document, generation, input)
    {
      if document <= 0 || generation <= 0 || input.document != document || !input.Valid() {
        return Err(S.InvalidInput);
      }
      if document !in candidates || candidates[document].generation != generation {
        return Ok(None);
      }
      var id, created := InsertOrPromote(now, input.(priority := candidates[document].priority));
      candidates := candidates - {document};
      r := Ok(Some((id, created)));
    }

    // ----- Claims and leases ------------------------------------------------------------------

    method Claim(now: Time, owner: string, duration: int) returns (r: Result<Option<Claim>, S.Error>)
      modifies `jobs
      ensures S.Tx(r, State()) == S.ClaimNext(old(State()), now, owner, duration)
    {
      if Blank(owner) || duration <= 0 {
        return Err(S.InvalidInput);
      }
      if exists i | 0 <= i < |jobs| :: jobs[i].state == Processing {
        return Ok(None);
      }
      var first := S.FirstDue(jobs, now, |jobs|);
      if first.None? {
        return Ok(None);
      }
      var job := jobs[first.value];
      var claimed := job.(state := Processing, attempts := job.attempts + 1, lease := Some(Lease(owner, now + duration)));
      jobs := jobs[first.value := claimed];
      r := Ok(Some(QueueModel.Claim(first.value + 1, claimed.attempts, owner)));
    }

    method RequireActiveLease(now: Time, c: Claim) returns (active: bool)
      ensures active <==> S.ActiveLease(State(), now, c)
    {
      if c.job < 1 || c.job > |jobs| {
        return false;
      }
      var job := jobs[c.job - 1];
      active := job.state == Processing && job.attempts == c.attempt
        && job.lease.Some? && job.lease.value.owner == c.owner && job.lease.value.expires > now;
    }

    method RenewLease(now: Time, c: Claim, duration: int) returns (r: Result<(), S.Error>)
      modifies `jobs
      ensures S.Tx(r, State()) == S.RenewLease(old(State()), now, c, duration)
    {
      if !c.Valid() || duration <= 0 {
        return Err(S.InvalidInput);
      }
      var active := RequireActiveLease(now, c);
      if !active {
        return Err(S.StaleClaim);
      }
      jobs := jobs[c.job - 1 := jobs[c.job - 1].(lease := Some(Lease(c.owner, now + duration)))];
      r := Ok(());
    }

    method ScheduleRetry(now: Time, c: Claim, availableAt: Time, d: Diagnostic) returns (r: Result<(), S.Error>)
      modifies `jobs
      ensures S.Tx(r, State()) == S.ScheduleRetry(old(State()), now, c, availableAt, d)
    {
      if !c.Valid() || !d.Valid() {
        return Err(S.InvalidInput);
      }
      if availableAt <= now {
        return Err(S.InvalidInput);
      }
      var active := RequireActiveLease(now, c);
      if !active {
        return Err(S.StaleClaim);
      }
      jobs := jobs[c.job - 1 := jobs[c.job - 1].(state := Retry, availableAt := availableAt, lease := None, error := Some(d))];
      r := Ok(());
    }

    method Release(now: Time, c: Claim) returns (r: Result<bool, S.Error>)
      modifies `jobs
      ensures S.Tx(r, State()) == S.Release(old(State()), now, c)
    {
      if !c.Valid() {
        return Err(S.InvalidInput);
      }
      var active := RequireActiveLease(now, c);
      if active {
        jobs := jobs[c.job - 1 := jobs[c.job - 1].(state := Retry, availableAt := now, lease := None, error := Some(S.SHUTTING_DOWN))];
      }
      r := Ok(active);
    }

    method Complete(now: Time, c: Claim) returns (r: Result<(), S.Error>)
      modifies `jobs
      ensures S.Tx(r, State()) == S.Complete(old(State()), now, c)
    {
      if !c.Valid() {
        return Err(S.InvalidInput);
      }
      var active := RequireActiveLease(now, c);
      if !active {
        return Err(S.StaleClaim);
      }
      jobs := jobs[c.job - 1 := jobs[c.job - 1].(state := Completed, lease := None, error := None)];
      r := Ok(());
    }

    method Fail(now: Time, c: Claim, d: Diagnostic) returns (r: Result<(), S.Error>)
      modifies `jobs
      ensures S.Tx(r, State()) == S.Fail(old(State()), now, c, d)
    {
      if !c.Valid() || !d.Valid() {
        return Err(S.InvalidInput);
      }
      var active := RequireActiveLease(now, c);
      if !active {
        return Err(S.StaleClaim);
      }
      jobs := jobs[c.job - 1 := jobs[c.job - 1].(state := Failed, lease := None, error := Some(d))];
      r := Ok(());
    }

    method RetryFailed(now: Time, id: int, availableAt: Time) returns (r: Result<(), S.Error>)
      modifies `jobs
      ensures S.Tx(r, State()) == S.RetryFailed(old(State()), now, id, availableAt)
    {
      if id <= 0 || availableAt <= now {
        return Err(S.InvalidInput);
      }
      if id > |jobs| {
        return Err(S.NotFailed);
      }
      if exists k: nat | k < |jobs| :: S.ConflictsWith(State(), id, k) {
        return Err(S.CurrentWorkExists);
      }
      if jobs[id - 1].state != Failed {
        return Err(S.NotFailed);
      }
      jobs := jobs[id - 1 := jobs[id - 1].(state := Retry, availableAt := availableAt, lease := None, error := None)];
      r := Ok(());
    }

    method RecoverExpired(now: Time)
      modifies `jobs
      ensures State() == S.RecoverExpired(old(State()), now)
    {
      jobs := seq(|jobs|, i requires 0 <= i < |jobs| reads this => S.Recovered(jobs[i], now));
    }

    method ClaimState(c: Claim) returns (state: Option<State>)
      ensures state == S.ClaimState(State(), c)
    {
      if c.job < 1 || c.job > |jobs| || jobs[c.job - 1].attempts != c.attempt {
        return None;
      }
      var job := jobs[c.job - 1];
      if job.state == Processing && (job.lease.None? || job.lease.value.owner != c.owner) {
        return None;
      }
      state := Some(job.state);
    }

    // ----- Batch plan and checkpoints ---------------------------------------------------------

    method EnsureBatches(now: Time, c: Claim, plan: seq<PageRange>, dpi: int, format: string) returns (r: Result<seq<Batch>, S.Error>)
      modifies `batches
      ensures S.Tx(r, State()) == S.EnsureBatches(old(State()), now, c, plan, dpi, format)
    {
      if !c.Valid() || !S.ValidPlan(plan) || dpi <= 0 || Blank(format) {
        return Err(S.InvalidInput);
      }
      var active := RequireActiveLease(now, c);
      if !active {
        return Err(S.StaleClaim);
      }
      var rows := State().BatchesOf(c.job);
      if rows != [] {
        if !S.SamePlan(rows, plan, dpi, format) {
          return Err(S.PlanMismatch);
        }
        return Ok(rows);
      }
      for i := 0 to |plan|
        invariant rows == S.PlannedRows(plan[..i], dpi, format)
      {
        rows := rows + [Batch(plan[i], dpi, format, None)];
      }
      assert plan[..|plan|] == plan;
      batches := batches[c.job := rows];
      r := Ok(rows);
    }

    method ListBatches(now: Time, c: Claim) returns (r: Result<seq<Batch>, S.Error>)
      ensures r == S.ListBatches(State(), now, c)
    {
      if !c.Valid() {
        return Err(S.InvalidInput);
      }
      var active := RequireActiveLease(now, c);
      r := if active then Ok(State().BatchesOf(c.job)) else Err(S.StaleClaim);
    }

    method CheckpointBatch(now: Time, c: Claim, range: PageRange, dpi: int, format: string, text: string) returns (r: Result<(), S.Error>)
      modifies `batches
      ensures S.Tx(r, State()) == S.CheckpointBatch(old(State()), now, c, range, dpi, format, text)
    {
      if !c.Valid() || !S.ValidRange(range) || dpi <= 0 || Blank(format) || Blank(text) {
        return Err(S.InvalidInput);
      }
      var active := RequireActiveLease(now, c);
      if !active {
        return Err(S.StaleClaim);
      }
      var rows := State().BatchesOf(c.job);
      var i := S.FindBatch(rows, range, dpi, format);
      if i == |rows| {
        return Err(S.UnplannedBatch);
      }
      if rows[i].text.Some? {
        return if rows[i].text.value == text then Ok(()) else Err(S.BatchImmutable);
      }
      batches := batches[c.job := rows[i := rows[i].(text := Some(text))]];
      r := Ok(());
    }

    // ----- Finalization -----------------------------------------------------------------------

    method AcquireFinalization(now: Time, c: Claim, token: string, duration: int) returns (r: Result<FinalizationState, S.Error>)
      modifies `stages, `controls
      ensures S.Tx(r, State()) == S.AcquireFinalization(old(State()), now, c, token, duration)
    {
      if !c.Valid() || Blank(token) || duration <= 0 {
        return Err(S.InvalidInput);
      }
      var active := RequireActiveLease(now, c);
      if !active {
        return Err(S.StaleClaim);
      }
      var control := S.ControlOf(State(), c.job);
      if !S.AdmissionFree(control.admission, now, c, token) {
        return Err(S.FinalizerActive);
      }
      if c.job !in stages {
        stages := stages[c.job := NotStarted];
      }
      controls := controls[c.job := control.(admission := Some(Admission(token, c.attempt, c.owner, now + duration)))];
      r := Ok(FinalizationState(stages[c.job], control.dispatch, control.failure));
      assert stages == old(stages)[c.job := old(State()).StageOf(c.job)];
    }

    method RequireAdmission(now: Time, c: Claim, token: string) returns (e: Option<S.Error>)
      ensures c.Valid() && !Blank(token) ==> e == S.AdmissionError(State(), now, c, token, true)
    {
      var active := RequireActiveLease(now, c);
      if !active {
        return Some(S.StaleClaim);
      }
      if c.job in controls {
        var a := controls[c.job].admission;
        if a.Some? && a.value.attempt == c.attempt && a.value.owner == c.owner && a.value.token == token && a.value.expires > now {
          return None;
        }
      }
      e := Some(S.StaleAdmission);
    }

    method RenewFinalization(now: Time, c: Claim, token: string, duration: int) returns (r: Result<(), S.Error>)
      modifies `controls
      ensures S.Tx(r, State()) == S.RenewFinalization(old(State()), now, c, token, duration)
    {
      if !c.Valid() || Blank(token) || duration <= 0 {
        return Err(S.InvalidInput);
      }
      var e := RequireAdmission(now, c, token);
      if e.Some? {
        return Err(e.value);
      }
      controls := controls[c.job := controls[c.job].(admission := Some(Admission(token, c.attempt, c.owner, now + duration)))];
      r := Ok(());
    }

    method Advance(now: Time, c: Claim, token: string, from: Stage, to: Stage) returns (r: Result<(), S.Error>)
      modifies `stages
      ensures S.Tx(r, State()) == S.Advance(old(State()), now, c, token, from, to)
    {
      if !c.Valid() || Blank(token) || !S.ValidTransition(from, to) {
        return Err(S.InvalidInput);
      }
      var e := RequireAdmission(now, c, token);
      if e.Some? {
        return Err(e.value);
      }
      var current := State().StageOf(c.job);
      if current == to {
        return Ok(());
      }
      if current != from {
        return Err(S.CheckpointChanged);
      }
      stages := stages[c.job := to];
      r := Ok(());
    }

    method SetDispatch(now: Time, c: Claim, token: string, from: Dispatch, to: Dispatch) returns (r: Result<(), S.Error>)
      modifies `controls
      ensures S.Tx(r, State()) == S.SetDispatch(old(State()), now, c, token, from, to)
    {
      if !c.Valid() || Blank(token) || !S.ValidDispatchTransition(from, to) {
        return Err(S.InvalidInput);
      }
      var e := RequireAdmission(now, c, token);
      if e.Some? {
        return Err(e.value);
      }
      if controls[c.job].dispatch != from {
        return Err(S.StaleClaim);
      }
      controls := controls[c.job := controls[c.job].(dispatch := to)];
      r := Ok(());
    }

    method RecordTerminalFailure(now: Time, c: Claim, d: Diagnostic) returns (r: Result<(), S.Error>)
      modifies `stages, `controls
      ensures S.Tx(r, State()) == S.RecordFailure(old(State()), now, c, d)
    {
      if !c.Valid() || !d.Valid() {
        return Err(S.InvalidInput);
      }
      var active := RequireActiveLease(now, c);
      if !active {
        return Err(S.StaleClaim);
      }
      var stage := State().StageOf(c.job);
      if stage != NotStarted && stage != FailurePending {
        return Err(S.SuccessStarted);
      }
      controls := controls[c.job := S.ControlOf(State(), c.job).(failure := Some(d))];
      stages := stages[c.job := FailurePending];
      r := Ok(());
    }

    method TerminalFailure(now: Time, c: Claim) returns (r: Result<Option<Diagnostic>, S.Error>)
      ensures r == S.TerminalFailure(State(), now, c)
    {
      if !c.Valid() {
        return Err(S.InvalidInput);
      }
      var active := RequireActiveLease(now, c);
      r := if active then Ok(State().FailureOf(c.job)) else Err(S.StaleClaim);
    }

    method SuccessFinalizationStarted(now: Time, c: Claim) returns (r: Result<bool, S.Error>)
      ensures r == S.SuccessStartedTx(State(), now, c)
    {
      if !c.Valid() {
        return Err(S.InvalidInput);
      }
      var active := RequireActiveLease(now, c);
      var stage := State().StageOf(c.job);
      r := if active then Ok(stage != NotStarted && stage != FailurePending && stage != FailureTagAdded) else Err(S.StaleClaim);
    }

    // ----- Whole runs -------------------------------------------------------------------------

    method ApplyIntake(now: Time, op: S.IntakeOp)
      modifies `jobs, `candidates
      ensures State() == S.ApplyIntake(old(State()), now, op)
    {
      match op {
        case EnqueueOp(input) => var _ := Enqueue(now, input);
        case CandidateOp(document, priority) => var _ := EnqueueCandidate(now, document, priority);
        case DiscardOp(document, generation) => var _ := DiscardCandidate(document, generation);
        case ResolveOp(document, generation, input) => var _ := ResolveCandidate(now, document, generation, input);
      }
    }

    method ApplyLease(now: Time, c: Claim, op: S.LeaseOp)
      modifies `jobs
      ensures State() == S.ApplyLease(old(State()), now, c, op)
    {
      match op {
        case RenewLeaseOp(duration) => var _ := RenewLease(now, c, duration);
        case ScheduleRetryOp(availableAt, d) => var _ := ScheduleRetry(now, c, availableAt, d);
        case ReleaseOp => var _ := Release(now, c);
        case CompleteOp => var _ := Complete(now, c);
        case FailOp(d) => var _ := Fail(now, c, d);
      }
    }

    method ApplyBatch(now: Time, c: Claim, op: S.BatchOp)
      modifies `batches
      ensures State() == S.ApplyBatch(old(State()), now, c, op)
    {
      match op {
        case EnsureOp(plan, dpi, format) => var _ := EnsureBatches(now, c, plan, dpi, format);
        case CheckpointOp(range, dpi, format, text) => var _ := CheckpointBatch(now, c, range, dpi, format, text);
      }
    }

    method ApplyFinal(now: Time, c: Claim, op: S.FinalOp)
      modifies `stages, `controls
      ensures State() == S.ApplyFinal(old(State()), now, c, op)
    {
      match op {
        case AcquireOp(token, duration) => var _ := AcquireFinalization(now, c, token, duration);
        case RenewAdmissionOp(token, duration) => var _ := RenewFinalization(now, c, token, duration);
        case AdvanceOp(token, from, to) => var _ := Advance(now, c, token, from, to);
        case SetDispatchOp(token, from, to) => var _ := SetDispatch(now, c, token, from, to);
        case RecordFailureOp(d) => var _ := RecordTerminalFailure(now, c, d);
      }
    }

    method Apply(now: Time, op: S.Op)
      modifies this
      ensures State() == S.Apply(old(State()), now, op)
    {
      match op {
        case Intake(o) => ApplyIntake(now, o);
        case ClaimOp(owner, duration) => var _ := Claim(now, owner, duration);
        case RetryFailedOp(id, availableAt) => var _ := RetryFailed(now, id, availableAt);
        case RecoverOp => RecoverExpired(now);
        case Carried(c, OnLease(o)) => ApplyLease(now, c, o);
        case Carried(c, OnBatches(o)) => ApplyBatch(now, c, o);
        case Carried(c, OnFinalization(o)) => ApplyFinal(now, c, o);
      }
    }

    /** Any number of transactions, whoever sends them. */
    method Replay(events: seq<S.Event>)
      modifies this
      ensures State() == S.Run(old(State()), events)
    {
      for i := 0 to |events|
        invariant State() == S.Run(old(State()), events[..i])
      {
        assert events[..i + 1][..i] == events[..i];
        Apply(events[i].now, events[i].op);
      }
      assert events[..|events|] == events;
    }
  }
}
