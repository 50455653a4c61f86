/** Safety of finalization over every interleaving of finalizers with the rest of the service. */
module FinalizeLaws {
  import opened Common
  import opened QueueModel
  import opened QueueSpec
  import opened QueueLaws
  import opened Finalize

  // ----- What the trace says about one job ----------------------------------------------------

  function Count(trace: seq<Effect>, e: Effect): nat
    decreases |trace|
  {
    if trace == [] then 0
    else Count(trace[..|trace| - 1], e) + (if trace[|trace| - 1] == e then 1 else 0)
  }

  /** How far the confirmations of the job have come: content, then complete tag, then failed tag gone. */
  function Progress(trace: seq<Effect>, job: int): nat
    decreases |trace|
  {
    if trace == [] then 0
    else AddProgress(Progress(trace[..|trace| - 1], job), trace[|trace| - 1], job)
  }

  predicate ConfirmsContent(e: Effect, job: int) { e.ContentConfirmed? && e.job == job }

  function AddProgress(p: nat, e: Effect, job: int): nat {
    if ConfirmsContent(e, job) && p == 0 then 1
    else if e == TagConfirmed(job, AddComplete) && p == 1 then 2
    else if e == TagConfirmed(job, RemoveFailed) && p == 2 then 3
    else p
  }

  /** Every dispatch call of the job comes after all three confirmations. */
  predicate Ordered(trace: seq<Effect>, job: int)
    decreases |trace|
  {
    trace == [] || (
      var init, last := trace[..|trace| - 1], trace[|trace| - 1];
      Ordered(init, job) && (last == DispatchCall(job) ==> Progress(init, job) == 3))
  }

  // ----- One job seen through tables and trace ------------------------------------------------

  datatype View = View(
    stage: Stage, dispatch: Dispatch, failed: bool, completed: bool,
    calls: nat, refused: nat, accepted: nat, progress: nat, ordered: bool,
    completeTags: nat, failureTags: nat)

  predicate IsCompleted(db: Db, job: int) {
    db.HasJob(job) && db.JobAt(job).state == Completed
  }

  function ViewOf(db: Db, trace: seq<Effect>, job: int): View {
    View(db.StageOf(job), db.DispatchOf(job), db.FailureOf(job).Some?, IsCompleted(db, job),
         Count(trace, DispatchCall(job)), Count(trace, DispatchReply(job, Refused503)),
         Count(trace, DispatchReply(job, AsWanted)), Progress(trace, job), Ordered(trace, job),
         Count(trace, TagCall(job, AddComplete)), Count(trace, TagCall(job, AddFailed)))
  }

  function One(b: bool): nat { if b then 1 else 0 }

  function AddEffect(v: View, e: Effect, job: int): View {
    v.(calls := v.calls + One(e == DispatchCall(job)),
       refused := v.refused + One(e == DispatchReply(job, Refused503)),
       accepted := v.accepted + One(e == DispatchReply(job, AsWanted)),
       progress := AddProgress(v.progress, e, job),
       ordered := v.ordered && (e == DispatchCall(job) ==> v.progress == 3),
       completeTags := v.completeTags + One(e == TagCall(job, AddComplete)),
       failureTags := v.failureTags + One(e == TagCall(job, AddFailed)))
  }

  lemma ViewAppend(db: Db, trace: seq<Effect>, effects: seq<Effect>, job: int)
    requires |effects| <= 1
    ensures ViewOf(db, trace + effects, job) ==
            if effects == [] then ViewOf(db, trace, job) else AddEffect(ViewOf(db, trace, job), effects[0], job)
  {
    if effects == [] {
      assert trace + effects == trace;
    } else {
      assert (trace + effects)[..|trace + effects| - 1] == trace;
    }
  }

  // ----- The invariant ------------------------------------------------------------------------

  /** Calls finished or in flight that were not answered by the retry-safe refusal. */
  function Unrefused(v: View): int {
    v.calls - v.refused
  }

  /** The confirmations that a durable stage stands for. */
  function Needed(stage: Stage): nat {
    match stage
    case ContentUpdated => 1
    case CompleteTagAdded => 2
    case FailedTagRemoved => 3
    case MetadataDispatched => 3
    case _ => 0
  }

  ghost predicate JobInv(v: View) {
    && (v.dispatch == Unreserved ==> Unrefused(v) == 0)
    && v.accepted <= Unrefused(v) <= 1
    && (v.dispatch == Confirmed ==> v.accepted == 1)
    && (v.stage == MetadataDispatched ==> v.dispatch == Confirmed)
    && Needed(v.stage) <= v.progress <= 3
    && (v.completed ==> v.stage == MetadataDispatched)
    && (v.failed ==> OnFailurePath(v.stage))
    && v.ordered
    && (v.calls > 0 ==> v.stage == FailedTagRemoved || v.stage == MetadataDispatched)
    && (v.completeTags > 0 ==> v.stage != NotStarted && !OnFailurePath(v.stage))
    && (v.failureTags > 0 ==> OnFailurePath(v.stage))
  }

  function BeforeGoal(goal: Goal): Stage {
    match goal
    case AddComplete => ContentUpdated
    case RemoveFailed => CompleteTagAdded
    case AddFailed => FailurePending
  }

  predicate PointOk(f: Finalizer, point: Point) {
    match point
    case ReadDocument => true
    case PutContent => f.stage == NotStarted
    case EnsureTag(goal) => f.stage == BeforeGoal(goal)
    case ReadTags(goal) => f.stage == BeforeGoal(goal)
    case PutTags(goal) => f.stage == BeforeGoal(goal)
    case CallDispatch => f.stage == FailedTagRemoved
    case Finish => f.stage == if f.success then MetadataDispatched else FailureTagAdded
  }

  predicate InWindow(pc: Pc) {
    || pc == RenewJob(CallDispatch) || pc == RenewAdmission(CallDispatch) || pc == At(CallDispatch)
    || pc == Await(CallDispatch) || pc == Unreserve || pc == Confirm
  }

  /** Between a reservation and the transaction that ends it, the reserver knows the counts exactly. */
  predicate WindowOk(f: Finalizer, v: View) {
    InWindow(f.pc) ==>
      && v.dispatch == Reserved
      && f.stage == FailedTagRemoved
      && Unrefused(v) == One(f.pc == Await(CallDispatch) || f.pc == Confirm)
      && v.accepted == One(f.pc == Confirm)
  }

  ghost predicate FinInv(f: Finalizer, v: View) {
    && StageLeq(f.stage, v.stage)
    && (f.dispatch == Confirmed ==> v.dispatch == Confirmed)
    && (f.success && f.dispatch == Reserved ==> f.pc.Abandon? || f.pc.Returned?)
    && WindowOk(f, v)
    && match f.pc
       case RenewJob(point) => PointOk(f, point)
       case RenewAdmission(point) => PointOk(f, point)
       case At(point) => PointOk(f, point)
       case Await(point) => PointOk(f, point)
       case AdvanceTo(to) =>
         && ValidTransition(f.stage, to)
         && Needed(to) <= v.progress
         && (to == MetadataDispatched ==> v.dispatch == Confirmed)
       case Reserve => f.stage == FailedTagRemoved
       case _ => true
  }

  /** How a step may change the view that other finalizers of the job rely on. */
  ghost predicate Rely(v: View, w: View, windowOwner: bool) {
    && StageLeq(v.stage, w.stage)
    && (v.dispatch == Confirmed ==> w.dispatch == Confirmed)
    && v.progress <= w.progress
    && (v.dispatch == Reserved && !windowOwner ==>
          w.dispatch == Reserved && w.calls == v.calls && w.refused == v.refused && w.accepted == v.accepted)
  }

  lemma OthersKeep(g: Finalizer, v: View, w: View, windowOwner: bool)
    requires FinInv(g, v) && Rely(v, w, windowOwner) && !(windowOwner && InWindow(g.pc))
    ensures FinInv(g, w)
  {
  }

  // ----- What transactions do to the views ----------------------------------------------------

  ghost predicate SameFor(a: Db, b: Db, job: int) {
    && a.StageOf(job) == b.StageOf(job) && a.DispatchOf(job) == b.DispatchOf(job) && a.FailureOf(job).Some? == b.FailureOf(job).Some?
    && IsCompleted(a, job) == IsCompleted(b, job)
  }

  lemma LeaseTxKeepsViews(db: Db, now: Time, c: Claim, op: LeaseOp, job: int)
    ensures job != c.job || !op.CompleteOp? ==> SameFor(db, ApplyLease(db, now, c, op), job)
    ensures Complete(db, now, c).result.Ok? ==> IsCompleted(Complete(db, now, c).db, c.job)
    ensures Complete(db, now, c).db.stages == db.stages && Complete(db, now, c).db.controls == db.controls
  {
    LeaseOpEvolves(db, now, c, op);
  }

  lemma FinalTxKeepsOtherViews(db: Db, now: Time, c: Claim, op: FinalOp, job: int)
    ensures job != c.job ==> SameFor(db, ApplyFinal(db, now, c, op), job)
    ensures op.AcquireOp? || op.RenewAdmissionOp? ==> SameFor(db, ApplyFinal(db, now, c, op), job)
  {
    FinalOpLocal(db, now, c, op);
  }

  lemma AdvanceTx(db: Db, now: Time, c: Claim, token: string, from: Stage, to: Stage)
    ensures var tx := Advance(db, now, c, token, from, to);
            && tx.db.jobs == db.jobs && tx.db.controls == db.controls
            && (tx.result.Ok? ==> tx.db.StageOf(c.job) == to && (db.StageOf(c.job) == from || db.StageOf(c.job) == to))
            && (tx.result.Err? ==> tx.db == db)
  {
  }

  lemma SetDispatchTx(db: Db, now: Time, c: Claim, token: string, from: Dispatch, to: Dispatch)
    ensures var tx := SetDispatch(db, now, c, token, from, to);
            && tx.db.jobs == db.jobs && tx.db.stages == db.stages
            && (tx.result.Ok? ==> db.DispatchOf(c.job) == from && tx.db.DispatchOf(c.job) == to
                                  && tx.db.FailureOf(c.job) == db.FailureOf(c.job))
            && (tx.result.Err? ==> tx.db == db)
  {
  }

  lemma AcquireTx(db: Db, now: Time, c: Claim, token: string, duration: int)
    ensures var tx := AcquireFinalization(db, now, c, token, duration);
            && SameFor(db, tx.db, c.job)
            && (tx.result.Ok? ==> tx.result.value == FinalizationState(db.StageOf(c.job), db.DispatchOf(c.job), db.FailureOf(c.job)))
  {
  }

  /** Transactions of the rest of the service: a view changes only by a recorded failure before success has started. */
  lemma OutsideKeepsView(db: Db, now: Time, op: Op, job: int)
    requires OutsideOp(op)
    ensures var after := Apply(db, now, op);
            SameFor(db, after, job)
            || (after.DispatchOf(job) == db.DispatchOf(job) && IsCompleted(after, job) == IsCompleted(db, job)
                && (db.StageOf(job) == NotStarted || db.StageOf(job) == FailurePending) && after.StageOf(job) == FailurePending)
  {
    match op
    case Intake(o) => IntakeKeepsCompletion(db, now, o, job);
    case Carried(c, OnLease(o)) => LeaseTxKeepsViews(db, now, c, o, job);
    case Carried(c, OnBatches(o)) => BatchOpEvolves(db, now, c, o);
    case Carried(c, OnFinalization(o)) =>
      FinalTxKeepsOtherViews(db, now, c, o, job);
    case _ => SchedulerOpEvolves(db, now, op);
  }

  lemma EnqueueKeepsCompletion(db: Db, now: Time, input: EnqueueInput, job: int)
    ensures var after := EnqueueRow(db, now, input).1;
            after == db.(jobs := after.jobs) && IsCompleted(db, job) == IsCompleted(after, job)
  {
  }

  lemma ResolveKeepsCompletion(db: Db, now: Time, document: int, generation: int, input: EnqueueInput, job: int)
    ensures SameFor(db, ResolveCandidate(db, now, document, generation, input).db, job)
  {
    if document in db.candidates {
      EnqueueKeepsCompletion(db, now, input.(priority := db.candidates[document].priority), job);
    }
  }

  lemma IntakeKeepsCompletion(db: Db, now: Time, op: IntakeOp, job: int)
    ensures SameFor(db, ApplyIntake(db, now, op), job)
  {
    match op
    case EnqueueOp(input) => EnqueueKeepsCompletion(db, now, input, job);
    case ResolveOp(document, generation, input) => ResolveKeepsCompletion(db, now, document, generation, input, job);
    case _ =>
  }

  // ----- One step of one finalizer, on views --------------------------------------------------

  predicate Gives(f: Finalizer, g: Finalizer, v: View, w: View, pc: Pc) {
    g == f.(pc := pc) && w == v
  }

  /** The step is over with an error and nothing of the view changed. */
  predicate GivesUp(f: Finalizer, g: Finalizer, v: View, w: View) {
    Gives(f, g, v, w, Returned(false)) || Gives(f, g, v, w, Abandon(Interrupted))
  }

  predicate AcquireMoves(f: Finalizer, v: View, g: Finalizer, w: View) {
    || GivesUp(f, g, v, w)
    || (w == v && g == f.(stage := v.stage, dispatch := v.dispatch, failure := g.failure, pc := g.pc)
        && (if f.success then g.pc == if v.dispatch == Reserved then Abandon(Ambiguous) else RenewJob(ReadDocument)
            else g.pc == Abandon(Interrupted) || g.pc == Proceed(g)))
  }

  predicate CallMoves(f: Finalizer, v: View, g: Finalizer, w: View)
    requires f.pc.At?
  {
    match f.pc.point
    case ReadDocument =>
      || GivesUp(f, g, v, w) || Gives(f, g, v, w, Abandon(SourceChanged))
      || (f.stage != NotStarted && Gives(f, g, v, w, Proceed(f)))
      || (f.stage == NotStarted && g == f.(pc := AdvanceTo(ContentUpdated)) && w == v.(progress := if v.progress == 0 then 1 else v.progress))
      || (f.stage == NotStarted && Gives(f, g, v, w, RenewJob(PutContent)))
    case PutContent => Gives(f, g, v, w, Await(PutContent))
    case EnsureTag(goal) => GivesUp(f, g, v, w) || Gives(f, g, v, w, RenewJob(ReadTags(goal)))
    case ReadTags(goal) => GivesUp(f, g, v, w) || Gives(f, g, v, w, RenewJob(PutTags(goal))) || GoalMoves(f, goal, v, g, w)
    case PutTags(goal) =>
      && g == f.(pc := Await(PutTags(goal)))
      && w == v.(completeTags := v.completeTags + One(goal == AddComplete), failureTags := v.failureTags + One(goal == AddFailed))
    case CallDispatch =>
      g == f.(pc := Await(CallDispatch)) && w == v.(calls := v.calls + 1, ordered := v.ordered && v.progress == 3)
    case Finish =>
      || GivesUp(f, g, v, w) || (!f.success && Gives(f, g, v, w, Returned(true)))
      || (f.success && (g.pc == Returned(true) || g.pc == Abandon(Interrupted)) && g == f.(pc := g.pc) && w == v.(completed := true))
  }

  /** The wanted tag is confirmed. */
  predicate GoalMoves(f: Finalizer, goal: Goal, v: View, g: Finalizer, w: View) {
    && g == f.(pc := AdvanceTo(AfterGoal(goal)))
    && w == v.(progress := if (goal == AddComplete && v.progress == 1) || (goal == RemoveFailed && v.progress == 2) then v.progress + 1 else v.progress)
  }

  predicate ReplyMoves(f: Finalizer, v: View, g: Finalizer, w: View)
    requires f.pc.Await?
  {
    match f.pc.point
    case PutContent =>
      || GivesUp(f, g, v, w)
      || (g == f.(pc := AdvanceTo(ContentUpdated)) && w == v.(progress := if v.progress == 0 then 1 else v.progress))
    case PutTags(goal) => GivesUp(f, g, v, w) || GoalMoves(f, goal, v, g, w)
    case CallDispatch =>
      || (g == f.(pc := Confirm) && w == v.(accepted := v.accepted + 1))
      || (g == f.(pc := Unreserve) && w == v.(refused := v.refused + 1))
      || Gives(f, g, v, w, Abandon(Ambiguous))
    case _ => GivesUp(f, g, v, w)
  }

  /** A dispatch transaction may fail, may commit, or may commit and be reported as failed. */
  predicate DispatchMoves(f: Finalizer, v: View, g: Finalizer, w: View, from: Dispatch, to: Dispatch, next: Pc) {
    || GivesUp(f, g, v, w)
    || (v.dispatch == from && w == v.(dispatch := to) && g == f.(pc := g.pc) && (g.pc == next || g.pc == Abandon(Interrupted)))
  }

  predicate StoreMoves(f: Finalizer, v: View, g: Finalizer, w: View) {
    match f.pc
    case Begin => GivesUp(f, g, v, w) || Gives(f, g, v, w, Acquire)
    case RenewJob(next) => GivesUp(f, g, v, w) || Gives(f, g, v, w, RenewAdmission(next))
    case RenewAdmission(next) => GivesUp(f, g, v, w) || Gives(f, g, v, w, At(next))
    case AdvanceTo(to) =>
      || GivesUp(f, g, v, w)
      || ((v.stage == f.stage || v.stage == to) && w == v.(stage := to)
          && (g == f.(pc := Abandon(Interrupted)) || g == f.(stage := to, pc := Proceed(f.(stage := to)))))
    case Reserve => DispatchMoves(f, v, g, w, Unreserved, Reserved, RenewJob(CallDispatch))
    case Unreserve => DispatchMoves(f, v, g, w, Reserved, Unreserved, Abandon(Interrupted))
    case Confirm => DispatchMoves(f, v, g, w, Reserved, Confirmed, AdvanceTo(MetadataDispatched))
    case _ => w == v && g == f
  }

  predicate Moves(f: Finalizer, v: View, g: Finalizer, w: View) {
    if f.pc.Acquire? then AcquireMoves(f, v, g, w)
    else if f.pc.At? then CallMoves(f, v, g, w)
    else if f.pc.Await? then ReplyMoves(f, v, g, w)
    else if f.pc.Abandon? then Gives(f, g, v, w, Returned(false))
    else StoreMoves(f, v, g, w)
  }

  /** What a step of `f` establishes for its own job. */
  ghost predicate StepOk(f: Finalizer, v: View, g: Finalizer, w: View) {
    && JobInv(w) && FinInv(g, w)
    && Rely(v, w, InWindow(f.pc))
    && (InWindow(g.pc) && !InWindow(f.pc) ==> v.dispatch == Unreserved)
  }

  /** Facts of the invariant that do not depend on the program counter. */
  ghost predicate Local(f: Finalizer, v: View) {
    && StageLeq(f.stage, v.stage)
    && (f.dispatch == Confirmed ==> v.dispatch == Confirmed)
  }

  ghost predicate NotRefused(f: Finalizer) {
    f.success ==> f.dispatch != Reserved
  }

  lemma StopOk(f: Finalizer, v: View, pc: Pc)
    requires JobInv(v) && Local(f, v) && (pc.Abandon? || pc.Returned?)
    ensures StepOk(f, v, f.(pc := pc), v)
  {
  }

  /** Moving on to a point outside the dispatch window, with the view unchanged. */
  lemma PointStepOk(f: Finalizer, v: View, pc: Pc, point: Point)
    requires JobInv(v) && Local(f, v) && NotRefused(f) && PointOk(f, point) && point != CallDispatch
    requires pc in {RenewJob(point), RenewAdmission(point), At(point), Await(point)}
    ensures StepOk(f, v, f.(pc := pc), v)
  {
  }

  lemma ProceedOk(f: Finalizer, v: View)
    requires JobInv(v) && Local(f, v) && NotRefused(f)
    ensures FinInv(f.(pc := Proceed(f)), v)
    ensures !InWindow(Proceed(f))
  {
    if f.success {
      match f.stage
      case FailedTagRemoved =>
      case _ =>
    } else {
      match f.stage
      case NotStarted =>
      case _ =>
    }
  }

  /** Reaching a confirmation outside the dispatch window, before the stage is recorded. */
  lemma ConfirmationOk(f: Finalizer, v: View, to: Stage, progress: nat)
    requires JobInv(v) && Local(f, v) && NotRefused(f) && !InWindow(f.pc)
    requires ValidTransition(f.stage, to) && to != MetadataDispatched
    requires v.progress <= progress <= 3 && Needed(to) <= progress
    ensures StepOk(f, v, f.(pc := AdvanceTo(to)), v.(progress := progress))
  {
  }

  lemma GoalMovesOk(f: Finalizer, goal: Goal, v: View, g: Finalizer, w: View)
    requires JobInv(v) && FinInv(f, v) && NotRefused(f) && !InWindow(f.pc)
    requires f.stage == BeforeGoal(goal) && GoalMoves(f, goal, v, g, w)
    ensures StepOk(f, v, g, w)
  {
    ConfirmationOk(f, v, AfterGoal(goal), w.progress);
  }

  lemma AcquireMovesOk(f: Finalizer, v: View, g: Finalizer, w: View)
    requires f.pc.Acquire? && JobInv(v) && FinInv(f, v) && AcquireMoves(f, v, g, w)
    ensures StepOk(f, v, g, w)
  {
    if GivesUp(f, g, v, w) {
      StopOk(f, v, g.pc);
    } else {
      var h := g.(pc := f.pc);
      if g.pc.Abandon? {
        StopOk(h, v, g.pc);
      } else if f.success {
        PointStepOk(h, v, g.pc, ReadDocument);
      } else {
        ProceedOk(h, v);
      }
    }
  }

  lemma ReadDocumentOk(f: Finalizer, v: View, g: Finalizer, w: View)
    requires f.pc == At(ReadDocument) && JobInv(v) && FinInv(f, v) && CallMoves(f, v, g, w)
    requires !GivesUp(f, g, v, w) && !Gives(f, g, v, w, Abandon(SourceChanged))
    ensures StepOk(f, v, g, w)
  {
    if f.stage != NotStarted {
      ProceedOk(f, v);
    } else if g.pc == RenewJob(PutContent) {
      PointStepOk(f, v, g.pc, PutContent);
    } else {
      ConfirmationOk(f, v, ContentUpdated, w.progress);
    }
  }

  lemma FinishOk(f: Finalizer, v: View, g: Finalizer, w: View)
    requires f.pc == At(Finish) && JobInv(v) && FinInv(f, v) && CallMoves(f, v, g, w)
    ensures StepOk(f, v, g, w)
  {
  }

  lemma PutTagsOk(f: Finalizer, v: View, g: Finalizer, w: View)
    requires f.pc.At? && f.pc.point.PutTags? && JobInv(v) && FinInv(f, v) && CallMoves(f, v, g, w)
    ensures StepOk(f, v, g, w)
  {
  }

  lemma CallDispatchOk(f: Finalizer, v: View, g: Finalizer, w: View)
    requires f.pc == At(CallDispatch) && JobInv(v) && FinInv(f, v) && CallMoves(f, v, g, w)
    ensures StepOk(f, v, g, w)
  {
  }

  lemma ReadTagsOk(f: Finalizer, goal: Goal, v: View, g: Finalizer, w: View)
    requires f.pc == At(ReadTags(goal)) && JobInv(v) && FinInv(f, v) && CallMoves(f, v, g, w)
    requires !GivesUp(f, g, v, w)
    ensures StepOk(f, v, g, w)
  {
    if g.pc == RenewJob(PutTags(goal)) {
      PointStepOk(f, v, g.pc, PutTags(goal));
    } else {
      GoalMovesOk(f, goal, v, g, w);
    }
  }

  lemma CallMovesOk(f: Finalizer, v: View, g: Finalizer, w: View)
    requires f.pc.At? && JobInv(v) && FinInv(f, v) && CallMoves(f, v, g, w)
    ensures StepOk(f, v, g, w)
  {
    if GivesUp(f, g, v, w) || Gives(f, g, v, w, Abandon(SourceChanged)) {
      StopOk(f, v, g.pc);
      return;
    }
    match f.pc.point
    case ReadDocument => ReadDocumentOk(f, v, g, w);
    case PutContent => PointStepOk(f, v, g.pc, PutContent);
    case EnsureTag(goal) => PointStepOk(f, v, g.pc, ReadTags(goal));
    case ReadTags(goal) => ReadTagsOk(f, goal, v, g, w);
    case PutTags(goal) => PutTagsOk(f, v, g, w);
    case CallDispatch => CallDispatchOk(f, v, g, w);
    case Finish => FinishOk(f, v, g, w);
  }

  lemma DispatchReplyOk(f: Finalizer, v: View, g: Finalizer, w: View)
    requires f.pc == Await(CallDispatch) && JobInv(v) && FinInv(f, v) && ReplyMoves(f, v, g, w)
    ensures StepOk(f, v, g, w)
  {
  }

  lemma ReplyMovesOk(f: Finalizer, v: View, g: Finalizer, w: View)
    requires f.pc.Await? && JobInv(v) && FinInv(f, v) && ReplyMoves(f, v, g, w)
    ensures StepOk(f, v, g, w)
  {
    if GivesUp(f, g, v, w) {
      StopOk(f, v, g.pc);
      return;
    }
    match f.pc.point
    case PutContent => ConfirmationOk(f, v, ContentUpdated, w.progress);
    case PutTags(goal) => GoalMovesOk(f, goal, v, g, w);
    case CallDispatch => DispatchReplyOk(f, v, g, w);
    case _ =>
  }

  lemma AdvanceMovesOk(f: Finalizer, v: View, g: Finalizer, w: View)
    requires f.pc.AdvanceTo? && JobInv(v) && FinInv(f, v) && StoreMoves(f, v, g, w) && !GivesUp(f, g, v, w)
    ensures StepOk(f, v, g, w)
  {
    var h := f.(stage := f.pc.to);
    assert JobInv(w) && Local(h, w) && Rely(v, w, false);
    if g.pc.Abandon? {
      StopOk(f, w, g.pc);
    } else {
      ProceedOk(h, w);
    }
  }

  lemma DispatchMovesOk(f: Finalizer, v: View, g: Finalizer, w: View)
    requires f.pc.Reserve? || f.pc.Unreserve? || f.pc.Confirm?
    requires JobInv(v) && FinInv(f, v) && StoreMoves(f, v, g, w) && !GivesUp(f, g, v, w)
    ensures StepOk(f, v, g, w)
  {
    match f.pc
    case Reserve =>
    case Unreserve =>
    case Confirm =>
  }

  lemma RenewMovesOk(f: Finalizer, v: View, g: Finalizer, w: View)
    requires f.pc.Begin? || f.pc.RenewJob? || f.pc.RenewAdmission? || f.pc.Returned?
    requires JobInv(v) && FinInv(f, v) && StoreMoves(f, v, g, w) && !GivesUp(f, g, v, w)
    ensures StepOk(f, v, g, w)
  {
    match f.pc
    case RenewJob(next) =>
      if next != CallDispatch {
        PointStepOk(f, v, g.pc, next);
      }
    case RenewAdmission(next) =>
      if next != CallDispatch {
        PointStepOk(f, v, g.pc, next);
      }
    case _ =>
  }

  lemma StoreMovesOk(f: Finalizer, v: View, g: Finalizer, w: View)
    requires !f.pc.At? && !f.pc.Await? && !f.pc.Acquire? && JobInv(v) && FinInv(f, v)
    requires if f.pc.Abandon? then Gives(f, g, v, w, Returned(false)) else StoreMoves(f, v, g, w)
    ensures StepOk(f, v, g, w)
  {
    if GivesUp(f, g, v, w) {
      StopOk(f, v, g.pc);
    } else if f.pc.AdvanceTo? {
      AdvanceMovesOk(f, v, g, w);
    } else if f.pc.Reserve? || f.pc.Unreserve? || f.pc.Confirm? {
      DispatchMovesOk(f, v, g, w);
    } else {
      RenewMovesOk(f, v, g, w);
    }
  }

  lemma MovesAreOk(f: Finalizer, v: View, g: Finalizer, w: View)
    requires JobInv(v) && FinInv(f, v) && Moves(f, v, g, w)
    ensures StepOk(f, v, g, w)
  {
    if f.pc.Acquire? {
      AcquireMovesOk(f, v, g, w);
    } else if f.pc.At? {
      CallMovesOk(f, v, g, w);
    } else if f.pc.Await? {
      ReplyMovesOk(f, v, g, w);
    } else {
      StoreMovesOk(f, v, g, w);
    }
  }

  // ----- Steps refine the moves ---------------------------------------------------------------

  lemma SameView(a: Db, b: Db, trace: seq<Effect>, job: int)
    requires SameFor(a, b, job)
    ensures ViewOf(b, trace, job) == ViewOf(a, trace, job)
  {
  }

  function AddAll(v: View, effects: seq<Effect>, job: int): View {
    if effects == [] then v else AddEffect(v, effects[0], job)
  }

  lemma ReadDocumentMoves(f: Finalizer, db: Db, ch: Chance, v: View)
    requires f.pc == At(ReadDocument)
    ensures var o := CallStep(f, db, ch);
            o.db == db && |o.effects| <= 1 && CallMoves(f, v, o.f, AddAll(v, o.effects, f.claim.job))
  {
  }

  lemma TagPointMoves(f: Finalizer, db: Db, ch: Chance, v: View)
    requires f.pc.At? && (f.pc.point.EnsureTag? || f.pc.point.ReadTags?)
    ensures var o := CallStep(f, db, ch);
            o.db == db && |o.effects| <= 1 && CallMoves(f, v, o.f, AddAll(v, o.effects, f.claim.job))
  {
  }

  lemma SendPointMoves(f: Finalizer, db: Db, ch: Chance, v: View)
    requires f.pc.At? && (f.pc.point == PutContent || f.pc.point.PutTags? || f.pc.point == CallDispatch)
    ensures var o := CallStep(f, db, ch);
            o.db == db && |o.effects| <= 1 && CallMoves(f, v, o.f, AddAll(v, o.effects, f.claim.job))
  {
  }

  lemma CallStepMoves(f: Finalizer, db: Db, ch: Chance, v: View)
    requires f.pc.At? && f.pc.point != Finish
    ensures var o := CallStep(f, db, ch);
            o.db == db && |o.effects| <= 1 && CallMoves(f, v, o.f, AddAll(v, o.effects, f.claim.job))
  {
    match f.pc.point
    case ReadDocument => ReadDocumentMoves(f, db, ch, v);
    case EnsureTag(_) => TagPointMoves(f, db, ch, v);
    case ReadTags(_) => TagPointMoves(f, db, ch, v);
    case _ => SendPointMoves(f, db, ch, v);
  }

  /** A call keeps what its finalizer was started with; only the last transaction touches tables, and only after it
      the call may return without error. */
  lemma CallKeeps(f: Finalizer, db: Db, ch: Chance)
    requires f.pc.At?
    ensures var o := CallStep(f, db, ch);
            && o.f.claim == f.claim && o.f.success == f.success && o.f.token == f.token && o.f.content == f.content
            && (f.pc.point != Finish ==> o.db == db && o.f.pc != Returned(true))
  {
    match f.pc.point
    case ReadDocument => ProceedStays(f);
    case _ =>
  }

  lemma ProceedStays(f: Finalizer)
    ensures Proceed(f) != Returned(true)
  {
  }

  lemma ReplyKeeps(f: Finalizer, db: Db, ch: Chance)
    requires f.pc.Await?
    ensures var o := ReplyStep(f, db, ch);
            && o.f.claim == f.claim && o.f.success == f.success && o.f.token == f.token && o.f.content == f.content
            && o.db == db && o.f.pc != Returned(true)
  {
    match f.pc.point
    case _ =>
  }

  lemma ReplyStepMoves(f: Finalizer, db: Db, ch: Chance, v: View)
    requires f.pc.Await?
    ensures var o := ReplyStep(f, db, ch);
            o.db == db && |o.effects| <= 1 && ReplyMoves(f, v, o.f, AddAll(v, o.effects, f.claim.job))
  {
  }

  lemma ExternalStepMoves(f: Finalizer, db: Db, trace: seq<Effect>, ch: Chance)
    requires (f.pc.At? && f.pc.point != Finish) || f.pc.Await?
    ensures var o := Step(f, db, ch);
            && o.db == db && |o.effects| <= 1
            && Moves(f, ViewOf(db, trace, f.claim.job), o.f, ViewOf(db, trace + o.effects, f.claim.job))
  {
    var o := Step(f, db, ch);
    var v := ViewOf(db, trace, f.claim.job);
    if f.pc.At? {
      CallStepMoves(f, db, ch, v);
    } else {
      ReplyStepMoves(f, db, ch, v);
    }
    ViewAppend(db, trace, o.effects, f.claim.job);
  }

  lemma AcquireStepMoves(f: Finalizer, db: Db, ch: Chance, v: View)
    requires f.pc.Acquire? && v.stage == db.StageOf(f.claim.job) && v.dispatch == db.DispatchOf(f.claim.job)
    ensures var o := AcquireStep(f, db, ch); o.effects == [] && SameFor(db, o.db, f.claim.job) && AcquireMoves(f, v, o.f, v)
  {
    AcquireTx(db, ch.now, f.claim, f.token, LEASE);
  }

  lemma AbandonStepMoves(f: Finalizer, db: Db, ch: Chance, v: View)
    requires f.pc.Abandon?
    ensures var o := AbandonStep(f, db, ch); o.effects == [] && SameFor(db, o.db, f.claim.job) && Gives(f, o.f, v, v, Returned(false))
  {
    LeaseTxKeepsViews(db, ch.now, f.claim, AbandonOp(f.pc.why, ch.now), f.claim.job);
  }

  lemma RenewStepMoves(f: Finalizer, db: Db, ch: Chance, v: View)
    requires f.pc.Begin? || f.pc.RenewJob? || f.pc.RenewAdmission? || f.pc.Returned?
    ensures var o := StoreStep(f, db, ch); o.effects == [] && SameFor(db, o.db, f.claim.job) && StoreMoves(f, v, o.f, v)
  {
    if f.pc.RenewAdmission? {
      FinalTxKeepsOtherViews(db, ch.now, f.claim, RenewAdmissionOp(f.token, LEASE), f.claim.job);
    } else {
      LeaseTxKeepsViews(db, ch.now, f.claim, RenewLeaseOp(LEASE), f.claim.job);
    }
  }

  lemma AdvanceStepMoves(f: Finalizer, db: Db, trace: seq<Effect>, ch: Chance)
    requires f.pc.AdvanceTo?
    ensures var o := StoreStep(f, db, ch);
            o.effects == [] && StoreMoves(f, ViewOf(db, trace, f.claim.job), o.f, ViewOf(o.db, trace, f.claim.job))
  {
    var v := ViewOf(db, trace, f.claim.job);
    AdvanceTx(db, ch.now, f.claim, f.token, f.stage, f.pc.to);
    var tx := Advance(db, ch.now, f.claim, f.token, f.stage, f.pc.to);
    assert ViewOf(tx.db, trace, f.claim.job) == if tx.result.Ok? then v.(stage := f.pc.to) else v;
  }

  lemma SetDispatchView(db: Db, trace: seq<Effect>, now: Time, c: Claim, token: string, from: Dispatch, to: Dispatch)
    ensures var tx, v := SetDispatch(db, now, c, token, from, to), ViewOf(db, trace, c.job);
            ViewOf(tx.db, trace, c.job) == (if tx.result.Ok? then v.(dispatch := to) else v) && (tx.result.Ok? ==> v.dispatch == from)
  {
    SetDispatchTx(db, now, c, token, from, to);
  }

  lemma DispatchStepMoves(f: Finalizer, db: Db, trace: seq<Effect>, ch: Chance)
    requires f.pc.Reserve? || f.pc.Unreserve? || f.pc.Confirm?
    ensures var o := StoreStep(f, db, ch);
            o.effects == [] && StoreMoves(f, ViewOf(db, trace, f.claim.job), o.f, ViewOf(o.db, trace, f.claim.job))
  {
    match f.pc
    case Reserve => SetDispatchView(db, trace, ch.now, f.claim, f.token, Unreserved, Reserved);
    case Unreserve => SetDispatchView(db, trace, ch.now, f.claim, f.token, Reserved, Unreserved);
    case Confirm => SetDispatchView(db, trace, ch.now, f.claim, f.token, Reserved, Confirmed);
  }

  lemma CompleteView(f: Finalizer, db: Db, trace: seq<Effect>, now: Time)
    ensures var tx := Complete(db, now, f.claim);
            var v := ViewOf(db, trace, f.claim.job);
            ViewOf(tx.db, trace, f.claim.job) == if tx.result.Ok? then v.(completed := true) else v
  {
    LeaseTxKeepsViews(db, now, f.claim, CompleteOp, f.claim.job);
    var done := Complete(db, now, f.claim);
    assert done.result.Err? ==> done.db == db;
  }

  lemma FinishSuccessMoves(f: Finalizer, db: Db, trace: seq<Effect>, ch: Chance)
    requires f.pc == At(Finish) && f.success
    ensures var o := CallStep(f, db, ch);
            o.effects == [] && CallMoves(f, ViewOf(db, trace, f.claim.job), o.f, ViewOf(o.db, trace, f.claim.job))
  {
    CompleteView(f, db, trace, ch.now);
  }

  lemma FinishStepMoves(f: Finalizer, db: Db, trace: seq<Effect>, ch: Chance)
    requires f.pc == At(Finish)
    ensures var o := CallStep(f, db, ch);
            o.effects == [] && CallMoves(f, ViewOf(db, trace, f.claim.job), o.f, ViewOf(o.db, trace, f.claim.job))
  {
    var job := f.claim.job;
    if f.success {
      FinishSuccessMoves(f, db, trace, ch);
    } else if f.failure.Some? {
      LeaseTxKeepsViews(db, ch.now, f.claim, FailOp(f.failure.value), job);
      SameView(db, Fail(db, ch.now, f.claim, f.failure.value).db, trace, job);
    }
  }

  lemma OwnStepOk(f: Finalizer, db: Db, trace: seq<Effect>, ch: Chance)
    requires var v := ViewOf(db, trace, f.claim.job); JobInv(v) && FinInv(f, v)
    ensures var o := Step(f, db, ch);
            |o.effects| <= 1 && StepOk(f, ViewOf(db, trace, f.claim.job), o.f, ViewOf(o.db, trace + o.effects, f.claim.job))
  {
    var o := Step(f, db, ch);
    var job := f.claim.job;
    var v := ViewOf(db, trace, job);
    assert trace + [] == trace;
    if f.pc == At(Finish) {
      FinishStepMoves(f, db, trace, ch);
    } else if f.pc.At? || f.pc.Await? {
      ExternalStepMoves(f, db, trace, ch);
    } else if f.pc.AdvanceTo? {
      AdvanceStepMoves(f, db, trace, ch);
    } else if f.pc.Reserve? || f.pc.Unreserve? || f.pc.Confirm? {
      DispatchStepMoves(f, db, trace, ch);
    } else {
      if f.pc.Acquire? {
        AcquireStepMoves(f, db, ch, v);
      } else if f.pc.Abandon? {
        AbandonStepMoves(f, db, ch, v);
      } else {
        RenewStepMoves(f, db, ch, v);
      }
      SameView(db, o.db, trace, job);
    }
    MovesAreOk(f, v, o.f, ViewOf(o.db, trace + o.effects, job));
  }

  // ----- One step, seen by everything else ----------------------------------------------------

  /** The one transaction that a step may perform. */
  function StepOp(f: Finalizer, ch: Chance): CarriedOp {
    match f.pc
    case Acquire => OnFinalization(AcquireOp(f.token, LEASE))
    case RenewAdmission(_) => OnFinalization(RenewAdmissionOp(f.token, LEASE))
    case AdvanceTo(to) => OnFinalization(AdvanceOp(f.token, f.stage, to))
    case Reserve => OnFinalization(SetDispatchOp(f.token, Unreserved, Reserved))
    case Unreserve => OnFinalization(SetDispatchOp(f.token, Reserved, Unreserved))
    case Confirm => OnFinalization(SetDispatchOp(f.token, Reserved, Confirmed))
    case Abandon(why) => OnLease(AbandonOp(why, ch.now))
    case At(_) => if f.success || f.failure.None? then OnLease(CompleteOp) else OnLease(FailOp(f.failure.value))
    case _ => OnLease(RenewLeaseOp(LEASE))
  }

  predicate OneTransaction(f: Finalizer, db: Db, ch: Chance, after: Db) {
    after == db || after == ApplyCarried(db, ch.now, f.claim, StepOp(f, ch))
  }

  lemma FinishTransaction(f: Finalizer, db: Db, ch: Chance)
    requires f.pc == At(Finish)
    ensures OneTransaction(f, db, ch, CallStep(f, db, ch).db)
  {
  }

  lemma RenewTransaction(f: Finalizer, db: Db, ch: Chance)
    requires f.pc.Begin? || f.pc.RenewJob? || f.pc.RenewAdmission? || f.pc.Returned?
    ensures OneTransaction(f, db, ch, StoreStep(f, db, ch).db)
  {
  }

  lemma AdvanceTransaction(f: Finalizer, db: Db, ch: Chance)
    requires f.pc.AdvanceTo?
    ensures OneTransaction(f, db, ch, StoreStep(f, db, ch).db)
  {
  }

  /** The dispatch states between which a step moves. */
  function DispatchMove(pc: Pc): (Dispatch, Dispatch)
    requires pc.Reserve? || pc.Unreserve? || pc.Confirm?
  {
    match pc
    case Reserve => (Unreserved, Reserved)
    case Unreserve => (Reserved, Unreserved)
    case Confirm => (Reserved, Confirmed)
  }

  lemma DispatchTables(f: Finalizer, db: Db, ch: Chance)
    requires f.pc.Reserve? || f.pc.Unreserve? || f.pc.Confirm?
    ensures var (from, to) := DispatchMove(f.pc);
            StoreStep(f, db, ch).db == Attempt(db, SetDispatch(db, ch.now, f.claim, f.token, from, to), ch.fault).0
  {
  }

  lemma DispatchTransaction(f: Finalizer, db: Db, ch: Chance)
    requires f.pc.Reserve? || f.pc.Unreserve? || f.pc.Confirm?
    ensures OneTransaction(f, db, ch, StoreStep(f, db, ch).db)
  {
    var (from, to) := DispatchMove(f.pc);
    assert StepOp(f, ch) == OnFinalization(SetDispatchOp(f.token, from, to));
    DispatchTables(f, db, ch);
    AttemptedDispatch(db, ch, f.claim, f.token, from, to);
  }

  lemma AttemptedDispatch(db: Db, ch: Chance, c: Claim, token: string, from: Dispatch, to: Dispatch)
    ensures var after := Attempt(db, SetDispatch(db, ch.now, c, token, from, to), ch.fault).0;
            after == db || after == ApplyCarried(db, ch.now, c, OnFinalization(SetDispatchOp(token, from, to)))
  {
  }

  lemma StoreTransaction(f: Finalizer, db: Db, ch: Chance)
    requires !f.pc.At? && !f.pc.Await? && !f.pc.Abandon? && !f.pc.Acquire?
    ensures OneTransaction(f, db, ch, StoreStep(f, db, ch).db)
  {
    if f.pc.Begin? || f.pc.RenewJob? || f.pc.RenewAdmission? || f.pc.Returned? {
      RenewTransaction(f, db, ch);
    } else if f.pc.AdvanceTo? {
      AdvanceTransaction(f, db, ch);
    } else {
      DispatchTransaction(f, db, ch);
    }
  }

  lemma AcquireTransaction(f: Finalizer, db: Db, ch: Chance)
    requires f.pc.Acquire?
    ensures OneTransaction(f, db, ch, AcquireStep(f, db, ch).db)
  {
  }

  lemma AbandonTransaction(f: Finalizer, db: Db, ch: Chance)
    requires f.pc.Abandon?
    ensures StepOp(f, ch) == OnLease(AbandonOp(f.pc.why, ch.now))
    ensures var after := AbandonStep(f, db, ch).db; after == db || after == ApplyLease(db, ch.now, f.claim, AbandonOp(f.pc.why, ch.now))
  {
  }

  lemma LeaseTransaction(f: Finalizer, db: Db, ch: Chance, op: LeaseOp, after: Db)
    requires StepOp(f, ch) == OnLease(op) && (after == db || after == ApplyLease(db, ch.now, f.claim, op))
    ensures OneTransaction(f, db, ch, after)
  {
  }

  lemma StepIsOneTransaction(f: Finalizer, db: Db, ch: Chance)
    ensures OneTransaction(f, db, ch, Step(f, db, ch).db)
  {
    if f.pc == At(Finish) {
      FinishTransaction(f, db, ch);
    } else if f.pc.At? {
      CallKeeps(f, db, ch);
    } else if f.pc.Await? {
      ReplyKeeps(f, db, ch);
    } else if f.pc.Acquire? {
      AcquireTransaction(f, db, ch);
    } else if f.pc.Abandon? {
      AbandonTransaction(f, db, ch);
      LeaseTransaction(f, db, ch, AbandonOp(f.pc.why, ch.now), AbandonStep(f, db, ch).db);
    } else {
      StoreTransaction(f, db, ch);
    }
  }

  lemma CarriedUnseen(db: Db, now: Time, c: Claim, op: CarriedOp, job: int)
    requires job != c.job
    ensures SameFor(db, ApplyCarried(db, now, c, op), job)
  {
    match op
    case OnLease(o) => LeaseTxKeepsViews(db, now, c, o, job);
    case OnBatches(o) => BatchOpEvolves(db, now, c, o);
    case OnFinalization(o) => FinalTxKeepsOtherViews(db, now, c, o, job);
  }

  lemma TransactionUnseen(f: Finalizer, db: Db, ch: Chance, after: Db, job: int)
    requires job != f.claim.job && OneTransaction(f, db, ch, after)
    ensures SameFor(db, after, job)
  {
    CarriedUnseen(db, ch.now, f.claim, StepOp(f, ch), job);
  }

  lemma OtherJobUnseen(f: Finalizer, db: Db, trace: seq<Effect>, ch: Chance, job: int)
    requires job != f.claim.job
    ensures var o := Step(f, db, ch);
            |o.effects| <= 1 && ViewOf(o.db, trace + o.effects, job) == ViewOf(db, trace, job)
  {
    var o := Step(f, db, ch);
    StepIsOneTransaction(f, db, ch);
    TransactionUnseen(f, db, ch, o.db, job);
    StepEffects(f, db, ch);
    ViewAppend(o.db, trace, o.effects, job);
  }

  lemma StepEffects(f: Finalizer, db: Db, ch: Chance)
    ensures var o := Step(f, db, ch); |o.effects| <= 1 && (o.effects != [] ==> o.effects[0].job == f.claim.job)
  {
    if f.pc.At? {
      match f.pc.point
      case _ =>
    }
  }

  lemma StepEvolves(f: Finalizer, db: Db, ch: Chance)
    ensures Evolves(db, Step(f, db, ch).db)
  {
    StepIsOneTransaction(f, db, ch);
    EvolvesReflexive(db);
    ApplyEvolves(db, ch.now, Carried(f.claim, StepOp(f, ch)));
  }

  lemma StoreKeeps(f: Finalizer, db: Db, ch: Chance)
    requires !f.pc.At? && !f.pc.Await? && !f.pc.Abandon? && !f.pc.Acquire?
    ensures var g := StoreStep(f, db, ch).f;
            && g.claim == f.claim && g.success == f.success && g.token == f.token && g.content == f.content
            && (!f.pc.Returned? ==> g.pc != Returned(true))
  {
    match f.pc
    case AdvanceTo(to) => ProceedStays(f.(stage := to));
    case _ =>
  }

  lemma AcquireKeeps(f: Finalizer, db: Db, ch: Chance)
    ensures var g := AcquireStep(f, db, ch).f;
            g.claim == f.claim && g.success == f.success && g.token == f.token && g.content == f.content && g.pc != Returned(true)
  {
  }

  lemma StepKeepsCall(f: Finalizer, db: Db, ch: Chance)
    ensures var g := Step(f, db, ch).f; g.claim == f.claim && g.success == f.success && g.token == f.token && g.content == f.content
  {
    if f.pc.At? {
      CallKeeps(f, db, ch);
    } else if f.pc.Await? {
      ReplyKeeps(f, db, ch);
    } else if f.pc.Acquire? {
      AcquireKeeps(f, db, ch);
    } else if !f.pc.Abandon? {
      StoreKeeps(f, db, ch);
    }
  }

  /** The claim of a finalizer that returned without error is over, and a success has completed its job. */
  ghost predicate Settled(f: Finalizer, db: Db) {
    f.pc == Returned(true) ==> Gone(db, f.claim) && (f.success ==> IsCompleted(db, f.claim.job))
  }

  lemma CompleteSettles(db: Db, now: Time, c: Claim)
    requires Complete(db, now, c).result.Ok?
    ensures var after := Complete(db, now, c).db; Gone(after, c) && IsCompleted(after, c.job)
  {
  }

  lemma FailSettles(db: Db, now: Time, c: Claim, d: Diagnostic)
    requires Fail(db, now, c, d).result.Ok?
    ensures Gone(Fail(db, now, c, d).db, c)
  {
  }

  lemma FinishCallSettles(f: Finalizer, db: Db, ch: Chance)
    requires f.pc == At(Finish)
    ensures var o := CallStep(f, db, ch); Settled(o.f, o.db)
  {
    if f.success {
      if Complete(db, ch.now, f.claim).result.Ok? {
        CompleteSettles(db, ch.now, f.claim);
      }
    } else if f.failure.Some? {
      if Fail(db, ch.now, f.claim, f.failure.value).result.Ok? {
        FailSettles(db, ch.now, f.claim, f.failure.value);
      }
    }
  }

  lemma OnlyFinishReturnsOk(f: Finalizer, db: Db, ch: Chance)
    requires f.pc != At(Finish) && !f.pc.Returned?
    ensures Step(f, db, ch).f.pc != Returned(true)
  {
    if f.pc.At? {
      CallKeeps(f, db, ch);
    } else if f.pc.Await? {
      ReplyKeeps(f, db, ch);
    } else if f.pc.Acquire? {
      AcquireKeeps(f, db, ch);
    } else if !f.pc.Abandon? {
      StoreKeeps(f, db, ch);
    }
  }

  lemma FinishSettles(f: Finalizer, db: Db, ch: Chance)
    requires Settled(f, db)
    ensures var o := Step(f, db, ch); Settled(o.f, o.db)
  {
    if f.pc == At(Finish) {
      FinishCallSettles(f, db, ch);
    } else if !f.pc.Returned? {
      OnlyFinishReturnsOk(f, db, ch);
    }
  }

  lemma SettledIsStable(f: Finalizer, a: Db, b: Db)
    requires Settled(f, a) && Evolves(a, b)
    ensures Settled(f, b)
  {
    if f.pc == Returned(true) {
      GoneIsStable(a, b, f.claim);
      assert JobEvolves(a.JobAt(f.claim.job), b.JobAt(f.claim.job));
    }
  }

  // ----- The system invariant -----------------------------------------------------------------

  function At0(s: Sys, job: int): View {
    ViewOf(s.db, s.trace, job)
  }

  ghost predicate SysInv(s: Sys) {
    && (forall job :: JobInv(At0(s, job)))
    && (forall p | 0 <= p < |s.fins| :: FinInv(s.fins[p], At0(s, s.fins[p].claim.job)))
    && (forall p, q | 0 <= p < q < |s.fins| && s.fins[p].claim.job == s.fins[q].claim.job ::
          !(InWindow(s.fins[p].pc) && InWindow(s.fins[q].pc)))
    && (forall p | 0 <= p < |s.fins| :: Settled(s.fins[p], s.db))
  }

  /** A step of finalizer `p` that is right for its own job, and that no other job can see. */
  lemma ReplacingKeepsInv(s: Sys, p: nat, g: Finalizer, db: Db, effects: seq<Effect>)
    requires SysInv(s) && p < |s.fins| && g.claim == s.fins[p].claim
    requires var job := g.claim.job; StepOk(s.fins[p], At0(s, job), g, ViewOf(db, s.trace + effects, job))
    requires forall job | job != g.claim.job :: ViewOf(db, s.trace + effects, job) == At0(s, job)
    requires Evolves(s.db, db) && Settled(g, db)
    ensures SysInv(Sys(db, s.fins[p := g], s.trace + effects))
  {
    var f := s.fins[p];
    var t := Sys(db, s.fins[p := g], s.trace + effects);
    forall job ensures JobInv(At0(t, job)) {
      assert JobInv(At0(s, job));
      assert At0(t, job) == ViewOf(db, s.trace + effects, job);
    }
    forall q | 0 <= q < |t.fins| ensures FinInv(t.fins[q], At0(t, t.fins[q].claim.job)) && Settled(t.fins[q], t.db) {
      if q != p {
        var h := s.fins[q];
        assert FinInv(h, At0(s, h.claim.job));
        if h.claim.job == f.claim.job {
          assert !(InWindow(f.pc) && InWindow(h.pc));
          OthersKeep(h, At0(s, h.claim.job), At0(t, h.claim.job), InWindow(f.pc));
        }
        SettledIsStable(h, s.db, db);
      }
    }
    forall q, r | 0 <= q < r < |t.fins| && t.fins[q].claim.job == t.fins[r].claim.job
      ensures !(InWindow(t.fins[q].pc) && InWindow(t.fins[r].pc))
    {
      if q == p || r == p {
        var h := s.fins[if q == p then r else q];
        assert FinInv(h, At0(s, h.claim.job));
      }
    }
  }

  lemma StepKeepsInv(s: Sys, p: nat, ch: Chance)
    requires SysInv(s) && p < |s.fins|
    ensures SysInv(Next(s, StepOf(p, ch)))
  {
    var f := s.fins[p];
    OwnStepOk(f, s.db, s.trace, ch);
    StepKeepsCall(f, s.db, ch);
    StepEvolves(f, s.db, ch);
    FinishSettles(f, s.db, ch);
    forall job | job != f.claim.job
      ensures ViewOf(Step(f, s.db, ch).db, s.trace + Step(f, s.db, ch).effects, job) == At0(s, job)
    {
      OtherJobUnseen(f, s.db, s.trace, ch, job);
    }
    ReplacingKeepsInv(s, p, Step(f, s.db, ch).f, Step(f, s.db, ch).db, Step(f, s.db, ch).effects);
  }

  lemma OutsideViewKeeps(db: Db, trace: seq<Effect>, now: Time, op: Op, job: int)
    requires OutsideOp(op) && JobInv(ViewOf(db, trace, job))
    ensures var w := ViewOf(Apply(db, now, op), trace, job); JobInv(w) && Rely(ViewOf(db, trace, job), w, false)
  {
    OutsideKeepsView(db, now, op, job);
  }

  lemma TablesKeepInv(s: Sys, db: Db)
    requires SysInv(s) && Evolves(s.db, db) && ViewsKeep(s, db)
    ensures SysInv(s.(db := db))
  {
    var t := s.(db := db);
    forall job ensures JobInv(At0(t, job)) {
      assert JobInv(ViewOf(db, s.trace, job));
    }
    forall p | 0 <= p < |s.fins| ensures FinInv(s.fins[p], At0(t, s.fins[p].claim.job)) && Settled(s.fins[p], t.db) {
      assert FinInv(s.fins[p], At0(s, s.fins[p].claim.job));
      assert Rely(At0(s, s.fins[p].claim.job), ViewOf(db, s.trace, s.fins[p].claim.job), false);
      OthersKeep(s.fins[p], At0(s, s.fins[p].claim.job), At0(t, s.fins[p].claim.job), false);
      SettledIsStable(s.fins[p], s.db, t.db);
    }
  }

  ghost predicate ViewsKeep(s: Sys, db: Db) {
    forall job :: JobInv(ViewOf(db, s.trace, job)) && Rely(At0(s, job), ViewOf(db, s.trace, job), false)
  }

  lemma OutsideViewsKeep(s: Sys, now: Time, op: Op, db: Db)
    requires SysInv(s) && OutsideOp(op) && db == Apply(s.db, now, op)
    ensures ViewsKeep(s, db)
  {
    forall job ensures JobInv(ViewOf(db, s.trace, job)) && Rely(At0(s, job), ViewOf(db, s.trace, job), false) {
      assert JobInv(At0(s, job));
      OutsideViewKeeps(s.db, s.trace, now, op, job);
    }
  }

  lemma OutsideKeepsInv(s: Sys, now: Time, op: Op)
    requires SysInv(s) && OutsideOp(op)
    ensures SysInv(Next(s, Outside(now, op)))
  {
    OutsideViewsKeep(s, now, op, Apply(s.db, now, op));
    ApplyEvolves(s.db, now, op);
    TablesKeepInv(s, Apply(s.db, now, op));
  }

  lemma FreshOk(f: Finalizer, v: View)
    requires f.pc == Begin && f.stage == NotStarted && f.dispatch == Unreserved
    ensures FinInv(f, v) && !InWindow(f.pc)
  {
  }

  lemma NewFinalizerOk(s: Sys, f: Finalizer)
    requires SysInv(s) && f.pc == Begin && f.stage == NotStarted && f.dispatch == Unreserved
    ensures SysInv(s.(fins := s.fins + [f]))
  {
    var t := s.(fins := s.fins + [f]);
    FreshOk(f, At0(s, f.claim.job));
    forall job ensures JobInv(At0(t, job)) {
      SameTablesSameView(s, t, job);
    }
    forall p | 0 <= p < |t.fins| ensures FinInv(t.fins[p], At0(t, t.fins[p].claim.job)) && Settled(t.fins[p], t.db) {
      NewAmongAll(s, f, p);
    }
    forall p, q | 0 <= p < q < |t.fins| && t.fins[p].claim.job == t.fins[q].claim.job
      ensures !(InWindow(t.fins[p].pc) && InWindow(t.fins[q].pc))
    {
      NewIsApart(s, f, p, q);
    }
  }

  lemma SameTablesSameView(s: Sys, t: Sys, job: int)
    requires SysInv(s) && t.db == s.db && t.trace == s.trace
    ensures At0(t, job) == At0(s, job) && JobInv(At0(t, job))
  {
  }

  lemma NewIsApart(s: Sys, f: Finalizer, p: nat, q: nat)
    requires SysInv(s) && f.pc == Begin && p < q <= |s.fins|
    ensures var fins := s.fins + [f]; fins[p].claim.job == fins[q].claim.job ==> !(InWindow(fins[p].pc) && InWindow(fins[q].pc))
  {
  }

  lemma NewAmongAll(s: Sys, f: Finalizer, p: nat)
    requires SysInv(s) && FinInv(f, At0(s, f.claim.job)) && f.pc == Begin && p <= |s.fins|
    ensures var g := (s.fins + [f])[p]; FinInv(g, At0(s.(fins := s.fins + [f]), g.claim.job)) && Settled(g, s.db)
  {
    if p < |s.fins| {
      assert FinInv(s.fins[p], At0(s, s.fins[p].claim.job)) && Settled(s.fins[p], s.db);
    }
  }

  lemma StartKeepsInv(s: Sys, success: bool, claim: Claim, token: string, content: string)
    requires SysInv(s)
    ensures SysInv(Next(s, Start(success, claim, token, content)))
  {
    NewFinalizerOk(s, Finalizer(success, claim, token, content, Begin, NotStarted, Unreserved, None));
  }

  lemma StartInv()
    ensures SysInv(START)
  {
  }

  /** The invariant holds after every run of the composed system. */
  lemma {:induction false} RunKeepsInv(acts: seq<Act>)
    ensures SysInv(RunSys(acts))
    decreases |acts|
  {
    if acts == [] {
      StartInv();
    } else {
      var s, a := RunSys(acts[..|acts| - 1]), acts[|acts| - 1];
      RunKeepsInv(acts[..|acts| - 1]);
      NextKeepsInv(s, a);
    }
  }

  lemma NextKeepsInv(s: Sys, a: Act)
    requires SysInv(s)
    ensures SysInv(Next(s, a))
  {
    match a
    case Start(success, claim, token, content) => StartKeepsInv(s, success, claim, token, content);
    case StepOf(p, ch) => if p < |s.fins| { StepKeepsInv(s, p, ch); }
    case Outside(now, op) => if OutsideOp(op) { OutsideKeepsInv(s, now, op); }
  }

  // ----- What follows for every run -----------------------------------------------------------

  /** At most once: a job never has two dispatch calls, finished or in flight, that were not answered
      by the retry-safe refusal, and never two accepted ones. */
  lemma AtMostOnceDispatch(acts: seq<Act>, job: int)
    ensures var t := RunSys(acts).trace;
            && Count(t, DispatchCall(job)) <= Count(t, DispatchReply(job, Refused503)) + 1
            && Count(t, DispatchReply(job, AsWanted)) <= 1
  {
    RunKeepsInv(acts);
    assert JobInv(At0(RunSys(acts), job));
  }

  /** The three confirmations occur in this order before position `i`. */
  ghost predicate ConfirmedBefore(t: seq<Effect>, job: int, i: nat)
    requires i <= |t|
  {
    exists a, b, c | 0 <= a < b < c < i ::
      ConfirmsContent(t[a], job) && t[b] == TagConfirmed(job, AddComplete) && t[c] == TagConfirmed(job, RemoveFailed)
  }

  lemma {:induction false} ProgressFindsContent(t: seq<Effect>, job: int) returns (a: nat)
    requires Progress(t, job) >= 1
    ensures a < |t| && ConfirmsContent(t[a], job)
    decreases |t|
  {
    var n := |t| - 1;
    if Progress(t[..n], job) >= 1 {
      a := ProgressFindsContent(t[..n], job);
    } else {
      a := n;
    }
  }

  lemma {:induction false} ProgressFindsTag(t: seq<Effect>, job: int) returns (a: nat, b: nat)
    requires Progress(t, job) >= 2
    ensures a < b < |t| && ConfirmsContent(t[a], job) && t[b] == TagConfirmed(job, AddComplete)
    decreases |t|
  {
    var n := |t| - 1;
    if Progress(t[..n], job) >= 2 {
      a, b := ProgressFindsTag(t[..n], job);
    } else {
      a := ProgressFindsContent(t[..n], job);
      b := n;
    }
  }

  lemma {:induction false} ProgressFindsAll(t: seq<Effect>, job: int) returns (a: nat, b: nat, c: nat)
    requires Progress(t, job) >= 3
    ensures a < b < c < |t| && ConfirmsContent(t[a], job) && t[b] == TagConfirmed(job, AddComplete)
            && t[c] == TagConfirmed(job, RemoveFailed)
    decreases |t|
  {
    var n := |t| - 1;
    if Progress(t[..n], job) >= 3 {
      a, b, c := ProgressFindsAll(t[..n], job);
    } else {
      a, b := ProgressFindsTag(t[..n], job);
      c := n;
    }
  }

  lemma {:induction false} OrderedCalls(t: seq<Effect>, job: int, i: nat) returns (a: nat, b: nat, c: nat)
    requires Ordered(t, job) && i < |t| && t[i] == DispatchCall(job)
    ensures a < b < c < i && ConfirmsContent(t[a], job) && t[b] == TagConfirmed(job, AddComplete)
            && t[c] == TagConfirmed(job, RemoveFailed)
    decreases |t|
  {
    var n := |t| - 1;
    if i < n {
      a, b, c := OrderedCalls(t[..n], job, i);
    } else {
      a, b, c := ProgressFindsAll(t[..n], job);
    }
  }

  /** No dispatch is ever called before content, complete tag and failed-tag removal were confirmed, in that order. */
  lemma DispatchComesLast(acts: seq<Act>, job: int, i: nat)
    requires i < |RunSys(acts).trace| && RunSys(acts).trace[i] == DispatchCall(job)
    ensures ConfirmedBefore(RunSys(acts).trace, job, i)
  {
    RunKeepsInv(acts);
    assert JobInv(At0(RunSys(acts), job));
    var a, b, c := OrderedCalls(RunSys(acts).trace, job, i);
  }

  lemma {:induction false} CountFinds(t: seq<Effect>, e: Effect) returns (i: nat)
    requires Count(t, e) > 0
    ensures i < |t| && t[i] == e
    decreases |t|
  {
    var n := |t| - 1;
    if t[n] == e {
      i := n;
    } else {
      i := CountFinds(t[..n], e);
    }
  }

  /** Completion means delivery: a completed job was dispatched, accepted exactly once, after all confirmations. */
  lemma CompletionMeansDelivery(acts: seq<Act>, job: int)
    requires IsCompleted(RunSys(acts).db, job)
    ensures var s := RunSys(acts);
            && s.db.StageOf(job) == MetadataDispatched
            && s.db.DispatchOf(job) == Confirmed
            && Count(s.trace, DispatchReply(job, AsWanted)) == 1
            && Count(s.trace, DispatchCall(job)) == Count(s.trace, DispatchReply(job, Refused503)) + 1
            && exists i | 0 <= i < |s.trace| :: s.trace[i] == DispatchCall(job) && ConfirmedBefore(s.trace, job, i)
  {
    var s := RunSys(acts);
    RunKeepsInv(acts);
    assert JobInv(At0(s, job));
    var i := CountFinds(s.trace, DispatchCall(job));
    DispatchComesLast(acts, job, i);
  }

  lemma {:induction false} TablesEvolveOverRuns(acts: seq<Act>, k: nat)
    requires k <= |acts|
    ensures Evolves(RunSys(acts[..k]).db, RunSys(acts).db)
    decreases |acts| - k
  {
    if k == |acts| {
      assert acts[..k] == acts;
      EvolvesReflexive(RunSys(acts).db);
    } else {
      var s := RunSys(acts[..k]);
      assert acts[..k + 1][..k] == acts[..k];
      NextEvolves(s, acts[k]);
      TablesEvolveOverRuns(acts, k + 1);
      EvolvesTransitive(s.db, RunSys(acts[..k + 1]).db, RunSys(acts).db);
    }
  }

  lemma NextEvolves(s: Sys, a: Act)
    ensures Evolves(s.db, Next(s, a).db)
  {
    EvolvesReflexive(s.db);
    match a
    case Start(_, _, _, _) =>
    case StepOf(p, ch) => if p < |s.fins| { StepEvolves(s.fins[p], s.db, ch); }
    case Outside(now, op) => ApplyEvolves(s.db, now, op);
  }

  predicate SuccessStage(stage: Stage) {
    stage != NotStarted && !OnFailurePath(stage)
  }

  lemma ViewExcludes(v: View)
    requires JobInv(v)
    ensures !(v.completeTags > 0 && v.failureTags > 0) && !(v.calls > 0 && (v.failed || v.failureTags > 0))
  {
  }

  lemma NoSuccessBesideFailure(acts: seq<Act>, j: nat, k: nat, job: int)
    requires j <= |acts| && k <= |acts|
    ensures !(RunSys(acts[..j]).db.FailureOf(job).Some? && SuccessStage(RunSys(acts[..k]).db.StageOf(job)))
  {
    var s := RunSys(acts);
    RunKeepsInv(acts);
    assert JobInv(At0(s, job));
    TablesEvolveOverRuns(acts, j);
    TablesEvolveOverRuns(acts, k);
    assert StageLeq(RunSys(acts[..k]).db.StageOf(job), s.db.StageOf(job));
  }

  /** Success and failure exclude each other, at any two points of a run and in its effects. */
  lemma SuccessExcludesFailure(acts: seq<Act>, j: nat, k: nat, job: int)
    requires j <= |acts| && k <= |acts|
    ensures var s := RunSys(acts);
            && !(RunSys(acts[..j]).db.FailureOf(job).Some? && SuccessStage(RunSys(acts[..k]).db.StageOf(job)))
            && !(Count(s.trace, TagCall(job, AddComplete)) > 0 && Count(s.trace, TagCall(job, AddFailed)) > 0)
            && !(Count(s.trace, DispatchCall(job)) > 0 && (s.db.FailureOf(job).Some? || Count(s.trace, TagCall(job, AddFailed)) > 0))
  {
    NoSuccessBesideFailure(acts, j, k, job);
    RunKeepsInv(acts);
    ViewExcludes(At0(RunSys(acts), job));
  }

  /** A finalizer that returned without error has ended its claim; on the success path its job is completed. */
  lemma ReturnedOkSettles(acts: seq<Act>, p: nat)
    requires p < |RunSys(acts).fins| && RunSys(acts).fins[p].pc == Returned(true)
    ensures var s := RunSys(acts);
            Gone(s.db, s.fins[p].claim) && (s.fins[p].success ==> IsCompleted(s.db, s.fins[p].claim.job))
  {
    RunKeepsInv(acts);
    assert Settled(RunSys(acts).fins[p], RunSys(acts).db);
  }

  /** Once its claim is gone, no further step of a finalizer changes any table. */
  lemma StaleFinalizerIsInert(f: Finalizer, db: Db, ch: Chance)
    requires Gone(db, f.claim)
    ensures Step(f, db, ch).db == db
  {
    StepIsOneTransaction(f, db, ch);
    StaleClaimDoesNothing(db, ch.now, f.claim, StepOp(f, ch));
  }
}
