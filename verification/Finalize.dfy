/** The finalizer as a protocol: each store transaction and each external call is one step, so any
    number of finalizers may stall, crash or be overtaken between any two of their steps. */
module Finalize {
  import opened Common
  import opened QueueModel
  import opened QueueSpec

  /** What a tag mutation is for: which tag, and whether it must be there or must be gone. */
  datatype Goal = AddComplete | RemoveFailed | AddFailed

  /** The external calls, in the order of the code, and the final transaction. */
  datatype Point =
    | ReadDocument
    | PutContent
    | EnsureTag(goal: Goal)
    | ReadTags(goal: Goal)
    | PutTags(goal: Goal)
    | CallDispatch
    | Finish

  datatype Pc =
    | Begin                              // renew the job lease
    | Acquire                            // acquire the admission
    | RenewJob(next: Point)              // renew, first half: the job lease
    | RenewAdmission(next: Point)        // renew, second half: the admission
    | At(point: Point)                   // about to make the call
    | Await(point: Point)                // the call is in flight
    | AdvanceTo(to: Stage)
    | Reserve | Unreserve | Confirm      // the dispatch transactions
    | Abandon(why: Reason)               // an error is about to be turned into a job transition
    | Returned(ok: bool)

  datatype Reason = SourceChanged | Ambiguous | Interrupted

  datatype Finalizer = Finalizer(
    success: bool, claim: Claim, token: string, content: string, pc: Pc,
    stage: Stage, dispatch: Dispatch, failure: Option<Diagnostic>)

  /** A transaction may fail before it had any effect, or be reported as failed although it committed. */
  datatype Fault = NoFault | LostBefore | LostAfter

  /** What an external call answers. `Refused503` is the dispatcher's HTTP 503. */
  datatype Reply = Error | Refused503 | WrongSource | AsWanted | NotAsWanted

  /** Everything a step leaves to chance: the clock, lost transactions, cancellation, answers. */
  datatype Chance = Chance(now: Time, fault: Fault, cancelled: bool, reply: Reply)

  datatype Effect =
    | ContentCall(job: int, content: string)
    | ContentConfirmed(job: int, content: string)
    | TagCall(job: int, goal: Goal)
    | TagConfirmed(job: int, goal: Goal)
    | DispatchCall(job: int)
    | DispatchReply(job: int, reply: Reply)

  const LEASE := 300_000_000_000
  const RETRY_DELAY := 60_000_000_000

  datatype Outcome = Outcome(f: Finalizer, db: Db, effects: seq<Effect>)

  function Goto(f: Finalizer, pc: Pc, db: Db): Outcome {
    Outcome(f.(pc := pc), db, [])
  }

  function Emit(f: Finalizer, pc: Pc, db: Db, e: Effect): Outcome {
    Outcome(f.(pc := pc), db, [e])
  }

  /** The tables after the transaction under the fault, and whether the caller sees success. */
  function Attempt<T>(db: Db, tx: Tx<T>, fault: Fault): (Db, bool) {
    match fault
    case NoFault => (tx.db, tx.result.Ok?)
    case LostBefore => (db, false)
    case LostAfter => (tx.db, false)
  }

  /** Where the code goes once the local stage is reached. */
  function Proceed(f: Finalizer): Pc {
    if f.success then
      match f.stage
      case ContentUpdated => RenewJob(EnsureTag(AddComplete))
      case CompleteTagAdded => RenewJob(EnsureTag(RemoveFailed))
      case FailedTagRemoved => if f.dispatch == Unreserved then Reserve else AdvanceTo(MetadataDispatched)
      case MetadataDispatched => RenewJob(Finish)
      case _ => Abandon(Interrupted)
    else
      match f.stage
      case NotStarted => AdvanceTo(FailurePending)
      case FailurePending => RenewJob(EnsureTag(AddFailed))
      case FailureTagAdded => RenewJob(Finish)
      case _ => Abandon(Interrupted)
  }

  function AfterGoal(goal: Goal): Stage {
    match goal
    case AddComplete => CompleteTagAdded
    case RemoveFailed => FailedTagRemoved
    case AddFailed => FailureTagAdded
  }

  function LostLease(f: Finalizer, ch: Chance): Pc {
    if ch.cancelled then Abandon(Interrupted) else Returned(false)
  }

  function AcquireStep(f: Finalizer, db: Db, ch: Chance): Outcome {
    var tx := AcquireFinalization(db, ch.now, f.claim, f.token, LEASE);
    var (after, ok) := Attempt(db, tx, ch.fault);
    if !ok then Goto(f, Returned(false), after)
    else
      var got := tx.result.value;
      var g := f.(stage := got.stage, dispatch := got.dispatch, failure := got.failure);
      if f.success then
        Goto(g, if got.dispatch == Reserved then Abandon(Ambiguous) else RenewJob(ReadDocument), after)
      else if got.failure.None? || got.failure.value.category == UnknownCategory || Blank(got.failure.value.message) then
        Goto(g, Abandon(Interrupted), after)
      else
        Goto(g, Proceed(g), after)
  }

  /** A call is made, or a read is answered. */
  function CallStep(f: Finalizer, db: Db, ch: Chance): Outcome
    requires f.pc.At?
  {
    var job := f.claim.job;
    match f.pc.point
    case ReadDocument =>
      if ch.reply == Error || ch.reply == Refused503 then Goto(f, Abandon(Interrupted), db)
      else if ch.reply == WrongSource then Goto(f, Abandon(SourceChanged), db)
      else if f.stage != NotStarted then Goto(f, Proceed(f), db)
      else if ch.reply == AsWanted then Emit(f, AdvanceTo(ContentUpdated), db, ContentConfirmed(job, f.content))
      else Goto(f, RenewJob(PutContent), db)
    case PutContent => Emit(f, Await(PutContent), db, ContentCall(job, f.content))
    case EnsureTag(goal) =>
      Goto(f, if ch.reply == Error || ch.reply == Refused503 then Abandon(Interrupted) else RenewJob(ReadTags(goal)), db)
    case ReadTags(goal) =>
      if ch.reply == AsWanted then Emit(f, AdvanceTo(AfterGoal(goal)), db, TagConfirmed(job, goal))
      else if ch.reply == NotAsWanted then Goto(f, RenewJob(PutTags(goal)), db)
      else Goto(f, Abandon(Interrupted), db)
    case PutTags(goal) => Emit(f, Await(PutTags(goal)), db, TagCall(job, goal))
    case CallDispatch => Emit(f, Await(CallDispatch), db, DispatchCall(job))
    case Finish =>
      if ch.cancelled || (!f.success && f.failure.None?) then Goto(f, Returned(false), db)
      else
        var (after, ok) :=
          if f.success then Attempt(db, Complete(db, ch.now, f.claim), ch.fault)
          else Attempt(db, Fail(db, ch.now, f.claim, f.failure.value), ch.fault);
        Goto(f, if ok then Returned(true) else Abandon(Interrupted), after)
  }

  /** The answer to a call in flight arrives. */
  function ReplyStep(f: Finalizer, db: Db, ch: Chance): Outcome
    requires f.pc.Await?
  {
    var job := f.claim.job;
    match f.pc.point
    case PutContent =>
      if ch.reply == AsWanted then Emit(f, AdvanceTo(ContentUpdated), db, ContentConfirmed(job, f.content))
      else Goto(f, Abandon(Interrupted), db)
    case PutTags(goal) =>
      if ch.reply == AsWanted then Emit(f, AdvanceTo(AfterGoal(goal)), db, TagConfirmed(job, goal))
      else Goto(f, Abandon(Interrupted), db)
    case CallDispatch =>
      Emit(f,
        if ch.reply == AsWanted then Confirm else if ch.reply == Refused503 then Unreserve else Abandon(Ambiguous),
        db, DispatchReply(job, ch.reply))
    case _ => Goto(f, Abandon(Interrupted), db)
  }

  function Message(why: Reason): string {
    match why
    case SourceChanged => "OCR processing failed"
    case Ambiguous => "Paperless AI dispatch outcome is uncertain"
    case Interrupted => "OCR finalization interrupted"
  }

  function DiagnosticOf(why: Reason): Diagnostic {
    Diagnostic(if why == SourceChanged then Validation else if why == Ambiguous then Provider else Internal, Message(why))
  }

  /** The job transition an error leads to. */
  function AbandonOp(why: Reason, now: Time): LeaseOp {
    if why == Interrupted then ScheduleRetryOp(now + RETRY_DELAY, DiagnosticOf(why)) else FailOp(DiagnosticOf(why))
  }

  /** The error becomes a job transition, unless the heartbeat reports that the lease was lost. */
  function AbandonStep(f: Finalizer, db: Db, ch: Chance): Outcome
    requires f.pc.Abandon?
  {
    Goto(f, Returned(false),
      if ch.cancelled || ch.fault == LostBefore then db
      else ApplyLease(db, ch.now, f.claim, AbandonOp(f.pc.why, ch.now)))
  }

  function StoreStep(f: Finalizer, db: Db, ch: Chance): Outcome
    requires !f.pc.At? && !f.pc.Await? && !f.pc.Abandon? && !f.pc.Acquire?
  {
    match f.pc
    case Begin =>
      var (after, ok) := Attempt(db, RenewLease(db, ch.now, f.claim, LEASE), ch.fault);
      Goto(f, if ok then Acquire else LostLease(f, ch), after)
    case RenewJob(next) =>
      var (after, ok) := Attempt(db, RenewLease(db, ch.now, f.claim, LEASE), ch.fault);
      Goto(f, if ok then RenewAdmission(next) else LostLease(f, ch), after)
    case RenewAdmission(next) =>
      var (after, ok) := Attempt(db, RenewFinalization(db, ch.now, f.claim, f.token, LEASE), ch.fault);
      Goto(f, if ok then At(next) else LostLease(f, ch), after)
    case AdvanceTo(to) =>
      var (after, ok) := Attempt(db, Advance(db, ch.now, f.claim, f.token, f.stage, to), ch.fault);
      if ok then Goto(f.(stage := to), Proceed(f.(stage := to)), after) else Goto(f, Abandon(Interrupted), after)
    case Reserve =>
      var (after, ok) := Attempt(db, SetDispatch(db, ch.now, f.claim, f.token, Unreserved, Reserved), ch.fault);
      Goto(f, if ok then RenewJob(CallDispatch) else Abandon(Interrupted), after)
    case Unreserve =>
      var (after, _) := Attempt(db, SetDispatch(db, ch.now, f.claim, f.token, Reserved, Unreserved), ch.fault);
      Goto(f, Abandon(Interrupted), after)
    case Confirm =>
      var (after, ok) := Attempt(db, SetDispatch(db, ch.now, f.claim, f.token, Reserved, Confirmed), ch.fault);
      Goto(f, if ok then AdvanceTo(MetadataDispatched) else Abandon(Interrupted), after)
    case Returned(_) => Outcome(f, db, [])
  }

  /** One step of one finalizer. */
  function Step(f: Finalizer, db: Db, ch: Chance): Outcome {
    if f.pc.Acquire? then AcquireStep(f, db, ch)
    else if f.pc.At? then CallStep(f, db, ch)
    else if f.pc.Await? then ReplyStep(f, db, ch)
    else if f.pc.Abandon? then AbandonStep(f, db, ch)
    else StoreStep(f, db, ch)
  }

  // ----- The composed system ------------------------------------------------------------------

  /** The tables, every finalizer call ever started, and the external effects in order. */
  datatype Sys = Sys(db: Db, fins: seq<Finalizer>, trace: seq<Effect>)

  /** What the rest of the service does to the tables. Only finalizers advance stages, change
      dispatch states and complete jobs; any other transaction may come from anyone at any time,
      which covers claims, takeovers, heartbeats, recovery, workers and operator retries. */
  predicate OutsideOp(op: Op) {
    match op
    case Carried(_, OnFinalization(AdvanceOp(_, _, _))) => false
    case Carried(_, OnFinalization(SetDispatchOp(_, _, _))) => false
    case Carried(_, OnLease(CompleteOp)) => false
    case _ => true
  }

  datatype Act =
    | Start(success: bool, claim: Claim, token: string, content: string)
    | StepOf(p: nat, ch: Chance)
    | Outside(now: Time, op: Op)

  function Next(s: Sys, a: Act): Sys {
    match a
    case Start(success, claim, token, content) =>
      s.(fins := s.fins + [Finalizer(success, claim, token, content, Begin, NotStarted, Unreserved, None)])
    case StepOf(p, ch) =>
      if p < |s.fins| then
        var o := Step(s.fins[p], s.db, ch);
        Sys(o.db, s.fins[p := o.f], s.trace + o.effects)
      else s
    case Outside(now, op) => if OutsideOp(op) then s.(db := Apply(s.db, now, op)) else s
  }

  const START := Sys(EMPTY, [], [])

  /** Any interleaving whatever; a crash or a stall is a finalizer that gets no further step. */
  function RunSys(acts: seq<Act>): Sys
    decreases |acts|
  {
    if acts == [] then START else Next(RunSys(acts[..|acts| - 1]), acts[|acts| - 1])
  }
}
