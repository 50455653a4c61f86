/** The finalizer as it is written: straight-line code over the queue and the remote services. Everything
    that happens is recorded as a run of the protocol, so what holds for all runs holds for this code. */
module Finalizing {
  import opened Common
  import opened QueueModel
  import QueueSpec
  import opened QueueLaws
  import opened Queue
  import opened Finalize
  import FinalizeLaws
  import Publishing

  /** The errors of the code: the lease or the admission is lost, or a job transition has to follow. */
  datatype Problem = Lost | NotAdmitted | Because(why: Reason)

  function After(e: Problem): Pc {
    match e
    case Because(why) => Abandon(why)
    case _ => Returned(false)
  }

  /** The service as a whole: the queue, the finalizer calls, and the acts and effects so far. */
  class System {
    const store: Queue
    var fins: seq<Finalizer>
    ghost var trace: seq<Effect>
    ghost var acts: seq<Act>
    ghost const run: seq<Act> -> Sys

    /** The system is where the recorded run has led. */
    ghost predicate Valid()
      reads this, store
    {
      run(acts) == Sys(store.State(), fins, trace) && forall xs {:trigger RunSys(xs)} :: run(xs) == RunSys(xs)
    }

    /** Finalizer `p` is in the state `f` of the protocol. */
    ghost predicate Now(p: nat, f: Finalizer)
      reads this, store
    {
      Valid() && p < |fins| && fins[p] == f
    }

    constructor ()
      ensures Valid() && fresh(store) && fins == [] && acts == []
    {
      store := new Queue();
      fins, trace, acts, run := [], [], [], RunSys;
      assert RunSys([]) == START;
    }

    lemma OneMoreAct(a: Act)
      requires forall xs {:trigger RunSys(xs)} :: run(xs) == RunSys(xs)
      ensures run(acts + [a]) == Next(run(acts), a)
    {
      assert (acts + [a])[..|acts|] == acts;
      assert RunSys(acts + [a]) == Next(RunSys(acts), a);
    }

    /** What the protocol guarantees holds of the effects that were really made. */
    lemma Guarantees(job: int)
      requires Valid()
      ensures FinalizeLaws.Count(trace, DispatchCall(job)) <= FinalizeLaws.Count(trace, DispatchReply(job, Refused503)) + 1
      ensures FinalizeLaws.IsCompleted(store.State(), job) ==>
                && store.State().StageOf(job) == MetadataDispatched && store.State().DispatchOf(job) == Confirmed
                && FinalizeLaws.Count(trace, DispatchReply(job, AsWanted)) == 1
      ensures forall i | 0 <= i < |trace| && trace[i] == DispatchCall(job) :: FinalizeLaws.ConfirmedBefore(trace, job, i)
    {
      assert RunSys(acts) == run(acts);
      FinalizeLaws.AtMostOnceDispatch(acts, job);
      if FinalizeLaws.IsCompleted(store.State(), job) {
        FinalizeLaws.CompletionMeansDelivery(acts, job);
      }
      forall i | 0 <= i < |trace| && trace[i] == DispatchCall(job) ensures FinalizeLaws.ConfirmedBefore(trace, job, i) {
        FinalizeLaws.DispatchComesLast(acts, job, i);
      }
    }

    /** A call that returned without error has settled its job. */
    lemma ReturnSettles(p: nat, f: Finalizer)
      requires Now(p, f) && f.pc == Returned(true)
      ensures Gone(store.State(), f.claim) && (f.success ==> FinalizeLaws.IsCompleted(store.State(), f.claim.job))
    {
      assert RunSys(acts) == run(acts);
      FinalizeLaws.ReturnedOkSettles(acts, p);
    }

    /** All content that was really sent or confirmed for a job is one text, if every call was given content
        that the checkpoints of its job determined. */
    lemma PublishesOnce(i: nat, k: nat, suspicious: string -> bool)
      requires Valid() && Publishing.Supplied(acts, suspicious) && i < |trace| && k < |trace|
      requires Publishing.Publishes(trace[i]) && Publishing.Publishes(trace[k]) && trace[i].job == trace[k].job
      ensures trace[i].content == trace[k].content
    {
      assert RunSys(acts) == run(acts);
      Publishing.OneContentPublished(acts, i, k, suspicious);
    }

    method Start(success: bool, claim: Claim, token: string, content: string) returns (p: nat)
      requires Valid()
      modifies `fins, `acts
      ensures Now(p, Finalizer(success, claim, token, content, Begin, NotStarted, Unreserved, None)) && fins == old(fins) + [fins[p]]
      ensures acts == old(acts) + [Act.Start(success, claim, token, content)]
    {
      OneMoreAct(Act.Start(success, claim, token, content));
      p := |fins|;
      fins := fins + [Finalizer(success, claim, token, content, Begin, NotStarted, Unreserved, None)];
      acts := acts + [Act.Start(success, claim, token, content)];
    }

    /** Records that finalizer `p` has taken its step; the transaction itself has just been made. */
    method Commit(p: nat, ch: Chance, db: Db)
      requires p < |fins| && run(acts) == Sys(db, fins, trace) && forall xs {:trigger RunSys(xs)} :: run(xs) == RunSys(xs)
      requires store.State() == Step(fins[p], db, ch).db
      modifies `fins, `trace, `acts
      ensures Valid() && fins == old(fins)[p := Step(old(fins[p]), db, ch).f] && acts == old(acts) + [StepOf(p, ch)]
    {
      OneMoreAct(StepOf(p, ch));
      var o := Step(fins[p], db, ch);
      fins := fins[p := o.f];
      trace := trace + o.effects;
      acts := acts + [StepOf(p, ch)];
    }

    /** Anybody else does something. */
    method Perform(a: Act)
      requires Valid()
      modifies this, store
      ensures Valid() && acts == old(acts) + [a] && |fins| >= |old(fins)|
      ensures forall q | 0 <= q < |old(fins)| && !(a.StepOf? && a.p == q) :: fins[q] == old(fins)[q]
    {
      match a {
        case Start(success, claim, token, content) => var _ := Start(success, claim, token, content);
        case StepOf(q, ch) =>
          OneMoreAct(a);
          if q < |fins| {
            var db := store.State();
            var o := Step(fins[q], db, ch);
            FinalizeLaws.StepIsOneTransaction(fins[q], db, ch);
            if o.db != db {
              store.Apply(ch.now, QueueSpec.Carried(fins[q].claim, FinalizeLaws.StepOp(fins[q], ch)));
            }
            Commit(q, ch, db);
          } else {
            acts := acts + [a];
          }
        case Outside(now, op) =>
          OneMoreAct(a);
          if OutsideOp(op) {
            store.Apply(now, op);
          }
          acts := acts + [a];
      }
    }

    /** Everybody but finalizer `p` does anything. */
    method Others(p: nat)
      requires Valid() && p < |fins|
      modifies this, store
      ensures Valid() && p < |fins| && fins[p] == old(fins[p]) && old(acts) <= acts
    {
      var others: seq<Act> := *;
      for i := 0 to |others|
        invariant Valid() && p < |fins| && fins[p] == old(fins[p]) && old(acts) <= acts
      {
        if !(others[i].StepOf? && others[i].p == p) {
          Perform(others[i]);
        }
      }
    }
  }

  class Code {
    const system: System
    var active: bool

    constructor (system: System)
      ensures this.system == system && !active
    {
      this.system, active := system, false;
    }

    // ----- Store calls ----------------------------------------------------------------------------

    /** A transaction that may be lost before or after it committed. */
    method TryRenewLease(c: Claim, ch: Chance) returns (ok: bool)
      modifies system.store
      ensures (system.store.State(), ok) ==
              Attempt(old(system.store.State()), QueueSpec.RenewLease(old(system.store.State()), ch.now, c, LEASE), ch.fault)
    {
      ok := false;
      if ch.fault != LostBefore {
        var r := system.store.RenewLease(ch.now, c, LEASE);
        ok := r.Ok? && ch.fault == NoFault;
      }
    }

    method TryRenewFinalization(c: Claim, token: string, ch: Chance) returns (ok: bool)
      modifies system.store
      ensures (system.store.State(), ok) ==
              Attempt(old(system.store.State()), QueueSpec.RenewFinalization(old(system.store.State()), ch.now, c, token, LEASE), ch.fault)
    {
      ok := false;
      if ch.fault != LostBefore {
        var r := system.store.RenewFinalization(ch.now, c, token, LEASE);
        ok := r.Ok? && ch.fault == NoFault;
      }
    }

    method TryAdvance(c: Claim, token: string, from: Stage, to: Stage, ch: Chance) returns (ok: bool)
      modifies system.store
      ensures (system.store.State(), ok) ==
              Attempt(old(system.store.State()), QueueSpec.Advance(old(system.store.State()), ch.now, c, token, from, to), ch.fault)
    {
      ok := false;
      if ch.fault != LostBefore {
        var r := system.store.Advance(ch.now, c, token, from, to);
        ok := r.Ok? && ch.fault == NoFault;
      }
    }

    method TrySetDispatch(c: Claim, token: string, from: Dispatch, to: Dispatch, ch: Chance) returns (ok: bool)
      modifies system.store
      ensures (system.store.State(), ok) ==
              Attempt(old(system.store.State()), QueueSpec.SetDispatch(old(system.store.State()), ch.now, c, token, from, to), ch.fault)
    {
      ok := false;
      if ch.fault != LostBefore {
        var r := system.store.SetDispatch(ch.now, c, token, from, to);
        ok := r.Ok? && ch.fault == NoFault;
      }
    }

    method RenewLease(p: nat, ghost f: Finalizer) returns (e: Option<Problem>)
      requires system.Now(p, f) && (f.pc.Begin? || f.pc.RenewJob?)
      modifies system, system.store
      ensures system.Now(p, f.(pc := if e.Some? then After(e.value) else if f.pc.Begin? then Acquire else RenewAdmission(f.pc.next)))
    {
      system.Others(p);
      var db, ch: Chance := system.store.State(), *;
      var ok := TryRenewLease(system.fins[p].claim, ch);
      system.Commit(p, ch, db);
      e := if ok then None else if ch.cancelled then Some(Because(Interrupted)) else Some(Lost);
    }

    method RenewFinalization(p: nat, ghost f: Finalizer) returns (e: Option<Problem>)
      requires system.Now(p, f) && f.pc.RenewAdmission?
      modifies system, system.store
      ensures system.Now(p, f.(pc := if e.Some? then After(e.value) else At(f.pc.next)))
    {
      system.Others(p);
      var db, ch: Chance := system.store.State(), *;
      var ok := TryRenewFinalization(system.fins[p].claim, system.fins[p].token, ch);
      system.Commit(p, ch, db);
      e := if ok then None else if ch.cancelled then Some(Because(Interrupted)) else Some(Lost);
    }

    method Renew(p: nat, ghost f: Finalizer) returns (e: Option<Problem>)
      requires system.Now(p, f) && f.pc.RenewJob?
      modifies system, system.store
      ensures system.Now(p, f.(pc := if e.Some? then After(e.value) else At(f.pc.next)))
    {
      e := RenewLease(p, f);
      if e.None? {
        e := RenewFinalization(p, f.(pc := RenewAdmission(f.pc.next)));
      }
    }

    /** Where a finalizer goes once it is admitted. */
    ghost function Admitted(f: Finalizer, state: FinalizationState): Finalizer {
      var g := f.(stage := state.stage, dispatch := state.dispatch, failure := state.failure);
      if f.success then g.(pc := if state.dispatch == Reserved then Abandon(Ambiguous) else RenewJob(ReadDocument))
      else if MissingIntent(state) then g.(pc := Abandon(Interrupted))
      else g.(pc := Proceed(g))
    }

    predicate MissingIntent(state: FinalizationState) {
      state.failure.None? || state.failure.value.category == UnknownCategory || Blank(state.failure.value.message)
    }

    method AcquireFinalization(p: nat, ghost f: Finalizer) returns (state: Result<FinalizationState, Problem>)
      requires system.Now(p, f) && f.pc.Acquire?
      modifies system, system.store
      ensures system.Now(p, if state.Err? then f.(pc := After(state.error)) else Admitted(f, state.value))
      ensures state.Err? ==> state.error == NotAdmitted
    {
      system.Others(p);
      var db, ch: Chance := system.store.State(), *;
      state := Err(NotAdmitted);
      if ch.fault != LostBefore {
        var r := system.store.AcquireFinalization(ch.now, system.fins[p].claim, system.fins[p].token, LEASE);
        if r.Ok? && ch.fault == NoFault {
          state := Ok(r.value);
        }
      }
      system.Commit(p, ch, db);
    }

    method Advance(p: nat, from: Stage, to: Stage, ghost f: Finalizer) returns (e: Option<Problem>)
      requires system.Now(p, f) && f.pc == AdvanceTo(to) && f.stage == from
      modifies system, system.store
      ensures system.Now(p, if e.Some? then f.(pc := After(e.value)) else f.(stage := to, pc := Proceed(f.(stage := to))))
    {
      system.Others(p);
      var db, ch: Chance := system.store.State(), *;
      var ok := TryAdvance(system.fins[p].claim, system.fins[p].token, from, to, ch);
      system.Commit(p, ch, db);
      e := if ok then None else Some(Because(Interrupted));
    }

    method ReserveDispatch(p: nat, ghost f: Finalizer) returns (e: Option<Problem>)
      requires system.Now(p, f) && f.pc.Reserve?
      modifies system, system.store
      ensures system.Now(p, f.(pc := if e.Some? then After(e.value) else RenewJob(CallDispatch)))
    {
      system.Others(p);
      var db, ch: Chance := system.store.State(), *;
      var ok := TrySetDispatch(system.fins[p].claim, system.fins[p].token, Unreserved, Reserved, ch);
      system.Commit(p, ch, db);
      e := if ok then None else Some(Because(Interrupted));
    }

    /** Whether or not the reset commits, the job is retried later. */
    method ResetDispatch(p: nat, ghost f: Finalizer) returns (e: Option<Problem>)
      requires system.Now(p, f) && f.pc.Unreserve?
      modifies system, system.store
      ensures system.Now(p, f.(pc := Abandon(Interrupted)))
    {
      system.Others(p);
      var db, ch: Chance := system.store.State(), *;
      var ok := TrySetDispatch(system.fins[p].claim, system.fins[p].token, Reserved, Unreserved, ch);
      system.Commit(p, ch, db);
      e := if ok then None else Some(Because(Interrupted));
    }

    method ConfirmDispatch(p: nat, ghost f: Finalizer) returns (e: Option<Problem>)
      requires system.Now(p, f) && f.pc.Confirm?
      modifies system, system.store
      ensures system.Now(p, f.(pc := if e.Some? then After(e.value) else AdvanceTo(MetadataDispatched)))
    {
      system.Others(p);
      var db, ch: Chance := system.store.State(), *;
      var ok := TrySetDispatch(system.fins[p].claim, system.fins[p].token, Reserved, Confirmed, ch);
      system.Commit(p, ch, db);
      e := if ok then None else Some(Because(Interrupted));
    }

    method TryComplete(c: Claim, ch: Chance) returns (ok: bool)
      modifies system.store
      ensures (system.store.State(), ok) ==
              Attempt(old(system.store.State()), QueueSpec.Complete(old(system.store.State()), ch.now, c), ch.fault)
    {
      ok := false;
      if ch.fault != LostBefore {
        var r := system.store.Complete(ch.now, c);
        ok := r.Ok? && ch.fault == NoFault;
      }
    }

    method TryFail(c: Claim, d: Diagnostic, ch: Chance) returns (ok: bool)
      modifies system.store
      ensures (system.store.State(), ok) ==
              Attempt(old(system.store.State()), QueueSpec.Fail(old(system.store.State()), ch.now, c, d), ch.fault)
    {
      ok := false;
      if ch.fault != LostBefore {
        var r := system.store.Fail(ch.now, c, d);
        ok := r.Ok? && ch.fault == NoFault;
      }
    }

    // ----- Remote calls ---------------------------------------------------------------------------

    /** A read: the answer arrives in the step that asks. */
    method Ask(p: nat, ghost f: Finalizer) returns (reply: Reply, ghost ch: Chance)
      requires system.Now(p, f) && f.pc.At?
      requires f.pc.point == ReadDocument || f.pc.point.EnsureTag? || f.pc.point.ReadTags?
      modifies system, system.store
      ensures ch.reply == reply && exists db :: system.Now(p, CallStep(f, db, ch).f)
    {
      system.Others(p);
      var db, c: Chance := system.store.State(), *;
      ch := c;
      system.Commit(p, c, db);
      reply := c.reply;
      assert system.Now(p, CallStep(f, db, ch).f);
    }

    method GetDocument(p: nat, ghost f: Finalizer) returns (e: Option<Problem>, wanted: bool)
      requires system.Now(p, f) && f.pc == At(ReadDocument)
      modifies system, system.store
      ensures system.Now(p, f.(pc := if e.Some? then After(e.value) else if f.stage != NotStarted then Proceed(f)
                                     else if wanted then AdvanceTo(ContentUpdated) else RenewJob(PutContent)))
    {
      var reply;
      ghost var ch;
      reply, ch := Ask(p, f);
      wanted := reply == AsWanted;
      e := if reply == Error || reply == Refused503 then Some(Because(Interrupted))
           else if reply == WrongSource then Some(Because(SourceChanged)) else None;
    }

    method EnsureTag(p: nat, goal: Goal, ghost f: Finalizer) returns (e: Option<Problem>)
      requires system.Now(p, f) && f.pc == At(Point.EnsureTag(goal))
      modifies system, system.store
      ensures system.Now(p, f.(pc := if e.Some? then After(e.value) else RenewJob(ReadTags(goal))))
    {
      var reply;
      ghost var ch;
      reply, ch := Ask(p, f);
      e := if reply == Error || reply == Refused503 then Some(Because(Interrupted)) else None;
    }

    method GetTags(p: nat, goal: Goal, ghost f: Finalizer) returns (e: Option<Problem>, wanted: bool)
      requires system.Now(p, f) && f.pc == At(ReadTags(goal))
      modifies system, system.store
      ensures system.Now(p, f.(pc := if e.Some? then After(e.value) else if wanted then AdvanceTo(AfterGoal(goal))
                                     else RenewJob(PutTags(goal))))
    {
      var reply;
      ghost var ch;
      reply, ch := Ask(p, f);
      wanted := reply == AsWanted;
      e := if reply == AsWanted || reply == NotAsWanted then None else Some(Because(Interrupted));
    }

    /** A write: others may run between the call and its answer. */
    method Send(p: nat, ghost f: Finalizer) returns (reply: Reply)
      requires system.Now(p, f) && f.pc.At?
      requires f.pc.point == PutContent || f.pc.point.PutTags? || f.pc.point == CallDispatch
      modifies system, system.store
      ensures exists db, ch: Chance :: ch.reply == reply && system.Now(p, ReplyStep(f.(pc := Await(f.pc.point)), db, ch).f)
    {
      system.Others(p);
      var db, ch: Chance := system.store.State(), *;
      system.Commit(p, ch, db);
      system.Others(p);
      var later, answer: Chance := system.store.State(), *;
      system.Commit(p, answer, later);
      reply := answer.reply;
      assert system.Now(p, ReplyStep(f.(pc := Await(f.pc.point)), later, answer).f);
    }

    method UpdateContent(p: nat, ghost f: Finalizer) returns (e: Option<Problem>)
      requires system.Now(p, f) && f.pc == At(PutContent)
      modifies system, system.store
      ensures system.Now(p, f.(pc := if e.Some? then After(e.value) else AdvanceTo(ContentUpdated)))
    {
      var reply := Send(p, f);
      e := if reply == AsWanted then None else Some(Because(Interrupted));
    }

    method UpdateTags(p: nat, goal: Goal, ghost f: Finalizer) returns (e: Option<Problem>)
      requires system.Now(p, f) && f.pc == At(PutTags(goal))
      modifies system, system.store
      ensures system.Now(p, f.(pc := if e.Some? then After(e.value) else AdvanceTo(AfterGoal(goal))))
    {
      var reply := Send(p, f);
      e := if reply == AsWanted then None else Some(Because(Interrupted));
    }

    /** Only HTTP 503 is known not to have dispatched anything. */
    method Dispatch(p: nat, ghost f: Finalizer) returns (ok: bool, retrySafe: bool)
      requires system.Now(p, f) && f.pc == At(CallDispatch)
      modifies system, system.store
      ensures system.Now(p, f.(pc := if ok then Confirm else if retrySafe then Unreserve else Abandon(Ambiguous)))
    {
      var reply := Send(p, f);
      ok, retrySafe := reply == AsWanted, reply == Refused503;
    }

    // ----- Sequences ------------------------------------------------------------------------------

    /** Makes sure that the tag is there, or is gone. */
    method MutateTag(p: nat, goal: Goal, ghost f: Finalizer) returns (e: Option<Problem>)
      requires system.Now(p, f) && f.pc == RenewJob(Point.EnsureTag(goal))
      modifies system, system.store
      ensures system.Now(p, f.(pc := if e.Some? then After(e.value) else AdvanceTo(AfterGoal(goal))))
    {
      e := Renew(p, f);
      if e.Some? {
        return;
      }
      e := EnsureTag(p, goal, f.(pc := At(Point.EnsureTag(goal))));
      if e.Some? {
        return;
      }
      e := Renew(p, f.(pc := RenewJob(ReadTags(goal))));
      if e.Some? {
        return;
      }
      var wanted;
      e, wanted := GetTags(p, goal, f.(pc := At(ReadTags(goal))));
      if e.Some? || wanted {
        return;
      }
      e := Renew(p, f.(pc := RenewJob(PutTags(goal))));
      if e.Some? {
        return;
      }
      e := UpdateTags(p, goal, f.(pc := At(PutTags(goal))));
    }

    /** A tag mutation and the durable stage it leads to. */
    method TagStage(p: nat, goal: Goal, from: Stage, ghost f: Finalizer) returns (e: Option<Problem>, ghost g: Finalizer)
      requires system.Now(p, f) && f.pc == RenewJob(Point.EnsureTag(goal)) && f.stage == from
      modifies system, system.store
      ensures system.Now(p, g)
      ensures g == if e.Some? then f.(pc := After(e.value)) else f.(stage := AfterGoal(goal), pc := Proceed(f.(stage := AfterGoal(goal))))
    {
      e := MutateTag(p, goal, f);
      g := f.(pc := if e.Some? then After(e.value) else AdvanceTo(AfterGoal(goal)));
      if e.None? {
        e := Advance(p, from, AfterGoal(goal), g);
        g := if e.Some? then f.(pc := After(e.value)) else f.(stage := AfterGoal(goal), pc := Proceed(f.(stage := AfterGoal(goal))));
      }
    }

    method ContentStage(p: nat, wanted: bool, ghost f: Finalizer) returns (e: Option<Problem>, ghost g: Finalizer)
      requires system.Now(p, f) && f.pc == (if wanted then AdvanceTo(ContentUpdated) else RenewJob(PutContent)) && f.stage == NotStarted
      modifies system, system.store
      ensures system.Now(p, g)
      ensures g == if e.Some? then f.(pc := After(e.value)) else f.(stage := ContentUpdated, pc := Proceed(f.(stage := ContentUpdated)))
    {
      g := f;
      if !wanted {
        e := Renew(p, g);
        g := f.(pc := if e.Some? then After(e.value) else At(PutContent));
        if e.Some? {
          return;
        }
        e := UpdateContent(p, g);
        g := f.(pc := if e.Some? then After(e.value) else AdvanceTo(ContentUpdated));
        if e.Some? {
          return;
        }
      }
      e := Advance(p, NotStarted, ContentUpdated, g);
      g := if e.Some? then f.(pc := After(e.value)) else f.(stage := ContentUpdated, pc := Proceed(f.(stage := ContentUpdated)));
    }

    /** Reserve, dispatch, then confirm or reset; skipped when the dispatch is confirmed already. */
    method DispatchStage(p: nat, dispatch: Dispatch, ghost f: Finalizer) returns (e: Option<Problem>, ghost g: Finalizer)
      requires system.Now(p, f) && f.dispatch == dispatch
      requires f.pc == (if dispatch == Unreserved then Reserve else AdvanceTo(MetadataDispatched)) && f.stage == FailedTagRemoved
      modifies system, system.store
      ensures system.Now(p, g)
      ensures g == if e.Some? then f.(pc := After(e.value)) else f.(stage := MetadataDispatched, pc := Proceed(f.(stage := MetadataDispatched)))
    {
      g := f;
      if dispatch == Unreserved {
        e, g := DispatchOnce(p, f);
        if e.Some? {
          return;
        }
      }
      e := Advance(p, FailedTagRemoved, MetadataDispatched, g);
      g := if e.Some? then f.(pc := After(e.value)) else f.(stage := MetadataDispatched, pc := Proceed(f.(stage := MetadataDispatched)));
    }

    method DispatchOnce(p: nat, ghost f: Finalizer) returns (e: Option<Problem>, ghost g: Finalizer)
      requires system.Now(p, f) && f.pc == Reserve
      modifies system, system.store
      ensures system.Now(p, g)
      ensures g == f.(pc := if e.Some? then After(e.value) else AdvanceTo(MetadataDispatched))
    {
      e := ReserveDispatch(p, f);
      g := f.(pc := if e.Some? then After(e.value) else RenewJob(CallDispatch));
      if e.Some? {
        return;
      }
      e := Renew(p, g);
      g := f.(pc := if e.Some? then After(e.value) else At(CallDispatch));
      if e.Some? {
        return;
      }
      var ok, retrySafe := Dispatch(p, g);
      g := f.(pc := if ok then Confirm else if retrySafe then Unreserve else Abandon(Ambiguous));
      if !ok {
        if !retrySafe {
          return Some(Because(Ambiguous)), g;
        }
        e := ResetDispatch(p, g);
        return Some(Because(Interrupted)), f.(pc := Abandon(Interrupted));
      }
      e := ConfirmDispatch(p, g);
      g := f.(pc := if e.Some? then After(e.value) else AdvanceTo(MetadataDispatched));
    }

    /** The last transaction, unless the heartbeat reports that the lease was lost. */
    method Finish(p: nat, d: Option<Diagnostic>, ghost f: Finalizer) returns (e: Option<Problem>)
      requires system.Now(p, f) && f.pc == At(Point.Finish) && f.failure == d && (f.success || d.Some?)
      modifies system, system.store
      ensures system.Now(p, f.(pc := if e.Some? then After(e.value) else Returned(true)))
    {
      system.Others(p);
      var db, ch: Chance := system.store.State(), *;
      if ch.cancelled {
        system.Commit(p, ch, db);
        return Some(Lost);
      }
      var ok;
      if system.fins[p].success {
        ok := TryComplete(system.fins[p].claim, ch);
      } else {
        ok := TryFail(system.fins[p].claim, d.value, ch);
      }
      system.Commit(p, ch, db);
      e := if ok then None else Some(Because(Interrupted));
    }

    /** Renews once more and finishes. */
    method LastStage(p: nat, d: Option<Diagnostic>, ghost f: Finalizer) returns (e: Option<Problem>)
      requires system.Now(p, f) && f.pc == RenewJob(Point.Finish) && f.failure == d && (f.success || d.Some?)
      modifies system, system.store
      ensures system.Now(p, f.(pc := if e.Some? then After(e.value) else Returned(true)))
    {
      e := Renew(p, f);
      if e.None? {
        e := Finish(p, d, f.(pc := At(Point.Finish)));
      }
    }

    /** Renews the lease and asks for admission. */
    method Enter(p: nat, ghost f: Finalizer) returns (state: Result<FinalizationState, Problem>)
      requires system.Now(p, f) && f.pc == Begin
      modifies system, system.store
      ensures system.Now(p, if state.Err? then f.(pc := After(state.error)) else Admitted(f, state.value))
    {
      var e := RenewLease(p, f);
      if e.Some? {
        return Err(e.value);
      }
      state := AcquireFinalization(p, f.(pc := Acquire));
    }

    /** Reads the document, which still has to be the source that was transcribed. */
    method CheckSource(p: nat, ghost f: Finalizer) returns (e: Option<Problem>, wanted: bool)
      requires system.Now(p, f) && f.pc == RenewJob(ReadDocument)
      modifies system, system.store
      ensures system.Now(p, f.(pc := if e.Some? then After(e.value) else if f.stage != NotStarted then Proceed(f)
                                     else if wanted then AdvanceTo(ContentUpdated) else RenewJob(PutContent)))
    {
      wanted := false;
      e := Renew(p, f);
      if e.None? {
        e, wanted := GetDocument(p, f.(pc := At(ReadDocument)));
      }
    }

    /** The success path, resumed at whatever stage is durable. */
    method Succeed(p: nat, ghost f: Finalizer) returns (e: Option<Problem>, ghost g: Finalizer)
      requires system.Now(p, f) && f.pc == Begin && f.success
      modifies system, system.store
      ensures system.Now(p, g) && g.claim == f.claim && g.success
      ensures g.pc == if e.Some? then After(e.value) else Returned(true)
    {
      var state := Enter(p, f);
      if state.Err? {
        return Some(state.error), f.(pc := After(state.error));
      }
      g := Admitted(f, state.value);
      if state.value.dispatch == Reserved {
        return Some(Because(Ambiguous)), g;
      }
      var stage := state.value.stage;
      var wanted;
      e, wanted := CheckSource(p, g);
      g := g.(pc := if e.Some? then After(e.value) else if stage != NotStarted then Proceed(g)
                    else if wanted then AdvanceTo(ContentUpdated) else RenewJob(PutContent));
      if e.Some? {
        return;
      }
      if stage == NotStarted {
        e, g := ContentStage(p, wanted, g);
        if e.Some? {
          return;
        }
        stage := ContentUpdated;
      }
      e, g := Deliver(p, stage, state.value.dispatch, state.value.failure, g);
    }

    /** The two tag stages of a success, from wherever it resumes. */
    method DeliverTags(p: nat, start: Stage, ghost f: Finalizer) returns (e: Option<Problem>, stage: Stage, ghost g: Finalizer)
      requires system.Now(p, f) && f.success && f.stage == start && f.pc == Proceed(f)
      modifies system, system.store
      ensures system.Now(p, g)
      ensures e.None? ==> stage == if start == ContentUpdated || start == CompleteTagAdded then FailedTagRemoved else start
      ensures g == if e.Some? then f.(pc := After(e.value), stage := g.stage) else f.(stage := stage, pc := Proceed(f.(stage := stage)))
    {
      stage := start;
      g := f;
      e := None;
      if stage == ContentUpdated {
        e, g := TagStage(p, AddComplete, stage, g);
        if e.Some? {
          return;
        }
        stage := CompleteTagAdded;
      }
      if stage == CompleteTagAdded {
        e, g := TagStage(p, RemoveFailed, stage, g);
        if e.Some? {
          return;
        }
        stage := FailedTagRemoved;
      }
    }

    /** From the content to the end of the success path. */
    method Deliver(p: nat, start: Stage, dispatch: Dispatch, failure: Option<Diagnostic>, ghost f: Finalizer)
      returns (e: Option<Problem>, ghost g: Finalizer)
      requires system.Now(p, f) && f.success && f.stage == start && f.dispatch == dispatch && f.failure == failure
      requires f.pc == Proceed(f)
      modifies system, system.store
      ensures system.Now(p, g) && g.claim == f.claim && g.success
      ensures g.pc == if e.Some? then After(e.value) else Returned(true)
    {
      var stage;
      e, stage, g := DeliverTags(p, start, f);
      if e.Some? {
        return;
      }
      if stage == FailedTagRemoved {
        e, g := DispatchStage(p, dispatch, g);
        if e.Some? {
          return;
        }
        stage := MetadataDispatched;
      }
      if stage != MetadataDispatched {
        return Some(Because(Interrupted)), g;
      }
      e := LastStage(p, failure, g);
      g := g.(pc := if e.Some? then After(e.value) else Returned(true));
    }

    /** The failure path: the failure tag, then the failed job. */
    method MarkFailed(p: nat, ghost f: Finalizer) returns (e: Option<Problem>, ghost g: Finalizer)
      requires system.Now(p, f) && f.pc == Begin && !f.success
      modifies system, system.store
      ensures system.Now(p, g) && g.claim == f.claim && !g.success
      ensures g.pc == if e.Some? then After(e.value) else Returned(true)
    {
      var state := Enter(p, f);
      if state.Err? {
        return Some(state.error), f.(pc := After(state.error));
      }
      g := Admitted(f, state.value);
      if MissingIntent(state.value) {
        return Some(Because(Interrupted)), g;
      }
      e, g := Mark(p, state.value.stage, state.value.failure, g);
    }

    /** From the recorded intent to the end of the failure path. */
    method Mark(p: nat, start: Stage, failure: Option<Diagnostic>, ghost f: Finalizer) returns (e: Option<Problem>, ghost g: Finalizer)
      requires system.Now(p, f) && !f.success && f.stage == start && f.failure == failure && failure.Some?
      requires f.pc == Proceed(f)
      modifies system, system.store
      ensures system.Now(p, g) && g.claim == f.claim && !g.success
      ensures g.pc == if e.Some? then After(e.value) else Returned(true)
    {
      var stage := start;
      g := f;
      if stage == NotStarted {
        e := Advance(p, stage, FailurePending, g);
        g := if e.Some? then g.(pc := After(e.value)) else g.(stage := FailurePending, pc := Proceed(g.(stage := FailurePending)));
        if e.Some? {
          return;
        }
        stage := FailurePending;
      }
      if stage == FailurePending {
        e, g := TagStage(p, AddFailed, stage, g);
        if e.Some? {
          return;
        }
        stage := FailureTagAdded;
      }
      if stage != FailureTagAdded {
        return Some(Because(Interrupted)), g;
      }
      e := LastStage(p, failure, g);
      g := g.(pc := if e.Some? then After(e.value) else Returned(true));
    }

    /** The job transition, unless it is lost or not attempted at all. */
    method TryTransition(c: Claim, op: QueueSpec.LeaseOp, ch: Chance)
      requires op.FailOp? || op.ScheduleRetryOp?
      modifies system.store
      ensures system.store.State() ==
              if ch.cancelled || ch.fault == LostBefore then old(system.store.State())
              else QueueSpec.ApplyLease(old(system.store.State()), ch.now, c, op)
    {
      if !ch.cancelled && ch.fault != LostBefore {
        if op.FailOp? {
          var _ := system.store.Fail(ch.now, c, op.d);
        } else {
          var _ := system.store.ScheduleRetry(ch.now, c, op.availableAt, op.d);
        }
      }
    }

    /** An error becomes a job transition, unless the heartbeat reports that the lease was lost. */
    method Transition(p: nat, why: Reason, ghost f: Finalizer)
      requires system.Now(p, f) && f.pc == Abandon(why)
      modifies system, system.store
      ensures system.Now(p, f.(pc := Returned(false)))
    {
      system.Others(p);
      var db, ch: Chance := system.store.State(), *;
      TryTransition(system.fins[p].claim, AbandonOp(why, ch.now), ch);
      system.Commit(p, ch, db);
    }

    /** One call of the finalizer, for a success or for a recorded failure. A call that returns without
        error has ended its claim, and a success has completed the job. */
    method Process(success: bool, c: Claim, content: string, validInput: bool) returns (ok: bool)
      requires system.Valid()
      modifies this, system, system.store
      ensures system.Valid()
      ensures ok ==> Gone(system.store.State(), c) && (success ==> FinalizeLaws.IsCompleted(system.store.State(), c.job))
      ensures old(active) ==> !ok && system.acts == old(system.acts) && system.store.State() == old(system.store.State())
    {
      if active {
        return false;
      }
      active := true;
      var token: string := *;
      if !validInput || Blank(token) {
        active := false;
        return false;
      }
      var p := system.Start(success, c, token, content);
      ghost var f := system.fins[p];
      ghost var g := f;
      var e;
      if success {
        e, g := Succeed(p, f);
      } else {
        e, g := MarkFailed(p, f);
      }
      if e.Some? && e.value.Because? {
        Transition(p, e.value.why, g);
      }
      if e.None? {
        system.ReturnSettles(p, g);
      }
      active := false;
      ok := e.None?;
    }
  }
}
