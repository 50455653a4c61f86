/** Where the guarantees end: what the store alone does not prevent, and what a renewal before a call does not
    prevent. Each with the exact condition, or with what the code does keep. */
module Boundaries {
  import opened Common
  import opened QueueModel
  import opened QueueSpec
  import opened QueueLaws
  import opened Finalize
  import opened FinalizeLaws

  // ----- The last stage without a dispatch ----------------------------------------------------

  /** The last success stage is durable, and the dispatch is not confirmed. */
  predicate Undispatched(db: Db, job: int) {
    db.StageOf(job) == MetadataDispatched && db.DispatchOf(job) != Confirmed
  }

  /** An admitted transaction moves the job to the last stage while its dispatch is not confirmed. */
  predicate Skips(db: Db, e: Event, job: int) {
    && e.op.Carried? && e.op.claim.job == job && e.op.claim.Valid()
    && e.op.carried.OnFinalization? && e.op.carried.final.AdvanceOp?
    && var o := e.op.carried.final;
    && o.fromStage == FailedTagRemoved && o.toStage == MetadataDispatched && !Blank(o.token)
    && Admitted(db, e.now, e.op.claim, o.token)
    && db.StageOf(job) == FailedTagRemoved && db.DispatchOf(job) != Confirmed
  }

  lemma FinalSkips(db: Db, now: Time, c: Claim, op: FinalOp, job: int)
    requires !Undispatched(db, job)
    ensures Undispatched(ApplyFinal(db, now, c, op), job) <==> Skips(db, Event(now, Carried(c, OnFinalization(op))), job)
  {
    if op.AdvanceOp? {
      AdvanceSkips(db, now, c, op, job);
    } else {
      FinalOpLocal(db, now, c, op);
    }
  }

  lemma AdvanceSkips(db: Db, now: Time, c: Claim, op: FinalOp, job: int)
    requires op.AdvanceOp? && !Undispatched(db, job)
    ensures Undispatched(ApplyFinal(db, now, c, op), job) <==> Skips(db, Event(now, Carried(c, OnFinalization(op))), job)
  {
    var after := Advance(db, now, c, op.token, op.fromStage, op.toStage).db;
    assert after.controls == db.controls;
    assert job != c.job ==> after.StageOf(job) == db.StageOf(job);
  }

  /** One transaction brings the state about exactly when it is such an advance. */
  lemma OneTransactionSkips(db: Db, now: Time, op: Op, job: int)
    requires !Undispatched(db, job)
    ensures Undispatched(Apply(db, now, op), job) <==> Skips(db, Event(now, op), job)
  {
    match op
    case Intake(o) => IntakeKeeps(db, now, o);
    case Carried(c, OnLease(o)) => LeaseOpEvolves(db, now, c, o);
    case Carried(c, OnBatches(o)) => BatchOpEvolves(db, now, c, o);
    case Carried(c, OnFinalization(o)) => FinalSkips(db, now, c, o, job);
    case _ => SchedulerOpEvolves(db, now, op);
  }

  ghost predicate ArisesAt(events: seq<Event>, k: nat, job: int)
    requires k <= |events|
  {
    Undispatched(Run(EMPTY, events[..k]), job)
  }

  ghost predicate SkipsAt(events: seq<Event>, i: nat, job: int)
    requires i < |events|
  {
    Skips(Run(EMPTY, events[..i]), events[i], job)
  }

  lemma RunStep(events: seq<Event>, i: nat)
    requires i < |events|
    ensures Run(EMPTY, events[..i + 1]) == Apply(Run(EMPTY, events[..i]), events[i].now, events[i].op)
  {
    assert events[..i + 1][..i] == events[..i];
  }

  lemma {:induction false} ArisesBySkipping(events: seq<Event>, k: nat, job: int) returns (i: nat)
    requires k <= |events| && ArisesAt(events, k, job)
    ensures i < k && SkipsAt(events, i, job)
  {
    assert events[..0] == [];
    i := k - 1;
    if ArisesAt(events, i, job) {
      i := ArisesBySkipping(events, i, job);
    } else {
      RunStep(events, i);
      OneTransactionSkips(Run(EMPTY, events[..i]), events[i].now, events[i].op, job);
      assert events[i] == Event(events[i].now, events[i].op);
    }
  }

  /** Over every run of the store: the state arises if and only if such an advance commits. */
  lemma UndispatchedExactly(events: seq<Event>, job: int)
    ensures (exists k: nat | k <= |events| :: ArisesAt(events, k, job)) <==> (exists i: nat | i < |events| :: SkipsAt(events, i, job))
  {
    if k: nat :| k <= |events| && ArisesAt(events, k, job) {
      var i := ArisesBySkipping(events, k, job);
    }
    if i: nat :| i < |events| && SkipsAt(events, i, job) {
      RunStep(events, i);
      var db := Run(EMPTY, events[..i]);
      assert events[i] == Event(events[i].now, events[i].op);
      OneTransactionSkips(db, events[i].now, events[i].op, job);
      assert ArisesAt(events, i + 1, job);
    }
  }

  // ----- It does arise ------------------------------------------------------------------------

  lemma Then(events: seq<Event>, db: Db, now: Time, op: Op) returns (more: seq<Event>, after: Db)
    requires Run(EMPTY, events) == db
    ensures more == events + [Event(now, op)] && after == Apply(db, now, op) && Run(EMPTY, more) == after
  {
    more, after := events + [Event(now, op)], Apply(db, now, op);
    assert more[..|events|] == events;
  }

  lemma FirstJob(now: Time, input: EnqueueInput)
    requires input.Valid()
    ensures var db := Apply(EMPTY, now, Intake(EnqueueOp(input)));
            && db == EMPTY.(jobs := db.jobs) && |db.jobs| == 1
            && db.jobs[0].state == Pending && db.jobs[0].availableAt == now && db.jobs[0].attempts == 0
  {
  }

  /** With one due job and nothing processing, the job is claimed. */
  lemma OnlyJobIsClaimed(db: Db, now: Time, owner: string, duration: int)
    requires |db.jobs| == 1 && Due(db.jobs[0], now) && !Blank(owner) && duration > 0
    ensures var tx := ClaimNext(db, now, owner, duration);
            var c := Claim(1, db.jobs[0].attempts + 1, owner);
            && tx.result == Ok(Some(c)) && Holds(tx.db, c) && tx.db.jobs[0].lease == Some(Lease(owner, now + duration))
            && tx.db == db.(jobs := tx.db.jobs) && |tx.db.jobs| == 1
  {
    assert FirstDue(db.jobs, now, 1) == Some(0);
  }

  lemma FirstAdmission(db: Db, now: Time, c: Claim, token: string, duration: int)
    requires ActiveLease(db, now, c) && c.Valid() && c.job !in db.controls && !Blank(token) && duration > 0
    ensures var tx := AcquireFinalization(db, now, c, token, duration);
            && tx.result == Ok(FinalizationState(db.StageOf(c.job), Unreserved, None))
            && Admitted(tx.db, now, c, token) && tx.db.jobs == db.jobs
            && tx.db.StageOf(c.job) == db.StageOf(c.job) && tx.db.DispatchOf(c.job) == Unreserved && tx.db.FailureOf(c.job) == None
  {
  }

  lemma AdmittedAdvance(db: Db, now: Time, c: Claim, token: string, from: Stage, to: Stage)
    requires Admitted(db, now, c, token) && c.Valid() && !Blank(token) && ValidTransition(from, to) && db.StageOf(c.job) == from
    ensures var after := Apply(db, now, Carried(c, OnFinalization(AdvanceOp(token, from, to))));
            Admitted(after, now, c, token) && after.StageOf(c.job) == to && after.DispatchOf(c.job) == db.DispatchOf(c.job)
  {
  }

  /** For any job, owner and token: seven transactions lead to the last stage with nothing dispatched or reserved. */
  lemma StoreAloneReachesLastStage(now: Time, input: EnqueueInput, owner: string, token: string) returns (events: seq<Event>)
    requires input.Valid() && !Blank(owner) && !Blank(token)
    ensures |events| == 7
    ensures var db := Run(EMPTY, events); db.StageOf(1) == MetadataDispatched && db.DispatchOf(1) == Unreserved
  {
    var db: Db;
    var c := Claim(1, 1, owner);
    FirstJob(now, input);
    events, db := Then([], EMPTY, now, Intake(EnqueueOp(input)));
    OnlyJobIsClaimed(db, now, owner, 1);
    events, db := Then(events, db, now, ClaimOp(owner, 1));
    FirstAdmission(db, now, c, token, 1);
    events, db := Then(events, db, now, Carried(c, OnFinalization(AcquireOp(token, 1))));
    AdmittedAdvance(db, now, c, token, NotStarted, ContentUpdated);
    events, db := Then(events, db, now, Carried(c, OnFinalization(AdvanceOp(token, NotStarted, ContentUpdated))));
    AdmittedAdvance(db, now, c, token, ContentUpdated, CompleteTagAdded);
    events, db := Then(events, db, now, Carried(c, OnFinalization(AdvanceOp(token, ContentUpdated, CompleteTagAdded))));
    AdmittedAdvance(db, now, c, token, CompleteTagAdded, FailedTagRemoved);
    events, db := Then(events, db, now, Carried(c, OnFinalization(AdvanceOp(token, CompleteTagAdded, FailedTagRemoved))));
    AdmittedAdvance(db, now, c, token, FailedTagRemoved, MetadataDispatched);
    events, db := Then(events, db, now, Carried(c, OnFinalization(AdvanceOp(token, FailedTagRemoved, MetadataDispatched))));
  }

  // ----- What a call follows ------------------------------------------------------------------

  /** Act `k` is the last step of finalizer `p` before act `i`. */
  ghost predicate LastStep(acts: seq<Act>, p: nat, k: nat, i: nat)
    requires k < i <= |acts|
  {
    && acts[k].StepOf? && acts[k].p == p
    && forall m | k < m < i :: !(acts[m].StepOf? && acts[m].p == p)
  }

  /** Finalizers that are under way change by their own steps only. */
  ghost predicate OthersStay(before: seq<Finalizer>, a: Act, after: seq<Finalizer>) {
    forall p | 0 <= p < |after| && after[p].pc != Begin && !(a.StepOf? && a.p == p) :: p < |before| && after[p] == before[p]
  }

  lemma NextLetsOthersStay(s: Sys, a: Act)
    ensures OthersStay(s.fins, a, Next(s, a).fins)
  {
  }

  /** The finalizers before each act, and after the last. */
  ghost function FinsOver(acts: seq<Act>): (h: seq<seq<Finalizer>>)
    ensures |h| == |acts| + 1 && forall i | 0 <= i <= |acts| :: h[i] == RunSys(acts[..i]).fins
  {
    seq(|acts| + 1, i requires 0 <= i <= |acts| => RunSys(acts[..i]).fins)
  }

  ghost predicate StaysAt(h: seq<seq<Finalizer>>, acts: seq<Act>, i: nat)
    requires i < |acts| && |h| == |acts| + 1
  {
    OthersStay(h[i], acts[i], h[i + 1])
  }

  ghost predicate Stays(h: seq<seq<Finalizer>>, acts: seq<Act>) {
    |h| == |acts| + 1 && h[0] == [] && forall i | 0 <= i < |acts| :: StaysAt(h, acts, i)
  }

  lemma FinsOverStays(acts: seq<Act>)
    ensures Stays(FinsOver(acts), acts)
  {
    assert acts[..0] == [];
    forall i | 0 <= i < |acts| ensures StaysAt(FinsOver(acts), acts, i) {
      assert acts[..i + 1][..i] == acts[..i];
      NextLetsOthersStay(RunSys(acts[..i]), acts[i]);
    }
  }

  lemma {:induction false} SinceLastStep(h: seq<seq<Finalizer>>, acts: seq<Act>, i: nat, p: nat) returns (k: nat)
    requires Stays(h, acts) && i <= |acts| && p < |h[i]| && h[i][p].pc != Begin
    ensures k < i && LastStep(acts, p, k, i) && p < |h[k + 1]| && h[k + 1][p] == h[i][p]
  {
    k := i - 1;
    if !(acts[k].StepOf? && acts[k].p == p) {
      assert StaysAt(h, acts, k);
      k := SinceLastStep(h, acts, i - 1, p);
    }
  }

  lemma OwnActSteps(acts: seq<Act>, k: nat, p: nat)
    requires k < |acts| && acts[k].StepOf? && acts[k].p == p && p < |RunSys(acts[..k + 1]).fins|
    ensures var s := RunSys(acts[..k]);
            p < |s.fins| && RunSys(acts[..k + 1]).fins[p] == Step(s.fins[p], s.db, acts[k].ch).f
  {
    assert acts[..k + 1][..k] == acts[..k];
  }

  /** A finalizer that is under way was brought where it is by its last step. */
  lemma PreviousStep(acts: seq<Act>, i: nat, p: nat) returns (k: nat)
    requires i <= |acts| && p < |RunSys(acts[..i]).fins| && RunSys(acts[..i]).fins[p].pc != Begin
    ensures k < i && LastStep(acts, p, k, i)
    ensures var s := RunSys(acts[..k]);
            p < |s.fins| && RunSys(acts[..i]).fins[p] == Step(s.fins[p], s.db, acts[k].ch).f
  {
    FinsOverStays(acts);
    k := SinceLastStep(FinsOver(acts), acts, i, p);
    OwnActSteps(acts, k, p);
  }

  lemma RenewalLeadsOn(f: Finalizer, db: Db, ch: Chance)
    requires f.pc.RenewJob? || f.pc.RenewAdmission?
    ensures var g := StoreStep(f, db, ch).f;
            && (g.pc.At? ==> f.pc == RenewAdmission(g.pc.point) && Admitted(db, ch.now, f.claim, f.token))
            && (g.pc.RenewAdmission? ==> f.pc == RenewJob(g.pc.next) && ActiveLease(db, ch.now, f.claim))
  {
  }

  lemma OtherStoreStepsLeadElsewhere(f: Finalizer, db: Db, ch: Chance)
    requires f.pc.Begin? || f.pc.AdvanceTo? || f.pc.Reserve? || f.pc.Unreserve? || f.pc.Confirm? || f.pc.Returned?
    ensures !StoreStep(f, db, ch).f.pc.At? && !StoreStep(f, db, ch).f.pc.RenewAdmission?
  {
    match f.pc
    case AdvanceTo(to) =>
    case _ =>
  }

  /** Only a committed renewal of the own admission leads to a call, and only a committed renewal of the lease to that. */
  lemma BroughtBy(f: Finalizer, db: Db, ch: Chance)
    ensures var g := Step(f, db, ch).f;
            && (g.pc.At? ==> f.pc == RenewAdmission(g.pc.point) && Admitted(db, ch.now, f.claim, f.token))
            && (g.pc.RenewAdmission? ==> f.pc == RenewJob(g.pc.next) && ActiveLease(db, ch.now, f.claim))
  {
    if f.pc.At? {
      CallLeadsElsewhere(f, db, ch);
    } else if f.pc.RenewJob? || f.pc.RenewAdmission? {
      RenewalLeadsOn(f, db, ch);
    } else if !f.pc.Acquire? && !f.pc.Await? && !f.pc.Abandon? {
      OtherStoreStepsLeadElsewhere(f, db, ch);
    }
  }

  lemma CallLeadsElsewhere(f: Finalizer, db: Db, ch: Chance)
    requires f.pc.At?
    ensures !CallStep(f, db, ch).f.pc.At? && !CallStep(f, db, ch).f.pc.RenewAdmission?
  {
    match f.pc.point
    case ReadDocument =>
    case Finish =>
    case _ =>
  }

  /** A call that changes something outside. */
  predicate IsCall(e: Effect) {
    e.ContentCall? || e.TagCall? || e.DispatchCall?
  }

  lemma CallsComeFromPoints(f: Finalizer, db: Db, ch: Chance)
    requires Step(f, db, ch).effects != [] && IsCall(Step(f, db, ch).effects[0])
    ensures f.pc.At?
  {
  }

  /** Before each outside call the same finalizer's last two steps renewed an active lease and its own admission. */
  lemma RenewedBeforeCall(acts: seq<Act>, i: nat, p: nat) returns (j: nat, k: nat)
    requires i < |acts| && acts[i].StepOf? && acts[i].p == p && p < |RunSys(acts[..i]).fins|
    requires var s := RunSys(acts[..i]);
             Step(s.fins[p], s.db, acts[i].ch).effects != [] && IsCall(Step(s.fins[p], s.db, acts[i].ch).effects[0])
    ensures j < k < i && LastStep(acts, p, k, i) && LastStep(acts, p, j, k)
    ensures var f, s, t := RunSys(acts[..i]).fins[p], RunSys(acts[..j]), RunSys(acts[..k]);
            ActiveLease(s.db, acts[j].ch.now, f.claim) && Admitted(t.db, acts[k].ch.now, f.claim, f.token)
  {
    var f := RunSys(acts[..i]).fins[p];
    CallsComeFromPoints(f, RunSys(acts[..i]).db, acts[i].ch);
    k := PreviousStep(acts, i, p);
    var t := RunSys(acts[..k]);
    BroughtBy(t.fins[p], t.db, acts[k].ch);
    StepKeepsCall(t.fins[p], t.db, acts[k].ch);
    j := PreviousStep(acts, k, p);
    var s := RunSys(acts[..j]);
    BroughtBy(s.fins[p], s.db, acts[j].ch);
    StepKeepsCall(s.fins[p], s.db, acts[j].ch);
  }

  // ----- What a call does not wait for --------------------------------------------------------

  predicate OutsideCall(point: Point) {
    point == PutContent || point.PutTags? || point == CallDispatch
  }

  /** The lease of the finalizer is recovered, and then the finalizer goes on. */
  lemma CallAfterRecovery(s: Sys, p: nat, late: Time, ch: Chance)
    requires p < |s.fins| && s.fins[p].pc.At? && OutsideCall(s.fins[p].pc.point)
    ensures var r := Sys(RecoverExpired(s.db, late), s.fins, s.trace);
            && Next(s, Outside(late, RecoverOp)) == r
            && MakesCall(r, Next(r, StepOf(p, ch)), s.fins[p].claim.job)
  {
    CallIsMade(s.fins[p], RecoverExpired(s.db, late), ch);
  }

  predicate MakesCall(s: Sys, t: Sys, job: int) {
    |t.trace| == |s.trace| + 1 && t.trace[..|s.trace|] == s.trace && IsCall(t.trace[|s.trace|]) && t.trace[|s.trace|].job == job
  }

  /** A finalizer that has renewed makes its call, even when its lease has expired and been recovered meanwhile. */
  lemma TakeoverDoesNotStopCalls(acts: seq<Act>, p: nat, late: Time, ch: Chance) returns (recovered: seq<Act>)
    requires p < |RunSys(acts).fins| && RunSys(acts).fins[p].pc.At? && OutsideCall(RunSys(acts).fins[p].pc.point)
    requires var s := RunSys(acts);
             Holds(s.db, s.fins[p].claim) && s.db.JobAt(s.fins[p].claim.job).lease.value.expires <= late
    ensures recovered == acts + [Outside(late, RecoverOp)]
    ensures var c := RunSys(acts).fins[p].claim;
            Gone(RunSys(recovered).db, c) && MakesCall(RunSys(recovered), RunSys(recovered + [StepOf(p, ch)]), c.job)
  {
    var s := RunSys(acts);
    CallAfterRecovery(s, p, late, ch);
    RecoveredIsGone(s.db, s.fins[p].claim, late);
    RunSysMore(acts, Outside(late, RecoverOp));
    recovered := acts + [Outside(late, RecoverOp)];
    RunSysMore(recovered, StepOf(p, ch));
  }

  lemma RecoveredIsGone(db: Db, c: Claim, late: Time)
    requires Holds(db, c) && db.JobAt(c.job).lease.value.expires <= late
    ensures Gone(RecoverExpired(db, late), c)
  {
  }

  lemma CallIsMade(f: Finalizer, db: Db, ch: Chance)
    requires f.pc.At? && OutsideCall(f.pc.point)
    ensures var o := Step(f, db, ch); |o.effects| == 1 && IsCall(o.effects[0]) && o.effects[0].job == f.claim.job
  {
  }

  lemma RunSysMore(acts: seq<Act>, a: Act)
    ensures RunSys(acts + [a]) == Next(RunSys(acts), a)
  {
    assert (acts + [a])[..|acts|] == acts;
  }

  // ----- A takeover does come in between ------------------------------------------------------

  /** The only job is held by the claim until `expires`, and no stage is durable yet. */
  ghost predicate HeldAlone(db: Db, c: Claim, now: Time, expires: Time) {
    && c.Valid() && c.job == 1 && c.attempt == 1 && |db.jobs| == 1 && ActiveLease(db, now, c)
    && db.jobs[0].lease.value.expires == expires && db.StageOf(1) == NotStarted
  }

  lemma RenewHeld(db: Db, c: Claim, now: Time, expires: Time)
    requires HeldAlone(db, c, now, expires)
    ensures var tx := RenewLease(db, now, c, LEASE);
            && tx.result == Ok(()) && HeldAlone(tx.db, c, now, now + LEASE)
            && tx.db.controls == db.controls && tx.db.stages == db.stages
  {
  }

  lemma RenewAdmitted(db: Db, c: Claim, token: string, now: Time, expires: Time)
    requires HeldAlone(db, c, now, expires) && Admitted(db, now, c, token) && !Blank(token)
    ensures var tx := RenewFinalization(db, now, c, token, LEASE);
            tx.result == Ok(()) && HeldAlone(tx.db, c, now, expires) && Admitted(tx.db, now, c, token)
  {
  }

  lemma AdmitHeld(db: Db, c: Claim, token: string, now: Time, expires: Time)
    requires HeldAlone(db, c, now, expires) && db.controls == map[] && !Blank(token)
    ensures var tx := AcquireFinalization(db, now, c, token, LEASE);
            && tx.result == Ok(FinalizationState(NotStarted, Unreserved, None))
            && HeldAlone(tx.db, c, now, expires) && Admitted(tx.db, now, c, token)
  {
    FirstAdmission(db, now, c, token, LEASE);
  }

  function Quick(now: Time): Chance { Chance(now, NoFault, false, NotAsWanted) }

  /** One finalizer is admitted and about to renew for `next`; nothing has happened outside. */
  ghost predicate Renewing(s: Sys, f: Finalizer, now: Time, next: Point) {
    && s.fins == [f] && s.trace == [] && f.pc == RenewJob(next) && f.success && f.stage == NotStarted
    && HeldAlone(s.db, f.claim, now, now + LEASE) && Admitted(s.db, now, f.claim, f.token) && !Blank(f.token)
  }

  lemma RenewFor(acts: seq<Act>, f: Finalizer, now: Time, next: Point) returns (more: seq<Act>, db: Db)
    requires Renewing(RunSys(acts), f, now, next)
    ensures RunSys(more) == Sys(db, [f.(pc := At(next))], [])
    ensures HeldAlone(db, f.claim, now, now + LEASE) && Admitted(db, now, f.claim, f.token)
  {
    var s := RunSys(acts);
    RenewHeld(s.db, f.claim, now, now + LEASE);
    RunSysMore(acts, StepOf(0, Quick(now)));
    var g, mid := f.(pc := RenewAdmission(next)), RenewLease(s.db, now, f.claim, LEASE).db;
    assert Step(f, s.db, Quick(now)) == Outcome(g, mid, []);
    more := acts + [StepOf(0, Quick(now))];
    assert RunSys(more) == Sys(mid, [g], []);
    RenewAdmitted(mid, f.claim, f.token, now, now + LEASE);
    RunSysMore(more, StepOf(0, Quick(now)));
    db := RenewFinalization(mid, now, f.claim, f.token, LEASE).db;
    assert Step(g, mid, Quick(now)) == Outcome(f.(pc := At(next)), db, []);
    more := more + [StepOf(0, Quick(now))];
  }

  /** The job is enqueued and claimed, and a finalizer is started and admitted. */
  lemma Admit(now: Time, input: EnqueueInput, owner: string, token: string, content: string) returns (acts: seq<Act>, f: Finalizer)
    requires input.Valid() && !Blank(owner) && !Blank(token)
    ensures Renewing(RunSys(acts), f, now, ReadDocument)
    ensures f.claim == Claim(1, 1, owner) && f.content == content
  {
    var c := Claim(1, 1, owner);
    FirstJob(now, input);
    var a := Outside(now, Intake(EnqueueOp(input)));
    RunSysMore([], a);
    var one := Apply(EMPTY, now, Intake(EnqueueOp(input)));
    acts := [] + [a];
    assert RunSys(acts) == Sys(one, [], []);
    OnlyJobIsClaimed(one, now, owner, 1);
    RunSysMore(acts, Outside(now, ClaimOp(owner, 1)));
    var two := Apply(one, now, ClaimOp(owner, 1));
    acts := acts + [Outside(now, ClaimOp(owner, 1))];
    assert RunSys(acts) == Sys(two, [], []);
    assert HeldAlone(two, c, now, now + 1) && two.controls == map[];
    acts, f := Enter(acts, two, c, now, token, content);
  }

  lemma Enter(before: seq<Act>, db: Db, c: Claim, now: Time, token: string, content: string) returns (acts: seq<Act>, f: Finalizer)
    requires RunSys(before) == Sys(db, [], []) && HeldAlone(db, c, now, now + 1) && db.controls == map[] && !Blank(token)
    ensures Renewing(RunSys(acts), f, now, ReadDocument) && f.claim == c && f.content == content
  {
    RunSysMore(before, Start(true, c, token, content));
    acts := before + [Start(true, c, token, content)];
    f := Finalizer(true, c, token, content, Begin, NotStarted, Unreserved, None);
    assert RunSys(acts) == Sys(db, [f], []);
    RenewHeld(db, c, now, now + 1);
    var held := RenewLease(db, now, c, LEASE).db;
    RunSysMore(acts, StepOf(0, Quick(now)));
    assert Step(f, db, Quick(now)) == Outcome(f.(pc := Acquire), held, []);
    acts, f := acts + [StepOf(0, Quick(now))], f.(pc := Acquire);
    assert RunSys(acts) == Sys(held, [f], []);
    AdmitHeld(held, c, token, now, now + LEASE);
    var admitted := AcquireFinalization(held, now, c, token, LEASE).db;
    RunSysMore(acts, StepOf(0, Quick(now)));
    assert Step(f, held, Quick(now)) == Outcome(f.(pc := RenewJob(ReadDocument)), admitted, []);
    acts, f := acts + [StepOf(0, Quick(now))], f.(pc := RenewJob(ReadDocument));
    assert RunSys(acts) == Sys(admitted, [f], []);
  }

  /** The lease expires, is recovered, and the job is claimed by another owner. */
  lemma TakenOver(db: Db, c: Claim, now: Time, late: Time, owner: string)
    requires HeldAlone(db, c, now, now + LEASE) && now + LEASE <= late && !Blank(owner)
    ensures var after := Apply(Apply(db, late, RecoverOp), late, ClaimOp(owner, 1));
            Gone(after, c) && Holds(after, Claim(1, 2, owner)) && after.stages == db.stages
  {
    var free := Apply(db, late, RecoverOp);
    assert Due(free.jobs[0], late) && free.jobs[0].attempts == 1;
    OnlyJobIsClaimed(free, late, owner, 1);
  }

  /** For any job, owners, token and content: a finalizer renews and stalls, its job is taken over, and then it
      still sends its content, while no stage is durable. */
  lemma StalledFinalizerPublishes(now: Time, late: Time, input: EnqueueInput, owner: string, other: string, token: string, content: string)
    returns (acts: seq<Act>)
    requires input.Valid() && !Blank(owner) && !Blank(other) && !Blank(token) && now + LEASE <= late
    ensures var s, t := RunSys(acts), RunSys(acts + [StepOf(0, Quick(late))]);
            && Gone(s.db, Claim(1, 1, owner)) && Holds(s.db, Claim(1, 2, other)) && s.db.StageOf(1) == NotStarted
            && s.trace == [] && t.trace == [ContentCall(1, content)]
  {
    var f;
    acts, f := Admit(now, input, owner, token, content);
    var db;
    acts, db := RenewFor(acts, f, now, ReadDocument);
    f := f.(pc := At(ReadDocument));
    RunSysMore(acts, StepOf(0, Quick(now)));
    assert Step(f, db, Quick(now)) == Outcome(f.(pc := RenewJob(PutContent)), db, []);
    acts, f := acts + [StepOf(0, Quick(now))], f.(pc := RenewJob(PutContent));
    assert RunSys(acts) == Sys(db, [f], []);
    acts, db := RenewFor(acts, f, now, PutContent);
    f := f.(pc := At(PutContent));
    acts, db := TakeOverRun(acts, db, f, now, late, other);
    RunSysMore(acts, StepOf(0, Quick(late)));
    assert Step(f, db, Quick(late)) == Outcome(f.(pc := Await(PutContent)), db, [ContentCall(1, content)]);
  }

  lemma TakeOverRun(before: seq<Act>, db: Db, f: Finalizer, now: Time, late: Time, owner: string) returns (acts: seq<Act>, after: Db)
    requires RunSys(before) == Sys(db, [f], []) && HeldAlone(db, f.claim, now, now + LEASE) && now + LEASE <= late && !Blank(owner)
    ensures RunSys(acts) == Sys(after, [f], [])
    ensures Gone(after, f.claim) && Holds(after, Claim(1, 2, owner)) && after.StageOf(1) == NotStarted
  {
    TakenOver(db, f.claim, now, late, owner);
    RunSysMore(before, Outside(late, RecoverOp));
    acts := before + [Outside(late, RecoverOp)];
    RunSysMore(acts, Outside(late, ClaimOp(owner, 1)));
    after := Apply(Apply(db, late, RecoverOp), late, ClaimOp(owner, 1));
    acts := acts + [Outside(late, ClaimOp(owner, 1))];
  }
}
