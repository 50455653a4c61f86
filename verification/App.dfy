/** The service: the worker loop, settling the last claim, and what a clean shutdown guarantees. */
module App {
  import opened Common
  import opened QueueModel
  import QueueSpec
  import opened QueueLaws
  import opened Queue
  import opened World
  import opened Checkpoints
  import F = Finalize
  import FinalizeLaws
  import opened Publishing
  import W = Worker
  import P = Shutdown

  const LEASE := 300_000_000_000

  // ----- A finalizer at work on the shared queue ----------------------------------------------------

  /** What a call keeps of what it was started with. */
  ghost predicate SameCall(f: F.Finalizer, success: bool, c: Claim, content: string) {
    f.claim == c && f.success == success && f.content == content && (!success ==> !OnContent(f.pc))
  }

  /** The effects publish nothing but this content of this job, and a failure publishes nothing. */
  ghost predicate Only(effects: seq<F.Effect>, success: bool, job: int, content: string) {
    forall e | e in effects && Publishes(e) :: success && e.job == job && e.content == content
  }

  /** One finalizer call, step by step, with everybody else running before every step. A call that is
      cut off has not returned. */
  method RunFinalizer(store: Queue, success: bool, c: Claim, content: string) returns (ok: bool, ghost effects: seq<F.Effect>)
    modifies store
    ensures Evolves(old(store.State()), store.State())
    ensures ok ==> Gone(store.State(), c) && (success ==> FinalizeLaws.IsCompleted(store.State(), c.job))
    ensures Only(effects, success, c.job, content)
  {
    EvolvesReflexive(store.State());
    var token: string, steps: int := *, *;
    var f := F.Finalizer(success, c, token, content, F.Begin, NotStarted, Unreserved, None);
    effects := [];
    for i := 0 to if steps < 0 then 0 else steps
      invariant Evolves(old(store.State()), store.State())
      invariant SameCall(f, success, c, content) && FinalizeLaws.Settled(f, store.State())
      invariant Only(effects, success, c.job, content)
    {
      if f.pc.Returned? {
        break;
      }
      ghost var more;
      f, more := FinalizerStep(store, f, old(store.State()));
      effects := effects + more;
    }
    ok := f.pc == F.Returned(true);
  }

  method FinalizerStep(store: Queue, f: F.Finalizer, ghost start: Db) returns (g: F.Finalizer, ghost effects: seq<F.Effect>)
    requires Evolves(start, store.State()) && FinalizeLaws.Settled(f, store.State())
    requires !f.success ==> !OnContent(f.pc)
    modifies store
    ensures Evolves(start, store.State()) && FinalizeLaws.Settled(g, store.State())
    ensures SameCall(g, f.success, f.claim, f.content) && Only(effects, f.success, f.claim.job, f.content)
  {
    ghost var before := store.State();
    Others(store);
    EvolvesTransitive(start, before, store.State());
    FinalizeLaws.SettledIsStable(f, before, store.State());
    var ch: F.Chance := *;
    var db := store.State();
    var outcome := F.Step(f, db, ch);
    FinalizeLaws.StepIsOneTransaction(f, db, ch);
    StepFacts(start, f, db, ch);
    if outcome.db != db {
      var op := QueueSpec.Carried(f.claim, FinalizeLaws.StepOp(f, ch));
      store.Apply(ch.now, op);
    }
    g := outcome.f;
    effects := outcome.effects;
  }

  lemma StepFacts(start: Db, f: F.Finalizer, db: Db, ch: F.Chance)
    requires Evolves(start, db) && FinalizeLaws.Settled(f, db) && (!f.success ==> !OnContent(f.pc))
    ensures var o := F.Step(f, db, ch);
            && Evolves(start, o.db) && FinalizeLaws.Settled(o.f, o.db)
            && SameCall(o.f, f.success, f.claim, f.content) && Only(o.effects, f.success, f.claim.job, f.content)
  {
    FinalizeLaws.StepEvolves(f, db, ch);
    EvolvesTransitive(start, db, F.Step(f, db, ch).db);
    FinalizeLaws.FinishSettles(f, db, ch);
    FinalizeLaws.StepKeepsCall(f, db, ch);
    StepContent(f, db, ch);
  }

  // ----- The service --------------------------------------------------------------------------------

  predicate TerminalState(s: State) {
    s == Retry || s == Completed || s == Failed
  }

  lemma TerminalIsGone(db: Db, c: Claim)
    requires QueueSpec.ClaimState(db, c).Some? && TerminalState(QueueSpec.ClaimState(db, c).value)
    ensures Gone(db, c)
  {
  }

  lemma ReleasedIsGone(db: Db, now: Time, c: Claim)
    requires QueueSpec.Release(db, now, c).result == Ok(true)
    ensures Gone(QueueSpec.Release(db, now, c).db, c)
  {
  }

  lemma ClaimEvolves(db: Db, now: Time, owner: string, duration: int)
    ensures Evolves(db, QueueSpec.ClaimNext(db, now, owner, duration).db)
  {
    SchedulerOpEvolves(db, now, QueueSpec.ClaimOp(owner, duration));
  }

  class Service {
    const store: Queue
    const worker: W.Worker
    const owner: string
    var active: Option<Claim>
    var cause: P.Cause
    ghost var pc: P.Pc
    ghost var claims: seq<Claim>
    ghost var lost: seq<Claim>
    ghost var acts: seq<P.Act>
    ghost const origin: Db
    ghost const run: seq<P.Act> -> P.Service
    ghost var published: seq<F.Effect>

    ghost predicate Valid() {
      && worker.Valid() && worker.store == store
      && forall xs {:trigger P.RunService(P.Start(origin), xs)} :: run(xs) == P.RunService(P.Start(origin), xs)
    }

    constructor (worker: W.Worker, owner: string)
      requires worker.Valid()
      ensures Valid() && this.worker == worker && Tracked() && PublishedFixed()
      ensures pc.LoopHead? && cause.Running? && active.None? && claims == [] && lost == []
    {
      ghost var db := worker.store.State();
      this.store, this.worker, this.owner := worker.store, worker, owner;
      active, cause, pc, claims, lost, acts, published := None, P.Running, P.LoopHead, [], [], [], [];
      origin, run := db, xs => P.RunService(P.Start(db), xs);
      new;
      assert P.RunService(P.Start(origin), []) == P.Start(origin);
    }

    ghost function Now(): P.Service
      reads this, store
    {
      P.Service(store.State(), pc, cause, active, claims, lost)
    }

    /** The service is where the recorded run of the shutdown protocol has led. */
    ghost predicate Tracked()
      reads this, store
    {
      run(acts) == Now()
    }

    /** Everything ever published is content that the durable checkpoints determine. */
    ghost predicate PublishedFixed()
      reads this, store
    {
      forall e | e in published :: EffectFixed(e, store.State(), worker.suspicious)
    }

    /** Records that the protocol has taken a step. */
    ghost method Note(a: P.Act, before: P.Service)
      requires Valid() && run(acts) == before && Now() == P.Next(before, a)
      modifies `acts
      ensures Tracked()
    {
      P.OneMoreAct(P.Start(origin), acts, a);
      assert P.RunService(P.Start(origin), acts) == before;
      acts := acts + [a];
      assert P.RunService(P.Start(origin), acts) == run(acts);
    }

    /** Records that others, or the own worker and finalizer, have run transactions. */
    ghost method Elapsed(before: P.Service)
      requires Valid() && run(acts) == before && Now() == before.(db := store.State()) && Evolves(before.db, store.State())
      modifies `acts
      ensures Tracked()
    {
      Note(P.Elsewhere(store.State()), before);
    }

    lemma PublishedLater(a: Db, b: Db)
      requires Evolves(a, b) && forall e | e in published :: EffectFixed(e, a, worker.suspicious)
      ensures forall e | e in published :: EffectFixed(e, b, worker.suspicious)
    {
      forall e | e in published && Publishes(e) ensures EffectFixed(e, b, worker.suspicious) {
        assert EffectFixed(e, a, worker.suspicious);
        FixedLater(a, b, e.job, e.content, worker.suspicious);
      }
    }

    /** A signal, the server, the caller or the deadline may end the service context at any time. */
    method Signal()
      requires Valid() && Tracked()
      modifies `cause, `acts
      ensures Tracked() && (cause == old(cause) || (old(cause).Running? && !cause.Running?))
    {
      var signalled: bool, reported: bool := *, *;
      if signalled && cause.Running? {
        ghost var before := Now();
        cause := if reported then P.Reported else P.Cancelled;
        Note(P.EndContext(reported), before);
      }
    }

    /** A background failure ends the service context, unless it has ended already. */
    method Fail()
      requires Valid() && Tracked()
      modifies `cause, `acts
      ensures Tracked() && !cause.Running?
    {
      if cause.Running? {
        ghost var before := Now();
        cause := P.Reported;
        Note(P.EndContext(true), before);
      }
    }

    /** Reads the state of the claim; the read itself may fail. */
    method StateOf(c: Claim) returns (state: Option<State>)
      modifies store
      ensures Evolves(old(store.State()), store.State())
      ensures state.Some? && TerminalState(state.value) ==> Gone(store.State(), c)
    {
      Others(store);
      state := store.ClaimState(c);
      if state.Some? && TerminalState(state.value) {
        TerminalIsGone(store.State(), c);
      }
      var failed: bool := *;
      if failed {
        state := None;
      }
    }

    /** Only content that the durable checkpoints determine is handed to the finalizer, so only such content
        is ever sent or confirmed. */
    method FinalizeSuccess(c: Claim, content: string) returns (ok: bool)
      requires PublishedFixed() && Fixed(store.State(), c.job, content, worker.suspicious)
      modifies store, `published
      ensures Evolves(old(store.State()), store.State())
      ensures PublishedFixed() && old(published) <= published
      ensures Only(published[|old(published)|..], true, c.job, content)
      ensures ok ==> Gone(store.State(), c) && FinalizeLaws.IsCompleted(store.State(), c.job)
    {
      ghost var start := store.State();
      ghost var effects;
      ok, effects := RunFinalizer(store, true, c, content);
      FixedLater(start, store.State(), c.job, content, worker.suspicious);
      PublishedLater(start, store.State());
      published := published + effects;
    }

    /** Processes the claim and finalizes it either way. */
    method Handle(c: Claim, job: Job) returns (ok: bool)
      requires Valid() && PublishedFixed()
      modifies store, `published
      ensures PublishedFixed() && Evolves(old(store.State()), store.State())
      ensures ok ==> Gone(store.State(), c)
    {
      ghost var start := store.State();
      var r := worker.Process(c, job);
      ghost var processed := store.State();
      PublishedLater(start, processed);
      if r.Ok? {
        ok := FinalizeSuccess(c, r.value.content);
        EvolvesTransitive(start, processed, store.State());
        return;
      }
      ok := HandleFailure(c);
      EvolvesTransitive(start, processed, store.State());
      PublishedLater(processed, store.State());
    }

    method HandleFailure(c: Claim) returns (ok: bool)
      modifies store
      ensures Evolves(old(store.State()), store.State())
      ensures ok ==> Gone(store.State(), c)
    {
      Others(store);
      var now := Reading();
      var failure := store.TerminalFailure(now, c);
      if failure.Err? || failure.value.None? {
        return false;
      }
      ghost var failed := store.State();
      ghost var effects;
      ok, effects := RunFinalizer(store, false, c, "");
      EvolvesTransitive(old(store.State()), failed, store.State());
    }

    // ----- The worker loop ----------------------------------------------------------------------

    /** Everybody else runs. */
    method Pause()
      requires Valid() && Tracked() && PublishedFixed()
      modifies store, `acts
      ensures Tracked() && PublishedFixed() && Evolves(old(store.State()), store.State())
    {
      ghost var before := Now();
      Others(store);
      PublishedLater(before.db, store.State());
      Elapsed(before);
    }

    /** Claims one job. The claim may commit although the call is reported as failed; it is recorded either way. */
    method TakeClaim() returns (claimed: Option<(Claim, Job)>, failed: bool)
      requires Valid() && Tracked() && PublishedFixed() && pc.Claiming?
      modifies store, `active, `claims, `pc, `acts
      ensures Tracked() && PublishedFixed() && Evolves(old(store.State()), store.State())
      ensures claimed.Some? ==> !failed && pc == P.Working(claimed.value.0) && active == Some(claimed.value.0)
      ensures claimed.None? ==> active == old(active) && if failed then pc.ClaimFailed? else pc.LoopHead?
    {
      Pause();
      ghost var before := Now();
      var reached: bool := *;
      if !reached {
        pc := P.ClaimFailed(None);
        Note(P.FailClaim, before);
        return None, true;
      }
      var now := Reading();
      var r := store.Claim(now, owner, LEASE);
      ClaimEvolves(before.db, now, owner, LEASE);
      EvolvesTransitive(old(store.State()), before.db, store.State());
      PublishedLater(before.db, store.State());
      var reported: bool := *;
      claimed, failed := Answer(r, reported, QueueSpec.ClaimNext(before.db, now, owner, LEASE), before);
      Note(P.CallClaim(now, owner, LEASE, reported), before);
    }

    /** What the loop learns from the claim call. */
    method Answer(r: Result<Option<Claim>, QueueSpec.Error>, reported: bool, ghost tx: QueueSpec.Tx<Option<Claim>>, ghost before: P.Service)
      returns (claimed: Option<(Claim, Job)>, failed: bool)
      requires pc.Claiming? && Now() == before.(db := tx.db) && r == tx.result
      requires r.Ok? && r.value.Some? ==> 1 <= r.value.value.job <= |store.jobs|
      modifies `active, `claims, `pc
      ensures Now() == P.ClaimReturns(before, tx, reported)
      ensures claimed.Some? ==> !failed && pc == P.Working(claimed.value.0) && active == Some(claimed.value.0)
      ensures claimed.None? ==> active == old(active) && if failed then pc.ClaimFailed? else pc.LoopHead?
    {
      if r.Err? || (r.value.None? && !reported) {
        pc := P.ClaimFailed(None);
        return None, true;
      }
      if r.value.None? {
        pc := P.LoopHead;
        return None, false;
      }
      var c := r.value.value;
      claims := claims + [c];
      if !reported {
        pc := P.ClaimFailed(Some(c));
        return None, true;
      }
      active, pc := Some(c), P.Working(c);
      return Some((c, store.jobs[c.job - 1])), false;
    }

    /** The failed claim call is reported, unless the context has ended in the meantime. */
    method ReportClaim()
      requires Valid() && Tracked() && pc.ClaimFailed?
      modifies `cause, `pc, `lost, `acts
      ensures Tracked() && pc.Ended? && !cause.Running?
    {
      ghost var before := Now();
      if cause.Running? {
        cause := P.Reported;
      } else {
        lost := lost + (if pc.committed.Some? then [pc.committed.value] else []);
      }
      pc := P.Ended;
      Note(P.Background, before);
    }

    /** The loop looks at the context and ends. */
    method LeaveLoop()
      requires Valid() && Tracked() && pc.LoopHead? && !cause.Running?
      modifies `pc, `acts
      ensures Tracked() && pc.Ended?
    {
      ghost var before := Now();
      pc := P.Ended;
      Note(P.LookAtContext, before);
    }

    /** Processes and finalizes the claim; when neither settles it, its state is read. */
    method Work(c: Claim, job: Job) returns (settled: bool)
      requires Valid() && Tracked() && PublishedFixed()
      modifies store, `published, `acts
      ensures Tracked() && PublishedFixed() && Evolves(old(store.State()), store.State())
      ensures settled ==> Gone(store.State(), c)
    {
      ghost var before := Now();
      settled := Handle(c, job);
      if !settled {
        ghost var handled := store.State();
        var state := StateOf(c);
        EvolvesTransitive(before.db, handled, store.State());
        PublishedLater(handled, store.State());
        settled := state.Some? && TerminalState(state.value);
      }
      Elapsed(before);
    }

    /** What the loop does with the claim afterwards: an open one is reported, unless the context has ended. */
    method Conclude(c: Claim, settled: bool) returns (stop: bool)
      requires Valid() && Tracked() && pc == P.Working(c) && (settled ==> Gone(store.State(), c))
      modifies `active, `cause, `pc, `acts
      ensures Tracked() && if stop then pc.Ended? && !cause.Running? else pc.LoopHead?
    {
      ghost var before := Now();
      if settled {
        active, pc := None, P.LoopHead;
        Note(P.Finish(true), before);
        return false;
      }
      pc := P.Unsettled(c);
      Note(P.Finish(false), before);
      Signal();
      before := Now();
      stop := cause.Running?;
      if stop {
        cause, pc := P.Reported, P.Ended;
      } else {
        pc := P.LoopHead;
      }
      Note(P.LeaveOpen, before);
    }

    /** One turn of the worker loop. */
    method Round() returns (stop: bool)
      requires Valid() && Tracked() && PublishedFixed() && pc.LoopHead? && cause.Running?
      modifies store, `active, `claims, `lost, `cause, `pc, `published, `acts
      ensures Tracked() && PublishedFixed() && Evolves(old(store.State()), store.State())
      ensures if stop then pc.Ended? && !cause.Running? else pc.LoopHead?
    {
      ghost var before := Now();
      pc := P.Claiming;
      Note(P.LookAtContext, before);
      Signal();
      var claimed, failed := TakeClaim();
      Signal();
      if failed {
        ReportClaim();
        return true;
      }
      if claimed.None? {
        stop := Look();
        return;
      }
      ghost var taken := store.State();
      stop := Serve(claimed.value.0, claimed.value.1);
      EvolvesTransitive(before.db, taken, store.State());
    }

    /** Works on the claim, and reads the depth of the queue afterwards. */
    method Serve(c: Claim, job: Job) returns (stop: bool)
      requires Valid() && Tracked() && PublishedFixed() && pc == P.Working(c)
      modifies store, `active, `cause, `pc, `published, `acts
      ensures Tracked() && PublishedFixed() && Evolves(old(store.State()), store.State())
      ensures if stop then pc.Ended? && !cause.Running? else pc.LoopHead?
    {
      var settled := Work(c, job);
      stop := Conclude(c, settled);
      if stop {
        return;
      }
      var depthKnown: bool := *;
      if !depthKnown {
        Fail();
      }
      stop := Look();
    }

    /** The loop stops when the context has ended. */
    method Look() returns (stop: bool)
      requires Valid() && Tracked() && pc.LoopHead?
      modifies `cause, `pc, `acts
      ensures Tracked() && if stop then pc.Ended? && !cause.Running? else pc.LoopHead?
    {
      Signal();
      stop := !cause.Running?;
      if stop {
        LeaveLoop();
      }
    }

    /** Turns until the context ends or a failure stops the loop; none when it has not ended. */
    method WorkerLoop() returns (ended: bool)
      requires Valid() && Tracked() && PublishedFixed() && pc.LoopHead?
      modifies store, `active, `claims, `lost, `cause, `pc, `published, `acts
      ensures Tracked() && PublishedFixed() && Evolves(old(store.State()), store.State())
      ensures ended ==> pc.Ended? && !cause.Running?
    {
      EvolvesReflexive(store.State());
      var turns: int := *;
      for i := 0 to if turns < 0 then 0 else turns
        invariant Tracked() && PublishedFixed() && pc.LoopHead? && Evolves(old(store.State()), store.State())
      {
        if !cause.Running? {
          break;
        }
        ghost var was := store.State();
        ended := Round();
        EvolvesTransitive(old(store.State()), was, store.State());
        if ended {
          return;
        }
      }
      ended := !cause.Running?;
      if ended {
        LeaveLoop();
      }
    }

    /** Settles the claim that was open when the loop ended; success means that the claim is over. */
    method SettleShutdownClaim(c: Claim) returns (retried: bool, ok: bool)
      modifies store
      ensures Evolves(old(store.State()), store.State())
      ensures ok ==> Gone(store.State(), c)
    {
      var state := StateOf(c);
      if state.None? {
        return false, false;
      }
      if state.value != Processing {
        return false, TerminalState(state.value);
      }
      ghost var seen := store.State();
      Others(store);
      ghost var was := store.State();
      EvolvesTransitive(old(store.State()), seen, was);
      var now := Reading();
      var r := store.Release(now, c);
      ReleaseEvolves(was, now, c);
      EvolvesTransitive(old(store.State()), was, store.State());
      if r == Ok(true) {
        ReleasedIsGone(was, now, c);
      }
      var reported: bool := *;
      if r == Ok(true) && reported {
        return true, true;
      }
      ghost var released := store.State();
      state := StateOf(c);
      EvolvesTransitive(old(store.State()), released, store.State());
      if state.Some? && TerminalState(state.value) {
        return state.value == Retry, true;
      }
      return false, false;
    }

    /** Settles the last claim, if the loop left one open. */
    method SettleLast() returns (settled: bool)
      requires Valid() && Tracked() && PublishedFixed() && pc.Ended?
      modifies store, `active, `acts
      ensures Tracked() && PublishedFixed() && Evolves(old(store.State()), store.State())
      ensures settled ==> active.None?
    {
      if active.None? {
        EvolvesReflexive(store.State());
        return true;
      }
      ghost var before := Now();
      var retried;
      retried, settled := SettleShutdownClaim(active.value);
      PublishedLater(before.db, store.State());
      Elapsed(before);
      before := Now();
      if settled {
        active := None;
        Note(P.SettleLast(true), before);
      }
    }

    /** The startup, and the loop if the startup succeeded and the context has not ended. */
    method RunLoop(started: bool) returns (ended: bool)
      requires Valid() && Tracked() && PublishedFixed() && pc.LoopHead?
      modifies store, `active, `claims, `lost, `cause, `pc, `published, `acts
      ensures Tracked() && PublishedFixed() && Evolves(old(store.State()), store.State())
      ensures ended ==> pc.Ended? && !cause.Running?
    {
      EvolvesReflexive(store.State());
      var reconciled: bool := *;
      if !started || !reconciled {
        Fail();
      }
      Signal();
      if cause.Running? {
        ended := WorkerLoop();
      } else {
        LeaveLoop();
        ended := true;
      }
    }

    /** The service from start to end. After a clean end every claim that ever committed is over, or its call was
        reported as failed after the context had ended; and all content ever published for a job is one text. */
    method Run() returns (clean: bool)
      requires Valid() && Tracked() && PublishedFixed() && pc.LoopHead?
      modifies store, `active, `claims, `lost, `cause, `pc, `published, `acts
      ensures Evolves(old(store.State()), store.State())
      ensures Tracked() && (clean ==> pc == P.Exited(true))
      ensures clean ==> forall c | c in claims :: Gone(store.State(), c) || c in lost
      ensures clean ==> ((forall c | c in claims :: Gone(store.State(), c)) <==> (forall c | c in lost :: Gone(store.State(), c)))
      ensures forall d, e | d in published && e in published && Publishes(d) && Publishes(e) && d.job == e.job :: d.content == e.content
    {
      var started: bool := *;
      var ended := RunLoop(started);
      ghost var looped := store.State();
      if !ended {
        PublishedOnce();
        return false;
      }
      var settled := SettleLast();
      EvolvesTransitive(old(store.State()), looped, store.State());
      PublishedOnce();
      var serverClosed: bool, runtimeClosed: bool := *, *;
      clean := started && cause == P.Cancelled && settled && serverClosed && runtimeClosed;
      if clean {
        ghost var before := Now();
        pc := P.Exited(true);
        Note(P.Exit(true), before);
        assert P.RunService(P.Start(origin), acts) == Now();
        P.CleanEndSettles(origin, acts);
      }
    }

    lemma PublishedOnce()
      requires PublishedFixed()
      ensures forall d, e | d in published && e in published && Publishes(d) && Publishes(e) && d.job == e.job :: d.content == e.content
    {
      forall d, e | d in published && e in published && Publishes(d) && Publishes(e) && d.job == e.job ensures d.content == e.content {
        assert EffectFixed(d, store.State(), worker.suspicious) && EffectFixed(e, store.State(), worker.suspicious);
        FixedOnce(store.State(), d.job, d.content, e.content, worker.suspicious);
      }
    }
  }
}
