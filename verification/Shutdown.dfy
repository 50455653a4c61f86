/** The worker loop and the end of the service as a protocol over the tables: what a clean end settles, and
    the one kind of claim it may leave open. */
module Shutdown {
  import opened Common
  import opened QueueModel
  import opened QueueSpec
  import opened QueueLaws

  /** Whether the service context has ended: by a clean signal or deadline, or for a reason that is reported. */
  datatype Cause = Running | Cancelled | Reported

  datatype Pc =
    | LoopHead                              // about to look at the context
    | Claiming                              // the context had not ended
    | ClaimFailed(committed: Option<Claim>) // the claim call returned an error
    | Working(c: Claim)                     // processing and finalizing
    | Unsettled(c: Claim)                   // neither is done, and the state is not terminal
    | Ended                                 // the loop is over
    | Exited(clean: bool)

  /** `claims` are all claims that ever committed for the loop, `lost` those that were reported as failed
      after the context had ended. */
  datatype Service = Service(db: Db, pc: Pc, cause: Cause, active: Option<Claim>, claims: seq<Claim>, lost: seq<Claim>)

  datatype Act =
    | Elsewhere(after: Db)                  // transactions of anybody, also of the own worker and finalizer
    | EndContext(reported: bool)
    | LookAtContext
    | CallClaim(now: Time, owner: string, duration: int, reported: bool)
    | FailClaim                             // the claim call fails without having committed
    | Background                            // report the failed claim call
    | Finish(settled: bool)                 // the claim was finalized, or read as terminal
    | LeaveOpen
    | SettleLast(settled: bool)             // settle the last claim after the loop
    | Exit(closed: bool)

  /** What the claim call leaves behind, given its transaction. */
  function ClaimReturns(s: Service, tx: Tx<Option<Claim>>, reported: bool): Service {
    if tx.result.Err? || (tx.result.value.None? && !reported) then s.(db := tx.db, pc := ClaimFailed(None))
    else if tx.result.value.None? then s.(db := tx.db, pc := LoopHead)
    else
      var c := tx.result.value.value;
      var t := s.(db := tx.db, claims := s.claims + [c]);
      if reported then t.(active := Some(c), pc := Working(c)) else t.(pc := ClaimFailed(Some(c)))
  }

  ghost function Next(s: Service, a: Act): Service {
    match a
    case Elsewhere(after) => if Evolves(s.db, after) then s.(db := after) else s
    case EndContext(reported) => if s.cause.Running? then s.(cause := if reported then Reported else Cancelled) else s
    case LookAtContext => if s.pc.LoopHead? then s.(pc := if s.cause.Running? then Claiming else Ended) else s
    case CallClaim(now, owner, duration, reported) =>
      if s.pc.Claiming? then ClaimReturns(s, ClaimNext(s.db, now, owner, duration), reported) else s
    case FailClaim => if s.pc.Claiming? then s.(pc := ClaimFailed(None)) else s
    case Background =>
      if !s.pc.ClaimFailed? then s
      else if s.cause.Running? then s.(cause := Reported, pc := Ended)
      else s.(lost := s.lost + (if s.pc.committed.Some? then [s.pc.committed.value] else []), pc := Ended)
    case Finish(settled) =>
      if !s.pc.Working? then s
      else if settled && Gone(s.db, s.pc.c) then s.(active := None, pc := LoopHead)
      else s.(pc := Unsettled(s.pc.c))
    case LeaveOpen =>
      if !s.pc.Unsettled? then s
      else if s.cause.Running? then s.(cause := Reported, pc := Ended)
      else s.(pc := LoopHead)
    case SettleLast(settled) =>
      if s.pc.Ended? && s.active.Some? && settled && Gone(s.db, s.active.value) then s.(active := None) else s
    case Exit(closed) =>
      if s.pc.Ended? then s.(pc := Exited(closed && s.cause.Cancelled? && s.active.None?)) else s
  }

  function Start(db: Db): Service {
    Service(db, LoopHead, Running, None, [], [])
  }

  ghost function RunService(s: Service, acts: seq<Act>): Service
    decreases |acts|
  {
    if acts == [] then s else Next(RunService(s, acts[..|acts| - 1]), acts[|acts| - 1])
  }

  // ----- The invariant ------------------------------------------------------------------------

  ghost predicate Accounted(s: Service, c: Claim) {
    Gone(s.db, c) || s.active == Some(c) || c in s.lost || s.pc == ClaimFailed(Some(c)) || s.cause.Reported?
  }

  ghost predicate Inv(s: Service) {
    && (forall c | c in s.claims :: Accounted(s, c))
    && (forall c | c in s.lost :: c in s.claims)
    && (s.pc.ClaimFailed? && s.pc.committed.Some? ==> s.pc.committed.value in s.claims)
    && (s.pc.LoopHead? && s.cause.Running? ==> s.active.None?)
    && (s.pc.Claiming? || s.pc.ClaimFailed? ==> s.active.None?)
    && (s.pc.Working? ==> s.active == Some(s.pc.c))
    && (s.pc.Unsettled? ==> s.active == Some(s.pc.c))
    && (s.pc == Exited(true) ==> s.active.None? && s.cause.Cancelled?)
  }

  lemma LaterKeepsInv(s: Service, db: Db)
    requires Inv(s) && Evolves(s.db, db)
    ensures Inv(s.(db := db))
  {
    forall c | c in s.claims ensures Accounted(s.(db := db), c) {
      assert Accounted(s, c);
      if Gone(s.db, c) {
        GoneIsStable(s.db, db, c);
      }
    }
  }

  lemma ClaimKeepsInv(s: Service, now: Time, owner: string, duration: int, reported: bool)
    requires Inv(s) && s.pc.Claiming?
    ensures Inv(ClaimReturns(s, ClaimNext(s.db, now, owner, duration), reported))
  {
    var tx := ClaimNext(s.db, now, owner, duration);
    SchedulerOpEvolves(s.db, now, ClaimOp(owner, duration));
    LaterKeepsInv(s, tx.db);
    NewClaimKeepsInv(s.(db := tx.db), tx.result, reported);
  }

  lemma NewClaimKeepsInv(s: Service, result: Result<Option<Claim>, Error>, reported: bool)
    requires Inv(s) && s.pc.Claiming?
    ensures Inv(s.(pc := ClaimFailed(None))) && Inv(s.(pc := LoopHead))
    ensures result.Ok? && result.value.Some? ==>
              var c := result.value.value;
              var t := s.(claims := s.claims + [c]);
              Inv(if reported then t.(active := Some(c), pc := Working(c)) else t.(pc := ClaimFailed(Some(c))))
  {
    forall c | c in s.claims ensures Gone(s.db, c) || c in s.lost || s.cause.Reported? {
      assert Accounted(s, c);
    }
  }

  lemma NextKeepsInv(s: Service, a: Act)
    requires Inv(s)
    ensures Inv(Next(s, a))
  {
    match a
    case Elsewhere(after) => if Evolves(s.db, after) { LaterKeepsInv(s, after); }
    case CallClaim(now, owner, duration, reported) => if s.pc.Claiming? { ClaimKeepsInv(s, now, owner, duration, reported); }
    case _ =>
      forall c | c in s.claims ensures Accounted(Next(s, a), c) {
        assert Accounted(s, c);
      }
  }

  lemma {:induction false} RunKeepsInv(db: Db, acts: seq<Act>)
    ensures Inv(RunService(Start(db), acts))
    decreases |acts|
  {
    if acts != [] {
      RunKeepsInv(db, acts[..|acts| - 1]);
      NextKeepsInv(RunService(Start(db), acts[..|acts| - 1]), acts[|acts| - 1]);
    }
  }

  /** After a clean end every claim that ever committed is over, or it was reported as failed after the context
      had ended; so all are over exactly when those are, by whatever other means. */
  lemma CleanEndSettles(db: Db, acts: seq<Act>)
    requires RunService(Start(db), acts).pc == Exited(true)
    ensures var s := RunService(Start(db), acts);
            && (forall c | c in s.claims :: Gone(s.db, c) || c in s.lost)
            && ((forall c | c in s.claims :: Gone(s.db, c)) <==> (forall c | c in s.lost :: Gone(s.db, c)))
  {
    RunKeepsInv(db, acts);
    var s := RunService(Start(db), acts);
    forall c | c in s.claims ensures Gone(s.db, c) || c in s.lost {
      assert Accounted(s, c);
    }
  }

  // ----- The claim that a clean end leaves open -----------------------------------------------

  lemma OneMoreAct(s: Service, acts: seq<Act>, a: Act)
    ensures RunService(s, acts + [a]) == Next(RunService(s, acts), a)
  {
    assert (acts + [a])[..|acts|] == acts;
  }

  /** Extends a run that has led to `s` by one act. */
  lemma Then(db: Db, acts: seq<Act>, s: Service, a: Act) returns (more: seq<Act>, t: Service)
    requires RunService(Start(db), acts) == s
    ensures more == acts + [a] && t == Next(s, a) && RunService(Start(db), more) == t
  {
    OneMoreAct(Start(db), acts, a);
    more, t := acts + [a], Next(s, a);
  }

  /** For any job, owner and duration: the job is enqueued, its claim commits but is reported as failed, and
      meanwhile the context ends. The service ends cleanly, and the job is still being processed. */
  lemma LostClaimStaysOpen(now: Time, input: EnqueueInput, owner: string, duration: int) returns (acts: seq<Act>, c: Claim)
    requires input.Valid() && !Blank(owner) && duration > 0
    ensures var s := RunService(Start(EMPTY), acts);
            && s.pc == Exited(true) && s.claims == [c] && s.lost == [c]
            && Holds(s.db, c) && !Gone(s.db, c)
  {
    var db := Enqueue(EMPTY, now, input).db;
    IntakeEvolves(EMPTY, now, EnqueueOp(input));
    FirstJob(now, input);
    FirstClaim(db, now, owner, duration);
    c := Claim(1, 1, owner);
    var after := ClaimNext(db, now, owner, duration).db;
    var s := Start(EMPTY);
    assert RunService(Start(EMPTY), []) == s;
    acts, s := Then(EMPTY, [], s, Elsewhere(db));
    acts, s := Then(EMPTY, acts, s, LookAtContext);
    acts, s := Then(EMPTY, acts, s, CallClaim(now, owner, duration, false));
    assert s == Service(after, ClaimFailed(Some(c)), Running, None, [c], []);
    acts, s := Then(EMPTY, acts, s, EndContext(false));
    acts, s := Then(EMPTY, acts, s, Background);
    assert s == Service(after, Ended, Cancelled, None, [c], [c]);
    acts, s := Then(EMPTY, acts, s, Exit(true));
  }

  lemma FirstJob(now: Time, input: EnqueueInput)
    requires input.Valid()
    ensures var db := Enqueue(EMPTY, now, input).db;
            |db.jobs| == 1 && db.jobs[0].state == Pending && db.jobs[0].availableAt == now && db.jobs[0].attempts == 0
  {
  }

  lemma FirstClaim(db: Db, now: Time, owner: string, duration: int)
    requires |db.jobs| == 1 && db.jobs[0].state == Pending && db.jobs[0].availableAt == now && db.jobs[0].attempts == 0
    requires !Blank(owner) && duration > 0
    ensures var tx := ClaimNext(db, now, owner, duration);
            tx.result == Ok(Some(Claim(1, 1, owner))) && Holds(tx.db, Claim(1, 1, owner))
  {
    assert FirstDue(db.jobs, now, 1) == Some(0);
  }
}
