/** What a process cannot choose: the clock, and what the other processes do in the meantime. */
module World {
  import opened QueueModel
  import QueueSpec
  import QueueLaws
  import opened Queue

  method Reading() returns (now: Time) {
    now := *;
  }

  /** Other workers, finalizers, reconcilers and operators run any transactions. */
  method Others(store: Queue)
    modifies store
    ensures QueueLaws.Evolves(old(store.State()), store.State())
  {
    var events: seq<QueueSpec.Event> := *;
    QueueLaws.RunEvolves(store.State(), events);
    store.Replay(events);
  }

  // ----- Single transactions ------------------------------------------------------------------

  lemma RenewEvolves(db: Db, now: Time, c: Claim, duration: int)
    ensures QueueLaws.Evolves(db, QueueSpec.RenewLease(db, now, c, duration).db)
  {
    QueueLaws.LeaseOpEvolves(db, now, c, QueueSpec.RenewLeaseOp(duration));
  }

  lemma ScheduleRetryEvolves(db: Db, now: Time, c: Claim, availableAt: Time, d: Diagnostic)
    ensures QueueLaws.Evolves(db, QueueSpec.ScheduleRetry(db, now, c, availableAt, d).db)
  {
    QueueLaws.LeaseOpEvolves(db, now, c, QueueSpec.ScheduleRetryOp(availableAt, d));
  }

  lemma ReleaseEvolves(db: Db, now: Time, c: Claim)
    ensures QueueLaws.Evolves(db, QueueSpec.Release(db, now, c).db)
  {
    QueueLaws.LeaseOpEvolves(db, now, c, QueueSpec.ReleaseOp);
  }

  lemma RecordFailureEvolves(db: Db, now: Time, c: Claim, d: Diagnostic)
    ensures QueueLaws.Evolves(db, QueueSpec.RecordFailure(db, now, c, d).db)
  {
    QueueLaws.FinalOpEvolves(db, now, c, QueueSpec.RecordFailureOp(d));
  }
}
