/** Webhook candidates over runs of everybody but the reconciler: what a candidate counts, and when it is removed. */
module CandidateLaws {
  import opened Common
  import opened QueueModel
  import opened QueueSpec
  import opened QueueLaws
  import opened Reconcile

  predicate IsWebhookFor(op: Op, document: int) {
    IsWebhook(op) && op.intake.document == document
  }

  /** How many webhooks for the document the run has. */
  function Webhooks(events: seq<Event>, document: int): nat
    decreases |events|
  {
    if events == [] then 0
    else Webhooks(events[..|events| - 1], document) + (if IsWebhookFor(events[|events| - 1].op, document) then 1 else 0)
  }

  /** The candidate of the document after these webhooks, given the one before them. */
  function Grown(before: Option<Candidate>, events: seq<Event>, document: int): Option<Candidate>
    decreases |events|
  {
    if events == [] then before
    else
      var c, e := Grown(before, events[..|events| - 1], document), events[|events| - 1];
      if !IsWebhookFor(e.op, document) then c
      else if c.None? then Some(Candidate(e.op.intake.priority, 1, e.now))
      else Some(c.value.(priority := Max(e.op.intake.priority, c.value.priority), generation := c.value.generation + 1))
  }

  function CandidateOf(db: Db, document: int): Option<Candidate> {
    if document in db.candidates then Some(db.candidates[document]) else None
  }

  predicate AllForeign(events: seq<Event>) {
    forall e | e in events :: Foreign(e.op)
  }

  lemma {:induction false} RunGrows(db: Db, events: seq<Event>, document: int)
    requires AllForeign(events)
    ensures CandidateOf(Run(db, events), document) == Grown(CandidateOf(db, document), events, document)
    decreases |events|
  {
    if events != [] {
      var n := |events| - 1;
      RunGrows(db, events[..n], document);
      assert events[n] in events;
      ForeignCandidates(Run(db, events[..n]), events[n].now, events[n].op);
    }
  }

  lemma {:induction false} GrownCounts(before: Option<Candidate>, events: seq<Event>, document: int)
    ensures var after, n := Grown(before, events, document), Webhooks(events, document);
            && (n == 0 ==> after == before)
            && (n > 0 ==> after.Some?) && (after.None? ==> forall e | e in events :: !IsWebhookFor(e.op, document))
            && (after.Some? ==> after.value.generation == (if before.Some? then before.value.generation else 0) + n)
            && (after.Some? && before.Some? ==> after.value.createdAt == before.value.createdAt && after.value.priority >= before.value.priority)
            && (after.Some? ==> forall e | e in events && IsWebhookFor(e.op, document) :: after.value.priority >= e.op.intake.priority)
            && (after.Some? ==> (before.Some? && after.value.priority == before.value.priority)
                                || exists e | e in events && IsWebhookFor(e.op, document) :: after.value.priority == e.op.intake.priority)
    decreases |events|
  {
    if events != [] {
      var n := |events| - 1;
      var init, e := events[..n], events[n];
      GrownCounts(before, init, document);
      assert events == init + [e];
      var mid, after := Grown(before, init, document), Grown(before, events, document);
      if IsWebhookFor(e.op, document) {
        assert e in events;
      }
      if after.Some? && !(before.Some? && after.value.priority == before.value.priority) {
        if mid.Some? && after.value.priority == mid.value.priority {
          var f :| f in init && IsWebhookFor(f.op, document) && mid.value.priority == f.op.intake.priority;
          assert f in events;
        }
      }
    }
  }

  /** A candidate counts the webhooks since it was created: its generation has grown by exactly their number, its
      priority is the highest of them and of the one before, and its age is that of the first. */
  lemma CandidateCountsWebhooks(db: Db, events: seq<Event>, document: int)
    requires AllForeign(events)
    ensures var before, after, n := CandidateOf(db, document), CandidateOf(Run(db, events), document), Webhooks(events, document);
            && (n == 0 ==> after == before)
            && (n > 0 ==> after.Some?)
            && (after.Some? ==> after.value.generation == (if before.Some? then before.value.generation else 0) + n)
            && (after.Some? && before.Some? ==> after.value.createdAt == before.value.createdAt && after.value.priority >= before.value.priority)
            && (after.Some? ==> forall e | e in events && IsWebhookFor(e.op, document) :: after.value.priority >= e.op.intake.priority)
            && (after.Some? ==> (before.Some? && after.value.priority == before.value.priority)
                                || exists e | e in events && IsWebhookFor(e.op, document) :: after.value.priority == e.op.intake.priority)
  {
    RunGrows(db, events, document);
    GrownCounts(CandidateOf(db, document), events, document);
  }

  lemma SameGeneration(db: Db, events: seq<Event>, document: int)
    requires AllForeign(events) && document in db.candidates
    ensures document in Run(db, events).candidates
    ensures CandidateIs(Run(db, events), document, db.candidates[document].generation) <==> Webhooks(events, document) == 0
  {
    CandidateCountsWebhooks(db, events, document);
  }

  /** A discard with the generation that was read removes the candidate if and only if no webhook for its document came
      since, and touches nothing else. */
  lemma DiscardExactly(db: Db, events: seq<Event>, document: int)
    requires AllForeign(events) && document > 0 && document in db.candidates && db.candidates[document].generation > 0
    ensures var mid := Run(db, events);
            var tx := DiscardCandidate(mid, document, db.candidates[document].generation);
            && tx.result == Ok(Webhooks(events, document) == 0)
            && (document in tx.db.candidates <==> Webhooks(events, document) > 0)
            && tx.db == mid.(candidates := tx.db.candidates) && tx.db.candidates == mid.candidates - (mid.candidates.Keys - tx.db.candidates.Keys)
            && mid.candidates.Keys - tx.db.candidates.Keys <= {document}
  {
    SameGeneration(db, events, document);
  }

  /** A resolve with the generation that was read takes effect if and only if no webhook for its document came since:
      then the candidate is gone and the source has a row, which has at least the priority of the candidate if it waits.
      Otherwise nothing changes. */
  lemma ResolveExactly(db: Db, events: seq<Event>, now: Time, document: int, input: EnqueueInput)
    requires AllForeign(events) && document > 0 && document in db.candidates && db.candidates[document].generation > 0
    requires input.Valid() && input.document == document
    ensures var mid := Run(db, events);
            var tx := ResolveCandidate(mid, now, document, db.candidates[document].generation, input);
            && tx.result.Ok? && (tx.result.value.Some? <==> Webhooks(events, document) == 0)
            && (tx.result.value.None? ==> tx.db == mid)
            && (tx.result.value.Some? ==>
                  var (id, created) := tx.result.value.value;
                  && document !in tx.db.candidates && tx.db == mid.(jobs := tx.db.jobs, candidates := mid.candidates - {document})
                  && ResolvedAs(mid, tx.db, id, created, input, db.candidates[document].priority))
  {
    SameGeneration(db, events, document);
    CandidateCountsWebhooks(db, events, document);
    ResolveNow(Run(db, events), now, document, db.candidates[document].generation, input, db.candidates[document].priority);
  }

  lemma ResolveNow(db: Db, now: Time, document: int, generation: int, input: EnqueueInput, priority: int)
    requires document > 0 && generation > 0 && input.Valid() && input.document == document
    requires document in db.candidates && db.candidates[document].priority >= priority
    ensures var tx := ResolveCandidate(db, now, document, generation, input);
            && tx.result.Ok? && (tx.result.value.Some? <==> CandidateIs(db, document, generation))
            && (tx.result.value.None? ==> tx.db == db)
            && (tx.result.value.Some? ==>
                  var (id, created) := tx.result.value.value;
                  && tx.db == db.(jobs := tx.db.jobs, candidates := db.candidates - {document})
                  && ResolvedAs(db, tx.db, id, created, input, priority))
  {
    var given := input.(priority := db.candidates[document].priority);
    ResolvedRowExactly(db, now, given);
  }

  ghost predicate ResolvedAs(a: Db, b: Db, id: int, created: bool, input: EnqueueInput, priority: int) {
    && b.HasJob(id) && HasSource(b.JobAt(id), input.document, input.checksum)
    && (created <==> forall i | 0 <= i < |a.jobs| :: !HasSource(a.jobs[i], input.document, input.checksum))
    && (b.JobAt(id).state == Pending || b.JobAt(id).state == Retry ==> b.JobAt(id).priority >= priority)
    && (forall i | 0 <= i < |a.jobs| && i != id - 1 :: i < |b.jobs| && b.jobs[i] == a.jobs[i])
  }

  lemma ResolvedRowExactly(db: Db, now: Time, input: EnqueueInput)
    ensures var ((id, created), after) := EnqueueRow(db, now, input);
            after == db.(jobs := after.jobs) && ResolvedAs(db, after, id, created, input, input.priority)
  {
  }
}
