/** What the durable checkpoints of a job say, and why they fix its content for ever. */
module Checkpoints {
  import opened Common
  import opened QueueModel
  import opened QueueSpec
  import opened QueueLaws
  import T = Transcript
  import Canonical

  type Suspicion = string -> bool

  /** The stored text stands for the batch: it is read back as the batch, or it is its canonical form. */
  ghost predicate Denotes(text: string, range: PageRange, batch: T.Batch, suspicious: Suspicion) {
    && batch.first == range.first && batch.last == range.last
    && T.ValidBatch(batch, T.Proper(suspicious))
    && (Canonical.Validated(text, range.first, range.last, suspicious) == Some(batch) || Canonical.CanonicalText(batch) == text)
  }

  /** A text stands for one batch only, although a canonical form may be too long to be read back. */
  lemma DenotesOne(text: string, range: PageRange, a: T.Batch, b: T.Batch, suspicious: Suspicion)
    requires Denotes(text, range, a, suspicious) && Denotes(text, range, b, suspicious)
    ensures a == b
  {
    if Canonical.CanonicalText(a) == text {
      Canonical.CanonicalRevalidates(a, suspicious);
    }
    if Canonical.CanonicalText(b) == text {
      Canonical.CanonicalRevalidates(b, suspicious);
    }
    if Canonical.CanonicalText(a) == Canonical.CanonicalText(b) {
      Canonical.CanonicalIsInjective(a, b, suspicious);
    }
  }

  ghost predicate RowHolds(row: Batch, batch: T.Batch, suspicious: Suspicion) {
    row.text.Some? && Denotes(row.text.value, row.range, batch, suspicious)
  }

  /** The first `k` rows are completed and stand for the batches. */
  ghost predicate Holds(rows: seq<Batch>, batches: seq<T.Batch>, k: nat, suspicious: Suspicion)
    requires k <= |batches|
  {
    k <= |rows| && forall i | 0 <= i < k :: RowHolds(rows[i], batches[i], suspicious)
  }

  lemma HoldsLater(a: seq<Batch>, b: seq<Batch>, batches: seq<T.Batch>, k: nat, suspicious: Suspicion)
    requires k <= |batches| && Holds(a, batches, k, suspicious) && BatchesEvolve(a, b) && a != []
    ensures Holds(b, batches, k, suspicious) && |b| == |a|
  {
    forall i | 0 <= i < k ensures RowHolds(b[i], batches[i], suspicious) {
      assert RowHolds(a[i], batches[i], suspicious) && BatchEvolves(a[i], b[i]);
    }
  }

  /** All rows of the job stand for these batches, and the content is their join. */
  ghost predicate FixedBy(db: Db, id: int, content: string, batches: seq<T.Batch>, suspicious: Suspicion) {
    var rows := db.BatchesOf(id);
    && rows != [] && |rows| == |batches| && Holds(rows, batches, |batches|, suspicious)
    && T.Joinable(batches, T.Proper(suspicious)) && content == T.Joined(T.AllPages(batches))
  }

  /** The durable checkpoints of the job determine its content. */
  ghost predicate Fixed(db: Db, id: int, content: string, suspicious: Suspicion) {
    exists batches :: FixedBy(db, id, content, batches, suspicious)
  }

  lemma FixedLater(a: Db, b: Db, id: int, content: string, suspicious: Suspicion)
    requires Evolves(a, b) && Fixed(a, id, content, suspicious)
    ensures Fixed(b, id, content, suspicious)
  {
    var batches :| FixedBy(a, id, content, batches, suspicious);
    assert BatchesEvolve(a.BatchesOf(id), b.BatchesOf(id));
    HoldsLater(a.BatchesOf(id), b.BatchesOf(id), batches, |batches|, suspicious);
    assert FixedBy(b, id, content, batches, suspicious);
  }

  lemma RowsHoldOne(rows: seq<Batch>, xs: seq<T.Batch>, ys: seq<T.Batch>, suspicious: Suspicion)
    requires |rows| == |xs| == |ys| && Holds(rows, xs, |xs|, suspicious) && Holds(rows, ys, |ys|, suspicious)
    ensures xs == ys
  {
    forall i | 0 <= i < |rows| ensures xs[i] == ys[i] {
      assert RowHolds(rows[i], xs[i], suspicious) && RowHolds(rows[i], ys[i], suspicious);
      DenotesOne(rows[i].text.value, rows[i].range, xs[i], ys[i], suspicious);
    }
  }

  lemma FixedOnce(db: Db, id: int, c: string, d: string, suspicious: Suspicion)
    requires Fixed(db, id, c, suspicious) && Fixed(db, id, d, suspicious)
    ensures c == d
  {
    var xs :| FixedBy(db, id, c, xs, suspicious);
    var ys :| FixedBy(db, id, d, ys, suspicious);
    var rows := db.BatchesOf(id);
    RowsHoldOne(rows, xs, ys, suspicious);
  }

  // ----- Whole runs ---------------------------------------------------------------------------

  /** A result that some call returned, and the tables when it did. */
  datatype Returned = Returned(job: int, content: string, db: Db)

  ghost predicate History(log: seq<Returned>, suspicious: Suspicion) {
    && (forall i | 0 <= i < |log| :: Fixed(log[i].db, log[i].job, log[i].content, suspicious))
    && Ordered(log)
  }

  ghost predicate Ordered(log: seq<Returned>) {
    forall i | 0 <= i < |log| - 1 :: Succeeds(log, i)
  }

  ghost predicate Succeeds(log: seq<Returned>, i: nat)
    requires i + 1 < |log|
  {
    Evolves(log[i].db, log[i + 1].db)
  }

  lemma {:induction false} OrderedEvolves(log: seq<Returned>, i: nat, k: nat)
    requires Ordered(log) && i <= k < |log|
    ensures Evolves(log[i].db, log[k].db)
    decreases k
  {
    if i == k {
      EvolvesReflexive(log[i].db);
    } else {
      OrderedEvolves(log, i, k - 1);
      assert Succeeds(log, k - 1);
      EvolvesTransitive(log[i].db, log[k - 1].db, log[k].db);
    }
  }

  /** All results of the log were returned before the tables were `db`. */
  ghost predicate UpTo(log: seq<Returned>, db: Db) {
    log == [] || Evolves(log[|log| - 1].db, db)
  }

  lemma UpToLater(log: seq<Returned>, a: Db, b: Db)
    requires UpTo(log, a) && Evolves(a, b)
    ensures UpTo(log, b)
  {
    if log != [] {
      EvolvesTransitive(log[|log| - 1].db, a, b);
    }
  }

  lemma OrderedGrows(log: seq<Returned>, r: Returned)
    requires Ordered(log) && UpTo(log, r.db)
    ensures Ordered(log + [r])
  {
    var more := log + [r];
    forall i | 0 <= i < |more| - 1 ensures Succeeds(more, i) {
      if i < |log| - 1 {
        assert Succeeds(log, i) && more[i] == log[i] && more[i + 1] == log[i + 1];
      } else {
        assert more[i] == log[|log| - 1] && more[i + 1] == r;
      }
    }
  }

  lemma HistoryGrows(log: seq<Returned>, r: Returned, suspicious: Suspicion)
    requires History(log, suspicious) && Fixed(r.db, r.job, r.content, suspicious) && UpTo(log, r.db)
    ensures History(log + [r], suspicious) && UpTo(log + [r], r.db)
  {
    OrderedGrows(log, r);
    EvolvesReflexive(r.db);
  }

  lemma LaterAgrees(a: Db, b: Db, job: int, c: string, d: string, suspicious: Suspicion)
    requires Evolves(a, b) && Fixed(a, job, c, suspicious) && Fixed(b, job, d, suspicious)
    ensures c == d
  {
    FixedLater(a, b, job, c, suspicious);
    FixedOnce(b, job, c, d, suspicious);
  }

  lemma RunGoesOn(db: Db, events: seq<Event>, i: nat, k: nat)
    requires i <= k <= |events|
    ensures Evolves(Run(db, events[..i]), Run(db, events[..k]))
  {
    assert events[..k] == events[..i] + events[i..k];
    RunConcat(db, events[..i], events[i..k]);
    RunEvolves(Run(db, events[..i]), events[i..k]);
  }

  /** Calls may overlap in any way: the transactions of all of them, and of everybody else, form one run. What one
      call returns after `i` transactions and another after `k`, for the same job, is the same content. */
  lemma OverlappingCalls(db: Db, events: seq<Event>, i: nat, k: nat, job: int, c: string, d: string, suspicious: Suspicion)
    requires i <= |events| && k <= |events|
    requires Fixed(Run(db, events[..i]), job, c, suspicious) && Fixed(Run(db, events[..k]), job, d, suspicious)
    ensures c == d
  {
    if i <= k {
      RunGoesOn(db, events, i, k);
      LaterAgrees(Run(db, events[..i]), Run(db, events[..k]), job, c, d, suspicious);
    } else {
      OverlappingCalls(db, events, k, i, job, d, c, suspicious);
    }
  }

  /** All results that are ever returned for one job carry the same content. */
  lemma OneContentPerJob(log: seq<Returned>, i: nat, k: nat, suspicious: Suspicion)
    requires History(log, suspicious) && i < |log| && k < |log| && log[i].job == log[k].job
    ensures log[i].content == log[k].content
  {
    if i <= k {
      OrderedEvolves(log, i, k);
      FixedLater(log[i].db, log[k].db, log[i].job, log[i].content, suspicious);
      FixedOnce(log[k].db, log[k].job, log[i].content, log[k].content, suspicious);
    } else {
      OneContentPerJob(log, k, i, suspicious);
    }
  }
}
