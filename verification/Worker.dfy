/** The worker: from a claimed job to its content, through a durable plan and write-once checkpoints.
    Model answers, remote answers and interruptions are arbitrary, and other processes run in between. */
module Worker {
  import opened Common
  import opened QueueModel
  import QueueSpec
  import opened QueueLaws
  import opened Queue
  import opened World
  import opened Checkpoints
  import T = Transcript
  import Canonical

  const MAX_PAGES := 10_000
  const FORMAT := "png"

  /** What a failed request to the model is recognized by. */
  datatype ModelError = ModelError(unsupported: bool, timeout: bool, deadline: bool, retryable: bool, category: Category)

  datatype WorkError =
    | Interrupted(deadline: bool)
    | LostLease
    | Incomplete
    | Model(error: ModelError)
    | Fault(category: Category)
    | NoTransition

  datatype Output = Output(job: int, document: int, checksum: string, content: string)

  type Pages = seq<PageRange>

  function Least(a: int, b: int): int { if a < b then a else b }

  /** Ranges of `size` pages from page `first` to page `pages`; the last one may be shorter. */
  function PlanFrom(first: int, pages: int, size: int): Pages
    requires size >= 1
    decreases pages + 1 - first
  {
    if first > pages then []
    else [PageRange(first, Least(first + size - 1, pages))] + PlanFrom(first + size, pages, size)
  }

  method PlanRanges(pages: int, size: int, direct: bool) returns (ranges: Option<Pages>)
    requires size >= 1
    ensures ranges.Some? <==> 0 < pages <= MAX_PAGES
    ensures ranges.Some? ==> ranges.value == PlanFrom(1, pages, if direct then pages else size)
  {
    if pages <= 0 || pages > MAX_PAGES {
      return None;
    }
    if direct {
      assert PlanFrom(1 + pages, pages, pages) == [];
      return Some([PageRange(1, pages)]);
    }
    var planned: Pages := [];
    var first := 1;
    while first <= pages
      invariant planned + PlanFrom(first, pages, size) == PlanFrom(1, pages, size)
      decreases pages + 1 - first
    {
      planned := planned + [PageRange(first, Least(first + size - 1, pages))];
      first := first + size;
    }
    ranges := Some(planned);
  }

  predicate Contains(range: PageRange, page: int) {
    range.first <= page <= range.last
  }

  predicate Adjacent(plan: Pages, i: int) {
    0 < i < |plan| ==> plan[i].first == plan[i - 1].last + 1
  }

  lemma PlanStep(first: int, pages: int, size: int)
    requires 1 <= size && 1 <= first <= pages
    ensures var plan, rest := PlanFrom(first, pages, size), PlanFrom(first + size, pages, size);
            && |plan| == 1 + |rest| && plan[0] == PageRange(first, Least(first + size - 1, pages))
            && (forall i | 0 < i < |plan| :: plan[i] == rest[i - 1])
            && (rest == [] <==> first + size > pages)
  {
  }

  /** The queue accepts the plan for ranges of up to five pages, and the plan runs from `first` to `pages`. */
  lemma {:induction false} PlanIsValid(first: int, pages: int, size: int)
    requires 1 <= size <= 5 && 1 <= first <= pages
    ensures var plan := PlanFrom(first, pages, size);
            && plan != [] && plan[0].first == first && plan[|plan| - 1].last == pages
            && (forall i | 0 <= i < |plan| :: QueueSpec.ValidRange(plan[i]) && plan[i].first >= first)
            && (forall i | 0 <= i < |plan| :: Adjacent(plan, i))
    decreases pages - first
  {
    var plan, rest := PlanFrom(first, pages, size), PlanFrom(first + size, pages, size);
    PlanStep(first, pages, size);
    if first + size <= pages {
      PlanIsValid(first + size, pages, size);
      forall i | 0 <= i < |plan| ensures Adjacent(plan, i) {
        assert i > 1 ==> Adjacent(rest, i - 1);
      }
    }
  }

  predicate OnlyRange(plan: Pages, i: int, page: int) {
    0 <= i < |plan| && Contains(plan[i], page) && forall k | 0 <= k < |plan| && k != i :: !Contains(plan[k], page)
  }

  /** Every page stands in exactly one planned range. */
  lemma {:induction false} PlanPartitions(first: int, pages: int, size: int, page: int) returns (i: int)
    requires 1 <= size <= 5 && 1 <= first <= page <= pages
    ensures OnlyRange(PlanFrom(first, pages, size), i, page)
    decreases pages - first
  {
    var plan, rest := PlanFrom(first, pages, size), PlanFrom(first + size, pages, size);
    PlanStep(first, pages, size);
    if page < first + size {
      i := 0;
      if first + size <= pages {
        PlanIsValid(first + size, pages, size);
      }
    } else {
      var k := PlanPartitions(first + size, pages, size, page);
      i := k + 1;
      NextRange(plan, rest, k, page);
    }
  }

  lemma NextRange(plan: Pages, rest: Pages, k: int, page: int)
    requires |plan| == 1 + |rest| && (forall i | 0 < i < |plan| :: plan[i] == rest[i - 1])
    requires OnlyRange(rest, k, page) && !Contains(plan[0], page)
    ensures OnlyRange(plan, k + 1, page)
  {
  }

  /** The row of a range in the rows of a plan. */
  lemma PlannedRow(rows: seq<Batch>, plan: Pages, i: nat, dpi: int, format: string)
    requires QueueSpec.ValidPlan(plan) && QueueSpec.SamePlan(rows, plan, dpi, format) && i < |plan|
    ensures QueueSpec.FindBatch(rows, plan[i], dpi, format) == i
  {
    PlanIncreases(plan, 0, i);
    var k := QueueSpec.FindBatch(rows, plan[i], dpi, format);
    assert rows[i].range == plan[i];
    if k < i {
      PlanIncreases(plan, k, i);
    }
  }

  lemma {:induction false} PlanIncreases(plan: Pages, i: nat, k: nat)
    requires QueueSpec.ValidPlan(plan) && i <= k < |plan|
    ensures i < k ==> plan[i].first < plan[k].first
    decreases k
  {
    if i < k {
      PlanIncreases(plan, i, k - 1);
      assert QueueSpec.ValidRange(plan[k - 1]);
    }
  }

  class Worker {
    const store: Queue
    const suspicious: Suspicion
    const model: string
    const promptVersion: string
    const batchSize: int
    const dpi: int
    const attempts: int
    const direct: bool
    const lease: int
    const retryDelay: int

    ghost predicate Valid()
    {
      1 <= batchSize <= 5 && dpi > 0 && attempts >= 1 && lease > 0 && retryDelay > 0
    }

    constructor (store: Queue, suspicious: Suspicion, model: string, promptVersion: string,
                 batchSize: int, dpi: int, attempts: int, direct: bool, lease: int, retryDelay: int)
      requires 1 <= batchSize <= 5 && dpi > 0 && attempts >= 1 && lease > 0 && retryDelay > 0
      ensures Valid() && this.store == store && this.suspicious == suspicious
    {
      this.store, this.suspicious, this.model, this.promptVersion := store, suspicious, model, promptVersion;
      this.batchSize, this.dpi, this.attempts, this.direct, this.lease, this.retryDelay := batchSize, dpi, attempts, direct, lease, retryDelay;
    }

    // ----- Store calls, with the other processes running before each ---------------------------

    method Renew(c: Claim) returns (e: Option<WorkError>)
      modifies store
      ensures Evolves(old(store.State()), store.State())
    {
      Others(store);
      if * {
        var deadline: bool := *;
        return Some(Interrupted(deadline));
      }
      ghost var was := store.State();
      var now := Reading();
      var r := store.RenewLease(now, c, lease);
      RenewEvolves(was, now, c, lease);
      EvolvesTransitive(old(store.State()), was, store.State());
      var lost: bool := *;
      e := if lost || r.Err? then Some(LostLease) else None;
    }

    /** A store call may be reported as failed although it committed. */
    method Reported(ok: bool) returns (e: Option<WorkError>)
      ensures !ok ==> e.Some?
    {
      if ok {
        e := *;
      } else {
        e := Some(Fault(Validation));
      }
    }

    method Ensure(c: Claim, plan: Pages) returns (r: Result<seq<Batch>, WorkError>)
      modifies store
      ensures Evolves(old(store.State()), store.State())
      ensures r.Ok? ==> r.value != [] && r.value == store.State().BatchesOf(c.job)
      ensures r.Ok? ==> QueueSpec.ValidPlan(plan) && QueueSpec.SamePlan(r.value, plan, dpi, FORMAT)
    {
      Others(store);
      ghost var was := store.State();
      var now := Reading();
      var rows := store.EnsureBatches(now, c, plan, dpi, FORMAT);
      EnsureEvolves(was, now, c, plan, dpi, FORMAT);
      EvolvesTransitive(old(store.State()), was, store.State());
      var e := Reported(rows.Ok?);
      r := if e.Some? then Err(e.value) else Ok(rows.value);
    }

    method Checkpoint(c: Claim, range: PageRange, text: string) returns (e: Option<WorkError>)
      modifies store
      ensures Evolves(old(store.State()), store.State())
      ensures e.None? ==> HasText(store.State().BatchesOf(c.job), range, text)
    {
      e := Renew(c);
      if e.None? {
        ghost var renewed := store.State();
        e := Write(c, range, text);
        EvolvesTransitive(old(store.State()), renewed, store.State());
      }
    }

    method Write(c: Claim, range: PageRange, text: string) returns (e: Option<WorkError>)
      modifies store
      ensures Evolves(old(store.State()), store.State())
      ensures e.None? ==> HasText(store.State().BatchesOf(c.job), range, text)
    {
      Others(store);
      ghost var was := store.State();
      var now := Reading();
      var r := store.CheckpointBatch(now, c, range, dpi, FORMAT, text);
      Written(was, now, c, range, text);
      CheckpointEvolves(was, now, c, range, dpi, FORMAT, text);
      EvolvesTransitive(old(store.State()), was, store.State());
      e := Reported(r.Ok?);
    }

    lemma Written(db: Db, now: Time, c: Claim, range: PageRange, text: string)
      ensures var t := QueueSpec.CheckpointBatch(db, now, c, range, dpi, FORMAT, text);
              t.result.Ok? ==> HasText(t.db.BatchesOf(c.job), range, text)
    {
      var rows := db.BatchesOf(c.job);
      var i := QueueSpec.FindBatch(rows, range, dpi, FORMAT);
      if i < |rows| {
        WrittenRow(rows, range, text, i);
      }
    }

    /** The row of the range is completed with the text. */
    ghost predicate HasText(rows: seq<Batch>, range: PageRange, text: string) {
      var i := QueueSpec.FindBatch(rows, range, dpi, FORMAT);
      i < |rows| && rows[i].text == Some(text)
    }

    lemma WrittenRow(rows: seq<Batch>, range: PageRange, text: string, i: nat)
      requires i == QueueSpec.FindBatch(rows, range, dpi, FORMAT) < |rows|
      ensures HasText(rows[i := rows[i].(text := Some(text))], range, text)
    {
      var after := rows[i := rows[i].(text := Some(text))];
      var k := QueueSpec.FindBatch(after, range, dpi, FORMAT);
      forall j | 0 <= j < i ensures after[j] == rows[j] {
      }
      assert after[i].range == range && k == i;
    }

    // ----- Asking the model ---------------------------------------------------------------------

    /** The model may answer anything. */
    method Ask(range: PageRange) returns (raw: Result<string, ModelError>) {
      raw := *;
    }

    /** A call to a remote service or to the file system may fail in any way. */
    method Remote() returns (e: Option<WorkError>)
    {
      e := *;
    }

    /** Asks at most `attempts` times; what it accepts is validated for exactly the range. */
    method Transcribe(c: Claim, range: PageRange, stopOnTimeout: bool)
      returns (r: Result<(T.Batch, string), WorkError>, asked: int)
      requires Valid()
      modifies store
      ensures Evolves(old(store.State()), store.State())
      ensures asked <= attempts
      ensures r.Ok? ==> Denotes(r.value.1, range, r.value.0, suspicious)
      ensures r.Ok? ==> r.value.1 == Canonical.CanonicalText(r.value.0)
    {
      EvolvesReflexive(store.State());
      asked := 0;
      var raw: Result<string, ModelError>;
      while true
        invariant asked < attempts
        invariant Evolves(old(store.State()), store.State())
        decreases attempts - asked
      {
        ghost var was := store.State();
        var e := Renew(c);
        EvolvesTransitive(old(store.State()), was, store.State());
        if e.Some? {
          return Err(e.value), asked;
        }
        raw := Ask(range);
        asked := asked + 1;
        if raw.Ok? {
          break;
        }
        if * {
          var deadline: bool := *;
          return Err(Interrupted(deadline)), asked;
        }
        if raw.error.unsupported || (stopOnTimeout && (raw.error.timeout || raw.error.deadline)) {
          return Err(Model(raw.error)), asked;
        }
        if !(raw.error.deadline || raw.error.retryable) || asked == attempts {
          return Err(if raw.error.deadline then Fault(Provider) else Model(raw.error)), asked;
        }
        if * {
          var deadline: bool := *;
          return Err(Interrupted(deadline)), asked;
        }
      }
      if * {
        var deadline: bool := *;
          return Err(Interrupted(deadline)), asked;
      }
      var got := Canonical.ValidateCanonical(raw.value, range.first, range.last, suspicious);
      if got.None? {
        return Err(Fault(Provider)), asked;
      }
      r := Ok(got.value);
    }

    /** Renders, asks and checkpoints one range; afterwards its row holds exactly the canonical text. */
    method TranscribeRange(c: Claim, plan: Pages, i: nat) returns (r: Result<T.Batch, WorkError>, asked: int)
      requires Valid() && i < |plan| && QueueSpec.ValidPlan(plan)
      requires QueueSpec.SamePlan(store.State().BatchesOf(c.job), plan, dpi, FORMAT)
      modifies store
      ensures Evolves(old(store.State()), store.State())
      ensures QueueSpec.SamePlan(store.State().BatchesOf(c.job), plan, dpi, FORMAT)
      ensures asked <= attempts
      ensures r.Ok? ==> RowHolds(store.State().BatchesOf(c.job)[i], r.value, suspicious)
    {
      asked := 0;
      ghost var start := store.State();
      EvolvesReflexive(start);
      var e := Remote();
      if e.Some? {
        return Err(e.value), asked;
      }
      e := Renew(c);
      PlanStays(start, store.State(), c.job, plan);
      if e.Some? {
        return Err(e.value), asked;
      }
      e := Remote();
      if e.Some? {
        return Err(e.value), asked;
      }
      ghost var rendered := store.State();
      var answer;
      answer, asked := Transcribe(c, plan[i], false);
      EvolvesTransitive(start, rendered, store.State());
      PlanStays(start, store.State(), c.job, plan);
      if answer.Err? {
        return Err(answer.error), asked;
      }
      ghost var answered := store.State();
      e := Checkpoint(c, plan[i], answer.value.1);
      EvolvesTransitive(start, answered, store.State());
      PlanStays(start, store.State(), c.job, plan);
      if e.Some? {
        return Err(e.value), asked;
      }
      PlannedRow(store.State().BatchesOf(c.job), plan, i, dpi, FORMAT);
      e := Remote();
      r := if e.Some? then Err(e.value) else Ok(answer.value.0);
    }

    lemma PlanStays(a: Db, b: Db, id: int, plan: Pages)
      requires Evolves(a, b) && plan != [] && QueueSpec.SamePlan(a.BatchesOf(id), plan, dpi, FORMAT)
      ensures QueueSpec.SamePlan(b.BatchesOf(id), plan, dpi, FORMAT)
    {
      var x, y := a.BatchesOf(id), b.BatchesOf(id);
      assert BatchesEvolve(x, y);
      forall i | 0 <= i < |y| ensures y[i].range == plan[i] && y[i].dpi == dpi && y[i].format == FORMAT {
        assert BatchEvolves(x[i], y[i]);
      }
    }

    // ----- From the plan to the content ---------------------------------------------------------

    /** A completed row is read back; its text then stands for the batch. */
    method ReadRow(row: Batch) returns (batch: Option<T.Batch>)
      requires row.text.Some?
      ensures batch.Some? ==> RowHolds(row, batch.value, suspicious)
    {
      var got := Canonical.ValidateCanonical(row.text.value, row.range.first, row.range.last, suspicious);
      batch := if got.Some? then Some(got.value.0) else None;
    }

    /** The rows among the first `k` that have no text yet. */
    function OpenRows(rows: seq<Batch>, k: nat): nat
      requires k <= |rows|
    {
      if k == 0 then 0 else OpenRows(rows, k - 1) + (if rows[k - 1].text.None? then 1 else 0)
    }

    lemma {:induction false} OpenRowsGrow(rows: seq<Batch>, j: nat, k: nat)
      requires j <= k <= |rows| && attempts >= 1
      ensures attempts * OpenRows(rows, j) <= attempts * OpenRows(rows, k)
      decreases k
    {
      if j < k {
        OpenRowsGrow(rows, j, k - 1);
        OneRowMore(rows, k - 1);
      }
    }

    lemma OneRowMore(rows: seq<Batch>, i: nat)
      requires i < |rows|
      ensures attempts * OpenRows(rows, i + 1) == attempts * OpenRows(rows, i) + (if rows[i].text.None? then attempts else 0)
    {
      if rows[i].text.None? {
        assert OpenRows(rows, i + 1) == OpenRows(rows, i) + 1;
      }
    }

    /** Reads the completed rows back and transcribes the others; only these are ever asked for. */
    method Collect(c: Claim, plan: Pages, rows: seq<Batch>) returns (r: Result<seq<T.Batch>, WorkError>, asked: int)
      requires Valid() && QueueSpec.ValidPlan(plan) && rows == store.State().BatchesOf(c.job)
      requires QueueSpec.SamePlan(rows, plan, dpi, FORMAT)
      modifies store
      ensures Evolves(old(store.State()), store.State())
      ensures asked <= attempts * OpenRows(rows, |rows|)
      ensures r.Ok? ==> |r.value| == |rows| == |store.State().BatchesOf(c.job)|
      ensures r.Ok? ==> Checkpoints.Holds(store.State().BatchesOf(c.job), r.value, |r.value|, suspicious)
    {
      ghost var start := store.State();
      EvolvesReflexive(start);
      var validated: seq<T.Batch> := [];
      asked := 0;
      for i := 0 to |rows|
        invariant |validated| == i && asked <= attempts * OpenRows(rows, i)
        invariant Evolves(start, store.State())
        invariant QueueSpec.SamePlan(store.State().BatchesOf(c.job), plan, dpi, FORMAT)
        invariant Checkpoints.Holds(store.State().BatchesOf(c.job), validated, i, suspicious)
      {
        ghost var was := store.State();
        OpenRowsGrow(rows, i + 1, |rows|);
        OneRowMore(rows, i);
        var batch: T.Batch;
        if rows[i].text.Some? {
          var got := ReadRow(rows[i]);
          if got.None? {
            return Err(Fault(Provider)), asked;
          }
          batch := got.value;
          RowLater(start, was, c.job, i, batch);
        } else {
          var e := Renew(c);
          EvolvesTransitive(start, was, store.State());
          if e.Some? {
            return Err(e.value), asked;
          }
          PlanStays(start, store.State(), c.job, plan);
          ghost var renewed := store.State();
          var got, more := TranscribeRange(c, plan, i);
          asked := asked + more;
          EvolvesTransitive(start, renewed, store.State());
          if got.Err? {
            return Err(got.error), asked;
          }
          batch := got.value;
          EvolvesTransitive(was, renewed, store.State());
          HoldsStill(was, store.State(), c.job, validated);
        }
        HoldsNext(store.State().BatchesOf(c.job), validated, batch);
        validated := validated + [batch];
      }
      r := Ok(validated);
    }

    lemma RowLater(a: Db, b: Db, id: int, i: nat, batch: T.Batch)
      requires Evolves(a, b) && i < |a.BatchesOf(id)| && RowHolds(a.BatchesOf(id)[i], batch, suspicious)
      ensures i < |b.BatchesOf(id)| && RowHolds(b.BatchesOf(id)[i], batch, suspicious)
    {
      assert BatchesEvolve(a.BatchesOf(id), b.BatchesOf(id));
      assert BatchEvolves(a.BatchesOf(id)[i], b.BatchesOf(id)[i]);
    }

    lemma HoldsStill(a: Db, b: Db, id: int, batches: seq<T.Batch>)
      requires Evolves(a, b) && a.BatchesOf(id) != []
      requires Checkpoints.Holds(a.BatchesOf(id), batches, |batches|, suspicious)
      ensures Checkpoints.Holds(b.BatchesOf(id), batches, |batches|, suspicious) && |b.BatchesOf(id)| == |a.BatchesOf(id)|
    {
      assert BatchesEvolve(a.BatchesOf(id), b.BatchesOf(id));
      HoldsLater(a.BatchesOf(id), b.BatchesOf(id), batches, |batches|, suspicious);
    }

    lemma HoldsNext(rows: seq<Batch>, batches: seq<T.Batch>, batch: T.Batch)
      requires |batches| < |rows| && Checkpoints.Holds(rows, batches, |batches|, suspicious)
      requires RowHolds(rows[|batches|], batch, suspicious)
      ensures Checkpoints.Holds(rows, batches + [batch], |batches| + 1, suspicious)
    {
      forall i | 0 <= i < |batches| + 1 ensures RowHolds(rows[i], (batches + [batch])[i], suspicious) {
        if i < |batches| {
          assert RowHolds(rows[i], batches[i], suspicious);
        }
      }
    }

    /** Joins the batches that the rows stand for. */
    method JoinAll(c: Claim, batches: seq<T.Batch>) returns (content: Option<string>)
      requires batches != [] && |store.State().BatchesOf(c.job)| == |batches|
      requires Checkpoints.Holds(store.State().BatchesOf(c.job), batches, |batches|, suspicious)
      ensures content.Some? ==> Fixed(store.State(), c.job, content.value, suspicious)
    {
      content := T.Join(batches, T.Proper(suspicious));
      if content.Some? {
        assert FixedBy(store.State(), c.job, content.value, batches, suspicious);
      }
    }

    /** The path that renders pages: plan, resume, transcribe, join. */
    method FromImages(c: Claim, pages: int) returns (r: Result<string, WorkError>)
      requires Valid()
      modifies store
      ensures Evolves(old(store.State()), store.State())
      ensures r.Ok? ==> Fixed(store.State(), c.job, r.value, suspicious)
    {
      EvolvesReflexive(store.State());
      var plan := PlanRanges(pages, batchSize, false);
      if plan.None? {
        return Err(Fault(Rendering));
      }
      var rows := Ensure(c, plan.value);
      if rows.Err? {
        return Err(rows.error);
      }
      ghost var planned := store.State();
      var batches, asked := Collect(c, plan.value, rows.value);
      EvolvesTransitive(old(store.State()), planned, store.State());
      if batches.Err? {
        return Err(batches.error);
      }
      var content := JoinAll(c, batches.value);
      if content.None? {
        return Err(Fault(Provider));
      }
      ghost var joined := store.State();
      var e := Renew(c);
      EvolvesTransitive(old(store.State()), joined, store.State());
      if e.Some? {
        return Err(e.value);
      }
      FixedLater(joined, store.State(), c.job, content.value, suspicious);
      r := Ok(content.value);
    }

    /** The path that sends the whole document. It asks the model before it looks at any checkpoint,
        so a checkpoint from an earlier attempt refuses a different answer. None: fall back to images. */
    method FromDocument(c: Claim, pages: int) returns (r: Result<Option<string>, WorkError>)
      requires Valid()
      modifies store
      ensures Evolves(old(store.State()), store.State())
      ensures r.Ok? && r.value.Some? ==> Fixed(store.State(), c.job, r.value.value, suspicious)
    {
      var range := PageRange(1, pages);
      var answer, asked := Transcribe(c, range, true);
      if answer.Err? {
        var e := answer.error;
        if (e.Model? && (e.error.unsupported || e.error.timeout || e.error.deadline)) || e == Interrupted(true) {
          return Ok(None);
        }
        return Err(e);
      }
      ghost var answered := store.State();
      var rows := Ensure(c, [range]);
      EvolvesTransitive(old(store.State()), answered, store.State());
      if rows.Err? {
        return Err(rows.error);
      }
      ghost var planned := store.State();
      var e := Checkpoint(c, range, answer.value.1);
      EvolvesTransitive(old(store.State()), planned, store.State());
      if e.Some? {
        return Err(e.value);
      }
      PlanStays(planned, store.State(), c.job, [range]);
      PlannedRow(store.State().BatchesOf(c.job), [range], 0, dpi, FORMAT);
      var content := JoinAll(c, [answer.value.0]);
      r := if content.Some? then Ok(content) else Err(Fault(Provider));
    }

    /** Reads back all rows; every one has to be completed. */
    method ReadAll(rows: seq<Batch>) returns (batches: Option<seq<T.Batch>>)
      ensures batches.Some? ==> |batches.value| == |rows| && Checkpoints.Holds(rows, batches.value, |rows|, suspicious)
    {
      var validated: seq<T.Batch> := [];
      for i := 0 to |rows|
        invariant |validated| == i && Checkpoints.Holds(rows, validated, i, suspicious)
      {
        if rows[i].text.None? || Blank(rows[i].text.value) {
          return None;
        }
        var batch := ReadRow(rows[i]);
        if batch.None? {
          return None;
        }
        HoldsNext(rows, validated, batch.value);
        validated := validated + [batch.value];
      }
      batches := Some(validated);
    }

    /** Rebuilds the content from the checkpoints alone, once the content may already be published. */
    method Reconstruct(c: Claim) returns (r: Result<string, WorkError>)
      requires Valid()
      modifies store
      ensures Evolves(old(store.State()), store.State())
      ensures r.Ok? ==> Fixed(store.State(), c.job, r.value, suspicious)
      ensures r.Err? ==> r.error == Incomplete
    {
      Others(store);
      var now := Reading();
      var rows := store.ListBatches(now, c);
      if rows.Err? || rows.value == [] {
        return Err(Incomplete);
      }
      assert rows.value == store.State().BatchesOf(c.job);
      var batches := ReadAll(rows.value);
      if batches.None? {
        return Err(Incomplete);
      }
      var content := JoinAll(c, batches.value);
      r := if content.Some? then Ok(content.value) else Err(Incomplete);
    }

    // ----- One call -------------------------------------------------------------------------------

    /** From a checked source document to its content. */
    method Transcript(c: Claim, job: Job) returns (r: Result<string, WorkError>)
      requires Valid()
      modifies store
      ensures Evolves(old(store.State()), store.State())
      ensures r.Ok? ==> Fixed(store.State(), c.job, r.value, suspicious)
    {
      ghost var start := store.State();
      var e := Renew(c);
      if e.Some? {
        return Err(e.value);
      }
      var document: int, checksum: string := *, *;
      e := Remote();
      if e.Some? {
        return Err(e.value);
      }
      ghost var was := store.State();
      e := Renew(c);
      EvolvesTransitive(start, was, store.State());
      if e.Some? {
        return Err(e.value);
      }
      if document != job.document || checksum != job.checksum {
        return Err(Fault(Validation));
      }
      e := Remote();
      if e.Some? {
        return Err(e.value);
      }
      was := store.State();
      e := Renew(c);
      EvolvesTransitive(start, was, store.State());
      if e.Some? {
        return Err(e.value);
      }
      var pages: int, eligible: bool := *, *;
      e := Remote();
      if e.Some? {
        return Err(e.value);
      }
      was := store.State();
      e := Renew(c);
      EvolvesTransitive(start, was, store.State());
      if e.Some? {
        return Err(e.value);
      }
      was := store.State();
      if direct && 0 < pages <= 5 && eligible {
        var whole := FromDocument(c, pages);
        EvolvesTransitive(start, was, store.State());
        if whole.Err? {
          return Err(whole.error);
        }
        if whole.value.Some? {
          e := Remote();
          return if e.Some? then Err(e.value) else Ok(whole.value.value);
        }
        was := store.State();
      }
      r := FromImages(c, pages);
      EvolvesTransitive(start, was, store.State());
      e := Remote();
      if e.Some? && r.Ok? {
        r := Err(e.value);
      }
    }

    /** A claimed job is transcribed, or rebuilt from its checkpoints once finalization has started. */
    method Work(c: Claim, job: Job) returns (r: Result<string, WorkError>)
      requires Valid()
      modifies store
      ensures Evolves(old(store.State()), store.State())
      ensures r.Ok? ==> Fixed(store.State(), c.job, r.value, suspicious)
    {
      EvolvesReflexive(store.State());
      if !c.Valid() || job.document <= 0 || job.state != Processing {
        return Err(Fault(Validation));
      }
      if job.model != model || job.promptVersion != promptVersion {
        return Err(Fault(Validation));
      }
      Others(store);
      var now := Reading();
      var failure := store.TerminalFailure(now, c);
      if failure.Err? {
        return Err(Fault(Validation));
      }
      if failure.value.Some? {
        return Err(Fault(failure.value.value.category));
      }
      ghost var was := store.State();
      Others(store);
      EvolvesTransitive(old(store.State()), was, store.State());
      now := Reading();
      var started := store.SuccessFinalizationStarted(now, c);
      if started.Err? {
        return Err(Fault(Validation));
      }
      was := store.State();
      if started.value {
        r := Reconstruct(c);
      } else {
        r := Transcript(c, job);
      }
      EvolvesTransitive(old(store.State()), was, store.State());
    }

    method ScheduleRetry(c: Claim) returns (ok: bool)
      modifies store
      ensures Evolves(old(store.State()), store.State())
      ensures ok ==> Gone(store.State(), c)
    {
      Others(store);
      ghost var was := store.State();
      var now := Reading();
      var clock := Reading();
      var d := Diagnostic(Internal, "OCR processing interrupted");
      var r := store.ScheduleRetry(now, c, clock + retryDelay, d);
      ScheduleRetryEvolves(was, now, c, clock + retryDelay, d);
      EvolvesTransitive(old(store.State()), was, store.State());
      ok := r.Ok?;
    }

    method RecordTerminalFailure(c: Claim, category: Category) returns (ok: bool)
      modifies store
      ensures Evolves(old(store.State()), store.State())
      ensures ok ==> store.State().FailureOf(c.job).Some?
    {
      Others(store);
      ghost var was := store.State();
      var now := Reading();
      var d := Diagnostic(category, "OCR processing failed");
      var r := store.RecordTerminalFailure(now, c, d);
      RecordFailureEvolves(was, now, c, d);
      EvolvesTransitive(old(store.State()), was, store.State());
      ok := r.Ok?;
    }

    /** One call of the worker. Whatever it returns as content is the content that the durable checkpoints
        of the job determine; an interruption has given the claim back, a fault is recorded. */
    method Process(c: Claim, job: Job) returns (r: Result<Output, WorkError>)
      requires Valid()
      modifies store
      ensures Evolves(old(store.State()), store.State())
      ensures r.Ok? ==> Fixed(store.State(), c.job, r.value.content, suspicious)
      ensures r.Ok? ==> r.value == Output(c.job, job.document, job.checksum, r.value.content)
      ensures r.Err? && r.error.Interrupted? ==> Gone(store.State(), c)
      ensures r.Err? && (r.error.Fault? || r.error.Model?) ==> store.State().FailureOf(c.job).Some?
    {
      var content := Work(c, job);
      ghost var was := store.State();
      var heartbeatFailed: bool := *;
      if heartbeatFailed {
        return Err(LostLease);
      }
      if content.Ok? {
        return Ok(Output(c.job, job.document, job.checksum, content.value));
      }
      match content.error {
        case Interrupted(_) =>
          var ok := ScheduleRetry(c);
          EvolvesTransitive(old(store.State()), was, store.State());
          r := Err(if ok then content.error else NoTransition);
        case LostLease => r := Err(LostLease);
        case Incomplete => r := Err(Incomplete);
        case NoTransition => r := Err(NoTransition);
        case Model(m) =>
          var ok := RecordTerminalFailure(c, m.category);
          EvolvesTransitive(old(store.State()), was, store.State());
          r := Err(if ok then content.error else NoTransition);
        case Fault(category) =>
          var ok := RecordTerminalFailure(c, category);
          EvolvesTransitive(old(store.State()), was, store.State());
          r := Err(if ok then content.error else NoTransition);
      }
    }
  }

  /** One call of one of the workers, after anything else has happened; a result is added to the log. */
  method OneCall(store: Queue, suspicious: Suspicion, workers: seq<Worker>, log: seq<Returned>) returns (more: seq<Returned>)
    requires forall w | w in workers :: w.Valid() && w.store == store && w.suspicious == suspicious
    requires History(log, suspicious) && UpTo(log, store.State())
    modifies store
    ensures History(more, suspicious) && UpTo(more, store.State())
  {
    more := log;
    ghost var was := store.State();
    Others(store);
    UpToLater(log, was, store.State());
    var k: int, c: Claim, job: Job := *, *, *;
    if 0 <= k < |workers| {
      ghost var before := store.State();
      var r := workers[k].Process(c, job);
      UpToLater(log, before, store.State());
      if r.Ok? {
        var returned := Returned(c.job, r.value.content, store.State());
        HistoryGrows(log, returned, suspicious);
        more := log + [returned];
      }
    }
  }

  /** Any number of calls of any workers on any claims, with anything in between: all results for one job
      carry the same content. */
  method AnyCalls(store: Queue, suspicious: Suspicion, workers: seq<Worker>) returns (log: seq<Returned>)
    requires forall w | w in workers :: w.Valid() && w.store == store && w.suspicious == suspicious
    modifies store
    ensures History(log, suspicious)
    ensures forall i, k | 0 <= i < |log| && 0 <= k < |log| && log[i].job == log[k].job :: log[i].content == log[k].content
  {
    log := [];
    var calls: int := *;
    for i := 0 to if calls < 0 then 0 else calls
      invariant History(log, suspicious) && UpTo(log, store.State())
    {
      log := OneCall(store, suspicious, workers, log);
    }
    forall i, k | 0 <= i < |log| && 0 <= k < |log| && log[i].job == log[k].job ensures log[i].content == log[k].content {
      OneContentPerJob(log, i, k, suspicious);
    }
  }
}
