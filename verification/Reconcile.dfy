/** Reconciliation: resolves webhook candidates, then walks the archive with a durable cursor. Webhooks,
    workers and finalizers run between any two steps, and a pass may stop after any of them. */
module Reconcile {
  import opened Common
  import opened QueueModel
  import S = QueueSpec
  import opened QueueLaws
  import opened Queue
  import opened World

  // ----- What is watched ------------------------------------------------------------------------

  /** The order of events, and when a webhook for each document last committed. */
  datatype Watch = Watch(tick: nat, last: map<int, nat>)

  function Last(w: Watch, document: int): int {
    if document in w.last then w.last[document] else -1
  }

  predicate IsWebhook(op: S.Op) {
    && op.Intake? && op.intake.CandidateOp?
    && op.intake.document > 0 && ValidPriority(op.intake.priority)
  }

  function Note(w: Watch, op: S.Op): Watch {
    Watch(w.tick + 1, if IsWebhook(op) then w.last[op.intake.document := w.tick] else w.last)
  }

  function NoteAll(w: Watch, events: seq<S.Event>): Watch
    decreases |events|
  {
    if events == [] then w else Note(NoteAll(w, events[..|events| - 1]), events[|events| - 1].op)
  }

  /** With a single reconciler nobody else removes candidates. */
  predicate Foreign(op: S.Op) {
    op.Intake? ==> !op.intake.DiscardOp? && !op.intake.ResolveOp?
  }

  datatype Outcome = Missing | BlankChecksum | Enqueued(checksum: string)

  /** A candidate was removed after a document fetch that began at `began`. */
  datatype Removal = Removal(document: int, began: int, outcome: Outcome)

  ghost predicate HasRow(db: Db, document: int, checksum: string) {
    exists i :: 0 <= i < |db.jobs| && S.HasSource(db.jobs[i], document, checksum)
  }

  lemma HasRowLater(a: Db, b: Db, document: int, checksum: string)
    requires Evolves(a, b) && HasRow(a, document, checksum)
    ensures HasRow(b, document, checksum)
  {
    var i :| 0 <= i < |a.jobs| && S.HasSource(a.jobs[i], document, checksum);
    assert JobEvolves(a.jobs[i], b.jobs[i]);
    assert S.HasSource(b.jobs[i], document, checksum);
  }

  /** The removal came after the webhook, and what the fetch found has a job or can have none. */
  ghost predicate Answers(r: Removal, document: int, webhook: int, db: Db) {
    r.document == document && r.began > webhook && (r.outcome.Enqueued? ==> HasRow(db, document, r.outcome.checksum))
  }

  ghost predicate Answered(removals: seq<Removal>, document: int, webhook: int, db: Db) {
    exists i :: 0 <= i < |removals| && Answers(removals[i], document, webhook, db)
  }

  /** No webhook is lost: its candidate is still there, or a fetch that began later has answered it. */
  ghost predicate NoWebhookLost(db: Db, w: Watch, removals: seq<Removal>) {
    forall d | d in w.last :: w.last[d] < w.tick && (d in db.candidates || Answered(removals, d, w.last[d], db))
  }

  lemma AnsweredLater(a: Db, b: Db, removals: seq<Removal>, more: seq<Removal>, document: int, webhook: int)
    requires Evolves(a, b) && Answered(removals, document, webhook, a)
    ensures Answered(removals + more, document, webhook, b)
  {
    var i :| 0 <= i < |removals| && Answers(removals[i], document, webhook, a);
    var r := (removals + more)[i];
    if r.outcome.Enqueued? {
      HasRowLater(a, b, document, r.outcome.checksum);
    }
    assert Answers(r, document, webhook, b);
  }

  /** Between two moments candidates only come and grow; one with its old generation saw no webhook. */
  ghost predicate Quiet(a: Db, v: Watch, b: Db, w: Watch) {
    && v.tick <= w.tick
    && forall d | d in a.candidates :: QuietFor(a, v, b, w, d)
  }

  ghost predicate QuietFor(a: Db, v: Watch, b: Db, w: Watch, d: int)
    requires d in a.candidates
  {
    && d in b.candidates && b.candidates[d].generation >= a.candidates[d].generation
    && (b.candidates[d].generation == a.candidates[d].generation ==> Last(w, d) == Last(v, d))
  }

  lemma QuietTransitive(a: Db, u: Watch, b: Db, v: Watch, c: Db, w: Watch)
    requires Quiet(a, u, b, v) && Quiet(b, v, c, w)
    ensures Quiet(a, u, c, w)
  {
    forall d | d in a.candidates ensures QuietFor(a, u, c, w, d) {
      assert QuietFor(a, u, b, v, d);
      assert QuietFor(b, v, c, w, d);
    }
  }

  /** Only webhooks touch the candidates. */
  lemma ForeignCandidates(db: Db, now: Time, op: S.Op)
    requires Foreign(op)
    ensures IsWebhook(op) ==> S.Apply(db, now, op) == S.EnqueueCandidate(db, now, op.intake.document, op.intake.priority).db
    ensures !IsWebhook(op) ==> S.Apply(db, now, op).candidates == db.candidates
  {
    match op
    case Intake(EnqueueOp(input)) => EnqueueRowKeeps(db, now, input);
    case Intake(_) =>
    case Carried(c, OnLease(o)) => LeaseOpEvolves(db, now, c, o);
    case Carried(c, OnBatches(o)) => BatchOpEvolves(db, now, c, o);
    case Carried(c, OnFinalization(o)) => FinalOpLocal(db, now, c, o);
    case _ => SchedulerOpEvolves(db, now, op);
  }

  lemma CandidateOpQuiet(db: Db, w: Watch, now: Time, op: S.Op)
    requires Foreign(op)
    ensures Quiet(db, w, S.Apply(db, now, op), Note(w, op))
    ensures forall d | d in Note(w, op).last && d !in w.last :: d in S.Apply(db, now, op).candidates
  {
    ForeignCandidates(db, now, op);
    forall d | d in db.candidates ensures QuietFor(db, w, S.Apply(db, now, op), Note(w, op), d) {
    }
  }

  lemma ForeignStep(db: Db, w: Watch, removals: seq<Removal>, now: Time, op: S.Op)
    requires Foreign(op) && NoWebhookLost(db, w, removals)
    ensures NoWebhookLost(S.Apply(db, now, op), Note(w, op), removals)
    ensures Quiet(db, w, S.Apply(db, now, op), Note(w, op))
  {
    var after, v := S.Apply(db, now, op), Note(w, op);
    ApplyEvolves(db, now, op);
    CandidateOpQuiet(db, w, now, op);
    ForeignCandidates(db, now, op);
    forall d | d in v.last
      ensures v.last[d] < v.tick && (d in after.candidates || Answered(removals, d, v.last[d], after))
    {
      if d in w.last && d !in after.candidates {
        assert d !in db.candidates;
        AnsweredLater(db, after, removals, [], d, w.last[d]);
        assert removals + [] == removals;
      }
    }
  }

  lemma {:induction false} ForeignRun(db: Db, w: Watch, removals: seq<Removal>, events: seq<S.Event>)
    requires (forall e | e in events :: Foreign(e.op)) && NoWebhookLost(db, w, removals)
    ensures NoWebhookLost(S.Run(db, events), NoteAll(w, events), removals)
    ensures Quiet(db, w, S.Run(db, events), NoteAll(w, events))
    decreases |events|
  {
    if events != [] {
      var n := |events| - 1;
      var mid, v := S.Run(db, events[..n]), NoteAll(w, events[..n]);
      ForeignRun(db, w, removals, events[..n]);
      ForeignStep(mid, v, removals, events[n].now, events[n].op);
      QuietTransitive(db, w, mid, v, S.Run(db, events), NoteAll(w, events));
    }
  }

  /** The candidate still has the generation that was read before the fetch, so the fetch answers its last webhook. */
  lemma RemovalAnswers(a: Db, v: Watch, b: Db, w: Watch, after: Db, removals: seq<Removal>, r: Removal)
    requires NoWebhookLost(a, v, removals) && NoWebhookLost(b, w, removals) && Quiet(a, v, b, w)
    requires r.document in a.candidates && r.document in b.candidates && r.began >= v.tick
    requires b.candidates[r.document].generation == a.candidates[r.document].generation
    requires Evolves(b, after) && after.candidates == b.candidates - {r.document}
    requires r.outcome.Enqueued? ==> HasRow(after, r.document, r.outcome.checksum)
    ensures NoWebhookLost(after, w, removals + [r])
  {
    assert QuietFor(a, v, b, w, r.document);
    forall d | d in w.last
      ensures w.last[d] < w.tick && (d in after.candidates || Answered(removals + [r], d, w.last[d], after))
    {
      if d == r.document {
        assert Last(w, d) == Last(v, d);
        assert Answers((removals + [r])[|removals|], d, w.last[d], after);
      } else if d !in after.candidates {
        AnsweredLater(b, after, removals, [r], d, w.last[d]);
      }
    }
  }

  lemma EnqueueGivesRow(db: Db, now: Time, input: EnqueueInput)
    ensures HasRow(S.EnqueueRow(db, now, input).1, input.document, input.checksum)
  {
    var found := S.FindSource(db.jobs, input.document, input.checksum, |db.jobs|);
    var after := S.EnqueueRow(db, now, input).1;
    var i := if found.Some? then found.value - 1 else |db.jobs|;
    assert S.HasSource(after.jobs[i], input.document, input.checksum);
  }

  // ----- The archive walk -----------------------------------------------------------------------

  datatype Document = Document(id: int, checksum: string)

  datatype ArchivePage = ArchivePage(documents: seq<Document>, next: string)

  datatype Checkpoint = Checkpoint(version: int, next: string, visited: seq<string>, pages: int)

  const VERSION := 1

  predicate IsHexDigit(c: char) { '0' <= c <= '9' || 'a' <= c <= 'f' || 'A' <= c <= 'F' }

  predicate IsFingerprint(s: string) {
    |s| == 64 && forall c | c in s :: IsHexDigit(c)
  }

  /** What is checked when a stored checkpoint is loaded. */
  predicate WellFormed(cp: Checkpoint) {
    && cp.version == VERSION && cp.next != "" && cp.pages > 0 && |cp.visited| == cp.pages
    && forall f | f in cp.visited :: IsFingerprint(f)
  }

  /** The cursor that page `k` of a walk was fetched with; the walk starts without one. */
  function CursorAt(pages: seq<ArchivePage>, k: nat): string
    requires k <= |pages|
  {
    if k == 0 then "" else pages[k - 1].next
  }

  ghost predicate PageCovered(db: Db, page: ArchivePage) {
    forall d | d in page.documents :: HasRow(db, d.id, d.checksum)
  }

  ghost predicate Covered(db: Db, pages: seq<ArchivePage>) {
    forall k | 0 <= k < |pages| :: PageCovered(db, pages[k])
  }

  predicate Distinct(fingerprints: seq<string>) {
    forall i, k | 0 <= i < k < |fingerprints| :: fingerprints[i] != fingerprints[k]
  }

  /** The visited fingerprints are those of the cursors of the pages, and the walk has not ended before. */
  ghost predicate Walked(pages: seq<ArchivePage>, visited: seq<string>, fingerprint: string -> string) {
    && |visited| == |pages|
    && (forall k | 0 <= k < |pages| :: visited[k] == fingerprint(CursorAt(pages, k)))
    && (forall k | 0 < k < |pages| :: CursorAt(pages, k) != "")
    && Distinct(visited)
  }

  ghost predicate CheckpointOk(cp: Checkpoint, passed: seq<ArchivePage>, limit: int, fingerprint: string -> string) {
    && cp.version == VERSION && cp.next == CursorAt(passed, |passed|) && cp.next != ""
    && 0 < cp.pages == |passed| <= limit
    && Walked(passed, cp.visited, fingerprint)
  }

  /** The stored cursor: as many pages as fingerprints, all different, and every document it has passed has a job. */
  ghost predicate ArchiveOk(setting: Option<Checkpoint>, passed: seq<ArchivePage>, db: Db, limit: int, fingerprint: string -> string) {
    && Covered(db, passed)
    && (setting.Some? ==> CheckpointOk(setting.value, passed, limit, fingerprint))
    && (setting.None? ==> passed == [])
  }

  lemma CoveredLater(a: Db, b: Db, pages: seq<ArchivePage>)
    requires Evolves(a, b) && Covered(a, pages)
    ensures Covered(b, pages)
  {
    forall k | 0 <= k < |pages| ensures PageCovered(b, pages[k]) {
      PageCoveredLater(a, b, pages[k]);
    }
  }

  lemma PageCoveredLater(a: Db, b: Db, page: ArchivePage)
    requires Evolves(a, b) && PageCovered(a, page)
    ensures PageCovered(b, page)
  {
    forall d | d in page.documents ensures HasRow(b, d.id, d.checksum) {
      HasRowLater(a, b, d.id, d.checksum);
    }
  }

  function PagesOf(setting: Option<Checkpoint>): int {
    if setting.Some? then setting.value.pages else 0
  }

  function VisitedOf(setting: Option<Checkpoint>): seq<string> {
    if setting.Some? then setting.value.visited else []
  }

  /** The stored cursor stays, moves forwards within the limit, or is cleared at the end of the archive;
      so `limit - pages` bounds how often it can still move in one scan. */
  predicate Advances(a: Option<Checkpoint>, b: Option<Checkpoint>, limit: int) {
    b == a || b.None? || (b.Some? && PagesOf(a) < b.value.pages <= limit && VisitedOf(a) < b.value.visited)
  }

  /** The next page would exceed the limit, or its cursor was visited before. */
  predicate Blocked(setting: Option<Checkpoint>, limit: int, fingerprint: string -> string) {
    setting.Some? && (setting.value.pages >= limit || fingerprint(setting.value.next) in setting.value.visited)
  }

  /** A walk from the start of the archive to its end. */
  ghost predicate WholeArchive(pages: seq<ArchivePage>) {
    && pages != [] && pages[|pages| - 1].next == ""
    && forall k | 0 < k < |pages| :: CursorAt(pages, k) != ""
  }

  lemma OnePageMore(pages: seq<ArchivePage>, visited: seq<string>, page: ArchivePage, fingerprint: string -> string)
    requires Walked(pages, visited, fingerprint) && (pages != [] ==> CursorAt(pages, |pages|) != "")
    requires fingerprint(CursorAt(pages, |pages|)) !in visited
    ensures Walked(pages + [page], visited + [fingerprint(CursorAt(pages, |pages|))], fingerprint)
    ensures CursorAt(pages + [page], |pages| + 1) == page.next
  {
    var more := pages + [page];
    forall k | 0 <= k < |more| ensures CursorAt(more, k) == CursorAt(pages, k) {
    }
  }

  /** What is loaded before a scan goes on. */
  function Loaded(setting: Option<Checkpoint>): Checkpoint {
    if setting.Some? then setting.value else Checkpoint(VERSION, "", [], 0)
  }

  lemma AdvancesTransitive(a: Option<Checkpoint>, b: Option<Checkpoint>, c: Option<Checkpoint>, limit: int)
    requires Advances(a, b, limit) && Advances(b, c, limit) && (b == a || b.Some?)
    ensures Advances(a, c, limit)
  {
  }

  datatype Scan = Stopped | Ended | Moved

  // ----- The reconciler -------------------------------------------------------------------------

  datatype Fetched = Unavailable | NotFound | Found(checksum: string)

  datatype Report = Report(resolved: nat, discarded: nat, pages: nat, scanComplete: bool)

  class Reconciler {
    const queue: Queue
    const model: string
    const promptVersion: string
    const maxCandidates: nat
    const perPass: nat
    const limit: nat
    const fingerprint: string -> string

    var setting: Option<Checkpoint>
    ghost var passed: seq<ArchivePage>
    ghost var complete: seq<ArchivePage>
    ghost var watch: Watch
    ghost var removals: seq<Removal>

    ghost predicate Valid() {
      !Blank(model) && !Blank(promptVersion) && maxCandidates > 0 && perPass > 0 && limit > 0 && forall c :: IsFingerprint(fingerprint(c))
    }

    ghost predicate WebhooksKept()
      reads this, queue
    {
      NoWebhookLost(queue.State(), watch, removals)
    }

    ghost predicate CursorKept()
      reads this, queue
    {
      ArchiveOk(setting, passed, queue.State(), limit, fingerprint)
    }

    constructor (queue: Queue, model: string, promptVersion: string, maxCandidates: nat, perPass: nat, limit: nat, fingerprint: string -> string)
      requires !Blank(model) && !Blank(promptVersion) && maxCandidates > 0 && perPass > 0 && limit > 0
      requires forall c :: IsFingerprint(fingerprint(c))
      ensures Valid() && WebhooksKept() && CursorKept() && this.queue == queue
    {
      this.queue, this.model, this.promptVersion := queue, model, promptVersion;
      this.maxCandidates, this.perPass, this.limit, this.fingerprint := maxCandidates, perPass, limit, fingerprint;
      setting, passed, complete, watch, removals := None, [], [], Watch(0, map[]), [];
    }

    /** Everybody but this reconciler: webhooks, workers, finalizers, operators. */
    method Others()
      requires WebhooksKept()
      modifies queue, `watch
      ensures WebhooksKept()
      ensures Evolves(old(queue.State()), queue.State())
      ensures Quiet(old(queue.State()), old(watch), queue.State(), watch)
    {
      var events: seq<S.Event> := *;
      if exists e | e in events :: !Foreign(e.op) {
        events := [];
      }
      ForeignRun(queue.State(), watch, removals, events);
      RunEvolves(queue.State(), events);
      queue.Replay(events);
      watch := NoteAll(watch, events);
    }

    // ----- Candidates ---------------------------------------------------------------------------

    /** Discards the candidate if no webhook refreshed it since it was read in state `a`. */
    method Discard(d: int, generation: int, outcome: Outcome, ghost began: int, ghost a: Db, ghost v: Watch)
      returns (r: Result<bool, S.Error>)
      requires WebhooksKept() && NoWebhookLost(a, v, removals) && Quiet(a, v, queue.State(), watch)
      requires d in a.candidates && generation == a.candidates[d].generation && began >= v.tick && !outcome.Enqueued?
      modifies queue, `watch, `removals
      ensures WebhooksKept() && Evolves(old(queue.State()), queue.State()) 
      ensures removals == old(removals) + if r == Ok(true) then [Removal(d, began, outcome)] else []
    {
      ghost var start, w := queue.State(), watch;
      Others();
      ghost var was := queue.State();
      QuietTransitive(a, v, start, w, was, watch);
      r := queue.DiscardCandidate(d, generation);
      IntakeEvolves(was, 0, S.DiscardOp(d, generation));
      EvolvesTransitive(start, was, queue.State());
      if r == Ok(true) {
        RemovalAnswers(a, v, was, watch, queue.State(), removals, Removal(d, began, outcome));
        removals := removals + [Removal(d, began, outcome)];
      }
    }

    lemma ResolvedRow(db: Db, now: Time, d: int, generation: int, input: EnqueueInput)
      ensures var t := S.ResolveCandidate(db, now, d, generation, input);
              && Evolves(db, t.db)
              && (t.result.Ok? && t.result.value.Some? ==>
                    && S.CandidateIs(db, d, generation) && t.db.candidates == db.candidates - {d}
                    && HasRow(t.db, d, input.checksum))
              && (!(t.result.Ok? && t.result.value.Some?) ==> t.db == db)
    {
      IntakeEvolves(db, now, S.ResolveOp(d, generation, input));
      if S.CandidateIs(db, d, generation) && input.document == d {
        EnqueueGivesRow(db, now, input.(priority := db.candidates[d].priority));
        EnqueueRowKeeps(db, now, input.(priority := db.candidates[d].priority));
      }
    }

    /** Enqueues the fetched source in place of the candidate, if no webhook refreshed it since. */
    method Resolve(d: int, generation: int, input: EnqueueInput, ghost began: int, ghost a: Db, ghost v: Watch)
      returns (r: Result<Option<(int, bool)>, S.Error>)
      requires WebhooksKept() && NoWebhookLost(a, v, removals) && Quiet(a, v, queue.State(), watch)
      requires d in a.candidates && generation == a.candidates[d].generation && began >= v.tick
      modifies queue, `watch, `removals
      ensures WebhooksKept() && Evolves(old(queue.State()), queue.State()) 
      ensures removals == old(removals) + if r.Ok? && r.value.Some? then [Removal(d, began, Enqueued(input.checksum))] else []
    {
      ghost var start, w := queue.State(), watch;
      Others();
      ghost var was := queue.State();
      QuietTransitive(a, v, start, w, was, watch);
      var now := Reading();
      r := queue.ResolveCandidate(now, d, generation, input);
      ResolvedRow(was, now, d, generation, input);
      EvolvesTransitive(start, was, queue.State());
      if r.Ok? && r.value.Some? {
        var removal := Removal(d, began, Enqueued(input.checksum));
        RemovalAnswers(a, v, was, watch, queue.State(), removals, removal);
        removals := removals + [removal];
      }
    }

    /** Acts on what the fetch found. */
    method Answer(d: int, candidate: Candidate, answer: Fetched, report: Report, ghost began: int, ghost a: Db, ghost v: Watch)
      returns (ok: bool, after: Report)
      requires WebhooksKept() && NoWebhookLost(a, v, removals) && Quiet(a, v, queue.State(), watch)
      requires d in a.candidates && candidate.generation == a.candidates[d].generation && began >= v.tick && !answer.Unavailable?
      modifies queue, `watch, `removals
      ensures WebhooksKept() && Evolves(old(queue.State()), queue.State())
      ensures |removals| <= |old(removals)| + 1 && old(removals) <= removals
      ensures ok ==> after.resolved + after.discarded - report.resolved - report.discarded == |removals| - |old(removals)|
      ensures after == report.(resolved := after.resolved, discarded := after.discarded)
    {
      after := report;
      if answer.NotFound? || Blank(answer.checksum) {
        var r := Discard(d, candidate.generation, if answer.NotFound? then Missing else BlankChecksum, began, a, v);
        ok := r.Ok?;
        if r == Ok(true) {
          after := after.(discarded := after.discarded + 1);
        }
      } else {
        var input := EnqueueInput(d, answer.checksum, candidate.priority, model, promptVersion);
        var r := Resolve(d, candidate.generation, input, began, a, v);
        ok := r.Ok?;
        if r.Ok? && r.value.Some? {
          after := after.(resolved := after.resolved + 1);
        }
      }
    }

    /** Reads the next candidate, fetches its document, and removes it unless it was refreshed meanwhile. */
    method ResolveNext(report: Report) returns (more: bool, ok: bool, after: Report)
      requires WebhooksKept()
      modifies queue, `watch, `removals
      ensures WebhooksKept() && Evolves(old(queue.State()), queue.State()) && old(removals) <= removals
      ensures after.pages == report.pages && after.scanComplete == report.scanComplete
      ensures ok ==> after.resolved + after.discarded - report.resolved - report.discarded == |removals| - |old(removals)| <= 1
    {
      after := report;
      ghost var start := queue.State();
      Others();
      var next := queue.NextCandidate();
      if next.None? {
        return false, true, after;
      }
      if * {
        return false, false, after;
      }
      var d := next.value;
      var candidate := queue.candidates[d];
      ghost var a, v := queue.State(), watch;
      Others();
      EvolvesTransitive(start, a, queue.State());
      ghost var b, w := queue.State(), watch;
      ghost var began := watch.tick;
      Others();
      EvolvesTransitive(start, b, queue.State());
      QuietTransitive(a, v, b, w, queue.State(), watch);
      ghost var fetched := queue.State();
      var answer: Fetched := *;
      if answer.Unavailable? {
        return false, false, report;
      }
      ok, after := Answer(d, candidate, answer, report, began, a, v);
      EvolvesTransitive(start, fetched, queue.State());
      var faulted: bool := *;
      if faulted {
        return false, false, report;
      }
      more := ok;
    }

    // ----- The archive --------------------------------------------------------------------------

    method LoadCheckpoint() returns (cp: Option<Checkpoint>)
      ensures setting.None? ==> cp == Some(Checkpoint(VERSION, "", [], 0))
      ensures setting.Some? ==> cp == if WellFormed(setting.value) then setting else None
    {
      if setting.None? {
        return Some(Checkpoint(VERSION, "", [], 0));
      }
      cp := if WellFormed(setting.value) then setting else None;
    }

    /** A stored cursor is never refused when it is loaded. */
    lemma StoredIsWellFormed()
      requires Valid() && CursorKept() && setting.Some?
      ensures WellFormed(setting.value)
    {
      forall f | f in setting.value.visited ensures IsFingerprint(f) {
      }
    }

    /** The write may be reported as failed although it committed, or not happen at all. */
    method SetCheckpoint(cp: Checkpoint, ghost pages: seq<ArchivePage>) returns (ok: bool)
      requires Covered(queue.State(), pages) && CheckpointOk(cp, pages, limit, fingerprint) && CursorKept()
      modifies `setting, `passed
      ensures CursorKept()
      ensures setting == old(setting) || setting == Some(cp)
      ensures ok ==> setting == Some(cp) && passed == pages
    {
      var committed: bool := *;
      if committed {
        setting, passed := Some(cp), pages;
        ok := *;
      } else {
        ok := false;
      }
    }

    method ClearCheckpoint(ghost pages: seq<ArchivePage>) returns (ok: bool)
      requires Covered(queue.State(), pages) && WholeArchive(pages) && CursorKept()
      modifies `setting, `passed, `complete
      ensures CursorKept()
      ensures setting == old(setting) || setting == None
      ensures ok ==> setting == None && complete == pages
    {
      var committed: bool := *;
      if committed {
        setting, passed, complete := None, [], pages;
        ok := *;
      } else {
        ok := false;
      }
    }

    lemma CursorLater(a: Db, b: Db)
      requires Evolves(a, b) && ArchiveOk(setting, passed, a, limit, fingerprint)
      ensures ArchiveOk(setting, passed, b, limit, fingerprint)
    {
      CoveredLater(a, b, passed);
    }

    /** Enqueues the documents of a page, until one cannot be. */
    method EnqueuePage(page: ArchivePage) returns (ok: bool)
      requires WebhooksKept()
      modifies queue, `watch
      ensures WebhooksKept() && Evolves(old(queue.State()), queue.State())
      ensures ok ==> PageCovered(queue.State(), page)
    {
      ghost var start := queue.State();
      EvolvesReflexive(start);
      for i := 0 to |page.documents|
        invariant WebhooksKept() && Evolves(start, queue.State())
        invariant PageCovered(queue.State(), ArchivePage(page.documents[..i], ""))
      {
        ghost var was := queue.State();
        var document := page.documents[i];
        if Blank(document.checksum) {
          return false;
        }
        var done := EnqueueDocument(document);
        EvolvesTransitive(start, was, queue.State());
        if !done {
          return false;
        }
        PageCoveredLater(was, queue.State(), ArchivePage(page.documents[..i], ""));
        assert page.documents[..i + 1] == page.documents[..i] + [document];
      }
      assert page.documents[..|page.documents|] == page.documents;
      ok := true;
    }

    method EnqueueDocument(document: Document) returns (ok: bool)
      requires WebhooksKept()
      modifies queue, `watch
      ensures WebhooksKept() && Evolves(old(queue.State()), queue.State())
      ensures ok ==> HasRow(queue.State(), document.id, document.checksum)
    {
      ghost var start := queue.State();
      Others();
      ghost var was := queue.State();
      var now := Reading();
      var input := EnqueueInput(document.id, document.checksum, BACKFILL, model, promptVersion);
      var r := queue.Enqueue(now, input);
      ForeignStep(was, watch, removals, now, S.Intake(S.EnqueueOp(input)));
      IntakeEvolves(was, now, S.EnqueueOp(input));
      EvolvesTransitive(start, was, queue.State());
      EnqueueGivesRow(was, now, input);
      watch := Note(watch, S.Intake(S.EnqueueOp(input)));
      var reported: bool := *;
      ok := r.Ok? && reported;
    }

    /** Fetches the page at the cursor, enqueues its documents, and stores the next cursor. */
    method ScanPage(cp: Checkpoint) returns (scan: Scan, next: Checkpoint, processed: nat)
      requires WebhooksKept() && CursorKept() && cp == Loaded(setting)
      modifies queue, `watch, `setting, `passed, `complete
      ensures WebhooksKept() && CursorKept() && Evolves(old(queue.State()), queue.State())
      ensures Advances(old(setting), setting, limit) && processed <= 1
      ensures Blocked(old(setting), limit, fingerprint) ==> scan.Stopped? && setting == old(setting)
      ensures scan.Ended? ==> setting.None? && WholeArchive(complete) && Covered(queue.State(), complete)
      ensures scan.Moved? ==> setting == Some(next) && PagesOf(setting) == PagesOf(old(setting)) + 1
      ensures !scan.Stopped? ==> processed == 1
    {
      ghost var start := queue.State();
      EvolvesReflexive(start);
      scan, next, processed := Stopped, cp, 0;
      var current := fingerprint(cp.next);
      if cp.pages >= limit || current in cp.visited {
        return;
      }
      var page: ArchivePage, listed: bool := *, *;
      if !listed {
        return;
      }
      var ok := EnqueuePage(page);
      CursorLater(start, queue.State());
      if !ok {
        return;
      }
      processed := 1;
      scan, next := PassPage(cp, page);
    }

    /** The cursor passes a page whose documents all have jobs, or the archive ends with it. */
    method PassPage(cp: Checkpoint, page: ArchivePage) returns (scan: Scan, next: Checkpoint)
      requires CursorKept() && cp == Loaded(setting) && PageCovered(queue.State(), page)
      requires cp.pages < limit && fingerprint(cp.next) !in cp.visited
      modifies `setting, `passed, `complete
      ensures CursorKept() && Advances(old(setting), setting, limit)
      ensures scan.Ended? ==> setting.None? && WholeArchive(complete) && Covered(queue.State(), complete)
      ensures scan.Moved? ==> setting == Some(next) && PagesOf(setting) == PagesOf(old(setting)) + 1
    {
      scan := Stopped;
      next := Checkpoint(VERSION, page.next, cp.visited + [fingerprint(cp.next)], cp.pages + 1);
      ghost var pages := passed + [page];
      OnePageMore(passed, cp.visited, page, fingerprint);
      if page.next == "" {
        var ended := ClearCheckpoint(pages);
        scan := if ended then Ended else Stopped;
        return;
      }
      var ok := SetCheckpoint(next, pages);
      if ok && !(fingerprint(next.next) in next.visited) && next.pages < limit {
        scan := Moved;
      }
    }

    /** Walks on from the stored cursor, at most `perPass` pages. */
    method ScanPages(first: Checkpoint, report: Report) returns (after: Report, ok: bool)
      requires perPass > 0 && WebhooksKept() && CursorKept() && first == Loaded(setting) && !report.scanComplete
      modifies queue, `watch, `setting, `passed, `complete
      ensures WebhooksKept() && CursorKept() && Evolves(old(queue.State()), queue.State())
      ensures Advances(old(setting), setting, limit)
      ensures Blocked(old(setting), limit, fingerprint) ==> setting == old(setting) && !ok
      ensures after == report.(pages := after.pages, scanComplete := after.scanComplete)
      ensures report.pages <= after.pages <= report.pages + perPass
      ensures ok && !after.scanComplete ==> after.pages == report.pages + perPass && PagesOf(setting) == PagesOf(old(setting)) + perPass
      ensures after.scanComplete ==> setting.None? && WholeArchive(complete) && Covered(queue.State(), complete)
    {
      ghost var start, origin := queue.State(), setting;
      EvolvesReflexive(start);
      after, ok := report, false;
      var cp := first;
      for i := 0 to perPass
        invariant WebhooksKept() && CursorKept() && Evolves(start, queue.State()) && cp == Loaded(setting)
        invariant Advances(origin, setting, limit) && (setting == origin || setting.Some?)
        invariant if i == 0 then setting == origin else !Blocked(origin, limit, fingerprint)
        invariant after == report.(pages := report.pages + i) && PagesOf(setting) == PagesOf(origin) + i && !after.scanComplete
      {
        ghost var was, stored := queue.State(), setting;
        var scan, next, processed := ScanPage(cp);
        EvolvesTransitive(start, was, queue.State());
        AdvancesTransitive(origin, stored, setting, limit);
        after := after.(pages := after.pages + processed);
        if scan.Stopped? {
          return;
        }
        if scan.Ended? {
          return after.(scanComplete := true), true;
        }
        cp := next;
        var cancelled: bool := *;
        if cancelled {
          return;
        }
      }
      ok := true;
    }

    method ScanArchive(report: Report) returns (after: Report, ok: bool)
      requires Valid() && WebhooksKept() && CursorKept() && !report.scanComplete
      modifies queue, `watch, `setting, `passed, `complete
      ensures WebhooksKept() && CursorKept() && Evolves(old(queue.State()), queue.State())
      ensures Advances(old(setting), setting, limit)
      ensures Blocked(old(setting), limit, fingerprint) ==> setting == old(setting) && !ok
      ensures after == report.(pages := after.pages, scanComplete := after.scanComplete)
      ensures report.pages <= after.pages <= report.pages + perPass
      ensures ok && !after.scanComplete ==> after.pages == report.pages + perPass && PagesOf(setting) == PagesOf(old(setting)) + perPass
      ensures after.scanComplete ==> setting.None? && WholeArchive(complete) && Covered(queue.State(), complete)
    {
      EvolvesReflexive(queue.State());
      var loaded := LoadCheckpoint();
      var readable: bool := *;
      if loaded.None? || !readable {
        return report, false;
      }
      after, ok := ScanPages(loaded.value, report);
    }

    /** Resolves candidates until none is left, one cannot be resolved, or the bound is reached. */
    method ResolveCandidates() returns (report: Report, ok: bool)
      requires WebhooksKept() && CursorKept()
      modifies queue, `watch, `removals
      ensures WebhooksKept() && CursorKept() && Evolves(old(queue.State()), queue.State()) && old(removals) <= removals
      ensures report.pages == 0 && !report.scanComplete
      ensures ok ==> report.resolved + report.discarded == |removals| - |old(removals)| <= maxCandidates
    {
      report, ok := Report(0, 0, 0, false), true;
      EvolvesReflexive(queue.State());
      for i := 0 to maxCandidates
        invariant WebhooksKept() && CursorKept() && Evolves(old(queue.State()), queue.State()) && old(removals) <= removals
        invariant report.pages == 0 && !report.scanComplete && ok
        invariant report.resolved + report.discarded == |removals| - |old(removals)| <= i
      {
        ghost var was := queue.State();
        var more;
        more, ok, report := ResolveNext(report);
        EvolvesTransitive(old(queue.State()), was, queue.State());
        CursorLater(was, queue.State());
        if !ok {
          return;
        }
        if !more {
          break;
        }
      }
    }

    /** One pass. Wherever it stops: no webhook is lost, every document behind the stored cursor has a
        job, and the stored cursor only moved forwards; a blocked cursor stays where it is. */
    method RunOnce() returns (report: Report, ok: bool)
      requires Valid() && WebhooksKept() && CursorKept()
      modifies queue, this
      ensures WebhooksKept() && CursorKept() && Evolves(old(queue.State()), queue.State())
      ensures old(removals) <= removals
      ensures Advances(old(setting), setting, limit)
      ensures Blocked(old(setting), limit, fingerprint) ==> setting == old(setting)
      ensures report.pages <= perPass
      ensures ok ==> report.resolved + report.discarded == |removals| - |old(removals)| <= maxCandidates
      ensures ok && !report.scanComplete && report.pages > 0 ==> report.pages == perPass && PagesOf(setting) == PagesOf(old(setting)) + perPass
      ensures report.scanComplete ==> setting.None? && WholeArchive(complete) && Covered(queue.State(), complete)
    {
      ghost var start := queue.State();
      report, ok := ResolveCandidates();
      if !ok {
        return;
      }
      var left := queue.NextCandidate();
      var inspected: bool := *;
      if !inspected || left.Some? {
        ok := inspected;
        return;
      }
      ghost var was := queue.State();
      report, ok := ScanArchive(report);
      EvolvesTransitive(start, was, queue.State());
    }
  }
}
