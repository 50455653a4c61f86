/** Which text is published: the two cores together. When every finalizer is started with content that the
    durable checkpoints of its job determine, a job is only ever published with one text. */
module Publishing {
  import opened QueueModel
  import opened QueueLaws
  import opened Finalize
  import opened FinalizeLaws
  import opened Checkpoints

  /** The effect sends or confirms the content of a document. */
  predicate Publishes(e: Effect) {
    e.ContentCall? || e.ContentConfirmed?
  }

  predicate ContentPoint(point: Point) {
    point == ReadDocument || point == PutContent
  }

  /** The finalizer is about to read or write content. */
  predicate OnContent(pc: Pc) {
    match pc
    case RenewJob(next) => ContentPoint(next)
    case RenewAdmission(next) => ContentPoint(next)
    case At(point) => ContentPoint(point)
    case Await(point) => ContentPoint(point)
    case _ => false
  }

  lemma CallContent(f: Finalizer, db: Db, ch: Chance)
    requires f.pc.At?
    ensures var o := CallStep(f, db, ch);
            && |o.effects| <= 1
            && (o.effects != [] && Publishes(o.effects[0]) ==>
                  OnContent(f.pc) && o.effects[0].job == f.claim.job && o.effects[0].content == f.content)
            && (OnContent(o.f.pc) ==> OnContent(f.pc))
  {
    match f.pc.point
    case ReadDocument =>
    case Finish =>
    case _ =>
  }

  /** A step publishes the finalizer's own content only, and only the success path comes to that point. */
  lemma StepContent(f: Finalizer, db: Db, ch: Chance)
    ensures var o := Step(f, db, ch);
            && |o.effects| <= 1
            && (o.effects != [] && Publishes(o.effects[0]) ==>
                  OnContent(f.pc) && o.effects[0].job == f.claim.job && o.effects[0].content == f.content)
            && (OnContent(o.f.pc) ==> OnContent(f.pc) || f.success)
  {
    if f.pc.At? {
      CallContent(f, db, ch);
    }
  }

  /** Every finalizer for a success was started with content that the checkpoints of its job determined then. */
  ghost predicate Supplied(acts: seq<Act>, suspicious: Suspicion) {
    forall i | 0 <= i < |acts| :: SuppliedAt(acts, i, suspicious)
  }

  ghost predicate SuppliedAt(acts: seq<Act>, i: nat, suspicious: Suspicion)
    requires i < |acts|
  {
    acts[i].Start? && acts[i].success ==> Fixed(RunSys(acts[..i]).db, acts[i].claim.job, acts[i].content, suspicious)
  }

  ghost predicate CarriesFixed(f: Finalizer, db: Db, suspicious: Suspicion) {
    if f.success then Fixed(db, f.claim.job, f.content, suspicious) else !OnContent(f.pc)
  }

  ghost predicate EffectFixed(e: Effect, db: Db, suspicious: Suspicion) {
    Publishes(e) ==> Fixed(db, e.job, e.content, suspicious)
  }

  ghost predicate ContentInv(s: Sys, suspicious: Suspicion) {
    && (forall p | 0 <= p < |s.fins| :: CarriesFixed(s.fins[p], s.db, suspicious))
    && (forall i | 0 <= i < |s.trace| :: EffectFixed(s.trace[i], s.db, suspicious))
  }

  lemma ContentInvLater(s: Sys, db: Db, suspicious: Suspicion)
    requires ContentInv(s, suspicious) && Evolves(s.db, db)
    ensures ContentInv(s.(db := db), suspicious)
  {
    forall p | 0 <= p < |s.fins| ensures CarriesFixed(s.fins[p], db, suspicious) {
      assert CarriesFixed(s.fins[p], s.db, suspicious);
      if s.fins[p].success {
        FixedLater(s.db, db, s.fins[p].claim.job, s.fins[p].content, suspicious);
      }
    }
    forall i | 0 <= i < |s.trace| ensures EffectFixed(s.trace[i], db, suspicious) {
      assert EffectFixed(s.trace[i], s.db, suspicious);
      if Publishes(s.trace[i]) {
        FixedLater(s.db, db, s.trace[i].job, s.trace[i].content, suspicious);
      }
    }
  }

  lemma StepKeepsContent(s: Sys, p: nat, ch: Chance, suspicious: Suspicion)
    requires ContentInv(s, suspicious) && p < |s.fins|
    ensures ContentInv(Next(s, StepOf(p, ch)), suspicious)
  {
    var f, o := s.fins[p], Step(s.fins[p], s.db, ch);
    StepEvolves(f, s.db, ch);
    ContentInvLater(s, o.db, suspicious);
    StepContent(f, s.db, ch);
    StepKeepsCall(f, s.db, ch);
    StepInstalls(s.(db := o.db), p, o, suspicious);
  }

  lemma StepInstalls(s: Sys, p: nat, o: Outcome, suspicious: Suspicion)
    requires ContentInv(s, suspicious) && p < |s.fins| && o.db == s.db && |o.effects| <= 1
    requires var f := s.fins[p];
             && o.f.claim == f.claim && o.f.success == f.success && o.f.content == f.content
             && (OnContent(o.f.pc) ==> OnContent(f.pc) || f.success)
             && (o.effects != [] && Publishes(o.effects[0]) ==>
                   OnContent(f.pc) && o.effects[0].job == f.claim.job && o.effects[0].content == f.content)
    ensures ContentInv(Sys(s.db, s.fins[p := o.f], s.trace + o.effects), suspicious)
  {
    var t := Sys(s.db, s.fins[p := o.f], s.trace + o.effects);
    assert CarriesFixed(s.fins[p], s.db, suspicious);
    forall i | 0 <= i < |t.trace| ensures EffectFixed(t.trace[i], t.db, suspicious) {
      if i < |s.trace| {
        assert EffectFixed(s.trace[i], s.db, suspicious);
      }
    }
    forall q | 0 <= q < |t.fins| ensures CarriesFixed(t.fins[q], t.db, suspicious) {
      assert CarriesFixed(s.fins[q], s.db, suspicious);
    }
  }

  lemma NextKeepsContent(s: Sys, a: Act, suspicious: Suspicion)
    requires ContentInv(s, suspicious)
    requires a.Start? && a.success ==> Fixed(s.db, a.claim.job, a.content, suspicious)
    ensures ContentInv(Next(s, a), suspicious)
  {
    match a
    case Start(success, claim, token, content) =>
      var t := Next(s, a);
      forall p | 0 <= p < |t.fins| ensures CarriesFixed(t.fins[p], t.db, suspicious) {
        if p < |s.fins| {
          assert CarriesFixed(s.fins[p], s.db, suspicious);
        }
      }
    case StepOf(p, ch) =>
      if p < |s.fins| {
        StepKeepsContent(s, p, ch, suspicious);
      }
    case Outside(now, op) =>
      NextEvolves(s, a);
      ContentInvLater(s, Next(s, a).db, suspicious);
  }

  lemma SuppliedPrefix(acts: seq<Act>, suspicious: Suspicion)
    requires Supplied(acts, suspicious) && acts != []
    ensures Supplied(acts[..|acts| - 1], suspicious)
  {
    var init := acts[..|acts| - 1];
    forall i | 0 <= i < |init| ensures SuppliedAt(init, i, suspicious) {
      assert SuppliedAt(acts, i, suspicious) && init[..i] == acts[..i];
    }
  }

  lemma {:induction false} RunKeepsContent(acts: seq<Act>, suspicious: Suspicion)
    requires Supplied(acts, suspicious)
    ensures ContentInv(RunSys(acts), suspicious)
    decreases |acts|
  {
    if acts != [] {
      var n := |acts| - 1;
      SuppliedPrefix(acts, suspicious);
      RunKeepsContent(acts[..n], suspicious);
      assert SuppliedAt(acts, n, suspicious);
      NextKeepsContent(RunSys(acts[..n]), acts[n], suspicious);
    }
  }

  /** Whatever is sent or confirmed for a job is one text, also by stalled finalizers after a takeover; it is
      the text that the checkpoints determine. */
  lemma OneContentPublished(acts: seq<Act>, i: nat, k: nat, suspicious: Suspicion)
    requires Supplied(acts, suspicious) && i < |RunSys(acts).trace| && k < |RunSys(acts).trace|
    requires var t := RunSys(acts).trace; Publishes(t[i]) && Publishes(t[k]) && t[i].job == t[k].job
    ensures var s := RunSys(acts);
            s.trace[i].content == s.trace[k].content && Fixed(s.db, s.trace[i].job, s.trace[i].content, suspicious)
  {
    var s := RunSys(acts);
    RunKeepsContent(acts, suspicious);
    assert EffectFixed(s.trace[i], s.db, suspicious) && EffectFixed(s.trace[k], s.db, suspicious);
    FixedOnce(s.db, s.trace[i].job, s.trace[i].content, s.trace[k].content, suspicious);
  }

  lemma CompletedWasConfirmed(acts: seq<Act>, job: int) returns (i: nat)
    requires IsCompleted(RunSys(acts).db, job)
    ensures i < |RunSys(acts).trace| && ConfirmsContent(RunSys(acts).trace[i], job)
  {
    CompletionMeansDelivery(acts, job);
    var t := RunSys(acts).trace;
    var d :| 0 <= d < |t| && t[d] == DispatchCall(job) && ConfirmedBefore(t, job, d);
    i := FirstConfirmation(t, job, d);
  }

  lemma FirstConfirmation(t: seq<Effect>, job: int, d: nat) returns (i: nat)
    requires d <= |t| && ConfirmedBefore(t, job, d)
    ensures i < d && ConfirmsContent(t[i], job)
  {
    var a, b, c :| 0 <= a < b < c < d && ConfirmsContent(t[a], job)
                   && t[b] == TagConfirmed(job, AddComplete) && t[c] == TagConfirmed(job, RemoveFailed);
    i := a;
  }

  /** A completed job was confirmed with the text that its checkpoints determine, and with no other. */
  lemma CompletedContent(acts: seq<Act>, job: int, suspicious: Suspicion) returns (content: string, i: nat)
    requires Supplied(acts, suspicious) && IsCompleted(RunSys(acts).db, job)
    ensures i < |RunSys(acts).trace| && RunSys(acts).trace[i] == ContentConfirmed(job, content)
    ensures Fixed(RunSys(acts).db, job, content, suspicious)
    ensures AllCarry(RunSys(acts).trace, job, content)
  {
    i := CompletedWasConfirmed(acts, job);
    content := RunSys(acts).trace[i].content;
    OneContentPublished(acts, i, i, suspicious);
    AllCarryIt(acts, i, suspicious);
  }

  /** Every content effect of the job carries this text. */
  ghost predicate AllCarry(t: seq<Effect>, job: int, content: string) {
    forall k | 0 <= k < |t| && Publishes(t[k]) && t[k].job == job :: t[k].content == content
  }

  lemma AllCarryIt(acts: seq<Act>, i: nat, suspicious: Suspicion)
    requires Supplied(acts, suspicious) && i < |RunSys(acts).trace| && Publishes(RunSys(acts).trace[i])
    ensures AllCarry(RunSys(acts).trace, RunSys(acts).trace[i].job, RunSys(acts).trace[i].content)
  {
    var t := RunSys(acts).trace;
    forall k | 0 <= k < |t| && Publishes(t[k]) && t[k].job == t[i].job ensures t[k].content == t[i].content {
      OneContentPublished(acts, i, k, suspicious);
    }
  }
}
