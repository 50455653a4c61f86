/** The durable rows of the queue and the enumerations they use. */
module QueueModel {
  import opened Common

  /** An instant in nanoseconds; the TimeText module shows why comparing its text form is the same. */
  type Time = int

  datatype State = Pending | Processing | Retry | Completed | Failed

  datatype Stage =
    | NotStarted
    | ContentUpdated | CompleteTagAdded | FailedTagRemoved | MetadataDispatched
    | FailurePending | FailureTagAdded

  datatype Dispatch = Unreserved | Reserved | Confirmed

  datatype Category =
    | Configuration | Paperless | Provider | Validation | Rendering | Internal
    | UnknownCategory

  datatype Diagnostic = Diagnostic(category: Category, message: string) {
    predicate Valid() {
      && category != UnknownCategory
      && !Blank(message)
      && |message| <= 256
      && forall c | c in message :: c as int >= 0x20 && c as int != 0x7F
    }
  }

  const BACKFILL := 0
  const WEBHOOK := 100

  datatype Lease = Lease(owner: string, expires: Time)

  datatype Job = Job(
    document: int, checksum: string, priority: int, state: State, attempts: int,
    availableAt: Time, lease: Option<Lease>, model: string, promptVersion: string,
    error: Option<Diagnostic>, createdAt: Time)

  /** One claim generation: the job, the attempt the claim started, and who claimed it. */
  datatype Claim = Claim(job: int, attempt: int, owner: string) {
    predicate Valid() {
      job > 0 && attempt > 0 && !Blank(owner)
    }
  }

  datatype PageRange = PageRange(first: int, last: int)

  /** A planned batch; `text` is present exactly when the batch is completed. */
  datatype Batch = Batch(range: PageRange, dpi: int, format: string, text: Option<string>)

  datatype Admission = Admission(token: string, attempt: int, owner: string, expires: Time)

  datatype Control = Control(admission: Option<Admission>, dispatch: Dispatch, failure: Option<Diagnostic>)

  datatype Candidate = Candidate(priority: int, generation: int, createdAt: Time)

  datatype EnqueueInput = EnqueueInput(document: int, checksum: string, priority: int, model: string, promptVersion: string) {
    predicate Valid() {
      && document > 0
      && ValidPriority(priority)
      && !Blank(checksum) && !Blank(model) && !Blank(promptVersion)
    }
  }

  datatype FinalizationState = FinalizationState(stage: Stage, dispatch: Dispatch, failure: Option<Diagnostic>)

  predicate ValidPriority(priority: int) {
    priority == BACKFILL || priority == WEBHOOK
  }

  /** All tables. Job `id` is row `id - 1`, because rows are only ever appended. */
  datatype Db = Db(
    jobs: seq<Job>, batches: map<int, seq<Batch>>, stages: map<int, Stage>,
    controls: map<int, Control>, candidates: map<int, Candidate>) {

    predicate HasJob(id: int) {
      1 <= id <= |jobs|
    }

    function JobAt(id: int): Job
      requires HasJob(id)
    {
      jobs[id - 1]
    }

    function WithJob(id: int, job: Job): Db
      requires HasJob(id)
    {
      this.(jobs := jobs[id - 1 := job])
    }

    function StageOf(id: int): Stage {
      if id in stages then stages[id] else NotStarted
    }

    function DispatchOf(id: int): Dispatch {
      if id in controls then controls[id].dispatch else Unreserved
    }

    function FailureOf(id: int): Option<Diagnostic> {
      if id in controls then controls[id].failure else None
    }

    function BatchesOf(id: int): seq<Batch> {
      if id in batches then batches[id] else []
    }
  }

  const EMPTY := Db([], map[], map[], map[], map[])
}
