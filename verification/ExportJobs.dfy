/**
 * The export job row, its deterministic object key, the stale rule in its
 * Python and SQL forms, and the row updates the tasks perform.
 */
module ExportJobs {
  import opened Common

  datatype Status = Pending | Processing | Ready | Failed | Expired

  datatype Job = Job(
    status: Status,
    objectKey: string,
    createdAt: Time,
    queuedAt: Option<Time>,
    startedAt: Option<Time>,
    heartbeatAt: Option<Time>,
    completedAt: Option<Time>,
    expiresAt: Option<Time>,
    attemptCount: nat)

  // ---------- Object keys ----------

  datatype RawJobId = RawJobId(organization: string, uuid: string)

  const UUID_LENGTH: nat := 36

  /** A job is named by its organization and a UUID written in 36 characters. */
  type JobId = j: RawJobId | |j.uuid| == UUID_LENGTH
    witness RawJobId("1", seq(UUID_LENGTH, _ => '0'))

  const EXPORT_PREFIX := "private/exports/"

  function ObjectKey(j: JobId): (key: string)
    ensures key != ""
  {
    EXPORT_PREFIX + j.organization + "/" + j.uuid + ".zip"
  }

  /** Two jobs never share an object. */
  lemma ObjectKeyInjective(i: JobId, j: JobId)
    requires ObjectKey(i) == ObjectKey(j)
    ensures i == j
  {
    ObjectKeyParts(i);
    ObjectKeyParts(j);
  }

  lemma ObjectKeyParts(j: JobId)
    ensures var key := ObjectKey(j);
            && |key| == 16 + |j.organization| + 41
            && key[|key| - 40..|key| - 4] == j.uuid && key[16..|key| - 41] == j.organization
  {
    var key := ObjectKey(j);
    assert |EXPORT_PREFIX| == 16 && |".zip"| == 4;
    assert key[16..|key| - 41] == j.organization;
    assert key[|key| - 40..|key| - 4] == j.uuid;
  }

  // ---------- Staleness ----------

  function OrElse(first: Option<Time>, second: Time): Time {
    if first.Some? then first.value else second
  }

  /** `is_export_job_stale` */
  predicate IsStale(job: Job, now: Time, staleAfter: Time) {
    var cutoff := now - staleAfter;
    match job.status
    case Pending => OrElse(job.queuedAt, job.createdAt) <= cutoff
    case Processing =>
      OrElse(job.heartbeatAt, OrElse(job.startedAt, OrElse(job.queuedAt, job.createdAt))) <= cutoff
    case _ => false
  }

  /** SQL truth values: a comparison with NULL is Unknown, and WHERE keeps only True. */
  datatype Truth = True | False | Unknown

  function Known(b: bool): Truth {
    if b then True else False
  }

  function And(a: Truth, b: Truth): Truth {
    if a == False || b == False then False else if a == True && b == True then True else Unknown
  }

  function Or(a: Truth, b: Truth): Truth {
    if a == True || b == True then True else if a == False && b == False then False else Unknown
  }

  function AtMost(column: Option<Time>, cutoff: Time): Truth {
    if column.None? then Unknown else Known(column.value <= cutoff)
  }

  function IsNull(column: Option<Time>): Truth {
    Known(column.None?)
  }

  /** `_stale_export_query`, evaluated on one row. */
  function StaleQuery(job: Job, cutoff: Time): Truth {
    var created := Some(job.createdAt);
    var pending :=
      And(Known(job.status == Pending),
          Or(AtMost(job.queuedAt, cutoff),
             And(IsNull(job.queuedAt), AtMost(created, cutoff))));
    var processing :=
      And(Known(job.status == Processing),
          Or(AtMost(job.heartbeatAt, cutoff),
             Or(And(IsNull(job.heartbeatAt), AtMost(job.startedAt, cutoff)),
                Or(And(IsNull(job.heartbeatAt),
                       And(IsNull(job.startedAt), AtMost(job.queuedAt, cutoff))),
                   And(IsNull(job.heartbeatAt),
                       And(IsNull(job.startedAt),
                           And(IsNull(job.queuedAt), AtMost(created, cutoff))))))));
    Or(pending, processing)
  }

  /** The query keeps exactly the stale rows, for every status and every NULL combination. */
  lemma StaleRulesAgree(job: Job, now: Time, staleAfter: Time)
    ensures StaleQuery(job, now - staleAfter) == True <==> IsStale(job, now, staleAfter)
  {
  }

  /** A job judged stale at one instant stays so at every later one. */
  lemma StalenessIsMonotone(job: Job, earlier: Time, later: Time, staleAfter: Time)
    requires earlier <= later && IsStale(job, earlier, staleAfter)
    ensures IsStale(job, later, staleAfter)
  {
  }

  // ---------- Row updates ----------

  function Created(now: Time): Job {
    Job(Pending, "", now, None, None, None, None, None, 0)
  }

  function Reset(job: Job, now: Time): Job {
    job.(status := Pending, queuedAt := Some(now), startedAt := None, heartbeatAt := None,
         completedAt := None, expiresAt := None)
  }

  function Begun(job: Job, now: Time): Job {
    job.(status := Processing, startedAt := Some(now), heartbeatAt := Some(now),
         completedAt := None, expiresAt := None, attemptCount := job.attemptCount + 1)
  }

  function Finished(job: Job, key: string, now: Time, retention: Time): Job {
    job.(status := Ready, objectKey := key, heartbeatAt := Some(now), completedAt := Some(now),
         expiresAt := Some(now + retention))
  }

  function Broken(job: Job, now: Time): Job {
    job.(status := Failed, heartbeatAt := Some(now), completedAt := Some(now))
  }

  function Unpublished(job: Job, now: Time): Job {
    job.(status := Failed, completedAt := Some(now))
  }

  function Retired(job: Job): Job {
    job.(status := Expired, objectKey := "")
  }

  /** `serialize_export_job` issues a download URL for this row at this instant. */
  predicate UrlIssued(job: Job, now: Time) {
    && job.status == Ready
    && job.objectKey != ""
    && job.expiresAt.Some?
    && job.expiresAt.value > now
  }

  /** The moves that the pipeline makes: READY only to EXPIRED, EXPIRED nowhere, FAILED only back to PENDING. */
  predicate StatusMove(before: Status, after: Status) {
    match before
    case Pending => after == Pending || after == Processing || after == Failed
    case Processing => after != Expired
    case Failed => after == Failed || after == Pending
    case Ready => after == Ready || after == Expired
    case Expired => after == Expired
  }

  /** The row goes stale exactly one window after this instant. */
  ghost predicate ActiveAt(job: Job, now: Time) {
    forall later, window :: IsStale(job, later, window) <==> now <= later - window
  }

  /** One stored row, updated column by column as the tasks do. */
  class JobRow {
    var status: Status
    var objectKey: string
    const createdAt: Time
    var queuedAt: Option<Time>
    var startedAt: Option<Time>
    var heartbeatAt: Option<Time>
    var completedAt: Option<Time>
    var expiresAt: Option<Time>
    var attemptCount: nat

    function Value(): Job
      reads this
    {
      Job(status, objectKey, createdAt, queuedAt, startedAt, heartbeatAt, completedAt, expiresAt, attemptCount)
    }

    constructor (now: Time)
      ensures Value() == Created(now)
    {
      status, objectKey, createdAt, attemptCount := Pending, "", now, 0;
      queuedAt, startedAt, heartbeatAt, completedAt, expiresAt := None, None, None, None, None;
    }

    /** `reset_export_for_retry` */
    method ResetForRetry(now: Time)
      modifies this
      ensures Value() == Reset(old(Value()), now)
      ensures Value() == Job(Pending, old(objectKey), createdAt, Some(now), None, None, None, None, old(attemptCount))
      ensures status == Pending && ActiveAt(Value(), now) && !UrlIssued(Value(), now)
      ensures objectKey == old(objectKey) && attemptCount == old(attemptCount)
      ensures old(status) == Pending || old(status) == Processing || old(status) == Failed ==>
                StatusMove(old(status), status)
    {
      status := Pending;
      queuedAt := Some(now);
      startedAt := None;
      heartbeatAt := None;
      completedAt := None;
      expiresAt := None;
    }

    /** The guarded `queued_at` update of `enqueue_export_job`; false where it raises. */
    method StampQueued(now: Time) returns (ok: bool)
      modifies this
      ensures ok <==> old(status) == Pending
      ensures Value() == if ok then old(Value()).(queuedAt := Some(now)) else old(Value())
      ensures StatusMove(old(status), status) && (ok ==> ActiveAt(Value(), now))
    {
      ok := status == Pending;
      if ok {
        queuedAt := Some(now);
      }
    }

    /** The first transaction of `export_org_data_task`; false where the task returns at once. */
    method BeginAttempt(now: Time) returns (started: bool)
      modifies this
      ensures started <==> old(status) == Pending || old(status) == Processing
      ensures Value() == if started then Begun(old(Value()), now) else old(Value())
      ensures started ==>
                Value() == Job(Processing, old(objectKey), createdAt, old(queuedAt), Some(now), Some(now), None, None,
                               old(attemptCount) + 1)
      ensures StatusMove(old(status), status) && objectKey == old(objectKey)
      ensures started ==> status == Processing && ActiveAt(Value(), now) && attemptCount == old(attemptCount) + 1
    {
      if status == Ready || status == Failed || status == Expired {
        return false;
      }
      status := Processing;
      startedAt := Some(now);
      heartbeatAt := Some(now);
      completedAt := None;
      expiresAt := None;
      attemptCount := attemptCount + 1;
      started := true;
    }

    /** `_mark_export_ready`: the number of rows updated. */
    method MarkReady(key: string, now: Time, retention: Time) returns (updated: nat)
      modifies this
      ensures updated == if old(status) == Processing then 1 else 0
      ensures Value() == if updated == 1 then Finished(old(Value()), key, now, retention) else old(Value())
      ensures updated == 1 ==>
                Value() == Job(Ready, key, createdAt, old(queuedAt), old(startedAt), Some(now), Some(now),
                               Some(now + retention), old(attemptCount))
      ensures StatusMove(old(status), status) && attemptCount == old(attemptCount)
      ensures updated == 1 ==> forall later, window :: !IsStale(Value(), later, window)
      ensures updated == 1 && key != "" ==> forall later :: UrlIssued(Value(), later) <==> later < now + retention
    {
      updated := 0;
      if status == Processing {
        status := Ready;
        objectKey := key;
        heartbeatAt := Some(now);
        completedAt := Some(now);
        expiresAt := Some(now + retention);
        updated := 1;
      }
    }
  }
}
