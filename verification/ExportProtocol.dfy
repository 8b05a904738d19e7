/**
 * The export pipeline as a transition system: web requests, the recovery and
 * retention tasks, and workers fed by an at-least-once queue, interleaved at
 * every database statement, storage call and message.
 */
module ExportProtocol {
  import opened Common
  import opened ExportJobs

  type WorkerId = nat
  type ClientId = nat

  /** `lockId` is the 64-bit advisory lock number; distinct jobs may share one. */
  datatype Config = Config(staleAfter: Time, hardLimit: Time, retention: Time, lockId: JobId -> int)

  /** Where `export_org_data_task` stands. */
  datatype Pc =
    | Received                    // before the advisory lock
    | Locked                      // holds the lock, first transaction not begun
    | Building(oldKey: string)    // row is PROCESSING, archive under construction
    | Built(oldKey: string)       // archive complete, stale keys not deleted yet
    | Cleared                     // stale keys deleted
    | Uploaded                    // object stored, row not updated yet
    | Marked                      // READY committed, still inside the try block
    | Failing(saved: bool)        // exception raised, upload not cleaned up yet
    | Recording                   // about to record FAILED
    | Done                        // about to release the lock

  datatype Worker = Worker(job: JobId, born: Time, pc: Pc)

  /** Where `enqueue_export_job` stands. */
  datatype Enqueue = Idle | Stamping(job: JobId) | Publishing(job: JobId) | Rejecting(job: JobId)

  datatype Client =
    | Request(stage: Enqueue)
    | Recovery(now: Time, todo: seq<JobId>, stage: Enqueue)
    | Cleanup(rows: seq<(JobId, string)>, deleted: bool)
    | Reader(job: JobId, row: Job)

  /**
   * `created` remembers every id ever used, `sealed` the expiry promised when a
   * job became READY, `spoiled` the READY jobs whose worker was interrupted before
   * it had left the try block. No step reads `sealed` or `spoiled`.
   */
  datatype State = State(
    now: Time,
    jobs: map<JobId, Job>,
    store: set<string>,
    queue: multiset<JobId>,
    locks: map<int, WorkerId>,
    workers: map<WorkerId, Worker>,
    clients: map<ClientId, Client>,
    created: set<JobId>,
    sealed: map<JobId, Time>,
    spoiled: set<JobId>)

  datatype Saved =
    | Stored                                        // storage kept the deterministic key
    | Renamed(other: string, leftBehind: bool)      // storage chose another key; it is deleted, or that fails
    | SaveError(stored: bool)                       // the call raised, before or after writing

  datatype Step =
    | Tick(later: Time)
    | Create(c: ClientId, j: JobId)
    | Retry(c: ClientId, j: JobId)
    | Stamp(c: ClientId)
    | Publish(c: ClientId, sent: bool, raised: bool)
    | Reject(c: ClientId)
    | RecoveryScan(c: ClientId, found: seq<JobId>)
    | RecoveryTake(c: ClientId)
    | CleanupScan(c: ClientId, rows: seq<(JobId, string)>)
    | CleanupDelete(c: ClientId, ok: bool)
    | CleanupSave(c: ClientId)
    | Read(c: ClientId, j: JobId)
    | ClientGone(c: ClientId)
    | DeleteRow(j: JobId)
    | Deliver(w: WorkerId, j: JobId)
    | TakeLock(w: WorkerId)
    | Begin(w: WorkerId)
    | Heartbeat(w: WorkerId)
    | Build(w: WorkerId, ok: bool)
    | ClearKeys(w: WorkerId, ok: bool, removed: set<string>)
    | Save(w: WorkerId, outcome: Saved)
    | Mark(w: WorkerId, ok: bool)
    | LeaveTry(w: WorkerId)
    | Interrupt(w: WorkerId)
    | CleanUpload(w: WorkerId, dropped: bool)
    | RecordFailure(w: WorkerId, ok: bool)
    | Release(w: WorkerId, acked: bool)
    | Crash(w: WorkerId)

  predicate WorkerAt(s: State, w: WorkerId, pcs: set<Pc>) {
    w in s.workers && s.workers[w].pc in pcs
  }

  function WithStage(client: Client, stage: Enqueue): Client
    requires client.Request? || client.Recovery?
  {
    client.(stage := stage)
  }

  predicate StageIs(s: State, c: ClientId) {
    c in s.clients && (s.clients[c].Request? || s.clients[c].Recovery?)
  }

  function StaleKeys(oldKey: string, j: JobId): set<string> {
    {oldKey, ObjectKey(j)} - {""}
  }

  // ---------- When a step may happen ----------

  predicate ClientEnabled(cfg: Config, s: State, step: Step) {
    match step
    case Tick(later) => later >= s.now
    case Create(c, j) => c !in s.clients && j !in s.created
    case Retry(c, j) =>
      && c !in s.clients && j in s.jobs
      && (s.jobs[j].status == Failed || IsStale(s.jobs[j], s.now, cfg.staleAfter))
    case Stamp(c) => StageIs(s, c) && s.clients[c].stage.Stamping?
    case Publish(c, sent, raised) => StageIs(s, c) && s.clients[c].stage.Publishing? && (sent || raised)
    case Reject(c) => StageIs(s, c) && s.clients[c].stage.Rejecting?
    case RecoveryScan(c, found) =>
      && c !in s.clients
      && (forall j | j in found :: j in s.jobs && StaleQuery(s.jobs[j], s.now - cfg.staleAfter) == True)
      && (forall j | j in s.jobs && StaleQuery(s.jobs[j], s.now - cfg.staleAfter) == True :: j in found)
    case RecoveryTake(c) =>
      c in s.clients && s.clients[c].Recovery? && s.clients[c].stage.Idle? && s.clients[c].todo != []
    case CleanupScan(c, rows) =>
      && c !in s.clients
      && forall row | row in rows :: RetentionSelects(s, row)
    case CleanupDelete(c, ok) =>
      c in s.clients && s.clients[c].Cleanup? && s.clients[c].rows != [] && !s.clients[c].deleted
    case CleanupSave(c) => c in s.clients && s.clients[c].Cleanup? && s.clients[c].rows != [] && s.clients[c].deleted
    case Read(c, j) => c !in s.clients && j in s.jobs
    case ClientGone(c) => c in s.clients
    case DeleteRow(j) => j in s.jobs
    case _ => false
  }

  /** The retention query on a READY row, and the key fetched with it. */
  predicate RetentionSelects(s: State, row: (JobId, string)) {
    && row.0 in s.jobs
    && s.jobs[row.0].status == Ready
    && AtMost(s.jobs[row.0].expiresAt, s.now) == True
    && row.1 == s.jobs[row.0].objectKey
  }

  predicate WorkerEnabled(cfg: Config, s: State, step: Step) {
    match step
    case Deliver(w, j) => w !in s.workers && s.queue[j] > 0
    case TakeLock(w) => WorkerAt(s, w, {Received})
    case Begin(w) => WorkerAt(s, w, {Locked})
    case Heartbeat(w) => w in s.workers && s.workers[w].pc.Building?
    case Build(w, ok) => w in s.workers && s.workers[w].pc.Building?
    case ClearKeys(w, ok, removed) =>
      && w in s.workers && s.workers[w].pc.Built?
      && removed <= StaleKeys(s.workers[w].pc.oldKey, s.workers[w].job)
      && (ok ==> removed == StaleKeys(s.workers[w].pc.oldKey, s.workers[w].job))
    case Save(w, outcome) =>
      && WorkerAt(s, w, {Cleared})
      && (outcome.Renamed? ==> outcome.other !in s.store && outcome.other != ObjectKey(s.workers[w].job))
    case Mark(w, ok) => WorkerAt(s, w, {Uploaded})
    case LeaveTry(w) => WorkerAt(s, w, {Marked})
    case Interrupt(w) => WorkerAt(s, w, {Marked})
    case CleanUpload(w, dropped) => w in s.workers && s.workers[w].pc.Failing?
    case RecordFailure(w, ok) => WorkerAt(s, w, {Recording})
    case Release(w, acked) => WorkerAt(s, w, {Done})
    case Crash(w) => w in s.workers
    case _ => false
  }

  predicate Enabled(cfg: Config, s: State, step: Step) {
    ClientEnabled(cfg, s, step) || WorkerEnabled(cfg, s, step)
  }

  // ---------- What a step does ----------

  function SetClient(s: State, c: ClientId, client: Client): State {
    s.(clients := s.clients[c := client])
  }

  function SetJob(s: State, j: JobId, job: Job): State {
    s.(jobs := s.jobs[j := job])
  }

  function SetPc(s: State, w: WorkerId, pc: Pc): State
    requires w in s.workers
  {
    s.(workers := s.workers[w := s.workers[w].(pc := pc)])
  }

  function Seal(s: State, j: JobId, job: Job, expiry: Time): State {
    SetJob(s, j, job).(sealed := s.sealed[j := expiry])
  }

  predicate IsRequest(step: Step) {
    step.Create? || step.Retry? || step.Stamp? || step.Publish? || step.Reject?
  }

  /** Web requests: job creation, manual retry and `enqueue_export_job`. */
  function ApplyRequest(s: State, step: Step): (t: State)
    requires IsRequest(step)
    requires step.Retry? ==> step.j in s.jobs
    requires step.Stamp? ==> StageIs(s, step.c) && s.clients[step.c].stage.Stamping?
    requires step.Publish? ==> StageIs(s, step.c) && s.clients[step.c].stage.Publishing?
    requires step.Reject? ==> StageIs(s, step.c) && s.clients[step.c].stage.Rejecting?
    ensures t.store == s.store && t.now == s.now && t.workers == s.workers && t.sealed == s.sealed
            && t.spoiled == s.spoiled
  {
    match step
    case Create(c, j) =>
      var named := s.(created := s.created + {j});
      SetClient(SetJob(named, j, Created(s.now)), c, Request(Stamping(j)))
    case Retry(c, j) => SetClient(SetJob(s, j, Reset(s.jobs[j], s.now)), c, Request(Stamping(j)))
    case Stamp(c) =>
      var j := s.clients[c].stage.job;
      if j in s.jobs && s.jobs[j].status == Pending then
        SetClient(SetJob(s, j, s.jobs[j].(queuedAt := Some(s.now))), c, WithStage(s.clients[c], Publishing(j)))
      else
        SetClient(s, c, WithStage(s.clients[c], Idle))
    case Publish(c, sent, raised) =>
      var j := s.clients[c].stage.job;
      var queue := if sent then s.queue + multiset{j} else s.queue;
      SetClient(s.(queue := queue), c, WithStage(s.clients[c], if raised then Rejecting(j) else Idle))
    case Reject(c) =>
      var j := s.clients[c].stage.job;
      var failed := if j in s.jobs && s.jobs[j].status == Pending then SetJob(s, j, Unpublished(s.jobs[j], s.now))
                    else s;
      SetClient(failed, c, WithStage(s.clients[c], Idle))
  }

  /** `recover_stale_exports`: one job of the scanned list. */
  function ApplyRecoveryTake(cfg: Config, s: State, c: ClientId): (t: State)
    requires c in s.clients && s.clients[c].Recovery? && s.clients[c].todo != []
    ensures t.store == s.store && t.now == s.now && t.workers == s.workers && t.sealed == s.sealed
            && t.created == s.created && t.spoiled == s.spoiled
  {
    var client := s.clients[c];
    var j := client.todo[0];
    if j in s.jobs && IsStale(s.jobs[j], client.now, cfg.staleAfter) then
      SetClient(SetJob(s, j, Reset(s.jobs[j], client.now)), c, Recovery(client.now, client.todo[1..], Stamping(j)))
    else
      SetClient(s, c, Recovery(client.now, client.todo[1..], Idle))
  }

  /** `cleanup_expired_exports`: the object of the first listed row. */
  function ApplyCleanupDelete(s: State, c: ClientId, ok: bool): (t: State)
    requires c in s.clients && s.clients[c].Cleanup? && s.clients[c].rows != []
    ensures t.jobs == s.jobs && t.now == s.now && t.workers == s.workers && t.sealed == s.sealed
            && t.created == s.created && t.spoiled == s.spoiled
  {
    var rows := s.clients[c].rows;
    var key := rows[0].1;
    if key == "" then SetClient(s, c, Cleanup(rows, true))
    else if ok then SetClient(s.(store := s.store - {key}), c, Cleanup(rows, true))
    else SetClient(s, c, Cleanup(rows[1..], false))
  }

  /** `cleanup_expired_exports`: the unconditional save of the first listed row. */
  function ApplyCleanupSave(s: State, c: ClientId): (t: State)
    requires c in s.clients && s.clients[c].Cleanup? && s.clients[c].rows != []
    ensures t.store == s.store && t.now == s.now && t.workers == s.workers && t.sealed == s.sealed
            && t.created == s.created && t.spoiled == s.spoiled
  {
    var rows := s.clients[c].rows;
    var j := rows[0].0;
    if j in s.jobs then SetClient(SetJob(s, j, Retired(s.jobs[j])), c, Cleanup(rows[1..], false))
    else s.(clients := s.clients - {c})
  }

  /** Steps that change neither store nor, except for a cascade deletion, any row. */
  function ApplyQuiet(s: State, step: Step): (t: State)
    requires step.Tick? || step.RecoveryScan? || step.CleanupScan? || step.Read? || step.ClientGone? || step.DeleteRow?
    requires step.Read? ==> step.j in s.jobs
    ensures t.store == s.store && t.workers == s.workers && t.sealed == s.sealed && t.created == s.created
            && t.spoiled == s.spoiled
    ensures t.jobs == if step.DeleteRow? then s.jobs - {step.j} else s.jobs
  {
    match step
    case Tick(later) => s.(now := later)
    case RecoveryScan(c, found) => SetClient(s, c, Recovery(s.now, found, Idle))
    case CleanupScan(c, rows) => SetClient(s, c, Cleanup(rows, false))
    case Read(c, j) => SetClient(s, c, Reader(j, s.jobs[j]))
    case ClientGone(c) => s.(clients := s.clients - {c})
    case DeleteRow(j) => s.(jobs := s.jobs - {j})
  }

  function ApplyClient(cfg: Config, s: State, step: Step): State
    requires ClientEnabled(cfg, s, step)
  {
    if IsRequest(step) then ApplyRequest(s, step)
    else if step.RecoveryTake? then ApplyRecoveryTake(cfg, s, step.c)
    else if step.CleanupDelete? then ApplyCleanupDelete(s, step.c, step.ok)
    else if step.CleanupSave? then ApplyCleanupSave(s, step.c)
    else ApplyQuiet(s, step)
  }

  function Unlock(cfg: Config, s: State, w: WorkerId): map<int, WorkerId>
    requires w in s.workers
  {
    if s.workers[w].pc.Received? then s.locks else s.locks - {cfg.lockId(s.workers[w].job)}
  }

  /** The only worker that changed is w, and it kept its job and its birth. */
  ghost predicate OnlyPcOf(s: State, t: State, w: WorkerId) {
    && t.workers.Keys == s.workers.Keys
    && forall v | v in s.workers ::
         if v == w then t.workers[v] == s.workers[v].(pc := t.workers[v].pc) else t.workers[v] == s.workers[v]
  }

  predicate IsStorage(step: Step) {
    step.ClearKeys? || step.Save? || step.CleanUpload?
  }

  predicate IsRowUpdate(step: Step) {
    step.Begin? || step.Heartbeat? || step.Mark? || step.RecordFailure?
  }

  /** Steps of a worker that only move it, its lock or its message. */
  function ApplyMove(cfg: Config, s: State, step: Step): (t: State)
    requires step.Deliver? || step.TakeLock? || step.Build? || step.LeaveTry? || step.Interrupt? || step.Release?
             || step.Crash?
    requires !step.Deliver? ==> step.w in s.workers
    requires step.Build? ==> s.workers[step.w].pc.Building?
    ensures t.jobs == s.jobs && t.store == s.store && t.now == s.now && t.sealed == s.sealed && t.created == s.created
    ensures t.clients == s.clients && t.spoiled == s.spoiled + if step.Interrupt? then {s.workers[step.w].job} else {}
  {
    match step
    case Deliver(w, j) => s.(workers := s.workers[w := Worker(j, s.now, Received)])
    case TakeLock(w) =>
      var id := cfg.lockId(s.workers[w].job);
      if id in s.locks then s.(workers := s.workers - {w}, queue := s.queue - multiset{s.workers[w].job})
      else SetPc(s.(locks := s.locks[id := w]), w, Locked)
    case Build(w, ok) => SetPc(s, w, if ok then Built(s.workers[w].pc.oldKey) else Failing(false))
    case LeaveTry(w) => SetPc(s, w, Done)
    // an exception, such as the soft time limit, after the READY update committed
    case Interrupt(w) => SetPc(s.(spoiled := s.spoiled + {s.workers[w].job}), w, Failing(true))
    case Release(w, acked) =>
      s.(workers := s.workers - {w}, locks := Unlock(cfg, s, w),
         queue := if acked then s.queue - multiset{s.workers[w].job} else s.queue)
    case Crash(w) => s.(workers := s.workers - {w}, locks := Unlock(cfg, s, w))
  }

  /** Guarded updates of the job row by its worker. */
  function ApplyRow(cfg: Config, s: State, step: Step): (t: State)
    requires IsRowUpdate(step) && step.w in s.workers
    ensures t.store == s.store && t.now == s.now && t.created == s.created && t.jobs.Keys == s.jobs.Keys
    ensures t.spoiled == s.spoiled && t.clients == s.clients
    ensures t.sealed == s.sealed || (step.Mark? && t.sealed == s.sealed[s.workers[step.w].job := s.now + cfg.retention])
    ensures forall j | j in s.jobs && j != s.workers[step.w].job :: t.jobs[j] == s.jobs[j]
    ensures OnlyPcOf(s, t, step.w)
  {
    var w := step.w;
    var j := s.workers[w].job;
    var mine := j in s.jobs && s.jobs[j].status == Processing;
    match step
    case Begin(_) =>
      if j in s.jobs && (s.jobs[j].status == Pending || s.jobs[j].status == Processing) then
        SetPc(SetJob(s, j, Begun(s.jobs[j], s.now)), w, Building(s.jobs[j].objectKey))
      else
        SetPc(s, w, Done)
    case Heartbeat(_) => if mine then SetJob(s, j, s.jobs[j].(heartbeatAt := Some(s.now))) else s
    case Mark(_, ok) =>
      if ok && mine then
        Seal(SetPc(s, w, Marked), j, Finished(s.jobs[j], ObjectKey(j), s.now, cfg.retention), s.now + cfg.retention)
      else
        SetPc(s, w, Failing(true))
    case RecordFailure(_, ok) =>
      if ok && mine then SetPc(SetJob(s, j, Broken(s.jobs[j], s.now)), w, Done) else SetPc(s, w, Done)
  }

  /** Calls of the object store by a worker. */
  function ApplyStorage(s: State, step: Step): (t: State)
    requires IsStorage(step) && step.w in s.workers
    requires step.CleanUpload? ==> s.workers[step.w].pc.Failing?
    requires step.Save? && step.outcome.Renamed? ==> step.outcome.other !in s.store
    ensures t.jobs == s.jobs && t.now == s.now && t.sealed == s.sealed && t.created == s.created
            && t.spoiled == s.spoiled
    ensures t.clients == s.clients
    ensures step.Save? ==> s.store <= t.store
    ensures OnlyPcOf(s, t, step.w)
  {
    var w := step.w;
    var key := ObjectKey(s.workers[w].job);
    match step
    case ClearKeys(_, ok, removed) => SetPc(s.(store := s.store - removed), w, if ok then Cleared else Failing(false))
    case Save(_, outcome) =>
      (match outcome
       case Stored => SetPc(s.(store := s.store + {key}), w, Uploaded)
       case Renamed(other, leftBehind) =>
         SetPc(s.(store := if leftBehind then s.store + {other} else s.store + {other} - {other}), w, Failing(false))
       case SaveError(stored) => SetPc(s.(store := if stored then s.store + {key} else s.store), w, Failing(false)))
    case CleanUpload(_, dropped) =>
      SetPc(s.(store := if s.workers[w].pc.saved && dropped then s.store - {key} else s.store), w, Recording)
  }

  function ApplyWorker(cfg: Config, s: State, step: Step): State
    requires WorkerEnabled(cfg, s, step)
  {
    if IsStorage(step) then ApplyStorage(s, step)
    else if IsRowUpdate(step) then ApplyRow(cfg, s, step)
    else ApplyMove(cfg, s, step)
  }

  function Apply(cfg: Config, s: State, step: Step): State
    requires Enabled(cfg, s, step)
  {
    if ClientEnabled(cfg, s, step) then ApplyClient(cfg, s, step) else ApplyWorker(cfg, s, step)
  }

  // ---------- Runs ----------

  function Initial(now: Time): State {
    State(now, map[], {}, multiset{}, map[], map[], map[], {}, map[], {})
  }

  predicate Runs(cfg: Config, s: State, steps: seq<Step>)
    decreases |steps|
  {
    steps == [] || (Enabled(cfg, s, steps[0]) && Runs(cfg, Apply(cfg, s, steps[0]), steps[1..]))
  }

  function After(cfg: Config, s: State, steps: seq<Step>): State
    requires Runs(cfg, s, steps)
    decreases |steps|
  {
    if steps == [] then s else After(cfg, Apply(cfg, s, steps[0]), steps[1..])
  }

  // ---------- The invariant ----------

  predicate Working(pc: Pc) {
    pc.Building? || pc.Built? || pc.Cleared? || pc.Uploaded? || pc.Failing? || pc.Recording?
  }

  ghost predicate JobOk(s: State, j: JobId)
    requires j in s.jobs
  {
    var job := s.jobs[j];
    && j in s.created
    && (job.status == Ready ==> job.objectKey == ObjectKey(j) && j in s.sealed && job.expiresAt == Some(s.sealed[j]))
    && (job.status == Expired ==> job.objectKey == "" && j in s.sealed)
    && (job.status != Ready && job.status != Expired ==> job.objectKey == "" && j !in s.sealed)
  }

  ghost predicate WorkerOk(cfg: Config, s: State, w: WorkerId)
    requires w in s.workers
  {
    var worker := s.workers[w];
    && worker.job in s.created
    && (!worker.pc.Received? ==>
          cfg.lockId(worker.job) in s.locks && s.locks[cfg.lockId(worker.job)] == w)
    && (Working(worker.pc) ==>
          worker.job !in s.sealed || (worker.job in s.spoiled && (worker.pc.Failing? || worker.pc.Recording?)))
    && (worker.pc.Marked? ==> worker.job in s.sealed)
    && (worker.pc.Building? || worker.pc.Built? ==> worker.pc.oldKey == "")
    && (worker.pc.Uploaded? ==> ObjectKey(worker.job) in s.store)
  }

  ghost predicate StageOk(s: State, stage: Enqueue) {
    !stage.Idle? ==> stage.job in s.created
  }

  ghost predicate ClientOk(s: State, client: Client) {
    match client
    case Request(stage) => StageOk(s, stage)
    case Recovery(now, todo, stage) => StageOk(s, stage) && now <= s.now
    case Cleanup(rows, _) =>
      forall row | row in rows :: row.0 in s.sealed && s.sealed[row.0] <= s.now && row.1 == ObjectKey(row.0)
    case Reader(j, row) =>
      row.status == Ready ==> row.objectKey == ObjectKey(j) && j in s.sealed && row.expiresAt == Some(s.sealed[j])
  }

  /**
   * While the promised expiry lies ahead the object of a job that is not spoiled is there,
   * whatever became of the row.
   */
  ghost predicate SealKept(s: State, j: JobId)
    requires j in s.sealed
  {
    j in s.created && (s.sealed[j] > s.now && j !in s.spoiled ==> ObjectKey(j) in s.store)
  }

  ghost predicate Inv(cfg: Config, s: State) {
    && (forall j | j in s.jobs :: JobOk(s, j))
    && (forall w | w in s.workers :: WorkerOk(cfg, s, w))
    && (forall c | c in s.clients :: ClientOk(s, s.clients[c]))
    && (forall j | j in s.sealed :: SealKept(s, j))
    && (forall j | s.queue[j] > 0 :: j in s.created)
    && (forall j | j in s.spoiled :: j in s.sealed)
  }
}
