/** The guarantees of the export pipeline over all runs. */
module ExportTheorems {
  import opened Common
  import opened ExportJobs
  import opened ExportProtocol
  import opened ExportSafety

  // ---------- READY means downloadable ----------

  /** The expiry promised when j became READY lies ahead: a URL may be issued. */
  predicate Promised(s: State, j: JobId) {
    j in s.sealed && s.sealed[j] > s.now
  }

  predicate Kept(s: State, j: JobId) {
    Promised(s, j) ==> ObjectKey(j) in s.store
  }

  /** The gate opens only under the promise, on the row itself and on a copy that a request read long before. */
  lemma IssuedUnderPromise(cfg: Config, s: State, j: JobId, c: ClientId)
    requires Inv(cfg, s)
    ensures j in s.jobs && UrlIssued(s.jobs[j], s.now) ==> Promised(s, j) && s.jobs[j].objectKey == ObjectKey(j)
    ensures c in s.clients && s.clients[c].Reader? && UrlIssued(s.clients[c].row, s.now) ==>
              Promised(s, s.clients[c].job) && s.clients[c].row.objectKey == ObjectKey(s.clients[c].job)
  {
    assert j in s.jobs ==> JobOk(s, j);
    assert c in s.clients ==> ClientOk(s, s.clients[c]);
  }

  /** An exception reaches a worker of j after the READY commit, inside the try block and before the promised expiry. */
  predicate Harms(s: State, step: Step, j: JobId) {
    step.Interrupt? && step.w in s.workers && s.workers[step.w].job == j && Promised(s, j)
  }

  predicate HarmedIn(cfg: Config, s: State, steps: seq<Step>, j: JobId)
    requires Runs(cfg, s, steps)
    decreases |steps|
  {
    steps != [] && (Harms(s, steps[0], j) || HarmedIn(cfg, Apply(cfg, s, steps[0]), steps[1..], j))
  }

  /** A spoiled job is past its promise. */
  predicate Unharmed(s: State, j: JobId) {
    j in s.spoiled ==> !Promised(s, j)
  }

  lemma ClientKeepsPromises(cfg: Config, s: State, step: Step)
    requires ClientEnabled(cfg, s, step)
    ensures var t := ApplyClient(cfg, s, step);
            t.sealed == s.sealed && t.spoiled == s.spoiled && t.now >= s.now
  {}

  lemma WorkerKeepsPromises(cfg: Config, s: State, step: Step, j: JobId)
    requires Inv(cfg, s) && WorkerEnabled(cfg, s, step)
    ensures var t := ApplyWorker(cfg, s, step);
            && t.now == s.now && (j in s.sealed ==> j in t.sealed && t.sealed[j] == s.sealed[j])
            && (j in t.spoiled <==> j in s.spoiled || (step.Interrupt? && s.workers[step.w].job == j))
  {
    if IsRowUpdate(step) {
      RowUpdateKeepsPromises(cfg, s, step, j);
    }
  }

  lemma RowUpdateKeepsPromises(cfg: Config, s: State, step: Step, j: JobId)
    requires Inv(cfg, s) && WorkerEnabled(cfg, s, step) && IsRowUpdate(step)
    ensures var t := ApplyRow(cfg, s, step);
            t.spoiled == s.spoiled && (j in s.sealed ==> j in t.sealed && t.sealed[j] == s.sealed[j])
  {
    assert WorkerOk(cfg, s, step.w);
  }

  lemma UnharmedStep(cfg: Config, s: State, step: Step, j: JobId)
    requires Inv(cfg, s) && Enabled(cfg, s, step) && Unharmed(s, j) && !Harms(s, step, j)
    ensures Unharmed(Apply(cfg, s, step), j)
  {
    if ClientEnabled(cfg, s, step) {
      ClientKeepsPromises(cfg, s, step);
    } else {
      WorkerKeepsPromises(cfg, s, step, j);
      assert step.Interrupt? ==> WorkerOk(cfg, s, step.w);
    }
  }

  lemma {:induction false} UnharmedRun(cfg: Config, s: State, steps: seq<Step>, j: JobId)
    requires Inv(cfg, s) && Runs(cfg, s, steps) && Unharmed(s, j) && !HarmedIn(cfg, s, steps, j)
    ensures Inv(cfg, After(cfg, s, steps)) && Unharmed(After(cfg, s, steps), j)
    decreases |steps|
  {
    if steps == [] {
    } else {
      StepKeepsInv(cfg, s, steps[0]);
      UnharmedStep(cfg, s, steps[0], j);
      UnharmedRun(cfg, Apply(cfg, s, steps[0]), steps[1..], j);
    }
  }

  lemma UnharmedIsKept(cfg: Config, s: State, j: JobId)
    requires Inv(cfg, s) && Unharmed(s, j)
    ensures Kept(s, j)
  {
    if Promised(s, j) {
      assert SealKept(s, j);
    }
  }

  /**
   * In every run whatsoever, a READY row that has not expired names an object
   * that is stored, unless an exception hit the job's own worker between the
   * READY commit and the end of the try block.
   */
  lemma ReadyObjectIsStored(cfg: Config, start: Time, steps: seq<Step>, j: JobId)
    requires Runs(cfg, Initial(start), steps)
    ensures var s := After(cfg, Initial(start), steps);
            j in s.jobs && UrlIssued(s.jobs[j], s.now) ==>
              s.jobs[j].objectKey in s.store || HarmedIn(cfg, Initial(start), steps, j)
  {
    InitialInv(cfg, start);
    RunKeepsInv(cfg, Initial(start), steps);
    IssuedUnderPromise(cfg, After(cfg, Initial(start), steps), j, 0);
    if !HarmedIn(cfg, Initial(start), steps, j) {
      UnharmedRun(cfg, Initial(start), steps, j);
      UnharmedIsKept(cfg, After(cfg, Initial(start), steps), j);
    }
  }

  /**
   * A request may have read the row long before it signs the URL, and the row
   * may be gone by then: the same holds whenever the gate opens.
   */
  lemma IssuedUrlNamesStoredObject(cfg: Config, start: Time, steps: seq<Step>, c: ClientId)
    requires Runs(cfg, Initial(start), steps)
    ensures var s := After(cfg, Initial(start), steps);
            c in s.clients && s.clients[c].Reader? && UrlIssued(s.clients[c].row, s.now) ==>
              s.clients[c].row.objectKey in s.store || HarmedIn(cfg, Initial(start), steps, s.clients[c].job)
  {
    InitialInv(cfg, start);
    RunKeepsInv(cfg, Initial(start), steps);
    var s := After(cfg, Initial(start), steps);
    if c in s.clients && s.clients[c].Reader? && !HarmedIn(cfg, Initial(start), steps, s.clients[c].job) {
      IssuedUnderPromise(cfg, s, s.clients[c].job, c);
      UnharmedRun(cfg, Initial(start), steps, s.clients[c].job);
      UnharmedIsKept(cfg, s, s.clients[c].job);
    }
  }

  // ---------- The promise, exactly ----------

  /** The object is there, and no clean-up that a worker may be about to make takes it away. */
  ghost predicate Robust(cfg: Config, s: State, j: JobId) {
    && Kept(s, j)
    && forall w | WorkerEnabled(cfg, s, CleanUpload(w, true)) :: Kept(ApplyWorker(cfg, s, CleanUpload(w, true)), j)
  }

  ghost predicate RobustThroughout(cfg: Config, s: State, steps: seq<Step>, j: JobId)
    requires Runs(cfg, s, steps)
    decreases |steps|
  {
    Robust(cfg, s, j) && (steps != [] ==> RobustThroughout(cfg, Apply(cfg, s, steps[0]), steps[1..], j))
  }

  lemma UnharmedIsRobust(cfg: Config, s: State, j: JobId)
    requires Inv(cfg, s) && Unharmed(s, j)
    ensures Robust(cfg, s, j)
  {
    UnharmedIsKept(cfg, s, j);
    forall w | WorkerEnabled(cfg, s, CleanUpload(w, true)) ensures Kept(ApplyWorker(cfg, s, CleanUpload(w, true)), j) {
      WorkerStepKeepsInv(cfg, s, CleanUpload(w, true));
      WorkerKeepsPromises(cfg, s, CleanUpload(w, true), j);
      UnharmedStep(cfg, s, CleanUpload(w, true), j);
      UnharmedIsKept(cfg, ApplyWorker(cfg, s, CleanUpload(w, true)), j);
    }
  }

  /** After such an exception the worker's own clean-up deletes the promised object. */
  lemma HarmIsNotRobust(cfg: Config, s: State, step: Step, j: JobId)
    requires Enabled(cfg, s, step) && Harms(s, step, j)
    ensures !Robust(cfg, Apply(cfg, s, step), j)
  {
    var t := Apply(cfg, s, step);
    assert WorkerEnabled(cfg, t, CleanUpload(step.w, true));
    assert !Kept(ApplyWorker(cfg, t, CleanUpload(step.w, true)), j);
  }

  lemma {:induction false} RobustThroughoutExactly(cfg: Config, s: State, steps: seq<Step>, j: JobId)
    requires Inv(cfg, s) && Runs(cfg, s, steps) && Unharmed(s, j)
    ensures RobustThroughout(cfg, s, steps, j) <==> !HarmedIn(cfg, s, steps, j)
    decreases |steps|
  {
    UnharmedIsRobust(cfg, s, j);
    if steps == [] {
    } else if Harms(s, steps[0], j) {
      HarmIsNotRobust(cfg, s, steps[0], j);
    } else {
      StepKeepsInv(cfg, s, steps[0]);
      UnharmedStep(cfg, s, steps[0], j);
      RobustThroughoutExactly(cfg, Apply(cfg, s, steps[0]), steps[1..], j);
    }
  }

  /**
   * Over all runs: the object promised with READY is safe in every state, also
   * from the next clean-up, exactly when no exception hits a worker of the job
   * between the READY commit and the end of the try block before the expiry.
   */
  lemma PromiseKeptExactly(cfg: Config, start: Time, steps: seq<Step>, j: JobId)
    requires Runs(cfg, Initial(start), steps)
    ensures RobustThroughout(cfg, Initial(start), steps, j) <==> !HarmedIn(cfg, Initial(start), steps, j)
  {
    InitialInv(cfg, start);
    RobustThroughoutExactly(cfg, Initial(start), steps, j);
  }

  /** The clean-up after a late exception deletes the object while it is promised. */
  predicate Loses(s: State, step: Step, j: JobId) {
    && step.CleanUpload? && step.dropped && step.w in s.workers
    && s.workers[step.w].job == j && s.workers[step.w].pc == Failing(true) && Promised(s, j)
  }

  predicate LosesIn(cfg: Config, s: State, steps: seq<Step>, j: JobId)
    requires Runs(cfg, s, steps)
    decreases |steps|
  {
    steps != [] && (Loses(s, steps[0], j) || LosesIn(cfg, Apply(cfg, s, steps[0]), steps[1..], j))
  }

  predicate KeptThroughout(cfg: Config, s: State, steps: seq<Step>, j: JobId)
    requires Runs(cfg, s, steps)
    decreases |steps|
  {
    Kept(s, j) && (steps != [] ==> KeptThroughout(cfg, Apply(cfg, s, steps[0]), steps[1..], j))
  }

  lemma ClientStepKeeps(cfg: Config, s: State, step: Step, j: JobId)
    requires Inv(cfg, s) && ClientEnabled(cfg, s, step) && Kept(s, j)
    ensures Kept(ApplyClient(cfg, s, step), j)
  {
    ClientKeepsPromises(cfg, s, step);
    if step.CleanupDelete? {
      var rows := s.clients[step.c].rows;
      assert ClientOk(s, s.clients[step.c]) && rows[0] in rows;
      if rows[0].1 == ObjectKey(j) {
        ObjectKeyInjective(rows[0].0, j);
      }
    }
  }

  lemma StorageStepKeepsExactly(cfg: Config, s: State, step: Step, j: JobId)
    requires Inv(cfg, s) && WorkerEnabled(cfg, s, step) && IsStorage(step) && Kept(s, j)
    ensures Kept(ApplyStorage(s, step), j) <==> !Loses(s, step, j)
  {
    assert WorkerOk(cfg, s, step.w);
    if ObjectKey(s.workers[step.w].job) == ObjectKey(j) {
      ObjectKeyInjective(s.workers[step.w].job, j);
    }
  }

  /** A job becomes promised only with its object stored. */
  lemma RowUpdateKeeps(cfg: Config, s: State, step: Step, j: JobId)
    requires Inv(cfg, s) && WorkerEnabled(cfg, s, step) && IsRowUpdate(step) && Kept(s, j)
    ensures Kept(ApplyRow(cfg, s, step), j)
  {
    assert WorkerOk(cfg, s, step.w);
  }

  /** Of all steps only such a clean-up takes a promised object away. */
  lemma StepKeepsExactly(cfg: Config, s: State, step: Step, j: JobId)
    requires Inv(cfg, s) && Enabled(cfg, s, step) && Kept(s, j)
    ensures Kept(Apply(cfg, s, step), j) <==> !Loses(s, step, j)
  {
    if ClientEnabled(cfg, s, step) {
      ClientStepKeeps(cfg, s, step, j);
    } else if IsStorage(step) {
      StorageStepKeepsExactly(cfg, s, step, j);
    } else if IsRowUpdate(step) {
      RowUpdateKeeps(cfg, s, step, j);
    }
  }

  lemma {:induction false} KeptThroughoutExactly(cfg: Config, s: State, steps: seq<Step>, j: JobId)
    requires Inv(cfg, s) && Runs(cfg, s, steps) && Kept(s, j)
    ensures KeptThroughout(cfg, s, steps, j) <==> !LosesIn(cfg, s, steps, j)
    decreases |steps|
  {
    if steps == [] {
    } else {
      StepKeepsInv(cfg, s, steps[0]);
      StepKeepsExactly(cfg, s, steps[0], j);
      if Kept(Apply(cfg, s, steps[0]), j) {
        KeptThroughoutExactly(cfg, Apply(cfg, s, steps[0]), steps[1..], j);
      }
    }
  }

  /**
   * Storage itself, over all runs: the promised object is there in every state
   * exactly when no worker's clean-up after a late exception deletes it meanwhile.
   */
  lemma StoredThroughoutExactly(cfg: Config, start: Time, steps: seq<Step>, j: JobId)
    requires Runs(cfg, Initial(start), steps)
    ensures KeptThroughout(cfg, Initial(start), steps, j) <==> !LosesIn(cfg, Initial(start), steps, j)
  {
    InitialInv(cfg, start);
    KeptThroughoutExactly(cfg, Initial(start), steps, j);
  }

  lemma WorkerRemoval(cfg: Config, s: State, step: Step, key: string)
    requires WorkerEnabled(cfg, s, step)
    requires key in s.store && key !in ApplyWorker(cfg, s, step).store
    ensures step.ClearKeys? || step.CleanUpload?
    ensures Working(s.workers[step.w].pc)
    ensures step.ClearKeys? ==> key in StaleKeys(s.workers[step.w].pc.oldKey, s.workers[step.w].job)
    ensures step.CleanUpload? ==> key == ObjectKey(s.workers[step.w].job)
  {
  }

  /**
   * Only two steps remove a READY job's object: the retention task, once it has
   * expired, and the clean-up of the job's own worker after a late exception.
   */
  lemma OnlyRetentionRemovesReadyObjects(cfg: Config, s: State, step: Step, j: JobId)
    requires Inv(cfg, s) && Enabled(cfg, s, step)
    requires j in s.jobs && s.jobs[j].status == Ready
    requires ObjectKey(j) in s.store && ObjectKey(j) !in Apply(cfg, s, step).store
    ensures || (step.CleanupDelete? && s.jobs[j].expiresAt.Some? && s.jobs[j].expiresAt.value <= s.now)
            || (step.CleanUpload? && step.w in s.workers && s.workers[step.w].job == j && j in s.spoiled)
  {
    if ClientEnabled(cfg, s, step) {
      ClientRemoval(cfg, s, step, j);
    } else {
      WorkerRemoval(cfg, s, step, ObjectKey(j));
      assert WorkerOk(cfg, s, step.w) && JobOk(s, j);
      ObjectKeyInjective(s.workers[step.w].job, j);
    }
  }

  lemma ClientRemoval(cfg: Config, s: State, step: Step, j: JobId)
    requires Inv(cfg, s) && ClientEnabled(cfg, s, step) && j in s.jobs && s.jobs[j].status == Ready
    requires ObjectKey(j) in s.store && ObjectKey(j) !in ApplyClient(cfg, s, step).store
    ensures step.CleanupDelete? && s.jobs[j].expiresAt.Some? && s.jobs[j].expiresAt.value <= s.now
  {
    assert JobOk(s, j) && step.CleanupDelete?;
    var rows := s.clients[step.c].rows;
    assert ClientOk(s, s.clients[step.c]) && rows[0] in rows;
    ObjectKeyInjective(rows[0].0, j);
  }

  // ---------- Status discipline ----------

  /** What a request can make of a row. */
  lemma RequestRow(cfg: Config, s: State, step: Step, j: JobId)
    requires ClientEnabled(cfg, s, step) && IsRequest(step)
    ensures j in s.jobs ==> j in ApplyRequest(s, step).jobs
    ensures var t := ApplyRequest(s, step);
            j in t.jobs ==>
              || (j !in s.created && t.jobs[j] == Created(s.now))
              || (j in s.jobs && t.jobs[j] == s.jobs[j])
              || (j in s.jobs && t.jobs[j] == Reset(s.jobs[j], s.now) && step.Retry? && step.j == j
                  && (s.jobs[j].status == Failed || IsStale(s.jobs[j], s.now, cfg.staleAfter)))
              || (j in s.jobs && s.jobs[j].status == Pending
                  && t.jobs[j] in {s.jobs[j].(queuedAt := Some(s.now)), Unpublished(s.jobs[j], s.now)})
  {}

  lemma RequestStatusMove(cfg: Config, s: State, step: Step, j: JobId)
    requires ClientEnabled(cfg, s, step) && IsRequest(step)
    requires j in s.jobs && j in s.created
    ensures j in ApplyRequest(s, step).jobs
    ensures StatusMove(s.jobs[j].status, ApplyRequest(s, step).jobs[j].status)
    ensures ApplyRequest(s, step).jobs[j].status == Expired ==> s.jobs[j].status == Expired
    ensures s.jobs[j].status == Failed && ApplyRequest(s, step).jobs[j].status != Failed ==> step.Retry? && step.j == j
  {
    RequestRow(cfg, s, step, j);
  }

  lemma ClientStatusMove(cfg: Config, s: State, step: Step, j: JobId)
    requires ClientEnabled(cfg, s, step)
    requires j in s.jobs && j in ApplyClient(cfg, s, step).jobs && j in s.created
    requires step.CleanupSave? && s.clients[step.c].rows[0].0 == j ==>
               s.jobs[j].status == Expired
               || (s.jobs[j].status == Ready && s.jobs[j].expiresAt.Some? && s.jobs[j].expiresAt.value <= s.now)
    ensures StatusMove(s.jobs[j].status, ApplyClient(cfg, s, step).jobs[j].status)
    ensures s.jobs[j].status == Ready && ApplyClient(cfg, s, step).jobs[j].status == Expired ==>
              s.jobs[j].expiresAt.Some? && s.jobs[j].expiresAt.value <= s.now
    ensures s.jobs[j].status == Failed && ApplyClient(cfg, s, step).jobs[j].status != Failed ==>
              step.Retry? && step.j == j
  {
    if IsRequest(step) {
      RequestStatusMove(cfg, s, step, j);
    }
  }

  lemma WorkerRows(cfg: Config, s: State, step: Step, j: JobId)
    requires WorkerEnabled(cfg, s, step)
    ensures j in s.jobs <==> j in ApplyWorker(cfg, s, step).jobs
    ensures j in s.jobs && ApplyWorker(cfg, s, step).jobs[j] != s.jobs[j] ==>
              (step.Begin? || step.Heartbeat? || step.Mark? || step.RecordFailure?) && j == s.workers[step.w].job
    ensures ApplyWorker(cfg, s, step).created == s.created
  {
  }

  lemma WorkerKeepsClients(cfg: Config, s: State, step: Step)
    requires WorkerEnabled(cfg, s, step)
    ensures ApplyWorker(cfg, s, step).clients == s.clients
  {}

  lemma WorkerStatusMove(cfg: Config, s: State, step: Step, j: JobId)
    requires WorkerEnabled(cfg, s, step)
    requires j in s.jobs && j in ApplyWorker(cfg, s, step).jobs
    ensures StatusMove(s.jobs[j].status, ApplyWorker(cfg, s, step).jobs[j].status)
    ensures ApplyWorker(cfg, s, step).jobs[j].status == Expired ==> s.jobs[j].status == Expired
    ensures s.jobs[j].status == Failed ==> ApplyWorker(cfg, s, step).jobs[j].status == Failed
  {
    WorkerRows(cfg, s, step, j);
  }

  /** READY moves only to EXPIRED, EXPIRED is absorbing, FAILED is left only through a retry. */
  lemma StatusMovesOnly(cfg: Config, s: State, step: Step, j: JobId)
    requires Inv(cfg, s) && Enabled(cfg, s, step)
    requires j in s.jobs && j in Apply(cfg, s, step).jobs
    ensures StatusMove(s.jobs[j].status, Apply(cfg, s, step).jobs[j].status)
    ensures s.jobs[j].status == Ready && Apply(cfg, s, step).jobs[j].status == Expired ==>
              s.jobs[j].expiresAt.Some? && s.jobs[j].expiresAt.value <= s.now
    ensures s.jobs[j].status == Failed && Apply(cfg, s, step).jobs[j].status != Failed ==> step.Retry? && step.j == j
    ensures s.jobs[j].status == Expired ==> Apply(cfg, s, step).jobs[j].status == Expired
    ensures s.jobs[j].status == Ready ==> Apply(cfg, s, step).jobs[j].status in {Ready, Expired}
  {
    assert JobOk(s, j);
    if ClientEnabled(cfg, s, step) {
      if step.CleanupSave? {
        var rows := s.clients[step.c].rows;
        assert ClientOk(s, s.clients[step.c]) && rows[0] in rows;
      }
      ClientStatusMove(cfg, s, step, j);
    } else {
      WorkerStatusMove(cfg, s, step, j);
    }
  }

  /** Enters PROCESSING for this job. */
  predicate Enters(cfg: Config, s: State, step: Step, j: JobId) {
    && step.Begin? && step.w in s.workers && s.workers[step.w].job == j
    && j in s.jobs && (s.jobs[j].status == Pending || s.jobs[j].status == Processing)
  }

  function Entries(cfg: Config, s: State, steps: seq<Step>, j: JobId): nat
    requires Runs(cfg, s, steps)
    decreases |steps|
  {
    if steps == [] then 0
    else (if Enters(cfg, s, steps[0], j) then 1 else 0) + Entries(cfg, Apply(cfg, s, steps[0]), steps[1..], j)
  }

  lemma ClientAttempts(cfg: Config, s: State, step: Step, j: JobId)
    requires ClientEnabled(cfg, s, step) && (j in s.jobs ==> j in s.created)
    ensures var t := ApplyClient(cfg, s, step);
            && (j in s.jobs && j in t.jobs ==> t.jobs[j].attemptCount == s.jobs[j].attemptCount)
            && (j !in s.jobs && j in t.jobs ==> j !in s.created && t.jobs[j].attemptCount == 0)
            && s.created <= t.created
  {
    if IsRequest(step) {
      RequestAttempts(cfg, s, step, j);
    } else {
      OtherAttempts(cfg, s, step, j);
    }
  }

  lemma RequestAttempts(cfg: Config, s: State, step: Step, j: JobId)
    requires ClientEnabled(cfg, s, step) && IsRequest(step) && (j in s.jobs ==> j in s.created)
    ensures var t := ApplyRequest(s, step);
            && (j in s.jobs && j in t.jobs ==> t.jobs[j].attemptCount == s.jobs[j].attemptCount)
            && (j !in s.jobs && j in t.jobs ==> j !in s.created && t.jobs[j].attemptCount == 0)
            && s.created <= t.created
  {}

  lemma OtherAttempts(cfg: Config, s: State, step: Step, j: JobId)
    requires ClientEnabled(cfg, s, step) && !IsRequest(step)
    ensures var t := ApplyClient(cfg, s, step);
            && (j in s.jobs && j in t.jobs ==> t.jobs[j].attemptCount == s.jobs[j].attemptCount)
            && (j !in s.jobs ==> j !in t.jobs)
            && s.created <= t.created
  {}

  lemma AttemptStep(cfg: Config, s: State, step: Step, j: JobId)
    requires Enabled(cfg, s, step) && (j in s.jobs ==> j in s.created)
    ensures var t := Apply(cfg, s, step);
            && (j in s.jobs && j in t.jobs ==>
                  t.jobs[j].attemptCount == s.jobs[j].attemptCount + if Enters(cfg, s, step, j) then 1 else 0)
            && (j !in s.jobs && j in t.jobs ==> j !in s.created && t.jobs[j].attemptCount == 0)
            && s.created <= t.created
            && (j !in s.jobs ==> !Enters(cfg, s, step, j))
  {
    if ClientEnabled(cfg, s, step) {
      ClientAttempts(cfg, s, step, j);
    } else {
      WorkerRows(cfg, s, step, j);
    }
  }

  lemma {:induction false} AttemptsFrom(cfg: Config, s: State, steps: seq<Step>, j: JobId)
    requires Inv(cfg, s) && Runs(cfg, s, steps) && j in After(cfg, s, steps).jobs
    ensures j in s.jobs || j !in s.created
    ensures After(cfg, s, steps).jobs[j].attemptCount ==
            Entries(cfg, s, steps, j) + if j in s.jobs then s.jobs[j].attemptCount else 0
    decreases |steps|
  {
    if steps == [] {
      assert JobOk(s, j);
    } else {
      var t := Apply(cfg, s, steps[0]);
      StepKeepsInv(cfg, s, steps[0]);
      assert j in s.jobs ==> JobOk(s, j);
      AttemptStep(cfg, s, steps[0], j);
      AttemptsFrom(cfg, t, steps[1..], j);
    }
  }

  /** `attempt_count` is the number of times the job entered PROCESSING. */
  lemma AttemptCountIsEntries(cfg: Config, start: Time, steps: seq<Step>, j: JobId)
    requires Runs(cfg, Initial(start), steps) && j in After(cfg, Initial(start), steps).jobs
    ensures After(cfg, Initial(start), steps).jobs[j].attemptCount == Entries(cfg, Initial(start), steps, j)
  {
    InitialInv(cfg, start);
    AttemptsFrom(cfg, Initial(start), steps, j);
  }

  // ---------- Ownership under the hard time limit ----------

  /** Celery kills a task at the hard limit, so the clock never outlives a worker by more. */
  predicate InTime(cfg: Config, s: State, step: Step) {
    step.Tick? ==> forall w | w in s.workers :: step.later - s.workers[w].born <= cfg.hardLimit
  }

  predicate TimelyRuns(cfg: Config, s: State, steps: seq<Step>)
    requires Runs(cfg, s, steps)
    decreases |steps|
  {
    steps == [] || (InTime(cfg, s, steps[0]) && TimelyRuns(cfg, Apply(cfg, s, steps[0]), steps[1..]))
  }

  /** A live worker inside the attempt still owns its row, with a recent heartbeat. */
  ghost predicate Owns(s: State, w: WorkerId)
    requires w in s.workers
  {
    var worker := s.workers[w];
    worker.job in s.jobs && worker.job !in s.spoiled && Working(worker.pc) ==>
      && s.jobs[worker.job].status == Processing
      && s.jobs[worker.job].heartbeatAt.Some?
      && s.jobs[worker.job].heartbeatAt.value >= worker.born
  }

  ghost predicate Timed(cfg: Config, s: State) {
    forall w | w in s.workers :: Owns(s, w) && s.now - cfg.hardLimit <= s.workers[w].born <= s.now
  }

  /** A retry, or the recovery of a job still judged stale: the row is reset to PENDING. */
  predicate Takes(cfg: Config, s: State, step: Step, j: JobId) {
    || (step.Retry? && step.j == j)
    || (step.RecoveryTake? && step.c in s.clients && s.clients[step.c].Recovery? && s.clients[step.c].todo != []
        && s.clients[step.c].todo[0] == j && j in s.jobs
        && IsStale(s.jobs[j], s.clients[step.c].now, cfg.staleAfter))
  }

  /** With a stale window longer than the hard limit, no retry or recovery touches a live attempt. */
  lemma NoTakeoverOfLiveWorker(cfg: Config, s: State, step: Step, w: WorkerId)
    requires Inv(cfg, s) && Timed(cfg, s) && cfg.staleAfter > cfg.hardLimit
    requires ClientEnabled(cfg, s, step)
    requires w in s.workers && Working(s.workers[w].pc) && s.workers[w].job in s.jobs
    ensures !Takes(cfg, s, step, s.workers[w].job)
  {
    assert Owns(s, w) && WorkerOk(cfg, s, w) && JobOk(s, s.workers[w].job);
    if step.RecoveryTake? {
      assert ClientOk(s, s.clients[step.c]);
    }
  }

  /** Outside a takeover or a retention save, other parties leave a PROCESSING row as it is. */
  lemma ClientLeavesProcessing(cfg: Config, s: State, step: Step, j: JobId)
    requires ClientEnabled(cfg, s, step) && !Takes(cfg, s, step, j)
    requires j in s.created && j in s.jobs && s.jobs[j].status == Processing
    requires step.CleanupSave? ==> s.clients[step.c].rows[0].0 != j
    ensures j in ApplyClient(cfg, s, step).jobs ==> ApplyClient(cfg, s, step).jobs[j] == s.jobs[j]
  {
    if IsRequest(step) {
      RequestLeavesProcessing(cfg, s, step, j);
    }
  }

  lemma RequestLeavesProcessing(cfg: Config, s: State, step: Step, j: JobId)
    requires ClientEnabled(cfg, s, step) && IsRequest(step) && !Takes(cfg, s, step, j)
    requires j in s.created && j in s.jobs && s.jobs[j].status == Processing
    ensures j in ApplyRequest(s, step).jobs ==> ApplyRequest(s, step).jobs[j] == s.jobs[j]
  {
    RequestRow(cfg, s, step, j);
  }

  lemma ClientKeepsWorkers(cfg: Config, s: State, step: Step)
    requires ClientEnabled(cfg, s, step)
    ensures ApplyClient(cfg, s, step).workers == s.workers && s.now <= ApplyClient(cfg, s, step).now
    ensures ApplyClient(cfg, s, step).spoiled == s.spoiled
  {}

  lemma ClientKeepsOwner(cfg: Config, s: State, step: Step, w: WorkerId)
    requires Inv(cfg, s) && Timed(cfg, s) && cfg.staleAfter > cfg.hardLimit
    requires ClientEnabled(cfg, s, step) && InTime(cfg, s, step) && w in s.workers
    ensures var t := ApplyClient(cfg, s, step);
            w in t.workers && Owns(t, w) && t.now - cfg.hardLimit <= t.workers[w].born <= t.now
  {
    ClientKeepsWorkers(cfg, s, step);
    assert Owns(s, w) && WorkerOk(cfg, s, w);
    var j := s.workers[w].job;
    if Working(s.workers[w].pc) && j !in s.spoiled {
      if j in s.jobs {
        NoTakeoverOfLiveWorker(cfg, s, step, w);
        if step.CleanupSave? {
          var rows := s.clients[step.c].rows;
          assert ClientOk(s, s.clients[step.c]) && rows[0] in rows;
        }
        ClientLeavesProcessing(cfg, s, step, j);
      } else {
        AttemptStep(cfg, s, step, j);
      }
    }
  }

  lemma ClientKeepsTimed(cfg: Config, s: State, step: Step)
    requires Inv(cfg, s) && Timed(cfg, s) && cfg.staleAfter > cfg.hardLimit
    requires ClientEnabled(cfg, s, step) && InTime(cfg, s, step)
    ensures Timed(cfg, ApplyClient(cfg, s, step))
  {
    var t := ApplyClient(cfg, s, step);
    forall w | w in t.workers ensures Owns(t, w) && t.now - cfg.hardLimit <= t.workers[w].born <= t.now {
      ClientKeepsOwner(cfg, s, step, w);
    }
  }

  lemma OwnRowUpdateKeepsOwns(cfg: Config, s: State, step: Step)
    requires WorkerEnabled(cfg, s, step) && IsRowUpdate(step)
    requires Owns(s, step.w) && s.workers[step.w].born <= s.now
    ensures Owns(ApplyRow(cfg, s, step), step.w)
  {
    if step.Begin? {
      BeginOwns(cfg, s, step.w);
    } else if step.Heartbeat? {
      HeartbeatOwns(cfg, s, step.w);
    } else if step.Mark? {
      MarkKeepsOwns(cfg, s, step.w, step.ok);
    }
  }

  lemma BeginOwns(cfg: Config, s: State, w: WorkerId)
    requires WorkerEnabled(cfg, s, Begin(w)) && s.workers[w].born <= s.now
    ensures Owns(ApplyRow(cfg, s, Begin(w)), w)
  {}

  lemma HeartbeatOwns(cfg: Config, s: State, w: WorkerId)
    requires WorkerEnabled(cfg, s, Heartbeat(w)) && Owns(s, w) && s.workers[w].born <= s.now
    ensures Owns(ApplyRow(cfg, s, Heartbeat(w)), w)
  {}

  /** A READY update either leaves the row as it was or leaves the attempt. */
  lemma MarkKeepsOwns(cfg: Config, s: State, w: WorkerId, ok: bool)
    requires WorkerEnabled(cfg, s, Mark(w, ok)) && Owns(s, w)
    ensures Owns(ApplyRow(cfg, s, Mark(w, ok)), w)
  {}

  lemma RowUpdateKeepsTimed(cfg: Config, s: State, step: Step)
    requires Inv(cfg, s) && Timed(cfg, s) && WorkerEnabled(cfg, s, step) && IsRowUpdate(step)
    ensures Timed(cfg, ApplyRow(cfg, s, step))
  {
    var t := ApplyRow(cfg, s, step);
    OwnRowUpdateKeepsOwns(cfg, s, step);
    forall v | v in t.workers && v != step.w ensures Owns(t, v) {
      assert Owns(s, v);
      OnlyOneWorks(cfg, s, v, step.w);
    }
  }

  lemma OnlyOneWorks(cfg: Config, s: State, v: WorkerId, w: WorkerId)
    requires Inv(cfg, s) && v in s.workers && w in s.workers && v != w && !s.workers[w].pc.Received?
    ensures !(s.workers[v].job == s.workers[w].job && Working(s.workers[v].pc))
  {
    assert WorkerOk(cfg, s, v) && WorkerOk(cfg, s, w);
  }

  lemma StorageKeepsTimed(cfg: Config, s: State, step: Step)
    requires Timed(cfg, s) && WorkerEnabled(cfg, s, step) && IsStorage(step)
    ensures Timed(cfg, ApplyStorage(s, step))
  {
    var t := ApplyStorage(s, step);
    forall v | v in t.workers ensures Owns(t, v) {
      assert Owns(s, v);
    }
  }

  lemma MoveKeepsTimed(cfg: Config, s: State, step: Step)
    requires Timed(cfg, s) && 0 <= cfg.hardLimit && WorkerEnabled(cfg, s, step)
    requires !IsStorage(step) && !IsRowUpdate(step)
    ensures Timed(cfg, ApplyMove(cfg, s, step))
  {
    var t := ApplyMove(cfg, s, step);
    forall v | v in t.workers ensures Owns(t, v) && t.now - cfg.hardLimit <= t.workers[v].born <= t.now {
      assert v in s.workers ==> Owns(s, v);
    }
  }

  lemma WorkerKeepsTimed(cfg: Config, s: State, step: Step)
    requires Inv(cfg, s) && Timed(cfg, s) && 0 <= cfg.hardLimit && WorkerEnabled(cfg, s, step)
    ensures Timed(cfg, ApplyWorker(cfg, s, step))
  {
    if IsRowUpdate(step) {
      RowUpdateKeepsTimed(cfg, s, step);
    } else if IsStorage(step) {
      StorageKeepsTimed(cfg, s, step);
    } else {
      MoveKeepsTimed(cfg, s, step);
    }
  }

  lemma {:induction false} TimelyRunIsTimed(cfg: Config, s: State, steps: seq<Step>)
    requires Inv(cfg, s) && Timed(cfg, s) && 0 <= cfg.hardLimit < cfg.staleAfter
    requires Runs(cfg, s, steps) && TimelyRuns(cfg, s, steps)
    ensures Inv(cfg, After(cfg, s, steps)) && Timed(cfg, After(cfg, s, steps))
    decreases |steps|
  {
    if steps == [] {
    } else {
      StepKeepsInv(cfg, s, steps[0]);
      if ClientEnabled(cfg, s, steps[0]) {
        ClientKeepsTimed(cfg, s, steps[0]);
      } else {
        WorkerKeepsTimed(cfg, s, steps[0]);
      }
      TimelyRunIsTimed(cfg, Apply(cfg, s, steps[0]), steps[1..]);
    }
  }

  /**
   * Timed ownership: in every run that respects the hard limit, a worker's READY
   * update hits its row (unless the organization, and so the row, was deleted),
   * and no retry or recovery step can take the job from it.
   */
  lemma ReadyUpdateHitsItsRow(cfg: Config, start: Time, steps: seq<Step>, w: WorkerId)
    requires 0 <= cfg.hardLimit < cfg.staleAfter
    requires Runs(cfg, Initial(start), steps) && TimelyRuns(cfg, Initial(start), steps)
    ensures var s := After(cfg, Initial(start), steps);
            WorkerEnabled(cfg, s, Mark(w, true)) && s.workers[w].job in s.jobs ==>
              && s.jobs[s.workers[w].job].status == Processing
              && Apply(cfg, s, Mark(w, true)).jobs[s.workers[w].job].status == Ready
              && forall step | ClientEnabled(cfg, s, step) :: !Takes(cfg, s, step, s.workers[w].job)
  {
    InitialInv(cfg, start);
    TimelyRunIsTimed(cfg, Initial(start), steps);
    var s := After(cfg, Initial(start), steps);
    if WorkerEnabled(cfg, s, Mark(w, true)) && s.workers[w].job in s.jobs {
      assert Owns(s, w) && WorkerOk(cfg, s, w);
      forall step | ClientEnabled(cfg, s, step) ensures !Takes(cfg, s, step, s.workers[w].job) {
        NoTakeoverOfLiveWorker(cfg, s, step, w);
      }
    }
  }

  // ---------- A run that loses a promised object ----------

  lemma {:induction false} OneMore(cfg: Config, s: State, steps: seq<Step>, step: Step)
    requires Runs(cfg, s, steps) && Enabled(cfg, After(cfg, s, steps), step)
    ensures Runs(cfg, s, steps + [step]) && After(cfg, s, steps + [step]) == Apply(cfg, After(cfg, s, steps), step)
    decreases |steps|
  {
    if steps == [] {
      assert steps + [step] == [step] && [step][1..] == [];
    } else {
      assert (steps + [step])[1..] == steps[1..] + [step];
      OneMore(cfg, Apply(cfg, s, steps[0]), steps[1..], step);
    }
  }

  lemma Then(cfg: Config, start: Time, steps: seq<Step>, step: Step) returns (more: seq<Step>)
    requires Runs(cfg, Initial(start), steps) && Enabled(cfg, After(cfg, Initial(start), steps), step)
    ensures Runs(cfg, Initial(start), more)
    ensures After(cfg, Initial(start), more) == Apply(cfg, After(cfg, Initial(start), steps), step)
  {
    OneMore(cfg, Initial(start), steps, step);
    more := steps + [step];
  }

  /** One job, requested by client 0, before any worker has it. */
  predicate RequestAt(s: State, start: Time, j: JobId, stage: Enqueue) {
    && s.now == start && s.store == {} && s.locks == map[] && s.workers == map[]
    && j in s.jobs && s.jobs[j].status == Pending && s.jobs[j].objectKey == ""
    && 0 in s.clients && s.clients[0] == Request(stage)
  }

  /** Its one attempt, by worker 0. */
  predicate AttemptAt(s: State, start: Time, j: JobId, pc: Pc, status: Status) {
    && s.now == start && j in s.jobs && s.jobs[j].status == status
    && (status != Ready ==> s.jobs[j].objectKey == "")
    && 0 in s.workers && s.workers[0] == Worker(j, start, pc)
  }

  lemma RequestSteps(cfg: Config, s: State, start: Time, j: JobId)
    ensures s == Initial(start) ==>
              Enabled(cfg, s, Create(0, j)) && RequestAt(Apply(cfg, s, Create(0, j)), start, j, Stamping(j))
    ensures RequestAt(s, start, j, Stamping(j)) ==>
              Enabled(cfg, s, Stamp(0)) && RequestAt(Apply(cfg, s, Stamp(0)), start, j, Publishing(j))
    ensures RequestAt(s, start, j, Publishing(j)) ==>
              && Enabled(cfg, s, Publish(0, true, false))
              && var t := Apply(cfg, s, Publish(0, true, false)); RequestAt(t, start, j, Idle) && t.queue[j] > 0
  {}

  lemma ArrivalSteps(cfg: Config, s: State, start: Time, j: JobId)
    ensures RequestAt(s, start, j, Idle) && s.queue[j] > 0 ==>
              && Enabled(cfg, s, Deliver(0, j))
              && var t := Apply(cfg, s, Deliver(0, j)); AttemptAt(t, start, j, Received, Pending) && t.locks == map[]
    ensures AttemptAt(s, start, j, Received, Pending) && s.locks == map[] ==>
              Enabled(cfg, s, TakeLock(0)) && AttemptAt(Apply(cfg, s, TakeLock(0)), start, j, Locked, Pending)
  {}

  lemma BuildSteps(cfg: Config, s: State, start: Time, j: JobId)
    ensures AttemptAt(s, start, j, Locked, Pending) ==>
              Enabled(cfg, s, Begin(0)) && AttemptAt(Apply(cfg, s, Begin(0)), start, j, Building(""), Processing)
    ensures AttemptAt(s, start, j, Building(""), Processing) ==>
              Enabled(cfg, s, Build(0, true))
              && AttemptAt(Apply(cfg, s, Build(0, true)), start, j, Built(""), Processing)
  {}

  lemma StoreSteps(cfg: Config, s: State, start: Time, j: JobId)
    ensures AttemptAt(s, start, j, Built(""), Processing) ==>
              var clear := ClearKeys(0, true, StaleKeys("", j));
              Enabled(cfg, s, clear) && AttemptAt(Apply(cfg, s, clear), start, j, Cleared, Processing)
    ensures AttemptAt(s, start, j, Cleared, Processing) ==>
              Enabled(cfg, s, Save(0, Stored))
              && AttemptAt(Apply(cfg, s, Save(0, Stored)), start, j, Uploaded, Processing)
  {}

  /** READY with this expiry. */
  predicate ReadyUntil(s: State, j: JobId, expiry: Time) {
    j in s.jobs && s.jobs[j].objectKey == ObjectKey(j) && s.jobs[j].expiresAt == Some(expiry)
  }

  lemma MarkStep(cfg: Config, s: State, start: Time, j: JobId)
    ensures AttemptAt(s, start, j, Uploaded, Processing) ==>
              && Enabled(cfg, s, Mark(0, true))
              && var t := Apply(cfg, s, Mark(0, true));
                 AttemptAt(t, start, j, Marked, Ready) && ReadyUntil(t, j, start + cfg.retention)
  {}

  lemma InterruptStep(cfg: Config, s: State, start: Time, j: JobId)
    ensures AttemptAt(s, start, j, Marked, Ready) && ReadyUntil(s, j, start + cfg.retention) ==>
              && Enabled(cfg, s, Interrupt(0))
              && var t := Apply(cfg, s, Interrupt(0));
                 AttemptAt(t, start, j, Failing(true), Ready) && ReadyUntil(t, j, start + cfg.retention)
  {}

  lemma FailureSteps(cfg: Config, s: State, start: Time, j: JobId)
    ensures AttemptAt(s, start, j, Failing(true), Ready) && ReadyUntil(s, j, start + cfg.retention) ==>
              && Enabled(cfg, s, CleanUpload(0, true))
              && var t := Apply(cfg, s, CleanUpload(0, true));
                 AttemptAt(t, start, j, Recording, Ready) && ReadyUntil(t, j, start + cfg.retention)
                 && ObjectKey(j) !in t.store
    ensures AttemptAt(s, start, j, Recording, Ready) && ReadyUntil(s, j, start + cfg.retention)
            && ObjectKey(j) !in s.store ==>
              && Enabled(cfg, s, RecordFailure(0, true))
              && var t := Apply(cfg, s, RecordFailure(0, true));
                 AttemptAt(t, start, j, Done, Ready) && ReadyUntil(t, j, start + cfg.retention)
                 && ObjectKey(j) !in t.store
  {}

  lemma PublishedRun(cfg: Config, start: Time, j: JobId) returns (steps: seq<Step>)
    ensures Runs(cfg, Initial(start), steps)
    ensures var s := After(cfg, Initial(start), steps); RequestAt(s, start, j, Idle) && s.queue[j] > 0
  {
    RequestSteps(cfg, Initial(start), start, j);
    steps := Then(cfg, start, [], Create(0, j));
    RequestSteps(cfg, After(cfg, Initial(start), steps), start, j);
    steps := Then(cfg, start, steps, Stamp(0));
    RequestSteps(cfg, After(cfg, Initial(start), steps), start, j);
    steps := Then(cfg, start, steps, Publish(0, true, false));
  }

  lemma BuiltRun(cfg: Config, start: Time, j: JobId) returns (steps: seq<Step>)
    ensures Runs(cfg, Initial(start), steps)
    ensures AttemptAt(After(cfg, Initial(start), steps), start, j, Built(""), Processing)
  {
    steps := PublishedRun(cfg, start, j);
    ArrivalSteps(cfg, After(cfg, Initial(start), steps), start, j);
    steps := Then(cfg, start, steps, Deliver(0, j));
    ArrivalSteps(cfg, After(cfg, Initial(start), steps), start, j);
    steps := Then(cfg, start, steps, TakeLock(0));
    BuildSteps(cfg, After(cfg, Initial(start), steps), start, j);
    steps := Then(cfg, start, steps, Begin(0));
    BuildSteps(cfg, After(cfg, Initial(start), steps), start, j);
    steps := Then(cfg, start, steps, Build(0, true));
  }

  lemma InterruptedRun(cfg: Config, start: Time, j: JobId) returns (steps: seq<Step>)
    ensures Runs(cfg, Initial(start), steps)
    ensures var s := After(cfg, Initial(start), steps);
            AttemptAt(s, start, j, Failing(true), Ready) && ReadyUntil(s, j, start + cfg.retention)
  {
    steps := BuiltRun(cfg, start, j);
    StoreSteps(cfg, After(cfg, Initial(start), steps), start, j);
    steps := Then(cfg, start, steps, ClearKeys(0, true, StaleKeys("", j)));
    StoreSteps(cfg, After(cfg, Initial(start), steps), start, j);
    steps := Then(cfg, start, steps, Save(0, Stored));
    MarkStep(cfg, After(cfg, Initial(start), steps), start, j);
    steps := Then(cfg, start, steps, Mark(0, true));
    InterruptStep(cfg, After(cfg, Initial(start), steps), start, j);
    steps := Then(cfg, start, steps, Interrupt(0));
  }

  /**
   * For every job: a run of one attempt, interrupted after the READY commit, at
   * whose end the worker is done, the job is READY, and its URL names no object.
   */
  lemma LateInterruptLosesTheObject(cfg: Config, start: Time, j: JobId) returns (steps: seq<Step>)
    requires cfg.retention > 0
    ensures Runs(cfg, Initial(start), steps)
    ensures var s := After(cfg, Initial(start), steps);
            && j in s.jobs && UrlIssued(s.jobs[j], s.now) && s.jobs[j].objectKey !in s.store
            && 0 in s.workers && s.workers[0].pc == Done
  {
    steps := InterruptedRun(cfg, start, j);
    FailureSteps(cfg, After(cfg, Initial(start), steps), start, j);
    steps := Then(cfg, start, steps, CleanUpload(0, true));
    FailureSteps(cfg, After(cfg, Initial(start), steps), start, j);
    steps := Then(cfg, start, steps, RecordFailure(0, true));
  }
}
