/**
 * What each step of the export pipeline writes, column by column, and what that
 * comes to over a run: no attempt that ends leaves its row PROCESSING, and no
 * EXPIRED row leaves its object behind.
 */
module ExportEffects {
  import opened Common
  import opened ExportJobs
  import opened ExportProtocol
  import opened ExportSafety
  import opened ExportTheorems

  // ---------- Requests and tasks ----------

  /** A new job waits with nothing but its creation time. */
  lemma CreatedRow(cfg: Config, s: State, c: ClientId, j: JobId)
    requires ClientEnabled(cfg, s, Create(c, j))
    ensures var t := Apply(cfg, s, Create(c, j));
            && t.jobs == s.jobs[j := Job(Pending, "", s.now, None, None, None, None, None, 0)]
            && t.queue == s.queue && t.store == s.store
  {}

  /** A retry puts the row back to PENDING, keeps its key and attempts, and goes on to enqueue it. */
  lemma RetriedRow(cfg: Config, s: State, c: ClientId, j: JobId)
    requires ClientEnabled(cfg, s, Retry(c, j))
    ensures var t := Apply(cfg, s, Retry(c, j));
            var row := s.jobs[j];
            && t.jobs == s.jobs[j := Job(Pending, row.objectKey, row.createdAt, Some(s.now), None, None, None, None,
                                         row.attemptCount)]
            && t.clients == s.clients[c := Request(Stamping(j))]
            && t.queue == s.queue && t.store == s.store
  {}

  /** Enqueueing stamps a PENDING row and no other, and publishes only what it has stamped. */
  lemma StampedRow(cfg: Config, s: State, c: ClientId)
    requires ClientEnabled(cfg, s, Stamp(c))
    ensures var j := s.clients[c].stage.job;
            var t := Apply(cfg, s, Stamp(c));
            if j in s.jobs && s.jobs[j].status == Pending then
              && t.jobs == s.jobs[j := s.jobs[j].(queuedAt := Some(s.now))]
              && c in t.clients && (t.clients[c].Request? || t.clients[c].Recovery?)
                 && t.clients[c].stage == Publishing(j)
            else
              && t.jobs == s.jobs
              && c in t.clients && (t.clients[c].Request? || t.clients[c].Recovery?) && t.clients[c].stage == Idle
  {}

  /** A publish that raises leads to the rejection, whether or not the message went out. */
  lemma PublishedMessage(cfg: Config, s: State, c: ClientId, sent: bool, raised: bool)
    requires ClientEnabled(cfg, s, Publish(c, sent, raised))
    ensures var j := s.clients[c].stage.job;
            var t := Apply(cfg, s, Publish(c, sent, raised));
            && t.jobs == s.jobs && t.store == s.store
            && t.queue == (if sent then s.queue + multiset{j} else s.queue)
            && c in t.clients && (t.clients[c].Request? || t.clients[c].Recovery?)
            && t.clients[c].stage == if raised then Rejecting(j) else Idle
  {}

  /** A failed publish leaves a PENDING row FAILED, so that it can be retried at once; another row stays. */
  lemma RejectedRow(cfg: Config, s: State, c: ClientId, retrying: ClientId)
    requires ClientEnabled(cfg, s, Reject(c))
    ensures var j := s.clients[c].stage.job;
            var t := Apply(cfg, s, Reject(c));
            if j in s.jobs && s.jobs[j].status == Pending then
              var row := s.jobs[j];
              && t.jobs == s.jobs[j := Job(Failed, row.objectKey, row.createdAt, row.queuedAt, row.startedAt,
                                           row.heartbeatAt, Some(s.now), row.expiresAt, row.attemptCount)]
              && (retrying !in t.clients ==> Enabled(cfg, t, Retry(retrying, j)))
            else t.jobs == s.jobs
  {}

  /**
   * The recovery task resets the first listed job if it is still stale by the time of the
   * scan, and drops it from its list.
   */
  lemma RecoveredRow(cfg: Config, s: State, c: ClientId)
    requires ClientEnabled(cfg, s, RecoveryTake(c))
    ensures var task := s.clients[c];
            var j := task.todo[0];
            var t := Apply(cfg, s, RecoveryTake(c));
            if j in s.jobs && IsStale(s.jobs[j], task.now, cfg.staleAfter) then
              var row := s.jobs[j];
              && t.jobs ==
                   s.jobs[j := Job(Pending, row.objectKey, row.createdAt, Some(task.now), None, None, None, None,
                                           row.attemptCount)]
              && t.clients == s.clients[c := Recovery(task.now, task.todo[1..], Stamping(j))]
            else
              t.jobs == s.jobs && t.clients == s.clients[c := Recovery(task.now, task.todo[1..], Idle)]
  {}

  /** Retention lists READY rows past their expiry, each with its key. */
  lemma RetentionLists(cfg: Config, s: State, c: ClientId, rows: seq<(JobId, string)>, i: nat)
    requires ClientEnabled(cfg, s, CleanupScan(c, rows)) && i < |rows|
    ensures && rows[i].0 in s.jobs && s.jobs[rows[i].0].status == Ready
            && s.jobs[rows[i].0].expiresAt.Some? && s.jobs[rows[i].0].expiresAt.value <= s.now
            && rows[i].1 == s.jobs[rows[i].0].objectKey
  {
    assert RetentionSelects(s, rows[i]);
  }

  /** A successful delete takes the listed object away; after a failing one the row is skipped. */
  lemma RetentionDeletes(cfg: Config, s: State, c: ClientId, ok: bool)
    requires Inv(cfg, s) && ClientEnabled(cfg, s, CleanupDelete(c, ok))
    ensures var rows := s.clients[c].rows;
            var t := Apply(cfg, s, CleanupDelete(c, ok));
            && t.jobs == s.jobs
            && t.store == (if ok then s.store - {ObjectKey(rows[0].0)} else s.store)
            && t.clients == s.clients[c := if ok then Cleanup(rows, true) else Cleanup(rows[1..], false)]
  {
    var rows := s.clients[c].rows;
    assert ClientOk(s, s.clients[c]) && rows[0] in rows;
  }

  /** The row whose object is deleted becomes EXPIRED and names no object. */
  lemma RetiredRow(cfg: Config, s: State, c: ClientId)
    requires ClientEnabled(cfg, s, CleanupSave(c))
    ensures var j := s.clients[c].rows[0].0;
            var t := Apply(cfg, s, CleanupSave(c));
            && t.store == s.store
            && if j in s.jobs then
                 var row := s.jobs[j];
                 t.jobs == s.jobs[j := Job(Expired, "", row.createdAt, row.queuedAt, row.startedAt, row.heartbeatAt,
                                           row.completedAt, row.expiresAt, row.attemptCount)]
               else t.jobs == s.jobs
  {}

  /** A read keeps a copy of the row, a scan the time and the list; a deletion takes one row, an end one client. */
  lemma QuietSteps(cfg: Config, s: State, step: Step)
    requires ClientEnabled(cfg, s, step)
    ensures var t := Apply(cfg, s, step);
            && (step.Read? ==> t == s.(clients := s.clients[step.c := Reader(step.j, s.jobs[step.j])]))
            && (step.RecoveryScan? ==> t == s.(clients := s.clients[step.c := Recovery(s.now, step.found, Idle)]))
            && (step.CleanupScan? ==> t == s.(clients := s.clients[step.c := Cleanup(step.rows, false)]))
            && (step.ClientGone? ==> t == s.(clients := s.clients - {step.c}))
            && (step.DeleteRow? ==> t == s.(jobs := s.jobs - {step.j}))
            && (step.Tick? ==> t == s.(now := step.later))
  {}

  // ---------- The worker ----------

  /** A delivered message stays queued until it is acknowledged. */
  lemma DeliveredMessage(cfg: Config, s: State, w: WorkerId, j: JobId)
    requires WorkerEnabled(cfg, s, Deliver(w, j))
    ensures Apply(cfg, s, Deliver(w, j)) == s.(workers := s.workers[w := Worker(j, s.now, Received)])
  {}

  /** The worker's own moves: to the complete archive, out of the try block, or by a late exception to the clean-up. */
  lemma AdvancedWorker(cfg: Config, s: State, step: Step)
    requires WorkerEnabled(cfg, s, step) && (step.LeaveTry? || step.Interrupt? || (step.Build? && step.ok))
    ensures var t := Apply(cfg, s, step);
            && t.jobs == s.jobs && t.store == s.store && t.locks == s.locks && t.queue == s.queue
            && t.workers == s.workers[step.w := Worker(s.workers[step.w].job, s.workers[step.w].born,
                                                       if step.LeaveTry? then Done
                                                       else if step.Interrupt? then Failing(true)
                                                       else Built(s.workers[step.w].pc.oldKey))]
  {}

  /** The first transaction of an attempt. */
  lemma BegunRow(cfg: Config, s: State, w: WorkerId)
    requires WorkerEnabled(cfg, s, Begin(w))
    ensures var j := s.workers[w].job;
            var t := Apply(cfg, s, Begin(w));
            && w in t.workers
            && if j in s.jobs && (s.jobs[j].status == Pending || s.jobs[j].status == Processing) then
                 var row := s.jobs[j];
                 && t.jobs == s.jobs[j := Job(Processing, row.objectKey, row.createdAt, row.queuedAt, Some(s.now),
                                              Some(s.now), None, None, row.attemptCount + 1)]
                 && t.workers[w].pc == Building(row.objectKey)
               else t.jobs == s.jobs && t.workers[w].pc == Done
  {}

  lemma HeartbeatRow(cfg: Config, s: State, w: WorkerId)
    requires WorkerEnabled(cfg, s, Heartbeat(w))
    ensures var j := s.workers[w].job;
            var t := Apply(cfg, s, Heartbeat(w));
            && t.workers == s.workers
            && t.jobs == if j in s.jobs && s.jobs[j].status == Processing
                         then s.jobs[j := s.jobs[j].(heartbeatAt := Some(s.now))] else s.jobs
  {}

  /** The READY update, or the failure that follows when it raises or finds no PROCESSING row. */
  lemma MarkedRow(cfg: Config, s: State, w: WorkerId, ok: bool)
    requires WorkerEnabled(cfg, s, Mark(w, ok))
    ensures var j := s.workers[w].job;
            var t := Apply(cfg, s, Mark(w, ok));
            && w in t.workers
            && if ok && j in s.jobs && s.jobs[j].status == Processing then
                 var row := s.jobs[j];
                 && t.jobs ==
                      s.jobs[j := Job(Ready, ObjectKey(j), row.createdAt, row.queuedAt, row.startedAt, Some(s.now),
                                              Some(s.now), Some(s.now + cfg.retention), row.attemptCount)]
                 && t.workers[w].pc == Marked
               else t.jobs == s.jobs && t.workers[w].pc == Failing(true)
  {}

  lemma RecordedRow(cfg: Config, s: State, w: WorkerId)
    requires WorkerEnabled(cfg, s, RecordFailure(w, true))
    ensures var j := s.workers[w].job;
            var t := Apply(cfg, s, RecordFailure(w, true));
            && w in t.workers && t.workers[w].pc == Done && t.clients == s.clients
            && t.jobs == if j in s.jobs && s.jobs[j].status == Processing
                         then s.jobs[j := s.jobs[j].(status := Failed, heartbeatAt := Some(s.now),
                                                     completedAt := Some(s.now))]
                         else s.jobs
  {}

  /**
   * A failed attempt is recorded: its PROCESSING row becomes FAILED now, keeps
   * its key and attempts, and can be retried at once. A row in another state is
   * left alone, and in either case the row is not PROCESSING afterwards.
   */
  lemma RecordedFailure(cfg: Config, s: State, w: WorkerId, retrying: ClientId)
    requires WorkerEnabled(cfg, s, RecordFailure(w, true))
    ensures var j := s.workers[w].job;
            var t := Apply(cfg, s, RecordFailure(w, true));
            && (j in t.jobs ==> t.jobs[j].status != Processing)
            && w in t.workers && t.workers[w].pc == Done
            && if j in s.jobs && s.jobs[j].status == Processing then
                 var row := s.jobs[j];
                 && t.jobs == s.jobs[j := Job(Failed, row.objectKey, row.createdAt, row.queuedAt, row.startedAt,
                                              Some(s.now), Some(s.now), row.expiresAt, row.attemptCount)]
                 && (retrying !in t.clients ==> Enabled(cfg, t, Retry(retrying, j)))
               else t.jobs == s.jobs
  {
    RecordedRow(cfg, s, w);
  }

  /** Every exception on the way to the object leads to the clean-up, and the clean-up to the record. */
  lemma FailuresLeadToTheRecord(cfg: Config, s: State, step: Step)
    requires WorkerEnabled(cfg, s, step)
    requires || (step.Build? && !step.ok) || (step.ClearKeys? && !step.ok) || (step.Save? && step.outcome != Stored)
             || step.CleanUpload?
    ensures var t := Apply(cfg, s, step);
            && t.jobs == s.jobs && t.locks == s.locks && t.queue == s.queue
            && step.w in t.workers
            && t.workers[step.w].pc == if step.CleanUpload? then Recording else Failing(false)
  {}

  /** A successful clearing deletes the deterministic key, so that the storage can keep that name for the save. */
  lemma ClearedKeysAreGone(cfg: Config, s: State, w: WorkerId, removed: set<string>)
    requires WorkerEnabled(cfg, s, ClearKeys(w, true, removed))
    ensures var t := Apply(cfg, s, ClearKeys(w, true, removed));
            && ObjectKey(s.workers[w].job) !in t.store
            && (s.workers[w].pc.oldKey != "" ==> s.workers[w].pc.oldKey !in t.store)
            && (forall key | key in s.store && key != ObjectKey(s.workers[w].job) && key != s.workers[w].pc.oldKey ::
                  key in t.store)
            && t.store <= s.store && t.jobs == s.jobs
  {}

  /** What the storage call leaves behind in each of its outcomes. */
  lemma SavedObject(cfg: Config, s: State, w: WorkerId, outcome: Saved)
    requires WorkerEnabled(cfg, s, Save(w, outcome))
    ensures var key := ObjectKey(s.workers[w].job);
            var t := Apply(cfg, s, Save(w, outcome));
            && t.jobs == s.jobs
            && (outcome.Stored? ==> t.store == s.store + {key} && w in t.workers && t.workers[w].pc == Uploaded)
            && (outcome.Renamed? && outcome.leftBehind ==> t.store == s.store + {outcome.other})
            && (outcome.Renamed? && !outcome.leftBehind ==> t.store == s.store)
            && (outcome.SaveError? ==> t.store == if outcome.stored then s.store + {key} else s.store)
  {
    assert outcome.Renamed? ==> s.store + {outcome.other} - {outcome.other} == s.store;
  }

  /** The clean-up deletes the uploaded object, if there is one and the delete succeeds, and nothing else. */
  lemma CleanedUpload(cfg: Config, s: State, w: WorkerId, dropped: bool)
    requires WorkerEnabled(cfg, s, CleanUpload(w, dropped))
    ensures Apply(cfg, s, CleanUpload(w, dropped)).store ==
              if s.workers[w].pc == Failing(true) && dropped then s.store - {ObjectKey(s.workers[w].job)} else s.store
  {}

  /** A busy lock ends the duplicate delivery, a free one is taken and nobody else's is touched. */
  lemma TakenLock(cfg: Config, s: State, w: WorkerId)
    requires WorkerEnabled(cfg, s, TakeLock(w))
    ensures var id := cfg.lockId(s.workers[w].job);
            var t := Apply(cfg, s, TakeLock(w));
            && t.jobs == s.jobs && t.store == s.store
            && if id in s.locks then
                 t.locks == s.locks && t.workers == s.workers - {w} && t.queue == s.queue - multiset{s.workers[w].job}
               else
                 t.locks == s.locks[id := w] && t.queue == s.queue && w in t.workers && t.workers[w].pc == Locked
  {}

  /** A worker that ends or dies frees its lock; only an acknowledged end takes the message from the queue. */
  lemma Departure(cfg: Config, s: State, step: Step)
    requires Inv(cfg, s) && WorkerEnabled(cfg, s, step) && (step.Release? || step.Crash?)
    ensures var worker := s.workers[step.w];
            var t := Apply(cfg, s, step);
            && t.jobs == s.jobs && t.store == s.store && t.workers == s.workers - {step.w}
            && (forall id :: id in t.locks <==>
                  (id in s.locks && (worker.pc.Received? || id != cfg.lockId(worker.job))))
            && (forall id | id in t.locks :: t.locks[id] == s.locks[id])
            && t.queue == if step.Release? && step.acked then s.queue - multiset{worker.job} else s.queue
  {}

  // ---------- No attempt that ends leaves its row PROCESSING ----------

  /** A worker that is through with j, or has only to leave its try block. */
  predicate Through(s: State, w: WorkerId, j: JobId) {
    w in s.workers && s.workers[w].job == j && (s.workers[w].pc.Done? || s.workers[w].pc.Marked?)
  }

  ghost predicate Settled(s: State, j: JobId) {
    j in s.jobs && s.jobs[j].status == Processing ==> forall w :: !Through(s, w, j)
  }

  /** The record of a failure is lost while the row is PROCESSING: the database update itself raises. */
  predicate LosesRecord(s: State, step: Step, j: JobId) {
    && step.RecordFailure? && !step.ok && step.w in s.workers && s.workers[step.w].job == j
    && j in s.jobs && s.jobs[j].status == Processing
  }

  /** Only the first transaction of an attempt makes a row PROCESSING. */
  lemma ClientStartsNothing(cfg: Config, s: State, step: Step, j: JobId)
    requires ClientEnabled(cfg, s, step)
    requires j in ApplyClient(cfg, s, step).jobs && ApplyClient(cfg, s, step).jobs[j].status == Processing
    ensures j in s.jobs && s.jobs[j].status == Processing
  {
    if IsRequest(step) {
      RequestRow(cfg, s, step, j);
    }
  }

  lemma ClientKeepsSettled(cfg: Config, s: State, step: Step, j: JobId)
    requires ClientEnabled(cfg, s, step) && Settled(s, j)
    ensures Settled(ApplyClient(cfg, s, step), j)
  {
    var t := ApplyClient(cfg, s, step);
    ClientKeepsWorkers(cfg, s, step);
    if j in t.jobs && t.jobs[j].status == Processing {
      ClientStartsNothing(cfg, s, step, j);
      forall w ensures !Through(t, w, j) {
        assert !Through(s, w, j);
      }
    }
  }

  lemma BeginKeepsSettled(cfg: Config, s: State, w: WorkerId, j: JobId)
    requires Inv(cfg, s) && WorkerEnabled(cfg, s, Begin(w)) && Settled(s, j)
    ensures Settled(ApplyWorker(cfg, s, Begin(w)), j)
  {
    var t := ApplyWorker(cfg, s, Begin(w));
    BegunRow(cfg, s, w);
    forall v | Through(t, v, j) ensures !(j in t.jobs && t.jobs[j].status == Processing) {
      if v != w {
        assert Through(s, v, j);
        if s.workers[w].job == j {
          LockExcludes(cfg, s, v, w);
        }
      }
    }
  }

  lemma RecordSettlesExactly(cfg: Config, s: State, w: WorkerId, ok: bool, j: JobId)
    requires WorkerEnabled(cfg, s, RecordFailure(w, ok)) && Settled(s, j)
    ensures Settled(ApplyWorker(cfg, s, RecordFailure(w, ok)), j) <==> !LosesRecord(s, RecordFailure(w, ok), j)
  {
    var t := ApplyWorker(cfg, s, RecordFailure(w, ok));
    assert s.workers[w].job == j ==> Through(t, w, j);
    forall v | v != w ensures Through(t, v, j) <==> Through(s, v, j) {
    }
  }

  lemma MarkKeepsSettled(cfg: Config, s: State, w: WorkerId, ok: bool, j: JobId)
    requires WorkerEnabled(cfg, s, Mark(w, ok)) && Settled(s, j)
    ensures Settled(ApplyWorker(cfg, s, Mark(w, ok)), j)
  {
    var t := ApplyWorker(cfg, s, Mark(w, ok));
    MarkedRow(cfg, s, w, ok);
    forall v | Through(t, v, j) ensures v == w || Through(s, v, j) {
    }
  }

  lemma MoveKeepsSettled(cfg: Config, s: State, step: Step, j: JobId)
    requires WorkerEnabled(cfg, s, step) && Settled(s, j) && !IsRowUpdate(step)
    ensures Settled(ApplyWorker(cfg, s, step), j)
  {
    var t := ApplyWorker(cfg, s, step);
    assert t.jobs == s.jobs;
    forall v | Through(t, v, j) ensures Through(s, v, j) {
      if IsStorage(step) {
        StorageEndsNothing(cfg, s, step, v, j);
      }
    }
  }

  lemma StorageEndsNothing(cfg: Config, s: State, step: Step, v: WorkerId, j: JobId)
    requires WorkerEnabled(cfg, s, step) && IsStorage(step) && Through(ApplyStorage(s, step), v, j)
    ensures Through(s, v, j)
  {}

  /** One step leaves a PROCESSING row behind an ended attempt exactly when it loses the record of a failure. */
  lemma StepSettlesExactly(cfg: Config, s: State, step: Step, j: JobId)
    requires Inv(cfg, s) && Enabled(cfg, s, step) && Settled(s, j)
    ensures Settled(Apply(cfg, s, step), j) <==> !LosesRecord(s, step, j)
  {
    if ClientEnabled(cfg, s, step) {
      ClientKeepsSettled(cfg, s, step, j);
    } else if IsRowUpdate(step) {
      RowUpdateSettlesExactly(cfg, s, step, j);
    } else {
      MoveKeepsSettled(cfg, s, step, j);
    }
  }

  lemma RowUpdateSettlesExactly(cfg: Config, s: State, step: Step, j: JobId)
    requires Inv(cfg, s) && WorkerEnabled(cfg, s, step) && IsRowUpdate(step) && Settled(s, j)
    ensures Settled(ApplyWorker(cfg, s, step), j) <==> !LosesRecord(s, step, j)
  {
    if step.Begin? {
      BeginKeepsSettled(cfg, s, step.w, j);
    } else if step.Heartbeat? {
      HeartbeatKeepsSettled(cfg, s, step.w, j);
    } else if step.Mark? {
      MarkKeepsSettled(cfg, s, step.w, step.ok, j);
    } else {
      RecordSettlesExactly(cfg, s, step.w, step.ok, j);
    }
  }

  lemma HeartbeatKeepsSettled(cfg: Config, s: State, w: WorkerId, j: JobId)
    requires WorkerEnabled(cfg, s, Heartbeat(w)) && Settled(s, j)
    ensures Settled(ApplyWorker(cfg, s, Heartbeat(w)), j)
  {
    var t := ApplyWorker(cfg, s, Heartbeat(w));
    HeartbeatRow(cfg, s, w);
    forall v ensures Through(t, v, j) <==> Through(s, v, j) {
    }
  }

  ghost predicate SettledThroughout(cfg: Config, s: State, steps: seq<Step>, j: JobId)
    requires Runs(cfg, s, steps)
    decreases |steps|
  {
    Settled(s, j) && (steps != [] ==> SettledThroughout(cfg, Apply(cfg, s, steps[0]), steps[1..], j))
  }

  predicate LosesRecordIn(cfg: Config, s: State, steps: seq<Step>, j: JobId)
    requires Runs(cfg, s, steps)
    decreases |steps|
  {
    steps != [] && (LosesRecord(s, steps[0], j) || LosesRecordIn(cfg, Apply(cfg, s, steps[0]), steps[1..], j))
  }

  lemma {:induction false} SettledThroughoutExactly(cfg: Config, s: State, steps: seq<Step>, j: JobId)
    requires Inv(cfg, s) && Runs(cfg, s, steps) && Settled(s, j)
    ensures SettledThroughout(cfg, s, steps, j) <==> !LosesRecordIn(cfg, s, steps, j)
    decreases |steps|
  {
    if steps == [] {
    } else {
      StepKeepsInv(cfg, s, steps[0]);
      StepSettlesExactly(cfg, s, steps[0], j);
      if Settled(Apply(cfg, s, steps[0]), j) {
        SettledThroughoutExactly(cfg, Apply(cfg, s, steps[0]), steps[1..], j);
      }
    }
  }

  /**
   * Over all runs: in every state, an attempt that has ended, by READY, by a
   * recorded failure or by doing nothing, has left its row in another state than
   * PROCESSING, exactly when no update that records a failure is lost.
   */
  lemma EndedAttemptsSettleExactly(cfg: Config, start: Time, steps: seq<Step>, j: JobId)
    requires Runs(cfg, Initial(start), steps)
    ensures SettledThroughout(cfg, Initial(start), steps, j) <==> !LosesRecordIn(cfg, Initial(start), steps, j)
  {
    InitialInv(cfg, start);
    SettledThroughoutExactly(cfg, Initial(start), steps, j);
  }

  // ---------- An EXPIRED row leaves no object behind ----------

  /** The row of j is EXPIRED, or a retention task has deleted its object and is about to say so. */
  ghost predicate Retiring(s: State, j: JobId) {
    || (j in s.jobs && s.jobs[j].status == Expired)
    || exists c :: RetiredBy(s, c, j)
  }

  predicate RetiredBy(s: State, c: ClientId, j: JobId) {
    && c in s.clients && s.clients[c].Cleanup? && s.clients[c].deleted
    && s.clients[c].rows != [] && s.clients[c].rows[0].0 == j
  }

  ghost predicate Gone(s: State, j: JobId) {
    Retiring(s, j) ==> ObjectKey(j) !in s.store
  }

  /** The storage gives another job's object the very name of j's, and then fails to delete it. */
  ghost predicate Misnames(s: State, step: Step, j: JobId) {
    step.Save? && step.outcome == Renamed(ObjectKey(j), true) && Retiring(s, j)
  }

  lemma RetiringIsSealed(cfg: Config, s: State, j: JobId)
    requires Inv(cfg, s) && Retiring(s, j)
    ensures j in s.sealed
  {
    if j in s.jobs && s.jobs[j].status == Expired {
      assert JobOk(s, j);
    } else {
      var c :| RetiredBy(s, c, j);
      assert ClientOk(s, s.clients[c]) && s.clients[c].rows[0] in s.clients[c].rows;
    }
  }

  /** No request makes a row EXPIRED or moves a retention task. */
  lemma RequestRetiresNothing(cfg: Config, s: State, step: Step, j: JobId)
    requires ClientEnabled(cfg, s, step) && IsRequest(step) && Retiring(ApplyRequest(s, step), j)
    ensures Retiring(s, j)
  {
    var t := ApplyRequest(s, step);
    RequestRow(cfg, s, step, j);
    if c :| RetiredBy(t, c, j) {
      assert RetiredBy(s, c, j);
    }
  }

  lemma DeleteKeepsGone(cfg: Config, s: State, c: ClientId, ok: bool, j: JobId)
    requires Inv(cfg, s) && ClientEnabled(cfg, s, CleanupDelete(c, ok)) && Gone(s, j)
    ensures Gone(ApplyClient(cfg, s, CleanupDelete(c, ok)), j)
  {
    var t := ApplyClient(cfg, s, CleanupDelete(c, ok));
    RetentionDeletes(cfg, s, c, ok);
    if Retiring(t, j) && !Retiring(s, j) {
      var d :| RetiredBy(t, d, j);
      assert d == c || RetiredBy(s, d, j);
    }
  }

  lemma SaveKeepsGone(cfg: Config, s: State, c: ClientId, j: JobId)
    requires ClientEnabled(cfg, s, CleanupSave(c)) && Gone(s, j)
    ensures Gone(ApplyClient(cfg, s, CleanupSave(c)), j)
  {
    var t := ApplyClient(cfg, s, CleanupSave(c));
    if Retiring(t, j) && !Retiring(s, j) {
      assert s.clients[c].rows[0].0 == j ==> RetiredBy(s, c, j);
      if d :| RetiredBy(t, d, j) {
        assert RetiredBy(s, d, j);
      }
    }
  }

  lemma OtherTaskRetiresNothing(cfg: Config, s: State, step: Step, j: JobId)
    requires ClientEnabled(cfg, s, step) && !IsRequest(step) && !step.CleanupDelete? && !step.CleanupSave?
    requires Retiring(ApplyClient(cfg, s, step), j)
    ensures Retiring(s, j) && ApplyClient(cfg, s, step).store == s.store
  {
    var t := ApplyClient(cfg, s, step);
    if c :| RetiredBy(t, c, j) {
      assert RetiredBy(s, c, j);
    }
  }

  lemma ClientKeepsGone(cfg: Config, s: State, step: Step, j: JobId)
    requires Inv(cfg, s) && ClientEnabled(cfg, s, step) && Gone(s, j)
    ensures Gone(ApplyClient(cfg, s, step), j)
  {
    if step.CleanupDelete? {
      DeleteKeepsGone(cfg, s, step.c, step.ok, j);
    } else if step.CleanupSave? {
      SaveKeepsGone(cfg, s, step.c, j);
    } else if Retiring(ApplyClient(cfg, s, step), j) {
      if IsRequest(step) {
        RequestRetiresNothing(cfg, s, step, j);
      } else {
        OtherTaskRetiresNothing(cfg, s, step, j);
      }
    }
  }

  lemma WorkerRetiresNothing(cfg: Config, s: State, step: Step, j: JobId)
    requires WorkerEnabled(cfg, s, step)
    ensures Retiring(ApplyWorker(cfg, s, step), j) <==> Retiring(s, j)
  {
    var t := ApplyWorker(cfg, s, step);
    WorkerRows(cfg, s, step, j);
    if j in s.jobs {
      WorkerStatusMove(cfg, s, step, j);
    }
    WorkerKeepsClients(cfg, s, step);
    assert forall c :: RetiredBy(t, c, j) <==> RetiredBy(s, c, j);
  }

  lemma UploadIsOfAnother(cfg: Config, s: State, w: WorkerId, j: JobId)
    requires Inv(cfg, s) && Retiring(s, j) && WorkerAt(s, w, {Cleared})
    ensures ObjectKey(s.workers[w].job) != ObjectKey(j)
  {
    RetiringIsSealed(cfg, s, j);
    assert WorkerOk(cfg, s, w);
    if ObjectKey(s.workers[w].job) == ObjectKey(j) {
      ObjectKeyInjective(s.workers[w].job, j);
    }
  }

  lemma OnlySaveStores(cfg: Config, s: State, step: Step)
    requires WorkerEnabled(cfg, s, step) && !step.Save?
    ensures ApplyWorker(cfg, s, step).store <= s.store
  {}

  /** A worker stores only its own object, unless the storage chooses the name. */
  lemma WorkerKeepsGoneExactly(cfg: Config, s: State, step: Step, j: JobId)
    requires Inv(cfg, s) && WorkerEnabled(cfg, s, step) && Gone(s, j)
    ensures Gone(ApplyWorker(cfg, s, step), j) <==> !Misnames(s, step, j)
  {
    WorkerRetiresNothing(cfg, s, step, j);
    if step.Save? {
      if Retiring(s, j) {
        UploadIsOfAnother(cfg, s, step.w, j);
        SavedObject(cfg, s, step.w, step.outcome);
      }
    } else {
      OnlySaveStores(cfg, s, step);
    }
  }

  ghost predicate GoneThroughout(cfg: Config, s: State, steps: seq<Step>, j: JobId)
    requires Runs(cfg, s, steps)
    decreases |steps|
  {
    Gone(s, j) && (steps != [] ==> GoneThroughout(cfg, Apply(cfg, s, steps[0]), steps[1..], j))
  }

  ghost predicate MisnamedIn(cfg: Config, s: State, steps: seq<Step>, j: JobId)
    requires Runs(cfg, s, steps)
    decreases |steps|
  {
    steps != [] && (Misnames(s, steps[0], j) || MisnamedIn(cfg, Apply(cfg, s, steps[0]), steps[1..], j))
  }

  lemma {:induction false} GoneThroughoutExactly(cfg: Config, s: State, steps: seq<Step>, j: JobId)
    requires Inv(cfg, s) && Runs(cfg, s, steps) && Gone(s, j)
    ensures GoneThroughout(cfg, s, steps, j) <==> !MisnamedIn(cfg, s, steps, j)
    decreases |steps|
  {
    if steps == [] {
    } else {
      StepKeepsInv(cfg, s, steps[0]);
      if ClientEnabled(cfg, s, steps[0]) {
        ClientKeepsGone(cfg, s, steps[0], j);
      } else {
        WorkerKeepsGoneExactly(cfg, s, steps[0], j);
      }
      if Gone(Apply(cfg, s, steps[0]), j) {
        GoneThroughoutExactly(cfg, Apply(cfg, s, steps[0]), steps[1..], j);
      }
    }
  }

  /**
   * Over all runs: an EXPIRED job's object is gone in every state, exactly when
   * the storage never gives its name to another job's object and keeps that.
   */
  lemma ExpiredObjectsAreGoneExactly(cfg: Config, start: Time, steps: seq<Step>, j: JobId)
    requires Runs(cfg, Initial(start), steps)
    ensures GoneThroughout(cfg, Initial(start), steps, j) <==> !MisnamedIn(cfg, Initial(start), steps, j)
  {
    InitialInv(cfg, start);
    GoneThroughoutExactly(cfg, Initial(start), steps, j);
  }
}
