/** What holds in every interleaving of the export pipeline. */
module ExportSafety {
  import opened Common
  import opened ExportJobs
  import opened ExportProtocol

  lemma InitialInv(cfg: Config, now: Time)
    ensures Inv(cfg, Initial(now))
  {
  }

  // ---------- Single changes that keep the invariant ----------

  lemma UnsealedJobKeepsInv(cfg: Config, s: State, j: JobId, job: Job)
    requires Inv(cfg, s) && j in s.created && j !in s.sealed
    requires job.status != Ready && job.status != Expired && job.objectKey == ""
    ensures Inv(cfg, SetJob(s, j, job))
  {
  }

  lemma ClientKeepsInv(cfg: Config, s: State, c: ClientId, client: Client)
    requires Inv(cfg, s) && ClientOk(s, client)
    ensures Inv(cfg, SetClient(s, c, client))
  {
  }

  lemma PcKeepsInv(cfg: Config, s: State, w: WorkerId, pc: Pc)
    requires Inv(cfg, s) && w in s.workers
    requires WorkerOk(cfg, SetPc(s, w, pc), w)
    ensures Inv(cfg, SetPc(s, w, pc))
  {
  }

  /** Deleting keys is harmless when no live promise and no finished upload names them. */
  lemma RemovalKeepsInv(cfg: Config, s: State, removed: set<string>)
    requires Inv(cfg, s)
    requires forall j | j in s.sealed && s.sealed[j] > s.now && j !in s.spoiled :: ObjectKey(j) !in removed
    requires forall w | w in s.workers && s.workers[w].pc.Uploaded? :: ObjectKey(s.workers[w].job) !in removed
    ensures Inv(cfg, s.(store := s.store - removed))
  {
  }

  lemma AdditionKeepsInv(cfg: Config, s: State, added: set<string>)
    requires Inv(cfg, s)
    ensures Inv(cfg, s.(store := s.store + added))
  {
  }

  lemma QueueKeepsInv(cfg: Config, s: State, queue: multiset<JobId>)
    requires Inv(cfg, s) && forall j | queue[j] > 0 :: j in s.created
    ensures Inv(cfg, s.(queue := queue))
  {
  }

  lemma DepartureKeepsInv(cfg: Config, s: State, w: WorkerId)
    requires Inv(cfg, s) && w in s.workers
    ensures Inv(cfg, s.(workers := s.workers - {w}, locks := Unlock(cfg, s, w)))
  {
  }

  /** The lock admits one worker to a job. */
  lemma LockExcludes(cfg: Config, s: State, v: WorkerId, w: WorkerId)
    requires Inv(cfg, s) && v in s.workers && w in s.workers
    requires s.workers[v].job == s.workers[w].job
    requires !s.workers[v].pc.Received? && !s.workers[w].pc.Received?
    ensures v == w
  {
  }

  /** A worker that still works on its job may delete the job's object. */
  lemma OwnRemovalKeepsInv(cfg: Config, s: State, w: WorkerId, removed: set<string>)
    requires Inv(cfg, s) && w in s.workers && Working(s.workers[w].pc) && !s.workers[w].pc.Uploaded?
    requires removed <= {ObjectKey(s.workers[w].job)}
    ensures Inv(cfg, s.(store := s.store - removed))
  {
    var j := s.workers[w].job;
    assert WorkerOk(cfg, s, w);
    forall i | i in s.sealed && s.sealed[i] > s.now && i !in s.spoiled ensures ObjectKey(i) !in removed {
      if ObjectKey(i) in removed {
        ObjectKeyInjective(i, j);
      }
    }
    forall v | v in s.workers && s.workers[v].pc.Uploaded? ensures ObjectKey(s.workers[v].job) !in removed {
      if ObjectKey(s.workers[v].job) in removed {
        ObjectKeyInjective(s.workers[v].job, j);
        LockExcludes(cfg, s, v, w);
      }
    }
    RemovalKeepsInv(cfg, s, removed);
  }

  lemma SealKeepsInv(cfg: Config, s: State, j: JobId, job: Job, expiry: Time)
    requires Inv(cfg, s) && j in s.created && j !in s.sealed && ObjectKey(j) in s.store
    requires job.status == Ready && job.objectKey == ObjectKey(j) && job.expiresAt == Some(expiry)
    requires forall w | w in s.workers && s.workers[w].job == j :: !Working(s.workers[w].pc)
    ensures Inv(cfg, Seal(s, j, job, expiry))
  {
  }

  // ---------- Every step keeps the invariant ----------

  lemma NamedKeepsInv(cfg: Config, s: State, j: JobId)
    requires Inv(cfg, s)
    ensures Inv(cfg, s.(created := s.created + {j}))
  {
    var t := s.(created := s.created + {j});
    forall w | w in t.workers ensures WorkerOk(cfg, t, w) {
      assert WorkerOk(cfg, s, w);
    }
  }

  lemma CreateKeepsInv(cfg: Config, s: State, c: ClientId, j: JobId)
    requires Inv(cfg, s) && ClientEnabled(cfg, s, Create(c, j))
    ensures Inv(cfg, ApplyRequest(s, Create(c, j)))
  {
    var named := s.(created := s.created + {j});
    NamedKeepsInv(cfg, s, j);
    assert j !in s.sealed by {
      assert j in s.sealed ==> SealKept(s, j);
    }
    UnsealedJobKeepsInv(cfg, named, j, Created(s.now));
    ClientKeepsInv(cfg, SetJob(named, j, Created(s.now)), c, Request(Stamping(j)));
  }

  lemma RetryKeepsInv(cfg: Config, s: State, c: ClientId, j: JobId)
    requires Inv(cfg, s) && ClientEnabled(cfg, s, Retry(c, j))
    ensures Inv(cfg, ApplyRequest(s, Retry(c, j)))
  {
    assert JobOk(s, j);
    UnsealedJobKeepsInv(cfg, s, j, Reset(s.jobs[j], s.now));
    ClientKeepsInv(cfg, SetJob(s, j, Reset(s.jobs[j], s.now)), c, Request(Stamping(j)));
  }

  lemma StampKeepsInv(cfg: Config, s: State, c: ClientId)
    requires Inv(cfg, s) && ClientEnabled(cfg, s, Stamp(c))
    ensures Inv(cfg, ApplyClient(cfg, s, Stamp(c)))
  {
    var client := s.clients[c];
    var j := client.stage.job;
    assert ClientOk(s, client);
    if j in s.jobs && s.jobs[j].status == Pending {
      assert JobOk(s, j);
      var job := s.jobs[j].(queuedAt := Some(s.now));
      UnsealedJobKeepsInv(cfg, s, j, job);
      ClientKeepsInv(cfg, SetJob(s, j, job), c, WithStage(client, Publishing(j)));
    } else {
      ClientKeepsInv(cfg, s, c, WithStage(client, Idle));
    }
  }

  lemma PublishKeepsInv(cfg: Config, s: State, c: ClientId, sent: bool, raised: bool)
    requires Inv(cfg, s) && ClientEnabled(cfg, s, Publish(c, sent, raised))
    ensures Inv(cfg, ApplyClient(cfg, s, Publish(c, sent, raised)))
  {
    var client := s.clients[c];
    var j := client.stage.job;
    assert ClientOk(s, client);
    var queue := if sent then s.queue + multiset{j} else s.queue;
    QueueKeepsInv(cfg, s, queue);
    ClientKeepsInv(cfg, s.(queue := queue), c, WithStage(client, if raised then Rejecting(j) else Idle));
  }

  lemma RejectKeepsInv(cfg: Config, s: State, c: ClientId)
    requires Inv(cfg, s) && ClientEnabled(cfg, s, Reject(c))
    ensures Inv(cfg, ApplyClient(cfg, s, Reject(c)))
  {
    var client := s.clients[c];
    var j := client.stage.job;
    assert ClientOk(s, client);
    if j in s.jobs && s.jobs[j].status == Pending {
      assert JobOk(s, j);
      UnsealedJobKeepsInv(cfg, s, j, Unpublished(s.jobs[j], s.now));
      ClientKeepsInv(cfg, SetJob(s, j, Unpublished(s.jobs[j], s.now)), c, WithStage(client, Idle));
    } else {
      ClientKeepsInv(cfg, s, c, WithStage(client, Idle));
    }
  }

  lemma MaintenanceStepKeepsInv(cfg: Config, s: State, step: Step)
    requires Inv(cfg, s) && ClientEnabled(cfg, s, step)
    requires step.RecoveryScan? || step.RecoveryTake? || step.CleanupScan? || step.CleanupDelete? || step.CleanupSave?
    ensures Inv(cfg, ApplyClient(cfg, s, step))
  {
    match step
    case RecoveryScan(c, found) => ClientKeepsInv(cfg, s, c, Recovery(s.now, found, Idle));
    case RecoveryTake(c) =>
      var client := s.clients[c];
      var j := client.todo[0];
      assert ClientOk(s, client);
      if j in s.jobs && IsStale(s.jobs[j], client.now, cfg.staleAfter) {
        assert JobOk(s, j);
        UnsealedJobKeepsInv(cfg, s, j, Reset(s.jobs[j], client.now));
        ClientKeepsInv(cfg, SetJob(s, j, Reset(s.jobs[j], client.now)), c,
                       Recovery(client.now, client.todo[1..], Stamping(j)));
      } else {
        ClientKeepsInv(cfg, s, c, Recovery(client.now, client.todo[1..], Idle));
      }
    case CleanupScan(c, rows) =>
      forall row | row in rows ensures row.0 in s.sealed && s.sealed[row.0] <= s.now && row.1 == ObjectKey(row.0) {
        assert RetentionSelects(s, row) && JobOk(s, row.0);
      }
      ClientKeepsInv(cfg, s, c, Cleanup(rows, false));
    case CleanupDelete(c, ok) => CleanupDeleteKeepsInv(cfg, s, c, ok);
    case CleanupSave(c) => CleanupSaveKeepsInv(cfg, s, c);
  }

  lemma CleanupDeleteKeepsInv(cfg: Config, s: State, c: ClientId, ok: bool)
    requires Inv(cfg, s) && ClientEnabled(cfg, s, CleanupDelete(c, ok))
    ensures Inv(cfg, ApplyClient(cfg, s, CleanupDelete(c, ok)))
  {
    var rows := s.clients[c].rows;
    assert ClientOk(s, s.clients[c]) && rows[0] in rows;
    var j, key := rows[0].0, rows[0].1;
    if ok {
      forall i | i in s.sealed && s.sealed[i] > s.now ensures ObjectKey(i) != key {
        if ObjectKey(i) == key {
          ObjectKeyInjective(i, j);
        }
      }
      forall w | w in s.workers && s.workers[w].pc.Uploaded? ensures ObjectKey(s.workers[w].job) != key {
        assert WorkerOk(cfg, s, w);
        if ObjectKey(s.workers[w].job) == key {
          ObjectKeyInjective(s.workers[w].job, j);
        }
      }
      RemovalKeepsInv(cfg, s, {key});
      ClientKeepsInv(cfg, s.(store := s.store - {key}), c, Cleanup(rows, true));
    } else {
      ClientKeepsInv(cfg, s, c, Cleanup(rows[1..], false));
    }
  }

  lemma RetireKeepsInv(cfg: Config, s: State, j: JobId)
    requires Inv(cfg, s) && j in s.jobs && j in s.sealed
    ensures Inv(cfg, SetJob(s, j, Retired(s.jobs[j])))
  {
    assert JobOk(s, j);
  }

  lemma CleanupSaveKeepsInv(cfg: Config, s: State, c: ClientId)
    requires Inv(cfg, s) && ClientEnabled(cfg, s, CleanupSave(c))
    ensures Inv(cfg, ApplyClient(cfg, s, CleanupSave(c)))
  {
    var rows := s.clients[c].rows;
    assert ClientOk(s, s.clients[c]) && rows[0] in rows;
    var j := rows[0].0;
    if j in s.jobs {
      RetireKeepsInv(cfg, s, j);
      ClientKeepsInv(cfg, SetJob(s, j, Retired(s.jobs[j])), c, Cleanup(rows[1..], false));
    } else {
      ClientGoneKeepsInv(cfg, s, c);
    }
  }

  lemma ClientGoneKeepsInv(cfg: Config, s: State, c: ClientId)
    requires Inv(cfg, s)
    ensures Inv(cfg, s.(clients := s.clients - {c}))
  {
  }

  lemma TimeKeepsInv(cfg: Config, s: State, later: Time)
    requires Inv(cfg, s) && later >= s.now
    ensures Inv(cfg, s.(now := later))
  {
  }

  lemma RowDeletionKeepsInv(cfg: Config, s: State, j: JobId)
    requires Inv(cfg, s)
    ensures Inv(cfg, s.(jobs := s.jobs - {j}))
  {
  }

  lemma QuietStepKeepsInv(cfg: Config, s: State, step: Step)
    requires Inv(cfg, s) && ClientEnabled(cfg, s, step)
    requires step.Tick? || step.ClientGone? || step.DeleteRow?
    ensures Inv(cfg, ApplyQuiet(s, step))
  {
    match step
    case Tick(later) => TimeKeepsInv(cfg, s, later);
    case ClientGone(c) => ClientGoneKeepsInv(cfg, s, c);
    case DeleteRow(j) => RowDeletionKeepsInv(cfg, s, j);
  }

  lemma ReadKeepsInv(cfg: Config, s: State, c: ClientId, j: JobId)
    requires Inv(cfg, s) && ClientEnabled(cfg, s, Read(c, j))
    ensures Inv(cfg, ApplyClient(cfg, s, Read(c, j)))
  {
    assert JobOk(s, j);
    ClientKeepsInv(cfg, s, c, Reader(j, s.jobs[j]));
  }

  lemma RequestStepKeepsInv(cfg: Config, s: State, step: Step)
    requires Inv(cfg, s) && ClientEnabled(cfg, s, step) && IsRequest(step)
    ensures Inv(cfg, ApplyClient(cfg, s, step))
  {
    match step
    case Create(c, j) => CreateKeepsInv(cfg, s, c, j);
    case Retry(c, j) => RetryKeepsInv(cfg, s, c, j);
    case Stamp(c) => StampKeepsInv(cfg, s, c);
    case Publish(c, sent, raised) => PublishKeepsInv(cfg, s, c, sent, raised);
    case Reject(c) => RejectKeepsInv(cfg, s, c);
  }

  lemma ClientStepKeepsInv(cfg: Config, s: State, step: Step)
    requires Inv(cfg, s) && ClientEnabled(cfg, s, step)
    ensures Inv(cfg, ApplyClient(cfg, s, step))
  {
    if IsRequest(step) {
      RequestStepKeepsInv(cfg, s, step);
    } else {
      OtherClientStepKeepsInv(cfg, s, step);
    }
  }

  lemma OtherClientStepKeepsInv(cfg: Config, s: State, step: Step)
    requires Inv(cfg, s) && ClientEnabled(cfg, s, step) && !IsRequest(step)
    ensures Inv(cfg, ApplyClient(cfg, s, step))
  {
    match step
    case Read(c, j) => ReadKeepsInv(cfg, s, c, j);
    case RecoveryScan(_, _) => MaintenanceStepKeepsInv(cfg, s, step);
    case RecoveryTake(_) => MaintenanceStepKeepsInv(cfg, s, step);
    case CleanupScan(_, _) => MaintenanceStepKeepsInv(cfg, s, step);
    case CleanupDelete(_, _) => MaintenanceStepKeepsInv(cfg, s, step);
    case CleanupSave(_) => MaintenanceStepKeepsInv(cfg, s, step);
    case _ => QuietStepKeepsInv(cfg, s, step);
  }

  lemma DeletionKeepsInv(cfg: Config, s: State, step: Step)
    requires Inv(cfg, s) && WorkerEnabled(cfg, s, step) && (step.ClearKeys? || step.CleanUpload?)
    ensures Inv(cfg, ApplyStorage(s, step))
  {
    var w := step.w;
    assert WorkerOk(cfg, s, w);
    if step.ClearKeys? {
      OwnRemovalKeepsInv(cfg, s, w, step.removed);
      PcKeepsInv(cfg, s.(store := s.store - step.removed), w, if step.ok then Cleared else Failing(false));
    } else {
      var key := ObjectKey(s.workers[w].job);
      OwnRemovalKeepsInv(cfg, s, w, {key});
      PcKeepsInv(cfg, s.(store := if s.workers[w].pc.saved && step.dropped then s.store - {key} else s.store), w,
                 Recording);
    }
  }

  lemma SaveKeepsInv(cfg: Config, s: State, w: WorkerId, outcome: Saved)
    requires Inv(cfg, s) && WorkerEnabled(cfg, s, Save(w, outcome))
    ensures Inv(cfg, ApplyStorage(s, Save(w, outcome)))
  {
    var key := ObjectKey(s.workers[w].job);
    assert WorkerOk(cfg, s, w);
    match outcome
    case Stored =>
      AdditionKeepsInv(cfg, s, {key});
      PcKeepsInv(cfg, s.(store := s.store + {key}), w, Uploaded);
    case Renamed(other, leftBehind) =>
      AdditionKeepsInv(cfg, s, {other});
      assert s.store + {other} - {other} == s.store;
      PcKeepsInv(cfg, s.(store := if leftBehind then s.store + {other} else s.store), w, Failing(false));
    case SaveError(stored) =>
      AdditionKeepsInv(cfg, s, {key});
      PcKeepsInv(cfg, s.(store := if stored then s.store + {key} else s.store), w, Failing(false));
  }

  lemma BeginKeepsInv(cfg: Config, s: State, w: WorkerId)
    requires Inv(cfg, s) && WorkerEnabled(cfg, s, Begin(w))
    ensures Inv(cfg, ApplyWorker(cfg, s, Begin(w)))
  {
    var j := s.workers[w].job;
    assert WorkerOk(cfg, s, w);
    if j in s.jobs && (s.jobs[j].status == Pending || s.jobs[j].status == Processing) {
      assert JobOk(s, j);
      UnsealedJobKeepsInv(cfg, s, j, Begun(s.jobs[j], s.now));
      PcKeepsInv(cfg, SetJob(s, j, Begun(s.jobs[j], s.now)), w, Building(s.jobs[j].objectKey));
    } else {
      PcKeepsInv(cfg, s, w, Done);
    }
  }

  lemma HeartbeatKeepsInv(cfg: Config, s: State, w: WorkerId)
    requires Inv(cfg, s) && WorkerEnabled(cfg, s, Heartbeat(w))
    ensures Inv(cfg, ApplyWorker(cfg, s, Heartbeat(w)))
  {
    var j := s.workers[w].job;
    if j in s.jobs && s.jobs[j].status == Processing {
      assert JobOk(s, j);
      UnsealedJobKeepsInv(cfg, s, j, s.jobs[j].(heartbeatAt := Some(s.now)));
    }
  }

  lemma SealedByWorkerKeepsInv(cfg: Config, s: State, w: WorkerId)
    requires Inv(cfg, s) && WorkerEnabled(cfg, s, Mark(w, true))
    requires s.workers[w].job in s.jobs && s.jobs[s.workers[w].job].status == Processing
    ensures var j := s.workers[w].job;
            Inv(cfg, Seal(SetPc(s, w, Marked), j, Finished(s.jobs[j], ObjectKey(j), s.now, cfg.retention),
                          s.now + cfg.retention))
  {
    var j := s.workers[w].job;
    assert WorkerOk(cfg, s, w) && JobOk(s, j);
    PcKeepsInv(cfg, s, w, Done);
    var t := SetPc(s, w, Done);
    forall v | v in t.workers && t.workers[v].job == j ensures !Working(t.workers[v].pc) {
      if v != w && Working(t.workers[v].pc) {
        LockExcludes(cfg, s, v, w);
      }
    }
    var job := Finished(s.jobs[j], ObjectKey(j), s.now, cfg.retention);
    SealKeepsInv(cfg, t, j, job, s.now + cfg.retention);
    MarkedAfterSeal(cfg, s, w, j, job, s.now + cfg.retention);
  }

  lemma MarkedAfterSeal(cfg: Config, s: State, w: WorkerId, j: JobId, job: Job, expiry: Time)
    requires w in s.workers && s.workers[w].job == j && Inv(cfg, Seal(SetPc(s, w, Done), j, job, expiry))
    ensures Inv(cfg, Seal(SetPc(s, w, Marked), j, job, expiry))
  {
    var sealed := Seal(SetPc(s, w, Done), j, job, expiry);
    assert WorkerOk(cfg, sealed, w);
    PcKeepsInv(cfg, sealed, w, Marked);
    assert SetPc(sealed, w, Marked).workers == SetPc(s, w, Marked).workers;
  }

  lemma MarkKeepsInv(cfg: Config, s: State, w: WorkerId, ok: bool)
    requires Inv(cfg, s) && WorkerEnabled(cfg, s, Mark(w, ok))
    ensures Inv(cfg, ApplyRow(cfg, s, Mark(w, ok)))
  {
    MarkEffect(cfg, s, w, ok);
    var j := s.workers[w].job;
    if ok && j in s.jobs && s.jobs[j].status == Processing {
      SealedByWorkerKeepsInv(cfg, s, w);
    } else {
      FailedMarkKeepsInv(cfg, s, w);
    }
  }

  /** The guarded READY update as a whole, apart from the invariant. */
  lemma MarkEffect(cfg: Config, s: State, w: WorkerId, ok: bool)
    requires w in s.workers
    ensures var j := s.workers[w].job;
            ApplyRow(cfg, s, Mark(w, ok)) ==
              if ok && j in s.jobs && s.jobs[j].status == Processing then
                Seal(SetPc(s, w, Marked), j, Finished(s.jobs[j], ObjectKey(j), s.now, cfg.retention),
                     s.now + cfg.retention)
              else
                SetPc(s, w, Failing(true))
  {}

  lemma FailedMarkKeepsInv(cfg: Config, s: State, w: WorkerId)
    requires Inv(cfg, s) && WorkerAt(s, w, {Uploaded})
    ensures Inv(cfg, SetPc(s, w, Failing(true)))
  {
    assert WorkerOk(cfg, s, w);
    PcKeepsInv(cfg, s, w, Failing(true));
  }

  lemma RecordFailureKeepsInv(cfg: Config, s: State, w: WorkerId, ok: bool)
    requires Inv(cfg, s) && WorkerEnabled(cfg, s, RecordFailure(w, ok))
    ensures Inv(cfg, ApplyWorker(cfg, s, RecordFailure(w, ok)))
  {
    var j := s.workers[w].job;
    assert WorkerOk(cfg, s, w);
    if ok && j in s.jobs && s.jobs[j].status == Processing {
      assert JobOk(s, j);
      UnsealedJobKeepsInv(cfg, s, j, Broken(s.jobs[j], s.now));
      PcKeepsInv(cfg, SetJob(s, j, Broken(s.jobs[j], s.now)), w, Done);
    } else {
      PcKeepsInv(cfg, s, w, Done);
    }
  }

  lemma ArrivalKeepsInv(cfg: Config, s: State, w: WorkerId, j: JobId)
    requires Inv(cfg, s) && w !in s.workers && j in s.created
    ensures Inv(cfg, s.(workers := s.workers[w := Worker(j, s.now, Received)]))
  {
  }

  lemma DeliverKeepsInv(cfg: Config, s: State, w: WorkerId, j: JobId)
    requires Inv(cfg, s) && WorkerEnabled(cfg, s, Deliver(w, j))
    ensures Inv(cfg, ApplyMove(cfg, s, Deliver(w, j)))
  {
    ArrivalKeepsInv(cfg, s, w, j);
  }

  lemma LockKeepsInv(cfg: Config, s: State, w: WorkerId, id: int)
    requires Inv(cfg, s) && id !in s.locks
    ensures Inv(cfg, s.(locks := s.locks[id := w]))
  {
  }

  lemma TakeLockKeepsInv(cfg: Config, s: State, w: WorkerId)
    requires Inv(cfg, s) && WorkerEnabled(cfg, s, TakeLock(w))
    ensures Inv(cfg, ApplyWorker(cfg, s, TakeLock(w)))
  {
    var id := cfg.lockId(s.workers[w].job);
    if id in s.locks {
      DepartureKeepsInv(cfg, s, w);
      QueueKeepsInv(cfg, s.(workers := s.workers - {w}), s.queue - multiset{s.workers[w].job});
    } else {
      LockKeepsInv(cfg, s, w, id);
      assert WorkerOk(cfg, s, w);
      PcKeepsInv(cfg, s.(locks := s.locks[id := w]), w, Locked);
    }
  }

  lemma ExitKeepsInv(cfg: Config, s: State, step: Step)
    requires Inv(cfg, s) && WorkerEnabled(cfg, s, step) && (step.Release? || step.Crash?)
    ensures Inv(cfg, ApplyWorker(cfg, s, step))
  {
    var w := step.w;
    DepartureKeepsInv(cfg, s, w);
    if step.Release? {
      QueueKeepsInv(cfg, s.(workers := s.workers - {w}, locks := Unlock(cfg, s, w)),
                    if step.acked then s.queue - multiset{s.workers[w].job} else s.queue);
    }
  }

  lemma SpoilKeepsInv(cfg: Config, s: State, j: JobId)
    requires Inv(cfg, s) && j in s.sealed
    ensures Inv(cfg, s.(spoiled := s.spoiled + {j}))
  {
    var t := s.(spoiled := s.spoiled + {j});
    forall w | w in t.workers ensures WorkerOk(cfg, t, w) {
      assert WorkerOk(cfg, s, w);
    }
  }

  /** An exception between the READY commit and the end of the try block. */
  lemma InterruptKeepsInv(cfg: Config, s: State, w: WorkerId)
    requires Inv(cfg, s) && WorkerEnabled(cfg, s, Interrupt(w))
    ensures Inv(cfg, ApplyWorker(cfg, s, Interrupt(w)))
  {
    assert WorkerOk(cfg, s, w);
    SpoilKeepsInv(cfg, s, s.workers[w].job);
    PcKeepsInv(cfg, s.(spoiled := s.spoiled + {s.workers[w].job}), w, Failing(true));
  }

  lemma AdvanceKeepsInv(cfg: Config, s: State, step: Step)
    requires Inv(cfg, s) && WorkerEnabled(cfg, s, step) && (step.Build? || step.LeaveTry?)
    ensures Inv(cfg, ApplyWorker(cfg, s, step))
  {
    var w := step.w;
    assert WorkerOk(cfg, s, w);
    if step.Build? {
      PcKeepsInv(cfg, s, w, if step.ok then Built(s.workers[w].pc.oldKey) else Failing(false));
    } else {
      PcKeepsInv(cfg, s, w, Done);
    }
  }

  lemma EarlyStepKeepsInv(cfg: Config, s: State, step: Step)
    requires Inv(cfg, s) && WorkerEnabled(cfg, s, step)
    requires step.Deliver? || step.TakeLock? || step.Begin? || step.Heartbeat?
    ensures Inv(cfg, ApplyWorker(cfg, s, step))
  {
    match step
    case Deliver(w, j) => DeliverKeepsInv(cfg, s, w, j);
    case TakeLock(w) => TakeLockKeepsInv(cfg, s, w);
    case Begin(w) => BeginKeepsInv(cfg, s, w);
    case Heartbeat(w) => HeartbeatKeepsInv(cfg, s, w);
  }

  lemma WorkerStepKeepsInv(cfg: Config, s: State, step: Step)
    requires Inv(cfg, s) && WorkerEnabled(cfg, s, step)
    ensures Inv(cfg, ApplyWorker(cfg, s, step))
  {
    match step
    case Deliver(_, _) => EarlyStepKeepsInv(cfg, s, step);
    case TakeLock(_) => EarlyStepKeepsInv(cfg, s, step);
    case Begin(_) => EarlyStepKeepsInv(cfg, s, step);
    case Heartbeat(_) => EarlyStepKeepsInv(cfg, s, step);
    case Build(_, _) => AdvanceKeepsInv(cfg, s, step);
    case LeaveTry(_) => AdvanceKeepsInv(cfg, s, step);
    case Interrupt(w) => InterruptKeepsInv(cfg, s, w);
    case Mark(w, ok) => MarkKeepsInv(cfg, s, w, ok);
    case RecordFailure(w, ok) => RecordFailureKeepsInv(cfg, s, w, ok);
    case Release(_, _) => ExitKeepsInv(cfg, s, step);
    case Crash(_) => ExitKeepsInv(cfg, s, step);
    case Save(w, outcome) => SaveKeepsInv(cfg, s, w, outcome);
    case _ => DeletionKeepsInv(cfg, s, step);
  }

  lemma StepKeepsInv(cfg: Config, s: State, step: Step)
    requires Inv(cfg, s) && Enabled(cfg, s, step)
    ensures Inv(cfg, Apply(cfg, s, step))
  {
    if ClientEnabled(cfg, s, step) {
      ClientStepKeepsInv(cfg, s, step);
    } else {
      WorkerStepKeepsInv(cfg, s, step);
    }
  }

  lemma {:induction false} RunKeepsInv(cfg: Config, s: State, steps: seq<Step>)
    requires Inv(cfg, s) && Runs(cfg, s, steps)
    ensures Inv(cfg, After(cfg, s, steps))
    decreases |steps|
  {
    if steps == [] {
    } else {
      StepKeepsInv(cfg, s, steps[0]);
      RunKeepsInv(cfg, Apply(cfg, s, steps[0]), steps[1..]);
    }
  }
}
