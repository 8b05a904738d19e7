/** Nothing waits forever: staleness over whole runs, and the recovery task in any interleaving. */
module ExportRecovery {
  import opened Common
  import opened ExportJobs
  import opened ExportProtocol
  import opened ExportSafety
  import opened ExportTheorems

  // ---------- No activity lies ahead of the clock ----------

  predicate NotAfter(column: Option<Time>, now: Time) {
    column.Some? ==> column.value <= now
  }

  predicate NotAhead(job: Job, now: Time) {
    job.createdAt <= now && NotAfter(job.queuedAt, now) && NotAfter(job.startedAt, now)
    && NotAfter(job.heartbeatAt, now)
  }

  ghost predicate Dated(s: State) {
    forall j | j in s.jobs :: NotAhead(s.jobs[j], s.now)
  }

  lemma RequestKeepsDated(cfg: Config, s: State, step: Step)
    requires Dated(s) && ClientEnabled(cfg, s, step) && IsRequest(step)
    ensures Dated(ApplyRequest(s, step))
  {
    var t := ApplyRequest(s, step);
    forall j | j in t.jobs ensures NotAhead(t.jobs[j], t.now) {
      RequestRow(cfg, s, step, j);
    }
  }

  lemma TakeKeepsDated(cfg: Config, s: State, c: ClientId)
    requires Inv(cfg, s) && Dated(s) && ClientEnabled(cfg, s, RecoveryTake(c))
    ensures Dated(ApplyRecoveryTake(cfg, s, c))
  {
    assert ClientOk(s, s.clients[c]);
  }

  lemma TaskKeepsDated(cfg: Config, s: State, step: Step)
    requires Dated(s) && ClientEnabled(cfg, s, step) && !IsRequest(step) && !step.RecoveryTake?
    ensures Dated(ApplyClient(cfg, s, step))
  {}

  lemma WorkerKeepsDated(cfg: Config, s: State, step: Step)
    requires Dated(s) && WorkerEnabled(cfg, s, step)
    ensures Dated(ApplyWorker(cfg, s, step))
  {
    var t := ApplyWorker(cfg, s, step);
    forall j | j in t.jobs ensures NotAhead(t.jobs[j], t.now) {
      WorkerRows(cfg, s, step, j);
    }
  }

  lemma {:induction false} RunKeepsDated(cfg: Config, s: State, steps: seq<Step>)
    requires Inv(cfg, s) && Dated(s) && Runs(cfg, s, steps)
    ensures Inv(cfg, After(cfg, s, steps)) && Dated(After(cfg, s, steps))
    decreases |steps|
  {
    if steps == [] {
    } else {
      StepKeepsInv(cfg, s, steps[0]);
      if !ClientEnabled(cfg, s, steps[0]) {
        WorkerKeepsDated(cfg, s, steps[0]);
      } else if IsRequest(steps[0]) {
        RequestKeepsDated(cfg, s, steps[0]);
      } else if steps[0].RecoveryTake? {
        TakeKeepsDated(cfg, s, steps[0].c);
      } else {
        TaskKeepsDated(cfg, s, steps[0]);
      }
      RunKeepsDated(cfg, Apply(cfg, s, steps[0]), steps[1..]);
    }
  }

  lemma ClockAdvances(cfg: Config, s: State, step: Step)
    requires Enabled(cfg, s, step)
    ensures Apply(cfg, s, step).now >= s.now
  {
    if ClientEnabled(cfg, s, step) {
      ClientKeepsWorkers(cfg, s, step);
    }
  }

  lemma {:induction false} ClockAdvancesRun(cfg: Config, s: State, steps: seq<Step>)
    requires Runs(cfg, s, steps)
    ensures After(cfg, s, steps).now >= s.now
    decreases |steps|
  {
    if steps == [] {
    } else {
      ClockAdvances(cfg, s, steps[0]);
      ClockAdvancesRun(cfg, Apply(cfg, s, steps[0]), steps[1..]);
    }
  }

  // ---------- A job untouched for the window ----------

  /** The two states in which a job waits for somebody. */
  predicate Waits(job: Job) {
    job.status == Pending || job.status == Processing
  }

  /** The scan's query lists exactly the stale jobs. */
  lemma RecoveryFindsEveryStaleJob(cfg: Config, s: State, c: ClientId, found: seq<JobId>, j: JobId)
    requires ClientEnabled(cfg, s, RecoveryScan(c, found))
    ensures j in found <==> j in s.jobs && IsStale(s.jobs[j], s.now, cfg.staleAfter)
  {
    if j in s.jobs {
      StaleRulesAgree(s.jobs[j], s.now, cfg.staleAfter);
    }
  }

  /** j can be retried by hand, and every recovery scan lists it. */
  ghost predicate Recoverable(cfg: Config, s: State, j: JobId) {
    && (forall c | c !in s.clients :: Enabled(cfg, s, Retry(c, j)))
    && (forall c, found | ClientEnabled(cfg, s, RecoveryScan(c, found)) :: j in found)
  }

  lemma StaleIsRecoverable(cfg: Config, s: State, j: JobId)
    requires j in s.jobs && IsStale(s.jobs[j], s.now, cfg.staleAfter)
    ensures Recoverable(cfg, s, j)
  {
    forall c, found | ClientEnabled(cfg, s, RecoveryScan(c, found)) ensures j in found {
      RecoveryFindsEveryStaleJob(cfg, s, c, found, j);
    }
  }

  /**
   * In every run: a PENDING or PROCESSING job whose row is the same a whole
   * window later is stale by then, can be retried and is in every recovery scan.
   */
  lemma UntouchedJobIsRecoverable(cfg: Config, start: Time, before: seq<Step>, waiting: seq<Step>, j: JobId)
    requires Runs(cfg, Initial(start), before) && Runs(cfg, After(cfg, Initial(start), before), waiting)
    ensures var s := After(cfg, Initial(start), before);
            var t := After(cfg, s, waiting);
            j in s.jobs && Waits(s.jobs[j]) && j in t.jobs && t.jobs[j] == s.jobs[j]
            && t.now >= s.now + cfg.staleAfter ==>
              IsStale(t.jobs[j], t.now, cfg.staleAfter) && Recoverable(cfg, t, j)
  {
    InitialInv(cfg, start);
    RunKeepsDated(cfg, Initial(start), before);
    var s := After(cfg, Initial(start), before);
    var t := After(cfg, s, waiting);
    if j in s.jobs && Waits(s.jobs[j]) && j in t.jobs && t.jobs[j] == s.jobs[j] && t.now >= s.now + cfg.staleAfter {
      StaleIsRecoverable(cfg, t, j);
    }
  }

  /** And it stays so for as long as nobody touches it. */
  lemma RecoverableUntilTouched(cfg: Config, s: State, steps: seq<Step>, j: JobId)
    requires Runs(cfg, s, steps) && j in s.jobs && IsStale(s.jobs[j], s.now, cfg.staleAfter)
    ensures var t := After(cfg, s, steps);
            j in t.jobs && t.jobs[j] == s.jobs[j] ==> Recoverable(cfg, t, j)
  {
    var t := After(cfg, s, steps);
    ClockAdvancesRun(cfg, s, steps);
    StalenessIsMonotone(s.jobs[j], s.now, t.now, cfg.staleAfter);
    if j in t.jobs && t.jobs[j] == s.jobs[j] {
      StaleIsRecoverable(cfg, t, j);
    }
  }

  // ---------- What restarts the window ----------

  /** The step leaves j with a row that it did not have before. */
  predicate Writes(cfg: Config, s: State, step: Step, j: JobId)
    requires Enabled(cfg, s, step)
  {
    j in Apply(cfg, s, step).jobs && (j in s.jobs ==> Apply(cfg, s, step).jobs[j] != s.jobs[j])
  }

  /** The recovery task writes the time of its scan, everybody else the present time. */
  function Stamped(s: State, step: Step): Time {
    if step.RecoveryTake? && step.c in s.clients && s.clients[step.c].Recovery? then s.clients[step.c].now else s.now
  }

  lemma RequestRestartsWindow(cfg: Config, s: State, step: Step, j: JobId)
    requires ClientEnabled(cfg, s, step) && IsRequest(step) && Writes(cfg, s, step, j)
    ensures Waits(ApplyRequest(s, step).jobs[j]) ==> ActiveAt(ApplyRequest(s, step).jobs[j], s.now)
  {
    RequestRow(cfg, s, step, j);
  }

  lemma TakeRestartsWindow(cfg: Config, s: State, c: ClientId, j: JobId)
    requires ClientEnabled(cfg, s, RecoveryTake(c)) && Writes(cfg, s, RecoveryTake(c), j)
    ensures ActiveAt(ApplyRecoveryTake(cfg, s, c).jobs[j], s.clients[c].now)
  {}

  /** Of the other tasks only retention writes a row, and that row is EXPIRED. */
  lemma TaskEndsWaiting(cfg: Config, s: State, step: Step, j: JobId)
    requires ClientEnabled(cfg, s, step) && !IsRequest(step) && !step.RecoveryTake? && Writes(cfg, s, step, j)
    ensures !Waits(ApplyClient(cfg, s, step).jobs[j])
  {}

  lemma WorkerRestartsWindow(cfg: Config, s: State, step: Step, j: JobId)
    requires WorkerEnabled(cfg, s, step) && Writes(cfg, s, step, j)
    ensures Waits(ApplyWorker(cfg, s, step).jobs[j]) ==> ActiveAt(ApplyWorker(cfg, s, step).jobs[j], s.now)
  {
    WorkerRows(cfg, s, step, j);
  }

  /**
   * After any write that leaves j waiting, and for as long as the row stays so, j is stale
   * exactly when a window has passed.
   */
  lemma StaleExactlyAfterWindow(cfg: Config, s: State, step: Step, waiting: seq<Step>, j: JobId)
    requires Enabled(cfg, s, step) && Writes(cfg, s, step, j) && Waits(Apply(cfg, s, step).jobs[j])
    requires Runs(cfg, Apply(cfg, s, step), waiting)
    ensures var t := After(cfg, Apply(cfg, s, step), waiting);
            j in t.jobs && t.jobs[j] == Apply(cfg, s, step).jobs[j] ==>
              (IsStale(t.jobs[j], t.now, cfg.staleAfter) <==> t.now >= Stamped(s, step) + cfg.staleAfter)
  {
    if !ClientEnabled(cfg, s, step) {
      WorkerRestartsWindow(cfg, s, step, j);
    } else if IsRequest(step) {
      RequestRestartsWindow(cfg, s, step, j);
    } else if step.RecoveryTake? {
      TakeRestartsWindow(cfg, s, step.c, j);
    } else {
      TaskEndsWaiting(cfg, s, step, j);
    }
  }

  // ---------- The recovery task in any interleaving ----------

  /** Client c is the recovery task that scanned at this time, with this part of its list still ahead. */
  predicate Recovering(s: State, c: ClientId, scannedAt: Time, found: seq<JobId>, taken: nat) {
    && c in s.clients && s.clients[c].Recovery? && s.clients[c].now == scannedAt
    && taken <= |found| && s.clients[c].todo == found[taken..]
  }

  function Taken(step: Step, c: ClientId, taken: nat): nat {
    if step == RecoveryTake(c) then taken + 1 else taken
  }

  /** A new request does not concern a task under way, and enqueueing moves only its stage. */
  lemma ArrivalLeavesRecovery(cfg: Config, s: State, step: Step, c: ClientId)
    requires c in s.clients && ClientEnabled(cfg, s, step) && (step.Create? || step.Retry?)
    ensures c in ApplyRequest(s, step).clients && ApplyRequest(s, step).clients[c] == s.clients[c]
  {}

  lemma EnqueueMovesStage(cfg: Config, s: State, step: Step, c: ClientId)
    requires c in s.clients && s.clients[c].Recovery? && ClientEnabled(cfg, s, step)
    requires step.Stamp? || step.Publish? || step.Reject?
    ensures var t := ApplyRequest(s, step);
            c in t.clients && t.clients[c].Recovery? && t.clients[c] == s.clients[c].(stage := t.clients[c].stage)
  {}

  lemma RecoveringRequest(cfg: Config, s: State, step: Step, c: ClientId, scannedAt: Time, found: seq<JobId>,
                          taken: nat)
    requires Recovering(s, c, scannedAt, found, taken) && ClientEnabled(cfg, s, step) && IsRequest(step)
    ensures Recovering(ApplyRequest(s, step), c, scannedAt, found, taken)
  {
    if step.Create? || step.Retry? {
      ArrivalLeavesRecovery(cfg, s, step, c);
    } else {
      EnqueueMovesStage(cfg, s, step, c);
    }
  }

  lemma RecoveringTake(cfg: Config, s: State, d: ClientId, c: ClientId, scannedAt: Time, found: seq<JobId>, taken: nat)
    requires Recovering(s, c, scannedAt, found, taken) && ClientEnabled(cfg, s, RecoveryTake(d))
    ensures Recovering(ApplyRecoveryTake(cfg, s, d), c, scannedAt, found, Taken(RecoveryTake(d), c, taken))
  {}

  lemma RecoveringRetention(cfg: Config, s: State, step: Step, c: ClientId, scannedAt: Time, found: seq<JobId>,
                            taken: nat)
    requires Recovering(s, c, scannedAt, found, taken) && ClientEnabled(cfg, s, step)
    requires step.CleanupDelete? || step.CleanupSave?
    ensures Recovering(ApplyClient(cfg, s, step), c, scannedAt, found, taken)
  {}

  lemma RecoveringQuiet(cfg: Config, s: State, step: Step, c: ClientId, scannedAt: Time, found: seq<JobId>, taken: nat)
    requires Recovering(s, c, scannedAt, found, taken) && ClientEnabled(cfg, s, step) && step != ClientGone(c)
    requires !IsRequest(step) && !step.RecoveryTake? && !step.CleanupDelete? && !step.CleanupSave?
    ensures Recovering(ApplyQuiet(s, step), c, scannedAt, found, taken)
  {}

  lemma RecoveringStep(cfg: Config, s: State, step: Step, c: ClientId, scannedAt: Time, found: seq<JobId>, taken: nat)
    requires Recovering(s, c, scannedAt, found, taken) && Enabled(cfg, s, step) && step != ClientGone(c)
    ensures Recovering(Apply(cfg, s, step), c, scannedAt, found, Taken(step, c, taken))
  {
    if !ClientEnabled(cfg, s, step) {
      WorkerKeepsClients(cfg, s, step);
    } else if IsRequest(step) {
      RecoveringRequest(cfg, s, step, c, scannedAt, found, taken);
    } else if step.RecoveryTake? {
      RecoveringTake(cfg, s, step.c, c, scannedAt, found, taken);
    } else if step.CleanupDelete? || step.CleanupSave? {
      RecoveringRetention(cfg, s, step, c, scannedAt, found, taken);
    } else {
      RecoveringQuiet(cfg, s, step, c, scannedAt, found, taken);
    }
  }

  predicate Survives(steps: seq<Step>, c: ClientId) {
    forall i | 0 <= i < |steps| :: steps[i] != ClientGone(c)
  }

  lemma {:induction false} RecoveringRun(cfg: Config, s: State, steps: seq<Step>, c: ClientId, scannedAt: Time,
                                         found: seq<JobId>, taken: nat)
    returns (reached: nat)
    requires Recovering(s, c, scannedAt, found, taken) && Runs(cfg, s, steps) && Survives(steps, c)
    ensures taken <= reached && Recovering(After(cfg, s, steps), c, scannedAt, found, reached)
    decreases |steps|
  {
    if steps == [] {
      reached := taken;
    } else {
      RecoveringStep(cfg, s, steps[0], c, scannedAt, found, taken);
      assert Survives(steps[1..], c);
      reached := RecoveringRun(cfg, Apply(cfg, s, steps[0]), steps[1..], c, scannedAt, found,
                               Taken(steps[0], c, taken));
    }
  }

  /**
   * Between the scan and the moment the task reaches a listed job anything may
   * happen. Then the job is reset and about to be stamped and published, or its
   * row is gone or has changed since the scan.
   */
  lemma RecoveryReachesListedJobs(cfg: Config, s: State, c: ClientId, found: seq<JobId>, between: seq<Step>)
    requires ClientEnabled(cfg, s, RecoveryScan(c, found))
    requires Runs(cfg, Apply(cfg, s, RecoveryScan(c, found)), between) && Survives(between, c)
    requires var t := After(cfg, Apply(cfg, s, RecoveryScan(c, found)), between);
             Enabled(cfg, t, RecoveryTake(c))
    ensures var t := After(cfg, Apply(cfg, s, RecoveryScan(c, found)), between);
            var j := t.clients[c].todo[0];
            var u := Apply(cfg, t, RecoveryTake(c));
            && j in found && j in s.jobs
            && (j in t.jobs && t.jobs[j] == s.jobs[j] ==>
                  && u.jobs == t.jobs[j := Reset(s.jobs[j], s.now)]
                  && u.clients[c].stage == Stamping(j))
  {
    var scanned := Apply(cfg, s, RecoveryScan(c, found));
    var reached := RecoveringRun(cfg, scanned, between, c, s.now, found, 0);
    var j := After(cfg, scanned, between).clients[c].todo[0];
    assert j == found[reached];
    RecoveryFindsEveryStaleJob(cfg, s, c, found, j);
  }

  /** In this state and in every later one of the run, j has this row. */
  predicate Untouched(cfg: Config, s: State, steps: seq<Step>, j: JobId, row: Job)
    requires Runs(cfg, s, steps)
    decreases |steps|
  {
    && j in s.jobs && s.jobs[j] == row
    && (steps != [] ==> Untouched(cfg, Apply(cfg, s, steps[0]), steps[1..], j, row))
  }

  /** Taking a job that is still stale rewrites its row. */
  lemma TakingTouches(cfg: Config, s: State, c: ClientId, j: JobId)
    requires ClientEnabled(cfg, s, RecoveryTake(c)) && s.clients[c].todo[0] == j && cfg.staleAfter > 0
    requires j in s.jobs && IsStale(s.jobs[j], s.clients[c].now, cfg.staleAfter)
    ensures Writes(cfg, s, RecoveryTake(c), j)
  {
    assert !IsStale(Reset(s.jobs[j], s.clients[c].now), s.clients[c].now, cfg.staleAfter);
  }

  /** As long as nobody touches a listed stale job, the task has not passed its place in the list. */
  lemma {:induction false} UntouchedIsAhead(cfg: Config, s: State, steps: seq<Step>, c: ClientId, scannedAt: Time,
                                           found: seq<JobId>, taken: nat, place: nat)
    requires Recovering(s, c, scannedAt, found, taken) && Runs(cfg, s, steps) && Survives(steps, c)
    requires taken <= place < |found| && found[place] in s.jobs && cfg.staleAfter > 0
    requires IsStale(s.jobs[found[place]], scannedAt, cfg.staleAfter)
    requires Untouched(cfg, s, steps, found[place], s.jobs[found[place]])
    ensures c in After(cfg, s, steps).clients && After(cfg, s, steps).clients[c].Recovery?
    ensures After(cfg, s, steps).clients[c].todo != []
    decreases |steps|
  {
    if steps == [] {
      assert s.clients[c].todo == found[taken..];
    } else {
      if steps[0] == RecoveryTake(c) {
        assert s.clients[c].todo[0] == found[taken];
        if taken == place {
          TakingTouches(cfg, s, c, found[place]);
          assert false;
        }
      }
      RecoveringStep(cfg, s, steps[0], c, scannedAt, found, taken);
      assert Survives(steps[1..], c);
      UntouchedIsAhead(cfg, Apply(cfg, s, steps[0]), steps[1..], c, scannedAt, found, Taken(steps[0], c, taken), place);
    }
  }

  /**
   * None is stuck: in every run, whatever is interleaved, a PENDING or PROCESSING
   * job that keeps its row for a window does not keep it through the next pass of
   * the recovery task that reaches the end of its list.
   */
  lemma NoJobOutlastsAPass(cfg: Config, start: Time, before: seq<Step>, waiting: seq<Step>,
                           c: ClientId, found: seq<JobId>, pass: seq<Step>, j: JobId)
    requires Runs(cfg, Initial(start), before) && Runs(cfg, After(cfg, Initial(start), before), waiting)
    requires var s := After(cfg, Initial(start), before);
             var t := After(cfg, s, waiting);
             && cfg.staleAfter > 0 && t.now >= s.now + cfg.staleAfter
             && j in s.jobs && Waits(s.jobs[j])
             && ClientEnabled(cfg, t, RecoveryScan(c, found))
             && Runs(cfg, Apply(cfg, t, RecoveryScan(c, found)), pass) && Survives(pass, c)
    ensures var s := After(cfg, Initial(start), before);
            var scanned := Apply(cfg, After(cfg, s, waiting), RecoveryScan(c, found));
            var end := After(cfg, scanned, pass);
            c in end.clients && end.clients[c].Recovery? && end.clients[c].todo == [] ==>
              !Untouched(cfg, scanned, pass, j, s.jobs[j])
  {
    var s := After(cfg, Initial(start), before);
    var t := After(cfg, s, waiting);
    var scanned := Apply(cfg, t, RecoveryScan(c, found));
    if Untouched(cfg, scanned, pass, j, s.jobs[j]) {
      UntouchedJobIsRecoverable(cfg, start, before, waiting, j);
      var place :| 0 <= place < |found| && found[place] == j;
      UntouchedIsAhead(cfg, scanned, pass, c, t.now, found, 0, place);
    }
  }

  lemma TakeEffect(cfg: Config, s: State, c: ClientId, j: JobId)
    requires ClientEnabled(cfg, s, RecoveryTake(c)) && s.clients[c].todo[0] == j
    requires j in s.jobs && IsStale(s.jobs[j], s.clients[c].now, cfg.staleAfter)
    ensures var client := s.clients[c];
            Apply(cfg, s, RecoveryTake(c)) ==
              s.(jobs := s.jobs[j := Reset(s.jobs[j], client.now)],
                 clients := s.clients[c := Recovery(client.now, client.todo[1..], Stamping(j))])
  {}

  lemma StampEffect(cfg: Config, s: State, c: ClientId, j: JobId)
    requires c in s.clients && s.clients[c].Recovery? && s.clients[c].stage == Stamping(j)
    requires j in s.jobs && s.jobs[j].status == Pending
    ensures ClientEnabled(cfg, s, Stamp(c))
    ensures Apply(cfg, s, Stamp(c)) ==
              s.(jobs := s.jobs[j := s.jobs[j].(queuedAt := Some(s.now))],
                 clients := s.clients[c := s.clients[c].(stage := Publishing(j))])
  {}

  lemma PublishEffect(cfg: Config, s: State, c: ClientId, j: JobId)
    requires c in s.clients && s.clients[c].Recovery? && s.clients[c].stage == Publishing(j)
    ensures ClientEnabled(cfg, s, Publish(c, true, false))
    ensures Apply(cfg, s, Publish(c, true, false)) ==
              s.(queue := s.queue + multiset{j}, clients := s.clients[c := s.clients[c].(stage := Idle)])
  {}

  /** Taking such a job republishes it: three steps later it is PENDING and its message is queued. */
  lemma RecoveryRequeues(cfg: Config, s: State, c: ClientId, j: JobId)
    requires c in s.clients && s.clients[c].Recovery? && s.clients[c].stage.Idle?
    requires s.clients[c].todo != [] && s.clients[c].todo[0] == j
    requires j in s.jobs && IsStale(s.jobs[j], s.clients[c].now, cfg.staleAfter)
    ensures var steps := [RecoveryTake(c), Stamp(c), Publish(c, true, false)];
            && Runs(cfg, s, steps)
            && var t := After(cfg, s, steps);
               t == s.(jobs := s.jobs[j := Reset(s.jobs[j], s.now)],
                       queue := s.queue + multiset{j},
                       clients := s.clients[c := Recovery(s.clients[c].now, s.clients[c].todo[1..], Idle)])
  {
    TakeEffect(cfg, s, c, j);
    var s1 := Apply(cfg, s, RecoveryTake(c));
    StampEffect(cfg, s1, c, j);
    var s2 := Apply(cfg, s1, Stamp(c));
    PublishEffect(cfg, s2, c, j);
    assert Runs(cfg, s, []);
    OneMore(cfg, s, [], RecoveryTake(c));
    OneMore(cfg, s, [RecoveryTake(c)], Stamp(c));
    OneMore(cfg, s, [RecoveryTake(c), Stamp(c)], Publish(c, true, false));
    assert [] + [RecoveryTake(c)] == [RecoveryTake(c)];
    assert [RecoveryTake(c)] + [Stamp(c)] == [RecoveryTake(c), Stamp(c)];
    assert [RecoveryTake(c), Stamp(c)] + [Publish(c, true, false)] ==
             [RecoveryTake(c), Stamp(c), Publish(c, true, false)];
    var t := Apply(cfg, s2, Publish(c, true, false));
    assert t.jobs == s.jobs[j := Reset(s.jobs[j], s.now)];
    assert t.clients == s.clients[c := Recovery(s.clients[c].now, s.clients[c].todo[1..], Idle)];
  }
}
