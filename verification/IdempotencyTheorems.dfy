/** What holds of idempotent requests in every interleaving. */
module IdempotencyTheorems {
  import opened Common
  import opened Idempotency

  // ---------- The invariant ----------

  /** The lock admits one request past it for an identity, and for all identities that share the lock number. */
  lemma LockExcludes<W, R>(cfg: Config, s: State<W, R>, p: ProcessId, q: ProcessId)
    requires Inv(cfg, s) && Protected(s, p) && Protected(s, q)
    requires Holding(s.processes[p].stage) && Holding(s.processes[q].stage)
    requires cfg.lockKey(s.processes[p].call.identity.value) == cfg.lockKey(s.processes[q].call.identity.value)
    ensures p == q
  {
    assert LockOk(cfg, s, p) && LockOk(cfg, s, q);
  }

  /** Whatever ends a request leaves the other requests as they were. */
  lemma EndKeepsInv<W, R>(cfg: Config, s: State<W, R>, p: ProcessId)
    requires Inv(cfg, s) && p in s.processes
    ensures Inv(cfg, End(cfg, s, p))
  {
    var t := End(cfg, s, p);
    forall q | q in t.processes ensures LockOk(cfg, t, q) && StageOk(t, q) {
      assert LockOk(cfg, s, q) && LockOk(cfg, s, p) && StageOk(s, q);
    }
  }

  lemma PutKeepsInv<W, R>(cfg: Config, s: State<W, R>, p: ProcessId, stage: Stage<W, R>)
    requires Inv(cfg, s) && p in s.processes
    requires LockOk(cfg, Put(s, p, stage), p) && StageOk(Put(s, p, stage), p)
    ensures Inv(cfg, Put(s, p, stage))
  {
    var t := Put(s, p, stage);
    forall q | q in t.processes ensures LockOk(cfg, t, q) && StageOk(t, q) {
      assert q != p ==> LockOk(cfg, s, q) && StageOk(s, q);
    }
  }

  lemma LockKeepsInv<W, R>(cfg: Config, s: State<W, R>, key: int, p: ProcessId)
    requires Inv(cfg, s) && key !in s.locks
    ensures Inv(cfg, s.(locks := s.locks[key := p]))
  {
    var t := s.(locks := s.locks[key := p]);
    forall q | q in t.processes ensures LockOk(cfg, t, q) && StageOk(t, q) {
      assert LockOk(cfg, s, q) && StageOk(s, q);
    }
  }

  lemma CommitKeepsInv<W, R>(cfg: Config, s: State<W, R>, p: ProcessId)
    requires Inv(cfg, s) && Enabled(s, Step<W, R>.Commit(p))
    ensures Inv(cfg, Apply(cfg, s, Step<W, R>.Commit(p)))
  {
    var t := Apply(cfg, s, Step<W, R>.Commit(p));
    assert LockOk(cfg, s, p);
    forall q | q in t.processes ensures LockOk(cfg, t, q) && StageOk(t, q) {
      assert LockOk(cfg, s, q) && StageOk(s, q);
      if Protected(s, p) && Protected(s, q) && Holding(s.processes[q].stage) {
        assert s.processes[p].call.identity != s.processes[q].call.identity;
      }
    }
  }

  lemma CleanupKeepsInv<W, R>(cfg: Config, s: State<W, R>, e: Step<W, R>)
    requires Inv(cfg, s) && Enabled(s, e) && (e.CleanupStart? || e.CleanupDelete? || e.Tick? || e.Begin?)
    ensures Inv(cfg, Apply(cfg, s, e))
  {
    var t := Apply(cfg, s, e);
    forall q | q in t.processes ensures LockOk(cfg, t, q) && StageOk(t, q) {
      assert q in s.processes ==> LockOk(cfg, s, q) && StageOk(s, q);
    }
  }

  lemma RequestKeepsInv<W, R>(cfg: Config, s: State<W, R>, e: Step<W, R>)
    requires Inv(cfg, s) && Enabled(s, e) && (e.TryLock? || e.Fetch? || e.Judge? || e.Run? || e.Store? || e.Crash?)
    ensures Inv(cfg, Apply(cfg, s, e))
  {
    var p := e.p;
    assert LockOk(cfg, s, p) && StageOk(s, p);
    var t := Apply(cfg, s, e);
    if p !in t.processes {
      EndKeepsInv(cfg, s, p);
    } else if e.TryLock? {
      var key := cfg.lockKey(s.processes[p].call.identity.value);
      LockKeepsInv(cfg, s, key, p);
      PutKeepsInv(cfg, s.(locks := s.locks[key := p]), p, Locked);
    } else {
      PutKeepsInv(cfg, s, p, t.processes[p].stage);
    }
  }

  lemma StepKeepsInv<W, R>(cfg: Config, s: State<W, R>, e: Step<W, R>)
    requires Inv(cfg, s) && Enabled(s, e)
    ensures Inv(cfg, Apply(cfg, s, e))
  {
    if e.Commit? {
      CommitKeepsInv(cfg, s, e.p);
    } else if e.CleanupStart? || e.CleanupDelete? || e.Tick? || e.Begin? {
      CleanupKeepsInv(cfg, s, e);
    } else {
      RequestKeepsInv(cfg, s, e);
    }
  }

  lemma {:induction false} RunKeepsInv<W, R>(cfg: Config, s: State<W, R>, es: seq<Step<W, R>>)
    requires Inv(cfg, s) && Runs(cfg, s, es)
    ensures Inv(cfg, After(cfg, s, es))
    decreases |es|
  {
    if es == [] {
    } else {
      StepKeepsInv(cfg, s, es[0]);
      RunKeepsInv(cfg, Apply(cfg, s, es[0]), es[1..]);
    }
  }

  /** The insert of a record never meets another one: the identity has no row but the one just deleted. */
  lemma InsertNeverCollides<W, R>(cfg: Config, s: State<W, R>, p: ProcessId)
    requires Inv(cfg, s) && Protected(s, p) && Enabled(s, Step<W, R>.Commit(p))
    ensures var id := s.processes[p].call.identity.value;
            id in s.records ==> s.processes[p].stage.dropped == Some(s.records[id])
  {
    assert StageOk(s, p);
  }

  // ---------- At most one commit for a key and window ----------

  /** Request p is past the lookup under this identity, which found no live record at that time. */
  predicate Clear<W, R>(s: State<W, R>, p: ProcessId, id: Identity) {
    && p in s.processes && s.processes[p].call.identity == Some(id)
    && (s.processes[p].stage.Cleared? || s.processes[p].stage.Ran? || s.processes[p].stage.Recorded?)
  }

  /** The window of this record is over for everybody who is past the lookup, or the record is still there. */
  ghost predicate Guarded<W, R>(s: State<W, R>, id: Identity, record: Record<R>) {
    && (s.now >= record.expiresAt || (id in s.records && s.records[id] == record))
    && forall q | Clear(s, q, id) :: s.processes[q].stage.since >= record.expiresAt
  }

  /** A request that commits a record guards its window. */
  lemma CommitGuards<W, R>(cfg: Config, s: State<W, R>, p: ProcessId)
    requires Inv(cfg, s) && Protected(s, p) && Enabled(s, Step<W, R>.Commit(p))
    ensures Guarded(Apply(cfg, s, Step<W, R>.Commit(p)), s.processes[p].call.identity.value,
                    s.processes[p].stage.record)
  {
    var t := Apply(cfg, s, Step<W, R>.Commit(p));
    forall q | Clear(t, q, s.processes[p].call.identity.value) ensures false {
      LockExcludes(cfg, s, p, q);
    }
  }

  lemma GuardedStep<W, R>(cfg: Config, s: State<W, R>, e: Step<W, R>, id: Identity, record: Record<R>)
    requires Inv(cfg, s) && Enabled(s, e) && Guarded(s, id, record)
    ensures Guarded(Apply(cfg, s, e), id, record)
  {
    var t := Apply(cfg, s, e);
    if e.Judge? || e.Commit? {
      assert StageOk(s, e.p);
    }
    forall q | Clear(t, q, id) ensures t.processes[q].stage.since >= record.expiresAt {
      assert Clear(s, q, id) || (e.Judge? && e.p == q);
    }
  }

  lemma {:induction false} GuardedRun<W, R>(cfg: Config, s: State<W, R>, es: seq<Step<W, R>>, id: Identity,
                                            record: Record<R>)
    requires Inv(cfg, s) && Runs(cfg, s, es) && Guarded(s, id, record)
    ensures Inv(cfg, After(cfg, s, es)) && Guarded(After(cfg, s, es), id, record)
    decreases |es|
  {
    if es == [] {
    } else {
      StepKeepsInv(cfg, s, es[0]);
      GuardedStep(cfg, s, es[0], id, record);
      GuardedRun(cfg, Apply(cfg, s, es[0]), es[1..], id, record);
    }
  }

  /** From p's commit on, in any interleaving, its record guards its window. */
  lemma CommitGuardsForever<W, R>(cfg: Config, start: Time, before: seq<Step<W, R>>, p: ProcessId,
                                  after: seq<Step<W, R>>)
    requires Runs(cfg, Initial<W, R>(start), before)
    requires var s := After(cfg, Initial<W, R>(start), before);
             && Protected(s, p) && Enabled(s, Step<W, R>.Commit(p))
             && Runs(cfg, Apply(cfg, s, Step<W, R>.Commit(p)), after)
    ensures var s := After(cfg, Initial<W, R>(start), before);
            var t := After(cfg, Apply(cfg, s, Step<W, R>.Commit(p)), after);
            Inv(cfg, s) && Inv(cfg, t) && Guarded(t, s.processes[p].call.identity.value, s.processes[p].stage.record)
  {
    var s := After(cfg, Initial<W, R>(start), before);
    RunKeepsInv(cfg, Initial<W, R>(start), before);
    CommitGuards(cfg, s, p);
    StepKeepsInv(cfg, s, Step<W, R>.Commit(p));
    GuardedRun(cfg, Apply(cfg, s, Step<W, R>.Commit(p)), after, s.processes[p].call.identity.value,
               s.processes[p].stage.record);
  }

  /**
   * Two commits under one identity, in any interleaving of any number of
   * requests, crashes and cleanups: the second one found no live record, and so
   * ran its operation, a whole TTL after the first one was completed.
   */
  lemma CommitsAreATtlApart<W, R>(cfg: Config, start: Time, before: seq<Step<W, R>>, p: ProcessId,
                                  between: seq<Step<W, R>>, q: ProcessId)
    requires Runs(cfg, Initial<W, R>(start), before)
    requires var s := After(cfg, Initial<W, R>(start), before);
             && Protected(s, p) && Enabled(s, Step<W, R>.Commit(p))
             && Runs(cfg, Apply(cfg, s, Step<W, R>.Commit(p)), between)
             && var t := After(cfg, Apply(cfg, s, Step<W, R>.Commit(p)), between);
                && Protected(t, q) && Enabled(t, Step<W, R>.Commit(q))
                && t.processes[q].call.identity == s.processes[p].call.identity
    ensures var s := After(cfg, Initial<W, R>(start), before);
            var t := After(cfg, Apply(cfg, s, Step<W, R>.Commit(p)), between);
            && t.processes[q].stage.since >= s.processes[p].stage.record.completedAt + TTL
            && t.processes[q].stage.record.completedAt >= s.processes[p].stage.record.completedAt + TTL
  {
    CommitGuardsForever(cfg, start, before, p, between);
    var s := After(cfg, Initial<W, R>(start), before);
    var t := After(cfg, Apply(cfg, s, Step<W, R>.Commit(p)), between);
    assert Clear(t, q, s.processes[p].call.identity.value);
    assert StageOk(s, p) && StageOk(t, q);
  }

  /**
   * Inside the window the lookup of every request under this identity answers
   * the first response to the same fingerprint and a refusal to another one, it
   * ends the request there, and no operation runs.
   */
  lemma ReplayIsStable<W, R>(cfg: Config, start: Time, before: seq<Step<W, R>>, p: ProcessId,
                             between: seq<Step<W, R>>, q: ProcessId)
    requires Runs(cfg, Initial<W, R>(start), before)
    requires var s := After(cfg, Initial<W, R>(start), before);
             && Protected(s, p) && Enabled(s, Step<W, R>.Commit(p))
             && Runs(cfg, Apply(cfg, s, Step<W, R>.Commit(p)), between)
             && var t := After(cfg, Apply(cfg, s, Step<W, R>.Commit(p)), between);
                && Protected(t, q) && t.processes[q].call.identity == s.processes[p].call.identity
                && t.now < s.processes[p].stage.record.completedAt + TTL
    ensures var s := After(cfg, Initial<W, R>(start), before);
            var t := After(cfg, Apply(cfg, s, Step<W, R>.Commit(p)), between);
            var judge := Step<W, R>.Judge(q);
            && !Clear(t, q, s.processes[p].call.identity.value)
            && (Enabled(t, judge) ==>
                  && Answer(cfg, t, judge) ==
                     (if t.processes[q].call.fingerprint == s.processes[p].call.fingerprint
                      then Answer(cfg, s, Step<W, R>.Commit(p)) else Some(KeyReused))
                  && Apply(cfg, t, judge) == End(cfg, t, q))
  {
    CommitGuardsForever(cfg, start, before, p, between);
    var s := After(cfg, Initial<W, R>(start), before);
    var t := After(cfg, Apply(cfg, s, Step<W, R>.Commit(p)), between);
    RecordedFingerprintRun(cfg, Initial<W, R>(start), before);
    assert StageOk(s, p) && StageOk(t, q) && FingerprintOk(s, p);
  }

  /** A record carries its own request's fingerprint. */
  predicate FingerprintOk<W, R>(s: State<W, R>, p: ProcessId)
    requires p in s.processes
  {
    s.processes[p].stage.Recorded? ==> s.processes[p].stage.record.fingerprint == s.processes[p].call.fingerprint
  }

  lemma FingerprintStep<W, R>(cfg: Config, s: State<W, R>, e: Step<W, R>, p: ProcessId)
    requires Enabled(s, e) && p in Apply(cfg, s, e).processes && (p in s.processes ==> FingerprintOk(s, p))
    ensures FingerprintOk(Apply(cfg, s, e), p)
  {}

  lemma {:induction false} RecordedFingerprintRun<W, R>(cfg: Config, s: State<W, R>, es: seq<Step<W, R>>)
    requires Runs(cfg, s, es) && forall p | p in s.processes :: FingerprintOk(s, p)
    ensures forall p | p in After(cfg, s, es).processes :: FingerprintOk(After(cfg, s, es), p)
    decreases |es|
  {
    if es == [] {
    } else {
      forall p | p in Apply(cfg, s, es[0]).processes ensures FingerprintOk(Apply(cfg, s, es[0]), p) {
        FingerprintStep(cfg, s, es[0], p);
      }
      RecordedFingerprintRun(cfg, Apply(cfg, s, es[0]), es[1..]);
    }
  }

  /** Only a commit changes what others see; a raised or 5xx operation and a crash leave it unchanged. */
  lemma OnlyCommitsChange<W, R>(cfg: Config, s: State<W, R>, e: Step<W, R>)
    requires Inv(cfg, s) && Enabled(s, e)
    ensures Apply(cfg, s, e).committed ==
              if e.Commit? then s.committed + [s.processes[e.p].stage.writes] else s.committed
    ensures forall id | !(e.Commit? && s.processes[e.p].call.identity == Some(id)) ::
              LiveRecord(Apply(cfg, s, e).records, id, Apply(cfg, s, e).now) ==
                LiveRecord(s.records, id, Apply(cfg, s, e).now)
    ensures e.Commit? && Protected(s, e.p) ==>
              && s.processes[e.p].call.identity.value in Apply(cfg, s, e).records
              && Apply(cfg, s, e).records[s.processes[e.p].call.identity.value] == s.processes[e.p].stage.record
  {
  }

  // ---------- Which operations take effect ----------

  /** A protected operation that raises, or answers anything but 2xx to 4xx, ends its request and leaves nothing. */
  lemma OtherStatusesLeaveNothing<W, R>(cfg: Config, s: State<W, R>, p: ProcessId, outcome: Outcome<W, R>)
    requires Protected(s, p) && Enabled(s, Step<W, R>.Run(p, outcome))
    ensures var t := Apply(cfg, s, Step<W, R>.Run(p, outcome));
            && t.committed == s.committed && t.records == s.records
            && (p in t.processes <==> outcome.Returned? && 200 <= outcome.status < 500)
            && Answer(cfg, s, Step<W, R>.Run(p, outcome)) ==
                 (if outcome.Raised? then Some(Failed)
                  else if 200 <= outcome.status < 500 then None
                  else Some(Reply(outcome.status, outcome.data)))
  {}

  /** What an operation returned is what is recorded for a day, answered and, with its writes, committed. */
  lemma OperationTakesEffect<W, R>(cfg: Config, s: State<W, R>, p: ProcessId, outcome: Outcome<W, R>)
    requires Protected(s, p) && Enabled(s, Step<W, R>.Run(p, outcome))
    requires outcome.Returned? && 200 <= outcome.status < 500
    ensures var ran := Apply(cfg, s, Step<W, R>.Run(p, outcome));
            && Enabled(ran, Step<W, R>.Store(p))
            && var stored := Apply(cfg, ran, Step<W, R>.Store(p));
               && stored.committed == ran.committed == s.committed && stored.records == ran.records == s.records
               && Enabled(stored, Step<W, R>.Commit(p))
               && Answer(cfg, stored, Step<W, R>.Commit(p)) == Some(Reply(outcome.status, outcome.data))
               && var done := Apply(cfg, stored, Step<W, R>.Commit(p));
                  && done.committed == s.committed + [outcome.writes]
                  && done.records == s.records[s.processes[p].call.identity.value :=
                       Record(s.processes[p].call.fingerprint, outcome.status, outcome.data, s.now, s.now + 86400)]
                  && p !in done.processes
  {}

  /** Every status recorded, or on its way to be, is between 200 and 499. */
  ghost predicate StatusesKept<W, R>(s: State<W, R>) {
    && (forall id | id in s.records :: 200 <= s.records[id].status < 500)
    && (forall p | p in s.processes :: StatusKept(s.processes[p]))
  }

  predicate StatusKept<W, R>(process: Process<W, R>) {
    process.call.identity.Some? ==>
      && (process.stage.Ran? ==> 200 <= process.stage.status < 500)
      && (process.stage.Recorded? ==> 200 <= process.stage.record.status < 500)
  }

  lemma ProcessStatusStep<W, R>(cfg: Config, s: State<W, R>, e: Step<W, R>, p: ProcessId)
    requires Enabled(s, e) && p in Apply(cfg, s, e).processes && (p in s.processes ==> StatusKept(s.processes[p]))
    ensures StatusKept(Apply(cfg, s, e).processes[p])
  {}

  lemma StatusesStep<W, R>(cfg: Config, s: State<W, R>, e: Step<W, R>)
    requires StatusesKept(s) && Enabled(s, e)
    ensures StatusesKept(Apply(cfg, s, e))
  {
    forall p | p in Apply(cfg, s, e).processes ensures StatusKept(Apply(cfg, s, e).processes[p]) {
      ProcessStatusStep(cfg, s, e, p);
    }
  }

  lemma {:induction false} StatusesFrom<W, R>(cfg: Config, s: State<W, R>, es: seq<Step<W, R>>)
    requires StatusesKept(s) && Runs(cfg, s, es)
    ensures StatusesKept(After(cfg, s, es))
    decreases |es|
  {
    if es == [] {
    } else {
      StatusesStep(cfg, s, es[0]);
      StatusesFrom(cfg, Apply(cfg, s, es[0]), es[1..]);
    }
  }

  /** In every run every stored record can be replayed as a 2xx, 3xx or 4xx response. */
  lemma RecordedStatuses<W, R>(cfg: Config, start: Time, es: seq<Step<W, R>>, id: Identity)
    requires Runs(cfg, Initial<W, R>(start), es) && id in After(cfg, Initial<W, R>(start), es).records
    ensures 200 <= After(cfg, Initial<W, R>(start), es).records[id].status < 500
  {
    StatusesFrom(cfg, Initial<W, R>(start), es);
  }

  /** A request whose lock number is taken is refused at once, and takes nothing. */
  lemma LockAnswers<W, R>(cfg: Config, s: State<W, R>, p: ProcessId)
    requires Enabled(s, Step<W, R>.TryLock(p))
    ensures var key := cfg.lockKey(s.processes[p].call.identity.value);
            var t := Apply(cfg, s, Step<W, R>.TryLock(p));
            && t.records == s.records && t.committed == s.committed
            && if key in s.locks then
                 Answer(cfg, s, Step<W, R>.TryLock(p)) == Some(InProgress) && t.locks == s.locks && p !in t.processes
               else
                 Answer(cfg, s, Step<W, R>.TryLock(p)) == None && t.locks == s.locks[key := p] && p in t.processes
  {}

  /** However a request ends, its lock is free afterwards and no other lock has moved. */
  lemma EndReleasesLock<W, R>(cfg: Config, s: State<W, R>, e: Step<W, R>)
    requires Inv(cfg, s) && Enabled(s, e) && IsRequestStep(e) && e.p in s.processes
    requires e.p !in Apply(cfg, s, e).processes && Holding(s.processes[e.p].stage)
    ensures var t := Apply(cfg, s, e);
            t.locks == if Protected(s, e.p) then s.locks - {cfg.lockKey(s.processes[e.p].call.identity.value)}
                       else s.locks
  {}

  /** A judged lookup replays the record that it fetched exactly while that record's expiry lies ahead. */
  lemma LookupAnswers<W, R>(cfg: Config, s: State<W, R>, p: ProcessId)
    requires Inv(cfg, s) && Enabled(s, Step<W, R>.Judge(p))
    ensures var call := s.processes[p].call;
            var id := call.identity.value;
            var answer := Answer(cfg, s, Step<W, R>.Judge(p));
            && (answer.Some? <==> p !in Apply(cfg, s, Step<W, R>.Judge(p)).processes)
            && (id in s.records && s.now < s.records[id].expiresAt ==>
                  answer == Some(if s.records[id].fingerprint == call.fingerprint
                                 then Reply(s.records[id].status, s.records[id].data) else KeyReused))
            && (id !in s.records || s.records[id].expiresAt <= s.now ==> answer.None?)
  {
    assert StageOk(s, p);
  }

  /** A cleanup deletes exactly the records whose expiry had come when it took its cutoff, and a crash nothing. */
  lemma CleanupDeletesExactly<W, R>(cfg: Config, s: State<W, R>, c: ProcessId, id: Identity)
    requires Enabled(s, Step<W, R>.CleanupDelete(c))
    ensures var t := Apply(cfg, s, Step<W, R>.CleanupDelete(c));
            && (id in t.records <==> id in s.records && s.cleaners[c] < s.records[id].expiresAt)
            && (id in t.records ==> t.records[id] == s.records[id])
            && t.committed == s.committed && t.locks == s.locks && t.processes == s.processes
    ensures forall d | d !in s.cleaners ::
              Apply(cfg, s, Step<W, R>.CleanupStart(d)) == s.(cleaners := s.cleaners[d := s.now])
  {}

  // ---------- Cleanup cannot be observed ----------

  predicate IsCleanup<W, R>(e: Step<W, R>) {
    e.CleanupStart? || e.CleanupDelete?
  }

  /** An expired record counts as none. */
  function Unexpired<R>(found: Option<Record<R>>, now: Time): Option<Record<R>> {
    if found.Some? && found.value.expiresAt > now then found else None
  }

  /** What the rest of a request depends on. */
  function View<W, R>(stage: Stage<W, R>, now: Time): Stage<W, R> {
    match stage
    case Fetched(found) => Fetched(Unexpired(found, now))
    case Cleared(since, _) => Cleared(since, None)
    case Ran(since, _, status, data, writes) => Ran(since, None, status, data, writes)
    case Recorded(since, _, record, writes) => Recorded(since, None, record, writes)
    case _ => stage
  }

  ghost predicate SameProcess<W, R>(s: State<W, R>, t: State<W, R>, p: ProcessId)
    requires p in s.processes && p in t.processes
  {
    && s.processes[p].call == t.processes[p].call
    && View(s.processes[p].stage, s.now) == View(t.processes[p].stage, t.now)
  }

  ghost predicate SameRecord<W, R>(s: State<W, R>, t: State<W, R>, id: Identity) {
    LiveRecord(s.records, id, s.now) == LiveRecord(t.records, id, t.now)
  }

  /** The same clock, writes and locks, the same unexpired records, and requests at the same point. */
  ghost predicate Alike<W, R>(s: State<W, R>, t: State<W, R>) {
    && s.now == t.now && s.committed == t.committed && s.locks == t.locks
    && s.processes.Keys == t.processes.Keys
    && (forall p | p in s.processes :: SameProcess(s, t, p))
    && (forall id :: SameRecord(s, t, id))
  }

  lemma AlikeTick<W, R>(cfg: Config, s: State<W, R>, t: State<W, R>, later: Time)
    requires Alike(s, t) && s.now <= later
    ensures Alike(Apply(cfg, s, Step<W, R>.Tick(later)), Apply(cfg, t, Step<W, R>.Tick(later)))
  {
    var s', t' := Apply(cfg, s, Step<W, R>.Tick(later)), Apply(cfg, t, Step<W, R>.Tick(later));
    forall p | p in s'.processes ensures SameProcess(s', t', p) {
      assert SameProcess(s, t, p);
      assert View(View(s.processes[p].stage, s.now), later) == View(s'.processes[p].stage, later);
      assert View(View(t.processes[p].stage, t.now), later) == View(t'.processes[p].stage, later);
    }
    forall id ensures SameRecord(s', t', id) {
      assert SameRecord(s, t, id);
    }
  }

  lemma AlikeEnabled<W, R>(s: State<W, R>, t: State<W, R>, e: Step<W, R>)
    requires Alike(s, t) && Enabled(s, e) && !IsCleanup(e)
    ensures Enabled(t, e)
  {
    if !e.Tick? {
      assert e.p in s.processes <==> e.p in t.processes;
      assert e.p in s.processes ==> SameProcess(s, t, e.p);
    }
  }

  lemma AlikeAnswer<W, R>(cfg: Config, s: State<W, R>, t: State<W, R>, e: Step<W, R>)
    requires Alike(s, t) && Enabled(s, e) && !IsCleanup(e) && Enabled(t, e)
    ensures Answer(cfg, s, e) == Answer(cfg, t, e)
  {
    if e.TryLock? || e.Judge? || e.Run? || e.Commit? {
      assert SameProcess(s, t, e.p);
    }
  }

  lemma AlikeEnds<W, R>(cfg: Config, s: State<W, R>, t: State<W, R>, e: Step<W, R>)
    requires Alike(s, t) && Enabled(s, e) && IsRequestStep(e) && !e.Begin? && Enabled(t, e)
    ensures Ends(cfg, s, e) == Ends(cfg, t, e)
    ensures s.processes[e.p].call == t.processes[e.p].call
            && Holding(s.processes[e.p].stage) == Holding(t.processes[e.p].stage)
  {
    assert SameProcess(s, t, e.p);
  }

  lemma AlikeNextStage<W, R>(cfg: Config, s: State<W, R>, t: State<W, R>, e: Step<W, R>)
    requires Alike(s, t) && Enabled(s, e) && IsRequestStep(e) && !e.Begin? && Enabled(t, e)
    requires !Ends(cfg, s, e) && !Ends(cfg, t, e)
    ensures View(NextStage(cfg, s, e), s.now) == View(NextStage(cfg, t, e), t.now)
  {
    assert SameProcess(s, t, e.p);
    if e.Fetch? {
      assert SameRecord(s, t, s.processes[e.p].call.identity.value);
    }
  }

  lemma AlikeWritten<W, R>(s: State<W, R>, t: State<W, R>, p: ProcessId)
    requires Alike(s, t) && Enabled(s, Step<W, R>.Commit(p)) && Enabled(t, Step<W, R>.Commit(p))
    ensures Alike(Written(s, p), Written(t, p))
  {
    assert SameProcess(s, t, p);
    var s', t' := Written(s, p), Written(t, p);
    forall q | q in s'.processes ensures SameProcess(s', t', q) {
      assert SameProcess(s, t, q);
    }
    forall id ensures SameRecord(s', t', id) {
      assert SameRecord(s, t, id);
    }
  }

  lemma AlikeEnd<W, R>(cfg: Config, s: State<W, R>, t: State<W, R>, p: ProcessId)
    requires Alike(s, t) && p in s.processes && p in t.processes
    ensures Alike(End(cfg, s, p), End(cfg, t, p))
  {
    assert SameProcess(s, t, p);
    var s', t' := End(cfg, s, p), End(cfg, t, p);
    forall q | q in s'.processes ensures SameProcess(s', t', q) {
      assert SameProcess(s, t, q);
    }
    forall id ensures SameRecord(s', t', id) {
      assert SameRecord(s, t, id);
    }
  }

  lemma AlikePut<W, R>(s: State<W, R>, t: State<W, R>, locks: map<int, ProcessId>, p: ProcessId, process: Process<W, R>,
                       process': Process<W, R>)
    requires Alike(s, t) && process.call == process'.call && View(process.stage, s.now) == View(process'.stage, t.now)
    ensures Alike(s.(locks := locks, processes := s.processes[p := process]),
                  t.(locks := locks, processes := t.processes[p := process']))
  {
    var s' := s.(locks := locks, processes := s.processes[p := process]);
    var t' := t.(locks := locks, processes := t.processes[p := process']);
    forall q | q in s'.processes ensures SameProcess(s', t', q) {
      assert q != p ==> SameProcess(s, t, q);
    }
    forall id ensures SameRecord(s', t', id) {
      assert SameRecord(s, t, id);
    }
  }

  lemma AlikeStep<W, R>(cfg: Config, s: State<W, R>, t: State<W, R>, e: Step<W, R>)
    requires Alike(s, t) && Enabled(s, e) && !IsCleanup(e) && Enabled(t, e)
    ensures Alike(Apply(cfg, s, e), Apply(cfg, t, e))
  {
    if e.Tick? {
      AlikeTick(cfg, s, t, e.later);
    } else if e.Begin? {
      AlikePut(s, t, s.locks, e.p, Process(e.call, Begun), Process(e.call, Begun));
    } else {
      AlikeEnds(cfg, s, t, e);
      if e.Commit? {
        AlikeWritten(s, t, e.p);
        AlikeEnd(cfg, Written(s, e.p), Written(t, e.p), e.p);
      } else if Ends(cfg, s, e) {
        AlikeEnd(cfg, s, t, e.p);
      } else {
        AlikeNextStage(cfg, s, t, e);
        var locks := if e.TryLock? then s.locks[cfg.lockKey(s.processes[e.p].call.identity.value) := e.p] else s.locks;
        AlikePut(s, t, locks, e.p, s.processes[e.p].(stage := NextStage(cfg, s, e)),
                 t.processes[e.p].(stage := NextStage(cfg, t, e)));
      }
    }
  }

  /** A cleanup deletes nothing that a request could still see. */
  lemma CleanupIsAlike<W, R>(cfg: Config, s: State<W, R>, t: State<W, R>, e: Step<W, R>)
    requires Inv(cfg, s) && Alike(s, t) && Enabled(s, e) && IsCleanup(e)
    ensures Alike(Apply(cfg, s, e), t)
  {
    var s' := Apply(cfg, s, e);
    forall p | p in s'.processes ensures SameProcess(s', t, p) {
      assert SameProcess(s, t, p);
    }
    forall id ensures SameRecord(s', t, id) {
      assert SameRecord(s, t, id);
    }
  }

  /** The responses of a run, in order, with the requests that get them. */
  function Answers<W, R>(cfg: Config, s: State<W, R>, es: seq<Step<W, R>>): seq<(ProcessId, Response<R>)>
    requires Runs(cfg, s, es)
    decreases |es|
  {
    if es == [] then []
    else
      var rest := Answers(cfg, Apply(cfg, s, es[0]), es[1..]);
      if Answer(cfg, s, es[0]).Some? then [(es[0].p, Answer(cfg, s, es[0]).value)] + rest else rest
  }

  function WithoutCleanup<W, R>(es: seq<Step<W, R>>): seq<Step<W, R>> {
    if es == [] then []
    else if IsCleanup(es[0]) then WithoutCleanup(es[1..])
    else [es[0]] + WithoutCleanup(es[1..])
  }

  lemma {:induction false} CleanupInvisibleFrom<W, R>(cfg: Config, s: State<W, R>, t: State<W, R>, es: seq<Step<W, R>>)
    requires Inv(cfg, s) && Alike(s, t) && Runs(cfg, s, es)
    ensures Runs(cfg, t, WithoutCleanup(es))
    ensures Answers(cfg, s, es) == Answers(cfg, t, WithoutCleanup(es))
    ensures Alike(After(cfg, s, es), After(cfg, t, WithoutCleanup(es)))
    decreases |es|
  {
    if es == [] {
    } else {
      StepKeepsInv(cfg, s, es[0]);
      if IsCleanup(es[0]) {
        CleanupIsAlike(cfg, s, t, es[0]);
        CleanupInvisibleFrom(cfg, Apply(cfg, s, es[0]), t, es[1..]);
      } else {
        AlikeEnabled(s, t, es[0]);
        AlikeAnswer(cfg, s, t, es[0]);
        AlikeStep(cfg, s, t, es[0]);
        CleanupInvisibleFrom(cfg, Apply(cfg, s, es[0]), Apply(cfg, t, es[0]), es[1..]);
        KeptStep(cfg, t, es[0], WithoutCleanup(es[1..]));
      }
    }
  }

  lemma KeptStep<W, R>(cfg: Config, t: State<W, R>, e: Step<W, R>, rest: seq<Step<W, R>>)
    requires Enabled(t, e) && Runs(cfg, Apply(cfg, t, e), rest)
    ensures Runs(cfg, t, [e] + rest) && After(cfg, t, [e] + rest) == After(cfg, Apply(cfg, t, e), rest)
    ensures Answers(cfg, t, [e] + rest) ==
            (if Answer(cfg, t, e).Some? then [(e.p, Answer(cfg, t, e).value)] else [])
            + Answers(cfg, Apply(cfg, t, e), rest)
  {
    assert ([e] + rest)[1..] == rest;
  }

  /**
   * Cleanup tasks may run at any moment, also in the middle of requests: without
   * them the same schedule is possible, with the same responses and writes.
   */
  lemma CleanupIsInvisible<W, R>(cfg: Config, start: Time, es: seq<Step<W, R>>)
    requires Runs(cfg, Initial<W, R>(start), es)
    ensures Runs(cfg, Initial<W, R>(start), WithoutCleanup(es))
    ensures Answers(cfg, Initial<W, R>(start), es) == Answers(cfg, Initial<W, R>(start), WithoutCleanup(es))
    ensures After(cfg, Initial<W, R>(start), es).committed ==
              After(cfg, Initial<W, R>(start), WithoutCleanup(es)).committed
  {
    CleanupInvisibleFrom(cfg, Initial<W, R>(start), Initial<W, R>(start), es);
  }
}
