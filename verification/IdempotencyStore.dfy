/** `run_idempotently` and the cleanup task as methods over the tables, the locks and the clock. */
module IdempotencyStore {
  import opened Common
  import opened Idempotency
  import opened IdempotencyTheorems

  // ---------- One request that nothing interrupts, as a run ----------

  predicate Refused<W, R>(cfg: Config, s: State<W, R>, call: Call) {
    call.identity.Some? && cfg.lockKey(call.identity.value) in s.locks
  }

  /** The stored record that answers the call. */
  function Replayed<W, R>(s: State<W, R>, call: Call): Option<Record<R>> {
    if call.identity.Some? then LiveRecord(s.records, call.identity.value, s.now) else None
  }

  function AnswerAlone<W, R>(cfg: Config, s: State<W, R>, call: Call, outcome: Outcome<W, R>): Response<R> {
    var replayed := Replayed(s, call);
    if Refused(cfg, s, call) then InProgress
    else if replayed.Some? then
      if replayed.value.fingerprint != call.fingerprint then KeyReused
      else Reply(replayed.value.status, replayed.value.data)
    else if outcome.Raised? then Failed
    else Reply(outcome.status, outcome.data)
  }

  /** The call ends with a commit of its operation. */
  predicate CommitsAlone<W, R>(cfg: Config, s: State<W, R>, call: Call, outcome: Outcome<W, R>) {
    && !Refused(cfg, s, call) && Replayed(s, call).None?
    && outcome.Returned? && (call.identity.Some? ==> Persisted(outcome.status))
  }

  function AfterAlone<W, R>(cfg: Config, s: State<W, R>, call: Call, outcome: Outcome<W, R>, later: Time): State<W, R> {
    var ended := s.(now := later);
    if !CommitsAlone(cfg, s, call, outcome) then ended
    else
      var written := ended.(committed := s.committed + [outcome.writes]);
      if call.identity.None? then written
      else written.(records := s.records[call.identity.value :=
                       Record(call.fingerprint, outcome.status, outcome.data, later, later + TTL)])
  }

  ghost predicate IsRun<W, R>(cfg: Config, s: State<W, R>, es: seq<Step<W, R>>, t: State<W, R>,
                              answers: seq<(ProcessId, Response<R>)>) {
    Runs(cfg, s, es) && After(cfg, s, es) == t && Answers(cfg, s, es) == answers
  }

  lemma {:induction false} OneMore<W, R>(cfg: Config, s: State<W, R>, es: seq<Step<W, R>>, e: Step<W, R>)
    requires Runs(cfg, s, es) && Enabled(After(cfg, s, es), e)
    ensures Runs(cfg, s, es + [e]) && After(cfg, s, es + [e]) == Apply(cfg, After(cfg, s, es), e)
    ensures Answers(cfg, s, es + [e]) == Answers(cfg, s, es)
            + if Answer(cfg, After(cfg, s, es), e).Some? then [(e.p, Answer(cfg, After(cfg, s, es), e).value)] else []
    decreases |es|
  {
    if es == [] {
      assert es + [e] == [e] && [e][1..] == [];
    } else {
      assert (es + [e])[1..] == es[1..] + [e];
      OneMore(cfg, Apply(cfg, s, es[0]), es[1..], e);
    }
  }

  lemma Next<W, R>(cfg: Config, s: State<W, R>, es: seq<Step<W, R>>, t: State<W, R>, e: Step<W, R>)
    returns (more: seq<Step<W, R>>)
    requires IsRun(cfg, s, es, t, []) && Enabled(t, e)
    ensures IsRun(cfg, s, more, Apply(cfg, t, e),
                  if Answer(cfg, t, e).Some? then [(e.p, Answer(cfg, t, e).value)] else [])
  {
    OneMore(cfg, s, es, e);
    more := es + [e];
  }

  /** The state in which only p has moved: past its lock, at this stage. */
  function PastLock<W, R>(cfg: Config, s: State<W, R>, p: ProcessId, call: Call, stage: Stage<W, R>,
                          now: Time): State<W, R>
    requires call.identity.Some?
  {
    s.(now := now, locks := s.locks[cfg.lockKey(call.identity.value) := p],
       processes := s.processes[p := Process(call, stage)])
  }

  lemma AdvanceAlone<W, R>(cfg: Config, s: State<W, R>, p: ProcessId, call: Call, stage: Stage<W, R>, now: Time,
                           e: Step<W, R>)
    requires p !in s.processes && call.identity.Some? && !Refused(cfg, s, call) && !stage.Begun?
    requires e.Fetch? || e.Judge? || e.Run? || e.Store? || e.Commit?
    requires e.p == p && Enabled(PastLock(cfg, s, p, call, stage, now), e)
    ensures var t := PastLock(cfg, s, p, call, stage, now);
            Apply(cfg, t, e) ==
              if !Ends(cfg, t, e) then PastLock(cfg, s, p, call, NextStage(cfg, t, e), now)
              else (if e.Commit? then Written(t, p) else t).(locks := s.locks, processes := s.processes)
  {
    var t := PastLock(cfg, s, p, call, stage, now);
    assert t.processes - {p} == s.processes && t.locks - {cfg.lockKey(call.identity.value)} == s.locks;
    if !Ends(cfg, t, e) {
      var stage' := NextStage(cfg, t, e);
      assert t.processes[p := Process(call, stage')] == s.processes[p := Process(call, stage')];
    }
  }

  /** Up to the lock: the request is refused, or it holds the lock of its identity. */
  lemma LockAlone<W, R>(cfg: Config, s: State<W, R>, p: ProcessId, call: Call) returns (es: seq<Step<W, R>>)
    requires p !in s.processes && call.identity.Some?
    ensures Refused(cfg, s, call) ==> IsRun(cfg, s, es, s, [(p, InProgress)])
    ensures !Refused(cfg, s, call) ==> IsRun(cfg, s, es, PastLock(cfg, s, p, call, Locked, s.now), [])
  {
    assert IsRun(cfg, s, [], s, []);
    es := Next(cfg, s, [], s, Step<W, R>.Begin(p, call));
    var begun := s.(processes := s.processes[p := Process(call, Begun)]);
    es := Next(cfg, s, es, begun, Step<W, R>.TryLock(p));
    if Refused(cfg, s, call) {
      assert begun.processes - {p} == s.processes;
    } else {
      assert begun.processes[p := Process(call, Locked)] == s.processes[p := Process(call, Locked)];
    }
  }

  function Found<W, R>(s: State<W, R>, id: Identity): Option<Record<R>> {
    if id in s.records then Some(s.records[id]) else None
  }

  /** From the lock to the judged lookup: the request is answered, or it may run its operation. */
  lemma LookupAlone<W, R>(cfg: Config, s: State<W, R>, p: ProcessId, call: Call, outcome: Outcome<W, R>)
    returns (es: seq<Step<W, R>>)
    requires p !in s.processes && call.identity.Some? && !Refused(cfg, s, call)
    ensures Replayed(s, call).Some? ==> IsRun(cfg, s, es, s, [(p, AnswerAlone(cfg, s, call, outcome))])
    ensures Replayed(s, call).None? ==>
            IsRun(cfg, s, es, PastLock(cfg, s, p, call, Cleared(s.now, Found(s, call.identity.value)), s.now), [])
  {
    var found := Found(s, call.identity.value);
    es := LockAlone(cfg, s, p, call);
    AdvanceAlone(cfg, s, p, call, Locked, s.now, Step<W, R>.Fetch(p));
    es := Next(cfg, s, es, PastLock(cfg, s, p, call, Locked, s.now), Step<W, R>.Fetch(p));
    AdvanceAlone(cfg, s, p, call, Fetched(found), s.now, Step<W, R>.Judge(p));
    es := Next(cfg, s, es, PastLock(cfg, s, p, call, Fetched(found), s.now), Step<W, R>.Judge(p));
  }

  /** From the judged lookup to the end of the transaction. */
  lemma FinishAlone<W, R>(cfg: Config, s: State<W, R>, p: ProcessId, call: Call, outcome: Outcome<W, R>, later: Time,
                          dropped: Option<Record<R>>, es: seq<Step<W, R>>) returns (more: seq<Step<W, R>>)
    requires p !in s.processes && call.identity.Some? && !Refused(cfg, s, call) && Replayed(s, call).None?
             && s.now <= later
    requires IsRun(cfg, s, es, PastLock(cfg, s, p, call, Cleared(s.now, dropped), s.now), [])
    ensures IsRun(cfg, s, more, AfterAlone(cfg, s, call, outcome, later), [(p, AnswerAlone(cfg, s, call, outcome))])
  {
    more := Next(cfg, s, es, PastLock(cfg, s, p, call, Cleared(s.now, dropped), s.now), Step<W, R>.Tick(later));
    var ready := PastLock(cfg, s, p, call, Cleared(s.now, dropped), later);
    AdvanceAlone(cfg, s, p, call, Cleared(s.now, dropped), later, Step<W, R>.Run(p, outcome));
    more := Next(cfg, s, more, ready, Step<W, R>.Run(p, outcome));
    if CommitsAlone(cfg, s, call, outcome) {
      more := CommitAlone(cfg, s, p, call, outcome, later, dropped, more);
    }
  }

  lemma CommitAlone<W, R>(cfg: Config, s: State<W, R>, p: ProcessId, call: Call, outcome: Outcome<W, R>, later: Time,
                          dropped: Option<Record<R>>, es: seq<Step<W, R>>) returns (more: seq<Step<W, R>>)
    requires p !in s.processes && call.identity.Some? && CommitsAlone(cfg, s, call, outcome) && s.now <= later
    requires IsRun(cfg, s, es,
                   PastLock(cfg, s, p, call, Ran(s.now, dropped, outcome.status, outcome.data, outcome.writes), later),
                   [])
    ensures IsRun(cfg, s, more, AfterAlone(cfg, s, call, outcome, later), [(p, Reply(outcome.status, outcome.data))])
  {
    var ran := Ran(s.now, dropped, outcome.status, outcome.data, outcome.writes);
    var record := Record(call.fingerprint, outcome.status, outcome.data, later, later + TTL);
    var recorded := Recorded(s.now, dropped, record, outcome.writes);
    AdvanceAlone(cfg, s, p, call, ran, later, Step<W, R>.Store(p));
    more := Next(cfg, s, es, PastLock(cfg, s, p, call, ran, later), Step<W, R>.Store(p));
    AdvanceAlone(cfg, s, p, call, recorded, later, Step<W, R>.Commit(p));
    more := Next(cfg, s, more, PastLock(cfg, s, p, call, recorded, later), Step<W, R>.Commit(p));
  }

  lemma UnprotectedAlone<W, R>(cfg: Config, s: State<W, R>, p: ProcessId, call: Call, outcome: Outcome<W, R>,
                               later: Time)
    returns (es: seq<Step<W, R>>)
    requires p !in s.processes && call.identity.None? && s.now <= later
    ensures IsRun(cfg, s, es, AfterAlone(cfg, s, call, outcome, later), [(p, AnswerAlone(cfg, s, call, outcome))])
  {
    assert IsRun(cfg, s, [], s, []);
    es := Next(cfg, s, [], s, Step<W, R>.Begin(p, call));
    var begun := s.(processes := s.processes[p := Process(call, Begun)]);
    es := Next(cfg, s, es, begun, Step<W, R>.Tick(later));
    var ready := begun.(now := later);
    assert ready.processes - {p} == s.processes;
    if outcome.Raised? {
      assert AnswerAlone(cfg, s, call, outcome) == Failed;
      es := Next(cfg, s, es, ready, Step<W, R>.Run(p, outcome));
    } else {
      var ran := Ran(later, None, outcome.status, outcome.data, outcome.writes);
      var t := ready.(processes := s.processes[p := Process(call, ran)]);
      assert ready.processes[p := Process(call, ran)] == t.processes;
      es := Next(cfg, s, es, ready, Step<W, R>.Run(p, outcome));
      assert t.processes - {p} == s.processes;
      assert AnswerAlone(cfg, s, call, outcome) == Reply(outcome.status, outcome.data);
      es := Next(cfg, s, es, t, Step<W, R>.Commit(p));
    }
  }

  /** A request that nothing interrupts is a run of the protocol with this answer and this state at its end. */
  lemma AloneIsARun<W, R>(cfg: Config, s: State<W, R>, p: ProcessId, call: Call, outcome: Outcome<W, R>, later: Time)
    returns (es: seq<Step<W, R>>)
    requires p !in s.processes && s.now <= later
    ensures IsRun(cfg, s, es, AfterAlone(cfg, s, call, outcome, later), [(p, AnswerAlone(cfg, s, call, outcome))])
  {
    if call.identity.None? {
      es := UnprotectedAlone(cfg, s, p, call, outcome, later);
    } else if Refused(cfg, s, call) {
      es := LockAlone(cfg, s, p, call);
      assert AnswerAlone(cfg, s, call, outcome) == InProgress;
      es := WaitAfter(cfg, s, es, [(p, AnswerAlone(cfg, s, call, outcome))], later);
    } else {
      es := LookupAlone(cfg, s, p, call, outcome);
      if Replayed(s, call).Some? {
        es := WaitAfter(cfg, s, es, [(p, AnswerAlone(cfg, s, call, outcome))], later);
      } else {
        es := FinishAlone(cfg, s, p, call, outcome, later, Found(s, call.identity.value), es);
      }
    }
  }

  lemma WaitAfter<W, R>(cfg: Config, s: State<W, R>, es: seq<Step<W, R>>, answers: seq<(ProcessId, Response<R>)>,
                        later: Time)
    returns (more: seq<Step<W, R>>)
    requires IsRun(cfg, s, es, s, answers) && s.now <= later
    ensures IsRun(cfg, s, more, s.(now := later), answers)
  {
    OneMore(cfg, s, es, Step<W, R>.Tick(later));
    more := es + [Step<W, R>.Tick(later)];
  }

  // ---------- The functions themselves ----------

  class Store<W, R> {
    const cfg: Config
    var now: Time
    var committed: seq<W>
    var records: map<Identity, Record<R>>
    var locks: map<int, ProcessId>
    ghost var others: map<ProcessId, Process<W, R>>
    ghost var cleaners: map<ProcessId, Time>

    /** The committed tables and the lock table; `others` are the requests in flight. */
    ghost function Value(): State<W, R>
      reads this
    {
      State(now, committed, records, locks, others, cleaners)
    }

    constructor (cfg: Config, now: Time)
      ensures Value() == Initial(now) && this.cfg == cfg
      ensures Inv(cfg, Value())
    {
      this.cfg, this.now := cfg, now;
      committed, records, locks, others, cleaners := [], map[], map[], map[], map[];
    }

    /**
     * `run_idempotently`, from the lock to the end of the transaction; a
     * rollback restores what the transaction found.
     */
    method RunIdempotently(p: ProcessId, call: Call, outcome: Outcome<W, R>, later: Time)
      returns (response: Response<R>)
      requires Inv(cfg, Value()) && p !in others && now <= later
      modifies this
      ensures response == AnswerAlone(cfg, old(Value()), call, outcome)
      ensures Value() == AfterAlone(cfg, old(Value()), call, outcome, later)
      ensures Inv(cfg, Value()) && exists es :: IsRun(cfg, old(Value()), es, Value(), [(p, response)])
      ensures now == later && locks == old(locks)
      ensures call.identity.None? ==>
              && records == old(records)
              && (outcome.Raised? ==> response == Failed && committed == old(committed))
              && (outcome.Returned? ==>
                    response == Reply(outcome.status, outcome.data) && committed == old(committed) + [outcome.writes])
      ensures call.identity.Some? && cfg.lockKey(call.identity.value) in old(locks) ==>
                response == InProgress && committed == old(committed) && records == old(records)
      ensures call.identity.Some? && cfg.lockKey(call.identity.value) !in old(locks) ==>
                var id := call.identity.value;
                if id in old(records) && old(now) < old(records)[id].expiresAt then
                  && committed == old(committed) && records == old(records)
                  && response == (if old(records)[id].fingerprint == call.fingerprint
                                  then Reply(old(records)[id].status, old(records)[id].data) else KeyReused)
                else if outcome.Raised? then
                  response == Failed && committed == old(committed) && records == old(records)
                else
                  && response == Reply(outcome.status, outcome.data)
                  && (if 200 <= outcome.status < 500 then
                        && committed == old(committed) + [outcome.writes]
                        && records == old(records)[id :=
                             Record(call.fingerprint, outcome.status, outcome.data, later, later + 86400)]
                      else committed == old(committed) && records == old(records))
    {
      AloneKeepsInv(cfg, Value(), p, call, outcome, later);
      if call.identity.Some? {
        response := RunProtected(p, call, outcome, later);
      } else {
        now := later;
        if outcome.Raised? {
          return Failed;
        }
        committed := committed + [outcome.writes];
        response := Reply(outcome.status, outcome.data);
      }
    }

    /** The call with an Idempotency-Key: its lock is taken for the time of the transaction. */
    method RunProtected(p: ProcessId, call: Call, outcome: Outcome<W, R>, later: Time) returns (response: Response<R>)
      requires call.identity.Some? && now <= later
      modifies this`now, this`committed, this`records, this`locks
      ensures response == AnswerAlone(cfg, old(Value()), call, outcome)
      ensures Value() == AfterAlone(cfg, old(Value()), call, outcome, later)
    {
      var key := cfg.lockKey(call.identity.value);
      if key in locks {
        now := later;
        return InProgress;
      }
      locks := locks[key := p];
      response := RunLocked(call.identity.value, call.fingerprint, outcome, later);
      locks := locks - {key};
      assert locks == old(locks);
    }

    /** The body of the transaction under the lock. */
    method RunLocked(id: Identity, fingerprint: string, outcome: Outcome<W, R>, later: Time)
      returns (response: Response<R>)
      requires now <= later
      modifies this`now, this`committed, this`records
      ensures now == later
      ensures var live := LiveRecord(old(records), id, old(now));
              var persisted := live.None? && outcome.Returned? && Persisted(outcome.status);
              && response == (if live.Some? then
                                if live.value.fingerprint != fingerprint then KeyReused
                                else Reply(live.value.status, live.value.data)
                              else if outcome.Raised? then Failed
                              else Reply(outcome.status, outcome.data))
              && committed == old(committed) + (if persisted then [outcome.writes] else [])
              && records == if persisted
                            then 
                              old(records)[id := Record(fingerprint, outcome.status, outcome.data, later, later + TTL)]
                            else old(records)
    {
      var savedRecords := records;
      var record := if id in records then Some(records[id]) else None;
      if record.Some? && record.value.expiresAt <= now {
        records := records - {id};
        record := None;
      }
      now := later;
      if record.Some? {
        if record.value.fingerprint != fingerprint {
          return KeyReused;
        }
        return Reply(record.value.status, record.value.data);
      }
      if outcome.Raised? {
        records := savedRecords;
        return Failed;
      }
      if 200 <= outcome.status < 500 {
        records := records[id := Record(fingerprint, outcome.status, outcome.data, now, now + TTL)];
        committed := committed + [outcome.writes];
      } else {
        records := savedRecords;
      }
      return Reply(outcome.status, outcome.data);
    }

    /** `cleanup_expired_idempotency_records` with its cutoff taken earlier: the number of records it counted. */
    method CleanupExpired(cutoff: Time) returns (count: nat)
      requires Inv(cfg, Value()) && cutoff <= now
      modifies this`records
      ensures Inv(cfg, Value()) && Alike(Value(), old(Value()))
      ensures records == map id | id in old(records) && old(records)[id].expiresAt > cutoff :: old(records)[id]
      ensures count == |old(records)| - |records|
    {
      ghost var before := Value();
      var kept := map id | id in records && records[id].expiresAt > cutoff :: records[id];
      assert kept.Keys <= records.Keys;
      SubsetSize(kept.Keys, records.Keys);
      assert |records| == |records.Keys| && |kept| == |kept.Keys|;
      count := |records| - |kept|;
      records := kept;
      CleanupAlone(cfg, before, cutoff);
    }
  }

  lemma AloneKeepsInv<W, R>(cfg: Config, s: State<W, R>, p: ProcessId, call: Call, outcome: Outcome<W, R>, later: Time)
    requires Inv(cfg, s) && p !in s.processes && s.now <= later
    ensures Inv(cfg, AfterAlone(cfg, s, call, outcome, later))
    ensures exists es ::
              IsRun(cfg, s, es, AfterAlone(cfg, s, call, outcome, later), [(p, AnswerAlone(cfg, s, call, outcome))])
  {
    var es := AloneIsARun(cfg, s, p, call, outcome, later);
    RunKeepsInv(cfg, s, es);
  }

  lemma CleanupAlone<W, R>(cfg: Config, s: State<W, R>, cutoff: Time)
    requires Inv(cfg, s) && cutoff <= s.now
    ensures var t := s.(records := map id | id in s.records && s.records[id].expiresAt > cutoff :: s.records[id]);
            Inv(cfg, t) && Alike(t, s)
  {
    var t := s.(records := map id | id in s.records && s.records[id].expiresAt > cutoff :: s.records[id]);
    forall p | p in t.processes ensures LockOk(cfg, t, p) && StageOk(t, p) && SameProcess(t, s, p) {
      assert LockOk(cfg, s, p) && StageOk(s, p);
    }
    forall id ensures SameRecord(t, s, id) {
    }
  }
}
