/**
 * `run_idempotently` and the cleanup of its records as a transition system:
 * requests that take an advisory lock, look up, run, record and commit, in any
 * interleaving with each other, with crashes and with cleanup tasks. `W` is what
 * one transaction writes, `R` the response data; SHA-256 is taken to be
 * collision free, so an identity is the text that is hashed.
 */
module Idempotency {
  import opened Common
  import opened Decimal

  const TTL: Time := 24 * 60 * 60

  type Identity = string
  type ProcessId = nat

  /** `_identity_hash` before hashing; the method is upper-cased by the caller. */
  function IdentityText(user: nat, verb: string, path: string, key: string): Identity {
    Text(user) + ":" + verb + ":" + path + ":" + key
  }

  /** `lockKey` is the 64-bit advisory lock number; distinct identities may share one. */
  datatype Config = Config(lockKey: Identity -> int)

  datatype Record<R> = Record(fingerprint: string, status: int, data: R, completedAt: Time, expiresAt: Time)

  /** A request without an Idempotency-Key has no identity. */
  datatype Call = Call(identity: Option<Identity>, fingerprint: string)

  /** How the protected operation ends; what it wrote is visible to others only after the commit. */
  datatype Outcome<W, R> = Returned(status: int, data: R, writes: W) | Raised

  /** Where a request stands. `since` is when it found no live record, `dropped` the expired one it deletes. */
  datatype Stage<W, R> =
    | Begun
    | Locked
    | Fetched(found: Option<Record<R>>)
    | Cleared(since: Time, dropped: Option<Record<R>>)
    | Ran(since: Time, dropped: Option<Record<R>>, status: int, data: R, writes: W)
    | Recorded(since: Time, dropped: Option<Record<R>>, record: Record<R>, writes: W)

  datatype Process<W, R> = Process(call: Call, stage: Stage<W, R>)

  /** `committed` is the sequence of committed write sets, `cleaners` the cutoffs of running cleanup tasks. */
  datatype State<W, R> = State(
    now: Time,
    committed: seq<W>,
    records: map<Identity, Record<R>>,
    locks: map<int, ProcessId>,
    processes: map<ProcessId, Process<W, R>>,
    cleaners: map<ProcessId, Time>)

  datatype Response<R> =
    | Reply(status: int, data: R)
    | KeyReused              // 409: the key carries another fingerprint
    | InProgress             // 409: the advisory lock is taken
    | Failed                 // the operation raised

  datatype Step<W, R> =
    | Tick(later: Time)
    | Begin(p: ProcessId, call: Call)
    | TryLock(p: ProcessId)
    | Fetch(p: ProcessId)
    | Judge(p: ProcessId)
    | Run(p: ProcessId, outcome: Outcome<W, R>)
    | Store(p: ProcessId)
    | Commit(p: ProcessId)
    | Crash(p: ProcessId)
    | CleanupStart(c: ProcessId)
    | CleanupDelete(c: ProcessId)

  predicate Persisted(status: int) {
    200 <= status < 500
  }

  /** The record that answers a lookup at this time. */
  function LiveRecord<R>(records: map<Identity, Record<R>>, id: Identity, at: Time): Option<Record<R>> {
    if id in records && records[id].expiresAt > at then Some(records[id]) else None
  }

  /** The request uses an Idempotency-Key. */
  predicate Protected<W, R>(s: State<W, R>, p: ProcessId) {
    p in s.processes && s.processes[p].call.identity.Some?
  }

  predicate Enabled<W, R>(s: State<W, R>, e: Step<W, R>) {
    match e
    case Tick(later) => s.now <= later
    case Begin(p, _) => p !in s.processes
    case TryLock(p) => Protected(s, p) && s.processes[p].stage.Begun?
    case Fetch(p) => Protected(s, p) && s.processes[p].stage.Locked?
    case Judge(p) => Protected(s, p) && s.processes[p].stage.Fetched?
    case Run(p, _) =>
      if Protected(s, p) then s.processes[p].stage.Cleared? else p in s.processes && s.processes[p].stage.Begun?
    case Store(p) => Protected(s, p) && s.processes[p].stage.Ran?
    case Commit(p) =>
      if Protected(s, p) then s.processes[p].stage.Recorded? else p in s.processes && s.processes[p].stage.Ran?
    case Crash(p) => p in s.processes
    case CleanupStart(c) => c !in s.cleaners
    case CleanupDelete(c) => c in s.cleaners
  }

  function Put<W, R>(s: State<W, R>, p: ProcessId, stage: Stage<W, R>): State<W, R>
    requires p in s.processes
  {
    s.(processes := s.processes[p := s.processes[p].(stage := stage)])
  }

  predicate Holding<W, R>(stage: Stage<W, R>) {
    !stage.Begun?
  }

  /** The transaction ends: its advisory lock, if it has one, is released. */
  function End<W, R>(cfg: Config, s: State<W, R>, p: ProcessId): State<W, R>
    requires p in s.processes
  {
    var process := s.processes[p];
    var locks := if process.call.identity.Some? && Holding(process.stage)
                 then s.locks - {cfg.lockKey(process.call.identity.value)} else s.locks;
    s.(processes := s.processes - {p}, locks := locks)
  }

  predicate IsRequestStep<W, R>(e: Step<W, R>) {
    !e.Tick? && !e.CleanupStart? && !e.CleanupDelete?
  }

  /** The step ends its request: refused, answered, rolled back, committed or crashed. */
  predicate Ends<W, R>(cfg: Config, s: State<W, R>, e: Step<W, R>)
    requires Enabled(s, e) && IsRequestStep(e) && !e.Begin?
  {
    var process := s.processes[e.p];
    match e
    case TryLock(_) => cfg.lockKey(process.call.identity.value) in s.locks
    case Judge(_) => process.stage.found.Some? && process.stage.found.value.expiresAt > s.now
    case Run(_, outcome) => outcome.Raised? || (process.call.identity.Some? && !Persisted(outcome.status))
    case Commit(_) => true
    case Crash(_) => true
    case _ => false
  }

  /** Where the request stands after a step that does not end it. */
  function NextStage<W, R>(cfg: Config, s: State<W, R>, e: Step<W, R>): Stage<W, R>
    requires Enabled(s, e) && IsRequestStep(e) && !e.Begin? && !Ends(cfg, s, e)
  {
    var process := s.processes[e.p];
    var stage := process.stage;
    match e
    case TryLock(_) => Locked
    case Fetch(_) =>
      var id := process.call.identity.value;
      Fetched(if id in s.records then Some(s.records[id]) else None)
    case Judge(_) => Cleared(s.now, stage.found)
    case Run(_, outcome) =>
      if stage.Cleared? then Ran(stage.since, stage.dropped, outcome.status, outcome.data, outcome.writes)
      else Ran(s.now, None, outcome.status, outcome.data, outcome.writes)
    case Store(_) =>
      var record := Record(process.call.fingerprint, stage.status, stage.data, s.now, s.now + TTL);
      Recorded(stage.since, stage.dropped, record, stage.writes)
  }

  /** What a commit makes visible: the operation's writes, and its record in place of an expired one. */
  function Written<W, R>(s: State<W, R>, p: ProcessId): State<W, R>
    requires Enabled(s, Step<W, R>.Commit(p))
  {
    var process := s.processes[p];
    var written := s.(committed := s.committed + [process.stage.writes]);
    if process.call.identity.None? then written
    else written.(records := s.records[process.call.identity.value := process.stage.record])
  }

  function Apply<W, R>(cfg: Config, s: State<W, R>, e: Step<W, R>): State<W, R>
    requires Enabled(s, e)
  {
    if e.Tick? then s.(now := e.later)
    else if e.CleanupStart? then s.(cleaners := s.cleaners[e.c := s.now])
    else if e.CleanupDelete? then
      s.(records := map id | id in s.records && s.records[id].expiresAt > s.cleaners[e.c] :: s.records[id],
         cleaners := s.cleaners - {e.c})
    else if e.Begin? then s.(processes := s.processes[e.p := Process(e.call, Begun)])
    else if Ends(cfg, s, e) then End(cfg, if e.Commit? then Written(s, e.p) else s, e.p)
    else if e.TryLock? then
      Put(s.(locks := s.locks[cfg.lockKey(s.processes[e.p].call.identity.value) := e.p]), e.p, Locked)
    else Put(s, e.p, NextStage(cfg, s, e))
  }

  /** The response that a step sends, if it ends a request that does not die. */
  function Answer<W, R>(cfg: Config, s: State<W, R>, e: Step<W, R>): Option<Response<R>>
    requires Enabled(s, e)
  {
    match e
    case TryLock(p) => if cfg.lockKey(s.processes[p].call.identity.value) in s.locks then Some(InProgress) else None
    case Judge(p) =>
      var found := s.processes[p].stage.found;
      if found.Some? && found.value.expiresAt > s.now then
        Some(if found.value.fingerprint != s.processes[p].call.fingerprint then KeyReused
             else Reply(found.value.status, found.value.data))
      else None
    case Run(p, outcome) =>
      (match outcome
       case Raised => Some(Failed)
       case Returned(status, data, _) =>
         if s.processes[p].call.identity.Some? && !Persisted(status) then Some(Reply(status, data)) else None)
    case Commit(p) =>
      var stage := s.processes[p].stage;
      Some(if stage.Recorded? then Reply(stage.record.status, stage.record.data) else Reply(stage.status, stage.data))
    case _ => None
  }

  predicate Runs<W, R>(cfg: Config, s: State<W, R>, es: seq<Step<W, R>>)
    decreases |es|
  {
    es == [] || (Enabled(s, es[0]) && Runs(cfg, Apply(cfg, s, es[0]), es[1..]))
  }

  function After<W, R>(cfg: Config, s: State<W, R>, es: seq<Step<W, R>>): State<W, R>
    requires Runs(cfg, s, es)
    decreases |es|
  {
    if es == [] then s else After(cfg, Apply(cfg, s, es[0]), es[1..])
  }

  function Initial<W, R>(now: Time): State<W, R> {
    State(now, [], map[], map[], map[], map[])
  }

  // ---------- Invariant ----------

  /** A request past its lock holds the lock of its identity. */
  predicate LockOk<W, R>(cfg: Config, s: State<W, R>, p: ProcessId)
    requires p in s.processes
  {
    var process := s.processes[p];
    process.call.identity.Some? && Holding(process.stage) ==>
      cfg.lockKey(process.call.identity.value) in s.locks && s.locks[cfg.lockKey(process.call.identity.value)] == p
  }

  /** Nobody but a cleanup has touched the identity's record since the request fetched it. */
  ghost predicate FoundOk<R>(records: map<Identity, Record<R>>, id: Identity, found: Option<Record<R>>, now: Time) {
    if id in records then found == Some(records[id]) else found.Some? ==> found.value.expiresAt <= now
  }

  /** What a request has learned under its lock is still true. */
  ghost predicate StageOk<W, R>(s: State<W, R>, p: ProcessId)
    requires p in s.processes
  {
    var process := s.processes[p];
    process.call.identity.Some? ==>
      var id := process.call.identity.value;
      match process.stage
      case Fetched(found) => FoundOk(s.records, id, found, s.now)
      case Cleared(since, dropped) => ClearOk(s, id, since, dropped)
      case Ran(since, dropped, _, _, _) => ClearOk(s, id, since, dropped)
      case Recorded(since, dropped, record, _) =>
        && ClearOk(s, id, since, dropped)
        && since <= record.completedAt <= s.now && record.expiresAt == record.completedAt + TTL
      case _ => true
  }

  /** Since then the identity has had no live record; what is left is the one this request deletes. */
  ghost predicate ClearOk<W, R>(s: State<W, R>, id: Identity, since: Time, dropped: Option<Record<R>>) {
    && since <= s.now
    && FoundOk(s.records, id, dropped, s.now)
    && (id in s.records ==> s.records[id].expiresAt <= since)
  }

  ghost predicate Inv<W, R>(cfg: Config, s: State<W, R>) {
    && (forall p | p in s.processes :: LockOk(cfg, s, p) && StageOk(s, p))
    && (forall c | c in s.cleaners :: s.cleaners[c] <= s.now)
  }

  // ---------- Which requests share an identity ----------

  predicate NoColon(s: string) {
    forall i | 0 <= i < |s| :: s[i] != ':'
  }

  lemma FirstField(a: string, x: string, b: string, y: string)
    requires NoColon(a) && NoColon(b) && a + ":" + x == b + ":" + y
    ensures a == b && x == y
  {
    var s := a + ":" + x;
    assert s[|a|] == ':' && s[|b|] == ':';
    assert |a| == |b|;
    assert a == s[..|a|] && b == s[..|b|];
    assert x == s[|a| + 1..] && y == s[|b| + 1..];
  }

  /** The account and the verb are recovered; path and key only as their joined text. */
  lemma SameIdentityExactly(u: nat, v: string, p: string, k: string, u': nat, v': string, p': string, k': string)
    requires NoColon(v) && NoColon(v')
    ensures IdentityText(u, v, p, k) == IdentityText(u', v', p', k') <==>
            u == u' && v == v' && p + ":" + k == p' + ":" + k'
  {
    var rest, rest' := p + ":" + k, p' + ":" + k';
    assert IdentityText(u, v, p, k) == Text(u) + ":" + (v + ":" + rest);
    assert IdentityText(u', v', p', k') == Text(u') + ":" + (v' + ":" + rest');
    if IdentityText(u, v, p, k) == IdentityText(u', v', p', k') {
      FirstField(Text(u), v + ":" + rest, Text(u'), v' + ":" + rest');
      TextInjective(u, u');
      FirstField(v, rest, v', rest');
    }
  }

  /** So requests to paths without a colon share an identity only when they agree in all four parts. */
  lemma PlainPathsAreDistinguished(u: nat, v: string, p: string, k: string, u': nat, v': string, p': string, k': string)
    requires NoColon(v) && NoColon(v') && NoColon(p) && NoColon(p')
    requires IdentityText(u, v, p, k) == IdentityText(u', v', p', k')
    ensures u == u' && v == v' && p == p' && k == k'
  {
    SameIdentityExactly(u, v, p, k, u', v', p', k');
    FirstField(p, k, p', k');
  }

  /** A path with a colon can collide; the routes in use put slugs, model names and ids into theirs. */
  lemma ColonPathCollides()
    ensures IdentityText(1, "POST", "/a", "b:c") == IdentityText(1, "POST", "/a:b", "c") == "1:POST:/a:b:c"
  {
    assert Text(1) == "1";
    SameIdentityExactly(1, "POST", "/a", "b:c", 1, "POST", "/a:b", "c");
    assert "/a" + ":" + "b:c" == "/a:b" + ":" + "c";
  }
}
