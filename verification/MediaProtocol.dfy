/**
 * Image rows and the object store: uploads that write five keys and then create
 * a row, deletions after commit, and audits that delete old unreferenced keys,
 * in any interleaving and with failures and crashes between any two steps.
 */
module MediaProtocol {
  import opened Common

  /** The original and the four variants: keys 0..4 of one upload. */
  const KEYS: nat := 5

  datatype Key = Key(upload: nat, variant: nat)

  /**
   * `uploadLimit` bounds the time from the first write of an upload to the
   * commit of its row, `auditLimit` the time from an audit's row scan to its
   * cutoff; `age` is the minimum age in seconds.
   */
  datatype Config = Config(uploadLimit: nat, auditLimit: nat, age: nat)

  /** `timedelta(hours=max(1, minimum_age_hours))` */
  function AgeOf(hours: int): nat {
    3600 * if hours < 1 then 1 else hours
  }

  datatype Upload =
    | Writing(started: Time, written: nat)
    | Created(started: Time)
    | Compensating(started: Time, written: nat, removed: nat)
    | Committed(started: Time, at: Time)
    | Ended(started: Time)

  datatype Audit = Audit(scannedAt: Time, referenced: set<nat>, cutoffAt: Option<Time>, condemned: Option<Key>)

  datatype State = State(
    now: Time,
    objects: map<Key, Time>,
    rows: set<nat>,
    uploads: map<nat, Upload>,
    removing: set<nat>,
    audits: map<nat, Audit>)

  datatype Step =
    | Tick(seconds: nat)
    | StartUpload(u: nat)
    | WriteKey(u: nat)
    | WriteFails(u: nat, left: bool)
    | CreateRow(u: nat)
    | CreateFails(u: nat)
    | Compensate(u: nat)
    | Commit(u: nat)
    | Stop(u: nat)
    | DeleteRow(u: nat)
    | RemoveObject(u: nat, variant: nat)
    | AuditScan(a: nat)
    | AuditCutoff(a: nat)
    | AuditCheck(a: nat, key: Key)
    | AuditDelete(a: nat)

  function Init(): State {
    State(0, map[], {}, map[], {}, map[])
  }

  predicate Enabled(cfg: Config, s: State, e: Step) {
    match e
    case Tick(_) => true
    case StartUpload(u) => u !in s.uploads
    case WriteKey(u) => u in s.uploads && s.uploads[u].Writing? && s.uploads[u].written < KEYS
    case WriteFails(u, _) => u in s.uploads && s.uploads[u].Writing? && s.uploads[u].written < KEYS
    case CreateRow(u) => u in s.uploads && s.uploads[u].Writing? && s.uploads[u].written == KEYS
    case CreateFails(u) => u in s.uploads && s.uploads[u].Writing? && s.uploads[u].written == KEYS
    case Compensate(u) => u in s.uploads && s.uploads[u].Compensating? && s.uploads[u].removed < s.uploads[u].written
    case Commit(u) => u in s.uploads && s.uploads[u].Created? && s.now <= s.uploads[u].started + cfg.uploadLimit
    case Stop(u) => u in s.uploads && !s.uploads[u].Committed?
    case DeleteRow(u) => u in s.rows
    case RemoveObject(u, _) => u in s.removing
    case AuditScan(a) => a !in s.audits
    case AuditCutoff(a) =>
      a in s.audits && s.audits[a].cutoffAt.None? && s.now <= s.audits[a].scannedAt + cfg.auditLimit
    case AuditCheck(a, key) =>
      && a in s.audits && s.audits[a].cutoffAt.Some? && s.audits[a].condemned.None?
      && key.upload !in s.audits[a].referenced
      && key in s.objects && s.objects[key] <= s.audits[a].cutoffAt.value - cfg.age
    case AuditDelete(a) => a in s.audits && s.audits[a].condemned.Some?
  }

  function Put(s: State, u: nat, up: Upload): State {
    s.(uploads := s.uploads[u := up])
  }

  function Store(s: State, key: Key): State {
    s.(objects := s.objects[key := s.now])
  }

  function Remove(s: State, key: Key): State {
    s.(objects := s.objects - {key})
  }

  function Apply(cfg: Config, s: State, e: Step): State
    requires Enabled(cfg, s, e)
  {
    match e
    case Tick(seconds) => s.(now := s.now + seconds)
    case StartUpload(u) => Put(s, u, Writing(s.now, 0))
    case WriteKey(u) =>
      var up := s.uploads[u];
      Put(Store(s, Key(u, up.written)), u, Writing(up.started, up.written + 1))
    // A write that raises may have stored its object; it is not among the keys that compensation removes.
    case WriteFails(u, left) =>
      var up := s.uploads[u];
      Put(if left then Store(s, Key(u, up.written)) else s, u, Compensating(up.started, up.written, 0))
    case CreateRow(u) => Put(s, u, Created(s.uploads[u].started))
    case CreateFails(u) => Put(s, u, Compensating(s.uploads[u].started, KEYS, 0))
    case Compensate(u) =>
      var up := s.uploads[u];
      Put(Remove(s, Key(u, up.removed)), u, Compensating(up.started, up.written, up.removed + 1))
    case Commit(u) => Put(s, u, Committed(s.uploads[u].started, s.now)).(rows := s.rows + {u})
    // A crash, or a rollback of the transaction around the created row.
    case Stop(u) => Put(s, u, Ended(s.uploads[u].started))
    case DeleteRow(u) => s.(rows := s.rows - {u}, removing := s.removing + {u})
    case RemoveObject(u, variant) => Remove(s, Key(u, variant))
    case AuditScan(a) => s.(audits := s.audits[a := Audit(s.now, s.rows, None, None)])
    case AuditCutoff(a) => s.(audits := s.audits[a := s.audits[a].(cutoffAt := Some(s.now))])
    case AuditCheck(a, key) => s.(audits := s.audits[a := s.audits[a].(condemned := Some(key))])
    case AuditDelete(a) =>
      Remove(s, s.audits[a].condemned.value).(audits := s.audits[a := s.audits[a].(condemned := None)])
  }

  ghost predicate Runs(cfg: Config, s: State, steps: seq<Step>)
    decreases |steps|
  {
    steps != [] ==> Enabled(cfg, s, steps[0]) && Runs(cfg, Apply(cfg, s, steps[0]), steps[1..])
  }

  function After(cfg: Config, s: State, steps: seq<Step>): State
    requires Runs(cfg, s, steps)
    decreases |steps|
  {
    if steps == [] then s else After(cfg, Apply(cfg, s, steps[0]), steps[1..])
  }

  // ---------- Invariant ----------

  predicate KeysStored(s: State, u: nat, n: nat) {
    forall v | 0 <= v < n :: Key(u, v) in s.objects
  }

  /** Every committed row has its five objects. */
  predicate Intact(s: State) {
    forall u | u in s.rows :: KeysStored(s, u, KEYS)
  }

  /** The upload can still commit its row. */
  predicate CanCommit(cfg: Config, s: State, u: nat) {
    && u in s.uploads
    && (s.uploads[u].Writing? || s.uploads[u].Created?)
    && s.now <= s.uploads[u].started + cfg.uploadLimit
  }

  predicate UploadOk(cfg: Config, s: State, u: nat)
    requires u in s.uploads
  {
    var up := s.uploads[u];
    && up.started <= s.now
    && (up.Writing? ==> up.written <= KEYS && (CanCommit(cfg, s, u) ==> KeysStored(s, u, up.written)))
    && (up.Created? ==> CanCommit(cfg, s, u) ==> KeysStored(s, u, KEYS))
    && (up.Committed? ==> up.at <= s.now && up.at <= up.started + cfg.uploadLimit)
  }

  /** A stored object is no older than its upload. */
  predicate ObjectOk(s: State, key: Key)
    requires key in s.objects
  {
    key.upload in s.uploads && s.uploads[key.upload].started <= s.objects[key]
  }

  predicate RowOk(s: State, u: nat) {
    u in s.uploads && s.uploads[u].Committed? && u !in s.removing
  }

  predicate AuditOk(cfg: Config, s: State, a: nat)
    requires a in s.audits
  {
    var audit := s.audits[a];
    && audit.scannedAt <= s.now
    && (audit.cutoffAt.Some? ==>
          audit.cutoffAt.value <= s.now && audit.cutoffAt.value <= audit.scannedAt + cfg.auditLimit)
    && (audit.condemned.Some? ==>
          && audit.condemned.value.upload in s.uploads
          && audit.condemned.value.upload !in s.rows
          && !CanCommit(cfg, s, audit.condemned.value.upload))
  }

  /** A row that an audit's scan did not see was committed after the scan. */
  predicate UnseenOk(s: State, a: nat, u: nat)
    requires a in s.audits
  {
    u in s.rows && u !in s.audits[a].referenced && RowOk(s, u) ==> s.audits[a].scannedAt <= s.uploads[u].at
  }

  ghost predicate Inv(cfg: Config, s: State) {
    && Intact(s)
    && (forall u | u in s.uploads :: UploadOk(cfg, s, u))
    && (forall key | key in s.objects :: ObjectOk(s, key))
    && (forall u | u in s.rows :: RowOk(s, u))
    && (forall u | u in s.removing :: u in s.uploads && s.uploads[u].Committed?)
    && (forall a | a in s.audits :: AuditOk(cfg, s, a))
    && (forall a, u | a in s.audits && u in s.rows :: UnseenOk(s, a, u))
  }

  /** Uploads and audits together are shorter than the minimum age. */
  predicate AgeGateHolds(cfg: Config) {
    cfg.uploadLimit + cfg.auditLimit < cfg.age
  }

  predicate IsUploadStep(e: Step) {
    e.StartUpload? || e.WriteKey? || e.WriteFails? || e.CreateRow? || e.CreateFails? || e.Compensate? || e.Stop?
  }

  lemma UploadKeepsUploads(cfg: Config, s: State, e: Step, u: nat)
    requires IsUploadStep(e) && Inv(cfg, s) && Enabled(cfg, s, e) && u in Apply(cfg, s, e).uploads
    ensures UploadOk(cfg, Apply(cfg, s, e), u)
    ensures u != e.u ==> u in s.uploads && Apply(cfg, s, e).uploads[u] == s.uploads[u]
  {
    var t := Apply(cfg, s, e);
    if u in s.uploads {
      assert UploadOk(cfg, s, u);
    }
  }

  lemma UploadKeepsObjects(cfg: Config, s: State, e: Step)
    requires IsUploadStep(e) && Inv(cfg, s) && Enabled(cfg, s, e)
    ensures forall key | key in Apply(cfg, s, e).objects :: ObjectOk(Apply(cfg, s, e), key)
    ensures forall key | key in s.objects && key.upload != e.u :: key in Apply(cfg, s, e).objects
  {
    var t := Apply(cfg, s, e);
    forall key | key in t.objects ensures ObjectOk(t, key) {
      assert key in s.objects ==> ObjectOk(s, key);
      assert e.u in s.uploads ==> UploadOk(cfg, s, e.u);
    }
  }

  lemma UploadKeepsAudits(cfg: Config, s: State, e: Step)
    requires IsUploadStep(e) && Inv(cfg, s) && Enabled(cfg, s, e)
    ensures forall a | a in s.audits :: AuditOk(cfg, Apply(cfg, s, e), a)
  {
    var t := Apply(cfg, s, e);
    forall a | a in s.audits ensures AuditOk(cfg, t, a) {
      assert AuditOk(cfg, s, a);
    }
  }

  /** An upload before its commit touches no committed row and no other upload. */
  lemma UploadKeepsInv(cfg: Config, s: State, e: Step)
    requires IsUploadStep(e) && Inv(cfg, s) && Enabled(cfg, s, e)
    ensures Inv(cfg, Apply(cfg, s, e))
  {
    var t := Apply(cfg, s, e);
    UploadKeepsObjects(cfg, s, e);
    UploadKeepsAudits(cfg, s, e);
    forall u | u in t.uploads
      ensures UploadOk(cfg, t, u) && (u != e.u ==> u in s.uploads && t.uploads[u] == s.uploads[u])
    {
      UploadKeepsUploads(cfg, s, e, u);
    }
    forall u | u in s.rows ensures KeysStored(t, u, KEYS) && RowOk(t, u) && t.uploads[u] == s.uploads[u] {
      assert RowOk(s, u) && KeysStored(s, u, KEYS);
    }
    forall a, u | a in t.audits && u in t.rows ensures UnseenOk(t, a, u) {
      assert UnseenOk(s, a, u) && RowOk(s, u);
    }
  }

  lemma CommitKeepsInv(cfg: Config, s: State, u: nat)
    requires Inv(cfg, s) && Enabled(cfg, s, Commit(u))
    ensures Inv(cfg, Apply(cfg, s, Commit(u)))
  {
    var t := Apply(cfg, s, Commit(u));
    assert UploadOk(cfg, s, u) && CanCommit(cfg, s, u);
    forall w | w in t.uploads ensures UploadOk(cfg, t, w) {
      assert UploadOk(cfg, s, w);
    }
    forall w | w in t.rows ensures KeysStored(t, w, KEYS) {
      assert w in s.rows ==> KeysStored(s, w, KEYS);
    }
    forall key | key in t.objects ensures ObjectOk(t, key) {
      assert ObjectOk(s, key);
    }
    forall a | a in t.audits ensures AuditOk(cfg, t, a) {
      assert AuditOk(cfg, s, a);
    }
    forall a, w | a in t.audits && w in t.rows ensures UnseenOk(t, a, w) {
      assert AuditOk(cfg, s, a);
      if w != u {
        assert UnseenOk(s, a, w) && RowOk(s, w);
      }
    }
  }

  lemma DeletionKeepsInv(cfg: Config, s: State, e: Step)
    requires (e.Tick? || e.DeleteRow? || e.RemoveObject?) && Inv(cfg, s) && Enabled(cfg, s, e)
    ensures Inv(cfg, Apply(cfg, s, e))
  {
    var t := Apply(cfg, s, e);
    forall u | u in t.rows ensures KeysStored(t, u, KEYS) && RowOk(t, u) {
      assert RowOk(s, u) && KeysStored(s, u, KEYS);
    }
    forall u | u in t.uploads ensures UploadOk(cfg, t, u) {
      assert UploadOk(cfg, s, u);
    }
    forall key | key in t.objects ensures ObjectOk(t, key) {
      assert ObjectOk(s, key);
    }
    forall a | a in t.audits ensures AuditOk(cfg, t, a) {
      assert AuditOk(cfg, s, a);
    }
    forall a, u | a in t.audits && u in t.rows ensures UnseenOk(t, a, u) {
      assert UnseenOk(s, a, u) && RowOk(s, u);
    }
  }

  /** What an audit may delete belongs to no row, and its upload is too old to commit. */
  lemma CondemnedIsDead(cfg: Config, s: State, a: nat, key: Key)
    requires AgeGateHolds(cfg) && Inv(cfg, s) && Enabled(cfg, s, AuditCheck(a, key))
    ensures key.upload in s.uploads && key.upload !in s.rows && !CanCommit(cfg, s, key.upload)
  {
    var u := key.upload;
    assert ObjectOk(s, key) && AuditOk(cfg, s, a) && UploadOk(cfg, s, u);
    assert u in s.rows ==> RowOk(s, u) && UnseenOk(s, a, u);
  }

  predicate IsAuditStep(e: Step) {
    e.AuditScan? || e.AuditCutoff? || e.AuditCheck? || e.AuditDelete?
  }

  lemma AuditKeepsAudits(cfg: Config, s: State, e: Step)
    requires IsAuditStep(e) && AgeGateHolds(cfg) && Inv(cfg, s) && Enabled(cfg, s, e)
    ensures forall a | a in Apply(cfg, s, e).audits :: AuditOk(cfg, Apply(cfg, s, e), a)
  {
    var t := Apply(cfg, s, e);
    if e.AuditCheck? {
      CondemnedIsDead(cfg, s, e.a, e.key);
    }
    forall a | a in t.audits ensures AuditOk(cfg, t, a) {
      assert a in s.audits ==> AuditOk(cfg, s, a);
    }
  }

  /** A delete of an audit removes nothing that a row or a live upload needs. */
  lemma AuditKeepsObjects(cfg: Config, s: State, e: Step)
    requires IsAuditStep(e) && Inv(cfg, s) && Enabled(cfg, s, e)
    ensures forall u | u in s.rows :: KeysStored(Apply(cfg, s, e), u, KEYS)
    ensures forall u | u in s.uploads :: UploadOk(cfg, Apply(cfg, s, e), u)
  {
    var t := Apply(cfg, s, e);
    assert e.a in s.audits ==> AuditOk(cfg, s, e.a);
    forall u | u in s.rows ensures KeysStored(t, u, KEYS) {
      assert KeysStored(s, u, KEYS);
    }
    forall u | u in s.uploads ensures UploadOk(cfg, t, u) {
      assert UploadOk(cfg, s, u);
    }
  }

  lemma AuditKeepsInv(cfg: Config, s: State, e: Step)
    requires IsAuditStep(e) && AgeGateHolds(cfg) && Inv(cfg, s) && Enabled(cfg, s, e)
    ensures Inv(cfg, Apply(cfg, s, e))
  {
    var t := Apply(cfg, s, e);
    AuditKeepsAudits(cfg, s, e);
    AuditKeepsObjects(cfg, s, e);
    forall key | key in t.objects ensures ObjectOk(t, key) {
      assert ObjectOk(s, key);
    }
    forall u | u in t.rows ensures RowOk(t, u) {
      assert RowOk(s, u);
    }
    forall a, u | a in t.audits && u in t.rows ensures UnseenOk(t, a, u) {
      assert RowOk(s, u) && UploadOk(cfg, s, u);
      assert a in s.audits ==> UnseenOk(s, a, u);
    }
  }

  lemma StepKeepsInv(cfg: Config, s: State, e: Step)
    requires AgeGateHolds(cfg) && Inv(cfg, s) && Enabled(cfg, s, e)
    ensures Inv(cfg, Apply(cfg, s, e))
  {
    if IsUploadStep(e) {
      UploadKeepsInv(cfg, s, e);
    } else if e.Commit? {
      CommitKeepsInv(cfg, s, e.u);
    } else if e.Tick? || e.DeleteRow? || e.RemoveObject? {
      DeletionKeepsInv(cfg, s, e);
    } else {
      AuditKeepsInv(cfg, s, e);
    }
  }

  lemma {:induction false} RunKeepsInv(cfg: Config, s: State, steps: seq<Step>)
    requires AgeGateHolds(cfg) && Inv(cfg, s) && Runs(cfg, s, steps)
    ensures Inv(cfg, After(cfg, s, steps))
    decreases |steps|
  {
    if steps == [] {
    } else {
      StepKeepsInv(cfg, s, steps[0]);
      RunKeepsInv(cfg, Apply(cfg, s, steps[0]), steps[1..]);
    }
  }

  // ---------- Which objects and rows a step changes ----------

  /** The object that a step takes out of the store, whether or not it is there. */
  predicate Takes(s: State, e: Step, key: Key) {
    || e == RemoveObject(key.upload, key.variant)
    || (e.AuditDelete? && e.a in s.audits && s.audits[e.a].condemned == Some(key))
    || (e.Compensate? && e.u == key.upload && e.u in s.uploads && s.uploads[e.u].Compensating?
        && s.uploads[e.u].removed == key.variant)
  }

  /** The object that a step writes: the next key of its upload. */
  predicate Writes(s: State, e: Step, key: Key) {
    && (e.WriteKey? || (e.WriteFails? && e.left)) && e.u == key.upload
    && e.u in s.uploads && s.uploads[e.u].Writing? && s.uploads[e.u].written == key.variant
  }

  lemma ObjectsAfter(cfg: Config, s: State, e: Step, key: Key)
    requires Enabled(cfg, s, e)
    ensures var t := Apply(cfg, s, e);
            && (key in t.objects <==> (key in s.objects && !Takes(s, e, key)) || Writes(s, e, key))
            && (key in t.objects ==> t.objects[key] == if Writes(s, e, key) then s.now else s.objects[key])
            && (key.upload in t.rows <==>
                  ((key.upload in s.rows && e != DeleteRow(key.upload)) || e == Commit(key.upload)))
  {}

  /** Both ways an upload fails lead to the removal of every key it has written. */
  lemma FailedUploadCompensates(cfg: Config, s: State, e: Step)
    requires Enabled(cfg, s, e) && (e.WriteFails? || e.CreateFails?)
    ensures e.u in Apply(cfg, s, e).uploads
    ensures Apply(cfg, s, e).uploads[e.u] == Compensating(s.uploads[e.u].started, s.uploads[e.u].written, 0)
    ensures e.CreateFails? ==> s.uploads[e.u].written == 5
  {}

  /** The keys that a compensation has removed so far are gone. */
  predicate RemovedAreGone(s: State, u: nat) {
    u in s.uploads && s.uploads[u].Compensating? ==> forall v | 0 <= v < s.uploads[u].removed :: Key(u, v) !in s.objects
  }

  lemma RemovedStep(cfg: Config, s: State, e: Step, u: nat)
    requires Enabled(cfg, s, e) && RemovedAreGone(s, u)
    ensures RemovedAreGone(Apply(cfg, s, e), u)
  {
    var t := Apply(cfg, s, e);
    if u in t.uploads && t.uploads[u].Compensating? {
      forall v | 0 <= v < t.uploads[u].removed ensures Key(u, v) !in t.objects {
        ObjectsAfter(cfg, s, e, Key(u, v));
      }
    }
  }

  lemma {:induction false} RemovedFrom(cfg: Config, s: State, steps: seq<Step>, u: nat)
    requires Runs(cfg, s, steps) && RemovedAreGone(s, u)
    ensures RemovedAreGone(After(cfg, s, steps), u)
    decreases |steps|
  {
    if steps == [] {
    } else {
      RemovedStep(cfg, s, steps[0], u);
      RemovedFrom(cfg, Apply(cfg, s, steps[0]), steps[1..], u);
    }
  }

  /** In every run, once the compensation of an upload is complete none of the keys it had written is stored. */
  lemma CompensationCleans(cfg: Config, steps: seq<Step>, u: nat, v: nat)
    requires Runs(cfg, Init(), steps)
    ensures var s := After(cfg, Init(), steps);
            u in s.uploads && s.uploads[u].Compensating?
            && s.uploads[u].removed == s.uploads[u].written && v < s.uploads[u].written ==>
              Key(u, v) !in s.objects
  {
    RemovedFrom(cfg, Init(), steps, u);
  }

  // ---------- The age gate, exactly ----------

  ghost predicate NeverDangles(cfg: Config) {
    forall steps | Runs(cfg, Init(), steps) :: Intact(After(cfg, Init(), steps))
  }

  lemma {:induction false} RunsAppend(cfg: Config, s: State, steps: seq<Step>, e: Step)
    requires Runs(cfg, s, steps) && Enabled(cfg, After(cfg, s, steps), e)
    ensures Runs(cfg, s, steps + [e]) && After(cfg, s, steps + [e]) == Apply(cfg, After(cfg, s, steps), e)
    decreases |steps|
  {
    if steps == [] {
      assert steps + [e] == [e] && [e][1..] == [];
    } else {
      assert (steps + [e])[1..] == steps[1..] + [e];
      RunsAppend(cfg, Apply(cfg, s, steps[0]), steps[1..], e);
    }
  }

  /** The state at time 0 after n writes of the first upload. */
  function Written(n: nat): State {
    State(0, map v | 0 <= v < n :: Key(0, v) := 0, {}, map[0 := Writing(0, n)], {}, map[])
  }

  lemma NextWrite(cfg: Config, n: nat)
    requires n < KEYS
    ensures Enabled(cfg, Written(n), WriteKey(0)) && Apply(cfg, Written(n), WriteKey(0)) == Written(n + 1)
  {
    assert Written(n).objects[Key(0, n) := 0] == Written(n + 1).objects;
    assert Written(n).uploads[0 := Writing(0, n + 1)] == Written(n + 1).uploads;
  }

  lemma {:induction false} WritesRun(cfg: Config, n: nat) returns (steps: seq<Step>)
    requires n <= KEYS
    ensures Runs(cfg, Init(), steps) && After(cfg, Init(), steps) == Written(n)
  {
    if n == 0 {
      steps := [];
      RunsAppend(cfg, Init(), steps, StartUpload(0));
      steps := [StartUpload(0)];
      assert [] + steps == steps;
      assert Written(0).objects == map[];
    } else {
      var before := WritesRun(cfg, n - 1);
      NextWrite(cfg, n - 1);
      RunsAppend(cfg, Init(), before, WriteKey(0));
      steps := before + [WriteKey(0)];
    }
  }

  lemma Then(cfg: Config, steps: seq<Step>, e: Step) returns (more: seq<Step>)
    requires Runs(cfg, Init(), steps) && Enabled(cfg, After(cfg, Init(), steps), e)
    ensures Runs(cfg, Init(), more) && After(cfg, Init(), more) == Apply(cfg, After(cfg, Init(), steps), e)
  {
    RunsAppend(cfg, Init(), steps, e);
    more := steps + [e];
  }

  /** A scan at the last moment before the commit of an upload that took its whole time. */
  lemma ScanThenCommit(cfg: Config) returns (steps: seq<Step>)
    ensures Runs(cfg, Init(), steps)
    ensures var s := After(cfg, Init(), steps);
            && s.now == cfg.uploadLimit && s.rows == {0}
            && s.audits == map[0 := Audit(s.now, {}, None, None)]
            && Key(0, 0) in s.objects && s.objects[Key(0, 0)] == 0
  {
    steps := WritesRun(cfg, KEYS);
    steps := Then(cfg, steps, Tick(cfg.uploadLimit));
    steps := Then(cfg, steps, AuditScan(0));
    steps := Then(cfg, steps, CreateRow(0));
    steps := Then(cfg, steps, Commit(0));
  }

  /** The audit's cutoff then finds the objects old enough, although their row is committed. */
  lemma SlowAuditDeletesARow(cfg: Config) returns (steps: seq<Step>)
    requires !AgeGateHolds(cfg)
    ensures Runs(cfg, Init(), steps) && !Intact(After(cfg, Init(), steps))
  {
    steps := ScanThenCommit(cfg);
    steps := Then(cfg, steps, Tick(cfg.auditLimit));
    steps := Then(cfg, steps, AuditCutoff(0));
    steps := Then(cfg, steps, AuditCheck(0, Key(0, 0)));
    steps := Then(cfg, steps, AuditDelete(0));
    var s := After(cfg, Init(), steps);
    assert 0 in s.rows && Key(0, 0) !in s.objects;
    assert !KeysStored(s, 0, KEYS);
  }

  /** No committed row ever loses an object, in any run, exactly when uploads and audits fit into the minimum age. */
  lemma NeverDanglesExactly(cfg: Config)
    ensures NeverDangles(cfg) <==> AgeGateHolds(cfg)
  {
    if AgeGateHolds(cfg) {
      forall steps | Runs(cfg, Init(), steps) ensures Intact(After(cfg, Init(), steps)) {
        RunKeepsInv(cfg, Init(), steps);
      }
    } else {
      var steps := SlowAuditDeletesARow(cfg);
    }
  }

  /** The command's `--minimum-age-hours`, of which at least one hour is kept. */
  lemma MinimumAgeExactly(uploadLimit: nat, auditLimit: nat, hours: int)
    ensures NeverDangles(Config(uploadLimit, auditLimit, AgeOf(hours)))
            <==> uploadLimit + auditLimit < 3600 || uploadLimit + auditLimit < 3600 * hours
  {
    NeverDanglesExactly(Config(uploadLimit, auditLimit, AgeOf(hours)));
  }
}
