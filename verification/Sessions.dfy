/**
 * Device sessions, rotating refresh tokens and the account version that
 * invalidates them, as steps that may interleave between the unlocked reads and
 * the locked transactions of accounts/services.py.
 */
module Sessions {
  import opened Common

  type UserId = nat
  type SessionId = nat
  type TokenId = nat
  type ProcessId = nat

  datatype User = User(active: bool, version: nat)
  datatype Session = Session(user: UserId, version: nat, expiresAt: Time, revokedAt: Option<Time>)

  datatype Kind = Access | Refresh

  /** A correctly signed token with the claims the source reads. */
  datatype Token = Token(kind: Kind, id: TokenId, user: UserId, session: SessionId, version: nat, expiresAt: Time)

  /** What a request holds between two of its database statements. */
  datatype Process =
    | LoggingIn(user: UserId, seen: User)      // row read by authenticate()
    | Rotating(token: Token)                   // passed the signature, expiry and blacklist checks
    | LoggingOut(token: Token)                 // session revoked, token not blacklisted yet
    | Editing(user: UserId, seen: User)        // row read by the profile update

  /** `minted` is every token ever signed, `used` every session id ever created. */
  datatype State = State(
    now: Time,
    users: map<UserId, User>,
    sessions: map<SessionId, Session>,
    blacklist: set<TokenId>,
    minted: set<Token>,
    nextToken: TokenId,
    used: set<SessionId>,
    processes: map<ProcessId, Process>)

  datatype Config = Config(accessLifetime: Time, refreshLifetime: Time)

  datatype Step =
    | Tick(later: Time)
    | ReadForLogin(p: ProcessId, u: UserId)
    | Login(p: ProcessId, s: SessionId)
    | CheckRefresh(p: ProcessId, token: Token)
    | RejectRefresh(token: Token)
    | Rotate(p: ProcessId)
    | Logout(p: ProcessId, token: Token)
    | BlacklistAfterLogout(p: ProcessId)
    | RevokeAll(u: UserId)
    | SetActive(u: UserId, active: bool)
    | DeleteUser(u: UserId)
    | PurgeExpired
    | ReadForEdit(p: ProcessId, u: UserId)
    | SaveEdit(p: ProcessId)
    | Abandon(p: ProcessId)

  // ---------- Reading a session ----------

  predicate IsActive(session: Session, now: Time) {
    session.revokedAt.None? && session.expiresAt > now
  }

  /** The row lock query `get(id=session_id, user_id=user.pk)` finds a row. */
  predicate HasSession(st: State, s: SessionId, u: UserId) {
    s in st.sessions && st.sessions[s].user == u
  }

  /** `RefreshToken(raw)` succeeds: a refresh token, unexpired and not blacklisted. */
  predicate Presentable(st: State, token: Token) {
    token.kind == Refresh && token.expiresAt > st.now && token.id !in st.blacklist
  }

  /**
   * `JWTAuth.get_user`: the account row is read in one state and the session
   * row in a possibly later one.
   */
  predicate Accepts(atUser: State, atSession: State, token: Token) {
    && token.kind == Access && token.expiresAt > atUser.now
    && token.user in atUser.users
    && atUser.users[token.user].active
    && token.version == atUser.users[token.user].version
    && HasSession(atSession, token.session, token.user)
    && atSession.sessions[token.session].version == atUser.users[token.user].version
    && IsActive(atSession.sessions[token.session], atSession.now)
  }

  /** The locked phase of a rotation accepts the token. */
  predicate RotationAccepted(st: State, token: Token) {
    && token.user in st.users
    && HasSession(st, token.session, token.user)
    && st.users[token.user].active
    && st.users[token.user].version == token.version
    && st.sessions[token.session].version == st.users[token.user].version
    && IsActive(st.sessions[token.session], st.now)
  }

  // ---------- Effects ----------

  function Revoked(session: Session, now: Time): Session {
    if session.revokedAt.None? then session.(revokedAt := Some(now)) else session
  }

  function RevokeSession(st: State, s: SessionId): State {
    if s in st.sessions then st.(sessions := st.sessions[s := Revoked(st.sessions[s], st.now)]) else st
  }

  /** `revoke_all_sessions` */
  function RevokeAllOf(st: State, u: UserId): State
    requires u in st.users
  {
    st.(sessions := map s | s in st.sessions ::
                      if st.sessions[s].user == u then Revoked(st.sessions[s], st.now) else st.sessions[s],
        users := st.users[u := st.users[u].(version := st.users[u].version + 1)])
  }

  /** `issue_token_pair`: one access and one refresh token for the session. */
  function Mint(cfg: Config, st: State, u: UserId, version: nat, s: SessionId): State {
    var access := Token(Access, st.nextToken, u, s, version, st.now + cfg.accessLifetime);
    var refresh := Token(Refresh, st.nextToken + 1, u, s, version, st.now + cfg.refreshLifetime);
    st.(minted := st.minted + {access, refresh}, nextToken := st.nextToken + 2)
  }

  function Finish(st: State, p: ProcessId): State {
    st.(processes := st.processes - {p})
  }

  /** The locked phase of `rotate_token_pair`. */
  function Rotated(cfg: Config, st: State, token: Token): State {
    if token.user !in st.users || !HasSession(st, token.session, token.user) then st
    else if !RotationAccepted(st, token) then RevokeSession(st, token.session)
    else
      var kept := st.sessions[token.session].(expiresAt := st.now + cfg.refreshLifetime);
      var rotated := st.(blacklist := st.blacklist + {token.id}, sessions := st.sessions[token.session := kept]);
      Mint(cfg, rotated, token.user, st.users[token.user].version, token.session)
  }

  /** A presented token that is not accepted still revokes its session while its own expiry is ahead. */
  function Rejected(st: State, token: Token): State {
    if token.expiresAt > st.now then RevokeSession(st, token.session) else st
  }

  predicate Holds(st: State, p: ProcessId) {
    p in st.processes
  }

  predicate Enabled(st: State, step: Step) {
    match step
    case Tick(later) => later >= st.now
    case ReadForLogin(p, u) => !Holds(st, p) && u in st.users && st.users[u].active
    case Login(p, s) => Holds(st, p) && st.processes[p].LoggingIn? && st.processes[p].user in st.users && s !in st.used
    case CheckRefresh(p, token) => !Holds(st, p) && token in st.minted && Presentable(st, token)
    case RejectRefresh(token) => token in st.minted && !Presentable(st, token)
    case Rotate(p) => Holds(st, p) && st.processes[p].Rotating?
    case Logout(p, token) => !Holds(st, p) && token in st.minted && Presentable(st, token)
    case BlacklistAfterLogout(p) => Holds(st, p) && st.processes[p].LoggingOut?
    case RevokeAll(u) => u in st.users
    case SetActive(u, _) => u in st.users
    case DeleteUser(u) => u in st.users
    case PurgeExpired => true
    case ReadForEdit(p, u) => !Holds(st, p) && u in st.users
    case SaveEdit(p) => Holds(st, p) && st.processes[p].Editing?
    case Abandon(p) => Holds(st, p)
  }

  function Apply(cfg: Config, st: State, step: Step): State
    requires Enabled(st, step)
  {
    match step
    case Tick(later) => st.(now := later)
    case ReadForLogin(p, u) => st.(processes := st.processes[p := LoggingIn(u, st.users[u])])
    case Login(p, s) =>
      var u, seen := st.processes[p].user, st.processes[p].seen;
      var session := Session(u, seen.version, st.now + cfg.refreshLifetime, None);
      var withSession := st.(sessions := st.sessions[s := session], used := st.used + {s});
      Finish(Mint(cfg, withSession, u, seen.version, s), p)
    case CheckRefresh(p, token) => st.(processes := st.processes[p := Rotating(token)])
    case RejectRefresh(token) => Rejected(st, token)
    case Rotate(p) => Finish(Rotated(cfg, st, st.processes[p].token), p)
    case Logout(p, token) => RevokeSession(st, token.session).(processes := st.processes[p := LoggingOut(token)])
    case BlacklistAfterLogout(p) => Finish(st.(blacklist := st.blacklist + {st.processes[p].token.id}), p)
    case RevokeAll(u) => RevokeAllOf(st, u)
    case SetActive(u, active) => RevokeAllOf(st.(users := st.users[u := st.users[u].(active := active)]), u)
    case DeleteUser(u) =>
      st.(users := st.users - {u},
          sessions := map s | s in st.sessions && st.sessions[s].user != u :: st.sessions[s])
    case PurgeExpired =>
      st.(sessions := map s | s in st.sessions && st.sessions[s].expiresAt >= st.now :: st.sessions[s])
    case ReadForEdit(p, u) => st.(processes := st.processes[p := Editing(u, st.users[u])])
    case SaveEdit(p) =>
      // a full-row save writes every column it read, and re-inserts a deleted row
      Finish(st.(users := st.users[st.processes[p].user := st.processes[p].seen]), p)
    case Abandon(p) => Finish(st, p)
  }

  // ---------- Runs ----------

  predicate Runs(cfg: Config, st: State, steps: seq<Step>)
    decreases |steps|
  {
    steps == [] || (Enabled(st, steps[0]) && Runs(cfg, Apply(cfg, st, steps[0]), steps[1..]))
  }

  function After(cfg: Config, st: State, steps: seq<Step>): State
    requires Runs(cfg, st, steps)
    decreases |steps|
  {
    if steps == [] then st else After(cfg, Apply(cfg, st, steps[0]), steps[1..])
  }

  lemma RunOne(cfg: Config, st: State, step: Step, rest: seq<Step>)
    requires Enabled(st, step) && Runs(cfg, Apply(cfg, st, step), rest)
    ensures Runs(cfg, st, [step] + rest)
    ensures After(cfg, st, [step] + rest) == After(cfg, Apply(cfg, st, step), rest)
  {
    assert ([step] + rest)[1..] == rest;
  }

  function Initial(now: Time, users: map<UserId, User>): State {
    State(now, users, map[], {}, {}, 0, {}, map[])
  }

  // ---------- A dead session stays dead ----------

  /** Revoked, or created once and gone. */
  predicate Dead(st: State, s: SessionId) {
    && s in st.used
    && (s in st.sessions ==> st.sessions[s].revokedAt.Some?)
  }

  ghost predicate SessionsUsed(st: State) {
    forall s | s in st.sessions :: s in st.used
  }

  lemma StepKeepsUsed(cfg: Config, st: State, step: Step)
    requires SessionsUsed(st) && Enabled(st, step)
    ensures SessionsUsed(Apply(cfg, st, step))
  {
  }

  lemma DeadStep(cfg: Config, st: State, step: Step, s: SessionId)
    requires Enabled(st, step) && Dead(st, s)
    ensures Dead(Apply(cfg, st, step), s)
  {
  }

  lemma {:induction false} DeadForever(cfg: Config, st: State, steps: seq<Step>, s: SessionId)
    requires Runs(cfg, st, steps) && Dead(st, s)
    ensures Dead(After(cfg, st, steps), s)
    decreases |steps|
  {
    if steps == [] {
    } else {
      DeadStep(cfg, st, steps[0], s);
      DeadForever(cfg, Apply(cfg, st, steps[0]), steps[1..], s);
    }
  }

  /**
   * Once a session is revoked (or its row is gone) no token of it is accepted
   * again, by authentication or rotation, in any later state: not after
   * reactivation, an in-flight rotation, a late login or a stale profile save.
   */
  lemma DeadSessionNeverAccepted(cfg: Config, st: State, first: seq<Step>, second: seq<Step>, token: Token)
    requires Runs(cfg, st, first) && Runs(cfg, After(cfg, st, first), second)
    requires Dead(st, token.session)
    ensures var atUser := After(cfg, st, first);
            var atSession := After(cfg, atUser, second);
            !Accepts(atUser, atSession, token) && !RotationAccepted(atSession, token)
  {
    DeadForever(cfg, st, first, token.session);
    DeadForever(cfg, After(cfg, st, first), second, token.session);
  }

  /** `revoke_all_sessions` kills every session the account has at that moment. */
  lemma RevokeAllKills(cfg: Config, st: State, u: UserId, s: SessionId)
    requires SessionsUsed(st) && u in st.users && HasSession(st, s, u)
    ensures Dead(RevokeAllOf(st, u), s)
  {
  }

  // ---------- Which rows a step changes ----------

  /** An inactive account, or none, is accepted neither by authentication nor by a rotation, in no state whatever. */
  lemma InactiveNeverAccepted(st: State, atSession: State, token: Token)
    requires token.user in st.users ==> !st.users[token.user].active
    ensures !Accepts(st, atSession, token) && !RotationAccepted(st, token)
  {}

  /** The account columns: who may change them, and to what. */
  lemma AccountAfter(cfg: Config, st: State, step: Step, u: UserId)
    requires Enabled(st, step)
    ensures var next := Apply(cfg, st, step);
            && (u in next.users <==>
                  if u in st.users then step != DeleteUser(u) else step.SaveEdit? && st.processes[step.p].user == u)
            && (u in st.users && u in next.users ==>
                  next.users[u] ==
                    if step == RevokeAll(u) then User(st.users[u].active, st.users[u].version + 1)
                    else if step.SetActive? && step.u == u then User(step.active, st.users[u].version + 1)
                    else if step.SaveEdit? && st.processes[step.p].user == u then st.processes[step.p].seen
                    else st.users[u])
  {}

  /** Session rows leave by the deletion of their account or once their expiry has passed; the rest keeps its owner. */
  lemma SessionAfter(cfg: Config, st: State, step: Step, s: SessionId)
    requires SessionsUsed(st) && Enabled(st, step) && s in st.sessions
    ensures var next := Apply(cfg, st, step);
            && (s in next.sessions <==>
                  !(step.DeleteUser? && st.sessions[s].user == step.u)
                  && !(step.PurgeExpired? && st.sessions[s].expiresAt < st.now))
            && (s in next.sessions ==>
                  next.sessions[s].user == st.sessions[s].user && next.sessions[s].version == st.sessions[s].version)
  {}

  /** Only an account that was active when its row was read is logged in. */
  ghost predicate LoginsActive(st: State) {
    forall p | p in st.processes && st.processes[p].LoggingIn? :: st.processes[p].seen.active
  }

  lemma {:induction false} OnlyActiveAccountsLogIn(cfg: Config, st: State, steps: seq<Step>)
    requires LoginsActive(st) && Runs(cfg, st, steps)
    ensures LoginsActive(After(cfg, st, steps))
    decreases |steps|
  {
    if steps == [] {
    } else {
      LoginsActiveStep(cfg, st, steps[0]);
      OnlyActiveAccountsLogIn(cfg, Apply(cfg, st, steps[0]), steps[1..]);
    }
  }

  lemma LoginsActiveStep(cfg: Config, st: State, step: Step)
    requires LoginsActive(st) && Enabled(st, step)
    ensures LoginsActive(Apply(cfg, st, step))
  {}

  /** A session is revoked by logout, by a refused refresh, or with all sessions of its account; then and only then. */
  lemma RevokedExactly(cfg: Config, st: State, step: Step, s: SessionId)
    requires SessionsUsed(st) && Enabled(st, step)
    requires s in st.sessions && st.sessions[s].revokedAt.None? && s in Apply(cfg, st, step).sessions
    ensures Apply(cfg, st, step).sessions[s].revokedAt ==
              if || (step.RevokeAll? && st.sessions[s].user == step.u)
                 || (step.SetActive? && st.sessions[s].user == step.u)
                 || (step.Logout? && step.token.session == s)
                 || (step.RejectRefresh? && step.token.session == s && step.token.expiresAt > st.now)
                 || (step.Rotate? && st.processes[step.p].token.session == s
                     && RefusedUnderLock(st, st.processes[step.p].token))
              then Some(st.now) else None
  {}

  /** The locked phase finds the account and its session, and one of its checks fails. */
  predicate RefusedUnderLock(st: State, token: Token) {
    && token.user in st.users && token.session in st.sessions && st.sessions[token.session].user == token.user
    && !(st.users[token.user].active && st.users[token.user].version == token.version
         && st.sessions[token.session].version == token.version
         && st.sessions[token.session].revokedAt.None? && st.sessions[token.session].expiresAt > st.now)
  }

  // ---------- The account version ----------

  /** A save that writes back a version the account has moved past. */
  predicate StaleSave(st: State, step: Step) {
    && step.SaveEdit? && Holds(st, step.p) && st.processes[step.p].Editing?
    && st.processes[step.p].user in st.users
    && st.processes[step.p].seen.version < st.users[st.processes[step.p].user].version
  }

  /** The version of an account falls in a step exactly when the step is a stale save of that account. */
  lemma VersionFallsExactly(cfg: Config, st: State, step: Step, u: UserId)
    requires Enabled(st, step) && u in st.users && u in Apply(cfg, st, step).users
    ensures Apply(cfg, st, step).users[u].version < st.users[u].version <==>
            StaleSave(st, step) && st.processes[step.p].user == u
  {
  }

  /** The account is gone or past version v. */
  predicate Past(st: State, u: UserId, v: nat) {
    u in st.users ==> st.users[u].version > v
  }

  /** A full-row save of u whose row was read at version v or before. */
  predicate Restores(st: State, step: Step, u: UserId, v: nat) {
    && step.SaveEdit? && Holds(st, step.p) && st.processes[step.p].Editing?
    && st.processes[step.p].user == u && st.processes[step.p].seen.version <= v
  }

  /** One step brings the old version back exactly when it is such a save, of a present or of a deleted account. */
  lemma PastStepExactly(cfg: Config, st: State, step: Step, u: UserId, v: nat)
    requires Enabled(st, step) && Past(st, u, v)
    ensures Past(Apply(cfg, st, step), u, v) <==> !Restores(st, step, u, v)
  {
  }

  /** Some step of the run is such a save. */
  predicate RestoredIn(cfg: Config, st: State, steps: seq<Step>, u: UserId, v: nat)
    requires Runs(cfg, st, steps)
    decreases |steps|
  {
    steps != [] && (Restores(st, steps[0], u, v) || RestoredIn(cfg, Apply(cfg, st, steps[0]), steps[1..], u, v))
  }

  /** The account is past version v in every state of the run. */
  predicate PastThroughout(cfg: Config, st: State, steps: seq<Step>, u: UserId, v: nat)
    requires Runs(cfg, st, steps)
    decreases |steps|
  {
    Past(st, u, v) && (steps != [] ==> PastThroughout(cfg, Apply(cfg, st, steps[0]), steps[1..], u, v))
  }

  /** An account that is past a version stays past it throughout a run exactly when no step of the run restores it. */
  lemma {:induction false} PastThroughoutExactly(cfg: Config, st: State, steps: seq<Step>, u: UserId, v: nat)
    requires Runs(cfg, st, steps) && Past(st, u, v)
    ensures PastThroughout(cfg, st, steps, u, v) <==> !RestoredIn(cfg, st, steps, u, v)
    decreases |steps|
  {
    if steps == [] {
    } else {
      PastStepExactly(cfg, st, steps[0], u, v);
      if !Restores(st, steps[0], u, v) {
        PastThroughoutExactly(cfg, Apply(cfg, st, steps[0]), steps[1..], u, v);
      }
    }
  }

  lemma {:induction false} PastAtEnd(cfg: Config, st: State, steps: seq<Step>, u: UserId, v: nat)
    requires Runs(cfg, st, steps) && PastThroughout(cfg, st, steps, u, v)
    ensures Past(After(cfg, st, steps), u, v)
    decreases |steps|
  {
    if steps == [] {
    } else {
      PastAtEnd(cfg, Apply(cfg, st, steps[0]), steps[1..], u, v);
    }
  }

  /**
   * After `revoke_all_sessions`, no token carrying the old version or an older
   * one is accepted again, unless a save restores that version of that account:
   * in particular none minted later by a login that had read the old row.
   */
  lemma OldVersionNeverAccepted(cfg: Config, st: State, u: UserId, first: seq<Step>, second: seq<Step>, token: Token)
    requires u in st.users && token.user == u && token.version <= st.users[u].version
    requires Runs(cfg, RevokeAllOf(st, u), first) && Runs(cfg, After(cfg, RevokeAllOf(st, u), first), second)
    ensures var v := st.users[u].version;
            var atUser := After(cfg, RevokeAllOf(st, u), first);
            var atSession := After(cfg, atUser, second);
            && (Accepts(atUser, atSession, token) ==> RestoredIn(cfg, RevokeAllOf(st, u), first, u, v))
            && (RotationAccepted(atSession, token) ==>
                  RestoredIn(cfg, RevokeAllOf(st, u), first, u, v) || RestoredIn(cfg, atUser, second, u, v))
  {
    var v, revoked := st.users[u].version, RevokeAllOf(st, u);
    var atUser := After(cfg, revoked, first);
    if !RestoredIn(cfg, revoked, first, u, v) {
      PastThroughoutExactly(cfg, revoked, first, u, v);
      PastAtEnd(cfg, revoked, first, u, v);
      if !RestoredIn(cfg, atUser, second, u, v) {
        PastThroughoutExactly(cfg, atUser, second, u, v);
        PastAtEnd(cfg, atUser, second, u, v);
      }
    }
  }

  /**
   * A restored version is enough for an old token: a login and a profile update
   * that both read the row before the revocation bring it back.
   */
  lemma StaleSaveRevivesOldVersion(cfg: Config)
    requires cfg.accessLifetime > 0 && cfg.refreshLifetime > 0
    ensures var start := Initial(0, map[1 := User(true, 1)]);
            var steps := [ReadForLogin(10, 1), ReadForEdit(11, 1), RevokeAll(1), Login(10, 5), SaveEdit(11)];
            var token := Token(Access, 0, 1, 5, 1, cfg.accessLifetime);
            && Runs(cfg, start, steps)
            && var end := After(cfg, start, steps);
               token in end.minted && Accepts(end, end, token)
  {
    var start := Initial(0, map[1 := User(true, 1)]);
    var reading := start.(processes := map[10 := LoggingIn(1, User(true, 1)), 11 := Editing(1, User(true, 1))]);
    var revoked := reading.(users := map[1 := User(true, 2)]);
    assert Apply(cfg, Apply(cfg, start, ReadForLogin(10, 1)), ReadForEdit(11, 1)) == reading;
    assert Apply(cfg, reading, RevokeAll(1)) == revoked;
    LateLoginThenStaleSave(cfg, revoked);
    RunOne(cfg, reading, RevokeAll(1), [Login(10, 5), SaveEdit(11)]);
    RunOne(cfg, Apply(cfg, start, ReadForLogin(10, 1)), ReadForEdit(11, 1), [RevokeAll(1), Login(10, 5), SaveEdit(11)]);
    RunOne(cfg, start, ReadForLogin(10, 1), [ReadForEdit(11, 1), RevokeAll(1), Login(10, 5), SaveEdit(11)]);
  }

  lemma LateLoginThenStaleSave(cfg: Config, st: State)
    requires cfg.accessLifetime > 0 && cfg.refreshLifetime > 0
    requires st.now == 0 && st.nextToken == 0 && st.users == map[1 := User(true, 2)] && st.sessions == map[]
             && st.used == {}
    requires st.processes == map[10 := LoggingIn(1, User(true, 1)), 11 := Editing(1, User(true, 1))]
    ensures var token := Token(Access, 0, 1, 5, 1, cfg.accessLifetime);
            && Runs(cfg, st, [Login(10, 5), SaveEdit(11)])
            && var end := After(cfg, st, [Login(10, 5), SaveEdit(11)]);
               token in end.minted && Accepts(end, end, token)
  {
    var middle := Apply(cfg, st, Login(10, 5));
    assert middle.processes[11] == Editing(1, User(true, 1));
    RunOne(cfg, middle, SaveEdit(11), []);
    RunOne(cfg, st, Login(10, 5), [SaveEdit(11)]);
  }
}
