/** Refresh-token rotation: how many usable tokens a session has. */
module SessionRotation {
  import opened Common
  import opened Sessions

  predicate Live(st: State, s: SessionId) {
    s in st.sessions && st.sessions[s].revokedAt.None?
  }

  /** A refresh token of s that has not been rotated out. */
  predicate Current(st: State, s: SessionId, token: Token) {
    token in st.minted && token.kind == Refresh && token.session == s && token.id !in st.blacklist
  }

  /** token is the only current one, and it lives exactly as long as its session. */
  ghost predicate OnlyCurrent(st: State, s: SessionId, token: Token)
    requires s in st.sessions
  {
    && Current(st, s, token)
    && token.user == st.sessions[s].user && token.version == st.sessions[s].version
    && token.expiresAt == st.sessions[s].expiresAt
    && forall other | Current(st, s, other) :: other == token
  }

  /** Every unrevoked session has exactly one current refresh token. */
  ghost predicate OneCurrent(st: State) {
    forall s | Live(st, s) :: exists token :: OnlyCurrent(st, s, token)
  }

  /** Token numbers are never used twice. */
  ghost predicate TokensFresh(st: State) {
    && (forall t | t in st.minted :: t.id < st.nextToken && t.session in st.used)
    && (forall t, v | t in st.minted && v in st.minted && t.id == v.id :: t == v)
    && (forall i | i in st.blacklist :: i < st.nextToken)
  }

  ghost predicate WellFormed(st: State) {
    && SessionsUsed(st) && TokensFresh(st)
    && (forall p | p in st.processes && st.processes[p].Rotating? ::
          st.processes[p].token in st.minted && st.processes[p].token.kind == Refresh)
    && (forall p | p in st.processes && st.processes[p].LoggingOut? ::
          st.processes[p].token in st.minted && Dead(st, st.processes[p].token.session))
  }

  /** Freshness is about the tokens and the used numbers alone. */
  lemma FreshElsewhere(st: State, next: State)
    requires TokensFresh(st) && next.minted == st.minted && next.nextToken == st.nextToken && st.used <= next.used
    requires forall i | i in next.blacklist :: i < st.nextToken
    ensures TokensFresh(next)
  {}

  lemma MintKeepsFresh(cfg: Config, st: State, u: UserId, version: nat, s: SessionId)
    requires TokensFresh(st) && s in st.used
    ensures TokensFresh(Mint(cfg, st, u, version, s)) && st.minted <= Mint(cfg, st, u, version, s).minted
  {}

  lemma LoginKeepsFresh(cfg: Config, st: State, p: ProcessId, s: SessionId)
    requires TokensFresh(st) && Enabled(st, Login(p, s))
    ensures TokensFresh(Apply(cfg, st, Login(p, s))) && st.minted <= Apply(cfg, st, Login(p, s)).minted
  {
    var u, seen := st.processes[p].user, st.processes[p].seen;
    var session := Session(u, seen.version, st.now + cfg.refreshLifetime, None);
    var withSession := st.(sessions := st.sessions[s := session], used := st.used + {s});
    FreshElsewhere(st, withSession);
    MintKeepsFresh(cfg, withSession, u, seen.version, s);
    FreshElsewhere(Mint(cfg, withSession, u, seen.version, s), Apply(cfg, st, Login(p, s)));
  }

  lemma RotationKeepsFresh(cfg: Config, st: State, token: Token)
    requires TokensFresh(st) && token in st.minted
    ensures var next := Rotated(cfg, st, token);
            TokensFresh(next) && st.minted <= next.minted && st.blacklist <= next.blacklist
  {
    if RotationAccepted(st, token) {
      var kept := st.sessions[token.session].(expiresAt := st.now + cfg.refreshLifetime);
      var rotated := st.(blacklist := st.blacklist + {token.id}, sessions := st.sessions[token.session := kept]);
      FreshElsewhere(st, rotated);
      MintKeepsFresh(cfg, rotated, token.user, st.users[token.user].version, token.session);
    }
  }

  lemma StepKeepsTokensFresh(cfg: Config, st: State, step: Step)
    requires WellFormed(st) && Enabled(st, step)
    ensures var next := Apply(cfg, st, step);
            TokensFresh(next) && st.minted <= next.minted && st.blacklist <= next.blacklist
  {
    if step.Login? {
      LoginKeepsFresh(cfg, st, step.p, step.s);
    } else if step.Rotate? {
      RotationKeepsFresh(cfg, st, st.processes[step.p].token);
    }
  }

  lemma StepKeepsWellFormed(cfg: Config, st: State, step: Step)
    requires WellFormed(st) && Enabled(st, step)
    ensures WellFormed(Apply(cfg, st, step))
  {
    var next := Apply(cfg, st, step);
    StepKeepsUsed(cfg, st, step);
    StepKeepsTokensFresh(cfg, st, step);
    forall p | p in next.processes && next.processes[p].LoggingOut?
      ensures next.processes[p].token in next.minted && Dead(next, next.processes[p].token.session)
    {
      if p in st.processes && st.processes[p] == next.processes[p] {
        DeadStep(cfg, st, step, st.processes[p].token.session);
      }
    }
    forall p | p in next.processes && next.processes[p].Rotating?
      ensures next.processes[p].token in next.minted && next.processes[p].token.kind == Refresh
    {
      assert step == CheckRefresh(p, next.processes[p].token)
             || (p in st.processes && st.processes[p] == next.processes[p]);
    }
  }

  /** The rotation is accepted although its token has been rotated out since it was checked. */
  predicate LateRotation(st: State, step: Step) {
    && step.Rotate? && Holds(st, step.p) && st.processes[step.p].Rotating?
    && RotationAccepted(st, st.processes[step.p].token)
    && st.processes[step.p].token.id in st.blacklist
  }

  /** What a live session keeps in a step that neither rotates nor opens it. */
  lemma UntouchedSession(cfg: Config, st: State, step: Step, s: SessionId, token: Token)
    requires WellFormed(st) && Enabled(st, step) && s in st.sessions && OnlyCurrent(st, s, token)
    requires Live(Apply(cfg, st, step), s)
    requires step.Rotate? ==>
               st.processes[step.p].token.session != s || !RotationAccepted(st, st.processes[step.p].token)
    ensures OnlyCurrent(Apply(cfg, st, step), s, token)
  {
    var next := Apply(cfg, st, step);
    assert Live(st, s) by {
      if !Live(st, s) {
        DeadStep(cfg, st, step, s);
      }
    }
    assert next.sessions[s] == st.sessions[s];
    assert token.id !in next.blacklist;
    assert st.blacklist <= next.blacklist;
    assert forall t | t in next.minted && t.session == s :: t in st.minted;
    assert forall t | Current(next, s, t) :: Current(st, s, t);
  }

  lemma OpenedSession(cfg: Config, st: State, p: ProcessId, s: SessionId)
    requires WellFormed(st) && Enabled(st, Login(p, s))
    ensures exists token :: OnlyCurrent(Apply(cfg, st, Login(p, s)), s, token)
  {
    var next := Apply(cfg, st, Login(p, s));
    var u, seen := st.processes[p].user, st.processes[p].seen;
    var token := Token(Refresh, st.nextToken + 1, u, s, seen.version, st.now + cfg.refreshLifetime);
    assert OnlyCurrent(next, s, token);
  }

  /** An accepted rotation leaves one current token exactly when the presented one was still current. */
  lemma RotationIsUniqueExactly(cfg: Config, st: State, p: ProcessId)
    requires WellFormed(st) && OneCurrent(st) && Enabled(st, Rotate(p))
    requires RotationAccepted(st, st.processes[p].token)
    ensures var s := st.processes[p].token.session;
            (exists token :: OnlyCurrent(Apply(cfg, st, Rotate(p)), s, token)) <==>
              st.processes[p].token.id !in st.blacklist
  {
    var presented := st.processes[p].token;
    var s := presented.session;
    var next := Apply(cfg, st, Rotate(p));
    assert presented in st.minted && presented.kind == Refresh;
    assert Live(st, s);
    var earlier :| OnlyCurrent(st, s, earlier);
    var minted := Token(Refresh, st.nextToken + 1, presented.user, s, presented.version, st.now + cfg.refreshLifetime);
    assert Current(next, s, minted);
    if presented.id in st.blacklist {
      assert Current(next, s, earlier) && earlier != minted;
      assert forall token :: !OnlyCurrent(next, s, token);
    } else {
      assert Current(st, s, presented) && presented == earlier;
      assert forall t | Current(next, s, t) && t != minted :: Current(st, s, t);
      assert OnlyCurrent(next, s, minted);
    }
  }

  /** Every other step, and every other session, keeps one current token each. */
  lemma StepKeepsOneCurrent(cfg: Config, st: State, step: Step)
    requires WellFormed(st) && OneCurrent(st) && Enabled(st, step)
    ensures OneCurrent(Apply(cfg, st, step)) <==> !LateRotation(st, step)
  {
    var next := Apply(cfg, st, step);
    forall s | Live(next, s)
               && !(step.Rotate? && st.processes[step.p].token.session == s
                    && RotationAccepted(st, st.processes[step.p].token))
      ensures exists token :: OnlyCurrent(next, s, token)
    {
      if s in st.sessions {
        if !Live(st, s) {
          DeadStep(cfg, st, step, s);
        }
        var token :| OnlyCurrent(st, s, token);
        UntouchedSession(cfg, st, step, s, token);
      } else {
        OpenedSession(cfg, st, step.p, s);
      }
    }
    if step.Rotate? && RotationAccepted(st, st.processes[step.p].token) {
      RotationIsUniqueExactly(cfg, st, step.p);
      assert Live(next, st.processes[step.p].token.session);
    }
  }

  // ---------- Over whole runs ----------

  ghost predicate OneCurrentThroughout(cfg: Config, st: State, steps: seq<Step>)
    requires Runs(cfg, st, steps)
    decreases |steps|
  {
    OneCurrent(st) && (steps != [] ==> OneCurrentThroughout(cfg, Apply(cfg, st, steps[0]), steps[1..]))
  }

  predicate RotatesLate(cfg: Config, st: State, steps: seq<Step>)
    requires Runs(cfg, st, steps)
    decreases |steps|
  {
    steps != [] && (LateRotation(st, steps[0]) || RotatesLate(cfg, Apply(cfg, st, steps[0]), steps[1..]))
  }

  /** Every live session has one current token in every state of a run exactly when no rotation of the run is late. */
  lemma {:induction false} OneCurrentThroughoutExactly(cfg: Config, st: State, steps: seq<Step>)
    requires WellFormed(st) && OneCurrent(st) && Runs(cfg, st, steps)
    ensures OneCurrentThroughout(cfg, st, steps) <==> !RotatesLate(cfg, st, steps)
    decreases |steps|
  {
    if steps == [] {
    } else {
      var next := Apply(cfg, st, steps[0]);
      StepKeepsWellFormed(cfg, st, steps[0]);
      StepKeepsOneCurrent(cfg, st, steps[0]);
      if LateRotation(st, steps[0]) {
        assert !OneCurrent(next);
      } else {
        OneCurrentThroughoutExactly(cfg, next, steps[1..]);
      }
    }
  }

  // ---------- Rotation taken as one step ----------

  /** Every locked phase directly follows its own blacklist check. */
  predicate AtomicRotations(steps: seq<Step>)
    decreases |steps|
  {
    || steps == []
    || (!steps[0].Rotate? && AtomicRotations(steps[1..]))
    || (|steps| > 1 && steps[0].CheckRefresh? && steps[1] == Rotate(steps[0].p) && AtomicRotations(steps[2..]))
  }

  lemma {:induction false} AtomicRunKeepsOneCurrent(cfg: Config, st: State, steps: seq<Step>)
    requires WellFormed(st) && OneCurrent(st) && Runs(cfg, st, steps) && AtomicRotations(steps)
    ensures WellFormed(After(cfg, st, steps)) && OneCurrent(After(cfg, st, steps))
    decreases |steps|
  {
    if steps == [] {
    } else {
      var next := Apply(cfg, st, steps[0]);
      StepKeepsWellFormed(cfg, st, steps[0]);
      StepKeepsOneCurrent(cfg, st, steps[0]);
      if !steps[0].Rotate? && AtomicRotations(steps[1..]) {
        AtomicRunKeepsOneCurrent(cfg, next, steps[1..]);
      } else {
        assert steps[1..][0] == steps[1] && steps[1..][1..] == steps[2..];
        StepKeepsWellFormed(cfg, next, steps[1]);
        StepKeepsOneCurrent(cfg, next, steps[1]);
        AtomicRunKeepsOneCurrent(cfg, Apply(cfg, next, steps[1]), steps[2..]);
      }
    }
  }

  /** Both statements of a logout: the session is dead, and the token presented for it is spent. */
  lemma LogoutEndsTheSession(cfg: Config, st: State, p: ProcessId, token: Token)
    requires WellFormed(st) && Enabled(st, Logout(p, token))
    ensures var revoked := Apply(cfg, st, Logout(p, token));
            && Dead(revoked, token.session) && Enabled(revoked, BlacklistAfterLogout(p))
            && var done := Apply(cfg, revoked, BlacklistAfterLogout(p));
               && Dead(done, token.session) && done.blacklist == st.blacklist + {token.id}
               && !Presentable(done, token) && done.users == st.users && done.processes == st.processes
  {
    var revoked := Apply(cfg, st, Logout(p, token));
    assert revoked.processes - {p} == st.processes;
  }

  /** A request that is given up leaves nothing but its own state. */
  lemma AbandonedRequest(cfg: Config, st: State, p: ProcessId)
    requires Enabled(st, Abandon(p))
    ensures Apply(cfg, st, Abandon(p)) == st.(processes := st.processes - {p})
  {}

  /** From an empty session table: every live session has exactly one presentable refresh token. */
  lemma OneUsableToken(cfg: Config, start: Time, users: map<UserId, User>, steps: seq<Step>, s: SessionId)
    requires Runs(cfg, Initial(start, users), steps) && AtomicRotations(steps)
    ensures var st := After(cfg, Initial(start, users), steps);
            s in st.sessions && IsActive(st.sessions[s], st.now) ==>
              exists token :: OnlyCurrent(st, s, token) && Presentable(st, token)
  {
    AtomicRunKeepsOneCurrent(cfg, Initial(start, users), steps);
    var st := After(cfg, Initial(start, users), steps);
    if s in st.sessions && IsActive(st.sessions[s], st.now) {
      assert Live(st, s);
      var token :| OnlyCurrent(st, s, token);
      assert Presentable(st, token);
    }
  }

  /** Accepted by authentication as an access token, or by a rotation as a refresh token, here and now. */
  predicate Usable(st: State, token: Token) {
    && token in st.minted
    && if token.kind == Access then Accepts(st, st, token) else Presentable(st, token) && RotationAccepted(st, token)
  }

  /** A login by an account that is still as the password check read it gets two tokens that work at once. */
  lemma LoginIsAccepted(cfg: Config, st: State, p: ProcessId, s: SessionId)
    requires WellFormed(st) && Enabled(st, Login(p, s)) && cfg.accessLifetime > 0 && cfg.refreshLifetime > 0
    requires st.users[st.processes[p].user] == st.processes[p].seen && st.processes[p].seen.active
    ensures var u := st.processes[p].user;
            var version := st.processes[p].seen.version;
            var next := Apply(cfg, st, Login(p, s));
            && Usable(next, Token(Access, st.nextToken, u, s, version, st.now + cfg.accessLifetime))
            && Usable(next, Token(Refresh, st.nextToken + 1, u, s, version, st.now + cfg.refreshLifetime))
            && next.sessions == st.sessions[s := Session(u, version, st.now + cfg.refreshLifetime, None)]
            && next.users == st.users
  {
    assert forall i | i in st.blacklist :: i < st.nextToken;
  }

  /** An accepted rotation gives two tokens that work at once, and the presented one works no more. */
  lemma RotationIsAccepted(cfg: Config, st: State, p: ProcessId)
    requires WellFormed(st) && Enabled(st, Rotate(p)) && cfg.accessLifetime > 0 && cfg.refreshLifetime > 0
    requires RotationAccepted(st, st.processes[p].token)
    ensures var presented := st.processes[p].token;
            var next := Apply(cfg, st, Rotate(p));
            && Usable(next,
                      Token(Access, st.nextToken, presented.user, presented.session, presented.version,
                            st.now + cfg.accessLifetime))
            && Usable(next,
                      Token(Refresh, st.nextToken + 1, presented.user, presented.session, presented.version,
                            st.now + cfg.refreshLifetime))
            && !Usable(next, presented)
            && next.sessions ==
                 st.sessions[presented.session :=
                               st.sessions[presented.session].(expiresAt := st.now + cfg.refreshLifetime)]
            && next.users == st.users
  {
    assert st.processes[p].token in st.minted;
  }

  /**
   * From an empty session table: the one refresh token of an active session is
   * accepted exactly when its account is active and still at the token's version.
   */
  lemma OneUsableTokenExactly(cfg: Config, start: Time, users: map<UserId, User>, steps: seq<Step>, s: SessionId,
                              token: Token)
    requires Runs(cfg, Initial(start, users), steps) && AtomicRotations(steps)
    requires var st := After(cfg, Initial(start, users), steps);
             s in st.sessions && IsActive(st.sessions[s], st.now) && Current(st, s, token)
    ensures var st := After(cfg, Initial(start, users), steps);
            Usable(st, token) <==>
              token.user in st.users && st.users[token.user].active && st.users[token.user].version == token.version
  {
    AtomicRunKeepsOneCurrent(cfg, Initial(start, users), steps);
    var st := After(cfg, Initial(start, users), steps);
    assert Live(st, s);
    var only :| OnlyCurrent(st, s, only);
    assert token == only;
  }

  /** Presenting an earlier unexpired token of the chain is rejected and kills the session, newest token included. */
  lemma ReplayKillsTheChain(cfg: Config, st: State, replayed: Token, newest: Token)
    requires WellFormed(st)
    requires replayed in st.minted && replayed.kind == Refresh && replayed.expiresAt > st.now
    requires replayed.session in st.sessions && OnlyCurrent(st, replayed.session, newest) && replayed != newest
    ensures Enabled(st, RejectRefresh(replayed))
    ensures Dead(Apply(cfg, st, RejectRefresh(replayed)), replayed.session)
    ensures !RotationAccepted(Apply(cfg, st, RejectRefresh(replayed)), newest)
  {
    assert !Current(st, replayed.session, replayed);
  }

  /** The check precedes the lock: two rotations of one token in flight end with two current tokens. */
  lemma TwoRotationsRace(cfg: Config, st: State, p: ProcessId, q: ProcessId, token: Token)
    requires WellFormed(st) && OneCurrent(st) && cfg.refreshLifetime > 0
    requires p != q && !Holds(st, p) && !Holds(st, q)
    requires token in st.minted && Presentable(st, token) && RotationAccepted(st, token)
    ensures var steps := [CheckRefresh(p, token), CheckRefresh(q, token), Rotate(p), Rotate(q)];
            Runs(cfg, st, steps) && !OneCurrent(After(cfg, st, steps))
  {
    CheckThen(cfg, st, p, token);
    var s1 := Apply(cfg, st, CheckRefresh(p, token));
    CheckThen(cfg, s1, q, token);
    var s2 := Apply(cfg, s1, CheckRefresh(q, token));
    StepKeepsWellFormed(cfg, s2, Rotate(p));
    SecondRotationIsLate(cfg, s2, p, q, token);
    RunOne(cfg, Apply(cfg, s2, Rotate(p)), Rotate(q), []);
    RunOne(cfg, s2, Rotate(p), [Rotate(q)]);
    RunOne(cfg, s1, CheckRefresh(q, token), [Rotate(p), Rotate(q)]);
    RunOne(cfg, st, CheckRefresh(p, token), [CheckRefresh(q, token), Rotate(p), Rotate(q)]);
  }

  /** Passing the blacklist check changes nothing but the request that passed it. */
  lemma CheckThen(cfg: Config, st: State, p: ProcessId, token: Token)
    requires WellFormed(st) && OneCurrent(st) && Enabled(st, CheckRefresh(p, token))
    ensures var next := Apply(cfg, st, CheckRefresh(p, token));
            && WellFormed(next) && OneCurrent(next)
            && next == st.(processes := st.processes[p := Rotating(token)])
  {
    StepKeepsWellFormed(cfg, st, CheckRefresh(p, token));
    StepKeepsOneCurrent(cfg, st, CheckRefresh(p, token));
  }

  lemma SecondRotationIsLate(cfg: Config, st: State, p: ProcessId, q: ProcessId, token: Token)
    requires WellFormed(st) && OneCurrent(st) && cfg.refreshLifetime > 0 && p != q
    requires Holds(st, p) && Holds(st, q) && st.processes[p] == st.processes[q] == Rotating(token)
    requires token.id !in st.blacklist && RotationAccepted(st, token)
    requires WellFormed(Apply(cfg, st, Rotate(p)))
    ensures Enabled(Apply(cfg, st, Rotate(p)), Rotate(q))
    ensures !OneCurrent(Apply(cfg, Apply(cfg, st, Rotate(p)), Rotate(q)))
  {
    var next := Apply(cfg, st, Rotate(p));
    StepKeepsOneCurrent(cfg, st, Rotate(p));
    assert LateRotation(next, Rotate(q));
    StepKeepsOneCurrent(cfg, next, Rotate(q));
  }
}
