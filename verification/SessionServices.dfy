/** accounts/services.py as methods over the account, session and token tables. */
module SessionServices {
  import opened Common
  import opened Sessions
  import opened SessionRotation

  class AuthTables {
    const cfg: Config
    var now: Time
    var users: map<UserId, User>
    var sessions: map<SessionId, Session>
    var blacklist: set<TokenId>
    var minted: set<Token>
    var nextToken: TokenId
    var used: set<SessionId>

    /** The tables as a state of the transition system, with no request in between statements. */
    function Rows(): State
      reads this
    {
      State(now, users, sessions, blacklist, minted, nextToken, used, map[])
    }

    constructor (cfg: Config, now: Time, users: map<UserId, User>)
      ensures Rows() == Initial(now, users) && this.cfg == cfg
    {
      this.cfg, this.now, this.users := cfg, now, users;
      sessions, blacklist, minted, nextToken, used := map[], {}, {}, 0, {};
    }

    /** `JWTAuth.get_user`: whether an access token authenticates, the account and session rows read at one moment. */
    method Authenticates(token: Token) returns (ok: bool)
      ensures ok <==> Accepts(Rows(), Rows(), token)
      ensures ok <==>
              && token.kind == Access && token.expiresAt > now
              && token.user in users && users[token.user].active && users[token.user].version == token.version
              && token.session in sessions && sessions[token.session].user == token.user
              && sessions[token.session].version == token.version
              && sessions[token.session].revokedAt.None? && sessions[token.session].expiresAt > now
    {
      if token.kind != Access || token.expiresAt <= now || token.user !in users {
        return false;
      }
      var user := users[token.user];
      if !user.active || token.version != user.version || token.session !in sessions {
        return false;
      }
      var session := sessions[token.session];
      return session.user == token.user && session.version == user.version && IsActive(session, now);
    }

    /** `issue_token_pair` for an existing session. */
    method IssueTokenPair(u: UserId, version: nat, s: SessionId) returns (access: Token, refresh: Token)
      modifies this`minted, this`nextToken
      ensures Rows() == Mint(cfg, old(Rows()), u, version, s)
      ensures access.kind == Access && refresh.kind == Refresh
      ensures access.session == s && refresh.session == s && minted == old(minted) + {access, refresh}
      ensures access.user == u && refresh.user == u && access.version == version && refresh.version == version
      ensures access.expiresAt == now + cfg.accessLifetime && refresh.expiresAt == now + cfg.refreshLifetime
      ensures old(WellFormed(Rows())) ==>
                access !in old(minted) && refresh !in old(minted) && access.id !in blacklist && refresh.id !in blacklist
    {
      access := Token(Access, nextToken, u, s, version, now + cfg.accessLifetime);
      refresh := Token(Refresh, nextToken + 1, u, s, version, now + cfg.refreshLifetime);
      minted := minted + {access, refresh};
      nextToken := nextToken + 2;
    }

    /** `AuthSession.revoke` */
    method Revoke(s: SessionId)
      modifies this`sessions
      ensures Rows() == RevokeSession(old(Rows()), s)
      ensures s in used ==> Dead(Rows(), s)
      ensures s in old(sessions) && old(sessions)[s].revokedAt.Some? ==> sessions == old(sessions)
      ensures s in old(sessions) && old(sessions)[s].revokedAt.None? ==>
                s in sessions && sessions[s] == old(sessions)[s].(revokedAt := Some(now))
      ensures sessions.Keys == old(sessions).Keys
      ensures forall other | other in old(sessions) && other != s ::
                other in sessions && sessions[other] == old(sessions)[other]
    {
      if s in sessions {
        if sessions[s].revokedAt == None {
          sessions := sessions[s := sessions[s].(revokedAt := Some(now))];
        }
        assert old(s in sessions ==> sessions == sessions[s := sessions[s]]);
      }
    }

    /** The transaction of `rotate_token_pair`, under the account and session row locks. */
    method RotateLocked(raw: Token) returns (pair: Option<Token>)
      modifies this`sessions, this`blacklist, this`minted, this`nextToken
      ensures pair.Some? <==> RotationAccepted(old(Rows()), raw)
      ensures pair.Some? <==>
              && raw.user in users && raw.session in old(sessions) && old(sessions)[raw.session].user == raw.user
              && users[raw.user].active && users[raw.user].version == raw.version
              && old(sessions)[raw.session].version == raw.version
              && old(sessions)[raw.session].revokedAt.None? && old(sessions)[raw.session].expiresAt > now
      ensures pair.Some? ==> pair.value.kind == Refresh && pair.value.session == raw.session
      ensures pair.Some? ==>
              && pair.value.user == raw.user && pair.value.version == users[raw.user].version
              && pair.value.expiresAt == now + cfg.refreshLifetime && pair.value in minted
              && blacklist == old(blacklist) + {raw.id}
              && sessions ==
                   old(sessions)[raw.session := Session(raw.user, raw.version, now + cfg.refreshLifetime, None)]
      ensures pair.None? ==> blacklist == old(blacklist) && minted == old(minted)
      ensures pair.None? ==>
                if raw.user in users && raw.session in old(sessions) && old(sessions)[raw.session].user == raw.user
                   && old(sessions)[raw.session].revokedAt.None? then
                  sessions == old(sessions)[raw.session := old(sessions)[raw.session].(revokedAt := Some(now))]
                else sessions == old(sessions)
      ensures Rows() == Rotated(cfg, old(Rows()), raw)
    {
      var rejected := false;
      pair := None;
      if raw.user !in users || raw.session !in sessions || sessions[raw.session].user != raw.user {
        return;
      }
      var user, session := users[raw.user], sessions[raw.session];
      if !user.active || user.version != raw.version || session.version != user.version || !IsActive(session, now) {
        Revoke(raw.session);
        rejected := true;
      } else {
        blacklist := blacklist + {raw.id};
        sessions := sessions[raw.session := session.(expiresAt := now + cfg.refreshLifetime)];
        var access, refresh := IssueTokenPair(raw.user, user.version, raw.session);
        pair := Some(refresh);
      }
      if rejected {
        pair := None;
      }
    }

    /** `rotate_token_pair`: the new refresh token, or None where it answers 401. */
    method RotateTokenPair(raw: Token) returns (pair: Option<Token>)
      requires raw in minted
      modifies this`sessions, this`blacklist, this`minted, this`nextToken
      ensures pair.Some? <==> Presentable(old(Rows()), raw) && RotationAccepted(old(Rows()), raw)
      ensures pair.Some? <==>
              && raw.kind == Refresh && raw.expiresAt > now && raw.id !in old(blacklist)
              && raw.user in users && raw.session in old(sessions) && old(sessions)[raw.session].user == raw.user
              && users[raw.user].active && users[raw.user].version == raw.version
              && old(sessions)[raw.session].version == raw.version
              && old(sessions)[raw.session].revokedAt.None? && old(sessions)[raw.session].expiresAt > now
      ensures pair.Some? ==> pair.value.kind == Refresh && pair.value.session == raw.session
      ensures pair.Some? ==>
              && pair.value.user == raw.user && pair.value.version == users[raw.user].version
              && pair.value.expiresAt == now + cfg.refreshLifetime && pair.value in minted
              && blacklist == old(blacklist) + {raw.id}
              && sessions ==
                   old(sessions)[raw.session := Session(raw.user, raw.version, now + cfg.refreshLifetime, None)]
      ensures pair.None? ==> blacklist == old(blacklist) && minted == old(minted)
      ensures pair.None? && (raw.kind != Refresh || raw.expiresAt <= now || raw.id in old(blacklist)) ==>
                if raw.session in old(sessions) && old(sessions)[raw.session].revokedAt.None?
                && raw.expiresAt > now then
                  sessions == old(sessions)[raw.session := old(sessions)[raw.session].(revokedAt := Some(now))]
                else sessions == old(sessions)
      ensures Rows() == if Presentable(old(Rows()), raw) then Rotated(cfg, old(Rows()), raw)
                        else Rejected(old(Rows()), raw)
      ensures old(WellFormed(Rows()) && OneCurrent(Rows())) ==> WellFormed(Rows()) && OneCurrent(Rows())
    {
      ghost var before := Rows();
      if raw.kind != Refresh || raw.expiresAt <= now || raw.id in blacklist {
        if raw.expiresAt > now {
          Revoke(raw.session);
        }
        pair := None;
      } else {
        pair := RotateLocked(raw);
      }
      if WellFormed(before) && OneCurrent(before) {
        OneCallKeepsOneCurrent(cfg, before, raw);
      }
    }

    /** `revoke_session_from_refresh`: false where it answers 401. */
    method RevokeSessionFromRefresh(raw: Token) returns (ok: bool)
      requires raw in minted
      modifies this`sessions, this`blacklist
      ensures ok <==> Presentable(old(Rows()), raw)
      ensures ok <==> raw.kind == Refresh && raw.expiresAt > now && raw.id !in old(blacklist)
      ensures blacklist == if ok then old(blacklist) + {raw.id} else old(blacklist)
      ensures if ok && raw.session in old(sessions) && old(sessions)[raw.session].revokedAt.None? then
                sessions == old(sessions)[raw.session := old(sessions)[raw.session].(revokedAt := Some(now))]
              else sessions == old(sessions)
      ensures Rows() == if ok then RevokeSession(old(Rows()), raw.session).(blacklist := old(blacklist) + {raw.id})
                        else old(Rows())
      ensures ok && old(WellFormed(Rows())) ==> Dead(Rows(), raw.session)
    {
      ok := raw.kind == Refresh && raw.expiresAt > now && raw.id !in blacklist;
      if ok {
        Revoke(raw.session);
        blacklist := blacklist + {raw.id};
      }
    }

    /** `revoke_all_sessions` */
    method RevokeAllSessions(u: UserId)
      requires u in users
      modifies this`sessions, this`users
      ensures Rows() == RevokeAllOf(old(Rows()), u)
      ensures users == old(users)[u := User(old(users)[u].active, old(users)[u].version + 1)]
      ensures sessions.Keys == old(sessions).Keys
      ensures forall s | s in old(sessions) ::
                sessions[s] == if old(sessions)[s].user == u && old(sessions)[s].revokedAt.None? then
                                 old(sessions)[s].(revokedAt := Some(now))
                               else old(sessions)[s]
      ensures old(SessionsUsed(Rows())) ==> forall s | old(HasSession(Rows(), s, u)) :: Dead(Rows(), s)
    {
      sessions := map s | s in sessions ::
          if sessions[s].user == u && sessions[s].revokedAt == None then sessions[s].(revokedAt := Some(now))
          else sessions[s];
      users := users[u := users[u].(version := users[u].version + 1)];
      assert Rows().sessions == RevokeAllOf(old(Rows()), u).sessions;
    }

    /** The session half of `set_user_active_status`. */
    method SetActive(u: UserId, active: bool)
      requires u in users
      modifies this`sessions, this`users
      ensures Rows() == Apply(cfg, old(Rows()), Step.SetActive(u, active))
      ensures users == old(users)[u := User(active, old(users)[u].version + 1)]
      ensures old(SessionsUsed(Rows())) ==> forall s | old(HasSession(Rows(), s, u)) :: Dead(Rows(), s)
      ensures forall s | s in old(sessions) && old(sessions)[s].user != u ::
                s in sessions && sessions[s] == old(sessions)[s]
    {
      users := users[u := users[u].(active := active)];
      RevokeAllSessions(u);
    }
  }

  /** The check and the locked phase, run back to back. */
  lemma OneCallKeepsOneCurrent(cfg: Config, st: State, raw: Token)
    requires WellFormed(st) && OneCurrent(st) && raw in st.minted && st.processes == map[]
    ensures var next := if Presentable(st, raw) then Rotated(cfg, st, raw) else Rejected(st, raw);
            WellFormed(next) && OneCurrent(next)
  {
    if Presentable(st, raw) {
      CheckThen(cfg, st, 0, raw);
      var checked := Apply(cfg, st, CheckRefresh(0, raw));
      StepKeepsWellFormed(cfg, checked, Rotate(0));
      StepKeepsOneCurrent(cfg, checked, Rotate(0));
      RotatedIgnoresProcesses(cfg, st, raw, checked.processes);
      assert checked.processes - {0} == map[];
      assert Apply(cfg, checked, Rotate(0)) == Rotated(cfg, st, raw);
    } else {
      StepKeepsWellFormed(cfg, st, RejectRefresh(raw));
      StepKeepsOneCurrent(cfg, st, RejectRefresh(raw));
    }
  }

  lemma RotatedIgnoresProcesses(cfg: Config, st: State, raw: Token, ps: map<ProcessId, Process>)
    ensures Rotated(cfg, st.(processes := ps), raw) == Rotated(cfg, st, raw).(processes := ps)
  {
  }
}
