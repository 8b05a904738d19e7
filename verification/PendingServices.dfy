/** accounts/operations.py as methods over the account and pending-token tables. */
module PendingServices {
  import opened Common
  import opened PendingTokens
  import opened PendingTheorems

  class AccountTables {
    var now: Time
    var users: map<UserId, Account>
    var registrations: map<Email, Pending>
    var resets: map<UserId, Pending>
    var changes: map<UserId, PendingChange>
    ghost var issued: set<Token>
    ghost var ids: set<UserId>

    ghost function Rows(): State
      reads this
    {
      State(now, users, registrations, resets, changes, issued, ids, map[])
    }

    constructor (now: Time)
      ensures Rows() == State(now, map[], map[], map[], map[], {}, {}, map[]) && Inv(Rows())
    {
      this.now := now;
      users, registrations, resets, changes := map[], map[], map[], map[];
      issued, ids := {}, {};
    }

    /** `revoke_all_sessions`, here only the version it bumps. */
    method BumpVersionOf(u: UserId)
      requires u in users
      modifies this`users
      ensures users == old(users)[u := Bumped(old(users)[u])]
    {
      users := users[u := users[u].(version := users[u].version + 1)];
    }

    /** The transaction of `confirm_password_reset` for the account its lookup found. */
    method ConfirmPasswordReset(token: Token, u: UserId, password: nat, weak: bool) returns (outcome: Outcome)
      requires Inv(Rows())
      modifies this`users, this`resets
      ensures outcome == ResetOutcome(old(Rows()), token, u, weak)
      ensures var found := u in old(users) && u in old(resets) && old(resets)[u].token == token;
              && (outcome == Invalid <==> !found)
              && (outcome == TokenExpired <==> found && now > old(resets)[u].expiresAt)
              && (outcome == WeakPassword <==> found && now <= old(resets)[u].expiresAt && weak)
              && (outcome == Succeeded <==> found && now <= old(resets)[u].expiresAt && !weak)
      ensures resets == if outcome == Succeeded || outcome == TokenExpired then old(resets) - {u} else old(resets)
      ensures outcome == Succeeded ==>
                users == old(users)[u := Account(old(users)[u].email, password, old(users)[u].version + 1)]
      ensures Rows() == ConfirmedReset(old(Rows()), token, u, password, weak)
      ensures Inv(Rows())
      ensures outcome == Succeeded ==> !old(Dead(Rows(), token)) && Dead(Rows(), token)
      ensures outcome == TokenExpired ==> Dead(Rows(), token)
      ensures outcome != Succeeded ==> users == old(users)
      ensures outcome == Succeeded ==> users[u].password == password && users[u].version == old(users)[u].version + 1
      ensures forall v | v in old(users) && v != u :: v in users && users[v] == old(users)[v]
    {
      ResetAlone(Rows(), token, u, password, weak);
      if u !in users || u !in resets || resets[u].token != token {
        return Invalid;
      }
      var pending := resets[u];
      if now > pending.expiresAt {
        resets := resets - {u};
        return TokenExpired;
      }
      if weak {
        return WeakPassword;
      }
      users := users[u := users[u].(password := password)];
      BumpVersionOf(u);
      resets := resets - {u};
      return Succeeded;
    }

    /** The transaction of `confirm_email_change` for the account its lookup found. */
    method ConfirmEmailChange(token: Token, u: UserId, clash: bool) returns (outcome: Outcome)
      requires Inv(Rows())
      modifies this`users, this`changes
      ensures outcome == ChangeOutcome(old(Rows()), token, u, clash)
      ensures var found := u in old(users) && u in old(changes) && old(changes)[u].token == token;
              && (outcome == Invalid <==>
                    !found || (now <= old(changes)[u].expiresAt && old(changes)[u].version != old(users)[u].version))
              && (outcome == TokenExpired <==> found && now > old(changes)[u].expiresAt)
              && (outcome == EmailTaken <==>
                    && found && now <= old(changes)[u].expiresAt && old(changes)[u].version == old(users)[u].version
                    && exists v | v in old(users) :: v != u && old(users)[v].email == old(changes)[u].newEmail)
              && (outcome == Succeeded || outcome == Conflict <==>
                    && found && now <= old(changes)[u].expiresAt && old(changes)[u].version == old(users)[u].version
                    && forall v | v in old(users) && v != u :: old(users)[v].email != old(changes)[u].newEmail)
              && (outcome == Succeeded ==> !clash) && (outcome == Conflict ==> clash)
              && (found && outcome != Conflict ==> changes == old(changes) - {u})
              && (!found || outcome == Conflict ==> changes == old(changes))
      ensures outcome == Succeeded ==>
                users == old(users)[u := Account(old(changes)[u].newEmail, old(users)[u].password,
                                                 old(users)[u].version + 1)]
      ensures Rows() == ConfirmedChange(old(Rows()), token, u, clash)
      ensures Inv(Rows())
      ensures outcome == Succeeded ==> !old(Dead(Rows(), token)) && Dead(Rows(), token)
      ensures outcome == TokenExpired || outcome == EmailTaken ==> Dead(Rows(), token)
      ensures outcome != Succeeded ==> users == old(users)
      ensures outcome == Succeeded ==>
                && old(changes)[u].version == old(users)[u].version && users[u].version == old(users)[u].version + 1
                && users[u].email == old(changes)[u].newEmail && !TakenByOther(Rows(), users[u].email, u)
      ensures forall v | v in old(users) && v != u :: v in users && users[v] == old(users)[v]
    {
      ChangeAlone(Rows(), token, u, clash);
      if u !in users || u !in changes || changes[u].token != token {
        return Invalid;
      }
      var pending := changes[u];
      if now > pending.expiresAt {
        changes := changes - {u};
        return TokenExpired;
      }
      if pending.version != users[u].version {
        changes := changes - {u};
        return Invalid;
      }
      if exists v | v in users :: v != u && users[v].email == pending.newEmail {
        changes := changes - {u};
        return EmailTaken;
      }
      if clash {
        return Conflict;
      }
      users := users[u := users[u].(email := pending.newEmail)];
      BumpVersionOf(u);
      changes := changes - {u};
      return Succeeded;
    }

    /** `confirm_registration` on the row that carries the token. */
    method ConfirmRegistrationOf(email: Email, token: Token, password: nat, weak: bool, clash: bool, id: UserId)
      returns (outcome: Outcome)
      requires Inv(Rows()) && id !in ids
      modifies this`users, this`registrations, this`ids
      ensures outcome == RegistrationOutcome(old(Rows()), email, token, weak, clash)
      ensures var found := email in old(registrations) && old(registrations)[email].token == token;
              && (outcome == Invalid <==> !found)
              && (outcome == TokenExpired <==> found && now > old(registrations)[email].expiresAt)
              && (outcome == EmailTaken <==>
                    && found && now <= old(registrations)[email].expiresAt
                    && exists v | v in old(users) :: old(users)[v].email == email)
              && (outcome == WeakPassword || outcome == Conflict ==> if weak then outcome == WeakPassword else clash)
              && (outcome == Succeeded <==>
                    && found && now <= old(registrations)[email].expiresAt && !weak && !clash
                    && forall v | v in old(users) :: old(users)[v].email != email)
      ensures registrations == if outcome == Succeeded || outcome == TokenExpired || outcome == EmailTaken
                               then old(registrations) - {email} else old(registrations)
      ensures Rows() == ConfirmedRegistration(old(Rows()), email, token, password, weak, clash, id)
      ensures Inv(Rows())
      ensures outcome == Succeeded ==> !old(Dead(Rows(), token)) && Dead(Rows(), token)
      ensures outcome == TokenExpired || outcome == EmailTaken ==> Dead(Rows(), token)
      ensures outcome != Succeeded ==> users == old(users)
      ensures outcome == Succeeded ==>
                users == old(users)[id := Account(email, password, 1)] && !old(Taken(Rows(), email))
                && id !in old(users)
    {
      RegistrationAlone(Rows(), email, token, password, weak, clash, id);
      if email !in registrations || registrations[email].token != token {
        return Invalid;
      }
      if now > registrations[email].expiresAt {
        registrations := registrations - {email};
        return TokenExpired;
      }
      if exists u | u in users :: users[u].email == email {
        registrations := registrations - {email};
        return EmailTaken;
      }
      if weak {
        return WeakPassword;
      }
      if clash {
        return Conflict;
      }
      users := users[id := Account(email, password, 1)];
      ids := ids + {id};
      registrations := registrations - {email};
      return Succeeded;
    }

    /** `request_email_change`: false where it raises. */
    method RequestEmailChange(u: UserId, newEmail: Email, passwordOk: bool, token: Token, lifetime: Time)
      returns (ok: bool)
      requires token !in issued && Inv(Rows())
      modifies this`changes, this`issued
      ensures Rows() == Apply(old(Rows()), RequestChange(u, newEmail, passwordOk, token, lifetime))
      ensures ok <==> !ChangeRefused(old(Rows()), u, newEmail, passwordOk)
      ensures ok <==>
              && u in users && newEmail != users[u].email && passwordOk
              && forall v | v in users && v != u :: users[v].email != newEmail
      ensures changes == if ok then old(changes)[u := PendingChange(token, now + lifetime, newEmail, users[u].version)]
                         else old(changes)
      ensures Inv(Rows())
      ensures ok && u in old(changes) ==> Dead(Rows(), old(changes)[u].token)
    {
      ghost var before := Rows();
      issued := issued + {token};
      ok := u in users && newEmail != users[u].email && passwordOk
            && !exists v | v in users :: v != u && users[v].email == newEmail;
      if ok {
        changes := changes[u := PendingChange(token, now + lifetime, newEmail, users[u].version)];
      }
      StepKeepsInv(before, RequestChange(u, newEmail, passwordOk, token, lifetime));
      if ok && u in before.changes {
        ReplacedChangeDies(before, u, newEmail, passwordOk, token, lifetime);
      }
    }

    /** The transaction of `rotate_password_reset` for the account its lookup found. */
    method RotatePasswordReset(u: UserId, token: Token, lifetime: Time) returns (ok: bool)
      requires token !in issued && Inv(Rows())
      modifies this`resets, this`issued
      ensures ok <==> u in users
      ensures resets == if ok then old(resets)[u := Pending(token, now + lifetime)] else old(resets)
      ensures issued == old(issued) + {token}
      ensures Inv(Rows())
      ensures ok && u in old(resets) ==> Dead(Rows(), old(resets)[u].token)
      ensures ok ==> TokenIn(Rows(), OfReset(u)) == Some(token)
    {
      RotationAlone(Rows(), u, token, lifetime);
      issued := issued + {token};
      ok := u in users;
      if ok {
        resets := resets[u := Pending(token, now + lifetime)];
      }
    }
  }

  /** A new email change request kills the token of the one it replaces. */
  lemma ReplacedChangeDies(st: State, u: UserId, newEmail: Email, passwordOk: bool, token: Token, lifetime: Time)
    requires Inv(st) && token !in st.issued && u in st.changes && !ChangeRefused(st, u, newEmail, passwordOk)
    ensures Dead(Apply(st, RequestChange(u, newEmail, passwordOk, token, lifetime)), st.changes[u].token)
  {
    var step := RequestChange(u, newEmail, passwordOk, token, lifetime);
    var t := st.changes[u].token;
    assert TokenIn(st, OfChange(u)) == Some(t);
    forall slot ensures TokenIn(Apply(st, step), slot) != Some(t) {
      SlotStep(st, step, slot);
    }
  }

  // ---------- A transaction with no request in flight, as a step ----------

  /** The lookup of this transaction has just found its row. */
  function Holding(st: State, process: Process): State {
    st.(processes := map[0 := process])
  }

  lemma HoldingKeepsInv(st: State, process: Process)
    requires Inv(st) && st.processes == map[] && !process.Editing?
    ensures Inv(Holding(st, process))
  {
    assert forall slot :: TokenIn(Holding(st, process), slot) == TokenIn(st, slot);
  }

  /** A row that is gone leaves its token dead. */
  lemma LostRowDies(st: State, step: Step, slot: Slot, t: Token)
    requires Inv(st) && Enabled(st, step) && TokenIn(st, slot) == Some(t) && TokenIn(Apply(st, step), slot) != Some(t)
    ensures Dead(Apply(st, step), t)
  {
    SlotStep(st, step, slot);
    forall other ensures TokenIn(Apply(st, step), other) != Some(t) {
      SlotStep(st, step, other);
    }
  }

  lemma ResetStep(st: State, token: Token, u: UserId, password: nat, weak: bool)
    requires st.processes == map[]
    ensures var held := Holding(st, FoundReset(token, u));
            Apply(held, ConfirmReset(0, password, weak)) == ConfirmedReset(st, token, u, password, weak)
  {
    assert Holding(st, FoundReset(token, u)).processes - {0} == map[];
  }

  lemma ResetAlone(st: State, token: Token, u: UserId, password: nat, weak: bool)
    requires Inv(st) && st.processes == map[]
    ensures var next := ConfirmedReset(st, token, u, password, weak);
            var outcome := ResetOutcome(st, token, u, weak);
            && Inv(next)
            && (outcome == Succeeded ==> !Dead(st, token) && Dead(next, token))
            && (outcome == TokenExpired ==> Dead(next, token))
  {
    var held := Holding(st, FoundReset(token, u));
    var step := ConfirmReset(0, password, weak);
    HoldingKeepsInv(st, FoundReset(token, u));
    ResetStep(st, token, u, password, weak);
    StepKeepsInv(held, step);
    var outcome := ResetOutcome(st, token, u, weak);
    if outcome == Succeeded || outcome == TokenExpired {
      assert TokenIn(st, OfReset(u)) == Some(token);
      LostRowDies(held, step, OfReset(u), token);
    }
  }

  lemma ChangeAlone(st: State, token: Token, u: UserId, clash: bool)
    requires Inv(st) && st.processes == map[]
    ensures var next := ConfirmedChange(st, token, u, clash);
            var outcome := ChangeOutcome(st, token, u, clash);
            && Inv(next)
            && (outcome == Succeeded ==> !Dead(st, token) && Dead(next, token))
            && (outcome == TokenExpired || outcome == EmailTaken ==> Dead(next, token))
  {
    var held := Holding(st, FoundChange(token, u));
    var step := ConfirmChange(0, clash);
    HoldingKeepsInv(st, FoundChange(token, u));
    ChangeStep(st, token, u, clash);
    StepKeepsInv(held, step);
    if ChangeSettled(ChangeOutcome(st, token, u, clash)) {
      ChangeRowLost(st, token, u, clash);
      LostRowDies(held, step, OfChange(u), token);
    }
  }

  predicate ChangeSettled(outcome: Outcome) {
    outcome == Succeeded || outcome == TokenExpired || outcome == EmailTaken
  }

  lemma ChangeRowLost(st: State, token: Token, u: UserId, clash: bool)
    requires ChangeSettled(ChangeOutcome(st, token, u, clash))
    ensures TokenIn(st, OfChange(u)) == Some(token)
            && TokenIn(ConfirmedChange(st, token, u, clash), OfChange(u)) == None
  {}

  lemma ChangeStep(st: State, token: Token, u: UserId, clash: bool)
    requires st.processes == map[]
    ensures var held := Holding(st, FoundChange(token, u));
            Apply(held, ConfirmChange(0, clash)) == ConfirmedChange(st, token, u, clash)
  {
    var held := Holding(st, FoundChange(token, u));
    assert held.processes - {0} == map[];
    assert ChangeOutcome(held, token, u, clash) == ChangeOutcome(st, token, u, clash);
  }

  lemma RegistrationAlone(st: State, email: Email, token: Token, password: nat, weak: bool, clash: bool, id: UserId)
    requires Inv(st) && id !in st.ids
    ensures var next := ConfirmedRegistration(st, email, token, password, weak, clash, id);
            var outcome := RegistrationOutcome(st, email, token, weak, clash);
            && Inv(next)
            && (outcome == Succeeded ==> !Dead(st, token) && Dead(next, token))
            && (outcome == TokenExpired || outcome == EmailTaken ==> Dead(next, token))
  {
    var outcome := RegistrationOutcome(st, email, token, weak, clash);
    if outcome != Invalid {
      var step := ConfirmRegistration(email, token, password, weak, clash, id);
      StepKeepsInv(st, step);
      assert TokenIn(st, OfRegistration(email)) == Some(token);
      if outcome == Succeeded || outcome == TokenExpired || outcome == EmailTaken {
        LostRowDies(st, step, OfRegistration(email), token);
      }
    }
  }

  lemma RotationAlone(st: State, u: UserId, token: Token, lifetime: Time)
    requires Inv(st) && st.processes == map[] && token !in st.issued
    ensures var row := Pending(token, st.now + lifetime);
            var next := st.(issued := st.issued + {token},
                            resets := if u in st.users then st.resets[u := row] else st.resets);
            && Inv(next)
            && (u in st.users && u in st.resets ==> Dead(next, st.resets[u].token))
  {
    var held := Holding(st, Requesting(u));
    var step := RotateReset(0, token, lifetime);
    HoldingKeepsInv(st, Requesting(u));
    StepKeepsInv(held, step);
    assert held.processes - {0} == map[];
    if u in st.users && u in st.resets {
      assert TokenIn(st, OfReset(u)) == Some(st.resets[u].token);
      LostRowDies(held, step, OfReset(u), st.resets[u].token);
    }
  }
}
