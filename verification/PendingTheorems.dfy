/** What holds of mailed tokens in every interleaving. */
module PendingTheorems {
  import opened Common
  import opened PendingTokens

  lemma StepKeepsTokensInv(st: State, step: Step)
    requires Inv(st) && Enabled(st, step)
    ensures var next := Apply(st, step);
            && (forall slot, t :: TokenIn(next, slot) == Some(t) ==> t in next.issued)
            && (forall s1, s2 :: TokenIn(next, s1).Some? && TokenIn(next, s1) == TokenIn(next, s2) ==> s1 == s2)
  {
    var next := Apply(st, step);
    forall slot, t | TokenIn(next, slot) == Some(t) ensures t in next.issued {
      SlotStep(st, step, slot);
    }
    forall s1, s2 | TokenIn(next, s1).Some? && TokenIn(next, s1) == TokenIn(next, s2) ensures s1 == s2 {
      SlotStep(st, step, s1);
      SlotStep(st, step, s2);
    }
  }

  lemma StepKeepsIds(st: State, step: Step)
    requires Inv(st) && Enabled(st, step)
    ensures forall u | u in Apply(st, step).users :: u in Apply(st, step).ids
    ensures st.ids <= Apply(st, step).ids
  {}

  lemma EditorsComeFromReads(st: State, step: Step, p: ProcessId)
    requires Enabled(st, step) && p in Apply(st, step).processes && Apply(st, step).processes[p].Editing?
    ensures || (p in st.processes && Apply(st, step).processes[p] == st.processes[p])
            || (step.ReadForEdit? && Apply(st, step).processes[p].user in st.users)
  {}

  lemma StepKeepsEditors(st: State, step: Step, p: ProcessId)
    requires Inv(st) && Enabled(st, step) && p in Apply(st, step).processes && Apply(st, step).processes[p].Editing?
    ensures Apply(st, step).processes[p].user in Apply(st, step).ids
  {
    EditorsComeFromReads(st, step, p);
    StepKeepsIds(st, step);
  }

  lemma ChangesComeFromRequests(st: State, step: Step, u: UserId)
    requires Enabled(st, step) && !step.RequestChange? && u in Apply(st, step).changes
    ensures u in st.changes && Apply(st, step).changes[u] == st.changes[u]
  {}

  lemma UsersStay(st: State, step: Step, u: UserId)
    requires Enabled(st, step) && u in st.users
    ensures u in Apply(st, step).users || step == DeleteUser(u)
  {}

  lemma StepKeepsChangeOwners(st: State, step: Step, u: UserId)
    requires Inv(st) && Enabled(st, step) && u in Apply(st, step).changes
    ensures u in Apply(st, step).users
  {
    if !step.RequestChange? && !step.DeleteUser? {
      ChangesComeFromRequests(st, step, u);
      UsersStay(st, step, u);
    }
  }

  lemma StepKeepsInv(st: State, step: Step)
    requires Inv(st) && Enabled(st, step)
    ensures Inv(Apply(st, step))
  {
    StepKeepsTokensInv(st, step);
    StepKeepsIds(st, step);
    var next := Apply(st, step);
    forall u | u in next.changes ensures u in next.users {
      StepKeepsChangeOwners(st, step, u);
    }
    forall p | p in next.processes && next.processes[p].Editing? ensures next.processes[p].user in next.ids {
      StepKeepsEditors(st, step, p);
    }
  }

  lemma DeadStep(st: State, step: Step, t: Token)
    requires Enabled(st, step) && Dead(st, t)
    ensures Dead(Apply(st, step), t)
  {
    SlotStep(st, step, OfReset(0));
    forall slot ensures TokenIn(Apply(st, step), slot) != Some(t) {
      SlotStep(st, step, slot);
    }
  }

  /** A redeemed token sat in a row, and that row is gone afterwards. */
  lemma RedemptionConsumes(st: State, step: Step, t: Token)
    requires Inv(st) && Enabled(st, step) && Redeems(st, step) == Some(t)
    ensures !Dead(st, t) && Dead(Apply(st, step), t)
  {
    var slot := match step
      case ConfirmRegistration(email, _, _, _, _, _) => OfRegistration(email)
      case ConfirmReset(p, _, _) => OfReset(st.processes[p].user)
      case ConfirmChange(p, _) => OfChange(st.processes[p].user);
    assert TokenIn(st, slot) == Some(t);
    assert TokenIn(Apply(st, step), slot) == None;
    SlotStep(st, step, slot);
    forall other ensures TokenIn(Apply(st, step), other) != Some(t) {
      SlotStep(st, step, other);
    }
  }

  lemma {:induction false} DeadIsNeverRedeemed(st: State, steps: seq<Step>, t: Token)
    requires Inv(st) && Runs(st, steps) && Dead(st, t)
    ensures Redemptions(st, steps, t) == 0 && Dead(After(st, steps), t)
    decreases |steps|
  {
    if steps == [] {
    } else {
      if Redeems(st, steps[0]) == Some(t) {
        RedemptionConsumes(st, steps[0], t);
      }
      StepKeepsInv(st, steps[0]);
      DeadStep(st, steps[0], t);
      DeadIsNeverRedeemed(Apply(st, steps[0]), steps[1..], t);
    }
  }

  /** Any interleaving of lookups, locks and re-checks redeems a token at most once. */
  lemma {:induction false} RedeemedAtMostOnce(st: State, steps: seq<Step>, t: Token)
    requires Inv(st) && Runs(st, steps)
    ensures Redemptions(st, steps, t) <= 1
    decreases |steps|
  {
    if steps == [] {
    } else {
      var next := Apply(st, steps[0]);
      StepKeepsInv(st, steps[0]);
      if Redeems(st, steps[0]) == Some(t) {
        RedemptionConsumes(st, steps[0], t);
        DeadIsNeverRedeemed(next, steps[1..], t);
      } else {
        RedeemedAtMostOnce(next, steps[1..], t);
      }
    }
  }

  /** Once a new request replaced the token in its row, the earlier token never succeeds again. */
  lemma RotatedOutNeverRedeemed(st: State, step: Step, later: seq<Step>, t: Token)
    requires Inv(st) && Enabled(st, step) && StoresToken(step)
    requires TokenIn(st, Target(st, step)) == Some(t)
    requires TokenIn(Apply(st, step), Target(st, step)) == Some(step.token)
    requires Runs(Apply(st, step), later)
    ensures Redemptions(Apply(st, step), later, t) == 0
  {
    var next := Apply(st, step);
    forall slot ensures TokenIn(next, slot) != Some(t) {
      SlotStep(st, step, slot);
    }
    SlotStep(st, step, Target(st, step));
    StepKeepsInv(st, step);
    DeadIsNeverRedeemed(next, later, t);
  }

  // ---------- What a rejected confirmation leaves behind ----------

  /** The reset row survives exactly a weak password; success and expiry both commit its deletion. */
  lemma ResetRowFate(st: State, p: ProcessId, password: nat, weak: bool)
    requires Inv(st) && Enabled(st, ConfirmReset(p, password, weak))
    requires var f := st.processes[p]; f.user in st.users && TokenIn(st, OfReset(f.user)) == Some(f.token)
    ensures var f := st.processes[p];
            var next := Apply(st, ConfirmReset(p, password, weak));
            var outcome := ResetOutcome(st, f.token, f.user, weak);
            && (TokenIn(next, OfReset(f.user)) == Some(f.token) <==> outcome == WeakPassword)
            && (outcome == WeakPassword <==> !IsExpired(st.resets[f.user].expiresAt, st.now) && weak)
            && (outcome == TokenExpired <==> IsExpired(st.resets[f.user].expiresAt, st.now))
            && (outcome == Succeeded <==>
                  next.users[f.user] == Account(st.users[f.user].email, password, st.users[f.user].version + 1))
            && (outcome != Succeeded ==> next.users == st.users)
  {
  }

  /** The registration row survives exactly a weak password or a lost creation race. */
  lemma RegistrationRowFate(st: State, email: Email, token: Token, password: nat, weak: bool, clash: bool, id: UserId)
    requires Inv(st) && Enabled(st, ConfirmRegistration(email, token, password, weak, clash, id))
    requires RegistrationWith(st, email, token)
    ensures var next := Apply(st, ConfirmRegistration(email, token, password, weak, clash, id));
            var kept := !IsExpired(st.registrations[email].expiresAt, st.now) && !Taken(st, email) && (weak || clash);
            && (RegistrationWith(next, email, token) <==> kept)
            && (id in next.users <==>
                  Redeems(st, ConfirmRegistration(email, token, password, weak, clash, id)) == Some(token))
            && (forall u | u in st.users :: u in next.users && next.users[u] == st.users[u])
  {
  }

  /** The email-change row survives exactly a lost uniqueness race. */
  lemma ChangeRowFate(st: State, p: ProcessId, clash: bool)
    requires Inv(st) && Enabled(st, ConfirmChange(p, clash))
    requires ChangeFound(st, st.processes[p].token, st.processes[p].user)
    ensures var f := st.processes[p];
            var next := Apply(st, ConfirmChange(p, clash));
            var row := st.changes[f.user];
            && (f.user in next.changes <==>
                  clash && !IsExpired(row.expiresAt, st.now) && row.version == st.users[f.user].version
                  && !TakenByOther(st, row.newEmail, f.user))
            && (Redeems(st, ConfirmChange(p, clash)) == Some(f.token) <==>
                  !clash && !IsExpired(row.expiresAt, st.now) && row.version == st.users[f.user].version
                  && !TakenByOther(st, row.newEmail, f.user))
            && (Redeems(st, ConfirmChange(p, clash)) == Some(f.token) ==>
                  next.users[f.user] == Account(row.newEmail, st.users[f.user].password, row.version + 1))
  {
  }

  lemma {:induction false} RunKeepsInv(st: State, steps: seq<Step>)
    requires Inv(st) && Runs(st, steps)
    ensures Inv(After(st, steps))
    decreases |steps|
  {
    if steps == [] {
    } else {
      StepKeepsInv(st, steps[0]);
      RunKeepsInv(Apply(st, steps[0]), steps[1..]);
    }
  }

  // ---------- An email change is bound to one account version ----------

  /** The account exists at version v in every state of the run. */
  ghost predicate VersionThroughout(st: State, steps: seq<Step>, u: UserId, v: nat)
    requires Runs(st, steps)
    decreases |steps|
  {
    && u in st.users && st.users[u].version == v
    && (steps != [] ==> VersionThroughout(Apply(st, steps[0]), steps[1..], u, v))
  }

  /** A full-row save that succeeds and writes a version of u below the stored one. */
  predicate Rewinds(st: State, step: Step, u: UserId) {
    && step.SaveEdit? && step.p in st.processes && st.processes[step.p].Editing?
    && st.processes[step.p].user == u && !SaveFails(st, st.processes[step.p], step.clash)
    && u in st.users && st.processes[step.p].seen.version < st.users[u].version
  }

  predicate RewoundIn(st: State, steps: seq<Step>, u: UserId)
    requires Runs(st, steps)
    decreases |steps|
  {
    steps != [] && (Rewinds(st, steps[0], u) || RewoundIn(Apply(st, steps[0]), steps[1..], u))
  }

  /** The version of an account falls in a step exactly when the step is such a save. */
  lemma VersionFallsExactly(st: State, step: Step, u: UserId)
    requires Enabled(st, step) && u in st.users && u in st.ids && u in Apply(st, step).users
    ensures Apply(st, step).users[u].version < st.users[u].version <==> Rewinds(st, step, u)
  {}

  /** A run that can still redeem t keeps its email-change row as it was. */
  lemma ChangeRowStep(st: State, step: Step, u: UserId, t: Token)
    requires Inv(st) && Enabled(st, step) && TokenIn(st, OfChange(u)) == Some(t)
    ensures var next := Apply(st, step);
            || Dead(next, t)
            || (u in st.users && u in next.users && u in next.changes && next.changes[u] == st.changes[u])
  {
    var next := Apply(st, step);
    SlotStep(st, step, OfChange(u));
    if TokenIn(next, OfChange(u)) == Some(t) {
      SameRowStep(st, step, u, t);
    } else {
      forall slot ensures TokenIn(next, slot) != Some(t) {
        SlotStep(st, step, slot);
      }
    }
  }

  lemma SameRowStep(st: State, step: Step, u: UserId, t: Token)
    requires Inv(st) && Enabled(st, step)
    requires TokenIn(st, OfChange(u)) == Some(t) && TokenIn(Apply(st, step), OfChange(u)) == Some(t)
    ensures u in st.users && u in Apply(st, step).users && Apply(st, step).changes[u] == st.changes[u]
  {
    StepKeepsChangeOwners(st, step, u);
    if step.RequestChange? {
      assert t in st.issued;
    } else {
      ChangesComeFromRequests(st, step, u);
    }
  }

  /** While t can be redeemed at the end, its row and its account stay. */
  lemma RowStays(st: State, steps: seq<Step>, last: Step, u: UserId, t: Token)
    requires Inv(st) && Runs(st, steps) && steps != [] && Enabled(After(st, steps), last)
    requires TokenIn(st, OfChange(u)) == Some(t) && Redeems(After(st, steps), last) == Some(t)
    ensures var next := Apply(st, steps[0]);
            Inv(next) && u in st.users && u in next.users && u in next.changes && next.changes[u] == st.changes[u]
  {
    var next := Apply(st, steps[0]);
    StepKeepsInv(st, steps[0]);
    ChangeRowStep(st, steps[0], u, t);
    if Dead(next, t) {
      DeadIsNeverRedeemed(next, steps[1..], t);
      RunKeepsInv(next, steps[1..]);
      RedemptionConsumes(After(next, steps[1..]), last, t);
      assert false;
    }
  }

  /** What a confirmation of t requires of the last state. */
  lemma RedeemedChange(st: State, last: Step, u: UserId, t: Token)
    requires Inv(st) && Enabled(st, last) && last.ConfirmChange?
    requires TokenIn(st, OfChange(u)) == Some(t) && Redeems(st, last) == Some(t)
    ensures st.processes[last.p].user == u && u in st.users && st.users[u].version == st.changes[u].version
  {
    assert TokenIn(st, OfChange(st.processes[last.p].user)) == Some(t);
  }

  /** Without a rewinding save the version never exceeds the recorded one on the way to the confirmation. */
  lemma {:induction false} NeverAboveRecorded(st: State, steps: seq<Step>, last: Step, u: UserId, t: Token)
    requires Inv(st) && Runs(st, steps) && Enabled(After(st, steps), last)
    requires TokenIn(st, OfChange(u)) == Some(t)
    requires last.ConfirmChange? && Redeems(After(st, steps), last) == Some(t)
    requires !RewoundIn(st, steps, u)
    ensures u in st.users && st.users[u].version <= st.changes[u].version
    decreases |steps|
  {
    if steps == [] {
      RedeemedChange(st, last, u, t);
    } else {
      RowStays(st, steps, last, u, t);
      VersionFallsExactly(st, steps[0], u);
      NeverAboveRecorded(Apply(st, steps[0]), steps[1..], last, u, t);
    }
  }

  /**
   * A confirmed email change, in whatever order request and confirmation
   * interleave with password changes, resets, deactivations, profile updates
   * and other requests: the account version stood still from the request on
   * exactly when no profile update wrote back a lower version in between.
   */
  lemma {:induction false} EmailChangeFreezesVersion(st: State, steps: seq<Step>, last: Step, u: UserId, t: Token)
    requires Inv(st) && Runs(st, steps) && Enabled(After(st, steps), last)
    requires TokenIn(st, OfChange(u)) == Some(t)
    requires last.ConfirmChange? && Redeems(After(st, steps), last) == Some(t)
    ensures VersionThroughout(st, steps, u, st.changes[u].version) <==>
            u in st.users && st.users[u].version == st.changes[u].version && !RewoundIn(st, steps, u)
    decreases |steps|
  {
    if steps == [] {
      RedeemedChange(st, last, u, t);
    } else {
      var next := Apply(st, steps[0]);
      RowStays(st, steps, last, u, t);
      VersionFallsExactly(st, steps[0], u);
      EmailChangeFreezesVersion(next, steps[1..], last, u, t);
      if !RewoundIn(st, steps, u) {
        NeverAboveRecorded(next, steps[1..], last, u, t);
      }
    }
  }

  /** A granted request stores the current version, so the theorem speaks of the request itself. */
  lemma RequestRecordsVersion(st: State, u: UserId, newEmail: Email, token: Token, lifetime: Time)
    requires Inv(st) && Enabled(st, RequestChange(u, newEmail, true, token, lifetime))
    requires !ChangeRefused(st, u, newEmail, true)
    ensures var next := Apply(st, RequestChange(u, newEmail, true, token, lifetime));
            TokenIn(next, OfChange(u)) == Some(token) && next.changes[u].version == next.users[u].version && Inv(next)
  {
    StepKeepsInv(st, RequestChange(u, newEmail, true, token, lifetime));
  }

  /** The same from the request itself: a granted request records the version the account then has. */
  lemma RequestToConfirmation(st: State, u: UserId, newEmail: Email, token: Token, lifetime: Time, steps: seq<Step>,
                              last: Step)
    requires Inv(st) && Enabled(st, RequestChange(u, newEmail, true, token, lifetime))
    requires !ChangeRefused(st, u, newEmail, true)
    requires var next := Apply(st, RequestChange(u, newEmail, true, token, lifetime));
             && Runs(next, steps) && Enabled(After(next, steps), last)
             && last.ConfirmChange? && Redeems(After(next, steps), last) == Some(token)
    ensures var next := Apply(st, RequestChange(u, newEmail, true, token, lifetime));
            VersionThroughout(next, steps, u, st.users[u].version) <==> !RewoundIn(next, steps, u)
  {
    RequestRecordsVersion(st, u, newEmail, token, lifetime);
    var next := Apply(st, RequestChange(u, newEmail, true, token, lifetime));
    EmailChangeFreezesVersion(next, steps, last, u, token);
  }

  /** Some request of the run brought the account's current password and was given this token. */
  predicate Authorized(steps: seq<Step>, t: Token) {
    exists i | 0 <= i < |steps| :: steps[i].RequestChange? && steps[i].passwordOk && steps[i].token == t
  }

  lemma RowNeedsPassword(st: State, step: Step, u: UserId, t: Token)
    requires Enabled(st, step) && TokenIn(Apply(st, step), OfChange(u)) == Some(t)
    ensures TokenIn(st, OfChange(u)) == Some(t) || (step.RequestChange? && step.passwordOk && step.token == t)
  {
    if !step.RequestChange? {
      ChangesComeFromRequests(st, step, u);
    }
  }

  lemma {:induction false} StoredNeedsPassword(st: State, steps: seq<Step>, u: UserId, t: Token)
    requires Runs(st, steps) && TokenIn(After(st, steps), OfChange(u)) == Some(t)
    ensures TokenIn(st, OfChange(u)) == Some(t) || Authorized(steps, t)
    decreases |steps|
  {
    if steps == [] {
    } else {
      StoredNeedsPassword(Apply(st, steps[0]), steps[1..], u, t);
      if Authorized(steps[1..], t) {
        var i :| 0 <= i < |steps[1..]| && steps[1..][i].RequestChange? && steps[1..][i].passwordOk
                 && steps[1..][i].token == t;
        assert steps[i + 1] == steps[1..][i];
      } else {
        RowNeedsPassword(st, steps[0], u, t);
      }
    }
  }

  /** In every run from empty tables, an email change that is confirmed was requested with the right password. */
  lemma EmailChangeNeedsPassword(steps: seq<Step>, last: Step, t: Token)
    requires Runs(Empty(), steps) && Enabled(After(Empty(), steps), last)
    requires last.ConfirmChange? && Redeems(After(Empty(), steps), last) == Some(t)
    ensures Authorized(steps, t)
  {
    StoredNeedsPassword(Empty(), steps, After(Empty(), steps).processes[last.p].user, t);
  }

  // ---------- Which rows a step changes ----------

  predicate IsConfirmation(step: Step) {
    step.ConfirmRegistration? || step.ConfirmReset? || step.ConfirmChange?
  }

  lemma AccountAfterConfirmation(st: State, step: Step, u: UserId)
    requires Enabled(st, step) && IsConfirmation(step) && u in st.users && u in st.ids
    ensures var next := Apply(st, step);
            && u in next.users
            && next.users[u] ==
                 if step.ConfirmReset? && st.processes[step.p].user == u && Redeems(st, step).Some? then
                   Account(st.users[u].email, step.password, st.users[u].version + 1)
                 else if step.ConfirmChange? && st.processes[step.p].user == u && Redeems(st, step).Some? then
                   Account(st.changes[u].newEmail, st.users[u].password, st.users[u].version + 1)
                 else st.users[u]
  {}

  lemma AccountAfterOther(st: State, step: Step, u: UserId)
    requires Enabled(st, step) && !IsConfirmation(step) && u in st.users
    ensures var next := Apply(st, step);
            && (u in next.users <==> step != DeleteUser(u))
            && (u in next.users ==>
                  next.users[u] ==
                    if step == BumpVersion(u) then
                      Account(st.users[u].email, st.users[u].password, st.users[u].version + 1)
                    else if step.SaveEdit? && st.processes[step.p].user == u && !step.clash
                         && (forall v | v in st.users && v != u :: st.users[v].email != st.processes[step.p].seen.email)
                    then st.processes[step.p].seen
                    else st.users[u])
  {}

  /** The account columns: who may change them, and to what. */
  lemma AccountAfter(st: State, step: Step, u: UserId)
    requires Enabled(st, step) && u in st.users && u in st.ids
    ensures var next := Apply(st, step);
            && (u in next.users <==> step != DeleteUser(u))
            && (u in next.users ==>
                  next.users[u] ==
                    if step == BumpVersion(u) then
                      Account(st.users[u].email, st.users[u].password, st.users[u].version + 1)
                    else if step.SaveEdit? && st.processes[step.p].user == u && !step.clash
                         && (forall v | v in st.users && v != u :: st.users[v].email != st.processes[step.p].seen.email)
                    then st.processes[step.p].seen
                    else if step.ConfirmReset? && st.processes[step.p].user == u && Redeems(st, step).Some? then
                      Account(st.users[u].email, step.password, st.users[u].version + 1)
                    else if step.ConfirmChange? && st.processes[step.p].user == u && Redeems(st, step).Some? then
                      Account(st.changes[u].newEmail, st.users[u].password, st.users[u].version + 1)
                    else st.users[u])
  {
    if IsConfirmation(step) {
      AccountAfterConfirmation(st, step, u);
    } else {
      AccountAfterOther(st, step, u);
    }
  }

  /** The purge removes exactly the rows whose expiry has passed, of all three kinds. */
  lemma PurgeExactly(st: State)
    ensures var next := Apply(st, PurgeExpired);
            && (forall e :: e in next.registrations <==>
                  (e in st.registrations && st.now <= st.registrations[e].expiresAt))
            && (forall e | e in next.registrations :: next.registrations[e] == st.registrations[e])
            && (forall u :: u in next.resets <==> (u in st.resets && st.now <= st.resets[u].expiresAt))
            && (forall u | u in next.resets :: next.resets[u] == st.resets[u])
            && (forall u :: u in next.changes <==> (u in st.changes && st.now <= st.changes[u].expiresAt))
            && (forall u | u in next.changes :: next.changes[u] == st.changes[u])
            && next.users == st.users
  {}

  /** The deletion of an account takes its pending rows along, and no others. */
  lemma DeletionCascades(st: State, u: UserId)
    requires Enabled(st, DeleteUser(u))
    ensures Apply(st, DeleteUser(u)) ==
              st.(users := st.users - {u}, resets := st.resets - {u}, changes := st.changes - {u})
    ensures forall p | p in st.processes :: Apply(st, Abandon(p)) == st.(processes := st.processes - {p})
  {}

  /** A mailed registration stores its row, unless a race was lost; cancelling it removes exactly that row. */
  lemma RegistrationMailed(st: State, p: ProcessId, token: Token, lifetime: Time, clash: bool, other: Token)
    requires Enabled(st, RotateRegistration(p, token, lifetime, clash))
    ensures var email := st.processes[p].email;
            var next := Apply(st, RotateRegistration(p, token, lifetime, clash));
            && next.registrations ==
                 (if clash then st.registrations else st.registrations[email := Pending(token, st.now + lifetime)])
            && (!clash ==>
                  Apply(next, CancelRegistration(email, other)).registrations ==
                    if other == token then next.registrations - {email} else next.registrations)
            && next.resets == st.resets && next.changes == st.changes && next.users == st.users
  {}

  /** Each flow undisturbed, and confirmed no later than its expiry, does what was mailed. */
  lemma ResetSucceeds(st: State, p: ProcessId, token: Token, lifetime: Time, password: nat)
    requires Inv(st) && Enabled(st, RotateReset(p, token, lifetime)) && lifetime >= 0
    requires st.processes[p].user in st.users
    ensures var u := st.processes[p].user;
            var s1 := Apply(st, RotateReset(p, token, lifetime));
            && Enabled(s1, Tick(s1.now + lifetime))
            && var s2 := Apply(s1, Tick(s1.now + lifetime));
               && Enabled(s2, FindReset(p, token, u))
               && var s3 := Apply(s2, FindReset(p, token, u));
                  && Enabled(s3, ConfirmReset(p, password, false))
                  && Redeems(s3, ConfirmReset(p, password, false)) == Some(token)
                  && Apply(s3, ConfirmReset(p, password, false)).users ==
                       st.users[u := Account(st.users[u].email, password, st.users[u].version + 1)]
  {}

  // ---------- The rewinding save at work ----------

  lemma RunOne(st: State, step: Step, rest: seq<Step>)
    requires Enabled(st, step) && Runs(Apply(st, step), rest)
    ensures Runs(st, [step] + rest) && After(st, [step] + rest) == After(Apply(st, step), rest)
    ensures forall u :: RewoundIn(st, [step] + rest, u) <==> Rewinds(st, step, u) || RewoundIn(Apply(st, step), rest, u)
  {
    assert ([step] + rest)[1..] == rest;
  }

  /** No account, no pending row, no request in flight. */
  function Empty(): State {
    State(0, map[], map[], map[], map[], {}, {}, map[])
  }

  /** Account 1 registers, and asks for another address. */
  function RegisterThenRequest(): seq<Step> {
    [CheckRegistration(0, "a"), RotateRegistration(0, 3, 10, false),
     ConfirmRegistration("a", 3, 0, false, false, 1), RequestChange(1, "b", true, 7, 10)]
  }

  /** Account 1 at this version, with an email change requested at version 1 under token 7. */
  function Requested(version: nat, processes: map<ProcessId, Process>): State {
    State(0, map[1 := Account("a", 0, version)], map[], map[], map[1 := PendingChange(7, 10, "b", 1)],
          {3, 7}, {1}, processes)
  }

  lemma RequestedInv()
    ensures Inv(Requested(1, map[])) && TokenIn(Requested(1, map[]), OfChange(1)) == Some(7)
  {
    var st := Requested(1, map[]);
    assert forall slot, t :: TokenIn(st, slot) == Some(t) ==> slot == OfChange(1) && t == 7;
  }

  /** The registration has been mailed. */
  function Mailed(): State {
    Empty().(registrations := map["a" := Pending(3, 10)], issued := {3})
  }

  function Registered(): State {
    Empty().(users := map[1 := Account("a", 0, 1)], issued := {3}, ids := {1})
  }

  lemma RegistrationEffects()
    ensures var checked := Empty().(processes := map[0 := Registering("a")]);
            && Enabled(Empty(), RegisterThenRequest()[0]) && Apply(Empty(), RegisterThenRequest()[0]) == checked
            && Enabled(checked, RegisterThenRequest()[1]) && Apply(checked, RegisterThenRequest()[1]) == Mailed()
  {
    assert map[0 := Registering("a")] - {0} == map[];
  }

  lemma ConfirmationEffects()
    ensures Enabled(Mailed(), RegisterThenRequest()[2]) && Apply(Mailed(), RegisterThenRequest()[2]) == Registered()
    ensures Enabled(Registered(), RegisterThenRequest()[3])
    ensures Apply(Registered(), RegisterThenRequest()[3]) == Requested(1, map[])
  {
    assert Mailed().registrations - {"a"} == map[];
    assert Registered().issued + {7} == {3, 7};
  }

  lemma RequestedIsReached()
    ensures Runs(Empty(), RegisterThenRequest()) && After(Empty(), RegisterThenRequest()) == Requested(1, map[])
  {
    var steps := RegisterThenRequest();
    RegistrationEffects();
    ConfirmationEffects();
    RunOne(Registered(), steps[3], []);
    RunOne(Mailed(), steps[2], [steps[3]]);
    RunOne(Apply(Empty(), steps[0]), steps[1], [steps[2], steps[3]]);
    RunOne(Empty(), steps[0], [steps[1], steps[2], steps[3]]);
    assert steps == [steps[0]] + [steps[1], steps[2], steps[3]];
  }

  /** The update writes the old row back over the bumped one, and the confirmation finds its token. */
  lemma SaveThenFind()
    ensures var bumped := Requested(2, map[0 := Editing(1, Account("a", 0, 1))]);
            var steps := [SaveEdit(0, false), FindChange(1, 7, 1)];
            && Runs(bumped, steps) && Rewinds(bumped, SaveEdit(0, false), 1)
            && After(bumped, steps) == Requested(1, map[1 := FoundChange(7, 1)])
  {
    var bumped := Requested(2, map[0 := Editing(1, Account("a", 0, 1))]);
    assert bumped.processes - {0} == map[];
    assert Apply(bumped, SaveEdit(0, false)) == Requested(1, map[]);
    assert Apply(Requested(1, map[]), FindChange(1, 7, 1)) == Requested(1, map[1 := FoundChange(7, 1)]);
    RunOne(Requested(1, map[]), FindChange(1, 7, 1), []);
    RunOne(bumped, SaveEdit(0, false), [FindChange(1, 7, 1)]);
  }

  lemma ReadThenBump()
    ensures var st := Requested(1, map[]);
            var steps := [ReadForEdit(0, 1), BumpVersion(1), SaveEdit(0, false), FindChange(1, 7, 1)];
            Runs(st, steps) && RewoundIn(st, steps, 1) && After(st, steps) == Requested(1, map[1 := FoundChange(7, 1)])
  {
    var st := Requested(1, map[]);
    var read := Requested(1, map[0 := Editing(1, Account("a", 0, 1))]);
    var bumped := Requested(2, map[0 := Editing(1, Account("a", 0, 1))]);
    SaveThenFind();
    assert Apply(st, ReadForEdit(0, 1)) == read;
    assert Apply(read, BumpVersion(1)) == bumped;
    RunOne(bumped, SaveEdit(0, false), [FindChange(1, 7, 1)]);
    RunOne(read, BumpVersion(1), [SaveEdit(0, false), FindChange(1, 7, 1)]);
    RunOne(st, ReadForEdit(0, 1), [BumpVersion(1), SaveEdit(0, false), FindChange(1, 7, 1)]);
  }

  /**
   * From empty tables: an account registers and requests an email change. A
   * profile update reads the row, a password change bumps the version, the update
   * writes the old version back, and the email change is confirmed after all.
   */
  lemma StaleSaveRevivesEmailChange()
    ensures Runs(Empty(), RegisterThenRequest())
    ensures var st := After(Empty(), RegisterThenRequest());
            var steps := [ReadForEdit(0, 1), BumpVersion(1), SaveEdit(0, false), FindChange(1, 7, 1)];
            && Inv(st) && TokenIn(st, OfChange(1)) == Some(7) && Runs(st, steps)
            && Enabled(After(st, steps), ConfirmChange(1, false))
            && Redeems(After(st, steps), ConfirmChange(1, false)) == Some(7)
            && !VersionThroughout(st, steps, 1, 1)
  {
    var st := Requested(1, map[]);
    var steps := [ReadForEdit(0, 1), BumpVersion(1), SaveEdit(0, false), FindChange(1, 7, 1)];
    RequestedIsReached();
    RequestedInv();
    ReadThenBump();
    EmailChangeFreezesVersion(st, steps, ConfirmChange(1, false), 1, 7);
  }
}
