/**
 * The mailed tokens of accounts/operations.py: registration, password reset and
 * email change. Each flow finds its row without a lock and re-checks it later
 * under the account lock, so every such read is a step of its own.
 */
module PendingTokens {
  import opened Common

  type UserId = nat
  type Email = string
  type Token = nat
  type ProcessId = nat

  datatype Account = Account(email: Email, password: nat, version: nat)
  datatype Pending = Pending(token: Token, expiresAt: Time)
  datatype PendingChange = PendingChange(token: Token, expiresAt: Time, newEmail: Email, version: nat)

  datatype Process =
    | Registering(email: Email)                // address seen to be free
    | Requesting(user: UserId)                 // account found for a reset request
    | FoundReset(token: Token, user: UserId)   // unlocked lookup of the reset row
    | FoundChange(token: Token, user: UserId)  // unlocked lookup of the email-change row
    | Editing(user: UserId, seen: Account)     // row read by the profile update

  /** `issued` is every token ever generated, `ids` every account id ever used. */
  datatype State = State(
    now: Time,
    users: map<UserId, Account>,
    registrations: map<Email, Pending>,
    resets: map<UserId, Pending>,
    changes: map<UserId, PendingChange>,
    issued: set<Token>,
    ids: set<UserId>,
    processes: map<ProcessId, Process>)

  datatype Step =
    | Tick(later: Time)
    | CheckRegistration(p: ProcessId, email: Email)
    | RotateRegistration(p: ProcessId, token: Token, lifetime: Time, clash: bool)
    | CancelRegistration(email: Email, token: Token)
    | ConfirmRegistration(email: Email, token: Token, password: nat, weak: bool, clash: bool, id: UserId)
    | FindForReset(p: ProcessId, u: UserId)
    | RotateReset(p: ProcessId, token: Token, lifetime: Time)
    | FindReset(p: ProcessId, token: Token, u: UserId)
    | ConfirmReset(p: ProcessId, password: nat, weak: bool)
    | RequestChange(u: UserId, newEmail: Email, passwordOk: bool, token: Token, lifetime: Time)
    | FindChange(p: ProcessId, token: Token, u: UserId)
    | ConfirmChange(p: ProcessId, clash: bool)
    | ReadForEdit(p: ProcessId, u: UserId)
    | SaveEdit(p: ProcessId, clash: bool)
    | BumpVersion(u: UserId)
    | DeleteUser(u: UserId)
    | PurgeExpired
    | Abandon(p: ProcessId)

  /** Why a confirmation ends as it does. */
  datatype Outcome = Succeeded | Invalid | TokenExpired | EmailTaken | WeakPassword | Conflict

  predicate Taken(st: State, email: Email) {
    exists u | u in st.users :: st.users[u].email == email
  }

  predicate TakenByOther(st: State, email: Email, u: UserId) {
    exists v | v in st.users :: v != u && st.users[v].email == email
  }

  predicate IsExpired(expiresAt: Time, now: Time) {
    now > expiresAt
  }

  // ---------- Outcomes ----------

  /** `confirm_registration` on the row found by its token. */
  function RegistrationOutcome(st: State, email: Email, token: Token, weak: bool, clash: bool): Outcome {
    if email !in st.registrations || st.registrations[email].token != token then Invalid
    else if IsExpired(st.registrations[email].expiresAt, st.now) then TokenExpired
    else if Taken(st, email) then EmailTaken
    else if weak then WeakPassword
    else if clash then Conflict
    else Succeeded
  }

  /** The locked phase of `confirm_password_reset`. */
  function ResetOutcome(st: State, token: Token, u: UserId, weak: bool): Outcome {
    if u !in st.users || u !in st.resets || st.resets[u].token != token then Invalid
    else if IsExpired(st.resets[u].expiresAt, st.now) then TokenExpired
    else if weak then WeakPassword
    else Succeeded
  }

  /** The locked phase of `confirm_email_change`, apart from whether a rejected row is deleted. */
  function ChangeOutcome(st: State, token: Token, u: UserId, clash: bool): Outcome {
    if !ChangeFound(st, token, u) then Invalid
    else if IsExpired(st.changes[u].expiresAt, st.now) then TokenExpired
    else if st.changes[u].version != st.users[u].version then Invalid
    else if TakenByOther(st, st.changes[u].newEmail, u) then EmailTaken
    else if clash then Conflict
    else Succeeded
  }

  predicate ChangeFound(st: State, token: Token, u: UserId) {
    u in st.users && u in st.changes && st.changes[u].token == token
  }

  // ---------- Effects ----------

  function Bumped(account: Account): Account {
    account.(version := account.version + 1)
  }

  function ConfirmedRegistration(st: State, email: Email, token: Token, password: nat, weak: bool, clash: bool,
                                 id: UserId): State {
    match RegistrationOutcome(st, email, token, weak, clash)
    case TokenExpired => st.(registrations := st.registrations - {email})
    case EmailTaken => st.(registrations := st.registrations - {email})
    case Succeeded =>
      st.(users := st.users[id := Account(email, password, 1)], ids := st.ids + {id},
          registrations := st.registrations - {email})
    case _ => st
  }

  function ConfirmedReset(st: State, token: Token, u: UserId, password: nat, weak: bool): State {
    match ResetOutcome(st, token, u, weak)
    case TokenExpired => st.(resets := st.resets - {u})
    case Succeeded =>
      st.(users := st.users[u := Bumped(st.users[u].(password := password))], resets := st.resets - {u})
    case _ => st
  }

  function ConfirmedChange(st: State, token: Token, u: UserId, clash: bool): State {
    if !ChangeFound(st, token, u) then st
    else
      match ChangeOutcome(st, token, u, clash)
      case Conflict => st
      case Succeeded =>
        st.(users := st.users[u := Bumped(st.users[u].(email := st.changes[u].newEmail))], changes := st.changes - {u})
      case _ => st.(changes := st.changes - {u})
  }

  /** The pending registration that carries this token. */
  predicate RegistrationWith(st: State, email: Email, token: Token) {
    email in st.registrations && st.registrations[email].token == token
  }

  predicate RegistrationsFree(st: State, token: Token) {
    forall email | email in st.registrations :: st.registrations[email].token != token
  }

  predicate Enabled(st: State, step: Step) {
    match step
    case Tick(later) => later >= st.now
    case CheckRegistration(p, email) => p !in st.processes && !Taken(st, email)
    case RotateRegistration(p, token, _, _) => p in st.processes && st.processes[p].Registering? && token !in st.issued
    case CancelRegistration(_, _) => true
    case ConfirmRegistration(email, token, _, _, _, id) =>
      id !in st.ids && (RegistrationWith(st, email, token) || RegistrationsFree(st, token))
    case FindForReset(p, u) => p !in st.processes && u in st.users
    case RotateReset(p, token, _) => p in st.processes && st.processes[p].Requesting? && token !in st.issued
    case FindReset(p, token, u) => p !in st.processes && u in st.resets && st.resets[u].token == token
    case ConfirmReset(p, _, _) => p in st.processes && st.processes[p].FoundReset?
    case RequestChange(u, _, _, token, _) => token !in st.issued
    case FindChange(p, token, u) => p !in st.processes && u in st.changes && st.changes[u].token == token
    case ConfirmChange(p, _) => p in st.processes && st.processes[p].FoundChange?
    case ReadForEdit(p, u) => p !in st.processes && u in st.users
    case SaveEdit(p, _) => p in st.processes && st.processes[p].Editing?
    case BumpVersion(u) => u in st.users
    case DeleteUser(u) => u in st.users
    case PurgeExpired => true
    case Abandon(p) => p in st.processes
  }

  function Finish(st: State, p: ProcessId): State {
    st.(processes := st.processes - {p})
  }

  function Hold(st: State, p: ProcessId, process: Process): State {
    st.(processes := st.processes[p := process])
  }

  /** `request_email_change` is refused: no account, same address, wrong password or address taken. */
  predicate ChangeRefused(st: State, u: UserId, newEmail: Email, passwordOk: bool) {
    u !in st.users || newEmail == st.users[u].email || !passwordOk || TakenByOther(st, newEmail, u)
  }

  /** The unique email, or another unique column, is taken by now. */
  predicate SaveFails(st: State, editing: Process, clash: bool)
    requires editing.Editing?
  {
    clash || TakenByOther(st, editing.seen.email, editing.user)
  }

  function Apply(st: State, step: Step): State
    requires Enabled(st, step)
  {
    match step
    case Tick(later) => st.(now := later)
    case CheckRegistration(p, email) => Hold(st, p, Registering(email))
    case RotateRegistration(p, token, lifetime, clash) =>
      var generated := st.(issued := st.issued + {token});
      var row := Pending(token, st.now + lifetime);
      Finish(if clash then generated
             else generated.(registrations := st.registrations[st.processes[p].email := row]), p)
    case CancelRegistration(email, token) =>
      if RegistrationWith(st, email, token) then st.(registrations := st.registrations - {email}) else st
    case ConfirmRegistration(email, token, password, weak, clash, id) =>
      ConfirmedRegistration(st, email, token, password, weak, clash, id)
    case FindForReset(p, u) => Hold(st, p, Requesting(u))
    case RotateReset(p, token, lifetime) =>
      var u := st.processes[p].user;
      var generated := st.(issued := st.issued + {token});
      Finish(if u in st.users then generated.(resets := st.resets[u := Pending(token, st.now + lifetime)])
             else generated, p)
    case FindReset(p, token, u) => Hold(st, p, FoundReset(token, u))
    case ConfirmReset(p, password, weak) =>
      Finish(ConfirmedReset(st, st.processes[p].token, st.processes[p].user, password, weak), p)
    case RequestChange(u, newEmail, passwordOk, token, lifetime) =>
      var generated := st.(issued := st.issued + {token});
      if ChangeRefused(st, u, newEmail, passwordOk) then generated
      else
        var row := PendingChange(token, st.now + lifetime, newEmail, st.users[u].version);
        generated.(changes := st.changes[u := row])
    case FindChange(p, token, u) => Hold(st, p, FoundChange(token, u))
    case ConfirmChange(p, clash) =>
      Finish(ConfirmedChange(st, st.processes[p].token, st.processes[p].user, clash), p)
    case ReadForEdit(p, u) => Hold(st, p, Editing(u, st.users[u]))
    case SaveEdit(p, clash) =>
      // a full-row save writes every column it read and re-inserts a deleted row, unless a unique column clashes
      Finish(if SaveFails(st, st.processes[p], clash) then st
             else st.(users := st.users[st.processes[p].user := st.processes[p].seen]), p)
    case BumpVersion(u) => st.(users := st.users[u := Bumped(st.users[u])])
    case DeleteUser(u) =>
      st.(users := st.users - {u}, resets := st.resets - {u}, changes := st.changes - {u})
    case PurgeExpired =>
      st.(registrations := map e | e in st.registrations && st.registrations[e].expiresAt >= st.now ::
                             st.registrations[e],
          resets := map u | u in st.resets && st.resets[u].expiresAt >= st.now :: st.resets[u],
          changes := map u | u in st.changes && st.changes[u].expiresAt >= st.now :: st.changes[u])
    case Abandon(p) => Finish(st, p)
  }

  /** The token a step redeems, if it does. */
  function Redeems(st: State, step: Step): Option<Token>
    requires Enabled(st, step)
  {
    match step
    case ConfirmRegistration(email, token, _, weak, clash, _) =>
      if RegistrationOutcome(st, email, token, weak, clash) == Succeeded then Some(token) else None
    case ConfirmReset(p, _, weak) =>
      var found := st.processes[p];
      if ResetOutcome(st, found.token, found.user, weak) == Succeeded then Some(found.token) else None
    case ConfirmChange(p, clash) =>
      var found := st.processes[p];
      if ChangeOutcome(st, found.token, found.user, clash) == Succeeded then Some(found.token) else None
    case _ => None
  }

  // ---------- Runs ----------

  predicate Runs(st: State, steps: seq<Step>)
    decreases |steps|
  {
    steps == [] || (Enabled(st, steps[0]) && Runs(Apply(st, steps[0]), steps[1..]))
  }

  function After(st: State, steps: seq<Step>): State
    requires Runs(st, steps)
    decreases |steps|
  {
    if steps == [] then st else After(Apply(st, steps[0]), steps[1..])
  }

  function Redemptions(st: State, steps: seq<Step>, token: Token): nat
    requires Runs(st, steps)
    decreases |steps|
  {
    if steps == [] then 0
    else (if Redeems(st, steps[0]) == Some(token) then 1 else 0) + Redemptions(Apply(st, steps[0]), steps[1..], token)
  }

  // ---------- Where a token lives ----------

  datatype Slot = OfRegistration(email: Email) | OfReset(user: UserId) | OfChange(user: UserId)

  /** The token stored in a row, if the row exists. */
  function TokenIn(st: State, slot: Slot): Option<Token> {
    match slot
    case OfRegistration(email) => if email in st.registrations then Some(st.registrations[email].token) else None
    case OfReset(u) => if u in st.resets then Some(st.resets[u].token) else None
    case OfChange(u) => if u in st.changes then Some(st.changes[u].token) else None
  }

  ghost predicate Inv(st: State) {
    && (forall slot, t :: TokenIn(st, slot) == Some(t) ==> t in st.issued)
    && (forall s1, s2 :: TokenIn(st, s1).Some? && TokenIn(st, s1) == TokenIn(st, s2) ==> s1 == s2)
    && (forall u | u in st.users :: u in st.ids)
    && (forall u | u in st.changes :: u in st.users)
    && (forall p | p in st.processes && st.processes[p].Editing? :: st.processes[p].user in st.ids)
  }

  /** Issued and in no row: redeemed, rotated out, cancelled, expired or cascaded away. */
  ghost predicate Dead(st: State, t: Token) {
    t in st.issued && forall slot :: TokenIn(st, slot) != Some(t)
  }

  lemma IssuedGrows(st: State, step: Step)
    requires Enabled(st, step)
    ensures st.issued <= Apply(st, step).issued
  {}

  predicate StoresToken(step: Step) {
    step.RotateRegistration? || step.RotateReset? || step.RequestChange?
  }

  lemma RemovingSlotStep(st: State, step: Step, slot: Slot)
    requires Enabled(st, step) && !StoresToken(step)
    ensures TokenIn(Apply(st, step), slot) == TokenIn(st, slot) || TokenIn(Apply(st, step), slot) == None
  {}

  lemma StoringSlotStep(st: State, step: Step, slot: Slot)
    requires Enabled(st, step) && StoresToken(step)
    ensures var next := Apply(st, step);
            TokenIn(next, slot) == TokenIn(st, slot)
            || (TokenIn(next, slot) == Some(step.token) && step.token !in st.issued
                && next.issued == st.issued + {step.token} && slot == Target(st, step))
  {}

  /** A row keeps its token, loses it, or gets one that was never issued before. */
  lemma SlotStep(st: State, step: Step, slot: Slot)
    requires Enabled(st, step)
    ensures var next := Apply(st, step);
            TokenIn(next, slot) == TokenIn(st, slot)
            || TokenIn(next, slot) == None
            || (TokenIn(next, slot).Some? && TokenIn(next, slot).value !in st.issued
                && next.issued == st.issued + {TokenIn(next, slot).value}
                && StoresToken(step)
                && TokenIn(next, slot).value == step.token && slot == Target(st, step))
    ensures st.issued <= Apply(st, step).issued
  {
    IssuedGrows(st, step);
    if StoresToken(step) {
      StoringSlotStep(st, step, slot);
    } else {
      RemovingSlotStep(st, step, slot);
    }
  }

  /** The row written by a step that stores a new token. */
  function Target(st: State, step: Step): Slot
    requires Enabled(st, step) && StoresToken(step)
  {
    match step
    case RotateRegistration(p, _, _, _) => OfRegistration(st.processes[p].email)
    case RotateReset(p, _, _) => OfReset(st.processes[p].user)
    case RequestChange(u, _, _, _, _) => OfChange(u)
  }
}
