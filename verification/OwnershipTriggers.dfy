/**
 * Organization ownership as the database guards it: row events of one
 * transaction, and the deferred triggers that re-check only the organizations
 * those events touched, on the final state.
 */
module OwnershipTriggers {
  import opened Common

  type UserId = nat
  type OrgId = nat
  type MemberId = nat

  datatype Kind = Personal | Group
  datatype Role = Owner | Admin | Member
  datatype Org = Org(kind: Kind, creator: Option<UserId>)
  datatype Membership = Membership(user: UserId, org: OrgId, role: Role)

  /** `users` maps an account to its `is_active` flag. */
  datatype Db = Db(users: map<UserId, bool>, orgs: map<OrgId, Org>, members: map<MemberId, Membership>)

  predicate ActiveOwner(db: Db, o: OrgId, id: MemberId) {
    && id in db.members
    && db.members[id].org == o && db.members[id].role == Owner
    && db.members[id].user in db.users && db.users[db.members[id].user]
  }

  predicate CreatorOwner(db: Db, o: OrgId, id: MemberId) {
    && o in db.orgs && id in db.members
    && db.members[id].org == o && db.members[id].role == Owner
    && db.orgs[o].creator == Some(db.members[id].user)
  }

  /** `organizations_check_active_owner`: true where the SQL function does not raise. */
  predicate CheckOrg(db: Db, o: OrgId) {
    && (o in db.orgs && db.orgs[o].kind == Group ==> exists id | id in db.members :: ActiveOwner(db, o, id))
    && (o in db.orgs && db.orgs[o].kind == Personal ==> exists id | id in db.members :: CreatorOwner(db, o, id))
  }

  /** Every group has an active owner and every personal organization its creator as owner. */
  ghost predicate Owned(db: Db) {
    forall o | o in db.orgs :: CheckOrg(db, o)
  }

  /** Foreign keys, which the database checks at commit. */
  ghost predicate ForeignKeys(db: Db) {
    forall id | id in db.members :: db.members[id].user in db.users && db.members[id].org in db.orgs
  }

  // ---------- Row events ----------

  datatype Event =
    | InsertMember(id: MemberId, m: Membership)
    | UpdateMember(id: MemberId, m: Membership)
    | DeleteMember(id: MemberId)
    | InsertOrg(o: OrgId, org: Org)
    | UpdateOrg(o: OrgId, org: Org)
    | DeleteOrg(o: OrgId)
    | InsertUser(u: UserId, active: bool)
    | UpdateUser(u: UserId, active: bool)
    | DeleteUser(u: UserId)

  predicate Possible(db: Db, e: Event) {
    match e
    case InsertMember(id, _) => id !in db.members
    case UpdateMember(id, _) => id in db.members
    case DeleteMember(id) => id in db.members
    case InsertOrg(o, _) => o !in db.orgs
    case UpdateOrg(o, _) => o in db.orgs
    case DeleteOrg(o) => o in db.orgs
    case InsertUser(u, _) => u !in db.users
    case UpdateUser(u, _) => u in db.users
    case DeleteUser(u) => u in db.users
  }

  function Execute(db: Db, e: Event): Db
    requires Possible(db, e)
  {
    match e
    case InsertMember(id, m) => db.(members := db.members[id := m])
    case UpdateMember(id, m) => db.(members := db.members[id := m])
    case DeleteMember(id) => db.(members := db.members - {id})
    case InsertOrg(o, org) => db.(orgs := db.orgs[o := org])
    case UpdateOrg(o, org) => db.(orgs := db.orgs[o := org])
    case DeleteOrg(o) => db.(orgs := db.orgs - {o})
    case InsertUser(u, active) => db.(users := db.users[u := active])
    case UpdateUser(u, active) => db.(users := db.users[u := active])
    case DeleteUser(u) => db.(users := db.users - {u})
  }

  predicate Runs(db: Db, es: seq<Event>)
    decreases |es|
  {
    es == [] || (Possible(db, es[0]) && Runs(Execute(db, es[0]), es[1..]))
  }

  function Final(db: Db, es: seq<Event>): Db
    requires Runs(db, es)
    decreases |es|
  {
    if es == [] then db else Final(Execute(db, es[0]), es[1..])
  }

  // ---------- Deferred triggers ----------

  /**
   * Organizations the membership and organization triggers name: OLD and NEW rows, but no
   * deletion of an organization.
   */
  function Named(db: Db, e: Event): set<OrgId>
    requires Possible(db, e)
  {
    match e
    case InsertMember(_, m) => {m.org}
    case UpdateMember(id, m) => {db.members[id].org, m.org}
    case DeleteMember(id) => {db.members[id].org}
    case InsertOrg(o, _) => {o}
    case UpdateOrg(o, _) => {o}
    case _ => {}
  }

  predicate Deactivates(db: Db, e: Event)
    requires Possible(db, e)
  {
    e.UpdateUser? && db.users[e.u] && !e.active
  }

  /** The checks queued by one event, evaluated on the state at commit. */
  ghost predicate EventPasses(db: Db, e: Event, final: Db)
    requires Possible(db, e)
  {
    && (forall o | o in Named(db, e) :: CheckOrg(final, o))
    && (Deactivates(db, e) ==>
          forall id | id in final.members && final.members[id].user == e.u && final.members[id].role == Owner ::
            CheckOrg(final, final.members[id].org))
  }

  ghost predicate Passes(db: Db, es: seq<Event>, final: Db)
    requires Runs(db, es)
    decreases |es|
  {
    es == [] || (EventPasses(db, es[0], final) && Passes(Execute(db, es[0]), es[1..], final))
  }

  /** A transaction that the database accepts. */
  ghost predicate Commits(db: Db, es: seq<Event>) {
    Runs(db, es) && ForeignKeys(Final(db, es)) && Passes(db, es, Final(db, es))
  }

  function NamedBy(db: Db, es: seq<Event>): set<OrgId>
    requires Runs(db, es)
    decreases |es|
  {
    if es == [] then {} else Named(db, es[0]) + NamedBy(Execute(db, es[0]), es[1..])
  }

  // ---------- What the events say about an account ----------

  predicate Inserted(es: seq<Event>, u: UserId) {
    exists i | 0 <= i < |es| :: es[i].InsertUser? && es[i].u == u
  }

  /** The `is_active` value last written for u, if any event wrote it. */
  function LastWrite(es: seq<Event>, u: UserId): Option<bool> {
    if es == [] then None
    else
      var e := es[|es| - 1];
      if (e.InsertUser? || e.UpdateUser?) && e.u == u then Some(e.active) else LastWrite(es[..|es| - 1], u)
  }

  lemma LastWriteFirst(es: seq<Event>, u: UserId)
    requires es != []
    ensures LastWrite(es, u) ==
            if LastWrite(es[1..], u).Some? then LastWrite(es[1..], u)
            else if (es[0].InsertUser? || es[0].UpdateUser?) && es[0].u == u then Some(es[0].active) else None
  {
    if |es| == 1 {
    } else {
      assert es[1..][|es[1..]| - 1] == es[|es| - 1];
      assert es[1..][..|es[1..]| - 1] == es[..|es| - 1][1..];
      LastWriteFirst(es[..|es| - 1], u);
    }
  }

  lemma {:induction false} InsertionIsAWrite(es: seq<Event>, u: UserId)
    requires Inserted(es, u)
    ensures LastWrite(es, u).Some?
  {
    var i :| 0 <= i < |es| && es[i].InsertUser? && es[i].u == u;
    if i == |es| - 1 {
    } else {
      assert es[..|es| - 1][i] == es[i];
      InsertionIsAWrite(es[..|es| - 1], u);
    }
  }

  lemma {:induction false} UserAtEnd(db: Db, es: seq<Event>, u: UserId)
    requires Runs(db, es) && u in Final(db, es).users
    ensures LastWrite(es, u).Some? ==> Final(db, es).users[u] == LastWrite(es, u).value
    ensures LastWrite(es, u).None? ==> u in db.users && Final(db, es).users[u] == db.users[u]
    ensures !Inserted(es, u) ==> u in db.users
    decreases |es|
  {
    if es == [] {
    } else {
      LastWriteFirst(es, u);
      UserAtEnd(Execute(db, es[0]), es[1..], u);
      if !Inserted(es, u) {
        InsertedTail(es, u);
      }
    }
  }

  lemma InsertedTail(es: seq<Event>, u: UserId)
    requires es != [] && !Inserted(es, u)
    ensures !Inserted(es[1..], u) && !(es[0].InsertUser? && es[0].u == u)
  {
  }

  /** An account that went inactive without being re-inserted fired the user trigger. */
  lemma {:induction false} DeactivationIsChecked(db: Db, es: seq<Event>, final: Db, u: UserId)
    requires Runs(db, es) && final == Final(db, es)
    requires u in db.users && db.users[u] && !Inserted(es, u)
    requires u in final.users && !final.users[u]
    requires Passes(db, es, final)
    ensures forall id | id in final.members && final.members[id].user == u && final.members[id].role == Owner ::
              CheckOrg(final, final.members[id].org)
    decreases |es|
  {
    var e := es[0];
    InsertedTail(es, u);
    if e == UpdateUser(u, false) {
      assert EventPasses(db, e, final);
    } else if e == DeleteUser(u) {
      UserAtEnd(Execute(db, e), es[1..], u);
      assert false;
    } else {
      DeactivationIsChecked(Execute(db, e), es[1..], final, u);
    }
  }

  /** An organization no trigger named kept its row and all its memberships. */
  lemma {:induction false} UnnamedIsUnchanged(db: Db, es: seq<Event>, o: OrgId)
    requires Runs(db, es) && o !in NamedBy(db, es) && o in Final(db, es).orgs
    ensures o in db.orgs && db.orgs[o] == Final(db, es).orgs[o]
    ensures forall id | id in db.members && db.members[id].org == o ::
              id in Final(db, es).members && Final(db, es).members[id] == db.members[id]
    ensures forall id | id in Final(db, es).members && Final(db, es).members[id].org == o ::
              id in db.members && Final(db, es).members[id] == db.members[id]
    decreases |es|
  {
    if es == [] {
    } else {
      UnnamedIsUnchanged(Execute(db, es[0]), es[1..], o);
    }
  }

  lemma {:induction false} NamedIsChecked(db: Db, es: seq<Event>, final: Db, o: OrgId)
    requires Runs(db, es) && Passes(db, es, final) && o in NamedBy(db, es)
    ensures CheckOrg(final, o)
    decreases |es|
  {
    if o in Named(db, es[0]) {
      assert EventPasses(db, es[0], final);
    } else {
      NamedIsChecked(Execute(db, es[0]), es[1..], final, o);
    }
  }

  // ---------- Soundness of the incremental check ----------

  /** u was active before and kept its row, or the last value written makes it active. */
  predicate StaysCounted(db: Db, es: seq<Event>, u: UserId) {
    || (u in db.users && db.users[u] && !Inserted(es, u))
    || LastWrite(es, u) == Some(true)
  }

  /** Some owner of o stays counted. */
  ghost predicate KeepsAnOwner(db: Db, es: seq<Event>, o: OrgId) {
    exists id | id in db.members ::
      db.members[id].org == o && db.members[id].role == Owner && StaysCounted(db, es, db.members[id].user)
  }

  lemma UnnamedGroup(db: Db, es: seq<Event>, o: OrgId)
    requires Owned(db) && Commits(db, es)
    requires o in Final(db, es).orgs && o !in NamedBy(db, es) && o in db.orgs && db.orgs[o].kind == Group
    ensures CheckOrg(Final(db, es), o) <==> KeepsAnOwner(db, es, o)
  {
    var final := Final(db, es);
    UnnamedIsUnchanged(db, es, o);
    if CheckOrg(final, o) {
      var id :| id in final.members && ActiveOwner(final, o, id);
      UserAtEnd(db, es, final.members[id].user);
      if Inserted(es, final.members[id].user) {
        InsertionIsAWrite(es, final.members[id].user);
      }
      assert StaysCounted(db, es, db.members[id].user);
    }
    if KeepsAnOwner(db, es, o) {
      var id :| id in db.members && db.members[id].org == o && db.members[id].role == Owner
                && StaysCounted(db, es, db.members[id].user);
      var u := db.members[id].user;
      assert final.members[id].user in final.users;
      UserAtEnd(db, es, u);
      if final.users[u] {
        assert ActiveOwner(final, o, id);
      } else {
        DeactivationIsChecked(db, es, final, u);
      }
    }
  }

  /**
   * The incremental check against the global one: after an accepted transaction
   * every organization is owned exactly when each group that no trigger named
   * keeps an owner in the sense above.
   */
  lemma IncrementalCheckExactly(db: Db, es: seq<Event>)
    requires Owned(db) && Commits(db, es)
    ensures Owned(Final(db, es)) <==>
            forall o | o in Final(db, es).orgs && Final(db, es).orgs[o].kind == Group && o !in NamedBy(db, es) ::
              KeepsAnOwner(db, es, o)
  {
    var final := Final(db, es);
    forall o | o in final.orgs && o !in NamedBy(db, es)
      ensures CheckOrg(final, o) <==> (final.orgs[o].kind == Group ==> KeepsAnOwner(db, es, o))
    {
      UnnamedIsUnchanged(db, es, o);
      if final.orgs[o].kind == Group {
        UnnamedGroup(db, es, o);
      } else {
        var id :| id in db.members && CreatorOwner(db, o, id);
        assert CreatorOwner(final, o, id);
      }
    }
    forall o | o in final.orgs && o in NamedBy(db, es) ensures CheckOrg(final, o) {
      NamedIsChecked(db, es, final, o);
    }
  }

  /**
   * No account that exists before the transaction is inserted again within it. New
   * ids come from the primary-key sequence; a profile update may re-insert an
   * account, but only one that an earlier transaction has deleted.
   */
  predicate FreshUserIds(db: Db, es: seq<Event>) {
    forall i | 0 <= i < |es| && es[i].InsertUser? :: es[i].u !in db.users
  }

  /** Trigger soundness: with fresh account ids the incremental check is as strong as the global one. */
  lemma TriggersAreSound(db: Db, es: seq<Event>)
    requires Owned(db) && ForeignKeys(db) && Commits(db, es) && FreshUserIds(db, es)
    ensures Owned(Final(db, es))
  {
    var final := Final(db, es);
    forall o | o in final.orgs && final.orgs[o].kind == Group && o !in NamedBy(db, es)
      ensures KeepsAnOwner(db, es, o)
    {
      UnnamedIsUnchanged(db, es, o);
      var id :| id in db.members && ActiveOwner(db, o, id);
      var u := db.members[id].user;
      assert u in db.users && !Inserted(es, u);
      assert StaysCounted(db, es, u);
    }
    IncrementalCheckExactly(db, es);
  }

  /** Without fresh ids it is not: an owner deleted and re-inserted inactive fires no trigger. */
  lemma ReinsertedOwnerEscapes()
    ensures var db := Db(map[7 := true], map[1 := Org(Group, None)], map[3 := Membership(7, 1, Owner)]);
            var es := [DeleteUser(7), InsertUser(7, false)];
            Owned(db) && ForeignKeys(db) && Commits(db, es) && !Owned(Final(db, es))
  {
    var db := Db(map[7 := true], map[1 := Org(Group, None)], map[3 := Membership(7, 1, Owner)]);
    var es := [DeleteUser(7), InsertUser(7, false)];
    assert ActiveOwner(db, 1, 3);
    var db1 := Execute(db, es[0]);
    var db2 := Execute(db1, es[1]);
    assert es[1..] == [InsertUser(7, false)] && es[1..][1..] == [];
    assert Runs(db2, []) && Runs(db1, es[1..]);
    assert Final(db, es) == Final(db1, es[1..]) == Final(db2, es[1..][1..]) == db2;
    assert Passes(db2, es[1..][1..], db2) && Passes(db1, es[1..], db2);
    assert !CheckOrg(db2, 1);
  }

  /** A whole history of accepted transactions from an owned state. */
  ghost predicate History(db: Db, txs: seq<seq<Event>>)
    decreases |txs|
  {
    txs == [] || (Commits(db, txs[0]) && FreshUserIds(db, txs[0]) && History(Final(db, txs[0]), txs[1..]))
  }

  ghost function AfterAll(db: Db, txs: seq<seq<Event>>): Db
    requires History(db, txs)
    decreases |txs|
  {
    if txs == [] then db else AfterAll(Final(db, txs[0]), txs[1..])
  }

  lemma {:induction false} OwnershipForever(db: Db, txs: seq<seq<Event>>)
    requires Owned(db) && ForeignKeys(db) && History(db, txs)
    ensures Owned(AfterAll(db, txs))
    decreases |txs|
  {
    if txs == [] {
    } else {
      TriggersAreSound(db, txs[0]);
      OwnershipForever(Final(db, txs[0]), txs[1..]);
    }
  }

  /** A transaction that ends owned passes every deferred check, whatever its events were. */
  lemma {:induction false} OwnedPasses(db: Db, es: seq<Event>, final: Db)
    requires Runs(db, es) && Owned(final)
    ensures Passes(db, es, final)
    decreases |es|
  {
    if es == [] {
    } else {
      forall o ensures CheckOrg(final, o) {
      }
      OwnedPasses(Execute(db, es[0]), es[1..], final);
    }
  }

  /**
   * With fresh account ids the database accepts a transaction exactly when it ends owned,
   * with all references intact.
   */
  lemma CommitsExactly(db: Db, es: seq<Event>)
    requires Owned(db) && ForeignKeys(db) && Runs(db, es) && FreshUserIds(db, es)
    ensures Commits(db, es) <==> ForeignKeys(Final(db, es)) && Owned(Final(db, es))
  {
    if Commits(db, es) {
      TriggersAreSound(db, es);
    }
    if Owned(Final(db, es)) {
      OwnedPasses(db, es, Final(db, es));
    }
  }
}
