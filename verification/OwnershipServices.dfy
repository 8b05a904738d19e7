/** The account and organization services, and the migrations that install the guard. */
module OwnershipServices {
  import opened Common
  import opened OwnershipTriggers

  datatype Error = UnsupportedRole | NotFound | ActiveOwnerRequired | IntegrityFailure | DuplicateCreators

  /** One insert of a personal organization: done, slug taken, or beaten by another transaction of the same account. */
  datatype Attempt = Inserts | SlugTaken | CreatedMeanwhile(other: OrgId, membership: MemberId)

  // ---------- Row constraints ----------

  /** One membership for a user and organization; every reference resolves. */
  ghost predicate Consistent(db: Db) {
    && ForeignKeys(db)
    && (forall o | o in db.orgs && db.orgs[o].creator.Some? :: db.orgs[o].creator.value in db.users)
    && (forall i, k | i in db.members && k in db.members
                      && db.members[i].user == db.members[k].user && db.members[i].org == db.members[k].org :: i == k)
  }

  predicate OtherActiveOwner(db: Db, o: OrgId, id: MemberId) {
    exists k | k in db.members :: k != id && ActiveOwner(db, o, k)
  }

  /** An active owner of o other than the account u. */
  predicate Successor(db: Db, o: OrgId, u: UserId) {
    exists k | k in db.members :: ActiveOwner(db, o, k) && db.members[k].user != u
  }

  predicate OwnsGroup(db: Db, u: UserId, o: OrgId) {
    && o in db.orgs && db.orgs[o].kind == Group
    && exists k | k in db.members :: db.members[k].user == u && db.members[k].org == o && db.members[k].role == Owner
  }

  predicate IsPersonalCreatorMembership(db: Db, id: MemberId)
    requires id in db.members && db.members[id].org in db.orgs
  {
    var org := db.orgs[db.members[id].org];
    org.kind == Personal && org.creator == Some(db.members[id].user)
  }

  // ---------- What the services do to the tables, and when they refuse ----------

  function WithRole(db: Db, id: MemberId, role: Role): Db
    requires id in db.members
  {
    db.(members := db.members[id := db.members[id].(role := role)])
  }

  predicate RoleRefused(db: Db, id: MemberId, role: Role)
    requires id in db.members && db.members[id].org in db.orgs
  {
    var m := db.members[id];
    || (IsPersonalCreatorMembership(db, id) && role != Owner)
    || (db.orgs[m.org].kind == Group && m.role == Owner && role != Owner && !OtherActiveOwner(db, m.org, id))
  }

  function WithoutMember(db: Db, id: MemberId): Db {
    db.(members := db.members - {id})
  }

  predicate RemovalRefused(db: Db, id: MemberId)
    requires id in db.members && db.members[id].org in db.orgs
  {
    var m := db.members[id];
    || IsPersonalCreatorMembership(db, id)
    || (db.orgs[m.org].kind == Group && m.role == Owner && !OtherActiveOwner(db, m.org, id))
  }

  function WithActive(db: Db, u: UserId, active: bool): Db {
    db.(users := db.users[u := active])
  }

  /** u owns a group that has no other active owner. */
  predicate LastOwner(db: Db, u: UserId) {
    exists o | o in db.orgs :: OwnsGroup(db, u, o) && !Successor(db, o, u)
  }

  /** The same, read off the three tables. */
  ghost predicate LastOwnerInRows(users: map<UserId, bool>, orgs: map<OrgId, Org>, members: map<MemberId, Membership>,
                                  u: UserId) {
    exists k | k in members ::
      && members[k].user == u && members[k].role == Owner
      && members[k].org in orgs && orgs[members[k].org].kind == Group
      && forall i | i in members && members[i].org == members[k].org && members[i].role == Owner
                    && members[i].user != u :: !(members[i].user in users && users[members[i].user])
  }

  lemma LastOwnerRead(db: Db, u: UserId)
    ensures LastOwner(db, u) <==> LastOwnerInRows(db.users, db.orgs, db.members, u)
  {
    if LastOwner(db, u) {
      var o :| o in db.orgs && OwnsGroup(db, u, o) && !Successor(db, o, u);
      var k :| k in db.members && db.members[k].user == u && db.members[k].org == o && db.members[k].role == Owner;
      forall i | i in db.members && db.members[i].org == o && db.members[i].role == Owner && db.members[i].user != u
        ensures !(db.members[i].user in db.users && db.users[db.members[i].user])
      {
        assert !ActiveOwner(db, o, i);
      }
    }
    if LastOwnerInRows(db.users, db.orgs, db.members, u) {
      var k :| && k in db.members && db.members[k].user == u && db.members[k].role == Owner
               && db.members[k].org in db.orgs && db.orgs[db.members[k].org].kind == Group
               && forall i | i in db.members && db.members[i].org == db.members[k].org && db.members[i].role == Owner
                             && db.members[i].user != u ::
                    !(db.members[i].user in db.users && db.users[db.members[i].user]);
      assert OwnsGroup(db, u, db.members[k].org) && !Successor(db, db.members[k].org, u);
    }
  }

  /** The personal organizations of u, and nothing else but what belongs to u, is gone. */
  ghost predicate AccountGone(before: Db, after: Db, u: UserId) {
    && after.users == before.users - {u}
    && (forall o :: o in after.orgs <==>
          (o in before.orgs && !(before.orgs[o].kind == Personal && before.orgs[o].creator == Some(u))))
    && (forall o | o in after.orgs :: after.orgs[o] ==
          Org(before.orgs[o].kind, if before.orgs[o].creator == Some(u) then None else before.orgs[o].creator))
    && (forall k :: k in after.members <==>
          (k in before.members && before.members[k].user != u
           && !(before.members[k].org in before.orgs && before.orgs[before.members[k].org].kind == Personal
                && before.orgs[before.members[k].org].creator == Some(u))))
    && (forall k | k in after.members :: after.members[k] == before.members[k])
  }

  lemma AccountIsGone(db: Db, u: UserId)
    ensures AccountGone(db, WithoutAccount(db, u), u)
  {}

  function PersonalOf(db: Db, u: UserId): set<OrgId> {
    set o | o in db.orgs && db.orgs[o].kind == Personal && db.orgs[o].creator == Some(u)
  }

  /** Deletion of organizations with the cascade to their memberships. */
  function WithoutOrgs(db: Db, gone: set<OrgId>): Db {
    db.(orgs := db.orgs - gone,
        members := map id | id in db.members && db.members[id].org !in gone :: db.members[id])
  }

  /** Deletion of an account: memberships cascade, `creator` is set to NULL. */
  function WithoutUser(db: Db, u: UserId): Db {
    Db(db.users - {u},
       map o | o in db.orgs :: if db.orgs[o].creator == Some(u) then db.orgs[o].(creator := None) else db.orgs[o],
       map id | id in db.members && db.members[id].user != u :: db.members[id])
  }

  function WithoutAccount(db: Db, u: UserId): Db {
    WithoutUser(WithoutOrgs(db, PersonalOf(db, u)), u)
  }

  function WithOrg(db: Db, o: OrgId, org: Org, id: MemberId, m: Membership): Db {
    db.(orgs := db.orgs[o := org], members := db.members[id := m])
  }

  function WithPersonal(db: Db, u: UserId, o: OrgId, id: MemberId): Db {
    WithOrg(db, o, Org(Personal, Some(u)), id, Membership(u, o, Owner))
  }

  /** The first attempt from k on that does not hit a taken slug. */
  function FirstOpen(attempts: seq<Attempt>, k: nat): (first: nat)
    requires k <= |attempts|
    ensures k <= first <= |attempts| && (first < |attempts| ==> !attempts[first].SlugTaken?)
    ensures forall i | k <= i < first :: attempts[i].SlugTaken?
    decreases |attempts| - k
  {
    if k == |attempts| || !attempts[k].SlugTaken? then k else FirstOpen(attempts, k + 1)
  }

  /** The unique constraint on personal organizations: at most one for a creator. */
  ghost predicate OnePersonal(db: Db, u: UserId) {
    forall o, p | o in PersonalOf(db, u) && p in PersonalOf(db, u) :: o == p
  }

  predicate SameCreator(orgs: map<OrgId, Org>, o: OrgId, p: OrgId)
    requires o in orgs && p in orgs
  {
    orgs[o].kind == Personal && orgs[p].kind == Personal && orgs[o].creator == orgs[p].creator
  }

  predicate DuplicateCreator(orgs: map<OrgId, Org>) {
    exists o, p | o in orgs && p in orgs :: o != p && SameCreator(orgs, o, p)
  }

  predicate MissingCreator(orgs: map<OrgId, Org>) {
    exists o | o in orgs :: orgs[o].kind == Personal && orgs[o].creator.None?
  }

  /** A creator names at most one personal organization, and every personal organization a creator. */
  lemma CreatorsDetermine(orgs: map<OrgId, Org>)
    ensures !DuplicateCreator(orgs) <==>
            forall o, p | o in orgs && p in orgs && orgs[o].kind == Personal && orgs[p].kind == Personal
                          && orgs[o].creator == orgs[p].creator :: o == p
    ensures !MissingCreator(orgs) <==> forall o | o in orgs && orgs[o].kind == Personal :: orgs[o].creator.Some?
  {
    if o, p :| o in orgs && p in orgs && orgs[o].kind == Personal && orgs[p].kind == Personal
               && orgs[o].creator == orgs[p].creator && o != p {
      assert SameCreator(orgs, o, p);
    }
  }

  lemma SamePersonal(db: Db, t: Db)
    requires t.orgs == db.orgs
    ensures forall v :: OnePersonal(t, v) <==> OnePersonal(db, v)
  {
    assert forall v :: PersonalOf(t, v) == PersonalOf(db, v);
  }

  lemma NewPersonalIsTheOnly(db: Db, u: UserId, o: OrgId, id: MemberId)
    requires PersonalOf(db, u) == {} && forall v :: OnePersonal(db, v)
    ensures forall v :: OnePersonal(WithPersonal(db, u, o, id), v)
  {
    forall v ensures OnePersonal(WithPersonal(db, u, o, id), v) {
      assert OnePersonal(db, v);
      assert PersonalOf(WithPersonal(db, u, o, id), v) <= if v == u then {o} else PersonalOf(db, v);
    }
  }

  lemma PersonalConsistent(db: Db, u: UserId, o: OrgId, id: MemberId)
    requires Consistent(db) && u in db.users && o !in db.orgs && id !in db.members
    ensures Consistent(WithPersonal(db, u, o, id))
  {}

  /** No row is lost or altered but that u now owns o; o is the only organization that may be new. */
  ghost predicate OwnerGranted(before: Db, after: Db, u: UserId, o: OrgId) {
    && after.users == before.users
    && (forall p | p in before.orgs :: p in after.orgs && after.orgs[p] == before.orgs[p])
    && (forall p | p in after.orgs && p !in before.orgs :: p == o)
    && (exists k | k in after.members :: after.members[k] == Membership(u, o, Owner))
    && (forall k | k in before.members :: k in after.members && after.members[k] ==
          if before.members[k].user == u && before.members[k].org == o then Membership(u, o, Owner)
          else before.members[k])
    && (forall k | k in after.members && k !in before.members :: after.members[k] == Membership(u, o, Owner))
  }

  lemma OwnerWriteGrants(db: Db, u: UserId, o: OrgId, newId: MemberId)
    requires o in db.orgs && newId !in db.members
    ensures OwnerGranted(db, WithOwner(db, u, o, newId), u, o)
  {
    var t := WithOwner(db, u, o, newId);
    if exists id | id in db.members :: db.members[id].user == u && db.members[id].org == o {
      var id :| id in db.members && db.members[id].user == u && db.members[id].org == o;
      assert t.members[id] == Membership(u, o, Owner);
    } else {
      assert t.members[newId] == Membership(u, o, Owner);
    }
  }

  lemma InsertGrants(db: Db, u: UserId, o: OrgId, id: MemberId)
    requires Consistent(db) && o !in db.orgs && id !in db.members
    ensures OwnerGranted(db, WithPersonal(db, u, o, id), u, o)
  {
    assert WithPersonal(db, u, o, id).members[id] == Membership(u, o, Owner);
  }

  /** The owner membership of the creator of a personal organization. */
  predicate CreatorOwns(orgs: map<OrgId, Org>, m: Membership) {
    m.role == Owner && m.org in orgs && orgs[m.org].kind == Personal && orgs[m.org].creator == Some(m.user)
  }

  /** No membership is lost, and only creators were made owners of their personal organizations. */
  ghost predicate OnlyCreatorsPromoted(orgs: map<OrgId, Org>, before: map<MemberId, Membership>,
                                       after: map<MemberId, Membership>) {
    && (forall k | k in before :: k in after && (after[k] == before[k]
          || (CreatorOwns(orgs, after[k]) && after[k].user == before[k].user && after[k].org == before[k].org)))
    && (forall k | k in after && k !in before :: CreatorOwns(orgs, after[k]))
  }

  lemma OwnerWritePromotes(db: Db, u: UserId, o: OrgId, newId: MemberId, first: map<MemberId, Membership>)
    requires o in db.orgs && db.orgs[o].kind == Personal && db.orgs[o].creator == Some(u) && newId !in db.members
    requires OnlyCreatorsPromoted(db.orgs, first, db.members)
    ensures OnlyCreatorsPromoted(db.orgs, first, WithOwner(db, u, o, newId).members)
  {}

  lemma GrantsCompose(a: Db, b: Db, c: Db, u: UserId, o: OrgId)
    requires OwnerGranted(a, b, u, o) && OwnerGranted(b, c, u, o)
    ensures OwnerGranted(a, c, u, o)
  {}

  /** `update_or_create` of an owner membership; `newId` is the id a new row would get. */
  function WithOwner(db: Db, u: UserId, o: OrgId, newId: MemberId): Db {
    if exists id | id in db.members :: db.members[id].user == u && db.members[id].org == o then
      db.(members := map id | id in db.members ::
                       if db.members[id].user == u && db.members[id].org == o then db.members[id].(role := Owner)
                       else db.members[id])
    else
      db.(members := db.members[newId := Membership(u, o, Owner)])
  }

  // ---------- The pre-checks are exact ----------

  lemma RoleChangeAtItsOrg(db: Db, id: MemberId, role: Role)
    requires Owned(db) && Consistent(db) && id in db.members
    ensures CheckOrg(WithRole(db, id, role), db.members[id].org) <==> !RoleRefused(db, id, role)
  {
    var t := WithRole(db, id, role);
    var o := db.members[id].org;
    assert CheckOrg(db, o);
    if db.orgs[o].kind == Group {
      assert forall k | k in db.members && k != id :: ActiveOwner(db, o, k) <==> ActiveOwner(t, o, k);
      assert ActiveOwner(t, o, id) <==> role == Owner && db.users[db.members[id].user];
    } else {
      assert forall k | k in db.members && k != id :: CreatorOwner(db, o, k) <==> CreatorOwner(t, o, k);
      assert CreatorOwner(t, o, id) <==> role == Owner && IsPersonalCreatorMembership(db, id);
    }
  }

  /** A role change is refused exactly when it would leave an organization without its owner. */
  lemma RoleChangeIsExact(db: Db, id: MemberId, role: Role)
    requires Owned(db) && Consistent(db) && id in db.members
    ensures RoleRefused(db, id, role) <==> !Owned(WithRole(db, id, role))
  {
    var t := WithRole(db, id, role);
    forall p | p in t.orgs && p != db.members[id].org ensures CheckOrg(t, p) {
      OtherOrgUnaffected(db, t, p);
    }
    RoleChangeAtItsOrg(db, id, role);
  }

  /** An organization whose row, memberships and accounts are untouched keeps its check. */
  lemma OtherOrgUnaffected(db: Db, t: Db, p: OrgId)
    requires p in db.orgs && p in t.orgs && CheckOrg(db, p)
    requires t.orgs[p].kind == db.orgs[p].kind
    requires t.orgs[p].creator == db.orgs[p].creator || (db.orgs[p].kind == Group)
    requires forall id | id in db.members && db.members[id].org == p
                         && (db.orgs[p].kind == Group ==> ActiveOwner(db, p, id)) ::
               id in t.members && t.members[id] == db.members[id]
    requires db.orgs[p].kind == Group ==>
               forall u | u in db.users && db.users[u] :: u in t.users && t.users[u]
    ensures CheckOrg(t, p)
  {
    if db.orgs[p].kind == Group {
      var id :| id in db.members && ActiveOwner(db, p, id);
      assert ActiveOwner(t, p, id);
    } else {
      var id :| id in db.members && CreatorOwner(db, p, id);
      assert CreatorOwner(t, p, id);
    }
  }

  lemma RemovalAtItsOrg(db: Db, id: MemberId)
    requires Owned(db) && Consistent(db) && id in db.members
    ensures CheckOrg(WithoutMember(db, id), db.members[id].org) <==> !RemovalRefused(db, id)
  {
    assert CheckOrg(db, db.members[id].org);
    if db.orgs[db.members[id].org].kind == Group {
      RemovalFromGroup(db, id);
    } else {
      RemovalFromPersonal(db, id);
    }
  }

  lemma RemovalFromGroup(db: Db, id: MemberId)
    requires Consistent(db) && id in db.members && db.orgs[db.members[id].org].kind == Group
    requires CheckOrg(db, db.members[id].org)
    ensures CheckOrg(WithoutMember(db, id), db.members[id].org) <==> !RemovalRefused(db, id)
  {
    var t, o := WithoutMember(db, id), db.members[id].org;
    assert forall k | k in db.members && k != id :: ActiveOwner(db, o, k) <==> ActiveOwner(t, o, k);
  }

  lemma RemovalFromPersonal(db: Db, id: MemberId)
    requires Consistent(db) && id in db.members && db.orgs[db.members[id].org].kind == Personal
    requires CheckOrg(db, db.members[id].org)
    ensures CheckOrg(WithoutMember(db, id), db.members[id].org) <==> !RemovalRefused(db, id)
  {
    var t, o := WithoutMember(db, id), db.members[id].org;
    assert forall k | k in db.members && k != id :: CreatorOwner(db, o, k) <==> CreatorOwner(t, o, k);
  }

  lemma RemovalIsExact(db: Db, id: MemberId)
    requires Owned(db) && Consistent(db) && id in db.members
    ensures RemovalRefused(db, id) <==> !Owned(WithoutMember(db, id))
  {
    var t := WithoutMember(db, id);
    forall p | p in t.orgs && p != db.members[id].org ensures CheckOrg(t, p) {
      OtherOrgUnaffected(db, t, p);
    }
    RemovalAtItsOrg(db, id);
  }

  lemma DeactivationIsExact(db: Db, u: UserId)
    requires Owned(db) && Consistent(db) && u in db.users
    ensures LastOwner(db, u) <==> !Owned(WithActive(db, u, false))
  {
    var t := WithActive(db, u, false);
    forall o | o in db.orgs ensures CheckOrg(t, o) <==> !(OwnsGroup(db, u, o) && !Successor(db, o, u)) {
      GroupWithoutAccount(db, t, u, o);
    }
  }

  /** What one organization loses when the account u stops counting. */
  lemma GroupWithoutAccount(db: Db, t: Db, u: UserId, o: OrgId)
    requires Owned(db) && o in db.orgs && t == WithActive(db, u, false)
    ensures CheckOrg(t, o) <==> !(OwnsGroup(db, u, o) && !Successor(db, o, u))
  {
    assert CheckOrg(db, o);
    assert forall k | k in db.members :: ActiveOwner(t, o, k) <==> ActiveOwner(db, o, k) && db.members[k].user != u;
    assert forall k | k in db.members :: CreatorOwner(t, o, k) <==> CreatorOwner(db, o, k);
  }

  lemma ReactivationKeepsOwned(db: Db, u: UserId)
    requires Owned(db)
    ensures Owned(WithActive(db, u, true))
  {
    var t := WithActive(db, u, true);
    forall p | p in t.orgs ensures CheckOrg(t, p) {
      OtherOrgUnaffected(db, t, p);
    }
  }

  /** What one surviving organization loses when the account u is deleted. */
  lemma OrgAfterDeletion(db: Db, u: UserId, o: OrgId)
    requires Owned(db) && o in db.orgs && o !in PersonalOf(db, u)
    ensures CheckOrg(WithoutAccount(db, u), o) <==> !(OwnsGroup(db, u, o) && !Successor(db, o, u))
  {
    var t := WithoutAccount(db, u);
    assert CheckOrg(db, o) && o in t.orgs;
    if db.orgs[o].kind == Group {
      assert forall k | k in t.members :: ActiveOwner(t, o, k) ==> ActiveOwner(db, o, k) && db.members[k].user != u;
      assert forall k | k in db.members && ActiveOwner(db, o, k) && db.members[k].user != u :: ActiveOwner(t, o, k);
    } else {
      var k :| k in db.members && CreatorOwner(db, o, k);
      assert CreatorOwner(t, o, k);
    }
  }

  /** Account deletion is refused exactly when a group would be left without an active owner. */
  lemma DeletionIsExact(db: Db, u: UserId)
    requires Owned(db)
    ensures LastOwner(db, u) <==> !Owned(WithoutAccount(db, u))
  {
    var t := WithoutAccount(db, u);
    forall o | o in db.orgs && o !in PersonalOf(db, u)
      ensures o in t.orgs && (CheckOrg(t, o) <==> !(OwnsGroup(db, u, o) && !Successor(db, o, u)))
    {
      OrgAfterDeletion(db, u, o);
    }
    assert forall o | o in t.orgs :: o in db.orgs && o !in PersonalOf(db, u);
    assert forall o | o in db.orgs && OwnsGroup(db, u, o) :: o !in PersonalOf(db, u);
  }

  /** The cascades of an account deletion leave no dangling reference. */
  lemma DeletionKeepsConsistent(db: Db, u: UserId)
    requires Consistent(db)
    ensures Consistent(WithoutAccount(db, u))
  {
  }

  lemma NewOrganizationKeepsOwned(db: Db, o: OrgId, kind: Kind, id: MemberId, u: UserId)
    requires Owned(db) && Consistent(db) && o !in db.orgs && id !in db.members && u in db.users
    requires kind == Group ==> db.users[u]
    ensures Owned(WithOrg(db, o, Org(kind, Some(u)), id, Membership(u, o, Owner)))
    ensures Consistent(WithOrg(db, o, Org(kind, Some(u)), id, Membership(u, o, Owner)))
  {
    var t := WithOrg(db, o, Org(kind, Some(u)), id, Membership(u, o, Owner));
    assert kind == Group ==> ActiveOwner(t, o, id);
    assert kind == Personal ==> CreatorOwner(t, o, id);
    forall p | p in t.orgs && p != o ensures CheckOrg(t, p) {
      OtherOrgUnaffected(db, t, p);
    }
  }

  /** Writing an owner membership never takes an owner away, and gives a personal organization its creator. */
  lemma OwnerWriteHelps(db: Db, u: UserId, o: OrgId, newId: MemberId, p: OrgId)
    requires o in db.orgs && newId !in db.members && p in db.orgs
    requires CheckOrg(db, p) || (p == o && db.orgs[o].kind == Personal && db.orgs[o].creator == Some(u))
    ensures CheckOrg(WithOwner(db, u, o, newId), p)
  {
    var t := WithOwner(db, u, o, newId);
    assert forall k | k in db.members ::
        k in t.members && (t.members[k] == db.members[k] || t.members[k] == db.members[k].(role := Owner));
    if CheckOrg(db, p) {
      if db.orgs[p].kind == Group {
        var k :| k in db.members && ActiveOwner(db, p, k);
        assert ActiveOwner(t, p, k);
      } else {
        var k :| k in db.members && CreatorOwner(db, p, k);
        assert CreatorOwner(t, p, k);
      }
    } else if exists id | id in db.members :: db.members[id].user == u && db.members[id].org == o {
      var id :| id in db.members && db.members[id].user == u && db.members[id].org == o;
      assert CreatorOwner(t, p, id);
    } else {
      assert CreatorOwner(t, p, newId);
    }
  }

  // ---------- The services as transactions of row events ----------

  /**
   * Whatever row events a service emits to reach its tables, the database
   * accepts them exactly when the service's own check lets it through.
   */
  lemma RoleChangeCommitsExactly(db: Db, es: seq<Event>, id: MemberId, role: Role)
    requires Owned(db) && Consistent(db) && id in db.members
    requires Runs(db, es) && FreshUserIds(db, es) && Final(db, es) == WithRole(db, id, role)
    ensures Commits(db, es) <==> !RoleRefused(db, id, role)
  {
    CommitsExactly(db, es);
    RoleChangeIsExact(db, id, role);
  }

  lemma RemovalCommitsExactly(db: Db, es: seq<Event>, id: MemberId)
    requires Owned(db) && Consistent(db) && id in db.members
    requires Runs(db, es) && FreshUserIds(db, es) && Final(db, es) == WithoutMember(db, id)
    ensures Commits(db, es) <==> !RemovalRefused(db, id)
  {
    CommitsExactly(db, es);
    RemovalIsExact(db, id);
  }

  lemma DeactivationCommitsExactly(db: Db, es: seq<Event>, u: UserId)
    requires Owned(db) && Consistent(db) && u in db.users
    requires Runs(db, es) && FreshUserIds(db, es) && Final(db, es) == WithActive(db, u, false)
    ensures Commits(db, es) <==> !LastOwner(db, u)
  {
    CommitsExactly(db, es);
    DeactivationIsExact(db, u);
  }

  lemma DeletionCommitsExactly(db: Db, es: seq<Event>, u: UserId)
    requires Owned(db) && Consistent(db) && u in db.users
    requires Runs(db, es) && FreshUserIds(db, es) && Final(db, es) == WithoutAccount(db, u)
    ensures Commits(db, es) <==> !LastOwner(db, u)
  {
    CommitsExactly(db, es);
    DeletionIsExact(db, u);
    DeletionKeepsConsistent(db, u);
  }

  /** A new organization with its owner is owned exactly when a group's owner is active. */
  lemma CreationIsExact(db: Db, o: OrgId, kind: Kind, id: MemberId, u: UserId)
    requires Owned(db) && Consistent(db) && o !in db.orgs && id !in db.members && u in db.users
    ensures var t := WithOrg(db, o, Org(kind, Some(u)), id, Membership(u, o, Owner));
            Owned(t) <==> (kind == Group ==> db.users[u])
  {
    var t := WithOrg(db, o, Org(kind, Some(u)), id, Membership(u, o, Owner));
    if kind == Group && !db.users[u] {
      assert forall k | k in t.members && k != id :: t.members[k].org != o;
      assert !CheckOrg(t, o);
    } else {
      NewOrganizationKeepsOwned(db, o, kind, id, u);
    }
  }

  lemma CreationCommitsExactly(db: Db, es: seq<Event>, o: OrgId, kind: Kind, id: MemberId, u: UserId)
    requires Owned(db) && Consistent(db) && o !in db.orgs && id !in db.members && u in db.users
    requires Runs(db, es) && FreshUserIds(db, es)
    requires Final(db, es) == WithOrg(db, o, Org(kind, Some(u)), id, Membership(u, o, Owner))
    ensures Commits(db, es) <==> (kind == Group ==> db.users[u])
  {
    CommitsExactly(db, es);
    CreationIsExact(db, o, kind, id, u);
  }

  /** The two inserts of both creation services: the triggers refuse them exactly for a group of an inactive account. */
  lemma CreationEvents(db: Db, o: OrgId, kind: Kind, id: MemberId, u: UserId) returns (es: seq<Event>)
    requires Owned(db) && Consistent(db) && o !in db.orgs && id !in db.members && u in db.users
    ensures es == [InsertOrg(o, Org(kind, Some(u))), InsertMember(id, Membership(u, o, Owner))]
    ensures Reaches(db, es, WithOrg(db, o, Org(kind, Some(u)), id, Membership(u, o, Owner)))
    ensures Commits(db, es) <==> (kind == Group ==> db.users[u])
  {
    var org := Org(kind, Some(u));
    es := [InsertOrg(o, org), InsertMember(id, Membership(u, o, Owner))];
    assert Reaches(db, [], db);
    OneMoreEvent(db, [], es[0]);
    OneMoreEvent(db, [es[0]], es[1]);
    assert [] + [es[0]] == [es[0]] && [es[0]] + [es[1]] == es;
    CreationCommitsExactly(db, es, o, kind, id, u);
  }

  /** The owner write by which an existing personal organization is repaired is always accepted. */
  lemma OwnerWriteCommits(db: Db, es: seq<Event>, u: UserId, o: OrgId, newId: MemberId)
    requires Owned(db) && Consistent(db) && u in db.users && o in db.orgs && newId !in db.members
    requires Runs(db, es) && FreshUserIds(db, es) && Final(db, es) == WithOwner(db, u, o, newId)
    ensures Commits(db, es)
  {
    CommitsExactly(db, es);
    forall p | p in db.orgs ensures CheckOrg(WithOwner(db, u, o, newId), p) {
      OwnerWriteHelps(db, u, o, newId, p);
    }
  }

  // ---------- The cascade of an account deletion, event by event ----------

  predicate InsertsNoUser(es: seq<Event>) {
    forall i | 0 <= i < |es| :: !es[i].InsertUser?
  }

  /** A transaction so far: its events lead from db to t and insert no account. */
  ghost predicate Reaches(db: Db, es: seq<Event>, t: Db) {
    Runs(db, es) && Final(db, es) == t && InsertsNoUser(es)
  }

  lemma {:induction false} OneMoreEvent(db: Db, es: seq<Event>, e: Event)
    requires Runs(db, es) && Possible(Final(db, es), e)
    ensures Runs(db, es + [e]) && Final(db, es + [e]) == Execute(Final(db, es), e)
    decreases |es|
  {
    if es == [] {
      assert es + [e] == [e] && [e][1..] == [];
    } else {
      assert (es + [e])[1..] == es[1..] + [e];
      OneMoreEvent(Execute(db, es[0]), es[1..], e);
    }
  }

  lemma Also(db: Db, es: seq<Event>, t: Db, e: Event) returns (more: seq<Event>)
    requires Reaches(db, es, t) && Possible(t, e) && !e.InsertUser?
    ensures Reaches(db, more, Execute(t, e))
  {
    OneMoreEvent(db, es, e);
    more := es + [e];
  }

  lemma {:induction false} DeleteMembers(db: Db, es: seq<Event>, t: Db, gone: set<MemberId>) returns (more: seq<Event>)
    requires Reaches(db, es, t) && gone <= t.members.Keys
    ensures Reaches(db, more, t.(members := t.members - gone))
    decreases |gone|
  {
    if gone == {} {
      more := es;
      assert t.members - gone == t.members;
    } else {
      var id :| id in gone;
      more := Also(db, es, t, DeleteMember(id));
      var rest := t.(members := t.members - {id});
      more := DeleteMembers(db, more, rest, gone - {id});
      assert rest.members - (gone - {id}) == t.members - gone;
    }
  }

  lemma {:induction false} DeleteOrgs(db: Db, es: seq<Event>, t: Db, gone: set<OrgId>) returns (more: seq<Event>)
    requires Reaches(db, es, t) && gone <= t.orgs.Keys
    ensures Reaches(db, more, t.(orgs := t.orgs - gone))
    decreases |gone|
  {
    if gone == {} {
      more := es;
      assert t.orgs - gone == t.orgs;
    } else {
      var o :| o in gone;
      more := Also(db, es, t, DeleteOrg(o));
      var rest := t.(orgs := t.orgs - {o});
      more := DeleteOrgs(db, more, rest, gone - {o});
      assert rest.orgs - (gone - {o}) == t.orgs - gone;
    }
  }

  /** The organizations with `creator` set to NULL where u was the creator. */
  function Orphaned(orgs: map<OrgId, Org>, u: UserId): map<OrgId, Org> {
    map o | o in orgs :: if orgs[o].creator == Some(u) then orgs[o].(creator := None) else orgs[o]
  }

  function CreatedBy(orgs: map<OrgId, Org>, u: UserId): set<OrgId> {
    set o | o in orgs && orgs[o].creator == Some(u)
  }

  lemma {:induction false} ClearCreators(db: Db, es: seq<Event>, t: Db, u: UserId) returns (more: seq<Event>)
    requires Reaches(db, es, t)
    ensures Reaches(db, more, t.(orgs := Orphaned(t.orgs, u)))
    decreases |CreatedBy(t.orgs, u)|
  {
    var left := CreatedBy(t.orgs, u);
    if left == {} {
      more := es;
      forall o | o in t.orgs ensures Orphaned(t.orgs, u)[o] == t.orgs[o] {
        assert o !in left;
      }
      assert Orphaned(t.orgs, u) == t.orgs;
    } else {
      var o :| o in left;
      var org := t.orgs[o].(creator := None);
      more := Also(db, es, t, UpdateOrg(o, org));
      var rest := t.(orgs := t.orgs[o := org]);
      assert CreatedBy(rest.orgs, u) == left - {o};
      more := ClearCreators(db, more, rest, u);
      assert Orphaned(rest.orgs, u) == Orphaned(t.orgs, u);
    }
  }

  /** Personal organizations with their memberships, the other memberships, the creator columns, the account. */
  lemma DeletionCascade(db: Db, u: UserId) returns (es: seq<Event>)
    requires u in db.users
    ensures Reaches(db, es, WithoutAccount(db, u)) && FreshUserIds(db, es)
  {
    var personal := PersonalOf(db, u);
    var inside := set id | id in db.members && db.members[id].org in personal;
    es := DeleteMembers(db, [], db, inside);
    var t := db.(members := db.members - inside);
    es := DeleteOrgs(db, es, t, personal);
    t := t.(orgs := t.orgs - personal);
    assert t.members == WithoutOrgs(db, personal).members;
    var own := set id | id in t.members && t.members[id].user == u;
    es := DeleteMembers(db, es, t, own);
    t := t.(members := t.members - own);
    es := ClearCreators(db, es, t, u);
    t := t.(orgs := Orphaned(t.orgs, u));
    es := Also(db, es, t, DeleteUser(u));
    assert t.members == WithoutAccount(db, u).members && t.orgs == WithoutAccount(db, u).orgs;
  }

  /** So the cascade of an account deletion passes the triggers, when run alone, exactly when the service allows it. */
  lemma CascadeCommitsExactly(db: Db, u: UserId) returns (es: seq<Event>)
    requires Owned(db) && Consistent(db) && u in db.users
    ensures Reaches(db, es, WithoutAccount(db, u))
    ensures Commits(db, es) <==> !LastOwner(db, u)
  {
    es := DeletionCascade(db, u);
    DeletionCommitsExactly(db, es, u);
  }

  // ---------- The services themselves ----------

  /** The three tables, changed row by row inside one transaction under the source's locks. */
  class Tables {
    var users: map<UserId, bool>
    var orgs: map<OrgId, Org>
    var members: map<MemberId, Membership>

    function Rows(): Db
      reads this
    {
      Db(users, orgs, members)
    }

    constructor (db: Db)
      ensures Rows() == db
    {
      users, orgs, members := db.users, db.orgs, db.members;
    }

    /** `change_membership_role`; an unsupported role is None. */
    method ChangeMembershipRole(id: MemberId, role: Option<Role>) returns (r: Result<Membership, Error>)
      requires Consistent(Rows())
      modifies this
      ensures r == if role.None? then Failure(UnsupportedRole)
                   else if id !in old(members) then Failure(NotFound)
                   else if RoleRefused(old(Rows()), id, role.value) then Failure(ActiveOwnerRequired)
                   else Success(old(members)[id].(role := role.value))
      ensures Rows() == if r.Success? then WithRole(old(Rows()), id, role.value) else old(Rows())
      ensures users == old(users) && orgs == old(orgs) && members.Keys == old(members).Keys
      ensures forall k | k in old(members) ::
                members[k] == if r.Success? && k == id then
                                Membership(old(members)[k].user, old(members)[k].org, role.value)
                              else old(members)[k]
      ensures r == Failure(ActiveOwnerRequired) <==>
              && id in old(members) && role.Some? && role.value != Owner
              && var m, org := old(members)[id], orgs[old(members)[id].org];
                 || (org.kind == Personal && org.creator == Some(m.user))
                 || (org.kind == Group && m.role == Owner
                     && forall k | k in old(members) && k != id && old(members)[k].org == m.org
                                   && old(members)[k].role == Owner :: !users[old(members)[k].user])
      ensures old(Owned(Rows())) ==> Owned(Rows())
    {
      if role.None? {
        return Failure(UnsupportedRole);
      }
      if id !in members {
        return Failure(NotFound);
      }
      ghost var before := Rows();
      var locked := members[id];
      var organization := orgs[locked.org];
      if IsPersonalCreatorMembership(Rows(), id) && role.value != Owner {
        return Failure(ActiveOwnerRequired);
      }
      if organization.kind == Group && locked.role == Owner && role.value != Owner
         && !OtherActiveOwner(Rows(), locked.org, id) {
        return Failure(ActiveOwnerRequired);
      }
      locked := locked.(role := role.value);
      members := members[id := locked];
      r := Success(locked);
      if Owned(before) {
        RoleChangeIsExact(before, id, role.value);
      }
    }

    /** `remove_membership` */
    method RemoveMembership(id: MemberId) returns (r: Result<(), Error>)
      requires Consistent(Rows())
      modifies this
      ensures r == if id !in old(members) then Failure(NotFound)
                   else if RemovalRefused(old(Rows()), id) then Failure(ActiveOwnerRequired)
                   else Success(())
      ensures Rows() == if r.Success? then WithoutMember(old(Rows()), id) else old(Rows())
      ensures users == old(users) && orgs == old(orgs)
      ensures forall k :: k in members <==> k in old(members) && !(r.Success? && k == id)
      ensures forall k | k in members :: members[k] == old(members)[k]
      ensures r == Failure(ActiveOwnerRequired) <==>
              && id in old(members)
              && var m, org := old(members)[id], orgs[old(members)[id].org];
                 || (org.kind == Personal && org.creator == Some(m.user))
                 || (org.kind == Group && m.role == Owner
                     && forall k | k in old(members) && k != id && old(members)[k].org == m.org
                                   && old(members)[k].role == Owner :: !users[old(members)[k].user])
      ensures old(Owned(Rows())) ==> Owned(Rows())
    {
      if id !in members {
        return Failure(NotFound);
      }
      ghost var before := Rows();
      var locked := members[id];
      if IsPersonalCreatorMembership(Rows(), id) {
        return Failure(ActiveOwnerRequired);
      }
      if orgs[locked.org].kind == Group && locked.role == Owner && !OtherActiveOwner(Rows(), locked.org, id) {
        return Failure(ActiveOwnerRequired);
      }
      members := members - {id};
      r := Success(());
      if Owned(before) {
        RemovalIsExact(before, id);
      }
    }

    /** The loop over owned groups shared by deactivation and deletion: false where it raises. */
    method CheckSuccessors(u: UserId, listed: set<OrgId>) returns (ok: bool)
      requires forall o | o in listed :: o in orgs
      requires forall o | o in orgs && OwnsGroup(Rows(), u, o) :: o in listed
      ensures ok <==> !LastOwner(Rows(), u)
      ensures ok <==> !LastOwnerInRows(users, orgs, members, u)
    {
      LastOwnerRead(Rows(), u);
      var todo := listed;
      while todo != {}
        invariant todo <= listed
        invariant forall o | o in listed - todo && OwnsGroup(Rows(), u, o) :: Successor(Rows(), o, u)
        decreases |todo|
      {
        var o :| o in todo;
        todo := todo - {o};
        if orgs[o].kind != Group || !OwnsGroup(Rows(), u, o) {
          continue;
        }
        if !Successor(Rows(), o, u) {
          assert LastOwner(Rows(), u);
          return false;
        }
      }
      assert forall o | o in orgs && OwnsGroup(Rows(), u, o) :: o in listed - todo;
      return true;
    }

    /** `set_user_active_status`, here without the session revocation. */
    method SetUserActiveStatus(u: UserId, active: bool) returns (r: Result<(), Error>)
      requires Consistent(Rows())
      modifies this
      ensures r == if !active && LastOwner(old(Rows()), u) then Failure(ActiveOwnerRequired)
                   else if u !in old(users) then Failure(NotFound)
                   else Success(())
      ensures Rows() == if r.Success? then WithActive(old(Rows()), u, active) else old(Rows())
      ensures orgs == old(orgs) && members == old(members) && users.Keys == old(users).Keys
      ensures forall v | v in old(users) :: users[v] == if r.Success? && v == u then active else old(users)[v]
      ensures r == Failure(ActiveOwnerRequired) <==> !active && LastOwnerInRows(old(users), orgs, members, u)
      ensures old(Owned(Rows())) ==> Owned(Rows())
    {
      ghost var before := Rows();
      if !active {
        var owned := set o | o in orgs && OwnsGroup(Rows(), u, o);
        var ok := CheckSuccessors(u, owned);
        if !ok {
          return Failure(ActiveOwnerRequired);
        }
      }
      if u !in users {
        return Failure(NotFound);
      }
      users := users[u := active];
      r := Success(());
      if Owned(before) {
        if active {
          ReactivationKeepsOwned(before, u);
        } else {
          DeactivationIsExact(before, u);
        }
      }
    }

    /** `Organization.objects.filter(pk__in=...).delete()` with its cascade. */
    method DeleteOrganizations(gone: set<OrgId>)
      modifies this`orgs, this`members
      ensures Rows() == WithoutOrgs(old(Rows()), gone)
    {
      members := map id | id in members && members[id].org !in gone :: members[id];
      orgs := orgs - gone;
    }

    /** `locked_user.delete()`: memberships cascade, `creator` becomes NULL. */
    method DeleteUserRow(u: UserId)
      modifies this
      ensures Rows() == WithoutUser(old(Rows()), u)
    {
      members := map id | id in members && members[id].user != u :: members[id];
      orgs := map o | o in orgs :: if orgs[o].creator == Some(u) then orgs[o].(creator := None) else orgs[o];
      users := users - {u};
    }

    /** `delete_user_account` */
    method DeleteUserAccount(u: UserId) returns (r: Result<(), Error>)
      requires Consistent(Rows())
      modifies this
      ensures r == if u !in old(users) then Failure(NotFound)
                   else if LastOwner(old(Rows()), u) then Failure(ActiveOwnerRequired)
                   else Success(())
      ensures Rows() == if r.Success? then WithoutAccount(old(Rows()), u) else old(Rows())
      ensures r == Failure(ActiveOwnerRequired) <==>
              u in old(users) && LastOwnerInRows(old(users), old(orgs), old(members), u)
      ensures r.Success? ==> AccountGone(old(Rows()), Rows(), u)
      ensures Consistent(Rows())
      ensures old(Owned(Rows())) ==> Owned(Rows())
    {
      ghost var before := Rows();
      var personal := PersonalOf(Rows(), u);
      var listed := personal + set o | o in orgs && OwnsGroup(Rows(), u, o);
      if u !in users {
        return Failure(NotFound);
      }
      var ok := CheckSuccessors(u, listed);
      if !ok {
        return Failure(ActiveOwnerRequired);
      }
      DeleteOrganizations(personal);
      DeleteUserRow(u);
      r := Success(());
      AccountIsGone(before, u);
      DeletionKeepsConsistent(before, u);
      if Owned(before) {
        DeletionIsExact(before, u);
      }
    }

    /** `create_group_organization`; `slugTaken` is the unique-slug violation. */
    method CreateGroupOrganization(owner: UserId, o: OrgId, id: MemberId, slugTaken: bool)
      returns (r: Result<OrgId, Error>)
      requires Consistent(Rows()) && owner in users && o !in orgs && id !in members
      modifies this
      ensures r == if !old(users)[owner] then Failure(ActiveOwnerRequired)
                   else if slugTaken then Failure(IntegrityFailure)
                   else Success(o)
      ensures Rows() == if r.Success? then
                          WithOrg(old(Rows()), o, Org(Group, Some(owner)), id, Membership(owner, o, Owner))
                        else old(Rows())
      ensures users == old(users)
      ensures r.Success? ==>
              && orgs == old(orgs)[o := Org(Group, Some(owner))]
              && members == old(members)[id := Membership(owner, o, Owner)]
      ensures r.Failure? ==> orgs == old(orgs) && members == old(members)
      ensures Consistent(Rows()) && (old(Owned(Rows())) ==> Owned(Rows()))
    {
      ghost var before := Rows();
      if !users[owner] {
        return Failure(ActiveOwnerRequired);
      }
      if slugTaken {
        return Failure(IntegrityFailure);
      }
      orgs := orgs[o := Org(Group, Some(owner))];
      members := members[id := Membership(owner, o, Owner)];
      r := Success(o);
      if Owned(before) {
        NewOrganizationKeepsOwned(before, o, Group, id, owner);
      }
    }

    /** `Membership.objects.update_or_create(..., defaults={"role": "owner"})` */
    method EnsureOwner(u: UserId, o: OrgId, newId: MemberId)
      requires Consistent(Rows()) && u in users && o in orgs && newId !in members
      modifies this`members
      ensures Rows() == WithOwner(old(Rows()), u, o, newId)
      ensures Consistent(Rows())
      ensures old(Owned(Rows())) ==> Owned(Rows())
    {
      ghost var before := Rows();
      if exists id | id in members :: members[id].user == u && members[id].org == o {
        members := map id | id in members ::
            if members[id].user == u && members[id].org == o then members[id].(role := Owner) else members[id];
      } else {
        members := members[newId := Membership(u, o, Owner)];
      }
      forall p | p in orgs && Owned(before) ensures CheckOrg(Rows(), p) {
        OwnerWriteHelps(before, u, o, newId, p);
      }
    }

    /**
     * `create_personal_organization`: an organization the account already has is
     * repaired; otherwise up to five attempts, each of which inserts, hits a
     * taken slug, or hits the organization that another transaction has created
     * for this account in the meantime and then repairs that one.
     */
    method CreatePersonalOrganization(u: UserId, o: OrgId, id: MemberId, attempts: seq<Attempt>)
      returns (r: Result<OrgId, Error>)
      requires Consistent(Rows()) && u in users && o !in orgs && id !in members && |attempts| == 5
      requires forall i | 0 <= i < 5 && attempts[i].CreatedMeanwhile? ::
                 attempts[i].other !in orgs && attempts[i].membership !in members && attempts[i].membership != id
      modifies this
      ensures var k := FirstOpen(attempts, 0);
              var before := old(Rows());
              if PersonalOf(before, u) != {} then
                r.Success? && r.value in PersonalOf(before, u) && Rows() == WithOwner(before, u, r.value, id)
              else if k == 5 then r == Failure(IntegrityFailure) && Rows() == before
              else if attempts[k].Inserts? then r == Success(o) && Rows() == WithPersonal(before, u, o, id)
              else
                r == Success(attempts[k].other)
                && Rows() == WithOwner(WithPersonal(before, u, attempts[k].other, attempts[k].membership),
                                       u, attempts[k].other, id)
      ensures r.Success? ==> r.value in orgs && orgs[r.value].kind == Personal && orgs[r.value].creator == Some(u)
      ensures users == old(users) && (r.Failure? ==> orgs == old(orgs) && members == old(members))
      ensures r.Success? ==> OwnerGranted(old(Rows()), Rows(), u, r.value)
      ensures Consistent(Rows()) && (old(Owned(Rows())) ==> Owned(Rows()))
      ensures old(forall v :: OnePersonal(Rows(), v)) ==> forall v :: OnePersonal(Rows(), v)
    {
      ghost var before := Rows();
      var existing := PersonalOf(Rows(), u);
      if existing != {} {
        var found :| found in existing;
        EnsureOwner(u, found, id);
        SamePersonal(before, Rows());
        OwnerWriteGrants(before, u, found, id);
        return Success(found);
      }
      for attempt := 0 to 5
        invariant Rows() == before
        invariant FirstOpen(attempts, 0) == FirstOpen(attempts, attempt)
      {
        if attempts[attempt].Inserts? {
          InsertPersonal(u, o, id);
          return Success(o);
        }
        if attempts[attempt].CreatedMeanwhile? {
          var other := attempts[attempt].other;
          InsertPersonal(u, other, attempts[attempt].membership);
          ghost var created := Rows();
          EnsureOwner(u, other, id);
          SamePersonal(created, Rows());
          OwnerWriteGrants(created, u, other, id);
          GrantsCompose(before, created, Rows(), u, other);
          return Success(other);
        }
      }
      return Failure(IntegrityFailure);
    }

    /** One transaction's insert of a personal organization and its owner membership. */
    method InsertPersonal(u: UserId, o: OrgId, id: MemberId)
      requires Consistent(Rows()) && u in users && o !in orgs && id !in members && PersonalOf(Rows(), u) == {}
      modifies this
      ensures Rows() == WithPersonal(old(Rows()), u, o, id) && OwnerGranted(old(Rows()), Rows(), u, o)
      ensures Consistent(Rows()) && (old(Owned(Rows())) ==> Owned(Rows()))
      ensures old(forall v :: OnePersonal(Rows(), v)) ==> forall v :: OnePersonal(Rows(), v)
    {
      ghost var before := Rows();
      orgs := orgs[o := Org(Personal, Some(u))];
      members := members[id := Membership(u, o, Owner)];
      PersonalConsistent(before, u, o, id);
      InsertGrants(before, u, o, id);
      if Owned(before) {
        NewOrganizationKeepsOwned(before, o, Personal, id, u);
      }
      if forall v :: OnePersonal(before, v) {
        NewPersonalIsTheOnly(before, u, o, id);
      }
    }

    /** Migration 0003: up to ten groups without an active owner; none listed exactly when there is none. */
    method RequireExistingActiveOwners() returns (orphans: seq<OrgId>)
      ensures |orphans| <= 10
      ensures forall o | o in orphans :: o in orgs && orgs[o].kind == Group && !CheckOrg(Rows(), o)
      ensures forall o, k | o in orphans && k in members && members[k].org == o && members[k].role == Owner ::
                !(members[k].user in users && users[members[k].user])
      ensures orphans == [] <==> forall o | o in orgs && orgs[o].kind == Group :: CheckOrg(Rows(), o)
    {
      orphans := [];
      var todo := set o | o in orgs && orgs[o].kind == Group;
      while todo != {}
        invariant todo <= orgs.Keys && |orphans| < 10
        invariant forall o | o in todo :: orgs[o].kind == Group
        invariant forall o | o in orgs && orgs[o].kind == Group && o !in todo && o !in orphans :: CheckOrg(Rows(), o)
        invariant forall o | o in orphans :: o in orgs && orgs[o].kind == Group && !CheckOrg(Rows(), o)
        decreases |todo|
      {
        var o :| o in todo;
        todo := todo - {o};
        if !exists id | id in members :: ActiveOwner(Rows(), o, id) {
          assert !CheckOrg(Rows(), o);
          orphans := orphans + [o];
          assert orphans[|orphans| - 1] == o;
          if |orphans| == 10 {
            break;
          }
        }
      }
      if orphans != [] {
        assert orphans[0] in orphans;
      }
    }

    /**
     * Migration 0004: refuses duplicate creators, fails on a missing creator, and
     * otherwise writes the owner membership of every personal organization.
     */
    method RepairPersonalOwners(newIds: seq<MemberId>) returns (r: Result<(), Error>)
      requires Consistent(Rows())
      requires |newIds| >= |orgs| && forall i, k | 0 <= i < k < |newIds| :: newIds[i] != newIds[k]
      requires forall i | 0 <= i < |newIds| :: newIds[i] !in members
      modifies this`members
      ensures r.Failure? <==> DuplicateCreator(orgs) || MissingCreator(orgs)
      ensures r.Failure? ==> r.error == if DuplicateCreator(orgs) then DuplicateCreators else IntegrityFailure
      ensures r.Failure? ==> members == old(members)
      ensures r.Success? ==> OnlyCreatorsPromoted(orgs, old(members), members)
      ensures Consistent(Rows())
      ensures r.Success? ==>
              forall o | o in orgs && (orgs[o].kind == Personal || old(CheckOrg(Rows(), o))) :: CheckOrg(Rows(), o)
    {
      if DuplicateCreator(orgs) {
        return Failure(DuplicateCreators);
      }
      if MissingCreator(orgs) {
        return Failure(IntegrityFailure);
      }
      WriteOwners(newIds);
      return Success(());
    }

    /** The loop over the personal organizations. */
    method WriteOwners(newIds: seq<MemberId>)
      requires Consistent(Rows())
      requires forall o | o in orgs && orgs[o].kind == Personal :: orgs[o].creator.Some?
      requires |newIds| >= |orgs| && forall i, k | 0 <= i < k < |newIds| :: newIds[i] != newIds[k]
      requires forall i | 0 <= i < |newIds| :: newIds[i] !in members
      modifies this`members
      ensures Consistent(Rows())
      ensures forall o | o in orgs && (orgs[o].kind == Personal || old(CheckOrg(Rows(), o))) :: CheckOrg(Rows(), o)
      ensures OnlyCreatorsPromoted(orgs, old(members), members)
    {
      var todo := set o | o in orgs && orgs[o].kind == Personal;
      var n := 0;
      assert todo <= orgs.Keys;
      SubsetSize(todo, orgs.Keys);
      while todo != {}
        invariant todo <= orgs.Keys && n + |todo| <= |orgs|
        invariant forall o | o in todo :: orgs[o].kind == Personal
        invariant Consistent(Rows()) && OnlyCreatorsPromoted(orgs, old(members), members)
        invariant forall i | n <= i < |newIds| :: newIds[i] !in members
        invariant forall o | o in orgs && (old(CheckOrg(Rows(), o)) || (orgs[o].kind == Personal && o !in todo)) ::
                    CheckOrg(Rows(), o)
        decreases |todo|
      {
        ghost var before := Rows();
        var o :| o in todo;
        todo := todo - {o};
        OwnerWritePromotes(before, orgs[o].creator.value, o, newIds[n], old(members));
        EnsureOwner(orgs[o].creator.value, o, newIds[n]);
        forall p | p in orgs && (CheckOrg(before, p) || p == o) ensures CheckOrg(Rows(), p) {
          OwnerWriteHelps(before, orgs[o].creator.value, o, newIds[n], p);
        }
        n := n + 1;
      }
    }
  }
}
