/** The study list against `check_permission`: the two agree for users and admins, not for bots. */
module StudySearchPermissions {
  import opened Options
  import opened Permissions
  import opened StudyQuery
  import opened StudySearch

  /** `PermissionInfo.from_study`: the owner is read through the relation to `identities`. */
  function FromStudy(s: Study, identities: set<int>): PermissionInfo {
    PermissionInfo(
      if s.ownerId.Some? && s.ownerId.value in identities then s.ownerId else None,
      s.groups,
      if s.publicMode.None? then NONE else s.publicMode.value)
  }

  /** The foreign key of the owner column. */
  ghost predicate OwnersExist(db: seq<Study>, identities: set<int>) {
    forall s :: s in db && s.ownerId.Some? ==> s.ownerId.value in identities
  }

  /** The list holds exactly the studies that pass the filters and that the user may read. */
  ghost predicate ListsReadable(f: StudyFilter, user: JWTUser, db: seq<Study>, identities: set<int>, sql: Dialect) {
    forall s :: s in Studies(Eval(Search(f), db, sql)) <==>
      s in db && PassesBase(f, s) && PassesGroups(f, s) && CheckPermission(user, FromStudy(s, identities), READ)
  }

  predicate IsAdmin(user: JWTUser) {
    user.IsSiteAdmin() || user.IsAdminToken()
  }

  lemma EveryRoleReads(r: RoleType)
    ensures r in AllowedRoles(READ)
  {
    match r
    case ADMIN =>
    case WRITER =>
    case RUNNER =>
    case READER =>
  }

  lemma GroupsOfUser(user: JWTUser, s: Study)
    ensures SharesGroup(s, FromParams(Some(user)).userGroups) <==>
            exists g :: g in user.groups && g.id in s.groups && g.role in AllowedRoles(READ)
  {
    var ids := FromParams(Some(user)).userGroups;
    if SharesGroup(s, ids) {
      var id :| id in s.groups && id in ids;
      var i :| 0 <= i < |ids| && ids[i] == id;
      EveryRoleReads(user.groups[i].role);
      assert user.groups[i] in user.groups;
    }
    if g :| g in user.groups && g.id in s.groups && g.role in AllowedRoles(READ) {
      var i :| 0 <= i < |user.groups| && user.groups[i] == g;
      assert ids[i] == g.id;
    }
  }

  lemma VisibleIsReadable(user: JWTUser, s: Study, identities: set<int>)
    requires IsAdmin(user) || user.id == user.impersonator
    requires s.ownerId.Some? ==> s.ownerId.value in identities
    ensures Visible(FromParams(Some(user)), s) <==> CheckPermission(user, FromStudy(s, identities), READ)
  {
    GroupsOfUser(user, s);
  }

  /** For an admin, and for everybody who is not a bot, whatever the filters and the data. */
  lemma SearchAgrees(f: StudyFilter, user: JWTUser, db: seq<Study>, identities: set<int>, sql: Dialect)
    requires TextIsRight(f, sql)
    requires f.access == FromParams(Some(user)) && OwnersExist(db, identities)
    requires IsAdmin(user) || user.id == user.impersonator
    ensures ListsReadable(f, user, db, identities, sql)
  {
    forall s: Study
      ensures s in Studies(Eval(Search(f), db, sql)) <==>
              s in db && PassesBase(f, s) && PassesGroups(f, s) && CheckPermission(user, FromStudy(s, identities), READ)
    {
      SearchMeansPredicate(f, db, s, sql);
      if s in db {
        VisibleIsReadable(user, s, identities);
      }
    }
  }

  /** The plain list of a user who is not a bot, written out: everything for an admin, and otherwise
      what is public, owned, or shared with one of the user's groups. */
  lemma WhatUserSees(user: JWTUser, db: seq<Study>, s: Study, sql: Dialect)
    requires user.id == user.impersonator
    ensures s in Studies(Eval(Search(NoFilter(FromParams(Some(user)))), db, sql)) <==>
            && s in db
            && (|| user.id == 1
                || (exists g :: g in user.groups && (g.id == "admin" || g.id in s.groups))
                || (s.publicMode.Some? && s.publicMode != Some(NONE))
                || s.ownerId == Some(user.id))
  {
    var f := NoFilter(FromParams(Some(user)));
    SearchMeansPredicate(f, db, s, sql);
    GroupsOfUser(user, s);
    if g :| g in user.groups && g.id in s.groups {
      EveryRoleReads(g.role);
    }
  }

  /** Nobody: no study. */
  lemma WithoutUserNothing(db: seq<Study>, s: Study, sql: Dialect)
    ensures s !in Studies(Eval(Search(NoFilter(FromParams(None))), db, sql))
  {
    SearchMeansPredicate(NoFilter(FromParams(None)), db, s, sql);
  }

  /** A bot sees a private study owned by its own identity, which it may not read. */
  lemma BotSeesTooMuch(user: JWTUser, sql: Dialect) returns (s: Study)
    requires !IsAdmin(user) && user.id != user.impersonator
    ensures OwnersExist([s], {user.id}) && !ListsReadable(NoFilter(FromParams(Some(user))), user, [s], {user.id}, sql)
  {
    s := Study("id", VariantStudy, None, None, None, None, None, Some(user.id), [], []);
    var f := NoFilter(FromParams(Some(user)));
    SearchMeansPredicate(f, [s], s, sql);
    assert s in [s] && PassesBase(f, s) && IsOpen(s, user.id);
    assert s in Studies(Eval(Search(f), [s], sql));
    assert !CheckPermission(user, FromStudy(s, {user.id}), READ);
  }

  /** The condition is exact: the plain list of a user holds the readable studies in every
      database exactly when the user is an admin or its own impersonator. */
  lemma WhoCanTrustTheList(user: JWTUser, sql: Dialect)
    ensures (forall db, identities | OwnersExist(db, identities) ::
               ListsReadable(NoFilter(FromParams(Some(user))), user, db, identities, sql)) <==>
            IsAdmin(user) || user.id == user.impersonator
  {
    var f := NoFilter(FromParams(Some(user)));
    if IsAdmin(user) || user.id == user.impersonator {
      forall db, identities | OwnersExist(db, identities) ensures ListsReadable(f, user, db, identities, sql) {
        SearchAgrees(f, user, db, identities, sql);
      }
    } else {
      var s := BotSeesTooMuch(user, sql);
      assert OwnersExist([s], {user.id});
    }
  }
}
