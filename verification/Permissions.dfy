/** Who may do what with a study, decided on the loaded study. */
module Permissions {
  import opened Options

  datatype RoleType = ADMIN | WRITER | RUNNER | READER

  datatype PublicMode = NONE | READ_MODE | EXECUTE | EDIT | FULL

  datatype StudyPermissionType = READ | RUN | WRITE | MANAGE_PERMISSIONS

  datatype JWTGroup = JWTGroup(id: string, role: RoleType)

  const ADMIN_ID := 1

  /** For a bot, `impersonator` is the user it works for; for a user it is the user. */
  datatype JWTUser = JWTUser(id: int, impersonator: int, groups: seq<JWTGroup>) {
    predicate IsAdminToken() {
      impersonator == ADMIN_ID
    }

    predicate IsSiteAdmin() {
      exists g :: g in groups && g.id == "admin"
    }
  }

  datatype PermissionInfo = PermissionInfo(owner: Option<int>, groups: seq<string>, publicMode: PublicMode)

  function AllowedRoles(p: StudyPermissionType): set<RoleType> {
    match p
    case READ => {ADMIN, RUNNER, WRITER, READER}
    case RUN => {ADMIN, RUNNER, WRITER}
    case WRITE => {ADMIN, WRITER}
    case MANAGE_PERMISSIONS => {ADMIN}
  }

  function AllowedModes(p: StudyPermissionType): set<PublicMode> {
    match p
    case READ => {FULL, EDIT, EXECUTE, READ_MODE}
    case RUN => {FULL, EDIT, EXECUTE}
    case WRITE => {FULL, EDIT}
    case MANAGE_PERMISSIONS => {}
  }

  predicate CheckPermission(user: JWTUser, info: PermissionInfo, p: StudyPermissionType) {
    if user.IsSiteAdmin() || user.IsAdminToken() then true
    else if info.owner.Some? && user.impersonator == info.owner.value then true
    else if exists g :: g in user.groups && g.id in info.groups && g.role in AllowedRoles(p) then true
    else info.publicMode in AllowedModes(p)
  }

  /** Whose permission does not depend on the study's groups and mode: site admins, the user with
      number 1 and its bots, the owner and its bots. */
  predicate MayEverything(user: JWTUser, info: PermissionInfo) {
    || user.impersonator == 1
    || (exists g :: g in user.groups && g.id == "admin")
    || info.owner == Some(user.impersonator)
  }

  predicate Shares(user: JWTUser, info: PermissionInfo, roles: set<RoleType>) {
    exists g :: g in user.groups && g.id in info.groups && g.role in roles
  }

  /** Reading: any role in a group of the study, or any public mode. */
  lemma WhoMayRead(user: JWTUser, info: PermissionInfo)
    ensures CheckPermission(user, info, READ) <==>
            || MayEverything(user, info)
            || (exists g :: g in user.groups && g.id in info.groups)
            || info.publicMode != NONE
  {
    if g :| g in user.groups && g.id in info.groups {
      match g.role
      case ADMIN =>
      case WRITER =>
      case RUNNER =>
      case READER =>
    }
    match info.publicMode
    case NONE =>
    case READ_MODE =>
    case EXECUTE =>
    case EDIT =>
    case FULL =>
  }

  lemma WhoMayRun(user: JWTUser, info: PermissionInfo)
    ensures CheckPermission(user, info, RUN) <==>
            || MayEverything(user, info) || Shares(user, info, {ADMIN, WRITER, RUNNER})
            || info.publicMode in {EXECUTE, EDIT, FULL}
  {
  }

  lemma WhoMayWrite(user: JWTUser, info: PermissionInfo)
    ensures CheckPermission(user, info, WRITE) <==>
            || MayEverything(user, info) || Shares(user, info, {ADMIN, WRITER}) || info.publicMode in {EDIT, FULL}
  {
  }

  /** Managing: no public mode gives it. */
  lemma WhoMayManage(user: JWTUser, info: PermissionInfo)
    ensures CheckPermission(user, info, MANAGE_PERMISSIONS) <==>
            MayEverything(user, info) || Shares(user, info, {ADMIN})
  {
  }

  /** A stranger to a private study has no permission at all. */
  lemma StrangersMayNothing(user: JWTUser, info: PermissionInfo, p: StudyPermissionType)
    requires user.impersonator != 1 && info.owner != Some(user.impersonator) && info.publicMode == NONE
    requires forall g :: g in user.groups ==> g.id != "admin" && g.id !in info.groups
    ensures !CheckPermission(user, info, p)
  {
    OnlyReadersMay(user, info, p);
    WhoMayRead(user, info);
  }

  lemma OnlyReadersMay(user: JWTUser, info: PermissionInfo, p: StudyPermissionType)
    ensures CheckPermission(user, info, p) ==> CheckPermission(user, info, READ)
  {
    if CheckPermission(user, info, p) {
      PermissionsFormAChain(user, info, p, READ);
    }
  }

  function Rank(p: StudyPermissionType): nat {
    match p
    case READ => 0
    case RUN => 1
    case WRITE => 2
    case MANAGE_PERMISSIONS => 3
  }

  /** The four permissions form a chain: whoever has one has every weaker one. */
  lemma PermissionsFormAChain(user: JWTUser, info: PermissionInfo, p: StudyPermissionType, weaker: StudyPermissionType)
    requires CheckPermission(user, info, p) && Rank(weaker) <= Rank(p)
    ensures CheckPermission(user, info, weaker)
  {
    assert AllowedRoles(p) <= AllowedRoles(weaker) && AllowedModes(p) <= AllowedModes(weaker);
  }
}
