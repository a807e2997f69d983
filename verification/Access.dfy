/** What the permission service computes when nothing is cached: the decision
    for one code, the list of codes, and the two per-role reads. */
module Access {
  import opened Common
  import opened Directories

  datatype Permission = Permission(code: string, scope: string)

  /** A role with the codes of its permissions, in `rolePermissions` order. */
  datatype Role = Role(name: string, codes: seq<string>)

  /** A row of `user_roles`; no workspace means the role is held globally. */
  datatype Assignment = Assignment(id: nat, userId: Id, roleId: Id, workspaceId: Option<Id>)

  datatype Db = Db(dir: Directory, permissions: seq<Permission>, roles: map<Id, Role>, assignments: seq<Assignment>)

  datatype Scope = Global | Within(workspaceId: Id)

  predicate InScope(a: Assignment, scope: Scope) {
    match scope
    case Global => !Truthy(a.workspaceId)
    case Within(w) => a.workspaceId == Some(w)
  }

  function CodesOfRole(db: Db, roleId: Id): seq<string> {
    if roleId in db.roles then db.roles[roleId].codes else []
  }

  /** `userRoleAssignments.filter(scope).flatMap(permissions).map(code)` for one user. */
  function ScopedCodes(db: Db, rows: seq<Assignment>, userId: Id, scope: Scope): seq<string> {
    if rows == [] then []
    else
      (if rows[0].userId == userId && InScope(rows[0], scope) then CodesOfRole(db, rows[0].roleId) else [])
      + ScopedCodes(db, rows[1..], userId, scope)
  }

  /** Assignment `a` gives `userId` the permission `code` in `scope`. */
  predicate Grants(db: Db, a: Assignment, userId: Id, scope: Scope, code: string) {
    a.userId == userId && InScope(a, scope) && code in CodesOfRole(db, a.roleId)
  }

  ghost predicate HoldsRoleFor(db: Db, userId: Id, scope: Scope, code: string) {
    exists a :: a in db.assignments && Grants(db, a, userId, scope, code)
  }

  lemma {:induction false} ScopedCodesMeaning(db: Db, rows: seq<Assignment>, userId: Id, scope: Scope, code: string)
    ensures code in ScopedCodes(db, rows, userId, scope)
       <==> exists a :: a in rows && Grants(db, a, userId, scope, code)
  {
    if rows != [] {
      ScopedCodesMeaning(db, rows[1..], userId, scope, code);
      assert rows == [rows[0]] + rows[1..];
      if Grants(db, rows[0], userId, scope, code) { assert rows[0] in rows; }
    }
  }

  /** The uncached decision of `userHasPermission`. */
  function Decide(db: Db, userId: Id, code: string, workspaceId: Option<Id>): bool {
    if userId !in db.dir.users then false
    else if db.dir.users[userId].role == "SUPER" then true
    else if code in ScopedCodes(db, db.assignments, userId, Global) then true
    else if Truthy(workspaceId) then
      code in ScopedCodes(db, db.assignments, userId, Within(workspaceId.value))
      || IsOwner(db.dir, userId, workspaceId.value)
    else false
  }

  /** The uncached result of `getUserPermissions`. */
  function ListCodes(db: Db, userId: Id, workspaceId: Option<Id>): seq<string> {
    var global := ScopedCodes(db, db.assignments, userId, Global);
    if userId !in db.dir.users then []
    else if db.dir.users[userId].role == "SUPER" then CodesOf(db.permissions)
    else if Truthy(workspaceId) then
      var local := ScopedCodes(db, db.assignments, userId, Within(workspaceId.value));
      if IsOwner(db.dir, userId, workspaceId.value) then
        Distinct(global + local + CodesOf(WorkspaceScoped(db.permissions)))
      else Distinct(global + local)
    else Distinct(global)
  }

  function CodesOf(rows: seq<Permission>): (codes: seq<string>)
    ensures |codes| == |rows| && forall i :: 0 <= i < |rows| ==> codes[i] == rows[i].code
  {
    seq(|rows|, i requires 0 <= i < |rows| => rows[i].code)
  }

  function WorkspaceScoped(rows: seq<Permission>): seq<Permission> {
    Filter((p: Permission) => p.scope == "WORKSPACE", rows)
  }

  lemma CodesOfMeaning(rows: seq<Permission>, code: string)
    ensures code in CodesOf(rows) <==> exists p :: p in rows && p.code == code
  {
    if code in CodesOf(rows) {
      var i :| 0 <= i < |rows| && CodesOf(rows)[i] == code;
      assert rows[i] in rows;
    }
    if p :| p in rows && p.code == code {
      var i :| 0 <= i < |rows| && rows[i] == p;
      assert CodesOf(rows)[i] == code;
    }
  }

  /** `code` is the code of a permission row, of workspace scope when `scoped`. */
  ghost predicate IsPermission(db: Db, code: string, scoped: bool) {
    exists p :: p in db.permissions && p.code == code && (scoped ==> p.scope == "WORKSPACE")
  }

  ghost predicate HoldsRole(db: Db, userId: Id, workspaceId: Option<Id>, code: string) {
    HoldsRoleFor(db, userId, Global, code)
    || (Truthy(workspaceId) && HoldsRoleFor(db, userId, Within(workspaceId.value), code))
  }

  ghost predicate Owns(db: Db, userId: Id, workspaceId: Option<Id>) {
    Truthy(workspaceId) && IsOwner(db.dir, userId, workspaceId.value)
  }

  /** Some role the user holds, globally or in the workspace asked for, has the code. */
  ghost predicate RoleGives(db: Db, userId: Id, workspaceId: Option<Id>, code: string) {
    exists a :: a in db.assignments && a.userId == userId
      && (a.workspaceId == None || a.workspaceId == Some("") || (a.workspaceId == workspaceId && workspaceId != Some("")))
      && a.roleId in db.roles && code in db.roles[a.roleId].codes
  }

  ghost predicate OwnsIt(db: Db, userId: Id, workspaceId: Option<Id>) {
    workspaceId.Some? && workspaceId.value != ""
    && workspaceId.value in db.dir.workspaces && db.dir.workspaces[workspaceId.value].ownerId == userId
  }

  /** Who may use a permission: an existing user who is SUPER, holds a role with the
      code globally or in the workspace, or owns the workspace. */
  ghost predicate MayUse(db: Db, userId: Id, code: string, workspaceId: Option<Id>) {
    userId in db.dir.users
    && (db.dir.users[userId].role == "SUPER" || RoleGives(db, userId, workspaceId, code) || OwnsIt(db, userId, workspaceId))
  }

  /** What the list of a user holds: every permission for SUPER, and otherwise the codes
      of the user's roles, with the workspace-scoped permissions for an owner. */
  ghost predicate MayList(db: Db, userId: Id, workspaceId: Option<Id>, code: string) {
    userId in db.dir.users
    && if db.dir.users[userId].role == "SUPER" then exists p :: p in db.permissions && p.code == code
       else RoleGives(db, userId, workspaceId, code)
            || (OwnsIt(db, userId, workspaceId) && exists p :: p in db.permissions && p.code == code && p.scope == "WORKSPACE")
  }

  lemma HoldsRoleMeaning(db: Db, userId: Id, workspaceId: Option<Id>, code: string)
    ensures HoldsRole(db, userId, workspaceId, code) <==> RoleGives(db, userId, workspaceId, code)
  {
    if HoldsRoleFor(db, userId, Global, code) {
      var a :| a in db.assignments && Grants(db, a, userId, Global, code);
      assert a.workspaceId == None || a.workspaceId == Some("") by { if a.workspaceId.Some? { assert a.workspaceId.value == ""; } }
    }
    if RoleGives(db, userId, workspaceId, code) {
      var a :| a in db.assignments && a.userId == userId
        && (a.workspaceId == None || a.workspaceId == Some("") || (a.workspaceId == workspaceId && workspaceId != Some("")))
        && a.roleId in db.roles && code in db.roles[a.roleId].codes;
      if Truthy(a.workspaceId) {
        assert Grants(db, a, userId, Within(a.workspaceId.value), code);
      } else {
        assert Grants(db, a, userId, Global, code);
      }
    }
  }

  /** The decision grants exactly what the user may use. */
  lemma DecideMeaning(db: Db, userId: Id, code: string, workspaceId: Option<Id>)
    ensures Decide(db, userId, code, workspaceId) <==> MayUse(db, userId, code, workspaceId)
  {
    DecideByScopes(db, userId, code, workspaceId);
    HoldsRoleMeaning(db, userId, workspaceId, code);
  }

  /** The list holds exactly what the user may list. */
  lemma ListMeaning(db: Db, userId: Id, workspaceId: Option<Id>, code: string)
    ensures code in ListCodes(db, userId, workspaceId) <==> MayList(db, userId, workspaceId, code)
  {
    ListByScopes(db, userId, workspaceId, code);
    HoldsRoleMeaning(db, userId, workspaceId, code);
    assert IsPermission(db, code, false) <==> exists p :: p in db.permissions && p.code == code;
  }

  lemma DecideByScopes(db: Db, userId: Id, code: string, workspaceId: Option<Id>)
    ensures Decide(db, userId, code, workspaceId)
       <==> userId in db.dir.users
            && (IsSuper(db.dir, userId) || HoldsRole(db, userId, workspaceId, code) || Owns(db, userId, workspaceId))
  {
    ScopedCodesMeaning(db, db.assignments, userId, Global, code);
    if Truthy(workspaceId) {
      ScopedCodesMeaning(db, db.assignments, userId, Within(workspaceId.value), code);
    }
  }

  lemma ListByScopes(db: Db, userId: Id, workspaceId: Option<Id>, code: string)
    ensures code in ListCodes(db, userId, workspaceId)
       <==> userId in db.dir.users
            && if IsSuper(db.dir, userId) then IsPermission(db, code, false)
               else HoldsRole(db, userId, workspaceId, code)
                    || (Owns(db, userId, workspaceId) && IsPermission(db, code, true))
  {
    ScopedCodesMeaning(db, db.assignments, userId, Global, code);
    CodesOfMeaning(db.permissions, code);
    CodesOfMeaning(WorkspaceScoped(db.permissions), code);
    if Truthy(workspaceId) {
      ScopedCodesMeaning(db, db.assignments, userId, Within(workspaceId.value), code);
    }
  }

  /** `code` is unique among permissions. */
  ghost predicate UniqueCodes(db: Db) {
    forall i, j :: 0 <= i < j < |db.permissions| ==> db.permissions[i].code != db.permissions[j].code
  }

  /** List and decision agree: every listed code is granted and listed once; a
      granted code is missing exactly when SUPER or ownership alone grants it and
      it is no permission row of the kind listed for that user. */
  lemma ListAgreesWithDecide(db: Db, userId: Id, workspaceId: Option<Id>, code: string)
    ensures UniqueCodes(db) ==> NoDuplicates(ListCodes(db, userId, workspaceId))
    ensures code in ListCodes(db, userId, workspaceId) ==> Decide(db, userId, code, workspaceId)
    ensures Decide(db, userId, code, workspaceId) && code !in ListCodes(db, userId, workspaceId)
       <==> userId in db.dir.users
            && if IsSuper(db.dir, userId) then !IsPermission(db, code, false)
               else Owns(db, userId, workspaceId) && !HoldsRole(db, userId, workspaceId, code) && !IsPermission(db, code, true)
  {
    DecideByScopes(db, userId, code, workspaceId);
    ListByScopes(db, userId, workspaceId, code);
  }
}
