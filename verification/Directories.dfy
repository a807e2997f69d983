/** The tables every service consults: users, workspaces, repositories and memberships
    (prisma/schema.prisma, models User, Workspace, Repository and UserWorkspace). */
module Directories {
  import opened Common

  datatype Plan = STARTER | PRO | BUSINESS | ENTERPRISE

  datatype WorkspaceRole = ADMIN | MEMBER

  datatype User = User(email: string, role: string, plan: Plan)

  datatype Workspace = Workspace(name: string, ownerId: Id, repositoryId: Option<Id>)

  datatype Membership = Membership(userId: Id, workspaceId: Id, role: WorkspaceRole)

  /** `repositories` holds the owner of each repository. */
  datatype Directory = Directory(users: map<Id, User>, workspaces: map<Id, Workspace>, repositories: map<Id, Id>,
                                 memberships: seq<Membership>)

  predicate IsSuper(dir: Directory, userId: Id) {
    userId in dir.users && dir.users[userId].role == "SUPER"
  }

  predicate IsOwner(dir: Directory, userId: Id, workspaceId: Id) {
    workspaceId in dir.workspaces && dir.workspaces[workspaceId].ownerId == userId
  }

  predicate IsMember(dir: Directory, userId: Id, workspaceId: Id) {
    exists m :: m in dir.memberships && m.userId == userId && m.workspaceId == workspaceId
  }

  /** A workspace's `userWorkspaces` rows restricted to one user, in table order. */
  function MembershipsOf(dir: Directory, userId: Id, workspaceId: Id): seq<Membership> {
    Filter((m: Membership) => m.userId == userId && m.workspaceId == workspaceId, dir.memberships)
  }

  /** `@@unique([userId, workspaceId])` on memberships. */
  ghost predicate UniqueMemberships(ms: seq<Membership>) {
    forall i, j :: 0 <= i < j < |ms| ==> ms[i].userId != ms[j].userId || ms[i].workspaceId != ms[j].workspaceId
  }

  /** The test that lets a user create, change or delete the schedules and scans
      of a workspace: SUPER, the owner, or a member whose (first) row says ADMIN. */
  predicate MayManage(dir: Directory, userId: Id, workspaceId: Id) {
    var rows := MembershipsOf(dir, userId, workspaceId);
    IsSuper(dir, userId) || IsOwner(dir, userId, workspaceId) || (rows != [] && rows[0].role == ADMIN)
  }

  /** Who manages a workspace: SUPER, its owner, and its members with the role ADMIN. */
  ghost predicate Manager(dir: Directory, userId: Id, workspaceId: Id) {
    || (userId in dir.users && dir.users[userId].role == "SUPER")
    || (workspaceId in dir.workspaces && dir.workspaces[workspaceId].ownerId == userId)
    || Membership(userId, workspaceId, ADMIN) in dir.memberships
  }

  /** With unique rows the first row is the only one, so the test is plain membership. */
  lemma MayManageMeaning(dir: Directory, userId: Id, workspaceId: Id)
    requires UniqueMemberships(dir.memberships)
    ensures MayManage(dir, userId, workspaceId) <==> Manager(dir, userId, workspaceId)
  {
    var rows := MembershipsOf(dir, userId, workspaceId);
    if Membership(userId, workspaceId, ADMIN) in dir.memberships {
      var i :| 0 <= i < |dir.memberships| && dir.memberships[i] == Membership(userId, workspaceId, ADMIN);
      assert dir.memberships[i] in rows && rows[0] in rows;
      var j :| 0 <= j < |dir.memberships| && dir.memberships[j] == rows[0];
      assert i == j;
    }
    if rows != [] {
      assert rows[0] in rows;
    }
  }
}
