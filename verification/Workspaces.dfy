/** Workspace membership: who may open a workspace, and how that changes. */
module Workspaces {
  import opened Common
  import opened Directories
  import opened Access

  datatype Reply = Ok | NotFound | Forbidden | BadRequest

  datatype Action = CREATE_WORKSPACE | UPDATE_WORKSPACE | DELETE_WORKSPACE | ADD_USER_TO_WORKSPACE | REMOVE_USER_FROM_WORKSPACE

  datatype Entry = Entry(action: Action, userId: Id, workspaceId: Id)

  /** `byEmail` is the unique index on users' addresses; `inUse` holds the workspaces
      that scans or schedules refer to. */
  datatype State = State(dir: Directory, assignments: seq<Assignment>, byEmail: map<string, Id>, inUse: set<Id>, audit: seq<Entry>)

  /** The call that throws: the write of the row, or of the audit entry. */
  datatype Fault = NoFault | WriteFails | AuditFails

  function Logged(st: State, e: Entry, fault: Fault): (Reply, State) {
    if fault == AuditFails then (BadRequest, st) else (Ok, st.(audit := st.audit + [e]))
  }

  /** The foreign key of a workspace's repository. */
  predicate KnownRepository(dir: Directory, repositoryId: Option<Id>) {
    repositoryId.Some? ==> repositoryId.value in dir.repositories
  }

  function Create(st: State, name: string, repositoryId: Option<Id>, userId: Id, newId: Id, fault: Fault): (Reply, State) {
    if fault == WriteFails || userId !in st.dir.users || !KnownRepository(st.dir, repositoryId) then (BadRequest, st)
    else
      Logged(st.(dir := st.dir.(workspaces := st.dir.workspaces[newId := Workspace(name, userId, repositoryId)])),
             Entry(CREATE_WORKSPACE, userId, newId), fault)
  }

  /** Every field of an update is optional, and validation lets null through. */
  datatype UpdateDto = UpdateDto(name: Sent<string>, repositoryId: Sent<Id>)

  /** Null clears the repository. */
  function Merge(ws: Workspace, dto: UpdateDto): Workspace {
    Workspace(Apply(dto.name, ws.name), ws.ownerId,
              match dto.repositoryId case Absent => ws.repositoryId case Null => None case Given(r) => Some(r))
  }

  /** The name cannot be null, and a given repository must exist. */
  predicate Writable(dir: Directory, dto: UpdateDto) {
    !dto.name.Null? && (dto.repositoryId.Given? ==> dto.repositoryId.value in dir.repositories)
  }

  function Update(st: State, id: Id, dto: UpdateDto, userId: Id, fault: Fault): (Reply, State) {
    if id !in st.dir.workspaces then (NotFound, st)
    else if !IsOwner(st.dir, userId, id) then (Forbidden, st)
    else if fault == WriteFails || !Writable(st.dir, dto) then (BadRequest, st)
    else
      Logged(st.(dir := st.dir.(workspaces := st.dir.workspaces[id := Merge(st.dir.workspaces[id], dto)])),
             Entry(UPDATE_WORKSPACE, userId, id), fault)
  }

  /** The audit entry is written first; deleting the row deletes its memberships and its
      role assignments, and throws while scans or schedules refer to it. */
  function Delete(st: State, id: Id, userId: Id, fault: Fault): (Reply, State) {
    if id !in st.dir.workspaces then (NotFound, st)
    else if !IsOwner(st.dir, userId, id) then (Forbidden, st)
    else if fault == AuditFails then (BadRequest, st)
    else
      var logged := st.(audit := st.audit + [Entry(DELETE_WORKSPACE, userId, id)]);
      if fault == WriteFails || id in st.inUse then (BadRequest, logged)
      else
        (Ok, logged.(dir := st.dir.(workspaces := st.dir.workspaces - {id}, memberships := MembersElsewhere(st.dir.memberships, id)),
                     assignments := RolesElsewhere(st.assignments, id)))
  }

  function MembersElsewhere(ms: seq<Membership>, id: Id): seq<Membership> {
    Filter((m: Membership) => m.workspaceId != id, ms)
  }

  function RolesElsewhere(rows: seq<Assignment>, id: Id): seq<Assignment> {
    Filter((a: Assignment) => a.workspaceId != Some(id), rows)
  }

  /** The owner and members whose role is ADMIN manage members. */
  predicate MayManageMembers(dir: Directory, userId: Id, workspaceId: Id) {
    IsOwner(dir, userId, workspaceId) || Membership(userId, workspaceId, ADMIN) in dir.memberships
  }

  function AddUser(st: State, workspaceId: Id, email: string, role: WorkspaceRole, userId: Id, fault: Fault): (Reply, State) {
    if workspaceId !in st.dir.workspaces then (NotFound, st)
    else if !MayManageMembers(st.dir, userId, workspaceId) then (Forbidden, st)
    else if email !in st.byEmail then (NotFound, st)
    else if IsMember(st.dir, st.byEmail[email], workspaceId) || fault == WriteFails then (BadRequest, st)
    else
      Logged(st.(dir := st.dir.(memberships := st.dir.memberships + [Membership(st.byEmail[email], workspaceId, role)])),
             Entry(ADD_USER_TO_WORKSPACE, userId, workspaceId), fault)
  }

  function RemoveUser(st: State, workspaceId: Id, removedId: Id, userId: Id, fault: Fault): (Reply, State) {
    if workspaceId !in st.dir.workspaces then (NotFound, st)
    else if !MayManageMembers(st.dir, userId, workspaceId) then (Forbidden, st)
    else if IsOwner(st.dir, removedId, workspaceId) then (BadRequest, st)
    else if !IsMember(st.dir, removedId, workspaceId) then (NotFound, st)
    else if fault == WriteFails then (BadRequest, st)
    else
      Logged(st.(dir := st.dir.(memberships := WithoutMember(st.dir.memberships, removedId, workspaceId))),
             Entry(REMOVE_USER_FROM_WORKSPACE, userId, workspaceId), fault)
  }

  function WithoutMember(ms: seq<Membership>, userId: Id, workspaceId: Id): seq<Membership> {
    Filter((m: Membership) => !(m.userId == userId && m.workspaceId == workspaceId), ms)
  }

  /* ---------- reading ---------- */

  function FindOne(dir: Directory, id: Id, userId: Id): Reply {
    if id !in dir.workspaces then NotFound
    else if dir.workspaces[id].ownerId != userId && !(exists m :: m in dir.memberships && m.workspaceId == id && m.userId == userId) then Forbidden
    else Ok
  }

  /** `owned` is what the query for the user's own workspaces may return. */
  ghost predicate OwnedBy(owned: seq<Id>, dir: Directory, userId: Id) {
    NoDuplicates(owned) && forall id :: id in owned <==> IsOwner(dir, userId, id)
  }

  function MemberIds(ms: seq<Membership>, userId: Id): seq<Id> {
    if ms == [] then [] else (if ms[0].userId == userId then [ms[0].workspaceId] else []) + MemberIds(ms[1..], userId)
  }

  /** Owned workspaces, then those of the user's memberships, each id once. */
  function FindAll(owned: seq<Id>, dir: Directory, userId: Id): seq<Id> {
    Distinct(owned + MemberIds(dir.memberships, userId))
  }

  lemma {:induction false} MemberIdsMeaning(ms: seq<Membership>, userId: Id, id: Id)
    ensures id in MemberIds(ms, userId) <==> exists m :: m in ms && m.userId == userId && m.workspaceId == id
  {
    if ms != [] {
      MemberIdsMeaning(ms[1..], userId, id);
      assert ms == [ms[0]] + ms[1..];
      if ms[0].userId == userId && ms[0].workspaceId == id { assert ms[0] in ms; }
    }
  }

  /* ---------- invariants ---------- */

  /** Membership rows are unique, and every row refers to existing rows. */
  ghost predicate Sound(st: State) {
    && UniqueMemberships(st.dir.memberships)
    && st.inUse <= st.dir.workspaces.Keys
    && (forall a :: a in st.assignments && a.workspaceId.Some? ==> a.workspaceId.value in st.dir.workspaces)
    && (forall id :: id in st.dir.workspaces ==> KnownRepository(st.dir, st.dir.workspaces[id].repositoryId))
    && (forall m :: m in st.dir.memberships ==> m.userId in st.dir.users && m.workspaceId in st.dir.workspaces)
    && (forall id :: id in st.dir.workspaces ==> st.dir.workspaces[id].ownerId in st.dir.users)
    && (forall e :: e in st.byEmail ==> st.byEmail[e] in st.dir.users)
  }

  /** The list and the single read agree: a workspace is listed for a user exactly
      when opening it succeeds, and no workspace is listed twice. */
  lemma ListedExactlyIfOpenable(st: State, owned: seq<Id>, userId: Id, id: Id)
    requires Sound(st) && OwnedBy(owned, st.dir, userId)
    ensures id in FindAll(owned, st.dir, userId) <==> FindOne(st.dir, id, userId) == Ok
    ensures NoDuplicates(FindAll(owned, st.dir, userId))
  {
    var ids := MemberIds(st.dir.memberships, userId);
    MemberIdsMeaning(st.dir.memberships, userId, id);
    assert id in FindAll(owned, st.dir, userId) <==> id in owned || id in ids;
    MembersExist(st, userId, id);
  }

  /** Whoever may open a workspace by a membership row, that workspace exists. */
  lemma MembersExist(st: State, userId: Id, id: Id)
    requires Sound(st)
    ensures FindOne(st.dir, id, userId) == Ok
       <==> IsOwner(st.dir, userId, id) || exists m :: m in st.dir.memberships && m.userId == userId && m.workspaceId == id
  {
    if m :| m in st.dir.memberships && m.userId == userId && m.workspaceId == id {
      assert id in st.dir.workspaces;
      assert exists x :: x in st.dir.memberships && x.workspaceId == id && x.userId == userId;
    }
  }

  /** Other services meanwhile change role assignments and create scans and schedules. */
  datatype Event =
    | Created(name: string, repositoryId: Option<Id>, userId: Id, newId: Id, fault: Fault)
    | Updated(id: Id, dto: UpdateDto, userId: Id, fault: Fault)
    | Deleted(id: Id, userId: Id, fault: Fault)
    | UserAdded(workspaceId: Id, email: string, role: WorkspaceRole, userId: Id, fault: Fault)
    | UserRemoved(workspaceId: Id, removedId: Id, userId: Id, fault: Fault)
    | OthersActed(assignments: seq<Assignment>, inUse: set<Id>)

  function Call(st: State, e: Event): (Reply, State) {
    match e
    case Created(name, repo, u, newId, fault) => Create(st, name, repo, u, newId, fault)
    case Updated(id, dto, u, fault) => Update(st, id, dto, u, fault)
    case Deleted(id, u, fault) => Delete(st, id, u, fault)
    case UserAdded(ws, email, role, u, fault) => AddUser(st, ws, email, role, u, fault)
    case UserRemoved(ws, v, u, fault) => RemoveUser(st, ws, v, u, fault)
    case OthersActed(rows, inUse) => (Ok, st.(assignments := rows, inUse := inUse))
  }

  ghost predicate Enabled(st: State, e: Event) {
    && (e.Created? ==> e.newId !in st.dir.workspaces)
    && (e.OthersActed? ==> Sound(st.(assignments := e.assignments, inUse := e.inUse)))
  }

  lemma {:induction false} FilterUnique(p: Membership -> bool, ms: seq<Membership>)
    requires UniqueMemberships(ms)
    ensures UniqueMemberships(Filter(p, ms))
  {
    if ms != [] {
      FilterUnique(p, ms[1..]);
      var rest := Filter(p, ms[1..]);
      if p(ms[0]) {
        forall m | m in rest ensures ms[0].userId != m.userId || ms[0].workspaceId != m.workspaceId {
          var j :| 1 <= j < |ms| && ms[j] == m;
        }
        assert Filter(p, ms) == [ms[0]] + rest;
      } else {
        assert Filter(p, ms) == rest;
      }
    }
  }

  lemma AddUserKeepsSound(st: State, ws: Id, email: string, role: WorkspaceRole, userId: Id, fault: Fault)
    requires Sound(st)
    ensures Sound(AddUser(st, ws, email, role, userId, fault).1)
  {
    if email in st.byEmail && !IsMember(st.dir, st.byEmail[email], ws) {
      assert forall m :: m in st.dir.memberships ==> m.userId != st.byEmail[email] || m.workspaceId != ws;
    }
  }

  lemma RemoveUserKeepsSound(st: State, ws: Id, removedId: Id, userId: Id, fault: Fault)
    requires Sound(st)
    ensures Sound(RemoveUser(st, ws, removedId, userId, fault).1)
  {
    FilterUnique((m: Membership) => !(m.userId == removedId && m.workspaceId == ws), st.dir.memberships);
  }

  lemma DeleteKeepsSound(st: State, id: Id, userId: Id, fault: Fault)
    requires Sound(st)
    ensures Sound(Delete(st, id, userId, fault).1)
  {
    FilterUnique((m: Membership) => m.workspaceId != id, st.dir.memberships);
  }

  lemma CallKeepsSound(st: State, e: Event)
    requires Sound(st) && Enabled(st, e)
    ensures Sound(Call(st, e).1)
  {
    match e {
      case Deleted(id, u, fault) => DeleteKeepsSound(st, id, u, fault);
      case UserRemoved(ws, v, u, fault) => RemoveUserKeepsSound(st, ws, v, u, fault);
      case UserAdded(ws, email, role, u, fault) => AddUserKeepsSound(st, ws, email, role, u, fault);
      case _ =>
    }
  }

  ghost predicate Run(sts: seq<State>, es: seq<Event>) {
    |sts| == |es| + 1 && Sound(sts[0]) && sts[0].dir.memberships == []
    && forall i :: 0 <= i < |es| ==> Enabled(sts[i], es[i]) && sts[i + 1] == Call(sts[i], es[i]).1
  }

  /** In every reachable state membership rows are unique, and a workspace is listed
      for a user exactly when the user may open it. */
  lemma {:induction false} EveryRunAgrees(sts: seq<State>, es: seq<Event>, i: nat, owned: seq<Id>, userId: Id, id: Id)
    requires Run(sts, es) && i < |sts| && OwnedBy(owned, sts[i].dir, userId)
    ensures UniqueMemberships(sts[i].dir.memberships)
    ensures id in FindAll(owned, sts[i].dir, userId) <==> FindOne(sts[i].dir, id, userId) == Ok
    ensures NoDuplicates(FindAll(owned, sts[i].dir, userId))
  {
    RunIsSound(sts, es, i);
    ListedExactlyIfOpenable(sts[i], owned, userId, id);
  }

  lemma {:induction false} RunIsSound(sts: seq<State>, es: seq<Event>, i: nat)
    requires Run(sts, es) && i < |sts|
    ensures Sound(sts[i])
  {
    if i > 0 {
      RunIsSound(sts, es, i - 1);
      CallKeepsSound(sts[i - 1], es[i - 1]);
    }
  }

  /** Whose access a call changes, and to what. */
  function AccessAfter(st: State, e: Event, userId: Id, id: Id): bool {
    var before := FindOne(st.dir, id, userId) == Ok;
    match e
    case Created(_, _, u, newId, _) => before || (id == newId && userId == u)
    case Updated(_, _, _, _) => before
    case OthersActed(_, _) => before
    case Deleted(gone, _, _) => before && id != gone
    case UserAdded(ws, email, _, _, _) => before || (id == ws && email in st.byEmail && userId == st.byEmail[email])
    case UserRemoved(ws, v, _, _) => before && !(id == ws && userId == v)
  }

  /** A successful call changes exactly the access it names: adding a user grants that
      user that workspace, removing ends it, deleting ends everybody's, and nobody
      else's access to anything changes. A call that is refused changes no access; one
      that fails on its audit entry has still changed it, except a deletion. */
  lemma AccessChangesExactly(st: State, e: Event, userId: Id, id: Id)
    requires Sound(st) && Enabled(st, e)
    ensures var (reply, st') := Call(st, e);
            FindOne(st'.dir, id, userId) == Ok <==>
              if st'.dir != st.dir then AccessAfter(st, e, userId, id) else FindOne(st.dir, id, userId) == Ok
    ensures var (reply, st') := Call(st, e);
            && (reply == Ok && !e.Updated? && !e.OthersActed? ==> st'.dir != st.dir)
            && (reply != Ok && st'.dir != st.dir ==> !e.OthersActed? && e.fault == AuditFails && !e.Deleted?)
  {
    match e {
      case UserAdded(ws, email, role, u, fault) => AddUserAccess(st, e, userId, id);
      case UserRemoved(ws, v, u, fault) => RemoveUserAccess(st, e, userId, id);
      case Deleted(gone, u, fault) => DeleteAccess(st, e, userId, id);
      case _ =>
    }
  }

  lemma AddUserAccess(st: State, e: Event, userId: Id, id: Id)
    requires e.UserAdded? && Sound(st)
    ensures var st' := Call(st, e).1;
            st'.dir != st.dir ==> (FindOne(st'.dir, id, userId) == Ok <==> AccessAfter(st, e, userId, id))
    ensures Call(st, e).0 == Ok ==> Call(st, e).1.dir != st.dir
  {
    var st' := Call(st, e).1;
    if !(e.workspaceId !in st.dir.workspaces || e.email !in st.byEmail) {
      var row := Membership(st.byEmail[e.email], e.workspaceId, e.role);
      assert |st.dir.memberships + [row]| != |st.dir.memberships|;
      if st'.dir != st.dir {
        assert row in st'.dir.memberships;
        if id != row.workspaceId || userId != row.userId { SameMembers(st.dir, st'.dir, userId, id); }
      }
    }
  }

  lemma RemoveUserAccess(st: State, e: Event, userId: Id, id: Id)
    requires e.UserRemoved? && Sound(st)
    ensures var st' := Call(st, e).1;
            st'.dir != st.dir ==> (FindOne(st'.dir, id, userId) == Ok <==> AccessAfter(st, e, userId, id))
    ensures Call(st, e).0 == Ok ==> Call(st, e).1.dir != st.dir
  {
    var st' := Call(st, e).1;
    if id != e.workspaceId || userId != e.removedId { SameMembers(st.dir, st'.dir, userId, id); }
  }

  lemma DeleteAccess(st: State, e: Event, userId: Id, id: Id)
    requires e.Deleted? && Sound(st)
    ensures var st' := Call(st, e).1;
            st'.dir != st.dir ==> (FindOne(st'.dir, id, userId) == Ok <==> AccessAfter(st, e, userId, id))
    ensures Call(st, e).0 == Ok ==> Call(st, e).1.dir != st.dir
  {
    if id != e.id { SameMembers(st.dir, Call(st, e).1.dir, userId, id); }
  }

  /** Membership of one user in one workspace depends on the rows for that pair only. */
  lemma SameMembers(d: Directory, d': Directory, userId: Id, id: Id)
    requires forall m: Membership :: m.userId == userId && m.workspaceId == id ==> (m in d.memberships <==> m in d'.memberships)
    ensures IsMember(d, userId, id) <==> IsMember(d', userId, id)
  {
  }

  /* ---------- what each call does, exactly ---------- */

  ghost predicate OwnedByUser(st: State, id: Id, userId: Id) {
    id in st.dir.workspaces && st.dir.workspaces[id].ownerId == userId
  }

  /** Owners and members with the role ADMIN, and nobody else, change memberships. */
  ghost predicate ManagesMembers(st: State, id: Id, userId: Id) {
    OwnedByUser(st, id, userId) || Membership(userId, id, ADMIN) in st.dir.memberships
  }

  ghost predicate HasRow(st: State, id: Id, userId: Id) {
    exists m :: m in st.dir.memberships && m.userId == userId && m.workspaceId == id
  }

  lemma AddExactly(st: State, id: Id, email: string, role: WorkspaceRole, userId: Id, fault: Fault)
    ensures var (reply, st') := AddUser(st, id, email, role, userId, fault);
            if id !in st.dir.workspaces then reply == NotFound && st' == st
            else if !ManagesMembers(st, id, userId) then reply == Forbidden && st' == st
            else if email !in st.byEmail then reply == NotFound && st' == st
            else if HasRow(st, id, st.byEmail[email]) || fault == WriteFails then reply == BadRequest && st' == st
            else
              && (reply == if fault == AuditFails then BadRequest else Ok)
              && st' == st.(dir := st.dir.(memberships := st.dir.memberships + [Membership(st.byEmail[email], id, role)]),
                            audit := if reply == Ok then st.audit + [Entry(ADD_USER_TO_WORKSPACE, userId, id)] else st.audit)
  {
  }

  lemma RemoveExactly(st: State, id: Id, removedId: Id, userId: Id, fault: Fault)
    ensures var (reply, st') := RemoveUser(st, id, removedId, userId, fault);
            if id !in st.dir.workspaces then reply == NotFound && st' == st
            else if !ManagesMembers(st, id, userId) then reply == Forbidden && st' == st
            else if OwnedByUser(st, id, removedId) then reply == BadRequest && st' == st
            else if !HasRow(st, id, removedId) then reply == NotFound && st' == st
            else if fault == WriteFails then reply == BadRequest && st' == st
            else
              && (reply == if fault == AuditFails then BadRequest else Ok)
              && st' == st.(dir := st.dir.(memberships := st'.dir.memberships),
                            audit := if reply == Ok then st.audit + [Entry(REMOVE_USER_FROM_WORKSPACE, userId, id)] else st.audit)
              && st'.dir.memberships == Filter((m: Membership) => m.userId != removedId || m.workspaceId != id, st.dir.memberships)
  {
    FilterCongruence((m: Membership) => !(m.userId == removedId && m.workspaceId == id),
                     (m: Membership) => m.userId != removedId || m.workspaceId != id, st.dir.memberships);
  }

  /** A workspace is created by anybody who exists, and changed and deleted by its owner. */
  lemma OwnersActExactly(st: State, id: Id, name: string, repositoryId: Option<Id>, dto: UpdateDto, userId: Id, fault: Fault)
    ensures var (reply, st') := Create(st, name, repositoryId, userId, id, fault);
            if fault == WriteFails || userId !in st.dir.users || (repositoryId.Some? && repositoryId.value !in st.dir.repositories)
            then reply == BadRequest && st' == st
            else
              && (reply == if fault == AuditFails then BadRequest else Ok)
              && st' == st.(dir := st.dir.(workspaces := st.dir.workspaces[id := Workspace(name, userId, repositoryId)]),
                            audit := if reply == Ok then st.audit + [Entry(CREATE_WORKSPACE, userId, id)] else st.audit)
    ensures var (reply, st') := Update(st, id, dto, userId, fault);
            if id !in st.dir.workspaces then reply == NotFound && st' == st
            else if !OwnedByUser(st, id, userId) then reply == Forbidden && st' == st
            else if fault == WriteFails || dto.name.Null? || (dto.repositoryId.Given? && dto.repositoryId.value !in st.dir.repositories)
            then reply == BadRequest && st' == st
            else
              var ws := st.dir.workspaces[id];
              && (reply == if fault == AuditFails then BadRequest else Ok)
              && st' == st.(dir := st.dir.(workspaces := st.dir.workspaces[id := Workspace(
                              if dto.name.Given? then dto.name.value else ws.name, userId,
                              if dto.repositoryId.Absent? then ws.repositoryId else if dto.repositoryId.Null? then None else Some(dto.repositoryId.value))]),
                            audit := if reply == Ok then st.audit + [Entry(UPDATE_WORKSPACE, userId, id)] else st.audit)
    ensures var (reply, st') := Delete(st, id, userId, fault);
            if id !in st.dir.workspaces then reply == NotFound && st' == st
            else if !OwnedByUser(st, id, userId) then reply == Forbidden && st' == st
            else if fault == AuditFails then reply == BadRequest && st' == st
            else
              && st'.audit == st.audit + [Entry(DELETE_WORKSPACE, userId, id)]
              && if fault == WriteFails || id in st.inUse then reply == BadRequest && st' == st.(audit := st'.audit)
                 else reply == Ok && WithoutWorkspace(st, st', id)
  {
  }

  /** The workspace is gone, with its memberships and role assignments; nothing else is. */
  ghost predicate WithoutWorkspace(st: State, st': State, id: Id) {
    && st' == st.(dir := st.dir.(workspaces := st'.dir.workspaces, memberships := st'.dir.memberships), assignments := st'.assignments, audit := st'.audit)
    && (forall x :: x in st'.dir.workspaces <==> x in st.dir.workspaces && x != id)
    && (forall x :: x in st'.dir.workspaces ==> st'.dir.workspaces[x] == st.dir.workspaces[x])
    && (forall m :: m in st'.dir.memberships <==> m in st.dir.memberships && m.workspaceId != id)
    && (forall a :: a in st'.assignments <==> a in st.assignments && a.workspaceId != Some(id))
  }

  /** Opening a workspace: NotFound exactly when it does not exist, and otherwise allowed
      exactly to its owner and those with a membership row. */
  lemma OpensExactly(st: State, id: Id, userId: Id)
    ensures FindOne(st.dir, id, userId)
         == if id !in st.dir.workspaces then NotFound
            else if OwnedByUser(st, id, userId) || HasRow(st, id, userId) then Ok else Forbidden
  {
    if HasRow(st, id, userId) {
      var m :| m in st.dir.memberships && m.userId == userId && m.workspaceId == id;
      assert exists x :: x in st.dir.memberships && x.workspaceId == id && x.userId == userId;
    }
  }

  /** The owner can never be removed. */
  lemma OwnerStays(st: State, workspaceId: Id, ownerId: Id, userId: Id, fault: Fault)
    requires IsOwner(st.dir, ownerId, workspaceId)
    ensures RemoveUser(st, workspaceId, ownerId, userId, fault).0 != Ok
    ensures RemoveUser(st, workspaceId, ownerId, userId, fault).1 == st
  {
  }

  /** What the permission service reads of a state. */
  function DbOf(st: State, permissions: seq<Permission>, roles: map<Id, Role>): Db {
    Db(st.dir, permissions, roles, st.assignments)
  }

  /** Adding and removing members touches no role: the permission decision for every
      user, code and workspace is what it was, also for the user just removed. */
  lemma MembershipGrantsNoPermission(st: State, e: Event, permissions: seq<Permission>, roles: map<Id, Role>,
                                     userId: Id, code: string, workspaceId: Option<Id>)
    requires e.UserAdded? || e.UserRemoved?
    ensures Decide(DbOf(Call(st, e).1, permissions, roles), userId, code, workspaceId)
         == Decide(DbOf(st, permissions, roles), userId, code, workspaceId)
  {
    var db, db' := DbOf(st, permissions, roles), DbOf(Call(st, e).1, permissions, roles);
    MembershipsTouched(st, e);
    SameScopedCodes(db, db', db.assignments, userId, Global);
    if Truthy(workspaceId) { SameScopedCodes(db, db', db.assignments, userId, Within(workspaceId.value)); }
  }

  lemma MembershipsTouched(st: State, e: Event)
    requires e.UserAdded? || e.UserRemoved?
    ensures var st' := Call(st, e).1;
            st' == st.(dir := st.dir.(memberships := st'.dir.memberships), audit := st'.audit)
  {
  }

  /** Deleting a workspace takes its roles along: in the deleted workspace a user is
      left with what SUPER or a global role grants, and every decision elsewhere is what
      it was. A deletion succeeds exactly when its owner asks, nothing refers to the
      workspace, and no call throws. */
  lemma DeletionTakesRoles(st: State, id: Id, actorId: Id, fault: Fault, permissions: seq<Permission>, roles: map<Id, Role>,
                           userId: Id, code: string, workspaceId: Option<Id>)
    requires id != ""
    ensures Delete(st, id, actorId, fault).0 == Ok <==> IsOwner(st.dir, actorId, id) && id !in st.inUse && fault == NoFault
    ensures var db, db' := DbOf(st, permissions, roles), DbOf(Delete(st, id, actorId, fault).1, permissions, roles);
            Decide(db', userId, code, workspaceId)
            == Decide(db, userId, code, if Delete(st, id, actorId, fault).0 == Ok && workspaceId == Some(id) then None else workspaceId)
  {
    var st' := Delete(st, id, actorId, fault).1;
    var db, db' := DbOf(st, permissions, roles), DbOf(st', permissions, roles);
    if Delete(st, id, actorId, fault).0 == Ok {
      CodesElsewhere(db, db', st.assignments, id, userId, Global);
      if Truthy(workspaceId) { CodesElsewhere(db, db', st.assignments, id, userId, Within(workspaceId.value)); }
    } else {
      SameScopedCodes(db, db', db.assignments, userId, Global);
      if Truthy(workspaceId) { SameScopedCodes(db, db', db.assignments, userId, Within(workspaceId.value)); }
    }
  }

  /** Without a workspace's assignments, its scope holds no code and no other changes. */
  lemma {:induction false} CodesElsewhere(db: Db, db': Db, rows: seq<Assignment>, id: Id, userId: Id, scope: Scope)
    requires db.roles == db'.roles && (scope == Global ==> id != "")
    ensures ScopedCodes(db', RolesElsewhere(rows, id), userId, scope)
         == if scope == Within(id) then [] else ScopedCodes(db, rows, userId, scope)
  {
    if rows != [] {
      CodesElsewhere(db, db', rows[1..], id, userId, scope);
      var rest := RolesElsewhere(rows[1..], id);
      if rows[0].workspaceId != Some(id) {
        assert RolesElsewhere(rows, id) == [rows[0]] + rest;
        CodesOfOneMore(db', rows[0], rest, userId, scope);
      } else {
        assert RolesElsewhere(rows, id) == rest;
      }
      assert rows == [rows[0]] + rows[1..];
      CodesOfOneMore(db, rows[0], rows[1..], userId, scope);
    }
  }

  lemma CodesOfOneMore(db: Db, a: Assignment, rest: seq<Assignment>, userId: Id, scope: Scope)
    ensures ScopedCodes(db, [a] + rest, userId, scope)
         == (if a.userId == userId && InScope(a, scope) then CodesOfRole(db, a.roleId) else []) + ScopedCodes(db, rest, userId, scope)
  {
    assert ([a] + rest)[1..] == rest;
  }

  lemma {:induction false} SameScopedCodes(db: Db, db': Db, rows: seq<Assignment>, userId: Id, scope: Scope)
    requires db.roles == db'.roles
    ensures ScopedCodes(db, rows, userId, scope) == ScopedCodes(db', rows, userId, scope)
  {
    if rows != [] { SameScopedCodes(db, db', rows[1..], userId, scope); }
  }

  /* ---------- the service ---------- */

  class WorkspacesService {
    var dir: Directory
    var assignments: seq<Assignment>
    var byEmail: map<string, Id>
    var inUse: set<Id>
    var audit: seq<Entry>

    constructor (dir: Directory, byEmail: map<string, Id>)
      ensures Current() == State(dir, [], byEmail, {}, [])
    {
      this.dir := dir;
      this.byEmail := byEmail;
      assignments, inUse, audit := [], {}, [];
    }

    function Current(): State
      reads this
    {
      State(dir, assignments, byEmail, inUse, audit)
    }

    method AddMember(workspaceId: Id, email: string, role: WorkspaceRole, userId: Id, fault: Fault) returns (reply: Reply)
      modifies this
      ensures (reply, Current()) == AddUser(old(Current()), workspaceId, email, role, userId, fault)
    {
      if workspaceId !in dir.workspaces { return NotFound; }
      if dir.workspaces[workspaceId].ownerId != userId {
        if Membership(userId, workspaceId, ADMIN) !in dir.memberships { return Forbidden; }
      }
      if email !in byEmail { return NotFound; }
      var added := byEmail[email];
      if IsMember(dir, added, workspaceId) { return BadRequest; }
      if fault == WriteFails { return BadRequest; }
      dir := dir.(memberships := dir.memberships + [Membership(added, workspaceId, role)]);
      if fault == AuditFails { return BadRequest; }
      audit := audit + [Entry(ADD_USER_TO_WORKSPACE, userId, workspaceId)];
      return Ok;
    }

    method RemoveMember(workspaceId: Id, removedId: Id, userId: Id, fault: Fault) returns (reply: Reply)
      modifies this
      ensures (reply, Current()) == RemoveUser(old(Current()), workspaceId, removedId, userId, fault)
    {
      if workspaceId !in dir.workspaces { return NotFound; }
      if dir.workspaces[workspaceId].ownerId != userId {
        if Membership(userId, workspaceId, ADMIN) !in dir.memberships { return Forbidden; }
      }
      if dir.workspaces[workspaceId].ownerId == removedId { return BadRequest; }
      if !IsMember(dir, removedId, workspaceId) { return NotFound; }
      if fault == WriteFails { return BadRequest; }
      dir := dir.(memberships := WithoutMember(dir.memberships, removedId, workspaceId));
      if fault == AuditFails { return BadRequest; }
      audit := audit + [Entry(REMOVE_USER_FROM_WORKSPACE, userId, workspaceId)];
      return Ok;
    }

    method CreateWorkspace(name: string, repositoryId: Option<Id>, userId: Id, newId: Id, fault: Fault) returns (reply: Reply)
      modifies this
      ensures (reply, Current()) == Create(old(Current()), name, repositoryId, userId, newId, fault)
    {
      if userId !in dir.users || fault == WriteFails { return BadRequest; }
      if repositoryId.Some? && repositoryId.value !in dir.repositories { return BadRequest; }
      dir := dir.(workspaces := dir.workspaces[newId := Workspace(name, userId, repositoryId)]);
      if fault == AuditFails { return BadRequest; }
      audit := audit + [Entry(CREATE_WORKSPACE, userId, newId)];
      return Ok;
    }

    method UpdateWorkspace(id: Id, dto: UpdateDto, userId: Id, fault: Fault) returns (reply: Reply)
      modifies this
      ensures (reply, Current()) == Update(old(Current()), id, dto, userId, fault)
    {
      if id !in dir.workspaces { return NotFound; }
      var after := dir.workspaces[id];
      if after.ownerId != userId { return Forbidden; }
      if fault == WriteFails || dto.name.Null? { return BadRequest; }
      match dto.repositoryId {
        case Absent =>
        case Null => after := after.(repositoryId := None);
        case Given(r) =>
          if r !in dir.repositories { return BadRequest; }
          after := after.(repositoryId := Some(r));
      }
      if dto.name.Given? {
        after := after.(name := dto.name.value);
      }
      dir := dir.(workspaces := dir.workspaces[id := after]);
      if fault == AuditFails { return BadRequest; }
      audit := audit + [Entry(UPDATE_WORKSPACE, userId, id)];
      return Ok;
    }

    method RemoveWorkspace(id: Id, userId: Id, fault: Fault) returns (reply: Reply)
      modifies this
      ensures (reply, Current()) == Delete(old(Current()), id, userId, fault)
    {
      if id !in dir.workspaces { return NotFound; }
      if dir.workspaces[id].ownerId != userId { return Forbidden; }
      if fault == AuditFails { return BadRequest; }
      audit := audit + [Entry(DELETE_WORKSPACE, userId, id)];
      if fault == WriteFails || id in inUse { return BadRequest; }
      dir := dir.(workspaces := dir.workspaces - {id}, memberships := MembersElsewhere(dir.memberships, id));
      assignments := RolesElsewhere(assignments, id);
      return Ok;
    }
  }
}
