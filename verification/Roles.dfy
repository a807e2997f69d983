/** Assigning, removing and changing the roles of a user in one workspace. */
module Roles {
  import opened Common
  import opened Directories
  import opened Access
  import opened PermissionCache
  import opened PermissionsServices
  import opened SlowReads

  const MANAGE_ROLES := "WORKSPACE:MANAGE_ROLES"

  datatype Outcome = Done | NotFound | Forbidden | BadRequest

  predicate Holds(db: Db, userId: Id, roleId: Id, workspaceId: Id) {
    exists a :: a in db.assignments && Matches(a, userId, roleId, workspaceId)
  }

  predicate Matches(a: Assignment, userId: Id, roleId: Id, workspaceId: Id) {
    a.userId == userId && a.roleId == roleId && a.workspaceId == Some(workspaceId)
  }

  /** The call that fails while a role call runs: one inside the check of the actor, the
      write of the row, the audit entry, the invalidation after some number of keys, or
      the commit of the transaction. */
  datatype Failure = NoFailure | CheckFails(at: Fault) | WriteFails | AuditFails | ClearFails(after: nat) | CommitFails

  /** A workspace-scoped call. */
  datatype Call =
    | AssignCall(actorId: Id, userId: Id, roleId: Id, workspaceId: Id, newId: nat, failure: Failure)
    | RemoveCall(actorId: Id, userId: Id, roleId: Id, workspaceId: Id, failure: Failure)
    | ChangeCall(actorId: Id, userId: Id, roleId: Id, workspaceId: Id, newId: nat, failure: Failure)

  function CheckFault(failure: Failure): Fault {
    if failure.CheckFails? then failure.at else NoFault
  }

  function ClearFault(failure: Failure): Option<nat> {
    if failure.ClearFails? then Some(failure.after) else None
  }

  /** `verifyAssignerPermission`: owners pass, others are checked; with the world left. */
  function Verify(w: World, assignerId: Id, workspaceId: Id, fault: Fault): (bool, World) {
    if IsOwner(w.db.dir, assignerId, workspaceId) then (true, w)
    else Check(w, assignerId, MANAGE_ROLES, Some(workspaceId), fault)
  }

  function CheckQuery(assignerId: Id, workspaceId: Id): Query {
    HasPermission(assignerId, MANAGE_ROLES, Some(workspaceId), None)
  }

  predicate MayAssign(w: World, call: Call) {
    Verify(w, call.actorId, call.workspaceId, CheckFault(call.failure)).0
  }

  function Checked(w: World, call: Call): World {
    Verify(w, call.actorId, call.workspaceId, CheckFault(call.failure)).1
  }

  function Granted(call: Call): Assignment
    requires !call.RemoveCall?
  {
    Assignment(call.newId, call.userId, call.roleId, Some(call.workspaceId))
  }

  /** The assignments a call leaves once all its checks have passed. */
  function NewAssignments(db: Db, call: Call): seq<Assignment> {
    match call
    case AssignCall(_, _, _, _, _, _) => db.assignments + [Granted(call)]
    case RemoveCall(_, u, r, ws, _) => Filter((a: Assignment) => !Matches(a, u, r, ws), db.assignments)
    case ChangeCall(_, u, _, ws, _, _) =>
      OutsideOf(db.assignments, u, ws) + [Granted(call)]
  }

  function RowsIn(rows: seq<Assignment>, userId: Id, workspaceId: Id): seq<Assignment> {
    Filter((a: Assignment) => a.userId == userId && a.workspaceId == Some(workspaceId), rows)
  }

  function OutsideOf(rows: seq<Assignment>, userId: Id, workspaceId: Id): seq<Assignment> {
    Filter((a: Assignment) => !(a.userId == userId && a.workspaceId == Some(workspaceId)), rows)
  }

  /** The first check that fails, in the order of the service. */
  function Refusal(w: World, call: Call): Option<Outcome> {
    var db := w.db;
    match call
    case AssignCall(_, u, r, ws, _, _) =>
      if u !in db.dir.users || r !in db.roles || ws !in db.dir.workspaces then Some(NotFound)
      else if !MayAssign(w, call) then Some(Forbidden)
      else if Holds(db, u, r, ws) then Some(BadRequest)
      else None
    case RemoveCall(_, u, r, ws, _) =>
      if !Holds(db, u, r, ws) then Some(NotFound)
      else if !MayAssign(w, call) then Some(Forbidden)
      else None
    case ChangeCall(_, u, r, ws, _, _) =>
      if r !in db.roles then Some(NotFound)
      else if !MayAssign(w, call) then Some(Forbidden)
      else if Holds(db, u, r, ws) then Some(BadRequest)
      // inside the transaction: the foreign keys of the new row
      else if u !in db.dir.users || ws !in db.dir.workspaces then Some(BadRequest)
      else None
  }

  /** A failure after the checks: only a change has a commit, and an invalidation fails
      only before it has dropped every key. */
  predicate Interrupted(db: Db, call: Call) {
    match call.failure
    case WriteFails => true
    case AuditFails => true
    case ClearFails(n) => n < |KeysToClear(db, call.userId)|
    case CommitFails => call.ChangeCall?
    case _ => false
  }

  /** The interruptions that come after the row is written. A change rolls it back. */
  predicate RowsStay(db: Db, call: Call) {
    !call.ChangeCall? && Interrupted(db, call) && !call.failure.WriteFails?
  }

  /** How many of the user's keys a call that passes its checks drops. */
  function KeysDropped(db: Db, call: Call): (n: nat)
    ensures n <= |KeysToClear(db, call.userId)|
  {
    match call.failure
    case WriteFails => 0
    case AuditFails => 0
    case ClearFails(n) => if n < |KeysToClear(db, call.userId)| then n else |KeysToClear(db, call.userId)|
    case _ => |KeysToClear(db, call.userId)|
  }

  /** The outcome of a call and the world after it. */
  function Perform(w: World, call: Call): (Outcome, World) {
    var reason := Refusal(w, call);
    var checked := if reason == Some(NotFound) then w else Checked(w, call);
    if reason.Some? then (reason.value, checked)
    else
      var stopped := Interrupted(w.db, call);
      var rows := if stopped && !RowsStay(w.db, call) then w.db.assignments else NewAssignments(w.db, call);
      (if stopped then BadRequest else Done, ClearFirst(WithRows(checked, rows), call.userId, KeysDropped(w.db, call)))
  }

  function WithRows(w: World, rows: seq<Assignment>): World {
    w.(db := w.db.(assignments := rows))
  }

  /** The world a call leaves when its check refuses nothing, failure by failure. */
  lemma AfterChecks(w: World, call: Call)
    requires Refusal(w, call).None?
    ensures var checked, written := Checked(w, call), WithRows(Checked(w, call), NewAssignments(w.db, call));
            match call.failure
            case WriteFails => Perform(w, call) == (BadRequest, checked)
            case AuditFails => Perform(w, call) == (BadRequest, if call.ChangeCall? then checked else written)
            case CommitFails => call.ChangeCall? ==> Perform(w, call) == (BadRequest, Clear(checked, call.userId))
            case ClearFails(n) =>
              n < |KeysToClear(checked.db, call.userId)| ==>
                Perform(w, call) == (BadRequest, ClearFirst(if call.ChangeCall? then checked else written, call.userId, n))
            case _ => true
    ensures !Interrupted(w.db, call) ==> Perform(w, call) == (Done, Clear(WithRows(Checked(w, call), NewAssignments(w.db, call)), call.userId))
  {
    var checked := Checked(w, call);
    SameKeys(checked, NewAssignments(w.db, call), call.userId);
    assert WithRows(checked, w.db.assignments) == checked;
  }

  /** Rows do not decide which keys a user has, and dropping none of them is no change. */
  lemma SameKeys(w: World, rows: seq<Assignment>, userId: Id)
    ensures KeysToClear(WithRows(w, rows).db, userId) == KeysToClear(w.db, userId)
    ensures ClearFirst(w, userId, 0) == w && ClearFirst(WithRows(w, rows), userId, 0) == WithRows(w, rows)
  {
    assert Elements([]) == {};
    assert KeysToClear(w.db, userId)[..0] == [];
  }

  /* ---------- the stored rows ---------- */

  /** Row ids and (user, role, workspace) are unique; rows refer to existing data. */
  ghost predicate Sound(db: Db) {
    RowsApart(db.assignments)
    && (forall a :: a in db.assignments ==>
          a.userId in db.dir.users && a.roleId in db.roles
          && (a.workspaceId.Some? ==> a.workspaceId.value in db.dir.workspaces))
  }

  predicate Apart(a: Assignment, b: Assignment) {
    a.id != b.id && (a.workspaceId.Some? ==> a.userId != b.userId || a.roleId != b.roleId || a.workspaceId != b.workspaceId)
  }

  ghost predicate RowsApart(rows: seq<Assignment>) {
    forall i, j :: 0 <= i < j < |rows| ==> Apart(rows[i], rows[j])
  }

  lemma {:induction false} FilterRowsApart(p: Assignment -> bool, rows: seq<Assignment>)
    requires RowsApart(rows)
    ensures RowsApart(Filter(p, rows))
  {
    if rows != [] {
      FilterRowsApart(p, rows[1..]);
      var rest := Filter(p, rows[1..]);
      if p(rows[0]) {
        forall a | a in rest ensures Apart(rows[0], a) {
          var j :| 1 <= j < |rows| && rows[j] == a;
        }
        assert Filter(p, rows) == [rows[0]] + rest;
      } else {
        assert Filter(p, rows) == rest;
      }
    }
  }

  lemma AppendRowApart(rows: seq<Assignment>, row: Assignment)
    requires RowsApart(rows) && forall a :: a in rows ==> Apart(a, row)
    ensures RowsApart(rows + [row])
  {
  }

  ghost predicate FreshRow(db: Db, call: Call) {
    !call.RemoveCall? ==> forall a :: a in db.assignments ==> a.id != call.newId
  }

  /** The rows a call leaves are the old ones or the new ones, and nothing else changes. */
  lemma RowsAfter(w: World, call: Call)
    ensures Perform(w, call).1.db == w.db
         || (Refusal(w, call).None? && Perform(w, call).1.db == w.db.(assignments := NewAssignments(w.db, call)))
    ensures Perform(w, call).0 == Done ==>
              Refusal(w, call).None? && Perform(w, call).1.db == w.db.(assignments := NewAssignments(w.db, call))
  {
    assert w.db.(assignments := w.db.assignments) == w.db;
  }

  /** What the checks establish about the data, whoever asks and whatever fails. */
  lemma ChecksEstablish(w: World, call: Call)
    requires Refusal(w, call).None?
    ensures if call.RemoveCall? then Holds(w.db, call.userId, call.roleId, call.workspaceId)
            else call.userId in w.db.dir.users && call.roleId in w.db.roles && call.workspaceId in w.db.dir.workspaces
                 && !Holds(w.db, call.userId, call.roleId, call.workspaceId)
  {
  }

  lemma NewRowsSound(db: Db, call: Call)
    requires Sound(db) && FreshRow(db, call)
    requires !call.RemoveCall? ==>
               call.userId in db.dir.users && call.roleId in db.roles && call.workspaceId in db.dir.workspaces
               && !Holds(db, call.userId, call.roleId, call.workspaceId)
    ensures Sound(db.(assignments := NewAssignments(db, call)))
  {
    var rows := db.assignments;
    match call {
      case AssignCall(_, u, r, ws, _, _) =>
        assert forall a :: a in rows ==> !Matches(a, u, r, ws);
        AppendRowApart(rows, Granted(call));
      case RemoveCall(_, u, r, ws, _) =>
        FilterRowsApart((a: Assignment) => !Matches(a, u, r, ws), rows);
      case ChangeCall(_, u, _, ws, _, _) =>
        FilterRowsApart((a: Assignment) => !(a.userId == u && a.workspaceId == Some(ws)), rows);
        AppendRowApart(OutsideOf(rows, u, ws), Granted(call));
    }
  }

  lemma PerformKeepsSound(w: World, call: Call)
    requires Sound(w.db) && FreshRow(w.db, call)
    ensures Sound(Perform(w, call).1.db)
  {
    RowsAfter(w, call);
    if Refusal(w, call).None? {
      ChecksEstablish(w, call);
      NewRowsSound(w.db, call);
    }
  }

  datatype Action = Role(call: Call) | Other(event: Event)

  function Act(w: World, action: Action): World {
    match action
    case Role(call) => Perform(w, call).1
    case Other(e) => Step(w, e)
  }

  /** Role calls mixed with questions, invalidation, eviction and time. */
  ghost predicate RoleRun(ws: seq<World>, actions: seq<Action>) {
    |ws| == |actions| + 1 && Sound(ws[0].db)
    && (forall i :: 0 <= i < |actions| ==> ws[i + 1] == Act(ws[i], actions[i]))
    && (forall i :: 0 <= i < |actions| ==>
          match actions[i]
          case Role(call) => FreshRow(ws[i].db, call)
          case Other(e) => !e.Mutate?)
  }

  /** Over every run, (user, role, workspace) stays unique among the assignments. */
  lemma {:induction false} RunKeepsRowsUnique(ws: seq<World>, actions: seq<Action>, i: nat)
    requires RoleRun(ws, actions) && i < |ws|
    ensures Sound(ws[i].db)
  {
    if i > 0 {
      RunKeepsRowsUnique(ws, actions, i - 1);
      match actions[i - 1] {
        case Role(call) => PerformKeepsSound(ws[i - 1], call);
        case Other(e) =>
      }
    }
  }

  /** Exactly when a call changes the stored rows, when it reports success, and when it
      reports failure although it changed them: an assignment or removal keeps its row
      when the audit entry, or the invalidation before its last key, fails. A refused
      call and a failed change leave the rows as they were. */
  lemma WhenRowsChange(w: World, call: Call)
    ensures Perform(w, call).0 == Done <==> Refusal(w, call).None? && !Interrupted(w.db, call)
    ensures Perform(w, call).1.db != w.db <==> Refusal(w, call).None? && (Interrupted(w.db, call) ==> RowsStay(w.db, call))
    ensures Perform(w, call).0 != Done && Perform(w, call).1.db != w.db
       <==> Refusal(w, call).None? && !call.ChangeCall?
            && (call.failure.AuditFails?
                || (call.failure.ClearFails? && call.failure.after < |KeysToClear(w.db, call.userId)|))
  {
    if Refusal(w, call).None? {
      NewRowsDiffer(w, call);
      assert w.db.(assignments := w.db.assignments) == w.db;
    }
  }

  lemma NewRowsDiffer(w: World, call: Call)
    requires Refusal(w, call).None?
    ensures NewAssignments(w.db, call) != w.db.assignments
  {
    var rows := NewAssignments(w.db, call);
    match call {
      case AssignCall(_, _, _, _, _, _) => assert |rows| == |w.db.assignments| + 1;
      case RemoveCall(_, u, r, ws, _) =>
        var a :| a in w.db.assignments && Matches(a, u, r, ws);
        assert a !in rows;
      case ChangeCall(_, u, r, ws, _, _) =>
        assert Granted(call) in rows && Matches(Granted(call), u, r, ws);
        assert Granted(call) !in w.db.assignments;
    }
  }

  /* ---------- who may do what, and what it does ---------- */

  /** The rows a call looks up before anything else exist. */
  ghost predicate Found(db: Db, call: Call) {
    match call
    case AssignCall(_, u, r, ws, _, _) => u in db.dir.users && r in db.roles && ws in db.dir.workspaces
    case RemoveCall(_, u, r, ws, _) => exists a :: a in db.assignments && a.userId == u && a.roleId == r && a.workspaceId == Some(ws)
    case ChangeCall(_, _, r, _, _, _) => r in db.roles
  }

  /** The actor owns the workspace, or the permission service answers yes for managing
      roles there and no call of that check fails. */
  ghost predicate Entitled(w: World, call: Call) {
    var q := HasPermission(call.actorId, "WORKSPACE:MANAGE_ROLES", Some(call.workspaceId), None);
    || (call.workspaceId in w.db.dir.workspaces && w.db.dir.workspaces[call.workspaceId].ownerId == call.actorId)
    || (Answer(w, q) == Flag(true) && (call.failure.CheckFails? ==> !Reached(w, q, call.failure.at)))
  }

  /** What stands in the way of a call whose actor is entitled. */
  ghost predicate Blocked(db: Db, call: Call) {
    match call
    case AssignCall(_, u, r, ws, _, _) => exists a :: a in db.assignments && a.userId == u && a.roleId == r && a.workspaceId == Some(ws)
    case RemoveCall(_, _, _, _, _) => false
    case ChangeCall(_, u, r, ws, _, _) =>
      || u !in db.dir.users || ws !in db.dir.workspaces
      || exists a :: a in db.assignments && a.userId == u && a.roleId == r && a.workspaceId == Some(ws)
  }

  /** A later call of the operation fails: the write, the audit entry, the deletion of one
      of the user's list keys (one for the global context and one for each membership),
      or the commit of a change. */
  ghost predicate LaterCallFails(db: Db, call: Call) {
    || call.failure.WriteFails? || call.failure.AuditFails?
    || (call.failure.ClearFails? && call.failure.after < 1 + |Filter((m: Membership) => m.userId == call.userId, db.dir.memberships)|)
    || (call.failure.CommitFails? && call.ChangeCall?)
  }

  lemma {:induction false} MemberKeysCount(ms: seq<Membership>, userId: Id)
    ensures |MemberKeys(ms, userId)| == |Filter((m: Membership) => m.userId == userId, ms)|
  {
    if ms != [] {
      var front, last := ms[..|ms| - 1], ms[|ms| - 1];
      MemberKeysCount(front, userId);
      FilterAppend((m: Membership) => m.userId == userId, front, [last]);
      assert ms == front + [last];
    }
  }

  lemma RefusalMeaning(w: World, call: Call)
    ensures Refusal(w, call) == Some(NotFound) <==> !Found(w.db, call)
    ensures Refusal(w, call) == Some(Forbidden) <==> Found(w.db, call) && !Entitled(w, call)
    ensures Refusal(w, call) == Some(BadRequest) <==> Found(w.db, call) && Entitled(w, call) && Blocked(w.db, call)
    ensures Refusal(w, call) != Some(Done)
  {
    assert MayAssign(w, call) <==> Entitled(w, call);
    HoldsMeaning(w.db, call.userId, call.roleId, call.workspaceId);
  }

  lemma HoldsMeaning(db: Db, userId: Id, roleId: Id, workspaceId: Id)
    ensures Holds(db, userId, roleId, workspaceId)
       <==> exists a :: a in db.assignments && a.userId == userId && a.roleId == roleId && a.workspaceId == Some(workspaceId)
  {
    if a :| a in db.assignments && a.userId == userId && a.roleId == roleId && a.workspaceId == Some(workspaceId) {
      assert Matches(a, userId, roleId, workspaceId);
    }
  }

  lemma InterruptedMeaning(db: Db, call: Call)
    ensures Interrupted(db, call) <==> LaterCallFails(db, call)
  {
    MemberKeysCount(db.dir.memberships, call.userId);
  }

  /** Every outcome, exactly: a call whose rows do not exist is NotFound; one whose actor
      is not entitled is Forbidden; one that is blocked or whose later call fails is a
      BadRequest; every other is Done. Rows change only for an entitled actor. */
  lemma OutcomeExactly(w: World, call: Call)
    ensures Perform(w, call).0 == NotFound <==> !Found(w.db, call)
    ensures Perform(w, call).0 == Forbidden <==> Found(w.db, call) && !Entitled(w, call)
    ensures Perform(w, call).0 == Done <==> Found(w.db, call) && Entitled(w, call) && !Blocked(w.db, call) && !LaterCallFails(w.db, call)
    ensures Perform(w, call).1.db != w.db ==> Found(w.db, call) && Entitled(w, call) && !Blocked(w.db, call)
  {
    RefusalMeaning(w, call);
    InterruptedMeaning(w.db, call);
    WhenRowsChange(w, call);
  }

  /** On a coherent world, with no failing check, entitled is who owns the workspace or
      may use the permission to manage roles there. */
  lemma EntitledMeaning(w: World, call: Call)
    requires Coherent(w) && PlainIds(w, call) && !call.failure.CheckFails?
    ensures Entitled(w, call)
       <==> || (call.workspaceId in w.db.dir.workspaces && w.db.dir.workspaces[call.workspaceId].ownerId == call.actorId)
            || MayUse(w.db, call.actorId, "WORKSPACE:MANAGE_ROLES", Some(call.workspaceId))
  {
    CoherentIsRight(w, HasPermission(call.actorId, "WORKSPACE:MANAGE_ROLES", Some(call.workspaceId), None));
  }

  /** The rows a successful call leaves, and nothing else of the data changes: an
      assignment is appended, exactly the named assignment is gone, or all of the user's
      in the workspace are replaced by the new one. */
  lemma RowsExactly(w: World, call: Call)
    requires Perform(w, call).0 == Done
    ensures var rows, db' := w.db.assignments, Perform(w, call).1.db;
            && db' == w.db.(assignments := db'.assignments)
            && match call
               case AssignCall(_, u, r, ws, id, _) => db'.assignments == rows + [Assignment(id, u, r, Some(ws))]
               case RemoveCall(_, u, r, ws, _) =>
                 && db'.assignments == Filter((a: Assignment) => !(a.userId == u && a.roleId == r && a.workspaceId == Some(ws)), rows)
               case ChangeCall(_, u, r, ws, id, _) =>
                 && db'.assignments == Filter((a: Assignment) => !(a.userId == u && a.workspaceId == Some(ws)), rows) + [Assignment(id, u, r, Some(ws))]
  {
    RowsAfter(w, call);
    if call.RemoveCall? {
      FilterCongruence((a: Assignment) => !Matches(a, call.userId, call.roleId, call.workspaceId),
                       (a: Assignment) => !(a.userId == call.userId && a.roleId == call.roleId && a.workspaceId == Some(call.workspaceId)),
                       w.db.assignments);
    }
  }

  /** After a successful change the user's assignments in the workspace are exactly
      the new role, and every other assignment is untouched and in place. */
  lemma ChangeReplaces(w: World, call: Call)
    requires call.ChangeCall? && Perform(w, call).0 == Done
    ensures var rows, rows' := w.db.assignments, Perform(w, call).1.db.assignments;
            && Perform(w, call).1.db == w.db.(assignments := rows')
            && RowsIn(rows', call.userId, call.workspaceId) == [Granted(call)]
            && OutsideOf(rows', call.userId, call.workspaceId) == OutsideOf(rows, call.userId, call.workspaceId)
  {
    RowsAfter(w, call);
    var u, ws := call.userId, call.workspaceId;
    var rows := w.db.assignments;
    var kept := OutsideOf(rows, u, ws);
    FilterAppend((a: Assignment) => a.userId == u && a.workspaceId == Some(ws), kept, [Granted(call)]);
    FilterAppend((a: Assignment) => !(a.userId == u && a.workspaceId == Some(ws)), kept, [Granted(call)]);
    Partitioned(rows, u, ws);
    assert RowsIn([Granted(call)], u, ws) == [Granted(call)];
    assert OutsideOf([Granted(call)], u, ws) == [];
  }

  lemma {:induction false} Partitioned(rows: seq<Assignment>, u: Id, ws: Id)
    ensures RowsIn(OutsideOf(rows, u, ws), u, ws) == []
    ensures OutsideOf(OutsideOf(rows, u, ws), u, ws) == OutsideOf(rows, u, ws)
  {
    if rows != [] {
      Partitioned(rows[1..], u, ws);
      var rest := OutsideOf(rows[1..], u, ws);
      if OutsideOf(rows, u, ws) != rest {
        assert ([rows[0]] + rest)[1..] == rest;
      }
    }
  }

  /** So a user who is neither SUPER nor owner then freshly resolves in that
      workspace to the global permissions plus those of the new role. */
  lemma ChangeResolves(w: World, call: Call, code: string)
    requires call.ChangeCall? && call.workspaceId != "" && Perform(w, call).0 == Done
    requires !IsSuper(w.db.dir, call.userId) && !IsOwner(w.db.dir, call.userId, call.workspaceId)
    ensures call.roleId in w.db.roles
    ensures code in ListCodes(Perform(w, call).1.db, call.userId, Some(call.workspaceId))
       <==> HoldsRoleFor(w.db, call.userId, Global, code) || code in w.db.roles[call.roleId].codes
  {
    RowsAfter(w, call);
    ChecksEstablish(w, call);
    ReplacedResolves(w.db, call, code);
  }

  lemma ReplacedResolves(db: Db, call: Call, code: string)
    requires call.ChangeCall? && call.workspaceId != "" && call.roleId in db.roles && call.userId in db.dir.users
    requires !IsSuper(db.dir, call.userId) && !IsOwner(db.dir, call.userId, call.workspaceId)
    ensures code in ListCodes(db.(assignments := NewAssignments(db, call)), call.userId, Some(call.workspaceId))
       <==> HoldsRoleFor(db, call.userId, Global, code) || code in db.roles[call.roleId].codes
  {
    var u, ws := call.userId, call.workspaceId;
    var db' := db.(assignments := NewAssignments(db, call));
    ListMeaning(db', u, Some(ws), code);
    assert Granted(call) in db'.assignments;
    assert HoldsRoleFor(db', u, Within(ws), code) <==> code in db.roles[call.roleId].codes by {
      if code in db.roles[call.roleId].codes {
        assert Grants(db', Granted(call), u, Within(ws), code);
      }
      if a :| a in db'.assignments && Grants(db', a, u, Within(ws), code) {
        assert a == Granted(call);
      }
    }
    assert HoldsRoleFor(db', u, Global, code) <==> HoldsRoleFor(db, u, Global, code) by {
      if a :| a in db.assignments && Grants(db, a, u, Global, code) {
        assert a in db'.assignments && Grants(db', a, u, Global, code);
      }
      if a :| a in db'.assignments && Grants(db', a, u, Global, code) {
        assert a in db.assignments && Grants(db, a, u, Global, code);
      }
    }
  }

  /** The exact effect of `assignRole` and `removeRole` on who holds what. */
  lemma AssignRemoveEffect(w: World, call: Call, userId: Id, roleId: Id, workspaceId: Id)
    requires !call.ChangeCall? && Perform(w, call).0 == Done
    ensures var db' := Perform(w, call).1.db;
            && db' == w.db.(assignments := db'.assignments)
            && (Holds(db', userId, roleId, workspaceId) <==>
                 if (userId, roleId, workspaceId) == (call.userId, call.roleId, call.workspaceId) then call.AssignCall?
                 else Holds(w.db, userId, roleId, workspaceId))
    ensures forall a: Assignment :: a.workspaceId.None? ==> (a in w.db.assignments <==> a in Perform(w, call).1.db.assignments)
  {
    var rows, rows' := w.db.assignments, Perform(w, call).1.db.assignments;
    if call.AssignCall? { assert Granted(call) in rows'; }
    if a :| a in rows && Matches(a, userId, roleId, workspaceId) {
      assert a in rows' || Matches(a, call.userId, call.roleId, call.workspaceId);
    }
  }

  /* ---------- the cache ---------- */

  ghost predicate PlainIds(w: World, call: Call) {
    && ColonFree(call.userId) && ColonFree(call.actorId)
    && ColonFree(call.workspaceId) && call.workspaceId != "" && call.workspaceId != "global"
    && PlainMemberships(w.db)
  }

  /** The queries whose entries a successful call drops: the user's lists in the global
      context and in each workspace the user is a member of. */
  predicate Dropped(w: World, userId: Id, q: Query) {
    q.UserPermissions? && q.userId == userId
    && (Truthy(q.workspaceId) ==> IsMember(w.db.dir, userId, q.workspaceId.value))
  }

  /** The keys a call drops from the cache. */
  function DroppedKeys(w: World, call: Call): set<string> {
    if Refusal(w, call).Some? then {} else Elements(KeysToClear(w.db, call.userId)[..KeysDropped(w.db, call)])
  }

  /** What every query answers after any call, failed or not: what lies under a dropped
      key, or was not cached, is computed from the rows the call left; every other answer
      stays what it was. So every cached `userHasPermission` answer stays until its entry
      ages out, and so does the list of a user whose rows changed when the invalidation
      failed before its key. No entry of another user is dropped. */
  lemma AnswersAfterCall(w: World, call: Call, q: Query)
    requires PlainIds(w, call) && WellFormed(q)
    ensures var w' := Perform(w, call).1;
            Answer(w', q) ==
              if Key(q) in DroppedKeys(w, call) || !Hit(if Refusal(w, call) == Some(NotFound) then w else Checked(w, call), Key(q))
              then Fresh(w'.db, q) else Answer(w, q)
    ensures var w' := Perform(w, call).1;
            Key(q) in w.cache && !Dropped(w, call.userId, q) ==>
              Key(q) in w'.cache && (Hit(w, Key(q)) ==> w'.cache[Key(q)] == w.cache[Key(q)])
  {
    CheckedKeepsAnswers(w, call, q);
    if Key(q) in DroppedKeys(w, call) {
      OnlyListsDropped(w, call, q);
    }
  }

  lemma CheckedKeepsAnswers(w: World, call: Call, q: Query)
    requires PlainIds(w, call) && WellFormed(q)
    ensures Checked(w, call).db == w.db && Checked(w, call).now == w.now
    ensures Answer(Checked(w, call), q) == Answer(w, q)
    ensures Key(q) in w.cache ==> Key(q) in Checked(w, call).cache
    ensures Hit(w, Key(q)) ==> Checked(w, call).cache[Key(q)] == w.cache[Key(q)]
  {
    if Checked(w, call) != w {
      FillKeepsAnswers(w, CheckQuery(call.actorId, call.workspaceId), q);
    }
  }

  /** A call that runs to its end drops exactly the entries `Dropped` names; one that is
      interrupted drops none but those. */
  lemma OnlyListsDropped(w: World, call: Call, q: Query)
    requires PlainIds(w, call) && WellFormed(q)
    ensures Key(q) in DroppedKeys(w, call) ==> Dropped(w, call.userId, q)
    ensures Perform(w, call).0 == Done && Dropped(w, call.userId, q) ==> Key(q) in DroppedKeys(w, call)
  {
    var keys := KeysToClear(w.db, call.userId);
    assert keys[..|keys|] == keys;
    KeysToClearMeaning(w.db, call.userId, q);
  }

  /** So after a successful call the lists of the user in the global context and in each
      workspace the user is a member of are computed from the new rows. */
  lemma ListsAreFresh(w: World, call: Call, q: Query)
    requires PlainIds(w, call) && WellFormed(q) && Perform(w, call).0 == Done && Dropped(w, call.userId, q)
    ensures Answer(Perform(w, call).1, q) == Fresh(Perform(w, call).1.db, q)
  {
    OnlyListsDropped(w, call, q);
    AnswersAfterCall(w, call, q);
  }

  /** But a list whose data were read before a successful call and which is stored after
      it shows the old rows for a whole lifetime, although the call dropped it. */
  lemma ListReadAcrossCallIsStale(w: World, call: Call, q: Query, ticks: nat)
    requires PlainIds(w, call) && WellFormed(q) && Perform(w, call).0 == Done && Dropped(w, call.userId, q) && ticks <= CACHE_TTL
    ensures var w' := Perform(w, call).1;
            var later := Stored(w', Pending(q, Fresh(w.db, q), w.now));
            && Answer(w', q) == Fresh(w'.db, q)
            && Answer(later.(now := later.now + ticks), q) == Fresh(w.db, q)
  {
    ListsAreFresh(w, call, q);
    SlowReadOutlivesInvalidation(w, Perform(w, call).1, q, ticks);
  }

  /** The world after queries are answered one after the other. */
  function AskAll(w: World, asked: seq<Query>): World
    decreases |asked|
  {
    if asked == [] then w else AskAll(Fill(w, asked[0]), asked[1..])
  }

  /** One of the queries has the key. */
  predicate AskedFor(asked: seq<Query>, key: string) {
    asked != [] && (Key(asked[0]) == key || AskedFor(asked[1..], key))
  }

  lemma {:induction false} AskedForMeaning(asked: seq<Query>, key: string)
    ensures AskedFor(asked, key) <==> exists a :: a in asked && Key(a) == key
  {
    if asked != [] {
      AskedForMeaning(asked[1..], key);
      assert asked == [asked[0]] + asked[1..];
      if Key(asked[0]) == key { assert asked[0] in asked; }
    }
  }

  /** An entry missing when queries are answered and the rows change afterwards is
      computed from the old rows exactly when one of the queries asked for it. */
  lemma {:induction false} ReadsBeforeCommit(w: World, asked: seq<Query>, q: Query, rows: seq<Assignment>)
    requires WellFormed(q) && (forall a :: a in asked ==> WellFormed(a)) && !Hit(w, Key(q))
    ensures var after := AskAll(w, asked).(db := w.db.(assignments := rows));
            Answer(after, q) == Fresh(if AskedFor(asked, Key(q)) then w.db else after.db, q)
    decreases |asked|
  {
    if asked != [] {
      var w1 := Fill(w, asked[0]);
      if Key(asked[0]) == Key(q) {
        SameKeySameAnswer(w.db, asked[0], q);
        AsksKeepHits(w1, asked[1..], Key(q));
      } else {
        OtherReadMisses(w, asked[0], Key(q));
        ReadsBeforeCommit(w1, asked[1..], q, rows);
      }
    }
  }

  lemma OtherReadMisses(w: World, a: Query, key: string)
    requires !Hit(w, key) && Key(a) != key
    ensures !Hit(Fill(w, a), key) && Fill(w, a).db == w.db && Fill(w, a).now == w.now
  {
  }

  /** `changeRole` invalidates before its transaction commits. When other requests are
      answered in between, a list it dropped still shows the old rows after the commit
      exactly when one of them asked for it, and shows the new ones otherwise. */
  lemma ChangeLeavesReadListsStale(w: World, call: Call, asked: seq<Query>, q: Query)
    requires PlainIds(w, call) && WellFormed(q) && (forall a :: a in asked ==> WellFormed(a))
    requires call.ChangeCall? && Perform(w, call).0 == Done && Dropped(w, call.userId, q)
    ensures var before, new_ := Clear(Checked(w, call), call.userId), NewAssignments(w.db, call);
            && Perform(w, call).1 == WithRows(before, new_)
            && Answer(WithRows(AskAll(before, asked), new_), q)
               == Fresh(if exists a :: a in asked && Key(a) == Key(q) then w.db else Perform(w, call).1.db, q)
  {
    var before := Clear(Checked(w, call), call.userId);
    AfterChecks(w, call);
    SameKeys(Checked(w, call), NewAssignments(w.db, call), call.userId);
    OnlyListsDropped(w, call, q);
    AskedWorld(before, asked);
    ReadsBeforeCommit(before, asked, q, NewAssignments(w.db, call));
    AskedForMeaning(asked, Key(q));
  }

  lemma {:induction false} AskedWorld(w: World, asked: seq<Query>)
    ensures AskAll(w, asked).db == w.db && AskAll(w, asked).now == w.now
    decreases |asked|
  {
    if asked != [] { AskedWorld(Fill(w, asked[0]), asked[1..]); }
  }

  lemma {:induction false} AsksKeepHits(w: World, asked: seq<Query>, key: string)
    requires Hit(w, key)
    ensures var w' := AskAll(w, asked);
            w'.db == w.db && w'.now == w.now && Hit(w', key) && w'.cache[key] == w.cache[key]
    decreases |asked|
  {
    if asked != [] { AsksKeepHits(Fill(w, asked[0]), asked[1..], key); }
  }

  /** A call is a short run of the cache machine, so the bound on staleness covers
      runs that contain role calls. */
  function Expand(w: World, call: Call): seq<Event> {
    CheckEvents(w, call) + WriteEvents(w, call) + ClearEvents(w, call)
  }

  function CheckEvents(w: World, call: Call): seq<Event> {
    if Refusal(w, call) == Some(NotFound) || IsOwner(w.db.dir, call.actorId, call.workspaceId) then []
    else if Reached(w, CheckQuery(call.actorId, call.workspaceId), CheckFault(call.failure)) then
      [AskFails(CheckQuery(call.actorId, call.workspaceId))]
    else [Ask(CheckQuery(call.actorId, call.workspaceId))]
  }

  function WriteEvents(w: World, call: Call): seq<Event> {
    if Refusal(w, call).Some? || (Interrupted(w.db, call) && !RowsStay(w.db, call)) then []
    else [Mutate(w.db.(assignments := NewAssignments(w.db, call)))]
  }

  /** The keys dropped, all or only some of them. */
  function ClearEvents(w: World, call: Call): seq<Event> {
    if Refusal(w, call).Some? then []
    else if KeysDropped(w.db, call) == |KeysToClear(w.db, call.userId)| then [Invalidate(call.userId)]
    else [Evict(DroppedKeys(w, call))]
  }

  function Replay(w: World, es: seq<Event>): World
    decreases |es|
  {
    if es == [] then w else Replay(Step(w, es[0]), es[1..])
  }

  lemma CallIsARun(w: World, call: Call)
    requires PlainIds(w, call)
    ensures Replay(w, Expand(w, call)) == Perform(w, call).1
    ensures forall e :: e in Expand(w, call) && e.Ask? ==> WellFormed(e.query)
  {
    ReplayConcat(w, CheckEvents(w, call) + WriteEvents(w, call), ClearEvents(w, call));
    ReplayConcat(w, CheckEvents(w, call), WriteEvents(w, call));
    CheckedWorld(w, call);
    if Refusal(w, call).None? {
      WrittenWorld(w, call, Checked(w, call));
    }
  }

  lemma CheckedWorld(w: World, call: Call)
    ensures Replay(w, CheckEvents(w, call)) == if Refusal(w, call) == Some(NotFound) then w else Checked(w, call)
  {
  }

  lemma WrittenWorld(w: World, call: Call, checked: World)
    requires Refusal(w, call).None? && checked == Checked(w, call)
    ensures Replay(Replay(checked, WriteEvents(w, call)), ClearEvents(w, call)) == Perform(w, call).1
  {
    var rows := if WriteEvents(w, call) == [] then w.db.assignments else NewAssignments(w.db, call);
    assert WithRows(checked, w.db.assignments) == checked;
    assert Replay(checked, WriteEvents(w, call)) == WithRows(checked, rows);
    SameKeys(checked, rows, call.userId);
    assert Perform(w, call).1 == ClearFirst(WithRows(checked, rows), call.userId, KeysDropped(w.db, call));
  }

  lemma {:induction false} ReplayConcat(w: World, a: seq<Event>, b: seq<Event>)
    ensures Replay(w, a + b) == Replay(Replay(w, a), b)
    decreases |a|
  {
    if a == [] {
      assert a + b == b;
    } else {
      assert (a + b)[1..] == a[1..] + b;
      ReplayConcat(Step(w, a[0]), a[1..], b);
    }
  }

  /* ---------- the service ---------- */

  class RolesService {
    const prisma: Prisma
    const permissions: PermissionsService

    ghost predicate Valid()
      reads this, prisma, permissions
    {
      permissions.prisma == prisma && permissions.Valid() && Sound(prisma.db)
    }

    constructor (prisma: Prisma, permissions: PermissionsService)
      requires permissions.prisma == prisma && permissions.Valid() && Sound(prisma.db)
      ensures Valid() && this.prisma == prisma && this.permissions == permissions
    {
      this.prisma := prisma;
      this.permissions := permissions;
    }

    function CurrentWorld(): World
      requires permissions.prisma == prisma
      reads permissions, prisma
    {
      permissions.CurrentWorld()
    }

    method VerifyAssignerPermission(assignerId: Id, workspaceId: Id, fault: Fault) returns (b: bool)
      requires Valid() && WellFormed(CheckQuery(assignerId, workspaceId))
      modifies permissions`cache
      ensures Valid()
      ensures (b, CurrentWorld()) == Verify(old(CurrentWorld()), assignerId, workspaceId, fault)
    {
      if IsOwner(prisma.db.dir, assignerId, workspaceId) {
        return true;
      }
      b := permissions.UserHasPermission(assignerId, MANAGE_ROLES, Some(workspaceId), None, fault);
    }

    method AssignRole(actorId: Id, userId: Id, roleId: Id, workspaceId: Id, newId: nat, failure: Failure) returns (o: Outcome)
      requires Valid() && workspaceId != "" && WellFormed(CheckQuery(actorId, workspaceId))
      requires FreshRow(prisma.db, AssignCall(actorId, userId, roleId, workspaceId, newId, failure))
      modifies prisma, permissions`cache
      ensures Valid()
      ensures (o, CurrentWorld()) == Perform(old(CurrentWorld()), AssignCall(actorId, userId, roleId, workspaceId, newId, failure))
    {
      ghost var w, call := CurrentWorld(), AssignCall(actorId, userId, roleId, workspaceId, newId, failure);
      PerformKeepsSound(w, call);
      if Refusal(w, call).None? { AfterChecks(w, call); }
      if userId !in prisma.db.dir.users { return NotFound; }
      if roleId !in prisma.db.roles { return NotFound; }
      if workspaceId !in prisma.db.dir.workspaces { return NotFound; }
      var may := VerifyAssignerPermission(actorId, workspaceId, CheckFault(failure));
      if !may { return Forbidden; }
      if Holds(prisma.db, userId, roleId, workspaceId) { return BadRequest; }
      if failure == WriteFails { return BadRequest; }
      prisma.db := prisma.db.(assignments := prisma.db.assignments + [Assignment(newId, userId, roleId, Some(workspaceId))]);
      if failure == AuditFails { return BadRequest; }
      var threw := permissions.ClearUserPermissionCache(userId, ClearFault(failure));
      return if threw then BadRequest else Done;
    }

    method RemoveRole(actorId: Id, userId: Id, roleId: Id, workspaceId: Id, failure: Failure) returns (o: Outcome)
      requires Valid() && workspaceId != "" && WellFormed(CheckQuery(actorId, workspaceId))
      modifies prisma, permissions`cache
      ensures Valid()
      ensures (o, CurrentWorld()) == Perform(old(CurrentWorld()), RemoveCall(actorId, userId, roleId, workspaceId, failure))
    {
      ghost var w, call := CurrentWorld(), RemoveCall(actorId, userId, roleId, workspaceId, failure);
      PerformKeepsSound(w, call);
      if Refusal(w, call).None? { AfterChecks(w, call); }
      var found, row := FindAssignment(userId, roleId, workspaceId);
      if !found { return NotFound; }
      var may := VerifyAssignerPermission(actorId, workspaceId, CheckFault(failure));
      if !may { return Forbidden; }
      if failure == WriteFails { return BadRequest; }
      var rows := DeleteById(prisma.db.assignments, row.id);
      FilterCongruence((a: Assignment) => a.id != row.id, (a: Assignment) => !Matches(a, userId, roleId, workspaceId), prisma.db.assignments);
      prisma.db := prisma.db.(assignments := rows);
      if failure == AuditFails { return BadRequest; }
      var threw := permissions.ClearUserPermissionCache(userId, ClearFault(failure));
      return if threw then BadRequest else Done;
    }

    /** `findUnique` on (user, role, workspace). */
    method FindAssignment(userId: Id, roleId: Id, workspaceId: Id) returns (found: bool, row: Assignment)
      requires Sound(prisma.db)
      ensures found <==> Holds(prisma.db, userId, roleId, workspaceId)
      ensures found ==> row in prisma.db.assignments && Matches(row, userId, roleId, workspaceId)
      ensures found ==> forall a :: a in prisma.db.assignments ==> (a.id == row.id <==> Matches(a, userId, roleId, workspaceId))
    {
      var rows := prisma.db.assignments;
      row := Assignment(0, "", "", None);
      for i := 0 to |rows|
        invariant forall j :: 0 <= j < i ==> !Matches(rows[j], userId, roleId, workspaceId)
      {
        if Matches(rows[i], userId, roleId, workspaceId) {
          forall a | a in rows ensures a.id == rows[i].id <==> Matches(a, userId, roleId, workspaceId) {
            var j :| 0 <= j < |rows| && rows[j] == a;
            assert j < i ==> Apart(rows[j], rows[i]);
            assert i < j ==> Apart(rows[i], rows[j]);
          }
          return true, rows[i];
        }
      }
      return false, row;
    }

    /** The transaction's loop: delete the given rows one by one, by id. */
    static method DeleteRows(rows: seq<Assignment>, current: seq<Assignment>) returns (rest: seq<Assignment>)
      ensures rest == WithoutIds(rows, Ids(current))
    {
      rest := rows;
      NothingDeleted(rows);
      assert Ids(current[..0]) == {};
      for i := 0 to |current|
        invariant rest == WithoutIds(rows, Ids(current[..i]))
      {
        assert current[..i + 1] == current[..i] + [current[i]];
        assert Ids(current[..i + 1]) == Ids(current[..i]) + {current[i].id};
        DeleteOneMore(rows, Ids(current[..i]), current[i].id);
        rest := DeleteById(rest, current[i].id);
      }
      assert current[..|current|] == current;
    }

    /** Those of the current rows are all of the user's rows in the workspace. */
    method DeleteCurrent(userId: Id, workspaceId: Id, current: seq<Assignment>) returns (rest: seq<Assignment>)
      requires Sound(prisma.db) && current == RowsIn(prisma.db.assignments, userId, workspaceId)
      ensures rest == OutsideOf(prisma.db.assignments, userId, workspaceId)
    {
      rest := DeleteRows(prisma.db.assignments, current);
      IdsOfCurrent(prisma.db, userId, workspaceId);
    }

    method ChangeRole(actorId: Id, userId: Id, roleId: Id, workspaceId: Id, newId: nat, failure: Failure) returns (o: Outcome)
      requires Valid() && workspaceId != "" && WellFormed(CheckQuery(actorId, workspaceId))
      requires FreshRow(prisma.db, ChangeCall(actorId, userId, roleId, workspaceId, newId, failure))
      modifies prisma, permissions`cache
      ensures Valid()
      ensures (o, CurrentWorld()) == Perform(old(CurrentWorld()), ChangeCall(actorId, userId, roleId, workspaceId, newId, failure))
    {
      ghost var w, call := CurrentWorld(), ChangeCall(actorId, userId, roleId, workspaceId, newId, failure);
      PerformKeepsSound(w, call);
      if Refusal(w, call).None? { AfterChecks(w, call); }
      var current := RowsIn(prisma.db.assignments, userId, workspaceId);
      if roleId !in prisma.db.roles { return NotFound; }
      var may := VerifyAssignerPermission(actorId, workspaceId, CheckFault(failure));
      if !may { return Forbidden; }
      AmongCurrent(prisma.db, userId, roleId, workspaceId);
      if exists a :: a in current && a.roleId == roleId { return BadRequest; }
      // the transaction works on its own copy of the table until it commits
      var rows := DeleteCurrent(userId, workspaceId, current);
      if userId !in prisma.db.dir.users || workspaceId !in prisma.db.dir.workspaces { return BadRequest; }
      if failure == WriteFails { return BadRequest; }
      rows := rows + [Assignment(newId, userId, roleId, Some(workspaceId))];
      if failure == AuditFails { return BadRequest; }
      var threw := permissions.ClearUserPermissionCache(userId, ClearFault(failure));
      if threw || failure == CommitFails { return BadRequest; }
      prisma.db := prisma.db.(assignments := rows);
      return Done;
    }
  }

  function DeleteById(rows: seq<Assignment>, id: nat): seq<Assignment> {
    Filter((a: Assignment) => a.id != id, rows)
  }

  function Ids(rows: seq<Assignment>): set<nat> {
    set a | a in rows :: a.id
  }

  function WithoutIds(rows: seq<Assignment>, ids: set<nat>): seq<Assignment> {
    Filter((a: Assignment) => a.id !in ids, rows)
  }

  lemma {:induction false} NothingDeleted(rows: seq<Assignment>)
    ensures WithoutIds(rows, {}) == rows
  {
    if rows != [] {
      NothingDeleted(rows[1..]);
      assert rows == [rows[0]] + rows[1..];
    }
  }

  lemma {:induction false} DeleteOneMore(rows: seq<Assignment>, ids: set<nat>, id: nat)
    ensures DeleteById(WithoutIds(rows, ids), id) == WithoutIds(rows, ids + {id})
  {
    if rows != [] {
      DeleteOneMore(rows[1..], ids, id);
      var rest := WithoutIds(rows[1..], ids);
      if rows[0].id in ids {
        assert WithoutIds(rows, ids) == rest;
        assert WithoutIds(rows, ids + {id}) == WithoutIds(rows[1..], ids + {id});
      } else {
        assert ([rows[0]] + rest)[1..] == rest;
      }
    }
  }

  /** The current rows of the user in the workspace show whether the role is held. */
  lemma AmongCurrent(db: Db, userId: Id, roleId: Id, workspaceId: Id)
    ensures (exists a :: a in RowsIn(db.assignments, userId, workspaceId) && a.roleId == roleId)
       <==> Holds(db, userId, roleId, workspaceId)
  {
    if a :| a in db.assignments && Matches(a, userId, roleId, workspaceId) {
      assert a in RowsIn(db.assignments, userId, workspaceId);
    }
  }

  /** Deleting the ids of a user's rows in a workspace removes exactly those rows. */
  lemma IdsOfCurrent(db: Db, userId: Id, workspaceId: Id)
    requires Sound(db)
    ensures WithoutIds(db.assignments, Ids(RowsIn(db.assignments, userId, workspaceId)))
         == OutsideOf(db.assignments, userId, workspaceId)
  {
    var rows := db.assignments;
    var current := RowsIn(rows, userId, workspaceId);
    forall a | a in rows ensures a.id in Ids(current) <==> a.userId == userId && a.workspaceId == Some(workspaceId) {
      if b :| b in current && b.id == a.id {
        var i :| 0 <= i < |rows| && rows[i] == a;
        var j :| 0 <= j < |rows| && rows[j] == b;
        assert i < j ==> Apart(a, b);
        assert j < i ==> Apart(b, a);
      }
    }
    FilterCongruence((a: Assignment) => a.id !in Ids(current),
                     (a: Assignment) => !(a.userId == userId && a.workspaceId == Some(workspaceId)), rows);
  }
}
