/** Schedule rows and the repeatable queue that must agree with them. */
module Schedules {
  import opened Common
  import opened Directories
  import opened Scans

  datatype CreateDto = CreateDto(repositoryId: Id, workspaceId: Id, branch: string, cronExpression: string,
                                 historical: Option<bool>, fileExclusions: Option<seq<string>>, active: Option<bool>)

  /** Every field of an update is optional, and validation lets null through. */
  datatype UpdateDto = UpdateDto(repositoryId: Sent<Id>, workspaceId: Sent<Id>, branch: Sent<string>,
                                 cronExpression: Sent<string>, historical: Sent<bool>,
                                 fileExclusions: Sent<seq<string>>, active: Sent<bool>)

  /** What request validation refuses: an empty cron expression, branch or id. */
  predicate Accepted(dto: UpdateDto) {
    dto.cronExpression != Given("") && dto.branch != Given("") && dto.workspaceId != Given("") && dto.repositoryId != Given("")
  }

  predicate SendsNull(dto: UpdateDto) {
    dto.repositoryId.Null? || dto.workspaceId.Null? || dto.branch.Null? || dto.cronExpression.Null?
    || dto.historical.Null? || dto.fileExclusions.Null? || dto.active.Null?
  }

  /** `dto.cronExpression` as a condition: given and not empty. */
  predicate GivesCron(dto: UpdateDto) {
    dto.cronExpression.Given? && dto.cronExpression.value != ""
  }

  function JobId(id: Id): string {
    "schedule-" + id
  }

  lemma JobIdInjective(a: Id, b: Id)
    requires JobId(a) == JobId(b)
    ensures a == b
  {
    assert JobId(a)[|"schedule-"|..] == a && JobId(b)[|"schedule-"|..] == b;
  }

  /* ---------- the repeatable queue ---------- */

  predicate SameKey(a: Repeatable, b: Repeatable) {
    a.jobId == b.jobId && a.cron == b.cron
  }

  /** Adding an entry whose key the queue already holds adds nothing. */
  function AddEntry(q: seq<Repeatable>, e: Repeatable): seq<Repeatable> {
    if exists x :: x in q && SameKey(x, e) then q else q + [e]
  }

  function AddScheduleToQueue(q: seq<Repeatable>, id: Id, s: Schedule, userId: Id): seq<Repeatable> {
    AddEntry(q, Repeatable(JobId(id), s.cronExpression, id, userId))
  }

  /** `find(j => j.id === jobId)` */
  function FindEntry(q: seq<Repeatable>, jobId: string): (r: Option<Repeatable>)
    ensures r.Some? ==> r.value in q && r.value.jobId == jobId
    ensures r.None? ==> forall e :: e in q ==> e.jobId != jobId
  {
    if q == [] then None else if q[0].jobId == jobId then Some(q[0]) else FindEntry(q[1..], jobId)
  }

  /** Removes, by its key, the first entry with the schedule's job id. */
  function RemoveScheduleFromQueue(q: seq<Repeatable>, id: Id): seq<Repeatable> {
    match FindEntry(q, JobId(id))
    case None => q
    case Some(job) => Filter((e: Repeatable) => !SameKey(e, job), q)
  }

  /* ---------- the service ---------- */

  function FromDto(dto: CreateDto): Schedule {
    Schedule(dto.repositoryId, dto.workspaceId, dto.branch, dto.cronExpression, dto.historical == Some(true),
             if dto.fileExclusions.Some? then dto.fileExclusions.value else [],
             if dto.active.Some? then dto.active.value else true)
  }

  function Merge(s: Schedule, dto: UpdateDto): Schedule {
    Schedule(Apply(dto.repositoryId, s.repositoryId), Apply(dto.workspaceId, s.workspaceId), Apply(dto.branch, s.branch),
             Apply(dto.cronExpression, s.cronExpression), Apply(dto.historical, s.historical),
             Apply(dto.fileExclusions, s.fileExclusions), Apply(dto.active, s.active))
  }

  /** The row, its queue entry when active, and the audit entry; the repository must exist. */
  function Create(st: State, dto: CreateDto, userId: Id, newId: Id, fault: Fault): (Reply, State) {
    if dto.workspaceId !in st.dir.workspaces then (NotFound, st)
    else if !MayManage(st.dir, userId, dto.workspaceId) then (Forbidden, st)
    else if fault == WriteFails || dto.repositoryId !in st.dir.repositories then (Error, st)
    else
      var s := FromDto(dto);
      var written := st.(schedules := st.schedules[newId := s], issued := st.issued + {newId});
      if fault == AddFails && s.active then (Error, written)
      else
        var queued := if s.active then written.(repeatables := AddScheduleToQueue(st.repeatables, newId, s, userId)) else written;
        Logged(queued, AuditEntry(CREATE_SCHEDULE, userId, dto.workspaceId, newId), fault)
  }

  /** An update that touches the queue entry of an active schedule drops it first. */
  predicate Drops(s: Schedule, dto: UpdateDto) {
    s.active && (dto.active == Given(false) || GivesCron(dto))
  }

  predicate Adds(s: Schedule, dto: UpdateDto) {
    Merge(s, dto).active && (!s.active || GivesCron(dto))
  }

  /** The update names a workspace or a repository that does not exist, or sends null for
      a column that cannot hold it: the database refuses the row. */
  predicate Unwritable(dir: Directory, dto: UpdateDto) {
    || SendsNull(dto)
    || (dto.workspaceId.Given? && dto.workspaceId.value !in dir.workspaces)
    || (dto.repositoryId.Given? && dto.repositoryId.value !in dir.repositories)
  }

  predicate WriteThrows(dir: Directory, dto: UpdateDto, fault: Fault) {
    fault == WriteFails || Unwritable(dir, dto)
  }

  /** The queue entry cannot be looked up or removed: nothing has happened yet. */
  predicate DropThrows(s: Schedule, dto: UpdateDto, fault: Fault) {
    fault == DropFails && Drops(s, dto)
  }

  /** The user may change the schedule. */
  predicate Permitted(st: State, id: Id, userId: Id) {
    id in st.schedules && MayManage(st.dir, userId, st.schedules[id].workspaceId)
  }

  function Update(st: State, id: Id, dto: UpdateDto, userId: Id, fault: Fault): (Reply, State) {
    if id !in st.schedules then (NotFound, st)
    else
      var s := st.schedules[id];
      if !MayManage(st.dir, userId, s.workspaceId) then (Forbidden, st)
      else if DropThrows(s, dto, fault) then (Error, st)
      else
        var dropped := if Drops(s, dto) then st.(repeatables := RemoveScheduleFromQueue(st.repeatables, id)) else st;
        if WriteThrows(st.dir, dto, fault) then (Error, dropped)
        else
          var s' := Merge(s, dto);
          var written := dropped.(schedules := st.schedules[id := s']);
          if fault == AddFails && Adds(s, dto) then (Error, written)
          else
            var queued := if Adds(s, dto) then written.(repeatables := AddScheduleToQueue(dropped.repeatables, id, s', userId)) else written;
            Logged(queued, AuditEntry(UPDATE_SCHEDULE, userId, s.workspaceId, id), fault)
  }

  function Remove(st: State, id: Id, userId: Id, fault: Fault): (Reply, State) {
    if id !in st.schedules then (NotFound, st)
    else
      var s := st.schedules[id];
      if !MayManage(st.dir, userId, s.workspaceId) then (Forbidden, st)
      else if fault == DropFails && s.active then (Error, st)
      else
        var dropped := if s.active then st.(repeatables := RemoveScheduleFromQueue(st.repeatables, id)) else st;
        if fault == WriteFails then (Error, dropped)
        else
          Logged(dropped.(schedules := st.schedules - {id}), AuditEntry(DELETE_SCHEDULE, userId, s.workspaceId, id), fault)
  }

  function RequestOf(s: Schedule): ScanRequest {
    ScanRequest(s.repositoryId, s.workspaceId, s.branch, Some(s.historical), Some(s.fileExclusions))
  }

  /** What a due repeatable job does: create the scan the schedule describes. */
  function TriggerScan(st: State, scheduleId: Id, userId: Id, newId: Id, fault: Fault): (Reply, State) {
    if scheduleId !in st.schedules then (NotFound, st)
    else CreateScan(st, RequestOf(st.schedules[scheduleId]), userId, newId, fault)
  }

  /* ---------- what the operations touch ---------- */

  lemma CreateTouches(st: State, dto: CreateDto, userId: Id, newId: Id, fault: Fault)
    ensures var st' := Create(st, dto, userId, newId, fault).1;
            || st' == st
            || (&& st' == st.(schedules := st.schedules[newId := FromDto(dto)], issued := st.issued + {newId},
                              repeatables := st'.repeatables, audit := st'.audit)
                && st'.audit in {st.audit, st.audit + [AuditEntry(CREATE_SCHEDULE, userId, dto.workspaceId, newId)]}
                && dto.workspaceId in st.dir.workspaces && dto.repositoryId in st.dir.repositories)
  {
  }

  lemma UpdateTouches(st: State, id: Id, dto: UpdateDto, userId: Id, fault: Fault)
    ensures var st' := Update(st, id, dto, userId, fault).1;
            || st' == st
            || (&& id in st.schedules
                && st' == st.(schedules := st'.schedules, repeatables := st'.repeatables, audit := st'.audit)
                && st'.audit in {st.audit, st.audit + [AuditEntry(UPDATE_SCHEDULE, userId, st.schedules[id].workspaceId, id)]}
                && (|| st'.schedules == st.schedules
                    || (st'.schedules == st.schedules[id := Merge(st.schedules[id], dto)] && !Unwritable(st.dir, dto))))
  {
  }

  lemma RemoveTouches(st: State, id: Id, userId: Id, fault: Fault)
    ensures var st' := Remove(st, id, userId, fault).1;
            || st' == st
            || (&& id in st.schedules
                && st' == st.(schedules := st'.schedules, repeatables := st'.repeatables, audit := st'.audit)
                && st'.audit in {st.audit, st.audit + [AuditEntry(DELETE_SCHEDULE, userId, st.schedules[id].workspaceId, id)]}
                && st'.schedules in {st.schedules, st.schedules - {id}})
  {
  }

  /* ---------- agreement ---------- */

  predicate EntryFits(schedules: map<Id, Schedule>, e: Repeatable) {
    e.scheduleId in schedules && schedules[e.scheduleId].active
    && e.jobId == JobId(e.scheduleId) && e.cron == schedules[e.scheduleId].cronExpression
  }

  ghost predicate OnePerJob(q: seq<Repeatable>) {
    forall i, j :: 0 <= i < j < |q| ==> q[i].jobId != q[j].jobId
  }

  ghost predicate HasEntry(q: seq<Repeatable>, id: Id) {
    exists e :: e in q && e.scheduleId == id
  }

  /** Every entry belongs to an active schedule and has its cron, and none is there twice. */
  ghost predicate Fits(schedules: map<Id, Schedule>, q: seq<Repeatable>) {
    OnePerJob(q) && forall e :: e in q ==> EntryFits(schedules, e)
  }

  /** An active schedule without an entry: it never fires. */
  ghost predicate Missing(schedules: map<Id, Schedule>, q: seq<Repeatable>, id: Id) {
    id in schedules && schedules[id].active && !HasEntry(q, id)
  }

  /** The queue holds exactly one entry for each active schedule, with that
      schedule's cron, and nothing else. */
  ghost predicate Agree(schedules: map<Id, Schedule>, q: seq<Repeatable>) {
    Fits(schedules, q) && forall id :: !Missing(schedules, q, id)
  }

  lemma {:induction false} FilterOnePerJob(p: Repeatable -> bool, q: seq<Repeatable>)
    requires OnePerJob(q)
    ensures OnePerJob(Filter(p, q))
  {
    if q != [] {
      FilterOnePerJob(p, q[1..]);
      var rest := Filter(p, q[1..]);
      if p(q[0]) {
        forall e | e in rest ensures q[0].jobId != e.jobId {
          var j :| 1 <= j < |q| && q[j] == e;
        }
        assert Filter(p, q) == [q[0]] + rest;
      } else {
        assert Filter(p, q) == rest;
      }
    }
  }

  /** With one entry a job, removing the first match by key removes exactly the
      schedule's entry. */
  lemma RemovalRemovesExactly(schedules: map<Id, Schedule>, q: seq<Repeatable>, id: Id)
    requires Fits(schedules, q)
    ensures var q' := RemoveScheduleFromQueue(q, id);
            OnePerJob(q') && forall e :: e in q' <==> e in q && e.scheduleId != id
  {
    var q' := RemoveScheduleFromQueue(q, id);
    var found := FindEntry(q, JobId(id));
    forall e | e in q ensures e.jobId == JobId(id) <==> e.scheduleId == id {
      if e.jobId == JobId(id) { JobIdInjective(e.scheduleId, id); }
    }
    if found.Some? {
      FilterOnePerJob((e: Repeatable) => !SameKey(e, found.value), q);
      forall e | e in q && e.jobId == JobId(id) ensures e == found.value {
        var i :| 0 <= i < |q| && q[i] == e;
        var j :| 0 <= j < |q| && q[j] == found.value;
      }
    }
  }

  /** Adding to a queue without an entry for the schedule appends its entry. */
  lemma AdditionAppends(q: seq<Repeatable>, id: Id, s: Schedule, userId: Id)
    requires OnePerJob(q) && forall e :: e in q ==> e.jobId == JobId(e.scheduleId) && e.scheduleId != id
    ensures AddScheduleToQueue(q, id, s, userId) == q + [Repeatable(JobId(id), s.cronExpression, id, userId)]
    ensures OnePerJob(AddScheduleToQueue(q, id, s, userId))
  {
    forall e | e in q ensures e.jobId != JobId(id) {
      if e.jobId == JobId(id) { JobIdInjective(e.scheduleId, id); }
    }
  }

  /** Queue `q` differs from `q0` at most in the entries of schedule `id`. */
  ghost predicate SameElsewhere(q0: seq<Repeatable>, q: seq<Repeatable>, id: Id) {
    && (forall e: Repeatable :: e.scheduleId != id ==> (e in q <==> e in q0))
    && (forall e :: e in q ==> e.jobId == JobId(e.scheduleId))
    && OnePerJob(q)
  }

  /** The schedule's entries suit its row. */
  ghost predicate FitsFor(q: seq<Repeatable>, id: Id, s: Schedule) {
    forall e :: e in q && e.scheduleId == id ==> s.active && e.cron == s.cronExpression
  }

  /** After a change to one schedule, whether the queue fits is a matter of that
      schedule's own entries, and no other schedule gains or loses its entry. */
  lemma FittingIsLocal(schedules: map<Id, Schedule>, q0: seq<Repeatable>, q: seq<Repeatable>, id: Id, s: Schedule)
    requires Fits(schedules, q0) && SameElsewhere(q0, q, id)
    ensures Fits(schedules[id := s], q) <==> FitsFor(q, id, s)
    ensures forall x :: x != id ==> (Missing(schedules[id := s], q, x) <==> Missing(schedules, q0, x))
    ensures Missing(schedules[id := s], q, id) <==> s.active && !HasEntry(q, id)
  {
    var schedules' := schedules[id := s];
    forall x | x != id ensures Missing(schedules', q, x) <==> Missing(schedules, q0, x) {
      if e :| e in q0 && e.scheduleId == x { assert e in q; }
      if e :| e in q && e.scheduleId == x { assert e in q0; }
    }
    if FitsFor(q, id, s) {
      forall e | e in q ensures EntryFits(schedules', e) {
        if e.scheduleId != id { assert EntryFits(schedules, e); }
      }
    }
  }

  lemma NothingSent(schedules: map<Id, Schedule>, q: seq<Repeatable>, id: Id)
    requires Fits(schedules, q)
    ensures SameElsewhere(q, q, id)
    ensures id in schedules ==> FitsFor(q, id, schedules[id]) && schedules[id := schedules[id]] == schedules
    ensures HasEntry(q, id) ==> id in schedules && schedules[id].active
  {
  }

  lemma AfterRemoval(schedules: map<Id, Schedule>, q: seq<Repeatable>, id: Id)
    requires Fits(schedules, q)
    ensures SameElsewhere(q, RemoveScheduleFromQueue(q, id), id)
    ensures !HasEntry(RemoveScheduleFromQueue(q, id), id)
  {
    RemovalRemovesExactly(schedules, q, id);
  }

  lemma AfterAddition(q0: seq<Repeatable>, q: seq<Repeatable>, id: Id, s: Schedule, userId: Id)
    requires SameElsewhere(q0, q, id) && !HasEntry(q, id) && s.active
    ensures var q' := AddScheduleToQueue(q, id, s, userId);
            SameElsewhere(q0, q', id) && FitsFor(q', id, s) && HasEntry(q', id)
  {
    AdditionAppends(q, id, s, userId);
    var e := Repeatable(JobId(id), s.cronExpression, id, userId);
    assert e in q + [e];
  }

  /** The row of a new schedule or scan can be written: the user may manage the
      workspace, and workspace and repository exist. */
  predicate MayCreate(st: State, workspaceId: Id, repositoryId: Id, userId: Id) {
    workspaceId in st.dir.workspaces && MayManage(st.dir, userId, workspaceId) && repositoryId in st.dir.repositories
  }

  /** Whatever fails, `create` leaves no stray entry; it leaves a schedule without its
      entry exactly when the queue's add throws for an active one. */
  lemma CreateLeaves(st: State, dto: CreateDto, userId: Id, newId: Id, fault: Fault, x: Id)
    requires Fits(st.schedules, st.repeatables) && newId !in st.schedules
    ensures var st' := Create(st, dto, userId, newId, fault).1;
            && Fits(st'.schedules, st'.repeatables)
            && (Missing(st'.schedules, st'.repeatables, x)
                <==> Missing(st.schedules, st.repeatables, x) || (x == newId && MayCreate(st, dto.workspaceId, dto.repositoryId, userId) && FromDto(dto).active && fault == AddFails))
  {
    var s, q := FromDto(dto), st.repeatables;
    NothingSent(st.schedules, q, newId);
    FittingIsLocal(st.schedules, q, q, newId, s);
    if s.active {
      AfterAddition(q, q, newId, s, userId);
      FittingIsLocal(st.schedules, q, AddScheduleToQueue(q, newId, s, userId), newId, s);
    }
  }

  /** The updates after which the schedule has no entry although active: the row write
      throws after the entry was dropped, or the add throws. */
  predicate Loses(dir: Directory, s: Schedule, dto: UpdateDto, fault: Fault) {
    && !DropThrows(s, dto, fault)
    && if WriteThrows(dir, dto, fault) then Drops(s, dto) else fault == AddFails && Adds(s, dto)
  }

  /** The updates that write the row. */
  predicate Writes(dir: Directory, s: Schedule, dto: UpdateDto, fault: Fault) {
    !DropThrows(s, dto, fault) && !WriteThrows(dir, dto, fault)
  }

  /** The updates after which a schedule that had lost its entry has one, or needs none. */
  predicate Mends(dir: Directory, s: Schedule, dto: UpdateDto, fault: Fault) {
    Writes(dir, s, dto, fault) && (if Adds(s, dto) then fault != AddFails else !Merge(s, dto).active)
  }

  /** An active schedule that stays active is given the empty cron expression, which is
      stored but not queued. Request validation refuses such an update. */
  predicate EmptiesCron(s: Schedule, dto: UpdateDto) {
    s.active && dto.active != Given(false) && dto.cronExpression == Given("") && s.cronExpression != ""
  }

  /** The queue after the drop, if any. */
  function Dropped(st: State, id: Id, dto: UpdateDto): seq<Repeatable>
    requires id in st.schedules
  {
    if Drops(st.schedules[id], dto) then RemoveScheduleFromQueue(st.repeatables, id) else st.repeatables
  }

  /** The three states an update may end in: row write thrown, row written but nothing
      added, entry added. */
  lemma UpdateEndings(st: State, id: Id, dto: UpdateDto, userId: Id, x: Id)
    requires Fits(st.schedules, st.repeatables) && id in st.schedules
    ensures var s, s', q := st.schedules[id], Merge(st.schedules[id], dto), Dropped(st, id, dto);
            && Fits(st.schedules, q)
            && (Missing(st.schedules, q, x) <==> Missing(st.schedules, st.repeatables, x) || (x == id && Drops(s, dto)))
            && (Fits(st.schedules[id := s'], q) <==> !(EmptiesCron(s, dto) && HasEntry(q, id)))
            && (Missing(st.schedules[id := s'], q, x)
                <==> if x == id then s'.active && (Adds(s, dto) || Missing(st.schedules, st.repeatables, x))
                     else Missing(st.schedules, st.repeatables, x))
  {
    var s, s', q0, q := st.schedules[id], Merge(st.schedules[id], dto), st.repeatables, Dropped(st, id, dto);
    NothingSent(st.schedules, q0, id);
    AfterRemoval(st.schedules, q0, id);
    FittingIsLocal(st.schedules, q0, q, id, s');
    FittingIsLocal(st.schedules, q0, q, id, s);
  }

  lemma UpdateAdds(st: State, id: Id, dto: UpdateDto, userId: Id, x: Id)
    requires Fits(st.schedules, st.repeatables) && id in st.schedules && Adds(st.schedules[id], dto)
    ensures var s' := Merge(st.schedules[id], dto);
            var q' := AddScheduleToQueue(Dropped(st, id, dto), id, s', userId);
            && Fits(st.schedules[id := s'], q')
            && (Missing(st.schedules[id := s'], q', x) <==> x != id && Missing(st.schedules, st.repeatables, x))
  {
    var s', q0, q := Merge(st.schedules[id], dto), st.repeatables, Dropped(st, id, dto);
    NothingSent(st.schedules, q0, id);
    AfterRemoval(st.schedules, q0, id);
    AfterAddition(q0, q, id, s', userId);
    FittingIsLocal(st.schedules, q0, AddScheduleToQueue(q, id, s', userId), id, s');
  }

  /** Whatever fails, an update that passes validation leaves no stray entry, and which
      schedule lacks its entry afterwards is exactly this. */
  lemma UpdateLeaves(st: State, id: Id, dto: UpdateDto, userId: Id, fault: Fault, x: Id)
    requires Fits(st.schedules, st.repeatables)
    ensures var st' := Update(st, id, dto, userId, fault).1;
            var q, q' := st.repeatables, st'.repeatables;
            && (Fits(st'.schedules, q')
                <==> !(Permitted(st, id, userId) && Writes(st.dir, st.schedules[id], dto, fault)
                       && EmptiesCron(st.schedules[id], dto) && HasEntry(q, id)))
            && (Missing(st'.schedules, q', x)
                <==> if !Permitted(st, id, userId) || x != id then Missing(st.schedules, q, x)
                     else Loses(st.dir, st.schedules[id], dto, fault)
                          || (Missing(st.schedules, q, x) && !Mends(st.dir, st.schedules[id], dto, fault)))
  {
    if id in st.schedules {
      UpdateEndings(st, id, dto, userId, x);
      if Adds(st.schedules[id], dto) { UpdateAdds(st, id, dto, userId, x); }
    }
  }

  /** Whatever fails, `remove` leaves no stray entry, and a schedule without its entry
      exactly when deleting the row of an active one throws. */
  lemma RemoveLeaves(st: State, id: Id, userId: Id, fault: Fault, x: Id)
    requires Fits(st.schedules, st.repeatables)
    ensures var st' := Remove(st, id, userId, fault).1;
            && Fits(st'.schedules, st'.repeatables)
            && (Missing(st'.schedules, st'.repeatables, x)
                <==> if !Permitted(st, id, userId) || x != id then Missing(st.schedules, st.repeatables, x)
                     else (fault == WriteFails && st.schedules[id].active) || (fault == DropFails && Missing(st.schedules, st.repeatables, x)))
  {
    if id in st.schedules {
      RemoveEndings(st, id, x);
    }
  }

  lemma RemoveEndings(st: State, id: Id, x: Id)
    requires Fits(st.schedules, st.repeatables) && id in st.schedules
    ensures var s := st.schedules[id];
            var q := if s.active then RemoveScheduleFromQueue(st.repeatables, id) else st.repeatables;
            && Fits(st.schedules, q) && Fits(st.schedules - {id}, q)
            && (Missing(st.schedules, q, x) <==> if x == id then s.active else Missing(st.schedules, st.repeatables, x))
            && (Missing(st.schedules - {id}, q, x) <==> x != id && Missing(st.schedules, st.repeatables, x))
  {
    var s := st.schedules[id];
    var q := if s.active then RemoveScheduleFromQueue(st.repeatables, id) else st.repeatables;
    NothingSent(st.schedules, st.repeatables, id);
    AfterRemoval(st.schedules, st.repeatables, id);
    FittingIsLocal(st.schedules, st.repeatables, q, id, s);
    forall e | e in q ensures EntryFits(st.schedules - {id}, e) {
      assert EntryFits(st.schedules, e);
    }
  }

  /* ---------- when the agreement is kept ---------- */

  /** `create` keeps the agreement unless the queue's add throws for an active schedule,
      as it does for a cron expression the queue cannot read. */
  lemma CreateKeepsAgreement(st: State, dto: CreateDto, userId: Id, newId: Id, fault: Fault)
    requires Agree(st.schedules, st.repeatables) && newId !in st.schedules
    ensures var st' := Create(st, dto, userId, newId, fault).1;
            Agree(st'.schedules, st'.repeatables)
            <==> !(MayCreate(st, dto.workspaceId, dto.repositoryId, userId) && FromDto(dto).active && fault == AddFails)
  {
    var st' := Create(st, dto, userId, newId, fault).1;
    forall x ensures Missing(st'.schedules, st'.repeatables, x) ==> x == newId {
      CreateLeaves(st, dto, userId, newId, fault, x);
    }
    CreateLeaves(st, dto, userId, newId, fault, newId);
  }

  /** `update` keeps the agreement exactly when it does not lose the entry and, where
      the row is written, does not empty the cron expression. */
  lemma UpdateKeepsAgreement(st: State, id: Id, dto: UpdateDto, userId: Id, fault: Fault)
    requires Agree(st.schedules, st.repeatables)
    ensures var st' := Update(st, id, dto, userId, fault).1;
            Agree(st'.schedules, st'.repeatables)
            <==> !(Permitted(st, id, userId)
                   && (Loses(st.dir, st.schedules[id], dto, fault)
                       || (Writes(st.dir, st.schedules[id], dto, fault) && EmptiesCron(st.schedules[id], dto))))
  {
    var st' := Update(st, id, dto, userId, fault).1;
    forall x ensures Missing(st'.schedules, st'.repeatables, x) ==> x == id {
      UpdateLeaves(st, id, dto, userId, fault, x);
      assert !Missing(st.schedules, st.repeatables, x);
    }
    UpdateLeaves(st, id, dto, userId, fault, id);
    assert !Missing(st.schedules, st.repeatables, id);
  }

  /** `remove` keeps the agreement unless deleting an active schedule's row throws. */
  lemma RemoveKeepsAgreement(st: State, id: Id, userId: Id, fault: Fault)
    requires Agree(st.schedules, st.repeatables)
    ensures var st' := Remove(st, id, userId, fault).1;
            Agree(st'.schedules, st'.repeatables)
            <==> !(Permitted(st, id, userId) && fault == WriteFails && st.schedules[id].active)
  {
    var st' := Remove(st, id, userId, fault).1;
    forall x ensures Missing(st'.schedules, st'.repeatables, x) ==> x == id {
      RemoveLeaves(st, id, userId, fault, x);
      assert !Missing(st.schedules, st.repeatables, x);
    }
    RemoveLeaves(st, id, userId, fault, id);
    assert !Missing(st.schedules, st.repeatables, id);
  }

  /** One active schedule "s" of user "u", queued with its cron. */
  function OneSchedule(): State {
    var dir := Directory(map["u" := User("e", "MEMBER", STARTER)], map["w" := Workspace("n", "u", None)], map["r" := "u"], []);
    State(dir, map["s" := Schedule("r", "w", "main", "0 0 * * *", false, [], true)],
          [Repeatable(JobId("s"), "0 0 * * *", "s", "u")], map[], [], [], [], {"s"}, 0)
  }

  /** No infrastructure need fail: an update that passes validation, gives a new cron
      expression, and names a workspace that does not exist or sends null for another
      field, drops the entry and then throws, so the schedule stays active and never
      fires again. */
  lemma RefusedUpdateLosesTheEntry(dto: UpdateDto)
    requires dto in {UpdateDto(Absent, Given("gone"), Absent, Given("0 1 * * *"), Absent, Absent, Absent),
                     UpdateDto(Absent, Absent, Null, Given("0 1 * * *"), Absent, Absent, Absent)}
    ensures var st := OneSchedule();
            var (reply, st') := Update(st, "s", dto, "u", NoFault);
            && Accepted(dto) && Agree(st.schedules, st.repeatables)
            && reply == Error && st'.schedules == st.schedules && st'.repeatables == []
            && Missing(st'.schedules, st'.repeatables, "s")
  {
    var st := OneSchedule();
    var e := Repeatable(JobId("s"), "0 0 * * *", "s", "u");
    assert e in [e] && st.repeatables == [e];
    assert Drops(st.schedules["s"], dto) && Unwritable(st.dir, dto) && MayManage(st.dir, "u", "w");
    assert FindEntry([e], JobId("s")) == Some(e);
    assert [e][1..] == [];
  }

  /* ---------- firing ---------- */

  /** Foreign keys: schedules and scans refer to existing workspaces and repositories. */
  ghost predicate Linked(st: State) {
    && (forall id :: id in st.schedules ==> st.schedules[id].workspaceId in st.dir.workspaces && st.schedules[id].repositoryId in st.dir.repositories)
    && (forall id :: id in st.scans ==> st.scans[id].workspaceId in st.dir.workspaces && st.scans[id].repositoryId in st.dir.repositories)
  }

  /** Firing an entry that fits finds its schedule, which is active. If the job's user
      may no longer manage the workspace, or the row cannot be written, nothing changes;
      otherwise one QUEUED scan copied from the schedule is added, with one job for it
      exactly when the queue's add does not throw, and the call succeeds exactly when
      nothing does. */
  lemma FiringCreatesOneScan(st: State, i: nat, newId: Id, fault: Fault)
    requires i < |st.repeatables| && Fits(st.schedules, st.repeatables) && Linked(st) && newId !in st.issued
    ensures st.repeatables[i].scheduleId in st.schedules && st.schedules[st.repeatables[i].scheduleId].active
    ensures var e := st.repeatables[i]; var s := st.schedules[e.scheduleId];
            var (reply, st') := TriggerScan(st, e.scheduleId, e.userId, newId, fault);
            if !MayManage(st.dir, e.userId, s.workspaceId) then reply == Forbidden && st' == st
            else if fault == WriteFails then reply == Error && st' == st
            else
              && (reply == Ok <==> fault != AddFails && fault != AuditFails)
              && st'.scans == st.scans[newId := Scan(s.repositoryId, s.workspaceId, s.branch, QUEUED, s.historical, s.fileExclusions, None, None)]
              && st'.queue == (if fault == AddFails then st.queue else st.queue + [ScanJob(newId, e.userId)])
              && st'.audit == (if reply == Ok then st.audit + [AuditEntry(CREATE_SCAN, e.userId, s.workspaceId, newId)] else st.audit)
              && st'.schedules == st.schedules && st'.repeatables == st.repeatables
  {
    assert st.repeatables[i] in st.repeatables;
  }

  /** From the request to the scan: a schedule created active is due with the cron of
      the request, and firing it creates the scan the request described, with the
      defaults for what it left out. */
  lemma CreatedScheduleFires(st: State, dto: CreateDto, userId: Id, newId: Id, scanId: Id)
    requires Agree(st.schedules, st.repeatables) && newId !in st.schedules
    requires Create(st, dto, userId, newId, NoFault).0 == Ok && dto.active != Some(false)
    ensures var st' := Create(st, dto, userId, newId, NoFault).1;
            && Repeatable("schedule-" + newId, dto.cronExpression, newId, userId) in st'.repeatables
            && var (reply, fired) := TriggerScan(st', newId, userId, scanId, NoFault);
               && reply == Ok
               && fired.scans == st.scans[scanId := Scan(dto.repositoryId, dto.workspaceId, dto.branch, QUEUED,
                    dto.historical.Some? && dto.historical.value,
                    if dto.fileExclusions.Some? then dto.fileExclusions.value else [], None, None)]
  {
    NothingSent(st.schedules, st.repeatables, newId);
    AdditionAppends(st.repeatables, newId, FromDto(dto), userId);
  }

  predicate Took<T(==)>(f: Sent<T>, before: T, after: T) {
    if f.Given? then after == f.value else after == before
  }

  /** The scan has each given field of the update, and the schedule's own otherwise. */
  predicate ScanMerges(s: Schedule, dto: UpdateDto, scan: Scan) {
    && Took(dto.branch, s.branch, scan.branch) && Took(dto.repositoryId, s.repositoryId, scan.repositoryId)
    && Took(dto.workspaceId, s.workspaceId, scan.workspaceId) && Took(dto.historical, s.historical, scan.historical)
    && Took(dto.fileExclusions, s.fileExclusions, scan.fileExclusions)
  }

  /** A successful update writes the merged row and no other. */
  lemma UpdateWrites(st: State, id: Id, dto: UpdateDto, userId: Id)
    requires Update(st, id, dto, userId, NoFault).0 == Ok
    ensures id in st.schedules
    ensures Update(st, id, dto, userId, NoFault).1.schedules == st.schedules[id := Merge(st.schedules[id], dto)]
  {
  }

  /** After an update, firing an active schedule creates a scan with each given field
      replaced and each omitted one as before. */
  lemma UpdatedScheduleFires(st: State, id: Id, dto: UpdateDto, userId: Id, firedBy: Id, scanId: Id, fault: Fault)
    requires Update(st, id, dto, userId, NoFault).0 == Ok
    ensures id in st.schedules
    ensures var s := st.schedules[id];
            var st' := Update(st, id, dto, userId, NoFault).1;
            var (reply, fired) := TriggerScan(st', id, firedBy, scanId, fault);
            && st'.schedules.Keys == st.schedules.Keys
            && (forall x :: x in st.schedules && x != id ==> st'.schedules[x] == st.schedules[x])
            && Took(dto.cronExpression, s.cronExpression, st'.schedules[id].cronExpression)
            && Took(dto.active, s.active, st'.schedules[id].active)
            && (reply == Ok ==> scanId in fired.scans && ScanMerges(s, dto, fired.scans[scanId]))
  {
    UpdateWrites(st, id, dto, userId);
    var st' := Update(st, id, dto, userId, NoFault).1;
    CreateScanTouches(st', RequestOf(st'.schedules[id]), firedBy, scanId, fault);
  }

  /* ---------- what each call does, exactly ---------- */

  /** The row after an update: each given field, and each other as before. */
  ghost predicate RowUpdated(s: Schedule, dto: UpdateDto, s': Schedule) {
    && Took(dto.repositoryId, s.repositoryId, s'.repositoryId) && Took(dto.workspaceId, s.workspaceId, s'.workspaceId)
    && Took(dto.branch, s.branch, s'.branch) && Took(dto.cronExpression, s.cronExpression, s'.cronExpression)
    && Took(dto.historical, s.historical, s'.historical) && Took(dto.fileExclusions, s.fileExclusions, s'.fileExclusions)
    && Took(dto.active, s.active, s'.active)
  }

  /** The database cannot write the row: a field is null, or names nothing. */
  ghost predicate RowRefused(dir: Directory, dto: UpdateDto) {
    || dto.repositoryId.Null? || dto.workspaceId.Null? || dto.branch.Null? || dto.cronExpression.Null?
    || dto.historical.Null? || dto.fileExclusions.Null? || dto.active.Null?
    || (dto.workspaceId.Given? && dto.workspaceId.value !in dir.workspaces)
    || (dto.repositoryId.Given? && dto.repositoryId.value !in dir.repositories)
  }

  /** The conditions the laws of an update are stated with, read off the request. */
  lemma UpdateParts(dir: Directory, s: Schedule, dto: UpdateDto)
    ensures RowUpdated(s, dto, Merge(s, dto))
    ensures Unwritable(dir, dto) <==> RowRefused(dir, dto)
    ensures Drops(s, dto) <==> s.active && (dto.active == Given(false) || (dto.cronExpression.Given? && dto.cronExpression.value != ""))
    ensures Adds(s, dto)
       <==> && (if dto.active.Given? then dto.active.value else s.active)
            && (!s.active || (dto.cronExpression.Given? && dto.cronExpression.value != ""))
  {
  }

  /** A permitted update, step by step. */
  lemma UpdateSteps(st: State, id: Id, dto: UpdateDto, userId: Id, fault: Fault)
    requires Permitted(st, id, userId)
    ensures var s := st.schedules[id]; var (reply, st') := Update(st, id, dto, userId, fault);
            if fault == DropFails && Drops(s, dto) then reply == Error && st' == st
            else if fault == WriteFails || Unwritable(st.dir, dto) then reply == Error && st' == st.(repeatables := st'.repeatables)
            else
              && st' == st.(schedules := st.schedules[id := Merge(s, dto)], repeatables := st'.repeatables, audit := st'.audit)
              && st'.audit == (if reply == Ok then st.audit + [AuditEntry(UPDATE_SCHEDULE, userId, s.workspaceId, id)] else st.audit)
              && (fault == NoFault ==> reply == Ok) && (fault == AuditFails ==> reply == Error)
  {
  }

  /** The rows: only a manager of the workspace changes a schedule, and only when the
      database writes the row and no call before it throws; then that row alone changes,
      field by field as asked. */
  lemma UpdateWritesExactly(st: State, id: Id, dto: UpdateDto, userId: Id, fault: Fault)
    requires UniqueMemberships(st.dir.memberships)
    ensures var (reply, st') := Update(st, id, dto, userId, fault);
            if id !in st.schedules then reply == NotFound && st' == st
            else
              var s := st.schedules[id];
              var dropsFirst := s.active && (dto.active == Given(false) || (dto.cronExpression.Given? && dto.cronExpression.value != ""));
              if !Manager(st.dir, userId, s.workspaceId) then reply == Forbidden && st' == st
              else if fault == DropFails && dropsFirst then reply == Error && st' == st
              else
                && st' == st.(schedules := st'.schedules, repeatables := st'.repeatables, audit := st'.audit)
                && st'.schedules.Keys == st.schedules.Keys && (forall x :: x in st.schedules && x != id ==> st'.schedules[x] == st.schedules[x])
                && if fault == WriteFails || RowRefused(st.dir, dto) then reply == Error && st'.schedules == st.schedules && st'.audit == st.audit
                   else RowUpdated(s, dto, st'.schedules[id])
                        && st'.audit == (if reply == Ok then st.audit + [AuditEntry(UPDATE_SCHEDULE, userId, s.workspaceId, id)] else st.audit)
                        && (fault == NoFault ==> reply == Ok) && (fault == AuditFails ==> reply == Error)
  {
    if id in st.schedules {
      MayManageMeaning(st.dir, userId, st.schedules[id].workspaceId);
      UpdateParts(st.dir, st.schedules[id], dto);
      if Permitted(st, id, userId) { UpdateSteps(st, id, dto, userId, fault); }
    }
  }

  /** The entries of the schedule, when the row was written and the queue took what it was
      given: none while inactive; its one entry, new with the cron of the row, when it
      became active or was given a cron; and otherwise those it had. No other schedule's
      entries change. */
  lemma UpdateQueuesExactly(st: State, id: Id, dto: UpdateDto, userId: Id, fault: Fault)
    requires Fits(st.schedules, st.repeatables) && Permitted(st, id, userId) && Accepted(dto)
    requires fault == NoFault || fault == AuditFails
    requires !RowRefused(st.dir, dto)
    ensures var s, st' := st.schedules[id], Update(st, id, dto, userId, fault).1;
            var q, q' := st.repeatables, st'.repeatables;
            var active := if dto.active.Given? then dto.active.value else s.active;
            var cron := if dto.cronExpression.Given? then dto.cronExpression.value else s.cronExpression;
            && (forall e: Repeatable :: e.scheduleId != id ==> (e in q' <==> e in q))
            && (forall e: Repeatable :: e.scheduleId == id ==>
                  (e in q' <==> active && if dto.cronExpression.Given? || !s.active then e == Repeatable("schedule-" + id, cron, id, userId) else e in q))
  {
    var s := st.schedules[id];
    UpdateEntries(st, id, dto, userId);
  }

  lemma UpdateEntries(st: State, id: Id, dto: UpdateDto, userId: Id)
    requires Fits(st.schedules, st.repeatables) && id in st.schedules
    ensures var s, q, q1 := st.schedules[id], st.repeatables, Dropped(st, id, dto);
            && (forall e: Repeatable :: e in q1 <==> e in q && !(Drops(s, dto) && e.scheduleId == id))
            && (Adds(s, dto) ==> AddScheduleToQueue(q1, id, Merge(s, dto), userId) == q1 + [Repeatable(JobId(id), Merge(s, dto).cronExpression, id, userId)])
            && (!s.active ==> forall e :: e in q ==> e.scheduleId != id)
  {
    RemovalRemovesExactly(st.schedules, st.repeatables, id);
    NothingSent(st.schedules, st.repeatables, id);
    if Adds(st.schedules[id], dto) { AdditionAppends(Dropped(st, id, dto), id, Merge(st.schedules[id], dto), userId); }
  }

  /** An inactive schedule whose update does not activate it stays inactive and gains no
      entry, whoever asks and whatever fails. */
  lemma InactiveStaysInactive(st: State, id: Id, dto: UpdateDto, userId: Id, fault: Fault)
    requires Fits(st.schedules, st.repeatables) && id in st.schedules
    requires !st.schedules[id].active && dto.active != Given(true)
    ensures var st' := Update(st, id, dto, userId, fault).1;
            && id in st'.schedules && !st'.schedules[id].active
            && forall e :: e in st'.repeatables ==> e.scheduleId != id
  {
    NothingSent(st.schedules, st.repeatables, id);
    if dto.active.Given? { assert dto.active == Given(dto.active.value) && !dto.active.value; }
  }

  /** What creating a schedule does to the rows, exactly. */
  lemma CreateWritesExactly(st: State, dto: CreateDto, userId: Id, newId: Id, fault: Fault)
    requires UniqueMemberships(st.dir.memberships)
    ensures var (reply, st') := Create(st, dto, userId, newId, fault); var ws := dto.workspaceId;
            if ws !in st.dir.workspaces then reply == NotFound && st' == st
            else if !Manager(st.dir, userId, ws) then reply == Forbidden && st' == st
            else if fault == WriteFails || dto.repositoryId !in st.dir.repositories then reply == Error && st' == st
            else
              && st' == st.(issued := st.issued + {newId}, repeatables := st'.repeatables, audit := st'.audit,
                   schedules := st.schedules[newId := Schedule(dto.repositoryId, ws, dto.branch, dto.cronExpression,
                     dto.historical.Some? && dto.historical.value, if dto.fileExclusions.Some? then dto.fileExclusions.value else [],
                     dto.active.Some? ==> dto.active.value)])
              && st'.audit == (if reply == Ok then st.audit + [AuditEntry(CREATE_SCHEDULE, userId, ws, newId)] else st.audit)
              && (fault == NoFault ==> reply == Ok) && (fault == AuditFails ==> reply == Error)
              && ((dto.active.Some? && !dto.active.value) || fault == AddFails ==> st'.repeatables == st.repeatables)
  {
    MayManageMeaning(st.dir, userId, dto.workspaceId);
  }

  /** What removing a schedule does, exactly. */
  lemma RemoveWritesExactly(st: State, id: Id, userId: Id, fault: Fault)
    requires UniqueMemberships(st.dir.memberships) && Fits(st.schedules, st.repeatables)
    ensures var (reply, st') := Remove(st, id, userId, fault);
            if id !in st.schedules then reply == NotFound && st' == st
            else
              var s := st.schedules[id];
              if !Manager(st.dir, userId, s.workspaceId) then reply == Forbidden && st' == st
              else if fault == DropFails && s.active then reply == Error && st' == st
              else
                && (forall e :: e in st'.repeatables <==> e in st.repeatables && e.scheduleId != id)
                && st' == st.(schedules := if fault == WriteFails then st.schedules else map x | x in st.schedules && x != id :: st.schedules[x],
                              repeatables := st'.repeatables,
                              audit := if reply == Ok then st.audit + [AuditEntry(DELETE_SCHEDULE, userId, s.workspaceId, id)] else st.audit)
                && (reply == if fault == WriteFails || fault == AuditFails then Error else Ok)
  {
    if id in st.schedules {
      MayManageMeaning(st.dir, userId, st.schedules[id].workspaceId);
      RemovalRemovesExactly(st.schedules, st.repeatables, id);
      NothingSent(st.schedules, st.repeatables, id);
    }
    assert (map x | x in st.schedules && x != id :: st.schedules[x]) == st.schedules - {id};
  }
}
