/** The schedule service, the scan service and the scan processor as they run:
    methods that change the stored tables and queues in sequence, each proved
    against the functions of `Scans` and `Schedules`. */
module PipelineServices {
  import opened Common
  import opened Directories
  import opened Scans
  import opened Schedules

  /** The database tables and the two queues. The ghost fields record which row ids
      have been issued and where each taken job stands. */
  class Backend {
    var dir: Directory
    var schedules: map<Id, Schedule>
    var repeatables: seq<Repeatable>
    var scans: map<Id, Scan>
    var queue: seq<ScanJob>
    var audit: seq<AuditEntry>
    var now: nat
    ghost var workers: seq<Worker>
    ghost var issued: set<Id>

    constructor (dir: Directory)
      ensures Current() == State(dir, map[], [], map[], [], [], [], {}, 0)
    {
      this.dir := dir;
      schedules, repeatables, scans, queue, audit, now := map[], [], map[], [], [], 0;
      workers, issued := [], {};
    }

    ghost function Current(): State
      reads this
    {
      State(dir, schedules, repeatables, scans, queue, workers, audit, issued, now)
    }
  }

  class ScansService {
    const db: Backend

    constructor (db: Backend)
      ensures this.db == db
    {
      this.db := db;
    }

    method Create(dto: ScanRequest, userId: Id, newId: Id, fault: Fault) returns (reply: Reply)
      modifies db
      ensures (reply, db.Current()) == CreateScan(old(db.Current()), dto, userId, newId, fault)
    {
      if dto.workspaceId !in db.dir.workspaces { return NotFound; }
      if !MayManage(db.dir, userId, dto.workspaceId) { return Forbidden; }
      var historical := dto.historical.Some? && dto.historical.value;
      var exclusions := if dto.fileExclusions.Some? then dto.fileExclusions.value else [];
      if fault == WriteFails || dto.repositoryId !in db.dir.repositories { return Error; }
      db.scans := db.scans[newId := Scan(dto.repositoryId, dto.workspaceId, dto.branch, QUEUED, historical, exclusions, None, None)];
      db.issued := db.issued + {newId};
      if fault == AddFails { return Error; }
      db.queue := db.queue + [ScanJob(newId, userId)];
      if fault == AuditFails { return Error; }
      db.audit := db.audit + [AuditEntry(CREATE_SCAN, userId, dto.workspaceId, newId)];
      return Ok;
    }

    method Remove(id: Id, userId: Id, fault: Fault) returns (reply: Reply)
      modifies db
      ensures (reply, db.Current()) == RemoveScan(old(db.Current()), id, userId, fault)
    {
      if id !in db.scans { return NotFound; }
      var workspaceId := db.scans[id].workspaceId;
      if !MayManage(db.dir, userId, workspaceId) { return Forbidden; }
      if fault == WriteFails { return Error; }
      db.scans := db.scans - {id};
      if fault == AuditFails { return Error; }
      db.audit := db.audit + [AuditEntry(DELETE_SCAN, userId, workspaceId, id)];
      return Ok;
    }

    /** Finds the row and writes it; throws when either call does or the row is gone. */
    method UpdateScanStatus(id: Id, status: ScanStatus, results: Option<Results>, findOk: bool, writeOk: bool) returns (threw: bool)
      modifies db
      ensures threw <==> !(findOk && writeOk && id in old(db.scans))
      ensures db.Current() == if threw then old(db.Current()) else SetStatus(old(db.Current()), id, status, results)
    {
      if !findOk || id !in db.scans { return true; }
      var row := db.scans[id].(status := status);
      if status == COMPLETED {
        row := row.(completedAt := Some(db.now), results := results);
      }
      if !writeOk { return true; }
      db.scans := db.scans[id := row];
      return false;
    }
  }

  class SchedulesService {
    const db: Backend
    const scansService: ScansService

    constructor (db: Backend, scansService: ScansService)
      requires scansService.db == db
      ensures this.db == db && this.scansService == scansService
    {
      this.db := db;
      this.scansService := scansService;
    }

    /** Where the schedule has no entry yet, exactly its entry is added. */
    method AddToQueue(id: Id, s: Schedule, userId: Id)
      modifies db`repeatables
      ensures db.repeatables == AddScheduleToQueue(old(db.repeatables), id, s, userId)
      ensures Fits(db.schedules, old(db.repeatables)) && !HasEntry(old(db.repeatables), id) ==>
                db.repeatables == old(db.repeatables) + [Repeatable(JobId(id), s.cronExpression, id, userId)]
    {
      var e := Repeatable(JobId(id), s.cronExpression, id, userId);
      if Fits(db.schedules, db.repeatables) && !HasEntry(db.repeatables, id) {
        AdditionAppends(db.repeatables, id, s, userId);
      }
      if !exists x :: x in db.repeatables && SameKey(x, e) {
        db.repeatables := db.repeatables + [e];
      }
    }

    /** In a queue that fits, exactly the schedule's entry goes; nothing when a call throws. */
    method RemoveFromQueue(id: Id, fault: Fault) returns (threw: bool)
      modifies db`repeatables
      ensures threw <==> fault == DropFails
      ensures db.repeatables == if threw then old(db.repeatables) else RemoveScheduleFromQueue(old(db.repeatables), id)
      ensures !threw && Fits(db.schedules, old(db.repeatables)) ==>
                OnePerJob(db.repeatables) && forall e :: e in db.repeatables <==> e in old(db.repeatables) && e.scheduleId != id
    {
      if Fits(db.schedules, db.repeatables) { RemovalRemovesExactly(db.schedules, db.repeatables, id); }
      if fault == DropFails { return true; }
      var job := FindEntry(db.repeatables, JobId(id));
      if job.Some? {
        db.repeatables := Filter((e: Repeatable) => !SameKey(e, job.value), db.repeatables);
      }
      return false;
    }

    method CreateSchedule(dto: CreateDto, userId: Id, newId: Id, fault: Fault) returns (reply: Reply)
      modifies db
      ensures (reply, db.Current()) == Create(old(db.Current()), dto, userId, newId, fault)
    {
      if dto.workspaceId !in db.dir.workspaces { return NotFound; }
      if !MayManage(db.dir, userId, dto.workspaceId) { return Forbidden; }
      if fault == WriteFails || dto.repositoryId !in db.dir.repositories { return Error; }
      var s := FromDto(dto);
      db.schedules := db.schedules[newId := s];
      db.issued := db.issued + {newId};
      if s.active {
        if fault == AddFails { return Error; }
        AddToQueue(newId, s, userId);
      }
      if fault == AuditFails { return Error; }
      db.audit := db.audit + [AuditEntry(CREATE_SCHEDULE, userId, dto.workspaceId, newId)];
      return Ok;
    }

    method UpdateSchedule(id: Id, dto: UpdateDto, userId: Id, fault: Fault) returns (reply: Reply)
      modifies db
      ensures (reply, db.Current()) == Update(old(db.Current()), id, dto, userId, fault)
    {
      if id !in db.schedules { return NotFound; }
      var before := db.schedules[id];
      if !MayManage(db.dir, userId, before.workspaceId) { return Forbidden; }
      if before.active && (dto.active == Given(false) || GivesCron(dto)) {
        var threw := RemoveFromQueue(id, fault);
        if threw { return Error; }
      }
      if fault == WriteFails || SendsNull(dto) { return Error; }
      if dto.workspaceId.Given? && dto.workspaceId.value !in db.dir.workspaces { return Error; }
      if dto.repositoryId.Given? && dto.repositoryId.value !in db.dir.repositories { return Error; }
      var after := Merge(before, dto);
      db.schedules := db.schedules[id := after];
      if after.active && (!before.active || GivesCron(dto)) {
        if fault == AddFails { return Error; }
        AddToQueue(id, after, userId);
      }
      if fault == AuditFails { return Error; }
      db.audit := db.audit + [AuditEntry(UPDATE_SCHEDULE, userId, before.workspaceId, id)];
      return Ok;
    }

    method RemoveSchedule(id: Id, userId: Id, fault: Fault) returns (reply: Reply)
      modifies db
      ensures (reply, db.Current()) == Remove(old(db.Current()), id, userId, fault)
    {
      if id !in db.schedules { return NotFound; }
      var before := db.schedules[id];
      if !MayManage(db.dir, userId, before.workspaceId) { return Forbidden; }
      if before.active {
        var threw := RemoveFromQueue(id, fault);
        if threw { return Error; }
      }
      if fault == WriteFails { return Error; }
      db.schedules := db.schedules - {id};
      if fault == AuditFails { return Error; }
      db.audit := db.audit + [AuditEntry(DELETE_SCHEDULE, userId, before.workspaceId, id)];
      return Ok;
    }

    method Trigger(scheduleId: Id, userId: Id, newId: Id, fault: Fault) returns (reply: Reply)
      requires scansService.db == db
      modifies db
      ensures (reply, db.Current()) == TriggerScan(old(db.Current()), scheduleId, userId, newId, fault)
    {
      if scheduleId !in db.schedules { return NotFound; }
      var s := db.schedules[scheduleId];
      reply := scansService.Create(ScanRequest(s.repositoryId, s.workspaceId, s.branch, Some(s.historical), Some(s.fileExclusions)),
                                   userId, newId, fault);
    }
  }

  class ScansProcessor {
    const db: Backend
    const scansService: ScansService

    constructor (db: Backend, scansService: ScansService)
      requires scansService.db == db
      ensures this.db == db && this.scansService == scansService
    {
      this.db := db;
      this.scansService := scansService;
    }

    /** The handler's try block up to the results: mark RUNNING and read the details. */
    method Begin(job: ScanJob, ghost k: nat, bad: set<Pc>, results: Results) returns (threw: bool, workspaceId: Id, ghost s: State)
      requires scansService.db == db
      requires k < |db.workers| && db.workers[k] == Worker(job, FindForRun, "", None)
      modifies db
      ensures Follows(db, s, k, old(Drive(db.Current(), k, bad, results)), bad, results)
      ensures s.workers[k] == if threw then Worker(job, CatchPc(s.workers[k]), "", None) else Worker(job, FindForComplete, workspaceId, Some(results))
    {
      workspaceId := "";
      s := db.Current();
      threw := scansService.UpdateScanStatus(job.scanId, RUNNING, None, FindForRun !in bad, WriteRun !in bad);
      s := UpdatePhase(s, k, bad, results);
      if !threw {
        threw := FindDetails in bad || job.scanId !in db.scans;
        s := Next(s, k, bad, results);
        if !threw {
          workspaceId := db.scans[job.scanId].workspaceId;
          s := Next(s, k, bad, results);
        }
      }
    }

    /** The rest of the try block: mark COMPLETED and write the audit entry. */
    method Complete(job: ScanJob, workspaceId: Id, ghost s: State, ghost k: nat, ghost end: State, bad: set<Pc>, results: Results)
      returns (threw: bool, ghost s': State)
      requires scansService.db == db
      requires Follows(db, s, k, end, bad, results) && s.workers[k] == Worker(job, FindForComplete, workspaceId, Some(results))
      modifies db
      ensures Follows(db, s', k, end, bad, results) && s'.workers[k].job == job
      ensures s'.workers[k].pc == if threw then CatchPc(s'.workers[k]) else Finished
    {
      threw := scansService.UpdateScanStatus(job.scanId, COMPLETED, Some(results), FindForComplete !in bad, WriteComplete !in bad);
      s' := UpdatePhase(s, k, bad, results);
      if !threw {
        threw := WriteAudit in bad;
        s' := Next(s', k, bad, results);
        if !threw {
          db.audit := db.audit + [AuditEntry(SCAN_COMPLETED, job.userId, workspaceId, job.scanId)];
        }
      }
    }

    /** The handler, uninterrupted, is worker `k` of the step machine run to its
        end; `bad` holds the awaits that throw. */
    method HandleScan(job: ScanJob, ghost k: nat, bad: set<Pc>, results: Results) returns (threw: bool)
      requires scansService.db == db
      requires k < |db.workers| && db.workers[k] == Worker(job, FindForRun, "", None)
      modifies db
      ensures db.Current() == Drive(old(db.Current()), k, bad, results)
      ensures threw <==> db.workers[k].pc == Threw
    {
      ghost var end := Drive(db.Current(), k, bad, results);
      ghost var s;
      var workspaceId;
      threw, workspaceId, s := Begin(job, k, bad, results);
      if !threw {
        threw, s := Complete(job, workspaceId, s, k, end, bad, results);
      }
      if threw && job.scanId != "" {
        var _ := scansService.UpdateScanStatus(job.scanId, FAILED, None, FindForFail !in bad, WriteFail !in bad);
        s := UpdatePhase(s, k, bad, results);
      }
      db.workers := s.workers;
    }
  }

  /** The machine across one `updateScanStatus`: its find and, if that succeeds, its write. */
  ghost function UpdatePhase(s: State, k: nat, bad: set<Pc>, results: Results): (s': State)
    requires k < |s.workers| && s.workers[k].pc in {FindForRun, FindForComplete, FindForFail}
    ensures |s'.workers| == |s.workers| && Drive(s, k, bad, results) == Drive(s', k, bad, results)
    ensures var w := s.workers[k];
            var write := match w.pc case FindForRun => WriteRun case FindForComplete => WriteComplete case _ => WriteFail;
            var status := match w.pc case FindForRun => RUNNING case FindForComplete => COMPLETED case _ => FAILED;
            var next := match w.pc case FindForRun => FindDetails case FindForComplete => WriteAudit case _ => Threw;
            var done := w.pc !in bad && write !in bad && w.job.scanId in s.scans;
            s' == (if done then SetStatus(s, w.job.scanId, status, if status == COMPLETED then w.results else None) else s)
                  .(workers := s.workers[k := w.(pc := if done || w.pc == FindForFail then next else CatchPc(w))])
  {
    var s1 := Next(s, k, bad, results);
    if s1.workers[k].pc in {WriteRun, WriteComplete, WriteFail} then Next(s1, k, bad, results) else s1
  }

  /** The step machine's next state, for a worker that has not stopped. */
  ghost function Next(s: State, k: nat, bad: set<Pc>, results: Results): (s': State)
    requires k < |s.workers| && !Stopped(s.workers[k])
    ensures |s'.workers| == |s.workers|
    ensures Drive(s, k, bad, results) == Drive(s', k, bad, results)
  {
    WorkTerminates(s, k, s.workers[k].pc !in bad, results);
    Work(s, k, s.workers[k].pc !in bad, results)
  }

  /** The tables are those of machine state `s`, from where the machine ends in `end`. */
  ghost predicate Follows(db: Backend, s: State, k: nat, end: State, bad: set<Pc>, results: Results)
    reads db
  {
    k < |s.workers| && db.Current() == s.(workers := db.workers) && Drive(s, k, bad, results) == end
  }

  /** No call up to the write of RUNNING fails. */
  predicate Ran(bad: set<Pc>) {
    FindForRun !in bad && WriteRun !in bad
  }

  /** Nor any up to the write of COMPLETED. */
  predicate Completed(bad: set<Pc>) {
    Ran(bad) && FindDetails !in bad && FindForComplete !in bad && WriteComplete !in bad
  }

  /** The catch block can record the failure. */
  predicate Recorded(bad: set<Pc>) {
    FindForFail !in bad && WriteFail !in bad
  }

  /** The outcome of a job whose scan is QUEUED, for every combination of failing
      calls, run without interference: COMPLETED with results and one audit entry when
      nothing fails; otherwise no entry, and FAILED, or where the failure cannot be
      recorded the last status written; results are set exactly when everything up to
      and including the write of COMPLETED succeeded. */
  lemma HandlerOutcome(s: State, k: nat, bad: set<Pc>, results: Results)
    requires k < |s.workers| && s.workers[k].pc == FindForRun
    requires s.workers[k].job.scanId != "" && s.workers[k].job.scanId in s.scans
    ensures var job := s.workers[k].job;
            var scan := s.scans[job.scanId];
            var end := Drive(s, k, bad, results);
            var completed, clean := Completed(bad), Completed(bad) && WriteAudit !in bad;
            var status := if clean then COMPLETED
                          else if Recorded(bad) then FAILED
                          else if completed then COMPLETED else if Ran(bad) then RUNNING else scan.status;
            && end.scans == s.scans[job.scanId := if completed
                 then scan.(status := status, results := Some(results), completedAt := Some(s.now))
                 else scan.(status := status)]
            && end.audit == (if clean then s.audit + [AuditEntry(SCAN_COMPLETED, job.userId, scan.workspaceId, job.scanId)] else s.audit)
            && (end.workers[k].pc == Finished <==> clean)
  {
    var s1 := BeginOutcome(s, k, bad, results);
    if s1.workers[k].pc == FindForComplete {
      var s2 := CompleteOutcome(s1, k, bad, results);
      if s2.workers[k].pc == FindForFail { FailurePhase(s2, k, bad, results); }
    } else {
      FailurePhase(s1, k, bad, results);
    }
  }

  lemma BeginOutcome(s: State, k: nat, bad: set<Pc>, results: Results) returns (s': State)
    requires k < |s.workers| && s.workers[k].pc == FindForRun
    requires s.workers[k].job.scanId != "" && s.workers[k].job.scanId in s.scans
    ensures |s'.workers| == |s.workers| && Drive(s, k, bad, results) == Drive(s', k, bad, results)
    ensures var job := s.workers[k].job; var scan := s.scans[job.scanId];
            && s'.audit == s.audit && s'.now == s.now
            && s'.scans == (if Ran(bad) then s.scans[job.scanId := scan.(status := RUNNING)] else s.scans)
            && s'.workers[k].job == job
            && if Ran(bad) && FindDetails !in bad
               then s'.workers[k] == Worker(job, FindForComplete, scan.workspaceId, Some(results))
               else s'.workers[k].pc == FindForFail
  {
    s' := UpdatePhase(s, k, bad, results);
    if s'.workers[k].pc == FindDetails {
      s' := Next(s', k, bad, results);
      if s'.workers[k].pc == Working { s' := Next(s', k, bad, results); }
    }
  }

  lemma CompleteOutcome(s: State, k: nat, bad: set<Pc>, results: Results) returns (s': State)
    requires k < |s.workers| && s.workers[k].pc == FindForComplete && s.workers[k].results == Some(results)
    requires s.workers[k].job.scanId != "" && s.workers[k].job.scanId in s.scans
    ensures |s'.workers| == |s.workers| && Drive(s, k, bad, results) == Drive(s', k, bad, results)
    ensures var w := s.workers[k]; var id := w.job.scanId; var completed := FindForComplete !in bad && WriteComplete !in bad; var clean := completed && WriteAudit !in bad;
            && s'.scans == (if completed
                 then s.scans[id := s.scans[id].(status := COMPLETED, results := Some(results), completedAt := Some(s.now))] else s.scans)
            && s'.audit == (if clean then s.audit + [AuditEntry(SCAN_COMPLETED, w.job.userId, w.workspaceId, id)] else s.audit)
            && s'.workers[k].job == w.job && s'.workers[k].pc == if clean then Finished else FindForFail
  {
    s' := UpdatePhase(s, k, bad, results);
    if s'.workers[k].pc == WriteAudit { s' := Next(s', k, bad, results); }
  }

  lemma FailurePhase(s: State, k: nat, bad: set<Pc>, results: Results)
    requires k < |s.workers| && s.workers[k].pc == FindForFail && s.workers[k].job.scanId in s.scans
    ensures var id := s.workers[k].job.scanId; var end := Drive(s, k, bad, results);
            && end.audit == s.audit && end.workers[k].pc == Threw
            && end.scans == if Recorded(bad) then s.scans[id := s.scans[id].(status := FAILED)] else s.scans
  {
    var s1 := UpdatePhase(s, k, bad, results);
    assert Stopped(s1.workers[k]);
  }

  /** A job whose scan is gone, or whose first call throws, leaves every row and the
      audit log as they were, up to marking an existing scan FAILED. */
  lemma FirstCallFails(s: State, k: nat, bad: set<Pc>, results: Results)
    requires k < |s.workers| && s.workers[k].pc == FindForRun
    requires FindForRun in bad || s.workers[k].job.scanId !in s.scans
    ensures var id := s.workers[k].job.scanId; var end := Drive(s, k, bad, results);
            && end.audit == s.audit && end.workers[k].pc == Threw
            && end.scans == if id != "" && id in s.scans && FindForFail !in bad && WriteFail !in bad
                            then s.scans[id := s.scans[id].(status := FAILED)] else s.scans
  {
    var s1 := UpdatePhase(s, k, bad, results);
    if !Stopped(s1.workers[k]) {
      assert Stopped(UpdatePhase(s1, k, bad, results).workers[k]);
    }
  }
}
