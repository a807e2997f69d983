/** Scan rows, the queue of scan jobs, and the workers that process the jobs one
    database call at a time. */
module Scans {
  import opened Common
  import opened Directories

  datatype ScanStatus = QUEUED | RUNNING | COMPLETED | FAILED

  /** QUEUED < RUNNING < COMPLETED < FAILED: the order in which a scan may move. */
  function Rank(s: ScanStatus): nat {
    match s case QUEUED => 0 case RUNNING => 1 case COMPLETED => 2 case FAILED => 3
  }

  type Results = string

  datatype Scan = Scan(repositoryId: Id, workspaceId: Id, branch: string, status: ScanStatus, historical: bool,
                       fileExclusions: seq<string>, results: Option<Results>, completedAt: Option<nat>)

  datatype ScanJob = ScanJob(scanId: Id, userId: Id)

  /** The next await of `handleScan`; `updateScanStatus` is a find and then a write. */
  datatype Pc =
    | FindForRun | WriteRun | FindDetails | Working | FindForComplete | WriteComplete | WriteAudit
    | FindForFail | WriteFail
    | Finished | Threw

  datatype Worker = Worker(job: ScanJob, pc: Pc, workspaceId: Id, results: Option<Results>)

  datatype Action = CREATE_SCAN | DELETE_SCAN | SCAN_COMPLETED | CREATE_SCHEDULE | UPDATE_SCHEDULE | DELETE_SCHEDULE

  datatype AuditEntry = AuditEntry(action: Action, userId: Id, workspaceId: Id, subject: Id)

  datatype Schedule = Schedule(repositoryId: Id, workspaceId: Id, branch: string, cronExpression: string,
                               historical: bool, fileExclusions: seq<string>, active: bool)

  /** A repeatable job; the queue tells two of them apart by job id and cron. */
  datatype Repeatable = Repeatable(jobId: string, cron: string, scheduleId: Id, userId: Id)

  /** Everything the schedule and scan services store. `issued` holds every row id
      handed out so far: a uuid is never handed out twice. */
  datatype State = State(
    dir: Directory, schedules: map<Id, Schedule>, repeatables: seq<Repeatable>,
    scans: map<Id, Scan>, queue: seq<ScanJob>, workers: seq<Worker>,
    audit: seq<AuditEntry>, issued: set<Id>, now: nat)

  datatype Reply = Ok | NotFound | Forbidden | Error

  /* ---------- the scan service ---------- */

  datatype ScanRequest = ScanRequest(repositoryId: Id, workspaceId: Id, branch: string,
                                     historical: Option<bool>, fileExclusions: Option<seq<string>>)

  /** The call that throws while an operation runs: the removal of the queue entry, the
      write of the row, the queue's add, or the audit entry. */
  datatype Fault = NoFault | DropFails | WriteFails | AddFails | AuditFails

  function Logged(st: State, e: AuditEntry, fault: Fault): (Reply, State) {
    if fault == AuditFails then (Error, st) else (Ok, st.(audit := st.audit + [e]))
  }

  function NewScan(dto: ScanRequest): Scan {
    Scan(dto.repositoryId, dto.workspaceId, dto.branch, QUEUED, dto.historical == Some(true),
         if dto.fileExclusions.Some? then dto.fileExclusions.value else [], None, None)
  }

  /** The row, then the job, then the audit entry; the row's repository must exist. */
  function CreateScan(st: State, dto: ScanRequest, userId: Id, newId: Id, fault: Fault): (Reply, State) {
    if dto.workspaceId !in st.dir.workspaces then (NotFound, st)
    else if !MayManage(st.dir, userId, dto.workspaceId) then (Forbidden, st)
    else if fault == WriteFails || dto.repositoryId !in st.dir.repositories then (Error, st)
    else
      var written := st.(scans := st.scans[newId := NewScan(dto)], issued := st.issued + {newId});
      if fault == AddFails then (Error, written)
      else
        Logged(written.(queue := st.queue + [ScanJob(newId, userId)]),
               AuditEntry(CREATE_SCAN, userId, dto.workspaceId, newId), fault)
  }

  function RemoveScan(st: State, id: Id, userId: Id, fault: Fault): (Reply, State) {
    if id !in st.scans then (NotFound, st)
    else if !MayManage(st.dir, userId, st.scans[id].workspaceId) then (Forbidden, st)
    else if fault == WriteFails then (Error, st)
    else
      Logged(st.(scans := st.scans - {id}), AuditEntry(DELETE_SCAN, userId, st.scans[id].workspaceId, id), fault)
  }

  /** What creating a scan does, exactly: refused when the workspace does not exist or the
      user does not manage it, and then nothing changes; otherwise the row, the job and
      the audit entry, each unless a call before or at it throws. */
  lemma ScanCreationExactly(st: State, dto: ScanRequest, userId: Id, newId: Id, fault: Fault)
    requires UniqueMemberships(st.dir.memberships)
    ensures var (reply, st') := CreateScan(st, dto, userId, newId, fault); var ws := dto.workspaceId;
            if ws !in st.dir.workspaces then reply == NotFound && st' == st
            else if !Manager(st.dir, userId, ws) then reply == Forbidden && st' == st
            else if fault == WriteFails || dto.repositoryId !in st.dir.repositories then reply == Error && st' == st
            else
              && (reply == if fault == AddFails || fault == AuditFails then Error else Ok)
              && st' == st.(issued := st.issued + {newId},
                   scans := st.scans[newId := Scan(dto.repositoryId, ws, dto.branch, QUEUED,
                     dto.historical.Some? && dto.historical.value, if dto.fileExclusions.Some? then dto.fileExclusions.value else [], None, None)],
                   queue := if fault == AddFails then st.queue else st.queue + [ScanJob(newId, userId)],
                   audit := if reply == Ok then st.audit + [AuditEntry(CREATE_SCAN, userId, ws, newId)] else st.audit)
  {
    MayManageMeaning(st.dir, userId, dto.workspaceId);
  }

  /** What removing a scan does, exactly: only a manager of its workspace removes it. */
  lemma ScanRemovalExactly(st: State, id: Id, userId: Id, fault: Fault)
    requires UniqueMemberships(st.dir.memberships)
    ensures var (reply, st') := RemoveScan(st, id, userId, fault);
            if id !in st.scans then reply == NotFound && st' == st
            else if !Manager(st.dir, userId, st.scans[id].workspaceId) then reply == Forbidden && st' == st
            else if fault == WriteFails then reply == Error && st' == st
            else
              && (reply == if fault == AuditFails then Error else Ok)
              && st' == st.(scans := map x | x in st.scans && x != id :: st.scans[x],
                            audit := if reply == Ok then st.audit + [AuditEntry(DELETE_SCAN, userId, st.scans[id].workspaceId, id)] else st.audit)
  {
    if id in st.scans { MayManageMeaning(st.dir, userId, st.scans[id].workspaceId); }
    assert (map x | x in st.scans && x != id :: st.scans[x]) == st.scans - {id};
  }

  /** The row `updateScanStatus` writes. */
  function WithStatus(scan: Scan, status: ScanStatus, results: Option<Results>, now: nat): Scan {
    if status == COMPLETED then scan.(status := status, results := results, completedAt := Some(now))
    else scan.(status := status)
  }

  function SetStatus(st: State, id: Id, status: ScanStatus, results: Option<Results>): State
    requires id in st.scans
  {
    st.(scans := st.scans[id := WithStatus(st.scans[id], status, results, st.now)])
  }

  /* ---------- the workers ---------- */

  /** The queue hands out a job, to a new worker. */
  function Take(st: State, i: nat): State
    requires i < |st.queue|
  {
    st.(queue := st.queue[..i] + st.queue[i + 1..],
        workers := st.workers + [Worker(st.queue[i], FindForRun, "", None)])
  }

  function MoveTo(st: State, k: nat, pc: Pc): State
    requires k < |st.workers|
  {
    st.(workers := st.workers[k := st.workers[k].(pc := pc)])
  }

  /** Where the catch block of `handleScan` starts. */
  function CatchPc(w: Worker): Pc {
    if w.job.scanId != "" then FindForFail else Threw
  }

  predicate Stopped(w: Worker) {
    w.pc.Finished? || w.pc.Threw?
  }

  /** Worker `k` completes its next await. `ok` is false when the call throws;
      a find or a write also throws when the row has been deleted meanwhile. */
  function Work(st: State, k: nat, ok: bool, results: Results): State
    requires k < |st.workers|
  {
    var w := st.workers[k];
    var id := w.job.scanId;
    var found := ok && id in st.scans;
    match w.pc
    case FindForRun => MoveTo(st, k, if found then WriteRun else CatchPc(w))
    case WriteRun => if found then MoveTo(SetStatus(st, id, RUNNING, None), k, FindDetails) else MoveTo(st, k, CatchPc(w))
    case FindDetails =>
      if found then st.(workers := st.workers[k := w.(pc := Working, workspaceId := st.scans[id].workspaceId)])
      else MoveTo(st, k, CatchPc(w))
    case Working => st.(workers := st.workers[k := w.(pc := FindForComplete, results := Some(results))])
    case FindForComplete => MoveTo(st, k, if found then WriteComplete else CatchPc(w))
    case WriteComplete =>
      if found then MoveTo(SetStatus(st, id, COMPLETED, w.results), k, WriteAudit) else MoveTo(st, k, CatchPc(w))
    case WriteAudit =>
      if ok then MoveTo(st.(audit := st.audit + [AuditEntry(SCAN_COMPLETED, w.job.userId, w.workspaceId, id)]), k, Finished)
      else MoveTo(st, k, CatchPc(w))
    case FindForFail => MoveTo(st, k, if found then WriteFail else Threw)
    case WriteFail => if found then MoveTo(SetStatus(st, id, FAILED, None), k, Threw) else MoveTo(st, k, Threw)
    case Finished => st
    case Threw => st
  }

  /* ---------- what every step keeps ---------- */

  /** No scan has two jobs, queued or taken. */
  ghost predicate OneJobEach(st: State) {
    && (forall i, j :: 0 <= i < j < |st.queue| ==> st.queue[i].scanId != st.queue[j].scanId)
    && (forall i, j :: 0 <= i < j < |st.workers| ==> st.workers[i].job.scanId != st.workers[j].job.scanId)
    && (forall i, j :: 0 <= i < |st.queue| && 0 <= j < |st.workers| ==> st.queue[i].scanId != st.workers[j].job.scanId)
  }

  ghost predicate OnlyIssued(st: State) {
    && st.scans.Keys <= st.issued
    && (forall i :: 0 <= i < |st.queue| ==> st.queue[i].scanId in st.issued)
    && (forall k :: 0 <= k < |st.workers| ==> st.workers[k].job.scanId in st.issued)
  }

  /** COMPLETED means results and completion time are set; a completion time means
      COMPLETED or FAILED. */
  predicate Consistent(scan: Scan) {
    && (scan.status == COMPLETED ==> scan.results.Some? && scan.completedAt.Some?)
    && (scan.completedAt.Some? ==> scan.status == COMPLETED || scan.status == FAILED)
  }

  /** The statuses a scan may have while its worker is at `pc`. */
  predicate StatusFits(pc: Pc, status: ScanStatus) {
    match pc
    case FindForRun => status == QUEUED
    case WriteRun => status == QUEUED
    case FindDetails => status == RUNNING
    case Working => status == RUNNING
    case FindForComplete => status == RUNNING
    case WriteComplete => status == RUNNING
    case WriteAudit => status == COMPLETED
    case FindForFail => status != FAILED
    case WriteFail => status != FAILED
    case Finished => status == COMPLETED
    case Threw => true
  }

  predicate IsCompletionOf(e: AuditEntry, id: Id) {
    e.action == SCAN_COMPLETED && e.subject == id
  }

  /** The SCAN_COMPLETED entries of one scan. */
  function Completions(audit: seq<AuditEntry>, id: Id): seq<AuditEntry> {
    Filter((e: AuditEntry) => IsCompletionOf(e, id), audit)
  }

  ghost predicate FinishedFor(st: State, id: Id) {
    exists k :: 0 <= k < |st.workers| && st.workers[k].job.scanId == id && st.workers[k].pc == Finished
  }

  ghost predicate HasJob(st: State, id: Id) {
    || (exists i :: 0 <= i < |st.queue| && st.queue[i].scanId == id)
    || (exists k :: 0 <= k < |st.workers| && st.workers[k].job.scanId == id)
  }

  /** A scan that no job was ever made for: it stays QUEUED. */
  ghost predicate Jobless(st: State, id: Id) {
    id in st.scans && !HasJob(st, id)
  }

  ghost predicate ScansGood(st: State) {
    && OneJobEach(st) && OnlyIssued(st)
    && (forall id :: Jobless(st, id) ==> st.scans[id].status == QUEUED)
    && (forall id :: id in st.scans ==> Consistent(st.scans[id]))
    && (forall i :: 0 <= i < |st.queue| && st.queue[i].scanId in st.scans ==> st.scans[st.queue[i].scanId].status == QUEUED)
    && (forall k :: 0 <= k < |st.workers| ==> WorkerGood(st, st.workers[k]))
    && (forall id :: |Completions(st.audit, id)| == if FinishedFor(st, id) then 1 else 0)
  }

  ghost predicate WorkerGood(st: State, w: Worker) {
    && (w.job.scanId in st.scans ==> StatusFits(w.pc, st.scans[w.job.scanId].status))
    && (w.pc == FindForComplete || w.pc == WriteComplete ==> w.results.Some?)
  }

  lemma CompletionsAppend(audit: seq<AuditEntry>, e: AuditEntry, id: Id)
    ensures |Completions(audit + [e], id)| == |Completions(audit, id)| + if IsCompletionOf(e, id) then 1 else 0
  {
    FilterAppend((a: AuditEntry) => IsCompletionOf(a, id), audit, [e]);
  }

  /** An operation that moves no worker and writes no SCAN_COMPLETED entry. */
  lemma AuditedAsBefore(st: State, st': State, e: AuditEntry)
    requires ScansGood(st) && e.action != SCAN_COMPLETED && st'.workers == st.workers
    requires st'.audit == st.audit || st'.audit == st.audit + [e]
    ensures forall id :: |Completions(st'.audit, id)| == if FinishedFor(st', id) then 1 else 0
  {
    forall id ensures |Completions(st'.audit, id)| == if FinishedFor(st', id) then 1 else 0 {
      CompletionsAppend(st.audit, e, id);
      assert FinishedFor(st', id) == FinishedFor(st, id);
    }
  }

  /** What creating a scan touches. */
  lemma CreateScanTouches(st: State, dto: ScanRequest, userId: Id, newId: Id, fault: Fault)
    ensures var st' := CreateScan(st, dto, userId, newId, fault).1;
            || st' == st
            || (&& st' == st.(scans := st.scans[newId := NewScan(dto)], issued := st.issued + {newId}, queue := st'.queue, audit := st'.audit)
                && st'.queue == (if fault == AddFails then st.queue else st.queue + [ScanJob(newId, userId)])
                && st'.audit in {st.audit, st.audit + [AuditEntry(CREATE_SCAN, userId, dto.workspaceId, newId)]}
                && dto.workspaceId in st.dir.workspaces && dto.repositoryId in st.dir.repositories)
  {
  }

  /** Which jobs there are after a scan has been created. */
  lemma CreateScanJobs(st: State, dto: ScanRequest, userId: Id, newId: Id, fault: Fault, id: Id)
    ensures var (reply, st') := CreateScan(st, dto, userId, newId, fault);
            HasJob(st', id) <==> HasJob(st, id) || (id == newId && st'.queue != st.queue)
  {
    var st' := CreateScan(st, dto, userId, newId, fault).1;
    if st'.queue != st.queue {
      assert st'.queue[|st.queue|].scanId == newId;
      if i :| 0 <= i < |st.queue| && st.queue[i].scanId == id { assert st'.queue[i].scanId == id; }
    }
  }

  lemma CreateScanKeeps(st: State, dto: ScanRequest, userId: Id, newId: Id, fault: Fault)
    requires ScansGood(st) && newId !in st.issued
    ensures ScansGood(CreateScan(st, dto, userId, newId, fault).1)
  {
    var st' := CreateScan(st, dto, userId, newId, fault).1;
    CreateScanTouches(st, dto, userId, newId, fault);
    AuditedAsBefore(st, st', AuditEntry(CREATE_SCAN, userId, dto.workspaceId, newId));
    forall id | Jobless(st', id) ensures st'.scans[id].status == QUEUED {
      CreateScanJobs(st, dto, userId, newId, fault, id);
      assert id != newId ==> Jobless(st, id);
    }
    forall k | 0 <= k < |st'.workers| ensures WorkerGood(st', st'.workers[k]) {
      assert WorkerGood(st, st.workers[k]);
    }
  }

  /** What removing a scan touches. */
  lemma RemoveScanTouches(st: State, id: Id, userId: Id, fault: Fault)
    ensures var st' := RemoveScan(st, id, userId, fault).1;
            || st' == st
            || (&& id in st.scans && st' == st.(scans := st.scans - {id}, audit := st'.audit)
                && st'.audit in {st.audit, st.audit + [AuditEntry(DELETE_SCAN, userId, st.scans[id].workspaceId, id)]})
  {
  }

  lemma RemoveScanKeeps(st: State, id: Id, userId: Id, fault: Fault)
    requires ScansGood(st)
    ensures ScansGood(RemoveScan(st, id, userId, fault).1)
  {
    var st' := RemoveScan(st, id, userId, fault).1;
    RemoveScanTouches(st, id, userId, fault);
    if st' != st {
      AuditedAsBefore(st, st', AuditEntry(DELETE_SCAN, userId, st.scans[id].workspaceId, id));
      forall x | Jobless(st', x) ensures st'.scans[x].status == QUEUED { assert Jobless(st, x); }
      forall k | 0 <= k < |st'.workers| ensures WorkerGood(st', st'.workers[k]) {
        assert WorkerGood(st, st.workers[k]);
      }
    }
  }

  /** A job taken from the queue is still a job. */
  lemma TakeKeepsJobs(st: State, i: nat, id: Id)
    requires i < |st.queue|
    ensures HasJob(Take(st, i), id) <==> HasJob(st, id)
  {
    var st' := Take(st, i);
    assert forall j :: 0 <= j < |st'.queue| ==> st'.queue[j] == if j < i then st.queue[j] else st.queue[j + 1];
    assert st'.workers[|st.workers|].job == st.queue[i];
    if j :| 0 <= j < |st.queue| && st.queue[j].scanId == id {
      assert j < i ==> st'.queue[j].scanId == id;
      assert j > i ==> st'.queue[j - 1].scanId == id;
    }
    if k :| 0 <= k < |st.workers| && st.workers[k].job.scanId == id { assert st'.workers[k] == st.workers[k]; }
  }

  lemma TakeMoves(st: State, i: nat)
    requires i < |st.queue|
    ensures var st' := Take(st, i);
            && (forall j :: 0 <= j < |st'.queue| ==> st'.queue[j] == st.queue[if j < i then j else j + 1])
            && (forall k :: 0 <= k < |st.workers| ==> st'.workers[k] == st.workers[k])
            && st'.workers[|st.workers|] == Worker(st.queue[i], FindForRun, "", None)
            && (forall id :: FinishedFor(st', id) == FinishedFor(st, id))
  {
    var st' := Take(st, i);
    forall id ensures FinishedFor(st', id) == FinishedFor(st, id) {
      if FinishedFor(st, id) {
        var k :| 0 <= k < |st.workers| && st.workers[k].job.scanId == id && st.workers[k].pc == Finished;
        assert st'.workers[k] == st.workers[k];
      }
    }
  }

  lemma TakeKeepsOneJob(st: State, i: nat)
    requires OneJobEach(st) && OnlyIssued(st) && i < |st.queue|
    ensures OneJobEach(Take(st, i)) && OnlyIssued(Take(st, i))
  {
    TakeMoves(st, i);
  }

  lemma TakeKeeps(st: State, i: nat)
    requires ScansGood(st) && i < |st.queue|
    ensures ScansGood(Take(st, i))
  {
    var st' := Take(st, i);
    TakeMoves(st, i);
    TakeKeepsOneJob(st, i);
    forall k | 0 <= k < |st'.workers| ensures WorkerGood(st', st'.workers[k]) {
      assert k < |st.workers| ==> WorkerGood(st, st.workers[k]);
    }
    forall id | Jobless(st', id) ensures st'.scans[id].status == QUEUED {
      TakeKeepsJobs(st, i, id);
      assert Jobless(st, id);
    }
  }

  /** Work touches one worker and at most the row of that worker's scan. */
  lemma WorkTouches(st: State, k: nat, ok: bool, results: Results)
    requires k < |st.workers|
    ensures var st' := Work(st, k, ok, results); var id := st.workers[k].job.scanId;
            && st' == st.(workers := st'.workers, scans := st'.scans, audit := st'.audit)
            && |st'.workers| == |st.workers| && st'.workers[k].job == st.workers[k].job
            && (forall j :: 0 <= j < |st.workers| && j != k ==> st'.workers[j] == st.workers[j])
            && st'.scans.Keys == st.scans.Keys
            && (forall x :: x in st.scans && x != id ==> st'.scans[x] == st.scans[x])
  {
  }

  /** The audit step is reached only by the write of COMPLETED. */
  lemma WorkReachesAudit(st: State, k: nat, ok: bool, results: Results)
    requires k < |st.workers|
    ensures var st' := Work(st, k, ok, results); var id := st.workers[k].job.scanId;
            st'.workers[k].pc == WriteAudit && st.workers[k].pc != WriteAudit ==>
              id in st'.scans && st'.scans[id].status == COMPLETED
  {
  }

  lemma WorkKeepsWorker(st: State, k: nat, ok: bool, results: Results)
    requires k < |st.workers| && WorkerGood(st, st.workers[k])
    ensures var st' := Work(st, k, ok, results); WorkerGood(st', st'.workers[k])
  {
  }

  /** What work may do to the scan: nothing, or write the status its worker is at. */
  lemma WorkWrites(st: State, k: nat, ok: bool, results: Results)
    requires k < |st.workers| && WorkerGood(st, st.workers[k])
    ensures var st', w := Work(st, k, ok, results), st.workers[k]; var id := w.job.scanId;
            id in st.scans ==>
              || st'.scans[id] == st.scans[id]
              || (st.scans[id].status == QUEUED && st'.scans[id] == st.scans[id].(status := RUNNING))
              || (st.scans[id].status == RUNNING && w.results.Some?
                  && st'.scans[id] == st.scans[id].(status := COMPLETED, results := w.results, completedAt := Some(st.now)))
              || st'.scans[id] == st.scans[id].(status := FAILED)
  {
  }

  lemma WorkKeepsJobs(st: State, k: nat, ok: bool, results: Results, id: Id)
    requires k < |st.workers|
    ensures HasJob(Work(st, k, ok, results), id) <==> HasJob(st, id)
  {
    var st' := Work(st, k, ok, results);
    WorkTouches(st, k, ok, results);
    assert forall j :: 0 <= j < |st'.workers| ==> st'.workers[j].job == st.workers[j].job;
    if j :| 0 <= j < |st.workers| && st.workers[j].job.scanId == id { assert st'.workers[j].job.scanId == id; }
  }

  lemma WorkKeepsRows(st: State, k: nat, ok: bool, results: Results)
    requires ScansGood(st) && k < |st.workers|
    ensures var st' := Work(st, k, ok, results);
            && OneJobEach(st') && OnlyIssued(st')
            && (forall id :: id in st'.scans ==> Consistent(st'.scans[id]))
            && (forall i :: 0 <= i < |st'.queue| && st'.queue[i].scanId in st'.scans ==> st'.scans[st'.queue[i].scanId].status == QUEUED)
  {
    var st' := Work(st, k, ok, results);
    WorkTouches(st, k, ok, results);
    WorkWrites(st, k, ok, results);
    assert forall j :: 0 <= j < |st'.workers| ==> st'.workers[j].job == st.workers[j].job;
  }

  lemma WorkKeeps(st: State, k: nat, ok: bool, results: Results)
    requires ScansGood(st) && k < |st.workers|
    ensures ScansGood(Work(st, k, ok, results))
  {
    var st' := Work(st, k, ok, results);
    WorkKeepsRows(st, k, ok, results);
    forall j | 0 <= j < |st'.workers| ensures WorkerGood(st', st'.workers[j]) {
      WorkTouches(st, k, ok, results);
      assert WorkerGood(st, st.workers[j]);
      WorkKeepsWorker(st, k, ok, results);
    }
    forall id ensures |Completions(st'.audit, id)| == if FinishedFor(st', id) then 1 else 0 {
      WorkCompletions(st, k, ok, results, id);
    }
    forall id | Jobless(st', id) ensures st'.scans[id].status == QUEUED {
      WorkTouches(st, k, ok, results);
      WorkKeepsJobs(st, k, ok, results, id);
      assert Jobless(st, id);
      assert st.workers[k].job.scanId != id;
    }
  }

  lemma WorkCompletions(st: State, k: nat, ok: bool, results: Results, id: Id)
    requires OneJobEach(st) && k < |st.workers|
    requires |Completions(st.audit, id)| == if FinishedFor(st, id) then 1 else 0
    ensures var st' := Work(st, k, ok, results); |Completions(st'.audit, id)| == if FinishedFor(st', id) then 1 else 0
  {
    var w := st.workers[k];
    WorkFinishes(st, k, ok, results, id);
    CompletionsAppend(st.audit, AuditEntry(SCAN_COMPLETED, w.job.userId, w.workspaceId, w.job.scanId), id);
  }

  /** Exactly the audit step marks a worker finished. */
  lemma WorkFinishes(st: State, k: nat, ok: bool, results: Results, id: Id)
    requires OneJobEach(st) && k < |st.workers|
    ensures FinishedFor(Work(st, k, ok, results), id)
       <==> FinishedFor(st, id) || (ok && st.workers[k].pc == WriteAudit && st.workers[k].job.scanId == id)
    ensures st.workers[k].pc == WriteAudit ==> !FinishedFor(st, st.workers[k].job.scanId)
  {
    var st', w := Work(st, k, ok, results), st.workers[k];
    WorkTouches(st, k, ok, results);
    assert st'.workers[k].pc == Finished <==> w.pc == Finished || (ok && w.pc == WriteAudit);
    if FinishedFor(st, id) {
      var j :| 0 <= j < |st.workers| && st.workers[j].job.scanId == id && st.workers[j].pc == Finished;
      assert st'.workers[j].job == st.workers[j].job && st'.workers[j].pc == Finished;
    }
    if FinishedFor(st', id) && w.job.scanId != id {
      var j :| 0 <= j < |st'.workers| && st'.workers[j].job.scanId == id && st'.workers[j].pc == Finished;
      assert j != k;
    }
  }

  /* ---------- what one step may do to a scan ---------- */

  /** From `st` to `st'`: no status moves back, completion data is kept, ids stay
      issued, and an issued id without a row gets none. */
  ghost predicate Forward(st: State, st': State) {
    && st.issued <= st'.issued
    && (forall id :: id in st'.scans && id in st.issued ==> id in st.scans)
    && (forall id :: id in st'.scans && id in st.scans ==>
          && Rank(st.scans[id].status) <= Rank(st'.scans[id].status)
          && (st.scans[id].completedAt.Some? ==>
                st'.scans[id].completedAt == st.scans[id].completedAt && st'.scans[id].results == st.scans[id].results))
  }

  lemma WorkIsForward(st: State, k: nat, ok: bool, results: Results)
    requires ScansGood(st) && k < |st.workers|
    ensures Forward(st, Work(st, k, ok, results))
  {
    assert WorkerGood(st, st.workers[k]);
    assert forall id :: id in st.scans ==> Consistent(st.scans[id]);
    WorkTouches(st, k, ok, results);
    WorkWrites(st, k, ok, results);
  }

  /* ---------- every job comes to an end ---------- */

  function Remaining(pc: Pc): nat {
    match pc
    case FindForRun => 9 case WriteRun => 8 case FindDetails => 7 case Working => 6 case FindForComplete => 5
    case WriteComplete => 4 case WriteAudit => 3 case FindForFail => 2 case WriteFail => 1
    case Finished => 0 case Threw => 0
  }

  /** A worker that has not stopped gets strictly closer to stopping with each
      await, whatever fails, so a job takes at most nine. */
  lemma WorkTerminates(st: State, k: nat, ok: bool, results: Results)
    requires k < |st.workers|
    ensures |Work(st, k, ok, results).workers| == |st.workers|
    ensures !Stopped(st.workers[k]) ==> Remaining(Work(st, k, ok, results).workers[k].pc) < Remaining(st.workers[k].pc) <= 9
    ensures Remaining(st.workers[k].pc) == 0 <==> Stopped(st.workers[k])
  {
  }

  /** Worker `k` running alone to its end; `bad` holds the awaits that throw. */
  function Drive(st: State, k: nat, bad: set<Pc>, results: Results): (end: State)
    requires k < |st.workers|
    ensures |end.workers| == |st.workers| && Stopped(end.workers[k])
    decreases Remaining(st.workers[k].pc)
  {
    if Stopped(st.workers[k]) then st
    else
      WorkTerminates(st, k, st.workers[k].pc !in bad, results);
      Drive(Work(st, k, st.workers[k].pc !in bad, results), k, bad, results)
  }
}
