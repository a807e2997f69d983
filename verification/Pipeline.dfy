/** Runs of the whole pipeline: calls of both services, due schedules, queue deliveries,
    worker awaits, directory changes and time, in any interleaving; every call and every
    await may fail. */
module Pipeline {
  import opened Common
  import opened Directories
  import opened Scans
  import opened Schedules

  datatype Event =
    | ScheduleCreated(create: CreateDto, userId: Id, newId: Id, fault: Fault)
    | ScheduleUpdated(id: Id, update: UpdateDto, userId: Id, fault: Fault)
    | ScheduleRemoved(id: Id, userId: Id, fault: Fault)
    | Due(entry: nat, newId: Id, fault: Fault)
    | ScanCreated(request: ScanRequest, userId: Id, newId: Id, fault: Fault)
    | ScanRemoved(id: Id, userId: Id, fault: Fault)
    | Taken(job: nat)
    | Await(worker: nat, ok: bool, results: Results)
    | DirectoryChanged(dir: Directory)
    | Passed(ticks: nat)

  /** Positions exist, new ids are new, updates have passed validation, and the database
      lets go of no workspace or repository a row refers to. */
  ghost predicate Enabled(st: State, e: Event) {
    match e
    case ScheduleCreated(_, _, newId, _) => newId !in st.issued
    case ScheduleUpdated(_, dto, _, _) => Accepted(dto)
    case Due(i, newId, _) => i < |st.repeatables| && newId !in st.issued
    case ScanCreated(_, _, newId, _) => newId !in st.issued
    case Taken(i) => i < |st.queue|
    case Await(k, _, _) => k < |st.workers|
    case DirectoryChanged(dir) => Linked(st.(dir := dir))
    case _ => true
  }

  function Step(st: State, e: Event): State
    requires Enabled(st, e)
  {
    match e
    case ScheduleCreated(dto, u, newId, fault) => Create(st, dto, u, newId, fault).1
    case ScheduleUpdated(id, dto, u, fault) => Update(st, id, dto, u, fault).1
    case ScheduleRemoved(id, u, fault) => Remove(st, id, u, fault).1
    case Due(i, newId, fault) => TriggerScan(st, st.repeatables[i].scheduleId, st.repeatables[i].userId, newId, fault).1
    case ScanCreated(dto, u, newId, fault) => CreateScan(st, dto, u, newId, fault).1
    case ScanRemoved(id, u, fault) => RemoveScan(st, id, u, fault).1
    case Taken(i) => Take(st, i)
    case Await(k, ok, results) => Work(st, k, ok, results)
    case DirectoryChanged(dir) => st.(dir := dir)
    case Passed(n) => st.(now := st.now + n)
  }

  ghost predicate Empty(st: State) {
    && st.schedules == map[] && st.repeatables == [] && st.scans == map[]
    && st.queue == [] && st.workers == [] && st.audit == []
  }

  ghost predicate StepsTo(sts: seq<State>, es: seq<Event>, i: nat)
    requires i < |es| < |sts|
  {
    Enabled(sts[i], es[i]) && sts[i + 1] == Step(sts[i], es[i])
  }

  ghost predicate Run(sts: seq<State>, es: seq<Event>) {
    |sts| == |es| + 1 && Empty(sts[0]) && forall i :: 0 <= i < |es| ==> StepsTo(sts, es, i)
  }

  ghost predicate Good(st: State) {
    ScansGood(st) && Linked(st) && Fits(st.schedules, st.repeatables) && st.schedules.Keys <= st.issued
  }

  /** Schedule operations leave the scans, jobs and workers alone. */
  lemma ScheduleOpsKeepScans(st: State, st': State, e: AuditEntry)
    requires ScansGood(st) && e.action != SCAN_COMPLETED
    requires st' == st.(schedules := st'.schedules, repeatables := st'.repeatables, issued := st'.issued, audit := st'.audit)
    requires st'.audit == st.audit || st'.audit == st.audit + [e]
    requires st.issued <= st'.issued
    ensures ScansGood(st') && Forward(st, st')
  {
    AuditedAsBefore(st, st', e);
    forall id ensures Jobless(st', id) <==> Jobless(st, id) {
      assert HasJob(st', id) <==> HasJob(st, id);
    }
    forall k | 0 <= k < |st'.workers| ensures WorkerGood(st', st'.workers[k]) {
      assert WorkerGood(st, st.workers[k]);
    }
  }

  lemma ScheduleCreatedKeeps(st: State, dto: CreateDto, u: Id, newId: Id, fault: Fault)
    requires Good(st) && newId !in st.issued
    ensures var st' := Create(st, dto, u, newId, fault).1; Good(st') && Forward(st, st')
  {
    var st' := Create(st, dto, u, newId, fault).1;
    CreateLeaves(st, dto, u, newId, fault, newId);
    CreateTouches(st, dto, u, newId, fault);
    ScheduleOpsKeepScans(st, st', AuditEntry(CREATE_SCHEDULE, u, dto.workspaceId, newId));
  }

  lemma ScheduleUpdatedKeeps(st: State, id: Id, dto: UpdateDto, u: Id, fault: Fault)
    requires Good(st) && Accepted(dto)
    ensures var st' := Update(st, id, dto, u, fault).1; Good(st') && Forward(st, st')
  {
    if id in st.schedules {
      var st' := Update(st, id, dto, u, fault).1;
      UpdateTouches(st, id, dto, u, fault);
      FitsAfterUpdate(st, id, dto, u, fault);
      ScheduleOpsKeepScans(st, st', AuditEntry(UPDATE_SCHEDULE, u, st.schedules[id].workspaceId, id));
    }
  }

  lemma FitsAfterUpdate(st: State, id: Id, dto: UpdateDto, u: Id, fault: Fault)
    requires Fits(st.schedules, st.repeatables) && Accepted(dto)
    ensures var st' := Update(st, id, dto, u, fault).1; Fits(st'.schedules, st'.repeatables)
  {
    UpdateLeaves(st, id, dto, u, fault, id);
  }

  lemma ScheduleRemovedKeeps(st: State, id: Id, u: Id, fault: Fault)
    requires Good(st)
    ensures var st' := Remove(st, id, u, fault).1; Good(st') && Forward(st, st')
  {
    if id in st.schedules {
      var st' := Remove(st, id, u, fault).1;
      RemoveLeaves(st, id, u, fault, id);
      RemoveTouches(st, id, u, fault);
      ScheduleOpsKeepScans(st, st', AuditEntry(DELETE_SCHEDULE, u, st.schedules[id].workspaceId, id));
    }
  }

  lemma ScanCreatedKeeps(st: State, dto: ScanRequest, u: Id, newId: Id, fault: Fault)
    requires Good(st) && newId !in st.issued
    ensures var st' := CreateScan(st, dto, u, newId, fault).1; Good(st') && Forward(st, st')
  {
    CreateScanKeeps(st, dto, u, newId, fault);
    CreateScanIsForward(st, dto, u, newId, fault);
  }

  lemma CreateScanIsForward(st: State, dto: ScanRequest, u: Id, newId: Id, fault: Fault)
    requires OnlyIssued(st) && newId !in st.issued
    ensures var st' := CreateScan(st, dto, u, newId, fault).1;
            && Forward(st, st') && (Linked(st) ==> Linked(st'))
            && st'.schedules == st.schedules && st'.repeatables == st.repeatables && st.issued <= st'.issued
  {
    CreateScanTouches(st, dto, u, newId, fault);
  }

  lemma ScanRemovedKeeps(st: State, id: Id, u: Id, fault: Fault)
    requires Good(st)
    ensures var st' := RemoveScan(st, id, u, fault).1; Good(st') && Forward(st, st')
  {
    RemoveScanKeeps(st, id, u, fault);
    RemoveScanTouches(st, id, u, fault);
  }

  lemma TakenKeeps(st: State, i: nat)
    requires Good(st) && i < |st.queue|
    ensures Good(Take(st, i)) && Forward(st, Take(st, i))
  {
    TakeKeeps(st, i);
  }

  lemma AwaitKeeps(st: State, k: nat, ok: bool, results: Results)
    requires Good(st) && k < |st.workers|
    ensures Good(Work(st, k, ok, results)) && Forward(st, Work(st, k, ok, results))
  {
    WorkKeeps(st, k, ok, results);
    WorkIsForward(st, k, ok, results);
    WorkTouches(st, k, ok, results);
    WorkKeepsLinks(st, k, ok, results);
  }

  lemma WorkKeepsLinks(st: State, k: nat, ok: bool, results: Results)
    requires ScansGood(st) && Linked(st) && k < |st.workers|
    ensures Linked(Work(st, k, ok, results))
  {
    assert WorkerGood(st, st.workers[k]);
    WorkTouches(st, k, ok, results);
    WorkWrites(st, k, ok, results);
  }

  lemma DueKeeps(st: State, i: nat, newId: Id, fault: Fault)
    requires Good(st) && i < |st.repeatables| && newId !in st.issued
    ensures var st' := TriggerScan(st, st.repeatables[i].scheduleId, st.repeatables[i].userId, newId, fault).1; Good(st') && Forward(st, st')
  {
    assert st.repeatables[i] in st.repeatables;
    ScanCreatedKeeps(st, RequestOf(st.schedules[st.repeatables[i].scheduleId]), st.repeatables[i].userId, newId, fault);
  }

  lemma StepKeepsGood(st: State, e: Event)
    requires Good(st) && Enabled(st, e)
    ensures Good(Step(st, e))
    ensures Forward(st, Step(st, e))
  {
    match e {
      case ScheduleCreated(dto, u, newId, fault) => ScheduleCreatedKeeps(st, dto, u, newId, fault);
      case ScheduleUpdated(id, dto, u, fault) => ScheduleUpdatedKeeps(st, id, dto, u, fault);
      case ScheduleRemoved(id, u, fault) => ScheduleRemovedKeeps(st, id, u, fault);
      case Due(i, newId, fault) => DueKeeps(st, i, newId, fault);
      case ScanCreated(dto, u, newId, fault) => ScanCreatedKeeps(st, dto, u, newId, fault);
      case ScanRemoved(id, u, fault) => ScanRemovedKeeps(st, id, u, fault);
      case Taken(i) => TakenKeeps(st, i);
      case Await(k, ok, results) => AwaitKeeps(st, k, ok, results);
      case DirectoryChanged(dir) => PassiveStepKeeps(st, Step(st, e));
      case Passed(n) => PassiveStepKeeps(st, Step(st, e));
    }
  }

  lemma PassiveStepKeeps(st: State, st': State)
    requires Good(st) && st' == st.(dir := st'.dir, now := st'.now) && Linked(st')
    ensures Good(st') && Forward(st, st')
  {
    forall id ensures FinishedFor(st', id) == FinishedFor(st, id) && Jobless(st', id) == Jobless(st, id) {
      assert HasJob(st', id) == HasJob(st, id);
    }
    forall k | 0 <= k < |st'.workers| ensures WorkerGood(st', st'.workers[k]) {
      assert WorkerGood(st, st.workers[k]);
    }
  }

  lemma EmptyIsGood(st: State)
    requires Empty(st)
    ensures Good(st)
  {
    forall id ensures |Completions(st.audit, id)| == if FinishedFor(st, id) then 1 else 0 {
      assert !FinishedFor(st, id);
    }
  }

  /** In every reachable state, whatever has failed, each queue entry belongs to an
      active schedule and has its current cron, no schedule has two, rows refer to
      existing rows, and scans, jobs, workers and audit entries are consistent. */
  lemma {:induction false} RunIsGood(sts: seq<State>, es: seq<Event>, i: nat)
    requires Run(sts, es) && i < |sts|
    ensures Good(sts[i])
  {
    if i == 0 {
      EmptyIsGood(sts[0]);
    } else {
      RunIsGood(sts, es, i - 1);
      assert StepsTo(sts, es, i - 1);
      StepKeepsGood(sts[i - 1], es[i - 1]);
    }
  }

  /* ---------- which schedules are queued ---------- */

  /** Event `e` leaves schedule `id` active without an entry. */
  predicate LosesEntry(st: State, e: Event, id: Id) {
    match e
    case ScheduleCreated(dto, u, newId, fault) =>
      id == newId && fault == AddFails && FromDto(dto).active && MayCreate(st, dto.workspaceId, dto.repositoryId, u)
    case ScheduleUpdated(x, dto, u, fault) => id == x && Permitted(st, x, u) && Loses(st.dir, st.schedules[x], dto, fault)
    case ScheduleRemoved(x, u, fault) => id == x && Permitted(st, x, u) && fault == WriteFails && st.schedules[x].active
    case _ => false
  }

  /** Event `e` gives schedule `id` its entry back, or makes it inactive or removes it. */
  predicate MendsEntry(st: State, e: Event, id: Id) {
    match e
    case ScheduleUpdated(x, dto, u, fault) => id == x && Permitted(st, x, u) && Mends(st.dir, st.schedules[x], dto, fault)
    case ScheduleRemoved(x, u, fault) =>
      id == x && Permitted(st, x, u) && fault != WriteFails && !(fault == DropFails && st.schedules[x].active)
    case _ => false
  }

  ghost predicate Lacks(st: State, id: Id) {
    Missing(st.schedules, st.repeatables, id)
  }

  lemma StepLeaves(st: State, e: Event, id: Id)
    requires Good(st) && Enabled(st, e)
    ensures Lacks(Step(st, e), id) <==> LosesEntry(st, e, id) || (Lacks(st, id) && !MendsEntry(st, e, id))
  {
    match e {
      case ScheduleCreated(dto, u, newId, fault) =>
        CreateLeaves(st, dto, u, newId, fault, id);
        assert newId !in st.schedules;
      case ScheduleUpdated(x, dto, u, fault) => UpdateLeaves(st, x, dto, u, fault, id);
      case ScheduleRemoved(x, u, fault) => RemoveLeaves(st, x, u, fault, id);
      case Await(k, ok, results) => WorkTouches(st, k, ok, results);
      case _ =>
    }
  }

  /** The positions of the events that lose the entry of `id`, and of those that mend it. */
  ghost function Losses(sts: seq<State>, es: seq<Event>, id: Id): set<nat>
    requires |es| < |sts|
  {
    set k: nat | k < |es| && LosesEntry(sts[k], es[k], id)
  }

  ghost function Repairs(sts: seq<State>, es: seq<Event>, id: Id): set<nat>
    requires |es| < |sts|
  {
    set k: nat | k < |es| && MendsEntry(sts[k], es[k], id)
  }

  /** Some position before `i` is in `lost`, and none since is in `mended`. */
  ghost predicate Pending(lost: set<nat>, mended: set<nat>, i: nat) {
    exists k :: k in lost && k < i && forall j :: j in mended ==> j <= k || i <= j
  }

  lemma PendingOneLater(lost: set<nat>, mended: set<nat>, i: nat)
    ensures Pending(lost, mended, i + 1) <==> i in lost || (Pending(lost, mended, i) && i !in mended)
  {
    if Pending(lost, mended, i + 1) && i !in lost {
      var k :| k in lost && k < i + 1 && forall j :: j in mended ==> j <= k || i + 1 <= j;
      assert k < i;
    }
    if Pending(lost, mended, i) && i !in mended {
      var k :| k in lost && k < i && forall j :: j in mended ==> j <= k || i <= j;
      assert forall j :: j in mended ==> j <= k || i + 1 <= j;
    }
  }

  /** Some event before `i` lost the entry of `id`, and none since has mended it. */
  ghost predicate LostBefore(sts: seq<State>, es: seq<Event>, i: nat, id: Id)
    requires |es| < |sts|
  {
    Pending(Losses(sts, es, id), Repairs(sts, es, id), i)
  }

  /** In every run, an active schedule lacks its entry exactly when one of the named
      events took it and none since has mended it; every other active schedule has
      exactly one entry, with its cron. */
  lemma {:induction false} ScheduleLacksEntry(sts: seq<State>, es: seq<Event>, i: nat, id: Id)
    requires Run(sts, es) && i < |sts|
    ensures Lacks(sts[i], id) <==> LostBefore(sts, es, i, id)
  {
    if i > 0 {
      ScheduleLacksEntry(sts, es, i - 1, id);
      LacksOneLater(sts, es, i - 1, id);
      PendingOneLater(Losses(sts, es, id), Repairs(sts, es, id), i - 1);
    }
  }

  lemma LacksOneLater(sts: seq<State>, es: seq<Event>, i: nat, id: Id)
    requires Run(sts, es) && i < |es|
    ensures Lacks(sts[i + 1], id) <==> i in Losses(sts, es, id) || (Lacks(sts[i], id) && i !in Repairs(sts, es, id))
  {
    RunIsGood(sts, es, i);
    assert StepsTo(sts, es, i);
    StepLeaves(sts[i], es[i], id);
  }

  /** So rows and queue agree in a reachable state exactly when no schedule has lost its
      entry for good; in particular they do as long as no call has lost one. */
  lemma QueueAgrees(sts: seq<State>, es: seq<Event>, i: nat)
    requires Run(sts, es) && i < |sts|
    ensures Agree(sts[i].schedules, sts[i].repeatables) <==> forall id :: !LostBefore(sts, es, i, id)
    ensures (forall id, k :: k in Losses(sts, es, id) ==> i <= k) ==> Agree(sts[i].schedules, sts[i].repeatables)
  {
    RunIsGood(sts, es, i);
    forall id ensures Lacks(sts[i], id) <==> LostBefore(sts, es, i, id) {
      ScheduleLacksEntry(sts, es, i, id);
    }
    if !Agree(sts[i].schedules, sts[i].repeatables) {
      var id :| Missing(sts[i].schedules, sts[i].repeatables, id);
      assert Lacks(sts[i], id);
      assert LostBefore(sts, es, i, id);
    } else {
      forall id ensures !LostBefore(sts, es, i, id) {
        assert !Missing(sts[i].schedules, sts[i].repeatables, id);
      }
    }
  }

  /* ---------- which scans have a job ---------- */

  /** Event `e` writes the row of scan `id` and fails to add its job. */
  predicate LeavesJobless(st: State, e: Event, id: Id) {
    match e
    case ScanCreated(dto, u, newId, fault) =>
      id == newId && fault == AddFails && MayCreate(st, dto.workspaceId, dto.repositoryId, u)
    case Due(i, newId, fault) =>
      && id == newId && fault == AddFails
      && i < |st.repeatables| && st.repeatables[i].scheduleId in st.schedules
      && var s := st.schedules[st.repeatables[i].scheduleId];
         MayCreate(st, s.workspaceId, s.repositoryId, st.repeatables[i].userId)
    case _ => false
  }

  lemma CreateLeavesJobless(st: State, dto: ScanRequest, u: Id, newId: Id, fault: Fault, id: Id)
    requires Good(st) && newId !in st.issued
    ensures var st' := CreateScan(st, dto, u, newId, fault).1;
            && (newId in st'.scans <==> fault != WriteFails && MayCreate(st, dto.workspaceId, dto.repositoryId, u))
            && (Jobless(st', id) <==> (id == newId && fault == AddFails && newId in st'.scans) || Jobless(st, id))
  {
    CreateScanJobs(st, dto, u, newId, fault, id);
    CreateScanTouches(st, dto, u, newId, fault);
    assert !HasJob(st, newId);
    assert |st.queue + [ScanJob(newId, u)]| == |st.queue| + 1;
  }

  lemma StepJobless(st: State, e: Event, id: Id)
    requires Good(st) && Enabled(st, e)
    ensures Jobless(Step(st, e), id) <==> LeavesJobless(st, e, id) || (Jobless(st, id) && id in Step(st, e).scans)
  {
    match e {
      case ScanCreated(dto, u, newId, fault) =>
        CreateLeavesJobless(st, dto, u, newId, fault, id);
        CreateScanTouches(st, dto, u, newId, fault);
      case Due(i, newId, fault) =>
        assert st.repeatables[i] in st.repeatables;
        CreateScanTouches(st, RequestOf(st.schedules[st.repeatables[i].scheduleId]), st.repeatables[i].userId, newId, fault);
        CreateLeavesJobless(st, RequestOf(st.schedules[st.repeatables[i].scheduleId]), st.repeatables[i].userId, newId, fault, id);
      case Taken(i) => TakeKeepsJobs(st, i, id);
      case Await(k, ok, results) =>
        WorkTouches(st, k, ok, results);
        WorkKeepsJobs(st, k, ok, results, id);
      case _ =>
        OthersKeepJobs(st, e);
        SameJobs(st, Step(st, e), id);
    }
  }

  lemma OthersKeepJobs(st: State, e: Event)
    requires Enabled(st, e) && !e.ScanCreated? && !e.Due? && !e.Taken? && !e.Await?
    ensures var st' := Step(st, e);
            st'.queue == st.queue && st'.workers == st.workers && st'.scans.Keys <= st.scans.Keys
  {
    match e {
      case ScheduleCreated(dto, u, newId, fault) => CreateTouches(st, dto, u, newId, fault);
      case ScheduleUpdated(x, dto, u, fault) => UpdateTouches(st, x, dto, u, fault);
      case ScheduleRemoved(x, u, fault) => RemoveTouches(st, x, u, fault);
      case _ =>
    }
  }

  lemma SameJobs(st: State, st': State, id: Id)
    requires st'.queue == st.queue && st'.workers == st.workers && st'.scans.Keys <= st.scans.Keys
    ensures Jobless(st', id) <==> Jobless(st, id) && id in st'.scans
  {
    assert HasJob(st', id) <==> HasJob(st, id);
  }

  /** The positions of the events that leave scan `id` without a job. */
  ghost function Unqueued(sts: seq<State>, es: seq<Event>, id: Id): set<nat>
    requires |es| < |sts|
  {
    set k: nat | k < |es| && LeavesJobless(sts[k], es[k], id)
  }

  ghost predicate LeftJobless(sts: seq<State>, es: seq<Event>, i: nat, id: Id)
    requires |es| < |sts|
  {
    Pending(Unqueued(sts, es, id), {}, i)
  }

  /** An id left without a job has been issued, so its row cannot come back. */
  lemma LeftJoblessIssued(sts: seq<State>, es: seq<Event>, i: nat, id: Id)
    requires Run(sts, es) && i < |es| && LeftJobless(sts, es, i, id) && id in sts[i + 1].scans
    ensures id in sts[i].scans
  {
    var k :| k in Unqueued(sts, es, id) && k < i;
    JoblessOneLater(sts, es, k, id);
    ScansAreIssued(sts, es, k + 1);
    ScansMoveForward(sts, es, k + 1, i);
    ScansMoveForward(sts, es, i, i + 1);
  }

  lemma ScansAreIssued(sts: seq<State>, es: seq<Event>, i: nat)
    requires Run(sts, es) && i < |sts|
    ensures sts[i].scans.Keys <= sts[i].issued
  {
    RunIsGood(sts, es, i);
  }

  /** A scan row exists without a job, queued or taken, exactly when the queue's add
      threw as the row was created; such a scan stays QUEUED as long as it exists. */
  lemma {:induction false} ScanLacksJob(sts: seq<State>, es: seq<Event>, i: nat, id: Id)
    requires Run(sts, es) && i < |sts|
    ensures Jobless(sts[i], id) <==> id in sts[i].scans && LeftJobless(sts, es, i, id)
    ensures id in sts[i].scans && LeftJobless(sts, es, i, id) ==> sts[i].scans[id].status == QUEUED
  {
    RunIsGood(sts, es, i);
    if i > 0 {
      ScanLacksJob(sts, es, i - 1, id);
      JoblessOneLater(sts, es, i - 1, id);
      PendingOneLater(Unqueued(sts, es, id), {}, i - 1);
      if LeftJobless(sts, es, i - 1, id) && id in sts[i].scans { LeftJoblessIssued(sts, es, i - 1, id); }
    }
  }

  lemma JoblessOneLater(sts: seq<State>, es: seq<Event>, i: nat, id: Id)
    requires Run(sts, es) && i < |es|
    ensures Jobless(sts[i + 1], id) <==> i in Unqueued(sts, es, id) || (Jobless(sts[i], id) && id in sts[i + 1].scans)
  {
    RunIsGood(sts, es, i);
    assert StepsTo(sts, es, i);
    StepJobless(sts[i], es[i], id);
  }

  /* ---------- scans over time ---------- */

  /** Over every run and between any two of its states, no scan's status moves back,
      completion data once set never changes, and a deleted scan never reappears. */
  lemma {:induction false} ScansMoveForward(sts: seq<State>, es: seq<Event>, i: nat, j: nat)
    requires Run(sts, es) && i <= j < |sts|
    ensures Forward(sts[i], sts[j])
    decreases j - i
  {
    RunIsGood(sts, es, i);
    if i < j {
      assert StepsTo(sts, es, i);
      StepKeepsGood(sts[i], es[i]);
      ScansMoveForward(sts, es, i + 1, j);
    }
  }

  /** A removal whose delete goes through is final: the scan is in no later state, even
      if its audit entry could not be written. */
  lemma RemovedScanStaysGone(sts: seq<State>, es: seq<Event>, i: nat, k: nat, id: Id, userId: Id, fault: Fault)
    requires Run(sts, es) && i < k < |sts| && es[i] == ScanRemoved(id, userId, fault) && fault != WriteFails
    requires id in sts[i].scans && MayManage(sts[i].dir, userId, sts[i].scans[id].workspaceId)
    ensures id !in sts[k].scans
  {
    RunIsGood(sts, es, i);
    assert StepsTo(sts, es, i);
    assert id !in sts[i + 1].scans && id in sts[i + 1].issued;
    ScansMoveForward(sts, es, i + 1, k);
  }

  /** In some state up to `i` the row said COMPLETED and no entry existed yet. */
  ghost predicate WasCompleted(sts: seq<State>, i: nat, id: Id)
    requires i < |sts|
  {
    exists j :: 0 <= j <= i && CompletedUnaudited(sts[j], id)
  }

  ghost predicate CompletedUnaudited(st: State, id: Id) {
    id in st.scans && st.scans[id].status == COMPLETED && Completions(st.audit, id) == []
  }

  ghost predicate AtAudit(st: State, id: Id) {
    exists k :: 0 <= k < |st.workers| && st.workers[k].job.scanId == id && st.workers[k].pc == WriteAudit
  }

  /** Each scan gets at most one SCAN_COMPLETED entry, and only after a state in
      which its row already said COMPLETED and no such entry existed. */
  lemma {:induction false} AuditedOnceAfterCompletion(sts: seq<State>, es: seq<Event>, i: nat, id: Id)
    requires Run(sts, es) && i < |sts|
    ensures |Completions(sts[i].audit, id)| <= 1
    ensures Completions(sts[i].audit, id) != [] || AtAudit(sts[i], id) ==> WasCompleted(sts, i, id)
  {
    AtMostOneEntry(sts, es, i, id);
    if i > 0 {
      AuditedOnceAfterCompletion(sts, es, i - 1, id);
      RunAuditSteps(sts, es, i - 1, id);
      CompletedLater(sts, i - 1, id);
    }
  }

  lemma CompletedLater(sts: seq<State>, i: nat, id: Id)
    requires i + 1 < |sts|
    ensures WasCompleted(sts, i, id) || CompletedUnaudited(sts[i + 1], id) ==> WasCompleted(sts, i + 1, id)
  {
    if WasCompleted(sts, i, id) {
      var j :| 0 <= j <= i && CompletedUnaudited(sts[j], id);
      assert 0 <= j <= i + 1;
    }
  }

  lemma AtMostOneEntry(sts: seq<State>, es: seq<Event>, i: nat, id: Id)
    requires Run(sts, es) && i < |sts|
    ensures |Completions(sts[i].audit, id)| <= 1
    ensures i == 0 ==> Completions(sts[i].audit, id) == [] && !AtAudit(sts[i], id)
  {
    RunIsGood(sts, es, i);
  }

  lemma RunAuditSteps(sts: seq<State>, es: seq<Event>, i: nat, id: Id)
    requires Run(sts, es) && i < |es|
    ensures Completions(sts[i].audit, id) == [] && Completions(sts[i + 1].audit, id) != [] ==> AtAudit(sts[i], id)
    ensures AtAudit(sts[i + 1], id) && !AtAudit(sts[i], id) ==> CompletedUnaudited(sts[i + 1], id)
  {
    RunIsGood(sts, es, i);
    assert StepsTo(sts, es, i);
    AuditSteps(sts[i], es[i], id);
  }

  /** An entry appears only through the audit step, and that step is reached only by
      writing COMPLETED while there is no entry. */
  lemma AuditSteps(st: State, e: Event, id: Id)
    requires Good(st) && Enabled(st, e)
    ensures var st' := Step(st, e);
            && (Completions(st.audit, id) == [] && Completions(st'.audit, id) != [] ==> AtAudit(st, id))
            && (AtAudit(st', id) && !AtAudit(st, id) ==> CompletedUnaudited(st', id))
  {
    StepKeepsGood(st, e);
    if e.Await? {
      AwaitAudits(st, e.worker, e.ok, e.results, id);
    } else {
      OnlyAwaitsMoveWorkers(st, e);
    }
  }

  lemma AwaitAudits(st: State, k: nat, ok: bool, results: Results, id: Id)
    requires ScansGood(st) && k < |st.workers| && ScansGood(Work(st, k, ok, results))
    ensures var st' := Work(st, k, ok, results);
            && (FinishedFor(st', id) && !FinishedFor(st, id) ==> AtAudit(st, id))
            && (AtAudit(st', id) && !AtAudit(st, id) ==> CompletedUnaudited(st', id))
  {
    var st' := Work(st, k, ok, results);
    WorkFinishes(st, k, ok, results, id);
    WorkTouches(st, k, ok, results);
    WorkReachesAudit(st, k, ok, results);
    if AtAudit(st', id) && !AtAudit(st, id) {
      var j :| 0 <= j < |st'.workers| && st'.workers[j].job.scanId == id && st'.workers[j].pc == WriteAudit;
      assert j == k;
      assert !FinishedFor(st', id);
    }
  }

  lemma OnlyAwaitsMoveWorkers(st: State, e: Event)
    requires Enabled(st, e) && !e.Await?
    ensures var st' := Step(st, e);
            && (forall id :: FinishedFor(st', id) ==> FinishedFor(st, id))
            && (forall id :: AtAudit(st', id) ==> AtAudit(st, id))
  {
    var st' := Step(st, e);
    match e {
      case ScanCreated(dto, u, newId, fault) => CreateScanTouches(st, dto, u, newId, fault);
      case Due(i, newId, fault) =>
        var x := st.repeatables[i].scheduleId;
        if x in st.schedules { CreateScanTouches(st, RequestOf(st.schedules[x]), st.repeatables[i].userId, newId, fault); }
      case Taken(_) =>
      case _ => OthersKeepJobs(st, e);
    }
    assert |st.workers| <= |st'.workers| && forall k :: 0 <= k < |st.workers| ==> st'.workers[k] == st.workers[k];
    assert forall k :: |st.workers| <= k < |st'.workers| ==> st'.workers[k].pc == FindForRun;
  }

  /** In every reachable state, whatever has failed before, firing any repeatable job
      finds an existing, active schedule. When the job's user may manage the workspace
      and no call throws, it adds exactly one scan and one job for it; when the user may
      not, or the row write throws, nothing; and a scan without a job exactly when the
      queue's add throws. */
  lemma EveryFiringFindsItsSchedule(sts: seq<State>, es: seq<Event>, i: nat, entry: nat, newId: Id, fault: Fault)
    requires Run(sts, es) && i < |sts| && entry < |sts[i].repeatables| && newId !in sts[i].issued
    ensures var st := sts[i]; var e := st.repeatables[entry];
            && e.scheduleId in st.schedules && st.schedules[e.scheduleId].active
            && var s := st.schedules[e.scheduleId];
               var st' := Step(st, Due(entry, newId, fault));
               if MayManage(st.dir, e.userId, s.workspaceId) && fault != WriteFails then
                 && st'.scans == st.scans[newId := Scan(s.repositoryId, s.workspaceId, s.branch, QUEUED, s.historical, s.fileExclusions, None, None)]
                 && st'.queue == (if fault == AddFails then st.queue else st.queue + [ScanJob(newId, e.userId)])
               else st' == st
  {
    RunIsGood(sts, es, i);
    FiringCreatesOneScan(sts[i], entry, newId, fault);
  }
}
