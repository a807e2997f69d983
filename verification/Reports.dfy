/** The reports of the analytics service and of the usage service: loops that group
    the logs in place, proved to compute the sums of `Usage`. */
module Reports {
  import opened Common
  import opened Usage

  datatype ResourceStat = ResourceStat(total: int, byAction: map<string, int>)

  datatype UserStat = UserStat(user: Id, total: int, byResource: map<string, int>)

  datatype Bucket = Bucket(time: string, total: int, resources: map<string, int>)

  datatype UserReport = UserReport(totalUsage: int, resourceStats: map<string, ResourceStat>, timeSeries: seq<Bucket>)

  datatype WorkspaceReport = WorkspaceReport(totalUsage: int, resourceStats: map<string, ResourceStat>,
                                             userStats: map<Id, UserStat>, timeSeries: seq<Bucket>)

  /* ---------- what each table must hold ---------- */

  /** `m` maps each key seen along `d` among the logs of `sel` to its sum. */
  ghost predicate IsBreakdown(m: map<string, int>, logs: seq<Log>, sel: Selector, d: Dimension) {
    forall k ::
      && (k in m <==> Seen(logs, With(sel, d, k)))
      && (k in m ==> m[k] == Sum(logs, With(sel, d, k)))
  }

  ghost predicate IsResourceStats(stats: map<string, ResourceStat>, logs: seq<Log>) {
    forall r :: var sel := With(EVERYTHING, ByResource, r);
      && (r in stats <==> Seen(logs, sel))
      && (r in stats ==> stats[r].total == Sum(logs, sel)
                         && IsBreakdown(stats[r].byAction, logs, sel, ByAction))
  }

  ghost predicate IsUserStats(stats: map<Id, UserStat>, logs: seq<Log>) {
    forall u :: var sel := With(EVERYTHING, ByUser, u);
      && (u in stats <==> Seen(logs, sel))
      && (u in stats ==> stats[u].user == u && stats[u].total == Sum(logs, sel)
                         && IsBreakdown(stats[u].byResource, logs, sel, ByResource))
  }

  ghost predicate IsBucket(b: Bucket, logs: seq<Log>, period: Period) {
    var sel := With(EVERYTHING, ByBucket(period), b.time);
    && Seen(logs, sel) && b.total == Sum(logs, sel)
    && IsBreakdown(b.resources, logs, sel, ByResource)
  }

  ghost predicate Increasing(bs: seq<Bucket>) {
    forall i, j :: 0 <= i < j < |bs| ==> StrLess(bs[i].time, bs[j].time)
  }

  /** One bucket for each key seen, in strictly increasing order of the keys. */
  ghost predicate IsSeries(bs: seq<Bucket>, logs: seq<Log>, period: Period) {
    Increasing(bs) && Covers(bs, logs, period)
  }

  ghost predicate Covers(bs: seq<Bucket>, logs: seq<Log>, period: Period) {
    && (forall b :: b in bs ==> IsBucket(b, logs, period))
    && (forall l :: l in logs ==> exists b :: b in bs && b.time == TimeKey(l.createdAt, period))
  }

  /* ---------- one log at a time ---------- */

  /** Adding to an entry of an inner table, which is first set to 0 when it is
      missing or already 0. */
  method AddCount(m: map<string, int>, k: string, count: int) returns (m': map<string, int>)
    ensures m' == m[k := (if k in m then m[k] else 0) + count]
  {
    m' := m;
    if k !in m' || m'[k] == 0 {
      m' := m'[k := 0];
    }
    m' := m'[k := m'[k] + count];
  }

  lemma OneMoreInBreakdown(logs: seq<Log>, l: Log, sel: Selector, d: Dimension, k: string)
    requires Free(sel, d) && Picks(l, sel)
    ensures var part := With(sel, d, k); var here := k == KeyOf(l, d);
            && (Seen(logs + [l], part) <==> Seen(logs, part) || here)
            && Sum(logs + [l], part) == (if Seen(logs, part) then Sum(logs, part) else 0) + if here then l.count else 0
  {
    SumAppend(logs, l, With(sel, d, k));
    if !Seen(logs, With(sel, d, k)) { UnseenIsZero(logs, With(sel, d, k)); }
  }

  /** A breakdown after one more log that its selector picks. */
  lemma BreakdownGrows(m: map<string, int>, logs: seq<Log>, l: Log, sel: Selector, d: Dimension)
    requires IsBreakdown(m, logs, sel, d) && Free(sel, d) && Picks(l, sel)
    ensures var k := KeyOf(l, d);
            IsBreakdown(m[k := (if k in m then m[k] else 0) + l.count], logs + [l], sel, d)
  {
    var k := KeyOf(l, d);
    var m' := m[k := (if k in m then m[k] else 0) + l.count];
    forall x ensures (x in m' <==> Seen(logs + [l], With(sel, d, x)))
                     && (x in m' ==> m'[x] == Sum(logs + [l], With(sel, d, x))) {
      OneMoreInBreakdown(logs, l, sel, d, x);
    }
  }

  /** And after one that its selector does not pick. */
  lemma BreakdownKept(m: map<string, int>, logs: seq<Log>, l: Log, sel: Selector, d: Dimension)
    requires IsBreakdown(m, logs, sel, d) && Free(sel, d) && !Picks(l, sel)
    ensures IsBreakdown(m, logs + [l], sel, d)
  {
    forall x ensures (x in m <==> Seen(logs + [l], With(sel, d, x)))
                     && (x in m ==> m[x] == Sum(logs + [l], With(sel, d, x))) {
      SumAppend(logs, l, With(sel, d, x));
    }
  }

  lemma EmptyBreakdown(logs: seq<Log>, sel: Selector, d: Dimension)
    requires !Seen(logs, sel) && Free(sel, d)
    ensures IsBreakdown(map[], logs, sel, d)
  {
    forall x ensures !Seen(logs, With(sel, d, x)) {
      if l :| l in logs && Picks(l, With(sel, d, x)) {
        assert Picks(l, sel);
      }
    }
  }

  function BumpResource(stats: map<string, ResourceStat>, l: Log): map<string, ResourceStat> {
    var s := if l.resourceType in stats then stats[l.resourceType] else ResourceStat(0, map[]);
    stats[l.resourceType := ResourceStat(s.total + l.count,
      s.byAction[l.action := (if l.action in s.byAction then s.byAction[l.action] else 0) + l.count])]
  }

  lemma BumpResourceCorrect(stats: map<string, ResourceStat>, logs: seq<Log>, l: Log)
    requires IsResourceStats(stats, logs)
    ensures IsResourceStats(BumpResource(stats, l), logs + [l])
  {
    var stats' := BumpResource(stats, l);
    forall r ensures var sel := With(EVERYTHING, ByResource, r);
      && (r in stats' <==> Seen(logs + [l], sel))
      && (r in stats' ==> stats'[r].total == Sum(logs + [l], sel)
                          && IsBreakdown(stats'[r].byAction, logs + [l], sel, ByAction))
    {
      var sel := With(EVERYTHING, ByResource, r);
      SumAppend(logs, l, sel);
      if r !in stats {
        UnseenIsZero(logs, sel);
        EmptyBreakdown(logs, sel, ByAction);
      }
      if r == l.resourceType {
        BreakdownGrows(if r in stats then stats[r].byAction else map[], logs, l, sel, ByAction);
      } else if r in stats {
        BreakdownKept(stats[r].byAction, logs, l, sel, ByAction);
      }
    }
  }

  /** The table after all the logs, one at a time. */
  function GroupResources(logs: seq<Log>): map<string, ResourceStat> {
    if logs == [] then map[] else BumpResource(GroupResources(logs[..|logs| - 1]), logs[|logs| - 1])
  }

  lemma {:induction false} GroupResourcesCorrect(logs: seq<Log>)
    ensures IsResourceStats(GroupResources(logs), logs)
  {
    if logs != [] {
      var front := logs[..|logs| - 1];
      GroupResourcesCorrect(front);
      BumpResourceCorrect(GroupResources(front), front, logs[|logs| - 1]);
      assert logs == front + [logs[|logs| - 1]];
      assert GroupResources(logs) == BumpResource(GroupResources(front), logs[|logs| - 1]);
    }
  }

  function BumpUser(stats: map<Id, UserStat>, l: Log): map<Id, UserStat> {
    var s := if l.userId in stats then stats[l.userId] else UserStat(l.userId, 0, map[]);
    stats[l.userId := UserStat(s.user, s.total + l.count,
      s.byResource[l.resourceType := (if l.resourceType in s.byResource then s.byResource[l.resourceType] else 0) + l.count])]
  }

  lemma BumpUserCorrect(stats: map<Id, UserStat>, logs: seq<Log>, l: Log)
    requires IsUserStats(stats, logs)
    ensures IsUserStats(BumpUser(stats, l), logs + [l])
  {
    var stats' := BumpUser(stats, l);
    forall u ensures var sel := With(EVERYTHING, ByUser, u);
      && (u in stats' <==> Seen(logs + [l], sel))
      && (u in stats' ==> stats'[u].user == u && stats'[u].total == Sum(logs + [l], sel)
                          && IsBreakdown(stats'[u].byResource, logs + [l], sel, ByResource))
    {
      var sel := With(EVERYTHING, ByUser, u);
      SumAppend(logs, l, sel);
      if u !in stats {
        UnseenIsZero(logs, sel);
        EmptyBreakdown(logs, sel, ByResource);
      }
      if u == l.userId {
        BreakdownGrows(if u in stats then stats[u].byResource else map[], logs, l, sel, ByResource);
      } else if u in stats {
        BreakdownKept(stats[u].byResource, logs, l, sel, ByResource);
      }
    }
  }

  function GroupUsers(logs: seq<Log>): map<Id, UserStat> {
    if logs == [] then map[] else BumpUser(GroupUsers(logs[..|logs| - 1]), logs[|logs| - 1])
  }

  lemma {:induction false} GroupUsersCorrect(logs: seq<Log>)
    ensures IsUserStats(GroupUsers(logs), logs)
  {
    if logs != [] {
      var front := logs[..|logs| - 1];
      GroupUsersCorrect(front);
      BumpUserCorrect(GroupUsers(front), front, logs[|logs| - 1]);
      assert logs == front + [logs[|logs| - 1]];
      assert GroupUsers(logs) == BumpUser(GroupUsers(front), logs[|logs| - 1]);
    }
  }

  /** The buckets while they are still keyed by time. */
  ghost predicate IsBuckets(buckets: map<string, Bucket>, logs: seq<Log>, period: Period) {
    forall t :: var sel := With(EVERYTHING, ByBucket(period), t);
      && (t in buckets <==> Seen(logs, sel))
      && (t in buckets ==> buckets[t].time == t && IsBucket(buckets[t], logs, period))
  }

  function BumpBucket(buckets: map<string, Bucket>, l: Log, period: Period): map<string, Bucket> {
    var t := TimeKey(l.createdAt, period);
    var b := if t in buckets then buckets[t] else Bucket(t, 0, map[]);
    buckets[t := Bucket(b.time, b.total + l.count,
      b.resources[l.resourceType := (if l.resourceType in b.resources then b.resources[l.resourceType] else 0) + l.count])]
  }

  lemma BumpBucketCorrect(buckets: map<string, Bucket>, logs: seq<Log>, l: Log, period: Period)
    requires IsBuckets(buckets, logs, period)
    ensures IsBuckets(BumpBucket(buckets, l, period), logs + [l], period)
  {
    var buckets' := BumpBucket(buckets, l, period);
    forall t ensures var sel := With(EVERYTHING, ByBucket(period), t);
      && (t in buckets' <==> Seen(logs + [l], sel))
      && (t in buckets' ==> buckets'[t].time == t && IsBucket(buckets'[t], logs + [l], period))
    {
      var sel := With(EVERYTHING, ByBucket(period), t);
      SumAppend(logs, l, sel);
      if t !in buckets {
        UnseenIsZero(logs, sel);
        EmptyBreakdown(logs, sel, ByResource);
      }
      if t == TimeKey(l.createdAt, period) {
        BreakdownGrows(if t in buckets then buckets[t].resources else map[], logs, l, sel, ByResource);
      } else if t in buckets {
        BreakdownKept(buckets[t].resources, logs, l, sel, ByResource);
      }
    }
  }

  function GroupBuckets(logs: seq<Log>, period: Period): map<string, Bucket> {
    if logs == [] then map[] else BumpBucket(GroupBuckets(logs[..|logs| - 1], period), logs[|logs| - 1], period)
  }

  lemma {:induction false} GroupBucketsCorrect(logs: seq<Log>, period: Period)
    ensures IsBuckets(GroupBuckets(logs, period), logs, period)
  {
    if logs != [] {
      var front := logs[..|logs| - 1];
      GroupBucketsCorrect(front, period);
      BumpBucketCorrect(GroupBuckets(front, period), front, logs[|logs| - 1], period);
      assert logs == front + [logs[|logs| - 1]];
      assert GroupBuckets(logs, period) == BumpBucket(GroupBuckets(front, period), logs[|logs| - 1], period);
    }
  }

  /* ---------- sorting ---------- */

  /** The sort of the buckets by time: insertion into a sorted list. */
  method SortByTime(bs: seq<Bucket>) returns (sorted: seq<Bucket>)
    requires forall i, j :: 0 <= i < j < |bs| ==> bs[i].time != bs[j].time
    ensures Increasing(sorted)
    ensures forall b :: b in sorted <==> b in bs
  {
    sorted := [];
    for i := 0 to |bs|
      invariant Increasing(sorted)
      invariant forall b :: b in sorted <==> b in bs[..i]
    {
      var k := 0;
      while k < |sorted| && StrLess(sorted[k].time, bs[i].time)
        invariant k <= |sorted|
        invariant forall j :: 0 <= j < k ==> StrLess(sorted[j].time, bs[i].time)
      {
        k := k + 1;
      }
      InsertIncreasing(sorted, k, bs[i]);
      assert bs[..i + 1] == bs[..i] + [bs[i]];
      sorted := sorted[..k] + [bs[i]] + sorted[k..];
    }
    assert bs[..|bs|] == bs;
  }

  lemma InsertIncreasing(sorted: seq<Bucket>, k: nat, b: Bucket)
    requires Increasing(sorted) && k <= |sorted|
    requires forall x :: x in sorted ==> x.time != b.time
    requires forall j :: 0 <= j < k ==> StrLess(sorted[j].time, b.time)
    requires k < |sorted| ==> !StrLess(sorted[k].time, b.time)
    ensures Increasing(sorted[..k] + [b] + sorted[k..])
    ensures forall x :: x in sorted[..k] + [b] + sorted[k..] <==> x in sorted || x == b
  {
    forall j | k <= j < |sorted| ensures StrLess(b.time, sorted[j].time) {
      StrLessTotal(sorted[k].time, b.time);
      assert sorted[k] in sorted;
      if k < j { StrLessTransitive(b.time, sorted[k].time, sorted[j].time); }
    }
    assert sorted == sorted[..k] + sorted[k..];
  }

  /** The values of the bucket table, in the order of its keys. */
  function ValuesOf(order: seq<string>, buckets: map<string, Bucket>): (vs: seq<Bucket>)
    requires forall t :: t in order ==> t in buckets
    ensures |vs| == |order| && forall i :: 0 <= i < |order| ==> vs[i] == buckets[order[i]]
  {
    if order == [] then [] else [buckets[order[0]]] + ValuesOf(order[1..], buckets)
  }

  /** One log's share of the bucket table; a Map lists its keys in order of insertion. */
  method CountInBucket(buckets: map<string, Bucket>, order: seq<string>, log: Log, period: Period)
    returns (buckets': map<string, Bucket>, order': seq<string>)
    requires NoDuplicates(order) && forall t :: t in order <==> t in buckets
    ensures buckets' == BumpBucket(buckets, log, period)
    ensures NoDuplicates(order') && forall t :: t in order' <==> t in buckets'
  {
    buckets', order' := buckets, order;
    var timeKey := TimeKey(log.createdAt, period);
    if timeKey !in buckets' {
      buckets' := buckets'[timeKey := Bucket(timeKey, 0, map[])];
      order' := order' + [timeKey];
    }
    var entry := buckets'[timeKey];
    entry := entry.(total := entry.total + log.count);
    var resources := AddCount(entry.resources, log.resourceType, log.count);
    buckets' := buckets'[timeKey := entry.(resources := resources)];
  }

  /** `getTimeSeriesData` */
  method GetTimeSeriesData(logs: seq<Log>, period: Period) returns (series: seq<Bucket>)
    ensures IsSeries(series, logs, period)
  {
    if |logs| == 0 {
      return [];
    }
    var buckets: map<string, Bucket> := map[];
    var order: seq<string> := [];
    for i := 0 to |logs|
      invariant buckets == GroupBuckets(logs[..i], period)
      invariant NoDuplicates(order) && forall t :: t in order <==> t in buckets
    {
      assert logs[..i + 1][..i] == logs[..i];
      buckets, order := CountInBucket(buckets, order, logs[i], period);
    }
    assert logs[..|logs|] == logs;
    GroupBucketsCorrect(logs, period);
    var values := ValuesOf(order, buckets);
    ValuesCover(buckets, order, logs, period);
    series := SortByTime(values);
    SameElementsCover(values, series, logs, period);
  }

  lemma ValuesCover(buckets: map<string, Bucket>, order: seq<string>, logs: seq<Log>, period: Period)
    requires IsBuckets(buckets, logs, period)
    requires NoDuplicates(order) && forall t :: t in order <==> t in buckets
    ensures var vs := ValuesOf(order, buckets);
            Covers(vs, logs, period) && forall i, j :: 0 <= i < j < |vs| ==> vs[i].time != vs[j].time
  {
    var vs := ValuesOf(order, buckets);
    forall i | 0 <= i < |vs| ensures vs[i].time == order[i] && IsBucket(vs[i], logs, period) {
      assert order[i] in buckets;
    }
    forall l | l in logs ensures exists b :: b in vs && b.time == TimeKey(l.createdAt, period) {
      BucketOfLog(buckets, logs, l, period);
      ValueOfKey(order, buckets, TimeKey(l.createdAt, period));
    }
  }

  lemma BucketOfLog(buckets: map<string, Bucket>, logs: seq<Log>, l: Log, period: Period)
    requires IsBuckets(buckets, logs, period) && l in logs
    ensures TimeKey(l.createdAt, period) in buckets && buckets[TimeKey(l.createdAt, period)].time == TimeKey(l.createdAt, period)
  {
    var t := TimeKey(l.createdAt, period);
    assert Picks(l, With(EVERYTHING, ByBucket(period), t));
    assert Seen(logs, With(EVERYTHING, ByBucket(period), t));
  }

  lemma ValueOfKey(order: seq<string>, buckets: map<string, Bucket>, t: string)
    requires forall x :: x in order ==> x in buckets
    requires t in order
    ensures buckets[t] in ValuesOf(order, buckets)
  {
    var i :| 0 <= i < |order| && order[i] == t;
    assert ValuesOf(order, buckets)[i] == buckets[t];
  }

  lemma SameElementsCover(bs: seq<Bucket>, bs': seq<Bucket>, logs: seq<Log>, period: Period)
    requires Covers(bs, logs, period) && forall b :: b in bs' <==> b in bs
    ensures Covers(bs', logs, period)
  {
    forall l | l in logs ensures exists b :: b in bs' && b.time == TimeKey(l.createdAt, period) {
      var b :| b in bs && b.time == TimeKey(l.createdAt, period);
      assert b in bs';
    }
  }

  /* ---------- the reports ---------- */

  ghost predicate IsUserReport(r: UserReport, logs: seq<Log>, period: Period) {
    && r.totalUsage == Sum(logs, EVERYTHING)
    && IsResourceStats(r.resourceStats, logs) && IsSeries(r.timeSeries, logs, period)
  }

  ghost predicate IsWorkspaceReport(r: WorkspaceReport, logs: seq<Log>, period: Period) {
    && r.totalUsage == Sum(logs, EVERYTHING)
    && IsResourceStats(r.resourceStats, logs) && IsUserStats(r.userStats, logs) && IsSeries(r.timeSeries, logs, period)
  }

  lemma SumOfPrefix(logs: seq<Log>, i: nat)
    requires i < |logs|
    ensures Sum(logs[..i + 1], EVERYTHING) == Sum(logs[..i], EVERYTHING) + logs[i].count
  {
    assert logs[..i + 1] == logs[..i] + [logs[i]];
    SumAppend(logs[..i], logs[i], EVERYTHING);
  }

  method TotalCount(logs: seq<Log>) returns (total: int)
    ensures total == Sum(logs, EVERYTHING)
  {
    total := 0;
    for i := 0 to |logs|
      invariant total == Sum(logs[..i], EVERYTHING)
    {
      SumOfPrefix(logs, i);
      total := total + logs[i].count;
    }
    assert logs[..|logs|] == logs;
  }

  /** One log's share of the resource table, as both analytics loops add it. */
  method CountResource(stats: map<string, ResourceStat>, log: Log) returns (stats': map<string, ResourceStat>)
    ensures stats' == BumpResource(stats, log)
  {
    stats' := stats;
    var r := log.resourceType;
    if r !in stats' {
      stats' := stats'[r := ResourceStat(0, map[])];
    }
    stats' := stats'[r := stats'[r].(total := stats'[r].total + log.count)];
    var byAction := AddCount(stats'[r].byAction, log.action, log.count);
    stats' := stats'[r := stats'[r].(byAction := byAction)];
  }

  /** One log's share of the user table. */
  method CountUser(stats: map<Id, UserStat>, log: Log) returns (stats': map<Id, UserStat>)
    ensures stats' == BumpUser(stats, log)
  {
    stats' := stats;
    var u := log.userId;
    if u !in stats' {
      stats' := stats'[u := UserStat(u, 0, map[])];
    }
    stats' := stats'[u := stats'[u].(total := stats'[u].total + log.count)];
    var byResource := AddCount(stats'[u].byResource, log.resourceType, log.count);
    stats' := stats'[u := stats'[u].(byResource := byResource)];
  }

  /** `AnalyticsService.getUserUsageStats` on the logs its query returned. */
  method AnalyticsUserStats(logs: seq<Log>, period: Period) returns (report: UserReport)
    ensures IsUserReport(report, logs, period)
  {
    var resourceStats: map<string, ResourceStat> := map[];
    for i := 0 to |logs|
      invariant resourceStats == GroupResources(logs[..i])
    {
      assert logs[..i + 1][..i] == logs[..i];
      resourceStats := CountResource(resourceStats, logs[i]);
    }
    assert logs[..|logs|] == logs;
    GroupResourcesCorrect(logs);
    var series := GetTimeSeriesData(logs, period);
    var total := TotalCount(logs);
    return UserReport(total, resourceStats, series);
  }

  /** `AnalyticsService.getWorkspaceUsageStats` on the logs its query returned. */
  method AnalyticsWorkspaceStats(logs: seq<Log>, period: Period) returns (report: WorkspaceReport)
    ensures IsWorkspaceReport(report, logs, period)
  {
    var resourceStats: map<string, ResourceStat> := map[];
    var userStats: map<Id, UserStat> := map[];
    for i := 0 to |logs|
      invariant resourceStats == GroupResources(logs[..i])
      invariant userStats == GroupUsers(logs[..i])
    {
      assert logs[..i + 1][..i] == logs[..i];
      resourceStats := CountResource(resourceStats, logs[i]);
      userStats := CountUser(userStats, logs[i]);
    }
    assert logs[..|logs|] == logs;
    GroupResourcesCorrect(logs);
    GroupUsersCorrect(logs);
    var series := GetTimeSeriesData(logs, period);
    var total := TotalCount(logs);
    return WorkspaceReport(total, resourceStats, userStats, series);
  }

  /** `UsageService.getUserUsageStats` on the logs its query returned. */
  method UsageUserStats(logs: seq<Log>) returns (usage: map<string, ResourceStat>)
    ensures IsResourceStats(usage, logs)
  {
    usage := map[];
    for i := 0 to |logs|
      invariant usage == GroupResources(logs[..i])
    {
      assert logs[..i + 1][..i] == logs[..i];
      var log := logs[i];
      if log.resourceType !in usage {
        usage := usage[log.resourceType := ResourceStat(0, map[])];
      }
      var stat := usage[log.resourceType];
      var byAction := AddCount(stat.byAction, log.action, log.count);
      usage := usage[log.resourceType := ResourceStat(stat.total + log.count, byAction)];
    }
    assert logs[..|logs|] == logs;
    GroupResourcesCorrect(logs);
  }

  /** The database's `_sum`: nothing when no row meets the filter. */
  function Aggregate(table: seq<Log>, w: Where): Option<int> {
    var rows := Select(table, w);
    if rows == [] then None else Some(Sum(rows, EVERYTHING))
  }

  /** `getDailyUsage` and `getMonthlyUsage`, which differ in where the window starts. */
  function UsageSince(table: seq<Log>, userId: Id, resource: string, start: nat): int {
    match Aggregate(table, Where([userId], Some(resource), Some(start), None))
    case Some(n) => n
    case None => 0
  }

  /* ---------- laws of the reports ---------- */

  /** Some bucket of a time series is the one for a log, under the key its calendar unit
      reads as (`Usage.KeysRead`); here for the days of a month. */
  lemma LogHasItsDay(bs: seq<Bucket>, logs: seq<Log>, l: Log)
    requires IsSeries(bs, logs, Month) && l in logs
    ensures exists b :: b in bs && |b.time| == 2 && IsDigit(b.time[0]) && IsDigit(b.time[1]) && NumberOf(b.time) == l.createdAt.day
  {
    var b :| b in bs && b.time == TimeKey(l.createdAt, Month);
    KeysRead(l.createdAt, Month);
  }

  /** What one more log adds to a workspace report: its count to the total, to its
      resource and the action on it, to its user and the user's share of the resource,
      and to no other figure. Together with the empty report this gives every figure. */
  lemma OneMoreLog(ws: WorkspaceReport, ws': WorkspaceReport, logs: seq<Log>, l: Log, period: Period, r: string, a: string, u: Id)
    requires IsWorkspaceReport(ws, logs, period) && IsWorkspaceReport(ws', logs + [l], period)
    ensures ws'.totalUsage == ws.totalUsage + l.count
    ensures TotalOf(ws'.resourceStats, r) == TotalOf(ws.resourceStats, r) + if r == l.resourceType then l.count else 0
    ensures ActionOf(ws'.resourceStats, r, a) == ActionOf(ws.resourceStats, r, a) + if r == l.resourceType && a == l.action then l.count else 0
    ensures UserTotalOf(ws'.userStats, u) == UserTotalOf(ws.userStats, u) + if u == l.userId then l.count else 0
    ensures ShareOf(ws'.userStats, u, r) == ShareOf(ws.userStats, u, r) + if u == l.userId && r == l.resourceType then l.count else 0
  {
    SumAppend(logs, l, EVERYTHING);
    OneMoreInResources(ws.resourceStats, ws'.resourceStats, logs, l, r, a);
    OneMoreInUsers(ws.userStats, ws'.userStats, logs, l, u, r);
  }

  lemma OneMoreInResources(stats: map<string, ResourceStat>, stats': map<string, ResourceStat>, logs: seq<Log>, l: Log, r: string, a: string)
    requires IsResourceStats(stats, logs) && IsResourceStats(stats', logs + [l])
    ensures TotalOf(stats', r) == TotalOf(stats, r) + if r == l.resourceType then l.count else 0
    ensures ActionOf(stats', r, a) == ActionOf(stats, r, a) + if r == l.resourceType && a == l.action then l.count else 0
  {
    SumsGrow(logs, l, ByResource, r, ByAction, a);
    TotalOfIsSum(stats, logs, r, a);
    TotalOfIsSum(stats', logs + [l], r, a);
  }

  lemma OneMoreInUsers(stats: map<Id, UserStat>, stats': map<Id, UserStat>, logs: seq<Log>, l: Log, u: Id, r: string)
    requires IsUserStats(stats, logs) && IsUserStats(stats', logs + [l])
    ensures UserTotalOf(stats', u) == UserTotalOf(stats, u) + if u == l.userId then l.count else 0
    ensures ShareOf(stats', u, r) == ShareOf(stats, u, r) + if u == l.userId && r == l.resourceType then l.count else 0
  {
    SumsGrow(logs, l, ByUser, u, ByResource, r);
    UserTotalOfIsSum(stats, logs, u, r);
    UserTotalOfIsSum(stats', logs + [l], u, r);
  }

  lemma EmptyReport(ws: WorkspaceReport, period: Period)
    requires IsWorkspaceReport(ws, [], period)
    ensures ws.totalUsage == 0 && ws.resourceStats == map[] && ws.userStats == map[] && forall b :: b !in ws.timeSeries
  {
    assert forall r :: !Seen([], With(EVERYTHING, ByResource, r)) && !Seen([], With(EVERYTHING, ByUser, r));
    assert ws.resourceStats.Keys == {} && ws.userStats.Keys == {};
  }

  /** One more log in the figure of a key, and in a part of that figure. */
  lemma SumsGrow(logs: seq<Log>, l: Log, d: Dimension, k: string, d': Dimension, k': string)
    requires Free(With(EVERYTHING, d, k), d')
    ensures Sum(logs + [l], With(EVERYTHING, d, k)) == Sum(logs, With(EVERYTHING, d, k)) + if KeyOf(l, d) == k then l.count else 0
    ensures Sum(logs + [l], With(With(EVERYTHING, d, k), d', k'))
         == Sum(logs, With(With(EVERYTHING, d, k), d', k')) + if KeyOf(l, d) == k && KeyOf(l, d') == k' then l.count else 0
  {
    PicksByKeys(l, d, k, d', k');
    SumAppend(logs, l, With(EVERYTHING, d, k));
    SumAppend(logs, l, With(With(EVERYTHING, d, k), d', k'));
  }

  lemma PicksByKeys(l: Log, d: Dimension, k: string, d': Dimension, k': string)
    requires Free(With(EVERYTHING, d, k), d')
    ensures Picks(l, With(EVERYTHING, d, k)) <==> KeyOf(l, d) == k
    ensures Picks(l, With(With(EVERYTHING, d, k), d', k')) <==> KeyOf(l, d) == k && KeyOf(l, d') == k'
  {
  }

  /** And to a time series: its count to the bucket of its key and to its resource there. */
  lemma OneMoreLogInSeries(bs: seq<Bucket>, bs': seq<Bucket>, logs: seq<Log>, l: Log, period: Period, b: Bucket, r: string)
    requires IsSeries(bs, logs, period) && IsSeries(bs', logs + [l], period) && b in bs'
    ensures b.total == InSeries(bs, b.time) + if b.time == TimeKey(l.createdAt, period) then l.count else 0
    ensures PartOf(b, r) == PartInSeries(bs, b.time, r) + if b.time == TimeKey(l.createdAt, period) && r == l.resourceType then l.count else 0
  {
    PartIsSum(b, logs + [l], period, r);
    SeriesIsSum(bs, logs, period, b.time, r);
    FiguresGrow(logs, l, period, b.time, r);
  }

  lemma FiguresGrow(logs: seq<Log>, l: Log, period: Period, time: string, r: string)
    ensures var sel := With(EVERYTHING, ByBucket(period), time); var here := time == TimeKey(l.createdAt, period);
            && Sum(logs + [l], sel) == Sum(logs, sel) + (if here then l.count else 0)
            && Sum(logs + [l], With(sel, ByResource, r)) == Sum(logs, With(sel, ByResource, r)) + if here && r == l.resourceType then l.count else 0
  {
    SumsGrow(logs, l, ByBucket(period), time, ByResource, r);
  }

  /** The total, and a resource's part, of the bucket with a key; 0 where there is none. */
  function InSeries(bs: seq<Bucket>, time: string): int {
    if bs == [] then 0 else (if bs[0].time == time then bs[0].total else 0) + InSeries(bs[1..], time)
  }

  function PartInSeries(bs: seq<Bucket>, time: string, r: string): int {
    if bs == [] then 0 else (if bs[0].time == time then PartOf(bs[0], r) else 0) + PartInSeries(bs[1..], time, r)
  }

  lemma {:induction false} AbsentInSeries(bs: seq<Bucket>, time: string, r: string)
    requires forall b :: b in bs ==> b.time != time
    ensures InSeries(bs, time) == 0 && PartInSeries(bs, time, r) == 0
  {
    if bs != [] {
      assert bs[0] in bs;
      AbsentInSeries(bs[1..], time, r);
    }
  }

  lemma {:induction false} PresentInSeries(bs: seq<Bucket>, k: nat, r: string)
    requires Increasing(bs) && k < |bs|
    ensures InSeries(bs, bs[k].time) == bs[k].total && PartInSeries(bs, bs[k].time, r) == PartOf(bs[k], r)
  {
    if k == 0 {
      forall b | b in bs[1..] ensures b.time != bs[0].time {
        var j :| 1 <= j < |bs| && bs[j] == b;
        StrLessTotal(bs[0].time, b.time);
      }
      AbsentInSeries(bs[1..], bs[0].time, r);
    } else {
      StrLessTotal(bs[0].time, bs[k].time);
      PresentInSeries(bs[1..], k - 1, r);
    }
  }

  lemma SeriesIsSum(bs: seq<Bucket>, logs: seq<Log>, period: Period, time: string, r: string)
    requires IsSeries(bs, logs, period)
    ensures InSeries(bs, time) == Sum(logs, With(EVERYTHING, ByBucket(period), time))
    ensures PartInSeries(bs, time, r) == Sum(logs, With(With(EVERYTHING, ByBucket(period), time), ByResource, r))
  {
    var sel := With(EVERYTHING, ByBucket(period), time);
    if k :| 0 <= k < |bs| && bs[k].time == time {
      assert bs[k] in bs;
      PresentInSeries(bs, k, r);
      PartIsSum(bs[k], logs, period, r);
    } else {
      forall b | b in bs ensures b.time != time { var k :| 0 <= k < |bs| && bs[k] == b; }
      AbsentInSeries(bs, time, r);
      UnseenInSeries(bs, logs, period, time);
      UnseenIsZero(logs, sel);
      EmptyBreakdown(logs, sel, ByResource);
      UnseenIsZero(logs, With(sel, ByResource, r));
    }
  }

  lemma UnseenInSeries(bs: seq<Bucket>, logs: seq<Log>, period: Period, time: string)
    requires IsSeries(bs, logs, period) && forall b :: b in bs ==> b.time != time
    ensures !Seen(logs, With(EVERYTHING, ByBucket(period), time))
  {
    forall l | l in logs ensures TimeKey(l.createdAt, period) != time {
      var b :| b in bs && b.time == TimeKey(l.createdAt, period);
    }
  }

  function PartOf(b: Bucket, r: string): int {
    if r in b.resources then b.resources[r] else 0
  }

  lemma PartIsSum(b: Bucket, logs: seq<Log>, period: Period, r: string)
    requires IsBucket(b, logs, period)
    ensures b.total == Sum(logs, With(EVERYTHING, ByBucket(period), b.time))
    ensures PartOf(b, r) == Sum(logs, With(With(EVERYTHING, ByBucket(period), b.time), ByResource, r))
  {
    if r !in b.resources { UnseenIsZero(logs, With(With(EVERYTHING, ByBucket(period), b.time), ByResource, r)); }
  }

  function UserTotalOf(stats: map<Id, UserStat>, u: Id): int {
    if u in stats then stats[u].total else 0
  }

  function ShareOf(stats: map<Id, UserStat>, u: Id, r: string): int {
    if u in stats && r in stats[u].byResource then stats[u].byResource[r] else 0
  }

  lemma UserTotalOfIsSum(stats: map<Id, UserStat>, logs: seq<Log>, u: Id, r: string)
    requires IsUserStats(stats, logs)
    ensures UserTotalOf(stats, u) == Sum(logs, With(EVERYTHING, ByUser, u))
    ensures ShareOf(stats, u, r) == Sum(logs, With(With(EVERYTHING, ByUser, u), ByResource, r))
  {
    var sel := With(EVERYTHING, ByUser, u);
    if u !in stats {
      UnseenIsZero(logs, sel);
      EmptyBreakdown(logs, sel, ByResource);
      UnseenIsZero(logs, With(sel, ByResource, r));
    } else if r !in stats[u].byResource {
      UnseenIsZero(logs, With(sel, ByResource, r));
    }
  }

  /** What one more row of the table adds to the usage since a start. */
  lemma OneMoreRow(table: seq<Log>, l: Log, userId: Id, resource: string, start: nat)
    ensures UsageSince([], userId, resource, start) == 0
    ensures UsageSince(table + [l], userId, resource, start)
         == UsageSince(table, userId, resource, start)
            + if l.userId == userId && l.resourceType == resource && start <= l.createdAt.time then l.count else 0
  {
    var w := Where([userId], Some(resource), Some(start), None);
    FilterAppend((x: Log) => Meets(x, w), table, [l]);
    if Meets(l, w) {
      SumAppend(Select(table, w), l, EVERYTHING);
    } else {
      assert Select(table, w) + [] == Select(table, w);
    }
  }

  function TotalOf(stats: map<string, ResourceStat>, r: string): int {
    if r in stats then stats[r].total else 0
  }

  function ActionOf(stats: map<string, ResourceStat>, r: string, a: string): int {
    if r in stats && a in stats[r].byAction then stats[r].byAction[a] else 0
  }

  /** A resource table is determined by the logs up to their order, so the two
      services agree on the same logs in any order. */
  lemma AggregatorsAgree(stats: map<string, ResourceStat>, usage: map<string, ResourceStat>, a: seq<Log>, b: seq<Log>)
    requires multiset(a) == multiset(b)
    requires IsResourceStats(stats, a) && IsResourceStats(usage, b)
    ensures stats == usage
  {
    forall r ensures (r in stats <==> r in usage) && (r in stats ==> stats[r] == usage[r]) {
      var sel := With(EVERYTHING, ByResource, r);
      SumIgnoresOrder(a, b, sel);
      SeenIgnoresOrder(a, b, sel);
      if r in stats {
        forall x ensures (x in stats[r].byAction <==> x in usage[r].byAction)
                         && (x in stats[r].byAction ==> stats[r].byAction[x] == usage[r].byAction[x]) {
          SumIgnoresOrder(a, b, With(sel, ByAction, x));
          SeenIgnoresOrder(a, b, With(sel, ByAction, x));
        }
        assert stats[r].byAction == usage[r].byAction;
      }
    }
  }

  lemma TotalOfIsSum(stats: map<string, ResourceStat>, logs: seq<Log>, r: string, a: string)
    requires IsResourceStats(stats, logs)
    ensures TotalOf(stats, r) == Sum(logs, With(EVERYTHING, ByResource, r))
    ensures ActionOf(stats, r, a) == Sum(logs, With(With(EVERYTHING, ByResource, r), ByAction, a))
  {
    var sel := With(EVERYTHING, ByResource, r);
    if r !in stats {
      UnseenIsZero(logs, sel);
      EmptyBreakdown(logs, sel, ByAction);
      UnseenIsZero(logs, With(sel, ByAction, a));
    } else if a !in stats[r].byAction {
      UnseenIsZero(logs, With(sel, ByAction, a));
    }
  }

  /** The direct sums equal the resource totals of the report over the same window,
      0 where the report has no entry. */
  lemma DirectSumAgrees(table: seq<Log>, userId: Id, r: string, start: nat, logs: seq<Log>, stats: map<string, ResourceStat>)
    requires Returned(logs, table, Where([userId], None, Some(start), None)) && IsResourceStats(stats, logs)
    ensures UsageSince(table, userId, r, start) == TotalOf(stats, r)
  {
    var w, w' := Where([userId], None, Some(start), None), Where([userId], Some(r), Some(start), None);
    var sel := With(EVERYTHING, ByResource, r);
    TotalOfIsSum(stats, logs, r, "");
    SumIgnoresOrder(logs, Select(table, w), sel);
    SumOfSelected(table, w, w', sel, EVERYTHING);
  }

  /** Asking for one resource gives that resource's figures and no others. */
  lemma ResourceFilterRestricts(table: seq<Log>, w: Where, r: string, all: seq<Log>, some: seq<Log>,
                                full: map<string, ResourceStat>, filtered: map<string, ResourceStat>, x: string, a: string)
    requires w.resource.None?
    requires Returned(all, table, w) && Returned(some, table, w.(resource := Some(r)))
    requires IsResourceStats(full, all) && IsResourceStats(filtered, some)
    ensures TotalOf(filtered, x) == if x == r then TotalOf(full, x) else 0
    ensures ActionOf(filtered, x, a) == if x == r then ActionOf(full, x, a) else 0
  {
    var w' := w.(resource := Some(r));
    var sel := With(EVERYTHING, ByResource, x);
    TotalOfIsSum(full, all, x, a);
    TotalOfIsSum(filtered, some, x, a);
    SumIgnoresOrder(all, Select(table, w), sel);
    SumIgnoresOrder(all, Select(table, w), With(sel, ByAction, a));
    SumIgnoresOrder(some, Select(table, w'), sel);
    SumIgnoresOrder(some, Select(table, w'), With(sel, ByAction, a));
    if x == r {
      SumOfSelected(table, w, w', sel, sel);
      SumOfSelected(table, w, w', With(sel, ByAction, a), With(sel, ByAction, a));
    } else {
      UnseenIsZero(Select(table, w'), sel);
      UnseenIsZero(Select(table, w'), With(sel, ByAction, a));
    }
  }

  /** With counts that are not negative, usage since a later start is no larger. */
  lemma {:induction false} DailyAtMostMonthly(table: seq<Log>, userId: Id, r: string, startOfMonth: nat, startOfDay: nat)
    requires startOfMonth <= startOfDay && forall l :: l in table ==> l.count >= 0
    ensures 0 <= UsageSince(table, userId, r, startOfDay) <= UsageSince(table, userId, r, startOfMonth)
  {
    var w, w' := Where([userId], Some(r), Some(startOfDay), None), Where([userId], Some(r), Some(startOfMonth), None);
    if table != [] {
      DailyAtMostMonthly(table[1..], userId, r, startOfMonth, startOfDay);
      SelectStep(table, w, EVERYTHING);
      SelectStep(table, w', EVERYTHING);
    }
  }

  function SumTotals(reports: seq<UserReport>, r: string): int {
    if reports == [] then 0 else TotalOf(reports[0].resourceStats, r) + SumTotals(reports[1..], r)
  }

  function SumActions(reports: seq<UserReport>, r: string, a: string): int {
    if reports == [] then 0 else ActionOf(reports[0].resourceStats, r, a) + SumActions(reports[1..], r, a)
  }

  /** `reports[i]` is the report of member `i` for the window starting at `start`. */
  ghost predicate MemberReports(table: seq<Log>, members: seq<Id>, start: nat, period: Period, logs: seq<seq<Log>>, reports: seq<UserReport>) {
    && |logs| == |reports| == |members|
    && forall i :: 0 <= i < |members| ==>
         Returned(logs[i], table, Where([members[i]], None, Some(start), None)) && IsUserReport(reports[i], logs[i], period)
  }

  /** A member's figure computed from the workspace's logs and from the member's own. */
  lemma MemberFigure(table: seq<Log>, members: seq<Id>, u: Id, start: nat, own: seq<Log>, sel: Selector)
    requires u in members && sel.user.None?
    requires Returned(own, table, Where([u], None, Some(start), None))
    ensures Sum(own, sel)
         == Sum(Select(table, Where(members, None, Some(start), None)), With(sel, ByUser, u))
  {
    var w, w' := Where([u], None, Some(start), None), Where(members, None, Some(start), None);
    SumIgnoresOrder(own, Select(table, w), sel);
    SumOfSelected(table, w, w', sel, With(sel, ByUser, u));
  }

  lemma {:induction false} MembersAddUp(table: seq<Log>, members: seq<Id>, from_: nat, start: nat, period: Period,
                                        logs: seq<seq<Log>>, reports: seq<UserReport>, r: string, a: string)
    requires MemberReports(table, members, start, period, logs, reports) && from_ <= |members|
    ensures var all := Select(table, Where(members, None, Some(start), None));
            var sel := With(EVERYTHING, ByResource, r);
            && SumTotals(reports[from_..], r) == SumOver(members[from_..], all, sel, ByUser)
            && SumActions(reports[from_..], r, a) == SumOver(members[from_..], all, With(sel, ByAction, a), ByUser)
    decreases |members| - from_
  {
    if from_ < |members| {
      var sel := With(EVERYTHING, ByResource, r);
      MembersAddUp(table, members, from_ + 1, start, period, logs, reports, r, a);
      assert reports[from_..][1..] == reports[from_ + 1..] && members[from_..][1..] == members[from_ + 1..];
      TotalOfIsSum(reports[from_].resourceStats, logs[from_], r, a);
      MemberFigure(table, members, members[from_], start, logs[from_], sel);
      MemberFigure(table, members, members[from_], start, logs[from_], With(sel, ByAction, a));
    }
  }

  /** A workspace report is the sum of its members' reports: each resource total and
      each by-action count is the sum of the members' own, given that no member is
      listed twice. */
  lemma WorkspaceIsSumOfMembers(table: seq<Log>, members: seq<Id>, start: nat, period: Period, wsLogs: seq<Log>,
                                stats: map<string, ResourceStat>, logs: seq<seq<Log>>, reports: seq<UserReport>, r: string, a: string)
    requires NoDuplicates(members)
    requires Returned(wsLogs, table, Where(members, None, Some(start), None)) && IsResourceStats(stats, wsLogs)
    requires MemberReports(table, members, start, period, logs, reports)
    ensures TotalOf(stats, r) == SumTotals(reports, r)
    ensures ActionOf(stats, r, a) == SumActions(reports, r, a)
  {
    var all := Select(table, Where(members, None, Some(start), None));
    var sel := With(EVERYTHING, ByResource, r);
    TotalOfIsSum(stats, wsLogs, r, a);
    SumIgnoresOrder(wsLogs, all, sel);
    SumIgnoresOrder(wsLogs, all, With(sel, ByAction, a));
    SumIsSumOfParts(members, all, sel, ByUser);
    SumIsSumOfParts(members, all, With(sel, ByAction, a), ByUser);
    MembersAddUp(table, members, 0, start, period, logs, reports, r, a);
    assert reports[0..] == reports && members[0..] == members;
  }

  /** Each user entry's total is that user's own total usage, 0 when there is no
      entry, and only members have entries. */
  lemma UserEntriesAreOwnTotals(table: seq<Log>, members: seq<Id>, start: nat, wsLogs: seq<Log>, stats: map<Id, UserStat>,
                                u: Id, own: seq<Log>, report: UserReport, period: Period)
    requires u in members
    requires Returned(wsLogs, table, Where(members, None, Some(start), None)) && IsUserStats(stats, wsLogs)
    requires Returned(own, table, Where([u], None, Some(start), None)) && IsUserReport(report, own, period)
    ensures (if u in stats then stats[u].total else 0) == report.totalUsage
    ensures forall x :: x in stats ==> x in members
  {
    var all := Select(table, Where(members, None, Some(start), None));
    var mine := With(EVERYTHING, ByUser, u);
    MemberFigure(table, members, u, start, own, EVERYTHING);
    SumIgnoresOrder(wsLogs, all, mine);
    if u !in stats { UnseenIsZero(wsLogs, mine); }
    SameElements(wsLogs, all);
    forall x | x in stats ensures x in members {
      var l :| l in wsLogs && Picks(l, With(EVERYTHING, ByUser, x));
    }
  }

  /* ---------- conservation inside one report ---------- */

  function SumResourceTotals(keys: seq<string>, stats: map<string, ResourceStat>): int {
    if keys == [] then 0 else TotalOf(stats, keys[0]) + SumResourceTotals(keys[1..], stats)
  }

  function SumBreakdown(keys: seq<string>, m: map<string, int>): int {
    if keys == [] then 0 else (if keys[0] in m then m[keys[0]] else 0) + SumBreakdown(keys[1..], m)
  }

  function SumUserTotals(keys: seq<Id>, stats: map<Id, UserStat>): int {
    if keys == [] then 0 else (if keys[0] in stats then stats[keys[0]].total else 0) + SumUserTotals(keys[1..], stats)
  }

  function SumBuckets(bs: seq<Bucket>): int {
    if bs == [] then 0 else bs[0].total + SumBuckets(bs[1..])
  }

  function SumBucketResource(bs: seq<Bucket>, r: string): int {
    if bs == [] then 0 else (if r in bs[0].resources then bs[0].resources[r] else 0) + SumBucketResource(bs[1..], r)
  }

  function SumUserResource(keys: seq<Id>, stats: map<Id, UserStat>, r: string): int {
    if keys == [] then 0
    else (if keys[0] in stats && r in stats[keys[0]].byResource then stats[keys[0]].byResource[r] else 0)
         + SumUserResource(keys[1..], stats, r)
  }

  /** `keys` lists the keys of `m`, each once. */
  ghost predicate Lists<V>(keys: seq<string>, m: map<string, V>) {
    NoDuplicates(keys) && forall k :: k in keys <==> k in m
  }

  lemma {:induction false} BreakdownSums(keys: seq<string>, m: map<string, int>, logs: seq<Log>, sel: Selector, d: Dimension)
    requires IsBreakdown(m, logs, sel, d)
    ensures SumBreakdown(keys, m) == SumOver(keys, logs, sel, d)
  {
    if keys != [] {
      BreakdownSums(keys[1..], m, logs, sel, d);
      if keys[0] !in m { UnseenIsZero(logs, With(sel, d, keys[0])); }
    }
  }

  lemma SeenKeysListed(keys: seq<string>, logs: seq<Log>, sel: Selector, d: Dimension)
    requires Free(sel, d)
    requires forall k :: k in keys <==> Seen(logs, With(sel, d, k))
    ensures forall l :: l in logs && Picks(l, sel) ==> KeyOf(l, d) in keys
  {
    forall l | l in logs && Picks(l, sel) ensures KeyOf(l, d) in keys {
      assert Picks(l, With(sel, d, KeyOf(l, d)));
    }
  }

  /** Every inner table adds up to its entry's total. */
  lemma BreakdownConserves(keys: seq<string>, m: map<string, int>, logs: seq<Log>, sel: Selector, d: Dimension)
    requires IsBreakdown(m, logs, sel, d) && Free(sel, d) && Lists(keys, m)
    ensures SumBreakdown(keys, m) == Sum(logs, sel)
  {
    BreakdownSums(keys, m, logs, sel, d);
    SeenKeysListed(keys, logs, sel, d);
    SumIsSumOfParts(keys, logs, sel, d);
  }

  lemma {:induction false} ResourceTotalsSum(keys: seq<string>, stats: map<string, ResourceStat>, logs: seq<Log>)
    requires IsResourceStats(stats, logs)
    ensures SumResourceTotals(keys, stats) == SumOver(keys, logs, EVERYTHING, ByResource)
  {
    if keys != [] {
      ResourceTotalsSum(keys[1..], stats, logs);
      TotalOfIsSum(stats, logs, keys[0], "");
    }
  }

  lemma {:induction false} UserTotalsSum(keys: seq<Id>, stats: map<Id, UserStat>, logs: seq<Log>, r: string)
    requires IsUserStats(stats, logs)
    ensures SumUserTotals(keys, stats) == SumOver(keys, logs, EVERYTHING, ByUser)
    ensures SumUserResource(keys, stats, r) == SumOver(keys, logs, With(EVERYTHING, ByResource, r), ByUser)
  {
    if keys != [] {
      UserTotalsSum(keys[1..], stats, logs, r);
      var sel := With(EVERYTHING, ByUser, keys[0]);
      if keys[0] !in stats {
        UnseenIsZero(logs, sel);
        EmptyBreakdown(logs, sel, ByResource);
        UnseenIsZero(logs, With(sel, ByResource, r));
      } else if r !in stats[keys[0]].byResource {
        UnseenIsZero(logs, With(sel, ByResource, r));
      }
    }
  }

  function Times(bs: seq<Bucket>): (ts: seq<string>)
    ensures |ts| == |bs| && forall i :: 0 <= i < |bs| ==> ts[i] == bs[i].time
  {
    if bs == [] then [] else [bs[0].time] + Times(bs[1..])
  }

  lemma {:induction false} BucketsSum(bs: seq<Bucket>, logs: seq<Log>, period: Period, r: string)
    requires forall b :: b in bs ==> IsBucket(b, logs, period)
    ensures SumBuckets(bs) == SumOver(Times(bs), logs, EVERYTHING, ByBucket(period))
    ensures SumBucketResource(bs, r) == SumOver(Times(bs), logs, With(EVERYTHING, ByResource, r), ByBucket(period))
  {
    if bs != [] {
      BucketsSum(bs[1..], logs, period, r);
      assert Times(bs)[1..] == Times(bs[1..]);
      assert bs[0] in bs;
      var sel := With(EVERYTHING, ByBucket(period), bs[0].time);
      if r !in bs[0].resources { UnseenIsZero(logs, With(sel, ByResource, r)); }
    }
  }

  lemma SeriesTimes(bs: seq<Bucket>, logs: seq<Log>, period: Period)
    requires IsSeries(bs, logs, period)
    ensures NoDuplicates(Times(bs)) && forall l :: l in logs ==> TimeKey(l.createdAt, period) in Times(bs)
  {
    forall i, j | 0 <= i < j < |bs| ensures Times(bs)[i] != Times(bs)[j] {
      StrLessTotal(bs[i].time, bs[j].time);
    }
    forall l | l in logs ensures TimeKey(l.createdAt, period) in Times(bs) {
      var b :| b in bs && b.time == TimeKey(l.createdAt, period);
      var i :| 0 <= i < |bs| && bs[i] == b;
      assert Times(bs)[i] == b.time;
    }
  }

  lemma ResourceLaw(stats: map<string, ResourceStat>, logs: seq<Log>, resources: seq<string>)
    requires IsResourceStats(stats, logs) && Lists(resources, stats)
    ensures SumResourceTotals(resources, stats) == Sum(logs, EVERYTHING)
  {
    ResourceTotalsSum(resources, stats, logs);
    SeenKeysListed(resources, logs, EVERYTHING, ByResource);
    SumIsSumOfParts(resources, logs, EVERYTHING, ByResource);
  }

  lemma ActionLaw(stats: map<string, ResourceStat>, logs: seq<Log>, r: string, actions: seq<string>)
    requires IsResourceStats(stats, logs) && r in stats && Lists(actions, stats[r].byAction)
    ensures SumBreakdown(actions, stats[r].byAction) == stats[r].total == Sum(logs, With(EVERYTHING, ByResource, r))
  {
    BreakdownConserves(actions, stats[r].byAction, logs, With(EVERYTHING, ByResource, r), ByAction);
  }

  lemma UserLaw(stats: map<Id, UserStat>, logs: seq<Log>, users: seq<Id>, r: string)
    requires IsUserStats(stats, logs) && Lists(users, stats)
    ensures SumUserTotals(users, stats) == Sum(logs, EVERYTHING)
    ensures SumUserResource(users, stats, r) == Sum(logs, With(EVERYTHING, ByResource, r))
  {
    UserTotalsSum(users, stats, logs, r);
    SeenKeysListed(users, logs, EVERYTHING, ByUser);
    SumIsSumOfParts(users, logs, EVERYTHING, ByUser);
    SumIsSumOfParts(users, logs, With(EVERYTHING, ByResource, r), ByUser);
  }

  lemma SeriesLaw(bs: seq<Bucket>, logs: seq<Log>, period: Period, r: string)
    requires IsSeries(bs, logs, period)
    ensures SumBuckets(bs) == Sum(logs, EVERYTHING)
    ensures SumBucketResource(bs, r) == Sum(logs, With(EVERYTHING, ByResource, r))
  {
    BucketsSum(bs, logs, period, r);
    SeriesTimes(bs, logs, period);
    SumIsSumOfParts(Times(bs), logs, EVERYTHING, ByBucket(period));
    SumIsSumOfParts(Times(bs), logs, With(EVERYTHING, ByResource, r), ByBucket(period));
  }

  /** Conservation: a workspace report's total usage is the sum over resources, over
      users and over time buckets; and for each resource its total is the sum over
      its actions, over the users' shares and over the buckets' shares. */
  lemma ReportConserves(ws: WorkspaceReport, logs: seq<Log>, period: Period, resources: seq<string>, users: seq<Id>, r: string, actions: seq<string>)
    requires IsWorkspaceReport(ws, logs, period)
    requires Lists(resources, ws.resourceStats) && Lists(users, ws.userStats)
    requires r in ws.resourceStats && Lists(actions, ws.resourceStats[r].byAction)
    ensures ws.totalUsage == SumResourceTotals(resources, ws.resourceStats)
    ensures ws.totalUsage == SumUserTotals(users, ws.userStats)
    ensures ws.totalUsage == SumBuckets(ws.timeSeries)
    ensures ws.resourceStats[r].total == SumBreakdown(actions, ws.resourceStats[r].byAction)
    ensures ws.resourceStats[r].total == SumUserResource(users, ws.userStats, r)
    ensures ws.resourceStats[r].total == SumBucketResource(ws.timeSeries, r)
  {
    ResourceLaw(ws.resourceStats, logs, resources);
    ActionLaw(ws.resourceStats, logs, r, actions);
    UserLaw(ws.userStats, logs, users, r);
    SeriesLaw(ws.timeSeries, logs, period, r);
  }

  /** Each user's shares add up to that user's total. */
  lemma UserSharesConserve(stats: map<Id, UserStat>, logs: seq<Log>, u: Id, shares: seq<string>)
    requires IsUserStats(stats, logs) && u in stats && Lists(shares, stats[u].byResource)
    ensures stats[u].total == SumBreakdown(shares, stats[u].byResource)
  {
    BreakdownConserves(shares, stats[u].byResource, logs, With(EVERYTHING, ByUser, u), ByResource);
  }

  /** Each bucket's parts add up to that bucket's total. */
  lemma BucketPartsConserve(b: Bucket, logs: seq<Log>, period: Period, parts: seq<string>)
    requires IsBucket(b, logs, period) && Lists(parts, b.resources)
    ensures b.total == SumBreakdown(parts, b.resources)
  {
    BreakdownConserves(parts, b.resources, logs, With(EVERYTHING, ByBucket(period), b.time), ByResource);
  }
}
