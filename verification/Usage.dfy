/** Usage logs, the sums every report is made of, and the laws of those sums. */
module Usage {
  import opened Common

  datatype Period = Day | Week | Month | Year | OtherPeriod

  /** An instant with its local calendar fields (weekday and month count from 0). */
  datatype Instant = Instant(time: nat, hour: nat, weekday: nat, day: nat, month: nat)

  type Stamp = i: Instant | i.hour < 24 && i.weekday < 7 && 1 <= i.day <= 31 && i.month < 12
    witness Instant(0, 0, 0, 1, 0)

  datatype Log = Log(userId: Id, resourceType: string, action: string, count: int, createdAt: Stamp)

  /* ---------- time keys ---------- */

  function Digit(n: nat): char
    requires n < 10
  {
    ('0' as int + n) as char
  }

  /** `n.toString()` for the one and two digit numbers a calendar needs. */
  function Decimal(n: nat): string
    requires n < 100
  {
    if n < 10 then [Digit(n)] else [Digit(n / 10), Digit(n % 10)]
  }

  /** `padStart(2, '0')` */
  function Pad2(s: string): string {
    if |s| < 2 then seq(2 - |s|, _ => '0') + s else s
  }

  const WEEKDAYS: seq<string> := ["Sun", "Mon", "Tue", "Wed", "Thu", "Fri", "Sat"]
  const MONTHS: seq<string> := ["Jan", "Feb", "Mar", "Apr", "May", "Jun", "Jul", "Aug", "Sep", "Oct", "Nov", "Dec"]

  /** `formatDateByPeriod` */
  function TimeKey(s: Stamp, period: Period): string {
    match period
    case Day => Decimal(s.hour) + ":00"
    case Week => WEEKDAYS[s.weekday]
    case Year => MONTHS[s.month]
    case _ => Pad2(Decimal(s.day))
  }

  predicate IsDigit(c: char) {
    '0' <= c <= '9'
  }

  /** The number a text of digits stands for. */
  function NumberOf(s: string): int {
    if s == "" then 0 else 10 * NumberOf(s[..|s| - 1]) + (s[|s| - 1] as int - '0' as int)
  }

  /** How a key reads: an hour of the day as its number without leading zero and ":00", a
      weekday and a month by their English abbreviation, and otherwise the day of the
      month as two digits. */
  lemma KeysRead(s: Stamp, period: Period)
    ensures var key := TimeKey(s, period);
            match period
            case Day => |key| >= 4 && key[|key| - 3..] == ":00" && (forall c :: c in key[..|key| - 3] ==> IsDigit(c))
                        && NumberOf(key[..|key| - 3]) == s.hour && (|key| > 4 ==> key[0] != '0')
            case Week =>
              (match s.weekday case 0 => key == "Sun" case 1 => key == "Mon" case 2 => key == "Tue" case 3 => key == "Wed"
               case 4 => key == "Thu" case 5 => key == "Fri" case _ => key == "Sat")
            case Year =>
              (match s.month case 0 => key == "Jan" case 1 => key == "Feb" case 2 => key == "Mar" case 3 => key == "Apr"
               case 4 => key == "May" case 5 => key == "Jun" case 6 => key == "Jul" case 7 => key == "Aug" case 8 => key == "Sep"
               case 9 => key == "Oct" case 10 => key == "Nov" case _ => key == "Dec")
            case _ => |key| == 2 && IsDigit(key[0]) && IsDigit(key[1]) && NumberOf(key) == s.day
  {
    match period {
      case Day =>
        var key := TimeKey(s, Day);
        assert key[..|key| - 3] == Decimal(s.hour) && key[|key| - 3..] == ":00";
        NumberOfDecimal(s.hour);
      case Week =>
      case Year =>
      case _ =>
        var key := TimeKey(s, period);
        assert key == [Digit(s.day / 10), Digit(s.day % 10)];
        TwoDigits(s.day / 10, s.day % 10);
    }
  }

  lemma TwoDigits(a: nat, b: nat)
    requires a < 10 && b < 10
    ensures NumberOf([Digit(b)]) == b && NumberOf([Digit(a), Digit(b)]) == 10 * a + b
  {
    assert [Digit(b)][..0] == [] && [Digit(a)][..0] == [];
    assert NumberOf([Digit(a)]) == a;
    assert [Digit(a), Digit(b)][..1] == [Digit(a)];
  }

  lemma NumberOfDecimal(n: nat)
    requires n < 100
    ensures NumberOf(Decimal(n)) == n && (forall c :: c in Decimal(n) ==> IsDigit(c)) && |Decimal(n)| >= 1
    ensures |Decimal(n)| > 1 ==> Decimal(n)[0] != '0'
  {
    if n < 10 { TwoDigits(0, n); } else { TwoDigits(n / 10, n % 10); }
  }

  /** The calendar unit a key stands for. */
  function Unit(s: Stamp, period: Period): nat {
    match period
    case Day => s.hour
    case Week => s.weekday
    case Year => s.month
    case _ => s.day
  }

  /** The comparison of the sort: code unit by code unit, a prefix first. */
  predicate StrLess(a: string, b: string) {
    if b == "" then false
    else if a == "" then true
    else a[0] < b[0] || (a[0] == b[0] && StrLess(a[1..], b[1..]))
  }

  lemma {:induction false} StrLessTotal(a: string, b: string)
    ensures a == b <==> !StrLess(a, b) && !StrLess(b, a)
    ensures !(StrLess(a, b) && StrLess(b, a))
  {
    if a != "" && b != "" {
      StrLessTotal(a[1..], b[1..]);
      assert a == [a[0]] + a[1..] && b == [b[0]] + b[1..];
    }
  }

  lemma {:induction false} StrLessTransitive(a: string, b: string, c: string)
    requires StrLess(a, b) && StrLess(b, c)
    ensures StrLess(a, c)
  {
    if a != "" && a[0] == b[0] && b[0] == c[0] {
      StrLessTransitive(a[1..], b[1..], c[1..]);
    }
  }

  lemma NamesDiffer(i: nat, j: nat)
    ensures i < 7 && j < 7 && WEEKDAYS[i] == WEEKDAYS[j] ==> i == j
    ensures i < 12 && j < 12 && MONTHS[i] == MONTHS[j] ==> i == j
  {
    if i < 7 && j < 7 && WEEKDAYS[i] == WEEKDAYS[j] {
      assert WEEKDAYS[i][0] == WEEKDAYS[j][0] && WEEKDAYS[i][1] == WEEKDAYS[j][1];
    }
    if i < 12 && j < 12 && MONTHS[i] == MONTHS[j] {
      assert MONTHS[i][0] == MONTHS[j][0] && MONTHS[i][1] == MONTHS[j][1] && MONTHS[i][2] == MONTHS[j][2];
    }
  }

  lemma NumbersDiffer(m: nat, n: nat)
    requires m < 100 && n < 100
    ensures Decimal(m) + ":00" == Decimal(n) + ":00" ==> m == n
    ensures Pad2(Decimal(m)) == Pad2(Decimal(n)) ==> m == n
  {
    var a, b := Decimal(m) + ":00", Decimal(n) + ":00";
    if a == b { assert |a| == |b| && a[0] == b[0] && a[1] == b[1]; }
    var c, d := Pad2(Decimal(m)), Pad2(Decimal(n));
    if c == d { assert c[0] == d[0] && c[1] == d[1]; }
  }

  /** Two instants share a key exactly when they fall in the same calendar unit. */
  lemma TimeKeysDistinguishUnits(s: Stamp, t: Stamp, period: Period)
    ensures TimeKey(s, period) == TimeKey(t, period) <==> Unit(s, period) == Unit(t, period)
  {
    match period {
      case Day => NumbersDiffer(s.hour, t.hour);
      case Week => NamesDiffer(s.weekday, t.weekday);
      case Year => NamesDiffer(s.month, t.month);
      case _ => NumbersDiffer(s.day, t.day);
    }
  }

  /** Padded day keys sort in calendar order. */
  lemma MonthKeysSortByDay(s: Stamp, t: Stamp)
    ensures StrLess(TimeKey(s, Month), TimeKey(t, Month)) <==> s.day < t.day
  {
    var a, b := TimeKey(s, Month), TimeKey(t, Month);
    assert a == [Digit(s.day / 10), Digit(s.day % 10)];
    assert b == [Digit(t.day / 10), Digit(t.day % 10)];
    assert StrLess(a[1..], b[1..]) <==> s.day % 10 < t.day % 10;
  }

  /** Unpadded hour keys do not: two hours sort in time order exactly when both have
      as many digits, or the one-digit hour is below the other's first digit. */
  lemma DayKeysSortByHour(s: Stamp, t: Stamp)
    ensures (StrLess(TimeKey(s, Day), TimeKey(t, Day)) <==> s.hour < t.hour)
       <==> ((s.hour < 10 <==> t.hour < 10) || s.hour < t.hour / 10 || t.hour < s.hour / 10)
  {
    var a, b := TimeKey(s, Day), TimeKey(t, Day);
    assert a == Decimal(s.hour) + ":00" && b == Decimal(t.hour) + ":00";
    StrLessTotal(":00", ":00");
    if s.hour < 10 && t.hour < 10 {
      assert a[1..] == ":00" && b[1..] == ":00";
    } else if s.hour >= 10 && t.hour >= 10 {
      assert a[1..][1..] == ":00" && b[1..][1..] == ":00";
      assert StrLess(a[1..], b[1..]) <==> s.hour % 10 < t.hour % 10;
    } else if s.hour < 10 {
      assert a[1] == ':' && a[1..][0] == ':' && b[1..][0] == Digit(t.hour % 10);
      assert !StrLess(a[1..], b[1..]);
    } else {
      assert b[1] == ':' && b[1..][0] == ':' && a[1..][0] == Digit(s.hour % 10);
      assert StrLess(a[1..], b[1..]);
    }
  }

  /** Where each weekday and each month stands among the sorted names. */
  const WEEKDAY_RANKS: seq<nat> := [3, 1, 5, 6, 4, 0, 2]
  const MONTH_RANKS: seq<nat> := [4, 3, 7, 0, 8, 6, 5, 1, 11, 10, 9, 2]

  /** Two strings that differ sort by their first difference. */
  lemma {:induction false} SortsByDifference(a: string, b: string, k: nat)
    requires k < |a| && k < |b| && a[..k] == b[..k] && a[k] != b[k]
    ensures StrLess(a, b) <==> a[k] < b[k]
    ensures StrLess(b, a) <==> b[k] < a[k]
  {
    if k > 0 {
      assert a[0] == a[..k][0] && b[0] == b[..k][0];
      assert a[1..][..k - 1] == a[..k][1..] && b[1..][..k - 1] == b[..k][1..];
      SortsByDifference(a[1..], b[1..], k - 1);
    }
  }

  /** Three-letter names sort by their first letter, then the second, then the third. */
  lemma ThreeLetters(a: string, b: string)
    requires |a| == 3 && |b| == 3
    ensures StrLess(a, b) <==> a[0] < b[0] || (a[0] == b[0] && (a[1] < b[1] || (a[1] == b[1] && a[2] < b[2])))
  {
    if a[0] != b[0] {
      SortsByDifference(a, b, 0);
    } else if a[1] != b[1] {
      SortsByDifference(a, b, 1);
    } else if a[2] != b[2] {
      SortsByDifference(a, b, 2);
    } else {
      assert a == b;
      StrLessTotal(a, b);
    }
  }

  /** Nor do names. Weekdays sort by their rank among the names, so a later day comes
      first exactly for Friday; Saturday, except after Monday and Friday; Thursday after
      Tuesday and Wednesday; and Monday after Sunday. */
  lemma WeekKeysSortByName(s: Stamp, t: Stamp)
    ensures StrLess(TimeKey(s, Week), TimeKey(t, Week)) <==> WEEKDAY_RANKS[s.weekday] < WEEKDAY_RANKS[t.weekday]
    ensures s.weekday < t.weekday ==>
              (StrLess(TimeKey(t, Week), TimeKey(s, Week))
               <==> || t.weekday == 5
                    || (t.weekday == 6 && s.weekday != 1 && s.weekday != 5)
                    || (t.weekday == 4 && s.weekday in {2, 3})
                    || (t.weekday == 1 && s.weekday == 0))
  {
    ThreeLetters(WEEKDAYS[s.weekday], WEEKDAYS[t.weekday]);
    ThreeLetters(WEEKDAYS[t.weekday], WEEKDAYS[s.weekday]);
  }

  const MONTHS_SORTED: seq<string> := ["Apr", "Aug", "Dec", "Feb", "Jan", "Jul", "Jun", "Mar", "May", "Nov", "Oct", "Sep"]

  lemma {:induction false} MonthsAreSorted(i: nat, j: nat)
    requires i < j < 12
    ensures StrLess(MONTHS_SORTED[i], MONTHS_SORTED[j])
    decreases j
  {
    ThreeLetters(MONTHS_SORTED[j - 1], MONTHS_SORTED[j]);
    if i < j - 1 {
      MonthsAreSorted(i, j - 1);
      StrLessTransitive(MONTHS_SORTED[i], MONTHS_SORTED[j - 1], MONTHS_SORTED[j]);
    }
  }

  lemma YearKeysSortByRank(s: Stamp, t: Stamp)
    ensures StrLess(TimeKey(s, Year), TimeKey(t, Year)) <==> MONTH_RANKS[s.month] < MONTH_RANKS[t.month]
  {
    var i, j := MONTH_RANKS[s.month], MONTH_RANKS[t.month];
    assert MONTHS[s.month] == MONTHS_SORTED[i] && MONTHS[t.month] == MONTHS_SORTED[j];
    StrLessTotal(MONTHS_SORTED[i], MONTHS_SORTED[j]);
    if i < j { MonthsAreSorted(i, j); }
    if j < i { MonthsAreSorted(j, i); }
  }

  /** Months likewise: a later month comes first exactly for February after January;
      April; June and July after March, May and June; August, except after April;
      October and November after September and October; and December, except after April
      and August. */
  lemma YearKeysSortByName(s: Stamp, t: Stamp)
    ensures s.month < t.month ==>
              (StrLess(TimeKey(t, Year), TimeKey(s, Year))
               <==> || (t.month == 1 && s.month == 0)
                    || t.month == 3
                    || (t.month in {5, 6} && s.month in {2, 4, 5})
                    || (t.month == 7 && s.month != 3)
                    || (t.month in {9, 10} && s.month in {8, 9})
                    || (t.month == 11 && s.month != 3 && s.month != 7))
  {
    YearKeysSortByRank(t, s);
  }

  /* ---------- sums ---------- */

  datatype Dimension = ByUser | ByResource | ByAction | ByBucket(period: Period)

  /** A time bucket: the instants whose key for the period is `key`. */
  datatype Slot = Slot(period: Period, key: string)

  /** Which logs a figure counts: a fixed value for some of the dimensions. */
  datatype Selector = Selector(user: Option<string>, resource: Option<string>, action: Option<string>, slot: Option<Slot>)

  const EVERYTHING := Selector(None, None, None, None)

  function KeyOf(l: Log, d: Dimension): string {
    match d
    case ByUser => l.userId
    case ByResource => l.resourceType
    case ByAction => l.action
    case ByBucket(period) => TimeKey(l.createdAt, period)
  }

  predicate Free(sel: Selector, d: Dimension) {
    match d
    case ByUser => sel.user.None?
    case ByResource => sel.resource.None?
    case ByAction => sel.action.None?
    case ByBucket(_) => sel.slot.None?
  }

  function With(sel: Selector, d: Dimension, k: string): Selector {
    match d
    case ByUser => sel.(user := Some(k))
    case ByResource => sel.(resource := Some(k))
    case ByAction => sel.(action := Some(k))
    case ByBucket(period) => sel.(slot := Some(Slot(period, k)))
  }

  predicate Fits(o: Option<string>, k: string) {
    o.Some? ==> o.value == k
  }

  predicate Picks(l: Log, sel: Selector) {
    && Fits(sel.user, l.userId) && Fits(sel.resource, l.resourceType) && Fits(sel.action, l.action)
    && (sel.slot.Some? ==> TimeKey(l.createdAt, sel.slot.value.period) == sel.slot.value.key)
  }

  /** The total count of the logs a selector picks. */
  function Sum(logs: seq<Log>, sel: Selector): int {
    if logs == [] then 0
    else
      var l := logs[|logs| - 1];
      Sum(logs[..|logs| - 1], sel) + if Picks(l, sel) then l.count else 0
  }

  ghost predicate Seen(logs: seq<Log>, sel: Selector) {
    exists l :: l in logs && Picks(l, sel)
  }

  lemma SumAppend(logs: seq<Log>, l: Log, sel: Selector)
    ensures Sum(logs + [l], sel) == Sum(logs, sel) + if Picks(l, sel) then l.count else 0
    ensures Seen(logs + [l], sel) <==> Seen(logs, sel) || Picks(l, sel)
  {
    assert (logs + [l])[..|logs|] == logs;
    assert l in logs + [l];
    if Seen(logs, sel) {
      var x :| x in logs && Picks(x, sel);
      assert x in logs + [l];
    }
  }

  lemma {:induction false} UnseenIsZero(logs: seq<Log>, sel: Selector)
    requires !Seen(logs, sel)
    ensures Sum(logs, sel) == 0
  {
    if logs != [] {
      var front, l := logs[..|logs| - 1], logs[|logs| - 1];
      assert logs == front + [l];
      SumAppend(front, l, sel);
      UnseenIsZero(front, sel);
    }
  }

  lemma {:induction false} SumConcat(a: seq<Log>, b: seq<Log>, sel: Selector)
    ensures Sum(a + b, sel) == Sum(a, sel) + Sum(b, sel)
  {
    if b == [] {
      assert a + b == a;
    } else {
      var front, l := b[..|b| - 1], b[|b| - 1];
      assert b == front + [l] && a + b == (a + front) + [l];
      SumConcat(a, front, sel);
      SumAppend(a + front, l, sel);
      SumAppend(front, l, sel);
    }
  }

  lemma SumWithout(b0: seq<Log>, l: Log, b1: seq<Log>, sel: Selector)
    ensures Sum(b0 + [l] + b1, sel) == Sum(b0 + b1, sel) + if Picks(l, sel) then l.count else 0
  {
    SumConcat(b0 + [l], b1, sel);
    SumAppend(b0, l, sel);
    SumConcat(b0, b1, sel);
  }

  lemma SameElements(a: seq<Log>, b: seq<Log>)
    requires multiset(a) == multiset(b)
    ensures forall l :: l in a <==> l in b
  {
    forall l ensures l in a <==> l in b {
      assert l in a <==> l in multiset(a);
      assert l in b <==> l in multiset(b);
    }
  }

  lemma SeenIgnoresOrder(a: seq<Log>, b: seq<Log>, sel: Selector)
    requires multiset(a) == multiset(b)
    ensures Seen(a, sel) <==> Seen(b, sel)
  {
    SameElements(a, b);
  }

  /** The last log of one list, taken out of the other. */
  lemma TakeOut(a: seq<Log>, b: seq<Log>) returns (b0: seq<Log>, b1: seq<Log>)
    requires a != [] && multiset(a) == multiset(b)
    ensures b == b0 + [a[|a| - 1]] + b1 && multiset(a[..|a| - 1]) == multiset(b0 + b1)
  {
    var l := a[|a| - 1];
    assert l in b by {
      assert l in a && l in multiset(a);
    }
    var i :| 0 <= i < |b| && b[i] == l;
    b0, b1 := b[..i], b[i + 1..];
    assert b == b0 + [l] + b1;
    FrontOf(a[..|a| - 1], l, b0, b1);
    assert a == a[..|a| - 1] + [l];
  }

  lemma FrontOf(front: seq<Log>, l: Log, b0: seq<Log>, b1: seq<Log>)
    ensures multiset(front + [l]) == multiset(b0 + [l] + b1) ==> multiset(front) == multiset(b0 + b1)
  {
    assert multiset(front + [l]) == multiset(front) + multiset{l};
    assert multiset(b0 + [l] + b1) == multiset(b0 + b1) + multiset{l};
    assert multiset(front) == multiset(front) + multiset{l} - multiset{l};
    assert multiset(b0 + b1) == multiset(b0 + b1) + multiset{l} - multiset{l};
  }

  /** Sums do not depend on the order in which the database returns the logs. */
  lemma {:induction false} SumIgnoresOrder(a: seq<Log>, b: seq<Log>, sel: Selector)
    requires multiset(a) == multiset(b)
    ensures Sum(a, sel) == Sum(b, sel)
    decreases |a|
  {
    if a == [] {
      SameElements(a, b);
      assert b == [];
    } else {
      var b0, b1 := TakeOut(a, b);
      SumIgnoresOrder(a[..|a| - 1], b0 + b1, sel);
      SumWithout(b0, a[|a| - 1], b1, sel);
    }
  }

  /** The figures of a selector split along one more dimension, added up. */
  function SumOver(keys: seq<string>, logs: seq<Log>, sel: Selector, d: Dimension): int {
    if keys == [] then 0
    else SumOver(keys[1..], logs, sel, d) + Sum(logs, With(sel, d, keys[0]))
  }

  lemma {:induction false} SumOverAppend(keys: seq<string>, logs: seq<Log>, l: Log, sel: Selector, d: Dimension)
    requires NoDuplicates(keys) && Free(sel, d)
    ensures SumOver(keys, logs + [l], sel, d) ==
            SumOver(keys, logs, sel, d) + if Picks(l, sel) && KeyOf(l, d) in keys then l.count else 0
  {
    if keys != [] {
      SumOverAppend(keys[1..], logs, l, sel, d);
      SumAppend(logs, l, With(sel, d, keys[0]));
    }
  }

  /** Conservation: a figure equals the sum of its parts along any other dimension,
      over any duplicate-free list of keys that misses none of its logs. */
  lemma {:induction false} SumIsSumOfParts(keys: seq<string>, logs: seq<Log>, sel: Selector, d: Dimension)
    requires NoDuplicates(keys) && Free(sel, d)
    requires forall l :: l in logs && Picks(l, sel) ==> KeyOf(l, d) in keys
    ensures Sum(logs, sel) == SumOver(keys, logs, sel, d)
  {
    if logs == [] {
      EmptyParts(keys, sel, d);
    } else {
      var front, l := logs[..|logs| - 1], logs[|logs| - 1];
      assert logs == front + [l];
      SumIsSumOfParts(keys, front, sel, d);
      SumOverAppend(keys, front, l, sel, d);
      SumAppend(front, l, sel);
    }
  }

  lemma {:induction false} EmptyParts(keys: seq<string>, sel: Selector, d: Dimension)
    ensures SumOver(keys, [], sel, d) == 0
  {
    if keys != [] { EmptyParts(keys[1..], sel, d); }
  }

  /* ---------- queries ---------- */

  /** A `where` clause: the users asked for, an optional resource, an optional window. */
  datatype Where = Where(users: seq<Id>, resource: Option<string>, from_: Option<nat>, to: Option<nat>)

  predicate Meets(l: Log, w: Where) {
    && l.userId in w.users && Fits(w.resource, l.resourceType)
    && (w.from_.Some? ==> w.from_.value <= l.createdAt.time) && (w.to.Some? ==> l.createdAt.time <= w.to.value)
  }

  function Select(table: seq<Log>, w: Where): seq<Log> {
    Filter((l: Log) => Meets(l, w), table)
  }

  /** A query returns exactly the rows of the users asked for, of the resource if one is
      named, and no earlier than the start and no later than the end of its window. */
  lemma SelectMeaning(table: seq<Log>, w: Where, l: Log)
    ensures l in Select(table, w)
       <==> && l in table && l.userId in w.users && (w.resource.None? || w.resource == Some(l.resourceType))
            && (w.from_.None? || w.from_.value <= l.createdAt.time) && (w.to.None? || l.createdAt.time <= w.to.value)
  {
    assert w.resource.Some? ==> w.resource == Some(w.resource.value);
  }

  /** `logs` is what a query may return: the selected rows in any order. */
  ghost predicate Returned(logs: seq<Log>, table: seq<Log>, w: Where) {
    multiset(logs) == multiset(Select(table, w))
  }

  lemma SelectStep(table: seq<Log>, w: Where, sel: Selector)
    requires table != []
    ensures Sum(Select(table, w), sel) == Sum(Select(table[1..], w), sel) + if Meets(table[0], w) && Picks(table[0], sel) then table[0].count else 0
  {
    var l, rest := table[0], Select(table[1..], w);
    if Meets(l, w) {
      assert Select(table, w) == [l] + rest;
      SumConcat([l], rest, sel);
      SumAppend([], l, sel);
      assert [] + [l] == [l];
    } else {
      assert Select(table, w) == rest;
    }
  }

  lemma {:induction false} SumOfSelected(table: seq<Log>, w: Where, w': Where, sel: Selector, sel': Selector)
    requires forall l :: l in table ==> (Meets(l, w) && Picks(l, sel) <==> Meets(l, w') && Picks(l, sel'))
    ensures Sum(Select(table, w), sel) == Sum(Select(table, w'), sel')
  {
    if table != [] {
      assert table[0] in table;
      SumOfSelected(table[1..], w, w', sel, sel');
      SelectStep(table, w, sel);
      SelectStep(table, w', sel');
    }
  }
}
