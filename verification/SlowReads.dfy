/** The permission cache when computing an answer takes time: the data are read at one
    moment and the answer is stored at a later one, with anything in between. */
module SlowReads {
  import opened Common
  import opened Access
  import opened PermissionCache

  /** An answer computed but not yet stored. */
  datatype Pending = Pending(query: Query, value: Value, readAt: nat)

  datatype Busy = Busy(w: World, pending: seq<Pending>)

  datatype Move =
    | Atomic(event: Event)
    | Read(query: Query)        // a miss: the data are read
    | Store(k: nat)             // one of the computed answers is stored

  function Begin(b: Busy, q: Query): Busy {
    if Hit(b.w, Key(q)) then b else b.(pending := b.pending + [Pending(q, Fresh(b.w.db, q), b.w.now)])
  }

  function Stored(w: World, p: Pending): World {
    w.(cache := w.cache[Key(p.query) := Entry(p.value, w.now)])
  }

  function Finish(b: Busy, k: nat): Busy
    requires k < |b.pending|
  {
    Busy(Stored(b.w, b.pending[k]), b.pending[..k] + b.pending[k + 1..])
  }

  /** Queries are well-formed, and an answer is stored at most `slow` ticks after it was read. */
  predicate Enabled(b: Busy, m: Move, slow: nat) {
    match m
    case Atomic(e) => e.Ask? ==> WellFormed(e.query)
    case Read(q) => WellFormed(q)
    case Store(k) => k < |b.pending| && b.w.now <= b.pending[k].readAt + slow
  }

  function Act(b: Busy, m: Move, slow: nat): Busy
    requires Enabled(b, m, slow)
  {
    match m
    case Atomic(e) => b.(w := Step(b.w, e))
    case Read(q) => Begin(b, q)
    case Store(k) => Finish(b, k)
  }

  ghost predicate ActsTo(bs: seq<Busy>, ms: seq<Move>, i: nat, slow: nat)
    requires i < |ms| < |bs|
  {
    Enabled(bs[i], ms[i], slow) && bs[i + 1] == Act(bs[i], ms[i], slow)
  }

  ghost predicate SlowRun(bs: seq<Busy>, ms: seq<Move>, slow: nat) {
    |bs| == |ms| + 1 && bs[0].w.cache == map[] && bs[0].pending == []
    && forall i :: 0 <= i < |ms| ==> ActsTo(bs, ms, i, slow)
  }

  /** `value` answers `q` on the data of instant `j`, which lies between `from_` and `to`. */
  ghost predicate ReadAt(bs: seq<Busy>, j: nat, value: Value, q: Query, from_: int, to: int)
    requires j < |bs|
  {
    from_ <= bs[j].w.now <= to && value == Fresh(bs[j].w.db, q)
  }

  ghost predicate CameFrom(bs: seq<Busy>, i: nat, value: Value, q: Query, from_: int, to: int)
    requires i < |bs|
  {
    exists j: nat :: j <= i && ReadAt(bs, j, value, q, from_, to)
  }

  /** Every entry was read at most `slow` ticks before it was stored. */
  ghost predicate EntriesTraced(bs: seq<Busy>, i: nat, slow: nat)
    requires i < |bs|
  {
    forall q :: WellFormed(q) && Key(q) in bs[i].w.cache ==> EntryTraced(bs, i, bs[i].w.cache[Key(q)], q, slow)
  }

  ghost predicate EntryTraced(bs: seq<Busy>, i: nat, e: Entry, q: Query, slow: nat)
    requires i < |bs|
  {
    CameFrom(bs, i, e.value, q, e.setAt - slow, e.setAt)
  }

  /** Every answer not yet stored was read when it says it was. */
  ghost predicate PendingTraced(bs: seq<Busy>, i: nat)
    requires i < |bs|
  {
    forall p :: p in bs[i].pending ==>
      WellFormed(p.query) && p.readAt <= bs[i].w.now && CameFrom(bs, i, p.value, p.query, p.readAt, p.readAt)
  }

  ghost predicate Traced(bs: seq<Busy>, i: nat, slow: nat)
    requires i < |bs|
  {
    EntriesTraced(bs, i, slow) && PendingTraced(bs, i)
  }

  lemma CameFromLater(bs: seq<Busy>, i: nat, value: Value, q: Query, from_: int, to: int, from': int, to': int)
    requires i + 1 < |bs| && CameFrom(bs, i, value, q, from_, to) && from' <= from_ && to <= to'
    ensures CameFrom(bs, i + 1, value, q, from', to')
  {
    var j: nat :| j <= i && ReadAt(bs, j, value, q, from_, to);
    assert ReadAt(bs, j, value, q, from', to');
  }

  /** Well-formed queries that share a key were computed to the same value. */
  lemma SameKeyCameFrom(bs: seq<Busy>, i: nat, value: Value, q: Query, q': Query, from_: int, to: int)
    requires i < |bs| && CameFrom(bs, i, value, q, from_, to) && WellFormed(q) && WellFormed(q') && Key(q) == Key(q')
    ensures CameFrom(bs, i, value, q', from_, to)
  {
    var j: nat :| j <= i && ReadAt(bs, j, value, q, from_, to);
    SameKeySameAnswer(bs[j].w.db, q, q');
    assert ReadAt(bs, j, value, q', from_, to);
  }

  lemma AtomicKeepsTraced(bs: seq<Busy>, i: nat, e: Event, slow: nat)
    requires i + 1 < |bs| && Traced(bs, i, slow) && (e.Ask? ==> WellFormed(e.query)) && bs[i + 1] == bs[i].(w := Step(bs[i].w, e))
    ensures Traced(bs, i + 1, slow)
  {
    var w, w' := bs[i].w, bs[i + 1].w;
    forall q | WellFormed(q) && Key(q) in w'.cache ensures EntryTraced(bs, i + 1, w'.cache[Key(q)], q, slow) {
      var e' := w'.cache[Key(q)];
      if e.Ask? && !Hit(w, Key(e.query)) && Key(e.query) == Key(q) {
        SameKeySameAnswer(w.db, e.query, q);
        assert ReadAt(bs, i, e'.value, q, e'.setAt - slow, e'.setAt);
      } else {
        CameFromLater(bs, i, e'.value, q, e'.setAt - slow, e'.setAt, e'.setAt - slow, e'.setAt);
      }
    }
    PendingKept(bs, i);
  }

  /** Answers that were pending are still traced one instant later. */
  lemma PendingKept(bs: seq<Busy>, i: nat)
    requires i + 1 < |bs|
    ensures forall p :: p in bs[i].pending && CameFrom(bs, i, p.value, p.query, p.readAt, p.readAt) ==>
              CameFrom(bs, i + 1, p.value, p.query, p.readAt, p.readAt)
  {
    forall p | p in bs[i].pending && CameFrom(bs, i, p.value, p.query, p.readAt, p.readAt)
      ensures CameFrom(bs, i + 1, p.value, p.query, p.readAt, p.readAt)
    {
      CameFromLater(bs, i, p.value, p.query, p.readAt, p.readAt, p.readAt, p.readAt);
    }
  }

  lemma EntriesKept(bs: seq<Busy>, i: nat, q: Query, slow: nat)
    requires i + 1 < |bs| && EntriesTraced(bs, i, slow) && WellFormed(q) && Key(q) in bs[i].w.cache
    ensures EntryTraced(bs, i + 1, bs[i].w.cache[Key(q)], q, slow)
  {
    var e := bs[i].w.cache[Key(q)];
    CameFromLater(bs, i, e.value, q, e.setAt - slow, e.setAt, e.setAt - slow, e.setAt);
  }

  lemma ReadKeepsTraced(bs: seq<Busy>, i: nat, q: Query, slow: nat)
    requires i + 1 < |bs| && Traced(bs, i, slow) && WellFormed(q) && bs[i + 1] == Begin(bs[i], q)
    ensures Traced(bs, i + 1, slow)
  {
    PendingKept(bs, i);
    var p := Pending(q, Fresh(bs[i].w.db, q), bs[i].w.now);
    assert ReadAt(bs, i, p.value, q, p.readAt, p.readAt);
    forall q' | WellFormed(q') && Key(q') in bs[i + 1].w.cache ensures EntryTraced(bs, i + 1, bs[i + 1].w.cache[Key(q')], q', slow) {
      EntriesKept(bs, i, q', slow);
    }
  }

  /** The entry a store writes was read at most `slow` ticks before. */
  lemma StoredEntry(bs: seq<Busy>, i: nat, p: Pending, q: Query, slow: nat)
    requires i + 1 < |bs| && WellFormed(p.query) && WellFormed(q) && Key(q) == Key(p.query)
    requires CameFrom(bs, i, p.value, p.query, p.readAt, p.readAt) && p.readAt <= bs[i + 1].w.now <= p.readAt + slow
    ensures CameFrom(bs, i + 1, p.value, q, bs[i + 1].w.now - slow, bs[i + 1].w.now)
  {
    SameKeyCameFrom(bs, i, p.value, p.query, q, p.readAt, p.readAt);
    CameFromLater(bs, i, p.value, q, p.readAt, p.readAt, bs[i + 1].w.now - slow, bs[i + 1].w.now);
  }

  lemma StoreKeepsEntries(bs: seq<Busy>, i: nat, k: nat, slow: nat)
    requires i + 1 < |bs| && k < |bs[i].pending| && EntriesTraced(bs, i, slow) && bs[i + 1].w == Stored(bs[i].w, bs[i].pending[k])
    requires forall q :: WellFormed(q) && Key(q) == Key(bs[i].pending[k].query) ==>
               EntryTraced(bs, i + 1, Entry(bs[i].pending[k].value, bs[i].w.now), q, slow)
    ensures EntriesTraced(bs, i + 1, slow)
  {
    forall q | WellFormed(q) && Key(q) in bs[i + 1].w.cache ensures EntryTraced(bs, i + 1, bs[i + 1].w.cache[Key(q)], q, slow) {
      if Key(q) != Key(bs[i].pending[k].query) { EntriesKept(bs, i, q, slow); }
    }
  }

  lemma StoreKeepsPending(bs: seq<Busy>, i: nat, k: nat)
    requires i + 1 < |bs| && k < |bs[i].pending| && PendingTraced(bs, i) && bs[i + 1] == Finish(bs[i], k)
    ensures PendingTraced(bs, i + 1)
  {
    PendingKept(bs, i);
    assert forall p :: p in bs[i + 1].pending ==> p in bs[i].pending;
  }

  lemma StoreKeepsTraced(bs: seq<Busy>, i: nat, k: nat, slow: nat)
    requires i + 1 < |bs| && Traced(bs, i, slow) && Enabled(bs[i], Store(k), slow) && bs[i + 1] == Finish(bs[i], k)
    ensures Traced(bs, i + 1, slow)
  {
    var p := bs[i].pending[k];
    assert p in bs[i].pending;
    forall q | WellFormed(q) && Key(q) == Key(p.query) ensures EntryTraced(bs, i + 1, Entry(p.value, bs[i].w.now), q, slow) {
      StoredEntry(bs, i, p, q, slow);
    }
    StoreKeepsEntries(bs, i, k, slow);
    StoreKeepsPending(bs, i, k);
  }

  lemma {:induction false} RunIsTraced(bs: seq<Busy>, ms: seq<Move>, i: nat, slow: nat)
    requires SlowRun(bs, ms, slow) && i < |bs|
    ensures Traced(bs, i, slow)
  {
    if i > 0 {
      RunIsTraced(bs, ms, i - 1, slow);
      assert ActsTo(bs, ms, i - 1, slow);
      match ms[i - 1] {
        case Atomic(e) => AtomicKeepsTraced(bs, i - 1, e, slow);
        case Read(q) => ReadKeepsTraced(bs, i - 1, q, slow);
        case Store(k) => StoreKeepsTraced(bs, i - 1, k, slow);
      }
    }
  }

  /** Bounded staleness with slow reads: in every run in which answers are stored at most
      `slow` ticks after they were read, with role calls, invalidations and other answers
      in between, every answer equals the uncached one on the data as it stood at some
      instant no more than the lifetime and `slow` ago. */
  lemma SlowBoundedStaleness(bs: seq<Busy>, ms: seq<Move>, i: nat, q: Query, slow: nat)
    requires SlowRun(bs, ms, slow) && i < |bs| && WellFormed(q)
    ensures exists j: nat :: j <= i && bs[i].w.now <= bs[j].w.now + CACHE_TTL + slow && Answer(bs[i].w, q) == Fresh(bs[j].w.db, q)
  {
    RunIsTraced(bs, ms, i, slow);
    if Hit(bs[i].w, Key(q)) {
      var e := bs[i].w.cache[Key(q)];
      assert EntryTraced(bs, i, e, q, slow);
      var j: nat :| j <= i && ReadAt(bs, j, e.value, q, e.setAt - slow, e.setAt);
    } else {
      assert Answer(bs[i].w, q) == Fresh(bs[i].w.db, q);
    }
  }

  /** What a read that spans other steps leaves behind: it was read in `before` and is
      stored in `after`. Whatever was invalidated in between, for a whole lifetime the
      answer is the old one, so it is stale exactly when the data changed the answer. */
  lemma SlowReadOutlivesInvalidation(before: World, after: World, q: Query, ticks: nat)
    requires ticks <= CACHE_TTL
    ensures var later := Stored(after, Pending(q, Fresh(before.db, q), before.now));
            var w := later.(now := later.now + ticks);
            && Answer(w, q) == Fresh(before.db, q)
            && (Answer(w, q) == Fresh(w.db, q) <==> Fresh(before.db, q) == Fresh(after.db, q))
  {
  }

  /** A run: the permissions are read, one is added, and the answer is stored `slow` ticks
      later and asked for a lifetime after that. */
  function LateMoves(slow: nat, after: Db): seq<Move> {
    [Read(AllPermissions), Atomic(Mutate(after)), Atomic(Tick(slow)), Store(0), Atomic(Tick(CACHE_TTL))]
  }

  function LateRun(slow: nat, before: Db, after: Db): seq<Busy> {
    var p := Pending(AllPermissions, Rows(before.permissions), 0);
    var key := Key(AllPermissions);
    [Busy(World(before, map[], 0), []),
     Busy(World(before, map[], 0), [p]),
     Busy(World(after, map[], 0), [p]),
     Busy(World(after, map[], slow), [p]),
     Busy(World(after, map[key := Entry(p.value, slow)], slow), []),
     Busy(World(after, map[key := Entry(p.value, slow)], slow + CACHE_TTL), [])]
  }

  /** The bound is reached: in that run the last answer is as old as the lifetime and
      `slow` together, and no later data give it. */
  lemma BoundIsReached(slow: nat, before: Db, after: Db)
    requires before.permissions != after.permissions
    ensures var bs := LateRun(slow, before, after);
            && SlowRun(bs, LateMoves(slow, after), slow)
            && Answer(bs[5].w, AllPermissions) == Fresh(bs[1].w.db, AllPermissions)
            && bs[5].w.now == bs[1].w.now + CACHE_TTL + slow
            && forall k :: 2 <= k <= 5 ==> Fresh(bs[k].w.db, AllPermissions) != Answer(bs[5].w, AllPermissions)
  {
    var bs, ms := LateRun(slow, before, after), LateMoves(slow, after);
    var p := Pending(AllPermissions, Rows(before.permissions), 0);
    assert ActsTo(bs, ms, 0, slow) by { assert [] + [p] == [p]; }
    assert ActsTo(bs, ms, 1, slow);
    assert ActsTo(bs, ms, 2, slow);
    assert ActsTo(bs, ms, 3, slow) by { assert [p][..0] + [p][1..] == []; }
    assert ActsTo(bs, ms, 4, slow);
  }
}
