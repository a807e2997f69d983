/** The string-keyed cache in front of `Access`, as a state machine: questions,
    failing questions, invalidation, eviction, changes of the stored data, time. */
module PermissionCache {
  import opened Common
  import opened Directories
  import opened Access

  /** Lifetime of an entry, in ticks of the cache library's clock. */
  const CACHE_TTL: nat := 300

  /** One constructor for each family of cache keys. */
  datatype Query =
    | HasPermission(userId: Id, code: string, workspaceId: Option<Id>, resourceId: Option<Id>)
    | UserPermissions(userId: Id, workspaceId: Option<Id>)
    | RoleHasPermission(roleId: Id, code: string)
    | RolePermissions(roleId: Id)
    | AllPermissions
    | UserPlan(userId: Id)

  datatype Value = Flag(flag: bool) | Codes(codes: seq<string>) | Rows(rows: seq<Permission>) | PlanOf(plan: Plan)

  /** What the service computes for a query when nothing is cached. */
  function Fresh(db: Db, q: Query): Value {
    match q
    case HasPermission(u, code, w, _) => Flag(Decide(db, u, code, w))
    case UserPermissions(u, w) => Codes(ListCodes(db, u, w))
    case RoleHasPermission(r, code) => Flag(code in CodesOfRole(db, r))
    case RolePermissions(r) => Codes(CodesOfRole(db, r))
    case AllPermissions => Rows(db.permissions)
    case UserPlan(u) => PlanOf(if u in db.dir.users then db.dir.users[u].plan else STARTER)
  }

  /** The plan stored for a user, STARTER for an unknown one. */
  ghost predicate StoredPlan(db: Db, userId: Id, plan: Plan) {
    if userId in db.dir.users then plan == db.dir.users[userId].plan else plan == STARTER
  }

  /** `v` is the right answer to `q` on the data `db`. */
  ghost predicate Right(db: Db, q: Query, v: Value) {
    match q
    case HasPermission(u, code, w, _) => v.Flag? && (v.flag <==> MayUse(db, u, code, w))
    case UserPermissions(u, w) => v.Codes? && forall code :: code in v.codes <==> MayList(db, u, w, code)
    case RoleHasPermission(r, code) => v.Flag? && (v.flag <==> r in db.roles && code in db.roles[r].codes)
    case RolePermissions(r) => v == Codes(if r in db.roles then db.roles[r].codes else [])
    case AllPermissions => v == Rows(db.permissions)
    case UserPlan(u) => v.PlanOf? && StoredPlan(db, u, v.plan)
  }

  lemma FreshIsRight(db: Db, q: Query)
    ensures Right(db, q, Fresh(db, q))
  {
    match q {
      case HasPermission(u, code, w, _) => DecideMeaning(db, u, code, w);
      case UserPermissions(u, w) =>
        forall code ensures code in ListCodes(db, u, w) <==> MayList(db, u, w, code) { ListMeaning(db, u, w, code); }
      case _ =>
    }
  }

  /* ---------- keys ---------- */

  /** `${a}:${b}` */
  function Colon(a: string, b: string): string {
    a + ":" + b
  }

  predicate ColonFree(s: string) {
    ':' !in s
  }

  function Key(q: Query): string {
    match q
    case HasPermission(u, code, w, r) =>
      Colon("permission", Colon(u, Colon(Colon(code, Or(w, "global")), Or(r, "all"))))
    case UserPermissions(u, w) => Colon("user-permissions", Colon(u, Or(w, "global")))
    case RoleHasPermission(r, code) => Colon("role-permission", Colon(r, code))
    case RolePermissions(r) => Colon("role-permissions", r)
    case AllPermissions => "all-permissions"
    case UserPlan(u) => Colon("user-plan", u)
  }

  /** How keys read. */
  lemma KeysRead(u: Id, w: Id, r: Id, code: string)
    requires w != "" && r != ""
    ensures Key(HasPermission(u, code, None, None)) == "permission:" + u + ":" + code + ":global:all"
    ensures Key(HasPermission(u, code, Some(w), Some(r))) == "permission:" + u + ":" + code + ":" + w + ":" + r
    ensures Key(UserPermissions(u, None)) == "user-permissions:" + u + ":global"
    ensures Key(UserPermissions(u, Some(w))) == "user-permissions:" + u + ":" + w
    ensures Key(RoleHasPermission(r, code)) == "role-permission:" + r + ":" + code
    ensures Key(RolePermissions(r)) == "role-permissions:" + r && Key(UserPlan(u)) == "user-plan:" + u
    ensures Key(AllPermissions) == "all-permissions"
  {
    HasPermissionKeyReads(u, code, "global", "all");
    HasPermissionKeyReads(u, code, w, r);
    assert Colon("user-permissions", Colon(u, "global")) == "user-permissions:" + u + ":global";
    assert Colon("user-permissions", Colon(u, w)) == "user-permissions:" + u + ":" + w;
    assert Colon("role-permission", Colon(r, code)) == "role-permission:" + r + ":" + code;
    assert Colon("role-permissions", r) == "role-permissions:" + r && Colon("user-plan", u) == "user-plan:" + u;
  }

  lemma HasPermissionKeyReads(u: string, code: string, w: string, r: string)
    ensures Colon("permission", Colon(u, Colon(Colon(code, w), r))) == "permission:" + u + ":" + code + ":" + w + ":" + r
    ensures "permission:" + u + ":" + code + ":global:all" == "permission:" + u + ":" + code + ":" + "global" + ":" + "all"
  {
    var tail := Colon(Colon(code, w), r);
    assert tail == code + ":" + w + ":" + r;
    assert Colon("permission", Colon(u, tail)) == "permission:" + u + ":" + tail;
  }

  /** Identifiers hold no colon; permission codes may. */
  predicate ColonFreeIds(q: Query) {
    match q
    case HasPermission(u, _, w, r) => ColonFree(u) && ColonFree(Or(w, "")) && ColonFree(Or(r, ""))
    case UserPermissions(u, w) => ColonFree(u) && ColonFree(Or(w, ""))
    case RoleHasPermission(r, _) => ColonFree(r)
    case RolePermissions(r) => ColonFree(r)
    case AllPermissions => true
    case UserPlan(u) => ColonFree(u)
  }

  /** Colon-free identifiers that are not the two words standing for "absent". */
  predicate WellFormed(q: Query) {
    ColonFreeIds(q)
    && (q.HasPermission? ==> q.workspaceId != Some("global") && q.resourceId != Some("all"))
    && (q.UserPermissions? ==> q.workspaceId != Some("global"))
  }

  /** The query with absent parts spelled the way the key spells them. */
  function Spelled(q: Query): Query {
    match q
    case HasPermission(u, code, w, r) => HasPermission(u, code, Some(Or(w, "global")), Some(Or(r, "all")))
    case UserPermissions(u, w) => UserPermissions(u, Some(Or(w, "global")))
    case _ => q
  }

  /** A colon-free part is what precedes the first colon, or follows the last. */
  lemma ColonPositions(a: string, b: string)
    ensures Colon(a, b)[..|a|] == a && Colon(a, b)[|a|] == ':' && Colon(a, b)[|a| + 1..] == b
    ensures ColonFree(a) ==> forall i :: 0 <= i < |a| ==> Colon(a, b)[i] != ':'
    ensures ColonFree(b) ==> forall i :: |a| < i < |Colon(a, b)| ==> Colon(a, b)[i] != ':'
  {
    if ColonFree(b) {
      forall i | |a| < i < |Colon(a, b)| ensures Colon(a, b)[i] != ':' {
        assert Colon(a, b)[i] == b[i - |a| - 1];
      }
    }
  }

  lemma ColonAssociates(a: string, b: string, c: string)
    ensures Colon(Colon(a, b), c) == Colon(a, Colon(b, c))
  {
  }

  lemma SplitColon(a: string, b: string, a': string, b': string)
    requires (ColonFree(a) && ColonFree(a')) || (ColonFree(b) && ColonFree(b'))
    requires Colon(a, b) == Colon(a', b')
    ensures a == a' && b == b'
  {
    ColonPositions(a, b);
    ColonPositions(a', b');
    assert |a| == |a'|;
  }

  /** Of four parts only the second may hold colons. */
  lemma SplitFour(u: string, c: string, w: string, r: string, u': string, c': string, w': string, r': string)
    requires ColonFree(u) && ColonFree(w) && ColonFree(r) && ColonFree(u') && ColonFree(w') && ColonFree(r')
    requires Colon(u, Colon(Colon(c, w), r)) == Colon(u', Colon(Colon(c', w'), r'))
    ensures u == u' && c == c' && w == w' && r == r'
  {
    SplitColon(u, Colon(Colon(c, w), r), u', Colon(Colon(c', w'), r'));
    SplitColon(Colon(c, w), r, Colon(c', w'), r');
    SplitColon(c, w, c', w');
  }

  /** The part of a key before its first colon, and the part after it. */
  function Family(q: Query): string {
    match q
    case HasPermission(_, _, _, _) => "permission"
    case UserPermissions(_, _) => "user-permissions"
    case RoleHasPermission(_, _) => "role-permission"
    case RolePermissions(_) => "role-permissions"
    case AllPermissions => "all-permissions"
    case UserPlan(_) => "user-plan"
  }

  function Rest(q: Query): string {
    match q
    case HasPermission(u, code, w, r) => Colon(u, Colon(Colon(code, Or(w, "global")), Or(r, "all")))
    case UserPermissions(u, w) => Colon(u, Or(w, "global"))
    case RoleHasPermission(r, code) => Colon(r, code)
    case RolePermissions(r) => r
    case AllPermissions => ""
    case UserPlan(u) => u
  }

  lemma FamilyColonFree(q: Query)
    ensures ColonFree(Family(q))
    ensures !q.AllPermissions? ==> Key(q) == Colon(Family(q), Rest(q))
    ensures q.AllPermissions? <==> ColonFree(Key(q))
  {
    if !q.AllPermissions? {
      assert Key(q)[|Family(q)|] == ':';
    }
  }

  lemma FamiliesDiffer(q: Query, q': Query)
    requires Family(q) == Family(q')
    ensures q.HasPermission? == q'.HasPermission? && q.UserPermissions? == q'.UserPermissions?
    ensures q.RoleHasPermission? == q'.RoleHasPermission? && q.RolePermissions? == q'.RolePermissions?
    ensures q.AllPermissions? == q'.AllPermissions? && q.UserPlan? == q'.UserPlan?
  {
    assert |Family(q)| == |Family(q')| && Family(q)[0] == Family(q')[0];
  }

  /** Keys are unambiguous: queries with colon-free identifiers share a key
      exactly when they are the same query up to how absent parts are spelled. */
  lemma KeysUnambiguous(q: Query, q': Query)
    requires ColonFreeIds(q) && ColonFreeIds(q')
    ensures Key(q) == Key(q') <==> Spelled(q) == Spelled(q')
  {
    FamilyColonFree(q);
    FamilyColonFree(q');
    if Key(q) == Key(q') && !q.AllPermissions? {
      SplitColon(Family(q), Rest(q), Family(q'), Rest(q'));
      FamiliesDiffer(q, q');
      match q {
        case HasPermission(u, code, w, r) =>
          SplitFour(u, code, Or(w, "global"), Or(r, "all"), q'.userId, q'.code, Or(q'.workspaceId, "global"), Or(q'.resourceId, "all"));
        case UserPermissions(u, w) =>
          SplitColon(u, Or(w, "global"), q'.userId, Or(q'.workspaceId, "global"));
        case RoleHasPermission(r, code) =>
          SplitColon(r, code, q'.roleId, q'.code);
        case _ =>
      }
    } else if Spelled(q) == Spelled(q') {
      match q { case _ => }
    }
  }

  /** Well-formed queries that share a key always have the same answer. */
  lemma SameKeySameAnswer(db: Db, q: Query, q': Query)
    requires WellFormed(q) && WellFormed(q') && Key(q) == Key(q')
    ensures Fresh(db, q) == Fresh(db, q')
  {
    KeysUnambiguous(q, q');
    assert Spelled(q) == Spelled(q');
  }

  /** The conditions on identifiers are needed: a workspace called "global" shares its
      key with the query without a workspace, */
  lemma GlobalCollides()
    ensures var q, q' := HasPermission("u", "c", None, None), HasPermission("u", "c", Some("global"), None);
            Key(q) == Key(q') && exists db :: Fresh(db, q) != Fresh(db, q')
  {
    var q, q' := HasPermission("u", "c", None, None), HasPermission("u", "c", Some("global"), None);
    var dir := Directory(map["u" := User("e", "", STARTER)], map["global" := Workspace("n", "u", None)], map[], []);
    var db := Db(dir, [], map[], []);
    assert Fresh(db, q) != Fresh(db, q');
  }

  /** and a user id with a colon with a query about another user. */
  lemma ColonCollides()
    ensures var q, q' := HasPermission("a:b", "c", None, None), HasPermission("a", "b:c", None, None);
            Key(q) == Key(q') && exists db :: Fresh(db, q) != Fresh(db, q')
  {
    var q, q' := HasPermission("a:b", "c", None, None), HasPermission("a", "b:c", None, None);
    assert "a:b" == Colon("a", "b") && "b:c" == Colon("b", "c");
    ColonAssociates("a", "b", Colon(Colon("c", "global"), "all"));
    ColonAssociates("b", Colon("c", "global"), "all");
    ColonAssociates("b", "c", "global");
    var db := Db(Directory(map["a" := User("e", "SUPER", STARTER)], map[], map[], []), [], map[], []);
    assert "a:b" != "a";
    assert Fresh(db, q) != Fresh(db, q');
  }

  /* ---------- the cached service ---------- */

  datatype Entry = Entry(value: Value, setAt: nat)

  type Cache = map<string, Entry>

  datatype World = World(db: Db, cache: Cache, now: nat)

  /** A lookup succeeds while the entry's age does not exceed the lifetime. */
  predicate Hit(w: World, key: string) {
    key in w.cache && w.now <= w.cache[key].setAt + CACHE_TTL
  }

  /** The reply to a query when no call to the cache or the database fails. */
  function Answer(w: World, q: Query): Value {
    if Hit(w, Key(q)) then w.cache[Key(q)].value else Fresh(w.db, q)
  }

  /** The world after that reply: a computed value has been stored. */
  function Fill(w: World, q: Query): World {
    if Hit(w, Key(q)) then w else w.(cache := w.cache[Key(q) := Entry(Fresh(w.db, q), w.now)])
  }

  /** The keys `clearUserPermissionCache` deletes, in the order it deletes them: the
      global context, then the user's workspaces. */
  function KeysToClear(db: Db, userId: Id): (keys: seq<string>)
    ensures keys != []
  {
    [Key(UserPermissions(userId, None))] + MemberKeys(db.dir.memberships, userId)
  }

  function MemberKeys(ms: seq<Membership>, userId: Id): seq<string> {
    if ms == [] then []
    else
      var last := ms[|ms| - 1];
      MemberKeys(ms[..|ms| - 1], userId)
      + if last.userId == userId then [Key(UserPermissions(userId, Some(last.workspaceId)))] else []
  }

  function Elements(keys: seq<string>): set<string> {
    set k | k in keys
  }

  /** The world after the first `n` of those keys have been deleted. */
  function ClearFirst(w: World, userId: Id, n: nat): World
    requires n <= |KeysToClear(w.db, userId)|
  {
    w.(cache := w.cache - Elements(KeysToClear(w.db, userId)[..n]))
  }

  function Clear(w: World, userId: Id): World {
    ClearFirst(w, userId, |KeysToClear(w.db, userId)|)
  }

  lemma {:induction false} MemberKeysMeaning(ms: seq<Membership>, userId: Id, key: string)
    ensures key in MemberKeys(ms, userId)
       <==> exists m :: m in ms && m.userId == userId && key == Key(UserPermissions(userId, Some(m.workspaceId)))
  {
    if ms != [] {
      var front, last := ms[..|ms| - 1], ms[|ms| - 1];
      assert ms == front + [last];
      MemberKeysMeaning(front, userId, key);
      if last.userId == userId && key == Key(UserPermissions(userId, Some(last.workspaceId))) { assert last in ms; }
    }
  }

  datatype Event =
    | Ask(query: Query)
    | AskFails(query: Query)        // a call to the cache or the database throws before anything is stored
    | Invalidate(userId: Id)
    | Evict(keys: set<string>)
    | Mutate(db: Db)                // any change of users, roles, assignments, permissions, ownership
    | Tick(ticks: nat)

  function Step(w: World, e: Event): World {
    match e
    case Ask(q) => Fill(w, q)
    case AskFails(_) => w
    case Invalidate(u) => Clear(w, u)
    case Evict(keys) => w.(cache := w.cache - keys)
    case Mutate(db) => w.(db := db)
    case Tick(n) => w.(now := w.now + n)
  }

  /** `ws` are the worlds of a run that starts with an empty cache. */
  ghost predicate Run(ws: seq<World>, es: seq<Event>) {
    |ws| == |es| + 1 && ws[0].cache == map[]
    && (forall i :: 0 <= i < |es| ==> ws[i + 1] == Step(ws[i], es[i]))
    && (forall i :: 0 <= i < |es| && es[i].Ask? ==> WellFormed(es[i].query))
  }

  /** The entry was computed from the data as it stood in world `j`, at that time. */
  ghost predicate TakenAt(w: World, e: Entry, q: Query) {
    w.now == e.setAt && e.value == Fresh(w.db, q)
  }

  /** Every entry under the key of a well-formed query comes from an earlier world. */
  ghost predicate Backed(ws: seq<World>, i: nat)
    requires i < |ws|
  {
    forall q :: WellFormed(q) && Key(q) in ws[i].cache ==>
      exists j :: 0 <= j <= i && TakenAt(ws[j], ws[i].cache[Key(q)], q)
  }

  lemma {:induction false} RunIsBacked(ws: seq<World>, es: seq<Event>, i: nat)
    requires Run(ws, es) && i < |ws|
    ensures Backed(ws, i)
    ensures forall j :: 0 <= j <= i ==> ws[j].now <= ws[i].now
  {
    if i > 0 {
      RunIsBacked(ws, es, i - 1);
      var w, w', e := ws[i - 1], ws[i], es[i - 1];
      forall q | WellFormed(q) && Key(q) in w'.cache
        ensures exists j :: 0 <= j <= i && TakenAt(ws[j], w'.cache[Key(q)], q)
      {
        if e.Ask? && !Hit(w, Key(e.query)) && Key(e.query) == Key(q) {
          SameKeySameAnswer(w.db, e.query, q);
          assert TakenAt(ws[i - 1], w'.cache[Key(q)], q);
        } else {
          assert Key(q) in w.cache && w'.cache[Key(q)] == w.cache[Key(q)];
          var j :| 0 <= j <= i - 1 && TakenAt(ws[j], w.cache[Key(q)], q);
          assert TakenAt(ws[j], w'.cache[Key(q)], q);
        }
      }
    }
  }

  /** Bounded staleness: in every run, every answer equals the uncached one on the
      data as it stood at some instant no more than the lifetime ago. */
  lemma BoundedStaleness(ws: seq<World>, es: seq<Event>, i: nat, q: Query)
    requires Run(ws, es) && i < |ws| && WellFormed(q)
    ensures exists j :: 0 <= j <= i && ws[j].now <= ws[i].now <= ws[j].now + CACHE_TTL
                        && Answer(ws[i], q) == Fresh(ws[j].db, q)
  {
    RunIsBacked(ws, es, i);
    if Hit(ws[i], Key(q)) {
      var j :| 0 <= j <= i && TakenAt(ws[j], ws[i].cache[Key(q)], q);
    } else {
      assert Answer(ws[i], q) == Fresh(ws[i].db, q);
    }
  }

  /** So every answer was right on the data as it stood then; a plan, for one, is the plan
      stored for the user at such an instant. */
  lemma AnswersWereRight(ws: seq<World>, es: seq<Event>, i: nat, q: Query)
    requires Run(ws, es) && i < |ws| && WellFormed(q)
    ensures exists j :: 0 <= j <= i && ws[j].now <= ws[i].now <= ws[j].now + 300 && Right(ws[j].db, q, Answer(ws[i], q))
  {
    BoundedStaleness(ws, es, i, q);
    var j :| 0 <= j <= i && ws[j].now <= ws[i].now <= ws[j].now + CACHE_TTL && Answer(ws[i], q) == Fresh(ws[j].db, q);
    FreshIsRight(ws[j].db, q);
  }

  /** What is not cached is answered rightly on the data as they are, and that answer is
      then given for three hundred ticks, whatever becomes of the data, and no longer. */
  lemma MissIsAnsweredRightly(w: World, q: Query, db: Db, ticks: nat)
    requires !Hit(w, Key(q))
    ensures Right(w.db, q, Answer(w, q))
    ensures var later := Fill(w, q).(db := db, now := w.now + ticks);
            && (ticks <= 300 ==> Answer(later, q) == Answer(w, q))
            && (ticks > 300 ==> Right(db, q, Answer(later, q)))
  {
    FreshIsRight(w.db, q);
    FreshIsRight(db, q);
  }

  /** Answering one query changes the answer to no other. */
  lemma FillKeepsAnswers(w: World, q: Query, q': Query)
    requires WellFormed(q) && WellFormed(q')
    ensures Answer(Fill(w, q), q') == Answer(w, q')
  {
    if Key(q) == Key(q') { SameKeySameAnswer(w.db, q, q'); }
  }

  /** Every well-formed query gets the uncached answer. */
  ghost predicate Coherent(w: World) {
    forall q :: WellFormed(q) ==> Answer(w, q) == Fresh(w.db, q)
  }

  lemma CoherentIsRight(w: World, q: Query)
    requires Coherent(w) && WellFormed(q)
    ensures Right(w.db, q, Answer(w, q))
  {
    FreshIsRight(w.db, q);
  }

  /** Entries hold the kind of value their key's family holds. */
  ghost predicate Typed(c: Cache) {
    forall q :: WellFormed(q) && Key(q) in c ==>
      match q
      case HasPermission(_, _, _, _) => c[Key(q)].value.Flag?
      case RoleHasPermission(_, _) => c[Key(q)].value.Flag?
      case UserPermissions(_, _) => c[Key(q)].value.Codes?
      case RolePermissions(_) => c[Key(q)].value.Codes?
      case AllPermissions => c[Key(q)].value.Rows?
      case UserPlan(_) => c[Key(q)].value.PlanOf?
  }

  lemma StepKeepsTyped(w: World, e: Event)
    requires Typed(w.cache) && (e.Ask? ==> WellFormed(e.query))
    ensures Typed(Step(w, e).cache)
  {
    if e.Ask? {
      forall q | WellFormed(q) && Key(q) == Key(e.query)
        ensures Fresh(w.db, q) == Fresh(w.db, e.query)
      {
        SameKeySameAnswer(w.db, q, e.query);
      }
    }
  }

  /* ---------- invalidation ---------- */

  /** The ids of memberships' workspaces are plain. */
  predicate PlainMemberships(db: Db) {
    forall m :: m in db.dir.memberships ==> ColonFree(m.workspaceId) && m.workspaceId != "" && m.workspaceId != "global"
  }

  /** The keys to clear are those of the user's list in the global context and in each
      workspace the user is a member of, and no other query's. */
  lemma KeysToClearMeaning(db: Db, userId: Id, q: Query)
    requires ColonFree(userId) && WellFormed(q) && PlainMemberships(db)
    ensures Key(q) in KeysToClear(db, userId)
       <==> q.UserPermissions? && q.userId == userId
            && (Truthy(q.workspaceId) ==> IsMember(db.dir, userId, q.workspaceId.value))
  {
    var g := UserPermissions(userId, None);
    MemberKeysMeaning(db.dir.memberships, userId, Key(q));
    KeysUnambiguous(q, g);
    forall m | m in db.dir.memberships && m.userId == userId
      ensures Key(UserPermissions(userId, Some(m.workspaceId))) == Key(q)
         <==> q == UserPermissions(userId, Some(m.workspaceId))
    {
      KeysUnambiguous(q, UserPermissions(userId, Some(m.workspaceId)));
    }
    if Key(q) in MemberKeys(db.dir.memberships, userId) && Key(q) != Key(g) {
      var m :| m in db.dir.memberships && m.userId == userId && Key(q) == Key(UserPermissions(userId, Some(m.workspaceId)));
      assert IsMember(db.dir, userId, q.workspaceId.value);
    }
    if q.UserPermissions? && q.userId == userId && !Truthy(q.workspaceId) {
      assert Spelled(q) == Spelled(g);
    }
  }

  /** Clearing a user drops exactly those entries; `permission:` entries stay, so those
      answers can only change when their entry ages out. */
  lemma ClearReaches(w: World, userId: Id, q: Query)
    requires ColonFree(userId) && WellFormed(q) && PlainMemberships(w.db)
    requires Key(q) in w.cache
    ensures Key(q) !in Clear(w, userId).cache
       <==> q.UserPermissions? && q.userId == userId
            && (Truthy(q.workspaceId) ==> IsMember(w.db.dir, userId, q.workspaceId.value))
    ensures Key(q) in Clear(w, userId).cache ==> Clear(w, userId).cache[Key(q)] == w.cache[Key(q)]
  {
    KeysToClearMeaning(w.db, userId, q);
    var keys := KeysToClear(w.db, userId);
    assert keys[..|keys|] == keys;
  }

  /** `clearUserPlanCache` */
  function ClearPlan(w: World, userId: Id): World {
    w.(cache := w.cache - {Key(UserPlan(userId))})
  }

  /** Clearing a user's plan makes that plan, and no other answer, fresh: the next answer
      is the plan now stored. */
  lemma ClearPlanReaches(w: World, userId: Id, q: Query)
    requires ColonFree(userId) && WellFormed(q)
    ensures Answer(ClearPlan(w, userId), UserPlan(userId)).PlanOf?
         && StoredPlan(w.db, userId, Answer(ClearPlan(w, userId), UserPlan(userId)).plan)
    ensures Answer(ClearPlan(w, userId), q) == if q == UserPlan(userId) then Fresh(w.db, q) else Answer(w, q)
  {
    KeysUnambiguous(q, UserPlan(userId));
  }
}
