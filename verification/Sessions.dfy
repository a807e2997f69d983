/** Refresh-token sessions and magic links: rows whose flags only ever move one way. */
module Sessions {
  import opened Common

  /** Durations, in milliseconds. */
  const HOUR: nat := 3600000
  const DAY: nat := 24 * HOUR
  const LINK_LIFETIME: nat := 15 * 60000

  /** The configured lifetime: a number of days, a number of hours, or a text in
      another unit, which the row's expiry ignores and the token's does not. */
  datatype Lifetime = Days(n: nat) | Hours(n: nat) | OtherUnit(millis: nat)

  datatype Session = Session(userId: Id, expiresAt: nat, isRevoked: bool, lastActive: nat)

  datatype Link = Link(userId: Id, expiresAt: nat, isUsed: bool)

  /** A signed token as the verifier sees it: `genuine` says the signature is ours. A
      token signed for another purpose names no session. */
  datatype Token = Token(sub: Id, jti: Option<string>, exp: nat, genuine: bool)

  /** What a link verification reads of a token; a token signed for another purpose has
      no link value. */
  datatype LinkToken = LinkToken(sub: Id, value: Option<string>, exp: nat, genuine: bool)

  /** The call that throws while an operation runs: the lookup, the first write, the audit
      entry, the write of the session after a link was spent, or the signing. */
  datatype Fault = NoFault | FindFails | WriteFails | AuditFails | MintFails | SignFails

  /** `issued` holds every random token value handed out so far. */
  datatype Auth = Auth(sessions: map<string, Session>, links: map<string, Link>, issued: set<string>, now: nat)

  /** `jwtService.verify` succeeds. */
  predicate Verifies(t: Token, now: nat) {
    t.genuine && now < t.exp
  }

  /** The row a query looks at. For a token without the value the query names none, and
      the library decides which, if any, of the rows it returns: `row`. */
  function Target(value: Option<string>, row: string): string {
    if value.Some? then value.value else row
  }

  /* ---------- refresh tokens ---------- */

  /** Seven days, and then the configured days or hours on top. */
  function RowExpiry(now: nat, life: Lifetime): nat {
    now + 7 * DAY + match life case Days(n) => n * DAY case Hours(n) => n * HOUR case OtherUnit(_) => 0
  }

  function TokenExpiry(now: nat, life: Lifetime): nat {
    now + match life case Days(n) => n * DAY case Hours(n) => n * HOUR case OtherUnit(ms) => ms
  }

  /** The row is stored, then the token is signed; when only the signing throws, as it
      does for a lifetime it cannot read, the row stays without a token. */
  function Mint(a: Auth, userId: Id, jti: string, life: Lifetime, fault: Fault): (Option<Token>, Auth) {
    if fault == WriteFails then (None, a)
    else
      (if fault == SignFails then None else Some(Token(userId, Some(jti), TokenExpiry(a.now, life), true)),
       a.(sessions := a.sessions[jti := Session(userId, RowExpiry(a.now, life), false, a.now)], issued := a.issued + {jti}))
  }

  /** The lookup or the update of the row throws. */
  predicate Throws(fault: Fault) {
    fault == FindFails || fault == WriteFails
  }

  /** Returns the session's user, or nothing; an expired row is marked revoked. Every
      throwing call is answered as a rejection. */
  function Validate(a: Auth, t: Token, row: string, fault: Fault): (Option<Id>, Auth) {
    var j := Target(t.jti, row);
    if !Verifies(t, a.now) || fault == FindFails || j !in a.sessions || a.sessions[j].isRevoked then (None, a)
    else if fault == WriteFails then (None, a)
    else
      var s := a.sessions[j];
      if a.now > s.expiresAt then (None, a.(sessions := a.sessions[j := s.(isRevoked := true)]))
      else (Some(s.userId), a.(sessions := a.sessions[j := s.(lastActive := a.now)]))
  }

  function MarkRevoked(sessions: map<string, Session>, rows: set<string>): map<string, Session> {
    map j | j in sessions :: if j in rows then sessions[j].(isRevoked := true) else sessions[j]
  }

  /** The rows an update by a token's `jti` touches; for a token without one the library
      decides: `rows`. */
  function Touched(t: Token, rows: set<string>): set<string> {
    if t.jti.Some? then {t.jti.value} else rows
  }

  predicate Revokes(a: Auth, t: Token, fault: Fault) {
    Verifies(t, a.now) && !Throws(fault)
  }

  function Revoke(a: Auth, t: Token, rows: set<string>, fault: Fault): (bool, Auth) {
    if !Revokes(a, t, fault) then (false, a) else (true, a.(sessions := MarkRevoked(a.sessions, Touched(t, rows))))
  }

  function SessionsOf(a: Auth, userId: Id): set<string> {
    set j | j in a.sessions && a.sessions[j].userId == userId
  }

  function RevokeAll(a: Auth, userId: Id, fault: Fault): (bool, Auth) {
    if Throws(fault) then (false, a) else (true, a.(sessions := MarkRevoked(a.sessions, SessionsOf(a, userId))))
  }

  function UserSessions(a: Auth, userId: Id): set<string> {
    set j | j in a.sessions && a.sessions[j].userId == userId && !a.sessions[j].isRevoked && a.sessions[j].expiresAt > a.now
  }

  /** Validation of a token that names its session accepts it when no call throws. */
  predicate Accepts(a: Auth, t: Token) {
    t.jti.Some? && Validate(a, t, t.jti.value, NoFault).0.Some?
  }

  /** The row passes the checks `validateRefreshToken` makes on it. */
  predicate RowPasses(a: Auth, jti: string) {
    jti in a.sessions && !a.sessions[jti].isRevoked && a.now <= a.sessions[jti].expiresAt
  }

  /** A session is listed exactly when it is the user's and its row passes validation
      now, except at the very instant of expiry, when it passes but is not listed. */
  lemma ListedSessionsPass(a: Auth, userId: Id, jti: string)
    ensures jti in UserSessions(a, userId)
       <==> RowPasses(a, jti) && a.sessions[jti].userId == userId && a.now != a.sessions[jti].expiresAt
    ensures forall t: Token :: t.jti == Some(jti) && Verifies(t, a.now) ==> (Accepts(a, t) <==> RowPasses(a, jti))
  {
  }

  /** Revoking all of a user's sessions rejects exactly the tokens of that user's
      existing sessions, on top of those already rejected; when the update throws it
      rejects none. */
  lemma RevokeAllKillsExactly(a: Auth, userId: Id, t: Token, fault: Fault)
    ensures var (ok, a') := RevokeAll(a, userId, fault);
            && (Accepts(a', t) <==> Accepts(a, t) && (ok ==> a.sessions[t.jti.value].userId != userId))
            && (ok ==> UserSessions(a', userId) == {})
            && (forall u :: u != userId ==> UserSessions(a', u) == UserSessions(a, u))
            && (ok <==> !Throws(fault)) && (!ok ==> a' == a)
  {
  }

  /** The row of a fresh token outlives the token itself unless the lifetime is given
      in another unit and exceeds seven days: so with days or hours, the check of the
      row's expiry never decides. */
  lemma RowOutlivesToken(a: Auth, userId: Id, jti: string, life: Lifetime, fault: Fault)
    requires Mint(a, userId, jti, life, fault).0.Some?
    ensures var r := Mint(a, userId, jti, life, fault);
            r.0.value.exp <= r.1.sessions[jti].expiresAt <==> !(life.OtherUnit? && life.millis > 7 * DAY)
    ensures var r := Mint(a, userId, jti, life, fault);
            !life.OtherUnit? ==> r.0.value.exp + 7 * DAY == r.1.sessions[jti].expiresAt
  {
  }

  /** What minting does, exactly: nothing when the write throws; otherwise an unrevoked
      session of the user, active now, and, unless the signing throws, a token naming it.
      Token and row expire, in milliseconds from now, as configured, the row seven days
      later, or in seven days where the lifetime is in another unit. */
  lemma MintExactly(a: Auth, userId: Id, jti: string, life: Lifetime, fault: Fault)
    ensures var (t, a') := Mint(a, userId, jti, life, fault);
            var tokenLife := match life case Days(n) => n * 86400000 case Hours(n) => n * 3600000 case OtherUnit(ms) => ms;
            var rowLife := match life case Days(n) => (7 + n) * 86400000 case Hours(n) => 7 * 86400000 + n * 3600000 case OtherUnit(_) => 7 * 86400000;
            && (fault == WriteFails ==> t == None && a' == a)
            && (fault != WriteFails ==>
                  && a' == a.(sessions := a.sessions[jti := Session(userId, a.now + rowLife, false, a.now)], issued := a.issued + {jti})
                  && t == (if fault == SignFails then None else Some(Token(userId, Some(jti), a.now + tokenLife, true))))
  {
    match life {
      case Days(n) => assert 7 * DAY + n * DAY == (7 + n) * 86400000;
      case _ =>
    }
  }

  /** What validating does, exactly: it accepts, and notes the activity, when the token is
      ours and has time left, no call throws, and the row exists, is not revoked and has
      not expired; it revokes a row that has; and it changes nothing else. */
  lemma ValidateExactly(a: Auth, t: Token, row: string, fault: Fault)
    ensures var (u, a') := Validate(a, t, row, fault);
            var j := if t.jti.Some? then t.jti.value else row;
            var live := t.genuine && a.now < t.exp && fault != FindFails && fault != WriteFails && j in a.sessions && !a.sessions[j].isRevoked;
            if !live then u == None && a' == a
            else if a.now > a.sessions[j].expiresAt then
              u == None && a' == a.(sessions := a.sessions[j := Session(a.sessions[j].userId, a.sessions[j].expiresAt, true, a.sessions[j].lastActive)])
            else
              u == Some(a.sessions[j].userId)
              && a' == a.(sessions := a.sessions[j := Session(a.sessions[j].userId, a.sessions[j].expiresAt, false, a.now)])
  {
  }

  /** What revoking does, exactly: of the rows there are, those named become revoked. */
  lemma RevokeExactly(a: Auth, t: Token, rows: set<string>, userId: Id, fault: Fault, j: string)
    ensures var (ok, a') := Revoke(a, t, rows, fault);
            var hit := t.jti == Some(j) || (t.jti == None && j in rows);
            && (ok <==> t.genuine && a.now < t.exp && fault != FindFails && fault != WriteFails)
            && a' == a.(sessions := a'.sessions) && a'.sessions.Keys == a.sessions.Keys
            && (j in a.sessions ==> a'.sessions[j] == if ok && hit then a.sessions[j].(isRevoked := true) else a.sessions[j])
    ensures var (ok, a') := RevokeAll(a, userId, fault);
            && (ok <==> fault != FindFails && fault != WriteFails)
            && a' == a.(sessions := a'.sessions) && a'.sessions.Keys == a.sessions.Keys
            && (j in a.sessions ==>
                  a'.sessions[j] == if ok && a.sessions[j].userId == userId then a.sessions[j].(isRevoked := true) else a.sessions[j])
  {
    assert t.jti.Some? ==> t.jti == Some(t.jti.value);
    assert a.(sessions := a.sessions) == a;
  }

  /* ---------- magic links ---------- */

  /** The row stays, unused, when the audit entry or the signing fails. */
  function CreateLink(a: Auth, userId: Id, value: string, fault: Fault): (Option<LinkToken>, Auth) {
    var stored := a.(links := a.links[value := Link(userId, a.now + LINK_LIFETIME, false)], issued := a.issued + {value});
    if Throws(fault) then (None, a)
    else if fault == AuditFails || fault == SignFails then (None, stored)
    else (Some(LinkToken(userId, Some(value), a.now + LINK_LIFETIME, true)), stored)
  }

  /** The query of `verifyMagicLink` finds an unused, unexpired link of that user. */
  predicate LinkFound(a: Auth, t: LinkToken, row: string) {
    var v := Target(t.value, row);
    && t.genuine && a.now < t.exp
    && v in a.links && a.links[v].userId == t.sub && !a.links[v].isUsed && a.links[v].expiresAt > a.now
  }

  /** The link is marked used before anything else is written. */
  predicate Spends(a: Auth, t: LinkToken, row: string, fault: Fault) {
    LinkFound(a, t, row) && !Throws(fault)
  }

  function Spent(a: Auth, v: string): Auth
    requires v in a.links
  {
    a.(links := a.links[v := a.links[v].(isUsed := true)])
  }

  /** Marks the link used, writes the audit entry, and mints a session. When a later call
      throws the link is spent but nothing is returned. */
  function VerifyLink(a: Auth, t: LinkToken, row: string, jti: string, life: Lifetime, fault: Fault): (Option<Token>, Auth) {
    if !Spends(a, t, row, fault) then (None, a)
    else
      var spent := Spent(a, Target(t.value, row));
      if fault == AuditFails || fault == MintFails then (None, spent) else Mint(spent, t.sub, jti, life, fault)
  }

  /** What creating a link does, exactly. */
  lemma CreateLinkExactly(a: Auth, userId: Id, value: string, fault: Fault)
    ensures var (t, a') := CreateLink(a, userId, value, fault);
            && (fault == FindFails || fault == WriteFails ==> t == None && a' == a)
            && (fault != FindFails && fault != WriteFails ==>
                  && a' == a.(links := a.links[value := Link(userId, a.now + 900000, false)], issued := a.issued + {value})
                  && t == (if fault == AuditFails || fault == SignFails then None else Some(LinkToken(userId, Some(value), a.now + 900000, true))))
  {
  }

  /** What verifying a link does, exactly: it succeeds when the token is ours and has time
      left, its link exists, is its user's, is unused and has time left, and no call
      throws; what it then stores is what minting stores. */
  lemma VerifyLinkExactly(a: Auth, t: LinkToken, row: string, jti: string, life: Lifetime, fault: Fault)
    ensures var (token, a') := VerifyLink(a, t, row, jti, life, fault);
            var v := if t.value.Some? then t.value.value else row;
            var found := t.genuine && a.now < t.exp && v in a.links && a.links[v].userId == t.sub && !a.links[v].isUsed && a.now < a.links[v].expiresAt;
            if !found || fault == FindFails || fault == WriteFails then token == None && a' == a
            else
              && a'.links == a.links[v := Link(t.sub, a.links[v].expiresAt, true)]
              && a' == (if fault == AuditFails || fault == MintFails then a else Mint(a, t.sub, jti, life, fault).1).(links := a'.links)
              && token == if fault == AuditFails || fault == MintFails then None else Mint(a, t.sub, jti, life, fault).0
  {
  }

  /** A success consumes exactly one link of that user, unused and unexpired before,
      and creates exactly one session, of that user; the same link never succeeds again. */
  lemma SuccessConsumesOneLink(a: Auth, t: LinkToken, row: string, jti: string, life: Lifetime, fault: Fault)
    requires VerifyLink(a, t, row, jti, life, fault).0.Some?
    ensures var (token, a') := VerifyLink(a, t, row, jti, life, fault); var v := Target(t.value, row);
            && v in a.links && a.links[v] == Link(t.sub, a.links[v].expiresAt, false) && a.now < a.links[v].expiresAt
            && a'.links == a.links[v := a.links[v].(isUsed := true)]
            && jti in a'.sessions && a'.sessions == a.sessions[jti := a'.sessions[jti]]
            && a'.sessions[jti].userId == t.sub && !a'.sessions[jti].isRevoked
            && token == Some(Token(t.sub, Some(jti), TokenExpiry(a.now, life), true))
            && !LinkFound(a', t, v)
  {
  }

  /** A verification changes something without success exactly when the link is spent and
      a later call throws; then it has spent that link, and stored a session nobody holds
      a token for exactly when the signing is what threw. */
  lemma FailureMaySpendTheLink(a: Auth, t: LinkToken, row: string, jti: string, life: Lifetime, fault: Fault)
    requires jti !in a.sessions
    ensures var (token, a') := VerifyLink(a, t, row, jti, life, fault);
            && (token.None? && a' != a <==> LinkFound(a, t, row) && fault in {AuditFails, MintFails, SignFails})
            && (token.None? && a' != a ==>
                  && a'.links == Spent(a, Target(t.value, row)).links
                  && (jti in a'.sessions <==> fault == SignFails)
                  && a'.sessions - {jti} == a.sessions)
  {
    if Spends(a, t, row, fault) {
      assert !a.links[Target(t.value, row)].isUsed;
      assert VerifyLink(a, t, row, jti, life, fault).1.links[Target(t.value, row)].isUsed;
    }
  }

  /* ---------- runs ---------- */

  datatype Event =
    | Minted(userId: Id, jti: string, life: Lifetime, fault: Fault)
    | Validated(token: Token, row: string, fault: Fault)
    | Revoked(token: Token, rows: set<string>, fault: Fault)
    | RevokedAll(userId: Id, fault: Fault)
    | LinkCreated(userId: Id, value: string, fault: Fault)
    | LinkVerified(link: LinkToken, row: string, jti: string, life: Lifetime, fault: Fault)
    | Passed(millis: nat)

  function Step(a: Auth, e: Event): Auth {
    match e
    case Minted(u, jti, life, fault) => Mint(a, u, jti, life, fault).1
    case Validated(t, row, fault) => Validate(a, t, row, fault).1
    case Revoked(t, rows, fault) => Revoke(a, t, rows, fault).1
    case RevokedAll(u, fault) => RevokeAll(a, u, fault).1
    case LinkCreated(u, v, fault) => CreateLink(a, u, v, fault).1
    case LinkVerified(t, row, jti, life, fault) => VerifyLink(a, t, row, jti, life, fault).1
    case Passed(ms) => a.(now := a.now + ms)
  }

  /** Random values are never handed out twice. */
  predicate Enabled(a: Auth, e: Event) {
    match e
    case Minted(_, jti, _, _) => jti !in a.issued
    case LinkCreated(_, v, _) => v !in a.issued
    case LinkVerified(_, _, jti, _, _) => jti !in a.issued
    case _ => true
  }

  predicate StepsTo(as_: seq<Auth>, es: seq<Event>, i: nat)
    requires i < |es| < |as_|
  {
    Enabled(as_[i], es[i]) && as_[i + 1] == Step(as_[i], es[i])
  }

  ghost predicate Run(as_: seq<Auth>, es: seq<Event>) {
    |as_| == |es| + 1 && as_[0].sessions == map[] && as_[0].links == map[]
    && forall i :: 0 <= i < |es| ==> StepsTo(as_, es, i)
  }

  /** No step clears a flag, moves an expiry, changes an owner or reuses a value. */
  ghost predicate OneWay(a: Auth, b: Auth) {
    && a.now <= b.now && a.issued <= b.issued
    && (forall j :: j in a.sessions ==> j in b.sessions && SessionKept(a.sessions[j], b.sessions[j]))
    && (forall v :: v in a.links ==> v in b.links && LinkKept(a.links[v], b.links[v]))
    && (forall j :: j in b.sessions && j in a.issued ==> j in a.sessions)
    && (forall v :: v in b.links && v in a.issued ==> v in a.links)
  }

  predicate SessionKept(s: Session, s': Session) {
    s'.userId == s.userId && s'.expiresAt == s.expiresAt && (s.isRevoked ==> s'.isRevoked)
  }

  predicate LinkKept(l: Link, l': Link) {
    l'.userId == l.userId && l'.expiresAt == l.expiresAt && (l.isUsed ==> l'.isUsed)
  }

  ghost predicate Sound(a: Auth) {
    a.sessions.Keys <= a.issued && a.links.Keys <= a.issued
  }

  lemma MintIsOneWay(a: Auth, userId: Id, jti: string, life: Lifetime, fault: Fault)
    requires Sound(a) && jti !in a.issued
    ensures var a' := Mint(a, userId, jti, life, fault).1; Sound(a') && OneWay(a, a') && a'.links == a.links
  {
  }

  lemma VerifyLinkIsOneWay(a: Auth, t: LinkToken, row: string, jti: string, life: Lifetime, fault: Fault)
    requires Sound(a) && jti !in a.issued
    ensures var a' := VerifyLink(a, t, row, jti, life, fault).1; Sound(a') && OneWay(a, a')
  {
    if Spends(a, t, row, fault) {
      var spent := Spent(a, Target(t.value, row));
      assert Sound(spent) && OneWay(a, spent);
      MintIsOneWay(spent, t.sub, jti, life, fault);
    }
  }

  lemma StepIsOneWay(a: Auth, e: Event)
    requires Sound(a) && Enabled(a, e)
    ensures Sound(Step(a, e)) && OneWay(a, Step(a, e))
  {
    match e {
      case Minted(u, jti, life, fault) => MintIsOneWay(a, u, jti, life, fault);
      case LinkVerified(t, row, jti, life, fault) => VerifyLinkIsOneWay(a, t, row, jti, life, fault);
      case _ =>
    }
  }

  /** Between any two states of a run, revoked, used and expired rows stay so. */
  lemma {:induction false} RunIsOneWay(as_: seq<Auth>, es: seq<Event>, i: nat, j: nat)
    requires Run(as_, es) && i <= j < |as_|
    ensures Sound(as_[j]) && OneWay(as_[i], as_[j])
    decreases j
  {
    if j == 0 {
    } else if i == j {
      RunIsOneWay(as_, es, j - 1, j - 1);
      assert StepsTo(as_, es, j - 1);
      StepIsOneWay(as_[j - 1], es[j - 1]);
    } else {
      RunIsOneWay(as_, es, i, j - 1);
      assert StepsTo(as_, es, j - 1);
      StepIsOneWay(as_[j - 1], es[j - 1]);
    }
  }

  /** Event `e` turns the token down for good: a validation in which no call throws
      rejects it, or a revocation of it goes through. */
  predicate TurnsDown(a: Auth, e: Event, t: Token) {
    match e
    case Validated(t', row, fault) => t' == t && !Throws(fault) && Validate(a, t', row, fault).0.None?
    case Revoked(t', rows, fault) => t' == t && Revoke(a, t', rows, fault).0
    case _ => false
  }

  /** Rejection is permanent: a token whose value has been handed out, once rejected by
      a validation in which no call throws, or successfully revoked, is rejected by every
      later validation, whatever fails in it. */
  lemma RejectionIsPermanent(as_: seq<Auth>, es: seq<Event>, i: nat, j: nat, t: Token, row: string, fault: Fault)
    requires Run(as_, es) && i < j < |as_| && t.jti.Some? && t.jti.value in as_[i].issued && TurnsDown(as_[i], es[i], t)
    ensures !Accepts(as_[j], t) && Validate(as_[j], t, row, fault).0.None?
  {
    RunIsOneWay(as_, es, i + 1, j);
    RunIsOneWay(as_, es, i, i + 1);
    assert StepsTo(as_, es, i);
    assert !Accepts(as_[i + 1], t);
  }

  /** A rejection in which a call throws is not: the validation changes nothing, so it
      turns down a live token exactly when the token would have been accepted, and later
      validations accept it exactly while it verifies and its row passes. */
  lemma FailedValidationIsForgotten(as_: seq<Auth>, es: seq<Event>, i: nat, j: nat, t: Token, row: string, fault: Fault)
    requires Run(as_, es) && i < j < |as_| && t.jti.Some?
    requires es[i] == Validated(t, row, fault) && Throws(fault)
    ensures Validate(as_[i], t, row, fault).0.None? && as_[i + 1] == as_[i]
    ensures Accepts(as_[j], t) <==> Verifies(t, as_[j].now) && RowPasses(as_[j], t.jti.value)
    ensures Accepts(as_[i + 1], t) <==> Accepts(as_[i], t)
  {
    assert StepsTo(as_, es, i);
  }

  /** Such a run: a token is minted, rejected because a lookup throws, and then accepted. */
  lemma RejectedThenAccepted()
    ensures var start := Auth(map[], map[], {}, 0);
            var t := Token("u", Some("j"), DAY, true);
            var es := [Minted("u", "j", Days(1), NoFault), Validated(t, "j", FindFails), Validated(t, "j", NoFault)];
            exists as_ :: Run(as_, es) && as_[0] == start
              && Validate(as_[1], t, "j", FindFails).0 == None && Validate(as_[2], t, "j", NoFault).0 == Some("u")
  {
    var start := Auth(map[], map[], {}, 0);
    var t := Token("u", Some("j"), DAY, true);
    var es := [Minted("u", "j", Days(1), NoFault), Validated(t, "j", FindFails), Validated(t, "j", NoFault)];
    var a1 := Step(start, es[0]);
    var a2 := Step(a1, es[1]);
    var as_ := [start, a1, a2, Step(a2, es[2])];
    assert StepsTo(as_, es, 0) && StepsTo(as_, es, 1) && StepsTo(as_, es, 2);
  }

  /** Event `e` in state `a` revokes the row `jti`, held by `userId` until `expiresAt`. */
  predicate RevokesRow(a: Auth, e: Event, jti: string, userId: Id, expiresAt: nat) {
    match e
    case Revoked(t, rows, fault) => jti in Touched(t, rows) && Revokes(a, t, fault)
    case RevokedAll(u, fault) => u == userId && !Throws(fault)
    case Validated(t, row, fault) => Target(t.jti, row) == jti && Revokes(a, t, fault) && a.now > expiresAt
    case _ => false
  }

  ghost predicate RevokedBetween(as_: seq<Auth>, es: seq<Event>, i: nat, j: nat, jti: string, userId: Id, expiresAt: nat)
    requires j <= |es| < |as_|
  {
    exists k :: i <= k < j && RevokesRow(as_[k], es[k], jti, userId, expiresAt)
  }

  lemma RowStep(a: Auth, e: Event, jti: string)
    requires Sound(a) && Enabled(a, e) && jti in a.sessions
    ensures var s, a' := a.sessions[jti], Step(a, e);
            && jti in a'.sessions && a'.sessions[jti].userId == s.userId && a'.sessions[jti].expiresAt == s.expiresAt
            && (a'.sessions[jti].isRevoked <==> (s.isRevoked || RevokesRow(a, e, jti, s.userId, s.expiresAt)))
  {
    assert jti in a.issued;
  }

  lemma LinkStep(a: Auth, e: Event, value: string)
    requires Sound(a) && Enabled(a, e) && value in a.links
    ensures var l, a' := a.links[value], Step(a, e);
            && value in a'.links && a'.links[value].userId == l.userId && a'.links[value].expiresAt == l.expiresAt
            && (a'.links[value].isUsed <==> (l.isUsed || Consumes(a, e, value)))
  {
    assert value in a.issued;
  }

  lemma RevokedOneLater(as_: seq<Auth>, es: seq<Event>, i: nat, j: nat, jti: string, userId: Id, expiresAt: nat)
    requires i <= j < |es| < |as_|
    ensures RevokedBetween(as_, es, i, j + 1, jti, userId, expiresAt)
       <==> RevokedBetween(as_, es, i, j, jti, userId, expiresAt) || RevokesRow(as_[j], es[j], jti, userId, expiresAt)
  {
    if RevokedBetween(as_, es, i, j + 1, jti, userId, expiresAt) {
      var k :| i <= k < j + 1 && RevokesRow(as_[k], es[k], jti, userId, expiresAt);
      assert k < j ==> RevokedBetween(as_, es, i, j, jti, userId, expiresAt);
    }
  }

  lemma ConsumedOneLater(as_: seq<Auth>, es: seq<Event>, i: nat, j: nat, value: string)
    requires i <= j < |es| < |as_|
    ensures ConsumedBetween(as_, es, i, j + 1, value) <==> ConsumedBetween(as_, es, i, j, value) || Consumes(as_[j], es[j], value)
  {
    if ConsumedBetween(as_, es, i, j + 1, value) {
      var k :| i <= k < j + 1 && Consumes(as_[k], es[k], value);
      assert k < j ==> ConsumedBetween(as_, es, i, j, value);
    }
  }

  /** A row minted at event `i` is revoked at `j` exactly when some event between did it. */
  lemma {:induction false} RowRevokedByEvents(as_: seq<Auth>, es: seq<Event>, i: nat, j: nat, userId: Id, jti: string, life: Lifetime, fault: Fault)
    requires Run(as_, es) && i < j < |as_| && es[i] == Minted(userId, jti, life, fault) && fault != WriteFails
    ensures jti in as_[j].sessions && as_[j].sessions[jti].userId == userId
    ensures as_[j].sessions[jti].expiresAt == RowExpiry(as_[i].now, life)
    ensures as_[j].sessions[jti].isRevoked <==> RevokedBetween(as_, es, i + 1, j, jti, userId, RowExpiry(as_[i].now, life))
    decreases j
  {
    assert StepsTo(as_, es, j - 1);
    if j > i + 1 {
      RowRevokedByEvents(as_, es, i, j - 1, userId, jti, life, fault);
      RunIsOneWay(as_, es, j - 1, j - 1);
      RowStep(as_[j - 1], es[j - 1], jti);
      RevokedOneLater(as_, es, i + 1, j - 1, jti, userId, RowExpiry(as_[i].now, life));
    }
  }

  /** Event `e` revokes the token `jti` of `userId`, alone or with others. */
  predicate RevocationOf(a: Auth, e: Event, jti: string, userId: Id) {
    match e
    case Revoked(t, rows, fault) => jti in Touched(t, rows) && Revokes(a, t, fault)
    case RevokedAll(u, fault) => u == userId && !Throws(fault)
    case _ => false
  }

  /** A minted token is accepted in a later state exactly until it or its row expires,
      or a revocation that goes through touches its row: its own, one of all the user's,
      or one by a token that names no session. */
  lemma MintedTokenLives(as_: seq<Auth>, es: seq<Event>, i: nat, j: nat, userId: Id, jti: string, life: Lifetime, fault: Fault)
    requires Run(as_, es) && i < j < |as_| && es[i] == Minted(userId, jti, life, fault)
    requires Mint(as_[i], userId, jti, life, fault).0.Some?
    ensures var t := Mint(as_[i], userId, jti, life, fault).0.value;
            && (Accepts(as_[j], t)
                <==> as_[j].now < TokenExpiry(as_[i].now, life) && as_[j].now <= RowExpiry(as_[i].now, life)
                     && forall k :: i < k < j ==> !RevocationOf(as_[k], es[k], jti, userId))
            && (Accepts(as_[j], t) ==> Validate(as_[j], t, jti, NoFault).0 == Some(userId))
  {
    var expiresAt := RowExpiry(as_[i].now, life);
    RowRevokedByEvents(as_, es, i, j, userId, jti, life, fault);
    RunIsOneWay(as_, es, j, j);
    if RevokedBetween(as_, es, i + 1, j, jti, userId, expiresAt) {
      var k :| i + 1 <= k < j && RevokesRow(as_[k], es[k], jti, userId, expiresAt);
      if es[k].Validated? { RunIsOneWay(as_, es, k, j); }
    }
    if k :| i < k < j && RevocationOf(as_[k], es[k], jti, userId) {
      assert RevokesRow(as_[k], es[k], jti, userId, expiresAt);
    }
  }

  predicate Consumes(a: Auth, e: Event, value: string) {
    e.LinkVerified? && Target(e.link.value, e.row) == value && Spends(a, e.link, e.row, e.fault)
  }

  ghost predicate ConsumedBetween(as_: seq<Auth>, es: seq<Event>, i: nat, j: nat, value: string)
    requires j <= |es| < |as_|
  {
    exists k :: i <= k < j && Consumes(as_[k], es[k], value)
  }

  /** A magic link can be used in a later state exactly while its fifteen minutes last
      and no verification has consumed it. */
  lemma {:induction false} CreatedLinkLives(as_: seq<Auth>, es: seq<Event>, i: nat, j: nat, userId: Id, value: string, fault: Fault, row: string)
    requires Run(as_, es) && i < j < |as_| && es[i] == LinkCreated(userId, value, fault) && !Throws(fault)
    ensures value in as_[j].links && as_[j].links[value].userId == userId
    ensures as_[j].links[value].expiresAt == as_[i].now + LINK_LIFETIME
    ensures as_[j].links[value].isUsed <==> ConsumedBetween(as_, es, i + 1, j, value)
    ensures CreateLink(as_[i], userId, value, fault).0.Some? ==>
              (LinkFound(as_[j], CreateLink(as_[i], userId, value, fault).0.value, row)
               <==> as_[j].now < as_[i].now + LINK_LIFETIME && !ConsumedBetween(as_, es, i + 1, j, value))
    decreases j
  {
    assert StepsTo(as_, es, j - 1);
    if j > i + 1 {
      CreatedLinkLives(as_, es, i, j - 1, userId, value, fault, row);
      RunIsOneWay(as_, es, j - 1, j - 1);
      LinkStep(as_[j - 1], es[j - 1], value);
      ConsumedOneLater(as_, es, i + 1, j - 1, value);
    }
  }

  function LinksOf(links: map<string, Link>, userId: Id): set<string> {
    set v | v in links && links[v].userId == userId
  }

  function UsedLinksOf(links: map<string, Link>, userId: Id): set<string> {
    set v | v in links && links[v].userId == userId && links[v].isUsed
  }

  predicate Creates(e: Event, userId: Id) {
    e.LinkCreated? && e.userId == userId && !Throws(e.fault)
  }

  /** How many links the first `n` events of a run created for a user. */
  function Created(es: seq<Event>, userId: Id, n: nat): nat
    requires n <= |es|
  {
    if n == 0 then 0
    else Created(es, userId, n - 1) + if Creates(es[n - 1], userId) then 1 else 0
  }

  predicate Succeeds(a: Auth, e: Event, userId: Id) {
    e.LinkVerified? && e.link.sub == userId && VerifyLink(a, e.link, e.row, e.jti, e.life, e.fault).0.Some?
  }

  /** How many of them were successful verifications for that user. */
  function Successes(as_: seq<Auth>, es: seq<Event>, userId: Id, n: nat): nat
    requires n <= |es| < |as_|
  {
    if n == 0 then 0
    else Successes(as_, es, userId, n - 1) + if Succeeds(as_[n - 1], es[n - 1], userId) then 1 else 0
  }

  lemma LinkCounts(a: Auth, e: Event, userId: Id)
    requires Sound(a) && Enabled(a, e)
    ensures |LinksOf(Step(a, e).links, userId)| == |LinksOf(a.links, userId)| + if Creates(e, userId) then 1 else 0
    ensures |UsedLinksOf(Step(a, e).links, userId)| == |UsedLinksOf(a.links, userId)|
              + if e.LinkVerified? && e.link.sub == userId && Spends(a, e.link, e.row, e.fault) then 1 else 0
  {
    match e {
      case LinkCreated(u, v, _) => NewLink(a.links, v, Link(u, a.now + LINK_LIFETIME, false), userId);
      case LinkVerified(t, row, _, _, fault) =>
        if Spends(a, t, row, fault) {
          SpentLink(a.links, Target(t.value, row), userId);
        } else {
          assert Step(a, e) == a;
        }
      case _ => assert Step(a, e).links == a.links;
    }
  }

  lemma NewLink(links: map<string, Link>, v: string, link: Link, userId: Id)
    requires v !in links && !link.isUsed
    ensures |LinksOf(links[v := link], userId)| == |LinksOf(links, userId)| + (if link.userId == userId then 1 else 0)
    ensures UsedLinksOf(links[v := link], userId) == UsedLinksOf(links, userId)
  {
    if link.userId == userId {
      assert LinksOf(links[v := link], userId) == LinksOf(links, userId) + {v};
    } else {
      assert LinksOf(links[v := link], userId) == LinksOf(links, userId);
    }
  }

  lemma SpentLink(links: map<string, Link>, v: string, userId: Id)
    requires v in links && !links[v].isUsed
    ensures var links' := links[v := links[v].(isUsed := true)];
            && LinksOf(links', userId) == LinksOf(links, userId)
            && |UsedLinksOf(links', userId)| == |UsedLinksOf(links, userId)| + (if links[v].userId == userId then 1 else 0)
  {
    var links' := links[v := links[v].(isUsed := true)];
    if links[v].userId == userId {
      assert UsedLinksOf(links', userId) == UsedLinksOf(links, userId) + {v};
    } else {
      assert UsedLinksOf(links', userId) == UsedLinksOf(links, userId);
    }
  }

  /** Conservation: over any run, a user's successful verifications never exceed the
      links used up, which never exceed the links created for that user. */
  lemma {:induction false} LinksAreConserved(as_: seq<Auth>, es: seq<Event>, userId: Id, n: nat)
    requires Run(as_, es) && n <= |es|
    ensures Successes(as_, es, userId, n) <= |UsedLinksOf(as_[n].links, userId)| <= Created(es, userId, n)
    ensures |LinksOf(as_[n].links, userId)| == Created(es, userId, n)
  {
    if n == 0 {
      assert LinksOf(as_[0].links, userId) == {} && UsedLinksOf(as_[0].links, userId) == {};
    } else {
      LinksAreConserved(as_, es, userId, n - 1);
      RunIsOneWay(as_, es, n - 1, n - 1);
      assert StepsTo(as_, es, n - 1);
      LinkCounts(as_[n - 1], es[n - 1], userId);
    }
    SubsetCount(UsedLinksOf(as_[n].links, userId), LinksOf(as_[n].links, userId));
  }

  lemma {:induction false} SubsetCount(a: set<string>, b: set<string>)
    requires a <= b
    ensures |a| <= |b|
  {
    if a != {} {
      var x :| x in a;
      SubsetCount(a - {x}, b - {x});
    }
  }

  /* ---------- the services ---------- */

  /** The tables of sessions and links, and the clock. */
  class Store {
    var sessions: map<string, Session>
    var links: map<string, Link>
    var now: nat
    ghost var issued: set<string>

    constructor ()
      ensures Current() == Auth(map[], map[], {}, 0)
    {
      sessions, links, now := map[], map[], 0;
      issued := {};
    }

    ghost function Current(): Auth
      reads this
    {
      Auth(sessions, links, issued, now)
    }
  }

  class TokensService {
    const db: Store

    constructor (db: Store)
      ensures this.db == db
    {
      this.db := db;
    }

    method GenerateRefreshToken(userId: Id, jti: string, life: Lifetime, fault: Fault) returns (t: Option<Token>)
      modifies db
      ensures (t, db.Current()) == Mint(old(db.Current()), userId, jti, life, fault)
    {
      var expiresAt := db.now + 7 * DAY;
      var lifetime := 0;
      match life {
        case Days(n) => expiresAt := expiresAt + n * DAY; lifetime := n * DAY;
        case Hours(n) => expiresAt := expiresAt + n * HOUR; lifetime := n * HOUR;
        case OtherUnit(ms) => lifetime := ms;
      }
      if fault == WriteFails { return None; }
      db.sessions := db.sessions[jti := Session(userId, expiresAt, false, db.now)];
      db.issued := db.issued + {jti};
      if fault == SignFails { return None; }
      return Some(Token(userId, Some(jti), db.now + lifetime, true));
    }

    method ValidateRefreshToken(t: Token, row: string, fault: Fault) returns (userId: Option<Id>)
      modifies db`sessions
      ensures (userId, db.Current()) == Validate(old(db.Current()), t, row, fault)
    {
      if !Verifies(t, db.now) { return None; }
      if fault == FindFails { return None; }
      var id := if t.jti.Some? then t.jti.value else row;
      if id !in db.sessions || db.sessions[id].isRevoked { return None; }
      var session := db.sessions[id];
      if db.now > session.expiresAt {
        if fault == WriteFails { return None; }
        db.sessions := db.sessions[id := session.(isRevoked := true)];
        return None;
      }
      if fault == WriteFails { return None; }
      db.sessions := db.sessions[id := session.(lastActive := db.now)];
      return Some(session.userId);
    }

    /** Marks the not yet revoked rows that the update's filter matches. */
    method RevokeRefreshToken(t: Token, rows: set<string>, fault: Fault) returns (ok: bool)
      modifies db`sessions
      ensures (ok, db.Current()) == Revoke(old(db.Current()), t, rows, fault)
    {
      if !Verifies(t, db.now) { return false; }
      if Throws(fault) { return false; }
      var matched := if t.jti.Some? then {t.jti.value} else rows;
      var pending := set j | j in db.sessions && j in matched && !db.sessions[j].isRevoked;
      db.sessions := map j | j in db.sessions :: if j in pending then db.sessions[j].(isRevoked := true) else db.sessions[j];
      assert db.sessions == MarkRevoked(old(db.sessions), matched);
      return true;
    }

    method RevokeAllUserRefreshTokens(userId: Id, fault: Fault) returns (ok: bool)
      modifies db`sessions
      ensures (ok, db.Current()) == RevokeAll(old(db.Current()), userId, fault)
    {
      if Throws(fault) { return false; }
      var pending := set j | j in db.sessions && db.sessions[j].userId == userId && !db.sessions[j].isRevoked;
      db.sessions := map j | j in db.sessions :: if j in pending then db.sessions[j].(isRevoked := true) else db.sessions[j];
      assert db.sessions == MarkRevoked(old(db.sessions), SessionsOf(old(db.Current()), userId));
      return true;
    }
  }

  class PasswordlessService {
    const db: Store
    const tokens: TokensService

    constructor (db: Store, tokens: TokensService)
      requires tokens.db == db
      ensures this.db == db && this.tokens == tokens
    {
      this.db := db;
      this.tokens := tokens;
    }

    method CreateMagicLink(userId: Id, value: string, fault: Fault) returns (t: Option<LinkToken>)
      modifies db
      ensures (t, db.Current()) == CreateLink(old(db.Current()), userId, value, fault)
    {
      if fault == FindFails { return None; }
      var expiresAt := db.now + LINK_LIFETIME;
      if fault == WriteFails { return None; }
      db.links := db.links[value := Link(userId, expiresAt, false)];
      db.issued := db.issued + {value};
      if fault == AuditFails || fault == SignFails { return None; }
      return Some(LinkToken(userId, Some(value), db.now + LINK_LIFETIME, true));
    }

    method VerifyMagicLink(t: LinkToken, row: string, jti: string, life: Lifetime, fault: Fault) returns (token: Option<Token>)
      requires tokens.db == db
      modifies db
      ensures (token, db.Current()) == VerifyLink(old(db.Current()), t, row, jti, life, fault)
    {
      if !t.genuine || db.now >= t.exp { return None; }
      if fault == FindFails { return None; }
      var value := if t.value.Some? then t.value.value else row;
      if value !in db.links { return None; }
      var link := db.links[value];
      if link.userId != t.sub || link.isUsed || link.expiresAt <= db.now { return None; }
      if fault == WriteFails { return None; }
      db.links := db.links[value := link.(isUsed := true)];
      if fault == AuditFails || fault == MintFails { return None; }
      token := tokens.GenerateRefreshToken(t.sub, jti, life, fault);
    }
  }
}
