/**
 The vault on values: its entities, what keeps them sound, and the ledger of key tree, sessions and tokens with the one
 step each request takes on it. One-time codes and sealing are ideal; certificates, signatures and loading the store
 come in as outcomes.
 */
module VaultLedger {
  import opened Common
  import opened Sealing

  type User = string

  type Token = nat

  type ChallengeId = nat

  type Seconds = nat

  const MAX_CHALLENGES := 1024
  const CHALLENGE_TTL := 5 * 60
  const INIT_TTL := 10 * 60
  const RECOVERY_TTL := 5 * 60
  const MAX_TOTP_FAILS := 5
  const TOTP_PERIOD := 30
  const RENEW_INTERVAL := 10

  datatype Purpose = ForUnlock | ForCertBind

  /** The one-time code that a secret gives in one time step. */
  datatype Code = Code(secret: nat, step: nat)

  datatype VaultUser = VaultUser(
    secret: nat,
    totpBound: bool,
    cert: Option<string>,
    salt: nat,
    wrap: Sealed<Key>,
    changedAt: Seconds,
    lastWindow: nat)

  datatype Recovery = Recovery(token: nat, wrap: Sealed<Key>)

  datatype VaultSession = VaultSession(
    user: User,
    ip: string,
    recovery: bool,
    masterKey: Option<Key>,
    lastActive: Seconds,
    expiresAt: Seconds)

  datatype Challenge = Challenge(purpose: Purpose, expires: Seconds, used: bool)

  datatype InitToken = InitToken(user: User, expires: Seconds, fails: nat)

  datatype FailEntry = FailEntry(windowStart: Seconds, count: nat, until: Seconds)

  datatype Kind = ByInit | BySession | ByRecovery

  datatype VaultError =
    | AlreadyInitialized | NotInitialized | BadUser | WeakPassword | Limited | BadChallenge | PoolFull
    | AuthFailed | PasswordExpired | LoadFailed | Unauthorized | UnknownUser | LastUser | Locked

  type Users = map<User, VaultUser>

  type Sessions = map<Token, VaultSession>

  type Challenges = map<ChallengeId, Challenge>

  type InitTokens = map<Token, InitToken>

  /** A failure counts in its window, or in a new one once that has run out; enough failures lock. */
  function Counted(e: Option<FailEntry>, now: Seconds, maxAttempts: nat, lockout: Seconds): FailEntry {
    var running := if e.Some? && now - e.value.windowStart <= lockout then e.value else FailEntry(now, 0, 0);
    FailEntry(running.windowStart, running.count + 1,
              if running.count + 1 >= maxAttempts then now + lockout else running.until)
  }

  // ---------- requests ----------

  /** A request with its vault token, the client's address and the time it is handled. */
  datatype Call = Call(req: Request, token: Token, ip: string, now: Seconds)

  /** Requests with the outcomes and random values their handling meets. */
  datatype Request =
    | UnlockVault(user: User, password: string, code: Code, certOk: bool, newPassword: string, id: ChallengeId,
                  salt: nat, session: Token)
    | OnFactors(factors: FactorRequest)
    | OnKeys(keys: KeyRequest)
    | OnSessions(access: SessionRequest)
    | OnUsers(members: UserRequest)

  datatype FactorRequest =
    | VerifyCode(code: Code)
    | ResetCode(secret: nat)
    | DrawChallenge(purpose: Purpose, id: ChallengeId)
    | BindCertTo(id: ChallengeId, cert: string, certOk: bool, signatureOk: bool)

  datatype UserRequest =
    | AddUserTo(user: User, password: string, salt: nat, secret: nat, initToken: Token)
    | RemoveUserNamed(user: User)

  datatype KeyRequest =
    | InitVault(user: User, password: string, mk: Key, ik: Key, salt: nat, secret: nat, recoveryToken: nat,
                initToken: Token)
    | ReplacePassword(oldPassword: string, newPassword: string, salt: nat)

  datatype SessionRequest =
    | LoadEnds(unlocked: Token, loadOk: bool)
    | LockVault
    | ReadData
    | Tick
    | RecoverWith(recoveryToken: nat, user: User, session: Token)

  // ---------- invariants as predicates on values ----------

  /** Every wrap of the master key opens, under the latest password alone, to the one key made at initialisation. */
  ghost predicate WrapsRoot(users: Users, passwords: map<User, string>, root: Key) {
    && (forall u :: u in users <==> u in passwords)
    && (forall u :: u in users ==> users[u].wrap == Sealed(Derived(passwords[u], users[u].salt), root))
  }

  ghost predicate TreeSound(recovery: Option<Recovery>, indexWrap: Option<Sealed<Key>>, masterKey: Option<Key>,
                            root: Key, indexKey: Key) {
    && (recovery.Some? ==> recovery.value.wrap == Sealed(Random(recovery.value.token), root))
    && (recovery.Some? ==> indexWrap == Some(Sealed(root, indexKey)))
    && (masterKey.Some? ==> masterKey.value == root)
  }

  /** Recovery sessions hold the root key; the others came from an unlock and were not revoked since. */
  ghost predicate SessionsSound(sessions: Sessions, root: Key, issued: set<Token>, revoked: set<Token>, idle: Seconds) {
    forall t :: t in sessions ==>
                  if sessions[t].recovery then sessions[t].masterKey == Some(root)
                  else t in issued && t !in revoked && sessions[t].expiresAt == sessions[t].lastActive + idle
  }

  /** Challenges were drawn for their purpose; a spent one was drawn for what it was spent on and stays unusable. */
  ghost predicate ChallengesSound(challenges: Challenges, drawn: map<ChallengeId, Purpose>,
                                  spent: map<ChallengeId, Purpose>) {
    && (forall c :: c in challenges ==> c in drawn && drawn[c] == challenges[c].purpose)
    && (forall c :: c in spent ==> c in drawn && drawn[c] == spent[c] && (c in challenges ==> challenges[c].used))
  }

  // ---------- one-time codes ----------

  function Window(now: Seconds): nat {
    now / TOTP_PERIOD
  }

  /** The code of the present step or of one beside it. */
  predicate Matches(code: Code, secret: nat, now: Seconds) {
    code.secret == secret && Window(now) <= code.step + 1 && code.step <= Window(now) + 1
  }

  /** What unlocking and confirming ask of a code: it matches, and no unlock has used this window or a later one. */
  predicate Fits(code: Code, v: VaultUser, now: Seconds) {
    Matches(code, v.secret, now) && Window(now) > v.lastWindow
  }

  /**
   A code that has just unlocked is worthless from then on exactly when it was the code of the step before; otherwise it
   unlocks again, in the next window or the one after.
   */
  lemma SpentByFirstUseIff(code: Code, v: VaultUser, now: Seconds)
    requires Matches(code, v.secret, now) && v.lastWindow == Window(now)
    ensures (forall later: Seconds :: !Fits(code, v, later)) <==> code.step + 1 == Window(now)
  {
    if code.step + 1 != Window(now) {
      assert Fits(code, v, (Window(now) + 1) * TOTP_PERIOD);
    }
  }

  /** One unlock: the window it took place in and the code it showed. */
  datatype Use = Use(window: nat, code: Code)

  /** A name's unlocks, never forgotten: one sequence for each time a user of that name was added. */
  type Tenures = seq<seq<Use>>

  ghost predicate Increasing(s: seq<Use>) {
    forall i, j :: 0 <= i < j < |s| ==> s[i].window < s[j].window
  }

  ghost predicate Tenured(ts: Tenures) {
    forall t :: 0 <= t < |ts| ==> Increasing(ts[t])
  }

  /** No unlock since the name was last added is in a later window than the remembered one. */
  ghost predicate UpTo(ts: Tenures, lastWindow: nat) {
    ts != [] && Latest(ts[|ts| - 1]) <= lastWindow
  }

  function Latest(uses: seq<Use>): nat {
    if uses == [] then 0 else uses[|uses| - 1].window
  }

  /** The users with their wraps and histories. */
  ghost predicate UsersSound(users: Users, passwords: map<User, string>, tenures: map<User, Tenures>, root: Key) {
    WrapsRoot(users, passwords, root) && WindowsSound(users, tenures)
  }

  /** Every name's windows increase between two additions, and a user's stay up to the remembered last one. */
  ghost predicate WindowsSound(users: Users, tenures: map<User, Tenures>) {
    && (forall u :: u in tenures ==> Tenured(tenures[u]))
    && (forall u :: u in users ==> u in tenures && UpTo(tenures[u], users[u].lastWindow))
  }

  function Joined(ts: Tenures): Tenures {
    ts + [[]]
  }

  function History(tenures: map<User, Tenures>, u: User): Tenures {
    if u in tenures then tenures[u] else []
  }

  function Recorded(ts: Tenures, use: Use): Tenures {
    if ts == [] then [[use]] else ts[..|ts| - 1] + [ts[|ts| - 1] + [use]]
  }

  lemma JoinedSound(ts: Tenures)
    requires Tenured(ts)
    ensures Tenured(Joined(ts)) && UpTo(Joined(ts), 0)
  {
    assert Increasing([]);
  }

  lemma RecordedSound(ts: Tenures, before: nat, use: Use)
    requires Tenured(ts) && UpTo(ts, before) && before < use.window
    ensures Tenured(Recorded(ts, use)) && UpTo(Recorded(ts, use), use.window)
  {
    var last := ts[|ts| - 1];
    assert Increasing(last);
    assert forall i :: 0 <= i < |last| ==> last[i].window <= Latest(last);
    assert Increasing(last + [use]);
  }

  /** Nothing is forgotten: a name keeps its tenures, and a tenure its unlocks. */
  ghost predicate HistoriesGrow(a: map<User, Tenures>, b: map<User, Tenures>) {
    forall u :: u in a ==> u in b && Continues(a[u], b[u])
  }

  ghost predicate Continues(a: Tenures, b: Tenures) {
    |a| <= |b| && forall t :: 0 <= t < |a| ==> a[t] <= b[t]
  }

  // ---------- the ledger ----------

  /** What the daemon was configured with. */
  datatype Rules = Rules(
    idleTimeout: Seconds,
    passwordExpire: Seconds,
    forceExpire: bool,
    minLength: nat,
    bindSessionIP: bool)

  /** Key tree, sessions and tokens, the passwords behind the wraps, and what was ever issued, revoked and unlocked. */
  datatype Ledger = Ledger(
    initialized: bool,
    root: Key,
    users: Users,
    passwords: map<User, string>,
    tenures: map<User, Tenures>,
    masterKey: Option<Key>,
    loading: bool,
    sessions: Sessions,
    initTokens: InitTokens,
    issued: set<Token>,
    revoked: set<Token>)

  const EMPTY := Ledger(false, Random(0), map[], map[], map[], None, false, map[], map[], {}, {})

  /** A user yet to be set up. */
  function NewUser(password: string, salt: nat, secret: nat, mk: Key, now: Seconds): VaultUser {
    VaultUser(secret, false, None, salt, Sealed(Derived(password, salt), mk), now, 0)
  }

  /** A user whose wrap of the master key has been made anew. */
  function Rewrapped(v: VaultUser, password: string, salt: nat, mk: Key, now: Seconds): VaultUser {
    v.(salt := salt, wrap := Sealed(Derived(password, salt), mk), changedAt := now)
  }

  /** Whether a password has to be replaced in the next unlock. */
  predicate ChangeDue(rules: Rules, v: VaultUser, now: Seconds) {
    rules.passwordExpire > 0 && now - v.changedAt >= rules.passwordExpire && rules.forceExpire
  }

  predicate DueFor(rules: Rules, users: Users, user: User, now: Seconds) {
    user in users && ChangeDue(rules, users[user], now)
  }

  /** Once the factors hold: an expired password replaced and the window used up. */
  function Proved(a: Ledger, user: User, change: bool, newPassword: string, salt: nat, code: Code, now: Seconds)
    : Ledger
  {
    if user !in a.users then a
    else
      var v := if change then Rewrapped(a.users[user], newPassword, salt, a.root, now) else a.users[user];
      a.(users := a.users[user := v.(lastWindow := Window(now))],
         passwords := if change then a.passwords[user := newPassword] else a.passwords,
         tenures := a.tenures[user := Recorded(History(a.tenures, user), Use(Window(now), code))])
  }

  /** The rest of an unlock: the key in memory and one new session, behind a gate that waits for the store. */
  function Opened(a: Ledger, user: User, token: Token, ip: string, idle: Seconds, now: Seconds): Ledger {
    a.(masterKey := Some(a.root), loading := true, issued := a.issued + {token},
       sessions := a.sessions[token := VaultSession(user, ip, false, None, now, now + idle)])
  }

  /** A granted unlock. */
  function Unlocked(rules: Rules, a: Ledger, user: User, newPassword: string, salt: nat, code: Code, token: Token,
                    ip: string, now: Seconds): Ledger {
    Opened(Proved(a, user, DueFor(rules, a.users, user, now), newPassword, salt, code, now), user, token, ip,
           rules.idleTimeout, now)
  }

  /** The sessions of unlocks, as opposed to recovery sessions. */
  function UnlockedSessions(sessions: Sessions): set<Token> {
    set t | t in sessions && !sessions[t].recovery
  }

  function SessionsOf(sessions: Sessions, user: User): set<Token> {
    set t | t in sessions && sessions[t].user == user && !sessions[t].recovery
  }

  function ExpiredSessions(sessions: Sessions, now: Seconds): set<Token> {
    set t | t in sessions && now > sessions[t].expiresAt
  }

  /** Without any unlocked session left the key is forgotten. */
  function KeyFor(sessions: Sessions, masterKey: Option<Key>): Option<Key> {
    if UnlockedSessions(sessions) == {} then None else masterKey
  }

  /** A session that has been idle for a while is renewed by use. */
  function Touched(s: VaultSession, idle: Seconds, now: Seconds): VaultSession {
    if now - s.lastActive >= RENEW_INTERVAL then s.(lastActive := now, expiresAt := now + idle) else s
  }

  predicate Onboarding(initTokens: InitTokens, token: Token, now: Seconds) {
    token in initTokens && now < initTokens[token].expires
  }

  /** The onboarding tokens once the given one has failed again: the last allowed failure voids it. */
  function AfterFailure(initTokens: InitTokens, token: Token): InitTokens
    requires token in initTokens
  {
    if initTokens[token].fails + 1 >= MAX_TOTP_FAILS then initTokens - {token}
    else initTokens[token := initTokens[token].(fails := initTokens[token].fails + 1)]
  }

  /** An onboarding token speaks for the user it was made for as long as it lasts and that user exists. */
  predicate SpeaksAsInit(a: Ledger, c: Call) {
    Onboarding(a.initTokens, c.token, c.now) && a.initTokens[c.token].user in a.users
  }

  /** Whom a granted request speaks for. */
  function Actor(a: Ledger, c: Call): User {
    if SpeaksAsInit(a, c) then a.initTokens[c.token].user
    else if c.token in a.sessions then a.sessions[c.token].user
    else ""
  }

  /** A session bound to an address is of use from there alone. */
  predicate SameAddress(rules: Rules, s: VaultSession, ip: string) {
    rules.bindSessionIP && s.ip != "" ==> s.ip == ip
  }

  /** The request shows a session that has not expired, from where it may be used. */
  predicate Live(rules: Rules, a: Ledger, c: Call) {
    c.token in a.sessions && c.now <= a.sessions[c.token].expiresAt && SameAddress(rules, a.sessions[c.token], c.ip)
  }

  /** A live session of an unlock, with the key in memory. */
  predicate LiveUnlocked(rules: Rules, a: Ledger, c: Call) {
    Live(rules, a, c) && !a.sessions[c.token].recovery && a.masterKey.Some?
  }

  /** A live session that may change its user: one of a recovery, or of an unlock with the key in memory. */
  predicate LiveFor(rules: Rules, a: Ledger, c: Call) {
    Live(rules, a, c) && (a.sessions[c.token].recovery || a.masterKey.Some?)
  }

  // ---------- what granted requests do ----------

  /** The first user, over a new master key. */
  function Planted(a: Ledger, user: User, password: string, mk: Key, salt: nat, secret: nat, initToken: Token,
                   now: Seconds): Ledger {
    a.(initialized := true, root := mk,
       users := map[user := NewUser(password, salt, secret, mk, now)],
       passwords := map[user := password],
       tenures := a.tenures[user := Joined(History(a.tenures, user))],
       initTokens := a.initTokens[initToken := InitToken(user, now + INIT_TTL, 0)])
  }

  function Added(a: Ledger, user: User, password: string, salt: nat, secret: nat, initToken: Token, now: Seconds)
    : Ledger
  {
    a.(users := a.users[user := NewUser(password, salt, secret, a.root, now)],
       passwords := a.passwords[user := password],
       tenures := a.tenures[user := Joined(History(a.tenures, user))],
       initTokens := a.initTokens[initToken := InitToken(user, now + INIT_TTL, 0)])
  }

  /** The user's sessions end for good; the key goes with the last unlocked session. */
  function Removed(a: Ledger, user: User): Ledger {
    var left := a.sessions - SessionsOf(a.sessions, user);
    a.(users := a.users - {user}, passwords := a.passwords - {user},
       sessions := left, masterKey := KeyFor(left, a.masterKey),
       revoked := a.revoked + SessionsOf(a.sessions, user))
  }

  /** A new wrap under a new password; the user's other unlocked sessions end for good. */
  function Rekeyed(a: Ledger, user: User, newPassword: string, salt: nat, keep: Token, now: Seconds): Ledger {
    var ended := SessionsOf(a.sessions, user) - {keep};
    if user !in a.users then a
    else a.(users := a.users[user := Rewrapped(a.users[user], newPassword, salt, a.root, now)],
            passwords := a.passwords[user := newPassword],
            sessions := a.sessions - ended, revoked := a.revoked + ended)
  }

  function Confirmed(a: Ledger, user: User): Ledger {
    if user !in a.users then a else a.(users := a.users[user := a.users[user].(totpBound := true)])
  }

  /** A fresh one-time secret, to be confirmed again. */
  function Reseeded(a: Ledger, user: User, secret: nat): Ledger {
    if user !in a.users then a
    else a.(users := a.users[user := a.users[user].(secret := secret, totpBound := false)])
  }

  /** A bound certificate completes the onboarding and voids its token. */
  function Certified(a: Ledger, user: User, cert: string, token: Token, onboarding: bool): Ledger {
    if user !in a.users then a
    else a.(users := a.users[user := a.users[user].(cert := Some(cert))],
            initTokens := if onboarding then a.initTokens - {token} else a.initTokens)
  }

  function Shut(a: Ledger): Ledger {
    a.(loading := false, masterKey := None, sessions := a.sessions - UnlockedSessions(a.sessions), revoked := a.issued)
  }

  function Renewed(rules: Rules, a: Ledger, token: Token, now: Seconds): Ledger {
    if token !in a.sessions then a
    else a.(sessions := a.sessions[token := Touched(a.sessions[token], rules.idleTimeout, now)])
  }

  function LiveInitTokens(initTokens: InitTokens, now: Seconds): InitTokens {
    map t | t in initTokens && now <= initTokens[t].expires :: initTokens[t]
  }

  function Swept(a: Ledger, now: Seconds): Ledger {
    var left := a.sessions - ExpiredSessions(a.sessions, now);
    a.(sessions := left, masterKey := KeyFor(left, a.masterKey), initTokens := LiveInitTokens(a.initTokens, now))
  }

  function Recovered(a: Ledger, user: User, ip: string, token: Token, now: Seconds): Ledger {
    a.(sessions := a.sessions[token := VaultSession(user, ip, true, Some(a.root), now, now + RECOVERY_TTL)])
  }

  function CodeFailed(a: Ledger, token: Token): Ledger
    requires token in a.initTokens
  {
    a.(initTokens := AfterFailure(a.initTokens, token))
  }

  /** A load that fails takes its session and the key away. */
  function LoadFailure(a: Ledger, unlocked: Token): Ledger {
    a.(loading := false, masterKey := None, sessions := a.sessions - {unlocked}, revoked := a.revoked + {unlocked})
  }

  // ---------- the steps ----------

  /** What one request, granted or refused, does to the ledger. */
  ghost predicate Step(rules: Rules, a: Ledger, c: Call, ok: bool, b: Ledger) {
    Drawn(a, c.req) && if ok then Grantable(rules, a, c) && b == Effect(rules, a, c) else Refused(a, c, b)
  }

  /** A token is new when it is drawn, and a load that ends was begun by an unlock. */
  ghost predicate Drawn(a: Ledger, req: Request) {
    match req
    case UnlockVault(_, _, _, _, _, _, _, session) => NewToken(a, session)
    case OnSessions(RecoverWith(_, _, session)) => NewToken(a, session)
    case OnSessions(LoadEnds(unlocked, _)) => unlocked in a.issued
    case OnKeys(InitVault(_, _, _, _, _, _, _, initToken)) => NewToken(a, initToken)
    case OnUsers(AddUserTo(_, _, _, _, initToken)) => NewToken(a, initToken)
    case _ => true
  }

  ghost predicate NewToken(a: Ledger, t: Token) {
    t !in a.issued && t !in a.sessions && t !in a.initTokens
  }

  /** What the ledger must say for a request to be granted; limits, challenges and the recovery token are beside it. */
  ghost predicate Grantable(rules: Rules, a: Ledger, c: Call) {
    match c.req
    case UnlockVault(user, password, code, certOk, newPassword, _, _, _) =>
      && MayUnlock(a, user, password, code, c.now) && certOk
      && (DueFor(rules, a.users, user, c.now) ==> newPassword != "" && StrongPassword(newPassword, rules.minLength))
    case OnFactors(VerifyCode(code)) =>
      && Actor(a, c) in a.users && (SpeaksAsInit(a, c) || Live(rules, a, c))
      && Fits(code, a.users[Actor(a, c)], c.now)
    case OnFactors(ResetCode(_)) => Actor(a, c) in a.users && LiveFor(rules, a, c)
    case OnFactors(BindCertTo(_, _, certOk, signatureOk)) =>
      Actor(a, c) in a.users && (SpeaksAsInit(a, c) || LiveFor(rules, a, c)) && certOk && signatureOk
    case OnKeys(InitVault(user, password, _, _, _, _, _, _)) =>
      !a.initialized && user != "" && StrongPassword(password, rules.minLength)
    case OnKeys(ReplacePassword(oldPassword, newPassword, _)) =>
      && Actor(a, c) in a.users && LiveFor(rules, a, c) && StrongPassword(newPassword, rules.minLength)
      && (a.sessions[c.token].recovery ||
          (Actor(a, c) in a.passwords && oldPassword == a.passwords[Actor(a, c)]))
    case OnSessions(LoadEnds(_, loadOk)) => loadOk
    case OnSessions(LockVault) => LiveUnlocked(rules, a, c)
    case OnSessions(ReadData) => LiveUnlocked(rules, a, c) && !a.loading
    case OnSessions(RecoverWith(_, user, _)) => RecoveryTarget(a.users, user) in a.users
    case OnUsers(AddUserTo(user, password, _, _, _)) =>
      LiveUnlocked(rules, a, c) && user != "" && user !in a.users && StrongPassword(password, rules.minLength)
    case OnUsers(RemoveUserNamed(user)) => LiveUnlocked(rules, a, c) && user in a.users && |a.users| > 1
    case _ => true
  }

  /** The user is set up, code and password are right, and the window is new. */
  ghost predicate MayUnlock(a: Ledger, user: User, password: string, code: Code, now: Seconds) {
    && user in a.users && a.users[user].totpBound && a.users[user].cert.Some? && Fits(code, a.users[user], now)
    && user in a.passwords && a.passwords[user] == password
  }

  /** The user a recovery is for: the one named, or the only one. */
  ghost function RecoveryTarget(users: Users, user: User): User {
    if user != "" || |users| != 1 then user
    else
      var u :| u in users; u
  }

  /** The ledger after a granted request. */
  ghost function Effect(rules: Rules, a: Ledger, c: Call): Ledger {
    match c.req
    case UnlockVault(user, _, code, _, newPassword, _, salt, session) =>
      Unlocked(rules, a, user, newPassword, salt, code, session, c.ip, c.now)
    case OnFactors(VerifyCode(_)) => Confirmed(a, Actor(a, c))
    case OnFactors(ResetCode(secret)) => Reseeded(a, Actor(a, c), secret)
    case OnFactors(DrawChallenge(_, _)) => a
    case OnFactors(BindCertTo(_, cert, _, _)) => Certified(a, Actor(a, c), cert, c.token, SpeaksAsInit(a, c))
    case OnKeys(InitVault(user, password, mk, _, salt, secret, _, initToken)) =>
      Planted(a, user, password, mk, salt, secret, initToken, c.now)
    case OnKeys(ReplacePassword(_, newPassword, salt)) => Rekeyed(a, Actor(a, c), newPassword, salt, c.token, c.now)
    case OnSessions(LoadEnds(_, _)) => a.(loading := false)
    case OnSessions(LockVault) => Shut(a)
    case OnSessions(ReadData) => Renewed(rules, a, c.token, c.now)
    case OnSessions(Tick) => Swept(a, c.now)
    case OnSessions(RecoverWith(_, user, session)) => Recovered(a, RecoveryTarget(a.users, user), c.ip, session, c.now)
    case OnUsers(AddUserTo(user, password, salt, secret, initToken)) =>
      Added(a, user, password, salt, secret, initToken, c.now)
    case OnUsers(RemoveUserNamed(user)) => Removed(a, user)
  }

  /**
   A refused request changes nothing, except that a wrong code counts against an onboarding token, and that a load that
   fails takes its session and the key away.
   */
  ghost predicate Refused(a: Ledger, c: Call, b: Ledger) {
    match c.req
    case OnFactors(VerifyCode(_)) => b == a || (Onboarding(a.initTokens, c.token, c.now) && b == CodeFailed(a, c.token))
    case OnSessions(LoadEnds(unlocked, loadOk)) => !loadOk && b == LoadFailure(a, unlocked)
    case OnSessions(Tick) => false
    case _ => b == a
  }

  // ---------- histories ----------

  /** A request handled: its answer and the ledger it left. */
  datatype Event = Event(call: Call, ok: bool, after: Ledger)

  /** The ledger once a history has been gone through. */
  function Present(h: seq<Event>): Ledger {
    if h == [] then EMPTY else h[|h| - 1].after
  }

  /** The one-time secret that is drawn while a request is handled. */
  function SecretDrawn(req: Request): Option<nat> {
    match req
    case OnFactors(ResetCode(secret)) => Some(secret)
    case OnKeys(InitVault(_, _, _, _, _, secret, _, _)) => Some(secret)
    case OnUsers(AddUserTo(_, _, _, secret, _)) => Some(secret)
    case _ => None
  }

  /** The call is no earlier than the history and draws a secret of its own. */
  ghost predicate Follows(h: seq<Event>, c: Call) {
    forall i :: 0 <= i < |h| ==>
                  && h[i].call.now <= c.now
                  && (SecretDrawn(c.req).Some? ==> SecretDrawn(h[i].call.req) != SecretDrawn(c.req))
  }

  /** The k-th request took its step, after all the others before it. */
  ghost predicate StepAt(rules: Rules, h: seq<Event>, k: nat)
    requires k < |h|
  {
    Follows(h[..k], h[k].call) && Step(rules, Present(h[..k]), h[k].call, h[k].ok, h[k].after)
  }

  /** From an empty vault on, one step per request, in the order of the clock; no secret is drawn twice. */
  ghost predicate IsHistory(rules: Rules, h: seq<Event>) {
    forall k :: 0 <= k < |h| ==> StepAt(rules, h, k)
  }

  /** The log of a daemon from its start on. */
  datatype Log = Log(rules: Rules, events: seq<Event>)

  type Record = l: Log | IsHistory(l.rules, l.events) witness Log(Rules(0, 0, false, 0, false), [])

  lemma SamePrefix(rules: Rules, g: seq<Event>, h: seq<Event>, k: nat)
    requires k < |g| && k < |h| && g[..k] == h[..k] && g[k] == h[k]
    ensures StepAt(rules, g, k) <==> StepAt(rules, h, k)
  {
  }

  lemma HistoryGoesOn(rules: Rules, h: seq<Event>, e: Event)
    requires IsHistory(rules, h) && Follows(h, e.call) && Step(rules, Present(h), e.call, e.ok, e.after)
    ensures IsHistory(rules, h + [e])
  {
    var g := h + [e];
    forall k | 0 <= k < |g| ensures StepAt(rules, g, k) {
      if k < |h| {
        SamePrefix(rules, g, h, k);
      } else {
        assert g[..k] == h;
      }
    }
  }

  lemma HistoryEnds(rules: Rules, h: seq<Event>)
    requires IsHistory(rules, h) && h != []
    ensures var g, e := h[..|h| - 1], h[|h| - 1];
            IsHistory(rules, g) && Follows(g, e.call) && Step(rules, Present(g), e.call, e.ok, e.after)
  {
    var g := h[..|h| - 1];
    assert StepAt(rules, h, |g|);
    forall k | 0 <= k < |g| ensures StepAt(rules, g, k) {
      assert StepAt(rules, h, k);
      assert g[..k] == h[..k];
      SamePrefix(rules, g, h, k);
    }
  }

  // ---------- what the steps keep sound ----------

  /** Wraps, windows and sessions are sound, and the key in memory is the one made at initialisation. */
  ghost predicate LedgerSound(a: Ledger, idle: Seconds) {
    && UsersSound(a.users, a.passwords, a.tenures, a.root)
    && SessionsSound(a.sessions, a.root, a.issued, a.revoked, idle) && a.revoked <= a.issued
    && (a.masterKey.Some? ==> a.masterKey.value == a.root)
    && (!a.initialized ==> a.users == map[] && a.sessions == map[] && a.masterKey == None)
  }

  lemma AddedSound(users: Users, passwords: map<User, string>, tenures: map<User, Tenures>, root: Key, u: User,
                   v: VaultUser, password: string)
    requires UsersSound(users, passwords, tenures, root)
    requires v.wrap == Sealed(Derived(password, v.salt), root)
    ensures UsersSound(users[u := v], passwords[u := password], tenures[u := Joined(History(tenures, u))], root)
  {
    JoinedSound(History(tenures, u));
  }

  lemma EditedSound(users: Users, passwords: map<User, string>, tenures: map<User, Tenures>, root: Key, u: User,
                    v: VaultUser)
    requires UsersSound(users, passwords, tenures, root) && u in users
    requires v.wrap == users[u].wrap && v.salt == users[u].salt && v.lastWindow >= users[u].lastWindow
    ensures UsersSound(users[u := v], passwords, tenures, root)
  {
  }

  lemma RewrappedSound(users: Users, passwords: map<User, string>, tenures: map<User, Tenures>, root: Key, u: User,
                       password: string, salt: nat, now: Seconds)
    requires UsersSound(users, passwords, tenures, root) && u in users
    ensures UsersSound(users[u := Rewrapped(users[u], password, salt, root, now)], passwords[u := password], tenures,
                       root)
  {
  }

  lemma ProvedSound(a: Ledger, user: User, change: bool, newPassword: string, salt: nat, code: Code, now: Seconds)
    requires UsersSound(a.users, a.passwords, a.tenures, a.root)
    requires user in a.users && a.users[user].lastWindow < Window(now)
    ensures var d := Proved(a, user, change, newPassword, salt, code, now);
            UsersSound(d.users, d.passwords, d.tenures, a.root)
  {
    RecordedSound(a.tenures[user], a.users[user].lastWindow, Use(Window(now), code));
  }

  lemma OpenedSound(a: Ledger, user: User, token: Token, ip: string, idle: Seconds, now: Seconds)
    requires SessionsSound(a.sessions, a.root, a.issued, a.revoked, idle) && a.revoked <= a.issued
    requires token !in a.issued
    ensures var d := Opened(a, user, token, ip, idle, now);
            SessionsSound(d.sessions, d.root, d.issued, d.revoked, idle) && d.revoked <= d.issued
  {
  }

  lemma UnlockedSound(rules: Rules, a: Ledger, c: Call)
    requires LedgerSound(a, rules.idleTimeout) && c.req.UnlockVault? && Drawn(a, c.req) && Grantable(rules, a, c)
    requires a.initialized
    ensures LedgerSound(Effect(rules, a, c), rules.idleTimeout)
  {
    var UnlockVault(user, _, code, _, newPassword, _, salt, session) := c.req;
    var change := DueFor(rules, a.users, user, c.now);
    ProvedSound(a, user, change, newPassword, salt, code, c.now);
    OpenedSound(Proved(a, user, change, newPassword, salt, code, c.now), user, session, c.ip, rules.idleTimeout, c.now);
  }

  lemma FactorSound(rules: Rules, a: Ledger, c: Call)
    requires LedgerSound(a, rules.idleTimeout) && c.req.OnFactors? && Grantable(rules, a, c)
    ensures LedgerSound(Effect(rules, a, c), rules.idleTimeout)
  {
    var b := Effect(rules, a, c);
    if !c.req.factors.DrawChallenge? {
      EditedSound(a.users, a.passwords, a.tenures, a.root, Actor(a, c), b.users[Actor(a, c)]);
    }
  }

  lemma KeySound(rules: Rules, a: Ledger, c: Call)
    requires LedgerSound(a, rules.idleTimeout) && c.req.OnKeys? && Grantable(rules, a, c)
    ensures LedgerSound(Effect(rules, a, c), rules.idleTimeout)
  {
    match c.req.keys
    case InitVault(user, password, mk, _, salt, secret, _, _) =>
      AddedSound(map[], map[], a.tenures, mk, user, NewUser(password, salt, secret, mk, c.now), password);
    case ReplacePassword(_, newPassword, salt) =>
      RewrappedSound(a.users, a.passwords, a.tenures, a.root, Actor(a, c), newPassword, salt, c.now);
  }

  lemma SessionSound(rules: Rules, a: Ledger, c: Call)
    requires LedgerSound(a, rules.idleTimeout) && c.req.OnSessions? && Drawn(a, c.req) && Grantable(rules, a, c)
    ensures LedgerSound(Effect(rules, a, c), rules.idleTimeout)
  {
    match c.req.access
    case ReadData => OneSound(a, c.token, Touched(a.sessions[c.token], rules.idleTimeout, c.now), rules.idleTimeout);
    case Tick => FewerSound(a, ExpiredSessions(a.sessions, c.now), rules.idleTimeout);
    case RecoverWith(_, _, session) =>
      OneSound(a, session, Effect(rules, a, c).sessions[session], rules.idleTimeout);
    case LockVault => FewerSound(a, UnlockedSessions(a.sessions), rules.idleTimeout);
    case LoadEnds(_, _) =>
  }

  lemma OneSound(a: Ledger, t: Token, s: VaultSession, idle: Seconds)
    requires SessionsSound(a.sessions, a.root, a.issued, a.revoked, idle)
    requires if s.recovery then s.masterKey == Some(a.root)
             else t in a.issued && t !in a.revoked && s.expiresAt == s.lastActive + idle
    ensures SessionsSound(a.sessions[t := s], a.root, a.issued, a.revoked, idle)
  {
  }

  lemma FewerSound(a: Ledger, ended: set<Token>, idle: Seconds)
    requires SessionsSound(a.sessions, a.root, a.issued, a.revoked, idle)
    ensures SessionsSound(a.sessions - ended, a.root, a.issued, a.revoked, idle)
  {
  }

  lemma UserSound(rules: Rules, a: Ledger, c: Call)
    requires LedgerSound(a, rules.idleTimeout) && c.req.OnUsers? && Grantable(rules, a, c)
    ensures LedgerSound(Effect(rules, a, c), rules.idleTimeout)
  {
    match c.req.members
    case AddUserTo(user, password, salt, secret, _) =>
      var v := NewUser(password, salt, secret, a.root, c.now);
      AddedSound(a.users, a.passwords, a.tenures, a.root, user, v, password);
    case RemoveUserNamed(_) =>
  }

  lemma RefusedSound(a: Ledger, c: Call, b: Ledger, idle: Seconds)
    requires LedgerSound(a, idle) && Drawn(a, c.req) && Refused(a, c, b)
    ensures LedgerSound(b, idle)
  {
  }

  /** Whatever a request is and whether it is granted or refused, it keeps the ledger sound. */
  lemma StepSound(rules: Rules, a: Ledger, c: Call, ok: bool, b: Ledger)
    requires LedgerSound(a, rules.idleTimeout) && Step(rules, a, c, ok, b)
    ensures LedgerSound(b, rules.idleTimeout)
  {
    if !ok {
      RefusedSound(a, c, b, rules.idleTimeout);
    } else {
      match c.req
      case UnlockVault(_, _, _, _, _, _, _, _) => UnlockedSound(rules, a, c);
      case OnFactors(_) => FactorSound(rules, a, c);
      case OnKeys(_) => KeySound(rules, a, c);
      case OnSessions(_) => SessionSound(rules, a, c);
      case OnUsers(_) => UserSound(rules, a, c);
    }
  }

  /** After every history the ledger is sound. */
  lemma {:induction false} HistorySound(rules: Rules, h: seq<Event>)
    requires IsHistory(rules, h)
    ensures LedgerSound(Present(h), rules.idleTimeout)
  {
    if h != [] {
      var g, e := h[..|h| - 1], h[|h| - 1];
      HistoryEnds(rules, h);
      HistorySound(rules, g);
      StepSound(rules, Present(g), e.call, e.ok, e.after);
    }
  }

  predicate HasCharIn(s: string, low: char, high: char) {
    exists i :: 0 <= i < |s| && low <= s[i] <= high
  }

  /** Long enough, with an upper-case letter, a lower-case letter and a digit. */
  predicate StrongPassword(pw: string, minLength: nat) {
    |pw| >= minLength && HasCharIn(pw, 'A', 'Z') && HasCharIn(pw, 'a', 'z') && HasCharIn(pw, '0', '9')
  }
}
