/**
 Two runs from an empty vault on what one-time windows and codes do not rule out: a name that unlocks twice in one
 window, removed and added again in between, and a code that unlocks three times, in three windows.
 */
module VaultReuse {
  import opened Common
  import opened Sealing
  import opened VaultLedger
  import opened VaultKeys

  const CERT := "c"
  const NOW: Seconds := 60
  const WINDOW := NOW / TOTP_PERIOD

  /** The code a secret gives in the window of the first run. */
  function CodeOf(secret: nat): Code {
    Code(secret, WINDOW)
  }

  ghost predicate Enrolling(v: VaultState, u: User, initToken: Token)
    reads v
  {
    && u in v.users && v.users[u].lastWindow < WINDOW
    && initToken in v.initTokens && v.initTokens[initToken] == InitToken(u, NOW + INIT_TTL, 0)
  }

  function Enrolled(v: VaultUser): VaultUser {
    v.(totpBound := true, cert := Some(CERT))
  }

  method Confirm(v: VaultState, ip: string, u: User, initToken: Token)
    requires v.UsersValid() && v.failures == map[] && Enrolling(v, u, initToken)
    modifies v`users, v`initTokens, v`failures
    ensures v.UsersValid() && v.failures == map[]
    ensures v.users == old(v.users)[u := old(v.users)[u].(totpBound := true)] && v.initTokens == old(v.initTokens)
  {
    var verified := v.VerifyTotp(initToken, ip, CodeOf(v.users[u].secret), NOW);
  }

  method Draw(v: VaultState, purpose: Purpose, id: ChallengeId, now: Seconds)
    requires v.PoolValid() && |v.challenges| < MAX_CHALLENGES && id !in v.drawn
    modifies v`challenges, v`drawn
    ensures v.PoolValid() && |v.challenges| <= |old(v.challenges)| + 1 && v.drawn == old(v.drawn)[id := purpose]
    ensures v.Spendable(id, purpose, now)
  {
    var drawn := v.IssueChallenge(purpose, id, now);
  }

  method Bind(v: VaultState, ip: string, u: User, initToken: Token, id: ChallengeId)
    requires v.UsersValid() && v.PoolValid() && v.Spendable(id, ForCertBind, NOW) && Enrolling(v, u, initToken)
    modifies v`users, v`initTokens, v`challenges, v`spent
    ensures v.UsersValid() && v.PoolValid() && |v.challenges| == |old(v.challenges)|
    ensures v.users == old(v.users)[u := old(v.users)[u].(cert := Some(CERT))]
    ensures v.initTokens == old(v.initTokens) - {initToken}
  {
    assert v.Target(initToken, ip, NOW) == Some((u, ByInit));
    var bound := v.BindCert(initToken, ip, id, CERT, true, true, NOW);
  }

  method DrawAndBind(v: VaultState, ip: string, u: User, initToken: Token, id: ChallengeId)
    requires v.UsersValid() && v.PoolValid() && |v.challenges| < MAX_CHALLENGES
    requires Enrolling(v, u, initToken) && id !in v.drawn
    modifies v`users, v`initTokens, v`challenges, v`drawn, v`spent
    ensures v.UsersValid() && v.PoolValid() && |v.challenges| <= |old(v.challenges)| + 1
    ensures v.users == old(v.users)[u := old(v.users)[u].(cert := Some(CERT))]
    ensures v.initTokens == old(v.initTokens) - {initToken} && v.drawn == old(v.drawn)[id := ForCertBind]
  {
    Draw(v, ForCertBind, id, NOW);
    Bind(v, ip, u, initToken, id);
  }

  /** Confirming the code and binding a certificate with an onboarding token. */
  method Enrol(v: VaultState, ip: string, u: User, host: User, initToken: Token, id: ChallengeId)
    requires v.UsersValid() && v.PoolValid() && v.failures == map[] && |v.challenges| < MAX_CHALLENGES
    requires Enrolling(v, u, initToken) && v.initTokens.Keys == {initToken} && id !in v.drawn
    requires host in v.users
    modifies v`users, v`initTokens, v`failures, v`challenges, v`drawn, v`spent
    ensures v.UsersValid() && v.PoolValid() && v.failures == map[] && |v.challenges| <= |old(v.challenges)| + 1
    ensures u in v.users && v.users[u] == Enrolled(old(v.users)[u]) && host in v.users
    ensures v.initTokens == map[] && v.drawn == old(v.drawn)[id := ForCertBind]
  {
    Confirm(v, ip, u, initToken);
    DrawAndBind(v, ip, u, initToken, id);
  }

  /** A user with everything in order, and the code of the moment. */
  ghost predicate Ready(v: VaultState, u: User, password: string, code: Code, now: Seconds)
    reads v
  {
    v.initialized && v.FactorsHold(u, password, code, true, now) && v.passwordExpire == 0
  }

  method Open(v: VaultState, ip: string, u: User, password: string, code: Code, id: ChallengeId, session: Token,
              now: Seconds)
    requires v.UsersValid() && v.PoolValid()
    requires Ready(v, u, password, code, now) && v.failures == map[] && v.Spendable(id, ForUnlock, now)
    modifies v`users, v`passwords, v`sessions, v`masterKey, v`loading, v`failures, v`issued, v`tenures, v`challenges,
             v`spent
    ensures v.PoolValid() && v.failures == map[] && |v.challenges| == |old(v.challenges)|
    ensures v.Book() == Unlocked(v.Policy(), old(v.Book()), u, "", 0, code, session, ip, now)
  {
    var r := v.Unlock(u, password, code, true, "", ip, id, 0, session, now);
  }

  /** Drawing the challenge and unlocking. */
  method UnlockOnce(v: VaultState, ip: string, u: User, password: string, code: Code, id: ChallengeId, session: Token,
                    now: Seconds)
    requires v.UsersValid() && v.PoolValid()
    requires Ready(v, u, password, code, now) && v.failures == map[]
    requires |v.challenges| < MAX_CHALLENGES && id !in v.drawn
    modifies v`users, v`passwords, v`sessions, v`masterKey, v`loading, v`failures, v`issued, v`tenures, v`challenges,
             v`spent, v`drawn
    ensures v.PoolValid() && v.failures == map[] && |v.challenges| <= |old(v.challenges)| + 1
    ensures v.drawn == old(v.drawn)[id := ForUnlock]
    ensures v.Book() == Unlocked(v.Policy(), old(v.Book()), u, "", 0, code, session, ip, now)
  {
    Draw(v, ForUnlock, id, now);
    Open(v, ip, u, password, code, id, session, now);
  }

  /** An unlock without a change of password, field by field. */
  lemma UnlockedFields(rules: Rules, a: Ledger, u: User, code: Code, token: Token, ip: string, now: Seconds)
    requires u in a.users && rules.passwordExpire == 0
    ensures var b := Unlocked(rules, a, u, "", 0, code, token, ip, now);
            && b.masterKey == Some(a.root) && b.issued == a.issued + {token}
            && b.users == a.users[u := a.users[u].(lastWindow := Window(now))] && b.passwords == a.passwords
            && b.tenures == a.tenures[u := Recorded(History(a.tenures, u), Use(Window(now), code))]
            && b.sessions == a.sessions[token := VaultSession(u, ip, false, None, now, now + rules.idleTimeout)]
  {
  }

  /** Users and sessions stay sound when a window is used up and a session begins. */
  lemma UseSound(a: Ledger, u: User, use: Use, token: Token, s: VaultSession, idle: Seconds)
    requires UsersSound(a.users, a.passwords, a.tenures, a.root) && u in a.users && a.users[u].lastWindow < use.window
    requires SessionsSound(a.sessions, a.root, a.issued, a.revoked, idle) && a.revoked <= a.issued
    requires token !in a.issued && !s.recovery && s.expiresAt == s.lastActive + idle
    ensures UsersSound(a.users[u := a.users[u].(lastWindow := use.window)], a.passwords,
                       a.tenures[u := Recorded(History(a.tenures, u), use)], a.root)
    ensures SessionsSound(a.sessions[token := s], a.root, a.issued + {token}, a.revoked, idle)
  {
    RecordedSound(a.tenures[u], a.users[u].lastWindow, use);
  }

  /** Who may add users: an unlocked session of the host. */
  ghost predicate Hosted(v: VaultState, host: User, session: Token, ip: string)
    reads v
  {
    v.UnlockedBy(session, ip, NOW) && v.sessions[session].user == host && host in v.users
  }

  method Add(v: VaultState, host: User, hostSession: Token, ip: string, guest: User, password: string, secret: nat,
             initToken: Token)
    requires v.UsersValid() && v.RootValid() && Hosted(v, host, hostSession, ip) && v.initTokens == map[]
    requires guest != "" && guest !in v.users && StrongPassword(password, v.minLength) && v.FreshToken(initToken)
    modifies v`users, v`passwords, v`tenures, v`initTokens
    ensures v.UsersValid() && Enrolling(v, guest, initToken) && v.initTokens.Keys == {initToken} && host in v.users
    ensures v.users[guest] == NewUser(password, 0, secret, v.root, NOW)
    ensures guest in v.passwords && v.passwords[guest] == password
    ensures v.tenures == old(v.tenures)[guest := VaultLedger.Joined(History(old(v.tenures), guest))]
  {
    var added := v.AddUser(hostSession, ip, guest, password, 0, secret, initToken, NOW);
  }

  lemma EnrolledReady(v: VaultUser, password: string, secret: nat, mk: Key)
    requires v == NewUser(password, 0, secret, mk, NOW)
    ensures Enrolled(v).totpBound && Enrolled(v).cert.Some? && Fits(CodeOf(secret), Enrolled(v), NOW)
  {
  }

  /** Adding the guest and setting it up. */
  method Invite(v: VaultState, host: User, hostSession: Token, ip: string, guest: User, password: string, secret: nat,
                initToken: Token, id: ChallengeId)
    requires v.UsersValid() && v.RootValid() && Hosted(v, host, hostSession, ip)
    requires v.PoolValid() && v.failures == map[] && |v.challenges| < MAX_CHALLENGES && id !in v.drawn
    requires v.initTokens == map[]
    requires guest != "" && guest !in v.users && StrongPassword(password, v.minLength) && v.FreshToken(initToken)
    modifies v`users, v`passwords, v`tenures, v`initTokens, v`failures, v`challenges, v`drawn, v`spent
    ensures v.UsersValid() && v.PoolValid() && v.failures == map[] && |v.challenges| <= |old(v.challenges)| + 1
    ensures v.initTokens == map[] && v.drawn == old(v.drawn)[id := ForCertBind]
    ensures host in v.users && v.FactorsHold(guest, password, CodeOf(secret), true, NOW)
    ensures v.tenures == old(v.tenures)[guest := VaultLedger.Joined(History(old(v.tenures), guest))]
  {
    Add(v, host, hostSession, ip, guest, password, secret, initToken);
    EnrolledReady(v.users[guest], password, secret, v.root);
    Enrol(v, ip, guest, host, initToken, id);
    assert v.users[guest].totpBound && v.users[guest].cert.Some? && Fits(CodeOf(secret), v.users[guest], NOW);
  }

  /** The same field by field. */
  method UnlockFields(v: VaultState, ip: string, u: User, password: string, code: Code, id: ChallengeId, session: Token,
                      now: Seconds)
    requires v.UsersValid() && v.PoolValid()
    requires Ready(v, u, password, code, now) && v.failures == map[]
    requires |v.challenges| < MAX_CHALLENGES && id !in v.drawn
    modifies v`users, v`passwords, v`sessions, v`masterKey, v`loading, v`failures, v`issued, v`tenures, v`challenges,
             v`spent, v`drawn
    ensures v.PoolValid()
    ensures v.masterKey == Some(v.root) && v.issued == old(v.issued) + {session}
    ensures v.sessions == old(v.sessions)[session := VaultSession(u, ip, false, None, now, now + v.idleTimeout)]
    ensures u in old(v.users) && v.users == old(v.users)[u := old(v.users)[u].(lastWindow := Window(now))]
    ensures v.passwords == old(v.passwords)
    ensures v.tenures == old(v.tenures)[u := Recorded(History(old(v.tenures), u), Use(Window(now), code))]
    ensures v.failures == map[] && |v.challenges| <= |old(v.challenges)| + 1 && v.drawn == old(v.drawn)[id := ForUnlock]
  {
    UnlockedFields(v.Policy(), v.Book(), u, code, session, ip, now);
    UnlockOnce(v, ip, u, password, code, id, session, now);
  }

  /** From a sound vault to a sound vault. */
  method UnlockPlainly(v: VaultState, ip: string, u: User, password: string, code: Code, id: ChallengeId,
                       session: Token, now: Seconds)
    requires v.UsersValid() && v.SessionsValid() && v.PoolValid() && session !in v.issued
    requires Ready(v, u, password, code, now) && v.failures == map[]
    requires |v.challenges| < MAX_CHALLENGES && id !in v.drawn
    modifies v`users, v`passwords, v`sessions, v`masterKey, v`loading, v`failures, v`issued, v`tenures, v`challenges,
             v`spent, v`drawn
    ensures v.UsersValid() && v.SessionsValid() && v.PoolValid()
    ensures v.masterKey == Some(v.root) && v.issued == old(v.issued) + {session}
    ensures v.sessions == old(v.sessions)[session := VaultSession(u, ip, false, None, now, now + v.idleTimeout)]
    ensures u in old(v.users) && v.users == old(v.users)[u := old(v.users)[u].(lastWindow := Window(now))]
    ensures v.passwords == old(v.passwords)
    ensures v.tenures == old(v.tenures)[u := Recorded(History(old(v.tenures), u), Use(Window(now), code))]
    ensures v.failures == map[] && |v.challenges| <= |old(v.challenges)| + 1 && v.drawn == old(v.drawn)[id := ForUnlock]
  {
    UseSound(v.Book(), u, Use(Window(now), code), session, VaultSession(u, ip, false, None, now, now + v.idleTimeout),
             v.idleTimeout);
    UnlockFields(v, ip, u, password, code, id, session, now);
  }

  /** Every token drawn for a session so far is below n. */
  ghost predicate TokensBelow(sessions: Sessions, issued: set<Token>, n: Token) {
    (forall t :: t in sessions ==> t < n) && (forall t :: t in issued ==> t < n)
  }

  lemma OneTokenMore(sessions: Sessions, issued: set<Token>, n: Token, s: VaultSession)
    requires TokensBelow(sessions, issued, n)
    ensures TokensBelow(sessions[n := s], issued + {n}, n + 1)
  {
  }

  /** A user unlocks: one more window in its latest tenure, and one more session beside the host's. */
  method Enter(v: VaultState, host: User, hostSession: Token, ip: string, u: User, password: string, code: Code,
               id: ChallengeId, session: Token)
    requires v.UsersValid() && v.SessionsValid() && v.PoolValid() && Ready(v, u, password, code, NOW)
    requires Hosted(v, host, hostSession, ip) && TokensBelow(v.sessions, v.issued, session)
    requires v.failures == map[] && |v.challenges| < MAX_CHALLENGES && id !in v.drawn
    modifies v`users, v`passwords, v`sessions, v`masterKey, v`loading, v`failures, v`issued, v`tenures, v`challenges,
             v`spent, v`drawn
    ensures v.UsersValid() && v.SessionsValid() && v.PoolValid() && v.masterKey == Some(v.root)
    ensures Hosted(v, host, hostSession, ip) && u in v.users && TokensBelow(v.sessions, v.issued, session + 1)
    ensures v.failures == map[] && |v.challenges| <= |old(v.challenges)| + 1
    ensures v.drawn == old(v.drawn)[id := ForUnlock]
    ensures v.tenures == old(v.tenures)[u := Recorded(History(old(v.tenures), u), Use(WINDOW, code))]
  {
    OneTokenMore(v.sessions, v.issued, session, VaultSession(u, ip, false, None, NOW, NOW + v.idleTimeout));
    UnlockPlainly(v, ip, u, password, code, id, session, NOW);
  }

  /** The same, with the root keys still sound. */
  method EnterWell(v: VaultState, host: User, hostSession: Token, ip: string, u: User, password: string, code: Code,
                   id: ChallengeId, session: Token)
    requires v.UsersValid() && v.RootValid() && v.SessionsValid() && v.PoolValid() && Ready(v, u, password, code, NOW)
    requires Hosted(v, host, hostSession, ip) && TokensBelow(v.sessions, v.issued, session)
    requires v.failures == map[] && |v.challenges| < MAX_CHALLENGES && id !in v.drawn
    modifies v`users, v`passwords, v`sessions, v`masterKey, v`loading, v`failures, v`issued, v`tenures, v`challenges,
             v`spent, v`drawn
    ensures v.UsersValid() && v.RootValid() && v.SessionsValid() && v.PoolValid()
    ensures Hosted(v, host, hostSession, ip) && u in v.users && TokensBelow(v.sessions, v.issued, session + 1)
    ensures v.failures == map[] && |v.challenges| <= |old(v.challenges)| + 1
    ensures v.drawn == old(v.drawn)[id := ForUnlock]
    ensures v.tenures == old(v.tenures)[u := Recorded(History(old(v.tenures), u), Use(WINDOW, code))]
  {
    Enter(v, host, hostSession, ip, u, password, code, id, session);
    assert TreeSound(v.recovery, v.indexWrap, v.masterKey, v.root, v.indexKey);
  }

  lemma FirstUse(ts: Tenures, use: Use)
    ensures Recorded(VaultLedger.Joined(ts), use) == ts + [[use]]
  {
    var joined := VaultLedger.Joined(ts);
    assert joined[..|ts|] == ts;
    assert joined[|ts|] + [use] == [use];
  }

  /** A sound vault with a host in it, nothing limited or half set up, and ids and tokens from id and n on unused. */
  ghost predicate Calm(v: VaultState, host: User, hostSession: Token, ip: string, id: ChallengeId, n: Token)
    reads v
  {
    && v.UsersValid() && v.RootValid() && v.SessionsValid() && v.PoolValid() && Hosted(v, host, hostSession, ip)
    && v.initTokens == map[] && v.failures == map[] && v.passwordExpire == 0
    && (forall c :: c in v.drawn ==> c < id) && TokensBelow(v.sessions, v.issued, n)
  }

  /** The same, with root keys and sessions still sound. */
  method InviteWell(v: VaultState, host: User, hostSession: Token, ip: string, guest: User, password: string,
                    secret: nat, initToken: Token, id: ChallengeId)
    requires v.UsersValid() && v.RootValid() && v.SessionsValid() && Hosted(v, host, hostSession, ip)
    requires v.PoolValid() && v.failures == map[] && |v.challenges| < MAX_CHALLENGES && id !in v.drawn
    requires guest != "" && guest !in v.users && StrongPassword(password, v.minLength) && v.FreshToken(initToken)
    requires v.initTokens == map[]
    modifies v`users, v`passwords, v`tenures, v`initTokens, v`failures, v`challenges, v`drawn, v`spent
    ensures v.UsersValid() && v.RootValid() && v.SessionsValid() && v.PoolValid()
    ensures v.failures == map[] && |v.challenges| <= |old(v.challenges)| + 1
    ensures v.initTokens == map[] && v.drawn == old(v.drawn)[id := ForCertBind]
    ensures host in v.users && v.FactorsHold(guest, password, CodeOf(secret), true, NOW)
    ensures v.tenures == old(v.tenures)[guest := VaultLedger.Joined(History(old(v.tenures), guest))]
  {
    Invite(v, host, hostSession, ip, guest, password, secret, initToken, id);
    assert TreeSound(v.recovery, v.indexWrap, v.masterKey, v.root, v.indexKey);
    assert SessionsSound(v.sessions, v.root, v.issued, v.revoked, v.idleTimeout);
  }

  method Join(v: VaultState, host: User, hostSession: Token, ip: string, guest: User, password: string, secret: nat,
              id: ChallengeId, n: Token)
    requires Calm(v, host, hostSession, ip, id, n) && |v.challenges| < MAX_CHALLENGES
    requires guest != "" && guest !in v.users && StrongPassword(password, v.minLength)
    modifies v`users, v`passwords, v`tenures, v`initTokens, v`failures, v`challenges, v`drawn, v`spent
    ensures Calm(v, host, hostSession, ip, id + 1, n) && |v.challenges| <= |old(v.challenges)| + 1
    ensures v.FactorsHold(guest, password, CodeOf(secret), true, NOW)
    ensures History(v.tenures, guest) == VaultLedger.Joined(History(old(v.tenures), guest))
  {
    assert v.FreshToken(n);
    InviteWell(v, host, hostSession, ip, guest, password, secret, n, id);
  }

  method Start(v: VaultState, host: User, hostSession: Token, ip: string, u: User, password: string, code: Code,
               id: ChallengeId, n: Token)
    requires Calm(v, host, hostSession, ip, id, n) && |v.challenges| < MAX_CHALLENGES
    requires v.FactorsHold(u, password, code, true, NOW)
    modifies v`users, v`passwords, v`sessions, v`masterKey, v`loading, v`failures, v`issued, v`tenures, v`challenges,
             v`spent, v`drawn
    ensures Calm(v, host, hostSession, ip, id + 1, n + 1) && |v.challenges| <= |old(v.challenges)| + 1 && u in v.users
    ensures History(v.tenures, u) == Recorded(History(old(v.tenures), u), Use(WINDOW, code))
  {
    EnterWell(v, host, hostSession, ip, u, password, code, id, n);
  }

  method Leave(v: VaultState, host: User, hostSession: Token, ip: string, guest: User, id: ChallengeId, n: Token)
    requires Calm(v, host, hostSession, ip, id, n) && guest in v.users && guest != host
    modifies v`users, v`passwords, v`sessions, v`revoked, v`masterKey
    ensures Calm(v, host, hostSession, ip, id, n) && guest !in v.users
  {
    TwoKeys(v.users, host, guest);
    var removed := v.RemoveUser(hostSession, ip, guest, NOW);
    assert hostSession in UnlockedSessions(v.sessions);
  }

  lemma TwoKeys<K, V>(m: map<K, V>, a: K, b: K)
    requires a in m && b in m && a != b
    ensures |m| > 1
  {
    assert |m.Keys - {a} - {b}| == |m.Keys| - 2;
  }

  /** A guest is added, set up and unlocks once. */
  method Visit(v: VaultState, host: User, hostSession: Token, ip: string, guest: User, password: string, secret: nat,
               id: ChallengeId, n: Token)
    requires Calm(v, host, hostSession, ip, id, n) && |v.challenges| + 2 <= MAX_CHALLENGES
    requires guest != "" && guest !in v.users && StrongPassword(password, v.minLength)
    modifies v
    ensures Calm(v, host, hostSession, ip, id + 2, n + 1) && |v.challenges| <= |old(v.challenges)| + 2
    ensures guest in v.users
    ensures History(v.tenures, guest) == History(old(v.tenures), guest) + [[Use(WINDOW, CodeOf(secret))]]
  {
    FirstUse(History(v.tenures, guest), Use(WINDOW, CodeOf(secret)));
    Join(v, host, hostSession, ip, guest, password, secret, id, n);
    Start(v, host, hostSession, ip, guest, password, CodeOf(secret), id + 1, n);
  }

  method VisitBriefly(v: VaultState, host: User, hostSession: Token, ip: string, guest: User, password: string,
                      secret: nat, id: ChallengeId, n: Token)
    requires Calm(v, host, hostSession, ip, id, n) && |v.challenges| + 2 <= MAX_CHALLENGES
    requires guest != "" && guest != host && guest !in v.users && StrongPassword(password, v.minLength)
    modifies v
    ensures Calm(v, host, hostSession, ip, id + 2, n + 1) && |v.challenges| <= |old(v.challenges)| + 2
    ensures guest !in v.users
    ensures History(v.tenures, guest) == History(old(v.tenures), guest) + [[Use(WINDOW, CodeOf(secret))]]
  {
    Visit(v, host, hostSession, ip, guest, password, secret, id, n);
    Leave(v, host, hostSession, ip, guest, id + 2, n + 1);
  }

  /** A name that is removed and added again unlocks twice in one window: two tenures, each with that window. */
  method VisitTwice(v: VaultState, host: User, hostSession: Token, ip: string, guest: User, password: string,
                    first: nat, second: nat, id: ChallengeId, n: Token)
    requires Calm(v, host, hostSession, ip, id, n) && |v.challenges| + 4 <= MAX_CHALLENGES
    requires guest != "" && guest != host && guest !in v.users && History(v.tenures, guest) == []
    requires StrongPassword(password, v.minLength)
    modifies v
    ensures History(v.tenures, guest) == [[Use(WINDOW, CodeOf(first))], [Use(WINDOW, CodeOf(second))]]
  {
    VisitBriefly(v, host, hostSession, ip, guest, password, first, id, n);
    Visit(v, host, hostSession, ip, guest, password, second, id + 2, n + 1);
  }

  /** A new vault. */
  ghost predicate Blank(v: VaultState)
    reads v
  {
    && v.Valid() && !v.initialized && v.sessions == map[] && v.issued == {} && v.passwordExpire == 0
    && v.initTokens == map[] && v.failures == map[] && v.challenges == map[] && v.drawn == map[] && v.tenures == map[]
  }

  /** A user with everything in order whose secret is the first one drawn. */
  ghost predicate Settled(v: VaultState, u: User, password: string)
    reads v
  {
    && v.initialized && v.passwordExpire == 0 && u in v.users && u in v.passwords && v.passwords[u] == password
    && v.users[u].totpBound && v.users[u].cert.Some? && v.users[u].secret == 0
  }

  /** The first user is set up, and nothing else has happened. */
  ghost predicate Seated(v: VaultState, host: User, password: string)
    reads v
  {
    && v.UsersValid() && v.RootValid() && v.SessionsValid() && v.PoolValid() && Settled(v, host, password)
    && v.tenures == map[host := [[]]] && v.users[host].lastWindow == 0
    && v.sessions == map[] && v.issued == {} && v.initTokens == map[] && v.failures == map[] && |v.challenges| <= 1
    && (forall c :: c in v.drawn ==> c < 1)
  }

  method SetUp(v: VaultState, host: User, password: string, ip: string)
    requires Blank(v) && host != "" && StrongPassword(password, v.minLength)
    modifies v
    ensures Seated(v, host, password)
  {
    Plant(v, host, password);
    Furnish(v, host, password, ip);
  }

  method Furnish(v: VaultState, host: User, password: string, ip: string)
    requires v.UsersValid() && v.RootValid() && v.SessionsValid() && v.PoolValid() && v.initialized
    requires Enrolling(v, host, 0) && v.initTokens.Keys == {0} && v.users[host] == NewUser(password, 0, 0, v.root, NOW)
    requires host in v.passwords && v.passwords[host] == password && v.tenures == map[host := [[]]]
    requires v.sessions == map[] && v.issued == {} && v.failures == map[] && v.challenges == map[] && v.drawn == map[]
    requires v.passwordExpire == 0
    modifies v`users, v`initTokens, v`failures, v`challenges, v`drawn, v`spent
    ensures Seated(v, host, password)
  {
    Enrol(v, ip, host, host, 0, 0);
  }

  method Plant(v: VaultState, host: User, password: string)
    requires Blank(v) && host != "" && StrongPassword(password, v.minLength)
    modifies v`users, v`passwords, v`tenures, v`recovery, v`indexWrap, v`initialized, v`root, v`indexKey, v`initTokens
    ensures v.UsersValid() && v.RootValid() && v.SessionsValid() && v.initialized && Enrolling(v, host, 0)
    ensures v.initTokens.Keys == {0} && v.users[host] == NewUser(password, 0, 0, v.root, NOW)
    ensures host in v.passwords && v.passwords[host] == password && v.tenures == map[host := [[]]]
  {
    assert VaultLedger.Joined(History(v.tenures, host)) == [[]];
    var made := v.Init(host, password, Random(1), Random(2), 0, 0, 3, 0, NOW);
  }

  /** The first user unlocks and from then on may host others. */
  method MoveIn(v: VaultState, host: User, password: string, ip: string)
    requires Seated(v, host, password)
    modifies v`users, v`passwords, v`sessions, v`masterKey, v`loading, v`failures, v`issued, v`tenures, v`challenges,
             v`spent, v`drawn
    ensures Calm(v, host, 1, ip, 2, 2) && |v.challenges| <= 2 && forall u :: u in v.tenures ==> u == host
  {
    FirstUnlock(v, host, password, ip);
    Alone(v, host, ip);
    assert TreeSound(v.recovery, v.indexWrap, v.masterKey, v.root, v.indexKey);
  }

  lemma Alone(v: VaultState, host: User, ip: string)
    requires v.sessions == map[1 := VaultSession(host, ip, false, None, NOW, NOW + v.idleTimeout)] && v.issued == {1}
    requires v.masterKey.Some? && host in v.users
    ensures Hosted(v, host, 1, ip) && TokensBelow(v.sessions, v.issued, 2)
  {
  }

  method FirstUnlock(v: VaultState, host: User, password: string, ip: string)
    requires v.UsersValid() && v.SessionsValid() && v.PoolValid() && Settled(v, host, password) && v.failures == map[]
    requires v.users[host].lastWindow == 0
    requires v.sessions == map[] && v.issued == {} && |v.challenges| <= 1 && 1 !in v.drawn
    modifies v`users, v`passwords, v`sessions, v`masterKey, v`loading, v`failures, v`issued, v`tenures, v`challenges,
             v`spent, v`drawn
    ensures v.UsersValid() && v.SessionsValid() && v.PoolValid() && v.masterKey == Some(v.root)
    ensures v.sessions == map[1 := VaultSession(host, ip, false, None, NOW, NOW + v.idleTimeout)] && v.issued == {1}
    ensures v.failures == map[] && |v.challenges| <= 2 && v.drawn == old(v.drawn)[1 := ForUnlock] && host in v.users
    ensures forall u :: u in v.tenures ==> u == host || u in old(v.tenures)
  {
    UnlockPlainly(v, ip, host, password, CodeOf(0), 1, 1, NOW);
  }

  /** From an empty vault on: a name that unlocks twice in one window, in two memberships. */
  method ReaddedUserReusesWindow(host: User, guest: User, password: string, ip: string) returns (v: VaultState)
    requires host != "" && guest != "" && host != guest && StrongPassword(password, 4)
    ensures History(v.tenures, guest) == [[Use(WINDOW, CodeOf(1))], [Use(WINDOW, CodeOf(2))]]
  {
    v := new VaultState(30 * 60, 5, 15 * 60, 4, 0, false, false);
    SetUp(v, host, password, ip);
    MoveIn(v, host, password, ip);
    VisitTwice(v, host, 1, ip, guest, password, 1, 2, 2, 2);
  }

  /** A sound vault whose first user is set up, with ids and tokens from n on unused. */
  ghost predicate Steady(v: VaultState, host: User, password: string, n: nat)
    reads v
  {
    && v.UsersValid() && v.SessionsValid() && v.PoolValid() && v.failures == map[] && Settled(v, host, password)
    && |v.challenges| <= n && (forall c :: c in v.drawn ==> c < n) && (forall t :: t in v.issued ==> t < n)
  }

  /** The host's next unlock. */
  method Again(v: VaultState, host: User, password: string, code: Code, ip: string, n: nat, now: Seconds,
               ghost uses: seq<Use>)
    requires Steady(v, host, password, n) && n < MAX_CHALLENGES && Fits(code, v.users[host], now)
    requires History(v.tenures, host) == [uses]
    modifies v`users, v`passwords, v`sessions, v`masterKey, v`loading, v`failures, v`issued, v`tenures, v`challenges,
             v`spent, v`drawn
    ensures Steady(v, host, password, n + 1) && v.users[host].lastWindow == Window(now)
    ensures History(v.tenures, host) == [uses + [Use(Window(now), code)]]
  {
    OneTenure(uses, Use(Window(now), code));
    UnlockPlainly(v, ip, host, password, code, n, n, now);
  }

  lemma OneTenure(uses: seq<Use>, use: Use)
    ensures Recorded([uses], use) == [uses + [use]]
  {
    assert [uses][..0] == [];
  }

  /** One code, shown in k windows in a row. */
  function Shown(code: Code, k: nat): seq<Use> {
    if k == 0 then [] else Shown(code, k - 1) + [Use(WINDOW + k - 1, code)]
  }

  lemma ShownThrice(code: Code)
    ensures Shown(code, 3) == [Use(WINDOW, code), Use(WINDOW + 1, code), Use(WINDOW + 2, code)]
  {
    assert Shown(code, 1) == [Use(WINDOW, code)] && Shown(code, 2) == [Use(WINDOW, code), Use(WINDOW + 1, code)];
  }

  /** The host's unlock in the k-th window after the first. */
  method InNextWindow(v: VaultState, host: User, password: string, code: Code, ip: string, k: nat)
    requires Steady(v, host, password, k + 1) && v.users[host].lastWindow < WINDOW + k && k < 3
    requires code == Code(0, WINDOW + 1) && History(v.tenures, host) == [Shown(code, k)]
    modifies v`users, v`passwords, v`sessions, v`masterKey, v`loading, v`failures, v`issued, v`tenures, v`challenges,
             v`spent, v`drawn
    ensures Steady(v, host, password, k + 2) && v.users[host].lastWindow == WINDOW + k
    ensures History(v.tenures, host) == [Shown(code, k + 1)]
  {
    assert Window(NOW + k * TOTP_PERIOD) == WINDOW + k;
    Again(v, host, password, code, ip, k + 1, NOW + k * TOTP_PERIOD, Shown(code, k));
  }

  /** The host's unlocks in the first k windows. */
  method InWindows(v: VaultState, host: User, password: string, code: Code, ip: string, k: nat)
    requires Steady(v, host, password, 1) && v.users[host].lastWindow == 0 && k <= 3
    requires code == Code(0, WINDOW + 1) && History(v.tenures, host) == [[]]
    modifies v`users, v`passwords, v`sessions, v`masterKey, v`loading, v`failures, v`issued, v`tenures, v`challenges,
             v`spent, v`drawn
    ensures Steady(v, host, password, k + 1) && v.users[host].lastWindow < WINDOW + k
    ensures History(v.tenures, host) == [Shown(code, k)]
  {
    if k > 0 {
      InWindows(v, host, password, code, ip, k - 1);
      InNextWindow(v, host, password, code, ip, k - 1);
    }
  }

  /** From an empty vault on: one code that unlocks in the window before its step, in its own, and in the one after. */
  method OneCodeUnlocksThrice(host: User, password: string, ip: string) returns (v: VaultState)
    requires host != "" && StrongPassword(password, 4)
    ensures var code := Code(0, WINDOW + 1);
            History(v.tenures, host) == [[Use(WINDOW, code), Use(WINDOW + 1, code), Use(WINDOW + 2, code)]]
  {
    v := new VaultState(30 * 60, 5, 15 * 60, 4, 0, false, false);
    SetUp(v, host, password, ip);
    ShownThrice(Code(0, WINDOW + 1));
    InWindows(v, host, password, Code(0, WINDOW + 1), ip, 3);
  }
}
