/**
 What the vault's policies come to over every run: how old a password may be, how strong it is, when the master key is
 in memory, when data may be read and from where, and what onboarding and recovery are good for.
 */
module VaultPolicy {
  import opened Common
  import opened Sealing
  import opened VaultLedger
  import opened VaultRuns

  // ---------- the age of passwords ----------

  lemma UnlockStep(rules: Rules, h: seq<Event>, n: nat, u: User)
    requires IsHistory(rules, h) && n < |h| && Unlocks(h[n], u)
    ensures var a, e := Before(h, n), h[n];
            && u in a.users && u in a.passwords && u in e.after.users && u in e.after.passwords
            && Grantable(rules, a, e.call) && e.after == Effect(rules, a, e.call)
  {
    StepOf(rules, h, n);
  }

  /**
   With forced expiry an unlock on a password as old as the limit goes through only with a new one in the same request,
   which is then the password; any other unlock leaves the password alone.
   */
  lemma ExpiredIsReplaced(rules: Rules, h: seq<Event>, n: nat, u: User)
    requires IsHistory(rules, h) && n < |h| && Unlocks(h[n], u)
    ensures var a, e := Before(h, n), h[n];
            && u in a.users && u in a.passwords && u in e.after.users && u in e.after.passwords
            && if rules.forceExpire && 0 < rules.passwordExpire <= e.call.now - a.users[u].changedAt then
                 && e.call.req.newPassword != "" && e.after.passwords[u] == e.call.req.newPassword
                 && e.after.users[u].changedAt == e.call.now
               else
                 e.after.passwords[u] == a.passwords[u] && e.after.users[u].changedAt == a.users[u].changedAt
  {
    UnlockStep(rules, h, n, u);
  }

  /** With forced expiry no one is let in on a password set as long ago as the limit. */
  lemma UnlocksOnFreshPassword(rules: Rules, h: seq<Event>, n: nat, u: User) returns (k: nat)
    requires IsHistory(rules, h) && n < |h| && Unlocks(h[n], u) && rules.forceExpire && 0 < rules.passwordExpire
    ensures k <= n && Sets(rules, h, k, u).Some? && forall m :: k < m <= n ==> Sets(rules, h, m, u).None?
    ensures h[n].call.now - h[k].call.now < rules.passwordExpire
  {
    ExpiredIsReplaced(rules, h, n, u);
    StepOf(rules, h, n);
    k := LatestSet(rules, h, n + 1, u);
  }

  // ---------- the strength of passwords ----------

  /** Long enough, with an upper-case letter, a lower-case letter and a digit. */
  ghost predicate Strong(pw: string, minLength: nat) {
    && minLength <= |pw|
    && (exists c :: c in pw && 'A' <= c <= 'Z') && (exists c :: c in pw && 'a' <= c <= 'z')
    && exists c :: c in pw && '0' <= c <= '9'
  }

  lemma StrongIff(pw: string, minLength: nat)
    ensures StrongPassword(pw, minLength) <==> Strong(pw, minLength)
  {
    InIff(pw, 'A', 'Z');
    InIff(pw, 'a', 'z');
    InIff(pw, '0', '9');
  }

  lemma InIff(pw: string, low: char, high: char)
    ensures HasCharIn(pw, low, high) <==> exists c :: c in pw && low <= c <= high
  {
    if i :| 0 <= i < |pw| && low <= pw[i] <= high {
      assert pw[i] in pw;
    }
    if c :| c in pw && low <= c <= high {
      var i :| 0 <= i < |pw| && pw[i] == c;
      assert low <= pw[i] <= high;
    }
  }

  ghost predicate PasswordTook(rules: Rules, a: Ledger, e: Event, u: User)
    requires u in e.after.passwords
  {
    || (u in a.passwords && e.after.passwords[u] == a.passwords[u])
    || StrongPassword(e.after.passwords[u], rules.minLength)
  }

  lemma UnlockPassword(rules: Rules, a: Ledger, e: Event, u: User)
    requires Step(rules, a, e.call, e.ok, e.after) && e.call.req.UnlockVault? && u in e.after.passwords
    ensures PasswordTook(rules, a, e, u)
  {
  }

  lemma KeyPassword(rules: Rules, a: Ledger, e: Event, u: User)
    requires Step(rules, a, e.call, e.ok, e.after) && e.call.req.OnKeys? && u in e.after.passwords
    ensures PasswordTook(rules, a, e, u)
  {
  }

  lemma MemberPassword(rules: Rules, a: Ledger, e: Event, u: User)
    requires Step(rules, a, e.call, e.ok, e.after) && e.call.req.OnUsers? && u in e.after.passwords
    ensures PasswordTook(rules, a, e, u)
  {
  }

  lemma PasswordStep(rules: Rules, h: seq<Event>, n: nat, u: User)
    requires IsHistory(rules, h) && n < |h| && u in h[n].after.passwords
    ensures PasswordTook(rules, Before(h, n), h[n], u) && Before(h, n + 1) == h[n].after
  {
    StepOf(rules, h, n);
    var a, e := Before(h, n), h[n];
    match e.call.req
    case UnlockVault(_, _, _, _, _, _, _, _) => UnlockPassword(rules, a, e, u);
    case OnFactors(_) => FactorShape(rules, a, e);
    case OnKeys(_) => KeyPassword(rules, a, e, u);
    case OnSessions(_) => AccessShape(rules, a, e);
    case OnUsers(_) => MemberPassword(rules, a, e, u);
  }

  /** In every run every password is strong. */
  lemma {:induction false} PasswordsAreStrong(rules: Rules, h: seq<Event>, n: nat, u: User)
    requires IsHistory(rules, h) && n <= |h| && u in Before(h, n).passwords
    ensures Strong(Before(h, n).passwords[u], rules.minLength)
  {
    if n > 0 {
      PasswordStep(rules, h, n - 1, u);
      StrongIff(Before(h, n).passwords[u], rules.minLength);
      if u in Before(h, n - 1).passwords {
        PasswordsAreStrong(rules, h, n - 1, u);
      }
    }
  }

  // ---------- the key in memory and the gate ----------

  predicate Locks(e: Event) {
    e.ok && e.call.req == OnSessions(LockVault)
  }

  predicate EndsLoad(e: Event) {
    e.call.req.OnSessions? && e.call.req.access.LoadEnds?
  }

  predicate LosesSessions(e: Event) {
    e.ok && (e.call.req == OnSessions(Tick) || (e.call.req.OnUsers? && e.call.req.members.RemoveUserNamed?))
  }

  predicate GrantsUnlock(e: Event) {
    e.ok && e.call.req.UnlockVault?
  }

  ghost predicate HasUnlocked(sessions: Sessions) {
    exists t :: t in sessions && !sessions[t].recovery
  }

  /**
   An unlock puts the key into memory and shuts the gate; locking and a failed load take the key away; the sweep and the
   removal of a user take it away exactly when they leave no unlocked session; nothing else touches it.
   */
  ghost predicate KeyTook(a: Ledger, e: Event) {
    var b := e.after;
    if GrantsUnlock(e) then b.masterKey == Some(a.root) && b.loading
    else if Locks(e) then b.masterKey == None && !b.loading
    else if EndsLoad(e) then b.masterKey == (if e.ok then a.masterKey else None) && !b.loading
    else if LosesSessions(e) then
      b.masterKey == (if HasUnlocked(b.sessions) then a.masterKey else None) && b.loading == a.loading
    else b.masterKey == a.masterKey && b.loading == a.loading
  }

  lemma UnlockKey(rules: Rules, a: Ledger, e: Event)
    requires Step(rules, a, e.call, e.ok, e.after) && e.call.req.UnlockVault?
    ensures KeyTook(a, e)
  {
  }

  lemma AccessKey(rules: Rules, a: Ledger, e: Event)
    requires Step(rules, a, e.call, e.ok, e.after) && e.call.req.OnSessions?
    ensures KeyTook(a, e)
  {
    if e.call.req.access == Tick {
      TickKey(rules, a, e);
    }
  }

  lemma TickKey(rules: Rules, a: Ledger, e: Event)
    requires Step(rules, a, e.call, e.ok, e.after) && e.call.req == OnSessions(Tick)
    ensures KeyTook(a, e)
  {
    HasUnlockedIff(e.after.sessions);
  }

  lemma MemberKey(rules: Rules, a: Ledger, e: Event)
    requires Step(rules, a, e.call, e.ok, e.after) && e.call.req.OnUsers?
    ensures KeyTook(a, e)
  {
    HasUnlockedIff(e.after.sessions);
  }

  lemma TreeKey(rules: Rules, a: Ledger, e: Event)
    requires Step(rules, a, e.call, e.ok, e.after) && e.call.req.OnKeys?
    ensures KeyTook(a, e)
  {
  }

  lemma HasUnlockedIff(sessions: Sessions)
    ensures HasUnlocked(sessions) <==> UnlockedSessions(sessions) != {}
  {
    if t :| t in sessions && !sessions[t].recovery {
      assert t in UnlockedSessions(sessions);
    }
  }

  lemma OneKeyStep(rules: Rules, h: seq<Event>, n: nat)
    requires IsHistory(rules, h) && n < |h|
    ensures KeyTook(Before(h, n), h[n]) && Before(h, n + 1) == h[n].after
  {
    StepOf(rules, h, n);
    var a, e := Before(h, n), h[n];
    match e.call.req
    case UnlockVault(_, _, _, _, _, _, _, _) => UnlockKey(rules, a, e);
    case OnFactors(_) => FactorShape(rules, a, e);
    case OnKeys(_) => TreeKey(rules, a, e);
    case OnSessions(_) => AccessKey(rules, a, e);
    case OnUsers(_) => MemberKey(rules, a, e);
  }

  /** Some unlock of the log issued the token, and nothing has ended it. */
  ghost predicate Standing(rules: Rules, h: seq<Event>, n: nat, t: Token) {
    exists k :: Stands(rules, h, k, n, t)
  }

  /** The key outlives a sweep, or the removal of a user, exactly when an unlock of the log still stands after it. */
  lemma KeyOutlivesIff(rules: Rules, h: seq<Event>, n: nat)
    requires IsHistory(rules, h) && 0 < n <= |h| && LosesSessions(h[n - 1])
    ensures h[n - 1].after.masterKey.Some? <==>
            Before(h, n - 1).masterKey.Some? && exists t :: Standing(rules, h, n, t)
  {
    OneKeyStep(rules, h, n - 1);
    var sessions := h[n - 1].after.sessions;
    if t :| t in sessions && !sessions[t].recovery {
      SessionIff(rules, h, n, t);
      assert Standing(rules, h, n, t);
    }
    forall t | Standing(rules, h, n, t) ensures HasUnlocked(sessions) {
      SessionIff(rules, h, n, t);
    }
  }

  lemma {:induction false} StaysShut(rules: Rules, h: seq<Event>, k: nat, n: nat)
    requires IsHistory(rules, h) && k < n <= |h| && GrantsUnlock(h[k])
    requires forall m :: k < m < n ==> !EndsLoad(h[m]) && !Locks(h[m])
    ensures Before(h, n).loading
  {
    OneKeyStep(rules, h, n - 1);
    if k + 1 < n {
      StaysShut(rules, h, k, n - 1);
    }
  }

  /** After an unlock nothing is read before a load has ended or the vault been locked. */
  lemma ReadsWaitForLoad(rules: Rules, h: seq<Event>, k: nat, n: nat, t: Token) returns (m: nat)
    requires IsHistory(rules, h) && k < n < |h| && GrantsUnlock(h[k]) && Uses(h[n], t)
    ensures k < m < n && (EndsLoad(h[m]) || Locks(h[m]))
  {
    StepOf(rules, h, n);
    if exists m :: k < m < n && (EndsLoad(h[m]) || Locks(h[m])) {
      m :| k < m < n && (EndsLoad(h[m]) || Locks(h[m]));
    } else {
      StaysShut(rules, h, k, n);
    }
  }

  lemma {:induction false} StaysLocked(rules: Rules, h: seq<Event>, k: nat, n: nat)
    requires IsHistory(rules, h) && k < n <= |h| && (Locks(h[k]) || (EndsLoad(h[k]) && !h[k].ok))
    requires forall m :: k < m < n ==> !GrantsUnlock(h[m])
    ensures Before(h, n).masterKey == None
  {
    OneKeyStep(rules, h, n - 1);
    if k + 1 < n {
      StaysLocked(rules, h, k, n - 1);
    }
  }

  /** After a lock or a failed load nothing is read before the next unlock. */
  lemma LockedIsNotRead(rules: Rules, h: seq<Event>, k: nat, n: nat, t: Token)
    requires IsHistory(rules, h) && k < n < |h| && (Locks(h[k]) || (EndsLoad(h[k]) && !h[k].ok))
    requires forall m :: k < m < n ==> !GrantsUnlock(h[m])
    ensures !Uses(h[n], t)
  {
    StepOf(rules, h, n);
    StaysLocked(rules, h, k, n);
  }

  /** Where sessions are bound to addresses, data is read from the address of the unlock alone. */
  lemma ReadFromItsAddress(rules: Rules, h: seq<Event>, n: nat, t: Token) returns (k: nat)
    requires IsHistory(rules, h) && n < |h| && Uses(h[n], t)
    ensures Stands(rules, h, k, n, t)
    ensures rules.bindSessionIP && h[k].call.ip != "" ==> h[n].call.ip == h[k].call.ip
  {
    OneToken(rules, h, n, t);
    k := SessionOrigin(rules, h, n, t);
    SessionLasts(rules, h, k, n, t);
    StepOf(rules, h, n);
  }

  // ---------- onboarding tokens ----------

  /** The request that handed out an onboarding token. */
  predicate HandsOut(e: Event, t: Token) {
    e.ok && match e.call.req
            case OnKeys(InitVault(_, _, _, _, _, _, _, initToken)) => initToken == t
            case OnUsers(AddUserTo(_, _, _, _, initToken)) => initToken == t
            case _ => false
  }

  function Newcomer(e: Event): User {
    match e.call.req
    case OnKeys(InitVault(user, _, _, _, _, _, _, _)) => user
    case OnUsers(AddUserTo(user, _, _, _, _)) => user
    case _ => ""
  }

  /** A wrong code that counted against an onboarding token. */
  predicate Misses(a: Ledger, e: Event, t: Token) {
    !e.ok && e.call.req.OnFactors? && e.call.req.factors.VerifyCode? && e.call.token == t && e.after != a
  }

  /** The binding that completes an onboarding. */
  predicate Completes(a: Ledger, e: Event, t: Token) {
    && e.ok && e.call.req.OnFactors? && e.call.req.factors.BindCertTo? && e.call.token == t
    && t in a.initTokens && e.call.now < a.initTokens[t].expires && a.initTokens[t].user in a.users
  }

  /** The step as one onboarding token meets it. */
  ghost predicate InitTook(a: Ledger, e: Event, t: Token) {
    var b := e.after;
    && (HandsOut(e, t) ==>
          t !in a.initTokens && t in b.initTokens && b.initTokens[t] == InitToken(Newcomer(e), e.call.now + 600, 0))
    && (!HandsOut(e, t) && t in b.initTokens ==>
          && t in a.initTokens && !Completes(a, e, t)
          && b.initTokens[t] == a.initTokens[t].(fails := a.initTokens[t].fails + if Misses(a, e, t) then 1 else 0)
          && (Misses(a, e, t) ==> b.initTokens[t].fails < 5))
    && (t in a.initTokens && t !in b.initTokens ==>
          || Completes(a, e, t) || (Misses(a, e, t) && a.initTokens[t].fails + 1 >= 5)
          || (e.call.req == OnSessions(Tick) && e.call.now > a.initTokens[t].expires))
  }

  lemma FactorInit(rules: Rules, a: Ledger, e: Event, t: Token)
    requires Step(rules, a, e.call, e.ok, e.after) && e.call.req.OnFactors?
    ensures InitTook(a, e, t)
  {
    if e.call.req.factors.VerifyCode? {
      VerifyInit(rules, a, e, t);
    }
  }

  lemma VerifyInit(rules: Rules, a: Ledger, e: Event, t: Token)
    requires Step(rules, a, e.call, e.ok, e.after) && e.call.req.OnFactors? && e.call.req.factors.VerifyCode?
    ensures InitTook(a, e, t)
  {
  }

  lemma KeyInit(rules: Rules, a: Ledger, e: Event, t: Token)
    requires Step(rules, a, e.call, e.ok, e.after) && e.call.req.OnKeys?
    ensures InitTook(a, e, t)
  {
  }

  lemma MemberInit(rules: Rules, a: Ledger, e: Event, t: Token)
    requires Step(rules, a, e.call, e.ok, e.after) && e.call.req.OnUsers?
    ensures InitTook(a, e, t)
  {
  }

  lemma AccessInit(rules: Rules, a: Ledger, e: Event, t: Token)
    requires Step(rules, a, e.call, e.ok, e.after) && e.call.req.OnSessions?
    ensures InitTook(a, e, t)
  {
    if e.call.req.access == Tick {
      TickInit(rules, a, e, t);
    }
  }

  lemma TickInit(rules: Rules, a: Ledger, e: Event, t: Token)
    requires Step(rules, a, e.call, e.ok, e.after) && e.call.req == OnSessions(Tick)
    ensures InitTook(a, e, t)
  {
  }

  lemma UnlockInit(rules: Rules, a: Ledger, e: Event, t: Token)
    requires Step(rules, a, e.call, e.ok, e.after) && e.call.req.UnlockVault?
    ensures InitTook(a, e, t)
  {
  }

  lemma OneInitToken(rules: Rules, h: seq<Event>, n: nat, t: Token)
    requires IsHistory(rules, h) && n < |h|
    ensures InitTook(Before(h, n), h[n], t) && Before(h, n + 1) == h[n].after
  {
    StepOf(rules, h, n);
    var a, e := Before(h, n), h[n];
    match e.call.req
    case UnlockVault(_, _, _, _, _, _, _, _) => UnlockInit(rules, a, e, t);
    case OnFactors(_) => FactorInit(rules, a, e, t);
    case OnKeys(_) => KeyInit(rules, a, e, t);
    case OnSessions(_) => AccessInit(rules, a, e, t);
    case OnUsers(_) => MemberInit(rules, a, e, t);
  }

  /** How many wrong codes counted against a token among the requests from k to n. */
  function MissCount(h: seq<Event>, k: nat, n: nat, t: Token): nat
    requires k <= n <= |h|
  {
    if k == n then 0 else MissCount(h, k, n - 1, t) + if Misses(Before(h, n - 1), h[n - 1], t) then 1 else 0
  }

  /** An onboarding token handed out at k is good at n: no binding has used it, and fewer than five codes were wrong. */
  ghost predicate Fresh(h: seq<Event>, k: nat, n: nat, t: Token) {
    && k < n <= |h| && HandsOut(h[k], t) && MissCount(h, k + 1, n, t) < 5
    && forall m :: k < m < n ==> !Completes(Before(h, m), h[m], t)
  }

  lemma {:induction false} InitTokenOrigin(rules: Rules, h: seq<Event>, n: nat, t: Token) returns (k: nat)
    requires IsHistory(rules, h) && n <= |h| && t in Before(h, n).initTokens
    ensures Fresh(h, k, n, t)
    ensures Before(h, n).initTokens[t] == InitToken(Newcomer(h[k]), h[k].call.now + 600, MissCount(h, k + 1, n, t))
  {
    OneInitToken(rules, h, n - 1, t);
    if HandsOut(h[n - 1], t) {
      k := n - 1;
    } else {
      k := InitTokenOrigin(rules, h, n - 1, t);
    }
  }

  /**
   Whoever acts by an onboarding token does so within ten minutes of its being handed out, for the user it was made for,
   before any binding with it and before a fifth wrong code.
   */
  lemma OnboardingIsBrief(rules: Rules, h: seq<Event>, n: nat) returns (k: nat)
    requires IsHistory(rules, h) && n < |h| && SpeaksAsInit(Before(h, n), h[n].call)
    ensures Fresh(h, k, n, h[n].call.token) && Actor(Before(h, n), h[n].call) == Newcomer(h[k])
    ensures h[n].call.now < h[k].call.now + 600
  {
    k := InitTokenOrigin(rules, h, n, h[n].call.token);
  }

  /** A fresh onboarding token is there for its ten minutes. */
  lemma {:induction false} FreshIsThere(rules: Rules, h: seq<Event>, k: nat, n: nat, t: Token)
    requires IsHistory(rules, h) && Fresh(h, k, n, t)
    requires forall m :: k < m < n ==> h[m].call.now <= h[k].call.now + 600
    ensures t in Before(h, n).initTokens
    ensures Before(h, n).initTokens[t] == InitToken(Newcomer(h[k]), h[k].call.now + 600, MissCount(h, k + 1, n, t))
  {
    OneInitToken(rules, h, n - 1, t);
    if k + 1 < n {
      assert MissCount(h, k + 1, n - 1, t) <= MissCount(h, k + 1, n, t);
      FreshIsThere(rules, h, k, n - 1, t);
    }
  }

  // ---------- recovery sessions ----------

  predicate Recovers(e: Event, t: Token) {
    e.ok && e.call.req.OnSessions? && e.call.req.access.RecoverWith? && e.call.req.access.session == t
  }

  /** The session a recovery opens: five minutes, with the key, for the user named if one was. */
  ghost predicate IsRecovery(e: Event, s: VaultSession, key: Key) {
    && e.call.req.OnSessions? && e.call.req.access.RecoverWith?
    && s == VaultSession(s.user, e.call.ip, true, Some(key), e.call.now, e.call.now + 300)
    && (e.call.req.access.user != "" ==> s.user == e.call.req.access.user)
  }

  /** The step as one recovery session meets it: nothing but a sweep after its five minutes ends it. */
  ghost predicate RecoveryTook(a: Ledger, e: Event, t: Token) {
    var b := e.after;
    && (Recovers(e, t) ==> t in b.sessions && IsRecovery(e, b.sessions[t], a.root))
    && (t in a.sessions && a.sessions[t].recovery ==>
          !Recovers(e, t)
          && (t in b.sessions <==> !(e.call.req == OnSessions(Tick) && e.call.now > a.sessions[t].expiresAt))
          && (t in b.sessions ==> b.sessions[t] == a.sessions[t]))
    && (t in b.sessions && b.sessions[t].recovery && !(t in a.sessions && a.sessions[t].recovery) ==> Recovers(e, t))
  }

  lemma AccessRecovery(rules: Rules, a: Ledger, e: Event, t: Token)
    requires LedgerSound(a, rules.idleTimeout) && Step(rules, a, e.call, e.ok, e.after) && e.call.req.OnSessions?
    requires t in a.sessions && a.sessions[t].recovery ==> t !in a.issued
    ensures RecoveryTook(a, e, t)
  {
    match e.call.req.access
    case Tick => TickRecovery(rules, a, e, t);
    case RecoverWith(_, _, _) => OpenRecovery(rules, a, e, t);
    case _ => KeptRecovery(rules, a, e, t);
  }

  lemma OpenRecovery(rules: Rules, a: Ledger, e: Event, t: Token)
    requires Step(rules, a, e.call, e.ok, e.after) && e.call.req.OnSessions? && e.call.req.access.RecoverWith?
    ensures RecoveryTook(a, e, t)
  {
  }

  lemma KeptRecovery(rules: Rules, a: Ledger, e: Event, t: Token)
    requires LedgerSound(a, rules.idleTimeout) && Step(rules, a, e.call, e.ok, e.after) && e.call.req.OnSessions?
    requires t in a.sessions && a.sessions[t].recovery ==> t !in a.issued
    requires e.call.req.access != Tick && !e.call.req.access.RecoverWith?
    ensures RecoveryTook(a, e, t)
  {
  }

  lemma TickRecovery(rules: Rules, a: Ledger, e: Event, t: Token)
    requires Step(rules, a, e.call, e.ok, e.after) && e.call.req == OnSessions(Tick)
    ensures RecoveryTook(a, e, t)
  {
  }

  lemma OtherRecovery(rules: Rules, a: Ledger, e: Event, t: Token)
    requires Step(rules, a, e.call, e.ok, e.after) && !e.call.req.OnSessions?
    ensures RecoveryTook(a, e, t)
  {
    match e.call.req
    case UnlockVault(_, _, _, _, _, _, _, _) =>
    case OnFactors(_) => FactorShape(rules, a, e);
    case OnKeys(_) => KeyRecovery(rules, a, e, t);
    case OnUsers(_) => MemberRecovery(rules, a, e, t);
  }

  lemma KeyRecovery(rules: Rules, a: Ledger, e: Event, t: Token)
    requires Step(rules, a, e.call, e.ok, e.after) && e.call.req.OnKeys?
    ensures RecoveryTook(a, e, t)
  {
  }

  lemma MemberRecovery(rules: Rules, a: Ledger, e: Event, t: Token)
    requires Step(rules, a, e.call, e.ok, e.after) && e.call.req.OnUsers?
    ensures RecoveryTook(a, e, t)
  {
  }

  /** A recovery's token is never one of an unlock. */
  ghost predicate Apart(a: Ledger, t: Token) {
    t in a.sessions && a.sessions[t].recovery ==> t !in a.issued
  }

  lemma AccessApart(rules: Rules, a: Ledger, e: Event, t: Token)
    requires Step(rules, a, e.call, e.ok, e.after) && e.call.req.OnSessions? && Apart(a, t)
    ensures Apart(e.after, t)
  {
    AccessShape(rules, a, e);
    if e.call.req.access == Tick {
      TickRecovery(rules, a, e, t);
    }
  }

  lemma OtherApart(rules: Rules, a: Ledger, e: Event, t: Token)
    requires Step(rules, a, e.call, e.ok, e.after) && !e.call.req.OnSessions? && Apart(a, t)
    ensures Apart(e.after, t)
  {
    OtherRecovery(rules, a, e, t);
    match e.call.req
    case UnlockVault(_, _, _, _, _, _, _, _) =>
    case OnFactors(_) => FactorShape(rules, a, e);
    case OnKeys(_) => KeyIssues(rules, a, e);
    case OnUsers(_) => MemberIssues(rules, a, e);
  }

  lemma KeyIssues(rules: Rules, a: Ledger, e: Event)
    requires Step(rules, a, e.call, e.ok, e.after) && e.call.req.OnKeys?
    ensures e.after.issued == a.issued
  {
  }

  lemma MemberIssues(rules: Rules, a: Ledger, e: Event)
    requires Step(rules, a, e.call, e.ok, e.after) && e.call.req.OnUsers?
    ensures e.after.issued == a.issued
  {
  }

  lemma {:induction false} ApartBefore(rules: Rules, h: seq<Event>, n: nat, t: Token)
    requires IsHistory(rules, h) && n <= |h|
    ensures Apart(Before(h, n), t)
  {
    if n > 0 {
      ApartBefore(rules, h, n - 1, t);
      StepOf(rules, h, n - 1);
      if h[n - 1].call.req.OnSessions? {
        AccessApart(rules, Before(h, n - 1), h[n - 1], t);
      } else {
        OtherApart(rules, Before(h, n - 1), h[n - 1], t);
      }
    }
  }

  lemma OneRecovery(rules: Rules, h: seq<Event>, n: nat, t: Token)
    requires IsHistory(rules, h) && n < |h|
    ensures RecoveryTook(Before(h, n), h[n], t) && Before(h, n + 1) == h[n].after
  {
    StepOf(rules, h, n);
    ApartBefore(rules, h, n, t);
    SoundBefore(rules, h, n);
    if h[n].call.req.OnSessions? {
      AccessRecovery(rules, Before(h, n), h[n], t);
    } else {
      OtherRecovery(rules, Before(h, n), h[n], t);
    }
  }

  /** A recovery at k whose five minutes no sweep has come after. */
  ghost predicate RecoveryStands(h: seq<Event>, k: nat, n: nat, t: Token) {
    && k < n <= |h| && Recovers(h[k], t)
    && forall m :: k < m < n && h[m].call.req == OnSessions(Tick) ==> h[m].call.now <= h[k].call.now + 300
  }

  ghost predicate HoldsRecovery(a: Ledger, e: Event, t: Token) {
    t in a.sessions && a.sessions[t].recovery && a.sessions[t].masterKey.Some?
    && IsRecovery(e, a.sessions[t], a.sessions[t].masterKey.value)
  }

  lemma {:induction false} RecoveryLasts(rules: Rules, h: seq<Event>, k: nat, n: nat, t: Token)
    requires IsHistory(rules, h) && RecoveryStands(h, k, n, t)
    ensures HoldsRecovery(Before(h, n), h[k], t)
  {
    OneRecovery(rules, h, n - 1, t);
    if k + 1 < n {
      RecoveryLasts(rules, h, k, n - 1, t);
    }
  }

  lemma {:induction false} RecoveryOrigin(rules: Rules, h: seq<Event>, n: nat, t: Token) returns (k: nat)
    requires IsHistory(rules, h) && n <= |h| && t in Before(h, n).sessions && Before(h, n).sessions[t].recovery
    ensures RecoveryStands(h, k, n, t)
  {
    OneRecovery(rules, h, n - 1, t);
    if Recovers(h[n - 1], t) {
      k := n - 1;
    } else {
      k := RecoveryOrigin(rules, h, n - 1, t);
      RecoveryLasts(rules, h, k, n - 1, t);
    }
  }

  /** A recovery session is there exactly when a recovery opened it and no sweep has come after its five minutes. */
  lemma RecoveryIff(rules: Rules, h: seq<Event>, n: nat, t: Token)
    requires IsHistory(rules, h) && n <= |h|
    ensures t in Before(h, n).sessions && Before(h, n).sessions[t].recovery <==>
            exists k :: RecoveryStands(h, k, n, t)
  {
    if t in Before(h, n).sessions && Before(h, n).sessions[t].recovery {
      var k := RecoveryOrigin(rules, h, n, t);
    }
    forall k | RecoveryStands(h, k, n, t)
      ensures t in Before(h, n).sessions && Before(h, n).sessions[t].recovery
    {
      RecoveryLasts(rules, h, k, n, t);
    }
  }

  /** Whoever acts by a recovery session does so within five minutes of the recovery. */
  lemma RecoveryIsBrief(rules: Rules, h: seq<Event>, n: nat) returns (k: nat)
    requires IsHistory(rules, h) && n < |h| && Live(rules, Before(h, n), h[n].call)
    requires Before(h, n).sessions[h[n].call.token].recovery
    ensures RecoveryStands(h, k, n, h[n].call.token) && h[n].call.now <= h[k].call.now + 300
  {
    k := RecoveryOrigin(rules, h, n, h[n].call.token);
    RecoveryLasts(rules, h, k, n, h[n].call.token);
  }

  // ---------- sessions cut short ----------

  /** A session that ends before its time takes its token with it: the token counts as revoked from then on. */
  lemma CutIsRevoked(rules: Rules, h: seq<Event>, n: nat, t: Token)
    requires IsHistory(rules, h) && n < |h| && h[n].call.req != OnSessions(Tick)
    requires t in Before(h, n).sessions && !Before(h, n).sessions[t].recovery && t !in h[n].after.sessions
    ensures t in h[n].after.revoked
  {
    StepOf(rules, h, n);
    SoundBefore(rules, h, n);
    OneToken(rules, h, n, t);
  }

  // ---------- one-time codes ----------

  /** A code is good for ninety seconds: its own half minute, the one before and the one after. */
  lemma CodeLifetime(code: Code, secret: nat, now: Seconds)
    ensures Matches(code, secret, now) <==> code.secret == secret && 30 * code.step - 30 <= now < 30 * code.step + 60
  {
  }

  // ---------- failed attempts ----------

  /** What failures at the given times, the first of a new key, leave. */
  function FailedAt(times: seq<Seconds>, maxAttempts: nat, lockout: Seconds): Option<FailEntry> {
    if times == [] then None
    else
      var n := |times| - 1;
      Some(Counted(FailedAt(times[..n], maxAttempts, lockout), times[n], maxAttempts, lockout))
  }

  /** Failures within one window add up, and from the limit on they lock until a lockout after the last. */
  lemma {:induction false} FailuresAddUp(times: seq<Seconds>, maxAttempts: nat, lockout: Seconds)
    requires times != [] && forall i :: 0 <= i < |times| ==> times[0] <= times[i] <= times[0] + lockout
    ensures FailedAt(times, maxAttempts, lockout) ==
            Some(FailEntry(times[0], |times|,
                           if |times| >= maxAttempts then times[|times| - 1] + lockout else 0))
  {
    if |times| > 1 {
      FailuresAddUp(times[..|times| - 1], maxAttempts, lockout);
    }
  }

  /** A failure after the window starts over with a count of one. */
  lemma FailureAfterWindow(e: FailEntry, now: Seconds, maxAttempts: nat, lockout: Seconds)
    requires now > e.windowStart + lockout && maxAttempts > 1
    ensures Counted(Some(e), now, maxAttempts, lockout) == FailEntry(now, 1, 0)
  {
  }
}
