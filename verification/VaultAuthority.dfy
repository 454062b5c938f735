/**
 On whose authority users and their credentials change, told from the log alone: by an onboarding token of the user, by
 a recovery, or by an unlock, each still good and shown from where it may be used.
 */
module VaultAuthority {
  import opened Common
  import opened Sealing
  import opened VaultLedger
  import opened VaultRuns
  import opened VaultPolicy

  /** Request n shows the token of the unlock of u at k, in time and, where bound, from the address of that unlock. */
  ghost predicate ByUnlock(rules: Rules, h: seq<Event>, k: nat, n: nat, u: User) {
    && n < |h| && Stands(rules, h, k, n, h[n].call.token) && h[k].call.req.user == u
    && h[n].call.now <= LastActive(h, k, n, h[n].call.token) + rules.idleTimeout
    && (rules.bindSessionIP && h[k].call.ip != "" ==> h[n].call.ip == h[k].call.ip)
  }

  /** The user a recovery was for: the one it names, or the only one there was. */
  ghost predicate RecoveredFor(a: Ledger, e: Event, u: User)
    requires e.call.req.OnSessions? && e.call.req.access.RecoverWith?
  {
    if e.call.req.access.user != "" then u == e.call.req.access.user else a.users.Keys == {u}
  }

  /** Request n shows the token of the recovery at k for u, within five minutes. */
  ghost predicate ByRecover(rules: Rules, h: seq<Event>, k: nat, n: nat, u: User) {
    && n < |h| && RecoveryStands(h, k, n, h[n].call.token) && RecoveredFor(Before(h, k), h[k], u)
    && h[n].call.now <= h[k].call.now + 300
    && (rules.bindSessionIP && h[k].call.ip != "" ==> h[n].call.ip == h[k].call.ip)
  }

  /** Request n shows the onboarding token handed out for u at k, within ten minutes. */
  ghost predicate ByOnboarding(h: seq<Event>, k: nat, n: nat, u: User) {
    && n < |h| && VaultPolicy.Fresh(h, k, n, h[n].call.token) && Newcomer(h[k]) == u
    && h[n].call.now < h[k].call.now + 600
  }

  ghost predicate Behind(rules: Rules, h: seq<Event>, kind: Kind, k: nat, n: nat, u: User) {
    match kind
    case ByInit => ByOnboarding(h, k, n, u)
    case BySession => ByUnlock(rules, h, k, n, u)
    case ByRecovery => ByRecover(rules, h, k, n, u)
  }

  // ---------- tokens are of one kind, and recoveries of one user ----------

  ghost predicate OneKind(a: Ledger, t: Token) {
    t in a.initTokens ==> t !in a.sessions
  }

  lemma {:induction false} TokensApart(rules: Rules, h: seq<Event>, n: nat, t: Token)
    requires IsHistory(rules, h) && n <= |h|
    ensures OneKind(Before(h, n), t)
  {
    if n > 0 {
      TokensApart(rules, h, n - 1, t);
      OneInitToken(rules, h, n - 1, t);
      OneToken(rules, h, n - 1, t);
      OneRecovery(rules, h, n - 1, t);
      StepOf(rules, h, n - 1);
      NewIsApart(rules, Before(h, n - 1), h[n - 1], t);
    }
  }

  lemma NewIsApart(rules: Rules, a: Ledger, e: Event, t: Token)
    requires Step(rules, a, e.call, e.ok, e.after) && OneKind(a, t)
    requires InitTook(a, e, t) && TokenTook(rules, a, e, t) && RecoveryTook(a, e, t)
    ensures OneKind(e.after, t)
  {
    assert t in e.after.initTokens ==> HandsOut(e, t) || t in a.initTokens;
    assert t in e.after.sessions ==> t in a.sessions || Begins(e, t) || Recovers(e, t);
  }

  lemma {:induction false} NoNamelessUser(rules: Rules, h: seq<Event>, n: nat)
    requires IsHistory(rules, h) && n <= |h|
    ensures "" !in Before(h, n).users
  {
    if n > 0 {
      NoNamelessUser(rules, h, n - 1);
      OneUser(rules, h, n - 1, "");
      StepOf(rules, h, n - 1);
    }
  }

  lemma RecoveryIsFor(rules: Rules, h: seq<Event>, k: nat, t: Token)
    requires IsHistory(rules, h) && k < |h| && Recovers(h[k], t)
    ensures t in h[k].after.sessions && RecoveredFor(Before(h, k), h[k], h[k].after.sessions[t].user)
  {
    StepOf(rules, h, k);
    NoNamelessUser(rules, h, k);
    var users := Before(h, k).users;
    if h[k].call.req.access.user == "" {
      var u := RecoveryTarget(users, "");
      assert |users.Keys - {u}| == 0;
      assert users.Keys == {u};
    }
  }

  lemma {:induction false} RecoveryUser(rules: Rules, h: seq<Event>, k: nat, n: nat, t: Token)
    requires IsHistory(rules, h) && RecoveryStands(h, k, n, t)
    ensures t in Before(h, n).sessions && RecoveredFor(Before(h, k), h[k], Before(h, n).sessions[t].user)
  {
    OneRecovery(rules, h, n - 1, t);
    if k + 1 < n {
      RecoveryUser(rules, h, k, n - 1, t);
      RecoveryLasts(rules, h, k, n - 1, t);
    } else {
      RecoveryIsFor(rules, h, k, t);
    }
  }

  // ---------- who stands behind a request ----------

  lemma LiveSession(rules: Rules, h: seq<Event>, n: nat) returns (kind: Kind, k: nat)
    requires IsHistory(rules, h) && n < |h| && Live(rules, Before(h, n), h[n].call)
    ensures kind != ByInit && Behind(rules, h, kind, k, n, Before(h, n).sessions[h[n].call.token].user)
    ensures kind == ByRecovery <==> Before(h, n).sessions[h[n].call.token].recovery
  {
    var a, t := Before(h, n), h[n].call.token;
    if a.sessions[t].recovery {
      kind := ByRecovery;
      k := RecoveryIsBrief(rules, h, n);
      RecoveryLasts(rules, h, k, n, t);
      RecoveryUser(rules, h, k, n, t);
    } else {
      kind := BySession;
      k := SessionOrigin(rules, h, n, t);
      SessionLasts(rules, h, k, n, t);
    }
  }

  ghost predicate OfSession(a: Ledger, t: Token, kind: Kind) {
    t in a.sessions && (kind == ByRecovery <==> a.sessions[t].recovery)
  }

  /** Whoever speaks for a user does so by a token of that user's. */
  lemma Authority(rules: Rules, h: seq<Event>, n: nat) returns (kind: Kind, k: nat)
    requires IsHistory(rules, h) && n < |h|
    requires SpeaksAsInit(Before(h, n), h[n].call) || Live(rules, Before(h, n), h[n].call)
    ensures Behind(rules, h, kind, k, n, Actor(Before(h, n), h[n].call))
    ensures kind == ByInit <==> SpeaksAsInit(Before(h, n), h[n].call)
    ensures kind != ByInit ==> OfSession(Before(h, n), h[n].call.token, kind)
  {
    TokensApart(rules, h, n, h[n].call.token);
    if SpeaksAsInit(Before(h, n), h[n].call) {
      kind := ByInit;
      k := OnboardingIsBrief(rules, h, n);
    } else {
      kind, k := LiveSession(rules, h, n);
    }
  }

  // ---------- credentials ----------

  /** The requests by which a user's credentials change, but for the unlock that replaces an expired password. */
  predicate Edits(e: Event) {
    e.ok && ((e.call.req.OnFactors? && !e.call.req.factors.DrawChallenge?)
             || (e.call.req.OnKeys? && e.call.req.keys.ReplacePassword?))
  }

  /** What the request shows beside its token. */
  ghost predicate ShowsEnough(rules: Rules, a: Ledger, e: Event, kind: Kind, u: User)
    requires Edits(e) && u in a.users && u in a.passwords
  {
    match e.call.req
    case OnFactors(VerifyCode(code)) =>
      code.secret == a.users[u].secret && 30 * code.step - 30 <= e.call.now < 30 * code.step + 60
    case OnFactors(ResetCode(_)) => kind != ByInit && (kind == BySession ==> a.masterKey.Some?)
    case OnFactors(BindCertTo(_, _, certOk, signatureOk)) =>
      certOk && signatureOk && (kind == BySession ==> a.masterKey.Some?)
    case OnKeys(ReplacePassword(oldPassword, newPassword, _)) =>
      && kind != ByInit && Strong(newPassword, rules.minLength)
      && (kind == BySession ==> a.masterKey.Some? && oldPassword == a.passwords[u])
    case _ => true
  }

  /**
   Every granted change of a credential is made for one user, on the authority of that user's own token, and shows what
   it has to: the code of the secret in force, the certificate's signature, or the password last set.
   */
  lemma EditsAreAuthorised(rules: Rules, h: seq<Event>, n: nat) returns (kind: Kind, k: nat, u: User)
    requires IsHistory(rules, h) && n < |h| && Edits(h[n])
    ensures Behind(rules, h, kind, k, n, u) && u == Actor(Before(h, n), h[n].call)
    ensures u in Before(h, n).users && u in Before(h, n).passwords
    ensures ShowsEnough(rules, Before(h, n), h[n], kind, u)
  {
    StepOf(rules, h, n);
    SoundBefore(rules, h, n);
    var a, e := Before(h, n), h[n];
    TokensApart(rules, h, n, e.call.token);
    u := Actor(a, e.call);
    kind, k := Authority(rules, h, n);
    EditShows(rules, a, e, kind, u);
  }

  lemma EditShows(rules: Rules, a: Ledger, e: Event, kind: Kind, u: User)
    requires Edits(e) && Grantable(rules, a, e.call) && u == Actor(a, e.call) && u in a.users && u in a.passwords
    requires OneKind(a, e.call.token) && (kind == ByInit <==> SpeaksAsInit(a, e.call))
    requires kind != ByInit ==> OfSession(a, e.call.token, kind)
    ensures ShowsEnough(rules, a, e, kind, u)
  {
    match e.call.req
    case OnFactors(VerifyCode(code)) => CodeLifetime(code, a.users[u].secret, e.call.now);
    case OnKeys(ReplacePassword(_, newPassword, _)) => StrongIff(newPassword, rules.minLength);
    case _ =>
  }

  /** So a user's secret, certificate and wrap change only by the user's own token, or by the user's own unlock. */
  lemma OwnersChangeCredentials(rules: Rules, h: seq<Event>, n: nat, u: User) returns (kind: Kind, k: nat)
    requires IsHistory(rules, h) && n < |h| && u in Before(h, n).users && u in h[n].after.users
    requires h[n].after.users[u] != Before(h, n).users[u]
    ensures Unlocks(h[n], u) || (Edits(h[n]) && Behind(rules, h, kind, k, n, u))
  {
    OneUser(rules, h, n, u);
    StepOf(rules, h, n);
    SoundBefore(rules, h, n);
    if Edits(h[n]) {
      var v: User;
      kind, k, v := EditsAreAuthorised(rules, h, n);
    } else {
      kind, k := BySession, n;
    }
  }

  // ---------- unlocking, locking, members ----------

  /** Every unlock shows a certificate that holds and a code, still good, of the secret last drawn for the user. */
  lemma UnlockShowsFactors(rules: Rules, h: seq<Event>, n: nat, u: User) returns (k: nat)
    requires IsHistory(rules, h) && n < |h| && Unlocks(h[n], u)
    ensures h[n].call.req.certOk
    ensures var code := h[n].call.req.code;
            && k < n && SecretDrawn(h[k].call.req) == Some(code.secret) && DrawnFor(h, k) == u
            && 30 * code.step - 30 <= h[n].call.now < 30 * code.step + 60
  {
    StepOf(rules, h, n);
    LaterWindow(rules, h, n, u);
    k := SecretOrigin(rules, h, n, u);
    CodeLifetime(h[n].call.req.code, Before(h, n).users[u].secret, h[n].call.now);
  }

  predicate NeedsUnlock(e: Event) {
    e.ok && (e.call.req.OnUsers? || e.call.req == OnSessions(LockVault) || e.call.req == OnSessions(ReadData))
  }

  /** Locking, reading, adding and removing take a token of an unlock that still stands, with the key in memory. */
  lemma OnlyUnlockedActs(rules: Rules, h: seq<Event>, n: nat) returns (k: nat)
    requires IsHistory(rules, h) && n < |h| && NeedsUnlock(h[n])
    ensures k < n && h[k].call.req.UnlockVault? && ByUnlock(rules, h, k, n, h[k].call.req.user)
    ensures Before(h, n).masterKey.Some?
  {
    StepOf(rules, h, n);
    var kind: Kind;
    kind, k := LiveSession(rules, h, n);
  }

  /** Users come with the initialisation or by an unlocked session, and go by one that leaves another user. */
  lemma MembersChange(rules: Rules, h: seq<Event>, n: nat, u: User)
    requires IsHistory(rules, h) && n < |h| && !(u in h[n].after.users <==> u in Before(h, n).users)
    ensures Adds(h[n], u) || Removes(h[n], u)
    ensures Adds(h[n], u) ==> u != "" && (Inits(h[n]) || NeedsUnlock(h[n]))
    ensures Inits(h[n]) ==> forall m :: 0 <= m < n ==> !Inits(h[m])
    ensures Removes(h[n], u) ==> NeedsUnlock(h[n]) && exists v :: v != u && v in h[n].after.users
  {
    OneUser(rules, h, n, u);
    StepOf(rules, h, n);
    if Inits(h[n]) {
      forall m | 0 <= m < n ensures !Inits(h[m]) {
        OneRecord(rules, h, m, u);
        LedgersGrow(rules, h, m + 1, n);
      }
    }
    if Removes(h[n], u) {
      var v := Another(Before(h, n).users, u);
      OneUser(rules, h, n, v);
    }
  }

  lemma Another(users: Users, u: User) returns (v: User)
    requires u in users && |users| > 1
    ensures v in users && v != u
  {
    assert |users.Keys - {u}| == |users.Keys| - 1;
    v :| v in users.Keys - {u};
  }
}
