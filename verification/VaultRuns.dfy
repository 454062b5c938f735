/**
 What holds over every run of the vault: a run is a history, each request with its answer and the ledger it left. The
 theorems speak of granted requests; the ledgers in between only say whom a request acted for.
 */
module VaultRuns {
  import opened Common
  import opened Sealing
  import opened VaultLedger

  /** The ledger that the n-th request met. */
  function Before(h: seq<Event>, n: nat): Ledger
    requires n <= |h|
  {
    Present(h[..n])
  }

  /** The n-th step on its own. */
  lemma StepOf(rules: Rules, h: seq<Event>, n: nat)
    requires IsHistory(rules, h) && n < |h|
    ensures Step(rules, Before(h, n), h[n].call, h[n].ok, Before(h, n + 1)) && Follows(h[..n], h[n].call)
  {
    assert StepAt(rules, h, n);
  }

  lemma SoundBefore(rules: Rules, h: seq<Event>, n: nat)
    requires IsHistory(rules, h) && n <= |h|
    ensures LedgerSound(Before(h, n), rules.idleTimeout)
  {
    forall k | 0 <= k < n ensures StepAt(rules, h[..n], k) {
      assert StepAt(rules, h, k);
      assert h[..n][..k] == h[..k];
      SamePrefix(rules, h[..n], h, k);
    }
    HistorySound(rules, h[..n]);
  }

  // ---------- what a kind of request leaves alone ----------

  ghost predicate OnlyFactors(a: Ledger, b: Ledger) {
    b == a.(users := b.users, initTokens := b.initTokens)
  }

  ghost predicate OnlyAccess(a: Ledger, b: Ledger) {
    b == a.(masterKey := b.masterKey, loading := b.loading, sessions := b.sessions, initTokens := b.initTokens,
            revoked := b.revoked)
  }

  lemma EachFactor(a: Ledger, user: User, secret: nat, cert: string, token: Token, onboarding: bool)
    ensures OnlyFactors(a, a) && OnlyFactors(a, Confirmed(a, user)) && OnlyFactors(a, Reseeded(a, user, secret))
    ensures OnlyFactors(a, Certified(a, user, cert, token, onboarding))
  {
  }

  lemma FactorEffect(rules: Rules, a: Ledger, c: Call)
    requires c.req.OnFactors?
    ensures OnlyFactors(a, Effect(rules, a, c))
  {
    var u := Actor(a, c);
    match c.req.factors
    case VerifyCode(_) => EachFactor(a, u, 0, "", c.token, false);
    case ResetCode(secret) => EachFactor(a, u, secret, "", c.token, false);
    case DrawChallenge(_, _) => EachFactor(a, u, 0, "", c.token, false);
    case BindCertTo(_, cert, _, _) => EachFactor(a, u, 0, cert, c.token, SpeaksAsInit(a, c));
  }

  lemma EachAccess(rules: Rules, a: Ledger, user: User, ip: string, token: Token, now: Seconds)
    ensures OnlyAccess(a, a.(loading := false)) && OnlyAccess(a, Shut(a)) && OnlyAccess(a, Swept(a, now))
    ensures OnlyAccess(a, Renewed(rules, a, token, now)) && OnlyAccess(a, Recovered(a, user, ip, token, now))
  {
  }

  lemma AccessEffect(rules: Rules, a: Ledger, c: Call)
    requires c.req.OnSessions?
    ensures OnlyAccess(a, Effect(rules, a, c))
  {
    match c.req.access
    case LoadEnds(_, _) => EachAccess(rules, a, "", c.ip, c.token, c.now);
    case LockVault => EachAccess(rules, a, "", c.ip, c.token, c.now);
    case ReadData => EachAccess(rules, a, "", c.ip, c.token, c.now);
    case Tick => EachAccess(rules, a, "", c.ip, c.token, c.now);
    case RecoverWith(_, user, session) =>
      EachAccess(rules, a, RecoveryTarget(a.users, user), c.ip, session, c.now);
  }

  lemma RefusedShape(a: Ledger, c: Call, b: Ledger)
    requires Drawn(a, c.req) && Refused(a, c, b)
    ensures if c.req.OnSessions? then OnlyAccess(a, b) else OnlyFactors(a, b)
  {
  }

  lemma FactorShape(rules: Rules, a: Ledger, e: Event)
    requires Step(rules, a, e.call, e.ok, e.after) && e.call.req.OnFactors?
    ensures OnlyFactors(a, e.after)
  {
    if e.ok {
      FactorEffect(rules, a, e.call);
    } else {
      RefusedShape(a, e.call, e.after);
    }
  }

  lemma AccessShape(rules: Rules, a: Ledger, e: Event)
    requires Step(rules, a, e.call, e.ok, e.after) && e.call.req.OnSessions?
    ensures OnlyAccess(a, e.after)
  {
    if e.ok {
      AccessEffect(rules, a, e.call);
    } else {
      RefusedShape(a, e.call, e.after);
    }
  }

  // ---------- one user, one step ----------

  predicate Unlocks(e: Event, u: User) {
    e.ok && e.call.req.UnlockVault? && e.call.req.user == u
  }

  predicate Adds(e: Event, u: User) {
    e.ok && match e.call.req
            case OnKeys(InitVault(user, _, _, _, _, _, _, _)) => user == u
            case OnUsers(AddUserTo(user, _, _, _, _)) => user == u
            case _ => false
  }

  predicate Removes(e: Event, u: User) {
    e.ok && e.call.req == OnUsers(RemoveUserNamed(u))
  }

  /** What becomes of a user who is neither added nor removed. */
  function Evolved(rules: Rules, a: Ledger, e: Event, u: User): VaultUser
    requires u in a.users
  {
    var v, c := a.users[u], e.call;
    if !e.ok then v
    else
      match c.req
      case UnlockVault(user, _, _, _, newPassword, _, salt, _) =>
        if user != u then v
        else (if ChangeDue(rules, v, c.now) then Rewrapped(v, newPassword, salt, a.root, c.now) else v)
             .(lastWindow := Window(c.now))
      case OnFactors(VerifyCode(_)) => if Actor(a, c) == u then v.(totpBound := true) else v
      case OnFactors(ResetCode(secret)) =>
        if Actor(a, c) == u then v.(secret := secret, totpBound := false) else v
      case OnFactors(BindCertTo(_, cert, _, _)) => if Actor(a, c) == u then v.(cert := Some(cert)) else v
      case OnKeys(ReplacePassword(_, newPassword, salt)) =>
        if Actor(a, c) == u then Rewrapped(v, newPassword, salt, a.root, c.now) else v
      case _ => v
  }

  /** A user as added. */
  function Fresh(a: Ledger, e: Event): VaultUser {
    match e.call.req
    case OnKeys(InitVault(_, password, mk, _, salt, secret, _, _)) => NewUser(password, salt, secret, mk, e.call.now)
    case OnUsers(AddUserTo(_, password, salt, secret, _)) => NewUser(password, salt, secret, a.root, e.call.now)
    case _ => NewUser("", 0, 0, a.root, 0)
  }

  /** The step as one user meets it. */
  ghost predicate UserTook(rules: Rules, a: Ledger, e: Event, u: User) {
    && (u in e.after.users <==> Adds(e, u) || (u in a.users && !Removes(e, u)))
    && (Adds(e, u) ==> e.after.users[u] == Fresh(a, e))
    && (!Adds(e, u) && u in e.after.users ==> e.after.users[u] == Evolved(rules, a, e, u))
  }

  lemma FactorUser(rules: Rules, a: Ledger, e: Event, u: User)
    requires Step(rules, a, e.call, e.ok, e.after) && e.call.req.OnFactors?
    ensures UserTook(rules, a, e, u)
  {
    match e.call.req.factors
    case VerifyCode(_) => assert e.ok ==> e.after == Confirmed(a, Actor(a, e.call));
    case ResetCode(secret) => assert e.ok ==> e.after == Reseeded(a, Actor(a, e.call), secret);
    case DrawChallenge(_, _) =>
    case BindCertTo(_, cert, _, _) =>
  }

  lemma UnlockUser(rules: Rules, a: Ledger, e: Event, u: User)
    requires Step(rules, a, e.call, e.ok, e.after) && e.call.req.UnlockVault?
    ensures UserTook(rules, a, e, u)
  {
  }

  lemma KeyUser(rules: Rules, a: Ledger, e: Event, u: User)
    requires LedgerSound(a, rules.idleTimeout) && Step(rules, a, e.call, e.ok, e.after) && e.call.req.OnKeys?
    ensures UserTook(rules, a, e, u)
  {
  }

  lemma MemberUser(rules: Rules, a: Ledger, e: Event, u: User)
    requires Step(rules, a, e.call, e.ok, e.after) && e.call.req.OnUsers?
    ensures UserTook(rules, a, e, u)
  {
  }

  lemma AccessUser(rules: Rules, a: Ledger, e: Event, u: User)
    requires e.call.req.OnSessions? && e.after.users == a.users
    ensures UserTook(rules, a, e, u)
  {
  }

  /** Every request treats each user as said, and leaves the others alone. */
  lemma OneUser(rules: Rules, h: seq<Event>, n: nat, u: User)
    requires IsHistory(rules, h) && n < |h|
    ensures UserTook(rules, Before(h, n), h[n], u) && Before(h, n + 1) == h[n].after
  {
    StepOf(rules, h, n);
    var a, e := Before(h, n), h[n];
    match e.call.req
    case UnlockVault(_, _, _, _, _, _, _, _) => UnlockUser(rules, a, e, u);
    case OnFactors(_) => FactorUser(rules, a, e, u);
    case OnKeys(_) => SoundBefore(rules, h, n); KeyUser(rules, a, e, u);
    case OnSessions(_) => AccessShape(rules, a, e); AccessUser(rules, a, e, u);
    case OnUsers(_) => MemberUser(rules, a, e, u);
  }

  // ---------- one-time windows ----------

  lemma {:induction false} WindowKept(rules: Rules, h: seq<Event>, i: nat, n: nat, u: User)
    requires IsHistory(rules, h) && i < n <= |h| && Unlocks(h[i], u) && u in Before(h, n).users
    requires forall k :: i < k < n ==> !Adds(h[k], u)
    ensures Window(h[i].call.now) <= Before(h, n).users[u].lastWindow
  {
    OneUser(rules, h, n - 1, u);
    if i < n - 1 {
      WindowKept(rules, h, i, n - 1, u);
      if Unlocks(h[n - 1], u) {
        LaterWindow(rules, h, n - 1, u);
      }
    }
  }

  /** An unlock shows a code that fits; windows are used up in order. */
  lemma LaterWindow(rules: Rules, h: seq<Event>, n: nat, u: User)
    requires IsHistory(rules, h) && n < |h| && Unlocks(h[n], u)
    ensures var c := h[n].call;
            u in Before(h, n).users && MayUnlock(Before(h, n), u, c.req.password, c.req.code, c.now)
  {
    StepOf(rules, h, n);
  }

  /** Two unlocks of one name lie in different one-time windows, unless the name was added again in between. */
  lemma UnlockWindowsIncrease(rules: Rules, h: seq<Event>, i: nat, j: nat, u: User)
    requires IsHistory(rules, h) && i < j < |h| && Unlocks(h[i], u) && Unlocks(h[j], u)
    requires forall k :: i < k < j ==> !Adds(h[k], u)
    ensures Window(h[i].call.now) < Window(h[j].call.now)
  {
    LaterWindow(rules, h, j, u);
    WindowKept(rules, h, i, j, u);
  }

  // ---------- tenures ----------

  /** The unlocks of a name among the requests from i to n, with window and code. */
  function UsesBetween(h: seq<Event>, i: nat, n: nat, u: User): seq<Use>
    requires i <= n <= |h|
  {
    if i == n then []
    else UsesBetween(h, i, n - 1, u) + if Unlocks(h[n - 1], u) then [UseOf(h[n - 1])] else []
  }

  function UseOf(e: Event): Use
    requires e.call.req.UnlockVault?
  {
    Use(Window(e.call.now), e.call.req.code)
  }

  predicate Inits(e: Event) {
    e.ok && e.call.req.OnKeys? && e.call.req.keys.InitVault?
  }

  /**
   An addition begins a tenure, an unlock is recorded in the last one, and nothing else moves a name's tenures; tokens
   stay issued and revoked, and only an initialisation, the first, makes a master key.
   */
  ghost predicate RecordsTook(a: Ledger, e: Event, u: User) {
    && History(e.after.tenures, u) == (if Adds(e, u) then Joined(History(a.tenures, u))
                                       else if Unlocks(e, u) then Recorded(History(a.tenures, u), UseOf(e))
                                       else History(a.tenures, u))
    && (u in a.tenures ==> u in e.after.tenures)
    && a.issued <= e.after.issued && a.revoked <= e.after.revoked
    && if Inits(e) then !a.initialized && e.after.initialized && e.after.root == e.call.req.keys.mk
       else e.after.initialized == a.initialized && e.after.root == a.root
  }

  /** A step that adds and unlocks no one, and makes no key. */
  lemma QuietRecords(a: Ledger, e: Event, u: User)
    requires !Adds(e, u) && !Unlocks(e, u) && !Inits(e)
    requires e.after.tenures == a.tenures && e.after.issued == a.issued && a.revoked <= e.after.revoked
    requires e.after.root == a.root && e.after.initialized == a.initialized
    ensures RecordsTook(a, e, u)
  {
  }

  lemma AccessRevokes(rules: Rules, a: Ledger, e: Event)
    requires a.revoked <= a.issued && Step(rules, a, e.call, e.ok, e.after) && e.call.req.OnSessions?
    ensures a.revoked <= e.after.revoked
  {
  }

  lemma UnlockRecords(rules: Rules, a: Ledger, e: Event, u: User)
    requires a.revoked <= a.issued && Step(rules, a, e.call, e.ok, e.after) && e.call.req.UnlockVault?
    ensures RecordsTook(a, e, u)
  {
  }

  lemma KeyRecords(rules: Rules, a: Ledger, e: Event, u: User)
    requires a.revoked <= a.issued && Step(rules, a, e.call, e.ok, e.after) && e.call.req.OnKeys?
    ensures RecordsTook(a, e, u)
  {
  }

  lemma MemberRecords(rules: Rules, a: Ledger, e: Event, u: User)
    requires a.revoked <= a.issued && Step(rules, a, e.call, e.ok, e.after) && e.call.req.OnUsers?
    ensures RecordsTook(a, e, u)
  {
  }

  lemma OneRecord(rules: Rules, h: seq<Event>, n: nat, u: User)
    requires IsHistory(rules, h) && n < |h|
    ensures RecordsTook(Before(h, n), h[n], u) && Before(h, n + 1) == h[n].after
  {
    StepOf(rules, h, n);
    SoundBefore(rules, h, n);
    var a, e := Before(h, n), h[n];
    match e.call.req
    case UnlockVault(_, _, _, _, _, _, _, _) => UnlockRecords(rules, a, e, u);
    case OnFactors(_) => FactorShape(rules, a, e); QuietRecords(a, e, u);
    case OnKeys(_) => KeyRecords(rules, a, e, u);
    case OnSessions(_) => AccessShape(rules, a, e); AccessRevokes(rules, a, e); QuietRecords(a, e, u);
    case OnUsers(_) => MemberRecords(rules, a, e, u);
  }

  /** Tenures whose last one has gone on. */
  function GoneOn(ts: Tenures, uses: seq<Use>): Tenures
    requires ts != []
  {
    ts[..|ts| - 1] + [ts[|ts| - 1] + uses]
  }

  lemma GoingOn(ts: Tenures, uses: seq<Use>, use: Use)
    requires ts != []
    ensures GoneOn(ts, []) == ts && Recorded(GoneOn(ts, uses), use) == GoneOn(ts, uses + [use])
  {
    var last := ts[|ts| - 1];
    assert last + [] == last && last + uses + [use] == last + (uses + [use]);
    assert GoneOn(ts, uses)[..|ts| - 1] == ts[..|ts| - 1];
  }

  lemma TenureStep(rules: Rules, h: seq<Event>, n: nat, u: User)
    requires IsHistory(rules, h) && n < |h| && !Adds(h[n], u)
    ensures History(Before(h, n + 1).tenures, u) == if Unlocks(h[n], u)
                                                    then Recorded(History(Before(h, n).tenures, u), UseOf(h[n]))
                                                    else History(Before(h, n).tenures, u)
  {
    OneRecord(rules, h, n, u);
  }

  lemma {:induction false} TenureGoesOn(rules: Rules, h: seq<Event>, i: nat, n: nat, u: User)
    requires IsHistory(rules, h) && i <= n <= |h| && History(Before(h, i).tenures, u) != []
    requires forall k :: i <= k < n ==> !Adds(h[k], u)
    ensures History(Before(h, n).tenures, u) == GoneOn(History(Before(h, i).tenures, u), UsesBetween(h, i, n, u))
  {
    var ts := History(Before(h, i).tenures, u);
    if i == n {
      GoingOn(ts, [], Use(0, Code(0, 0)));
    } else {
      TenureGoesOn(rules, h, i, n - 1, u);
      TenureStep(rules, h, n - 1, u);
      if Unlocks(h[n - 1], u) {
        GoingOn(ts, UsesBetween(h, i, n - 1, u), UseOf(h[n - 1]));
      } else {
        assert UsesBetween(h, i, n, u) == UsesBetween(h, i, n - 1, u);
      }
    }
  }

  /** For as long as a name is not added again its last tenure goes on by exactly the unlocks granted, and increases. */
  lemma LastTenureGoesOn(rules: Rules, h: seq<Event>, i: nat, n: nat, u: User)
    requires IsHistory(rules, h) && i <= n <= |h| && History(Before(h, i).tenures, u) != []
    requires forall k :: i <= k < n ==> !Adds(h[k], u)
    ensures var a, b := History(Before(h, i).tenures, u), History(Before(h, n).tenures, u);
            b == a[..|a| - 1] + [a[|a| - 1] + UsesBetween(h, i, n, u)] && Increasing(b[|b| - 1])
  {
    TenureGoesOn(rules, h, i, n, u);
    SoundBefore(rules, h, n);
    LastIncreases(Before(h, n).tenures, u);
  }

  lemma LastIncreases(tenures: map<User, Tenures>, u: User)
    requires (forall x :: x in tenures ==> Tenured(tenures[x])) && History(tenures, u) != []
    ensures Increasing(History(tenures, u)[|History(tenures, u)| - 1])
  {
    assert Tenured(tenures[u]);
  }

  // ---------- what is never taken back ----------

  lemma TenuresGrow(rules: Rules, h: seq<Event>, n: nat)
    requires IsHistory(rules, h) && n < |h|
    ensures HistoriesGrow(Before(h, n).tenures, Before(h, n + 1).tenures)
  {
    var a, b := Before(h, n).tenures, Before(h, n + 1).tenures;
    forall u | u in a ensures u in b && Continues(a[u], b[u]) {
      OneRecord(rules, h, n, u);
    }
  }

  lemma Grown(a: map<User, Tenures>, b: map<User, Tenures>, c: map<User, Tenures>)
    requires HistoriesGrow(a, b) && HistoriesGrow(b, c)
    ensures HistoriesGrow(a, c)
  {
    forall u | u in a ensures u in c && Continues(a[u], c[u]) {
      assert Continues(a[u], b[u]) && Continues(b[u], c[u]);
    }
  }

  /** Tokens stay issued and revoked, names' histories go on, and the master key is for life. */
  lemma {:induction false} LedgersGrow(rules: Rules, h: seq<Event>, i: nat, n: nat)
    requires IsHistory(rules, h) && i <= n <= |h|
    ensures var a, b := Before(h, i), Before(h, n);
            && a.issued <= b.issued && a.revoked <= b.revoked && HistoriesGrow(a.tenures, b.tenures)
            && (a.initialized ==> b.initialized && b.root == a.root)
  {
    if i < n {
      LedgersGrow(rules, h, i, n - 1);
      OneRecord(rules, h, n - 1, "");
      TenuresGrow(rules, h, n - 1);
      Grown(Before(h, i).tenures, Before(h, n - 1).tenures, Before(h, n).tenures);
    }
  }

  /** The same for one request more. */
  lemma GrownByOne(rules: Rules, h: seq<Event>, e: Event)
    requires IsHistory(rules, h + [e])
    ensures var a, b := Present(h), e.after;
            && a.issued <= b.issued && a.revoked <= b.revoked && HistoriesGrow(a.tenures, b.tenures)
            && (a.initialized ==> b.initialized && b.root == a.root)
  {
    assert (h + [e])[..|h|] == h && (h + [e])[..|h| + 1] == h + [e];
    LedgersGrow(rules, h + [e], |h|, |h| + 1);
  }

  // ---------- sessions ----------

  /** The unlock that issued a token. */
  predicate Begins(e: Event, t: Token) {
    e.ok && e.call.req.UnlockVault? && e.call.req.session == t
  }

  /** An admitted request to the data with a token. */
  predicate Uses(e: Event, t: Token) {
    e.ok && e.call.req == OnSessions(ReadData) && e.call.token == t
  }

  /** What ends an unlocked session. */
  predicate Cuts(a: Ledger, e: Event, t: Token, s: VaultSession) {
    match e.call.req
    case OnSessions(LoadEnds(unlocked, _)) => !e.ok && unlocked == t
    case OnSessions(LockVault) => e.ok
    case OnSessions(Tick) => e.call.now > s.expiresAt
    case OnUsers(RemoveUserNamed(user)) => e.ok && user == s.user
    case OnKeys(ReplacePassword(_, _, _)) => e.ok && Actor(a, e.call) == s.user && e.call.token != t
    case _ => false
  }

  /** The step as one token meets it. */
  ghost predicate TokenTook(rules: Rules, a: Ledger, e: Event, t: Token) {
    var held := t in a.sessions && !a.sessions[t].recovery;
    && (held && Cuts(a, e, t, a.sessions[t]) ==> t !in e.after.sessions)
    && (held && !Cuts(a, e, t, a.sessions[t]) ==>
          t in e.after.sessions
          && e.after.sessions[t] == if Uses(e, t) then Touched(a.sessions[t], rules.idleTimeout, e.call.now)
                                    else a.sessions[t])
    && (Begins(e, t) ==>
          t !in a.issued && t !in a.sessions && t in e.after.issued && t in e.after.sessions
          && e.after.sessions[t] == VaultSession(e.call.req.user, e.call.ip, false, None, e.call.now,
                                                 e.call.now + rules.idleTimeout))
    && (!held && t in e.after.sessions && !e.after.sessions[t].recovery ==> Begins(e, t))
    && (Uses(e, t) ==> held && e.call.now <= a.sessions[t].expiresAt)
  }

  lemma FactorToken(rules: Rules, a: Ledger, e: Event, t: Token)
    requires e.call.req.OnFactors? && e.after.sessions == a.sessions && e.after.issued == a.issued
    ensures TokenTook(rules, a, e, t)
  {
  }

  lemma UnlockToken(rules: Rules, a: Ledger, e: Event, t: Token)
    requires Step(rules, a, e.call, e.ok, e.after) && e.call.req.UnlockVault?
    ensures TokenTook(rules, a, e, t)
  {
  }

  lemma KeyToken(rules: Rules, a: Ledger, e: Event, t: Token)
    requires Step(rules, a, e.call, e.ok, e.after) && e.call.req.OnKeys?
    ensures TokenTook(rules, a, e, t)
  {
  }

  lemma MemberToken(rules: Rules, a: Ledger, e: Event, t: Token)
    requires Step(rules, a, e.call, e.ok, e.after) && e.call.req.OnUsers?
    ensures TokenTook(rules, a, e, t)
  {
  }

  lemma AccessToken(rules: Rules, a: Ledger, e: Event, t: Token)
    requires Step(rules, a, e.call, e.ok, e.after) && e.call.req.OnSessions?
    ensures TokenTook(rules, a, e, t)
  {
    match e.call.req.access
    case Tick => TickToken(rules, a, e, t);
    case LockVault => CutToken(rules, a, e, t);
    case LoadEnds(_, _) => CutToken(rules, a, e, t);
    case ReadData => UseToken(rules, a, e, t);
    case RecoverWith(_, _, _) => UseToken(rules, a, e, t);
  }

  lemma TickToken(rules: Rules, a: Ledger, e: Event, t: Token)
    requires Step(rules, a, e.call, e.ok, e.after) && e.call.req == OnSessions(Tick)
    ensures TokenTook(rules, a, e, t)
  {
  }

  lemma UseToken(rules: Rules, a: Ledger, e: Event, t: Token)
    requires Step(rules, a, e.call, e.ok, e.after) && e.call.req.OnSessions?
    requires e.call.req.access.ReadData? || e.call.req.access.RecoverWith?
    ensures TokenTook(rules, a, e, t)
  {
  }

  lemma CutToken(rules: Rules, a: Ledger, e: Event, t: Token)
    requires Step(rules, a, e.call, e.ok, e.after) && e.call.req.OnSessions?
    requires e.call.req.access.LoadEnds? || e.call.req.access.LockVault?
    ensures TokenTook(rules, a, e, t)
  {
  }

  /** Every request treats each session as said, and leaves the others alone. */
  lemma OneToken(rules: Rules, h: seq<Event>, n: nat, t: Token)
    requires IsHistory(rules, h) && n < |h|
    ensures TokenTook(rules, Before(h, n), h[n], t) && Before(h, n + 1) == h[n].after
  {
    StepOf(rules, h, n);
    var a, e := Before(h, n), h[n];
    match e.call.req
    case UnlockVault(_, _, _, _, _, _, _, _) => UnlockToken(rules, a, e, t);
    case OnFactors(_) => FactorShape(rules, a, e); FactorToken(rules, a, e, t);
    case OnKeys(_) => KeyToken(rules, a, e, t);
    case OnSessions(_) => AccessToken(rules, a, e, t);
    case OnUsers(_) => MemberToken(rules, a, e, t);
  }

  /** When the session that began at k was last renewed; a use renews it after a while of idleness. */
  function LastActive(h: seq<Event>, k: nat, n: nat, t: Token): Seconds
    requires k < n <= |h|
  {
    if n == k + 1 then h[k].call.now
    else
      var last, e := LastActive(h, k, n - 1, t), h[n - 1];
      if Uses(e, t) && e.call.now - last >= RENEW_INTERVAL then e.call.now else last
  }

  /** The session that began at k, as the log has it. */
  function SessionOf(rules: Rules, h: seq<Event>, k: nat, n: nat, t: Token): VaultSession
    requires k < n <= |h| && Begins(h[k], t)
  {
    var last := LastActive(h, k, n, t);
    VaultSession(h[k].call.req.user, h[k].call.ip, false, None, last, last + rules.idleTimeout)
  }

  /** The m-th request ends the session that began at k. */
  predicate Ends(rules: Rules, h: seq<Event>, k: nat, m: nat, t: Token)
    requires k < m < |h| && Begins(h[k], t)
  {
    Cuts(Before(h, m), h[m], t, SessionOf(rules, h, k, m, t))
  }

  /** A session that began at k and that nothing has ended by n. */
  ghost predicate Stands(rules: Rules, h: seq<Event>, k: nat, n: nat, t: Token) {
    k < n <= |h| && Begins(h[k], t) && forall m :: k < m < n ==> !Ends(rules, h, k, m, t)
  }

  lemma {:induction false} SessionLasts(rules: Rules, h: seq<Event>, k: nat, n: nat, t: Token)
    requires IsHistory(rules, h) && Stands(rules, h, k, n, t)
    ensures t in Before(h, n).sessions && Before(h, n).sessions[t] == SessionOf(rules, h, k, n, t)
  {
    OneToken(rules, h, n - 1, t);
    if k + 1 < n {
      SessionLasts(rules, h, k, n - 1, t);
      assert !Ends(rules, h, k, n - 1, t);
    }
  }

  lemma {:induction false} SessionOrigin(rules: Rules, h: seq<Event>, n: nat, t: Token) returns (k: nat)
    requires IsHistory(rules, h) && n <= |h| && t in Before(h, n).sessions && !Before(h, n).sessions[t].recovery
    ensures Stands(rules, h, k, n, t)
  {
    OneToken(rules, h, n - 1, t);
    if t in Before(h, n - 1).sessions && !Before(h, n - 1).sessions[t].recovery {
      k := SessionOrigin(rules, h, n - 1, t);
      SessionLasts(rules, h, k, n - 1, t);
      assert !Ends(rules, h, k, n - 1, t);
    } else {
      k := n - 1;
    }
  }

  /** A token is in force exactly when an unlock issued it and nothing the log shows has ended it since. */
  lemma SessionIff(rules: Rules, h: seq<Event>, n: nat, t: Token)
    requires IsHistory(rules, h) && n <= |h|
    ensures t in Before(h, n).sessions && !Before(h, n).sessions[t].recovery <==>
            exists k :: Stands(rules, h, k, n, t)
  {
    if t in Before(h, n).sessions && !Before(h, n).sessions[t].recovery {
      var k := SessionOrigin(rules, h, n, t);
    }
    forall k | Stands(rules, h, k, n, t)
      ensures t in Before(h, n).sessions && !Before(h, n).sessions[t].recovery
    {
      SessionLasts(rules, h, k, n, t);
    }
  }

  /** No token is issued twice. */
  lemma BeginsOnce(rules: Rules, h: seq<Event>, i: nat, j: nat, t: Token)
    requires IsHistory(rules, h) && i < j < |h| && Begins(h[i], t)
    ensures !Begins(h[j], t)
  {
    OneToken(rules, h, i, t);
    OneToken(rules, h, j, t);
    LedgersGrow(rules, h, i + 1, j);
  }

  /** A renewal is the unlock or a use, and every use since came within the renewal interval of it. */
  lemma {:induction false} RenewedByUse(rules: Rules, h: seq<Event>, k: nat, n: nat, t: Token) returns (m: nat)
    requires k < n <= |h| && Begins(h[k], t)
    ensures k <= m < n && LastActive(h, k, n, t) == h[m].call.now && (m == k || Uses(h[m], t))
    ensures forall j :: m < j < n && Uses(h[j], t) ==> h[j].call.now - h[m].call.now < RENEW_INTERVAL
  {
    if n == k + 1 {
      m := k;
    } else {
      m := RenewedByUse(rules, h, k, n - 1, t);
      if Uses(h[n - 1], t) && h[n - 1].call.now - h[m].call.now >= RENEW_INTERVAL {
        m := n - 1;
      }
    }
  }

  /**
   An admitted read: the token was issued by one granted unlock, which nothing has ended since, and the unlock or an
   admitted use of it lies no longer back than the idle timeout.
   */
  lemma AdmittedWasUnlocked(rules: Rules, h: seq<Event>, n: nat, t: Token) returns (k: nat, m: nat)
    requires IsHistory(rules, h) && n < |h| && Uses(h[n], t)
    ensures Stands(rules, h, k, n, t) && forall j :: 0 <= j < |h| && Begins(h[j], t) ==> j == k
    ensures k <= m < n && (m == k || Uses(h[m], t)) && h[n].call.now <= h[m].call.now + rules.idleTimeout
  {
    OneToken(rules, h, n, t);
    k := SessionOrigin(rules, h, n, t);
    SessionLasts(rules, h, k, n, t);
    m := RenewedByUse(rules, h, k, n, t);
    forall j | 0 <= j < |h| && Begins(h[j], t) ensures j == k {
      if j < k {
        BeginsOnce(rules, h, j, k, t);
      } else if k < j {
        BeginsOnce(rules, h, k, j, t);
      }
    }
  }

  // ---------- passwords ----------

  /** The password that the k-th request sets for a user. */
  function Sets(rules: Rules, h: seq<Event>, k: nat, u: User): Option<string>
    requires k < |h|
  {
    var a, e := Before(h, k), h[k];
    if !e.ok then None
    else
      match e.call.req
      case UnlockVault(user, _, _, _, newPassword, _, _, _) =>
        if user == u && DueFor(rules, a.users, u, e.call.now) then Some(newPassword) else None
      case OnKeys(InitVault(user, password, _, _, _, _, _, _)) => if user == u then Some(password) else None
      case OnKeys(ReplacePassword(_, newPassword, _)) => if Actor(a, e.call) == u then Some(newPassword) else None
      case OnUsers(AddUserTo(user, password, _, _, _)) => if user == u then Some(password) else None
      case _ => None
  }

  lemma {:induction false} LatestSet(rules: Rules, h: seq<Event>, n: nat, u: User) returns (k: nat)
    requires IsHistory(rules, h) && n <= |h| && u in Before(h, n).users
    ensures k < n && Sets(rules, h, k, u).Some? && forall m :: k < m < n ==> Sets(rules, h, m, u).None?
    ensures var v := Before(h, n).users[u];
            v.wrap.key == Derived(Sets(rules, h, k, u).value, v.salt) && v.changedAt == h[k].call.now
  {
    OneUser(rules, h, n - 1, u);
    if Sets(rules, h, n - 1, u).Some? {
      k := n - 1;
    } else {
      k := LatestSet(rules, h, n - 1, u);
    }
  }

  lemma {:induction false} MadeOnce(rules: Rules, h: seq<Event>, n: nat) returns (i: nat)
    requires IsHistory(rules, h) && n <= |h| && Before(h, n).initialized
    ensures i < n && Inits(h[i]) && h[i].call.req.keys.mk == Before(h, n).root
    ensures forall j :: 0 <= j < n && Inits(h[j]) ==> j == i
  {
    OneRecord(rules, h, n - 1, "");
    if Inits(h[n - 1]) {
      i := n - 1;
      forall j | 0 <= j < n && Inits(h[j]) ensures j == i {
        if j < n - 1 {
          OneRecord(rules, h, j, "");
          LedgersGrow(rules, h, j + 1, n - 1);
        }
      }
    } else {
      i := MadeOnce(rules, h, n - 1);
    }
  }

  /**
   At the end of every run a user's wrap opens under the password last set for that user, and under no other, to the one
   master key, made by the one initialisation.
   */
  lemma OnlyTheLatestPasswordOpens(rules: Rules, h: seq<Event>, u: User) returns (i: nat, k: nat)
    requires IsHistory(rules, h) && u in Present(h).users
    ensures i < |h| && Inits(h[i]) && forall j :: 0 <= j < |h| && Inits(h[j]) ==> j == i
    ensures k < |h| && Sets(rules, h, k, u).Some? && forall m :: k < m < |h| ==> Sets(rules, h, m, u).None?
    ensures forall guess :: var v := Present(h).users[u];
              Open(Derived(guess, v.salt), v.wrap) ==
              if guess == Sets(rules, h, k, u).value then Some(h[i].call.req.keys.mk) else None
  {
    assert h[..|h|] == h;
    SoundBefore(rules, h, |h|);
    i := MadeOnce(rules, h, |h|);
    k := LatestSet(rules, h, |h|, u);
  }

  // ---------- one-time codes ----------

  /** For whom the k-th request draws a secret. */
  function DrawnFor(h: seq<Event>, k: nat): User
    requires k < |h|
  {
    match h[k].call.req
    case OnFactors(ResetCode(_)) => Actor(Before(h, k), h[k].call)
    case OnKeys(InitVault(user, _, _, _, _, _, _, _)) => user
    case OnUsers(AddUserTo(user, _, _, _, _)) => user
    case _ => ""
  }

  lemma {:induction false} SecretOrigin(rules: Rules, h: seq<Event>, n: nat, u: User) returns (k: nat)
    requires IsHistory(rules, h) && n <= |h| && u in Before(h, n).users
    ensures k < n && SecretDrawn(h[k].call.req) == Some(Before(h, n).users[u].secret) && DrawnFor(h, k) == u
    ensures forall m :: k < m < n ==> !Adds(h[m], u)
  {
    OneUser(rules, h, n - 1, u);
    if SecretDrawn(h[n - 1].call.req).Some? && h[n - 1].ok && DrawnFor(h, n - 1) == u {
      k := n - 1;
    } else {
      k := SecretOrigin(rules, h, n - 1, u);
    }
  }

  lemma DrawnOnce(rules: Rules, h: seq<Event>, i: nat, j: nat)
    requires IsHistory(rules, h) && i < |h| && j < |h|
    requires SecretDrawn(h[i].call.req).Some? && SecretDrawn(h[i].call.req) == SecretDrawn(h[j].call.req)
    ensures i == j
  {
    var k := if i < j then j else i;
    StepOf(rules, h, k);
    assert forall m :: 0 <= m < k ==> h[..k][m] == h[m];
    assert forall m :: 0 <= m < k ==> SecretDrawn(h[m].call.req) != SecretDrawn(h[k].call.req);
  }

  predicate Shows(e: Event, code: Code) {
    e.ok && e.call.req.UnlockVault? && e.call.req.code == code
  }

  /** A code that unlocks again does so for the same user, in a later window, and no more than a step from its own. */
  lemma CodeAgain(rules: Rules, h: seq<Event>, i: nat, j: nat, code: Code)
    requires IsHistory(rules, h) && i < j < |h| && Shows(h[i], code) && Shows(h[j], code)
    ensures h[i].call.req.user == h[j].call.req.user
    ensures Window(h[i].call.now) < Window(h[j].call.now)
  {
    var u, v := h[i].call.req.user, h[j].call.req.user;
    LaterWindow(rules, h, i, u);
    LaterWindow(rules, h, j, v);
    var k := SecretOrigin(rules, h, i, u);
    var l := SecretOrigin(rules, h, j, v);
    DrawnOnce(rules, h, k, l);
    UnlockWindowsIncrease(rules, h, i, j, u);
  }

  lemma CodeNearStep(rules: Rules, h: seq<Event>, i: nat, code: Code)
    requires IsHistory(rules, h) && i < |h| && Shows(h[i], code)
    ensures code.step - 1 <= Window(h[i].call.now) <= code.step + 1
  {
    LaterWindow(rules, h, i, h[i].call.req.user);
  }

  lemma {:induction false} Spread(s: set<nat>, f: map<nat, int>, low: int, size: nat)
    requires forall i :: i in s ==> i in f && low <= f[i] < low + size
    requires forall i, j :: i in s && j in s && i != j ==> f[i] != f[j]
    ensures |s| <= size
  {
    if size == 0 {
      assert s == {};
    } else if exists i :: i in s && f[i] == low + size - 1 {
      var i :| i in s && f[i] == low + size - 1;
      Spread(s - {i}, f, low, size - 1);
    } else {
      Spread(s, f, low, size - 1);
    }
  }

  /** Over every run one code unlocks at most three times, whoever shows it. */
  lemma CodeUnlocksAtMostThrice(rules: Rules, h: seq<Event>, code: Code)
    requires IsHistory(rules, h)
    ensures |set i: nat | i < |h| && Shows(h[i], code)| <= 3
  {
    var s := set i: nat | i < |h| && Shows(h[i], code);
    var f: map<nat, int> := map i | i in s :: Window(h[i].call.now);
    forall i | i in s ensures code.step - 1 <= f[i] <= code.step + 1 {
      CodeNearStep(rules, h, i, code);
    }
    forall i, j | i in s && j in s && i != j ensures f[i] != f[j] {
      if i < j {
        CodeAgain(rules, h, i, j, code);
      } else {
        CodeAgain(rules, h, j, i, code);
      }
    }
    Spread(s, f, code.step - 1, 3);
  }

  // ---------- setting a user up ----------

  /** A granted confirmation of a user's code, and a granted binding of a certificate. */
  predicate Confirms(h: seq<Event>, k: nat, u: User)
    requires k < |h|
  {
    h[k].ok && h[k].call.req.OnFactors? && h[k].call.req.factors.VerifyCode? && Actor(Before(h, k), h[k].call) == u
  }

  predicate Reseeds(h: seq<Event>, k: nat, u: User)
    requires k < |h|
  {
    h[k].ok && h[k].call.req.OnFactors? && h[k].call.req.factors.ResetCode? && Actor(Before(h, k), h[k].call) == u
  }

  predicate Binds(h: seq<Event>, k: nat, u: User)
    requires k < |h|
  {
    h[k].ok && h[k].call.req.OnFactors? && h[k].call.req.factors.BindCertTo? && Actor(Before(h, k), h[k].call) == u
  }

  lemma {:induction false} AddedOnce(rules: Rules, h: seq<Event>, n: nat, u: User) returns (k: nat)
    requires IsHistory(rules, h) && n <= |h| && u in Before(h, n).users
    ensures k < n && Adds(h[k], u) && forall m :: k < m < n ==> !Adds(h[m], u) && !Removes(h[m], u)
  {
    OneUser(rules, h, n - 1, u);
    if Adds(h[n - 1], u) {
      k := n - 1;
    } else {
      k := AddedOnce(rules, h, n - 1, u);
    }
  }

  lemma {:induction false} ConfirmedSince(rules: Rules, h: seq<Event>, n: nat, u: User) returns (k: nat)
    requires IsHistory(rules, h) && n <= |h| && u in Before(h, n).users && Before(h, n).users[u].totpBound
    ensures k < n && Confirms(h, k, u) && forall m :: k < m < n ==> !Adds(h[m], u) && !Reseeds(h, m, u)
  {
    OneUser(rules, h, n - 1, u);
    if Confirms(h, n - 1, u) {
      k := n - 1;
    } else {
      k := ConfirmedSince(rules, h, n - 1, u);
    }
  }

  lemma {:induction false} CertifiedSince(rules: Rules, h: seq<Event>, n: nat, u: User) returns (k: nat)
    requires IsHistory(rules, h) && n <= |h| && u in Before(h, n).users && Before(h, n).users[u].cert.Some?
    ensures k < n && Binds(h, k, u) && Before(h, n).users[u].cert == Some(h[k].call.req.factors.cert)
    ensures forall m :: k < m < n ==> !Adds(h[m], u) && !Binds(h, m, u)
  {
    OneUser(rules, h, n - 1, u);
    if Binds(h, n - 1, u) {
      k := n - 1;
    } else {
      k := CertifiedSince(rules, h, n - 1, u);
    }
  }

  /**
   Every granted unlock: the user was added, since then confirmed the code of the secret now in force and bound the
   certificate now registered, and shows the password last set.
   */
  lemma UnlockedWasSetUp(rules: Rules, h: seq<Event>, n: nat, u: User)
    returns (added: nat, confirmed: nat, bound: nat, chosen: nat)
    requires IsHistory(rules, h) && n < |h| && Unlocks(h[n], u)
    ensures added < confirmed < n && added < bound < n
    ensures Adds(h[added], u) && forall m :: added < m < n ==> !Adds(h[m], u) && !Removes(h[m], u)
    ensures Confirms(h, confirmed, u) && forall m :: confirmed < m < n ==> !Reseeds(h, m, u)
    ensures Binds(h, bound, u) && forall m :: bound < m < n ==> !Binds(h, m, u)
    ensures chosen < n && Sets(rules, h, chosen, u) == Some(h[n].call.req.password)
    ensures forall m :: chosen < m < n ==> Sets(rules, h, m, u).None?
  {
    LaterWindow(rules, h, n, u);
    SoundBefore(rules, h, n);
    added := AddedOnce(rules, h, n, u);
    confirmed := ConfirmedSince(rules, h, n, u);
    bound := CertifiedSince(rules, h, n, u);
    chosen := LatestSet(rules, h, n, u);
  }
}
