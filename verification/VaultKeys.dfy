/**
 The vault's key tree, sessions and challenges in one process. Requests are handled one at a time and saving succeeds;
 the clock, in seconds, never goes backwards; random tokens, secrets, salts and ids are fresh. The load after an unlock
 ends in a step of its own, with requests in between.
 */
module VaultKeys {
  import opened Common
  import opened Sealing
  import opened VaultLedger
  import VaultRuns
  import VaultPolicy

  class VaultState {
    const idleTimeout: Seconds
    const maxAttempts: nat
    const lockout: Seconds
    const minLength: nat
    const passwordExpire: Seconds
    const forceExpire: bool
    const bindSessionIP: bool

    var initialized: bool
    var masterKey: Option<Key>
    var loading: bool
    var migrating: bool
    var users: Users
    var recovery: Option<Recovery>
    var indexWrap: Option<Sealed<Key>>
    var sessions: Sessions
    var challenges: Challenges
    var initTokens: map<Token, InitToken>
    var failures: map<string, FailEntry>

    ghost var root: Key
    ghost var indexKey: Key
    ghost var passwords: map<User, string>
    ghost var issued: set<Token>
    ghost var revoked: set<Token>
    ghost var drawn: map<ChallengeId, Purpose>
    ghost var spent: map<ChallengeId, Purpose>
    ghost var tenures: map<User, Tenures>
    ghost var log: Record

    ghost predicate UsersValid()
      reads this`users, this`passwords, this`root, this`tenures, this`initialized
    {
      && UsersSound(users, passwords, tenures, root)
      && (!initialized ==> users == map[])
    }

    ghost predicate RootValid()
      reads this`root, this`indexKey, this`recovery, this`indexWrap, this`masterKey, this`initialized
    {
      && TreeSound(recovery, indexWrap, masterKey, root, indexKey)
      && (initialized <==> recovery.Some?)
      && (!initialized ==> masterKey == None)
    }

    ghost predicate SessionsValid()
      reads this`initialized, this`sessions, this`root, this`issued, this`revoked
    {
      && SessionsSound(sessions, root, issued, revoked, idleTimeout)
      && revoked <= issued
      && (!initialized ==> sessions == map[])
    }

    ghost predicate PoolValid()
      reads this`challenges, this`drawn, this`spent
    {
      ChallengesSound(challenges, drawn, spent)
    }

    ghost predicate PoolBounded()
      reads this`challenges
    {
      |challenges| <= MAX_CHALLENGES
    }

    /** The parts read different fields; each method names the parts that read what it changes, and keeps them. */
    ghost predicate Valid()
      reads this
    {
      UsersValid() && RootValid() && SessionsValid() && PoolValid() && PoolBounded()
    }

    /** Nothing of the key tree moves. */
    twostate predicate SameKeys()
      reads this
    {
      && users == old(users) && passwords == old(passwords) && root == old(root) && indexKey == old(indexKey)
      && recovery == old(recovery) && indexWrap == old(indexWrap) && masterKey == old(masterKey)
      && initialized == old(initialized)
    }

    /** What the daemon was configured with. */
    function Policy(): Rules {
      Rules(idleTimeout, passwordExpire, forceExpire, minLength, bindSessionIP)
    }

    ghost function Book(): Ledger
      reads this`initialized, this`root, this`users, this`passwords, this`tenures, this`masterKey, this`loading,
            this`sessions, this`initTokens, this`issued, this`revoked
    {
      Ledger(initialized, root, users, passwords, tenures, masterKey, loading, sessions, initTokens, issued, revoked)
    }

    ghost predicate FreshToken(t: Token)
      reads this
    {
      t !in sessions && t !in initTokens && t !in issued
    }

    constructor (idleTimeout: Seconds, maxAttempts: nat, lockout: Seconds, minLength: nat, passwordExpire: Seconds,
                 forceExpire: bool, bindSessionIP: bool)
      ensures Valid() && !initialized && users == map[] && sessions == map[] && issued == {}
      ensures challenges == map[] && drawn == map[] && spent == map[] && tenures == map[]
      ensures initTokens == map[] && failures == map[] && log == Log(Policy(), []) && Logged()
      ensures this.idleTimeout == idleTimeout && this.maxAttempts == maxAttempts && this.lockout == lockout
      ensures this.minLength == minLength && this.passwordExpire == passwordExpire
      ensures this.forceExpire == forceExpire && this.bindSessionIP == bindSessionIP
    {
      this.idleTimeout, this.maxAttempts, this.lockout := idleTimeout, maxAttempts, lockout;
      this.minLength, this.passwordExpire := minLength, passwordExpire;
      this.forceExpire, this.bindSessionIP := forceExpire, bindSessionIP;
      initialized, masterKey, loading, migrating := false, None, false, false;
      users, recovery, indexWrap := map[], None, None;
      sessions, challenges, initTokens, failures := map[], map[], map[], map[];
      root, indexKey, passwords := Random(0), Random(0), map[];
      issued, revoked, drawn, spent, tenures := {}, {}, map[], map[], map[];
      log := Log(Rules(idleTimeout, passwordExpire, forceExpire, minLength, bindSessionIP), []);
    }

    // ---------- policy and limiter ----------

    /** One pass over the password, after its length. */
    method IsStrong(pw: string) returns (ok: bool)
      ensures ok == StrongPassword(pw, minLength)
    {
      if |pw| < minLength {
        return false;
      }
      var hasUpper, hasLower, hasDigit := false, false, false;
      for i := 0 to |pw|
        invariant hasUpper == HasCharIn(pw[..i], 'A', 'Z')
        invariant hasLower == HasCharIn(pw[..i], 'a', 'z')
        invariant hasDigit == HasCharIn(pw[..i], '0', '9')
      {
        OneCharMore(pw, i);
        if 'A' <= pw[i] <= 'Z' {
          hasUpper := true;
        } else if 'a' <= pw[i] <= 'z' {
          hasLower := true;
        } else if '0' <= pw[i] <= '9' {
          hasDigit := true;
        }
      }
      assert pw[..|pw|] == pw;
      return hasUpper && hasLower && hasDigit;
    }

    predicate IsLimited(key: string, now: Seconds)
      reads this
    {
      key in failures && now < failures[key].until
    }

    /** One failure; a window that has run out starts over, enough failures lock. */
    method Fail(key: string, now: Seconds)
      modifies this`failures
      ensures FailedOnce(key, now)
    {
      var f := if key in failures && !(now - failures[key].windowStart > lockout) then failures[key]
               else FailEntry(now, 0, 0);
      f := f.(count := f.count + 1);
      if f.count >= maxAttempts {
        f := f.(until := now + lockout);
      }
      failures := failures[key := f];
    }

    /** The key has one failure more. */
    twostate predicate FailedOnce(key: string, now: Seconds)
      reads this`failures
    {
      var before := if key in old(failures) then Some(old(failures)[key]) else None;
      failures == old(failures)[key := Counted(before, now, maxAttempts, lockout)]
    }

    method Reset(key: string)
      modifies this`failures
      ensures failures == old(failures) - {key}
    {
      failures := failures - {key};
    }

    // ---------- authorisation ----------

    /** The live session behind a token; an address bound to it must match. */
    function SessionFor(token: Token, ip: string, now: Seconds): Option<VaultSession>
      reads this`sessions
    {
      if token !in sessions || now > sessions[token].expiresAt then None
      else if bindSessionIP && sessions[token].ip != "" && sessions[token].ip != ip then None
      else Some(sessions[token])
    }

    /** Whom a token speaks for: an onboarding token first, then a recovery session, then an unlocked session. */
    function Target(token: Token, ip: string, now: Seconds): Option<(User, Kind)>
      reads this
    {
      if token in initTokens && now < initTokens[token].expires && initTokens[token].user in users then
        Some((initTokens[token].user, ByInit))
      else
        var s := SessionFor(token, ip, now);
        if s.None? || s.value.user !in users then None
        else if s.value.recovery then Some((s.value.user, ByRecovery))
        else if masterKey.Some? then Some((s.value.user, BySession))
        else None
    }

    /** An unlocked session speaks for its user until it expires, where bound from its own address alone. */
    lemma UnlockedByIff(token: Token, ip: string, now: Seconds)
      ensures UnlockedBy(token, ip, now) <==>
              && masterKey.Some? && token in sessions && !sessions[token].recovery && now <= sessions[token].expiresAt
              && (bindSessionIP && sessions[token].ip != "" ==> sessions[token].ip == ip)
    {
    }

    /** An onboarding token speaks for its user; else a session does, if it is a recovery or the key is in memory. */
    lemma TargetIff(token: Token, ip: string, now: Seconds, u: User, kind: Kind)
      ensures Target(token, ip, now) == Some((u, kind)) <==>
              && u in users
              && var byInit := token in initTokens && now < initTokens[token].expires
                               && initTokens[token].user in users;
                 if kind == ByInit then byInit && initTokens[token].user == u
                 else
                   && !byInit && token in sessions && sessions[token].user == u && now <= sessions[token].expiresAt
                   && (bindSessionIP && sessions[token].ip != "" ==> sessions[token].ip == ip)
                   && (if kind == ByRecovery then sessions[token].recovery
                       else !sessions[token].recovery && masterKey.Some?)
    {
    }

    /** A key with enough failures within one window is limited until a lockout after the last, any other is not. */
    lemma LimitedIff(key: string, times: seq<Seconds>, now: Seconds)
      requires times != [] && forall i :: 0 <= i < |times| ==> times[0] <= times[i] <= times[0] + lockout
      requires key in failures && VaultPolicy.FailedAt(times, maxAttempts, lockout) == Some(failures[key])
      ensures IsLimited(key, now) <==> |times| >= maxAttempts && now < times[|times| - 1] + lockout
    {
      VaultPolicy.FailuresAddUp(times, maxAttempts, lockout);
    }

    /** The target is whom the request acts for in the ledger. */
    lemma TargetActs(c: Call)
      requires Target(c.token, c.ip, c.now).Some?
      ensures var (u, kind) := Target(c.token, c.ip, c.now).value;
              && u == Actor(Book(), c) && u in users
              && (kind == ByInit <==> SpeaksAsInit(Book(), c))
              && (kind != ByInit ==>
                    LiveFor(Policy(), Book(), c) && (kind == ByRecovery) == sessions[c.token].recovery)
    {
    }

    /** So is whoever confirms a code. */
    lemma TotpActs(c: Call)
      requires TotpUser(c.token, c.ip, c.now).Some?
      ensures TotpUser(c.token, c.ip, c.now).value == Actor(Book(), c) && Actor(Book(), c) in users
      ensures SpeaksAsInit(Book(), c) || Live(Policy(), Book(), c)
    {
    }

    /** A live unlocked session of a recovery-free kind, as locking and user management demand it. */
    predicate UnlockedBy(token: Token, ip: string, now: Seconds)
      reads this
    {
      masterKey.Some? && SessionFor(token, ip, now).Some? && !SessionFor(token, ip, now).value.recovery
    }

    // ---------- initialisation ----------

    method Init(user: User, password: string, mk: Key, ik: Key, salt: nat, secret: nat,
                recoveryToken: nat, initToken: Token, now: Seconds)
      returns (r: Result<Token, VaultError>)
      requires UsersValid() && RootValid() && SessionsValid() && FreshToken(initToken)
      modifies this`users, this`passwords, this`tenures, this`recovery, this`indexWrap, this`initialized, this`root,
               this`indexKey, this`initTokens
      ensures UsersValid() && RootValid() && SessionsValid()
      ensures Book() == if r.Ok? then Planted(old(Book()), user, password, mk, salt, secret, initToken, now)
                        else old(Book())
      ensures r.Err? ==> SameKeys()
      ensures r.Ok? <==> !old(initialized) && user != "" && StrongPassword(password, minLength)
      ensures r.Ok? ==>
                && r.value == initToken && indexKey == ik && masterKey == None
                && recovery.Some? && Open(Random(recoveryToken), recovery.value.wrap) == Some(root)
    {
      if initialized {
        return Err(AlreadyInitialized);
      }
      if user == "" {
        return Err(BadUser);
      }
      var strong := IsStrong(password);
      if !strong {
        return Err(WeakPassword);
      }
      PlantTree(user, password, mk, ik, salt, secret, recoveryToken, initToken, now);
      return Ok(initToken);
    }

    /** The first user, the recovery wrap and the index key, all over one new master key. */
    method PlantTree(user: User, password: string, mk: Key, ik: Key, salt: nat, secret: nat, recoveryToken: nat,
                     initToken: Token, now: Seconds)
      requires UsersValid() && RootValid() && SessionsValid() && !initialized
      modifies this`users, this`passwords, this`tenures, this`recovery, this`indexWrap, this`initialized, this`root,
               this`indexKey, this`initTokens
      ensures UsersValid() && RootValid() && SessionsValid() && indexKey == ik
      ensures Book() == Planted(old(Book()), user, password, mk, salt, secret, initToken, now)
      ensures recovery == Some(Recovery(recoveryToken, Sealed(Random(recoveryToken), mk)))
    {
      PlantRoot(mk, ik, recoveryToken);
      AddedSound(users, passwords, tenures, root, user, NewUser(password, salt, secret, mk, now), password);
      Admit(user, password, mk, salt, secret, initToken, now);
    }

    method PlantRoot(mk: Key, ik: Key, recoveryToken: nat)
      requires UsersValid() && RootValid() && SessionsValid() && !initialized
      modifies this`recovery, this`indexWrap, this`initialized, this`root, this`indexKey
      ensures UsersValid() && RootValid() && SessionsValid() && users == map[]
      ensures initialized && root == mk && indexKey == ik
      ensures recovery == Some(Recovery(recoveryToken, Sealed(Random(recoveryToken), mk)))
    {
      root, indexKey := mk, ik;
      recovery := Some(Recovery(recoveryToken, Sealed(Random(recoveryToken), mk)));
      indexWrap := Some(Sealed(mk, ik));
      initialized := true;
    }

    /** A user yet to be set up, whose wrap of the master key opens under the given password. */
    method PutUser(user: User, password: string, mk: Key, salt: nat, secret: nat, now: Seconds)
      modifies this`users, this`passwords, this`tenures
      ensures users == old(users)[user := NewUser(password, salt, secret, mk, now)]
      ensures passwords == old(passwords)[user := password]
      ensures tenures == old(tenures)[user := Joined(History(old(tenures), user))]
    {
      users := users[user := NewUser(password, salt, secret, mk, now)];
      passwords, tenures := passwords[user := password], tenures[user := Joined(History(tenures, user))];
    }

    /** Changes to a user that leave the wrap alone and never take a used one-time window back. */
    method EditUser(user: User, v: VaultUser)
      requires UsersValid() && user in users
      requires v.wrap == users[user].wrap && v.salt == users[user].salt && v.lastWindow >= users[user].lastWindow
      modifies this`users
      ensures UsersValid() && users == old(users)[user := v]
    {
      users := users[user := v];
    }

    /** Whose one-time code a token may confirm: an onboarding token's user, or else a session's. */
    function TotpUser(token: Token, ip: string, now: Seconds): Option<User>
      reads this`initTokens, this`sessions, this`users
    {
      if Onboarding(initTokens, token, now) then
        if initTokens[token].user in users then Some(initTokens[token].user) else None
      else
        var s := SessionFor(token, ip, now);
        if s.Some? && s.value.user in users then Some(s.value.user) else None
    }

    /** Confirming the one-time code; too many failures with an onboarding token void it. */
    method VerifyTotp(token: Token, ip: string, code: Code, now: Seconds) returns (r: Result<(), VaultError>)
      requires UsersValid()
      modifies this`users, this`initTokens, this`failures
      ensures UsersValid()
      ensures r == (if old(IsLimited("verify:" + ip, now)) then Err(Limited)
                    else if old(TotpUser(token, ip, now)).None? then Err(Unauthorized)
                    else if Fits(code, old(users)[old(TotpUser(token, ip, now)).value], now) then Ok(())
                    else Err(AuthFailed))
      ensures Book() == old(AfterCode(r, token, TotpUser(token, ip, now), now))
      ensures r == Err(AuthFailed) && token in old(initTokens) && now < old(initTokens)[token].expires ==>
                if old(initTokens)[token].fails >= 4 then token !in initTokens
                else token in initTokens && initTokens[token].fails == old(initTokens)[token].fails + 1
      ensures r.Ok? ==> failures == old(failures) - {"verify:" + ip}
    {
      r := VerifyWith(token, ip, "verify:" + ip, code, now);
      if r.Ok? {
        EditedSound(old(users), passwords, tenures, root, old(TotpUser(token, ip, now)).value,
                    users[old(TotpUser(token, ip, now)).value]);
      }
    }

    /** The ledger after a code was confirmed, or found wrong. */
    ghost function AfterCode(r: Result<(), VaultError>, token: Token, u: Option<User>, now: Seconds): Ledger
      reads this
    {
      if r.Ok? && u.Some? then Confirmed(Book(), u.value)
      else if r == Err(AuthFailed) && Onboarding(initTokens, token, now) then CodeFailed(Book(), token)
      else Book()
    }

    method VerifyWith(token: Token, ip: string, key: string, code: Code, now: Seconds)
      returns (r: Result<(), VaultError>)
      modifies this`users, this`initTokens, this`failures
      ensures r == (if old(IsLimited(key, now)) then Err(Limited)
                    else if old(TotpUser(token, ip, now)).None? then Err(Unauthorized)
                    else if Fits(code, old(users)[old(TotpUser(token, ip, now)).value], now) then Ok(())
                    else Err(AuthFailed))
      ensures Book() == old(AfterCode(r, token, TotpUser(token, ip, now), now))
      ensures r == Err(AuthFailed) && token in old(initTokens) && now < old(initTokens)[token].expires ==>
                if old(initTokens)[token].fails >= 4 then token !in initTokens
                else token in initTokens && initTokens[token].fails == old(initTokens)[token].fails + 1
      ensures r == Err(AuthFailed) ==> FailedOnce(key, now)
      ensures r.Ok? ==> failures == old(failures) - {key}
    {
      if IsLimited(key, now) {
        return Err(Limited);
      }
      var u := TotpUser(token, ip, now);
      if u.None? {
        return Err(Unauthorized);
      }
      if !Matches(code, users[u.value].secret, now) || Window(now) <= users[u.value].lastWindow {
        Fail(key, now);
        if Onboarding(initTokens, token, now) {
          CountInitFailure(token);
        }
        return Err(AuthFailed);
      }
      users := users[u.value := users[u.value].(totpBound := true)];
      Reset(key);
      return Ok(());
    }

    method CountInitFailure(token: Token)
      requires token in initTokens
      modifies this`initTokens
      ensures initTokens == AfterFailure(old(initTokens), token)
      ensures if old(initTokens)[token].fails >= 4 then token !in initTokens
              else token in initTokens && initTokens[token].fails == old(initTokens)[token].fails + 1
    {
      initTokens := initTokens[token := initTokens[token].(fails := initTokens[token].fails + 1)];
      if initTokens[token].fails >= MAX_TOTP_FAILS {
        initTokens := initTokens - {token};
      }
    }

    /** A fresh one-time secret has to be confirmed again before the next unlock. */
    method ResetTotp(token: Token, ip: string, secret: nat, now: Seconds) returns (r: Result<(), VaultError>)
      requires UsersValid()
      modifies this`users
      ensures UsersValid()
      ensures r.Ok? <==> old(Target(token, ip, now)).Some? && old(Target(token, ip, now)).value.1 != ByInit
      ensures Book() == if r.Ok? then Reseeded(old(Book()), old(Target(token, ip, now)).value.0, secret)
                        else old(Book())
    {
      var target := Target(token, ip, now);
      if target.None? || target.value.1 == ByInit {
        return Err(Unauthorized);
      }
      var u := target.value.0;
      EditUser(u, users[u].(secret := secret, totpBound := false));
      return Ok(());
    }

    // ---------- challenges ----------

    /** Issuing a challenge; a full pool first drops what has expired. */
    method IssueChallenge(purpose: Purpose, id: ChallengeId, now: Seconds) returns (r: Result<ChallengeId, VaultError>)
      requires PoolValid() && PoolBounded() && id !in drawn
      modifies this`challenges, this`drawn
      ensures PoolValid() && PoolBounded()
      ensures r.Ok? ==> id in challenges && challenges[id] == Challenge(purpose, now + CHALLENGE_TTL, false)
      ensures |old(challenges)| < MAX_CHALLENGES ==>
                && r.Ok? && challenges == old(challenges)[id := challenges[id]]
                && |challenges| <= |old(challenges)| + 1 && drawn == old(drawn)[id := purpose]
      ensures |old(challenges)| >= MAX_CHALLENGES && r.Ok? ==>
                forall c :: c != id ==>
                  && (c in challenges <==> c in old(challenges) && now <= old(challenges)[c].expires)
                  && (c in challenges ==> challenges[c] == old(challenges)[c])
      ensures r.Err? ==> r == Err(PoolFull) && |challenges| == MAX_CHALLENGES && drawn == old(drawn)
                         && forall c :: c in challenges ==> now <= challenges[c].expires
    {
      if |challenges| >= MAX_CHALLENGES {
        DropExpiredChallenges(now);
        if |challenges| >= MAX_CHALLENGES {
          return Err(PoolFull);
        }
      }
      AddChallenge(purpose, id, now);
      return Ok(id);
    }

    method AddChallenge(purpose: Purpose, id: ChallengeId, now: Seconds)
      requires PoolValid() && |challenges| < MAX_CHALLENGES && id !in drawn
      modifies this`challenges, this`drawn
      ensures PoolValid() && PoolBounded() && |challenges| <= |old(challenges)| + 1
      ensures challenges == old(challenges)[id := Challenge(purpose, now + CHALLENGE_TTL, false)]
      ensures drawn == old(drawn)[id := purpose]
    {
      challenges := challenges[id := Challenge(purpose, now + CHALLENGE_TTL, false)];
      drawn := drawn[id := purpose];
      assert challenges.Keys <= old(challenges).Keys + {id};
    }

    method DropExpiredChallenges(now: Seconds)
      requires PoolValid()
      modifies this`challenges
      ensures PoolValid()
      ensures challenges == map c | c in old(challenges) && now <= old(challenges)[c].expires :: old(challenges)[c]
      ensures |challenges| <= |old(challenges)|
    {
      var todo := challenges.Keys;
      while todo != {}
        invariant todo <= old(challenges).Keys && |challenges| <= |old(challenges)|
        invariant challenges == map c | c in old(challenges) && (c in todo || now <= old(challenges)[c].expires) ::
                                  old(challenges)[c]
      {
        var c :| c in todo;
        todo := todo - {c};
        if now > challenges[c].expires {
          Fewer(challenges, c);
          challenges := challenges - {c};
        }
      }
    }

    predicate Spendable(id: ChallengeId, purpose: Purpose, now: Seconds)
      reads this`challenges
    {
      id in challenges && challenges[id].purpose == purpose && !challenges[id].used && now <= challenges[id].expires
    }

    /** The first attempt uses a challenge up, whatever becomes of the attempt. */
    method SpendChallenge(id: ChallengeId, purpose: Purpose, now: Seconds) returns (ok: bool)
      requires PoolValid()
      modifies this`challenges, this`spent
      ensures PoolValid()
      ensures ok == old(Spendable(id, purpose, now)) && !Spendable(id, purpose, now)
      ensures ok <==> id in old(challenges) && old(challenges)[id].purpose == purpose && !old(challenges)[id].used
                      && now <= old(challenges)[id].expires
      ensures old(Spendable(id, purpose, now)) ==> id !in old(spent)
      ensures ok ==> spent == old(spent)[id := purpose] && drawn[id] == purpose
                     && challenges == old(challenges)[id := old(challenges)[id].(used := true)]
      ensures !ok ==> spent == old(spent) && challenges == old(challenges)
      ensures |challenges| == |old(challenges)|
    {
      if !Spendable(id, purpose, now) {
        return false;
      }
      challenges := challenges[id := challenges[id].(used := true)];
      spent := spent[id := purpose];
      assert challenges.Keys == old(challenges).Keys;
      return true;
    }

    /** Binding a certificate for the token's user; completing the onboarding voids its token. */
    method BindCert(token: Token, ip: string, id: ChallengeId, cert: string, certOk: bool, signatureOk: bool,
                    now: Seconds)
      returns (r: Result<(), VaultError>)
      requires UsersValid() && PoolValid()
      modifies this`users, this`challenges, this`spent, this`initTokens
      ensures UsersValid() && PoolValid()
      ensures r.Ok? <==> old(Target(token, ip, now)).Some? && old(Spendable(id, ForCertBind, now)) && certOk
                         && signatureOk
      ensures Book() == if r.Ok? then Certified(old(Book()), old(Target(token, ip, now)).value.0, cert, token,
                                                old(Target(token, ip, now)).value.1 == ByInit)
                        else old(Book())
      ensures old(Spendable(id, ForCertBind, now)) ==> id !in old(spent)
      ensures spent == if old(Target(token, ip, now)).Some? && old(Spendable(id, ForCertBind, now))
                       then old(spent)[id := ForCertBind] else old(spent)
      ensures |challenges| == |old(challenges)|
    {
      var target := Target(token, ip, now);
      if target.None? {
        return Err(Unauthorized);
      }
      var unused := SpendChallenge(id, ForCertBind, now);
      if !unused {
        r := Err(BadChallenge);
      } else if !certOk || !signatureOk {
        r := Err(AuthFailed);
      } else {
        RegisterCert(token, target.value.0, target.value.1 == ByInit, cert);
        r := Ok(());
      }
    }

    method RegisterCert(token: Token, u: User, onboarding: bool, cert: string)
      requires UsersValid() && u in users
      modifies this`users, this`initTokens
      ensures UsersValid() && Book() == Certified(old(Book()), u, cert, token, onboarding)
    {
      EditUser(u, users[u].(cert := Some(cert)));
      if onboarding {
        initTokens := initTokens - {token};
      }
    }

    // ---------- unlocking ----------

    ghost predicate WrapOpens(user: User)
      requires user in users
      reads this`users, this`passwords, this`root
    {
      user in passwords && users[user].wrap == Sealed(Derived(passwords[user], users[user].salt), root)
    }

    /** The master key a password opens for a user, if any. */
    method OpenWrap(user: User, password: string) returns (r: Option<Key>)
      requires user in users && WrapOpens(user)
      ensures r == if password == passwords[user] then Some(root) else None
    {
      r := Open(Derived(password, users[user].salt), users[user].wrap);
    }

    /** Wrapping the master key anew under a new password and salt. */
    method Rewrap(user: User, password: string, mk: Key, salt: nat, now: Seconds)
      requires user in users
      modifies this`users, this`passwords
      ensures passwords == old(passwords)[user := password]
      ensures users == old(users)[user := Rewrapped(old(users)[user], password, salt, mk, now)]
    {
      users := users[user := users[user].(salt := salt, wrap := Sealed(Derived(password, salt), mk), changedAt := now)];
      passwords := passwords[user := password];
    }

    predicate MustChange(user: User, now: Seconds)
      requires user in users
      reads this`users
    {
      ChangeDue(Policy(), users[user], now)
    }

    /** An expired password has to be replaced, by a strong one, before the unlock goes on. */
    method ReplaceExpired(user: User, newPassword: string, mk: Key, salt: nat, now: Seconds)
      returns (r: Option<VaultError>)
      requires user in users
      modifies this`users, this`passwords
      ensures r.None? <==> old(Replaceable(user, newPassword, now))
      ensures r != Some(Limited) && r != Some(NotInitialized)
      ensures passwords == if r.None? && old(MustChange(user, now)) then old(passwords)[user := newPassword]
                           else old(passwords)
      ensures users == if r.None? && old(MustChange(user, now))
                       then old(users)[user := Rewrapped(old(users)[user], newPassword, salt, mk, now)]
                       else old(users)
    {
      if MustChange(user, now) {
        if newPassword == "" {
          return Some(PasswordExpired);
        }
        var strong := IsStrong(newPassword);
        if !strong {
          return Some(WeakPassword);
        }
        Rewrap(user, newPassword, mk, salt, now);
      }
      return None;
    }

    predicate Replaceable(user: User, newPassword: string, now: Seconds)
      requires user in users
      reads this`users
    {
      MustChange(user, now) ==> newPassword != "" && StrongPassword(newPassword, minLength)
    }

    /** Everything the factors of an unlock request must get right, in the order the checks are made. */
    ghost predicate FactorsHold(user: User, password: string, code: Code, certOk: bool, now: Seconds)
      reads this`users, this`passwords
    {
      && user in users && user in passwords
      && users[user].totpBound && Fits(code, users[user], now)
      && password == passwords[user]
      && users[user].cert.Some? && certOk
    }

    ghost predicate MayUnlock(user: User, password: string, code: Code, certOk: bool, newPassword: string,
                              id: ChallengeId, now: Seconds)
      reads this`users, this`passwords, this`challenges
    {
      && Spendable(id, ForUnlock, now)
      && FactorsHold(user, password, code, certOk, now)
      && Replaceable(user, newPassword, now)
    }

    /**
     The triple-factor unlock, up to the session and the key in memory; the gate stays shut until the store has loaded.
     An expired password is changed in the same request.
     */
    method Unlock(user: User, password: string, code: Code, certOk: bool, newPassword: string, ip: string,
                  id: ChallengeId, salt: nat, token: Token, now: Seconds)
      returns (r: Result<Token, VaultError>)
      requires (user in users ==> WrapOpens(user)) && PoolValid()
      modifies this`users, this`passwords, this`sessions, this`masterKey, this`loading, this`failures, this`issued,
               this`tenures, this`challenges, this`spent
      ensures PoolValid()
      ensures r.Ok? <==> old(initialized && !IsLimited("unlock:" + user + ":" + ip, now)
                             && MayUnlock(user, password, code, certOk, newPassword, id, now))
      ensures Book() == if r.Ok? then Unlocked(Policy(), old(Book()), user, newPassword, salt, code, token, ip, now)
                        else old(Book())
      ensures r.Ok? ==> r.value == token
      ensures user in old(users) && forceExpire && 0 < passwordExpire <= now - old(users)[user].changedAt ==>
                r.Ok? ==> newPassword != "" && StrongPassword(newPassword, minLength)
      ensures user in old(users) && !(forceExpire && 0 < passwordExpire <= now - old(users)[user].changedAt) ==>
                (r.Ok? <==> old(initialized && !IsLimited("unlock:" + user + ":" + ip, now)
                                && Spendable(id, ForUnlock, now) && FactorsHold(user, password, code, certOk, now)))
      ensures r.Ok? ==> failures == old(failures) - {"unlock:" + user + ":" + ip}
      ensures spent == if old(initialized && Spendable(id, ForUnlock, now)) && r != Err(Limited)
                       then old(spent)[id := ForUnlock] else old(spent)
      ensures old(Spendable(id, ForUnlock, now)) ==> id !in old(spent)
      ensures |challenges| == |old(challenges)|
    {
      if !initialized {
        return Err(NotInitialized);
      }
      var key := "unlock:" + user + ":" + ip;
      if IsLimited(key, now) {
        return Err(Limited);
      }
      r := UnlockWith(user, password, code, certOk, newPassword, ip, key, id, salt, token, now);
    }

    method UnlockWith(user: User, password: string, code: Code, certOk: bool, newPassword: string, ip: string,
                      key: string, id: ChallengeId, salt: nat, token: Token, now: Seconds)
      returns (r: Result<Token, VaultError>)
      requires (user in users ==> WrapOpens(user)) && PoolValid()
      modifies this`users, this`passwords, this`sessions, this`masterKey, this`loading, this`failures, this`issued,
               this`tenures, this`challenges, this`spent
      ensures PoolValid() && r != Err(Limited) && r != Err(NotInitialized)
      ensures r.Ok? <==> old(MayUnlock(user, password, code, certOk, newPassword, id, now))
      ensures Book() == if r.Ok? then Unlocked(Policy(), old(Book()), user, newPassword, salt, code, token, ip, now)
                        else old(Book())
      ensures r.Ok? ==> r.value == token
      ensures r.Ok? ==> failures == old(failures) - {key}
      ensures spent == if old(Spendable(id, ForUnlock, now)) then old(spent)[id := ForUnlock] else old(spent)
      ensures old(Spendable(id, ForUnlock, now)) ==> id !in old(spent)
      ensures |challenges| == |old(challenges)|
    {
      var proved := ProveOnce(user, password, code, certOk, newPassword, key, id, salt, now);
      if proved.Ok? {
        OpenSession(user, proved.value, ip, key, token, now);
        r := Ok(token);
      } else {
        r := Err(proved.error);
      }
    }

    /** The challenge, then everything else; the challenge is used up whatever comes of it. */
    method ProveOnce(user: User, password: string, code: Code, certOk: bool, newPassword: string, key: string,
                     id: ChallengeId, salt: nat, now: Seconds)
      returns (r: Result<Key, VaultError>)
      requires (user in users ==> WrapOpens(user)) && PoolValid()
      modifies this`users, this`passwords, this`failures, this`tenures, this`challenges, this`spent
      ensures PoolValid()
      ensures r.Ok? <==> old(MayUnlock(user, password, code, certOk, newPassword, id, now))
      ensures Book() == if r.Ok? then old(Proved(Book(), user, DueFor(Policy(), users, user, now), newPassword, salt,
                                                  code, now))
                        else old(Book())
      ensures if r.Ok? then r.value == root && failures == old(failures)
              else r.error != Limited && r.error != NotInitialized
      ensures spent == if old(Spendable(id, ForUnlock, now)) then old(spent)[id := ForUnlock] else old(spent)
      ensures old(Spendable(id, ForUnlock, now)) ==> id !in old(spent)
      ensures |challenges| == |old(challenges)|
    {
      var unused := SpendChallenge(id, ForUnlock, now);
      if unused {
        r := Prove(user, password, code, certOk, newPassword, key, salt, now);
      } else {
        r := Err(AuthFailed);
      }
    }

    /** The factors, then the replacement of an expired password; the one-time window is used up. */
    method Prove(user: User, password: string, code: Code, certOk: bool, newPassword: string, key: string, salt: nat,
                 now: Seconds)
      returns (r: Result<Key, VaultError>)
      requires user in users ==> WrapOpens(user)
      modifies this`users, this`passwords, this`failures, this`tenures
      ensures r.Ok? <==> old(FactorsHold(user, password, code, certOk, now) && Replaceable(user, newPassword, now))
      ensures Book() == if r.Ok? then old(Proved(Book(), user, DueFor(Policy(), users, user, now), newPassword, salt,
                                                  code, now))
                        else old(Book())
      ensures if r.Ok? then r.value == root && failures == old(failures)
              else r.error != Limited && r.error != NotInitialized
    {
      var found := CheckFactors(user, password, code, certOk, key, now);
      if found.None? {
        r := Err(AuthFailed);
      } else {
        var refused := Renew(user, newPassword, found.value, salt, code, now);
        r := if refused.None? then Ok(found.value) else Err(refused.value);
      }
    }

    method Renew(user: User, newPassword: string, mk: Key, salt: nat, code: Code, now: Seconds)
      returns (r: Option<VaultError>)
      requires user in users && mk == root
      modifies this`users, this`passwords, this`tenures
      ensures r.None? <==> old(Replaceable(user, newPassword, now))
      ensures Book() == if r.None? then old(Proved(Book(), user, MustChange(user, now), newPassword, salt, code, now))
                        else old(Book())
      ensures r.Some? ==> r.value != Limited && r.value != NotInitialized
    {
      r := ReplaceExpired(user, newPassword, mk, salt, now);
      if r.None? {
        Overwritten(old(users), user, users[user], users[user].(lastWindow := Window(now)));
        MarkWindow(user, Use(Window(now), code));
      }
    }

    /** User, one-time code, password and certificate, each failure counted. */
    method CheckFactors(user: User, password: string, code: Code, certOk: bool, key: string, now: Seconds)
      returns (r: Option<Key>)
      requires user in users ==> WrapOpens(user)
      modifies this`failures
      ensures r == if FactorsHold(user, password, code, certOk, now) then Some(root) else None
      ensures if r.None? then FailedOnce(key, now) else failures == old(failures)
    {
      if user !in users {
        Fail(key, now);
        return None;
      }
      if !users[user].totpBound || !Matches(code, users[user].secret, now) || Window(now) <= users[user].lastWindow {
        Fail(key, now);
        return None;
      }
      r := OpenWrap(user, password);
      if r.None? {
        Fail(key, now);
        return None;
      }
      if users[user].cert.None? || !certOk {
        Fail(key, now);
        return None;
      }
    }

    /** A one-time window is remembered as used, so that no later unlock may use it or an earlier one. */
    method MarkWindow(user: User, use: Use)
      requires user in users
      modifies this`users, this`tenures
      ensures users == old(users)[user := old(users)[user].(lastWindow := use.window)]
      ensures tenures == old(tenures)[user := Recorded(History(old(tenures), user), use)]
    {
      users := users[user := users[user].(lastWindow := use.window)];
      tenures := tenures[user := Recorded(History(tenures, user), use)];
    }

    /** The session, the key in memory, and the failures forgotten; the gate stays shut while the store loads. */
    method OpenSession(user: User, mk: Key, ip: string, key: string, token: Token, now: Seconds)
      requires mk == root
      modifies this`sessions, this`masterKey, this`loading, this`issued, this`failures
      ensures Book() == Opened(old(Book()), user, token, ip, idleTimeout, now)
      ensures failures == old(failures) - {key}
    {
      sessions := sessions[token := VaultSession(user, ip, false, None, now, now + idleTimeout)];
      masterKey := Some(mk);
      loading := true;
      issued := issued + {token};
      Reset(key);
    }

    /** The load after an unlock ends, any number of requests later; its failure takes the session and the key away. */
    method EndLoad(token: Token, loadOk: bool) returns (r: Result<(), VaultError>)
      requires RootValid() && SessionsValid() && token in issued
      modifies this`sessions, this`masterKey, this`loading, this`revoked
      ensures RootValid() && SessionsValid() && !loading && (r.Ok? <==> loadOk)
      ensures Book() == if r.Ok? then old(Book()).(loading := false) else LoadFailure(old(Book()), token)
    {
      if !loadOk {
        sessions := sessions - {token};
        masterKey := None;
        loading := false;
        revoked := revoked + {token};
        return Err(LoadFailed);
      }
      loading := false;
      return Ok(());
    }

    // ---------- locking ----------

    /** Locking ends every unlocked session and forgets the key. */
    method Lock(token: Token, ip: string, now: Seconds) returns (r: Result<(), VaultError>)
      requires RootValid() && SessionsValid()
      modifies this`sessions, this`masterKey, this`loading, this`revoked
      ensures RootValid() && SessionsValid()
      ensures r.Ok? <==> old(UnlockedBy(token, ip, now))
      ensures Book() == if r.Ok? then Shut(old(Book())) else old(Book())
    {
      if !UnlockedBy(token, ip, now) {
        return Err(Unauthorized);
      }
      EndSessions(UnlockedSessions(sessions));
      revoked := issued;
      masterKey := None;
      loading := false;
      return Ok(());
    }

    /** Without any unlocked session left the key is forgotten. */
    method ForgetIdleKey()
      requires RootValid()
      modifies this`masterKey
      ensures RootValid()
      ensures masterKey == KeyFor(sessions, old(masterKey))
    {
      if UnlockedSessions(sessions) == {} {
        masterKey := None;
      }
    }

    /** Ends the given sessions, one by one. */
    method EndSessions(ended: set<Token>)
      requires SessionsValid()
      modifies this`sessions
      ensures SessionsValid()
      ensures sessions == old(sessions) - ended
    {
      var todo := sessions.Keys;
      while todo != {}
        invariant todo <= old(sessions).Keys
        invariant sessions == map t | t in old(sessions) && (t in todo || t !in ended) :: old(sessions)[t]
      {
        var t :| t in todo;
        todo := todo - {t};
        if t in ended {
          sessions := sessions - {t};
        }
      }
    }

    // ---------- passwords and recovery ----------

    /** An unlocked session must know the old password; a recovery session need not. Other sessions of the user end. */
    method ChangePassword(token: Token, ip: string, oldPassword: string, newPassword: string, salt: nat, now: Seconds)
      returns (r: Result<(), VaultError>)
      requires UsersValid() && RootValid() && SessionsValid()
      modifies this`users, this`passwords, this`sessions, this`revoked
      ensures UsersValid() && SessionsValid()
      ensures r.Ok? <==> old(Target(token, ip, now)).Some?
                         && var (u, kind) := old(Target(token, ip, now)).value;
                            && kind != ByInit && StrongPassword(newPassword, minLength)
                            && (kind == BySession ==> u in old(passwords) && oldPassword == old(passwords)[u])
      ensures Book() == if r.Ok? then
                          Rekeyed(old(Book()), old(Target(token, ip, now)).value.0, newPassword, salt, token, now)
                        else old(Book())
    {
      var target := Target(token, ip, now);
      if target.None? || target.value.1 == ByInit {
        return Err(Unauthorized);
      }
      var (u, kind) := target.value;
      var strong := IsStrong(newPassword);
      if !strong {
        return Err(WeakPassword);
      }
      var mk: Key;
      if kind == ByRecovery {
        mk := sessions[token].masterKey.value;
      } else {
        mk := masterKey.value;
        var check := OpenWrap(u, oldPassword);
        if check != Some(mk) {
          return Err(AuthFailed);
        }
      }
      Rekey(u, newPassword, mk, salt, token, now);
      return Ok(());
    }

    /** The new wrap, and the end of the user's other unlocked sessions. */
    method Rekey(u: User, newPassword: string, mk: Key, salt: nat, keep: Token, now: Seconds)
      requires UsersValid() && SessionsValid() && u in users && mk == root
      modifies this`users, this`passwords, this`sessions, this`revoked
      ensures UsersValid() && SessionsValid()
      ensures Book() == Rekeyed(old(Book()), u, newPassword, salt, keep, now)
    {
      RewrappedSound(users, passwords, tenures, root, u, newPassword, salt, now);
      Rewrap(u, newPassword, mk, salt, now);
      Revoke(SessionsOf(sessions, u) - {keep});
    }

    /** The recovery token opens a short session that holds the master key but no data. */
    method Recover(recoveryToken: nat, user: User, ip: string, token: Token, now: Seconds)
      returns (r: Result<Token, VaultError>)
      requires RootValid() && SessionsValid() && FreshToken(token)
      modifies this`sessions, this`failures
      ensures SessionsValid()
      ensures r.Ok? <==>
                && initialized && !old(IsLimited("recovery:" + ip, now)) && recoveryToken == recovery.value.token
                && if user == "" then |users| == 1 else user in users
      ensures r.Ok? ==> r.value == token && RecoveryTarget(users, user) in users
      ensures Book() == if r.Ok? then Recovered(old(Book()), RecoveryTarget(users, user), ip, token, now)
                        else old(Book())
    {
      if !initialized {
        return Err(NotInitialized);
      }
      var key := "recovery:" + ip;
      if IsLimited(key, now) {
        return Err(Limited);
      }
      if recoveryToken != recovery.value.token {
        Fail(key, now);
        return Err(AuthFailed);
      }
      var target := user;
      if user == "" {
        if |users| != 1 {
          return Err(UnknownUser);
        }
        OneKey(users);
        target :| target in users;
      } else if user !in users {
        return Err(UnknownUser);
      }
      var mk := Open(Random(recoveryToken), recovery.value.wrap);
      sessions := sessions[token := VaultSession(target, ip, true, mk, now, now + RECOVERY_TTL)];
      Reset(key);
      return Ok(token);
    }

    // ---------- users ----------

    method AddUser(token: Token, ip: string, user: User, password: string, salt: nat, secret: nat, initToken: Token,
                   now: Seconds)
      returns (r: Result<Token, VaultError>)
      requires UsersValid() && RootValid() && FreshToken(initToken)
      modifies this`users, this`passwords, this`tenures, this`initTokens
      ensures UsersValid()
      ensures r.Ok? <==> UnlockedBy(token, ip, now) && user != "" && user !in old(users)
                         && StrongPassword(password, minLength)
      ensures r.Ok? ==> r.value == initToken
      ensures Book() == if r.Ok? then Added(old(Book()), user, password, salt, secret, initToken, now) else old(Book())
    {
      if !UnlockedBy(token, ip, now) {
        return Err(Unauthorized);
      }
      if user == "" || user in users {
        return Err(BadUser);
      }
      var strong := IsStrong(password);
      if !strong {
        return Err(WeakPassword);
      }
      AddedSound(users, passwords, tenures, root, user, NewUser(password, salt, secret, root, now), password);
      Admit(user, password, masterKey.value, salt, secret, initToken, now);
      return Ok(initToken);
    }

    method Admit(user: User, password: string, mk: Key, salt: nat, secret: nat, initToken: Token, now: Seconds)
      requires mk == root
      modifies this`users, this`passwords, this`tenures, this`initTokens
      ensures Book() == Added(old(Book()), user, password, salt, secret, initToken, now)
    {
      PutUser(user, password, mk, salt, secret, now);
      initTokens := initTokens[initToken := InitToken(user, now + INIT_TTL, 0)];
    }

    /** Ends sessions for good: the tokens count as revoked from now on. */
    method Revoke(ended: set<Token>)
      requires SessionsValid() && ended <= sessions.Keys && forall t :: t in ended ==> !sessions[t].recovery
      modifies this`sessions, this`revoked
      ensures SessionsValid()
      ensures sessions == old(sessions) - ended && revoked == old(revoked) + ended
    {
      EndSessions(ended);
      revoked := revoked + ended;
    }

    /** Removing a user ends its unlocked sessions; without any unlocked session left the key is forgotten. */
    method RemoveUser(token: Token, ip: string, user: User, now: Seconds) returns (r: Result<(), VaultError>)
      requires UsersValid() && RootValid() && SessionsValid()
      modifies this`users, this`passwords, this`sessions, this`revoked, this`masterKey
      ensures UsersValid() && RootValid() && SessionsValid()
      ensures r.Ok? <==> old(UnlockedBy(token, ip, now)) && user in old(users) && |old(users)| > 1
      ensures Book() == if r.Ok? then Removed(old(Book()), user) else old(Book())
    {
      if !UnlockedBy(token, ip, now) {
        return Err(Unauthorized);
      }
      if user !in users {
        return Err(UnknownUser);
      }
      if |users| <= 1 {
        return Err(LastUser);
      }
      Expel(user);
      return Ok(());
    }

    method Expel(user: User)
      requires UsersValid() && RootValid() && SessionsValid() && initialized
      modifies this`users, this`passwords, this`sessions, this`revoked, this`masterKey
      ensures UsersValid() && RootValid() && SessionsValid()
      ensures Book() == Removed(old(Book()), user)
    {
      DropUser(user);
      RevokeUser(user);
    }

    method RevokeUser(user: User)
      requires RootValid() && SessionsValid()
      modifies this`sessions, this`revoked, this`masterKey
      ensures RootValid() && SessionsValid()
      ensures sessions == old(sessions) - SessionsOf(old(sessions), user)
      ensures revoked == old(revoked) + SessionsOf(old(sessions), user)
      ensures masterKey == KeyFor(sessions, old(masterKey))
    {
      Revoke(SessionsOf(sessions, user));
      ForgetIdleKey();
    }

    method DropUser(user: User)
      requires UsersValid() && initialized
      modifies this`users, this`passwords
      ensures UsersValid()
      ensures users == old(users) - {user} && passwords == old(passwords) - {user}
    {
      users, passwords := users - {user}, passwords - {user};
    }

    // ---------- the gate and the janitor ----------

    /** The data-plane gate: an unlocked vault and a live, non-recovery session, renewed when idle for a while. */
    method Gate(token: Token, ip: string, now: Seconds) returns (admitted: bool)
      requires SessionsValid()
      modifies this`sessions
      ensures SessionsValid()
      ensures admitted <==> initialized && !loading && !migrating && old(UnlockedBy(token, ip, now))
      ensures admitted <==> initialized && !loading && !migrating && masterKey.Some? && token in old(sessions)
                            && !old(sessions)[token].recovery && now <= old(sessions)[token].expiresAt
                            && (bindSessionIP && old(sessions)[token].ip != "" ==> old(sessions)[token].ip == ip)
      ensures admitted ==>
                && token in issued && token !in revoked
                && token in sessions && !sessions[token].recovery
                && sessions[token].expiresAt - now > idleTimeout - RENEW_INTERVAL
      ensures Book() == if admitted then Renewed(Policy(), old(Book()), token, now) else old(Book())
    {
      if !initialized || loading || migrating || masterKey.None? {
        return false;
      }
      var s := SessionFor(token, ip, now);
      if s.None? || s.value.recovery {
        return false;
      }
      if now - s.value.lastActive >= RENEW_INTERVAL {
        sessions := sessions[token := s.value.(lastActive := now, expiresAt := now + idleTimeout)];
      }
      return true;
    }

    /** The periodic sweep: expired sessions, challenges and onboarding tokens go, and with the last session the key. */
    method Sweep(now: Seconds)
      requires RootValid() && SessionsValid() && PoolValid()
      modifies this`sessions, this`masterKey, this`challenges, this`initTokens, this`failures
      ensures RootValid() && SessionsValid() && PoolValid() && |challenges| <= |old(challenges)|
      ensures Book() == Swept(old(Book()), now)
      ensures forall k :: old(IsLimited(k, now)) ==> k in failures && failures[k] == old(failures)[k]
    {
      ExpireSessions(now);
      SweepPools(now);
      assert RootValid();
    }

    method SweepPools(now: Seconds)
      requires PoolValid()
      modifies this`challenges, this`initTokens, this`failures
      ensures PoolValid() && |challenges| <= |old(challenges)|
      ensures challenges == map c | c in old(challenges) && now <= old(challenges)[c].expires :: old(challenges)[c]
      ensures Book() == old(Book()).(initTokens := LiveInitTokens(old(initTokens), now))
      ensures forall k :: old(IsLimited(k, now)) ==> k in failures && failures[k] == old(failures)[k]
    {
      DropExpiredChallenges(now);
      initTokens := LiveInitTokens(initTokens, now);
      DropStaleFailures(now);
    }

    method ExpireSessions(now: Seconds)
      requires RootValid() && SessionsValid()
      modifies this`sessions, this`masterKey
      ensures RootValid() && SessionsValid()
      ensures var left := old(sessions) - ExpiredSessions(old(sessions), now);
              Book() == old(Book()).(sessions := left, masterKey := KeyFor(left, old(masterKey)))
    {
      EndSessions(ExpiredSessions(sessions, now));
      ForgetIdleKey();
    }

    /** A failure entry goes once its lock and its window are both over. */
    method DropStaleFailures(now: Seconds)
      modifies this`failures
      ensures forall k :: old(IsLimited(k, now)) ==> k in failures && failures[k] == old(failures)[k]
      ensures forall k :: k in failures ==> k in old(failures) && failures[k] == old(failures)[k]
                                            && (now <= failures[k].until || now - failures[k].windowStart <= lockout)
    {
      failures := map k | k in failures && !(now > failures[k].until && now - failures[k].windowStart > lockout) ::
                    failures[k];
    }

    // ---------- any request ----------

    /** Random tokens and ids were never drawn before, and a load ends that an unlock began. */
    ghost predicate DrawnFresh(req: Request)
      reads this
    {
      match req
      case UnlockVault(_, _, _, _, _, _, _, session) => FreshToken(session)
      case OnFactors(request) => FactorsFresh(request)
      case OnKeys(request) => request.InitVault? ==> FreshToken(request.initToken)
      case OnUsers(request) => request.AddUserTo? ==> FreshToken(request.initToken)
      case OnSessions(request) => SessionsFresh(request)
    }

    ghost predicate FactorsFresh(req: FactorRequest)
      reads this`drawn
    {
      req.DrawChallenge? ==> req.id !in drawn
    }

    ghost predicate SessionsFresh(req: SessionRequest)
      reads this
    {
      match req
      case LoadEnds(unlocked, _) => unlocked in issued
      case RecoverWith(_, _, session) => FreshToken(session)
      case _ => true
    }

    /** What is kept beside the ledger: the recovery and index wraps, and the challenges. */
    ghost predicate Stored()
      reads this`recovery, this`indexWrap, this`root, this`indexKey, this`initialized, this`challenges, this`drawn,
            this`spent
    {
      KeysStored() && PoolValid() && PoolBounded()
    }

    ghost predicate KeysStored()
      reads this`recovery, this`indexWrap, this`root, this`indexKey, this`initialized
    {
      TreeSound(recovery, indexWrap, None, root, indexKey) && (initialized <==> recovery.Some?)
    }

    /**
     What no request takes back: tokens stay issued and revoked, challenges spent, names' histories go on, and the
     master key and the index key are for life.
     */
    twostate predicate Monotone()
      reads this
    {
      && old(issued) <= issued && old(revoked) <= revoked && HistoriesGrow(old(tenures), tenures)
      && (old(initialized) ==> initialized && root == old(root))
      && IndexKeyKept() && SpentMonotone()
    }

    twostate predicate IndexKeyKept()
      reads this`initialized, this`indexKey
    {
      old(initialized) ==> indexKey == old(indexKey)
    }

    twostate predicate SpentMonotone()
      reads this`spent
    {
      forall c :: c in old(spent) ==> c in spent && spent[c] == old(spent)[c]
    }

    /** The requests handled so far, each with its answer and the ledger after it, lead to the present state. */
    ghost predicate Logged()
      reads this
    {
      log.rules == Policy() && Book() == Present(log.events)
    }

    /** A step taken is entered in the log. */
    ghost method Enter(before: Ledger, c: Call, ok: bool)
      requires log.rules == Policy() && before == Present(log.events) && Follows(log.events, c)
      requires Step(Policy(), before, c, ok, Book())
      modifies this`log
      ensures Logged() && Entered(c, ok)
    {
      HistoryGoesOn(log.rules, log.events, Event(c, ok, Book()));
      log := log.(events := log.events + [Event(c, ok, Book())]);
    }

    /** The log has grown by the request, its answer and the ledger it left. */
    twostate predicate Entered(c: Call, ok: bool)
      reads this
    {
      log.events == old(log.events) + [Event(c, ok, Book())]
    }

    /** What the log alone says: users, sessions and the key in memory are sound. */
    lemma LogSound()
      requires Logged()
      ensures UsersValid() && SessionsValid() && (KeysStored() ==> RootValid())
    {
      HistorySound(log.rules, log.events);
    }

    /** Every request, and every tick of the janitor, takes its step on the ledger and keeps the whole state sound. */
    method Handle(c: Call) returns (ok: bool)
      requires Valid() && Logged() && DrawnFresh(c.req) && Follows(log.events, c)
      modifies this
      ensures Valid() && Logged() && Entered(c, ok) && Monotone()
    {
      ghost var events := log.events;
      ok := Dispatch(c);
      LogSound();
      VaultRuns.GrownByOne(log.rules, events, Event(c, ok, Book()));
    }

    method Dispatch(c: Call) returns (ok: bool)
      requires Stored() && DrawnFresh(c.req)
      requires Logged() && Follows(log.events, c)
      modifies this
      ensures Stored() && SpentMonotone() && IndexKeyKept() && Logged() && Entered(c, ok)
    {
      if c.req.OnKeys? {
        ok := HandleTree(c);
      } else {
        ok := HandleRest(c);
      }
    }

    method HandleTree(c: Call) returns (ok: bool)
      requires Stored() && DrawnFresh(c.req) && c.req.OnKeys?
      requires Logged() && Follows(log.events, c)
      modifies this`users, this`passwords, this`tenures, this`recovery, this`indexWrap, this`initialized, this`root,
               this`indexKey, this`initTokens, this`sessions, this`revoked, this`log
      ensures Stored() && SpentMonotone() && IndexKeyKept() && Logged() && Entered(c, ok)
    {
      ok := HandleKeys(c.req.keys, c);
      assert challenges == old(challenges) && drawn == old(drawn) && spent == old(spent);
    }

    method HandleRest(c: Call) returns (ok: bool)
      requires Stored() && DrawnFresh(c.req) && !c.req.OnKeys?
      requires Logged() && Follows(log.events, c)
      modifies this`users, this`passwords, this`tenures, this`masterKey, this`loading, this`sessions, this`initTokens,
               this`issued, this`revoked, this`challenges, this`drawn, this`spent, this`failures, this`log
      ensures Stored() && SpentMonotone() && IndexKeyKept() && Logged() && Entered(c, ok)
    {
      ok := DispatchOthers(c);
    }

    /** The requests that leave recovery and index wraps alone. */
    method DispatchOthers(c: Call) returns (ok: bool)
      requires Stored() && DrawnFresh(c.req) && !c.req.OnKeys?
      requires Logged() && Follows(log.events, c)
      modifies this`users, this`passwords, this`tenures, this`masterKey, this`loading, this`sessions, this`initTokens,
               this`issued, this`revoked, this`challenges, this`drawn, this`spent, this`failures, this`log
      ensures PoolValid() && PoolBounded() && SpentMonotone()
      ensures Logged() && Entered(c, ok)
    {
      match c.req
      case UnlockVault(_, _, _, _, _, _, _, _) => ok := HandleUnlock(c);
      case OnFactors(req) => ok := HandleFactors(req, c);
      case OnSessions(req) => ok := HandleSessions(req, c);
      case OnUsers(req) => ok := HandleUsers(req, c);
    }

    method HandleUnlock(c: Call) returns (ok: bool)
      requires PoolValid() && PoolBounded() && c.req.UnlockVault? && FreshToken(c.req.session)
      requires Logged() && Follows(log.events, c)
      modifies this`users, this`passwords, this`sessions, this`masterKey, this`loading, this`failures, this`issued,
               this`tenures, this`challenges, this`spent, this`log
      ensures PoolValid() && PoolBounded() && SpentMonotone()
      ensures Logged() && Entered(c, ok)
    {
      LogSound();
      ghost var before := Book();
      ok := UnlockStep(c);
      Enter(before, c, ok);
    }

    method UnlockStep(c: Call) returns (ok: bool)
      requires c.req.UnlockVault? && FreshToken(c.req.session)
      requires (c.req.user in users ==> WrapOpens(c.req.user)) && PoolValid()
      modifies this`users, this`passwords, this`sessions, this`masterKey, this`loading, this`failures, this`issued,
               this`tenures, this`challenges, this`spent
      ensures PoolValid() && |challenges| == |old(challenges)| && SpentMonotone()
      ensures Step(Policy(), old(Book()), c, ok, Book())
    {
      var UnlockVault(user, password, code, certOk, newPassword, id, salt, session) := c.req;
      var r := Unlock(user, password, code, certOk, newPassword, c.ip, id, salt, session, c.now);
      ok := r.Ok?;
    }

    /** Requests that concern codes, challenges and certificates. */
    method HandleFactors(req: FactorRequest, c: Call) returns (ok: bool)
      requires c.req == OnFactors(req) && PoolValid() && PoolBounded() && FactorsFresh(req)
      requires Logged() && Follows(log.events, c)
      modifies this`users, this`challenges, this`drawn, this`spent, this`initTokens, this`failures, this`log
      ensures PoolValid() && PoolBounded() && SpentMonotone()
      ensures Logged() && Entered(c, ok)
    {
      match req
      case VerifyCode(code) => ok := HandleVerify(code, c);
      case ResetCode(secret) => ok := HandleReset(secret, c);
      case DrawChallenge(purpose, id) => ok := HandleDraw(purpose, id, c);
      case BindCertTo(id, cert, certOk, signatureOk) => ok := HandleBind(id, cert, certOk, signatureOk, c);
    }

    method HandleVerify(code: Code, c: Call) returns (ok: bool)
      requires c.req == OnFactors(VerifyCode(code))
      requires Logged() && Follows(log.events, c)
      modifies this`users, this`initTokens, this`failures, this`log
      ensures Logged() && Entered(c, ok)
    {
      LogSound();
      ghost var before := Book();
      if TotpUser(c.token, c.ip, c.now).Some? {
        TotpActs(c);
      }
      var r := VerifyTotp(c.token, c.ip, code, c.now);
      ok := r.Ok?;
      Enter(before, c, ok);
    }

    method HandleReset(secret: nat, c: Call) returns (ok: bool)
      requires c.req == OnFactors(ResetCode(secret))
      requires Logged() && Follows(log.events, c)
      modifies this`users, this`log
      ensures Logged() && Entered(c, ok)
    {
      LogSound();
      ghost var before := Book();
      if Target(c.token, c.ip, c.now).Some? {
        TargetActs(c);
      }
      var r := ResetTotp(c.token, c.ip, secret, c.now);
      ok := r.Ok?;
      Enter(before, c, ok);
    }

    method HandleDraw(purpose: Purpose, id: ChallengeId, c: Call) returns (ok: bool)
      requires c.req == OnFactors(DrawChallenge(purpose, id))
      requires PoolValid() && PoolBounded() && id !in drawn
      requires Logged() && Follows(log.events, c)
      modifies this`challenges, this`drawn, this`log
      ensures PoolValid() && PoolBounded()
      ensures Logged() && Entered(c, ok)
    {
      LogSound();
      ghost var before := Book();
      var r := IssueChallenge(purpose, id, c.now);
      ok := r.Ok?;
      Enter(before, c, ok);
    }

    method HandleBind(id: ChallengeId, cert: string, certOk: bool, signatureOk: bool, c: Call) returns (ok: bool)
      requires c.req == OnFactors(BindCertTo(id, cert, certOk, signatureOk))
      requires PoolValid() && PoolBounded()
      requires Logged() && Follows(log.events, c)
      modifies this`users, this`challenges, this`spent, this`initTokens, this`log
      ensures PoolValid() && PoolBounded() && SpentMonotone()
      ensures Logged() && Entered(c, ok)
    {
      LogSound();
      ghost var before := Book();
      if Target(c.token, c.ip, c.now).Some? {
        TargetActs(c);
      }
      var r := BindCert(c.token, c.ip, id, cert, certOk, signatureOk, c.now);
      ok := r.Ok?;
      assert Book() == if ok then Effect(Policy(), before, c) else before;
      Enter(before, c, ok);
    }

    /** Requests that add and remove users. */
    method HandleUsers(req: UserRequest, c: Call) returns (ok: bool)
      requires c.req == OnUsers(req) && KeysStored()
      requires req.AddUserTo? ==> FreshToken(req.initToken)
      requires Logged() && Follows(log.events, c)
      modifies this`users, this`passwords, this`tenures, this`sessions, this`revoked, this`masterKey, this`initTokens,
               this`log
      ensures Logged() && Entered(c, ok)
    {
      match req
      case AddUserTo(user, password, salt, secret, initToken) =>
        ok := HandleAdd(user, password, salt, secret, initToken, c);
      case RemoveUserNamed(user) => ok := HandleRemove(user, c);
    }

    method HandleAdd(user: User, password: string, salt: nat, secret: nat, initToken: Token, c: Call)
      returns (ok: bool)
      requires c.req == OnUsers(AddUserTo(user, password, salt, secret, initToken))
      requires KeysStored() && FreshToken(initToken)
      requires Logged() && Follows(log.events, c)
      modifies this`users, this`passwords, this`tenures, this`initTokens, this`log
      ensures Logged() && Entered(c, ok)
    {
      LogSound();
      ghost var before := Book();
      var r := AddUser(c.token, c.ip, user, password, salt, secret, initToken, c.now);
      ok := r.Ok?;
      Enter(before, c, ok);
    }

    method HandleRemove(user: User, c: Call) returns (ok: bool)
      requires c.req == OnUsers(RemoveUserNamed(user))
      requires KeysStored()
      requires Logged() && Follows(log.events, c)
      modifies this`users, this`passwords, this`sessions, this`revoked, this`masterKey, this`log
      ensures Logged() && Entered(c, ok)
    {
      LogSound();
      ghost var before := Book();
      var r := RemoveUser(c.token, c.ip, user, c.now);
      ok := r.Ok?;
      Enter(before, c, ok);
    }

    /** Requests that concern the users' keys. */
    method HandleKeys(req: KeyRequest, c: Call) returns (ok: bool)
      requires c.req == OnKeys(req) && KeysStored()
      requires req.InitVault? ==> FreshToken(req.initToken)
      requires Logged() && Follows(log.events, c)
      modifies this`users, this`passwords, this`tenures, this`recovery, this`indexWrap, this`initialized, this`root,
               this`indexKey, this`initTokens, this`sessions, this`revoked, this`log
      ensures KeysStored() && IndexKeyKept()
      ensures Logged() && Entered(c, ok)
    {
      match req
      case InitVault(user, password, mk, ik, salt, secret, recoveryToken, initToken) =>
        ok := HandleInit(user, password, mk, ik, salt, secret, recoveryToken, initToken, c);
      case ReplacePassword(oldPassword, newPassword, salt) => ok := HandleReplace(oldPassword, newPassword, salt, c);
    }

    method HandleInit(user: User, password: string, mk: Key, ik: Key, salt: nat, secret: nat, recoveryToken: nat,
                      initToken: Token, c: Call) returns (ok: bool)
      requires c.req == OnKeys(InitVault(user, password, mk, ik, salt, secret, recoveryToken, initToken))
      requires KeysStored() && FreshToken(initToken)
      requires Logged() && Follows(log.events, c)
      modifies this`users, this`passwords, this`tenures, this`recovery, this`indexWrap, this`initialized, this`root,
               this`indexKey, this`initTokens, this`log
      ensures KeysStored() && IndexKeyKept()
      ensures Logged() && Entered(c, ok)
    {
      LogSound();
      ghost var before := Book();
      var r := Init(user, password, mk, ik, salt, secret, recoveryToken, initToken, c.now);
      ok := r.Ok?;
      Enter(before, c, ok);
    }

    method HandleReplace(oldPassword: string, newPassword: string, salt: nat, c: Call) returns (ok: bool)
      requires c.req == OnKeys(ReplacePassword(oldPassword, newPassword, salt))
      requires KeysStored()
      requires Logged() && Follows(log.events, c)
      modifies this`users, this`passwords, this`sessions, this`revoked, this`log
      ensures Logged() && Entered(c, ok)
    {
      LogSound();
      ghost var before := Book();
      if Target(c.token, c.ip, c.now).Some? {
        TargetActs(c);
      }
      var r := ChangePassword(c.token, c.ip, oldPassword, newPassword, salt, c.now);
      ok := r.Ok?;
      Enter(before, c, ok);
    }

    /** Requests that concern sessions and the key in memory, and the janitor. */
    method HandleSessions(req: SessionRequest, c: Call) returns (ok: bool)
      requires c.req == OnSessions(req) && Stored() && SessionsFresh(req)
      requires Logged() && Follows(log.events, c)
      modifies this`failures, this`sessions, this`masterKey, this`loading, this`revoked, this`challenges,
               this`initTokens, this`log
      ensures PoolValid() && PoolBounded()
      ensures Logged() && Entered(c, ok)
    {
      match req
      case Tick => ok := HandleTick(c);
      case LoadEnds(unlocked, loadOk) => ok := HandleLoadEnd(unlocked, loadOk, c);
      case LockVault => ok := HandleLock(c);
      case ReadData => ok := HandleRead(c);
      case RecoverWith(recoveryToken, user, session) => ok := HandleRecovery(recoveryToken, user, session, c);
    }

    method HandleTick(c: Call) returns (ok: bool)
      requires c.req == OnSessions(Tick)
      requires Stored()
      requires Logged() && Follows(log.events, c)
      modifies this`sessions, this`masterKey, this`challenges, this`initTokens, this`failures, this`log
      ensures PoolValid() && PoolBounded()
      ensures Logged() && Entered(c, ok)
    {
      LogSound();
      ghost var before := Book();
      Sweep(c.now);
      ok := true;
      Enter(before, c, ok);
    }

    method HandleLoadEnd(unlocked: Token, loadOk: bool, c: Call) returns (ok: bool)
      requires c.req == OnSessions(LoadEnds(unlocked, loadOk))
      requires KeysStored() && unlocked in issued
      requires Logged() && Follows(log.events, c)
      modifies this`sessions, this`masterKey, this`loading, this`revoked, this`log
      ensures Logged() && Entered(c, ok)
    {
      LogSound();
      ghost var before := Book();
      var r := EndLoad(unlocked, loadOk);
      ok := r.Ok?;
      Enter(before, c, ok);
    }

    method HandleLock(c: Call) returns (ok: bool)
      requires c.req == OnSessions(LockVault)
      requires KeysStored()
      requires Logged() && Follows(log.events, c)
      modifies this`sessions, this`masterKey, this`loading, this`revoked, this`log
      ensures Logged() && Entered(c, ok)
    {
      LogSound();
      ghost var before := Book();
      var r := Lock(c.token, c.ip, c.now);
      ok := r.Ok?;
      Enter(before, c, ok);
    }

    method HandleRead(c: Call) returns (ok: bool)
      requires c.req == OnSessions(ReadData)
      requires Logged() && Follows(log.events, c)
      modifies this`sessions, this`log
      ensures Logged() && Entered(c, ok)
    {
      LogSound();
      ghost var before := Book();
      ok := Gate(c.token, c.ip, c.now);
      Enter(before, c, ok);
    }

    method HandleRecovery(recoveryToken: nat, user: User, session: Token, c: Call) returns (ok: bool)
      requires c.req == OnSessions(RecoverWith(recoveryToken, user, session))
      requires KeysStored() && FreshToken(session)
      requires Logged() && Follows(log.events, c)
      modifies this`sessions, this`failures, this`log
      ensures Logged() && Entered(c, ok)
    {
      LogSound();
      ghost var before := Book();
      var r := Recover(recoveryToken, user, c.ip, session, c.now);
      ok := r.Ok?;
      Enter(before, c, ok);
    }
  }

  lemma OneCharMore(pw: string, i: nat)
    requires i < |pw|
    ensures HasCharIn(pw[..i + 1], 'A', 'Z') <==> HasCharIn(pw[..i], 'A', 'Z') || 'A' <= pw[i] <= 'Z'
    ensures HasCharIn(pw[..i + 1], 'a', 'z') <==> HasCharIn(pw[..i], 'a', 'z') || 'a' <= pw[i] <= 'z'
    ensures HasCharIn(pw[..i + 1], '0', '9') <==> HasCharIn(pw[..i], '0', '9') || '0' <= pw[i] <= '9'
  {
    CharMore(pw, i, 'A', 'Z');
    CharMore(pw, i, 'a', 'z');
    CharMore(pw, i, '0', '9');
  }

  lemma CharMore(pw: string, i: nat, low: char, high: char)
    requires i < |pw|
    ensures HasCharIn(pw[..i + 1], low, high) <==> HasCharIn(pw[..i], low, high) || low <= pw[i] <= high
  {
    var longer, shorter := pw[..i + 1], pw[..i];
    if j :| 0 <= j < |longer| && low <= longer[j] <= high {
      assert j < i ==> low <= shorter[j] <= high;
    }
    if j :| 0 <= j < |shorter| && low <= shorter[j] <= high {
      assert low <= longer[j] <= high;
    }
    if low <= pw[i] <= high {
      assert low <= longer[i] <= high;
    }
  }

  lemma Overwritten<K, V>(m: map<K, V>, k: K, a: V, b: V)
    ensures m[k := a][k := b] == m[k := b]
    ensures k in m && a == m[k] ==> m[k := a] == m
  {
  }

  lemma Fewer<K, V>(m: map<K, V>, k: K)
    requires k in m
    ensures |m - {k}| == |m| - 1
  {
    assert (m - {k}).Keys == m.Keys - {k};
  }

  lemma OneKey<K, V>(m: map<K, V>)
    requires |m| == 1
    ensures exists k :: m.Keys == {k}
  {
    var k :| k in m;
    assert |m.Keys - {k}| == 0;
    assert m.Keys == {k};
  }
}
