/** What the account tables come to over runs: who stays logged in, which password opens, what is switched. */
module AccountRuns {
  import opened Common
  import opened Accounts

  const HALF: Millis := 15 * 24 * 3600 * 1000

  // ---------- one request ----------

  /**
   Using a session keeps it for at least half its life from now on, never shortens it, never grants more than a whole
   life, and touches nothing else; a token that does not resolve is not revived.
   */
  lemma UseProlongs(t: Tables, token: Token, now: Millis)
    ensures var t' := Apply(t, Authenticate(token, now));
            var s, s' := SessionIn(t, token, now), SessionIn(t', token, now);
            && t'.accounts == t.accounts
            && (forall k :: k != token ==>
                  (k in t'.sessions <==> k in t.sessions) && (k in t.sessions ==> t'.sessions[k] == t.sessions[k]))
            && (token != "" && s.Some? ==>
                  && s'.Some? && s'.value.user == s.value.user && s'.value.isAdmin == s.value.isAdmin
                  && s.value.expiresAt <= s'.value.expiresAt
                  && now + HALF <= s'.value.expiresAt <= Max(s.value.expiresAt, now + 2 * HALF))
            && (s.None? ==> s'.None?)
  {
  }

  /** Sweeping expired rows changes no present or later answer. */
  lemma SweepIsInvisible(t: Tables, now: Millis, token: Token, later: Millis)
    requires now <= later
    ensures SessionIn(Purged(t, now), token, later) == SessionIn(t, token, later)
    ensures Purged(t, now).accounts == t.accounts
  {
  }

  /** A login with the right password lets the new token in for a whole life, one with a wrong password no one. */
  lemma LoginLetsIn(t: Tables, user: User, password: string, token: Token, now: Millis, k: Token, later: Millis)
    requires now <= later && token !in t.sessions
    ensures var t' := Apply(t, Login(user, password, token, now));
            && t'.accounts == t.accounts
            && (k != token ==> SessionIn(t', k, later) == SessionIn(t, k, later))
            && SessionIn(t', token, later) ==
               if user in t.accounts && t.accounts[user].password == password && later < now + 2 * HALF
               then Some(Session(user, t.accounts[user].isAdmin, now + 2 * HALF)) else None
  {
  }

  /** Logging out ends the token at once and no other. */
  lemma LogoutEnds(t: Tables, token: Token, k: Token, now: Millis)
    ensures var t' := Apply(t, Logout(token));
            t'.accounts == t.accounts && SessionIn(t', k, now) == if k == token then None else SessionIn(t, k, now)
  {
  }

  /** What each request on accounts does to the account it names. */
  lemma NamedAccount(t: Tables, user: User, account: Account, password: string, keep: Token, perms: Perms)
    ensures var a := Apply(t, Create(user, account)).accounts;
            user in a && a[user] == if user in t.accounts then t.accounts[user] else account
    ensures user !in Apply(t, Delete(user)).accounts
    ensures var a := Apply(t, SetPassword(user, password, keep)).accounts;
            if user in t.accounts then user in a && a[user] == Account(password, t.accounts[user].isAdmin,
                                                                       t.accounts[user].perms)
            else user !in a
    ensures var a := Apply(t, SetPerms(user, perms)).accounts;
            if user in t.accounts then user in a && a[user] == Account(t.accounts[user].password,
                                                                       t.accounts[user].isAdmin, perms)
            else user !in a
  {
  }

  // ---------- accounts over runs ----------

  predicate Names(op: Op, user: User) {
    match op
    case Create(u, _) => u == user
    case Delete(u) => u == user
    case SetPassword(u, _, _) => u == user
    case SetPerms(u, _) => u == user
    case _ => false
  }

  /** An account changes only by requests that name it. */
  lemma {:induction false} AccountStays(t: Tables, ops: seq<Op>, user: User)
    requires forall i :: 0 <= i < |ops| ==> !Names(ops[i], user)
    ensures user in Run(t, ops).accounts <==> user in t.accounts
    ensures user in t.accounts ==> Run(t, ops).accounts[user] == t.accounts[user]
  {
    if ops != [] {
      AccountStays(t, ops[..|ops| - 1], user);
      assert !Names(ops[|ops| - 1], user);
    }
  }

  /** Over every run a login succeeds with the password last set, and with no other. */
  lemma LatestPasswordLogsIn(t: Tables, ops: seq<Op>, user: User, password: string, keep: Token, guess: string,
                             token: Token, now: Millis)
    requires user in t.accounts && forall i :: 0 <= i < |ops| ==> !Names(ops[i], user)
    ensures var end := Run(Apply(t, SetPassword(user, password, keep)), ops);
            token !in end.sessions ==>
              (SessionIn(Apply(end, Login(user, guess, token, now)), token, now).Some? <==> guess == password)
  {
    AccountStays(Apply(t, SetPassword(user, password, keep)), ops, user);
  }

  /** Over every run the permissions loaded are those last set, and an account that is not there has none. */
  lemma LatestPermsAreLoaded(t: Tables, ops: seq<Op>, user: User, perms: Perms)
    requires forall i :: 0 <= i < |ops| ==> !Names(ops[i], user)
    ensures PermsIn(Run(Apply(t, SetPerms(user, perms)), ops), user) == if user in t.accounts then perms else map[]
    ensures PermsIn(Run(Apply(t, Delete(user)), ops), user) == map[]
  {
    AccountStays(Apply(t, SetPerms(user, perms)), ops, user);
    AccountStays(Apply(t, Delete(user)), ops, user);
  }

  // ---------- sessions over runs ----------

  predicate Timed(op: Op) {
    op.Login? || op.Authenticate?
  }

  /** The last use of the token, or from when there was none. */
  function LastUse(from: Millis, ops: seq<Op>, token: Token): Millis {
    if ops == [] then from
    else if ops[|ops| - 1].Authenticate? && ops[|ops| - 1].token == token then ops[|ops| - 1].now
    else LastUse(from, ops[..|ops| - 1], token)
  }

  /** The request ends no session of the user under the token, and does not log the token in again. */
  predicate Spares(op: Op, user: User, token: Token) {
    match op
    case Login(_, _, k, _) => k != token
    case Logout(k) => k != token
    case Delete(u) => u != user
    case SetPassword(u, _, keep) => u != user || keep == token
    case _ => true
  }

  /** The times of the requests run up to now, and each use of the token comes less than half a life after the last. */
  ghost predicate Attended(from: Millis, ops: seq<Op>, token: Token, now: Millis) {
    && (forall i :: 0 <= i < |ops| && Timed(ops[i]) ==> ops[i].now <= now)
    && (forall i, j :: 0 <= i < j < |ops| && Timed(ops[i]) && Timed(ops[j]) ==> ops[i].now <= ops[j].now)
    && (forall i :: 0 <= i < |ops| && ops[i].Authenticate? && ops[i].token == token ==>
          ops[i].now < LastUse(from, ops[..i], token) + HALF)
    && now < LastUse(from, ops, token) + HALF
  }

  lemma AttendedFront(from: Millis, ops: seq<Op>, token: Token, now: Millis)
    requires ops != [] && Attended(from, ops, token, now)
    ensures var front, op := ops[..|ops| - 1], ops[|ops| - 1];
            Attended(from, front, token, if op.Authenticate? && op.token == token then op.now else now)
  {
    var front := ops[..|ops| - 1];
    assert forall i :: 0 <= i < |front| ==> front[i] == ops[i] && front[..i] == ops[..i];
    assert ops[..|ops| - 1] == front;
  }

  /** The row of a session in use. */
  ghost predicate Alive(t: Tables, user: User, token: Token, now: Millis) {
    token in t.sessions && t.sessions[token].user == user && t.sessions[token].expiresAt > now
  }

  /**
   A session that is used at intervals of less than half its life goes on for as long as it is, whatever else is
   requested, unless it is logged out, its account deleted or its password changed from another session.
   */
  lemma {:induction false} KeptAlive(t: Tables, ops: seq<Op>, user: User, token: Token, from: Millis, now: Millis)
    requires token != "" && token in t.sessions && t.sessions[token].user == user
    requires t.sessions[token].expiresAt >= from + HALF && Attended(from, ops, token, now)
    requires forall i :: 0 <= i < |ops| ==> Spares(ops[i], user, token)
    ensures Alive(Run(t, ops), user, token, now)
    ensures SessionIn(Run(t, ops), token, now).Some? && SessionIn(Run(t, ops), token, now).value.user == user
  {
    if ops != [] {
      var front, op := ops[..|ops| - 1], ops[|ops| - 1];
      AttendedFront(from, ops, token, now);
      assert Spares(op, user, token);
      if op.Authenticate? && op.token == token {
        KeptAlive(t, front, user, token, from, op.now);
        UseProlongs(Run(t, front), token, op.now);
      } else {
        KeptAlive(t, front, user, token, from, now);
      }
    }
  }

  /** An interval of just half a life may be too long: the use half-way does not renew yet, the next comes too late. */
  lemma HalfIsTooLong(user: User, password: string, token: Token)
    requires token != ""
    ensures var t := Tables(map[user := Account(password, false, map[])], map[]);
            var ops := [Login(user, password, token, 0), Authenticate(token, HALF)];
            && SessionIn(Run(t, ops), token, HALF).Some?
            && SessionIn(Run(t, ops), token, 2 * HALF) == None
  {
    var t := Tables(map[user := Account(password, false, map[])], map[]);
    var ops := [Login(user, password, token, 0), Authenticate(token, HALF)];
    var one: seq<Op> := [Login(user, password, token, 0)];
    assert ops[..1] == one && one[..0] == [];
    assert Run(t, one) == Apply(t, one[0]);
  }

  // ---------- switching permissions ----------

  /** A key that is not named keeps its value. */
  lemma {:induction false} UnnamedStays(perms: Perms, changes: seq<(string, bool)>, k: string)
    requires forall i :: 0 <= i < |changes| ==> changes[i].0 != k
    ensures k in Switched(perms, changes) <==> k in perms
    ensures k in perms ==> Switched(perms, changes)[k] == perms[k]
  {
    if changes != [] {
      UnnamedStays(perms, changes[..|changes| - 1], k);
    }
  }

  /** The last change of a key decides. */
  lemma {:induction false} LastSwitchDecides(perms: Perms, changes: seq<(string, bool)>, i: nat)
    requires i < |changes| && forall j :: i < j < |changes| ==> changes[j].0 != changes[i].0
    ensures changes[i].0 in Switched(perms, changes) && Switched(perms, changes)[changes[i].0] == changes[i].1
  {
    if i < |changes| - 1 {
      LastSwitchDecides(perms, changes[..|changes| - 1], i);
    }
  }

  /** A group switch sets every key of the group and no other. */
  lemma GroupSwitchDecides(perms: Perms, keys: seq<string>, on: bool, k: string)
    ensures k in keys ==> k in SwitchedAll(perms, keys, on) && SwitchedAll(perms, keys, on)[k] == on
    ensures k !in keys ==>
              (k in SwitchedAll(perms, keys, on) <==> k in perms)
              && (k in perms ==> SwitchedAll(perms, keys, on)[k] == perms[k])
  {
  }
}
