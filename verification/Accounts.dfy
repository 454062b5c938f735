/**
 Accounts with in-process caches in front of the SQL tables. Redis is not configured and SQL statements succeed; bcrypt
 is ideal; requests are handled one at a time and the clock, in Unix milliseconds, never goes backwards.
 */
module Accounts {
  import opened Common

  type Token = string

  type User = string

  type Millis = int

  type Perms = map<string, bool>

  const SESSION_TTL: Millis := 30 * 24 * 3600 * 1000
  const SESS_CACHE_TTL: Millis := 10 * 1000
  const PERM_CACHE_TTL: Millis := 30 * 1000

  datatype Account = Account(password: string, isAdmin: bool, perms: Perms)

  datatype Row = Row(user: User, expiresAt: Millis)

  datatype Session = Session(user: User, isAdmin: bool, expiresAt: Millis)

  datatype Tables = Tables(accounts: map<User, Account>, sessions: map<Token, Row>)

  // ---------- what the tables alone would answer ----------

  /** The session lookup without any cache. */
  function SessionIn(t: Tables, token: Token, now: Millis): Option<Session> {
    if token in t.sessions && t.sessions[token].expiresAt > now then
      var row := t.sessions[token];
      Some(Session(row.user, row.user in t.accounts && t.accounts[row.user].isAdmin, row.expiresAt))
    else None
  }

  function PermsIn(t: Tables, user: User): Perms {
    if user in t.accounts then t.accounts[user].perms else map[]
  }

  /** What authenticating a token does to the tables: an expired row goes, a row past half its life is renewed. */
  function Authenticated(t: Tables, token: Token, now: Millis): Tables {
    if token == "" || token !in t.sessions then t
    else if t.sessions[token].expiresAt <= now then t.(sessions := t.sessions - {token})
    else if t.sessions[token].expiresAt - now < SESSION_TTL / 2 then
      t.(sessions := t.sessions[token := t.sessions[token].(expiresAt := now + SESSION_TTL)])
    else t
  }

  function Purged(t: Tables, now: Millis): Tables {
    t.(sessions := map k | k in t.sessions && t.sessions[k].expiresAt >= now :: t.sessions[k])
  }

  /** All sessions of a user go, except one to keep. */
  function Revoked(t: Tables, user: User, keep: Token): Tables {
    t.(sessions := map k | k in t.sessions && (t.sessions[k].user != user || (keep != "" && k == keep)) ::
                     t.sessions[k])
  }

  datatype Op =
    | Login(user: User, password: string, token: Token, now: Millis)
    | Authenticate(token: Token, now: Millis)
    | Logout(token: Token)
    | Create(user: User, account: Account)
    | Delete(user: User)
    | SetPassword(user: User, password: string, keep: Token)
    | SetPerms(user: User, perms: Perms)

  function Apply(t: Tables, op: Op): Tables {
    match op
    case Login(user, password, token, now) =>
      var t' := Purged(t, now);
      if user in t.accounts && t.accounts[user].password == password then
        t'.(sessions := t'.sessions[token := Row(user, now + SESSION_TTL)])
      else t'
    case Authenticate(token, now) => Authenticated(t, token, now)
    case Logout(token) => t.(sessions := t.sessions - {token})
    case Create(user, account) =>
      if user in t.accounts then t else t.(accounts := t.accounts[user := account])
    case Delete(user) =>
      if user in t.accounts then Revoked(t.(accounts := t.accounts - {user}), user, "") else t
    case SetPassword(user, password, keep) =>
      if user in t.accounts then
        Revoked(t.(accounts := t.accounts[user := t.accounts[user].(password := password)]), user, keep)
      else t
    case SetPerms(user, perms) =>
      if user in t.accounts then t.(accounts := t.accounts[user := t.accounts[user].(perms := perms)]) else t
  }

  function Run(t: Tables, ops: seq<Op>): Tables {
    if ops == [] then t else Apply(Run(t, ops[..|ops| - 1]), ops[|ops| - 1])
  }

  /** A token without a row never resolves again, whatever happens, unless a login issues that very token. */
  lemma {:induction false} RevokedStaysRevoked(t: Tables, ops: seq<Op>, token: Token, now: Millis)
    requires token !in t.sessions
    requires forall i :: 0 <= i < |ops| && ops[i].Login? ==> ops[i].token != token
    ensures token !in Run(t, ops).sessions && SessionIn(Run(t, ops), token, now) == None
  {
    if ops != [] {
      RevokedStaysRevoked(t, ops[..|ops| - 1], token, now);
      assert !ops[|ops| - 1].Login? || ops[|ops| - 1].token != token;
    }
  }

  /** Changing a password or deleting an account takes every session of the user with it, but for the kept one. */
  lemma RevocationIsComplete(t: Tables, op: Op, token: Token, now: Millis)
    requires op.Delete? || op.SetPassword?
    requires op.user in t.accounts && token in t.sessions
    ensures var keep := if op.SetPassword? then op.keep else "";
            SessionIn(Apply(t, op), token, now) ==
            if t.sessions[token].user == op.user && (keep == "" || token != keep) then None
            else SessionIn(t, token, now)
  {
  }

  // ---------- the caches ----------

  datatype SessEntry = SessEntry(sess: Session, expires: Millis)

  /** A permission map as the program passes it around: shared, and mutable by whoever holds it. */
  class PermMap {
    var m: Perms

    constructor (m: Perms)
      ensures this.m == m
    {
      this.m := m;
    }
  }

  datatype PermEntry = PermEntry(perms: PermMap, expires: Millis)

  datatype AccountError =
    | NotFound | Exists | AdminAccount | NoChange | NoEnabled | UnknownGroup | UnknownKey | BadPassword
    | Unauthenticated | NotAdmin | MissingField | TooShort | TooMany

  class AccountSystem {
    var accounts: map<User, Account>
    var sessions: map<Token, Row>
    var sessCache: map<Token, SessEntry>
    var permCache: map<User, PermEntry>
    ghost var clock: Millis

    ghost function Table(): Tables
      reads this
    {
      Tables(accounts, sessions)
    }

    /** The permission maps the cache holds on to. */
    ghost function Held(): set<PermMap>
      reads this
    {
      set u | u in permCache :: permCache[u].perms
    }

    /** A live cache entry says what its row says; a permission entry says what its account says. */
    ghost predicate Valid()
      reads this, Held()
    {
      && RowsOwned(Table()) && "" !in sessions
      && (forall t :: t in sessCache ==> EntryTrue(Table(), t, sessCache[t].sess, clock))
      && (forall u :: u in permCache ==> permCache[u].perms.m == PermsIn(Table(), u))
    }

    constructor ()
      ensures Valid() && Table() == Tables(map[], map[])
    {
      accounts, sessions, sessCache, permCache := map[], map[], map[], map[];
      clock := 0;
    }

    // ---------- sessions ----------

    method CachedSession(token: Token, now: Millis) returns (r: Option<Session>)
      requires Valid() && clock <= now
      modifies this`sessCache, this`clock
      ensures Valid() && clock == now
      ensures r.Some? ==> r == SessionIn(Table(), token, now)
    {
      clock := now;
      if token !in sessCache || now > sessCache[token].expires {
        return None;
      }
      if sessCache[token].sess.expiresAt <= now {
        sessCache := sessCache - {token};
        return None;
      }
      return Some(sessCache[token].sess);
    }

    /** The cached lookup answers exactly what the tables alone would answer. */
    method LookupSession(token: Token, now: Millis) returns (r: Option<Session>)
      requires Valid() && clock <= now
      modifies this`sessCache, this`sessions, this`clock
      ensures Valid() && clock == now
      ensures r == SessionIn(old(Table()), token, now)
      ensures sessions == if token in old(sessions) && old(sessions)[token].expiresAt <= now
                          then old(sessions) - {token} else old(sessions)
    {
      r := CachedSession(token, now);
      if r.Some? {
        return;
      }
      if token !in sessions {
        return None;
      }
      var row := sessions[token];
      if row.expiresAt <= now {
        sessions := sessions - {token};
        return None;
      }
      var isAdmin := row.user in accounts && accounts[row.user].isAdmin;
      var sess := Session(row.user, isAdmin, row.expiresAt);
      sessCache := sessCache[token := SessEntry(sess, now + SESS_CACHE_TTL)];
      return Some(sess);
    }

    /** Writes a session of an existing account; a row that exists keeps its user. */
    method PutSession(token: Token, sess: Session, now: Millis)
      requires Valid() && clock <= now && token != ""
      requires sess.user in accounts && sess.isAdmin == accounts[sess.user].isAdmin
      requires token in sessions ==> sessions[token].user == sess.user
      modifies this`sessCache, this`sessions, this`clock
      ensures Valid() && clock == now
      ensures sessions == if sess.expiresAt <= now then old(sessions)
                          else old(sessions)[token := Row(sess.user, sess.expiresAt)]
    {
      clock := now;
      if sess.expiresAt <= now {
        return;
      }
      if token in sessions {
        sessions := sessions[token := sessions[token].(expiresAt := sess.expiresAt)];
      } else {
        sessions := sessions[token := Row(sess.user, sess.expiresAt)];
      }
      sessCache := sessCache[token := SessEntry(sess, now + SESS_CACHE_TTL)];
    }

    /** Authentication with sliding renewal: identity and effect are those of the tables alone. */
    method AuthenticateRequest(token: Token, now: Millis) returns (identity: Option<(User, bool)>)
      requires Valid() && clock <= now
      modifies this`sessCache, this`sessions, this`clock
      ensures Valid()
      ensures Table() == Apply(old(Table()), Authenticate(token, now))
      ensures var s := SessionIn(old(Table()), token, now);
              identity == if token == "" || s.None? then None else Some((s.value.user, s.value.isAdmin))
    {
      if token == "" {
        return None;
      }
      var found := LookupSession(token, now);
      if found.None? || found.value.expiresAt <= now {
        return None;
      }
      var sess := found.value;
      if sess.expiresAt - now < SESSION_TTL / 2 {
        sess := sess.(expiresAt := now + SESSION_TTL);
        PutSession(token, sess, now);
      }
      return Some((sess.user, sess.isAdmin));
    }

    method DelSession(token: Token)
      requires Valid()
      modifies this`sessCache, this`sessions
      ensures Valid() && token !in sessCache
      ensures Table() == Apply(old(Table()), Logout(token))
    {
      sessions := sessions - {token};
      sessCache := sessCache - {token};
    }

    /** Revocation drops the rows and, one by one, the cached sessions of the user. */
    method RevokeUserSessions(user: User, keep: Token)
      requires "" !in sessions
      requires forall t :: t in sessCache ==>
                             EntryTrue(Table(), t, sessCache[t].sess, clock) || sessCache[t].sess.user == user
      modifies this`sessCache, this`sessions
      ensures Table() == Revoked(old(Table()), user, keep)
      ensures sessCache == map t | t in old(sessCache) && (old(sessCache)[t].sess.user != user || t == keep) ::
                             old(sessCache)[t]
    {
      sessions := map k | k in sessions && (sessions[k].user != user || (keep != "" && k == keep)) :: sessions[k];
      var todo := sessCache.Keys;
      while todo != {}
        modifies this`sessCache
        invariant todo <= old(sessCache).Keys
        invariant sessCache == map t | t in old(sessCache) &&
                                       (t in todo || old(sessCache)[t].sess.user != user || t == keep) ::
                                 old(sessCache)[t]
      {
        var t :| t in todo;
        todo := todo - {t};
        if t in sessCache && sessCache[t].sess.user == user && t != keep {
          sessCache := sessCache - {t};
        }
      }
    }

    // ---------- accounts ----------

    method CreateAccount(user: User, password: string, isAdmin: bool) returns (r: Result<(), AccountError>)
      requires Valid()
      modifies this`accounts, this`permCache
      ensures Valid()
      ensures Table() == Apply(old(Table()), Create(user, Account(password, isAdmin, map[])))
      ensures r.Ok? <==> user !in old(accounts)
    {
      if user in accounts {
        return Err(Exists);
      }
      accounts := accounts[user := Account(password, isAdmin, map[])];
      permCache := permCache - {user};
      return Ok(());
    }

    method DeleteAccount(user: User) returns (r: Result<(), AccountError>)
      requires Valid()
      modifies this`accounts, this`permCache, this`sessCache, this`sessions
      ensures Valid()
      ensures Table() == Apply(old(Table()), Delete(user))
      ensures r.Ok? <==> user in old(accounts)
    {
      if user !in accounts {
        return Err(NotFound);
      }
      accounts := accounts - {user};
      RevokeUserSessions(user, "");
      permCache := permCache - {user};
      return Ok(());
    }

    method ChangePassword(user: User, password: string, keep: Token) returns (r: Result<(), AccountError>)
      requires Valid()
      modifies this`accounts, this`sessCache, this`sessions
      ensures Valid()
      ensures Table() == Apply(old(Table()), SetPassword(user, password, keep))
      ensures r.Ok? <==> user in old(accounts)
    {
      if user !in accounts {
        return Err(NotFound);
      }
      accounts := accounts[user := accounts[user].(password := password)];
      RevokeUserSessions(user, keep);
      return Ok(());
    }

    method PurgeExpiredSessions(now: Millis)
      requires Valid() && clock <= now
      modifies this`sessions, this`clock
      ensures Valid() && clock == now
      ensures Table() == Purged(old(Table()), now)
    {
      clock := now;
      sessions := map k | k in sessions && sessions[k].expiresAt >= now :: sessions[k];
    }

    /** A login that was not refused by the limiter; the token is freshly drawn. */
    method LogIn(user: User, password: string, token: Token, now: Millis) returns (r: Result<Session, AccountError>)
      requires Valid() && clock <= now && token != "" && token !in sessions && token !in sessCache
      modifies this`sessCache, this`sessions, this`clock
      ensures Valid()
      ensures Table() == Apply(old(Table()), Login(user, password, token, now))
      ensures r.Ok? <==> user in old(accounts) && old(accounts)[user].password == password
      ensures r.Err? ==> r == Err(BadPassword)
      ensures r.Ok? ==> SessionIn(Table(), token, now) == Some(r.value)
    {
      PurgeExpiredSessions(now);
      if user !in accounts || accounts[user].password != password {
        return Err(BadPassword);
      }
      var sess := Session(user, accounts[user].isAdmin, now + SESSION_TTL);
      PutSession(token, sess, now);
      return Ok(sess);
    }

    // ---------- permissions ----------

    method CachePerms(user: User, perms: PermMap, now: Millis)
      requires Valid() && perms.m == PermsIn(Table(), user)
      modifies this`permCache
      ensures Valid()
      ensures forall p :: p in Held() ==> p in old(Held()) || fresh(p)
    {
      var copied := new PermMap(perms.m);
      permCache := permCache[user := PermEntry(copied, now + PERM_CACHE_TTL)];
    }

    /** The cached lookup answers what the tables would, in a map that the cache does not hold. */
    method LoadPermissions(user: User, now: Millis) returns (perms: PermMap)
      requires Valid()
      modifies this`permCache
      ensures Valid()
      ensures fresh(perms) && perms !in Held() && perms.m == PermsIn(Table(), user)
      ensures forall p :: p in Held() ==> p in old(Held()) || fresh(p)
    {
      if user in permCache && now <= permCache[user].expires {
        perms := new PermMap(permCache[user].perms.m);
        return;
      }
      if user !in accounts {
        var none := new PermMap(map[]);
        CachePerms(user, none, now);
        perms := new PermMap(map[]);
        return;
      }
      perms := new PermMap(accounts[user].perms);
      CachePerms(user, perms, now);
    }

    method SetPermissions(user: User, perms: Perms) returns (r: Result<(), AccountError>)
      requires Valid()
      modifies this`accounts, this`permCache
      ensures Valid()
      ensures Table() == Apply(old(Table()), SetPerms(user, perms))
      ensures r.Ok? <==> user in old(accounts)
    {
      if user !in accounts {
        return Err(NotFound);
      }
      accounts := accounts[user := accounts[user].(perms := perms)];
      permCache := permCache - {user};
      return Ok(());
    }

    /**
     The permission request: a group switch (the endpoints of a known group), then single switches. It edits the loaded
     map in place and may fail half-way; neither tables nor cache see anything of a failed edit.
     */
    method ChangePermissions(user: User, group: Option<Option<seq<string>>>, enabled: Option<bool>,
                             changes: seq<(string, bool)>, known: set<string>, now: Millis)
      returns (r: Result<Perms, AccountError>)
      requires Valid()
      modifies this`accounts, this`permCache
      ensures Valid()
      ensures var fault := Fault(old(Table()), user, group, enabled, changes, known);
              r == if fault.Some? then Err(fault.value)
                   else Ok(Switched(GroupSwitched(PermsIn(old(Table()), user), group, enabled), changes))
      ensures r.Ok? <==> && user in old(accounts) && !old(accounts)[user].isAdmin && (group.Some? || changes != [])
                         && (group.Some? ==> enabled.Some? && group.value.Some?)
                         && forall i :: 0 <= i < |changes| ==> changes[i].0 in known
      ensures r == Err(NotFound) <==> user !in old(accounts)
      ensures r == Err(AdminAccount) <==> user in old(accounts) && old(accounts)[user].isAdmin
      ensures Table() == if r.Ok? then Apply(old(Table()), SetPerms(user, r.value)) else old(Table())
    {
      if user !in accounts {
        return Err(NotFound);
      }
      if accounts[user].isAdmin {
        return Err(AdminAccount);
      }
      if group.None? && changes == [] {
        return Err(NoChange);
      }
      var cur := LoadPermissions(user, now);
      if group.Some? {
        if enabled.None? {
          return Err(NoEnabled);
        }
        if group.value.None? {
          return Err(UnknownGroup);
        }
        SetAll(cur, group.value.value, enabled.value);
      }
      ghost var base := cur.m;
      for i := 0 to |changes|
        modifies cur
        invariant cur.m == Switched(base, changes[..i])
        invariant forall j :: 0 <= j < i ==> changes[j].0 in known
      {
        var (k, v) := changes[i];
        if k !in known {
          return Err(UnknownKey);
        }
        cur.m := cur.m[k := v];
        assert changes[..i + 1][..i] == changes[..i];
      }
      assert changes[..|changes|] == changes;
      var done := SetPermissions(user, cur.m);
      return Ok(cur.m);
    }
  }

  /** No session without an account. */
  ghost predicate RowsOwned(t: Tables) {
    forall k :: k in t.sessions ==> t.sessions[k].user in t.accounts
  }

  /** A cached session is expired, so that it will never be served, or equals its row and account. */
  ghost predicate EntryTrue(t: Tables, token: Token, sess: Session, clock: Millis) {
    || sess.expiresAt <= clock
    || (&& token in t.sessions && t.sessions[token] == Row(sess.user, sess.expiresAt)
        && sess.user in t.accounts && t.accounts[sess.user].isAdmin == sess.isAdmin)
  }

  /** Why a permission request is refused, if it is; the first reason counts. */
  function Fault(t: Tables, user: User, group: Option<Option<seq<string>>>, enabled: Option<bool>,
                 changes: seq<(string, bool)>, known: set<string>): Option<AccountError> {
    if user !in t.accounts then Some(NotFound)
    else if t.accounts[user].isAdmin then Some(AdminAccount)
    else if group.None? && changes == [] then Some(NoChange)
    else if group.Some? && enabled.None? then Some(NoEnabled)
    else if group.Some? && group.value.None? then Some(UnknownGroup)
    else if exists i :: 0 <= i < |changes| && changes[i].0 !in known then Some(UnknownKey)
    else None
  }

  function SwitchedAll(perms: Perms, keys: seq<string>, on: bool): Perms {
    map k | k in perms.Keys + (set x | x in keys) :: if k in keys then on else perms[k]
  }

  function GroupSwitched(perms: Perms, group: Option<Option<seq<string>>>, enabled: Option<bool>): Perms {
    if group.Some? && group.value.Some? && enabled.Some? then SwitchedAll(perms, group.value.value, enabled.value)
    else perms
  }

  function Switched(perms: Perms, changes: seq<(string, bool)>): Perms {
    if changes == [] then perms
    else
      var (k, v) := changes[|changes| - 1];
      Switched(perms, changes[..|changes| - 1])[k := v]
  }

  method SetAll(cur: PermMap, keys: seq<string>, on: bool)
    modifies cur
    ensures cur.m == SwitchedAll(old(cur.m), keys, on)
  {
    for i := 0 to |keys|
      invariant cur.m == SwitchedAll(old(cur.m), keys[..i], on)
    {
      cur.m := cur.m[keys[i] := on];
      assert keys[..i + 1] == keys[..i] + [keys[i]];
    }
    assert keys[..|keys|] == keys;
  }

  /** Whatever a caller does to a loaded map, the next load answers from the tables as before. */
  method MutationIsInvisible(s: AccountSystem, user: User, edited: Perms, now: Millis, later: Millis)
    returns (again: PermMap)
    requires s.Valid()
    modifies s`permCache
    ensures s.Valid() && again.m == PermsIn(old(s.Table()), user)
  {
    var loaded := s.LoadPermissions(user, now);
    loaded.m := edited;
    again := s.LoadPermissions(user, later);
  }
}
