/** Two account requests from end to end: logging in past the limiter, and changing or resetting a password. */
module AccountHandlers {
  import opened Common
  import opened Accounts
  import L = LoginLimiter

  const MIN_PASSWORD := 8

  /** The fields of a password request; an absent one is empty. */
  datatype PasswordBody = PasswordBody(username: User, password: string, oldPassword: string, newPassword: string)

  predicate PasswordIs(t: Tables, user: User, password: string) {
    user in t.accounts && t.accounts[user].password == password
  }

  // ---------- logging in ----------

  /**
   A login: refused without a look at the password while account or address is locked, otherwise let in exactly on the
   right password; the limiter's table moves as one attempt.
   */
  method HandleLogin(a: AccountSystem, l: L.Limiter, user: User, password: string, ip: string, token: Token,
                     now: Millis)
    returns (r: Result<Session, AccountError>)
    requires a.Valid() && a.clock <= now && token != "" && token !in a.sessions && token !in a.sessCache
    requires l.Valid() && l.clock <= now
    modifies a`sessCache, a`sessions, a`clock, l
    ensures a.Valid() && l.Valid()
    ensures user == "" ==> r == Err(MissingField) && l.fails == old(l.fails) && a.Table() == old(a.Table())
    ensures user != "" ==>
              && (r == Err(TooMany) <==>
                    L.Locked(old(l.fails), L.PairKey(user, ip), now) || L.Locked(old(l.fails), L.IpKey(ip), now))
              && (r == Err(TooMany) ==> l.fails == old(l.fails) && a.Table() == old(a.Table()))
              && (r == Err(TooMany) <==> L.Blocked(old(l.fails), user, ip, now))
              && (r.Ok? <==> !L.Blocked(old(l.fails), user, ip, now) && PasswordIs(old(a.Table()), user, password))
              && (r.Ok? ==> user in old(a.accounts) && old(a.accounts)[user].password == password)
              && (r.Ok? ==> SessionIn(a.Table(), token, now) == Some(r.value) && r.value.user == user)
              && L.Attempted(old(l.fails), L.Try(user, ip, PasswordIs(old(a.Table()), user, password), now), l.fails)
              && a.Table() == if r == Err(TooMany) then old(a.Table())
                              else Apply(old(a.Table()), Login(user, password, token, now))
  {
    if user == "" {
      return Err(MissingField);
    }
    var blocked := l.LoginBlocked(user, ip, now);
    if blocked {
      return Err(TooMany);
    }
    l.Purge(now);
    r := a.LogIn(user, password, token, now);
    if r.Err? {
      l.RecordFailure(user, ip, now);
    } else {
      l.ClearFailures(user, ip);
    }
  }

  // ---------- passwords ----------

  /** Whom a token speaks for, by the tables. */
  function Caller(t: Tables, token: Token, now: Millis): Option<(User, bool)> {
    var s := SessionIn(t, token, now);
    if token == "" || s.None? then None else Some((s.value.user, s.value.isAdmin))
  }

  /** A request with an old or a new password is about the caller's own; any other is an administrator's reset. */
  predicate IsOwn(b: PasswordBody) {
    b.oldPassword != "" || b.newPassword != ""
  }

  function NewPassword(b: PasswordBody): string {
    if IsOwn(b) then b.newPassword else b.password
  }

  /** Who may change whose password to what: one's own by showing it, anyone's as an administrator. */
  predicate MayChange(t: Tables, caller: (User, bool), b: PasswordBody, target: User) {
    && target in t.accounts && |NewPassword(b)| >= MIN_PASSWORD
    && if IsOwn(b) then target == caller.0 && b.oldPassword != "" && PasswordIs(t, target, b.oldPassword)
       else caller.1 && target == b.username && target != ""
  }

  /**
   A password request: done exactly when the caller may, for the one target there is; then every session of the target
   but the caller's own stops resolving, and without it nothing but the caller's renewal changes.
   */
  method HandlePassword(a: AccountSystem, token: Token, b: PasswordBody, now: Millis)
    returns (r: Result<User, AccountError>)
    requires a.Valid() && a.clock <= now
    modifies a`accounts, a`sessCache, a`sessions, a`clock
    ensures a.Valid()
    ensures var caller := Caller(old(a.Table()), token, now);
            && (caller.None? <==> r == Err(Unauthenticated))
            && (r.Ok? ==> caller.Some? && MayChange(old(a.Table()), caller.value, b, r.value))
            && (r.Err? && caller.Some? ==> forall u :: !MayChange(old(a.Table()), caller.value, b, u))
    ensures var me, accounts := SessionIn(old(a.Table()), token, now), old(a.accounts);
            && (r.Ok? <==>
                  && token != "" && me.Some?
                  && if b.oldPassword != "" || b.newPassword != "" then
                       && b.oldPassword != "" && |b.newPassword| >= 8 && me.value.user in accounts
                       && accounts[me.value.user].password == b.oldPassword
                     else
                       me.value.isAdmin && b.username != "" && b.username in accounts && |b.password| >= 8)
            && (r.Ok? ==> r.value == if b.oldPassword != "" then me.value.user else b.username)
            && (r.Ok? ==> r.value in a.accounts && a.accounts[r.value].password ==
                          if b.oldPassword != "" then b.newPassword else b.password)
    ensures var t := Apply(old(a.Table()), Authenticate(token, now));
            a.Table() == if r.Ok? then Apply(t, SetPassword(r.value, NewPassword(b), token)) else t
    ensures r.Ok? ==> PasswordIs(a.Table(), r.value, NewPassword(b))
    ensures r.Ok? ==> forall k, later :: k in old(a.sessions) && old(a.sessions)[k].user == r.value && k != token ==>
                        SessionIn(a.Table(), k, later) == None
  {
    var caller := a.AuthenticateRequest(token, now);
    if caller.None? {
      return Err(Unauthenticated);
    }
    var (me, isAdmin) := caller.value;
    if b.oldPassword != "" || b.newPassword != "" {
      if b.oldPassword == "" || b.newPassword == "" {
        return Err(MissingField);
      }
      if me !in a.accounts || a.accounts[me].password != b.oldPassword {
        return Err(BadPassword);
      }
      r := SetChecked(a, me, b.newPassword, token);
    } else {
      if !isAdmin {
        return Err(NotAdmin);
      }
      if b.username == "" || b.password == "" {
        return Err(MissingField);
      }
      if b.username !in a.accounts {
        return Err(NotFound);
      }
      r := SetChecked(a, b.username, b.password, token);
    }
  }

  /** The last check, on the length, and the change of an existing account's password. */
  method SetChecked(a: AccountSystem, user: User, password: string, token: Token)
    returns (r: Result<User, AccountError>)
    requires a.Valid() && user in a.accounts
    modifies a`accounts, a`sessCache, a`sessions
    ensures a.Valid()
    ensures r == if |password| < MIN_PASSWORD then Err(TooShort) else Ok(user)
    ensures a.Table() == if r.Ok? then Apply(old(a.Table()), SetPassword(user, password, token)) else old(a.Table())
  {
    if |password| < MIN_PASSWORD {
      return Err(TooShort);
    }
    var changed := a.ChangePassword(user, password, token);
    return Ok(user);
  }
}
