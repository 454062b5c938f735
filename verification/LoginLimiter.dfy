/** The login limiter: failures counted per account and address and per address, with lockout, purge and eviction. */
module LoginLimiter {
  import opened Common

  type Key = string

  type Millis = int

  const MAX_FAILS := 5
  const MAX_FAILS_IP := 30
  const LOCKOUT: Millis := 15 * 60 * 1000
  const WINDOW: Millis := 15 * 60 * 1000
  const MAX_KEYS := 10000

  datatype Entry = Entry(count: nat, windowSt: Millis, until: Option<Millis>)

  type Fails = map<Key, Entry>

  // ---------- keys ----------

  function PairKey(user: string, ip: string): Key {
    "a:" + user + "@" + ip
  }

  function IpKey(ip: string): Key {
    "i:" + ip
  }

  lemma LastAt(user: string, ip: string)
    requires '@' !in ip
    ensures var k := PairKey(user, ip);
            && k[2 + |user|] == '@' && (forall p :: 2 + |user| < p < |k| ==> k[p] != '@')
            && k[2..2 + |user|] == user && k[3 + |user|..] == ip
  {
    var k := PairKey(user, ip);
    forall p | 2 + |user| < p < |k| ensures k[p] != '@' {
      assert k[p] == ip[p - 3 - |user|];
    }
  }

  /** Addresses contain no at sign, so the pair can be read off its key whatever the user name contains. */
  lemma PairKeyInjective(user: string, ip: string, user': string, ip': string)
    requires '@' !in ip && '@' !in ip' && PairKey(user, ip) == PairKey(user', ip')
    ensures user == user' && ip == ip'
  {
    LastAt(user, ip);
    LastAt(user', ip');
    assert |user| == |user'|;
  }

  // ---------- the table as a value ----------

  predicate Locked(f: Fails, k: Key, now: Millis) {
    k in f && f[k].until.Some? && now < f[k].until.value
  }

  predicate Blocked(f: Fails, user: string, ip: string, now: Millis) {
    Locked(f, PairKey(user, ip), now) || Locked(f, IpKey(ip), now)
  }

  /** An entry after one more failure: a window that has run out starts over and forgets its lock. */
  function Failed(e: Option<Entry>, limit: nat, now: Millis): Entry {
    var base := if e.Some? && now - e.value.windowSt <= WINDOW then e.value else Entry(0, now, None);
    Entry(base.count + 1, base.windowSt, if base.count + 1 >= limit then Some(now + LOCKOUT) else base.until)
  }

  function Lookup(f: Fails, k: Key): Option<Entry> {
    if k in f then Some(f[k]) else None
  }

  function Recorded(f: Fails, user: string, ip: string, now: Millis): Fails {
    var f' := f[PairKey(user, ip) := Failed(Lookup(f, PairKey(user, ip)), MAX_FAILS, now)];
    f'[IpKey(ip) := Failed(Lookup(f', IpKey(ip)), MAX_FAILS_IP, now)]
  }

  function Purged(f: Fails, now: Millis): Fails {
    map k | k in f && f[k].windowSt >= now - (WINDOW + LOCKOUT) :: f[k]
  }

  /**
   Entries count at least one failure, windows lie in the past, and a lock ends at most a window and a lockout after its
   window began.
   */
  ghost predicate Timely(f: Fails, clock: Millis) {
    forall k :: k in f ==>
                  && f[k].count > 0 && f[k].windowSt <= clock
                  && (f[k].until.Some? ==> f[k].until.value <= f[k].windowSt + WINDOW + LOCKOUT)
  }

  lemma RecordedTimely(f: Fails, user: string, ip: string, clock: Millis, now: Millis)
    requires Timely(f, clock) && clock <= now
    ensures Timely(Recorded(f, user, ip, now), now)
  {
  }

  /** Purging is invisible: no present or later question is answered differently. */
  lemma PurgeIsInvisible(f: Fails, clock: Millis, now: Millis, user: string, ip: string, later: Millis)
    requires Timely(f, clock) && now <= later
    ensures Blocked(Purged(f, now), user, ip, later) == Blocked(f, user, ip, later)
  {
  }

  /** kept lost nothing but entries with windows no younger than those it still has. */
  ghost predicate OldestDropped(f: Fails, kept: Fails) {
    && (forall k :: k in kept ==> k in f && kept[k] == f[k])
    && (forall k, x :: k in f && k !in kept && x in kept ==> f[k].windowSt <= kept[x].windowSt)
  }

  /** Room at the cap: purging alone if that is enough, else the oldest entries go until one key fits. */
  ghost predicate MadeRoom(f: Fails, kept: Fails, now: Millis) {
    if |f| < MAX_KEYS then kept == f
    else if |Purged(f, now)| < MAX_KEYS then kept == Purged(f, now)
    else |kept| == MAX_KEYS - 1 && OldestDropped(Purged(f, now), kept)
  }

  datatype Try = Try(user: string, ip: string, passwordOk: bool, now: Millis)

  /** A login attempt: refused when blocked, else the table is purged and counts the failure or forgets the keys. */
  ghost predicate Attempted(f: Fails, t: Try, f': Fails) {
    if Blocked(f, t.user, t.ip, t.now) then f' == f
    else if t.passwordOk then f' == Purged(f, t.now) - {PairKey(t.user, t.ip), IpKey(t.ip)}
    else exists kept :: MadeRoom(Purged(f, t.now), kept, t.now) && f' == Recorded(kept, t.user, t.ip, t.now)
  }

  // ---------- the limiter ----------

  class Limiter {
    var fails: Fails
    ghost var clock: Millis

    ghost predicate Valid()
      reads this
    {
      Timely(fails, clock) && |fails| <= MAX_KEYS + 1
    }

    constructor (now: Millis)
      ensures Valid() && fails == map[] && clock == now
    {
      fails, clock := map[], now;
    }

    method LoginBlocked(user: string, ip: string, now: Millis) returns (r: bool)
      ensures r == Blocked(fails, user, ip, now)
    {
      var uk, ik := PairKey(user, ip), IpKey(ip);
      if uk in fails && fails[uk].until.Some? && now < fails[uk].until.value {
        return true;
      }
      if ik in fails && fails[ik].until.Some? && now < fails[ik].until.value {
        return true;
      }
      return false;
    }

    method Purge(now: Millis)
      requires Valid() && clock <= now
      modifies this
      ensures Valid() && clock == now && fails == Purged(old(fails), now)
    {
      var stale := now - (WINDOW + LOCKOUT);
      clock := now;
      var todo := fails.Keys;
      while todo != {}
        modifies this`fails
        invariant todo <= old(fails).Keys
        invariant fails == map k | k in old(fails) && (k in todo || old(fails)[k].windowSt >= stale) :: old(fails)[k]
      {
        var k :| k in todo;
        todo := todo - {k};
        if fails[k].windowSt < stale {
          fails := fails - {k};
        }
      }
      SmallerMap(fails, old(fails));
    }

    method OldestKey() returns (oldest: Key)
      requires fails != map[]
      ensures oldest in fails && forall k :: k in fails ==> fails[oldest].windowSt <= fails[k].windowSt
    {
      var todo := fails.Keys;
      oldest :| oldest in todo;
      while todo != {}
        invariant todo <= fails.Keys && oldest in fails
        invariant forall k :: k in fails && k !in todo ==> fails[oldest].windowSt <= fails[k].windowSt
      {
        var k :| k in todo;
        todo := todo - {k};
        if fails[k].windowSt < fails[oldest].windowSt {
          oldest := k;
        }
      }
    }

    /** Makes room at the cap: stale entries go first, then the oldest windows, one at a time. */
    method MakeRoom(now: Millis)
      requires Valid() && clock <= now
      modifies this
      ensures Valid() && clock == now && |fails| < MAX_KEYS
      ensures MadeRoom(old(fails), fails, now)
    {
      if |fails| >= MAX_KEYS {
        Purge(now);
        ghost var purged := fails;
        while |fails| >= MAX_KEYS
          modifies this`fails
          invariant Valid()
          invariant if |purged| < MAX_KEYS then fails == purged else |fails| >= MAX_KEYS - 1
          invariant OldestDropped(purged, fails)
          decreases |fails|
        {
          var oldest := OldestKey();
          DropOne(fails, oldest);
          fails := fails - {oldest};
        }
      }
      clock := now;
    }

    method RecordFailure(user: string, ip: string, now: Millis)
      requires Valid() && clock <= now
      modifies this
      ensures Valid() && clock == now
      ensures |old(fails)| < MAX_KEYS ==> fails == Recorded(old(fails), user, ip, now)
      ensures exists kept :: MadeRoom(old(fails), kept, now) && fails == Recorded(kept, user, ip, now)
      ensures Lookup(fails, PairKey(user, ip)).Some? && Lookup(fails, IpKey(ip)).Some?
    {
      MakeRoom(now);
      assert MadeRoom(old(fails), fails, now);
      RecordedTimely(fails, user, ip, now, now);
      var uk, ik := PairKey(user, ip), IpKey(ip);
      AddTwo(fails, uk, Failed(Lookup(fails, uk), MAX_FAILS, now), ik,
             Failed(Lookup(fails[uk := Failed(Lookup(fails, uk), MAX_FAILS, now)], ik), MAX_FAILS_IP, now));
      Count(uk, MAX_FAILS, now);
      Count(ik, MAX_FAILS_IP, now);
    }

    method Count(k: Key, limit: nat, now: Millis)
      modifies this`fails
      ensures fails == old(fails)[k := Failed(Lookup(old(fails), k), limit, now)]
    {
      var e := if k in fails then fails[k] else Entry(0, now, None);
      if now - e.windowSt > WINDOW {
        e := Entry(0, now, None);
      }
      e := e.(count := e.count + 1);
      if e.count >= limit {
        e := e.(until := Some(now + LOCKOUT));
      }
      fails := fails[k := e];
    }

    method ClearFailures(user: string, ip: string)
      requires Valid()
      modifies this`fails
      ensures Valid() && fails == old(fails) - {PairKey(user, ip), IpKey(ip)}
    {
      TwoGone(fails, PairKey(user, ip), IpKey(ip));
      fails := fails - {PairKey(user, ip)};
      fails := fails - {IpKey(ip)};
    }

    /** The limiter's part of a login request. */
    method Attempt(user: string, ip: string, passwordOk: bool, now: Millis) returns (refused: bool)
      requires Valid() && clock <= now
      modifies this
      ensures Valid()
      ensures refused == Blocked(old(fails), user, ip, now)
      ensures refused <==> Locked(old(fails), PairKey(user, ip), now) || Locked(old(fails), IpKey(ip), now)
      ensures Attempted(old(fails), Try(user, ip, passwordOk, now), fails)
    {
      refused := LoginBlocked(user, ip, now);
      if refused {
        return;
      }
      Purge(now);
      if passwordOk {
        ClearFailures(user, ip);
      } else {
        RecordFailure(user, ip, now);
      }
    }
  }

  lemma SmallerMap(m: Fails, n: Fails)
    requires m.Keys <= n.Keys
    ensures |m| <= |n|
  {
    SmallerSet(m.Keys, n.Keys);
  }

  lemma {:induction false} SmallerSet(a: set<Key>, b: set<Key>)
    requires a <= b
    ensures |a| <= |b|
  {
    if a != {} {
      var x :| x in a;
      SmallerSet(a - {x}, b - {x});
    }
  }

  lemma TwoGone(m: Fails, k: Key, k': Key)
    ensures m - {k} - {k'} == m - {k, k'} && |m - {k, k'}| <= |m|
  {
    assert m - {k} - {k'} == m - {k, k'};
    SmallerMap(m - {k, k'}, m);
  }

  lemma DropOne(m: Fails, k: Key)
    requires k in m
    ensures |m - {k}| == |m| - 1
  {
    assert (m - {k}).Keys == m.Keys - {k};
  }

  lemma AddTwo(m: Fails, k: Key, e: Entry, k': Key, e': Entry)
    ensures |m[k := e][k' := e']| <= |m| + 2
  {
    assert m[k := e].Keys == m.Keys + {k};
    assert m[k := e][k' := e'].Keys == m.Keys + {k} + {k'};
  }
}
