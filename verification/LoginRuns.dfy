/** Runs of login attempts by anyone: how long a lock holds, how many guesses it leaves, and when eviction drops it. */
module LoginRuns {
  import opened Common
  import opened LoginLimiter

  /** fs are the tables before and after each of the attempts. */
  ghost predicate IsRun(fs: seq<Fails>, tries: seq<Try>) {
    && |fs| == |tries| + 1
    && forall i {:trigger tries[i]} :: 0 <= i < |tries| ==> Attempted(fs[i], tries[i], fs[i + 1])
  }

  ghost predicate InOrder(tries: seq<Try>) {
    forall i :: 0 < i < |tries| ==> tries[i - 1].now <= tries[i].now
  }

  ghost predicate RealAddresses(tries: seq<Try>) {
    forall i :: 0 <= i < |tries| ==> '@' !in tries[i].ip
  }

  lemma {:induction false} Ordered(tries: seq<Try>, i: nat, j: nat)
    requires InOrder(tries) && i <= j < |tries|
    ensures tries[i].now <= tries[j].now
  {
    if i < j {
      Ordered(tries, i, j - 1);
    }
  }

  // ---------- deadlines ----------

  lemma AttemptedTimely(f: Fails, clock: Millis, t: Try, f': Fails)
    requires Timely(f, clock) && clock <= t.now && Attempted(f, t, f')
    ensures Timely(f', t.now)
  {
    if !Blocked(f, t.user, t.ip, t.now) && !t.passwordOk {
      var kept :| MadeRoom(Purged(f, t.now), kept, t.now) && f' == Recorded(kept, t.user, t.ip, t.now);
      assert forall k :: k in kept ==> k in f && kept[k] == f[k];
      RecordedTimely(kept, t.user, t.ip, clock, t.now);
    }
  }

  /** In every run a lock ends at most a window and a lockout after its window began. */
  lemma {:induction false} RunTimely(fs: seq<Fails>, clock: Millis, tries: seq<Try>, n: nat)
    requires IsRun(fs, tries) && InOrder(tries) && n < |fs|
    requires Timely(fs[0], clock) && (tries != [] ==> clock <= tries[0].now)
    ensures Timely(fs[n], if n == 0 then clock else tries[n - 1].now)
  {
    if n > 0 {
      RunTimely(fs, clock, tries, n - 1);
      AttemptedTimely(fs[n - 1], if n == 1 then clock else tries[n - 2].now, tries[n - 1], fs[n]);
    }
  }

  // ---------- eviction ----------

  /** The entries with a strictly older window than k's. */
  function Older(f: Fails, k: Key): set<Key>
    requires k in f
  {
    set x | x in f && f[x].windowSt < f[k].windowSt
  }

  /** Making room spares k: purging is enough, or at least as many entries are strictly older as have to go. */
  ghost predicate Spared(f: Fails, k: Key, now: Millis) {
    k in Purged(f, now) ==>
      |Purged(f, now)| < MAX_KEYS || |Older(Purged(f, now), k)| >= |Purged(f, now)| - (MAX_KEYS - 1)
  }

  /** A locked entry survives making room, however ties fall, exactly when there is room or it is spared. */
  lemma EvictionSparesIff(f: Fails, clock: Millis, k: Key, now: Millis)
    requires Timely(f, clock) && Locked(f, k, now)
    ensures (forall kept :: MadeRoom(f, kept, now) ==> Lookup(kept, k) == Some(f[k])) <==>
            |f| < MAX_KEYS || Spared(f, k, now)
  {
    assert k in Purged(f, now);
    if |f| < MAX_KEYS || Spared(f, k, now) {
      forall kept | MadeRoom(f, kept, now) ensures Lookup(kept, k) == Some(f[k]) {
        SparedStays(f, kept, k, now);
      }
    } else {
      var kept := EvictedRoom(f, k, now);
      assert MadeRoom(f, kept, now) && k !in kept;
    }
  }

  lemma SparedStays(f: Fails, kept: Fails, k: Key, now: Millis)
    requires k in Purged(f, now) && MadeRoom(f, kept, now) && (|f| < MAX_KEYS || Spared(f, k, now))
    ensures Lookup(kept, k) == Some(f[k])
  {
    var p := Purged(f, now);
    if |f| >= MAX_KEYS && |p| >= MAX_KEYS && k !in kept {
      OlderWentFirst(p, kept, k);
    }
  }

  /** What is dropped takes everything strictly older along. */
  lemma OlderWentFirst(p: Fails, kept: Fails, k: Key)
    requires OldestDropped(p, kept) && k in p && k !in kept
    ensures |Older(p, k)| < |p| - |kept|
  {
    var gone := p.Keys - kept.Keys;
    assert gone + kept.Keys == p.Keys && gone !! kept.Keys;
    assert |gone| == |p| - |kept|;
    assert Older(p, k) + {k} <= gone;
    SmallerSet(Older(p, k) + {k}, gone);
    assert |Older(p, k) + {k}| == |Older(p, k)| + 1;
  }

  /** A set of entries that may go first: none of them is younger than any that stays. */
  ghost predicate GoesFirst(f: Fails, gone: set<Key>) {
    gone <= f.Keys && forall x, y :: x in gone && y in f && y !in gone ==> f[x].windowSt <= f[y].windowSt
  }

  lemma OldestOf(f: Fails, s: set<Key>) returns (oldest: Key)
    requires s != {} && s <= f.Keys
    ensures oldest in s && forall k :: k in s ==> f[oldest].windowSt <= f[k].windowSt
    decreases s
  {
    var x :| x in s;
    if s == {x} {
      oldest := x;
    } else {
      var rest := OldestOf(f, s - {x});
      oldest := if f[x].windowSt < f[rest].windowSt then x else rest;
    }
  }

  lemma StrictlyMore(a: set<Key>, b: set<Key>)
    requires |a| < |b|
    ensures b - a != {}
  {
    if b <= a {
      SmallerSet(b, a);
    } else {
      var x :| x in b && x !in a;
      assert x in b - a;
    }
  }

  lemma {:induction false} GoFirst(f: Fails, base: set<Key>, n: nat) returns (gone: set<Key>)
    requires GoesFirst(f, base) && |base| <= n <= |f.Keys|
    ensures GoesFirst(f, gone) && base <= gone && |gone| == n
    decreases n - |base|
  {
    if |base| == n {
      gone := base;
    } else {
      StrictlyMore(base, f.Keys);
      var y := OldestOf(f, f.Keys - base);
      assert |base + {y}| == |base| + 1;
      SmallerSet(base + {y}, f.Keys);
      gone := GoFirst(f, base + {y}, n);
    }
  }

  /** Without enough older entries there is a way to make room that drops k. */
  lemma EvictedRoom(f: Fails, k: Key, now: Millis) returns (kept: Fails)
    requires |f| >= MAX_KEYS && k in Purged(f, now) && !Spared(f, k, now)
    ensures MadeRoom(f, kept, now) && k !in kept
  {
    var p := Purged(f, now);
    assert k !in Older(p, k);
    assert |Older(p, k) + {k}| == |Older(p, k)| + 1;
    assert GoesFirst(p, Older(p, k) + {k});
    var gone := GoFirst(p, Older(p, k) + {k}, |p| - (MAX_KEYS - 1));
    kept := p - gone;
    assert kept.Keys + gone == p.Keys && kept.Keys !! gone;
    assert OldestDropped(p, kept);
  }

  // ---------- one attempt and the entry of a pair ----------

  /** The attempt gets as far as the password check, as a try of this very pair. */
  ghost predicate IsCheck(f: Fails, t: Try, user: string, ip: string) {
    t.user == user && t.ip == ip && !Blocked(f, user, ip, t.now)
  }

  /** What any attempt by another pair, and a failed one by the pair itself, do to the pair's entry. */
  lemma PairStep(f: Fails, t: Try, f': Fails, user: string, ip: string)
    requires Attempted(f, t, f') && '@' !in ip && '@' !in t.ip
    requires Spared(f, PairKey(user, ip), t.now)
    requires IsCheck(f, t, user, ip) ==> !t.passwordOk
    ensures var k := PairKey(user, ip); var before := Lookup(Purged(f, t.now), k);
            Lookup(f', k) == if Blocked(f, t.user, t.ip, t.now) then Lookup(f, k)
                             else if IsCheck(f, t, user, ip) then Some(Failed(before, MAX_FAILS, t.now))
                             else before
  {
    var k := PairKey(user, ip);
    assert k[0] == 'a' && IpKey(t.ip)[0] == 'i';
    if PairKey(t.user, t.ip) == k {
      PairKeyInjective(t.user, t.ip, user, ip);
    }
    if !Blocked(f, t.user, t.ip, t.now) && !t.passwordOk {
      var p := Purged(f, t.now);
      var kept :| MadeRoom(p, kept, t.now) && f' == Recorded(kept, t.user, t.ip, t.now);
      assert Purged(p, t.now) == p;
      if k in p {
        SparedStays(p, kept, k, t.now);
      } else {
        assert k !in kept;
      }
      assert Lookup(kept, k) == Lookup(p, k);
    }
  }

  /** Room is made for the pair at every attempt of the stretch [m, n). */
  ghost predicate AlwaysSpared(fs: seq<Fails>, tries: seq<Try>, k: Key, m: nat, n: nat)
    requires |fs| == |tries| + 1 && n <= |tries|
  {
    forall i :: m <= i < n ==> Spared(fs[i], k, tries[i].now)
  }

  ghost predicate NeverLogsIn(fs: seq<Fails>, tries: seq<Try>, user: string, ip: string, m: nat, n: nat)
    requires |fs| == |tries| + 1 && n <= |tries|
  {
    forall i :: m <= i < n && IsCheck(fs[i], tries[i], user, ip) ==> !tries[i].passwordOk
  }

  // ---------- how long a lock holds ----------

  /**
   A locked pair that room is always made for keeps the very entry that locks it, through any attempts by anyone, until
   its deadline; so it is refused for the whole lockout.
   */
  lemma {:induction false} LockHolds(fs: seq<Fails>, clock: Millis, tries: seq<Try>, user: string, ip: string,
                                     n: nat, now: Millis)
    requires IsRun(fs, tries) && InOrder(tries) && RealAddresses(tries) && '@' !in ip && n < |fs|
    requires Timely(fs[0], clock) && (tries != [] ==> clock <= tries[0].now)
    requires AlwaysSpared(fs, tries, PairKey(user, ip), 0, n)
    requires (n > 0 ==> tries[n - 1].now <= now) && Locked(fs[0], PairKey(user, ip), now)
    ensures Lookup(fs[n], PairKey(user, ip)) == Some(fs[0][PairKey(user, ip)])
    ensures Blocked(fs[n], user, ip, now)
  {
    if n > 0 {
      var k, t := PairKey(user, ip), tries[n - 1];
      if n > 1 {
        assert tries[n - 2].now <= t.now;
      }
      LockHolds(fs, clock, tries, user, ip, n - 1, now);
      RunTimely(fs, clock, tries, n - 1);
      assert Locked(fs[n - 1], k, t.now);
      PairStep(fs[n - 1], t, fs[n], user, ip);
    }
  }

  // ---------- how many guesses a lock leaves ----------

  /** How many of the attempts m … n - 1 were password checks of the pair. */
  ghost function Checks(fs: seq<Fails>, tries: seq<Try>, user: string, ip: string, m: nat, n: nat): nat
    requires |fs| == |tries| + 1 && m <= n <= |tries|
  {
    if m == n then 0
    else Checks(fs, tries, user, ip, m, n - 1) + if IsCheck(fs[n - 1], tries[n - 1], user, ip) then 1 else 0
  }

  /** The fifth failed check of a pair within one window, or any later one, locks the pair for the lockout. */
  lemma FifthCheckLocks(fs: seq<Fails>, tries: seq<Try>, user: string, ip: string, from: Millis, later: Millis)
    requires IsRun(fs, tries) && RealAddresses(tries) && '@' !in ip && tries != []
    requires PairKey(user, ip) !in fs[0]
    requires forall i :: 0 <= i < |tries| ==> from <= tries[i].now <= from + WINDOW
    requires AlwaysSpared(fs, tries, PairKey(user, ip), 0, |tries|) && NeverLogsIn(fs, tries, user, ip, 0, |tries|)
    requires IsCheck(fs[|tries| - 1], tries[|tries| - 1], user, ip)
    requires Checks(fs, tries, user, ip, 0, |tries|) >= 5 && later < tries[|tries| - 1].now + LOCKOUT
    ensures Blocked(fs[|tries|], user, ip, later)
  {
    var n := |tries| - 1;
    var i := 0;
    while i < n
      invariant 0 <= i <= n
      invariant Counts(Checks(fs, tries, user, ip, 0, i), Lookup(fs[i], PairKey(user, ip)), from)
    {
      CountStep(fs[i], tries[i], fs[i + 1], user, ip, Checks(fs, tries, user, ip, 0, i), from);
      i := i + 1;
    }
    LockStep(fs[n], tries[n], fs[n + 1], user, ip, Checks(fs, tries, user, ip, 0, n), from, later);
  }

  /** Within one window the entry of a new pair counts its failed checks. */
  ghost predicate Counts(c: nat, e: Option<Entry>, from: Millis) {
    if c == 0 then e == None else e.Some? && e.value.count == c && e.value.windowSt >= from
  }

  lemma CountStep(f: Fails, t: Try, f': Fails, user: string, ip: string, c: nat, from: Millis)
    requires Attempted(f, t, f') && '@' !in ip && '@' !in t.ip && from <= t.now <= from + WINDOW
    requires Spared(f, PairKey(user, ip), t.now) && (IsCheck(f, t, user, ip) ==> !t.passwordOk)
    requires Counts(c, Lookup(f, PairKey(user, ip)), from)
    ensures Counts(if IsCheck(f, t, user, ip) then c + 1 else c, Lookup(f', PairKey(user, ip)), from)
  {
    PairStep(f, t, f', user, ip);
  }

  lemma LockStep(f: Fails, t: Try, f': Fails, user: string, ip: string, c: nat, from: Millis, later: Millis)
    requires Attempted(f, t, f') && '@' !in ip && '@' !in t.ip && from <= t.now <= from + WINDOW
    requires Spared(f, PairKey(user, ip), t.now) && IsCheck(f, t, user, ip) && !t.passwordOk
    requires Counts(c, Lookup(f, PairKey(user, ip)), from) && c + 1 >= MAX_FAILS && later < t.now + LOCKOUT
    ensures Locked(f', PairKey(user, ip), later)
  {
    PairStep(f, t, f', user, ip);
  }

  const MAX_CHECKS := 2 * MAX_FAILS - 2

  /** What a pair's entry says after c failed checks since the time from, before the lockout from then on is over. */
  ghost predicate Bounded(c: nat, e: Option<Entry>, from: Millis) {
    || (e.Some? && e.value.until.Some? && e.value.until.value >= from + LOCKOUT && c <= MAX_CHECKS)
    || (e.None? && c == 0)
    || (e.Some? && e.value.windowSt < from
        && (c == 0 || (c < e.value.count < MAX_FAILS && e.value.windowSt >= from - WINDOW)))
    || (e.Some? && e.value.windowSt >= from && e.value.count < MAX_FAILS && c <= MAX_FAILS - 2 + e.value.count)
  }

  lemma BoundedStep(f: Fails, clock: Millis, t: Try, f': Fails, user: string, ip: string, c: nat, from: Millis)
    requires Attempted(f, t, f') && '@' !in ip && '@' !in t.ip && Timely(f, clock)
    requires Spared(f, PairKey(user, ip), t.now) && (IsCheck(f, t, user, ip) ==> !t.passwordOk)
    requires from <= t.now < from + LOCKOUT && Bounded(c, Lookup(f, PairKey(user, ip)), from)
    ensures Bounded(if IsCheck(f, t, user, ip) then c + 1 else c, Lookup(f', PairKey(user, ip)), from)
  {
    PairStep(f, t, f', user, ip);
  }

  /** The time reached before attempt n of a run from the empty table. */
  function Reached(tries: seq<Try>, n: nat): Millis
    requires n <= |tries|
  {
    if n > 0 then tries[n - 1].now else if tries == [] then 0 else tries[0].now
  }

  lemma TimelySoFar(fs: seq<Fails>, tries: seq<Try>, n: nat)
    requires IsRun(fs, tries) && InOrder(tries) && fs[0] == map[] && n <= |tries|
    ensures Timely(fs[n], Reached(tries, n))
  {
    RunTimely(fs, Reached(tries, 0), tries, n);
  }

  /** Attempt i falls into the lockout that begins at from, is no login of the pair, and room is made for the pair. */
  ghost predicate GuessStep(fs: seq<Fails>, tries: seq<Try>, user: string, ip: string, from: Millis, i: nat)
    requires |fs| == |tries| + 1 && i < |tries|
  {
    && Attempted(fs[i], tries[i], fs[i + 1]) && Timely(fs[i], Reached(tries, i))
    && '@' !in ip && '@' !in tries[i].ip
    && from <= tries[i].now < from + LOCKOUT
    && Spared(fs[i], PairKey(user, ip), tries[i].now)
    && (IsCheck(fs[i], tries[i], user, ip) ==> !tries[i].passwordOk)
  }

  lemma BoundedAfter(fs: seq<Fails>, tries: seq<Try>, user: string, ip: string, from: Millis, m: nat, i: nat)
    requires |fs| == |tries| + 1 && m <= i < |tries| && GuessStep(fs, tries, user, ip, from, i)
    requires Bounded(Checks(fs, tries, user, ip, m, i), Lookup(fs[i], PairKey(user, ip)), from)
    ensures Bounded(Checks(fs, tries, user, ip, m, i + 1), Lookup(fs[i + 1], PairKey(user, ip)), from)
  {
    BoundedStep(fs[i], Reached(tries, i), tries[i], fs[i + 1], user, ip, Checks(fs, tries, user, ip, m, i), from);
  }

  lemma BoundedRun(fs: seq<Fails>, tries: seq<Try>, user: string, ip: string, m: nat, n: nat, from: Millis)
    requires |fs| == |tries| + 1 && m <= n <= |tries|
    requires forall i :: m <= i < n ==> GuessStep(fs, tries, user, ip, from, i)
    requires Bounded(0, Lookup(fs[m], PairKey(user, ip)), from)
    ensures Bounded(Checks(fs, tries, user, ip, m, n), Lookup(fs[n], PairKey(user, ip)), from)
  {
    var i := m;
    while i < n
      invariant m <= i <= n
      invariant Bounded(Checks(fs, tries, user, ip, m, i), Lookup(fs[i], PairKey(user, ip)), from)
    {
      BoundedAfter(fs, tries, user, ip, from, m, i);
      i := i + 1;
    }
  }

  /**
   In every run from the empty table, any stretch of one lockout holds at most eight failed password checks of a pair
   that does not log in during it and that room is made for.
   */
  lemma BoundedGuesses(fs: seq<Fails>, tries: seq<Try>, user: string, ip: string, m: nat, n: nat, from: Millis)
    requires IsRun(fs, tries) && InOrder(tries) && RealAddresses(tries) && '@' !in ip && m <= n <= |tries|
    requires fs[0] == map[] && (m > 0 ==> tries[m - 1].now < from)
    requires forall i :: m <= i < n ==> from <= tries[i].now < from + LOCKOUT
    requires AlwaysSpared(fs, tries, PairKey(user, ip), m, n) && NeverLogsIn(fs, tries, user, ip, m, n)
    ensures Checks(fs, tries, user, ip, m, n) <= 8
  {
    forall i | m <= i < n ensures GuessStep(fs, tries, user, ip, from, i) {
      TimelySoFar(fs, tries, i);
    }
    TimelySoFar(fs, tries, m);
    BoundedRun(fs, tries, user, ip, m, n, from);
  }

  // ---------- eviction drops a live lock ----------

  /** Addresses of clients: pairwise distinct, without an at sign, and more than half as many as the table's cap. */
  predicate Clients(ips: seq<string>) {
    && 2 * |ips| > MAX_KEYS
    && (forall i :: 0 <= i < |ips| ==> '@' !in ips[i])
    && (forall i, j :: 0 <= i < j < |ips| ==> ips[i] != ips[j])
  }

  /** A user fails five times from the first address at time 0, then once from each other address at time 1. */
  function Crowd(user: string, ips: seq<string>, n: nat): Try
    requires Clients(ips) && n < |ips| + 4
  {
    if n < MAX_FAILS then Try(user, ips[0], false, 0) else Try(user, ips[n - MAX_FAILS + 1], false, 1)
  }

  /** The table after n attempts of the crowd, while there is room. */
  function Crowded(user: string, ips: seq<string>, n: nat): Fails
    requires Clients(ips) && n <= |ips| + 4
  {
    if n == 0 then map[]
    else
      var t := Crowd(user, ips, n - 1);
      Recorded(Crowded(user, ips, n - 1), t.user, t.ip, t.now)
  }

  /** Keys of different addresses differ, and a pair's from an address's. */
  lemma ClientKeys(user: string, ips: seq<string>, m: nat, n: nat)
    requires Clients(ips) && m < |ips| && n < |ips|
    ensures PairKey(user, ips[m]) != IpKey(ips[n])
    ensures m != n ==> PairKey(user, ips[m]) != PairKey(user, ips[n]) && IpKey(ips[m]) != IpKey(ips[n])
  {
    assert PairKey(user, ips[m])[0] == 'a' && IpKey(ips[n])[0] == 'i';
    if PairKey(user, ips[m]) == PairKey(user, ips[n]) {
      PairKeyInjective(user, ips[m], user, ips[n]);
    }
    assert IpKey(ips[m])[2..] == ips[m] && IpKey(ips[n])[2..] == ips[n];
  }

  /** Nothing in the table is a key of the n-th address or a later one. */
  ghost predicate Unseen(f: Fails, user: string, ips: seq<string>, n: nat) {
    forall m :: n <= m < |ips| ==> PairKey(user, ips[m]) !in f && IpKey(ips[m]) !in f
  }

  /** The first pair's lock and its address's count, and one fresh count for every other key. */
  ghost predicate Full(f: Fails, user: string, ips: seq<string>, n: nat)
    requires Clients(ips)
  {
    var k, j := PairKey(user, ips[0]), IpKey(ips[0]);
    && |f| == 2 * n && Unseen(f, user, ips, n)
    && Lookup(f, k) == Some(Entry(5, 0, Some(LOCKOUT))) && Lookup(f, j) == Some(Entry(5, 0, None))
    && forall x :: x in f && x != k && x != j ==> f[x] == Entry(1, 1, None)
  }

  /** A first failure under two new keys. */
  function Joined(f: Fails, k: Key, j: Key): Fails {
    f[k := Entry(1, 1, None)][j := Entry(1, 1, None)]
  }

  lemma NewcomerJoins(f: Fails, user: string, ips: seq<string>, n: nat, kept: Fails)
    requires Clients(ips) && n < |ips| && Unseen(f, user, ips, n) && kept.Keys <= f.Keys
    ensures var k, j := PairKey(user, ips[n]), IpKey(ips[n]);
            k !in f && j !in f && k != j && Recorded(kept, user, ips[n], 1) == Joined(kept, k, j)
  {
    ClientKeys(user, ips, n, n);
    assert PairKey(user, ips[n]) !in f && IpKey(ips[n]) !in f;
  }

  lemma JoinedFull(f: Fails, user: string, ips: seq<string>, n: nat)
    requires Clients(ips) && 0 < n < |ips| && Full(f, user, ips, n)
    ensures Full(Joined(f, PairKey(user, ips[n]), IpKey(ips[n])), user, ips, n + 1)
  {
    var k, j := PairKey(user, ips[n]), IpKey(ips[n]);
    ClientKeys(user, ips, n, n);
    assert k !in f && j !in f;
    assert f[k := Entry(1, 1, None)].Keys == f.Keys + {k};
    assert Joined(f, k, j).Keys == f.Keys + {k} + {j};
    forall m | n + 1 <= m < |ips|
      ensures PairKey(user, ips[m]) !in Joined(f, k, j) && IpKey(ips[m]) !in Joined(f, k, j)
    {
      ClientKeys(user, ips, m, n);
      ClientKeys(user, ips, n, m);
    }
    ClientKeys(user, ips, 0, n);
    ClientKeys(user, ips, n, 0);
  }

  lemma FullStays(f: Fails, user: string, ips: seq<string>, n: nat)
    requires Clients(ips) && Full(f, user, ips, n)
    ensures Purged(f, 1) == f
  {
    assert forall x :: x in f ==> f[x].windowSt >= 0;
  }

  lemma CrowdStep(f: Fails, user: string, ips: seq<string>, n: nat)
    requires Clients(ips) && 0 < n && 2 * n < MAX_KEYS && Full(f, user, ips, n)
    ensures var f' := Recorded(f, user, ips[n], 1);
            Full(f', user, ips, n + 1) && Attempted(f, Try(user, ips[n], false, 1), f')
  {
    NewcomerJoins(f, user, ips, n, f);
    JoinedFull(f, user, ips, n);
    FullStays(f, user, ips, n);
    assert MadeRoom(f, f, 1);
  }

  /** The first pair's own failures. */
  lemma {:induction false} VictimTable(user: string, ips: seq<string>, n: nat)
    requires Clients(ips) && 0 < n <= 5
    ensures Crowded(user, ips, n) ==
            map[PairKey(user, ips[0]) := Entry(n, 0, if n == 5 then Some(LOCKOUT) else None),
                IpKey(ips[0]) := Entry(n, 0, None)]
  {
    ClientKeys(user, ips, 0, 0);
    if n > 1 {
      VictimTable(user, ips, n - 1);
    }
  }

  lemma VictimFails(user: string, ips: seq<string>, n: nat)
    requires Clients(ips) && n < 5
    ensures Attempted(Crowded(user, ips, n), Crowd(user, ips, n), Crowded(user, ips, n + 1))
  {
    var k, j := PairKey(user, ips[0]), IpKey(ips[0]);
    ClientKeys(user, ips, 0, 0);
    if n > 0 {
      VictimTable(user, ips, n);
    }
    var f := Crowded(user, ips, n);
    assert Purged(f, 0) == f;
    assert f.Keys <= {k, j};
    SmallerSet(f.Keys, {k, j});
    assert MadeRoom(f, f, 0);
  }

  lemma CrowdStarts(user: string, ips: seq<string>)
    requires Clients(ips)
    ensures Full(Crowded(user, ips, 5), user, ips, 1)
  {
    var k, j := PairKey(user, ips[0]), IpKey(ips[0]);
    VictimTable(user, ips, 5);
    ClientKeys(user, ips, 0, 0);
    var f := Crowded(user, ips, 5);
    assert f.Keys == {k, j};
    forall m | 1 <= m < |ips| ensures PairKey(user, ips[m]) !in f && IpKey(ips[m]) !in f {
      ClientKeys(user, ips, m, 0);
      ClientKeys(user, ips, 0, m);
    }
  }

  lemma {:induction false} CrowdGathers(user: string, ips: seq<string>, n: nat)
    requires Clients(ips) && 1 <= n && 2 * n <= MAX_KEYS
    ensures Full(Crowded(user, ips, n + 4), user, ips, n)
  {
    if n == 1 {
      CrowdStarts(user, ips);
    } else {
      CrowdGathers(user, ips, n - 1);
      CrowdGrows(user, ips, n - 1);
    }
  }

  lemma CrowdGrows(user: string, ips: seq<string>, n: nat)
    requires Clients(ips) && n >= 1 && 2 * n < MAX_KEYS && Full(Crowded(user, ips, n + 4), user, ips, n)
    ensures Full(Crowded(user, ips, n + 5), user, ips, n + 1)
    ensures Attempted(Crowded(user, ips, n + 4), Crowd(user, ips, n + 4), Crowded(user, ips, n + 5))
  {
    NextCrowd(user, ips, n);
    CrowdStep(Crowded(user, ips, n + 4), user, ips, n);
  }

  lemma NextCrowd(user: string, ips: seq<string>, n: nat)
    requires Clients(ips) && 1 <= n && 2 * n < MAX_KEYS
    ensures Crowd(user, ips, n + 4) == Try(user, ips[n], false, 1)
    ensures Crowded(user, ips, n + 5) == Recorded(Crowded(user, ips, n + 4), user, ips[n], 1)
  {
  }

  /** When the table is full of fresher counts, the next newcomer may cost the first pair its lock. */
  lemma NewcomerEvicts(f: Fails, user: string, ips: seq<string>, n: nat) returns (f': Fails)
    requires Clients(ips) && 2 * n == MAX_KEYS && Full(f, user, ips, n)
    ensures Attempted(f, Try(user, ips[n], false, 1), f') && !Blocked(f', user, ips[0], 1)
  {
    var k := PairKey(user, ips[0]);
    FullStays(f, user, ips, n);
    assert Older(f, k) == {};
    var kept := EvictedRoom(f, k, 1);
    NewcomerJoins(f, user, ips, n, kept);
    ClientKeys(user, ips, 0, n);
    ClientKeys(user, ips, n, 0);
    f' := Joined(kept, PairKey(user, ips[n]), IpKey(ips[n]));
    assert MadeRoom(Purged(f, 1), kept, 1);
  }

  lemma RunOnce(fs: seq<Fails>, tries: seq<Try>, f: Fails, t: Try, f': Fails)
    requires IsRun(fs, tries) && f == fs[|tries|] && Attempted(f, t, f')
    ensures IsRun(fs + [f'], tries + [t])
  {
    forall i | 0 <= i < |tries| + 1 ensures Attempted((fs + [f'])[i], (tries + [t])[i], (fs + [f'])[i + 1]) {
      if i < |tries| {
        assert Attempted(fs[i], tries[i], fs[i + 1]);
      }
    }
  }

  ghost predicate CrowdTries(user: string, ips: seq<string>, tries: seq<Try>)
    requires Clients(ips)
  {
    |tries| <= |ips| + 4 && forall i :: 0 <= i < |tries| ==> tries[i] == Crowd(user, ips, i)
  }

  lemma CrowdInOrder(user: string, ips: seq<string>, tries: seq<Try>)
    requires Clients(ips) && CrowdTries(user, ips, tries)
    ensures InOrder(tries) && RealAddresses(tries)
  {
  }

  lemma CrowdAttempts(user: string, ips: seq<string>, i: nat)
    requires Clients(ips) && 2 * (i - 4) < MAX_KEYS
    ensures Attempted(Crowded(user, ips, i), Crowd(user, ips, i), Crowded(user, ips, i + 1))
  {
    if i < 5 {
      VictimFails(user, ips, i);
    } else {
      CrowdGathers(user, ips, i - 4);
      CrowdGrows(user, ips, i - 4);
    }
  }

  lemma CrowdGoesOn(user: string, ips: seq<string>, tries: seq<Try>)
    requires Clients(ips) && CrowdTries(user, ips, tries) && |tries| < |ips| + 4
    ensures CrowdTries(user, ips, tries + [Crowd(user, ips, |tries|)])
  {
  }

  lemma CrowdRunOnce(user: string, ips: seq<string>, fs: seq<Fails>, tries: seq<Try>, n: nat)
    requires Clients(ips) && 2 * (n - 4) < MAX_KEYS
    requires IsRun(fs, tries) && |tries| == n && fs[n] == Crowded(user, ips, n)
    ensures IsRun(fs + [Crowded(user, ips, n + 1)], tries + [Crowd(user, ips, n)])
  {
    CrowdAttempts(user, ips, n);
    RunOnce(fs, tries, Crowded(user, ips, n), Crowd(user, ips, n), Crowded(user, ips, n + 1));
  }

  lemma {:induction false} CrowdRun(user: string, ips: seq<string>, n: nat) returns (fs: seq<Fails>, tries: seq<Try>)
    requires Clients(ips) && 2 * (n - 4) <= MAX_KEYS
    ensures IsRun(fs, tries) && CrowdTries(user, ips, tries) && |tries| == n
    ensures fs[0] == map[] && fs[n] == Crowded(user, ips, n)
  {
    if n == 0 {
      fs, tries := [map[]], [];
    } else {
      fs, tries := CrowdRun(user, ips, n - 1);
      CrowdRunOnce(user, ips, fs, tries, n - 1);
      CrowdGoesOn(user, ips, tries);
      fs, tries := fs + [Crowded(user, ips, n)], tries + [Crowd(user, ips, n - 1)];
    }
  }

  /**
   For every user and every such sequence of addresses, a run from the empty table at whose end the first pair is let
   through while the lockout of its five failures is on.
   */
  lemma EvictionDropsLock(user: string, ips: seq<string>) returns (fs: seq<Fails>, tries: seq<Try>)
    requires Clients(ips)
    ensures IsRun(fs, tries) && InOrder(tries) && RealAddresses(tries) && fs[0] == map[] && 5 < |tries| <= |ips| + 4
    ensures forall i :: 0 <= i < |tries| ==>
                tries[i] == if i < 5 then Try(user, ips[0], false, 0) else Try(user, ips[i - 4], false, 1)
    ensures tries[|tries| - 1].now == 1 < LOCKOUT
    ensures Locked(fs[|tries| - 1], PairKey(user, ips[0]), 1) && !Blocked(fs[|tries|], user, ips[0], 1)
  {
    var half := MAX_KEYS / 2;
    fs, tries := CrowdRunEvicts(user, ips, half);
    CrowdInOrder(user, ips, tries);
  }

  lemma CrowdRunEvicts(user: string, ips: seq<string>, half: nat) returns (fs: seq<Fails>, tries: seq<Try>)
    requires Clients(ips) && 2 * half == MAX_KEYS
    ensures IsRun(fs, tries) && CrowdTries(user, ips, tries) && |tries| == half + 5 && fs[0] == map[]
    ensures Locked(fs[|tries| - 1], PairKey(user, ips[0]), 1) && !Blocked(fs[|tries|], user, ips[0], 1)
  {
    fs, tries := CrowdRun(user, ips, half + 4);
    CrowdGathers(user, ips, half);
    CrowdGoesOn(user, ips, tries);
    fs, tries := LastNewcomer(user, ips, half, fs, tries);
  }

  lemma LastNewcomer(user: string, ips: seq<string>, half: nat, fs: seq<Fails>, tries: seq<Try>)
    returns (gs: seq<Fails>, more: seq<Try>)
    requires Clients(ips) && 2 * half == MAX_KEYS
    requires IsRun(fs, tries) && |tries| == half + 4 && Full(fs[|tries|], user, ips, half)
    ensures more == tries + [Crowd(user, ips, |tries|)] && IsRun(gs, more) && gs[0] == fs[0]
    ensures Locked(gs[|tries|], PairKey(user, ips[0]), 1) && !Blocked(gs[|tries| + 1], user, ips[0], 1)
  {
    var t := Try(user, ips[half], false, 1);
    assert Crowd(user, ips, |tries|) == t;
    var f' := NewcomerEvicts(fs[|tries|], user, ips, half);
    RunOnce(fs, tries, fs[|tries|], t, f');
    gs, more := fs + [f'], tries + [t];
  }

  // ---------- such addresses exist ----------

  function Digit(d: nat): char
    requires d < 10
  {
    '0' + d as char
  }

  function Decimal(n: nat): string {
    if n < 10 then [Digit(n)] else Decimal(n / 10) + [Digit(n % 10)]
  }

  /** Addresses of one private network. */
  function Dotted(n: nat): string {
    "10.0." + Decimal(n / 256) + "." + Decimal(n % 256)
  }

  lemma {:induction false} DecimalDigits(n: nat)
    ensures |Decimal(n)| > 0 && forall i :: 0 <= i < |Decimal(n)| ==> '0' <= Decimal(n)[i] <= '9'
  {
    if n >= 10 {
      DecimalDigits(n / 10);
    }
  }

  lemma {:induction false} DecimalInjective(m: nat, n: nat)
    requires Decimal(m) == Decimal(n)
    ensures m == n
  {
    DecimalDigits(m / 10);
    DecimalDigits(n / 10);
    var s, t := Decimal(m), Decimal(n);
    assert s[|s| - 1] == Digit(m % 10) && t[|t| - 1] == Digit(n % 10);
    if m >= 10 && n >= 10 {
      assert s[..|s| - 1] == Decimal(m / 10) && t[..|t| - 1] == Decimal(n / 10);
      DecimalInjective(m / 10, n / 10);
    }
  }

  lemma DottedInjective(m: nat, n: nat)
    requires Dotted(m) == Dotted(n)
    ensures m == n
  {
    DecimalDigits(m / 256);
    DecimalDigits(n / 256);
    var a, b := Decimal(m / 256), Decimal(n / 256);
    assert Dotted(m)[5..] == a + "." + Decimal(m % 256) && Dotted(n)[5..] == b + "." + Decimal(n % 256);
    FirstDot(a, Decimal(m % 256), b, Decimal(n % 256));
    DecimalInjective(m / 256, n / 256);
    DecimalInjective(m % 256, n % 256);
  }

  lemma FirstDot(a: string, x: string, b: string, y: string)
    requires a + "." + x == b + "." + y
    requires (forall i :: 0 <= i < |a| ==> a[i] != '.') && forall i :: 0 <= i < |b| ==> b[i] != '.'
    ensures a == b && x == y
  {
    var s := a + "." + x;
    assert s[|a|] == '.' && s[|b|] == '.';
    assert |a| == |b|;
    assert s[..|a|] == a && s[..|a|] == b && s[|a| + 1..] == x && s[|a| + 1..] == y;
  }

  lemma NoAtSign(n: nat)
    ensures '@' !in Dotted(n)
  {
    DecimalDigits(n / 256);
    DecimalDigits(n % 256);
  }

  lemma ClientsExist() returns (ips: seq<string>)
    ensures Clients(ips) && forall i :: 0 <= i < |ips| ==> ips[i] == Dotted(i)
  {
    ips := seq(MAX_KEYS / 2 + 1, i requires 0 <= i => Dotted(i));
    forall i | 0 <= i < |ips| ensures '@' !in ips[i] {
      NoAtSign(i);
    }
    forall i, j | 0 <= i < j < |ips| ensures ips[i] != ips[j] {
      if ips[i] == ips[j] {
        DottedInjective(i, j);
      }
    }
  }
}
