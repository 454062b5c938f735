/** Runs of login attempts as one address meets them: thirty failures lock it for everyone behind it. */
module LoginAddresses {
  import opened Common
  import opened LoginLimiter
  import opened LoginRuns

  /** The attempt comes from the address and gets as far as the password check. */
  ghost predicate IsCheckFrom(f: Fails, t: Try, ip: string) {
    t.ip == ip && !Blocked(f, t.user, t.ip, t.now)
  }

  /** What any attempt from elsewhere, and a failed one from the address itself, do to the address's entry. */
  lemma AddressStep(f: Fails, t: Try, f': Fails, ip: string)
    requires Attempted(f, t, f') && Spared(f, IpKey(ip), t.now)
    requires IsCheckFrom(f, t, ip) ==> !t.passwordOk
    ensures var k := IpKey(ip); var before := Lookup(Purged(f, t.now), k);
            Lookup(f', k) == if Blocked(f, t.user, t.ip, t.now) then Lookup(f, k)
                             else if IsCheckFrom(f, t, ip) then Some(Failed(before, MAX_FAILS_IP, t.now))
                             else before
  {
    var k := IpKey(ip);
    assert k[0] == 'i' && PairKey(t.user, t.ip)[0] == 'a';
    assert IpKey(t.ip)[2..] == t.ip && k[2..] == ip;
    if !Blocked(f, t.user, t.ip, t.now) && !t.passwordOk {
      var p := Purged(f, t.now);
      var kept :| MadeRoom(p, kept, t.now) && f' == Recorded(kept, t.user, t.ip, t.now);
      assert Purged(p, t.now) == p;
      if k in p {
        SparedStays(p, kept, k, t.now);
      } else {
        assert k !in kept;
      }
      assert Lookup(kept, k) == Lookup(p, k);
    }
  }

  /**
   A locked address that room is always made for keeps the very entry that locks it, through any attempts by anyone,
   until its deadline.
   */
  lemma {:induction false} AddressLockHolds(fs: seq<Fails>, clock: Millis, tries: seq<Try>, ip: string, n: nat,
                                            now: Millis)
    requires IsRun(fs, tries) && InOrder(tries) && n < |fs|
    requires Timely(fs[0], clock) && (tries != [] ==> clock <= tries[0].now)
    requires AlwaysSpared(fs, tries, IpKey(ip), 0, n)
    requires (n > 0 ==> tries[n - 1].now <= now) && Locked(fs[0], IpKey(ip), now)
    ensures Lookup(fs[n], IpKey(ip)) == Some(fs[0][IpKey(ip)]) && Locked(fs[n], IpKey(ip), now)
  {
    if n > 0 {
      var t := tries[n - 1];
      if n > 1 {
        assert tries[n - 2].now <= t.now;
      }
      AddressLockHolds(fs, clock, tries, ip, n - 1, now);
      RunTimely(fs, clock, tries, n - 1);
      assert Locked(fs[n - 1], IpKey(ip), t.now);
      AddressStep(fs[n - 1], t, fs[n], ip);
    }
  }

  /** How many of the first n attempts were password checks from the address. */
  ghost function ChecksFrom(fs: seq<Fails>, tries: seq<Try>, ip: string, n: nat): nat
    requires |fs| == |tries| + 1 && n <= |tries|
  {
    if n == 0 then 0
    else ChecksFrom(fs, tries, ip, n - 1) + if IsCheckFrom(fs[n - 1], tries[n - 1], ip) then 1 else 0
  }

  /** No attempt of the first n from the address is let in. */
  ghost predicate NoneLogsIn(fs: seq<Fails>, tries: seq<Try>, ip: string, n: nat)
    requires |fs| == |tries| + 1 && n <= |tries|
  {
    forall i :: 0 <= i < n && IsCheckFrom(fs[i], tries[i], ip) ==> !tries[i].passwordOk
  }

  lemma AddressCounts(f: Fails, t: Try, f': Fails, ip: string, c: nat, from: Millis)
    requires Attempted(f, t, f') && from <= t.now <= from + WINDOW
    requires Spared(f, IpKey(ip), t.now) && (IsCheckFrom(f, t, ip) ==> !t.passwordOk)
    requires Counts(c, Lookup(f, IpKey(ip)), from)
    ensures Counts(if IsCheckFrom(f, t, ip) then c + 1 else c, Lookup(f', IpKey(ip)), from)
  {
    AddressStep(f, t, f', ip);
  }

  /** Attempt i falls into the window, lets no one in from the address, and room is made for the address. */
  ghost predicate FailStep(fs: seq<Fails>, tries: seq<Try>, ip: string, from: Millis, i: nat)
    requires |fs| == |tries| + 1 && i < |tries|
  {
    && Attempted(fs[i], tries[i], fs[i + 1]) && from <= tries[i].now <= from + WINDOW
    && Spared(fs[i], IpKey(ip), tries[i].now)
    && (IsCheckFrom(fs[i], tries[i], ip) ==> !tries[i].passwordOk)
  }

  lemma {:induction false} AddressCountsUp(fs: seq<Fails>, tries: seq<Try>, ip: string, from: Millis, n: nat)
    requires |fs| == |tries| + 1 && IpKey(ip) !in fs[0] && n <= |tries|
    requires forall i :: 0 <= i < n ==> FailStep(fs, tries, ip, from, i)
    ensures Counts(ChecksFrom(fs, tries, ip, n), Lookup(fs[n], IpKey(ip)), from)
  {
    if n > 0 {
      AddressCountsUp(fs, tries, ip, from, n - 1);
      assert FailStep(fs, tries, ip, from, n - 1);
      CountsNext(fs, tries, ip, from, n);
    }
  }

  lemma CountsNext(fs: seq<Fails>, tries: seq<Try>, ip: string, from: Millis, n: nat)
    requires |fs| == |tries| + 1 && 0 < n <= |tries| && FailStep(fs, tries, ip, from, n - 1)
    requires Counts(ChecksFrom(fs, tries, ip, n - 1), Lookup(fs[n - 1], IpKey(ip)), from)
    ensures Counts(ChecksFrom(fs, tries, ip, n), Lookup(fs[n], IpKey(ip)), from)
  {
    AddressCounts(fs[n - 1], tries[n - 1], fs[n], ip, ChecksFrom(fs, tries, ip, n - 1), from);
    OneMore(fs, tries, ip, n);
  }

  lemma OneMore(fs: seq<Fails>, tries: seq<Try>, ip: string, n: nat)
    requires |fs| == |tries| + 1 && 0 < n <= |tries|
    ensures ChecksFrom(fs, tries, ip, n) ==
            if IsCheckFrom(fs[n - 1], tries[n - 1], ip) then ChecksFrom(fs, tries, ip, n - 1) + 1
            else ChecksFrom(fs, tries, ip, n - 1)
  {
  }

  /**
   Over runs: the thirtieth failed check from a new address within one window, whoever was tried, or any later one,
   locks the address for the lockout.
   */
  lemma ThirtiethCheckLocks(fs: seq<Fails>, tries: seq<Try>, ip: string, from: Millis, later: Millis)
    requires IsRun(fs, tries) && tries != [] && IpKey(ip) !in fs[0]
    requires forall i :: 0 <= i < |tries| ==> from <= tries[i].now <= from + WINDOW
    requires AlwaysSpared(fs, tries, IpKey(ip), 0, |tries|) && NoneLogsIn(fs, tries, ip, |tries|)
    requires IsCheckFrom(fs[|tries| - 1], tries[|tries| - 1], ip)
    requires ChecksFrom(fs, tries, ip, |tries|) >= 30 && later < tries[|tries| - 1].now + LOCKOUT
    ensures Locked(fs[|tries|], IpKey(ip), later)
  {
    var n := |tries| - 1;
    forall i | 0 <= i < n ensures FailStep(fs, tries, ip, from, i) {
    }
    AddressCountsUp(fs, tries, ip, from, n);
    AddressStep(fs[n], tries[n], fs[n + 1], ip);
  }

  /** A lock begins with the failure that reaches the limit and is over exactly a lockout later. */
  lemma LockEndsOnTime(f: Fails, k: Key, limit: nat, now: Millis, later: Millis)
    requires k in f && now - f[k].windowSt <= WINDOW && f[k].count + 1 >= limit
    ensures Locked(f[k := Failed(Lookup(f, k), limit, now)], k, later) <==> later < now + 15 * 60 * 1000
  {
  }

  // ---------- what does not lock ----------

  /** An entry counts at most c failed checks, and locks only from the limit on. */
  ghost predicate AtMost(e: Option<Entry>, c: nat, limit: nat) {
    e.Some? ==> e.value.count <= c && (e.value.count < limit ==> e.value.until == None)
  }

  lemma PairAtMost(f: Fails, t: Try, f': Fails, user: string, ip: string, c: nat)
    requires Attempted(f, t, f') && '@' !in ip && '@' !in t.ip && AtMost(Lookup(f, PairKey(user, ip)), c, 5)
    ensures AtMost(Lookup(f', PairKey(user, ip)), if IsCheck(f, t, user, ip) then c + 1 else c, 5)
  {
    var k := PairKey(user, ip);
    assert k[0] == 'a' && IpKey(t.ip)[0] == 'i';
    if PairKey(t.user, t.ip) == k {
      PairKeyInjective(t.user, t.ip, user, ip);
    }
  }

  lemma AddressAtMost(f: Fails, t: Try, f': Fails, ip: string, c: nat)
    requires Attempted(f, t, f') && AtMost(Lookup(f, IpKey(ip)), c, 30)
    ensures AtMost(Lookup(f', IpKey(ip)), if IsCheckFrom(f, t, ip) then c + 1 else c, 30)
  {
    var k := IpKey(ip);
    assert k[0] == 'i' && PairKey(t.user, t.ip)[0] == 'a';
    assert IpKey(t.ip)[2..] == t.ip && k[2..] == ip;
  }

  lemma {:induction false} PairSoFar(fs: seq<Fails>, tries: seq<Try>, user: string, ip: string, n: nat)
    requires IsRun(fs, tries) && RealAddresses(tries) && '@' !in ip && fs[0] == map[] && n <= |tries|
    ensures AtMost(Lookup(fs[n], PairKey(user, ip)), Checks(fs, tries, user, ip, 0, n), 5)
  {
    if n > 0 {
      PairSoFar(fs, tries, user, ip, n - 1);
      PairAtMost(fs[n - 1], tries[n - 1], fs[n], user, ip, Checks(fs, tries, user, ip, 0, n - 1));
    }
  }

  lemma {:induction false} AddressSoFar(fs: seq<Fails>, tries: seq<Try>, ip: string, n: nat)
    requires IsRun(fs, tries) && fs[0] == map[] && n <= |tries|
    ensures AtMost(Lookup(fs[n], IpKey(ip)), ChecksFrom(fs, tries, ip, n), 30)
  {
    if n > 0 {
      AddressSoFar(fs, tries, ip, n - 1);
      AddressNext(fs, tries, ip, n);
    }
  }

  lemma AddressNext(fs: seq<Fails>, tries: seq<Try>, ip: string, n: nat)
    requires |fs| == |tries| + 1 && 0 < n <= |tries| && Attempted(fs[n - 1], tries[n - 1], fs[n])
    requires AtMost(Lookup(fs[n - 1], IpKey(ip)), ChecksFrom(fs, tries, ip, n - 1), 30)
    ensures AtMost(Lookup(fs[n], IpKey(ip)), ChecksFrom(fs, tries, ip, n), 30)
  {
    AddressAtMost(fs[n - 1], tries[n - 1], fs[n], ip, ChecksFrom(fs, tries, ip, n - 1));
    OneMore(fs, tries, ip, n);
  }

  /** In every run from the empty table, four checks of a pair never lock it, and twenty-nine never lock an address. */
  lemma FewChecksDoNotLock(fs: seq<Fails>, tries: seq<Try>, user: string, ip: string, n: nat, now: Millis)
    requires IsRun(fs, tries) && RealAddresses(tries) && '@' !in ip && fs[0] == map[] && n <= |tries|
    ensures Checks(fs, tries, user, ip, 0, n) <= 4 ==> !Locked(fs[n], PairKey(user, ip), now)
    ensures ChecksFrom(fs, tries, ip, n) <= 29 ==> !Locked(fs[n], IpKey(ip), now)
  {
    PairSoFar(fs, tries, user, ip, n);
    AddressSoFar(fs, tries, ip, n);
  }

  /** A login forgets the failures of its pair and its address, and lifts no other lock. */
  lemma LoginForgets(f: Fails, clock: Millis, t: Try, f': Fails, k: Key, later: Millis)
    requires Attempted(f, t, f') && t.passwordOk && Timely(f, clock) && t.now <= later
    requires !Locked(f, PairKey(t.user, t.ip), t.now) && !Locked(f, IpKey(t.ip), t.now)
    ensures PairKey(t.user, t.ip) !in f' && IpKey(t.ip) !in f'
    ensures k != PairKey(t.user, t.ip) && k != IpKey(t.ip) ==> (Locked(f', k, later) <==> Locked(f, k, later))
  {
  }
}
