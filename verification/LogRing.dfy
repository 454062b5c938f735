/** The in-memory log of a running process: a byte ring of fixed capacity over a backing array that grows on demand. */
module LogRing {
  import opened Common

  const DEFAULT_MAX := 2 * 1024 * 1024
  const FIRST_CAPACITY := 32 * 1024

  class LogBuffer {
    const maxBytes: nat
    var buf: array<Byte>
    var used: nat
    var start: nat

    ghost predicate Valid()
      reads this, buf
    {
      && 0 < maxBytes
      && used <= buf.Length <= maxBytes
      && (start != 0 ==> used == maxBytes && start < maxBytes)
    }

    /** The held bytes, oldest first. */
    ghost function Contents(): Bytes
      reads this, buf
      requires Valid()
    {
      Rotated(buf[..used], start)
    }

    constructor (maxBytes: int)
      ensures Valid() && Contents() == [] && fresh(buf)
      ensures this.maxBytes == if maxBytes <= 0 then DEFAULT_MAX else maxBytes
    {
      this.maxBytes := if maxBytes <= 0 then DEFAULT_MAX else maxBytes;
      buf := new Byte[0];
      used, start := 0, 0;
    }

    /** Any chunk leaves the last maxBytes of everything written; the capacity stays within maxBytes. */
    method Write(p: Bytes)
      requires Valid()
      modifies this, buf
      ensures Valid() && (buf == old(buf) || fresh(buf))
      ensures Contents() == LastN(old(Contents()) + p, maxBytes)
    {
      if |p| >= maxBytes {
        BigChunk(Contents(), p, maxBytes);
        Reset(p[|p| - maxBytes..]);
        return;
      }
      ghost var held := Contents();
      var rest := p;
      if used < maxBytes {
        var n := if |p| > maxBytes - used then maxBytes - used else |p|;
        Append(p[..n]);
        rest := p[n..];
        Split(held, p, n);
        if rest == [] {
          return;
        }
      }
      assert Contents() + rest == held + p;
      Overwrite(rest);
    }

    /** Replaces everything held by a chunk as large as the ring. */
    method Reset(p: Bytes)
      requires Valid() && |p| == maxBytes
      modifies this, buf
      ensures Valid() && (buf == old(buf) || fresh(buf))
      ensures Contents() == p
    {
      if buf.Length < maxBytes {
        buf := new Byte[maxBytes];
      }
      used, start := maxBytes, 0;
      CopyInto(buf, 0, p);
    }

    /** Fills free room behind the held bytes, growing the backing array first. */
    method Append(p: Bytes)
      requires Valid() && used + |p| <= maxBytes && used < maxBytes
      modifies this, buf
      ensures Valid() && (buf == old(buf) || fresh(buf)) && start == 0
      ensures Contents() == old(Contents()) + p
      ensures used == old(used) + |p|
    {
      GrowTo(used + |p|);
      CopyInto(buf, used, p);
      used := used + |p|;
    }

    /** Doubles the capacity until it suffices, but never beyond maxBytes. */
    method GrowTo(need: nat)
      requires Valid() && start == 0 && need <= maxBytes
      modifies this`buf
      ensures Valid() && (buf == old(buf) || fresh(buf))
      ensures need <= buf.Length && used == old(used)
      ensures Contents() == old(Contents())
    {
      if buf.Length >= need {
        return;
      }
      var newCap := if buf.Length == 0 then FIRST_CAPACITY else buf.Length;
      while newCap < need
        invariant 0 < newCap
        decreases need - newCap
      {
        newCap := newCap * 2;
      }
      if newCap > maxBytes {
        newCap := maxBytes;
      }
      var grown := new Byte[newCap];
      CopyInto(grown, 0, buf[..used]);
      buf := grown;
    }

    /** Overwrites the oldest bytes of a full ring, wrapping round as often as needed. */
    method Overwrite(p: Bytes)
      requires Valid() && used == maxBytes
      modifies this`start, buf
      ensures Valid() && used == old(used)
      ensures Contents() == LastN(old(Contents()) + p, maxBytes)
    {
      var rest := p;
      ghost var held, done := Contents(), [];
      assert held + [] == held;
      while rest != []
        invariant Valid() && used == maxBytes && p == done + rest
        invariant Contents() == LastN(held + done, maxBytes)
      {
        var n := if |rest| < used - start then |rest| else used - start;
        var chunk := rest[..n];
        CopyAt(chunk);
        LastNStep(held, done, chunk, maxBytes);
        Split(done, rest, n);
        done := done + chunk;
        rest := rest[n..];
      }
      assert done == p;
    }

    /** One copy into the room up to the end of the array; the start moves past it. */
    method CopyAt(p: Bytes)
      requires Valid() && used == maxBytes && |p| <= used - start
      modifies this`start, buf
      ensures Valid() && used == old(used)
      ensures Contents() == LastN(old(Contents()) + p, maxBytes)
      ensures buf == old(buf)
    {
      PlaceChunk(p);
      start := Advance(start, |p|, used);
    }

    method PlaceChunk(p: Bytes)
      requires Valid() && used == maxBytes && |p| <= used - start
      modifies buf
      ensures Rotated(buf[..used], if start + |p| == used then 0 else start + |p|) ==
              LastN(old(Contents()) + p, maxBytes)
    {
      ghost var before := buf[..used];
      Place(p);
      CopyStep(before, buf[..used], start, p);
    }

    method Place(p: Bytes)
      requires Valid() && used == maxBytes && |p| <= used - start
      modifies buf
      ensures Patched(old(buf[..used]), buf[..used], start, p)
    {
      CopyInto(buf, start, p);
      assert buf[..used] == buf[..];
      assert old(buf[..used]) == old(buf[..]);
    }

    /** The last sizeKB KiB of the held bytes, or all of them, across the wrap point. */
    method Tail(sizeKB: int) returns (r: Bytes)
      requires Valid()
      ensures r == if sizeKB > 0 then LastN(Contents(), sizeKB * 1024) else Contents()
    {
      var want := used;
      if sizeKB > 0 && sizeKB * 1024 < want {
        want := sizeKB * 1024;
      }
      if want == 0 {
        return [];
      }
      r := LastHeld(want);
    }

    method LastHeld(want: nat) returns (r: Bytes)
      requires Valid() && want <= used
      ensures r == LastN(Contents(), want)
    {
      if want <= start {
        r := buf[start - want..start];
        assert r == buf[..used][start - want..start];
      } else {
        var fromFirst := want - start;
        var first := buf[used - fromFirst..used];
        assert first == buf[..used][used - fromFirst..];
        r := first + buf[..start];
      }
      WrappedTail(buf[..used], start, want);
    }
  }

  ghost function Rotated(b: Bytes, start: nat): Bytes
    requires start <= |b|
  {
    b[start..] + b[..start]
  }

  lemma LastNOfFull(x: Bytes, p: Bytes)
    requires |p| <= |x|
    ensures LastN(x + p, |x|) == x[|p|..] + p
  {
    assert (x + p)[|p|..] == x[|p|..] + p;
  }

  method Advance(start: nat, n: nat, len: nat) returns (next: nat)
    requires start < len && start + n <= len
    ensures next == if start + n == len then 0 else start + n
  {
    next := (start + n) % len;
  }

  /** Overwriting the oldest bytes of a full ring drops as many as it adds. */
  lemma RingStep(b: Bytes, b': Bytes, start: nat, p: Bytes)
    requires start < |b| && Patched(b, b', start, p)
    ensures Rotated(b', if start + |p| == |b| then 0 else start + |p|) == Rotated(b, start)[|p|..] + p
  {
    assert Rotated(b, start)[|p|..] == b[start + |p|..] + b[..start];
    assert b'[..start + |p|] == b[..start] + p;
    if start + |p| == |b| {
      assert b'[..] == b'[..start + |p|];
    }
  }

  lemma CopyStep(b: Bytes, b': Bytes, start: nat, p: Bytes)
    requires start < |b| && Patched(b, b', start, p)
    ensures Rotated(b', if start + |p| == |b| then 0 else start + |p|) == LastN(Rotated(b, start) + p, |b|)
  {
    RingStep(b, b', start, p);
    LastNOfFull(Rotated(b, start), p);
  }

  /** The last bytes held, on one side of the wrap point or across it. */
  lemma WrappedTail(b: Bytes, start: nat, want: nat)
    requires start <= |b| && want <= |b|
    ensures LastN(Rotated(b, start), want) ==
            if want <= start then b[start - want..start] else b[|b| - (want - start)..] + b[..start]
  {
  }

  lemma BigChunk(held: Bytes, p: Bytes, n: nat)
    requires |p| >= n
    ensures LastN(held + p, n) == p[|p| - n..]
  {
  }

  /** The new content differs from the old one in holding p from start on. */
  ghost predicate Patched(b: Bytes, b': Bytes, start: nat, p: Bytes) {
    && start + |p| <= |b| == |b'|
    && b'[..start] == b[..start] && b'[start..start + |p|] == p && b'[start + |p|..] == b[start + |p|..]
  }

  method CopyInto(a: array<Byte>, at: nat, p: Bytes)
    requires at + |p| <= a.Length
    modifies a
    ensures a[..at] == old(a[..at]) && a[at..at + |p|] == p && a[at + |p|..] == old(a[at + |p|..])
    ensures a[..at + |p|] == old(a[..at]) + p
  {
    forall i | 0 <= i < |p| {
      a[at + i] := p[i];
    }
  }

  lemma Split(a: Bytes, p: Bytes, n: nat)
    requires n <= |p|
    ensures a + p[..n] + p[n..] == a + p
    ensures p[n..] == [] ==> p[..n] == p
  {
  }

  lemma LastNStep(a: Bytes, done: Bytes, p: Bytes, n: nat)
    ensures LastN(LastN(a + done, n) + p, n) == LastN(a + (done + p), n)
  {
    LastNAppend(a + done, p, n);
    assert a + done + p == a + (done + p);
  }

  /** What a fresh ring holds after a sequence of writes. */
  function AfterWrites(writes: seq<Bytes>, max: nat): Bytes {
    if writes == [] then [] else LastN(AfterWrites(writes[..|writes| - 1], max) + writes[|writes| - 1], max)
  }

  /** After any writes the ring holds the last bytes of the whole stream, however it was cut into chunks. */
  lemma {:induction false} RingIsTailOfStream(writes: seq<Bytes>, max: nat)
    ensures AfterWrites(writes, max) == LastN(Flatten(writes), max)
  {
    if writes != [] {
      var front := writes[..|writes| - 1];
      RingIsTailOfStream(front, max);
      LastNAppend(Flatten(front), writes[|writes| - 1], max);
    }
  }
}
