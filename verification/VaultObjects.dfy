/**
 Ciphertext objects of the encrypted store: a header that wraps the data key and counts the blocks, followed by
 zero-padded blocks sealed one by one.
 */
module VaultObjects {
  import opened Common
  import opened Sealing

  const MAX_BLOCK_SIZE := 64 * 1024 * 1024

  /** An object file. Blocks at and beyond blockCount are the uncounted tail an interrupted append leaves behind. */
  datatype Object = Object(blockSize: nat, dekWrap: Sealed<Key>, blockCount: nat, body: seq<Sealed<Bytes>>)

  /** The object can be read in full with the master key: its data key unwraps and every counted block opens. */
  ghost predicate Readable(o: Object, mk: Key) {
    && 0 < o.blockSize <= MAX_BLOCK_SIZE
    && o.dekWrap.key == mk
    && o.blockCount <= |o.body|
    && forall i :: 0 <= i < o.blockCount ==> o.body[i].key == o.dekWrap.plain && |o.body[i].plain| == o.blockSize
  }

  /** The plaintext of the first n blocks. */
  ghost function Plain(body: seq<Sealed<Bytes>>, n: nat): Bytes
    requires n <= |body|
  {
    if n == 0 then [] else Plain(body, n - 1) + body[n - 1].plain
  }

  ghost predicate BlocksOfSize(body: seq<Sealed<Bytes>>, n: nat, bs: nat)
    requires n <= |body|
  {
    forall i :: 0 <= i < n ==> |body[i].plain| == bs
  }

  function Cut(data: Bytes, size: nat): Bytes {
    if |data| > size then data[..size] else data
  }

  /** What a full read of the object returns for a file of the given logical size. */
  ghost function Content(o: Object, size: nat): Bytes
    requires o.blockCount <= |o.body|
  {
    Cut(Plain(o.body, o.blockCount), size)
  }

  ghost function Zeros(n: nat): Bytes {
    seq(n, _ => 0)
  }

  /** data, zero-padded or cut to exactly n bytes. */
  ghost function Fit(data: Bytes, n: nat): (r: Bytes)
    ensures |r| == n
  {
    if |data| >= n then data[..n] else data + Zeros(n - |data|)
  }

  function CeilDiv(a: nat, b: nat): nat
    requires b > 0
  {
    (a + b - 1) / b
  }

  // ---------- arithmetic of block positions ----------

  lemma CeilDivBounds(a: nat, b: nat)
    requires b > 0
    ensures a <= CeilDiv(a, b) * b < a + b
  {
    var x := a + b - 1;
    assert x == (x / b) * b + x % b;
  }

  lemma MulLe(a: int, b: int, c: nat)
    requires a <= b
    ensures a * c <= b * c
  {
  }

  lemma MulLtCancel(a: int, b: int, c: nat)
    requires a * c < b * c
    ensures a < b
  {
    if b <= a {
      MulLe(b, a, c);
    }
  }

  // ---------- blocks ----------

  lemma {:induction false} PlainLength(body: seq<Sealed<Bytes>>, n: nat, bs: nat)
    requires n <= |body| && BlocksOfSize(body, n, bs)
    ensures |Plain(body, n)| == n * bs
  {
    if n > 0 {
      PlainLength(body, n - 1, bs);
      assert n * bs == (n - 1) * bs + bs;
    }
  }

  /** Block i is the slice [i * bs, (i + 1) * bs) of the plaintext. */
  lemma {:induction false} PlainSlice(body: seq<Sealed<Bytes>>, n: nat, bs: nat, i: nat)
    requires i < n <= |body| && BlocksOfSize(body, n, bs)
    ensures |Plain(body, n)| == n * bs
    ensures 0 <= i * bs <= (i + 1) * bs <= n * bs
    ensures Plain(body, n)[i * bs..(i + 1) * bs] == body[i].plain
  {
    PlainLength(body, n, bs);
    PlainLength(body, n - 1, bs);
    assert n * bs == (n - 1) * bs + bs;
    assert (i + 1) * bs == i * bs + bs;
    if i < n - 1 {
      PlainSlice(body, n - 1, bs, i);
      MulLe(i + 1, n - 1, bs);
      assert Plain(body, n)[i * bs..(i + 1) * bs] == Plain(body, n - 1)[i * bs..(i + 1) * bs];
    }
  }

  /** The plaintext of n blocks depends on those blocks alone. */
  lemma {:induction false} PlainSame(a: seq<Sealed<Bytes>>, b: seq<Sealed<Bytes>>, n: nat)
    requires n <= |a| && n <= |b| && a[..n] == b[..n]
    ensures Plain(a, n) == Plain(b, n)
  {
    if n > 0 {
      assert a[..n - 1] == a[..n][..n - 1] == b[..n][..n - 1] == b[..n - 1];
      PlainSame(a, b, n - 1);
      assert a[n - 1] == a[..n][n - 1] == b[..n][n - 1] == b[n - 1];
    }
  }

  lemma {:induction false} PlainExtend(body: seq<Sealed<Bytes>>, m: nat, n: nat)
    requires m <= n <= |body|
    ensures Plain(body, n) == Plain(body, m) + Plain(body[m..], n - m)
  {
    if n == m {
      assert Plain(body, m) + [] == Plain(body, m);
    } else {
      PlainExtend(body, m, n - 1);
      assert body[m..][n - m - 1] == body[n - 1];
    }
  }

  // ---------- appending blocks in place ----------

  /** The plaintext that the in-place branch of an append leaves in the counted blocks. */
  ghost function Appended(o: Object, size: nat, data: Bytes): Bytes
    requires o.blockSize > 0 && o.blockCount <= |o.body|
  {
    var need := CeilDiv(size + |data|, o.blockSize);
    if data == [] then
      Content(o, size)
    else if size % o.blockSize != 0 then
      Content(o, size) + data
    else if need <= o.blockCount then
      Content(o, size)
    else
      Cut(Plain(o.body, o.blockCount) + Fit(data, (need - o.blockCount) * o.blockSize), size + |data|)
  }

  /** o' is o with blocks added behind its counted ones: what was counted is still there, bit for bit. */
  ghost predicate Grown(o: Object, o': Object) {
    && o'.blockSize == o.blockSize && o'.dekWrap == o.dekWrap
    && o.blockCount <= o'.blockCount
    && o.blockCount <= |o.body| && o.blockCount <= |o'.body|
    && o'.body[..o.blockCount] == o.body[..o.blockCount]
  }

  /** A file whose size the old blocks cover reads the same from the grown object. */
  lemma GrownContent(o: Object, o': Object, mk: Key, size: nat)
    requires Readable(o, mk) && Readable(o', mk) && Grown(o, o') && Covers(o, size)
    ensures Content(o', size) == Content(o, size) && Covers(o', size)
  {
    PlainSame(o.body, o'.body, o.blockCount);
    PlainExtend(o'.body, o.blockCount, o'.blockCount);
    ContentLength(o, mk, size);
    MulLe(o.blockCount, o'.blockCount, o.blockSize);
  }

  /** The index size never runs ahead of the counted blocks. */
  ghost predicate Covers(o: Object, size: nat) {
    size <= o.blockCount * o.blockSize
  }

  /** The guard under which an append is a concatenation: rewritten as a whole, or no spare counted block. */
  ghost predicate AppendsCleanly(o: Object, size: nat)
    requires o.blockSize > 0
  {
    size % o.blockSize != 0 || size == o.blockCount * o.blockSize
  }

  lemma ContentLength(o: Object, mk: Key, size: nat)
    requires Readable(o, mk) && Covers(o, size)
    ensures |Content(o, size)| == size
    ensures Content(o, size) == Plain(o.body, o.blockCount)[..size]
    ensures |Plain(o.body, o.blockCount)| == o.blockCount * o.blockSize
  {
    PlainLength(o.body, o.blockCount, o.blockSize);
  }

  lemma AppendClean(o: Object, mk: Key, size: nat, data: Bytes)
    requires Readable(o, mk) && Covers(o, size) && AppendsCleanly(o, size)
    ensures Appended(o, size, data) == Content(o, size) + data
  {
    var bs := o.blockSize;
    PlainLength(o.body, o.blockCount, bs);
    if data != [] && size % bs == 0 {
      NeedNew(o.blockCount, |data|, bs);
      PaddedAppend(Plain(o.body, o.blockCount), data, (CeilDiv(size + |data|, bs) - o.blockCount) * bs);
    }
  }

  lemma NeedNew(count: nat, n: nat, bs: nat)
    requires n > 0 && bs > 0
    ensures var need := CeilDiv(count * bs + n, bs);
            need > count && (need - count) * bs >= n
  {
    var need := CeilDiv(count * bs + n, bs);
    CeilDivBounds(count * bs + n, bs);
    MulLtCancel(count, need, bs);
    assert (need - count) * bs == need * bs - count * bs;
  }

  lemma NeedNone(count: nat, size: nat, bs: nat)
    requires bs > 0 && size <= count * bs
    ensures CeilDiv(size, bs) <= count
  {
    var need := CeilDiv(size, bs);
    CeilDivBounds(size, bs);
    assert (need - 1) * bs == need * bs - bs;
    MulLtCancel(need - 1, count, bs);
  }

  /** Zero padding behind the appended data is cut off again. */
  lemma PaddedAppend(plain: Bytes, data: Bytes, room: nat)
    requires room >= |data|
    ensures Cut(plain + Fit(data, room), |plain| + |data|) == plain + data
  {
  }

  /** Where the guard fails, everything that fits the spare counted blocks is dropped. */
  lemma AppendDropped(o: Object, mk: Key, size: nat, data: Bytes)
    requires Readable(o, mk) && Covers(o, size) && !AppendsCleanly(o, size)
    requires size + |data| <= o.blockCount * o.blockSize
    ensures Appended(o, size, data) == Content(o, size)
  {
    NeedNone(o.blockCount, size + |data|, o.blockSize);
  }

  /** Append is concatenation for every data exactly when the guard holds. */
  lemma AppendIsConcatenationIff(o: Object, mk: Key, size: nat)
    requires Readable(o, mk) && Covers(o, size)
    ensures AppendsCleanly(o, size) <==> forall data :: Appended(o, size, data) == Content(o, size) + data
  {
    if AppendsCleanly(o, size) {
      forall data ensures Appended(o, size, data) == Content(o, size) + data {
        AppendClean(o, mk, size, data);
      }
    } else {
      var one: Bytes := [1];
      AppendDropped(o, mk, size, one);
      assert |Appended(o, size, one)| != |Content(o, size) + one|;
    }
  }

  /** An empty file of one counted block, as touching leaves it, swallows a first block of data. */
  lemma AppendToEmptyFileIsLost(o: Object, mk: Key, data: Bytes)
    requires Readable(o, mk) && o.blockCount == 1 && |data| <= o.blockSize
    ensures Content(o, 0) == [] && Appended(o, 0, data) == []
  {
    if data != [] {
      AppendDropped(o, mk, 0, data);
    }
  }

  /** Where the guard fails and the data does not fit: what the spare blocks hold shows, and as much data is lost. */
  lemma AppendShifted(o: Object, mk: Key, size: nat, data: Bytes)
    requires Readable(o, mk) && Covers(o, size) && !AppendsCleanly(o, size)
    requires size + |data| > o.blockCount * o.blockSize
    ensures var spare := o.blockCount * o.blockSize - size;
            Appended(o, size, data) == Plain(o.body, o.blockCount) + data[..|data| - spare]
  {
    var bs, count := o.blockSize, o.blockCount;
    var more := size + |data| - count * bs;
    PlainLength(o.body, count, bs);
    NeedNew(count, more, bs);
    var room := (CeilDiv(size + |data|, bs) - count) * bs;
    assert Cut(Plain(o.body, count) + Fit(data, room), size + |data|) == Plain(o.body, count) + data[..more];
  }
}
