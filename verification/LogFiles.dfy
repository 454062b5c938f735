/**
 Instance log files: the consumer of the asynchronous file logger with its rotation, and the reader of the last lines.
 Filesystem steps succeed, and a file's content includes what its write buffer still holds.
 */
module LogFiles {
  import opened Common
  import opened LineLogs

  type Segment = Bytes

  /** A log file as the segments written to it; the files of a logger, oldest first, the current one last. */
  type LogFile = seq<Segment>

  // ---------- rotation as a function ----------

  /** Writing one segment, after a rotation that keeps the newest keep + 1 files. */
  function Logged(files: seq<LogFile>, rotate: bool, keep: nat, p: Segment): seq<LogFile>
    requires files != []
  {
    var files' := if rotate then LastN(files + [[]], keep + 1) else files;
    files'[|files'| - 1 := files'[|files'| - 1] + [p]]
  }

  /** The file stays within the limit, or one segment alone is larger. */
  ghost predicate Bounded(f: LogFile, maxSize: nat) {
    |Flatten(f)| <= maxSize || exists i :: 0 <= i < |f| && Flatten(f) == f[i]
  }

  ghost predicate IsSuffix<T>(s: seq<T>, t: seq<T>) {
    |s| <= |t| && s == t[|t| - |s|..]
  }

  lemma SuffixGrows<T>(s: seq<T>, t: seq<T>, x: T)
    requires IsSuffix(s, t)
    ensures IsSuffix(s + [x], t + [x])
  {
  }

  lemma SuffixTransitive<T>(a: seq<T>, b: seq<T>, c: seq<T>)
    requires IsSuffix(a, b) && IsSuffix(b, c)
    ensures IsSuffix(a, c)
  {
  }

  lemma {:induction false} FlattenDrop<T>(ss: seq<seq<T>>, n: nat)
    requires n <= |ss|
    ensures IsSuffix(Flatten(ss[n..]), Flatten(ss))
  {
    assert ss == ss[..n] + ss[n..];
    FlattenConcat(ss[..n], ss[n..]);
  }

  lemma FlattenLast<T>(ss: seq<seq<T>>, s: seq<T>)
    requires ss != []
    ensures Flatten(ss[|ss| - 1 := ss[|ss| - 1] + s]) == Flatten(ss) + s
  {
    var n := |ss| - 1;
    var ss' := ss[n := ss[n] + s];
    assert ss'[..n] == ss[..n];
  }

  /** Dropping the oldest files for an empty new one leaves a suffix. */
  lemma KeptSuffix(files: seq<LogFile>, stream: seq<Segment>, keep: nat)
    requires IsSuffix(Flatten(files), stream)
    ensures IsSuffix(Flatten(LastN(files + [[]], keep + 1)), stream)
  {
    var all: seq<LogFile> := files + [[]];
    FlattenSnoc(files, []);
    assert Flatten(all) == Flatten(files);
    if |all| > keep + 1 {
      FlattenDrop(all, |all| - (keep + 1));
      SuffixTransitive(Flatten(LastN(all, keep + 1)), Flatten(files), stream);
    }
  }

  lemma WrittenSuffix(files: seq<LogFile>, stream: seq<Segment>, p: Segment)
    requires files != [] && IsSuffix(Flatten(files), stream)
    ensures IsSuffix(Flatten(files[|files| - 1 := files[|files| - 1] + [p]]), stream + [p])
  {
    FlattenLast(files, [p]);
    SuffixGrows(Flatten(files), stream, p);
  }

  /** The segments in the files stay a suffix of the accepted stream, cut at a segment boundary. */
  lemma LoggedIsSuffix(files: seq<LogFile>, rotate: bool, keep: nat, p: Segment, stream: seq<Segment>)
    requires files != [] && IsSuffix(Flatten(files), stream)
    ensures IsSuffix(Flatten(Logged(files, rotate, keep, p)), stream + [p])
  {
    if rotate {
      KeptSuffix(files, stream, keep);
      WrittenSuffix(LastN(files + [[]], keep + 1), stream, p);
    } else {
      WrittenSuffix(files, stream, p);
    }
  }

  // ---------- the logger ----------

  /** The current file and the rotated ones .1, .2, … hold these segments. */
  ghost predicate OnDisk(current: Option<Bytes>, rotated: map<nat, Bytes>, files: seq<LogFile>) {
    && (current.Some? <==> files != [])
    && (current.Some? ==> current.value == Flatten(files[|files| - 1]))
    && forall i: nat :: Numbered(rotated, files, i)
  }

  /** The rotated file .i exists exactly if so many files are held, and then holds the i-th newest. */
  ghost predicate Numbered(rotated: map<nat, Bytes>, files: seq<LogFile>, i: nat) {
    && (i in rotated <==> 1 <= i < |files|)
    && (i in rotated ==> rotated[i] == Flatten(files[|files| - 1 - i]))
  }

  /** No file too large, not too many of them, and together a suffix of the accepted stream. */
  ghost predicate Sound(files: seq<LogFile>, stream: seq<Segment>, maxSize: nat, keep: nat) {
    && |files| <= keep + 1
    && (forall i :: 0 <= i < |files| ==> Bounded(files[i], maxSize))
    && IsSuffix(Flatten(files), stream)
  }

  class FileLogger {
    const maxSize: nat
    const keep: nat
    const interval: nat
    var current: Option<Bytes>
    var rotated: map<nat, Bytes>
    var isOpen: bool
    var size: nat
    var openedAt: int
    ghost var files: seq<LogFile>
    ghost var stream: seq<Segment>

    /** files describes what is on disk; stream is what was accepted since the start or the last clear. */
    ghost predicate Valid()
      reads this
    {
      && keep > 0
      && (isOpen <==> current.Some?)
      && (isOpen ==> size == |current.value|)
      && (!isOpen ==> stream == [])
      && OnDisk(current, rotated, files)
      && Sound(files, stream, maxSize, keep)
    }

    constructor (maxSize: int, keep: int, interval: nat)
      ensures Valid() && files == [] && stream == []
      ensures this.maxSize == (if maxSize <= 0 then 64 * 1024 * 1024 else maxSize)
      ensures this.keep == (if keep <= 0 then 1 else keep) && this.interval == interval
    {
      this.maxSize := if maxSize <= 0 then 64 * 1024 * 1024 else maxSize;
      this.keep := if keep <= 0 then 1 else keep;
      this.interval := interval;
      current, rotated, isOpen, size, openedAt := None, map[], false, 0, 0;
      files, stream := [], [];
    }

    /** One segment: opened lazily, rotated by size or else by age, at most once, then written. */
    method WriteAll(p: Segment, now: int) returns (rotations: nat)
      requires Valid()
      modifies this
      ensures Valid() && isOpen && stream == old(stream) + [p]
      ensures rotations <= 1
      ensures old(isOpen) ==>
                files == Logged(old(files), rotations == 1, keep, p) &&
                (rotations == 1 <==>
                   old(size) > 0 && (old(size) + |p| > maxSize || (interval > 0 && now - old(openedAt) > interval)))
      ensures !old(isOpen) ==> rotations == 0 && files == [[p]]
    {
      if !isOpen {
        FirstSegment(keep, p);
        Open(now);
      }
      rotations := RotateIfDue(|p|, now);
      Put(p);
    }

    /** Rotates a file that a segment of n bytes would make too large, or else one that is too old. */
    method RotateIfDue(n: nat, now: int) returns (rotations: nat)
      requires Valid() && isOpen
      modifies this
      ensures Valid() && isOpen && stream == old(stream) && (size == 0 || size + n <= maxSize)
      ensures files == if rotations == 1 then LastN(old(files) + [[]], keep + 1) else old(files)
      ensures rotations <= 1
      ensures rotations == 1 <==>
              old(size) > 0 && (old(size) + n > maxSize || (interval > 0 && now - old(openedAt) > interval))
    {
      rotations := 0;
      if size + n > maxSize && size > 0 {
        Rotate(now);
        rotations := rotations + 1;
      }
      if interval > 0 && size > 0 && now - openedAt > interval {
        Rotate(now);
        rotations := rotations + 1;
      }
    }

    method Open(now: int)
      requires Valid() && !isOpen
      modifies this
      ensures Valid() && isOpen && size == 0 && openedAt == now && files == [[]] && stream == old(stream)
    {
      // append mode: an existing file would be continued; without one the file starts empty
      if current.None? {
        current := Some([]);
      }
      isOpen, size, openedAt := true, 0, now;
      NumbersKnown(rotated, files);
      files := [[]];
      assert Flatten(files) == [];
      assert Bounded([], maxSize);
    }

    /** Shifts the rotated files up by one, the oldest falling off, and starts an empty current file. */
    method Rotate(now: int)
      requires Valid() && isOpen
      modifies this
      ensures Valid() && isOpen && size == 0 && openedAt == now
      ensures files == LastN(old(files) + [[]], keep + 1) && stream == old(stream)
    {
      RenameFiles();
      RotatedSound(files, stream, maxSize, keep);
      StartFile(LastN(files + [[]], keep + 1), now);
    }

    method StartFile(ghost kept: seq<LogFile>, now: int)
      requires keep > 0 && isOpen && OnDisk(Some([]), rotated, kept) && Sound(kept, stream, maxSize, keep)
      modifies this`current, this`size, this`openedAt, this`files
      ensures Valid() && size == 0 && openedAt == now && files == kept
    {
      current, size, openedAt := Some([]), 0, now;
      files := kept;
    }

    /** The current file becomes .1 after the others have moved up. */
    method RenameFiles()
      requires keep > 0 && current.Some? && |files| <= keep + 1 && OnDisk(current, rotated, files)
      modifies this`rotated
      ensures OnDisk(Some([]), rotated, LastN(files + [[]], keep + 1))
    {
      NumbersKnown(rotated, files);
      ghost var was := rotated;
      ShiftRotated();
      rotated := rotated - {1};
      ghost var shifted := rotated;
      rotated := rotated[1 := current.value];
      RotatedFiles(files, was, shifted, rotated, keep);
    }

    /** .keep goes, then every .i becomes .i+1, the highest first. */
    method ShiftRotated()
      requires keep > 0 && forall i :: i in rotated ==> 1 <= i <= keep
      modifies this`rotated
      ensures ShiftedUp(old(rotated), rotated - {1}, 0, keep)
    {
      ShiftStart(rotated, keep);
      if keep > 1 {
        rotated := rotated - {keep};
        var i := keep - 1;
        while i >= 1
          invariant 0 <= i < keep
          invariant ShiftedUp(old(rotated), rotated, i, keep)
        {
          ShiftStep(old(rotated), rotated, i, keep);
          if i in rotated {
            rotated := rotated[i + 1 := rotated[i]];
            rotated := rotated - {i};
          }
          i := i - 1;
        }
        WithoutMissing(rotated, 1);
      }
    }

    /** The segment goes into the current file, which had room for it or was empty. */
    method Put(p: Segment)
      requires Valid() && isOpen && (size == 0 || size + |p| <= maxSize)
      modifies this
      ensures Valid() && isOpen && files == Logged(old(files), false, keep, p) && stream == old(stream) + [p]
    {
      PutSound(files, stream, p, maxSize, keep);
      PutOnDisk(current.value, rotated, files, p);
      Store(p, Logged(files, false, keep, p));
    }

    method Store(p: Segment, ghost filled: seq<LogFile>)
      requires keep > 0 && isOpen && current.Some? && size == |current.value|
      requires OnDisk(Some(current.value + p), rotated, filled) && Sound(filled, stream + [p], maxSize, keep)
      modifies this`current, this`size, this`files, this`stream
      ensures Valid() && files == filled && stream == old(stream) + [p]
    {
      current := Some(current.value + p);
      size := size + |p|;
      files := filled;
      stream := stream + [p];
    }

    /** Clearing removes the current and every rotated file; the next write starts over. */
    method Clear()
      requires Valid()
      modifies this
      ensures Valid() && !isOpen && files == [] && stream == [] && current == None && rotated == map[]
    {
      NumbersKnown(rotated, files);
      isOpen, size, current := false, 0, None;
      for i := 1 to keep + 1
        modifies this`rotated
        invariant forall k :: k in rotated <==> k in old(rotated) && k >= i
      {
        rotated := rotated - {i};
      }
      assert rotated == map[];
      files, stream := [], [];
    }
  }

  /** Rotation half-way: what is numbered up to i is still there, what was above has moved up by one. */
  ghost predicate ShiftedUp(was: map<nat, Bytes>, now: map<nat, Bytes>, i: nat, keep: nat) {
    forall k: nat {:trigger k in now} :: (k in now <==> (k <= i && k in was) || (i + 2 <= k <= keep && k - 1 in was))
                     && (k in now ==> now[k] == if k <= i then was[k] else was[k - 1])
  }

  lemma ShiftStart(was: map<nat, Bytes>, keep: nat)
    requires keep > 0 && forall i :: i in was ==> 1 <= i <= keep
    ensures ShiftedUp(was, was - {keep}, keep - 1, keep)
    ensures keep == 1 ==> ShiftedUp(was, was - {1}, 0, keep)
  {
  }

  lemma ShiftStep(was: map<nat, Bytes>, now: map<nat, Bytes>, i: nat, keep: nat)
    requires 1 <= i < keep && ShiftedUp(was, now, i, keep)
    ensures ShiftedUp(was, if i in now then now[i + 1 := now[i]] - {i} else now, i - 1, keep)
  {
    var next := if i in now then now[i + 1 := now[i]] - {i} else now;
    assert i in now <==> i in was;
    forall k: nat
      ensures k in next <==> (k <= i - 1 && k in was) || (i + 1 <= k <= keep && k - 1 in was)
      ensures k in next ==> next[k] == if k <= i - 1 then was[k] else was[k - 1]
    {
      assert k in now <==> (k <= i && k in was) || (i + 2 <= k <= keep && k - 1 in was);
    }
  }

  lemma NumbersKnown(rotated: map<nat, Bytes>, files: seq<LogFile>)
    requires forall i: nat :: Numbered(rotated, files, i)
    ensures forall i :: i in rotated ==> 1 <= i < |files|
  {
    forall i | i in rotated ensures 1 <= i < |files| {
      assert Numbered(rotated, files, i);
    }
  }

  lemma WithoutMissing<K, V>(m: map<K, V>, k: K)
    requires k !in m
    ensures m - {k} == m
  {
  }

  lemma RotatedFiles(files: seq<LogFile>, was: map<nat, Bytes>, shifted: map<nat, Bytes>, now: map<nat, Bytes>,
                     keep: nat)
    requires keep > 0 && files != [] && |files| <= keep + 1
    requires OnDisk(Some(Flatten(files[|files| - 1])), was, files)
    requires ShiftedUp(was, shifted, 0, keep) && now == shifted[1 := Flatten(files[|files| - 1])]
    ensures OnDisk(Some([]), now, LastN(files + [[]], keep + 1))
  {
    var kept := LastN(files + [[]], keep + 1);
    assert kept[|kept| - 1] == [];
    forall i: nat ensures Numbered(now, kept, i) {
      RotatedFile(files, was, shifted, now, keep, i);
    }
  }

  lemma RotatedFile(files: seq<LogFile>, was: map<nat, Bytes>, shifted: map<nat, Bytes>, now: map<nat, Bytes>,
                    keep: nat, i: nat)
    requires keep > 0 && files != [] && |files| <= keep + 1
    requires OnDisk(Some(Flatten(files[|files| - 1])), was, files)
    requires ShiftedUp(was, shifted, 0, keep) && now == shifted[1 := Flatten(files[|files| - 1])]
    ensures Numbered(now, LastN(files + [[]], keep + 1), i)
  {
    assert Numbered(was, files, i);
    assert i in shifted <==> 2 <= i <= keep && i - 1 in was;
    if i >= 2 {
      assert Numbered(was, files, i - 1);
      if i in now {
        KeptFile(files, keep, i);
        assert now[i] == shifted[i] == was[i - 1] == Flatten(files[|files| - i]);
      }
    } else if i == 1 {
      KeptFile(files, keep, 1);
    }
  }

  lemma KeptFile(files: seq<LogFile>, keep: nat, i: nat)
    requires files != [] && 1 <= i <= keep && i <= |files|
    ensures var kept := LastN(files + [[]], keep + 1);
            i < |kept| && kept[|kept| - 1 - i] == files[|files| - i]
  {
  }

  lemma RotatedSound(files: seq<LogFile>, stream: seq<Segment>, maxSize: nat, keep: nat)
    requires Sound(files, stream, maxSize, keep)
    ensures Sound(LastN(files + [[]], keep + 1), stream, maxSize, keep)
  {
    var all: seq<LogFile> := files + [[]];
    var kept := LastN(all, keep + 1);
    KeptSuffix(files, stream, keep);
    assert Bounded([], maxSize);
    forall i | 0 <= i < |kept| ensures Bounded(kept[i], maxSize) {
      assert kept[i] == all[i + |all| - |kept|];
    }
  }

  lemma FirstSegment(keep: nat, p: Segment)
    ensures Logged([[]], false, keep, p) == [[p]]
  {
    var none: LogFile := [];
    assert none + [p] == [p];
  }

  lemma PutOnDisk(content: Bytes, rotated: map<nat, Bytes>, files: seq<LogFile>, p: Segment)
    requires OnDisk(Some(content), rotated, files)
    ensures OnDisk(Some(content + p), rotated, files[|files| - 1 := files[|files| - 1] + [p]])
  {
    FlattenSnoc(files[|files| - 1], p);
    var files' := files[|files| - 1 := files[|files| - 1] + [p]];
    forall i: nat ensures Numbered(rotated, files', i) {
      assert Numbered(rotated, files, i);
    }
  }

  lemma PutSound(files: seq<LogFile>, stream: seq<Segment>, p: Segment, maxSize: nat, keep: nat)
    requires files != [] && Sound(files, stream, maxSize, keep)
    requires Flatten(files[|files| - 1]) == [] || |Flatten(files[|files| - 1])| + |p| <= maxSize
    ensures Sound(files[|files| - 1 := files[|files| - 1] + [p]], stream + [p], maxSize, keep)
  {
    WrittenSuffix(files, stream, p);
    PutBounded(files[|files| - 1], p, maxSize);
  }

  lemma PutBounded(f: LogFile, p: Segment, maxSize: nat)
    requires Flatten(f) == [] || |Flatten(f)| + |p| <= maxSize
    ensures Bounded(f + [p], maxSize)
  {
    FlattenSnoc(f, p);
    if Flatten(f) == [] {
      assert (f + [p])[|f|] == p;
    }
  }

  // ---------- reading the last lines ----------

  function DropBlankEnd(lines: seq<Bytes>): seq<Bytes> {
    if lines != [] && lines[|lines| - 1] == [] then DropBlankEnd(lines[..|lines| - 1]) else lines
  }

  function LinesWithRest(data: Bytes): seq<Bytes> {
    Ended(data) + if Residue(data) == [] then [] else [Residue(data)]
  }

  /** The lines of one file: an unended last line counts, blank lines at the end do not. */
  function FileLines(data: Bytes): seq<Bytes> {
    DropBlankEnd(LinesWithRest(data))
  }

  lemma FirstOfRest(data: Bytes, i: nat)
    requires FirstNewline(data) == i
    ensures LinesWithRest(data) == [data[..i]] + LinesWithRest(data[i + 1..])
  {
    var rest := data[i + 1..];
    Associative([data[..i]], Ended(rest), if Residue(rest) == [] then [] else [Residue(rest)]);
  }

  lemma OnlyRest(data: Bytes)
    requires data != [] && FirstNewline(data) < 0
    ensures LinesWithRest(data) == [data]
  {
    Associative([], [], [data]);
  }

  lemma Regrouped<T>(out: seq<T>, x: T, rest: seq<T>, whole: seq<T>)
    requires whole == [x] + rest
    ensures out + whole == out + [x] + rest
  {
  }

  lemma NextEnded(out: seq<Bytes>, data: Bytes, i: nat)
    requires FirstNewline(data) == i
    ensures out + LinesWithRest(data) == out + [data[..i]] + LinesWithRest(data[i + 1..])
  {
    FirstOfRest(data, i);
    Regrouped(out, data[..i], LinesWithRest(data[i + 1..]), LinesWithRest(data));
  }

  method SplitLogLines(data: Bytes) returns (out: seq<Bytes>)
    ensures out == FileLines(data)
  {
    out := AllSplit(data);
    while |out| > 0 && out[|out| - 1] == []
      invariant DropBlankEnd(out) == FileLines(data)
    {
      out := out[..|out| - 1];
    }
  }

  method AllSplit(data: Bytes) returns (out: seq<Bytes>)
    ensures out == LinesWithRest(data)
  {
    out := [];
    var rest := data;
    while |rest| > 0
      invariant out + LinesWithRest(rest) == LinesWithRest(data)
    {
      var i := FirstNewline(rest);
      if i < 0 {
        OnlyRest(rest);
        out := out + [rest];
        return;
      }
      NextEnded(out, rest, i);
      out := out + [rest[..i]];
      rest := rest[i + 1..];
    }
    assert LinesWithRest(rest) == [];
  }

  /** The lines of several files, oldest first; a file that cannot be read has none. */
  function AllLines(files: seq<Option<Bytes>>): seq<Bytes> {
    if files == [] then [] else LinesOf(files[0]) + AllLines(files[1..])
  }

  function LinesOf(file: Option<Bytes>): seq<Bytes> {
    if file.None? then [] else FileLines(file.value)
  }

  /** The chunks from the last to the first. */
  function Backwards(chunks: seq<seq<Bytes>>): seq<Bytes> {
    if chunks == [] then [] else chunks[|chunks| - 1] + Backwards(chunks[..|chunks| - 1])
  }

  /** Reads the files from the newest back until enough lines are found, and returns those lines in order. */
  method ReadLogTail(files: seq<Option<Bytes>>, n: int) returns (text: Bytes)
    ensures var lines := Wanted(AllLines(files), n);
            text == if lines == [] then [] else JoinLines(lines) + [NEWLINE]
  {
    var chunks := CollectTail(files, n);
    var out := OldestFirst(chunks);
    if out == [] {
      return [];
    }
    return JoinLines(out) + [NEWLINE];
  }

  method OldestFirst(chunks: seq<seq<Bytes>>) returns (out: seq<Bytes>)
    ensures out == Backwards(chunks)
  {
    out := [];
    var i := |chunks|;
    assert chunks[..i] == chunks;
    while i > 0
      invariant 0 <= i <= |chunks|
      invariant out + Backwards(chunks[..i]) == Backwards(chunks)
    {
      i := i - 1;
      assert chunks[..i + 1][..i] == chunks[..i];
      Associative(out, chunks[i], Backwards(chunks[..i]));
      out := out + chunks[i];
    }
    assert out + Backwards(chunks[..0]) == out;
  }

  /** The last n of the lines, or all of them when n is not positive. */
  function Wanted(lines: seq<Bytes>, n: int): seq<Bytes> {
    if n > 0 then LastN(lines, n) else lines
  }

  method CollectTail(files: seq<Option<Bytes>>, n: int) returns (chunks: seq<seq<Bytes>>)
    ensures Backwards(chunks) == Wanted(AllLines(files), n)
  {
    chunks := [];
    var need := n;
    var i := |files|;
    ghost var later: seq<Bytes> := [];
    while i > 0
      invariant 0 <= i <= |files|
      invariant n > 0 ==> need == n - |Backwards(chunks)| >= 0
      invariant Backwards(chunks) == Wanted(later, n) && later == AllLines(files[i..])
    {
      if n > 0 && need <= 0 {
        break;
      }
      i := i - 1;
      AllLinesFrom(files, i);
      chunks, need := CollectFile(chunks, files[i], n, need, later);
      later := LinesOf(files[i]) + later;
    }
    EarlierLines(files, i, n);
  }

  /** The lines still needed from the end of one file, or none if it cannot be read. */
  method CollectFile(chunks: seq<seq<Bytes>>, file: Option<Bytes>, n: int, need: int, ghost later: seq<Bytes>)
    returns (chunks': seq<seq<Bytes>>, need': int)
    requires Backwards(chunks) == Wanted(later, n)
    requires n > 0 ==> need == n - |Backwards(chunks)| > 0
    ensures Backwards(chunks') == Wanted(LinesOf(file) + later, n)
    ensures n > 0 ==> need' == n - |Backwards(chunks')| >= 0
  {
    chunks', need' := chunks, need;
    var lines := [];
    if file.Some? {
      lines := SplitLogLines(file.value);
    }
    Associative([], [], later);
    if |lines| > 0 {
      var take := need;
      if n <= 0 || |lines| < take {
        take := |lines|;
      }
      LastOfBoth(lines, later, n, take);
      BackwardsMore(chunks, lines[|lines| - take..]);
      chunks' := chunks + [lines[|lines| - take..]];
      if n > 0 {
        need' := need - take;
      }
    }
  }

  lemma BackwardsMore(chunks: seq<seq<Bytes>>, chunk: seq<Bytes>)
    ensures Backwards(chunks + [chunk]) == chunk + Backwards(chunks)
  {
    assert (chunks + [chunk])[..|chunks|] == chunks;
  }

  lemma AllLinesFrom(files: seq<Option<Bytes>>, i: nat)
    requires i < |files|
    ensures AllLines(files[i..]) == LinesOf(files[i]) + AllLines(files[i + 1..])
  {
    assert files[i..][1..] == files[i + 1..];
  }

  lemma LastOfBoth(lines: seq<Bytes>, later: seq<Bytes>, n: int, take: nat)
    requires n > 0 ==> |later| < n && take == Min(n - |later|, |lines|)
    requires n <= 0 ==> take == |lines|
    ensures take <= |lines|
    ensures n > 0 ==> LastN(lines + later, n) == lines[|lines| - take..] + LastN(later, n)
    ensures n <= 0 ==> lines[|lines| - take..] == lines
  {
  }

  /** With n lines found in the newer files, the older ones add nothing. */
  lemma {:induction false} EarlierLines(files: seq<Option<Bytes>>, i: nat, n: int)
    requires i <= |files|
    ensures n > 0 && |AllLines(files[i..])| >= n ==> LastN(AllLines(files), n) == LastN(AllLines(files[i..]), n)
    ensures |AllLines(files)| >= |AllLines(files[i..])|
    ensures i == 0 ==> files[i..] == files
  {
    assert i == 0 ==> files[i..] == files;
    if i > 0 {
      assert files[1..][i - 1..] == files[i..];
      EarlierLines(files[1..], i - 1, n);
      if n > 0 && |AllLines(files[i..])| >= n {
        LastNOfLonger(LinesOf(files[0]), AllLines(files[1..]), n);
      }
    }
  }

  lemma LastNOfLonger<T>(a: seq<T>, b: seq<T>, n: nat)
    requires |b| >= n
    ensures LastN(a + b, n) == LastN(b, n)
  {
  }

  // ---------- reading what the logger wrote ----------

  /** The numbered files from .i down to .1, missing ones included. */
  function PathsFrom(rotated: map<nat, Bytes>, i: nat): seq<Option<Bytes>> {
    if i == 0 then [] else [if i in rotated then Some(rotated[i]) else None] + PathsFrom(rotated, i - 1)
  }

  /** The files of an instance's log, oldest first. */
  function LogPaths(current: Option<Bytes>, rotated: map<nat, Bytes>, keep: nat): seq<Option<Bytes>> {
    PathsFrom(rotated, keep) + [current]
  }

  function Contents(files: seq<LogFile>): seq<Bytes> {
    seq(|files|, i requires 0 <= i < |files| => Flatten(files[i]))
  }

  function Found(contents: seq<Bytes>): seq<Option<Bytes>> {
    seq(|contents|, i requires 0 <= i < |contents| => Some(contents[i]))
  }

  lemma FoundStep(contents: seq<Bytes>, j: nat)
    requires j < |contents|
    ensures AllLines(Found(contents[j..])) == FileLines(contents[j]) + AllLines(Found(contents[j + 1..]))
  {
    var found := Found(contents[j..]);
    assert found[0] == Some(contents[j]);
    assert found[1..] == Found(contents[j + 1..]);
  }

  lemma PathsStep(rotated: map<nat, Bytes>, i: nat, current: Option<Bytes>)
    requires i > 0
    ensures AllLines(PathsFrom(rotated, i) + [current]) ==
            (if i in rotated then FileLines(rotated[i]) else []) + AllLines(PathsFrom(rotated, i - 1) + [current])
  {
    var all := PathsFrom(rotated, i) + [current];
    assert all[0] == if i in rotated then Some(rotated[i]) else None;
    assert all[1..] == PathsFrom(rotated, i - 1) + [current];
  }

  lemma NewestOnly(contents: seq<Bytes>)
    requires contents != []
    ensures AllLines(Found(contents[|contents| - 1..])) == FileLines(contents[|contents| - 1]) + []
  {
    FoundStep(contents, |contents| - 1);
    assert contents[|contents|..] == [];
  }

  lemma CurrentOnly(rotated: map<nat, Bytes>, current: Bytes)
    ensures AllLines(PathsFrom(rotated, 0) + [Some(current)]) == FileLines(current) + []
  {
    var all := PathsFrom(rotated, 0) + [Some(current)];
    assert all == [Some(current)];
    assert all[1..] == [];
    assert all[0] == Some(current);
  }

  /** The index of the oldest file among the current one and .1 … .i. */
  function Reached(files: seq<LogFile>, i: nat): nat
    requires files != []
  {
    |files| - 1 - Min(i, |files| - 1)
  }

  /** The lines of the current file and of .1 … .i, by their names and as they are held. */
  ghost predicate LinesAgree(current: Option<Bytes>, rotated: map<nat, Bytes>, files: seq<LogFile>, i: nat)
    requires files != []
  {
    AllLines(PathsFrom(rotated, i) + [current]) == AllLines(Found(Contents(files)[Reached(files, i)..]))
  }

  /** The files that exist are found, the others have no lines. */
  lemma LinesOnDisk(current: Option<Bytes>, rotated: map<nat, Bytes>, files: seq<LogFile>, i: nat)
    requires OnDisk(current, rotated, files) && files != []
    ensures AllLines(PathsFrom(rotated, i) + [current]) == AllLines(Found(Contents(files)[Reached(files, i)..]))
  {
    NewestOnDisk(current, rotated, files);
    var n: nat := 0;
    while n < i
      invariant 0 <= n <= i && LinesAgree(current, rotated, files, n)
    {
      n := n + 1;
      assert Numbered(rotated, files, n);
      OneMoreFile(current, rotated, files, n);
    }
  }

  lemma NewestOnDisk(current: Option<Bytes>, rotated: map<nat, Bytes>, files: seq<LogFile>)
    requires files != [] && current == Some(Flatten(files[|files| - 1]))
    ensures AllLines(PathsFrom(rotated, 0) + [current]) == AllLines(Found(Contents(files)[Reached(files, 0)..]))
  {
    NewestOnly(Contents(files));
    CurrentOnly(rotated, current.value);
  }

  lemma OneMoreFile(current: Option<Bytes>, rotated: map<nat, Bytes>, files: seq<LogFile>, i: nat)
    requires files != [] && i > 0 && Numbered(rotated, files, i)
    requires AllLines(PathsFrom(rotated, i - 1) + [current]) ==
             AllLines(Found(Contents(files)[Reached(files, i - 1)..]))
    ensures AllLines(PathsFrom(rotated, i) + [current]) == AllLines(Found(Contents(files)[Reached(files, i)..]))
  {
    PathsStep(rotated, i, current);
    FoundNext(rotated, files, i);
  }

  lemma FoundNext(rotated: map<nat, Bytes>, files: seq<LogFile>, i: nat)
    requires files != [] && i > 0 && Numbered(rotated, files, i)
    ensures AllLines(Found(Contents(files)[Reached(files, i)..])) ==
            (if i in rotated then FileLines(rotated[i]) else []) +
            AllLines(Found(Contents(files)[Reached(files, i - 1)..]))
  {
    NextReached(rotated, files, i);
    FoundOrNot(rotated, Contents(files), i, Reached(files, i));
  }

  lemma NextReached(rotated: map<nat, Bytes>, files: seq<LogFile>, i: nat)
    requires files != [] && i > 0 && Numbered(rotated, files, i)
    ensures Reached(files, i - 1) == if i in rotated then Reached(files, i) + 1 else Reached(files, i)
    ensures i in rotated ==> Contents(files)[Reached(files, i)] == rotated[i]
  {
  }

  lemma FoundOrNot(rotated: map<nat, Bytes>, contents: seq<Bytes>, i: nat, j: nat)
    requires j < |contents| && (i in rotated ==> contents[j] == rotated[i])
    ensures AllLines(Found(contents[j..])) ==
            (if i in rotated then FileLines(rotated[i]) else []) +
            AllLines(Found(contents[if i in rotated then j + 1 else j..]))
  {
    if i in rotated {
      FoundStep(contents, j);
    } else {
      Associative([], [], AllLines(Found(contents[j..])));
    }
  }

  lemma {:induction false} FlattenContents(files: seq<LogFile>)
    ensures Flatten(Contents(files)) == Flatten(Flatten(files))
  {
    if files != [] {
      var front, last := files[..|files| - 1], files[|files| - 1];
      FlattenContents(front);
      assert Contents(files) == Contents(front) + [Flatten(last)];
      FlattenSnoc(Contents(front), Flatten(last));
      FlattenConcat(Flatten(front), last);
    }
  }

  lemma {:induction false} SegmentsOf(files: seq<LogFile>, i: nat, p: Segment)
    requires i < |files| && p in files[i]
    ensures p in Flatten(files)
  {
    if i < |files| - 1 {
      SegmentsOf(files[..|files| - 1], i, p);
    }
  }

  // ---------- when the files' lines are the stream's ----------

  /** The bytes without the newlines at the end. */
  function Stripped(data: Bytes): Bytes {
    if data != [] && data[|data| - 1] == NEWLINE then Stripped(data[..|data| - 1]) else data
  }

  /** The same text with exactly one newline at its end; nothing when it has no other byte. */
  function Tidied(data: Bytes): Bytes {
    if Stripped(data) == [] then [] else Stripped(data) + [NEWLINE]
  }

  /** Lines as text, each with its newline. */
  function Text(lines: seq<Bytes>): Bytes {
    if lines == [] then [] else lines[0] + [NEWLINE] + Text(lines[1..])
  }

  ghost predicate NewlineFree(lines: seq<Bytes>) {
    forall line :: line in lines ==> NEWLINE !in line
  }

  lemma {:induction false} TextConcat(a: seq<Bytes>, b: seq<Bytes>)
    ensures Text(a + b) == Text(a) + Text(b)
  {
    if a == [] {
      assert a + b == b;
    } else {
      assert (a + b)[1..] == a[1..] + b;
      TextConcat(a[1..], b);
      Associative(a[0] + [NEWLINE], Text(a[1..]), Text(b));
    }
  }

  lemma TextSnoc(lines: seq<Bytes>, line: Bytes)
    ensures Text(lines + [line]) == Text(lines) + line + [NEWLINE]
  {
    TextConcat(lines, [line]);
    assert Text([line]) == line + [NEWLINE];
  }

  lemma FirstLine(x: Bytes, a: Bytes, y: Bytes, b: Bytes)
    requires NEWLINE !in x && NEWLINE !in y && x + [NEWLINE] + a == y + [NEWLINE] + b
    ensures x == y && a == b
  {
    var s := x + [NEWLINE] + a;
    assert s[|x|] == NEWLINE && s[|y|] == NEWLINE;
    assert |x| == |y|;
    assert s[..|x|] == x && s[..|x|] == y && s[|x| + 1..] == a && s[|x| + 1..] == b;
  }

  /** Lines can be read off their text. */
  lemma {:induction false} TextInjective(a: seq<Bytes>, b: seq<Bytes>)
    requires NewlineFree(a) && NewlineFree(b) && Text(a) == Text(b)
    ensures a == b
  {
    if a != [] && b != [] {
      FirstLine(a[0], Text(a[1..]), b[0], Text(b[1..]));
      TextInjective(a[1..], b[1..]);
    }
  }

  lemma TextCons(line: Bytes, lines: seq<Bytes>)
    ensures Text([line] + lines) == line + [NEWLINE] + Text(lines)
  {
    assert ([line] + lines)[1..] == lines;
  }

  lemma {:induction false} TextOfEnded(s: Bytes)
    ensures Text(Ended(s)) + Residue(s) == s
    decreases |s|
  {
    var i := FirstNewline(s);
    if i < 0 {
      assert [] + s == s;
    } else {
      var line, rest := s[..i], s[i + 1..];
      TextOfEnded(rest);
      TextCons(line, Ended(rest));
      Associative(line + [NEWLINE], Text(Ended(rest)), Residue(rest));
      CutAt(s, i);
    }
  }

  lemma CutAt(s: Bytes, i: nat)
    requires i < |s| && s[i] == NEWLINE
    ensures s == s[..i] + [NEWLINE] + s[i + 1..]
  {
  }

  lemma StrippedOnce(data: Bytes)
    ensures Stripped(data + [NEWLINE]) == Stripped(data) && Tidied(data + [NEWLINE]) == Tidied(data)
  {
    assert (data + [NEWLINE])[..|data|] == data;
  }

  lemma StrippedNot(data: Bytes, line: Bytes)
    requires line != [] && NEWLINE !in line
    ensures Stripped(data + line) == data + line
  {
    assert (data + line)[|data + line| - 1] == line[|line| - 1];
  }

  lemma {:induction false} TidiedText(lines: seq<Bytes>)
    requires NewlineFree(lines)
    ensures Tidied(Text(lines)) == Text(DropBlankEnd(lines))
  {
    if lines != [] {
      var front, last := lines[..|lines| - 1], lines[|lines| - 1];
      assert lines == front + [last];
      TextSnoc(front, last);
      StrippedOnce(Text(front) + last);
      if last == [] {
        assert Text(front) + last == Text(front);
        TidiedText(front);
      } else {
        assert last in lines;
        StrippedNot(Text(front), last);
      }
    }
  }

  /** Reading a file into lines is tidying its end. */
  lemma TextOfFileLines(data: Bytes)
    ensures Text(FileLines(data)) == Tidied(data) && NewlineFree(FileLines(data))
  {
    EndedHaveNoNewline(data);
    ResidueHasNoNewline(data);
    TextOfEnded(data);
    TidiedText(LinesWithRest(data));
    DroppedAreLines(LinesWithRest(data));
    if Residue(data) == [] {
      assert LinesWithRest(data) == Ended(data) && Text(Ended(data)) + [] == Text(Ended(data));
    } else {
      TextSnoc(Ended(data), Residue(data));
      StrippedOnce(data);
    }
  }

  lemma {:induction false} DroppedAreLines(lines: seq<Bytes>)
    requires NewlineFree(lines)
    ensures NewlineFree(DropBlankEnd(lines))
  {
    if lines != [] && lines[|lines| - 1] == [] {
      DroppedAreLines(lines[..|lines| - 1]);
    }
  }

  /** The tidied files one after the other. */
  function TidiedAll(contents: seq<Bytes>): Bytes {
    if contents == [] then []
    else TidiedAll(contents[..|contents| - 1]) + Tidied(contents[|contents| - 1])
  }

  /** Nothing, or a text whose last line is not blank and ends in its newline. */
  predicate Tidy(data: Bytes) {
    data == [] || (|data| > 1 && data[|data| - 1] == NEWLINE && data[|data| - 2] != NEWLINE)
  }

  lemma TidyIff(data: Bytes)
    ensures Tidy(data) <==> Tidied(data) == data
  {
    if data != [] && data[|data| - 1] == NEWLINE {
      var front := data[..|data| - 1];
      assert data == front + [NEWLINE];
      StrippedOnce(front);
      StrippedShorter(front);
    }
  }

  lemma {:induction false} StrippedShorter(data: Bytes)
    ensures |Stripped(data)| <= |data|
    ensures |Stripped(data)| == |data| <==> data == [] || data[|data| - 1] != NEWLINE
    ensures Stripped(data) == [] || Stripped(data)[|Stripped(data)| - 1] != NEWLINE
  {
    if data != [] && data[|data| - 1] == NEWLINE {
      StrippedShorter(data[..|data| - 1]);
    }
  }

  lemma TidiedIsTidy(data: Bytes)
    ensures Tidy(Tidied(data))
  {
    StrippedShorter(data);
  }

  lemma {:induction false} TidiedAllIsTidy(contents: seq<Bytes>)
    ensures Tidy(TidiedAll(contents))
  {
    if contents != [] {
      TidiedAllIsTidy(contents[..|contents| - 1]);
      TidiedIsTidy(contents[|contents| - 1]);
    }
  }

  /** Only what a text holds beside newlines at its end decides how an earlier text ends. */
  lemma {:induction false} StrippedConcat(a: Bytes, b: Bytes)
    ensures Stripped(a + b) == if Stripped(b) == [] then Stripped(a) else a + Stripped(b)
  {
    if b == [] {
      assert a + b == a;
    } else {
      assert (a + b)[|a + b| - 1] == b[|b| - 1];
      assert (a + b)[..|a + b| - 1] == a + b[..|b| - 1];
      if b[|b| - 1] == NEWLINE {
        StrippedConcat(a, b[..|b| - 1]);
      }
    }
  }

  /** Before every file that is more than newlines comes nothing, or whole lines of which the last is not blank. */
  ghost predicate CutCleanly(contents: seq<Bytes>) {
    forall i :: 0 <= i < |contents| && Stripped(contents[i]) != [] ==> Tidy(Flatten(contents[..i]))
  }

  lemma CutFront(contents: seq<Bytes>)
    requires contents != []
    ensures var n := |contents| - 1;
            CutCleanly(contents) <==>
            CutCleanly(contents[..n]) && (Stripped(contents[n]) != [] ==> Tidy(Flatten(contents[..n])))
  {
    var n := |contents| - 1;
    forall i | 0 <= i < n ensures contents[..n][..i] == contents[..i] && contents[..n][i] == contents[i] {
    }
  }

  /** Adding a file with more than newlines: the texts agree exactly when they did, and tidying changed nothing. */
  lemma TidiedStep(sum: Bytes, text: Bytes, last: Bytes)
    requires Tidy(sum) && Stripped(last) != []
    ensures sum + Tidied(last) == Tidied(text + last) <==> sum == Tidied(text) && Tidy(text)
  {
    StrippedConcat(text, last);
    Associative(text, Stripped(last), [NEWLINE]);
    TidyIff(text);
    TidyIff(sum);
    if sum + Tidied(last) == text + Tidied(last) {
      SameFront(sum, text, Tidied(last));
    }
  }

  lemma SameFront(a: Bytes, b: Bytes, end: Bytes)
    requires a + end == b + end
    ensures a == b
  {
    assert |a| == |b|;
    assert a == (a + end)[..|a|] && b == (b + end)[..|b|];
  }

  lemma {:induction false} TidiedAllIff(contents: seq<Bytes>)
    ensures TidiedAll(contents) == Tidied(Flatten(contents)) <==> CutCleanly(contents)
  {
    if contents != [] {
      var front, last := contents[..|contents| - 1], contents[|contents| - 1];
      TidiedAllIff(front);
      CutFront(contents);
      if Stripped(last) == [] {
        StrippedConcat(Flatten(front), last);
        assert TidiedAll(contents) == TidiedAll(front);
      } else {
        TidiedAllIsTidy(front);
        TidiedStep(TidiedAll(front), Flatten(front), last);
      }
    }
  }

  lemma {:induction false} TextOfAllLines(contents: seq<Bytes>)
    ensures Text(AllLines(Found(contents))) == TidiedAll(contents) && NewlineFree(AllLines(Found(contents)))
  {
    if contents != [] {
      var front, last := contents[..|contents| - 1], contents[|contents| - 1];
      TextOfAllLines(front);
      assert contents == front + [last];
      OneFileMore(front, last);
    }
  }

  lemma OneFileMore(front: seq<Bytes>, last: Bytes)
    requires NewlineFree(AllLines(Found(front)))
    ensures Text(AllLines(Found(front + [last]))) == Text(AllLines(Found(front))) + Tidied(last)
    ensures NewlineFree(AllLines(Found(front + [last])))
  {
    TextOfFileLines(last);
    FoundSnoc(front, last);
    TextConcat(AllLines(Found(front)), FileLines(last));
  }

  lemma FoundSnoc(contents: seq<Bytes>, data: Bytes)
    ensures AllLines(Found(contents + [data])) == AllLines(Found(contents)) + FileLines(data)
  {
    assert Found(contents + [data]) == Found(contents) + [Some(data)];
    AllLinesSnoc(Found(contents), data);
  }

  lemma {:induction false} AllLinesSnoc(files: seq<Option<Bytes>>, data: Bytes)
    ensures AllLines(files + [Some(data)]) == AllLines(files) + FileLines(data)
  {
    if files == [] {
      var one: seq<Option<Bytes>> := [Some(data)];
      assert files + [Some(data)] == one && one[1..] == [];
      assert AllLines(one) == FileLines(data) + [];
    } else {
      assert (files + [Some(data)])[1..] == files[1..] + [Some(data)];
      AllLinesSnoc(files[1..], data);
      Associative(LinesOf(files[0]), AllLines(files[1..]), FileLines(data));
    }
  }

  /** The lines of files are the lines of the text they make up exactly when the text is cut cleanly. */
  lemma FilesKeepLinesIff(contents: seq<Bytes>)
    ensures AllLines(Found(contents)) == FileLines(Flatten(contents)) <==> CutCleanly(contents)
  {
    TextOfAllLines(contents);
    TextOfFileLines(Flatten(contents));
    TidiedAllIff(contents);
    if TidiedAll(contents) == Tidied(Flatten(contents)) {
      TextInjective(AllLines(Found(contents)), FileLines(Flatten(contents)));
    }
  }

  /**
   Whatever was logged, in whatever chunks: reading the log's files back gives the lines of the bytes they still hold
   exactly when rotation cut them cleanly.
   */
  lemma LogIsReadBackIff(l: FileLogger)
    requires l.Valid() && l.isOpen
    ensures var held := l.stream[|l.stream| - |Flatten(l.files)|..];
            AllLines(LogPaths(l.current, l.rotated, l.keep)) == FileLines(Flatten(held)) <==>
            CutCleanly(Contents(l.files))
  {
    var contents := Contents(l.files);
    LinesOnDisk(l.current, l.rotated, l.files, l.keep);
    assert contents[0..] == contents;
    FlattenContents(l.files);
    FilesKeepLinesIff(contents);
  }

  // ---------- logs of whole lines ----------

  lemma LastByte(text: Bytes, rest: Bytes)
    ensures rest != [] ==> (text + rest)[|text + rest| - 1] in rest
  {
  }

  lemma NothingAfter(text: Bytes, rest: Bytes)
    requires Tidy(text + rest) && NEWLINE !in rest
    ensures rest == []
  {
    LastByte(text, rest);
  }

  /** A tidy text is its lines, each with its newline. */
  lemma TidyLines(data: Bytes)
    requires Tidy(data)
    ensures FileLines(data) == Ended(data) && Residue(data) == []
  {
    var lines, rest := Ended(data), Residue(data);
    TextOfEnded(data);
    TextOfFileLines(data);
    ResidueHasNoNewline(data);
    EndedHaveNoNewline(data);
    TidyIff(data);
    NothingAfter(Text(lines), rest);
    assert Text(lines) + [] == Text(lines);
    TextInjective(FileLines(data), lines);
  }

  lemma {:induction false} TidyFlatten(pieces: seq<Bytes>)
    requires forall p :: p in pieces ==> Tidy(p)
    ensures Tidy(Flatten(pieces))
  {
    if pieces != [] {
      var front, last := pieces[..|pieces| - 1], pieces[|pieces| - 1];
      TidyFlatten(front);
      assert last in pieces;
      assert last == [] ==> Flatten(front) + last == Flatten(front);
    }
  }

  /** When rotation cuts between lines, the lines of the files are the lines of the stream they hold. */
  lemma TailOfFilesIsTailOfStream(contents: seq<Bytes>)
    requires forall c :: c in contents ==> Tidy(c)
    ensures AllLines(Found(contents)) == Ended(Flatten(contents)) && Residue(Flatten(contents)) == []
  {
    forall i | 0 <= i < |contents| ensures Tidy(Flatten(contents[..i])) {
      TidyFlatten(contents[..i]);
    }
    FilesKeepLinesIff(contents);
    TidyFlatten(contents);
    TidyLines(Flatten(contents));
  }

  /** When only whole lines are logged, reading the log's files back gives the lines of the segments they still hold. */
  lemma LoggedLinesAreRead(l: FileLogger)
    requires l.Valid() && l.isOpen && forall p :: p in l.stream ==> Tidy(p)
    ensures AllLines(LogPaths(l.current, l.rotated, l.keep)) ==
            Ended(Flatten(l.stream[|l.stream| - |Flatten(l.files)|..]))
  {
    var contents := Contents(l.files);
    LinesOnDisk(l.current, l.rotated, l.files, l.keep);
    assert contents[0..] == contents;
    forall i | 0 <= i < |contents| ensures Tidy(contents[i]) {
      forall p | p in l.files[i] ensures Tidy(p) {
        SegmentsOf(l.files, i, p);
      }
      TidyFlatten(l.files[i]);
    }
    TailOfFilesIsTailOfStream(contents);
    FlattenContents(l.files);
  }

  // ---------- what rotation keeps ----------

  /** One logged segment, and whether a rotation came before it. */
  datatype Entry = Entry(rotate: bool, p: Segment)

  /** The files a logger would hold if it kept them all. */
  function AllFiles(entries: seq<Entry>): seq<LogFile> {
    if entries == [] then [[]]
    else
      var front, e := AllFiles(entries[..|entries| - 1]), entries[|entries| - 1];
      if e.rotate then front + [[e.p]] else front[..|front| - 1] + [front[|front| - 1] + [e.p]]
  }

  function Segments(entries: seq<Entry>): seq<Segment> {
    seq(|entries|, i requires 0 <= i < |entries| => entries[i].p)
  }

  function LoggedAll(entries: seq<Entry>, keep: nat): (files: seq<LogFile>)
    ensures files != []
  {
    if entries == [] then [[]]
    else
      var e := entries[|entries| - 1];
      Logged(LoggedAll(entries[..|entries| - 1], keep), e.rotate, keep, e.p)
  }

  lemma {:induction false} AllFilesHoldAll(entries: seq<Entry>)
    ensures AllFiles(entries) != [] && Flatten(AllFiles(entries)) == Segments(entries)
  {
    var none: seq<LogFile> := [];
    if entries == [] {
      var empty: LogFile := [];
      FlattenSnoc(none, empty);
      assert none + [empty] == [empty];
    } else {
      var front, e := AllFiles(entries[..|entries| - 1]), entries[|entries| - 1];
      AllFilesHoldAll(entries[..|entries| - 1]);
      assert Segments(entries) == Segments(entries[..|entries| - 1]) + [e.p];
      if e.rotate {
        FlattenSnoc(front, [e.p]);
      } else {
        FlattenLast(front, [e.p]);
        assert front[|front| - 1 := front[|front| - 1] + [e.p]] ==
               front[..|front| - 1] + [front[|front| - 1] + [e.p]];
      }
    }
  }

  /** However often the log rotates, the newest keep + 1 files are held, whole, and nothing of them is lost. */
  lemma {:induction false} NewestFilesAreHeld(entries: seq<Entry>, keep: nat)
    ensures LoggedAll(entries, keep) == LastN(AllFiles(entries), keep + 1)
  {
    AllFilesHoldAll(entries);
    if entries != [] {
      var all, e := AllFiles(entries[..|entries| - 1]), entries[|entries| - 1];
      NewestFilesAreHeld(entries[..|entries| - 1], keep);
      AllFilesHoldAll(entries[..|entries| - 1]);
      OneLogged(all, e, keep);
    }
  }

  lemma OneLogged(all: seq<LogFile>, e: Entry, keep: nat)
    requires all != []
    ensures Logged(LastN(all, keep + 1), e.rotate, keep, e.p) ==
            LastN(if e.rotate then all + [[e.p]] else all[..|all| - 1] + [all[|all| - 1] + [e.p]], keep + 1)
  {
    if e.rotate {
      OneRotated(all, e.p, keep);
    } else {
      var held := LastN(all, keep + 1);
      assert held[|held| - 1] == all[|all| - 1];
    }
  }

  lemma OneRotated(all: seq<LogFile>, p: Segment, keep: nat)
    requires all != []
    ensures Logged(LastN(all, keep + 1), true, keep, p) == LastN(all + [[p]], keep + 1)
  {
    var empty: LogFile := [];
    assert empty + [p] == [p];
    LastNAppend(all, [empty], keep + 1);
    LastReplaced(all, empty, [p], keep + 1);
  }

  lemma LastReplaced<T>(all: seq<T>, x: T, y: T, n: nat)
    requires n > 0
    ensures var held := LastN(all + [x], n);
            held[|held| - 1] == x && held[|held| - 1 := y] == LastN(all + [y], n)
  {
  }
}
