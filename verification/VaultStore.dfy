/**
 The encrypted store in one process: the in-memory index, lazily deleted objects and the object directory refine a
 plain tree of files. Randomness and time come in as parameters; ids and data keys drawn at random are fresh.
 */
module VaultStore {
  import opened Common
  import opened Sealing
  import opened VaultObjects
  import opened VaultPaths
  import opened VaultIndex
  import opened VaultMoves
  import Crash = VaultCrash

  datatype StoreError = Locked | NotExist | IsDirectory | AlreadyExists | Corrupt | IndexNotLoaded

  datatype Header = Header(blockSize: nat, dek: Key, blockCount: nat)

  class Store {
    ghost const treeKey: Key
    const blockSize: nat
    var masterKey: Option<Key>
    var indexKey: Option<Key>
    var index: Index
    var dirty: bool
    var pendingDel: seq<Id>
    var objects: Objects
    var indexFile: Option<Sealed<Index>>

    ghost predicate Valid()
      reads this
    {
      && 0 < blockSize <= MAX_BLOCK_SIZE
      && (masterKey.Some? ==> masterKey.value == treeKey)
      && Backed(index, objects, treeKey, blockSize)
      && DistinctIds(index)
      && (forall id :: id in pendingDel ==> id !in Ids(index))
    }

    /** The plain tree the store represents, locked or not. */
    ghost function Contents(): Tree
      reads this
    {
      View(index, objects, treeKey)
    }

    ghost predicate FreshId(id: Id)
      reads this
    {
      id !in objects && id !in Ids(index) && id !in pendingDel
    }

    /** The store as the crash model sees it while a foreground operation stands at op and no flush is under way. */
    ghost function Snap(op: Crash.Op): Crash.State
      reads this
    {
      Crash.State(index, dirty, pendingDel, {}, op, StoredIndex(indexFile), objects)
    }

    constructor (blockSize: nat, ghost treeKey: Key)
      requires 0 < blockSize <= MAX_BLOCK_SIZE
      ensures Valid() && Contents() == map[]
      ensures this.blockSize == blockSize && this.treeKey == treeKey && masterKey == None && !dirty
    {
      this.treeKey := treeKey;
      this.blockSize := blockSize;
      masterKey, indexKey, index, dirty := None, None, map[], false;
      pendingDel, objects, indexFile := [], map[], None;
    }

    // ---------- objects ----------

    method ReadHeader(id: Id) returns (r: Result<Header, StoreError>)
      requires masterKey.Some?
      ensures r.Ok? <==>
                && id in objects && 0 < objects[id].blockSize <= MAX_BLOCK_SIZE
                && objects[id].dekWrap.key == masterKey.value
      ensures r.Ok? ==>
                r.value == Header(objects[id].blockSize, objects[id].dekWrap.plain, objects[id].blockCount)
      ensures r.Err? ==> r.error == if id in objects then Corrupt else NotExist
    {
      if id !in objects {
        return Err(NotExist);
      }
      var o := objects[id];
      if o.blockSize <= 0 || o.blockSize > MAX_BLOCK_SIZE {
        return Err(Corrupt);
      }
      var dek := Open(masterKey.value, o.dekWrap);
      if dek.None? {
        return Err(Corrupt);
      }
      return Ok(Header(o.blockSize, dek.value, o.blockCount));
    }

    /** A block index at or beyond the header count is refused, whatever the file holds there. */
    method ReadBlock(id: Id, h: Header, i: nat) returns (r: Result<Bytes, StoreError>)
      ensures r == if i < h.blockCount && id in objects && i < |objects[id].body| && objects[id].body[i].key == h.dek
                   then Ok(objects[id].body[i].plain) else Err(Corrupt)
    {
      if i >= h.blockCount || id !in objects || i >= |objects[id].body| {
        return Err(Corrupt);
      }
      var plain := Open(h.dek, objects[id].body[i]);
      if plain.None? {
        return Err(Corrupt);
      }
      return Ok(plain.value);
    }

    /** Cuts data into n blocks, zero-pads the last one and seals each under the data key. */
    method SealBlocks(data: Bytes, n: nat, dek: Key) returns (body: seq<Sealed<Bytes>>)
      requires 0 < blockSize && 0 < n && (n - 1) * blockSize <= |data|
      ensures |body| == n && BlocksOfSize(body, n, blockSize)
      ensures forall k :: 0 <= k < n ==> body[k].key == dek
      ensures Plain(body, n) == Fit(data, n * blockSize)
    {
      body := [];
      for i := 0 to n
        invariant |body| == i && BlocksOfSize(body, i, blockSize)
        invariant forall k :: 0 <= k < i ==> body[k].key == dek
        invariant Plain(body, i) == Fit(data, i * blockSize)
      {
        MulLe(i, n - 1, blockSize);
        var start := i * blockSize;
        var block := PaddedBlock(data, start, blockSize);
        SealStep(body, data, blockSize, dek, block, start);
        assert (i + 1) * blockSize == start + blockSize;
        body := body + [Sealed(dek, block)];
      }
    }

    method NewObject(data: Bytes, id: Id, dek: Key)
      requires Valid() && masterKey.Some? && FreshId(id)
      modifies this`objects
      ensures Valid()
      ensures objects.Keys == old(objects).Keys + {id}
      ensures forall x :: x in old(objects) ==> objects[x] == old(objects)[x]
      ensures BackedEntry(FileEntry(id, |data|, 0), objects, treeKey, blockSize)
      ensures Content(objects[id], |data|) == data
      ensures objects[id].blockCount == Max(1, CeilDiv(|data|, blockSize))
    {
      var blocks := (|data| + blockSize - 1) / blockSize;
      CeilDivBounds(|data|, blockSize);
      if blocks == 0 {
        blocks := 1;
      }
      assert (blocks - 1) * blockSize == blocks * blockSize - blockSize;
      var body := SealBlocks(data, blocks, dek);
      objects := objects[id := Object(blockSize, Sealed(masterKey.value, dek), blocks, body)];
      BackedSame(index, old(objects), objects, treeKey, blockSize);
    }

    // ---------- reading ----------

    method ReadFile(path: Path) returns (r: Result<Bytes, StoreError>)
      requires Valid()
      ensures masterKey.None? ==> r == Err(Locked)
      ensures masterKey.Some? && path !in Contents() ==> r == Err(NotExist)
      ensures masterKey.Some? && path in Contents() && Contents()[path] == Dir ==> r == Err(IsDirectory)
      ensures masterKey.Some? && path in Contents() && Contents()[path] != Dir ==>
                Contents()[path].File? && r == Ok(Contents()[path].data)
    {
      if masterKey.None? {
        return Err(Locked);
      }
      if path !in index {
        return Err(NotExist);
      }
      var e := index[path];
      if e.DirEntry? {
        return Err(IsDirectory);
      }
      assert BackedEntry(e, objects, treeKey, blockSize);
      ghost var o := objects[e.id];
      var rh := ReadHeader(e.id);
      var h := rh.value;
      var out: Bytes := [];
      for i := 0 to h.blockCount
        invariant out == Plain(o.body, i)
      {
        var block := ReadBlock(e.id, h, i);
        out := out + block.value;
      }
      if |out| > e.size {
        out := out[..e.size];
      }
      return Ok(out);
    }

    /** A random read is the slice of the full read; every block it decrypts is below the header count. */
    method ReadRange(path: Path, off: nat, n: int) returns (r: Result<Bytes, StoreError>)
      requires Valid()
      ensures masterKey.None? ==> r == Err(Locked)
      ensures masterKey.Some? && path !in Contents() ==> r == Err(NotExist)
      ensures masterKey.Some? && path in Contents() && Contents()[path] == Dir ==> r == Err(IsDirectory)
      ensures masterKey.Some? && path in Contents() && Contents()[path] != Dir ==>
                && Contents()[path].File?
                && var data := Contents()[path].data;
                   r == Ok(if off >= |data| || n <= 0 then [] else data[off..Min(off + n, |data|)])
    {
      if masterKey.None? {
        return Err(Locked);
      }
      if path !in index {
        return Err(NotExist);
      }
      var e := index[path];
      if e.DirEntry? {
        return Err(IsDirectory);
      }
      assert BackedEntry(e, objects, treeKey, blockSize);
      ContentLength(objects[e.id], treeKey, e.size);
      if off >= e.size || n <= 0 {
        return Ok([]);
      }
      r := ReadObjectRange(e.id, e.size, off, if off + n > e.size then e.size else off + n);
    }

    /** Opens the header and decrypts only the blocks that [off, end) touches. */
    method ReadObjectRange(id: Id, size: nat, off: nat, end: nat) returns (r: Result<Bytes, StoreError>)
      requires masterKey.Some? && id in objects && Readable(objects[id], masterKey.value)
      requires Covers(objects[id], size) && off < end <= size
      ensures |Content(objects[id], size)| == size
      ensures r == Ok(Content(objects[id], size)[off..end])
    {
      ContentLength(objects[id], masterKey.value, size);
      var rh := ReadHeader(id);
      var h := rh.value;
      var first, last := BlockSpan(off, end, h.blockSize, h.blockCount);
      r := ReadBlocks(id, h, off, end, first, last);
      SliceOfCut(Plain(objects[id].body, h.blockCount), size, off, end);
    }

    /** The first and last block that a non-empty range touches; both lie below the header count. */
    method BlockSpan(off: nat, end: nat, bs: nat, count: nat) returns (first: nat, last: nat)
      requires 0 < bs && off < end <= count * bs
      ensures first <= last < count
      ensures first * bs <= off < (first + 1) * bs
      ensures last * bs < end <= (last + 1) * bs
    {
      first, last := off / bs, (end - 1) / bs;
      FirstLast(off, end, bs, count);
    }

    /** Collects [off, end) from the blocks it meets, intersecting the range with each block in turn. */
    method ReadBlocks(id: Id, h: Header, off: nat, end: nat, first: nat, last: nat)
      returns (r: Result<Bytes, StoreError>)
      requires masterKey.Some? && id in objects && Readable(objects[id], masterKey.value)
      requires h == Header(objects[id].blockSize, objects[id].dekWrap.plain, objects[id].blockCount)
      requires off < end <= |Plain(objects[id].body, h.blockCount)|
      requires first <= last < h.blockCount
      requires first * h.blockSize <= off && end <= (last + 1) * h.blockSize
      ensures r == Ok(Plain(objects[id].body, h.blockCount)[off..end])
    {
      ghost var plain := Plain(objects[id].body, h.blockCount);
      var out: Bytes := [];
      for i := first to last + 1
        invariant out == plain[off..RangeTo(off, end, i * h.blockSize)]
      {
        var part := ReadPart(id, h, i, off, end);
        out := out + part;
      }
      return Ok(out);
    }

    /** The part of block i that lies in [off, end). */
    method ReadPart(id: Id, h: Header, i: nat, off: nat, end: nat) returns (part: Bytes)
      requires masterKey.Some? && id in objects && Readable(objects[id], masterKey.value)
      requires h == Header(objects[id].blockSize, objects[id].dekWrap.plain, objects[id].blockCount)
      requires off < end <= |Plain(objects[id].body, h.blockCount)| && i < h.blockCount
      ensures var plain := Plain(objects[id].body, h.blockCount);
              plain[off..RangeTo(off, end, (i + 1) * h.blockSize)] ==
              plain[off..RangeTo(off, end, i * h.blockSize)] + part
    {
      ghost var plain := Plain(objects[id].body, h.blockCount);
      PlainSlice(objects[id].body, h.blockCount, h.blockSize, i);
      var block := ReadBlock(id, h, i);
      var bstart := i * h.blockSize;
      var bend := bstart + |block.value|;
      var from := if off < bstart then bstart else off;
      var to := if end > bend then bend else end;
      RangeStep(plain, off, end, bstart, bend);
      part := if from < to then block.value[from - bstart..to - bstart] else [];
    }

    // ---------- writing ----------

    /** A full write: a new object under a new data key, then the index; the old object is only queued for deletion. */
    method WriteFile(path: Path, data: Bytes, id: Id, dek: Key, now: int) returns (r: Result<(), StoreError>)
      requires Valid() && (masterKey.Some? ==> FreshId(id))
      modifies this`objects, this`index, this`dirty, this`pendingDel
      ensures Valid()
      ensures masterKey.None? ==> r == Err(Locked) && Untouched(old(index), old(objects), old(dirty), old(pendingDel))
      ensures masterKey.Some? ==>
                && r == Ok(()) && dirty
                && Contents() == Written(old(Contents()), path, data)
                && path in index && index[path] == FileEntry(id, |data|, now)
                && id in objects && objects[id].blockCount == Max(1, CeilDiv(|data|, blockSize))
                && (forall x :: x in old(objects) ==> x in objects && objects[x] == old(objects)[x])
                && pendingDel == if path in old(index) && old(index)[path].FileEntry?
                                 then old(pendingDel) + [old(index)[path].id] else old(pendingDel)
      ensures forall x :: old(FreshId(x)) && x != id ==> FreshId(x)
    {
      if masterKey.None? {
        return Err(Locked);
      }
      NewObject(data, id, dek);
      LinkedView(index, path, FileEntry(id, |data|, now), now, data, old(objects), objects, treeKey, blockSize);
      var previous := if path in index then Some(index[path]) else None;
      LinkEntry(path, FileEntry(id, |data|, now), now);
      dirty := true;
      if previous.Some? && previous.value.FileEntry? {
        pendingDel := pendingDel + [previous.value.id];
      }
      return Ok(());
    }

    /** The entry of a written file, and of its parent directory when a new name needs one. */
    method LinkEntry(path: Path, e: Entry, now: int)
      modifies this`index
      ensures index == Linked(old(index), path, e, now)
    {
      var previous := if path in index then Some(index[path]) else None;
      index := index[path := e];
      if previous.None? || previous.value.DirEntry? {
        var parent := Parent(path);
        if parent !in index && parent != "/" {
          index := index[parent := DirEntry(now)];
        }
      }
    }

    /**
     Appending: off a block boundary the file is rewritten as a whole; on one, new blocks go behind the counted ones,
     the header count commits them and the index size follows. The new blocks are counted from the header, not from
     the size, so the result is a concatenation exactly under AppendsCleanly.
     */
    method AppendFile(path: Path, data: Bytes, id: Id, dek: Key, now: int) returns (r: Result<nat, StoreError>)
      requires Valid() && (masterKey.Some? ==> FreshId(id))
      modifies this`objects, this`index, this`dirty, this`pendingDel
      ensures Valid()
      ensures masterKey.None? ==> r == Err(Locked)
      ensures masterKey.Some? && (path !in old(Contents()) || old(Contents())[path] == Dir) ==> r == Err(NotExist)
      ensures r.Err? ==> Untouched(old(index), old(objects), old(dirty), old(pendingDel))
      ensures masterKey.Some? && path in old(index) && old(index)[path].FileEntry? ==>
                && r.Ok?
                && BackedEntry(old(index)[path], old(objects), treeKey, blockSize)
                && var o, size := old(objects)[old(index)[path].id], old(index)[path].size;
                   && old(Contents())[path] == File(Content(o, size))
                   && Contents() == old(Contents())[path := File(Appended(o, size, data))]
                   && r.value == |Appended(o, size, data)|
                   && (AppendsCleanly(o, size) ==>
                         Contents() == old(Contents())[path := File(Content(o, size) + data)])
    {
      if masterKey.None? {
        return Err(Locked);
      }
      if path !in index || index[path].DirEntry? {
        return Err(NotExist);
      }
      var e := index[path];
      ghost var o := objects[e.id];
      assert BackedEntry(e, objects, treeKey, blockSize);
      ContentLength(o, treeKey, e.size);
      if AppendsCleanly(o, e.size) {
        AppendClean(o, treeKey, e.size, data);
      }
      if data == [] {
        assert Contents() == Contents()[path := File(Content(o, e.size))];
        return Ok(e.size);
      }
      if e.size % blockSize != 0 {
        var whole := ReadFile(path);
        var w := WriteFile(path, whole.value + data, id, dek, now);
        return Ok(|whole.value| + |data|);
      }
      ghost var stages;
      r, stages := AppendAligned(path, e, data, now);
    }

    /** The append in place; unless it stops early, its stages are the steps of the crash model. */
    method AppendAligned(path: Path, e: Entry, data: Bytes, now: int)
      returns (r: Result<nat, StoreError>, ghost stages: seq<Crash.State>)
      requires Valid() && masterKey.Some? && path in index && index[path] == e && e.FileEntry?
      requires data != [] && e.size % blockSize == 0
      modifies this`objects, this`index, this`dirty
      ensures Valid() && r.Ok?
      ensures BackedEntry(e, old(objects), treeKey, blockSize)
      ensures Contents() == old(Contents())[path := File(Appended(old(objects)[e.id], e.size, data))]
      ensures r.value == |Appended(old(objects)[e.id], e.size, data)|
      ensures stages != [] && stages[0] == old(Snap(Crash.Idle)) && stages[|stages| - 1] == Snap(Crash.Idle)
      ensures if CeilDiv(e.size + |data|, blockSize) <= old(objects)[e.id].blockCount then |stages| == 1
              else Crash.AppendStages(Crash.Config(treeKey, blockSize), path, data, now, stages)
    {
      ghost var o := objects[e.id];
      assert BackedEntry(e, objects, treeKey, blockSize);
      ContentLength(o, treeKey, e.size);
      var rh := ReadHeader(e.id);
      var h := rh.value;
      var needBlocks := (e.size + |data| + blockSize - 1) / blockSize;
      if needBlocks <= h.blockCount {
        assert Contents() == Contents()[path := File(Content(o, e.size))];
        return Ok(e.size), [Snap(Crash.Idle)];
      }
      stages := AppendBehind(path, e, h, data, needBlocks - h.blockCount, now);
      return Ok(e.size + |data|), stages;
    }

    /** The rest of the append once new blocks are needed. */
    method AppendBehind(path: Path, e: Entry, h: Header, data: Bytes, add: nat, now: int)
      returns (ghost stages: seq<Crash.State>)
      requires Valid() && masterKey.Some? && path in index && index[path] == e && e.FileEntry? && e.id in objects
      requires data != [] && e.size % blockSize == 0 && 0 < add
      requires h == Header(blockSize, objects[e.id].dekWrap.plain, objects[e.id].blockCount)
      requires h.blockCount + add == CeilDiv(e.size + |data|, blockSize)
      modifies this`objects, this`index, this`dirty
      ensures Valid() && BackedEntry(e, old(objects), treeKey, blockSize)
      ensures Contents() == old(Contents())[path := File(Appended(old(objects)[e.id], e.size, data))]
      ensures e.size + |data| == |Appended(old(objects)[e.id], e.size, data)|
      ensures |stages| == 5 && stages[0] == old(Snap(Crash.Idle)) && stages[4] == Snap(Crash.Idle)
      ensures Crash.AppendStages(Crash.Config(treeKey, blockSize), path, data, now, stages)
    {
      ghost var idle := Snap(Crash.Idle);
      ghost var begun := Snap(Crash.Appending(path, data, add));
      ghost var written := AppendAndGrow(path, e, h, data, add, now);
      ghost var counted := begun.(objects := objects, op := Crash.Counted(path, e.size + |data|));
      stages := [idle, begun, begun.(objects := written), counted, Snap(Crash.Idle)];
      Crash.AppendInStages(Crash.Config(treeKey, blockSize), idle, path, data, written[e.id].body, add, now);
    }

    /** The blocks, then the count, then the index; written is the object directory between the first two. */
    method AppendAndGrow(path: Path, e: Entry, h: Header, data: Bytes, add: nat, now: int)
      returns (ghost written: Objects)
      requires Valid() && masterKey.Some? && path in index && index[path] == e && e.FileEntry? && e.id in objects
      requires data != [] && e.size % blockSize == 0 && 0 < add
      requires h == Header(blockSize, objects[e.id].dekWrap.plain, objects[e.id].blockCount)
      requires h.blockCount + add == CeilDiv(e.size + |data|, blockSize)
      modifies this`objects, this`index, this`dirty
      ensures Valid() && dirty && BackedEntry(e, old(objects), treeKey, blockSize)
      ensures Contents() == old(Contents())[path := File(Appended(old(objects)[e.id], e.size, data))]
      ensures e.size + |data| == |Appended(old(objects)[e.id], e.size, data)|
      ensures e.id in written && written == Crash.TailBehind(old(objects), e.id, written[e.id].body)
      ensures objects == Crash.TailCounted(written, e.id, add) && Crash.TailWritten(written[e.id], data, add)
      ensures h.blockCount <= |written[e.id].body|
      ensures written[e.id].body[..h.blockCount] == old(objects)[e.id].body[..h.blockCount]
      ensures index == old(index)[path := FileEntry(e.id, e.size + |data|, now)]
    {
      assert BackedEntry(e, objects, treeKey, blockSize);
      written := AppendBlocks(e.id, h, e.size, data, add);
      GrowEntry(path, e, data, old(objects), now);
    }

    /** The index size follows the grown object. */
    method GrowEntry(path: Path, e: Entry, data: Bytes, ghost before: Objects, now: int)
      requires 0 < blockSize <= MAX_BLOCK_SIZE && (masterKey.Some? ==> masterKey.value == treeKey)
      requires Backed(index, before, treeKey, blockSize) && DistinctIds(index)
      requires forall id :: id in pendingDel ==> id !in Ids(index)
      requires path in index && index[path] == e && e.FileEntry? && e.id in before && e.id in objects
      requires data != [] && e.size % blockSize == 0
      requires objects == before[e.id := objects[e.id]] && Grown(before[e.id], objects[e.id])
      requires Readable(objects[e.id], treeKey) && before[e.id].blockCount < objects[e.id].blockCount
      requires objects[e.id].blockCount == CeilDiv(e.size + |data|, blockSize)
      requires Plain(objects[e.id].body, objects[e.id].blockCount) ==
               Plain(before[e.id].body, before[e.id].blockCount) +
               Fit(data, (objects[e.id].blockCount - before[e.id].blockCount) * blockSize)
      modifies this`index, this`dirty
      ensures Valid() && dirty && BackedEntry(e, before, treeKey, blockSize)
      ensures index == old(index)[path := FileEntry(e.id, e.size + |data|, now)]
      ensures Contents() == View(old(index), before, treeKey)[path := File(Appended(before[e.id], e.size, data))]
      ensures e.size + |data| == |Appended(before[e.id], e.size, data)|
    {
      var newSize := e.size + |data|;
      ghost var o' := objects[e.id];
      assert BackedEntry(e, before, treeKey, blockSize);
      ContentLength(before[e.id], treeKey, e.size);
      GrownView(index, before, e.id, o', treeKey, blockSize);
      CeilDivBounds(newSize, blockSize);
      index := index[path := FileEntry(e.id, newSize, now)];
      dirty := true;
      ResizedView(old(index), path, FileEntry(e.id, newSize, now), objects, treeKey, blockSize);
      ContentLength(o', treeKey, newSize);
    }

    /**
     Seals the new blocks behind the counted ones, then commits them by raising the header count; written is the object
     directory in between.
     */
    method AppendBlocks(id: Id, h: Header, size: nat, data: Bytes, add: nat) returns (ghost written: Objects)
      requires 0 < blockSize && masterKey.Some? && id in objects && Readable(objects[id], masterKey.value)
      requires objects[id].blockSize == blockSize && Covers(objects[id], size)
      requires h == Header(blockSize, objects[id].dekWrap.plain, objects[id].blockCount)
      requires 0 < add && h.blockCount + add == CeilDiv(size + |data|, blockSize)
      modifies this`objects
      ensures id in objects && objects == old(objects)[id := objects[id]]
      ensures Readable(objects[id], masterKey.value) && Grown(old(objects)[id], objects[id])
      ensures objects[id].blockCount == h.blockCount + add
      ensures Plain(objects[id].body, objects[id].blockCount) ==
              Plain(old(objects)[id].body, h.blockCount) + Fit(data, add * blockSize)
      ensures id in written && written == Crash.TailBehind(old(objects), id, written[id].body)
      ensures objects == Crash.TailCounted(written, id, add) && Crash.TailWritten(written[id], data, add)
      ensures h.blockCount <= |written[id].body|
      ensures written[id].body[..h.blockCount] == old(objects)[id].body[..h.blockCount]
    {
      AppendFits(size, |data|, blockSize, h.blockCount, add);
      WriteTail(id, h, data, add);
      written := objects;
      objects := objects[id := objects[id].(blockCount := h.blockCount + add)];
      CountedTail(old(objects)[id], written[id].body, data, add, masterKey.value);
    }

    /** The new blocks behind the counted ones, not yet counted. */
    method WriteTail(id: Id, h: Header, data: Bytes, add: nat)
      requires 0 < blockSize && id in objects && objects[id].blockSize == blockSize
      requires h == Header(blockSize, objects[id].dekWrap.plain, objects[id].blockCount)
      requires h.blockCount <= |objects[id].body| && 0 < add && (add - 1) * blockSize <= |data|
      modifies this`objects
      ensures id in objects && objects == Crash.TailBehind(old(objects), id, objects[id].body)
      ensures Crash.TailWritten(objects[id], data, add) && h.blockCount <= |objects[id].body|
      ensures objects[id].body[..h.blockCount] == old(objects)[id].body[..h.blockCount]
    {
      var o := objects[id];
      var sealed := SealBlocks(data, add, h.dek);
      SplicedTail(o, sealed, data);
      objects := objects[id := o.(body := Spliced(o.body, sealed, h.blockCount))];
    }

    ghost predicate Untouched(index0: Index, objects0: Objects, dirty0: bool, pending0: seq<Id>)
      reads this
    {
      index == index0 && objects == objects0 && dirty == dirty0 && pendingDel == pending0
    }

    method CopyFile(src: Path, dst: Path, id: Id, dek: Key, now: int) returns (r: Result<(), StoreError>)
      requires Valid() && (masterKey.Some? ==> FreshId(id))
      modifies this`objects, this`index, this`dirty, this`pendingDel
      ensures Valid()
      ensures masterKey.None? ==> r == Err(Locked)
      ensures masterKey.Some? && src !in old(Contents()) ==> r == Err(NotExist)
      ensures masterKey.Some? && src in old(Contents()) && old(Contents())[src] == Dir ==> r == Err(IsDirectory)
      ensures r.Err? ==> Untouched(old(index), old(objects), old(dirty), old(pendingDel))
      ensures masterKey.Some? && src in old(Contents()) && old(Contents())[src] != Dir ==>
                && r == Ok(()) && old(Contents())[src].File?
                && Contents() == Written(old(Contents()), dst, old(Contents())[src].data)
    {
      var data := ReadFile(src);
      if data.Err? {
        return Err(data.error);
      }
      r := WriteFile(dst, data.value, id, dek, now);
    }

    method Mkdir(path: Path, now: int) returns (r: Result<(), StoreError>)
      requires Valid()
      modifies this`index, this`dirty
      ensures Valid()
      ensures path in old(Contents()) ==>
                r == Err(AlreadyExists) && Untouched(old(index), old(objects), old(dirty), old(pendingDel))
      ensures path !in old(Contents()) ==>
                r == Ok(()) && dirty && Contents() == old(Contents())[path := Dir] && Relinked(old(index), index)
    {
      if path in index {
        return Err(AlreadyExists);
      }
      index := index[path := DirEntry(now)];
      dirty := true;
      return Ok(());
    }

    /** Touching an existing file only moves its timestamp; a missing one is written empty. */
    method Touch(path: Path, id: Id, dek: Key, now: int) returns (r: Result<(), StoreError>)
      requires Valid() && (masterKey.Some? ==> FreshId(id))
      modifies this`objects, this`index, this`dirty, this`pendingDel
      ensures Valid()
      ensures path in old(Contents()) && old(Contents())[path] == Dir ==>
                r == Err(IsDirectory) && Untouched(old(index), old(objects), old(dirty), old(pendingDel))
      ensures path in old(Contents()) && old(Contents())[path] != Dir ==>
                && r == Ok(()) && dirty && Contents() == old(Contents()) && objects == old(objects)
                && index[path].mtime == now && Relinked(old(index), index)
      ensures path !in old(Contents()) && masterKey.None? ==>
                r == Err(Locked) && Untouched(old(index), old(objects), old(dirty), old(pendingDel))
      ensures path !in old(Contents()) && masterKey.Some? ==>
                && r == Ok(()) && dirty && Contents() == Written(old(Contents()), path, [])
                && path in index && index[path] == FileEntry(id, 0, now)
                && id in objects && objects[id].blockCount == 1
      ensures forall x :: old(FreshId(x)) && x != id ==> FreshId(x)
    {
      if path in index {
        if index[path].DirEntry? {
          return Err(IsDirectory);
        }
        index := index[path := index[path].(mtime := now)];
        dirty := true;
        return Ok(());
      }
      r := WriteFile(path, [], id, dek, now);
      if masterKey.Some? {
        NoBlocksNeeded(blockSize);
      }
    }

    // ---------- removing and moving ----------

    /** Removing deletes the objects at once, before the index is durable; a directory goes with all below it. */
    method Remove(path: Path) returns (r: Result<(), StoreError>)
      requires Valid()
      modifies this`index, this`objects, this`dirty
      ensures Valid()
      ensures masterKey.None? ==> r == Err(Locked)
      ensures masterKey.Some? && path !in old(Contents()) ==> r == Err(NotExist)
      ensures r.Err? ==> Untouched(old(index), old(objects), old(dirty), old(pendingDel))
      ensures masterKey.Some? && path in old(Contents()) ==>
                && r == Ok(()) && dirty
                && Contents() == Removed(old(Contents()), path)
                && objects == old(objects) - (Ids(old(index)) - Ids(index))
    {
      if masterKey.None? {
        return Err(Locked);
      }
      if path !in index {
        return Err(NotExist);
      }
      var delIds := RemoveEntries(path);
      dirty := true;
      ObjectsDropped(index, objects, delIds, treeKey, blockSize);
      RemovedView(old(index), objects, path, treeKey);
      objects := objects - delIds;
      return Ok(());
    }

    /** The index without the path, and below a directory without everything under it. */
    method RemoveEntries(path: Path) returns (delIds: set<Id>)
      requires Valid() && path in index
      modifies this`index
      ensures Valid() && index == WithoutPath(old(index), path)
      ensures delIds == Ids(old(index)) - Ids(index)
    {
      var e := index[path];
      if e.FileEntry? {
        delIds := {e.id};
      } else {
        delIds := RemoveBelow(path);
      }
      index := index - {path};
      RemovedIds(old(index), index, delIds);
    }

    /** Drops every entry strictly below a directory and collects the objects of the files among them. */
    method RemoveBelow(path: Path) returns (delIds: set<Id>)
      requires path in index && index[path].DirEntry?
      modifies this`index
      ensures index == Kept(old(index), path, {})
      ensures delIds == set p | p in old(index) && p !in index && old(index)[p].FileEntry? :: old(index)[p].id
    {
      delIds := {};
      var todo := index.Keys;
      while todo != {}
        invariant todo <= old(index).Keys
        invariant index == Kept(old(index), path, todo)
        invariant delIds == set p | p in old(index) && p !in index && old(index)[p].FileEntry? :: old(index)[p].id
      {
        var p :| p in todo;
        todo := todo - {p};
        if path + "/" <= p {
          if index[p].FileEntry? {
            delIds := delIds + {index[p].id};
          }
          index := index - {p};
        }
      }
    }

    /**
     Moving renames index entries and touches no object, and no path outside source and destination. To a path outside
     the source the result is the moved tree exactly when the move is clean; onto itself a path is lost.
     */
    method Move(src: Path, dst: Path) returns (r: Result<(), StoreError>)
      requires Valid()
      modifies this`index, this`dirty
      ensures Valid()
      ensures src !in old(Contents()) ==>
                r == Err(NotExist) && Untouched(old(index), old(objects), old(dirty), old(pendingDel))
      ensures src in old(Contents()) ==>
                && r == Ok(()) && dirty && Relinked(old(index), index)
                && Contents() == MoveResult(old(Contents()), src, dst)
                && (src == dst ==> Contents() == Removed(old(Contents()), src))
      ensures src in old(Contents()) && !Within(dst, src) ==>
                (Contents() == Moved(old(Contents()), src, dst) <==> MovesCleanly(old(Contents()), src, dst))
      ensures forall q :: !Within(q, src) && !Within(q, dst) ==>
                            && (q in Contents() <==> q in old(Contents()))
                            && (q in Contents() ==> Contents()[q] == old(Contents())[q])
    {
      if src !in index {
        return Err(NotExist);
      }
      MoveFacts(Contents(), src, dst);
      MoveEntry(src, dst);
      dirty := true;
      return Ok(());
    }

    method MoveEntry(src: Path, dst: Path)
      requires Valid() && src in index
      modifies this`index
      ensures Valid() && Relinked(old(index), index) && Contents() == MoveResult(old(Contents()), src, dst)
    {
      var e := index[src];
      if e.FileEntry? {
        index := index[dst := e];
        index := index - {src};
      } else {
        MoveDirectory(src, dst, e);
      }
      RelinkedBacked(old(index), index, objects, treeKey, blockSize);
    }

    method MoveDirectory(src: Path, dst: Path, e: Entry)
      requires DistinctIds(index) && src in index && index[src] == e && e.DirEntry?
      modifies this`index
      ensures Relinked(old(index), index)
      ensures Contents() == MoveResult(old(Contents()), src, dst)
    {
      MoveBelow(src, dst);
      DirEntryRelinks(old(index), index, src, dst, e);
      DirectoryMoveView(old(index), objects, treeKey, src, dst);
      index := index[dst := e];
      index := index - {src};
    }

    /** Moves every entry strictly below src to the same place below dst, one after the other in sorted order. */
    method MoveBelow(src: Path, dst: Path)
      requires DistinctIds(index)
      modifies this`index
      ensures Relinked(old(index), index) && index == Settled(old(index), Below(old(index).Keys, src), src, dst)
    {
      var moved := Below(index.Keys, src);
      while moved != {}
        invariant forall p :: p in moved ==> p in index && src + "/" <= p
        invariant Relinked(old(index), index)
        invariant Settled(index, moved, src, dst) == Settled(old(index), Below(old(index).Keys, src), src, dst)
      {
        LeastExists(moved);
        var p :| Least(p, moved);
        TargetBelow(p, src, dst);
        SettledStep(index, moved, src, dst, p);
        RelinkedStep(old(index), index, p, Target(p, src, dst));
        moved := moved - {p};
        index := index[dst + "/" + p[|src| + 1..] := index[p]];
        index := index - {p};
      }
    }

    // ---------- the index file ----------

    /** Writing the index out; only then may the queued objects go. */
    method Flush() returns (r: Result<(), StoreError>)
      requires Valid()
      modifies this`indexFile, this`dirty, this`objects, this`pendingDel
      ensures Valid() && Contents() == old(Contents())
      ensures indexKey.None? ==> r == Err(IndexNotLoaded) && Untouched(index, old(objects), old(dirty), old(pendingDel))
      ensures indexKey.None? || !old(dirty) ==> indexFile == old(indexFile) && objects == old(objects)
      ensures indexKey.Some? ==> r == Ok(()) && !dirty
      ensures indexKey.Some? && old(dirty) ==>
                && indexFile == Some(Sealed(indexKey.value, index)) && pendingDel == []
                && objects == old(objects) - (set id | id in old(pendingDel))
    {
      if indexKey.None? {
        return Err(IndexNotLoaded);
      }
      if !dirty {
        return Ok(());
      }
      indexFile := Some(Sealed(indexKey.value, index));
      dirty := false;
      for i := 0 to |pendingDel|
        modifies this`objects
        invariant objects == old(objects) - (set id | id in pendingDel[..i])
      {
        objects := objects - {pendingDel[i]};
      }
      assert pendingDel[..|pendingDel|] == pendingDel;
      pendingDel := [];
      ViewSame(index, old(objects), objects, treeKey);
      BackedSame(index, old(objects), objects, treeKey, blockSize);
      return Ok(());
    }

    /** Deletes every object the index does not use. */
    method SweepOrphans()
      modifies this`objects
      ensures objects == map id | id in old(objects) && id in Ids(index) :: old(objects)[id]
    {
      var used := set p | p in index && index[p].FileEntry? :: index[p].id;
      var todo := objects.Keys;
      while todo != {}
        invariant todo <= old(objects).Keys
        invariant objects == map id | id in old(objects) && (id in todo || id in used) :: old(objects)[id]
      {
        var id :| id in todo;
        todo := todo - {id};
        if id !in used {
          objects := objects - {id};
        }
      }
    }

    /** A process that has queued nothing and whose index file fits the object directory it finds. */
    ghost predicate Restartable(found: Objects)
      reads this
    {
      && 0 < blockSize <= MAX_BLOCK_SIZE
      && (masterKey.Some? ==> masterKey.value == treeKey)
      && pendingDel == []
      && DistinctIds(StoredIndex(indexFile))
      && Backed(StoredIndex(indexFile), found, treeKey, blockSize)
    }

    /** Loading at unlock: unwrap the index key, open the index file if there is one, sweep the orphans. */
    method Load(mk: Key, wrap: Sealed<Key>) returns (r: Result<(), StoreError>)
      modifies this`indexKey, this`index, this`dirty, this`objects
      ensures wrap.key != mk ==>
                && r == Err(Corrupt) && indexKey == old(indexKey)
                && Untouched(old(index), old(objects), old(dirty), old(pendingDel))
      ensures wrap.key == mk ==>
                && indexKey == Some(wrap.plain) && !dirty
                && (r.Err? <==> indexFile.Some? && indexFile.value.key != wrap.plain)
                && (r.Err? ==> index == map[] && objects == old(objects))
      ensures r.Ok? ==>
                && index == StoredIndex(indexFile)
                && objects == (map id | id in old(objects) && id in Ids(index) :: old(objects)[id])
                && View(index, objects, treeKey) == View(StoredIndex(indexFile), old(objects), treeKey)
      ensures r.Ok? && Restartable(old(objects)) ==> Valid()
    {
      var indexDek := Open(mk, wrap);
      if indexDek.None? {
        return Err(Corrupt);
      }
      indexKey, index, dirty := indexDek, map[], false;
      if indexFile.Some? {
        var stored := Open(indexDek.value, indexFile.value);
        if stored.None? {
          return Err(Corrupt);
        }
        index := stored.value;
      }
      SweepOrphans();
      ViewSame(index, old(objects), objects, treeKey);
      if Backed(index, old(objects), treeKey, blockSize) {
        BackedSame(index, old(objects), objects, treeKey, blockSize);
      }
      return Ok(());
    }
  }

  lemma NoBlocksNeeded(bs: nat)
    requires bs > 0
    ensures CeilDiv(0, bs) == 0
  {
    NeedNone(0, 0, bs);
  }

  /** The first block appended to a touched file is lost: the append reports success and the file stays empty. */
  method TouchedFileLosesFirstBlock(s: Store, path: Path, data: Bytes, id: Id, dek: Key, id': Id, dek': Key, now: int)
    returns (touched: Result<(), StoreError>, appended: Result<nat, StoreError>)
    requires s.Valid() && s.masterKey.Some? && path !in s.Contents() && |data| <= s.blockSize
    requires s.FreshId(id) && s.FreshId(id') && id != id'
    modifies s
    ensures s.Valid() && touched == Ok(()) && appended == Ok(0)
    ensures path in s.Contents() && s.Contents()[path] == File([])
  {
    touched := s.Touch(path, id, dek, now);
    ghost var o := s.objects[id];
    assert BackedEntry(s.index[path], s.objects, s.treeKey, s.blockSize);
    AppendToEmptyFileIsLost(o, s.treeKey, data);
    appended := s.AppendFile(path, data, id', dek', now);
  }

  /** All but the last of the blocks added by an append are filled by its data. */
  lemma AppendFits(size: nat, len: nat, bs: nat, count: nat, add: nat)
    requires 0 < bs && size <= count * bs && 0 < add && count + add == CeilDiv(size + len, bs)
    ensures (add - 1) * bs <= len
  {
    CeilDivBounds(size + len, bs);
    assert (count + add) * bs == count * bs + (add - 1) * bs + bs;
  }

  /** The index a sealed index file holds; no file stands for the empty index. */
  function StoredIndex(file: Option<Sealed<Index>>): Index {
    if file.Some? then file.value.plain else map[]
  }

  lemma RemovedIds(index: Index, index': Index, delIds: set<Id>)
    requires DistinctIds(index) && index'.Keys <= index.Keys
    requires forall p :: p in index' ==> index'[p] == index[p]
    requires delIds == set p | p in index && p !in index' && index[p].FileEntry? :: index[p].id
    ensures DistinctIds(index') && delIds == Ids(index) - Ids(index')
  {
    forall id | id in delIds ensures id in Ids(index) && id !in Ids(index') {
    }
    forall id | id in Ids(index) && id !in Ids(index') ensures id in delIds {
      var p :| p in index && index[p].FileEntry? && index[p].id == id;
      assert p !in index';
    }
  }

  /** What is left when the entries below src have been dropped, but for those in todo. */
  ghost function Kept(index: Index, src: Path, todo: set<Path>): Index {
    map p | p in index && (p in todo || !(src + "/" <= p)) :: index[p]
  }

  ghost function WithoutPath(index: Index, path: Path): Index
    requires path in index
  {
    (if index[path].DirEntry? then Kept(index, path, {}) else index) - {path}
  }

  lemma RemovedView(index: Index, objects: Objects, path: Path, mk: Key)
    requires path in index
    ensures View(WithoutPath(index, path), objects, mk) == Removed(View(index, objects, mk), path)
  {
  }

  lemma ObjectsDropped(index: Index, objects: Objects, delIds: set<Id>, mk: Key, bs: nat)
    requires Backed(index, objects, mk, bs) && delIds !! Ids(index)
    ensures Backed(index, objects - delIds, mk, bs)
    ensures View(index, objects - delIds, mk) == View(index, objects, mk)
  {
    assert forall id :: id in Ids(index) ==> id !in delIds;
    BackedSame(index, objects, objects - delIds, mk, bs);
    ViewSame(index, objects, objects - delIds, mk);
  }

  /** Everything that holds of a move's result, for any source and destination. */
  lemma MoveFacts(t: Tree, src: Path, dst: Path)
    requires src in t
    ensures src == dst ==> MoveResult(t, src, dst) == Removed(t, src)
    ensures !Within(dst, src) ==> (MoveResult(t, src, dst) == Moved(t, src, dst) <==> MovesCleanly(t, src, dst))
    ensures forall q :: !Within(q, src) && !Within(q, dst) ==>
                          && (q in MoveResult(t, src, dst) <==> q in t)
                          && (q in t ==> MoveResult(t, src, dst)[q] == t[q])
  {
    MoveOntoItself(t, src);
    if !Within(dst, src) {
      MoveResultIff(t, src, dst);
    }
    forall q | !Within(q, src) && !Within(q, dst)
      ensures q in MoveResult(t, src, dst) <==> q in t
      ensures q in t ==> MoveResult(t, src, dst)[q] == t[q]
    {
      MoveFrame(t, src, dst, q);
    }
  }

  lemma RelinkedStep(start: Index, index: Index, p: Path, q: Path)
    requires Relinked(start, index) && p in index
    ensures Relinked(start, index[q := index[p]] - {p})
  {
    var next := index[q := index[p]] - {p};
    forall x | x in next && next[x].FileEntry? ensures IsFileOf(index, next[x]) {
      assert x == q || next[x] == index[x];
    }
    RelinkedTransitive(start, index, next);
  }

  lemma DirEntryRelinks(index: Index, index': Index, src: Path, dst: Path, e: Entry)
    requires Relinked(index, index') && e.DirEntry?
    ensures Relinked(index, index'[dst := e] - {src})
  {
  }

  function RangeTo(off: int, end: int, pos: int): int {
    Max(off, Min(end, pos))
  }

  lemma SliceOfCut(plain: Bytes, size: nat, off: nat, end: nat)
    requires off <= end <= size <= |plain|
    ensures Cut(plain, size)[off..end] == plain[off..end]
  {
  }

  method PaddedBlock(data: Bytes, start: nat, bs: nat) returns (block: Bytes)
    requires start <= |data|
    ensures |block| == bs
    ensures block == data[start..Min(start + bs, |data|)] + Zeros(bs - (Min(start + bs, |data|) - start))
  {
    var end := if start + bs > |data| then |data| else start + bs;
    block := data[start..end] + seq(bs - (end - start), _ => 0);
  }

  lemma SealStep(body: seq<Sealed<Bytes>>, data: Bytes, bs: nat, dek: Key, block: Bytes, start: nat)
    requires BlocksOfSize(body, |body|, bs) && start <= |data|
    requires Plain(body, |body|) == Fit(data, start)
    requires block == data[start..Min(start + bs, |data|)] + Zeros(bs - (Min(start + bs, |data|) - start))
    ensures var body', n := body + [Sealed(dek, block)], |body| + 1;
            BlocksOfSize(body', n, bs) && Plain(body', n) == Fit(data, start + bs)
  {
    PlainSnoc(body, Sealed(dek, block));
    FitStep(data, start, bs, block);
  }

  lemma PlainSnoc(body: seq<Sealed<Bytes>>, b: Sealed<Bytes>)
    ensures Plain(body + [b], |body| + 1) == Plain(body, |body|) + b.plain
  {
    PlainSame(body, body + [b], |body|);
  }

  /** Blocks written behind the counted ones, then counted. */
  lemma SplicedTail(o: Object, sealed: seq<Sealed<Bytes>>, data: Bytes)
    requires o.blockCount <= |o.body| && BlocksOfSize(sealed, |sealed|, o.blockSize)
    requires forall k :: 0 <= k < |sealed| ==> sealed[k].key == o.dekWrap.plain
    requires Plain(sealed, |sealed|) == Fit(data, |sealed| * o.blockSize)
    ensures var body := Spliced(o.body, sealed, o.blockCount);
            && Crash.TailWritten(o.(body := body), data, |sealed|)
            && o.blockCount <= |body| && body[..o.blockCount] == o.body[..o.blockCount]
  {
    var n, add := o.blockCount, |sealed|;
    var body := Spliced(o.body, sealed, n);
    SplicedParts(o.body, sealed, n);
    forall i | n <= i < n + add ensures body[i].key == o.dekWrap.plain && |body[i].plain| == o.blockSize {
      SplicedAt(o.body, body, sealed, n, i);
    }
    assert body[n..][..add] == sealed[..add];
    PlainSame(body[n..], sealed, add);
  }

  /** A written tail that is then counted. */
  lemma CountedTail(o: Object, body: seq<Sealed<Bytes>>, data: Bytes, add: nat, mk: Key)
    requires Readable(o, mk) && o.blockCount <= |body| && body[..o.blockCount] == o.body[..o.blockCount]
    requires Crash.TailWritten(o.(body := body), data, add)
    ensures var o' := o.(body := body, blockCount := o.blockCount + add);
            && Readable(o', mk) && Grown(o, o')
            && Plain(body, o.blockCount + add) == Plain(o.body, o.blockCount) + Fit(data, add * o.blockSize)
  {
    forall i | 0 <= i < o.blockCount
      ensures body[i].key == o.dekWrap.plain && |body[i].plain| == o.blockSize
    {
      assert body[i] == body[..o.blockCount][i] == o.body[i];
    }
    PlainSame(body, o.body, o.blockCount);
    PlainExtend(body, o.blockCount, o.blockCount + add);
  }

  /** A file after writing added at position n over whatever tail it had. */
  function Spliced<T>(body: seq<T>, added: seq<T>, n: nat): seq<T>
    requires n <= |body|
  {
    var written := body[..n] + added;
    if |written| < |body| then written + body[|written|..] else written
  }

  lemma SplicedParts<T>(body: seq<T>, added: seq<T>, n: nat)
    requires n <= |body|
    ensures var s := Spliced(body, added, n);
            n + |added| <= |s| && s[..n] == body[..n] && s[n..n + |added|] == added
  {
    var written := body[..n] + added;
    var s := Spliced(body, added, n);
    assert s[..|written|] == written;
    assert s[..n] == written[..n] == body[..n];
    assert s[n..n + |added|] == written[n..] == added;
  }

  lemma SplicedAt<T>(kept: seq<T>, body: seq<T>, added: seq<T>, n: nat, i: nat)
    requires n <= |kept| && i < n + |added| <= |body| && body[..n] == kept[..n] && body[n..n + |added|] == added
    ensures body[i] == if i < n then kept[i] else added[i - n]
  {
    if i < n {
      assert body[i] == body[..n][i];
    } else {
      assert body[i] == body[n..n + |added|][i - n];
    }
  }

  lemma FitStep(data: Bytes, start: nat, bs: nat, block: Bytes)
    requires start <= |data|
    requires block == data[start..Min(start + bs, |data|)] + Zeros(bs - (Min(start + bs, |data|) - start))
    ensures Fit(data, start + bs) == Fit(data, start) + block
  {
  }

  lemma SliceOfSlice<T>(s: seq<T>, a: nat, b: nat, from: nat, to: nat)
    requires a <= from <= to <= b <= |s|
    ensures s[a..b][from - a..to - a] == s[from..to]
  {
    var mid := s[a..b];
    var part := mid[from - a..to - a];
    assert |part| == to - from;
    forall i | 0 <= i < to - from ensures part[i] == s[from + i] {
      assert part[i] == mid[from - a + i];
    }
  }

  lemma JoinSlices<T>(s: seq<T>, a: nat, b: nat, c: nat)
    requires a <= b <= c <= |s|
    ensures s[a..b] + s[b..c] == s[a..c]
  {
  }

  lemma RangeStep(plain: Bytes, off: nat, end: nat, bstart: nat, bend: nat)
    requires off < end <= |plain| && bstart <= bend <= |plain|
    ensures var from, to := Max(off, bstart), Min(end, bend);
            plain[off..RangeTo(off, end, bend)] ==
            plain[off..RangeTo(off, end, bstart)] +
            if from < to then plain[bstart..bend][from - bstart..to - bstart] else []
  {
    var from, to := Max(off, bstart), Min(end, bend);
    if from < to {
      SliceOfSlice(plain, bstart, bend, from, to);
      JoinSlices(plain, off, from, to);
    } else {
      assert RangeTo(off, end, bend) == RangeTo(off, end, bstart);
      JoinSlices(plain, off, RangeTo(off, end, bstart), RangeTo(off, end, bstart));
      assert plain[RangeTo(off, end, bstart)..RangeTo(off, end, bstart)] == [];
    }
  }

  /** A non-empty range inside the counted blocks starts and ends in counted blocks. */
  lemma FirstLast(off: nat, end: nat, bs: nat, count: nat)
    requires 0 < bs && off < end <= count * bs
    ensures off / bs <= (end - 1) / bs < count
    ensures ((end - 1) / bs) * bs < end <= ((end - 1) / bs + 1) * bs
    ensures (off / bs) * bs <= off < (off / bs + 1) * bs
  {
    var last := (end - 1) / bs;
    assert end - 1 == last * bs + (end - 1) % bs;
    assert (last + 1) * bs == last * bs + bs;
    MulLtCancel(last, count, bs);
    assert off == (off / bs) * bs + off % bs;
    MulLtCancel(off / bs, last + 1, bs);
  }
}
