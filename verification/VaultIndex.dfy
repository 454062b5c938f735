/** The index of the encrypted store: logical paths to directories and objects, and the tree of files it stands for. */
module VaultIndex {
  import opened Common
  import opened Sealing
  import opened VaultObjects
  import opened VaultPaths

  type Id = nat

  datatype Entry = DirEntry(mtime: int) | FileEntry(id: Id, size: nat, mtime: int)

  type Index = map<Path, Entry>

  type Objects = map<Id, Object>

  /** What a reader finds at a path; Broken is a file whose object is missing or does not open. */
  datatype Node = Dir | File(data: Bytes) | Broken

  type Tree = map<Path, Node>

  ghost function NodeOf(e: Entry, objects: Objects, mk: Key): Node {
    if e.DirEntry? then Dir
    else if e.id in objects && Readable(objects[e.id], mk) then File(Content(objects[e.id], e.size))
    else Broken
  }

  /** The plain tree that an index and an object directory represent under the master key mk. */
  ghost function View(index: Index, objects: Objects, mk: Key): Tree {
    map p | p in index :: NodeOf(index[p], objects, mk)
  }

  ghost function Ids(index: Index): set<Id> {
    set p | p in index && index[p].FileEntry? :: index[p].id
  }

  ghost predicate DistinctIds(index: Index) {
    forall p, q :: p in index && q in index && index[p].FileEntry? && index[q].FileEntry? && index[p].id == index[q].id
                   ==> p == q
  }

  /** Every file of the index has a readable object of the store's block size, with blocks for its whole size. */
  ghost predicate Backed(index: Index, objects: Objects, mk: Key, bs: nat) {
    forall p :: p in index && index[p].FileEntry? ==> BackedEntry(index[p], objects, mk, bs)
  }

  ghost predicate BackedEntry(e: Entry, objects: Objects, mk: Key, bs: nat)
    requires e.FileEntry?
  {
    && e.id in objects
    && Readable(objects[e.id], mk)
    && objects[e.id].blockSize == bs
    && Covers(objects[e.id], e.size)
  }

  // ---------- the tree operations the store refines ----------

  /** Writing a file: the parent directory appears when a new name is written below a directory not yet listed. */
  ghost function Written(t: Tree, path: Path, data: Bytes): Tree {
    var t' := t[path := File(data)];
    if (path in t && t[path] != Dir) || Parent(path) == "/" || Parent(path) in t' then t'
    else t'[Parent(path) := Dir]
  }

  /** Removing a path: a directory goes with everything below it. */
  ghost function Removed(t: Tree, path: Path): Tree {
    if path in t && t[path] == Dir then map p | p in t && !Within(p, path) :: t[p] else t - {path}
  }

  /** Moving a path: a directory takes everything below it along; what it lands on is replaced. */
  ghost function Moved(t: Tree, src: Path, dst: Path): Tree
    requires src in t
  {
    if t[src] != Dir then t[dst := t[src]] - {src}
    else
      (map p | p in t && !Within(p, src) :: t[p]) +
      (map q | q in Landed(t.Keys, src, dst) && Within(q, dst) && Target(q, dst, src) in t :: t[Target(q, dst, src)])
  }

  /** Where the given entries at or below src land. */
  function Landed(keys: set<Path>, src: Path, dst: Path): set<Path> {
    set p | p in keys && Within(p, src) :: Target(p, src, dst)
  }

  /** What a move leaves, wherever it goes: what lies below a directory is renamed first, in sorted order. */
  ghost function MoveResult(t: Tree, src: Path, dst: Path): Tree
    requires src in t
  {
    if t[src] != Dir then t[dst := t[src]] - {src}
    else Settled(t, Below(t.Keys, src), src, dst)[dst := Dir] - {src}
  }

  /** index' only renames entries: each of its files is a file of index, object and size unchanged, none twice. */
  ghost predicate Relinked(index: Index, index': Index) {
    && DistinctIds(index')
    && forall p :: p in index' && index'[p].FileEntry? ==> IsFileOf(index, index'[p])
  }

  ghost predicate IsFileOf(index: Index, e: Entry)
    requires e.FileEntry?
  {
    exists q :: q in index && index[q].FileEntry? && index[q].id == e.id && index[q].size == e.size
  }

  lemma RelinkedTransitive(a: Index, b: Index, c: Index)
    requires Relinked(a, b) && Relinked(b, c)
    ensures Relinked(a, c)
  {
    forall p | p in c && c[p].FileEntry? ensures IsFileOf(a, c[p]) {
      assert IsFileOf(b, c[p]);
    }
  }

  /** Renaming keeps every file backed and uses no other object. */
  lemma RelinkedBacked(index: Index, index': Index, objects: Objects, mk: Key, bs: nat)
    requires Relinked(index, index') && Backed(index, objects, mk, bs)
    ensures Backed(index', objects, mk, bs) && Ids(index') <= Ids(index)
  {
    forall p | p in index' && index'[p].FileEntry?
      ensures BackedEntry(index'[p], objects, mk, bs) && index'[p].id in Ids(index)
    {
      assert IsFileOf(index, index'[p]);
      var q :| q in index && index[q].FileEntry? && index[q].id == index'[p].id && index[q].size == index'[p].size;
      assert BackedEntry(index[q], objects, mk, bs);
    }
  }

  /** The index after linking e at path, with the parent directory when a new name needs one. */
  function Linked(index: Index, path: Path, e: Entry, now: int): Index {
    var index' := index[path := e];
    if (path in index && index[path].FileEntry?) || Parent(path) == "/" || Parent(path) in index' then index'
    else index'[Parent(path) := DirEntry(now)]
  }

  datatype TreeOp =
    | Write(path: Path, data: Bytes)
    | Remove(path: Path)
    | Move(src: Path, dst: Path)
    | Mkdir(path: Path)

  ghost function Apply(t: Tree, op: TreeOp): Tree {
    match op
    case Write(path, data) => Written(t, path, data)
    case Remove(path) => Removed(t, path)
    case Move(src, dst) => if src in t then MoveResult(t, src, dst) else t
    case Mkdir(path) => if path in t then t else t[path := Dir]
  }

  ghost function Run(t: Tree, ops: seq<TreeOp>): Tree {
    if ops == [] then t else Apply(Run(t, ops[..|ops| - 1]), ops[|ops| - 1])
  }

  ghost predicate Concerns(op: TreeOp, q: Path) {
    match op
    case Write(path, _) => q == path || q == Parent(path)
    case Remove(path) => Within(q, path)
    case Move(src, dst) => Within(q, src) || Within(q, dst)
    case Mkdir(path) => q == path
  }

  /** Over any run, a path that no operation concerns reads at the end what it read at the start. */
  lemma {:induction false} UnrelatedPathKept(t: Tree, ops: seq<TreeOp>, q: Path)
    requires forall i :: 0 <= i < |ops| ==> !Concerns(ops[i], q)
    ensures q in Run(t, ops) <==> q in t
    ensures q in t ==> Run(t, ops)[q] == t[q]
  {
    if ops != [] {
      var front := ops[..|ops| - 1];
      UnrelatedPathKept(t, front, q);
      var before, op := Run(t, front), ops[|ops| - 1];
      assert !Concerns(op, q);
      if op.Move? && op.src in before && before[op.src] == Dir {
        SettledFrame(before, Below(before.Keys, op.src), op.src, op.dst, q);
      }
    }
  }

  // ---------- framing ----------

  /** Linking a new object at a path writes that path, whatever else the object directory gained. */
  lemma LinkedView(index: Index, path: Path, e: Entry, now: int, data: Bytes, a: Objects, b: Objects, mk: Key, bs: nat)
    requires Backed(index, a, mk, bs) && DistinctIds(index)
    requires forall id :: id in Ids(index) ==> id in b && b[id] == a[id]
    requires e.FileEntry? && e.id !in Ids(index) && BackedEntry(e, b, mk, bs) && Content(b[e.id], e.size) == data
    ensures View(Linked(index, path, e, now), b, mk) == Written(View(index, a, mk), path, data)
    ensures Backed(Linked(index, path, e, now), b, mk, bs) && DistinctIds(Linked(index, path, e, now))
    ensures Ids(Linked(index, path, e, now)) ==
            Ids(index) - (if path in index && index[path].FileEntry? then {index[path].id} else {}) + {e.id}
  {
    BackedSame(index, a, b, mk, bs);
    ViewSame(index, a, b, mk);
    LinkedTree(index, path, e, now, data, b, mk);
    LinkedBacked(index, path, e, now, b, mk, bs);
    LinkedIds(index, path, e, now);
  }

  lemma LinkedTree(index: Index, path: Path, e: Entry, now: int, data: Bytes, objects: Objects, mk: Key)
    requires e.FileEntry? && NodeOf(e, objects, mk) == File(data)
    ensures View(Linked(index, path, e, now), objects, mk) == Written(View(index, objects, mk), path, data)
  {
  }

  lemma LinkedBacked(index: Index, path: Path, e: Entry, now: int, objects: Objects, mk: Key, bs: nat)
    requires Backed(index, objects, mk, bs) && DistinctIds(index)
    requires e.FileEntry? && e.id !in Ids(index) && BackedEntry(e, objects, mk, bs)
    ensures Backed(Linked(index, path, e, now), objects, mk, bs) && DistinctIds(Linked(index, path, e, now))
  {
    var index' := Linked(index, path, e, now);
    forall p | p in index' && index'[p].FileEntry? ensures index'[p] == e || (p in index && index'[p] == index[p]) {
    }
    forall p | p in index && index[p].FileEntry? ensures index[p].id in Ids(index) {
    }
  }

  lemma LinkedIds(index: Index, path: Path, e: Entry, now: int)
    requires DistinctIds(index) && e.FileEntry?
    ensures Ids(Linked(index, path, e, now)) ==
            Ids(index) - (if path in index && index[path].FileEntry? then {index[path].id} else {}) + {e.id}
  {
    var index' := Linked(index, path, e, now);
    forall id | id in Ids(index) && (path in index && index[path].FileEntry? ==> id != index[path].id)
      ensures id in Ids(index')
    {
      var p :| p in index && index[p].FileEntry? && index[p].id == id;
      assert p in index' && index'[p] == index[p];
    }
    assert index'[path] == e;
  }

  lemma ViewSame(index: Index, a: Objects, b: Objects, mk: Key)
    requires forall id :: id in Ids(index) ==> (id in a <==> id in b) && (id in a ==> a[id] == b[id])
    ensures View(index, a, mk) == View(index, b, mk)
  {
    forall p | p in index ensures NodeOf(index[p], a, mk) == NodeOf(index[p], b, mk) {
      if index[p].FileEntry? {
        assert index[p].id in Ids(index);
      }
    }
  }

  lemma BackedSame(index: Index, a: Objects, b: Objects, mk: Key, bs: nat)
    requires Backed(index, a, mk, bs)
    requires forall id :: id in Ids(index) && id in a ==> id in b && a[id] == b[id]
    ensures Backed(index, b, mk, bs)
  {
    forall p | p in index && index[p].FileEntry? ensures BackedEntry(index[p], b, mk, bs) {
      assert index[p].id in Ids(index);
    }
  }

  /** Growing one object changes no file whose size the old blocks covered. */
  lemma GrownView(index: Index, a: Objects, id: Id, o': Object, mk: Key, bs: nat)
    requires Backed(index, a, mk, bs) && id in a && Readable(a[id], mk) && Readable(o', mk) && Grown(a[id], o')
    ensures View(index, a[id := o'], mk) == View(index, a, mk)
    ensures Backed(index, a[id := o'], mk, bs)
  {
    forall p | p in index && index[p].FileEntry?
      ensures BackedEntry(index[p], a[id := o'], mk, bs)
      ensures NodeOf(index[p], a[id := o'], mk) == NodeOf(index[p], a, mk)
    {
      assert BackedEntry(index[p], a, mk, bs);
      if index[p].id == id {
        GrownContent(a[id], o', mk, index[p].size);
      }
    }
  }

  /** Changing one file's size changes what that path reads and nothing else. */
  lemma ResizedView(index: Index, path: Path, e: Entry, objects: Objects, mk: Key, bs: nat)
    requires Backed(index, objects, mk, bs) && DistinctIds(index)
    requires path in index && index[path].FileEntry? && e.FileEntry? && e.id == index[path].id
    requires Covers(objects[e.id], e.size)
    ensures Backed(index[path := e], objects, mk, bs) && DistinctIds(index[path := e])
    ensures Ids(index[path := e]) == Ids(index)
    ensures View(index[path := e], objects, mk) ==
            View(index, objects, mk)[path := File(Content(objects[e.id], e.size))]
  {
    assert BackedEntry(index[path], objects, mk, bs);
    var index' := index[path := e];
    forall id | id in Ids(index) ensures id in Ids(index') {
      var p :| p in index && index[p].FileEntry? && index[p].id == id;
      assert p in index' && index'[p].FileEntry? && index'[p].id == id;
    }
    forall id | id in Ids(index') ensures id in Ids(index) {
      var p :| p in index' && index'[p].FileEntry? && index'[p].id == id;
      assert p in index && index[p].FileEntry? && index[p].id == id;
    }
  }
}
