/**
 Crash durability of the encrypted store. Foreground operations run one at a time and the index flush of the background
 loop runs between any two of their steps; a crash may come between any two steps and forgets everything but the index
 file and the object directory. Renames are atomic and a synced effect is durable before the next one starts.
 */
module VaultCrash {
  import opened Common
  import opened Sealing
  import opened VaultObjects
  import opened VaultPaths
  import opened VaultIndex

  datatype Config = Config(mk: Key, bs: nat)

  /** Where the foreground operation stands. */
  datatype Op =
    | Idle
    | Linking(path: Path, id: Id, size: nat)
    | Queueing(id: Id)
    | Appending(path: Path, data: Bytes, add: nat)
    | Counted(path: Path, size: nat)
    | Loading

  /** index, dirty, pendingDel, op and deleting die with the process; disk and objects survive it. */
  datatype State = State(
    index: Index,
    dirty: bool,
    pendingDel: seq<Id>,
    deleting: set<Id>,
    op: Op,
    disk: Index,
    objects: Objects)

  datatype Label =
    | CreateObject(path: Path, data: Bytes, id: Id, o: Object)
    | LinkObject(now: int)
    | QueueOld
    | StartAppend(path: Path, data: Bytes)
    | WriteTail(body: seq<Sealed<Bytes>>)
    | RaiseCount
    | GrowSize(now: int)
    | FailAppend
    | Relink(index: Index)
    | Flush
    | DeleteOld(id: Id)
    | Restart
    | Sweep(id: Id)
    | Ready

  const EMPTY := State(map[], false, [], {}, Idle, map[], map[])

  ghost predicate IsFile(index: Index, path: Path) {
    path in index && index[path].FileEntry?
  }

  /** The object of a file, once the path is known to be a file with an object. */
  ghost predicate HasObject(s: State, path: Path) {
    IsFile(s.index, path) && s.index[path].id in s.objects
  }

  ghost predicate FreshId(s: State, id: Id) {
    && id !in s.objects && id !in Ids(s.index) && id !in Ids(s.disk)
    && id !in s.pendingDel && id !in s.deleting
    && (s.op.Queueing? ==> id != s.op.id)
  }

  /** The blocks behind the counted ones are the appended data, sealed and padded. */
  ghost predicate TailWritten(o: Object, data: Bytes, add: nat) {
    && o.blockCount + add <= |o.body|
    && (forall i :: o.blockCount <= i < o.blockCount + add ==>
                      o.body[i].key == o.dekWrap.plain && |o.body[i].plain| == o.blockSize)
    && Plain(o.body[o.blockCount..], add) == Fit(data, add * o.blockSize)
  }

  ghost predicate Next(c: Config, s: State, l: Label, s': State) {
    match l
    // a new object is complete and synced before its rename makes it visible
    case CreateObject(path, data, id, o) =>
      && s.op == Idle && FreshId(s, id)
      && Readable(o, c.mk) && o.blockSize == c.bs && Covers(o, |data|) && Content(o, |data|) == data
      && s' == s.(objects := s.objects[id := o], op := Linking(path, id, |data|))
    case LinkObject(now) =>
      && s.op.Linking? && s.deleting == {}
      && s' == s.(
          index := Linked(s.index, s.op.path, FileEntry(s.op.id, s.op.size, now), now),
          dirty := true,
          op := if IsFile(s.index, s.op.path) then Queueing(s.index[s.op.path].id) else Idle)
    case QueueOld =>
      && s.op.Queueing? && s.deleting == {}
      && s' == s.(pendingDel := s.pendingDel + [s.op.id], op := Idle)
    // the in-place branch of an append: block-aligned size, new blocks counted from the header
    case StartAppend(path, data) =>
      && s.op == Idle && c.bs > 0 && data != [] && HasObject(s, path)
      && var e, count := s.index[path], s.objects[s.index[path].id].blockCount;
         && e.size % c.bs == 0 && count < CeilDiv(e.size + |data|, c.bs)
         && s' == s.(op := Appending(path, data, CeilDiv(e.size + |data|, c.bs) - count))
    // any part of the tail may have been written, torn blocks included
    case WriteTail(body) =>
      && s.op.Appending? && HasObject(s, s.op.path)
      && var id := s.index[s.op.path].id; var o := s.objects[id];
         && o.blockCount <= |body| && o.blockCount <= |o.body| && body[..o.blockCount] == o.body[..o.blockCount]
         && s' == s.(objects := s.objects[id := o.(body := body)])
    case RaiseCount =>
      && s.op.Appending? && HasObject(s, s.op.path)
      && var e := s.index[s.op.path]; var o := s.objects[e.id];
         && TailWritten(o, s.op.data, s.op.add)
         && s' == s.(objects := s.objects[e.id := o.(blockCount := o.blockCount + s.op.add)],
                     op := Counted(s.op.path, e.size + |s.op.data|))
    case GrowSize(now) =>
      && s.op.Counted? && s.deleting == {} && IsFile(s.index, s.op.path)
      && s' == s.(index := s.index[s.op.path := FileEntry(s.index[s.op.path].id, s.op.size, now)],
                  dirty := true, op := Idle)
    case FailAppend =>
      s.op.Appending? && s' == s.(op := Idle)
    // move, mkdir and touch change the index alone
    case Relink(index) =>
      && s.op == Idle && s.deleting == {} && Relinked(s.index, index)
      && s' == s.(index := index, dirty := true)
    // the rename publishes the index; the queued objects go one by one while the store lock is held
    case Flush =>
      && s.deleting == {} && s.op != Loading
      && s' == if s.dirty then s.(disk := s.index, dirty := false, pendingDel := [],
                                  deleting := set id | id in s.pendingDel)
               else s
    case DeleteOld(id) =>
      id in s.deleting && s' == s.(objects := s.objects - {id}, deleting := s.deleting - {id})
    // a crash and the load of a fresh process
    case Restart =>
      s' == State(s.disk, false, [], {}, Loading, s.disk, s.objects)
    case Sweep(id) =>
      s.op == Loading && id !in Ids(s.index) && s' == s.(objects := s.objects - {id})
    case Ready =>
      s.op == Loading && s' == s.(op := Idle)
  }

  // ---------- an append as steps ----------

  /** The states an append in place goes through: begun, tail written, header count raised, size grown. */
  ghost predicate AppendStages(c: Config, path: Path, data: Bytes, now: int, ss: seq<State>) {
    && |ss| == 5 && HasObject(ss[2], path)
    && Next(c, ss[0], StartAppend(path, data), ss[1])
    && Next(c, ss[1], WriteTail(ss[2].objects[ss[2].index[path].id].body), ss[2])
    && Next(c, ss[2], RaiseCount, ss[3])
    && Next(c, ss[3], GrowSize(now), ss[4])
  }

  /** The objects after the tail has been written, and after it has been counted. */
  ghost function TailBehind(objects: Objects, id: Id, body: seq<Sealed<Bytes>>): Objects
    requires id in objects
  {
    objects[id := objects[id].(body := body)]
  }

  ghost function TailCounted(objects: Objects, id: Id, add: nat): Objects
    requires id in objects
  {
    objects[id := objects[id].(blockCount := objects[id].blockCount + add)]
  }

  lemma AppendInStages(c: Config, s: State, path: Path, data: Bytes, body: seq<Sealed<Bytes>>, add: nat, now: int)
    requires c.bs > 0 && s.op == Idle && s.deleting == {} && data != [] && HasObject(s, path)
    requires s.index[path].size % c.bs == 0 && add > 0
    requires s.objects[s.index[path].id].blockCount + add == CeilDiv(s.index[path].size + |data|, c.bs)
    requires var o := s.objects[s.index[path].id];
             && o.blockCount <= |body| && o.blockCount <= |o.body| && body[..o.blockCount] == o.body[..o.blockCount]
             && TailWritten(o.(body := body), data, add)
    ensures var e := s.index[path];
            var size := e.size + |data|;
            var begun := s.(op := Appending(path, data, add));
            var written := begun.(objects := TailBehind(s.objects, e.id, body));
            var counted := written.(objects := TailCounted(written.objects, e.id, add), op := Counted(path, size));
            var grown := counted.(index := s.index[path := FileEntry(e.id, size, now)], dirty := true, op := Idle);
            AppendStages(c, path, data, now, [s, begun, written, counted, grown])
  {
  }

  // ---------- the invariant ----------

  ghost predicate Inv(c: Config, s: State) {
    && c.bs > 0
    && DistinctIds(s.index) && Backed(s.index, s.objects, c.mk, c.bs)
    && DistinctIds(s.disk) && Backed(s.disk, s.objects, c.mk, c.bs)
    && (!s.dirty ==> s.index == s.disk)
    && (forall id :: id in s.pendingDel ==> id !in Ids(s.index))
    && (forall id :: id in s.deleting ==> id !in Ids(s.index) && id !in Ids(s.disk))
    && OpInv(c, s)
  }

  ghost predicate OpInv(c: Config, s: State)
    requires c.bs > 0
  {
    match s.op
    case Idle => true
    case Linking(path, id, size) =>
      && BackedEntry(FileEntry(id, size, 0), s.objects, c.mk, c.bs)
      && id !in Ids(s.index) && id !in Ids(s.disk) && id !in s.pendingDel && id !in s.deleting
    case Queueing(id) => id !in Ids(s.index)
    case Appending(path, data, add) =>
      && HasObject(s, path) && add > 0 && s.index[path].size % c.bs == 0
      && s.objects[s.index[path].id].blockCount + add == CeilDiv(s.index[path].size + |data|, c.bs)
    case Counted(path, size) =>
      && HasObject(s, path) && Covers(s.objects[s.index[path].id], size)
      && s.index[path].size % c.bs == 0
      && s.index[path].size < s.objects[s.index[path].id].blockCount * c.bs
    case Loading => s.index == s.disk && s.pendingDel == [] && s.deleting == {} && !s.dirty
  }

  /** What a reader of a freshly loaded process would see. */
  ghost function Durable(c: Config, s: State): Tree {
    View(s.disk, s.objects, c.mk)
  }

  ghost function Live(c: Config, s: State): Tree {
    View(s.index, s.objects, c.mk)
  }

  /** Between two states no counted block was rewritten and no header count went down. */
  ghost predicate CountedBlocksKept(s: State, s': State) {
    forall id :: id in s.objects && id in s'.objects ==> Grown(s.objects[id], s'.objects[id])
  }

  ghost predicate ObjectsSane(s: State) {
    forall id :: id in s.objects ==> s.objects[id].blockCount <= |s.objects[id].body|
  }

  // ---------- one step ----------

  lemma DeletionStep(c: Config, s: State, id: Id, s': State)
    requires Inv(c, s) && id !in Ids(s.index) && id !in Ids(s.disk)
    requires s' == s.(objects := s.objects - {id}, deleting := s.deleting - {id})
    requires s.op.Linking? ==> s.op.id != id
    ensures Inv(c, s') && Durable(c, s') == Durable(c, s) && Live(c, s') == Live(c, s)
  {
    BackedSame(s.index, s.objects, s'.objects, c.mk, c.bs);
    BackedSame(s.disk, s.objects, s'.objects, c.mk, c.bs);
    ViewSame(s.disk, s.objects, s'.objects, c.mk);
    ViewSame(s.index, s.objects, s'.objects, c.mk);
    match s.op {
      case Appending(path, _, _) => assert s.index[path].id in Ids(s.index);
      case Counted(path, _) => assert s.index[path].id in Ids(s.index);
      case _ =>
    }
  }

  lemma CreateStep(c: Config, s: State, l: Label, s': State)
    requires Inv(c, s) && l.CreateObject? && Next(c, s, l, s')
    ensures Inv(c, s') && Durable(c, s') == Durable(c, s)
  {
    BackedSame(s.index, s.objects, s'.objects, c.mk, c.bs);
    BackedSame(s.disk, s.objects, s'.objects, c.mk, c.bs);
    ViewSame(s.disk, s.objects, s'.objects, c.mk);
  }

  lemma LinkStep(c: Config, s: State, l: Label, s': State)
    requires Inv(c, s) && l.LinkObject? && Next(c, s, l, s')
    ensures Inv(c, s') && Durable(c, s') == Durable(c, s)
    ensures Live(c, s') == Written(Live(c, s), s.op.path, Content(s.objects[s.op.id], s.op.size))
  {
    var e := FileEntry(s.op.id, s.op.size, l.now);
    LinkedView(s.index, s.op.path, e, l.now, Content(s.objects[s.op.id], s.op.size), s.objects, s.objects, c.mk, c.bs);
    if IsFile(s.index, s.op.path) {
      assert s.index[s.op.path].id in Ids(s.index);
    }
  }

  /** Replacing an object by a grown one keeps what both indexes read. */
  lemma GrowStep(c: Config, s: State, id: Id, o': Object)
    requires Inv(c, s) && id in s.objects && Readable(s.objects[id], c.mk) && Readable(o', c.mk)
    requires Grown(s.objects[id], o')
    ensures Backed(s.index, s.objects[id := o'], c.mk, c.bs) && Backed(s.disk, s.objects[id := o'], c.mk, c.bs)
    ensures View(s.disk, s.objects[id := o'], c.mk) == Durable(c, s)
    ensures View(s.index, s.objects[id := o'], c.mk) == Live(c, s)
  {
    GrownView(s.index, s.objects, id, o', c.mk, c.bs);
    GrownView(s.disk, s.objects, id, o', c.mk, c.bs);
  }

  lemma WriteTailStep(c: Config, s: State, l: Label, s': State)
    requires Inv(c, s) && l.WriteTail? && Next(c, s, l, s')
    ensures Inv(c, s') && Durable(c, s') == Durable(c, s) && Live(c, s') == Live(c, s)
    ensures CountedBlocksKept(s, s') || !ObjectsSane(s)
  {
    var id := s.index[s.op.path].id;
    var o := s.objects[id];
    assert BackedEntry(s.index[s.op.path], s.objects, c.mk, c.bs);
    forall i | 0 <= i < o.blockCount
      ensures l.body[i].key == o.dekWrap.plain && |l.body[i].plain| == o.blockSize
    {
      assert l.body[i] == l.body[..o.blockCount][i] == o.body[i];
    }
    GrowStep(c, s, id, o.(body := l.body));
  }

  lemma RaiseCountStep(c: Config, s: State, l: Label, s': State)
    requires Inv(c, s) && l.RaiseCount? && Next(c, s, l, s')
    ensures Inv(c, s') && Durable(c, s') == Durable(c, s) && Live(c, s') == Live(c, s)
    ensures CountedBlocksKept(s, s') || !ObjectsSane(s)
  {
    var e := s.index[s.op.path];
    var o := s.objects[e.id];
    assert BackedEntry(e, s.objects, c.mk, c.bs);
    GrowStep(c, s, e.id, o.(blockCount := o.blockCount + s.op.add));
    CeilDivBounds(e.size + |s.op.data|, c.bs);
    MulLe(o.blockCount + 1, o.blockCount + s.op.add, c.bs);
    assert (o.blockCount + 1) * c.bs == o.blockCount * c.bs + c.bs;
  }

  lemma GrowSizeStep(c: Config, s: State, l: Label, s': State)
    requires Inv(c, s) && l.GrowSize? && Next(c, s, l, s')
    ensures Inv(c, s') && Durable(c, s') == Durable(c, s)
  {
    var e := FileEntry(s.index[s.op.path].id, s.op.size, l.now);
    ResizedView(s.index, s.op.path, e, s.objects, c.mk, c.bs);
  }

  lemma RelinkStep(c: Config, s: State, l: Label, s': State)
    requires Inv(c, s) && l.Relink? && Next(c, s, l, s')
    ensures Inv(c, s') && Durable(c, s') == Durable(c, s)
  {
    RelinkedBacked(s.index, l.index, s.objects, c.mk, c.bs);
  }

  /** Every step keeps the invariant; only a flush changes what a restart would read, and it makes it the live tree. */
  lemma StepKeeps(c: Config, s: State, l: Label, s': State)
    requires Inv(c, s) && Next(c, s, l, s')
    ensures Inv(c, s')
    ensures Durable(c, s') == if l == Flush then Live(c, s) else Durable(c, s)
  {
    match l {
      case CreateObject(_, _, _, _) => CreateStep(c, s, l, s');
      case LinkObject(_) => LinkStep(c, s, l, s');
      case WriteTail(_) => WriteTailStep(c, s, l, s');
      case RaiseCount => RaiseCountStep(c, s, l, s');
      case GrowSize(_) => GrowSizeStep(c, s, l, s');
      case Relink(_) => RelinkStep(c, s, l, s');
      case DeleteOld(id) => DeletionStep(c, s, id, s');
      case Sweep(id) => DeletionStep(c, s, id, s');
      case StartAppend(path, data) =>
      case QueueOld =>
      case FailAppend =>
      case Flush =>
      case Restart =>
      case Ready =>
    }
  }

  // ---------- runs ----------

  ghost predicate Behaviour(c: Config, states: seq<State>, labels: seq<Label>) {
    && 0 < c.bs <= MAX_BLOCK_SIZE
    && |states| == |labels| + 1 && states[0] == EMPTY
    && forall i :: 0 <= i < |labels| ==> Next(c, states[i], labels[i], states[i + 1])
  }

  lemma {:induction false} Invariant(c: Config, states: seq<State>, labels: seq<Label>, n: nat)
    requires Behaviour(c, states, labels) && n < |states|
    ensures Inv(c, states[n])
  {
    if n > 0 {
      Invariant(c, states, labels, n - 1);
      StepKeeps(c, states[n - 1], labels[n - 1], states[n]);
    }
  }

  /** The tree as of the last flush before state n; the empty tree when there was none. */
  ghost function LastFlushed(c: Config, states: seq<State>, labels: seq<Label>, n: nat): Tree
    requires n < |states| == |labels| + 1
  {
    if n == 0 then map[]
    else if labels[n - 1] == Flush then Live(c, states[n - 1])
    else LastFlushed(c, states, labels, n - 1)
  }

  lemma DurableStep(c: Config, states: seq<State>, labels: seq<Label>, n: nat)
    requires Behaviour(c, states, labels) && n < |labels|
    requires Durable(c, states[n]) == LastFlushed(c, states, labels, n)
    ensures Durable(c, states[n + 1]) == LastFlushed(c, states, labels, n + 1)
  {
    Invariant(c, states, labels, n);
    StepKeeps(c, states[n], labels[n], states[n + 1]);
  }

  lemma {:induction false} DurableIsLastFlushed(c: Config, states: seq<State>, labels: seq<Label>, n: nat)
    requires Behaviour(c, states, labels) && n < |states|
    ensures Durable(c, states[n]) == LastFlushed(c, states, labels, n)
  {
    if n > 0 {
      DurableIsLastFlushed(c, states, labels, n - 1);
      DurableStep(c, states, labels, n - 1);
    }
  }

  /**
   In every run, at every point up to the first change after a restart, every path reads what it read at the last flush
   before the crash, and no file is broken.
   */
  lemma CrashDurability(c: Config, states: seq<State>, labels: seq<Label>, crash: nat, n: nat)
    requires Behaviour(c, states, labels) && crash < n < |states|
    requires labels[crash] == Restart
    requires forall i :: crash < i < n ==> labels[i].Sweep? || labels[i] == Ready
    ensures Live(c, states[n]) == LastFlushed(c, states, labels, crash)
    ensures forall p :: p in Live(c, states[n]) ==> Live(c, states[n])[p] != Broken
  {
    LoadedIndex(c, states, labels, crash, n);
    DurableIsLastFlushed(c, states, labels, n);
    SinceRestart(c, states, labels, crash, n);
    Invariant(c, states, labels, n);
    var s := states[n];
    forall p | p in Live(c, s) ensures Live(c, s)[p] != Broken {
      if s.index[p].FileEntry? {
        assert BackedEntry(s.index[p], s.objects, c.mk, c.bs);
      }
    }
  }

  lemma {:induction false} LoadedIndex(c: Config, states: seq<State>, labels: seq<Label>, crash: nat, n: nat)
    requires Behaviour(c, states, labels) && crash < n < |states| && labels[crash] == Restart
    requires forall i :: crash < i < n ==> labels[i].Sweep? || labels[i] == Ready
    ensures states[n].index == states[n].disk
  {
    assert Next(c, states[n - 1], labels[n - 1], states[n]);
    if n > crash + 1 {
      LoadedIndex(c, states, labels, crash, n - 1);
    }
  }

  lemma {:induction false} SinceRestart(c: Config, states: seq<State>, labels: seq<Label>, crash: nat, n: nat)
    requires Behaviour(c, states, labels) && crash < n < |states| && labels[crash] == Restart
    requires forall i :: crash < i < n ==> labels[i].Sweep? || labels[i] == Ready
    ensures LastFlushed(c, states, labels, n) == LastFlushed(c, states, labels, crash)
  {
    if n > crash + 1 {
      SinceRestart(c, states, labels, crash, n - 1);
    }
  }

  /** In every run a counted block is never rewritten for as long as its object exists. */
  lemma CountedBlocksNeverRewritten(c: Config, states: seq<State>, labels: seq<Label>, n: nat)
    requires Behaviour(c, states, labels) && n < |labels|
    ensures CountedBlocksKept(states[n], states[n + 1])
  {
    Sane(c, states, labels, n);
    Invariant(c, states, labels, n);
    var s, l, s' := states[n], labels[n], states[n + 1];
    assert Next(c, s, l, s');
    if l.WriteTail? {
      WriteTailStep(c, s, l, s');
    } else if l.RaiseCount? {
      RaiseCountStep(c, s, l, s');
    }
  }

  /**
   The guard of a clean append does fail in real runs: a crash after the header count was raised and before the grown
   size reached the index file leaves a file whose next append drops what fits the spare blocks.
   */
  lemma InterruptedAppendLeavesSpareBlocks(c: Config, s: State, s': State, data: Bytes)
    requires Inv(c, s) && s.op.Counted? && !s.dirty && Next(c, s, Restart, s')
    ensures HasObject(s', s.op.path)
    ensures var o, size := s'.objects[s'.index[s.op.path].id], s'.index[s.op.path].size;
            && Readable(o, c.mk) && !AppendsCleanly(o, size)
            && (size + |data| <= o.blockCount * c.bs ==> Appended(o, size, data) == Content(o, size))
  {
    var e := s'.index[s.op.path];
    assert BackedEntry(e, s'.objects, c.mk, c.bs);
    if e.size + |data| <= s'.objects[e.id].blockCount * c.bs {
      AppendDropped(s'.objects[e.id], c.mk, e.size, data);
    }
  }

  const SAMPLE: Path := "/f"

  function SampleBlock(bs: nat): Sealed<Bytes> {
    Sealed(Random(0), seq(bs, _ => 0))
  }

  /** A file of one full block, as a write leaves it. */
  function SampleObject(c: Config): Object {
    Object(c.bs, Sealed(c.mk, Random(0)), 1, [SampleBlock(c.bs)])
  }

  /** A file is written and flushed, then an append to it is cut off after its header count was raised. */
  function SampleLabels(c: Config): seq<Label> {
    [CreateObject(SAMPLE, seq(c.bs, _ => 0), 1, SampleObject(c)), LinkObject(0), Flush, StartAppend(SAMPLE, [7]),
     WriteTail(SampleTail(c)), RaiseCount, Restart]
  }

  function SampleTail(c: Config): seq<Sealed<Bytes>> {
    [SampleBlock(c.bs), Sealed(Random(0), [7] + seq(if c.bs > 0 then c.bs - 1 else 0, _ => 0))]
  }

  function SampleStates(c: Config): seq<State> {
    var o, index := SampleObject(c), map[SAMPLE := FileEntry(1, c.bs, 0)];
    var s1 := EMPTY.(objects := map[1 := o], op := Linking(SAMPLE, 1, c.bs));
    var s2 := s1.(index := index, dirty := true, op := Idle);
    var s3 := s2.(disk := index, dirty := false);
    var s4 := s3.(op := Appending(SAMPLE, [7], 1));
    var s5 := s4.(objects := map[1 := o.(body := SampleTail(c))]);
    var s6 := s5.(objects := map[1 := o.(body := SampleTail(c), blockCount := 2)], op := Counted(SAMPLE, c.bs + 1));
    [EMPTY, s1, s2, s3, s4, s5, s6, State(index, false, [], {}, Loading, index, s6.objects)]
  }

  lemma SampleCreated(c: Config)
    requires 0 < c.bs <= MAX_BLOCK_SIZE
    ensures var o := SampleObject(c); Readable(o, c.mk) && Content(o, c.bs) == seq(c.bs, _ => 0)
    ensures var ss, ls := SampleStates(c), SampleLabels(c);
            Next(c, ss[0], ls[0], ss[1]) && Next(c, ss[1], ls[1], ss[2]) && Next(c, ss[2], ls[2], ss[3])
  {
    var o := SampleObject(c);
    assert Plain(o.body, 0) == [];
    assert Plain(o.body, 1) == o.body[0].plain;
    assert Parent(SAMPLE) == "/";
  }

  lemma SampleAppended(c: Config)
    requires 0 < c.bs <= MAX_BLOCK_SIZE
    ensures var ss, ls := SampleStates(c), SampleLabels(c);
            && Next(c, ss[3], ls[3], ss[4]) && Next(c, ss[4], ls[4], ss[5]) && Next(c, ss[5], ls[5], ss[6])
            && Next(c, ss[6], ls[6], ss[7])
  {
    SampleNeed(c.bs);
    var o := SampleStates(c)[5].objects[1];
    assert SampleTail(c)[..1] == SampleObject(c).body[..1];
    assert o.body[1..][0] == o.body[1];
    assert Plain(o.body[1..], 0) == [];
    assert Plain(o.body[1..], 1) == o.body[1].plain;
  }

  lemma SampleNeed(bs: nat)
    requires bs > 0
    ensures CeilDiv(bs + 1, bs) == 2 && bs % bs == 0
  {
    NeedNew(1, 1, bs);
    NeedNone(2, bs + 1, bs);
  }

  /**
   A run from the empty store, for every block size, after which a file reads as before the append that was cut off,
   and the next append up to its spare block is dropped.
   */
  lemma InterruptedAppendHappens(c: Config, data: Bytes)
    requires 0 < c.bs <= MAX_BLOCK_SIZE && |data| <= c.bs
    ensures Behaviour(c, SampleStates(c), SampleLabels(c))
    ensures var s := SampleStates(c)[7];
            && HasObject(s, SAMPLE)
            && var o, size := s.objects[s.index[SAMPLE].id], s.index[SAMPLE].size;
               && Readable(o, c.mk) && !AppendsCleanly(o, size)
               && |Content(o, size)| == c.bs && Appended(o, size, data) == Content(o, size)
  {
    var ss, ls := SampleStates(c), SampleLabels(c);
    SampleCreated(c);
    SampleAppended(c);
    assert Behaviour(c, ss, ls);
    Invariant(c, ss, ls, 6);
    Invariant(c, ss, ls, 7);
    InterruptedAppendLeavesSpareBlocks(c, ss[6], ss[7], data);
    assert BackedEntry(ss[7].index[SAMPLE], ss[7].objects, c.mk, c.bs);
    ContentLength(ss[7].objects[1], c.mk, c.bs);
  }

  lemma {:induction false} Sane(c: Config, states: seq<State>, labels: seq<Label>, n: nat)
    requires Behaviour(c, states, labels) && n < |states|
    ensures ObjectsSane(states[n])
  {
    if n > 0 {
      Sane(c, states, labels, n - 1);
      assert Next(c, states[n - 1], labels[n - 1], states[n]);
    }
  }
}
