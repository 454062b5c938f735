/**
 Debounced persistence of the instance list, with the vault off: request threads change instances and mark the daemon
 dirty, a background loop and the shutdown path flush, and any thread may save directly. One step is one atomic action
 or one critical section; any number of threads interleave.
 */
module AutoSave {
  import opened Common

  type Uuid = nat

  type Config = nat

  /** An instance as last changed: how often it changed, and its configuration unless it is absent. */
  datatype Cell = Cell(version: nat, cfg: Option<Config>)

  type Cells = map<Uuid, Cell>

  function At(m: Cells, u: Uuid): Cell {
    if u in m then m[u] else Cell(0, None)
  }

  datatype Actor = Loop | Shutdown | Worker(tid: nat)

  /** Where an actor stands; remark says that its Save runs under FlushDirty, which re-marks on failure. */
  datatype Pc =
    | Idle
    | Changed(change: Change)
    | Locking(remark: bool)
    | Locked(remark: bool)
    | Reading(remark: bool, todo: set<Uuid>, got: Cells)
    | Writing(remark: bool, got: Cells)
    | Remarking
    | Exited

  /** The version that a change gave an instance. */
  datatype Change = Change(u: Uuid, version: nat)

  datatype Stage = Serving | Sealed | Drained | Stopping | Joined | Flushing | Flushed(ok: bool)

  datatype State = State(
    mem: Cells,
    disk: Cells,
    dirty: bool,
    saveMu: Option<Actor>,
    pcs: map<Actor, Pc>,
    requests: set<Actor>,
    stage: Stage,
    made: set<Change>,
    marked: set<Change>)

  datatype Label =
    | Enter(tid: nat)
    | Leave
    | Start(tid: nat)
    | Edit(u: Uuid, cfg: Option<Config>)
    | EditUnmarked(u: Uuid, newCfg: Config)
    | Mark
    | TryFlush
    | SaveDirectly
    | TakeLock
    | Snapshot
    | ReadOne(u: Uuid)
    | EndSnapshot
    | Rename
    | Fail
    | Remark
    | Seal
    | Drain
    | StopLoop
    | ExitLoop
    | JoinLoop

  function Present(m: Cells): set<Uuid> {
    set u | u in m && m[u].cfg.Some?
  }

  /** The daemon's list lock is held while a Save walks the instances. */
  ghost predicate ListLocked(s: State) {
    exists a :: a in s.pcs && s.pcs[a].Reading?
  }

  ghost predicate Next(s: State, a: Actor, l: Label, s': State) {
    match l
    // the request gate: entering is refused once sealed
    case Enter(tid) =>
      && a == Worker(tid) && a !in s.pcs && s.stage == Serving
      && s' == s.(pcs := s.pcs[a := Idle], requests := s.requests + {a})
    case Leave =>
      && a.Worker? && a in s.pcs && s.pcs[a] == Idle
      && s' == s.(pcs := s.pcs - {a}, requests := s.requests - {a})
    // a thread outside the gate: watchers and starts, which save directly
    case Start(tid) =>
      a == Worker(tid) && a !in s.pcs && s' == s.(pcs := s.pcs[a := Idle])
    // adding and removing take the list lock, updating takes the instance's own lock; an update of an instance that
    // has been removed meanwhile reaches nothing that is ever saved
    case Edit(u, cfg) =>
      && a.Worker? && a in s.pcs && s.pcs[a] == Idle
      && (ListLocked(s) ==> u in Present(s.mem) && cfg.Some?)
      && var c := Change(u, At(s.mem, u).version + 1);
         s' == s.(mem := s.mem[u := Cell(c.version, cfg)],
                  made := if a in s.requests then s.made + {c} else s.made,
                  pcs := s.pcs[a := Changed(c)])
    // starting an instance counts the start under the instance's lock, marks nothing, and saves directly afterwards
    case EditUnmarked(u, newCfg) =>
      && a.Worker? && a in s.pcs && s.pcs[a] == Idle && u in Present(s.mem)
      && s' == s.(mem := s.mem[u := Cell(s.mem[u].version + 1, Some(newCfg))])
    case Mark =>
      && a in s.pcs && s.pcs[a].Changed?
      && s' == s.(dirty := true, marked := s.marked + {s.pcs[a].change}, pcs := s.pcs[a := Idle])
    // FlushDirty: nothing to do unless the compare-and-swap takes the mark away
    case TryFlush =>
      && a in s.pcs && s.pcs[a] == Idle
      && (a == Loop || (a == Shutdown && s.stage == Joined))
      && if s.dirty then
           s' == s.(dirty := false, pcs := s.pcs[a := Locking(true)],
                    stage := if a == Shutdown then Flushing else s.stage)
         else
           s' == s.(stage := if a == Shutdown then Flushed(true) else s.stage)
    case SaveDirectly =>
      && a.Worker? && a in s.pcs && s.pcs[a] == Idle
      && s' == s.(pcs := s.pcs[a := Locking(false)])
    case TakeLock =>
      && a in s.pcs && s.pcs[a].Locking? && s.saveMu == None
      && s' == s.(saveMu := Some(a), pcs := s.pcs[a := Locked(s.pcs[a].remark)])
    // the list lock is taken: absent instances stay absent, the present ones are read one by one
    case Snapshot =>
      && a in s.pcs && s.pcs[a].Locked?
      && s' == s.(pcs := s.pcs[a := Reading(s.pcs[a].remark, Present(s.mem), s.mem)])
    case ReadOne(u) =>
      && a in s.pcs && s.pcs[a].Reading? && u in s.pcs[a].todo
      && var pc := s.pcs[a];
         s' == s.(pcs := s.pcs[a := Reading(pc.remark, pc.todo - {u}, pc.got[u := At(s.mem, u)])])
    case EndSnapshot =>
      && a in s.pcs && s.pcs[a].Reading? && s.pcs[a].todo == {}
      && s' == s.(pcs := s.pcs[a := Writing(s.pcs[a].remark, s.pcs[a].got)])
    case Rename =>
      && a in s.pcs && s.pcs[a].Writing?
      && s' == s.(disk := s.pcs[a].got, saveMu := None, pcs := s.pcs[a := Idle],
                  stage := if a == Shutdown then Flushed(true) else s.stage)
    case Fail =>
      && a in s.pcs && s.pcs[a].Writing?
      && s' == s.(saveMu := None, pcs := s.pcs[a := if s.pcs[a].remark then Remarking else Idle])
    case Remark =>
      && a in s.pcs && s.pcs[a] == Remarking
      && s' == s.(dirty := true, pcs := s.pcs[a := Idle],
                  stage := if a == Shutdown then Flushed(false) else s.stage)
    // the shutdown order: seal the gate, wait for it, stop the loop, join it, flush
    case Seal =>
      a == Shutdown && s.stage == Serving && s' == s.(stage := Sealed)
    case Drain =>
      a == Shutdown && s.stage == Sealed && s.requests == {} && s' == s.(stage := Drained)
    case StopLoop =>
      a == Shutdown && s.stage == Drained && s' == s.(stage := Stopping)
    case ExitLoop =>
      && a == Loop && a in s.pcs && s.pcs[a] == Idle && s.stage == Stopping
      && s' == s.(pcs := s.pcs[a := Exited])
    case JoinLoop =>
      && a == Shutdown && s.stage == Stopping && Loop in s.pcs && s.pcs[Loop] == Exited
      && s' == s.(stage := Joined)
  }

  /** The process starts with the list as it is on disk; without a debounce interval there is no loop. */
  ghost predicate Init(s: State) {
    && s.mem == s.disk && !s.dirty && s.saveMu == None && s.requests == {} && s.stage == Serving
    && s.made == {} && s.marked == {}
    && s.pcs.Keys == {Loop, Shutdown} && s.pcs[Shutdown] == Idle && (s.pcs[Loop] == Idle || s.pcs[Loop] == Exited)
  }

  // ---------- what is proved ----------

  ghost predicate OnDisk(s: State, c: Change) {
    At(s.disk, c.u).version >= c.version
  }

  /** A Save under FlushDirty that will write the change, or re-mark. */
  ghost predicate Carries(pc: Pc, c: Change) {
    match pc
    case Locking(remark) => remark
    case Locked(remark) => remark
    case Reading(remark, todo, got) => remark && (c.u in todo || At(got, c.u).version >= c.version)
    case Writing(remark, got) => remark && At(got, c.u).version >= c.version
    case Remarking => true
    case _ => false
  }

  ghost predicate InFlight(s: State, c: Change) {
    exists a :: a in s.pcs && Carries(s.pcs[a], c)
  }

  ghost predicate NotLost(s: State, c: Change) {
    OnDisk(s, c) || s.dirty || InFlight(s, c)
  }

  // ---------- the invariant ----------

  /** got is older than mem, cell by cell, and equal versions are equal cells. */
  ghost predicate Older(got: Cells, mem: Cells) {
    forall u :: At(got, u).version <= At(mem, u).version
                && (At(got, u).version == At(mem, u).version ==> At(got, u) == At(mem, u))
  }

  ghost predicate SaveInv(s: State) {
    && Older(s.disk, s.mem)
    && (forall a :: a in s.pcs && (s.pcs[a].Locked? || s.pcs[a].Reading? || s.pcs[a].Writing?) ==> s.saveMu == Some(a))
    && (forall a :: a in s.pcs && s.pcs[a].Reading? ==>
                      Older(s.disk, s.pcs[a].got) && Older(s.pcs[a].got, s.mem) && s.pcs[a].todo <= Present(s.mem))
    && (forall a :: a in s.pcs && s.pcs[a].Writing? ==> Older(s.disk, s.pcs[a].got) && Older(s.pcs[a].got, s.mem))
  }

  ghost predicate ChangeInv(s: State) {
    && (forall c :: c in s.marked || c in s.made ==> c.version <= At(s.mem, c.u).version)
    && (forall a :: a in s.pcs && s.pcs[a].Changed? ==> s.pcs[a].change.version <= At(s.mem, s.pcs[a].change.u).version)
    && (forall c :: c in s.made && c !in s.marked ==> Unmarked(s, c))
    && (forall c :: c in s.marked ==> NotLost(s, c))
  }

  /** The request that made the change has yet to mark it. */
  ghost predicate Unmarked(s: State, c: Change) {
    exists a :: a in s.requests && a in s.pcs && s.pcs[a] == Changed(c)
  }

  /** Only loop and shutdown path flush; the gate and the loop are quiet from the stages on that wait for them. */
  ghost predicate RoleInv(s: State) {
    && Loop in s.pcs && Shutdown in s.pcs
    && (forall a :: a in s.requests ==> a.Worker? && a in s.pcs)
    && (forall a :: a in s.pcs && a.Worker? ==> !Flushes(s.pcs[a]) && s.pcs[a] != Exited)
    && !s.pcs[Loop].Changed? && !s.pcs[Shutdown].Changed?
    && (s.stage == Serving || s.stage == Sealed || s.requests == {})
    && (s.stage == Joined || s.stage == Flushing || s.stage.Flushed? ==> s.pcs[Loop] == Exited)
    && (s.stage != Flushing ==> s.pcs[Shutdown] == Idle)
    && (s.stage == Flushing ==> Flushes(s.pcs[Shutdown]))
  }

  ghost predicate FinalInv(s: State)
    requires Shutdown in s.pcs
  {
    && (s.stage == Flushing ==> forall c :: c in s.made ==> Carries(s.pcs[Shutdown], c))
    && (s.stage == Flushed(true) ==> forall c :: c in s.made ==> OnDisk(s, c))
  }

  ghost predicate Flushes(pc: Pc) {
    match pc
    case Locking(remark) => remark
    case Locked(remark) => remark
    case Reading(remark, _, _) => remark
    case Writing(remark, _) => remark
    case Remarking => true
    case _ => false
  }

  ghost predicate Inv(s: State) {
    SaveInv(s) && ChangeInv(s) && RoleInv(s) && FinalInv(s)
  }

  // ---------- one step ----------

  lemma EditKeepsSaves(s: State, a: Actor, l: Label, s': State)
    requires SaveInv(s) && (l.Edit? || l.EditUnmarked?) && Next(s, a, l, s')
    ensures SaveInv(s')
  {
    assert Older(s.mem, s'.mem);
    OlderTransitive(s.disk, s.mem, s'.mem);
    forall x | x in s'.pcs && s'.pcs[x].Reading?
      ensures s'.pcs[x].todo <= Present(s'.mem) && Older(s'.pcs[x].got, s'.mem)
    {
      assert s.pcs[x].Reading? && ListLocked(s);
      assert s.pcs[x].todo <= Present(s.mem);
      OlderTransitive(s.pcs[x].got, s.mem, s'.mem);
    }
    forall x | x in s'.pcs && s'.pcs[x].Writing? ensures Older(s'.pcs[x].got, s'.mem) {
      OlderTransitive(s.pcs[x].got, s.mem, s'.mem);
    }
  }

  lemma OlderTransitive(a: Cells, b: Cells, c: Cells)
    requires Older(a, b) && Older(b, c)
    ensures Older(a, c)
  {
  }

  lemma ReadKeepsSaves(s: State, a: Actor, l: Label, s': State)
    requires SaveInv(s) && (l == Snapshot || l.ReadOne?) && Next(s, a, l, s')
    ensures SaveInv(s')
  {
    assert s.saveMu == Some(a);
    var got := s'.pcs[a].got;
    if l.ReadOne? {
      assert Older(s.pcs[a].got, s.mem) && Older(s.disk, s.pcs[a].got);
      assert forall u :: At(got, u) == if u == l.u then At(s.mem, u) else At(s.pcs[a].got, u);
    }
    assert Older(s.disk, got) && Older(got, s.mem);
  }

  lemma WriteKeepsSaves(s: State, a: Actor, l: Label, s': State)
    requires SaveInv(s) && (l == TakeLock || l == EndSnapshot || l == Rename || l == Fail) && Next(s, a, l, s')
    ensures SaveInv(s') && Older(s.disk, s'.disk)
  {
    assert l != TakeLock ==> s.saveMu == Some(a);
    assert forall x :: x in s'.pcs && x != a ==> s'.pcs[x] == s.pcs[x];
  }

  ghost predicate Saves(l: Label) {
    l == Snapshot || l.ReadOne? || l == TakeLock || l == EndSnapshot || l == Rename || l == Fail
  }

  /** Every other step leaves memory, disk and whoever holds the save lock alone. */
  lemma OtherKeepsSaves(s: State, a: Actor, l: Label, s': State)
    requires SaveInv(s) && !Saves(l) && !l.Edit? && !l.EditUnmarked? && Next(s, a, l, s')
    ensures SaveInv(s') && s'.disk == s.disk
  {
    assert s'.mem == s.mem && s'.disk == s.disk && s'.saveMu == s.saveMu;
    forall x | x in s'.pcs && (s'.pcs[x].Locked? || s'.pcs[x].Reading? || s'.pcs[x].Writing?)
      ensures x in s.pcs && s.pcs[x] == s'.pcs[x]
    {
    }
  }

  lemma SaveInvKept(s: State, a: Actor, l: Label, s': State)
    requires SaveInv(s) && Next(s, a, l, s')
    ensures SaveInv(s')
    ensures Older(s.disk, s'.disk)
  {
    if l.Edit? || l.EditUnmarked? {
      EditKeepsSaves(s, a, l, s');
      assert s'.disk == s.disk;
    } else if l == Snapshot || l.ReadOne? {
      ReadKeepsSaves(s, a, l, s');
      assert s'.disk == s.disk;
    } else if Saves(l) {
      WriteKeepsSaves(s, a, l, s');
    } else {
      OtherKeepsSaves(s, a, l, s');
    }
  }

  /** What carried a change before the step carries it afterwards, unless the step put it on disk or re-marked it. */
  lemma CarriedOn(s: State, a: Actor, l: Label, s': State, x: Actor, c: Change)
    requires Inv(s) && Next(s, a, l, s') && c.version <= At(s.mem, c.u).version
    requires x in s.pcs && Carries(s.pcs[x], c)
    ensures OnDisk(s', c) || s'.dirty || (x in s'.pcs && Carries(s'.pcs[x], c))
  {
    if x == a {
      CarrierMoves(s, a, l, s', c);
    } else {
      CarrierWaits(s, a, l, s', x, c);
    }
  }

  lemma CarrierWaits(s: State, a: Actor, l: Label, s': State, x: Actor, c: Change)
    requires Next(s, a, l, s') && x in s.pcs && x != a
    ensures x in s'.pcs && s'.pcs[x] == s.pcs[x]
  {
  }

  lemma CarrierMoves(s: State, a: Actor, l: Label, s': State, c: Change)
    requires SaveInv(s) && RoleInv(s) && Next(s, a, l, s') && c.version <= At(s.mem, c.u).version
    requires a in s.pcs && Carries(s.pcs[a], c)
    ensures OnDisk(s', c) || s'.dirty || (a in s'.pcs && Carries(s'.pcs[a], c))
  {
  }

  lemma NotLostKept(s: State, a: Actor, l: Label, s': State, c: Change)
    requires Inv(s) && Next(s, a, l, s') && c.version <= At(s.mem, c.u).version && NotLost(s, c)
    ensures NotLost(s', c)
  {
    if OnDisk(s, c) {
      SaveInvKept(s, a, l, s');
      assert At(s.disk, c.u).version <= At(s'.disk, c.u).version;
    } else if s.dirty {
      if !s'.dirty {
        assert l == TryFlush && a in s'.pcs && Carries(s'.pcs[a], c);
      }
    } else {
      var x :| x in s.pcs && Carries(s.pcs[x], c);
      CarriedOn(s, a, l, s', x, c);
    }
  }

  lemma UnmarkedKept(s: State, a: Actor, l: Label, s': State, c: Change)
    requires Inv(s) && Next(s, a, l, s') && Unmarked(s, c)
    ensures c in s'.marked || Unmarked(s', c)
  {
    var x :| x in s.requests && x in s.pcs && s.pcs[x] == Changed(c);
    assert (x == a && l == Mark) || (x in s'.requests && x in s'.pcs && s'.pcs[x] == Changed(c));
  }

  lemma VersionsGrow(s: State, a: Actor, l: Label, s': State)
    requires Next(s, a, l, s')
    ensures forall u :: At(s.mem, u).version <= At(s'.mem, u).version
  {
  }

  lemma RecordedVersions(s: State, a: Actor, l: Label, s': State, c: Change)
    requires ChangeInv(s) && Next(s, a, l, s') && (c in s'.marked || c in s'.made)
    ensures c.version <= At(s'.mem, c.u).version
  {
    VersionsGrow(s, a, l, s');
    if c !in s.marked && c !in s.made {
      assert l == Mark || l.Edit?;
      assert l == Mark ==> c == s.pcs[a].change;
    }
  }

  lemma PendingVersions(s: State, a: Actor, l: Label, s': State, x: Actor)
    requires ChangeInv(s) && Next(s, a, l, s') && x in s'.pcs && s'.pcs[x].Changed?
    ensures s'.pcs[x].change.version <= At(s'.mem, s'.pcs[x].change.u).version
  {
    VersionsGrow(s, a, l, s');
    if !l.Edit? || x != a {
      assert x in s.pcs && s.pcs[x] == s'.pcs[x];
    }
  }

  lemma VersionsKept(s: State, a: Actor, l: Label, s': State)
    requires Inv(s) && Next(s, a, l, s')
    ensures forall c :: c in s'.marked || c in s'.made ==> c.version <= At(s'.mem, c.u).version
    ensures forall x :: x in s'.pcs && s'.pcs[x].Changed? ==>
                          s'.pcs[x].change.version <= At(s'.mem, s'.pcs[x].change.u).version
  {
    forall c | c in s'.marked || c in s'.made ensures c.version <= At(s'.mem, c.u).version {
      RecordedVersions(s, a, l, s', c);
    }
    forall x | x in s'.pcs && s'.pcs[x].Changed?
      ensures s'.pcs[x].change.version <= At(s'.mem, s'.pcs[x].change.u).version
    {
      PendingVersions(s, a, l, s', x);
    }
  }

  lemma ChangeInvKept(s: State, a: Actor, l: Label, s': State)
    requires Inv(s) && Next(s, a, l, s')
    ensures ChangeInv(s')
  {
    VersionsKept(s, a, l, s');
    forall c | c in s'.made && c !in s'.marked ensures Unmarked(s', c) {
      MadeKept(s, a, l, s', c);
    }
    forall c | c in s'.marked ensures NotLost(s', c) {
      MarkedKept(s, a, l, s', c);
    }
  }

  lemma MadeKept(s: State, a: Actor, l: Label, s': State, c: Change)
    requires Inv(s) && Next(s, a, l, s') && c in s'.made
    ensures c in s'.marked || Unmarked(s', c)
  {
    if c in s.made {
      if Unmarked(s, c) {
        UnmarkedKept(s, a, l, s', c);
      }
    } else {
      assert a in s'.requests && a in s'.pcs && s'.pcs[a] == Changed(c);
    }
  }

  lemma MarkedKept(s: State, a: Actor, l: Label, s': State, c: Change)
    requires Inv(s) && Next(s, a, l, s') && c in s'.marked
    ensures NotLost(s', c)
  {
    if c in s.marked {
      NotLostKept(s, a, l, s', c);
    }
  }

  /** Once the gate is drained and the loop joined, a false flag means that every request's change is on disk. */
  lemma QuietMeansSaved(s: State, c: Change)
    requires Inv(s) && s.stage == Joined && !s.dirty && c in s.made
    ensures OnDisk(s, c)
  {
    assert c !in s.marked ==> Unmarked(s, c);
    if InFlight(s, c) {
      var x :| x in s.pcs && Carries(s.pcs[x], c);
      assert x.Worker? || x == Loop || x == Shutdown;
    }
  }

  ghost predicate StageLabel(l: Label) {
    l.Enter? || l.Leave? || l.Start? || l.Seal? || l.Drain? || l.StopLoop? || l.ExitLoop? || l.JoinLoop?
  }

  lemma RoleInvKept(s: State, a: Actor, l: Label, s': State)
    requires RoleInv(s) && Next(s, a, l, s')
    ensures RoleInv(s')
  {
    if StageLabel(l) {
      StageKeepsRoles(s, a, l, s');
    } else {
      WorkKeepsRoles(s, a, l, s');
    }
  }

  lemma StageKeepsRoles(s: State, a: Actor, l: Label, s': State)
    requires RoleInv(s) && StageLabel(l) && Next(s, a, l, s')
    ensures RoleInv(s')
  {
  }

  lemma WorkKeepsRoles(s: State, a: Actor, l: Label, s': State)
    requires RoleInv(s) && !StageLabel(l) && Next(s, a, l, s')
    ensures RoleInv(s')
  {
    OneActorMoves(s, a, l, s');
  }

  /** A working step moves its own actor, sets no one else's position and admits no one. */
  lemma OneActorMoves(s: State, a: Actor, l: Label, s': State)
    requires RoleInv(s) && !StageLabel(l) && Next(s, a, l, s')
    ensures a in s.pcs && s'.pcs.Keys == s.pcs.Keys && s'.requests == s.requests
    ensures forall x :: x in s.pcs && x != a ==> s'.pcs[x] == s.pcs[x]
    ensures a.Worker? ==> s'.stage == s.stage && !Flushes(s'.pcs[a]) && s'.pcs[a] != Exited
    ensures a == Loop ==> s'.stage == s.stage && (s.pcs[a] == Exited ==> s'.pcs[a] == Exited)
    ensures !a.Worker? ==> !s'.pcs[a].Changed? && s'.pcs[a] != Exited
    ensures a == Shutdown ==> (s.stage == Flushing || s.stage == Joined)
    ensures a == Shutdown ==> (s'.stage == Flushing || (s'.stage.Flushed? && s'.pcs[a] == Idle))
    ensures a == Shutdown && s'.stage == Flushing ==> Flushes(s'.pcs[a])
  {
  }

  lemma FinalInvKept(s: State, a: Actor, l: Label, s': State)
    requires Inv(s) && Next(s, a, l, s') && RoleInv(s')
    ensures FinalInv(s')
  {
    if s'.stage == Flushed(true) {
      forall c | c in s'.made ensures OnDisk(s', c) {
        if s.stage == Joined {
          QuietMeansSaved(s, c);
        } else if s.stage == Flushing {
          assert Carries(s.pcs[Shutdown], c);
        } else {
          SaveInvKept(s, a, l, s');
          assert At(s.disk, c.u).version <= At(s'.disk, c.u).version;
        }
      }
    }
    if s'.stage == Flushing {
      forall c | c in s'.made ensures Carries(s'.pcs[Shutdown], c) {
        FlushCarries(s, a, l, s', c);
      }
    }
  }

  lemma FlushCarries(s: State, a: Actor, l: Label, s': State, c: Change)
    requires Inv(s) && Next(s, a, l, s') && s'.stage == Flushing && c in s'.made
    ensures Shutdown in s'.pcs && Carries(s'.pcs[Shutdown], c)
  {
    assert s.stage == Flushing ==> Carries(s.pcs[Shutdown], c);
  }

  lemma StepKeeps(s: State, a: Actor, l: Label, s': State)
    requires Inv(s) && Next(s, a, l, s')
    ensures Inv(s')
  {
    SaveInvKept(s, a, l, s');
    ChangeInvKept(s, a, l, s');
    RoleInvKept(s, a, l, s');
    FinalInvKept(s, a, l, s');
  }

  // ---------- runs ----------

  ghost predicate Behaviour(states: seq<State>, actors: seq<Actor>, labels: seq<Label>) {
    && |states| == |labels| + 1 == |actors| + 1 && Init(states[0])
    && forall i :: 0 <= i < |labels| ==> Next(states[i], actors[i], labels[i], states[i + 1])
  }

  lemma {:induction false} Invariant(states: seq<State>, actors: seq<Actor>, labels: seq<Label>, n: nat)
    requires Behaviour(states, actors, labels) && n < |states|
    ensures Inv(states[n])
  {
    if n > 0 {
      Invariant(states, actors, labels, n - 1);
      StepKeeps(states[n - 1], actors[n - 1], labels[n - 1], states[n]);
    }
  }

  /** Under every interleaving, a marked change is on disk, or the flag is set, or a Save handling it is under way. */
  lemma NoMarkedChangeIsLost(states: seq<State>, actors: seq<Actor>, labels: seq<Label>, n: nat, c: Change)
    requires Behaviour(states, actors, labels) && n < |states| && c in states[n].marked
    ensures NotLost(states[n], c)
  {
    Invariant(states, actors, labels, n);
  }

  /** When the last flush of the shutdown returns without error, every change made by an admitted request is on disk. */
  lemma ShutdownSavesEveryRequest(states: seq<State>, actors: seq<Actor>, labels: seq<Label>, n: nat, c: Change)
    requires Behaviour(states, actors, labels) && n < |states|
    requires states[n].stage == Flushed(true) && c in states[n].made
    ensures OnDisk(states[n], c)
    ensures At(states[n].mem, c.u).version == c.version ==> At(states[n].disk, c.u) == At(states[n].mem, c.u)
  {
    Invariant(states, actors, labels, n);
  }

  /** FlushDirty returns without error: there was no mark, or its Save went through. */
  ghost predicate FlushReturns(s: State, a: Actor, l: Label) {
    (l == TryFlush && !s.dirty) || (l == Rename && a in s.pcs && Flushes(s.pcs[a]))
  }

  /** When FlushDirty returns without error, every marked change is on disk or a mark has been set again. */
  lemma FlushMeansSaved(states: seq<State>, actors: seq<Actor>, labels: seq<Label>, n: nat, c: Change)
    requires Behaviour(states, actors, labels) && n < |labels|
    requires FlushReturns(states[n], actors[n], labels[n]) && c in states[n].marked
    ensures OnDisk(states[n + 1], c) || states[n + 1].dirty
  {
    Invariant(states, actors, labels, n);
    assert Next(states[n], actors[n], labels[n], states[n + 1]);
    FlushStepSaves(states[n], actors[n], labels[n], states[n + 1], c);
  }

  lemma FlushStepSaves(s: State, a: Actor, l: Label, s': State, c: Change)
    requires SaveInv(s) && RoleInv(s) && NotLost(s, c) && Next(s, a, l, s') && FlushReturns(s, a, l)
    ensures OnDisk(s', c) || s'.dirty
  {
    if l == Rename {
      RenameSaves(s, a, s', c);
    } else if !OnDisk(s, c) {
      NothingInFlight(s, a, c);
    } else {
      assert s'.disk == s.disk;
    }
  }

  lemma NothingInFlight(s: State, a: Actor, c: Change)
    requires RoleInv(s) && a in s.pcs && s.pcs[a] == Idle && (a == Loop || (a == Shutdown && s.stage == Joined))
    ensures !InFlight(s, c)
  {
    forall x | x in s.pcs ensures !Carries(s.pcs[x], c) {
      if Carries(s.pcs[x], c) {
        assert Flushes(s.pcs[x]);
        FlushAlone(s, a, x);
      }
    }
  }

  lemma RenameSaves(s: State, a: Actor, s': State, c: Change)
    requires SaveInv(s) && RoleInv(s) && NotLost(s, c) && Next(s, a, Rename, s') && Flushes(s.pcs[a])
    ensures OnDisk(s', c) || s'.dirty
  {
    assert s'.disk == s.pcs[a].got && s'.dirty == s.dirty && Older(s.disk, s.pcs[a].got);
    if OnDisk(s, c) {
      assert At(s.disk, c.u).version <= At(s'.disk, c.u).version;
    } else if !s.dirty {
      var x :| x in s.pcs && Carries(s.pcs[x], c);
      FlushAlone(s, a, x);
    }
  }

  /** Whoever is about to flush, or to return from it, is the only one that flushes. */
  lemma FlushAlone(s: State, a: Actor, x: Actor)
    requires RoleInv(s) && x in s.pcs && Flushes(s.pcs[x]) && a in s.pcs
    requires (a == Loop && s.pcs[a] != Exited) || (a == Shutdown && s.stage == Joined) || Flushes(s.pcs[a])
    ensures x == a
  {
    assert !x.Worker? && (Flushes(s.pcs[a]) ==> !a.Worker?);
  }

  /** Saves never take the disk back to an older version of any instance. */
  lemma {:induction false} DiskNeverGoesBack(states: seq<State>, actors: seq<Actor>, labels: seq<Label>,
                                             m: nat, n: nat, u: Uuid)
    requires Behaviour(states, actors, labels) && m <= n < |states|
    ensures At(states[m].disk, u).version <= At(states[n].disk, u).version
  {
    if m < n {
      DiskNeverGoesBack(states, actors, labels, m, n - 1, u);
      Invariant(states, actors, labels, n - 1);
      SaveInvKept(states[n - 1], actors[n - 1], labels[n - 1], states[n]);
      assert Older(states[n - 1].disk, states[n].disk);
    }
  }
}
