/** The shutdown of the daemon never gets stuck: from every reachable state it can be brought to an end. */
module ShutdownEnds {
  import opened Common
  import opened AutoSave

  /** A step that begins nothing new: work under way goes on, and the shutdown takes its next stage. */
  predicate Finishing(a: Actor, l: Label) {
    match l
    case Enter(_) => false
    case Start(_) => false
    case Edit(_, _) => false
    case EditUnmarked(_, _) => false
    case SaveDirectly => false
    case TryFlush => a == Shutdown
    case _ => true
  }

  // ---------- whoever holds the save lock is at work under it ----------

  ghost predicate UnderLock(pc: Pc) {
    pc.Locked? || pc.Reading? || pc.Writing?
  }

  ghost predicate HolderWorks(s: State) {
    s.saveMu.Some? ==> s.saveMu.value in s.pcs && UnderLock(s.pcs[s.saveMu.value])
  }

  lemma HolderKept(s: State, a: Actor, l: Label, s': State)
    requires HolderWorks(s) && SaveInv(s) && Next(s, a, l, s')
    ensures HolderWorks(s')
  {
    if s.saveMu.Some? && s.saveMu.value != a {
      var h := s.saveMu.value;
      CarrierWaits(s, a, l, s', h, Change(0, 0));
      assert s'.saveMu == s.saveMu;
    }
  }

  lemma {:induction false} HolderWorksAlways(states: seq<State>, actors: seq<Actor>, labels: seq<Label>, n: nat)
    requires Behaviour(states, actors, labels) && n < |states|
    ensures HolderWorks(states[n])
  {
    if n > 0 {
      HolderWorksAlways(states, actors, labels, n - 1);
      Invariant(states, actors, labels, n - 1);
      HolderKept(states[n - 1], actors[n - 1], labels[n - 1], states[n]);
    }
  }

  // ---------- what is left to do ----------

  /** The steps one actor has left, at most, with so many instances to read. */
  ghost function Left(pc: Pc, instances: nat): nat {
    match pc
    case Exited => 0
    case Idle => 1
    case Changed(_) => 2
    case Remarking => 2
    case Writing(_, _) => 3
    case Reading(_, todo, _) => 4 + |todo|
    case Locked(_) => 5 + instances
    case Locking(_) => 6 + instances
  }

  ghost function Stages(stage: Stage): nat {
    match stage
    case Serving => 6
    case Sealed => 5
    case Drained => 4
    case Stopping => 3
    case Joined => 2
    case Flushing => 1
    case Flushed(_) => 0
  }

  ghost function AllLeft(pcs: map<Actor, Pc>, instances: nat): nat
    decreases |pcs|
  {
    if pcs == map[] then 0
    else
      var a :| a in pcs;
      Left(pcs[a], instances) + AllLeft(pcs - {a}, instances)
  }

  lemma {:induction false} AllLeftSplits(pcs: map<Actor, Pc>, a: Actor, instances: nat)
    requires a in pcs
    ensures AllLeft(pcs, instances) == Left(pcs[a], instances) + AllLeft(pcs - {a}, instances)
    decreases |pcs|
  {
    var b :| b in pcs && AllLeft(pcs, instances) == Left(pcs[b], instances) + AllLeft(pcs - {b}, instances);
    if b != a {
      AllLeftSplits(pcs - {b}, a, instances);
      AllLeftSplits(pcs - {a}, b, instances);
      assert pcs - {b} - {a} == pcs - {a} - {b};
    }
  }

  ghost function Rank(s: State): nat {
    Stages(s.stage) * (10 + |Present(s.mem)|) + AllLeft(s.pcs, |Present(s.mem)|)
  }

  /** A finishing step leaves the instances alone and brings its actor, or the shutdown, forward. */
  ghost predicate Forward(s: State, a: Actor, s': State) {
    var n := |Present(s.mem)|;
    && s'.mem == s.mem && a in s.pcs && Stages(s'.stage) <= Stages(s.stage)
    && s'.pcs - {a} == s.pcs - {a}
    && (s'.stage == s.stage ==> (if a in s'.pcs then Left(s'.pcs[a], n) else 0) < Left(s.pcs[a], n))
    && (s'.stage != s.stage ==> a in s'.pcs && Left(s'.pcs[a], n) < Left(s.pcs[a], n) + 10 + n
                                && Stages(s'.stage) < Stages(s.stage))
  }

  lemma StageForward(s: State, a: Actor, l: Label, s': State)
    requires RoleInv(s) && Next(s, a, l, s') && Finishing(a, l) && StageLabel(l)
    ensures Forward(s, a, s')
  {
  }

  lemma FlushForward(s: State, s': State)
    requires RoleInv(s) && Next(s, Shutdown, TryFlush, s') && !s.stage.Flushed?
    ensures Forward(s, Shutdown, s')
  {
  }

  lemma WorkGoesOn(s: State, a: Actor, l: Label, s': State)
    requires Next(s, a, l, s') && Finishing(a, l) && !StageLabel(l) && l != TryFlush
    ensures a in s.pcs && a in s'.pcs && Left(s'.pcs[a], |Present(s.mem)|) < Left(s.pcs[a], |Present(s.mem)|)
    ensures s'.mem == s.mem
    ensures s'.stage == s.stage || (a == Shutdown && s'.stage.Flushed?)
  {
    if l.ReadOne? {
      assert s'.pcs[a].todo == s.pcs[a].todo - {l.u};
    }
  }

  lemma WorkForward(s: State, a: Actor, l: Label, s': State)
    requires RoleInv(s) && Next(s, a, l, s') && Finishing(a, l) && !StageLabel(l) && l != TryFlush
    requires !s.stage.Flushed?
    ensures Forward(s, a, s')
  {
    WorkGoesOn(s, a, l, s');
    OneActorMoves(s, a, l, s');
    OthersStay(s.pcs, s'.pcs, a);
  }

  lemma OthersStay(pcs: map<Actor, Pc>, pcs': map<Actor, Pc>, a: Actor)
    requires pcs'.Keys == pcs.Keys && forall x :: x in pcs && x != a ==> pcs'[x] == pcs[x]
    ensures pcs' - {a} == pcs - {a}
  {
  }

  lemma FinishingDecreases(s: State, a: Actor, l: Label, s': State)
    requires Inv(s) && Next(s, a, l, s') && Finishing(a, l) && !s.stage.Flushed?
    ensures Rank(s') < Rank(s)
  {
    if StageLabel(l) {
      StageForward(s, a, l, s');
    } else if l == TryFlush {
      FlushForward(s, s');
    } else {
      WorkForward(s, a, l, s');
    }
    ForwardDecreases(s, a, s');
  }

  lemma ForwardDecreases(s: State, a: Actor, s': State)
    requires Forward(s, a, s')
    ensures Rank(s') < Rank(s)
  {
    var n := |Present(s.mem)|;
    AllLeftSplits(s.pcs, a, n);
    if a in s'.pcs {
      AllLeftSplits(s'.pcs, a, n);
    } else {
      assert s'.pcs - {a} == s'.pcs;
    }
    StagesFall(Stages(s.stage), Stages(s'.stage), 10 + n);
  }

  lemma StagesFall(k: nat, k': nat, w: nat)
    requires k' <= k
    ensures k' < k ==> k' * w + w <= k * w
  {
    if k' < k {
      assert (k' + 1) * w <= k * w;
    }
  }

  // ---------- never stuck ----------

  /** An actor in the middle of its work can go on, or waits for one that can. */
  lemma CanMove(s: State, a: Actor) returns (b: Actor, l: Label, s': State)
    requires Inv(s) && HolderWorks(s) && a in s.pcs && s.pcs[a] != Idle && s.pcs[a] != Exited
    ensures Next(s, b, l, s') && Finishing(b, l) && l != Fail && !l.TryFlush?
  {
    b := if s.pcs[a].Locking? && s.saveMu.Some? then s.saveMu.value else a;
    match s.pcs[b]
    case Changed(c) =>
      l := Mark;
      s' := s.(dirty := true, marked := s.marked + {c}, pcs := s.pcs[b := Idle]);
    case Locking(remark) =>
      l := TakeLock;
      s' := s.(saveMu := Some(b), pcs := s.pcs[b := Locked(remark)]);
    case Locked(remark) =>
      l := Snapshot;
      s' := s.(pcs := s.pcs[b := Reading(remark, Present(s.mem), s.mem)]);
    case Reading(remark, todo, got) =>
      if todo == {} {
        l := EndSnapshot;
        s' := s.(pcs := s.pcs[b := Writing(remark, got)]);
      } else {
        var u :| u in todo;
        l := ReadOne(u);
        s' := s.(pcs := s.pcs[b := Reading(remark, todo - {u}, got[u := At(s.mem, u)])]);
      }
    case Writing(remark, got) =>
      l := Rename;
      s' := s.(disk := got, saveMu := None, pcs := s.pcs[b := Idle],
               stage := if b == Shutdown then Flushed(true) else s.stage);
    case Remarking =>
      l := Remark;
      s' := s.(dirty := true, pcs := s.pcs[b := Idle], stage := if b == Shutdown then Flushed(false) else s.stage);
  }

  /** Before the last flush has ended there is always a finishing step, and one that does not fail. */
  lemma NeverStuck(s: State) returns (a: Actor, l: Label, s': State)
    requires Inv(s) && HolderWorks(s) && !s.stage.Flushed?
    ensures Next(s, a, l, s') && Finishing(a, l) && l != Fail
  {
    match s.stage
    case Serving =>
      a, l, s' := Shutdown, Seal, s.(stage := Sealed);
    case Sealed =>
      if s.requests == {} {
        a, l, s' := Shutdown, Drain, s.(stage := Drained);
      } else {
        var r :| r in s.requests;
        if s.pcs[r] == Idle {
          a, l, s' := r, Leave, s.(pcs := s.pcs - {r}, requests := s.requests - {r});
        } else {
          a, l, s' := CanMove(s, r);
        }
      }
    case Drained =>
      a, l, s' := Shutdown, StopLoop, s.(stage := Stopping);
    case Stopping =>
      if s.pcs[Loop] == Exited {
        a, l, s' := Shutdown, JoinLoop, s.(stage := Joined);
      } else if s.pcs[Loop] == Idle {
        a, l, s' := Loop, ExitLoop, s.(pcs := s.pcs[Loop := Exited]);
      } else {
        a, l, s' := CanMove(s, Loop);
      }
    case Joined =>
      a, l := Shutdown, TryFlush;
      s' := if s.dirty then s.(dirty := false, pcs := s.pcs[a := Locking(true)], stage := Flushing)
            else s.(stage := Flushed(true));
    case Flushing =>
      a, l, s' := CanMove(s, Shutdown);
  }

  // ---------- runs ----------

  /** A run, from any state on, of finishing steps. */
  ghost predicate Finishes(states: seq<State>, actors: seq<Actor>, labels: seq<Label>) {
    && |states| == |labels| + 1 == |actors| + 1
    && forall i :: 0 <= i < |labels| ==>
                     Next(states[i], actors[i], labels[i], states[i + 1]) && Finishing(actors[i], labels[i])
  }

  lemma FinishesFront(states: seq<State>, actors: seq<Actor>, labels: seq<Label>, n: nat)
    requires Finishes(states, actors, labels) && n <= |labels|
    ensures Finishes(states[..n + 1], actors[..n], labels[..n])
  {
  }

  lemma FinishesFirst(s: State, a: Actor, l: Label, states: seq<State>, actors: seq<Actor>, labels: seq<Label>)
    requires Finishes(states, actors, labels) && Next(s, a, l, states[0]) && Finishing(a, l)
    ensures Finishes([s] + states, [a] + actors, [l] + labels)
  {
  }

  /** Once nothing new begins, the shutdown is over after boundedly many steps, in whatever order they are taken. */
  lemma {:induction false} ShutdownIsBounded(states: seq<State>, actors: seq<Actor>, labels: seq<Label>)
    requires Finishes(states, actors, labels) && Inv(states[0])
    requires forall i :: 0 <= i < |labels| ==> !states[i].stage.Flushed?
    ensures Inv(states[|labels|]) && |labels| + Rank(states[|labels|]) <= Rank(states[0])
  {
    if labels != [] {
      var n := |labels| - 1;
      FinishesFront(states, actors, labels, n);
      ShutdownIsBounded(states[..n + 1], actors[..n], labels[..n]);
      FinishingDecreases(states[n], actors[n], labels[n], states[n + 1]);
      StepKeeps(states[n], actors[n], labels[n], states[n + 1]);
    }
  }

  /** Whatever has happened before the last flush failed, the shutdown can come to its end with that flush done. */
  lemma {:induction false} CanEnd(s: State) returns (states: seq<State>, actors: seq<Actor>, labels: seq<Label>)
    requires Inv(s) && HolderWorks(s) && s.pcs[Shutdown] != Remarking && s.stage != Flushed(false)
    ensures Finishes(states, actors, labels) && states[0] == s && states[|labels|].stage == Flushed(true)
    decreases Rank(s)
  {
    if s.stage.Flushed? {
      states, actors, labels := [s], [], [];
    } else {
      var a, l, s' := Onward(s);
      states, actors, labels := CanEnd(s');
      FinishesFirst(s, a, l, states, actors, labels);
      states, actors, labels := [s] + states, [a] + actors, [l] + labels;
    }
  }

  lemma Onward(s: State) returns (a: Actor, l: Label, s': State)
    requires Inv(s) && HolderWorks(s) && s.pcs[Shutdown] != Remarking && !s.stage.Flushed?
    ensures Next(s, a, l, s') && Finishing(a, l) && Rank(s') < Rank(s)
    ensures Inv(s') && HolderWorks(s') && s'.pcs[Shutdown] != Remarking && s'.stage != Flushed(false)
  {
    a, l, s' := NeverStuck(s);
    FinishingDecreases(s, a, l, s');
    StepKeeps(s, a, l, s');
    HolderKept(s, a, l, s');
    NoRemark(s, a, l, s');
  }

  lemma NoRemark(s: State, a: Actor, l: Label, s': State)
    requires RoleInv(s) && Next(s, a, l, s') && l != Fail && s.pcs[Shutdown] != Remarking && !s.stage.Flushed?
    requires Shutdown in s'.pcs
    ensures s'.pcs[Shutdown] != Remarking && s'.stage != Flushed(false)
  {
  }

  /** In every run, as long as the last flush has not failed, the shutdown can still end with everything saved. */
  lemma ShutdownCanEnd(before: seq<State>, movers: seq<Actor>, steps: seq<Label>, n: nat)
    returns (states: seq<State>, actors: seq<Actor>, labels: seq<Label>)
    requires Behaviour(before, movers, steps) && n < |before|
    requires before[n].stage != Flushed(false)
    requires Shutdown in before[n].pcs ==> before[n].pcs[Shutdown] != Remarking
    ensures Finishes(states, actors, labels) && states[0] == before[n]
    ensures var end := states[|labels|];
            end.stage == Flushed(true) && forall c :: c in end.made ==> OnDisk(end, c)
  {
    Invariant(before, movers, steps, n);
    HolderWorksAlways(before, movers, steps, n);
    states, actors, labels := CanEnd(before[n]);
    InvAtEnd(states, actors, labels);
  }

  lemma {:induction false} InvAtEnd(states: seq<State>, actors: seq<Actor>, labels: seq<Label>)
    requires Finishes(states, actors, labels) && Inv(states[0])
    ensures Inv(states[|labels|])
  {
    if labels != [] {
      var n := |labels| - 1;
      FinishesFront(states, actors, labels, n);
      InvAtEnd(states[..n + 1], actors[..n], labels[..n]);
      StepKeeps(states[n], actors[n], labels[n], states[n + 1]);
    }
  }
}
