/** The object directory of the encrypted store over runs with crashes: which objects there are, and when they go. */
module VaultLeaks {
  import opened Common
  import opened VaultObjects
  import opened VaultPaths
  import opened VaultIndex
  import opened VaultCrash

  /** Some file names the object, the operation under way is about to name or to queue it, or it waits for deletion. */
  ghost predicate Wanted(s: State, id: Id) {
    || id in Ids(s.index) || id in s.pendingDel || id in s.deleting
    || (s.op.Linking? && s.op.id == id) || (s.op.Queueing? && s.op.id == id)
  }

  ghost predicate NoWaste(s: State) {
    s.op == Loading || forall id :: id in s.objects ==> Wanted(s, id)
  }

  /** The load ends with every orphan swept, and no move lands on a file. */
  ghost predicate Careful(s: State, l: Label) {
    && (l == Ready ==> s.objects.Keys <= Ids(s.index))
    && (l.Relink? ==> Ids(s.index) <= Ids(l.index))
  }

  lemma LinkWastesNothing(c: Config, s: State, l: Label, s': State, id: Id)
    requires Next(c, s, l, s') && l.LinkObject? && Wanted(s, id)
    ensures Wanted(s', id)
  {
    if id in Ids(s.index) {
      var p :| p in s.index && s.index[p].FileEntry? && s.index[p].id == id;
      if p != s.op.path {
        assert p in s'.index && s'.index[p] == s.index[p];
      }
    } else if s.op.id == id {
      assert s.op.path in s'.index && s'.index[s.op.path] == FileEntry(id, s.op.size, l.now);
    }
  }

  lemma GrowWastesNothing(c: Config, s: State, l: Label, s': State, id: Id)
    requires Next(c, s, l, s') && l.GrowSize? && Wanted(s, id)
    ensures Wanted(s', id)
  {
    if id in Ids(s.index) {
      var p :| p in s.index && s.index[p].FileEntry? && s.index[p].id == id;
      assert p in s'.index && s'.index[p].FileEntry? && s'.index[p].id == id;
    }
  }

  lemma WastesNothing(c: Config, s: State, l: Label, s': State)
    requires Next(c, s, l, s') && Careful(s, l) && NoWaste(s)
    ensures NoWaste(s')
  {
    if s'.op != Loading && !l.Ready? {
      forall id | id in s'.objects ensures Wanted(s', id) {
        if l.LinkObject? {
          LinkWastesNothing(c, s, l, s', id);
        } else if l.GrowSize? {
          GrowWastesNothing(c, s, l, s', id);
        } else if !l.CreateObject? || id != l.id {
          assert Wanted(s, id);
        }
      }
    }
  }

  /**
   In every run in which each load sweeps the orphans and no move lands on a file, every object is one of a file, or of
   the operation under way, or waits for its deletion.
   */
  lemma {:induction false} NothingLeaks(c: Config, states: seq<State>, labels: seq<Label>, n: nat)
    requires Behaviour(c, states, labels) && n < |states|
    requires forall i :: 0 <= i < n ==> Careful(states[i], labels[i])
    ensures NoWaste(states[n])
  {
    if n > 0 {
      NothingLeaks(c, states, labels, n - 1);
      WastesNothing(c, states[n - 1], labels[n - 1], states[n]);
    }
  }

  /** Once a flush has deleted what was queued the objects are exactly those of the files. */
  lemma FlushLeavesTheFiles(c: Config, states: seq<State>, labels: seq<Label>, m: nat, n: nat)
    requires Behaviour(c, states, labels) && m < n < |states|
    requires forall i :: 0 <= i < n ==> Careful(states[i], labels[i])
    requires labels[m] == Flush && states[m].dirty && states[m].op == Idle
    requires forall i :: m < i < n ==> labels[i].DeleteOld?
    requires states[n].deleting == {}
    ensures states[n].objects.Keys == Ids(states[n].index) && states[n].disk == states[n].index
  {
    NothingLeaks(c, states, labels, n);
    Invariant(c, states, labels, n);
    Settled(c, states, labels, m, n);
    var s := states[n];
    forall id | id in Ids(s.index) ensures id in s.objects {
      var p :| p in s.index && s.index[p].FileEntry? && s.index[p].id == id;
      assert BackedEntry(s.index[p], s.objects, c.mk, c.bs);
    }
    forall id | id in s.objects ensures id in Ids(s.index) {
      assert Wanted(s, id);
    }
  }

  lemma {:induction false} Settled(c: Config, states: seq<State>, labels: seq<Label>, m: nat, n: nat)
    requires Behaviour(c, states, labels) && m < n < |states|
    requires labels[m] == Flush && states[m].dirty && states[m].op == Idle
    requires forall i :: m < i < n ==> labels[i].DeleteOld?
    ensures states[n].op == Idle && states[n].pendingDel == [] && states[n].disk == states[n].index
  {
    assert Next(c, states[n - 1], labels[n - 1], states[n]);
    if m + 1 < n {
      Settled(c, states, labels, m, n - 1);
    }
  }

  /** A move onto a file of another object leaves that object behind: nothing names it, and no flush deletes it. */
  lemma MoveOntoFileLeaks(c: Config, s: State, src: Path, dst: Path, s': State)
    requires Inv(c, s) && s.op == Idle && s.pendingDel == [] && s.deleting == {} && src != dst
    requires IsFile(s.index, src) && IsFile(s.index, dst)
    requires Next(c, s, Relink(s.index[dst := s.index[src]] - {src}), s')
    ensures s.index[dst].id in s'.objects && !Wanted(s', s.index[dst].id)
  {
    assert BackedEntry(s.index[dst], s.objects, c.mk, c.bs);
    forall p | p in s'.index && s'.index[p].FileEntry? ensures s'.index[p].id != s.index[dst].id {
      var q := if p == dst then src else p;
      assert s'.index[p] == s.index[q] && q != dst;
    }
  }
}
