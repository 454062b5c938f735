/** When a move leaves the moved tree: what the step by step renaming of a directory does, and its exact guard. */
module VaultMoves {
  import opened Common
  import opened Sealing
  import opened VaultObjects
  import opened VaultPaths
  import opened VaultIndex

  /** The guard of a directory move to outside itself: every entry below it lands clear. */
  ghost predicate MovesCleanly(t: Tree, src: Path, dst: Path) {
    src in t && (t[src] == Dir ==> LandClear(t.Keys, src, dst))
  }

  /** Between paths that do not lie within each other every move is clean. */
  lemma UnnestedMovesCleanly(t: Tree, src: Path, dst: Path)
    requires src in t && !Nested(src, dst)
    ensures MovesCleanly(t, src, dst)
  {
    forall q | q in t && src + "/" <= q ensures LandsClear(t.Keys, src, dst, q) {
      TargetInverse(q, src, dst);
      var l := Target(q, src, dst);
      if Within(l, src) {
        WithinBoth(l, src, dst);
      }
    }
  }

  /** Moving a directory up onto its parent loses the entry of its own name. */
  lemma MoveUpLosesNamesake(data: Bytes)
    ensures var t := map["/u/a" := Dir, "/u/a/a" := File(data)];
            && !Within("/u", "/u/a") && !MovesCleanly(t, "/u/a", "/u")
            && "/u/a" in Moved(t, "/u/a", "/u") && Moved(t, "/u/a", "/u")["/u/a"] == File(data)
            && "/u/a" !in MoveResult(t, "/u/a", "/u")
  {
    var t := map["/u/a" := Dir, "/u/a/a" := File(data)];
    var src, dst, q: Path := "/u/a", "/u", "/u/a/a";
    assert src + "/" <= q && Target(q, src, dst) == src;
    assert !LandsClear(t.Keys, src, dst, q);
    TargetInverse(q, src, dst);
    assert src in Landed(t.Keys, src, dst);
  }

  /** A move to outside the source leaves the moved tree exactly when it is clean. */
  lemma MoveResultIff(t: Tree, src: Path, dst: Path)
    requires src in t && !Within(dst, src)
    ensures MoveResult(t, src, dst) == Moved(t, src, dst) <==> MovesCleanly(t, src, dst)
  {
    if t[src] == Dir {
      if MovesCleanly(t, src, dst) {
        CleanMove(t, src, dst);
      } else {
        UncleanMove(t, src, dst);
      }
    }
  }

  lemma CleanMove(t: Tree, src: Path, dst: Path)
    requires src in t && t[src] == Dir && !Within(dst, src) && LandClear(t.Keys, src, dst)
    ensures MoveResult(t, src, dst) == Moved(t, src, dst)
  {
    var todo := Below(t.Keys, src);
    HalfMovedStart(t, src, dst);
    CleanlySettled(t, src, dst, todo);
    forall x
      ensures x in MoveResult(t, src, dst) <==> x in Moved(t, src, dst)
      ensures x in MoveResult(t, src, dst) ==> MoveResult(t, src, dst)[x] == Moved(t, src, dst)[x]
    {
      CleanMoveAt(t, src, dst, x);
    }
  }

  lemma CleanMoveAt(t: Tree, src: Path, dst: Path, x: Path)
    requires src in t && t[src] == Dir && !Within(dst, src) && LandClear(t.Keys, src, dst)
    ensures var done := HalfMoved(t, src, dst, {})[dst := Dir] - {src};
            (x in done <==> x in Moved(t, src, dst)) && (x in done ==> done[x] == Moved(t, src, dst)[x])
  {
    HalfMovedAt(t, src, dst, {}, x);
    MovedAt(t, src, dst, x);
    assert x == dst ==> Target(x, dst, src) == src;
    if x == src && Within(x, dst) && Target(x, dst, src) in t {
      TargetInverse(x, dst, src);
      TargetBelow(x, dst, src);
      assert false;
    }
  }

  /** After an unclean move some name is missing that the moved tree has, whatever the files hold. */
  lemma UncleanMove(t: Tree, src: Path, dst: Path)
    requires src in t && t[src] == Dir && !Within(dst, src) && !LandClear(t.Keys, src, dst)
    ensures exists l :: l in Moved(t, src, dst) && l !in MoveResult(t, src, dst)
  {
    var todo := Below(t.Keys, src);
    GoneAtLast(t.Keys, t, src, dst, todo);
    var q :| q in t && src + "/" <= q && !LandsClear(t.Keys, src, dst, q);
    var l := Target(q, src, dst);
    TargetInverse(q, src, dst);
    TargetBelow(q, src, dst);
    MovedAt(t, src, dst, l);
    assert l in Moved(t, src, dst);
    if l != src {
      BeforeTotal(l, q);
      assert l !in Settled(t, todo, src, dst) || LandedLater(src, dst, l);
    }
    assert l !in MoveResult(t, src, dst);
  }

  lemma MovedAt(t: Tree, src: Path, dst: Path, x: Path)
    requires src in t && t[src] == Dir
    ensures var landed := Within(x, dst) && Target(x, dst, src) in t;
            && (x in Moved(t, src, dst) <==> landed || (x in t && !Within(x, src)))
            && (landed ==> Moved(t, src, dst)[x] == t[Target(x, dst, src)])
            && (!landed && x in Moved(t, src, dst) ==> Moved(t, src, dst)[x] == t[x])
  {
    if Within(x, dst) && Target(x, dst, src) in t {
      TargetInverse(x, dst, src);
      assert x in Landed(t.Keys, src, dst);
    }
  }

  /** Moving a path onto itself removes it, and a directory with everything below it. */
  lemma MoveOntoItself(t: Tree, src: Path)
    requires src in t
    ensures MoveResult(t, src, src) == Removed(t, src)
  {
    if t[src] == Dir {
      SettledOntoItself(t, Below(t.Keys, src), src);
    }
  }

  /** No move touches a path outside its source and its destination. */
  lemma MoveFrame(t: Tree, src: Path, dst: Path, q: Path)
    requires src in t && !Within(q, src) && !Within(q, dst)
    ensures q in MoveResult(t, src, dst) <==> q in t
    ensures q in t ==> MoveResult(t, src, dst)[q] == t[q]
  {
    if t[src] == Dir {
      SettledFrame(t, Below(t.Keys, src), src, dst, q);
    }
  }

  /** Renaming index entries is renaming the nodes they stand for. */
  lemma {:induction false} SettledView(index: Index, objects: Objects, mk: Key, todo: set<Path>, src: Path, dst: Path)
    requires forall p :: p in todo ==> p in index && src + "/" <= p
    ensures View(Settled(index, todo, src, dst), objects, mk) == Settled(View(index, objects, mk), todo, src, dst)
    decreases todo
  {
    if todo != {} {
      LeastExists(todo);
      var p :| Least(p, todo);
      var t := View(index, objects, mk);
      SettledStep(index, todo, src, dst, p);
      SettledStep(t, todo, src, dst, p);
      RenamedView(index, objects, mk, src, dst, p);
      SettledView(Renamed(index, src, dst, p), objects, mk, todo - {p}, src, dst);
    }
  }

  lemma RenamedView(index: Index, objects: Objects, mk: Key, src: Path, dst: Path, p: Path)
    requires p in index && src + "/" <= p
    ensures View(Renamed(index, src, dst, p), objects, mk) == Renamed(View(index, objects, mk), src, dst, p)
  {
  }

  lemma DirectoryMoveView(index: Index, objects: Objects, mk: Key, src: Path, dst: Path)
    requires src in index && index[src].DirEntry?
    ensures View(Settled(index, Below(index.Keys, src), src, dst)[dst := index[src]] - {src}, objects, mk) ==
            MoveResult(View(index, objects, mk), src, dst)
  {
    var t := View(index, objects, mk);
    assert t.Keys == index.Keys;
    SettledView(index, objects, mk, Below(index.Keys, src), src, dst);
  }
}
