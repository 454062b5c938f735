/** Logical paths of the encrypted store, their sorted order, and renaming a subtree entry by entry. */
module VaultPaths {
  import opened Common

  type Path = string

  function LastSlash(p: Path): (i: int)
    ensures -1 <= i < |p|
    ensures i >= 0 ==> p[i] == '/'
    ensures forall j :: i < j < |p| ==> p[j] != '/'
  {
    if p == "" then -1
    else if p[|p| - 1] == '/' then |p| - 1
    else LastSlash(p[..|p| - 1])
  }

  /** The parent directory of a logical path; the root for anything directly below it. */
  function Parent(p: Path): Path {
    var i := LastSlash(p);
    if i <= 0 then "/" else p[..i]
  }

  /** p is q itself or lies below it. */
  predicate Within(p: Path, q: Path) {
    p == q || q + "/" <= p
  }

  /** Moving q's counterpart: where an entry at or below src lands. */
  function Target(p: Path, src: Path, dst: Path): Path
    requires Within(p, src)
  {
    dst + p[|src|..]
  }

  lemma TargetInverse(p: Path, src: Path, dst: Path)
    requires Within(p, src)
    ensures Within(Target(p, src, dst), dst) && Target(Target(p, src, dst), dst, src) == p
  {
    var q := Target(p, src, dst);
    assert q[|dst|..] == p[|src|..];
    if p != src {
      assert q[..|dst| + 1] == dst + "/";
    }
  }

  ghost predicate Nested(p: Path, q: Path) {
    Within(p, q) || Within(q, p)
  }

  lemma WithinBoth(p: Path, a: Path, b: Path)
    requires Within(p, a) && Within(p, b)
    ensures Nested(a, b)
  {
    if |a| < |b| {
      assert a + "/" == p[..|a| + 1] == b[..|a| + 1];
    } else if |b| < |a| {
      assert b + "/" == p[..|b| + 1] == a[..|b| + 1];
    } else {
      assert a == p[..|a|] == b;
    }
  }

  // ---------- sorted order ----------

  /** Byte order of paths, as sorting uses it. */
  predicate Before(a: Path, b: Path) {
    b != "" && (a == "" || a[0] < b[0] || (a[0] == b[0] && Before(a[1..], b[1..])))
  }

  lemma {:induction false} BeforeTotal(a: Path, b: Path)
    ensures Before(a, b) ==> a != b && !Before(b, a)
    ensures a != b ==> Before(a, b) || Before(b, a)
  {
    if a != "" && b != "" {
      BeforeTotal(a[1..], b[1..]);
      assert a == [a[0]] + a[1..] && b == [b[0]] + b[1..];
    }
  }

  lemma {:induction false} BeforeTransitive(a: Path, b: Path, c: Path)
    requires Before(a, b) && Before(b, c)
    ensures Before(a, c)
  {
    if a != "" && a[0] == b[0] == c[0] {
      BeforeTransitive(a[1..], b[1..], c[1..]);
    }
  }

  /** p comes first of all the paths in s. */
  predicate Least(p: Path, s: set<Path>) {
    p in s && forall q :: q in s ==> q == p || Before(p, q)
  }

  lemma {:induction false} LeastExists(s: set<Path>)
    requires s != {}
    ensures exists p :: Least(p, s)
  {
    var x :| x in s;
    if s == {x} {
      assert Least(x, s);
    } else {
      LeastExists(s - {x});
      var p :| Least(p, s - {x});
      BeforeTotal(x, p);
      if Before(p, x) {
        assert Least(p, s);
      } else {
        forall q | q in s ensures q == x || Before(x, q) {
          if q != x && q != p {
            BeforeTransitive(x, p, q);
          }
        }
        assert Least(x, s);
      }
    }
  }

  // ---------- renaming a subtree ----------

  /** An entry q below src lands beside src, and not on another entry below src that has yet to move. */
  ghost predicate LandsClear(keys: set<Path>, src: Path, dst: Path, q: Path)
    requires Within(q, src)
  {
    var l := Target(q, src, dst);
    l != src && (l in keys && src + "/" <= l ==> Before(l, q))
  }

  /** No entry below src lands on src, or on another entry below src that has yet to move. */
  ghost predicate LandClear(keys: set<Path>, src: Path, dst: Path) {
    forall q :: q in keys && src + "/" <= q ==> LandsClear(keys, src, dst, q)
  }

  function Below(keys: set<Path>, src: Path): set<Path> {
    set p | p in keys && src + "/" <= p
  }

  /** One entry goes to the same place below dst and frees its old name. */
  function Renamed<V>(m: map<Path, V>, src: Path, dst: Path, p: Path): map<Path, V>
    requires p in m && src + "/" <= p
  {
    m[Target(p, src, dst) := m[p]] - {p}
  }

  /** The entries in todo renamed one after the other, the first in sorted order first. */
  ghost function Settled<V>(m: map<Path, V>, todo: set<Path>, src: Path, dst: Path): map<Path, V>
    requires forall p :: p in todo ==> p in m && src + "/" <= p
    decreases todo
  {
    if todo == {} then m
    else
      LeastExists(todo);
      var p :| Least(p, todo);
      Settled(Renamed(m, src, dst, p), todo - {p}, src, dst)
  }

  lemma SettledStep<V>(m: map<Path, V>, todo: set<Path>, src: Path, dst: Path, p: Path)
    requires forall q :: q in todo ==> q in m && src + "/" <= q
    requires Least(p, todo)
    ensures Settled(m, todo, src, dst) == Settled(Renamed(m, src, dst, p), todo - {p}, src, dst)
  {
    forall q | Least(q, todo) ensures q == p {
      BeforeTotal(p, q);
    }
  }

  lemma TargetBelow(p: Path, src: Path, dst: Path)
    requires src + "/" <= p
    ensures Target(p, src, dst) == dst + "/" + p[|src| + 1..] && dst + "/" <= Target(p, src, dst)
  {
    assert p[|src|..] == "/" + p[|src| + 1..];
    assert dst + p[|src|..] == dst + "/" + p[|src| + 1..];
  }

  /** Renaming below src touches only names below src or dst, whatever lies within what. */
  lemma {:induction false} SettledFrame<V>(m: map<Path, V>, todo: set<Path>, src: Path, dst: Path, q: Path)
    requires forall p :: p in todo ==> p in m && src + "/" <= p
    requires !(src + "/" <= q) && !(dst + "/" <= q)
    ensures q in Settled(m, todo, src, dst) <==> q in m
    ensures q in m ==> Settled(m, todo, src, dst)[q] == m[q]
    decreases todo
  {
    if todo != {} {
      LeastExists(todo);
      var p :| Least(p, todo);
      SettledStep(m, todo, src, dst, p);
      TargetBelow(p, src, dst);
      SettledFrame(Renamed(m, src, dst, p), todo - {p}, src, dst, q);
    }
  }

  // ---------- how far a renaming has come ----------

  /** What has been visited below src comes before all that has not. */
  ghost predicate Upper(keys: set<Path>, src: Path, todo: set<Path>) {
    forall p, q :: p in todo && q in keys && src + "/" <= q && q !in todo ==> Before(q, p)
  }

  /** A visited name is free again, unless an entry landed on it that came later. */
  ghost predicate Gone(keys: set<Path>, now: set<Path>, src: Path, dst: Path, todo: set<Path>) {
    forall x :: x in keys && src + "/" <= x && x !in todo && x in now ==> LandedLater(src, dst, x)
  }

  ghost predicate LandedLater(src: Path, dst: Path, x: Path) {
    dst + "/" <= x && Before(x, Target(x, dst, src))
  }

  /** Half-way through renaming what lies below src: the entries in todo are still there, the others have landed. */
  ghost function HalfMoved<V>(m: map<Path, V>, src: Path, dst: Path, todo: set<Path>): map<Path, V> {
    (map p | p in m && (p in todo || !(src + "/" <= p)) :: m[p]) +
    (map q | q in LandedBelow(m.Keys, src, dst, todo) && Within(q, dst) && Target(q, dst, src) in m ::
       m[Target(q, dst, src)])
  }

  ghost function LandedBelow(keys: set<Path>, src: Path, dst: Path, todo: set<Path>): set<Path> {
    set p | p in keys && src + "/" <= p && p !in todo :: Target(p, src, dst)
  }

  /** An entry has landed at q exactly when q lies below dst and its counterpart below src has left. */
  lemma LandedIff(keys: set<Path>, src: Path, dst: Path, todo: set<Path>, q: Path)
    ensures q in LandedBelow(keys, src, dst, todo) <==>
            dst + "/" <= q && Target(q, dst, src) in keys && Target(q, dst, src) !in todo
  {
    if q in LandedBelow(keys, src, dst, todo) {
      var p :| p in keys && src + "/" <= p && p !in todo && Target(p, src, dst) == q;
      TargetInverse(p, src, dst);
      assert |q| > |dst|;
    }
    if dst + "/" <= q && Target(q, dst, src) in keys && Target(q, dst, src) !in todo {
      TargetInverse(q, dst, src);
      assert src + "/" <= Target(q, dst, src);
      assert Target(Target(q, dst, src), src, dst) == q;
    }
  }

  /** What a half-finished renaming holds at x. */
  lemma HalfMovedAt<V>(m: map<Path, V>, src: Path, dst: Path, todo: set<Path>, x: Path)
    ensures var landed := dst + "/" <= x && Target(x, dst, src) in m && Target(x, dst, src) !in todo;
            && (x in HalfMoved(m, src, dst, todo) <==> landed || (x in m && (x in todo || !(src + "/" <= x))))
            && (landed ==> HalfMoved(m, src, dst, todo)[x] == m[Target(x, dst, src)])
            && (!landed && x in HalfMoved(m, src, dst, todo) ==> HalfMoved(m, src, dst, todo)[x] == m[x])
  {
    LandedIff(m.Keys, src, dst, todo, x);
  }

  lemma HalfMovedStart<V>(m: map<Path, V>, src: Path, dst: Path)
    ensures HalfMoved(m, src, dst, Below(m.Keys, src)) == m
  {
    var todo := Below(m.Keys, src);
    forall x
      ensures x in HalfMoved(m, src, dst, todo) <==> x in m
      ensures x in HalfMoved(m, src, dst, todo) && x in m ==> HalfMoved(m, src, dst, todo)[x] == m[x]
    {
      HalfMovedAt(m, src, dst, todo, x);
      if dst + "/" <= x && Target(x, dst, src) in m {
        TargetBelow(x, dst, src);
      }
    }
  }

  /** Renaming the next entry leads from one half-finished renaming to the next, if nothing has landed on it. */
  lemma HalfMovedStep<V>(m: map<Path, V>, src: Path, dst: Path, todo: set<Path>, p: Path)
    requires !Within(dst, src) && p in m && src + "/" <= p && p !in todo
    requires dst + "/" <= p && Target(p, dst, src) in m ==> Target(p, dst, src) in todo
    ensures p in HalfMoved(m, src, dst, todo + {p})
    ensures HalfMoved(m, src, dst, todo) == Renamed(HalfMoved(m, src, dst, todo + {p}), src, dst, p)
  {
    var q := Target(p, src, dst);
    TargetInverse(p, src, dst);
    TargetBelow(p, src, dst);
    var before, after := HalfMoved(m, src, dst, todo + {p}), HalfMoved(m, src, dst, todo);
    HalfMovedAt(m, src, dst, todo + {p}, p);
    var step := Renamed(before, src, dst, p);
    forall x ensures (x in after <==> x in step) && (x in after ==> after[x] == step[x]) {
      HalfMovedAt(m, src, dst, todo, x);
      HalfMovedAt(m, src, dst, todo + {p}, x);
      if dst + "/" <= x && Target(x, dst, src) == p {
        TargetInverse(x, dst, src);
      }
    }
  }

  /** When an entry's turn comes, nothing has landed on its name. */
  lemma NotLandedOn(keys: set<Path>, src: Path, dst: Path, todo: set<Path>, p: Path)
    requires !Within(dst, src) && LandClear(keys, src, dst) && Upper(keys, src, todo)
    requires Least(p, todo) && p in keys && src + "/" <= p
    ensures dst + "/" <= p && Target(p, dst, src) in keys ==> Target(p, dst, src) in todo - {p}
  {
    if dst + "/" <= p && Target(p, dst, src) in keys {
      var r := Target(p, dst, src);
      TargetInverse(p, dst, src);
      TargetBelow(p, dst, src);
      assert LandsClear(keys, src, dst, r);
      BeforeTotal(p, r);
    }
  }

  lemma UpperStep(keys: set<Path>, src: Path, todo: set<Path>, p: Path)
    requires Upper(keys, src, todo) && Least(p, todo)
    ensures Upper(keys, src, todo - {p})
  {
  }

  /** When every entry lands clear, renaming them all one by one is moving them all at once. */
  lemma {:induction false} CleanlySettled<V>(m: map<Path, V>, src: Path, dst: Path, todo: set<Path>)
    requires !Within(dst, src) && LandClear(m.Keys, src, dst) && Upper(m.Keys, src, todo)
    requires todo <= Below(m.Keys, src)
    requires forall p :: p in todo ==> p in HalfMoved(m, src, dst, todo)
    ensures Settled(HalfMoved(m, src, dst, todo), todo, src, dst) == HalfMoved(m, src, dst, {})
  {
    if todo != {} {
      LeastExists(todo);
      var p :| Least(p, todo);
      NotLandedOn(m.Keys, src, dst, todo, p);
      assert todo - {p} + {p} == todo;
      HalfMovedStep(m, src, dst, todo - {p}, p);
      SettledStep(HalfMoved(m, src, dst, todo), todo, src, dst, p);
      UpperStep(m.Keys, src, todo, p);
      forall q | q in todo - {p} ensures q in HalfMoved(m, src, dst, todo - {p}) {
        HalfMovedAt(m, src, dst, todo - {p}, q);
      }
      CleanlySettled(m, src, dst, todo - {p});
    }
  }

  lemma GoneStep<V>(keys: set<Path>, now: map<Path, V>, src: Path, dst: Path, todo: set<Path>, p: Path)
    requires !Within(dst, src) && Upper(keys, src, todo) && Gone(keys, now.Keys, src, dst, todo)
    requires Least(p, todo) && p in keys && src + "/" <= p && p in now
    ensures Gone(keys, Renamed(now, src, dst, p).Keys, src, dst, todo - {p})
  {
    var l := Target(p, src, dst);
    var next := Renamed(now, src, dst, p);
    TargetInverse(p, src, dst);
    TargetBelow(p, src, dst);
    forall x | x in keys && src + "/" <= x && x !in todo - {p} && x in next ensures LandedLater(src, dst, x) {
      assert x != p && x !in todo;
      if x == l {
        assert Before(x, p);
      }
    }
  }

  /** Whatever lands where, a name below src is free in the end unless a later entry landed on it. */
  lemma {:induction false} GoneAtLast<V>(keys: set<Path>, now: map<Path, V>, src: Path, dst: Path, todo: set<Path>)
    requires !Within(dst, src) && Upper(keys, src, todo) && Gone(keys, now.Keys, src, dst, todo)
    requires todo <= Below(keys, src) && forall p :: p in todo ==> p in now
    ensures Gone(keys, Settled(now, todo, src, dst).Keys, src, dst, {})
    decreases todo
  {
    if todo != {} {
      LeastExists(todo);
      var p :| Least(p, todo);
      GoneStep(keys, now, src, dst, todo, p);
      UpperStep(keys, src, todo, p);
      SettledStep(now, todo, src, dst, p);
      GoneAtLast(keys, Renamed(now, src, dst, p), src, dst, todo - {p});
    }
  }

  /** Renaming entries onto themselves removes them. */
  lemma {:induction false} SettledOntoItself<V>(m: map<Path, V>, todo: set<Path>, src: Path)
    requires forall p :: p in todo ==> p in m && src + "/" <= p
    ensures Settled(m, todo, src, src) == m - todo
    decreases todo
  {
    if todo != {} {
      LeastExists(todo);
      var p :| Least(p, todo);
      SettledStep(m, todo, src, src, p);
      assert Target(p, src, src) == p;
      assert Renamed(m, src, src, p) == m - {p};
      SettledOntoItself(m - {p}, todo - {p}, src);
      assert m - {p} - (todo - {p}) == m - todo;
    }
  }
}
