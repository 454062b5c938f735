/**
 The operations of the plain tree spelled out on names: which directory a write lists, what a removal takes along, where
 the entries of a move end up.
 */
module VaultListing {
  import opened Common
  import opened VaultObjects
  import opened VaultPaths
  import opened VaultIndex
  import opened VaultMoves

  /** The path of a name in a directory; the root is the empty prefix. */
  function In(d: Path, name: string): Path {
    d + "/" + name
  }

  ghost predicate IsFile(t: Tree, p: Path) {
    p in t && t[p] != Dir
  }

  lemma LastSlashOf(d: Path, name: string)
    requires '/' !in name
    ensures LastSlash(In(d, name)) == |d|
  {
    var p := In(d, name);
    assert p[|d|] == '/';
    forall j | |d| < j < |p| ensures p[j] != '/' {
      assert p[j] == name[j - |d| - 1];
    }
  }

  // ---------- writing ----------

  /** Writing a new name lists its directory, one level up and without a trailing slash, unless that is the root. */
  lemma WriteLists(t: Tree, d: Path, name: string, data: Bytes)
    requires '/' !in name
    ensures var p := In(d, name);
            Written(t, p, data) == if d == "" || d == "/" || d in t || IsFile(t, p) then t[p := File(data)]
                                   else t[p := File(data)][d := Dir]
  {
    LastSlashOf(d, name);
    assert In(d, name)[..|d|] == d;
    assert d != In(d, name);
  }

  /** A path without any slash is written alone. */
  lemma WriteBare(t: Tree, p: Path, data: Bytes)
    requires '/' !in p
    ensures Written(t, p, data) == t[p := File(data)]
  {
    assert LastSlash(p) < 0;
  }

  ghost predicate Builds(ops: seq<TreeOp>) {
    forall i :: 0 <= i < |ops| ==> ops[i].Write? || ops[i].Mkdir?
  }

  /** Whatever is written and made, the directory of every file that is not directly below the root is listed. */
  lemma {:induction false} FilesAreListed(ops: seq<TreeOp>, d: Path, name: string)
    requires Builds(ops) && '/' !in name && d != "" && d != "/" && IsFile(Run(map[], ops), In(d, name))
    ensures d in Run(map[], ops)
  {
    var front, op := ops[..|ops| - 1], ops[|ops| - 1];
    var before := Run(map[], front);
    if IsFile(before, In(d, name)) {
      FilesAreListed(front, d, name);
    } else {
      assert op.Write? && op.path == In(d, name);
      WriteLists(before, d, name, op.data);
    }
  }

  // ---------- removing ----------

  /** A removal takes the path, with a directory all that lies below it, and nothing else. */
  lemma RemoveTakes(t: Tree, path: Path, q: Path)
    ensures q in Removed(t, path) <==>
            q in t && q != path && !(path in t && t[path] == Dir && exists rest :: q == path + "/" + rest)
    ensures q in Removed(t, path) ==> Removed(t, path)[q] == t[q]
  {
    if path + "/" <= q {
      assert q == path + "/" + q[|path| + 1..];
    }
    if rest :| q == path + "/" + rest {
      assert path + "/" <= q;
    }
  }

  // ---------- moving ----------

  /** A moved file is read at its new path, with its bytes, and no longer at the old one; nothing else changes. */
  lemma FileMoves(t: Tree, src: Path, dst: Path, q: Path)
    requires IsFile(t, src)
    ensures src !in MoveResult(t, src, dst)
    ensures src != dst ==> dst in MoveResult(t, src, dst) && MoveResult(t, src, dst)[dst] == t[src]
    ensures q != src && q != dst ==> (q in MoveResult(t, src, dst) <==> q in t)
    ensures q != src && q != dst && q in t ==> MoveResult(t, src, dst)[q] == t[q]
  {
  }

  /** A clean move of a directory: what was below the source reads the same below the destination. */
  lemma DirectoryMoves(t: Tree, src: Path, dst: Path, rest: string)
    requires src in t && t[src] == Dir && !Within(dst, src) && MovesCleanly(t, src, dst)
    ensures dst in MoveResult(t, src, dst) && MoveResult(t, src, dst)[dst] == Dir
    ensures src + "/" + rest in t ==>
              dst + "/" + rest in MoveResult(t, src, dst)
              && MoveResult(t, src, dst)[dst + "/" + rest] == t[src + "/" + rest]
  {
    MoveResultIff(t, src, dst);
    var p, q := src + "/" + rest, dst + "/" + rest;
    assert src + "/" <= p && p[|src|..] == "/" + rest && Target(p, src, dst) == q;
    assert Within(src, src) && Target(src, src, dst) == dst;
    TargetInverse(src, src, dst);
    TargetInverse(p, src, dst);
    assert dst in Landed(t.Keys, src, dst);
  }

  /** And the old names are gone, wherever the destination lies apart from the source. */
  lemma DirectoryLeaves(t: Tree, src: Path, dst: Path, q: Path)
    requires src in t && t[src] == Dir && !Nested(src, dst)
    ensures q in MoveResult(t, src, dst) ==> q != src && !(src + "/" <= q)
  {
    UnnestedMovesCleanly(t, src, dst);
    MoveResultIff(t, src, dst);
    if q in MoveResult(t, src, dst) && Within(q, src) {
      assert q in Landed(t.Keys, src, dst);
      WithinBoth(q, src, dst);
    }
  }

  /** A name that only begins like a directory's is not below it. */
  lemma SiblingsApart(d: Path, c: char, rest: string)
    requires c != '/'
    ensures !Within(d + [c] + rest, d)
  {
    var p := d + [c] + rest;
    assert |p| > |d| && p[|d|] == c;
  }
}
