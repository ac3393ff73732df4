/**
 * Reconciling deletions and renames on the destination: entries whose parent directory is
 * being renamed are not renamed again.
 */
module Renames {
  type Path = seq<string>
  datatype Node = Node(isDir: bool, id: int)
  type Tree = map<Path, Node>

  datatype DeletionStatus = Deleted(path: Path, isDir: bool) | Renamed(from: Path, to: Path, isDir: bool)

  // A rename actually performed.
  datatype Move = Move(from: Path, to: Path)

  function Parent(p: Path): Path
    requires p != []
  {
    p[..|p| - 1]
  }

  function Name(p: Path): string
    requires p != []
  {
    p[|p| - 1]
  }

  // ---------------------------------------------------------------- the destination

  /** Where a path ends up when `from` is renamed to `to`. */
  function Relocate(p: Path, from: Path, to: Path): (r: Path)
  {
    if from <= p then to + p[|from|..] else p
  }

  /** A rename needs its source, a free target and the target's parent directory. */
  predicate CanRename(fs: Tree, from: Path, to: Path)
  {
    && from != [] && to != [] && from in fs
    && (forall q :: q in fs ==> !(to <= q))
    && (|to| > 1 ==> Parent(to) in fs)
  }

  /** Renaming moves the whole subtree. */
  function RenameTree(fs: Tree, from: Path, to: Path): (r: Tree)
    requires forall q :: q in fs ==> !(to <= q)
  {
    var paths := set p | p in fs :: Relocate(p, from, to);
    map q | q in paths :: (RelocateBack(fs, from, to, q); fs[if to <= q then Relocate(q, to, from) else q])
  }

  lemma RelocateBack(fs: Tree, from: Path, to: Path, q: Path)
    requires forall p :: p in fs ==> !(to <= p)
    requires exists p :: p in fs && q == Relocate(p, from, to)
    ensures (if to <= q then Relocate(q, to, from) else q) in fs
  {
    var p :| p in fs && q == Relocate(p, from, to);
    RelocateInverse(p, from, to);
  }

  lemma RelocateInverse(p: Path, from: Path, to: Path)
    requires !(to <= p)
    ensures var q := Relocate(p, from, to); p == if to <= q then Relocate(q, to, from) else q
  {
    if from <= p {
      var q := to + p[|from|..];
      assert q[|to|..] == p[|from|..];
      assert from + p[|from|..] == p;
    }
  }

  /** An entry is at its relocated path, and every path of the result has such an entry. */
  lemma RenameTreeTo(fs: Tree, from: Path, to: Path, p: Path)
    requires (forall q :: q in fs ==> !(to <= q)) && p in fs
    ensures
      var q, moved := Relocate(p, from, to), RenameTree(fs, from, to);
      q in moved && moved[q] == fs[p]
  {
    RelocateInverse(p, from, to);
  }

  lemma RenameTreeFrom(fs: Tree, from: Path, to: Path, q: Path) returns (p: Path)
    requires (forall r :: r in fs ==> !(to <= r)) && q in RenameTree(fs, from, to)
    ensures p in fs && q == Relocate(p, from, to)
  {
    p :| p in fs && q == Relocate(p, from, to);
  }

  function RemoveTree(fs: Tree, path: Path): (r: Tree)
  {
    map q | q in fs && !(path <= q) :: fs[q]
  }

  // ---------------------------------------------------------------- the two passes

  /** First pass: old path to new path of every renamed directory; a later entry wins. */
  function RenamedDirs(statuses: seq<DeletionStatus>): (r: map<Path, Path>)
  {
    if statuses == [] then map[]
    else
      var s := statuses[|statuses| - 1];
      var before := RenamedDirs(statuses[..|statuses| - 1]);
      if s.Renamed? && s.isDir then before[s.from := s.to] else before
  }

  /** The parent's rename already carries this entry along. */
  predicate SkipPhysical(dirs: map<Path, Path>, from: Path, to: Path)
  {
    && from != [] && to != [] && Name(from) == Name(to)
    && Parent(from) in dirs && dirs[Parent(from)] == Parent(to)
  }

  datatype Progress = Progress(fs: Tree, renames: seq<Move>, failed: bool)

  /** Second pass, one status; a failure is remembered and the rest goes on. */
  function ApplyOne(dirs: map<Path, Path>, s: DeletionStatus, p: Progress): (r: Progress)
  {
    match s
    case Deleted(path, isDir) => if path in p.fs then p.(fs := RemoveTree(p.fs, path)) else p
    case Renamed(from, to, _) =>
      if SkipPhysical(dirs, from, to) then p
      else if !CanRename(p.fs, from, to) then p.(failed := true)
      else p.(fs := RenameTree(p.fs, from, to), renames := p.renames + [Move(from, to)])
  }

  function ApplyAll(dirs: map<Path, Path>, statuses: seq<DeletionStatus>, p: Progress): (r: Progress)
  {
    if statuses == [] then p
    else ApplyOne(dirs, statuses[|statuses| - 1], ApplyAll(dirs, statuses[..|statuses| - 1], p))
  }

  /** Collects the directory map, then performs the operations in list order. */
  method ApplyDeletionsAndRenames(statuses: seq<DeletionStatus>, fs: Tree) returns (result: Progress)
    ensures result == ApplyAll(RenamedDirs(statuses), statuses, Progress(fs, [], false))
  {
    var dirs := CollectDirs(statuses);
    result := Progress(fs, [], false);
    for i := 0 to |statuses|
      invariant result == ApplyAll(dirs, statuses[..i], Progress(fs, [], false))
    {
      ApplyAllSnoc(dirs, statuses, i, Progress(fs, [], false));
      result := Perform(dirs, statuses[i], result);
    }
    assert statuses[..|statuses|] == statuses;
  }

  method CollectDirs(statuses: seq<DeletionStatus>) returns (dirs: map<Path, Path>)
    ensures dirs == RenamedDirs(statuses)
  {
    dirs := map[];
    for i := 0 to |statuses|
      invariant dirs == RenamedDirs(statuses[..i])
    {
      assert statuses[..i + 1][..i] == statuses[..i] && statuses[..i + 1][i] == statuses[i];
      if statuses[i].Renamed? && statuses[i].isDir {
        dirs := dirs[statuses[i].from := statuses[i].to];
      }
    }
    assert statuses[..|statuses|] == statuses;
  }

  /** One operation of the second pass. */
  method Perform(dirs: map<Path, Path>, s: DeletionStatus, before: Progress) returns (after: Progress)
    ensures after == ApplyOne(dirs, s, before)
  {
    after := before;
    match s {
      case Deleted(path, isDir) =>
        if path in after.fs {
          after := after.(fs := RemoveTree(after.fs, path));
        }
      case Renamed(from, to, _) =>
        if !SkipPhysical(dirs, from, to) {
          if CanRename(after.fs, from, to) {
            after := after.(fs := RenameTree(after.fs, from, to), renames := after.renames + [Move(from, to)]);
          } else {
            after := after.(failed := true);
          }
        }
    }
  }

  lemma ApplyAllSnoc(dirs: map<Path, Path>, statuses: seq<DeletionStatus>, n: nat, p: Progress)
    requires n < |statuses|
    ensures ApplyAll(dirs, statuses[..n + 1], p) == ApplyOne(dirs, statuses[n], ApplyAll(dirs, statuses[..n], p))
  {
    assert statuses[..n + 1][..n] == statuses[..n] && statuses[..n + 1][n] == statuses[n];
  }

  // ---------------------------------------------------------------- disjoint moves

  predicate ParentDir(fs: Tree, p: Path)
  {
    |p| > 1 ==> Parent(p) in fs && fs[Parent(p)].isDir
  }

  /** Every entry's parent is a directory of the tree; the root itself is not an entry. */
  ghost predicate WellFormed(fs: Tree)
  {
    [] !in fs && forall p {:trigger ParentDir(fs, p)} :: p in fs ==> ParentDir(fs, p)
  }

  predicate Comparable(p: Path, q: Path)
  {
    p <= q || q <= p
  }

  predicate Outside(to: Path, q: Path)
  {
    !(to <= q)
  }

  /** The target path and everything below it are free. */
  ghost predicate Free(fs: Tree, to: Path)
  {
    forall q {:trigger Outside(to, q)} :: q in fs ==> Outside(to, q)
  }

  /** The move has an entry to move and a place to put it. */
  ghost predicate Ready(m: Move, fs: Tree)
  {
    m.from in fs && m.to != [] && Free(fs, m.to) && (|m.to| > 1 ==> Parent(m.to) in fs)
  }

  /** Two moves that do not touch each other's entries or targets. */
  predicate Unrelated(m: Move, n: Move)
  {
    && !(m.from <= n.to)
    && (m != n ==> !Comparable(m.from, n.from) && !Comparable(m.to, n.to))
  }

  ghost predicate Disjoint(moves: set<Move>, fs: Tree)
  {
    && (forall m {:trigger Ready(m, fs)} :: m in moves ==> Ready(m, fs))
    && (forall m, n {:trigger Unrelated(m, n)} :: m in moves && n in moves ==> Unrelated(m, n))
  }

  /** The status is about an entry carried along by the move. */
  predicate Carries(m: Move, s: DeletionStatus)
  {
    s.Renamed? && m.from <= s.from && s.to == m.to + s.from[|m.from|..]
  }

  predicate ListedAt(statuses: seq<DeletionStatus>, i: nat, p: Path)
  {
    i < |statuses| && statuses[i].Renamed? && statuses[i].from == p
  }

  /** A rename status of an entry of the tree, with the path its move gives it. */
  ghost predicate Genuine(s: DeletionStatus, moves: set<Move>, fs: Tree)
  {
    s.Renamed? && s.from in fs && s.isDir == fs[s.from].isDir && exists m :: m in moves && Carries(m, s)
  }

  ghost predicate Listed(statuses: seq<DeletionStatus>, p: Path)
  {
    exists i: nat :: ListedAt(statuses, i, p)
  }

  ghost predicate DistinctSources(statuses: seq<DeletionStatus>)
  {
    && (forall i :: 0 <= i < |statuses| ==> statuses[i].Renamed?)
    && (forall i, j :: 0 <= i < j < |statuses| ==> statuses[i].from != statuses[j].from)
  }

  /**
   * The status list of some disjoint moves, in any order: each moved directory with all its
   * descendants, each entry once, with its new path.
   */
  ghost predicate Lists(statuses: seq<DeletionStatus>, moves: set<Move>, fs: Tree)
  {
    && (forall i {:trigger Genuine(statuses[i], moves, fs)} :: 0 <= i < |statuses| ==> Genuine(statuses[i], moves, fs))
    && (forall p, m {:trigger Listed(statuses, p), Ready(m, fs)} ::
          p in fs && m in moves && m.from <= p ==> Listed(statuses, p))
    && DistinctSources(statuses)
  }

  lemma {:induction false} DirsLookup(statuses: seq<DeletionStatus>, n: nat, p: Path) returns (i: nat)
    requires n <= |statuses| && DistinctSources(statuses)
    requires p in RenamedDirs(statuses[..n])
    ensures i < n && ListedAt(statuses, i, p) && statuses[i].isDir
  {
    assert statuses[..n][..n - 1] == statuses[..n - 1] && statuses[..n][n - 1] == statuses[n - 1];
    if statuses[n - 1].isDir && statuses[n - 1].from == p {
      i := n - 1;
    } else {
      i := DirsLookup(statuses, n - 1, p);
    }
  }

  lemma {:induction false} DirsEntry(statuses: seq<DeletionStatus>, n: nat, i: nat)
    requires i < n <= |statuses| && DistinctSources(statuses) && statuses[i].isDir
    ensures statuses[i].from in RenamedDirs(statuses[..n])
    ensures RenamedDirs(statuses[..n])[statuses[i].from] == statuses[i].to
  {
    assert statuses[..n][..n - 1] == statuses[..n - 1] && statuses[..n][n - 1] == statuses[n - 1];
    if i < n - 1 { DirsEntry(statuses, n - 1, i); }
  }

  lemma PrefixesComparable(a: Path, b: Path, p: Path)
    requires a <= p && b <= p
    ensures Comparable(a, b)
  {
    assert a == p[..|a|] && b == p[..|b|];
  }

  /** At most one move is above a path. */
  lemma MoverUnique(moves: set<Move>, fs: Tree, m: Move, n: Move, p: Path)
    requires Disjoint(moves, fs) && m in moves && n in moves && m.from <= p && n.from <= p
    ensures m == n
  {
    PrefixesComparable(m.from, n.from, p);
    assert Unrelated(m, n);
  }

  lemma ShorterPrefix(a: Path, p: Path)
    requires p != [] && a <= Parent(p)
    ensures a <= p && |a| < |p|
  {
    assert p == Parent(p) + [Name(p)];
  }

  /** Dropping the last component commutes with relocating a proper descendant. */
  lemma ParentRelocates(p: Path, from: Path, to: Path)
    requires from <= p && p != from
    ensures p != [] && from <= Parent(p) && to + p[|from|..] != []
    ensures Parent(to + p[|from|..]) == to + Parent(p)[|from|..] && Name(to + p[|from|..]) == Name(p)
  {
    assert |p| > |from|;
  }

  lemma MoverOf(statuses: seq<DeletionStatus>, moves: set<Move>, fs: Tree, i: nat) returns (m: Move)
    requires Lists(statuses, moves, fs) && i < |statuses|
    ensures m in moves && Carries(m, statuses[i]) && statuses[i].from in fs
    ensures statuses[i].isDir == fs[statuses[i].from].isDir
  {
    assert Genuine(statuses[i], moves, fs);
    m :| m in moves && Carries(m, statuses[i]);
  }

  /** A topmost moved entry has no renamed parent. */
  lemma TopIsPerformed(statuses: seq<DeletionStatus>, moves: set<Move>, fs: Tree, m: Move)
    requires WellFormed(fs) && Disjoint(moves, fs) && Lists(statuses, moves, fs) && m in moves
    ensures m.from != [] && Parent(m.from) !in RenamedDirs(statuses)
  {
    assert Ready(m, fs);
    var parent := Parent(m.from);
    assert statuses[..|statuses|] == statuses;
    if parent in RenamedDirs(statuses) {
      var k := DirsLookup(statuses, |statuses|, parent);
      var n := MoverOf(statuses, moves, fs, k);
      ShorterPrefix(n.from, m.from);
      MoverUnique(moves, fs, m, n, m.from);
    }
  }

  /** A moved directory is in the map, with its new path. */
  lemma MovedDirIsMapped(statuses: seq<DeletionStatus>, moves: set<Move>, fs: Tree, m: Move, dir: Path)
    requires Disjoint(moves, fs) && Lists(statuses, moves, fs)
    requires m in moves && dir in fs && fs[dir].isDir && m.from <= dir
    ensures dir in RenamedDirs(statuses) && RenamedDirs(statuses)[dir] == m.to + dir[|m.from|..]
  {
    assert Ready(m, fs);
    assert Listed(statuses, dir);
    var k: nat :| ListedAt(statuses, k, dir);
    var n := MoverOf(statuses, moves, fs, k);
    MoverUnique(moves, fs, m, n, dir);
    assert statuses[..|statuses|] == statuses;
    DirsEntry(statuses, |statuses|, k);
  }

  /** A proper descendant goes along with its parent. */
  lemma DescendantIsSkipped(statuses: seq<DeletionStatus>, moves: set<Move>, fs: Tree, m: Move, p: Path)
    requires WellFormed(fs) && Disjoint(moves, fs) && Lists(statuses, moves, fs)
    requires m in moves && p in fs && m.from <= p && p != m.from
    ensures SkipPhysical(RenamedDirs(statuses), p, m.to + p[|m.from|..])
  {
    ParentRelocates(p, m.from, m.to);
    assert Ready(m, fs) && ParentDir(fs, p);
    MovedDirIsMapped(statuses, moves, fs, m, Parent(p));
  }

  // ---------------------------------------------------------------- every entry reaches its new path

  ghost predicate Above(moves: set<Move>, p: Path)
  {
    exists m :: m in moves && m.from <= p
  }

  /** Where a path belongs once these moves are done. */
  ghost function NewPath(moves: set<Move>, p: Path): Path
  {
    if Above(moves, p) then
      var m :| m in moves && m.from <= p;
      Relocate(p, m.from, m.to)
    else p
  }

  lemma NewPathBy(moves: set<Move>, all: set<Move>, fs: Tree, m: Move, p: Path)
    requires Disjoint(all, fs) && moves <= all && m in moves && m.from <= p
    ensures NewPath(moves, p) == Relocate(p, m.from, m.to)
  {
    assert Above(moves, p);
    var n :| n in moves && n.from <= p && NewPath(moves, p) == Relocate(p, n.from, n.to);
    MoverUnique(all, fs, m, n, p);
  }

  ghost predicate Sits(fs: Tree, done: set<Move>, cur: Tree, p: Path)
  {
    p in fs && NewPath(done, p) in cur && cur[NewPath(done, p)] == fs[p]
  }

  ghost predicate Comes(fs: Tree, done: set<Move>, q: Path)
  {
    exists p :: p in fs && q == NewPath(done, p)
  }

  /** The tree with some of the moves done: every entry is where it belongs, and nothing else is there. */
  ghost predicate Placed(fs: Tree, done: set<Move>, cur: Tree)
  {
    && (forall p {:trigger Sits(fs, done, cur, p)} :: p in fs ==> Sits(fs, done, cur, p))
    && (forall q {:trigger Comes(fs, done, q)} :: q in cur ==> Comes(fs, done, q))
  }

  /** Unrelated moves do not see each other's entries. */
  lemma Apart(all: set<Move>, fs: Tree, done: set<Move>, m: Move, p: Path)
    requires Disjoint(all, fs) && done <= all && m in all && m !in done && p in fs
    ensures Outside(m.to, NewPath(done, p))
    ensures Relocate(NewPath(done, p), m.from, m.to) == NewPath(done + {m}, p)
  {
    assert Ready(m, fs);
    if Above(done, p) {
      var d :| d in done && d.from <= p;
      NewPathBy(done, all, fs, d, p);
      NewPathBy(done + {m}, all, fs, d, p);
      AwayFrom(all, fs, d, m, d.to + p[|d.from|..]);
    } else {
      assert Outside(m.to, p);
      if m.from <= p {
        NewPathBy(done + {m}, all, fs, m, p);
      } else {
        assert !Above(done + {m}, p);
      }
    }
  }

  /** Paths under one move's target are not under the other move's source or target. */
  lemma AwayFrom(all: set<Move>, fs: Tree, d: Move, m: Move, q: Path)
    requires Disjoint(all, fs) && d in all && m in all && d != m && d.to <= q
    ensures !(m.from <= q) && Outside(m.to, q)
  {
    assert Ready(m, fs) && Ready(d, fs) && Unrelated(m, d);
    assert Outside(d.to, m.from);
    if m.from <= q { PrefixesComparable(m.from, d.to, q); }
    if m.to <= q { PrefixesComparable(m.to, d.to, q); }
  }

  lemma Untouched(all: set<Move>, fs: Tree, done: set<Move>, m: Move)
    requires Disjoint(all, fs) && done <= all && m in all && m !in done
    ensures NewPath(done, m.from) == m.from
    ensures |m.to| > 1 ==> NewPath(done, Parent(m.to)) == Parent(m.to)
  {
    if Above(done, m.from) {
      var d :| d in done && d.from <= m.from;
      MoverUnique(all, fs, d, m, m.from);
    }
    if |m.to| > 1 && Above(done, Parent(m.to)) {
      var d :| d in done && d.from <= Parent(m.to);
      assert Unrelated(d, m);
      ShorterPrefix(d.from, m.to);
    }
  }

  /** A topmost rename can be performed at any time. */
  lemma CanMove(all: set<Move>, fs: Tree, done: set<Move>, m: Move, cur: Tree)
    requires WellFormed(fs) && Disjoint(all, fs) && done <= all && m in all && m !in done && Placed(fs, done, cur)
    ensures CanRename(cur, m.from, m.to)
  {
    Untouched(all, fs, done, m);
    assert Ready(m, fs);
    assert Sits(fs, done, cur, m.from);
    if |m.to| > 1 { assert Sits(fs, done, cur, Parent(m.to)); }
    forall q | q in cur
      ensures !(m.to <= q)
    {
      assert Comes(fs, done, q);
      var p :| p in fs && q == NewPath(done, p);
      Apart(all, fs, done, m, p);
    }
  }

  /** A topmost rename puts its subtree in place and leaves the rest where it is. */
  lemma PlaceStep(all: set<Move>, fs: Tree, done: set<Move>, m: Move, cur: Tree)
    requires Disjoint(all, fs) && done <= all && m in all && m !in done && Placed(fs, done, cur)
    requires CanRename(cur, m.from, m.to)
    ensures Placed(fs, done + {m}, RenameTree(cur, m.from, m.to))
  {
    var next := RenameTree(cur, m.from, m.to);
    forall p | p in fs
      ensures Sits(fs, done + {m}, next, p)
    {
      Apart(all, fs, done, m, p);
      assert Sits(fs, done, cur, p);
      RenameTreeTo(cur, m.from, m.to, NewPath(done, p));
    }
    forall q | q in next
      ensures Comes(fs, done + {m}, q)
    {
      var o := RenameTreeFrom(cur, m.from, m.to, q);
      assert Comes(fs, done, o);
      var p :| p in fs && o == NewPath(done, p);
      Apart(all, fs, done, m, p);
    }
  }

  /** So far nothing failed, and exactly the moves in `done` were performed, once each. */
  ghost predicate Reconciled(fs: Tree, done: set<Move>, p: Progress)
  {
    && !p.failed && Placed(fs, done, p.fs)
    && (forall m :: m in p.renames <==> m in done) && |p.renames| == |done|
  }

  /** `done` is what the first n statuses perform. */
  ghost predicate DoneAfter(statuses: seq<DeletionStatus>, moves: set<Move>, done: set<Move>, n: nat)
  {
    && done <= moves
    && (forall m {:trigger m in done} :: m in moves ==> (m in done <==> ListedBefore(statuses, n, m.from)))
  }

  ghost predicate ListedBefore(statuses: seq<DeletionStatus>, n: nat, p: Path)
  {
    exists i: nat :: i < n && ListedAt(statuses, i, p)
  }

  lemma ListedBeforeStep(statuses: seq<DeletionStatus>, n: nat, p: Path)
    requires n < |statuses| && statuses[n].Renamed?
    ensures ListedBefore(statuses, n + 1, p) <==> ListedBefore(statuses, n, p) || statuses[n].from == p
  {
    if statuses[n].from == p { assert ListedAt(statuses, n, p); }
  }

  lemma FirstMention(statuses: seq<DeletionStatus>, i: nat)
    requires DistinctSources(statuses) && i < |statuses|
    ensures !ListedBefore(statuses, i, statuses[i].from)
  {
  }

  lemma PerformTop(statuses: seq<DeletionStatus>, moves: set<Move>, fs: Tree, m: Move, done: set<Move>, p: Progress,
                   s: DeletionStatus)
    requires WellFormed(fs) && Disjoint(moves, fs) && Lists(statuses, moves, fs)
    requires m in moves && m !in done && done <= moves && Reconciled(fs, done, p)
    requires Carries(m, s) && s.from == m.from
    ensures Reconciled(fs, done + {m}, ApplyOne(RenamedDirs(statuses), s, p))
  {
    TopIsPerformed(statuses, moves, fs, m);
    assert s.to == m.to;
    CanMove(moves, fs, done, m, p.fs);
    PlaceStep(moves, fs, done, m, p.fs);
    assert Move(s.from, s.to) == m;
  }

  lemma StatusStep(statuses: seq<DeletionStatus>, moves: set<Move>, fs: Tree, i: nat, done: set<Move>, p: Progress)
    returns (done': set<Move>)
    requires WellFormed(fs) && Disjoint(moves, fs) && Lists(statuses, moves, fs) && i < |statuses|
    requires DoneAfter(statuses, moves, done, i) && Reconciled(fs, done, p)
    ensures DoneAfter(statuses, moves, done', i + 1)
    ensures Reconciled(fs, done', ApplyOne(RenamedDirs(statuses), statuses[i], p))
  {
    var s := statuses[i];
    var m := MoverOf(statuses, moves, fs, i);
    if s.from == m.from {
      FirstMention(statuses, i);
      assert m !in done;
      PerformTop(statuses, moves, fs, m, done, p, s);
      done' := done + {m};
    } else {
      DescendantIsSkipped(statuses, moves, fs, m, s.from);
      done' := done;
    }
    forall n | n in moves
      ensures n in done' <==> ListedBefore(statuses, i + 1, n.from)
    {
      ListedBeforeStep(statuses, i, n.from);
      if n.from == s.from { MoverUnique(moves, fs, m, n, s.from); }
    }
  }

  lemma {:induction false} ReconcilesPrefix(statuses: seq<DeletionStatus>, moves: set<Move>, fs: Tree, n: nat)
    returns (done: set<Move>)
    requires WellFormed(fs) && Disjoint(moves, fs) && Lists(statuses, moves, fs) && n <= |statuses|
    ensures DoneAfter(statuses, moves, done, n)
    ensures Reconciled(fs, done, ApplyAll(RenamedDirs(statuses), statuses[..n], Progress(fs, [], false)))
  {
    if n == 0 {
      done := {};
      NothingDone(fs);
    } else {
      var before := ReconcilesPrefix(statuses, moves, fs, n - 1);
      assert statuses[..n][..n - 1] == statuses[..n - 1] && statuses[..n][n - 1] == statuses[n - 1];
      var p := ApplyAll(RenamedDirs(statuses), statuses[..n - 1], Progress(fs, [], false));
      done := StatusStep(statuses, moves, fs, n - 1, before, p);
    }
  }

  lemma NothingDone(fs: Tree)
    ensures Reconciled(fs, {}, Progress(fs, [], false))
  {
    forall p ensures NewPath({}, p) == p {
      assert !Above({}, p);
    }
    forall q | q in fs ensures Comes(fs, {}, q) {
      assert q == NewPath({}, q);
    }
  }

  /**
   * For any status list of disjoint moves, in any order: every entry ends at its new path and
   * nothing else is left, no operation fails, and exactly the topmost entries are renamed, once
   * each.
   */
  lemma MovesReconcile(statuses: seq<DeletionStatus>, moves: set<Move>, fs: Tree)
    requires WellFormed(fs) && Disjoint(moves, fs) && Lists(statuses, moves, fs)
    ensures
      var p := ApplyAll(RenamedDirs(statuses), statuses, Progress(fs, [], false));
      && !p.failed && Placed(fs, moves, p.fs)
      && (forall m :: m in p.renames <==> m in moves) && |p.renames| == |moves|
  {
    var done := ReconcilesPrefix(statuses, moves, fs, |statuses|);
    assert statuses[..|statuses|] == statuses;
    forall m | m in moves ensures m in done {
      assert Ready(m, fs) && Listed(statuses, m.from);
      var k: nat :| ListedAt(statuses, k, m.from);
      assert ListedBefore(statuses, |statuses|, m.from);
    }
    assert done == moves;
  }
}
