/** Any list of deletions and renames: when no operation fails, and where every entry ends. */
module RenameOrder {
  import opened Renames

  // ---------------------------------------------------------------- reading a list

  /** A rename that is carried out, not skipped. */
  predicate Performed(dirs: map<Path, Path>, s: DeletionStatus)
  {
    s.Renamed? && !SkipPhysical(dirs, s.from, s.to)
  }

  /** Where the renames of a list take an entry, read off the list alone. */
  function Where(dirs: map<Path, Path>, statuses: seq<DeletionStatus>, p: Path): (r: Path)
  {
    if statuses == [] then p
    else
      var q, s := Where(dirs, statuses[..|statuses| - 1], p), statuses[|statuses| - 1];
      if Performed(dirs, s) then Relocate(q, s.from, s.to) else q
  }

  lemma WhereSnoc(dirs: map<Path, Path>, statuses: seq<DeletionStatus>, n: nat, p: Path)
    requires n < |statuses|
    ensures
      var q, s := Where(dirs, statuses[..n], p), statuses[n];
      Where(dirs, statuses[..n + 1], p) == if Performed(dirs, s) then Relocate(q, s.from, s.to) else q
  {
    assert statuses[..n + 1][..n] == statuses[..n] && statuses[..n + 1][n] == statuses[n];
  }

  /** A deletion finds its path occupied while the entry is at or below it. */
  ghost predicate Gone(fs: Tree, dirs: map<Path, Path>, statuses: seq<DeletionStatus>, p: Path)
    decreases |statuses|, 0
  {
    statuses != [] &&
    var before, s := statuses[..|statuses| - 1], statuses[|statuses| - 1];
    Gone(fs, dirs, before, p)
    || (s.Deleted? && s.path <= Where(dirs, before, p) && Reached(fs, dirs, before, s.path))
  }

  lemma GoneSnoc(fs: Tree, dirs: map<Path, Path>, statuses: seq<DeletionStatus>, n: nat, p: Path)
    requires n < |statuses|
    ensures
      var before, s := statuses[..n], statuses[n];
      Gone(fs, dirs, statuses[..n + 1], p)
      <==> Gone(fs, dirs, before, p)
           || (s.Deleted? && s.path <= Where(dirs, before, p) && Reached(fs, dirs, before, s.path))
  {
    assert statuses[..n + 1][..n] == statuses[..n] && statuses[..n + 1][n] == statuses[n];
  }

  ghost predicate LandsOn(fs: Tree, dirs: map<Path, Path>, before: seq<DeletionStatus>, p: Path, q: Path)
    decreases |before|, 1
  {
    p in fs && !Gone(fs, dirs, before, p) && Where(dirs, before, p) == q
  }

  /** Some entry of the starting tree is at q once these operations are done. */
  ghost predicate Reached(fs: Tree, dirs: map<Path, Path>, before: seq<DeletionStatus>, q: Path)
    decreases |before|, 2
  {
    exists p :: LandsOn(fs, dirs, before, p, q)
  }

  ghost predicate Clear(fs: Tree, dirs: map<Path, Path>, before: seq<DeletionStatus>, p: Path, to: Path)
  {
    Gone(fs, dirs, before, p) || !(to <= Where(dirs, before, p))
  }

  /** No entry of the starting tree is at or below `to` once these operations are done. */
  ghost predicate Vacant(fs: Tree, dirs: map<Path, Path>, before: seq<DeletionStatus>, to: Path)
  {
    forall p {:trigger Clear(fs, dirs, before, p, to)} :: p in fs ==> Clear(fs, dirs, before, p, to)
  }

  ghost predicate ParentReached(fs: Tree, dirs: map<Path, Path>, before: seq<DeletionStatus>, to: Path)
  {
    |to| > 1 ==> Reached(fs, dirs, before, Parent(to))
  }

  // ---------------------------------------------------------------- the destination follows the list

  ghost predicate Kept(fs: Tree, dirs: map<Path, Path>, before: seq<DeletionStatus>, cur: Tree, p: Path)
    requires p in fs
  {
    Gone(fs, dirs, before, p) || (Where(dirs, before, p) in cur && cur[Where(dirs, before, p)] == fs[p])
  }

  /** The destination holds the entries that are not gone, each where the list takes it, and nothing else. */
  ghost predicate Tracks(fs: Tree, dirs: map<Path, Path>, before: seq<DeletionStatus>, cur: Tree)
  {
    && (forall p {:trigger Kept(fs, dirs, before, cur, p)} :: p in fs ==> Kept(fs, dirs, before, cur, p))
    && (forall q {:trigger Reached(fs, dirs, before, q)} :: q in cur ==> Reached(fs, dirs, before, q))
  }

  lemma TracksReached(fs: Tree, dirs: map<Path, Path>, before: seq<DeletionStatus>, cur: Tree, q: Path)
    requires Tracks(fs, dirs, before, cur)
    ensures q in cur <==> Reached(fs, dirs, before, q)
  {
    if Reached(fs, dirs, before, q) {
      assert Reached(fs, dirs, before, q);
      var p :| LandsOn(fs, dirs, before, p, q);
      assert Kept(fs, dirs, before, cur, p);
    }
  }

  lemma TracksVacant(fs: Tree, dirs: map<Path, Path>, before: seq<DeletionStatus>, cur: Tree, to: Path)
    requires Tracks(fs, dirs, before, cur)
    ensures (forall q :: q in cur ==> !(to <= q)) <==> Vacant(fs, dirs, before, to)
  {
    if Vacant(fs, dirs, before, to) {
      forall q | q in cur ensures !(to <= q) {
        assert Reached(fs, dirs, before, q);
        var p :| LandsOn(fs, dirs, before, p, q);
        assert Clear(fs, dirs, before, p, to);
      }
    }
    if forall q :: q in cur ==> !(to <= q) {
      forall p | p in fs ensures Clear(fs, dirs, before, p, to) {
        assert Kept(fs, dirs, before, cur, p);
      }
    }
  }

  /** A rename that succeeds puts every entry where the longer list takes it. */
  lemma TracksRename(fs: Tree, dirs: map<Path, Path>, statuses: seq<DeletionStatus>, n: nat, cur: Tree)
    requires n < |statuses| && Tracks(fs, dirs, statuses[..n], cur) && Performed(dirs, statuses[n])
    requires CanRename(cur, statuses[n].from, statuses[n].to)
    ensures Tracks(fs, dirs, statuses[..n + 1], RenameTree(cur, statuses[n].from, statuses[n].to))
  {
    var s, before, after := statuses[n], statuses[..n], statuses[..n + 1];
    var next := RenameTree(cur, s.from, s.to);
    forall p | p in fs ensures Kept(fs, dirs, after, next, p) {
      WhereSnoc(dirs, statuses, n, p);
      GoneSnoc(fs, dirs, statuses, n, p);
      assert Kept(fs, dirs, before, cur, p);
      if !Gone(fs, dirs, before, p) { RenameTreeTo(cur, s.from, s.to, Where(dirs, before, p)); }
    }
    forall q | q in next ensures Reached(fs, dirs, after, q) {
      var o := RenameTreeFrom(cur, s.from, s.to, q);
      assert Reached(fs, dirs, before, o);
      var p :| LandsOn(fs, dirs, before, p, o);
      WhereSnoc(dirs, statuses, n, p);
      GoneSnoc(fs, dirs, statuses, n, p);
      assert LandsOn(fs, dirs, after, p, q);
    }
  }

  /** A deletion takes away what is at or below its path, if there is something at the path. */
  lemma TracksDelete(fs: Tree, dirs: map<Path, Path>, statuses: seq<DeletionStatus>, n: nat, cur: Tree)
    requires n < |statuses| && Tracks(fs, dirs, statuses[..n], cur) && statuses[n].Deleted?
    ensures
      var path := statuses[n].path;
      Tracks(fs, dirs, statuses[..n + 1], if path in cur then RemoveTree(cur, path) else cur)
  {
    var path, before, after := statuses[n].path, statuses[..n], statuses[..n + 1];
    var next := if path in cur then RemoveTree(cur, path) else cur;
    TracksReached(fs, dirs, before, cur, path);
    forall p | p in fs ensures Kept(fs, dirs, after, next, p) {
      WhereSnoc(dirs, statuses, n, p);
      GoneSnoc(fs, dirs, statuses, n, p);
      assert Kept(fs, dirs, before, cur, p);
    }
    forall q | q in next ensures Reached(fs, dirs, after, q) {
      assert Reached(fs, dirs, before, q);
      var p :| LandsOn(fs, dirs, before, p, q);
      WhereSnoc(dirs, statuses, n, p);
      GoneSnoc(fs, dirs, statuses, n, p);
      assert LandsOn(fs, dirs, after, p, q);
    }
  }

  lemma TracksSkip(fs: Tree, dirs: map<Path, Path>, statuses: seq<DeletionStatus>, n: nat, cur: Tree)
    requires n < |statuses| && Tracks(fs, dirs, statuses[..n], cur)
    requires statuses[n].Renamed? && !Performed(dirs, statuses[n])
    ensures Tracks(fs, dirs, statuses[..n + 1], cur)
  {
    var before, after := statuses[..n], statuses[..n + 1];
    forall p | p in fs ensures Kept(fs, dirs, after, cur, p) {
      WhereSnoc(dirs, statuses, n, p);
      GoneSnoc(fs, dirs, statuses, n, p);
      assert Kept(fs, dirs, before, cur, p);
    }
    forall q | q in cur ensures Reached(fs, dirs, after, q) {
      assert Reached(fs, dirs, before, q);
      var p :| LandsOn(fs, dirs, before, p, q);
      WhereSnoc(dirs, statuses, n, p);
      GoneSnoc(fs, dirs, statuses, n, p);
      assert LandsOn(fs, dirs, after, p, q);
    }
  }

  lemma TracksStart(fs: Tree, dirs: map<Path, Path>)
    ensures Tracks(fs, dirs, [], fs)
  {
    forall p | p in fs ensures Kept(fs, dirs, [], fs, p) {
    }
    forall q | q in fs ensures Reached(fs, dirs, [], q) {
      assert LandsOn(fs, dirs, [], q, q);
    }
  }

  /** What the rename at position n needs, in terms of the list and the starting tree. A deletion needs nothing. */
  ghost predicate CanPerform(fs: Tree, dirs: map<Path, Path>, statuses: seq<DeletionStatus>, n: nat)
    requires n < |statuses|
  {
    Performed(dirs, statuses[n]) ==>
      var s, before := statuses[n], statuses[..n];
      && s.from != [] && s.to != [] && Reached(fs, dirs, before, s.from)
      && Vacant(fs, dirs, before, s.to) && ParentReached(fs, dirs, before, s.to)
  }

  lemma OneStep(fs: Tree, dirs: map<Path, Path>, statuses: seq<DeletionStatus>, n: nat, p: Progress)
    requires n < |statuses| && !p.failed && Tracks(fs, dirs, statuses[..n], p.fs)
    ensures
      var p' := ApplyOne(dirs, statuses[n], p);
      && (!p'.failed <==> CanPerform(fs, dirs, statuses, n))
      && (!p'.failed ==> Tracks(fs, dirs, statuses[..n + 1], p'.fs))
  {
    var s, before := statuses[n], statuses[..n];
    if s.Deleted? {
      TracksDelete(fs, dirs, statuses, n, p.fs);
    } else if Performed(dirs, s) {
      TracksReached(fs, dirs, before, p.fs, s.from);
      TracksVacant(fs, dirs, before, p.fs, s.to);
      if |s.to| > 1 { TracksReached(fs, dirs, before, p.fs, Parent(s.to)); }
      if CanRename(p.fs, s.from, s.to) { TracksRename(fs, dirs, statuses, n, p.fs); }
    } else {
      TracksSkip(fs, dirs, statuses, n, p.fs);
    }
  }

  ghost predicate AllCan(fs: Tree, dirs: map<Path, Path>, statuses: seq<DeletionStatus>, n: nat)
    requires n <= |statuses|
  {
    forall j :: 0 <= j < n ==> CanPerform(fs, dirs, statuses, j)
  }

  lemma AllCanSnoc(fs: Tree, dirs: map<Path, Path>, statuses: seq<DeletionStatus>, n: nat)
    requires n < |statuses|
    ensures AllCan(fs, dirs, statuses, n + 1) <==> AllCan(fs, dirs, statuses, n) && CanPerform(fs, dirs, statuses, n)
  {
  }

  lemma StaysFailed(dirs: map<Path, Path>, s: DeletionStatus, p: Progress)
    requires p.failed
    ensures ApplyOne(dirs, s, p).failed
  {
  }

  lemma {:induction false} SucceedsPrefix(fs: Tree, dirs: map<Path, Path>, statuses: seq<DeletionStatus>, n: nat)
    requires n <= |statuses|
    ensures
      var p := ApplyAll(dirs, statuses[..n], Progress(fs, [], false));
      && (!p.failed <==> AllCan(fs, dirs, statuses, n))
      && (!p.failed ==> Tracks(fs, dirs, statuses[..n], p.fs))
  {
    if n == 0 {
      TracksStart(fs, dirs);
    } else {
      SucceedsPrefix(fs, dirs, statuses, n - 1);
      ApplyAllSnoc(dirs, statuses, n - 1, Progress(fs, [], false));
      AllCanSnoc(fs, dirs, statuses, n - 1);
      var p := ApplyAll(dirs, statuses[..n - 1], Progress(fs, [], false));
      if p.failed {
        StaysFailed(dirs, statuses[n - 1], p);
      } else {
        OneStep(fs, dirs, statuses, n - 1, p);
      }
    }
  }

  /**
   * For every list and every tree: no operation fails if and only if each rename could be performed in turn, and
   * then the destination holds exactly the entries that are not gone, each where the list takes it.
   */
  lemma ListSucceedsIff(statuses: seq<DeletionStatus>, fs: Tree)
    ensures
      var dirs := RenamedDirs(statuses);
      var p := ApplyAll(dirs, statuses, Progress(fs, [], false));
      && (!p.failed <==> AllCan(fs, dirs, statuses, |statuses|))
      && (!p.failed ==> Tracks(fs, dirs, statuses, p.fs))
  {
    SucceedsPrefix(fs, RenamedDirs(statuses), statuses, |statuses|);
    assert statuses[..|statuses|] == statuses;
  }

  // ---------------------------------------------------------------- lists about entries of the tree

  /** Deletions of entries, and renames of entries to paths that are free. Sources and targets may nest. */
  ghost predicate FromTree(statuses: seq<DeletionStatus>, fs: Tree)
  {
    forall i {:trigger About(statuses[i], fs)} :: 0 <= i < |statuses| ==> About(statuses[i], fs)
  }

  ghost predicate About(s: DeletionStatus, fs: Tree)
  {
    match s
    case Deleted(path, _) => path in fs
    case Renamed(from, to, _) => from in fs && from != [] && to != [] && Free(fs, to)
  }

  /** Nothing is renamed to a place at or below a deleted path. */
  predicate DeletionsApart(statuses: seq<DeletionStatus>)
  {
    forall k, i :: 0 <= k < |statuses| && 0 <= i < |statuses| && statuses[k].Deleted? && statuses[i].Renamed? ==>
      !(statuses[k].path <= statuses[i].to)
  }

  /** A performed rename of an ancestor of `p`, or of `p` itself, among the first n. */
  predicate MovedBefore(dirs: map<Path, Path>, statuses: seq<DeletionStatus>, n: nat, p: Path)
    requires n <= |statuses|
  {
    exists i :: 0 <= i < n && Performed(dirs, statuses[i]) && statuses[i].from <= p
  }

  lemma MovedBeforeSnoc(dirs: map<Path, Path>, statuses: seq<DeletionStatus>, n: nat, p: Path)
    requires n < |statuses|
    ensures MovedBefore(dirs, statuses, n + 1, p)
       <==> MovedBefore(dirs, statuses, n, p) || (Performed(dirs, statuses[n]) && statuses[n].from <= p)
  {
  }

  predicate BelowTarget(statuses: seq<DeletionStatus>, n: nat, q: Path)
    requires n <= |statuses|
  {
    exists i :: 0 <= i < n && statuses[i].Renamed? && statuses[i].to <= q
  }

  lemma BelowTargetSnoc(statuses: seq<DeletionStatus>, n: nat, q: Path)
    requires n < |statuses|
    ensures BelowTarget(statuses, n + 1, q)
       <==> BelowTarget(statuses, n, q) || (statuses[n].Renamed? && statuses[n].to <= q)
  {
  }

  ghost predicate StaysOrBelow(dirs: map<Path, Path>, statuses: seq<DeletionStatus>, n: nat, p: Path)
    requires n <= |statuses|
  {
    var q := Where(dirs, statuses[..n], p);
    if MovedBefore(dirs, statuses, n, p) then BelowTarget(statuses, n, q) else q == p
  }

  lemma StayStep(q: Path, from: Path, to: Path)
    ensures if from <= q then to <= Relocate(q, from, to) else Relocate(q, from, to) == q
  {
  }

  lemma StaysOrBelowNext(dirs: map<Path, Path>, statuses: seq<DeletionStatus>, n: nat, p: Path)
    requires n < |statuses| && StaysOrBelow(dirs, statuses, n, p)
    ensures StaysOrBelow(dirs, statuses, n + 1, p)
  {
    WhereSnoc(dirs, statuses, n, p);
    MovedBeforeSnoc(dirs, statuses, n, p);
    BelowTargetSnoc(statuses, n, Where(dirs, statuses[..n + 1], p));
    if statuses[n].Renamed? { StayStep(Where(dirs, statuses[..n], p), statuses[n].from, statuses[n].to); }
  }

  /** An entry stays where it is until an ancestor is renamed; from then on it is below some target. */
  lemma {:induction false} StaysOrBelowTarget(dirs: map<Path, Path>, statuses: seq<DeletionStatus>, n: nat, p: Path)
    requires n <= |statuses|
    ensures StaysOrBelow(dirs, statuses, n, p)
  {
    if n > 0 {
      StaysOrBelowTarget(dirs, statuses, n - 1, p);
      StaysOrBelowNext(dirs, statuses, n - 1, p);
    }
  }

  /** A place below a target is no entry of the starting tree. */
  lemma TargetsAreNew(statuses: seq<DeletionStatus>, fs: Tree, n: nat, q: Path)
    requires FromTree(statuses, fs) && n <= |statuses| && BelowTarget(statuses, n, q)
    ensures q !in fs
  {
    var i :| 0 <= i < n && statuses[i].Renamed? && statuses[i].to <= q;
    assert About(statuses[i], fs);
    assert q in fs ==> Outside(statuses[i].to, q);
  }

  /** A deleted path and a place below a target are not above one another. */
  lemma DeletedNotMoved(statuses: seq<DeletionStatus>, fs: Tree, n: nat, k: nat, q: Path)
    requires FromTree(statuses, fs) && DeletionsApart(statuses) && n <= |statuses| && k < |statuses|
    requires statuses[k].Deleted? && BelowTarget(statuses, n, q)
    ensures !(statuses[k].path <= q)
  {
    var i :| 0 <= i < n && statuses[i].Renamed? && statuses[i].to <= q;
    var d := statuses[k].path;
    assert About(statuses[k], fs) && About(statuses[i], fs);
    assert Outside(statuses[i].to, d) && !(d <= statuses[i].to);
    if d <= q { PrefixesComparable(d, statuses[i].to, q); }
  }

  /** A deletion of an ancestor of `p`, or of `p` itself, that no performed rename of an ancestor precedes. */
  predicate DeletedInPlace(dirs: map<Path, Path>, statuses: seq<DeletionStatus>, n: nat, p: Path)
    requires n <= |statuses|
  {
    exists j :: 0 <= j < n && InPlaceAt(dirs, statuses, j, p)
  }

  predicate InPlaceAt(dirs: map<Path, Path>, statuses: seq<DeletionStatus>, j: nat, p: Path)
    requires j < |statuses|
  {
    statuses[j].Deleted? && statuses[j].path <= p && !MovedBefore(dirs, statuses, j, p)
  }

  lemma DeletedInPlaceSnoc(dirs: map<Path, Path>, statuses: seq<DeletionStatus>, n: nat, p: Path)
    requires n < |statuses|
    ensures DeletedInPlace(dirs, statuses, n + 1, p)
       <==> DeletedInPlace(dirs, statuses, n, p) || InPlaceAt(dirs, statuses, n, p)
  {
  }

  lemma MovedWithAncestor(dirs: map<Path, Path>, statuses: seq<DeletionStatus>, j: nat, n: nat, d: Path, p: Path)
    requires j <= n <= |statuses| && d <= p && MovedBefore(dirs, statuses, j, d)
    ensures MovedBefore(dirs, statuses, n, p)
  {
    var i :| 0 <= i < j && Performed(dirs, statuses[i]) && statuses[i].from <= d;
    assert statuses[i].from <= p;
  }

  /** What is deleted in place takes everything below it along. */
  lemma InPlaceBelow(dirs: map<Path, Path>, statuses: seq<DeletionStatus>, n: nat, d: Path, p: Path)
    requires n <= |statuses| && d <= p && DeletedInPlace(dirs, statuses, n, d) && !MovedBefore(dirs, statuses, n, p)
    ensures DeletedInPlace(dirs, statuses, n, p)
  {
    var j :| 0 <= j < n && InPlaceAt(dirs, statuses, j, d);
    if MovedBefore(dirs, statuses, j, p) {
      MovedWithAncestor(dirs, statuses, j, n, p, p);
    } else {
      assert InPlaceAt(dirs, statuses, j, p);
    }
  }

  ghost predicate Agrees(fs: Tree, dirs: map<Path, Path>, statuses: seq<DeletionStatus>, n: nat, p: Path)
    requires n <= |statuses|
  {
    Gone(fs, dirs, statuses[..n], p) <==> DeletedInPlace(dirs, statuses, n, p)
  }

  lemma DeletionStep(fs: Tree, dirs: map<Path, Path>, statuses: seq<DeletionStatus>, n: nat, p: Path)
    requires FromTree(statuses, fs) && DeletionsApart(statuses) && n < |statuses| && p in fs && statuses[n].Deleted?
    requires Agrees(fs, dirs, statuses, n, p) && Agrees(fs, dirs, statuses, n, statuses[n].path)
    ensures
      var d, before := statuses[n].path, statuses[..n];
      Gone(fs, dirs, before, p) || (d <= Where(dirs, before, p) && Reached(fs, dirs, before, d))
      <==> DeletedInPlace(dirs, statuses, n, p) || InPlaceAt(dirs, statuses, n, p)
  {
    var d, before := statuses[n].path, statuses[..n];
    assert About(statuses[n], fs);
    StaysOrBelowTarget(dirs, statuses, n, p);
    if MovedBefore(dirs, statuses, n, p) {
      DeletedNotMoved(statuses, fs, n, n, Where(dirs, before, p));
    } else if d <= p && !DeletedInPlace(dirs, statuses, n, p) {
      if MovedBefore(dirs, statuses, n, d) { MovedWithAncestor(dirs, statuses, n, n, d, p); }
      StaysOrBelowTarget(dirs, statuses, n, d);
      if DeletedInPlace(dirs, statuses, n, d) { InPlaceBelow(dirs, statuses, n, d, p); }
      assert LandsOn(fs, dirs, before, d, d);
    }
  }

  lemma AgreesNext(fs: Tree, dirs: map<Path, Path>, statuses: seq<DeletionStatus>, n: nat, p: Path)
    requires FromTree(statuses, fs) && DeletionsApart(statuses) && n < |statuses| && p in fs
    requires Agrees(fs, dirs, statuses, n, p)
    requires statuses[n].Deleted? ==> Agrees(fs, dirs, statuses, n, statuses[n].path)
    ensures Agrees(fs, dirs, statuses, n + 1, p)
  {
    GoneSnoc(fs, dirs, statuses, n, p);
    DeletedInPlaceSnoc(dirs, statuses, n, p);
    if statuses[n].Deleted? { DeletionStep(fs, dirs, statuses, n, p); }
  }

  /** An entry is gone if and only if it was deleted in place. */
  lemma {:induction false} GoneIff(fs: Tree, dirs: map<Path, Path>, statuses: seq<DeletionStatus>, n: nat, p: Path)
    requires FromTree(statuses, fs) && DeletionsApart(statuses) && n <= |statuses| && p in fs
    ensures Agrees(fs, dirs, statuses, n, p)
  {
    if n > 0 {
      GoneIff(fs, dirs, statuses, n - 1, p);
      if statuses[n - 1].Deleted? {
        assert About(statuses[n - 1], fs);
        GoneIff(fs, dirs, statuses, n - 1, statuses[n - 1].path);
      }
      AgreesNext(fs, dirs, statuses, n - 1, p);
    }
  }

  // ---------------------------------------------------------------- the two laws

  /** The source of a rename is in place if and only if no ancestor was renamed or deleted before. */
  lemma SourceReachedIff(fs: Tree, dirs: map<Path, Path>, statuses: seq<DeletionStatus>, n: nat)
    requires FromTree(statuses, fs) && DeletionsApart(statuses) && n < |statuses| && statuses[n].Renamed?
    ensures
      var from := statuses[n].from;
      Reached(fs, dirs, statuses[..n], from)
      <==> !MovedBefore(dirs, statuses, n, from) && !DeletedInPlace(dirs, statuses, n, from)
  {
    var from := statuses[n].from;
    assert About(statuses[n], fs);
    StaysOrBelowTarget(dirs, statuses, n, from);
    GoneIff(fs, dirs, statuses, n, from);
    if !MovedBefore(dirs, statuses, n, from) && !DeletedInPlace(dirs, statuses, n, from) {
      assert LandsOn(fs, dirs, statuses[..n], from, from);
    } else {
      forall p ensures !LandsOn(fs, dirs, statuses[..n], p, from) {
        StaysOrBelowTarget(dirs, statuses, n, p);
        if MovedBefore(dirs, statuses, n, p) { TargetsAreNew(statuses, fs, n, Where(dirs, statuses[..n], p)); }
      }
    }
  }

  /** No performed rename stands behind a performed rename or a deletion of an ancestor of its source. */
  predicate InnerFirst(dirs: map<Path, Path>, statuses: seq<DeletionStatus>)
  {
    forall j {:trigger statuses[j]} :: 0 <= j < |statuses| && Performed(dirs, statuses[j]) ==>
      !MovedBefore(dirs, statuses, j, statuses[j].from) && !DeletedInPlace(dirs, statuses, j, statuses[j].from)
  }

  /** The parent of every performed rename's target is there when its turn comes, and the target is vacant. */
  ghost predicate TargetsReady(fs: Tree, dirs: map<Path, Path>, statuses: seq<DeletionStatus>)
  {
    forall j {:trigger statuses[j]} :: 0 <= j < |statuses| && Performed(dirs, statuses[j]) ==>
      ParentReached(fs, dirs, statuses[..j], statuses[j].to) && Vacant(fs, dirs, statuses[..j], statuses[j].to)
  }

  /**
   * For deletions and renames of entries of the tree, nested or not: no operation fails if and only if inner
   * renames stand before outer operations and every target has its parent and is vacant at its turn. Both sides of
   * the condition are read off the list and the starting tree.
   */
  lemma NestedMovesSucceedIff(statuses: seq<DeletionStatus>, fs: Tree)
    requires FromTree(statuses, fs) && DeletionsApart(statuses)
    ensures
      var dirs := RenamedDirs(statuses);
      !ApplyAll(dirs, statuses, Progress(fs, [], false)).failed
      <==> InnerFirst(dirs, statuses) && TargetsReady(fs, dirs, statuses)
  {
    var dirs := RenamedDirs(statuses);
    ListSucceedsIff(statuses, fs);
    forall j | 0 <= j < |statuses| && Performed(dirs, statuses[j])
      ensures CanPerform(fs, dirs, statuses, j)
         <==> && !MovedBefore(dirs, statuses, j, statuses[j].from)
              && !DeletedInPlace(dirs, statuses, j, statuses[j].from)
              && ParentReached(fs, dirs, statuses[..j], statuses[j].to)
              && Vacant(fs, dirs, statuses[..j], statuses[j].to)
    {
      assert About(statuses[j], fs);
      SourceReachedIff(fs, dirs, statuses, j);
    }
  }

  ghost predicate EndsAt(fs: Tree, dirs: map<Path, Path>, statuses: seq<DeletionStatus>, end: Tree, p: Path)
    requires p in fs
  {
    DeletedInPlace(dirs, statuses, |statuses|, p)
    || (Where(dirs, statuses, p) in end && end[Where(dirs, statuses, p)] == fs[p])
  }

  ghost predicate CameFrom(fs: Tree, dirs: map<Path, Path>, statuses: seq<DeletionStatus>, q: Path)
  {
    exists p :: p in fs && !DeletedInPlace(dirs, statuses, |statuses|, p) && Where(dirs, statuses, p) == q
  }

  /**
   * Where a mixed list without failures leaves everything: an entry is gone if and only if a deletion of it or of
   * an ancestor stands before every performed rename of an ancestor; every other entry ends where the renames take
   * it, and nothing else is there.
   */
  lemma MixedListEnds(statuses: seq<DeletionStatus>, fs: Tree)
    requires FromTree(statuses, fs) && DeletionsApart(statuses)
    requires !ApplyAll(RenamedDirs(statuses), statuses, Progress(fs, [], false)).failed
    ensures
      var dirs := RenamedDirs(statuses);
      var end := ApplyAll(dirs, statuses, Progress(fs, [], false)).fs;
      && (forall p {:trigger EndsAt(fs, dirs, statuses, end, p)} :: p in fs ==> EndsAt(fs, dirs, statuses, end, p))
      && (forall q {:trigger CameFrom(fs, dirs, statuses, q)} :: q in end ==> CameFrom(fs, dirs, statuses, q))
  {
    var dirs := RenamedDirs(statuses);
    var end := ApplyAll(dirs, statuses, Progress(fs, [], false)).fs;
    ListSucceedsIff(statuses, fs);
    assert statuses[..|statuses|] == statuses;
    forall p | p in fs ensures EndsAt(fs, dirs, statuses, end, p) {
      GoneIff(fs, dirs, statuses, |statuses|, p);
      assert Kept(fs, dirs, statuses, end, p);
    }
    forall q | q in end ensures CameFrom(fs, dirs, statuses, q) {
      assert Reached(fs, dirs, statuses, q);
      var p :| LandsOn(fs, dirs, statuses, p, q);
      GoneIff(fs, dirs, statuses, |statuses|, p);
    }
  }

  // ---------------------------------------------------------------- where order matters

  /** A directory rename and a separate move of an entry inside it. */
  const NESTED := [Renamed(["a"], ["b"], true), Renamed(["a", "x"], ["c"], false)]

  function NestedTree(dir: Node, file: Node): Tree
  {
    map[["a"] := dir, ["a", "x"] := file]
  }

  lemma TwoStatuses(a: DeletionStatus, b: DeletionStatus, dirs: map<Path, Path>, p: Progress)
    ensures ApplyAll(dirs, [a, b], p) == ApplyOne(dirs, b, ApplyOne(dirs, a, p))
  {
    assert [a, b][..1] == [a] && [a][..0] == [];
    assert ApplyAll(dirs, [a], p) == ApplyOne(dirs, a, ApplyAll(dirs, [], p));
  }

  /** The only renamed directory is "a", so neither status is skipped. */
  lemma NestedNotSkipped(statuses: seq<DeletionStatus>)
    requires statuses == NESTED || statuses == [NESTED[1], NESTED[0]]
    ensures !SkipPhysical(RenamedDirs(statuses), ["a"], ["b"])
    ensures !SkipPhysical(RenamedDirs(statuses), ["a", "x"], ["c"])
  {
    assert "a"[0] == 'a' && "b"[0] == 'b' && "c"[0] == 'c' && "x"[0] == 'x';
    assert Name(["a"]) == "a" && Name(["b"]) == "b" && Name(["a", "x"]) == "x" && Name(["c"]) == "c";
  }

  lemma NestedOuter(dir: Node, file: Node)
    ensures
      var fs := NestedTree(dir, file);
      CanRename(fs, ["a"], ["b"]) && !CanRename(RenameTree(fs, ["a"], ["b"]), ["a", "x"], ["c"])
  {
    var fs := NestedTree(dir, file);
    assert "a"[0] == 'a' && "b"[0] == 'b';
    forall q | q in fs ensures !(["b"] <= q) {
      assert q[0] == "a" && ["b"][0] == "b";
    }
    forall q | q in RenameTree(fs, ["a"], ["b"]) ensures q != [] && q[0] == "b" {
      var p := RenameTreeFrom(fs, ["a"], ["b"], q);
      assert p[0] == "a" && ["a"] <= p;
    }
    assert ["a", "x"][0] == "a";
  }

  lemma NestedInner(dir: Node, file: Node)
    ensures
      var fs := NestedTree(dir, file);
      CanRename(fs, ["a", "x"], ["c"]) && RenameTree(fs, ["a", "x"], ["c"]) == map[["a"] := dir, ["c"] := file]
  {
    var fs := NestedTree(dir, file);
    assert "a"[0] == 'a' && "c"[0] == 'c';
    forall q | q in fs ensures !(["c"] <= q) {
      assert q[0] == "a" && ["c"][0] == "c";
    }
    var r := RenameTree(fs, ["a", "x"], ["c"]);
    RenameTreeTo(fs, ["a", "x"], ["c"], ["a"]);
    RenameTreeTo(fs, ["a", "x"], ["c"], ["a", "x"]);
    assert Relocate(["a"], ["a", "x"], ["c"]) == ["a"];
    assert Relocate(["a", "x"], ["a", "x"], ["c"]) == ["c"];
    forall q | q in r ensures q == ["a"] || q == ["c"] {
      var p := RenameTreeFrom(fs, ["a", "x"], ["c"], q);
    }
  }

  lemma NestedLast(dir: Node, file: Node)
    ensures
      var fs: Tree := map[["a"] := dir, ["c"] := file];
      CanRename(fs, ["a"], ["b"]) && RenameTree(fs, ["a"], ["b"]) == map[["b"] := dir, ["c"] := file]
  {
    var fs: Tree := map[["a"] := dir, ["c"] := file];
    assert "a"[0] == 'a' && "b"[0] == 'b' && "c"[0] == 'c';
    forall q | q in fs ensures !(["b"] <= q) {
      assert (q[0] == "a" || q[0] == "c") && ["b"][0] == "b";
    }
    var r := RenameTree(fs, ["a"], ["b"]);
    RenameTreeTo(fs, ["a"], ["b"], ["a"]);
    RenameTreeTo(fs, ["a"], ["b"], ["c"]);
    assert Relocate(["a"], ["a"], ["b"]) == ["b"];
    assert ["c"][0] == "c" && Relocate(["c"], ["a"], ["b"]) == ["c"];
    forall q | q in r ensures q == ["b"] || q == ["c"] {
      var p := RenameTreeFrom(fs, ["a"], ["b"], q);
    }
  }

  /** Moves that are not disjoint depend on the list order: outer first fails, inner first succeeds. */
  lemma NestedMovesDependOnOrder(dir: Node, file: Node)
    ensures ApplyAll(RenamedDirs(NESTED), NESTED, Progress(NestedTree(dir, file), [], false)).failed
    ensures
      var swapped := [NESTED[1], NESTED[0]];
      var p := ApplyAll(RenamedDirs(swapped), swapped, Progress(NestedTree(dir, file), [], false));
      !p.failed && p.fs == map[["b"] := dir, ["c"] := file]
  {
    var start := Progress(NestedTree(dir, file), [], false);
    var swapped := [NESTED[1], NESTED[0]];
    NestedNotSkipped(NESTED);
    NestedNotSkipped(swapped);
    TwoStatuses(NESTED[0], NESTED[1], RenamedDirs(NESTED), start);
    TwoStatuses(NESTED[1], NESTED[0], RenamedDirs(swapped), start);
    assert NESTED == [NESTED[0], NESTED[1]];
    NestedOuter(dir, file);
    NestedInner(dir, file);
    NestedLast(dir, file);
  }

  /** A renamed directory and an entry renamed inside it: its new path is under the directory's new path. */
  const INSIDE := [Renamed(["a"], ["b"], true), Renamed(["a", "x"], ["b", "y"], false)]

  lemma InsideFromTree(statuses: seq<DeletionStatus>, dir: Node, file: Node)
    requires statuses == INSIDE || statuses == [INSIDE[1], INSIDE[0]]
    ensures FromTree(statuses, NestedTree(dir, file)) && DeletionsApart(statuses)
    ensures forall s :: s in statuses ==> Performed(RenamedDirs(statuses), s)
  {
    var fs := NestedTree(dir, file);
    assert "a"[0] == 'a' && "b"[0] == 'b' && "x"[0] == 'x' && "y"[0] == 'y';
    forall q | q in fs ensures Outside(["b"], q) && Outside(["b", "y"], q) {
      assert q[0] == "a" && ["b"][0] == "b" && ["b", "y"][0] == "b";
    }
    assert Name(["a"]) == "a" && Name(["b"]) == "b" && Name(["a", "x"]) == "x" && Name(["b", "y"]) == "y";
  }

  /** For an entry renamed inside a renamed directory both orders fail: there is no order that works. */
  lemma InsideFailsEitherWay(dir: Node, file: Node)
    ensures ApplyAll(RenamedDirs(INSIDE), INSIDE, Progress(NestedTree(dir, file), [], false)).failed
    ensures
      var swapped := [INSIDE[1], INSIDE[0]];
      ApplyAll(RenamedDirs(swapped), swapped, Progress(NestedTree(dir, file), [], false)).failed
  {
    var fs, swapped := NestedTree(dir, file), [INSIDE[1], INSIDE[0]];
    InsideFromTree(INSIDE, dir, file);
    InsideFromTree(swapped, dir, file);
    NestedMovesSucceedIff(INSIDE, fs);
    NestedMovesSucceedIff(swapped, fs);
    assert INSIDE[0].from <= INSIDE[1].from;
    assert MovedBefore(RenamedDirs(INSIDE), INSIDE, 1, INSIDE[1].from);
    assert swapped[..0] == [] && Parent(swapped[0].to) == ["b"];
    assert "a"[0] == 'a' && "b"[0] == 'b';
    assert ["a"][0] == "a" && ["a", "x"][0] == "a" && ["b"][0] == "b";
    forall p ensures !LandsOn(fs, RenamedDirs(swapped), [], p, ["b"]) {
    }
    assert !ParentReached(fs, RenamedDirs(swapped), swapped[..0], swapped[0].to);
  }

  // ---------------------------------------------------------------- a deletion that comes too late

  /** A directory is renamed, then an entry is deleted under its old path. */
  const LATE := [Renamed(["a"], ["b"], true), Deleted(["a", "x"], false)]

  lemma LateMoved(dir: Node, file: Node)
    requires CanRename(NestedTree(dir, file), ["a"], ["b"])
    ensures
      var moved := RenameTree(NestedTree(dir, file), ["a"], ["b"]);
      ["a", "x"] !in moved && ["b", "x"] in moved && moved[["b", "x"]] == file
  {
    var fs := NestedTree(dir, file);
    assert "a"[0] == 'a' && "b"[0] == 'b';
    RenameTreeTo(fs, ["a"], ["b"], ["a", "x"]);
    assert Relocate(["a", "x"], ["a"], ["b"]) == ["b", "x"];
    forall q | q in RenameTree(fs, ["a"], ["b"]) ensures q != [] && q[0] == "b" {
      var o := RenameTreeFrom(fs, ["a"], ["b"], q);
      assert o[0] == "a" && ["a"] <= o;
    }
    assert ["a", "x"][0] == "a";
  }

  /** Nothing fails, but the deletion finds nothing: the entry stays, under the directory's new path. */
  lemma LateDeletionIsLost(dir: Node, file: Node)
    ensures
      var p := ApplyAll(RenamedDirs(LATE), LATE, Progress(NestedTree(dir, file), [], false));
      !p.failed && ["b", "x"] in p.fs && p.fs[["b", "x"]] == file
  {
    NestedOuter(dir, file);
    LateMoved(dir, file);
    assert "a"[0] == 'a' && "b"[0] == 'b';
    assert Name(["a"]) == "a" && Name(["b"]) == "b";
    TwoStatuses(LATE[0], LATE[1], RenamedDirs(LATE), Progress(NestedTree(dir, file), [], false));
  }
}
