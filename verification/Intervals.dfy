/** Sets of byte offsets kept as sorted, disjoint, non-adjacent half-open intervals. */
module Intervals {
  import opened Bytes

  type Interval = (nat, nat)

  predicate Holds(iv: seq<Interval>, x: nat)
  {
    exists i :: 0 <= i < |iv| && iv[i].0 <= x < iv[i].1
  }

  function Min(a: nat, b: nat): nat { if b < a then b else a }
  function Max(a: nat, b: nat): nat { if b > a then b else a }

  /** The offsets a list of intervals denotes. */
  ghost function Points(iv: seq<Interval>): iset<nat>
  {
    iset x: nat | Holds(iv, x)
  }

  predicate Within(start: nat, end: nat, x: nat)
  {
    start <= x < end
  }

  ghost function Span(start: nat, end: nat): iset<nat>
  {
    iset x: nat | Within(start, end, x)
  }

  /** Non-empty, ascending, and with a gap between any two. */
  ghost predicate Canonical(iv: seq<Interval>)
  {
    && (forall i {:trigger NonEmpty(iv, i)} :: 0 <= i < |iv| ==> NonEmpty(iv, i))
    && (forall i, j {:trigger Before(iv, i, j)} :: 0 <= i < j < |iv| ==> Before(iv, i, j))
  }

  predicate NonEmpty(iv: seq<Interval>, i: nat)
    requires i < |iv|
  {
    iv[i].0 < iv[i].1
  }

  predicate Before(iv: seq<Interval>, i: nat, j: nat)
    requires i < j < |iv|
  {
    iv[i].1 < iv[j].0
  }

  predicate LeftAt(iv: seq<Interval>, j: nat, x: nat)
    requires j < |iv|
  {
    iv[j].1 < x
  }

  predicate RightAt(iv: seq<Interval>, j: nat, x: nat)
    requires j < |iv|
  {
    x < iv[j].0
  }

  /** The first k intervals end before x. */
  predicate LeftOf(iv: seq<Interval>, k: nat, x: nat)
    requires k <= |iv|
  {
    forall j {:trigger LeftAt(iv, j, x)} :: 0 <= j < k ==> LeftAt(iv, j, x)
  }

  /** The intervals from m on begin after x. */
  predicate RightOf(iv: seq<Interval>, m: nat, x: nat)
    requires m <= |iv|
  {
    forall j {:trigger RightAt(iv, j, x)} :: m <= j < |iv| ==> RightAt(iv, j, x)
  }

  lemma PointsAppend(a: seq<Interval>, b: seq<Interval>)
    ensures Points(a + b) == Points(a) + Points(b)
  {
    forall x: nat
      ensures Holds(a + b, x) <==> Holds(a, x) || Holds(b, x)
    {
      if Holds(a, x) {
        var i :| 0 <= i < |a| && a[i].0 <= x < a[i].1;
        assert (a + b)[i] == a[i];
      }
      if Holds(b, x) {
        var i :| 0 <= i < |b| && b[i].0 <= x < b[i].1;
        assert (a + b)[|a| + i] == b[i];
      }
    }
  }

  lemma PointsOne(start: nat, end: nat)
    ensures Points([(start, end)]) == Span(start, end)
  {
    forall x: nat | x in Span(start, end)
      ensures Holds([(start, end)], x)
    {
      assert [(start, end)][0].0 <= x < [(start, end)][0].1;
    }
  }

  // ---------------------------------------------------------------- canonical forms are unique

  /** The first interval of a canonical list is where its offsets start and first stop. */
  lemma FirstInterval(iv: seq<Interval>)
    requires Canonical(iv) && iv != []
    ensures Holds(iv, iv[0].0) && !Holds(iv, iv[0].1)
    ensures forall x: nat :: x < iv[0].0 ==> !Holds(iv, x)
    ensures forall x: nat :: iv[0].0 <= x < iv[0].1 ==> Holds(iv, x)
    ensures forall x: nat :: Holds(iv[1..], x) <==> Holds(iv, x) && x >= iv[0].1
  {
    assert iv == [iv[0]] + iv[1..];
    PointsAppend([iv[0]], iv[1..]);
    PointsOne(iv[0].0, iv[0].1);
    assert forall x: nat :: x in Points(iv) <==> Holds(iv, x);
    assert forall x: nat :: x in Points(iv[1..]) <==> Holds(iv[1..], x);
    assert NonEmpty(iv, 0);
    assert Holds(iv, iv[0].0);
    forall x: nat | Holds(iv[1..], x)
      ensures x > iv[0].1
    {
      var i :| 0 <= i < |iv[1..]| && iv[1..][i].0 <= x < iv[1..][i].1;
      assert iv[i + 1] == iv[1..][i] && Before(iv, 0, i + 1);
    }
  }

  lemma CanonicalTail(iv: seq<Interval>)
    requires Canonical(iv) && iv != []
    ensures Canonical(iv[1..])
  {
    forall i | 0 <= i < |iv| - 1 ensures NonEmpty(iv[1..], i) {
      assert NonEmpty(iv, i + 1);
    }
    forall i, j | 0 <= i < j < |iv| - 1 ensures Before(iv[1..], i, j) {
      assert Before(iv, i + 1, j + 1);
    }
  }

  /** Two canonical lists with the same offsets are the same list. */
  lemma {:induction false} CanonicalUnique(a: seq<Interval>, b: seq<Interval>)
    requires Canonical(a) && Canonical(b) && Points(a) == Points(b)
    ensures a == b
    decreases |a|
  {
    if a != [] && b != [] {
      SameHead(a, b);
      CanonicalTail(a);
      CanonicalTail(b);
      CanonicalUnique(a[1..], b[1..]);
      assert a == [a[0]] + a[1..] && b == [b[0]] + b[1..];
    } else if a != [] {
      assert a[0].0 in Points(a) <==> Holds(a, a[0].0);
      assert a[0].0 in Points(b) <==> Holds(b, a[0].0);
      FirstInterval(a);
    } else if b != [] {
      assert b[0].0 in Points(b) <==> Holds(b, b[0].0);
      assert b[0].0 in Points(a) <==> Holds(a, b[0].0);
      FirstInterval(b);
    }
  }

  lemma SameHead(a: seq<Interval>, b: seq<Interval>)
    requires Canonical(a) && Canonical(b) && Points(a) == Points(b) && a != [] && b != []
    ensures a[0] == b[0] && Points(a[1..]) == Points(b[1..])
  {
    FirstInterval(a);
    FirstInterval(b);
    forall x: nat ensures Holds(a, x) <==> Holds(b, x) {
      assert x in Points(a) <==> x in Points(b);
    }
    assert NonEmpty(a, 0) && NonEmpty(b, 0);
    assert a[0].0 == b[0].0 && a[0].1 == b[0].1;
    forall x: nat ensures Holds(a[1..], x) <==> Holds(b[1..], x) {
      assert Holds(a[1..], x) <==> Holds(a, x) && x >= a[0].1;
    }
  }

  // ---------------------------------------------------------------- insertion

  /**
   * Replacing iv[k..m] by one interval [ns, ne) that is the union of those intervals and
   * [start, end), and lies strictly between its neighbours.
   */
  ghost predicate Splices(iv: seq<Interval>, k: nat, m: nat, ns: nat, ne: nat, start: nat, end: nat)
  {
    && k <= m <= |iv| && ns < ne && LeftOf(iv, k, ns) && RightOf(iv, m, ne)
    && Span(ns, ne) == Span(start, end) + Points(iv[k..m])
  }

  lemma SpliceCanonical(iv: seq<Interval>, k: nat, m: nat, ns: nat, ne: nat)
    requires Canonical(iv) && k <= m <= |iv| && ns < ne && LeftOf(iv, k, ns) && RightOf(iv, m, ne)
    ensures Canonical(iv[..k] + [(ns, ne)] + iv[m..])
  {
    var r := iv[..k] + [(ns, ne)] + iv[m..];
    forall i | 0 <= i < |r| ensures NonEmpty(r, i) {
      if i < k {
        assert r[i] == iv[i] && NonEmpty(iv, i);
      } else if i > k {
        assert r[i] == iv[m + (i - k - 1)] && NonEmpty(iv, m + (i - k - 1));
      }
    }
    forall i, j | 0 <= i < j < |r| ensures Before(r, i, j) {
      SpliceBefore(iv, k, m, ns, ne, i, j);
    }
  }

  lemma SpliceBefore(iv: seq<Interval>, k: nat, m: nat, ns: nat, ne: nat, i: nat, j: nat)
    requires Canonical(iv) && k <= m <= |iv| && ns < ne && LeftOf(iv, k, ns) && RightOf(iv, m, ne)
    requires i < j < k + 1 + (|iv| - m)
    ensures
      var r := iv[..k] + [(ns, ne)] + iv[m..];
      Before(r, i, j)
  {
    var r := iv[..k] + [(ns, ne)] + iv[m..];
    if j < k {
      assert r[i] == iv[i] && r[j] == iv[j] && Before(iv, i, j);
    } else if i < k && j == k {
      assert r[i] == iv[i] && LeftAt(iv, i, ns);
    } else if i < k {
      assert r[i] == iv[i] && LeftAt(iv, i, ns) && RightAt(iv, m + (j - k - 1), ne);
    } else if i == k {
      assert RightAt(iv, m + (j - k - 1), ne);
    } else {
      assert Before(iv, m + (i - k - 1), m + (j - k - 1));
    }
  }

  lemma SpliceLaw(iv: seq<Interval>, k: nat, m: nat, ns: nat, ne: nat, start: nat, end: nat)
    requires Canonical(iv) && Splices(iv, k, m, ns, ne, start, end)
    ensures Canonical(iv[..k] + [(ns, ne)] + iv[m..])
    ensures Points(iv[..k] + [(ns, ne)] + iv[m..]) == Points(iv) + Span(start, end)
  {
    SpliceCanonical(iv, k, m, ns, ne);
    SplicePoints(iv[..k], iv[k..m], iv[m..], ns, ne);
    CutTwice(iv, k, m);
    Exchange(Points(iv[..k]), Points(iv[k..m]), Points(iv[m..]), Span(ns, ne), Span(start, end));
  }

  lemma CutTwice(iv: seq<Interval>, k: nat, m: nat)
    requires k <= m <= |iv|
    ensures iv == iv[..k] + iv[k..m] + iv[m..]
  {
  }

  lemma Exchange(a: iset<nat>, b: iset<nat>, c: iset<nat>, merged: iset<nat>, more: iset<nat>)
    requires merged == more + b
    ensures a + merged + c == a + b + c + more
  {
  }

  lemma SplicePoints(a: seq<Interval>, b: seq<Interval>, c: seq<Interval>, ns: nat, ne: nat)
    ensures Points(a + [(ns, ne)] + c) == Points(a) + Span(ns, ne) + Points(c)
    ensures Points(a + b + c) == Points(a) + Points(b) + Points(c)
  {
    PointsAppend(a, [(ns, ne)]);
    PointsAppend(a + [(ns, ne)], c);
    PointsOne(ns, ne);
    PointsAppend(a, b);
    PointsAppend(a + b, c);
  }

  /** Overlapping or touching intervals have one interval as their union. */
  lemma MergeSpan(ns: nat, ne: nat, s: nat, e: nat)
    requires ns < ne && s < e && s <= ne && ns <= e
    ensures Span(Min(ns, s), Max(ne, e)) == Span(ns, ne) + Span(s, e)
  {
  }

  class IntervalSet {
    var intervals: seq<Interval>

    ghost predicate Valid()
      reads this
    {
      Canonical(intervals)
    }

    constructor ()
      ensures Valid() && intervals == []
    {
      intervals := [];
    }

    /** Adds [start, end): the set union, in canonical form. */
    method Insert(start: nat, end: nat)
      requires Valid()
      modifies this
      ensures Valid() && Points(intervals) == old(Points(intervals)) + Span(start, end)
    {
      if start >= end {
        assert Points(intervals) == Points(intervals) + Span(start, end);
        return;
      }
      intervals := Spliced(intervals, start, end);
    }

    /** The scan of an insertion: copy the left part, merge, then copy the right part. */
    static method Spliced(iv: seq<Interval>, start: nat, end: nat) returns (result: seq<Interval>)
      requires Canonical(iv) && start < end
      ensures Canonical(result) && Points(result) == Points(iv) + Span(start, end)
    {
      result := [];
      var ns, ne, placed := start, end, false;
      ghost var k: nat, m: nat := 0, 0;
      assert Points([]) == iset{};
      for i := 0 to |iv|
        invariant Splicing(iv, i, result, ns, ne, placed, k, m, start, end)
      {
        result, ns, ne, placed, k, m := SpliceNext(iv, i, result, ns, ne, placed, k, m, start, end);
      }
      SplicingEnds(iv, result, ns, ne, placed, k, m, start, end);
      if !placed {
        result := result + [(ns, ne)];
      }
    }

    /** One turn of the scan. */
    static method SpliceNext(iv: seq<Interval>, i: nat, result: seq<Interval>, ns: nat, ne: nat, placed: bool,
                             ghost k: nat, ghost m: nat, ghost start: nat, ghost end: nat)
      returns (result': seq<Interval>, ns': nat, ne': nat, placed': bool, ghost k': nat, ghost m': nat)
      requires Canonical(iv) && Splicing(iv, i, result, ns, ne, placed, k, m, start, end) && i < |iv|
      ensures Splicing(iv, i + 1, result', ns', ne', placed', k', m', start, end)
    {
      if iv[i].1 < ns {
        CopyLeft(iv, i, result, ns, ne, placed, k, m, start, end);
        return result + [iv[i]], ns, ne, placed, k + 1, m + 1;
      }
      if iv[i].0 > ne {
        var copied := CopyRight(iv, i, result, ns, ne, placed, k, m, start, end);
        return copied, ns, ne, true, k, m;
      }
      MergeNext(iv, i, result, ns, ne, placed, k, m, start, end);
      return result, Min(ns, iv[i].0), Max(ne, iv[i].1), placed, k, m + 1;
    }

    /** Copies an interval to the right of the merged one, which goes in front of the first such. */
    static method CopyRight(iv: seq<Interval>, i: nat, result: seq<Interval>, ns: nat, ne: nat, placed: bool,
                            ghost k: nat, ghost m: nat, ghost start: nat, ghost end: nat)
      returns (result': seq<Interval>)
      requires Splicing(iv, i, result, ns, ne, placed, k, m, start, end) && i < |iv| && iv[i].0 > ne
      ensures Splicing(iv, i + 1, result', ns, ne, true, k, m, start, end)
    {
      result' := result;
      if !placed {
        result' := result' + [(ns, ne)];
      }
      assert iv[m..i + 1] == iv[m..i] + [iv[i]];
      Associate(iv[..k] + [(ns, ne)], iv[m..i], [iv[i]]);
      result' := result' + [iv[i]];
    }

    /** The gaps of [0, total), in canonical form. */
    method Missing(total: nat) returns (res: seq<Interval>)
      requires Valid()
      ensures Canonical(res) && Points(res) == Span(0, total) - Points(intervals)
    {
      res := [];
      var cur := 0;
      var i := 0;
      assert Gaps([], 0, total, []);
      while i < |intervals| && cur < total
        invariant 0 <= i <= |intervals|
        invariant cur == if i == 0 then 0 else intervals[i - 1].1
        invariant Gaps(intervals[..i], cur, total, res)
      {
        assert NonEmpty(intervals, i) && (i > 0 ==> Before(intervals, i - 1, i));
        res, cur := NextGap(intervals[..i], intervals[i], cur, total, res);
        assert intervals[..i + 1] == intervals[..i] + [intervals[i]];
        i := i + 1;
      }
      GapEnd(intervals, i, cur, total, res);
      if cur < total {
        res := res + [(cur, total)];
      }
    }

    static method NextGap(ghost scanned: seq<Interval>, next: Interval, cur: nat, total: nat, res: seq<Interval>)
      returns (res': seq<Interval>, cur': nat)
      requires Gaps(scanned, cur, total, res) && cur < total && next.0 < next.1
      requires scanned == [] ==> cur == 0
      requires scanned != [] ==> cur < next.0
      ensures Gaps(scanned + [next], cur', total, res') && cur' == next.1
    {
      var (s, e) := next;
      GapStep(scanned, cur, total, res, s, e);
      res' := res;
      if s > cur {
        var end := if s < total then s else total;
        if cur < end {
          res' := res' + [(cur, end)];
        }
      }
      cur' := Max(cur, e);
    }

    method Covers(total: nat) returns (r: bool)
      requires Valid()
      ensures r <==> Span(0, total) <= Points(intervals)
    {
      var gaps := Missing(total);
      r := gaps == [];
      if gaps != [] {
        FirstInterval(gaps);
        assert gaps[0].0 in Points(gaps);
        assert gaps[0].0 in Span(0, total) && gaps[0].0 !in Points(intervals);
      } else {
        forall x | x in Span(0, total) ensures x in Points(intervals) {
          assert x !in Points(gaps);
        }
      }
    }
  }

  /** Rebuilds a set from any list, in any order, overlapping or not. */
  method FromVec(items: seq<Interval>) returns (r: IntervalSet)
    ensures fresh(r) && r.Valid() && Points(r.intervals) == Points(items)
  {
    r := new IntervalSet();
    for i := 0 to |items|
      invariant fresh(r) && r.Valid() && Points(r.intervals) == Points(items[..i])
    {
      assert items[..i + 1] == items[..i] + [items[i]];
      PointsAppend(items[..i], [items[i]]);
      PointsOne(items[i].0, items[i].1);
      r.Insert(items[i].0, items[i].1);
    }
    assert items[..|items|] == items;
  }

  /** Whatever the insertion order, the resulting vector is the same. */
  method TwoOrders(xs: seq<Interval>, ys: seq<Interval>) returns (a: IntervalSet, b: IntervalSet)
    requires multiset(xs) == multiset(ys)
    ensures a.intervals == b.intervals
  {
    a := FromVec(xs);
    b := FromVec(ys);
    SamePoints(xs, ys);
    CanonicalUnique(a.intervals, b.intervals);
  }

  lemma SamePoints(xs: seq<Interval>, ys: seq<Interval>)
    requires multiset(xs) == multiset(ys)
    ensures Points(xs) == Points(ys)
  {
    forall x: nat
      ensures Holds(xs, x) <==> Holds(ys, x)
    {
      if Holds(xs, x) {
        var i :| 0 <= i < |xs| && xs[i].0 <= x < xs[i].1;
        assert xs[i] in multiset(ys);
        var j :| 0 <= j < |ys| && ys[j] == xs[i];
      }
      if Holds(ys, x) {
        var i :| 0 <= i < |ys| && ys[i].0 <= x < ys[i].1;
        assert ys[i] in multiset(xs);
        var j :| 0 <= j < |xs| && xs[j] == ys[i];
      }
    }
  }

  // ---------------------------------------------------------------- loop invariants

  /** While scanning: iv[k..m] has been merged with [start, end) into [ns, ne). */
  ghost predicate Merged(iv: seq<Interval>, k: nat, m: nat, ns: nat, ne: nat, start: nat, end: nat)
  {
    && k <= m <= |iv| && ns < ne && LeftOf(iv, k, ns)
    && (k < m ==> ns <= iv[k].0)
    && Span(ns, ne) == Span(start, end) + Points(iv[k..m])
  }

  /** The running variables of an insertion after i intervals: iv[..k] is left of it, iv[k..m] merged into it. */
  ghost predicate Splicing(iv: seq<Interval>, i: nat, result: seq<Interval>, ns: nat, ne: nat, placed: bool,
                           k: nat, m: nat, start: nat, end: nat)
  {
    && Merged(iv, k, m, ns, ne, start, end)
    && m <= i <= |iv| && (!placed ==> m == i)
    && (placed ==> m < i && ne < iv[m].0)
    && result == if placed then iv[..k] + [(ns, ne)] + iv[m..i] else iv[..k]
  }

  lemma CopyLeft(iv: seq<Interval>, i: nat, result: seq<Interval>, ns: nat, ne: nat, placed: bool, k: nat, m: nat,
                 start: nat, end: nat)
    requires Canonical(iv) && Splicing(iv, i, result, ns, ne, placed, k, m, start, end) && i < |iv| && iv[i].1 < ns
    ensures !placed && k == m == i
    ensures Splicing(iv, i + 1, result + [iv[i]], ns, ne, placed, k + 1, m + 1, start, end)
  {
    assert NonEmpty(iv, i) && (placed ==> NonEmpty(iv, m) && Before(iv, m, i));
    assert k < i ==> NonEmpty(iv, k) && Before(iv, k, i);
    assert iv[..i + 1] == iv[..i] + [iv[i]];
    assert Points(iv[k..k]) == Points(iv[k + 1..k + 1]) == iset{};
    forall j | 0 <= j < k + 1 ensures LeftAt(iv, j, ns) {
      if j < k { assert LeftAt(iv, j, ns); }
    }
  }

  lemma MergeNext(iv: seq<Interval>, i: nat, result: seq<Interval>, ns: nat, ne: nat, placed: bool, k: nat, m: nat,
                  start: nat, end: nat)
    requires Canonical(iv) && Splicing(iv, i, result, ns, ne, placed, k, m, start, end) && i < |iv|
    requires iv[i].0 <= ne && ns <= iv[i].1
    ensures !placed && m == i
    ensures Splicing(iv, i + 1, result, Min(ns, iv[i].0), Max(ne, iv[i].1), placed, k, m + 1, start, end)
  {
    assert placed ==> NonEmpty(iv, m) && Before(iv, m, i);
    GrowMerged(iv, k, m, ns, ne, start, end);
  }

  lemma SplicingEnds(iv: seq<Interval>, result: seq<Interval>, ns: nat, ne: nat, placed: bool, k: nat, m: nat,
                     start: nat, end: nat)
    requires Canonical(iv) && Splicing(iv, |iv|, result, ns, ne, placed, k, m, start, end)
    ensures
      var all := if placed then result else result + [(ns, ne)];
      Canonical(all) && Points(all) == Points(iv) + Span(start, end)
  {
    forall j | m <= j < |iv| ensures RightAt(iv, j, ne) {
      if m < j { assert NonEmpty(iv, m) && Before(iv, m, j); }
    }
    assert iv[m..|iv|] == iv[m..];
    assert iv[..k] + [(ns, ne)] + iv[m..] == if placed then result else result + [(ns, ne)];
    SpliceLaw(iv, k, m, ns, ne, start, end);
  }

  lemma GrowMerged(iv: seq<Interval>, k: nat, m: nat, ns: nat, ne: nat, start: nat, end: nat)
    requires Canonical(iv) && Merged(iv, k, m, ns, ne, start, end) && m < |iv|
    requires iv[m].0 <= ne && ns <= iv[m].1
    ensures Merged(iv, k, m + 1, Min(ns, iv[m].0), Max(ne, iv[m].1), start, end)
  {
    assert NonEmpty(iv, m);
    forall j | 0 <= j < k ensures LeftAt(iv, j, Min(ns, iv[m].0)) {
      assert LeftAt(iv, j, ns) && Before(iv, j, m);
    }
    if k < m { assert NonEmpty(iv, k) && Before(iv, k, m); }
    MergeSpan(ns, ne, iv[m].0, iv[m].1);
    assert iv[k..m + 1] == iv[k..m] + [iv[m]];
    PointsAppend(iv[k..m], [iv[m]]);
    PointsOne(iv[m].0, iv[m].1);
  }

  /** `res` holds the offsets below cur and total that the scanned intervals leave out. */
  ghost predicate Gaps(scanned: seq<Interval>, cur: nat, total: nat, res: seq<Interval>)
  {
    && Canonical(res)
    && (res != [] ==> res[|res| - 1].1 < cur || (res[|res| - 1].1 == total && total <= cur))
    && Points(scanned) <= Span(0, cur)
    && Points(res) == (Span(0, cur) * Span(0, total)) - Points(scanned)
  }

  /** The offsets left out below e, when the next interval [s, e) starts at or after cur. */
  lemma GapPoints(p: iset<nat>, cur: nat, total: nat, s: nat, e: nat)
    requires p <= Span(0, cur) && cur < total && cur <= s < e
    ensures (Span(0, e) * Span(0, total)) - (p + Span(s, e))
         == ((Span(0, cur) * Span(0, total)) - p) + Span(cur, if s < total then s else total)
    ensures p + Span(s, e) <= Span(0, e)
  {
  }

  lemma GapStep(scanned: seq<Interval>, cur: nat, total: nat, res: seq<Interval>, s: nat, e: nat)
    requires Gaps(scanned, cur, total, res) && cur < total && s < e
    requires scanned == [] ==> cur == 0
    requires scanned != [] ==> cur < s
    ensures
      var end := if s < total then s else total;
      Gaps(scanned + [(s, e)], e, total, if s > cur then res + [(cur, end)] else res)
  {
    var end := if s < total then s else total;
    PointsAppend(scanned, [(s, e)]);
    PointsOne(s, e);
    GapPoints(Points(scanned), cur, total, s, e);
    if s > cur {
      PointsAppend(res, [(cur, end)]);
      PointsOne(cur, end);
      CanonicalSnoc(res, cur, end);
    } else {
      assert Span(cur, end) == iset{};
    }
  }

  lemma CanonicalSnoc(res: seq<Interval>, cur: nat, end: nat)
    requires Canonical(res) && cur < end && (res != [] ==> res[|res| - 1].1 < cur)
    ensures Canonical(res + [(cur, end)])
  {
    var r := res + [(cur, end)];
    forall i | 0 <= i < |r| ensures NonEmpty(r, i) {
      if i < |res| { assert NonEmpty(res, i); }
    }
    forall i, j | 0 <= i < j < |r| ensures Before(r, i, j) {
      if j < |res| {
        assert Before(res, i, j);
      } else if i < |res| - 1 {
        assert Before(res, i, |res| - 1) && NonEmpty(res, |res| - 1);
      }
    }
  }

  lemma LaterPoints(iv: seq<Interval>, i: nat, x: nat)
    requires Canonical(iv) && 0 < i <= |iv| && Holds(iv[i..], x)
    ensures x > iv[i - 1].1
  {
    var j :| 0 <= j < |iv[i..]| && iv[i..][j].0 <= x < iv[i..][j].1;
    assert iv[i + j] == iv[i..][j] && Before(iv, i - 1, i + j);
  }

  /** Below the position reached, only scanned intervals count. */
  lemma ScannedPoints(iv: seq<Interval>, i: nat, cur: nat, total: nat)
    requires Canonical(iv) && i <= |iv| && Points(iv[..i]) <= Span(0, cur)
    requires cur == if i == 0 then 0 else iv[i - 1].1
    requires i == |iv| || cur >= total
    ensures Span(0, total) - Points(iv) == (Span(0, cur) * Span(0, total) - Points(iv[..i])) + Span(cur, total)
  {
    assert iv == iv[..i] + iv[i..];
    PointsAppend(iv[..i], iv[i..]);
    forall x: nat | Holds(iv[i..], x) ensures !Within(0, cur, x) && !Within(0, total, x) {
      if i > 0 { LaterPoints(iv, i, x); }
    }
    forall x: nat | Within(cur, total, x) ensures x !in Points(iv) {
      assert x !in Points(iv[..i]);
    }
  }

  lemma GapEnd(iv: seq<Interval>, i: nat, cur: nat, total: nat, res: seq<Interval>)
    requires Canonical(iv) && i <= |iv| && Gaps(iv[..i], cur, total, res)
    requires cur == if i == 0 then 0 else iv[i - 1].1
    requires i == |iv| || cur >= total
    ensures
      var all := if cur < total then res + [(cur, total)] else res;
      Canonical(all) && Points(all) == Span(0, total) - Points(iv)
  {
    ScannedPoints(iv, i, cur, total);
    if cur < total {
      PointsAppend(res, [(cur, total)]);
      PointsOne(cur, total);
      CanonicalSnoc(res, cur, total);
    } else {
      assert Span(cur, total) == iset{};
    }
  }
}
