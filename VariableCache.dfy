/** The per-variable cache of time intervals that have already been fetched.
    For each variable the controller keeps a list of closed intervals; the list is kept
    ascending with a strictly positive gap between neighbours. It offers a merge-insert,
    a gap query ("which parts of a request are not yet fetched") and a snapshot. */
module VariableCache {
  import opened SqpDateTimes
  import opened Wrappers

  // ===========================================================================
  // The cache invariant and the points a list covers
  // ===========================================================================

  /** Every stored interval is well formed and each one ends strictly before the next one
      starts: neither overlapping nor touching intervals are ever stored side by side. */
  predicate Ordered(list: seq<SqpDateTime>) {
    && (forall i :: 0 <= i < |list| ==> WellFormed(list[i]))
    && (forall i :: 0 <= i < |list| - 1 ==> list[i].tEnd < list[i + 1].tStart)
  }

  /** The time point `x` is covered by some interval of `list`. */
  predicate Covers(list: seq<SqpDateTime>, x: real) {
    exists k :: 0 <= k < |list| && list[k].In(x)
  }

  lemma {:induction false} SeparatedPair(list: seq<SqpDateTime>, j: int, k: int)
    requires Ordered(list) && 0 <= j < k < |list|
    ensures list[j].tEnd < list[k].tStart
    decreases k - j
  {
    if j + 1 < k {
      SeparatedPair(list, j + 1, k);
    }
  }

  /** The consecutive-pair invariant extends to every pair of the list. */
  lemma OrderedSeparated(list: seq<SqpDateTime>)
    requires Ordered(list)
    ensures forall j, k :: 0 <= j < k < |list| ==> list[j].tEnd < list[k].tStart
  {
    forall j, k | 0 <= j < k < |list|
      ensures list[j].tEnd < list[k].tStart
    {
      SeparatedPair(list, j, k);
    }
  }

  lemma CoversConcat(a: seq<SqpDateTime>, b: seq<SqpDateTime>, x: real)
    ensures Covers(a + b, x) <==> Covers(a, x) || Covers(b, x)
  {
    if Covers(a + b, x) {
      var k :| 0 <= k < |a + b| && (a + b)[k].In(x);
      if k < |a| {
        assert a[k] == (a + b)[k];
      } else {
        assert b[k - |a|] == (a + b)[k];
      }
    }
    if Covers(a, x) {
      var k :| 0 <= k < |a| && a[k].In(x);
      assert (a + b)[k] == a[k];
    }
    if Covers(b, x) {
      var k :| 0 <= k < |b| && b[k].In(x);
      assert (a + b)[|a| + k] == b[k];
    }
  }

  lemma CoversSingleton(d: SqpDateTime, x: real)
    ensures Covers([d], x) <==> d.In(x)
  {
    if d.In(x) {
      assert [d][0] == d;
    }
  }

  // ===========================================================================
  // Merge-insert (addDateTimeRecurse)
  // ===========================================================================

  /** The list that addDateTimeRecurse leaves behind when it inserts `d` into `list`,
      scanning from the front: insert before the first interval `d` ends strictly before,
      skip intervals `d` starts strictly after, and merge `d` with any other interval into
      their hull, remove that interval and carry on with the hull. */
  function MergeInsert(d: SqpDateTime, list: seq<SqpDateTime>): (r: seq<SqpDateTime>)
    ensures 1 <= |r| <= |list| + 1
    decreases |list|
  {
    if list == [] then [d]
    else if d.tEnd < list[0].tStart then [d] + list
    else if d.tStart > list[0].tEnd then [list[0]] + MergeInsert(d, list[1..])
    else MergeInsert(Hull(d, list[0]), list[1..])
  }

  /** The merge branch is taken exactly when the two intervals intersect in the sense of
      `SqpDateTime::intersect`; in particular intervals that share an endpoint are merged. */
  lemma MergeBranchIsIntersect(d: SqpDateTime, c: SqpDateTime)
    ensures !(d.tEnd < c.tStart) && !(d.tStart > c.tEnd) <==> c.Intersect(d)
  {
  }

  /** The first interval after a merge-insert starts at the smaller of the two first starts. */
  lemma {:induction false} MergeInsertHead(d: SqpDateTime, list: seq<SqpDateTime>)
    requires Ordered(list) && WellFormed(d)
    ensures MergeInsert(d, list)[0].tStart
            == if list == [] then d.tStart else Min(d.tStart, list[0].tStart)
    decreases |list|
  {
    if list != [] && d.tEnd >= list[0].tStart && d.tStart <= list[0].tEnd {
      var rest := list[1..];
      MergeInsertHead(Hull(d, list[0]), rest);
      if rest != [] {
        assert rest[0] == list[1];
      }
    }
  }

  /** Merge-insert of a well-formed interval preserves the cache invariant. */
  lemma {:induction false} MergeInsertOrdered(d: SqpDateTime, list: seq<SqpDateTime>)
    requires Ordered(list) && WellFormed(d)
    ensures Ordered(MergeInsert(d, list))
    decreases |list|
  {
    if list == [] {
    } else if d.tEnd < list[0].tStart {
      var r := [d] + list;
      forall i | 0 <= i < |r| - 1
        ensures r[i].tEnd < r[i + 1].tStart
      {
        if i > 0 {
          assert r[i] == list[i - 1] && r[i + 1] == list[i];
        }
      }
    } else if d.tStart > list[0].tEnd {
      var rest := list[1..];
      var tail := MergeInsert(d, rest);
      MergeInsertOrdered(d, rest);
      MergeInsertHead(d, rest);
      if rest != [] {
        assert rest[0] == list[1];
      }
      var r := [list[0]] + tail;
      forall i | 0 <= i < |r| - 1
        ensures r[i].tEnd < r[i + 1].tStart
      {
        if i > 0 {
          assert r[i] == tail[i - 1] && r[i + 1] == tail[i];
        }
      }
    } else {
      MergeInsertOrdered(Hull(d, list[0]), list[1..]);
    }
  }

  /** Union preservation: the points covered after a merge-insert of a well-formed interval
      are the points covered before together with the points of the interval. */
  lemma {:induction false} MergeInsertCovers(d: SqpDateTime, list: seq<SqpDateTime>)
    requires Ordered(list) && WellFormed(d)
    ensures forall x :: Covers(MergeInsert(d, list), x) <==> Covers(list, x) || d.In(x)
    decreases |list|
  {
    forall x
      ensures Covers(MergeInsert(d, list), x) <==> Covers(list, x) || d.In(x)
    {
      CoversSingleton(d, x);
      if list == [] {
      } else {
        var rest := list[1..];
        assert list == [list[0]] + rest;
        CoversConcat([list[0]], rest, x);
        CoversSingleton(list[0], x);
        if d.tEnd < list[0].tStart {
          CoversConcat([d], list, x);
        } else if d.tStart > list[0].tEnd {
          MergeInsertCovers(d, rest);
          CoversConcat([list[0]], MergeInsert(d, rest), x);
        } else {
          HullOfIntersecting(d, list[0]);
          MergeInsertCovers(Hull(d, list[0]), rest);
        }
      }
    }
  }

  /** The interval that replaces the run list[a..b] when `d` is merged with it. */
  function RunHull(d: SqpDateTime, list: seq<SqpDateTime>, a: nat, b: nat): SqpDateTime
    requires a <= b <= |list|
  {
    SqpDateTime(if a < b then Min(d.tStart, list[a].tStart) else d.tStart,
                if a < b then Max(d.tEnd, list[b - 1].tEnd) else d.tEnd)
  }

  /** The run list[a..b] is what merge-insert of `d` replaces: the intervals before it end
      strictly before `d` starts, those in it intersect `d`, those after it start strictly
      after `d` ends, and the result keeps the two outer parts around the merged hull. */
  ghost predicate MergedRun(d: SqpDateTime, list: seq<SqpDateTime>, a: nat, b: nat) {
    && a <= b <= |list|
    && (forall k :: 0 <= k < a ==> list[k].tEnd < d.tStart)
    && (forall k :: a <= k < b ==> list[k].Intersect(d))
    && (forall k :: b <= k < |list| ==> d.tEnd < list[k].tStart)
    && MergeInsert(d, list) == list[..a] + [RunHull(d, list, a, b)] + list[b..]
  }

  lemma ShapeBefore(d: SqpDateTime, list: seq<SqpDateTime>)
    requires Ordered(list) && WellFormed(d) && list != [] && d.tEnd < list[0].tStart
    ensures MergedRun(d, list, 0, 0)
  {
    OrderedSeparated(list);
    assert list[..0] + [d] + list[0..] == [d] + list;
  }

  lemma ShapeSkip(d: SqpDateTime, list: seq<SqpDateTime>, a: nat, b: nat)
    requires Ordered(list) && WellFormed(d) && list != [] && d.tStart > list[0].tEnd
    requires MergedRun(d, list[1..], a, b)
    ensures MergedRun(d, list, a + 1, b + 1)
  {
    ShapeSkipParts(d, list, a, b);
    ShapeSkipResult(d, list, a, b);
  }

  /** The three parts around the run, shifted by the skipped first interval. */
  lemma ShapeSkipParts(d: SqpDateTime, list: seq<SqpDateTime>, a: nat, b: nat)
    requires list != [] && d.tStart > list[0].tEnd
    requires a <= b <= |list| - 1
    requires forall k :: 0 <= k < a ==> list[1..][k].tEnd < d.tStart
    requires forall k :: a <= k < b ==> list[1..][k].Intersect(d)
    requires forall k :: b <= k < |list| - 1 ==> d.tEnd < list[1..][k].tStart
    ensures forall k :: 0 <= k < a + 1 ==> list[k].tEnd < d.tStart
    ensures forall k :: a + 1 <= k < b + 1 ==> list[k].Intersect(d)
    ensures forall k :: b + 1 <= k < |list| ==> d.tEnd < list[k].tStart
  {
    forall k | 1 <= k < |list|
      ensures list[k] == list[1..][k - 1]
    {
    }
  }

  /** The list a skip leaves: the skipped interval in front of the rest's result. */
  lemma ShapeSkipResult(d: SqpDateTime, list: seq<SqpDateTime>, a: nat, b: nat)
    requires list != [] && !(d.tEnd < list[0].tStart) && d.tStart > list[0].tEnd
    requires a <= b <= |list| - 1
    requires MergeInsert(d, list[1..])
             == list[1..][..a] + [RunHull(d, list[1..], a, b)] + list[1..][b..]
    ensures MergeInsert(d, list)
            == list[..a + 1] + [RunHull(d, list, a + 1, b + 1)] + list[b + 1..]
  {
    var rest := list[1..];
    var h := RunHull(d, rest, a, b);
    var front, back := rest[..a], rest[b..];
    assert MergeInsert(d, list) == [list[0]] + (front + [h] + back);
    assert [list[0]] + (front + [h] + back) == ([list[0]] + front) + [h] + back;
    assert list[..a + 1] == [list[0]] + front;
    assert list[b + 1..] == back;
    if a < b {
      assert list[a + 1] == rest[a] && list[b] == rest[b - 1];
    }
    assert RunHull(d, list, a + 1, b + 1) == h;
  }

  lemma ShapeMerge(d: SqpDateTime, list: seq<SqpDateTime>, a: nat, b: nat)
    requires Ordered(list) && WellFormed(d) && list != []
    requires d.tEnd >= list[0].tStart && d.tStart <= list[0].tEnd
    requires MergedRun(Hull(d, list[0]), list[1..], a, b)
    ensures a == 0 && MergedRun(d, list, 0, b + 1)
  {
    OrderedSeparated(list);
    var rest := list[1..];
    var hd := Hull(d, list[0]);
    forall k | 1 <= k < |list|
      ensures list[k] == rest[k - 1]
    {
    }
    forall k | 1 <= k < b + 1
      ensures list[k].Intersect(d)
    {
      assert list[0].tEnd < list[k].tStart;
    }
    if b > 0 {
      assert list[0].tEnd < list[b].tStart;
    }
    if rest != [] {
      assert rest[0] == list[1];
    }
    assert list[b + 1..] == rest[b..];
    assert RunHull(d, list, 0, b + 1) == RunHull(hd, rest, 0, b);
  }

  /** The run of `MergedRun` is exactly the set of positions whose interval intersects `d`. */
  lemma MergedRunIsIntersecting(d: SqpDateTime, list: seq<SqpDateTime>, a: nat, b: nat)
    requires MergedRun(d, list, a, b)
    ensures forall k :: 0 <= k < |list| ==> (a <= k < b <==> list[k].Intersect(d))
  {
  }

  /** The run that a merge-insert replaces, found by following its recursion. */
  lemma {:induction false} MergeInsertRun(d: SqpDateTime, list: seq<SqpDateTime>)
    returns (a: nat, b: nat)
    requires Ordered(list) && WellFormed(d)
    ensures MergedRun(d, list, a, b)
    decreases |list|
  {
    if list == [] {
      a, b := 0, 0;
    } else if d.tEnd < list[0].tStart {
      ShapeBefore(d, list);
      a, b := 0, 0;
    } else if d.tStart > list[0].tEnd {
      var a', b' := MergeInsertRun(d, list[1..]);
      ShapeSkip(d, list, a', b');
      a, b := a' + 1, b' + 1;
    } else {
      var a', b' := MergeInsertRun(Hull(d, list[0]), list[1..]);
      ShapeMerge(d, list, a', b');
      a, b := 0, b' + 1;
    }
  }

  /** The exact outcome of a merge-insert into a valid list: the intervals that intersect
      `d` form one contiguous run list[a..b], which is replaced by a single interval spanning
      `d` and the run; the intervals before and after the run are kept as they were. */
  lemma MergeInsertShape(d: SqpDateTime, list: seq<SqpDateTime>) returns (a: nat, b: nat)
    requires Ordered(list) && WellFormed(d)
    ensures MergedRun(d, list, a, b)
    ensures forall k :: 0 <= k < |list| ==> (a <= k < b <==> list[k].Intersect(d))
  {
    a, b := MergeInsertRun(d, list);
    MergedRunIsIntersecting(d, list, a, b);
  }

  /** Inserting an interval that one stored interval already contains changes nothing. */
  lemma {:induction false} MergeInsertAbsorbs(d: SqpDateTime, list: seq<SqpDateTime>, k: int)
    requires Ordered(list) && WellFormed(d)
    requires 0 <= k < |list| && list[k].Contains(d)
    ensures MergeInsert(d, list) == list
    decreases |list|
  {
    var rest := list[1..];
    if k == 0 {
      assert Hull(d, list[0]) == list[0];
      if rest != [] {
        assert rest[0] == list[1];
      }
      assert list == [list[0]] + rest;
    } else {
      SeparatedPair(list, 0, k);
      MergeInsertAbsorbs(d, rest, k - 1);
      assert list == [list[0]] + rest;
    }
  }

  /** After a merge-insert some stored interval contains the inserted one. */
  lemma MergeInsertContainsInserted(d: SqpDateTime, list: seq<SqpDateTime>) returns (k: nat)
    requires Ordered(list) && WellFormed(d)
    ensures k < |MergeInsert(d, list)| && MergeInsert(d, list)[k].Contains(d)
  {
    var a, b := MergeInsertShape(d, list);
    k := a;
    assert MergeInsert(d, list)[a] == RunHull(d, list, a, b);
  }

  /** Idempotence: inserting the same interval twice leaves the list of a single insertion. */
  lemma MergeInsertIdempotent(d: SqpDateTime, list: seq<SqpDateTime>)
    requires Ordered(list) && WellFormed(d)
    ensures MergeInsert(d, MergeInsert(d, list)) == MergeInsert(d, list)
  {
    MergeInsertOrdered(d, list);
    var k := MergeInsertContainsInserted(d, list);
    MergeInsertAbsorbs(d, MergeInsert(d, list), k);
  }

  /** A valid list is determined by the points it covers. */
  lemma {:induction false} OrderedCanonical(a: seq<SqpDateTime>, b: seq<SqpDateTime>)
    requires Ordered(a) && Ordered(b)
    requires forall x :: Covers(a, x) <==> Covers(b, x)
    ensures a == b
    decreases |a| + |b|
  {
    if a == [] || b == [] {
      if a != [] {
        assert Covers(a, a[0].tStart);
      } else if b != [] {
        assert Covers(b, b[0].tStart);
      }
      return;
    }
    SameFirstStart(a, b);
    SameFirstStart(b, a);
    SameFirstEnd(a, b);
    SameFirstEnd(b, a);
    var a', b' := a[1..], b[1..];
    OrderedSeparated(a);
    OrderedSeparated(b);
    forall x
      ensures Covers(a', x) <==> Covers(b', x)
    {
      assert a == [a[0]] + a';
      assert b == [b[0]] + b';
      CoversConcat([a[0]], a', x);
      CoversConcat([b[0]], b', x);
      CoversSingleton(a[0], x);
      CoversSingleton(b[0], x);
      if Covers(a', x) {
        var k :| 0 <= k < |a'| && a'[k].In(x);
        assert a'[k] == a[k + 1];
      }
      if Covers(b', x) {
        var k :| 0 <= k < |b'| && b'[k].In(x);
        assert b'[k] == b[k + 1];
      }
    }
    OrderedCanonical(a', b');
    assert a == [a[0]] + a' && b == [b[0]] + b';
  }

  lemma SameFirstStart(a: seq<SqpDateTime>, b: seq<SqpDateTime>)
    requires Ordered(a) && Ordered(b) && a != [] && b != []
    requires forall x :: Covers(a, x) <==> Covers(b, x)
    ensures a[0].tStart >= b[0].tStart
  {
    OrderedSeparated(b);
    assert a[0].In(a[0].tStart);
    assert Covers(a, a[0].tStart);
    var k :| 0 <= k < |b| && b[k].In(a[0].tStart);
  }

  lemma SameFirstEnd(a: seq<SqpDateTime>, b: seq<SqpDateTime>)
    requires Ordered(a) && Ordered(b) && a != [] && b != []
    requires forall x :: Covers(a, x) <==> Covers(b, x)
    requires a[0].tStart == b[0].tStart
    ensures a[0].tEnd >= b[0].tEnd
  {
    OrderedSeparated(a);
    if a[0].tEnd < b[0].tEnd {
      var bound := if |a| > 1 then Min(a[1].tStart, b[0].tEnd) else b[0].tEnd;
      var y := (a[0].tEnd + bound) / 2.0;
      assert b[0].In(y);
      assert Covers(b, y);
      assert false;
    }
  }

  /** Insertion order does not matter: merge-inserting two well-formed intervals in either
      order leaves the same list. */
  lemma MergeInsertCommutes(d: SqpDateTime, e: SqpDateTime, list: seq<SqpDateTime>)
    requires Ordered(list) && WellFormed(d) && WellFormed(e)
    ensures MergeInsert(e, MergeInsert(d, list)) == MergeInsert(d, MergeInsert(e, list))
  {
    MergeInsertOrdered(d, list);
    MergeInsertOrdered(e, list);
    MergeInsertOrdered(e, MergeInsert(d, list));
    MergeInsertOrdered(d, MergeInsert(e, list));
    MergeInsertCovers(d, list);
    MergeInsertCovers(e, list);
    MergeInsertCovers(e, MergeInsert(d, list));
    MergeInsertCovers(d, MergeInsert(e, list));
    OrderedCanonical(MergeInsert(e, MergeInsert(d, list)), MergeInsert(d, MergeInsert(e, list)));
  }

  // The scan of addDateTimeRecurse at index `i` of the list it updates, against
  // `MergeInsert`: one lemma per branch.

  lemma ScanPushBack(list: seq<SqpDateTime>, current: SqpDateTime)
    ensures list[..|list|] + MergeInsert(current, list[|list|..]) == list + [current]
  {
    assert list[..|list|] == list && list[|list|..] == [];
  }

  lemma ScanInsert(list: seq<SqpDateTime>, i: nat, current: SqpDateTime)
    requires i < |list| && current.tEnd < list[i].tStart
    ensures list[..i] + MergeInsert(current, list[i..]) == list[..i] + [current] + list[i..]
  {
  }

  lemma ScanSkip(list: seq<SqpDateTime>, i: nat, current: SqpDateTime)
    requires i < |list| && !(current.tEnd < list[i].tStart) && current.tStart > list[i].tEnd
    ensures list[..i] + MergeInsert(current, list[i..])
            == list[..i + 1] + MergeInsert(current, list[i + 1..])
  {
    var s := list[i..];
    assert s[0] == list[i] && s[1..] == list[i + 1..];
    var tail := MergeInsert(current, list[i + 1..]);
    assert MergeInsert(current, s) == [list[i]] + tail;
    assert list[..i + 1] == list[..i] + [list[i]];
    assert list[..i] + ([list[i]] + tail) == (list[..i] + [list[i]]) + tail;
  }

  lemma ScanMerge(list: seq<SqpDateTime>, i: nat, current: SqpDateTime)
    requires i < |list| && !(current.tEnd < list[i].tStart) && !(current.tStart > list[i].tEnd)
    ensures var removed := list[..i] + list[i + 1..];
            list[..i] + MergeInsert(current, list[i..])
            == removed[..i] + MergeInsert(Hull(current, list[i]), removed[i..])
  {
    var removed := list[..i] + list[i + 1..];
    assert list[i..][1..] == list[i + 1..];
    assert removed[..i] == list[..i];
    assert removed[i..] == list[i + 1..];
  }

  /** The merge-insert as the source performs it: an index-driven scan over a list that is
      updated in place by `insert`, `remove` and `push_back`. */
  method AddDateTimeRecurse(dateTime: SqpDateTime, dateTimeList: seq<SqpDateTime>)
    returns (newList: seq<SqpDateTime>)
    ensures newList == MergeInsert(dateTime, dateTimeList)
  {
    var list := dateTimeList;
    var current := dateTime;
    var cacheIndex := 0;
    assert list[..0] == [] && list[0..] == list;
    while true
      invariant 0 <= cacheIndex <= |list|
      invariant list[..cacheIndex] + MergeInsert(current, list[cacheIndex..])
                == MergeInsert(dateTime, dateTimeList)
      decreases |list| - cacheIndex
    {
      if cacheIndex >= |list| {
        ScanPushBack(list, current);
        newList := list + [current];
        return;
      }
      var currentDateTime := list[cacheIndex];
      if current.tEnd < currentDateTime.tStart {
        ScanInsert(list, cacheIndex, current);
        newList := list[..cacheIndex] + [current] + list[cacheIndex..];
        return;
      } else if current.tStart > currentDateTime.tEnd {
        ScanSkip(list, cacheIndex, current);
        cacheIndex := cacheIndex + 1;
      } else {
        ScanMerge(list, cacheIndex, current);
        var mTStart := Min(current.tStart, currentDateTime.tStart);
        var mTEnd := Max(current.tEnd, currentDateTime.tEnd);
        var merged := SqpDateTime(mTStart, mTEnd);
        list := list[..cacheIndex] + list[cacheIndex + 1..];
        current := merged;
      }
    }
  }

  // ===========================================================================
  // Gap computation (provideNotInCacheDateTimeList)
  // ===========================================================================

  /** The intervals addInCacheDataByStart appends for request `r` when the scan stands at
      `cacheIndex` with frontier `currentTStart`: it looks for the first stored interval that
      starts strictly after the frontier, moving the frontier to the end of the interval
      that holds the request start, and then hands over to the end scan. */
  function GapsByStart(r: SqpDateTime, list: seq<SqpDateTime>, cacheIndex: nat,
                       currentTStart: real): seq<SqpDateTime>
    decreases |list| - cacheIndex, 1
  {
    if cacheIndex >= |list| then [SqpDateTime(currentTStart, r.tEnd)]
    else if currentTStart < list[cacheIndex].tStart then
      GapsByEnd(r, list, cacheIndex, currentTStart)
    else if r.tStart < list[cacheIndex].tEnd then
      GapsByStart(r, list, cacheIndex + 1, list[cacheIndex].tEnd)
    else
      GapsByStart(r, list, cacheIndex + 1, currentTStart)
  }

  /** The intervals addInCacheDataByEnd appends: the piece from the frontier to the next
      stored start, repeated past each stored interval that ends before the request does,
      and a last piece that ends at the request end. */
  function GapsByEnd(r: SqpDateTime, list: seq<SqpDateTime>, cacheIndex: nat,
                     currentTStart: real): seq<SqpDateTime>
    decreases |list| - cacheIndex, 0
  {
    if cacheIndex >= |list| then
      if currentTStart < r.tEnd then [SqpDateTime(currentTStart, r.tEnd)] else []
    else if r.tEnd <= list[cacheIndex].tStart then [SqpDateTime(currentTStart, r.tEnd)]
    else
      [SqpDateTime(currentTStart, list[cacheIndex].tStart)]
      + if r.tEnd > list[cacheIndex].tEnd
        then GapsByEnd(r, list, cacheIndex + 1, list[cacheIndex].tEnd)
        else []
  }

  /** The list that provideNotInCacheDateTimeList returns for request `r`. */
  function NotInCache(r: SqpDateTime, list: seq<SqpDateTime>): seq<SqpDateTime> {
    GapsByStart(r, list, 0, r.tStart)
  }

  /** Each gap of `gaps` has positive width and lies in [lo, hi]. */
  predicate GapsWithin(gaps: seq<SqpDateTime>, lo: real, hi: real) {
    forall n :: 0 <= n < |gaps| ==> lo <= gaps[n].tStart < gaps[n].tEnd <= hi
  }

  /** Each gap ends at or before the next one starts. */
  predicate Ascending(gaps: seq<SqpDateTime>) {
    forall n :: 0 <= n < |gaps| - 1 ==> gaps[n].tEnd <= gaps[n + 1].tStart
  }

  /** No gap shares an interior point with a stored interval. */
  predicate OutsideInteriors(gaps: seq<SqpDateTime>, list: seq<SqpDateTime>) {
    forall n, j :: 0 <= n < |gaps| && 0 <= j < |list| ==>
      !(gaps[n].tStart < list[j].tEnd && list[j].tStart < gaps[n].tEnd)
  }

  /** Every point of [lo, hi] is stored or lies in a gap. */
  ghost predicate CoveredBetween(list: seq<SqpDateTime>, gaps: seq<SqpDateTime>, lo: real, hi: real) {
    forall x :: lo <= x <= hi ==> Covers(list, x) || Covers(gaps, x)
  }

  /** The state of the end scan: the frontier lies in the request before its end, every
      stored interval already passed ends at or before the frontier, and the next one starts
      strictly after it. */
  ghost predicate EndScanState(r: SqpDateTime, list: seq<SqpDateTime>, i: nat, f: real) {
    && i <= |list|
    && r.tStart <= f < r.tEnd
    && (forall j :: 0 <= j < i ==> list[j].tEnd <= f)
    && (i < |list| ==> f < list[i].tStart)
  }

  /** The state of the start scan: as for the end scan, except that the next stored interval
      may start at or before the frontier; the frontier is either the request start or a
      point strictly before the next stored start, and everything from the request start up
      to the frontier is stored. */
  ghost predicate StartScanState(r: SqpDateTime, list: seq<SqpDateTime>, i: nat, f: real) {
    && i <= |list|
    && r.tStart <= f < r.tEnd
    && (forall j :: 0 <= j < i ==> list[j].tEnd <= f)
    && (f != r.tStart && i < |list| ==> f < list[i].tStart)
    && (forall x :: r.tStart <= x < f ==> Covers(list, x))
  }

  /** A request with positive width that no single stored interval contains. */
  predicate ProperRequest(r: SqpDateTime, list: seq<SqpDateTime>) {
    && r.tStart < r.tEnd
    && (forall k :: 0 <= k < |list| ==> !list[k].Contains(r))
  }

  lemma CoversAt(list: seq<SqpDateTime>, k: int, x: real)
    requires 0 <= k < |list| && list[k].In(x)
    ensures Covers(list, x)
  {
  }

  /** A gap from the frontier `f` up to `e` avoids every stored interval when the intervals
      before index `i` end by `f` and the one at `i` (if any) starts at or after `e`. */
  lemma SingleGapOutside(list: seq<SqpDateTime>, i: nat, f: real, e: real)
    requires Ordered(list) && i <= |list|
    requires forall j :: 0 <= j < i ==> list[j].tEnd <= f
    requires i < |list| ==> e <= list[i].tStart
    ensures OutsideInteriors([SqpDateTime(f, e)], list)
  {
    OrderedSeparated(list);
  }

  /** Putting a gap that ends by `mid` in front of gaps that start from `mid` on keeps the
      gaps ascending and outside the stored interiors. */
  lemma ConsGaps(list: seq<SqpDateTime>, g: SqpDateTime, rest: seq<SqpDateTime>, mid: real, hi: real)
    requires OutsideInteriors([g], list) && OutsideInteriors(rest, list)
    requires Ascending(rest) && GapsWithin(rest, mid, hi) && g.tEnd <= mid
    ensures OutsideInteriors([g] + rest, list) && Ascending([g] + rest)
  {
    var gs := [g] + rest;
    forall n, j | 0 <= n < |gs| && 0 <= j < |list|
      ensures !(gs[n].tStart < list[j].tEnd && list[j].tStart < gs[n].tEnd)
    {
      if n > 0 {
        assert gs[n] == rest[n - 1];
      } else {
        assert [g][0] == g;
      }
    }
    forall n | 0 <= n < |gs| - 1
      ensures gs[n].tEnd <= gs[n + 1].tStart
    {
      if n > 0 {
        assert gs[n] == rest[n - 1] && gs[n + 1] == rest[n];
      }
    }
  }

  /** A gap up to the start of `list[i]`, then `list[i]`, then gaps covering the rest up to
      `hi`, cover everything from the gap's start to `hi`. */
  lemma CoveredAcross(list: seq<SqpDateTime>, i: nat, g: SqpDateTime, rest: seq<SqpDateTime>,
                      hi: real)
    requires i < |list| && g.tEnd == list[i].tStart
    requires CoveredBetween(list, rest, list[i].tEnd, hi)
    ensures CoveredBetween(list, [g] + rest, g.tStart, hi)
  {
    var gs := [g] + rest;
    forall x | g.tStart <= x <= hi
      ensures Covers(list, x) || Covers(gs, x)
    {
      if x <= g.tEnd {
        CoversAt(gs, 0, x);
      } else if x <= list[i].tEnd {
        CoversAt(list, i, x);
      } else if Covers(rest, x) {
        var m :| 0 <= m < |rest| && rest[m].In(x);
        CoversAt(gs, m + 1, x);
      }
    }
  }

  /** The properties the gap scans establish for the gaps `gs` they append while covering
      [lo, hi], at most `n` of them. */
  ghost predicate GapsSound(gs: seq<SqpDateTime>, list: seq<SqpDateTime>, n: int, lo: real, hi: real) {
    && 1 <= |gs| <= n
    && GapsWithin(gs, lo, hi)
    && Ascending(gs)
    && OutsideInteriors(gs, list)
    && CoveredBetween(list, gs, lo, hi)
  }

  /** The end scan's last step: it appends one gap and stops. */
  lemma GapsByEndLast(r: SqpDateTime, list: seq<SqpDateTime>, i: nat, f: real)
    requires Ordered(list) && EndScanState(r, list, i, f)
    requires i >= |list| || r.tEnd <= list[i].tStart || r.tEnd <= list[i].tEnd
    ensures GapsSound(GapsByEnd(r, list, i, f), list, |list| - i + 1, f, r.tEnd)
  {
    var gs := GapsByEnd(r, list, i, f);
    if i >= |list| || r.tEnd <= list[i].tStart {
      assert gs == [SqpDateTime(f, r.tEnd)];
      SingleGapOutside(list, i, f, r.tEnd);
      forall x | f <= x <= r.tEnd
        ensures Covers(gs, x)
      {
        CoversAt(gs, 0, x);
      }
    } else {
      var c := list[i];
      assert gs == [SqpDateTime(f, c.tStart)];
      SingleGapOutside(list, i, f, c.tStart);
      forall x | f <= x <= r.tEnd
        ensures Covers(list, x) || Covers(gs, x)
      {
        if x <= c.tStart {
          CoversAt(gs, 0, x);
        } else {
          CoversAt(list, i, x);
        }
      }
    }
  }

  /** The end scan's repeated step: a gap up to `list[i]`, then the gaps after it. */
  lemma GapsByEndCons(r: SqpDateTime, list: seq<SqpDateTime>, i: nat, f: real)
    requires Ordered(list) && EndScanState(r, list, i, f)
    requires i < |list| && r.tEnd > list[i].tStart && r.tEnd > list[i].tEnd
    requires GapsSound(GapsByEnd(r, list, i + 1, list[i].tEnd), list, |list| - i, list[i].tEnd, r.tEnd)
    ensures GapsSound(GapsByEnd(r, list, i, f), list, |list| - i + 1, f, r.tEnd)
  {
    var c := list[i];
    var g := SqpDateTime(f, c.tStart);
    var rest := GapsByEnd(r, list, i + 1, c.tEnd);
    assert GapsByEnd(r, list, i, f) == [g] + rest;
    SingleGapOutside(list, i, f, c.tStart);
    ConsGaps(list, g, rest, c.tEnd, r.tEnd);
    CoveredAcross(list, i, g, rest, r.tEnd);
    var gs := [g] + rest;
    forall n | 0 <= n < |gs|
      ensures f <= gs[n].tStart < gs[n].tEnd <= r.tEnd
    {
      if n > 0 {
        assert gs[n] == rest[n - 1];
      }
    }
  }

  lemma {:induction false} GapsByEndSound(r: SqpDateTime, list: seq<SqpDateTime>, i: nat, f: real)
    requires Ordered(list) && EndScanState(r, list, i, f)
    ensures GapsSound(GapsByEnd(r, list, i, f), list, |list| - i + 1, f, r.tEnd)
    decreases |list| - i
  {
    if i >= |list| || r.tEnd <= list[i].tStart || r.tEnd <= list[i].tEnd {
      GapsByEndLast(r, list, i, f);
    } else {
      assert EndScanState(r, list, i + 1, list[i].tEnd) by {
        if i + 1 < |list| {
          SeparatedPair(list, i, i + 1);
        }
      }
      GapsByEndSound(r, list, i + 1, list[i].tEnd);
      GapsByEndCons(r, list, i, f);
    }
  }

  lemma {:induction false} GapsByStartSound(r: SqpDateTime, list: seq<SqpDateTime>, i: nat, f: real)
    requires Ordered(list) && ProperRequest(r, list) && StartScanState(r, list, i, f)
    ensures 1 <= |GapsByStart(r, list, i, f)| <= |list| - i + 1
    ensures GapsWithin(GapsByStart(r, list, i, f), r.tStart, r.tEnd)
    ensures Ascending(GapsByStart(r, list, i, f))
    ensures OutsideInteriors(GapsByStart(r, list, i, f), list)
    ensures CoveredBetween(list, GapsByStart(r, list, i, f), r.tStart, r.tEnd)
    decreases |list| - i
  {
    OrderedSeparated(list);
    var gs := GapsByStart(r, list, i, f);
    if i >= |list| {
      assert gs == [SqpDateTime(f, r.tEnd)];
      forall x | r.tStart <= x <= r.tEnd
        ensures Covers(list, x) || Covers(gs, x)
      {
        if f <= x {
          CoversAt(gs, 0, x);
        }
      }
    } else if f < list[i].tStart {
      GapsByEndSound(r, list, i, f);
    } else if r.tStart < list[i].tEnd {
      var c := list[i];
      assert !c.Contains(r);
      forall x | r.tStart <= x < c.tEnd
        ensures Covers(list, x)
      {
        if f <= x {
          CoversAt(list, i, x);
        }
      }
      GapsByStartSound(r, list, i + 1, c.tEnd);
    } else {
      GapsByStartSound(r, list, i + 1, f);
    }
  }

  /** The gap query is sound and complete for a request of positive width that no single
      stored interval contains: the gaps have positive width, lie inside the request, come
      in ascending order, share no interior point with a stored interval, and together with
      the stored intervals cover the whole request; there are at most one more gaps than
      stored intervals. */
  lemma NotInCacheCorrect(r: SqpDateTime, list: seq<SqpDateTime>)
    requires Ordered(list) && ProperRequest(r, list)
    ensures 1 <= |NotInCache(r, list)| <= |list| + 1
    ensures forall n :: 0 <= n < |NotInCache(r, list)| ==>
      NotInCache(r, list)[n].tStart < NotInCache(r, list)[n].tEnd
      && r.Contains(NotInCache(r, list)[n])
    ensures Ascending(NotInCache(r, list))
    ensures OutsideInteriors(NotInCache(r, list), list)
    ensures forall x :: r.In(x) ==> Covers(list, x) || Covers(NotInCache(r, list), x)
  {
    GapsByStartSound(r, list, 0, r.tStart);
  }

  /** The start scan always appends at least one interval, whatever the list and request:
      even a request that one stored interval contains yields a (degenerate or inverted) gap. */
  lemma {:induction false} GapsByStartNonEmpty(r: SqpDateTime, list: seq<SqpDateTime>, i: nat, f: real)
    ensures |GapsByStart(r, list, i, f)| >= 1
    decreases |list| - i
  {
    if i < |list| && !(f < list[i].tStart) {
      if r.tStart < list[i].tEnd {
        GapsByStartNonEmpty(r, list, i + 1, list[i].tEnd);
      } else {
        GapsByStartNonEmpty(r, list, i + 1, f);
      }
    }
  }

  /** The gap query never returns an empty list. */
  lemma NotInCacheNonEmpty(r: SqpDateTime, list: seq<SqpDateTime>)
    ensures |NotInCache(r, list)| >= 1
  {
    GapsByStartNonEmpty(r, list, 0, r.tStart);
  }

  lemma {:induction false} GapsByStartPastAll(r: SqpDateTime, list: seq<SqpDateTime>, i: nat)
    requires Ordered(list)
    requires forall k :: 0 <= k < |list| ==> list[k].tEnd <= r.tStart
    ensures GapsByStart(r, list, i, r.tStart) == [r]
    decreases |list| - i
  {
    if i < |list| {
      GapsByStartPastAll(r, list, i + 1);
    }
  }

  /** A request that starts at or after the end of every stored interval is returned whole. */
  lemma NotInCacheAfterAll(r: SqpDateTime, list: seq<SqpDateTime>)
    requires Ordered(list)
    requires forall k :: 0 <= k < |list| ==> list[k].tEnd <= r.tStart
    ensures NotInCache(r, list) == [r]
  {
    GapsByStartPastAll(r, list, 0);
  }

  /** A request of positive width that ends at or before the first stored start is returned whole. */
  lemma NotInCacheBeforeFirst(r: SqpDateTime, list: seq<SqpDateTime>)
    requires r.tStart < r.tEnd && list != [] && r.tEnd <= list[0].tStart
    ensures NotInCache(r, list) == [r]
  {
  }

  /** With nothing stored, the whole request is missing. */
  lemma NotInCacheEmpty(r: SqpDateTime)
    ensures NotInCache(r, []) == [r]
  {
  }

  lemma NotInCacheBridgesGap()
    ensures NotInCache(SqpDateTime(5.0, 25.0),
                       [SqpDateTime(0.0, 10.0), SqpDateTime(20.0, 30.0)])
            == [SqpDateTime(10.0, 20.0)]
  {
  }

  /** A request equal to a stored interval yields the zero-width gap at its end. */
  lemma NotInCacheCoveredRequestIsDegenerate()
    ensures NotInCache(SqpDateTime(0.0, 10.0), [SqpDateTime(0.0, 10.0)])
            == [SqpDateTime(10.0, 10.0)]
  {
  }

  /** A request strictly inside a stored interval yields an inverted gap. */
  lemma NotInCacheInnerRequestIsInverted()
    ensures NotInCache(SqpDateTime(5.0, 8.0),
                       [SqpDateTime(0.0, 10.0), SqpDateTime(20.0, 30.0)])
            == [SqpDateTime(10.0, 8.0)]
  {
  }

  /** Before the stored interval `list[k]` that contains the request, the start scan passes
      every interval without moving its frontier. */
  lemma {:induction false} GapsByStartSkipToContainer(r: SqpDateTime, list: seq<SqpDateTime>,
                                                      i: nat, k: nat)
    requires Ordered(list) && i <= k < |list| && list[k].Contains(r)
    ensures GapsByStart(r, list, i, r.tStart) == GapsByStart(r, list, k, r.tStart)
    decreases k - i
  {
    if i < k {
      SeparatedPair(list, i, k);
      GapsByStartSkipToContainer(r, list, i + 1, k);
    }
  }

  /** A well-formed request that one stored interval `list[k]` contains yields the single
      interval from the end of `list[k]` to the end of the request: zero-width when both end
      together, inverted when the request ends first. */
  lemma NotInCacheContainedRequest(r: SqpDateTime, list: seq<SqpDateTime>, k: nat)
    requires Ordered(list) && WellFormed(r) && k < |list| && list[k].Contains(r)
    ensures NotInCache(r, list) == [SqpDateTime(list[k].tEnd, r.tEnd)]
    ensures NotInCache(r, list)[0].tEnd <= NotInCache(r, list)[0].tStart
  {
    GapsByStartSkipToContainer(r, list, 0, k);
    var e := list[k].tEnd;
    assert GapsByStart(r, list, k, r.tStart) == GapsByStart(r, list, k + 1, e);
    if k + 1 < |list| {
      SeparatedPair(list, k, k + 1);
      assert GapsByStart(r, list, k + 1, e) == GapsByEnd(r, list, k + 1, e);
    }
  }

  /** For a well-formed request of positive width against a valid cache, every gap has
      positive width exactly when no single stored interval contains the request. */
  lemma NotInCachePositiveIffProper(r: SqpDateTime, list: seq<SqpDateTime>)
    requires Ordered(list) && r.tStart < r.tEnd
    ensures (forall n :: 0 <= n < |NotInCache(r, list)| ==>
               NotInCache(r, list)[n].tStart < NotInCache(r, list)[n].tEnd)
            <==> ProperRequest(r, list)
  {
    if ProperRequest(r, list) {
      NotInCacheCorrect(r, list);
    } else {
      var k :| 0 <= k < |list| && list[k].Contains(r);
      NotInCacheContainedRequest(r, list, k);
    }
  }

  /** Disjoint insertions stay apart; an interval touching both closes the gap between them;
      touching at a single point merges. */
  lemma MergeInsertExamples()
    ensures MergeInsert(SqpDateTime(15.0, 25.0), MergeInsert(SqpDateTime(0.0, 10.0), []))
            == [SqpDateTime(0.0, 10.0), SqpDateTime(15.0, 25.0)]
    ensures MergeInsert(SqpDateTime(10.0, 15.0),
                        [SqpDateTime(0.0, 10.0), SqpDateTime(15.0, 25.0)])
            == [SqpDateTime(0.0, 25.0)]
    ensures MergeInsert(SqpDateTime(-5.0, 0.0), [SqpDateTime(0.0, 10.0)])
            == [SqpDateTime(-5.0, 10.0)]
  {
  }

  /** The end scan as the source performs it, appending to `notInCache`. */
  method AddInCacheDataByEnd(dateTime: SqpDateTime, dateTimeList: seq<SqpDateTime>,
                             notInCache: seq<SqpDateTime>, cacheIndex: nat, currentTStart: real)
    returns (out: seq<SqpDateTime>)
    ensures out == notInCache + GapsByEnd(dateTime, dateTimeList, cacheIndex, currentTStart)
  {
    var i, f := cacheIndex, currentTStart;
    out := notInCache;
    while i < |dateTimeList| && dateTime.tEnd > dateTimeList[i].tStart
          && dateTime.tEnd > dateTimeList[i].tEnd
      invariant out + GapsByEnd(dateTime, dateTimeList, i, f)
                == notInCache + GapsByEnd(dateTime, dateTimeList, cacheIndex, currentTStart)
      decreases |dateTimeList| - i
    {
      var g := SqpDateTime(f, dateTimeList[i].tStart);
      ghost var rest := GapsByEnd(dateTime, dateTimeList, i + 1, dateTimeList[i].tEnd);
      assert GapsByEnd(dateTime, dateTimeList, i, f) == [g] + rest;
      assert out + ([g] + rest) == (out + [g]) + rest;
      out := out + [g];
      f := dateTimeList[i].tEnd;
      i := i + 1;
    }
    if i >= |dateTimeList| {
      if f < dateTime.tEnd {
        out := out + [SqpDateTime(f, dateTime.tEnd)];
      } else {
        assert GapsByEnd(dateTime, dateTimeList, i, f) == [];
        assert out + [] == out;
      }
    } else if dateTime.tEnd <= dateTimeList[i].tStart {
      out := out + [SqpDateTime(f, dateTime.tEnd)];
    } else {
      var g := SqpDateTime(f, dateTimeList[i].tStart);
      assert GapsByEnd(dateTime, dateTimeList, i, f) == [g] + [];
      out := out + [g];
    }
  }

  /** The start scan as the source performs it; it hands over to the end scan. */
  method AddInCacheDataByStart(dateTime: SqpDateTime, dateTimeList: seq<SqpDateTime>,
                               notInCache: seq<SqpDateTime>, cacheIndex: nat, currentTStart: real)
    returns (out: seq<SqpDateTime>)
    ensures out == notInCache + GapsByStart(dateTime, dateTimeList, cacheIndex, currentTStart)
  {
    var i, f := cacheIndex, currentTStart;
    while i < |dateTimeList| && !(f < dateTimeList[i].tStart)
      invariant GapsByStart(dateTime, dateTimeList, i, f)
                == GapsByStart(dateTime, dateTimeList, cacheIndex, currentTStart)
      decreases |dateTimeList| - i
    {
      if dateTime.tStart < dateTimeList[i].tEnd {
        f := dateTimeList[i].tEnd;
      }
      i := i + 1;
    }
    if i >= |dateTimeList| {
      out := notInCache + [SqpDateTime(f, dateTime.tEnd)];
    } else {
      out := AddInCacheDataByEnd(dateTime, dateTimeList, notInCache, i, f);
    }
  }

  // ===========================================================================
  // The controller
  // ===========================================================================

  /** VariableCacheController: for each variable (compared by identity, here by equality
      of `Variable`) the list of intervals already fetched for it. */
  class VariableCacheController<Variable(==)> {
    var variableToDateTimeListMap: map<Variable, seq<SqpDateTime>>

    /** The cache invariant holds for every variable's list. */
    ghost predicate Valid()
      reads this
    {
      forall v :: v in variableToDateTimeListMap ==> Ordered(variableToDateTimeListMap[v])
    }

    constructor ()
      ensures variableToDateTimeListMap == map[]
      ensures Valid()
    {
      variableToDateTimeListMap := map[];
    }

    /** Records that `dateTime` has been fetched for `variable`. A null variable is ignored;
        the first interval of a variable starts its list; any later one is merge-inserted. */
    method AddDateTime(variable: Option<Variable>, dateTime: SqpDateTime)
      modifies this
      ensures variable.None? ==> variableToDateTimeListMap == old(variableToDateTimeListMap)
      ensures variable.Some? && variable.value !in old(variableToDateTimeListMap) ==>
        variableToDateTimeListMap == old(variableToDateTimeListMap)[variable.value := [dateTime]]
      ensures variable.Some? && variable.value in old(variableToDateTimeListMap) ==>
        variableToDateTimeListMap
        == old(variableToDateTimeListMap)[variable.value :=
             MergeInsert(dateTime, old(variableToDateTimeListMap)[variable.value])]
      ensures old(Valid()) && WellFormed(dateTime) ==> Valid()
      ensures old(Valid()) && WellFormed(dateTime) && variable.Some? ==>
        forall x :: Covers(variableToDateTimeListMap[variable.value], x)
          <==> (variable.value in old(variableToDateTimeListMap)
                && Covers(old(variableToDateTimeListMap)[variable.value], x))
               || dateTime.In(x)
    {
      if variable.Some? {
        var v := variable.value;
        if v !in variableToDateTimeListMap {
          variableToDateTimeListMap := variableToDateTimeListMap[v := [dateTime]];
          forall x ensures Covers([dateTime], x) <==> dateTime.In(x) {
            CoversSingleton(dateTime, x);
          }
        } else {
          var list := variableToDateTimeListMap[v];
          var newList := AddDateTimeRecurse(dateTime, list);
          if Valid() && WellFormed(dateTime) {
            MergeInsertOrdered(dateTime, list);
            MergeInsertCovers(dateTime, list);
          }
          variableToDateTimeListMap := variableToDateTimeListMap[v := newList];
        }
      }
    }

    /** The parts of `dateTime` not yet fetched for `variable`; the variable must have been
        registered (the source looks it up with `at`, which throws otherwise). */
    method ProvideNotInCacheDateTimeList(variable: Variable, dateTime: SqpDateTime)
      returns (notInCache: seq<SqpDateTime>)
      requires variable in variableToDateTimeListMap
      ensures notInCache == NotInCache(dateTime, variableToDateTimeListMap[variable])
      ensures |notInCache| >= 1
      ensures Valid() && ProperRequest(dateTime, variableToDateTimeListMap[variable]) ==>
        && |notInCache| <= |variableToDateTimeListMap[variable]| + 1
        && (forall n :: 0 <= n < |notInCache| ==>
              notInCache[n].tStart < notInCache[n].tEnd && dateTime.Contains(notInCache[n]))
        && Ascending(notInCache)
        && OutsideInteriors(notInCache, variableToDateTimeListMap[variable])
        && (forall x :: dateTime.In(x) ==>
              Covers(variableToDateTimeListMap[variable], x) || Covers(notInCache, x))
    {
      var dateTimeList := variableToDateTimeListMap[variable];
      notInCache := AddInCacheDataByStart(dateTime, dateTimeList, [], 0, dateTime.tStart);
      NotInCacheNonEmpty(dateTime, dateTimeList);
      if Valid() && ProperRequest(dateTime, dateTimeList) {
        NotInCacheCorrect(dateTime, dateTimeList);
      }
    }

    /** The stored list of a registered variable. */
    method DateCacheList(variable: Variable) returns (list: seq<SqpDateTime>)
      requires variable in variableToDateTimeListMap
      ensures list == variableToDateTimeListMap[variable]
      ensures Valid() ==> Ordered(list)
    {
      list := variableToDateTimeListMap[variable];
    }
  }
}
