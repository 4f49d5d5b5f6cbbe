/** Where a file's hunks, listed in any order, apply. */
module PatchPlaces {
  import opened Text
  import opened PatchReview
  import opened Sorting

  /** Hunk `i` is applied before hunk `j`: by old start, then by new start, then as listed. */
  predicate Earlier(hunks: seq<Hunk>, i: nat, j: nat)
    requires i < |hunks| && j < |hunks|
  {
    var a, b := hunks[i], hunks[j];
    || a.oldStart < b.oldStart
    || (a.oldStart == b.oldStart && (a.newStart < b.newStart || (a.newStart == b.newStart && i < j)))
  }

  /** The hunk lies in the base and finds its old text there. */
  predicate Stands(base: seq<string>, h: Hunk) {
    && 1 <= h.oldStart && h.oldStart - 1 + h.oldCount <= |base|
    && base[h.oldStart - 1..h.oldStart - 1 + h.oldCount] == OldLines(h.lines)
  }

  /** Every hunk stands, and ends before the next one starts. */
  ghost predicate Fit(base: seq<string>, hunks: seq<Hunk>) {
    && (forall i | 0 <= i < |hunks| :: Stands(base, hunks[i]))
    && (forall i: nat, j: nat | i < |hunks| && j < |hunks| && Earlier(hunks, i, j) ::
          hunks[i].oldStart + hunks[i].oldCount <= hunks[j].oldStart)
  }

  /** Lines added less lines removed by the hunks at these places, of the first `n`. */
  function GrowthOf(hunks: seq<Hunk>, places: set<nat>, n: nat): int
    requires n <= |hunks|
  {
    if n == 0 then 0
    else
      GrowthOf(hunks, places, n - 1) +
      if n - 1 in places then hunks[n - 1].newCount - hunks[n - 1].oldCount else 0
  }

  function Before(hunks: seq<Hunk>, i: nat): set<nat>
    requires i < |hunks|
  {
    set j: nat | j < |hunks| && Earlier(hunks, j, i)
  }

  function StartedBy(hunks: seq<Hunk>, x: nat): set<nat> {
    set j: nat | j < |hunks| && hunks[j].oldStart - 1 <= x
  }

  predicate Inside(h: Hunk, x: nat) {
    h.oldStart - 1 <= x < h.oldStart - 1 + h.oldCount
  }

  /** `out` is the base with every hunk applied: each hunk's new lines stand at its old start,
      moved by the growth of the hunks before it; every line outside the hunks is kept, moved by
      the growth of the hunks that start no later; and there is nothing else. */
  ghost predicate Placed(base: seq<string>, hunks: seq<Hunk>, out: seq<string>) {
    && |out| == |base| + Shift(hunks, |hunks|)
    && (forall i: nat | i < |hunks| :: NewTextPlaced(hunks, out, i))
    && (forall x: nat | x < |base| && (forall i | 0 <= i < |hunks| :: !Inside(hunks[i], x)) ::
          LineKept(base, hunks, out, x))
  }

  ghost predicate NewTextPlaced(hunks: seq<Hunk>, out: seq<string>, i: nat)
    requires i < |hunks|
  {
    var at := hunks[i].oldStart - 1 + GrowthOf(hunks, Before(hunks, i), |hunks|);
    0 <= at && at + hunks[i].newCount <= |out| && out[at..at + hunks[i].newCount] == NewLines(hunks[i].lines)
  }

  ghost predicate LineKept(base: seq<string>, hunks: seq<Hunk>, out: seq<string>, x: nat)
    requires x < |base|
  {
    var y := x + GrowthOf(hunks, StartedBy(hunks, x), |hunks|);
    0 <= y < |out| && out[y] == base[x]
  }

  // --------------------------------------------------- the arrangement the loop walks

  /** `p` lists the hunks' places in the order in which they are applied. */
  ghost predicate Arranged(hunks: seq<Hunk>, p: seq<nat>) {
    && |p| == |hunks| == |InOrder(hunks)|
    && (forall k | 0 <= k < |p| :: p[k] < |hunks| && InOrder(hunks)[k] == hunks[p[k]])
    && (forall k, l | 0 <= k < l < |p| :: Earlier(hunks, p[k], p[l]))
    && (forall i: nat | i < |hunks| :: i in p)
  }

  lemma HunksCompare()
    ensures TotalPreorder(HunkLe)
  {
  }

  lemma Arrange(hunks: seq<Hunk>) returns (p: seq<nat>)
    ensures Arranged(hunks, p)
  {
    hide Sort, TotalPreorder;
    HunksCompare();
    p := SortRanks(hunks, HunkLe);
    forall k, l | 0 <= k < l < |p| ensures Earlier(hunks, p[k], p[l]) {
      assert InTurn(hunks, HunkLe, p[k], p[l]);
    }
  }

  lemma EarlierRanks(hunks: seq<Hunk>, p: seq<nat>, k: nat, l: nat)
    requires Arranged(hunks, p) && k < |p| && l < |p|
    ensures Earlier(hunks, p[k], p[l]) <==> k < l
  {
    hide InOrder;
    if l < k { assert Earlier(hunks, p[l], p[k]); }
  }

  function Places(p: seq<nat>, k: nat): set<nat>
    requires k <= |p|
  {
    set l | 0 <= l < k :: p[l]
  }

  lemma BeforeIs(hunks: seq<Hunk>, p: seq<nat>, k: nat)
    requires Arranged(hunks, p) && k < |p|
    ensures Before(hunks, p[k]) == Places(p, k)
  {
    hide InOrder, Earlier;
    forall j: nat ensures j in Before(hunks, p[k]) <==> j in Places(p, k) {
      if j < |hunks| {
        assert j in p;
        var l :| 0 <= l < |p| && p[l] == j;
        EarlierRanks(hunks, p, l, k);
        if j in Places(p, k) {
          var m :| 0 <= m < k && p[m] == j;
          EarlierRanks(hunks, p, m, k);
        }
      }
    }
  }

  /** Between two hunks of the arrangement, the hunks started are those in front. */
  lemma StartedAre(hunks: seq<Hunk>, p: seq<nat>, k: nat, x: nat)
    requires Arranged(hunks, p) && k <= |p|
    requires k > 0 ==> hunks[p[k - 1]].oldStart - 1 <= x
    requires k < |p| ==> x < hunks[p[k]].oldStart - 1
    ensures StartedBy(hunks, x) == Places(p, k)
  {
    hide InOrder;
    forall l | 0 <= l < |p| ensures hunks[p[l]].oldStart - 1 <= x <==> l < k {
      if l < k - 1 { assert Earlier(hunks, p[l], p[k - 1]); }
      if l > k { assert Earlier(hunks, p[k], p[l]); }
    }
    forall j: nat ensures j in StartedBy(hunks, x) <==> j in Places(p, k) {
      if j < |hunks| {
        assert j in p;
        var l :| 0 <= l < |p| && p[l] == j;
      }
    }
  }

  // ------------------------------------------------------------------------ growth

  lemma {:induction false} GrowthMore(hunks: seq<Hunk>, places: set<nat>, j: nat, n: nat)
    requires n <= |hunks| && j !in places
    ensures GrowthOf(hunks, places + {j}, n) ==
            GrowthOf(hunks, places, n) + if j < n then Growth(hunks[j]) else 0
  {
    if n > 0 { GrowthMore(hunks, places, j, n - 1); }
  }

  lemma {:induction false} NoGrowth(hunks: seq<Hunk>, n: nat)
    requires n <= |hunks|
    ensures GrowthOf(hunks, {}, n) == 0
  {
    if n > 0 { NoGrowth(hunks, n - 1); }
  }

  lemma {:induction false} ShiftMore(hunks: seq<Hunk>, k: nat)
    requires k < |hunks|
    ensures Shift(hunks, k + 1) == Shift(hunks, k) + Growth(hunks[k])
  {
    if k > 0 { ShiftMore(hunks[1..], k - 1); }
  }

  lemma {:induction false} ShiftIsGrowth(hunks: seq<Hunk>, p: seq<nat>, k: nat)
    requires Arranged(hunks, p) && k <= |p|
    ensures Shift(InOrder(hunks), k) == GrowthOf(hunks, Places(p, k), |hunks|)
  {
    hide InOrder, Earlier, GrowthOf, Growth, Shift;
    if k == 0 {
      assert Places(p, 0) == {};
      NoGrowth(hunks, |hunks|);
      assert Shift(InOrder(hunks), 0) == 0 by { NoShift(InOrder(hunks)); }
    } else {
      ShiftIsGrowth(hunks, p, k - 1);
      ShiftMore(InOrder(hunks), k - 1);
      assert p[k - 1] !in Places(p, k - 1) by { NotRepeated(hunks, p, k - 1); }
      assert Places(p, k) == Places(p, k - 1) + {p[k - 1]};
      GrowthMore(hunks, Places(p, k - 1), p[k - 1], |hunks|);
    }
  }

  lemma {:induction false} FullGrowth(hunks: seq<Hunk>, places: set<nat>, n: nat)
    requires n <= |hunks| && forall j: nat | j < n :: j in places
    ensures GrowthOf(hunks, places, n) == Shift(hunks, n)
  {
    if n > 0 {
      FullGrowth(hunks, places, n - 1);
      ShiftMore(hunks, n - 1);
    }
  }

  lemma TotalGrowth(hunks: seq<Hunk>, p: seq<nat>)
    requires Arranged(hunks, p)
    ensures Shift(InOrder(hunks), |hunks|) == Shift(hunks, |hunks|)
  {
    hide InOrder, Earlier;
    ShiftIsGrowth(hunks, p, |hunks|);
    forall j: nat | j < |hunks| ensures j in Places(p, |p|) { assert j in p; }
    FullGrowth(hunks, Places(p, |p|), |hunks|);
  }

  lemma NoShift(hunks: seq<Hunk>)
    ensures Shift(hunks, 0) == 0
  {
  }

  lemma NotRepeated(hunks: seq<Hunk>, p: seq<nat>, k: nat)
    requires Arranged(hunks, p) && k < |p|
    ensures p[k] !in Places(p, k)
  {
    hide InOrder;
    forall l | 0 <= l < k ensures p[l] != p[k] { assert Earlier(hunks, p[l], p[k]); }
  }

  // ------------------------------------------------------------------ when they fit

  lemma {:induction false} FitsFar(base: seq<string>, hunks: seq<Hunk>, k: nat, l: nat)
    requires Fits(base, 0, hunks) && k < l < |hunks|
    ensures At(hunks[k]) + hunks[k].oldCount <= At(hunks[l])
  {
    hide OldLines;
    assert FitsAt(base, 0, hunks, l);
    if k < l - 1 {
      FitsFar(base, hunks, k, l - 1);
      assert FitsAt(base, 0, hunks, l - 1);
    }
  }

  lemma FitIsFits(base: seq<string>, hunks: seq<Hunk>, p: seq<nat>)
    requires Arranged(hunks, p)
    ensures Fit(base, hunks) <==> Fits(base, 0, InOrder(hunks))
  {
    hide OldLines, InOrder, Earlier;
    var sorted := InOrder(hunks);
    if Fits(base, 0, sorted) {
      forall i: nat | i < |hunks| ensures Stands(base, hunks[i]) {
        assert i in p;
        var k :| 0 <= k < |p| && p[k] == i;
        assert FitsAt(base, 0, sorted, k);
      }
      forall i: nat, j: nat | i < |hunks| && j < |hunks| && Earlier(hunks, i, j)
        ensures hunks[i].oldStart + hunks[i].oldCount <= hunks[j].oldStart
      {
        assert i in p && j in p;
        var k :| 0 <= k < |p| && p[k] == i;
        var l :| 0 <= l < |p| && p[l] == j;
        EarlierRanks(hunks, p, k, l);
        FitsFar(base, sorted, k, l);
      }
    }
    if Fit(base, hunks) {
      forall k | 0 <= k < |sorted| ensures FitsAt(base, 0, sorted, k) {
        assert Stands(base, hunks[p[k]]);
        if k > 0 { assert Earlier(hunks, p[k - 1], p[k]); }
      }
    }
  }

  // ------------------------------------------------------------------- what comes of it

  lemma NewTextIs(hunks: seq<Hunk>, p: seq<nat>, out: seq<string>, k: nat)
    requires Arranged(hunks, p) && k < |p|
    ensures NewTextPlaced(hunks, out, p[k]) <==> NewTextAt(0, InOrder(hunks), out, k)
  {
    hide InOrder, Earlier, NewLines, Shift, GrowthOf;
    BeforeIs(hunks, p, k);
    ShiftIsGrowth(hunks, p, k);
  }

  /** A line between two hunks is inside none, and the other way round. */
  lemma BetweenHunks(base: seq<string>, hunks: seq<Hunk>, p: seq<nat>, k: nat, x: nat)
    requires Arranged(hunks, p) && k <= |p| && Fits(base, 0, InOrder(hunks)) && x < |base|
    requires After(InOrder(hunks), 0, k) <= x < Upto(base, InOrder(hunks), k)
    ensures forall i | 0 <= i < |hunks| :: !Inside(hunks[i], x)
    ensures StartedBy(hunks, x) == Places(p, k)
  {
    hide InOrder, Earlier, OldLines, Places;
    var sorted := InOrder(hunks);
    forall l | 0 <= l < |p| ensures !Inside(hunks[p[l]], x) {
      assert FitsAt(base, 0, sorted, l);
      if l < k - 1 { FitsFar(base, sorted, l, k - 1); }
      if l > k { FitsFar(base, sorted, k, l); }
      if k > 0 { assert FitsAt(base, 0, sorted, k - 1); }
      if k < |p| { assert FitsAt(base, 0, sorted, k); }
    }
    forall i: nat | i < |hunks| ensures !Inside(hunks[i], x) {
      assert i in p;
    }
    if k > 0 { assert FitsAt(base, 0, sorted, k - 1); }
    StartedAre(hunks, p, k, x);
  }

  lemma GapOf(base: seq<string>, hunks: seq<Hunk>, p: seq<nat>, x: nat) returns (k: nat)
    requires Arranged(hunks, p) && Fits(base, 0, InOrder(hunks)) && x < |base|
    requires forall i | 0 <= i < |hunks| :: !Inside(hunks[i], x)
    ensures k <= |p| && After(InOrder(hunks), 0, k) <= x < Upto(base, InOrder(hunks), k)
  {
    hide InOrder, Earlier, OldLines;
    k := 0;
    while k < |p| && hunks[p[k]].oldStart - 1 <= x
      invariant k <= |p| && After(InOrder(hunks), 0, k) <= x
    {
      assert !Inside(hunks[p[k]], x);
      k := k + 1;
    }
  }

  lemma KeptIs(base: seq<string>, hunks: seq<Hunk>, p: seq<nat>, out: seq<string>, k: nat, x: nat)
    requires Arranged(hunks, p) && k <= |p| && x < |base| && StartedBy(hunks, x) == Places(p, k)
    ensures LineKept(base, hunks, out, x) <==> KeptLine(base, 0, InOrder(hunks), out, k, x)
  {
    hide InOrder, Earlier, Shift, GrowthOf;
    ShiftIsGrowth(hunks, p, k);
  }

  lemma PlacedIsPatched(base: seq<string>, hunks: seq<Hunk>, p: seq<nat>, out: seq<string>)
    requires Arranged(hunks, p) && Fits(base, 0, InOrder(hunks))
    ensures Placed(base, hunks, out) <==> Patched(base, 0, InOrder(hunks), out)
  {
    hide InOrder, Earlier, Shift, GrowthOf, NewTextPlaced, NewTextAt, LineKept, KeptLine, Inside, Fits, Before, Places;
    var sorted := InOrder(hunks);
    TotalGrowth(hunks, p);
    forall k | 0 <= k < |p| ensures NewTextPlaced(hunks, out, p[k]) <==> NewTextAt(0, sorted, out, k) {
      NewTextIs(hunks, p, out, k);
    }
    if Patched(base, 0, sorted, out) {
      forall i: nat | i < |hunks| ensures NewTextPlaced(hunks, out, i) {
        assert i in p;
      }
      forall x: nat | x < |base| && (forall i | 0 <= i < |hunks| :: !Inside(hunks[i], x))
        ensures LineKept(base, hunks, out, x)
      {
        var k := GapOf(base, hunks, p, x);
        BetweenHunks(base, hunks, p, k, x);
        KeptIs(base, hunks, p, out, k, x);
      }
    }
    if Placed(base, hunks, out) {
      forall k, x | 0 <= k <= |sorted| && After(sorted, 0, k) <= x < Upto(base, sorted, k)
        ensures KeptLine(base, 0, sorted, out, k, x)
      {
        GapInBase(base, sorted, k, x);
        BetweenHunks(base, hunks, p, k, x);
        KeptIs(base, hunks, p, out, k, x);
      }
    }
  }

  lemma GapInBase(base: seq<string>, hunks: seq<Hunk>, k: nat, x: int)
    requires Fits(base, 0, hunks) && k <= |hunks| && After(hunks, 0, k) <= x < Upto(base, hunks, k)
    ensures 0 <= x < |base|
  {
    hide OldLines;
    if k > 0 { assert FitsAt(base, 0, hunks, k - 1); }
    if k < |hunks| { assert FitsAt(base, 0, hunks, k); }
  }

  lemma {:induction false} CountsInOrder(hunks: seq<Hunk>)
    requires AllCountsHold(hunks)
    ensures AllCountsHold(InOrder(hunks))
  {
    hide CountsHold;
    var r := InOrder(hunks);
    forall i | 0 <= i < |r| ensures CountsHold(r[i]) {
      assert r[i] in r;
    }
  }

  /** Hunks listed in any order apply exactly when each stands in the base and they do not
      overlap, and what comes of it is the one text in which all of them are placed. */
  lemma AnyOrder(base: seq<string>, hunks: seq<Hunk>)
    requires AllCountsHold(hunks)
    ensures Rebuilt(base, 0, InOrder(hunks)).Some? <==> Fit(base, hunks)
    ensures Fit(base, hunks) ==>
              forall out :: Placed(base, hunks, out) <==> Rebuilt(base, 0, InOrder(hunks)) == Some(out)
  {
    hide InOrder, Fit, Fits, Placed, Patched, AllCountsHold, Arranged, Rebuilt;
    var p := Arrange(hunks);
    CountsInOrder(hunks);
    FitIsFits(base, hunks, p);
    RebuiltFits(base, 0, InOrder(hunks));
    if Fit(base, hunks) {
      forall out ensures Placed(base, hunks, out) <==> Rebuilt(base, 0, InOrder(hunks)) == Some(out) {
        PlacedIsPatched(base, hunks, p, out);
        RebuiltIsPatched(base, 0, InOrder(hunks), out);
      }
    }
  }
}
