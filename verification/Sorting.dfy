/** Python's stable `sorted`, and what a caller may rely on: order, members, stability, and
    which inputs give the same result. */
module Sorting {

  ghost predicate TotalPreorder<T(!new)>(le: (T, T) -> bool) {
    && (forall x, y :: le(x, y) || le(y, x))
    && (forall x, y, z :: le(x, y) && le(y, z) ==> le(x, z))
  }

  ghost predicate SortedBy<T(!new)>(s: seq<T>, le: (T, T) -> bool) {
    forall i, j | 0 <= i < j < |s| :: le(s[i], s[j])
  }

  /** Puts `x` before the first element it does not exceed. */
  function Insert<T>(x: T, s: seq<T>, le: (T, T) -> bool): (r: seq<T>)
    ensures |r| == |s| + 1
    ensures multiset(r) == multiset(s) + multiset{x}
  {
    if s == [] then [x]
    else if le(x, s[0]) then [x] + s
    else
      assert s == [s[0]] + s[1..];
      [s[0]] + Insert(x, s[1..], le)
  }

  function Sort<T>(s: seq<T>, le: (T, T) -> bool): (r: seq<T>)
    ensures |r| == |s|
    ensures multiset(r) == multiset(s)
  {
    if s == [] then []
    else
      assert s == [s[0]] + s[1..];
      Insert(s[0], Sort(s[1..], le), le)
  }

  lemma {:induction false} InsertSorted<T(!new)>(x: T, s: seq<T>, le: (T, T) -> bool)
    requires TotalPreorder(le) && SortedBy(s, le)
    ensures SortedBy(Insert(x, s, le), le)
  {
    if s == [] || le(x, s[0]) {
    } else {
      InsertSorted(x, s[1..], le);
      var rest := Insert(x, s[1..], le);
      assert s == [s[0]] + s[1..];
      forall j | 0 <= j < |rest| ensures le(s[0], rest[j]) {
        assert rest[j] in multiset(rest);
        assert rest[j] == x || rest[j] in s[1..];
      }
    }
  }

  lemma {:induction false} SortSorted<T(!new)>(s: seq<T>, le: (T, T) -> bool)
    requires TotalPreorder(le)
    ensures SortedBy(Sort(s, le), le)
  {
    if s != [] {
      SortSorted(s[1..], le);
      InsertSorted(s[0], Sort(s[1..], le), le);
    }
  }

  lemma SortMembers<T>(s: seq<T>, le: (T, T) -> bool)
    ensures forall x :: x in Sort(s, le) <==> x in s
  {
    forall x ensures x in Sort(s, le) <==> x in s {
      assert x in Sort(s, le) <==> x in multiset(Sort(s, le));
    }
  }

  /** `Sort` leaves a list alone that is in order already. */
  lemma {:induction false} SortOfSorted<T(!new)>(s: seq<T>, le: (T, T) -> bool)
    requires SortedBy(s, le)
    ensures Sort(s, le) == s
  {
    if s != [] {
      SortOfSorted(s[1..], le);
      if |s| > 1 { assert le(s[0], s[1]); }
      assert s == [s[0]] + s[1..];
    }
  }

  lemma SortedTail<T(!new)>(s: seq<T>, le: (T, T) -> bool)
    requires s != [] && SortedBy(s, le)
    ensures SortedBy(s[1..], le)
  {
  }

  lemma LeastFirst<T(!new)>(a: seq<T>, b: seq<T>, le: (T, T) -> bool)
    requires TotalPreorder(le) && SortedBy(a, le)
    requires a != [] && b != [] && multiset(a) == multiset(b)
    ensures b[0] in a && le(a[0], b[0])
  {
    assert b[0] in multiset(b);
    var j :| 0 <= j < |a| && a[j] == b[0];
    if j > 0 { assert le(a[0], a[j]); }
  }

  lemma MultisetTail<T>(s: seq<T>)
    requires s != []
    ensures multiset(s[1..]) == multiset(s) - multiset{s[0]}
  {
    assert s == [s[0]] + s[1..];
  }

  /** `le` tells the elements of `s` apart. */
  ghost predicate Separates<T(!new)>(le: (T, T) -> bool, s: seq<T>) {
    forall x, y | x in s && y in s && le(x, y) && le(y, x) :: x == y
  }

  lemma HeadsAgree<T(!new)>(a: seq<T>, b: seq<T>, le: (T, T) -> bool)
    requires TotalPreorder(le) && SortedBy(a, le) && SortedBy(b, le) && Separates(le, a)
    requires a != [] && b != [] && multiset(a) == multiset(b)
    ensures a[0] == b[0]
    ensures multiset(a[1..]) == multiset(b[1..])
    ensures Separates(le, a[1..])
  {
    LeastFirst(a, b, le);
    LeastFirst(b, a, le);
    MultisetTail(a);
    MultisetTail(b);
    assert forall x | x in a[1..] :: x in a;
  }

  /** Sorted lists of the same elements are equal when `le` tells those elements apart. */
  lemma {:induction false} SortedUnique<T(!new)>(a: seq<T>, b: seq<T>, le: (T, T) -> bool)
    requires TotalPreorder(le) && SortedBy(a, le) && SortedBy(b, le) && Separates(le, a)
    requires multiset(a) == multiset(b)
    ensures a == b
  {
    hide *;
    assert |a| == |multiset(a)| == |multiset(b)| == |b|;
    if a != [] {
      HeadsAgree(a, b, le);
      SortedTail(a, le);
      SortedTail(b, le);
      SortedUnique(a[1..], b[1..], le);
      assert a == [a[0]] + a[1..];
      assert b == [b[0]] + b[1..];
    }
  }

  // ------------------------------------------------- where the result comes from

  function PutAt<T>(s: seq<T>, at: nat, x: T): seq<T>
    requires at <= |s|
  {
    s[..at] + [x] + s[at..]
  }

  lemma PutAtIs<T>(s: seq<T>, at: nat, x: T)
    requires at <= |s|
    ensures |PutAt(s, at, x)| == |s| + 1
    ensures forall k | 0 <= k <= |s| :: PutAt(s, at, x)[k] == if k < at then s[k] else if k == at then x else s[k - 1]
  {
  }

  lemma PutBehind<T>(h: T, t: seq<T>, at: nat, x: T)
    requires at <= |t|
    ensures PutAt([h] + t, at + 1, x) == [h] + PutAt(t, at, x)
  {
    assert ([h] + t)[..at + 1] == [h] + t[..at];
    assert ([h] + t)[at + 1..] == t[at..];
  }

  lemma {:induction false} InsertAt<T>(x: T, s: seq<T>, le: (T, T) -> bool) returns (at: nat)
    ensures at <= |s| && Insert(x, s, le) == PutAt(s, at, x)
    ensures forall i | 0 <= i < at :: !le(x, s[i])
    ensures at < |s| ==> le(x, s[at])
  {
    hide PutAt;
    if s == [] || le(x, s[0]) {
      at := 0;
      assert PutAt(s, 0, x) == [x] + s by { PutFirst(s, x); }
    } else {
      var rest := InsertAt(x, s[1..], le);
      PutBehind(s[0], s[1..], rest, x);
      assert [s[0]] + s[1..] == s;
      at := rest + 1;
    }
  }

  lemma PutFirst<T>(s: seq<T>, x: T)
    ensures PutAt(s, 0, x) == [x] + s
  {
  }

  /** `p` lists the places of `s` from the least element to the greatest, ties by place. */
  ghost predicate Ranks<T(!new)>(s: seq<T>, le: (T, T) -> bool, p: seq<nat>) {
    && |p| == |s|
    && (forall k | 0 <= k < |p| :: p[k] < |s|)
    && (forall k, l | 0 <= k < l < |p| :: InTurn(s, le, p[k], p[l]))
    && (forall i: nat | i < |s| :: i in p)
  }

  predicate InTurn<T>(s: seq<T>, le: (T, T) -> bool, i: nat, j: nat)
    requires i < |s| && j < |s|
  {
    le(s[i], s[j]) && (le(s[j], s[i]) ==> i < j)
  }

  lemma TurnMore<T(!new)>(x: T, t: seq<T>, le: (T, T) -> bool, q: seq<nat>, at: nat, k: nat, l: nat)
    requires TotalPreorder(le) && Ranks(t, le, q) && at <= |q|
    requires (forall i | 0 <= i < at :: !le(x, t[q[i]])) && (at < |q| ==> le(x, t[q[at]]))
    requires k < l <= |q|
    ensures var i, j := Moved(q, at, k), Moved(q, at, l);
            i <= |t| && j <= |t| && InTurn([x] + t, le, i, j)
  {
    if k == at && l - 1 > at { assert InTurn(t, le, q[at], q[l - 1]); }
  }

  /** The place behind rank `k` once another element stands in front, at rank `at`. */
  function Moved(q: seq<nat>, at: nat, k: nat): nat
    requires at <= |q| && k <= |q|
  {
    if k < at then q[k] + 1 else if k == at then 0 else q[k - 1] + 1
  }

  function AllMoved(q: seq<nat>, at: nat): seq<nat>
    requires at <= |q|
  {
    seq(|q| + 1, k requires 0 <= k <= |q| => Moved(q, at, k))
  }

  lemma RanksMore<T(!new)>(x: T, t: seq<T>, le: (T, T) -> bool, q: seq<nat>, at: nat)
    requires TotalPreorder(le) && Ranks(t, le, q) && at <= |q|
    requires (forall i | 0 <= i < at :: !le(x, t[q[i]])) && (at < |q| ==> le(x, t[q[at]]))
    ensures Ranks([x] + t, le, AllMoved(q, at))
  {
    hide InTurn, TotalPreorder;
    var p := AllMoved(q, at);
    forall k, l | 0 <= k < l < |p| ensures p[k] <= |t| && p[l] <= |t| && InTurn([x] + t, le, p[k], p[l]) {
      TurnMore(x, t, le, q, at, k, l);
    }
    forall i: nat | i <= |t| ensures i in p {
      PlaceFound(q, at, |t|, i);
    }
    assert forall k | 0 <= k < |p| :: p[k] <= |t|;
  }

  lemma PlaceFound(q: seq<nat>, at: nat, n: nat, i: nat)
    requires at <= |q| && i <= n && forall j: nat | j < n :: j in q
    ensures i in AllMoved(q, at)
  {
    var p := AllMoved(q, at);
    if i == 0 {
      assert p[at] == 0;
    } else {
      var j: nat := i - 1;
      assert j in q;
      var k :| 0 <= k < |q| && q[k] == j;
      assert p[if k < at then k else k + 1] == i;
    }
  }

  /** The places that `Sort` reads its result from. */
  lemma {:induction false} SortRanks<T(!new)>(s: seq<T>, le: (T, T) -> bool) returns (p: seq<nat>)
    requires TotalPreorder(le)
    ensures Ranks(s, le, p)
    ensures forall k | 0 <= k < |s| :: Sort(s, le)[k] == s[p[k]]
  {
    hide PutAt, InTurn, TotalPreorder, Insert, Moved;
    if s == [] {
      p := [];
    } else {
      var x, t := s[0], s[1..];
      var q := SortRanks(t, le);
      var at := InsertAt(x, Sort(t, le), le);
      p := AllMoved(q, at);
      assert [x] + t == s;
      RanksMore(x, t, le, q, at);
      ReadMoved(x, t, Sort(t, le), q, at);
    }
  }

  lemma ReadMoved<T>(x: T, t: seq<T>, sorted: seq<T>, q: seq<nat>, at: nat)
    requires |sorted| == |q| == |t| && at <= |q|
    requires forall k | 0 <= k < |q| :: q[k] < |t| && sorted[k] == t[q[k]]
    ensures forall k | 0 <= k <= |q| :: Moved(q, at, k) <= |t| && PutAt(sorted, at, x)[k] == ([x] + t)[Moved(q, at, k)]
  {
    PutAtIs(sorted, at, x);
    hide PutAt;
  }

  /** `le` cannot tell `x` from `k`. */
  ghost predicate Ties<T>(x: T, k: T, le: (T, T) -> bool) {
    le(x, k) && le(k, x)
  }

  /** The elements of `s` that `le` cannot tell from `k`, in order. */
  ghost function Class<T>(s: seq<T>, k: T, le: (T, T) -> bool): seq<T> {
    if s == [] then []
    else (if Ties(s[0], k, le) then [s[0]] else []) + Class(s[1..], k, le)
  }

  lemma ClassCons<T>(x: T, s: seq<T>, k: T, le: (T, T) -> bool)
    ensures Class([x] + s, k, le) == (if Ties(x, k, le) then [x] else []) + Class(s, k, le)
  {
    assert ([x] + s)[1..] == s;
  }

  lemma NotBothTie<T(!new)>(x: T, h: T, k: T, le: (T, T) -> bool)
    requires TotalPreorder(le) && !le(x, h)
    ensures !Ties(x, k, le) || !Ties(h, k, le)
  {
  }

  lemma {:induction false} InsertClass<T(!new)>(x: T, s: seq<T>, k: T, le: (T, T) -> bool)
    requires TotalPreorder(le) && SortedBy(s, le)
    ensures Class(Insert(x, s, le), k, le) == Class([x] + s, k, le)
  {
    hide TotalPreorder, SortedBy, Class, Ties;
    if s == [] || le(x, s[0]) {
      assert Insert(x, s, le) == [x] + s;
    } else {
      var h, t := s[0], s[1..];
      SortedTail(s, le);
      InsertClass(x, t, k, le);
      NotBothTie(x, h, k, le);
      ClassPast(x, h, t, k, le);
      assert [h] + t == s;
    }
  }

  lemma ClassPast<T(!new)>(x: T, h: T, t: seq<T>, k: T, le: (T, T) -> bool)
    requires !le(x, h)
    requires !Ties(x, k, le) || !Ties(h, k, le)
    requires Class(Insert(x, t, le), k, le) == Class([x] + t, k, le)
    ensures Class(Insert(x, [h] + t, le), k, le) == Class([x] + ([h] + t), k, le)
  {
    hide *;
    InsertPast(x, h, t, le);
    ClassCons(h, Insert(x, t, le), k, le);
    ClassCons(x, t, k, le);
    ClassCons(x, [h] + t, k, le);
    ClassCons(h, t, k, le);
    OneEmpty(if Ties(x, k, le) then [x] else [], if Ties(h, k, le) then [h] else [], Class(t, k, le));
  }

  lemma InsertPast<T>(x: T, h: T, t: seq<T>, le: (T, T) -> bool)
    requires !le(x, h)
    ensures Insert(x, [h] + t, le) == [h] + Insert(x, t, le)
  {
    assert ([h] + t)[1..] == t;
  }

  lemma OneEmpty<T>(a: seq<T>, b: seq<T>, c: seq<T>)
    requires a == [] || b == []
    ensures a + (b + c) == b + (a + c)
  {
    if a == [] {
      assert a + (b + c) == b + c && a + c == c;
    } else {
      assert b + (a + c) == a + c && b + c == c;
    }
  }

  /** Stability: elements with equal keys keep their order. */
  lemma {:induction false} SortStable<T(!new)>(s: seq<T>, k: T, le: (T, T) -> bool)
    requires TotalPreorder(le)
    ensures Class(Sort(s, le), k, le) == Class(s, k, le)
  {
    if s != [] {
      SortStable(s[1..], k, le);
      SortSorted(s[1..], le);
      InsertClass(s[0], Sort(s[1..], le), k, le);
      assert ([s[0]] + Sort(s[1..], le))[1..] == Sort(s[1..], le);
    }
  }

  /** The result of `Sort` does not depend on the order of its input exactly when `le`
      tells the different elements apart. */
  lemma SortOrderFree<T(!new)>(s: seq<T>, le: (T, T) -> bool)
    requires TotalPreorder(le)
    ensures (forall p: seq<T> | multiset(p) == multiset(s) :: Sort(p, le) == Sort(s, le)) <==> Separates(le, s)
  {
    hide TotalPreorder, Sort, Separates;
    if Separates(le, s) {
      forall p: seq<T> | multiset(p) == multiset(s) ensures Sort(p, le) == Sort(s, le) {
        SortPermuted(p, s, le);
      }
    } else {
      var x, y := Confused(s, le);
      var p := Fronted(s, x);
      var q := Fronted(s, y);
      SortStable([x] + p, x, le);
      SortStable([y] + q, x, le);
      ClassCons(x, p, x, le);
      ClassCons(y, q, x, le);
      assert ([x] + Class(p, x, le))[0] != ([y] + Class(q, x, le))[0];
      assert Sort([x] + p, le) != Sort([y] + q, le);
    }
  }

  lemma SortPermuted<T(!new)>(p: seq<T>, s: seq<T>, le: (T, T) -> bool)
    requires TotalPreorder(le) && multiset(p) == multiset(s) && Separates(le, s)
    ensures Sort(p, le) == Sort(s, le)
  {
    hide TotalPreorder, Sort;
    SortSorted(p, le);
    SortSorted(s, le);
    SortMembers(s, le);
    SortedUnique(Sort(s, le), Sort(p, le), le);
  }

  lemma Confused<T(!new)>(s: seq<T>, le: (T, T) -> bool) returns (x: T, y: T)
    requires TotalPreorder(le) && !Separates(le, s)
    ensures x in s && y in s && x != y && Ties(x, x, le) && Ties(y, x, le)
  {
    x, y :| x in s && y in s && le(x, y) && le(y, x) && x != y;
    assert le(x, x);
  }

  /** `s` without one occurrence of `x`. */
  lemma Fronted<T>(s: seq<T>, x: T) returns (rest: seq<T>)
    requires x in s
    ensures multiset([x] + rest) == multiset(s)
  {
    var i :| 0 <= i < |s| && s[i] == x;
    rest := s[..i] + s[i + 1..];
    assert s == s[..i] + [x] + s[i + 1..];
  }

  /** Lexicographic order on strings, as Python compares them. */
  predicate StringLe(a: string, b: string) {
    if a == "" then true
    else if b == "" then false
    else if a[0] != b[0] then a[0] < b[0]
    else StringLe(a[1..], b[1..])
  }

  lemma {:induction false} StringLeTotal(a: string, b: string)
    ensures StringLe(a, b) || StringLe(b, a)
    ensures StringLe(a, b) && StringLe(b, a) ==> a == b
  {
    if a != "" && b != "" && a[0] == b[0] {
      StringLeTotal(a[1..], b[1..]);
      assert a == [a[0]] + a[1..] && b == [b[0]] + b[1..];
    }
  }

  lemma {:induction false} StringLeTransitive(a: string, b: string, c: string)
    requires StringLe(a, b) && StringLe(b, c)
    ensures StringLe(a, c)
  {
    if a != "" && a[0] == b[0] == c[0] {
      StringLeTransitive(a[1..], b[1..], c[1..]);
    }
  }

  lemma StringLeOrder()
    ensures TotalPreorder(StringLe)
    ensures forall a, b :: StringLe(a, b) && StringLe(b, a) ==> a == b
  {
    forall a: string, b: string { StringLeTotal(a, b); }
    forall a: string, b: string, c: string | StringLe(a, b) && StringLe(b, c) { StringLeTransitive(a, b, c); }
  }

  predicate Distinct<T(==)>(s: seq<T>) {
    forall i, j | 0 <= i < j < |s| :: s[i] != s[j]
  }

  // ------------------------------------------------------- lists up to reordering

  lemma MembersPermuted<T>(p: seq<T>, s: seq<T>)
    requires multiset(p) == multiset(s)
    ensures forall x :: x in p <==> x in s
  {
    forall x ensures x in p <==> x in s {
      assert x in p <==> x in multiset(p);
      assert x in s <==> x in multiset(s);
    }
  }

  lemma SplitAt<T>(s: seq<T>, x: T) returns (before: seq<T>, after: seq<T>)
    requires x in s
    ensures s == before + [x] + after
  {
    var i :| 0 <= i < |s| && s[i] == x;
    before, after := s[..i], s[i + 1..];
  }

  lemma WithoutOne<T>(p: seq<T>, s: seq<T>, x: T, before: seq<T>, after: seq<T>)
    requires s != [] && s[0] == x && p == before + [x] + after
    requires multiset(p) == multiset(s)
    ensures multiset(before + after) == multiset(s[1..])
  {
    assert s == [x] + s[1..];
    assert multiset(before + after) == multiset(p) - multiset{x};
    assert multiset(s[1..]) == multiset(s) - multiset{x};
  }

  lemma DistinctCounts<T>(s: seq<T>)
    ensures Distinct(s) <==> forall x :: multiset(s)[x] <= 1
  {
    if Distinct(s) {
      forall x ensures multiset(s)[x] <= 1 { DistinctOnce(s, x); }
    } else {
      var i, j :| 0 <= i < j < |s| && s[i] == s[j];
      assert s == s[..i] + [s[i]] + s[i + 1..j] + [s[j]] + s[j + 1..];
      assert multiset(s)[s[i]] >= 2;
    }
  }

  lemma DistinctOnce<T>(s: seq<T>, x: T)
    requires Distinct(s)
    ensures multiset(s)[x] <= 1
  {
    if x in s {
      var before, after := SplitAt(s, x);
      Apart(before, x, after);
      assert multiset(s) == multiset(before) + multiset{x} + multiset(after);
    }
  }

  lemma Apart<T>(before: seq<T>, x: T, after: seq<T>)
    requires Distinct(before + [x] + after)
    ensures x !in before && x !in after
  {
    var s, n := before + [x] + after, |before|;
    assert s[n] == x;
    assert forall i | 0 <= i < n :: s[i] == before[i];
    assert forall i | 0 <= i < |after| :: s[n + 1 + i] == after[i];
  }

  lemma DistinctPermuted<T>(p: seq<T>, s: seq<T>)
    requires multiset(p) == multiset(s)
    ensures Distinct(p) <==> Distinct(s)
  {
    DistinctCounts(p);
    DistinctCounts(s);
  }

  /** The sum of `f` over a list. */
  function Sum<T>(s: seq<T>, f: T -> nat): nat {
    if s == [] then 0 else f(s[0]) + Sum(s[1..], f)
  }

  lemma {:induction false} SumConcat<T>(a: seq<T>, b: seq<T>, f: T -> nat)
    ensures Sum(a + b, f) == Sum(a, f) + Sum(b, f)
  {
    if a == [] {
      assert a + b == b;
    } else {
      assert (a + b)[1..] == a[1..] + b;
      SumConcat(a[1..], b, f);
    }
  }

  lemma SumOne<T>(x: T, f: T -> nat)
    ensures Sum([x], f) == f(x)
  {
    assert [x][1..] == [];
  }

  lemma {:induction false} SumPermuted<T>(p: seq<T>, s: seq<T>, f: T -> nat)
    requires multiset(p) == multiset(s)
    ensures Sum(p, f) == Sum(s, f)
    decreases |s|
  {
    if s == [] {
      assert |p| == |multiset(p)| == 0;
    } else {
      MembersPermuted(p, s);
      var before, after := SplitAt(p, s[0]);
      WithoutOne(p, s, s[0], before, after);
      SumPermuted(before + after, s[1..], f);
      SumConcat(before + [s[0]], after, f);
      SumConcat(before, [s[0]], f);
      SumConcat(before, after, f);
      SumOne(s[0], f);
    }
  }

  /** Lists without repetitions and with the same members are reorderings of each other. */
  lemma SameMembers<T>(a: seq<T>, b: seq<T>)
    requires Distinct(a) && Distinct(b) && |a| == |b|
    requires forall x | x in a :: x in b
    ensures multiset(a) == multiset(b)
  {
    forall x | x in a ensures multiset(a)[x] <= multiset(b)[x] {
      DistinctOnce(a, x);
      assert x in multiset(b);
    }
    assert multiset(a) <= multiset(b);
    assert multiset(b) == multiset(a) + (multiset(b) - multiset(a));
    assert |multiset(b) - multiset(a)| == 0;
  }
}
