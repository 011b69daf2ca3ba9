/**
 `slices.SortFunc`: sorting in place by a three-way comparison. The library's sort is not stable, so
 nothing is promised beyond "some sorted permutation"; the lemmas say how far that fixes the result.
 */
module Sorting {

  // The two laws are stated through named predicates so that a proof asks for the instances it needs.
  ghost predicate FlipsAt<T>(cmp: (T, T) -> int, a: T, b: T) {
    cmp(a, b) < 0 <==> cmp(b, a) > 0
  }

  ghost predicate TransitiveAt<T>(cmp: (T, T) -> int, a: T, b: T, c: T) {
    cmp(a, b) <= 0 && cmp(b, c) <= 0 ==> cmp(a, c) <= 0
  }

  /** A comparison `slices.SortFunc` accepts: swapping flips the sign, and "at most" is transitive. */
  ghost predicate TotalPreorder<T(!new)>(cmp: (T, T) -> int) {
    && (forall a, b :: FlipsAt(cmp, a, b))
    && (forall a, b, c :: TransitiveAt(cmp, a, b, c))
  }

  ghost predicate Sorted<T>(cmp: (T, T) -> int, s: seq<T>) {
    forall i, j | 0 <= i < j < |s| :: cmp(s[i], s[j]) <= 0
  }

  /** `sorted` is a sorted permutation of `items`: what a call of `slices.SortFunc` may leave behind. */
  ghost predicate IsSorting<T>(cmp: (T, T) -> int, items: seq<T>, sorted: seq<T>) {
    Sorted(cmp, sorted) && multiset(sorted) == multiset(items)
  }

  /** Position by position the two sequences compare equal. */
  ghost predicate Tied<T>(cmp: (T, T) -> int, p: seq<T>, q: seq<T>) {
    |p| == |q| && forall i | 0 <= i < |p| :: cmp(p[i], q[i]) == 0
  }

  /** Only equal items compare equal. */
  ghost predicate TieFree<T>(cmp: (T, T) -> int, items: seq<T>) {
    forall x, y | x in items && y in items && cmp(x, y) == 0 :: x == y
  }

  /** Sorts in place, by insertion. */
  method SortFunc<T(!new)>(a: array<T>, cmp: (T, T) -> int)
    requires TotalPreorder(cmp)
    modifies a
    ensures IsSorting(cmp, old(a[..]), a[..])
  {
    var n := 0;
    while n < a.Length
      invariant n <= a.Length
      invariant forall i, j | 0 <= i < j < n :: cmp(a[i], a[j]) <= 0
      invariant multiset(a[..]) == multiset(old(a[..]))
    {
      Insert(a, cmp, n);
      n := n + 1;
    }
  }

  /** Moves `a[n]` down into the sorted part before it. */
  method Insert<T(!new)>(a: array<T>, cmp: (T, T) -> int, n: nat)
    requires TotalPreorder(cmp)
    requires n < a.Length
    requires forall i, j | 0 <= i < j < n :: cmp(a[i], a[j]) <= 0
    modifies a
    ensures forall i, j | 0 <= i < j <= n :: cmp(a[i], a[j]) <= 0
    ensures multiset(a[..]) == multiset(old(a[..]))
  {
    var k := n;
    while k > 0 && cmp(a[k - 1], a[k]) > 0
      invariant 0 <= k <= n
      invariant forall i, j | 0 <= i < j <= n && j != k :: cmp(a[i], a[j]) <= 0
      invariant multiset(a[..]) == multiset(old(a[..]))
    {
      assert FlipsAt(cmp, a[k], a[k - 1]);
      a[k - 1], a[k] := a[k], a[k - 1];
      k := k - 1;
    }
    forall i | 0 <= i < k ensures cmp(a[i], a[k]) <= 0 {
      assert TransitiveAt(cmp, a[i], a[k - 1], a[k]);
    }
  }

  /** Sorts a slice: the elements are laid out in an array, which is sorted in place and read back. */
  method SortSlice<T(!new)>(s: seq<T>, cmp: (T, T) -> int) returns (sorted: seq<T>)
    requires TotalPreorder(cmp)
    ensures IsSorting(cmp, s, sorted)
  {
    var a := new T[|s|](i requires 0 <= i < |s| => s[i]);
    assert a[..] == s;
    SortFunc(a, cmp);
    sorted := a[..];
  }

  lemma SortingKeepsMembers<T>(cmp: (T, T) -> int, items: seq<T>, sorted: seq<T>)
    requires IsSorting(cmp, items, sorted)
    ensures |sorted| == |items|
    ensures forall x :: x in sorted <==> x in items
  {
    SameMultiset(sorted, items);
  }

  lemma SameMultiset<T>(p: seq<T>, q: seq<T>)
    requires multiset(p) == multiset(q)
    ensures |p| == |q|
    ensures forall x :: x in p <==> x in q
  {
    assert |multiset(p)| == |multiset(q)|;
    forall x ensures x in p <==> x in q {
      assert x in p <==> x in multiset(p);
      assert x in q <==> x in multiset(q);
    }
  }

  /** The last element of `p` occurs in a permutation `q`, and without it the rest are permutations. */
  lemma TakeLastOut<T>(p: seq<T>, q: seq<T>) returns (a: seq<T>, b: seq<T>)
    requires multiset(p) == multiset(q) && p != []
    ensures q == a + ([p[|p| - 1]] + b)
    ensures multiset(p[..|p| - 1]) == multiset(a + b)
  {
    var n := |p| - 1;
    SameMultiset(p, q);
    assert p[n] in q;
    var j :| 0 <= j < |q| && q[j] == p[n];
    a, b := q[..j], q[j + 1..];
    assert q == a + ([q[j]] + b);
    assert p == p[..n] + [p[n]];
    assert multiset(p[..n]) == multiset(p) - multiset{p[n]};
    assert multiset(a + b) == multiset(q) - multiset{p[n]};
  }

  /** Taking `q[j]` out of `q` and moving the head into its place. */
  function FillHole<T>(q: seq<T>, j: nat): seq<T>
    requires j < |q|
  {
    if j == 0 then q[1..] else q[1..][j - 1 := q[0]]
  }

  lemma FillHoleRemoves<T>(q: seq<T>, j: nat)
    requires j < |q|
    ensures |FillHole(q, j)| == |q| - 1
    ensures multiset(FillHole(q, j)) == multiset(q) - multiset{q[j]}
  {
    assert q == [q[0]] + q[1..];
    if j > 0 {
      var tail := q[1..];
      assert tail == tail[..j - 1] + [q[j]] + tail[j..];
      assert FillHole(q, j) == tail[..j - 1] + [q[0]] + tail[j..];
    }
  }

  lemma TiedTransitive<T(!new)>(cmp: (T, T) -> int, a: T, b: T, c: T)
    requires TotalPreorder(cmp)
    ensures cmp(a, a) == 0
    ensures cmp(a, b) <= 0 && cmp(b, a) <= 0 ==> cmp(a, b) == 0 && cmp(b, a) == 0
    ensures cmp(a, b) == 0 && cmp(b, c) == 0 ==> cmp(a, c) == 0
  {
    assert FlipsAt(cmp, a, a) && FlipsAt(cmp, a, b) && FlipsAt(cmp, b, a);
    assert FlipsAt(cmp, b, c) && FlipsAt(cmp, c, b) && FlipsAt(cmp, a, c) && FlipsAt(cmp, c, a);
    assert TransitiveAt(cmp, a, b, c) && TransitiveAt(cmp, c, b, a);
  }

  /** In a sorted sequence, everything up to an element tied with the head is tied with the head. */
  lemma FillHoleStaysSorted<T(!new)>(cmp: (T, T) -> int, q: seq<T>, j: nat)
    requires TotalPreorder(cmp)
    requires j < |q| && Sorted(cmp, q) && cmp(q[0], q[j]) == 0
    ensures Sorted(cmp, FillHole(q, j))
    ensures Tied(cmp, FillHole(q, j), q[1..])
  {
    var rest := FillHole(q, j);
    assert FlipsAt(cmp, q[0], q[j]) && FlipsAt(cmp, q[j], q[0]);
    forall a, b | 0 <= a < b < |rest| ensures cmp(rest[a], rest[b]) <= 0 {
      if b == j - 1 {
        assert TransitiveAt(cmp, q[a + 1], q[j], q[0]);
      }
    }
    forall i | 0 <= i < |rest| ensures cmp(rest[i], q[1..][i]) == 0 {
      TiedTransitive(cmp, q[i + 1], q[i + 1], q[i + 1]);
    }
  }

  /** Two sortings of the same elements differ only among elements that compare equal. */
  lemma {:induction false} SortingsAreTied<T(!new)>(cmp: (T, T) -> int, p: seq<T>, q: seq<T>)
    requires TotalPreorder(cmp)
    requires Sorted(cmp, p) && Sorted(cmp, q) && multiset(p) == multiset(q)
    ensures Tied(cmp, p, q)
    decreases |p|
  {
    SameMultiset(p, q);
    if p != [] {
      var j := HeadOccurs(cmp, p, q);
      FillHoleStaysSorted(cmp, q, j);
      FillHoleRemoves(q, j);
      assert p == [p[0]] + p[1..];
      assert multiset(p[1..]) == multiset(p) - multiset{p[0]};
      SortingsAreTied(cmp, p[1..], FillHole(q, j));
      forall k | 0 <= k < |p| ensures cmp(p[k], q[k]) == 0 {
        if k > 0 {
          TiedTransitive(cmp, p[1..][k - 1], FillHole(q, j)[k - 1], q[1..][k - 1]);
        }
      }
    }
  }

  lemma HeadOccurs<T(!new)>(cmp: (T, T) -> int, p: seq<T>, q: seq<T>) returns (j: nat)
    requires TotalPreorder(cmp)
    requires p != [] && Sorted(cmp, p) && Sorted(cmp, q) && multiset(p) == multiset(q)
    ensures j < |q| && q[j] == p[0] && cmp(q[0], q[j]) == 0 && cmp(p[0], q[0]) == 0
  {
    SameMultiset(p, q);
    assert p[0] in q && q[0] in p;
    j :| 0 <= j < |q| && q[j] == p[0];
    var i :| 0 <= i < |p| && p[i] == q[0];
    TiedTransitive(cmp, p[0], q[0], p[0]);
    TiedTransitive(cmp, q[0], p[0], q[0]);
  }

  /** Swapping two tied elements of a sorting gives another sorting. */
  lemma SwapTied<T(!new)>(cmp: (T, T) -> int, p: seq<T>, i: nat, j: nat)
    requires TotalPreorder(cmp)
    requires i < |p| && j < |p| && Sorted(cmp, p) && cmp(p[i], p[j]) == 0
    ensures IsSorting(cmp, p, p[i := p[j]][j := p[i]])
  {
    var q := p[i := p[j]][j := p[i]];
    TiedTransitive(cmp, p[i], p[j], p[i]);
    TiedTransitive(cmp, p[j], p[i], p[j]);
    assert FlipsAt(cmp, p[j], p[i]) && FlipsAt(cmp, p[i], p[j]);
    forall a, b | 0 <= a < b < |q| ensures cmp(q[a], q[b]) <= 0 {
      TiedTransitive(cmp, p[a], p[a], p[a]);
      TiedTransitive(cmp, p[b], p[b], p[b]);
      assert TransitiveAt(cmp, q[a], p[a], p[b]);
      assert TransitiveAt(cmp, q[a], p[b], q[b]);
    }
  }

  /**
   Exactly when the outcome of an unstable sort is determined by the elements alone: when elements
   that compare equal are equal. Otherwise two tied elements can be left in either order.
   */
  lemma SortingIsUniqueIffTieFree<T(!new)>(cmp: (T, T) -> int, items: seq<T>, p: seq<T>)
    requires TotalPreorder(cmp)
    requires IsSorting(cmp, items, p)
    ensures (forall q | IsSorting(cmp, items, q) :: q == p) <==> TieFree(cmp, items)
  {
    if TieFree(cmp, items) {
      forall q | IsSorting(cmp, items, q) ensures q == p {
        TieFreeSortingIsUnique(cmp, items, items, p, q);
      }
    } else {
      var x, y :| x in items && y in items && cmp(x, y) == 0 && x != y;
      var q := OtherSorting(cmp, items, p, x, y);
    }
  }

  lemma OtherSorting<T(!new)>(cmp: (T, T) -> int, items: seq<T>, p: seq<T>, x: T, y: T) returns (q: seq<T>)
    requires TotalPreorder(cmp) && IsSorting(cmp, items, p)
    requires x in items && y in items && cmp(x, y) == 0 && x != y
    ensures IsSorting(cmp, items, q) && q != p
  {
    SortingKeepsMembers(cmp, items, p);
    var i :| 0 <= i < |p| && p[i] == x;
    var j :| 0 <= j < |p| && p[j] == y;
    SwapTied(cmp, p, i, j);
    q := p[i := y][j := x];
    assert q[i] != p[i];
  }

  /** Without ties, permutations of the same elements have the same sorting. */
  lemma TieFreeSortingIsUnique<T(!new)>(
    cmp: (T, T) -> int, items: seq<T>, others: seq<T>, p: seq<T>, q: seq<T>)
    requires TotalPreorder(cmp) && TieFree(cmp, items)
    requires multiset(items) == multiset(others)
    requires IsSorting(cmp, items, p) && IsSorting(cmp, others, q)
    ensures p == q
  {
    SortingsAreTied(cmp, p, q);
    SortingKeepsMembers(cmp, items, p);
    SortingKeepsMembers(cmp, items, q);
    forall i | 0 <= i < |p| ensures p[i] == q[i] {
      assert p[i] in p && q[i] in q;
    }
  }

  ghost predicate Distinct<T>(s: seq<T>) {
    forall i, j | 0 <= i < j < |s| :: s[i] != s[j]
  }

  lemma {:induction false} DistinctOnce<T>(s: seq<T>)
    requires Distinct(s)
    ensures forall x | x in s :: multiset(s)[x] == 1
  {
    if s != [] {
      assert s == [s[0]] + s[1..];
      DistinctOnce(s[1..]);
      assert s[0] !in s[1..];
    }
  }

  /** Sequences without repetitions and with the same elements are permutations. */
  lemma DistinctSameMembers<T>(p: seq<T>, q: seq<T>)
    requires Distinct(p) && Distinct(q)
    requires forall x :: x in p <==> x in q
    ensures multiset(p) == multiset(q)
  {
    DistinctOnce(p);
    DistinctOnce(q);
    forall x ensures multiset(p)[x] == multiset(q)[x] {
      if x in p {
        assert multiset(p)[x] == 1 && multiset(q)[x] == 1;
      } else {
        assert x !in multiset(p) && x !in multiset(q);
      }
    }
  }

  lemma RepetitionCounts<T>(q: seq<T>, i: nat, j: nat)
    requires i < j < |q| && q[i] == q[j]
    ensures multiset(q)[q[i]] >= 2
  {
    assert q == q[..j] + [q[j]] + q[j + 1..];
    assert q[..j] == q[..i] + [q[i]] + q[i + 1..j];
  }

  lemma DistinctPermutes<T>(p: seq<T>, q: seq<T>)
    requires Distinct(p) && multiset(p) == multiset(q)
    ensures Distinct(q)
  {
    DistinctOnce(p);
    SameMultiset(p, q);
    if i, j :| 0 <= i < j < |q| && q[i] == q[j] {
      RepetitionCounts(q, i, j);
      assert false;
    }
  }

  // ------------------------------------------------------------- strict order

  ghost predicate Strict<T>(cmp: (T, T) -> int, s: seq<T>) {
    forall i, j | 0 <= i < j < |s| :: cmp(s[i], s[j]) < 0
  }

  lemma StrictIsDistinct<T(!new)>(cmp: (T, T) -> int, s: seq<T>)
    requires TotalPreorder(cmp) && Strict(cmp, s)
    ensures Sorted(cmp, s) && Distinct(s)
  {
    forall i, j | 0 <= i < j < |s| ensures s[i] != s[j] {
      assert FlipsAt(cmp, s[i], s[i]);
    }
  }

  /** Sorting elements of which no two compare equal orders them strictly. */
  lemma SortingIsStrict<T(!new)>(cmp: (T, T) -> int, items: seq<T>, sorted: seq<T>)
    requires TotalPreorder(cmp) && IsSorting(cmp, items, sorted)
    requires forall i, j | 0 <= i < j < |items| :: cmp(items[i], items[j]) != 0
    ensures Strict(cmp, sorted)
  {
    forall x | x in items ensures cmp(x, x) == 0 {
      assert FlipsAt(cmp, x, x);
    }
    assert Distinct(items);
    DistinctPermutes(items, sorted);
    SortingKeepsMembers(cmp, items, sorted);
    forall i, j | 0 <= i < j < |sorted| ensures cmp(sorted[i], sorted[j]) < 0 {
      assert sorted[i] in items && sorted[j] in items;
      var a :| 0 <= a < |items| && items[a] == sorted[i];
      var b :| 0 <= b < |items| && items[b] == sorted[j];
      assert a != b;
      assert FlipsAt(cmp, items[a], items[b]) && FlipsAt(cmp, items[b], items[a]);
    }
  }

  /** There is one strict order of given members. */
  lemma StrictOrderIsUnique<T(!new)>(cmp: (T, T) -> int, p: seq<T>, q: seq<T>)
    requires TotalPreorder(cmp) && Strict(cmp, p) && Strict(cmp, q)
    requires forall x :: x in p <==> x in q
    ensures p == q
  {
    StrictIsDistinct(cmp, p);
    StrictIsDistinct(cmp, q);
    DistinctSameMembers(p, q);
    forall x, y | x in p && y in p && cmp(x, y) == 0 ensures x == y {
      var i :| 0 <= i < |p| && p[i] == x;
      var j :| 0 <= j < |p| && p[j] == y;
      assert FlipsAt(cmp, p[j], p[i]);
      assert i <= j && j <= i;
    }
    TieFreeSortingIsUnique(cmp, p, q, p, q);
  }

  lemma {:induction false} DistinctSize<T>(s: seq<T>)
    requires Distinct(s)
    ensures |set x | x in s| == |s|
  {
    if s != [] {
      var n := |s| - 1;
      DistinctSize(s[..n]);
      assert s == s[..n] + [s[n]];
      assert (set x | x in s) == (set x | x in s[..n]) + {s[n]};
    }
  }

  // ------------------------------------------------------------------ origins

  /** Where each element of a permutation comes from: every position once. */
  ghost predicate Origins<T>(items: seq<T>, permuted: seq<T>, from: seq<nat>) {
    && |from| == |permuted| == |items|
    && Distinct(from)
    && (forall i | 0 <= i < |from| :: from[i] < |items| && permuted[i] == items[from[i]])
    && forall j: nat | j < |items| :: j in from
  }

  lemma {:induction false} PermutationHasOrigins<T>(items: seq<T>, permuted: seq<T>) returns (from: seq<nat>)
    requires multiset(items) == multiset(permuted)
    ensures Origins(items, permuted, from)
    decreases |permuted|
  {
    SameMultiset(items, permuted);
    if permuted == [] {
      from := [];
    } else {
      var n := |permuted| - 1;
      var a, b := TakeLastOut(permuted, items);
      var rest := PermutationHasOrigins(a + b, permuted[..n]);
      var k := |a|;
      from := seq(n, i requires 0 <= i < n => if rest[i] < k then rest[i] else rest[i] + 1) + [k];
      OriginsGrow(items, permuted, a, b, rest, from);
    }
  }

  lemma OriginsGrow<T>(items: seq<T>, permuted: seq<T>, a: seq<T>, b: seq<T>, rest: seq<nat>, from: seq<nat>)
    requires permuted != [] && items == a + ([permuted[|permuted| - 1]] + b)
    requires Origins(a + b, permuted[..|permuted| - 1], rest)
    requires |from| == |permuted| && from[|from| - 1] == |a|
    requires forall i | 0 <= i < |rest| :: from[i] == if rest[i] < |a| then rest[i] else rest[i] + 1
    ensures Origins(items, permuted, from)
  {
    var n, k := |permuted| - 1, |a|;
    forall i | 0 <= i < |from| ensures from[i] < |items| && permuted[i] == items[from[i]] {
      if i < n {
        assert permuted[i] == permuted[..n][i] == (a + b)[rest[i]];
      }
    }
    forall j: nat | j < |items| ensures j in from {
      if j == k {
        assert from[n] == j;
      } else {
        var place := if j < k then j else j - 1;
        assert place in rest;
        var i :| 0 <= i < |rest| && rest[i] == place;
        assert from[i] == j;
      }
    }
  }
}
