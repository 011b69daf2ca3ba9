/**
 "Sort, then cut to a limit, and say whether something was left out": the shape shared by the bounded
 list tools. `IsListing` is what such a tool returns; the lemmas say what that means for a caller.
 */
module TopList {
  import opened Sorting

  function Take<T>(s: seq<T>, n: nat): seq<T> {
    if |s| <= n then s else s[..n]
  }

  /** `kept` is the first `limit` elements of some sorting of `items`. */
  ghost predicate IsTop<T(!new)>(cmp: (T, T) -> int, items: seq<T>, limit: nat, kept: seq<T>) {
    exists sorted :: IsSorting(cmp, items, sorted) && kept == Take(sorted, limit)
  }

  /** The same without mentioning a sort: a sorted choice that nothing left out precedes. */
  ghost predicate IsSelection<T(!new)>(
    cmp: (T, T) -> int, items: seq<T>, limit: nat, kept: seq<T>, dropped: seq<T>)
  {
    && Sorted(cmp, kept)
    && multiset(kept) + multiset(dropped) == multiset(items)
    && (if |items| <= limit then dropped == [] else |kept| == limit)
    && forall k, d | k in kept && d in dropped :: cmp(k, d) <= 0
  }

  /** A list result: the top of the candidates, and the flag raised iff something may be missing. */
  ghost predicate IsListing<T(!new)>(
    cmp: (T, T) -> int, items: seq<T>, incomplete: bool, limit: nat, kept: seq<T>, truncated: bool)
  {
    IsTop(cmp, items, limit, kept) && (truncated <==> incomplete || |items| > limit)
  }

  // ------------------------------------------------------- selection = cut sort

  /** Every sequence has a sorting. */
  lemma {:induction false} SortingExists<T(!new)>(cmp: (T, T) -> int, items: seq<T>) returns (sorted: seq<T>)
    requires TotalPreorder(cmp)
    ensures IsSorting(cmp, items, sorted)
    decreases |items|
  {
    if items == [] {
      sorted := [];
    } else {
      var rest := SortingExists(cmp, items[1..]);
      assert items == [items[0]] + items[1..];
      sorted := SortedInsert(cmp, items[0], rest);
    }
  }

  lemma {:induction false} SortedInsert<T(!new)>(cmp: (T, T) -> int, x: T, s: seq<T>) returns (r: seq<T>)
    requires TotalPreorder(cmp) && Sorted(cmp, s)
    ensures IsSorting(cmp, [x] + s, r)
    decreases |s|
  {
    if s == [] {
      r := [x];
    } else if cmp(x, s[0]) <= 0 {
      r := [x] + s;
      forall i | 0 <= i < |s| ensures cmp(x, s[i]) <= 0 {
        if i > 0 { assert TransitiveAt(cmp, x, s[0], s[i]); }
      }
    } else {
      var rest := SortedInsert(cmp, x, s[1..]);
      SameMultiset(rest, [x] + s[1..]);
      assert FlipsAt(cmp, s[0], x);
      r := [s[0]] + rest;
      PrependLeast(cmp, s[0], rest, [x] + s[1..]);
      assert s == [s[0]] + s[1..];
    }
  }

  lemma PrependLeast<T>(cmp: (T, T) -> int, least: T, rest: seq<T>, members: seq<T>)
    requires Sorted(cmp, rest)
    requires forall y | y in rest :: y in members
    requires forall i | 0 <= i < |members| :: cmp(least, members[i]) <= 0
    ensures Sorted(cmp, [least] + rest)
  {
    forall j | 0 <= j < |rest| ensures cmp(least, rest[j]) <= 0 {
      assert rest[j] in members;
    }
  }

  /** Cutting a sort is selecting, and every selection is the cut of some sort. */
  lemma TopIffSelection<T(!new)>(cmp: (T, T) -> int, items: seq<T>, limit: nat, kept: seq<T>)
    requires TotalPreorder(cmp)
    ensures IsTop(cmp, items, limit, kept) <==> exists dropped :: IsSelection(cmp, items, limit, kept, dropped)
  {
    hide IsSelection, IsSorting, TotalPreorder;
    if IsTop(cmp, items, limit, kept) {
      var sorted :| IsSorting(cmp, items, sorted) && kept == Take(sorted, limit);
      CutIsSelection(cmp, items, limit, sorted);
      assert IsSelection(cmp, items, limit, kept, sorted[|kept|..]);
    }
    if dropped :| IsSelection(cmp, items, limit, kept, dropped) {
      var tail := SortingExists(cmp, dropped);
      SelectionIsCut(cmp, items, limit, kept, dropped, tail);
      assert kept == Take(kept + tail, limit);
    }
  }

  lemma CutIsSelection<T(!new)>(cmp: (T, T) -> int, items: seq<T>, limit: nat, sorted: seq<T>)
    requires IsSorting(cmp, items, sorted)
    ensures var kept := Take(sorted, limit); IsSelection(cmp, items, limit, kept, sorted[|kept|..])
  {
    var kept := Take(sorted, limit);
    SameMultiset(sorted, items);
    assert sorted == kept + sorted[|kept|..];
  }

  lemma SelectionIsCut<T(!new)>(
    cmp: (T, T) -> int, items: seq<T>, limit: nat, kept: seq<T>, dropped: seq<T>, tail: seq<T>)
    requires IsSelection(cmp, items, limit, kept, dropped) && IsSorting(cmp, dropped, tail)
    ensures IsSorting(cmp, items, kept + tail) && Take(kept + tail, limit) == kept
  {
    SameMultiset(tail, dropped);
    SameMultiset(kept + dropped, items);
    forall i, j | 0 <= i < |kept| && 0 <= j < |tail| ensures cmp(kept[i], tail[j]) <= 0 {
      assert kept[i] in kept && tail[j] in dropped;
    }
  }

  // ------------------------------------------------ what the candidates determine

  lemma TopKeepsSome<T(!new)>(cmp: (T, T) -> int, items: seq<T>, limit: nat, kept: seq<T>)
    requires IsTop(cmp, items, limit, kept)
    ensures |kept| == if |items| <= limit then |items| else limit
    ensures Sorted(cmp, kept)
    ensures forall x | x in kept :: x in items
  {
    var sorted :| IsSorting(cmp, items, sorted) && kept == Take(sorted, limit);
    SortingKeepsMembers(cmp, items, sorted);
  }

  /**
   Listings of permuted candidates under limits `l1 <= l2`: the smaller is a prefix of the larger, up
   to candidates that compare equal, and exactly so when only equal candidates do. With `l1 == l2` this
   says that the result depends on the candidates alone.
   */
  lemma TopsArePrefixes<T(!new)>(
    cmp: (T, T) -> int, items: seq<T>, others: seq<T>, l1: nat, l2: nat, k1: seq<T>, k2: seq<T>)
    requires TotalPreorder(cmp)
    requires multiset(items) == multiset(others)
    requires IsTop(cmp, items, l1, k1) && IsTop(cmp, others, l2, k2) && l1 <= l2
    ensures |k1| <= |k2| && Tied(cmp, k1, k2[..|k1|])
    ensures TieFree(cmp, items) ==> k1 <= k2
    ensures |items| <= l1 ==> |k1| == |k2|
  {
    hide Sorted;
    var s1 :| IsSorting(cmp, items, s1) && k1 == Take(s1, l1);
    var s2 :| IsSorting(cmp, others, s2) && k2 == Take(s2, l2);
    SortingsAreTied(cmp, s1, s2);
    SameMultiset(s1, items);
    TakesAreTied(cmp, s1, s2, l1, l2);
    if TieFree(cmp, items) {
      TieFreeSortingIsUnique(cmp, items, others, s1, s2);
    }
  }

  lemma TakesAreTied<T>(cmp: (T, T) -> int, s1: seq<T>, s2: seq<T>, l1: nat, l2: nat)
    requires Tied(cmp, s1, s2) && l1 <= l2
    ensures var k1, k2 := Take(s1, l1), Take(s2, l2);
            |k1| <= |k2| && Tied(cmp, k1, k2[..|k1|]) && (|s1| <= l1 ==> |k1| == |k2|)
  {
  }

  /** Two different candidates that compare equal leave a choice, already when nothing is cut. */
  lemma TiesLeaveAChoice<T(!new)>(cmp: (T, T) -> int, items: seq<T>, x: T, y: T) returns (p: seq<T>, q: seq<T>)
    requires TotalPreorder(cmp)
    requires x in items && y in items && cmp(x, y) == 0 && x != y
    ensures IsTop(cmp, items, |items|, p) && IsTop(cmp, items, |items|, q) && p != q
  {
    p := SortingExists(cmp, items);
    q := OtherSorting(cmp, items, p, x, y);
    SameMultiset(p, items);
    SameMultiset(q, items);
    assert p == Take(p, |items|) && q == Take(q, |items|);
  }

  // ------------------------------------------------------------- what is kept

  /** How many of the candidates come strictly before `x`. */
  function Preceding<T>(cmp: (T, T) -> int, items: seq<T>, x: T): nat {
    if items == [] then 0
    else
      var n := |items| - 1;
      Preceding(cmp, items[..n], x) + if cmp(items[n], x) < 0 then 1 else 0
  }

  lemma {:induction false} PrecedingConcat<T>(cmp: (T, T) -> int, a: seq<T>, b: seq<T>, x: T)
    ensures Preceding(cmp, a + b, x) == Preceding(cmp, a, x) + Preceding(cmp, b, x)
    decreases |b|
  {
    if b == [] {
      assert a + b == a;
    } else {
      var n := |b| - 1;
      PrecedingConcat(cmp, a, b[..n], x);
      assert (a + b)[..|a + b| - 1] == a + b[..n];
    }
  }

  lemma {:induction false} PrecedingPermutes<T>(cmp: (T, T) -> int, p: seq<T>, q: seq<T>, x: T)
    requires multiset(p) == multiset(q)
    ensures Preceding(cmp, p, x) == Preceding(cmp, q, x)
    decreases |p|
  {
    SameMultiset(p, q);
    if p != [] {
      var n := |p| - 1;
      var a, b := TakeLastOut(p, q);
      PrecedingPermutes(cmp, p[..n], a + b, x);
      PrecedingConcat(cmp, a, b, x);
      PrecedingConcat(cmp, a, [p[n]] + b, x);
      PrecedingConcat(cmp, [p[n]], b, x);
      assert [p[n]][..0] == [];
    }
  }

  /** In a sorting, the elements that precede `x` are the first ones. */
  lemma {:induction false} PrecedingComeFirst<T(!new)>(cmp: (T, T) -> int, sorted: seq<T>, x: T)
    requires TotalPreorder(cmp) && Sorted(cmp, sorted)
    ensures Preceding(cmp, sorted, x) <= |sorted|
    ensures forall i | 0 <= i < |sorted| :: cmp(sorted[i], x) < 0 <==> i < Preceding(cmp, sorted, x)
  {
    if sorted != [] {
      var n := |sorted| - 1;
      PrecedingComeFirst(cmp, sorted[..n], x);
      forall i | 0 <= i < n && cmp(sorted[n], x) < 0 ensures cmp(sorted[i], x) < 0 {
        assert TransitiveAt(cmp, x, sorted[i], sorted[n]);
        assert FlipsAt(cmp, sorted[i], x) && FlipsAt(cmp, x, sorted[i]);
        assert FlipsAt(cmp, sorted[n], x) && FlipsAt(cmp, x, sorted[n]);
      }
      assert forall i | 0 <= i < n :: sorted[..n][i] == sorted[i];
    }
  }

  /** Where `x` stands in a sorting, and where the first element that ties with it does. */
  lemma FirstTie<T(!new)>(cmp: (T, T) -> int, items: seq<T>, sorted: seq<T>, x: T) returns (p: nat)
    requires TotalPreorder(cmp) && IsSorting(cmp, items, sorted) && x in items
    ensures Preceding(cmp, items, x) <= p < |sorted| && sorted[p] == x
    ensures cmp(sorted[Preceding(cmp, items, x)], x) == 0
  {
    SortingKeepsMembers(cmp, items, sorted);
    p :| p < |sorted| && sorted[p] == x;
    PrecedingPermutes(cmp, items, sorted, x);
    PrecedingComeFirst(cmp, sorted, x);
    var b := Preceding(cmp, items, x);
    assert FlipsAt(cmp, x, x);
    assert FlipsAt(cmp, sorted[b], x) && FlipsAt(cmp, x, sorted[b]);
  }

  /**
   Exactly which candidates a sort cut to the limit may keep: those that fewer than `limit` others
   strictly precede. Of two that tie the sort may keep either, so a candidate that is not kept although
   it might have been leaves one that ties with it in its place.
   */
  lemma KeepableIffFewPrecede<T(!new)>(cmp: (T, T) -> int, items: seq<T>, limit: nat, x: T)
    requires TotalPreorder(cmp) && x in items
    ensures (exists kept :: IsTop(cmp, items, limit, kept) && x in kept) <==> Preceding(cmp, items, x) < limit
    ensures Preceding(cmp, items, x) < limit ==>
              forall kept | IsTop(cmp, items, limit, kept) :: exists k | k in kept :: cmp(k, x) == 0
  {
    var b := Preceding(cmp, items, x);
    forall kept | IsTop(cmp, items, limit, kept)
      ensures x in kept ==> b < limit
      ensures b < limit ==> exists k | k in kept :: cmp(k, x) == 0
    {
      var sorted :| IsSorting(cmp, items, sorted) && kept == Take(sorted, limit);
      var p := FirstTie(cmp, items, sorted, x);
      if x in kept {
        KeptAtPosition(cmp, items, sorted, limit, x);
      }
      if b < limit {
        assert kept[b] == sorted[b];
      }
    }
    if b < limit {
      var kept := TopWithFirst(cmp, items, limit, x);
      assert kept[b] == x;
    }
  }

  lemma KeptAtPosition<T(!new)>(cmp: (T, T) -> int, items: seq<T>, sorted: seq<T>, limit: nat, x: T)
    requires TotalPreorder(cmp) && IsSorting(cmp, items, sorted) && x in Take(sorted, limit)
    ensures Preceding(cmp, items, x) < limit
  {
    var i :| 0 <= i < |Take(sorted, limit)| && Take(sorted, limit)[i] == x;
    PrecedingPermutes(cmp, items, sorted, x);
    PrecedingComeFirst(cmp, sorted, x);
    assert FlipsAt(cmp, x, x);
    assert sorted[i] == x;
  }

  lemma {:induction false} TiesPrecedeAlike<T(!new)>(cmp: (T, T) -> int, items: seq<T>, x: T, y: T)
    requires TotalPreorder(cmp) && cmp(x, y) == 0
    ensures Preceding(cmp, items, x) == Preceding(cmp, items, y)
  {
    if items != [] {
      var n := |items| - 1;
      TiesPrecedeAlike(cmp, items[..n], x, y);
      var z := items[n];
      assert FlipsAt(cmp, x, y) && FlipsAt(cmp, y, x);
      assert FlipsAt(cmp, x, z) && FlipsAt(cmp, z, x) && FlipsAt(cmp, y, z) && FlipsAt(cmp, z, y);
      assert TransitiveAt(cmp, x, y, z) && TransitiveAt(cmp, y, x, z);
      assert TransitiveAt(cmp, z, x, y) && TransitiveAt(cmp, z, y, x);
    }
  }

  /** A choice with `x` in the first place it may take. */
  lemma TopWithFirst<T(!new)>(cmp: (T, T) -> int, items: seq<T>, limit: nat, x: T) returns (kept: seq<T>)
    requires TotalPreorder(cmp) && x in items && Preceding(cmp, items, x) < limit
    ensures IsTop(cmp, items, limit, kept)
    ensures Preceding(cmp, items, x) < |kept| && kept[Preceding(cmp, items, x)] == x
  {
    hide Preceding;
    var b := Preceding(cmp, items, x);
    var sorted := SortingExists(cmp, items);
    var p := FirstTie(cmp, items, sorted, x);
    SwapTied(cmp, sorted, b, p);
    var swapped := sorted[b := sorted[p]][p := sorted[b]];
    assert IsSorting(cmp, items, swapped) && swapped[b] == x;
    kept := Take(swapped, limit);
  }

  /**
   Exactly when the outcome of an unstable sort cut to the limit is determined: when no candidate that may
   be kept ties with another one. Ties among those that are cut away anyhow do not matter.
   */
  lemma TopIsUniqueIffLeadersTieFree<T(!new)>(cmp: (T, T) -> int, items: seq<T>, limit: nat, kept: seq<T>)
    requires TotalPreorder(cmp) && IsTop(cmp, items, limit, kept)
    ensures (forall other | IsTop(cmp, items, limit, other) :: other == kept)
       <==> forall x, y | x in items && y in items && cmp(x, y) == 0 && Preceding(cmp, items, x) < limit :: x == y
  {
    hide Preceding;
    if x, y :| x in items && y in items && cmp(x, y) == 0 && Preceding(cmp, items, x) < limit && x != y {
      TiesPrecedeAlike(cmp, items, x, y);
      var first := TopWithFirst(cmp, items, limit, x);
      var second := TopWithFirst(cmp, items, limit, y);
      assert first != second;
    } else {
      forall other | IsTop(cmp, items, limit, other) ensures other == kept {
        TopsArePrefixes(cmp, items, items, limit, limit, kept, other);
        TopsArePrefixes(cmp, items, items, limit, limit, other, kept);
        TopKeepsSome(cmp, items, limit, kept);
        TopKeepsSome(cmp, items, limit, other);
        forall i | 0 <= i < |kept| ensures kept[i] == other[i] {
          assert kept[i] in kept && other[i] in other;
          KeepableIffFewPrecede(cmp, items, limit, kept[i]);
        }
      }
    }
  }

  /** A property that ties share holds of everything kept iff it holds of everything that may be kept. */
  lemma KeptAllIffKeepableAll<T(!new)>(
    cmp: (T, T) -> int, items: seq<T>, limit: nat, kept: seq<T>, p: T -> bool)
    requires TotalPreorder(cmp) && IsTop(cmp, items, limit, kept)
    requires forall x, y | x in items && y in items && cmp(x, y) == 0 :: p(x) == p(y)
    ensures (forall k | k in kept :: p(k)) <==> forall x | x in items && Preceding(cmp, items, x) < limit :: p(x)
  {
    hide Preceding, IsTop;
    TopKeepsSome(cmp, items, limit, kept);
    forall k | k in kept ensures Preceding(cmp, items, k) < limit {
      KeepableIffFewPrecede(cmp, items, limit, k);
    }
    forall x | x in items && Preceding(cmp, items, x) < limit ensures exists k | k in kept :: cmp(k, x) == 0 {
      KeepableIffFewPrecede(cmp, items, limit, x);
    }
  }

  lemma UncutKeepsAll<T(!new)>(cmp: (T, T) -> int, items: seq<T>, limit: nat, kept: seq<T>)
    requires IsTop(cmp, items, limit, kept) && |items| <= limit
    ensures forall x :: x in kept <==> x in items
  {
    var sorted :| IsSorting(cmp, items, sorted) && kept == Take(sorted, limit);
    SortingKeepsMembers(cmp, items, sorted);
  }

  /** Fewer candidates precede one of them than there are, so an uncut list keeps every one. */
  lemma FewerPrecedeThanAll<T(!new)>(cmp: (T, T) -> int, items: seq<T>, x: T)
    requires TotalPreorder(cmp) && x in items
    ensures Preceding(cmp, items, x) < |items|
  {
    var sorted := SortingExists(cmp, items);
    var p := FirstTie(cmp, items, sorted, x);
    SameMultiset(sorted, items);
  }

  // ------------------------------------------------------------------- groups

  function Flatten<T>(groups: seq<seq<T>>): seq<T> {
    if groups == [] then [] else groups[0] + Flatten(groups[1..])
  }

  lemma {:induction false} FlattenMembers<T(!new)>(groups: seq<seq<T>>)
    ensures forall x :: x in Flatten(groups) <==> exists i :: 0 <= i < |groups| && x in groups[i]
  {
    if groups != [] {
      FlattenMembers(groups[1..]);
      forall x ensures x in Flatten(groups) <==> exists i :: 0 <= i < |groups| && x in groups[i] {
        if x in Flatten(groups[1..]) {
          var i :| 0 <= i < |groups[1..]| && x in groups[1..][i];
          assert x in groups[i + 1];
        }
        if i :| 0 <= i < |groups| && x in groups[i] {
          if i > 0 { assert x in groups[1..][i - 1]; }
        }
      }
    }
  }

  /** The groups come in order: nothing in a later group precedes anything in an earlier one. */
  ghost predicate GroupsOrdered<T(!new)>(cmp: (T, T) -> int, groups: seq<seq<T>>) {
    forall i, j, x, y | 0 <= i < j < |groups| && x in groups[i] && y in groups[j] :: cmp(x, y) <= 0
  }

  /** Each of `tops` is a top of the group in its place. */
  ghost predicate GroupTops<T(!new)>(cmp: (T, T) -> int, groups: seq<seq<T>>, limit: nat, tops: seq<seq<T>>) {
    |tops| == |groups| && forall i | 0 <= i < |groups| :: IsTop(cmp, groups[i], limit, tops[i])
  }

  /** Sorting ordered groups one by one sorts their concatenation, and cutting early loses nothing. */
  lemma {:induction false} SortGroups<T(!new)>(
    cmp: (T, T) -> int, groups: seq<seq<T>>, limit: nat, tops: seq<seq<T>>) returns (sorted: seq<T>)
    requires GroupsOrdered(cmp, groups) && GroupTops(cmp, groups, limit, tops)
    ensures IsSorting(cmp, Flatten(groups), sorted)
    ensures Take(sorted, limit) == Take(Flatten(tops), limit)
    decreases |groups|
  {
    if groups == [] {
      sorted := [];
    } else {
      forall i, j, x, y | 0 <= i < j < |groups[1..]| && x in groups[1..][i] && y in groups[1..][j]
        ensures cmp(x, y) <= 0
      {
        assert x in groups[i + 1] && y in groups[j + 1];
      }
      var rest := SortGroups(cmp, groups[1..], limit, tops[1..]);
      assert IsTop(cmp, groups[0], limit, tops[0]);
      var first :| IsSorting(cmp, groups[0], first) && tops[0] == Take(first, limit);
      sorted := first + rest;
      SortingKeepsMembers(cmp, groups[0], first);
      SortingKeepsMembers(cmp, Flatten(groups[1..]), rest);
      FlattenMembers(groups[1..]);
      forall i, j | 0 <= i < |first| && 0 <= j < |rest| ensures cmp(first[i], rest[j]) <= 0 {
        assert first[i] in groups[0] && rest[j] in Flatten(groups[1..]);
        var g :| 0 <= g < |groups[1..]| && rest[j] in groups[1..][g];
        assert rest[j] in groups[g + 1];
      }
      TakeOfConcat(first, rest, Flatten(tops[1..]), limit);
    }
  }

  lemma TakeOfConcat<T(!new)>(first: seq<T>, a: seq<T>, b: seq<T>, n: nat)
    requires Take(a, n) == Take(b, n)
    ensures Take(first + a, n) == Take(Take(first, n) + b, n)
  {
    var x, y := Take(first + a, n), Take(Take(first, n) + b, n);
    assert |x| == |y|;
    forall i | 0 <= i < |x| ensures x[i] == y[i] {
      if i >= |first| {
        assert a[i - |first|] == Take(a, n)[i - |first|] == Take(b, n)[i - |first|];
      }
    }
  }

  /**
   Top-L distributes over ordered groups: the top of everything is the top of the concatenated
   per-group tops, up to candidates that compare equal, and exactly so when only equal ones do.
   */
  lemma TopDistributes<T(!new)>(
    cmp: (T, T) -> int, groups: seq<seq<T>>, limit: nat, tops: seq<seq<T>>, all: seq<T>)
    requires TotalPreorder(cmp)
    requires GroupsOrdered(cmp, groups) && GroupTops(cmp, groups, limit, tops)
    requires IsTop(cmp, Flatten(groups), limit, all)
    ensures Tied(cmp, all, Take(Flatten(tops), limit))
    ensures TieFree(cmp, Flatten(groups)) ==> all == Take(Flatten(tops), limit)
  {
    var sorted := SortGroups(cmp, groups, limit, tops);
    assert IsTop(cmp, Flatten(groups), limit, Take(sorted, limit));
    TopsArePrefixes(cmp, Flatten(groups), Flatten(groups), limit, limit, all, Take(sorted, limit));
    TopKeepsSome(cmp, Flatten(groups), limit, all);
    TopKeepsSome(cmp, Flatten(groups), limit, Take(sorted, limit));
  }

  lemma {:induction false} GroupFitsInFlatten<T>(groups: seq<seq<T>>, i: nat)
    requires i < |groups|
    ensures |groups[i]| <= |Flatten(groups)|
  {
    if i > 0 { GroupFitsInFlatten(groups[1..], i - 1); }
  }

  /** The tops together are no longer than the groups, and as long when no group is cut. */
  lemma {:induction false} TopsTogether<T(!new)>(cmp: (T, T) -> int, groups: seq<seq<T>>, limit: nat, tops: seq<seq<T>>)
    requires GroupTops(cmp, groups, limit, tops)
    ensures |Flatten(tops)| <= |Flatten(groups)|
    ensures (forall i | 0 <= i < |groups| :: |groups[i]| <= limit) ==> |Flatten(tops)| == |Flatten(groups)|
    decreases |groups|
  {
    if groups != [] {
      TopsTogether(cmp, groups[1..], limit, tops[1..]);
      assert IsTop(cmp, groups[0], limit, tops[0]);
      TopKeepsSome(cmp, groups[0], limit, tops[0]);
    }
  }

  /**
   More than `limit` candidates in all groups together iff one group has more by itself, or what the
   groups keep sums to more.
   */
  lemma OverflowDistributes<T(!new)>(cmp: (T, T) -> int, groups: seq<seq<T>>, limit: nat, tops: seq<seq<T>>)
    requires GroupTops(cmp, groups, limit, tops)
    ensures |Flatten(groups)| > limit
       <==> (exists i :: 0 <= i < |groups| && |groups[i]| > limit) || |Flatten(tops)| > limit
  {
    hide IsTop;
    TopsTogether(cmp, groups, limit, tops);
    if i :| 0 <= i < |groups| && |groups[i]| > limit {
      GroupFitsInFlatten(groups, i);
    }
  }
}
