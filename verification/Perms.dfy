/** Permutations: sorting, picking by index, and what filtering and mapping do to them. */
module Perms {
  import opened Seqs

  ghost predicate TotalPreorder<T(!new)>(le: (T, T) -> bool) {
    && (forall x, y :: le(x, y) || le(y, x))
    && (forall x, y, z :: le(x, y) && le(y, z) ==> le(x, z))
  }

  ghost predicate SortedBy<T>(s: seq<T>, le: (T, T) -> bool) {
    forall i, j :: 0 <= i < j < |s| ==> le(s[i], s[j])
  }

  function InsertBy<T>(s: seq<T>, x: T, le: (T, T) -> bool): seq<T> {
    if s == [] || le(x, s[0]) then [x] + s else [s[0]] + InsertBy(s[1..], x, le)
  }

  function SortBy<T>(s: seq<T>, le: (T, T) -> bool): seq<T> {
    if s == [] then [] else InsertBy(SortBy(s[1..], le), s[0], le)
  }

  lemma {:induction false} InsertAdds<T>(s: seq<T>, x: T, le: (T, T) -> bool)
    ensures multiset(InsertBy(s, x, le)) == multiset(s) + multiset{x}
  {
    if s != [] && !le(x, s[0]) {
      InsertAdds(s[1..], x, le);
      assert s == [s[0]] + s[1..];
    }
  }

  lemma {:induction false} InsertSorts<T(!new)>(s: seq<T>, x: T, le: (T, T) -> bool)
    requires TotalPreorder(le) && SortedBy(s, le)
    ensures SortedBy(InsertBy(s, x, le), le)
  {
    if s == [] || le(x, s[0]) {
      forall j | 0 <= j < |s| ensures le(x, s[j]) {
        assert le(s[0], s[j]) || j == 0;
      }
    } else {
      InsertSorts(s[1..], x, le);
      AllAfter(s, x, le);
    }
  }

  /** The head of a sorted list stays first when something not before it is inserted. */
  lemma AllAfter<T(!new)>(s: seq<T>, x: T, le: (T, T) -> bool)
    requires TotalPreorder(le) && SortedBy(s, le) && s != [] && le(s[0], x)
    ensures forall j :: 0 <= j < |InsertBy(s[1..], x, le)| ==> le(s[0], InsertBy(s[1..], x, le)[j])
  {
    var rest := InsertBy(s[1..], x, le);
    InsertAdds(s[1..], x, le);
    forall j | 0 <= j < |rest| ensures le(s[0], rest[j]) {
      assert rest[j] in multiset(rest);
      if rest[j] in s[1..] {
        var k :| 0 <= k < |s[1..]| && s[1..][k] == rest[j];
        assert le(s[0], s[k + 1]);
      }
    }
  }

  lemma {:induction false} SortByIs<T(!new)>(s: seq<T>, le: (T, T) -> bool)
    requires TotalPreorder(le)
    ensures SortedBy(SortBy(s, le), le) && multiset(SortBy(s, le)) == multiset(s)
  {
    if s != [] {
      SortByIs(s[1..], le);
      InsertSorts(SortBy(s[1..], le), s[0], le);
      InsertAdds(SortBy(s[1..], le), s[0], le);
      assert s == [s[0]] + s[1..];
    }
  }

  lemma Tails<T>(a: seq<T>, b: seq<T>)
    requires a != [] && b != [] && a[0] == b[0] && multiset(a) == multiset(b)
    ensures multiset(a[1..]) == multiset(b[1..])
  {
    assert a == [a[0]] + a[1..] && b == [b[0]] + b[1..];
    assert multiset(a[1..]) == multiset(a) - multiset{a[0]};
    assert multiset(b[1..]) == multiset(b) - multiset{b[0]};
  }

  /** Sorted permutations are equal when ties mean equality. */
  lemma {:induction false} SortedPermutationUnique<T(!new)>(a: seq<T>, b: seq<T>, le: (T, T) -> bool)
    requires TotalPreorder(le) && SortedBy(a, le) && SortedBy(b, le) && multiset(a) == multiset(b)
    requires forall x, y :: x in a && y in a && le(x, y) && le(y, x) ==> x == y
    ensures a == b
  {
    assert |a| == |multiset(a)| == |multiset(b)| == |b|;
    if a != [] {
      SameHeads(a, b, le);
      Tails(a, b);
      SortedPermutationUnique(a[1..], b[1..], le);
      assert a == [a[0]] + a[1..] && b == [b[0]] + b[1..];
    }
  }

  lemma SameHeads<T(!new)>(a: seq<T>, b: seq<T>, le: (T, T) -> bool)
    requires TotalPreorder(le) && SortedBy(a, le) && SortedBy(b, le) && multiset(a) == multiset(b)
    requires forall x, y :: x in a && y in a && le(x, y) && le(y, x) ==> x == y
    requires a != [] && b != []
    ensures a[0] == b[0]
  {
    assert a[0] in multiset(b) && b[0] in multiset(a);
    LeastFirst(a, b[0], le);
    LeastFirst(b, a[0], le);
  }

  lemma LeastFirst<T(!new)>(s: seq<T>, x: T, le: (T, T) -> bool)
    requires TotalPreorder(le) && SortedBy(s, le) && x in s
    ensures le(s[0], x)
  {
    var i :| 0 <= i < |s| && s[i] == x;
    assert i > 0 ==> le(s[0], s[i]);
    assert le(s[0], s[0]);
  }

  // ---------------------------------------------------------------------
  // Filtering and mapping
  // ---------------------------------------------------------------------

  lemma {:induction false} FilterMultiset<T(!new)>(s: seq<T>, p: T -> bool, x: T)
    ensures multiset(Filter(s, p))[x] == if p(x) then multiset(s)[x] else 0
  {
    if s != [] {
      FilterMultiset(s[1..], p, x);
      assert s == [s[0]] + s[1..];
    }
  }

  lemma FilterPermuted<T(!new)>(a: seq<T>, b: seq<T>, p: T -> bool)
    requires multiset(a) == multiset(b)
    ensures multiset(Filter(a, p)) == multiset(Filter(b, p))
  {
    forall x ensures multiset(Filter(a, p))[x] == multiset(Filter(b, p))[x] {
      FilterMultiset(a, p, x);
      FilterMultiset(b, p, x);
    }
  }

  lemma CountPermuted<T(!new)>(a: seq<T>, b: seq<T>, p: T -> bool)
    requires multiset(a) == multiset(b)
    ensures Count(a, p) == Count(b, p)
  {
    FilterPermuted(a, b, p);
    assert |Filter(a, p)| == |multiset(Filter(a, p))| && |Filter(b, p)| == |multiset(Filter(b, p))|;
  }

  lemma Without<T>(s: seq<T>, i: nat)
    requires i < |s|
    ensures multiset(s) == multiset(s[..i] + s[i + 1..]) + multiset{s[i]}
  {
    assert s == s[..i] + ([s[i]] + s[i + 1..]);
  }

  lemma Middle<T>(x: seq<T>, e: T, y: seq<T>)
    ensures multiset(x + ([e] + y)) == multiset(x + y) + multiset{e}
  {
  }

  lemma {:induction false} MapAt<T, U>(s: seq<T>, i: nat, f: T -> U)
    requires i < |s|
    ensures Map(s, f) == Map(s[..i], f) + ([f(s[i])] + Map(s[i + 1..], f))
  {
    if i > 0 {
      MapAt(s[1..], i - 1, f);
      assert s[..i][1..] == s[1..][..i - 1] && s[1..][i..] == s[i + 1..];
    }
  }

  lemma MapWithout<T, U>(s: seq<T>, i: nat, f: T -> U)
    requires i < |s|
    ensures multiset(Map(s, f)) == multiset(Map(s[..i] + s[i + 1..], f)) + multiset{f(s[i])}
  {
    MapAt(s, i, f);
    MapAppend(s[..i], s[i + 1..], f);
    Middle(Map(s[..i], f), f(s[i]), Map(s[i + 1..], f));
  }

  lemma {:induction false} MapPermuted<T, U>(a: seq<T>, b: seq<T>, f: T -> U)
    requires multiset(a) == multiset(b)
    ensures multiset(Map(a, f)) == multiset(Map(b, f))
    decreases |a|
  {
    assert |a| == |multiset(a)| == |multiset(b)| == |b|;
    if a != [] {
      var i := SamePlace(a, b);
      MapPermuted(a[1..], b[..i] + b[i + 1..], f);
      MapWithout(b, i, f);
      MapWithout(a, 0, f);
      assert a[..0] + a[1..] == a[1..];
    }
  }

  lemma WithoutFirst<T>(s: seq<T>)
    requires s != []
    ensures multiset(s[1..]) == multiset(s) - multiset{s[0]}
  {
    assert s == [s[0]] + s[1..];
  }

  /** The first member of a list sits somewhere in its permutation; the rests are permutations too. */
  lemma SamePlace<T>(a: seq<T>, b: seq<T>) returns (i: nat)
    requires a != [] && multiset(a) == multiset(b)
    ensures i < |b| && b[i] == a[0] && multiset(a[1..]) == multiset(b[..i] + b[i + 1..])
  {
    assert a[0] in multiset(b);
    i :| 0 <= i < |b| && b[i] == a[0];
    Without(b, i);
    WithoutFirst(a);
  }

  // ---------------------------------------------------------------------
  // Picking by index
  // ---------------------------------------------------------------------

  predicate InBounds(idx: seq<nat>, n: nat) { forall k :: 0 <= k < |idx| ==> idx[k] < n }

  ghost predicate IsPermutation(idx: seq<nat>, n: nat) {
    && |idx| == n
    && InBounds(idx, n)
    && (forall j, k :: 0 <= j < k < |idx| ==> idx[j] != idx[k])
  }

  function Pick<T>(s: seq<T>, idx: seq<nat>): (r: seq<T>)
    requires InBounds(idx, |s|)
    ensures |r| == |idx| && forall k :: 0 <= k < |r| ==> r[k] == s[idx[k]]
  {
    if idx == [] then [] else Pick(s, idx[..|idx| - 1]) + [s[idx[|idx| - 1]]]
  }

  /** A full-length list of distinct indices below n contains each of them. */
  lemma {:induction false} PermutationCovers(idx: seq<nat>, n: nat, i: nat)
    requires IsPermutation(idx, n) && i < n
    ensures i in idx
    decreases n
  {
    if i !in idx {
      // Put n-1's position to use: replacing n-1 by i keeps the list distinct, one value short.
      var lower := seq(|idx|, k requires 0 <= k < |idx| => if idx[k] == n - 1 then i else idx[k]);
      DistinctBound(if i == n - 1 then idx else lower, n - 1);
      assert false;
    }
  }

  lemma {:induction false} DistinctBound(s: seq<nat>, n: nat)
    requires forall k :: 0 <= k < |s| ==> s[k] < n
    requires forall j, k :: 0 <= j < k < |s| ==> s[j] != s[k]
    ensures |s| <= n
    decreases n
  {
    if s != [] && s[0] < n {
      if k :| 0 <= k < |s| && s[k] == n - 1 {
        DistinctBound(s[..k] + s[k + 1..], n - 1);
      } else {
        DistinctBound(s, n - 1);
      }
    }
  }

  lemma DropOne(idx: seq<nat>, n: nat, p: nat)
    requires IsPermutation(idx, n) && p < |idx| && idx[p] == n - 1
    ensures IsPermutation(idx[..p] + idx[p + 1..], n - 1)
  {
  }

  lemma PickWithout<T>(s: seq<T>, idx: seq<nat>, p: nat)
    requires s != [] && InBounds(idx, |s|) && p < |idx| && InBounds(idx[..p] + idx[p + 1..], |s| - 1)
    ensures Pick(s[..|s| - 1], idx[..p] + idx[p + 1..]) == Pick(s, idx)[..p] + Pick(s, idx)[p + 1..]
  {
  }

  lemma InitLast<T>(s: seq<T>)
    requires s != []
    ensures multiset(s) == multiset(s[..|s| - 1]) + multiset{s[|s| - 1]}
  {
    assert s == s[..|s| - 1] + [s[|s| - 1]];
  }

  lemma {:induction false} PickPermuted<T>(s: seq<T>, idx: seq<nat>)
    requires IsPermutation(idx, |s|)
    ensures multiset(Pick(s, idx)) == multiset(s)
    decreases |s|
  {
    if s == [] {
      assert Pick(s, idx) == s;
    } else {
      var last := |s| - 1;
      PermutationCovers(idx, |s|, last);
      var p :| 0 <= p < |idx| && idx[p] == last;
      DropOne(idx, |s|, p);
      PickPermuted(s[..last], idx[..p] + idx[p + 1..]);
      PickWithout(s, idx, p);
      Without(Pick(s, idx), p);
      InitLast(s);
    }
  }
}
