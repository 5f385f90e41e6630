/** Sequence operations that stand for `Vec` and iterator methods: `position`, `remove`, `insert`,
    `filter`, `nth`, and the order facts the registries need about them. */
module Seqs {
  import opened Wrappers

  /** `iter().position(p)`: the first index whose element satisfies `p`. */
  function FirstIndex<T>(s: seq<T>, p: T -> bool): (r: Option<nat>)
    ensures r.Some? ==> r.value < |s| && p(s[r.value]) && forall j | 0 <= j < r.value :: !p(s[j])
    ensures r.None? ==> forall j | 0 <= j < |s| :: !p(s[j])
  {
    if s == [] then None
    else if p(s[0]) then Some(0)
    else match FirstIndex(s[1..], p)
      case None =>
        assert forall j | 1 <= j < |s| :: s[j] == s[1..][j - 1];
        None
      case Some(i) =>
        assert forall j | 1 <= j < i + 1 :: s[j] == s[1..][j - 1];
        Some(i + 1)
  }

  function RemoveAt<T>(s: seq<T>, i: nat): seq<T>
    requires i < |s|
  {
    s[..i] + s[i + 1..]
  }

  function InsertAt<T>(s: seq<T>, i: nat, x: T): seq<T>
    requires i <= |s|
  {
    s[..i] + [x] + s[i..]
  }

  function Filter<T>(s: seq<T>, p: T -> bool): (r: seq<T>)
    ensures |r| <= |s|
    ensures forall x | x in r :: x in s && p(x)
    ensures forall x | x in s :: p(x) ==> x in r
  {
    if s == [] then []
    else
      assert s == [s[0]] + s[1..];
      (if p(s[0]) then [s[0]] else []) + Filter(s[1..], p)
  }

  function Map<T, U>(s: seq<T>, f: T -> U): (r: seq<U>)
    ensures |r| == |s|
    ensures forall i | 0 <= i < |s| :: r[i] == f(s[i])
  {
    seq(|s|, i requires 0 <= i < |s| => f(s[i]))
  }

  predicate Distinct<T(==)>(s: seq<T>) {
    forall i, j | 0 <= i < j < |s| :: s[i] != s[j]
  }

  lemma SplitAt<T>(s: seq<T>, i: nat)
    requires i < |s|
    ensures s == s[..i] + [s[i]] + s[i + 1..]
  {
  }

  lemma SplitFront<T>(s: seq<T>, i: nat)
    requires i < |s|
    ensures s[i..] == [s[i]] + s[i + 1..]
  {
  }

  lemma SplitLast<T>(s: seq<T>)
    requires s != []
    ensures s == s[..|s| - 1] + [s[|s| - 1]]
  {
  }

  lemma {:induction false} FilterConcat<T>(a: seq<T>, b: seq<T>, p: T -> bool)
    ensures Filter(a + b, p) == Filter(a, p) + Filter(b, p)
  {
    if a == [] {
      assert a + b == b;
    } else {
      RestOfConcat(a, b);
      FilterConcat(a[1..], b, p);
    }
  }

  lemma RestOfConcat<T>(a: seq<T>, b: seq<T>)
    requires a != []
    ensures (a + b)[0] == a[0] && (a + b)[1..] == a[1..] + b
  {
  }

  lemma {:induction false} FilterAll<T>(s: seq<T>, p: T -> bool)
    requires forall x | x in s :: p(x)
    ensures Filter(s, p) == s
  {
    if s != [] {
      FilterAll(s[1..], p);
    }
  }

  lemma {:induction false} FilterNone<T>(s: seq<T>, p: T -> bool)
    requires forall x | x in s :: !p(x)
    ensures Filter(s, p) == []
  {
    if s != [] {
      FilterNone(s[1..], p);
    }
  }

  lemma FilterAppend<T>(s: seq<T>, x: T, p: T -> bool)
    ensures Filter(s + [x], p) == if p(x) then Filter(s, p) + [x] else Filter(s, p)
  {
    FilterConcat(s, [x], p);
  }

  lemma FilterAllButOne<T>(before: seq<T>, x: T, after: seq<T>, p: T -> bool)
    requires !p(x) && forall y | y in before + after :: p(y)
    ensures Filter(before + [x] + after, p) == before + after
  {
    hide Filter;
    assert forall y | y in before :: y in before + after;
    assert forall y | y in after :: y in before + after;
    FilterConcat(before + [x], after, p);
    FilterAppend(before, x, p);
    FilterAll(before, p);
    FilterAll(after, p);
  }

  /** A projection of a list with one more element is the projection of the list, with the element
      put where the projection of the prefix ends. */
  lemma FilterInsert<T>(s: seq<T>, i: nat, x: T, p: T -> bool)
    requires i <= |s|
    ensures |Filter(s[..i], p)| <= |Filter(s, p)|
    ensures Filter(InsertAt(s, i, x), p)
         == if p(x) then InsertAt(Filter(s, p), |Filter(s[..i], p)|, x) else Filter(s, p)
  {
    var before, after := Filter(s[..i], p), Filter(s[i..], p);
    assert Filter(s, p) == before + after by {
      assert s == s[..i] + s[i..];
      FilterConcat(s[..i], s[i..], p);
    }
    assert Filter([x], p) == if p(x) then [x] else [];
    assert Filter(InsertAt(s, i, x), p) == before + Filter([x], p) + after by {
      FilterConcat(s[..i] + [x], s[i..], p);
      FilterConcat(s[..i], [x], p);
    }
    assert (before + after)[..|before|] == before && (before + after)[|before|..] == after;
  }

  lemma RemoveInsert<T>(s: seq<T>, i: nat, x: T)
    requires i <= |s|
    ensures RemoveAt(InsertAt(s, i, x), i) == s
    ensures multiset(InsertAt(s, i, x)) == multiset(s) + multiset{x}
  {
    assert InsertAt(s, i, x)[..i] == s[..i];
    assert InsertAt(s, i, x)[i + 1..] == s[i..];
    assert s == s[..i] + s[i..];
  }

  lemma RemoveMultiset<T>(s: seq<T>, i: nat)
    requires i < |s|
    ensures InsertAt(RemoveAt(s, i), i, s[i]) == s
    ensures multiset(s) == multiset(RemoveAt(s, i)) + multiset{s[i]}
  {
    assert s == s[..i] + [s[i]] + s[i + 1..];
  }

  lemma FilterPrefix<T>(s: seq<T>, n: nat, p: T -> bool)
    requires 0 < n <= |s|
    ensures Filter(s[..n], p) == (if p(s[0]) then [s[0]] else []) + Filter(s[1..][..n - 1], p)
  {
    assert s[..n][1..] == s[1..][..n - 1];
  }

  /** `filter(p).nth(k)` with its index: the place of the `k`-th element that satisfies `p`. */
  function NthIndex<T>(s: seq<T>, p: T -> bool, k: nat): (i: nat)
    requires k < |Filter(s, p)|
    ensures i < |s| && p(s[i])
  {
    if p(s[0]) && k == 0 then 0
    else 1 + NthIndex(s[1..], p, if p(s[0]) then k - 1 else k)
  }

  lemma {:induction false} NthIndexIsNth<T>(s: seq<T>, p: T -> bool, k: nat)
    requires k < |Filter(s, p)|
    ensures s[NthIndex(s, p, k)] == Filter(s, p)[k]
  {
    if !(p(s[0]) && k == 0) {
      NthIndexIsNth(s[1..], p, if p(s[0]) then k - 1 else k);
    }
  }

  lemma {:induction false} NthIndexCounts<T>(s: seq<T>, p: T -> bool, k: nat)
    requires k < |Filter(s, p)|
    ensures |Filter(s[..NthIndex(s, p, k)], p)| == k
  {
    if p(s[0]) && k == 0 {
      assert s[..0] == [];
    } else {
      var rest := if p(s[0]) then k - 1 else k;
      NthIndexCounts(s[1..], p, rest);
      FilterPrefix(s, NthIndex(s[1..], p, rest) + 1, p);
    }
  }

  lemma MapConcat<T, U>(a: seq<T>, b: seq<T>, f: T -> U)
    ensures Map(a + b, f) == Map(a, f) + Map(b, f)
  {
  }

  /** Elements of a duplicate-free list sit at one place only. */
  lemma DistinctPosition<T>(s: seq<T>, i: nat, j: nat)
    requires Distinct(s) && i < |s| && j < |s| && s[i] == s[j]
    ensures i == j
  {
  }

  /** A permutation of a duplicate-free list is duplicate-free. */
  lemma DistinctByMultiset<T>(a: seq<T>, b: seq<T>)
    requires Distinct(a) && multiset(a) == multiset(b)
    ensures Distinct(b)
  {
    forall i, j | 0 <= i < j < |b|
      ensures b[i] != b[j]
    {
      if b[i] == b[j] {
        assert b == b[..j] + [b[j]] + b[j + 1..];
        assert b[..j] == b[..i] + [b[i]] + b[i + 1..j];
        assert multiset(b)[b[i]] >= 2;
        DistinctMultiplicity(a, b[i]);
      }
    }
  }

  lemma {:induction false} DistinctMultiplicity<T>(a: seq<T>, x: T)
    requires Distinct(a)
    ensures multiset(a)[x] <= 1
  {
    if a != [] {
      assert a == [a[0]] + a[1..];
      DistinctMultiplicity(a[1..], x);
      if a[0] == x {
        assert x !in a[1..];
      }
    }
  }

  /** `a` lists some of `b`, each place at most once, in the order of `b`. */
  predicate Subsequence<T(==)>(a: seq<T>, b: seq<T>) {
    a == [] || (b != [] &&
      ((a[|a| - 1] == b[|b| - 1] && Subsequence(a[..|a| - 1], b[..|b| - 1])) || Subsequence(a, b[..|b| - 1])))
  }

  lemma SubsequenceExtends<T>(a: seq<T>, b: seq<T>, x: T)
    requires Subsequence(a, b)
    ensures Subsequence(a, b + [x]) && Subsequence(a + [x], b + [x])
  {
    assert (b + [x])[..|b|] == b && (a + [x])[..|a|] == a;
  }

  lemma {:induction false} SubsequenceIsDistinct<T>(a: seq<T>, b: seq<T>)
    requires Subsequence(a, b) && Distinct(b)
    ensures Distinct(a) && forall x | x in a :: x in b
  {
    if a != [] {
      var n, m := |a| - 1, |b| - 1;
      if a[n] == b[m] && Subsequence(a[..n], b[..m]) {
        SubsequenceIsDistinct(a[..n], b[..m]);
        assert forall i | 0 <= i < n :: a[i] == a[..n][i] && a[i] in b[..m];
      } else {
        SubsequenceIsDistinct(a, b[..m]);
      }
    }
  }

  lemma {:induction false} SubsequenceConcatStart<T>(a: seq<T>, b: seq<T>)
    requires Subsequence(a, b) && a != []
    ensures Subsequence(a[1..], b)
    decreases |b|
  {
    var n, m := |a| - 1, |b| - 1;
    if a[n] == b[m] && Subsequence(a[..n], b[..m]) {
      if n > 0 {
        SubsequenceConcatStart(a[..n], b[..m]);
        assert a[1..][..n - 1] == a[..n][1..];
      }
    } else {
      SubsequenceConcatStart(a, b[..m]);
    }
  }

  /** Leaving elements out of a subsequence leaves a subsequence. */
  lemma {:induction false} FilterSubsequence<T>(a: seq<T>, b: seq<T>, p: T -> bool)
    requires Subsequence(a, b)
    ensures Subsequence(Filter(a, p), b)
    decreases |b|
  {
    hide Filter;
    if a != [] {
      var n, m := |a| - 1, |b| - 1;
      SplitLast(a);
      SplitLast(b);
      if a[n] == b[m] && Subsequence(a[..n], b[..m]) {
        FilterSubsequence(a[..n], b[..m], p);
        FilterAppend(a[..n], a[n], p);
        SubsequenceExtends(Filter(a[..n], p), b[..m], b[m]);
      } else {
        FilterSubsequence(a, b[..m], p);
        SubsequenceExtends(Filter(a, p), b[..m], b[m]);
      }
    }
  }
}
