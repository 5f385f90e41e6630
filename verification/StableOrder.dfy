/** The order produced by `sort_by_key`: what a stable sort promises, and that it is unique. */
module StableOrder {
  import opened Seqs

  function SameKey<T>(key: T -> nat, k: nat): T -> bool {
    x => key(x) == k
  }

  ghost predicate SortedByKey<T>(s: seq<T>, key: T -> nat) {
    forall i, j | 0 <= i < j < |s| :: key(s[i]) <= key(s[j])
  }

  /** Every class of equal keys reads the same in both lists. */
  ghost predicate SameClasses<T>(a: seq<T>, b: seq<T>, key: T -> nat) {
    forall k: nat :: Filter(a, SameKey(key, k)) == Filter(b, SameKey(key, k))
  }

  function InsertByKey<T>(x: T, s: seq<T>, key: T -> nat): seq<T> {
    if s == [] || key(x) <= key(s[0]) then [x] + s
    else [s[0]] + InsertByKey(x, s[1..], key)
  }

  function StableSort<T>(s: seq<T>, key: T -> nat): seq<T> {
    if s == [] then [] else InsertByKey(s[0], StableSort(s[1..], key), key)
  }

  lemma {:induction false} InsertByKeyMultiset<T>(x: T, s: seq<T>, key: T -> nat)
    ensures multiset(InsertByKey(x, s, key)) == multiset(s) + multiset{x}
  {
    if s == [] || key(x) <= key(s[0]) {
    } else {
      InsertByKeyMultiset(x, s[1..], key);
      assert s == [s[0]] + s[1..];
    }
  }

  lemma {:induction false} InsertByKeySorted<T>(x: T, s: seq<T>, key: T -> nat)
    requires SortedByKey(s, key)
    ensures SortedByKey(InsertByKey(x, s, key), key)
  {
    if s == [] || key(x) <= key(s[0]) {
    } else {
      var tail, rest := s[1..], InsertByKey(x, s[1..], key);
      InsertByKeySorted(x, tail, key);
      InsertByKeyMultiset(x, tail, key);
      forall y | y in rest
        ensures key(s[0]) <= key(y)
      {
        assert y in multiset(rest);
        assert y == x || y in tail;
      }
      assert InsertByKey(x, s, key) == [s[0]] + rest;
    }
  }

  lemma {:induction false} InsertByKeyClass<T>(x: T, s: seq<T>, key: T -> nat, k: nat)
    ensures Filter(InsertByKey(x, s, key), SameKey(key, k)) == Filter([x] + s, SameKey(key, k))
  {
    if s == [] || key(x) <= key(s[0]) {
    } else {
      var p, y, tail := SameKey(key, k), s[0], s[1..];
      InsertByKeyClass(x, tail, key, k);
      PushFront(y, InsertByKey(x, tail, key), p);
      PushFront(x, tail, p);
      PushFront(x, s, p);
      PushFront(y, tail, p);
      assert s == [y] + tail;
      assert InsertByKey(x, s, key) == [y] + InsertByKey(x, tail, key);
      assert !(p(x) && p(y));
    }
  }

  lemma PushFront<T>(x: T, s: seq<T>, p: T -> bool)
    ensures Filter([x] + s, p) == if p(x) then [x] + Filter(s, p) else Filter(s, p)
  {
    assert ([x] + s)[1..] == s;
  }

  /** `sort_by_key` orders by key, keeps every element, and keeps equal keys in their old order. */
  lemma {:induction false} StableSortFacts<T>(s: seq<T>, key: T -> nat)
    ensures SortedByKey(StableSort(s, key), key)
    ensures multiset(StableSort(s, key)) == multiset(s)
    ensures SameClasses(StableSort(s, key), s, key)
  {
    if s != [] {
      var x, rest := s[0], StableSort(s[1..], key);
      StableSortFacts(s[1..], key);
      InsertByKeySorted(x, rest, key);
      InsertByKeyMultiset(x, rest, key);
      assert s == [x] + s[1..];
      forall k: nat
        ensures Filter(StableSort(s, key), SameKey(key, k)) == Filter(s, SameKey(key, k))
      {
        InsertByKeyClass(x, rest, key, k);
        PushFront(x, rest, SameKey(key, k));
        PushFront(x, s[1..], SameKey(key, k));
      }
    }
  }

  lemma SmallestFirst<T>(a: seq<T>, b: seq<T>, key: T -> nat)
    requires a != [] && SortedByKey(b, key) && SameClasses(a, b, key)
    ensures b != [] && key(b[0]) <= key(a[0])
  {
    var p := SameKey(key, key(a[0]));
    assert a[0] in Filter(a, p);
    assert a[0] in Filter(b, p);
    assert a[0] in b;
  }

  /** Only one list is sorted and agrees with a given one on every class: the two facts above
      determine the result of a stable sort. */
  lemma {:induction false} StableSortUnique<T>(a: seq<T>, b: seq<T>, key: T -> nat)
    requires SortedByKey(a, key) && SortedByKey(b, key) && SameClasses(a, b, key)
    ensures a == b
  {
    if a == [] {
      if b != [] { SmallestFirst(b, a, key); }
    } else {
      SmallestFirst(a, b, key);
      SmallestFirst(b, a, key);
      var k := key(a[0]);
      assert a == [a[0]] + a[1..] && b == [b[0]] + b[1..];
      assert Filter(a, SameKey(key, k))[0] == a[0] && Filter(b, SameKey(key, k))[0] == b[0];
      forall j: nat
        ensures Filter(a[1..], SameKey(key, j)) == Filter(b[1..], SameKey(key, j))
      {
        assert Filter(a, SameKey(key, j)) == Filter(b, SameKey(key, j));
        PushFront(a[0], a[1..], SameKey(key, j));
        PushFront(b[0], b[1..], SameKey(key, j));
        assert ([a[0]] + Filter(a[1..], SameKey(key, j)))[1..] == Filter(a[1..], SameKey(key, j));
        assert ([b[0]] + Filter(b[1..], SameKey(key, j)))[1..] == Filter(b[1..], SameKey(key, j));
      }
      StableSortUnique(a[1..], b[1..], key);
    }
  }

  lemma SortedIsFixed<T>(s: seq<T>, key: T -> nat)
    requires SortedByKey(s, key)
    ensures StableSort(s, key) == s
  {
    StableSortFacts(s, key);
    StableSortUnique(StableSort(s, key), s, key);
  }
}
