/** Maps listed in the order of their keys, as a `BTreeMap` iterates. */
module OrderedMaps {
  /** Lexicographic by character, which is also the order of the UTF-8 bytes. */
  predicate Leq(a: string, b: string) {
    a == [] || (b != [] && (a[0] < b[0] || (a[0] == b[0] && Leq(a[1..], b[1..]))))
  }

  lemma {:induction false} LeqTotal(a: string, b: string)
    ensures Leq(a, b) || Leq(b, a)
  {
    if a != [] && b != [] && a[0] == b[0] {
      LeqTotal(a[1..], b[1..]);
    }
  }

  lemma {:induction false} LeqAntisymmetric(a: string, b: string)
    requires Leq(a, b) && Leq(b, a)
    ensures a == b
  {
    if a != [] && b != [] {
      LeqAntisymmetric(a[1..], b[1..]);
      assert a == [a[0]] + a[1..] && b == [b[0]] + b[1..];
    }
  }

  lemma {:induction false} LeqTransitive(a: string, b: string, c: string)
    requires Leq(a, b) && Leq(b, c)
    ensures Leq(a, c)
  {
    if a != [] && a[0] == b[0] && b[0] == c[0] {
      LeqTransitive(a[1..], b[1..], c[1..]);
    }
  }

  ghost predicate IsLeast(k: string, keys: set<string>) {
    k in keys && forall other | other in keys :: Leq(k, other)
  }

  lemma {:induction false} LeastExists(keys: set<string>) returns (k: string)
    requires keys != {}
    ensures IsLeast(k, keys)
  {
    hide Leq;
    k :| k in keys;
    LeqTotal(k, k);
    if keys != {k} {
      var least := LeastExists(keys - {k});
      LeqTotal(k, least);
      if Leq(k, least) {
        forall other | other in keys
          ensures Leq(k, other)
        {
          if other != k { LeqTransitive(k, least, other); }
        }
      } else {
        k := least;
      }
    }
  }

  lemma LeastIsUnique(keys: set<string>)
    requires keys != {}
    ensures exists k :: k in keys && forall other | other in keys :: Leq(k, other)
    ensures forall a, b | a in keys && b in keys :: Leq(a, b) && Leq(b, a) ==> a == b
  {
    hide Leq;
    var least := LeastExists(keys);
    assert least in keys && forall other | other in keys :: Leq(least, other);
    forall a, b | a in keys && b in keys && Leq(a, b) && Leq(b, a)
      ensures a == b
    {
      LeqAntisymmetric(a, b);
    }
  }

  function LeastKey(keys: set<string>): (k: string)
    requires keys != {}
    ensures IsLeast(k, keys)
  {
    LeastIsUnique(keys);
    var k :| k in keys && forall other | other in keys :: Leq(k, other);
    k
  }

  function Listed<V>(m: map<string, V>): (pairs: seq<(string, V)>)
    decreases |m|
  {
    if |m| == 0 then
      []
    else
      assert |m.Keys| == |m|;
      var k := LeastKey(m.Keys);
      SmallerWithout(m, k);
      [(k, m[k])] + Listed(m - {k})
  }

  lemma SmallerWithout<V>(m: map<string, V>, k: string)
    requires k in m
    ensures |m - {k}| == |m| - 1
  {
    assert (m - {k}).Keys == m.Keys - {k};
    assert |(m - {k}).Keys| == |m - {k}| && |m.Keys| == |m|;
  }

  /** The listing has exactly the map's pairs, each key once, in increasing order. */
  lemma {:induction false} ListedFacts<V>(m: map<string, V>)
    ensures forall k, v :: (k, v) in Listed(m) <==> k in m && m[k] == v
    ensures forall i, j | 0 <= i < j < |Listed(m)| :: Listed(m)[i].0 != Listed(m)[j].0
    ensures forall i, j | 0 <= i < j < |Listed(m)| :: Leq(Listed(m)[i].0, Listed(m)[j].0)
    decreases |m|
  {
    hide Leq, LeastKey;
    if |m| == 0 {
      assert m.Keys == {} by { assert |m.Keys| == |m|; }
    } else {
      assert |m.Keys| == |m|;
      var k := LeastKey(m.Keys);
      var rest := m - {k};
      SmallerWithout(m, k);
      ListedFacts(rest);
      var pairs := Listed(rest);
      assert Listed(m) == [(k, m[k])] + pairs;
      forall j | 0 <= j < |pairs|
        ensures pairs[j].0 != k && Leq(k, pairs[j].0)
      {
        var (key, value) := pairs[j];
        assert (key, value) in pairs;
        assert key in rest && key in m.Keys;
      }
    }
  }
}
