/** The icon cache: least recently used, bounded by entries and by bytes; a cached absence counts. */
module IconCache {
  import opened Wrappers
  import opened Seqs

  const MAX_ENTRIES: nat := 128
  const MAX_BYTES: nat := 16 * 1024 * 1024

  type Byte = b: int | 0 <= b < 256

  /** An icon's bytes, or the fact that there is none. */
  datatype Icon = NoIcon | Png(bytes: seq<Byte>)

  datatype Cache = Cache(entries: map<string, Icon>, order: seq<string>, bytes: nat)

  const EmptyCache := Cache(map[], [], 0)

  function EncodedLen(icon: Icon): nat {
    if icon.Png? then |icon.bytes| else 0
  }

  function SaturatingSub(a: nat, b: nat): nat {
    if a < b then 0 else a - b
  }

  predicate Holds(entries: map<string, Icon>, order: seq<string>) {
    forall key | key in order :: key in entries
  }

  function Total(entries: map<string, Icon>, order: seq<string>): nat
    requires Holds(entries, order)
  {
    if order == [] then 0 else EncodedLen(entries[order[0]]) + Total(entries, order[1..])
  }

  /** `order` lists exactly the cached keys, once each, and `bytes` is their total size. */
  ghost predicate Exact(c: Cache) {
    && Distinct(c.order)
    && (forall key :: key in c.entries <==> key in c.order)
    && c.bytes == Total(c.entries, c.order)
  }

  predicate Fits(entries: map<string, Icon>, order: seq<string>)
    requires Holds(entries, order)
  {
    |order| <= MAX_ENTRIES && Total(entries, order) <= MAX_BYTES
  }

  ghost predicate Valid(c: Cache) {
    Exact(c) && Fits(c.entries, c.order)
  }

  // ---------------------------------------------------------------- keys in order of use

  function Position(order: seq<string>, key: string): (i: nat)
    requires key in order
    ensures i < |order| && order[i] == key && key !in order[..i]
  {
    if order[0] == key then 0
    else
      var i := Position(order[1..], key);
      assert order[..i + 1] == [order[0]] + order[1..][..i];
      i + 1
  }

  function Without(order: seq<string>, key: string): seq<string> {
    if key in order then RemoveAt(order, Position(order, key)) else order
  }

  function Latest(order: seq<string>, key: string): seq<string> {
    Without(order, key) + [key]
  }

  lemma WithoutFacts(order: seq<string>, key: string)
    requires Distinct(order)
    ensures Distinct(Without(order, key)) && key !in Without(order, key)
    ensures forall k :: k in Without(order, key) <==> k in order && k != key
  {
    var rest := Without(order, key);
    if key in order {
      var i := Position(order, key);
      forall k | k in order && k != key
        ensures k in rest
      {
        var j :| 0 <= j < |order| && order[j] == k;
        assert rest[if j < i then j else j - 1] == k;
      }
    }
  }

  lemma {:induction false} TotalConcat(entries: map<string, Icon>, a: seq<string>, b: seq<string>)
    requires Holds(entries, a + b)
    ensures Holds(entries, a) && Holds(entries, b)
    ensures Total(entries, a + b) == Total(entries, a) + Total(entries, b)
  {
    assert forall key | key in a :: key in a + b;
    assert forall key | key in b :: key in a + b;
    if a == [] {
      assert a + b == b;
    } else {
      assert (a + b)[1..] == a[1..] + b;
      TotalConcat(entries, a[1..], b);
    }
  }

  lemma {:induction false} SameTotal(a: map<string, Icon>, b: map<string, Icon>, order: seq<string>)
    requires Holds(a, order) && Holds(b, order) && forall key | key in order :: a[key] == b[key]
    ensures Total(a, order) == Total(b, order)
  {
    if order != [] {
      SameTotal(a, b, order[1..]);
    }
  }

  /** Taking a key out takes exactly its size out. */
  lemma TotalWithout(entries: map<string, Icon>, order: seq<string>, key: string)
    requires Distinct(order) && Holds(entries, order) && key in order
    ensures Holds(entries, Without(order, key))
    ensures Total(entries, order) == Total(entries, Without(order, key)) + EncodedLen(entries[key])
  {
    var i := Position(order, key);
    assert order == order[..i] + [key] + order[i + 1..];
    TotalConcat(entries, order[..i] + [key], order[i + 1..]);
    TotalConcat(entries, order[..i], [key]);
    TotalConcat(entries, order[..i], order[i + 1..]);
    assert Total(entries, [key]) == EncodedLen(entries[key]);
  }

  // ---------------------------------------------------------------- operations on values

  function Touched(c: Cache, key: string): Cache {
    if key in c.entries then c.(order := Latest(c.order, key)) else c
  }

  /** How many of the least recently used keys have to go until both limits hold. */
  function EvictionCount(entries: map<string, Icon>, order: seq<string>): (n: nat)
    requires Holds(entries, order)
    ensures n <= |order|
  {
    if order == [] || Fits(entries, order) then 0 else 1 + EvictionCount(entries, order[1..])
  }

  /** Without its `n` least recently used keys. */
  function Kept(entries: map<string, Icon>, order: seq<string>, n: nat): Cache
    requires Holds(entries, order) && n <= |order|
  {
    Cache(map key | key in entries && key !in order[..n] :: entries[key], order[n..], Total(entries, order[n..]))
  }

  /** An icon over the byte limit is not cached, and an earlier one under the key stays. */
  ghost function Inserted(c: Cache, key: string, icon: Icon): Cache
    requires Exact(c)
  {
    if EncodedLen(icon) > MAX_BYTES then c
    else
      WithoutFacts(c.order, key);
      var entries, order := c.entries[key := icon], Latest(c.order, key);
      Kept(entries, order, EvictionCount(entries, order))
  }

  /** Eviction removes the shortest least-recently-used prefix that restores both limits. */
  lemma {:induction false} EvictionIsShortest(entries: map<string, Icon>, order: seq<string>)
    requires Holds(entries, order)
    ensures var n := EvictionCount(entries, order);
      Fits(entries, order[n..]) && forall m: nat | m < n :: !Fits(entries, order[m..])
  {
    var n := EvictionCount(entries, order);
    if order == [] || Fits(entries, order) {
      assert order[0..] == order;
    } else {
      EvictionIsShortest(entries, order[1..]);
      assert order[n..] == order[1..][n - 1..];
      forall m: nat | m < n
        ensures !Fits(entries, order[m..])
      {
        if m > 0 {
          assert order[m..] == order[1..][m - 1..];
        } else {
          assert order[0..] == order;
        }
      }
    }
  }

  /** The key inserted last is never evicted: alone it fits. */
  lemma NewestStays(entries: map<string, Icon>, order: seq<string>, key: string)
    requires Holds(entries, order + [key]) && EncodedLen(entries[key]) <= MAX_BYTES
    ensures EvictionCount(entries, order + [key]) <= |order|
  {
    hide EvictionCount;
    var all := order + [key];
    assert all[|order|..] == [key];
    assert Total(entries, [key]) == EncodedLen(entries[key]);
    assert Fits(entries, all[|order|..]);
    EvictionIsShortest(entries, all);
  }

  lemma KeptIsExact(entries: map<string, Icon>, order: seq<string>, n: nat)
    requires Distinct(order) && (forall key :: key in entries <==> key in order) && n <= |order|
    ensures Exact(Kept(entries, order, n))
  {
    var kept := Kept(entries, order, n);
    SplitDistinct(order, n);
    assert forall key :: key in kept.entries <==> key in order[n..];
    SameTotal(entries, kept.entries, order[n..]);
  }

  lemma KeptFits(entries: map<string, Icon>, order: seq<string>, n: nat)
    requires Distinct(order) && (forall key :: key in entries <==> key in order) && n <= |order|
    requires Fits(entries, order[n..])
    ensures var kept := Kept(entries, order, n);
      Holds(kept.entries, kept.order) && Fits(kept.entries, kept.order)
  {
    SplitDistinct(order, n);
    SameTotal(entries, Kept(entries, order, n).entries, order[n..]);
  }

  lemma KeptNewest(entries: map<string, Icon>, older: seq<string>, key: string, n: nat)
    requires Holds(entries, older + [key]) && Distinct(older + [key]) && n <= |older|
    ensures var kept := Kept(entries, older + [key], n);
      key in kept.entries && kept.entries[key] == entries[key]
  {
    SplitDistinct(older + [key], n);
    assert (older + [key])[n..][|older| - n] == key;
  }

  lemma SplitDistinct(order: seq<string>, n: nat)
    requires Distinct(order) && n <= |order|
    ensures Distinct(order[n..])
    ensures forall key :: key in order <==> key in order[..n] || key in order[n..]
    ensures forall key :: !(key in order[..n] && key in order[n..])
  {
    assert order == order[..n] + order[n..];
    forall key | key in order[n..]
      ensures key !in order[..n]
    {
      var j :| 0 <= j < |order[n..]| && order[n..][j] == key;
      assert order[n + j] == key;
    }
  }

  lemma EvictedIsValid(entries: map<string, Icon>, older: seq<string>, key: string)
    requires Distinct(older + [key]) && forall k :: k in entries <==> k in older + [key]
    requires EncodedLen(entries[key]) <= MAX_BYTES
    ensures var kept := Kept(entries, older + [key], EvictionCount(entries, older + [key]));
      Valid(kept) && key in kept.entries && kept.entries[key] == entries[key]
  {
    hide EvictionCount, Total, Kept;
    var order := older + [key];
    EvictionIsShortest(entries, order);
    NewestStays(entries, older, key);
    var n := EvictionCount(entries, order);
    KeptIsExact(entries, order, n);
    KeptFits(entries, order, n);
    KeptNewest(entries, older, key, n);
  }

  lemma InsertKeepsValid(c: Cache, key: string, icon: Icon)
    requires Valid(c)
    ensures Valid(Inserted(c, key, icon))
    ensures EncodedLen(icon) <= MAX_BYTES ==>
      key in Inserted(c, key, icon).entries && Inserted(c, key, icon).entries[key] == icon
  {
    hide EvictionCount, Total, Kept, Without;
    if EncodedLen(icon) <= MAX_BYTES {
      WithoutFacts(c.order, key);
      EvictedIsValid(c.entries[key := icon], Without(c.order, key), key);
    }
  }

  lemma TouchKeepsValid(c: Cache, key: string)
    requires Valid(c)
    ensures Valid(Touched(c, key)) && Touched(c, key).entries == c.entries
  {
    if key in c.entries {
      WithoutFacts(c.order, key);
      TotalWithout(c.entries, c.order, key);
      TotalConcat(c.entries, Without(c.order, key), [key]);
      assert Total(c.entries, [key]) == EncodedLen(c.entries[key]);
    }
  }

  // ---------------------------------------------------------------- every run

  datatype CacheEvent = Get(key: string) | Insert(key: string, icon: Icon)

  ghost function Run(events: seq<CacheEvent>): (c: Cache)
    ensures Valid(c)
  {
    if events == [] then EmptyCache
    else
      var before, event := Run(events[..|events| - 1]), events[|events| - 1];
      match event
      case Get(key) => TouchKeepsValid(before, key); Touched(before, key)
      case Insert(key, icon) => InsertKeepsValid(before, key, icon); Inserted(before, key, icon)
  }

  /** The icon of the last insertion under a key that was not over the limit. */
  function LastAccepted(events: seq<CacheEvent>, key: string): Option<Icon> {
    if events == [] then None
    else
      var event := events[|events| - 1];
      if event.Insert? && event.key == key && EncodedLen(event.icon) <= MAX_BYTES then Some(event.icon)
      else LastAccepted(events[..|events| - 1], key)
  }

  /** After every run the cache is exact and within its limits, and whatever it still holds under a
      key is the last accepted insertion under that key. */
  lemma {:induction false} HitsAreLastAccepted(events: seq<CacheEvent>, key: string)
    requires key in Run(events).entries
    ensures LastAccepted(events, key) == Some(Run(events).entries[key])
  {
    if events != [] {
      var earlier, event := events[..|events| - 1], events[|events| - 1];
      var before := Run(earlier);
      if !(event.Insert? && event.key == key && EncodedLen(event.icon) <= MAX_BYTES) {
        assert key in before.entries && before.entries[key] == Run(events).entries[key];
        HitsAreLastAccepted(earlier, key);
      } else {
        InsertKeepsValid(before, key, event.icon);
      }
    }
  }

  // ---------------------------------------------------------------- the order of use

  /** A hit, an attempt at one, or an accepted insertion. */
  predicate Uses(event: CacheEvent, key: string) {
    event.key == key && (event.Insert? ==> EncodedLen(event.icon) <= MAX_BYTES)
  }

  /** The number of events up to the last use of a key. */
  function LastUse(events: seq<CacheEvent>, key: string): (n: nat)
    ensures n <= |events|
  {
    if events == [] then 0
    else if Uses(events[|events| - 1], key) then |events|
    else LastUse(events[..|events| - 1], key)
  }

  /** The keys in the order of their last use. */
  ghost predicate ByLastUse(events: seq<CacheEvent>, order: seq<string>) {
    forall i, j | 0 <= i < j < |order| :: LastUse(events, order[i]) < LastUse(events, order[j])
  }

  lemma WithoutAt(order: seq<string>, key: string)
    requires key in order
    ensures |Without(order, key)| == |order| - 1
    ensures forall i | 0 <= i < |order| - 1 ::
      Without(order, key)[i] == order[if i < Position(order, key) then i else i + 1]
  {
    hide Position;
  }

  lemma WithoutKeepsOrder(events: seq<CacheEvent>, order: seq<string>, key: string)
    requires ByLastUse(events, order)
    ensures ByLastUse(events, Without(order, key))
  {
    hide LastUse;
    if key in order {
      WithoutAt(order, key);
      hide Without, Position;
      var k, rest := Position(order, key), Without(order, key);
      forall i, j | 0 <= i < j < |rest|
        ensures LastUse(events, rest[i]) < LastUse(events, rest[j])
      {
        assert rest[i] == order[if i < k then i else i + 1] && rest[j] == order[if j < k then j else j + 1];
      }
    }
  }

  /** The key just used goes to the end. */
  lemma LatestIsInOrder(events: seq<CacheEvent>, event: CacheEvent, order: seq<string>, key: string)
    requires ByLastUse(events, order) && Distinct(order) && Uses(event, key)
    ensures ByLastUse(events + [event], Latest(order, key))
  {
    var all, rest := events + [event], Without(order, key);
    assert all[..|all| - 1] == events;
    WithoutKeepsOrder(events, order, key);
    WithoutFacts(order, key);
    forall i, j | 0 <= i < j < |rest| + 1
      ensures LastUse(all, Latest(order, key)[i]) < LastUse(all, Latest(order, key)[j])
    {
      assert rest[i] != key && (j < |rest| ==> rest[j] != key);
      assert LastUse(all, rest[i]) == LastUse(events, rest[i]);
      if j < |rest| { assert LastUse(all, rest[j]) == LastUse(events, rest[j]); }
    }
  }

  lemma UnusedKeepOrder(events: seq<CacheEvent>, event: CacheEvent, order: seq<string>)
    requires ByLastUse(events, order) && forall k | k in order :: !Uses(event, k)
    ensures ByLastUse(events + [event], order)
  {
    assert (events + [event])[..|events|] == events;
  }

  /** After every run the cache lists its keys by their last use, hits included: what an insertion evicts
      has not been used for longest. */
  lemma {:induction false} OrderIsByLastUse(events: seq<CacheEvent>)
    ensures ByLastUse(events, Run(events).order)
    decreases |events|
  {
    hide LastUse, ByLastUse, Kept, EvictionCount;
    if events == [] {
      NothingIsInOrder();
    } else {
      var earlier, event := events[..|events| - 1], events[|events| - 1];
      var before := Run(earlier);
      OrderIsByLastUse(earlier);
      assert earlier + [event] == events;
      if (event.Get? && event.key !in before.entries) || (event.Insert? && EncodedLen(event.icon) > MAX_BYTES) {
        UnusedKeepOrder(earlier, event, before.order);
      } else {
        LatestIsInOrder(earlier, event, before.order, event.key);
        if event.Insert? { SuffixInOrder(events, before, event.key, event.icon); }
      }
    }
  }

  lemma NothingIsInOrder()
    ensures ByLastUse([], [])
  {
  }

  lemma SuffixInOrder(events: seq<CacheEvent>, c: Cache, key: string, icon: Icon)
    requires Exact(c) && EncodedLen(icon) <= MAX_BYTES && ByLastUse(events, Latest(c.order, key))
    ensures ByLastUse(events, Inserted(c, key, icon).order)
  {
    hide ByLastUse, Exact;
    WithoutOfExact(c, key);
    EndInOrder(events, Latest(c.order, key), EvictionCount(c.entries[key := icon], Latest(c.order, key)));
  }

  lemma WithoutOfExact(c: Cache, key: string)
    requires Exact(c)
    ensures Distinct(c.order) && forall k | k in Without(c.order, key) :: k in c.entries
  {
    WithoutFacts(c.order, key);
  }

  lemma EndInOrder(events: seq<CacheEvent>, order: seq<string>, n: nat)
    requires ByLastUse(events, order) && n <= |order|
    ensures ByLastUse(events, order[n..])
  {
    hide LastUse;
    assert forall i | 0 <= i < |order| - n :: order[n..][i] == order[n + i];
  }

  // ---------------------------------------------------------------- the cache object

  class IconCache {
    var entries: map<string, Icon>
    var order: seq<string>
    var bytes: nat

    ghost function View(): Cache
      reads this
    {
      Cache(entries, order, bytes)
    }

    constructor ()
      ensures View() == EmptyCache && Valid(View())
    {
      entries, order, bytes := map[], [], 0;
    }

    /** A hit moves its key to the most recently used end. */
    method Get(key: string) returns (hit: Option<Icon>)
      requires Valid(View())
      modifies this
      ensures Valid(View()) && View() == Touched(old(View()), key)
      ensures hit == if key in old(entries) then Some(old(entries)[key]) else None
    {
      TouchKeepsValid(View(), key);
      if key !in entries {
        return None;
      }
      order := RemoveAt(order, Position(order, key)) + [key];
      return Some(entries[key]);
    }

    method Insert(key: string, icon: Icon)
      requires Valid(View())
      modifies this
      ensures Valid(View()) && View() == Inserted(old(View()), key, icon)
    {
      hide Valid, Kept, EvictionCount;
      var size := EncodedLen(icon);
      InsertKeepsValid(View(), key, icon);
      if size > MAX_BYTES {
        return;
      }
      assert Exact(View()) by { ValidIsExact(View()); }
      Replace(key, icon);
      EvictToLimits();
    }

    /** Takes an earlier icon under the key out and puts the new one at the recent end. */
    method Replace(key: string, icon: Icon)
      requires Exact(View())
      modifies this
      ensures Exact(View()) && entries == old(entries)[key := icon] && order == Latest(old(order), key)
    {
      hide Exact, Total, RemoveAt, Distinct, Position, Holds;
      ghost var target := Replaced(View(), key, icon);
      var previous := if key in entries then EncodedLen(entries[key]) else 0;
      order := (if key in entries then RemoveAt(order, Position(order, key)) else order) + [key];
      bytes := SaturatingSub(bytes, previous) + EncodedLen(icon);
      entries := entries[key := icon];
      assert View() == target;
    }

    method EvictToLimits()
      requires Exact(View())
      modifies this
      ensures View() == EvictedAll(old(View()))
    {
      hide EvictedAll, Exact;
      CachedCount(View());
      while |entries| > MAX_ENTRIES || bytes > MAX_BYTES
        invariant Exact(View()) && |entries| == |order|
        invariant EvictedAll(View()) == EvictedAll(old(View()))
        decreases |order|
      {
        if order == [] {
          break;
        }
        ghost var before := View();
        OldestIsCached(before);
        EvictStep(before);
        var oldest := order[0];
        order := order[1..];
        if oldest in entries {
          bytes := SaturatingSub(bytes, EncodedLen(entries[oldest]));
          entries := entries - {oldest};
        }
        assert View() == DropOldest(before);
        CachedCount(View());
      }
      NothingToEvict(View());
    }
  }

  function DropOldest(c: Cache): Cache
    requires c.order != [] && c.order[0] in c.entries && EncodedLen(c.entries[c.order[0]]) <= c.bytes
  {
    Cache(c.entries - {c.order[0]}, c.order[1..], c.bytes - EncodedLen(c.entries[c.order[0]]))
  }

  /** What eviction leaves. */
  ghost function EvictedAll(c: Cache): Cache
    requires Exact(c)
  {
    Kept(c.entries, c.order, EvictionCount(c.entries, c.order))
  }

  lemma ValidIsExact(c: Cache)
    requires Valid(c)
    ensures Exact(c)
  {
  }

  lemma OldestIsCached(c: Cache)
    requires Exact(c) && c.order != []
    ensures c.order[0] in c.entries && EncodedLen(c.entries[c.order[0]]) <= c.bytes
  {
    assert c.order[0] in c.order;
  }

  ghost function Replaced(c: Cache, key: string, icon: Icon): (after: Cache)
    requires Exact(c)
    ensures Exact(after)
    ensures after.order == (if key in c.entries then Without(c.order, key) else c.order) + [key]
    ensures key in c.entries ==> key in c.order && c.bytes >= EncodedLen(c.entries[key])
    ensures after.bytes
      == EncodedLen(icon) + (if key in c.entries then c.bytes - EncodedLen(c.entries[key]) else c.bytes)
    ensures after.entries == c.entries[key := icon] && after.order == Latest(c.order, key)
  {
    KeysAreOrdered(c, key);
    ReplacedTotal(c, key, icon);
    var entries, order := c.entries[key := icon], Latest(c.order, key);
    Cache(entries, order, Total(entries, order))
  }

  lemma KeysAreOrdered(c: Cache, key: string)
    requires Exact(c)
    ensures key in c.entries <==> key in c.order
  {
  }

  lemma {:induction false} SameEvictionCount(a: map<string, Icon>, b: map<string, Icon>, order: seq<string>)
    requires Holds(a, order) && Holds(b, order) && forall key | key in order :: a[key] == b[key]
    ensures EvictionCount(a, order) == EvictionCount(b, order)
  {
    SameTotal(a, b, order);
    if order != [] && !Fits(a, order) {
      SameEvictionCount(a, b, order[1..]);
    }
  }

  lemma DropKeepsExact(c: Cache)
    requires Exact(c) && c.order != []
    ensures c.order[0] in c.entries && EncodedLen(c.entries[c.order[0]]) <= c.bytes
    ensures Exact(DropOldest(c))
  {
    OldestIsCached(c);
    var oldest, rest := c.order[0], c.order[1..];
    assert c.order == [oldest] + rest;
    assert oldest !in rest;
    SameTotal(c.entries, DropOldest(c).entries, rest);
  }

  /** Over the limits, evicting everything starts with the least recently used key. */
  lemma EvictStep(c: Cache)
    requires Exact(c) && c.order != []
    requires |c.order| > MAX_ENTRIES || c.bytes > MAX_BYTES
    ensures c.order[0] in c.entries && EncodedLen(c.entries[c.order[0]]) <= c.bytes
    ensures Exact(DropOldest(c)) && EvictedAll(DropOldest(c)) == EvictedAll(c)
  {
    hide Kept, EvictionCount, Total;
    DropKeepsExact(c);
    assert c.order == [c.order[0]] + c.order[1..];
    EvictionStep(c.entries, DropOldest(c).entries, c.order);
  }

  lemma EvictionStep(a: map<string, Icon>, b: map<string, Icon>, order: seq<string>)
    requires order != [] && Holds(a, order) && !Fits(a, order)
    requires b == a - {order[0]} && order[0] !in order[1..]
    ensures Holds(b, order[1..])
    ensures Kept(a, order, EvictionCount(a, order)) == Kept(b, order[1..], EvictionCount(b, order[1..]))
  {
    hide Kept, Fits, Total;
    var rest := order[1..];
    assert Holds(b, rest);
    SameEvictionCount(a, b, rest);
    SameKept(a, b, order, EvictionCount(a, rest));
  }

  /** Evicting one key more from the whole order is evicting the rest from what the first left. */
  lemma SameKept(a: map<string, Icon>, b: map<string, Icon>, order: seq<string>, n: nat)
    requires order != [] && Holds(a, order) && Holds(b, order[1..]) && n < |order|
    requires b == a - {order[0]}
    ensures Kept(a, order, n + 1) == Kept(b, order[1..], n)
  {
    var rest := order[1..];
    assert order[..n + 1] == [order[0]] + rest[..n] && order[n + 1..] == rest[n..];
    assert Holds(a, rest[n..]) && Holds(b, rest[n..]);
    SameTotal(a, b, rest[n..]);
    assert Kept(a, order, n + 1).entries == Kept(b, rest, n).entries;
  }

  lemma NothingToEvict(c: Cache)
    requires Exact(c) && (c.order == [] || (|c.order| <= MAX_ENTRIES && c.bytes <= MAX_BYTES))
    ensures EvictedAll(c) == c
  {
    assert c.order[..0] == [] && c.order[0..] == c.order;
  }

  lemma CachedCount(c: Cache)
    requires Exact(c)
    ensures |c.entries| == |c.order|
  {
    DistinctCount(c.order);
    assert c.entries.Keys == set key | key in c.order;
    assert |c.entries| == |c.entries.Keys|;
  }

  lemma {:induction false} DistinctCount(order: seq<string>)
    requires Distinct(order)
    ensures |(set key | key in order)| == |order|
  {
    if order != [] {
      DistinctCount(order[1..]);
      assert (set key | key in order) == (set key | key in order[1..]) + {order[0]};
    }
  }

  lemma ReplacedTotal(c: Cache, key: string, icon: Icon)
    requires Exact(c)
    ensures var entries, order := c.entries[key := icon], Latest(c.order, key);
      && Exact(Cache(entries, order, Total(entries, order)))
      && Total(entries, order)
         == EncodedLen(icon) + (if key in c.entries then c.bytes - EncodedLen(c.entries[key]) else c.bytes)
      && (key in c.entries ==> c.bytes >= EncodedLen(c.entries[key]))
  {
    var entries, rest := c.entries[key := icon], Without(c.order, key);
    WithoutFacts(c.order, key);
    SameTotal(entries, c.entries, rest);
    TotalConcat(entries, rest, [key]);
    assert Total(entries, [key]) == EncodedLen(icon);
    if key in c.entries {
      TotalWithout(c.entries, c.order, key);
    }
  }
}
