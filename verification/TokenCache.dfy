/** The OAuth2 token cache under interleaving: the lock is released while a token is fetched. The
    token endpoint and the clock are the environment's; the clock never goes back. */
module TokenCache {
  import opened Wrappers
  import opened Seqs

  const MAX_TOKENS: nat := 32
  const REFRESH_MARGIN: nat := 10
  const DEFAULT_LIFETIME: nat := 300
  const MAX_LIFETIME: nat := 86_400

  /** Configuration, TLS and proxy together; their contents do not matter here. */
  datatype TokenKey = TokenKey(config: string, tls: string, proxy: string)

  /** Tokens are numbered in the order they are issued. */
  type Token = nat

  datatype CachedToken = CachedToken(key: TokenKey, token: Token, expiresAt: nat)

  /** The lifetime of a response by its `expires_in`: zero is refused, longer ones are capped. */
  function Lifetime(expiresIn: Option<nat>): (r: Option<nat>)
    ensures r.Some? ==> 0 < r.value <= MAX_LIFETIME
    ensures r.None? <==> expiresIn == Some(0)
    ensures expiresIn.Some? && expiresIn.value <= MAX_LIFETIME && r.Some? ==> r == expiresIn
    ensures expiresIn.Some? && expiresIn.value > MAX_LIFETIME ==> r == Some(MAX_LIFETIME)
    ensures expiresIn.None? ==> r == Some(DEFAULT_LIFETIME)
  {
    match expiresIn
    case None => Some(DEFAULT_LIFETIME)
    case Some(seconds) => if seconds == 0 then None else Some(Min(seconds, MAX_LIFETIME))
  }

  // ---------------------------------------------------------------- the locked sections

  function Usable(key: TokenKey, deadline: nat): CachedToken -> bool {
    (c: CachedToken) => c.key == key && c.expiresAt > deadline
  }

  function OtherThan(key: TokenKey): CachedToken -> bool {
    (c: CachedToken) => c.key != key
  }

  function CacheKey(c: CachedToken): TokenKey { c.key }

  function Keys(cache: seq<CachedToken>): seq<TokenKey> { Map(cache, CacheKey) }

  function Lookup(cache: seq<CachedToken>, key: TokenKey, deadline: nat): (r: Option<CachedToken>)
    ensures r.Some? ==> r.value in cache && r.value.key == key && r.value.expiresAt > deadline
    ensures r.None? ==> forall c | c in cache :: !(c.key == key && c.expiresAt > deadline)
  {
    match FirstIndex(cache, Usable(key, deadline))
    case Some(i) => Some(cache[i])
    case None => None
  }

  /** Replaces the key's token, newest last, and drops the oldest entry over the limit. */
  function Stored(cache: seq<CachedToken>, entry: CachedToken): seq<CachedToken> {
    var grown := Filter(cache, OtherThan(entry.key)) + [entry];
    if |grown| > MAX_TOKENS then grown[1..] else grown
  }

  /** Bounded, one entry per key, in the order of storing. */
  ghost predicate CacheOk(cache: seq<CachedToken>, stores: seq<CachedToken>) {
    |cache| <= MAX_TOKENS && Distinct(Keys(cache)) && Subsequence(cache, stores)
  }

  lemma {:induction false} FilterKeepsKeysDistinct(cache: seq<CachedToken>, p: CachedToken -> bool)
    requires Distinct(Keys(cache))
    ensures Distinct(Keys(Filter(cache, p)))
  {
    if cache != [] {
      var rest, kept := cache[1..], Filter(cache[1..], p);
      assert forall i | 0 <= i < |rest| :: Keys(rest)[i] == Keys(cache)[i + 1];
      FilterKeepsKeysDistinct(rest, p);
      forall j | 0 <= j < |kept|
        ensures kept[j].key != cache[0].key
      {
        assert kept[j] in rest;
        var i :| 0 <= i < |rest| && rest[i] == kept[j];
        assert Keys(cache)[i + 1] != Keys(cache)[0];
      }
      forall i, j | 0 <= i < j < |kept| + 1
        ensures Keys([cache[0]] + kept)[i] != Keys([cache[0]] + kept)[j]
      {
        if i > 0 { assert Keys(kept)[i - 1] != Keys(kept)[j - 1]; }
      }
    }
  }

  /** Storing keeps the cache in shape. */
  lemma StoringKeepsCache(cache: seq<CachedToken>, stores: seq<CachedToken>, entry: CachedToken)
    requires CacheOk(cache, stores)
    ensures CacheOk(Stored(cache, entry), stores + [entry])
  {
    hide Subsequence, Filter, Distinct;
    var kept := Filter(cache, OtherThan(entry.key));
    FilterKeepsKeysDistinct(cache, OtherThan(entry.key));
    FilterSubsequence(cache, stores, OtherThan(entry.key));
    SubsequenceExtends(kept, stores, entry);
    GrownKeysDistinct(kept, entry);
    if |kept + [entry]| > MAX_TOKENS {
      SubsequenceConcatStart(kept + [entry], stores + [entry]);
      DroppedKeysDistinct(kept + [entry]);
    }
  }

  /** The stored entry is the newest one, and no other key is touched unless the cache was full: then
      exactly the oldest entry goes. */
  lemma StoringTouchesNoOtherKey(cache: seq<CachedToken>, stores: seq<CachedToken>, entry: CachedToken)
    requires CacheOk(cache, stores)
    ensures Stored(cache, entry) != [] && Stored(cache, entry)[|Stored(cache, entry)| - 1] == entry
    ensures forall c | c in cache && c.key != entry.key ::
      c in Stored(cache, entry) || (|cache| == MAX_TOKENS && c == Filter(cache, OtherThan(entry.key))[0])
  {
    hide Filter, Subsequence;
    var kept := Filter(cache, OtherThan(entry.key));
    var grown := kept + [entry];
    forall c | c in cache && c.key != entry.key
      ensures c in Stored(cache, entry) || (|cache| == MAX_TOKENS && c == kept[0])
    {
      var i :| 0 <= i < |kept| && kept[i] == c;
      assert grown[i] == c;
      if |grown| > MAX_TOKENS && i > 0 {
        assert grown[1..][i - 1] == c;
      }
    }
  }

  lemma DroppedKeysDistinct(grown: seq<CachedToken>)
    requires Distinct(Keys(grown)) && grown != []
    ensures Distinct(Keys(grown[1..]))
  {
    assert forall i | 0 <= i < |grown| - 1 :: Keys(grown[1..])[i] == Keys(grown)[i + 1];
  }

  lemma GrownKeysDistinct(kept: seq<CachedToken>, entry: CachedToken)
    requires Distinct(Keys(kept)) && forall c | c in kept :: c.key != entry.key
    ensures Distinct(Keys(kept + [entry]))
  {
    var grown := kept + [entry];
    forall i, j | 0 <= i < j < |grown|
      ensures Keys(grown)[i] != Keys(grown)[j]
    {
      if j == |kept| {
        assert grown[i] in kept;
      } else {
        assert Keys(kept)[i] != Keys(kept)[j];
      }
    }
  }

  lemma InvalidationKeepsCache(cache: seq<CachedToken>, stores: seq<CachedToken>, key: TokenKey)
    requires CacheOk(cache, stores)
    ensures CacheOk(Filter(cache, OtherThan(key)), stores)
  {
    FilterKeepsKeysDistinct(cache, OtherThan(key));
    FilterSubsequence(cache, stores, OtherThan(key));
  }

  // ---------------------------------------------------------------- interleaved calls

  type CallId = nat

  /** How a call came by what it returned: found by the check before fetching or by the one after it,
      or fetched. */
  datatype How = FoundBefore | FoundAfter | Fetched

  datatype Stage =
    | Checking
    | Fetching
    | Holding(token: Token, expiresAt: nat)
    | Returned(token: Token, at: nat, how: How)
    | Failed

  datatype Call = Call(key: TokenKey, force: bool, startedAt: nat, stage: Stage)

  /** What the endpoint gave out: token `t` was issued to `issued[t].call`. */
  datatype Issue = Issue(key: TokenKey, expiresAt: nat, call: CallId)

  datatype State = State(
    clock: nat, cache: seq<CachedToken>, issued: seq<Issue>, stores: seq<CachedToken>, calls: map<CallId, Call>)

  const Initial := State(0, [], [], [], map[])

  datatype Event =
    | Tick(later: nat)
    | Begin(call: CallId, newKey: TokenKey, forced: bool)
    | Check(call: CallId)
    | Receive(call: CallId, expiresIn: Option<nat>)
    | Store(call: CallId)
    | Fail(call: CallId)
    | Invalidate(key: TokenKey)

  predicate Enabled(s: State, event: Event) {
    match event
    case Tick(later) => s.clock <= later
    case Begin(id, _, _) => id !in s.calls
    case Check(id) => id in s.calls && s.calls[id].stage.Checking?
    case Receive(id, expiresIn) => id in s.calls && s.calls[id].stage.Fetching? && Lifetime(expiresIn).Some?
    case Store(id) => id in s.calls && s.calls[id].stage.Holding?
    case Fail(id) => id in s.calls && (s.calls[id].stage.Checking? || s.calls[id].stage.Fetching?)
    case Invalidate(_) => true
  }

  function At(s: State, id: CallId, stage: Stage): State
    requires id in s.calls
  {
    s.(calls := s.calls[id := s.calls[id].(stage := stage)])
  }

  /** What a call has in hand after fetching. */
  function Held(call: Call): CachedToken
    requires call.stage.Holding?
  {
    CachedToken(call.key, call.stage.token, call.stage.expiresAt)
  }

  function Step(s: State, event: Event): State
    requires Enabled(s, event)
  {
    match event
    case Tick(later) => s.(clock := later)
    case Begin(id, key, force) => s.(calls := s.calls[id := Call(key, force, s.clock, Checking)])
    case Check(id) =>
      var call := s.calls[id];
      var hit := if call.force then None else Lookup(s.cache, call.key, call.startedAt + REFRESH_MARGIN);
      if hit.Some? then At(s, id, Returned(hit.value.token, s.clock, FoundBefore)) else At(s, id, Fetching)
    case Receive(id, expiresIn) =>
      var expiresAt := s.clock + Lifetime(expiresIn).value;
      At(s, id, Holding(|s.issued|, expiresAt)).(issued := s.issued + [Issue(s.calls[id].key, expiresAt, id)])
    case Store(id) =>
      var call := s.calls[id];
      var hit := if call.force then None else Lookup(s.cache, call.key, s.clock);
      if hit.Some? then At(s, id, Returned(hit.value.token, s.clock, FoundAfter))
      else At(s, id, Returned(call.stage.token, s.clock, Fetched)).(
        cache := Stored(s.cache, Held(call)), stores := s.stores + [Held(call)])
    case Fail(id) => At(s, id, Failed)
    case Invalidate(key) => s.(cache := Filter(s.cache, OtherThan(key)))
  }

  /** Against what the endpoint issued: a call holds a token issued to itself; it returns a token for its
      own key, which was issued to itself if it fetched or was forced, and otherwise had not expired at
      the check that found it. */
  ghost predicate CallOk(s: State, id: CallId)
    requires id in s.calls
  {
    var call := s.calls[id];
    && call.startedAt <= s.clock
    && match call.stage
       case Holding(token, expiresAt) => token < |s.issued| && s.issued[token] == Issue(call.key, expiresAt, id)
       case Returned(token, at, how) =>
         && call.startedAt <= at <= s.clock
         && token < |s.issued| && s.issued[token].key == call.key
         && (how == Fetched || call.force ==> s.issued[token].call == id)
         && (how == FoundBefore ==> s.issued[token].expiresAt > call.startedAt + REFRESH_MARGIN)
         && (how == FoundAfter ==> s.issued[token].expiresAt > at)
       case _ => true
  }

  /** A cached token is one the endpoint issued for that key, until that time. */
  predicate CachedAsIssued(s: State, c: CachedToken) {
    c.token < |s.issued| && s.issued[c.token].key == c.key && s.issued[c.token].expiresAt == c.expiresAt
  }

  ghost predicate Invariant(s: State) {
    && CacheOk(s.cache, s.stores)
    && (forall c | c in s.cache :: CachedAsIssued(s, c))
    && (forall id | id in s.calls :: CallOk(s, id))
  }

  lemma CheckKeepsInvariant(s: State, id: CallId)
    requires Invariant(s) && Enabled(s, Check(id))
    ensures Invariant(Step(s, Check(id)))
  {
    hide CacheOk, Stored, Filter, Lookup, Lifetime;
  }

  lemma ReceiveKeepsInvariant(s: State, id: CallId, expiresIn: Option<nat>)
    requires Invariant(s) && Enabled(s, Receive(id, expiresIn))
    ensures Invariant(Step(s, Receive(id, expiresIn)))
  {
    hide CacheOk, Stored, Filter, Lookup, Lifetime;
  }

  lemma StoreKeepsInvariant(s: State, id: CallId)
    requires Invariant(s) && Enabled(s, Store(id))
    ensures Invariant(Step(s, Store(id)))
  {
    hide CacheOk, Stored, Filter, Lookup, Lifetime;
    StoringKeepsCache(s.cache, s.stores, Held(s.calls[id]));
    StoredHoldsOldAndNew(s.cache, Held(s.calls[id]));
  }

  lemma StepKeepsInvariant(s: State, event: Event)
    requires Invariant(s) && Enabled(s, event)
    ensures Invariant(Step(s, event))
  {
    hide CacheOk, Stored, Filter, Lookup, Lifetime;
    match event
    case Check(id) => CheckKeepsInvariant(s, id);
    case Receive(id, expiresIn) => ReceiveKeepsInvariant(s, id, expiresIn);
    case Store(id) => StoreKeepsInvariant(s, id);
    case Invalidate(key) => InvalidationKeepsCache(s.cache, s.stores, key);
    case _ =>
  }

  lemma StoredHoldsOldAndNew(cache: seq<CachedToken>, entry: CachedToken)
    ensures forall c | c in Stored(cache, entry) :: c in cache || c == entry
  {
  }

  /** The records the invariant speaks about are those of the steps themselves: a call keeps the key, the
      flag and the starting time it began with; it returns at the time of its check, before or after
      fetching; tokens are issued only when a call that was fetching receives one. */
  lemma StepsAreRecorded(s: State, event: Event)
    requires Invariant(s) && Enabled(s, event)
    ensures var after := Step(s, event);
      && s.clock <= after.clock
      && (forall id | id in s.calls :: id in after.calls && after.calls[id].(stage := s.calls[id].stage) == s.calls[id])
      && (forall id | id in s.calls && s.calls[id].stage.Returned? :: after.calls[id] == s.calls[id])
      && (forall id | id in after.calls && id !in s.calls ::
            event == Begin(id, after.calls[id].key, after.calls[id].force) && after.calls[id].startedAt == s.clock)
      && (forall id | id in after.calls && after.calls[id].stage.Returned? ::
            (id in s.calls ==> !s.calls[id].stage.Returned?) ==>
              && after.calls[id].stage.at == s.clock
              && event == (if after.calls[id].stage.how == FoundBefore then Check(id) else Store(id)))
      && s.issued <= after.issued
      && (forall t | |s.issued| <= t < |after.issued| ::
            && event.Receive? && event.call in s.calls && s.calls[event.call].stage.Fetching?
            && after.issued[t].call == event.call && after.issued[t].key == s.calls[event.call].key
            && Some(after.issued[t].expiresAt - s.clock) == Lifetime(event.expiresIn))
  {
    hide CacheOk, Stored, Filter, Lookup, Lifetime, CallOk;
  }

  predicate Possible(s: State, events: seq<Event>)
    decreases |events|
  {
    events == [] || (Enabled(s, events[0]) && Possible(Step(s, events[0]), events[1..]))
  }

  function Run(s: State, events: seq<Event>): State
    requires Possible(s, events)
    decreases |events|
  {
    if events == [] then s else Run(Step(s, events[0]), events[1..])
  }

  /** Under every interleaving of any number of calls and invalidations: the cache is bounded, has one
      entry per key and lists entries in the order they were stored; every returned token was issued
      for exactly the key asked for, to the call itself if it was forced or fetched, and otherwise had
      not expired at the check that found it. */
  lemma {:induction false} EveryInterleavingIsSafe(s: State, events: seq<Event>)
    requires Invariant(s) && Possible(s, events)
    ensures Invariant(Run(s, events))
    decreases |events|
  {
    if events != [] {
      StepKeepsInvariant(s, events[0]);
      EveryInterleavingIsSafe(Step(s, events[0]), events[1..]);
    }
  }

  lemma NothingCachedIsSafe()
    ensures Invariant(Initial)
  {
  }

  /** A call goes to the endpoint exactly when it is forced or finds no token of its key that is good for
      longer than the margin; otherwise it returns such a token and changes nothing else. */
  lemma CheckFetchesExactlyWhenItMust(s: State, id: CallId)
    requires Invariant(s) && Enabled(s, Check(id))
    ensures var after, call := Step(s, Check(id)), s.calls[id];
      var usable := exists c | c in s.cache :: c.key == call.key && c.expiresAt > call.startedAt + REFRESH_MARGIN;
      && after.cache == s.cache && after.issued == s.issued
      && (after.calls[id].stage.Fetching? <==> call.force || !usable)
      && (!call.force && usable ==>
            exists c | c in s.cache ::
              && c.key == call.key && c.expiresAt > call.startedAt + REFRESH_MARGIN
              && after.calls[id].stage == Returned(c.token, s.clock, FoundBefore))
  {
    hide Lookup;
  }

  /** A forced call returns the token the endpoint issued to it and leaves it as the newest entry. */
  lemma ForcedCallCachesItsToken(s: State, id: CallId)
    requires Invariant(s) && Enabled(s, Store(id)) && s.calls[id].force
    ensures var after := Step(s, Store(id));
      && after.calls[id].stage.Returned? && after.calls[id].stage.at == s.clock
      && after.issued[after.calls[id].stage.token].call == id
      && after.cache != []
      && var token := after.calls[id].stage.token;
         after.cache[|after.cache| - 1] == CachedToken(s.calls[id].key, token, after.issued[token].expiresAt)
  {
    hide CacheOk, Stored, Lookup;
    assert CallOk(s, id);
    StoringTouchesNoOtherKey(s.cache, s.stores, Held(s.calls[id]));
  }

  /** Two unforced calls for one key agree: the later one takes the earlier one's token while it is valid. */
  lemma SecondCallReusesFirst(s: State, first: CallId, second: CallId)
    requires Invariant(s) && Enabled(s, Store(first)) && Enabled(s, Store(second)) && first != second
    requires s.calls[first].key == s.calls[second].key && !s.calls[second].force
    requires s.calls[first].force || Lookup(s.cache, s.calls[first].key, s.clock).None?
    requires s.calls[first].stage.expiresAt > s.clock
    ensures var mid := Step(s, Store(first));
      && Enabled(mid, Store(second))
      && Step(mid, Store(second)).calls[second].stage == Returned(s.calls[first].stage.token, s.clock, FoundAfter)
  {
    hide CacheOk, Lookup, Stored;
    var entry := Held(s.calls[first]);
    StoringKeepsCache(s.cache, s.stores, entry);
    StoringTouchesNoOtherKey(s.cache, s.stores, entry);
    NewestIsFound(Stored(s.cache, entry), s.stores + [entry], entry, s.clock);
  }

  lemma NewestIsFound(cache: seq<CachedToken>, stores: seq<CachedToken>, entry: CachedToken, deadline: nat)
    requires CacheOk(cache, stores) && cache != [] && cache[|cache| - 1] == entry && entry.expiresAt > deadline
    ensures Lookup(cache, entry.key, deadline) == Some(entry)
  {
    hide Subsequence, FirstIndex;
    var n := |cache| - 1;
    var hit := FirstIndex(cache, Usable(entry.key, deadline));
    assert Usable(entry.key, deadline)(cache[n]);
    assert Keys(cache)[hit.value] == Keys(cache)[n];
    DistinctPosition(Keys(cache), hit.value, n);
  }

  // ---------------------------------------------------------------- the provider object

  class OAuth2TokenProvider {
    var cache: seq<CachedToken>
    ghost var stores: seq<CachedToken>

    ghost predicate Valid()
      reads this
    {
      CacheOk(cache, stores)
    }

    constructor ()
      ensures Valid() && cache == [] && stores == []
    {
      cache, stores := [], [];
    }

    /** The section before fetching; a forced call never reuses. */
    method CheckCache(key: TokenKey, force: bool, now: nat) returns (hit: Option<CachedToken>)
      ensures hit == if force then None else Lookup(cache, key, now + REFRESH_MARGIN)
    {
      if force {
        return None;
      }
      return Lookup(cache, key, now + REFRESH_MARGIN);
    }

    /** The section after fetching: another call's valid token wins over an unforced fetch. */
    method StoreToken(entry: CachedToken, force: bool, now: nat) returns (token: Token)
      requires Valid()
      modifies this
      ensures Valid()
      ensures var hit := if force then None else Lookup(old(cache), entry.key, now);
        if hit.Some? then token == hit.value.token && cache == old(cache) && stores == old(stores)
        else token == entry.token && cache == Stored(old(cache), entry) && stores == old(stores) + [entry]
    {
      hide CacheOk, Lookup, Filter;
      if !force {
        var hit := Lookup(cache, entry.key, now);
        if hit.Some? {
          return hit.value.token;
        }
      }
      StoringKeepsCache(cache, stores, entry);
      cache := Filter(cache, OtherThan(entry.key));
      cache := cache + [entry];
      if |cache| > MAX_TOKENS {
        assert RemoveAt(cache, 0) == cache[1..];
        cache := RemoveAt(cache, 0);
      }
      stores := stores + [entry];
      return entry.token;
    }

    method Invalidate(key: TokenKey)
      requires Valid()
      modifies this
      ensures Valid() && stores == old(stores)
      ensures cache == Filter(old(cache), OtherThan(key))
    {
      InvalidationKeepsCache(cache, stores, key);
      cache := Filter(cache, OtherThan(key));
    }
  }
}
