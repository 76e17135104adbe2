/**
 The SDK's cache of permission answers and `checkBatch` over it (packages/sdk/src/permissionCache.ts
 and index.ts): what a batch sends, and where every answer it returns comes from.
 */
module CheckBatch {
  import opened Common
  import opened InsertionOrder
  import opened PermissionKeys

  // ------------------------------------------------------------------
  // The cache
  // ------------------------------------------------------------------

  datatype Entry = Entry(result: string, expiresAt: nat, staleUntil: nat)

  /** `order` is the insertion order of the entries. */
  datatype Cache = Cache(order: seq<string>, entries: map<string, Entry>)

  datatype Options = Options(enabled: bool, ttlMs: nat, maxEntries: nat, serveStaleOnRateLimit: bool, staleWhileRateLimitedMs: nat)

  const EMPTY_CACHE := Cache([], map[])

  ghost predicate Valid(c: Cache) {
    Distinct(c.order) && forall k :: k in c.order <==> k in c.entries
  }

  function FreshAnswer(o: Options, c: Cache, key: string, now: nat): Option<string> {
    if o.enabled && key in c.entries && now < c.entries[key].expiresAt then Some(c.entries[key].result) else None
  }

  function StaleAnswer(o: Options, c: Cache, key: string, now: nat): Option<string> {
    if o.enabled && o.serveStaleOnRateLimit && key in c.entries && now < c.entries[key].staleUntil then Some(c.entries[key].result) else None
  }

  function Deleted(c: Cache, drop: set<string>): Cache {
    Cache(Keep(c.order, drop), c.entries - drop)
  }

  /** Looking for a stale answer drops one that is past its stale window too. */
  function AfterGetStale(o: Options, c: Cache, key: string, now: nat): Cache {
    if o.enabled && o.serveStaleOnRateLimit && key in c.entries && c.entries[key].staleUntil <= now then Deleted(c, {key}) else c
  }

  function Put(o: Options, c: Cache, key: string, result: string, now: nat): Cache {
    var without := Deleted(c, {key});
    Cache(without.order + [key],
          without.entries[key := Entry(result, now + o.ttlMs, now + o.ttlMs + o.staleWhileRateLimitedMs)])
  }

  function Excess(c: Cache, max: nat): set<string> {
    if |c.order| <= max then {} else ToSet(c.order[..|c.order| - max])
  }

  /** A set moves its key to the end and drops the oldest keys beyond the cap. */
  function AfterSet(o: Options, c: Cache, key: string, result: string, now: nat): Cache {
    if !o.enabled then c
    else
      var put := Put(o, c, key, result, now);
      Deleted(put, Excess(put, o.maxEntries))
  }

  lemma DeletedValid(c: Cache, drop: set<string>)
    requires Valid(c)
    ensures Valid(Deleted(c, drop))
  {
    KeepDistinct(c.order, drop);
  }

  lemma PutValid(o: Options, c: Cache, key: string, result: string, now: nat)
    requires Valid(c)
    ensures Valid(Put(o, c, key, result, now))
  {
    hide Keep;
    DeletedValid(c, {key});
  }

  /** What a set leaves: the cap holds, and with room for one entry the answer just set is there. */
  lemma SetKeeps(o: Options, c: Cache, key: string, result: string, now: nat)
    requires Valid(c) && o.enabled
    ensures
      var after := AfterSet(o, c, key, result, now);
      && Valid(after) && |after.order| <= o.maxEntries
      && (0 < o.maxEntries ==> key in after.entries && after.entries[key].result == result && after.entries[key].expiresAt == now + o.ttlMs)
      && (forall k :: k in after.entries && k != key ==> k in c.entries && after.entries[k] == c.entries[k])
  {
    hide Keep;
    var put := Put(o, c, key, result, now);
    DeletedValid(c, {key});
    DeletedValid(put, Excess(put, o.maxEntries));
    if |put.order| <= o.maxEntries {
      KeepAll(put.order, {});
    } else {
      DropOldest(put.order, |put.order| - o.maxEntries);
    }
    var last := put.order[|put.order| - 1];
    assert 0 < o.maxEntries && o.maxEntries < |put.order| ==> put.order[|put.order| - o.maxEntries..][o.maxEntries - 1] == last;
  }

  class PermissionCache {
    const options: Options
    var order: seq<string>
    var entries: map<string, Entry>

    function View(): Cache
      reads this
    {
      Cache(order, entries)
    }

    constructor (o: Options)
      ensures options == o && View() == EMPTY_CACHE
    {
      options := o;
      order, entries := [], map[];
    }

    method Get(key: string, now: nat) returns (r: Option<string>)
      ensures r == FreshAnswer(options, View(), key, now)
    {
      if !options.enabled || key !in entries || entries[key].expiresAt <= now {
        return None;
      }
      return Some(entries[key].result);
    }

    method GetStale(key: string, now: nat) returns (r: Option<string>)
      modifies this
      ensures r == StaleAnswer(options, old(View()), key, now) && View() == AfterGetStale(options, old(View()), key, now)
    {
      if !options.enabled || !options.serveStaleOnRateLimit || key !in entries {
        return None;
      }
      if entries[key].staleUntil <= now {
        order, entries := Keep(order, {key}), entries - {key};
        return None;
      }
      return Some(entries[key].result);
    }

    method Set(key: string, result: string, now: nat)
      requires Valid(View())
      modifies this
      ensures View() == AfterSet(options, old(View()), key, result, now) && Valid(View())
    {
      hide Keep, Valid, Excess;
      if !options.enabled {
        return;
      }
      SetKeeps(options, View(), key, result, now);
      PutValid(options, View(), key, result, now);
      ghost var put := Put(options, View(), key, result, now);
      order, entries := Keep(order, {key}), entries - {key};
      order, entries := order + [key],
        entries[key := Entry(result, now + options.ttlMs, now + options.ttlMs + options.staleWhileRateLimitedMs)];
      Trim(put);
    }

    method Trim(ghost put: Cache)
      requires Valid(put) && View() == put
      modifies this
      ensures View() == Deleted(put, Excess(put, options.maxEntries))
    {
      hide Keep, Deleted, Valid;
      ghost var n := 0;
      NothingDeleted(put);
      while options.maxEntries < |order|
        invariant n <= |put.order| && order == put.order[n..] && View() == Deleted(put, ToSet(put.order[..n]))
        invariant n == 0 || options.maxEntries <= |order|
        decreases |order|
      {
        DeletedNext(put, n);
        order, entries := order[1..], entries - {order[0]};
        n := n + 1;
      }
      assert ToSet(put.order[..0]) == {};
    }

    method Clear()
      modifies this
      ensures View() == EMPTY_CACHE
    {
      order, entries := [], map[];
    }
  }

  // ------------------------------------------------------------------
  // What the cache serves, and how long
  // ------------------------------------------------------------------

  /** An answer is fresh for the lifetime from the set that kept it, and may be served stale for the window after that. */
  lemma SetIsServed(o: Options, c: Cache, key: string, result: string, at: nat, now: nat)
    requires Valid(c) && o.enabled && 0 < o.maxEntries
    ensures FreshAnswer(o, AfterSet(o, c, key, result, at), key, now) == if now < at + o.ttlMs then Some(result) else None
    ensures StaleAnswer(o, AfterSet(o, c, key, result, at), key, now) ==
            if o.serveStaleOnRateLimit && now < at + o.ttlMs + o.staleWhileRateLimitedMs then Some(result) else None
  {
    hide Put, Excess, Deleted;
    SetKeeps(o, c, key, result, at);
    KeptAsSet(o, c, key, result, at, key);
  }

  lemma KeptAsSet(o: Options, c: Cache, key: string, result: string, at: nat, k: string)
    requires o.enabled && k in AfterSet(o, c, key, result, at).entries
    ensures
      if k == key then AfterSet(o, c, key, result, at).entries[k] == Entry(result, at + o.ttlMs, at + o.ttlMs + o.staleWhileRateLimitedMs)
      else k in c.entries && AfterSet(o, c, key, result, at).entries[k] == c.entries[k]
  {
    hide Keep, Excess;
  }

  /** Looking for a stale answer changes no answer of any key from then on, and leaves none of its own key past its window. */
  lemma LookingDropsTheDead(o: Options, c: Cache, key: string, at: nat, k: string, now: nat)
    requires at <= now && forall x :: x in c.entries ==> c.entries[x].expiresAt <= c.entries[x].staleUntil
    ensures FreshAnswer(o, AfterGetStale(o, c, key, at), k, now) == FreshAnswer(o, c, k, now)
    ensures StaleAnswer(o, AfterGetStale(o, c, key, at), k, now) == StaleAnswer(o, c, k, now)
    ensures o.enabled && o.serveStaleOnRateLimit && key in AfterGetStale(o, c, key, at).entries ==> at < c.entries[key].staleUntil
    ensures !o.enabled || !o.serveStaleOnRateLimit ==> AfterGetStale(o, c, key, at) == c
  {
    hide Keep;
  }

  datatype Op = Set(key: string, result: string, at: nat) | LookStale(key: string, at: nat) | Clear

  function Done(o: Options, ops: seq<Op>): Cache {
    if ops == [] then EMPTY_CACHE
    else
      var c := Done(o, ops[..|ops| - 1]);
      match ops[|ops| - 1]
      case Set(key, result, at) => AfterSet(o, c, key, result, at)
      case LookStale(key, at) => AfterGetStale(o, c, key, at)
      case Clear => EMPTY_CACHE
  }

  /** The last set of a key that no clear has followed. */
  function LastSet(ops: seq<Op>, key: string): Option<Op> {
    if ops == [] then None
    else
      match ops[|ops| - 1]
      case Set(k, _, _) => if k == key then Some(ops[|ops| - 1]) else LastSet(ops[..|ops| - 1], key)
      case LookStale(_, _) => LastSet(ops[..|ops| - 1], key)
      case Clear => None
  }

  lemma {:induction false} EntriesAreLastSets(o: Options, ops: seq<Op>, k: string)
    requires k in Done(o, ops).entries
    ensures
      var last := LastSet(ops, k);
      && o.enabled && last.Some? && last.value.Set?
      && Done(o, ops).entries[k] == Entry(last.value.result, last.value.at + o.ttlMs, last.value.at + o.ttlMs + o.staleWhileRateLimitedMs)
  {
    hide Keep, AfterSet;
    var init := ops[..|ops| - 1];
    match ops[|ops| - 1]
    case Set(key, result, at) =>
      if o.enabled {
        KeptAsSet(o, Done(o, init), key, result, at, k);
        if k != key {
          EntriesAreLastSets(o, init, k);
        }
      } else {
        SetOff(o, Done(o, init), key, result, at);
        EntriesAreLastSets(o, init, k);
      }
    case LookStale(_, _) => EntriesAreLastSets(o, init, k);
    case Clear =>
  }

  lemma SetOff(o: Options, c: Cache, key: string, result: string, at: nat)
    requires !o.enabled
    ensures AfterSet(o, c, key, result, at) == c
  {
  }

  /**
   Whatever sets, stale lookups and clears came before: an answer served as fresh is that of the last set
   of its key, not cleared since, within its lifetime; one served stale is so within the window after it,
   and only when stale answers are on. A disabled cache serves nothing.
   */
  lemma ServedIsLastSet(o: Options, ops: seq<Op>, key: string, now: nat)
    ensures
      var served := FreshAnswer(o, Done(o, ops), key, now);
      served.Some? ==>
        && o.enabled && LastSet(ops, key).Some? && LastSet(ops, key).value.Set?
        && served.value == LastSet(ops, key).value.result && now < LastSet(ops, key).value.at + o.ttlMs
    ensures
      var stale := StaleAnswer(o, Done(o, ops), key, now);
      stale.Some? ==>
        && o.enabled && o.serveStaleOnRateLimit && LastSet(ops, key).Some? && LastSet(ops, key).value.Set?
        && stale.value == LastSet(ops, key).value.result
        && now < LastSet(ops, key).value.at + o.ttlMs + o.staleWhileRateLimitedMs
  {
    hide Done, LastSet;
    if key in Done(o, ops).entries {
      EntriesAreLastSets(o, ops, key);
    }
  }

  lemma NothingDeleted(c: Cache)
    requires Valid(c)
    ensures Deleted(c, ToSet(c.order[..0])) == c
  {
    assert ToSet(c.order[..0]) == {};
    KeepAll(c.order, {});
    assert c.entries - {} == c.entries;
  }

  lemma OneOlder(order: seq<string>, n: nat)
    requires n < |order|
    ensures ToSet(order[..n + 1]) == ToSet(order[..n]) + {order[n]}
  {
    assert order[..n + 1] == order[..n] + [order[n]];
  }

  lemma DeletedNext(c: Cache, n: nat)
    requires Valid(c) && n < |c.order|
    ensures
      var before := Deleted(c, ToSet(c.order[..n]));
      && before.order == c.order[n..]
      && Deleted(c, ToSet(c.order[..n + 1])) == Cache(before.order[1..], before.entries - {c.order[n]})
  {
    hide Keep, ToSet;
    DropOldest(c.order, n);
    DropOldest(c.order, n + 1);
    OneOlder(c.order, n);
    assert c.entries - (ToSet(c.order[..n]) + {c.order[n]}) == c.entries - ToSet(c.order[..n]) - {c.order[n]};
  }

  // ------------------------------------------------------------------
  // checkBatch
  // ------------------------------------------------------------------

  const CHECK_BATCH_MAX_ENTRIES: nat := 100

  datatype Reply = Wire(results: seq<string>) | RateLimited | Failed(error: string)

  /** One request's outcome, with the clock and the cache as other calls have left them by then. */
  datatype Round = Round(reply: Reply, now: nat, cache: Cache)

  datatype Error = ServerError(error: string) | RateLimitExceeded | InvalidWireData

  datatype Repeat = Repeat(index: nat, source: nat)

  function Cached(o: Options, c: Cache, keys: seq<string>, now: nat, i: nat): Option<string>
    requires i < |keys|
  {
    FreshAnswer(o, c, keys[i], now)
  }

  /** `pending` is the first position of each distinct key the cache does not answer, in order. */
  ghost predicate FirstUncached(o: Options, c: Cache, keys: seq<string>, now: nat, upTo: nat, pending: seq<nat>)
    requires upTo <= |keys|
  {
    && (forall n :: 0 <= n < |pending| ==> pending[n] < upTo && Cached(o, c, keys, now, pending[n]) == None)
    && (forall m, n :: 0 <= m < n < |pending| ==> pending[m] < pending[n] && keys[pending[m]] != keys[pending[n]])
    && FirstsCover(o, c, keys, now, upTo, pending)
  }

  /** Every uncached position has a pending one with its key at or before it. */
  ghost predicate FirstsCover(o: Options, c: Cache, keys: seq<string>, now: nat, upTo: nat, pending: seq<nat>)
    requires upTo <= |keys| && forall n :: 0 <= n < |pending| ==> pending[n] < upTo
  {
    forall i: nat :: i < upTo && Cached(o, c, keys, now, i) == None ==>
      exists n :: 0 <= n < |pending| && keys[pending[n]] == keys[i] && pending[n] <= i
  }

  /** Each repeat is an uncached position with the key of the pending position it names. */
  ghost predicate RepeatsOk(o: Options, c: Cache, keys: seq<string>, now: nat, upTo: nat, pending: seq<nat>, repeats: seq<Repeat>)
    requires upTo <= |keys|
  {
    forall r :: 0 <= r < |repeats| ==> RepeatOk(o, c, keys, now, upTo, pending, repeats[r])
  }

  ghost predicate RepeatOk(o: Options, c: Cache, keys: seq<string>, now: nat, upTo: nat, pending: seq<nat>, repeat: Repeat)
    requires upTo <= |keys|
  {
    && repeat.index < upTo && repeat.source in pending && repeat.source < |keys|
    && keys[repeat.source] == keys[repeat.index] && Cached(o, c, keys, now, repeat.index) == None
  }

  function IndexOf(repeat: Repeat): nat {
    repeat.index
  }

  /** Every uncached position is pending or repeats a pending one. */
  ghost predicate CoversRest(o: Options, c: Cache, keys: seq<string>, now: nat, upTo: nat, pending: seq<nat>, repeats: seq<Repeat>)
    requires upTo <= |keys|
  {
    forall i: nat :: i < upTo && Cached(o, c, keys, now, i) == None && i !in pending ==>
      exists r :: 0 <= r < |repeats| && IndexOf(repeats[r]) == i
  }

  ghost predicate RepeatsRest(o: Options, c: Cache, keys: seq<string>, now: nat, upTo: nat, pending: seq<nat>, repeats: seq<Repeat>)
    requires upTo <= |keys|
  {
    RepeatsOk(o, c, keys, now, upTo, pending, repeats) && CoversRest(o, c, keys, now, upTo, pending, repeats)
  }

  method Plan(o: Options, c: Cache, keys: seq<string>, now: nat)
    returns (results: seq<Option<string>>, pending: seq<nat>, repeats: seq<Repeat>)
    ensures |results| == |keys| && forall i :: 0 <= i < |keys| ==> results[i] == Cached(o, c, keys, now, i)
    ensures FirstUncached(o, c, keys, now, |keys|, pending)
    ensures RepeatsRest(o, c, keys, now, |keys|, pending, repeats)
  {
    hide FirstUncached, RepeatsRest, FreshAnswer;
    results, pending, repeats := [], [], [];
    PlanStart(o, c, keys, now);
    var firstIndex: map<string, nat> := map[];
    var i := 0;
    while i < |keys|
      invariant 0 <= i <= |keys| && |results| == i
      invariant forall k :: 0 <= k < i ==> results[k] == Cached(o, c, keys, now, k)
      invariant FirstUncached(o, c, keys, now, i, pending)
      invariant RepeatsRest(o, c, keys, now, i, pending, repeats)
      invariant forall k :: k in firstIndex ==> firstIndex[k] in pending && firstIndex[k] < i && keys[firstIndex[k]] == k
      invariant forall n :: 0 <= n < |pending| ==> pending[n] < i && keys[pending[n]] in firstIndex
    {
      var key := keys[i];
      var cached := FreshAnswer(o, c, key, now);
      results := results + [cached];
      if cached.None? {
        if key in firstIndex {
          PlanRepeat(o, c, keys, now, i, pending, repeats, firstIndex[key]);
          repeats := repeats + [Repeat(i, firstIndex[key])];
        } else {
          PlanFirst(o, c, keys, now, i, pending, repeats);
          firstIndex := firstIndex[key := i];
          pending := pending + [i];
        }
      } else {
        PlanHit(o, c, keys, now, i, pending, repeats);
      }
      i := i + 1;
    }
  }

  lemma PlanStart(o: Options, c: Cache, keys: seq<string>, now: nat)
    ensures FirstUncached(o, c, keys, now, 0, []) && RepeatsRest(o, c, keys, now, 0, [], [])
  {
  }

  lemma SkipFirst(o: Options, c: Cache, keys: seq<string>, now: nat, i: nat, pending: seq<nat>)
    requires i < |keys| && FirstUncached(o, c, keys, now, i, pending)
    requires Cached(o, c, keys, now, i).Some? || exists n :: 0 <= n < |pending| && keys[pending[n]] == keys[i]
    ensures FirstUncached(o, c, keys, now, i + 1, pending)
  {
    hide Cached;
  }

  lemma TakeFirst(o: Options, c: Cache, keys: seq<string>, now: nat, i: nat, pending: seq<nat>)
    requires i < |keys| && FirstUncached(o, c, keys, now, i, pending)
    requires Cached(o, c, keys, now, i).None? && forall n :: 0 <= n < |pending| ==> keys[pending[n]] != keys[i]
    ensures FirstUncached(o, c, keys, now, i + 1, pending + [i])
  {
    hide Cached, FirstsCover;
    var more := pending + [i];
    assert forall n :: 0 <= n < |pending| ==> more[n] == pending[n];
    assert more[|pending|] == i;
    MoreCover(o, c, keys, now, i, pending);
  }

  lemma MoreCover(o: Options, c: Cache, keys: seq<string>, now: nat, i: nat, pending: seq<nat>)
    requires i < |keys| && (forall n :: 0 <= n < |pending| ==> pending[n] < i) && FirstsCover(o, c, keys, now, i, pending)
    ensures FirstsCover(o, c, keys, now, i + 1, pending + [i])
  {
    hide Cached;
    var more := pending + [i];
    assert more[|pending|] == i;
    forall k: nat | k < i + 1 && Cached(o, c, keys, now, k) == None
      ensures exists n :: 0 <= n < |more| && keys[more[n]] == keys[k] && more[n] <= k
    {
      if k < i {
        var n :| 0 <= n < |pending| && keys[pending[n]] == keys[k] && pending[n] <= k;
        assert more[n] == pending[n];
      }
    }
  }

  lemma MoreRepeats(o: Options, c: Cache, keys: seq<string>, now: nat, i: nat, pending: seq<nat>, more: seq<nat>, repeats: seq<Repeat>)
    requires i < |keys| && RepeatsOk(o, c, keys, now, i, pending, repeats) && forall x :: x in pending ==> x in more
    ensures RepeatsOk(o, c, keys, now, i + 1, more, repeats)
  {
    hide Cached;
    forall r | 0 <= r < |repeats|
      ensures RepeatOk(o, c, keys, now, i + 1, more, repeats[r])
    {
      assert RepeatOk(o, c, keys, now, i, pending, repeats[r]);
    }
  }

  lemma CoversMore(o: Options, c: Cache, keys: seq<string>, now: nat, i: nat, pending: seq<nat>, more: seq<nat>,
                   repeats: seq<Repeat>, longer: seq<Repeat>)
    requires i < |keys| && CoversRest(o, c, keys, now, i, pending, repeats) && forall x :: x in pending ==> x in more
    requires |repeats| <= |longer| && forall r :: 0 <= r < |repeats| ==> longer[r] == repeats[r]
    requires Cached(o, c, keys, now, i).Some? || i in more || exists r :: 0 <= r < |longer| && IndexOf(longer[r]) == i
    ensures CoversRest(o, c, keys, now, i + 1, more, longer)
  {
    hide Cached, IndexOf;
    forall x: nat | x < i + 1 && Cached(o, c, keys, now, x) == None && x !in more
      ensures exists r :: 0 <= r < |longer| && IndexOf(longer[r]) == x
    {
      if x < i {
        var r :| 0 <= r < |repeats| && IndexOf(repeats[r]) == x;
        assert IndexOf(longer[r]) == x;
      }
    }
  }

  lemma PlanHit(o: Options, c: Cache, keys: seq<string>, now: nat, i: nat, pending: seq<nat>, repeats: seq<Repeat>)
    requires i < |keys| && FirstUncached(o, c, keys, now, i, pending) && RepeatsRest(o, c, keys, now, i, pending, repeats)
    requires Cached(o, c, keys, now, i).Some?
    ensures FirstUncached(o, c, keys, now, i + 1, pending) && RepeatsRest(o, c, keys, now, i + 1, pending, repeats)
  {
    hide Cached, FirstUncached, RepeatsOk, CoversRest;
    SkipFirst(o, c, keys, now, i, pending);
    MoreRepeats(o, c, keys, now, i, pending, pending, repeats);
    CoversMore(o, c, keys, now, i, pending, pending, repeats, repeats);
  }

  lemma PlanFirst(o: Options, c: Cache, keys: seq<string>, now: nat, i: nat, pending: seq<nat>, repeats: seq<Repeat>)
    requires i < |keys| && FirstUncached(o, c, keys, now, i, pending) && RepeatsRest(o, c, keys, now, i, pending, repeats)
    requires Cached(o, c, keys, now, i).None? && forall n :: 0 <= n < |pending| ==> keys[pending[n]] != keys[i]
    ensures FirstUncached(o, c, keys, now, i + 1, pending + [i]) && RepeatsRest(o, c, keys, now, i + 1, pending + [i], repeats)
  {
    hide Cached, FirstUncached, RepeatsOk, CoversRest;
    TakeFirst(o, c, keys, now, i, pending);
    MoreRepeats(o, c, keys, now, i, pending, pending + [i], repeats);
    CoversMore(o, c, keys, now, i, pending, pending + [i], repeats, repeats);
  }

  lemma SourceIsThere(o: Options, c: Cache, keys: seq<string>, now: nat, i: nat, pending: seq<nat>, source: nat)
    requires i < |keys| && FirstUncached(o, c, keys, now, i, pending) && source in pending && source < |keys| && keys[source] == keys[i]
    ensures FirstUncached(o, c, keys, now, i + 1, pending)
  {
    hide Cached;
    var n :| 0 <= n < |pending| && pending[n] == source;
    assert keys[pending[n]] == keys[i];
    SkipFirst(o, c, keys, now, i, pending);
  }

  lemma PlanRepeat(o: Options, c: Cache, keys: seq<string>, now: nat, i: nat, pending: seq<nat>, repeats: seq<Repeat>, source: nat)
    requires i < |keys| && FirstUncached(o, c, keys, now, i, pending) && RepeatsRest(o, c, keys, now, i, pending, repeats)
    requires Cached(o, c, keys, now, i).None? && source in pending && source < |keys| && keys[source] == keys[i]
    ensures FirstUncached(o, c, keys, now, i + 1, pending)
    ensures RepeatsRest(o, c, keys, now, i + 1, pending, repeats + [Repeat(i, source)])
  {
    hide Cached, FirstUncached, CoversRest;
    SourceIsThere(o, c, keys, now, i, pending, source);
    var more := repeats + [Repeat(i, source)];
    MoreRepeats(o, c, keys, now, i, pending, pending, repeats);
    assert RepeatOk(o, c, keys, now, i + 1, pending, Repeat(i, source));
    assert IndexOf(more[|repeats|]) == i;
    CoversMore(o, c, keys, now, i, pending, pending, repeats, more);
  }

  /** The answer a position gets from the request that carried its key as the `j`-th entry. */
  ghost predicate Answers(o: Options, round: Round, j: nat, key: string, answer: Option<string>) {
    match round.reply
    case Wire(results) => j < |results| && answer == Some(results[j])
    case RateLimited => answer.Some? && answer == StaleAnswer(o, round.cache, key, round.now)
    case Failed(_) => false
  }

  function KeysOf(keys: seq<string>, slice: seq<nat>): seq<string>
    requires forall j :: 0 <= j < |slice| ==> slice[j] < |keys|
  {
    seq(|slice|, j requires 0 <= j < |slice| => keys[slice[j]])
  }

  /** A slice fails on an error, on a short or long answer, and on a 429 some entry has no stale answer for. */
  ghost predicate SliceFails(o: Options, round: Round, keys: seq<string>, error: Error) {
    match round.reply
    case Wire(results) => |results| != |keys| && error == InvalidWireData
    case Failed(e) => error == ServerError(e)
    case RateLimited => error == RateLimitExceeded && exists j :: 0 <= j < |keys| && StaleAnswer(o, round.cache, keys[j], round.now) == None
  }

  function StaleAll(o: Options, c: Cache, keys: seq<string>, now: nat): Cache {
    if keys == [] then c else AfterGetStale(o, StaleAll(o, c, keys[..|keys| - 1], now), keys[|keys| - 1], now)
  }

  function SetAll(o: Options, c: Cache, keys: seq<string>, results: seq<string>, now: nat): Cache
    requires |keys| <= |results|
  {
    if keys == [] then c
    else AfterSet(o, SetAll(o, c, keys[..|keys| - 1], results, now), keys[|keys| - 1], results[|keys| - 1], now)
  }

  /** What a request's outcome leaves in the cache. */
  function AfterRound(o: Options, round: Round, keys: seq<string>): Cache {
    match round.reply
    case Wire(results) => if |results| == |keys| then SetAll(o, round.cache, keys, results, round.now) else round.cache
    case RateLimited => StaleAll(o, round.cache, keys, round.now)
    case Failed(_) => round.cache
  }

  /** A refused slice drops exactly the answers of its keys that are past their stale window. */
  lemma {:induction false} RefusedSliceDropsTheDead(o: Options, c: Cache, keys: seq<string>, now: nat, k: string)
    ensures
      k in StaleAll(o, c, keys, now).entries <==>
      k in c.entries && !(o.enabled && o.serveStaleOnRateLimit && k in keys && c.entries[k].staleUntil <= now)
    ensures k in StaleAll(o, c, keys, now).entries ==> StaleAll(o, c, keys, now).entries[k] == c.entries[k]
  {
    if keys != [] {
      RefusedSliceDropsTheDead(o, c, keys[..|keys| - 1], now, k);
    }
  }

  /** Dropping one key's expired answer does not touch another key's. */
  lemma {:induction false} StaleUntouched(o: Options, c: Cache, keys: seq<string>, now: nat, key: string)
    requires key !in keys
    ensures StaleAnswer(o, StaleAll(o, c, keys, now), key, now) == StaleAnswer(o, c, key, now)
  {
    if keys != [] {
      StaleUntouched(o, c, keys[..|keys| - 1], now, key);
    }
  }

  lemma {:induction false} SetAllValid(o: Options, c: Cache, keys: seq<string>, results: seq<string>, now: nat)
    requires Valid(c) && |keys| <= |results|
    ensures Valid(SetAll(o, c, keys, results, now))
  {
    if keys != [] {
      SetAllValid(o, c, keys[..|keys| - 1], results, now);
      if o.enabled {
        SetKeeps(o, SetAll(o, c, keys[..|keys| - 1], results, now), keys[|keys| - 1], results[|keys| - 1], now);
      }
    }
  }

  class Junjo {
    const permissionCache: PermissionCache

    constructor (o: Options)
      ensures fresh(permissionCache) && permissionCache.options == o && permissionCache.View() == EMPTY_CACHE
    {
      permissionCache := new PermissionCache(o);
    }

    /** Tries every key of a refused slice for a stale answer. */
    method StaleSlice(keys: seq<string>, round: Round) returns (stale: seq<Option<string>>)
      requires permissionCache.View() == round.cache && Distinct(keys)
      modifies permissionCache
      ensures |stale| == |keys|
      ensures forall j :: 0 <= j < |keys| ==> stale[j] == StaleAnswer(permissionCache.options, round.cache, keys[j], round.now)
      ensures permissionCache.View() == StaleAll(permissionCache.options, round.cache, keys, round.now)
    {
      hide StaleAnswer, AfterGetStale;
      stale := [];
      var j := 0;
      while j < |keys|
        invariant 0 <= j <= |keys| && |stale| == j
        invariant forall k :: 0 <= k < j ==> stale[k] == StaleAnswer(permissionCache.options, round.cache, keys[k], round.now)
        invariant permissionCache.View() == StaleAll(permissionCache.options, round.cache, keys[..j], round.now)
      {
        assert keys[j] !in keys[..j];
        StaleUntouched(permissionCache.options, round.cache, keys[..j], round.now, keys[j]);
        assert keys[..j + 1][..j] == keys[..j];
        var s := permissionCache.GetStale(keys[j], round.now);
        stale := stale + [s];
        j := j + 1;
      }
      assert keys[..j] == keys;
    }

    /** Caches the answers of a slice, in order. */
    method CacheSlice(keys: seq<string>, answers: seq<string>, round: Round)
      requires permissionCache.View() == round.cache && Valid(round.cache) && |answers| == |keys|
      modifies permissionCache
      ensures permissionCache.View() == SetAll(permissionCache.options, round.cache, keys, answers, round.now)
    {
      hide AfterSet, Valid;
      var j := 0;
      while j < |keys|
        invariant 0 <= j <= |keys| && Valid(permissionCache.View())
        invariant permissionCache.View() == SetAll(permissionCache.options, round.cache, keys[..j], answers, round.now)
      {
        assert keys[..j + 1][..j] == keys[..j];
        permissionCache.Set(keys[j], answers[j], round.now);
        j := j + 1;
      }
      assert keys[..j] == keys;
    }

    /** One request: sends a slice of the pending checks and files what comes back. */
    method FetchSlice(keys: seq<string>, slice: seq<nat>, before: seq<Option<string>>, round: Round)
      returns (r: Result<seq<Option<string>>, Error>)
      requires |before| == |keys| && Valid(round.cache) && Distinct(slice)
      requires forall j :: 0 <= j < |slice| ==> slice[j] < |keys|
      requires Distinct(KeysOf(keys, slice))
      modifies permissionCache
      ensures r.Err? ==> SliceFails(permissionCache.options, round, KeysOf(keys, slice), r.error)
      ensures r.Ok? ==> |r.value| == |keys| && permissionCache.View() == AfterRound(permissionCache.options, round, KeysOf(keys, slice))
      ensures r.Ok? ==> forall i: nat :: i < |keys| && i !in slice ==> r.value[i] == before[i]
      ensures r.Ok? ==> forall j :: 0 <= j < |slice| ==> Answers(permissionCache.options, round, j, keys[slice[j]], r.value[slice[j]])
    {
      hide SetAll, StaleAll, StaleAnswer;
      var sent := KeysOf(keys, slice);
      permissionCache.order, permissionCache.entries := round.cache.order, round.cache.entries;
      var answers: seq<Option<string>>;
      match round.reply {
        case Failed(e) => return Err(ServerError(e));
        case RateLimited =>
          answers := StaleSlice(sent, round);
          if exists j :: 0 <= j < |answers| && answers[j] == None {
            return Err(RateLimitExceeded);
          }
        case Wire(results) =>
          if |results| != |slice| {
            return Err(InvalidWireData);
          }
          CacheSlice(sent, results, round);
          answers := seq(|results|, j requires 0 <= j < |results| => Some(results[j]));
      }
      var filled := Fill(before, slice, answers);
      return Ok(filled);
    }

    /** Sends the pending checks slice by slice until one fails. */
    method FetchAll(keys: seq<string>, pending: seq<nat>, before: seq<Option<string>>, rounds: seq<Round>)
      returns (r: Result<seq<Option<string>>, Error>, requests: seq<seq<nat>>)
      requires |before| == |keys| && Distinct(pending) && |pending| <= CHECK_BATCH_MAX_ENTRIES * |rounds|
      requires forall n :: 0 <= n < |pending| ==> pending[n] < |keys|
      requires forall m, n :: 0 <= m < n < |pending| ==> keys[pending[m]] != keys[pending[n]]
      requires forall k :: 0 <= k < |rounds| ==> Valid(rounds[k].cache)
      modifies permissionCache
      ensures |requests| <= |rounds| && (r.Ok? ==> SlicesOf(requests, pending))
      ensures forall k :: 0 <= k < |requests| ==> 0 < |requests[k]| <= CHECK_BATCH_MAX_ENTRIES
      ensures r.Err? ==> requests != [] && FailedOn(permissionCache.options, rounds[|requests| - 1], keys, requests[|requests| - 1], r.error)
      ensures r.Ok? ==> |r.value| == |keys|
      ensures r.Ok? ==> forall i: nat :: i < |keys| && i !in pending ==> r.value[i] == before[i]
      ensures r.Ok? ==> forall n :: 0 <= n < |pending| ==> AnsweredAt(permissionCache.options, rounds, keys, pending, n, r.value)
      ensures r.Ok? && requests != [] ==> FilledFrom(permissionCache.options, rounds[|requests| - 1], keys, requests[|requests| - 1], permissionCache.View())
      ensures requests == [] ==> permissionCache.View() == old(permissionCache.View())
    {
      hide Answers, SliceFails, AfterRound, Valid, AnsweredAt, SliceAt, KeysOf, Distinct;
      var results := before;
      requests := [];
      var offset := 0;
      while offset < |pending|
        invariant offset == CHECK_BATCH_MAX_ENTRIES * |requests| && |requests| <= |rounds| && |results| == |keys|
        invariant offset <= |pending| + 99
        invariant forall k :: 0 <= k < |requests| ==> requests[k] == SliceAt(pending, k) && 0 < |requests[k]| <= CHECK_BATCH_MAX_ENTRIES
        invariant forall i: nat :: i < |keys| && i !in pending ==> results[i] == before[i]
        invariant forall n :: 0 <= n < |pending| && n < offset ==> AnsweredAt(permissionCache.options, rounds, keys, pending, n, results)
        invariant forall n :: offset <= n < |pending| ==> results[pending[n]] == before[pending[n]]
        invariant requests != [] ==> FilledFrom(permissionCache.options, rounds[|requests| - 1], keys, requests[|requests| - 1], permissionCache.View())
        invariant requests == [] ==> permissionCache.View() == old(permissionCache.View())
        decreases |pending| - offset
      {
        var slice := SliceAt(pending, |requests|);
        SliceFacts(keys, pending, |requests|);
        var round := rounds[|requests|];
        ghost var was := results;
        var fetched := FetchSlice(keys, slice, results, round);
        requests := requests + [slice];
        if fetched.Err? {
          return Err(fetched.error), requests;
        }
        results := fetched.value;
        NextAnswered(permissionCache.options, rounds, keys, pending, |requests| - 1, was, results);
        offset := offset + CHECK_BATCH_MAX_ENTRIES;
      }
      return Ok(results), requests;
    }

    /** Answers every key: from the cache as it stands at the call, or from the one request that carried it. */
    method AnswerKeys(keys: seq<string>, now: nat, rounds: seq<Round>)
      returns (r: Result<seq<string>, Error>, requests: seq<seq<nat>>, pending: seq<nat>)
      requires |keys| <= CHECK_BATCH_MAX_ENTRIES * |rounds| && Valid(permissionCache.View())
      requires forall k :: 0 <= k < |rounds| ==> Valid(rounds[k].cache)
      modifies permissionCache
      ensures FirstUncached(permissionCache.options, old(permissionCache.View()), keys, now, |keys|, pending)
      ensures |requests| <= |rounds| && forall k :: 0 <= k < |requests| ==> 0 < |requests[k]| <= CHECK_BATCH_MAX_ENTRIES
      ensures r.Ok? ==> SlicesOf(requests, pending) && |r.value| == |keys|
      ensures r.Ok? ==> forall i: nat :: i < |keys| ==>
                          Sourced(permissionCache.options, old(permissionCache.View()), keys, now, rounds, pending, i, r.value[i])
      ensures r.Err? ==> requests != [] && FailedOn(permissionCache.options, rounds[|requests| - 1], keys, requests[|requests| - 1], r.error)
      ensures if r.Ok? && requests != []
              then FilledFrom(permissionCache.options, rounds[|requests| - 1], keys, requests[|requests| - 1], permissionCache.View())
              else r.Ok? ==> permissionCache.View() == old(permissionCache.View())
    {
      hide Answers, FailedOn, FilledFrom, Valid, FreshAnswer;
      ghost var o := permissionCache.options;
      ghost var start := permissionCache.View();
      var planned, repeats;
      planned, pending, repeats := Plan(permissionCache.options, permissionCache.View(), keys, now);
      PendingFits(o, start, keys, now, pending);
      var fetched;
      fetched, requests := FetchAll(keys, pending, planned, rounds);
      if fetched.Err? {
        return Err(fetched.error), requests, pending;
      }
      var results := fetched.value;
      FetchedSourced(o, start, keys, now, rounds, pending, planned, results);
      var answers := FillRepeats(o, start, keys, now, rounds, pending, repeats, results);
      return Ok(answers), requests, pending;
    }

    /**
     Answers every check: with what the cache holds for it at the call, or with the server's answer to
     the one entry of the requests that asks the same. A request lists the positions it sends.
     */
    method CheckBatch(checks: seq<Check>, inherit: bool, now: nat, rounds: seq<Round>)
      returns (r: Result<seq<string>, Error>, requests: seq<seq<nat>>)
      requires |checks| <= CHECK_BATCH_MAX_ENTRIES * |rounds| && Valid(permissionCache.View())
      requires forall k :: 0 <= k < |rounds| ==> Valid(rounds[k].cache)
      modifies permissionCache
      ensures |requests| <= |rounds| && forall k :: 0 <= k < |requests| ==> 0 < |requests[k]| <= CHECK_BATCH_MAX_ENTRIES
      ensures r.Ok? ==> |r.value| == |checks|
      ensures r.Ok? ==> forall i: nat :: i < |checks| ==>
                          AnswersCheck(permissionCache.options, old(permissionCache.View()), checks, inherit, now, rounds, requests, i, r.value[i])
      ensures r.Ok? ==> SentOnce(permissionCache.options, old(permissionCache.View()), checks, inherit, now, requests)
      ensures r.Err? ==> requests != [] && FailedOn(permissionCache.options, rounds[|requests| - 1], KeysFor(checks, inherit), requests[|requests| - 1], r.error)
      ensures if r.Ok? && requests != []
              then FilledFrom(permissionCache.options, rounds[|requests| - 1], KeysFor(checks, inherit), requests[|requests| - 1], permissionCache.View())
              else r.Ok? ==> permissionCache.View() == old(permissionCache.View())
    {
      hide FailedOn, FilledFrom, Valid, AnswersCheck, SentOnce, Sourced;
      ghost var o := permissionCache.options;
      ghost var start := permissionCache.View();
      if |checks| == 0 {
        NothingAsked(o, start, checks, inherit, now);
        return Ok([]), [];
      }
      var keys := KeysFor(checks, inherit);
      var pending;
      r, requests, pending := AnswerKeys(keys, now, rounds);
      if r.Ok? {
        SlicesSendOnce(o, start, checks, inherit, now, pending, requests);
        forall i: nat | i < |checks|
          ensures AnswersCheck(o, start, checks, inherit, now, rounds, requests, i, r.value[i])
        {
          SourcedAnswers(o, start, checks, inherit, now, rounds, pending, requests, i, r.value[i]);
        }
      }
    }
  }

  function KeysFor(checks: seq<Check>, inherit: bool): seq<string> {
    seq(|checks|, i requires 0 <= i < |checks| => Key(checks[i], inherit))
  }

  function Fresh(o: Options, c: Cache, check: Check, inherit: bool, now: nat): Option<string> {
    FreshAnswer(o, c, Key(check, inherit), now)
  }

  /** The `n`-th entry of the `k`-th request. */
  function EntryOf(requests: seq<seq<nat>>, k: nat, n: nat): nat
    requires k < |requests| && n < |requests[k]|
  {
    requests[k][n]
  }

  /** The `n`-th entry of the `k`-th request asks the same as check `i`, and its answer is this one. */
  ghost predicate CarriedBy(o: Options, checks: seq<Check>, inherit: bool, rounds: seq<Round>, requests: seq<seq<nat>>, k: nat, n: nat, i: nat, answer: string)
    requires i < |checks|
  {
    && k < |requests| && k < |rounds| && n < |requests[k]| && EntryOf(requests, k, n) < |checks|
    && SameCheck(checks[EntryOf(requests, k, n)], checks[i])
    && Answers(o, rounds[k], n, Key(checks[i], inherit), Some(answer))
  }

  ghost predicate AnswersCheck(o: Options, c: Cache, checks: seq<Check>, inherit: bool, now: nat, rounds: seq<Round>, requests: seq<seq<nat>>, i: nat, answer: string)
    requires i < |checks|
  {
    var cached := Fresh(o, c, checks[i], inherit, now);
    if cached.Some? then cached.value == answer
    else exists k: nat, n: nat :: CarriedBy(o, checks, inherit, rounds, requests, k, n, i, answer)
  }

  /** No two entries of the requests ask the same, and none asks what the cache answers. */
  ghost predicate SentOnce(o: Options, c: Cache, checks: seq<Check>, inherit: bool, now: nat, requests: seq<seq<nat>>) {
    && (forall k: nat, n: nat :: k < |requests| && n < |requests[k]| ==>
          EntryOf(requests, k, n) < |checks| && Fresh(o, c, checks[EntryOf(requests, k, n)], inherit, now) == None)
    && (forall k: nat, n: nat, l: nat, m: nat ::
          k < |requests| && n < |requests[k]| && l < |requests| && m < |requests[l]| && (k, n) != (l, m) &&
          EntryOf(requests, k, n) < |checks| && EntryOf(requests, l, m) < |checks| ==>
            !SameCheck(checks[EntryOf(requests, k, n)], checks[EntryOf(requests, l, m)]))
  }

  lemma NothingAsked(o: Options, c: Cache, checks: seq<Check>, inherit: bool, now: nat)
    ensures SentOnce(o, c, checks, inherit, now, [])
  {
  }

  /** The `n`-th entry of the `k`-th request is the pending position at that distance. */
  lemma SliceEntry(requests: seq<seq<nat>>, pending: seq<nat>, k: nat, n: nat)
    requires SlicesOf(requests, pending) && k < |requests| && n < |requests[k]|
    ensures CHECK_BATCH_MAX_ENTRIES * k + n < |pending| && n < CHECK_BATCH_MAX_ENTRIES
    ensures EntryOf(requests, k, n) == pending[CHECK_BATCH_MAX_ENTRIES * k + n]
  {
    assert requests[k] == SliceAt(pending, k);
  }

  lemma PendingEntry(requests: seq<seq<nat>>, pending: seq<nat>, n: nat)
    requires SlicesOf(requests, pending) && n < |pending|
    ensures
      var k, m := n / CHECK_BATCH_MAX_ENTRIES, n % CHECK_BATCH_MAX_ENTRIES;
      k < |requests| && m < |requests[k]| && EntryOf(requests, k, m) == pending[n]
  {
    assert requests[n / CHECK_BATCH_MAX_ENTRIES] == SliceAt(pending, n / CHECK_BATCH_MAX_ENTRIES);
  }

  lemma EntryIsUncached(o: Options, c: Cache, checks: seq<Check>, inherit: bool, now: nat, pending: seq<nat>, p: nat)
    requires FirstUncached(o, c, KeysFor(checks, inherit), now, |checks|, pending) && p < |pending|
    ensures pending[p] < |checks| && Fresh(o, c, checks[pending[p]], inherit, now) == None
  {
    hide FreshAnswer, Key;
  }

  lemma EntriesDiffer(o: Options, c: Cache, checks: seq<Check>, inherit: bool, now: nat, pending: seq<nat>, p: nat, q: nat)
    requires FirstUncached(o, c, KeysFor(checks, inherit), now, |checks|, pending) && p < |pending| && q < |pending| && p != q
    ensures pending[p] < |checks| && pending[q] < |checks| && !SameCheck(checks[pending[p]], checks[pending[q]])
  {
    hide FreshAnswer, Key, SameCheck;
    var keys := KeysFor(checks, inherit);
    assert keys[pending[p]] != keys[pending[q]];
    KeysAreQuestions(checks[pending[p]], checks[pending[q]], inherit, inherit);
  }

  lemma SlicesSendOnce(o: Options, c: Cache, checks: seq<Check>, inherit: bool, now: nat, pending: seq<nat>, requests: seq<seq<nat>>)
    requires FirstUncached(o, c, KeysFor(checks, inherit), now, |checks|, pending) && SlicesOf(requests, pending)
    ensures SentOnce(o, c, checks, inherit, now, requests)
  {
    hide Fresh, SlicesOf, SameCheck, EntryOf, FirstUncached, KeysFor;
    forall k: nat, n: nat | k < |requests| && n < |requests[k]|
      ensures EntryOf(requests, k, n) < |checks| && Fresh(o, c, checks[EntryOf(requests, k, n)], inherit, now) == None
    {
      SliceEntry(requests, pending, k, n);
      EntryIsUncached(o, c, checks, inherit, now, pending, CHECK_BATCH_MAX_ENTRIES * k + n);
    }
    forall k: nat, n: nat, l: nat, m: nat |
      k < |requests| && n < |requests[k]| && l < |requests| && m < |requests[l]| && (k, n) != (l, m) &&
      EntryOf(requests, k, n) < |checks| && EntryOf(requests, l, m) < |checks|
      ensures !SameCheck(checks[EntryOf(requests, k, n)], checks[EntryOf(requests, l, m)])
    {
      SliceEntry(requests, pending, k, n);
      SliceEntry(requests, pending, l, m);
      EntriesDiffer(o, c, checks, inherit, now, pending, CHECK_BATCH_MAX_ENTRIES * k + n, CHECK_BATCH_MAX_ENTRIES * l + m);
    }
  }

  lemma SourcedAnswers(o: Options, c: Cache, checks: seq<Check>, inherit: bool, now: nat, rounds: seq<Round>, pending: seq<nat>,
                       requests: seq<seq<nat>>, i: nat, answer: string)
    requires i < |checks| && Sourced(o, c, KeysFor(checks, inherit), now, rounds, pending, i, answer) && SlicesOf(requests, pending)
    ensures AnswersCheck(o, c, checks, inherit, now, rounds, requests, i, answer)
  {
    hide FreshAnswer, Key, SlicesOf, SameCheck, EntryOf, Answers;
    var keys := KeysFor(checks, inherit);
    if Fresh(o, c, checks[i], inherit, now) == None {
      var n :| 0 <= n < |pending| && AnswersFor(o, rounds, keys, pending, n, i, answer);
      PendingEntry(requests, pending, n);
      KeysAreQuestions(checks[pending[n]], checks[i], inherit, inherit);
      assert CarriedBy(o, checks, inherit, rounds, requests, n / CHECK_BATCH_MAX_ENTRIES, n % CHECK_BATCH_MAX_ENTRIES, i, answer);
    }
  }

  /** Copies each repeated check's answer from the position it repeats. */
  method FillRepeats(ghost o: Options, ghost c: Cache, keys: seq<string>, ghost now: nat, ghost rounds: seq<Round>, ghost pending: seq<nat>,
                     repeats: seq<Repeat>, before: seq<Option<string>>)
    returns (answers: seq<string>)
    requires |before| == |keys| && RepeatsRest(o, c, keys, now, |keys|, pending, repeats)
    requires forall i: nat :: i < |keys| && (i in pending || Cached(o, c, keys, now, i).Some?) ==>
               before[i].Some? && Sourced(o, c, keys, now, rounds, pending, i, before[i].value)
    ensures |answers| == |keys|
    ensures forall i: nat :: i < |keys| ==> Sourced(o, c, keys, now, rounds, pending, i, answers[i])
  {
    hide Cached, Sourced;
    var results := before;
    var k := 0;
    while k < |repeats|
      invariant 0 <= k <= |repeats| && |results| == |keys|
      invariant forall i: nat :: i < |keys| && (i in pending || Cached(o, c, keys, now, i).Some?) ==>
                  results[i].Some? && Sourced(o, c, keys, now, rounds, pending, i, results[i].value)
      invariant forall q :: 0 <= q < k ==>
                  results[repeats[q].index].Some? && Sourced(o, c, keys, now, rounds, pending, repeats[q].index, results[repeats[q].index].value)
    {
      var repeat := repeats[k];
      SourcedRepeat(o, c, keys, now, rounds, pending, repeat, results[repeat.source]);
      results := results[repeat.index := results[repeat.source]];
      k := k + 1;
    }
    assert forall i: nat :: i < |keys| ==> results[i].Some? && Sourced(o, c, keys, now, rounds, pending, i, results[i].value);
    answers := seq(|keys|, i requires 0 <= i < |keys| => results[i].value);
  }

  /** An answer comes from the cache at the call, or from the request that carried the check's key. */
  ghost predicate Sourced(o: Options, c: Cache, keys: seq<string>, now: nat, rounds: seq<Round>, pending: seq<nat>, i: nat, answer: string)
    requires i < |keys|
  {
    || Cached(o, c, keys, now, i) == Some(answer)
    || (Cached(o, c, keys, now, i) == None && exists n :: 0 <= n < |pending| && AnswersFor(o, rounds, keys, pending, n, i, answer))
  }

  ghost predicate AnswersFor(o: Options, rounds: seq<Round>, keys: seq<string>, pending: seq<nat>, n: nat, i: nat, answer: string)
    requires n < |pending| && i < |keys|
  {
    && n / CHECK_BATCH_MAX_ENTRIES < |rounds| && pending[n] < |keys| && keys[pending[n]] == keys[i]
    && Answers(o, rounds[n / CHECK_BATCH_MAX_ENTRIES], n % CHECK_BATCH_MAX_ENTRIES, keys[i], Some(answer))
  }

  /** Each pending position is a different one of the positions asked about. */
  lemma PendingFits(o: Options, c: Cache, keys: seq<string>, now: nat, pending: seq<nat>)
    requires FirstUncached(o, c, keys, now, |keys|, pending)
    ensures |pending| <= |keys| && Distinct(pending)
    ensures forall n :: 0 <= n < |pending| ==> pending[n] < |keys|
    ensures forall m, n :: 0 <= m < n < |pending| ==> keys[pending[m]] != keys[pending[n]]
  {
    if pending != [] {
      AtLeastIndex(pending, |pending| - 1);
    }
  }

  lemma {:induction false} AtLeastIndex(pending: seq<nat>, n: nat)
    requires n < |pending| && forall m, n :: 0 <= m < n < |pending| ==> pending[m] < pending[n]
    ensures n <= pending[n]
  {
    if n != 0 {
      AtLeastIndex(pending, n - 1);
    }
  }

  lemma FetchedSourced(o: Options, c: Cache, keys: seq<string>, now: nat, rounds: seq<Round>, pending: seq<nat>,
                       planned: seq<Option<string>>, results: seq<Option<string>>)
    requires |planned| == |results| == |keys| && FirstUncached(o, c, keys, now, |keys|, pending)
    requires forall i :: 0 <= i < |keys| ==> planned[i] == Cached(o, c, keys, now, i)
    requires forall i: nat :: i < |keys| && i !in pending ==> results[i] == planned[i]
    requires forall n :: 0 <= n < |pending| ==> AnsweredAt(o, rounds, keys, pending, n, results)
    ensures forall i: nat :: i < |keys| && (i in pending || Cached(o, c, keys, now, i).Some?) ==>
              results[i].Some? && Sourced(o, c, keys, now, rounds, pending, i, results[i].value)
  {
    forall i: nat | i < |keys| && (i in pending || Cached(o, c, keys, now, i).Some?)
      ensures results[i].Some? && Sourced(o, c, keys, now, rounds, pending, i, results[i].value)
    {
      if i in pending {
        var n :| 0 <= n < |pending| && pending[n] == i;
        assert AnsweredAt(o, rounds, keys, pending, n, results);
        assert AnswersFor(o, rounds, keys, pending, n, i, results[i].value);
      }
    }
  }

  lemma SourcedRepeat(o: Options, c: Cache, keys: seq<string>, now: nat, rounds: seq<Round>, pending: seq<nat>, repeat: Repeat, answer: Option<string>)
    requires repeat.source < |keys| && repeat.index < |keys| && keys[repeat.source] == keys[repeat.index]
    requires answer.Some? && Sourced(o, c, keys, now, rounds, pending, repeat.source, answer.value)
    ensures Sourced(o, c, keys, now, rounds, pending, repeat.index, answer.value)
  {
    hide Answers;
    if Cached(o, c, keys, now, repeat.source) == None {
      var n :| 0 <= n < |pending| && AnswersFor(o, rounds, keys, pending, n, repeat.source, answer.value);
      assert AnswersFor(o, rounds, keys, pending, n, repeat.index, answer.value);
    }
  }

  // ------------------------------------------------------------------
  // Clearing the cache during a batch
  // ------------------------------------------------------------------

  lemma {:induction false} StaleEmpty(o: Options, keys: seq<string>, now: nat)
    ensures StaleAll(o, EMPTY_CACHE, keys, now) == EMPTY_CACHE
  {
    if keys != [] {
      StaleEmpty(o, keys[..|keys| - 1], now);
    }
  }

  lemma {:induction false} NothingKept(o: Options, keys: seq<string>, results: seq<string>, now: nat)
    requires |keys| <= |results| && (!o.enabled || o.maxEntries == 0)
    ensures SetAll(o, EMPTY_CACHE, keys, results, now) == EMPTY_CACHE
  {
    hide AfterSet;
    if keys != [] {
      var n := |keys| - 1;
      NothingKept(o, keys[..n], results, now);
      EmptySet(o, keys[n], results[n], now);
    }
  }

  lemma EmptySet(o: Options, key: string, result: string, now: nat)
    requires !o.enabled || o.maxEntries == 0
    ensures AfterSet(o, EMPTY_CACHE, key, result, now) == EMPTY_CACHE
  {
    if o.enabled {
      SetKeeps(o, EMPTY_CACHE, key, result, now);
      var after := AfterSet(o, EMPTY_CACHE, key, result, now);
      assert after.order == [];
      assert forall k :: k in after.entries ==> k in after.order;
    }
  }

  lemma Refilled(o: Options, round: Round, keys: seq<string>)
    requires o.enabled && 0 < o.maxEntries && keys != [] && round.cache == EMPTY_CACHE
    requires round.reply.Wire? && |round.reply.results| == |keys|
    ensures
      var n, after := |keys| - 1, AfterRound(o, round, keys);
      && keys[n] in after.entries && after.entries[keys[n]].result == round.reply.results[n]
      && after.entries[keys[n]].expiresAt == round.now + o.ttlMs
  {
    hide AfterSet;
    var n, results := |keys| - 1, round.reply.results;
    SetAllValid(o, EMPTY_CACHE, keys[..n], results, round.now);
    SetKeeps(o, SetAll(o, EMPTY_CACHE, keys[..n], results, round.now), keys[n], results[n], round.now);
  }

  /**
   A request of a batch in flight when the cache is cleared, and nothing cached since: clearing holds
   exactly when the request fails or is refused, or the cache keeps nothing anyway. Every well-formed
   answer fills it again. (Only the single check's request is detached by clearing.)
   */
  lemma ClearedCacheIsRefilledIff(o: Options, round: Round, keys: seq<string>)
    requires round.cache == EMPTY_CACHE
    ensures AfterRound(o, round, keys) != EMPTY_CACHE <==>
            round.reply.Wire? && |round.reply.results| == |keys| && keys != [] && o.enabled && 0 < o.maxEntries
  {
    hide AfterSet;
    if round.reply.RateLimited? {
      StaleEmpty(o, keys, round.now);
    } else if round.reply.Wire? && |round.reply.results| == |keys| && keys != [] {
      if o.enabled && 0 < o.maxEntries {
        Refilled(o, round, keys);
      } else {
        NothingKept(o, keys, round.reply.results, round.now);
      }
    }
  }

  /** And what it fills it with is served as fresh: the last answer, while its lifetime is not zero. */
  lemma BatchRefillsClearedCache(o: Options, round: Round, keys: seq<string>)
    requires round.cache == EMPTY_CACHE && AfterRound(o, round, keys) != EMPTY_CACHE
    ensures
      && keys != [] && round.reply.Wire? && |round.reply.results| == |keys|
      && FreshAnswer(o, AfterRound(o, round, keys), keys[|keys| - 1], round.now) ==
         if 0 < o.ttlMs then Some(round.reply.results[|keys| - 1]) else None
  {
    hide AfterRound, AfterSet;
    ClearedCacheIsRefilledIff(o, round, keys);
    Refilled(o, round, keys);
  }

  /** The `k`-th run of a hundred pending positions. */
  function SliceAt(pending: seq<nat>, k: nat): seq<nat> {
    var from := CHECK_BATCH_MAX_ENTRIES * k;
    if |pending| <= from then []
    else if |pending| <= from + CHECK_BATCH_MAX_ENTRIES then pending[from..]
    else pending[from..from + CHECK_BATCH_MAX_ENTRIES]
  }

  /** The requests carry the pending positions in order, a hundred at a time. */
  ghost predicate SlicesOf(requests: seq<seq<nat>>, pending: seq<nat>) {
    && (forall k :: 0 <= k < |requests| ==> requests[k] == SliceAt(pending, k))
    && |pending| <= CHECK_BATCH_MAX_ENTRIES * |requests| < |pending| + CHECK_BATCH_MAX_ENTRIES
  }

  ghost predicate InRange(keys: seq<string>, slice: seq<nat>) {
    forall j :: 0 <= j < |slice| ==> slice[j] < |keys|
  }

  ghost predicate FailedOn(o: Options, round: Round, keys: seq<string>, slice: seq<nat>, error: Error) {
    InRange(keys, slice) && SliceFails(o, round, KeysOf(keys, slice), error)
  }

  ghost predicate FilledFrom(o: Options, round: Round, keys: seq<string>, slice: seq<nat>, c: Cache) {
    InRange(keys, slice) && c == AfterRound(o, round, KeysOf(keys, slice))
  }

  /** The `n`-th pending position holds the answer of its place in its request. */
  ghost predicate AnsweredAt(o: Options, rounds: seq<Round>, keys: seq<string>, pending: seq<nat>, n: nat, results: seq<Option<string>>)
    requires n < |pending|
  {
    && n / CHECK_BATCH_MAX_ENTRIES < |rounds| && pending[n] < |keys| && pending[n] < |results|
    && Answers(o, rounds[n / CHECK_BATCH_MAX_ENTRIES], n % CHECK_BATCH_MAX_ENTRIES, keys[pending[n]], results[pending[n]])
  }

  lemma SliceFacts(keys: seq<string>, pending: seq<nat>, k: nat)
    requires CHECK_BATCH_MAX_ENTRIES * k < |pending| && Distinct(pending) && forall n :: 0 <= n < |pending| ==> pending[n] < |keys|
    requires forall m, n :: 0 <= m < n < |pending| ==> keys[pending[m]] != keys[pending[n]]
    ensures
      var slice := SliceAt(pending, k);
      && 0 < |slice| <= CHECK_BATCH_MAX_ENTRIES && Distinct(slice) && InRange(keys, slice) && Distinct(KeysOf(keys, slice))
      && (|slice| == CHECK_BATCH_MAX_ENTRIES || CHECK_BATCH_MAX_ENTRIES * k + |slice| == |pending|)
      && (forall j :: 0 <= j < |slice| ==> slice[j] == pending[CHECK_BATCH_MAX_ENTRIES * k + j])
  {
  }

  lemma NextAnswered(o: Options, rounds: seq<Round>, keys: seq<string>, pending: seq<nat>, k: nat,
                     before: seq<Option<string>>, results: seq<Option<string>>)
    requires k < |rounds| && CHECK_BATCH_MAX_ENTRIES * k < |pending| && |before| == |results| == |keys|
    requires Distinct(pending) && forall n :: 0 <= n < |pending| ==> pending[n] < |keys|
    requires forall m, n :: 0 <= m < n < |pending| ==> keys[pending[m]] != keys[pending[n]]
    requires forall i: nat :: i < |keys| && i !in SliceAt(pending, k) ==> results[i] == before[i]
    requires InRange(keys, SliceAt(pending, k))
    requires forall j :: 0 <= j < |SliceAt(pending, k)| ==>
               Answers(o, rounds[k], j, keys[SliceAt(pending, k)[j]], results[SliceAt(pending, k)[j]])
    requires forall n :: 0 <= n < |pending| && n < CHECK_BATCH_MAX_ENTRIES * k ==> AnsweredAt(o, rounds, keys, pending, n, before)
    ensures forall n :: 0 <= n < |pending| && n < CHECK_BATCH_MAX_ENTRIES * k + CHECK_BATCH_MAX_ENTRIES ==>
              AnsweredAt(o, rounds, keys, pending, n, results)
    ensures forall n :: 0 <= n < |pending| && CHECK_BATCH_MAX_ENTRIES * k + CHECK_BATCH_MAX_ENTRIES <= n ==>
              results[pending[n]] == before[pending[n]]
    ensures forall i: nat :: i < |keys| && i !in pending ==> results[i] == before[i]
  {
    hide Answers;
    var slice := SliceAt(pending, k);
    SliceFacts(keys, pending, k);
    forall n | 0 <= n < |pending| && !(CHECK_BATCH_MAX_ENTRIES * k <= n < CHECK_BATCH_MAX_ENTRIES * k + CHECK_BATCH_MAX_ENTRIES)
      ensures pending[n] !in slice
    {
    }
    forall n | 0 <= n < |pending| && n < CHECK_BATCH_MAX_ENTRIES * k + CHECK_BATCH_MAX_ENTRIES
      ensures AnsweredAt(o, rounds, keys, pending, n, results)
    {
      if CHECK_BATCH_MAX_ENTRIES * k <= n {
        assert slice[n - CHECK_BATCH_MAX_ENTRIES * k] == pending[n];
        assert n / CHECK_BATCH_MAX_ENTRIES == k && n % CHECK_BATCH_MAX_ENTRIES == n - CHECK_BATCH_MAX_ENTRIES * k;
      } else {
        assert AnsweredAt(o, rounds, keys, pending, n, before);
      }
    }
  }

  /** Writes the answers of a slice to the positions it came from. */
  method Fill(before: seq<Option<string>>, slice: seq<nat>, answers: seq<Option<string>>) returns (after: seq<Option<string>>)
    requires |answers| == |slice| && Distinct(slice) && forall j :: 0 <= j < |slice| ==> slice[j] < |before|
    ensures |after| == |before|
    ensures forall i: nat :: i < |before| && i !in slice ==> after[i] == before[i]
    ensures forall j :: 0 <= j < |slice| ==> after[slice[j]] == answers[j]
  {
    after := before;
    var j := 0;
    while j < |slice|
      invariant 0 <= j <= |slice| && |after| == |before|
      invariant forall i: nat :: i < |before| && i !in slice ==> after[i] == before[i]
      invariant forall k :: 0 <= k < j ==> after[slice[k]] == answers[k]
    {
      after := after[slice[j] := answers[j]];
      j := j + 1;
    }
  }
}
