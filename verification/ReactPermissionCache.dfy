/**
 The React provider's cache of permission answers (packages/react/src/permissionCache.ts): keys with
 a delimiter, fetches that invalidation disowns, and sweeps by user or group.
 */
module ReactPermissionCache {
  import opened Common
  import opened InsertionOrder
  import opened PermissionKeys

  // ------------------------------------------------------------------
  // Keys
  // ------------------------------------------------------------------

  const NUL: char := 0 as char

  predicate NulFree(s: string) {
    forall i :: 0 <= i < |s| ==> s[i] != NUL
  }

  ghost function MakeCacheKey(check: Check, inherit: bool): string {
    check.userId + [NUL] + (check.groupId + [NUL] + (check.permission + [NUL] + ((if inherit then "i" else "d") + [NUL] + PermissionContextKey(check.context))))
  }

  /** The pieces of `s` between delimiters. */
  function Split(s: string): (r: seq<string>)
    ensures 0 < |r|
  {
    if s == "" then [""]
    else if s[0] == NUL then [""] + Split(s[1..])
    else
      var rest := Split(s[1..]);
      [[s[0]] + rest[0]] + rest[1..]
  }

  lemma {:induction false} SplitFirst(head: string, tail: string)
    requires NulFree(head)
    ensures Split(head + [NUL] + tail) == [head] + Split(tail)
  {
    var s := head + [NUL] + tail;
    if head == "" {
      assert s[1..] == tail;
    } else {
      assert s[1..] == head[1..] + [NUL] + tail;
      SplitFirst(head[1..], tail);
      assert head == [head[0]] + head[1..];
    }
  }

  lemma {:induction false} SplitWhole(s: string)
    requires NulFree(s)
    ensures Split(s) == [s]
  {
    if s != "" {
      SplitWhole(s[1..]);
      assert s == [s[0]] + s[1..];
    }
  }

  function Segment(key: string, n: nat): Option<string> {
    if n < |Split(key)| then Some(Split(key)[n]) else None
  }

  /** For ids without the delimiter, segment 0 of a key is its user and segment 1 its group. */
  lemma SegmentsAreIds(check: Check, inherit: bool)
    requires NulFree(check.userId) && NulFree(check.groupId)
    ensures Segment(MakeCacheKey(check, inherit), 0) == Some(check.userId)
    ensures Segment(MakeCacheKey(check, inherit), 1) == Some(check.groupId)
  {
    var rest := check.permission + [NUL] + ((if inherit then "i" else "d") + [NUL] + PermissionContextKey(check.context));
    SplitFirst(check.userId, check.groupId + [NUL] + rest);
    SplitFirst(check.groupId, rest);
  }

  lemma EscapeHidesNul(c: char)
    ensures NulFree(Escape(c))
  {
  }

  lemma {:induction false} EscapedHidesNul(s: string)
    ensures NulFree(Escaped(s))
  {
    hide Escape;
    if s != "" {
      EscapeHidesNul(s[0]);
      EscapedHidesNul(s[1..]);
    }
  }

  lemma {:induction false} PairsHideNul(pairs: seq<(string, string)>)
    ensures NulFree(PairsText(pairs))
  {
    hide Escaped;
    if pairs != [] {
      EscapedHidesNul(pairs[0].0);
      EscapedHidesNul(pairs[0].1);
      PairsHideNul(pairs[1..]);
      assert NulFree(PairText(pairs[0]));
    }
  }

  /** The context segment never contains the delimiter. */
  lemma ContextHidesNul(context: Option<Context>)
    ensures NulFree(PermissionContextKey(context))
  {
    hide PairsText;
    if context.Some? && context.value != map[] {
      PairsHideNul(Pairs(context.value, Sorted(context.value.Keys)));
    }
  }

  lemma HeadEnds(a: string, b: string, x: string, y: string)
    requires NulFree(a) && NulFree(b) && a + [NUL] + x == b + [NUL] + y
    ensures a == b && x == y
  {
    var s := a + [NUL] + x;
    assert s[|a|] == NUL && s[|b|] == NUL;
    assert (forall i :: 0 <= i < |a| ==> s[i] == a[i]) && (forall i :: 0 <= i < |b| ==> s[i] == b[i]);
    assert |a| == |b|;
    assert a == s[..|a|] && b == s[..|b|] && x == s[|a| + 1..] && y == s[|b| + 1..];
  }

  lemma TailEnds(a: string, b: string, x: string, y: string)
    requires NulFree(x) && NulFree(y) && a + [NUL] + x == b + [NUL] + y
    ensures a == b && x == y
  {
    var s := a + [NUL] + x;
    assert s[|a|] == NUL && s[|b|] == NUL;
    assert forall i :: |a| < i < |s| ==> s[i] == x[i - |a| - 1];
    assert forall i :: |b| < i < |s| ==> s[i] == y[i - |b| - 1];
    assert |a| == |b|;
    assert a == s[..|a|] && b == s[..|b|] && x == s[|a| + 1..] && y == s[|b| + 1..];
  }

  /** A permission may hold the delimiter: what surrounds it cannot. */
  lemma KeysAreQuestions(a: Check, b: Check, i: bool, j: bool)
    requires NulFree(a.userId) && NulFree(a.groupId) && NulFree(b.userId) && NulFree(b.groupId)
    ensures MakeCacheKey(a, i) == MakeCacheKey(b, j) <==> SameCheck(a, b) && i == j
  {
    hide PermissionContextKey, SameContext;
    ContextKeyIsCanonical(a.context, b.context);
    if MakeCacheKey(a, i) == MakeCacheKey(b, j) {
      var ca, cb := PermissionContextKey(a.context), PermissionContextKey(b.context);
      var ma, mb := if i then "i" else "d", if j then "i" else "d";
      var x, y := a.permission + [NUL] + (ma + [NUL] + ca), b.permission + [NUL] + (mb + [NUL] + cb);
      HeadEnds(a.userId, b.userId, a.groupId + [NUL] + x, b.groupId + [NUL] + y);
      HeadEnds(a.groupId, b.groupId, x, y);
      ContextHidesNul(a.context);
      ContextHidesNul(b.context);
      assert x == a.permission + [NUL] + ma + [NUL] + ca && y == b.permission + [NUL] + mb + [NUL] + cb;
      TailEnds(a.permission + [NUL] + ma, b.permission + [NUL] + mb, ca, cb);
      TailEnds(a.permission, b.permission, ma, mb);
    }
  }

  // ------------------------------------------------------------------
  // The cache
  // ------------------------------------------------------------------

  const MAX_ENTRIES: nat := 500

  /** `stale` marks a fetch whose key was invalidated after it started. */
  datatype Fetch = Fetch(key: string, settled: bool, stale: bool)

  /** An answer, and the fetch that brought it. */
  datatype Value = Value(allowed: bool, fetch: nat)

  datatype Cache = Cache(order: seq<string>, entries: map<string, Value>, inflight: map<string, nat>, fetches: seq<Fetch>)

  const EMPTY := Cache([], map[], map[], [])

  /** What an invalidation reaches: one key, every key, or those with a given segment. */
  datatype Cover = OneKey(key: string) | All | BySegment(n: nat, value: string)

  predicate Covers(cover: Cover, key: string) {
    match cover
    case OneKey(k) => key == k
    case All => true
    case BySegment(n, value) => Segment(key, n) == Some(value)
  }

  /** A fetch starts only when none is in flight for the key and no answer is cached. */
  function AfterPrefetch(c: Cache, key: string): Cache {
    if key in c.inflight || key in c.entries then c
    else c.(inflight := c.inflight[key := |c.fetches|], fetches := c.fetches + [Fetch(key, false, false)])
  }

  /** The oldest keys beyond the cap. */
  function Excess(order: seq<string>): seq<string> {
    if |order| <= MAX_ENTRIES then [] else order[..|order| - MAX_ENTRIES]
  }

  function Trimmed(c: Cache): Cache {
    c.(order := c.order[|Excess(c.order)|..], entries := c.entries - ToSet(Excess(c.order)))
  }

  function Put(c: Cache, key: string, value: Value): Cache {
    c.(order := if key in c.entries then c.order else c.order + [key], entries := c.entries[key := value])
  }

  /** A fetch settles; it touches the cache only while it is still the one in flight for its key. */
  function AfterSettle(c: Cache, f: nat, outcome: Option<bool>): Cache {
    if |c.fetches| <= f || c.fetches[f].settled then c
    else
      var key := c.fetches[f].key;
      var done := c.(fetches := c.fetches[f := c.fetches[f].(settled := true)]);
      if key !in c.inflight || c.inflight[key] != f then done
      else
        var freed := done.(inflight := c.inflight - {key});
        if outcome.None? then freed else Trimmed(Put(freed, key, Value(outcome.value, f)))
  }

  function Covered(c: Cache, cover: Cover): set<string> {
    set k | k in c.entries.Keys + c.inflight.Keys && Covers(cover, k)
  }

  function Disowned(fetches: seq<Fetch>, cover: Cover): seq<Fetch> {
    seq(|fetches|, f requires 0 <= f < |fetches| => fetches[f].(stale := fetches[f].stale || Covers(cover, fetches[f].key)))
  }

  /** The covered answers go, and so do the covered slots in flight: their fetches no longer count. */
  function AfterInvalidate(c: Cache, cover: Cover): Cache {
    Cache(Keep(c.order, Covered(c, cover)), c.entries - Covered(c, cover), c.inflight - Covered(c, cover), Disowned(c.fetches, cover))
  }

  class PermissionCache {
    var order: seq<string>
    var entries: map<string, Value>
    var inflight: map<string, nat>
    var fetches: seq<Fetch>
    var listeners: set<string>

    function View(): Cache
      reads this
    {
      Cache(order, entries, inflight, fetches)
    }

    constructor ()
      ensures View() == EMPTY && listeners == {}
    {
      order, entries, inflight, fetches, listeners := [], map[], map[], [], {};
    }

    method Prefetch(key: string)
      modifies this
      ensures View() == AfterPrefetch(old(View()), key) && listeners == old(listeners)
    {
      if key in inflight || key in entries {
        return;
      }
      inflight, fetches := inflight[key := |fetches|], fetches + [Fetch(key, false, false)];
    }

    method Settle(f: nat, outcome: Option<bool>) returns (notified: set<string>)
      modifies this
      ensures View() == AfterSettle(old(View()), f, outcome) && listeners == old(listeners)
      ensures notified == if f < |old(fetches)| && !old(fetches)[f].settled && old(fetches)[f].key in old(inflight) && old(inflight)[old(fetches)[f].key] == f
                          then {old(fetches)[f].key} * listeners else {}
    {
      hide ToSet;
      if |fetches| <= f || fetches[f].settled {
        return {};
      }
      var key := fetches[f].key;
      fetches := fetches[f := fetches[f].(settled := true)];
      if key !in inflight || inflight[key] != f {
        return {};
      }
      inflight := inflight - {key};
      if outcome.Some? {
        order := if key in entries then order else order + [key];
        entries := entries[key := Value(outcome.value, f)];
        Trim();
      }
      return {key} * listeners;
    }

    method Trim()
      modifies this`order, this`entries
      ensures View() == Trimmed(old(View()))
    {
      ghost var n := 0;
      while MAX_ENTRIES < |order|
        invariant n <= |old(order)| && order == old(order)[n..] && entries == old(entries) - ToSet(old(order)[..n])
        invariant n == 0 || MAX_ENTRIES <= |order|
        decreases |order|
      {
        assert old(order)[..n + 1] == old(order)[..n] + [old(order)[n]];
        order, entries := order[1..], entries - {order[0]};
        n := n + 1;
      }
    }

    /** `invalidate(key)`. */
    method InvalidateKey(key: string) returns (notified: set<string>)
      requires OrderOk(View())
      modifies this
      ensures View() == AfterInvalidate(old(View()), OneKey(key)) && listeners == old(listeners)
      ensures notified == {key} * listeners
    {
      var candidates := entries.Keys + inflight.Keys + {key};
      assert Swept(OneKey(key), candidates) == {key};
      SweptAll(View(), OneKey(key), candidates);
      order, entries, inflight, fetches := Keep(order, {key}), entries - {key}, inflight - {key}, Disowned(fetches, OneKey(key));
      return {key} * listeners;
    }

    /** `invalidate()`: everything goes, and every key held or listened to is notified. */
    method InvalidateAll() returns (notified: set<string>)
      requires OrderOk(View())
      modifies this
      ensures View() == AfterInvalidate(old(View()), All) && listeners == old(listeners)
      ensures View() == EMPTY.(fetches := fetches)
      ensures notified == listeners
    {
      ghost var was := View();
      order, fetches := Keep(order, entries.Keys + inflight.Keys), Disowned(fetches, All);
      assert Covered(was, All) == was.entries.Keys + was.inflight.Keys;
      KeepNone(was.order, Covered(was, All));
      entries, inflight := map[], map[];
      return listeners;
    }

    /** Sweeps every key with the segment, notifying those listened to. */
    method InvalidateSegment(n: nat, value: string) returns (notified: set<string>)
      requires OrderOk(View())
      modifies this
      ensures View() == AfterInvalidate(old(View()), BySegment(n, value)) && listeners == old(listeners)
      ensures notified == set k | k in listeners && Covers(BySegment(n, value), k)
    {
      hide Covers, Keep, Swept, Disowned, OrderOk;
      ghost var cover := BySegment(n, value);
      ghost var was := View();
      var candidates := entries.Keys + inflight.Keys + listeners;
      var rest := candidates;
      ghost var done: set<string> := {};
      notified := {};
      fetches := Disowned(fetches, BySegment(n, value));
      NothingSwept(was, cover);
      while rest != {}
        invariant done + rest == candidates && fetches == Disowned(was.fetches, cover) && listeners == old(listeners)
        invariant order == Keep(was.order, Swept(cover, done))
        invariant entries == was.entries - Swept(cover, done) && inflight == was.inflight - Swept(cover, done)
        invariant notified == Swept(cover, done) * listeners
        decreases rest
      {
        var k :| k in rest;
        SweptMore(cover, done, k);
        KeepTwice(was.order, Swept(cover, done), {k});
        if Covers(BySegment(n, value), k) {
          order, entries, inflight := Keep(order, {k}), entries - {k}, inflight - {k};
          notified := notified + {k} * listeners;
        }
        rest, done := rest - {k}, done + {k};
      }
      assert done == candidates;
      SweptAll(was, cover, candidates);
      SweptListeners(cover, candidates, listeners);
    }
  }

  ghost predicate OrderOk(c: Cache) {
    Distinct(c.order) && forall k :: k in c.order <==> k in c.entries
  }

  function Swept(cover: Cover, keys: set<string>): set<string> {
    set k | k in keys && Covers(cover, k)
  }

  lemma SweptMore(cover: Cover, done: set<string>, k: string)
    ensures Swept(cover, done + {k}) == if Covers(cover, k) then Swept(cover, done) + {k} else Swept(cover, done)
  {
  }

  lemma NothingSwept(c: Cache, cover: Cover)
    ensures Swept(cover, {}) == {} && Keep(c.order, Swept(cover, {})) == c.order
    ensures c.entries - Swept(cover, {}) == c.entries && c.inflight - Swept(cover, {}) == c.inflight
  {
    KeepAll(c.order, {});
  }

  lemma SweptListeners(cover: Cover, candidates: set<string>, listeners: set<string>)
    requires listeners <= candidates
    ensures Swept(cover, candidates) * listeners == set k | k in listeners && Covers(cover, k)
  {
  }

  lemma {:induction false} KeepSame(order: seq<string>, a: set<string>, b: set<string>)
    requires forall k :: k in order ==> (k in a <==> k in b)
    ensures Keep(order, a) == Keep(order, b)
  {
    if order != [] {
      assert forall k :: k in order[..|order| - 1] ==> k in order;
      assert order[|order| - 1] in order;
      KeepSame(order[..|order| - 1], a, b);
    }
  }

  lemma SweptAll(c: Cache, cover: Cover, candidates: set<string>)
    requires OrderOk(c) && c.entries.Keys + c.inflight.Keys <= candidates
    ensures Keep(c.order, Swept(cover, candidates)) == Keep(c.order, Covered(c, cover))
    ensures c.entries - Swept(cover, candidates) == c.entries - Covered(c, cover)
    ensures c.inflight - Swept(cover, candidates) == c.inflight - Covered(c, cover)
  {
    KeepSame(c.order, Swept(cover, candidates), Covered(c, cover));
  }

  // ------------------------------------------------------------------
  // Every interleaving
  // ------------------------------------------------------------------

  datatype Step =
    | Prefetch(key: string)
    | Settle(f: nat, outcome: Option<bool>)
    | Invalidate(cover: Cover)

  function Apply(c: Cache, step: Step): Cache {
    match step
    case Prefetch(key) => AfterPrefetch(c, key)
    case Settle(f, outcome) => AfterSettle(c, f, outcome)
    case Invalidate(cover) => AfterInvalidate(c, cover)
  }

  function Run(steps: seq<Step>): Cache {
    if steps == [] then EMPTY else Apply(Run(steps[..|steps| - 1]), steps[|steps| - 1])
  }

  /** A fetch holds its key's slot exactly while it is unsettled and its key was not invalidated since. */
  ghost predicate SlotOk(c: Cache, f: nat)
    requires f < |c.fetches|
  {
    (c.fetches[f].key in c.inflight && c.inflight[c.fetches[f].key] == f) <==> !c.fetches[f].settled && !c.fetches[f].stale
  }

  ghost predicate SlotsOk(c: Cache) {
    && (forall k :: k in c.inflight ==> c.inflight[k] < |c.fetches| && c.fetches[c.inflight[k]].key == k && k !in c.entries)
    && (forall f: nat :: f < |c.fetches| ==> SlotOk(c, f))
  }

  /** A cached answer was brought by a settled fetch for its key that no invalidation has disowned. */
  ghost predicate ValueOk(c: Cache, k: string)
    requires k in c.entries
  {
    var f := c.entries[k].fetch;
    f < |c.fetches| && c.fetches[f].key == k && c.fetches[f].settled && !c.fetches[f].stale
  }

  ghost predicate ValuesOk(c: Cache) {
    forall k :: k in c.entries ==> ValueOk(c, k)
  }

  ghost predicate Inv(c: Cache) {
    OrderOk(c) && |c.order| <= MAX_ENTRIES && SlotsOk(c) && ValuesOk(c)
  }

  lemma TrimmedOrder(c: Cache)
    requires OrderOk(c)
    ensures OrderOk(Trimmed(c)) && |Trimmed(c).order| <= MAX_ENTRIES
  {
    var n := |Excess(c.order)|;
    assert forall i :: 0 <= i < n ==> Excess(c.order)[i] == c.order[i];
    forall k
      ensures k in Trimmed(c).order <==> k in Trimmed(c).entries
    {
      if k in c.order {
        var i :| 0 <= i < |c.order| && c.order[i] == k;
        assert i < n <==> k in ToSet(Excess(c.order)) by {
          if i < n {
            assert Excess(c.order)[i] == k;
          }
        }
        if n <= i {
          assert c.order[n..][i - n] == k;
        }
      }
    }
  }

  lemma OrderKeeps(c: Cache, step: Step)
    requires OrderOk(c) && |c.order| <= MAX_ENTRIES
    ensures OrderOk(Apply(c, step)) && |Apply(c, step).order| <= MAX_ENTRIES
  {
    hide Keep, Trimmed, Covers;
    match step
    case Prefetch(_) =>
    case Settle(f, outcome) =>
      if f < |c.fetches| && !c.fetches[f].settled && outcome.Some? {
        var freed := c.(fetches := c.fetches[f := c.fetches[f].(settled := true)], inflight := c.inflight - {c.fetches[f].key});
        TrimmedOrder(Put(freed, c.fetches[f].key, Value(outcome.value, f)));
      }
    case Invalidate(cover) => KeepDistinct(c.order, Covered(c, cover));
  }

  lemma PrefetchKeepsSlots(c: Cache, key: string)
    requires SlotsOk(c) && ValuesOk(c)
    ensures SlotsOk(AfterPrefetch(c, key)) && ValuesOk(AfterPrefetch(c, key))
  {
    var after := AfterPrefetch(c, key);
    forall f: nat | f < |after.fetches|
      ensures SlotOk(after, f)
    {
      if f < |c.fetches| {
        assert SlotOk(c, f);
      }
    }
    assert forall k :: k in after.entries ==> ValueOk(c, k);
  }

  lemma SettleKeepsSlots(c: Cache, f: nat, outcome: Option<bool>)
    requires SlotsOk(c) && ValuesOk(c)
    ensures SlotsOk(AfterSettle(c, f, outcome)) && ValuesOk(AfterSettle(c, f, outcome))
  {
    hide ToSet, Excess;
    var after := AfterSettle(c, f, outcome);
    forall g: nat | g < |after.fetches|
      ensures SlotOk(after, g)
    {
      assert SlotOk(c, g);
      if f < |c.fetches| {
        assert SlotOk(c, f);
      }
    }
    forall k | k in after.entries
      ensures ValueOk(after, k)
    {
      if k in c.entries {
        assert ValueOk(c, k);
      }
      if f < |c.fetches| {
        assert SlotOk(c, f);
      }
    }
  }

  lemma InvalidateKeepsSlots(c: Cache, cover: Cover)
    requires SlotsOk(c) && ValuesOk(c)
    ensures SlotsOk(AfterInvalidate(c, cover)) && ValuesOk(AfterInvalidate(c, cover))
  {
    hide Keep, Covers;
    var after := AfterInvalidate(c, cover);
    forall f: nat | f < |after.fetches|
      ensures SlotOk(after, f)
    {
      assert SlotOk(c, f);
    }
    forall k | k in after.entries
      ensures ValueOk(after, k)
    {
      assert ValueOk(c, k);
    }
  }

  lemma StepKeeps(c: Cache, step: Step)
    requires Inv(c)
    ensures Inv(Apply(c, step))
  {
    hide OrderOk, SlotsOk, ValuesOk, AfterPrefetch, AfterSettle, AfterInvalidate;
    OrderKeeps(c, step);
    match step
    case Prefetch(key) => PrefetchKeepsSlots(c, key);
    case Settle(f, outcome) => SettleKeepsSlots(c, f, outcome);
    case Invalidate(cover) => InvalidateKeepsSlots(c, cover);
  }

  lemma {:induction false} RunKeeps(steps: seq<Step>)
    ensures Inv(Run(steps))
  {
    hide Apply;
    if steps != [] {
      RunKeeps(steps[..|steps| - 1]);
      StepKeeps(Run(steps[..|steps| - 1]), steps[|steps| - 1]);
    }
  }

  /**
   In every interleaving the cache holds at most the cap, and what it holds for a key was brought by
   a fetch started after the last invalidation that reached the key.
   */
  lemma AnswersAreNewerThanInvalidations(steps: seq<Step>, key: string)
    requires key in Run(steps).entries
    ensures
      var c := Run(steps);
      var f := c.entries[key].fetch;
      |c.order| <= MAX_ENTRIES && f < |c.fetches| && c.fetches[f].key == key && !c.fetches[f].stale
  {
    RunKeeps(steps);
    assert ValueOk(Run(steps), key);
  }

  /** `stale` means just that: an invalidation marks every fetch started so far whose key it reaches. */
  lemma StaleMarksTheReached(c: Cache, step: Step, f: nat)
    requires f < |c.fetches|
    ensures
      var after := Apply(c, step);
      && f < |after.fetches| && after.fetches[f].key == c.fetches[f].key
      && (after.fetches[f].stale <==> c.fetches[f].stale || (step.Invalidate? && Covers(step.cover, c.fetches[f].key)))
  {
    hide Keep, Covers;
  }

  /** At most one fetch per key may still write: any other unsettled one has been disowned. */
  lemma OneWriterPerKey(steps: seq<Step>, a: nat, b: nat)
    requires
      var c := Run(steps);
      && a < |c.fetches| && b < |c.fetches| && c.fetches[a].key == c.fetches[b].key
      && !c.fetches[a].settled && !c.fetches[a].stale && !c.fetches[b].settled && !c.fetches[b].stale
    ensures a == b
  {
    RunKeeps(steps);
    assert SlotOk(Run(steps), a) && SlotOk(Run(steps), b);
  }

  /** A disowned fetch writes nothing when it settles. */
  lemma DisownedNeverWrites(steps: seq<Step>, f: nat, outcome: Option<bool>)
    requires f < |Run(steps).fetches| && Run(steps).fetches[f].stale
    ensures
      var before, after := Run(steps), Apply(Run(steps), Settle(f, outcome));
      after.entries == before.entries && after.order == before.order && after.inflight == before.inflight
  {
    RunKeeps(steps);
    assert SlotOk(Run(steps), f);
  }

  /** The slots in flight are those of the fetches that may still write. */
  lemma LiveHoldsSlot(c: Cache, key: string)
    requires Inv(c)
    ensures key in c.inflight <==> exists f: nat :: f < |c.fetches| && c.fetches[f] == Fetch(key, false, false)
  {
    if key in c.inflight {
      var f := c.inflight[key];
      assert SlotOk(c, f);
    }
    forall f: nat | f < |c.fetches| && c.fetches[f] == Fetch(key, false, false)
      ensures key in c.inflight
    {
      assert SlotOk(c, f);
    }
  }

  /** A key is fetched exactly when it has no answer and no fetch of it may still write; nothing else starts a fetch. */
  lemma PrefetchStartsOne(steps: seq<Step>, key: string)
    ensures
      var c, after := Run(steps), Apply(Run(steps), Prefetch(key));
      && after.entries == c.entries && after.order == c.order
      && after.fetches ==
         if key in c.entries || exists f: nat :: f < |c.fetches| && c.fetches[f] == Fetch(key, false, false) then c.fetches
         else c.fetches + [Fetch(key, false, false)]
  {
    RunKeeps(steps);
    LiveHoldsSlot(Run(steps), key);
  }

  /**
   A fetch that may still write does: its answer goes to the end, pushing out the oldest alone when the
   cache is full, and every other answer stays; one that failed leaves its key free to fetch again.
   */
  lemma LiveFetchWrites(steps: seq<Step>, f: nat, outcome: Option<bool>)
    requires f < |Run(steps).fetches| && !Run(steps).fetches[f].settled && !Run(steps).fetches[f].stale
    ensures
      var c, after := Run(steps), Apply(Run(steps), Settle(f, outcome));
      var key := c.fetches[f].key;
      && after.fetches == c.fetches[f := Fetch(key, true, false)] && key !in after.inflight && key !in c.entries
      && (outcome == None ==> after.entries == c.entries && after.order == c.order)
      && (outcome.Some? ==>
            && key in after.entries && after.entries[key] == Value(outcome.value, f)
            && after.order == (if |c.order| < 500 then c.order else c.order[1..]) + [key]
            && (forall k :: k in after.entries && k != key <==> k in c.entries && !(|c.order| == 500 && k == c.order[0]))
            && (forall k :: k in after.entries && k != key ==> after.entries[k] == c.entries[k]))
  {
    RunKeeps(steps);
    var c := Run(steps);
    hide Run;
    assert SlotOk(c, f);
    var key := c.fetches[f].key;
    var longer := c.order + [key];
    if |c.order| == 500 {
      assert Excess(longer) == [c.order[0]];
      assert ToSet(Excess(longer)) == {c.order[0]};
      assert longer[1..] == c.order[1..] + [key];
    } else {
      assert Excess(longer) == [] && ToSet(Excess(longer)) == {};
      assert longer[0..] == longer;
    }
  }

  /** What the cache says for a key is what the fetch that brought it answered. */
  lemma {:induction false} AnswersWereBrought(steps: seq<Step>, key: string) returns (k: nat)
    requires key in Run(steps).entries
    ensures k < |steps| && steps[k] == Settle(Run(steps).entries[key].fetch, Some(Run(steps).entries[key].allowed))
  {
    var init, last := steps[..|steps| - 1], steps[|steps| - 1];
    if key in Run(init).entries && Run(init).entries[key] == Run(steps).entries[key] {
      k := AnswersWereBrought(init, key);
    } else {
      hide ToSet, Excess, Keep;
      k := |steps| - 1;
    }
  }

  /** A key that is neither held nor being fetched is held once its fetch has succeeded, with what the fetch answered. */
  lemma FetchedIsCached(steps: seq<Step>, key: string, allowed: bool)
    requires key !in Run(steps).entries && key !in Run(steps).inflight
    ensures
      var after := Run(steps + [Prefetch(key)] + [Settle(|Run(steps).fetches|, Some(allowed))]);
      key in after.entries && after.entries[key] == Value(allowed, |Run(steps).fetches|)
  {
    var c, asked := Run(steps), steps + [Prefetch(key)];
    assert asked[..|steps|] == steps;
    assert Run(asked) == Apply(c, Prefetch(key));
    var settled := asked + [Settle(|c.fetches|, Some(allowed))];
    assert settled[..|asked|] == asked;
    assert Run(settled) == Apply(Run(asked), Settle(|c.fetches|, Some(allowed)));
    hide Run;
    assert Run(asked).fetches[|c.fetches|] == Fetch(key, false, false);
    LiveFetchWrites(asked, |c.fetches|, Some(allowed));
  }

  /** An invalidation drops the answers it reaches and no others, and leaves no fetch of theirs in flight. */
  lemma InvalidationIsExact(c: Cache, cover: Cover, k: string)
    ensures
      var after := AfterInvalidate(c, cover);
      && (k in after.entries <==> k in c.entries && !Covers(cover, k))
      && (k in after.entries ==> after.entries[k] == c.entries[k])
      && (k in after.inflight <==> k in c.inflight && !Covers(cover, k))
  {
    hide Keep, Covers;
  }

  /** Sweeping a user or a group reaches exactly the checks of that user or group. */
  lemma SweepsAreExact(check: Check, inherit: bool, userId: string, groupId: string)
    requires NulFree(check.userId) && NulFree(check.groupId)
    ensures Covers(BySegment(0, userId), MakeCacheKey(check, inherit)) <==> check.userId == userId
    ensures Covers(BySegment(1, groupId), MakeCacheKey(check, inherit)) <==> check.groupId == groupId
  {
    SegmentsAreIds(check, inherit);
  }
}
