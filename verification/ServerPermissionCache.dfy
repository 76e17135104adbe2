/**
 The server's cache of permission answers (packages/server/src/permissionCache.ts): a map in
 last-use order with a reverse index from each group to the answers that depend on it.
 */
module ServerPermissionCache {
  import opened Common
  import opened InsertionOrder
  import opened LengthPrefix

  // ------------------------------------------------------------------
  // Keys
  // ------------------------------------------------------------------

  datatype Tuple = Tuple(gameId: string, groupId: string, userId: string, permission: string, inherit: bool, context: string)

  function Key(t: Tuple): string {
    (if t.inherit then "i" else "d") + FramedAll([t.gameId, t.groupId, t.userId, t.permission, t.context])
  }

  /** No two checks share a key, whatever characters their parts hold. */
  lemma KeyIsInjective(a: Tuple, b: Tuple)
    ensures Key(a) == Key(b) <==> a == b
  {
    hide FramedAll;
    if Key(a) == Key(b) {
      var ps, qs := [a.gameId, a.groupId, a.userId, a.permission, a.context], [b.gameId, b.groupId, b.userId, b.permission, b.context];
      assert Key(a)[0] == Key(b)[0];
      assert FramedAll(ps) == Key(a)[1..] && FramedAll(qs) == Key(b)[1..];
      FramesAreInjective(ps, qs);
      assert ps[0] == qs[0] && ps[1] == qs[1] && ps[2] == qs[2] && ps[3] == qs[3] && ps[4] == qs[4];
    }
  }

  // ------------------------------------------------------------------
  // The cache as a value
  // ------------------------------------------------------------------

  datatype Entry = Entry(result: string, expiresAt: nat, indexGroups: seq<string>)

  /** `order` is the iteration order of the entries: least recently used first. */
  datatype Cache = Cache(order: seq<string>, entries: map<string, Entry>, index: map<string, set<string>>, maxEntries: nat)

  /** The cache without some keys, nor any trace of them in the index. */
  function Evicted(c: Cache, drop: set<string>): Cache {
    c.(order := Keep(c.order, drop), entries := c.entries - drop,
       index := map g | g in c.index && c.index[g] - drop != {} :: c.index[g] - drop)
  }

  function Indexed(index: map<string, set<string>>, k: string, groups: seq<string>): map<string, set<string>> {
    map g | g in index.Keys + (set x | x in groups) ::
      (if g in index then index[g] else {}) + (if g in groups then {k} else {})
  }

  /** The groups an answer is filed under: those named, or the queried group alone. */
  function FiledUnder(groupId: string, dependsOn: seq<string>): seq<string> {
    Dedup(if dependsOn != [] then dependsOn else [groupId])
  }

  function Stored(c: Cache, k: string, entry: Entry): Cache {
    var without := Evicted(c, {k});
    without.(order := without.order + [k], entries := without.entries[k := entry], index := Indexed(without.index, k, entry.indexGroups))
  }

  /** The oldest keys beyond the cap. */
  function Excess(c: Cache): set<string> {
    if |c.order| <= c.maxEntries then {} else ToSet(c.order[..|c.order| - c.maxEntries])
  }

  function Expired(c: Cache, now: nat): set<string> {
    set k | k in c.entries && c.entries[k].expiresAt <= now
  }

  function Dependants(c: Cache, group: string): set<string> {
    if group in c.index then c.index[group] else {}
  }

  /** A hit moves its key to the end; an expired entry goes. */
  function AfterGet(c: Cache, k: string, now: nat): Cache {
    if k !in c.entries then c
    else if c.entries[k].expiresAt <= now then Evicted(c, {k})
    else c.(order := Keep(c.order, {k}) + [k])
  }

  function Answer(c: Cache, k: string, now: nat): Option<string> {
    if k in c.entries && now < c.entries[k].expiresAt then Some(c.entries[k].result) else None
  }

  function AfterSet(c: Cache, k: string, entry: Entry): Cache {
    Evicted(Stored(c, k, entry), Excess(Stored(c, k, entry)))
  }

  // ------------------------------------------------------------------
  // The two-way index
  // ------------------------------------------------------------------

  ghost predicate OrderOk(c: Cache) {
    Distinct(c.order) && forall k :: k in c.order <==> k in c.entries
  }

  /** A key is in a group's set exactly when the group is in the entry's list, and no set is empty. */
  ghost predicate IndexOk(c: Cache) {
    && (forall g :: g in c.index ==> c.index[g] != {})
    && (forall g, k :: g in c.index && k in c.index[g] ==> k in c.entries && g in c.entries[k].indexGroups)
    && (forall g, k :: k in c.entries && g in c.entries[k].indexGroups ==> g in c.index && k in c.index[g])
  }

  ghost predicate Valid(c: Cache) {
    OrderOk(c) && IndexOk(c) && 1 <= c.maxEntries && |c.order| <= c.maxEntries
  }

  lemma EvictedKeepsIndex(c: Cache, drop: set<string>)
    requires IndexOk(c)
    ensures IndexOk(Evicted(c, drop))
  {
    var after := Evicted(c, drop);
    forall g, k | k in after.entries && g in after.entries[k].indexGroups
      ensures g in after.index && k in after.index[g]
    {
      assert k in c.index[g] - drop;
    }
  }

  lemma EvictedKeepsOrder(c: Cache, drop: set<string>)
    requires OrderOk(c)
    ensures OrderOk(Evicted(c, drop)) && Evicted(c, drop).maxEntries == c.maxEntries
  {
    KeepDistinct(c.order, drop);
  }

  /** Evictions compose. */
  lemma EvictedTwice(c: Cache, a: set<string>, b: set<string>)
    ensures Evicted(Evicted(c, a), b) == Evicted(c, a + b)
  {
    hide Keep;
    KeepTwice(c.order, a, b);
    var one, both := Evicted(Evicted(c, a), b), Evicted(c, a + b);
    assert forall g :: g in c.index ==> c.index[g] - a - b == c.index[g] - (a + b);
    assert one.index == both.index;
    assert one.entries == both.entries;
  }

  lemma StoredKeepsIndex(c: Cache, k: string, entry: Entry)
    requires IndexOk(c)
    ensures IndexOk(Stored(c, k, entry))
  {
    hide Keep;
    EvictedKeepsIndex(c, {k});
  }

  lemma StoredKeepsOrder(c: Cache, k: string, entry: Entry)
    requires OrderOk(c)
    ensures OrderOk(Stored(c, k, entry)) && |Stored(c, k, entry).order| <= |c.order| + 1
  {
    EvictedKeepsOrder(c, {k});
  }

  /** Trimming to the cap drops exactly the oldest keys. */
  lemma TrimmedOrder(c: Cache)
    requires OrderOk(c) && 1 <= c.maxEntries
    ensures Evicted(c, Excess(c)).order == if |c.order| <= c.maxEntries then c.order else c.order[|c.order| - c.maxEntries..]
    ensures |Evicted(c, Excess(c)).order| <= c.maxEntries
  {
    if |c.order| <= c.maxEntries {
      KeepAll(c.order, {});
    } else {
      DropOldest(c.order, |c.order| - c.maxEntries);
    }
  }

  /** Storing an answer keeps the index and the cap, and never evicts the answer just stored. */
  lemma SetKeeps(c: Cache, k: string, entry: Entry)
    requires Valid(c)
    ensures Valid(AfterSet(c, k, entry)) && k in AfterSet(c, k, entry).entries && AfterSet(c, k, entry).entries[k] == entry
  {
    hide IndexOk, Keep, Stored;
    StoredKeepsIndex(c, k, entry);
    StoredKeepsOrder(c, k, entry);
    var stored := Stored(c, k, entry);
    StoredLast(c, k, entry);
    EvictedKeepsIndex(stored, Excess(stored));
    EvictedKeepsOrder(stored, Excess(stored));
    TrimmedOrder(stored);
  }

  lemma StoredLast(c: Cache, k: string, entry: Entry)
    requires OrderOk(c)
    ensures
      var s := Stored(c, k, entry);
      s.maxEntries == c.maxEntries && 0 < |s.order| && s.order[|s.order| - 1] == k && k in s.entries && s.entries[k] == entry
  {
    hide Keep;
  }

  lemma EvictedKeeps(c: Cache, drop: set<string>)
    requires Valid(c)
    ensures Valid(Evicted(c, drop))
  {
    EvictedKeepsIndex(c, drop);
    EvictedKeepsOrder(c, drop);
  }

  lemma GetKeeps(c: Cache, k: string, now: nat)
    requires Valid(c)
    ensures Valid(AfterGet(c, k, now))
  {
    hide Keep;
    if k in c.entries && c.entries[k].expiresAt <= now {
      EvictedKeeps(c, {k});
    } else if k in c.entries {
      KeepDistinct(c.order, {k});
      Shorter(c.order, k);
    }
  }

  /** Under a two-way index, taking a key out of its own groups' sets takes it out of all of them. */
  function Unfiled(index: map<string, set<string>>, k: string, groups: seq<string>): map<string, set<string>> {
    map g | g in index && !(g in groups && index[g] - {k} == {}) :: if g in groups then index[g] - {k} else index[g]
  }

  lemma UnfiledIsEvicted(c: Cache, k: string)
    requires IndexOk(c) && k in c.entries
    ensures Unfiled(c.index, k, c.entries[k].indexGroups) == Evicted(c, {k}).index
  {
    forall g | g in c.index
      ensures g in c.entries[k].indexGroups || c.index[g] - {k} == c.index[g] != {}
    {
      assert k in c.index[g] ==> g in c.entries[k].indexGroups;
    }
  }

  lemma UnfiledNext(index: map<string, set<string>>, k: string, groups: seq<string>, g: string)
    ensures
      var before := Unfiled(index, k, groups);
      Unfiled(index, k, groups + [g]) ==
      if g !in before then before else if before[g] - {k} == {} then before - {g} else before[g := before[g] - {k}]
  {
    var before := Unfiled(index, k, groups);
    assert forall x :: x in groups + [g] <==> x in groups || x == g;
    if g in before {
      assert before[g] - {k} == index[g] - {k};
    }
  }

  // ------------------------------------------------------------------
  // The class
  // ------------------------------------------------------------------

  class PermissionCache {
    var order: seq<string>
    var entries: map<string, Entry>
    var groupIndex: map<string, set<string>>
    const ttlMs: nat
    var maxEntries: nat

    function View(): Cache
      reads this
    {
      Cache(order, entries, groupIndex, maxEntries)
    }

    constructor (ttl: nat, max: int)
      ensures Valid(View()) && entries == map[] && ttlMs == ttl && maxEntries == if max < 1 then 1 else max
    {
      order, entries, groupIndex := [], map[], map[];
      ttlMs := ttl;
      maxEntries := if max < 1 then 1 else max;
    }

    method Unfile(k: string, groups: seq<string>)
      modifies this`groupIndex
      ensures groupIndex == Unfiled(old(groupIndex), k, groups)
    {
      hide Unfiled;
      NothingUnfiled(groupIndex, k);
      var i := 0;
      while i < |groups|
        invariant 0 <= i <= |groups|
        invariant groupIndex == Unfiled(old(groupIndex), k, groups[..i])
      {
        var g := groups[i];
        assert groups[..i + 1] == groups[..i] + [g];
        UnfiledNext(old(groupIndex), k, groups[..i], g);
        if g in groupIndex {
          var idx := groupIndex[g] - {k};
          groupIndex := if idx == {} then groupIndex - {g} else groupIndex[g := idx];
        }
        i := i + 1;
      }
      assert groups[..i] == groups;
    }

    method Evict(k: string, entry: Entry)
      requires IndexOk(View()) && k in entries && entries[k] == entry
      modifies this
      ensures View() == Evicted(old(View()), {k})
    {
      UnfiledIsEvicted(View(), k);
      order, entries := Keep(order, {k}), entries - {k};
      Unfile(k, entry.indexGroups);
    }

    /** Evicts the first key until the cap holds. */
    method EvictOverflow()
      requires OrderOk(View()) && IndexOk(View())
      modifies this
      ensures View() == Evicted(old(View()), Excess(old(View())))
    {
      hide OrderOk, IndexOk, Evicted, Keep;
      ghost var was := View();
      ghost var n := 0;
      NothingEvicted(was);
      while maxEntries < |order|
        invariant n <= |was.order| && View() == Evicted(was, ToSet(was.order[..n])) && order == was.order[n..]
        invariant OrderOk(View()) && IndexOk(View())
        invariant maxEntries == was.maxEntries && (n == 0 || maxEntries <= |order|)
        decreases |order|
      {
        var oldest := order[0];
        OrderKnows(View(), oldest);
        EvictedKeepsIndex(View(), {oldest});
        EvictedKeepsOrder(View(), {oldest});
        Evict(oldest, entries[oldest]);
        EvictedTwice(was, ToSet(was.order[..n]), {oldest});
        assert ToSet(was.order[..n]) + {oldest} == ToSet(was.order[..n + 1]);
        OldestGone(was, n + 1);
        n := n + 1;
      }
      assert n == 0 ==> ToSet(was.order[..n]) == {};
    }

    method Get(t: Tuple, now: nat) returns (r: Option<string>)
      requires Valid(View())
      modifies this
      ensures View() == AfterGet(old(View()), Key(t), now) && r == Answer(old(View()), Key(t), now)
      ensures Valid(View())
    {
      hide Keep;
      var k := Key(t);
      GetKeeps(View(), k, now);
      if k !in entries {
        return None;
      }
      var entry := entries[k];
      if entry.expiresAt <= now {
        Evict(k, entry);
        return None;
      }
      order := Keep(order, {k}) + [k];
      return Some(entry.result);
    }

    method Set(t: Tuple, result: string, dependsOn: seq<string>, now: nat)
      requires Valid(View())
      modifies this
      ensures View() == AfterSet(old(View()), Key(t), Entry(result, now + ttlMs, FiledUnder(t.groupId, dependsOn)))
      ensures Valid(View())
    {
      hide Keep, IndexOk, OrderOk;
      var k := Key(t);
      var indexGroups := FiledUnder(t.groupId, dependsOn);
      var entry := Entry(result, now + ttlMs, indexGroups);
      ghost var was := View();
      SetKeeps(was, k, entry);
      StoredKeepsIndex(was, k, entry);
      StoredKeepsOrder(was, k, entry);
      if k in entries {
        Evict(k, entries[k]);
      } else {
        AbsentEvicted(was, k);
      }
      order, entries := order + [k], entries[k := entry];
      File(k, indexGroups);
      EvictOverflow();
    }

    method File(k: string, groups: seq<string>)
      modifies this`groupIndex
      ensures groupIndex == Indexed(old(groupIndex), k, groups)
    {
      hide Indexed;
      NothingIndexed(groupIndex, k);
      var i := 0;
      while i < |groups|
        invariant 0 <= i <= |groups|
        invariant groupIndex == Indexed(old(groupIndex), k, groups[..i])
      {
        var g := groups[i];
        assert groups[..i + 1] == groups[..i] + [g];
        IndexedNext(old(groupIndex), k, groups[..i], g);
        groupIndex := groupIndex[g := (if g in groupIndex then groupIndex[g] else {}) + {k}];
        i := i + 1;
      }
      assert groups[..i] == groups;
    }

    method SweepExpired(now: nat) returns (removed: nat)
      requires Valid(View())
      modifies this
      ensures View() == Evicted(old(View()), Expired(old(View()), now)) && removed == |Expired(old(View()), now)|
      ensures Valid(View())
    {
      hide Evicted, Keep, IndexOk;
      ghost var was := View();
      EvictedKeeps(was, Expired(was, now));
      NothingEvicted(was);
      ghost var gone: set<string> := {};
      var keys, i := order, 0;
      removed := 0;
      while i < |keys|
        invariant 0 <= i <= |keys| && keys == was.order
        invariant forall k :: k in gone <==> k in keys[..i] && k in Expired(was, now)
        invariant View() == Evicted(was, gone) && IndexOk(View()) && removed == |gone|
      {
        var k := keys[i];
        assert forall x :: x in keys[..i + 1] <==> x in keys[..i] || x == k;
        OrderKnows(was, k);
        StillThere(was, gone, k);
        if entries[k].expiresAt <= now {
          EvictedKeepsIndex(View(), {k});
          EvictedTwice(was, gone, {k});
          Evict(k, entries[k]);
          gone := gone + {k};
          removed := removed + 1;
        }
        i := i + 1;
      }
      assert keys[..i] == keys;
      assert gone == Expired(was, now);
    }

    method InvalidateGroup(group: string)
      requires Valid(View())
      modifies this
      ensures View() == Evicted(old(View()), Dependants(old(View()), group))
      ensures Valid(View())
    {
      hide Evicted, Keep, IndexOk, OrderOk;
      ghost var was := View();
      EvictedKeeps(was, Dependants(was, group));
      NothingEvicted(was);
      if group !in groupIndex {
        return;
      }
      var idx := groupIndex[group];
      var rest := idx;
      ghost var gone: set<string> := {};
      while rest != {}
        invariant gone + rest == idx && gone !! rest && View() == Evicted(was, gone) && IndexOk(View())
        decreases rest
      {
        var k :| k in rest;
        IndexKnows(was, group, k);
        StillThere(was, gone, k);
        EvictedKeepsIndex(View(), {k});
        EvictedTwice(was, gone, {k});
        Evict(k, entries[k]);
        rest, gone := rest - {k}, gone + {k};
      }
      assert gone == idx;
      GroupGone(was, group);
      groupIndex := groupIndex - {group};
    }

    method Clear()
      requires Valid(View())
      modifies this
      ensures View() == old(View()).(order := [], entries := map[], index := map[]) && Valid(View())
    {
      order, entries, groupIndex := [], map[], map[];
    }

    method SetMaxEntries(max: int)
      requires Valid(View())
      modifies this
      ensures
        var capped := old(View()).(maxEntries := if max < 1 then 1 else max);
        View() == Evicted(capped, Excess(capped))
      ensures Valid(View())
    {
      hide Evicted, Keep;
      maxEntries := if max < 1 then 1 else max;
      CappedKeeps(View());
      EvictOverflow();
    }
  }

  lemma IndexUntouched(c: Cache)
    requires IndexOk(c)
    ensures Evicted(c, {}).index == c.index
  {
    hide Keep;
    assert forall g :: g in c.index ==> c.index[g] - {} == c.index[g];
  }

  lemma NothingEvicted(c: Cache)
    requires OrderOk(c) && IndexOk(c)
    ensures Evicted(c, {}) == c && Evicted(c, ToSet(c.order[..0])) == c
  {
    hide IndexOk, Keep;
    IndexUntouched(c);
    KeepAll(c.order, {});
    assert c.entries - {} == c.entries;
    assert ToSet(c.order[..0]) == {};
  }

  lemma OrderKnows(c: Cache, k: string)
    requires OrderOk(c) && k in c.order
    ensures k in c.entries
  {
  }

  lemma IndexKnows(c: Cache, group: string, k: string)
    requires IndexOk(c) && group in c.index && k in c.index[group]
    ensures k in c.entries
  {
  }

  lemma StillThere(c: Cache, gone: set<string>, k: string)
    requires k in c.entries && k !in gone
    ensures k in Evicted(c, gone).entries && Evicted(c, gone).entries[k] == c.entries[k]
  {
  }

  lemma OldestGone(c: Cache, n: nat)
    requires OrderOk(c) && n <= |c.order|
    ensures Evicted(c, ToSet(c.order[..n])).order == c.order[n..]
  {
    DropOldest(c.order, n);
  }

  lemma AbsentUnindexed(c: Cache, k: string)
    requires IndexOk(c) && k !in c.entries
    ensures Evicted(c, {k}).index == c.index
  {
    hide Keep;
    assert forall g :: g in c.index ==> c.index[g] - {k} == c.index[g];
  }

  lemma AbsentEvicted(c: Cache, k: string)
    requires OrderOk(c) && IndexOk(c) && k !in c.entries
    ensures Evicted(c, {k}) == c
  {
    hide IndexOk, Keep;
    AbsentUnindexed(c, k);
    assert forall i :: 0 <= i < |c.order| ==> c.order[i] in c.order;
    KeepAll(c.order, {k});
    assert c.entries - {k} == c.entries;
  }

  /** Once every dependant is evicted, the group's set is already gone. */
  lemma GroupGone(c: Cache, group: string)
    ensures group !in Evicted(c, Dependants(c, group)).index
  {
  }

  lemma CappedKeeps(c: Cache)
    requires OrderOk(c) && IndexOk(c) && 1 <= c.maxEntries
    ensures Valid(Evicted(c, Excess(c)))
  {
    TrimmedOrder(c);
    EvictedKeepsIndex(c, Excess(c));
    EvictedKeepsOrder(c, Excess(c));
  }

  lemma NothingIndexed(index: map<string, set<string>>, k: string)
    ensures Indexed(index, k, []) == index
  {
    assert index.Keys + (set x | x in []) == index.Keys;
    assert forall g :: g in index ==> index[g] + {} == index[g];
  }

  lemma IndexedNext(index: map<string, set<string>>, k: string, groups: seq<string>, g: string)
    ensures
      var before := Indexed(index, k, groups);
      Indexed(index, k, groups + [g]) == before[g := (if g in before then before[g] else {}) + {k}]
  {
    assert forall x :: x in groups + [g] <==> x in groups || x == g;
    var before, after := Indexed(index, k, groups), Indexed(index, k, groups + [g]);
    var now := (if g in before then before[g] else {}) + {k};
    assert after.Keys == before.Keys + {g};
    assert after[g] == now;
    assert forall x :: x in before && x != g ==> after[x] == before[x];
    assert after == before[g := now];
  }

  lemma NothingUnfiled(index: map<string, set<string>>, k: string)
    ensures Unfiled(index, k, []) == index
  {
  }

  /** Invalidating a group drops exactly the answers filed under it. */
  lemma DependantsAreExact(c: Cache, group: string, k: string)
    requires Valid(c)
    ensures k in Evicted(c, Dependants(c, group)).entries <==> k in c.entries && group !in c.entries[k].indexGroups
  {
  }

  // ------------------------------------------------------------------
  // Over whole runs
  // ------------------------------------------------------------------

  datatype Step =
    | Tick(ms: nat)
    | Get(tuple: Tuple)
    | Set(tuple: Tuple, result: string, dependsOn: seq<string>)
    | Invalidate(group: string)
    | Sweep
    | Clear
    | SetMax(max: int)

  datatype Sys = Sys(cache: Cache, now: nat, ttl: nat)

  function Begin(ttl: nat, max: int): Sys {
    Sys(Cache([], map[], map[], if max < 1 then 1 else max), 0, ttl)
  }

  function EntryFor(s: Sys, t: Tuple, result: string, dependsOn: seq<string>): Entry {
    Entry(result, s.now + s.ttl, FiledUnder(t.groupId, dependsOn))
  }

  function Apply(s: Sys, step: Step): Sys {
    match step
    case Tick(ms) => s.(now := s.now + ms)
    case Get(t) => s.(cache := AfterGet(s.cache, Key(t), s.now))
    case Set(t, result, dependsOn) => s.(cache := AfterSet(s.cache, Key(t), EntryFor(s, t, result, dependsOn)))
    case Invalidate(group) => s.(cache := Evicted(s.cache, Dependants(s.cache, group)))
    case Sweep => s.(cache := Evicted(s.cache, Expired(s.cache, s.now)))
    case Clear => s.(cache := s.cache.(order := [], entries := map[], index := map[]))
    case SetMax(max) =>
      var capped := s.cache.(maxEntries := if max < 1 then 1 else max);
      s.(cache := Evicted(capped, Excess(capped)))
  }

  function Run(ttl: nat, max: int, steps: seq<Step>): Sys {
    if steps == [] then Begin(ttl, max) else Apply(Run(ttl, max, steps[..|steps| - 1]), steps[|steps| - 1])
  }

  // What the steps say by themselves.

  function Elapsed(steps: seq<Step>): nat {
    if steps == [] then 0
    else Elapsed(steps[..|steps| - 1]) + if steps[|steps| - 1].Tick? then steps[|steps| - 1].ms else 0
  }

  /** An answer as it was set: when, and the groups it depends on. */
  datatype Given = Given(result: string, at: nat, groups: set<string>)

  /**
   The last answer set for exactly that check, unless the cache was cleared since or a group the answer
   depends on was invalidated. An answer that names no group depends on the queried one.
   */
  function LastGiven(steps: seq<Step>, t: Tuple): Option<Given> {
    if steps == [] then None
    else
      var init := steps[..|steps| - 1];
      var before := LastGiven(init, t);
      match steps[|steps| - 1]
      case Set(u, result, dependsOn) =>
        if u == t then Some(Given(result, Elapsed(init), if dependsOn == [] then {t.groupId} else ToSet(dependsOn))) else before
      case Invalidate(group) => if before.Some? && group in before.value.groups then None else before
      case Clear => None
      case _ => before
  }

  /** When each key was last used: the step that set it, or that asked for it and was answered. */
  function LastUses(ttl: nat, max: int, steps: seq<Step>): map<string, nat> {
    if steps == [] then map[]
    else
      var init, last := steps[..|steps| - 1], steps[|steps| - 1];
      var s, before := Run(ttl, max, init), LastUses(ttl, max, init);
      if last.Set? || (last.Get? && Answer(s.cache, Key(last.tuple), s.now).Some?) then before[Key(last.tuple) := |init|] else before
  }

  /** The cap last asked for, at least one. */
  function CapAsked(max: int, steps: seq<Step>): nat {
    if steps == [] then (if max < 1 then 1 else max)
    else if steps[|steps| - 1].SetMax? then (if steps[|steps| - 1].max < 1 then 1 else steps[|steps| - 1].max)
    else CapAsked(max, steps[..|steps| - 1])
  }

  /** Whatever the cache holds for a check is the answer last given, with its lifetime and its groups. */
  ghost predicate Backed(s: Sys, steps: seq<Step>) {
    forall t :: Key(t) in s.cache.entries ==>
      var given, entry := LastGiven(steps, t), s.cache.entries[Key(t)];
      && given.Some? && entry.result == given.value.result && entry.expiresAt == given.value.at + s.ttl
      && ToSet(entry.indexGroups) == given.value.groups
  }

  /** Keys stand in the order of their last use. */
  ghost predicate ByUse(order: seq<string>, used: map<string, nat>, clock: nat) {
    && (forall i :: 0 <= i < |order| ==> order[i] in used && used[order[i]] < clock)
    && (forall i, j :: 0 <= i < j < |order| ==> used[order[i]] < used[order[j]])
  }

  lemma ValidKeeps(s: Sys, step: Step)
    requires Valid(s.cache)
    ensures Valid(Apply(s, step).cache)
  {
    hide Evicted, Excess, AfterSet, AfterGet, Key, Keep;
    match step
    case Get(t) => GetKeeps(s.cache, Key(t), s.now);
    case Set(t, result, dependsOn) => SetKeeps(s.cache, Key(t), EntryFor(s, t, result, dependsOn));
    case Invalidate(group) => EvictedKeeps(s.cache, Dependants(s.cache, group));
    case Sweep => EvictedKeeps(s.cache, Expired(s.cache, s.now));
    case SetMax(max) => CappedKeeps(s.cache.(maxEntries := if max < 1 then 1 else max));
    case _ =>
  }

  lemma FiledGroups(groupId: string, dependsOn: seq<string>)
    ensures ToSet(FiledUnder(groupId, dependsOn)) == if dependsOn == [] then {groupId} else ToSet(dependsOn)
  {
  }

  lemma LastStep(steps: seq<Step>, step: Step)
    ensures (steps + [step])[..|steps + [step]| - 1] == steps && (steps + [step])[|steps + [step]| - 1] == step
  {
  }

  lemma BackedKeeps(s: Sys, steps: seq<Step>, step: Step)
    requires Valid(s.cache) && Backed(s, steps) && s.now == Elapsed(steps)
    ensures Backed(Apply(s, step), steps + [step])
  {
    hide Keep, Excess, Key, FiledUnder, Valid;
    LastStep(steps, step);
    forall t | Key(t) in Apply(s, step).cache.entries
      ensures
        var given, entry := LastGiven(steps + [step], t), Apply(s, step).cache.entries[Key(t)];
        && given.Some? && entry.result == given.value.result && entry.expiresAt == given.value.at + s.ttl
        && ToSet(entry.indexGroups) == given.value.groups
    {
      if step.Set? {
        KeyIsInjective(t, step.tuple);
        FiledGroups(t.groupId, step.dependsOn);
      } else if step.Invalidate? {
        DependantsAreExact(s.cache, step.group, Key(t));
      }
    }
  }

  /** Dropping keys keeps the rest in the order of use. */
  lemma {:induction false} KeepByUse(order: seq<string>, drop: set<string>, used: map<string, nat>, clock: nat)
    requires ByUse(order, used, clock)
    ensures ByUse(Keep(order, drop), used, clock)
  {
    if order != [] {
      KeepByUse(order[..|order| - 1], drop, used, clock);
      var before := Keep(order[..|order| - 1], drop);
      forall i | 0 <= i < |before|
        ensures used[before[i]] < used[order[|order| - 1]]
      {
        assert before[i] in before;
      }
    }
  }

  lemma UsedLast(order: seq<string>, k: string, used: map<string, nat>, clock: nat)
    requires ByUse(order, used, clock)
    ensures ByUse(Keep(order, {k}) + [k], used[k := clock], clock + 1)
  {
    KeepByUse(order, {k}, used, clock);
    assert forall i :: 0 <= i < |Keep(order, {k})| ==> Keep(order, {k})[i] in Keep(order, {k});
  }

  lemma NotYet(order: seq<string>, used: map<string, nat>, clock: nat)
    requires ByUse(order, used, clock)
    ensures ByUse(order, used, clock + 1)
  {
  }

  lemma ByUseKeeps(ttl: nat, max: int, steps: seq<Step>, step: Step)
    requires ByUse(Run(ttl, max, steps).cache.order, LastUses(ttl, max, steps), |steps|)
    ensures ByUse(Apply(Run(ttl, max, steps), step).cache.order, LastUses(ttl, max, steps + [step]), |steps| + 1)
  {
    hide ByUse, Keep, Key, Run;
    LastStep(steps, step);
    var s, used, clock := Run(ttl, max, steps), LastUses(ttl, max, steps), |steps|;
    NotYet(s.cache.order, used, clock);
    match step
    case Get(t) =>
      UsedLast(s.cache.order, Key(t), used, clock);
      KeepByUse(s.cache.order, {Key(t)}, used, clock + 1);
    case Set(t, result, dependsOn) =>
      var stored := Stored(s.cache, Key(t), EntryFor(s, t, result, dependsOn));
      UsedLast(s.cache.order, Key(t), used, clock);
      KeepByUse(stored.order, Excess(stored), used[Key(t) := clock], clock + 1);
    case Invalidate(group) => KeepByUse(s.cache.order, Dependants(s.cache, group), used, clock + 1);
    case Sweep => KeepByUse(s.cache.order, Expired(s.cache, s.now), used, clock + 1);
    case SetMax(max) =>
      var capped := s.cache.(maxEntries := if max < 1 then 1 else max);
      KeepByUse(capped.order, Excess(capped), used, clock + 1);
    case Clear => NothingUsed(used, clock + 1);
    case Tick(_) =>
  }

  lemma NothingUsed(used: map<string, nat>, clock: nat)
    ensures ByUse([], used, clock)
  {
  }

  lemma CapKeeps(s: Sys, step: Step)
    ensures Apply(s, step).cache.maxEntries == if step.SetMax? then (if step.max < 1 then 1 else step.max) else s.cache.maxEntries
    ensures Apply(s, step).ttl == s.ttl && Apply(s, step).now == s.now + if step.Tick? then step.ms else 0
  {
    hide Keep, Excess, Key;
  }

  ghost predicate Inv(ttl: nat, max: int, steps: seq<Step>) {
    var s := Run(ttl, max, steps);
    && Valid(s.cache) && Backed(s, steps) && ByUse(s.cache.order, LastUses(ttl, max, steps), |steps|)
    && s.ttl == ttl && s.now == Elapsed(steps) && s.cache.maxEntries == CapAsked(max, steps)
  }

  lemma {:induction false} RunKeeps(ttl: nat, max: int, steps: seq<Step>)
    ensures Inv(ttl, max, steps)
  {
    hide Apply, Valid, Backed, ByUse, LastUses;
    if steps == [] {
      EmptyInv(ttl, max);
    } else {
      var init, last := steps[..|steps| - 1], steps[|steps| - 1];
      RunKeeps(ttl, max, init);
      assert steps == init + [last];
      var s := Run(ttl, max, init);
      ValidKeeps(s, last);
      BackedKeeps(s, init, last);
      ByUseKeeps(ttl, max, init, last);
      CapKeeps(s, last);
    }
  }

  lemma EmptyInv(ttl: nat, max: int)
    ensures Inv(ttl, max, [])
  {
  }

  /**
   An answer from the cache is the one last set for exactly that check, still within its lifetime, and
   since then the cache was not cleared and no group it depends on was invalidated.
   */
  lemma AnswersAreCurrent(ttl: nat, max: int, steps: seq<Step>, t: Tuple)
    requires Answer(Run(ttl, max, steps).cache, Key(t), Run(ttl, max, steps).now).Some?
    ensures
      var s, given := Run(ttl, max, steps), LastGiven(steps, t);
      && given.Some? && Answer(s.cache, Key(t), s.now) == Some(given.value.result)
      && Elapsed(steps) < given.value.at + ttl
  {
    RunKeeps(ttl, max, steps);
  }

  /** A sweep leaves no expired entry and touches no other, and the cap is always the one last asked for. */
  lemma SweepLeavesTheLive(ttl: nat, max: int, steps: seq<Step>, k: string)
    ensures
      var s, after := Run(ttl, max, steps), Apply(Run(ttl, max, steps), Sweep);
      && (k in after.cache.entries <==> k in s.cache.entries && Elapsed(steps) < s.cache.entries[k].expiresAt)
      && (k in after.cache.entries ==> after.cache.entries[k] == s.cache.entries[k])
      && s.cache.maxEntries == CapAsked(max, steps) && |s.cache.order| <= CapAsked(max, steps)
  {
    RunKeeps(ttl, max, steps);
  }

  // While no more keys than the cap are set, the cache forgets nothing by itself.

  function KeysSet(steps: seq<Step>): set<string> {
    if steps == [] then {}
    else KeysSet(steps[..|steps| - 1]) + if steps[|steps| - 1].Set? then {Key(steps[|steps| - 1].tuple)} else {}
  }

  ghost predicate NoResize(steps: seq<Step>) {
    forall i :: 0 <= i < |steps| ==> !steps[i].SetMax?
  }

  lemma {:induction false} DistinctSize(keys: seq<string>, within: set<string>)
    requires Distinct(keys) && forall k :: k in keys ==> k in within
    ensures |keys| <= |within|
  {
    if keys != [] {
      var init, last := keys[..|keys| - 1], keys[|keys| - 1];
      assert last !in init;
      DistinctSize(init, within - {last});
    }
  }

  lemma EntriesWithin(s: Sys, step: Step, within: set<string>)
    requires s.cache.entries.Keys <= within
    ensures Apply(s, step).cache.entries.Keys <= within + if step.Set? then {Key(step.tuple)} else {}
  {
    hide Keep, Excess, Key;
  }

  lemma {:induction false} OnlyKeysSet(ttl: nat, max: int, steps: seq<Step>)
    ensures Run(ttl, max, steps).cache.entries.Keys <= KeysSet(steps)
  {
    hide Apply, Key;
    if steps != [] {
      OnlyKeysSet(ttl, max, steps[..|steps| - 1]);
      EntriesWithin(Run(ttl, max, steps[..|steps| - 1]), steps[|steps| - 1], KeysSet(steps[..|steps| - 1]));
    }
  }

  lemma NothingPushedOut(c: Cache, k: string, entry: Entry, within: set<string>)
    requires Valid(c) && c.entries.Keys + {k} <= within && |within| <= c.maxEntries
    ensures forall x :: x in c.entries || x == k ==> x in AfterSet(c, k, entry).entries
  {
    hide Keep, IndexOk;
    var stored := Stored(c, k, entry);
    StoredKeepsOrder(c, k, entry);
    DistinctSize(stored.order, within);
    assert Excess(stored) == {};
  }

  /** A step keeps every live answer that is still the last given, if it pushes nothing out. */
  lemma LiveStays(s: Sys, steps: seq<Step>, step: Step, t: Tuple, within: set<string>)
    requires Valid(s.cache) && Backed(s, steps) && s.now == Elapsed(steps) && !step.SetMax?
    requires s.cache.entries.Keys <= within && (step.Set? ==> Key(step.tuple) in within) && |within| <= s.cache.maxEntries
    requires LastGiven(steps + [step], t).Some? && Elapsed(steps + [step]) < LastGiven(steps + [step], t).value.at + s.ttl
    requires LastGiven(steps, t).Some? && Elapsed(steps) < LastGiven(steps, t).value.at + s.ttl ==> Key(t) in s.cache.entries
    ensures Key(t) in Apply(s, step).cache.entries
  {
    hide Keep, Key, Valid, AfterSet, FiledUnder;
    LastStep(steps, step);
    match step
    case Set(u, result, dependsOn) => NothingPushedOut(s.cache, Key(u), EntryFor(s, u, result, dependsOn), within);
    case Invalidate(group) => DependantsAreExact(s.cache, group, Key(t));
    case _ =>
  }

  lemma {:induction false} LiveIsHeld(ttl: nat, max: int, steps: seq<Step>, t: Tuple)
    requires NoResize(steps) && |KeysSet(steps)| <= CapAsked(max, [])
    requires LastGiven(steps, t).Some? && Elapsed(steps) < LastGiven(steps, t).value.at + ttl
    ensures Key(t) in Run(ttl, max, steps).cache.entries
  {
    hide Apply, Valid, Backed, ByUse, LastUses, Key, Elapsed;
    var init, last := steps[..|steps| - 1], steps[|steps| - 1];
    assert steps == init + [last];
    RunKeeps(ttl, max, init);
    OnlyKeysSet(ttl, max, init);
    FewerKeys(steps);
    SameCap(max, init);
    if LastGiven(init, t).Some? && Elapsed(init) < LastGiven(init, t).value.at + ttl {
      LiveIsHeld(ttl, max, init, t);
    }
    LiveStays(Run(ttl, max, init), init, last, t, KeysSet(steps));
  }

  lemma FewerKeys(steps: seq<Step>)
    requires steps != []
    ensures KeysSet(steps[..|steps| - 1]) <= KeysSet(steps) && |KeysSet(steps[..|steps| - 1])| <= |KeysSet(steps)|
    ensures steps[|steps| - 1].Set? ==> Key(steps[|steps| - 1].tuple) in KeysSet(steps)
  {
    hide Key;
    SubsetSize(KeysSet(steps[..|steps| - 1]), KeysSet(steps));
  }

  lemma {:induction false} SubsetSize(a: set<string>, b: set<string>)
    requires a <= b
    ensures |a| <= |b|
  {
    assert b == a + (b - a);
  }

  lemma {:induction false} SameCap(max: int, steps: seq<Step>)
    requires NoResize(steps)
    ensures CapAsked(max, steps) == CapAsked(max, [])
  {
    if steps != [] {
      SameCap(max, steps[..|steps| - 1]);
    }
  }

  /**
   While no more keys than the cap have been set, the cache answers every check exactly: with the answer
   last given, for its lifetime, until a group it depends on is invalidated or the cache is cleared.
   */
  lemma AnswersAreExact(ttl: nat, max: int, steps: seq<Step>, t: Tuple)
    requires NoResize(steps) && |KeysSet(steps)| <= CapAsked(max, [])
    ensures
      var s, given := Run(ttl, max, steps), LastGiven(steps, t);
      Answer(s.cache, Key(t), s.now) ==
      if given.Some? && Elapsed(steps) < given.value.at + ttl then Some(given.value.result) else None
  {
    hide Run, LastGiven, Key, Valid, LastUses, ByUse;
    RunKeeps(ttl, max, steps);
    var given := LastGiven(steps, t);
    if given.Some? && Elapsed(steps) < given.value.at + ttl {
      LiveIsHeld(ttl, max, steps, t);
    }
  }

  /** The cache never exceeds its cap, and what a new answer pushes out was used before all that stays. */
  lemma EvictsLeastRecentlyUsed(ttl: nat, max: int, steps: seq<Step>, t: Tuple, entry: Entry, out: string, kept: string)
    requires
      var c := Run(ttl, max, steps).cache;
      out in c.entries && out !in AfterSet(c, Key(t), entry).entries && kept in AfterSet(c, Key(t), entry).entries
    ensures
      var c, used := Run(ttl, max, steps).cache, LastUses(ttl, max, steps);
      && |AfterSet(c, Key(t), entry).order| <= CapAsked(max, steps)
      && out != Key(t)
      && (kept != Key(t) ==> out in used && kept in used && used[out] < used[kept])
  {
    hide Key, Run, LastUses, Backed;
    var c := Run(ttl, max, steps).cache;
    RunKeeps(ttl, max, steps);
    SetKeeps(c, Key(t), entry);
    AfterSetCap(c, Key(t), entry);
    if kept != Key(t) {
      PushedOut(c, Key(t), entry, out, kept, LastUses(ttl, max, steps), |steps|);
    }
  }

  lemma AfterSetCap(c: Cache, k: string, entry: Entry)
    ensures AfterSet(c, k, entry).maxEntries == c.maxEntries
  {
    hide Keep, Excess;
  }

  lemma OlderThanKept(order: seq<string>, n: nat, out: string, kept: string, used: map<string, nat>, clock: nat)
    requires ByUse(order, used, clock) && n <= |order| && out in ToSet(order[..n]) && kept in order && kept !in ToSet(order[..n])
    ensures out in used && kept in used && used[out] < used[kept]
  {
    var i :| 0 <= i < n && order[i] == out;
    var j :| 0 <= j < |order| && order[j] == kept;
    forall x | 0 <= x < n
      ensures order[x] in ToSet(order[..n])
    {
      assert order[..n][x] == order[x];
    }
  }

  lemma PushedOut(c: Cache, k: string, entry: Entry, out: string, kept: string, used: map<string, nat>, clock: nat)
    requires Valid(c) && ByUse(c.order, used, clock) && out in c.entries && k != out && k != kept
    requires out !in AfterSet(c, k, entry).entries && kept in AfterSet(c, k, entry).entries
    ensures out in used && kept in used && used[out] < used[kept]
  {
    hide ByUse, IndexOk, Keep, ToSet;
    var stored := Stored(c, k, entry);
    StoredKeepsOrder(c, k, entry);
    UsedLast(c.order, k, used, clock);
    OlderThanKept(stored.order, |stored.order| - stored.maxEntries, out, kept, used[k := clock], clock + 1);
  }
}
