/**
 Membership caps of group kinds (packages/server/src/groupKinds.ts): who is counted, which
 activations a kind's limits refuse, and which kinds a merged person would exceed.
 */
module GroupKinds {
  import opened Common

  type Person = string
  type GroupId = string
  type RowId = nat

  /** A configured limit is at least one (packages/server/src/config/schema.ts). */
  type Positive = n: nat | 1 <= n witness 1

  datatype Limits = Limits(maxMembers: Option<Positive>, maxPerUser: Option<Positive>, deleteWhenEmpty: bool)

  datatype Failure = GroupFull | GroupLimitReached

  datatype Group = Group(game: string, kind: string, live: bool, defaultRole: Option<string>)

  datatype Status = Active | Invited | Departed | Kicked | Banned

  datatype Json = Null | Object(keys: set<string>) | Array | Scalar

  datatype RoleRef = RoleRef(roleId: string, isDefault: bool)

  /** A `GroupMember` row with what hangs off it. */
  datatype Row = Row(group: GroupId, person: Person, status: Status, bannedUntil: Option<nat>,
                     roles: seq<RoleRef>, overrides: nat, metadata: Json,
                     notesPublic: Option<string>, notesPrivate: Option<string>, version: nat)

  type Rows = map<RowId, Row>
  type Groups = map<GroupId, Group>

  /** Limits by game and kind; a kind that is not listed has none. */
  type Config = map<(string, string), Limits>

  // ------------------------------------------------------------------
  // What the limits count
  // ------------------------------------------------------------------

  predicate Counts(row: Row, groups: Groups, game: string, kind: string, people: set<Person>) {
    && row.status == Active && row.person in people && row.group in groups
    && groups[row.group].game == game && groups[row.group].kind == kind && groups[row.group].live
  }

  /** The live groups of one kind that any of `people` is an active member of. */
  function ActiveGroups(rows: Rows, groups: Groups, game: string, kind: string, people: set<Person>): set<GroupId> {
    set id | id in rows && Counts(rows[id], groups, game, kind, people) :: rows[id].group
  }

  /** The active rows of one group. */
  function ActiveRows(rows: Rows, group: GroupId): set<RowId> {
    set id | id in rows && rows[id].group == group && rows[id].status == Active
  }

  /** The rows the per-user query counts: memberships in other live groups of the kind. */
  function OtherRows(rows: Rows, groups: Groups, game: string, kind: string, group: GroupId, person: Person): set<RowId> {
    set id | id in rows && Counts(rows[id], groups, game, kind, {person}) && rows[id].group != group
  }

  /** The unique key of the table. */
  ghost predicate OneRowEach(rows: Rows) {
    forall a, b :: a in rows && b in rows && rows[a].group == rows[b].group && rows[a].person == rows[b].person ==> a == b
  }

  lemma {:induction false} SameSize<X, Y>(xs: set<X>, ys: set<Y>, f: map<X, Y>)
    requires xs == f.Keys && ys == f.Values
    requires forall a, b :: a in f && b in f && f[a] == f[b] ==> a == b
    ensures |xs| == |ys|
    decreases |xs|
  {
    if xs == {} {
      assert ys == {};
    } else {
      var x :| x in xs;
      var rest := map a | a in f && a != x :: f[a];
      assert rest.Keys == xs - {x};
      assert rest.Values == ys - {f[x]} by {
        forall y | y in ys - {f[x]}
          ensures y in rest.Values
        {
          var a :| a in f && f[a] == y;
          assert a in rest && rest[a] == y;
        }
        forall y | y in rest.Values
          ensures y in ys && y != f[x]
        {
          var a :| a in rest && rest[a] == y;
        }
      }
      SameSize(xs - {x}, ys - {f[x]}, rest);
    }
  }

  /** Under the unique key, the rows the query counts are as many as the other groups they lie in. */
  lemma RowsCountGroups(rows: Rows, groups: Groups, game: string, kind: string, group: GroupId, person: Person)
    requires OneRowEach(rows)
    ensures |OtherRows(rows, groups, game, kind, group, person)| == |ActiveGroups(rows, groups, game, kind, {person}) - {group}|
  {
    var counted := OtherRows(rows, groups, game, kind, group, person);
    var f := map id | id in counted :: rows[id].group;
    assert f.Values == ActiveGroups(rows, groups, game, kind, {person}) - {group} by {
      forall g | g in ActiveGroups(rows, groups, game, kind, {person}) - {group}
        ensures g in f.Values
      {
        var id :| id in rows && Counts(rows[id], groups, game, kind, {person}) && rows[id].group == g;
        assert id in f && f[id] == g;
      }
    }
    SameSize(counted, f.Values, f);
  }

  // ------------------------------------------------------------------
  // kindLimitFailures
  // ------------------------------------------------------------------

  /** One row of the grouped per-user count; a person in no other group of the kind has none. */
  datatype Held = Held(person: Person, n: nat)

  predicate OverPerUser(limits: Limits, held: seq<Held>, person: Person) {
    limits.maxPerUser.Some? && exists i :: 0 <= i < |held| && held[i].person == person && limits.maxPerUser.value <= held[i].n
  }

  /** How many of `people` the per-user limit lets in. */
  function Eligible(limits: Limits, held: seq<Held>, people: seq<Person>): nat {
    if people == [] then 0
    else Eligible(limits, held, people[..|people| - 1]) + if OverPerUser(limits, held, people[|people| - 1]) then 0 else 1
  }

  predicate NoRoomFor(limits: Limits, held: seq<Held>, active: nat, people: seq<Person>, k: nat)
    requires k < |people|
  {
    && !OverPerUser(limits, held, people[k])
    && limits.maxMembers.Some? && limits.maxMembers.value <= active + Eligible(limits, held, people[..k])
  }

  /**
   A person over the per-user limit fails with it; of the rest, in request order, one fails with a
   full group exactly when the eligible people before it already fill the group.
   */
  ghost predicate EarliestFit(failures: map<Person, Failure>, limits: Limits, held: seq<Held>, active: nat, people: seq<Person>) {
    && (forall p :: p in failures ==> p in people)
    && (forall k :: 0 <= k < |people| ==>
          && ((people[k] in failures && failures[people[k]] == GroupLimitReached) <==> OverPerUser(limits, held, people[k]))
          && ((people[k] in failures && failures[people[k]] == GroupFull) <==> NoRoomFor(limits, held, active, people, k)))
  }

  method KindLimitFailures(limits: Option<Limits>, activating: seq<Person>, held: seq<Held>, active: nat)
    returns (failures: map<Person, Failure>)
    requires forall i :: 0 <= i < |held| ==> held[i].person in activating
    ensures limits.None? || activating == [] ==> failures == map[]
    ensures limits.Some? ==> EarliestFit(failures, limits.value, held, active, Dedup(activating))
  {
    failures := map[];
    if limits.None? || activating == [] {
      return;
    }
    var people := Dedup(activating);
    if limits.value.maxPerUser.Some? {
      failures := OverLimit(limits.value, held);
    }
    if limits.value.maxMembers.Some? {
      failures := FillRoom(limits.value, held, limits.value.maxMembers.value - active, active, people, failures);
    }
  }

  /** The per-user half: everyone already at the limit. */
  method OverLimit(limits: Limits, held: seq<Held>) returns (failures: map<Person, Failure>)
    requires limits.maxPerUser.Some?
    ensures forall p :: p in failures <==> OverPerUser(limits, held, p)
    ensures forall p :: p in failures ==> failures[p] == GroupLimitReached && exists i :: 0 <= i < |held| && held[i].person == p
  {
    failures := map[];
    var i := 0;
    while i < |held|
      invariant 0 <= i <= |held|
      invariant forall p :: p in failures <==>
                  exists j :: 0 <= j < i && held[j].person == p && limits.maxPerUser.value <= held[j].n
      invariant forall p :: p in failures ==> failures[p] == GroupLimitReached
    {
      if limits.maxPerUser.value <= held[i].n {
        failures := failures[held[i].person := GroupLimitReached];
      }
      i := i + 1;
    }
  }

  /** The room half: the remaining people take the free places in order. */
  method FillRoom(limits: Limits, held: seq<Held>, free: int, active: nat, people: seq<Person>, over: map<Person, Failure>)
    returns (failures: map<Person, Failure>)
    requires limits.maxMembers.Some? && free == limits.maxMembers.value - active && Distinct(people)
    requires forall p :: p in over <==> OverPerUser(limits, held, p)
    requires forall p :: p in over ==> p in people && over[p] == GroupLimitReached
    ensures EarliestFit(failures, limits, held, active, people)
  {
    hide OverPerUser;
    failures := over;
    var room := free;
    var k := 0;
    while k < |people|
      invariant 0 <= k <= |people|
      invariant 0 < room ==> room == free - Eligible(limits, held, people[..k])
      invariant room <= 0 ==> free <= Eligible(limits, held, people[..k])
      invariant forall p :: p in failures ==> p in people
      invariant forall p :: p in failures && failures[p] == GroupLimitReached <==> OverPerUser(limits, held, p)
      invariant forall j :: 0 <= j < k ==> (people[j] in failures && failures[people[j]] == GroupFull <==> NoRoomFor(limits, held, active, people, j))
      invariant forall j :: k <= j < |people| ==> (people[j] in failures <==> OverPerUser(limits, held, people[j]))
    {
      var person := people[k];
      assert people[..k + 1][..k] == people[..k] && people[..k + 1][k] == person;
      if person !in failures {
        if 0 < room {
          room := room - 1;
        } else {
          failures := failures[person := GroupFull];
        }
      }
      k := k + 1;
    }
  }

  /** How many of `people` did not fail. */
  function Admitted(failures: map<Person, Failure>, people: seq<Person>): nat {
    if people == [] then 0
    else Admitted(failures, people[..|people| - 1]) + if people[|people| - 1] in failures then 0 else 1
  }

  /** The admitted people fill the room there is, and everyone eligible gets in while there is room. */
  lemma {:induction false} AdmittedFillTheRoom(failures: map<Person, Failure>, limits: Limits, held: seq<Held>, active: nat,
                                               people: seq<Person>, n: nat)
    requires EarliestFit(failures, limits, held, active, people) && n <= |people|
    ensures
      var eligible := Eligible(limits, held, people[..n]);
      Admitted(failures, people[..n]) ==
      if limits.maxMembers.None? || active + eligible <= limits.maxMembers.value then eligible
      else if active <= limits.maxMembers.value then limits.maxMembers.value - active else 0
  {
    if n != 0 {
      AdmittedFillTheRoom(failures, limits, held, active, people, n - 1);
      assert people[..n][..n - 1] == people[..n - 1];
      assert NoRoomFor(limits, held, active, people, n - 1) || !NoRoomFor(limits, held, active, people, n - 1);
    }
  }

  /** Nobody fails exactly when nobody is over the per-user limit and the group has room for all. */
  lemma AllAdmitted(failures: map<Person, Failure>, limits: Limits, held: seq<Held>, active: nat, people: seq<Person>)
    requires EarliestFit(failures, limits, held, active, people)
    ensures
      failures == map[] <==>
      && (forall k :: 0 <= k < |people| ==> !OverPerUser(limits, held, people[k]))
      && (limits.maxMembers.Some? && people != [] ==> active + |people| <= limits.maxMembers.value)
  {
    if forall k :: 0 <= k < |people| ==> !OverPerUser(limits, held, people[k]) {
      AllEligible(limits, held, people, |people|);
      if people != [] {
        var k := |people| - 1;
        AllEligible(limits, held, people, k);
        assert NoRoomFor(limits, held, active, people, k) <==>
            (limits.maxMembers.Some? && limits.maxMembers.value < active + |people|);
        if limits.maxMembers.None? || active + |people| <= limits.maxMembers.value {
          forall j | 0 <= j < |people|
            ensures people[j] !in failures
          {
            AllEligible(limits, held, people, j);
          }
        }
      }
    }
  }

  lemma {:induction false} AllEligible(limits: Limits, held: seq<Held>, people: seq<Person>, n: nat)
    requires n <= |people| && forall k :: 0 <= k < |people| ==> !OverPerUser(limits, held, people[k])
    ensures Eligible(limits, held, people[..n]) == n
  {
    if n != 0 {
      AllEligible(limits, held, people, n - 1);
      assert people[..n][..n - 1] == people[..n - 1];
    }
  }

  // ------------------------------------------------------------------
  // mergedPerUserOverflow
  // ------------------------------------------------------------------

  predicate Capped(config: Config, game: string, kind: string) {
    (game, kind) in config && config[(game, kind)].maxPerUser.Some?
  }

  function Cap(config: Config, game: string, kind: string): nat
    requires Capped(config, game, kind)
  {
    config[(game, kind)].maxPerUser.value
  }

  /** The kinds of `game` whose cap one person holding all of these memberships would exceed. */
  function Overflow(config: Config, rows: Rows, groups: Groups, game: string, people: set<Person>): set<string> {
    set slot | slot in config && slot.0 == game && Capped(config, game, slot.1)
               && Cap(config, game, slot.1) < |ActiveGroups(rows, groups, game, slot.1, people)| :: slot.1
  }
}
