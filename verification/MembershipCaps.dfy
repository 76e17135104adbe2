/**
 The membership caps over every interleaving of joins, departures, idle sweeps and link merges
 (packages/server/src/groupKinds.ts, packages/server/src/identityLink.ts). A transaction is a chain
 of atomic statements; it takes its locks one stage at a time, holds them to its end, and its writes
 appear when it commits.
 */
module MembershipCaps {
  import opened Common
  import opened GroupKinds
  import opened IdentityLink

  type Tx = nat

  datatype Slot = Slot(game: string, kind: string, person: Person)

  /** A person about to become active, with the row found for them when the transaction looked. */
  datatype Target = Target(person: Person, existing: Option<RowId>)

  datatype JoinStage = Begun | Locked | Looked | Holding | Checked

  datatype LinkStage = Asked | HoldingBoth | Counted | Ready

  datatype Txn =
    | Join(group: GroupId, targets: seq<Target>, join: JoinStage)
    | Link(game: string, issuer: Person, redeemer: Person, link: LinkStage)

  /** The committed tables, with the next free row id. */
  datatype Tables = Tables(rows: Rows, groups: Groups, people: set<Person>, next: RowId)

  /**
   `homes` is the game each person's ids were made in: ids are created, linked and unlinked within
   one game, so a person never changes it.
   */
  datatype State = State(db: Tables, homes: map<Person, string>, txns: map<Tx, Txn>, groupLock: map<GroupId, Tx>, slotLock: map<Slot, Tx>, personLock: map<Person, Tx>)

  // ------------------------------------------------------------------
  // A join's writes
  // ------------------------------------------------------------------

  ghost predicate Found(rows: Rows, group: GroupId, target: Target) {
    if target.existing.Some? then
      target.existing.value in rows && rows[target.existing.value].group == group && rows[target.existing.value].person == target.person
    else !IsMember(rows, group, target.person)
  }

  function NewRow(group: GroupId, person: Person): Row {
    Row(group, person, Active, None, [], 0, Object({}), None, None, 1)
  }

  function Reactivated(row: Row): Row {
    row.(status := Active, bannedUntil := None, version := row.version + 1)
  }

  /** One membership write by row id or as a new row; nothing when the database refuses it. */
  ghost function WriteOne(db: Tables, group: GroupId, target: Target): Option<Tables> {
    if target.existing.Some? then
      if target.existing.value in db.rows then
        Some(db.(rows := db.rows[target.existing.value := Reactivated(db.rows[target.existing.value])]))
      else None
    else if IsMember(db.rows, group, target.person) || target.person !in db.people then None
    else Some(db.(rows := db.rows[db.next := NewRow(group, target.person)], next := db.next + 1))
  }

  ghost function WriteAll(db: Tables, group: GroupId, targets: seq<Target>): Option<Tables> {
    if targets == [] then Some(db)
    else
      var before := WriteAll(db, group, targets[..|targets| - 1]);
      if before.None? then None else WriteOne(before.value, group, targets[|targets| - 1])
  }

  function People(targets: seq<Target>): set<Person> {
    set i | 0 <= i < |targets| :: targets[i].person
  }

  predicate DistinctPeople(targets: seq<Target>) {
    forall i, j :: 0 <= i < j < |targets| ==> targets[i].person != targets[j].person
  }

  // ------------------------------------------------------------------
  // Steps
  // ------------------------------------------------------------------

  datatype Step =
    | NewGroup(group: GroupId, info: Group)
    | NewPerson(person: Person, game: string)
    | BeginJoin(tx: Tx, group: GroupId, people: seq<Person>)
    | LockGroup(tx: Tx)
    | Look(tx: Tx, found: seq<Option<RowId>>)
    | LockSlots(tx: Tx)
    | Check(tx: Tx)
    | CommitJoin(tx: Tx)
    | BeginLink(tx: Tx, game: string, issuer: Person, redeemer: Person)
    | LockBoth(tx: Tx)
    | CountBoth(tx: Tx)
    | LockPeople(tx: Tx)
    | CommitLink(tx: Tx, issuerHas: Footprint, redeemerHas: Footprint)
    | Abort(tx: Tx)
    | Depart(row: RowId, to: Status)
    | SweepIdle(group: GroupId)

  /** The end of a transaction: it is gone and so are its locks. */
  function End(s: State, tx: Tx): State {
    s.(txns := s.txns - {tx},
       groupLock := map g | g in s.groupLock && s.groupLock[g] != tx :: s.groupLock[g],
       slotLock := map k | k in s.slotLock && s.slotLock[k] != tx :: s.slotLock[k],
       personLock := map p | p in s.personLock && s.personLock[p] != tx :: s.personLock[p])
  }

  predicate IsLive(groups: Groups, group: GroupId) {
    group in groups && groups[group].live
  }

  predicate JoinAt(s: State, tx: Tx, stage: JoinStage) {
    tx in s.txns && s.txns[tx].Join? && s.txns[tx].join == stage
  }

  predicate LinkAt(s: State, tx: Tx, stage: LinkStage) {
    tx in s.txns && s.txns[tx].Link? && s.txns[tx].link == stage
  }

  function AfterLockGroup(s: State, tx: Tx): State
    requires JoinAt(s, tx, Begun)
  {
    var group := s.txns[tx].group;
    if group in s.groupLock then s
    else if !IsLive(s.db.groups, group) then End(s, tx)
    else s.(groupLock := s.groupLock[group := tx], txns := s.txns[tx := s.txns[tx].(join := Locked)])
  }

  function WithFound(targets: seq<Target>, found: seq<Option<RowId>>): (r: seq<Target>)
    requires |targets| == |found|
  {
    seq(|targets|, i requires 0 <= i < |targets| => Target(targets[i].person, found[i]))
  }

  predicate IsActive(rows: Rows, found: Option<RowId>) {
    found.Some? && found.value in rows && rows[found.value].status == Active
  }

  /** The read of the existing rows; someone already active ends the join. */
  ghost function AfterLook(s: State, tx: Tx, found: seq<Option<RowId>>): State
    requires JoinAt(s, tx, Locked)
  {
    var t := s.txns[tx];
    if |found| != |t.targets| then s
    else
      var targets := WithFound(t.targets, found);
      if exists i :: 0 <= i < |targets| && !Found(s.db.rows, t.group, targets[i]) then s
      else if exists i :: 0 <= i < |found| && IsActive(s.db.rows, found[i]) then End(s, tx)
      else s.(txns := s.txns[tx := t.(targets := targets, join := Looked)])
  }

  function JoinSlots(config: Config, groups: Groups, t: Txn): set<Slot>
    requires t.Join?
  {
    if t.group in groups && Capped(config, groups[t.group].game, groups[t.group].kind) then
      set p | p in People(t.targets) :: Slot(groups[t.group].game, groups[t.group].kind, p)
    else {}
  }

  function LinkSlots(config: Config, t: Txn): set<Slot>
    requires t.Link?
  {
    set slot, p | slot in config && slot.0 == t.game && Capped(config, t.game, slot.1) && p in {t.issuer, t.redeemer} ::
      Slot(t.game, slot.1, p)
  }

  function AfterLockSlots(config: Config, s: State, tx: Tx): State
    requires JoinAt(s, tx, Looked)
  {
    var slots := JoinSlots(config, s.db.groups, s.txns[tx]);
    if exists k :: k in slots && k in s.slotLock then s
    else s.(slotLock := s.slotLock + (map k | k in slots :: tx), txns := s.txns[tx := s.txns[tx].(join := Holding)])
  }

  /** Nobody fails `kindLimitFailures`: none is at the per-user cap and the group has room for all. */
  ghost predicate Fits(config: Config, db: Tables, group: GroupId, targets: seq<Target>)
    requires group in db.groups
  {
    var game, kind := db.groups[group].game, db.groups[group].kind;
    && (Capped(config, game, kind) ==>
          forall p :: p in People(targets) ==> |OtherRows(db.rows, db.groups, game, kind, group, p)| < Cap(config, game, kind))
    && HasRoom(config, db, group, |targets|)
  }

  ghost predicate HasRoom(config: Config, db: Tables, group: GroupId, more: nat)
    requires group in db.groups
  {
    var slot := (db.groups[group].game, db.groups[group].kind);
    slot in config && config[slot].maxMembers.Some? ==> |ActiveRows(db.rows, group)| + more <= config[slot].maxMembers.value
  }

  /** `held` is the grouped count: a person in no other group of the kind has no row in it. */
  ghost predicate CountsHeld(held: seq<Held>, db: Tables, group: GroupId, people: seq<Person>)
    requires group in db.groups
  {
    var game, kind := db.groups[group].game, db.groups[group].kind;
    && (forall i :: 0 <= i < |held| ==> held[i].n == |OtherRows(db.rows, db.groups, game, kind, group, held[i].person)|)
    && (forall p :: p in people && 0 < |OtherRows(db.rows, db.groups, game, kind, group, p)| ==>
          exists i :: 0 <= i < |held| && held[i].person == p)
  }

  lemma HeldIsOver(config: Config, held: seq<Held>, db: Tables, group: GroupId, people: seq<Person>, p: Person)
    requires group in db.groups && (db.groups[group].game, db.groups[group].kind) in config && CountsHeld(held, db, group, people) && p in people
    ensures
      var game, kind := db.groups[group].game, db.groups[group].kind;
      OverPerUser(config[(game, kind)], held, p) <==>
      Capped(config, game, kind) && Cap(config, game, kind) <= |OtherRows(db.rows, db.groups, game, kind, group, p)|
  {
  }

  /** The machine's check passes exactly when the source's finds no failure. */
  lemma FitsIsNoFailure(config: Config, db: Tables, group: GroupId, targets: seq<Target>, people: seq<Person>, held: seq<Held>,
                        failures: map<Person, Failure>)
    requires group in db.groups && (db.groups[group].game, db.groups[group].kind) in config
    requires |people| == |targets| && 0 < |people| && forall i :: 0 <= i < |people| ==> people[i] == targets[i].person
    requires CountsHeld(held, db, group, people)
    requires EarliestFit(failures, config[(db.groups[group].game, db.groups[group].kind)], held, |ActiveRows(db.rows, group)|, people)
    ensures Fits(config, db, group, targets) <==> failures == map[]
  {
    hide EarliestFit, CountsHeld, OverPerUser, OtherRows, ActiveRows;
    var limits := config[(db.groups[group].game, db.groups[group].kind)];
    AllAdmitted(failures, limits, held, |ActiveRows(db.rows, group)|, people);
    forall i | 0 <= i < |people|
      ensures OverPerUser(limits, held, people[i]) <==>
              limits.maxPerUser.Some? && limits.maxPerUser.value <= |OtherRows(db.rows, db.groups, db.groups[group].game, db.groups[group].kind, group, people[i])|
    {
      HeldIsOver(config, held, db, group, people, people[i]);
    }
    assert forall p :: p in People(targets) <==> exists i :: 0 <= i < |people| && people[i] == p;
  }

  ghost function AfterCheck(config: Config, s: State, tx: Tx): State
    requires JoinAt(s, tx, Holding)
  {
    var t := s.txns[tx];
    if t.group in s.db.groups && Fits(config, s.db, t.group, t.targets) then s.(txns := s.txns[tx := t.(join := Checked)])
    else End(s, tx)
  }

  /** The writes land, unless the database refuses one of them; inserts wait for locked people. */
  ghost function AfterCommitJoin(s: State, tx: Tx): State
    requires JoinAt(s, tx, Checked)
  {
    var t := s.txns[tx];
    if exists i :: 0 <= i < |t.targets| && t.targets[i].existing.None? && t.targets[i].person in s.personLock then s
    else
      var written := WriteAll(s.db, t.group, t.targets);
      if written.None? then End(s, tx) else End(s, tx).(db := written.value)
  }

  function AfterLockBoth(config: Config, s: State, tx: Tx): State
    requires LinkAt(s, tx, Asked)
  {
    var slots := LinkSlots(config, s.txns[tx]);
    if exists k :: k in slots && k in s.slotLock then s
    else s.(slotLock := s.slotLock + (map k | k in slots :: tx), txns := s.txns[tx := s.txns[tx].(link := HoldingBoth)])
  }

  /** The overflow count; a link it refuses ends here, with whichever error comes first. */
  function AfterCountBoth(config: Config, s: State, tx: Tx): State
    requires LinkAt(s, tx, HoldingBoth)
  {
    var t := s.txns[tx];
    if Overflow(config, s.db.rows, s.db.groups, t.game, {t.issuer, t.redeemer}) == {} then
      s.(txns := s.txns[tx := t.(link := Counted)])
    else End(s, tx)
  }

  function AfterLockPeople(s: State, tx: Tx): State
    requires LinkAt(s, tx, Counted)
  {
    var t := s.txns[tx];
    if t.issuer in s.personLock || t.redeemer in s.personLock then s
    else if t.issuer !in s.db.people || t.redeemer !in s.db.people then End(s, tx)
    else s.(personLock := s.personLock[t.issuer := tx][t.redeemer := tx], txns := s.txns[tx := t.(link := Ready)])
  }

  ghost function AfterCommitLink(s: State, tx: Tx, issuerHas: Footprint, redeemerHas: Footprint): State
    requires LinkAt(s, tx, Ready)
  {
    var t := s.txns[tx];
    var plan := PlanLink(t.issuer, t.redeemer, issuerHas, redeemerHas, {});
    if plan.Err? then End(s, tx)
    else
      End(s, tx).(db := s.db.(rows := Merged(s.db.rows, plan.value.survivor, plan.value.attached),
                              people := s.db.people - {plan.value.attached}))
  }

  predicate DeletesWhenEmpty(config: Config, group: Group) {
    (group.game, group.kind) in config && config[(group.game, group.kind)].deleteWhenEmpty
  }

  function Killed(groups: Groups, group: GroupId): Groups
    requires group in groups
  {
    groups[group := groups[group].(live := false)]
  }

  /** A leave, kick or ban under the group lock, with the deletion of a group it empties. */
  function AfterDepart(config: Config, s: State, row: RowId, to: Status): State {
    if row !in s.db.rows || s.db.rows[row].status != Active || to == Active then s
    else if s.db.rows[row].group in s.groupLock || !IsLive(s.db.groups, s.db.rows[row].group) then s
    else
      var group := s.db.rows[row].group;
      var rows := s.db.rows[row := s.db.rows[row].(status := to, version := s.db.rows[row].version + 1)];
      var empties := DeletesWhenEmpty(config, s.db.groups[group]) && ActiveRows(rows, group) == {};
      s.(db := s.db.(rows := rows, groups := if empties then Killed(s.db.groups, group) else s.db.groups))
  }

  predicate LivesIn(s: State, person: Person, game: string) {
    person in s.homes && s.homes[person] == game
  }

  /** The group was found and the ids named resolve to people of its game. */
  predicate Resolves(s: State, group: GroupId, people: seq<Person>) {
    group in s.db.groups && forall i :: 0 <= i < |people| ==> LivesIn(s, people[i], s.db.groups[group].game)
  }

  function AfterNewGroup(s: State, group: GroupId, info: Group): State {
    if group in s.db.groups then s else s.(db := s.db.(groups := s.db.groups[group := info]))
  }

  function AfterNewPerson(s: State, person: Person, game: string): State {
    if person in s.homes then s else s.(db := s.db.(people := s.db.people + {person}), homes := s.homes[person := game])
  }

  function Unseen(people: seq<Person>): (r: seq<Target>)
    ensures |r| == |people| && forall i :: 0 <= i < |r| ==> r[i] == Target(people[i], None)
  {
    seq(|people|, i requires 0 <= i < |people| => Target(people[i], None))
  }

  function AfterBeginJoin(s: State, tx: Tx, group: GroupId, people: seq<Person>): State {
    if tx in s.txns || !Resolves(s, group, people) then s
    else s.(txns := s.txns[tx := Join(group, Unseen(Dedup(people)), Begun)])
  }

  function AfterBeginLink(s: State, tx: Tx, game: string, issuer: Person, redeemer: Person): State {
    if tx in s.txns || issuer == redeemer || !LivesIn(s, issuer, game) || !LivesIn(s, redeemer, game) then s
    else s.(txns := s.txns[tx := Link(game, issuer, redeemer, Asked)])
  }

  /** The idle sweep re-reads the group under its lock, so it waits for whoever holds it. */
  function AfterSweepIdle(s: State, group: GroupId): State {
    if group in s.groupLock || group !in s.db.groups then s else s.(db := s.db.(groups := Killed(s.db.groups, group)))
  }

  ghost function Apply(config: Config, s: State, step: Step): State {
    match step
    case NewGroup(group, info) => AfterNewGroup(s, group, info)
    case NewPerson(person, game) => AfterNewPerson(s, person, game)
    case BeginJoin(tx, group, people) => AfterBeginJoin(s, tx, group, people)
    case LockGroup(tx) => if JoinAt(s, tx, Begun) then AfterLockGroup(s, tx) else s
    case Look(tx, found) => if JoinAt(s, tx, Locked) then AfterLook(s, tx, found) else s
    case LockSlots(tx) => if JoinAt(s, tx, Looked) then AfterLockSlots(config, s, tx) else s
    case Check(tx) => if JoinAt(s, tx, Holding) then AfterCheck(config, s, tx) else s
    case CommitJoin(tx) => if JoinAt(s, tx, Checked) then AfterCommitJoin(s, tx) else s
    case BeginLink(tx, game, issuer, redeemer) => AfterBeginLink(s, tx, game, issuer, redeemer)
    case LockBoth(tx) => if LinkAt(s, tx, Asked) then AfterLockBoth(config, s, tx) else s
    case CountBoth(tx) => if LinkAt(s, tx, HoldingBoth) then AfterCountBoth(config, s, tx) else s
    case LockPeople(tx) => if LinkAt(s, tx, Counted) then AfterLockPeople(s, tx) else s
    case CommitLink(tx, i, r) => if LinkAt(s, tx, Ready) then AfterCommitLink(s, tx, i, r) else s
    case Abort(tx) => End(s, tx)
    case Depart(row, to) => AfterDepart(config, s, row, to)
    case SweepIdle(group) => AfterSweepIdle(s, group)
  }

  const EMPTY := State(Tables(map[], map[], {}, 0), map[], map[], map[], map[], map[])

  ghost function Run(config: Config, steps: seq<Step>): State {
    if steps == [] then EMPTY else Apply(config, Run(config, steps[..|steps| - 1]), steps[|steps| - 1])
  }

  // ------------------------------------------------------------------
  // What writes do to the counts
  // ------------------------------------------------------------------

  /** Row ids in use lie below the next free one, every row is in a group, and the unique key holds. */
  ghost predicate Shape(db: Tables) {
    && (forall id :: id in db.rows ==> id < db.next && db.rows[id].group in db.groups)
    && OneRowEach(db.rows)
  }

  /** Rows looked up for a join of `group`: still rows of that group, if they are there at all. */
  ghost predicate Known(db: Tables, group: GroupId, targets: seq<Target>) {
    forall i :: 0 <= i < |targets| && targets[i].existing.Some? ==>
      && targets[i].existing.value < db.next
      && (targets[i].existing.value in db.rows ==> db.rows[targets[i].existing.value].group == group)
  }

  /** Whose membership a write makes active: by row id it is whoever the row belongs to by then. */
  function Owner(db: Tables, target: Target): Person {
    if target.existing.Some? && target.existing.value in db.rows then db.rows[target.existing.value].person else target.person
  }

  ghost predicate Touches(db: Tables, targets: seq<Target>, people: set<Person>) {
    exists i :: 0 <= i < |targets| && Owner(db, targets[i]) in people
  }

  predicate InSlot(groups: Groups, group: GroupId, game: string, kind: string) {
    group in groups && groups[group].game == game && groups[group].kind == kind
  }

  lemma WriteOneGrows(db: Tables, group: GroupId, target: Target, game: string, kind: string, people: set<Person>)
    requires Shape(db) && Known(db, group, [target]) && group in db.groups && WriteOne(db, group, target).Some?
    ensures
      var after := WriteOne(db, group, target).value;
      && after.groups == db.groups
      && ActiveGroups(after.rows, after.groups, game, kind, people) <=
         ActiveGroups(db.rows, db.groups, game, kind, people) +
         (if Owner(db, target) in people && InSlot(db.groups, group, game, kind) then {group} else {})
  {
    var after := WriteOne(db, group, target).value;
    assert [target][0] == target;
    forall g | g in ActiveGroups(after.rows, after.groups, game, kind, people)
      ensures g in ActiveGroups(db.rows, db.groups, game, kind, people) || (g == group && Owner(db, target) in people && InSlot(db.groups, group, game, kind))
    {
      var id :| id in after.rows && Counts(after.rows[id], after.groups, game, kind, people) && after.rows[id].group == g;
      if id in db.rows && after.rows[id] == db.rows[id] {
        assert Counts(db.rows[id], db.groups, game, kind, people);
      }
    }
  }

  lemma WriteOneKeeps(db: Tables, group: GroupId, target: Target)
    requires Shape(db) && Known(db, group, [target]) && group in db.groups && WriteOne(db, group, target).Some?
    ensures
      var after := WriteOne(db, group, target).value;
      && Shape(after) && after.groups == db.groups && after.people == db.people && db.next <= after.next
      && (forall id :: id < db.next ==> (id in after.rows <==> id in db.rows))
      && (forall id :: id in db.rows && id < db.next ==> after.rows[id].group == db.rows[id].group && after.rows[id].person == db.rows[id].person)
  {
    assert [target][0] == target;
    var after := WriteOne(db, group, target).value;
    if target.existing.None? {
      assert forall id :: id in db.rows && db.rows[id].group == group ==> db.rows[id].person != target.person;
    }
  }

  lemma WriteOneAddsARow(db: Tables, group: GroupId, target: Target, h: GroupId)
    requires Shape(db) && Known(db, group, [target]) && group in db.groups && WriteOne(db, group, target).Some?
    ensures
      var after := WriteOne(db, group, target).value;
      |ActiveRows(after.rows, h)| <= |ActiveRows(db.rows, h)| + (if h == group then 1 else 0)
  {
    assert [target][0] == target;
    var after := WriteOne(db, group, target).value;
    var written := if target.existing.Some? then target.existing.value else db.next;
    assert ActiveRows(after.rows, h) <= ActiveRows(db.rows, h) + (if h == group then {written} else {});
    Fewer(ActiveRows(after.rows, h), ActiveRows(db.rows, h) + (if h == group then {written} else {}));
  }

  lemma {:induction false} Fewer<T>(xs: set<T>, ys: set<T>)
    requires xs <= ys
    ensures |xs| <= |ys|
  {
    if xs != {} {
      var x :| x in xs;
      Fewer(xs - {x}, ys - {x});
    }
  }

  lemma {:induction false} WriteAllKeeps(db: Tables, group: GroupId, targets: seq<Target>)
    requires Shape(db) && Known(db, group, targets) && group in db.groups && WriteAll(db, group, targets).Some?
    ensures
      var after := WriteAll(db, group, targets).value;
      && Shape(after) && after.groups == db.groups && after.people == db.people && db.next <= after.next
      && (forall id :: id < db.next ==> (id in after.rows <==> id in db.rows))
      && (forall id :: id in db.rows && id < db.next ==> after.rows[id].group == db.rows[id].group && after.rows[id].person == db.rows[id].person)
  {
    hide Shape, WriteOne;
    if targets != [] {
      WriteAllKeeps(db, group, targets[..|targets| - 1]);
      var before := WriteAll(db, group, targets[..|targets| - 1]).value;
      assert Known(before, group, [targets[|targets| - 1]]);
      WriteOneKeeps(before, group, targets[|targets| - 1]);
    }
  }

  lemma {:induction false} WriteAllGrows(db: Tables, group: GroupId, targets: seq<Target>, game: string, kind: string, people: set<Person>)
    requires Shape(db) && Known(db, group, targets) && group in db.groups && WriteAll(db, group, targets).Some?
    ensures
      var after := WriteAll(db, group, targets).value;
      ActiveGroups(after.rows, after.groups, game, kind, people) <=
      ActiveGroups(db.rows, db.groups, game, kind, people) +
      (if Touches(db, targets, people) && InSlot(db.groups, group, game, kind) then {group} else {})
  {
    hide Shape, WriteOne, ActiveGroups;
    if targets != [] {
      var rest, last := targets[..|targets| - 1], targets[|targets| - 1];
      WriteAllGrows(db, group, rest, game, kind, people);
      WriteAllKeeps(db, group, rest);
      var before := WriteAll(db, group, rest).value;
      assert Known(before, group, [last]);
      assert Owner(before, last) == Owner(db, last);
      WriteOneGrows(before, group, last, game, kind, people);
      assert Owner(db, last) in people ==> Touches(db, targets, people) by { assert targets[|targets| - 1] == last; }
      assert Touches(db, rest, people) ==> Touches(db, targets, people) by {
        if Touches(db, rest, people) {
          var i :| 0 <= i < |rest| && Owner(db, rest[i]) in people;
          assert targets[i] == rest[i];
        }
      }
    }
  }

  lemma {:induction false} WriteAllAddsRows(db: Tables, group: GroupId, targets: seq<Target>, h: GroupId)
    requires Shape(db) && Known(db, group, targets) && group in db.groups && WriteAll(db, group, targets).Some?
    ensures
      var after := WriteAll(db, group, targets).value;
      |ActiveRows(after.rows, h)| <= |ActiveRows(db.rows, h)| + (if h == group then |targets| else 0)
  {
    hide Shape, WriteOne, ActiveRows;
    if targets != [] {
      var rest, last := targets[..|targets| - 1], targets[|targets| - 1];
      WriteAllAddsRows(db, group, rest, h);
      WriteAllKeeps(db, group, rest);
      var before := WriteAll(db, group, rest).value;
      assert Known(before, group, [last]);
      WriteOneAddsARow(before, group, last, h);
    }
  }

  // ------------------------------------------------------------------
  // What every run keeps
  // ------------------------------------------------------------------

  predicate HasLock(s: State, tx: Tx) {
    tx in s.txns && s.txns[tx].Join? && s.txns[tx].join != Begun
  }

  /** A join past its first stage holds its group's lock, and the group lives. */
  ghost predicate GroupsHeld(s: State) {
    forall tx :: HasLock(s, tx) ==>
      && s.txns[tx].group in s.groupLock && s.groupLock[s.txns[tx].group] == tx
      && IsLive(s.db.groups, s.txns[tx].group)
  }

  ghost predicate TargetsOk(s: State) {
    forall tx :: tx in s.txns && s.txns[tx].Join? ==>
      DistinctPeople(s.txns[tx].targets) && Known(s.db, s.txns[tx].group, s.txns[tx].targets)
  }

  /** The two sides of a link are different people. */
  ghost predicate LinksOk(s: State) {
    forall tx :: tx in s.txns && s.txns[tx].Link? ==> s.txns[tx].issuer != s.txns[tx].redeemer
  }

  /** A checked join still fits its group. */
  ghost predicate RoomOk(config: Config, s: State) {
    forall tx :: JoinAt(s, tx, Checked) && s.txns[tx].group in s.db.groups ==>
      HasRoom(config, s.db, s.txns[tx].group, |s.txns[tx].targets|)
  }

  /** No group has more active members than its kind allows. */
  ghost predicate MembersOk(config: Config, db: Tables) {
    forall g :: g in db.groups ==> HasRoom(config, db, g, 0)
  }

  /** A person's rows and joins lie in their own game, and both sides of a link live in its game. */
  ghost predicate HomesOk(s: State) {
    && (forall id :: id in s.db.rows ==>
          s.db.rows[id].group in s.db.groups && LivesIn(s, s.db.rows[id].person, s.db.groups[s.db.rows[id].group].game))
    && (forall tx :: tx in s.txns ==> TxnAtHome(s, s.txns[tx]))
  }

  ghost predicate TxnAtHome(s: State, t: Txn) {
    if t.Join? then
      t.group in s.db.groups && forall i :: 0 <= i < |t.targets| ==> LivesIn(s, t.targets[i].person, s.db.groups[t.group].game)
    else LivesIn(s, t.issuer, t.game) && LivesIn(s, t.redeemer, t.game)
  }

  ghost predicate Inv(config: Config, s: State) {
    Shape(s.db) && GroupsHeld(s) && TargetsOk(s) && LinksOk(s) && HomesOk(s) && RoomOk(config, s) && MembersOk(config, s.db)
  }

  /** How the tables may change at all: rows stay in their group and groups keep their game and kind. */
  ghost predicate Keeps(db: Tables, after: Tables) {
    && db.next <= after.next
    && (forall id :: id < db.next && id in after.rows ==> id in db.rows && after.rows[id].group == db.rows[id].group)
    && (forall g :: g in db.groups ==>
          g in after.groups && after.groups[g].game == db.groups[g].game && after.groups[g].kind == db.groups[g].kind)
  }

  predicate WritesTables(step: Step) {
    step.NewGroup? || step.NewPerson? || step.CommitJoin? || step.CommitLink? || step.Depart? || step.SweepIdle?
  }

  lemma OthersLeaveTables(config: Config, s: State, step: Step)
    requires !WritesTables(step)
    ensures Apply(config, s, step).db == s.db
  {
  }

  lemma DepartKeeps(config: Config, s: State, row: RowId, to: Status)
    requires Shape(s.db)
    ensures Shape(AfterDepart(config, s, row, to).db) && Keeps(s.db, AfterDepart(config, s, row, to).db)
  {
    hide ActiveRows;
  }

  lemma OutsideShape(config: Config, s: State, step: Step)
    requires Shape(s.db) && (step.NewGroup? || step.NewPerson? || step.Depart? || step.SweepIdle?)
    ensures Shape(Apply(config, s, step).db)
  {
    hide AfterDepart, End, AfterLockGroup, AfterLook, AfterLockSlots, AfterCheck, AfterCommitJoin, AfterLockBoth, AfterCountBoth, AfterLockPeople, AfterCommitLink, AfterBeginJoin, AfterBeginLink;
    if step.Depart? {
      DepartKeeps(config, s, step.row, step.to);
    }
  }

  lemma NewGroupKeeps(s: State, group: GroupId, info: Group)
    requires Shape(s.db)
    ensures Keeps(s.db, AfterNewGroup(s, group, info).db)
  {
    hide OneRowEach;
  }

  lemma SweepKeeps(s: State, group: GroupId)
    requires Shape(s.db)
    ensures Keeps(s.db, AfterSweepIdle(s, group).db)
  {
    hide OneRowEach;
  }

  lemma OutsideKeeps(config: Config, s: State, step: Step)
    requires Shape(s.db) && (step.NewGroup? || step.NewPerson? || step.Depart? || step.SweepIdle?)
    ensures Keeps(s.db, Apply(config, s, step).db)
  {
    hide AfterDepart, AfterNewGroup, AfterSweepIdle, OneRowEach, End, AfterLockGroup, AfterLook, AfterLockSlots, AfterCheck,
      AfterCommitJoin, AfterLockBoth, AfterCountBoth, AfterLockPeople, AfterCommitLink, AfterBeginJoin, AfterBeginLink;
    match step
    case NewGroup(group, info) => NewGroupKeeps(s, group, info);
    case Depart(row, to) => DepartKeeps(config, s, row, to);
    case SweepIdle(group) => SweepKeeps(s, group);
    case _ =>
  }

  lemma CommitJoinKeeps(config: Config, s: State, step: Step)
    requires Shape(s.db) && TargetsOk(s) && GroupsHeld(s) && step.CommitJoin?
    ensures Shape(Apply(config, s, step).db) && Keeps(s.db, Apply(config, s, step).db)
  {
    hide WriteAll, Shape, AfterNewGroup, AfterNewPerson, AfterBeginJoin, AfterLockGroup, AfterLook, AfterLockSlots,
      AfterCheck, AfterBeginLink, AfterLockBoth, AfterCountBoth, AfterLockPeople, AfterCommitLink, AfterDepart,
      AfterSweepIdle;
    if JoinAt(s, step.tx, Checked) && WriteAll(s.db, s.txns[step.tx].group, s.txns[step.tx].targets).Some? {
      WriteAllKeeps(s.db, s.txns[step.tx].group, s.txns[step.tx].targets);
    }
  }

  lemma CommitLinkKeeps(config: Config, s: State, step: Step)
    requires Shape(s.db) && LinksOk(s) && step.CommitLink?
    ensures Shape(Apply(config, s, step).db) && Keeps(s.db, Apply(config, s, step).db)
  {
    hide AfterNewGroup, AfterNewPerson, AfterBeginJoin, AfterLockGroup, AfterLook, AfterLockSlots, AfterCheck,
      AfterCommitJoin, AfterBeginLink, AfterLockBoth, AfterCountBoth, AfterLockPeople, AfterDepart, AfterSweepIdle;
  }

  lemma TablesKeep(config: Config, s: State, step: Step)
    requires Shape(s.db) && TargetsOk(s) && LinksOk(s) && GroupsHeld(s)
    ensures Shape(Apply(config, s, step).db) && Keeps(s.db, Apply(config, s, step).db)
  {
    hide Apply, Shape, TargetsOk, GroupsHeld, LinksOk;
    if !WritesTables(step) {
      OthersLeaveTables(config, s, step);
    } else if step.CommitJoin? {
      CommitJoinKeeps(config, s, step);
    } else if step.CommitLink? {
      CommitLinkKeeps(config, s, step);
    } else {
      OutsideShape(config, s, step);
      OutsideKeeps(config, s, step);
    }
  }

  lemma OwnJoinStays(config: Config, s: State, step: Step)
    requires HasTx(step) && !step.Look? && !step.BeginJoin? && !step.BeginLink? && StepTx(step) in Apply(config, s, step).txns
    requires Apply(config, s, step).txns[StepTx(step)].Join?
    ensures
      var tx := StepTx(step);
      && tx in s.txns && s.txns[tx].Join? && Apply(config, s, step).txns[tx].group == s.txns[tx].group
      && Apply(config, s, step).txns[tx].targets == s.txns[tx].targets
  {
    hide Fits, WriteAll, Merged, ActiveRows, Overflow, Found, Killed, JoinSlots, LinkSlots, PlanLink, IsLive, AfterDepart, AfterNewGroup,
      AfterNewPerson, AfterSweepIdle, AfterBeginJoin, AfterBeginLink, AfterLook;
  }

  /** A join keeps its group, and its targets too save when it looks its rows up. */
  lemma JoinsStay(config: Config, s: State, step: Step, tx: Tx)
    requires tx in Apply(config, s, step).txns && Apply(config, s, step).txns[tx].Join?
    requires !((step.Look? || step.BeginJoin?) && step.tx == tx)
    ensures tx in s.txns && s.txns[tx].Join?
    ensures Apply(config, s, step).txns[tx].group == s.txns[tx].group && Apply(config, s, step).txns[tx].targets == s.txns[tx].targets
  {
    hide AfterLockGroup, AfterLook, AfterLockSlots, AfterCheck, AfterCommitJoin, AfterLockBoth, AfterCountBoth, AfterLockPeople,
      AfterCommitLink, AfterBeginJoin, AfterDepart, AfterNewGroup, AfterNewPerson, AfterSweepIdle;
    if !HasTx(step) || tx != StepTx(step) {
      OtherTxns(config, s, step, tx);
    } else if !step.BeginLink? {
      OwnJoinStays(config, s, step);
    }
  }

  lemma NewTargets(config: Config, s: State, step: Step)
    requires Shape(s.db) && TargetsOk(s) && (step.Look? || step.BeginJoin?)
    ensures
      var after := Apply(config, s, step);
      step.tx in after.txns && after.txns[step.tx].Join? ==>
        DistinctPeople(after.txns[step.tx].targets) && Known(s.db, after.txns[step.tx].group, after.txns[step.tx].targets)
  {
  }

  lemma TargetsKeep(config: Config, s: State, step: Step)
    requires Shape(s.db) && TargetsOk(s) && LinksOk(s) && GroupsHeld(s)
    ensures TargetsOk(Apply(config, s, step))
  {
    hide Apply, Shape, GroupsHeld, LinksOk;
    var after := Apply(config, s, step);
    TablesKeep(config, s, step);
    forall tx | tx in after.txns && after.txns[tx].Join?
      ensures DistinctPeople(after.txns[tx].targets) && Known(after.db, after.txns[tx].group, after.txns[tx].targets)
    {
      if (step.Look? || step.BeginJoin?) && step.tx == tx {
        NewTargets(config, s, step);
      } else {
        JoinsStay(config, s, step, tx);
      }
    }
  }

  lemma LinksKeep(config: Config, s: State, step: Step)
    requires LinksOk(s)
    ensures LinksOk(Apply(config, s, step))
  {
  }

  /** A group that is locked stays alive. */
  lemma LockedStaysLive(config: Config, s: State, step: Step, group: GroupId)
    requires group in s.groupLock && IsLive(s.db.groups, group) && Shape(s.db) && TargetsOk(s) && GroupsHeld(s)
    ensures IsLive(Apply(config, s, step).db.groups, group)
  {
    hide WriteAll, Shape;
    if step.CommitJoin? && JoinAt(s, step.tx, Checked) && WriteAll(s.db, s.txns[step.tx].group, s.txns[step.tx].targets).Some? {
      WriteAllKeeps(s.db, s.txns[step.tx].group, s.txns[step.tx].targets);
    }
  }

  /** The transaction a step belongs to. */
  function StepTx(step: Step): Tx {
    match step
    case BeginJoin(tx, _, _) => tx
    case LockGroup(tx) => tx
    case Look(tx, _) => tx
    case LockSlots(tx) => tx
    case Check(tx) => tx
    case CommitJoin(tx) => tx
    case BeginLink(tx, _, _, _) => tx
    case LockBoth(tx) => tx
    case CountBoth(tx) => tx
    case LockPeople(tx) => tx
    case CommitLink(tx, _, _) => tx
    case Abort(tx) => tx
    case _ => 0
  }

  lemma GroupLockStays(config: Config, s: State, step: Step, tx: Tx, group: GroupId)
    requires group in s.groupLock && s.groupLock[group] == tx && (!HasTx(step) || StepTx(step) != tx)
    ensures group in Apply(config, s, step).groupLock && Apply(config, s, step).groupLock[group] == tx
  {
    hide Fits, WriteAll, Merged, ActiveRows, Overflow, Found, Killed, JoinSlots, LinkSlots, PlanLink, IsLive, Resolves,
      LivesIn;
  }

  /** A step of a locking join takes its group's lock, or keeps it. */
  lemma OwnLockStays(config: Config, s: State, step: Step)
    requires GroupsHeld(s) && HasTx(step) && HasLock(Apply(config, s, step), StepTx(step))
    ensures
      var tx := StepTx(step);
      var after := Apply(config, s, step);
      var group := after.txns[tx].group;
      && group in after.groupLock && after.groupLock[group] == tx
      && (step == LockGroup(tx) || (group in s.groupLock && IsLive(s.db.groups, group)))
      && (step == LockGroup(tx) ==> IsLive(after.db.groups, group))
  {
    hide Fits, WriteAll, Merged, ActiveRows, Overflow, Found, Killed, JoinSlots, LinkSlots, PlanLink, Resolves,
      LivesIn, AfterNewGroup, AfterNewPerson, AfterDepart, AfterSweepIdle;
  }

  lemma LocksStay(config: Config, s: State, step: Step, tx: Tx)
    requires GroupsHeld(s) && HasLock(Apply(config, s, step), tx)
    ensures
      var after := Apply(config, s, step);
      var group := after.txns[tx].group;
      && group in after.groupLock && after.groupLock[group] == tx
      && (step == LockGroup(tx) || (group in s.groupLock && IsLive(s.db.groups, group)))
      && (step == LockGroup(tx) ==> IsLive(after.db.groups, group))
  {
    hide Apply, IsLive;
    if HasTx(step) && StepTx(step) == tx {
      OwnLockStays(config, s, step);
    } else {
      OtherTxns(config, s, step, tx);
      assert HasLock(s, tx);
      GroupLockStays(config, s, step, tx, s.txns[tx].group);
    }
  }

  lemma GroupsHeldKeeps(config: Config, s: State, step: Step)
    requires Shape(s.db) && TargetsOk(s) && GroupsHeld(s)
    ensures GroupsHeld(Apply(config, s, step))
  {
    hide Apply, Shape, TargetsOk, IsLive;
    var after := Apply(config, s, step);
    forall tx | HasLock(after, tx)
      ensures after.txns[tx].group in after.groupLock && after.groupLock[after.txns[tx].group] == tx
      ensures IsLive(after.db.groups, after.txns[tx].group)
    {
      LocksStay(config, s, step, tx);
      if step != LockGroup(tx) {
        LockedStaysLive(config, s, step, after.txns[tx].group);
      }
    }
  }

  // ------------------------------------------------------------------
  // maxMembers
  // ------------------------------------------------------------------

  /** How many rows of `group` a step may make active. */
  function Admits(s: State, step: Step, group: GroupId): nat {
    if step.CommitJoin? && JoinAt(s, step.tx, Checked) && s.txns[step.tx].group == group then |s.txns[step.tx].targets| else 0
  }

  lemma CommitAdmits(config: Config, s: State, step: Step, group: GroupId)
    requires Shape(s.db) && TargetsOk(s) && GroupsHeld(s) && step.CommitJoin?
    ensures |ActiveRows(Apply(config, s, step).db.rows, group)| <= |ActiveRows(s.db.rows, group)| + Admits(s, step, group)
  {
    hide WriteAll, Shape, ActiveRows;
    if JoinAt(s, step.tx, Checked) && WriteAll(s.db, s.txns[step.tx].group, s.txns[step.tx].targets).Some? {
      WriteAllAddsRows(s.db, s.txns[step.tx].group, s.txns[step.tx].targets, group);
    }
  }

  lemma MergeAdmits(config: Config, s: State, step: Step, group: GroupId)
    requires step.CommitLink?
    ensures ActiveRows(Apply(config, s, step).db.rows, group) <= ActiveRows(s.db.rows, group)
  {
    hide Merged, ActiveRows;
    if LinkAt(s, step.tx, Ready) {
      var t := s.txns[step.tx];
      MergeAddsNoMember(s.db.rows, t.issuer, t.redeemer, group);
      MergeAddsNoMember(s.db.rows, t.redeemer, t.issuer, group);
    }
  }

  lemma OutsideAdmits(config: Config, s: State, step: Step, group: GroupId)
    requires step.NewGroup? || step.NewPerson? || step.Depart? || step.SweepIdle?
    ensures ActiveRows(Apply(config, s, step).db.rows, group) <= ActiveRows(s.db.rows, group)
  {
  }

  lemma StepAdmits(config: Config, s: State, step: Step, group: GroupId)
    requires Shape(s.db) && TargetsOk(s) && GroupsHeld(s)
    ensures |ActiveRows(Apply(config, s, step).db.rows, group)| <= |ActiveRows(s.db.rows, group)| + Admits(s, step, group)
  {
    hide Apply, Shape, TargetsOk, GroupsHeld, ActiveRows, JoinAt;
    if !WritesTables(step) {
      OthersLeaveTables(config, s, step);
    } else if step.CommitJoin? {
      CommitAdmits(config, s, step, group);
    } else {
      if step.CommitLink? {
        MergeAdmits(config, s, step, group);
      } else {
        OutsideAdmits(config, s, step, group);
      }
      Fewer(ActiveRows(Apply(config, s, step).db.rows, group), ActiveRows(s.db.rows, group));
    }
  }

  lemma MembersKeep(config: Config, s: State, step: Step)
    requires Inv(config, s)
    ensures MembersOk(config, Apply(config, s, step).db)
  {
    hide Apply, TargetsOk, ActiveRows, LinksOk, HomesOk;
    var after := Apply(config, s, step).db;
    TablesKeep(config, s, step);
    forall g | g in after.groups
      ensures HasRoom(config, after, g, 0)
    {
      StepAdmits(config, s, step, g);
      if g in s.db.groups {
        assert HasRoom(config, s.db, g, 0);
        assert 0 < Admits(s, step, g) ==> HasRoom(config, s.db, g, Admits(s, step, g));
      } else {
        NobodyThere(s.db, g);
        assert Admits(s, step, g) == 0;
      }
    }
  }

  lemma NobodyThere(db: Tables, group: GroupId)
    requires Shape(db) && group !in db.groups
    ensures ActiveRows(db.rows, group) == {}
  {
  }

  lemma CheckedStays(config: Config, s: State, step: Step, tx: Tx)
    requires JoinAt(Apply(config, s, step), tx, Checked)
    ensures
      var after := Apply(config, s, step);
      if JoinAt(s, tx, Checked) then after.txns[tx] == s.txns[tx] && (step == CommitJoin(tx) ==> after.db == s.db)
      else step == Check(tx) && after.txns[tx].group in s.db.groups && Fits(config, s.db, after.txns[tx].group, after.txns[tx].targets)
  {
    hide Fits, WriteAll, Merged, ActiveRows, Overflow;
  }

  /** Nobody else commits a join of a group while a checked join of it holds the lock. */
  lemma NobodyElseAdmits(s: State, step: Step, tx: Tx)
    requires GroupsHeld(s) && JoinAt(s, tx, Checked) && step != CommitJoin(tx)
    ensures Admits(s, step, s.txns[tx].group) == 0
  {
    assert HasLock(s, tx);
    if step.CommitJoin? && JoinAt(s, step.tx, Checked) {
      assert HasLock(s, step.tx);
    }
  }

  lemma RoomKeeps(config: Config, s: State, step: Step)
    requires Inv(config, s)
    ensures RoomOk(config, Apply(config, s, step))
  {
    hide Apply, TargetsOk, ActiveRows, MembersOk, LinksOk, HomesOk, Shape, GroupsHeld, Admits;
    var after := Apply(config, s, step);
    TablesKeep(config, s, step);
    forall tx | JoinAt(after, tx, Checked) && after.txns[tx].group in after.db.groups
      ensures HasRoom(config, after.db, after.txns[tx].group, |after.txns[tx].targets|)
    {
      var group := after.txns[tx].group;
      CheckedStays(config, s, step, tx);
      if !JoinAt(s, tx, Checked) {
        OthersLeaveTables(config, s, step);
      } else if step != CommitJoin(tx) {
        LiveGroup(s, tx);
        StepAdmits(config, s, step, group);
        NobodyElseAdmits(s, step, tx);
        assert HasRoom(config, s.db, group, |s.txns[tx].targets|);
      }
    }
  }

  lemma LiveGroup(s: State, tx: Tx)
    requires GroupsHeld(s) && HasLock(s, tx)
    ensures IsLive(s.db.groups, s.txns[tx].group)
  {
  }

  /** Rows a join writes are old rows, or new ones of its group and people. */
  lemma {:induction false} WriteAllRows(db: Tables, group: GroupId, targets: seq<Target>, id: RowId)
    requires WriteAll(db, group, targets).Some? && id in WriteAll(db, group, targets).value.rows
    ensures
      var row := WriteAll(db, group, targets).value.rows[id];
      || (id in db.rows && row.group == db.rows[id].group && row.person == db.rows[id].person)
      || (row.group == group && row.person in People(targets))
  {
    if targets != [] {
      var rest, last := targets[..|targets| - 1], targets[|targets| - 1];
      var before := WriteAll(db, group, rest).value;
      assert People(rest) <= People(targets);
      assert last.person in People(targets);
      if id in before.rows {
        WriteAllRows(db, group, rest, id);
      }
    }
  }

  lemma CommitJoinHomes(config: Config, s: State, step: Step, id: RowId)
    requires Shape(s.db) && TargetsOk(s) && GroupsHeld(s) && HomesOk(s) && step.CommitJoin? && id in Apply(config, s, step).db.rows
    ensures
      var after := Apply(config, s, step);
      after.db.rows[id].group in after.db.groups && LivesIn(after, after.db.rows[id].person, after.db.groups[after.db.rows[id].group].game)
  {
    hide WriteAll, Shape;
    if JoinAt(s, step.tx, Checked) && WriteAll(s.db, s.txns[step.tx].group, s.txns[step.tx].targets).Some? {
      var t := s.txns[step.tx];
      WriteAllKeeps(s.db, t.group, t.targets);
      if id in WriteAll(s.db, t.group, t.targets).value.rows {
        WriteAllRows(s.db, t.group, t.targets, id);
        assert TxnAtHome(s, t);
      }
    }
  }

  /** A step other than a commit leaves each row with its person. */
  lemma OutsideOwners(config: Config, s: State, step: Step, id: RowId)
    requires (step.NewGroup? || step.NewPerson? || step.Depart? || step.SweepIdle?) && id in Apply(config, s, step).db.rows
    ensures
      var row := Apply(config, s, step).db.rows[id];
      id in s.db.rows && row.group == s.db.rows[id].group && row.person == s.db.rows[id].person
  {
    hide ActiveRows, IsLive, Killed, End, AfterBeginJoin, AfterLockGroup, AfterLook, AfterLockSlots, AfterCheck,
      AfterCommitJoin, AfterBeginLink, AfterLockBoth, AfterCountBoth, AfterLockPeople, AfterCommitLink;
  }

  lemma OtherRowOwners(config: Config, s: State, step: Step, id: RowId)
    requires !step.CommitJoin? && !step.CommitLink? && id in Apply(config, s, step).db.rows
    ensures
      var row := Apply(config, s, step).db.rows[id];
      id in s.db.rows && row.group == s.db.rows[id].group && row.person == s.db.rows[id].person
  {
    hide Apply;
    if WritesTables(step) {
      OutsideOwners(config, s, step, id);
    } else {
      OthersLeaveTables(config, s, step);
    }
  }

  lemma CommitLinkOwners(config: Config, s: State, step: Step, id: RowId)
    requires HomesOk(s) && step.CommitLink? && id in Apply(config, s, step).db.rows
    ensures
      var row := Apply(config, s, step).db.rows[id];
      && id in s.db.rows && row.group == s.db.rows[id].group
      && (row.person == s.db.rows[id].person
          || (LinkAt(s, step.tx, Ready) && {s.db.rows[id].person, row.person} == {s.txns[step.tx].issuer, s.txns[step.tx].redeemer}))
  {
    hide HomesOk;
  }

  lemma OtherRowHomes(config: Config, s: State, step: Step, id: RowId)
    requires HomesOk(s) && !step.CommitJoin? && id in Apply(config, s, step).db.rows && Keeps(s.db, Apply(config, s, step).db)
    ensures
      var after := Apply(config, s, step);
      after.db.rows[id].group in after.db.groups && LivesIn(after, after.db.rows[id].person, after.db.groups[after.db.rows[id].group].game)
  {
    hide Apply, LivesIn;
    var row := Apply(config, s, step).db.rows[id];
    if step.CommitLink? {
      CommitLinkOwners(config, s, step, id);
      if row.person != s.db.rows[id].person {
        LinkedAtHome(s, step.tx, s.db.rows[id].person, row.person, s.db.groups[row.group].game);
      }
    } else {
      OtherRowOwners(config, s, step, id);
    }
    HomesStay(config, s, step, row.person, s.db.groups[row.group].game);
  }

  lemma LinkedAtHome(s: State, tx: Tx, a: Person, b: Person, game: string)
    requires HomesOk(s) && LinkAt(s, tx, Ready) && LivesIn(s, a, game) && {a, b} == {s.txns[tx].issuer, s.txns[tx].redeemer}
    ensures LivesIn(s, b, game)
  {
    assert TxnAtHome(s, s.txns[tx]);
    assert a in {a, b} && b in {a, b};
  }

  lemma HomesStay(config: Config, s: State, step: Step, person: Person, game: string)
    requires LivesIn(s, person, game)
    ensures LivesIn(Apply(config, s, step), person, game)
  {
    hide Fits, WriteAll, ActiveRows, Overflow, Found, JoinSlots, LinkSlots, Merged;
  }

  lemma TxnStaysHome(config: Config, s: State, step: Step, t: Txn)
    requires TxnAtHome(s, t) && Keeps(s.db, Apply(config, s, step).db)
    ensures TxnAtHome(Apply(config, s, step), t)
  {
    hide Apply, LivesIn;
    if t.Join? {
      forall i | 0 <= i < |t.targets|
        ensures LivesIn(Apply(config, s, step), t.targets[i].person, Apply(config, s, step).db.groups[t.group].game)
      {
        HomesStay(config, s, step, t.targets[i].person, s.db.groups[t.group].game);
      }
    } else {
      HomesStay(config, s, step, t.issuer, t.game);
      HomesStay(config, s, step, t.redeemer, t.game);
    }
  }

  predicate HasTx(step: Step) {
    !step.NewGroup? && !step.NewPerson? && !step.Depart? && !step.SweepIdle?
  }

  lemma OtherTxnsLooking(config: Config, s: State, step: Step, tx: Tx)
    requires !HasTx(step) || tx != StepTx(step)
    requires step.BeginJoin? || step.LockGroup? || step.Look?
    ensures tx in Apply(config, s, step).txns <==> tx in s.txns
    ensures tx in s.txns ==> Apply(config, s, step).txns[tx] == s.txns[tx]
  {
    hide Fits, WriteAll, Merged, ActiveRows, Overflow, Found, Killed, JoinSlots, LinkSlots, PlanLink, IsLive, Resolves,
      AfterNewGroup, AfterNewPerson, AfterLockSlots, AfterCheck, AfterCommitJoin, AfterBeginLink, AfterLockBoth,
      AfterCountBoth, AfterLockPeople, AfterCommitLink, AfterDepart, AfterSweepIdle;
  }

  lemma OtherTxnsChecking(config: Config, s: State, step: Step, tx: Tx)
    requires !HasTx(step) || tx != StepTx(step)
    requires step.LockSlots? || step.Check? || step.CommitJoin?
    ensures tx in Apply(config, s, step).txns <==> tx in s.txns
    ensures tx in s.txns ==> Apply(config, s, step).txns[tx] == s.txns[tx]
  {
    hide Fits, WriteAll, Merged, ActiveRows, Overflow, Found, Killed, JoinSlots, LinkSlots, PlanLink, IsLive, Resolves,
      AfterNewGroup, AfterNewPerson, AfterBeginJoin, AfterLockGroup, AfterLook, AfterBeginLink, AfterLockBoth,
      AfterCountBoth, AfterLockPeople, AfterCommitLink, AfterDepart, AfterSweepIdle;
  }

  lemma OtherTxnsLinking(config: Config, s: State, step: Step, tx: Tx)
    requires !HasTx(step) || tx != StepTx(step)
    requires step.BeginLink? || step.LockBoth? || step.CountBoth? || step.LockPeople? || step.CommitLink?
    ensures tx in Apply(config, s, step).txns <==> tx in s.txns
    ensures tx in s.txns ==> Apply(config, s, step).txns[tx] == s.txns[tx]
  {
    hide Fits, WriteAll, Merged, ActiveRows, Overflow, Found, Killed, JoinSlots, LinkSlots, PlanLink, IsLive, Resolves,
      AfterNewGroup, AfterNewPerson, AfterBeginJoin, AfterLockGroup, AfterLook, AfterLockSlots, AfterCheck,
      AfterCommitJoin, AfterDepart, AfterSweepIdle;
  }

  lemma OtherTxns(config: Config, s: State, step: Step, tx: Tx)
    requires !HasTx(step) || tx != StepTx(step)
    ensures tx in Apply(config, s, step).txns <==> tx in s.txns
    ensures tx in s.txns ==> Apply(config, s, step).txns[tx] == s.txns[tx]
  {
    hide AfterLockGroup, AfterLook, AfterLockSlots, AfterCheck, AfterCommitJoin, AfterLockBoth, AfterCountBoth, AfterLockPeople, AfterCommitLink, AfterBeginJoin, AfterBeginLink;
    if step.BeginJoin? || step.LockGroup? || step.Look? {
      OtherTxnsLooking(config, s, step, tx);
    } else if step.LockSlots? || step.Check? || step.CommitJoin? {
      OtherTxnsChecking(config, s, step, tx);
    } else if step.BeginLink? || step.LockBoth? || step.CountBoth? || step.LockPeople? || step.CommitLink? {
      OtherTxnsLinking(config, s, step, tx);
    }
  }

  lemma BegunAtHome(s: State, tx: Tx, group: GroupId, people: seq<Person>)
    requires Resolves(s, group, people)
    ensures TxnAtHome(s, Join(group, Unseen(Dedup(people)), Begun))
  {
    forall i | 0 <= i < |Dedup(people)|
      ensures LivesIn(s, Dedup(people)[i], s.db.groups[group].game)
    {
      assert Dedup(people)[i] in people;
    }
  }

  lemma OwnTxnAtHome(config: Config, s: State, step: Step)
    requires HomesOk(s) && HasTx(step) && StepTx(step) in Apply(config, s, step).txns
    ensures TxnAtHome(s, Apply(config, s, step).txns[StepTx(step)])
  {
    hide Fits, WriteAll, Merged, ActiveRows, Overflow, Found, Killed, JoinSlots, LinkSlots, PlanLink, Resolves, Dedup;
    if step.BeginJoin? && Resolves(s, step.group, step.people) {
      BegunAtHome(s, step.tx, step.group, step.people);
    }
  }

  lemma HomesKeep(config: Config, s: State, step: Step)
    requires Shape(s.db) && TargetsOk(s) && LinksOk(s) && GroupsHeld(s) && HomesOk(s)
    ensures HomesOk(Apply(config, s, step))
  {
    hide Apply, Shape, TargetsOk, LinksOk, GroupsHeld, Keeps, TxnAtHome, LivesIn;
    var after := Apply(config, s, step);
    TablesKeep(config, s, step);
    forall id | id in after.db.rows
      ensures after.db.rows[id].group in after.db.groups
      ensures LivesIn(after, after.db.rows[id].person, after.db.groups[after.db.rows[id].group].game)
    {
      if step.CommitJoin? {
        CommitJoinHomes(config, s, step, id);
      } else {
        OtherRowHomes(config, s, step, id);
      }
    }
    forall tx | tx in after.txns
      ensures TxnAtHome(after, after.txns[tx])
    {
      if HasTx(step) && StepTx(step) == tx {
        OwnTxnAtHome(config, s, step);
      } else {
        OtherTxns(config, s, step, tx);
      }
      TxnStaysHome(config, s, step, after.txns[tx]);
    }
  }

  lemma StepKeeps(config: Config, s: State, step: Step)
    requires Inv(config, s)
    ensures Inv(config, Apply(config, s, step))
  {
    hide Apply, Shape, GroupsHeld, TargetsOk, LinksOk, HomesOk, RoomOk, MembersOk;
    TablesKeep(config, s, step);
    GroupsHeldKeeps(config, s, step);
    TargetsKeep(config, s, step);
    LinksKeep(config, s, step);
    HomesKeep(config, s, step);
    RoomKeeps(config, s, step);
    MembersKeep(config, s, step);
  }

  lemma {:induction false} RunKeeps(config: Config, steps: seq<Step>)
    ensures Inv(config, Run(config, steps))
  {
    hide Apply;
    if steps != [] {
      RunKeeps(config, steps[..|steps| - 1]);
      StepKeeps(config, Run(config, steps[..|steps| - 1]), steps[|steps| - 1]);
    }
  }

  /** Whatever interleaves, no group ever has more active members than its kind allows. */
  lemma GroupsStayWithinMaxMembers(config: Config, steps: seq<Step>, group: GroupId)
    requires group in Run(config, steps).db.groups
    ensures
      var db := Run(config, steps).db;
      var slot := (db.groups[group].game, db.groups[group].kind);
      slot in config && config[slot].maxMembers.Some? ==> |ActiveRows(db.rows, group)| <= config[slot].maxMembers.value
  {
    hide Run, ActiveRows;
    RunKeeps(config, steps);
  }

  // ------------------------------------------------------------------
  // A join, a departure and a sweep that nobody stands in the way of
  // ------------------------------------------------------------------

  /** The six statements of one person's join, one after another. */
  ghost function LoneJoin(config: Config, s: State, tx: Tx, group: GroupId, person: Person, found: Option<RowId>): State {
    var begun := Apply(config, s, BeginJoin(tx, group, [person]));
    var looked := Apply(config, Apply(config, begun, LockGroup(tx)), Look(tx, [found]));
    Apply(config, Apply(config, Apply(config, looked, LockSlots(tx)), Check(tx)), CommitJoin(tx))
  }

  lemma LooksUp(config: Config, s: State, tx: Tx, group: GroupId, person: Person, found: Option<RowId>)
    requires tx !in s.txns && s.groupLock == map[] && s.slotLock == map[] && s.personLock == map[]
    requires IsLive(s.db.groups, group) && LivesIn(s, person, s.db.groups[group].game)
    requires Found(s.db.rows, group, Target(person, found))
    ensures
      var looked := Apply(config, Apply(config, Apply(config, s, BeginJoin(tx, group, [person])), LockGroup(tx)), Look(tx, [found]));
      looked ==
      if IsActive(s.db.rows, found) then s
      else JoiningAlone(s, tx, group, Target(person, found), Looked, map[])
  {
    hide Found, End;
    assert Dedup([person]) == [person] by { assert [person][..0] == []; }
    var begun := Apply(config, s, BeginJoin(tx, group, [person]));
    assert Unseen([person]) == [Target(person, None)];
    assert begun == s.(txns := s.txns[tx := Join(group, [Target(person, None)], Begun)]);
    var locked := Apply(config, begun, LockGroup(tx));
    assert locked == s.(txns := s.txns[tx := Join(group, [Target(person, None)], Locked)], groupLock := map[group := tx]);
    var targets := WithFound([Target(person, None)], [found]);
    assert targets == [Target(person, found)] && targets[0] == Target(person, found);
    assert [found][0] == found;
    EndsClean(s, locked, tx);
    LookAt(s, locked, tx, group, person, found);
  }

  lemma LookAt(s: State, locked: State, tx: Tx, group: GroupId, person: Person, found: Option<RowId>)
    requires locked == s.(txns := s.txns[tx := Join(group, [Target(person, None)], Locked)], groupLock := map[group := tx])
    requires Found(s.db.rows, group, Target(person, found)) && End(locked, tx) == s
    ensures AfterLook(locked, tx, [found]) ==
            if IsActive(s.db.rows, found) then s
            else s.(txns := s.txns[tx := Join(group, [Target(person, found)], Looked)], groupLock := map[group := tx])
  {
    hide End, Found;
    var targets := WithFound([Target(person, None)], [found]);
    assert targets == [Target(person, found)] && targets[0] == Target(person, found) && [found][0] == found;
    if !IsActive(s.db.rows, found) {
      assert forall i :: 0 <= i < |[found]| ==> !IsActive(s.db.rows, [found][i]);
    }
  }

  /** The lone join at a stage, holding its group and the slots `held`. */
  function JoiningAlone(s: State, tx: Tx, group: GroupId, target: Target, stage: JoinStage, held: map<Slot, Tx>): State {
    s.(txns := s.txns[tx := Join(group, [target], stage)], groupLock := map[group := tx], slotLock := held)
  }

  lemma LocksAlone(config: Config, s: State, tx: Tx, group: GroupId, target: Target) returns (held: map<Slot, Tx>)
    requires s.slotLock == map[]
    ensures forall k :: k in held ==> held[k] == tx
    ensures Apply(config, JoiningAlone(s, tx, group, target, Looked, map[]), LockSlots(tx)) == JoiningAlone(s, tx, group, target, Holding, held)
  {
    var looked := JoiningAlone(s, tx, group, target, Looked, map[]);
    var slots := JoinSlots(config, s.db.groups, looked.txns[tx]);
    held := map k | k in slots :: tx;
    assert map[] + held == held;
    assert looked.txns[tx := looked.txns[tx].(join := Holding)] == s.txns[tx := Join(group, [target], Holding)];
  }

  lemma ChecksAlone(config: Config, s: State, tx: Tx, group: GroupId, target: Target, held: map<Slot, Tx>)
    requires group in s.db.groups && tx !in s.txns && s.groupLock == map[] && s.slotLock == map[] && s.personLock == map[]
    requires forall k :: k in held ==> held[k] == tx
    ensures
      Apply(config, JoiningAlone(s, tx, group, target, Holding, held), Check(tx)) ==
      if Fits(config, s.db, group, [target]) then JoiningAlone(s, tx, group, target, Checked, held) else s
  {
    hide Fits, End;
    var holding := JoiningAlone(s, tx, group, target, Holding, held);
    EndsClean(s, holding, tx);
    assert holding.txns[tx := holding.txns[tx].(join := Checked)] == s.txns[tx := Join(group, [target], Checked)];
  }

  lemma LandsAlone(config: Config, s: State, tx: Tx, group: GroupId, target: Target, held: map<Slot, Tx>)
    requires tx !in s.txns && s.groupLock == map[] && s.slotLock == map[] && s.personLock == map[]
    requires Found(s.db.rows, group, target) && target.person in s.db.people
    requires forall k :: k in held ==> held[k] == tx
    ensures WriteOne(s.db, group, target).Some?
    ensures Apply(config, JoiningAlone(s, tx, group, target, Checked, held), CommitJoin(tx)) == s.(db := WriteOne(s.db, group, target).value)
  {
    hide End;
    var checked := JoiningAlone(s, tx, group, target, Checked, held);
    EndsClean(s, checked, tx);
    assert [target][..0] == [] && [target][0] == target;
    assert WriteAll(s.db, group, [target]) == WriteOne(s.db, group, target);
  }

  lemma ChecksAndLands(config: Config, s: State, tx: Tx, group: GroupId, target: Target)
    requires tx !in s.txns && s.groupLock == map[] && s.slotLock == map[] && s.personLock == map[]
    requires group in s.db.groups && Found(s.db.rows, group, target) && target.person in s.db.people
    ensures
      var looked := JoiningAlone(s, tx, group, target, Looked, map[]);
      var done := Apply(config, Apply(config, Apply(config, looked, LockSlots(tx)), Check(tx)), CommitJoin(tx));
      && WriteOne(s.db, group, target).Some?
      && done == if Fits(config, s.db, group, [target]) then s.(db := WriteOne(s.db, group, target).value) else s
  {
    hide Fits, Apply, WriteOne, Found, JoiningAlone;
    var held := LocksAlone(config, s, tx, group, target);
    ChecksAlone(config, s, tx, group, target, held);
    LandsAlone(config, s, tx, group, target, held);
    CommitNotBegun(config, s, tx);
  }

  lemma CommitNotBegun(config: Config, s: State, tx: Tx)
    requires tx !in s.txns
    ensures Apply(config, s, CommitJoin(tx)) == s
  {
  }

  lemma EndsClean(s: State, t: State, tx: Tx)
    requires tx !in s.txns && s.groupLock == map[] && s.slotLock == map[] && s.personLock == map[]
    requires tx in t.txns && t.txns == s.txns[tx := t.txns[tx]] && t.db == s.db && t.homes == s.homes
    requires (forall g :: g in t.groupLock ==> t.groupLock[g] == tx) && (forall k :: k in t.slotLock ==> t.slotLock[k] == tx) && t.personLock == map[]
    ensures End(t, tx) == s
  {
    assert t.txns - {tx} == s.txns;
  }

  /**
   A join nobody stands in the way of writes its one row exactly when the person is not active in the
   group yet, has a place left in their own cap and the group has room; either way it leaves no lock.
   */
  lemma LoneJoinLandsIff(config: Config, s: State, tx: Tx, group: GroupId, person: Person, found: Option<RowId>)
    requires Shape(s.db) && tx !in s.txns && s.groupLock == map[] && s.slotLock == map[] && s.personLock == map[]
    requires IsLive(s.db.groups, group) && LivesIn(s, person, s.db.groups[group].game) && person in s.db.people
    requires Found(s.db.rows, group, Target(person, found))
    ensures
      var game, kind := s.db.groups[group].game, s.db.groups[group].kind;
      var active := exists id :: id in s.db.rows && s.db.rows[id].group == group && s.db.rows[id].person == person && s.db.rows[id].status == Active;
      var ownPlace := (game, kind) in config && config[(game, kind)].maxPerUser.Some? ==>
                        |OtherRows(s.db.rows, s.db.groups, game, kind, group, person)| < config[(game, kind)].maxPerUser.value;
      var room := (game, kind) in config && config[(game, kind)].maxMembers.Some? ==>
                    |ActiveRows(s.db.rows, group)| < config[(game, kind)].maxMembers.value;
      && WriteOne(s.db, group, Target(person, found)).Some?
      && LoneJoin(config, s, tx, group, person, found) ==
         if !active && ownPlace && room then s.(db := WriteOne(s.db, group, Target(person, found)).value) else s
  {
    hide Apply, WriteOne, IsMember;
    LooksUp(config, s, tx, group, person, found);
    ChecksAndLands(config, s, tx, group, Target(person, found));
    ActiveIsFound(s.db, group, person, found);
    FitsOne(config, s.db, group, Target(person, found));
    NothingBegun(config, s, tx);
  }

  lemma NothingBegun(config: Config, s: State, tx: Tx)
    requires tx !in s.txns
    ensures Apply(config, Apply(config, Apply(config, s, LockSlots(tx)), Check(tx)), CommitJoin(tx)) == s
  {
  }

  lemma ActiveIsFound(db: Tables, group: GroupId, person: Person, found: Option<RowId>)
    requires Shape(db) && Found(db.rows, group, Target(person, found))
    ensures IsActive(db.rows, found) <==>
            exists id :: id in db.rows && db.rows[id].group == group && db.rows[id].person == person && db.rows[id].status == Active
  {
  }

  lemma FitsOne(config: Config, db: Tables, group: GroupId, target: Target)
    requires group in db.groups
    ensures
      var game, kind := db.groups[group].game, db.groups[group].kind;
      Fits(config, db, group, [target]) <==>
      && ((game, kind) in config && config[(game, kind)].maxPerUser.Some? ==>
            |OtherRows(db.rows, db.groups, game, kind, group, target.person)| < config[(game, kind)].maxPerUser.value)
      && ((game, kind) in config && config[(game, kind)].maxMembers.Some? ==>
            |ActiveRows(db.rows, group)| < config[(game, kind)].maxMembers.value)
  {
    hide OtherRows, ActiveRows;
    assert People([target]) == {target.person} by { assert [target][0] == target; }
  }

  /** A departure under a free lock changes one active row and frees exactly one place. */
  lemma DepartFreesAPlace(config: Config, s: State, row: RowId, to: Status, g: GroupId)
    requires row in s.db.rows && s.db.rows[row].status == Active && to != Active
    requires s.db.rows[row].group !in s.groupLock && IsLive(s.db.groups, s.db.rows[row].group)
    ensures
      var t := Apply(config, s, Depart(row, to));
      && t.db.rows == s.db.rows[row := s.db.rows[row].(status := to, version := s.db.rows[row].version + 1)]
      && |ActiveRows(t.db.rows, g)| == |ActiveRows(s.db.rows, g)| - (if g == s.db.rows[row].group then 1 else 0)
  {
    var t := Apply(config, s, Depart(row, to));
    assert ActiveRows(t.db.rows, g) == if g == s.db.rows[row].group then ActiveRows(s.db.rows, g) - {row} else ActiveRows(s.db.rows, g);
  }

  /** It ends its group exactly when it leaves nobody active there and the kind deletes empty groups; no other group changes. */
  lemma LastOneOutEndsTheGroup(config: Config, s: State, row: RowId, to: Status)
    requires row in s.db.rows && s.db.rows[row].status == Active && to != Active
    requires s.db.rows[row].group !in s.groupLock && IsLive(s.db.groups, s.db.rows[row].group)
    ensures
      var group, t := s.db.rows[row].group, Apply(config, s, Depart(row, to));
      var slot := (s.db.groups[group].game, s.db.groups[group].kind);
      && t.db.groups == s.db.groups[group := s.db.groups[group].(live := IsLive(t.db.groups, group))]
      && (IsLive(t.db.groups, group) <==>
            !(slot in config && config[slot].deleteWhenEmpty)
            || exists id :: id in t.db.rows && t.db.rows[id].group == group && t.db.rows[id].status == Active)
  {
    var group, t := s.db.rows[row].group, Apply(config, s, Depart(row, to));
    assert ActiveRows(t.db.rows, group) == {} <==> !exists id :: id in t.db.rows && t.db.rows[id].group == group && t.db.rows[id].status == Active by {
      if id :| id in t.db.rows && t.db.rows[id].group == group && t.db.rows[id].status == Active {
        assert id in ActiveRows(t.db.rows, group);
      }
    }
  }

  /** Any other departure changes nothing, and an idle sweep of an unlocked group ends it for good: it counts for nobody any more. */
  lemma SweptGroupsDoNotCount(config: Config, s: State, group: GroupId, row: RowId, to: Status, game: string, kind: string, people: set<Person>)
    requires group in s.db.groups && group !in s.groupLock
    ensures
      var t := Apply(config, s, SweepIdle(group));
      && t.db.rows == s.db.rows && !IsLive(t.db.groups, group)
      && ActiveGroups(t.db.rows, t.db.groups, game, kind, people) == ActiveGroups(s.db.rows, s.db.groups, game, kind, people) - {group}
    ensures row !in s.db.rows || s.db.rows[row].status != Active || s.db.rows[row].group in s.groupLock ==> Apply(config, s, Depart(row, to)) == s
  {
    var t := Apply(config, s, SweepIdle(group));
    forall g | g in ActiveGroups(s.db.rows, s.db.groups, game, kind, people) - {group}
      ensures g in ActiveGroups(t.db.rows, t.db.groups, game, kind, people)
    {
      var id :| id in s.db.rows && Counts(s.db.rows[id], s.db.groups, game, kind, people) && s.db.rows[id].group == g;
      assert Counts(t.db.rows[id], t.db.groups, game, kind, people);
    }
  }

  // ------------------------------------------------------------------
  // The locks taken and the row written
  // ------------------------------------------------------------------

  /** The lock on a person's count of one kind, if that kind has a per-user cap. */
  predicate CapLock(config: Config, k: Slot, game: string, person: Person) {
    && k.game == game && k.person == person
    && (k.game, k.kind) in config && config[(k.game, k.kind)].maxPerUser.Some?
  }

  /** A link takes the locks of both people for every capped kind of its game, all at once or, while one is held, none. */
  lemma LinkTakesItsLocks(config: Config, s: State, tx: Tx)
    requires LinkAt(s, tx, Asked)
    ensures
      var t, link := Apply(config, s, LockBoth(tx)), s.txns[tx];
      if exists k :: k in s.slotLock && (CapLock(config, k, link.game, link.issuer) || CapLock(config, k, link.game, link.redeemer)) then t == s
      else
        && t.txns == s.txns[tx := link.(link := HoldingBoth)] && t.db == s.db
        && (forall k :: k in t.slotLock <==>
              k in s.slotLock || CapLock(config, k, link.game, link.issuer) || CapLock(config, k, link.game, link.redeemer))
        && (forall k :: k in t.slotLock ==> t.slotLock[k] == if k in s.slotLock then s.slotLock[k] else tx)
  {
    var t := s.txns[tx];
    var slots := LinkSlots(config, t);
    forall k
      ensures k in slots <==> CapLock(config, k, t.game, t.issuer) || CapLock(config, k, t.game, t.redeemer)
    {
      if CapLock(config, k, t.game, t.issuer) || CapLock(config, k, t.game, t.redeemer) {
        assert (k.game, k.kind) in config && Slot(t.game, (k.game, k.kind).1, k.person) == k;
      }
    }
  }

  /** A join takes the locks of the people it adds for its group's kind, if that is capped, in the same way. */
  lemma JoinTakesItsLocks(config: Config, s: State, tx: Tx)
    requires JoinAt(s, tx, Looked) && s.txns[tx].group in s.db.groups
    ensures
      var t, join := Apply(config, s, LockSlots(tx)), s.txns[tx];
      var info := s.db.groups[join.group];
      if exists k :: k in s.slotLock && k.kind == info.kind && k.person in People(join.targets) && CapLock(config, k, info.game, k.person) then t == s
      else
        && t.txns == s.txns[tx := join.(join := Holding)] && t.db == s.db
        && (forall k :: k in t.slotLock <==>
              k in s.slotLock || (k.kind == info.kind && k.person in People(join.targets) && CapLock(config, k, info.game, k.person)))
        && (forall k :: k in t.slotLock ==> t.slotLock[k] == if k in s.slotLock then s.slotLock[k] else tx)
  {
    var t := s.txns[tx];
    var info := s.db.groups[t.group];
    var slots := JoinSlots(config, s.db.groups, t);
    forall k
      ensures k in slots <==> k.kind == info.kind && k.person in People(t.targets) && CapLock(config, k, info.game, k.person)
    {
      if k.kind == info.kind && k.person in People(t.targets) && CapLock(config, k, info.game, k.person) {
        assert Slot(info.game, info.kind, k.person) == k;
      }
    }
  }

  /** What a membership write leaves: the found row active with no ban and one version on, or a fresh row of version one. */
  lemma OneRowWritten(db: Tables, group: GroupId, target: Target)
    requires Shape(db) && WriteOne(db, group, target).Some?
    ensures
      var after := WriteOne(db, group, target).value;
      && after.groups == db.groups && after.people == db.people
      && (target.existing.Some? ==>
            var found := db.rows[target.existing.value];
            after.next == db.next &&
            after.rows == db.rows[target.existing.value := found.(status := Active, bannedUntil := None, version := found.version + 1)])
      && (target.existing.None? ==>
            && after.next == db.next + 1 && db.next !in db.rows
            && after.rows == db.rows[db.next := Row(group, target.person, Active, None, [], 0, Object({}), None, None, 1)])
  {
  }
}
