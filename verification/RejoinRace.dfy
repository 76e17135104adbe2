/** What a rejoin does to the cap when its row has moved, and a run in which that happens. */
module RejoinRace {
  import opened Common
  import opened GroupKinds
  import opened IdentityLink
  import opened JoinWrites
  import opened MembershipCaps
  import opened PerUserCaps

  /** A write by row id counts for whoever the row belongs to by then, whoever was counted. */
  lemma ReactivatedGroups(db: Tables, group: GroupId, target: Target, game: string, kind: string)
    requires Shape(db) && InSlot(db.groups, group, game, kind) && db.groups[group].live
    requires target.existing.Some? && target.existing.value in db.rows && db.rows[target.existing.value].group == group
    requires db.rows[target.existing.value].status != Active
    ensures
      var owner := Owner(db, target);
      var after := WriteOne(db, group, target).value;
      && group !in ActiveGroups(db.rows, db.groups, game, kind, {owner})
      && ActiveGroups(after.rows, after.groups, game, kind, {owner}) == ActiveGroups(db.rows, db.groups, game, kind, {owner}) + {group}
  {
    var id := target.existing.value;
    var owner := Owner(db, target);
    var after := WriteOne(db, group, target).value;
    assert Counts(after.rows[id], after.groups, game, kind, {owner});
    forall g | g in ActiveGroups(db.rows, db.groups, game, kind, {owner})
      ensures g in ActiveGroups(after.rows, after.groups, game, kind, {owner}) && g != group
    {
      var other :| other in db.rows && Counts(db.rows[other], db.groups, game, kind, {owner}) && db.rows[other].group == g;
      assert other != id && after.rows[other] == db.rows[other];
    }
    assert Known(db, group, [target]);
    WriteOneGrows(db, group, target, game, kind, {owner});
  }

  /**
   So a rejoin by itself keeps the cap of the row's owner exactly when the owner has a place left; who
   else may have counted that place is another matter.
   */
  lemma RejoinKeepsCapIff(config: Config, db: Tables, group: GroupId, target: Target, game: string, kind: string)
    requires Shape(db) && InSlot(db.groups, group, game, kind) && db.groups[group].live && Capped(config, game, kind)
    requires target.existing.Some? && target.existing.value in db.rows && db.rows[target.existing.value].group == group
    requires db.rows[target.existing.value].status != Active
    ensures
      var owner := Owner(db, target);
      var after := WriteOne(db, group, target).value;
      WithinCap(config, after, game, kind, {owner}) <==>
      |ActiveGroups(db.rows, db.groups, game, kind, {owner})| < Cap(config, game, kind)
  {
    ReactivatedGroups(db, group, target, game, kind);
  }

  /** The steps of `steps` from a given state on. */
  ghost function From(config: Config, s: State, steps: seq<Step>): State {
    if steps == [] then s else Apply(config, From(config, s, steps[..|steps| - 1]), steps[|steps| - 1])
  }

  lemma {:induction false} RunFrom(config: Config, before: seq<Step>, steps: seq<Step>)
    ensures Run(config, before + steps) == From(config, Run(config, before), steps)
  {
    if steps == [] {
      assert before + steps == before;
    } else {
      RunFrom(config, before, steps[..|steps| - 1]);
      assert (before + steps)[..|before + steps| - 1] == before + steps[..|steps| - 1];
    }
  }

  lemma Next(config: Config, s: State, steps: seq<Step>, step: Step)
    ensures From(config, s, steps + [step]) == Apply(config, From(config, s, steps), step)
  {
    assert (steps + [step])[..|steps|] == steps;
  }

  predicate Quiet(s: State) {
    s.txns == map[] && s.groupLock == map[] && s.slotLock == map[] && s.personLock == map[]
  }

  function LookSteps(tx: Tx, group: GroupId, person: Person, found: Option<RowId>): seq<Step> {
    [BeginJoin(tx, group, [person])] + [LockGroup(tx)] + [Look(tx, [found])]
  }

  function FinishSteps(tx: Tx): seq<Step> {
    [LockSlots(tx)] + [Check(tx)] + [CommitJoin(tx)]
  }

  function Looking(s: State, tx: Tx, group: GroupId, target: Target): State {
    s.(txns := map[tx := Join(group, [target], Looked)], groupLock := map[group := tx])
  }

  lemma LookAlone(config: Config, s: State, tx: Tx, group: GroupId, person: Person, found: Option<RowId>)
    requires Quiet(s) && IsLive(s.db.groups, group) && LivesIn(s, person, s.db.groups[group].game)
    requires Found(s.db.rows, group, Target(person, found)) && !IsActive(s.db.rows, found)
    ensures From(config, s, LookSteps(tx, group, person, found)) == Looking(s, tx, group, Target(person, found))
  {
    hide Found, Shape, AfterNewGroup, AfterNewPerson, AfterLockSlots, AfterCheck, AfterCommitJoin, AfterBeginLink,
      AfterLockBoth, AfterCountBoth, AfterLockPeople, AfterCommitLink, AfterDepart, AfterSweepIdle;
    var one := [BeginJoin(tx, group, [person])];
    Next(config, s, [], BeginJoin(tx, group, [person]));
    assert [] + [BeginJoin(tx, group, [person])] == one;
    Next(config, s, one, LockGroup(tx));
    Next(config, s, one + [LockGroup(tx)], Look(tx, [found]));
    Alone(person);
    assert From(config, s, one) == s.(txns := map[tx := Join(group, [Target(person, None)], Begun)]);
    assert From(config, s, one + [LockGroup(tx)]) ==
           s.(txns := map[tx := Join(group, [Target(person, None)], Locked)], groupLock := map[group := tx]);
    assert WithFound([Target(person, None)], [found]) == [Target(person, found)];
  }

  lemma Alone(person: Person)
    ensures Unseen(Dedup([person])) == [Target(person, None)]
  {
    assert [person][..0] == [];
    assert Dedup([person]) == [person];
  }

  function Held(s: State, tx: Tx, t: Txn, group: GroupId, slots: set<Slot>): State {
    s.(txns := map[tx := t], groupLock := map[group := tx], slotLock := map k | k in slots :: tx)
  }

  lemma EndAlone(s: State, tx: Tx, t: Txn, group: GroupId, slots: set<Slot>)
    requires Quiet(s)
    ensures End(Held(s, tx, t, group, slots), tx) == s
  {
  }

  lemma HoldAlone(config: Config, s: State, tx: Tx, group: GroupId, target: Target)
    requires Quiet(s)
    ensures
      var t := Join(group, [target], Holding);
      From(config, Looking(s, tx, group, target), [LockSlots(tx)]) == Held(s, tx, t, group, JoinSlots(config, s.db.groups, t))
  {
    var start := Looking(s, tx, group, target);
    Next(config, start, [], LockSlots(tx));
    assert [] + [LockSlots(tx)] == [LockSlots(tx)];
    assert start.slotLock == map[];
  }

  lemma CommitAlone(config: Config, s: State, tx: Tx, group: GroupId, target: Target, slots: set<Slot>)
    requires Quiet(s) && WriteOne(s.db, group, target).Some?
    ensures
      Apply(config, Held(s, tx, Join(group, [target], Checked), group, slots), CommitJoin(tx)) ==
      s.(db := WriteOne(s.db, group, target).value)
  {
    hide WriteOne, End;
    WriteSingle(s.db, group, target);
    EndAlone(s, tx, Join(group, [target], Checked), group, slots);
  }

  lemma CheckAlone(config: Config, s: State, tx: Tx, group: GroupId, target: Target, slots: set<Slot>)
    requires group in s.db.groups && Fits(config, s.db, group, [target])
    ensures Apply(config, Held(s, tx, Join(group, [target], Holding), group, slots), Check(tx)) ==
            Held(s, tx, Join(group, [target], Checked), group, slots)
  {
    hide Fits;
  }

  lemma FinishAlone(config: Config, s: State, tx: Tx, group: GroupId, target: Target)
    requires Quiet(s) && group in s.db.groups && Fits(config, s.db, group, [target]) && WriteOne(s.db, group, target).Some?
    ensures From(config, Looking(s, tx, group, target), FinishSteps(tx)) == s.(db := WriteOne(s.db, group, target).value)
  {
    hide WriteOne, Fits, From, JoinSlots, Quiet, Apply, Held, Looking;
    var start := Looking(s, tx, group, target);
    var slots := JoinSlots(config, s.db.groups, Join(group, [target], Holding));
    HoldAlone(config, s, tx, group, target);
    Next(config, start, [LockSlots(tx)], Check(tx));
    CheckAlone(config, s, tx, group, target, slots);
    Next(config, start, [LockSlots(tx)] + [Check(tx)], CommitJoin(tx));
    CommitAlone(config, s, tx, group, target, slots);
  }

  lemma WriteSingle(db: Tables, group: GroupId, target: Target)
    ensures WriteAll(db, group, [target]) == WriteOne(db, group, target)
  {
    assert [target][..0] == [];
  }

  const RACE_CONFIG: Config := map[("g", "k") := Limits(None, Some(1), false)]

  const KIND := Group("g", "k", true, None)

  const RACE_GROUPS: Groups := map["north" := KIND, "south" := KIND]

  const RACE_HOMES: map<Person, string> := map["ann" := "g", "bob" := "g"]

  /** Bob is in north; ann has left south. */
  const GONE := NewRow("south", "ann").(status := Departed, version := 2)

  const BEFORE_RACE := Tables(map[0 := NewRow("north", "bob"), 1 := GONE], RACE_GROUPS, {"ann", "bob"}, 2)

  function RaceSetup(): seq<Step> {
    [NewGroup("north", KIND)] + [NewGroup("south", KIND)] + [NewPerson("ann", "g")] + [NewPerson("bob", "g")]
  }

  function Still(db: Tables): State {
    State(db, RACE_HOMES, map[], map[], map[], map[])
  }

  lemma SetupState()
    ensures Run(RACE_CONFIG, RaceSetup()) == Still(Tables(map[], RACE_GROUPS, {"ann", "bob"}, 0))
  {
    var s1 := [NewGroup("north", KIND)];
    var s2 := s1 + [NewGroup("south", KIND)];
    var s3 := s2 + [NewPerson("ann", "g")];
    RunFrom(RACE_CONFIG, [], RaceSetup());
    assert [] + RaceSetup() == RaceSetup();
    Next(RACE_CONFIG, EMPTY, [], NewGroup("north", KIND));
    assert [] + [NewGroup("north", KIND)] == s1;
    Next(RACE_CONFIG, EMPTY, s1, NewGroup("south", KIND));
    Next(RACE_CONFIG, EMPTY, s2, NewPerson("ann", "g"));
    Next(RACE_CONFIG, EMPTY, s3, NewPerson("bob", "g"));
  }

  function JoinSteps(tx: Tx, group: GroupId, person: Person): seq<Step> {
    LookSteps(tx, group, person, None) + FinishSteps(tx)
  }

  lemma {:induction false} FromJoined(config: Config, s: State, before: seq<Step>, steps: seq<Step>)
    ensures From(config, s, before + steps) == From(config, From(config, s, before), steps)
  {
    if steps == [] {
      assert before + steps == before;
    } else {
      FromJoined(config, s, before, steps[..|steps| - 1]);
      assert (before + steps)[..|before + steps| - 1] == before + steps[..|steps| - 1];
    }
  }

  /** A join by someone with no row and no other membership, with nothing else going on, lands. */
  lemma JoinAlone(config: Config, s: State, tx: Tx, group: GroupId, person: Person)
    requires Quiet(s) && IsLive(s.db.groups, group) && LivesIn(s, person, s.db.groups[group].game) && person in s.db.people
    requires !IsMember(s.db.rows, group, person) && Fits(config, s.db, group, [Target(person, None)])
    ensures From(config, s, JoinSteps(tx, group, person)) ==
            s.(db := s.db.(rows := s.db.rows[s.db.next := NewRow(group, person)], next := s.db.next + 1))
  {
    hide From, LookSteps, FinishSteps, Fits;
    FromJoined(config, s, LookSteps(tx, group, person, None), FinishSteps(tx));
    LookAlone(config, s, tx, group, person, None);
    FinishAlone(config, s, tx, group, Target(person, None));
  }

  function LeaveSteps(): seq<Step> {
    JoinSteps(1, "north", "bob") + JoinSteps(2, "south", "ann") + [Depart(1, Departed)]
  }

  lemma NoOthers(db: Tables, group: GroupId, person: Person)
    requires group in db.groups && forall id :: id in db.rows && db.rows[id].status == Active ==> db.rows[id].person != person
    ensures Fits(RACE_CONFIG, db, group, [Target(person, None)])
  {
    assert forall game, kind :: OtherRows(db.rows, db.groups, game, kind, group, person) == {};
    var targets := [Target(person, None)];
    assert targets[0].person == person;
    assert People(targets) == {person};
  }

  lemma BeforeRace()
    ensures Run(RACE_CONFIG, RaceSetup() + LeaveSteps()) == Still(BEFORE_RACE)
  {
    hide Run, From, Fits, JoinSteps;
    var s0 := Still(Tables(map[], RACE_GROUPS, {"ann", "bob"}, 0));
    var s1 := Still(Tables(map[0 := NewRow("north", "bob")], RACE_GROUPS, {"ann", "bob"}, 1));
    var s2 := Still(Tables(map[0 := NewRow("north", "bob"), 1 := NewRow("south", "ann")], RACE_GROUPS, {"ann", "bob"}, 2));
    SetupState();
    RunFrom(RACE_CONFIG, RaceSetup(), LeaveSteps());
    NoOthers(s0.db, "north", "bob");
    JoinAlone(RACE_CONFIG, s0, 1, "north", "bob");
    NoOthers(s1.db, "south", "ann");
    JoinAlone(RACE_CONFIG, s1, 2, "south", "ann");
    FromJoined(RACE_CONFIG, s0, JoinSteps(1, "north", "bob"), JoinSteps(2, "south", "ann"));
    Next(RACE_CONFIG, s0, JoinSteps(1, "north", "bob") + JoinSteps(2, "south", "ann"), Depart(1, Departed));
    assert From(RACE_CONFIG, s0, JoinSteps(1, "north", "bob") + JoinSteps(2, "south", "ann")) == s2;
    LastDeparts();
  }

  lemma LastDeparts()
    ensures
      Apply(RACE_CONFIG, Still(Tables(map[0 := NewRow("north", "bob"), 1 := NewRow("south", "ann")], RACE_GROUPS, {"ann", "bob"}, 2)),
            Depart(1, Departed)) == Still(BEFORE_RACE)
  {
    assert !DeletesWhenEmpty(RACE_CONFIG, KIND);
  }

  const NOTHING := Footprint(false, false)

  function LinkSteps(): seq<Step> {
    [BeginLink(4, "g", "bob", "ann")] + [LockBoth(4)] + [CountBoth(4)] + [LockPeople(4)] + [CommitLink(4, NOTHING, NOTHING)]
  }

  /** Ann's departed row now belongs to bob. */
  const AFTER_LINK := Tables(map[0 := NewRow("north", "bob"), 1 := Moved(GONE, "bob")], RACE_GROUPS, {"bob"}, 2)

  const WAITING := Looking(Still(BEFORE_RACE), 3, "south", Target("ann", Some(1)))

  function Linking(stage: LinkStage): State {
    WAITING.(txns := map[3 := Join("south", [Target("ann", Some(1))], Looked), 4 := Link("g", "bob", "ann", stage)])
  }

  function BothSlots(): map<Slot, Tx> {
    map k | k in LinkSlots(RACE_CONFIG, Link("g", "bob", "ann", Asked)) :: 4
  }

  lemma LinkCounts()
    ensures Overflow(RACE_CONFIG, BEFORE_RACE.rows, RACE_GROUPS, "g", {"bob", "ann"}) == {}
  {
    assert ActiveGroups(BEFORE_RACE.rows, RACE_GROUPS, "g", "k", {"bob", "ann"}) == {"north"} by {
      assert Counts(BEFORE_RACE.rows[0], RACE_GROUPS, "g", "k", {"bob", "ann"});
    }
  }

  lemma LinkMoves()
    ensures Merged(BEFORE_RACE.rows, "bob", "ann") == AFTER_LINK.rows
  {
    assert !IsMember(BEFORE_RACE.rows, "south", "bob");
  }

  lemma LinkAsks()
    ensures Apply(RACE_CONFIG, WAITING, BeginLink(4, "g", "bob", "ann")) == Linking(Asked)
  {
    assert WAITING.txns == map[3 := Join("south", [Target("ann", Some(1))], Looked)];
  }

  lemma LinkTakesBoth()
    ensures Apply(RACE_CONFIG, Linking(Asked), LockBoth(4)) == Linking(HoldingBoth).(slotLock := BothSlots())
  {
    hide LinkSlots, AfterNewGroup, AfterNewPerson, AfterBeginJoin, AfterLockGroup, AfterLook, AfterLockSlots,
      AfterCheck, AfterCommitJoin, AfterBeginLink, AfterCountBoth, AfterLockPeople, AfterCommitLink, AfterDepart,
      AfterSweepIdle;
    assert Linking(Asked).slotLock == map[];
  }

  lemma LinkPasses()
    ensures Apply(RACE_CONFIG, Linking(HoldingBoth).(slotLock := BothSlots()), CountBoth(4)) == Linking(Counted).(slotLock := BothSlots())
  {
    hide LinkSlots, Overflow;
    LinkCounts();
  }

  lemma LinkLocks()
    ensures From(RACE_CONFIG, WAITING, [BeginLink(4, "g", "bob", "ann")] + [LockBoth(4)] + [CountBoth(4)]) ==
            Linking(Counted).(slotLock := BothSlots())
  {
    hide Apply, BothSlots, Linking;
    var s1 := [BeginLink(4, "g", "bob", "ann")];
    Next(RACE_CONFIG, WAITING, [], BeginLink(4, "g", "bob", "ann"));
    assert [] + [BeginLink(4, "g", "bob", "ann")] == s1;
    LinkAsks();
    Next(RACE_CONFIG, WAITING, s1, LockBoth(4));
    LinkTakesBoth();
    Next(RACE_CONFIG, WAITING, s1 + [LockBoth(4)], CountBoth(4));
    LinkPasses();
  }

  function Ending(): State {
    Linking(Ready).(slotLock := BothSlots(), personLock := map["bob" := 4, "ann" := 4])
  }

  lemma LinkReleases()
    ensures End(Ending(), 4) == WAITING
  {
    hide LinkSlots;
    assert WAITING.slotLock == map[] && WAITING.personLock == map[];
    assert End(Ending(), 4).slotLock == map[];
    assert End(Ending(), 4).personLock == map[];
    assert End(Ending(), 4).txns == WAITING.txns;
  }

  lemma LinkEnds()
    ensures
      Apply(RACE_CONFIG, Ending(), CommitLink(4, NOTHING, NOTHING)) == Looking(Still(AFTER_LINK), 3, "south", Target("ann", Some(1)))
  {
    hide Merged, End, LinkSlots, AfterLockGroup, AfterLook, AfterLockSlots, AfterCheck, AfterCommitJoin, AfterLockBoth, AfterCountBoth,
      AfterLockPeople, AfterBeginJoin, AfterBeginLink, AfterDepart, AfterNewGroup, AfterNewPerson, AfterSweepIdle;
    LinkReleases();
    LinkMoves();
    assert {"ann", "bob"} - {"ann"} == {"bob"};
  }

  lemma RaceLinks()
    ensures From(RACE_CONFIG, WAITING, LinkSteps()) == Looking(Still(AFTER_LINK), 3, "south", Target("ann", Some(1)))
  {
    hide From, AfterCommitLink, Overflow, LinkSlots;
    var s3 := [BeginLink(4, "g", "bob", "ann")] + [LockBoth(4)] + [CountBoth(4)];
    LinkLocks();
    Next(RACE_CONFIG, WAITING, s3, LockPeople(4));
    Next(RACE_CONFIG, WAITING, s3 + [LockPeople(4)], CommitLink(4, NOTHING, NOTHING));
    assert From(RACE_CONFIG, WAITING, s3 + [LockPeople(4)]) ==
           Linking(Ready).(slotLock := BothSlots(), personLock := map["bob" := 4, "ann" := 4]);
    LinkEnds();
  }

  function RaceSteps(): seq<Step> {
    LookSteps(3, "south", "ann", Some(1)) + LinkSteps() + FinishSteps(3)
  }

  const AFTER_RACE := AFTER_LINK.(rows := AFTER_LINK.rows[1 := Reactivated(Moved(GONE, "bob"))])

  lemma RaceFits()
    ensures Fits(RACE_CONFIG, AFTER_LINK, "south", [Target("ann", Some(1))])
  {
    var targets := [Target("ann", Some(1))];
    assert OtherRows(AFTER_LINK.rows, RACE_GROUPS, "g", "k", "south", "ann") == {};
    assert targets[0].person == "ann";
    assert People(targets) == {"ann"};
  }

  lemma RaceRuns()
    ensures From(RACE_CONFIG, Still(BEFORE_RACE), RaceSteps()) == Still(AFTER_RACE)
  {
    hide From, LookSteps, LinkSteps, FinishSteps, Fits;
    var s := Still(BEFORE_RACE);
    var look := LookSteps(3, "south", "ann", Some(1));
    FromJoined(RACE_CONFIG, s, look + LinkSteps(), FinishSteps(3));
    FromJoined(RACE_CONFIG, s, look, LinkSteps());
    LookAlone(RACE_CONFIG, s, 3, "south", "ann", Some(1));
    RaceLinks();
    RaceFits();
    FinishAlone(RACE_CONFIG, Still(AFTER_LINK), 3, "south", Target("ann", Some(1)));
  }

  /**
   The condition is needed: a rejoin that looked its row up before a link moved it counts the
   attached person and then writes the survivor's row. Bob ends up in two groups of a kind capped
   at one.
   */
  lemma RejoinRacesLink()
    ensures
      var db := Run(RACE_CONFIG, RaceSetup() + LeaveSteps() + RaceSteps()).db;
      ActiveGroups(db.rows, db.groups, "g", "k", {"bob"}) == {"north", "south"} && Cap(RACE_CONFIG, "g", "k") == 1
  {
    hide Run, From, RaceSetup, LeaveSteps, RaceSteps;
    BeforeRace();
    RunFrom(RACE_CONFIG, RaceSetup() + LeaveSteps(), RaceSteps());
    RaceRuns();
    assert Counts(AFTER_RACE.rows[0], RACE_GROUPS, "g", "k", {"bob"});
    assert Counts(AFTER_RACE.rows[1], RACE_GROUPS, "g", "k", {"bob"});
  }

  // ------------------------------------------------------------------
  // One place counted twice
  // ------------------------------------------------------------------

  const BOB_GONE := NewRow("north", "bob").(status := Departed, version := 2)

  /** Bob has left north too, and still owns ann's old row in south. */
  const BOTH_GONE := Tables(map[0 := BOB_GONE, 1 := Moved(GONE, "bob")], RACE_GROUPS, {"bob"}, 2)

  const ANN_IN_SOUTH := [Target("ann", Some(1))]

  const BOB_IN_NORTH := [Target("bob", Some(0))]

  /** Ann's old rejoin of south next to bob's rejoin of north, at these stages and with these slots held. */
  function Two(south: JoinStage, targets: seq<Target>, north: JoinStage, locks: map<GroupId, Tx>, slots: map<Slot, Tx>): State {
    State(BOTH_GONE, RACE_HOMES, map[3 := Join("south", ANN_IN_SOUTH, south), 5 := Join("north", targets, north)], locks, slots, map[])
  }

  const SOUTH_LOCK: map<GroupId, Tx> := map["south" := 3]

  const BOTH_LOCKS: map<GroupId, Tx> := map["south" := 3, "north" := 5]

  const BOB_SLOT: map<Slot, Tx> := map[Slot("g", "k", "bob") := 5]

  const BOTH_SLOTS: map<Slot, Tx> := map[Slot("g", "k", "bob") := 5, Slot("g", "k", "ann") := 3]

  /** Both joins have checked the one place bob has. */
  const BOTH_CHECKED := Two(Checked, BOB_IN_NORTH, Checked, BOTH_LOCKS, BOTH_SLOTS)

  function TwiceSteps(): seq<Step> {
    [Depart(0, Departed)] + [BeginJoin(5, "north", ["bob"])] + [LockGroup(5)] + [Look(5, [Some(0)])] + [LockSlots(5)] + [Check(5)] +
    [LockSlots(3)] + [Check(3)]
  }

  lemma BobDeparts()
    ensures Apply(RACE_CONFIG, Looking(Still(AFTER_LINK), 3, "south", Target("ann", Some(1))), Depart(0, Departed)) ==
            Looking(Still(BOTH_GONE), 3, "south", Target("ann", Some(1)))
  {
    assert !DeletesWhenEmpty(RACE_CONFIG, KIND);
  }

  lemma BobBegins()
    ensures Apply(RACE_CONFIG, Looking(Still(BOTH_GONE), 3, "south", Target("ann", Some(1))), BeginJoin(5, "north", ["bob"])) ==
            Two(Looked, [Target("bob", None)], Begun, SOUTH_LOCK, map[])
  {
    Alone("bob");
  }

  lemma BobLocks()
    ensures Apply(RACE_CONFIG, Two(Looked, [Target("bob", None)], Begun, SOUTH_LOCK, map[]), LockGroup(5)) ==
            Two(Looked, [Target("bob", None)], Locked, BOTH_LOCKS, map[])
  {
    assert IsLive(RACE_GROUPS, "north");
  }

  lemma BobLooks()
    ensures Apply(RACE_CONFIG, Two(Looked, [Target("bob", None)], Locked, BOTH_LOCKS, map[]), Look(5, [Some(0)])) ==
            Two(Looked, BOB_IN_NORTH, Looked, BOTH_LOCKS, map[])
  {
    assert WithFound([Target("bob", None)], [Some(0)]) == BOB_IN_NORTH;
    assert !IsActive(BOTH_GONE.rows, Some(0));
  }

  lemma OneSlot(group: GroupId, targets: seq<Target>, stage: JoinStage)
    requires group in RACE_GROUPS && |targets| == 1
    ensures JoinSlots(RACE_CONFIG, RACE_GROUPS, Join(group, targets, stage)) == {Slot("g", "k", targets[0].person)}
  {
    assert People(targets) == {targets[0].person};
  }

  lemma TakesSlots(s: State, tx: Tx)
    requires JoinAt(s, tx, Looked) && forall k :: k in JoinSlots(RACE_CONFIG, s.db.groups, s.txns[tx]) ==> k !in s.slotLock
    ensures
      Apply(RACE_CONFIG, s, LockSlots(tx)) ==
      s.(slotLock := s.slotLock + Taken(JoinSlots(RACE_CONFIG, s.db.groups, s.txns[tx]), tx), txns := s.txns[tx := s.txns[tx].(join := Holding)])
  {
    hide JoinSlots;
  }

  function Taken(slots: set<Slot>, tx: Tx): map<Slot, Tx> {
    map k | k in slots :: tx
  }

  lemma Adds(held: map<Slot, Tx>, slot: Slot, tx: Tx)
    ensures held + Taken({slot}, tx) == held[slot := tx]
  {
  }

  lemma BobHolds()
    ensures Apply(RACE_CONFIG, Two(Looked, BOB_IN_NORTH, Looked, BOTH_LOCKS, map[]), LockSlots(5)) ==
            Two(Looked, BOB_IN_NORTH, Holding, BOTH_LOCKS, BOB_SLOT)
  {
    OneSlot("north", BOB_IN_NORTH, Looked);
    var before := Two(Looked, BOB_IN_NORTH, Looked, BOTH_LOCKS, map[]);
    TakesSlots(before, 5);
    hide Apply, JoinSlots;
    Adds(map[], Slot("g", "k", "bob"), 5);
  }

  lemma OneFits(group: GroupId, targets: seq<Target>)
    requires group in RACE_GROUPS && |targets| == 1
    ensures Fits(RACE_CONFIG, BOTH_GONE, group, targets)
  {
    assert OtherRows(BOTH_GONE.rows, RACE_GROUPS, "g", "k", group, targets[0].person) == {};
    assert People(targets) == {targets[0].person};
  }

  lemma BobChecks()
    ensures Apply(RACE_CONFIG, Two(Looked, BOB_IN_NORTH, Holding, BOTH_LOCKS, BOB_SLOT), Check(5)) ==
            Two(Looked, BOB_IN_NORTH, Checked, BOTH_LOCKS, BOB_SLOT)
  {
    OneFits("north", BOB_IN_NORTH);
    hide Fits;
  }

  lemma AnnHolds()
    ensures Apply(RACE_CONFIG, Two(Looked, BOB_IN_NORTH, Checked, BOTH_LOCKS, BOB_SLOT), LockSlots(3)) ==
            Two(Holding, BOB_IN_NORTH, Checked, BOTH_LOCKS, BOTH_SLOTS)
  {
    OneSlot("south", ANN_IN_SOUTH, Looked);
    var before := Two(Looked, BOB_IN_NORTH, Checked, BOTH_LOCKS, BOB_SLOT);
    TakesSlots(before, 3);
    hide Apply, JoinSlots;
    Adds(BOB_SLOT, Slot("g", "k", "ann"), 3);
  }

  lemma AnnChecks()
    ensures Apply(RACE_CONFIG, Two(Holding, BOB_IN_NORTH, Checked, BOTH_LOCKS, BOTH_SLOTS), Check(3)) == BOTH_CHECKED
  {
    OneFits("south", ANN_IN_SOUTH);
    hide Fits;
  }

  lemma BothCheck()
    ensures From(RACE_CONFIG, Looking(Still(AFTER_LINK), 3, "south", Target("ann", Some(1))), TwiceSteps()) == BOTH_CHECKED
  {
    hide Apply, Two, Looking;
    var s := Looking(Still(AFTER_LINK), 3, "south", Target("ann", Some(1)));
    var s1 := [Depart(0, Departed)];
    var s2 := s1 + [BeginJoin(5, "north", ["bob"])];
    var s3 := s2 + [LockGroup(5)];
    var s4 := s3 + [Look(5, [Some(0)])];
    var s5 := s4 + [LockSlots(5)];
    var s6 := s5 + [Check(5)];
    var s7 := s6 + [LockSlots(3)];
    Next(RACE_CONFIG, s, [], Depart(0, Departed));
    assert [] + [Depart(0, Departed)] == s1;
    BobDeparts();
    Next(RACE_CONFIG, s, s1, BeginJoin(5, "north", ["bob"]));
    BobBegins();
    Next(RACE_CONFIG, s, s2, LockGroup(5));
    BobLocks();
    Next(RACE_CONFIG, s, s3, Look(5, [Some(0)]));
    BobLooks();
    Next(RACE_CONFIG, s, s4, LockSlots(5));
    BobHolds();
    Next(RACE_CONFIG, s, s5, Check(5));
    BobChecks();
    Next(RACE_CONFIG, s, s6, LockSlots(3));
    AnnHolds();
    Next(RACE_CONFIG, s, s7, Check(3));
    AnnChecks();
  }

  lemma BothCheckRuns()
    ensures
      Run(RACE_CONFIG, RaceSetup() + LeaveSteps() + (LookSteps(3, "south", "ann", Some(1)) + LinkSteps() + TwiceSteps())) == BOTH_CHECKED
  {
    hide Run, From, RaceSetup, LeaveSteps, LookSteps, LinkSteps, TwiceSteps;
    var look := LookSteps(3, "south", "ann", Some(1));
    BeforeRace();
    RunFrom(RACE_CONFIG, RaceSetup() + LeaveSteps(), look + LinkSteps() + TwiceSteps());
    FromJoined(RACE_CONFIG, Still(BEFORE_RACE), look + LinkSteps(), TwiceSteps());
    FromJoined(RACE_CONFIG, Still(BEFORE_RACE), look, LinkSteps());
    LookAlone(RACE_CONFIG, Still(BEFORE_RACE), 3, "south", "ann", Some(1));
    RaceLinks();
    BothCheck();
  }

  const SOUTH_REJOINED := BOTH_GONE.(rows := BOTH_GONE.rows[1 := Reactivated(Moved(GONE, "bob"))])

  const BOTH_REJOINED := SOUTH_REJOINED.(rows := SOUTH_REJOINED.rows[0 := Reactivated(BOB_GONE)])

  lemma SouthCommits()
    ensures Apply(RACE_CONFIG, BOTH_CHECKED, CommitJoin(3)).db == SOUTH_REJOINED
    ensures JoinAt(Apply(RACE_CONFIG, BOTH_CHECKED, CommitJoin(3)), 5, Checked)
    ensures Apply(RACE_CONFIG, BOTH_CHECKED, CommitJoin(3)).txns[5] == Join("north", BOB_IN_NORTH, Checked)
  {
    WriteSingle(BOTH_GONE, "south", Target("ann", Some(1)));
  }

  lemma NorthCommits(s: State)
    requires JoinAt(s, 5, Checked) && s.txns[5] == Join("north", BOB_IN_NORTH, Checked) && s.db == SOUTH_REJOINED
    ensures Apply(RACE_CONFIG, s, CommitJoin(5)).db == BOTH_REJOINED
  {
    WriteSingle(SOUTH_REJOINED, "north", Target("bob", Some(0)));
  }

  lemma AnnStrays()
    ensures Strays(BOTH_GONE, ANN_IN_SOUTH[0]) && Owner(BOTH_GONE, ANN_IN_SOUTH[0]) == "bob" && Commits(BOTH_CHECKED, 3)
  {
    assert CanWrite(BOTH_GONE, "south", ANN_IN_SOUTH[0]);
  }

  lemma BobRelies()
    ensures Relies(BOTH_CHECKED, 5, "g", "k", "bob")
  {
    assert CanWrite(BOTH_GONE, "north", BOB_IN_NORTH[0]);
    assert SparesAt(BOTH_CHECKED, 5, 0);
  }

  /** It is the clause on other joins that fails: bob's own rejoin has counted the place ann's write takes. */
  lemma NoRoomForBoth()
    ensures !Harmless(RACE_CONFIG, BOTH_CHECKED, CommitJoin(3))
  {
    hide Relies, Commits, Strays, Owner, ActiveGroups, JoinedWith;
    AnnStrays();
    BobRelies();
    var held := ActiveGroups(BOTH_GONE.rows, RACE_GROUPS, "g", "k", {"bob"}) + {"south"};
    assert "south" in held - {"north"};
    assert !LeavesRoom(RACE_CONFIG, BOTH_CHECKED, 3, "g", "k", "south", "bob") by {
      NotEmpty(held - {"north"}, "south");
    }
    assert !HarmlessFor(RACE_CONFIG, BOTH_CHECKED, 3, Owner(BOTH_GONE, ANN_IN_SOUTH[0]));
  }

  lemma NotEmpty(groups: set<GroupId>, group: GroupId)
    requires group in groups
    ensures 1 <= |groups|
  {
    Fewer({group}, groups);
  }

  /**
   A place left is not enough: bob has one when ann's old rejoin writes his row, and is within the cap
   after it; but his own rejoin, which no lock of the other's stops, has counted that place too.
   */
  lemma OnePlaceCountedTwice()
    ensures
      var s := Run(RACE_CONFIG, RaceSetup() + LeaveSteps() + (LookSteps(3, "south", "ann", Some(1)) + LinkSteps() + TwiceSteps()));
      var t := Apply(RACE_CONFIG, s, CommitJoin(3));
      && ActiveGroups(s.db.rows, s.db.groups, "g", "k", {"bob"}) == {} && Cap(RACE_CONFIG, "g", "k") == 1
      && !Harmless(RACE_CONFIG, s, CommitJoin(3))
      && ActiveGroups(t.db.rows, t.db.groups, "g", "k", {"bob"}) == {"south"}
      && Harmless(RACE_CONFIG, t, CommitJoin(5))
      && ActiveGroups(Apply(RACE_CONFIG, t, CommitJoin(5)).db.rows, RACE_GROUPS, "g", "k", {"bob"}) == {"north", "south"}
  {
    hide Run, RaceSetup, LeaveSteps, LookSteps, LinkSteps, TwiceSteps, Harmless, Apply;
    BothCheckRuns();
    NoRoomForBoth();
    SouthCommits();
    var t := Apply(RACE_CONFIG, BOTH_CHECKED, CommitJoin(3));
    NorthCommits(t);
    OwnedIsHarmless(RACE_CONFIG, t, 5);
    assert Counts(SOUTH_REJOINED.rows[1], RACE_GROUPS, "g", "k", {"bob"});
    assert Counts(BOTH_REJOINED.rows[0], RACE_GROUPS, "g", "k", {"bob"});
    assert Counts(BOTH_REJOINED.rows[1], RACE_GROUPS, "g", "k", {"bob"});
  }
}
