/** The per-person cap of a group kind over every interleaving of joins and link merges. */
module PerUserCaps {
  import opened GroupKinds
  import opened IdentityLink
  import opened JoinWrites
  import opened MembershipCaps

  /** Someone counts toward no kind of another game. */
  lemma CountedAtHome(s: State, person: Person, game: string, other: string, kind: string)
    requires HomesOk(s) && LivesIn(s, person, game) && other != game
    ensures ActiveGroups(s.db.rows, s.db.groups, other, kind, {person}) == {}
  {
  }

  /** A transaction's per-user locks: a join's once it counts, a link's from the start. */
  function SlotsOf(config: Config, groups: Groups, t: Txn): set<Slot> {
    if t.Join? then if t.join == Holding || t.join == Checked then JoinSlots(config, groups, t) else {}
    else if t.link == Asked then {} else LinkSlots(config, t)
  }

  ghost predicate SlotsHeld(config: Config, s: State) {
    forall tx, k :: tx in s.txns && k in SlotsOf(config, s.db.groups, s.txns[tx]) ==> k in s.slotLock && s.slotLock[k] == tx
  }

  ghost predicate WithinCap(config: Config, db: Tables, game: string, kind: string, people: set<Person>) {
    Capped(config, game, kind) ==> |ActiveGroups(db.rows, db.groups, game, kind, people)| <= Cap(config, game, kind)
  }

  ghost predicate HasSpare(config: Config, db: Tables, group: GroupId, person: Person)
    requires group in db.groups
  {
    var game, kind := db.groups[group].game, db.groups[group].kind;
    Capped(config, game, kind) ==> |ActiveGroups(db.rows, db.groups, game, kind, {person}) - {group}| < Cap(config, game, kind)
  }

  /** A checked join has room left for everyone it still writes for. */
  ghost predicate SpareOk(config: Config, s: State) {
    forall tx, i :: SparesAt(s, tx, i) ==> HasSpare(config, s.db, s.txns[tx].group, s.txns[tx].targets[i].person)
  }

  ghost predicate SparesAt(s: State, tx: Tx, i: int) {
    && JoinAt(s, tx, Checked) && s.txns[tx].group in s.db.groups && Lands(s.db, s.txns[tx].group, s.txns[tx].targets)
    && 0 <= i < |s.txns[tx].targets| && Mine(s.db, s.txns[tx].targets[i])
  }

  predicate LinkCounted(s: State, tx: Tx) {
    LinkAt(s, tx, Counted) || LinkAt(s, tx, Ready)
  }

  /** A counted link that can still go through: both people are there. */
  predicate LinkOpen(s: State, tx: Tx) {
    LinkCounted(s, tx) && s.txns[tx].issuer in s.db.people && s.txns[tx].redeemer in s.db.people
  }

  /** What a merge would leave the survivor active in. */
  ghost function Joined(db: Tables, game: string, kind: string, survivor: Person, attached: Person): set<GroupId> {
    ActiveGroups(db.rows, db.groups, game, kind, {survivor}) + CarriedOver(db.rows, db.groups, game, kind, survivor, attached)
  }

  ghost predicate PairFits(config: Config, db: Tables, game: string, kind: string, a: Person, b: Person) {
    Capped(config, game, kind) ==>
      |Joined(db, game, kind, a, b)| <= Cap(config, game, kind) && |Joined(db, game, kind, b, a)| <= Cap(config, game, kind)
  }

  /** Whichever side of an open link survives, the merge keeps the cap. */
  ghost predicate PairsOk(config: Config, s: State) {
    forall tx, kind :: LinkOpen(s, tx) ==> PairFits(config, s.db, s.txns[tx].game, kind, s.txns[tx].issuer, s.txns[tx].redeemer)
  }

  /** Person rows are locked by links ready to commit, each by both its people, who are still there. */
  ghost predicate PeopleHeld(s: State) {
    && (forall tx :: LinkAt(s, tx, Ready) ==> HoldsPerson(s, tx, s.txns[tx].issuer) && HoldsPerson(s, tx, s.txns[tx].redeemer))
    && (forall p :: p in s.personLock ==>
          LinkAt(s, s.personLock[p], Ready) && (p == s.txns[s.personLock[p]].issuer || p == s.txns[s.personLock[p]].redeemer))
  }

  predicate HoldsPerson(s: State, tx: Tx, p: Person) {
    p in s.personLock && s.personLock[p] == tx && p in s.db.people
  }

  ghost predicate UsersOk(config: Config, db: Tables) {
    forall game, kind, p :: WithinCap(config, db, game, kind, {p})
  }

  ghost predicate UserInv(config: Config, s: State) {
    SlotsHeld(config, s) && PeopleHeld(s) && SpareOk(config, s) && PairsOk(config, s) && UsersOk(config, s.db)
  }

  // ------------------------------------------------------------------
  // Commits that write a strayed row
  // ------------------------------------------------------------------

  predicate Waits(s: State, tx: Tx)
    requires JoinAt(s, tx, Checked)
  {
    exists i :: 0 <= i < |s.txns[tx].targets| && s.txns[tx].targets[i].existing.None? && s.txns[tx].targets[i].person in s.personLock
  }

  /** The join's next step changes the tables. */
  ghost predicate Commits(s: State, tx: Tx) {
    JoinAt(s, tx, Checked) && !Waits(s, tx) && Lands(s.db, s.txns[tx].group, s.txns[tx].targets)
  }

  /** A join of another group of the kind that has counted for `person` and is to write for them. */
  ghost predicate Relies(s: State, other: Tx, game: string, kind: string, person: Person) {
    && JoinAt(s, other, Checked) && InSlot(s.db.groups, s.txns[other].group, game, kind)
    && exists i :: SparesAt(s, other, i) && s.txns[other].targets[i].person == person
  }

  /** The merge of `survivor` and `attached` once `owner` has become active in `group` by a row they already had. */
  ghost function JoinedWith(db: Tables, game: string, kind: string, survivor: Person, attached: Person, owner: Person, group: GroupId): set<GroupId> {
    Joined(db, game, kind, survivor, attached) +
    if owner == survivor || (owner == attached && !IsMember(db.rows, group, survivor)) then {group} else {}
  }

  /**
   Making `owner` active in `group` leaves room: for the owner now, for whoever has counted for them in
   another group of the kind, and for the links that have counted them, whichever side survives.
   */
  ghost predicate LeavesRoom(config: Config, s: State, tx: Tx, game: string, kind: string, group: GroupId, owner: Person)
    requires Capped(config, game, kind)
  {
    var held := ActiveGroups(s.db.rows, s.db.groups, game, kind, {owner}) + {group};
    && |held| <= Cap(config, game, kind)
    && (forall other :: other != tx && Relies(s, other, game, kind, owner) ==> |held - {s.txns[other].group}| < Cap(config, game, kind))
    && (forall other :: LinkOpen(s, other) && s.txns[other].game == game ==>
          LinkLeavesRoom(config, s.db, game, kind, s.txns[other].issuer, s.txns[other].redeemer, group, owner))
  }

  ghost predicate LinkLeavesRoom(config: Config, db: Tables, game: string, kind: string, a: Person, b: Person, group: GroupId, owner: Person)
    requires Capped(config, game, kind)
  {
    && |JoinedWith(db, game, kind, a, b, owner, group)| <= Cap(config, game, kind)
    && |JoinedWith(db, game, kind, b, a, owner, group)| <= Cap(config, game, kind)
  }

  /** A commit is harmless when each strayed row it writes leaves room with the row's owner. */
  ghost predicate Harmless(config: Config, s: State, step: Step) {
    step.CommitJoin? && Commits(s, step.tx) ==>
      forall i :: 0 <= i < |s.txns[step.tx].targets| && Strays(s.db, s.txns[step.tx].targets[i]) ==>
        HarmlessFor(config, s, step.tx, Owner(s.db, s.txns[step.tx].targets[i]))
  }

  ghost predicate HarmlessFor(config: Config, s: State, tx: Tx, owner: Person)
    requires JoinAt(s, tx, Checked)
  {
    var group := s.txns[tx].group;
    group in s.db.groups && Capped(config, s.db.groups[group].game, s.db.groups[group].kind) ==>
      LeavesRoom(config, s, tx, s.db.groups[group].game, s.db.groups[group].kind, group, owner)
  }

  ghost predicate HarmlessRun(config: Config, steps: seq<Step>) {
    steps != [] ==>
      HarmlessRun(config, steps[..|steps| - 1]) && Harmless(config, Run(config, steps[..|steps| - 1]), steps[|steps| - 1])
  }

  /** A commit whose rows all still belong to the people it counted is harmless. */
  lemma OwnedIsHarmless(config: Config, s: State, tx: Tx)
    requires JoinAt(s, tx, Checked) && forall i :: 0 <= i < |s.txns[tx].targets| ==> Owner(s.db, s.txns[tx].targets[i]) == s.txns[tx].targets[i].person
    ensures Harmless(config, s, CommitJoin(tx))
  {
  }

  /** Slots depend on a group's game and kind, which never change. */
  lemma SlotsStay(config: Config, db: Tables, after: Tables, t: Txn)
    requires Keeps(db, after) && (t.Join? ==> t.group in db.groups)
    ensures SlotsOf(config, after.groups, t) == SlotsOf(config, db.groups, t)
  {
  }

  /** A transaction's slots do not depend on its stage. */
  lemma StageOnly(config: Config, groups: Groups, t: Txn)
    ensures t.Join? ==> forall stage :: JoinSlots(config, groups, t.(join := stage)) == JoinSlots(config, groups, t)
    ensures t.Link? ==> forall stage :: LinkSlots(config, t.(link := stage)) == LinkSlots(config, t)
  {
  }

  lemma JoinTakesSlots(config: Config, s: State, tx: Tx)
    requires SlotsHeld(config, s) && JoinAt(s, tx, Looked)
    ensures SlotsHeld(config, AfterLockSlots(config, s, tx))
  {
    hide JoinSlots, LinkSlots;
    StageOnly(config, s.db.groups, s.txns[tx]);
  }

  lemma LinkTakesSlots(config: Config, s: State, tx: Tx)
    requires SlotsHeld(config, s) && LinkAt(s, tx, Asked)
    ensures SlotsHeld(config, AfterLockBoth(config, s, tx))
  {
    hide JoinSlots, LinkSlots;
    StageOnly(config, s.db.groups, s.txns[tx]);
  }

  /** How a step changes its own transaction. */
  ghost predicate Moves(s: State, step: Step, t: Txn) {
    || (StepTx(step) in s.txns && t == s.txns[StepTx(step)])
    || (t.Join? && (t.join == Begun || t.join == Locked || t.join == Looked))
    || (t.Link? && t.link == Asked)
    || (t.Join? && JoinAt(s, StepTx(step), Holding) && t == s.txns[StepTx(step)].(join := Checked))
    || (t.Link? && LinkAt(s, StepTx(step), HoldingBoth) && t == s.txns[StepTx(step)].(link := Counted))
    || (t.Link? && LinkAt(s, StepTx(step), Counted) && t == s.txns[StepTx(step)].(link := Ready))
  }

  lemma OwnTxn(config: Config, s: State, step: Step)
    requires HasTx(step) && !step.LockSlots? && !step.LockBoth? && StepTx(step) in Apply(config, s, step).txns
    ensures Moves(s, step, Apply(config, s, step).txns[StepTx(step)])
  {
    hide Fits, WriteAll, Merged, ActiveRows, Overflow, Found, Killed, JoinSlots, LinkSlots, PlanLink;
  }

  lemma MovedSlots(config: Config, s: State, step: Step, t: Txn)
    requires Moves(s, step, t)
    ensures
      || SlotsOf(config, s.db.groups, t) == {}
      || (StepTx(step) in s.txns && SlotsOf(config, s.db.groups, t) == SlotsOf(config, s.db.groups, s.txns[StepTx(step)])
          && (t.Join? ==> s.txns[StepTx(step)].Join? && t.group == s.txns[StepTx(step)].group && s.txns[StepTx(step)].join != Begun))
  {
    if StepTx(step) in s.txns {
      StageOnly(config, s.db.groups, s.txns[StepTx(step)]);
    }
  }

  /** Any step but a lock leaves a holding transaction as it was, or just past the stage it was in. */
  lemma HoldersStay(config: Config, s: State, step: Step, tx: Tx)
    requires !step.LockSlots? && !step.LockBoth? && tx in Apply(config, s, step).txns
    ensures
      var t := Apply(config, s, step).txns[tx];
      || SlotsOf(config, s.db.groups, t) == {}
      || (tx in s.txns && SlotsOf(config, s.db.groups, t) == SlotsOf(config, s.db.groups, s.txns[tx])
          && (t.Join? ==> s.txns[tx].Join? && t.group == s.txns[tx].group && s.txns[tx].join != Begun))
  {
    hide Apply, Moves, JoinSlots, LinkSlots;
    if !HasTx(step) || tx != StepTx(step) {
      OtherTxns(config, s, step, tx);
    } else {
      OwnTxn(config, s, step);
      MovedSlots(config, s, step, Apply(config, s, step).txns[tx]);
    }
  }

  lemma SlotLocksStay(config: Config, s: State, step: Step, tx: Tx, k: Slot)
    requires k in s.slotLock && s.slotLock[k] == tx && tx in Apply(config, s, step).txns && tx in s.txns
    requires !step.LockSlots? && !step.LockBoth?
    ensures k in Apply(config, s, step).slotLock && Apply(config, s, step).slotLock[k] == tx
  {
    hide Fits, WriteAll, Merged, ActiveRows, Overflow, Found, Killed;
  }

  lemma SlotsKeep(config: Config, s: State, step: Step)
    requires Inv(config, s) && SlotsHeld(config, s)
    ensures SlotsHeld(config, Apply(config, s, step))
  {
    hide AfterLockSlots, AfterLockBoth;
    if step.LockSlots? && JoinAt(s, step.tx, Looked) {
      JoinTakesSlots(config, s, step.tx);
    } else if step.LockBoth? && LinkAt(s, step.tx, Asked) {
      LinkTakesSlots(config, s, step.tx);
    } else if !step.LockSlots? && !step.LockBoth? {
      HeldSlotsKeep(config, s, step);
    }
  }

  lemma HeldSlotsKeep(config: Config, s: State, step: Step)
    requires Inv(config, s) && SlotsHeld(config, s) && !step.LockSlots? && !step.LockBoth?
    ensures SlotsHeld(config, Apply(config, s, step))
  {
    hide Apply, SlotsOf, Shape, TargetsOk, LinksOk, HomesOk, RoomOk, MembersOk, GroupsHeld;
    var after := Apply(config, s, step);
    TablesKeep(config, s, step);
    forall tx, k | tx in after.txns && k in SlotsOf(config, after.db.groups, after.txns[tx])
      ensures k in after.slotLock && after.slotLock[k] == tx
    {
      HeldSlotStays(config, s, step, tx, k);
    }
  }

  lemma HeldSlotStays(config: Config, s: State, step: Step, tx: Tx, k: Slot)
    requires GroupsHeld(s) && SlotsHeld(config, s) && !step.LockSlots? && !step.LockBoth? && Keeps(s.db, Apply(config, s, step).db)
    requires tx in Apply(config, s, step).txns && k in SlotsOf(config, Apply(config, s, step).db.groups, Apply(config, s, step).txns[tx])
    ensures k in Apply(config, s, step).slotLock && Apply(config, s, step).slotLock[k] == tx
  {
    hide Apply, Keeps, JoinSlots, LinkSlots;
    var after := Apply(config, s, step);
    if after.txns[tx].Join? {
      GroupKnown(config, s, step, tx);
    }
    SlotsStay(config, s.db, after.db, after.txns[tx]);
    HoldersStay(config, s, step, tx);
    SlotLocksStay(config, s, step, tx, k);
  }

  /** A join holding slots named a group that was there. */
  lemma GroupKnown(config: Config, s: State, step: Step, tx: Tx)
    requires GroupsHeld(s) && !step.LockSlots? && !step.LockBoth? && tx in Apply(config, s, step).txns
    requires Apply(config, s, step).txns[tx].Join? && SlotsOf(config, Apply(config, s, step).db.groups, Apply(config, s, step).txns[tx]) != {}
    ensures Apply(config, s, step).txns[tx].group in s.db.groups
  {
    hide Apply, JoinSlots, LinkSlots;
    if !HasTx(step) || tx != StepTx(step) {
      OtherTxns(config, s, step, tx);
      assert HasLock(s, tx);
    } else {
      OwnTxn(config, s, step);
      assert HasLock(s, tx);
    }
  }

  /** The people whose counted groups of one kind a committing transaction may add to. */
  ghost function Gainers(s: State, step: Step, game: string, kind: string): set<Person> {
    if step.CommitJoin? && JoinAt(s, step.tx, Checked) && InSlot(s.db.groups, s.txns[step.tx].group, game, kind) then
      Owners(s.db, s.txns[step.tx].targets)
    else if step.CommitLink? && LinkAt(s, step.tx, Ready) && s.txns[step.tx].game == game then
      {s.txns[step.tx].issuer, s.txns[step.tx].redeemer}
    else {}
  }

  lemma CommitJoinGains(config: Config, s: State, step: Step, game: string, kind: string, people: set<Person>)
    requires Shape(s.db) && TargetsOk(s) && GroupsHeld(s) && step.CommitJoin? && JoinAt(s, step.tx, Checked)
    ensures
      var after := Apply(config, s, step).db;
      ActiveGroups(after.rows, after.groups, game, kind, people) <=
      ActiveGroups(s.db.rows, s.db.groups, game, kind, people) +
      (if Gainers(s, step, game, kind) * people != {} then {s.txns[step.tx].group} else {})
  {
    hide WriteAll, Shape, ActiveGroups, Owners, Touches;
    var t := s.txns[step.tx];
    assert HasLock(s, step.tx);
    if WriteAll(s.db, t.group, t.targets).Some? {
      WriteAllGrows(s.db, t.group, t.targets, game, kind, people);
      OwnersTouch(s.db, t.targets, people);
    }
  }

  lemma CommitLinkGains(config: Config, s: State, step: Step, game: string, kind: string, people: set<Person>)
    requires LinksOk(s) && HomesOk(s) && step.CommitLink? && LinkAt(s, step.tx, Ready) && Capped(config, game, kind)
    ensures
      var after := Apply(config, s, step).db;
      var t := s.txns[step.tx];
      ActiveGroups(after.rows, after.groups, game, kind, people) <=
      ActiveGroups(s.db.rows, s.db.groups, game, kind, people) +
      (if Gainers(s, step, game, kind) * people != {} then
         ActiveGroups(s.db.rows, s.db.groups, game, kind, {t.issuer, t.redeemer}) else {})
  {
    hide Merged, ActiveGroups;
    var t := s.txns[step.tx];
    var plan := PlanLink(t.issuer, t.redeemer, step.issuerHas, step.redeemerHas, {});
    if plan.Ok? {
      MergeGrows(s.db.rows, s.db.groups, game, kind, plan.value.survivor, plan.value.attached, people);
      Among(s.db, game, kind, plan.value.attached, {t.issuer, t.redeemer});
      assert TxnAtHome(s, t);
      if t.game != game {
        CountedAtHome(s, plan.value.attached, t.game, game, kind);
      }
      if plan.value.survivor in people && t.game == game {
        assert plan.value.survivor in Gainers(s, step, game, kind) * people;
      }
    }
  }

  lemma Among(db: Tables, game: string, kind: string, person: Person, people: set<Person>)
    requires person in people
    ensures ActiveGroups(db.rows, db.groups, game, kind, {person}) <= ActiveGroups(db.rows, db.groups, game, kind, people)
  {
  }

  ghost predicate RowsSettle(rows: Rows, after: Rows) {
    forall id :: id in after && after[id].status == Active ==>
      id in rows && rows[id].status == Active && rows[id].group == after[id].group && rows[id].person == after[id].person
  }

  ghost predicate GroupsSettle(groups: Groups, after: Groups) {
    forall g :: g in groups && g in after && after[g].live ==>
      groups[g].live && after[g].game == groups[g].game && after[g].kind == groups[g].kind
  }

  /** Nothing becomes active and nothing comes back to life. */
  ghost predicate Settles(db: Tables, after: Tables) {
    RowsSettle(db.rows, after.rows) && GroupsSettle(db.groups, after.groups)
  }

  lemma DepartSettlesRows(config: Config, s: State, row: RowId, to: Status)
    ensures RowsSettle(s.db.rows, AfterDepart(config, s, row, to).db.rows)
  {
    hide ActiveRows, DeletesWhenEmpty, Killed;
  }

  lemma DepartSettlesGroups(config: Config, s: State, row: RowId, to: Status)
    ensures GroupsSettle(s.db.groups, AfterDepart(config, s, row, to).db.groups)
  {
    hide ActiveRows, DeletesWhenEmpty;
  }

  lemma OutsideSettles(config: Config, s: State, step: Step)
    requires step.NewGroup? || step.NewPerson? || step.Depart? || step.SweepIdle?
    ensures Settles(s.db, Apply(config, s, step).db)
  {
    hide AfterDepart, End, AfterLockGroup, AfterLook, AfterLockSlots, AfterCheck, AfterCommitJoin, AfterLockBoth, AfterCountBoth, AfterLockPeople, AfterCommitLink, AfterBeginJoin, AfterBeginLink;
    if step.Depart? {
      DepartSettlesRows(config, s, step.row, step.to);
      DepartSettlesGroups(config, s, step.row, step.to);
    }
  }

  lemma SettledGroups(db: Tables, after: Tables, game: string, kind: string, people: set<Person>)
    requires Shape(db) && Settles(db, after)
    ensures ActiveGroups(after.rows, after.groups, game, kind, people) <= ActiveGroups(db.rows, db.groups, game, kind, people)
  {
    forall g | g in ActiveGroups(after.rows, after.groups, game, kind, people)
      ensures g in ActiveGroups(db.rows, db.groups, game, kind, people)
    {
      var id :| id in after.rows && Counts(after.rows[id], after.groups, game, kind, people) && after.rows[id].group == g;
      assert Counts(db.rows[id], db.groups, game, kind, people);
    }
  }

  /** Only the people a commit gains for can come to be in more groups of a capped kind. */
  lemma OnlyGainersGain(config: Config, s: State, step: Step, game: string, kind: string, people: set<Person>)
    requires Inv(config, s) && Capped(config, game, kind) && Gainers(s, step, game, kind) * people == {}
    ensures
      var after := Apply(config, s, step).db;
      ActiveGroups(after.rows, after.groups, game, kind, people) <= ActiveGroups(s.db.rows, s.db.groups, game, kind, people)
  {
    hide Apply, Shape, TargetsOk, GroupsHeld, LinksOk, HomesOk, RoomOk, MembersOk, ActiveGroups, Gainers, Settles;
    if !WritesTables(step) {
      OthersLeaveTables(config, s, step);
    } else if step.CommitJoin? {
      if JoinAt(s, step.tx, Checked) {
        CommitJoinGains(config, s, step, game, kind, people);
      } else {
        IdleCommit(config, s, step);
      }
    } else if step.CommitLink? {
      if LinkAt(s, step.tx, Ready) {
        CommitLinkGains(config, s, step, game, kind, people);
      } else {
        IdleCommit(config, s, step);
      }
    } else {
      OutsideSettles(config, s, step);
      SettledGroups(s.db, Apply(config, s, step).db, game, kind, people);
    }
  }

  lemma IdleCommit(config: Config, s: State, step: Step)
    requires (step.CommitJoin? && !JoinAt(s, step.tx, Checked)) || (step.CommitLink? && !LinkAt(s, step.tx, Ready))
    ensures Apply(config, s, step) == s
  {
  }

  /** A join that waits, or whose writes the database refuses, leaves the tables alone. */
  lemma RefusedCommit(config: Config, s: State, tx: Tx)
    requires Inv(config, s) && !Commits(s, tx)
    ensures Apply(config, s, CommitJoin(tx)).db == s.db
  {
    hide Shape, WriteAll, Lands, HomesOk, RoomOk, MembersOk;
    if JoinAt(s, tx, Checked) {
      assert HasLock(s, tx);
      LandsIff(s.db, s.txns[tx].group, s.txns[tx].targets);
    }
  }

  /** The step writes a strayed row that belongs to `person`. */
  ghost predicate StraysTo(s: State, step: Step, person: Person) {
    step.CommitJoin? && JoinAt(s, step.tx, Checked) &&
    exists i :: 0 <= i < |s.txns[step.tx].targets| && Strays(s.db, s.txns[step.tx].targets[i]) && Owner(s.db, s.txns[step.tx].targets[i]) == person
  }

  /** Committing transactions hold the slots of everyone they gain for, save the owners of strayed rows. */
  lemma GainersAreHeld(config: Config, s: State, step: Step, game: string, kind: string, p: Person)
    requires SlotsHeld(config, s) && Capped(config, game, kind) && p in Gainers(s, step, game, kind) && !StraysTo(s, step, p)
    ensures HasTx(step) && Slot(game, kind, p) in s.slotLock && s.slotLock[Slot(game, kind, p)] == StepTx(step)
    ensures step.CommitJoin? ==> p in People(s.txns[step.tx].targets)
  {
    assert (game, kind) in config;
    if step.CommitJoin? {
      var i :| 0 <= i < |s.txns[step.tx].targets| && Owner(s.db, s.txns[step.tx].targets[i]) == p;
      assert s.txns[step.tx].targets[i].person == p;
    }
    assert Slot(game, kind, p) in SlotsOf(config, s.db.groups, s.txns[step.tx]);
  }

  /** While someone else holds the slots of `people`, their counted groups grow through a strayed row alone. */
  lemma HeldDoNotGrow(config: Config, s: State, step: Step, tx: Tx, game: string, kind: string, people: set<Person>)
    requires Inv(config, s) && SlotsHeld(config, s) && Capped(config, game, kind)
    requires forall p :: p in people ==> Slot(game, kind, p) in s.slotLock && s.slotLock[Slot(game, kind, p)] == tx
    requires (!HasTx(step) || StepTx(step) != tx) && forall p :: p in people ==> !StraysTo(s, step, p)
    ensures
      var after := Apply(config, s, step).db;
      ActiveGroups(after.rows, after.groups, game, kind, people) <= ActiveGroups(s.db.rows, s.db.groups, game, kind, people)
  {
    hide Apply, Inv, SlotsHeld, ActiveGroups, Gainers, StraysTo;
    forall p | p in Gainers(s, step, game, kind)
      ensures p !in people
    {
      if p in people {
        GainersAreHeld(config, s, step, game, kind, p);
      }
    }
    OnlyGainersGain(config, s, step, game, kind, people);
  }

  lemma Fewest(db: Tables, after: Tables, game: string, kind: string, people: set<Person>, config: Config)
    requires WithinCap(config, db, game, kind, people)
    requires ActiveGroups(after.rows, after.groups, game, kind, people) <= ActiveGroups(db.rows, db.groups, game, kind, people)
    ensures WithinCap(config, after, game, kind, people)
  {
    hide ActiveGroups;
    Fewer(ActiveGroups(after.rows, after.groups, game, kind, people), ActiveGroups(db.rows, db.groups, game, kind, people));
  }

  lemma FewerBut(xs: set<GroupId>, ys: set<GroupId>, g: GroupId, n: nat)
    requires xs <= ys + {g} && |ys - {g}| < n
    ensures |xs| <= n
  {
    Fewer(xs, (ys - {g}) + {g});
  }

  // ------------------------------------------------------------------
  // Who is kept apart by the per-person locks
  // ------------------------------------------------------------------

  lemma JoinHolds(config: Config, s: State, tx: Tx, game: string, kind: string, p: Person)
    requires SlotsHeld(config, s) && JoinAt(s, tx, Checked) && InSlot(s.db.groups, s.txns[tx].group, game, kind)
    requires Capped(config, game, kind) && p in People(s.txns[tx].targets)
    ensures Slot(game, kind, p) in s.slotLock && s.slotLock[Slot(game, kind, p)] == tx
  {
    assert Slot(game, kind, p) in SlotsOf(config, s.db.groups, s.txns[tx]);
  }

  lemma LinkHolds(config: Config, s: State, tx: Tx, kind: string, p: Person)
    requires SlotsHeld(config, s) && LinkCounted(s, tx) && Capped(config, s.txns[tx].game, kind) && Names(s, tx, p)
    ensures Slot(s.txns[tx].game, kind, p) in s.slotLock && s.slotLock[Slot(s.txns[tx].game, kind, p)] == tx
  {
    assert (s.txns[tx].game, kind) in config;
    assert Slot(s.txns[tx].game, kind, p) in SlotsOf(config, s.db.groups, s.txns[tx]);
  }

  predicate Names(s: State, tx: Tx, p: Person)
    requires LinkCounted(s, tx)
  {
    p == s.txns[tx].issuer || p == s.txns[tx].redeemer
  }

  /** No link that has counted names a person a checked join of a capped kind has counted. */
  lemma JoinLinkApart(config: Config, s: State, tx: Tx, link: Tx, game: string, kind: string, p: Person)
    requires SlotsHeld(config, s) && HomesOk(s) && JoinAt(s, tx, Checked) && InSlot(s.db.groups, s.txns[tx].group, game, kind)
    requires Capped(config, game, kind) && p in People(s.txns[tx].targets) && LinkCounted(s, link)
    ensures !Names(s, link, p)
  {
    hide SlotsHeld, HomesOk;
    if Names(s, link, p) {
      SameHome(s, tx, link, p);
      JoinHolds(config, s, tx, game, kind, p);
      LinkHolds(config, s, link, kind, p);
    }
  }

  lemma SameHome(s: State, tx: Tx, link: Tx, p: Person)
    requires HomesOk(s) && JoinAt(s, tx, Checked) && p in People(s.txns[tx].targets) && LinkCounted(s, link) && Names(s, link, p)
    ensures s.txns[tx].group in s.db.groups && s.txns[link].game == s.db.groups[s.txns[tx].group].game
  {
    assert TxnAtHome(s, s.txns[tx]) && TxnAtHome(s, s.txns[link]);
    var i :| 0 <= i < |s.txns[tx].targets| && s.txns[tx].targets[i].person == p;
  }

  lemma LinksApart(config: Config, s: State, a: Tx, b: Tx, kind: string, p: Person)
    requires SlotsHeld(config, s) && HomesOk(s) && LinkCounted(s, a) && LinkCounted(s, b) && Names(s, a, p) && Names(s, b, p)
    requires Capped(config, s.txns[a].game, kind)
    ensures a == b
  {
    hide SlotsHeld;
    assert TxnAtHome(s, s.txns[a]) && TxnAtHome(s, s.txns[b]);
    LinkHolds(config, s, a, kind, p);
    LinkHolds(config, s, b, kind, p);
  }

  // ------------------------------------------------------------------
  // What other steps leave of a checked join and of an open link
  // ------------------------------------------------------------------

  lemma OutsideRows(config: Config, s: State, step: Step, id: RowId)
    requires (step.NewGroup? || step.NewPerson? || step.Depart? || step.SweepIdle?) && id in s.db.rows
    ensures
      var rows := Apply(config, s, step).db.rows;
      id in rows && rows[id].group == s.db.rows[id].group && rows[id].person == s.db.rows[id].person
  {
    hide ActiveRows, IsLive, Killed, End, AfterBeginJoin, AfterLockGroup, AfterLook, AfterLockSlots, AfterCheck,
      AfterCommitJoin, AfterBeginLink, AfterLockBoth, AfterCountBoth, AfterLockPeople, AfterCommitLink;
  }

  lemma LinkRows(config: Config, s: State, step: Step, id: RowId)
    requires step.CommitLink? && LinkAt(s, step.tx, Ready) && id in s.db.rows && !Names(s, step.tx, s.db.rows[id].person)
    ensures id in Apply(config, s, step).db.rows && Apply(config, s, step).db.rows[id] == s.db.rows[id]
  {
  }

  /** A row stays in its group and with its person, unless a link naming that person commits. */
  lemma RowStays(config: Config, s: State, step: Step, id: RowId)
    requires Inv(config, s) && id in s.db.rows
    requires step.CommitLink? && LinkAt(s, step.tx, Ready) ==> !Names(s, step.tx, s.db.rows[id].person)
    ensures
      var rows := Apply(config, s, step).db.rows;
      id in rows && rows[id].group == s.db.rows[id].group && rows[id].person == s.db.rows[id].person
  {
    hide Apply, Shape, TargetsOk, GroupsHeld, LinksOk, HomesOk, RoomOk, MembersOk, Names;
    if !WritesTables(step) {
      OthersLeaveTables(config, s, step);
    } else if step.CommitJoin? {
      JoinRowStays(config, s, step.tx, id);
    } else if step.CommitLink? {
      if LinkAt(s, step.tx, Ready) {
        LinkRows(config, s, step, id);
      } else {
        IdleCommit(config, s, step);
      }
    } else {
      OutsideRows(config, s, step, id);
    }
  }

  lemma JoinRowStays(config: Config, s: State, tx: Tx, id: RowId)
    requires Inv(config, s) && id in s.db.rows
    ensures
      var rows := Apply(config, s, CommitJoin(tx)).db.rows;
      id in rows && rows[id].group == s.db.rows[id].group && rows[id].person == s.db.rows[id].person
  {
    hide Shape, WriteAll, HomesOk, RoomOk, MembersOk;
    InUse(s.db, id);
    if JoinAt(s, tx, Checked) && WriteAll(s.db, s.txns[tx].group, s.txns[tx].targets).Some? {
      assert HasLock(s, tx);
      WriteAllKeeps(s.db, s.txns[tx].group, s.txns[tx].targets);
    }
  }

  /** Memberships of anyone no committing link names only increase. */
  lemma MembersStay(config: Config, s: State, step: Step, h: GroupId, p: Person)
    requires Inv(config, s) && IsMember(s.db.rows, h, p)
    requires step.CommitLink? && LinkAt(s, step.tx, Ready) ==> !Names(s, step.tx, p)
    ensures IsMember(Apply(config, s, step).db.rows, h, p)
  {
    hide Apply, Inv, Names;
    var id :| id in s.db.rows && s.db.rows[id].group == h && s.db.rows[id].person == p;
    RowStays(config, s, step, id);
  }

  lemma OthersLeavePeople(config: Config, s: State, step: Step, p: Person)
    requires p in s.homes && !step.CommitJoin? && p in Apply(config, s, step).db.people
    ensures p in s.db.people
  {
    hide ActiveRows, IsLive, Killed, Merged, Fits, Overflow, Found, JoinSlots, LinkSlots;
  }

  lemma JoinLeavesPeople(config: Config, s: State, tx: Tx)
    requires Inv(config, s)
    ensures Apply(config, s, CommitJoin(tx)).db.people == s.db.people
  {
    hide Shape, WriteAll, HomesOk, RoomOk, MembersOk;
    if JoinAt(s, tx, Checked) {
      assert HasLock(s, tx);
      if WriteAll(s.db, s.txns[tx].group, s.txns[tx].targets).Some? {
        WriteAllKeeps(s.db, s.txns[tx].group, s.txns[tx].targets);
      }
    }
  }

  /** Nobody known comes back. */
  lemma PeopleLeave(config: Config, s: State, step: Step, p: Person)
    requires p in s.homes && p in Apply(config, s, step).db.people && Inv(config, s)
    ensures p in s.db.people
  {
    hide Apply, Inv;
    if step.CommitJoin? {
      JoinLeavesPeople(config, s, step.tx);
    } else {
      OthersLeavePeople(config, s, step, p);
    }
  }

  /** A row's owner before a step, when no committing link names the owner after it. */
  lemma OwnerWas(config: Config, s: State, step: Step, id: RowId)
    requires Inv(config, s) && id < s.db.next && id in Apply(config, s, step).db.rows
    ensures id in s.db.rows
    ensures
      var person := Apply(config, s, step).db.rows[id].person;
      (step.CommitLink? && LinkAt(s, step.tx, Ready) ==> !Names(s, step.tx, person)) ==> s.db.rows[id].person == person
  {
    hide Apply, Shape, TargetsOk, GroupsHeld, LinksOk, HomesOk, RoomOk, MembersOk;
    TablesKeep(config, s, step);
    if step.CommitLink? {
      CommitLinkOwners(config, s, step, id);
    } else if step.CommitJoin? {
      JoinRowStays(config, s, step.tx, id);
    } else {
      OtherRowOwners(config, s, step, id);
    }
  }

  /** What a checked join can still write for whom after another's step, it could before it. */
  lemma SparedBefore(config: Config, s: State, step: Step, tx: Tx, i: int, game: string, kind: string)
    requires Inv(config, s) && SlotsHeld(config, s) && JoinAt(s, tx, Checked) && (!HasTx(step) || StepTx(step) != tx)
    requires InSlot(s.db.groups, s.txns[tx].group, game, kind) && Capped(config, game, kind)
    requires JoinAt(Apply(config, s, step), tx, Checked) && Apply(config, s, step).txns[tx] == s.txns[tx] && SparesAt(Apply(config, s, step), tx, i)
    ensures SparesAt(s, tx, i)
  {
    hide Apply, Shape, GroupsHeld, LinksOk, RoomOk, MembersOk, SlotsHeld, Names, IsMember, LivesIn;
    var t := s.txns[tx];
    var after := Apply(config, s, step);
    forall j | 0 <= j < |t.targets|
      ensures CanWrite(s.db, t.group, t.targets[j])
      ensures Mine(after.db, t.targets[j]) ==> Mine(s.db, t.targets[j])
    {
      assert CanWrite(after.db, t.group, t.targets[j]);
      var p := t.targets[j].person;
      assert p in People(t.targets);
      if step.CommitLink? && LinkAt(s, step.tx, Ready) {
        JoinLinkApart(config, s, tx, step.tx, game, kind, p);
      }
      if t.targets[j].existing.Some? {
        OwnerWas(config, s, step, t.targets[j].existing.value);
      } else {
        AtHome(s, tx, j);
        PeopleLeave(config, s, step, p);
        if IsMember(s.db.rows, t.group, p) {
          MembersStay(config, s, step, t.group, p);
        }
      }
    }
  }

  lemma AtHome(s: State, tx: Tx, j: int)
    requires HomesOk(s) && JoinAt(s, tx, Checked) && 0 <= j < |s.txns[tx].targets|
    ensures s.txns[tx].targets[j].person in s.homes
  {
    assert TxnAtHome(s, s.txns[tx]);
  }

  lemma FitsLeavesSpare(config: Config, db: Tables, group: GroupId, targets: seq<Target>, p: Person)
    requires group in db.groups && Fits(config, db, group, targets) && OneRowEach(db.rows) && p in People(targets)
    ensures HasSpare(config, db, group, p)
  {
    RowsCountGroups(db.rows, db.groups, db.groups[group].game, db.groups[group].kind, group, p);
  }

  /** What a harmless commit says of the person it strays to. */
  lemma StraysLeaveRoom(config: Config, s: State, step: Step, game: string, kind: string, p: Person)
    requires Harmless(config, s, step) && StraysTo(s, step, p) && Commits(s, step.tx)
    requires InSlot(s.db.groups, s.txns[step.tx].group, game, kind) && Capped(config, game, kind)
    ensures LeavesRoom(config, s, step.tx, game, kind, s.txns[step.tx].group, p)
  {
    hide LeavesRoom, Lands, Waits;
    var i :| 0 <= i < |s.txns[step.tx].targets| && Strays(s.db, s.txns[step.tx].targets[i]) && Owner(s.db, s.txns[step.tx].targets[i]) == p;
    assert HarmlessFor(config, s, step.tx, Owner(s.db, s.txns[step.tx].targets[i]));
  }

  lemma SpareStays(config: Config, s: State, step: Step, tx: Tx, i: int)
    requires Inv(config, s) && UserInv(config, s) && Harmless(config, s, step)
    requires SparesAt(s, tx, i) && (!HasTx(step) || StepTx(step) != tx)
    requires s.txns[tx].group in Apply(config, s, step).db.groups && Keeps(s.db, Apply(config, s, step).db)
    ensures HasSpare(config, Apply(config, s, step).db, s.txns[tx].group, s.txns[tx].targets[i].person)
  {
    hide Apply, Inv, Harmless, ActiveGroups, PairsOk, UsersOk, SlotsHeld, PeopleHeld, LeavesRoom, Commits, Lands, Mine;
    var group, p := s.txns[tx].group, s.txns[tx].targets[i].person;
    var game, kind := s.db.groups[group].game, s.db.groups[group].kind;
    var after := Apply(config, s, step).db;
    if Capped(config, game, kind) {
      assert HasSpare(config, s.db, group, p);
      assert p in People(s.txns[tx].targets);
      JoinHolds(config, s, tx, game, kind, p);
      if StraysTo(s, step, p) {
        StraySpares(config, s, step, tx, i);
      } else {
        HeldDoNotGrow(config, s, step, tx, game, kind, {p});
        Fewer(ActiveGroups(after.rows, after.groups, game, kind, {p}) - {group}, ActiveGroups(s.db.rows, s.db.groups, game, kind, {p}) - {group});
      }
    }
  }

  lemma StraySpares(config: Config, s: State, step: Step, tx: Tx, i: int)
    requires Inv(config, s) && UserInv(config, s) && Harmless(config, s, step)
    requires SparesAt(s, tx, i) && StepTx(step) != tx && step.CommitJoin? && JoinAt(s, step.tx, Checked)
    requires StraysTo(s, step, s.txns[tx].targets[i].person)
    requires s.txns[tx].group in Apply(config, s, step).db.groups && Keeps(s.db, Apply(config, s, step).db)
    ensures HasSpare(config, Apply(config, s, step).db, s.txns[tx].group, s.txns[tx].targets[i].person)
  {
    hide Apply, Shape, HomesOk, RoomOk, MembersOk, LinksOk, TargetsOk, GroupsHeld, Harmless, ActiveGroups, PairsOk, UsersOk, SlotsHeld,
      PeopleHeld, StraysTo, Commits, Lands, Mine, Gainers;
    var group, p := s.txns[tx].group, s.txns[tx].targets[i].person;
    var game, kind := s.db.groups[group].game, s.db.groups[group].kind;
    var after := Apply(config, s, step).db;
    assert HasSpare(config, s.db, group, p);
    if Capped(config, game, kind) {
      if !Commits(s, step.tx) {
        RefusedCommit(config, s, step.tx);
      } else if InSlot(s.db.groups, s.txns[step.tx].group, game, kind) {
        StraysLeaveRoom(config, s, step, game, kind, p);
        assert Relies(s, tx, game, kind, p);
        CommitJoinGains(config, s, step, game, kind, {p});
        var held := ActiveGroups(s.db.rows, s.db.groups, game, kind, {p}) + {s.txns[step.tx].group};
        Fewer(ActiveGroups(after.rows, after.groups, game, kind, {p}) - {group}, held - {group});
      } else {
        OtherSlot(s, step, game, kind, p);
        OnlyGainersGain(config, s, step, game, kind, {p});
        Fewer(ActiveGroups(after.rows, after.groups, game, kind, {p}) - {group}, ActiveGroups(s.db.rows, s.db.groups, game, kind, {p}) - {group});
      }
    }
  }

  lemma OtherSlot(s: State, step: Step, game: string, kind: string, p: Person)
    requires step.CommitJoin? && JoinAt(s, step.tx, Checked) && !InSlot(s.db.groups, s.txns[step.tx].group, game, kind)
    ensures Gainers(s, step, game, kind) * {p} == {}
  {
  }

  lemma SpareKeeps(config: Config, s: State, step: Step)
    requires Inv(config, s) && UserInv(config, s) && Harmless(config, s, step)
    ensures SpareOk(config, Apply(config, s, step))
  {
    hide Apply, Shape, TargetsOk, LinksOk, HomesOk, RoomOk, MembersOk, Harmless, ActiveGroups, UserInv, Fits, Lands, Mine, HasSpare;
    var after := Apply(config, s, step);
    TablesKeep(config, s, step);
    forall tx, i | SparesAt(after, tx, i)
      ensures HasSpare(config, after.db, after.txns[tx].group, after.txns[tx].targets[i].person)
    {
      CheckedStays(config, s, step, tx);
      assert after.txns[tx].targets[i].person in People(after.txns[tx].targets);
      if !JoinAt(s, tx, Checked) {
        OthersLeaveTables(config, s, step);
        UniqueRows(s.db);
        FitsLeavesSpare(config, s.db, after.txns[tx].group, after.txns[tx].targets, after.txns[tx].targets[i].person);
      } else if HasTx(step) && StepTx(step) == tx {
        OwnStepIdles(config, s, step, tx);
        SpareThere(config, s, after, tx, i);
      } else {
        LiveGroup(s, tx);
        SpareElsewhere(config, s, step, tx, i);
      }
    }
  }

  lemma SpareElsewhere(config: Config, s: State, step: Step, tx: Tx, i: int)
    requires Inv(config, s) && UserInv(config, s) && Harmless(config, s, step) && Keeps(s.db, Apply(config, s, step).db)
    requires JoinAt(s, tx, Checked) && (!HasTx(step) || StepTx(step) != tx) && s.txns[tx].group in s.db.groups
    requires SparesAt(Apply(config, s, step), tx, i) && Apply(config, s, step).txns[tx] == s.txns[tx]
    ensures HasSpare(config, Apply(config, s, step).db, s.txns[tx].group, s.txns[tx].targets[i].person)
  {
    hide Apply, Inv, Harmless, ActiveGroups, SlotsHeld, PeopleHeld, SpareOk, PairsOk, UsersOk, Lands, Mine;
    var group := s.txns[tx].group;
    if Capped(config, s.db.groups[group].game, s.db.groups[group].kind) {
      SparedBefore(config, s, step, tx, i, s.db.groups[group].game, s.db.groups[group].kind);
      SpareStays(config, s, step, tx, i);
    }
  }

  lemma UniqueRows(db: Tables)
    requires Shape(db)
    ensures OneRowEach(db.rows)
  {
  }

  lemma SpareThere(config: Config, s: State, after: State, tx: Tx, i: int)
    requires UserInv(config, s) && after.db == s.db && JoinAt(s, tx, Checked) && SparesAt(after, tx, i) && after.txns[tx] == s.txns[tx]
    ensures HasSpare(config, s.db, s.txns[tx].group, s.txns[tx].targets[i].person)
  {
    assert SparesAt(s, tx, i);
  }

  /** A checked join's own step either ends it or changes nothing in the tables. */
  lemma OwnStepIdles(config: Config, s: State, step: Step, tx: Tx)
    requires JoinAt(s, tx, Checked) && HasTx(step) && StepTx(step) == tx && JoinAt(Apply(config, s, step), tx, Checked)
    ensures Apply(config, s, step).db == s.db
  {
    hide Fits, WriteAll, Merged, ActiveRows, Overflow, Found, Killed, JoinSlots, LinkSlots, PlanLink;
  }

  /** The commit that writes a strayed row of `p` in this kind. */
  ghost predicate GainsByStray(s: State, step: Step, game: string, kind: string, p: Person) {
    StraysTo(s, step, p) && Commits(s, step.tx) && InSlot(s.db.groups, s.txns[step.tx].group, game, kind)
  }

  /** What someone whose slot another transaction holds can gain. */
  lemma HeldGrowth(config: Config, s: State, step: Step, tx: Tx, game: string, kind: string, p: Person)
    requires Inv(config, s) && SlotsHeld(config, s) && Capped(config, game, kind) && (!HasTx(step) || StepTx(step) != tx)
    requires Slot(game, kind, p) in s.slotLock && s.slotLock[Slot(game, kind, p)] == tx
    ensures
      var after := Apply(config, s, step).db;
      ActiveGroups(after.rows, after.groups, game, kind, {p}) <=
      ActiveGroups(s.db.rows, s.db.groups, game, kind, {p}) + (if GainsByStray(s, step, game, kind, p) then {s.txns[step.tx].group} else {})
  {
    hide Apply, Shape, TargetsOk, GroupsHeld, LinksOk, HomesOk, RoomOk, MembersOk, SlotsHeld, ActiveGroups, Commits, Gainers;
    if !StraysTo(s, step, p) {
      HeldDoNotGrow(config, s, step, tx, game, kind, {p});
    } else if !Commits(s, step.tx) {
      RefusedCommit(config, s, step.tx);
    } else if InSlot(s.db.groups, s.txns[step.tx].group, game, kind) {
      CommitJoinGains(config, s, step, game, kind, {p});
    } else {
      OtherSlot(s, step, game, kind, p);
      OnlyGainersGain(config, s, step, game, kind, {p});
    }
  }

  lemma JoinedWithin(db: Tables, after: Tables, game: string, kind: string, survivor: Person, attached: Person, bound: set<GroupId>)
    requires Joined(db, game, kind, survivor, attached) <= bound
    requires forall g :: g in ActiveGroups(after.rows, after.groups, game, kind, {survivor}) ==>
               g in ActiveGroups(db.rows, db.groups, game, kind, {survivor}) || g in bound
    requires forall g :: g in ActiveGroups(after.rows, after.groups, game, kind, {attached}) && !IsMember(db.rows, g, survivor) ==>
               g in ActiveGroups(db.rows, db.groups, game, kind, {attached}) || g in bound
    requires forall g :: IsMember(db.rows, g, survivor) ==> IsMember(after.rows, g, survivor)
    ensures Joined(after, game, kind, survivor, attached) <= bound
  {
    hide ActiveGroups, IsMember;
  }

  /** One side of an open link surviving still keeps the cap after another's step. */
  lemma SideStays(config: Config, s: State, step: Step, tx: Tx, kind: string, survivor: Person, attached: Person)
    requires Inv(config, s) && UserInv(config, s) && Harmless(config, s, step) && LinkOpen(s, tx) && (!HasTx(step) || StepTx(step) != tx)
    requires {survivor, attached} == {s.txns[tx].issuer, s.txns[tx].redeemer} && survivor != attached
    requires Capped(config, s.txns[tx].game, kind)
    ensures |Joined(Apply(config, s, step).db, s.txns[tx].game, kind, survivor, attached)| <= Cap(config, s.txns[tx].game, kind)
  {
    hide Apply, Shape, TargetsOk, GroupsHeld, LinksOk, RoomOk, MembersOk, HomesOk, SlotsHeld, PeopleHeld, SpareOk, UsersOk, Harmless, ActiveGroups,
      Joined, StraysTo, Commits, IsMember;
    var game := s.txns[tx].game;
    var after := Apply(config, s, step).db;
    assert survivor in {survivor, attached} && attached in {survivor, attached};
    assert Names(s, tx, survivor) && Names(s, tx, attached);
    assert PairFits(config, s.db, game, kind, s.txns[tx].issuer, s.txns[tx].redeemer);
    LinkHolds(config, s, tx, kind, survivor);
    LinkHolds(config, s, tx, kind, attached);
    HeldGrowth(config, s, step, tx, game, kind, survivor);
    HeldGrowth(config, s, step, tx, game, kind, attached);
    forall g | IsMember(s.db.rows, g, survivor)
      ensures IsMember(after.rows, g, survivor)
    {
      LinkElsewhere(config, s, step, tx, kind, survivor);
      MembersStay(config, s, step, g, survivor);
    }
    var bound := SideBound(s, step, game, kind, survivor, attached);
    SideBoundFits(config, s, step, tx, kind, survivor, attached);
    JoinedWithin(s.db, after, game, kind, survivor, attached, bound);
    Fewer(Joined(after, game, kind, survivor, attached), bound);
  }

  ghost function SideBound(s: State, step: Step, game: string, kind: string, survivor: Person, attached: Person): set<GroupId> {
    if GainsByStray(s, step, game, kind, survivor) then JoinedWith(s.db, game, kind, survivor, attached, survivor, s.txns[step.tx].group)
    else if GainsByStray(s, step, game, kind, attached) then JoinedWith(s.db, game, kind, survivor, attached, attached, s.txns[step.tx].group)
    else Joined(s.db, game, kind, survivor, attached)
  }

  lemma SideBoundFits(config: Config, s: State, step: Step, tx: Tx, kind: string, survivor: Person, attached: Person)
    requires Harmless(config, s, step) && LinkOpen(s, tx) && PairsOk(config, s) && Capped(config, s.txns[tx].game, kind)
    requires {survivor, attached} == {s.txns[tx].issuer, s.txns[tx].redeemer} && survivor != attached
    ensures |SideBound(s, step, s.txns[tx].game, kind, survivor, attached)| <= Cap(config, s.txns[tx].game, kind)
  {
    hide Harmless, Joined, StraysTo, Commits, JoinedWith;
    var game := s.txns[tx].game;
    assert survivor in {survivor, attached} && attached in {survivor, attached};
    assert PairFits(config, s.db, game, kind, s.txns[tx].issuer, s.txns[tx].redeemer);
    if GainsByStray(s, step, game, kind, survivor) {
      StraysLeaveRoom(config, s, step, game, kind, survivor);
      StrayJoins(s, step, survivor);
      assert LinkLeavesRoom(config, s.db, game, kind, s.txns[tx].issuer, s.txns[tx].redeemer, s.txns[step.tx].group, survivor);
    } else if GainsByStray(s, step, game, kind, attached) {
      StraysLeaveRoom(config, s, step, game, kind, attached);
      StrayJoins(s, step, attached);
      assert LinkLeavesRoom(config, s.db, game, kind, s.txns[tx].issuer, s.txns[tx].redeemer, s.txns[step.tx].group, attached);
    }
  }

  /** Another link that commits names neither person of an open one. */
  lemma LinkElsewhere(config: Config, s: State, step: Step, tx: Tx, kind: string, p: Person)
    requires SlotsHeld(config, s) && HomesOk(s) && LinkCounted(s, tx) && Names(s, tx, p) && Capped(config, s.txns[tx].game, kind)
    requires !HasTx(step) || StepTx(step) != tx
    ensures step.CommitLink? && LinkAt(s, step.tx, Ready) ==> !Names(s, step.tx, p)
  {
    hide SlotsHeld, HomesOk, Names;
    if step.CommitLink? && LinkAt(s, step.tx, Ready) && Names(s, step.tx, p) {
      LinksApart(config, s, tx, step.tx, kind, p);
    }
  }

  lemma PairStays(config: Config, s: State, step: Step, tx: Tx, kind: string)
    requires Inv(config, s) && UserInv(config, s) && Harmless(config, s, step)
    requires LinkOpen(s, tx) && (!HasTx(step) || StepTx(step) != tx)
    ensures PairFits(config, Apply(config, s, step).db, s.txns[tx].game, kind, s.txns[tx].issuer, s.txns[tx].redeemer)
  {
    hide Apply, Shape, TargetsOk, GroupsHeld, RoomOk, MembersOk, HomesOk, Harmless, Joined, UserInv;
    var t := s.txns[tx];
    if Capped(config, t.game, kind) {
      assert {t.redeemer, t.issuer} == {t.issuer, t.redeemer};
      SideStays(config, s, step, tx, kind, t.issuer, t.redeemer);
      SideStays(config, s, step, tx, kind, t.redeemer, t.issuer);
    }
  }

  /** A link that is counted after its own step was so before, or has just been counted. */
  lemma OwnLinkStep(config: Config, s: State, step: Step, tx: Tx, kind: string)
    requires HasTx(step) && StepTx(step) == tx && LinkCounted(Apply(config, s, step), tx)
    ensures
      var after := Apply(config, s, step);
      var t := after.txns[tx];
      && after.db == s.db
      && (if LinkCounted(s, tx) then t.game == s.txns[tx].game && t.issuer == s.txns[tx].issuer && t.redeemer == s.txns[tx].redeemer
          else Overflow(config, s.db.rows, s.db.groups, t.game, {t.issuer, t.redeemer}) == {})
  {
    hide Fits, WriteAll, Merged, ActiveRows, Overflow, Found, Killed, JoinSlots, LinkSlots, PlanLink;
  }

  lemma OverflowListed(config: Config, db: Tables, game: string, kind: string, people: set<Person>)
    requires Capped(config, game, kind) && Cap(config, game, kind) < |ActiveGroups(db.rows, db.groups, game, kind, people)|
    ensures kind in Overflow(config, db.rows, db.groups, game, people)
  {
    assert (game, kind) in config && (game, kind).0 == game && (game, kind).1 == kind;
  }

  lemma NoOverflowIsWithin(config: Config, db: Tables, game: string, kind: string, people: set<Person>)
    requires Overflow(config, db.rows, db.groups, game, people) == {}
    ensures WithinCap(config, db, game, kind, people)
  {
    hide Overflow, ActiveGroups;
    if Capped(config, game, kind) && Cap(config, game, kind) < |ActiveGroups(db.rows, db.groups, game, kind, people)| {
      OverflowListed(config, db, game, kind, people);
    }
  }

  lemma NoOverflowFits(config: Config, db: Tables, game: string, kind: string, a: Person, b: Person)
    requires Overflow(config, db.rows, db.groups, game, {a, b}) == {}
    ensures PairFits(config, db, game, kind, a, b)
  {
    hide Overflow, ActiveGroups;
    NoOverflowIsWithin(config, db, game, kind, {a, b});
    Among(db, game, kind, a, {a, b});
    Among(db, game, kind, b, {a, b});
    if Capped(config, game, kind) {
      Fewer(Joined(db, game, kind, a, b), ActiveGroups(db.rows, db.groups, game, kind, {a, b}));
      Fewer(Joined(db, game, kind, b, a), ActiveGroups(db.rows, db.groups, game, kind, {a, b}));
    }
  }

  lemma PairsKeep(config: Config, s: State, step: Step)
    requires Inv(config, s) && UserInv(config, s) && Harmless(config, s, step)
    ensures PairsOk(config, Apply(config, s, step))
  {
    hide Apply, Shape, TargetsOk, GroupsHeld, LinksOk, RoomOk, MembersOk, HomesOk, Harmless, PairFits, Overflow, SpareOk, UsersOk, SlotsHeld, PeopleHeld;
    var after := Apply(config, s, step);
    forall tx, kind | LinkOpen(after, tx)
      ensures PairFits(config, after.db, after.txns[tx].game, kind, after.txns[tx].issuer, after.txns[tx].redeemer)
    {
      if HasTx(step) && StepTx(step) == tx {
        OwnLinkStep(config, s, step, tx, kind);
        if LinkCounted(s, tx) {
          assert LinkOpen(s, tx);
        } else {
          NoOverflowFits(config, s.db, after.txns[tx].game, kind, after.txns[tx].issuer, after.txns[tx].redeemer);
        }
      } else {
        OtherTxns(config, s, step, tx);
        LinkAtHome(s, tx);
        PeopleLeave(config, s, step, s.txns[tx].issuer);
        PeopleLeave(config, s, step, s.txns[tx].redeemer);
        PairStays(config, s, step, tx, kind);
      }
    }
  }

  lemma LinkAtHome(s: State, tx: Tx)
    requires HomesOk(s) && LinkCounted(s, tx)
    ensures s.txns[tx].issuer in s.homes && s.txns[tx].redeemer in s.homes
  {
    assert TxnAtHome(s, s.txns[tx]);
  }

  // ------------------------------------------------------------------
  // Person locks
  // ------------------------------------------------------------------

  lemma EndHolds(s: State, tx: Tx)
    requires PeopleHeld(s)
    ensures PeopleHeld(End(s, tx))
  {
  }

  /** A transaction that neither was nor becomes ready, and people added, make no difference. */
  lemma OthersHold(s: State, after: State, tx: Tx)
    requires PeopleHeld(s) && !LinkAt(s, tx, Ready) && !LinkAt(after, tx, Ready)
    requires after.personLock == s.personLock && s.db.people <= after.db.people
    requires forall t :: t != tx ==> (t in after.txns <==> t in s.txns) && (t in s.txns ==> after.txns[t] == s.txns[t])
    ensures PeopleHeld(after)
  {
  }

  lemma LookingHolds(config: Config, s: State, step: Step)
    requires PeopleHeld(s) && (step.BeginJoin? || step.LockGroup? || step.Look? || step.BeginLink?)
    ensures PeopleHeld(Apply(config, s, step))
  {
    hide PeopleHeld, End, Found, Resolves, LivesIn, IsLive, WithFound, AfterNewGroup, AfterNewPerson, AfterLockSlots, AfterCheck, AfterCommitJoin,
      AfterLockBoth, AfterCountBoth, AfterLockPeople, AfterCommitLink, AfterDepart, AfterSweepIdle;
    EndHolds(s, step.tx);
    var after := Apply(config, s, step);
    if after != End(s, step.tx) && after != s {
      OthersHold(s, after, step.tx);
    }
  }

  lemma CountingHolds(config: Config, s: State, step: Step)
    requires PeopleHeld(s) && (step.LockSlots? || step.Check? || step.LockBoth? || step.CountBoth? || step.Abort?)
    ensures PeopleHeld(Apply(config, s, step))
  {
    hide PeopleHeld, End, Fits, Overflow, JoinSlots, LinkSlots, AfterNewGroup, AfterNewPerson, AfterBeginJoin, AfterLockGroup, AfterLook,
      AfterCommitJoin, AfterBeginLink, AfterLockPeople, AfterCommitLink, AfterDepart, AfterSweepIdle;
    EndHolds(s, step.tx);
    var after := Apply(config, s, step);
    if after != End(s, step.tx) && after != s {
      OthersHold(s, after, step.tx);
    }
  }

  lemma OutsideHolds(config: Config, s: State, step: Step)
    requires PeopleHeld(s) && (step.NewGroup? || step.NewPerson? || step.Depart? || step.SweepIdle?)
    ensures PeopleHeld(Apply(config, s, step))
  {
    hide End, ActiveRows, IsLive, Killed, AfterBeginJoin, AfterLockGroup, AfterLook, AfterLockSlots, AfterCheck, AfterCommitJoin,
      AfterBeginLink, AfterLockBoth, AfterCountBoth, AfterLockPeople, AfterCommitLink;
  }

  lemma CommitJoinHolds(config: Config, s: State, tx: Tx)
    requires PeopleHeld(s) && Inv(config, s)
    ensures PeopleHeld(Apply(config, s, CommitJoin(tx)))
  {
    hide WriteAll, Shape, HomesOk, RoomOk, MembersOk, LinksOk;
    if JoinAt(s, tx, Checked) {
      assert HasLock(s, tx);
      if WriteAll(s.db, s.txns[tx].group, s.txns[tx].targets).Some? {
        WriteAllKeeps(s.db, s.txns[tx].group, s.txns[tx].targets);
      }
    }
  }

  lemma LockPeopleHolds(s: State, tx: Tx)
    requires PeopleHeld(s) && LinkAt(s, tx, Counted)
    ensures PeopleHeld(AfterLockPeople(s, tx))
  {
    hide End;
    EndHolds(s, tx);
  }

  lemma CommitLinkHolds(s: State, tx: Tx, issuerHas: Footprint, redeemerHas: Footprint)
    requires PeopleHeld(s) && LinkAt(s, tx, Ready)
    ensures PeopleHeld(AfterCommitLink(s, tx, issuerHas, redeemerHas))
  {
    hide Merged;
    EndHolds(s, tx);
  }

  lemma PeopleHeldKeeps(config: Config, s: State, step: Step)
    requires Inv(config, s) && PeopleHeld(s)
    ensures PeopleHeld(Apply(config, s, step))
  {
    hide Inv, PeopleHeld, AfterNewGroup, AfterNewPerson, AfterBeginJoin, AfterLockGroup, AfterLook, AfterLockSlots, AfterCheck,
      AfterCommitJoin, AfterBeginLink, AfterLockBoth, AfterCountBoth, AfterLockPeople, AfterCommitLink, AfterDepart, AfterSweepIdle, End;
    match step
    case CommitJoin(tx) => CommitJoinHolds(config, s, tx);
    case LockPeople(tx) =>
      if LinkAt(s, tx, Counted) {
        LockPeopleHolds(s, tx);
      }
    case CommitLink(tx, issuerHas, redeemerHas) =>
      if LinkAt(s, tx, Ready) {
        CommitLinkHolds(s, tx, issuerHas, redeemerHas);
      }
    case NewGroup(_, _) => OutsideHolds(config, s, step);
    case NewPerson(_, _) => OutsideHolds(config, s, step);
    case Depart(_, _) => OutsideHolds(config, s, step);
    case SweepIdle(_) => OutsideHolds(config, s, step);
    case BeginJoin(_, _, _) => LookingHolds(config, s, step);
    case LockGroup(_) => LookingHolds(config, s, step);
    case Look(_, _) => LookingHolds(config, s, step);
    case BeginLink(_, _, _, _) => LookingHolds(config, s, step);
    case _ => CountingHolds(config, s, step);
  }

  // ------------------------------------------------------------------
  // Nobody goes over
  // ------------------------------------------------------------------

  /** The owner of a strayed row that is written is still within the cap. */
  lemma StrayFits(config: Config, s: State, step: Step, game: string, kind: string, p: Person)
    requires Inv(config, s) && Harmless(config, s, step) && Capped(config, game, kind) && GainsByStray(s, step, game, kind, p)
    ensures WithinCap(config, Apply(config, s, step).db, game, kind, {p})
  {
    hide Apply, Shape, TargetsOk, GroupsHeld, LinksOk, HomesOk, RoomOk, MembersOk, Harmless, ActiveGroups, StraysTo, Commits;
    StraysLeaveRoom(config, s, step, game, kind, p);
    assert JoinAt(s, step.tx, Checked) by { StrayJoins(s, step, p); }
    StrayJoins(s, step, p);
    CommitJoinGains(config, s, step, game, kind, {p});
    var after := Apply(config, s, step).db;
    Fewer(ActiveGroups(after.rows, after.groups, game, kind, {p}),
          ActiveGroups(s.db.rows, s.db.groups, game, kind, {p}) + {s.txns[step.tx].group});
  }

  lemma StrayJoins(s: State, step: Step, p: Person)
    requires StraysTo(s, step, p)
    ensures step.CommitJoin? && JoinAt(s, step.tx, Checked)
  {
  }

  /** So is everyone whose own row is written. */
  lemma MineFits(config: Config, s: State, tx: Tx, i: int, game: string, kind: string)
    requires Inv(config, s) && SpareOk(config, s) && Capped(config, game, kind)
    requires SparesAt(s, tx, i) && InSlot(s.db.groups, s.txns[tx].group, game, kind)
    ensures WithinCap(config, Apply(config, s, CommitJoin(tx)).db, game, kind, {s.txns[tx].targets[i].person})
  {
    hide Apply, Shape, TargetsOk, GroupsHeld, LinksOk, HomesOk, RoomOk, MembersOk, ActiveGroups, Lands, Mine, Gainers;
    var p := s.txns[tx].targets[i].person;
    var after := Apply(config, s, CommitJoin(tx)).db;
    assert HasSpare(config, s.db, s.txns[tx].group, p);
    CommitJoinGains(config, s, CommitJoin(tx), game, kind, {p});
    FewerBut(ActiveGroups(after.rows, after.groups, game, kind, {p}), ActiveGroups(s.db.rows, s.db.groups, game, kind, {p}),
             s.txns[tx].group, Cap(config, game, kind));
  }

  lemma NoneOfNobody(rows: Rows, groups: Groups, game: string, kind: string, survivor: Person, attached: Person)
    requires survivor != attached
    ensures ActiveGroups(Merged(rows, survivor, attached), groups, game, kind, {attached}) == {}
  {
  }

  /** Both people of a link that commits are within the cap after it. */
  lemma LinkFits(config: Config, s: State, step: Step, game: string, kind: string, p: Person)
    requires Inv(config, s) && UserInv(config, s) && Capped(config, game, kind)
    requires step.CommitLink? && LinkAt(s, step.tx, Ready) && s.txns[step.tx].game == game && Names(s, step.tx, p)
    ensures WithinCap(config, Apply(config, s, step).db, game, kind, {p})
  {
    hide Shape, TargetsOk, GroupsHeld, HomesOk, RoomOk, MembersOk, ActiveGroups, SlotsHeld, SpareOk, Merged, CarriedOver;
    var t := s.txns[step.tx];
    var plan := PlanLink(t.issuer, t.redeemer, step.issuerHas, step.redeemerHas, {});
    assert LinkOpen(s, step.tx);
    assert PairFits(config, s.db, game, kind, t.issuer, t.redeemer);
    if plan.Ok? {
      MergedGroups(s.db.rows, s.db.groups, game, kind, plan.value.survivor, plan.value.attached);
      NoneOfNobody(s.db.rows, s.db.groups, game, kind, plan.value.survivor, plan.value.attached);
    } else {
      assert WithinCap(config, s.db, game, kind, {p});
    }
  }

  lemma GainersFit(config: Config, s: State, step: Step, game: string, kind: string, p: Person)
    requires Inv(config, s) && UserInv(config, s) && Harmless(config, s, step) && Capped(config, game, kind)
    requires p in Gainers(s, step, game, kind)
    ensures WithinCap(config, Apply(config, s, step).db, game, kind, {p})
  {
    hide Apply, Inv, Harmless, SlotsHeld, PeopleHeld, SpareOk, PairsOk, WithinCap, StraysTo;
    if step.CommitLink? {
      LinkFits(config, s, step, game, kind, p);
    } else if !Commits(s, step.tx) {
      RefusedCommit(config, s, step.tx);
      assert WithinCap(config, s.db, game, kind, {p});
    } else if StraysTo(s, step, p) {
      StrayFits(config, s, step, game, kind, p);
    } else {
      var i := GainsByOwn(s, step, game, kind, p);
      MineFits(config, s, step.tx, i, game, kind);
    }
  }

  lemma GainsByOwn(s: State, step: Step, game: string, kind: string, p: Person) returns (i: int)
    requires step.CommitJoin? && Commits(s, step.tx) && p in Gainers(s, step, game, kind) && !StraysTo(s, step, p)
    ensures SparesAt(s, step.tx, i) && s.txns[step.tx].targets[i].person == p
  {
    i :| 0 <= i < |s.txns[step.tx].targets| && Owner(s.db, s.txns[step.tx].targets[i]) == p;
    assert CanWrite(s.db, s.txns[step.tx].group, s.txns[step.tx].targets[i]);
  }

  lemma UsersKeep(config: Config, s: State, step: Step)
    requires Inv(config, s) && UserInv(config, s) && Harmless(config, s, step)
    ensures UsersOk(config, Apply(config, s, step).db)
  {
    hide Apply, Inv, Harmless, ActiveGroups, Gainers, SlotsHeld, PeopleHeld, SpareOk, PairsOk, WithinCap;
    forall game, kind, p
      ensures WithinCap(config, Apply(config, s, step).db, game, kind, {p})
    {
      if !Capped(config, game, kind) {
        Uncapped(config, Apply(config, s, step).db, game, kind, {p});
      } else if p in Gainers(s, step, game, kind) {
        GainersFit(config, s, step, game, kind, p);
      } else {
        OnlyGainersGain(config, s, step, game, kind, {p});
        assert WithinCap(config, s.db, game, kind, {p});
        Fewest(s.db, Apply(config, s, step).db, game, kind, {p}, config);
      }
    }
  }

  lemma Uncapped(config: Config, db: Tables, game: string, kind: string, people: set<Person>)
    requires !Capped(config, game, kind)
    ensures WithinCap(config, db, game, kind, people)
  {
  }

  lemma UserStepKeeps(config: Config, s: State, step: Step)
    requires Inv(config, s) && UserInv(config, s) && Harmless(config, s, step)
    ensures UserInv(config, Apply(config, s, step))
  {
    hide Apply, Inv, Harmless, SlotsHeld, PeopleHeld, SpareOk, PairsOk, UsersOk;
    SlotsKeep(config, s, step);
    PeopleHeldKeeps(config, s, step);
    SpareKeeps(config, s, step);
    PairsKeep(config, s, step);
    UsersKeep(config, s, step);
  }

  lemma {:induction false} UserRunKeeps(config: Config, steps: seq<Step>)
    requires HarmlessRun(config, steps)
    ensures UserInv(config, Run(config, steps))
  {
    hide Apply, Inv, Harmless;
    if steps == [] {
      forall game, kind, p: Person
        ensures WithinCap(config, EMPTY.db, game, kind, {p})
      {
        assert ActiveGroups(map[], map[], game, kind, {p}) == {};
      }
    } else {
      UserRunKeeps(config, steps[..|steps| - 1]);
      RunKeeps(config, steps[..|steps| - 1]);
      UserStepKeeps(config, Run(config, steps[..|steps| - 1]), steps[|steps| - 1]);
    }
  }

  /**
   While each commit that writes a strayed row leaves room with the row's owner, nobody is ever over a
   per-user cap.
   */
  lemma PeopleStayWithinMaxPerUser(config: Config, steps: seq<Step>, game: string, kind: string, person: Person)
    requires HarmlessRun(config, steps) && Capped(config, game, kind)
    ensures |ActiveGroups(Run(config, steps).db.rows, Run(config, steps).db.groups, game, kind, {person})| <= Cap(config, game, kind)
  {
    hide Run, HarmlessRun, ActiveGroups;
    UserRunKeeps(config, steps);
    assert WithinCap(config, Run(config, steps).db, game, kind, {person});
  }
}
