/**
 When a join that writes a strayed row keeps the per-person cap: exactly when it leaves room with the
 row's owner. A commit that does not puts someone over it, at once or when a transaction that had
 already counted commits next.
 */
module HarmlessJoins {
  import opened GroupKinds
  import opened IdentityLink
  import opened JoinWrites
  import opened MembershipCaps
  import opened PerUserCaps

  /** A counted link takes its last two steps. */
  ghost function Linked(config: Config, s: State, link: Tx, issuerHas: Footprint, redeemerHas: Footprint): State {
    Apply(config, Apply(config, s, LockPeople(link)), CommitLink(link, issuerHas, redeemerHas))
  }

  /** Whoever a checked join is to write for is within the cap when it commits next. */
  ghost predicate JoinKeepsItsPeople(config: Config, s: State, tx: Tx, game: string, kind: string) {
    forall i :: SparesAt(s, tx, i) && InSlot(s.db.groups, s.txns[tx].group, game, kind) ==>
      WithinCap(config, Apply(config, s, CommitJoin(tx)).db, game, kind, {s.txns[tx].targets[i].person})
  }

  /** Both people of a counted link are within the cap when it commits next, whichever side survives. */
  ghost predicate LinkKeepsItsPeople(config: Config, s: State, tx: Tx, kind: string) {
    LinkCounted(s, tx) ==>
      forall issuerHas, redeemerHas ::
        var db := Linked(config, s, tx, issuerHas, redeemerHas).db;
        && WithinCap(config, db, s.txns[tx].game, kind, {s.txns[tx].issuer})
        && WithinCap(config, db, s.txns[tx].game, kind, {s.txns[tx].redeemer})
  }

  /** Nobody is over a cap, and nobody whom a transaction has counted is once it commits next. */
  ghost predicate KeepsEveryone(config: Config, s: State) {
    && UsersOk(config, s.db)
    && (forall tx, game, kind :: JoinKeepsItsPeople(config, s, tx, game, kind))
    && (forall tx, kind :: LinkKeepsItsPeople(config, s, tx, kind))
  }

  // ------------------------------------------------------------------
  // Harmless commits keep everyone
  // ------------------------------------------------------------------

  lemma LinkedKeeps(config: Config, s: State, tx: Tx, issuerHas: Footprint, redeemerHas: Footprint)
    requires Inv(config, s) && UserInv(config, s)
    ensures UsersOk(config, Linked(config, s, tx, issuerHas, redeemerHas).db)
  {
    hide Apply, Inv, SlotsHeld, PeopleHeld, SpareOk, PairsOk, UsersOk;
    UserStepKeeps(config, s, LockPeople(tx));
    StepKeeps(config, s, LockPeople(tx));
    UserStepKeeps(config, Apply(config, s, LockPeople(tx)), CommitLink(tx, issuerHas, redeemerHas));
  }

  lemma InvKeepsEveryone(config: Config, s: State)
    requires Inv(config, s) && UserInv(config, s)
    ensures KeepsEveryone(config, s)
  {
    hide Apply, Inv, SlotsHeld, PeopleHeld, SpareOk, PairsOk, WithinCap, Linked, Lands, Mine;
    forall tx, game, kind
      ensures JoinKeepsItsPeople(config, s, tx, game, kind)
    {
      forall i | SparesAt(s, tx, i) && InSlot(s.db.groups, s.txns[tx].group, game, kind)
        ensures WithinCap(config, Apply(config, s, CommitJoin(tx)).db, game, kind, {s.txns[tx].targets[i].person})
      {
        if Capped(config, game, kind) {
          MineFits(config, s, tx, i, game, kind);
        } else {
          Uncapped(config, Apply(config, s, CommitJoin(tx)).db, game, kind, {s.txns[tx].targets[i].person});
        }
      }
    }
    forall tx, kind
      ensures LinkKeepsItsPeople(config, s, tx, kind)
    {
      if LinkCounted(s, tx) {
        forall issuerHas, redeemerHas
          ensures WithinCap(config, Linked(config, s, tx, issuerHas, redeemerHas).db, s.txns[tx].game, kind, {s.txns[tx].issuer})
          ensures WithinCap(config, Linked(config, s, tx, issuerHas, redeemerHas).db, s.txns[tx].game, kind, {s.txns[tx].redeemer})
        {
          LinkedKeeps(config, s, tx, issuerHas, redeemerHas);
        }
      }
    }
  }

  // ------------------------------------------------------------------
  // A commit, exactly
  // ------------------------------------------------------------------

  lemma CommitsExactly(config: Config, s: State, tx: Tx)
    requires Inv(config, s) && Commits(s, tx)
    ensures
      var t := s.txns[tx];
      && HasLock(s, tx) && t.group in s.db.groups && s.db.groups[t.group].live
      && Shape(s.db) && Known(s.db, t.group, t.targets)
      && WriteAll(s.db, t.group, t.targets).Some?
      && Apply(config, s, CommitJoin(tx)) == End(s, tx).(db := WriteAll(s.db, t.group, t.targets).value)
  {
    hide Shape, WriteAll, Lands, HomesOk, RoomOk, MembersOk, End;
    assert HasLock(s, tx);
    LandsIff(s.db, s.txns[tx].group, s.txns[tx].targets);
  }

  lemma CommitAddsExactly(config: Config, s: State, tx: Tx, game: string, kind: string, p: Person)
    requires Inv(config, s) && Commits(s, tx) && InSlot(s.db.groups, s.txns[tx].group, game, kind)
    ensures
      var after := Apply(config, s, CommitJoin(tx)).db;
      ActiveGroups(after.rows, after.groups, game, kind, {p}) ==
      ActiveGroups(s.db.rows, s.db.groups, game, kind, {p}) + (if p in Owners(s.db, s.txns[tx].targets) then {s.txns[tx].group} else {})
  {
    hide Apply, Inv, Shape, WriteAll, Lands, Waits, ActiveGroups, Owners, Known;
    CommitsExactly(config, s, tx);
    JoinAddsExactly(s.db, s.txns[tx].group, s.txns[tx].targets, game, kind, {p});
    assert Owners(s.db, s.txns[tx].targets) * {p} != {} <==> p in Owners(s.db, s.txns[tx].targets) by {
      if p in Owners(s.db, s.txns[tx].targets) {
        assert p in Owners(s.db, s.txns[tx].targets) * {p};
      }
    }
  }

  lemma CommitLeaves(config: Config, s: State, tx: Tx)
    requires Inv(config, s) && Commits(s, tx)
    ensures
      var after := Apply(config, s, CommitJoin(tx));
      && after.db.groups == s.db.groups && after.db.people == s.db.people && after.personLock.Keys <= s.personLock.Keys
      && (forall other :: other != tx ==> (other in after.txns <==> other in s.txns) && (other in s.txns ==> after.txns[other] == s.txns[other]))
  {
    hide Apply, Inv, WriteAll, Shape, Lands, Waits, Known;
    CommitsExactly(config, s, tx);
    WriteAllKeeps(s.db, s.txns[tx].group, s.txns[tx].targets);
  }

  /** A checked join of the kind can still write what it could before another's commit, and does not wait. */
  lemma StillSpares(config: Config, s: State, tx: Tx, other: Tx, i: int, game: string, kind: string)
    requires Inv(config, s) && SlotsHeld(config, s) && PeopleHeld(s) && Commits(s, tx) && other != tx && Capped(config, game, kind)
    requires InSlot(s.db.groups, s.txns[tx].group, game, kind)
    requires SparesAt(s, other, i) && InSlot(s.db.groups, s.txns[other].group, game, kind)
    ensures
      var t := Apply(config, s, CommitJoin(tx));
      SparesAt(t, other, i) && t.txns[other] == s.txns[other] && InSlot(t.db.groups, t.txns[other].group, game, kind) && Commits(t, other)
  {
    hide Apply, Inv, SlotsHeld, HasSpare, Commits;
    var t := Apply(config, s, CommitJoin(tx));
    CommitLeaves(config, s, tx);
    var targets, group := s.txns[other].targets, s.txns[other].group;
    forall j | 0 <= j < |targets|
      ensures CanWrite(t.db, group, targets[j])
      ensures Mine(s.db, targets[j]) ==> Mine(t.db, targets[j])
      ensures !(targets[j].existing.None? && targets[j].person in t.personLock)
    {
      assert CanWrite(s.db, group, targets[j]);
      assert targets[j].person in People(targets);
      WriteStays(config, s, tx, other, targets[j], game, kind);
    }
    DoesCommit(t, other);
  }

  lemma DoesCommit(s: State, tx: Tx)
    requires JoinAt(s, tx, Checked) && Lands(s.db, s.txns[tx].group, s.txns[tx].targets)
    requires forall j :: 0 <= j < |s.txns[tx].targets| ==> !(s.txns[tx].targets[j].existing.None? && s.txns[tx].targets[j].person in s.personLock)
    ensures Commits(s, tx)
  {
  }

  lemma WriteStays(config: Config, s: State, tx: Tx, other: Tx, target: Target, game: string, kind: string)
    requires Inv(config, s) && SlotsHeld(config, s) && PeopleHeld(s) && Commits(s, tx) && other != tx && Capped(config, game, kind)
    requires JoinAt(s, other, Checked) && InSlot(s.db.groups, s.txns[other].group, game, kind) && target.person in People(s.txns[other].targets)
    requires InSlot(s.db.groups, s.txns[tx].group, game, kind) && CanWrite(s.db, s.txns[other].group, target)
    ensures
      var t := Apply(config, s, CommitJoin(tx));
      && CanWrite(t.db, s.txns[other].group, target) && (Mine(s.db, target) ==> Mine(t.db, target))
      && target.person !in t.personLock
  {
    hide Apply, Shape, GroupsHeld, TargetsOk, LinksOk, HomesOk, RoomOk, MembersOk, SlotsHeld, Commits, WriteAll, Known, IsMember;
    CommitLeaves(config, s, tx);
    if target.existing.Some? {
      JoinRowStays(config, s, tx, target.existing.value);
    } else {
      NobodyCountsTwice(config, s, tx, other, target.person, game, kind);
      CommitsExactly(config, s, tx);
      JoinLeavesOthersMembers(s.db, s.txns[tx].group, s.txns[tx].targets, target.person, s.txns[other].group);
    }
    Unlocked(config, s, other, target.person, game, kind);
  }

  lemma NobodyCountsTwice(config: Config, s: State, tx: Tx, other: Tx, p: Person, game: string, kind: string)
    requires SlotsHeld(config, s) && Commits(s, tx) && other != tx && Capped(config, game, kind) && JoinAt(s, other, Checked)
    requires InSlot(s.db.groups, s.txns[other].group, game, kind) && p in People(s.txns[other].targets)
    requires InSlot(s.db.groups, s.txns[tx].group, game, kind)
    ensures p !in People(s.txns[tx].targets)
  {
    hide SlotsHeld;
    JoinHolds(config, s, other, game, kind, p);
    if p in People(s.txns[tx].targets) {
      JoinHolds(config, s, tx, game, kind, p);
    }
  }

  /** Nobody a checked join of a capped kind has counted is locked by a link. */
  lemma Unlocked(config: Config, s: State, tx: Tx, p: Person, game: string, kind: string)
    requires Inv(config, s) && SlotsHeld(config, s) && PeopleHeld(s) && Capped(config, game, kind) && JoinAt(s, tx, Checked)
    requires InSlot(s.db.groups, s.txns[tx].group, game, kind) && p in People(s.txns[tx].targets)
    ensures p !in s.personLock
  {
    hide SlotsHeld, HomesOk;
    if p in s.personLock {
      JoinLinkApart(config, s, tx, s.personLock[p], game, kind, p);
    }
  }

  // ------------------------------------------------------------------
  // A commit that leaves no room
  // ------------------------------------------------------------------

  /** The owner has no place left: over at once. */
  lemma OwnerGoesOver(config: Config, s: State, tx: Tx, game: string, kind: string, owner: Person)
    requires Inv(config, s) && Commits(s, tx) && InSlot(s.db.groups, s.txns[tx].group, game, kind) && Capped(config, game, kind)
    requires owner in Owners(s.db, s.txns[tx].targets)
    requires Cap(config, game, kind) < |ActiveGroups(s.db.rows, s.db.groups, game, kind, {owner}) + {s.txns[tx].group}|
    ensures !UsersOk(config, Apply(config, s, CommitJoin(tx)).db)
  {
    hide Apply, Inv, ActiveGroups, Commits, Owners;
    CommitAddsExactly(config, s, tx, game, kind, owner);
    assert !WithinCap(config, Apply(config, s, CommitJoin(tx)).db, game, kind, {owner});
  }

  /** Another join has counted the owner's last place: over when it commits next. */
  lemma JoinGoesOver(config: Config, s: State, tx: Tx, game: string, kind: string, owner: Person, other: Tx)
    requires Inv(config, s) && SlotsHeld(config, s) && PeopleHeld(s) && Commits(s, tx) && Capped(config, game, kind)
    requires InSlot(s.db.groups, s.txns[tx].group, game, kind) && owner in Owners(s.db, s.txns[tx].targets)
    requires other != tx && Relies(s, other, game, kind, owner)
    requires
      Cap(config, game, kind) <=
      |ActiveGroups(s.db.rows, s.db.groups, game, kind, {owner}) + {s.txns[tx].group} - {s.txns[other].group}|
    ensures !JoinKeepsItsPeople(config, Apply(config, s, CommitJoin(tx)), other, game, kind)
  {
    hide Apply, Inv, ActiveGroups, Commits, Owners, SlotsHeld, PeopleHeld, Lands, Mine;
    var t := Apply(config, s, CommitJoin(tx));
    var i :| SparesAt(s, other, i) && s.txns[other].targets[i].person == owner;
    CommitAddsExactly(config, s, tx, game, kind, owner);
    StillSpares(config, s, tx, other, i, game, kind);
    StepKeeps(config, s, CommitJoin(tx));
    OwnWrites(t, other, i);
    CommitAddsExactly(config, t, other, game, kind, owner);
    var held, h := ActiveGroups(t.db.rows, t.db.groups, game, kind, {owner}), s.txns[other].group;
    assert held + {h} == (held - {h}) + {h};
    assert !WithinCap(config, Apply(config, t, CommitJoin(other)).db, game, kind, {owner});
  }

  lemma OwnWrites(s: State, tx: Tx, i: int)
    requires SparesAt(s, tx, i)
    ensures s.txns[tx].targets[i].person in Owners(s.db, s.txns[tx].targets)
  {
    assert Owner(s.db, s.txns[tx].targets[i]) == s.txns[tx].targets[i].person;
  }

  /** What a link would merge after the commit. */
  lemma JoinedAfter(config: Config, s: State, tx: Tx, link: Tx, kind: string, survivor: Person, attached: Person, owner: Person)
    requires Inv(config, s) && SlotsHeld(config, s) && Commits(s, tx) && LinkOpen(s, link) && Capped(config, s.txns[link].game, kind)
    requires InSlot(s.db.groups, s.txns[tx].group, s.txns[link].game, kind) && owner in Owners(s.db, s.txns[tx].targets)
    requires {survivor, attached} == {s.txns[link].issuer, s.txns[link].redeemer} && survivor != attached
    ensures
      var after := Apply(config, s, CommitJoin(tx)).db;
      var game := s.txns[link].game;
      JoinedWith(s.db, game, kind, survivor, attached, owner, s.txns[tx].group) <= Joined(after, game, kind, survivor, attached)
  {
    hide Apply, Shape, GroupsHeld, TargetsOk, LinksOk, HomesOk, RoomOk, MembersOk, ActiveGroups, SlotsHeld, Owners, WriteAll, Known, IsMember, Lands, Waits;
    var game, group := s.txns[link].game, s.txns[tx].group;
    var after := Apply(config, s, CommitJoin(tx)).db;
    assert survivor in {survivor, attached};
    assert Names(s, link, survivor);
    CommitAddsExactly(config, s, tx, game, kind, survivor);
    CommitAddsExactly(config, s, tx, game, kind, attached);
    CommitsExactly(config, s, tx);
    forall h | IsMember(after.rows, h, survivor)
      ensures IsMember(s.db.rows, h, survivor)
    {
      if survivor in People(s.txns[tx].targets) {
        JoinLinkApart(config, s, tx, link, game, kind, survivor);
      }
      JoinLeavesOthersMembers(s.db, group, s.txns[tx].targets, survivor, h);
    }
  }

  /** A counted link whose people are there can go through with either side surviving. */
  lemma LinkGoesThrough(config: Config, s: State, link: Tx, kind: string, survivor: Person, attached: Person)
    returns (issuerHas: Footprint, redeemerHas: Footprint)
    requires Inv(config, s) && SlotsHeld(config, s) && PeopleHeld(s) && LinkOpen(s, link) && Capped(config, s.txns[link].game, kind)
    requires (survivor == s.txns[link].issuer && attached == s.txns[link].redeemer) ||
             (survivor == s.txns[link].redeemer && attached == s.txns[link].issuer)
    ensures
      var db := Linked(config, s, link, issuerHas, redeemerHas).db;
      db.rows == Merged(s.db.rows, survivor, attached) && db.groups == s.db.groups
  {
    hide Apply, Shape, GroupsHeld, TargetsOk, HomesOk, RoomOk, MembersOk, SlotsHeld, Merged;
    issuerHas := Footprint(false, false);
    redeemerHas := Footprint(survivor == s.txns[link].redeemer, false);
    LockPasses(config, s, link, kind);
    LinkCommits(config, Apply(config, s, LockPeople(link)), link, issuerHas, redeemerHas);
  }

  lemma LockPasses(config: Config, s: State, link: Tx, kind: string)
    requires Inv(config, s) && SlotsHeld(config, s) && PeopleHeld(s) && LinkOpen(s, link) && Capped(config, s.txns[link].game, kind)
    ensures
      var t := Apply(config, s, LockPeople(link));
      && t.db == s.db && LinkAt(t, link, Ready) && t.txns[link].issuer == s.txns[link].issuer && t.txns[link].redeemer == s.txns[link].redeemer
  {
    hide Shape, GroupsHeld, TargetsOk, HomesOk, RoomOk, MembersOk, SlotsHeld;
    if LinkAt(s, link, Counted) {
      NobodyLocks(config, s, link, kind, s.txns[link].issuer);
      NobodyLocks(config, s, link, kind, s.txns[link].redeemer);
    }
  }

  lemma NobodyLocks(config: Config, s: State, link: Tx, kind: string, p: Person)
    requires SlotsHeld(config, s) && HomesOk(s) && PeopleHeld(s) && LinkAt(s, link, Counted) && Names(s, link, p)
    requires Capped(config, s.txns[link].game, kind)
    ensures p !in s.personLock
  {
    hide SlotsHeld, HomesOk;
    if p in s.personLock {
      LinksApart(config, s, link, s.personLock[p], kind, p);
    }
  }

  lemma LinkCommits(config: Config, s: State, link: Tx, issuerHas: Footprint, redeemerHas: Footprint)
    requires LinkAt(s, link, Ready) && issuerHas == Footprint(false, false) && !redeemerHas.banned
    ensures
      var t := s.txns[link];
      var db := Apply(config, s, CommitLink(link, issuerHas, redeemerHas)).db;
      && db.groups == s.db.groups
      && db.rows == if redeemerHas.holdsSomething then Merged(s.db.rows, t.redeemer, t.issuer) else Merged(s.db.rows, t.issuer, t.redeemer)
  {
    hide Merged;
  }

  /** A link has counted the owner's last place: its survivor is over when it commits next. */
  lemma LinkGoesOver(config: Config, s: State, tx: Tx, kind: string, owner: Person, link: Tx, survivor: Person, attached: Person)
    requires Inv(config, s) && SlotsHeld(config, s) && PeopleHeld(s) && Commits(s, tx) && LinkOpen(s, link)
    requires Capped(config, s.txns[link].game, kind) && InSlot(s.db.groups, s.txns[tx].group, s.txns[link].game, kind)
    requires owner in Owners(s.db, s.txns[tx].targets)
    requires (survivor == s.txns[link].issuer && attached == s.txns[link].redeemer) ||
             (survivor == s.txns[link].redeemer && attached == s.txns[link].issuer)
    requires Cap(config, s.txns[link].game, kind) < |JoinedWith(s.db, s.txns[link].game, kind, survivor, attached, owner, s.txns[tx].group)|
    ensures !LinkKeepsItsPeople(config, Apply(config, s, CommitJoin(tx)), link, kind)
  {
    hide Apply, Shape, GroupsHeld, TargetsOk, HomesOk, RoomOk, MembersOk, ActiveGroups, Lands, Waits, Owners, SlotsHeld, PeopleHeld, JoinedWith, Merged,
      CarriedOver, Linked;
    var game := s.txns[link].game;
    var t := Apply(config, s, CommitJoin(tx));
    JoinedAfter(config, s, tx, link, kind, survivor, attached, owner);
    CommitLeaves(config, s, tx);
    StepKeeps(config, s, CommitJoin(tx));
    SlotsKeep(config, s, CommitJoin(tx));
    PeopleHeldKeeps(config, s, CommitJoin(tx));
    OpenStays(s, t, tx, link);
    var issuerHas, redeemerHas := LinkGoesThrough(config, t, link, kind, survivor, attached);
    MergedGroups(t.db.rows, t.db.groups, game, kind, survivor, attached);
    Fewer(JoinedWith(s.db, game, kind, survivor, attached, owner, s.txns[tx].group), Joined(t.db, game, kind, survivor, attached));
    assert !WithinCap(config, Linked(config, t, link, issuerHas, redeemerHas).db, game, kind, {survivor});
  }

  lemma OpenStays(s: State, t: State, tx: Tx, link: Tx)
    requires JoinAt(s, tx, Checked) && LinkOpen(s, link) && t.db.people == s.db.people
    requires link != tx ==> link in t.txns && t.txns[link] == s.txns[link]
    ensures LinkOpen(t, link) && t.txns[link] == s.txns[link]
  {
  }

  lemma NoRoomGoesOver(config: Config, s: State, tx: Tx, game: string, kind: string, owner: Person)
    requires Inv(config, s) && SlotsHeld(config, s) && PeopleHeld(s) && Commits(s, tx) && Capped(config, game, kind)
    requires InSlot(s.db.groups, s.txns[tx].group, game, kind) && owner in Owners(s.db, s.txns[tx].targets)
    requires !LeavesRoom(config, s, tx, game, kind, s.txns[tx].group, owner)
    ensures !KeepsEveryone(config, Apply(config, s, CommitJoin(tx)))
  {
    hide Apply, Inv, ActiveGroups, Lands, Mine, Waits, Owners, SlotsHeld, PeopleHeld, JoinedWith, UsersOk, JoinKeepsItsPeople, LinkKeepsItsPeople;
    var held := ActiveGroups(s.db.rows, s.db.groups, game, kind, {owner}) + {s.txns[tx].group};
    if Cap(config, game, kind) < |held| {
      OwnerGoesOver(config, s, tx, game, kind, owner);
    } else if other :| other != tx && Relies(s, other, game, kind, owner) && Cap(config, game, kind) <= |held - {s.txns[other].group}| {
      JoinGoesOver(config, s, tx, game, kind, owner, other);
    } else {
      var link :| LinkOpen(s, link) && s.txns[link].game == game &&
        !LinkLeavesRoom(config, s.db, game, kind, s.txns[link].issuer, s.txns[link].redeemer, s.txns[tx].group, owner);
      var a, b := s.txns[link].issuer, s.txns[link].redeemer;
      if Cap(config, game, kind) < |JoinedWith(s.db, game, kind, a, b, owner, s.txns[tx].group)| {
        LinkGoesOver(config, s, tx, kind, owner, link, a, b);
      } else {
        LinkGoesOver(config, s, tx, kind, owner, link, b, a);
      }
    }
  }

  /**
   Exactly the harmless commits keep the cap: after any other, someone is over it at once, or is when
   a transaction that had counted them commits next.
   */
  lemma HarmlessIff(config: Config, s: State, tx: Tx)
    requires Inv(config, s) && UserInv(config, s)
    ensures Harmless(config, s, CommitJoin(tx)) <==> KeepsEveryone(config, Apply(config, s, CommitJoin(tx)))
  {
    hide Apply, Inv, SlotsHeld, PeopleHeld, SpareOk, PairsOk, UsersOk, KeepsEveryone, LeavesRoom, Lands, Waits;
    if Harmless(config, s, CommitJoin(tx)) {
      StepKeeps(config, s, CommitJoin(tx));
      UserStepKeeps(config, s, CommitJoin(tx));
      InvKeepsEveryone(config, Apply(config, s, CommitJoin(tx)));
    } else {
      var i :| 0 <= i < |s.txns[tx].targets| && Strays(s.db, s.txns[tx].targets[i]) &&
        !HarmlessFor(config, s, tx, Owner(s.db, s.txns[tx].targets[i]));
      var group := s.txns[tx].group;
      assert Owner(s.db, s.txns[tx].targets[i]) in Owners(s.db, s.txns[tx].targets);
      NoRoomGoesOver(config, s, tx, s.db.groups[group].game, s.db.groups[group].kind, Owner(s.db, s.txns[tx].targets[i]));
    }
  }

  /** So over every run whose commits so far were harmless. */
  lemma CapKeptIffHarmless(config: Config, steps: seq<Step>, tx: Tx)
    requires HarmlessRun(config, steps)
    ensures HarmlessRun(config, steps + [CommitJoin(tx)]) <==> KeepsEveryone(config, Run(config, steps + [CommitJoin(tx)]))
  {
    hide Apply, Inv, Harmless, KeepsEveryone, UserInv;
    RunKeeps(config, steps);
    UserRunKeeps(config, steps);
    HarmlessIff(config, Run(config, steps), tx);
    assert (steps + [CommitJoin(tx)])[..|steps|] == steps;
  }
}
