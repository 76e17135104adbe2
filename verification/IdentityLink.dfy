/**
 Linking two ids to one person (packages/server/src/identityLink.ts): what a person holds, who
 survives a link, and the merge of the attached person's memberships into the survivor's.
 */
module IdentityLink {
  import opened Common
  import opened GroupKinds

  // ------------------------------------------------------------------
  // What a person holds
  // ------------------------------------------------------------------

  datatype GameBan = GameBan(game: string, until: Option<nat>)

  /** What the footprint counts besides memberships. */
  datatype Belongings = Belongings(identities: seq<string>, gameBans: seq<GameBan>, relationships: nat, tags: nat, visibility: nat,
                                   history: nat, sanctions: nat, sanctionHistory: nat, moderated: nat)

  datatype Footprint = Footprint(holdsSomething: bool, banned: bool)

  predicate IsActiveUntil(until: Option<nat>, now: nat) {
    until.None? || now < until.value
  }

  predicate IsEmptyObject(value: Json) {
    value == Null || value == Object({})
  }

  predicate IsDefault(role: RoleRef, group: Group) {
    if group.defaultRole.Some? then role.roleId == group.defaultRole.value else role.isDefault
  }

  /** An active membership that carries nothing but default roles. */
  predicate Plain(row: Row, group: Group) {
    && (forall i :: 0 <= i < |row.roles| ==> IsDefault(row.roles[i], group))
    && row.overrides == 0 && IsEmptyObject(row.metadata) && row.notesPublic == None && row.notesPrivate == None
  }

  /** A membership that counts as holding something. */
  predicate Carries(row: Row, group: Group) {
    row.status == Banned || (row.status == Active && !Plain(row, group))
  }

  predicate HoldsElsewhere(held: Belongings, game: string) {
    || 1 < |held.identities|
    || (exists i :: 0 <= i < |held.identities| && held.identities[i] != game)
    || 0 < held.relationships || 0 < held.tags || 0 < held.visibility || held.gameBans != []
    || 0 < held.history || 0 < held.sanctions || 0 < held.sanctionHistory || 0 < held.moderated
  }

  /**
   No ban, and if active then no override, no note, no metadata and no role but the group's default one
   or, in a group that names none, roles marked default.
   */
  ghost predicate CarriesNothing(row: Row, group: Group) {
    && row.status != Banned
    && (row.status == Active ==>
          && row.overrides == 0 && row.notesPublic == None && row.notesPrivate == None
          && (row.metadata == Null || row.metadata == Object({}))
          && forall role :: role in row.roles ==>
               (group.defaultRole == Some(role.roleId) || (group.defaultRole == None && role.isDefault)))
  }

  lemma CarriesOrNothing(row: Row, group: Group)
    ensures Carries(row, group) <==> !CarriesNothing(row, group)
  {
    forall i | 0 <= i < |row.roles|
      ensures row.roles[i] in row.roles
    {
    }
  }

  lemma HoldsNothing(held: Belongings, memberships: seq<Row>, groups: Groups, game: string)
    requires forall i :: 0 <= i < |memberships| ==> memberships[i].group in groups
    ensures
      !(HoldsElsewhere(held, game) || exists i :: 0 <= i < |memberships| && Carries(memberships[i], groups[memberships[i].group])) <==>
      && |held.identities| <= 1 && (forall identity :: identity in held.identities ==> identity == game)
      && held.relationships == 0 && held.tags == 0 && held.visibility == 0 && held.gameBans == []
      && held.history == 0 && held.sanctions == 0 && held.sanctionHistory == 0 && held.moderated == 0
      && forall m :: m in memberships ==> CarriesNothing(m, groups[m.group])
  {
    hide Carries, CarriesNothing;
    forall i | 0 <= i < |memberships|
      ensures Carries(memberships[i], groups[memberships[i].group]) <==> !CarriesNothing(memberships[i], groups[memberships[i].group])
    {
      CarriesOrNothing(memberships[i], groups[memberships[i].group]);
    }
    assert forall i :: 0 <= i < |held.identities| ==> held.identities[i] in held.identities;
    if forall m :: m in memberships ==> CarriesNothing(m, groups[m.group]) {
      assert forall i :: 0 <= i < |memberships| ==> memberships[i] in memberships;
    }
  }

  /**
   Any one belonging counts: a second identity or one in another game, a relationship, a tag, a
   visibility row, a game ban of any age, a history row, a sanction past or present, a moderation state,
   a group ban, or an active membership with one thing set on it. Nothing else does. Someone is banned
   while a game ban or a group ban of this game has not expired.
   */
  method LoadFootprint(held: Belongings, memberships: seq<Row>, groups: Groups, game: string, now: nat) returns (r: Footprint)
    requires forall i :: 0 <= i < |memberships| ==> memberships[i].group in groups
    ensures r.banned <==>
            || (exists ban :: ban in held.gameBans && ban.game == game && (ban.until == None || now < ban.until.value))
            || (exists m :: m in memberships && m.status == Banned && groups[m.group].game == game
                            && (m.bannedUntil == None || now < m.bannedUntil.value))
    ensures r.holdsSomething <==>
            HoldsElsewhere(held, game) || exists i :: 0 <= i < |memberships| && Carries(memberships[i], groups[memberships[i].group])
    ensures !r.holdsSomething <==>
            && |held.identities| <= 1 && (forall identity :: identity in held.identities ==> identity == game)
            && held.relationships == 0 && held.tags == 0 && held.visibility == 0 && held.gameBans == []
            && held.history == 0 && held.sanctions == 0 && held.sanctionHistory == 0 && held.moderated == 0
            && forall m :: m in memberships ==> CarriesNothing(m, groups[m.group])
  {
    var banned := exists i :: 0 <= i < |held.gameBans| && held.gameBans[i].game == game && IsActiveUntil(held.gameBans[i].until, now);
    if !banned {
      banned := exists i :: 0 <= i < |memberships| && groups[memberships[i].group].game == game && memberships[i].status == Banned
                            && IsActiveUntil(memberships[i].bannedUntil, now);
    }
    var holdsSomething := HoldsElsewhere(held, game);
    for k := 0 to |memberships|
      invariant holdsSomething <==>
                HoldsElsewhere(held, game) || exists i :: 0 <= i < k && Carries(memberships[i], groups[memberships[i].group])
    {
      if holdsSomething {
        break;
      }
      var m := memberships[k];
      if m.status == Banned {
        holdsSomething := true;
        break;
      }
      if m.status == Active {
        var nonDefaultRole := exists i :: 0 <= i < |m.roles| && !IsDefault(m.roles[i], groups[m.group]);
        if nonDefaultRole || 0 < m.overrides || !IsEmptyObject(m.metadata) || m.notesPublic != None || m.notesPrivate != None {
          holdsSomething := true;
        }
      }
    }
    HoldsNothing(held, memberships, groups, game);
    return Footprint(holdsSomething, banned);
  }

  // ------------------------------------------------------------------
  // Who survives
  // ------------------------------------------------------------------

  datatype Side = Issuer | Redeemer

  datatype LinkPlan = LinkPlan(survivor: Person, attached: Person, side: Side)

  datatype LinkError = LinkBanned | BothHold | TooManyGroups(kinds: set<string>)

  function PlanLink(issuer: Person, redeemer: Person, issuerHas: Footprint, redeemerHas: Footprint, overflow: set<string>)
    : (r: Result<LinkPlan, LinkError>)
    ensures r.Ok? <==> !issuerHas.banned && !redeemerHas.banned && overflow == {} && !(issuerHas.holdsSomething && redeemerHas.holdsSomething)
    ensures r.Ok? && r.value.side == Redeemer ==> r.value == LinkPlan(redeemer, issuer, Redeemer) && !issuerHas.holdsSomething
    ensures r.Ok? && r.value.side == Issuer ==> r.value == LinkPlan(issuer, redeemer, Issuer) && !redeemerHas.holdsSomething
    ensures r.Ok? && !issuerHas.holdsSomething && !redeemerHas.holdsSomething ==> r.value.side == Issuer
  {
    if issuerHas.banned || redeemerHas.banned then Err(LinkBanned)
    else if issuerHas.holdsSomething && redeemerHas.holdsSomething then Err(BothHold)
    else if overflow != {} then Err(TooManyGroups(overflow))
    else if redeemerHas.holdsSomething then Ok(LinkPlan(redeemer, issuer, Redeemer))
    else Ok(LinkPlan(issuer, redeemer, Issuer))
  }

  // ------------------------------------------------------------------
  // The merge
  // ------------------------------------------------------------------

  ghost predicate IsMember(rows: Rows, group: GroupId, person: Person) {
    exists id :: id in rows && rows[id].group == group && rows[id].person == person
  }

  ghost predicate Dropped(rows: Rows, id: RowId, survivor: Person, attached: Person)
    requires id in rows
  {
    rows[id].person == attached && IsMember(rows, rows[id].group, survivor)
  }

  function Moved(row: Row, survivor: Person): Row {
    row.(person := survivor, version := row.version + 1)
  }

  /** What a merge leaves: the attached person's rows move, save where the survivor already has one. */
  ghost function Merged(rows: Rows, survivor: Person, attached: Person): Rows {
    map id | id in rows && !Dropped(rows, id, survivor, attached) ::
      if rows[id].person == attached then Moved(rows[id], survivor) else rows[id]
  }

  class MemberTable {
    var rows: Rows

    method MergePeople(survivor: Person, attached: Person)
      requires survivor != attached
      modifies this
      ensures rows == Merged(old(rows), survivor, attached)
    {
      var attachedRows := set id | id in rows && rows[id].person == attached;
      var survivorGroups := set id | id in rows && rows[id].person == survivor :: rows[id].group;
      var drop := set id | id in attachedRows && rows[id].group in survivorGroups;
      var move := set id | id in attachedRows && rows[id].group !in survivorGroups;
      rows := rows - drop;
      rows := map id | id in rows :: if id in move then Moved(rows[id], survivor) else rows[id];
    }
  }

  /** A merge keeps the unique key: one row per group and person. */
  lemma MergeKeepsOneRowEach(rows: Rows, survivor: Person, attached: Person)
    requires survivor != attached && OneRowEach(rows)
    ensures OneRowEach(Merged(rows, survivor, attached))
  {
  }

  /** After a merge the survivor is in every group either was in, and the attached person in none. */
  lemma MergeJoinsMemberships(rows: Rows, survivor: Person, attached: Person, group: GroupId)
    requires survivor != attached
    ensures IsMember(Merged(rows, survivor, attached), group, survivor) <==>
            IsMember(rows, group, survivor) || IsMember(rows, group, attached)
    ensures !IsMember(Merged(rows, survivor, attached), group, attached)
  {
    var after := Merged(rows, survivor, attached);
    if IsMember(rows, group, survivor) {
      var id :| id in rows && rows[id].group == group && rows[id].person == survivor;
      assert after[id] == rows[id];
    } else if IsMember(rows, group, attached) {
      var id :| id in rows && rows[id].group == group && rows[id].person == attached;
      assert !Dropped(rows, id, survivor, attached);
      assert after[id] == Moved(rows[id], survivor);
    }
  }

  /** The rows of one person, as the footprint query lists them. */
  ghost predicate Lists(memberships: seq<Row>, rows: Rows, person: Person) {
    forall row :: row in memberships <==> exists id :: id in rows && rows[id] == row && row.person == person
  }

  /**
   A planned link loses nothing anyone set: outside the attached person's rows nothing changes, each
   of those moves whole, and the ones dropped are neither bans nor active memberships carrying a
   non-default role, an override, metadata or a note.
   */
  lemma LinkLosesNothing(rows: Rows, groups: Groups, plan: LinkPlan, attachedHas: Footprint, held: Belongings, memberships: seq<Row>,
                         game: string, id: RowId)
    requires id in rows && Lists(memberships, rows, plan.attached)
    requires forall i :: 0 <= i < |memberships| ==> memberships[i].group in groups
    requires attachedHas.holdsSomething <==>
             HoldsElsewhere(held, game) || exists i :: 0 <= i < |memberships| && Carries(memberships[i], groups[memberships[i].group])
    requires !attachedHas.holdsSomething
    ensures
      var after := Merged(rows, plan.survivor, plan.attached);
      if rows[id].person != plan.attached then id in after && after[id] == rows[id]
      else if !IsMember(rows, rows[id].group, plan.survivor) then
        id in after && after[id] == rows[id].(person := plan.survivor, version := rows[id].version + 1)
      else
        && id !in after
        && rows[id].status != Banned
        && (rows[id].status == Active ==>
              && rows[id].overrides == 0 && rows[id].notesPublic == None && rows[id].notesPrivate == None
              && (rows[id].metadata == Null || rows[id].metadata == Object({}))
              && rows[id].group in groups
              && forall role :: role in rows[id].roles ==>
                   var default := groups[rows[id].group].defaultRole;
                   default == Some(role.roleId) || (default == None && role.isDefault))
  {
    if rows[id].person == plan.attached {
      assert rows[id] in memberships;
      var i :| 0 <= i < |memberships| && memberships[i] == rows[id];
      assert !Carries(memberships[i], groups[memberships[i].group]);
      CarriesOrNothing(memberships[i], groups[memberships[i].group]);
    }
  }

  // ------------------------------------------------------------------
  // Writes between the footprint and the merge
  // ------------------------------------------------------------------

  /**
   A write that commits while a link is between its footprint and its merge. The link holds the two
   people's own rows, so nothing can insert a membership or a ban for them; a role, an override,
   metadata, a note or a change of status locks the member row alone and goes through.
   */
  datatype RowWrite = RowWrite(id: RowId, row: Row)

  function Written(rows: Rows, write: RowWrite): Rows {
    if write.id !in rows then rows
    else rows[write.id := write.row.(group := rows[write.id].group, person := rows[write.id].person, version := rows[write.id].version + 1)]
  }

  function Rewritten(rows: Rows, writes: seq<RowWrite>): Rows {
    if writes == [] then rows else Written(Rewritten(rows, writes[..|writes| - 1]), writes[|writes| - 1])
  }

  /** What the last write to a row leaves in it. */
  function LastTo(writes: seq<RowWrite>, id: RowId): Option<Row> {
    if writes == [] then None
    else if writes[|writes| - 1].id == id then Some(writes[|writes| - 1].row)
    else LastTo(writes[..|writes| - 1], id)
  }

  lemma {:induction false} RewrittenRow(rows: Rows, writes: seq<RowWrite>, id: RowId, group: Group)
    ensures id in Rewritten(rows, writes) <==> id in rows
    ensures
      id in rows ==>
        var row := Rewritten(rows, writes)[id];
        && row.group == rows[id].group && row.person == rows[id].person
        && (LastTo(writes, id) == None ==> row == rows[id])
        && (LastTo(writes, id).Some? ==> (Carries(row, group) <==> Carries(LastTo(writes, id).value, group)))
  {
    if writes != [] {
      RewrittenRow(rows, writes[..|writes| - 1], id, group);
    }
  }

  lemma RewrittenMembers(rows: Rows, writes: seq<RowWrite>, group: GroupId, person: Person, info: Group)
    ensures IsMember(Rewritten(rows, writes), group, person) <==> IsMember(rows, group, person)
  {
    hide Rewritten;
    forall id
      ensures id in Rewritten(rows, writes) <==> id in rows
      ensures id in rows ==> Rewritten(rows, writes)[id].group == rows[id].group && Rewritten(rows, writes)[id].person == rows[id].person
    {
      RewrittenRow(rows, writes, id, info);
    }
  }

  /** The merge deletes a row that carries something at that moment. */
  ghost predicate Loses(rows: Rows, groups: Groups, plan: LinkPlan, id: RowId) {
    && id in rows && id !in Merged(rows, plan.survivor, plan.attached)
    && rows[id].group in groups && Carries(rows[id], groups[rows[id].group])
  }

  /**
   With writes in between a link can lose what they set. It does exactly when the last of them to a row
   leaves it carrying something, and the row is the attached person's in a group the survivor is in.
   */
  lemma LinkLosesIff(rows: Rows, groups: Groups, plan: LinkPlan, attachedHas: Footprint, held: Belongings, memberships: seq<Row>,
                     game: string, writes: seq<RowWrite>, id: RowId)
    requires id in rows && rows[id].group in groups && Lists(memberships, rows, plan.attached)
    requires forall i :: 0 <= i < |memberships| ==> memberships[i].group in groups
    requires attachedHas.holdsSomething <==>
             HoldsElsewhere(held, game) || exists i :: 0 <= i < |memberships| && Carries(memberships[i], groups[memberships[i].group])
    requires !attachedHas.holdsSomething
    ensures
      Loses(Rewritten(rows, writes), groups, plan, id) <==>
      && rows[id].person == plan.attached && IsMember(rows, rows[id].group, plan.survivor)
      && LastTo(writes, id).Some? && Carries(LastTo(writes, id).value, groups[rows[id].group])
  {
    hide Rewritten, Carries, LastTo;
    var info := groups[rows[id].group];
    RewrittenRow(rows, writes, id, info);
    RewrittenMembers(rows, writes, rows[id].group, plan.survivor, info);
    if rows[id].person == plan.attached {
      assert rows[id] in memberships;
      var i :| 0 <= i < |memberships| && memberships[i] == rows[id];
      assert !Carries(memberships[i], groups[memberships[i].group]);
    }
  }

  /** And it happens: a role assigned to the attached person between the two is deleted with the row. */
  lemma LinkLosesARole(group: GroupId, info: Group, survivor: Person, attached: Person, role: RoleRef)
    requires survivor != attached && !IsDefault(role, info)
    ensures
      var plain := Row(group, survivor, Active, None, [], 0, Null, None, None, 1);
      var rows := map[0 := plain, 1 := plain.(person := attached)];
      var plan := LinkPlan(survivor, attached, Issuer);
      && !Carries(rows[1], info)
      && Loses(Rewritten(rows, [RowWrite(1, plain.(roles := [role]))]), map[group := info], plan, 1)
  {
    var plain := Row(group, survivor, Active, None, [], 0, Null, None, None, 1);
    var rows := map[0 := plain, 1 := plain.(person := attached)];
    var write := RowWrite(1, plain.(roles := [role]));
    assert [write][..0] == [];
    assert Rewritten(rows, [write]) == Written(rows, write);
    var between := Rewritten(rows, [write]);
    assert between[0].group == group && between[0].person == survivor;
    assert Dropped(between, 1, survivor, attached);
    assert between[1].roles[0] == role;
  }

  // ------------------------------------------------------------------
  // What a merge does to the counted groups
  // ------------------------------------------------------------------

  /** The attached person's active groups in which the survivor has no row of any status. */
  ghost function CarriedOver(rows: Rows, groups: Groups, game: string, kind: string, survivor: Person, attached: Person): set<GroupId> {
    set group | group in ActiveGroups(rows, groups, game, kind, {attached}) && !IsMember(rows, group, survivor)
  }

  /** The survivor's active groups after a merge, exactly. */
  lemma MergedGroups(rows: Rows, groups: Groups, game: string, kind: string, survivor: Person, attached: Person)
    requires survivor != attached
    ensures ActiveGroups(Merged(rows, survivor, attached), groups, game, kind, {survivor}) ==
            ActiveGroups(rows, groups, game, kind, {survivor}) + CarriedOver(rows, groups, game, kind, survivor, attached)
  {
    var after := Merged(rows, survivor, attached);
    var now := ActiveGroups(after, groups, game, kind, {survivor});
    forall g | g in ActiveGroups(rows, groups, game, kind, {survivor})
      ensures g in now
    {
      var id :| id in rows && Counts(rows[id], groups, game, kind, {survivor}) && rows[id].group == g;
      assert after[id] == rows[id];
    }
    forall g | g in CarriedOver(rows, groups, game, kind, survivor, attached)
      ensures g in now
    {
      var id :| id in rows && Counts(rows[id], groups, game, kind, {attached}) && rows[id].group == g;
      assert !Dropped(rows, id, survivor, attached);
      assert after[id] == Moved(rows[id], survivor);
    }
    forall g | g in now
      ensures g in ActiveGroups(rows, groups, game, kind, {survivor}) + CarriedOver(rows, groups, game, kind, survivor, attached)
    {
      var id :| id in after && Counts(after[id], groups, game, kind, {survivor}) && after[id].group == g;
      assert id in rows && rows[id].group == g && rows[id].status == Active;
      if rows[id].person == attached {
        assert Counts(rows[id], groups, game, kind, {attached});
        assert !Dropped(rows, id, survivor, attached);
      } else {
        assert Counts(rows[id], groups, game, kind, {survivor});
      }
    }
  }

  /**
   Among any people a merge adds no counted group, save the attached person's when the survivor is
   one of them.
   */
  lemma MergeGrows(rows: Rows, groups: Groups, game: string, kind: string, survivor: Person, attached: Person, people: set<Person>)
    requires survivor != attached
    ensures ActiveGroups(Merged(rows, survivor, attached), groups, game, kind, people) <=
            ActiveGroups(rows, groups, game, kind, people) +
            (if survivor in people then ActiveGroups(rows, groups, game, kind, {attached}) else {})
  {
    var after := Merged(rows, survivor, attached);
    forall g | g in ActiveGroups(after, groups, game, kind, people)
      ensures g in ActiveGroups(rows, groups, game, kind, people) +
                   (if survivor in people then ActiveGroups(rows, groups, game, kind, {attached}) else {})
    {
      var id :| id in after && Counts(after[id], groups, game, kind, people) && after[id].group == g;
      assert id in rows && rows[id].group == g && rows[id].status == Active;
      if rows[id].person == attached {
        assert Counts(rows[id], groups, game, kind, {attached});
      } else {
        assert Counts(rows[id], groups, game, kind, people);
      }
    }
  }

  /** A merge adds no active row to any group. */
  lemma MergeAddsNoMember(rows: Rows, survivor: Person, attached: Person, group: GroupId)
    ensures ActiveRows(Merged(rows, survivor, attached), group) <= ActiveRows(rows, group)
  {
  }
}
