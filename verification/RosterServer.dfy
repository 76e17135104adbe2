/**
 The server's side of a roster (packages/server/src/routes/groups.ts, members.ts, invitations.ts,
 memberImport.ts and identities.ts): what its writes do to the stored rows, what they publish, and what
 a roster shows that was loaded from one of its listings and replayed the events around it.
 */
module RosterServer {
  import opened Common
  import opened Roster

  // ------------------------------------------------------------------
  // Writes
  // ------------------------------------------------------------------

  /** A stored row; leaving keeps its roles. */
  datatype Stored = Stored(status: Status, roles: seq<RoleId>, bannedUntil: Option<nat>, version: nat)

  /**
   What a write does to one person's row. A join may change roles; adding and importing members publish
   all of them with it, a public join and an accepted invitation publish none. `Update` stands for
   metadata, notes and overrides, `Relink` for a row moved or dropped by a link of two ids.
   */
  datatype Change =
    | Join(added: seq<RoleId>, removed: seq<RoleId>, carriesRoles: bool)
    | Leave(reason: Status)
    | SetRoles(added: seq<RoleId>, removed: seq<RoleId>)
    | Ban(until: Option<nat>)
    | Unban
    | Update
    | Relink(row: Option<Stored>)

  predicate Legal(row: Option<Stored>, change: Change) {
    match change
    case Join(added, removed, carries) => (row.None? || row.value.status != Active) && (carries || (added == [] && removed == []))
    case Leave(reason) => row.Some? && row.value.status == Active && (reason == Left || reason == Kicked)
    case SetRoles(_, _) => row.Some?
    case Ban(_) => true
    case Unban => row.Some? && row.value.status == Banned
    case Update => row.Some?
    case Relink(_) => true
  }

  function RolesAfter(roles: seq<RoleId>, added: seq<RoleId>, removed: seq<RoleId>): seq<RoleId> {
    var remaining := NotIn(roles, removed);
    remaining + NotIn(added, remaining)
  }

  /** `rises` is false for the later events of a write that publishes several: they share one version. */
  function After(row: Option<Stored>, change: Change, rises: bool): Option<Stored>
    requires Legal(row, change)
  {
    var version := if row.None? then 1 else if rises then row.value.version + 1 else row.value.version;
    var roles := if row.Some? then row.value.roles else [];
    match change
    case Join(added, removed, _) => Some(Stored(Active, RolesAfter(roles, added, removed), None, version))
    case Leave(reason) => Some(row.value.(status := reason, version := version))
    case SetRoles(added, removed) => Some(row.value.(roles := RolesAfter(roles, added, removed), version := version))
    case Ban(until) => Some(Stored(Banned, roles, until, version))
    case Unban => Some(row.value.(status := Left, bannedUntil := None, version := version))
    case Update => Some(row.value.(version := version))
    case Relink(other) => other
  }

  /** Every write to a row but a link's raises its version by one, a first write sets it to one, and the later events of one write share it. */
  lemma WritesRaiseTheVersion(row: Option<Stored>, change: Change, rises: bool)
    requires Legal(row, change) && !change.Relink?
    ensures After(row, change, rises).Some?
    ensures After(row, change, rises).value.version ==
            if row == None then 1 else row.value.version + if rises then 1 else 0
  {
  }

  /** The event published; a link tells the game's stream but no group's. */
  function Published(u: UserId, row: Option<Stored>, change: Change, rises: bool): Event
    requires Legal(row, change)
  {
    var after := After(row, change, rises);
    match change
    case Join(_, _, carries) =>
      MemberJoined(Member(u, Active, if carries then after.value.roles else [], Undefined, None, "", after.value.version))
    case Leave(reason) => MemberLeft(u, reason, after.value.version)
    case SetRoles(added, removed) => RoleChanged(u, added, removed, after.value.version)
    case Ban(until) => MemberBanned(u, until, after.value.version)
    case Unban => MemberUnbanned(u, after.value.version)
    case Update => MemberUpdated(u, after.value.version)
    case Relink(_) => OtherEvent
  }

  // ------------------------------------------------------------------
  // What one change does to a roster in step
  // ------------------------------------------------------------------

  predicate Lists(hook: Hook, status: Status) {
    if hook.UseGroup? then status == Active else hook.status.None? || status == hook.status.value
  }

  /** What the server's filtered list shows of a row. */
  function Served(hook: Hook, row: Option<Stored>): Option<Shown> {
    if row.Some? && Lists(hook, row.value.status) then Some(Shown(row.value.status, ToSet(row.value.roles), row.value.bannedUntil)) else None
  }

  function IsActiveRoster(hook: Hook): bool {
    hook.UseGroup? || hook.status == Some(Active)
  }

  /**
   The changes a roster can follow from their events: it must not have to list a row it never loaded,
   drop one it is not told about, or know roles it was not sent.
   */
  predicate Follows(hook: Hook, row: Option<Stored>, change: Change, rises: bool)
    requires Legal(row, change)
  {
    match change
    case Join(_, _, carries) =>
      if Lists(hook, Active) then carries || After(row, change, rises).value.roles == []
      else row.None? || !Lists(hook, row.value.status)
    case Leave(reason) => !Lists(hook, reason)
    case Ban(_) => !Lists(hook, Banned) || (row.Some? && Lists(hook, row.value.status))
    case Unban => !Lists(hook, Left) || Lists(hook, Banned)
    case Relink(other) => Served(hook, other) == Served(hook, row)
    case _ => true
  }

  lemma RolesAfterSet(roles: seq<RoleId>, added: seq<RoleId>, removed: seq<RoleId>)
    ensures ToSet(RolesAfter(roles, added, removed)) == Changed(ToSet(roles), ToSet(added), ToSet(removed))
  {
  }

  lemma JoinFollowsIff(hook: Hook, u: UserId, cell: Cell, row: Option<Stored>, change: Change, rises: bool)
    requires change.Join? && Legal(row, change) && ShownBy(cell) == Served(hook, row)
    ensures ShownBy(ApplyCell(hook, u, cell, Published(u, row, change, rises))) == Served(hook, After(row, change, rises)) <==>
            Follows(hook, row, change, rises)
  {
    hide RolesAfter;
    var roles := After(row, change, rises).value.roles;
    if roles != [] {
      assert roles[0] in ToSet(roles);
    }
  }

  lemma RolesFollowed(hook: Hook, u: UserId, cell: Cell, row: Option<Stored>, change: Change, rises: bool)
    requires change.SetRoles? && Legal(row, change) && ShownBy(cell) == Served(hook, row)
    ensures ShownBy(ApplyCell(hook, u, cell, Published(u, row, change, rises))) == Served(hook, After(row, change, rises))
  {
    hide RolesAfter, Changed, ToSet;
    RolesAfterSet(row.value.roles, change.added, change.removed);
  }

  /**
   From a roster that shows what the server lists, a change with its event leads to one again exactly
   when it is one of those; for every filter.
   */
  lemma FollowsIff(hook: Hook, u: UserId, cell: Cell, row: Option<Stored>, change: Change, rises: bool)
    requires Legal(row, change) && ShownBy(cell) == Served(hook, row)
    ensures ShownBy(ApplyCell(hook, u, cell, Published(u, row, change, rises))) == Served(hook, After(row, change, rises)) <==>
            Follows(hook, row, change, rises)
  {
    hide RolesAfter, Changed, ToSet;
    if change.Join? {
      JoinFollowsIff(hook, u, cell, row, change, rises);
    } else if change.SetRoles? {
      RolesFollowed(hook, u, cell, row, change, rises);
    }
  }

  /** An active roster parts only from a join that omits roles kept, or from a link that moves a listed row. */
  lemma ActiveRosterFollowsIff(hook: Hook, u: UserId, cell: Cell, row: Option<Stored>, change: Change, rises: bool)
    requires IsActiveRoster(hook) && Legal(row, change) && ShownBy(cell) == Served(hook, row)
    ensures ShownBy(ApplyCell(hook, u, cell, Published(u, row, change, rises))) != Served(hook, After(row, change, rises)) <==>
            || (change.Join? && !change.carriesRoles && row.Some? && row.value.roles != [])
            || (change.Relink? && Served(hook, change.row) != Served(hook, row))
  {
    FollowsIff(hook, u, cell, row, change, rises);
    if change.Join? {
      RolesAfterSet(if row.Some? then row.value.roles else [], change.added, change.removed);
      KeptRoles(if row.Some? then row.value.roles else []);
    }
  }

  lemma KeptRoles(roles: seq<RoleId>)
    ensures RolesAfter(roles, [], []) == [] <==> roles == []
  {
    if roles != [] {
      assert roles[0] in NotIn(roles, []);
    }
  }

  /** A row no other roster keeps up with, and a change that shows it. */
  function Parting(hook: Hook): (Stored, Change) {
    if hook == UseMembers(Some(Invited)) then (Stored(Invited, [], None, 1), Join([], [], true))
    else if hook == UseMembers(Some(Banned)) then (Stored(Active, [], None, 1), Ban(None))
    else if hook == UseMembers(Some(Kicked)) then (Stored(Active, [], None, 1), Leave(Kicked))
    else (Stored(Active, [], None, 1), Leave(Left))
  }

  /** Every other filter has a change it cannot follow, even among those no active roster minds. */
  lemma OtherRostersPart(hook: Hook)
    requires !IsActiveRoster(hook)
    ensures
      var (row, change) := Parting(hook);
      Legal(Some(row), change) && !Follows(hook, Some(row), change, true) && Follows(UseGroup, Some(row), change, true)
  {
    KeptRoles([]);
  }

  // ------------------------------------------------------------------
  // Histories
  // ------------------------------------------------------------------

  datatype Server = Server(group: string, deleted: bool, rows: map<UserId, Stored>)

  datatype Write = MemberWrite(userId: UserId, change: Change, rises: bool) | Rename(group: string) | Delete

  function RowAt(server: Server, u: UserId): Option<Stored> {
    if u in server.rows then Some(server.rows[u]) else None
  }

  /** A deleted group takes no more writes. */
  predicate Permitted(server: Server, write: Write) {
    !server.deleted && (write.MemberWrite? ==> Legal(RowAt(server, write.userId), write.change))
  }

  /** A write that is refused changes nothing and publishes nothing either hook minds. */
  function Commit(server: Server, write: Write): Server {
    if !Permitted(server, write) then server
    else
      match write
      case MemberWrite(u, change, rises) =>
        var row := After(RowAt(server, u), change, rises);
        server.(rows := if row.Some? then server.rows[u := row.value] else server.rows - {u})
      case Rename(group) => server.(group := group)
      case Delete => server.(deleted := true)
  }

  function PublishedBy(server: Server, write: Write): Event {
    if !Permitted(server, write) then OtherEvent
    else
      match write
      case MemberWrite(u, change, rises) => Published(u, RowAt(server, u), change, rises)
      case Rename(group) => GroupUpdated(group)
      case Delete => GroupDeleted
  }

  function ServerAfter(server: Server, writes: seq<Write>): Server {
    if writes == [] then server else Commit(ServerAfter(server, writes[..|writes| - 1]), writes[|writes| - 1])
  }

  /** What a history publishes, one event a write. */
  function Events(server: Server, writes: seq<Write>): (events: seq<Event>)
    ensures |events| == |writes|
  {
    if writes == [] then []
    else
      Events(server, writes[..|writes| - 1]) + [PublishedBy(ServerAfter(server, writes[..|writes| - 1]), writes[|writes| - 1])]
  }

  lemma {:induction false} HistorySplit(server: Server, before: seq<Write>, writes: seq<Write>)
    ensures ServerAfter(server, before + writes) == ServerAfter(ServerAfter(server, before), writes)
    ensures Events(server, before + writes) == Events(server, before) + Events(ServerAfter(server, before), writes)
  {
    hide Commit, PublishedBy;
    if writes == [] {
      assert before + writes == before;
    } else {
      HistorySplit(server, before, writes[..|writes| - 1]);
      assert (before + writes)[..|before + writes| - 1] == before + writes[..|writes| - 1];
    }
  }

  /** A permitted write to this person's row. */
  predicate Touches(server: Server, write: Write, u: UserId) {
    Permitted(server, write) && write.MemberWrite? && write.userId == u
  }

  lemma RowCommitted(server: Server, write: Write, u: UserId)
    ensures RowAt(Commit(server, write), u) ==
            if Touches(server, write, u) then After(RowAt(server, u), write.change, write.rises) else RowAt(server, u)
  {
  }

  // ------------------------------------------------------------------
  // Following a whole history
  // ------------------------------------------------------------------

  /**
   The roles a roster does not know of: those a rejoin kept and its event left out, until a later
   event names them, or the row goes, or comes back with its roles.
   */
  function OmittedAfter(row: Option<Stored>, change: Change, rises: bool, omitted: set<RoleId>): set<RoleId>
    requires Legal(row, change)
  {
    match change
    case Join(_, _, carries) => if carries then {} else ToSet(After(row, change, rises).value.roles)
    case SetRoles(added, removed) => omitted - ToSet(added) - ToSet(removed)
    case Update => omitted
    case Relink(_) => omitted
    case _ => {}
  }

  function OmittedBy(server: Server, write: Write, u: UserId, omitted: set<RoleId>): set<RoleId> {
    if Touches(server, write, u) then OmittedAfter(RowAt(server, u), write.change, write.rises, omitted) else omitted
  }

  function Omitted(server: Server, writes: seq<Write>, u: UserId): set<RoleId> {
    if writes == [] then {}
    else
      OmittedBy(ServerAfter(server, writes[..|writes| - 1]), writes[|writes| - 1], u, Omitted(server, writes[..|writes| - 1], u))
  }

  /** No link moves or drops the row as it is listed. */
  ghost predicate Unlinked(hook: Hook, server: Server, writes: seq<Write>, u: UserId) {
    forall i :: 0 <= i < |writes| ==> !Moves(hook, ServerAfter(server, writes[..i]), writes[i], u)
  }

  predicate Moves(hook: Hook, server: Server, write: Write, u: UserId) {
    Touches(server, write, u) && write.change.Relink? && Served(hook, write.change.row) != Served(hook, RowAt(server, u))
  }

  function Less(shown: Option<Shown>, omitted: set<RoleId>): Option<Shown> {
    if shown.Some? then Some(shown.value.(roles := shown.value.roles - omitted)) else None
  }

  /** What a roster that missed nothing shows; `useMembers` does not hear of the group's end. */
  function Followed(hook: Hook, server: Server, u: UserId): Option<Shown> {
    if hook.UseGroup? && server.deleted then None else Served(hook, RowAt(server, u))
  }

  /** What the server lists; a deleted group has no list. */
  function Listed(hook: Hook, server: Server, u: UserId): Option<Shown> {
    if server.deleted then None else Served(hook, RowAt(server, u))
  }

  /** Roles are omitted only from a row that is listed, and only roles it has. */
  ghost predicate OmittedOk(hook: Hook, row: Option<Stored>, omitted: set<RoleId>) {
    omitted != {} ==> Served(hook, row).Some? && omitted <= Served(hook, row).value.roles
  }

  lemma LessChanged(roles: set<RoleId>, omitted: set<RoleId>, added: set<RoleId>, removed: set<RoleId>)
    ensures Changed(roles - omitted, added, removed) == Changed(roles, added, removed) - (omitted - added - removed)
  {
  }

  lemma RolesStep(hook: Hook, u: UserId, cell: Cell, row: Option<Stored>, change: Change, rises: bool, omitted: set<RoleId>)
    requires change.SetRoles? && Legal(row, change) && ShownBy(cell) == Less(Served(hook, row), omitted)
    ensures ShownBy(ApplyCell(hook, u, cell, Published(u, row, change, rises))) ==
            Less(Served(hook, After(row, change, rises)), OmittedAfter(row, change, rises, omitted))
  {
    hide RolesAfter, Changed, ToSet;
    RolesAfterSet(row.value.roles, change.added, change.removed);
    LessChanged(ToSet(row.value.roles), omitted, ToSet(change.added), ToSet(change.removed));
  }

  lemma JoinStep(hook: Hook, u: UserId, cell: Cell, row: Option<Stored>, change: Change, rises: bool, omitted: set<RoleId>)
    requires IsActiveRoster(hook) && change.Join? && Legal(row, change)
    ensures ShownBy(ApplyCell(hook, u, cell, Published(u, row, change, rises))) ==
            Less(Served(hook, After(row, change, rises)), OmittedAfter(row, change, rises, omitted))
  {
    hide RolesAfter;
    var roles := ToSet(After(row, change, rises).value.roles);
    assert roles - roles == ToSet([]) && roles - {} == roles;
  }

  /** One change with its event keeps an active roster at the row served, less the roles omitted. */
  lemma ChangeStep(hook: Hook, u: UserId, cell: Cell, row: Option<Stored>, change: Change, rises: bool, omitted: set<RoleId>)
    requires IsActiveRoster(hook) && Legal(row, change) && ShownBy(cell) == Less(Served(hook, row), omitted) && OmittedOk(hook, row, omitted)
    requires change.Relink? ==> Served(hook, change.row) == Served(hook, row)
    ensures ShownBy(ApplyCell(hook, u, cell, Published(u, row, change, rises))) ==
            Less(Served(hook, After(row, change, rises)), OmittedAfter(row, change, rises, omitted))
  {
    hide RolesAfter, Changed, ToSet;
    if change.Join? {
      JoinStep(hook, u, cell, row, change, rises, omitted);
    } else if change.SetRoles? {
      RolesStep(hook, u, cell, row, change, rises, omitted);
    }
  }

  lemma OmittedStays(hook: Hook, row: Option<Stored>, change: Change, rises: bool, omitted: set<RoleId>)
    requires IsActiveRoster(hook) && Legal(row, change) && OmittedOk(hook, row, omitted)
    requires change.Relink? ==> Served(hook, change.row) == Served(hook, row)
    ensures OmittedOk(hook, After(row, change, rises), OmittedAfter(row, change, rises, omitted))
  {
    if change.SetRoles? {
      RolesAfterSet(row.value.roles, change.added, change.removed);
    }
  }

  /** The same for any write to the group. */
  lemma WriteStep(hook: Hook, u: UserId, cell: Cell, server: Server, write: Write, omitted: set<RoleId>)
    requires IsActiveRoster(hook) && OmittedOk(hook, RowAt(server, u), omitted) && !Moves(hook, server, write, u)
    requires ShownBy(cell) == Less(Followed(hook, server, u), omitted)
    ensures ShownBy(ApplyCell(hook, u, cell, PublishedBy(server, write))) ==
            Less(Followed(hook, Commit(server, write), u), OmittedBy(server, write, u, omitted))
    ensures OmittedOk(hook, RowAt(Commit(server, write), u), OmittedBy(server, write, u, omitted))
  {
    hide RolesAfter, Changed, ToSet;
    RowCommitted(server, write, u);
    if Touches(server, write, u) {
      ChangeStep(hook, u, cell, RowAt(server, u), write.change, write.rises, omitted);
      OmittedStays(hook, RowAt(server, u), write.change, write.rises, omitted);
    }
  }

  /**
   A roster that starts from what the server lists and applies the events of a history shows what the
   server lists then, less the roles omitted.
   */
  lemma {:induction false} HistoryFollowed(hook: Hook, u: UserId, cell: Cell, server: Server, writes: seq<Write>, n: nat)
    requires IsActiveRoster(hook) && Unlinked(hook, server, writes, u) && n <= |writes|
    requires ShownBy(cell) == Followed(hook, server, u)
    ensures
      var now, omitted := ServerAfter(server, writes[..n]), Omitted(server, writes[..n], u);
      && ShownBy(CellAll(hook, u, cell, Events(server, writes[..n]))) == Less(Followed(hook, now, u), omitted)
      && OmittedOk(hook, RowAt(now, u), omitted)
  {
    hide Commit, PublishedBy, ApplyCell, Followed, ShownBy, OmittedBy, Served;
    if n == 0 {
      NothingOmitted(Followed(hook, server, u));
    } else {
      HistoryFollowed(hook, u, cell, server, writes, n - 1);
      assert writes[..n][..n - 1] == writes[..n - 1];
      var init := writes[..n - 1];
      WriteStep(hook, u, CellAll(hook, u, cell, Events(server, init)), ServerAfter(server, init), writes[n - 1], Omitted(server, init, u));
    }
  }

  lemma NothingOmitted(shown: Option<Shown>)
    ensures Less(shown, {}) == shown
  {
    if shown.Some? {
      assert shown.value.roles - {} == shown.value.roles;
    }
  }

  // ------------------------------------------------------------------
  // Replaying over a listing
  // ------------------------------------------------------------------

  /** What two requests answered: the group as it stood after `g` writes, the members as after `m`. */
  ghost predicate Loaded(hook: Hook, snapshot: State, server: Server, writes: seq<Write>, g: nat, m: nat)
    requires g <= |writes| && m <= |writes|
  {
    && OneRowEach(snapshot)
    && !ServerAfter(server, writes[..m]).deleted
    && (forall u :: ShownBy(CellOf(snapshot, u)) == Served(hook, RowAt(ServerAfter(server, writes[..m]), u)))
    && (hook.UseGroup? ==>
          !ServerAfter(server, writes[..g]).deleted && snapshot.group == Some(ServerAfter(server, writes[..g]).group))
  }

  /** The row the event sets, whatever stood before. */
  predicate Rejoins(hook: Hook, event: Event, u: UserId) {
    event.MemberJoined? && event.member.userId == u && Matches(hook, event.member)
  }

  lemma {:induction false} OmittedByAJoin(hook: Hook, server: Server, writes: seq<Write>, u: UserId) returns (j: nat)
    requires IsActiveRoster(hook) && Omitted(server, writes, u) != {}
    ensures j < |writes| && Rejoins(hook, Events(server, writes)[j], u)
  {
    var init, last := writes[..|writes| - 1], writes[|writes| - 1];
    var before := ServerAfter(server, init);
    if Touches(before, last, u) && last.change.Join? {
      j := |init|;
    } else {
      j := OmittedByAJoin(hook, server, init, u);
    }
  }

  /** After a rejoin nothing is left of what was shown before it. */
  lemma ForgottenAtJoin(hook: Hook, u: UserId, c: Cell, d: Cell, events: seq<Event>, j: nat)
    requires j < |events| && Rejoins(hook, events[j], u)
    ensures ShownBy(CellAll(hook, u, c, events)) == ShownBy(CellAll(hook, u, d, events))
  {
    assert events == events[..j + 1] + events[j + 1..] && events[..j + 1][..j] == events[..j];
    CellSplit(hook, u, c, events[..j + 1], events[j + 1..]);
    CellSplit(hook, u, d, events[..j + 1], events[j + 1..]);
    CellParts(hook, u, CellAll(hook, u, c, events[..j + 1]), CellAll(hook, u, d, events[..j + 1]), events[j + 1..]);
  }

  lemma {:induction false} EventsPrefix(server: Server, writes: seq<Write>, n: nat)
    requires n <= |writes|
    ensures Events(server, writes[..n]) == Events(server, writes)[..n]
  {
    HistorySplit(server, writes[..n], writes[n..]);
    assert writes == writes[..n] + writes[n..];
  }

  lemma {:induction false} DeletedStays(server: Server, writes: seq<Write>, n: nat)
    requires n <= |writes| && ServerAfter(server, writes[..n]).deleted
    ensures ServerAfter(server, writes).deleted
    decreases |writes|
  {
    if n < |writes| {
      assert writes[..|writes| - 1][..n] == writes[..n];
      DeletedStays(server, writes[..|writes| - 1], n);
    } else {
      assert writes[..n] == writes;
    }
  }

  /** Starting from a later listing makes no difference to the end of the replay. */
  lemma LaterListing(hook: Hook, u: UserId, early: Cell, listed: Cell, server: Server, writes: seq<Write>, m: nat)
    requires IsActiveRoster(hook) && Unlinked(hook, server, writes, u) && m <= |writes|
    requires ShownBy(early) == Followed(hook, server, u)
    requires !ServerAfter(server, writes[..m]).deleted && ShownBy(listed) == Served(hook, RowAt(ServerAfter(server, writes[..m]), u))
    ensures ShownBy(CellAll(hook, u, listed, Events(server, writes))) == ShownBy(CellAll(hook, u, early, Events(server, writes)))
  {
    hide ApplyCell, CellAll, ShownBy, Served, Omitted, ServerAfter, RowAt, Rejoins;
    var events := Events(server, writes);
    EventsPrefix(server, writes, m);
    if Omitted(server, writes[..m], u) != {} {
      var j := OmittedByAJoin(hook, server, writes[..m], u);
      ForgottenAtJoin(hook, u, early, listed, events, j);
    } else {
      HistoryFollowed(hook, u, early, server, writes, m);
      NothingOmitted(Followed(hook, ServerAfter(server, writes[..m]), u));
      CellParts(hook, u, listed, CellAll(hook, u, early, events[..m]), events);
      ReplayedCell(hook, u, early, events, m);
    }
  }

  /** A cell as the server lists it. */
  function CellServed(hook: Hook, server: Server, u: UserId): Cell {
    var row := Served(hook, RowAt(server, u));
    Cell(None, if row.Some? then Some(Row(row.value.status, row.value.roles, Undefined, row.value.bannedUntil, "", 0)) else None)
  }

  /**
   What the hooks promise of an active roster. `server` is the server where the replay begins and
   `writes` all that follows; the listing loaded is from after the first `m` of them. Replaying every
   event over it shows what the server lists in the end, less the roles a rejoin left out.
   */
  lemma ReplayShowsTheServer(hook: Hook, snapshot: State, server: Server, writes: seq<Write>, g: nat, m: nat, u: UserId)
    requires IsActiveRoster(hook) && g <= |writes| && m <= |writes| && Loaded(hook, snapshot, server, writes, g, m)
    requires Unlinked(hook, server, writes, u)
    ensures
      var end, omitted := ServerAfter(server, writes), Omitted(server, writes, u);
      && ShownBy(CellOf(ApplyAll(hook, snapshot, Events(server, writes)), u)) == Less(Followed(hook, end, u), omitted)
      && OmittedOk(hook, RowAt(end, u), omitted)
  {
    hide ApplyCell, CellAll, ApplyAll, Omitted, ServerAfter, RowAt, OneRowEach, IndexOf, CellOf, Served, Events, Unlinked, OmittedOk;
    AllOnCells(hook, snapshot, Events(server, writes), u);
    assert writes[..|writes|] == writes && writes[..0] == [];
    Undeleted(server, writes, m);
    var early := CellServed(hook, server, u);
    LaterListing(hook, u, early, CellOf(snapshot, u), server, writes, m);
    HistoryFollowed(hook, u, early, server, writes, |writes|);
  }

  lemma Undeleted(server: Server, writes: seq<Write>, m: nat)
    requires m <= |writes| && !ServerAfter(server, writes[..m]).deleted
    ensures !server.deleted
  {
    if server.deleted {
      DeletedStays(server, writes[..m], 0);
    }
  }

  /**
   So the roster agrees with the server exactly when no role is left out; once the group is deleted,
   exactly when it shows no row, which in `useGroup` is always.
   */
  lemma RosterIsRightIff(hook: Hook, snapshot: State, server: Server, writes: seq<Write>, g: nat, m: nat, u: UserId)
    requires IsActiveRoster(hook) && g <= |writes| && m <= |writes| && Loaded(hook, snapshot, server, writes, g, m)
    requires Unlinked(hook, server, writes, u)
    ensures
      var end := ServerAfter(server, writes);
      ShownBy(CellOf(ApplyAll(hook, snapshot, Events(server, writes)), u)) == Listed(hook, end, u) <==>
      if end.deleted then hook.UseGroup? || Served(hook, RowAt(end, u)) == None else Omitted(server, writes, u) == {}
  {
    hide ApplyAll, Loaded, Unlinked, CellOf, ServerAfter, Events, Omitted;
    ReplayShowsTheServer(hook, snapshot, server, writes, g, m, u);
    NothingOmitted(Followed(hook, ServerAfter(server, writes), u));
  }

  function GroupShown(server: Server): Option<string> {
    if server.deleted then None else Some(server.group)
  }

  lemma {:induction false} GroupFollowed(state: State, server: Server, writes: seq<Write>)
    requires state.group == GroupShown(server)
    ensures ApplyAll(UseGroup, state, Events(server, writes)).group == GroupShown(ServerAfter(server, writes))
  {
    hide ApplyEvent;
    if writes != [] {
      var init := writes[..|writes| - 1];
      GroupFollowed(state, server, init);
      assert Events(server, writes)[..|init|] == Events(server, init);
      GroupStep(ApplyAll(UseGroup, state, Events(server, init)), ServerAfter(server, init), writes[|init|]);
    }
  }

  lemma GroupStep(state: State, server: Server, write: Write)
    requires state.group == GroupShown(server)
    ensures ApplyEvent(UseGroup, state, PublishedBy(server, write)).group == GroupShown(Commit(server, write))
  {
  }

  /** `useGroup` shows the group as it is in the end. */
  lemma ReplayShowsTheGroup(snapshot: State, server: Server, writes: seq<Write>, g: nat, m: nat)
    requires g <= |writes| && m <= |writes| && Loaded(UseGroup, snapshot, server, writes, g, m)
    ensures ApplyAll(UseGroup, snapshot, Events(server, writes)).group == GroupShown(ServerAfter(server, writes))
  {
    hide ApplyAll, ApplyCell, CellAll, ServerAfter, Events, Served, ShownBy;
    var start := State(GroupShown(server), []);
    var events := Events(server, writes);
    EventsPrefix(server, writes, g);
    GroupFollowed(start, server, writes[..g]);
    GroupFollowed(start, server, writes);
    AllOnCells(UseGroup, snapshot, events, "");
    AllOnCells(UseGroup, start, events[..g], "");
    AllOnCells(UseGroup, start, events, "");
    CellParts(UseGroup, "", CellOf(snapshot, ""), CellAll(UseGroup, "", CellOf(start, ""), events[..g]), events);
    ReplayedCell(UseGroup, "", CellOf(start, ""), events, g);
  }

  // ------------------------------------------------------------------
  // Versions
  // ------------------------------------------------------------------

  /** A write whose event patches the row, or removes it. */
  predicate Patches(server: Server, write: Write, u: UserId) {
    Touches(server, write, u) && !write.change.Update? && !write.change.Relink?
  }

  predicate Unpatched(server: Server, writes: seq<Write>, u: UserId) {
    writes != [] ==>
      var init := writes[..|writes| - 1];
      Unpatched(server, init, u) && !Patches(ServerAfter(server, init), writes[|init|], u)
  }

  /**
   How many versions the shown row is behind: the updates, which both hooks ignore, since an event last
   patched it, or past the listing when none did.
   */
  function Lag(server: Server, writes: seq<Write>, m: nat, u: UserId): nat {
    if writes == [] then 0
    else
      var init, last := writes[..|writes| - 1], writes[|writes| - 1];
      if !Touches(ServerAfter(server, init), last, u) then Lag(server, init, m, u)
      else if Patches(ServerAfter(server, init), last, u) then 0
      else if Unpatched(server, init, u) && |init| < m then 0
      else Lag(server, init, m, u) + if last.rises then 1 else 0
  }

  ghost predicate NoLinks(server: Server, writes: seq<Write>, u: UserId) {
    forall i :: 0 <= i < |writes| && Touches(ServerAfter(server, writes[..i]), writes[i], u) ==> !writes[i].change.Relink?
  }

  lemma {:induction false} PatchedVersion(hook: Hook, u: UserId, cell: Cell, server: Server, writes: seq<Write>, m: nat, n: nat)
    requires IsActiveRoster(hook) && NoLinks(server, writes, u) && n <= |writes| && !Unpatched(server, writes[..n], u)
    requires CellAll(hook, u, cell, Events(server, writes[..n])).row.Some?
    ensures
      var row := RowAt(ServerAfter(server, writes[..n]), u);
      row.Some? && CellAll(hook, u, cell, Events(server, writes[..n])).row.value.version + Lag(server, writes[..n], m, u) == row.value.version
  {
    hide NotIn, Lag, Unpatched, Events, ServerAfter, CellAll, RolesAfter, JoinRow;
    NothingYet(hook, u, cell, server, m);
    assert writes[..0] == [];
    var init := writes[..n - 1];
    assert writes[..n][..n - 1] == init;
    HistoryEnds(hook, u, cell, server, writes[..n], m);
    var before := ServerAfter(server, init);
    RowCommitted(before, writes[n - 1], u);
    if !Patches(before, writes[n - 1], u) {
      NeverUnlisted(hook, u, CellAll(hook, u, cell, Events(server, init)), before, writes[n - 1]);
      PatchedVersion(hook, u, cell, server, writes, m, n - 1);
    } else {
      PatchVersion(hook, u, CellAll(hook, u, cell, Events(server, init)), before, writes[n - 1]);
    }
  }

  /** One unfolding of each function of the history. */
  lemma HistoryEnds(hook: Hook, u: UserId, cell: Cell, server: Server, writes: seq<Write>, m: nat)
    requires writes != []
    ensures
      var init, last := writes[..|writes| - 1], writes[|writes| - 1];
      var before := ServerAfter(server, init);
      && ServerAfter(server, writes) == Commit(before, last)
      && CellAll(hook, u, cell, Events(server, writes)) == ApplyCell(hook, u, CellAll(hook, u, cell, Events(server, init)), PublishedBy(before, last))
      && (Unpatched(server, writes, u) <==> Unpatched(server, init, u) && !Patches(before, last, u))
      && Lag(server, writes, m, u) ==
         if !Touches(before, last, u) then Lag(server, init, m, u)
         else if Patches(before, last, u) then 0
         else if Unpatched(server, init, u) && |init| < m then 0
         else Lag(server, init, m, u) + if last.rises then 1 else 0
  {
    hide Commit, PublishedBy, ApplyCell, Touches, Patches;
    var init := writes[..|writes| - 1];
    assert Events(server, writes)[..|init|] == Events(server, init);
  }

  lemma NeverUnlisted(hook: Hook, u: UserId, cell: Cell, server: Server, write: Write)
    requires !Patches(server, write, u) && ApplyCell(hook, u, cell, PublishedBy(server, write)).row.Some?
    ensures ApplyCell(hook, u, cell, PublishedBy(server, write)).row == cell.row
  {
  }

  lemma PatchVersion(hook: Hook, u: UserId, cell: Cell, server: Server, write: Write)
    requires IsActiveRoster(hook) && Patches(server, write, u) && ApplyCell(hook, u, cell, PublishedBy(server, write)).row.Some?
    ensures
      var row := RowAt(Commit(server, write), u);
      row.Some? && ApplyCell(hook, u, cell, PublishedBy(server, write)).row.value.version == row.value.version
  {
  }

  /** With nothing patched the listed row stands, and the stored version moves by the updates alone. */
  lemma {:induction false} UnpatchedVersion(hook: Hook, u: UserId, cell: Cell, server: Server, writes: seq<Write>, m: nat, n: nat)
    requires NoLinks(server, writes, u) && m <= n <= |writes| && Unpatched(server, writes[..n], u)
    requires CellAll(hook, u, cell, Events(server, writes[..n])).row.Some?
    ensures CellAll(hook, u, cell, Events(server, writes[..n])).row == cell.row
    ensures
      var was, now := RowAt(ServerAfter(server, writes[..m]), u), RowAt(ServerAfter(server, writes[..n]), u);
      && (was.Some? <==> now.Some?)
      && (now.Some? ==> now.value.version == was.value.version + Lag(server, writes[..n], m, u))
    decreases n
  {
    hide NotIn, Lag, Unpatched, Events, ServerAfter, CellAll, RolesAfter, JoinRow, ApplyCell;
    if n == 0 {
      NothingYet(hook, u, cell, server, m);
      assert writes[..0] == [];
    } else {
      var init := writes[..n - 1];
      assert writes[..n][..n - 1] == init;
      HistoryEnds(hook, u, cell, server, writes[..n], m);
      var before := ServerAfter(server, init);
      NeverUnlisted(hook, u, CellAll(hook, u, cell, Events(server, init)), before, writes[n - 1]);
      RowCommitted(before, writes[n - 1], u);
      if m < n {
        UnpatchedVersion(hook, u, cell, server, writes, m, n - 1);
      } else {
        ReflectedVersion(hook, u, cell, server, writes, m, n - 1);
      }
    }
  }

  lemma NothingYet(hook: Hook, u: UserId, cell: Cell, server: Server, m: nat)
    ensures ServerAfter(server, []) == server && CellAll(hook, u, cell, Events(server, [])) == cell
    ensures Lag(server, [], m, u) == 0 && Unpatched(server, [], u)
  {
  }

  /** Up to where the listing was read nothing lags. */
  lemma {:induction false} ReflectedVersion(hook: Hook, u: UserId, cell: Cell, server: Server, writes: seq<Write>, m: nat, n: nat)
    requires n <= m <= |writes| && Unpatched(server, writes[..n], u) && CellAll(hook, u, cell, Events(server, writes[..n])).row.Some?
    ensures CellAll(hook, u, cell, Events(server, writes[..n])).row == cell.row
    ensures Lag(server, writes[..n], m, u) == 0
  {
    hide NotIn, Lag, Unpatched, Events, ServerAfter, CellAll, RolesAfter, JoinRow, ApplyCell, Touches, Patches;
    if n == 0 {
      NothingYet(hook, u, cell, server, m);
      assert writes[..0] == [];
    } else {
      var init := writes[..n - 1];
      assert writes[..n][..n - 1] == init;
      HistoryEnds(hook, u, cell, server, writes[..n], m);
      NeverUnlisted(hook, u, CellAll(hook, u, cell, Events(server, init)), ServerAfter(server, init), writes[n - 1]);
      ReflectedVersion(hook, u, cell, server, writes, m, n - 1);
    }
  }

  /** The listing carries the versions stored when it was read. */
  ghost predicate VersionsListed(snapshot: State, server: Server, u: UserId) {
    var shown, stored := CellOf(snapshot, u).row, RowAt(server, u);
    shown.Some? && stored.Some? ==> shown.value.version == stored.value.version
  }

  /**
   A shown version is the one a conditional write expects exactly when nothing lags: an update after
   the last event that patched the row leaves it behind, even one the listing already had.
   */
  lemma ShownVersionLags(hook: Hook, snapshot: State, server: Server, writes: seq<Write>, m: nat, u: UserId)
    requires IsActiveRoster(hook) && m <= |writes| && NoLinks(server, writes, u) && OneRowEach(snapshot)
    requires VersionsListed(snapshot, ServerAfter(server, writes[..m]), u)
    requires CellOf(ApplyAll(hook, snapshot, Events(server, writes)), u).row.Some? && RowAt(ServerAfter(server, writes), u).Some?
    ensures
      CellOf(ApplyAll(hook, snapshot, Events(server, writes)), u).row.value.version + Lag(server, writes, m, u) ==
      RowAt(ServerAfter(server, writes), u).value.version
  {
    hide ApplyAll, ApplyCell, CellAll, ServerAfter, Events, Lag, Unpatched, OneRowEach, IndexOf, NoLinks, RowAt, CellOf;
    AllOnCells(hook, snapshot, Events(server, writes), u);
    assert writes[..|writes|] == writes;
    if Unpatched(server, writes, u) {
      UnpatchedVersion(hook, u, CellOf(snapshot, u), server, writes, m, |writes|);
    } else {
      PatchedVersion(hook, u, CellOf(snapshot, u), server, writes, m, |writes|);
    }
  }

  lemma TwoWrites(server: Server, w: Write, x: Write)
    ensures ServerAfter(server, [w, x]) == Commit(Commit(server, w), x)
    ensures Events(server, [w, x]) == [PublishedBy(server, w), PublishedBy(Commit(server, w), x)]
  {
    hide Commit, PublishedBy;
    assert [w, x][..1] == [w] && [w][..0] == [];
    assert ServerAfter(server, [w]) == Commit(server, w) && Events(server, [w]) == [PublishedBy(server, w)];
  }

  lemma TwoEvents(hook: Hook, state: State, e: Event, f: Event)
    ensures ApplyAll(hook, state, [e, f]) == ApplyEvent(hook, ApplyEvent(hook, state, e), f)
  {
    hide ApplyEvent;
    assert [e, f][..1] == [e] && [e][..0] == [];
    assert ApplyAll(hook, state, [e]) == ApplyEvent(hook, state, e);
  }

  const ROLE_THEN_UPDATE: seq<Write> := [MemberWrite("u", SetRoles(["r"], []), true), MemberWrite("u", Update, true)]

  function OneMember(group: string, roles: seq<RoleId>, version: nat): Server {
    Server(group, false, map["u" := Stored(Active, roles, None, version)])
  }

  lemma RoleSet(group: string)
    ensures Commit(OneMember(group, [], 1), ROLE_THEN_UPDATE[0]) == OneMember(group, ["r"], 2)
    ensures PublishedBy(OneMember(group, [], 1), ROLE_THEN_UPDATE[0]) == RoleChanged("u", ["r"], [], 2)
  {
    assert RolesAfter([], ["r"], []) == ["r"];
    hide RolesAfter;
  }

  lemma UpdateMade(group: string)
    ensures Commit(OneMember(group, ["r"], 2), ROLE_THEN_UPDATE[1]) == OneMember(group, ["r"], 3)
    ensures PublishedBy(OneMember(group, ["r"], 2), ROLE_THEN_UPDATE[1]) == MemberUpdated("u", 3)
  {
    hide RolesAfter;
  }

  lemma RoleThenUpdate(group: string)
    ensures ServerAfter(OneMember(group, [], 1), ROLE_THEN_UPDATE) == OneMember(group, ["r"], 3)
    ensures Events(OneMember(group, [], 1), ROLE_THEN_UPDATE) == [RoleChanged("u", ["r"], [], 2), MemberUpdated("u", 3)]
  {
    hide Commit, PublishedBy, OneMember;
    TwoWrites(OneMember(group, [], 1), ROLE_THEN_UPDATE[0], ROLE_THEN_UPDATE[1]);
    RoleSet(group);
    UpdateMade(group);
  }

  /** A role change and an update, both in the listing: version 3 is loaded, and the replay shows 2 again. */
  lemma ReplaySetsVersionBack(group: string, profile: string)
    ensures
      var server := OneMember(group, [], 1);
      var listed := Member("u", Active, ["r"], Null, None, profile, 3);
      && Loaded(UseGroup, State(Some(group), [listed]), server, ROLE_THEN_UPDATE, 2, 2)
      && ServerAfter(server, ROLE_THEN_UPDATE) == OneMember(group, ["r"], 3)
      && ApplyAll(UseGroup, State(Some(group), [listed]), Events(server, ROLE_THEN_UPDATE)).members == [listed.(version := 2)]
  {
    RoleThenUpdate(group);
    var listed := Member("u", Active, ["r"], Null, None, profile, 3);
    hide ServerAfter, Events;
    TwoEvents(UseGroup, State(Some(group), [listed]), RoleChanged("u", ["r"], [], 2), MemberUpdated("u", 3));
    assert WithRoleChange(listed, ["r"], [], 2).roles == ["r"] by {
      assert NotIn(["r"], []) == ["r"] && NotIn(["r"], ["r"]) == [];
    }
    assert ROLE_THEN_UPDATE[..2] == ROLE_THEN_UPDATE;
  }
}
