/**
 The member rosters the React hooks keep (packages/react/src/memberRows.ts, useGroup.ts and
 useMembers.ts): reducers over lists of rows, and why replaying held events over a snapshot that
 already reflects some of them ends in the right roster.
 */
module Roster {
  import opened Common

  type UserId = string
  type RoleId = string

  datatype Status = Active | Invited | Left | Kicked | Banned

  /** An optional field: a listed row carries a name or null, a row inside an event carries none. */
  datatype DisplayName = Undefined | Null | Named(name: string)

  datatype Member = Member(userId: UserId, status: Status, roles: seq<RoleId>, displayName: DisplayName,
                           bannedUntil: Option<nat>, profile: string, version: nat)

  datatype Event =
    | MemberJoined(member: Member)
    | MemberLeft(userId: UserId, reason: Status, memberVersion: nat)
    | RoleChanged(userId: UserId, added: seq<RoleId>, removed: seq<RoleId>, memberVersion: nat)
    | MemberBanned(userId: UserId, until: Option<nat>, memberVersion: nat)
    | MemberUnbanned(userId: UserId, memberVersion: nat)
    | MemberUpdated(userId: UserId, memberVersion: nat)
    | GroupUpdated(group: string)
    | GroupDeleted
    | OtherEvent

  /** `useGroup`, or `useMembers` with a status filter; no status stands for "all". */
  datatype Hook = UseGroup | UseMembers(status: Option<Status>)

  /** What a hook shows: the group (never loaded by `useMembers`) and its list of rows. */
  datatype State = State(group: Option<string>, members: seq<Member>)

  // ------------------------------------------------------------------
  // The reducers
  // ------------------------------------------------------------------

  /** The index of the first row for `userId`, or the length of the list. */
  function IndexOf(members: seq<Member>, userId: UserId): (i: nat)
    ensures i <= |members| && (i < |members| ==> members[i].userId == userId)
    ensures forall k :: 0 <= k < i ==> members[k].userId != userId
  {
    if members == [] then 0
    else if members[0].userId == userId then 0
    else 1 + IndexOf(members[1..], userId)
  }

  function Without(members: seq<Member>, userId: UserId): seq<Member> {
    if members == [] then []
    else
      var before := Without(members[..|members| - 1], userId);
      if members[|members| - 1].userId == userId then before else before + [members[|members| - 1]]
  }

  function KeepName(member: Member, previous: Member): Member {
    if member.displayName != Undefined || previous.displayName == Undefined then member
    else member.(displayName := previous.displayName)
  }

  function UpsertJoined(members: seq<Member>, member: Member): seq<Member> {
    var i := IndexOf(members, member.userId);
    if i == |members| then members + [member] else members[i := KeepName(member, members[i])]
  }

  /** The roles of `roles` that are not in `dropped`, in order. */
  function NotIn(roles: seq<RoleId>, dropped: seq<RoleId>): (r: seq<RoleId>)
    ensures forall x :: x in r <==> x in roles && x !in dropped
  {
    if roles == [] then []
    else
      var before := NotIn(roles[..|roles| - 1], dropped);
      var last := roles[|roles| - 1];
      assert forall x :: x in roles <==> x in roles[..|roles| - 1] || x == last;
      if last in dropped then before else before + [last]
  }

  function WithRoleChange(member: Member, added: seq<RoleId>, removed: seq<RoleId>, version: nat): Member {
    var remaining := NotIn(member.roles, removed);
    member.(roles := remaining + NotIn(added, remaining), version := version)
  }

  predicate Matches(hook: Hook, member: Member) {
    if hook.UseGroup? then true else hook.status.None? || member.status == hook.status.value
  }

  /** The row a ban event leaves behind, or none when the hook's roster does not list it. */
  function BanRow(hook: Hook, member: Member, event: Event): Option<Member>
    requires event.MemberBanned? || event.MemberUnbanned?
  {
    var updated := if event.MemberBanned? then member.(status := Banned, bannedUntil := event.until, version := event.memberVersion)
                   else member.(status := Left, bannedUntil := None, version := event.memberVersion);
    if hook.UseGroup? || !Matches(hook, updated) then None else Some(updated)
  }

  function BanChange(hook: Hook, members: seq<Member>, event: Event): seq<Member>
    requires event.MemberBanned? || event.MemberUnbanned?
  {
    var i := IndexOf(members, event.userId);
    if i == |members| then members
    else
      var row := BanRow(hook, members[i], event);
      if row.Some? then members[i := row.value] else Without(members, event.userId)
  }

  function ApplyEvent(hook: Hook, state: State, event: Event): State {
    match event
    case MemberJoined(member) =>
      if Matches(hook, member) then state.(members := UpsertJoined(state.members, member)) else state
    case MemberLeft(userId, _, _) => state.(members := Without(state.members, userId))
    case RoleChanged(userId, added, removed, version) =>
      var i := IndexOf(state.members, userId);
      if i == |state.members| then state
      else state.(members := state.members[i := WithRoleChange(state.members[i], added, removed, version)])
    case MemberBanned(_, _, _) => state.(members := BanChange(hook, state.members, event))
    case MemberUnbanned(_, _) => state.(members := BanChange(hook, state.members, event))
    case GroupUpdated(group) => if hook.UseGroup? then state.(group := Some(group)) else state
    case GroupDeleted => if hook.UseGroup? then State(None, []) else state
    case MemberUpdated(_, _) => state
    case OtherEvent => state
  }

  function ApplyAll(hook: Hook, state: State, events: seq<Event>): State {
    if events == [] then state else ApplyEvent(hook, ApplyAll(hook, state, events[..|events| - 1]), events[|events| - 1])
  }

  // ------------------------------------------------------------------
  // A roster as one row per user
  // ------------------------------------------------------------------

  /** A row without its place in the list, its roles as a set. */
  datatype Row = Row(status: Status, roles: set<RoleId>, displayName: DisplayName, bannedUntil: Option<nat>, profile: string, version: nat)

  function ToSet(roles: seq<RoleId>): set<RoleId> {
    set r | r in roles
  }

  function RowOf(member: Member): Row {
    Row(member.status, ToSet(member.roles), member.displayName, member.bannedUntil, member.profile, member.version)
  }

  /** The group shown, and what is shown of one user. */
  datatype Cell = Cell(group: Option<string>, row: Option<Row>)

  function CellOf(state: State, userId: UserId): Cell {
    var i := IndexOf(state.members, userId);
    Cell(state.group, if i == |state.members| then None else Some(RowOf(state.members[i])))
  }

  /** What the events speak of: a row's status, roles and ban end. Names come from listings alone. */
  datatype Shown = Shown(status: Status, roles: set<RoleId>, bannedUntil: Option<nat>)

  function ShownBy(cell: Cell): Option<Shown> {
    if cell.row.Some? then Some(Shown(cell.row.value.status, cell.row.value.roles, cell.row.value.bannedUntil)) else None
  }

  /** Two states show the same: the same group, and of every user the same status, role set and ban end. */
  ghost predicate SameRoster(a: State, b: State) {
    a.group == b.group && forall userId :: ShownBy(CellOf(a, userId)) == ShownBy(CellOf(b, userId))
  }

  ghost predicate OneRowEach(state: State) {
    forall i, j :: 0 <= i < j < |state.members| ==> state.members[i].userId != state.members[j].userId
  }

  function Concerns(event: Event, userId: UserId): bool {
    match event
    case MemberJoined(member) => member.userId == userId
    case MemberLeft(u, _, _) => u == userId
    case RoleChanged(u, _, _, _) => u == userId
    case MemberBanned(u, _, _) => u == userId
    case MemberUnbanned(u, _) => u == userId
    case MemberUpdated(u, _) => u == userId
    case _ => true
  }

  function JoinRow(member: Member, row: Option<Row>): Row {
    var joined := RowOf(member);
    if member.displayName != Undefined || row.None? || row.value.displayName == Undefined then joined
    else joined.(displayName := row.value.displayName)
  }

  function RoleRow(row: Row, added: seq<RoleId>, removed: seq<RoleId>, version: nat): Row {
    row.(roles := Changed(row.roles, ToSet(added), ToSet(removed)), version := version)
  }

  function BannedRow(hook: Hook, row: Row, event: Event): Option<Row>
    requires event.MemberBanned? || event.MemberUnbanned?
  {
    var updated := if event.MemberBanned? then row.(status := Banned, bannedUntil := event.until, version := event.memberVersion)
                   else row.(status := Left, bannedUntil := None, version := event.memberVersion);
    if hook.UseGroup? || (hook.status.Some? && updated.status != hook.status.value) then None else Some(updated)
  }

  /** What an event does to one cell. */
  function ApplyCell(hook: Hook, userId: UserId, cell: Cell, event: Event): Cell {
    if !Concerns(event, userId) then cell
    else
      match event
      case MemberJoined(member) => if Matches(hook, member) then cell.(row := Some(JoinRow(member, cell.row))) else cell
      case MemberLeft(_, _, _) => cell.(row := None)
      case RoleChanged(_, added, removed, version) =>
        if cell.row.None? then cell else cell.(row := Some(RoleRow(cell.row.value, added, removed, version)))
      case MemberBanned(_, _, _) => if cell.row.None? then cell else cell.(row := BannedRow(hook, cell.row.value, event))
      case MemberUnbanned(_, _) => if cell.row.None? then cell else cell.(row := BannedRow(hook, cell.row.value, event))
      case GroupUpdated(group) => if hook.UseGroup? then cell.(group := Some(group)) else cell
      case GroupDeleted => if hook.UseGroup? then Cell(None, None) else cell
      case MemberUpdated(_, _) => cell
      case OtherEvent => cell
  }

  lemma {:induction false} WithoutRows(members: seq<Member>, userId: UserId, other: UserId)
    ensures
      var left := Without(members, userId);
      && |left| <= |members|
      && (forall k :: 0 <= k < |left| ==> left[k] in members && left[k].userId != userId)
      && (forall m :: m in members && m.userId != userId ==> m in left)
  {
    if members != [] {
      WithoutRows(members[..|members| - 1], userId, other);
      assert members == members[..|members| - 1] + [members[|members| - 1]];
    }
  }

  lemma {:induction false} WithoutUnique(members: seq<Member>, userId: UserId)
    requires forall i, j :: 0 <= i < j < |members| ==> members[i].userId != members[j].userId
    ensures
      var left := Without(members, userId);
      forall i, j :: 0 <= i < j < |left| ==> left[i].userId != left[j].userId
  {
    if members != [] {
      var rest := members[..|members| - 1];
      WithoutUnique(rest, userId);
      WithoutRows(rest, userId, userId);
      forall k | 0 <= k < |Without(rest, userId)|
        ensures Without(rest, userId)[k].userId != members[|members| - 1].userId
      {
        assert Without(rest, userId)[k] in rest;
      }
    }
  }

  /** With one row each, a user's row is whichever row names it. */
  lemma TheRow(members: seq<Member>, m: Member)
    requires m in members && forall i, j :: 0 <= i < j < |members| ==> members[i].userId != members[j].userId
    ensures IndexOf(members, m.userId) < |members| && members[IndexOf(members, m.userId)] == m
  {
    var k :| 0 <= k < |members| && members[k] == m;
  }

  lemma WithoutCell(members: seq<Member>, userId: UserId, other: UserId, group: Option<string>)
    requires OneRowEach(State(group, members))
    ensures CellOf(State(group, Without(members, userId)), other) ==
            if other == userId then Cell(group, None) else CellOf(State(group, members), other)
  {
    var left := Without(members, userId);
    WithoutRows(members, userId, other);
    WithoutUnique(members, userId);
    var i := IndexOf(members, other);
    if other != userId && i < |members| {
      assert members[i] in left;
      TheRow(left, members[i]);
    }
    var j := IndexOf(left, other);
    if j < |left| {
      assert left[j] in members;
      TheRow(members, left[j]);
    }
  }

  lemma ReplacedCell(members: seq<Member>, i: nat, m: Member, other: UserId, group: Option<string>)
    requires OneRowEach(State(group, members)) && i < |members| && m.userId == members[i].userId
    ensures CellOf(State(group, members[i := m]), other) ==
            if other == m.userId then Cell(group, Some(RowOf(m))) else CellOf(State(group, members), other)
    ensures OneRowEach(State(group, members[i := m]))
  {
    var after := members[i := m];
    TheRow(after, m) by { assert after[i] == m; }
    var j := IndexOf(members, other);
    if other != m.userId && j < |members| {
      assert after[j] == members[j];
      TheRow(after, members[j]);
    }
    var k := IndexOf(after, other);
    if other != m.userId && k < |after| {
      assert after[k] == members[k];
      TheRow(members, after[k]);
    }
  }

  lemma AppendedCell(members: seq<Member>, m: Member, other: UserId, group: Option<string>)
    requires OneRowEach(State(group, members)) && IndexOf(members, m.userId) == |members|
    ensures CellOf(State(group, members + [m]), other) ==
            if other == m.userId then Cell(group, Some(RowOf(m))) else CellOf(State(group, members), other)
    ensures OneRowEach(State(group, members + [m]))
  {
    var after := members + [m];
    TheRow(after, m);
    var j := IndexOf(members, other);
    if j < |members| {
      assert after[j] == members[j];
      TheRow(after, members[j]);
    }
    var k := IndexOf(after, other);
    if k < |members| {
      TheRow(members, after[k]);
    }
  }

  lemma JoinOnCells(hook: Hook, state: State, member: Member, u: UserId)
    requires OneRowEach(state)
    ensures
      var after := ApplyEvent(hook, state, MemberJoined(member));
      OneRowEach(after) && CellOf(after, u) == ApplyCell(hook, u, CellOf(state, u), MemberJoined(member))
  {
    if Matches(hook, member) {
      var i := IndexOf(state.members, member.userId);
      if i == |state.members| {
        AppendedCell(state.members, member, u, state.group);
      } else {
        ReplacedCell(state.members, i, KeepName(member, state.members[i]), u, state.group);
      }
    }
  }

  lemma RolesOnCells(hook: Hook, state: State, userId: UserId, added: seq<RoleId>, removed: seq<RoleId>, version: nat, u: UserId)
    requires OneRowEach(state)
    ensures
      var event := RoleChanged(userId, added, removed, version);
      var after := ApplyEvent(hook, state, event);
      OneRowEach(after) && CellOf(after, u) == ApplyCell(hook, u, CellOf(state, u), event)
  {
    var i := IndexOf(state.members, userId);
    if i < |state.members| {
      var m := state.members[i];
      var changed := WithRoleChange(m, added, removed, version);
      assert ToSet(changed.roles) == Changed(ToSet(m.roles), ToSet(added), ToSet(removed));
      ReplacedCell(state.members, i, changed, u, state.group);
    }
  }

  lemma BanOnCells(hook: Hook, state: State, event: Event, u: UserId)
    requires OneRowEach(state) && (event.MemberBanned? || event.MemberUnbanned?)
    ensures
      var after := ApplyEvent(hook, state, event);
      OneRowEach(after) && CellOf(after, u) == ApplyCell(hook, u, CellOf(state, u), event)
  {
    var i := IndexOf(state.members, event.userId);
    if i < |state.members| {
      var row := BanRow(hook, state.members[i], event);
      if row.Some? {
        ReplacedCell(state.members, i, row.value, u, state.group);
      } else {
        WithoutUnique(state.members, event.userId);
        WithoutCell(state.members, event.userId, u, state.group);
      }
    }
  }

  /** Each event does to the list, user by user, what it does to that user's cell. */
  lemma EventOnCells(hook: Hook, state: State, event: Event, u: UserId)
    requires OneRowEach(state)
    ensures OneRowEach(ApplyEvent(hook, state, event))
    ensures CellOf(ApplyEvent(hook, state, event), u) == ApplyCell(hook, u, CellOf(state, u), event)
  {
    match event
    case MemberJoined(member) => JoinOnCells(hook, state, member, u);
    case MemberLeft(userId, _, _) =>
      WithoutUnique(state.members, userId);
      WithoutCell(state.members, userId, u, state.group);
    case RoleChanged(userId, added, removed, version) => RolesOnCells(hook, state, userId, added, removed, version, u);
    case MemberBanned(_, _, _) => BanOnCells(hook, state, event, u);
    case MemberUnbanned(_, _) => BanOnCells(hook, state, event, u);
    case _ =>
  }

  function CellAll(hook: Hook, u: UserId, cell: Cell, events: seq<Event>): Cell {
    if events == [] then cell else ApplyCell(hook, u, CellAll(hook, u, cell, events[..|events| - 1]), events[|events| - 1])
  }

  lemma {:induction false} AllOnCells(hook: Hook, state: State, events: seq<Event>, u: UserId)
    requires OneRowEach(state)
    ensures OneRowEach(ApplyAll(hook, state, events))
    ensures CellOf(ApplyAll(hook, state, events), u) == CellAll(hook, u, CellOf(state, u), events)
  {
    hide ApplyEvent, ApplyCell, CellOf, OneRowEach;
    if events != [] {
      AllOnCells(hook, state, events[..|events| - 1], u);
      EventOnCells(hook, ApplyAll(hook, state, events[..|events| - 1]), events[|events| - 1], u);
    }
  }

  // ------------------------------------------------------------------
  // Replaying over a snapshot
  // ------------------------------------------------------------------

  /** A role set after a change: the removed roles out, the added ones in. */
  function Changed(roles: set<RoleId>, added: set<RoleId>, removed: set<RoleId>): set<RoleId> {
    (roles - removed) + added
  }

  lemma ChangedRepeats(roles: set<RoleId>, added: set<RoleId>, removed: set<RoleId>)
    ensures Changed(Changed(roles, added, removed), added, removed) == Changed(roles, added, removed)
  {
  }

  lemma ChangedAbsorbs(r: set<RoleId>, s: set<RoleId>, added: set<RoleId>, removed: set<RoleId>, a: set<RoleId>, d: set<RoleId>)
    requires Changed(r, added, removed) == Changed(s, added, removed)
    ensures Changed(Changed(r, a, d), added, removed) == Changed(Changed(s, a, d), added, removed)
  {
    forall x
      ensures x in Changed(Changed(r, a, d), added, removed) <==> x in Changed(Changed(s, a, d), added, removed)
    {
      assert x in Changed(r, added, removed) <==> x in Changed(s, added, removed);
    }
  }

  /** Applying an event twice in a row is applying it once. */
  lemma Repeats(hook: Hook, u: UserId, cell: Cell, a: Event)
    ensures ApplyCell(hook, u, ApplyCell(hook, u, cell, a), a) == ApplyCell(hook, u, cell, a)
  {
    if a.RoleChanged? && cell.row.Some? {
      ChangedRepeats(cell.row.value.roles, ToSet(a.added), ToSet(a.removed));
    }
  }

  /** Cells an event makes equal stay so when another event comes in between. */
  lemma Absorbs(hook: Hook, u: UserId, c: Cell, d: Cell, w: Event, a: Event)
    requires ApplyCell(hook, u, c, a) == ApplyCell(hook, u, d, a)
    ensures ApplyCell(hook, u, ApplyCell(hook, u, c, w), a) == ApplyCell(hook, u, ApplyCell(hook, u, d, w), a)
  {
    if a.RoleChanged? && w.RoleChanged? && c.row.Some? && d.row.Some? {
      if Concerns(a, u) {
        ChangedAbsorbs(c.row.value.roles, d.row.value.roles, ToSet(a.added), ToSet(a.removed), ToSet(w.added), ToSet(w.removed));
      }
    }
  }

  lemma {:induction false} AbsorbsAll(hook: Hook, u: UserId, c: Cell, d: Cell, events: seq<Event>, a: Event)
    requires ApplyCell(hook, u, c, a) == ApplyCell(hook, u, d, a)
    ensures ApplyCell(hook, u, CellAll(hook, u, c, events), a) == ApplyCell(hook, u, CellAll(hook, u, d, events), a)
  {
    hide ApplyCell;
    if events != [] {
      var rest := events[..|events| - 1];
      AbsorbsAll(hook, u, c, d, rest, a);
      Absorbs(hook, u, CellAll(hook, u, c, rest), CellAll(hook, u, d, rest), events[|events| - 1], a);
    }
  }

  lemma {:induction false} CellSplit(hook: Hook, u: UserId, cell: Cell, before: seq<Event>, events: seq<Event>)
    ensures CellAll(hook, u, cell, before + events) == CellAll(hook, u, CellAll(hook, u, cell, before), events)
  {
    if events == [] {
      assert before + events == before;
    } else {
      CellSplit(hook, u, cell, before, events[..|events| - 1]);
      assert (before + events)[..|before + events| - 1] == before + events[..|events| - 1];
    }
  }

  /** An event applied early makes no difference when it is applied again later. */
  lemma Early(hook: Hook, u: UserId, cell: Cell, events: seq<Event>, k: nat)
    requires k < |events|
    ensures CellAll(hook, u, ApplyCell(hook, u, cell, events[k]), events) == CellAll(hook, u, cell, events)
  {
    hide ApplyCell;
    var a := events[k];
    var once := ApplyCell(hook, u, cell, a);
    Repeats(hook, u, cell, a);
    AbsorbsAll(hook, u, once, cell, events[..k], a);
    assert events == events[..k + 1] + events[k + 1..];
    CellSplit(hook, u, once, events[..k + 1], events[k + 1..]);
    CellSplit(hook, u, cell, events[..k + 1], events[k + 1..]);
    assert events[..k + 1][..k] == events[..k];
  }

  /** Replaying events over a cell that already reflects the first of them changes nothing. */
  lemma {:induction false} ReplayedCell(hook: Hook, u: UserId, cell: Cell, events: seq<Event>, n: nat)
    requires n <= |events|
    ensures CellAll(hook, u, CellAll(hook, u, cell, events[..n]), events) == CellAll(hook, u, cell, events)
  {
    hide ApplyCell;
    if n == 0 {
      assert CellAll(hook, u, cell, events[..0]) == cell;
    } else {
      var mid := CellAll(hook, u, cell, events[..n - 1]);
      assert events[..n][..n - 1] == events[..n - 1];
      Early(hook, u, mid, events, n - 1);
      ReplayedCell(hook, u, cell, events, n - 1);
    }
  }

  lemma PartsStep(hook: Hook, u: UserId, c: Cell, d: Cell, event: Event)
    ensures c.group == d.group ==> ApplyCell(hook, u, c, event).group == ApplyCell(hook, u, d, event).group
    ensures ShownBy(c) == ShownBy(d) ==> ShownBy(ApplyCell(hook, u, c, event)) == ShownBy(ApplyCell(hook, u, d, event))
  {
    hide Changed, ToSet;
  }

  /** An event's effect on the group depends only on the group, and on what is shown of a row only on that. */
  lemma {:induction false} CellParts(hook: Hook, u: UserId, c: Cell, d: Cell, events: seq<Event>)
    ensures c.group == d.group ==> CellAll(hook, u, c, events).group == CellAll(hook, u, d, events).group
    ensures ShownBy(c) == ShownBy(d) ==> ShownBy(CellAll(hook, u, c, events)) == ShownBy(CellAll(hook, u, d, events))
  {
    hide ApplyCell, ShownBy;
    if events != [] {
      var rest := events[..|events| - 1];
      CellParts(hook, u, c, d, rest);
      PartsStep(hook, u, CellAll(hook, u, c, rest), CellAll(hook, u, d, rest), events[|events| - 1]);
    }
  }

  /** `useMembers` keeps no group. */
  lemma {:induction false} NoGroupEvents(hook: Hook, state: State, events: seq<Event>)
    requires hook.UseMembers?
    ensures ApplyAll(hook, state, events).group == state.group
  {
    if events != [] {
      NoGroupEvents(hook, state, events[..|events| - 1]);
    }
  }

  lemma CellConverges(hook: Hook, u: UserId, cell: Cell, events: seq<Event>, b: nat, s: nat)
    requires b <= s <= |events|
    ensures CellAll(hook, u, CellAll(hook, u, cell, events[..s]), events[b..]) == CellAll(hook, u, cell, events)
  {
    hide ApplyCell;
    assert events[..s] == events[..b] + events[b..][..s - b] && events == events[..b] + events[b..];
    CellSplit(hook, u, cell, events[..b], events[b..][..s - b]);
    CellSplit(hook, u, cell, events[..b], events[b..]);
    ReplayedCell(hook, u, CellAll(hook, u, cell, events[..b]), events[b..], s - b);
  }

  /**
   A snapshot read by two requests: the group after `g` events, the members after `m`. Its rows carry
   names and versions of their own; only what the events speak of has to agree.
   */
  ghost predicate Snapshot(hook: Hook, snapshot: State, start: State, events: seq<Event>, g: nat, m: nat)
    requires g <= |events| && m <= |events|
  {
    && OneRowEach(snapshot)
    && snapshot.group == ApplyAll(hook, start, events[..g]).group
    && forall u :: ShownBy(CellOf(snapshot, u)) == ShownBy(CellOf(ApplyAll(hook, start, events[..m]), u))
  }

  lemma SnapshotRow(hook: Hook, start: State, snapshot: State, events: seq<Event>, b: nat, g: nat, m: nat, u: UserId)
    requires b <= m <= |events| && g <= |events| && OneRowEach(start)
    requires Snapshot(hook, snapshot, start, events, g, m)
    ensures ShownBy(CellOf(ApplyAll(hook, snapshot, events[b..]), u)) == ShownBy(CellOf(ApplyAll(hook, start, events), u))
  {
    hide ApplyCell, ApplyAll, OneRowEach, IndexOf, ShownBy, CellOf;
    AllOnCells(hook, snapshot, events[b..], u);
    AllOnCells(hook, start, events[..m], u);
    AllOnCells(hook, start, events, u);
    var atM := CellAll(hook, u, CellOf(start, u), events[..m]);
    CellParts(hook, u, CellOf(snapshot, u), atM, events[b..]);
    CellConverges(hook, u, CellOf(start, u), events, b, m);
  }

  lemma SnapshotGroup(hook: Hook, start: State, snapshot: State, events: seq<Event>, b: nat, g: nat, m: nat)
    requires b <= |events| && g <= |events| && m <= |events| && (hook.UseGroup? ==> b <= g) && OneRowEach(start)
    requires Snapshot(hook, snapshot, start, events, g, m)
    ensures ApplyAll(hook, snapshot, events[b..]).group == ApplyAll(hook, start, events).group
  {
    hide ApplyCell, ApplyAll, OneRowEach, ShownBy;
    if hook.UseMembers? {
      NoGroupEvents(hook, snapshot, events[b..]);
      NoGroupEvents(hook, start, events[..g]);
      NoGroupEvents(hook, start, events);
    } else {
      AllOnCells(hook, snapshot, events[b..], "");
      AllOnCells(hook, start, events[..g], "");
      AllOnCells(hook, start, events, "");
      CellParts(hook, "", CellOf(snapshot, ""), CellAll(hook, "", CellOf(start, ""), events[..g]), events[b..]);
      CellConverges(hook, "", CellOf(start, ""), events, b, g);
    }
  }

  /**
   Snapshot plus replay converges: take the group after its first `g` events and the members after
   `m`, replay every event from the `b`-th on, with b at most both, and what is shown is the roster
   of plain sequential application.
   */
  lemma ReplayConverges(hook: Hook, start: State, snapshot: State, events: seq<Event>, b: nat, g: nat, m: nat)
    requires b <= m <= |events| && g <= |events| && (hook.UseGroup? ==> b <= g) && OneRowEach(start)
    requires Snapshot(hook, snapshot, start, events, g, m)
    ensures SameRoster(ApplyAll(hook, snapshot, events[b..]), ApplyAll(hook, start, events))
  {
    hide ApplyAll, OneRowEach, Snapshot, ShownBy, CellOf;
    forall u
      ensures ShownBy(CellOf(ApplyAll(hook, snapshot, events[b..]), u)) == ShownBy(CellOf(ApplyAll(hook, start, events), u))
    {
      SnapshotRow(hook, start, snapshot, events, b, g, m, u);
    }
    SnapshotGroup(hook, start, snapshot, events, b, g, m);
  }

  // ------------------------------------------------------------------
  // Which schedules converge
  // ------------------------------------------------------------------

  /** Whatever the `n` events and the snapshot are, replaying from `b` shows the sequential roster. */
  ghost predicate Converges(hook: Hook, n: nat, b: nat, g: nat, m: nat)
    requires b <= n && g <= n && m <= n
  {
    forall start, snapshot, events ::
      |events| == n && OneRowEach(start) && Snapshot(hook, snapshot, start, events, g, m) ==>
        SameRoster(ApplyAll(hook, snapshot, events[b..]), ApplyAll(hook, start, events))
  }

  /** A log in which only the `k`-th event is of interest. */
  function Lone(n: nat, k: nat, event: Event): seq<Event> {
    seq(n, i => if i == k then event else OtherEvent)
  }

  lemma {:induction false} LoneApplied(hook: Hook, state: State, n: nat, k: nat, event: Event, lo: nat, hi: nat)
    requires lo <= hi <= n
    ensures ApplyAll(hook, state, Lone(n, k, event)[lo..hi]) == if lo <= k < hi then ApplyEvent(hook, state, event) else state
    decreases hi
  {
    hide ApplyEvent;
    var part := Lone(n, k, event)[lo..hi];
    if lo < hi {
      assert part[..|part| - 1] == Lone(n, k, event)[lo..hi - 1];
      LoneApplied(hook, state, n, k, event, lo, hi - 1);
      assert part[|part| - 1] == if k == hi - 1 then event else OtherEvent;
      OthersIgnored(hook, ApplyAll(hook, state, Lone(n, k, event)[lo..hi - 1]));
    }
  }

  lemma OthersIgnored(hook: Hook, state: State)
    ensures ApplyEvent(hook, state, OtherEvent) == state
  {
  }

  /** An event between the snapshot and the start of the replay is in neither. */
  lemma Missed(hook: Hook, n: nat, b: nat, g: nat, m: nat, k: nat, event: Event)
    requires k < b <= n && g <= n && m <= n && Converges(hook, n, b, g, m)
    requires
      var after := ApplyEvent(hook, State(None, []), event);
      (g <= k || after.group == None) && (m <= k || after.members == [])
    ensures SameRoster(State(None, []), ApplyEvent(hook, State(None, []), event))
  {
    hide ApplyEvent, SameRoster, ApplyAll;
    var none := State(None, []);
    var events := Lone(n, k, event);
    assert events[..g] == events[0..g] && events[..m] == events[0..m] && events[b..] == events[b..n] && events == events[0..n];
    LoneApplied(hook, none, n, k, event, 0, g);
    LoneApplied(hook, none, n, k, event, 0, m);
    LoneApplied(hook, none, n, k, event, b, n);
    LoneApplied(hook, none, n, k, event, 0, n);
    assert Snapshot(hook, none, none, events, g, m);
  }

  /** A join that the hook lists. */
  function SomeJoin(hook: Hook): Member {
    Member("", if hook.UseMembers? && hook.status.Some? then hook.status.value else Active, [], Undefined, None, "", 1)
  }

  lemma JoinShows(hook: Hook)
    ensures ApplyEvent(hook, State(None, []), MemberJoined(SomeJoin(hook))) == State(None, [SomeJoin(hook)])
    ensures !SameRoster(State(None, []), State(None, [SomeJoin(hook)]))
  {
    assert ShownBy(CellOf(State(None, []), "")) != ShownBy(CellOf(State(None, [SomeJoin(hook)]), ""));
  }

  /**
   The schedule decides: replaying from `b` is right for every log and every snapshot exactly when the
   replay reaches back to where the members, and in `useGroup` the group, were read.
   */
  lemma ConvergesIff(hook: Hook, n: nat, b: nat, g: nat, m: nat)
    requires b <= n && g <= n && m <= n
    ensures Converges(hook, n, b, g, m) <==> b <= m && (hook.UseGroup? ==> b <= g)
  {
    hide Snapshot, ApplyAll, OneRowEach;
    if b <= m && (hook.UseGroup? ==> b <= g) {
      hide SameRoster;
      forall start, snapshot, events |
        |events| == n && OneRowEach(start) && Snapshot(hook, snapshot, start, events, g, m)
        ensures SameRoster(ApplyAll(hook, snapshot, events[b..]), ApplyAll(hook, start, events))
      {
        ReplayConverges(hook, start, snapshot, events, b, g, m);
      }
    } else if Converges(hook, n, b, g, m) {
      hide Converges;
      if m < b {
        JoinShows(hook);
        Missed(hook, n, b, g, m, m, MemberJoined(SomeJoin(hook)));
      } else {
        Missed(hook, n, b, g, m, g, GroupUpdated(""));
      }
    }
  }

  // ------------------------------------------------------------------
  // Names survive
  // ------------------------------------------------------------------

  /** Rows inside events carry no name. */
  ghost predicate Nameless(events: seq<Event>) {
    forall i :: 0 <= i < |events| && events[i].MemberJoined? ==> events[i].member.displayName == Undefined
  }

  /** The user's row goes missing somewhere along the events. */
  ghost predicate Unlisted(hook: Hook, u: UserId, cell: Cell, events: seq<Event>) {
    exists k :: 0 <= k <= |events| && CellAll(hook, u, cell, events[..k]).row == None
  }

  lemma {:induction false} NameOfCell(hook: Hook, u: UserId, cell: Cell, events: seq<Event>)
    requires Nameless(events) && CellAll(hook, u, cell, events).row.Some?
    ensures
      var name := CellAll(hook, u, cell, events).row.value.displayName;
      if Unlisted(hook, u, cell, events) then name == Undefined else cell.row.Some? && name == cell.row.value.displayName
  {
    if events == [] {
      assert events[..0] == [];
      assert !Unlisted(hook, u, cell, events);
    } else {
      var rest := events[..|events| - 1];
      var before := CellAll(hook, u, cell, rest);
      assert forall k :: 0 <= k <= |rest| ==> events[..k] == rest[..k];
      assert events[..|events|] == events && rest[..|rest|] == rest;
      if before.row.Some? {
        NameOfCell(hook, u, cell, rest);
        assert Unlisted(hook, u, cell, events) <==> Unlisted(hook, u, cell, rest);
      } else {
        assert CellAll(hook, u, cell, events[..|rest|]).row == None;
      }
    }
  }

  /** A name loaded with a snapshot is still shown after the replay exactly when the row never left the list in between. */
  lemma LoadedNamesSurvive(hook: Hook, snapshot: State, events: seq<Event>, u: UserId)
    requires OneRowEach(snapshot) && Nameless(events) && CellOf(ApplyAll(hook, snapshot, events), u).row.Some?
    ensures
      var name := CellOf(ApplyAll(hook, snapshot, events), u).row.value.displayName;
      if Unlisted(hook, u, CellOf(snapshot, u), events) then name == Undefined
      else CellOf(snapshot, u).row.Some? && name == CellOf(snapshot, u).row.value.displayName
  {
    hide ApplyAll, CellOf, OneRowEach, CellAll, Unlisted, Nameless;
    AllOnCells(hook, snapshot, events, u);
    NameOfCell(hook, u, CellOf(snapshot, u), events);
  }
}
