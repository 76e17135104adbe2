/**
 The buffer that holds stream events while a snapshot is fetched, and the hook around it
 (packages/react/src/pendingEvents.ts, useGroup.ts and useMembers.ts): overlapping refetches, events
 in between, and what is shown once everything has settled.
 */
module RosterHook {
  import opened Common
  import opened Roster
  import opened RosterServer

  type Error = string

  // ------------------------------------------------------------------
  // PendingEvents
  // ------------------------------------------------------------------

  datatype Held = Held(events: Option<seq<Event>>, failure: Option<Error>)

  function Begun(h: Held): Held {
    if h.events.None? then h.(events := Some([])) else h
  }

  class PendingEvents {
    var events: Option<seq<Event>>
    var failure: Option<Error>

    function View(): Held
      reads this
    {
      Held(events, failure)
    }

    constructor ()
      ensures View() == Held(None, None)
    {
      events, failure := None, None;
    }

    method Begin()
      modifies this
      ensures View() == Begun(old(View()))
    {
      if events.None? {
        events := Some([]);
      }
    }

    method Hold(event: Event) returns (held: bool)
      modifies this
      ensures held == old(events).Some?
      ensures View() == if held then old(View()).(events := Some(old(events).value + [event])) else old(View())
    {
      if events.None? {
        return false;
      }
      events := Some(events.value + [event]);
      return true;
    }

    method HoldFailure(err: Error) returns (held: bool)
      modifies this
      ensures held == old(events).Some?
      ensures View() == if held && old(failure).None? then old(View()).(failure := Some(err)) else old(View())
    {
      if events.None? {
        return false;
      }
      if failure.None? {
        failure := Some(err);
      }
      return true;
    }

    method Drain() returns (heldEvents: seq<Event>, heldFailure: Option<Error>)
      modifies this
      ensures heldEvents == if old(events).Some? then old(events).value else []
      ensures heldFailure == old(failure) && View() == Held(None, None)
    {
      heldEvents := if events.Some? then events.value else [];
      heldFailure := failure;
      events, failure := None, None;
    }

    method Clear()
      modifies this
      ensures View() == Held(None, None)
    {
      events, failure := None, None;
    }
  }

  // ------------------------------------------------------------------
  // The hook's callbacks
  // ------------------------------------------------------------------

  datatype View = View(state: State, loading: bool, error: Option<Error>, generation: nat, held: Held)

  function AfterEvent(hook: Hook, v: View, event: Event): View {
    if v.held.events.Some? then v.(held := v.held.(events := Some(v.held.events.value + [event])))
    else v.(state := ApplyEvent(hook, v.state, event))
  }

  function AfterFailure(v: View, err: Error): View {
    if v.held.events.None? then v.(error := Some(err))
    else if v.held.failure.None? then v.(held := v.held.(failure := Some(err)))
    else v
  }

  /** Starting a fetch; `useMembers` empties its list, `useGroup` keeps showing the old one. */
  function AfterRefetch(hook: Hook, v: View): View {
    View(if hook.UseMembers? then State(None, []) else v.state, true, None, v.generation + 1, Begun(v.held))
  }

  /** What was held, applied in arrival order, then the failure. */
  function Replayed(hook: Hook, v: View): View {
    var events := if v.held.events.Some? then v.held.events.value else [];
    v.(state := ApplyAll(hook, v.state, events), error := if v.held.failure.Some? then v.held.failure else v.error, held := Held(None, None))
  }

  function AfterSuccess(hook: Hook, v: View, generation: nat, snapshot: State): View {
    if generation != v.generation then v
    else Replayed(hook, v.(state := snapshot, loading := false, error := None))
  }

  function AfterError(hook: Hook, v: View, generation: nat, err: Error): View {
    if generation != v.generation then v
    else Replayed(hook, v.(loading := false, error := Some(err)))
  }

  class RosterHook {
    const hook: Hook
    const pending: PendingEvents
    var state: State
    var loading: bool
    var error: Option<Error>
    var generation: nat

    function Now(): View
      reads this, pending
    {
      View(state, loading, error, generation, pending.View())
    }

    constructor (h: Hook)
      ensures hook == h && fresh(pending) && Now() == View(State(None, []), true, None, 0, Held(None, None))
    {
      hook := h;
      pending := new PendingEvents();
      state := State(None, []);
      loading, error, generation := true, None, 0;
    }

    method OnEvent(event: Event)
      modifies this, pending
      ensures Now() == AfterEvent(hook, old(Now()), event)
    {
      var held := pending.Hold(event);
      if !held {
        state := ApplyEvent(hook, state, event);
      }
    }

    method OnFailure(err: Error)
      modifies this, pending
      ensures Now() == AfterFailure(old(Now()), err)
    {
      var held := pending.HoldFailure(err);
      if !held {
        error := Some(err);
      }
    }

    method StartFetch() returns (mine: nat)
      modifies this, pending
      ensures Now() == AfterRefetch(hook, old(Now())) && mine == generation
    {
      generation := generation + 1;
      mine := generation;
      pending.Begin();
      if hook.UseMembers? {
        state := State(None, []);
      }
      loading, error := true, None;
    }

    method ReplayHeld()
      modifies this, pending
      ensures Now() == Replayed(hook, old(Now()))
    {
      var events, failure := pending.Drain();
      var i := 0;
      while i < |events|
        invariant 0 <= i <= |events|
        invariant Now() == old(Now()).(state := ApplyAll(hook, old(state), events[..i]), held := Held(None, None))
      {
        state := ApplyEvent(hook, state, events[i]);
        assert events[..i + 1][..i] == events[..i];
        i := i + 1;
      }
      assert events[..i] == events;
      if failure.Some? {
        error := failure;
      }
    }

    method FetchSucceeded(mine: nat, snapshot: State)
      modifies this, pending
      ensures Now() == AfterSuccess(hook, old(Now()), mine, snapshot)
    {
      if mine != generation {
        return;
      }
      state, loading, error := snapshot, false, None;
      ReplayHeld();
    }

    method FetchFailed(mine: nat, err: Error)
      modifies this, pending
      ensures Now() == AfterError(hook, old(Now()), mine, err)
    {
      if mine != generation {
        return;
      }
      loading, error := false, Some(err);
      ReplayHeld();
    }
  }

  /** A stream failure that arrives during a fetch is what the hook reports once the fetch settles. */
  lemma FailureOutlivesFetch(hook: Hook, v: View, err: Error, snapshot: State, fetchError: Error)
    requires v.held.events.Some? && v.held.failure.None?
    ensures AfterSuccess(hook, AfterFailure(v, err), v.generation, snapshot).error == Some(err)
    ensures AfterError(hook, AfterFailure(v, err), v.generation, fetchError).error == Some(err)
  {
  }

  // ------------------------------------------------------------------
  // A mounted hook, its stream and its fetches
  // ------------------------------------------------------------------

  /** An open stream delivers the events published after `openedAt`, in order, `delivered` so far. */
  datatype Stream = Stream(openedAt: nat, delivered: nat, broken: bool)

  /** A fetch in flight; each of its requests is answered from the log as it stood then. */
  datatype Fetch = Fetch(generation: nat, groupAt: Option<nat>, membersAt: Option<nat>)

  /** The snapshot last loaded, where it was read, and from where events were applied to it, once the stream is open. */
  datatype Base = Base(snapshot: State, groupAt: nat, membersAt: nat, from: Option<nat>)

  datatype Sys = Sys(log: seq<Event>, view: View, stream: Option<Stream>, fetches: seq<Fetch>, heldFrom: nat, base: Option<Base>)

  datatype Step =
    | Publish(event: Event)
    | OpenStream
    | Deliver
    | Break(err: Error)
    | Refetch
    | ReadGroup(k: nat)
    | ReadMembers(k: nat)
    | Succeed(k: nat, snapshot: State)
    | Fail(k: nat, err: Error)

  function Begin(hook: Hook): Sys {
    Sys([], View(State(None, []), true, None, 0, Held(None, None)), None, [], 0, None)
  }

  function Delivered(s: Sys): nat {
    if s.stream.Some? then s.stream.value.delivered else 0
  }

  function AfterOpen(s: Sys): Sys {
    if s.stream.Some? then s
    else
      s.(stream := Some(Stream(|s.log|, |s.log|, false)), heldFrom := |s.log|,
         base := if s.base.Some? then Some(s.base.value.(from := Some(|s.log|))) else None)
  }

  function AfterDeliver(hook: Hook, s: Sys): Sys {
    if s.stream.None? || s.stream.value.broken || |s.log| <= s.stream.value.delivered then s
    else
      var n := s.stream.value.delivered;
      s.(stream := Some(s.stream.value.(delivered := n + 1)), view := AfterEvent(hook, s.view, s.log[n]))
  }

  function AfterBreak(s: Sys, err: Error): Sys {
    if s.stream.None? || s.stream.value.broken then s
    else s.(stream := Some(s.stream.value.(broken := true)), view := AfterFailure(s.view, err))
  }

  function AfterStart(hook: Hook, s: Sys): Sys {
    s.(view := AfterRefetch(hook, s.view), fetches := s.fetches + [Fetch(s.view.generation + 1, None, None)],
       heldFrom := if s.view.held.events.None? then Delivered(s) else s.heldFrom,
       base := if hook.UseMembers? then None else s.base)
  }

  /** `useMembers` sends the members request alone. */
  predicate Answered(hook: Hook, f: Fetch) {
    f.membersAt.Some? && (hook.UseGroup? ==> f.groupAt.Some?)
  }

  /** A fetch succeeds with whatever its requests answered. */
  function AfterSucceed(hook: Hook, s: Sys, k: nat, snapshot: State): Sys {
    if |s.fetches| <= k || !Answered(hook, s.fetches[k]) then s
    else
      var f := s.fetches[k];
      s.(view := AfterSuccess(hook, s.view, f.generation, snapshot), fetches := s.fetches[..k] + s.fetches[k + 1..],
         base := if f.generation != s.view.generation then s.base
                 else Some(Base(snapshot, if hook.UseGroup? then f.groupAt.value else f.membersAt.value, f.membersAt.value,
                                if s.stream.Some? then Some(s.heldFrom) else None)))
  }

  function AfterFail(hook: Hook, s: Sys, k: nat, err: Error): Sys {
    if |s.fetches| <= k then s
    else s.(view := AfterError(hook, s.view, s.fetches[k].generation, err), fetches := s.fetches[..k] + s.fetches[k + 1..])
  }

  function Apply(hook: Hook, s: Sys, step: Step): Sys {
    match step
    case Publish(event) => s.(log := s.log + [event])
    case OpenStream => AfterOpen(s)
    case Deliver => AfterDeliver(hook, s)
    case Break(err) => AfterBreak(s, err)
    case Refetch => AfterStart(hook, s)
    case ReadGroup(k) => if k < |s.fetches| then s.(fetches := s.fetches[k := s.fetches[k].(groupAt := Some(|s.log|))]) else s
    case ReadMembers(k) => if k < |s.fetches| then s.(fetches := s.fetches[k := s.fetches[k].(membersAt := Some(|s.log|))]) else s
    case Succeed(k, snapshot) => AfterSucceed(hook, s, k, snapshot)
    case Fail(k, err) => AfterFail(hook, s, k, err)
  }

  function Run(hook: Hook, steps: seq<Step>): Sys {
    if steps == [] then Begin(hook) else Apply(hook, Run(hook, steps[..|steps| - 1]), steps[|steps| - 1])
  }

  // ------------------------------------------------------------------
  // What every run keeps
  // ------------------------------------------------------------------

  ghost predicate StreamOk(s: Sys) {
    s.stream.Some? ==> s.stream.value.openedAt <= s.stream.value.delivered <= |s.log|
  }

  /** What is held is exactly the delivered events since holding began. */
  ghost predicate HeldOk(s: Sys) {
    s.view.held.events.Some? ==>
      if s.stream.None? then s.view.held.events.value == []
      else s.stream.value.openedAt <= s.heldFrom <= Delivered(s) <= |s.log| && s.view.held.events.value == s.log[s.heldFrom..Delivered(s)]
  }

  /** A place in the log read from: the replay will reach back to it, unless it was read before the stream opened. */
  ghost predicate ReadOk(s: Sys, at: nat) {
    at <= |s.log| && (s.stream.Some? ==> s.heldFrom <= at || at < s.stream.value.openedAt)
  }

  ghost predicate FetchOk(s: Sys, f: Fetch) {
    && f.generation <= s.view.generation
    && (f.generation == s.view.generation ==>
          && s.view.held.events.Some?
          && (f.groupAt.Some? ==> ReadOk(s, f.groupAt.value))
          && (f.membersAt.Some? ==> ReadOk(s, f.membersAt.value)))
  }

  ghost predicate FetchesOk(s: Sys) {
    && (forall k :: 0 <= k < |s.fetches| ==> FetchOk(s, s.fetches[k]))
    && (forall j, k :: 0 <= j < k < |s.fetches| ==> s.fetches[j].generation != s.fetches[k].generation)
  }

  /** How far the shown state reflects the stream: up to where holding began, or all of it. */
  function Shown(s: Sys): nat {
    if s.view.held.events.Some? then s.heldFrom else Delivered(s)
  }

  /** The state shown is the loaded snapshot with the events delivered since applied. */
  ghost predicate BaseOk(hook: Hook, s: Sys) {
    s.base.Some? ==>
      var b := s.base.value;
      && b.groupAt <= |s.log| && b.membersAt <= |s.log|
      && (b.from.Some? <==> s.stream.Some?)
      && (if b.from.None? then s.view.state == b.snapshot
          else
            && FromOk(s, b.from.value, b.groupAt) && FromOk(s, b.from.value, b.membersAt)
            && b.from.value <= Shown(s) <= |s.log| && s.view.state == ApplyAll(hook, b.snapshot, s.log[b.from.value..Shown(s)]))
  }

  /** Where the replay began: not before the stream, and not after the read, unless that was before the stream. */
  ghost predicate FromOk(s: Sys, from: nat, at: nat)
    requires s.stream.Some?
  {
    s.stream.value.openedAt <= from && (from <= at || at < s.stream.value.openedAt)
  }

  ghost predicate Inv(hook: Hook, s: Sys) {
    StreamOk(s) && HeldOk(s) && FetchesOk(s) && BaseOk(hook, s)
  }

  lemma {:induction false} ApplyMore(hook: Hook, state: State, before: seq<Event>, events: seq<Event>)
    ensures ApplyAll(hook, state, before + events) == ApplyAll(hook, ApplyAll(hook, state, before), events)
  {
    if events == [] {
      assert before + events == before;
    } else {
      ApplyMore(hook, state, before, events[..|events| - 1]);
      assert (before + events)[..|before + events| - 1] == before + events[..|events| - 1];
    }
  }

  lemma PublishKeeps(hook: Hook, s: Sys, event: Event)
    requires Inv(hook, s)
    ensures Inv(hook, Apply(hook, s, Publish(event)))
  {
    hide ApplyAll;
    var log := s.log + [event];
    assert forall i, j :: 0 <= i <= j <= |s.log| ==> log[i..j] == s.log[i..j];
  }

  lemma OpenKeeps(hook: Hook, s: Sys)
    requires Inv(hook, s)
    ensures Inv(hook, Apply(hook, s, OpenStream))
  {
  }

  lemma DeliverKeeps(hook: Hook, s: Sys)
    requires Inv(hook, s)
    ensures Inv(hook, Apply(hook, s, Deliver))
  {
    hide ApplyEvent;
    if s.stream.Some? && !s.stream.value.broken && Delivered(s) < |s.log| {
      var n := Delivered(s);
      if s.view.held.events.Some? {
        assert s.log[s.heldFrom..n + 1] == s.log[s.heldFrom..n] + [s.log[n]];
      } else if s.base.Some? {
        var from := s.base.value.from.value;
        var events := s.log[from..n + 1];
        assert events[..|events| - 1] == s.log[from..n] && events[|events| - 1] == s.log[n];
        assert ApplyAll(hook, s.base.value.snapshot, events) == ApplyEvent(hook, s.view.state, s.log[n]);
      }
    }
  }

  lemma BreakKeeps(hook: Hook, s: Sys, err: Error)
    requires Inv(hook, s)
    ensures Inv(hook, Apply(hook, s, Break(err)))
  {
    hide ApplyAll;
  }

  lemma RefetchKeeps(hook: Hook, s: Sys)
    requires Inv(hook, s)
    ensures Inv(hook, Apply(hook, s, Refetch))
  {
    hide ApplyAll;
    assert s.stream.Some? ==> s.log[Delivered(s)..Delivered(s)] == [];
  }

  lemma ReadKeeps(hook: Hook, s: Sys, step: Step)
    requires Inv(hook, s) && (step.ReadGroup? || step.ReadMembers?)
    ensures Inv(hook, Apply(hook, s, step))
  {
    hide ApplyAll;
  }

  /** Replaying what is held over a state that reflects the log up to where holding began. */
  lemma ReplayReaches(hook: Hook, s: Sys, snapshot: State, from: nat)
    requires StreamOk(s) && HeldOk(s) && s.stream.Some? && s.view.held.events.Some? && from <= s.heldFrom
    ensures ApplyAll(hook, ApplyAll(hook, snapshot, s.log[from..s.heldFrom]), s.view.held.events.value) ==
            ApplyAll(hook, snapshot, s.log[from..Delivered(s)])
  {
    hide ApplyAll;
    ApplyMore(hook, snapshot, s.log[from..s.heldFrom], s.view.held.events.value);
    assert s.log[from..Delivered(s)] == s.log[from..s.heldFrom] + s.view.held.events.value;
  }

  lemma FetchesDrop(s: Sys, k: nat)
    requires FetchesOk(s) && k < |s.fetches|
    ensures
      var rest := s.fetches[..k] + s.fetches[k + 1..];
      && (forall i :: 0 <= i < |rest| ==> FetchOk(s, rest[i]) && rest[i].generation != s.fetches[k].generation)
      && (forall i, j :: 0 <= i < j < |rest| ==> rest[i].generation != rest[j].generation)
  {
    var rest := s.fetches[..k] + s.fetches[k + 1..];
    assert forall i :: 0 <= i < |rest| ==> rest[i] == if i < k then s.fetches[i] else s.fetches[i + 1];
  }

  lemma SucceedKeeps(hook: Hook, s: Sys, k: nat, snapshot: State)
    requires Inv(hook, s)
    ensures Inv(hook, Apply(hook, s, Succeed(k, snapshot)))
  {
    hide ApplyAll;
    if k < |s.fetches| {
      FetchesDrop(s, k);
      if s.fetches[k].generation == s.view.generation {
        assert FetchOk(s, s.fetches[k]);
        NothingApplied(hook, snapshot);
        if s.stream.Some? {
          ReplayReaches(hook, s, snapshot, s.heldFrom);
          assert s.log[s.heldFrom..s.heldFrom] == [];
        }
      }
    }
  }

  lemma NothingApplied(hook: Hook, state: State)
    ensures ApplyAll(hook, state, []) == state
  {
  }

  lemma FailKeeps(hook: Hook, s: Sys, k: nat, err: Error)
    requires Inv(hook, s)
    ensures Inv(hook, Apply(hook, s, Fail(k, err)))
  {
    hide ApplyAll;
    if k < |s.fetches| {
      FetchesDrop(s, k);
      if s.fetches[k].generation == s.view.generation {
        assert FetchOk(s, s.fetches[k]);
        NothingApplied(hook, s.view.state);
        if s.base.Some? && s.stream.Some? {
          ReplayReaches(hook, s, s.base.value.snapshot, s.base.value.from.value);
        }
      }
    }
  }

  lemma StepKeeps(hook: Hook, s: Sys, step: Step)
    requires Inv(hook, s)
    ensures Inv(hook, Apply(hook, s, step))
  {
    hide Inv, Apply;
    match step
    case Publish(event) => PublishKeeps(hook, s, event);
    case OpenStream => OpenKeeps(hook, s);
    case Deliver => DeliverKeeps(hook, s);
    case Break(err) => BreakKeeps(hook, s, err);
    case Refetch => RefetchKeeps(hook, s);
    case ReadGroup(_) => ReadKeeps(hook, s, step);
    case ReadMembers(_) => ReadKeeps(hook, s, step);
    case Succeed(k, snapshot) => SucceedKeeps(hook, s, k, snapshot);
    case Fail(k, err) => FailKeeps(hook, s, k, err);
  }

  lemma {:induction false} RunKeeps(hook: Hook, steps: seq<Step>)
    ensures Inv(hook, Run(hook, steps))
  {
    hide Apply;
    if steps != [] {
      RunKeeps(hook, steps[..|steps| - 1]);
      StepKeeps(hook, Run(hook, steps[..|steps| - 1]), steps[|steps| - 1]);
    }
  }

  // ------------------------------------------------------------------
  // What is shown once everything has settled
  // ------------------------------------------------------------------

  /**
   A snapshot is loaded and nothing held; it was read with the stream open, and what it reflects has
   been delivered.
   */
  ghost predicate Settled(s: Sys) {
    && s.base.Some? && s.stream.Some? && s.view.held.events.None?
    && s.stream.value.openedAt <= s.base.value.groupAt <= Delivered(s)
    && s.stream.value.openedAt <= s.base.value.membersAt <= Delivered(s)
  }

  /** The replay leaves no gap after a read exactly when the stream had opened by then. */
  lemma NoGapIff(hook: Hook, steps: seq<Step>)
    requires Run(hook, steps).base.Some? && Run(hook, steps).stream.Some?
    ensures
      var b, openedAt := Run(hook, steps).base.value, Run(hook, steps).stream.value.openedAt;
      && b.from.Some? && openedAt <= b.from.value
      && (b.from.value <= b.groupAt <==> openedAt <= b.groupAt)
      && (b.from.value <= b.membersAt <==> openedAt <= b.membersAt)
  {
    hide Run;
    RunKeeps(hook, steps);
  }

  /** Settled, the state shown is the loaded snapshot with everything from the gapless start replayed. */
  lemma SettledState(hook: Hook, steps: seq<Step>)
    requires Settled(Run(hook, steps))
    ensures
      var s := Run(hook, steps);
      var b := s.base.value;
      && b.from.Some? && b.from.value <= b.groupAt && b.from.value <= b.membersAt && Delivered(s) <= |s.log|
      && s.view.state == ApplyAll(hook, b.snapshot, s.log[b.from.value..Delivered(s)])
  {
    hide Run;
    RunKeeps(hook, steps);
  }

  /**
   Whatever refetches overlapped and whatever events arrived meanwhile: once the events the loaded
   snapshot reflects have been delivered, the roster shown is that of plain sequential application of
   everything delivered.
   */
  lemma SettledRosterIsRight(hook: Hook, start: State, steps: seq<Step>)
    requires OneRowEach(start) && Settled(Run(hook, steps))
    requires
      var s := Run(hook, steps);
      var b := s.base.value;
      b.groupAt <= |s.log| && b.membersAt <= |s.log| && Snapshot(hook, b.snapshot, start, s.log, b.groupAt, b.membersAt)
    ensures
      var s := Run(hook, steps);
      Delivered(s) <= |s.log| && SameRoster(s.view.state, ApplyAll(hook, start, s.log[..Delivered(s)]))
  {
    hide Run, ApplyAll, SameRoster, OneRowEach, ShownBy, CellOf;
    var s := Run(hook, steps);
    SettledState(hook, steps);
    var b := s.base.value;
    var n := Delivered(s);
    var events := s.log[..n];
    assert events[..b.groupAt] == s.log[..b.groupAt] && events[..b.membersAt] == s.log[..b.membersAt];
    assert events[b.from.value..] == s.log[b.from.value..n];
    ReplayConverges(hook, start, b.snapshot, events, b.from.value, b.groupAt, b.membersAt);
  }

  /** The writes delivered since the replay began, and the server it began on. */
  function Replaying(s: Sys, writes: seq<Write>): seq<Write> {
    if s.base.Some? && s.base.value.from.Some? && s.base.value.from.value <= Delivered(s) <= |writes|
    then writes[s.base.value.from.value..Delivered(s)] else []
  }

  function ReplayedOn(s: Sys, server: Server, writes: seq<Write>): Server {
    if s.base.Some? && s.base.value.from.Some? && s.base.value.from.value <= |writes|
    then ServerAfter(server, writes[..s.base.value.from.value]) else server
  }

  /** The log is what a history of writes publishes, and the snapshot is what the server listed of it. */
  ghost predicate OfServer(hook: Hook, s: Sys, server: Server, writes: seq<Write>) {
    && s.log == Events(server, writes) && s.base.Some?
    && s.base.value.groupAt <= |writes| && s.base.value.membersAt <= |writes|
    && Loaded(hook, s.base.value.snapshot, server, writes, s.base.value.groupAt, s.base.value.membersAt)
  }

  /** Settled, the state shown is a listing with the events of the writes around it replayed. */
  lemma SettledReplay(hook: Hook, steps: seq<Step>, server: Server, writes: seq<Write>)
    returns (on: Server, since: seq<Write>, g: nat, m: nat)
    requires Settled(Run(hook, steps)) && OfServer(hook, Run(hook, steps), server, writes)
    ensures on == ReplayedOn(Run(hook, steps), server, writes) && since == Replaying(Run(hook, steps), writes)
    ensures Delivered(Run(hook, steps)) <= |writes| && ServerAfter(server, writes[..Delivered(Run(hook, steps))]) == ServerAfter(on, since)
    ensures g <= |since| && m <= |since| && Loaded(hook, Run(hook, steps).base.value.snapshot, on, since, g, m)
    ensures Run(hook, steps).view.state == ApplyAll(hook, Run(hook, steps).base.value.snapshot, Events(on, since))
  {
    hide Run, ApplyAll, ShownBy, CellOf, ServerAfter, Events, Served, OneRowEach, RowAt;
    var s := Run(hook, steps);
    SettledState(hook, steps);
    var b := s.base.value;
    var f, n := b.from.value, Delivered(s);
    var earlier := writes[..f];
    since := writes[f..n];
    on := ServerAfter(server, earlier);
    g, m := b.groupAt - f, b.membersAt - f;
    assert writes[..n] == earlier + since;
    EventsPrefix(server, writes, n);
    HistorySplit(server, earlier, since);
    assert s.log[f..n] == s.log[..n][f..] == Events(on, since);
    assert writes[..b.groupAt] == earlier + since[..g];
    assert writes[..b.membersAt] == earlier + since[..m];
    HistorySplit(server, earlier, since[..g]);
    HistorySplit(server, earlier, since[..m]);
  }

  /**
   The promise to the caller of an active roster. Once settled it shows, of every user whose row no link
   moved meanwhile, what the server lists after the writes delivered, less the roles a rejoin left out;
   and `useGroup` shows the group as it is then.
   */
  lemma SettledRosterShowsTheServer(hook: Hook, steps: seq<Step>, server: Server, writes: seq<Write>, u: UserId)
    requires IsActiveRoster(hook) && Settled(Run(hook, steps)) && OfServer(hook, Run(hook, steps), server, writes)
    requires Unlinked(hook, ReplayedOn(Run(hook, steps), server, writes), Replaying(Run(hook, steps), writes), u)
    ensures Delivered(Run(hook, steps)) <= |writes|
    ensures
      var s := Run(hook, steps);
      var end := ServerAfter(server, writes[..Delivered(s)]);
      var omitted := Omitted(ReplayedOn(s, server, writes), Replaying(s, writes), u);
      && ShownBy(CellOf(s.view.state, u)) == Less(Followed(hook, end, u), omitted)
      && OmittedOk(hook, RowAt(end, u), omitted)
      && (hook.UseGroup? ==> s.view.state.group == GroupShown(end))
  {
    hide Run, ApplyAll, ShownBy, CellOf, ServerAfter, Events, Omitted, Unlinked, Followed, Loaded, OmittedOk, RowAt, ReplayedOn, Replaying, OfServer, GroupShown;
    var on, since, g, m := SettledReplay(hook, steps, server, writes);
    ReplayShowsTheServer(hook, Run(hook, steps).base.value.snapshot, on, since, g, m, u);
    if hook.UseGroup? {
      ReplayShowsTheGroup(Run(hook, steps).base.value.snapshot, on, since, g, m);
    }
  }

  // ------------------------------------------------------------------
  // What the caller sees on the way
  // ------------------------------------------------------------------

  ghost predicate InFlight(s: Sys) {
    exists k :: 0 <= k < |s.fetches| && s.fetches[k].generation == s.view.generation
  }

  function Refetches(steps: seq<Step>): nat {
    if steps == [] then 0 else Refetches(steps[..|steps| - 1]) + if steps[|steps| - 1].Refetch? then 1 else 0
  }

  /** Loading, and holding events back, exactly while the newest fetch is in flight; loading too before the first. */
  ghost predicate LoadingOk(s: Sys) {
    && (s.view.held.events.Some? <==> InFlight(s)) && (s.view.loading <==> s.view.generation == 0 || InFlight(s))
    && (forall k :: 0 <= k < |s.fetches| ==> 0 < s.fetches[k].generation)
  }

  lemma SettleKeepsLoading(hook: Hook, s: Sys, step: Step)
    requires FetchesOk(s) && LoadingOk(s) && (step.Succeed? || step.Fail?)
    ensures LoadingOk(Apply(hook, s, step)) && Apply(hook, s, step).view.generation == s.view.generation
  {
    hide ApplyAll, FetchesOk;
    if step.k < |s.fetches| {
      InFlightWithout(s, step.k);
      var t := Apply(hook, s, step);
      assert t == s || t.fetches == s.fetches[..step.k] + s.fetches[step.k + 1..];
    }
  }

  lemma ReadKeepsLoading(hook: Hook, s: Sys, step: Step)
    requires LoadingOk(s) && (step.ReadGroup? || step.ReadMembers?)
    ensures LoadingOk(Apply(hook, s, step)) && Apply(hook, s, step).view.generation == s.view.generation
  {
    hide InFlight;
    if step.k < |s.fetches| {
      ReadInFlight(s, Apply(hook, s, step), step.k);
    }
  }

  lemma LoadingKeeps(hook: Hook, s: Sys, step: Step)
    requires FetchesOk(s) && LoadingOk(s)
    ensures LoadingOk(Apply(hook, s, step)) && Apply(hook, s, step).view.generation == s.view.generation + if step.Refetch? then 1 else 0
  {
    hide ApplyEvent, FetchesOk, AfterSucceed, AfterFail;
    var t := Apply(hook, s, step);
    match step
    case Refetch => assert t.fetches[|s.fetches|].generation == t.view.generation;
    case Succeed(_, _) => SettleKeepsLoading(hook, s, step);
    case Fail(_, _) => SettleKeepsLoading(hook, s, step);
    case ReadGroup(_) => ReadKeepsLoading(hook, s, step);
    case ReadMembers(_) => ReadKeepsLoading(hook, s, step);
    case _ =>
  }

  lemma ReadInFlight(s: Sys, t: Sys, k: nat)
    requires k < |s.fetches| && |t.fetches| == |s.fetches| && t.view.generation == s.view.generation
    requires forall i :: 0 <= i < |s.fetches| ==> t.fetches[i].generation == s.fetches[i].generation
    ensures InFlight(s) <==> InFlight(t)
  {
    if InFlight(s) {
      var i :| 0 <= i < |s.fetches| && s.fetches[i].generation == s.view.generation;
      assert t.fetches[i].generation == t.view.generation;
    }
  }

  lemma InFlightWithout(s: Sys, k: nat)
    requires FetchesOk(s) && k < |s.fetches|
    ensures
      var rest := s.fetches[..k] + s.fetches[k + 1..];
      (exists i :: 0 <= i < |rest| && rest[i].generation == s.view.generation) <==>
      InFlight(s) && s.fetches[k].generation != s.view.generation
  {
    var rest := s.fetches[..k] + s.fetches[k + 1..];
    FetchesDrop(s, k);
    if InFlight(s) && s.fetches[k].generation != s.view.generation {
      var i :| 0 <= i < |s.fetches| && s.fetches[i].generation == s.view.generation;
      assert rest[if i < k then i else i - 1] == s.fetches[i];
    }
    if i :| 0 <= i < |rest| && rest[i].generation == s.view.generation {
      assert rest[i] == s.fetches[if i < k then i else i + 1];
    }
  }

  /** In every run the hook is loading, and holds events back, exactly while its newest fetch is in flight; before the first it is loading too. */
  lemma {:induction false} LoadingIff(hook: Hook, steps: seq<Step>)
    ensures
      var s := Run(hook, steps);
      && (s.view.held.events.Some? <==> InFlight(s)) && (s.view.loading <==> s.view.generation == 0 || InFlight(s))
      && s.view.generation == Refetches(steps)
    ensures LoadingOk(Run(hook, steps))
  {
    if steps != [] {
      var init := steps[..|steps| - 1];
      LoadingIff(hook, init);
      RunKeeps(hook, init);
      hide InFlight, Apply;
      LoadingKeeps(hook, Run(hook, init), steps[|steps| - 1]);
    }
  }

  /**
   A fetch that settles leaves the list of those in flight. Unless a newer one has started it ends the
   loading, shows its snapshot, or on an error what was shown, with the held events applied, and reports
   the stream's failure if one came in meanwhile, else its own; an older one changes nothing shown.
   */
  lemma NewestFetchSettles(hook: Hook, steps: seq<Step>, k: nat, snapshot: State, err: Error)
    requires k < |Run(hook, steps).fetches|
    ensures
      var s, failed := Run(hook, steps), Apply(hook, Run(hook, steps), Fail(k, err));
      var f, held := s.fetches[k], s.view.held;
      && failed.fetches == s.fetches[..k] + s.fetches[k + 1..]
      && (f.generation != s.view.generation ==> failed.view == s.view)
      && (f.generation == s.view.generation ==>
            held.events.Some? && failed.view ==
            View(ApplyAll(hook, s.view.state, held.events.value), false, Some(if held.failure.Some? then held.failure.value else err),
                 s.view.generation, Held(None, None)))
    ensures
      var s, loaded := Run(hook, steps), Apply(hook, Run(hook, steps), Succeed(k, snapshot));
      var f, held := s.fetches[k], s.view.held;
      f.membersAt.Some? && (hook.UseMembers? || f.groupAt.Some?) ==>
        && loaded.fetches == s.fetches[..k] + s.fetches[k + 1..]
        && (f.generation != s.view.generation ==> loaded.view == s.view && loaded.base == s.base)
        && (f.generation == s.view.generation ==>
              && held.events.Some?
              && loaded.view == View(ApplyAll(hook, snapshot, held.events.value), false, held.failure, s.view.generation, Held(None, None))
              && loaded.base.Some? && loaded.base.value.snapshot == snapshot && loaded.base.value.membersAt == f.membersAt.value
              && loaded.base.value.groupAt == (if hook.UseGroup? then f.groupAt.value else f.membersAt.value))
  {
    RunKeeps(hook, steps);
    var s := Run(hook, steps);
    hide Run, ApplyAll;
    assert FetchOk(s, s.fetches[k]);
  }

  /** A refetch shows loading and no error at once; `useMembers` empties its list, `useGroup` keeps showing the old one. */
  lemma RefetchStarts(hook: Hook, s: Sys)
    ensures
      var t := Apply(hook, s, Refetch);
      && t.view.loading && t.view.error == None && t.view.generation == s.view.generation + 1 && t.view.held.events.Some?
      && t.view.state == (if hook.UseMembers? then State(None, []) else s.view.state)
      && t.fetches == s.fetches + [Fetch(s.view.generation + 1, None, None)] && t.base == (if hook.UseMembers? then None else s.base)
      && (s.view.held.events.Some? ==> t.view.held == s.view.held) && t.view.held.failure == s.view.held.failure
  {
  }

  /** A stream breaks once: its failure is shown at once when nothing is held, else kept back, the first one alone. */
  lemma StreamBreaksOnce(hook: Hook, s: Sys, err: Error)
    ensures
      var t := Apply(hook, s, Break(err));
      if s.stream.Some? && !s.stream.value.broken then
        && t.stream == Some(s.stream.value.(broken := true)) && t.view.state == s.view.state && t.view.held.events == s.view.held.events
        && (s.view.held.events.None? ==> t.view.error == Some(err) && t.view.held.failure == s.view.held.failure)
        && (s.view.held.events.Some? ==>
              t.view.error == s.view.error && t.view.held.failure == Some(if s.view.held.failure.Some? then s.view.held.failure.value else err))
      else t == s
  {
  }

  function Deliveries(n: nat): seq<Step> {
    if n == 0 then [] else Deliveries(n - 1) + [Deliver]
  }

  /** What `n` more deliveries do: the events are applied, or held back, in the order of the log. */
  ghost predicate BroughtOn(hook: Hook, s: Sys, t: Sys, n: nat)
    requires s.stream.Some? && Delivered(s) + n <= |s.log|
  {
    var events := s.log[Delivered(s)..Delivered(s) + n];
    && t.log == s.log && t.fetches == s.fetches && t.base == s.base
    && t.stream == Some(s.stream.value.(delivered := s.stream.value.delivered + n))
    && (s.view.held.events.None? ==> t.view == s.view.(state := ApplyAll(hook, s.view.state, events)))
    && (s.view.held.events.Some? ==> t.view == s.view.(held := s.view.held.(events := Some(s.view.held.events.value + events))))
  }

  lemma BroughtNext(hook: Hook, s: Sys, t: Sys, n: nat)
    requires s.stream.Some? && !s.stream.value.broken && Delivered(s) + n < |s.log| && BroughtOn(hook, s, t, n)
    ensures BroughtOn(hook, s, Apply(hook, t, Deliver), n + 1)
  {
    hide ApplyEvent, ApplyAll, Apply;
    DeliverOne(hook, t);
    var d := Delivered(s);
    assert s.log[d..d + (n + 1)] == s.log[d..d + n] + [s.log[d + n]];
    if s.view.held.events.Some? {
      var held := s.view.held.events.value;
      assert held + s.log[d..d + (n + 1)] == held + s.log[d..d + n] + [s.log[d + n]];
    } else {
      OneMore(hook, s.view.state, s.log[d..d + n], s.log[d + n]);
    }
  }

  lemma BroughtNothing(hook: Hook, s: Sys)
    requires s.stream.Some? && Delivered(s) <= |s.log|
    ensures BroughtOn(hook, s, s, 0)
  {
    assert s.log[Delivered(s)..Delivered(s) + 0] == [];
    assert s.view.held.events.Some? ==> s.view.held.events.value + [] == s.view.held.events.value;
    NothingApplied(hook, s.view.state);
  }

  /** An unbroken stream brings the hook everything published, and with it the state that follows from it. */
  lemma {:induction false} DeliveriesReachTheEnd(hook: Hook, steps: seq<Step>, n: nat)
    requires Run(hook, steps).stream.Some? && !Run(hook, steps).stream.value.broken
    requires Delivered(Run(hook, steps)) + n <= |Run(hook, steps).log|
    ensures BroughtOn(hook, Run(hook, steps), Run(hook, steps + Deliveries(n)), n)
  {
    hide Run, BroughtOn, Apply;
    var s := Run(hook, steps);
    if n == 0 {
      assert steps + Deliveries(0) == steps;
      BroughtNothing(hook, s);
    } else {
      DeliveriesReachTheEnd(hook, steps, n - 1);
      assert steps + Deliveries(n) == steps + Deliveries(n - 1) + [Deliver];
      Extend(hook, steps + Deliveries(n - 1), Deliver);
      BroughtNext(hook, s, Run(hook, steps + Deliveries(n - 1)), n - 1);
    }
  }

  lemma OneMore(hook: Hook, state: State, events: seq<Event>, event: Event)
    ensures ApplyAll(hook, state, events + [event]) == ApplyEvent(hook, ApplyAll(hook, state, events), event)
  {
    assert (events + [event])[..|events + [event]| - 1] == events;
  }

  lemma DeliverOne(hook: Hook, s: Sys)
    requires s.stream.Some? && !s.stream.value.broken && Delivered(s) < |s.log|
    ensures
      var t := Apply(hook, s, Deliver);
      && t.log == s.log && t.fetches == s.fetches && t.base == s.base
      && t.stream == Some(s.stream.value.(delivered := s.stream.value.delivered + 1))
      && (s.view.held.events.None? ==> t.view == s.view.(state := ApplyEvent(hook, s.view.state, s.log[Delivered(s)])))
      && (s.view.held.events.Some? ==> t.view == s.view.(held := s.view.held.(events := Some(s.view.held.events.value + [s.log[Delivered(s)]]))))
  {
    hide ApplyEvent;
  }

  // ------------------------------------------------------------------
  // Reading before the stream is open
  // ------------------------------------------------------------------

  /** No fetch is in flight, nothing held, the row missing, and no join of the user still to be delivered. */
  ghost predicate Missing(s: Sys, u: UserId) {
    && s.fetches == [] && s.view.held.events.None? && s.stream.Some?
    && OneRowEach(s.view.state) && CellOf(s.view.state, u).row.None?
    && forall i :: Delivered(s) <= i < |s.log| ==> !JoinOf(s.log[i], u)
  }

  predicate JoinOf(event: Event, u: UserId) {
    event.MemberJoined? && event.member.userId == u
  }

  lemma OnlyAJoinLists(hook: Hook, state: State, event: Event, u: UserId)
    requires OneRowEach(state) && CellOf(state, u).row.None? && !JoinOf(event, u)
    ensures OneRowEach(ApplyEvent(hook, state, event)) && CellOf(ApplyEvent(hook, state, event), u).row.None?
  {
    hide CellOf, OneRowEach, ApplyEvent;
    EventOnCells(hook, state, event, u);
  }

  lemma MissingStep(hook: Hook, s: Sys, step: Step, u: UserId)
    requires Missing(s, u) && !step.Refetch? && (step.Publish? ==> !JoinOf(step.event, u))
    ensures Missing(Apply(hook, s, step), u)
  {
    hide CellOf, OneRowEach, ApplyEvent, JoinOf;
    if step.Deliver? && !s.stream.value.broken && Delivered(s) < |s.log| {
      OnlyAJoinLists(hook, s.view.state, s.log[Delivered(s)], u);
    }
  }

  /** A row that is missing stays so until the user joins again or the caller refetches. */
  lemma {:induction false} MissingStays(hook: Hook, steps: seq<Step>, more: seq<Step>, u: UserId)
    requires Missing(Run(hook, steps), u)
    requires forall i :: 0 <= i < |more| ==>
               !more[i].Refetch? && !(more[i].Publish? && more[i].event.MemberJoined? && more[i].event.member.userId == u)
    ensures Missing(Run(hook, steps + more), u)
  {
    hide Missing, Apply;
    if more == [] {
      assert steps + more == steps;
    } else {
      MissingStays(hook, steps, more[..|more| - 1], u);
      Extend(hook, steps + more[..|more| - 1], more[|more| - 1]);
      assert steps + more == steps + more[..|more| - 1] + [more[|more| - 1]];
      MissingStep(hook, Run(hook, steps + more[..|more| - 1]), more[|more| - 1], u);
    }
  }

  lemma Extend(hook: Hook, steps: seq<Step>, step: Step)
    ensures Run(hook, steps + [step]) == Apply(hook, Run(hook, steps), step)
  {
    assert (steps + [step])[..|steps|] == steps;
  }

  function LateStreamRun(joined: Member): seq<Step> {
    [Refetch] + [ReadGroup(0)] + [ReadMembers(0)] + [Succeed(0, State(None, []))] + [Publish(MemberJoined(joined))] + [OpenStream]
  }

  /** The stream's handshake finishes after the snapshot is read; the join in between is in neither. */
  lemma LateStreamState(joined: Member)
    ensures
      Run(UseGroup, LateStreamRun(joined)) ==
      Sys([MemberJoined(joined)], View(State(None, []), false, None, 1, Held(None, None)), Some(Stream(1, 1, false)), [], 1,
          Some(Base(State(None, []), 0, 0, Some(1))))
  {
    var none := State(None, []);
    var s1 := [Refetch];
    var s2 := s1 + [ReadGroup(0)];
    var s3 := s2 + [ReadMembers(0)];
    var s4 := s3 + [Succeed(0, none)];
    var s5 := s4 + [Publish(MemberJoined(joined))];
    Extend(UseGroup, [], Refetch);
    assert [] + [Refetch] == s1;
    Extend(UseGroup, s1, ReadGroup(0));
    Extend(UseGroup, s2, ReadMembers(0));
    var read := Sys([], View(none, true, None, 1, Held(Some([]), None)), None, [Fetch(1, Some(0), Some(0))], 0, None);
    assert Run(UseGroup, s3) == read;
    Extend(UseGroup, s3, Succeed(0, none));
    var loaded := Sys([], View(none, false, None, 1, Held(None, None)), None, [], 0, Some(Base(none, 0, 0, None)));
    assert Run(UseGroup, s4) == loaded;
    Extend(UseGroup, s4, Publish(MemberJoined(joined)));
    Extend(UseGroup, s5, OpenStream);
    assert [] + [MemberJoined(joined)] == [MemberJoined(joined)];
  }

  /**
   A member who joins between the snapshot and the stream's opening is missing from then on, whatever
   follows, until the caller refetches or the member joins once more.
   */
  lemma LateStreamLosesAJoin(joined: Member, more: seq<Step>)
    requires forall i :: 0 <= i < |more| ==>
               !more[i].Refetch? && !(more[i].Publish? && more[i].event.MemberJoined? && more[i].event.member.userId == joined.userId)
    ensures
      var s := Run(UseGroup, LateStreamRun(joined) + more);
      CellOf(s.view.state, joined.userId).row.None? && s.fetches == [] && s.stream.Some?
    ensures ApplyAll(UseGroup, State(None, []), Run(UseGroup, LateStreamRun(joined)).log).members == [joined]
  {
    hide Run, LateStreamRun;
    LateStreamState(joined);
    assert Missing(Run(UseGroup, LateStreamRun(joined)), joined.userId);
    MissingStays(UseGroup, LateStreamRun(joined), more, joined.userId);
    assert [MemberJoined(joined)][..0] == [];
  }
}
