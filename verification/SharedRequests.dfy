/**
 Concurrent identical requests collapsed into one (packages/sdk/src/sharedRequest.ts): callers join,
 leave on their own signal or timeout, and share whatever the request settles with.
 */
module SharedRequests {
  import opened Common

  datatype Outcome = Success(value: string) | Failure(error: string)

  datatype Ending = Cancelled | TimedOut

  /** `results` counts the calls of `onResult`; `detached` marks a request taken off the map unsettled. */
  datatype Request = Request(key: string, waiters: int, settled: Option<Outcome>, aborted: bool, detached: bool, results: nat)

  datatype Status = Waiting | Answered(outcome: Outcome) | Left(ending: Ending)

  /** `limited` callers brought a signal or a timeout; the others wait for the request itself. */
  datatype Caller = Caller(request: nat, limited: bool, status: Status)

  datatype State = State(entries: map<string, nat>, requests: seq<Request>, callers: seq<Caller>)

  const START := State(map[], [], [])

  // ------------------------------------------------------------------
  // The callbacks
  // ------------------------------------------------------------------

  /** Joins the registered request, or starts and registers a new one. */
  function AfterJoin(s: State, key: string, limited: bool): State {
    if key in s.entries && s.entries[key] < |s.requests| then
      var r := s.entries[key];
      s.(requests := s.requests[r := s.requests[r].(waiters := s.requests[r].waiters + 1)],
         callers := s.callers + [Caller(r, limited, Waiting)])
    else
      State(s.entries[key := |s.requests|], s.requests + [Request(key, 1, None, false, false, 0)],
            s.callers + [Caller(|s.requests|, limited, Waiting)])
  }

  predicate Registered(s: State, r: nat) {
    r < |s.requests| && s.requests[r].key in s.entries && s.entries[s.requests[r].key] == r
  }

  predicate CanLeave(s: State, c: nat) {
    c < |s.callers| && s.callers[c].limited && s.callers[c].status == Waiting && s.callers[c].request < |s.requests|
  }

  /** A caller stops waiting; the last one out of an unsettled request takes it off the map and aborts it. */
  function AfterLeave(s: State, c: nat, ending: Ending): State {
    if !CanLeave(s, c) then s
    else
      var r := s.callers[c].request;
      var q := s.requests[r].(waiters := s.requests[r].waiters - 1);
      var left := s.(callers := s.callers[c := s.callers[c].(status := Left(ending))]);
      if q.waiters == 0 && q.settled.None? then
        left.(entries := if Registered(s, r) then s.entries - {q.key} else s.entries,
              requests := s.requests[r := q.(aborted := true, detached := true)])
      else left.(requests := s.requests[r := q])
  }

  /** The request settles: if still registered it is taken off the map, and a success is reported once. */
  function AfterSettle(s: State, r: nat, outcome: Outcome): State {
    if |s.requests| <= r || s.requests[r].settled.Some? then s
    else
      var q := s.requests[r].(settled := Some(outcome));
      if Registered(s, r) then
        s.(entries := s.entries - {q.key}, requests := s.requests[r := if outcome.Success? then q.(results := q.results + 1) else q])
      else s.(requests := s.requests[r := q])
  }

  predicate CanDeliver(s: State, c: nat) {
    c < |s.callers| && s.callers[c].status == Waiting && s.callers[c].request < |s.requests|
    && s.requests[s.callers[c].request].settled.Some?
  }

  /** A settled request's outcome reaches one caller. */
  function AfterDeliver(s: State, c: nat): State {
    if !CanDeliver(s, c) then s
    else s.(callers := s.callers[c := s.callers[c].(status := Answered(s.requests[s.callers[c].request].settled.value))])
  }

  function DetachedAll(s: State): seq<Request> {
    seq(|s.requests|, r requires 0 <= r < |s.requests| => if Registered(s, r) then s.requests[r].(detached := true) else s.requests[r])
  }

  function AfterForget(s: State): State {
    s.(entries := map[], requests := DetachedAll(s))
  }

  class Sharing {
    var entries: map<string, nat>
    var requests: seq<Request>
    var callers: seq<Caller>

    function View(): State
      reads this
    {
      State(entries, requests, callers)
    }

    constructor ()
      ensures View() == START
    {
      entries, requests, callers := map[], [], [];
    }

    /** A caller whose signal is already aborted joins and leaves at once. */
    method Run(key: string, limited: bool, alreadyAborted: bool) returns (caller: nat)
      requires alreadyAborted ==> limited
      modifies this
      ensures caller == |old(callers)|
      ensures View() == if alreadyAborted then AfterLeave(AfterJoin(old(View()), key, limited), caller, Cancelled)
                        else AfterJoin(old(View()), key, limited)
    {
      var r: nat;
      if key in entries && entries[key] < |requests| {
        r := entries[key];
        requests := requests[r := requests[r].(waiters := requests[r].waiters + 1)];
      } else {
        r := |requests|;
        entries, requests := entries[key := r], requests + [Request(key, 1, None, false, false, 0)];
      }
      caller := |callers|;
      callers := callers + [Caller(r, limited, Waiting)];
      if alreadyAborted {
        Leave(caller, Cancelled);
      }
    }

    method Leave(c: nat, ending: Ending)
      modifies this
      ensures View() == AfterLeave(old(View()), c, ending)
    {
      if !CanLeave(View(), c) {
        return;
      }
      var r := callers[c].request;
      callers := callers[c := callers[c].(status := Left(ending))];
      var q := requests[r].(waiters := requests[r].waiters - 1);
      if q.waiters == 0 && q.settled.None? {
        if q.key in entries && entries[q.key] == r {
          entries := entries - {q.key};
        }
        q := q.(aborted := true, detached := true);
      }
      requests := requests[r := q];
    }

    method Settle(r: nat, outcome: Outcome)
      modifies this
      ensures View() == AfterSettle(old(View()), r, outcome)
    {
      if |requests| <= r || requests[r].settled.Some? {
        return;
      }
      var q := requests[r].(settled := Some(outcome));
      if q.key in entries && entries[q.key] == r {
        entries := entries - {q.key};
        if outcome.Success? {
          q := q.(results := q.results + 1);
        }
      }
      requests := requests[r := q];
    }

    method Deliver(c: nat)
      modifies this
      ensures View() == AfterDeliver(old(View()), c)
    {
      if CanDeliver(View(), c) {
        callers := callers[c := callers[c].(status := Answered(requests[callers[c].request].settled.value))];
      }
    }

    method Forget()
      modifies this
      ensures View() == AfterForget(old(View()))
    {
      requests := DetachedAll(View());
      entries := map[];
    }
  }

  // ------------------------------------------------------------------
  // Every interleaving
  // ------------------------------------------------------------------

  datatype Step =
    | Join(key: string, limited: bool)
    | Leave(c: nat, ending: Ending)
    | Settle(r: nat, outcome: Outcome)
    | Deliver(c: nat)
    | Forget

  function Apply(s: State, step: Step): State {
    match step
    case Join(key, limited) => AfterJoin(s, key, limited)
    case Leave(c, ending) => AfterLeave(s, c, ending)
    case Settle(r, outcome) => AfterSettle(s, r, outcome)
    case Deliver(c) => AfterDeliver(s, c)
    case Forget => AfterForget(s)
  }

  function Run(steps: seq<Step>): State {
    if steps == [] then START else Apply(Run(steps[..|steps| - 1]), steps[|steps| - 1])
  }

  /** The callers of a request that have not left. */
  function Staying(callers: seq<Caller>, r: nat): nat {
    if callers == [] then 0
    else
      Staying(callers[..|callers| - 1], r) +
      if callers[|callers| - 1].request == r && !callers[|callers| - 1].status.Left? then 1 else 0
  }

  ghost predicate EntriesOk(s: State) {
    forall k :: k in s.entries ==> s.entries[k] < |s.requests| && s.requests[s.entries[k]].key == k
  }

  ghost predicate OnMap(s: State, r: nat)
    requires r < |s.requests|
  {
    Registered(s, r) <==> s.requests[r].settled.None? && !s.requests[r].detached
  }

  /** A request is on the map exactly while it is neither settled nor detached. */
  ghost predicate MapOk(s: State) {
    && EntriesOk(s)
    && (forall r: nat :: r < |s.requests| ==> OnMap(s, r))
  }

  ghost predicate RequestOk(q: Request) {
    && q.results == (if q.settled.Some? && q.settled.value.Success? && !q.detached then 1 else 0)
    && (q.aborted ==> q.detached && q.waiters == 0)
    && (q.settled.None? && q.waiters == 0 ==> q.aborted)
  }

  ghost predicate RequestsOk(s: State) {
    forall r :: 0 <= r < |s.requests| ==> RequestOk(s.requests[r])
  }

  ghost predicate WaitersOk(s: State) {
    && (forall c :: 0 <= c < |s.callers| ==> s.callers[c].request < |s.requests|)
    && (forall r: nat :: r < |s.requests| ==> s.requests[r].waiters == Staying(s.callers, r))
  }

  /** What a caller was answered is what its request settled with. */
  ghost predicate AnswersOk(s: State) {
    forall c :: 0 <= c < |s.callers| && s.callers[c].status.Answered? ==>
      && s.callers[c].request < |s.requests|
      && s.requests[s.callers[c].request].settled == Some(s.callers[c].status.outcome)
  }

  ghost predicate Inv(s: State) {
    MapOk(s) && RequestsOk(s) && WaitersOk(s) && AnswersOk(s)
  }

  lemma EntriesKeep(s: State, step: Step)
    requires EntriesOk(s)
    ensures EntriesOk(Apply(s, step))
  {
  }

  lemma JoinKeepsMap(s: State, key: string, limited: bool, r: nat)
    requires MapOk(s) && r < |AfterJoin(s, key, limited).requests|
    ensures OnMap(AfterJoin(s, key, limited), r)
  {
    if r < |s.requests| {
      assert OnMap(s, r);
    }
  }

  lemma LeaveKeepsMap(s: State, c: nat, ending: Ending, r: nat)
    requires MapOk(s) && r < |AfterLeave(s, c, ending).requests|
    ensures OnMap(AfterLeave(s, c, ending), r)
  {
    assert OnMap(s, r);
  }

  lemma SettleKeepsMap(s: State, x: nat, outcome: Outcome, r: nat)
    requires MapOk(s) && r < |AfterSettle(s, x, outcome).requests|
    ensures OnMap(AfterSettle(s, x, outcome), r)
  {
    assert OnMap(s, r);
  }

  lemma MapKeeps(s: State, step: Step)
    requires MapOk(s)
    ensures MapOk(Apply(s, step))
  {
    hide AfterJoin, AfterLeave, AfterSettle;
    EntriesKeep(s, step);
    var after := Apply(s, step);
    forall r: nat | r < |after.requests|
      ensures OnMap(after, r)
    {
      match step
      case Join(key, limited) => JoinKeepsMap(s, key, limited, r);
      case Leave(c, ending) => LeaveKeepsMap(s, c, ending, r);
      case Settle(x, outcome) => SettleKeepsMap(s, x, outcome, r);
      case _ => assert OnMap(s, r);
    }
  }

  /** A caller still waiting on a request keeps it from being aborted. */
  lemma {:induction false} StayingCounts(callers: seq<Caller>, c: nat)
    requires c < |callers| && !callers[c].status.Left?
    ensures 0 < Staying(callers, callers[c].request)
  {
    if c < |callers| - 1 {
      StayingCounts(callers[..|callers| - 1], c);
    }
  }

  lemma RequestsKeep(s: State, step: Step)
    requires MapOk(s) && RequestsOk(s) && WaitersOk(s)
    ensures RequestsOk(Apply(s, step))
  {
    hide Staying;
    if step.Leave? && CanLeave(s, step.c) {
      StayingCounts(s.callers, step.c);
    }
    assert forall r: nat :: r < |s.requests| ==> OnMap(s, r) && RequestOk(s.requests[r]);
  }

  lemma {:induction false} StayingOthers(callers: seq<Caller>, r: nat)
    requires forall c :: 0 <= c < |callers| ==> callers[c].request != r
    ensures Staying(callers, r) == 0
  {
    if callers != [] {
      StayingOthers(callers[..|callers| - 1], r);
    }
  }

  lemma {:induction false} StayingUpdate(callers: seq<Caller>, c: nat, status: Status, r: nat)
    requires c < |callers| && !callers[c].status.Left?
    ensures Staying(callers[c := callers[c].(status := status)], r) ==
            Staying(callers, r) - (if callers[c].request == r && status.Left? then 1 else 0)
  {
    var after := callers[c := callers[c].(status := status)];
    if c == |callers| - 1 {
      assert after[..|after| - 1] == callers[..|callers| - 1];
    } else {
      assert after[..|after| - 1] == callers[..|callers| - 1][c := callers[c].(status := status)];
      StayingUpdate(callers[..|callers| - 1], c, status, r);
    }
  }

  lemma JoinKeepsWaiters(s: State, key: string, limited: bool)
    requires MapOk(s) && WaitersOk(s)
    ensures WaitersOk(AfterJoin(s, key, limited))
  {
    var after := AfterJoin(s, key, limited);
    assert after.callers[..|after.callers| - 1] == s.callers;
    StayingOthers(s.callers, |s.requests|);
  }

  lemma StatusKeepsWaiters(s: State, c: nat, status: Status)
    requires WaitersOk(s) && c < |s.callers| && !s.callers[c].status.Left?
    ensures forall r: nat :: r < |s.requests| ==>
              Staying(s.callers[c := s.callers[c].(status := status)], r) ==
              s.requests[r].waiters - (if s.callers[c].request == r && status.Left? then 1 else 0)
  {
    forall r: nat | r < |s.requests|
      ensures Staying(s.callers[c := s.callers[c].(status := status)], r) ==
              s.requests[r].waiters - (if s.callers[c].request == r && status.Left? then 1 else 0)
    {
      StayingUpdate(s.callers, c, status, r);
    }
  }

  lemma WaitersKeep(s: State, step: Step)
    requires MapOk(s) && WaitersOk(s)
    ensures WaitersOk(Apply(s, step))
  {
    hide MapOk, Staying;
    match step
    case Join(key, limited) => JoinKeepsWaiters(s, key, limited);
    case Leave(c, ending) =>
      if CanLeave(s, c) {
        StatusKeepsWaiters(s, c, Left(ending));
      }
    case Deliver(c) =>
      if CanDeliver(s, c) {
        StatusKeepsWaiters(s, c, Answered(s.requests[s.callers[c].request].settled.value));
      }
    case _ =>
  }

  lemma AnswersKeep(s: State, step: Step)
    requires AnswersOk(s)
    ensures AnswersOk(Apply(s, step))
  {
  }

  lemma StepKeeps(s: State, step: Step)
    requires Inv(s)
    ensures Inv(Apply(s, step))
  {
    hide Apply, MapOk, RequestsOk, WaitersOk, AnswersOk;
    MapKeeps(s, step);
    RequestsKeep(s, step);
    WaitersKeep(s, step);
    AnswersKeep(s, step);
  }

  lemma {:induction false} RunKeeps(steps: seq<Step>)
    ensures Inv(Run(steps))
  {
    hide Apply;
    if steps != [] {
      RunKeeps(steps[..|steps| - 1]);
      StepKeeps(Run(steps[..|steps| - 1]), steps[|steps| - 1]);
    }
  }

  // ------------------------------------------------------------------
  // What callers can rely on
  // ------------------------------------------------------------------

  /** At most one unsettled, undetached request exists per key, and it is the registered one. */
  lemma OneRequestPerKey(steps: seq<Step>, a: nat, b: nat)
    requires
      var s := Run(steps);
      && a < |s.requests| && b < |s.requests| && s.requests[a].key == s.requests[b].key
      && s.requests[a].settled.None? && !s.requests[a].detached && s.requests[b].settled.None? && !s.requests[b].detached
    ensures a == b
  {
    RunKeeps(steps);
    assert OnMap(Run(steps), a) && OnMap(Run(steps), b);
  }

  /** Nobody ever joins a request that has settled or been aborted. */
  lemma NobodyJoinsADeadRequest(steps: seq<Step>, key: string, limited: bool)
    ensures
      var before, after := Run(steps), Apply(Run(steps), Join(key, limited));
      var r := after.callers[|after.callers| - 1].request;
      && |after.callers| == |before.callers| + 1 && r < |after.requests| && after.requests[r].key == key
      && after.requests[r].settled.None? && !after.requests[r].aborted
      && (r < |before.requests| ==> before.requests[r].settled.None? && !before.requests[r].aborted)
  {
    RunKeeps(steps);
    var s := Run(steps);
    if key in s.entries {
      assert OnMap(s, s.entries[key]) && RequestOk(s.requests[s.entries[key]]);
    }
  }

  /** A request is aborted only while unsettled, by the last of its callers to leave. */
  lemma AbortedOnlyWhenAbandoned(steps: seq<Step>, step: Step, r: nat, c: nat)
    requires
      var before, after := Run(steps), Apply(Run(steps), step);
      && r < |before.requests| && !before.requests[r].aborted && after.requests[r].aborted
      && c < |after.callers| && after.callers[c].request == r
    ensures Run(steps).requests[r].settled.None? && Apply(Run(steps), step).callers[c].status.Left?
  {
    RunKeeps(steps);
    StepKeeps(Run(steps), step);
    AbortNeedsLeave(Run(steps), step, r);
    var after := Apply(Run(steps), step);
    assert RequestOk(after.requests[r]);
    if !after.callers[c].status.Left? {
      StayingCounts(after.callers, c);
    }
  }

  lemma {:induction false} StayingNone(callers: seq<Caller>, r: nat)
    requires forall c :: 0 <= c < |callers| && callers[c].request == r ==> callers[c].status.Left?
    ensures Staying(callers, r) == 0
  {
    if callers != [] {
      StayingNone(callers[..|callers| - 1], r);
    }
  }

  /** In every run an unsettled request has been aborted exactly when all who joined it have left. */
  lemma AbortedIffAbandoned(steps: seq<Step>, r: nat)
    requires r < |Run(steps).requests| && Run(steps).requests[r].settled.None?
    ensures
      var s := Run(steps);
      s.requests[r].aborted <==> forall c :: 0 <= c < |s.callers| && s.callers[c].request == r ==> s.callers[c].status.Left?
  {
    RunKeeps(steps);
    var s := Run(steps);
    assert RequestOk(s.requests[r]);
    if forall c :: 0 <= c < |s.callers| && s.callers[c].request == r ==> s.callers[c].status.Left? {
      StayingNone(s.callers, r);
    } else {
      var c :| 0 <= c < |s.callers| && s.callers[c].request == r && !s.callers[c].status.Left?;
      StayingCounts(s.callers, c);
    }
  }

  lemma AbortNeedsLeave(s: State, step: Step, r: nat)
    requires r < |s.requests| && !s.requests[r].aborted && r < |Apply(s, step).requests| && Apply(s, step).requests[r].aborted
    ensures s.requests[r].settled.None?
  {
  }

  /** A caller is answered once, with what its request settled with, and never after leaving. */
  lemma EachCallerIsAnsweredOnce(steps: seq<Step>, step: Step, c: nat)
    requires c < |Run(steps).callers|
    ensures
      var before, after := Run(steps), Apply(Run(steps), step);
      && c < |after.callers| && after.callers[c].request == before.callers[c].request < |after.requests|
      && (!before.callers[c].status.Waiting? ==> after.callers[c].status == before.callers[c].status)
      && (after.callers[c].status.Answered? ==>
            after.requests[after.callers[c].request].settled == Some(after.callers[c].status.outcome))
      && (after.callers[c].status.Left? ==> after.callers[c].limited)
      && (before.callers[c].status.Waiting? ==>
            after.callers[c].status ==
            if step.Leave? && step.c == c && before.callers[c].limited then Left(step.ending)
            else if step == Deliver(c) && before.requests[before.callers[c].request].settled.Some? then
              Answered(before.requests[before.callers[c].request].settled.value)
            else Waiting)
  {
    RunKeeps(steps);
    StepKeeps(Run(steps), step);
    LeftAreLimited(steps);
    StatusMoves(Run(steps), step, c);
  }

  lemma StatusMoves(s: State, step: Step, c: nat)
    requires c < |s.callers|
    ensures
      var after := Apply(s, step);
      && c < |after.callers| && after.callers[c].request == s.callers[c].request && after.callers[c].limited == s.callers[c].limited
      && (!s.callers[c].status.Waiting? ==> after.callers[c].status == s.callers[c].status)
      && (after.callers[c].status.Left? && s.callers[c].status.Waiting? ==> s.callers[c].limited)
      && (s.callers[c].status.Waiting? && s.callers[c].request < |s.requests| ==>
            after.callers[c].status ==
            if step.Leave? && step.c == c && s.callers[c].limited then Left(step.ending)
            else if step == Deliver(c) && s.requests[s.callers[c].request].settled.Some? then
              Answered(s.requests[s.callers[c].request].settled.value)
            else Waiting)
  {
  }

  /** A request settles once, with the outcome it got then. */
  lemma SettlesOnce(s: State, step: Step, r: nat)
    requires r < |s.requests|
    ensures r < |Apply(s, step).requests|
    ensures
      var before, after := s.requests[r].settled, Apply(s, step).requests[r].settled;
      after == if before.None? && step.Settle? && step.r == r then Some(step.outcome) else before
  {
  }

  lemma {:induction false} LeftAreLimited(steps: seq<Step>)
    ensures forall c :: 0 <= c < |Run(steps).callers| && Run(steps).callers[c].status.Left? ==> Run(steps).callers[c].limited
  {
    hide Apply;
    if steps != [] {
      var s := Run(steps[..|steps| - 1]);
      var after := Apply(s, steps[|steps| - 1]);
      LeftAreLimited(steps[..|steps| - 1]);
      forall c | 0 <= c < |after.callers| && after.callers[c].status.Left?
        ensures after.callers[c].limited
      {
        if c < |s.callers| {
          StatusMoves(s, steps[|steps| - 1], c);
        } else {
          JoinersWait(s, steps[|steps| - 1], c);
        }
      }
    }
  }

  lemma JoinersWait(s: State, step: Step, c: nat)
    requires |s.callers| <= c < |Apply(s, step).callers|
    ensures Apply(s, step).callers[c].status == Waiting
  {
  }

  function Deliveries(n: nat): seq<Step> {
    if n == 0 then [] else Deliveries(n - 1) + [Deliver(n - 1)]
  }

  /** What a caller's status is once its request's outcome, if it has one, has reached it. */
  function Reached(s: State, c: nat): Status
    requires c < |s.callers| && s.callers[c].request < |s.requests|
  {
    var settled := s.requests[s.callers[c].request].settled;
    if s.callers[c].status.Waiting? && settled.Some? then Answered(settled.value) else s.callers[c].status
  }

  /** Only the first `n` callers have been reached. */
  ghost predicate ReachedUpTo(s: State, t: State, n: nat) {
    && t.requests == s.requests && t.entries == s.entries && |t.callers| == |s.callers|
    && (forall c: nat :: c < |s.callers| ==> s.callers[c].request < |s.requests|)
    && (forall c: nat :: c < |s.callers| ==>
          t.callers[c] == s.callers[c].(status := if c < n then Reached(s, c) else s.callers[c].status))
  }

  lemma ReachOne(s: State, t: State, n: nat)
    requires ReachedUpTo(s, t, n) && n < |s.callers|
    ensures ReachedUpTo(s, Apply(t, Deliver(n)), n + 1)
  {
  }

  lemma CallersPlaced(s: State)
    requires Inv(s)
    ensures ReachedUpTo(s, s, 0)
  {
  }

  /**
   No one is forgotten: in every run, deliveries alone bring every caller still waiting on a settled
   request that request's outcome, and change nothing else.
   */
  lemma {:induction false} EveryWaiterIsReached(steps: seq<Step>, n: nat)
    requires n <= |Run(steps).callers|
    ensures ReachedUpTo(Run(steps), Run(steps + Deliveries(n)), n)
  {
    hide Run, ReachedUpTo, Apply, Inv;
    if n == 0 {
      RunKeeps(steps);
      CallersPlaced(Run(steps));
      assert steps + Deliveries(0) == steps;
    } else {
      EveryWaiterIsReached(steps, n - 1);
      Extend(steps + Deliveries(n - 1), Deliver(n - 1));
      assert steps + Deliveries(n) == steps + Deliveries(n - 1) + [Deliver(n - 1)];
      ReachOne(Run(steps), Run(steps + Deliveries(n - 1)), n - 1);
    }
  }

  lemma Extend(steps: seq<Step>, step: Step)
    ensures Run(steps + [step]) == Apply(Run(steps), step)
  {
    assert (steps + [step])[..|steps|] == steps;
  }

  /** `onResult` has run once for each request that succeeded while attached, and for no other. */
  lemma ResultsAreReportedOnce(steps: seq<Step>, r: nat)
    requires r < |Run(steps).requests|
    ensures
      var q := Run(steps).requests[r];
      q.results == if q.settled.Some? && q.settled.value.Success? && !q.detached then 1 else 0
  {
    RunKeeps(steps);
    assert RequestOk(Run(steps).requests[r]);
  }
}
