/**
 `Idempotency-Key` handling (packages/server/src/idempotency.ts): one stored record per key, claimed,
 taken over when stale, completed and released by conditional statements that concurrent requests
 interleave. Every statement is one atomic step; between two statements of a request anything else
 may happen.
 */
module Idempotency {
  import opened Common

  const ABANDON: nat := 300000
  const RETENTION: nat := 86400000
  const ATTEMPTS: nat := 3

  // ------------------------------------------------------------------
  // Storing and replaying a response
  // ------------------------------------------------------------------

  datatype Response = Response(status: nat, body: string, headers: map<string, string>)

  /** The nullable response columns of a record. */
  datatype Stored = Stored(status: Option<nat>, body: Option<string>, headers: map<string, string>)

  /** What goes on the wire; no body at all for a null-body status. */
  datatype Reply = Reply(status: nat, body: Option<string>, headers: map<string, string>)

  const NOTHING_STORED := Stored(None, None, map[])

  predicate IsReplayedHeader(name: string) {
    name == "content-type" || name == "etag"
  }

  function StoreOf(response: Response): Stored {
    Stored(Some(response.status), Some(response.body),
           map name | name in response.headers && IsReplayedHeader(name) :: response.headers[name])
  }

  function Replay(stored: Stored): Reply {
    var status := if stored.status.Some? then stored.status.value else 200;
    var body := if status == 204 || status == 304 then None
                else Some(if stored.body.Some? then stored.body.value else "");
    var kept := map name | name in stored.headers && IsReplayedHeader(name) :: stored.headers[name];
    Reply(status, body, kept["idempotent-replayed" := "true"])
  }

  /** A replay repeats the first answer: status, body unless the status forbids one, both kept headers. */
  lemma ReplayRepeatsTheAnswer(response: Response)
    ensures
      var sent := Replay(StoreOf(response));
      && sent.status == response.status
      && (sent.body == None <==> response.status in {204, 304})
      && (sent.body.Some? ==> sent.body.value == response.body)
      && (forall name :: name in sent.headers <==>
            name == "idempotent-replayed" || (name in response.headers && (name == "content-type" || name == "etag")))
      && sent.headers["idempotent-replayed"] == "true"
      && (forall name :: name in sent.headers && (name == "content-type" || name == "etag") ==> sent.headers[name] == response.headers[name])
  {
    assert !IsReplayedHeader("idempotent-replayed") by {
      assert |"idempotent-replayed"| != |"content-type"| && |"idempotent-replayed"| != |"etag"|;
    }
  }

  // ------------------------------------------------------------------
  // The record and its conditional statements
  // ------------------------------------------------------------------

  /** `owner` names the request whose claim the row holds; no statement reads it. */
  datatype Record = Record(fingerprint: string, completed: bool, response: Stored, createdAt: nat, owner: nat)

  /** Expired for any state, or in progress for so long that its request must have died. */
  predicate Stale(at: nat, record: Record) {
    record.createdAt + RETENTION <= at || (!record.completed && record.createdAt + ABANDON <= at)
  }

  function Claim(fingerprint: string, at: nat, owner: nat): Record {
    Record(fingerprint, false, NOTHING_STORED, at, owner)
  }

  predicate Matches(row: Option<Record>, createdAt: nat, completed: bool) {
    row.Some? && row.value.createdAt == createdAt && row.value.completed == completed
  }

  function Inserted(row: Option<Record>, claim: Record): Option<Record> {
    if row.None? then Some(claim) else row
  }

  function Taken(row: Option<Record>, seen: Record, claim: Record): Option<Record> {
    if Matches(row, seen.createdAt, seen.completed) then Some(claim) else row
  }

  function Completed(row: Option<Record>, claimedAt: nat, response: Response): Option<Record> {
    if Matches(row, claimedAt, false) then Some(row.value.(completed := true, response := StoreOf(response))) else row
  }

  function Released(row: Option<Record>, claimedAt: nat): Option<Record> {
    if Matches(row, claimedAt, false) then None else row
  }

  function Swept(row: Option<Record>, now: nat): Option<Record> {
    if row.Some? && row.value.createdAt + RETENTION < now then None else row
  }

  /** The table row of one (API key, idempotency key) pair, with the count each statement reports. */
  class RecordRow {
    var row: Option<Record>

    constructor ()
      ensures row == None
    {
      row := None;
    }

    method CreateMany(claim: Record) returns (count: nat)
      modifies this
      ensures row == Inserted(old(row), claim)
      ensures count == if old(row).None? then 1 else 0
      ensures row == if count == 1 then Some(claim) else old(row)
    {
      if row.None? {
        row := Some(claim);
        return 1;
      }
      return 0;
    }

    method TakeStale(seen: Record, claim: Record) returns (count: nat)
      modifies this
      ensures row == Taken(old(row), seen, claim)
      ensures count == if old(row).Some? && old(row).value.createdAt == seen.createdAt && old(row).value.completed == seen.completed then 1 else 0
      ensures row == if count == 1 then Some(claim) else old(row)
    {
      if row.Some? && row.value.createdAt == seen.createdAt && row.value.completed == seen.completed {
        row := Some(claim);
        return 1;
      }
      return 0;
    }

    method Complete(claimedAt: nat, response: Response)
      modifies this
      ensures row == Completed(old(row), claimedAt, response)
    {
      if row.Some? && row.value.createdAt == claimedAt && !row.value.completed {
        row := Some(row.value.(completed := true, response := StoreOf(response)));
      }
    }

    method Release(claimedAt: nat)
      modifies this
      ensures row == Released(old(row), claimedAt)
    {
      if row.Some? && row.value.createdAt == claimedAt && !row.value.completed {
        row := None;
      }
    }

    method Sweep(now: nat) returns (count: nat)
      modifies this
      ensures row == Swept(old(row), now)
      ensures count == if old(row).Some? && 86400000 < now - old(row).value.createdAt then 1 else 0
      ensures row == if count == 1 then None else old(row)
    {
      if row.Some? && row.value.createdAt + RETENTION < now {
        row := None;
        return 1;
      }
      return 0;
    }
  }

  // ------------------------------------------------------------------
  // Requests
  // ------------------------------------------------------------------

  /** Where a request for the key stands; `Running` means its handler has been entered, by an insert or by a takeover. */
  datatype Phase =
    | Inserting(attempt: nat)
    | Finding(attempt: nat)
    | Taking(attempt: nat, seen: Record)
    | Running(wroteAt: nat, order: nat, taken: bool)
    | Finished(response: Response)
    | Dropped
    | KeyReused
    | KeyInProgress
    | Replayed(sent: Reply, source: nat)

  datatype Request = Request(fingerprint: string, at: nat, phase: Phase)

  /**
   `starts` counts the claims ever won, `wins` lists the claim times ever taken over in order, and
   `stored` holds the claim times whose record was ever completed.
   */
  datatype State = State(now: nat, row: Option<Record>, requests: seq<Request>, starts: nat, wins: seq<nat>, stored: set<nat>)

  datatype Step =
    | Tick(ms: nat)
    | Arrive(fingerprint: string)
    | Insert(i: nat)
    | Find(i: nat)
    | Take(i: nat)
    | Return(i: nat, response: Response, unmatched: bool, written: bool)
    | Throw(i: nat, written: bool)
    | Die(i: nat)
    | SweepOld

  const START := State(0, None, [], 0, [], {})

  function To(s: State, i: nat, phase: Phase): State
    requires i < |s.requests|
  {
    s.(requests := s.requests[i := s.requests[i].(phase := phase)])
  }

  function NextAttempt(attempt: nat): Phase {
    if attempt + 1 < ATTEMPTS then Inserting(attempt + 1) else KeyInProgress
  }

  function AfterInsert(s: State, i: nat): State
    requires i < |s.requests| && s.requests[i].phase.Inserting?
  {
    var r := s.requests[i];
    if s.row.None? then
      To(s, i, Running(s.now, s.starts, false)).(row := Inserted(s.row, Claim(r.fingerprint, r.at, i)), starts := s.starts + 1)
    else To(s, i, Finding(r.phase.attempt))
  }

  function AfterFind(s: State, i: nat): State
    requires i < |s.requests| && s.requests[i].phase.Finding?
  {
    var r := s.requests[i];
    if s.row.None? then To(s, i, NextAttempt(r.phase.attempt))
    else
      var existing := s.row.value;
      if Stale(r.at, existing) then To(s, i, Taking(r.phase.attempt, existing))
      else if existing.fingerprint != r.fingerprint then To(s, i, KeyReused)
      else if !existing.completed then To(s, i, KeyInProgress)
      else To(s, i, Replayed(Replay(existing.response), existing.owner))
  }

  function AfterTake(s: State, i: nat): State
    requires i < |s.requests| && s.requests[i].phase.Taking?
  {
    var r := s.requests[i];
    var seen := r.phase.seen;
    if Matches(s.row, seen.createdAt, seen.completed) then
      To(s, i, Running(s.now, s.starts, true)).(row := Taken(s.row, seen, Claim(r.fingerprint, r.at, i)), starts := s.starts + 1,
                                          wins := s.wins + [seen.createdAt])
    else To(s, i, NextAttempt(r.phase.attempt))
  }

  /** The release in the `finally` block; a failed delete is only logged. */
  function AfterDrop(s: State, i: nat, written: bool): State
    requires i < |s.requests| && s.requests[i].phase.Running?
  {
    To(s, i, Dropped).(row := if written then Released(s.row, s.requests[i].at) else s.row)
  }

  /** The handler answered: below 500 on a matched route the answer is stored, else the claim is released. */
  function AfterReturn(s: State, i: nat, response: Response, unmatched: bool, written: bool): State
    requires i < |s.requests| && s.requests[i].phase.Running?
  {
    if 500 <= response.status || unmatched then AfterDrop(s, i, written)
    else
      var at := s.requests[i].at;
      To(s, i, Finished(response)).(row := if written then Completed(s.row, at, response) else s.row,
                                    stored := if written && Matches(s.row, at, false) then s.stored + {at} else s.stored)
  }

  predicate At(s: State, i: nat) {
    i < |s.requests|
  }

  /** A step whose request is elsewhere changes nothing. */
  function Apply(s: State, step: Step): State {
    match step
    case Tick(d) => s.(now := s.now + d)
    case Arrive(f) => s.(requests := s.requests + [Request(f, s.now, Inserting(0))])
    case Insert(i) => if At(s, i) && s.requests[i].phase.Inserting? then AfterInsert(s, i) else s
    case Find(i) => if At(s, i) && s.requests[i].phase.Finding? then AfterFind(s, i) else s
    case Take(i) => if At(s, i) && s.requests[i].phase.Taking? then AfterTake(s, i) else s
    case Return(i, response, unmatched, written) =>
      if At(s, i) && s.requests[i].phase.Running? then AfterReturn(s, i, response, unmatched, written) else s
    case Throw(i, written) => if At(s, i) && s.requests[i].phase.Running? then AfterDrop(s, i, written) else s
    case Die(i) => if At(s, i) && s.requests[i].phase.Running? then To(s, i, Dropped) else s
    case SweepOld => s.(row := Swept(s.row, s.now))
  }

  function Run(steps: seq<Step>): State {
    if steps == [] then START else Apply(Run(steps[..|steps| - 1]), steps[|steps| - 1])
  }

  /** An insert that lands does so less than the abandon window after its request read the clock. */
  predicate TimelyStep(s: State, step: Step) {
    step.Insert? && At(s, step.i) && s.requests[step.i].phase.Inserting? && s.row.None? ==>
      s.now < s.requests[step.i].at + ABANDON
  }

  predicate Timely(steps: seq<Step>) {
    steps != [] ==> Timely(steps[..|steps| - 1]) && TimelyStep(Run(steps[..|steps| - 1]), steps[|steps| - 1])
  }

  // ------------------------------------------------------------------
  // What every step keeps
  // ------------------------------------------------------------------

  ghost predicate Claimed(phase: Phase) {
    phase.Running? || phase.Finished? || phase.Dropped?
  }

  ghost predicate RunningAt(s: State, i: nat) {
    i < |s.requests| && s.requests[i].phase.Running?
  }

  /** The row holds the claim of request `i`. */
  ghost predicate Owns(s: State, i: nat) {
    s.row.Some? && s.row.value.owner == i
  }

  /** The row is its owner's claim, and once completed its owner's stored answer. */
  ghost predicate OwnerOk(s: State) {
    s.row.Some? ==>
      var row := s.row.value;
      && row.owner < |s.requests|
      && s.requests[row.owner].at == row.createdAt
      && s.requests[row.owner].fingerprint == row.fingerprint
      && Claimed(s.requests[row.owner].phase)
      && (row.completed ==> s.requests[row.owner].phase.Finished? && row.response == StoreOf(s.requests[row.owner].phase.response))
  }

  ghost predicate TimesOk(s: State) {
    && (forall i :: 0 <= i < |s.requests| ==> s.requests[i].at <= s.now)
    && (forall i: nat :: RunningAt(s, i) ==> s.requests[i].phase.order < s.starts)
  }

  ghost predicate TakersOk(s: State) {
    forall i :: 0 <= i < |s.requests| && s.requests[i].phase.Taking? ==> Stale(s.requests[i].at, s.requests[i].phase.seen)
  }

  /** A claim time left behind: the abandon window after it is over and any present claim is later. */
  ghost predicate Behind(s: State, at: nat) {
    at + ABANDON <= s.now && (s.row.Some? ==> at < s.row.value.createdAt)
  }

  /** A handler whose claim the row no longer holds is left behind. */
  ghost predicate LostOk(s: State) {
    forall i: nat :: RunningAt(s, i) && !Owns(s, i) ==> Behind(s, s.requests[i].at)
  }

  ghost predicate WinsOk(s: State) {
    && (forall k :: 0 <= k < |s.wins| ==> Behind(s, s.wins[k]))
    && (forall j, k :: 0 <= j < k < |s.wins| ==> s.wins[j] < s.wins[k])
  }

  ghost predicate StoredOk(s: State) {
    forall at :: at in s.stored ==> Matches(s.row, at, true) || at + RETENTION <= s.now
  }

  /**
   Handlers running at once: the one started later read its clock later and was written after the
   window; if it started by a takeover it also read its clock after the window.
   */
  ghost predicate Spaced(earlier: Request, later: Request)
    requires later.phase.Running?
  {
    && earlier.at < later.at && earlier.at + ABANDON <= later.phase.wroteAt
    && (later.phase.taken ==> earlier.at + ABANDON <= later.at)
  }

  ghost predicate OverlapOk(s: State) {
    forall i: nat, j: nat :: RunningAt(s, i) && RunningAt(s, j) && i != j ==>
      && s.requests[i].phase.order != s.requests[j].phase.order
      && (s.requests[i].phase.order < s.requests[j].phase.order ==> Spaced(s.requests[i], s.requests[j]))
  }

  ghost predicate RepliesOk(s: State) {
    forall i :: 0 <= i < |s.requests| && s.requests[i].phase.Replayed? ==> ReplyOk(s, s.requests[i])
  }

  ghost predicate ReplyOk(s: State, r: Request)
    requires r.phase.Replayed?
  {
    && r.phase.source < |s.requests|
    && s.requests[r.phase.source].fingerprint == r.fingerprint
    && s.requests[r.phase.source].phase.Finished?
    && r.phase.sent == Replay(StoreOf(s.requests[r.phase.source].phase.response))
  }

  ghost predicate Inv(s: State) {
    && OwnerOk(s) && TimesOk(s) && TakersOk(s) && LostOk(s)
    && WinsOk(s) && StoredOk(s) && OverlapOk(s) && RepliesOk(s)
  }

  lemma OwnerKeeps(s: State, step: Step)
    requires OwnerOk(s) && LostOk(s)
    ensures OwnerOk(Apply(s, step))
  {
  }

  lemma TimesKeep(s: State, step: Step)
    requires TimesOk(s)
    ensures TimesOk(Apply(s, step))
  {
  }

  lemma TakersKeep(s: State, step: Step)
    requires TakersOk(s)
    ensures TakersOk(Apply(s, step))
  {
  }

  lemma LostKeeps(s: State, step: Step)
    requires OwnerOk(s) && TimesOk(s) && TakersOk(s) && LostOk(s) && TimelyStep(s, step)
    ensures LostOk(Apply(s, step))
  {
  }

  lemma WinsKeep(s: State, step: Step)
    requires TimesOk(s) && TakersOk(s) && WinsOk(s) && TimelyStep(s, step)
    ensures WinsOk(Apply(s, step))
  {
  }

  lemma StoredKeeps(s: State, step: Step)
    requires TimesOk(s) && TakersOk(s) && StoredOk(s)
    ensures StoredOk(Apply(s, step))
  {
  }

  lemma OverlapShrinks(s: State, t: State)
    requires OverlapOk(s)
    requires forall i: nat :: RunningAt(t, i) ==> RunningAt(s, i) && t.requests[i] == s.requests[i]
    ensures OverlapOk(t)
  {
  }

  /** A handler that starts is spaced from every handler still running. */
  lemma OverlapGrows(s: State, t: State, k: nat)
    requires OverlapOk(s) && TimesOk(s) && k < |s.requests|
    requires |t.requests| == |s.requests| && RunningAt(t, k) && t.requests[k].phase.order == s.starts
    requires forall i: nat :: i < |s.requests| && i != k ==> t.requests[i] == s.requests[i]
    requires forall i: nat :: RunningAt(s, i) && i != k ==> Spaced(s.requests[i], t.requests[k])
    ensures OverlapOk(t)
  {
  }

  lemma InsertSpaces(s: State, k: nat)
    requires OwnerOk(s) && LostOk(s) && TimelyStep(s, Insert(k))
    requires At(s, k) && s.requests[k].phase.Inserting? && s.row.None?
    ensures
      var t := Apply(s, Insert(k));
      && |t.requests| == |s.requests| && RunningAt(t, k) && t.requests[k].phase.order == s.starts
      && (forall i: nat :: i < |s.requests| && i != k ==> t.requests[i] == s.requests[i])
      && (forall i: nat :: RunningAt(s, i) && i != k ==> Spaced(s.requests[i], t.requests[k]))
  {
  }

  lemma TakeSpaces(s: State, k: nat)
    requires OwnerOk(s) && TimesOk(s) && TakersOk(s) && LostOk(s)
    requires At(s, k) && s.requests[k].phase.Taking?
    requires Matches(s.row, s.requests[k].phase.seen.createdAt, s.requests[k].phase.seen.completed)
    ensures
      var t := Apply(s, Take(k));
      && |t.requests| == |s.requests| && RunningAt(t, k) && t.requests[k].phase.order == s.starts
      && (forall i: nat :: i < |s.requests| && i != k ==> t.requests[i] == s.requests[i])
      && (forall i: nat :: RunningAt(s, i) && i != k ==> Spaced(s.requests[i], t.requests[k]))
  {
  }

  /** The two statements that let a handler start. */
  predicate Starts(s: State, step: Step) {
    || (step.Insert? && At(s, step.i) && s.requests[step.i].phase.Inserting? && s.row.None?)
    || (step.Take? && At(s, step.i) && s.requests[step.i].phase.Taking? &&
        Matches(s.row, s.requests[step.i].phase.seen.createdAt, s.requests[step.i].phase.seen.completed))
  }

  lemma OnlyThoseStart(s: State, step: Step)
    requires !Starts(s, step)
    ensures forall i: nat :: RunningAt(Apply(s, step), i) ==> RunningAt(s, i) && Apply(s, step).requests[i] == s.requests[i]
  {
  }

  lemma OverlapKeeps(s: State, step: Step)
    requires OwnerOk(s) && TimesOk(s) && TakersOk(s) && LostOk(s) && OverlapOk(s) && TimelyStep(s, step)
    ensures OverlapOk(Apply(s, step))
  {
    hide OwnerOk, TimesOk, TakersOk, LostOk, OverlapOk, TimelyStep, Apply, Spaced;
    if !Starts(s, step) {
      OnlyThoseStart(s, step);
      OverlapShrinks(s, Apply(s, step));
    } else if step.Insert? {
      InsertSpaces(s, step.i);
      OverlapGrows(s, Apply(s, step), step.i);
    } else {
      TakeSpaces(s, step.i);
      OverlapGrows(s, Apply(s, step), step.i);
    }
  }

  /** Nothing changes a request again once it is answered. */
  lemma AnswersStay(s: State, step: Step)
    ensures |s.requests| <= |Apply(s, step).requests|
    ensures forall i :: 0 <= i < |s.requests| && (s.requests[i].phase.Finished? || s.requests[i].phase.Replayed?) ==>
              Apply(s, step).requests[i] == s.requests[i]
  {
  }

  /** Only a find answers with a replay, and it replays the row. */
  lemma NewReplies(s: State, step: Step, i: nat)
    requires OwnerOk(s) && At(Apply(s, step), i) && Apply(s, step).requests[i].phase.Replayed?
    requires !(At(s, i) && s.requests[i].phase.Replayed?)
    ensures ReplyOk(Apply(s, step), Apply(s, step).requests[i])
  {
    assert step == Find(i);
  }

  lemma RepliesKeep(s: State, step: Step)
    requires OwnerOk(s) && RepliesOk(s)
    ensures RepliesOk(Apply(s, step))
  {
    hide OwnerOk, Apply;
    AnswersStay(s, step);
    forall i | 0 <= i < |Apply(s, step).requests| && Apply(s, step).requests[i].phase.Replayed?
      ensures ReplyOk(Apply(s, step), Apply(s, step).requests[i])
    {
      if At(s, i) && s.requests[i].phase.Replayed? {
        assert ReplyOk(s, s.requests[i]);
      } else {
        NewReplies(s, step, i);
      }
    }
  }

  lemma StepKeeps(s: State, step: Step)
    requires Inv(s) && TimelyStep(s, step)
    ensures Inv(Apply(s, step))
  {
    hide OwnerOk, TimesOk, TakersOk, LostOk, WinsOk, StoredOk, OverlapOk, RepliesOk, TimelyStep, Apply;
    OwnerKeeps(s, step);
    TimesKeep(s, step);
    TakersKeep(s, step);
    LostKeeps(s, step);
    WinsKeep(s, step);
    StoredKeeps(s, step);
    OverlapKeeps(s, step);
    RepliesKeep(s, step);
  }

  lemma {:induction false} RunKeeps(steps: seq<Step>)
    requires Timely(steps)
    ensures Inv(Run(steps))
  {
    hide Apply, TimelyStep;
    if steps != [] {
      RunKeeps(steps[..|steps| - 1]);
      StepKeeps(Run(steps[..|steps| - 1]), steps[|steps| - 1]);
    }
  }

  // ------------------------------------------------------------------
  // What holds over every timely run
  // ------------------------------------------------------------------

  /** Of the requests racing to take over one claim at most one ever wins: no claim time is taken twice. */
  lemma EachClaimIsTakenOnce(steps: seq<Step>)
    requires Timely(steps)
    ensures forall j, k :: 0 <= j < k < |Run(steps).wins| ==> Run(steps).wins[j] < Run(steps).wins[k]
  {
    RunKeeps(steps);
  }

  /** The first of the racers to write wins, and every other one that saw the same claim then loses. */
  lemma OneTakerWins(s: State, first: nat, second: nat)
    requires Inv(s) && first != second
    requires At(s, first) && s.requests[first].phase.Taking? && At(s, second) && s.requests[second].phase.Taking?
    requires s.requests[first].phase.seen == s.requests[second].phase.seen
    requires s.row == Some(s.requests[first].phase.seen)
    ensures
      var once := Apply(s, Take(first));
      var twice := Apply(once, Take(second));
      && RunningAt(once, first) && Owns(once, first) && once.wins == s.wins + [s.requests[first].phase.seen.createdAt]
      && twice.row == once.row && twice.requests[second].phase == NextAttempt(s.requests[second].phase.attempt)
  {
  }

  /** Whatever a handler's end writes, it does not touch a row that is no longer its own claim. */
  lemma LoserNeverWrites(steps: seq<Step>, step: Step)
    requires Timely(steps) && (step.Return? || step.Throw? || step.Die?)
    requires RunningAt(Run(steps), step.i) && !Owns(Run(steps), step.i)
    ensures Apply(Run(steps), step).row == Run(steps).row && Apply(Run(steps), step).stored == Run(steps).stored
  {
    RunKeeps(steps);
    LoserStep(Run(steps), step);
  }

  lemma LoserStep(s: State, step: Step)
    requires LostOk(s) && (step.Return? || step.Throw? || step.Die?)
    requires RunningAt(s, step.i) && !Owns(s, step.i)
    ensures Apply(s, step).row == s.row && Apply(s, step).stored == s.stored
  {
    assert Behind(s, s.requests[step.i].at);
  }

  /**
   Handlers overlap only when the later claim was written at least the abandon window after the
   earlier request read the clock.
   */
  lemma OverlapsAreSpaced(steps: seq<Step>, i: nat, j: nat)
    requires Timely(steps) && i != j && RunningAt(Run(steps), i) && RunningAt(Run(steps), j)
    ensures Spaced(Run(steps).requests[i], Run(steps).requests[j]) || Spaced(Run(steps).requests[j], Run(steps).requests[i])
  {
    RunKeeps(steps);
  }

  /**
   Measured between clock readings: of two handlers running at once, one that started by a takeover
   read its clock at least the abandon window after the one it joined. Only a handler that started by
   inserting into an emptied row can have read its clock sooner.
   */
  lemma TakeoversAreSpaced(steps: seq<Step>, i: nat, j: nat)
    requires Timely(steps) && i != j && RunningAt(Run(steps), i) && RunningAt(Run(steps), j)
    requires Run(steps).requests[i].phase.order < Run(steps).requests[j].phase.order
    ensures Run(steps).requests[j].phase.taken ==> Run(steps).requests[i].at + ABANDON <= Run(steps).requests[j].at
    ensures Run(steps).requests[j].at < Run(steps).requests[i].at + ABANDON ==> !Run(steps).requests[j].phase.taken
  {
    RunKeeps(steps);
  }

  /** While a completed claim is within the retention window, no step starts a handler. */
  lemma NoStartAfterStored(steps: seq<Step>, step: Step, createdAt: nat, i: nat)
    requires Timely(steps) && createdAt in Run(steps).stored && Run(steps).now < createdAt + RETENTION
    requires RunningAt(Apply(Run(steps), step), i)
    ensures RunningAt(Run(steps), i)
  {
    RunKeeps(steps);
    StoredBlocks(Run(steps), step, createdAt, i);
  }

  lemma StoredBlocks(s: State, step: Step, createdAt: nat, i: nat)
    requires TimesOk(s) && TakersOk(s) && StoredOk(s) && createdAt in s.stored && s.now < createdAt + RETENTION
    requires RunningAt(Apply(s, step), i)
    ensures RunningAt(s, i)
  {
    assert Matches(s.row, createdAt, true);
  }

  /** A replay repeats the answer of a request for the same key that sent the same fingerprint. */
  lemma ReplaysMatch(steps: seq<Step>, i: nat)
    requires Timely(steps) && At(Run(steps), i) && Run(steps).requests[i].phase.Replayed?
    ensures ReplyOk(Run(steps), Run(steps).requests[i])
  {
    RunKeeps(steps);
  }

  // ------------------------------------------------------------------
  // Which answers are kept
  // ------------------------------------------------------------------

  /** Whatever is finished, stored or replayed has a status below 500. */
  ghost predicate KeepsNoFailure(s: State) {
    && (s.row.Some? && s.row.value.completed ==> s.row.value.response.status.Some? && s.row.value.response.status.value < 500)
    && (forall i :: 0 <= i < |s.requests| && s.requests[i].phase.Finished? ==> s.requests[i].phase.response.status < 500)
    && (forall i :: 0 <= i < |s.requests| && s.requests[i].phase.Replayed? ==> s.requests[i].phase.sent.status < 500)
  }

  /** In every run, however late its inserts, no answer of 500 or more is ever stored or replayed. */
  lemma {:induction false} FailuresAreNeverKept(steps: seq<Step>)
    ensures KeepsNoFailure(Run(steps))
  {
    if steps != [] {
      FailuresAreNeverKept(steps[..|steps| - 1]);
      hide Run;
      StepKeepsNoFailure(Run(steps[..|steps| - 1]), steps[|steps| - 1]);
    }
  }

  lemma StepKeepsNoFailure(s: State, step: Step)
    requires KeepsNoFailure(s)
    ensures KeepsNoFailure(Apply(s, step))
  {
  }

  /**
   What a handler that still holds the key leaves: a matched answer below 500 completes the record with
   that answer; any other end, once its delete succeeds, leaves no record, so that a retry runs again;
   and a failed write leaves the claim in progress.
   */
  lemma EndOfTheOwner(steps: seq<Step>, step: Step)
    requires Timely(steps) && (step.Return? || step.Throw?)
    requires RunningAt(Run(steps), step.i) && Owns(Run(steps), step.i)
    ensures
      var s, after := Run(steps), Apply(Run(steps), step);
      var keeps := step.Return? && step.response.status < 500 && !step.unmatched;
      && (after.requests[step.i].phase == if keeps then Finished(step.response) else Dropped)
      && (step.written && keeps ==> after.row.Some? && after.row.value == s.row.value.(completed := true, response := StoreOf(step.response)))
      && (step.written && !keeps ==> after.row == None)
      && (!step.written ==> after.row == s.row && !s.row.value.completed)
      && after.stored == if step.written && keeps then s.stored + {s.requests[step.i].at} else s.stored
  {
    RunKeeps(steps);
    hide Run;
    OwnerIsInProgress(Run(steps), step.i);
  }

  /** A process that dies leaves its claim as it was, in progress until it counts as abandoned. */
  lemma DeathLeavesTheClaim(s: State, i: nat)
    requires RunningAt(s, i)
    ensures Apply(s, Die(i)) == s.(requests := s.requests[i := s.requests[i].(phase := Dropped)])
  {
  }

  lemma OwnerIsInProgress(s: State, i: nat)
    requires OwnerOk(s) && RunningAt(s, i) && Owns(s, i)
    ensures Matches(s.row, s.requests[i].at, false)
  {
  }

  /**
   What a retry that finds a record gets. Within five minutes of an unfinished claim, or a day of a
   completed one: a conflict when its fingerprint differs, "in progress" while the first request has not
   finished, and else a replay of the answer that request got. After that it goes on to take the record over.
   */
  lemma RetryOutcome(steps: seq<Step>, i: nat)
    requires Timely(steps) && At(Run(steps), i) && Run(steps).requests[i].phase.Finding? && Run(steps).row.Some?
    ensures
      var s, record := Run(steps), Run(steps).row.value;
      At(s, record.owner) && (record.completed ==> s.requests[record.owner].phase.Finished?)
    ensures
      var s, record := Run(steps), Run(steps).row.value;
      var r, first := s.requests[i], s.requests[record.owner];
      var recent := r.at < record.createdAt + if record.completed then 86400000 else 300000;
      && Apply(s, Find(i)).row == s.row
      && Apply(s, Find(i)).requests[i].phase ==
         if !recent then Taking(r.phase.attempt, record)
         else if record.fingerprint != r.fingerprint then KeyReused
         else if !record.completed then KeyInProgress
         else Replayed(Replay(StoreOf(first.phase.response)), record.owner)
  {
    RunKeeps(steps);
  }

  ghost predicate AttemptOf(phase: Phase, n: nat) {
    match phase
    case Inserting(a) => a == n
    case Finding(a) => a == n
    case Taking(a, _) => a == n
    case _ => false
  }

  lemma {:induction false} AttemptsAreFew(steps: seq<Step>)
    ensures forall i, n :: 0 <= i < |Run(steps).requests| && AttemptOf(Run(steps).requests[i].phase, n) ==> n < 3
  {
    if steps != [] {
      AttemptsAreFew(steps[..|steps| - 1]);
    }
  }

  /**
   A request whose round is lost, to a record that went or to another taker, tries again at the insert;
   one that loses its third round is told "in progress".
   */
  lemma ThreeRounds(steps: seq<Step>, step: Step, i: nat, n: nat)
    requires At(Run(steps), i) && AttemptOf(Run(steps).requests[i].phase, n)
    requires
      var s := Run(steps);
      || (step == Find(i) && s.requests[i].phase.Finding? && s.row == None)
      || (step == Take(i) && s.requests[i].phase.Taking? && (s.row == None || s.row.value.createdAt != s.requests[i].phase.seen.createdAt
                                                             || s.row.value.completed != s.requests[i].phase.seen.completed))
    ensures
      var s, after := Run(steps), Apply(Run(steps), step);
      && n < 3 && after.row == s.row && after.starts == s.starts
      && after.requests[i].phase == if n < 2 then Inserting(n + 1) else KeyInProgress
  {
    AttemptsAreFew(steps);
  }

  // ------------------------------------------------------------------
  // Where the bounds are tight
  // ------------------------------------------------------------------

  lemma Extend(steps: seq<Step>, step: Step)
    ensures Run(steps + [step]) == Apply(Run(steps), step)
    ensures Timely(steps + [step]) <==> Timely(steps) && TimelyStep(Run(steps), step)
  {
    assert (steps + [step])[..|steps|] == steps;
  }

  /** Request 0 starts at once, 1 reads the clock at `wait`, and 2 arrives when the claim of 0 is abandoned. */
  function WaitingRun(wait: nat): seq<Step>
    requires wait <= ABANDON
  {
    [Arrive("a")] + [Insert(0)] + [Tick(wait)] + [Arrive("b")] + [Tick(ABANDON - wait)] + [Arrive("c")]
  }

  lemma WaitingState(wait: nat)
    requires wait <= ABANDON
    ensures Timely(WaitingRun(wait))
    ensures
      Run(WaitingRun(wait)) ==
      State(ABANDON, Some(Claim("a", 0, 0)),
            [Request("a", 0, Running(0, 0, false)), Request("b", wait, Inserting(0)), Request("c", ABANDON, Inserting(0))], 1, [], {})
  {
    var s1 := [] + [Arrive("a")];
    var s2 := s1 + [Insert(0)];
    var s3 := s2 + [Tick(wait)];
    var s4 := s3 + [Arrive("b")];
    var s5 := s4 + [Tick(ABANDON - wait)];
    Extend([], Arrive("a"));
    assert Run(s1) == State(0, None, [Request("a", 0, Inserting(0))], 0, [], {});
    Extend(s1, Insert(0));
    assert Run(s2) == State(0, Some(Claim("a", 0, 0)), [Request("a", 0, Running(0, 0, false))], 1, [], {});
    Extend(s2, Tick(wait));
    Extend(s3, Arrive("b"));
    Extend(s4, Tick(ABANDON - wait));
    Extend(s5, Arrive("c"));
  }

  /** Request 2 takes the claim over and fails; request 1 inserts into the empty row. */
  function LateInsertRun(wait: nat): seq<Step>
    requires wait <= ABANDON
  {
    WaitingRun(wait) + [Insert(2)] + [Find(2)] + [Take(2)] + [Throw(2, true)] + [Insert(1)]
  }

  lemma LateInsertState(wait: nat)
    requires wait <= ABANDON
    ensures Timely(LateInsertRun(wait)) <==> 0 < wait
    ensures
      Run(LateInsertRun(wait)) ==
      State(ABANDON, Some(Claim("b", wait, 1)),
            [Request("a", 0, Running(0, 0, false)), Request("b", wait, Running(ABANDON, 2, false)), Request("c", ABANDON, Dropped)], 3, [0], {})
  {
    hide WaitingRun;
    var s0 := WaitingRun(wait);
    var s1 := s0 + [Insert(2)];
    var s2 := s1 + [Find(2)];
    var s3 := s2 + [Take(2)];
    var s4 := s3 + [Throw(2, true)];
    WaitingState(wait);
    Extend(s0, Insert(2));
    Extend(s1, Find(2));
    assert Run(s2).requests[2].phase == Taking(0, Claim("a", 0, 0));
    Extend(s2, Take(2));
    Extend(s3, Throw(2, true));
    Extend(s4, Insert(1));
  }

  /** Two handlers run at once, the later one reading its clock `gap` after the earlier, started as `taken` says. */
  ghost predicate OverlapAt(steps: seq<Step>, i: nat, j: nat, taken: bool, gap: int) {
    var s := Run(steps);
    && Timely(steps) && i != j && RunningAt(s, i) && RunningAt(s, j) && s.requests[i].phase.order < s.requests[j].phase.order
    && s.requests[j].phase.taken == taken && s.requests[j].at - s.requests[i].at == gap
  }

  /** Request 0 starts at once and never ends; request 1 reads the clock `gap` later and takes its claim over. */
  function TakeoverRun(gap: nat): seq<Step> {
    [Arrive("a")] + [Insert(0)] + [Tick(gap)] + [Arrive("b")] + [Insert(1)] + [Find(1)] + [Take(1)]
  }

  lemma TakeoverState(gap: nat)
    requires ABANDON <= gap
    ensures Timely(TakeoverRun(gap))
    ensures
      Run(TakeoverRun(gap)) ==
      State(gap, Some(Claim("b", gap, 1)), [Request("a", 0, Running(0, 0, false)), Request("b", gap, Running(gap, 1, true))], 2, [0], {})
  {
    var s1 := [] + [Arrive("a")];
    var s2 := s1 + [Insert(0)];
    var s3 := s2 + [Tick(gap)];
    var s4 := s3 + [Arrive("b")];
    var s5 := s4 + [Insert(1)];
    var s6 := s5 + [Find(1)];
    Extend([], Arrive("a"));
    assert Run(s1) == State(0, None, [Request("a", 0, Inserting(0))], 0, [], {});
    Extend(s1, Insert(0));
    assert Run(s2) == State(0, Some(Claim("a", 0, 0)), [Request("a", 0, Running(0, 0, false))], 1, [], {});
    Extend(s2, Tick(gap));
    Extend(s3, Arrive("b"));
    Extend(s4, Insert(1));
    Extend(s5, Find(1));
    assert Run(s6).requests[1].phase == Taking(0, Claim("a", 0, 0));
    Extend(s6, Take(1));
  }

  /** A takeover can overlap exactly from the abandon window on. */
  lemma TakeoversOverlapIff(gap: int)
    ensures (exists steps, i, j :: OverlapAt(steps, i, j, true, gap)) <==> ABANDON <= gap
  {
    hide TakeoverRun, Run, Timely;
    forall steps, i: nat, j: nat | OverlapAt(steps, i, j, true, gap)
      ensures ABANDON <= gap
    {
      TakeoversAreSpaced(steps, i, j);
    }
    if ABANDON <= gap {
      TakeoverState(gap);
      assert OverlapAt(TakeoverRun(gap), 0, 1, true, gap);
    }
  }

  /** The taker fails, and a third request arriving then inserts into the empty row. */
  function ThirdRun(gap: nat): seq<Step> {
    TakeoverRun(gap) + [Throw(1, true)] + [Arrive("c")] + [Insert(2)]
  }

  lemma ThirdState(gap: nat)
    requires ABANDON <= gap
    ensures OverlapAt(ThirdRun(gap), 0, 2, false, gap)
  {
    hide TakeoverRun;
    var s0 := TakeoverRun(gap);
    var s1 := s0 + [Throw(1, true)];
    var s2 := s1 + [Arrive("c")];
    TakeoverState(gap);
    Extend(s0, Throw(1, true));
    Extend(s1, Arrive("c"));
    Extend(s2, Insert(2));
  }

  /**
   An insert into an emptied row can overlap at any distance above zero, so below the abandon window the
   promised spacing fails for inserts, and by the lemma above for nothing else.
   */
  lemma InsertsOverlapIff(gap: int)
    ensures (exists steps, i, j :: OverlapAt(steps, i, j, false, gap)) <==> 0 < gap
  {
    hide LateInsertRun, ThirdRun, Run, Timely;
    forall steps, i: nat, j: nat | OverlapAt(steps, i, j, false, gap)
      ensures 0 < gap
    {
      RunKeeps(steps);
    }
    if 0 < gap < ABANDON {
      LateInsertState(gap);
      assert OverlapAt(LateInsertRun(gap), 0, 1, false, gap);
    } else if ABANDON <= gap {
      ThirdState(gap);
    }
  }

  /**
   The timing assumption is needed: an insert landing a whole window late lets a handler whose claim
   was taken over store its answer under another request's fingerprint.
   */
  lemma LateInsertLetsALoserWrite(answer: Response)
    requires answer.status < 500
    ensures
      var s := Run(LateInsertRun(0));
      && RunningAt(s, 0) && s.row == Some(Claim("b", 0, 1))
      && Apply(s, Return(0, answer, false, true)).row ==
         Some(Record("b", true, StoreOf(answer), 0, 1))
  {
    hide LateInsertRun, Run;
    LateInsertState(0);
  }
}
