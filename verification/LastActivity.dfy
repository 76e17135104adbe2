/**
 The last-activity job (packages/server/src/lastActivity.ts): batches that follow the audit log by a
 cursor, reread an overlap window behind it for entries that committed late, and only ever raise
 what they store.
 */
module LastActivity {
  import opened Common

  const OVERLAP_MS: nat := 120000

  type Identity = string
  /** Real ids are at least 1; 0 stands for the empty id a fresh cursor starts from. */
  type EntryId = nat

  /** Where an entry stands in the log: by creation time, then by id. */
  datatype Position = Position(at: nat, id: EntryId)

  predicate Before(a: Position, b: Position) {
    a.at < b.at || (a.at == b.at && a.id < b.id)
  }

  /** Created at `at`; its transaction was the `turn`-th to commit, at `committedAt`. */
  datatype Entry = Entry(at: nat, turn: nat, committedAt: nat)

  type Log = map<EntryId, Entry>

  function Place(log: Log, id: EntryId): Position
    requires id in log
  {
    Position(log[id].at, id)
  }

  // ------------------------------------------------------------------
  // One batch
  // ------------------------------------------------------------------

  /** A snapshot sees the first `seen` commits. */
  predicate Visible(log: Log, id: EntryId, seen: nat) {
    id in log && log[id].turn < seen
  }

  predicate IsFresh(log: Log, id: EntryId, cursor: Position, seen: nat) {
    Visible(log, id, seen) && Before(cursor, Place(log, id))
  }

  predicate IsReread(log: Log, id: EntryId, cursor: Position, seen: nat) {
    Visible(log, id, seen) && cursor.at <= log[id].at + OVERLAP_MS && !Before(cursor, Place(log, id))
  }

  /** The first `limit` visible entries past the cursor, in order. */
  ghost predicate FreshPage(log: Log, cursor: Position, seen: nat, limit: nat, page: seq<EntryId>) {
    && |page| <= limit
    && (forall i :: 0 <= i < |page| ==> IsFresh(log, page[i], cursor, seen))
    && (forall i, j :: 0 <= i < j < |page| ==> Before(Place(log, page[i]), Place(log, page[j])))
    && (forall id :: IsFresh(log, id, cursor, seen) && id !in page ==>
          |page| == limit && forall i :: 0 <= i < |page| ==> Before(Place(log, page[i]), Place(log, id)))
  }

  function Reread(log: Log, cursor: Position, seen: nat): set<EntryId> {
    set id | id in log && IsReread(log, id, cursor, seen)
  }

  /** An identity that one of the applied entries names, with the entry's time. */
  datatype Naming = Naming(identity: Identity, at: nat)

  function Raised(stored: map<Identity, nat>, namings: seq<Naming>): map<Identity, nat> {
    if namings == [] then stored
    else
      var before := Raised(stored, namings[..|namings| - 1]);
      var n := namings[|namings| - 1];
      if n.identity in before && n.at <= before[n.identity] then before else before[n.identity := n.at]
  }

  /** The namings of a set of entries, given the identities each names at the time. */
  predicate Names(namings: seq<Naming>, log: Log, ids: set<EntryId>, named: map<EntryId, set<Identity>>) {
    && (forall i :: 0 <= i < |namings| ==> exists id :: id in ids && NamedBy(namings[i], log, id, named))
    && (forall id, x :: id in ids && id in log && id in named && x in named[id] ==> Naming(x, log[id].at) in namings)
  }

  predicate NamedBy(n: Naming, log: Log, id: EntryId, named: map<EntryId, set<Identity>>) {
    id in log && id in named && n.identity in named[id] && n.at == log[id].at
  }

  // ------------------------------------------------------------------
  // The job over the log
  // ------------------------------------------------------------------

  /**
   `stored` is each identity's last activity, `applied` the entries ever applied, and `basis` the
   snapshot the cursor was last moved or confirmed by.
   */
  datatype State = State(now: nat, commits: nat, log: Log, cursor: Option<Position>, stored: map<Identity, nat>,
                         applied: set<EntryId>, basis: nat)

  datatype Step =
    | Tick(ms: nat)
    | Commit(id: EntryId, at: nat)
    | Batch(seen: nat, limit: nat, page: seq<EntryId>, named: map<EntryId, set<Identity>>, found: seq<Naming>)
    | StartCursor

  const START := State(0, 0, map[], None, map[], {}, 0)

  ghost predicate BatchOk(s: State, step: Step)
    requires step.Batch?
  {
    && s.cursor.Some? && step.seen <= s.commits
    && FreshPage(s.log, s.cursor.value, step.seen, step.limit, step.page)
    && Names(step.found, s.log, BatchIds(s, step), step.named)
  }

  function BatchIds(s: State, step: Step): set<EntryId>
    requires step.Batch? && s.cursor.Some?
  {
    (set id | id in step.page) + Reread(s.log, s.cursor.value, step.seen)
  }

  /**
   A batch that commits. Its snapshot may be older than the cursor it finds: the row lock hands it the
   latest cursor. A batch that finds the cursor locked or missing, or rolls back, changes nothing.
   */
  ghost function AfterBatch(s: State, step: Step): State
    requires step.Batch?
  {
    if !BatchOk(s, step) then s
    else
      var n := |step.page|;
      s.(cursor := if n == 0 then s.cursor else Some(if step.page[n - 1] in s.log then Place(s.log, step.page[n - 1]) else s.cursor.value),
         stored := Raised(s.stored, step.found), applied := s.applied + BatchIds(s, step),
         basis := if n == 0 && step.seen < s.basis then s.basis else step.seen)
  }

  ghost function Apply(s: State, step: Step): State {
    match step
    case Tick(ms) => s.(now := s.now + ms)
    case Commit(id, at) =>
      if id == 0 || id in s.log || s.now < at then s
      else s.(log := s.log[id := Entry(at, s.commits, s.now)], commits := s.commits + 1)
    case Batch(_, _, _, _, _) => AfterBatch(s, step)
    case StartCursor => if s.cursor.Some? then s else s.(cursor := Some(Position(0, 0)))
  }

  ghost function Run(steps: seq<Step>): State {
    if steps == [] then START else Apply(Run(steps[..|steps| - 1]), steps[|steps| - 1])
  }

  /** Entries commit within the overlap window of their creation. */
  predicate PromptStep(s: State, step: Step) {
    step.Commit? ==> s.now <= step.at + OVERLAP_MS
  }

  ghost predicate Prompt(steps: seq<Step>) {
    steps != [] ==> Prompt(steps[..|steps| - 1]) && PromptStep(Run(steps[..|steps| - 1]), steps[|steps| - 1])
  }

  // ------------------------------------------------------------------
  // What every run keeps
  // ------------------------------------------------------------------

  ghost predicate LogOk(s: State) {
    && (forall id :: id in s.log ==>
          0 < id && s.log[id].at <= s.log[id].committedAt <= s.now && s.log[id].turn < s.commits)
    && (forall a, b :: a in s.log && b in s.log && s.log[a].turn <= s.log[b].turn ==> s.log[a].committedAt <= s.log[b].committedAt)
  }

  ghost predicate LogPrompt(s: State) {
    forall id :: id in s.log ==> s.log[id].committedAt <= s.log[id].at + OVERLAP_MS
  }

  /** Whatever commits after the cursor's basis does so at or after the cursor's own time. */
  ghost predicate CursorOk(s: State) {
    && s.basis <= s.commits
    && (s.cursor.Some? ==> s.cursor.value.at <= s.now)
    && (s.cursor.Some? ==> forall id :: id in s.log && s.basis <= s.log[id].turn ==> s.cursor.value.at <= s.log[id].committedAt)
  }

  /** Every entry at or below the cursor that its basis saw has been applied. */
  ghost predicate Covered(s: State) {
    s.cursor.Some? ==> forall id :: Visible(s.log, id, s.basis) && !Before(s.cursor.value, Place(s.log, id)) ==> id in s.applied
  }

  ghost predicate Inv(s: State) {
    LogOk(s) && LogPrompt(s) && CursorOk(s) && Covered(s)
  }

  lemma LogKeeps(s: State, step: Step)
    requires LogOk(s)
    ensures LogOk(Apply(s, step))
    ensures LogPrompt(s) && PromptStep(s, step) ==> LogPrompt(Apply(s, step))
  {
    hide BatchOk, Raised;
  }

  lemma PageIn(s: State, step: Step)
    requires step.Batch? && BatchOk(s, step) && step.page != []
    ensures IsFresh(s.log, step.page[|step.page| - 1], s.cursor.value, step.seen)
  {
  }

  lemma CursorKeeps(s: State, step: Step)
    requires LogOk(s) && CursorOk(s)
    ensures CursorOk(Apply(s, step))
  {
    hide Raised;
    if step.Batch? && BatchOk(s, step) {
      hide BatchOk;
      if step.page != [] {
        PageIn(s, step);
      }
      SeenBounded(s, step);
    }
  }

  lemma SeenBounded(s: State, step: Step)
    requires step.Batch? && BatchOk(s, step)
    ensures s.cursor.Some? && step.seen <= s.commits
  {
  }

  /** An entry the basis did not see and the batch does is within the overlap it rereads. */
  lemma LateIsReread(s: State, step: Step, id: EntryId)
    requires Inv(s) && step.Batch? && BatchOk(s, step)
    requires Visible(s.log, id, step.seen) && !Before(s.cursor.value, Place(s.log, id)) && id !in s.applied
    ensures id in Reread(s.log, s.cursor.value, step.seen)
  {
    assert s.basis <= s.log[id].turn;
  }

  /** A visible entry between the old cursor and the new one is in the page. */
  lemma PassedIsInPage(s: State, step: Step, id: EntryId)
    requires step.Batch? && BatchOk(s, step) && step.page != []
    requires IsFresh(s.log, id, s.cursor.value, step.seen) && !Before(Place(s.log, step.page[|step.page| - 1]), Place(s.log, id))
    ensures id in step.page
  {
  }

  /**
   After each batch, every entry visible to it at or below the cursor has been applied, by it or by an
   earlier one.
   */
  lemma BatchCatchesUp(s: State, step: Step, id: EntryId)
    requires Inv(s) && step.Batch? && BatchOk(s, step)
    requires Visible(s.log, id, step.seen) && !Before(Apply(s, step).cursor.value, Place(s.log, id))
    ensures id in Apply(s, step).applied
  {
    hide Inv, BatchOk, Raised, IsReread, Names;
    SeenBounded(s, step);
    if !Before(s.cursor.value, Place(s.log, id)) {
      if id !in s.applied {
        LateIsReread(s, step, id);
      }
    } else {
      if step.page != [] {
        PageIn(s, step);
        PassedIsInPage(s, step, id);
      }
    }
  }

  lemma CoveredKeeps(s: State, step: Step)
    requires Inv(s)
    ensures Covered(Apply(s, step))
  {
    hide Raised, Names;
    if step.Batch? {
      if BatchOk(s, step) {
        BatchCovers(s, step);
      }
    }
  }

  lemma BatchCovers(s: State, step: Step)
    requires Inv(s) && step.Batch? && BatchOk(s, step)
    ensures Covered(Apply(s, step))
  {
    hide BatchOk, Raised;
    SeenBounded(s, step);
    var after := Apply(s, step);
    forall id | Visible(after.log, id, after.basis) && !Before(after.cursor.value, Place(after.log, id))
      ensures id in after.applied
    {
      if Visible(s.log, id, step.seen) {
        BatchCatchesUp(s, step, id);
      }
    }
  }

  lemma {:induction false} RaisedOnlyRises(stored: map<Identity, nat>, namings: seq<Naming>, i: Identity)
    requires i in stored
    ensures i in Raised(stored, namings) && stored[i] <= Raised(stored, namings)[i]
  {
    if namings != [] {
      RaisedOnlyRises(stored, namings[..|namings| - 1], i);
    }
  }

  lemma StepKeeps(s: State, step: Step)
    requires Inv(s) && PromptStep(s, step)
    ensures Inv(Apply(s, step))
  {
    hide Apply, LogOk, LogPrompt, CursorOk, Covered, PromptStep;
    LogKeeps(s, step);
    CursorKeeps(s, step);
    CoveredKeeps(s, step);
  }

  lemma {:induction false} RunKeeps(steps: seq<Step>)
    requires Prompt(steps)
    ensures Inv(Run(steps))
  {
    hide Apply, PromptStep;
    if steps != [] {
      RunKeeps(steps[..|steps| - 1]);
      StepKeeps(Run(steps[..|steps| - 1]), steps[|steps| - 1]);
    }
  }

  // ------------------------------------------------------------------
  // What is stored
  // ------------------------------------------------------------------

  /** A batch that took effect in `s` applied entry `id`, and the entry names `x`. */
  ghost predicate AppliesNaming(s: State, step: Step, id: EntryId, x: Identity) {
    && step.Batch? && BatchOk(s, step)
    && id in BatchIds(s, step) && id in s.log && id in step.named && x in step.named[id]
  }

  ghost function NewTimes(s: State, step: Step, x: Identity): set<nat> {
    set id | id in s.log && AppliesNaming(s, step, id, x) :: s.log[id].at
  }

  /** The times of the entries naming `x` that the batches among the steps applied. */
  ghost function TimesApplied(steps: seq<Step>, x: Identity): set<nat> {
    if steps == [] then {}
    else TimesApplied(steps[..|steps| - 1], x) + NewTimes(Run(steps[..|steps| - 1]), steps[|steps| - 1], x)
  }

  /** What is stored for `x` is the largest of the times; nothing is stored when there is none. */
  ghost predicate IsMaximum(stored: map<Identity, nat>, x: Identity, times: set<nat>) {
    && (x in stored <==> times != {})
    && (x in stored ==> stored[x] in times && forall t :: t in times ==> t <= stored[x])
  }

  function TimesIn(namings: seq<Naming>, x: Identity): set<nat> {
    set i | 0 <= i < |namings| && namings[i].identity == x :: namings[i].at
  }

  lemma {:induction false} RaisedIsMaximum(stored: map<Identity, nat>, namings: seq<Naming>, x: Identity, times: set<nat>)
    requires IsMaximum(stored, x, times)
    ensures IsMaximum(Raised(stored, namings), x, times + TimesIn(namings, x))
  {
    if namings == [] {
      assert times + TimesIn(namings, x) == times;
    } else {
      var rest, last := namings[..|namings| - 1], namings[|namings| - 1];
      RaisedIsMaximum(stored, rest, x, times);
      assert TimesIn(namings, x)
          == TimesIn(rest, x) + (if last.identity == x then {last.at} else {});
    }
  }

  lemma FoundTimes(s: State, step: Step, x: Identity)
    requires step.Batch? && BatchOk(s, step)
    ensures TimesIn(step.found, x) == NewTimes(s, step, x)
  {
    hide FreshPage, Reread;
    var found, applied := TimesIn(step.found, x), NewTimes(s, step, x);
    assert Names(step.found, s.log, BatchIds(s, step), step.named);
    hide BatchOk;
    forall t | t in found ensures t in applied {
      var i :| 0 <= i < |step.found| && step.found[i].identity == x && step.found[i].at == t;
      var id :| id in BatchIds(s, step) && NamedBy(step.found[i], s.log, id, step.named);
      assert AppliesNaming(s, step, id, x);
    }
    forall t | t in applied ensures t in found {
      var id :| id in s.log && AppliesNaming(s, step, id, x) && s.log[id].at == t;
      assert Naming(x, t) in step.found;
      var i :| 0 <= i < |step.found| && step.found[i] == Naming(x, t);
    }
  }

  lemma StepStores(s: State, step: Step, x: Identity, times: set<nat>)
    requires IsMaximum(s.stored, x, times)
    ensures IsMaximum(Apply(s, step).stored, x, times + NewTimes(s, step, x))
  {
    hide IsMaximum, BatchOk, Raised, Names, Reread, BatchIds;
    if step.Batch? && BatchOk(s, step) {
      RaisedIsMaximum(s.stored, step.found, x, times);
      FoundTimes(s, step, x);
    } else {
      assert NewTimes(s, step, x) == {};
      assert times + {} == times;
    }
  }

  /**
   What one batch stores: at least the time of each entry it applies, for every identity the entry
   names; and a value it changes is raised to the time of such an entry.
   */
  lemma BatchStoresWhatItApplies(s: State, step: Step, x: Identity)
    requires step.Batch? && BatchOk(s, step)
    ensures var after := Apply(s, step);
            && (forall id :: id in BatchIds(s, step) && id in step.named && x in step.named[id] ==>
                  id in s.log && x in after.stored && s.log[id].at <= after.stored[x])
            && (x in s.stored ==> x in after.stored)
            && (x in after.stored && !(x in s.stored && after.stored[x] == s.stored[x]) ==>
                  && (x in s.stored ==> s.stored[x] < after.stored[x])
                  && exists id :: id in BatchIds(s, step) && id in s.log && id in step.named && x in step.named[id] && s.log[id].at == after.stored[x])
  {
    hide IsMaximum, Raised, Names;
    var times := if x in s.stored then {s.stored[x]} else {};
    BeforeIsMaximum(s.stored, x);
    StepStores(s, step, x, times);
    BatchIdsLogged(s, step);
    MaximumOf(s, step, x, times);
  }

  lemma BeforeIsMaximum(stored: map<Identity, nat>, x: Identity)
    ensures IsMaximum(stored, x, if x in stored then {stored[x]} else {})
  {
  }

  lemma BatchIdsLogged(s: State, step: Step)
    requires step.Batch? && BatchOk(s, step)
    ensures BatchIds(s, step) <= s.log.Keys
  {
    forall id | id in step.page ensures id in s.log {
      var i :| 0 <= i < |step.page| && step.page[i] == id;
      assert IsFresh(s.log, step.page[i], s.cursor.value, step.seen);
    }
  }

  lemma MaximumOf(s: State, step: Step, x: Identity, times: set<nat>)
    requires step.Batch? && BatchOk(s, step) && BatchIds(s, step) <= s.log.Keys
    requires times == if x in s.stored then {s.stored[x]} else {}
    requires IsMaximum(Apply(s, step).stored, x, times + NewTimes(s, step, x))
    ensures var after := Apply(s, step);
            && (forall id :: id in BatchIds(s, step) && id in step.named && x in step.named[id] ==>
                  x in after.stored && s.log[id].at <= after.stored[x])
            && (x in s.stored ==> x in after.stored)
            && (x in after.stored && !(x in s.stored && after.stored[x] == s.stored[x]) ==>
                  && (x in s.stored ==> s.stored[x] < after.stored[x])
                  && exists id :: id in BatchIds(s, step) && id in s.log && id in step.named && x in step.named[id] && s.log[id].at == after.stored[x])
  {
    hide Apply, BatchOk, BatchIds;
    SeenBounded(s, step);
    var after := Apply(s, step);
    forall id | id in BatchIds(s, step) && id in step.named && x in step.named[id]
      ensures x in after.stored && s.log[id].at <= after.stored[x]
    {
      assert AppliesNaming(s, step, id, x);
      assert s.log[id].at in NewTimes(s, step, x);
    }
    if x in s.stored {
      assert s.stored[x] in times;
    }
  }

  /**
   In every run, what is stored for an identity is exactly the latest time of the entries naming it
   that the batches so far applied, and a step only ever raises it.
   */
  lemma StoredOnlyRises(steps: seq<Step>, step: Step, x: Identity)
    ensures IsMaximum(Run(steps).stored, x, TimesApplied(steps, x))
    ensures x in Run(steps).stored ==> x in Apply(Run(steps), step).stored && Run(steps).stored[x] <= Apply(Run(steps), step).stored[x]
  {
    hide Apply, Run, IsMaximum;
    StoredIsMaximum(steps, x);
    if x in Run(steps).stored {
      StepRises(Run(steps), step, x);
    }
  }

  lemma {:induction false} StoredIsMaximum(steps: seq<Step>, x: Identity)
    ensures IsMaximum(Run(steps).stored, x, TimesApplied(steps, x))
  {
    hide Apply, NewTimes;
    if steps != [] {
      hide IsMaximum;
      StoredIsMaximum(steps[..|steps| - 1], x);
      StepStores(Run(steps[..|steps| - 1]), steps[|steps| - 1], x, TimesApplied(steps[..|steps| - 1], x));
    }
  }

  /** Step `k` of a run is a batch that applied the entry, and every identity it named then is stored at least that late. */
  ghost predicate StoredSince(steps: seq<Step>, k: nat, id: EntryId) {
    && k < |steps| && steps[k].Batch?
    && var s := Run(steps[..k]);
       && BatchOk(s, steps[k]) && id in BatchIds(s, steps[k]) && id in s.log
       && (id in steps[k].named ==> forall x :: x in steps[k].named[id] ==>
             x in Run(steps).stored && s.log[id].at <= Run(steps).stored[x])
  }

  lemma StoredSinceExtends(steps: seq<Step>, k: nat, id: EntryId, step: Step)
    requires StoredSince(steps, k, id)
    ensures StoredSince(steps + [step], k, id)
  {
    hide Apply, BatchOk, BatchIds;
    Extend(steps, step);
    hide Run;
    assert (steps + [step])[..k] == steps[..k];
    var named := steps[k].named;
    if id in named {
      forall x | x in named[id]
        ensures x in Run(steps + [step]).stored && Run(steps[..k]).log[id].at <= Run(steps + [step]).stored[x]
      {
        StepRises(Run(steps), step, x);
      }
    }
  }

  lemma StoredAtOnce(steps: seq<Step>, step: Step, id: EntryId)
    requires step.Batch? && BatchOk(Run(steps), step) && id in BatchIds(Run(steps), step)
    ensures StoredSince(steps + [step], |steps|, id)
  {
    hide Apply, BatchOk, BatchIds;
    Extend(steps, step);
    hide Run;
    assert (steps + [step])[..|steps|] == steps;
    BatchIdsLogged(Run(steps), step);
    if id in step.named {
      forall x | x in step.named[id]
        ensures x in Run(steps + [step]).stored && Run(steps).log[id].at <= Run(steps + [step]).stored[x]
      {
        BatchStoresWhatItApplies(Run(steps), step, x);
      }
    }
  }

  lemma AppliedByStep(s: State, step: Step, id: EntryId)
    requires id in Apply(s, step).applied && id !in s.applied
    ensures step.Batch? && BatchOk(s, step) && id in BatchIds(s, step)
  {
    hide BatchOk, BatchIds, Raised;
  }

  /** Whatever counts as applied was in the page or the reread of a batch of the run, and is in the stored activity. */
  lemma {:induction false} AppliedIsStored(steps: seq<Step>, id: EntryId) returns (k: nat)
    requires id in Run(steps).applied
    ensures StoredSince(steps, k, id)
  {
    var init, last := steps[..|steps| - 1], steps[|steps| - 1];
    assert steps == init + [last];
    hide Apply, StoredSince;
    if id in Run(init).applied {
      k := AppliedIsStored(init, id);
      StoredSinceExtends(init, k, id, last);
    } else {
      AppliedByStep(Run(init), last, id);
      StoredAtOnce(init, last, id);
      k := |init|;
    }
  }

  /**
   Over any prompt run, out-of-order commits, size limits and rolled back batches included: once a
   batch has committed, everything it could see at or below the cursor has been applied by a batch of
   the run and is in the stored activity, for every identity it named then.
   */
  lemma NothingIsMissed(steps: seq<Step>, step: Step, id: EntryId) returns (k: nat)
    requires Prompt(steps) && step.Batch? && BatchOk(Run(steps), step)
    requires Visible(Run(steps).log, id, step.seen)
    requires !Before(Apply(Run(steps), step).cursor.value, Place(Run(steps).log, id))
    ensures id in Apply(Run(steps), step).applied && StoredSince(steps + [step], k, id)
  {
    hide StoredSince, Apply, BatchOk;
    SeenBounded(Run(steps), step);
    RunKeeps(steps);
    BatchCatchesUp(Run(steps), step, id);
    Extend(steps, step);
    k := AppliedIsStored(steps + [step], id);
  }

  lemma StepRises(s: State, step: Step, i: Identity)
    requires i in s.stored
    ensures i in Apply(s, step).stored && s.stored[i] <= Apply(s, step).stored[i]
  {
    hide BatchOk, Raised;
    if step.Batch? {
      RaisedOnlyRises(s.stored, step.found, i);
    }
  }

  // ------------------------------------------------------------------
  // How late is too late
  // ------------------------------------------------------------------

  /**
   An entry the cursor has already passed is picked up by a batch that sees it exactly when it was
   created within the overlap behind the cursor.
   */
  lemma PassedEntryIsAppliedIff(s: State, step: Step, id: EntryId)
    requires step.Batch? && BatchOk(s, step) && id !in s.applied
    requires Visible(s.log, id, step.seen) && !Before(s.cursor.value, Place(s.log, id))
    ensures id in Apply(s, step).applied <==> s.cursor.value.at <= s.log[id].at + OVERLAP_MS
  {
    hide Raised, Names;
    assert id !in step.page;
  }

  lemma CursorOnlyMovesOn(s: State, step: Step)
    requires s.cursor.Some?
    ensures Apply(s, step).cursor.Some? && !Before(Apply(s, step).cursor.value, s.cursor.value)
    ensures s.cursor.value.at <= Apply(s, step).cursor.value.at
  {
    hide Raised;
    if step.Batch? && BatchOk(s, step) && step.page != [] {
      PageIn(s, step);
    }
  }

  ghost function From(s: State, steps: seq<Step>): State {
    if steps == [] then s else Apply(From(s, steps[..|steps| - 1]), steps[|steps| - 1])
  }

  /** Past that it is never applied, however many batches follow. */
  lemma {:induction false} TooLateIsNeverApplied(s: State, steps: seq<Step>, id: EntryId)
    requires s.cursor.Some? && id in s.log && id !in s.applied && s.log[id].at + OVERLAP_MS < s.cursor.value.at
    ensures
      var t := From(s, steps);
      t.cursor.Some? && id in t.log && t.log[id] == s.log[id] && id !in t.applied && s.cursor.value.at <= t.cursor.value.at
  {
    hide Apply;
    if steps != [] {
      var t := From(s, steps[..|steps| - 1]);
      TooLateIsNeverApplied(s, steps[..|steps| - 1], id);
      CursorOnlyMovesOn(t, steps[|steps| - 1]);
      StillTooLate(t, steps[|steps| - 1], id);
    }
  }

  lemma StillTooLate(s: State, step: Step, id: EntryId)
    requires s.cursor.Some? && id in s.log && id !in s.applied && s.log[id].at + OVERLAP_MS < s.cursor.value.at
    ensures id in Apply(s, step).log && Apply(s, step).log[id] == s.log[id] && id !in Apply(s, step).applied
  {
    hide Raised, Names;
    if step.Batch? && BatchOk(s, step) {
      assert id !in step.page;
    }
  }

  /**
   Entry 1 is created at the start and commits `late` after the overlap window has passed; by then a
   batch has taken the cursor to entry 2, created just before.
   */
  function LateRun(late: nat): seq<Step> {
    [StartCursor] + [Tick(OVERLAP_MS + late)] + [Commit(2, OVERLAP_MS + late)] + [Batch(1, 1, [2], map[], [])] + [Commit(1, 0)]
  }

  lemma Extend(steps: seq<Step>, step: Step)
    ensures Run(steps + [step]) == Apply(Run(steps), step)
    ensures Prompt(steps + [step]) <==> Prompt(steps) && PromptStep(Run(steps), step)
  {
    assert (steps + [step])[..|steps|] == steps;
  }

  lemma LateState(late: nat)
    ensures
      var now := OVERLAP_MS + late;
      Run(LateRun(late)) ==
      State(now, 2, map[1 := Entry(0, 1, now), 2 := Entry(now, 0, now)], Some(Position(now, 2)), map[], {2}, 1)
    ensures Prompt(LateRun(late)) <==> late == 0
  {
    var now := OVERLAP_MS + late;
    var s1 := [] + [StartCursor];
    var s2 := s1 + [Tick(now)];
    var s3 := s2 + [Commit(2, now)];
    var batch := Batch(1, 1, [2], map[], []);
    var s4 := s3 + [batch];
    Extend([], StartCursor);
    Extend(s1, Tick(now));
    Extend(s2, Commit(2, now));
    var before := State(now, 1, map[2 := Entry(now, 0, now)], Some(Position(0, 0)), map[], {}, 0);
    assert Run(s3) == before;
    LateBatch(before, now);
    Extend(s3, batch);
    Extend(s4, Commit(1, 0));
    assert LateRun(late) == s4 + [Commit(1, 0)];
  }

  lemma LateBatch(s: State, now: nat)
    requires 0 < now && s == State(now, 1, map[2 := Entry(now, 0, now)], Some(Position(0, 0)), map[], {}, 0)
    ensures Apply(s, Batch(1, 1, [2], map[], [])) == s.(cursor := Some(Position(now, 2)), applied := {2}, basis := 1)
  {
    var batch := Batch(1, 1, [2], map[], []);
    assert IsFresh(s.log, 2, Position(0, 0), 1);
    assert FreshPage(s.log, Position(0, 0), 1, 1, [2]);
    assert Reread(s.log, Position(0, 0), 1) == {};
    assert (set id | id in batch.page) == {2};
    assert BatchIds(s, batch) == {2};
    assert BatchOk(s, batch);
  }

  /**
   It happens, from the very first lateness on: the run is prompt exactly when `late` is zero, and for
   any more the entry is never applied, whatever follows.
   */
  lemma TooLateIsReached(late: nat, more: seq<Step>)
    ensures Prompt(LateRun(late)) <==> late == 0
    ensures 0 < late ==> 1 in From(Run(LateRun(late)), more).log && 1 !in From(Run(LateRun(late)), more).applied
  {
    hide LateRun, Run, From;
    LateState(late);
    if 0 < late {
      TooLateIsNeverApplied(Run(LateRun(late)), more, 1);
    }
  }

  // ------------------------------------------------------------------
  // Every batch has a page
  // ------------------------------------------------------------------

  lemma {:induction false} Earliest(log: Log, ids: set<EntryId>) returns (first: EntryId)
    requires ids != {} && ids <= log.Keys
    ensures first in ids && forall id :: id in ids && id != first ==> Before(Place(log, first), Place(log, id))
    decreases |ids|
  {
    var x :| x in ids;
    if ids == {x} {
      first := x;
    } else {
      var rest := ids - {x};
      assert rest != {};
      var y := Earliest(log, rest);
      first := if Before(Place(log, x), Place(log, y)) then x else y;
    }
  }

  /** Whatever the log and the cursor, the page a batch applies exists. */
  lemma {:induction false} PageExists(log: Log, cursor: Position, seen: nat, limit: nat) returns (page: seq<EntryId>)
    ensures FreshPage(log, cursor, seen, limit, page)
    decreases limit
  {
    if limit == 0 {
      page := [];
    } else {
      page := PageExists(log, cursor, seen, limit - 1);
      var left := set id | id in log && IsFresh(log, id, cursor, seen) && id !in page;
      assert forall id :: IsFresh(log, id, cursor, seen) && id !in page ==> id in left;
      if left != {} {
        var next := Earliest(log, left);
        var longer := page + [next];
        assert forall i :: 0 <= i < |page| ==> longer[i] == page[i];
        forall id | IsFresh(log, id, cursor, seen) && id !in longer
          ensures |longer| == limit && forall i :: 0 <= i < |longer| ==> Before(Place(log, longer[i]), Place(log, id))
        {
          assert id in left;
        }
        page := longer;
      }
    }
  }

  // ------------------------------------------------------------------
  // catchUpLastActivity
  // ------------------------------------------------------------------

  datatype Outcome = Outcome(claimed: bool, applied: nat, raised: nat)

  datatype Totals = Totals(batches: nat, applied: nat, raised: nat)

  function Sum(outcomes: seq<Outcome>): Totals {
    if outcomes == [] then Totals(0, 0, 0)
    else
      var before, last := Sum(outcomes[..|outcomes| - 1]), outcomes[|outcomes| - 1];
      Totals(before.batches + 1, before.applied + last.applied, before.raised + last.raised)
  }

  /** The totals count the batches and add up what each applied and raised. */
  lemma {:induction false} SumAdds(a: seq<Outcome>, b: seq<Outcome>, last: Outcome)
    ensures Sum([last]) == Totals(1, last.applied, last.raised)
    ensures Sum(a + b) == Totals(Sum(a).batches + Sum(b).batches, Sum(a).applied + Sum(b).applied, Sum(a).raised + Sum(b).raised)
    ensures Sum(a).batches == |a|
    decreases |a| + |b|
  {
    assert [last][..0] == [];
    if b == [] {
      assert a + b == a;
      if a != [] {
        SumAdds(a[..|a| - 1], [], last);
      }
    } else {
      assert (a + b)[..|a + b| - 1] == a + b[..|b| - 1];
      SumAdds(a, b[..|b| - 1], last);
    }
  }

  /**
   Given what the successive batches answer, the totals are those of the claimed batches up to and
   including the first one that ends the job.
   */
  method CatchUp(outcomes: seq<Outcome>, stops: seq<bool>, batchSize: nat) returns (totals: Totals, ran: nat)
    requires |outcomes| == |stops|
    requires exists k :: 0 <= k < |outcomes| && (!outcomes[k].claimed || outcomes[k].applied < batchSize || stops[k])
    ensures ran <= |outcomes| && totals == Sum(outcomes[..ran])
    ensures forall k :: 0 <= k < ran - 1 ==> batchSize <= outcomes[k].applied && !stops[k]
    ensures forall k :: 0 <= k < ran ==> outcomes[k].claimed
    ensures (ran < |outcomes| && !outcomes[ran].claimed) || (0 < ran && (outcomes[ran - 1].applied < batchSize || stops[ran - 1]))
  {
    totals, ran := Totals(0, 0, 0), 0;
    while true
      invariant ran <= |outcomes| && totals == Sum(outcomes[..ran])
      invariant forall k :: 0 <= k < ran ==> outcomes[k].claimed && batchSize <= outcomes[k].applied && !stops[k]
      decreases |outcomes| - ran
    {
      var batch := outcomes[ran];
      if !batch.claimed {
        return;
      }
      assert outcomes[..ran + 1][..ran] == outcomes[..ran];
      totals := Totals(totals.batches + 1, totals.applied + batch.applied, totals.raised + batch.raised);
      ran := ran + 1;
      if batch.applied < batchSize || stops[ran - 1] {
        return;
      }
    }
  }
}
