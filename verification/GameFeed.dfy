/**
 The shared tail of one game's event log (packages/server/src/gameFeed.ts): a bounded window of
 the newest events, filled by reads that overlapping wake-ups coalesce into.
 */
module GameFeed {
  import opened Common

  const GAME_FEED_WINDOW: nat := 1000
  const EVENT_LOG_PAGE: nat := 500

  type Event = string

  datatype Logged = Logged(position: nat, event: Event)

  // ------------------------------------------------------------------
  // Reading the log
  // ------------------------------------------------------------------

  /** `readEventLog`: up to `limit` rows after `after` that are not swept, in position order. */
  function ReadLog(log: seq<Event>, swept: set<nat>, after: nat, limit: nat): (rows: seq<Logged>)
    ensures |rows| <= limit
    decreases |log| - after
  {
    if limit == 0 || |log| <= after then []
    else if after + 1 in swept then ReadLog(log, swept, after + 1, limit)
    else [Logged(after + 1, log[after])] + ReadLog(log, swept, after + 1, limit - 1)
  }

  /** `entries` are consecutive log entries, the first one at position `from` + 1. */
  ghost predicate Consecutive(entries: seq<Logged>, log: seq<Event>, from: nat) {
    && from + |entries| <= |log|
    && forall i :: 0 <= i < |entries| ==> entries[i] == Logged(from + i + 1, log[from + i])
  }

  /** Rows of the log in increasing position order, all of them after `after`. */
  ghost predicate RowsAfter(rows: seq<Logged>, log: seq<Event>, after: nat) {
    && (forall i :: 0 <= i < |rows| ==> after < rows[i].position <= |log| && rows[i].event == log[rows[i].position - 1])
    && (forall i, j :: 0 <= i < j < |rows| ==> rows[i].position < rows[j].position)
  }

  function LastPosition(rows: seq<Logged>, after: nat): nat {
    if rows == [] then after else rows[|rows| - 1].position
  }

  /** Every unswept position up to `upTo` is read, unless the page filled up before it. */
  ghost predicate Covers(rows: seq<Logged>, swept: set<nat>, after: nat, upTo: nat, limit: nat) {
    forall p :: after < p <= upTo && p !in swept ==>
      p <= LastPosition(rows, after) || limit <= |rows|
  }

  lemma {:induction false} ReadLogReads(log: seq<Event>, swept: set<nat>, after: nat, limit: nat)
    ensures RowsAfter(ReadLog(log, swept, after, limit), log, after)
    ensures Covers(ReadLog(log, swept, after, limit), swept, after, |log|, limit)
    decreases |log| - after
  {
    hide RowsAfter, Covers;
    if limit == 0 || |log| <= after {
      NothingRead(log, swept, after, limit);
    } else if after + 1 in swept {
      ReadLogReads(log, swept, after + 1, limit);
      SkipSwept(ReadLog(log, swept, after + 1, limit), log, swept, after, limit);
    } else {
      ReadLogReads(log, swept, after + 1, limit - 1);
      ReadOne(ReadLog(log, swept, after + 1, limit - 1), log, swept, after, limit);
    }
  }

  /** A page is exactly the unswept rows after `after`, up to where it filled up. */
  lemma {:induction false} ReadLogSkipsNothing(log: seq<Event>, swept: set<nat>, after: nat, limit: nat, p: nat)
    requires after < p <= |log|
    ensures
      var rows := ReadLog(log, swept, after, limit);
      Logged(p, log[p - 1]) in rows <==> p !in swept && (|rows| < limit || p <= LastPosition(rows, after))
    decreases |log| - after
  {
    hide LastPosition;
    LastOfNone(after);
    if limit != 0 {
      var left := if after + 1 in swept then limit else limit - 1;
      var rest := ReadLog(log, swept, after + 1, left);
      ReadLogReads(log, swept, after + 1, left);
      if after + 1 < p {
        ReadLogSkipsNothing(log, swept, after + 1, left, p);
      }
      hide ReadLog;
      LaterRow(rest, log, after + 1, p);
      if after + 1 in swept {
        LastOfRest(rest, after);
      } else {
        LastOfMore(rest, Logged(after + 1, log[after]), after);
      }
    }
  }

  lemma LastOfNone(after: nat)
    ensures LastPosition([], after) == after
  {
  }

  lemma LaterRow(rows: seq<Logged>, log: seq<Event>, after: nat, p: nat)
    requires RowsAfter(rows, log, after) && 0 < p <= |log|
    ensures Logged(p, log[p - 1]) in rows ==> after < p
    ensures after <= LastPosition(rows, after)
  {
    LastPositionLater(rows, log, after);
  }

  lemma LastOfRest(rest: seq<Logged>, after: nat)
    ensures LastPosition(rest, after) == if rest == [] then after else LastPosition(rest, after + 1)
  {
  }

  lemma LastOfMore(rest: seq<Logged>, first: Logged, after: nat)
    requires first.position == after + 1
    ensures LastPosition([first] + rest, after) == LastPosition(rest, after + 1)
    ensures forall row :: row in [first] + rest <==> row == first || row in rest
  {
  }

  lemma NothingRead(log: seq<Event>, swept: set<nat>, after: nat, limit: nat)
    requires limit == 0 || |log| <= after
    ensures RowsAfter([], log, after) && Covers([], swept, after, |log|, limit)
  {
  }

  lemma SkipSwept(rows: seq<Logged>, log: seq<Event>, swept: set<nat>, after: nat, limit: nat)
    requires after + 1 in swept && RowsAfter(rows, log, after + 1) && Covers(rows, swept, after + 1, |log|, limit)
    ensures RowsAfter(rows, log, after) && Covers(rows, swept, after, |log|, limit)
  {
  }

  lemma ReadOne(rest: seq<Logged>, log: seq<Event>, swept: set<nat>, after: nat, limit: nat)
    requires after < |log| && 0 < limit && RowsAfter(rest, log, after + 1) && Covers(rest, swept, after + 1, |log|, limit - 1)
    ensures RowsAfter([Logged(after + 1, log[after])] + rest, log, after)
    ensures Covers([Logged(after + 1, log[after])] + rest, swept, after, |log|, limit)
  {
    var rows := [Logged(after + 1, log[after])] + rest;
    assert forall i :: 1 <= i < |rows| ==> rows[i] == rest[i - 1];
    assert LastPosition(rows, after) == LastPosition(rest, after + 1);
    LastPositionLater(rest, log, after + 1);
  }

  lemma LastPositionLater(rows: seq<Logged>, log: seq<Event>, after: nat)
    requires RowsAfter(rows, log, after)
    ensures after <= LastPosition(rows, after)
  {
  }

  // ------------------------------------------------------------------
  // The feed
  // ------------------------------------------------------------------

  datatype Feed = Feed(head: nat, window: seq<Logged>, reading: bool, again: bool, stopped: bool)

  /** The rows appended to the window; a jump in position restarts it. */
  function AppendRows(feed: Feed, rows: seq<Logged>): Feed {
    if rows == [] then feed
    else
      var before, row := AppendRows(feed, rows[..|rows| - 1]), rows[|rows| - 1];
      before.(window := (if row.position != before.head + 1 then [] else before.window) + [row], head := row.position)
  }

  function Trim(window: seq<Logged>): seq<Logged> {
    if GAME_FEED_WINDOW < |window| then window[|window| - GAME_FEED_WINDOW..] else window
  }

  function AfterWake(feed: Feed): Feed {
    if feed.stopped then feed
    else if feed.reading then feed.(again := true)
    else feed.(reading := true, again := false)
  }

  /** A page arrives: the pass goes on after a full page, starts over when woken, or ends. */
  function AfterPage(feed: Feed, rows: seq<Logged>): Feed {
    if feed.stopped then feed.(reading := false)
    else
      var read := AppendRows(feed, rows);
      var kept := read.(window := Trim(read.window));
      if EVENT_LOG_PAGE <= |rows| then kept
      else if kept.again then kept.(again := false)
      else kept.(reading := false)
  }

  class GameFeed {
    var head: nat
    var window: seq<Logged>
    var reading: bool
    var again: bool
    var stopped: bool

    function View(): Feed
      reads this
    {
      Feed(head, window, reading, again, stopped)
    }

    constructor (start: nat)
      ensures View() == Feed(start, [], false, false, false)
    {
      head, window, reading, again, stopped := start, [], false, false, false;
    }

    /** Events after `cursor` held in memory, or nothing when the window does not reach back to it. */
    method EventsAfter(cursor: nat) returns (events: Option<seq<Logged>>)
      requires |window| <= head
      requires forall i :: 0 <= i < |window| ==> window[i].position == head - |window| + i + 1
      ensures events == None <==> cursor < head - |window|
      ensures events.Some? ==> events.value == if head <= cursor then [] else window[cursor - (head - |window|)..]
    {
      var first := if window == [] then head + 1 else window[0].position;
      if cursor < first - 1 {
        return None;
      }
      if head <= cursor {
        return Some([]);
      }
      return Some(window[cursor + 1 - first..]);
    }

    /** Returns whether this wake-up starts a read. */
    method Wake() returns (query: bool)
      modifies this
      ensures View() == AfterWake(old(View()))
      ensures query == (!old(stopped) && !old(reading))
    {
      if stopped {
        return false;
      }
      if reading {
        again := true;
        return false;
      }
      reading := true;
      again := false;
      return true;
    }

    /** The continuation of one log read: returns whether another read follows at once. */
    method PageArrived(rows: seq<Logged>) returns (query: bool)
      requires reading
      modifies this
      ensures View() == AfterPage(old(View()), rows)
      ensures query == reading
    {
      if stopped {
        reading := false;
        return false;
      }
      ghost var before := View();
      for i := 0 to |rows|
        invariant View() == AppendRows(before, rows[..i])
      {
        assert rows[..i + 1][..i] == rows[..i];
        if rows[i].position != head + 1 {
          window := [];
        }
        window := window + [rows[i]];
        head := rows[i].position;
      }
      assert rows[..|rows|] == rows;
      if GAME_FEED_WINDOW < |window| {
        window := window[|window| - GAME_FEED_WINDOW..];
      }
      AppendRowsKeepsFlags(before, rows);
      if |rows| < EVENT_LOG_PAGE {
        if again && !stopped {
          again := false;
        } else {
          reading := false;
          return false;
        }
      }
      return true;
    }

    method ReadFailed()
      modifies this
      ensures View() == old(View()).(reading := false)
    {
      reading := false;
    }

    method Stop()
      modifies this
      ensures View() == old(View()).(stopped := true, window := [])
    {
      stopped := true;
      window := [];
    }
  }

  lemma {:induction false} AppendRowsKeepsFlags(feed: Feed, rows: seq<Logged>)
    ensures AppendRows(feed, rows).reading == feed.reading
    ensures AppendRows(feed, rows).again == feed.again && AppendRows(feed, rows).stopped == feed.stopped
    ensures AppendRows(feed, rows).head == LastPosition(rows, feed.head)
  {
    if rows != [] {
      AppendRowsKeepsFlags(feed, rows[..|rows| - 1]);
    }
  }

  // ------------------------------------------------------------------
  // A feed over a growing log
  // ------------------------------------------------------------------

  /** The read in flight: sent, or answered by the database as of the first `asOf` commits. */
  datatype Query = Idle | Sent | Answered(rows: seq<Logged>, asOf: nat)

  /**
   The committed log, the swept positions, and the feed with its read. `woken` is the length
   of the log at the last wake-up and `failed` whether a read failed since.
   */
  datatype Sys = Sys(log: seq<Event>, swept: set<nat>, feed: Feed, query: Query, woken: nat, failed: bool)

  datatype Step = Commit(event: Event) | Sweep(aged: set<nat>) | Wake | Answer | Arrive | Fail | Stop

  /** A feed created with a position read some time earlier. */
  function Start(log: seq<Event>, swept: set<nat>, head: nat): Sys {
    Sys(log, swept, Feed(head, [], false, false, false), Idle, 0, false)
  }

  function Apply(s: Sys, step: Step): Sys {
    match step
    case Commit(event) => s.(log := s.log + [event])
    case Sweep(aged) => s.(swept := s.swept + aged)
    case Wake =>
      s.(feed := AfterWake(s.feed), query := if !s.feed.stopped && !s.feed.reading then Sent else s.query,
         woken := |s.log|, failed := false)
    case Answer =>
      if s.query == Sent then s.(query := Answered(ReadLog(s.log, s.swept, s.feed.head, EVENT_LOG_PAGE), |s.log|)) else s
    case Arrive =>
      if s.query.Answered? then
        var feed := AfterPage(s.feed, s.query.rows);
        s.(feed := feed, query := if feed.reading then Sent else Idle)
      else s
    case Fail => if s.query != Idle then s.(feed := s.feed.(reading := false), query := Idle, failed := true) else s
    case Stop => s.(feed := s.feed.(stopped := true, window := []))
  }

  function Run(s: Sys, steps: seq<Step>): Sys {
    if steps == [] then s else Apply(Run(s, steps[..|steps| - 1]), steps[|steps| - 1])
  }

  // ------------------------------------------------------------------
  // What every run keeps
  // ------------------------------------------------------------------

  /** The window is the log's newest entries up to the head, and no longer than its bound. */
  ghost predicate WindowTails(s: Sys) {
    && s.feed.head <= |s.log|
    && |s.feed.window| <= s.feed.head
    && |s.feed.window| <= GAME_FEED_WINDOW
    && Consecutive(s.feed.window, s.log, s.feed.head - |s.feed.window|)
  }

  /** Everything unswept up to `upTo` is at or below the head. */
  ghost predicate CaughtUp(s: Sys, upTo: nat) {
    forall p :: 0 < p <= upTo && p !in s.swept ==> p <= s.feed.head
  }

  ghost predicate QueryTracks(s: Sys) {
    && (s.feed.reading <==> s.query != Idle)
    && (s.query.Answered? ==>
          && s.query.asOf <= |s.log|
          && RowsAfter(s.query.rows, s.log, s.feed.head)
          && Covers(s.query.rows, s.swept, s.feed.head, s.query.asOf, EVENT_LOG_PAGE)
          && (!s.feed.again && !s.feed.stopped ==> s.woken <= s.query.asOf))
  }

  ghost predicate Inv(s: Sys) {
    && WindowTails(s)
    && QueryTracks(s)
    && s.woken <= |s.log|
    && (!s.feed.reading && !s.feed.stopped && !s.failed ==> CaughtUp(s, s.woken))
  }

  lemma RowsAfterGrow(rows: seq<Logged>, log: seq<Event>, event: Event, after: nat)
    requires RowsAfter(rows, log, after)
    ensures RowsAfter(rows, log + [event], after)
  {
  }

  lemma ConsecutiveGrow(entries: seq<Logged>, log: seq<Event>, event: Event, from: nat)
    requires Consecutive(entries, log, from)
    ensures Consecutive(entries, log + [event], from)
  {
  }

  /** Appending rows extends a run of consecutive entries, or starts a new one after a jump. */
  lemma {:induction false} AppendRowsTails(feed: Feed, rows: seq<Logged>, log: seq<Event>)
    requires feed.head <= |log| && |feed.window| <= feed.head
    requires Consecutive(feed.window, log, feed.head - |feed.window|)
    requires RowsAfter(rows, log, feed.head)
    ensures var after := AppendRows(feed, rows);
            after.head <= |log| && |after.window| <= after.head && Consecutive(after.window, log, after.head - |after.window|)
  {
    if rows != [] {
      var init := rows[..|rows| - 1];
      AppendRowsTails(feed, init, log);
      AppendRowsKeepsFlags(feed, init);
    }
  }

  lemma TrimTails(window: seq<Logged>, log: seq<Event>, head: nat)
    requires |window| <= head && Consecutive(window, log, head - |window|)
    ensures |Trim(window)| <= GAME_FEED_WINDOW && |Trim(window)| <= head
    ensures Consecutive(Trim(window), log, head - |Trim(window)|)
  {
  }

  lemma ArriveKeeps(s: Sys)
    requires Inv(s)
    ensures Inv(Apply(s, Arrive))
  {
    hide Consecutive, RowsAfter, AppendRows, Trim;
    if s.query.Answered? && !s.feed.stopped {
      var rows := s.query.rows;
      AppendRowsTails(s.feed, rows, s.log);
      AppendRowsKeepsFlags(s.feed, rows);
      var read := AppendRows(s.feed, rows);
      TrimTails(read.window, s.log, read.head);
      LastPositionLater(rows, s.log, s.feed.head);
    }
  }

  lemma StepKeeps(s: Sys, step: Step)
    requires Inv(s)
    ensures Inv(Apply(s, step))
  {
    hide AppendRows, Trim, AfterPage, ReadLog, Consecutive, RowsAfter, LastPosition;
    match step
    case Commit(event) =>
      ConsecutiveGrow(s.feed.window, s.log, event, s.feed.head - |s.feed.window|);
      if s.query.Answered? {
        RowsAfterGrow(s.query.rows, s.log, event, s.feed.head);
      }
    case Answer => ReadLogReads(s.log, s.swept, s.feed.head, EVENT_LOG_PAGE);
    case Arrive => ArriveKeeps(s);
    case Stop => EmptyWindow(s.log, s.feed.head);
    case Wake =>
    case Sweep(aged) =>
    case Fail =>
  }

  lemma EmptyWindow(log: seq<Event>, head: nat)
    requires head <= |log|
    ensures Consecutive([], log, head)
  {
  }

  lemma {:induction false} RunKeeps(log: seq<Event>, swept: set<nat>, head: nat, steps: seq<Step>)
    requires head <= |log|
    ensures Inv(Run(Start(log, swept, head), steps))
  {
    if steps == [] {
      EmptyWindow(log, head);
    } else {
      RunKeeps(log, swept, head, steps[..|steps| - 1]);
      StepKeeps(Run(Start(log, swept, head), steps[..|steps| - 1]), steps[|steps| - 1]);
    }
  }

  /**
   In every run the window answers a cursor with exactly the log from the next position to
   the head, or with nothing at all.
   */
  lemma WindowAnswersExactly(log: seq<Event>, swept: set<nat>, head: nat, steps: seq<Step>, cursor: nat)
    requires head <= |log|
    ensures var s := Run(Start(log, swept, head), steps);
            var base := s.feed.head - |s.feed.window|;
            && 0 <= base && |s.feed.window| <= GAME_FEED_WINDOW
            && (base <= cursor < s.feed.head ==>
                  && cursor - base <= |s.feed.window|
                  && Consecutive(s.feed.window[cursor - base..], s.log, cursor)
                  && |s.feed.window[cursor - base..]| == s.feed.head - cursor)
  {
    RunKeeps(log, swept, head, steps);
  }

  /**
   Coalescing loses no wake-up: once reading stops, unless a read failed since the last
   wake-up, everything committed before that wake-up and not swept has been read.
   */
  lemma NoWakeUpIsLost(log: seq<Event>, swept: set<nat>, head: nat, steps: seq<Step>)
    requires head <= |log|
    ensures var s := Run(Start(log, swept, head), steps);
            !s.feed.reading && !s.feed.stopped && !s.failed ==> CaughtUp(s, s.woken)
  {
    RunKeeps(log, swept, head, steps);
  }

  /** Without a wake-up an idle feed does nothing, whatever is committed or swept. */
  lemma {:induction false} IdleStays(s: Sys, steps: seq<Step>)
    requires s.query == Idle && !s.feed.reading && forall i :: 0 <= i < |steps| ==> !steps[i].Wake?
    ensures
      var t := Run(s, steps);
      t.query == Idle && !t.feed.reading && t.feed.head == s.feed.head && t.failed == s.failed && t.woken == s.woken
    ensures s.log <= Run(s, steps).log
    ensures (forall i :: 0 <= i < |steps| ==> !steps[i].Sweep?) ==> Run(s, steps).swept == s.swept
  {
    if steps != [] {
      IdleStays(s, steps[..|steps| - 1]);
    }
  }

  lemma {:induction false} RunsOn(s: Sys, steps: seq<Step>, more: seq<Step>)
    ensures Run(s, steps + more) == Run(Run(s, steps), more)
  {
    if more == [] {
      assert steps + more == steps;
    } else {
      RunsOn(s, steps, more[..|more| - 1]);
      assert (steps + more)[..|steps + more| - 1] == steps + more[..|more| - 1];
    }
  }

  /** The last wake-up comes in while the read that then fails is under way. */
  function WokenWhileFailing(first: Event, second: Event): seq<Step> {
    [Commit(first)] + [Wake] + [Commit(second)] + [Wake] + [Fail]
  }

  lemma WokenWhileFailingState(first: Event, second: Event)
    ensures Run(Start([], {}, 0), WokenWhileFailing(first, second)) ==
            Sys([first, second], {}, Feed(0, [], false, true, false), Idle, 2, true)
  {
    var s := Start([], {}, 0);
    RunsOn(s, [Commit(first)] + [Wake] + [Commit(second)] + [Wake], [Fail]);
    RunsOn(s, [Commit(first)] + [Wake] + [Commit(second)], [Wake]);
    RunsOn(s, [Commit(first)] + [Wake], [Commit(second)]);
    RunsOn(s, [Commit(first)], [Wake]);
    assert [] + [first] == [first] && [first] + [second] == [first, second];
    OneStep(s, Commit(first));
    OneStep(Apply(s, Commit(first)), Wake);
    OneStep(Apply(Apply(s, Commit(first)), Wake), Commit(second));
    OneStep(Apply(Apply(Apply(s, Commit(first)), Wake), Commit(second)), Wake);
    OneStep(Apply(Apply(Apply(Apply(s, Commit(first)), Wake), Commit(second)), Wake), Fail);
  }

  lemma OneStep(s: Sys, step: Step)
    ensures Run(s, [step]) == Apply(s, step)
  {
    assert [step][..0] == [];
  }

  /**
   The exception is real, for wake-ups before and during the failed read alike: whatever follows, the
   feed stays where it was until the next wake-up or poll, though nothing it lacks was swept.
   */
  lemma FailedReadWaitsForAnotherWake(first: Event, second: Event, more: seq<Step>)
    requires forall i :: 0 <= i < |more| ==> !more[i].Wake?
    ensures
      var s := Run(Start([], {}, 0), WokenWhileFailing(first, second) + more);
      && s.query == Idle && !s.feed.reading && s.failed && s.feed.head == 0 && s.woken == 2 && 2 <= |s.log|
      && ((forall i :: 0 <= i < |more| ==> !more[i].Sweep?) ==> !CaughtUp(s, s.woken))
  {
    hide Run, WokenWhileFailing;
    var s := Start([], {}, 0);
    WokenWhileFailingState(first, second);
    RunsOn(s, WokenWhileFailing(first, second), more);
    var failed := Run(s, WokenWhileFailing(first, second));
    IdleStays(failed, more);
    var end := Run(failed, more);
    assert end.swept == {} ==> 1 !in end.swept && end.feed.head < 1;
  }

  // ------------------------------------------------------------------
  // A woken feed catches up
  // ------------------------------------------------------------------

  /** The database answers and the page arrives; nothing else happens. */
  predicate OnlyReads(steps: seq<Step>) {
    forall i :: 0 <= i < |steps| ==> steps[i].Answer? || steps[i].Arrive?
  }

  lemma ThenRun(s: Sys, step: Step, more: seq<Step>)
    ensures Run(s, [step] + more) == Run(Apply(s, step), more)
  {
    OneStep(s, step);
    RunsOn(s, [step], more);
  }

  /** An answered page that is full brings the head forward. */
  lemma FullPageAdvances(s: Sys)
    requires Inv(s) && s.query.Answered? && !s.feed.stopped && EVENT_LOG_PAGE <= |s.query.rows|
    ensures s.feed.head < Apply(s, Arrive).feed.head <= |s.log|
    ensures Apply(s, Arrive).query == Sent
  {
    hide AppendRows, Trim;
    AppendRowsKeepsFlags(s.feed, s.query.rows);
    ArriveKeeps(s);
  }

  lemma ShortPageArrives(s: Sys)
    requires s.query.Answered? && s.feed.reading && !s.feed.stopped && |s.query.rows| < EVENT_LOG_PAGE
    ensures Apply(s, Arrive).query == if s.feed.again then Sent else Idle
    ensures s.feed.again ==> !Apply(s, Arrive).feed.again
    ensures s.feed.head == Apply(s, Arrive).feed.head || s.query.rows != []
    ensures Apply(s, Arrive).feed.head == LastPosition(s.query.rows, s.feed.head)
  {
    hide AppendRows, Trim;
    AppendRowsKeepsFlags(s.feed, s.query.rows);
  }

  lemma {:induction false} Settles(s: Sys) returns (steps: seq<Step>)
    requires Inv(s) && s.query != Idle && !s.feed.stopped
    ensures OnlyReads(steps)
    ensures var t := Run(s, steps); t.query == Idle && !t.feed.reading && t.log == s.log && t.swept == s.swept
                                    && t.failed == s.failed && t.woken == s.woken && !t.feed.stopped && Inv(t)
    decreases |s.log| - s.feed.head, s.feed.again, s.query == Sent
  {
    hide AppendRows, Trim, ReadLog, WindowTails, QueryTracks, CaughtUp, Run;
    var step := if s.query == Sent then Answer else Arrive;
    StepKeeps(s, step);
    var next := Apply(s, step);
    HeadIsLogged(s);
    HeadIsLogged(next);
    if s.query.Answered? {
      if EVENT_LOG_PAGE <= |s.query.rows| {
        FullPageAdvances(s);
      } else {
        AnsweredLiesAhead(s);
        ShortPageArrives(s);
      }
      AppendRowsKeepsFlags(s.feed, s.query.rows);
    }
    var more: seq<Step> := [];
    if next.query != Idle {
      more := Settles(next);
    } else {
      RunNothing(next);
      IdleMeansNoRead(next);
    }
    steps := [step] + more;
    ThenRun(s, step, more);
  }

  lemma RunNothing(s: Sys)
    ensures Run(s, []) == s
  {
  }

  lemma IdleMeansNoRead(s: Sys)
    requires Inv(s) && s.query == Idle
    ensures !s.feed.reading
  {
  }

  lemma HeadIsLogged(s: Sys)
    requires Inv(s)
    ensures s.feed.head <= |s.log|
  {
  }

  lemma AnsweredLiesAhead(s: Sys)
    requires Inv(s) && s.query.Answered?
    ensures s.feed.reading && s.feed.head <= LastPosition(s.query.rows, s.feed.head)
  {
    LastPositionLater(s.query.rows, s.log, s.feed.head);
  }

  /**
   From any state of any run: after a wake-up, once the reads it takes have come back, the feed is idle
   with everything committed by then and not swept at or below its head. One that was already reading
   goes on to another read; nothing else is needed.
   */
  lemma WokenFeedCatchesUp(s: Sys) returns (steps: seq<Step>)
    requires Inv(s) && !s.feed.stopped
    ensures OnlyReads(steps)
    ensures var t := Run(Apply(s, Wake), steps);
            t.query == Idle && !t.feed.reading && t.log == s.log && t.swept == s.swept && CaughtUp(t, |s.log|)
  {
    hide AppendRows, Trim, ReadLog, WindowTails, CaughtUp, Run;
    StepKeeps(s, Wake);
    steps := Settles(Apply(s, Wake));
  }

  /** A pass nobody wakes is one read when its page is not full. */
  lemma QuietPassIsOneRead(s: Sys)
    requires s.query == Idle && !s.feed.reading && !s.feed.stopped
    ensures var asked := Apply(s, Wake);
            var rows := ReadLog(s.log, s.swept, s.feed.head, EVENT_LOG_PAGE);
            var read := Apply(Apply(asked, Answer), Arrive);
            asked.query == Sent && read.query == (if |rows| == EVENT_LOG_PAGE then Sent else Idle) && read.feed.head == LastPosition(rows, s.feed.head)
  {
    hide AppendRows, Trim, ReadLog;
    AppendRowsKeepsFlags(AfterWake(s.feed), ReadLog(s.log, s.swept, s.feed.head, EVENT_LOG_PAGE));
  }

  /** A stopped feed stays stopped and empty at its head, and starts no read: the one in flight is its last. */
  lemma {:induction false} StopEnds(s: Sys, steps: seq<Step>)
    requires QueryTracks(s)
    ensures
      var t := Run(Apply(s, Stop), steps);
      && t.feed.stopped && t.feed.window == [] && t.feed.head == s.feed.head
      && (s.query == Idle ==> t.query == Idle)
      && (t.query.Answered? ==> Apply(t, Arrive).query == Idle)
  {
    if steps == [] {
      RunNothing(Apply(s, Stop));
    } else {
      StopEnds(s, steps[..|steps| - 1]);
      hide ReadLog, AppendRows, Trim;
      StoppedReads(s, steps[..|steps| - 1]);
    }
  }

  lemma {:induction false} StoppedReads(s: Sys, steps: seq<Step>)
    requires QueryTracks(s)
    ensures var t := Run(Apply(s, Stop), steps); t.feed.stopped && (t.feed.reading <==> t.query != Idle)
  {
    hide ReadLog, AppendRows, Trim;
    if steps != [] {
      StoppedReads(s, steps[..|steps| - 1]);
    }
  }

  // ------------------------------------------------------------------
  // What the window keeps
  // ------------------------------------------------------------------

  lemma {:induction false} NoJumpExtends(feed: Feed, rows: seq<Logged>)
    requires forall i :: 0 <= i < |rows| ==> rows[i].position == feed.head + i + 1
    ensures AppendRows(feed, rows).window == feed.window + rows
  {
    if rows != [] {
      var init := rows[..|rows| - 1];
      NoJumpExtends(feed, init);
      AppendRowsKeepsFlags(feed, init);
      assert feed.window + rows == feed.window + init + [rows[|rows| - 1]];
    }
  }

  lemma {:induction false} JumpRestarts(feed: Feed, rows: seq<Logged>, k: nat)
    requires k < |rows| && rows[k].position != LastPosition(rows[..k], feed.head) + 1
    requires forall i :: k < i < |rows| ==> rows[i].position == rows[i - 1].position + 1
    ensures AppendRows(feed, rows).window == rows[k..]
  {
    var init := rows[..|rows| - 1];
    AppendRowsKeepsFlags(feed, init);
    if k < |init| {
      assert init[..k] == rows[..k];
      JumpRestarts(feed, init, k);
      assert rows[k..] == init[k..] + [rows[|rows| - 1]];
    } else {
      assert rows[..k] == init;
      assert rows[k..] == [rows[k]];
    }
  }

  lemma PageView(feed: Feed, rows: seq<Logged>)
    requires !feed.stopped
    ensures AfterPage(feed, rows).window == Trim(AppendRows(feed, rows).window) && AfterPage(feed, rows).head == LastPosition(rows, feed.head)
  {
    hide AppendRows, Trim;
    AppendRowsKeepsFlags(feed, rows);
  }

  /** A page that follows on leaves in the window the newest thousand of what was there and the page, and the head at its last row. */
  lemma PageKeepsTheNewest(feed: Feed, rows: seq<Logged>)
    requires !feed.stopped && forall i :: 0 <= i < |rows| ==> rows[i].position == feed.head + i + 1
    ensures
      var all := feed.window + rows;
      AfterPage(feed, rows).window == if |all| <= 1000 then all else all[|all| - 1000..]
    ensures AfterPage(feed, rows).head == feed.head + |rows|
  {
    hide AppendRows, AfterPage;
    PageView(feed, rows);
    NoJumpExtends(feed, rows);
  }

  /** Where rows had been swept the window starts over at the page's last jump in position. */
  lemma PageStartsOverAtAJump(feed: Feed, rows: seq<Logged>, k: nat)
    requires !feed.stopped && k < |rows| && rows[k].position != LastPosition(rows[..k], feed.head) + 1
    requires forall i :: k < i < |rows| ==> rows[i].position == rows[i - 1].position + 1
    ensures AfterPage(feed, rows).window == if |rows| - k <= 1000 then rows[k..] else rows[|rows| - 1000..]
    ensures AfterPage(feed, rows).head == rows[|rows| - 1].position
  {
    hide AppendRows, AfterPage;
    PageView(feed, rows);
    JumpRestarts(feed, rows, k);
  }
}
