/**
 The event pipeline from commit to handler: the database of packages/server/src/eventLog.ts, the feed
 of packages/server/src/gameFeed.ts tailing one game of it, and a client of
 packages/sdk/src/gameEvents.ts streaming from that feed. Of the route in between only this is assumed:
 it sends the row after its cursor, from the feed's window where that reaches back, else from a page
 of the log, and nothing when that row is swept.
 */
module EventPipeline {
  import opened Common
  import Db = EventLog
  import Feed = GameFeed
  import Client = GameEvents

  // ------------------------------------------------------------------
  // One log, three views
  // ------------------------------------------------------------------

  function FeedLog(events: seq<Db.Event>): seq<Feed.Event> {
    seq(|events|, i requires 0 <= i < |events| => events[i].id)
  }

  function ToClient(event: Db.Event): Client.Event {
    Client.Event(event.kind, event.id)
  }

  function ClientLog(events: seq<Db.Event>): seq<Client.Event> {
    seq(|events|, i requires 0 <= i < |events| => ToClient(events[i]))
  }

  lemma LogsAppend(a: seq<Db.Event>, b: seq<Db.Event>)
    ensures FeedLog(a + b) == FeedLog(a) + FeedLog(b) && ClientLog(a + b) == ClientLog(a) + ClientLog(b)
  {
  }

  // ------------------------------------------------------------------
  // The route
  // ------------------------------------------------------------------

  /** The row a stream at `cursor` is sent next, if the feed or the log has it. */
  function NextRow(feed: Feed.Sys, cursor: nat): Option<Feed.Logged> {
    var window, head := feed.feed.window, feed.feed.head;
    if |window| <= head && head - |window| <= cursor then
      if cursor < head then Some(window[cursor - (head - |window|)]) else None
    else
      var page := Feed.ReadLog(feed.log, feed.swept, cursor, Feed.EVENT_LOG_PAGE);
      if page != [] && page[0].position == cursor + 1 then Some(page[0]) else None
  }

  /** Whichever it comes from, it is the committed row after the cursor. */
  lemma NextRowIsNext(feed: Feed.Sys, cursor: nat)
    requires Feed.WindowTails(feed) && NextRow(feed, cursor).Some?
    ensures cursor < |feed.log| && NextRow(feed, cursor).value == Feed.Logged(cursor + 1, feed.log[cursor])
  {
    hide Feed.ReadLog;
    Feed.ReadLogReads(feed.log, feed.swept, cursor, Feed.EVENT_LOG_PAGE);
  }

  /** It is there exactly when the window reaches back to the cursor and on past it, or, behind the window, when it is not swept. */
  lemma NextRowIff(feed: Feed.Sys, cursor: nat)
    requires Feed.WindowTails(feed)
    ensures
      NextRow(feed, cursor).Some? <==>
      cursor < feed.feed.head && (feed.feed.head - |feed.feed.window| <= cursor || cursor + 1 !in feed.swept)
  {
    hide Feed.Consecutive;
    if cursor < feed.feed.head {
      Behind(feed, cursor);
    }
  }

  lemma Behind(feed: Feed.Sys, cursor: nat)
    requires cursor < |feed.log|
    ensures
      var page := Feed.ReadLog(feed.log, feed.swept, cursor, Feed.EVENT_LOG_PAGE);
      page != [] && page[0].position == cursor + 1 <==> cursor + 1 !in feed.swept
  {
    hide Feed.RowsAfter, Feed.Covers;
    if cursor + 1 in feed.swept {
      Feed.ReadLogReads(feed.log, feed.swept, cursor + 1, Feed.EVENT_LOG_PAGE);
      FirstIsLater(Feed.ReadLog(feed.log, feed.swept, cursor + 1, Feed.EVENT_LOG_PAGE), feed.log, cursor + 1);
    }
  }

  lemma FirstIsLater(rows: seq<Feed.Logged>, log: seq<Feed.Event>, after: nat)
    requires Feed.RowsAfter(rows, log, after)
    ensures rows != [] ==> after < rows[0].position
  {
  }

  // ------------------------------------------------------------------
  // The pipeline
  // ------------------------------------------------------------------

  datatype Pipeline = Pipeline(db: Db.Db, feed: Feed.Sys, world: Client.World)

  /** Committing and sweeping happen in the database, sending on the route; the rest is each side's own. */
  datatype Step =
    | Database(db: Db.Step)
    | Tail(feed: Feed.Step)
    | Serve
    | Subscriber(client: Client.Step)

  /** The rows of the game that a sweep takes. */
  function SweptOf(db: Db.Db, step: Db.Step, game: Db.GameId): set<nat> {
    if step.Sweep? then set key | key in step.aged && key in db.visible && key.0 == game :: key.1 else {}
  }

  function AfterDatabase(game: Db.GameId, p: Pipeline, step: Db.Step): Pipeline {
    var added := Db.Added(p.db, step, game);
    Pipeline(Db.Apply(p.db, step),
             p.feed.(log := p.feed.log + FeedLog(added), swept := p.feed.swept + SweptOf(p.db, step, game)),
             p.world.(log := p.world.log + ClientLog(added)))
  }

  function Apply(o: Client.Options, game: Db.GameId, p: Pipeline, step: Step): Pipeline {
    match step
    case Database(db) => AfterDatabase(game, p, db)
    case Tail(feed) => if feed.Commit? || feed.Sweep? then p else p.(feed := Feed.Apply(p.feed, feed))
    case Serve => if NextRow(p.feed, p.world.cursor).Some? then p.(world := Client.Apply(o, p.world, Client.Send)) else p
    case Subscriber(client) => if client.Commit? || client.Send? then p else p.(world := Client.Apply(o, p.world, client))
  }

  function Run(o: Client.Options, game: Db.GameId, p: Pipeline, steps: seq<Step>): Pipeline {
    if steps == [] then p else Apply(o, game, Run(o, game, p, steps[..|steps| - 1]), steps[|steps| - 1])
  }

  /** A database with a history, a feed started at `head`, a subscription from `start` on. */
  function Begin(game: Db.GameId, earlier: seq<Db.Step>, swept: set<nat>, head: nat, start: nat): Pipeline {
    var db := Db.Run(Db.EMPTY_DB, earlier);
    Pipeline(db, Feed.Start(FeedLog(Db.Log(db, game)), swept, head), Client.Begin(ClientLog(Db.Log(db, game)), start))
  }

  function DbSteps(steps: seq<Step>): seq<Db.Step> {
    if steps == [] then []
    else DbSteps(steps[..|steps| - 1]) + if steps[|steps| - 1].Database? then [steps[|steps| - 1].db] else []
  }

  // ------------------------------------------------------------------
  // What every run keeps
  // ------------------------------------------------------------------

  ghost predicate Inv(o: Client.Options, game: Db.GameId, p: Pipeline) {
    && Db.Inv(p.db) && Feed.Inv(p.feed)
    && Client.InOrder(o, p.world) && Client.Tidy(p.world.client) && Client.BackedOff(o, p.world.client)
    && p.feed.log == FeedLog(Db.Log(p.db, game)) && p.world.log == ClientLog(Db.Log(p.db, game))
  }

  lemma {:induction false} FeedGrows(feed: Feed.Sys, events: seq<Feed.Event>)
    requires Feed.Inv(feed)
    ensures Feed.Inv(feed.(log := feed.log + events))
  {
    hide Feed.Inv;
    if events == [] {
      assert feed.log + events == feed.log;
    } else {
      var init := events[..|events| - 1];
      FeedGrows(feed, init);
      Feed.StepKeeps(feed.(log := feed.log + init), Feed.Commit(events[|events| - 1]));
      assert feed.log + init + [events[|events| - 1]] == feed.log + events;
    }
  }

  lemma {:induction false} WorldGrows(o: Client.Options, w: Client.World, events: seq<Client.Event>)
    requires Client.InOrder(o, w) && Client.Tidy(w.client)
    ensures Client.InOrder(o, w.(log := w.log + events))
  {
    hide Client.InOrder, Client.Tidy;
    if events == [] {
      assert w.log + events == w.log;
    } else {
      var init := events[..|events| - 1];
      WorldGrows(o, w, init);
      Client.TidyReads(w.client);
      Client.StepKeepsOrder(o, w.(log := w.log + init), Client.Commit(events[|events| - 1]));
      assert w.log + init + [events[|events| - 1]] == w.log + events;
    }
  }

  lemma DatabaseKeeps(o: Client.Options, game: Db.GameId, p: Pipeline, step: Db.Step)
    requires Inv(o, game, p)
    ensures Inv(o, game, AfterDatabase(game, p, step))
  {
    hide Db.Inv, Feed.Inv, Client.InOrder, Client.Tidy, Client.BackedOff, Db.Apply, Db.Added, Db.Log, FeedLog, ClientLog;
    var added := Db.Added(p.db, step, game);
    Db.StepKeeps(p.db, step);
    Db.StepAppends(p.db, step, game);
    LogsAppend(Db.Log(p.db, game), added);
    FeedGrows(p.feed, FeedLog(added));
    Feed.StepKeeps(p.feed.(log := p.feed.log + FeedLog(added)), Feed.Sweep(SweptOf(p.db, step, game)));
    WorldGrows(o, p.world, ClientLog(added));
  }

  lemma ClientKeeps(o: Client.Options, w: Client.World, step: Client.Step)
    requires Client.InOrder(o, w) && Client.Tidy(w.client) && Client.BackedOff(o, w.client)
    ensures
      var after := Client.Apply(o, w, step);
      Client.InOrder(o, after) && Client.Tidy(after.client) && Client.BackedOff(o, after.client)
  {
    hide Client.InOrder, Client.Tidy, Client.BackedOff, Client.Apply;
    Client.TidyReads(w.client);
    Client.StepKeepsOrder(o, w, step);
    Client.StepKeepsTidy(o, w, step);
  }

  lemma ClientKeepsLog(o: Client.Options, w: Client.World, step: Client.Step)
    requires !step.Commit?
    ensures Client.Apply(o, w, step).log == w.log
  {
  }

  lemma FeedKeepsLog(s: Feed.Sys, step: Feed.Step)
    requires !step.Commit?
    ensures Feed.Apply(s, step).log == s.log
  {
  }

  lemma StepKeeps(o: Client.Options, game: Db.GameId, p: Pipeline, step: Step)
    requires Inv(o, game, p)
    ensures Inv(o, game, Apply(o, game, p, step))
  {
    hide Db.Inv, Feed.Inv, Client.InOrder, Client.Tidy, Client.BackedOff, Client.Apply, Feed.Apply, AfterDatabase;
    match step
    case Database(db) => DatabaseKeeps(o, game, p, db);
    case Tail(feed) =>
      if !feed.Commit? {
        Feed.StepKeeps(p.feed, feed);
        FeedKeepsLog(p.feed, feed);
      }
    case Serve =>
      ClientKeeps(o, p.world, Client.Send);
      ClientKeepsLog(o, p.world, Client.Send);
    case Subscriber(client) =>
      if !client.Commit? {
        ClientKeeps(o, p.world, client);
        ClientKeepsLog(o, p.world, client);
      }
  }

  lemma {:induction false} RunKeeps(o: Client.Options, game: Db.GameId, earlier: seq<Db.Step>, swept: set<nat>, head: nat, start: nat,
                                    steps: seq<Step>)
    requires head <= |Db.Log(Db.Run(Db.EMPTY_DB, earlier), game)| && start <= |Db.Log(Db.Run(Db.EMPTY_DB, earlier), game)|
    ensures Inv(o, game, Run(o, game, Begin(game, earlier, swept, head, start), steps))
  {
    hide Db.Inv, Feed.Inv, Client.InOrder, Client.Tidy, Client.BackedOff, Apply, Db.Log, Db.Run;
    if steps == [] {
      var log := Db.Log(Db.Run(Db.EMPTY_DB, earlier), game);
      Db.RunKeeps(earlier);
      FeedBegins(FeedLog(log), swept, head);
      Client.BeginInOrder(o, ClientLog(log), start);
    } else {
      RunKeeps(o, game, earlier, swept, head, start, steps[..|steps| - 1]);
      StepKeeps(o, game, Run(o, game, Begin(game, earlier, swept, head, start), steps[..|steps| - 1]), steps[|steps| - 1]);
    }
  }

  lemma FeedBegins(log: seq<Feed.Event>, swept: set<nat>, head: nat)
    requires head <= |log|
    ensures Feed.Inv(Feed.Start(log, swept, head))
  {
    Feed.RunKeeps(log, swept, head, []);
  }

  /** The database is untouched by its readers: it runs its own steps alone. */
  lemma {:induction false} DatabaseRuns(o: Client.Options, game: Db.GameId, earlier: seq<Db.Step>, swept: set<nat>, head: nat, start: nat,
                                        steps: seq<Step>)
    ensures Run(o, game, Begin(game, earlier, swept, head, start), steps).db == Db.Run(Db.EMPTY_DB, earlier + DbSteps(steps))
    ensures Run(o, game, Begin(game, earlier, swept, head, start), steps).world.start == start
  {
    hide Client.Apply, Feed.Apply, Db.Apply;
    if steps == [] {
      assert earlier + DbSteps(steps) == earlier;
    } else {
      var init, last := steps[..|steps| - 1], steps[|steps| - 1];
      DatabaseRuns(o, game, earlier, swept, head, start, init);
      var p := Run(o, game, Begin(game, earlier, swept, head, start), init);
      if last.Database? {
        var all := earlier + DbSteps(steps);
        assert DbSteps(steps) == DbSteps(init) + [last.db];
        assert all[..|all| - 1] == earlier + DbSteps(init) && all[|all| - 1] == last.db;
      } else {
        assert DbSteps(steps) == DbSteps(init);
      }
      if last.Subscriber? {
        Client.StepKeepsStart(o, p.world, last.client);
      } else if last.Serve? {
        Client.StepKeepsStart(o, p.world, Client.Send);
      }
    }
  }

  // ------------------------------------------------------------------
  // From commit to handler
  // ------------------------------------------------------------------

  /** A position a resync reported to have jumped over. */
  ghost predicate InGap(gaps: seq<Client.Gap>, position: nat) {
    exists i :: 0 <= i < |gaps| && gaps[i].from < position <= gaps[i].to
  }

  /** Log entries at positions after `lo` up to `hi`, in the order of their positions, each once. */
  ghost predicate Stretch(log: seq<Client.Event>, delivered: seq<Client.Delivery>, lo: nat, hi: nat)
    requires hi <= |log|
  {
    && (forall i :: 0 <= i < |delivered| ==> lo < delivered[i].0 <= hi && delivered[i].1 == log[delivered[i].0 - 1])
    && (forall i, j :: 0 <= i < j < |delivered| ==> delivered[i].0 < delivered[j].0)
  }

  ghost predicate HandledAt(o: Client.Options, log: seq<Client.Event>, position: nat) {
    0 < position <= |log| && Client.Handled(o, log[position - 1])
  }

  ghost predicate Got(log: seq<Client.Event>, delivered: seq<Client.Delivery>, position: nat)
    requires 0 < position <= |log|
  {
    (position, log[position - 1]) in delivered
  }

  /** Every entry to be handled in between has been delivered, or lies in a gap. */
  ghost predicate Complete(o: Client.Options, log: seq<Client.Event>, gaps: seq<Client.Gap>, delivered: seq<Client.Delivery>, lo: nat, hi: nat) {
    forall p: nat :: lo < p <= hi && HandledAt(o, log, p) ==> InGap(gaps, p) || Got(log, delivered, p)
  }

  lemma StretchAppend(log: seq<Client.Event>, a: seq<Client.Delivery>, b: seq<Client.Delivery>, lo: nat, mid: nat, from: nat, hi: nat)
    requires lo <= mid <= from <= hi <= |log| && Stretch(log, a, lo, mid) && Stretch(log, b, from, hi)
    ensures Stretch(log, a + b, lo, hi)
  {
    var ab := a + b;
    assert forall i :: 0 <= i < |ab| ==> ab[i] == if i < |a| then a[i] else b[i - |a|];
  }

  lemma {:induction false} WantedIsTheLog(o: Client.Options, log: seq<Client.Event>, lo: nat, hi: nat)
    requires lo <= hi <= |log|
    ensures Stretch(log, Client.Wanted(o, log, lo, hi), lo, hi)
    ensures Complete(o, log, [], Client.Wanted(o, log, lo, hi), lo, hi)
    decreases hi
  {
    hide Client.Handled;
    if lo < hi {
      WantedIsTheLog(o, log, lo, hi - 1);
      var before := Client.Wanted(o, log, lo, hi - 1);
      var last := if Client.Handled(o, log[hi - 1]) then [(hi, log[hi - 1])] else [];
      StretchAppend(log, before, last, lo, hi - 1, hi - 1, hi);
      forall p: nat | lo < p <= hi && HandledAt(o, log, p)
        ensures Got(log, before + last, p)
      {
        if p < hi {
          assert !InGap([], p);
          assert Got(log, before, p);
        } else {
          assert (before + last)[|before|] == (hi, log[hi - 1]);
        }
      }
    }
  }

  lemma {:induction false} ExpectedIsTheLog(o: Client.Options, log: seq<Client.Event>, start: nat, gaps: seq<Client.Gap>, position: nat)
    requires position <= |log| && Client.GapsInOrder(start, gaps, position)
    ensures start <= position && Stretch(log, Client.Expected(o, log, start, gaps, position), start, position)
    ensures Complete(o, log, gaps, Client.Expected(o, log, start, gaps, position), start, position)
    decreases |gaps|
  {
    hide Client.Wanted, HandledAt, Stretch;
    if gaps == [] {
      WantedIsTheLog(o, log, start, position);
    } else {
      var init, last := gaps[..|gaps| - 1], gaps[|gaps| - 1];
      ExpectedIsTheLog(o, log, start, init, last.from);
      WantedIsTheLog(o, log, last.to, position);
      var before, after := Client.Expected(o, log, start, init, last.from), Client.Wanted(o, log, last.to, position);
      StretchAppend(log, before, after, start, last.from, last.to, position);
      forall p: nat | start < p <= position && HandledAt(o, log, p)
        ensures InGap(gaps, p) || Got(log, before + after, p)
      {
        SplitAtGap(o, log, gaps, before, after, start, position, p);
      }
    }
  }

  lemma SplitAtGap(o: Client.Options, log: seq<Client.Event>, gaps: seq<Client.Gap>, before: seq<Client.Delivery>, after: seq<Client.Delivery>,
                   start: nat, position: nat, p: nat)
    requires gaps != [] && start < p <= position <= |log| && HandledAt(o, log, p)
    requires Complete(o, log, gaps[..|gaps| - 1], before, start, gaps[|gaps| - 1].from)
    requires Complete(o, log, [], after, gaps[|gaps| - 1].to, position)
    ensures InGap(gaps, p) || Got(log, before + after, p)
  {
    var init, last := gaps[..|gaps| - 1], gaps[|gaps| - 1];
    if last.from < p <= last.to {
      assert gaps[|gaps| - 1].from < p <= gaps[|gaps| - 1].to;
    } else if last.to < p {
      assert !InGap([], p);
      assert Got(log, after, p);
    } else if InGap(init, p) {
      var i :| 0 <= i < |init| && init[i].from < p <= init[i].to;
      assert gaps[i] == init[i];
    } else {
      assert Got(log, before, p);
    }
  }

  /**
   From commit to handler. Over every interleaving of transactions staging, committing and aborting,
   sweeps, feed reads and wake-ups, the route, cuts, reconnects and resyncs: the handler has been given
   committed rows of the game in the order of their positions, each once, and between where it
   subscribed and where it stands it lacks none that it handles, save those in a reported gap.
   */
  lemma EventsReachTheHandler(o: Client.Options, game: Db.GameId, earlier: seq<Db.Step>, swept: set<nat>, head: nat, start: nat,
                              steps: seq<Step>)
    requires head <= |Db.Log(Db.Run(Db.EMPTY_DB, earlier), game)| && start <= |Db.Log(Db.Run(Db.EMPTY_DB, earlier), game)|
    ensures
      var client := Run(o, game, Begin(game, earlier, swept, head, start), steps).world.client;
      var log := ClientLog(Db.Log(Db.Run(Db.EMPTY_DB, earlier + DbSteps(steps)), game));
      && start <= client.position <= |log|
      && Stretch(log, client.delivered, start, client.position)
      && Complete(o, log, client.gaps, client.delivered, start, client.position)
      && (!o.hasResync ==> client.gaps == [])
  {
    hide Db.Inv, Db.Run, Db.Log, Feed.Inv, Client.Tidy, Client.BackedOff, Run, Stretch, Complete, Client.Expected;
    RunKeeps(o, game, earlier, swept, head, start, steps);
    DatabaseRuns(o, game, earlier, swept, head, start, steps);
    var p := Run(o, game, Begin(game, earlier, swept, head, start), steps);
    ExpectedIsTheLog(o, p.world.log, start, p.world.client.gaps, p.world.client.position);
    NoGaps(o, game, earlier, swept, head, start, steps);
  }

  lemma {:induction false} NoGaps(o: Client.Options, game: Db.GameId, earlier: seq<Db.Step>, swept: set<nat>, head: nat, start: nat,
                                  steps: seq<Step>)
    ensures
      var c := Run(o, game, Begin(game, earlier, swept, head, start), steps).world.client;
      !o.hasResync ==> c.gaps == [] && c.opening != Some(Client.Resyncing)
  {
    hide Client.Apply, Feed.Apply, Db.Apply;
    if steps != [] && !o.hasResync {
      NoGaps(o, game, earlier, swept, head, start, steps[..|steps| - 1]);
      var p := Run(o, game, Begin(game, earlier, swept, head, start), steps[..|steps| - 1]);
      match steps[|steps| - 1]
      case Subscriber(client) => Client.StepNeverResyncs(o, p.world, client);
      case Serve => Client.StepNeverResyncs(o, p.world, Client.Send);
      case _ =>
    }
  }

  /**
   And nothing committed is out of reach: in every run, with the feed idle and neither stopped nor behind
   after a failed read, a stream that has not been sent a row committed before the last wake-up is sent
   one, unless that row is swept.
   */
  lemma CommittedRowsAreServed(o: Client.Options, game: Db.GameId, earlier: seq<Db.Step>, swept: set<nat>, head: nat, start: nat,
                               steps: seq<Step>)
    requires head <= |Db.Log(Db.Run(Db.EMPTY_DB, earlier), game)| && start <= |Db.Log(Db.Run(Db.EMPTY_DB, earlier), game)|
    requires
      var p := Run(o, game, Begin(game, earlier, swept, head, start), steps);
      && !p.feed.feed.reading && !p.feed.feed.stopped && !p.feed.failed
      && p.world.cursor < p.feed.woken && p.world.cursor + 1 !in p.feed.swept
    ensures
      var p := Run(o, game, Begin(game, earlier, swept, head, start), steps);
      && p.world.cursor < |Db.Log(p.db, game)|
      && NextRow(p.feed, p.world.cursor) == Some(Feed.Logged(p.world.cursor + 1, Db.Log(p.db, game)[p.world.cursor].id))
  {
    hide Db.Inv, Db.Run, Db.Log, Client.InOrder, Client.Tidy, Client.BackedOff, Run;
    RunKeeps(o, game, earlier, swept, head, start, steps);
    var p := Run(o, game, Begin(game, earlier, swept, head, start), steps);
    RowIsThere(p.feed, p.world.cursor);
    NextRowIsNext(p.feed, p.world.cursor);
  }

  lemma RowIsThere(feed: Feed.Sys, cursor: nat)
    requires Feed.Inv(feed) && !feed.feed.reading && !feed.feed.stopped && !feed.failed
    requires cursor < feed.woken && cursor + 1 !in feed.swept
    ensures NextRow(feed, cursor).Some?
  {
    hide Feed.Consecutive, Feed.RowsAfter, Feed.QueryTracks;
    assert Feed.CaughtUp(feed, feed.woken);
    assert cursor + 1 <= feed.feed.head;
  }

  /**
   The route sends a stream the next row, if its type is asked for, exactly when the feed's window or the
   log behind it has the row; and nothing but the route sends.
   */
  lemma ServeSendsIff(o: Client.Options, game: Db.GameId, p: Pipeline)
    requires Inv(o, game, p)
    ensures
      var t, w := Apply(o, game, p, Serve), p.world;
      var there := w.cursor < p.feed.feed.head && (p.feed.feed.head - |p.feed.feed.window| <= w.cursor || w.cursor + 1 !in p.feed.swept);
      && t.db == p.db && t.feed == p.feed && t.world.client == w.client
      && t.world.cursor == w.cursor + (if there && !w.cut then 1 else 0)
      && (there ==> w.cursor < |w.log|)
      && t.world.wire == w.wire + (if there && !w.cut && Client.Matches(o, w.log[w.cursor]) then [Client.EventFrame(w.cursor + 1, w.log[w.cursor])] else [])
    ensures Apply(o, game, p, Subscriber(Client.Send)) == p
  {
    hide Db.Inv, Client.InOrder, Client.Tidy, Client.BackedOff, Db.Log, Client.Matches, NextRow, Feed.Consecutive, Feed.QueryTracks;
    NextRowIff(p.feed, p.world.cursor);
  }

  /** What the feed takes for swept are the committed rows of the game that are no longer visible. */
  ghost predicate SweptIsInvisible(game: Db.GameId, db: Db.Db, swept: set<nat>) {
    forall q :: q in swept <==> 1 <= q <= |Db.Log(db, game)| && (game, q) !in db.visible
  }

  lemma SweepsAreSeen(game: Db.GameId, p: Pipeline, step: Db.Step)
    requires Db.Inv(p.db) && SweptIsInvisible(game, p.db, p.feed.swept)
    ensures SweptIsInvisible(game, AfterDatabase(game, p, step).db, AfterDatabase(game, p, step).feed.swept)
  {
    hide Db.Inv, Db.Apply, Db.Log, Db.Added;
    Db.StepAppends(p.db, step, game);
    SweepsAddNothing(game, p.db, step);
    forall q: nat
      ensures q in AfterDatabase(game, p, step).feed.swept <==>
              1 <= q <= |Db.Log(Db.Apply(p.db, step), game)| && (game, q) !in Db.Apply(p.db, step).visible
    {
      Db.StepShows(p.db, step, game, q);
      if (game, q) in p.db.visible {
        VisibleIsCommitted(p.db, game, q);
      }
      if step.Sweep? && (game, q) in step.aged && (game, q) in p.db.visible {
        assert (game, q).1 in SweptOf(p.db, step, game);
      }
    }
  }

  lemma SweepsAddNothing(game: Db.GameId, db: Db.Db, step: Db.Step)
    ensures step.Sweep? ==> Db.Added(db, step, game) == []
  {
  }

  lemma VisibleIsCommitted(db: Db.Db, game: Db.GameId, q: nat)
    requires Db.Inv(db) && (game, q) in db.visible
    ensures 1 <= q <= |Db.Log(db, game)|
  {
    hide Db.ValidTx;
    Db.GaplessAt(db, game);
    Db.KeyOfRow(db.committed, game, q);
  }

  /** In every run the feed reads what the database shows: a row counts as swept for it exactly when a sweep has taken it. */
  lemma {:induction false} FeedSeesTheDatabase(o: Client.Options, game: Db.GameId, earlier: seq<Db.Step>, swept: set<nat>, head: nat, start: nat,
                                               steps: seq<Step>)
    requires SweptIsInvisible(game, Db.Run(Db.EMPTY_DB, earlier), swept)
    requires head <= |Db.Log(Db.Run(Db.EMPTY_DB, earlier), game)| && start <= |Db.Log(Db.Run(Db.EMPTY_DB, earlier), game)|
    ensures
      var p := Run(o, game, Begin(game, earlier, swept, head, start), steps);
      p.feed.log == FeedLog(Db.Log(p.db, game)) && SweptIsInvisible(game, p.db, p.feed.swept)
  {
    hide Db.Run, Db.Apply, Db.Log, Db.Inv, Feed.Inv, Client.Apply, Client.InOrder, Client.Tidy, Client.BackedOff, SweptIsInvisible, AfterDatabase;
    RunKeeps(o, game, earlier, swept, head, start, steps);
    if steps != [] {
      var init, last := steps[..|steps| - 1], steps[|steps| - 1];
      FeedSeesTheDatabase(o, game, earlier, swept, head, start, init);
      RunKeeps(o, game, earlier, swept, head, start, init);
      var p := Run(o, game, Begin(game, earlier, swept, head, start), init);
      match last
      case Database(db) => SweepsAreSeen(game, p, db);
      case Tail(feed) => if !feed.Sweep? { SweptStays(p.feed, feed); }
      case _ =>
    }
  }

  lemma SweptStays(s: Feed.Sys, step: Feed.Step)
    requires !step.Sweep?
    ensures Feed.Apply(s, step).swept == s.swept
  {
  }

  // ------------------------------------------------------------------
  // What is committed arrives
  // ------------------------------------------------------------------

  /** The feed reads, the route sends and the subscriber reads and reconnects; nothing fails and nobody closes. */
  predicate Delivers(step: Step) {
    match step
    case Database(_) => false
    case Tail(feed) => feed.Wake? || feed.Answer? || feed.Arrive?
    case Serve => true
    case Subscriber(client) =>
      client.ReadFrames? || client.ReadEnd? || client.RetryTimer? || client == Client.Accept(false) || client == Client.Resume([], 0, false)
  }

  predicate OnlyDelivers(steps: seq<Step>) {
    forall i :: 0 <= i < |steps| ==> Delivers(steps[i])
  }

  lemma {:induction false} RunsOn(o: Client.Options, game: Db.GameId, p: Pipeline, steps: seq<Step>, more: seq<Step>)
    ensures Run(o, game, p, steps + more) == Run(o, game, Run(o, game, p, steps), more)
  {
    if more == [] {
      assert steps + more == steps;
    } else {
      RunsOn(o, game, p, steps, more[..|more| - 1]);
      assert (steps + more)[..|steps + more| - 1] == steps + more[..|more| - 1];
    }
  }

  lemma ThenRun(o: Client.Options, game: Db.GameId, p: Pipeline, step: Step, more: seq<Step>)
    ensures Run(o, game, p, [step] + more) == Run(o, game, Apply(o, game, p, step), more)
  {
    assert [step][..0] == [];
    assert Run(o, game, p, [step]) == Apply(o, game, p, step);
    RunsOn(o, game, p, [step], more);
  }

  function Tails(steps: seq<Feed.Step>): seq<Step> {
    seq(|steps|, i requires 0 <= i < |steps| => Tail(steps[i]))
  }

  lemma {:induction false} TailsRun(o: Client.Options, game: Db.GameId, p: Pipeline, steps: seq<Feed.Step>)
    requires forall i :: 0 <= i < |steps| ==> !steps[i].Commit? && !steps[i].Sweep?
    ensures Run(o, game, p, Tails(steps)) == p.(feed := Feed.Run(p.feed, steps))
  {
    if steps != [] {
      var init := steps[..|steps| - 1];
      TailsRun(o, game, p, init);
      assert Tails(steps)[..|steps| - 1] == Tails(init);
    }
  }

  /** A wake-up and the reads it takes: the feed has everything committed, and no one else is touched. */
  lemma FeedArrives(o: Client.Options, game: Db.GameId, p: Pipeline) returns (more: seq<Step>)
    requires Inv(o, game, p) && !p.feed.feed.stopped
    ensures OnlyDelivers(more)
    ensures
      var t := Run(o, game, p, more);
      && Inv(o, game, t) && t.db == p.db && t.world == p.world && t.feed.log == p.feed.log && t.feed.swept == p.feed.swept
      && Feed.CaughtUp(t.feed, |t.feed.log|)
  {
    hide Db.Inv, Feed.Inv, Client.InOrder, Client.Tidy, Client.BackedOff, Feed.CaughtUp, Feed.Run, Feed.Apply;
    var pages := Feed.WokenFeedCatchesUp(p.feed);
    var steps := [Feed.Wake] + pages;
    Feed.ThenRun(p.feed, Feed.Wake, pages);
    TailsRun(o, game, p, steps);
    more := Tails(steps);
    TailsInv(o, game, p, steps);
  }

  lemma {:induction false} TailsInv(o: Client.Options, game: Db.GameId, p: Pipeline, steps: seq<Feed.Step>)
    requires Inv(o, game, p)
    ensures Inv(o, game, Run(o, game, p, Tails(steps)))
  {
    hide Inv, Apply;
    if steps != [] {
      TailsInv(o, game, p, steps[..|steps| - 1]);
      assert Tails(steps)[..|steps| - 1] == Tails(steps[..|steps| - 1]);
      StepKeeps(o, game, Run(o, game, p, Tails(steps[..|steps| - 1])), Tail(steps[|steps| - 1]));
    }
  }

  /** With the feed caught up, every unswept row of the log is sent to a stream that stands before it. */
  lemma CommittedRowIsThere(feed: Feed.Sys, cursor: nat)
    requires Feed.Inv(feed) && Feed.CaughtUp(feed, |feed.log|) && cursor < |feed.log| && cursor + 1 !in feed.swept
    ensures NextRow(feed, cursor).Some?
  {
    hide Feed.Consecutive, Feed.RowsAfter, Feed.QueryTracks;
    assert cursor + 1 <= feed.feed.head;
  }

  /** A stream being read and not cut, with nothing of it waiting to be handled. */
  predicate Open(w: Client.World) {
    !w.client.closed && w.client.pumping && w.client.ready == Client.Pending && !w.cut
  }

  /** The route sends a stream everything from its cursor to the end of the log. */
  lemma {:induction false} RouteArrives(o: Client.Options, game: Db.GameId, p: Pipeline) returns (more: seq<Step>)
    requires Inv(o, game, p) && Open(p.world) && Feed.CaughtUp(p.feed, |p.feed.log|) && p.world.cursor <= |p.world.log|
    requires forall q :: p.world.cursor < q <= |p.world.log| ==> q !in p.feed.swept
    ensures OnlyDelivers(more)
    ensures
      var t := Run(o, game, p, more);
      && Inv(o, game, t) && t.db == p.db && t.feed == p.feed && t.world.log == p.world.log && t.world.client == p.world.client
      && Open(t.world) && t.world.cursor == |t.world.log|
    decreases |p.world.log| - p.world.cursor
  {
    hide Db.Inv, Feed.Inv, Client.InOrder, Client.Tidy, Client.BackedOff, Feed.CaughtUp, Client.Matches, Run, NextRow;
    if p.world.cursor == |p.world.log| {
      more := [];
      RunNothing(o, game, p);
    } else {
      CommittedRowIsThere(p.feed, p.world.cursor);
      var next := Apply(o, game, p, Serve);
      StepKeeps(o, game, p, Serve);
      var rest := RouteArrives(o, game, next);
      more := [Serve] + rest;
      ThenRun(o, game, p, Serve, rest);
    }
  }

  lemma RunNothing(o: Client.Options, game: Db.GameId, p: Pipeline)
    ensures Run(o, game, p, []) == p
  {
  }

  /** Frames in transit only move the position on, and a handler that takes them all closes nothing. */
  lemma {:induction false} FramesMoveOn(o: Client.Options, log: seq<Client.Event>, c: Client.Client, frames: seq<Client.Frame>, i: nat,
                                        wire: seq<Client.Frame>, cursor: nat)
    requires i <= |frames| && !c.closed && Client.InTransit(o, log, c.position, frames[i..] + wire, cursor)
    ensures
      var after := Client.HandleFrames(o, c, frames, [], i);
      !after.closed && c.position <= after.position && after.pumping == c.pumping && after.ready == c.ready
    decreases |frames| - i
  {
    if i < |frames| {
      hide Client.Quiet;
      assert (frames[i..] + wire)[0] == frames[i] && (frames[i..] + wire)[1..] == frames[i + 1..] + wire;
      FramesMoveOn(o, log, Client.HandleFrame(o, c, frames[i], Client.Fine), frames, i + 1, wire, cursor);
    }
  }

  /** How far an open subscription is from reading a stream. */
  function Away(w: Client.World): nat {
    var c := w.client;
    if c.opening.Some? then 1
    else if c.timer then 2
    else if c.ready.Ended? then 3
    else if c.ready.Chunk? then 5
    else if w.cut then 4 else 0
  }

  function TowardsReading(w: Client.World): Client.Step {
    if w.client.opening.Some? then Client.Accept(false)
    else if w.client.timer then Client.RetryTimer
    else if w.client.ready.Pending? then Client.ReadEnd
    else Client.Resume([], 0, false)
  }

  lemma OneStepNearer(o: Client.Options, w: Client.World)
    requires Client.InOrder(o, w) && Client.Tidy(w.client) && !w.client.closed && o.reconnect && w.client.ready != Client.Overflowed && !Open(w)
    ensures
      var t := Client.Apply(o, w, TowardsReading(w));
      && !t.client.closed && t.client.ready != Client.Overflowed && w.client.position <= t.client.position && Away(t) < Away(w)
  {
    hide Client.Delay, Client.HandleFrames, Client.Matches;
    var c := w.client;
    Client.PositionIsLogged(o, w);
    if c.ready.Chunk? {
      assert c.ready.frames[0..] == c.ready.frames;
      FramesMoveOn(o, w.log, c.(ready := Client.Pending), c.ready.frames, 0, w.wire, w.cursor);
      var n := Client.HandledStillReads(o, c.(ready := Client.Pending), c.ready.frames, [], 0);
    }
  }

  /** A subscription that is open, and may reconnect, comes to read a stream. */
  lemma {:induction false} SubscriberReads(o: Client.Options, game: Db.GameId, p: Pipeline) returns (more: seq<Step>)
    requires Inv(o, game, p) && !p.world.client.closed && o.reconnect && p.world.client.ready != Client.Overflowed
    ensures OnlyDelivers(more)
    ensures
      var t := Run(o, game, p, more);
      && Inv(o, game, t) && t.db == p.db && t.feed == p.feed && t.world.log == p.world.log
      && Open(t.world) && p.world.client.position <= t.world.client.position
    decreases Away(p.world)
  {
    hide Db.Inv, Feed.Inv, Client.InOrder, Client.BackedOff, Client.Apply, Run;
    if Open(p.world) {
      more := [];
      RunNothing(o, game, p);
    } else {
      hide Client.Tidy;
      OneStepNearer(o, p.world);
      var step := Subscriber(TowardsReading(p.world));
      StepKeeps(o, game, p, step);
      ClientKeepsLog(o, p.world, step.client);
      var rest := SubscriberReads(o, game, Apply(o, game, p, step));
      more := [step] + rest;
      ThenRun(o, game, p, step, rest);
    }
  }

  lemma CursorIsBetween(o: Client.Options, w: Client.World)
    requires Client.InOrder(o, w) && Open(w)
    ensures w.client.position <= w.cursor <= |w.log|
  {
    hide Client.Quiet, Client.Faithful;
    TransitBounds(o, w.log, w.client.position, w.wire, w.cursor);
    assert Client.Unread(w.client.ready) + w.wire == w.wire;
  }

  lemma {:induction false} TransitBounds(o: Client.Options, log: seq<Client.Event>, from: nat, frames: seq<Client.Frame>, cursor: nat)
    ensures Client.InTransit(o, log, from, frames, cursor) ==> from <= cursor <= |log|
    decreases |frames|
  {
    if frames != [] {
      TransitBounds(o, log, frames[0].id, frames[1..], cursor);
    }
  }

  /** Everything on the wire is read and handled. */
  lemma HandlerArrives(o: Client.Options, game: Db.GameId, p: Pipeline) returns (more: seq<Step>)
    requires Inv(o, game, p) && Open(p.world) && p.world.cursor == |p.world.log|
    ensures OnlyDelivers(more)
    ensures
      var t := Run(o, game, p, more);
      && Inv(o, game, t) && t.db == p.db && t.feed == p.feed && t.world.log == p.world.log && !t.world.client.closed
      && Client.Quiet(o, t.world.log, t.world.client.position, |t.world.log|)
  {
    hide Db.Inv, Feed.Inv, Client.BackedOff, Client.Quiet, Run;
    var read, handle := Subscriber(Client.ReadFrames(|p.world.wire|)), Subscriber(Client.Resume([], 0, false));
    more := [read, handle];
    var mid := Apply(o, game, p, read);
    var t := Apply(o, game, mid, handle);
    TwoSteps(o, game, p, read, handle);
    StepKeeps(o, game, p, read);
    StepKeeps(o, game, mid, handle);
    AllIsHandled(o, p.world);
  }

  lemma TwoSteps(o: Client.Options, game: Db.GameId, p: Pipeline, a: Step, b: Step)
    ensures Run(o, game, p, [a, b]) == Apply(o, game, Apply(o, game, p, a), b)
  {
    hide Apply;
    assert [a, b] == [a] + [b] && [a] + [] == [a] && [b] + [] == [b];
    ThenRun(o, game, p, a, [b]);
    ThenRun(o, game, Apply(o, game, p, a), b, []);
  }

  lemma AllIsHandled(o: Client.Options, w: Client.World)
    requires Client.InOrder(o, w) && Open(w) && w.cursor == |w.log|
    ensures
      var t := Client.Apply(o, Client.Apply(o, w, Client.ReadFrames(|w.wire|)), Client.Resume([], 0, false));
      t.log == w.log && !t.client.closed && Client.Quiet(o, t.log, t.client.position, |t.log|)
  {
    hide Client.Quiet, Client.HandleFrames, Client.Delay;
    var c := w.client;
    assert w.wire[..|w.wire|] == w.wire && w.wire[|w.wire|..] == [];
    assert Client.Unread(c.ready) + w.wire == w.wire && w.wire[0..] + [] == w.wire;
    FramesMoveOn(o, w.log, c, w.wire, 0, [], w.cursor);
    Client.FramesAreFaithful(o, w.log, w.start, c, w.wire, [], 0, [], w.cursor);
    assert c.(ready := Client.Chunk(w.wire)).(ready := Client.Pending) == c;
  }

  lemma QuietIsComplete(o: Client.Options, w: Client.World)
    requires Client.InOrder(o, w) && Client.Quiet(o, w.log, w.client.position, |w.log|)
    ensures Complete(o, w.log, w.client.gaps, w.client.delivered, w.start, |w.log|)
  {
    hide Client.Quiet, Complete, Client.Expected, Client.Wanted, Stretch;
    var c := w.client;
    Client.QuietWantsNothing(o, w.log, c.position, |w.log|);
    Client.ExpectedExtends(o, w.log, w.start, c.gaps, c.position, |w.log|);
    ExpectedIsTheLog(o, w.log, w.start, c.gaps, |w.log|);
    assert c.delivered + [] == c.delivered;
  }

  /**
   What is committed arrives. From any state of any run in which the subscription is open and may
   reconnect, the feed runs and nothing beyond the subscription's position has been swept, the feed's
   reads, the route and the subscriber alone bring the handler every row of the log that it handles,
   save those in a reported gap, without a commit, a failure or a close on the way.
   */
  lemma CommittedEventsArrive(o: Client.Options, game: Db.GameId, earlier: seq<Db.Step>, swept: set<nat>, head: nat, start: nat,
                              steps: seq<Step>) returns (more: seq<Step>)
    requires head <= |Db.Log(Db.Run(Db.EMPTY_DB, earlier), game)| && start <= |Db.Log(Db.Run(Db.EMPTY_DB, earlier), game)|
    requires
      var p := Run(o, game, Begin(game, earlier, swept, head, start), steps);
      && o.reconnect && !p.world.client.closed && p.world.client.ready != Client.Overflowed && !p.feed.feed.stopped
      && forall q :: p.world.client.position < q <= |p.world.log| ==> q !in p.feed.swept
    ensures OnlyDelivers(more)
    ensures
      var p := Run(o, game, Begin(game, earlier, swept, head, start), steps);
      var t := Run(o, game, Begin(game, earlier, swept, head, start), steps + more);
      var log := ClientLog(Db.Log(p.db, game));
      && t.db == p.db && !t.world.client.closed
      && Complete(o, log, t.world.client.gaps, t.world.client.delivered, start, |log|)
  {
    hide Db.Inv, Db.Run, Db.Log, Feed.Inv, Feed.CaughtUp, Client.InOrder, Client.Tidy, Client.BackedOff, Run, Complete, OnlyDelivers, Client.Quiet;
    RunKeeps(o, game, earlier, swept, head, start, steps);
    var p := Run(o, game, Begin(game, earlier, swept, head, start), steps);
    var a := FeedArrives(o, game, p);
    var p1 := Run(o, game, p, a);
    var b := SubscriberReads(o, game, p1);
    var p2 := Run(o, game, p1, b);
    CursorIsBetween(o, p2.world);
    var c := RouteArrives(o, game, p2);
    var p3 := Run(o, game, p2, c);
    var d := HandlerArrives(o, game, p3);
    more := a + b + c + d;
    RunsOn(o, game, p, a, b);
    RunsOn(o, game, p, a + b, c);
    RunsOn(o, game, p, a + b + c, d);
    RunsOn(o, game, Begin(game, earlier, swept, head, start), steps, more);
    Together(a, b);
    Together(a + b, c);
    Together(a + b + c, d);
    DatabaseRuns(o, game, earlier, swept, head, start, steps + more);
    QuietIsComplete(o, Run(o, game, p3, d).world);
  }

  lemma Together(a: seq<Step>, b: seq<Step>)
    requires OnlyDelivers(a) && OnlyDelivers(b)
    ensures OnlyDelivers(a + b)
  {
  }
}
