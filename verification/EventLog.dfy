/**
 Commit-ordered event positions (packages/server/src/eventLog.ts). Transactions stage events,
 write them as their last statements while holding each game's counter row, and commit or
 abort; Postgres is modelled by its contract, a counter row locked from its update to the end
 of the transaction and restored by an abort.
 */
module EventLog {
  /** A game, by the rank of its id in the order the source sorts ids. */
  type GameId = nat

  type TxId = nat

  datatype Event = Event(game: GameId, id: string, kind: string)

  datatype Row = Row(game: GameId, position: nat, event: Event)

  // ------------------------------------------------------------------
  // Grouping
  // ------------------------------------------------------------------

  function EventsOf(events: seq<Event>, game: GameId): seq<Event> {
    if events == [] then []
    else
      var last := events[|events| - 1];
      EventsOf(events[..|events| - 1], game) + (if last.game == game then [last] else [])
  }

  lemma {:induction false} EventsOfAppend(a: seq<Event>, b: seq<Event>, game: GameId)
    ensures EventsOf(a + b, game) == EventsOf(a, game) + EventsOf(b, game)
  {
    if b == [] {
      assert a + b == a;
    } else {
      assert (a + b)[..|a + b| - 1] == a + b[..|b| - 1];
      EventsOfAppend(a, b[..|b| - 1], game);
    }
  }

  predicate Increasing(games: seq<GameId>) {
    forall i, j :: 0 <= i < j < |games| ==> games[i] < games[j]
  }

  function Insert(games: seq<GameId>, game: GameId): (out: seq<GameId>)
    requires Increasing(games)
    ensures Increasing(out)
    ensures forall g :: g in out <==> g in games || g == game
  {
    if games == [] then [game]
    else if game < games[0] then [game] + games
    else if game == games[0] then games
    else
      var rest := Insert(games[1..], game);
      HeadIsLeast(games);
      assert forall g :: g in rest ==> games[0] < g;
      ConsIncreasing(games[0], rest);
      [games[0]] + rest
  }

  lemma ConsIncreasing(first: GameId, rest: seq<GameId>)
    requires Increasing(rest) && forall g :: g in rest ==> first < g
    ensures Increasing([first] + rest) && forall g :: g in [first] + rest <==> g == first || g in rest
  {
    var all := [first] + rest;
    forall i, j | 0 <= i < j < |all|
      ensures all[i] < all[j]
    {
      assert all[j] == rest[j - 1] && rest[j - 1] in rest;
      assert 0 < i ==> all[i] == rest[i - 1];
    }
  }

  lemma HeadIsLeast(games: seq<GameId>)
    requires Increasing(games) && games != []
    ensures forall g :: g in games[1..] ==> games[0] < g
    ensures forall g :: g in games <==> g == games[0] || g in games[1..]
  {
    assert games == [games[0]] + games[1..];
  }

  /** The games of `events`, once each, in id order. */
  function SortedGames(events: seq<Event>): (games: seq<GameId>)
    ensures Increasing(games)
    ensures forall g :: g in games <==> EventsOf(events, g) != []
  {
    if events == [] then [] else Insert(SortedGames(events[..|events| - 1]), events[|events| - 1].game)
  }

  /** One statement's insert: positions follow `base` in order. */
  function Numbered(game: GameId, base: nat, events: seq<Event>): (rows: seq<Row>)
    ensures |rows| == |events|
    ensures forall i :: 0 <= i < |events| ==> rows[i] == Row(game, base + i + 1, events[i])
  {
    seq(|events|, i requires 0 <= i < |events| => Row(game, base + i + 1, events[i]))
  }

  function RowsOf(rows: seq<Row>, game: GameId): seq<Row> {
    if rows == [] then []
    else
      var last := rows[|rows| - 1];
      RowsOf(rows[..|rows| - 1], game) + (if last.game == game then [last] else [])
  }

  lemma {:induction false} RowsOfAppend(a: seq<Row>, b: seq<Row>, game: GameId)
    ensures RowsOf(a + b, game) == RowsOf(a, game) + RowsOf(b, game)
  {
    if b == [] {
      assert a + b == a;
    } else {
      assert (a + b)[..|a + b| - 1] == a + b[..|b| - 1];
      RowsOfAppend(a, b[..|b| - 1], game);
    }
  }

  lemma {:induction false} RowsOfNumbered(game: GameId, base: nat, events: seq<Event>, other: GameId)
    ensures RowsOf(Numbered(game, base, events), other) == if other == game then Numbered(game, base, events) else []
  {
    if events != [] {
      var init := events[..|events| - 1];
      assert Numbered(game, base, events)[..|events| - 1] == Numbered(game, base, init);
      RowsOfNumbered(game, base, init, other);
    }
  }

  // ------------------------------------------------------------------
  // The statement loop, outside any transaction
  // ------------------------------------------------------------------

  function CounterOf(counters: map<GameId, nat>, game: GameId): nat {
    if game in counters then counters[game] else 0
  }

  class LogTables {
    var counters: map<GameId, nat>
    var rows: seq<Row>

    constructor ()
      ensures counters == map[] && rows == []
    {
      counters, rows := map[], [];
    }

    /** One statement: moves the counter and inserts the rows it pays for. */
    method WriteGame(game: GameId, events: seq<Event>)
      modifies this
      ensures counters == old(counters)[game := CounterOf(old(counters), game) + |events|]
      ensures rows == old(rows) + Numbered(game, CounterOf(old(counters), game), events)
    {
      var seqAfter := CounterOf(counters, game) + |events|;
      counters := counters[game := seqAfter];
      for ord := 1 to |events| + 1
        invariant counters == old(counters)[game := seqAfter]
        invariant rows == old(rows) + Numbered(game, CounterOf(old(counters), game), events)[..ord - 1]
      {
        rows := rows + [Row(game, seqAfter - |events| + ord, events[ord - 1])];
      }
    }

    /** `writeEventLog`: every game's events follow its earlier ones, in the order given. */
    method WriteEventLog(events: seq<Event>)
      modifies this
      ensures forall g :: WroteGame(old(counters), old(rows), EventsOf(events, g), counters, rows, g)
    {
      hide WroteGame, EventsOf;
      var byGame := GroupByGame(events);
      var games := SortedGames(events);
      NothingWritten(counters, rows, events);
      for i := 0 to |games|
        invariant WroteGames(old(counters), old(rows), events, games[..i], counters, rows)
      {
        WroteOne(old(counters), old(rows), events, games, i, counters, rows);
        WriteGame(games[i], byGame[games[i]]);
      }
      assert games[..|games|] == games;
      assert forall g :: WrittenFor(events, games, g) == EventsOf(events, g);
    }
  }

  lemma NothingWritten(counters: map<GameId, nat>, rows: seq<Row>, events: seq<Event>)
    ensures WroteGames(counters, rows, events, [], counters, rows)
  {
    forall g ensures WroteGame(counters, rows, WrittenFor(events, [], g), counters, rows, g) {
      assert RowsOf(rows, g) + [] == RowsOf(rows, g);
    }
  }

  /** One game's counter and rows, with its events written or still to come. */
  ghost predicate WroteGame(counters0: map<GameId, nat>, rows0: seq<Row>, added: seq<Event>,
                            counters: map<GameId, nat>, rows: seq<Row>, g: GameId)
  {
    && CounterOf(counters, g) == CounterOf(counters0, g) + |added|
    && RowsOf(rows, g) == RowsOf(rows0, g) + Numbered(g, CounterOf(counters0, g), added)
  }

  function WrittenFor(events: seq<Event>, games: seq<GameId>, g: GameId): seq<Event> {
    if g in games then EventsOf(events, g) else []
  }

  /** The tables after the statements of `games`. */
  ghost predicate WroteGames(counters0: map<GameId, nat>, rows0: seq<Row>, events: seq<Event>, games: seq<GameId>,
                             counters: map<GameId, nat>, rows: seq<Row>)
  {
    forall g :: WroteGame(counters0, rows0, WrittenFor(events, games, g), counters, rows, g)
  }

  lemma WroteOne(counters0: map<GameId, nat>, rows0: seq<Row>, events: seq<Event>, games: seq<GameId>, i: nat,
                 counters: map<GameId, nat>, rows: seq<Row>)
    requires Increasing(games) && i < |games|
    requires WroteGames(counters0, rows0, events, games[..i], counters, rows)
    ensures var game, base := games[i], CounterOf(counters, games[i]);
            WroteGames(counters0, rows0, events, games[..i + 1], counters[game := base + |EventsOf(events, game)|],
                       rows + Numbered(game, base, EventsOf(events, game)))
  {
    hide WroteGame, EventsOf, Numbered, RowsOf, CounterOf;
    var game := games[i];
    var added := EventsOf(events, game);
    var counters', rows' := counters[game := CounterOf(counters, game) + |added|], rows + Numbered(game, CounterOf(counters, game), added);
    var done := games[..i + 1];
    assert game !in games[..i];
    forall g ensures WroteGame(counters0, rows0, WrittenFor(events, done, g), counters', rows', g) {
      assert g in done <==> g in games[..i] || g == game;
      assert WroteGame(counters0, rows0, WrittenFor(events, games[..i], g), counters, rows, g);
      if g == game {
        WriteThis(counters0, rows0, counters, rows, game, added);
      } else {
        WriteOther(counters0, rows0, WrittenFor(events, games[..i], g), counters, rows, g, game, added);
      }
    }
  }

  lemma WriteThis(counters0: map<GameId, nat>, rows0: seq<Row>, counters: map<GameId, nat>, rows: seq<Row>,
                  game: GameId, added: seq<Event>)
    requires WroteGame(counters0, rows0, [], counters, rows, game)
    ensures var base := CounterOf(counters, game);
            WroteGame(counters0, rows0, added, counters[game := base + |added|], rows + Numbered(game, base, added), game)
  {
    var base := CounterOf(counters, game);
    RowsOfAppend(rows, Numbered(game, base, added), game);
    RowsOfNumbered(game, base, added, game);
  }

  lemma WriteOther(counters0: map<GameId, nat>, rows0: seq<Row>, before: seq<Event>, counters: map<GameId, nat>,
                   rows: seq<Row>, g: GameId, game: GameId, added: seq<Event>)
    requires WroteGame(counters0, rows0, before, counters, rows, g) && g != game
    ensures var base := CounterOf(counters, game);
            WroteGame(counters0, rows0, before, counters[game := base + |added|], rows + Numbered(game, base, added), g)
  {
    var base := CounterOf(counters, game);
    RowsOfAppend(rows, Numbered(game, base, added), g);
    RowsOfNumbered(game, base, added, g);
  }

  method GroupByGame(events: seq<Event>) returns (byGame: map<GameId, seq<Event>>)
    ensures forall g :: g in byGame <==> EventsOf(events, g) != []
    ensures forall g :: g in byGame ==> byGame[g] == EventsOf(events, g)
  {
    byGame := map[];
    for i := 0 to |events|
      invariant forall g :: g in byGame <==> EventsOf(events[..i], g) != []
      invariant forall g :: g in byGame ==> byGame[g] == EventsOf(events[..i], g)
    {
      assert events[..i + 1][..i] == events[..i];
      var game := events[i].game;
      byGame := byGame[game := if game in byGame then byGame[game] + [events[i]] else [events[i]]];
    }
    assert events[..|events|] == events;
  }

  // ------------------------------------------------------------------
  // Concurrent transactions
  // ------------------------------------------------------------------

  /** A transaction in its body, or writing its games one statement at a time. */
  datatype Tx =
    | Open(queue: seq<Event>)
    | Flushing(queue: seq<Event>, todo: seq<GameId>, bases: map<GameId, nat>)

  /**
   `counters` is the committed counter table, `holder` who has locked a counter row, `committed`
   every row ever committed in commit order, and `visible` the rows not swept yet.
   */
  datatype Db = Db(
    counters: map<GameId, nat>,
    holder: map<GameId, TxId>,
    txs: map<TxId, Tx>,
    committed: seq<Row>,
    visible: set<(GameId, nat)>)

  const EMPTY_DB := Db(map[], map[], map[], [], {})

  datatype Step =
    | Begin(tx: TxId)
    | Stage(tx: TxId, events: seq<Event>)
    | Flush(tx: TxId)
    | WriteNext(tx: TxId)
    | Commit(tx: TxId)
    | Abort(tx: TxId)
    | Statement(game: GameId, events: seq<Event>)
    | Sweep(aged: set<(GameId, nat)>)

  /** The transaction has written every game it staged events for. */
  predicate CanCommit(db: Db, tx: TxId) {
    && tx in db.txs && db.txs[tx].Flushing? && db.txs[tx].todo == []
    && forall g :: g in SortedGames(db.txs[tx].queue) ==> g in db.txs[tx].bases
  }

  function Release(holder: map<GameId, TxId>, tx: TxId): map<GameId, TxId> {
    map g | g in holder && holder[g] != tx :: holder[g]
  }

  /** The rows a flushed transaction inserted, game by game. */
  function TxRows(games: seq<GameId>, queue: seq<Event>, bases: map<GameId, nat>): seq<Row>
    requires forall g :: g in games ==> g in bases
  {
    if games == [] then []
    else
      var g := games[|games| - 1];
      TxRows(games[..|games| - 1], queue, bases) + Numbered(g, bases[g], EventsOf(queue, g))
  }

  function CountersAfter(counters: map<GameId, nat>, queue: seq<Event>, bases: map<GameId, nat>): map<GameId, nat> {
    map g | g in counters.Keys + bases.Keys ::
      if g in bases then bases[g] + |EventsOf(queue, g)| else counters[g]
  }

  function Keys(rows: seq<Row>): set<(GameId, nat)> {
    set i | 0 <= i < |rows| :: (rows[i].game, rows[i].position)
  }

  /** One atomic step; a step whose guard fails, or that must wait for a lock, changes nothing. */
  function Apply(db: Db, step: Step): Db {
    match step
    case Begin(tx) => if tx in db.txs then db else db.(txs := db.txs[tx := Open([])])
    case Stage(tx, events) =>
      if tx in db.txs && db.txs[tx].Open? then db.(txs := db.txs[tx := Open(db.txs[tx].queue + events)]) else db
    case Flush(tx) =>
      if tx in db.txs && db.txs[tx].Open? then
        db.(txs := db.txs[tx := Flushing(db.txs[tx].queue, SortedGames(db.txs[tx].queue), map[])])
      else db
    case WriteNext(tx) =>
      if tx in db.txs && db.txs[tx].Flushing? && db.txs[tx].todo != [] && db.txs[tx].todo[0] !in db.holder then
        var Flushing(queue, todo, bases) := db.txs[tx];
        db.(holder := db.holder[todo[0] := tx],
            txs := db.txs[tx := Flushing(queue, todo[1..], bases[todo[0] := CounterOf(db.counters, todo[0])])])
      else db
    case Commit(tx) =>
      if CanCommit(db, tx) then
        var Flushing(queue, _, bases) := db.txs[tx];
        var rows := TxRows(SortedGames(queue), queue, bases);
        Db(CountersAfter(db.counters, queue, bases), Release(db.holder, tx), db.txs - {tx},
           db.committed + rows, db.visible + Keys(rows))
      else db
    case Abort(tx) => db.(holder := Release(db.holder, tx), txs := db.txs - {tx})
    case Statement(game, events) =>
      if game !in db.holder && (forall i :: 0 <= i < |events| ==> events[i].game == game) then
        var base := CounterOf(db.counters, game);
        var rows := Numbered(game, base, events);
        db.(counters := db.counters[game := base + |events|], committed := db.committed + rows,
            visible := db.visible + Keys(rows))
      else db
    case Sweep(aged) => db.(visible := db.visible - aged)
  }

  function Run(db: Db, steps: seq<Step>): Db {
    if steps == [] then db else Apply(Run(db, steps[..|steps| - 1]), steps[|steps| - 1])
  }

  // ------------------------------------------------------------------
  // What every run keeps
  // ------------------------------------------------------------------

  /** `tx` has locked exactly the counter rows of `games`. */
  ghost predicate HoldsExactly(holder: map<GameId, TxId>, tx: TxId, games: set<GameId>) {
    forall g :: g in games <==> g in holder && holder[g] == tx
  }

  /** Nobody has moved the counters these positions were allocated from. */
  ghost predicate BasesCurrent(bases: map<GameId, nat>, counters: map<GameId, nat>) {
    forall g :: g in bases ==> bases[g] == CounterOf(counters, g)
  }

  /** The games with staged events are split, in id order, into those written and those to come. */
  ghost predicate OnSchedule(queue: seq<Event>, todo: seq<GameId>, written: set<GameId>) {
    && Increasing(todo)
    && (forall g :: g in SortedGames(queue) <==> g in todo || g in written)
    && (forall g, h :: g in written && h in todo ==> g < h)
  }

  function Written(t: Tx): set<GameId> {
    if t.Open? then {} else t.bases.Keys
  }

  ghost predicate ValidTx(db: Db, tx: TxId)
    requires tx in db.txs
  {
    && HoldsExactly(db.holder, tx, Written(db.txs[tx]))
    && (db.txs[tx].Flushing? ==>
          && OnSchedule(db.txs[tx].queue, db.txs[tx].todo, db.txs[tx].bases.Keys)
          && BasesCurrent(db.txs[tx].bases, db.counters))
  }

  /** The positions of a game's committed rows are 1, 2, 3, ... up to its counter. */
  ghost predicate Gapless(db: Db, game: GameId) {
    var rows := RowsOf(db.committed, game);
    |rows| == CounterOf(db.counters, game) && forall i :: 0 <= i < |rows| ==> rows[i].position == i + 1
  }

  ghost predicate Inv(db: Db) {
    && (forall tx :: tx in db.txs ==> ValidTx(db, tx))
    && (forall g :: g in db.holder ==> db.holder[g] in db.txs)
    && (forall g :: Gapless(db, g))
    && db.visible <= Keys(db.committed)
  }

  lemma {:induction false} TxRowsOf(games: seq<GameId>, queue: seq<Event>, bases: map<GameId, nat>, game: GameId)
    requires Increasing(games) && forall g :: g in games ==> g in bases
    ensures RowsOf(TxRows(games, queue, bases), game)
         == if game in games then Numbered(game, bases[game], EventsOf(queue, game)) else []
  {
    if games != [] {
      var init, last := games[..|games| - 1], games[|games| - 1];
      assert games == init + [last];
      TxRowsOf(init, queue, bases, game);
      RowsOfAppend(TxRows(init, queue, bases), Numbered(last, bases[last], EventsOf(queue, last)), game);
      RowsOfNumbered(last, bases[last], EventsOf(queue, last), game);
    }
  }

  /** Rows that continue every game's numbering keep it gapless. */
  lemma GaplessAppend(db: Db, db': Db, rows: seq<Row>, game: GameId, events: seq<Event>)
    requires Gapless(db, game)
    requires db'.committed == db.committed + rows
    requires RowsOf(rows, game) == Numbered(game, CounterOf(db.counters, game), events)
    requires CounterOf(db'.counters, game) == CounterOf(db.counters, game) + |events|
    ensures Gapless(db', game)
  {
    RowsOfAppend(db.committed, rows, game);
  }

  lemma KeysAppend(a: seq<Row>, b: seq<Row>)
    ensures Keys(a + b) == Keys(a) + Keys(b)
  {
    var ab := a + b;
    forall k | k in Keys(a) + Keys(b) ensures k in Keys(ab) {
      if k in Keys(a) {
        var i :| 0 <= i < |a| && k == (a[i].game, a[i].position);
        assert ab[i] == a[i];
      } else {
        var i :| 0 <= i < |b| && k == (b[i].game, b[i].position);
        assert ab[|a| + i] == b[i];
      }
    }
  }

  lemma GaplessUnchanged(db: Db, db': Db)
    requires forall g :: Gapless(db, g)
    requires db'.committed == db.committed && db'.counters == db.counters
    ensures forall g :: Gapless(db', g)
  {
    forall g ensures Gapless(db', g) {
      assert Gapless(db, g);
    }
  }

  lemma BeginKeeps(db: Db, tx: TxId)
    requires Inv(db)
    ensures Inv(Apply(db, Begin(tx)))
  {
    hide Gapless, OnSchedule, BasesCurrent;
    var db' := Apply(db, Begin(tx));
    forall t | t in db'.txs ensures ValidTx(db', t) {
      assert t in db.txs ==> ValidTx(db, t);
    }
    GaplessUnchanged(db, db');
  }

  lemma StageKeeps(db: Db, tx: TxId, events: seq<Event>)
    requires Inv(db)
    ensures Inv(Apply(db, Stage(tx, events)))
  {
    hide Gapless, OnSchedule, BasesCurrent, HoldsExactly;
    var db' := Apply(db, Stage(tx, events));
    forall t | t in db'.txs ensures ValidTx(db', t) {
      assert ValidTx(db, t);
    }
    GaplessUnchanged(db, db');
  }

  lemma FlushSchedule(queue: seq<Event>, counters: map<GameId, nat>)
    ensures OnSchedule(queue, SortedGames(queue), {}) && BasesCurrent(map[], counters)
  {
  }

  lemma FlushKeeps(db: Db, tx: TxId)
    requires Inv(db)
    ensures Inv(Apply(db, Flush(tx)))
  {
    hide Gapless, OnSchedule, BasesCurrent, HoldsExactly, SortedGames;
    var db' := Apply(db, Flush(tx));
    forall t | t in db'.txs ensures ValidTx(db', t) {
      assert ValidTx(db, t);
      if t == tx && db'.txs != db.txs {
        FlushSchedule(db.txs[tx].queue, db.counters);
        assert db'.txs[tx].bases.Keys == {};
      }
    }
    GaplessUnchanged(db, db');
  }

  lemma WriteSchedule(queue: seq<Event>, todo: seq<GameId>, bases: map<GameId, nat>, counters: map<GameId, nat>)
    requires todo != [] && OnSchedule(queue, todo, bases.Keys) && BasesCurrent(bases, counters)
    ensures var bases' := bases[todo[0] := CounterOf(counters, todo[0])];
            OnSchedule(queue, todo[1..], bases'.Keys) && BasesCurrent(bases', counters)
  {
    hide SortedGames;
    assert forall h :: h in todo <==> h == todo[0] || h in todo[1..];
  }

  lemma TakeLock(holder: map<GameId, TxId>, game: GameId, tx: TxId, t: TxId, games: set<GameId>)
    requires HoldsExactly(holder, t, games) && game !in holder
    ensures HoldsExactly(holder[game := tx], t, if t == tx then games + {game} else games)
  {
  }

  lemma WriteKeeps(db: Db, tx: TxId)
    requires Inv(db)
    ensures Inv(Apply(db, WriteNext(tx)))
  {
    hide Gapless, OnSchedule, BasesCurrent, HoldsExactly, CounterOf;
    var db' := Apply(db, WriteNext(tx));
    if db' != db {
      var Flushing(queue, todo, bases) := db.txs[tx];
      forall t | t in db'.txs ensures ValidTx(db', t) {
        assert ValidTx(db, t);
        TakeLock(db.holder, todo[0], tx, t, Written(db.txs[t]));
        if t == tx {
          WriteSchedule(queue, todo, bases, db.counters);
          assert db'.txs[tx].bases.Keys == bases.Keys + {todo[0]};
        }
      }
    }
    GaplessUnchanged(db, db');
  }

  /** What a commit adds for one game: its staged events, numbered on from the counter. */
  lemma CommitAppends(db: Db, tx: TxId, game: GameId)
    requires Inv(db) && CanCommit(db, tx)
    ensures var queue := db.txs[tx].queue;
            && RowsOf(TxRows(SortedGames(queue), queue, db.txs[tx].bases), game)
                 == Numbered(game, CounterOf(db.counters, game), EventsOf(queue, game))
            && CounterOf(Apply(db, Commit(tx)).counters, game) == CounterOf(db.counters, game) + |EventsOf(queue, game)|
  {
    hide Gapless, Release, Keys, RowsOf, TxRows, EventsOf, Numbered;
    assert ValidTx(db, tx);
    var Flushing(queue, _, bases) := db.txs[tx];
    TxRowsOf(SortedGames(queue), queue, bases, game);
  }

  lemma ReleaseLocks(holder: map<GameId, TxId>, tx: TxId, t: TxId, games: set<GameId>)
    requires HoldsExactly(holder, t, games) && t != tx
    ensures HoldsExactly(Release(holder, tx), t, games)
  {
  }

  /** Another transaction's counters are locked, so they stay as they were. */
  lemma CommitSparesBases(holder: map<GameId, TxId>, tx: TxId, t: TxId, counters: map<GameId, nat>,
                          queue: seq<Event>, bases: map<GameId, nat>, others: map<GameId, nat>)
    requires HoldsExactly(holder, tx, bases.Keys) && HoldsExactly(holder, t, others.Keys) && t != tx
    requires BasesCurrent(others, counters)
    ensures BasesCurrent(others, CountersAfter(counters, queue, bases))
  {
  }

  lemma CommitKeepsOther(db: Db, tx: TxId, t: TxId)
    requires Inv(db) && CanCommit(db, tx) && t in db.txs && t != tx
    ensures ValidTx(Apply(db, Commit(tx)), t)
  {
    hide Gapless, SortedGames, HoldsExactly, BasesCurrent, OnSchedule, CountersAfter, TxRows, Release;
    assert ValidTx(db, tx) && ValidTx(db, t);
    ReleaseLocks(db.holder, tx, t, Written(db.txs[t]));
    if db.txs[t].Flushing? {
      CommitSparesBases(db.holder, tx, t, db.counters, db.txs[tx].queue, db.txs[tx].bases, db.txs[t].bases);
    }
  }

  lemma CommitKeeps(db: Db, tx: TxId)
    requires Inv(db)
    ensures Inv(Apply(db, Commit(tx)))
  {
    hide SortedGames, Gapless, ValidTx, CountersAfter, TxRows;
    if CanCommit(db, tx) {
      var db' := Apply(db, Commit(tx));
      forall t | t in db'.txs ensures ValidTx(db', t) {
        CommitKeepsOther(db, tx, t);
      }
      ReleasedHolders(db, tx);
      var rows := TxRows(SortedGames(db.txs[tx].queue), db.txs[tx].queue, db.txs[tx].bases);
      forall g ensures Gapless(db', g) {
        CommitAppends(db, tx, g);
        GaplessAppend(db, db', rows, g, EventsOf(db.txs[tx].queue, g));
      }
      KeysAppend(db.committed, rows);
    }
  }

  lemma ReleasedHolders(db: Db, tx: TxId)
    requires forall g :: g in db.holder ==> db.holder[g] in db.txs
    ensures forall g :: g in Release(db.holder, tx) ==> Release(db.holder, tx)[g] in db.txs - {tx}
  {
  }

  lemma AbortKeeps(db: Db, tx: TxId)
    requires Inv(db)
    ensures Inv(Apply(db, Abort(tx)))
  {
    hide Gapless, HoldsExactly, BasesCurrent, OnSchedule, Release;
    var db' := Apply(db, Abort(tx));
    forall t | t in db'.txs ensures ValidTx(db', t) {
      assert ValidTx(db, t);
      ReleaseLocks(db.holder, tx, t, Written(db.txs[t]));
    }
    ReleasedHolders(db, tx);
    GaplessUnchanged(db, db');
  }

  lemma StatementSparesBases(holder: map<GameId, TxId>, t: TxId, counters: map<GameId, nat>, game: GameId, n: nat,
                             others: map<GameId, nat>)
    requires HoldsExactly(holder, t, others.Keys) && game !in holder && BasesCurrent(others, counters)
    ensures BasesCurrent(others, counters[game := n])
  {
  }

  lemma StatementKeepsTx(db: Db, game: GameId, events: seq<Event>, t: TxId)
    requires Inv(db) && Apply(db, Statement(game, events)) != db && t in db.txs
    ensures ValidTx(Apply(db, Statement(game, events)), t)
  {
    hide Gapless, HoldsExactly, BasesCurrent, OnSchedule;
    assert ValidTx(db, t);
    if db.txs[t].Flushing? {
      StatementSparesBases(db.holder, t, db.counters, game, CounterOf(db.counters, game) + |events|, db.txs[t].bases);
    }
  }

  lemma StatementGapless(db: Db, game: GameId, events: seq<Event>, g: GameId)
    requires Inv(db) && Apply(db, Statement(game, events)) != db
    ensures Gapless(Apply(db, Statement(game, events)), g)
  {
    hide Gapless, ValidTx;
    var base := CounterOf(db.counters, game);
    assert Gapless(db, g);
    RowsOfNumbered(game, base, events, g);
    GaplessAppend(db, Apply(db, Statement(game, events)), Numbered(game, base, events), g, if g == game then events else []);
  }

  lemma StatementKeeps(db: Db, game: GameId, events: seq<Event>)
    requires Inv(db)
    ensures Inv(Apply(db, Statement(game, events)))
  {
    hide Gapless, ValidTx;
    var db' := Apply(db, Statement(game, events));
    if db' != db {
      forall t | t in db'.txs ensures ValidTx(db', t) {
        StatementKeepsTx(db, game, events, t);
      }
      forall g ensures Gapless(db', g) {
        StatementGapless(db, game, events, g);
      }
      KeysAppend(db.committed, Numbered(game, CounterOf(db.counters, game), events));
    }
  }

  lemma SweepKeeps(db: Db, aged: set<(GameId, nat)>)
    requires Inv(db)
    ensures Inv(Apply(db, Sweep(aged)))
  {
    hide Gapless, HoldsExactly, BasesCurrent, OnSchedule;
    var db' := Apply(db, Sweep(aged));
    forall t | t in db'.txs ensures ValidTx(db', t) {
      assert ValidTx(db, t);
    }
    GaplessUnchanged(db, db');
  }

  lemma StepKeeps(db: Db, step: Step)
    requires Inv(db)
    ensures Inv(Apply(db, step))
  {
    hide Inv, Apply;
    match step
    case Begin(tx) => BeginKeeps(db, tx);
    case Stage(tx, events) => StageKeeps(db, tx, events);
    case Flush(tx) => FlushKeeps(db, tx);
    case WriteNext(tx) => WriteKeeps(db, tx);
    case Commit(tx) => CommitKeeps(db, tx);
    case Abort(tx) => AbortKeeps(db, tx);
    case Statement(game, events) => StatementKeeps(db, game, events);
    case Sweep(aged) => SweepKeeps(db, aged);
  }

  lemma {:induction false} RunKeeps(steps: seq<Step>)
    ensures Inv(Run(EMPTY_DB, steps))
  {
    if steps == [] {
      assert Inv(EMPTY_DB);
    } else {
      RunKeeps(steps[..|steps| - 1]);
      StepKeeps(Run(EMPTY_DB, steps[..|steps| - 1]), steps[|steps| - 1]);
    }
  }

  // ------------------------------------------------------------------
  // What readers may rely on
  // ------------------------------------------------------------------

  /** The committed events of a game: the event at index i holds position i + 1. */
  function Log(db: Db, game: GameId): seq<Event> {
    var rows := RowsOf(db.committed, game);
    seq(|rows|, i requires 0 <= i < |rows| => rows[i].event)
  }

  /** In every run the positions committed for a game are exactly 1 up to its counter, each once and in commit order. */
  lemma PositionsAreGapless(steps: seq<Step>, game: GameId)
    ensures var db := Run(EMPTY_DB, steps);
            && |Log(db, game)| == CounterOf(db.counters, game)
            && forall i :: 0 <= i < |Log(db, game)| ==> RowsOf(db.committed, game)[i] == Row(game, i + 1, Log(db, game)[i])
  {
    RunKeeps(steps);
    var db := Run(EMPTY_DB, steps);
    assert Gapless(db, game);
    RowsNameTheirGame(db.committed, game);
  }

  lemma {:induction false} RowsNameTheirGame(rows: seq<Row>, game: GameId)
    ensures forall i :: 0 <= i < |RowsOf(rows, game)| ==> RowsOf(rows, game)[i].game == game
  {
    if rows != [] {
      RowsNameTheirGame(rows[..|rows| - 1], game);
    }
  }

  /** The events a step adds to a game's log: a commit adds all it staged for the game, in staging order. */
  function Added(db: Db, step: Step, game: GameId): seq<Event> {
    match step
    case Commit(tx) => if CanCommit(db, tx) then EventsOf(db.txs[tx].queue, game) else []
    case Statement(g, events) => if g == game && Apply(db, step) != db then events else []
    case _ => []
  }

  lemma LogGrows(db: Db, after: Db, base: nat, events: seq<Event>, game: GameId)
    requires RowsOf(after.committed, game) == RowsOf(db.committed, game) + Numbered(game, base, events)
    ensures Log(after, game) == Log(db, game) + events
  {
    hide RowsOf;
  }

  lemma CommitAppendsToLog(db: Db, tx: TxId, game: GameId)
    requires Inv(db) && CanCommit(db, tx)
    ensures Log(Apply(db, Commit(tx)), game) == Log(db, game) + EventsOf(db.txs[tx].queue, game)
  {
    hide Inv, SortedGames, ValidTx, Gapless, CountersAfter, TxRows, Log, Numbered, RowsOf, Keys, Release;
    CommitAppends(db, tx, game);
    var queue := db.txs[tx].queue;
    RowsOfAppend(db.committed, TxRows(SortedGames(queue), queue, db.txs[tx].bases), game);
    LogGrows(db, Apply(db, Commit(tx)), CounterOf(db.counters, game), EventsOf(queue, game), game);
  }

  lemma StatementAppendsToLog(db: Db, g: GameId, events: seq<Event>, game: GameId)
    requires Apply(db, Statement(g, events)) != db
    ensures Log(Apply(db, Statement(g, events)), game) == Log(db, game) + if g == game then events else []
  {
    hide Inv, SortedGames, CountersAfter, TxRows, Log, Numbered, RowsOf, Keys, Release;
    var base := CounterOf(db.counters, g);
    RowsOfAppend(db.committed, Numbered(g, base, events), game);
    RowsOfNumbered(g, base, events, game);
    NothingElse(db, Apply(db, Statement(g, events)), game);
    if g == game {
      LogGrows(db, Apply(db, Statement(g, events)), base, events, game);
    }
  }

  lemma NothingElse(db: Db, after: Db, game: GameId)
    ensures RowsOf(after.committed, game) == RowsOf(db.committed, game) + [] ==> Log(after, game) == Log(db, game) + []
  {
    hide RowsOf;
  }

  /** No step but a commit or a lone statement touches a log, and those only append to it. */
  lemma StepAppends(db: Db, step: Step, game: GameId)
    requires Inv(db)
    ensures Log(Apply(db, step), game) == Log(db, game) + Added(db, step, game)
  {
    hide Inv, SortedGames, CountersAfter, TxRows, Numbered;
    match step
    case Commit(tx) =>
      if CanCommit(db, tx) {
        CommitAppendsToLog(db, tx, game);
      }
    case Statement(g, events) =>
      if Apply(db, step) != db {
        StatementAppendsToLog(db, g, events, game);
      }
    case _ =>
  }

  // ------------------------------------------------------------------
  // What a transaction stages
  // ------------------------------------------------------------------

  /** The events the steps stage for a transaction before they flush it, in the order they are staged. */
  function StagedBy(steps: seq<Step>, tx: TxId): seq<Event> {
    if steps == [] then []
    else
      var init, last := steps[..|steps| - 1], steps[|steps| - 1];
      StagedBy(init, tx) + (if last.Stage? && last.tx == tx && Flush(tx) !in init then last.events else [])
  }

  /** The transaction running at the end of the steps is the one that began at step `b`. */
  ghost predicate RunsSince(steps: seq<Step>, b: nat, tx: TxId) {
    && b < |steps| && steps[b] == Begin(tx) && tx !in Run(EMPTY_DB, steps[..b]).txs
    && forall k :: b < k <= |steps| ==> tx in Run(EMPTY_DB, steps[..k]).txs
  }

  lemma RunsSinceInit(steps: seq<Step>, b: nat, tx: TxId)
    requires RunsSince(steps, b, tx) && b < |steps| - 1
    ensures RunsSince(steps[..|steps| - 1], b, tx)
  {
    hide Run;
    var init := steps[..|steps| - 1];
    assert init[..b] == steps[..b];
    forall k | b < k <= |init| ensures tx in Run(EMPTY_DB, init[..k]).txs {
      assert init[..k] == steps[..k];
    }
  }

  /** What one step does to a queue it leaves in place. */
  lemma StepOnQueue(db: Db, step: Step, tx: TxId)
    requires tx in db.txs && tx in Apply(db, step).txs
    ensures Apply(db, step).txs[tx].queue == db.txs[tx].queue + if step.Stage? && step.tx == tx && db.txs[tx].Open? then step.events else []
    ensures Apply(db, step).txs[tx].Open? <==> db.txs[tx].Open? && step != Flush(tx)
  {
    hide SortedGames, CanCommit, Release, CountersAfter, TxRows, Numbered, Keys;
  }

  /**
   Whatever other transactions do in between, a transaction's queue is what it has staged since it
   began and before its flush, in staging order.
   */
  lemma {:induction false} QueueIsWhatWasStaged(steps: seq<Step>, b: nat, tx: TxId)
    requires RunsSince(steps, b, tx)
    ensures var db := Run(EMPTY_DB, steps);
            && tx in db.txs && db.txs[tx].queue == StagedBy(steps[b + 1..], tx)
            && (db.txs[tx].Open? <==> Flush(tx) !in steps[b + 1..])
  {
    var init, last := steps[..|steps| - 1], steps[|steps| - 1];
    assert steps[..|steps|] == steps;
    var since := steps[b + 1..];
    if b == |steps| - 1 {
      assert since == [];
    } else {
      hide Apply;
      RunsSinceInit(steps, b, tx);
      QueueIsWhatWasStaged(init, b, tx);
      StepOnQueue(Run(EMPTY_DB, init), last, tx);
      assert since[..|since| - 1] == init[b + 1..];
      assert since == init[b + 1..] + [last];
    }
  }

  /** Every transaction running at the end of a run began at some step of it. */
  lemma {:induction false} BeganAt(steps: seq<Step>, tx: TxId) returns (b: nat)
    requires tx in Run(EMPTY_DB, steps).txs
    ensures RunsSince(steps, b, tx)
  {
    var init := steps[..|steps| - 1];
    assert steps[..|steps|] == steps;
    if tx in Run(EMPTY_DB, init).txs {
      hide Run;
      b := BeganAt(init, tx);
      assert init[..b] == steps[..b];
      forall k | b < k <= |steps| ensures tx in Run(EMPTY_DB, steps[..k]).txs {
        if k < |steps| {
          assert init[..k] == steps[..k];
        }
      }
    } else {
      b := |steps| - 1;
    }
  }

  /**
   A commit that takes effect appends to each game's log that game's events among those the
   transaction staged between its begin and its flush, each once, in staging order.
   */
  lemma CommitAppendsWhatWasStaged(steps: seq<Step>, tx: TxId, game: GameId) returns (b: nat)
    requires CanCommit(Run(EMPTY_DB, steps), tx)
    ensures RunsSince(steps, b, tx) && Flush(tx) in steps[b + 1..]
    ensures Log(Run(EMPTY_DB, steps + [Commit(tx)]), game)
         == Log(Run(EMPTY_DB, steps), game) + EventsOf(StagedBy(steps[b + 1..], tx), game)
  {
    hide Apply, Log, StagedBy, EventsOf, Inv;
    b := BeganAt(steps, tx);
    QueueIsWhatWasStaged(steps, b, tx);
    RunKeeps(steps);
    assert (steps + [Commit(tx)])[..|steps|] == steps;
    CommitAppendsToLog(Run(EMPTY_DB, steps), tx, game);
  }

  /**
   Commit order is position order: whatever is committed after a moment lies above every
   position committed, and so above every position visible, at that moment.
   */
  lemma {:induction false} LaterCommitsLieAbove(steps: seq<Step>, n: nat, game: GameId)
    requires n <= |steps|
    ensures var before, after := Run(EMPTY_DB, steps[..n]), Run(EMPTY_DB, steps);
            && Log(before, game) <= Log(after, game)
            && forall p :: (game, p) in before.visible ==> 1 <= p <= |Log(before, game)|
    decreases |steps|
  {
    if n == |steps| {
      assert steps[..n] == steps;
      VisibleIsLogged(steps, game);
    } else {
      var init := steps[..|steps| - 1];
      assert init[..n] == steps[..n];
      LaterCommitsLieAbove(init, n, game);
      RunKeeps(init);
      hide Inv, Log, Apply, Added;
      StepAppends(Run(EMPTY_DB, init), steps[|steps| - 1], game);
    }
  }

  lemma VisibleIsLogged(steps: seq<Step>, game: GameId)
    ensures var db := Run(EMPTY_DB, steps); forall p :: (game, p) in db.visible ==> 1 <= p <= |Log(db, game)|
  {
    RunKeeps(steps);
    var db := Run(EMPTY_DB, steps);
    assert Gapless(db, game);
    forall p | (game, p) in db.visible ensures 1 <= p <= |Log(db, game)| {
      var i :| 0 <= i < |db.committed| && (game, p) == (db.committed[i].game, db.committed[i].position);
      var j := RowIsIn(db.committed, i);
    }
  }

  lemma {:induction false} RowIsIn(rows: seq<Row>, i: nat) returns (j: nat)
    requires i < |rows|
    ensures j < |RowsOf(rows, rows[i].game)| && RowsOf(rows, rows[i].game)[j] == rows[i]
  {
    var init := rows[..|rows| - 1];
    if i < |rows| - 1 {
      j := RowIsIn(init, i);
    } else {
      j := |RowsOf(init, rows[i].game)|;
    }
  }

  // ------------------------------------------------------------------
  // Waiting
  // ------------------------------------------------------------------

  /** The counter row a flushing transaction needs next. */
  ghost predicate Needs(db: Db, tx: TxId, game: GameId) {
    tx in db.txs && db.txs[tx].Flushing? && db.txs[tx].todo != [] && db.txs[tx].todo[0] == game
  }

  /** `tx` needs a counter row that `other` has locked. */
  ghost predicate WaitsFor(db: Db, tx: TxId, other: TxId) {
    exists game :: Needs(db, tx, game) && game in db.holder && db.holder[game] == other
  }

  /** Whoever holds the row another needs can itself only need a later one. */
  lemma HolderNeedsLater(db: Db, tx: TxId, game: GameId, other: TxId, next: GameId)
    requires Inv(db) && Needs(db, tx, game) && game in db.holder && db.holder[game] == other
    requires Needs(db, other, next)
    ensures game < next
  {
    hide Gapless, BasesCurrent, SortedGames;
    assert ValidTx(db, other);
    assert game in Written(db.txs[other]) && next in db.txs[other].todo;
  }

  lemma {:induction false} WaitsClimb(db: Db, chain: seq<TxId>, first: GameId, last: GameId)
    requires Inv(db) && 2 <= |chain|
    requires forall i :: 0 <= i < |chain| - 1 ==> WaitsFor(db, chain[i], chain[i + 1])
    requires Needs(db, chain[0], first) && Needs(db, chain[|chain| - 1], last)
    ensures first < last
  {
    hide Inv;
    assert WaitsFor(db, chain[0], chain[0 + 1]);
    if |chain| == 2 {
      HolderNeedsLater(db, chain[0], first, chain[1], last);
    } else {
      assert WaitsFor(db, chain[1], chain[1 + 1]);
      var next :| Needs(db, chain[1], next) && next in db.holder && db.holder[next] == chain[2];
      HolderNeedsLater(db, chain[0], first, chain[1], next);
      forall i | 0 <= i < |chain[1..]| - 1 ensures WaitsFor(db, chain[1..][i], chain[1..][i + 1]) {
        assert WaitsFor(db, chain[i + 1], chain[i + 1 + 1]);
      }
      WaitsClimb(db, chain[1..], next, last);
    }
  }

  /** Writing games in id order leaves no cycle of transactions waiting for each other's counters. */
  lemma NoWaitCycle(db: Db, chain: seq<TxId>)
    requires Inv(db) && 2 <= |chain|
    requires forall i :: 0 <= i < |chain| - 1 ==> WaitsFor(db, chain[i], chain[i + 1])
    ensures chain[0] != chain[|chain| - 1]
  {
    hide Inv;
    if chain[0] == chain[|chain| - 1] {
      assert WaitsFor(db, chain[0], chain[0 + 1]);
      var game :| Needs(db, chain[0], game);
      WaitsClimb(db, chain, game, game);
    }
  }

  ghost predicate CanMove(db: Db, tx: TxId) {
    CanCommit(db, tx) || exists game :: Needs(db, tx, game) && game !in db.holder
  }

  /** While any transaction is writing its events, some transaction can take its next step. */
  lemma SomeoneCanMove(db: Db, tx: TxId, bound: nat) returns (mover: TxId)
    requires Inv(db) && tx in db.txs && db.txs[tx].Flushing?
    requires forall t: TxId, g: GameId :: Needs(db, t, g) ==> g <= bound
    ensures CanMove(db, mover)
    decreases if db.txs[tx].todo == [] then 0 else bound + 1 - db.txs[tx].todo[0]
  {
    hide Gapless, BasesCurrent, SortedGames, HoldsExactly, OnSchedule, Increasing;
    assert ValidTx(db, tx);
    if db.txs[tx].todo == [] {
      DoneCanCommit(db, tx);
      mover := tx;
    } else {
      var game := db.txs[tx].todo[0];
      assert Needs(db, tx, game);
      if game !in db.holder {
        mover := tx;
      } else {
        var other := db.holder[game];
        assert ValidTx(db, other);
        HolderIsFlushing(db, game);
        if db.txs[other].todo != [] {
          assert Needs(db, other, db.txs[other].todo[0]);
          HolderNeedsLater(db, tx, game, other, db.txs[other].todo[0]);
        }
        mover := SomeoneCanMove(db, other, bound);
      }
    }
  }

  /** No deadlock: while any transaction is writing its events, some transaction can take its next step. */
  lemma NoDeadlock(db: Db, tx: TxId) returns (mover: TxId)
    requires Inv(db) && tx in db.txs && db.txs[tx].Flushing?
    ensures CanMove(db, mover)
  {
    hide Inv;
    var bound := NeedBound(db, db.txs.Keys);
    mover := SomeoneCanMove(db, tx, bound);
  }

  lemma NeedBound(db: Db, txs: set<TxId>) returns (bound: nat)
    ensures forall t: TxId, g: GameId :: t in txs && Needs(db, t, g) ==> g <= bound
  {
    if txs == {} {
      bound := 0;
    } else {
      var t :| t in txs;
      bound := NeedBound(db, txs - {t});
      if t in db.txs && db.txs[t].Flushing? && db.txs[t].todo != [] && bound < db.txs[t].todo[0] {
        bound := db.txs[t].todo[0];
      }
    }
  }

  lemma HolderIsFlushing(db: Db, game: GameId)
    requires Inv(db) && game in db.holder
    ensures db.holder[game] in db.txs && db.txs[db.holder[game]].Flushing?
  {
    hide Gapless, BasesCurrent, OnSchedule;
    assert ValidTx(db, db.holder[game]);
    assert game in Written(db.txs[db.holder[game]]);
  }

  lemma DoneCanCommit(db: Db, tx: TxId)
    requires Inv(db) && tx in db.txs && db.txs[tx].Flushing? && db.txs[tx].todo == []
    ensures CanCommit(db, tx)
  {
    hide Gapless, BasesCurrent, HoldsExactly;
    assert ValidTx(db, tx);
  }

  // ------------------------------------------------------------------
  // What a log holds, and what of it is visible
  // ------------------------------------------------------------------

  ghost predicate RowsHoldTheirEvents(rows: seq<Row>) {
    forall i :: 0 <= i < |rows| ==> rows[i].event.game == rows[i].game
  }

  lemma {:induction false} EventsNameTheirGame(events: seq<Event>, game: GameId)
    ensures forall i :: 0 <= i < |EventsOf(events, game)| ==> EventsOf(events, game)[i].game == game
  {
    if events != [] {
      EventsNameTheirGame(events[..|events| - 1], game);
    }
  }

  lemma {:induction false} TxRowsHoldTheirEvents(games: seq<GameId>, queue: seq<Event>, bases: map<GameId, nat>)
    requires forall g :: g in games ==> g in bases
    ensures RowsHoldTheirEvents(TxRows(games, queue, bases))
  {
    if games != [] {
      TxRowsHoldTheirEvents(games[..|games| - 1], queue, bases);
      EventsNameTheirGame(queue, games[|games| - 1]);
    }
  }

  lemma StepHoldsEvents(db: Db, step: Step)
    requires RowsHoldTheirEvents(db.committed)
    ensures RowsHoldTheirEvents(Apply(db, step).committed)
  {
    hide SortedGames, TxRows, CountersAfter, Release, Keys, EventsOf;
    if step.Commit? && CanCommit(db, step.tx) {
      TxRowsHoldTheirEvents(SortedGames(db.txs[step.tx].queue), db.txs[step.tx].queue, db.txs[step.tx].bases);
    }
  }

  /** In every run a game's log holds events of that game alone. */
  lemma {:induction false} LogHoldsItsOwnEvents(steps: seq<Step>, game: GameId)
    ensures RowsHoldTheirEvents(Run(EMPTY_DB, steps).committed)
    ensures var log := Log(Run(EMPTY_DB, steps), game); forall i :: 0 <= i < |log| ==> log[i].game == game
  {
    if steps != [] {
      hide Apply;
      LogHoldsItsOwnEvents(steps[..|steps| - 1], game);
      StepHoldsEvents(Run(EMPTY_DB, steps[..|steps| - 1]), steps[|steps| - 1]);
    }
    RowsOfHold(Run(EMPTY_DB, steps).committed, game);
  }

  lemma {:induction false} RowsOfHold(rows: seq<Row>, game: GameId)
    requires RowsHoldTheirEvents(rows)
    ensures forall i :: 0 <= i < |RowsOf(rows, game)| ==> RowsOf(rows, game)[i].event.game == game
  {
    if rows != [] {
      RowsOfHold(rows[..|rows| - 1], game);
    }
  }

  lemma {:induction false} KeyOfRow(rows: seq<Row>, game: GameId, position: nat)
    ensures (game, position) in Keys(rows) <==> exists j :: 0 <= j < |RowsOf(rows, game)| && RowsOf(rows, game)[j].position == position
  {
    if rows != [] {
      var init, last := rows[..|rows| - 1], rows[|rows| - 1];
      KeyOfRow(init, game, position);
      KeysAppend(init, [last]);
      assert rows == init + [last];
      assert Keys([last]) == {(last.game, last.position)} by { assert [last][0] == last; }
      var before, after := RowsOf(init, game), RowsOf(rows, game);
      assert forall j :: 0 <= j < |before| ==> after[j] == before[j];
      if last.game == game {
        assert after[|before|] == last;
      } else {
        assert after == before;
      }
      if (game, position) in Keys(init) {
        var j :| 0 <= j < |before| && before[j].position == position;
        assert after[j].position == position;
      }
    }
  }

  lemma NewKeys(db: Db, after: Db, rows: seq<Row>, events: seq<Event>, game: GameId, position: nat)
    requires Gapless(db, game) && after.committed == db.committed + rows
    requires RowsOf(rows, game) == Numbered(game, CounterOf(db.counters, game), events)
    ensures (game, position) in Keys(rows) <==> |Log(db, game)| < position <= |Log(after, game)|
  {
    KeyOfRow(rows, game, position);
    RowsOfAppend(db.committed, rows, game);
    var base := CounterOf(db.counters, game);
    if base < position <= base + |events| {
      assert RowsOf(rows, game)[position - base - 1].position == position;
    }
  }

  /** A row becomes visible with the step that commits it, and stays so until a sweep takes it. */
  lemma StepShows(db: Db, step: Step, game: GameId, position: nat)
    requires Inv(db)
    ensures
      var after := Apply(db, step);
      (game, position) in after.visible <==>
      && ((game, position) in db.visible || |Log(db, game)| < position <= |Log(after, game)|)
      && !(step.Sweep? && (game, position) in step.aged)
  {
    hide Inv, SortedGames, TxRows, CountersAfter, Release, Keys, Log, Numbered, RowsOf, ValidTx, Gapless, EventsOf;
    GaplessAt(db, game);
    var after := Apply(db, step);
    match step
    case Commit(tx) =>
      if CanCommit(db, tx) {
        CommitAppends(db, tx, game);
        NewKeys(db, after, TxRows(SortedGames(db.txs[tx].queue), db.txs[tx].queue, db.txs[tx].bases), EventsOf(db.txs[tx].queue, game), game, position);
      }
    case Statement(g, events) =>
      if after != db {
        RowsOfNumbered(g, CounterOf(db.counters, g), events, game);
        StatementShows(db, g, events, game, position);
      }
    case _ => SameLog(db, after, game);
  }

  lemma GaplessAt(db: Db, game: GameId)
    requires Inv(db)
    ensures Gapless(db, game)
  {
    hide Gapless, ValidTx;
  }

  lemma SameLog(db: Db, after: Db, game: GameId)
    requires after.committed == db.committed
    ensures Log(after, game) == Log(db, game)
  {
    hide RowsOf;
  }

  lemma StatementShows(db: Db, g: GameId, events: seq<Event>, game: GameId, position: nat)
    requires Gapless(db, game) && Apply(db, Statement(g, events)) != db
    ensures (game, position) in Keys(Numbered(g, CounterOf(db.counters, g), events)) <==>
            |Log(db, game)| < position <= |Log(Apply(db, Statement(g, events)), game)|
  {
    hide Keys, Numbered, Log, RowsOf;
    var base := CounterOf(db.counters, g);
    RowsOfNumbered(g, base, events, game);
    NewKeys(db, Apply(db, Statement(g, events)), Numbered(g, base, events), if g == game then events else [], game, position);
  }

  // ------------------------------------------------------------------
  // A transaction left alone commits
  // ------------------------------------------------------------------

  /** Nobody but `tx` has locked a counter. */
  ghost predicate LocksAlone(db: Db, tx: TxId) {
    forall g :: g in db.holder ==> db.holder[g] == tx
  }

  lemma {:induction false} RunsOn(db: Db, steps: seq<Step>, more: seq<Step>)
    ensures Run(db, steps + more) == Run(Run(db, steps), more)
  {
    if more == [] {
      assert steps + more == steps;
    } else {
      RunsOn(db, steps, more[..|more| - 1]);
      assert (steps + more)[..|steps + more| - 1] == steps + more[..|more| - 1];
    }
  }

  lemma OneStep(db: Db, step: Step)
    ensures Run(db, [step]) == Apply(db, step)
  {
    assert [step][..0] == [];
  }

  function Writes(tx: TxId, n: nat): seq<Step> {
    if n == 0 then [] else [WriteNext(tx)] + Writes(tx, n - 1)
  }

  /** One write after another, a flushing transaction that nobody stands in the way of comes to its commit. */
  lemma {:induction false} WritesToTheEnd(db: Db, tx: TxId)
    requires Inv(db) && tx in db.txs && db.txs[tx].Flushing? && LocksAlone(db, tx)
    ensures
      var after := Run(db, Writes(tx, |db.txs[tx].todo|));
      Inv(after) && CanCommit(after, tx) && after.txs[tx].queue == db.txs[tx].queue && after.committed == db.committed
    decreases |db.txs[tx].todo|
  {
    hide Inv, SortedGames, CanCommit, Apply;
    var todo := db.txs[tx].todo;
    if todo == [] {
      DoneCanCommit(db, tx);
    } else {
      NextIsFree(db, tx);
      StepKeeps(db, WriteNext(tx));
      WriteNextMoves(db, tx);
      var next := Apply(db, WriteNext(tx));
      WritesToTheEnd(next, tx);
      OneStep(db, WriteNext(tx));
      RunsOn(db, [WriteNext(tx)], Writes(tx, |todo| - 1));
    }
  }

  lemma NextIsFree(db: Db, tx: TxId)
    requires Inv(db) && tx in db.txs && db.txs[tx].Flushing? && LocksAlone(db, tx) && db.txs[tx].todo != []
    ensures db.txs[tx].todo[0] !in db.holder
  {
    hide Gapless, SortedGames, BasesCurrent;
    assert ValidTx(db, tx);
    assert db.txs[tx].todo[0] in db.txs[tx].todo;
  }

  lemma WriteNextMoves(db: Db, tx: TxId)
    requires tx in db.txs && db.txs[tx].Flushing? && LocksAlone(db, tx) && db.txs[tx].todo != [] && db.txs[tx].todo[0] !in db.holder
    ensures
      var next := Apply(db, WriteNext(tx));
      && tx in next.txs && next.txs[tx].Flushing? && LocksAlone(next, tx) && next.committed == db.committed
      && |next.txs[tx].todo| == |db.txs[tx].todo| - 1 && next.txs[tx].queue == db.txs[tx].queue
  {
  }

  /** Begin, stage, flush, one write for each game, commit. */
  function WholeTransaction(tx: TxId, events: seq<Event>): seq<Step> {
    [Begin(tx), Stage(tx, events), Flush(tx)] + Writes(tx, |SortedGames(events)|) + [Commit(tx)]
  }

  lemma FlushedAlone(db: Db, tx: TxId, events: seq<Event>)
    requires tx !in db.txs && db.holder == map[]
    ensures
      var flushed := Run(db, [Begin(tx), Stage(tx, events), Flush(tx)]);
      && tx in flushed.txs && flushed.txs[tx] == Flushing(events, SortedGames(events), map[])
      && flushed.holder == map[] && flushed.committed == db.committed
  {
    hide SortedGames;
    var s1, s2, s3 := [Begin(tx)], [Begin(tx), Stage(tx, events)], [Begin(tx), Stage(tx, events), Flush(tx)];
    assert s1[..0] == [] && s2[..1] == s1 && s3[..2] == s2;
    assert [] + events == events;
    var begun := Apply(db, Begin(tx));
    assert Run(db, s1) == begun && begun.txs[tx] == Open([]);
    assert Run(db, s2) == Apply(begun, Stage(tx, events));
    assert Run(db, s3) == Apply(Apply(begun, Stage(tx, events)), Flush(tx));
  }

  lemma {:induction false} RunInv(db: Db, steps: seq<Step>)
    requires Inv(db)
    ensures Inv(Run(db, steps))
  {
    hide Inv, Apply;
    if steps != [] {
      RunInv(db, steps[..|steps| - 1]);
      StepKeeps(Run(db, steps[..|steps| - 1]), steps[|steps| - 1]);
    }
  }

  /** A transaction that nobody stands in the way of commits: its events end up in their games' logs, in staging order. */
  lemma TransactionCommits(db: Db, tx: TxId, events: seq<Event>, game: GameId)
    requires Inv(db) && tx !in db.txs && db.holder == map[]
    ensures
      var after := Run(db, WholeTransaction(tx, events));
      tx !in after.txs && Log(after, game) == Log(db, game) + EventsOf(events, game)
  {
    hide Inv, SortedGames, CanCommit, Log, EventsOf, Run, Writes;
    var begun: seq<Step> := [Begin(tx), Stage(tx, events), Flush(tx)];
    var writes := Writes(tx, |SortedGames(events)|);
    FlushedAlone(db, tx, events);
    RunInv(db, begun);
    var flushed := Run(db, begun);
    WritesToTheEnd(flushed, tx);
    RunsOn(db, begun, writes);
    RunsOn(db, begun + writes, [Commit(tx)]);
    var written := Run(flushed, writes);
    OneStep(written, Commit(tx));
    CommitAppendsToLog(written, tx, game);
    SameLog(db, written, game);
    CommitEnds(written, tx);
  }

  lemma CommitEnds(db: Db, tx: TxId)
    requires CanCommit(db, tx)
    ensures tx !in Apply(db, Commit(tx)).txs
  {
    hide SortedGames, TxRows, CountersAfter, Release, Keys;
  }
}
