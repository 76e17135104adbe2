/**
 The feeds shared by a game's open streams (packages/server/src/gameFeed.ts): one per game, started by
 the first stream, counted, and stopped by the last one.
 */
module GameFeeds {
  datatype Phase = Starting | Running | StartFailed | Stopped

  datatype Entry = Entry(game: string, refs: int, phase: Phase)

  /** A stream waits for its feed's start, holds the feed, and lets go of it once. */
  datatype Stage = Awaiting | Holding | Released | Refused

  datatype Stream = Stream(entry: nat, stage: Stage)

  /** `feeds` maps a game to its current entry; every entry ever made stays in `entries`. */
  datatype State = State(feeds: map<string, nat>, entries: seq<Entry>, streams: seq<Stream>)

  const START := State(map[], [], [])

  predicate Current(s: State, e: nat) {
    e < |s.entries| && s.entries[e].game in s.feeds && s.feeds[s.entries[e].game] == e
  }

  function WithRefs(s: State, e: nat, change: int): seq<Entry>
    requires e < |s.entries|
  {
    s.entries[e := s.entries[e].(refs := s.entries[e].refs + change)]
  }

  /** `acquire` up to its await: joins the game's entry, or makes one and starts its feed. */
  function AfterAcquire(s: State, game: string): State {
    if game in s.feeds && s.feeds[game] < |s.entries| then
      s.(entries := WithRefs(s, s.feeds[game], 1), streams := s.streams + [Stream(s.feeds[game], Awaiting)])
    else
      State(s.feeds[game := |s.entries|], s.entries + [Entry(game, 1, Starting)], s.streams + [Stream(|s.entries|, Awaiting)])
  }

  /** The position read answers: the feed runs, or the entry is dropped so that the next stream retries. */
  function AfterStart(s: State, e: nat, ok: bool): State {
    if |s.entries| <= e || s.entries[e].phase != Starting then s
    else if ok then s.(entries := s.entries[e := s.entries[e].(phase := Running)])
    else
      s.(entries := s.entries[e := s.entries[e].(phase := StartFailed)],
         feeds := if Current(s, e) then s.feeds - {s.entries[e].game} else s.feeds)
  }

  predicate CanResume(s: State, x: nat) {
    x < |s.streams| && s.streams[x].stage == Awaiting && s.streams[x].entry < |s.entries| && s.entries[s.streams[x].entry].phase != Starting
  }

  /** The awaiting stream goes on with the feed, or gives its count back and throws. */
  function AfterResume(s: State, x: nat): State {
    if !CanResume(s, x) then s
    else
      var e := s.streams[x].entry;
      if s.entries[e].phase == StartFailed then
        s.(entries := WithRefs(s, e, -1), streams := s.streams[x := Stream(e, Refused)])
      else s.(streams := s.streams[x := Stream(e, Holding)])
  }

  /** `release` looks the entry up by the feed's game; the last count stops the released feed. */
  function AfterRelease(s: State, x: nat): State {
    if |s.streams| <= x || s.streams[x].stage != Holding || |s.entries| <= s.streams[x].entry then s
    else
      var mine := s.streams[x].entry;
      var game := s.entries[mine].game;
      var gone := s.(streams := s.streams[x := Stream(mine, Released)]);
      if game !in s.feeds || |s.entries| <= s.feeds[game] then gone
      else
        var e := s.feeds[game];
        var counted := WithRefs(s, e, -1);
        if 0 < counted[e].refs then gone.(entries := counted)
        else gone.(feeds := s.feeds - {game}, entries := counted[mine := counted[mine].(phase := Stopped)])
  }

  class Feeds {
    var feeds: map<string, nat>
    var entries: seq<Entry>
    var streams: seq<Stream>

    function View(): State
      reads this
    {
      State(feeds, entries, streams)
    }

    constructor ()
      ensures View() == START
    {
      feeds, entries, streams := map[], [], [];
    }

    method Acquire(game: string) returns (stream: nat)
      modifies this
      ensures View() == AfterAcquire(old(View()), game) && stream == |old(streams)|
    {
      var e: nat;
      if game in feeds && feeds[game] < |entries| {
        e := feeds[game];
        entries := WithRefs(View(), e, 1);
      } else {
        e := |entries|;
        feeds, entries := feeds[game := e], entries + [Entry(game, 1, Starting)];
      }
      stream := |streams|;
      streams := streams + [Stream(e, Awaiting)];
    }

    method Release(x: nat)
      requires x < |streams| && streams[x].stage == Holding && streams[x].entry < |entries|
      modifies this
      ensures View() == AfterRelease(old(View()), x)
    {
      var mine := streams[x].entry;
      var game := entries[mine].game;
      streams := streams[x := Stream(mine, Released)];
      if game !in feeds || |entries| <= feeds[game] {
        return;
      }
      var e := feeds[game];
      entries := WithRefs(View(), e, -1);
      if 0 < entries[e].refs {
        return;
      }
      feeds, entries := feeds - {game}, entries[mine := entries[mine].(phase := Stopped)];
    }
  }

  datatype Step = Acquire(game: string) | StartAnswer(e: nat, ok: bool) | Resume(x: nat) | Release(x: nat)

  function Apply(s: State, step: Step): State {
    match step
    case Acquire(game) => AfterAcquire(s, game)
    case StartAnswer(e, ok) => AfterStart(s, e, ok)
    case Resume(x) => AfterResume(s, x)
    case Release(x) => AfterRelease(s, x)
  }

  function Run(steps: seq<Step>): State {
    if steps == [] then START else Apply(Run(steps[..|steps| - 1]), steps[|steps| - 1])
  }

  predicate Uses(x: Stream, e: nat) {
    x.entry == e && (x.stage == Awaiting || x.stage == Holding)
  }

  /** The streams that await or hold an entry's feed. */
  function Users(streams: seq<Stream>, e: nat): nat {
    if streams == [] then 0
    else Users(streams[..|streams| - 1], e) + if Uses(streams[|streams| - 1], e) then 1 else 0
  }

  ghost predicate FeedsOk(s: State) {
    forall g :: g in s.feeds ==> s.feeds[g] < |s.entries| && s.entries[s.feeds[g]].game == g
  }

  ghost predicate EntryOk(s: State, e: nat)
    requires e < |s.entries|
  {
    && s.entries[e].refs == Users(s.streams, e)
    && (Current(s, e) <==> s.entries[e].phase == Starting || s.entries[e].phase == Running)
    && (Current(s, e) || s.entries[e].phase == StartFailed || s.entries[e].refs == 0)
    && (Current(s, e) ==> 0 < s.entries[e].refs)
  }

  ghost predicate StreamOk(s: State, x: nat)
    requires x < |s.streams|
  {
    && s.streams[x].entry < |s.entries|
    && (s.streams[x].stage == Holding ==> s.entries[s.streams[x].entry].phase == Running)
  }

  ghost predicate Inv(s: State) {
    && FeedsOk(s)
    && (forall e: nat :: e < |s.entries| ==> EntryOk(s, e))
    && (forall x: nat :: x < |s.streams| ==> StreamOk(s, x))
  }

  lemma {:induction false} UsersUpdate(streams: seq<Stream>, x: nat, after: Stream, e: nat)
    requires x < |streams|
    ensures Users(streams[x := after], e) ==
            Users(streams, e) - (if Uses(streams[x], e) then 1 else 0) + (if Uses(after, e) then 1 else 0)
  {
    var changed := streams[x := after];
    if x == |streams| - 1 {
      assert changed[..|changed| - 1] == streams[..|streams| - 1];
    } else {
      assert changed[..|changed| - 1] == streams[..|streams| - 1][x := after];
      UsersUpdate(streams[..|streams| - 1], x, after, e);
    }
  }

  lemma {:induction false} UserCounts(streams: seq<Stream>, x: nat, e: nat)
    requires x < |streams| && Uses(streams[x], e)
    ensures 0 < Users(streams, e)
  {
    if x < |streams| - 1 {
      UserCounts(streams[..|streams| - 1], x, e);
    }
  }

  lemma {:induction false} NoUsers(streams: seq<Stream>, e: nat)
    requires forall x :: 0 <= x < |streams| ==> streams[x].entry != e
    ensures Users(streams, e) == 0
  {
    if streams != [] {
      NoUsers(streams[..|streams| - 1], e);
    }
  }

  lemma AcquireKeeps(s: State, game: string)
    requires Inv(s)
    ensures Inv(AfterAcquire(s, game))
  {
    var after := AfterAcquire(s, game);
    assert after.streams[..|after.streams| - 1] == s.streams;
    forall x: nat | x < |after.streams|
      ensures StreamOk(after, x) && (x < |s.streams| ==> s.streams[x].entry < |s.entries|)
    {
      if x < |s.streams| {
        assert StreamOk(s, x);
      }
    }
    NoUsers(s.streams, |s.entries|);
    forall e: nat | e < |after.entries|
      ensures EntryOk(after, e)
    {
      if e < |s.entries| {
        assert EntryOk(s, e);
      }
    }
  }

  lemma StartKeeps(s: State, e: nat, ok: bool)
    requires Inv(s)
    ensures Inv(AfterStart(s, e, ok))
  {
    hide Users;
    var after := AfterStart(s, e, ok);
    forall f: nat | f < |after.entries|
      ensures EntryOk(after, f)
    {
      assert EntryOk(s, f);
      if e < |s.entries| {
        assert EntryOk(s, e);
      }
    }
    forall x: nat | x < |after.streams|
      ensures StreamOk(after, x)
    {
      assert StreamOk(s, x);
    }
  }

  lemma ResumeKeeps(s: State, x: nat)
    requires Inv(s)
    ensures Inv(AfterResume(s, x))
  {
    hide Users;
    var after := AfterResume(s, x);
    if CanResume(s, x) {
      UserCounts(s.streams, x, s.streams[x].entry);
      assert EntryOk(s, s.streams[x].entry);
    }
    forall f: nat | f < |after.entries|
      ensures EntryOk(after, f)
    {
      assert EntryOk(s, f);
      if x < |s.streams| {
        UsersUpdate(s.streams, x, after.streams[x], f);
      }
    }
    forall y: nat | y < |after.streams|
      ensures StreamOk(after, y)
    {
      assert StreamOk(s, y);
    }
  }

  /** While a stream holds a feed, the game's entry is that feed's. */
  lemma HoldersAreCurrent(s: State, x: nat)
    requires Inv(s) && x < |s.streams| && s.streams[x].stage == Holding
    ensures Current(s, s.streams[x].entry) && s.entries[s.streams[x].entry].phase == Running
  {
    assert StreamOk(s, x);
    assert EntryOk(s, s.streams[x].entry);
  }

  lemma ReleaseKeeps(s: State, x: nat)
    requires Inv(s)
    ensures Inv(AfterRelease(s, x))
  {
    hide Users;
    var after := AfterRelease(s, x);
    if x < |s.streams| && s.streams[x].stage == Holding {
      HoldersAreCurrent(s, x);
      var mine := s.streams[x].entry;
      forall f: nat | f < |after.entries|
        ensures EntryOk(after, f)
      {
        assert EntryOk(s, f);
        UsersUpdate(s.streams, x, Stream(mine, Released), f);
      }
      forall y: nat | y < |after.streams|
        ensures StreamOk(after, y)
      {
        assert StreamOk(s, y);
        if y != x && s.streams[y].stage == Holding {
          UserCounts(after.streams, y, s.streams[y].entry);
          assert EntryOk(after, s.streams[y].entry);
        }
      }
    }
  }

  lemma StepKeeps(s: State, step: Step)
    requires Inv(s)
    ensures Inv(Apply(s, step))
  {
    hide Inv, AfterAcquire, AfterStart, AfterResume, AfterRelease;
    match step
    case Acquire(game) => AcquireKeeps(s, game);
    case StartAnswer(e, ok) => StartKeeps(s, e, ok);
    case Resume(x) => ResumeKeeps(s, x);
    case Release(x) => ReleaseKeeps(s, x);
  }

  lemma {:induction false} RunKeeps(steps: seq<Step>)
    ensures Inv(Run(steps))
  {
    hide Apply;
    if steps != [] {
      RunKeeps(steps[..|steps| - 1]);
      StepKeeps(Run(steps[..|steps| - 1]), steps[|steps| - 1]);
    }
  }

  /** A feed some stream holds is running, and it is the only feed of its game that starts or runs. */
  lemma HeldFeedsRun(steps: seq<Step>, x: nat, e: nat)
    requires x < |Run(steps).streams| && Run(steps).streams[x].stage == Holding && e < |Run(steps).entries|
    ensures
      var s := Run(steps);
      var mine := s.streams[x].entry;
      && mine < |s.entries| && s.entries[mine].phase == Running
      && (s.entries[e].game == s.entries[mine].game && (s.entries[e].phase == Starting || s.entries[e].phase == Running) ==> e == mine)
  {
    RunKeeps(steps);
    HoldersAreCurrent(Run(steps), x);
    assert EntryOk(Run(steps), e);
  }

  /** No feed outlives its streams: one that starts or runs is awaited or held by someone. */
  lemma NoFeedIsLeaked(steps: seq<Step>, e: nat)
    requires e < |Run(steps).entries|
    ensures
      var s := Run(steps);
      && (s.entries[e].phase == Starting || s.entries[e].phase == Running ==> 0 < Users(s.streams, e))
      && (s.entries[e].phase == Stopped ==> Users(s.streams, e) == 0)
  {
    RunKeeps(steps);
    assert EntryOk(Run(steps), e);
  }

  /** A waiting stream goes on exactly when its feed has started, or is refused when the start failed; a holder lets go once. */
  lemma StagesMove(steps: seq<Step>, step: Step, x: nat)
    requires x < |Run(steps).streams|
    ensures
      var s, after := Run(steps), Apply(Run(steps), step);
      && x < |after.streams| && after.streams[x].entry == s.streams[x].entry < |s.entries|
      && var phase, stage := s.entries[s.streams[x].entry].phase, s.streams[x].stage;
         after.streams[x].stage ==
         if step == Resume(x) && stage == Awaiting && phase == Running then Holding
         else if step == Resume(x) && stage == Awaiting && phase == StartFailed then Refused
         else if step == Release(x) && stage == Holding then Released
         else stage
  {
    RunKeeps(steps);
    var s := Run(steps);
    hide Run, Users;
    assert StreamOk(s, x);
    assert EntryOk(s, s.streams[x].entry);
    if s.streams[x].stage == Awaiting {
      UserCounts(s.streams, x, s.streams[x].entry);
    }
  }

  /** A feed starts or fails as its position read says, and stops exactly when the last stream holding it lets go. */
  lemma PhasesMove(steps: seq<Step>, step: Step, e: nat)
    requires e < |Run(steps).entries|
    ensures
      var s, after := Run(steps), Apply(Run(steps), step);
      && e < |after.entries| && after.entries[e].game == s.entries[e].game
      && var phase := s.entries[e].phase;
         after.entries[e].phase ==
         if step == StartAnswer(e, true) && phase == Starting then Running
         else if step == StartAnswer(e, false) && phase == Starting then StartFailed
         else if step.Release? && step.x < |s.streams| && s.streams[step.x] == Stream(e, Holding) && Users(s.streams, e) == 1 then Stopped
         else phase
  {
    RunKeeps(steps);
    var s := Run(steps);
    hide Run, Users;
    assert EntryOk(s, e);
    if step.Release? && step.x < |s.streams| && s.streams[step.x].stage == Holding {
      HoldersAreCurrent(s, step.x);
    }
  }

  /** A new stream waits for the game's starting or running feed, and makes one exactly when there is none. */
  lemma AcquireJoinsOrMakes(steps: seq<Step>, game: string)
    ensures
      var s, after := Run(steps), Apply(Run(steps), Acquire(game));
      var x := after.streams[|s.streams|];
      && |after.streams| == |s.streams| + 1 && x.stage == Awaiting && x.entry < |after.entries| && after.entries[x.entry].game == game
      && (after.entries[x.entry].phase == Starting || after.entries[x.entry].phase == Running)
      && (|after.entries| == |s.entries| + 1 <==>
            forall e: nat :: e < |s.entries| && s.entries[e].game == game ==> s.entries[e].phase == StartFailed || s.entries[e].phase == Stopped)
      && |s.entries| <= |after.entries| <= |s.entries| + 1
  {
    RunKeeps(steps);
    var s := Run(steps);
    hide Run, Users;
    forall e: nat | e < |s.entries|
      ensures Current(s, e) <==> s.entries[e].phase == Starting || s.entries[e].phase == Running
    {
      assert EntryOk(s, e);
    }
    if game in s.feeds {
      assert Current(s, s.feeds[game]);
    }
  }

  lemma Extend(steps: seq<Step>, step: Step)
    ensures Run(steps + [step]) == Apply(Run(steps), step)
  {
    assert (steps + [step])[..|steps|] == steps;
  }

  /** The game's only stream and feed are new ones, at the given stage and phase. */
  function WithFirst(s: State, game: string, listed: bool, refs: int, phase: Phase, stage: Stage): State {
    State(if listed then s.feeds[game := |s.entries|] else s.feeds, s.entries + [Entry(game, refs, phase)], s.streams + [Stream(|s.entries|, stage)])
  }

  lemma FirstAcquires(s: State, game: string)
    requires game !in s.feeds
    ensures AfterAcquire(s, game) == WithFirst(s, game, true, 1, Starting, Awaiting)
  {
  }

  lemma FirstStarts(s: State, game: string)
    ensures AfterStart(WithFirst(s, game, true, 1, Starting, Awaiting), |s.entries|, true) == WithFirst(s, game, true, 1, Running, Awaiting)
  {
    assert WithFirst(s, game, true, 1, Starting, Awaiting).entries[|s.entries| := Entry(game, 1, Running)] == s.entries + [Entry(game, 1, Running)];
  }

  lemma FirstHolds(s: State, game: string)
    ensures AfterResume(WithFirst(s, game, true, 1, Running, Awaiting), |s.streams|) == WithFirst(s, game, true, 1, Running, Holding)
  {
    assert (s.streams + [Stream(|s.entries|, Awaiting)])[|s.streams| := Stream(|s.entries|, Holding)] == s.streams + [Stream(|s.entries|, Holding)];
  }

  lemma FirstReleases(s: State, game: string)
    requires game !in s.feeds
    ensures AfterRelease(WithFirst(s, game, true, 1, Running, Holding), |s.streams|) == WithFirst(s, game, false, 0, Stopped, Released)
  {
    var e := |s.entries|;
    assert (s.streams + [Stream(e, Holding)])[|s.streams| := Stream(e, Released)] == s.streams + [Stream(e, Released)];
    assert (s.entries + [Entry(game, 1, Running)])[e := Entry(game, 0, Running)] == s.entries + [Entry(game, 0, Running)];
    assert (s.entries + [Entry(game, 0, Running)])[e := Entry(game, 0, Stopped)] == s.entries + [Entry(game, 0, Stopped)];
    assert s.feeds[game := e] - {game} == s.feeds;
  }

  /** A game without a feed gets one by its first stream, which holds it once started; letting go stops it again. */
  lemma FirstStreamStartsAFeed(steps: seq<Step>, game: string)
    requires forall e: nat :: e < |Run(steps).entries| && Run(steps).entries[e].game == game ==>
               Run(steps).entries[e].phase == StartFailed || Run(steps).entries[e].phase == Stopped
    ensures
      var s := Run(steps);
      var held := steps + [Acquire(game)] + [StartAnswer(|s.entries|, true)] + [Resume(|s.streams|)];
      && Run(held) == WithFirst(s, game, true, 1, Running, Holding)
      && Run(held + [Release(|s.streams|)]) == WithFirst(s, game, false, 0, Stopped, Released)
  {
    hide AfterAcquire, AfterStart, AfterResume, AfterRelease, WithFirst, Run, Inv;
    RunKeeps(steps);
    var s := Run(steps);
    NoneListed(s, game);
    var one := steps + [Acquire(game)];
    var two := one + [StartAnswer(|s.entries|, true)];
    var three := two + [Resume(|s.streams|)];
    Extend(steps, Acquire(game));
    Extend(one, StartAnswer(|s.entries|, true));
    Extend(two, Resume(|s.streams|));
    Extend(three, Release(|s.streams|));
    FirstAcquires(s, game);
    FirstStarts(s, game);
    FirstHolds(s, game);
    FirstReleases(s, game);
  }

  lemma NoneListed(s: State, game: string)
    requires Inv(s)
    requires forall e: nat :: e < |s.entries| && s.entries[e].game == game ==> s.entries[e].phase == StartFailed || s.entries[e].phase == Stopped
    ensures game !in s.feeds
  {
    hide Users;
    assert game in s.feeds ==> EntryOk(s, s.feeds[game]);
  }
}
