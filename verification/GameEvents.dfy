/**
 The reconnecting client of the game-wide event stream (packages/sdk/src/gameEvents.ts), run
 against a server that may cut a stream anywhere, refuse a reconnect, or answer that a
 position has expired.
 */
module GameEvents {
  import opened Common

  const MAX_BACKOFF_EXPONENT: nat := 30

  type Kind = string

  datatype Event = Event(kind: Kind, body: string)

  datatype Frame = EventFrame(id: nat, event: Event) | Heartbeat(id: nat)

  datatype Options = Options(
    types: Option<set<Kind>>,
    known: set<Kind>,
    reconnect: bool,
    hasResync: bool,
    initialDelayMs: nat,
    maxDelayMs: nat)

  // ------------------------------------------------------------------
  // What the handler should see
  // ------------------------------------------------------------------

  /** The server sends it: the type filter lets it through. */
  predicate Matches(o: Options, event: Event) {
    o.types.None? || event.kind in o.types.value
  }

  /** The handler gets it: it is sent, and this SDK knows its type. */
  predicate Handled(o: Options, event: Event) {
    Matches(o, event) && event.kind in o.known
  }

  type Delivery = (nat, Event)

  /** The handled entries at positions after `from` up to `to`, in order. */
  function Wanted(o: Options, log: seq<Event>, from: nat, to: nat): seq<Delivery>
    requires to <= |log|
  {
    if to <= from then []
    else Wanted(o, log, from, to - 1) + (if Handled(o, log[to - 1]) then [(to, log[to - 1])] else [])
  }

  /** A jump made by a resync: positions after `from` up to `to` are not delivered. */
  datatype Gap = Gap(from: nat, to: nat)

  /** The gaps lie in order between `start` and `position`, within the log. */
  ghost predicate GapsInOrder(start: nat, gaps: seq<Gap>, position: nat)
    decreases |gaps|
  {
    if gaps == [] then start <= position
    else
      var last := gaps[|gaps| - 1];
      last.from <= last.to <= position && GapsInOrder(start, gaps[..|gaps| - 1], last.from)
  }

  /** Everything from `start` to `position` outside the gaps, each entry once and in order. */
  function Expected(o: Options, log: seq<Event>, start: nat, gaps: seq<Gap>, position: nat): seq<Delivery>
    requires position <= |log| && GapsInOrder(start, gaps, position)
    decreases |gaps|
  {
    if gaps == [] then Wanted(o, log, start, position)
    else
      var last := gaps[|gaps| - 1];
      Expected(o, log, start, gaps[..|gaps| - 1], last.from) + Wanted(o, log, last.to, position)
  }

  // ------------------------------------------------------------------
  // The client
  // ------------------------------------------------------------------

  datatype Opening = Reconnecting | Resyncing

  /** The pump's read: waiting, or resolved with its continuation still to run. */
  datatype Ready = Pending | Chunk(frames: seq<Frame>) | Ended | Overflowed

  /** How the handler (or the decoder before it) takes an event frame. */
  datatype Outcome = Fine | Throws | Closes | Malformed

  /**
   The closure variables of `subscribe` once the first stream is open, with what callers
   observe: deliveries, resync gaps, `onError` calls, the delays waited since the backoff last
   started over, and the frames handled after the close.
   */
  datatype Client = Client(
    closed: bool, position: nat, attempt: nat, timer: bool, stableTimer: bool,
    opening: Option<Opening>, pumping: bool, ready: Ready,
    delivered: seq<Delivery>, gaps: seq<Gap>, errors: nat, delays: seq<nat>, late: nat)

  function Pow2(n: nat): (p: nat)
    ensures 0 < p
  {
    if n == 0 then 1 else 2 * Pow2(n - 1)
  }

  function Cap(o: Options, attempt: nat): nat {
    var exponent := if attempt < MAX_BACKOFF_EXPONENT then attempt else MAX_BACKOFF_EXPONENT;
    var grown := o.initialDelayMs * Pow2(exponent);
    if o.maxDelayMs < grown then o.maxDelayMs else grown
  }

  /** A uniformly random whole delay below the cap; `roll` is the chance. */
  function Delay(o: Options, attempt: nat, roll: nat): nat {
    var cap := Cap(o, attempt);
    if cap == 0 then 0 else roll % cap
  }

  function Close(c: Client): Client {
    if c.closed then c else c.(closed := true, timer := false, stableTimer := false)
  }

  function Fail(c: Client): Client {
    if c.closed then c else Close(c).(errors := c.errors + 1)
  }

  /** Arms the retry timer, then tells the caller, who may close from inside the callback. */
  function Schedule(o: Options, c: Client, roll: nat, callbackCloses: bool): Client {
    var armed := c.(attempt := c.attempt + 1, timer := true, delays := c.delays + [Delay(o, c.attempt, roll)]);
    if callbackCloses then Close(armed) else armed
  }

  function MarkStable(c: Client): Client {
    c.(attempt := 0, delays := [], stableTimer := false)
  }

  datatype Rejection = Expired | Fatal | Transient

  function ConnectError(o: Options, c: Client, err: Rejection, roll: nat, callbackCloses: bool): Client {
    if c.closed then c
    else match err
      case Expired => if o.hasResync then c.(opening := Some(Resyncing)) else Fail(c)
      case Fatal => Fail(c)
      case Transient => Schedule(o, c, roll, callbackCloses)
  }

  /** The settled rejection of an open in flight. */
  function Rejected(o: Options, c: Client, err: Rejection, roll: nat, callbackCloses: bool): Client {
    match c.opening
    case None => c
    case Some(kind) =>
      var done := c.(opening := None);
      if kind == Resyncing && err == Expired then Fail(done) else ConnectError(o, done, err, roll, callbackCloses)
  }

  /** An accepted open; a resync starts at `current`, a reconnect where it left off. */
  function Accepted(c: Client, current: nat, callbackCloses: bool): Client {
    match c.opening
    case None => c
    case Some(kind) =>
      if c.closed then c.(opening := None)
      else
        var resumed :=
          if kind == Resyncing then c.(position := current, gaps := c.gaps + [Gap(c.position, current)]) else c;
        var pumped := resumed.(opening := None, pumping := true, ready := Pending, stableTimer := true);
        if callbackCloses then Close(pumped) else pumped
  }

  function TimerFires(c: Client): Client {
    if !c.timer then c
    else if c.closed then c.(timer := false)
    else c.(timer := false, opening := Some(Reconnecting))
  }

  function StreamEnd(o: Options, c: Client, roll: nat, callbackCloses: bool): Client {
    var done := c.(stableTimer := false, pumping := false, ready := Pending);
    if c.closed then done
    else if !o.reconnect then Fail(done)
    else Schedule(o, done, roll, callbackCloses)
  }

  /** One frame: the backoff starts over, the position advances, and a known event reaches the handler. */
  function HandleFrame(o: Options, c: Client, frame: Frame, outcome: Outcome): Client {
    var c1 := MarkStable(c).(late := if c.closed then c.late + 1 else c.late);
    match frame
    case Heartbeat(id) => c1.(position := id)
    case EventFrame(id, event) =>
      if outcome == Malformed then Fail(c1)
      else if event.kind !in o.known then c1.(position := id)
      else
        var given := c1.(position := id, delivered := c.delivered + [(id, event)]);
        match outcome
        case Throws => Fail(given)
        case Closes => Close(given)
        case _ => given
  }

  function OutcomeAt(outcomes: seq<Outcome>, i: nat): Outcome {
    if i < |outcomes| then outcomes[i] else Fine
  }

  /** Frames from index `i` on, until one leaves the subscription closed. */
  function HandleFrames(o: Options, c: Client, frames: seq<Frame>, outcomes: seq<Outcome>, i: nat): Client
    requires i <= |frames|
    decreases |frames| - i
  {
    if i == |frames| then c
    else
      var next := HandleFrame(o, c, frames[i], OutcomeAt(outcomes, i));
      if next.closed then next else HandleFrames(o, next, frames, outcomes, i + 1)
  }

  /** The continuation of a resolved read. */
  function Continue(o: Options, c: Client, outcomes: seq<Outcome>, roll: nat, callbackCloses: bool): Client {
    match c.ready
    case Pending => c
    case Chunk(frames) =>
      var handled := HandleFrames(o, c.(ready := Pending), frames, outcomes, 0);
      if handled.closed then StreamEnd(o, handled, roll, callbackCloses) else handled
    case Ended => StreamEnd(o, c, roll, callbackCloses)
    case Overflowed => Fail(c.(pumping := false, ready := Pending))
  }

  /** The source's closures as methods over the variables they share. */
  class GameSubscription {
    const o: Options
    var closed: bool
    var position: nat
    var attempt: nat
    var timer: bool
    var stableTimer: bool
    var opening: Option<Opening>
    var pumping: bool
    var ready: Ready
    var delivered: seq<Delivery>
    var gaps: seq<Gap>
    var errors: nat
    var delays: seq<nat>
    var late: nat

    function View(): Client
      reads this
    {
      Client(closed, position, attempt, timer, stableTimer, opening, pumping, ready, delivered, gaps, errors, delays, late)
    }

    constructor (options: Options, start: nat)
      ensures o == options && View() == FirstStream(start)
    {
      o := options;
      closed, position, attempt, timer, stableTimer := false, start, 0, false, true;
      opening, pumping, ready := None, true, Pending;
      delivered, gaps, errors, delays, late := [], [], 0, [], 0;
    }

    method CloseNow()
      modifies this
      ensures View() == Close(old(View()))
    {
      if closed {
        return;
      }
      closed := true;
      timer := false;
      stableTimer := false;
    }

    method FailNow()
      modifies this
      ensures View() == Fail(old(View()))
    {
      if closed {
        return;
      }
      CloseNow();
      errors := errors + 1;
    }

    method ScheduleRetry(roll: nat, callbackCloses: bool)
      modifies this
      ensures View() == Schedule(o, old(View()), roll, callbackCloses)
    {
      delays := delays + [Delay(o, attempt, roll)];
      attempt := attempt + 1;
      timer := true;
      if callbackCloses {
        CloseNow();
      }
    }

    method OnConnectError(err: Rejection, roll: nat, callbackCloses: bool)
      modifies this
      ensures View() == ConnectError(o, old(View()), err, roll, callbackCloses)
    {
      if closed {
        return;
      }
      if err == Expired {
        if !o.hasResync {
          FailNow();
        } else {
          opening := Some(Resyncing);
        }
      } else if err == Fatal {
        FailNow();
      } else {
        ScheduleRetry(roll, callbackCloses);
      }
    }

    method OnRejected(err: Rejection, roll: nat, callbackCloses: bool)
      modifies this
      ensures View() == Rejected(o, old(View()), err, roll, callbackCloses)
    {
      if opening == None {
        return;
      }
      var resyncing := opening == Some(Resyncing);
      opening := None;
      if resyncing && err == Expired {
        FailNow();
      } else {
        OnConnectError(err, roll, callbackCloses);
      }
    }

    method OnAccepted(current: nat, callbackCloses: bool)
      modifies this
      ensures View() == Accepted(old(View()), current, callbackCloses)
    {
      if opening == None {
        return;
      }
      var resyncing := opening == Some(Resyncing);
      opening := None;
      if closed {
        return;
      }
      if resyncing {
        gaps := gaps + [Gap(position, current)];
        position := current;
      }
      pumping := true;
      ready := Pending;
      stableTimer := true;
      if callbackCloses {
        CloseNow();
      }
    }

    method OnStreamEnd(roll: nat, callbackCloses: bool)
      modifies this
      ensures View() == StreamEnd(o, old(View()), roll, callbackCloses)
    {
      stableTimer := false;
      pumping := false;
      ready := Pending;
      if closed {
        return;
      }
      if !o.reconnect {
        FailNow();
        return;
      }
      ScheduleRetry(roll, callbackCloses);
    }

    method OnFrame(frame: Frame, outcome: Outcome)
      modifies this
      ensures View() == HandleFrame(o, old(View()), frame, outcome)
    {
      if closed {
        late := late + 1;
      }
      attempt := 0;
      delays := [];
      stableTimer := false;
      if frame.EventFrame? && outcome == Malformed {
        FailNow();
        return;
      }
      position := frame.id;
      if frame.EventFrame? && frame.event.kind in o.known {
        delivered := delivered + [(position, frame.event)];
        if outcome == Throws {
          FailNow();
        } else if outcome == Closes {
          CloseNow();
        }
      }
    }

    /** The inner loop of `readSSEFrames` over one chunk: the close check follows each frame. */
    method PumpChunk(outcomes: seq<Outcome>, roll: nat, callbackCloses: bool)
      requires ready.Chunk?
      modifies this
      ensures View() == Continue(o, old(View()), outcomes, roll, callbackCloses)
    {
      var frames := ready.frames;
      ready := Pending;
      ghost var begun := View();
      var i := 0;
      while i < |frames|
        invariant i <= |frames|
        invariant HandleFrames(o, begun, frames, outcomes, 0) == HandleFrames(o, View(), frames, outcomes, i)
      {
        OnFrame(frames[i], OutcomeAt(outcomes, i));
        i := i + 1;
        if closed {
          OnStreamEnd(roll, callbackCloses);
          return;
        }
      }
      if closed {
        OnStreamEnd(roll, callbackCloses);
      }
    }
  }

  function FirstStream(start: nat): Client {
    Client(false, start, 0, false, true, None, true, Pending, [], [], 0, [], 0)
  }

  // ------------------------------------------------------------------
  // Client and server together
  // ------------------------------------------------------------------

  /**
   The committed log; the server's cursor on the open stream and the frames it has sent that
   the client has not read; whether the stream is cut.
   */
  datatype World = World(log: seq<Event>, start: nat, client: Client, cursor: nat, wire: seq<Frame>, cut: bool)

  datatype Step =
    | Commit(event: Event)
    | Send
    | Beat
    | Cut
    | ReadFrames(n: nat)
    | ReadEnd
    | ReadOverflow
    | Resume(outcomes: seq<Outcome>, roll: nat, closes: bool)
    | Accept(closes: bool)
    | Reject(err: Rejection, roll: nat, closes: bool)
    | RetryTimer
    | StableTimer
    | CallerClose

  function Apply(o: Options, w: World, step: Step): World {
    var c := w.client;
    match step
    case Commit(event) => w.(log := w.log + [event])
    case Send =>
      if w.cut || |w.log| <= w.cursor then w
      else
        var event := w.log[w.cursor];
        w.(cursor := w.cursor + 1,
           wire := if Matches(o, event) then w.wire + [EventFrame(w.cursor + 1, event)] else w.wire)
    case Beat => if w.cut then w else w.(wire := w.wire + [Heartbeat(w.cursor)])
    case Cut => w.(cut := true)
    case ReadFrames(n) =>
      if c.pumping && c.ready == Pending && n <= |w.wire| then
        w.(client := c.(ready := Chunk(w.wire[..n])), wire := w.wire[n..])
      else w
    case ReadEnd =>
      if c.pumping && c.ready == Pending && (w.cut || c.closed) then w.(client := c.(ready := Ended), wire := []) else w
    case ReadOverflow =>
      if c.pumping && c.ready == Pending then w.(client := c.(ready := Overflowed), wire := []) else w
    case Resume(outcomes, roll, closes) => w.(client := Continue(o, c, outcomes, roll, closes))
    case Accept(closes) =>
      if c.opening == None then w
      else
        var after := Accepted(c, |w.log|, closes);
        if c.closed then w.(client := after)
        else w.(client := after, cursor := after.position, wire := [], cut := false)
    case Reject(err, roll, closes) => w.(client := Rejected(o, c, err, roll, closes))
    case RetryTimer => w.(client := TimerFires(c))
    case StableTimer => if c.stableTimer then w.(client := MarkStable(c)) else w
    case CallerClose => w.(client := Close(c))
  }

  function Begin(log: seq<Event>, start: nat): World {
    World(log, start, FirstStream(start), start, [], false)
  }

  function Run(o: Options, w: World, steps: seq<Step>): World {
    if steps == [] then w else Apply(o, Run(o, w, steps[..|steps| - 1]), steps[|steps| - 1])
  }

  // ------------------------------------------------------------------
  // Deliveries
  // ------------------------------------------------------------------

  /** No entry at positions after `from` up to `to` passes the filter. */
  ghost predicate Quiet(o: Options, log: seq<Event>, from: nat, to: nat) {
    to <= |log| && forall i :: from <= i < to ==> !Matches(o, log[i])
  }

  /** What one frame says about the log after `from`: the next entry the filter passes, or how far there is none. */
  ghost predicate Carries(o: Options, log: seq<Event>, from: nat, frame: Frame) {
    && from <= frame.id <= |log|
    && (frame.Heartbeat? ==> Quiet(o, log, from, frame.id))
    && (frame.EventFrame? ==>
          from < frame.id && log[frame.id - 1] == frame.event && Matches(o, frame.event) && Quiet(o, log, from, frame.id - 1))
  }

  /** The frames a server cursor sends on its way from `from` to `cursor`. */
  ghost predicate InTransit(o: Options, log: seq<Event>, from: nat, frames: seq<Frame>, cursor: nat)
    decreases |frames|
  {
    if frames == [] then from <= cursor && Quiet(o, log, from, cursor)
    else
      Carries(o, log, from, frames[0]) && InTransit(o, log, frames[0].id, frames[1..], cursor)
  }

  lemma {:induction false} TransitGrows(o: Options, log: seq<Event>, event: Event, from: nat, frames: seq<Frame>, cursor: nat)
    requires InTransit(o, log, from, frames, cursor)
    ensures InTransit(o, log + [event], from, frames, cursor)
    decreases |frames|
  {
    if frames != [] {
      TransitGrows(o, log, event, frames[0].id, frames[1..], cursor);
    }
  }

  lemma {:induction false} TransitSends(o: Options, log: seq<Event>, from: nat, frames: seq<Frame>, cursor: nat)
    requires InTransit(o, log, from, frames, cursor) && cursor < |log|
    ensures Matches(o, log[cursor]) ==> InTransit(o, log, from, frames + [EventFrame(cursor + 1, log[cursor])], cursor + 1)
    ensures !Matches(o, log[cursor]) ==> InTransit(o, log, from, frames, cursor + 1)
    decreases |frames|
  {
    var added := [EventFrame(cursor + 1, log[cursor])];
    if frames == [] {
      assert [] + added == added && added[1..] == [];
    } else {
      TransitSends(o, log, frames[0].id, frames[1..], cursor);
      assert (frames + added)[1..] == frames[1..] + added;
    }
  }

  lemma {:induction false} TransitBeats(o: Options, log: seq<Event>, from: nat, frames: seq<Frame>, cursor: nat)
    requires InTransit(o, log, from, frames, cursor)
    ensures InTransit(o, log, from, frames + [Heartbeat(cursor)], cursor)
    ensures cursor <= |log|
    decreases |frames|
  {
    if frames == [] {
      assert [] + [Heartbeat(cursor)] == [Heartbeat(cursor)];
    } else {
      TransitBeats(o, log, frames[0].id, frames[1..], cursor);
      assert (frames + [Heartbeat(cursor)])[1..] == frames[1..] + [Heartbeat(cursor)];
    }
  }

  lemma {:induction false} QuietWantsNothing(o: Options, log: seq<Event>, from: nat, to: nat)
    requires Quiet(o, log, from, to)
    ensures Wanted(o, log, from, to) == []
  {
    if from < to {
      assert !Matches(o, log[to - 1]);
      QuietWantsNothing(o, log, from, to - 1);
    }
  }

  /** What is wanted: each entry of a type that was asked for, or of any when none was, and that this SDK knows, once and in order. */
  lemma {:induction false} WantedIsExact(o: Options, log: seq<Event>, from: nat, to: nat, p: nat)
    requires to <= |log| && 0 < p <= |log|
    ensures (p, log[p - 1]) in Wanted(o, log, from, to) <==>
            from < p <= to && (o.types == None || log[p - 1].kind in o.types.value) && log[p - 1].kind in o.known
    ensures forall i :: 0 <= i < |Wanted(o, log, from, to)| ==> from < Wanted(o, log, from, to)[i].0 <= to
    ensures forall i, j :: 0 <= i < j < |Wanted(o, log, from, to)| ==> Wanted(o, log, from, to)[i].0 < Wanted(o, log, from, to)[j].0
  {
    if from < to {
      WantedIsExact(o, log, from, to - 1, p);
    }
  }

  lemma {:induction false} WantedSplit(o: Options, log: seq<Event>, from: nat, mid: nat, to: nat)
    requires from <= mid <= to <= |log|
    ensures Wanted(o, log, from, to) == Wanted(o, log, from, mid) + Wanted(o, log, mid, to)
  {
    if mid < to {
      WantedSplit(o, log, from, mid, to - 1);
    }
  }

  lemma {:induction false} WantedGrows(o: Options, log: seq<Event>, event: Event, from: nat, to: nat)
    requires to <= |log|
    ensures Wanted(o, log + [event], from, to) == Wanted(o, log, from, to)
  {
    if from < to {
      WantedGrows(o, log, event, from, to - 1);
    }
  }

  lemma {:induction false} ExpectedGrows(o: Options, log: seq<Event>, event: Event, start: nat, gaps: seq<Gap>, position: nat)
    requires position <= |log| && GapsInOrder(start, gaps, position)
    ensures Expected(o, log + [event], start, gaps, position) == Expected(o, log, start, gaps, position)
    decreases |gaps|
  {
    if gaps == [] {
      WantedGrows(o, log, event, start, position);
    } else {
      var last := gaps[|gaps| - 1];
      ExpectedGrows(o, log, event, start, gaps[..|gaps| - 1], last.from);
      WantedGrows(o, log, event, last.to, position);
    }
  }

  lemma {:induction false} ExpectedExtends(o: Options, log: seq<Event>, start: nat, gaps: seq<Gap>, position: nat, to: nat)
    requires position <= to <= |log| && GapsInOrder(start, gaps, position)
    ensures GapsInOrder(start, gaps, to)
    ensures Expected(o, log, start, gaps, to) == Expected(o, log, start, gaps, position) + Wanted(o, log, position, to)
  {
    if gaps == [] {
      WantedSplit(o, log, start, position, to);
    } else {
      WantedSplit(o, log, gaps[|gaps| - 1].to, position, to);
    }
  }

  lemma ExpectedJumps(o: Options, log: seq<Event>, start: nat, gaps: seq<Gap>, position: nat, to: nat)
    requires position <= to <= |log| && GapsInOrder(start, gaps, position)
    ensures GapsInOrder(start, gaps + [Gap(position, to)], to)
    ensures Expected(o, log, start, gaps + [Gap(position, to)], to) == Expected(o, log, start, gaps, position)
  {
    var more := gaps + [Gap(position, to)];
    assert more[..|more| - 1] == gaps;
    assert Wanted(o, log, to, to) == [];
  }

  /** The handler has seen exactly the expected entries up to the position. */
  ghost predicate Faithful(o: Options, log: seq<Event>, start: nat, c: Client) {
    && c.position <= |log|
    && GapsInOrder(start, c.gaps, c.position)
    && c.delivered == Expected(o, log, start, c.gaps, c.position)
  }

  /** The same up to a later position, where nothing more was wanted. */
  lemma FaithfulAdvance(o: Options, log: seq<Event>, start: nat, c: Client, to: nat, added: seq<Delivery>, c': Client)
    requires Faithful(o, log, start, c) && c.position <= to <= |log| && added == Wanted(o, log, c.position, to)
    requires c'.position == to && c'.gaps == c.gaps && c'.delivered == c.delivered + added
    ensures Faithful(o, log, start, c')
  {
    ExpectedExtends(o, log, start, c.gaps, c.position, to);
  }

  lemma WantedFrame(o: Options, log: seq<Event>, from: nat, frame: Frame)
    requires Carries(o, log, from, frame)
    ensures Wanted(o, log, from, frame.id)
         == if frame.EventFrame? && frame.event.kind in o.known then [(frame.id, frame.event)] else []
  {
    QuietWantsNothing(o, log, from, if frame.Heartbeat? then frame.id else frame.id - 1);
  }

  lemma FrameIsFaithful(o: Options, log: seq<Event>, start: nat, c: Client, frames: seq<Frame>, cursor: nat, outcome: Outcome)
    requires frames != [] && Faithful(o, log, start, c) && InTransit(o, log, c.position, frames, cursor)
    ensures var next := HandleFrame(o, c, frames[0], outcome);
            && Faithful(o, log, start, next)
            && (!next.closed ==> InTransit(o, log, next.position, frames[1..], cursor))
  {
    var next := HandleFrame(o, c, frames[0], outcome);
    WantedFrame(o, log, c.position, frames[0]);
    if next.position == frames[0].id && next.delivered != c.delivered {
      FaithfulAdvance(o, log, start, c, frames[0].id, [(frames[0].id, frames[0].event)], next);
    } else if frames[0].Heartbeat? || outcome != Malformed {
      FaithfulAdvance(o, log, start, c, frames[0].id, [], next);
    }
  }

  lemma {:induction false} FramesAreFaithful(o: Options, log: seq<Event>, start: nat, c: Client, frames: seq<Frame>,
                                             outcomes: seq<Outcome>, i: nat, wire: seq<Frame>, cursor: nat)
    requires i <= |frames| && Faithful(o, log, start, c) && InTransit(o, log, c.position, frames[i..] + wire, cursor)
    ensures var after := HandleFrames(o, c, frames, outcomes, i);
            && Faithful(o, log, start, after)
            && (!after.closed ==> InTransit(o, log, after.position, wire, cursor))
    decreases |frames| - i
  {
    hide Faithful, InTransit, HandleFrame;
    if i == |frames| {
      assert frames[i..] + wire == wire;
    } else {
      FrameIsFaithful(o, log, start, c, frames[i..] + wire, cursor, OutcomeAt(outcomes, i));
      assert (frames[i..] + wire)[1..] == frames[i + 1..] + wire;
      var next := HandleFrame(o, c, frames[i], OutcomeAt(outcomes, i));
      if !next.closed {
        FramesAreFaithful(o, log, start, next, frames, outcomes, i + 1, wire, cursor);
      }
    }
  }

  function Unread(ready: Ready): seq<Frame> {
    match ready case Chunk(frames) => frames case _ => []
  }

  ghost predicate InOrder(o: Options, w: World) {
    && Faithful(o, w.log, w.start, w.client)
    && (w.client.pumping && (w.client.ready.Pending? || w.client.ready.Chunk?) ==>
          InTransit(o, w.log, w.client.position, Unread(w.client.ready) + w.wire, w.cursor))
  }

  /** Only the position, the gaps and the deliveries matter to faithfulness. */
  lemma SameDeliveries(o: Options, log: seq<Event>, start: nat, c: Client, c': Client)
    requires Faithful(o, log, start, c)
    requires c'.position == c.position && c'.gaps == c.gaps && c'.delivered == c.delivered
    ensures Faithful(o, log, start, c')
  {
  }

  lemma ContinueKeepsOrder(o: Options, w: World, outcomes: seq<Outcome>, roll: nat, closes: bool)
    requires InOrder(o, w) && (w.client.ready != Pending ==> w.client.pumping)
    ensures InOrder(o, Apply(o, w, Resume(outcomes, roll, closes)))
  {
    hide Faithful, InTransit, HandleFrames, Delay;
    var c := w.client;
    if c.ready.Chunk? {
      var read := c.(ready := Pending);
      SameDeliveries(o, w.log, w.start, c, read);
      assert c.ready.frames[0..] == c.ready.frames;
      FramesAreFaithful(o, w.log, w.start, read, c.ready.frames, outcomes, 0, w.wire, w.cursor);
      var handled := HandleFrames(o, read, c.ready.frames, outcomes, 0);
      var n := HandledStillReads(o, read, c.ready.frames, outcomes, 0);
      assert [] + w.wire == w.wire;
      SameDeliveries(o, w.log, w.start, handled, StreamEnd(o, handled, roll, closes));
    } else {
      SameDeliveries(o, w.log, w.start, c, Continue(o, c, outcomes, roll, closes));
    }
  }

  /** What handling frames leaves alone, and what it may do to the rest of the subscription. */
  ghost predicate Handling(c: Client, after: Client, handled: nat) {
    && after.pumping == c.pumping && after.ready == c.ready && after.opening == c.opening
    && (c.closed ==> after.closed)
    && (c.closed || !after.closed ==> after.timer == c.timer && after.errors == c.errors)
    && (!c.closed && after.closed ==> !after.timer && c.errors <= after.errors <= c.errors + 1)
    && (handled == 0 ==> after == c)
    && (0 < handled ==> after.attempt == 0 && after.delays == [] && !after.stableTimer)
    && after.late == c.late + (if c.closed then handled else 0)
    && (c.closed ==> handled <= 1)
  }

  lemma FrameHandling(o: Options, c: Client, frame: Frame, outcome: Outcome)
    ensures Handling(c, HandleFrame(o, c, frame, outcome), 1)
  {
  }

  lemma {:induction false} HandledStillReads(o: Options, c: Client, frames: seq<Frame>, outcomes: seq<Outcome>, i: nat)
    returns (handled: nat)
    requires i <= |frames|
    ensures Handling(c, HandleFrames(o, c, frames, outcomes, i), handled)
    ensures handled == 0 <==> i == |frames|
    decreases |frames| - i
  {
    hide HandleFrame;
    handled := 0;
    if i < |frames| {
      handled := 1;
      var next := HandleFrame(o, c, frames[i], OutcomeAt(outcomes, i));
      FrameHandling(o, c, frames[i], OutcomeAt(outcomes, i));
      if !next.closed {
        var more := HandledStillReads(o, next, frames, outcomes, i + 1);
        handled := more + 1;
      }
    }
  }

  lemma AcceptKeepsOrder(o: Options, w: World, closes: bool)
    requires InOrder(o, w)
    ensures InOrder(o, Apply(o, w, Accept(closes)))
  {
    hide Faithful, InTransit;
    var c := w.client;
    var w' := Apply(o, w, Accept(closes));
    if c.opening != None && !c.closed {
      PositionIsLogged(o, w);
      if c.opening == Some(Resyncing) {
        FaithfulJump(o, w.log, w.start, c, w'.client);
      } else {
        SameDeliveries(o, w.log, w.start, c, w'.client);
      }
      NothingInTransit(o, w.log, w'.cursor);
      assert Unread(w'.client.ready) + w'.wire == [];
    } else {
      SameDeliveries(o, w.log, w.start, c, w'.client);
    }
  }

  lemma PositionIsLogged(o: Options, w: World)
    requires InOrder(o, w)
    ensures w.client.position <= |w.log|
  {
  }

  lemma NothingInTransit(o: Options, log: seq<Event>, at: nat)
    requires at <= |log|
    ensures InTransit(o, log, at, [], at)
  {
  }

  lemma FaithfulJump(o: Options, log: seq<Event>, start: nat, c: Client, c': Client)
    requires Faithful(o, log, start, c)
    requires c'.position == |log| && c'.gaps == c.gaps + [Gap(c.position, |log|)] && c'.delivered == c.delivered
    ensures Faithful(o, log, start, c')
  {
    ExpectedJumps(o, log, start, c.gaps, c.position, |log|);
  }

  lemma CommitKeepsOrder(o: Options, w: World, event: Event)
    requires InOrder(o, w)
    ensures InOrder(o, Apply(o, w, Commit(event)))
  {
    hide InTransit;
    var c := w.client;
    ExpectedGrows(o, w.log, event, w.start, c.gaps, c.position);
    if c.pumping && (c.ready.Pending? || c.ready.Chunk?) {
      TransitGrows(o, w.log, event, c.position, Unread(c.ready) + w.wire, w.cursor);
    }
  }

  lemma ServerKeepsOrder(o: Options, w: World)
    requires InOrder(o, w)
    ensures InOrder(o, Apply(o, w, Send)) && InOrder(o, Apply(o, w, Beat))
  {
    hide InTransit, Faithful, Matches;
    var c := w.client;
    if c.pumping && (c.ready.Pending? || c.ready.Chunk?) {
      var sent := Unread(c.ready) + w.wire;
      TransitBeats(o, w.log, c.position, sent, w.cursor);
      assert Unread(c.ready) + (w.wire + [Heartbeat(w.cursor)]) == sent + [Heartbeat(w.cursor)];
      if w.cursor < |w.log| {
        TransitSends(o, w.log, c.position, sent, w.cursor);
        var frame := EventFrame(w.cursor + 1, w.log[w.cursor]);
        assert Unread(c.ready) + (w.wire + [frame]) == sent + [frame];
      }
    }
  }

  lemma ReadKeepsOrder(o: Options, w: World, n: nat)
    requires InOrder(o, w)
    ensures InOrder(o, Apply(o, w, ReadFrames(n)))
    ensures InOrder(o, Apply(o, w, ReadEnd)) && InOrder(o, Apply(o, w, ReadOverflow))
  {
    hide InTransit, Faithful;
    var c := w.client;
    SameDeliveries(o, w.log, w.start, c, c.(ready := Ended));
    SameDeliveries(o, w.log, w.start, c, c.(ready := Overflowed));
    if c.pumping && c.ready == Pending && n <= |w.wire| {
      SameDeliveries(o, w.log, w.start, c, c.(ready := Chunk(w.wire[..n])));
      assert w.wire[..n] + w.wire[n..] == w.wire && [] + w.wire == w.wire;
    }
  }

  lemma RejectKeepsOrder(o: Options, w: World, err: Rejection, roll: nat, closes: bool)
    requires InOrder(o, w)
    ensures InOrder(o, Apply(o, w, Reject(err, roll, closes)))
  {
    hide InTransit, Faithful, Delay;
    SameDeliveries(o, w.log, w.start, w.client, Rejected(o, w.client, err, roll, closes));
  }

  lemma TimersKeepOrder(o: Options, w: World)
    requires InOrder(o, w)
    ensures InOrder(o, Apply(o, w, RetryTimer)) && InOrder(o, Apply(o, w, StableTimer))
    ensures InOrder(o, Apply(o, w, CallerClose)) && InOrder(o, Apply(o, w, Cut))
  {
    hide InTransit, Faithful;
    SameDeliveries(o, w.log, w.start, w.client, TimerFires(w.client));
    SameDeliveries(o, w.log, w.start, w.client, MarkStable(w.client));
    SameDeliveries(o, w.log, w.start, w.client, Close(w.client));
  }

  lemma StepKeepsOrder(o: Options, w: World, step: Step)
    requires InOrder(o, w) && (w.client.ready != Pending ==> w.client.pumping)
    ensures InOrder(o, Apply(o, w, step))
  {
    hide InOrder, Apply;
    match step
    case Commit(event) => CommitKeepsOrder(o, w, event);
    case Send => ServerKeepsOrder(o, w);
    case Beat => ServerKeepsOrder(o, w);
    case ReadFrames(n) => ReadKeepsOrder(o, w, n);
    case ReadEnd => ReadKeepsOrder(o, w, 0);
    case ReadOverflow => ReadKeepsOrder(o, w, 0);
    case Resume(outcomes, roll, closes) => ContinueKeepsOrder(o, w, outcomes, roll, closes);
    case Accept(closes) => AcceptKeepsOrder(o, w, closes);
    case Reject(err, roll, closes) => RejectKeepsOrder(o, w, err, roll, closes);
    case RetryTimer => TimersKeepOrder(o, w);
    case StableTimer => TimersKeepOrder(o, w);
    case CallerClose => TimersKeepOrder(o, w);
    case Cut => TimersKeepOrder(o, w);
  }

  // ------------------------------------------------------------------
  // Activities, errors and backoff
  // ------------------------------------------------------------------

  /** The delays waited since the backoff last started over. */
  ghost predicate BackedOff(o: Options, c: Client) {
    |c.delays| == c.attempt && forall i :: 0 <= i < |c.delays| ==> c.delays[i] <= Cap(o, i)
  }

  /** An open subscription does exactly one thing; a closed one has no timer armed and gets at most one more frame. */
  ghost predicate Tidy(c: Client) {
    && (!c.closed ==>
          (c.timer && c.opening == None && !c.pumping)
          || (!c.timer && c.opening != None && !c.pumping)
          || (!c.timer && c.opening == None && c.pumping))
    && (c.closed ==> !c.timer && !c.stableTimer)
    && (c.opening != None ==> !c.pumping)
    && (c.stableTimer ==> c.pumping)
    && (c.ready != Pending ==> c.pumping)
    && c.errors <= 1 && (c.errors == 1 ==> c.closed)
    && c.late <= 1 && (c.late == 1 ==> c.closed && !c.pumping)
  }

  lemma ContinueKeepsTidy(o: Options, c: Client, outcomes: seq<Outcome>, roll: nat, closes: bool)
    requires Tidy(c) && BackedOff(o, c)
    ensures Tidy(Continue(o, c, outcomes, roll, closes)) && BackedOff(o, Continue(o, c, outcomes, roll, closes))
  {
    hide HandleFrames, Cap;
    if c.ready.Chunk? {
      var n := HandledStillReads(o, c.(ready := Pending), c.ready.frames, outcomes, 0);
    } else if c.ready.Ended? {
      DelayIsCapped(o, c.attempt, roll);
    }
  }

  lemma DelayIsCapped(o: Options, attempt: nat, roll: nat)
    ensures Delay(o, attempt, roll) <= Cap(o, attempt)
  {
  }

  lemma StepKeepsTidy(o: Options, w: World, step: Step)
    requires Tidy(w.client) && BackedOff(o, w.client)
    ensures Tidy(Apply(o, w, step).client) && BackedOff(o, Apply(o, w, step).client)
  {
    hide HandleFrames, Cap, Continue, Delay, Matches;
    match step
    case Resume(outcomes, roll, closes) => ContinueKeepsTidy(o, w.client, outcomes, roll, closes);
    case Reject(err, roll, closes) => DelayIsCapped(o, w.client.attempt, roll);
    case _ =>
  }

  lemma BeginInOrder(o: Options, log: seq<Event>, start: nat)
    requires start <= |log|
    ensures InOrder(o, Begin(log, start)) && Tidy(Begin(log, start).client) && BackedOff(o, Begin(log, start).client)
  {
    NothingInTransit(o, log, start);
    assert Unread(Pending) + [] == [];
  }

  lemma StepKeepsStart(o: Options, w: World, step: Step)
    ensures Apply(o, w, step).start == w.start
  {
  }

  lemma {:induction false} RunKeeps(o: Options, log: seq<Event>, start: nat, steps: seq<Step>)
    requires start <= |log|
    ensures InOrder(o, Run(o, Begin(log, start), steps))
    ensures Tidy(Run(o, Begin(log, start), steps).client) && BackedOff(o, Run(o, Begin(log, start), steps).client)
    ensures Run(o, Begin(log, start), steps).start == start
  {
    hide InOrder, Tidy, BackedOff, Apply;
    if steps == [] {
      BeginInOrder(o, log, start);
    } else {
      var w := Run(o, Begin(log, start), steps[..|steps| - 1]);
      RunKeeps(o, log, start, steps[..|steps| - 1]);
      TidyReads(w.client);
      StepKeepsOrder(o, w, steps[|steps| - 1]);
      StepKeepsTidy(o, w, steps[|steps| - 1]);
      StepKeepsStart(o, w, steps[|steps| - 1]);
    }
  }

  lemma TidyReads(c: Client)
    requires Tidy(c)
    ensures c.ready != Pending ==> c.pumping
  {
  }

  // ------------------------------------------------------------------
  // When it gives up and when it tries again
  // ------------------------------------------------------------------

  /** A malformed event frame, or one whose handler throws: the subscription fails. */
  predicate FailsAt(o: Options, frames: seq<Frame>, outcomes: seq<Outcome>, k: nat)
    requires k < |frames|
  {
    && frames[k].EventFrame? && k < |outcomes|
    && (outcomes[k] == Malformed || (frames[k].event.kind in o.known && outcomes[k] == Throws))
  }

  /** An event frame whose handler closes the subscription. */
  predicate ClosesAt(o: Options, frames: seq<Frame>, outcomes: seq<Outcome>, k: nat)
    requires k < |frames|
  {
    frames[k].EventFrame? && frames[k].event.kind in o.known && k < |outcomes| && outcomes[k] == Closes
  }

  /** The first frame from index `i` on that ends the subscription makes it fail. */
  ghost predicate FailsFirst(o: Options, frames: seq<Frame>, outcomes: seq<Outcome>, i: nat) {
    exists k :: i <= k < |frames| && FailsAt(o, frames, outcomes, k) && forall j :: i <= j < k ==> !ClosesAt(o, frames, outcomes, j)
  }

  lemma {:induction false} FramesGiveUp(o: Options, c: Client, frames: seq<Frame>, outcomes: seq<Outcome>, i: nat)
    requires i <= |frames| && !c.closed
    ensures var after := HandleFrames(o, c, frames, outcomes, i);
            && (after.closed <==> exists k :: i <= k < |frames| && (FailsAt(o, frames, outcomes, k) || ClosesAt(o, frames, outcomes, k)))
            && after.errors == c.errors + if FailsFirst(o, frames, outcomes, i) then 1 else 0
    decreases |frames| - i
  {
    if i < |frames| {
      var next := HandleFrame(o, c, frames[i], OutcomeAt(outcomes, i));
      if !next.closed {
        FramesGiveUp(o, next, frames, outcomes, i + 1);
        assert FailsFirst(o, frames, outcomes, i) <==> FailsFirst(o, frames, outcomes, i + 1);
      } else if ClosesAt(o, frames, outcomes, i) {
        assert !FailsFirst(o, frames, outcomes, i);
      } else {
        assert FailsAt(o, frames, outcomes, i);
      }
    }
  }

  /** What ends a subscription with an error: nothing a further attempt could cure. */
  ghost predicate GivesUp(o: Options, c: Client, step: Step) {
    || (step.Reject? && c.opening != None
        && (step.err == Fatal || (step.err == Expired && (!o.hasResync || c.opening == Some(Resyncing)))))
    || (step.Resume? && c.ready == Overflowed)
    || (step.Resume? && c.ready == Ended && !o.reconnect)
    || (step.Resume? && c.ready.Chunk? && FailsFirst(o, c.ready.frames, step.outcomes, 0))
  }

  /** An attempt that may still succeed: a transient refusal, or a stream that ended and is to be reopened. */
  predicate TriesAgain(o: Options, c: Client, step: Step) {
    (step.Reject? && c.opening != None && step.err == Transient) || (step.Resume? && c.ready == Ended && o.reconnect)
  }

  /**
   An open subscription calls `onError`, once, and closes exactly when an open was refused for good, a
   410 met no resync handler or answered a resync, the frame cap was exceeded, the stream ended with
   reconnecting off, or a frame of the read was malformed or its handler threw.
   */
  lemma ErrorExactlyWhenGivingUp(o: Options, w: World, step: Step)
    requires !w.client.closed
    ensures var c, c' := w.client, Apply(o, w, step).client;
            && c'.errors == c.errors + (if GivesUp(o, c, step) then 1 else 0)
            && (GivesUp(o, c, step) ==> c'.closed && !c'.timer && !c'.stableTimer)
  {
    hide HandleFrames, Delay, Matches, FailsFirst;
    if step.Resume? && w.client.ready.Chunk? {
      var frames := w.client.ready.frames;
      var read := w.client.(ready := Pending);
      var n := HandledStillReads(o, read, frames, step.outcomes, 0);
      FramesGiveUp(o, read, frames, step.outcomes, 0);
      if FailsFirst(o, frames, step.outcomes, 0) {
        FailureCloses(o, frames, step.outcomes);
      }
    }
  }

  lemma FailureCloses(o: Options, frames: seq<Frame>, outcomes: seq<Outcome>)
    requires FailsFirst(o, frames, outcomes, 0)
    ensures exists k :: 0 <= k < |frames| && (FailsAt(o, frames, outcomes, k) || ClosesAt(o, frames, outcomes, k))
  {
  }

  /**
   An open subscription waits for another attempt exactly after a transient refusal and after a stream
   that ended with reconnecting on, one attempt later than before unless its callback closes it; and it
   turns to a resync exactly on a 410 to a reconnect with a resync handler.
   */
  lemma RetriesExactlyWhen(o: Options, w: World, step: Step)
    requires !w.client.closed && Tidy(w.client)
    ensures var c, c' := w.client, Apply(o, w, step).client;
            && (TriesAgain(o, c, step) ==> c'.attempt == c.attempt + 1 && c'.position == c.position && c'.timer == !step.closes == !c'.closed)
            && (c'.timer && !c.timer <==> TriesAgain(o, c, step) && !step.closes)
            && (c'.opening == Some(Resyncing) && c.opening != Some(Resyncing) <==>
                  step.Reject? && c.opening == Some(Reconnecting) && step.err == Expired && o.hasResync)
  {
    hide HandleFrames, Delay, Matches;
    if step.Resume? && w.client.ready.Chunk? {
      var n := HandledStillReads(o, w.client.(ready := Pending), w.client.ready.frames, step.outcomes, 0);
    }
  }

  /** When the timer of a waiting subscription fires it reconnects from its position. */
  lemma RetryReconnects(o: Options, w: World)
    requires Tidy(w.client) && w.client.timer
    ensures Apply(o, w, RetryTimer).client == w.client.(timer := false, opening := Some(Reconnecting))
  {
  }

  /**
   An accepted open of an open subscription is read from at once: a reconnect from the position the
   subscription is at, a resync from the end of the log, with the jump recorded as a gap. A closed one
   drops it.
   */
  lemma AcceptOpens(o: Options, w: World, closes: bool)
    requires w.client.opening.Some?
    ensures w.client.closed ==> Apply(o, w, Accept(closes)) == w.(client := w.client.(opening := None))
    ensures var c, w' := w.client, Apply(o, w, Accept(closes));
            !c.closed ==>
            && w'.client.opening == None && w'.client.pumping && w'.client.ready == Pending && w'.client.closed == closes
            && w'.client.delivered == c.delivered && w'.client.errors == c.errors
            && w'.client.position == (if c.opening == Some(Resyncing) then |w.log| else c.position)
            && w'.client.gaps == (if c.opening == Some(Resyncing) then c.gaps + [Gap(c.position, |w.log|)] else c.gaps)
            && w'.cursor == w'.client.position && w'.wire == [] && !w'.cut
  {
  }

  /**
   The backoff starts over exactly when a frame is handled or the stability timer fires; that timer is
   armed by each stream that opens, and only by it.
   */
  lemma BackoffStartsOverWhen(o: Options, w: World, step: Step)
    requires !w.client.closed && Tidy(w.client)
    ensures var c, c' := w.client, Apply(o, w, step).client;
            var proven := (step.StableTimer? && c.stableTimer) || (step.Resume? && c.ready.Chunk? && c.ready.frames != []);
            && (proven ==> c'.attempt == 0 && c'.delays == [] && !c'.stableTimer)
            && (!proven && !TriesAgain(o, c, step) ==> c'.attempt == c.attempt && c'.delays == c.delays)
            && (c'.stableTimer && !c.stableTimer <==> step.Accept? && c.opening != None && !step.closes)
  {
    hide HandleFrames, Delay, Matches;
    if step.Resume? && w.client.ready.Chunk? {
      var n := HandledStillReads(o, w.client.(ready := Pending), w.client.ready.frames, step.outcomes, 0);
    }
  }

  // ------------------------------------------------------------------
  // The promises of `subscribe`
  // ------------------------------------------------------------------

  /**
   Over every run of cuts, refused and accepted reconnects and resyncs, the handler has been
   given exactly the handled log entries after the start position up to the position, in
   order, each once, except the entries a reported resync jumped over.
   */
  lemma HandlerSeesTheLog(o: Options, log: seq<Event>, start: nat, steps: seq<Step>)
    requires start <= |log|
    ensures var w := Run(o, Begin(log, start), steps);
            && w.client.position <= |w.log|
            && GapsInOrder(start, w.client.gaps, w.client.position)
            && w.client.delivered == Expected(o, w.log, start, w.client.gaps, w.client.position)
  {
    RunKeeps(o, log, start, steps);
  }

  /** Without a resync nothing is skipped: the deliveries are one uninterrupted stretch of the log. */
  lemma NoGapWithoutResync(o: Options, log: seq<Event>, start: nat, steps: seq<Step>)
    requires start <= |log| && !o.hasResync
    ensures var w := Run(o, Begin(log, start), steps);
            w.client.position <= |w.log| && w.client.delivered == Wanted(o, w.log, start, w.client.position)
  {
    HandlerSeesTheLog(o, log, start, steps);
    NeverResyncs(o, log, start, steps);
  }

  lemma {:induction false} NeverResyncs(o: Options, log: seq<Event>, start: nat, steps: seq<Step>)
    requires !o.hasResync
    ensures var c := Run(o, Begin(log, start), steps).client; c.gaps == [] && c.opening != Some(Resyncing)
  {
    if steps != [] {
      NeverResyncs(o, log, start, steps[..|steps| - 1]);
      StepNeverResyncs(o, Run(o, Begin(log, start), steps[..|steps| - 1]), steps[|steps| - 1]);
    }
  }

  lemma StepNeverResyncs(o: Options, w: World, step: Step)
    requires !o.hasResync && w.client.gaps == [] && w.client.opening != Some(Resyncing)
    ensures Apply(o, w, step).client.gaps == [] && Apply(o, w, step).client.opening != Some(Resyncing)
  {
    hide HandleFrames, Delay, Matches;
    if step.Resume? && w.client.ready.Chunk? {
      GapsUntouched(o, w.client.(ready := Pending), w.client.ready.frames, step.outcomes, 0);
    }
  }

  lemma {:induction false} GapsUntouched(o: Options, c: Client, frames: seq<Frame>, outcomes: seq<Outcome>, i: nat)
    requires i <= |frames|
    ensures HandleFrames(o, c, frames, outcomes, i).gaps == c.gaps
    ensures HandleFrames(o, c, frames, outcomes, i).opening == c.opening
    decreases |frames| - i
  {
    if i < |frames| {
      var next := HandleFrame(o, c, frames[i], OutcomeAt(outcomes, i));
      if !next.closed {
        GapsUntouched(o, next, frames, outcomes, i + 1);
      }
    }
  }

  /**
   An open subscription is always doing exactly one of three things; a closed one has no
   timer armed; `onError` is called at most once, and only by a subscription that closed.
   */
  lemma OneActivity(o: Options, log: seq<Event>, start: nat, steps: seq<Step>)
    requires start <= |log|
    ensures Tidy(Run(o, Begin(log, start), steps).client)
  {
    RunKeeps(o, log, start, steps);
  }

  lemma CapNext(o: Options, attempt: nat)
    requires attempt < MAX_BACKOFF_EXPONENT
    ensures o.initialDelayMs * Pow2(attempt + 1) == 2 * (o.initialDelayMs * Pow2(attempt))
  {
    var p := Pow2(attempt);
    assert Pow2(attempt + 1) == 2 * p;
    assert o.initialDelayMs * (2 * p) == 2 * (o.initialDelayMs * p);
  }

  /** The delay cap starts at the initial delay and doubles thirty times at most, within the maximum. */
  lemma CapGrows(o: Options, attempt: nat)
    ensures Cap(o, attempt) <= Cap(o, attempt + 1) <= o.maxDelayMs
    ensures Cap(o, attempt) == o.maxDelayMs
         || Cap(o, attempt) == o.initialDelayMs * Pow2(if attempt < MAX_BACKOFF_EXPONENT then attempt else MAX_BACKOFF_EXPONENT)
    ensures Cap(o, 0) == if o.maxDelayMs < o.initialDelayMs then o.maxDelayMs else o.initialDelayMs
    ensures Cap(o, attempt + 1) ==
            if 30 <= attempt then Cap(o, attempt)
            else if o.maxDelayMs < 2 * Cap(o, attempt) then o.maxDelayMs else 2 * Cap(o, attempt)
  {
    FirstCap(o);
    hide Pow2;
    if attempt < MAX_BACKOFF_EXPONENT {
      CapNext(o, attempt);
    }
  }

  lemma FirstCap(o: Options)
    ensures Cap(o, 0) == if o.maxDelayMs < o.initialDelayMs then o.maxDelayMs else o.initialDelayMs
  {
    assert Pow2(0) == 1;
    assert o.initialDelayMs * 1 == o.initialDelayMs;
  }

  /** Any delay below the cap can come up, and no other, save zero. */
  lemma AnyDelayBelowTheCap(o: Options, attempt: nat, delay: nat)
    ensures (exists roll :: Delay(o, attempt, roll) == delay) <==> delay < Cap(o, attempt) || (delay == 0 && Cap(o, attempt) == 0)
  {
    hide Cap;
    if delay < Cap(o, attempt) {
      assert Delay(o, attempt, delay) == delay;
    }
    if delay == 0 && Cap(o, attempt) == 0 {
      assert Delay(o, attempt, 0) == delay;
    }
  }

  /** In every run the k-th delay since the backoff last started over is within the k-th cap. */
  lemma DelaysAreCapped(o: Options, log: seq<Event>, start: nat, steps: seq<Step>)
    requires start <= |log|
    ensures var c := Run(o, Begin(log, start), steps).client;
            |c.delays| == c.attempt && forall i :: 0 <= i < |c.delays| ==> c.delays[i] <= Cap(o, i)
  {
    RunKeeps(o, log, start, steps);
  }

  /**
   After a close nothing new starts and no error is reported. A frame still reaches the
   handler exactly when a read had already resolved with it before the close, although the
   reader's documentation says that none does.
   */
  lemma AfterCloseAtMostThePendingFrame(o: Options, w: World, step: Step)
    requires Tidy(w.client) && w.client.closed
    ensures var c, c' := w.client, Apply(o, w, step).client;
            && c'.closed && c'.errors == c.errors && !c'.timer && !c'.stableTimer
            && (c'.opening != None ==> c.opening != None) && (c'.pumping ==> c.pumping)
            && (c'.late != c.late <==> step.Resume? && c.ready.Chunk? && c.ready.frames != [])
            && (c'.late == c.late ==> c'.delivered == c.delivered)
  {
    hide HandleFrames, Delay, Matches;
    if step.Resume? && w.client.ready.Chunk? {
      var n := HandledStillReads(o, w.client.(ready := Pending), w.client.ready.frames, step.outcomes, 0);
    }
  }

  /** The documented "no frame after the close" fails on this run: the close lands between a read and its continuation. */
  lemma LateFrameHappens(o: Options, event: Event)
    requires Handled(o, event)
    ensures var w := Run(o, Begin([event], 0), [Send, ReadFrames(1), CallerClose, Resume([], 0, false)]);
            w.client.closed && w.client.late == 1 && w.client.delivered == [(1, event)]
  {
    var w0 := Begin([event], 0);
    var s1: seq<Step> := [Send];
    var s2 := [Send, ReadFrames(1)];
    var s3 := [Send, ReadFrames(1), CallerClose];
    var s4 := [Send, ReadFrames(1), CallerClose, Resume([], 0, false)];
    assert s1[..0] == [] && s2[..1] == s1 && s3[..2] == s2 && s4[..3] == s3;
    var w1 := Apply(o, w0, Send);
    assert Run(o, w0, s1) == w1 && w1.wire == [EventFrame(1, event)];
    var w2 := Apply(o, w1, ReadFrames(1));
    assert Run(o, w0, s2) == w2 && w2.client.ready == Chunk([EventFrame(1, event)]);
    var w3 := Apply(o, w2, CallerClose);
    assert Run(o, w0, s3) == w3 && w3.client.closed;
    var c := w3.client.(ready := Pending);
    assert HandleFrames(o, c, [EventFrame(1, event)], [], 0) == HandleFrame(o, c, EventFrame(1, event), Fine);
    assert Run(o, w0, s4) == Apply(o, w3, Resume([], 0, false));
  }
}
