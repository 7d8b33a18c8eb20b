/**
 The statistics of one TCP forwarder: connection counters, byte counters, and the time during
 which data was arriving. Instants are in nanoseconds; burst time is kept in whole milliseconds.
 */
module ForwarderStats {
  import opened Wrappers
  import opened Saturating
  import opened Totals

  const BURST_IDLE_GAP: nat := 250_000_000
  const MILLISECOND: nat := 1_000_000

  datatype Stats = Stats(
    active: nat, total: nat, failed: nat,
    bytesUp: nat, bytesDown: nat, activeDownMs: nat, lastDownAt: Option<nat>)

  const NO_STATS: Stats := Stats(0, 0, 0, 0, 0, 0, None)

  // ---------------------------------------------------------------------------------------
  // The updates
  // ---------------------------------------------------------------------------------------

  datatype Event =
    | Accepted
    | Ended(failed: bool)          // a connection task's epilogue
    | Up(bytes: nat)
    | Down(bytes: nat, at: nat)
    | Zeroed                       // the last act of the stopped accept loop

  /** Milliseconds a gap adds: none if it is longer than the idle gap, else its whole milliseconds. */
  function CountedMs(last: Option<nat>, now: nat): nat {
    match last
    case None => 0
    case Some(previous) =>
      var gap := SaturatingSub(now, previous);
      if gap <= BURST_IDLE_GAP then gap / MILLISECOND else 0
  }

  function Record(s: Stats, e: Event): Stats {
    match e
    case Accepted => s.(total := s.total + 1, active := s.active + 1)
    case Ended(failed) => s.(active := SaturatingSub(s.active, 1), failed := s.failed + if failed then 1 else 0)
    case Up(bytes) => s.(bytesUp := s.bytesUp + bytes)
    case Down(bytes, at) =>
      s.(activeDownMs := s.activeDownMs + CountedMs(s.lastDownAt, at), lastDownAt := Some(at),
         bytesDown := s.bytesDown + bytes)
    case Zeroed => s.(active := 0)
  }

  function RecordAll(events: seq<Event>): Stats {
    if events == [] then NO_STATS else Record(RecordAll(events[..|events| - 1]), events[|events| - 1])
  }

  /** The shared record as the tasks update it, one locked section per method. */
  class StatsState {
    var active: nat
    var total: nat
    var failed: nat
    var bytesUp: nat
    var bytesDown: nat
    var activeDownMs: nat
    var lastDownAt: Option<nat>

    function State(): Stats
      reads this
    {
      Stats(active, total, failed, bytesUp, bytesDown, activeDownMs, lastDownAt)
    }

    constructor ()
      ensures State() == NO_STATS
    {
      active, total, failed, bytesUp, bytesDown, activeDownMs, lastDownAt := 0, 0, 0, 0, 0, 0, None;
    }

    method RecordDown(bytes: nat, now: nat)
      modifies this
      ensures State() == Record(old(State()), Down(bytes, now))
    {
      if lastDownAt.Some? {
        var gap := SaturatingSub(now, lastDownAt.value);
        if gap <= BURST_IDLE_GAP {
          activeDownMs := activeDownMs + gap / MILLISECOND;
        }
      }
      lastDownAt := Some(now);
      bytesDown := bytesDown + bytes;
    }

    method RecordUp(bytes: nat)
      modifies this
      ensures State() == Record(old(State()), Up(bytes))
    {
      bytesUp := bytesUp + bytes;
    }

    method ConnectionAccepted()
      modifies this
      ensures State() == Record(old(State()), Accepted)
    {
      total := total + 1;
      active := active + 1;
    }

    method ConnectionEnded(isErr: bool)
      modifies this
      ensures State() == Record(old(State()), Ended(isErr))
    {
      active := SaturatingSub(active, 1);
      if isErr {
        failed := failed + 1;
      }
    }

    method AcceptLoopStopped()
      modifies this
      ensures State() == Record(old(State()), Zeroed)
    {
      active := 0;
    }
  }

  // ---------------------------------------------------------------------------------------
  // Burst time
  // ---------------------------------------------------------------------------------------

  /** The arrival instants of a history, oldest first. */
  function Arrivals(events: seq<Event>): seq<nat> {
    if events == [] then []
    else
      var e, rest := events[|events| - 1], Arrivals(events[..|events| - 1]);
      if e.Down? then rest + [e.at] else rest
  }

  predicate Monotone(times: seq<nat>) {
    forall i, j | 0 <= i < j < |times| :: times[i] <= times[j]
  }

  /** The true time spent in bursts: the gaps of at most the idle gap, in nanoseconds. */
  function BurstTime(times: seq<nat>): nat
    requires Monotone(times)
  {
    if |times| < 2 then 0
    else
      var n := |times| - 1;
      var gap := times[n] - times[n - 1];
      BurstTime(times[..n]) + if gap <= BURST_IDLE_GAP then gap else 0
  }

  /** How many gaps were counted. */
  function CountedGaps(times: seq<nat>): nat
    requires Monotone(times)
  {
    if |times| < 2 then 0
    else
      var n := |times| - 1;
      CountedGaps(times[..n]) + if times[n] - times[n - 1] <= BURST_IDLE_GAP then 1 else 0
  }

  function DownBytes(events: seq<Event>): nat {
    if events == [] then 0
    else
      var e := events[|events| - 1];
      DownBytes(events[..|events| - 1]) + if e.Down? then e.bytes else 0
  }

  lemma {:induction false} BurstTimeWithinSpan(times: seq<nat>)
    requires Monotone(times) && times != []
    ensures BurstTime(times) <= times[|times| - 1] - times[0]
  {
    if |times| >= 2 {
      BurstTimeWithinSpan(times[..|times| - 1]);
    }
  }

  lemma WholeMilliseconds(gap: nat)
    ensures gap / MILLISECOND * MILLISECOND <= gap < gap / MILLISECOND * MILLISECOND + MILLISECOND
  {
  }

  lemma {:induction false} LastArrival(events: seq<Event>)
    ensures RecordAll(events).lastDownAt
         == if Arrivals(events) == [] then None else Some(Arrivals(events)[|Arrivals(events)| - 1])
  {
    if events != [] {
      LastArrival(events[..|events| - 1]);
    }
  }

  /** The reported time tracks the true one from below, losing under a millisecond a gap. */
  predicate Tight(ms: nat, times: seq<nat>)
    requires Monotone(times)
  {
    ms * MILLISECOND <= BurstTime(times) <= ms * MILLISECOND + CountedGaps(times) * (MILLISECOND - 1)
  }

  lemma OneMoreArrival(ms: nat, times: seq<nat>, at: nat)
    requires Monotone(times + [at])
    ensures Monotone(times)
    ensures Tight(ms, times) ==>
              Tight(ms + CountedMs(if times == [] then None else Some(times[|times| - 1]), at), times + [at])
  {
    var all := times + [at];
    assert forall i | 0 <= i < |times| :: all[i] == times[i];
    assert all[..|times|] == times;
    if times != [] {
      assert all[|times| - 1] <= all[|times|];
      WholeMilliseconds(at - times[|times| - 1]);
    }
  }

  /**
   The reported burst time never overstates the true one, and understates it by less than one
   millisecond for every gap counted; the byte count is exact. Other events change neither.
   */
  lemma {:induction false} BurstTimeIsTight(events: seq<Event>)
    requires Monotone(Arrivals(events))
    ensures var s, times := RecordAll(events), Arrivals(events);
            && s.activeDownMs * MILLISECOND <= BurstTime(times)
            && BurstTime(times) <= s.activeDownMs * MILLISECOND + CountedGaps(times) * (MILLISECOND - 1)
            && s.bytesDown == DownBytes(events)
  {
    if events != [] {
      var n := |events| - 1;
      var before, e := events[..n], events[n];
      if e.Down? {
        OneMoreArrival(RecordAll(before).activeDownMs, Arrivals(before), e.at);
        LastArrival(before);
      }
      BurstTimeIsTight(before);
    }
  }

  /** A stamp that is not after the last one adds no time, and becomes the last one. */
  lemma LateStampAddsNothing(events: seq<Event>, bytes: nat, at: nat, last: nat)
    requires RecordAll(events).lastDownAt == Some(last) && at <= last
    ensures var s, t := RecordAll(events), RecordAll(events + [Down(bytes, at)]);
            t == s.(lastDownAt := Some(at), bytesDown := s.bytesDown + bytes)
  {
    assert (events + [Down(bytes, at)])[..|events|] == events;
  }

  /** Burst time never exceeds the time between the first and the last arrival. */
  lemma BurstTimeBounded(events: seq<Event>)
    requires Monotone(Arrivals(events)) && Arrivals(events) != []
    ensures var times := Arrivals(events);
            RecordAll(events).activeDownMs * MILLISECOND <= times[|times| - 1] - times[0]
  {
    BurstTimeIsTight(events);
    BurstTimeWithinSpan(Arrivals(events));
  }

  // ---------------------------------------------------------------------------------------
  // Connection counters over a forwarder's life
  // ---------------------------------------------------------------------------------------

  datatype Loop = Running | Broken | Stopped

  /** The forwarder: its statistics, how many tasks can still reach their epilogue, and the loop. */
  datatype Forwarder = Forwarder(stats: Stats, live: nat, finished: nat, loop: Loop)

  const STARTED: Forwarder := Forwarder(NO_STATS, 0, 0, Running)

  datatype Action = Happens(e: Event) | Break | Aborted

  /**
   Connections are accepted only while the loop runs. Leaving the loop aborts the tasks, but a
   task already in its epilogue may still complete it, before or after the counter is zeroed.
   */
  predicate CanHappen(f: Forwarder, a: Action) {
    match a
    case Happens(e) =>
      && (e.Accepted? ==> f.loop == Running)
      && (e.Ended? ==> f.live > 0)
      && (e.Zeroed? ==> f.loop == Broken)
    case Break => f.loop == Running
    case Aborted => f.loop != Running && f.live > 0
  }

  function Act(f: Forwarder, a: Action): Forwarder {
    match a
    case Happens(e) =>
      Forwarder(Record(f.stats, e),
                if e.Accepted? then f.live + 1 else if e.Ended? then SaturatingSub(f.live, 1) else f.live,
                if e.Ended? then f.finished + 1 else f.finished,
                if e.Zeroed? then Stopped else f.loop)
    case Break => f.(loop := Broken)
    case Aborted => f.(live := SaturatingSub(f.live, 1))
  }

  ghost predicate Runs(f: Forwarder, actions: seq<Action>, g: Forwarder)
    decreases |actions|
  {
    if actions == [] then f == g
    else CanHappen(f, actions[0]) && Runs(Act(f, actions[0]), actions[1..], g)
  }

  predicate Counted(f: Forwarder) {
    && (f.loop == Running ==> f.live == f.stats.active)
    && (f.loop != Stopped ==> f.stats.total == f.stats.active + f.finished && f.live <= f.stats.active)
    && (f.loop == Stopped ==> f.stats.active == 0)
    && f.stats.failed <= f.finished
  }

  lemma {:induction false} CountedRuns(f: Forwarder, actions: seq<Action>, g: Forwarder)
    requires Counted(f) && Runs(f, actions, g)
    ensures Counted(g)
    decreases |actions|
  {
    if actions != [] {
      CountedRuns(Act(f, actions[0]), actions[1..], g);
    }
  }

  /**
   Over every life of a forwarder: until the stop, the total is the active ones plus the
   finished ones and no decrement ever saturates; after it, the active count stays zero
   whatever late epilogues run; failures never outnumber finished connections.
   */
  lemma CountersBalance(actions: seq<Action>, g: Forwarder)
    requires Runs(STARTED, actions, g)
    ensures g.loop != Stopped ==> g.stats.total == g.stats.active + g.finished
    ensures g.loop != Stopped && CanHappen(g, Happens(Ended(true))) ==> g.stats.active >= 1
    ensures g.loop == Stopped ==> g.stats.active == 0
    ensures g.stats.failed <= g.finished
  {
    CountedRuns(STARTED, actions, g);
  }

  // ---------------------------------------------------------------------------------------
  // What is counted
  // ---------------------------------------------------------------------------------------

  function Accepts(e: Event): nat {
    if e.Accepted? then 1 else 0
  }

  function Fails(e: Event): nat {
    if e.Ended? && e.failed then 1 else 0
  }

  function UpBytes(e: Event): nat {
    if e.Up? then e.bytes else 0
  }

  /** Every counter that only grows is the exact count of its events, whatever comes between them. */
  lemma {:induction false} CountersAreExact(events: seq<Event>)
    ensures RecordAll(events).total == Total(events, Accepts)
    ensures RecordAll(events).failed == Total(events, Fails)
    ensures RecordAll(events).bytesUp == Total(events, UpBytes)
  {
    if events != [] {
      CountersAreExact(events[..|events| - 1]);
    }
  }

  /** What a run of the forwarder records, oldest first. */
  function Recorded(actions: seq<Action>): seq<Event> {
    if actions == [] then []
    else (if actions[0].Happens? then [actions[0].e] else []) + Recorded(actions[1..])
  }

  lemma {:induction false} RunsRecord(f: Forwarder, before: seq<Event>, actions: seq<Action>, g: Forwarder)
    requires Runs(f, actions, g) && f.stats == RecordAll(before)
    ensures g.stats == RecordAll(before + Recorded(actions))
    decreases |actions|
  {
    if actions == [] {
      assert before + [] == before;
    } else {
      var a, rest := actions[0], Recorded(actions[1..]);
      if a.Happens? {
        assert (before + [a.e])[..|before|] == before;
        RunsRecord(Act(f, a), before + [a.e], actions[1..], g);
        assert before + ([a.e] + rest) == (before + [a.e]) + rest;
      } else {
        RunsRecord(Act(f, a), before, actions[1..], g);
        assert [] + rest == rest;
      }
    }
  }

  /** Over every life of a forwarder its statistics are those of the events of that life. */
  lemma StatsAreOfTheWholeLife(actions: seq<Action>, g: Forwarder)
    requires Runs(STARTED, actions, g)
    ensures g.stats == RecordAll(Recorded(actions))
    ensures g.stats.total == Total(Recorded(actions), Accepts)
    ensures g.stats.failed == Total(Recorded(actions), Fails)
    ensures g.stats.bytesUp == Total(Recorded(actions), UpBytes)
    ensures g.stats.bytesDown == DownBytes(Recorded(actions))
  {
    RunsRecord(STARTED, [], actions, g);
    assert [] + Recorded(actions) == Recorded(actions);
    CountersAreExact(Recorded(actions));
    DownBytesExact(Recorded(actions));
  }

  lemma {:induction false} DownBytesExact(events: seq<Event>)
    ensures RecordAll(events).bytesDown == DownBytes(events)
  {
    if events != [] {
      DownBytesExact(events[..|events| - 1]);
    }
  }
}
