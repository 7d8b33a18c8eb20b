/**
 What becomes of a `stream.send` call: when its promise settles, and why. A full native queue makes
 the call wait and try again; as long as the stream stays open and its writer is at work, trying
 again succeeds.
 */
module JsRetry {
  import opened Framing
  import opened Sequences
  import opened StreamEngine
  import opened StreamSafety
  import opened StreamCalls
  import opened StreamDrain
  import opened JsSend

  // ---------------------------------------------------------------------------------------
  // Runs
  // ---------------------------------------------------------------------------------------

  lemma {:induction false} JsReachesTrans(j: JsState, ts: seq<JsStep>, m: JsState, us: seq<JsStep>, k: JsState)
    requires JsReaches(j, ts, m) && JsReaches(m, us, k)
    ensures JsReaches(j, ts + us, k)
    decreases |ts|
  {
    if ts == [] {
      assert ts + us == us;
    } else {
      JsReachesTrans(JsApply(j, ts[0]), ts[1..], m, us, k);
      assert (ts + us)[1..] == ts[1..] + us;
    }
  }

  lemma JsReachesOne(j: JsState, t: JsStep)
    requires JsEnabled(j, t)
    ensures JsReaches(j, [t], JsApply(j, t))
  {
    assert [t][1..] == [];
    assert JsReaches(JsApply(j, t), [], JsApply(j, t));
  }

  lemma JsReachableOnward(j: JsState, ts: seq<JsStep>, k: JsState)
    requires JsReachable(j) && JsReaches(j, ts, k)
    ensures JsReachable(k)
  {
    var j0, us :| JsInit(j0) && JsReaches(j0, us, j);
    JsReachesTrans(j0, us, j, ts, k);
  }

  lemma {:induction false} EngineReaches(j: JsState, ts: seq<JsStep>, k: JsState)
    requires Reachable(j.engine) && JsReaches(j, ts, k)
    ensures Reachable(k.engine)
    decreases |ts|
  {
    if ts != [] {
      match ts[0] {
        case Native(t) => ReachableStep(j.engine, t);
        case Start => if !j.closed { ReachableStep(j.engine, Send(SendBegin(j.calls[|j.settled|]))); }
        case Retry => ReachableStep(j.engine, Send(SendBegin(j.calls[|j.settled|])));
        case _ =>
      }
      EngineReaches(JsApply(j, ts[0]), ts[1..], k);
    }
  }

  lemma EngineHolds(j: JsState)
    requires JsReachable(j)
    ensures Reachable(j.engine)
  {
    var j0, ts :| JsInit(j0) && JsReaches(j0, ts, j);
    assert Reaches(j0.engine, [], j0.engine);
    EngineReaches(j0, ts, j);
  }

  // ---------------------------------------------------------------------------------------
  // Why a promise settles
  // ---------------------------------------------------------------------------------------

  /** The native call has succeeded. */
  predicate Resolves(j: JsState, t: JsStep)
    requires JsEnabled(j, t)
  {
    t.Return? && j.engine.sends[j.attempt.i].outcome == SendOk
  }

  /** The wrapper is closed, 30 seconds have passed, or the native call failed for another reason than a full queue. */
  predicate Rejects(j: JsState, t: JsStep)
    requires JsEnabled(j, t)
  {
    || (t.Start? && j.closed)
    || (t.Return? && j.engine.sends[j.attempt.i].outcome in {SendNotConnected, SendInvalid})
    || (t.Return? && j.engine.sends[j.attempt.i].outcome == SendFull && (j.closed || t.giveUp))
  }

  lemma SettlesExactly(j: JsState, t: JsStep)
    requires JsEnabled(j, t)
    ensures JsApply(j, t).settled == j.settled + if Resolves(j, t) then [true] else if Rejects(j, t) then [false] else []
    ensures t.Return? && !Resolves(j, t) && !Rejects(j, t) ==> JsApply(j, t) == j.(attempt := BackingOff)
  {
    NoTail(j.settled);
  }

  lemma {:induction false} SettledGrows(j: JsState, ts: seq<JsStep>, k: JsState)
    requires JsReaches(j, ts, k)
    ensures j.settled <= k.settled
    decreases |ts|
  {
    if ts != [] {
      SettlesExactly(j, ts[0]);
      SettledGrows(JsApply(j, ts[0]), ts[1..], k);
    }
  }

  /**
   In every run each promise is settled by one step: it resolves when the native call has
   succeeded, and it is rejected only if the wrapper was closed, 30 seconds had passed, or the
   native call failed for another reason than a full queue.
   */
  lemma {:induction false} PromiseSettlesForCause(j: JsState, ts: seq<JsStep>, k: JsState, n: nat) returns (i: nat, m: JsState)
    requires JsReaches(j, ts, k) && |j.settled| <= n < |k.settled|
    ensures i < |ts| && JsReaches(j, ts[..i], m) && JsEnabled(m, ts[i]) && |m.settled| == n
    ensures if k.settled[n] then Resolves(m, ts[i]) else Rejects(m, ts[i])
    decreases |ts|
  {
    var j1 := JsApply(j, ts[0]);
    SettlesExactly(j, ts[0]);
    SettledGrows(j1, ts[1..], k);
    if |j1.settled| > n {
      i, m := 0, j;
    } else {
      i, m := PromiseSettlesForCause(j1, ts[1..], k, n);
      i := i + 1;
      assert ts[..i][1..] == ts[1..][..i - 1];
    }
  }

  // ---------------------------------------------------------------------------------------
  // After the end
  // ---------------------------------------------------------------------------------------

  function NativeCalls(j: JsState): nat {
    |j.engine.sends| + if j.attempt == BackingOff then 1 else 0
  }

  lemma ClosedWrapperStep(j: JsState, t: JsStep)
    requires ChainInv(j) && j.closed && JsEnabled(j, t)
    ensures var k := JsApply(j, t);
            && k.closed && ChainInv(k) && NativeCalls(k) <= NativeCalls(j)
            && (j.attempt == Idle ==> k.attempt == Idle)
            && (k.settled == j.settled || (k.attempt == Idle && k.settled == j.settled + [Resolves(j, t)]))
            && (j.attempt == Idle ==> !Resolves(j, t))
  {
    ChainStep(j, t);
    if t.Native? {
      if j.attempt.Calling? {
        NativeStepAccepts(j.engine, t.t, j.attempt.i, j.calls[|j.settled|]);
      } else {
        NativeStepAccepts(j.engine, t.t, |j.engine.sends|, []);
      }
    }
  }

  /**
   Once the wrapper is closed, no call whose turn has not come yet gets as far as the native
   side: it is rejected. Only the one under way may still be tried, once more if it was waiting.
   */
  lemma ClosedRejectsTheRest(j: JsState, ts: seq<JsStep>, k: JsState, n: nat)
    requires JsReachable(j) && j.closed && JsReaches(j, ts, k)
    requires |j.settled| + (if j.attempt == Idle then 0 else 1) <= n < |k.settled|
    ensures !k.settled[n]
    ensures |k.engine.sends| <= |j.engine.sends| + if j.attempt == BackingOff then 1 else 0
  {
    ChainHolds(j);
    ClosedOnward(j, ts, k, n);
  }

  lemma {:induction false} ClosedOnward(j: JsState, ts: seq<JsStep>, k: JsState, n: nat)
    requires ChainInv(j) && j.closed && JsReaches(j, ts, k)
    requires |j.settled| + (if j.attempt == Idle then 0 else 1) <= n
    ensures NativeCalls(k) <= NativeCalls(j)
    ensures n < |k.settled| ==> !k.settled[n]
    decreases |ts|
  {
    if ts != [] {
      var m := JsApply(j, ts[0]);
      ClosedWrapperStep(j, ts[0]);
      if n < |m.settled| {
        SettledGrows(m, ts[1..], k);
        ClosedOnward(m, ts[1..], k, n + 1);
      } else {
        ClosedOnward(m, ts[1..], k, n);
      }
    }
  }

  // ---------------------------------------------------------------------------------------
  // Trying again
  // ---------------------------------------------------------------------------------------

  function Natives(ts: seq<Step>): (us: seq<JsStep>)
    ensures |us| == |ts| && forall k | 0 <= k < |ts| :: us[k] == Native(ts[k])
  {
    seq(|ts|, k requires 0 <= k < |ts| => Native(ts[k]))
  }

  /** The native side alone: its writer, and the call under way. */
  predicate GoesOn(ts: seq<Step>) {
    forall k | 0 <= k < |ts| :: ts[k].Write? || (ts[k].Send? && !ts[k].c.SendBegin?)
  }

  lemma {:induction false} NativesLift(j: JsState, ts: seq<Step>, s: State)
    requires Reaches(j.engine, ts, s) && GoesOn(ts)
    ensures JsReaches(j, Natives(ts), j.(engine := s))
    decreases |ts|
  {
    if ts != [] {
      var m := JsApply(j, Native(ts[0]));
      assert GoesOn(ts[1..]);
      NativesLift(m, ts[1..], s);
      assert Natives(ts)[1..] == Natives(ts[1..]);
    }
  }

  /** No step of the run gives a call up, closes anything or comes from the caller. */
  predicate Patient(ts: seq<JsStep>) {
    forall k | 0 <= k < |ts| ::
      ts[k] in {Start, Retry, Return(false)} || (ts[k].Native? && GoesOn([ts[k].t]))
  }

  lemma NativesArePatient(ts: seq<Step>)
    requires GoesOn(ts)
    ensures Patient(Natives(ts))
  {
  }

  /** The stream is open on both sides, its writer is at work, and no native call is under way. */
  predicate Flows(j: JsState) {
    !j.closed && StreamIsOpen(j.engine) && WriterLooping(j.engine.out) && !j.attempt.Calling?
  }

  function NextPayload(j: JsState): seq<byte>
    requires |j.settled| < |j.calls|
  {
    j.calls[|j.settled|]
  }

  /** The step with which the call whose turn it is enters the native side. */
  function Entering(j: JsState): JsStep {
    if j.attempt == Idle then Start else Retry
  }

  lemma EntersNative(j: JsState)
    requires Flows(j) && |j.settled| < |j.calls|
    ensures JsEnabled(j, Entering(j)) && JsApply(j, Entering(j)) == Attempted(j)
  {
  }

  /** The writer makes room. */
  lemma RoomIsMade(j: JsState) returns (ts: seq<JsStep>, s: State)
    requires JsReachable(j) && Flows(j) && |j.settled| < |j.calls| && Legal(NextPayload(j))
    ensures var m := j.(engine := s);
            && JsReaches(j, ts, m) && Patient(ts) && Flows(m)
            && OutcomeOf(s, NextPayload(j)) == SendOk && s.out.accepted == j.engine.out.accepted
  {
    ChainHolds(j);
    EngineHolds(j);
    var vs, us;
    vs, us, s := BackpressureIsTemporary(j.engine, NextPayload(j));
    ts := Natives(vs);
    NativesLift(j, vs, s);
    NativesArePatient(vs);
  }

  /** With room for it, the call whose turn it is goes through. */
  lemma CallGoesThrough(j: JsState) returns (ts: seq<JsStep>)
    requires Flows(j) && |j.settled| < |j.calls|
    requires OutcomeOf(j.engine, NextPayload(j)) == SendOk
    ensures Patient(ts)
    ensures JsReaches(j, ts, Settle(j.(engine := AfterSend(j.engine, NextPayload(j))), true))
  {
    var payload, m := NextPayload(j), Attempted(j);
    var us := BegunSendIsARun(j.engine, payload);
    var n := m.(engine := AfterSend(j.engine, payload));
    EntersNative(j);
    JsReachesOne(j, Entering(j));
    NativesLift(m, us, n.engine);
    NativesArePatient(us);
    JsReachesTrans(j, [Entering(j)], m, Natives(us), n);
    assert n.engine.sends[n.attempt.i] == SReturned(SendOk);
    JsReachesOne(n, Return(false));
    JsReachesTrans(j, [Entering(j)] + Natives(us), n, [Return(false)], Settle(n, true));
    ts := [Entering(j)] + Natives(us) + [Return(false)];
  }

  lemma IllegalCallIsRefused(j: JsState) returns (ts: seq<JsStep>, k: JsState)
    requires Flows(j) && |j.settled| < |j.calls| && !Legal(NextPayload(j))
    ensures JsReaches(j, ts, k) && Patient(ts) && Flows(k)
    ensures k == Settle(j.(engine := k.engine), false) && k.engine.out == j.engine.out
  {
    var m := Attempted(j);
    EntersNative(j);
    assert m.engine.sends == j.engine.sends + [SReturned(SendInvalid)];
    k := Settle(m, false);
    JsReachesOne(j, Entering(j));
    JsReachesOne(m, Return(false));
    JsReachesTrans(j, [Entering(j)], m, [Return(false)], k);
    ts := [Entering(j)] + [Return(false)];
  }

  /**
   As long as the stream is open and its writer at work, the call whose turn it is, waiting for
   the first time or after a full queue, has a run in which nobody gives up: it resolves if its
   payload is legal, and is rejected if not.
   */
  lemma NextCallSettles(j: JsState) returns (ts: seq<JsStep>, k: JsState)
    requires JsReachable(j) && Flows(j) && |j.settled| < |j.calls|
    ensures JsReaches(j, ts, k) && Patient(ts) && Flows(k) && k.attempt == Idle && k.calls == j.calls
    ensures k.settled == j.settled + [Legal(NextPayload(j))]
    ensures k.engine.out.accepted == j.engine.out.accepted + if Legal(NextPayload(j)) then [NextPayload(j)] else []
  {
    if Legal(NextPayload(j)) {
      var s: State;
      ts, s := RoomIsMade(j);
      var m := j.(engine := s);
      var us := CallGoesThrough(m);
      k := Settle(m.(engine := AfterSend(s, NextPayload(j))), true);
      JsReachesTrans(j, ts, m, us, k);
      ts := ts + us;
    } else {
      ts, k := IllegalCallIsRefused(j);
    }
  }

  /** A call that finds the queue full does not fail: waiting and trying again resolves it. */
  lemma FullQueueIsRetried(j: JsState) returns (ts: seq<JsStep>, k: JsState)
    requires JsReachable(j) && JsEnabled(j, Return(false)) && j.engine.sends[j.attempt.i].outcome == SendFull
    requires !j.closed && StreamIsOpen(j.engine) && WriterLooping(j.engine.out)
    ensures |j.settled| < |j.calls|
    ensures JsReaches(j, ts, k) && Patient(ts)
    ensures k.settled == j.settled + [true] && k.calls == j.calls
    ensures k.engine.out.accepted == j.engine.out.accepted + [NextPayload(j)]
  {
    ChainHolds(j);
    var m := JsApply(j, Return(false));
    JsReachesOne(j, Return(false));
    JsReachableOnward(j, [Return(false)], m);
    ts, k := NextCallSettles(m);
    JsReachesTrans(j, [Return(false)], m, ts, k);
    ts := [Return(false)] + ts;
  }

  lemma AtMostAllSettled(j: JsState)
    requires JsReachable(j)
    ensures |j.settled| <= |j.calls|
  {
    ChainHolds(j);
  }

  /** Every call settled between the two states resolved exactly if its payload is legal. */
  predicate Judged(j: JsState, k: JsState)
    requires |k.settled| <= |k.calls|
  {
    && k.calls == j.calls && j.settled <= k.settled
    && forall n | |j.settled| <= n < |k.settled| :: k.settled[n] <==> Legal(k.calls[n])
  }

  lemma JudgedNext(j: JsState, m: JsState, k: JsState)
    requires |j.settled| < |j.calls| && |k.settled| <= |k.calls|
    requires m.calls == j.calls && m.settled == j.settled + [Legal(NextPayload(j))] && Judged(m, k)
    ensures Judged(j, k)
  {
    assert k.settled[|j.settled|] == m.settled[|j.settled|];
  }

  /** However many calls are waiting, a run settles them all: exactly those with a legal payload resolve. */
  lemma {:induction false} OutstandingCallsSettle(j: JsState) returns (ts: seq<JsStep>, k: JsState)
    requires JsReachable(j) && Flows(j)
    ensures JsReaches(j, ts, k) && Patient(ts)
    ensures |k.settled| == |k.calls| && Judged(j, k)
    decreases |j.calls| - |j.settled|
  {
    AtMostAllSettled(j);
    if |j.settled| == |j.calls| {
      ts, k := [], j;
    } else {
      var m: JsState, us: seq<JsStep>;
      ts, m := NextCallSettles(j);
      JsReachableOnward(j, ts, m);
      us, k := OutstandingCallsSettle(m);
      JudgedNext(j, m, k);
      JsReachesTrans(j, ts, m, us, k);
      ts := ts + us;
    }
  }
}
