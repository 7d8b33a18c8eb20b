/**
 What the end of a stream leaves behind. The pump looks at the inbox and at the open flag in two
 native calls, and the native tasks go on in between: frames that come late are never handed
 over. Exactly when that happens is decided by what the reader can still do.
 */
module JsEnding {
  import opened Framing
  import opened Sequences
  import opened StreamEngine
  import opened StreamInvariants
  import opened StreamSafety
  import opened StreamArrivals
  import opened StreamCalls
  import opened JsHandlers
  import opened JsPump

  // ---------------------------------------------------------------------------------------
  // Native runs
  // ---------------------------------------------------------------------------------------

  predicate NoBegins(ts: seq<Step>) {
    forall k | 0 <= k < |ts| :: !IsBegin(ts[k])
  }

  function Lifted(ts: seq<Step>): seq<JsStep> {
    if ts == [] then [] else [Native(ts[0])] + Lifted(ts[1..])
  }

  /** The native tasks run beside the wrapper: a run of theirs is a run of the whole. */
  lemma {:induction false} NativeRun(j: JsStream, ts: seq<Step>, t: State)
    requires Reaches(j.engine, ts, t) && NoBegins(ts)
    ensures JsReaches(j, Lifted(ts), j.(engine := t))
    decreases |ts|
  {
    if ts != [] {
      var m := j.(engine := Apply(j.engine, ts[0]));
      JsReachesOne(j, Native(ts[0]));
      NativeRun(m, ts[1..], t);
      JsReachesTrans(j, [Native(ts[0])], m, Lifted(ts[1..]), j.(engine := t));
    }
  }

  // ---------------------------------------------------------------------------------------
  // At the decision
  // ---------------------------------------------------------------------------------------

  /** The pump has found nothing, asks, and is about to be told that the native stream has ended. */
  predicate AtTheEnd(j: JsStream, k: nat) {
    k < |j.pumps| && j.pumps[k].Asking? && j.asks && !StreamIsOpen(j.engine)
  }

  /** Whatever happens from here on, the handlers get every frame the native side ever receives. */
  ghost predicate HandsOverAll(j: JsStream) {
    forall ts, e :: JsReaches(j, ts, e) ==> e.ears.frames == e.engine.inb.pushed
  }

  lemma SpentJsStep(j: JsStream, t: JsStep)
    requires Inv(j.engine) && JsEnabled(j, t) && !CanPush(j.engine.inb, j.engine.sig.watch.value)
    ensures var s' := JsApply(j, t).engine;
            && s'.inb.consumed <= |s'.inb.rcvd| && s'.inb.pushed == j.engine.inb.pushed
            && !CanPush(s'.inb, s'.sig.watch.value)
  {
    if t.Native? {
      SpentStays(j.engine, t.t);
    } else {
      OwnStepTouches(j, t);
    }
  }

  lemma {:induction false} SpentJsOnward(j: JsStream, ts: seq<JsStep>, e: JsStream)
    requires JsReachable(j) && j.engine.inb.consumed <= |j.engine.inb.rcvd|
    requires JsReaches(j, ts, e) && !CanPush(j.engine.inb, j.engine.sig.watch.value)
    ensures e.engine.inb.pushed == j.engine.inb.pushed
    decreases |ts|
  {
    if ts != [] {
      EngineHolds(j);
      InvReachable(j.engine);
      SpentJsStep(j, ts[0]);
      JsReachableStep(j, ts[0]);
      SpentJsOnward(JsApply(j, ts[0]), ts[1..], e);
    }
  }

  lemma AskEnds(j: JsStream, k: nat)
    requires PumpInv(j) && AtTheEnd(j, k)
    ensures JsEnabled(j, Turn(k, Ask))
    ensures var end := JsApply(j, Turn(k, Ask));
            && end.closed && end.ears == j.ears && end.engine.data == j.engine.data
            && end.engine.inb == j.engine.inb && end.engine.sig == j.engine.sig
    ensures k == |j.pumps| - 1
  {
  }

  /** With no native call under way, the accounts say where every frame is. */
  lemma RestAccounts(s: State, pc: Pump, frames: seq<Frame>)
    requires Reachable(s) && CallInv(s, pc, frames) && !pc.Polling?
    ensures AllReturned(s.data.polls)
    ensures s.inb.pushed == frames + s.inb.inbox.frames
    ensures s.inb.consumed <= |s.inb.rcvd|
  {
    InvReachable(s);
  }

  lemma EndAccounts(j: JsStream, k: nat)
    requires JsReachable(j) && AtTheEnd(j, k)
    ensures AllReturned(j.engine.data.polls)
    ensures j.engine.inb.pushed == j.ears.frames + j.engine.inb.inbox.frames
    ensures j.engine.inb.consumed <= |j.engine.inb.rcvd|
  {
    PumpHolds(j);
    CallHolds(j);
    EngineHolds(j);
    assert k == |j.pumps| - 1;
    RestAccounts(j.engine, Current(j.pumps), j.ears.frames);
  }

  lemma EndIsReached(j: JsStream, k: nat)
    requires JsReachable(j) && AtTheEnd(j, k)
    ensures JsReachable(JsApply(j, Turn(k, Ask)))
  {
    JsReachesOne(j, Turn(k, Ask));
    JsReachableOnward(j, [Turn(k, Ask)], JsApply(j, Turn(k, Ask)));
  }

  lemma SpentEndHandsOverAll(end: JsStream)
    requires JsReachable(end) && end.closed && end.ears.frames == end.engine.inb.pushed
    requires end.engine.inb.consumed <= |end.engine.inb.rcvd|
    requires !CanPush(end.engine.inb, end.engine.sig.watch.value)
    ensures HandsOverAll(end)
  {
    forall ts, e | JsReaches(end, ts, e) ensures e.ears.frames == e.engine.inb.pushed {
      ClosedTakesNothingOnward(end, ts, e);
      SpentJsOnward(end, ts, e);
    }
  }

  /** With no native call under way, a reader that can push has a run of the native side that does. */
  lemma NativePush(s: State) returns (ts: seq<Step>, t: State)
    requires Reachable(s) && AllReturned(s.data.polls) && s.inb.inbox.frames == []
    requires s.inb.consumed <= |s.inb.rcvd| && CanPush(s.inb, s.sig.watch.value)
    ensures Reaches(s, ts, t) && NoBegins(ts) && |t.inb.pushed| == |s.inb.pushed| + 1
  {
    InvReachable(s);
    ts, t := PushIsReached(s);
  }

  lemma LateFrameIsLost(end: JsStream)
    requires JsReachable(end) && end.closed && AllReturned(end.engine.data.polls)
    requires end.engine.inb.consumed <= |end.engine.inb.rcvd| && end.engine.inb.inbox.frames == []
    requires end.ears.frames == end.engine.inb.pushed && CanPush(end.engine.inb, end.engine.sig.watch.value)
    ensures !HandsOverAll(end)
  {
    EngineHolds(end);
    var ts, t := NativePush(end.engine);
    NativeRun(end, ts, t);
    assert |end.(engine := t).ears.frames| < |t.inb.pushed|;
  }

  /**
   At the moment the pump decides that the stream is over, everything the native side has
   received or will receive is handed over exactly when the inbox is empty and the reader can
   push nothing more: with the close signal up, when it is not past its last look at it; before
   that, when it has left its loop or has no frame ahead of it.
   */
  lemma EndLosesNothingExactlyWhen(j: JsStream, k: nat)
    requires JsReachable(j) && AtTheEnd(j, k)
    ensures j.engine.inb.consumed <= |j.engine.inb.rcvd|
    ensures HandsOverAll(JsApply(j, Turn(k, Ask)))
       <==> j.engine.inb.inbox.frames == [] && !CanPush(j.engine.inb, j.engine.sig.watch.value)
  {
    var end := JsApply(j, Turn(k, Ask));
    EndAccounts(j, k);
    EndIsReached(j, k);
    PumpHolds(j);
    AskEnds(j, k);
    if j.engine.inb.inbox.frames != [] {
      assert JsReaches(end, [], end);
      assert |end.ears.frames| < |end.engine.inb.pushed|;
    } else if CanPush(j.engine.inb, j.engine.sig.watch.value) {
      LateFrameIsLost(end);
    } else {
      SpentEndHandsOverAll(end);
    }
  }

  // ---------------------------------------------------------------------------------------
  // A pump left to itself
  // ---------------------------------------------------------------------------------------

  /** Steps in which nobody but the pump acts: its own moves, its native calls, and the close handlers. */
  predicate Alone(t: JsStep) {
    match t
    case Turn(_, m) => !m.CallFails?
    case Native(u) => u.Poll? && !u.p.PollBegin? && !u.p.PollTimeout?
    case FireNext => true
    case FireLate => true
    case _ => false
  }

  predicate AllAlone(ts: seq<JsStep>) {
    forall i | 0 <= i < |ts| :: Alone(ts[i])
  }

  /** Activation `k` is the live one, it is at the loop condition, and nobody else polls. */
  predicate AtTop(j: JsStream, k: nat) {
    k == |j.pumps| - 1 && j.pumps[k] == Top && AllReturned(j.engine.data.polls)
  }

  /** The native call has come back; the pump has not looked at what it brought. */
  function Called(j: JsStream, k: nat): JsStream
    requires k < |j.pumps|
  {
    j.(engine := AfterPoll(j.engine), pumps := j.pumps[k := Polling(|j.engine.data.polls|)])
  }

  /** The two native actions that complete a `next_message` with no time to wait. */
  function CallActions(s: State): (PollAction, PollAction) {
    var i := |s.data.polls|;
    (PollPop(i), if s.inb.inbox.frames == [] then PollCheck(i) else PollSignal(i))
  }

  lemma CallActionsComplete(s: State)
    requires AllReturned(s.data.polls) && s.handle == Registered
    ensures var (pop, last) := CallActions(s);
            && Enabled(NativePoll(s), Poll(pop))
            && Enabled(Apply(NativePoll(s), Poll(pop)), Poll(last))
            && Apply(Apply(NativePoll(s), Poll(pop)), Poll(last)) == AfterPoll(s)
  {
    var (pop, last) := CallActions(s);
    var s1 := NativePoll(s);
    assert s1.data.polls == s.data.polls + [PTrying(false)];
    var s2 := Apply(s1, Poll(pop));
    var pc := if s.inb.inbox.frames == [] then PChecking(false) else PSignalling(s.inb.inbox.frames[0]);
    assert s2.data.polls == s.data.polls + [pc];
    assert Apply(s2, Poll(last)).data.polls == s.data.polls + [PReturned(PollOutcomeOf(s))];
  }

  lemma TwoNativeSteps(j: JsStream, a: Step, b: Step)
    requires Enabled(j.engine, a) && Enabled(Apply(j.engine, a), b) && !IsBegin(a) && !IsBegin(b)
    ensures JsReaches(j, [Native(a)] + [Native(b)], j.(engine := Apply(Apply(j.engine, a), b)))
  {
    var j1 := JsApply(j, Native(a));
    JsReachesOne(j, Native(a));
    JsReachesOne(j1, Native(b));
    JsReachesTrans(j, [Native(a)], j1, [Native(b)], JsApply(j1, Native(b)));
  }

  lemma NativeCallCompletes(j: JsStream, k: nat) returns (ts: seq<JsStep>)
    requires AtTop(j, k) && !j.closed && j.ears.messages != [] && j.engine.handle == Registered
    ensures JsReaches(j, ts, Called(j, k)) && AllAlone(ts)
  {
    var (pop, last) := CallActions(j.engine);
    CallActionsComplete(j.engine);
    var j1 := JsApply(j, Turn(k, Take));
    JsReachesOne(j, Turn(k, Take));
    TwoNativeSteps(j1, Poll(pop), Poll(last));
    ts := [Turn(k, Take)] + ([Native(Poll(pop))] + [Native(Poll(last))]);
    JsReachesTrans(j, [Turn(k, Take)], j1, [Native(Poll(pop))] + [Native(Poll(last))], Called(j, k));
  }

  // ---------------------------------------------------------------------------------------
  // One pass
  // ---------------------------------------------------------------------------------------

  /** With no handler left to visit, the pass ends and the pump is back at its loop. */
  lemma PassEnds(j: JsStream, k: nat)
    requires k < |j.pumps| && j.pumps[k].Delivering?
    requires NextFrom(j.ears.messages, j.pumps[k].cursor + 1) == |j.ears.messages|
    ensures JsReaches(j, [Turn(k, EndPass)] + [Turn(k, Wake)], j.(pumps := j.pumps[k := Top]))
  {
    var j1 := JsApply(j, Turn(k, EndPass));
    JsReachesOne(j, Turn(k, EndPass));
    JsReachesOne(j1, Turn(k, Wake));
    assert JsApply(j1, Turn(k, Wake)).pumps == j.pumps[k := Top];
    JsReachesTrans(j, [Turn(k, EndPass)], j1, [Turn(k, Wake)], JsApply(j1, Turn(k, Wake)));
  }

  /** How many handlers a pass still has to visit. */
  function Unvisited(j: JsStream, k: nat): nat
    requires k < |j.pumps| && j.pumps[k].Delivering?
  {
    |j.ears.messages| - NextFrom(j.ears.messages, j.pumps[k].cursor + 1)
  }

  lemma PassVisits(j: JsStream, k: nat) returns (m: JsStream)
    requires k < |j.pumps| && j.pumps[k].Delivering? && j.ears.frames != [] && Unvisited(j, k) > 0
    ensures JsReaches(j, [Turn(k, NextHandler)], m)
    ensures |m.pumps| == |j.pumps| && m.pumps[k].Delivering? && Unvisited(m, k) < Unvisited(j, k)
    ensures m == j.(pumps := j.pumps[k := m.pumps[k]], ears := j.ears.(log := m.ears.log))
  {
    m := JsApply(j, Turn(k, NextHandler));
    JsReachesOne(j, Turn(k, NextHandler));
    NextIsLater(j.ears.messages, j.pumps[k].cursor + 1);
  }

  /** The rest of a pass visits the handlers that are left. */
  lemma {:induction false} PassCompletes(j: JsStream, k: nat) returns (ts: seq<JsStep>, log: seq<Delivery>)
    requires k < |j.pumps| && j.pumps[k].Delivering? && j.ears.frames != []
    ensures JsReaches(j, ts, j.(pumps := j.pumps[k := Top], ears := j.ears.(log := log))) && AllAlone(ts)
    decreases Unvisited(j, k)
  {
    if Unvisited(j, k) == 0 {
      PassEnds(j, k);
      ts, log := [Turn(k, EndPass)] + [Turn(k, Wake)], j.ears.log;
    } else {
      var m := PassVisits(j, k);
      ts, log := PassCompletes(m, k);
      assert m.pumps[k := Top] == j.pumps[k := Top];
      JsReachesTrans(j, [Turn(k, NextHandler)], m, ts, j.(pumps := j.pumps[k := Top], ears := j.ears.(log := log)));
      ts := [Turn(k, NextHandler)] + ts;
    }
  }

  lemma NextIsLater(entries: seq<Entry>, from: nat)
    requires NextFrom(entries, from) < |entries|
    ensures NextFrom(entries, entries[NextFrom(entries, from)].id + 1) > NextFrom(entries, from)
  {
    var i := NextFrom(entries, from);
    assert entries[i].id >= from;
  }

  /** One frame: the pump takes it, hands it to every handler, and is back at its loop. */
  lemma OneFrame(j: JsStream, k: nat) returns (ts: seq<JsStep>, log: seq<Delivery>)
    requires AtTop(j, k) && !j.closed && j.ears.messages != [] && j.engine.handle == Registered
    requires j.engine.inb.inbox.frames != []
    ensures JsReaches(j, ts, AfterFrame(j, k, log)) && AllAlone(ts)
  {
    ts := NativeCallCompletes(j, k);
    var m := Called(j, k);
    var m1 := JsApply(m, Turn(k, Returned));
    JsReachesOne(m, Turn(k, Returned));
    var us: seq<JsStep>;
    us, log := PassCompletes(m1, k);
    assert m1.pumps[k := Top] == j.pumps;
    JsReachesTrans(j, ts, m, [Turn(k, Returned)], m1);
    JsReachesTrans(j, ts + [Turn(k, Returned)], m1, us, AfterFrame(j, k, log));
    ts := ts + [Turn(k, Returned)] + us;
  }

  /** The state after one whole pass for the oldest frame in the inbox. */
  function AfterFrame(j: JsStream, k: nat, log: seq<Delivery>): JsStream
    requires j.engine.inb.inbox.frames != []
  {
    j.(engine := AfterPoll(j.engine), ears := j.ears.(frames := j.ears.frames + [j.engine.inb.inbox.frames[0]], log := log))
  }

  /** The call has brought nothing, and the pump is about to ask whether the stream is open. */
  function BackEmpty(j: JsStream, k: nat): JsStream
    requires k < |j.pumps|
  {
    j.(engine := AfterPoll(j.engine), pumps := j.pumps[k := Asking])
  }

  lemma EmptyCallComesBack(j: JsStream, k: nat) returns (ts: seq<JsStep>)
    requires AtTop(j, k) && !j.closed && j.ears.messages != [] && j.engine.handle == Registered
    requires j.engine.inb.inbox.frames == []
    ensures JsReaches(j, ts, BackEmpty(j, k)) && AllAlone(ts)
  {
    ts := NativeCallCompletes(j, k);
    var m := Called(j, k);
    JsReachesOne(m, Turn(k, Returned));
    assert m.pumps[k := Asking] == j.pumps[k := Asking];
    JsReachesTrans(j, ts, m, [Turn(k, Returned)], BackEmpty(j, k));
    ts := ts + [Turn(k, Returned)];
  }

  /** An empty inbox and a native stream that has ended: the pump closes the wrapper. */
  lemma EndIsNoticed(j: JsStream, k: nat) returns (ts: seq<JsStep>, end: JsStream)
    requires AtTop(j, k) && !j.closed && j.ears.messages != [] && j.engine.inb.inbox.frames == []
    requires j.engine.handle == Registered && j.engine.sig.closed && j.asks
    ensures JsReaches(j, ts, end) && AllAlone(ts) && end.closed
    ensures end.ears.frames == j.ears.frames && end.engine.inb.inbox.frames == []
  {
    ts := EmptyCallComesBack(j, k);
    var m := BackEmpty(j, k);
    end := JsApply(m, Turn(k, Ask));
    JsReachesOne(m, Turn(k, Ask));
    JsReachesTrans(j, ts, m, [Turn(k, Ask)], end);
    ts := ts + [Turn(k, Ask)];
  }

  lemma FrameLeavesPumpAtTop(j: JsStream, k: nat, log: seq<Delivery>)
    requires AtTop(j, k) && j.engine.handle == Registered && j.engine.inb.inbox.frames != []
    ensures var m := AfterFrame(j, k, log);
            && AtTop(m, k) && m.engine.handle == Registered && m.engine.sig == j.engine.sig
            && m.engine.inb.inbox.frames == j.engine.inb.inbox.frames[1..]
            && m.ears.frames + m.engine.inb.inbox.frames == j.ears.frames + j.engine.inb.inbox.frames
  {
    var frames := j.engine.inb.inbox.frames;
    assert (j.ears.frames + [frames[0]]) + frames[1..] == j.ears.frames + frames;
  }

  /**
   A pump with a message handler, on a native stream that has ended, has a run of its own that
   takes every frame in the inbox, in order, and then closes the wrapper.
   */
  lemma {:induction false} PumpDrainsThenCloses(j: JsStream, k: nat) returns (ts: seq<JsStep>, end: JsStream)
    requires AtTop(j, k) && !j.closed && j.ears.messages != []
    requires j.engine.handle == Registered && j.engine.sig.closed && j.asks
    ensures JsReaches(j, ts, end) && AllAlone(ts)
    ensures end.closed && end.ears.frames == j.ears.frames + j.engine.inb.inbox.frames
    ensures end.engine.inb.inbox.frames == []
    decreases |j.engine.inb.inbox.frames|
  {
    if j.engine.inb.inbox.frames == [] {
      ts, end := EndIsNoticed(j, k);
    } else {
      var log: seq<Delivery>;
      ts, log := OneFrame(j, k);
      var m := AfterFrame(j, k, log);
      var us: seq<JsStep>;
      FrameLeavesPumpAtTop(j, k, log);
      us, end := PumpDrainsThenCloses(m, k);
      JsReachesTrans(j, ts, m, us, end);
      ts := ts + us;
    }
  }

  // ---------------------------------------------------------------------------------------
  // A pump without listeners
  // ---------------------------------------------------------------------------------------

  predicate NobodyListens(ts: seq<JsStep>) {
    forall i | 0 <= i < |ts| :: !ts[i].OnMessage?
  }

  lemma UnheardStep(j: JsStream, t: JsStep)
    requires PumpInv(j) && j.ears.messages == [] && JsEnabled(j, t) && !t.OnMessage?
    ensures JsApply(j, t).ears == j.ears
  {
    match t {
      case Turn(k, m) => MovedParts(j, k, m);
      case OffMessage(h) => DropShrinks(j.ears.messages, h);
      case _ =>
    }
  }

  /**
   As long as no message handler is registered, whatever else is and whatever anybody does, no
   frame is taken from the native side and nobody is called with one.
   */
  lemma {:induction false} NothingIsTakenUnheard(j: JsStream, ts: seq<JsStep>, e: JsStream)
    requires JsReachable(j) && j.ears.messages == [] && JsReaches(j, ts, e) && NobodyListens(ts)
    ensures e.ears == j.ears
    decreases |ts|
  {
    if ts != [] {
      PumpHolds(j);
      UnheardStep(j, ts[0]);
      JsReachableStep(j, ts[0]);
      NothingIsTakenUnheard(JsApply(j, ts[0]), ts[1..], e);
    }
  }

  /** Kept going by close handlers alone, the pump notices the end without looking at the inbox. */
  lemma UnheardEndIsNoticed(j: JsStream, k: nat) returns (ts: seq<JsStep>, end: JsStream)
    requires AtTop(j, k) && !j.closed && j.ears.messages == [] && j.bye.closes != []
    requires !StreamIsOpen(j.engine) && j.asks
    ensures JsReaches(j, ts, end) && AllAlone(ts)
    ensures end.closed && end.ears == j.ears && end.engine.inb == j.engine.inb && end.bye.closes == j.bye.closes
  {
    var m := JsApply(j, Turn(k, Skip));
    JsReachesOne(j, Turn(k, Skip));
    end := JsApply(m, Turn(k, Ask));
    JsReachesOne(m, Turn(k, Ask));
    ts := [Turn(k, Skip)] + [Turn(k, Ask)];
    JsReachesTrans(j, [Turn(k, Skip)], m, [Turn(k, Ask)], end);
  }

  /** What a call of the pump's own has found by the time it is at `pc`. */
  predicate CallKnows(pc: PollPc, empty: bool) {
    match pc
    case PTrying(wait) => !wait
    case PSignalling(_) => true
    case PChecking(wait) => !wait && empty
    case PReturned(o) => o != Missing && (o == Nothing ==> empty)
    case _ => false
  }

  /** While nobody interferes the pump gives up on nothing but an empty inbox. */
  predicate Draining(j: JsStream) {
    var pc, empty := Current(j.pumps), j.engine.inb.inbox.frames == [];
    && j.ears.messages != []
    && (j.closed ==> empty)
    && (!j.closed ==>
          && j.engine.handle == Registered
          && !pc.Failing? && !pc.Leaving?
          && (pc.Asking? ==> empty)
          && (pc.Polling? ==> pc.call < |j.engine.data.polls| && CallKnows(j.engine.data.polls[pc.call], empty)))
  }

  lemma DrainingPoll(s: State, p: PollAction, i: nat)
    requires Enabled(s, Poll(p)) && !p.PollBegin? && !p.PollTimeout?
    requires i < |s.data.polls| && ReturnedBut(s.data.polls, i) && CallKnows(s.data.polls[i], s.inb.inbox.frames == [])
    ensures var s' := Apply(s, Poll(p));
            i < |s'.data.polls| && CallKnows(s'.data.polls[i], s'.inb.inbox.frames == [])
  {
    assert p.i == i;
  }

  lemma DrainingNative(j: JsStream, p: PollAction)
    requires PumpInv(j) && CallInv(j.engine, Current(j.pumps), j.ears.frames) && Draining(j)
    requires Enabled(j.engine, Poll(p)) && !p.PollBegin? && !p.PollTimeout?
    ensures Draining(j.(engine := Apply(j.engine, Poll(p))))
    ensures Apply(j.engine, Poll(p)).inb.pushed == j.engine.inb.pushed
  {
    if Current(j.pumps).Polling? { DrainingPoll(j.engine, p, Current(j.pumps).call); }
  }

  lemma DrainingMove(j: JsStream, k: nat, m: Move)
    requires PumpInv(j) && Draining(j) && JsEnabled(j, Turn(k, m)) && !m.CallFails?
    ensures Draining(JsApply(j, Turn(k, m)))
  {
    MovedParts(j, k, m);
    if m.Take? { assert NativePoll(j.engine).data.polls == j.engine.data.polls + [PTrying(false)]; }
  }

  lemma DrainingStep(j: JsStream, t: JsStep)
    requires JsReachable(j) && Draining(j) && JsEnabled(j, t) && Alone(t)
    ensures Draining(JsApply(j, t)) && JsApply(j, t).engine.inb.pushed == j.engine.inb.pushed
  {
    match t {
      case Turn(k, m) =>
        PumpHolds(j);
        DrainingMove(j, k, m);
        OwnStepTouches(j, t);
      case Native(Poll(p)) =>
        PumpHolds(j);
        CallHolds(j);
        DrainingNative(j, p);
      case _ =>
    }
  }

  lemma {:induction false} DrainingOnward(j: JsStream, ts: seq<JsStep>, e: JsStream)
    requires JsReachable(j) && Draining(j) && JsReaches(j, ts, e) && AllAlone(ts)
    ensures JsReachable(e) && Draining(e) && e.engine.inb.pushed == j.engine.inb.pushed
    decreases |ts|
  {
    if ts != [] {
      DrainingStep(j, ts[0]);
      JsReachableStep(j, ts[0]);
      DrainingOnward(JsApply(j, ts[0]), ts[1..], e);
    }
  }

  /**
   However a pump with a message handler goes on from its loop condition, as long as nobody else
   acts: by the time it has closed the wrapper it has taken everything there was in the inbox.
   */
  lemma UndisturbedPumpTakesAll(j: JsStream, k: nat, ts: seq<JsStep>, e: JsStream)
    requires JsReachable(j) && AtTop(j, k) && !j.closed && j.ears.messages != [] && j.engine.handle == Registered
    requires JsReaches(j, ts, e) && AllAlone(ts) && e.closed
    ensures e.ears.frames == j.ears.frames + j.engine.inb.inbox.frames
    ensures e.engine.inb.inbox.frames == []
  {
    TopDrains(j, k);
    DrainedAtTheEnd(j, ts, e);
    TopAccounts(j, k);
  }

  lemma TopAccounts(j: JsStream, k: nat)
    requires JsReachable(j) && AtTop(j, k)
    ensures j.engine.inb.pushed == j.ears.frames + j.engine.inb.inbox.frames
  {
    LiveAccounts(j, Top);
  }

  lemma DrainedAtTheEnd(j: JsStream, ts: seq<JsStep>, e: JsStream)
    requires JsReachable(j) && Draining(j) && JsReaches(j, ts, e) && AllAlone(ts) && e.closed
    ensures e.engine.inb.inbox.frames == [] && e.ears.frames == j.engine.inb.pushed
  {
    DrainingOnward(j, ts, e);
    ClosedAccounts(e);
  }

  lemma TopDrains(j: JsStream, k: nat)
    requires AtTop(j, k) && !j.closed && j.ears.messages != [] && j.engine.handle == Registered
    ensures Draining(j)
  {
  }

  lemma ClosedAccounts(e: JsStream)
    requires JsReachable(e) && e.closed && Draining(e)
    ensures e.engine.inb.inbox.frames == [] && e.engine.inb.pushed == e.ears.frames
  {
    LiveAccounts(e, Current(e.pumps));
    NoTail(e.ears.frames);
  }

  lemma LiveAccounts(j: JsStream, pc: Pump)
    requires JsReachable(j) && pc == Current(j.pumps) && (j.closed || !pc.Polling?)
    ensures j.engine.inb.pushed == j.ears.frames + j.engine.inb.inbox.frames
  {
    PumpHolds(j);
    CallHolds(j);
    EngineHolds(j);
    RestAccounts(j.engine, pc, j.ears.frames);
  }

  // ---------------------------------------------------------------------------------------
  // A frame that is lost
  // ---------------------------------------------------------------------------------------

  /** The peer's last frame arrives, the stream ends cleanly, and the reader stores the closed flag. */
  lemma LastFrameThenEnd(s: State, f: Frame) returns (ts: seq<Step>, t: State)
    requires s.inb == INITIAL_INBOUND && s.sig == Signal(false, Watch(false, 0)) && AllReturned(s.data.polls)
    ensures Reaches(s, ts, t) && NoBegins(ts)
    ensures t == s.(inb := t.inb, sig := t.sig, data := s.data.(permit := true)) && t.sig.closed
    ensures t.inb.inbox.frames == [f] && t.inb.pushed == [f] && t.inb.popped == []
  {
    ReachesOne(s, Deliver(Encode(f)));
    var s1 := s.(inb := s.inb.(rcvd := Encode(f)));
    assert INITIAL_INBOUND.rcvd + Encode(f) == Encode(f);
    assert s1.inb.rcvd[0..] == Encode(f);
    var us := DeliveredFrameArrives(s1, f);
    var s2 := WithArrived(s1, f);
    ReachesTrans(s, [Deliver(Encode(f))], s1, us, s2);
    var vs: seq<Step>;
    vs, t := ReaderEnds(s2);
    ReachesTrans(s, [Deliver(Encode(f))] + us, s2, vs, t);
    ts := [Deliver(Encode(f))] + us + vs;
  }

  lemma ReaderEnds(s: State) returns (ts: seq<Step>, t: State)
    requires s.inb.pc == RSelect([]) && s.inb.consumed == |s.inb.rcvd| && s.inb.input == Flowing
    ensures Reaches(s, ts, t) && NoBegins(ts)
    ensures t == s.(inb := t.inb, sig := s.sig.(closed := true))
    ensures t.inb.inbox == s.inb.inbox && t.inb.pushed == s.inb.pushed && t.inb.popped == s.inb.popped
  {
    var s1 := s.(inb := s.inb.(input := AtEof, pc := REnding(false), drained := true));
    TwoSteps(s, EndInput(true), Read(ReaderEof, 0));
    TwoSteps(s1, Read(ReaderEnd, 0), Shutdown(Reader, 0));
    t := Apply(Apply(s1, Read(ReaderEnd, 0)), Shutdown(Reader, 0));
    ReachesTrans(s, [EndInput(true), Read(ReaderEof, 0)], s1, [Read(ReaderEnd, 0), Shutdown(Reader, 0)], t);
    ts := [EndInput(true), Read(ReaderEof, 0)] + [Read(ReaderEnd, 0), Shutdown(Reader, 0)];
  }

  /** A stream just entered in the map and wrapped, with no handler yet. */
  lemma NewStream() returns (j: JsStream)
    ensures JsReachable(j) && j.pumps == [] && j.asks && !j.closed && !j.pumping
    ensures j.ears == NO_EARS && j.bye == NO_FAREWELL
    ensures j.engine.inb == INITIAL_INBOUND && j.engine.sig == Signal(false, Watch(false, 0))
    ensures j.engine.handle == Registered && j.engine.data == Data(false, [])
  {
    var s0 := State(true, INITIAL_OUTBOUND, INITIAL_INBOUND, Signal(false, Watch(false, 0)), Data(false, []), [], Opening);
    var j0 := JsStream(s0, true, false, false, [], NO_EARS, NO_FAREWELL);
    assert JsInit(j0) && JsReaches(j0, [], j0);
    JsReachableStep(j0, Native(Register));
    j := JsApply(j0, Native(Register));
  }

  /** A new stream with one message handler whose pump is at its loop condition. */
  lemma OneListener(handler: nat) returns (j: JsStream)
    ensures JsReachable(j) && AtTop(j, 0) && |j.pumps| == 1 && j.asks && !j.closed
    ensures j.ears == NO_EARS.(messages := [Entry(0, handler, 0)], next := 1)
    ensures j.engine.inb == INITIAL_INBOUND && j.engine.sig == Signal(false, Watch(false, 0))
    ensures j.engine.handle == Registered && j.engine.data == Data(false, [])
  {
    var j0 := NewStream();
    JsReachableStep(j0, OnMessage(handler));
    j := JsApply(j0, OnMessage(handler));
  }

  /** The same with one close handler, as a logical session registers on every stream it hands out. */
  lemma OneCloseHandler(handler: nat) returns (j: JsStream)
    ensures JsReachable(j) && AtTop(j, 0) && j.asks && !j.closed && j.ears == NO_EARS
    ensures j.bye.closes == [Entry(0, handler, 0)]
    ensures j.engine.inb == INITIAL_INBOUND && j.engine.sig == Signal(false, Watch(false, 0))
    ensures AllReturned(j.engine.data.polls)
  {
    var j0 := NewStream();
    JsReachableStep(j0, OnClose(handler));
    j := JsApply(j0, OnClose(handler));
  }

  /** Its pump polls, finds nothing, and is about to ask whether the stream is open. */
  lemma EmptyPoll(handler: nat) returns (j: JsStream)
    ensures JsReachable(j) && j.pumps == [Asking] && j.asks && !j.closed
    ensures j.ears == NO_EARS.(messages := [Entry(0, handler, 0)], next := 1)
    ensures j.engine.inb == INITIAL_INBOUND && j.engine.sig == Signal(false, Watch(false, 0))
    ensures AllReturned(j.engine.data.polls)
  {
    var j0 := OneListener(handler);
    var ts := EmptyCallComesBack(j0, 0);
    j := BackEmpty(j0, 0);
    assert j.engine.data.polls == [PReturned(Nothing)];
    JsReachableOnward(j0, ts, j);
  }

  /**
   A loss that is reached: a handler is registered throughout and the peer ends its stream
   cleanly after one last frame, but the frame and the end come after the pump has looked at the
   inbox and before it asks. The wrapper closes, the frame is in the inbox for good, and no
   handler was ever called.
   */
  lemma LastFrameCanBeLost(handler: nat, f: Frame) returns (j: JsStream, end: JsStream)
    ensures JsReachable(j) && AtTheEnd(j, 0) && end == JsApply(j, Turn(0, Ask))
    ensures JsReachable(end) && end.closed && !HandsOverAll(end)
    ensures end.ears.messages == [Entry(0, handler, 0)] && end.ears.frames == [] && end.ears.log == []
    ensures end.engine.inb.pushed == end.engine.inb.inbox.frames == [f]
  {
    var m := EmptyPoll(handler);
    var ts, t := LastFrameThenEnd(m.engine, f);
    NativeRun(m, ts, t);
    j := m.(engine := t);
    JsReachableOnward(m, Lifted(ts), j);
    EndIsReached(j, 0);
    PumpHolds(j);
    AskEnds(j, 0);
    end := JsApply(j, Turn(0, Ask));
    assert JsReaches(end, [], end);
  }

  /**
   Without a message handler the loss needs no race: a frame and the end have arrived, the pump
   that a close handler keeps going notices the end, and the frame is in the inbox for good.
   */
  lemma UnheardFrameIsLost(handler: nat, f: Frame) returns (end: JsStream)
    ensures JsReachable(end) && end.closed && !HandsOverAll(end)
    ensures end.ears == NO_EARS && end.bye.closes == [Entry(0, handler, 0)]
    ensures end.engine.inb.pushed == end.engine.inb.inbox.frames == [f]
  {
    var m := OneCloseHandler(handler);
    var ts, t := LastFrameThenEnd(m.engine, f);
    NativeRun(m, ts, t);
    var j := m.(engine := t);
    JsReachableOnward(m, Lifted(ts), j);
    var us: seq<JsStep>;
    us, end := UnheardEndIsNoticed(j, 0);
    JsReachableOnward(j, us, end);
    assert JsReaches(end, [], end);
  }
}
