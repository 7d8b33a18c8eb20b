/**
 The receiving side of a JavaScript stream: a restartable loop, the pump, takes frames from the
 native stream and hands them to the message handlers, and the close handlers are told once
 when the stream ends. Calls of the wrapper's API may come between any two turns of a pump and
 from inside any handler; the native tasks run beside it throughout.
 */
module JsPump {
  import opened Framing
  import opened Sequences
  import opened StreamEngine
  import opened StreamInvariants
  import opened StreamSafety
  import opened StreamPair
  import opened JsHandlers

  /** Where one activation of the pump is. */
  datatype Pump =
    | Top                      // at the loop condition
    | Polling(call: nat)       // inside the native `next_message`, call number `call`
    | Asking                   // nothing came: about to ask whether the stream is open
    | Delivering(cursor: nat)  // between two message handlers
    | Sleeping                 // waiting for its timer
    | Failing                  // a native call failed: the error handlers are running
    | Leaving                  // past the loop: about to run its `finally` block
    | Gone

  datatype Emission = Quiet | Firing(from: nat)

  /** The close handlers, and the calls made to them, each known by the number of its entry. */
  datatype Farewell = Farewell(
    closes: seq<Entry>, next: nat,
    late: seq<nat>,            // handlers added after the end: their calls are scheduled
    fired: seq<nat>, emission: Emission)

  datatype JsStream = JsStream(
    engine: State,
    asks: bool,                // the native runtime can tell whether a stream is open
    closed: bool, pumping: bool, pumps: seq<Pump>,
    ears: Ears, bye: Farewell)

  datatype Move = Take | Returned | Skip | Ask | CallFails | NextHandler | EndPass | Wake | Exit | Recover | Finally

  datatype JsStep =
    | Native(t: Step)
    | OnMessage(handler: nat) | OffMessage(handler: nat)
    | OnClose(handler: nat) | OffClose(handler: nat)
    | CloseCall
    | Turn(k: nat, move: Move) // activation `k` goes on
    | FireNext | FireLate

  const NO_EARS: Ears := Ears([], 0, [], [])
  const NO_FAREWELL: Farewell := Farewell([], 0, [], [], Quiet)

  predicate JsInit(j: JsStream) {
    Init(j.engine) && j.engine.solo && !j.closed && !j.pumping && j.pumps == [] && j.ears == NO_EARS && j.bye == NO_FAREWELL
  }

  predicate Observed(j: JsStream) {
    j.ears.messages != [] || j.bye.closes != []
  }

  /** The JavaScript thread is inside a native call, or between two with nothing to run in between. */
  predicate Blocked(j: JsStream) {
    exists k | 0 <= k < |j.pumps| :: j.pumps[k].Polling? || j.pumps[k].Asking?
  }

  function Current(pumps: seq<Pump>): Pump {
    if pumps == [] then Gone else pumps[|pumps| - 1]
  }

  /** The pass the pump is in the middle of. */
  function PassOf(pc: Pump): Pass {
    if pc.Delivering? then Visited(pc.cursor) else NoPass
  }

  // ---------------------------------------------------------------------------------------
  // Steps
  // ---------------------------------------------------------------------------------------

  predicate IsBegin(t: Step) {
    t.Poll? && t.p.PollBegin?
  }

  predicate CanMove(j: JsStream, pc: Pump, m: Move) {
    match m
    case Take => pc.Top? && !j.closed && j.ears.messages != []
    case Returned => pc.Polling? && pc.call < |j.engine.data.polls| && j.engine.data.polls[pc.call].PReturned?
    case Skip => pc.Top? && !j.closed && j.ears.messages == [] && Observed(j)
    case Ask => pc.Asking?
    case CallFails => pc.Asking?
    case NextHandler =>
      pc.Delivering? && j.ears.frames != [] && NextFrom(j.ears.messages, pc.cursor + 1) < |j.ears.messages|
    case EndPass => pc.Delivering? && NextFrom(j.ears.messages, pc.cursor + 1) == |j.ears.messages|
    case Wake => pc.Sleeping?
    case Exit => pc.Top? && (j.closed || !Observed(j))
    case Recover => pc.Failing?
    case Finally => pc.Leaving?
  }

  predicate JsEnabled(j: JsStream, t: JsStep) {
    match t
    case Native(u) => Enabled(j.engine, u) && !IsBegin(u)
    case Turn(k, m) => k < |j.pumps| && CanMove(j, j.pumps[k], m)
    case FireNext => j.bye.emission.Firing? && NextFrom(j.bye.closes, j.bye.emission.from) < |j.bye.closes|
    case FireLate => j.bye.late != []
    case _ => !Blocked(j)
  }

  function Pumped(j: JsStream): JsStream {
    if j.pumping || j.closed || !Observed(j) then j
    else j.(pumping := true, pumps := j.pumps + [Top])
  }

  function Emitted(j: JsStream): JsStream {
    if j.closed then j else j.(closed := true, bye := j.bye.(emission := Firing(0)))
  }

  function NativeClose(s: State): State {
    if s.handle == Registered then Apply(s, Remove) else s
  }

  /** The native `next_message` with a timeout of zero begins. */
  function NativePoll(s: State): State {
    s.(data := PollData(s.data, s.inb, s.sig, s.handle, false, PollBegin(false)))
  }

  function Outcome(s: State, call: nat): PollOutcome
    requires call < |s.data.polls| && s.data.polls[call].PReturned?
  {
    s.data.polls[call].outcome
  }

  /** Where an activation at `pc` goes with one move. */
  function NextPc(j: JsStream, pc: Pump, m: Move): Pump
    requires CanMove(j, pc, m)
  {
    match m
    case Take => Polling(|j.engine.data.polls|)
    case Returned =>
      (match Outcome(j.engine, pc.call)
       case Message(_) => if j.ears.messages == [] then Sleeping else Delivering(j.ears.messages[0].id)
       case Nothing => Asking
       case Missing => Failing)
    case Skip => Asking
    case Ask => if EndsStream(j, m) then Leaving else Sleeping
    case CallFails => Failing
    case NextHandler => Delivering(j.ears.messages[NextFrom(j.ears.messages, pc.cursor + 1)].id)
    case EndPass => Sleeping
    case Wake => Top
    case Exit => Gone
    case Recover => Leaving
    case Finally => Gone
  }

  function NextEars(j: JsStream, pc: Pump, m: Move): Ears
    requires CanMove(j, pc, m)
  {
    match m
    case Returned =>
      var outcome := Outcome(j.engine, pc.call);
      if outcome.Message? then BeginPass(j.ears, outcome.frame) else j.ears
    case NextHandler => VisitNext(j.ears, NextFrom(j.ears.messages, pc.cursor + 1))
    case _ => j.ears
  }

  /** The pump closes the native stream and tells the close handlers. */
  predicate EndsStream(j: JsStream, m: Move) {
    (m.Ask? && j.asks && !StreamIsOpen(j.engine)) || m.Recover?
  }

  function NextEngine(j: JsStream, m: Move): State {
    if m.Take? then NativePoll(j.engine)
    else if EndsStream(j, m) then NativeClose(j.engine)
    else j.engine
  }

  /** One move of activation `k`; the `finally` block starts the pump again if it is still needed. */
  function Moved(j: JsStream, k: nat, m: Move): JsStream
    requires k < |j.pumps| && CanMove(j, j.pumps[k], m)
  {
    var j1 := j.(engine := NextEngine(j, m), ears := NextEars(j, j.pumps[k], m),
                 pumps := j.pumps[k := NextPc(j, j.pumps[k], m)]);
    if m.Exit? || m.Finally? then Pumped(j1.(pumping := false))
    else if EndsStream(j, m) then Emitted(j1)
    else j1
  }

  /** The pass under way, as far as a frame has been taken for it. */
  function PassAt(j: JsStream): Pass {
    if j.ears.frames == [] then NoPass else PassOf(Current(j.pumps))
  }

  function AddClose(b: Farewell, handler: nat, closed: bool): Farewell {
    if closed then b.(late := b.late + [b.next], next := b.next + 1)
    else b.(closes := Add(b.closes, Entry(b.next, handler, 0)), next := b.next + 1)
  }

  function FiredNext(b: Farewell): Farewell
    requires b.emission.Firing? && NextFrom(b.closes, b.emission.from) < |b.closes|
  {
    var id := b.closes[NextFrom(b.closes, b.emission.from)].id;
    b.(fired := b.fired + [id], emission := Firing(id + 1))
  }

  function FiredLate(b: Farewell): Farewell
    requires b.late != []
  {
    b.(fired := b.fired + [b.late[0]], late := b.late[1..])
  }

  function JsApply(j: JsStream, t: JsStep): JsStream
    requires JsEnabled(j, t)
  {
    match t
    case Native(u) => j.(engine := Apply(j.engine, u))
    case OnMessage(h) => if j.closed then j else Pumped(j.(ears := AddMessage(j.ears, PassAt(j), h)))
    case OffMessage(h) => j.(ears := DropMessage(j.ears, h))
    case OnClose(h) =>
      if j.closed then j.(bye := AddClose(j.bye, h, true)) else Pumped(j.(bye := AddClose(j.bye, h, false)))
    case OffClose(h) => j.(bye := j.bye.(closes := Drop(j.bye.closes, h)))
    case CloseCall => if j.closed then j else Emitted(j.(engine := NativeClose(j.engine)))
    case Turn(k, m) => Moved(j, k, m)
    case FireNext => j.(bye := FiredNext(j.bye))
    case FireLate => j.(bye := FiredLate(j.bye))
  }

  ghost predicate JsReaches(j: JsStream, ts: seq<JsStep>, k: JsStream)
    decreases |ts|
  {
    if ts == [] then j == k
    else JsEnabled(j, ts[0]) && JsReaches(JsApply(j, ts[0]), ts[1..], k)
  }

  ghost predicate JsReachable(k: JsStream) {
    exists j, ts :: JsInit(j) && JsReaches(j, ts, k)
  }

  /** What a step of the wrapper's own does to the native stream: nothing, or it begins a call or closes it. */
  lemma OwnStepTouches(j: JsStream, t: JsStep)
    requires JsEnabled(j, t) && !t.Native?
    ensures var s, j' := j.engine, JsApply(j, t);
            && (j.closed ==> j'.closed)
            && (j'.engine == s || (t.Turn? && t.move.Take? && j'.engine == NativePoll(s)) || j'.engine == NativeClose(s))
            && j'.engine.inb == s.inb && j'.engine.sig == s.sig
  {
  }

  // ---------------------------------------------------------------------------------------
  // The pump
  // ---------------------------------------------------------------------------------------

  predicate AllGoneBut(pumps: seq<Pump>) {
    forall k | 0 <= k < |pumps| - 1 :: pumps[k].Gone?
  }

  predicate PumpInv(j: JsStream) {
    && AllGoneBut(j.pumps)
    && (j.pumping <==> !Current(j.pumps).Gone?)
    && (!j.closed && Observed(j) ==> j.pumping)
    && (Current(j.pumps).Leaving? ==> j.closed)
    && (Current(j.pumps).Polling? ==> j.ears.messages != [] && !j.closed)
    && (Current(j.pumps).Delivering? ==> j.ears.frames != [])
  }

  lemma BlockedIsCurrent(j: JsStream)
    requires AllGoneBut(j.pumps)
    ensures Blocked(j) <==> Current(j.pumps).Polling? || Current(j.pumps).Asking?
  {
    if Current(j.pumps).Polling? || Current(j.pumps).Asking? {
      var n := |j.pumps| - 1;
      assert j.pumps[n].Polling? || j.pumps[n].Asking?;
    }
  }

  lemma PumpedKeeps(j: JsStream)
    requires AllGoneBut(j.pumps) && (j.pumping <==> !Current(j.pumps).Gone?)
    requires Current(j.pumps).Leaving? ==> j.closed
    requires Current(j.pumps).Polling? ==> j.ears.messages != [] && !j.closed
    requires Current(j.pumps).Delivering? ==> j.ears.frames != []
    ensures PumpInv(Pumped(j))
  {
  }

  lemma MovesKeepPump(j: JsStream, k: nat, m: Move)
    requires PumpInv(j) && JsEnabled(j, Turn(k, m))
    ensures PumpInv(JsApply(j, Turn(k, m)))
  {
    assert k == |j.pumps| - 1;
    if m.Exit? || m.Finally? {
      PumpedKeeps(j.(pumps := j.pumps[k := Gone], pumping := false));
    }
  }

  /** What a move of the live activation leaves behind, part by part. */
  lemma MovedParts(j: JsStream, k: nat, m: Move)
    requires AllGoneBut(j.pumps) && JsEnabled(j, Turn(k, m))
    ensures var j', pc := JsApply(j, Turn(k, m)), Current(j.pumps);
            && k == |j.pumps| - 1
            && CanMove(j, pc, m)
            && j'.engine == NextEngine(j, m)
            && j'.ears == NextEars(j, pc, m)
            && (Current(j'.pumps) == NextPc(j, pc, m) || (NextPc(j, pc, m) == Gone && Current(j'.pumps) == Top))
  {
  }

  lemma PumpStep(j: JsStream, t: JsStep)
    requires PumpInv(j) && JsEnabled(j, t)
    ensures PumpInv(JsApply(j, t))
  {
    BlockedIsCurrent(j);
    match t {
      case OnMessage(h) => if !j.closed { PumpedKeeps(j.(ears := AddMessage(j.ears, PassAt(j), h))); }
      case OffMessage(h) => DropShrinks(j.ears.messages, h);
      case OnClose(h) => if !j.closed { PumpedKeeps(j.(bye := AddClose(j.bye, h, false))); }
      case OffClose(h) => DropShrinks(j.bye.closes, h);
      case Turn(k, m) => MovesKeepPump(j, k, m);
      case _ =>
    }
  }

  lemma DropShrinks(entries: seq<Entry>, h: nat)
    ensures Drop(entries, h) != [] ==> entries != []
  {
  }

  // ---------------------------------------------------------------------------------------
  // Message handlers
  // ---------------------------------------------------------------------------------------

  predicate EarsInv(j: JsStream) {
    EarsOk(j.ears, PassOf(Current(j.pumps)))
  }

  lemma ReturnedEarsOk(j: JsStream, pc: Pump)
    requires CanMove(j, pc, Returned) && EarsOk(j.ears, NoPass) && j.ears.messages != []
    ensures EarsOk(NextEars(j, pc, Returned), PassOf(NextPc(j, pc, Returned)))
  {
    var outcome := Outcome(j.engine, pc.call);
    if outcome.Message? { BeginKeepsEars(j.ears, outcome.frame); }
  }

  lemma VisitEarsOk(j: JsStream, pc: Pump)
    requires CanMove(j, pc, NextHandler) && EarsOk(j.ears, Visited(pc.cursor))
    ensures EarsOk(NextEars(j, pc, NextHandler), PassOf(NextPc(j, pc, NextHandler)))
  {
    VisitKeepsEars(j.ears, pc.cursor);
  }

  lemma EndEarsOk(j: JsStream, pc: Pump)
    requires CanMove(j, pc, EndPass) && EarsOk(j.ears, Visited(pc.cursor))
    ensures EarsOk(NextEars(j, pc, EndPass), PassOf(NextPc(j, pc, EndPass)))
  {
    EndKeepsEars(j.ears, pc.cursor);
  }

  lemma NextEarsOk(j: JsStream, pc: Pump, m: Move)
    requires CanMove(j, pc, m) && EarsOk(j.ears, PassOf(pc))
    requires pc.Polling? ==> j.ears.messages != []
    ensures EarsOk(NextEars(j, pc, m), PassOf(NextPc(j, pc, m)))
  {
    if m.Returned? {
      ReturnedEarsOk(j, pc);
    } else if m.NextHandler? {
      VisitEarsOk(j, pc);
    } else if m.EndPass? {
      EndEarsOk(j, pc);
    } else {
      assert NextEars(j, pc, m) == j.ears && PassOf(NextPc(j, pc, m)) == NoPass;
    }
  }

  lemma MovesKeepEars(j: JsStream, k: nat, m: Move)
    requires PumpInv(j) && EarsInv(j) && JsEnabled(j, Turn(k, m))
    ensures EarsInv(JsApply(j, Turn(k, m)))
  {
    MovedParts(j, k, m);
    NextEarsOk(j, Current(j.pumps), m);
  }

  lemma EarsStep(j: JsStream, t: JsStep)
    requires PumpInv(j) && EarsInv(j) && JsEnabled(j, t)
    ensures EarsInv(JsApply(j, t))
  {
    match t {
      case OnMessage(h) => AddKeepsEars(j.ears, PassOf(Current(j.pumps)), h);
      case OffMessage(h) => DropKeepsEars(j.ears, PassOf(Current(j.pumps)), h);
      case Turn(k, m) => MovesKeepEars(j, k, m);
      case _ =>
    }
  }

  // ---------------------------------------------------------------------------------------
  // Close handlers
  // ---------------------------------------------------------------------------------------

  /** Every entry is in one place: still to fire, scheduled, or fired once. */
  predicate ByeInv(b: Farewell, closed: bool) {
    && Sorted(b.closes, b.next)
    && Distinct(b.fired) && Distinct(b.late)
    && (forall id | id in b.fired :: id < b.next && id !in b.late)
    && (forall id | id in b.late :: id < b.next)
    && (forall x | x in b.closes :: x.id !in b.late)
    && (closed <==> b.emission.Firing?)
    && (b.emission.Quiet? ==> b.fired == [] && b.late == [])
    && (b.emission.Firing? ==> forall x | x in b.closes :: x.id in b.fired <==> x.id < b.emission.from)
  }

  lemma DistinctAppend(ids: seq<nat>, id: nat)
    requires Distinct(ids) && id !in ids
    ensures Distinct(ids + [id])
  {
  }

  lemma AddKeepsBye(b: Farewell, h: nat, closed: bool)
    requires ByeInv(b, closed)
    ensures ByeInv(AddClose(b, h, closed), closed)
  {
    if closed { DistinctAppend(b.late, b.next); }
  }

  lemma DropKeepsBye(b: Farewell, h: nat, closed: bool)
    requires ByeInv(b, closed)
    ensures ByeInv(b.(closes := Drop(b.closes, h)), closed)
  {
    DropKeeps(b.closes, h, b.next);
  }

  lemma FireKeepsBye(b: Farewell, closed: bool)
    requires ByeInv(b, closed) && b.emission.Firing? && NextFrom(b.closes, b.emission.from) < |b.closes|
    ensures ByeInv(FiredNext(b), closed)
  {
    var i := NextFrom(b.closes, b.emission.from);
    var id := b.closes[i].id;
    assert b.closes[i] in b.closes;
    DistinctAppend(b.fired, id);
    forall x | x in b.closes ensures x.id in b.fired + [id] <==> x.id < id + 1 {
      var k :| 0 <= k < |b.closes| && b.closes[k] == x;
    }
  }

  lemma LateKeepsBye(b: Farewell, closed: bool)
    requires ByeInv(b, closed) && b.late != []
    ensures ByeInv(FiredLate(b), closed)
  {
    assert b.late[0] in b.late;
    DistinctAppend(b.fired, b.late[0]);
    assert forall id | id in b.late[1..] :: id in b.late && id != b.late[0];
  }

  lemma EmitKeepsBye(b: Farewell)
    requires ByeInv(b, false)
    ensures ByeInv(b.(emission := Firing(0)), true)
  {
  }

  lemma MovesLeaveBye(j: JsStream, t: JsStep)
    requires JsEnabled(j, t) && (t.Native? || t.OnMessage? || t.OffMessage? || t.CloseCall? || t.Turn?)
    ensures var j' := JsApply(j, t);
            || (j'.bye == j.bye && j'.closed == j.closed)
            || (!j.closed && j'.closed && j'.bye == j.bye.(emission := Firing(0)))
  {
  }

  lemma ByeStep(j: JsStream, t: JsStep)
    requires ByeInv(j.bye, j.closed) && JsEnabled(j, t)
    ensures ByeInv(JsApply(j, t).bye, JsApply(j, t).closed)
  {
    match t {
      case OnClose(h) => AddKeepsBye(j.bye, h, j.closed);
      case OffClose(h) => DropKeepsBye(j.bye, h, j.closed);
      case FireNext => FireKeepsBye(j.bye, j.closed);
      case FireLate => LateKeepsBye(j.bye, j.closed);
      case _ =>
        MovesLeaveBye(j, t);
        if !j.closed { EmitKeepsBye(j.bye); }
    }
  }

  // ---------------------------------------------------------------------------------------
  // The native calls
  // ---------------------------------------------------------------------------------------

  predicate ReturnedBut(polls: seq<PollPc>, i: nat) {
    forall k | 0 <= k < |polls| && k != i :: polls[k].PReturned?
  }

  /** What a native call has popped for its caller. */
  function Taken(pc: PollPc): seq<Frame> {
    match pc
    case PSignalling(f) => [f]
    case PReturned(Message(f)) => [f]
    case _ => []
  }

  predicate PopsFor(d: Data, b: Inbound, d': Data, b': Inbound, i: nat)
    requires i < |d.polls|
  {
    && |d'.polls| == |d.polls| && ReturnedBut(d'.polls, i)
    && b'.popped == (if Taken(d.polls[i]) == [] then b.popped + Taken(d'.polls[i]) else b.popped)
    && (Taken(d.polls[i]) != [] ==> Taken(d'.polls[i]) == Taken(d.polls[i]))
  }

  /** A call's own action either pops a frame for it or leaves what it has. */
  lemma PollPops(d: Data, b: Inbound, g: Signal, handle: HandlePc, solo: bool, t: PollAction, i: nat)
    requires PollGuard(d, solo, t) && !t.PollBegin? && ReturnedBut(d.polls, i) && i < |d.polls|
    ensures PopsFor(d, b, PollData(d, b, g, handle, solo, t), PollInbound(d, b, solo, t), i)
  {
    assert t.i == i;
  }

  /** No call took or gave back a frame. */
  predicate SameTaken(polls: seq<PollPc>, polls': seq<PollPc>) {
    && |polls'| == |polls|
    && forall i | 0 <= i < |polls| :: Taken(polls'[i]) == Taken(polls[i]) && (polls[i].PReturned? <==> polls'[i].PReturned?)
  }

  lemma NotifyTakesNothing(d: Data, pick: nat)
    ensures SameTaken(d.polls, NotifyOneData(d, pick).polls)
  {
  }

  lemma ClosingPopsNothing(s: State, who: Actor, pick: nat)
    requires Enabled(s, Shutdown(who, pick))
    ensures SameTaken(s.data.polls, Apply(s, Shutdown(who, pick)).data.polls)
    ensures Apply(s, Shutdown(who, pick)).inb.popped == s.inb.popped
  {
    ClosingNotices(s, who, pick);
    ClosingInbound(s, who, pick);
    NotifyTakesNothing(s.data, pick);
  }

  /** Nothing but a call's own action pops a frame or changes what a call has. */
  lemma OthersPopNothing(s: State, t: Step)
    requires Enabled(s, t) && !t.Poll?
    ensures SameTaken(s.data.polls, Apply(s, t).data.polls)
    ensures Apply(s, t).inb.popped == s.inb.popped
  {
    match t {
      case Read(r, pick) => NotifyTakesNothing(s.data, pick);
      case Shutdown(who, pick) => ClosingPopsNothing(s, who, pick);
      case _ =>
    }
  }

  lemma NativeStepPops(s: State, t: Step, i: nat)
    requires Enabled(s, t) && !IsBegin(t) && ReturnedBut(s.data.polls, i) && i < |s.data.polls|
    ensures PopsFor(s.data, s.inb, Apply(s, t).data, Apply(s, t).inb, i)
  {
    if t.Poll? {
      PollPops(s.data, s.inb, s.sig, s.handle, s.solo, t.p, i);
    } else {
      OthersPopNothing(s, t);
      NoTail(s.inb.popped);
    }
  }

  /** The wrapper has at most one native `next_message` call under way, and knows what it popped. */
  predicate CallInv(s: State, pc: Pump, frames: seq<Frame>) {
    match pc
    case Polling(i) =>
      i == |s.data.polls| - 1 && ReturnedBut(s.data.polls, i) && s.inb.popped == frames + Taken(s.data.polls[i])
    case _ => AllReturned(s.data.polls) && s.inb.popped == frames
  }

  lemma NativeKeepsCall(s: State, pc: Pump, frames: seq<Frame>, t: Step)
    requires CallInv(s, pc, frames) && Enabled(s, t) && !IsBegin(t)
    ensures CallInv(Apply(s, t), pc, frames)
  {
    if pc.Polling? {
      NativeStepPops(s, t, pc.call);
      assert frames + [] == frames;
    } else if !t.Poll? {
      OthersPopNothing(s, t);
    }
  }

  /** With the calls one at a time, a new one is what a caller that takes turns would make. */
  lemma PollIsEnabled(s: State)
    requires AllReturned(s.data.polls)
    ensures Enabled(s, Poll(PollBegin(false)))
    ensures NativePoll(s) == Apply(s, Poll(PollBegin(false)))
  {
  }

  lemma PollKeepsCall(s: State, frames: seq<Frame>)
    requires AllReturned(s.data.polls) && s.inb.popped == frames
    ensures CallInv(NativePoll(s), Polling(|s.data.polls|), frames)
  {
    assert frames + [] == frames;
  }

  lemma NextCallOk(j: JsStream, pc: Pump, m: Move)
    requires CanMove(j, pc, m) && CallInv(j.engine, pc, j.ears.frames)
    ensures CallInv(NextEngine(j, m), NextPc(j, pc, m), NextEars(j, pc, m).frames)
  {
    match m {
      case Take => PollKeepsCall(j.engine, j.ears.frames);
      case Returned => NoTail(j.ears.frames);
      case _ =>
    }
  }

  lemma MovesKeepCall(j: JsStream, k: nat, m: Move)
    requires PumpInv(j) && CallInv(j.engine, Current(j.pumps), j.ears.frames) && JsEnabled(j, Turn(k, m))
    ensures var j' := JsApply(j, Turn(k, m)); CallInv(j'.engine, Current(j'.pumps), j'.ears.frames)
  {
    MovedParts(j, k, m);
    NextCallOk(j, Current(j.pumps), m);
  }

  lemma CallStep(j: JsStream, t: JsStep)
    requires PumpInv(j) && CallInv(j.engine, Current(j.pumps), j.ears.frames) && JsEnabled(j, t)
    ensures var j' := JsApply(j, t); CallInv(j'.engine, Current(j'.pumps), j'.ears.frames)
  {
    match t {
      case Native(u) => NativeKeepsCall(j.engine, Current(j.pumps), j.ears.frames, u);
      case Turn(k, m) => MovesKeepCall(j, k, m);
      case _ => assert JsApply(j, t).ears.frames == j.ears.frames;
    }
  }

  lemma NativeCloseReaches(s: State)
    requires Reachable(s) && s.solo
    ensures Reachable(NativeClose(s)) && NativeClose(s).solo
  {
    if s.handle == Registered { ReachableStep(s, Remove); }
  }

  lemma NativePollReaches(s: State)
    requires Reachable(s) && s.solo && AllReturned(s.data.polls)
    ensures Reachable(NativePoll(s)) && NativePoll(s).solo
  {
    PollIsEnabled(s);
    ReachableStep(s, Poll(PollBegin(false)));
  }

  lemma EngineStep(j: JsStream, t: JsStep)
    requires PumpInv(j) && CallInv(j.engine, Current(j.pumps), j.ears.frames) && JsEnabled(j, t)
    requires Reachable(j.engine) && j.engine.solo
    ensures Reachable(JsApply(j, t).engine) && JsApply(j, t).engine.solo
  {
    if t.Native? {
      ReachableStep(j.engine, t.t);
    } else {
      OwnStepTouches(j, t);
      NativeCloseReaches(j.engine);
      if t.Turn? && t.move.Take? {
        MovedParts(j, t.k, t.move);
        NativePollReaches(j.engine);
      }
    }
  }

  // ---------------------------------------------------------------------------------------
  // Together
  // ---------------------------------------------------------------------------------------

  ghost predicate JsInv(j: JsStream) {
    && PumpInv(j) && EarsInv(j) && ByeInv(j.bye, j.closed)
    && CallInv(j.engine, Current(j.pumps), j.ears.frames)
    && Reachable(j.engine) && j.engine.solo
  }

  lemma JsInvStep(j: JsStream, t: JsStep)
    requires JsInv(j) && JsEnabled(j, t)
    ensures JsInv(JsApply(j, t))
  {
    PumpStep(j, t);
    EarsStep(j, t);
    ByeStep(j, t);
    CallStep(j, t);
    EngineStep(j, t);
  }

  lemma {:induction false} JsInvReaches(j: JsStream, ts: seq<JsStep>, k: JsStream)
    requires JsInv(j) && JsReaches(j, ts, k)
    ensures JsInv(k)
    decreases |ts|
  {
    if ts != [] {
      JsInvStep(j, ts[0]);
      JsInvReaches(JsApply(j, ts[0]), ts[1..], k);
    }
  }

  lemma JsInvInit(j: JsStream)
    requires JsInit(j)
    ensures JsInv(j)
  {
    assert Reaches(j.engine, [], j.engine);
  }

  lemma JsInvReachable(k: JsStream)
    requires JsReachable(k)
    ensures JsInv(k)
  {
    var j, ts :| JsInit(j) && JsReaches(j, ts, k);
    JsInvInit(j);
    JsInvReaches(j, ts, k);
  }

  // One part of it at a time, for those who need no more.

  lemma PumpHolds(j: JsStream)
    requires JsReachable(j)
    ensures PumpInv(j)
  {
    JsInvReachable(j);
  }

  lemma EarsHold(j: JsStream)
    requires JsReachable(j)
    ensures EarsInv(j)
  {
    JsInvReachable(j);
  }

  lemma ByeHolds(j: JsStream)
    requires JsReachable(j)
    ensures ByeInv(j.bye, j.closed)
  {
    JsInvReachable(j);
  }

  lemma CallHolds(j: JsStream)
    requires JsReachable(j)
    ensures CallInv(j.engine, Current(j.pumps), j.ears.frames)
  {
    JsInvReachable(j);
  }

  lemma EngineHolds(j: JsStream)
    requires JsReachable(j)
    ensures Reachable(j.engine) && j.engine.solo
  {
    JsInvReachable(j);
  }

  // ---------------------------------------------------------------------------------------
  // Runs
  // ---------------------------------------------------------------------------------------

  lemma {:induction false} JsReachesTrans(j: JsStream, ts: seq<JsStep>, m: JsStream, us: seq<JsStep>, k: JsStream)
    requires JsReaches(j, ts, m) && JsReaches(m, us, k)
    ensures JsReaches(j, ts + us, k)
    decreases |ts|
  {
    if ts == [] {
      assert ts + us == us;
    } else {
      JsReachesTrans(JsApply(j, ts[0]), ts[1..], m, us, k);
      assert (ts + us)[1..] == ts[1..] + us;
    }
  }

  lemma JsReachesOne(j: JsStream, t: JsStep)
    requires JsEnabled(j, t)
    ensures JsReaches(j, [t], JsApply(j, t))
  {
    assert [t][1..] == [];
    assert JsReaches(JsApply(j, t), [], JsApply(j, t));
  }

  lemma JsReachableOnward(j: JsStream, ts: seq<JsStep>, k: JsStream)
    requires JsReachable(j) && JsReaches(j, ts, k)
    ensures JsReachable(k)
  {
    var j0, us :| JsInit(j0) && JsReaches(j0, us, j);
    JsReachesTrans(j0, us, j, ts, k);
  }

  lemma JsReachableStep(m: JsStream, t: JsStep)
    requires JsReachable(m) && JsEnabled(m, t)
    ensures JsReachable(JsApply(m, t))
  {
    JsReachesOne(m, t);
    JsReachableOnward(m, [t], JsApply(m, t));
  }

  // ---------------------------------------------------------------------------------------
  // What the wrapper promises
  // ---------------------------------------------------------------------------------------

  /** At most one pump is live, and one is live whenever the stream is open and observed. */
  lemma OnePumpWhenObserved(j: JsStream, k: nat, l: nat)
    requires JsReachable(j) && k < |j.pumps| && l < |j.pumps|
    ensures !j.pumps[k].Gone? && !j.pumps[l].Gone? ==> k == l
    ensures !j.closed && Observed(j) ==> !j.pumps[|j.pumps| - 1].Gone?
    ensures j.pumping <==> !j.pumps[|j.pumps| - 1].Gone?
  {
    PumpHolds(j);
  }

  lemma ObservedIsPumped(j: JsStream)
    requires JsReachable(j) && !j.closed && Observed(j)
    ensures exists k | 0 <= k < |j.pumps| :: !j.pumps[k].Gone?
  {
    PumpHolds(j);
    assert !j.pumps[|j.pumps| - 1].Gone?;
  }

  /** The pump's `finally` block never has to start another pump. */
  lemma RestartIsNeverNeeded(j: JsStream, k: nat, m: Move)
    requires JsReachable(j) && JsEnabled(j, Turn(k, m)) && (m.Exit? || m.Finally?)
    ensures JsApply(j, Turn(k, m)).pumps == j.pumps[k := Gone] && !JsApply(j, Turn(k, m)).pumping
  {
    PumpHolds(j);
    assert k == |j.pumps| - 1;
    assert j.closed || !Observed(j);
  }

  /** A frame is taken from the native side only for a handler, and every frame taken is heard. */
  lemma EveryFrameIsHeard(j: JsStream, frame: nat)
    requires JsReachable(j)
    ensures Current(j.pumps).Polling? ==> j.ears.messages != []
    ensures frame < |j.ears.frames| ==> exists d | d in j.ears.log :: d.frame == frame
    ensures Ordered(j.ears.log)
  {
    PumpHolds(j);
    EarsHold(j);
    if frame < |j.ears.frames| { assert IsHeard(j.ears.log, frame); }
  }

  /**
   A registered message handler has been called with exactly the frames taken since it was
   registered, each once and in order, and those are, without a gap, payloads that the peer's
   `send` accepted. In the middle of a pass the newest frame is missing for the handlers whose
   turn is still to come.
   */
  lemma HandlerHearsEveryFrame(j: JsStream, p: Pair, side: Side, x: Entry)
    requires JsReachable(j) && PairReachable(p) && p.At(side) == j.engine
    requires x in j.ears.messages
    ensures Current(j.pumps).Delivering? ==> j.ears.frames != []
    ensures var due, accepted := Upto(j.ears, PassOf(Current(j.pumps)), x), p.At(side.Other()).out.accepted;
            && x.first <= due <= |j.ears.frames| <= |accepted|
            && Within(Given(j.ears.log, x.id), |j.ears.frames|)
            && Payloads(j.ears.frames, Given(j.ears.log, x.id)) == accepted[x.first..due]
  {
    DeliveryIsInOrder(p, side);
    TakenArePopped(j);
    HandlerIsUpToDate(j, x);
    var due := Upto(j.ears, PassOf(Current(j.pumps)), x);
    PayloadsOfRange(j.ears.frames, x.first, due);
    assert j.ears.frames[x.first..due] == p.At(side.Other()).out.accepted[x.first..due];
  }

  /** What the wrapper has taken is the front of what the native calls have popped. */
  lemma TakenArePopped(j: JsStream)
    requires JsReachable(j)
    ensures j.ears.frames <= j.engine.inb.popped
  {
    CallHolds(j);
  }

  lemma HandlerIsUpToDate(j: JsStream, x: Entry)
    requires JsReachable(j) && x in j.ears.messages
    ensures Current(j.pumps).Delivering? ==> j.ears.frames != []
    ensures UpToDate(j.ears, PassOf(Current(j.pumps)), x)
  {
    EarsHold(j);
  }

  lemma ClosedTakesNothing(j: JsStream, t: JsStep)
    requires PumpInv(j) && j.closed && JsEnabled(j, t)
    ensures JsApply(j, t).closed && JsApply(j, t).ears.frames == j.ears.frames
  {
    if t.Turn? { assert t.k == |j.pumps| - 1; }
  }

  lemma {:induction false} ClosedTakesNothingOnward(j: JsStream, ts: seq<JsStep>, k: JsStream)
    requires JsReachable(j) && j.closed && JsReaches(j, ts, k)
    ensures JsReachable(k) && k.ears.frames == j.ears.frames && k.closed
    decreases |ts|
  {
    if ts != [] {
      PumpHolds(j);
      JsReachableStep(j, ts[0]);
      ClosedTakesNothing(j, ts[0]);
      ClosedTakesNothingOnward(JsApply(j, ts[0]), ts[1..], k);
    }
  }

  /**
   Once the wrapper holds the stream closed, no frame is taken any more: whatever the native
   side has received by then and not handed over, or receives later, stays in the inbox.
   */
  lemma WhatTheEndLeavesBehind(j: JsStream, ts: seq<JsStep>, k: JsStream)
    requires JsReachable(j) && j.closed && JsReaches(j, ts, k)
    ensures k.ears.frames == j.ears.frames
    ensures k.engine.inb.pushed == j.ears.frames + k.engine.inb.inbox.frames
  {
    ClosedTakesNothingOnward(j, ts, k);
    PumpHolds(k);
    CallHolds(k);
    EngineHolds(k);
    InvReachable(k.engine);
  }

  /** Close handlers are called only after the end, and no registration is called twice. */
  lemma CloseHandlersFireOnce(j: JsStream)
    requires JsReachable(j)
    ensures Distinct(j.bye.fired)
    ensures j.bye.fired != [] ==> j.closed
  {
    ByeHolds(j);
  }

  /** When the round of close handlers is over, all those still registered have been called. */
  lemma EveryCloseHandlerFires(j: JsStream)
    requires JsReachable(j) && j.closed && !JsEnabled(j, FireNext)
    ensures forall x | x in j.bye.closes :: x.id in j.bye.fired
  {
    ByeHolds(j);
    forall x | x in j.bye.closes ensures x.id in j.bye.fired {
      var k :| 0 <= k < |j.bye.closes| && j.bye.closes[k] == x;
    }
  }

  /** The wrapper never makes two native `next_message` calls at once, so no wake-up is lost. */
  lemma NativeCallsTakeTurns(j: JsStream, k: nat, i: nat)
    requires JsReachable(j)
    ensures JsEnabled(j, Turn(k, Take)) ==> AllReturned(j.engine.data.polls)
    ensures !LostWakeup(j.engine, i)
  {
    PumpHolds(j);
    CallHolds(j);
    EngineHolds(j);
    NoLostDataWakeup(j.engine, i);
  }
}
