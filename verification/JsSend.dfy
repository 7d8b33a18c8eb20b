/**
 `stream.send` of the JavaScript wrapper on top of the native stream. Calls are chained: each
 one runs after the one before it has settled, retries while the native queue is full, and
 settles its promise. The JavaScript thread makes every native call for the stream, one at a
 time; the native tasks run beside it throughout.
 */
module JsSend {
  import opened Framing
  import opened Sequences
  import opened StreamEngine
  import opened StreamInvariants
  import opened StreamPair

  /**
   `toArrayBuffer`: a `send` call works on a copy of its own, so later writes to the caller's
   buffer do not reach it; from here on a payload is a value.
   */
  method ToArrayBuffer(buffer: array<byte>, offset: nat, length: nat) returns (copy: array<byte>)
    requires offset + length <= buffer.Length
    ensures fresh(copy) && copy[..] == buffer[offset..offset + length]
  {
    copy := new byte[length];
    var n := 0;
    while n < length
      invariant n <= length && copy[..n] == buffer[offset..offset + n]
    {
      copy[n] := buffer[offset + n];
      n := n + 1;
    }
  }

  datatype Attempt =
    | Idle                     // no attempt under way
    | Calling(i: nat)          // inside the native call number `i`
    | BackingOff               // the queue was full: a timer is running

  datatype JsState = JsState(
    engine: State,
    closed: bool,
    calls: seq<seq<byte>>,     // the payload of every `send` call, copied when the call was made
    settled: seq<bool>,        // the promises settled so far, in call order: resolved or rejected
    attempt: Attempt)

  datatype JsStep =
    | Native(t: Step)
    | Call(data: seq<byte>)
    | Start                    // the next call in the chain gets its turn
    | Return(giveUp: bool)     // the native call is back; `giveUp` when 30 seconds have passed
    | Retry
    | EmitClose

  predicate JsInit(j: JsState) {
    Init(j.engine) && !j.closed && j.calls == [] && j.settled == [] && j.attempt == Idle
  }

  /** The thread is inside a native `send`. */
  predicate Blocked(j: JsState) {
    j.attempt.Calling?
  }

  predicate JsEnabled(j: JsState, t: JsStep) {
    match t
    case Native(u) => Enabled(j.engine, u) && !(u.Send? && u.c.SendBegin?) && (u.Remove? ==> !Blocked(j))
    case Call(_) => !Blocked(j)
    case Start => j.attempt == Idle && |j.settled| < |j.calls|
    case Return(_) => j.attempt.Calling? && j.attempt.i < |j.engine.sends| && j.engine.sends[j.attempt.i].SReturned?
    case Retry => j.attempt == BackingOff && |j.settled| < |j.calls|
    case EmitClose => !Blocked(j)
  }

  /** Enter the native `send` with the payload of the call whose turn it is. */
  function Attempted(j: JsState): JsState
    requires |j.settled| < |j.calls|
  {
    j.(engine := Apply(j.engine, Send(SendBegin(j.calls[|j.settled|]))), attempt := Calling(|j.engine.sends|))
  }

  function Settle(j: JsState, resolved: bool): JsState {
    j.(settled := j.settled + [resolved], attempt := Idle)
  }

  function JsApply(j: JsState, t: JsStep): JsState
    requires JsEnabled(j, t)
  {
    match t
    case Native(u) => j.(engine := Apply(j.engine, u))
    case Call(data) => j.(calls := j.calls + [data])
    case Start => if j.closed then Settle(j, false) else Attempted(j)
    case Return(giveUp) =>
      (match j.engine.sends[j.attempt.i].outcome
       case SendOk => Settle(j, true)
       case SendFull => if j.closed || giveUp then Settle(j, false) else j.(attempt := BackingOff)
       case _ => Settle(j, false))
    case Retry => Attempted(j)
    case EmitClose => j.(closed := true)
  }

  ghost predicate JsReaches(j: JsState, ts: seq<JsStep>, k: JsState)
    decreases |ts|
  {
    if ts == [] then j == k
    else JsEnabled(j, ts[0]) && JsReaches(JsApply(j, ts[0]), ts[1..], k)
  }

  ghost predicate JsReachable(k: JsState) {
    exists j, ts :: JsInit(j) && JsReaches(j, ts, k)
  }

  // ---------------------------------------------------------------------------------------
  // What the native side does for one call
  // ---------------------------------------------------------------------------------------

  /** The payload a native call still carries; one that has returned has judged it. */
  predicate Carries(pc: SendPc, payload: seq<byte>) {
    match pc
    case SChecking(f) => f == payload
    case SAcquiring(f) => f == payload
    case STrying(f) => f == payload
    case SReturned(outcome) => outcome == SendInvalid <==> !Legal(payload)
  }

  predicate AllReturnedBut(sends: seq<SendPc>, i: nat) {
    forall k | 0 <= k < |sends| && k != i :: sends[k].SReturned?
  }

  predicate Succeeded(pc: SendPc) {
    pc == SReturned(SendOk)
  }

  /** A native step accepts nothing, or completes the one call that is under way. */
  lemma NativeStepAccepts(s: State, t: Step, i: nat, payload: seq<byte>)
    requires Enabled(s, t) && !(t.Send? && t.c.SendBegin?)
    requires AllReturnedBut(s.sends, i) && (i < |s.sends| ==> Carries(s.sends[i], payload))
    ensures var s' := Apply(s, t);
            && |s'.sends| == |s.sends| && AllReturnedBut(s'.sends, i)
            && (i < |s.sends| ==> Carries(s'.sends[i], payload))
            && s'.out.accepted == (if i < |s.sends| && Succeeded(s'.sends[i]) && !Succeeded(s.sends[i])
                                   then s.out.accepted + [payload] else s.out.accepted)
            && (i < |s.sends| && s.sends[i].SReturned? ==> s'.sends[i] == s.sends[i])
            && (i >= |s.sends| ==> s'.sends == s.sends)
  {
    if t.Shutdown? { ClosingSendsNothing(s, t.who, t.pick); }
  }

  // ---------------------------------------------------------------------------------------
  // The chain
  // ---------------------------------------------------------------------------------------

  /** The payloads of the calls whose promise resolved, in call order. */
  function Resolved(calls: seq<seq<byte>>, settled: seq<bool>): seq<seq<byte>>
    requires |settled| <= |calls|
  {
    if settled == [] then []
    else
      var n := |settled| - 1;
      Resolved(calls, settled[..n]) + if settled[n] then [calls[n]] else []
  }

  /** The payload of a call that the native side has accepted and whose promise is about to resolve. */
  function AboutToResolve(j: JsState): seq<seq<byte>>
    requires |j.settled| <= |j.calls|
  {
    if j.attempt.Calling? && j.attempt.i < |j.engine.sends| && Succeeded(j.engine.sends[j.attempt.i])
       && |j.settled| < |j.calls|
    then [j.calls[|j.settled|]] else []
  }

  lemma {:induction false} ResolvedIgnoresNewCalls(calls: seq<seq<byte>>, data: seq<byte>, settled: seq<bool>)
    requires |settled| <= |calls|
    ensures Resolved(calls + [data], settled) == Resolved(calls, settled)
  {
    if settled != [] {
      ResolvedIgnoresNewCalls(calls, data, settled[..|settled| - 1]);
    }
  }

  lemma ResolvedNext(calls: seq<seq<byte>>, settled: seq<bool>, resolved: bool)
    requires |settled| < |calls|
    ensures Resolved(calls, settled + [resolved])
         == Resolved(calls, settled) + if resolved then [calls[|settled|]] else []
  {
    assert (settled + [resolved])[..|settled|] == settled;
  }

  predicate AttemptOk(j: JsState) {
    && |j.settled| <= |j.calls|
    && (j.attempt != Idle ==> |j.settled| < |j.calls|)
    && (match j.attempt
        case Calling(i) =>
          && i == |j.engine.sends| - 1
          && AllReturnedBut(j.engine.sends, i)
          && Carries(j.engine.sends[i], j.calls[|j.settled|])
        case _ => AllReturnedBut(j.engine.sends, |j.engine.sends|))
    && (j.attempt == BackingOff ==> Legal(j.calls[|j.settled|]))
  }

  predicate ChainInv(j: JsState) {
    AttemptOk(j) && j.engine.out.accepted == Resolved(j.calls, j.settled) + AboutToResolve(j)
  }

  lemma NativeKeepsChain(j: JsState, t: Step)
    requires ChainInv(j) && JsEnabled(j, Native(t))
    ensures ChainInv(JsApply(j, Native(t)))
  {
    if j.attempt.Calling? {
      NativeStepAccepts(j.engine, t, j.attempt.i, j.calls[|j.settled|]);
    } else {
      NativeStepAccepts(j.engine, t, |j.engine.sends|, []);
    }
  }

  lemma AttemptKeepsChain(j: JsState)
    requires ChainInv(j) && !Blocked(j) && |j.settled| < |j.calls|
    ensures ChainInv(Attempted(j))
  {
    var sends, sends' := j.engine.sends, Attempted(j).engine.sends;
    assert forall k | 0 <= k < |sends| :: sends'[k] == sends[k];
    assert !Succeeded(sends'[|sends|]);
  }

  lemma SettleKeepsChain(j: JsState, resolved: bool)
    requires ChainInv(j) && |j.settled| < |j.calls| && AllReturnedBut(j.engine.sends, |j.engine.sends|)
    requires AboutToResolve(j) == if resolved then [j.calls[|j.settled|]] else []
    ensures ChainInv(Settle(j, resolved))
  {
    ResolvedNext(j.calls, j.settled, resolved);
    NoTail(Resolved(j.calls, j.settled + [resolved]));
  }

  lemma ChainStep(j: JsState, t: JsStep)
    requires ChainInv(j) && JsEnabled(j, t)
    ensures ChainInv(JsApply(j, t))
  {
    match t {
      case Native(u) => NativeKeepsChain(j, u);
      case Call(data) => ResolvedIgnoresNewCalls(j.calls, data, j.settled);
      case Start =>
        if j.closed { SettleKeepsChain(j, false); } else { AttemptKeepsChain(j); }
      case Return(giveUp) =>
        var outcome := j.engine.sends[j.attempt.i].outcome;
        if outcome == SendOk { SettleKeepsChain(j, true); }
        else if outcome != SendFull || j.closed || giveUp { SettleKeepsChain(j, false); }
      case Retry => AttemptKeepsChain(j);
      case EmitClose =>
    }
  }

  lemma {:induction false} ChainReaches(j: JsState, ts: seq<JsStep>, k: JsState)
    requires ChainInv(j) && JsReaches(j, ts, k)
    ensures ChainInv(k)
    decreases |ts|
  {
    if ts != [] {
      ChainStep(j, ts[0]);
      ChainReaches(JsApply(j, ts[0]), ts[1..], k);
    }
  }

  lemma ChainHolds(j: JsState)
    requires JsReachable(j)
    ensures ChainInv(j)
  {
    var j0, ts :| JsInit(j0) && JsReaches(j0, ts, j);
    ChainReaches(j0, ts, j);
  }

  /**
   The payloads the native stream has accepted are exactly those of the calls whose promise
   resolved, each once and in call order, however often the queue was full in between, plus at
   most the one whose native call has succeeded and not returned to its caller yet.
   */
  lemma ResolvedExactlyWhenAccepted(j: JsState)
    requires JsReachable(j)
    ensures |j.settled| <= |j.calls|
    ensures j.engine.out.accepted == Resolved(j.calls, j.settled) + AboutToResolve(j)
    ensures !Blocked(j) ==> j.engine.out.accepted == Resolved(j.calls, j.settled)
  {
    ChainHolds(j);
  }

  /** Composed with the network: the peer's consumer sees the resolved sends, in call order. */
  lemma PeerSeesResolvedSendsInOrder(j: JsState, p: Pair, side: Side)
    requires JsReachable(j) && PairReachable(p) && p.At(side) == j.engine
    ensures |j.settled| <= |j.calls|
    ensures p.At(side.Other()).inb.popped <= Resolved(j.calls, j.settled) + AboutToResolve(j)
  {
    ResolvedExactlyWhenAccepted(j);
    DeliveryIsInOrder(p, side.Other());
    assert side.Other().Other() == side;
  }

  // ---------------------------------------------------------------------------------------
  // After the native close
  // ---------------------------------------------------------------------------------------

  predicate NativelyClosed(j: JsState) {
    j.engine.handle.Closing? && forall k | 0 <= k < |j.engine.sends| :: j.engine.sends[k].SReturned?
  }

  lemma ClosedStep(j: JsState, t: JsStep)
    requires NativelyClosed(j) && JsEnabled(j, t)
    ensures NativelyClosed(JsApply(j, t))
    ensures JsApply(j, t).engine.out.accepted == j.engine.out.accepted
  {
    if t.Native? { NativeStepAccepts(j.engine, t.t, |j.engine.sends|, []); }
  }

  lemma {:induction false} ClosedReaches(j: JsState, ts: seq<JsStep>, k: JsState)
    requires NativelyClosed(j) && JsReaches(j, ts, k)
    ensures k.engine.out.accepted == j.engine.out.accepted
    decreases |ts|
  {
    if ts != [] {
      ClosedStep(j, ts[0]);
      ClosedReaches(JsApply(j, ts[0]), ts[1..], k);
    }
  }

  /** From the moment the wrapper closes the native stream, no payload is accepted any more. */
  lemma NothingAcceptedAfterClose(j: JsState, ts: seq<JsStep>, k: JsState)
    requires JsReachable(j) && JsEnabled(j, Native(Remove)) && JsReaches(JsApply(j, Native(Remove)), ts, k)
    ensures k.engine.out.accepted == j.engine.out.accepted
  {
    ChainHolds(j);
    ClosedReaches(JsApply(j, Native(Remove)), ts, k);
  }
}
