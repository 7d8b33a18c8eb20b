/**
 Shutdown always completes. Once the close signal is up, every action of the reader and of the
 writer uses up a measure that nothing else refills, and a task that has not finished always
 has an action it can take.
 */
module StreamShutdown {
  import opened Framing
  import opened Totals
  import opened StreamEngine
  import opened StreamInvariants
  import opened StreamSafety

  // ---------------------------------------------------------------------------------------
  // The reader
  // ---------------------------------------------------------------------------------------

  const FRAME_LIMIT: nat := HEADER_BYTES + MAX_FRAME_BYTES

  /** Bytes the current frame read can still take in. */
  function BytesLeft(partial: seq<byte>): nat
    requires Incomplete(partial)
  {
    if |partial| < HEADER_BYTES then FRAME_LIMIT - |partial|
    else HEADER_BYTES + FromBigEndian(partial[..HEADER_BYTES]) - |partial|
  }

  /** How many more actions a reader at `pc` can take once the signal is up. */
  function ReaderMeasure(pc: ReaderPc): nat
    requires Incomplete(PartialIn(pc))
  {
    match pc
    case RShutdown(p) => 5 - p.Rank()
    case REnding(_) => 6
    case RBorrowing(_) => 7
    case RParked(_, _) => 8
    case RPolling(_, _) => 9
    case RSelect(partial) => 8 + BytesLeft(partial)
    case RNotifying => 9 + FRAME_LIMIT
    case RLocking(_, _) => 10 + FRAME_LIMIT
    case RCreating(_) => 11 + FRAME_LIMIT
  }

  /** Frames a reader at `pc` can still push once the signal is up: one, if it was already past the check. */
  function PushesLeft(pc: ReaderPc): nat {
    if pc.RCreating? || pc.RLocking? then 1 else 0
  }

  lemma ReadUsesBytes(partial: seq<byte>, more: seq<byte>)
    requires Incomplete(partial) && 0 < |more| <= Need(partial)
    ensures var pc := AfterBytes(partial + more);
            && Incomplete(PartialIn(pc))
            && ReaderMeasure(pc) < ReaderMeasure(RSelect(partial))
            && PushesLeft(pc) == 0
  {
    AfterBytesDecodes(partial, more);
    if |partial| >= HEADER_BYTES {
      assert (partial + more)[..HEADER_BYTES] == partial[..HEADER_BYTES];
    }
  }

  lemma ReaderActionUsesMeasure(b: Inbound, g: Signal, t: ReaderAction)
    requires ReaderGuard(b, g, t) && g.watch.value && Incomplete(PartialIn(b.pc))
    ensures var b' := ReaderApply(b, g, t);
            && Incomplete(PartialIn(b'.pc))
            && ReaderMeasure(b'.pc) < ReaderMeasure(b.pc)
            && |b'.pushed| + PushesLeft(b'.pc) <= |b.pushed| + PushesLeft(b.pc)
  {
    if t.ReaderRead? {
      ReadUsesBytes(b.pc.partial, b.rcvd[b.consumed..b.consumed + t.n]);
    }
  }

  // ---------------------------------------------------------------------------------------
  // The writer
  // ---------------------------------------------------------------------------------------

  /** A `send` call already past its look at the closed flag may still add one frame. */
  function Committed(pc: SendPc): nat {
    if pc.SAcquiring? || pc.STrying? then 1 else 0
  }

  /** More than the actions one queued frame can cost the writer. */
  const FRAME_COST: nat := FRAME_LIMIT + 4

  function WriterStage(pc: WriterPc): nat
    requires pc.WWriting? ==> pc.offset <= |Encode(pc.frame)|
  {
    match pc
    case WShutdown(p) => 5 - p.Rank()
    case WEnding(_) => 6
    case WSelect => 7
    case WWriting(f, offset) => 8 + |Encode(f)| - offset
  }

  /** How many more actions the writer can take once the signal is up. */
  function WriterMeasure(o: Outbound, sends: seq<SendPc>): nat
    requires OffsetOk(o)
  {
    FRAME_COST * (|o.queue| + Total(sends, Committed)) + WriterStage(o.pc)
  }

  lemma CostShrinks(a: nat, b: nat)
    requires a <= b
    ensures FRAME_COST * a <= FRAME_COST * b
    ensures a < b ==> FRAME_COST * a + FRAME_COST <= FRAME_COST * b
  {
  }

  lemma WriterActionUsesMeasure(o: Outbound, g: Signal, sends: seq<SendPc>, t: WriterAction)
    requires WriterGuard(o, g, t) && g.watch.value && OffsetOk(o)
    ensures OffsetOk(WriterApply(o, g, t))
    ensures WriterMeasure(WriterApply(o, g, t), sends) < WriterMeasure(o, sends)
  {
    var o', c := WriterApply(o, g, t), Total(sends, Committed);
    assert |o'.queue| <= |o.queue|;
    CostShrinks(|o'.queue| + c, |o.queue| + c);
  }

  /** Once `closed` is set, no `send` action adds to what the writer may still have to do. */
  lemma SendAddsNothing(sends: seq<SendPc>, o: Outbound, g: Signal, handle: HandlePc, t: SendAction)
    requires SendGuard(sends, t) && g.closed
    ensures |SendChannel(sends, o, t).queue| + Total(SendCalls(sends, o, g, handle, t), Committed)
         <= |o.queue| + Total(sends, Committed)
  {
    var sends' := SendCalls(sends, o, g, handle, t);
    match t {
      case SendBegin(payload) => TotalAppend(sends, sends'[|sends|], Committed);
      case SendCheck(i) => TotalUpdate(sends, i, sends'[i], Committed);
      case SendAcquire(i) => TotalUpdate(sends, i, sends'[i], Committed);
      case SendTry(i) => TotalUpdate(sends, i, sends'[i], Committed);
    }
  }

  // ---------------------------------------------------------------------------------------
  // One step
  // ---------------------------------------------------------------------------------------

  predicate ByReader(t: Step) {
    t.Read? || (t.Shutdown? && t.who == Reader)
  }

  predicate ByWriter(t: Step) {
    t.Write? || (t.Shutdown? && t.who == Writer)
  }

  predicate Measured(s: State) {
    OffsetOk(s.out) && Incomplete(PartialIn(s.inb.pc))
  }

  function Left(s: State): nat
    requires Measured(s)
  {
    ReaderMeasure(s.inb.pc) + WriterMeasure(s.out, s.sends)
  }

  /** The measure is used up by at least `n`, and the reader's push allowance is not refilled. */
  predicate Uses(s: State, s': State, n: nat)
    requires Measured(s)
  {
    && Measured(s')
    && Left(s') + n <= Left(s)
    && |s'.inb.pushed| + PushesLeft(s'.inb.pc) <= |s.inb.pushed| + PushesLeft(s.inb.pc)
  }

  /** The writer's side of a closing action. */
  lemma ClosingUsesWriter(s: State, who: Actor, pick: nat)
    requires OffsetOk(s.out) && Enabled(s, Shutdown(who, pick))
    ensures var s' := Apply(s, Shutdown(who, pick));
            && OffsetOk(s'.out)
            && s'.sends == s.sends
            && WriterMeasure(s'.out, s'.sends) + (if who == Writer then 1 else 0) <= WriterMeasure(s.out, s.sends)
  {
    var s' := Apply(s, Shutdown(who, pick));
    assert s'.sends == s.sends;
    if who == Writer {
      var c := Total(s.sends, Committed);
      assert s'.out.pc == WShutdown(s.out.pc.pc.Next());
      assert |s'.out.queue| <= |s.out.queue|;
      CostShrinks(|s'.out.queue| + c, |s.out.queue| + c);
    } else {
      assert s'.out == s.out;
    }
  }

  lemma ClosingUsesMeasure(s: State, who: Actor, pick: nat)
    requires Measured(s) && Enabled(s, Shutdown(who, pick))
    ensures Uses(s, Apply(s, Shutdown(who, pick)), if who == Closer then 0 else 1)
  {
    var s' := Apply(s, Shutdown(who, pick));
    ClosingInbound(s, who, pick);
    ClosingUsesWriter(s, who, pick);
    if who == Reader {
      assert s'.inb.pc == RShutdown(s.inb.pc.pc.Next());
    } else {
      assert s'.inb == s.inb || s'.inb == BroadcastCapacity(s.inb);
    }
  }

  lemma PollUsesNothing(s: State, p: PollAction)
    requires Measured(s) && Enabled(s, Poll(p))
    ensures Uses(s, Apply(s, Poll(p)), 0)
  {
    var b, b' := s.inb, Apply(s, Poll(p)).inb;
    assert b'.pc == b.pc || (b'.pc.RParked? && b.pc.RParked?);
  }

  lemma SendKeepsStage(sends: seq<SendPc>, o: Outbound, c: SendAction)
    requires SendGuard(sends, c)
    ensures SendChannel(sends, o, c).pc == o.pc
  {
  }

  /** Less to write at the same stage is a smaller measure. */
  lemma FewerFramesMeasureLess(o: Outbound, sends: seq<SendPc>, o': Outbound, sends': seq<SendPc>)
    requires OffsetOk(o) && o'.pc == o.pc
    requires |o'.queue| + Total(sends', Committed) <= |o.queue| + Total(sends, Committed)
    ensures WriterMeasure(o', sends') <= WriterMeasure(o, sends)
  {
    CostShrinks(|o'.queue| + Total(sends', Committed), |o.queue| + Total(sends, Committed));
  }

  lemma SendKeepsMeasure(sends: seq<SendPc>, o: Outbound, g: Signal, handle: HandlePc, c: SendAction)
    requires SendGuard(sends, c) && g.closed && OffsetOk(o)
    ensures OffsetOk(SendChannel(sends, o, c))
    ensures WriterMeasure(SendChannel(sends, o, c), SendCalls(sends, o, g, handle, c)) <= WriterMeasure(o, sends)
  {
    SendKeepsStage(sends, o, c);
    SendAddsNothing(sends, o, g, handle, c);
    FewerFramesMeasureLess(o, sends, SendChannel(sends, o, c), SendCalls(sends, o, g, handle, c));
  }

  lemma SendUsesNothing(s: State, c: SendAction)
    requires Measured(s) && s.sig.closed && Enabled(s, Send(c))
    ensures Uses(s, Apply(s, Send(c)), 0)
  {
    SendKeepsMeasure(s.sends, s.out, s.sig, s.handle, c);
    assert Apply(s, Send(c)).inb == s.inb;
  }

  /** The heart of it: task actions use the measure up and nothing refills it. */
  lemma StepUsesMeasure(s: State, t: Step)
    requires Measured(s) && s.sig.watch.value && s.sig.closed && Enabled(s, t)
    ensures Uses(s, Apply(s, t), if ByReader(t) || ByWriter(t) then 1 else 0)
  {
    match t {
      case Write(w) => WriterActionUsesMeasure(s.out, s.sig, s.sends, w);
      case Read(r, pick) => ReaderActionUsesMeasure(s.inb, s.sig, r);
      case Shutdown(who, pick) => ClosingUsesMeasure(s, who, pick);
      case Send(c) => SendUsesNothing(s, c);
      case Poll(p) => PollUsesNothing(s, p);
      case _ =>
    }
  }

  lemma SignalStaysUp(s: State, t: Step)
    requires s.sig.watch.value && Enabled(s, t)
    ensures Apply(s, t).sig.watch.value
  {
  }

  // ---------------------------------------------------------------------------------------
  // Whole runs
  // ---------------------------------------------------------------------------------------

  function TaskSteps(ts: seq<Step>): nat {
    if ts == [] then 0 else (if ByReader(ts[0]) || ByWriter(ts[0]) then 1 else 0) + TaskSteps(ts[1..])
  }

  lemma {:induction false} RunUsesMeasure(s: State, ts: seq<Step>, t: State)
    requires Reachable(s) && s.sig.watch.value && Reaches(s, ts, t)
    ensures Inv(s) && Inv(t) && t.sig.watch.value
    ensures TaskSteps(ts) + Left(t) <= Left(s)
    ensures |t.inb.pushed| + PushesLeft(t.inb.pc) <= |s.inb.pushed| + PushesLeft(s.inb.pc)
    decreases |ts|
  {
    InvReachable(s);
    if ts != [] {
      ReachableStep(s, ts[0]);
      SignalStaysUp(s, ts[0]);
      StepUsesMeasure(s, ts[0]);
      RunUsesMeasure(Apply(s, ts[0]), ts[1..], t);
    }
  }

  /**
   From any state in which the signal is up, both tasks together take at most `Left(s)` more
   actions in any continuation, and the reader pushes at most one more frame.
   */
  lemma ShutdownIsBounded(s: State, ts: seq<Step>, t: State)
    requires Reachable(s) && s.sig.watch.value && Reaches(s, ts, t)
    ensures Inv(s) && TaskSteps(ts) <= Left(s)
    ensures |t.inb.pushed| <= |s.inb.pushed| + 1
  {
    RunUsesMeasure(s, ts, t);
  }

  /** The bound in plain numbers: the reader's share is one frame, the writer's is per queued frame. */
  lemma ShutdownBound(s: State)
    requires Measured(s)
    ensures Left(s) <= 2 * FRAME_LIMIT + 19 + FRAME_COST * (|s.out.queue| + Total(s.sends, Committed))
  {
  }

  lemma PickExists(polls: seq<PollPc>) returns (pick: nat)
    ensures PickOk(polls, pick)
  {
    pick := 0;
    if Sleeping(polls) {
      pick :| 0 <= pick < |polls| && polls[pick] == PParked(false);
    }
  }

  /** An unfinished reader can act, or some call holds the inbox lock and can release it. */
  lemma ReaderCanAct(s: State) returns (t: Step)
    requires Reachable(s) && s.sig.watch.value && s.inb.pc != RShutdown(Finished)
    ensures Enabled(s, t)
    ensures ByReader(t) || (t.Poll? && t.p.PollSignal?)
  {
    InvReachable(s);
    var pick := PickExists(s.data.polls);
    match s.inb.pc {
      case RSelect(_) => t := Read(ReaderChanged, pick);
      case RBorrowing(_) => t := Read(ReaderBorrow, pick);
      case RCreating(_) => t := Read(ReaderCreate, pick);
      case RLocking(_, _) =>
        if InboxUnlocked(s.data.polls) {
          t := Read(ReaderTryPush, pick);
        } else {
          var i :| 0 <= i < |s.data.polls| && s.data.polls[i].PSignalling?;
          t := Poll(PollSignal(i));
        }
      case RPolling(_, _) => t := Read(ReaderChanged, pick);
      case RParked(_, _) => t := Read(ReaderChanged, pick);
      case RNotifying => t := Read(ReaderNotify, pick);
      case REnding(_) => t := Read(ReaderEnd, pick);
      case RShutdown(_) => t := Shutdown(Reader, pick);
    }
  }

  /** An unfinished writer can act. */
  lemma WriterCanAct(s: State) returns (t: Step)
    requires Reachable(s) && s.sig.watch.value && s.out.pc != WShutdown(Finished)
    ensures Enabled(s, t) && ByWriter(t)
  {
    InvReachable(s);
    var pick := PickExists(s.data.polls);
    match s.out.pc {
      case WSelect => t := Write(WriterChanged);
      case WWriting(_, _) => t := Write(WriterChanged);
      case WEnding(_) => t := Write(WriterEnd);
      case WShutdown(_) => t := Shutdown(Writer, pick);
    }
  }

  /** Nothing is left to do for either task, nor for a call that holds the inbox lock. */
  ghost predicate AtRest(s: State) {
    forall t: Step :: Enabled(s, t) ==> !ByReader(t) && !ByWriter(t) && !(t.Poll? && t.p.PollSignal?)
  }

  /**
   Shutdown always completes: whatever happens after the signal is up, only boundedly many task
   actions remain, and when there are none left both tasks have finished.
   */
  lemma ShutdownCompletes(s: State, ts: seq<Step>, t: State)
    requires Reachable(s) && s.sig.watch.value && Reaches(s, ts, t)
    ensures Inv(s) && TaskSteps(ts) <= Left(s)
    ensures AtRest(t) ==> t.out.pc == WShutdown(Finished) && t.inb.pc == RShutdown(Finished)
  {
    ShutdownIsBounded(s, ts, t);
    RunUsesMeasure(s, ts, t);
    ReachableOnward(s, ts, t);
    if AtRest(t) {
      if t.inb.pc != RShutdown(Finished) { var u := ReaderCanAct(t); }
      if t.out.pc != WShutdown(Finished) { var u := WriterCanAct(t); }
    }
  }

  /** Whoever closes first, the other task is told: the signal is up once any actor is past it. */
  lemma AnyEndingRaisesTheSignal(s: State, who: Actor)
    requires Reachable(s) && Ends(s, who) && PcOf(s, who).Rank() >= NotifyData.Rank()
    ensures s.sig.watch.value && s.sig.closed
    ensures WriterLooping(s.out) ==> Enabled(s, Write(WriterChanged))
    ensures (s.inb.pc.RSelect? || s.inb.pc.RPolling? || s.inb.pc.RParked?) ==> Enabled(s, Read(ReaderChanged, 0))
  {
    InvReachable(s);
  }

  /** The broadcast of an ending reaches the reader wherever it waits for room, without leaving a permit behind. */
  lemma BroadcastReachesTheReader(s: State, who: Actor, pick: nat)
    requires Reachable(s) && Enabled(s, Shutdown(who, pick)) && PcOf(s, who) == NotifyCapacity
    ensures var t := Apply(s, Shutdown(who, pick));
            && (s.inb.pc.RParked? ==> t.inb.pc.RParked? && t.inb.pc.wake != Asleep)
            && (s.inb.pc.RLocking? ==> t.inb.pc.RLocking? && t.inb.pc.calls < t.inb.calls)
            && (s.inb.pc.RPolling? ==>
                  Enabled(t, Read(ReaderPollCapacity, 0)) && Apply(t, Read(ReaderPollCapacity, 0)).inb.pc.RBorrowing?)
            && t.inb.permit == s.inb.permit
  {
    InvReachable(s);
  }

  /** A wake-up meant for one waiter is not lost when the closing reader abandons its wait; one of a broadcast is not passed on. */
  lemma AbandonedWakeupIsKept(s: State, pick: nat)
    requires Reachable(s) && s.inb.pc.RParked? && Enabled(s, Read(ReaderChanged, pick))
    ensures Apply(s, Read(ReaderChanged, pick)).inb.permit <==> s.inb.permit || s.inb.pc.wake == ByOne
    ensures Apply(s, Read(ReaderChanged, pick)).inb.pc == REnding(true)
  {
    InvReachable(s);
  }
}
