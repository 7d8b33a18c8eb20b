/**
 Exactly when `next_message` returns nothing although the stream is open and its time is not
 up: with one call at a time, and with calls side by side.
 */
module StreamEarlyReturn {
  import opened Framing
  import opened Totals
  import opened StreamEngine
  import opened StreamInvariants
  import opened StreamSafety
  import opened StreamArrivals
  import opened StreamCalls
  import opened StreamConsumers

  // ---------------------------------------------------------------------------------------
  // One call at a time
  // ---------------------------------------------------------------------------------------

  /** The time of call `i` does not run out; that of other calls may. */
  predicate InTime(ts: seq<Step>, i: nat) {
    forall k | 0 <= k < |ts| :: !(ts[k].Poll? && ts[k].p.PollTimeout? && ts[k].p.i == i)
  }

  /** Call `i` can come back empty-handed from an open stream without its timeout running out. */
  ghost predicate ReturnsEarly(s: State, i: nat) {
    exists ts: seq<Step>, t: State ::
      && Reaches(s, ts, t) && InTime(ts, i)
      && !t.sig.closed && i < |t.data.polls| && t.data.polls[i] == PReturned(Nothing)
  }

  /** A call that came with time to wait, found nothing yet, and is not asleep. */
  predicate AboutToWait(pc: PollPc) {
    pc == PTrying(true) || pc == PChecking(true) || pc == PWaiting
  }

  /** Any notification outstanding for call `i` is backed by a queued frame. */
  predicate Backed(s: State, i: nat)
    requires i < |s.data.polls|
  {
    var frames := s.inb.inbox.frames != [];
    match s.data.polls[i]
    case PTrying(wait) => wait && (s.data.permit || s.inb.pc.RNotifying? ==> frames)
    case PChecking(wait) => wait && (s.data.permit || s.inb.pc.RNotifying? ==> frames)
    case PWaiting => s.data.permit || s.inb.pc.RNotifying? ==> frames
    case PParked(woken) => woken || s.inb.pc.RNotifying? ==> frames
    case PRetrying => frames
    case PSignalling(_) => true
    case PReturned(o) => o != Nothing
  }

  lemma BackedStepPoll(s: State, p: PollAction, i: nat)
    requires s.solo && OneAtATime(s.data.polls) && i < |s.data.polls| && Enabled(s, Poll(p))
    requires !(p.PollTimeout? && p.i == i)
    requires Backed(s, i) && !s.sig.closed
    ensures Backed(Apply(s, Poll(p)), i)
  {
  }

  lemma OpenMeansNotClosing(s: State, t: Step)
    requires SignalInv(s.out, s.inb, s.sig, s.handle) && Enabled(s, t)
    requires !s.sig.closed && !Apply(s, t).sig.closed
    ensures !t.Shutdown?
  {
  }

  lemma BackedStep(s: State, t: Step, i: nat)
    requires s.solo && OneAtATime(s.data.polls) && i < |s.data.polls|
    requires Enabled(s, t) && InTime([t], i) && !t.Shutdown? && Backed(s, i) && !s.sig.closed
    ensures i < |Apply(s, t).data.polls| && Backed(Apply(s, t), i)
  {
    assert [t][0] == t;
    match t {
      case Poll(p) => BackedStepPoll(s, p, i);
      case _ =>
    }
  }

  lemma ClosedStays(s: State, t: Step)
    requires Enabled(s, t) && s.sig.closed
    ensures Apply(s, t).sig.closed
  {
  }

  lemma {:induction false} OpenBefore(s: State, ts: seq<Step>, t: State)
    requires Reaches(s, ts, t) && !t.sig.closed
    ensures !s.sig.closed
    decreases |ts|
  {
    if ts != [] {
      OpenBefore(Apply(s, ts[0]), ts[1..], t);
      if s.sig.closed { ClosedStays(s, ts[0]); }
    }
  }

  lemma OpenAtFirst(s: State, ts: seq<Step>, t: State)
    requires Reaches(s, ts, t) && !t.sig.closed && ts != []
    ensures !s.sig.closed && !Apply(s, ts[0]).sig.closed
  {
    OpenBefore(s, ts, t);
    OpenBefore(Apply(s, ts[0]), ts[1..], t);
  }

  /** One step of a run that leaves the stream open and runs out of no timeout. */
  lemma BackedOpenStep(s: State, t: Step, i: nat)
    requires Reachable(s) && s.solo && i < |s.data.polls| && Backed(s, i)
    requires Enabled(s, t) && InTime([t], i) && !s.sig.closed && !Apply(s, t).sig.closed
    ensures i < |Apply(s, t).data.polls| && Backed(Apply(s, t), i)
  {
    InvReachable(s);
    OpenMeansNotClosing(s, t);
    BackedStep(s, t, i);
  }

  lemma {:induction false} BackedOnward(s: State, ts: seq<Step>, t: State, i: nat)
    requires Reachable(s) && s.solo && i < |s.data.polls| && Backed(s, i)
    requires Reaches(s, ts, t) && InTime(ts, i) && !t.sig.closed
    ensures i < |t.data.polls| && Backed(t, i)
    decreases |ts|
  {
    if ts != [] {
      OpenAtFirst(s, ts, t);
      BackedOpenStep(s, ts[0], i);
      ReachableStep(s, ts[0]);
      BackedOnward(Apply(s, ts[0]), ts[1..], t, i);
    }
  }

  /** A stored permit left over from a frame already taken ends the wait at once. */
  lemma StalePermitReturnsEarly(s: State, i: nat)
    requires i < |s.data.polls| && s.data.polls[i] == PWaiting && InboxUnlocked(s.data.polls)
    requires !s.sig.closed && s.inb.inbox.frames == [] && s.data.permit
    ensures ReturnsEarly(s, i)
  {
    var a, b := Poll(PollWaiter(i)), Poll(PollPop(i));
    assert InboxUnlocked(Apply(s, a).data.polls);
    var t := Apply(Apply(s, a), b);
    TwoSteps(s, a, b);
    assert t.data.polls[i] == PReturned(Nothing) && InTime([a, b], i);
  }

  /** Call `i` is parked, and the reader's late notification wakes it. */
  lemma LateNoticeWakes(s: State, i: nat)
    requires i < |s.data.polls| && s.data.polls[i] == PWaiting
    requires !s.data.permit && s.inb.pc.RNotifying?
    ensures Reaches(s, [Poll(PollWaiter(i)), Read(ReaderNotify, i)],
                    s.(inb := s.inb.(pc := RSelect([])), data := Data(false, s.data.polls[i := PParked(true)])))
  {
    var s1 := Apply(s, Poll(PollWaiter(i)));
    assert SleepingAt(s1.data.polls, i);
    assert s1.data.polls[i := PParked(true)] == s.data.polls[i := PParked(true)];
    TwoSteps(s, Poll(PollWaiter(i)), Read(ReaderNotify, i));
  }

  /** A woken call that finds the inbox empty returns nothing. */
  lemma WokenFindsNothing(s: State, i: nat)
    requires i < |s.data.polls| && s.data.polls[i] == PParked(true) && s.inb.inbox.frames == []
    requires InboxUnlocked(s.data.polls)
    ensures Reaches(s, [Poll(PollWoken(i)), Poll(PollPop(i))],
                    s.(data := s.data.(polls := s.data.polls[i := PReturned(Nothing)])))
  {
    var s1 := Apply(s, Poll(PollWoken(i)));
    assert InboxUnlocked(s1.data.polls);
    assert s1.data.polls[i := PReturned(Nothing)] == s.data.polls[i := PReturned(Nothing)];
    TwoSteps(s, Poll(PollWoken(i)), Poll(PollPop(i)));
  }

  /** So does a notification still on its way for a frame already taken. */
  lemma LateNoticeReturnsEarly(s: State, i: nat)
    requires i < |s.data.polls| && s.data.polls[i] == PWaiting && InboxUnlocked(s.data.polls)
    requires !s.sig.closed && s.inb.inbox.frames == [] && !s.data.permit && s.inb.pc.RNotifying?
    ensures ReturnsEarly(s, i)
  {
    var polls := s.data.polls;
    var m := s.(inb := s.inb.(pc := RSelect([])), data := Data(false, polls[i := PParked(true)]));
    LateNoticeWakes(s, i);
    assert InboxUnlocked(m.data.polls);
    WokenFindsNothing(m, i);
    ReachesTrans(s, [Poll(PollWaiter(i)), Read(ReaderNotify, i)], m, [Poll(PollWoken(i)), Poll(PollPop(i))],
                 m.(data := m.data.(polls := m.data.polls[i := PReturned(Nothing)])));
  }

  /** With an empty inbox and the stream open, the call gets as far as its waiter. */
  lemma CallComesToWait(s: State, i: nat) returns (ts: seq<Step>)
    requires i < |s.data.polls| && AboutToWait(s.data.polls[i]) && InboxUnlocked(s.data.polls)
    requires !s.sig.closed && s.inb.inbox.frames == []
    ensures Reaches(s, ts, s.(data := s.data.(polls := s.data.polls[i := PWaiting]))) && NoTimeout(ts)
  {
    var polls := s.data.polls;
    if polls[i].PTrying? {
      ts := [Poll(PollPop(i)), Poll(PollCheck(i))];
      assert polls[i := PChecking(true)][i := PWaiting] == polls[i := PWaiting];
      TwoSteps(s, ts[0], ts[1]);
    } else if polls[i].PChecking? {
      ts := [Poll(PollCheck(i))];
      ReachesOne(s, ts[0]);
    } else {
      ts := [];
      assert polls[i := PWaiting] == polls;
    }
  }

  lemma OutstandingNoticeReturnsEarly(s: State, i: nat)
    requires i < |s.data.polls| && AboutToWait(s.data.polls[i]) && InboxUnlocked(s.data.polls)
    requires !s.sig.closed && s.inb.inbox.frames == [] && (s.data.permit || s.inb.pc.RNotifying?)
    ensures ReturnsEarly(s, i)
  {
    var ts := CallComesToWait(s, i);
    var m := s.(data := s.data.(polls := s.data.polls[i := PWaiting]));
    if s.data.permit { StalePermitReturnsEarly(m, i); } else { LateNoticeReturnsEarly(m, i); }
    EarlyFromLater(s, ts, m, i);
  }

  /**
   With one call at a time, a call with time to wait can return nothing early, with the stream
   open and its time not up, exactly when the inbox is empty and some earlier notification is
   still outstanding. That can be judged when the call begins, and at any moment until it waits.
   */
  lemma ReturnsEarlyExactlyOnStaleNotice(s: State, i: nat)
    requires Reachable(s) && s.solo && i < |s.data.polls| && AboutToWait(s.data.polls[i]) && !s.sig.closed
    ensures ReturnsEarly(s, i) <==> s.inb.inbox.frames == [] && (s.data.permit || s.inb.pc.RNotifying?)
  {
    if s.inb.inbox.frames == [] && (s.data.permit || s.inb.pc.RNotifying?) {
      OthersAreDone(s, i);
      OutstandingNoticeReturnsEarly(s, i);
    } else {
      BackedCallHoldsOut(s, i);
    }
  }

  lemma OthersAreDone(s: State, i: nat)
    requires Reachable(s) && s.solo && i < |s.data.polls| && AboutToWait(s.data.polls[i])
    ensures InboxUnlocked(s.data.polls)
  {
    InvReachable(s);
  }

  lemma BackedCallHoldsOut(s: State, i: nat)
    requires Reachable(s) && s.solo && i < |s.data.polls| && Backed(s, i)
    ensures !ReturnsEarly(s, i)
  {
    if ReturnsEarly(s, i) {
      var ts: seq<Step>, t: State :|
        && Reaches(s, ts, t) && InTime(ts, i)
        && !t.sig.closed && i < |t.data.polls| && t.data.polls[i] == PReturned(Nothing);
      BackedOnward(s, ts, t, i);
      assert false;
    }
  }

  /**
   Such a state is reached when a frame that was announced is taken without the announcement: a
   first call pops it at once, and the permit it left is still there when a second call waits.
   */
  lemma StaleNoticeIsReachable(f: Frame) returns (s: State)
    ensures Reachable(s) && s.solo && !s.sig.closed && s.inb.popped == [f]
    ensures s.data == Data(true, [PReturned(Message(f)), PWaiting]) && s.inb.inbox.frames == []
    ensures ReturnsEarly(s, 1)
  {
    var s0 := OpenStream(true);
    var s1 := OneFrameArrives(s0, f);
    var ts := PollIsARun(s1);
    var s2 := AfterPoll(s1);
    ReachableOnward(s1, ts, s2);
    assert s2.data.polls == [PReturned(Message(f))];
    s := CallStartsWaiting(s2);
    assert s.data.polls == [PReturned(Message(f)), PWaiting];
    StalePermitReturnsEarly(s, 1);
  }

  lemma OneFrameArrives(s: State, f: Frame) returns (t: State)
    requires Reachable(s) && s.inb == INITIAL_INBOUND && !s.sig.watch.value
    requires InboxUnlocked(s.data.polls) && !Sleeping(s.data.polls)
    ensures Reachable(t) && t == s.(inb := t.inb, data := s.data.(permit := true))
    ensures t.inb.inbox.frames == [f] && t.inb.popped == [] && t.inb.pc == RSelect([])
  {
    ReachableStep(s, Deliver(Encode(f)));
    var m := s.(inb := s.inb.(rcvd := Encode(f)));
    assert INITIAL_INBOUND.rcvd + Encode(f) == Encode(f);
    assert m.inb.rcvd[0..] == Encode(f);
    var ts := DeliveredFrameArrives(m, f);
    t := WithArrived(m, f);
    ReachableOnward(m, ts, t);
  }

  // ---------------------------------------------------------------------------------------
  // Calls side by side
  // ---------------------------------------------------------------------------------------

  /** A call that has not been woken: it waits, is about to, or has a frame. */
  predicate Unhurried(pc: PollPc) {
    AboutToWait(pc) || pc == PParked(false) || pc.PSignalling? || (pc.PReturned? && pc.outcome != Nothing)
  }

  /** Some other call has been woken and has not come back to the inbox yet. */
  predicate OtherWoken(polls: seq<PollPc>, i: nat) {
    exists k | 0 <= k < |polls| :: k != i && polls[k] == PParked(true)
  }

  /** Nothing that could wake call `i` is there or can still come. */
  ghost predicate Unnoticed(s: State, i: nat)
    requires s.inb.consumed <= |s.inb.rcvd|
  {
    && i < |s.data.polls| && Unhurried(s.data.polls[i])
    && !s.data.permit && !s.inb.pc.RNotifying? && !CanPush(s.inb, s.sig.watch.value)
    && !OtherWoken(s.data.polls, i)
  }

  lemma UnnoticedPoll(d: Data, b: Inbound, g: Signal, handle: HandlePc, solo: bool, p: PollAction, i: nat)
    requires PollGuard(d, solo, p) && !(p.PollTimeout? && p.i == i) && !d.permit && !g.closed
    requires i < |d.polls| && Unhurried(d.polls[i]) && !OtherWoken(d.polls, i)
    ensures var d' := PollData(d, b, g, handle, solo, p);
            !d'.permit && i < |d'.polls| && Unhurried(d'.polls[i]) && !OtherWoken(d'.polls, i)
  {
  }

  lemma ReaderDoesNotNotify(b: Inbound, g: Signal, r: ReaderAction)
    requires b.consumed <= |b.rcvd| && ReaderGuard(b, g, r) && !b.pc.RNotifying? && !CanPush(b, g.watch.value)
    ensures !ReaderApply(b, g, r).pc.RNotifying? && !r.ReaderNotify?
  {
  }

  lemma UnnoticedStep(s: State, t: Step, i: nat)
    requires Inv(s) && Unnoticed(s, i) && Enabled(s, t) && InTime([t], i) && !t.Shutdown? && !s.sig.closed
    ensures Apply(s, t).inb.consumed <= |Apply(s, t).inb.rcvd| && Unnoticed(Apply(s, t), i)
  {
    assert [t][0] == t;
    SpentStays(s, t);
    match t {
      case Read(r, pick) => ReaderDoesNotNotify(s.inb, s.sig, r);
      case Poll(p) => UnnoticedPoll(s.data, s.inb, s.sig, s.handle, s.solo, p, i);
      case _ =>
    }
  }

  lemma UnnoticedOpenStep(s: State, t: Step, i: nat)
    requires Reachable(s) && s.inb.consumed <= |s.inb.rcvd| && Unnoticed(s, i)
    requires Enabled(s, t) && InTime([t], i) && !s.sig.closed && !Apply(s, t).sig.closed
    ensures Apply(s, t).inb.consumed <= |Apply(s, t).inb.rcvd| && Unnoticed(Apply(s, t), i)
  {
    InvReachable(s);
    OpenMeansNotClosing(s, t);
    UnnoticedStep(s, t, i);
  }

  lemma {:induction false} UnnoticedOnward(s: State, ts: seq<Step>, t: State, i: nat)
    requires Reachable(s) && s.inb.consumed <= |s.inb.rcvd| && Unnoticed(s, i)
    requires Reaches(s, ts, t) && InTime(ts, i) && !t.sig.closed
    ensures i < |t.data.polls| && t.data.polls[i] != PReturned(Nothing)
    decreases |ts|
  {
    if ts != [] {
      OpenAtFirst(s, ts, t);
      UnnoticedOpenStep(s, ts[0], i);
      ReachableStep(s, ts[0]);
      UnnoticedOnward(Apply(s, ts[0]), ts[1..], t, i);
    }
  }

  predicate StillWoken(polls: seq<PollPc>, polls': seq<PollPc>) {
    forall k | 0 <= k < |polls| :: polls[k] == PParked(true) ==> k < |polls'| && polls'[k] == PParked(true)
  }

  /** What the other calls leave as it is: call `i`, the stored permit, and what the reader can do. */
  predicate Spared(s: State, t: State, i: nat) {
    && t == s.(inb := t.inb, data := t.data)
    && i < |s.data.polls| && i < |t.data.polls| && t.data.polls[i] == s.data.polls[i]
    && t.data.permit == s.data.permit && StillWoken(s.data.polls, t.data.polls)
    && t.inb.rcvd == s.inb.rcvd && t.inb.consumed == s.inb.consumed && t.inb.input == s.inb.input
    && (t.inb.pc == s.inb.pc || (t.inb.pc.RParked? && s.inb.pc.RParked?))
  }

  lemma SparedTrans(s: State, m: State, t: State, i: nat)
    requires Spared(s, m, i) && Spared(m, t, i)
    ensures Spared(s, t, i)
  {
    forall k | 0 <= k < |s.data.polls| && s.data.polls[k] == PParked(true)
      ensures k < |t.data.polls| && t.data.polls[k] == PParked(true)
    {
      assert m.data.polls[k] == PParked(true);
    }
  }

  lemma SparedCanPush(s: State, t: State, i: nat)
    requires Spared(s, t, i) && s.inb.consumed <= |s.inb.rcvd|
    ensures CanPush(t.inb, t.sig.watch.value) <==> CanPush(s.inb, s.sig.watch.value)
  {
    assert Unread(t.inb) == Unread(s.inb);
  }

  lemma SparedWoken(s: State, t: State, i: nat)
    requires Spared(s, t, i) && OtherWoken(s.data.polls, i)
    ensures OtherWoken(t.data.polls, i)
  {
    var k :| 0 <= k < |s.data.polls| && k != i && s.data.polls[k] == PParked(true);
    assert t.data.polls[k] == PParked(true);
  }

  function Locks(pc: PollPc): nat {
    if pc.PSignalling? then 1 else 0
  }

  lemma ReleaseSpares(s: State, k: nat, i: nat)
    requires i < |s.data.polls| && !s.data.polls[i].PSignalling? && k < |s.data.polls| && s.data.polls[k].PSignalling?
    ensures var m := Apply(s, Poll(PollSignal(k)));
            && Spared(s, m, i) && m.inb.inbox == s.inb.inbox
            && Total(m.data.polls, Locks) < Total(s.data.polls, Locks)
  {
    TotalUpdate(s.data.polls, k, Apply(s, Poll(PollSignal(k))).data.polls[k], Locks);
  }

  /** The calls that hold the inbox lock notify and let go of it. */
  lemma {:induction false} LockIsReleased(s: State, i: nat) returns (ts: seq<Step>, t: State)
    requires i < |s.data.polls| && !s.data.polls[i].PSignalling?
    ensures Reaches(s, ts, t) && NoTimeout(ts)
    ensures Spared(s, t, i) && InboxUnlocked(t.data.polls) && t.inb.inbox == s.inb.inbox
    decreases Total(s.data.polls, Locks)
  {
    if InboxUnlocked(s.data.polls) {
      ts, t := [], s;
    } else {
      var k :| 0 <= k < |s.data.polls| && s.data.polls[k].PSignalling?;
      var m := Apply(s, Poll(PollSignal(k)));
      ReleaseSpares(s, k, i);
      ReachesOne(s, Poll(PollSignal(k)));
      ts, t := LockIsReleased(m, i);
      SparedTrans(s, m, t, i);
      ReachesTrans(s, [Poll(PollSignal(k))], m, ts, t);
      ts := [Poll(PollSignal(k))] + ts;
    }
  }

  lemma PollSpares(s: State, i: nat)
    requires !s.solo && s.handle == Registered && InboxUnlocked(s.data.polls) && i < |s.data.polls|
    requires s.inb.inbox.frames != []
    ensures var m := AfterPoll(s);
            && Spared(s, m, i) && InboxUnlocked(m.data.polls)
            && |m.inb.inbox.frames| < |s.inb.inbox.frames|
  {
  }

  /** Further calls take whatever is in the inbox. */
  lemma {:induction false} InboxIsEmptied(s: State, i: nat) returns (ts: seq<Step>, t: State)
    requires !s.solo && s.handle == Registered && InboxUnlocked(s.data.polls) && i < |s.data.polls|
    ensures Reaches(s, ts, t) && NoTimeout(ts)
    ensures Spared(s, t, i) && InboxUnlocked(t.data.polls) && t.inb.inbox.frames == []
    decreases |s.inb.inbox.frames|
  {
    if s.inb.inbox.frames == [] {
      ts, t := [], s;
    } else {
      ts := PollIsARun(s);
      var m := AfterPoll(s);
      var us: seq<Step>;
      PollSpares(s, i);
      us, t := InboxIsEmptied(m, i);
      SparedTrans(s, m, t, i);
      ReachesTrans(s, ts, m, us, t);
      ts := ts + us;
    }
  }

  lemma EarlyFromLater(s: State, ts: seq<Step>, m: State, i: nat)
    requires Reaches(s, ts, m) && InTime(ts, i) && ReturnsEarly(m, i)
    ensures ReturnsEarly(s, i)
  {
    var us: seq<Step>, t: State :|
      && Reaches(m, us, t) && InTime(us, i)
      && !t.sig.closed && i < |t.data.polls| && t.data.polls[i] == PReturned(Nothing);
    ReachesTrans(s, ts, m, us, t);
    assert InTime(ts + us, i);
  }

  /** With the inbox unlocked and a notification outstanding, others take the frames and the call finds none. */
  lemma RobbedCallReturnsEarly(s: State, i: nat)
    requires !s.solo && s.handle == Registered && !s.sig.closed
    requires i < |s.data.polls| && AboutToWait(s.data.polls[i]) && InboxUnlocked(s.data.polls)
    requires s.data.permit || s.inb.pc.RNotifying?
    ensures ReturnsEarly(s, i)
  {
    var ts, t := InboxIsEmptied(s, i);
    OutstandingNoticeReturnsEarly(t, i);
    EarlyFromLater(s, ts, t, i);
  }

  /** A frame that can still come brings the notification. */
  lemma ComingFrameReturnsEarly(s: State, i: nat)
    requires Reachable(s) && !s.solo && s.handle == Registered && !s.sig.closed
    requires i < |s.data.polls| && AboutToWait(s.data.polls[i]) && InboxUnlocked(s.data.polls)
    requires !s.inb.pc.RNotifying? && s.inb.consumed <= |s.inb.rcvd| && CanPush(s.inb, s.sig.watch.value)
    ensures ReturnsEarly(s, i)
  {
    var ts, m := InboxIsEmptied(s, i);
    SparedCanPush(s, m, i);
    ReachableOnward(s, ts, m);
    InvReachable(m);
    var us, t := PushIsReached(m);
    RobbedCallReturnsEarly(t, i);
    EarlyFromLater(m, us, t, i);
    EarlyFromLater(s, ts, m, i);
  }

  /** The waiting call parks, the woken one's time runs out, and its wake-up goes to the waiting call. */
  lemma WakeupIsHandedOn(s: State, i: nat, k: nat)
    requires i < |s.data.polls| && s.data.polls[i] == PWaiting && !s.data.permit
    requires k < |s.data.polls| && k != i && s.data.polls[k] == PParked(true)
    ensures Reaches(s, [Poll(PollWaiter(i)), Poll(PollTimeout(k, i))],
                    s.(data := s.data.(polls := s.data.polls[k := PRetrying][i := PParked(true)])))
  {
    var s1 := s.(data := s.data.(polls := s.data.polls[i := PParked(false)]));
    assert SleepingAt(s1.data.polls[k := PRetrying], i);
    assert s1.data.polls[k := PRetrying][i := PParked(true)] == s.data.polls[k := PRetrying][i := PParked(true)];
    TwoSteps(s, Poll(PollWaiter(i)), Poll(PollTimeout(k, i)));
  }

  lemma HandedOnWakeupReturnsEarly(s: State, i: nat, k: nat)
    requires i < |s.data.polls| && s.data.polls[i] == PWaiting && !s.data.permit && InboxUnlocked(s.data.polls)
    requires k < |s.data.polls| && k != i && s.data.polls[k] == PParked(true)
    requires !s.sig.closed && s.inb.inbox.frames == []
    ensures ReturnsEarly(s, i)
  {
    var ts, us := [Poll(PollWaiter(i)), Poll(PollTimeout(k, i))], [Poll(PollWoken(i)), Poll(PollPop(i))];
    var m := s.(data := s.data.(polls := s.data.polls[k := PRetrying][i := PParked(true)]));
    WakeupIsHandedOn(s, i, k);
    WokenFindsNothing(m, i);
    ReachesTrans(s, ts, m, us, m.(data := m.data.(polls := m.data.polls[i := PReturned(Nothing)])));
    assert InTime(ts + us, i);
  }

  /** Another call has been woken: the frames are taken, and it hands its wake-up on. */
  lemma OtherWokenReturnsEarly(s: State, i: nat)
    requires !s.solo && s.handle == Registered && !s.sig.closed && !s.data.permit
    requires i < |s.data.polls| && AboutToWait(s.data.polls[i]) && InboxUnlocked(s.data.polls)
    requires OtherWoken(s.data.polls, i)
    ensures ReturnsEarly(s, i)
  {
    var k :| 0 <= k < |s.data.polls| && k != i && s.data.polls[k] == PParked(true);
    var ts, t := InboxIsEmptied(s, i);
    var us := CallComesToWait(t, i);
    var m := t.(data := t.data.(polls := t.data.polls[i := PWaiting]));
    HandedOnWakeupReturnsEarly(m, i, k);
    EarlyFromLater(t, us, m, i);
    EarlyFromLater(s, ts, t, i);
  }

  /** With the inbox unlocked, each of the four is enough. */
  lemma NoticedReturnsEarly(s: State, i: nat)
    requires Reachable(s) && !s.solo && s.handle == Registered && !s.sig.closed
    requires i < |s.data.polls| && AboutToWait(s.data.polls[i]) && InboxUnlocked(s.data.polls)
    requires s.inb.consumed <= |s.inb.rcvd|
    requires s.data.permit || s.inb.pc.RNotifying? || CanPush(s.inb, s.sig.watch.value) || OtherWoken(s.data.polls, i)
    ensures ReturnsEarly(s, i)
  {
    if s.data.permit || s.inb.pc.RNotifying? {
      RobbedCallReturnsEarly(s, i);
    } else if CanPush(s.inb, s.sig.watch.value) {
      ComingFrameReturnsEarly(s, i);
    } else {
      OtherWokenReturnsEarly(s, i);
    }
  }

  lemma UnnoticedCallHoldsOut(s: State, i: nat)
    requires Reachable(s) && s.inb.consumed <= |s.inb.rcvd| && Unnoticed(s, i)
    ensures !ReturnsEarly(s, i)
  {
    if ReturnsEarly(s, i) {
      var ts: seq<Step>, t: State :|
        && Reaches(s, ts, t) && InTime(ts, i)
        && !t.sig.closed && i < |t.data.polls| && t.data.polls[i] == PReturned(Nothing);
      UnnoticedOnward(s, ts, t, i);
      assert false;
    }
  }

  lemma ConsumedWithin(s: State)
    requires Reachable(s)
    ensures s.inb.consumed <= |s.inb.rcvd|
  {
    InvReachable(s);
  }

  /**
   With calls side by side, a call with time to wait on a registered open stream can return nothing
   early exactly when a notification is outstanding, another frame can still come, or another call
   has been woken: whatever it is woken for, another call can take first, and a woken call whose
   time runs out passes its wake-up on.
   */
  lemma ReturnsEarlyExactlyWhenNoticed(s: State, i: nat)
    requires Reachable(s) && !s.solo && s.handle == Registered && !s.sig.closed
    requires i < |s.data.polls| && AboutToWait(s.data.polls[i])
    ensures s.inb.consumed <= |s.inb.rcvd|
    ensures ReturnsEarly(s, i) <==>
              s.data.permit || s.inb.pc.RNotifying? || CanPush(s.inb, s.sig.watch.value) || OtherWoken(s.data.polls, i)
  {
    ConsumedWithin(s);
    if s.data.permit || s.inb.pc.RNotifying? || CanPush(s.inb, s.sig.watch.value) || OtherWoken(s.data.polls, i) {
      var ts, m := LockIsReleased(s, i);
      ReachableOnward(s, ts, m);
      SparedCanPush(s, m, i);
      if OtherWoken(s.data.polls, i) { SparedWoken(s, m, i); }
      NoticedReturnsEarly(m, i);
      EarlyFromLater(s, ts, m, i);
    } else {
      UnnoticedCallHoldsOut(s, i);
    }
  }

  /**
   That it takes no more than a call woken and not back yet is reached: a frame wakes a sleeping
   call, another call takes it, and nothing else can come. If the woken call's time runs out
   before it looks, its wake-up ends the wait of a third call.
   */
  lemma HandedOnWakeupIsReachable(f: Frame) returns (s: State)
    ensures Reachable(s) && !s.solo && s.handle == Registered && !s.sig.closed
    ensures s.data == Data(false, [PParked(true), PReturned(Message(f)), PWaiting]) && s.inb.inbox.frames == []
    ensures !s.inb.pc.RNotifying? && s.inb.consumed <= |s.inb.rcvd| && !CanPush(s.inb, s.sig.watch.value)
    ensures ReturnsEarly(s, 2)
  {
    var s1 := FrameWakesSleeper(f);
    var ts := PollIsARun(s1);
    var s2 := AfterPoll(s1);
    ReachableOnward(s1, ts, s2);
    assert s2.data.polls == [PParked(true), PReturned(Message(f))];
    s := CallStartsWaiting(s2);
    assert s.data.polls == [PParked(true), PReturned(Message(f)), PWaiting];
    HandedOnWakeupReturnsEarly(s, 2, 0);
  }

  /** One call sleeps, the last frame of the transport arrives, and its notification wakes the call. */
  lemma FrameWakesSleeper(f: Frame) returns (s: State)
    ensures Reachable(s) && !s.solo && s.handle == Registered && !s.sig.closed
    ensures s.data == Data(false, [PParked(true)]) && s.inb.inbox.frames == [f]
    ensures s.inb.pc == RSelect([]) && s.inb.consumed <= |s.inb.rcvd| && !CanPush(s.inb, s.sig.watch.value)
  {
    var s0 := OpenStream(false);
    var s1 := CallStartsWaiting(s0);
    ReachableStep(s1, Poll(PollWaiter(0)));
    var s2 := Apply(s1, Poll(PollWaiter(0)));
    assert s2.data == Data(false, [PParked(false)]);
    var s3 := LastFramePushed(s2, f);
    assert SleepingAt(s3.data.polls, 0);
    ReachableStep(s3, Read(ReaderNotify, 0));
    s := Apply(s3, Read(ReaderNotify, 0));
    assert s.data.polls == [PParked(true)];
    NothingAheadAtTheEnd(s.inb);
  }

  /** All there will ever be in the transport is one frame. */
  lemma LastFrameDelivered(s: State, f: Frame) returns (t: State)
    requires Reachable(s) && s.inb == INITIAL_INBOUND
    ensures Reachable(t) && t == s.(inb := s.inb.(rcvd := Encode(f), input := Severed))
    ensures Unread(t.inb) == Encode(f)
  {
    ReachableStep(s, Deliver(Encode(f)));
    var m := s.(inb := s.inb.(rcvd := Encode(f)));
    assert INITIAL_INBOUND.rcvd + Encode(f) == Encode(f);
    ReachableStep(m, EndInput(false));
    t := m.(inb := m.inb.(input := Severed));
  }

  lemma LastFramePushed(s: State, f: Frame) returns (t: State)
    requires Reachable(s) && s.inb == INITIAL_INBOUND && !s.sig.watch.value && InboxUnlocked(s.data.polls)
    ensures Reachable(t) && t == s.(inb := t.inb)
    ensures t.inb.pc == RNotifying && t.inb.inbox.frames == [f]
    ensures t.inb.consumed == |t.inb.rcvd| && t.inb.input == Severed
  {
    var e := LastFrameDelivered(s, f);
    var ts := UnreadFrameIsPushed(e, f);
    t := WithPushed(WithFrame(e, f), f);
    ReachableOnward(e, ts, t);
  }

  lemma NothingAheadAtTheEnd(b: Inbound)
    requires b.pc == RSelect([]) && b.consumed == |b.rcvd| && b.input == Severed
    ensures !CanPush(b, false)
  {
    assert Unread(b) == [];
  }
}
