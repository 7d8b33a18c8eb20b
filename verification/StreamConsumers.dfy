/**
 Exactly when a waiting `next_message` can rely on being woken: with one call at a time no
 wake-up is ever lost, with two it can be.
 */
module StreamConsumers {
  import opened Framing
  import opened StreamEngine
  import opened StreamSafety
  import opened StreamArrivals

  /** A stream that has just been entered in the map. */
  lemma OpenStream(solo: bool) returns (s: State)
    ensures Reachable(s) && s.handle == Registered && s.solo == solo
    ensures s.inb == INITIAL_INBOUND && s.sig == Signal(false, Watch(false, 0)) && s.data == Data(false, [])
  {
    var s0 := State(solo, INITIAL_OUTBOUND, INITIAL_INBOUND, Signal(false, Watch(false, 0)), Data(false, []), [], Opening);
    assert Init(s0) && Reaches(s0, [], s0);
    ReachableStep(s0, Register);
    s := Apply(s0, Register);
  }

  /** One more call looks the stream up, finds the inbox empty and the stream open, and will wait. */
  lemma CallStartsWaiting(s: State) returns (t: State)
    requires Reachable(s) && s.handle == Registered && !s.sig.closed
    requires s.inb.inbox.frames == [] && InboxUnlocked(s.data.polls) && (s.solo ==> AllReturned(s.data.polls))
    ensures Reachable(t) && t == s.(data := s.data.(polls := s.data.polls + [PWaiting]))
  {
    var i := |s.data.polls|;
    ReachableStep(s, Poll(PollBegin(true)));
    var s1 := Apply(s, Poll(PollBegin(true)));
    assert s1.data.polls == s.data.polls + [PTrying(true)];
    ReachableStep(s1, Poll(PollPop(i)));
    var s2 := Apply(s1, Poll(PollPop(i)));
    assert s2.data.polls == s.data.polls + [PChecking(true)];
    ReachableStep(s2, Poll(PollCheck(i)));
    t := Apply(s2, Poll(PollCheck(i)));
    assert t.data.polls == s.data.polls + [PWaiting];
  }

  /** Two calls have both found the inbox empty and are about to wait. */
  lemma TwoCallsWaiting() returns (s: State)
    ensures Reachable(s) && !s.solo
    ensures s.inb == INITIAL_INBOUND && s.sig == Signal(false, Watch(false, 0))
    ensures s.data == Data(false, [PWaiting, PWaiting])
  {
    var s0 := OpenStream(false);
    var s1 := CallStartsWaiting(s0);
    assert s1.data.polls == [PWaiting];
    s := CallStartsWaiting(s1);
    assert s.data.polls == [PWaiting, PWaiting];
  }

  lemma SlicesOf(a: seq<byte>, b: seq<byte>)
    ensures (a + b)[0..|a|] == a && (a + b)[|a|..|a| + |b|] == b
  {
  }

  /** Two small frames whose bytes have all arrived reach the inbox one after the other. */
  lemma TwoFramesArrive(s: State, f: Frame, g: Frame) returns (t: State)
    requires Reachable(s) && s.inb == INITIAL_INBOUND && !s.sig.watch.value && s.data == Data(false, [PWaiting, PWaiting])
    requires |f| == |g| == 1
    ensures Reachable(t) && t.solo == s.solo && t.data == Data(true, [PWaiting, PWaiting])
    ensures t.inb.inbox.frames == [f, g] && t.inb.pc == RSelect([])
  {
    var bytes := Encode(f) + Encode(g);
    ReachableStep(s, Deliver(bytes));
    var s1 := s.(inb := s.inb.(rcvd := bytes));
    assert INITIAL_INBOUND.rcvd + bytes == bytes;
    SlicesOf(Encode(f), Encode(g));
    var ts := DeliveredFrameArrives(s1, f);
    var s2 := WithArrived(s1, f);
    ReachableOnward(s1, ts, s2);
    assert s2.inb.inbox.frames == [f];
    ts := DeliveredFrameArrives(s2, g);
    t := WithArrived(s2, g);
    ReachableOnward(s2, ts, t);
  }

  /**
   With two calls waiting, two frames can arrive before either polls its waiter. The second
   notification finds the permit already stored, one call takes it, and the other goes to
   sleep although a frame is waiting for it.
   */
  lemma TwoCallsCanLoseAWakeup() returns (s: State)
    ensures Reachable(s) && !s.solo && LostWakeup(s, 1)
  {
    var s0 := TwoCallsWaiting();
    var s1 := TwoFramesArrive(s0, [7], [8]);
    ReachableStep(s1, Poll(PollWaiter(0)));
    var s2 := Apply(s1, Poll(PollWaiter(0)));
    assert s2.data == Data(false, [PRetrying, PWaiting]);
    ReachableStep(s2, Poll(PollWaiter(1)));
    s := Apply(s2, Poll(PollWaiter(1)));
    assert SleepingAt(s.data.polls, 1);
  }

  /** No wake-up is ever lost exactly when callers keep to one call at a time. */
  lemma WakeupsAreSafeExactlyWhenSolo(solo: bool)
    ensures NeverLosesWakeups(solo) <==> solo
  {
    if solo {
      forall s: State, i: nat | Reachable(s) && s.solo == solo
        ensures !LostWakeup(s, i)
      {
        NoLostDataWakeup(s, i);
      }
    } else {
      var s := TwoCallsCanLoseAWakeup();
    }
  }
}
