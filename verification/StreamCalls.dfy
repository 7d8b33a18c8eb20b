/**
 The calls of the native interface as the program makes them: a managed stream is an object
 whose fields `send`, `next_message` and `close` update in place. Each call, made without
 interference, is one run of the transition system, and its outcome is decided by the fields
 as the caller finds them.
 */
module StreamCalls {
  import opened Framing
  import opened Inbox
  import opened StreamEngine
  import opened StreamSafety

  // ---------------------------------------------------------------------------------------
  // Whole calls as runs
  // ---------------------------------------------------------------------------------------

  /** The outcome of a `send` nothing interferes with. */
  function OutcomeOf(s: State, payload: seq<byte>): SendOutcome {
    if !Legal(payload) then SendInvalid
    else if s.handle != Registered || s.sig.closed then SendNotConnected
    else if |payload| > s.out.permits then SendFull
    else if ReceiverGone(s.out) then SendNotConnected
    else if |s.out.queue| >= SEND_QUEUE_FRAMES then SendFull
    else SendOk
  }

  function AfterSend(s: State, payload: seq<byte>): State {
    var s' := s.(sends := s.sends + [SReturned(OutcomeOf(s, payload))]);
    if OutcomeOf(s, payload) != SendOk then s'
    else s'.(out := s.out.(queue := s.out.queue + [payload], accepted := s.out.accepted + [payload],
                           permits := s.out.permits - |payload|))
  }

  /** One call of `send` with this payload, from its beginning, and nothing else. */
  predicate OneSend(ts: seq<Step>, payload: seq<byte>) {
    ts != [] && ts[0] == Send(SendBegin(payload)) && Continues(ts[1..])
  }

  /** The call looks the stream up and, if it is there, reads the closed flag. */
  lemma SendChecks(s: State, payload: Frame) returns (ts: seq<Step>)
    requires s.handle == Registered
    ensures Reaches(s, ts, s.(sends := s.sends + [if s.sig.closed then SReturned(SendNotConnected) else SAcquiring(payload)]))
    ensures OneSend(ts, payload)
  {
    var i := |s.sends|;
    ts := [Send(SendBegin(payload)), Send(SendCheck(i))];
    var s1 := Apply(s, ts[0]);
    assert s1.sends == s.sends + [SChecking(payload)];
    assert Apply(s1, ts[1]).sends == s.sends + [if s.sig.closed then SReturned(SendNotConnected) else SAcquiring(payload)];
    TwoSteps(s, ts[0], ts[1]);
  }

  /** A call under way goes on: nothing else acts, and no other call begins. */
  predicate Continues(ts: seq<Step>) {
    forall k | 0 <= k < |ts| :: ts[k].Send? && !ts[k].c.SendBegin?
  }

  lemma SendAcquires(s: State, sends: seq<SendPc>, payload: Frame) returns (ts: seq<Step>)
    requires s.sends == sends + [SAcquiring(payload)]
    ensures var (pc, o) := if |payload| <= s.out.permits
                           then (STrying(payload), s.out.(permits := s.out.permits - |payload|))
                           else (SReturned(SendFull), s.out);
            Reaches(s, ts, s.(sends := sends + [pc], out := o)) && Continues(ts)
  {
    ts := [Send(SendAcquire(|sends|))];
    ReachesOne(s, ts[0]);
    var pc := if |payload| <= s.out.permits then STrying(payload) else SReturned(SendFull);
    assert Apply(s, ts[0]).sends == sends + [pc];
  }

  lemma SendTries(s: State, sends: seq<SendPc>, payload: Frame) returns (ts: seq<Step>)
    requires s.sends == sends + [STrying(payload)]
    ensures var ok := !ReceiverGone(s.out) && |s.out.queue| < SEND_QUEUE_FRAMES;
            var outcome := if ok then SendOk else if ReceiverGone(s.out) then SendNotConnected else SendFull;
            var o := if ok then s.out.(queue := s.out.queue + [payload], accepted := s.out.accepted + [payload])
                     else s.out.(permits := s.out.permits + |payload|);
            Reaches(s, ts, s.(sends := sends + [SReturned(outcome)], out := o)) && Continues(ts)
  {
    ts := [Send(SendTry(|sends|))];
    ReachesOne(s, ts[0]);
    var ok := !ReceiverGone(s.out) && |s.out.queue| < SEND_QUEUE_FRAMES;
    var outcome := if ok then SendOk else if ReceiverGone(s.out) then SendNotConnected else SendFull;
    assert Apply(s, ts[0]).sends == sends + [SReturned(outcome)];
  }

  lemma SendRejectsAtOnce(s: State, payload: seq<byte>) returns (ts: seq<Step>)
    requires !Legal(payload) || s.handle != Registered
    ensures Reaches(s, ts, AfterSend(s, payload)) && OneSend(ts, payload)
  {
    ts := [Send(SendBegin(payload))];
    ReachesOne(s, ts[0]);
  }

  /** The rest of the call, once it holds its permits. */
  lemma HoldingSendIsARun(s: State, payload: Frame) returns (ts: seq<Step>)
    requires s.handle == Registered && !s.sig.closed && |payload| <= s.out.permits
    ensures Reaches(s.(sends := s.sends + [STrying(payload)], out := s.out.(permits := s.out.permits - |payload|)),
                    ts, AfterSend(s, payload)) && Continues(ts)
  {
    var s2 := s.(sends := s.sends + [STrying(payload)], out := s.out.(permits := s.out.permits - |payload|));
    ts := SendTries(s2, s.sends, payload);
  }

  /** The rest of the call, once it has seen the stream open. */
  lemma OpenSendIsARun(s: State, payload: Frame) returns (ts: seq<Step>)
    requires s.handle == Registered && !s.sig.closed
    ensures Reaches(s.(sends := s.sends + [SAcquiring(payload)]), ts, AfterSend(s, payload)) && Continues(ts)
  {
    var s1 := s.(sends := s.sends + [SAcquiring(payload)]);
    ts := SendAcquires(s1, s.sends, payload);
    if |payload| <= s.out.permits {
      var s2 := s.(sends := s.sends + [STrying(payload)], out := s.out.(permits := s.out.permits - |payload|));
      var us := HoldingSendIsARun(s, payload);
      ReachesTrans(s1, ts, s2, us, AfterSend(s, payload));
      ts := ts + us;
    }
  }

  /** The rest of the call, once it has found the stream. */
  lemma BegunSendIsARun(s: State, payload: Frame) returns (ts: seq<Step>)
    requires s.handle == Registered && !s.sig.closed
    ensures Reaches(Apply(s, Send(SendBegin(payload))), ts, AfterSend(s, payload)) && Continues(ts)
  {
    var m := Apply(s, Send(SendBegin(payload)));
    var check := Send(SendCheck(|s.sends|));
    assert m.sends == s.sends + [SChecking(payload)];
    assert Apply(m, check).sends == s.sends + [SAcquiring(payload)];
    ReachesOne(m, check);
    ts := OpenSendIsARun(s, payload);
    ReachesTrans(m, [check], Apply(m, check), ts, AfterSend(s, payload));
    ts := [check] + ts;
  }

  lemma SendIsARun(s: State, payload: seq<byte>) returns (ts: seq<Step>)
    ensures Reaches(s, ts, AfterSend(s, payload)) && OneSend(ts, payload)
  {
    if !Legal(payload) || s.handle != Registered {
      ts := SendRejectsAtOnce(s, payload);
    } else {
      ts := SendChecks(s, payload);
      if !s.sig.closed {
        var us := OpenSendIsARun(s, payload);
        ReachesTrans(s, ts, s.(sends := s.sends + [SAcquiring(payload)]), us, AfterSend(s, payload));
        ts := ts + us;
      }
    }
  }

  /** The capacity notification of a stream as a cell: its waiter is the reader. */
  function CapacityCell(b: Inbound): Notify {
    Notify(b.permit, b.pc.RParked?, b.pc.RParked? && b.pc.wake != Asleep)
  }

  lemma CapacityCellNotifies(b: Inbound)
    ensures CapacityCell(NotifyOneCapacity(b)) == CapacityCell(b).NotifyOne()
  {
  }

  /** The outcome of a `next_message` with no time to wait. */
  function PollOutcomeOf(s: State): PollOutcome {
    if s.handle != Registered then Missing
    else if s.inb.inbox.frames != [] then Message(s.inb.inbox.frames[0])
    else Nothing
  }

  function AfterPoll(s: State): State {
    var s' := s.(data := s.data.(polls := s.data.polls + [PReturned(PollOutcomeOf(s))]));
    if !PollOutcomeOf(s).Message? then s'
    else s'.(inb := NotifyOneCapacity(s.inb.(inbox := s.inb.inbox.Pop(), popped := s.inb.popped + [s.inb.inbox.frames[0]])))
  }

  predicate CanPoll(s: State) {
    InboxUnlocked(s.data.polls) && (s.solo ==> AllReturned(s.data.polls))
  }

  /** The call finds the stream and takes the inbox lock. */
  lemma PollBegins(s: State) returns (ts: seq<Step>, m: State)
    requires CanPoll(s) && s.handle == Registered
    ensures Reaches(s, ts, m) && PollsOnly(ts)
    ensures m == if s.inb.inbox.frames == [] then s.(data := s.data.(polls := s.data.polls + [PChecking(false)]))
                 else s.(data := s.data.(polls := s.data.polls + [PSignalling(s.inb.inbox.frames[0])]),
                         inb := s.inb.(inbox := s.inb.inbox.Pop(), popped := s.inb.popped + [s.inb.inbox.frames[0]]))
  {
    var i := |s.data.polls|;
    ts := [Poll(PollBegin(false)), Poll(PollPop(i))];
    var s1 := Apply(s, ts[0]);
    assert s1.data.polls == s.data.polls + [PTrying(false)];
    m := Apply(s1, ts[1]);
    assert m.data.polls == s.data.polls + [if s.inb.inbox.frames == [] then PChecking(false) else PSignalling(s.inb.inbox.frames[0])];
    TwoSteps(s, ts[0], ts[1]);
  }

  /** No wait is cut short by its timeout. */
  predicate NoTimeout(ts: seq<Step>) {
    forall k | 0 <= k < |ts| :: !(ts[k].Poll? && ts[k].p.PollTimeout?)
  }

  /** Calls of `next_message` act, and none of them times out. */
  predicate PollsOnly(ts: seq<Step>) {
    forall k | 0 <= k < |ts| :: ts[k].Poll? && !ts[k].p.PollTimeout?
  }

  /** The call gives the inbox back, or reads the closed flag, and returns. */
  lemma PollEnds(s: State, m: State) returns (last: Step)
    requires CanPoll(s) && s.handle == Registered
    requires m == if s.inb.inbox.frames == [] then s.(data := s.data.(polls := s.data.polls + [PChecking(false)]))
                  else s.(data := s.data.(polls := s.data.polls + [PSignalling(s.inb.inbox.frames[0])]),
                          inb := s.inb.(inbox := s.inb.inbox.Pop(), popped := s.inb.popped + [s.inb.inbox.frames[0]]))
    ensures Enabled(m, last) && Apply(m, last) == AfterPoll(s) && PollsOnly([last])
  {
    var i := |s.data.polls|;
    last := if s.inb.inbox.frames == [] then Poll(PollCheck(i)) else Poll(PollSignal(i));
    assert Apply(m, last).data.polls == s.data.polls + [PReturned(PollOutcomeOf(s))];
  }

  lemma PollIsARun(s: State) returns (ts: seq<Step>)
    requires CanPoll(s)
    ensures Reaches(s, ts, AfterPoll(s)) && PollsOnly(ts)
  {
    if s.handle != Registered {
      ts := [Poll(PollBegin(false))];
      ReachesOne(s, ts[0]);
    } else {
      var m: State;
      ts, m := PollBegins(s);
      var last := PollEnds(s, m);
      ReachesOne(m, last);
      ReachesTrans(s, ts, m, [last], AfterPoll(s));
      ts := ts + [last];
    }
  }

  /** The signal a whole `close` leaves behind: it is raised if a task is left to hear it. */
  function AfterClose(s: State, pick: nat): State {
    if s.handle != Registered then s
    else
      var listeners := s.out.pc != WShutdown(Finished) || s.inb.pc != RShutdown(Finished);
      s.(handle := Closing(Finished),
         sig := SignalClose(s.sig.(closed := true), listeners),
         data := NotifyOneData(s.data, pick),
         inb := BroadcastCapacity(s.inb))
  }

  /** One call of `close` acts, and nothing else. */
  predicate ClosesOnly(ts: seq<Step>) {
    forall k | 0 <= k < |ts| :: ts[k].Remove? || (ts[k].Shutdown? && ts[k].who == Closer)
  }

  /** The first half of `close`: the entry is taken out, the flag stored and the signal raised. */
  lemma CloseSignals(s: State, pick: nat) returns (ts: seq<Step>)
    requires s.handle == Registered
    ensures Reaches(s, ts, s.(handle := Closing(NotifyData), sig := AfterClose(s, pick).sig))
    ensures ClosesOnly(ts)
  {
    var c := Shutdown(Closer, pick);
    var m := s.(handle := Closing(SendTrue), sig := s.sig.(closed := true));
    TwoSteps(s, Remove, c);
    ReachesOne(m, c);
    ReachesTrans(s, [Remove, c], m, [c], Apply(m, c));
    ts := [Remove, c] + [c];
  }

  /** The second half: both notifications, and the handles go. */
  lemma CloseNotifies(s: State, pick: nat) returns (ts: seq<Step>)
    requires s.handle == Closing(NotifyData) && PickOk(s.data.polls, pick)
    ensures Reaches(s, ts, s.(handle := Closing(Finished), data := NotifyOneData(s.data, pick), inb := BroadcastCapacity(s.inb)))
    ensures ClosesOnly(ts)
  {
    var c := Shutdown(Closer, pick);
    var m := s.(handle := Closing(DropHandles), data := NotifyOneData(s.data, pick), inb := BroadcastCapacity(s.inb));
    TwoSteps(s, c, c);
    ReachesOne(m, c);
    ReachesTrans(s, [c, c], m, [c], Apply(m, c));
    ts := [c, c] + [c];
  }

  lemma CloseIsARun(s: State, pick: nat) returns (ts: seq<Step>)
    requires PickOk(s.data.polls, pick)
    ensures Reaches(s, ts, AfterClose(s, pick))
    ensures ClosesOnly(ts)
  {
    ts := [];
    if s.handle == Registered {
      ts := CloseSignals(s, pick);
      var m := s.(handle := Closing(NotifyData), sig := AfterClose(s, pick).sig);
      var us := CloseNotifies(m, pick);
      ReachesTrans(s, ts, m, us, AfterClose(s, pick));
      ts := ts + us;
    }
  }

  // ---------------------------------------------------------------------------------------
  // The managed stream
  // ---------------------------------------------------------------------------------------

  class ManagedStream {
    var registered: bool
    var closed: bool
    var receiverGone: bool
    var queue: seq<Frame>
    var permits: nat
    var inbox: InboxState
    ghost var state: State

    ghost predicate Valid()
      reads this
    {
      && registered == (state.handle == Registered)
      && closed == state.sig.closed
      && receiverGone == ReceiverGone(state.out)
      && queue == state.out.queue && permits == state.out.permits
      && inbox == state.inb.inbox
    }

    method Send(payload: seq<byte>) returns (outcome: SendOutcome, ghost ts: seq<Step>)
      requires Valid()
      modifies this
      ensures Valid() && Reaches(old(state), ts, state) && OneSend(ts, payload)
      ensures state.sends == old(state).sends + [SReturned(outcome)]
      ensures outcome == OutcomeOf(old(state), payload)
      ensures outcome == SendOk ==>
                && queue == old(queue) + [payload] && permits == old(permits) - |payload|
                && state.out.accepted == old(state).out.accepted + [payload]
      ensures outcome != SendOk ==> queue == old(queue) && permits == old(permits) && state.out == old(state).out
      ensures registered == old(registered) && closed == old(closed) && inbox == old(inbox)
    {
      ts := SendIsARun(state, payload);
      state := AfterSend(state, payload);
      if !Legal(payload) {
        outcome := SendInvalid;
      } else if !registered || closed {
        outcome := SendNotConnected;
      } else if |payload| > permits {
        outcome := SendFull;
      } else {
        permits := permits - |payload|;
        if receiverGone || |queue| >= SEND_QUEUE_FRAMES {
          permits := permits + |payload|;
          outcome := if receiverGone then SendNotConnected else SendFull;
        } else {
          queue := queue + [payload];
          outcome := SendOk;
        }
      }
    }

    /** `next_message` with a timeout of zero. */
    method NextMessageNow() returns (outcome: PollOutcome, ghost ts: seq<Step>)
      requires Valid() && CanPoll(state)
      modifies this
      ensures Valid() && Reaches(old(state), ts, state) && PollsOnly(ts)
      ensures state.data.polls == old(state).data.polls + [PReturned(outcome)]
      ensures outcome == Missing <==> !old(registered)
      ensures outcome.Message? ==>
                && old(inbox).frames != [] && outcome.frame == old(inbox).frames[0] && inbox == old(inbox).Pop()
                && state.inb.popped == old(state).inb.popped + [outcome.frame]
      ensures outcome == Nothing ==> old(inbox).frames == []
      ensures !outcome.Message? ==> inbox == old(inbox) && state.inb == old(state).inb
    {
      ts := PollIsARun(state);
      state := AfterPoll(state);
      if !registered {
        outcome := Missing;
      } else if inbox.frames != [] {
        outcome := Message(inbox.frames[0]);
        inbox := inbox.Pop();
      } else {
        outcome := Nothing;
      }
    }

    /** `close`; `pick` is the waiting call its notification wakes, if any waits. */
    method Close(ghost pick: nat) returns (ghost ts: seq<Step>)
      requires Valid() && PickOk(state.data.polls, pick)
      modifies this
      ensures Valid() && Reaches(old(state), ts, state) && ClosesOnly(ts)
      ensures !registered && (old(registered) ==> closed)
      ensures !old(registered) ==> state == old(state)
      ensures queue == old(queue) && permits == old(permits) && inbox == old(inbox)
      ensures old(registered) && !old(state).out.pc.WShutdown? ==> state.sig.watch.value
    {
      ts := CloseIsARun(state, pick);
      state := AfterClose(state, pick);
      if registered {
        registered := false;
        closed := true;
      }
    }
  }

  /** An uninterrupted `send` succeeds exactly when the stream is open and there is room, and each refusal has its own cause. */
  lemma SendSucceedsExactly(s: State, payload: seq<byte>)
    requires Reachable(s)
    ensures OutcomeOf(s, payload) == SendOk
       <==> Legal(payload) && StreamIsOpen(s) && |payload| <= s.out.permits && |s.out.queue| < SEND_QUEUE_FRAMES
    ensures OutcomeOf(s, payload) == SendFull
       <==> Legal(payload) && StreamIsOpen(s) && !(|payload| <= s.out.permits && |s.out.queue| < SEND_QUEUE_FRAMES)
    ensures OutcomeOf(s, payload) == SendNotConnected <==> Legal(payload) && !StreamIsOpen(s)
    ensures OutcomeOf(s, payload) == SendInvalid <==> !Legal(payload)
  {
    if StreamIsOpen(s) { OpenWriterIsThere(s); }
  }

  /**
   Backpressure is never permanent: from a state in which an open stream has drained, the run
   of one more `send` accepts any legal payload.
   */
  lemma IdleStreamAcceptsAnyFrame(s: State, payload: Frame) returns (ts: seq<Step>)
    requires Reachable(s) && StreamIsOpen(s)
    requires s.out.queue == [] && !s.out.pc.WWriting? && NoneHolding(s.sends)
    ensures OutcomeOf(s, payload) == SendOk
    ensures Reaches(s, ts, AfterSend(s, payload)) && OneSend(ts, payload)
    ensures AfterSend(s, payload).sends == s.sends + [SReturned(SendOk)]
    ensures AfterSend(s, payload).out.accepted == s.out.accepted + [payload]
  {
    IdleStreamHasAllPermits(s);
    SendSucceedsExactly(s, payload);
    ts := SendIsARun(s, payload);
  }
}
