/**
 What holds in every reachable state of one stream, whatever the interleaving: the accounts
 of frames, permits and bytes, and the absence of lost wake-ups.
 */
module StreamSafety {
  import opened Framing
  import opened Sequences
  import opened Totals
  import opened Inbox
  import opened StreamEngine
  import opened StreamInvariants

  // ---------------------------------------------------------------------------------------
  // Runs
  // ---------------------------------------------------------------------------------------

  lemma {:induction false} ReachesTrans(s: State, ts: seq<Step>, m: State, us: seq<Step>, t: State)
    requires Reaches(s, ts, m) && Reaches(m, us, t)
    ensures Reaches(s, ts + us, t)
    decreases |ts|
  {
    if ts == [] {
      assert ts + us == us;
    } else {
      ReachesTrans(Apply(s, ts[0]), ts[1..], m, us, t);
      assert (ts + us)[1..] == ts[1..] + us;
    }
  }

  lemma ReachesOne(s: State, t: Step)
    requires Enabled(s, t)
    ensures Reaches(s, [t], Apply(s, t))
  {
    assert [t][1..] == [];
    assert Reaches(Apply(s, t), [], Apply(s, t));
  }

  lemma ReachableOnward(s: State, ts: seq<Step>, t: State)
    requires Reachable(s) && Reaches(s, ts, t)
    ensures Reachable(t)
  {
    var s0, us :| Init(s0) && Reaches(s0, us, s);
    ReachesTrans(s0, us, s, ts, t);
  }

  lemma ReachableStep(s: State, t: Step)
    requires Reachable(s) && Enabled(s, t)
    ensures Reachable(Apply(s, t))
  {
    ReachesOne(s, t);
    ReachableOnward(s, [t], Apply(s, t));
  }

  // ---------------------------------------------------------------------------------------
  // Frames and bytes
  // ---------------------------------------------------------------------------------------

  /** The wire never carries anything but the accepted payloads, framed, in acceptance order. */
  lemma WireIsPrefixOfAccepted(s: State)
    requires Reachable(s)
    ensures s.out.sent <= EncodeAll(s.out.accepted)
    ensures Parse(s.out.sent) <= s.out.accepted
  {
    InvReachable(s);
    ParseReencodes(s.out.sent);
    PrefixOfEncodings(Parse(s.out.sent), s.out.sent, s.out.accepted);
  }

  /**
   A writer that ends the stream cleanly without a write error has put every payload `send`
   ever accepted on the wire, and `send` accepts nothing afterwards. A writer that resets the
   stream does so only after the close signal was raised.
   */
  lemma CleanFinishLosesNothing(s: State, ts: seq<Step>, t: State)
    requires Reachable(s) && s.out.fate == FinSent && !s.out.failed && Reaches(s, ts, t)
    ensures t.out.sent == s.out.sent == EncodeAll(t.out.accepted)
    ensures t.out.accepted == s.out.accepted
  {
    FinishedStays(s, ts, t);
  }

  lemma FinishedStep(s: State, t: Step)
    requires Inv(s) && s.out.fate == FinSent && !s.out.failed && Enabled(s, t)
    ensures var o := Apply(s, t).out;
            o.sent == s.out.sent && o.accepted == s.out.accepted && o.fate == FinSent && !o.failed
  {
    NoSendersStep(s, t);
    match t {
      case Shutdown(who, pick) => ClosingSendsNothing(s, who, pick);
      case _ =>
    }
  }

  lemma {:induction false} FinishedStays(s: State, ts: seq<Step>, t: State)
    requires Reachable(s) && s.out.fate == FinSent && !s.out.failed && Reaches(s, ts, t)
    ensures t.out.sent == s.out.sent && t.out.accepted == s.out.accepted
    ensures s.out.sent == EncodeAll(s.out.accepted)
    decreases |ts|
  {
    InvReachable(s);
    if ts != [] {
      ReachableStep(s, ts[0]);
      FinishedStep(s, ts[0]);
      FinishedStays(Apply(s, ts[0]), ts[1..], t);
    }
  }

  lemma ResetOnlyWhenClosing(s: State)
    requires Reachable(s) && s.out.fate == ResetSent
    ensures s.sig.watch.value && s.sig.closed
  {
    InvReachable(s);
  }

  /** The peer is asked to stop sending only after the close signal was raised. */
  lemma StopOnlyWhenClosing(s: State)
    requires Reachable(s) && s.inb.stopSent
    ensures s.sig.watch.value && s.sig.closed
  {
    InvReachable(s);
  }

  /** The reader has left its loop for this reason, and has acted on it if it is past its ending. */
  predicate EndsFor(b: Inbound, cancelled: bool) {
    b.pc == REnding(cancelled) || (b.pc.RShutdown? && b.stopSent == cancelled)
  }

  lemma EndsForStep(s: State, t: Step, cancelled: bool)
    requires EndsFor(s.inb, cancelled) && Enabled(s, t)
    ensures EndsFor(Apply(s, t).inb, cancelled)
  {
    match t {
      case Shutdown(who, pick) => ClosingInbound(s, who, pick);
      case Read(r, pick) =>
      case Poll(p) =>
      case _ =>
    }
  }

  /** A reader that has left its loop asks the peer to stop exactly if it left because of the close signal. */
  lemma ReaderStopsExactlyWhenCancelled(s: State, ts: seq<Step>, t: State)
    requires s.inb.pc.REnding? && Reaches(s, ts, t)
    ensures t.inb.pc.RShutdown? ==> (t.inb.stopSent <==> s.inb.pc.cancelled)
  {
    EndsForOnward(s, ts, t, s.inb.pc.cancelled);
  }

  lemma {:induction false} EndsForOnward(s: State, ts: seq<Step>, t: State, cancelled: bool)
    requires EndsFor(s.inb, cancelled) && Reaches(s, ts, t)
    ensures EndsFor(t.inb, cancelled)
    decreases |ts|
  {
    if ts != [] {
      EndsForStep(s, ts[0], cancelled);
      EndsForOnward(Apply(s, ts[0]), ts[1..], t, cancelled);
    }
  }

  /** Wherever it looks at the signal and finds it up, the reader leaves its loop because of it. */
  lemma ReaderHeedsTheSignal(s: State, r: ReaderAction, pick: nat)
    requires Reachable(s) && s.sig.watch.value && Enabled(s, Read(r, pick)) && (r.ReaderChanged? || r.ReaderBorrow?)
    ensures Apply(s, Read(r, pick)).inb.pc == REnding(true)
  {
  }

  /**
   However the transport chunks its bytes, what the reader has pushed is the front of the
   parse of the bytes received, and what was popped followed by what is queued is all of it.
   */
  lemma PushedIsPrefixOfParse(s: State)
    requires Reachable(s)
    ensures s.inb.pushed <= Parse(s.inb.rcvd)
    ensures s.inb.popped + s.inb.inbox.frames == s.inb.pushed
  {
    InvReachable(s);
    var b := s.inb;
    var rest := b.rcvd[|EncodeAll(b.pushed)|..];
    assert EncodeAll(b.pushed) <= b.rcvd;
    assert b.rcvd == EncodeAll(b.pushed) + rest;
    ParsePrefix(b.pushed, rest);
  }

  lemma {:induction false} ParsePrefix(frames: seq<Frame>, rest: seq<byte>)
    ensures Parse(EncodeAll(frames) + rest) == frames + Parse(rest)
  {
    if frames == [] {
      assert EncodeAll(frames) + rest == rest;
    } else {
      var tail := EncodeAll(frames[1..]) + rest;
      Assoc(Encode(frames[0]), EncodeAll(frames[1..]), rest);
      ParseEncodedFirst(frames[0], tail);
      ParsePrefix(frames[1..], rest);
      Assoc([frames[0]], frames[1..], Parse(rest));
      assert [frames[0]] + frames[1..] == frames;
    }
  }

  /** A reader that met the end of its input delivered every whole frame in it. */
  lemma DrainedReaderDeliversAll(s: State)
    requires Reachable(s) && s.inb.drained
    ensures s.inb.pushed == Parse(s.inb.rcvd)
  {
    InvReachable(s);
    var b := s.inb;
    var rest := b.rcvd[|EncodeAll(b.pushed)|..];
    assert b.rcvd == EncodeAll(b.pushed) + rest;
    IncompleteIsNoFrame(rest);
    ParseOfEncoding(b.pushed, rest);
  }

  /**
   Framing never loses its place: a frame read is dropped part-way only when the close signal
   is up, so the branch that would resume reading in the middle of a frame is never taken.
   */
  lemma ReadNeverResumesMidFrame(s: State)
    requires Reachable(s) && Enabled(s, Read(ReaderChanged, 0))
    ensures s.sig.watch.value
    ensures Apply(s, Read(ReaderChanged, 0)).inb.pc == REnding(true)
  {
    InvReachable(s);
  }

  // ---------------------------------------------------------------------------------------
  // Bounds and conservation
  // ---------------------------------------------------------------------------------------

  /** Permits are neither lost nor invented, and the channel and the inbox keep their bounds. */
  lemma AccountsBalance(s: State)
    requires Reachable(s)
    ensures s.out.permits + Total(s.out.queue, Size) + InFlightSize(s.out) + Total(s.sends, Holding)
         == MAX_SEND_QUEUE_BYTES
    ensures |s.out.queue| <= SEND_QUEUE_FRAMES
    ensures s.inb.inbox.bytes == Total(s.inb.inbox.frames, Size) <= MAX_INBOX_BYTES
    ensures |s.inb.inbox.frames| <= MAX_INBOX_FRAMES
  {
    InvReachable(s);
  }

  /** No `send` call is between taking its permits and returning. */
  predicate NoneHolding(sends: seq<SendPc>) {
    forall i | 0 <= i < |sends| :: !sends[i].STrying?
  }

  lemma {:induction false} NothingHeld(sends: seq<SendPc>)
    requires NoneHolding(sends)
    ensures Total(sends, Holding) == 0
  {
    if sends != [] {
      NothingHeld(sends[..|sends| - 1]);
    }
  }

  /** Once everything sent has been written out, all permits are back. */
  lemma IdleStreamHasAllPermits(s: State)
    requires Reachable(s) && s.out.queue == [] && !s.out.pc.WWriting? && NoneHolding(s.sends)
    ensures s.out.permits == MAX_SEND_QUEUE_BYTES
  {
    InvReachable(s);
    NothingHeld(s.sends);
  }

  /** What the native side answers when asked whether the stream is open. */
  predicate StreamIsOpen(s: State) {
    s.handle == Registered && !s.sig.closed
  }

  lemma OpenWriterIsThere(s: State)
    requires Reachable(s) && !s.sig.closed
    ensures !ReceiverGone(s.out)
  {
    InvReachable(s);
  }

  lemma TwoSteps(s: State, a: Step, b: Step)
    requires Enabled(s, a) && Enabled(Apply(s, a), b)
    ensures Reaches(s, [a, b], Apply(Apply(s, a), b))
  {
    ReachesOne(s, a);
    ReachesOne(Apply(s, a), b);
    ReachesTrans(s, [a], Apply(s, a), [b], Apply(Apply(s, a), b));
    assert [a] + [b] == [a, b];
  }

  /** The step is an action of `send` call `i`. */
  predicate OfCall(t: Step, i: nat) {
    match t
    case Send(SendCheck(k)) => k == i
    case Send(SendAcquire(k)) => k == i
    case Send(SendTry(k)) => k == i
    case _ => false
  }

  predicate NoneOfCall(ts: seq<Step>, i: nat) {
    forall k | 0 <= k < |ts| :: !OfCall(ts[k], i)
  }

  /** The last action of call `i`, which carries `f` and holds its permits. */
  predicate GivesBackOrDelivers(t: State, i: nat, f: Frame)
    requires Enabled(t, Send(SendTry(i)))
  {
    var t' := Apply(t, Send(SendTry(i)));
    if t'.sends[i] == SReturned(SendOk)
    then t'.out == t.out.(queue := t.out.queue + [f], accepted := t.out.accepted + [f])
    else t'.out == t.out.(permits := t.out.permits + |f|)
  }

  lemma OthersLeaveCall(s: State, t: Step, i: nat)
    requires Enabled(s, t) && !OfCall(t, i) && i < |s.sends|
    ensures i < |Apply(s, t).sends| && Apply(s, t).sends[i] == s.sends[i]
  {
  }

  lemma {:induction false} OthersLeaveCallOnward(s: State, ts: seq<Step>, t: State, i: nat)
    requires Reaches(s, ts, t) && NoneOfCall(ts, i) && i < |s.sends|
    ensures i < |t.sends| && t.sends[i] == s.sends[i]
    decreases |ts|
  {
    if ts != [] {
      OthersLeaveCall(s, ts[0], i);
      OthersLeaveCallOnward(Apply(s, ts[0]), ts[1..], t, i);
    }
  }

  /**
   Whatever the other actors do between the moment a `send` takes its permits and the moment it
   tries the channel, a refusal gives back exactly what was taken and leaves the channel and the
   accepted payloads as they are; an accepted payload is the one the call came with, at the end.
   */
  lemma RefusedSendRestoresAll(s: State, i: nat, ts: seq<Step>, t: State)
    requires Enabled(s, Send(SendAcquire(i)))
    requires Reaches(Apply(s, Send(SendAcquire(i))), ts, t) && NoneOfCall(ts, i)
    ensures var f, s1 := s.sends[i].frame, Apply(s, Send(SendAcquire(i)));
            && s1.out == (if s1.sends[i].SReturned? then s.out else s.out.(permits := s.out.permits - |f|))
            && (!s1.sends[i].SReturned? ==> Enabled(t, Send(SendTry(i))) && GivesBackOrDelivers(t, i, f))
  {
    OthersLeaveCallOnward(Apply(s, Send(SendAcquire(i))), ts, t, i);
  }

  // ---------------------------------------------------------------------------------------
  // Wake-ups
  // ---------------------------------------------------------------------------------------

  /**
   The reader never sleeps through free space: parked with no wake-up on its way, its frame
   does not fit the inbox right now; and it would fit an empty one, so a consumer that keeps
   taking frames always gets the reader going again.
   */
  lemma NoLostCapacityWakeup(s: State)
    requires Reachable(s) && s.inb.pc.RParked? && s.inb.pc.wake == Asleep
    requires InboxUnlocked(s.data.polls)
    ensures !s.inb.inbox.Fits(s.inb.pc.payload)
    ensures s.inb.inbox.frames != []
  {
    InvReachable(s);
    if s.inb.inbox.frames == [] { EmptyInboxAdmits(s.inb.inbox, s.inb.pc.payload); }
  }

  /** A sleeping call that nothing is about to wake, although it has something to return for. */
  predicate LostWakeup(s: State, i: nat) {
    && SleepingAt(s.data.polls, i)
    && ((s.inb.inbox.frames != [] && !s.inb.pc.RNotifying?) || (s.sig.closed && !CloseNoticeAhead(s)))
  }

  ghost predicate NeverLosesWakeups(solo: bool) {
    forall s: State, i: nat :: Reachable(s) && s.solo == solo ==> !LostWakeup(s, i)
  }

  /** With one `next_message` call at a time, neither data nor closing is ever slept through. */
  lemma NoLostDataWakeup(s: State, i: nat)
    requires Reachable(s) && s.solo
    ensures !LostWakeup(s, i)
  {
    InvReachable(s);
  }
}
