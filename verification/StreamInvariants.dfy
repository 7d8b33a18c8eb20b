/**
 What every step of a stream keeps. Each invariant is one account of the shared state; the
 lemmas show that no action of any actor, in any interleaving, breaks it.
 */
module StreamInvariants {
  import opened Framing
  import opened Sequences
  import opened Totals
  import opened Inbox
  import opened StreamEngine

  // ---------------------------------------------------------------------------------------
  // The close signal
  // ---------------------------------------------------------------------------------------

  /** An actor is past an action of its closing sequence only if the action took effect. */
  predicate ClosingAt(pc: ShutdownPc, g: Signal) {
    && (pc.Rank() >= SendTrue.Rank() ==> g.closed)
    && (pc.Rank() >= NotifyData.Rank() ==> g.watch.value)
  }

  /**
   No task swallows the signal: while a task is still in its loop it has not consumed any
   version of the signal, so a raised signal is still pending for it.
   */
  predicate WriterHears(o: Outbound, g: Signal) {
    && (WriterLooping(o) ==> o.seen == 0)
    && (o.pc == WEnding(true) || o.fate == ResetSent ==> g.watch.value)
    && (o.pc.WShutdown? ==> ClosingAt(o.pc.pc, g))
  }

  predicate ReaderHears(b: Inbound, g: Signal) {
    && (ReaderLooping(b) ==> b.seen == 0)
    && (b.pc == REnding(true) || b.stopSent ==> g.watch.value)
    && (b.stopSent ==> b.pc.RShutdown?)
    && (b.pc.RShutdown? ==> ClosingAt(b.pc.pc, g))
  }

  predicate SignalOk(g: Signal) {
    && (g.watch.value <==> g.watch.version > 0)
    && (g.watch.value ==> g.closed)
  }

  predicate SignalInv(o: Outbound, b: Inbound, g: Signal, handle: HandlePc) {
    && SignalOk(g)
    && WriterHears(o, g)
    && ReaderHears(b, g)
    && (handle.Closing? ==> ClosingAt(handle.pc, g))
  }

  /** The effect of a closing action, before the actor moves on. */
  lemma EffectKeepsSignal(s: State, who: Actor, pick: nat)
    requires SignalInv(s.out, s.inb, s.sig, s.handle) && Enabled(s, Shutdown(who, pick))
    ensures var e := Effect(s, who, PcOf(s, who), pick);
            SignalInv(e.out, e.inb, e.sig, e.handle) && ClosingAt(PcOf(s, who).Next(), e.sig)
  {
    var e := Effect(s, who, PcOf(s, who), pick);
    assert SignalOk(e.sig);
    assert WriterHears(e.out, e.sig);
    assert ReaderHears(e.inb, e.sig);
  }

  lemma MovingOnKeepsSignal(e: State, who: Actor, pc: ShutdownPc)
    requires SignalInv(e.out, e.inb, e.sig, e.handle) && Ends(e, who) && ClosingAt(pc, e.sig)
    ensures var s' := SetPc(e, who, pc); SignalInv(s'.out, s'.inb, s'.sig, s'.handle)
  {
  }

  lemma ClosingKeepsSignal(s: State, who: Actor, pick: nat)
    requires SignalInv(s.out, s.inb, s.sig, s.handle) && Enabled(s, Shutdown(who, pick))
    ensures var s' := Apply(s, Shutdown(who, pick)); SignalInv(s'.out, s'.inb, s'.sig, s'.handle)
  {
    EffectKeepsSignal(s, who, pick);
    var e := Effect(s, who, PcOf(s, who), pick);
    assert Ends(e, who);
    MovingOnKeepsSignal(e, who, PcOf(s, who).Next());
  }

  lemma SignalStep(s: State, t: Step)
    requires SignalInv(s.out, s.inb, s.sig, s.handle) && Enabled(s, t)
    ensures var s' := Apply(s, t); SignalInv(s'.out, s'.inb, s'.sig, s'.handle)
  {
    var s' := Apply(s, t);
    match t {
      case Write(w) => assert WriterHears(s'.out, s.sig);
      case Read(r, pick) => assert ReaderHears(s'.inb, s.sig);
      case Shutdown(who, pick) => ClosingKeepsSignal(s, who, pick);
      case Send(c) => assert s'.out.pc == s.out.pc && s'.out.seen == s.out.seen && s'.out.fate == s.out.fate;
      case Poll(p) => assert ReaderHears(s'.inb, s.sig);
      case _ =>
    }
  }

  // ---------------------------------------------------------------------------------------
  // Outbound frames
  // ---------------------------------------------------------------------------------------

  function InFlight(o: Outbound): seq<Frame> {
    if o.pc.WWriting? then [o.pc.frame] else []
  }

  predicate OffsetOk(o: Outbound) {
    o.pc.WWriting? ==> o.pc.offset <= |Encode(o.pc.frame)|
  }

  function PartialOut(o: Outbound): seq<byte>
    requires OffsetOk(o)
  {
    if o.pc.WWriting? then Encode(o.pc.frame)[..o.pc.offset] else []
  }

  /** The writer has ended, or is about to end, with a clean end of stream. */
  predicate Finishing(o: Outbound) {
    (o.pc == WEnding(false) || o.fate == FinSent) && !o.failed
  }

  predicate OutInv(o: Outbound) {
    && OffsetOk(o)
    && (WriterLooping(o) ==>
          && o.accepted == o.written + InFlight(o) + o.queue
          && o.sent == EncodeAll(o.written) + PartialOut(o)
          && !o.failed)
    && o.sent <= EncodeAll(o.accepted)
    && (Finishing(o) ==> o.sent == EncodeAll(o.accepted))
    && (o.fate == Open <==> WriterLooping(o) || o.pc.WEnding?)
    && (ReceiverGone(o) ==> o.queue == [])
  }

  /** What a frame in flight adds to the wire stays inside the encoding of what was accepted. */
  lemma PartialWithinAccepted(written: seq<Frame>, f: Frame, rest: seq<Frame>, n: nat)
    requires n <= |Encode(f)|
    ensures EncodeAll(written) + Encode(f)[..n] <= EncodeAll(written + [f] + rest)
  {
    EncodeAllConcat(written + [f], rest);
    EncodeAllAppend(written, f);
    assert EncodeAll(written) + Encode(f)[..n] <= EncodeAll(written) + Encode(f);
  }

  lemma ChunkExtends(base: seq<byte>, encoded: seq<byte>, k: nat, n: nat)
    requires k + n <= |encoded|
    ensures base + encoded[..k] + encoded[k..k + n] == base + encoded[..k + n]
  {
    assert encoded[..k] + encoded[k..k + n] == encoded[..k + n];
    Assoc(base, encoded[..k], encoded[k..k + n]);
  }

  lemma ChunkKeepsOut(o: Outbound, g: Signal, n: nat)
    requires OutInv(o) && WriterGuard(o, g, WriterChunk(n))
    ensures OutInv(WriterApply(o, g, WriterChunk(n)))
  {
    ChunkExtends(EncodeAll(o.written), Encode(o.pc.frame), o.pc.offset, n);
    PartialWithinAccepted(o.written, o.pc.frame, o.queue, o.pc.offset + n);
  }

  lemma FrameDoneKeepsOut(o: Outbound, g: Signal)
    requires OutInv(o) && WriterGuard(o, g, WriterFrameDone)
    ensures OutInv(WriterApply(o, g, WriterFrameDone))
  {
    var f, o' := o.pc.frame, WriterApply(o, g, WriterFrameDone);
    assert o'.accepted == o'.written + InFlight(o') + o'.queue by { NoTail(o.written + [f]); }
    assert o'.sent == EncodeAll(o'.written) + PartialOut(o') by {
      EncodeAllAppend(o.written, f);
      NoTail(EncodeAll(o'.written));
      assert Encode(f)[..o.pc.offset] == Encode(f);
    }
  }

  lemma WriterKeepsOut(o: Outbound, g: Signal, t: WriterAction)
    requires SignalOk(g) && WriterHears(o, g) && OutInv(o) && WriterGuard(o, g, t)
    ensures OutInv(WriterApply(o, g, t))
  {
    match t {
      case WriterRecv =>
        var f := o.queue[0];
        assert o.written + [] + o.queue == o.written + [f] + o.queue[1..];
        assert Encode(f)[..0] == [];
      case WriterRecvNone => assert o.accepted == o.written;
      case WriterChunk(n) => ChunkKeepsOut(o, g, n);
      case WriterFrameDone => FrameDoneKeepsOut(o, g);
      case _ =>
    }
  }

  lemma SendKeepsOut(sends: seq<SendPc>, o: Outbound, t: SendAction)
    requires OutInv(o) && SendGuard(sends, t)
    requires Finishing(o) ==> !t.SendTry?
    ensures OutInv(SendChannel(sends, o, t))
  {
    var o' := SendChannel(sends, o, t);
    if o'.accepted != o.accepted {
      var f := sends[t.i].frame;
      EncodeAllAppend(o.accepted, f);
      assert (o.written + InFlight(o) + o.queue) + [f] == o.written + InFlight(o) + (o.queue + [f]);
    }
  }

  /** A clean end is reached only when nobody can send any more. */
  predicate FinishInv(s: State) {
    Finishing(s.out) ==> NoSenders(s)
  }

  lemma NoSendersStep(s: State, t: Step)
    requires NoSenders(s) && Enabled(s, t)
    ensures NoSenders(Apply(s, t))
    ensures !(t.Send? && t.c.SendTry?)
  {
    if t.Read? && t.r.ReaderNotify? { assert !SleepingAt(s.data.polls, t.pick); }
    if t.Shutdown? { assert !SleepingAt(s.data.polls, t.pick); }
  }

  /** A closing action never adds to what was accepted or sent. */
  lemma ClosingSendsNothing(s: State, who: Actor, pick: nat)
    requires Enabled(s, Shutdown(who, pick))
    ensures var o, o' := s.out, Apply(s, Shutdown(who, pick)).out;
            o' == o.(pc := o'.pc, queue := o'.queue, permits := o'.permits)
  {
  }

  lemma ClosingKeepsOut(s: State, who: Actor, pick: nat)
    requires OutInv(s.out) && Enabled(s, Shutdown(who, pick))
    ensures OutInv(Apply(s, Shutdown(who, pick)).out)
    ensures Finishing(Apply(s, Shutdown(who, pick)).out) <==> Finishing(s.out)
  {
    var o, o' := s.out, Apply(s, Shutdown(who, pick)).out;
    assert o'.accepted == o.accepted && o'.sent == o.sent && o'.fate == o.fate && o'.failed == o.failed;
    assert WriterLooping(o) ==> o' == o;
  }

  lemma OutStep(s: State, t: Step)
    requires SignalInv(s.out, s.inb, s.sig, s.handle) && OutInv(s.out) && FinishInv(s) && Enabled(s, t)
    ensures OutInv(Apply(s, t).out)
  {
    match t {
      case Write(w) => WriterKeepsOut(s.out, s.sig, w);
      case Shutdown(who, pick) => ClosingKeepsOut(s, who, pick);
      case Send(c) =>
        if NoSenders(s) { NoSendersStep(s, t); }
        SendKeepsOut(s.sends, s.out, c);
      case _ =>
    }
  }

  lemma FinishStep(s: State, t: Step)
    requires SignalInv(s.out, s.inb, s.sig, s.handle) && OutInv(s.out) && FinishInv(s) && Enabled(s, t)
    ensures FinishInv(Apply(s, t))
  {
    if NoSenders(s) { NoSendersStep(s, t); }
    match t {
      case Shutdown(who, pick) => ClosingKeepsOut(s, who, pick);
      case Send(c) =>
        var o, o' := s.out, Apply(s, t).out;
        assert o'.pc == o.pc && o'.fate == o.fate && o'.failed == o.failed;
      case _ =>
    }
  }

  // ---------------------------------------------------------------------------------------
  // Send permits
  // ---------------------------------------------------------------------------------------

  /** Permits a `send` call holds between taking them and handing them to the channel. */
  function Holding(pc: SendPc): nat {
    if pc.STrying? then |pc.frame| else 0
  }

  function InFlightSize(o: Outbound): nat {
    if o.pc.WWriting? then |o.pc.frame| else 0
  }

  predicate PermitInv(o: Outbound, sends: seq<SendPc>) {
    && o.permits + Total(o.queue, Size) + InFlightSize(o) + Total(sends, Holding) == MAX_SEND_QUEUE_BYTES
    && |o.queue| <= SEND_QUEUE_FRAMES
  }

  lemma TryKeepsPermits(sends: seq<SendPc>, o: Outbound, g: Signal, handle: HandlePc, i: nat)
    requires PermitInv(o, sends) && SendGuard(sends, SendTry(i))
    ensures PermitInv(SendChannel(sends, o, SendTry(i)), SendCalls(sends, o, g, handle, SendTry(i)))
  {
    var sends' := SendCalls(sends, o, g, handle, SendTry(i));
    TotalUpdate(sends, i, sends'[i], Holding);
    TotalAppend(o.queue, sends[i].frame, Size);
  }

  lemma SendKeepsPermits(sends: seq<SendPc>, o: Outbound, g: Signal, handle: HandlePc, t: SendAction)
    requires PermitInv(o, sends) && SendGuard(sends, t)
    ensures PermitInv(SendChannel(sends, o, t), SendCalls(sends, o, g, handle, t))
  {
    var sends' := SendCalls(sends, o, g, handle, t);
    match t {
      case SendBegin(payload) => TotalAppend(sends, sends'[|sends|], Holding);
      case SendCheck(i) => TotalUpdate(sends, i, sends'[i], Holding);
      case SendAcquire(i) => TotalUpdate(sends, i, sends'[i], Holding);
      case SendTry(i) => TryKeepsPermits(sends, o, g, handle, i);
    }
  }

  lemma WriterKeepsPermits(o: Outbound, g: Signal, sends: seq<SendPc>, t: WriterAction)
    requires PermitInv(o, sends) && WriterGuard(o, g, t)
    ensures PermitInv(WriterApply(o, g, t), sends)
  {
    if t.WriterRecv? { TotalHead(o.queue, Size); }
  }

  lemma ClosingKeepsPermits(s: State, who: Actor, pick: nat)
    requires PermitInv(s.out, s.sends) && Enabled(s, Shutdown(who, pick))
    ensures PermitInv(Apply(s, Shutdown(who, pick)).out, s.sends)
  {
    var o, o' := s.out, Apply(s, Shutdown(who, pick)).out;
    if who == Writer {
      assert InFlightSize(o) == InFlightSize(o') == 0;
      assert (o'.queue == o.queue && o'.permits == o.permits)
          || (o'.queue == [] && o'.permits == o.permits + Total(o.queue, Size));
    } else {
      assert o' == o;
    }
  }

  lemma PermitStep(s: State, t: Step)
    requires PermitInv(s.out, s.sends) && Enabled(s, t)
    ensures PermitInv(Apply(s, t).out, Apply(s, t).sends)
  {
    match t {
      case Write(w) => WriterKeepsPermits(s.out, s.sig, s.sends, w);
      case Shutdown(who, pick) =>
        ClosingKeepsPermits(s, who, pick);
        assert Apply(s, t).sends == s.sends;
      case Send(c) => SendKeepsPermits(s.sends, s.out, s.sig, s.handle, c);
      case _ =>
    }
  }

  // ---------------------------------------------------------------------------------------
  // Inbound frames
  // ---------------------------------------------------------------------------------------

  /** The frame the reader has decoded but not yet pushed. */
  function Held(pc: ReaderPc): seq<Frame> {
    match pc
    case RBorrowing(p) => [p]
    case RCreating(p) => [p]
    case RLocking(p, _) => [p]
    case RPolling(p, _) => [p]
    case RParked(p, _) => [p]
    case _ => []
  }

  function PartialIn(pc: ReaderPc): seq<byte> {
    if pc.RSelect? then pc.partial else []
  }

  predicate InboxInv(b: Inbound) {
    b.inbox.Accounted() && b.pushed == b.popped + b.inbox.frames
  }

  predicate Looping(pc: ReaderPc) {
    !pc.REnding? && !pc.RShutdown?
  }

  /** How the bytes taken from the transport are accounted for, for a reader at `pc`. */
  predicate WireAt(taken: seq<byte>, pushed: seq<Frame>, pc: ReaderPc) {
    && (Looping(pc) ==> taken == EncodeAll(pushed + Held(pc)) + PartialIn(pc))
    && Incomplete(PartialIn(pc))
    && EncodeAll(pushed) <= taken
  }

  /** A reader that met the end of the transport left at most an incomplete frame behind. */
  predicate DrainedAt(b: Inbound) {
    b.drained ==>
      && !ReaderLooping(b)
      && b.input == AtEof && b.consumed == |b.rcvd|
      && EncodeAll(b.pushed) <= b.rcvd
      && Incomplete(b.rcvd[|EncodeAll(b.pushed)|..])
  }

  predicate InInv(b: Inbound) {
    && b.consumed <= |b.rcvd|
    && WireAt(b.rcvd[..b.consumed], b.pushed, b.pc)
    && DrainedAt(b)
  }

  /** Reading on from an incomplete frame either stays incomplete, completes it, or rejects it. */
  lemma AfterBytesDecodes(partial: seq<byte>, more: seq<byte>)
    requires Incomplete(partial) && 0 < |more| <= Need(partial)
    ensures match AfterBytes(partial + more)
            case RSelect(p) => p == partial + more && Incomplete(p)
            case RBorrowing(f) => partial + more == Encode(f)
            case pc => pc == REnding(false)
  {
    var all := partial + more;
    if |partial| >= HEADER_BYTES {
      assert all[..HEADER_BYTES] == partial[..HEADER_BYTES];
    }
    if AfterBytes(all).RBorrowing? {
      FromBigEndianRoundTrip(all[..HEADER_BYTES]);
      assert all == all[..HEADER_BYTES] + all[HEADER_BYTES..];
    }
  }

  /** Taking in `more` bytes keeps the bytes taken accounted for. */
  lemma ReadExtends(taken: seq<byte>, pushed: seq<Frame>, partial: seq<byte>, more: seq<byte>)
    requires WireAt(taken, pushed, RSelect(partial)) && 0 < |more| <= Need(partial)
    ensures WireAt(taken + more, pushed, AfterBytes(partial + more))
  {
    var pc := AfterBytes(partial + more);
    AfterBytesDecodes(partial, more);
    NoTail(pushed);
    Assoc(EncodeAll(pushed), partial, more);
    if pc.RBorrowing? {
      EncodeAllAppend(pushed, pc.payload);
      NoTail(EncodeAll(pushed + [pc.payload]));
    }
  }

  lemma ReadKeepsWire(rcvd: seq<byte>, consumed: nat, pushed: seq<Frame>, partial: seq<byte>, n: nat)
    requires consumed + n <= |rcvd| && 0 < n <= Need(partial)
    requires WireAt(rcvd[..consumed], pushed, RSelect(partial))
    ensures WireAt(rcvd[..consumed + n], pushed, AfterBytes(partial + rcvd[consumed..consumed + n]))
  {
    SliceExtends(rcvd, consumed, n);
    ReadExtends(rcvd[..consumed], pushed, partial, rcvd[consumed..consumed + n]);
  }

  /** A reader still in its loop keeps its account by moving to where the wire account holds again. */
  lemma MovedKeepsIn(b: Inbound, taken: nat, pc: ReaderPc)
    requires DrainedAt(b) && ReaderLooping(b) && taken <= |b.rcvd| && WireAt(b.rcvd[..taken], b.pushed, pc)
    ensures InInv(b.(consumed := taken, pc := pc))
  {
  }

  lemma ReadMovesReader(b: Inbound, g: Signal, n: nat)
    requires ReaderGuard(b, g, ReaderRead(n))
    ensures b.pc == RSelect(b.pc.partial) && 0 < n <= Need(b.pc.partial) && b.consumed + n <= |b.rcvd|
    ensures ReaderApply(b, g, ReaderRead(n))
         == b.(consumed := b.consumed + n, pc := AfterBytes(b.pc.partial + b.rcvd[b.consumed..b.consumed + n]))
  {
  }

  lemma ReadKeepsIn(b: Inbound, g: Signal, n: nat)
    requires InInv(b) && ReaderGuard(b, g, ReaderRead(n))
    ensures InInv(ReaderApply(b, g, ReaderRead(n)))
  {
    ReadMovesReader(b, g, n);
    ReadKeepsWire(b.rcvd, b.consumed, b.pushed, b.pc.partial, n);
    MovedKeepsIn(b, b.consumed + n, AfterBytes(b.pc.partial + b.rcvd[b.consumed..b.consumed + n]));
  }

  lemma EofKeepsIn(b: Inbound, g: Signal)
    requires InInv(b) && ReaderGuard(b, g, ReaderEof)
    ensures InInv(ReaderApply(b, g, ReaderEof))
  {
    NoTail(b.pushed);
    assert b.rcvd[..b.consumed] == b.rcvd;
    assert (EncodeAll(b.pushed) + b.pc.partial)[|EncodeAll(b.pushed)|..] == b.pc.partial;
  }

  lemma PushKeepsWire(taken: seq<byte>, pushed: seq<Frame>, payload: Frame, calls: nat)
    requires WireAt(taken, pushed, RLocking(payload, calls))
    ensures WireAt(taken, pushed + [payload], RNotifying)
  {
    NoTail(pushed + [payload]);
    NoTail(EncodeAll(pushed + [payload]));
  }

  lemma ReaderKeepsIn(b: Inbound, g: Signal, t: ReaderAction)
    requires SignalOk(g) && ReaderHears(b, g) && InInv(b) && ReaderGuard(b, g, t)
    ensures InInv(ReaderApply(b, g, t))
  {
    match t {
      case ReaderRead(n) => ReadKeepsIn(b, g, n);
      case ReaderEof => EofKeepsIn(b, g);
      case ReaderTryPush => PushKeepsWire(b.rcvd[..b.consumed], b.pushed, b.pc.payload, b.pc.calls);
      case _ =>
    }
  }

  lemma ReaderKeepsInbox(b: Inbound, g: Signal, t: ReaderAction)
    requires InboxInv(b) && ReaderGuard(b, g, t)
    ensures InboxInv(ReaderApply(b, g, t))
  {
    if t.ReaderTryPush? && b.inbox.Fits(b.pc.payload) {
      PushKeepsAccounts(b.inbox, b.pc.payload);
    }
  }

  lemma PollKeepsInbox(d: Data, b: Inbound, solo: bool, t: PollAction)
    requires InboxInv(b) && PollGuard(d, solo, t)
    ensures InboxInv(PollInbound(d, b, solo, t))
  {
    if t.PollPop? && b.inbox.frames != [] {
      PopKeepsAccounts(b.inbox);
      assert b.popped + b.inbox.frames == (b.popped + [b.inbox.frames[0]]) + b.inbox.frames[1..];
    }
  }

  /** Nothing in `InInv` depends on the inbox, on pops or on how a parked reader is woken. */
  lemma InInvFrame(b: Inbound, b': Inbound)
    requires InInv(b)
    requires b'.rcvd == b.rcvd && b'.consumed == b.consumed && b'.drained == b.drained && b'.input == b.input
    requires b'.pushed == b.pushed && Held(b'.pc) == Held(b.pc) && PartialIn(b'.pc) == PartialIn(b.pc)
    requires ReaderLooping(b') <==> ReaderLooping(b)
    ensures InInv(b')
  {
  }

  lemma EffectInbound(s: State, who: Actor, pc: ShutdownPc, pick: nat)
    ensures var b' := Effect(s, who, pc, pick).inb; b' == s.inb || b' == BroadcastCapacity(s.inb)
  {
  }

  /** A closing action touches the receiving half only in its program counter and broadcasts. */
  lemma ClosingInbound(s: State, who: Actor, pick: nat)
    requires Enabled(s, Shutdown(who, pick))
    ensures var b, b' := s.inb, Apply(s, Shutdown(who, pick)).inb;
            && b' == b.(pc := b'.pc, calls := b'.calls)
            && (b' == b || b' == BroadcastCapacity(b) || (b.pc.RShutdown? && b'.pc.RShutdown?))
  {
    var e := Effect(s, who, PcOf(s, who), pick);
    EffectInbound(s, who, PcOf(s, who), pick);
    assert Apply(s, Shutdown(who, pick)) == SetPc(e, who, PcOf(s, who).Next());
  }

  lemma ClosingKeepsIn(s: State, who: Actor, pick: nat)
    requires InInv(s.inb) && InboxInv(s.inb) && Enabled(s, Shutdown(who, pick))
    ensures InInv(Apply(s, Shutdown(who, pick)).inb) && InboxInv(Apply(s, Shutdown(who, pick)).inb)
  {
    ClosingInbound(s, who, pick);
    var b' := Apply(s, Shutdown(who, pick)).inb;
    InInvFrame(s.inb, b');
  }

  lemma PollKeepsIn(d: Data, b: Inbound, solo: bool, t: PollAction)
    requires InInv(b) && PollGuard(d, solo, t)
    ensures InInv(PollInbound(d, b, solo, t))
  {
    InInvFrame(b, PollInbound(d, b, solo, t));
  }

  lemma InStep(s: State, t: Step)
    requires SignalInv(s.out, s.inb, s.sig, s.handle) && InInv(s.inb) && InboxInv(s.inb) && Enabled(s, t)
    ensures InInv(Apply(s, t).inb) && InboxInv(Apply(s, t).inb)
  {
    match t {
      case Read(r, pick) =>
        ReaderKeepsIn(s.inb, s.sig, r);
        ReaderKeepsInbox(s.inb, s.sig, r);
      case Shutdown(who, pick) => ClosingKeepsIn(s, who, pick);
      case Poll(p) =>
        PollKeepsInbox(s.data, s.inb, s.solo, p);
        PollKeepsIn(s.data, s.inb, s.solo, p);
      case Deliver(bytes) =>
        assert (s.inb.rcvd + bytes)[..s.inb.consumed] == s.inb.rcvd[..s.inb.consumed];
      case _ =>
    }
  }

  // ---------------------------------------------------------------------------------------
  // Capacity wake-ups
  // ---------------------------------------------------------------------------------------

  /** Some `next_message` call has popped and has its capacity notification ahead. */
  predicate CapacityAhead(polls: seq<PollPc>) {
    exists i | 0 <= i < |polls| :: polls[i].PSignalling?
  }

  predicate CapacityInv(b: Inbound, ahead: bool) {
    match b.pc
    case RLocking(p, calls) => calls <= b.calls
    case RPolling(p, calls) => calls <= b.calls && (b.inbox.Fits(p) ==> b.permit || calls < b.calls || ahead)
    case RParked(p, Asleep) => !b.permit && (b.inbox.Fits(p) ==> ahead)
    case _ => true
  }

  lemma NotifyKeepsAhead(d: Data, pick: nat)
    ensures CapacityAhead(NotifyOneData(d, pick).polls) <==> CapacityAhead(d.polls)
  {
    var d' := NotifyOneData(d, pick);
    assert |d'.polls| == |d.polls|;
    assert forall i | 0 <= i < |d.polls| :: d'.polls[i].PSignalling? <==> d.polls[i].PSignalling?;
  }

  lemma PollAhead(d: Data, b: Inbound, g: Signal, handle: HandlePc, solo: bool, t: PollAction)
    requires PollGuard(d, solo, t)
    ensures var d' := PollData(d, b, g, handle, solo, t);
            && (t.PollPop? && b.inbox.frames != [] ==> CapacityAhead(d'.polls))
            && (CapacityAhead(d.polls) && !t.PollSignal? ==> CapacityAhead(d'.polls))
  {
    var d' := PollData(d, b, g, handle, solo, t);
    if t.PollPop? && b.inbox.frames != [] {
      assert d'.polls[t.i].PSignalling?;
    }
    if CapacityAhead(d.polls) && !t.PollSignal? {
      var i :| 0 <= i < |d.polls| && d.polls[i].PSignalling?;
      assert d'.polls[i].PSignalling?;
    }
  }

  lemma ReaderKeepsCapacity(b: Inbound, g: Signal, ahead: bool, r: ReaderAction)
    requires CapacityInv(b, ahead) && ReaderGuard(b, g, r)
    ensures CapacityInv(ReaderApply(b, g, r), ahead)
  {
  }

  lemma PollKeepsCapacity(s: State, p: PollAction)
    requires CapacityInv(s.inb, CapacityAhead(s.data.polls)) && Enabled(s, Poll(p))
    ensures CapacityInv(Apply(s, Poll(p)).inb, CapacityAhead(Apply(s, Poll(p)).data.polls))
  {
    PollAhead(s.data, s.inb, s.sig, s.handle, s.solo, p);
  }

  lemma ClosingKeepsCapacity(s: State, who: Actor, pick: nat)
    requires CapacityInv(s.inb, CapacityAhead(s.data.polls)) && Enabled(s, Shutdown(who, pick))
    ensures var s' := Apply(s, Shutdown(who, pick)); CapacityInv(s'.inb, CapacityAhead(s'.data.polls))
  {
    var s' := Apply(s, Shutdown(who, pick));
    NotifyKeepsAhead(s.data, pick);
    ClosingInbound(s, who, pick);
    assert s'.data == s.data || s'.data == NotifyOneData(s.data, pick);
  }

  lemma CapacityStep(s: State, t: Step)
    requires CapacityInv(s.inb, CapacityAhead(s.data.polls)) && Enabled(s, t)
    ensures CapacityInv(Apply(s, t).inb, CapacityAhead(Apply(s, t).data.polls))
  {
    match t {
      case Read(r, pick) =>
        NotifyKeepsAhead(s.data, pick);
        ReaderKeepsCapacity(s.inb, s.sig, CapacityAhead(s.data.polls), r);
      case Shutdown(who, pick) => ClosingKeepsCapacity(s, who, pick);
      case Poll(p) => PollKeepsCapacity(s, p);
      case _ =>
    }
  }

  // ---------------------------------------------------------------------------------------
  // Data wake-ups, for one `next_message` call at a time
  // ---------------------------------------------------------------------------------------

  predicate NoticeAt(pc: ShutdownPc) {
    pc == SendTrue || pc == NotifyData
  }

  /** Some actor has stored `closed` and still has its data notification ahead. */
  predicate CloseNoticeAhead(s: State) {
    || (s.out.pc.WShutdown? && NoticeAt(s.out.pc.pc))
    || (s.inb.pc.RShutdown? && NoticeAt(s.inb.pc.pc))
    || (s.handle.Closing? && NoticeAt(s.handle.pc))
  }

  /** For a call at `pc`: whatever it waits for is here or has its notification ahead. */
  predicate DataAt(pc: PollPc, permit: bool, empty: bool, pushing: bool, closed: bool, closing: bool) {
    match pc
    case PChecking(_) => empty || permit || pushing
    case PWaiting => (empty || permit || pushing) && (closed ==> permit || closing)
    case PParked(false) => (empty || pushing) && (closed ==> closing)
    case _ => true
  }

  /** All calls but the newest have returned. */
  predicate OneAtATime(polls: seq<PollPc>) {
    forall i | 0 <= i < |polls| - 1 :: polls[i].PReturned?
  }

  predicate NewestAt(s: State) {
    s.data.polls != [] ==>
      DataAt(s.data.polls[|s.data.polls| - 1], s.data.permit, s.inb.inbox.frames == [], s.inb.pc.RNotifying?,
             s.sig.closed, CloseNoticeAhead(s))
  }

  lemma NoticeKeepsOneAtATime(d: Data, pick: nat)
    requires OneAtATime(d.polls)
    ensures OneAtATime(NotifyOneData(d, pick).polls)
  {
  }

  lemma PollKeepsOneAtATime(d: Data, b: Inbound, g: Signal, handle: HandlePc, p: PollAction)
    requires OneAtATime(d.polls) && PollGuard(d, true, p)
    ensures OneAtATime(PollData(d, b, g, handle, true, p).polls)
  {
  }

  lemma OneAtATimeStep(s: State, t: Step)
    requires s.solo && OneAtATime(s.data.polls) && Enabled(s, t)
    ensures OneAtATime(Apply(s, t).data.polls)
  {
    match t {
      case Read(r, pick) => NoticeKeepsOneAtATime(s.data, pick);
      case Shutdown(who, pick) =>
        ClosingNotices(s, who, pick);
        NoticeKeepsOneAtATime(s.data, pick);
      case Poll(p) => PollKeepsOneAtATime(s.data, s.inb, s.sig, s.handle, p);
      case _ =>
    }
  }

  lemma NewestSleeps(polls: seq<PollPc>, pick: nat)
    requires polls != [] && OneAtATime(polls) && PickOk(polls, pick)
    ensures polls[|polls| - 1] == PParked(false) ==> pick == |polls| - 1
    ensures polls[|polls| - 1] != PParked(false) ==> !SleepingAt(polls, pick)
  {
    if polls[|polls| - 1] == PParked(false) { assert Sleeping(polls); }
  }

  lemma NewestStepRead(s: State, r: ReaderAction, pick: nat)
    requires s.solo && OneAtATime(s.data.polls) && NewestAt(s) && Enabled(s, Read(r, pick))
    ensures NewestAt(Apply(s, Read(r, pick)))
  {
    if s.data.polls != [] && r.ReaderNotify? { NewestSleeps(s.data.polls, pick); }
  }

  /** What a closing action does to the close notices still ahead. */
  lemma ClosingNotices(s: State, who: Actor, pick: nat)
    requires Enabled(s, Shutdown(who, pick))
    ensures var s' := Apply(s, Shutdown(who, pick));
            && (PcOf(s, who) == StoreClosed || PcOf(s, who) == SendTrue ==> CloseNoticeAhead(s'))
            && (PcOf(s, who) != NotifyData && CloseNoticeAhead(s) ==> CloseNoticeAhead(s'))
            && (PcOf(s, who) != StoreClosed ==> s'.sig.closed == s.sig.closed)
            && s'.data == if PcOf(s, who) == NotifyData then NotifyOneData(s.data, pick) else s.data
  {
  }

  lemma NewestStepShutdown(s: State, who: Actor, pick: nat)
    requires s.solo && OneAtATime(s.data.polls) && NewestAt(s) && Enabled(s, Shutdown(who, pick))
    ensures NewestAt(Apply(s, Shutdown(who, pick)))
  {
    ClosingInbound(s, who, pick);
    ClosingNotices(s, who, pick);
    if s.data.polls != [] && PcOf(s, who) == NotifyData { NewestSleeps(s.data.polls, pick); }
  }

  lemma NewestStepPoll(s: State, p: PollAction)
    requires s.solo && OneAtATime(s.data.polls) && NewestAt(s) && Enabled(s, Poll(p))
    ensures NewestAt(Apply(s, Poll(p)))
  {
    var n := |s.data.polls|;
    if !p.PollBegin? {
      assert p.i == n - 1;
    }
  }

  lemma NewestStep(s: State, t: Step)
    requires s.solo && OneAtATime(s.data.polls) && NewestAt(s) && Enabled(s, t)
    ensures NewestAt(Apply(s, t))
  {
    match t {
      case Read(r, pick) => NewestStepRead(s, r, pick);
      case Shutdown(who, pick) => NewestStepShutdown(s, who, pick);
      case Poll(p) => NewestStepPoll(s, p);
      case _ =>
    }
  }

  predicate DataInv(s: State) {
    OneAtATime(s.data.polls) && NewestAt(s)
  }

  // ---------------------------------------------------------------------------------------
  // Together
  // ---------------------------------------------------------------------------------------

  predicate Inv(s: State) {
    && SignalInv(s.out, s.inb, s.sig, s.handle)
    && OutInv(s.out) && FinishInv(s)
    && PermitInv(s.out, s.sends)
    && InInv(s.inb) && InboxInv(s.inb)
    && CapacityInv(s.inb, CapacityAhead(s.data.polls))
    && (s.solo ==> DataInv(s))
  }

  lemma InvInit(s: State)
    requires Init(s)
    ensures Inv(s)
  {
    assert EncodeAll([]) == [];
  }

  /** The sending side: the signal, the frames, the clean end and the permits. */
  lemma OutboundStep(s: State, t: Step)
    requires SignalInv(s.out, s.inb, s.sig, s.handle) && OutInv(s.out) && FinishInv(s) && PermitInv(s.out, s.sends)
    requires Enabled(s, t)
    ensures var s' := Apply(s, t);
            && SignalInv(s'.out, s'.inb, s'.sig, s'.handle) && OutInv(s'.out) && FinishInv(s')
            && PermitInv(s'.out, s'.sends)
  {
    SignalStep(s, t);
    OutStep(s, t);
    FinishStep(s, t);
    PermitStep(s, t);
  }

  /** The calls waiting for data, when they take turns. */
  lemma DataStep(s: State, t: Step)
    requires (s.solo ==> DataInv(s)) && Enabled(s, t)
    ensures Apply(s, t).solo == s.solo && (s.solo ==> DataInv(Apply(s, t)))
  {
    SoloStays(s, t);
    if s.solo {
      OneAtATimeStep(s, t);
      NewestStep(s, t);
    }
  }

  lemma SoloStays(s: State, t: Step)
    requires Enabled(s, t)
    ensures Apply(s, t).solo == s.solo
  {
  }

  lemma InvStep(s: State, t: Step)
    requires Inv(s) && Enabled(s, t)
    ensures Inv(Apply(s, t)) && Apply(s, t).solo == s.solo
  {
    OutboundStep(s, t);
    InStep(s, t);
    CapacityStep(s, t);
    DataStep(s, t);
  }

  lemma {:induction false} InvReaches(s: State, ts: seq<Step>, t: State)
    requires Init(s) && Reaches(s, ts, t)
    ensures Inv(t) && t.solo == s.solo
    decreases |ts|
  {
    if ts == [] {
      InvInit(s);
    } else {
      var m := LastStep(s, ts, t);
      InvReaches(s, ts[..|ts| - 1], m);
      InvStep(m, ts[|ts| - 1]);
    }
  }

  lemma InvReachable(t: State)
    requires Reachable(t)
    ensures Inv(t)
  {
    var s, ts :| Init(s) && Reaches(s, ts, t);
    InvReaches(s, ts, t);
  }
}
