/**
 What the reader can still bring in: how a frame whose bytes are there gets into the inbox, and
 from which states another frame can follow at all.
 */
module StreamArrivals {
  import opened Framing
  import opened FrameStarts
  import opened Sequences
  import opened Inbox
  import opened StreamEngine
  import opened StreamInvariants
  import opened StreamSafety

  /** Only the reader acts. */
  predicate ReadsOnly(ts: seq<Step>) {
    forall k | 0 <= k < |ts| :: ts[k].Read?
  }

  /** Only the reader acts, and bytes arrive for it. */
  predicate Arriving(ts: seq<Step>) {
    forall k | 0 <= k < |ts| :: ts[k].Read? || ts[k].Deliver?
  }

  // ---------------------------------------------------------------------------------------
  // Reading one frame
  // ---------------------------------------------------------------------------------------

  /** The bytes of the frame read in progress and those that have arrived behind them. */
  function Unread(b: Inbound): seq<byte>
    requires b.consumed <= |b.rcvd|
  {
    PartialIn(b.pc) + b.rcvd[b.consumed..]
  }

  lemma HeaderThenBody(f: Frame)
    ensures Encode(f)[..HEADER_BYTES] == BigEndian(|f|)
    ensures AfterBytes(BigEndian(|f|)) == RSelect(BigEndian(|f|))
    ensures AfterBytes(Encode(f)) == RBorrowing(f)
    ensures Need(BigEndian(|f|)) == |f|
  {
    var header := BigEndian(|f|);
    BigEndianRoundTrip(|f|);
    assert header[..HEADER_BYTES] == header;
    assert Encode(f)[HEADER_BYTES..HEADER_BYTES + |f|] == f;
  }

  /** A frame read never holds the whole of a frame: it would have ended. */
  lemma PartialIsShort(partial: seq<byte>, unread: seq<byte>, f: Frame)
    requires Incomplete(partial) && partial <= unread && Encode(f) <= unread
    ensures |partial| < |Encode(f)| && Encode(f)[..|partial|] == partial
    ensures Need(partial) == if |partial| < HEADER_BYTES then HEADER_BYTES - |partial| else |Encode(f)| - |partial|
  {
    HeaderThenBody(f);
    BigEndianRoundTrip(|f|);
    if |partial| >= HEADER_BYTES {
      assert partial[..HEADER_BYTES] == unread[..HEADER_BYTES] == Encode(f)[..HEADER_BYTES];
    }
  }

  lemma SliceOfUnread(partial: seq<byte>, rest: seq<byte>, whole: seq<byte>, n: nat)
    requires whole <= partial + rest && |partial| + n <= |whole|
    ensures n <= |rest| && partial + rest[..n] == whole[..|partial| + n]
  {
    assert (partial + rest)[..|partial| + n] == partial + rest[..n];
  }

  /** What the bytes asked for come to, when a frame is next among the unread ones. */
  lemma NextBytes(partial: seq<byte>, rcvd: seq<byte>, k: nat, f: Frame)
    requires Incomplete(partial) && k <= |rcvd| && Encode(f) <= partial + rcvd[k..]
    ensures 0 < Need(partial) && k + Need(partial) <= |rcvd|
    ensures partial + rcvd[k..k + Need(partial)]
         == if |partial| < HEADER_BYTES then BigEndian(|f|) else Encode(f)
  {
    var n := Need(partial);
    PartialIsShort(partial, partial + rcvd[k..], f);
    SliceOfUnread(partial, rcvd[k..], Encode(f), n);
    assert rcvd[k..][..n] == rcvd[k..k + n];
    HeaderThenBody(f);
    assert Encode(f)[..|Encode(f)|] == Encode(f);
  }

  /** One read of as many bytes as are asked for: the header first, then the body. */
  lemma ReadOn(b: Inbound, g: Signal, f: Frame)
    requires b.pc.RSelect? && Incomplete(b.pc.partial) && b.consumed <= |b.rcvd| && Encode(f) <= Unread(b)
    ensures ReaderGuard(b, g, ReaderRead(Need(b.pc.partial)))
    ensures ReaderApply(b, g, ReaderRead(Need(b.pc.partial)))
         == b.(consumed := b.consumed + Need(b.pc.partial),
               pc := if |b.pc.partial| < HEADER_BYTES then RSelect(BigEndian(|f|)) else RBorrowing(f))
  {
    NextBytes(b.pc.partial, b.rcvd, b.consumed, f);
    ReadMovesReader(b, g, Need(b.pc.partial));
    HeaderThenBody(f);
  }

  /** The state once the reader holds the frame that is next in its input. */
  function WithFrame(s: State, f: Frame): State
    requires |PartialIn(s.inb.pc)| <= |Encode(f)|
  {
    s.(inb := s.inb.(consumed := s.inb.consumed + |Encode(f)| - |PartialIn(s.inb.pc)|, pc := RBorrowing(f)))
  }

  lemma ReadsBody(s: State, f: Frame) returns (ts: seq<Step>)
    requires s.inb.pc.RSelect? && Incomplete(s.inb.pc.partial) && |s.inb.pc.partial| >= HEADER_BYTES
    requires s.inb.consumed <= |s.inb.rcvd| && Encode(f) <= Unread(s.inb)
    ensures |PartialIn(s.inb.pc)| <= |Encode(f)|
    ensures Reaches(s, ts, WithFrame(s, f)) && ReadsOnly(ts)
  {
    PartialIsShort(s.inb.pc.partial, Unread(s.inb), f);
    ReadOn(s.inb, s.sig, f);
    ts := [Read(ReaderRead(Need(s.inb.pc.partial)), 0)];
    ReachesOne(s, ts[0]);
  }

  /** After the header the same bytes are unread, less the header's place among those received. */
  lemma HeaderTaken(b: Inbound, f: Frame)
    requires b.pc.RSelect? && |b.pc.partial| < HEADER_BYTES && b.consumed <= |b.rcvd| && Encode(f) <= Unread(b)
    ensures var n := HEADER_BYTES - |b.pc.partial|;
            && b.consumed + n <= |b.rcvd|
            && Unread(b.(consumed := b.consumed + n, pc := RSelect(BigEndian(|f|)))) == Unread(b)
            && Incomplete(BigEndian(|f|))
  {
    var partial, rest, n := b.pc.partial, b.rcvd[b.consumed..], HEADER_BYTES - |b.pc.partial|;
    HeaderThenBody(f);
    BigEndianRoundTrip(|f|);
    assert BigEndian(|f|)[..HEADER_BYTES] == BigEndian(|f|);
    SliceOfUnread(partial, rest, Encode(f), n);
    assert b.rcvd[b.consumed + n..] == rest[n..];
    assert partial + rest == (partial + rest[..n]) + rest[n..];
  }

  /** The state once the header of the frame that is next has been read. */
  function WithHeader(s: State, f: Frame): State
    requires |PartialIn(s.inb.pc)| <= HEADER_BYTES
  {
    s.(inb := s.inb.(consumed := s.inb.consumed + HEADER_BYTES - |PartialIn(s.inb.pc)|, pc := RSelect(BigEndian(|f|))))
  }

  lemma ReadsHeader(s: State, f: Frame) returns (ts: seq<Step>)
    requires s.inb.pc.RSelect? && |s.inb.pc.partial| < HEADER_BYTES
    requires s.inb.consumed <= |s.inb.rcvd| && Encode(f) <= Unread(s.inb)
    ensures Reaches(s, ts, WithHeader(s, f)) && ReadsOnly(ts)
    ensures WithHeader(s, f).inb.consumed <= |s.inb.rcvd|
    ensures Incomplete(BigEndian(|f|)) && Unread(WithHeader(s, f).inb) == Unread(s.inb)
  {
    ReadOn(s.inb, s.sig, f);
    HeaderTaken(s.inb, f);
    ts := [Read(ReaderRead(Need(s.inb.pc.partial)), 0)];
    ReachesOne(s, ts[0]);
  }

  lemma HeaderAndBodyAreRead(s: State, f: Frame) returns (ts: seq<Step>)
    requires s.inb.pc.RSelect? && |s.inb.pc.partial| < HEADER_BYTES
    requires s.inb.consumed <= |s.inb.rcvd| && Encode(f) <= Unread(s.inb)
    ensures Reaches(s, ts, WithFrame(WithHeader(s, f), f)) && ReadsOnly(ts)
  {
    ts := ReadsHeader(s, f);
    var us := ReadsBody(WithHeader(s, f), f);
    ReachesTrans(s, ts, WithHeader(s, f), us, WithFrame(WithHeader(s, f), f));
    ts := ts + us;
  }

  /** However much of a frame has been read, the reads that take in the rest of it. */
  lemma ReadsFrame(s: State, f: Frame) returns (ts: seq<Step>)
    requires s.inb.pc.RSelect? && Incomplete(s.inb.pc.partial)
    requires s.inb.consumed <= |s.inb.rcvd| && Encode(f) <= Unread(s.inb)
    ensures |PartialIn(s.inb.pc)| <= |Encode(f)|
    ensures Reaches(s, ts, WithFrame(s, f)) && ReadsOnly(ts)
  {
    PartialIsShort(s.inb.pc.partial, Unread(s.inb), f);
    if |s.inb.pc.partial| >= HEADER_BYTES {
      ts := ReadsBody(s, f);
    } else {
      ts := HeaderAndBodyAreRead(s, f);
      assert WithFrame(WithHeader(s, f), f) == WithFrame(s, f);
    }
  }

  // ---------------------------------------------------------------------------------------
  // Into the inbox
  // ---------------------------------------------------------------------------------------

  /** The frame the reader holds is in the inbox; its data notification is still ahead. */
  function WithPushed(s: State, f: Frame): State {
    s.(inb := s.inb.(inbox := s.inb.inbox.Push(f), pushed := s.inb.pushed + [f], pc := RNotifying))
  }

  /** Past its look at the close signal the reader pushes a frame that fits, whatever happened since. */
  lemma CreatingPushes(s: State, f: Frame) returns (ts: seq<Step>)
    requires (s.inb.pc.RCreating? || s.inb.pc.RLocking?) && s.inb.pc.payload == f
    requires InboxUnlocked(s.data.polls) && s.inb.inbox.Fits(f)
    ensures Reaches(s, ts, WithPushed(s, f)) && ReadsOnly(ts)
  {
    if s.inb.pc.RLocking? {
      ts := [Read(ReaderTryPush, 0)];
      ReachesOne(s, ts[0]);
    } else {
      ts := [Read(ReaderCreate, 0), Read(ReaderTryPush, 0)];
      TwoSteps(s, ts[0], ts[1]);
    }
  }

  lemma BorrowingPushes(s: State, f: Frame) returns (ts: seq<Step>)
    requires s.inb.pc == RBorrowing(f) && !s.sig.watch.value
    requires InboxUnlocked(s.data.polls) && s.inb.inbox.Fits(f)
    ensures Reaches(s, ts, WithPushed(s, f)) && ReadsOnly(ts)
  {
    var s1 := s.(inb := s.inb.(pc := RCreating(f)));
    ReachesOne(s, Read(ReaderBorrow, 0));
    var us := CreatingPushes(s1, f);
    ReachesTrans(s, [Read(ReaderBorrow, 0)], s1, us, WithPushed(s, f));
    ts := [Read(ReaderBorrow, 0)] + us;
  }

  /** `t` is `s` with `f` pushed and its notification ahead. */
  predicate Brought(s: State, t: State, f: Frame) {
    && t == s.(inb := t.inb)
    && t.inb.pc == RNotifying && t.inb.inbox == s.inb.inbox.Push(f)
    && t.inb.pushed == s.inb.pushed + [f] && t.inb.popped == s.inb.popped
  }

  /** A reader that waits for room it has by now is not asleep: it goes round its loop. */
  lemma WaitingReaderGoesOn(s: State) returns (t: Step)
    requires Inv(s) && (s.inb.pc.RPolling? || s.inb.pc.RParked?)
    requires !CapacityAhead(s.data.polls) && s.inb.inbox.Fits(s.inb.pc.payload)
    ensures t.Read? && Enabled(s, t)
    ensures var b, b' := s.inb, Apply(s, t).inb;
            && Apply(s, t) == s.(inb := b')
            && b'.pc == RBorrowing(b.pc.payload)
            && b'.inbox == b.inbox && b'.pushed == b.pushed && b'.popped == b.popped
  {
    t := Read(if s.inb.pc.RPolling? then ReaderPollCapacity else ReaderWoken, 0);
  }

  lemma WaitingPushes(s: State, s1: State, wake: Step, f: Frame) returns (ts: seq<Step>)
    requires wake.Read? && Enabled(s, wake) && s1 == Apply(s, wake) && s1 == s.(inb := s1.inb)
    requires s1.inb.pc == RBorrowing(f) && s1.inb.inbox == s.inb.inbox
    requires s1.inb.pushed == s.inb.pushed && s1.inb.popped == s.inb.popped
    requires !s.sig.watch.value && InboxUnlocked(s.data.polls) && s.inb.inbox.Fits(f)
    ensures Reaches(s, ts, WithPushed(s1, f)) && ReadsOnly(ts) && Brought(s, WithPushed(s1, f), f)
  {
    ReachesOne(s, wake);
    ts := BorrowingPushes(s1, f);
    ReachesTrans(s, [wake], s1, ts, WithPushed(s1, f));
    ts := [wake] + ts;
  }

  /** A frame the reader already holds gets into an inbox it fits, however far the reader has come. */
  lemma HeldFrameIsPushed(s: State, f: Frame) returns (ts: seq<Step>, t: State)
    requires Inv(s) && Held(s.inb.pc) == [f] && !s.sig.watch.value
    requires !CapacityAhead(s.data.polls) && s.inb.inbox.Fits(f)
    ensures Reaches(s, ts, t) && ReadsOnly(ts) && Brought(s, t, f)
  {
    if s.inb.pc.RPolling? || s.inb.pc.RParked? {
      var wake := WaitingReaderGoesOn(s);
      ts := WaitingPushes(s, Apply(s, wake), wake, f);
      t := WithPushed(Apply(s, wake), f);
    } else {
      t := WithPushed(s, f);
      if s.inb.pc.RBorrowing? { ts := BorrowingPushes(s, f); } else { ts := CreatingPushes(s, f); }
    }
  }

  /** A frame whose bytes are all there is read and pushed. */
  lemma UnreadFrameIsPushed(s: State, f: Frame) returns (ts: seq<Step>)
    requires s.inb.pc.RSelect? && Incomplete(s.inb.pc.partial) && !s.sig.watch.value
    requires s.inb.consumed <= |s.inb.rcvd| && Encode(f) <= Unread(s.inb)
    requires InboxUnlocked(s.data.polls) && s.inb.inbox.Fits(f)
    ensures |PartialIn(s.inb.pc)| <= |Encode(f)|
    ensures Reaches(s, ts, WithPushed(WithFrame(s, f), f)) && ReadsOnly(ts)
  {
    ts := ReadsFrame(s, f);
    var us := BorrowingPushes(WithFrame(s, f), f);
    ReachesTrans(s, ts, WithFrame(s, f), us, WithPushed(WithFrame(s, f), f));
    ts := ts + us;
  }

  /** The state once the reader has taken one delivered frame all the way into the inbox. */
  function WithArrived(s: State, f: Frame): State {
    s.(inb := s.inb.(consumed := s.inb.consumed + |Encode(f)|, inbox := s.inb.inbox.Push(f),
                     pushed := s.inb.pushed + [f]),
       data := s.data.(permit := true))
  }

  /** The bytes of `f` stand next in the reader's input. */
  predicate NextInInput(b: Inbound, f: Frame) {
    b.consumed <= |b.rcvd| && Encode(f) <= b.rcvd[b.consumed..]
  }

  /** A frame whose bytes are all there reaches the inbox and leaves a stored notification. */
  lemma DeliveredFrameArrives(s: State, f: Frame) returns (ts: seq<Step>)
    requires s.inb.pc == RSelect([]) && !s.sig.watch.value
    requires InboxUnlocked(s.data.polls) && !Sleeping(s.data.polls) && s.inb.inbox.Fits(f)
    requires NextInInput(s.inb, f)
    ensures Reaches(s, ts, WithArrived(s, f)) && ReadsOnly(ts)
  {
    assert [] + s.inb.rcvd[s.inb.consumed..] == s.inb.rcvd[s.inb.consumed..];
    ts := UnreadFrameIsPushed(s, f);
    var m := WithPushed(WithFrame(s, f), f);
    var us := NoticeIsStored(m);
    ReachesTrans(s, ts, m, us, WithArrived(s, f));
    ts := ts + us;
  }

  lemma NoticeIsStored(s: State) returns (ts: seq<Step>)
    requires s.inb.pc == RNotifying && !Sleeping(s.data.polls)
    ensures Reaches(s, ts, s.(inb := s.inb.(pc := RSelect([])), data := s.data.(permit := true))) && ReadsOnly(ts)
  {
    assert !SleepingAt(s.data.polls, 0);
    ts := [Read(ReaderNotify, 0)];
    ReachesOne(s, ts[0]);
  }

  // ---------------------------------------------------------------------------------------
  // Whether anything can still come
  // ---------------------------------------------------------------------------------------

  /** The unread bytes hold a whole frame, or are the start of one that can still be completed. */
  ghost predicate FrameAhead(unread: seq<byte>, input: Input) {
    exists f: Frame :: FrameFrom(unread, input, f)
  }

  predicate FrameFrom(unread: seq<byte>, input: Input, f: Frame) {
    Encode(f) <= unread || (input == Flowing && unread <= Encode(f))
  }

  /** In terms of the bytes alone: one decodes from them, or they can still become one. */
  lemma FrameAheadExactly(unread: seq<byte>, input: Input)
    ensures FrameAhead(unread, input) <==> DecodeFrame(unread, false).Got? || (input == Flowing && Startable(unread))
  {
    StartsAFrameExactly(unread);
    HoldsAFrameExactly(unread);
    if FrameAhead(unread, input) {
      var f: Frame :| FrameFrom(unread, input, f);
    }
    if f: Frame :| Encode(f) <= unread {
      assert FrameFrom(unread, input, f);
    }
    if f: Frame :| input == Flowing && unread <= Encode(f) {
      assert FrameFrom(unread, input, f);
    }
  }

  /** A frame read can be under way on bytes that can no longer become a frame. */
  lemma HopelessHeader()
    ensures Incomplete([255]) && !FrameAhead([255], Flowing)
  {
    FrameAheadExactly([255], Flowing);
    assert ([255] + Zeros(3))[0] == 255;
  }

  /**
   The reader can still push a frame, given room: with the close signal up only if it is past
   its last look at it; otherwise if it holds a frame or has one ahead of it.
   */
  ghost predicate CanPush(b: Inbound, raised: bool)
    requires b.consumed <= |b.rcvd|
  {
    match b.pc
    case REnding(_) => false
    case RShutdown(_) => false
    case RSelect(_) => !raised && FrameAhead(Unread(b), b.input)
    case RNotifying => !raised && FrameAhead(Unread(b), b.input)
    case RCreating(_) => true
    case RLocking(_, _) => true
    case _ => !raised
  }

  lemma DeliverBringsNoFrame(unread: seq<byte>, bytes: seq<byte>)
    requires !FrameAhead(unread, Flowing)
    ensures !FrameAhead(unread + bytes, Flowing)
  {
    if FrameAhead(unread + bytes, Flowing) {
      var f: Frame :| FrameFrom(unread + bytes, Flowing, f);
      assert FrameFrom(unread, Flowing, f);
      assert false;
    }
  }

  lemma UnreadSplits(partial: seq<byte>, rcvd: seq<byte>, k: nat, n: nat)
    requires k + n <= |rcvd|
    ensures partial + rcvd[k..] == (partial + rcvd[k..k + n]) + rcvd[k + n..]
  {
    assert rcvd[k..] == rcvd[k..k + n] + rcvd[k + n..];
    Assoc(partial, rcvd[k..k + n], rcvd[k + n..]);
  }

  /** The same on plain bytes: what is read and what is left make up what was unread. */
  lemma ReadBytesKept(partial: seq<byte>, rcvd: seq<byte>, k: nat, n: nat)
    requires Incomplete(partial) && k + n <= |rcvd| && 0 < n <= Need(partial)
    ensures match AfterBytes(partial + rcvd[k..k + n])
            case RSelect(p) => p + rcvd[k + n..] == partial + rcvd[k..]
            case RBorrowing(f) => Encode(f) <= partial + rcvd[k..]
            case pc => pc == REnding(false)
  {
    AfterBytesDecodes(partial, rcvd[k..k + n]);
    UnreadSplits(partial, rcvd, k, n);
  }

  lemma UnreadAt(b: Inbound, k: nat, partial: seq<byte>)
    requires k <= |b.rcvd|
    ensures Unread(b.(consumed := k, pc := RSelect(partial))) == partial + b.rcvd[k..]
  {
  }

  /** Bytes with no frame ahead stay so when some of them are read. */
  lemma SpentBytesStay(partial: seq<byte>, rcvd: seq<byte>, k: nat, n: nat, input: Input)
    requires Incomplete(partial) && k + n <= |rcvd| && 0 < n <= Need(partial)
    requires !FrameAhead(partial + rcvd[k..], input)
    ensures match AfterBytes(partial + rcvd[k..k + n])
            case RSelect(p) => !FrameAhead(p + rcvd[k + n..], input)
            case pc => pc == REnding(false)
  {
    var pc := AfterBytes(partial + rcvd[k..k + n]);
    ReadBytesKept(partial, rcvd, k, n);
    if pc.RBorrowing? { assert FrameFrom(partial + rcvd[k..], input, pc.payload); }
  }

  lemma SpentQuietReadStays(b: Inbound, g: Signal, n: nat)
    requires b.consumed <= |b.rcvd| && Incomplete(PartialIn(b.pc)) && ReaderGuard(b, g, ReaderRead(n))
    requires !CanPush(b, false)
    ensures var b' := ReaderApply(b, g, ReaderRead(n)); b'.consumed <= |b'.rcvd| && !CanPush(b', false)
  {
    var pc := AfterBytes(b.pc.partial + b.rcvd[b.consumed..b.consumed + n]);
    ReadMovesReader(b, g, n);
    UnreadAt(b, b.consumed, b.pc.partial);
    SpentBytesStay(b.pc.partial, b.rcvd, b.consumed, n, b.input);
    if pc.RSelect? { UnreadAt(b, b.consumed + n, pc.partial); }
  }

  lemma SpentReadStays(b: Inbound, g: Signal, n: nat)
    requires b.consumed <= |b.rcvd| && Incomplete(PartialIn(b.pc)) && ReaderGuard(b, g, ReaderRead(n))
    requires !CanPush(b, g.watch.value)
    ensures var b' := ReaderApply(b, g, ReaderRead(n));
            b'.consumed <= |b'.rcvd| && b'.pushed == b.pushed && !CanPush(b', g.watch.value)
  {
    ReadMovesReader(b, g, n);
    if g.watch.value {
      AfterBytesDecodes(b.pc.partial, b.rcvd[b.consumed..b.consumed + n]);
    } else {
      SpentQuietReadStays(b, g, n);
    }
  }

  lemma SpentReaderStays(b: Inbound, g: Signal, r: ReaderAction)
    requires SignalOk(g) && ReaderHears(b, g) && b.consumed <= |b.rcvd| && Incomplete(PartialIn(b.pc))
    requires ReaderGuard(b, g, r) && !CanPush(b, g.watch.value)
    ensures var b' := ReaderApply(b, g, r);
            b'.consumed <= |b'.rcvd| && !CanPush(b', g.watch.value) && b'.pushed == b.pushed
  {
    if r.ReaderRead? { SpentReadStays(b, g, r.n); }
  }

  lemma SpentInputStays(b: Inbound, raised: bool, bytes: seq<byte>)
    requires b.consumed <= |b.rcvd| && b.input == Flowing && !CanPush(b, raised)
    ensures !CanPush(b.(rcvd := b.rcvd + bytes), raised)
  {
    var b' := b.(rcvd := b.rcvd + bytes);
    assert b'.rcvd[b.consumed..] == b.rcvd[b.consumed..] + bytes;
    Assoc(PartialIn(b.pc), b.rcvd[b.consumed..], bytes);
    assert Unread(b') == Unread(b) + bytes;
    if b.pc.RSelect? || b.pc.RNotifying? {
      if !raised { DeliverBringsNoFrame(Unread(b), bytes); }
    }
  }

  lemma SpentEndStays(b: Inbound, raised: bool, clean: bool)
    requires b.consumed <= |b.rcvd| && b.input == Flowing && !CanPush(b, raised)
    ensures !CanPush(b.(input := if clean then AtEof else Severed), raised)
  {
    var b' := b.(input := if clean then AtEof else Severed);
    if (b.pc.RSelect? || b.pc.RNotifying?) && FrameAhead(Unread(b'), b'.input) {
      var f: Frame :| FrameFrom(Unread(b'), b'.input, f);
      assert FrameFrom(Unread(b), b.input, f);
    }
  }

  lemma SpentClosingStays(s: State, who: Actor, pick: nat)
    requires s.inb.consumed <= |s.inb.rcvd| && Enabled(s, Shutdown(who, pick)) && !CanPush(s.inb, s.sig.watch.value)
    ensures var s' := Apply(s, Shutdown(who, pick));
            && s'.inb.consumed <= |s'.inb.rcvd| && s'.inb.pushed == s.inb.pushed
            && !CanPush(s'.inb, s'.sig.watch.value)
  {
    ClosingInbound(s, who, pick);
    assert s.sig.watch.value ==> Apply(s, Shutdown(who, pick)).sig.watch.value;
    assert Unread(Apply(s, Shutdown(who, pick)).inb) == Unread(s.inb) || Apply(s, Shutdown(who, pick)).inb.pc.RShutdown?;
  }

  lemma SpentPollStays(d: Data, b: Inbound, solo: bool, raised: bool, p: PollAction)
    requires b.consumed <= |b.rcvd| && PollGuard(d, solo, p) && !CanPush(b, raised)
    ensures var b' := PollInbound(d, b, solo, p);
            b'.consumed <= |b'.rcvd| && b'.pushed == b.pushed && !CanPush(b', raised)
  {
    var b' := PollInbound(d, b, solo, p);
    assert b'.pc == b.pc || (b.pc.RParked? && b'.pc.RParked?);
  }

  /** A reader that can push nothing more never will, whatever anybody does. */
  lemma SpentStays(s: State, t: Step)
    requires Inv(s) && Enabled(s, t) && !CanPush(s.inb, s.sig.watch.value)
    ensures var s' := Apply(s, t);
            && s'.inb.consumed <= |s'.inb.rcvd| && s'.inb.pushed == s.inb.pushed
            && !CanPush(s'.inb, s'.sig.watch.value)
  {
    match t {
      case Read(r, pick) => SpentReaderStays(s.inb, s.sig, r);
      case Shutdown(who, pick) => SpentClosingStays(s, who, pick);
      case Poll(p) => SpentPollStays(s.data, s.inb, s.solo, s.sig.watch.value, p);
      case Deliver(bytes) => SpentInputStays(s.inb, s.sig.watch.value, bytes);
      case EndInput(clean) => SpentEndStays(s.inb, s.sig.watch.value, clean);
      case _ =>
    }
  }

  /** The bytes that complete a frame arrive. */
  lemma FrameIsCompleted(s: State, f: Frame) returns (ts: seq<Step>, t: State)
    requires s.inb.pc.RSelect? && s.inb.consumed <= |s.inb.rcvd| && FrameFrom(Unread(s.inb), s.inb.input, f)
    ensures Reaches(s, ts, t) && Arriving(ts) && t == s.(inb := s.inb.(rcvd := t.inb.rcvd))
    ensures s.inb.consumed <= |t.inb.rcvd| && Encode(f) <= Unread(t.inb)
  {
    if Encode(f) <= Unread(s.inb) {
      ts, t := [], s;
    } else {
      var unread := Unread(s.inb);
      var bytes := Encode(f)[|unread|..];
      ts, t := [Deliver(bytes)], Apply(s, Deliver(bytes));
      ReachesOne(s, Deliver(bytes));
      assert t.inb.rcvd[s.inb.consumed..] == s.inb.rcvd[s.inb.consumed..] + bytes;
      Assoc(s.inb.pc.partial, s.inb.rcvd[s.inb.consumed..], bytes);
      assert unread + bytes == Encode(f);
    }
  }

  /** From a reader with a frame ahead of it, a run that pushes one. */
  lemma AheadIsPushed(s: State) returns (ts: seq<Step>, t: State)
    requires s.inb.pc.RSelect? && Incomplete(s.inb.pc.partial) && !s.sig.watch.value
    requires s.inb.consumed <= |s.inb.rcvd| && FrameAhead(Unread(s.inb), s.inb.input)
    requires InboxUnlocked(s.data.polls) && s.inb.inbox.Accounted() && s.inb.inbox.frames == []
    ensures Reaches(s, ts, t) && Arriving(ts)
    ensures t == s.(inb := t.inb) && |t.inb.pushed| == |s.inb.pushed| + 1 && t.inb.pc == RNotifying
  {
    var f: Frame :| FrameFrom(Unread(s.inb), s.inb.input, f);
    var m: State;
    ts, m := FrameIsCompleted(s, f);
    EmptyInboxAdmits(m.inb.inbox, f);
    var us := UnreadFrameIsPushed(m, f);
    t := WithPushed(WithFrame(m, f), f);
    ReachesTrans(s, ts, m, us, t);
    ts := ts + us;
  }

  lemma NotifyingPushes(s: State) returns (ts: seq<Step>, t: State)
    requires s.inb.pc == RNotifying && !Sleeping(s.data.polls) && !s.sig.watch.value
    requires s.inb.consumed <= |s.inb.rcvd| && FrameAhead(Unread(s.inb), s.inb.input)
    requires InboxUnlocked(s.data.polls) && s.inb.inbox.Accounted() && s.inb.inbox.frames == []
    ensures Reaches(s, ts, t) && Arriving(ts)
    ensures |t.inb.pushed| == |s.inb.pushed| + 1 && t.inb.pc == RNotifying
  {
    ts := NoticeIsStored(s);
    var m := s.(inb := s.inb.(pc := RSelect([])), data := s.data.(permit := true));
    assert Unread(m.inb) == Unread(s.inb);
    var us: seq<Step>;
    us, t := AheadIsPushed(m);
    ReachesTrans(s, ts, m, us, t);
    ts := ts + us;
  }

  /** A reader that can still push a frame, with an empty inbox before it, has a run that does. */
  lemma PushIsReached(s: State) returns (ts: seq<Step>, t: State)
    requires Inv(s) && CanPush(s.inb, s.sig.watch.value) && s.inb.inbox.frames == []
    requires !CapacityAhead(s.data.polls) && (s.inb.pc.RNotifying? ==> !Sleeping(s.data.polls))
    ensures Reaches(s, ts, t) && Arriving(ts)
    ensures |t.inb.pushed| == |s.inb.pushed| + 1 && t.inb.pc == RNotifying
    ensures !s.inb.pc.RNotifying? ==> t == s.(inb := t.inb)
  {
    assert InboxUnlocked(s.data.polls);
    if s.inb.pc.RNotifying? {
      ts, t := NotifyingPushes(s);
    } else if s.inb.pc.RSelect? {
      ts, t := AheadIsPushed(s);
    } else {
      EmptyInboxAdmits(s.inb.inbox, s.inb.pc.payload);
      if s.inb.pc.RCreating? || s.inb.pc.RLocking? {
        ts := CreatingPushes(s, s.inb.pc.payload);
        t := WithPushed(s, s.inb.pc.payload);
      } else {
        ts, t := HeldFrameIsPushed(s, s.inb.pc.payload);
      }
    }
  }
}
