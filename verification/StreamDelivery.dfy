/**
 Everything accepted can be delivered. From any reachable state of two joined streams in which the
 sender's writer and the receiver's reader are at work, a run of the two tasks, the network and the
 receiving caller hands over every payload accepted so far, whatever is queued, in flight, half
 read or held back by a full inbox.
 */
module StreamDelivery {
  import opened Framing
  import opened Sequences
  import opened Inbox
  import opened Wrappers
  import opened StreamEngine
  import opened StreamInvariants
  import opened StreamSafety
  import opened StreamArrivals
  import opened StreamCalls
  import opened StreamDrain
  import opened StreamPair

  // ---------------------------------------------------------------------------------------
  // The receiving side
  // ---------------------------------------------------------------------------------------

  /** Exactly these frames have been received; the reader is at work, the stream open, no call under way. */
  predicate Receiving(s: State, frames: seq<Frame>) {
    && s.inb.rcvd == EncodeAll(frames) && ReaderLooping(s.inb)
    && !s.sig.watch.value && s.handle == Registered && AllReturned(s.data.polls)
  }

  lemma ReceivedAreFrames(s: State, frames: seq<Frame>)
    requires Reachable(s) && s.inb.rcvd == EncodeAll(frames)
    ensures s.inb.popped + s.inb.inbox.frames == s.inb.pushed <= frames
  {
    PushedIsPrefixOfParse(s);
    NoTail(EncodeAll(frames));
    ParseOfEncoding(frames, []);
  }

  lemma SplitAtPushed(pushed: seq<Frame>, frames: seq<Frame>)
    requires pushed <= frames && |pushed| < |frames|
    ensures EncodeAll(frames) == EncodeAll(pushed) + (Encode(frames[|pushed|]) + EncodeAll(frames[|pushed| + 1..]))
  {
    var rest := frames[|pushed|..];
    EncodeAllConcat(pushed, rest);
    assert frames == pushed + rest && rest[1..] == frames[|pushed| + 1..];
  }

  lemma SameAfter(front: seq<byte>, x: seq<byte>, y: seq<byte>)
    requires front + x == front + y
    ensures x == y
  {
    assert x == (front + x)[|front|..] && y == (front + y)[|front|..];
  }

  lemma NextAfterTaken(taken: seq<byte>, rest: seq<byte>, pushed: seq<Frame>, partial: seq<byte>, frames: seq<Frame>)
    requires taken == EncodeAll(pushed) + partial && taken + rest == EncodeAll(frames)
    requires pushed <= frames && |pushed| < |frames|
    ensures partial + rest == Encode(frames[|pushed|]) + EncodeAll(frames[|pushed| + 1..])
  {
    Assoc(EncodeAll(pushed), partial, rest);
    SplitAtPushed(pushed, frames);
    SameAfter(EncodeAll(pushed), partial + rest, Encode(frames[|pushed|]) + EncodeAll(frames[|pushed| + 1..]));
  }

  lemma TakenSoFar(b: Inbound)
    requires InInv(b) && Looping(b.pc) && Held(b.pc) == []
    ensures b.rcvd[..b.consumed] == EncodeAll(b.pushed) + PartialIn(b.pc)
  {
    NoTail(b.pushed);
  }

  /** For a reader that holds no frame, the next one stands at the front of what is unread. */
  lemma NextIsUnread(b: Inbound, frames: seq<Frame>)
    requires b.consumed <= |b.rcvd| && b.rcvd[..b.consumed] == EncodeAll(b.pushed) + PartialIn(b.pc)
    requires b.rcvd == EncodeAll(frames) && b.pushed <= frames && |b.pushed| < |frames|
    ensures Encode(frames[|b.pushed|]) <= Unread(b)
  {
    assert b.rcvd == b.rcvd[..b.consumed] + b.rcvd[b.consumed..];
    NextAfterTaken(b.rcvd[..b.consumed], b.rcvd[b.consumed..], b.pushed, PartialIn(b.pc), frames);
  }

  lemma SelectingPushesNext(s: State, frames: seq<Frame>) returns (ts: seq<Step>, t: State)
    requires Inv(s) && Receiving(s, frames) && s.inb.pc.RSelect?
    requires s.inb.inbox.frames == [] && s.inb.pushed <= frames && |s.inb.pushed| < |frames|
    ensures Reaches(s, ts, t) && ReadsOnly(ts) && Receiving(t, frames)
    ensures |t.inb.pushed| == |s.inb.pushed| + 1 && t.inb.popped == s.inb.popped
  {
    var f := frames[|s.inb.pushed|];
    TakenSoFar(s.inb);
    NextIsUnread(s.inb, frames);
    EmptyInboxAdmits(s.inb.inbox, f);
    ts := UnreadFrameIsPushed(s, f);
    t := WithPushed(WithFrame(s, f), f);
  }

  lemma NotifyingGoesOn(s: State, frames: seq<Frame>) returns (ts: seq<Step>, t: State)
    requires Receiving(s, frames) && s.inb.pc == RNotifying
    ensures Reaches(s, ts, t) && ReadsOnly(ts) && Receiving(t, frames)
    ensures t.inb == s.inb.(pc := RSelect([]))
  {
    assert !Sleeping(s.data.polls);
    ts := NoticeIsStored(s);
    t := s.(inb := s.inb.(pc := RSelect([])), data := s.data.(permit := true));
  }

  /** The reader's and the caller's own actions. */
  predicate Receives(ts: seq<Step>) {
    forall k | 0 <= k < |ts| :: ts[k].Read? || ts[k].Poll?
  }

  lemma {:induction false} InputIsLeft(s: State, ts: seq<Step>, t: State)
    requires Reaches(s, ts, t) && Receives(ts)
    ensures t.inb.rcvd == s.inb.rcvd && t.inb.input == s.inb.input
    decreases |ts|
  {
    if ts != [] {
      if ts[0].Read? { ReaderLeavesInput(s.inb, s.sig, ts[0].r); }
      assert Receives(ts[1..]);
      InputIsLeft(Apply(s, ts[0]), ts[1..], t);
    }
  }

  lemma HeldIsPushed(s: State, frames: seq<Frame>) returns (ts: seq<Step>, t: State)
    requires Inv(s) && Receiving(s, frames) && Held(s.inb.pc) != [] && s.inb.inbox.frames == []
    ensures Reaches(s, ts, t) && ReadsOnly(ts) && Receiving(t, frames)
    ensures |t.inb.pushed| == |s.inb.pushed| + 1 && t.inb.popped == s.inb.popped
  {
    var f := Held(s.inb.pc)[0];
    EmptyInboxAdmits(s.inb.inbox, f);
    ts, t := HeldFrameIsPushed(s, f);
    InputIsLeft(s, ts, t);
  }

  lemma NotifyingPushesNext(s: State, frames: seq<Frame>) returns (ts: seq<Step>, t: State)
    requires Reachable(s) && Receiving(s, frames) && s.inb.pc == RNotifying
    requires s.inb.inbox.frames == [] && s.inb.pushed <= frames && |s.inb.pushed| < |frames|
    ensures Reaches(s, ts, t) && ReadsOnly(ts) && Receiving(t, frames)
    ensures |t.inb.pushed| == |s.inb.pushed| + 1 && t.inb.popped == s.inb.popped
  {
    var m: State, us: seq<Step>;
    ts, m := NotifyingGoesOn(s, frames);
    ReachableOnward(s, ts, m);
    InvReachable(m);
    us, t := SelectingPushesNext(m, frames);
    ReachesTrans(s, ts, m, us, t);
    ts := ts + us;
  }

  /** With an empty inbox before it, the reader brings in the next frame received. */
  lemma NextIsPushed(s: State, frames: seq<Frame>) returns (ts: seq<Step>, t: State)
    requires Reachable(s) && Receiving(s, frames) && s.inb.inbox.frames == [] && |s.inb.pushed| < |frames|
    ensures Reaches(s, ts, t) && ReadsOnly(ts) && Receiving(t, frames)
    ensures |t.inb.pushed| == |s.inb.pushed| + 1 && t.inb.popped == s.inb.popped
  {
    InvReachable(s);
    ReceivedAreFrames(s, frames);
    if s.inb.pc.RSelect? {
      ts, t := SelectingPushesNext(s, frames);
    } else if s.inb.pc.RNotifying? {
      ts, t := NotifyingPushesNext(s, frames);
    } else {
      ts, t := HeldIsPushed(s, frames);
    }
  }

  /** The oldest frame of the inbox is taken, and a reader waiting for room may go on. */
  lemma OldestIsTaken(s: State, frames: seq<Frame>) returns (ts: seq<Step>)
    requires Receiving(s, frames) && s.inb.inbox.frames != []
    ensures Reaches(s, ts, AfterPoll(s)) && PollsOnly(ts) && Receiving(AfterPoll(s), frames)
    ensures AfterPoll(s).inb.pushed == s.inb.pushed && |AfterPoll(s).inb.popped| == |s.inb.popped| + 1
  {
    ts := PollIsARun(s);
  }

  /** Everything received can be taken: the reader and one call after the other hand it all over. */
  lemma {:induction false} ReceivedIsTaken(s: State, frames: seq<Frame>) returns (ts: seq<Step>, t: State)
    requires Reachable(s) && Receiving(s, frames)
    ensures Reaches(s, ts, t) && Receives(ts) && Receiving(t, frames) && t.inb.popped == t.inb.pushed == frames
    decreases |frames| - |s.inb.popped|, |frames| - |s.inb.pushed|
  {
    ReceivedAreFrames(s, frames);
    if s.inb.popped == frames {
      ts, t := [], s;
    } else {
      var m: State, us: seq<Step>;
      if s.inb.inbox.frames == [] {
        assert s.inb.popped == s.inb.pushed;
        ts, m := NextIsPushed(s, frames);
      } else {
        ts := OldestIsTaken(s, frames);
        m := AfterPoll(s);
      }
      ReachableOnward(s, ts, m);
      ReceivedAreFrames(m, frames);
      us, t := ReceivedIsTaken(m, frames);
      ReachesTrans(s, ts, m, us, t);
      ts := ts + us;
    }
  }

  // ---------------------------------------------------------------------------------------
  // The network between
  // ---------------------------------------------------------------------------------------

  function Locals(side: Side, ts: seq<Step>): (us: seq<PairStep>)
    ensures |us| == |ts| && forall k | 0 <= k < |ts| :: us[k] == Local(side, ts[k])
  {
    seq(|ts|, k requires 0 <= k < |ts| => Local(side, ts[k]))
  }

  /** Nothing arrives from the network. */
  predicate OwnActions(ts: seq<Step>) {
    forall k | 0 <= k < |ts| :: !ts[k].Deliver? && !ts[k].EndInput?
  }

  lemma {:induction false} LocalsLift(p: Pair, side: Side, ts: seq<Step>, s: State)
    requires Reaches(p.At(side), ts, s) && OwnActions(ts)
    ensures PairReaches(p, Locals(side, ts), p.Set(side, s))
    decreases |ts|
  {
    if ts != [] {
      var q := PairApply(p, Local(side, ts[0]));
      assert OwnActions(ts[1..]);
      LocalsLift(q, side, ts[1..], s);
      assert Locals(side, ts)[1..] == Locals(side, ts[1..]);
    }
  }

  lemma {:induction false} PairReachesTrans(p: Pair, ts: seq<PairStep>, m: Pair, us: seq<PairStep>, q: Pair)
    requires PairReaches(p, ts, m) && PairReaches(m, us, q)
    ensures PairReaches(p, ts + us, q)
    decreases |ts|
  {
    if ts == [] {
      assert ts + us == us;
    } else {
      PairReachesTrans(PairApply(p, ts[0]), ts[1..], m, us, q);
      assert (ts + us)[1..] == ts[1..] + us;
    }
  }

  lemma PairReachesOne(p: Pair, t: PairStep)
    requires PairEnabled(p, t)
    ensures PairReaches(p, [t], PairApply(p, t))
  {
    assert [t][1..] == [];
    assert PairReaches(PairApply(p, t), [], PairApply(p, t));
  }

  lemma PairReachableOnward(p: Pair, ts: seq<PairStep>, q: Pair)
    requires PairReachable(p) && PairReaches(p, ts, q)
    ensures PairReachable(q)
  {
    var p0, us :| PairInit(p0) && PairReaches(p0, us, p);
    PairReachesTrans(p0, us, p, ts, q);
  }

  lemma {:induction false} SideReaches(p: Pair, ts: seq<PairStep>, q: Pair, side: Side) returns (us: seq<Step>)
    requires PairReaches(p, ts, q)
    ensures Reaches(p.At(side), us, q.At(side))
    decreases |ts|
  {
    if ts == [] {
      us := [];
    } else {
      var m := PairApply(p, ts[0]);
      us := SideReaches(m, ts[1..], q, side);
      var t := SideStep(p, ts[0], side);
      if t.Some? {
        ReachesOne(p.At(side), t.value);
        ReachesTrans(p.At(side), [t.value], m.At(side), us, q.At(side));
        us := [t.value] + us;
      }
    }
  }

  /** A step of the pair is a step of the side, or leaves it alone. */
  lemma SideStep(p: Pair, t: PairStep, side: Side) returns (u: Option<Step>)
    requires PairEnabled(p, t)
    ensures u.Some? ==> Enabled(p.At(side), u.value) && PairApply(p, t).At(side) == Apply(p.At(side), u.value)
    ensures u.None? ==> PairApply(p, t).At(side) == p.At(side)
  {
    u := None;
    match t {
      case Local(at, v) => if at == side { u := Some(v); }
      case Carry(to, n) =>
        if to == side {
          var k := |p.At(to).inb.rcvd|;
          u := Some(Deliver(p.At(to.Other()).out.sent[k..k + n]));
        }
      case CarryEnd(to) => if to == side { u := Some(EndInput(true)); }
      case Cut(to) => if to == side { u := Some(EndInput(false)); }
    }
  }

  lemma SideReachable(p: Pair, side: Side)
    requires PairReachable(p)
    ensures Reachable(p.At(side))
  {
    var p0, ts :| PairInit(p0) && PairReaches(p0, ts, p);
    var us := SideReaches(p0, ts, p, side);
    assert Init(p0.At(side));
  }

  // ---------------------------------------------------------------------------------------
  // End to end
  // ---------------------------------------------------------------------------------------

  /** The writer is at work, or has ended the stream cleanly. */
  predicate SendsAll(o: Outbound) {
    WriterLooping(o) || (o.fate == FinSent && !o.failed)
  }

  /** Everything accepted is on the wire. */
  predicate AllSent(o: Outbound) {
    o.sent == EncodeAll(o.accepted)
  }

  lemma AllIsSent(s: State) returns (ts: seq<Step>, t: State)
    requires Reachable(s) && SendsAll(s.out)
    ensures Reaches(s, ts, t) && WriterOnly(ts) && OnlyWritten(s, t) && AllSent(t.out) && SendsAll(t.out)
    ensures !WriterLooping(s.out) ==> t == s
  {
    if WriterLooping(s.out) {
      ts, t := WriterDrainsQueue(s);
      ReachableOnward(s, ts, t);
    } else {
      ts, t := [], s;
    }
    InvReachable(t);
    if WriterLooping(t.out) {
      NoTail(t.out.written);
      NoTail(EncodeAll(t.out.written));
    }
  }

  /** The sender's writer, the network towards `to`, and the reader and the caller there. */
  predicate Delivers(t: PairStep, to: Side) {
    match t
    case Local(side, u) => if side == to then u.Read? || u.Poll? else u.Write?
    case Carry(side, _) => side == to
    case CarryEnd(side) => side == to
    case Cut(_) => false
  }

  predicate AllDeliver(ts: seq<PairStep>, to: Side) {
    forall k | 0 <= k < |ts| :: Delivers(ts[k], to)
  }

  lemma CarriedWhole(sent: seq<byte>, s: State)
    requires s.inb.input == Flowing && s.inb.rcvd <= sent
    ensures Carried(sent, s, |sent| - |s.inb.rcvd|) == s.(inb := s.inb.(rcvd := sent))
  {
    var k := |s.inb.rcvd|;
    assert sent[k..k + (|sent| - k)] == sent[k..];
    assert s.inb.rcvd + sent[k..] == sent;
  }

  lemma OnItsWay(p: Pair, to: Side)
    requires PairReachable(p)
    ensures p.At(to).inb.rcvd <= p.At(to.Other()).out.sent
  {
    PairInvReachable(p);
    PairInvAt(p, to);
  }

  /** The network brings what is on its way. */
  lemma AllIsCarried(p: Pair, to: Side) returns (ts: seq<PairStep>, q: Pair)
    requires PairReachable(p) && p.At(to).inb.input == Flowing
    ensures PairReaches(p, ts, q) && AllDeliver(ts, to)
    ensures q == p.Set(to, p.At(to).(inb := p.At(to).inb.(rcvd := p.At(to.Other()).out.sent)))
  {
    OnItsWay(p, to);
    CarriedWhole(p.At(to.Other()).out.sent, p.At(to));
    var t := Carry(to, |p.At(to.Other()).out.sent| - |p.At(to).inb.rcvd|);
    PairReachesOne(p, t);
    ts, q := [t], PairApply(p, t);
  }

  /** The receiver is ready: its reader is at work on an open input, the stream is open, no call is under way. */
  predicate ReadyToReceive(s: State) {
    && ReaderLooping(s.inb) && s.inb.input == Flowing
    && !s.sig.watch.value && s.handle == Registered && AllReturned(s.data.polls)
  }

  lemma AtOfSet(p: Pair, side: Side, s: State)
    ensures p.Set(side, s).At(side) == s && p.Set(side, s).At(side.Other()) == p.At(side.Other())
    ensures side.Other().Other() == side
  {
  }

  /** The writer and the network put everything accepted before the receiver. */
  lemma AllArrives(p: Pair, to: Side) returns (ts: seq<PairStep>, q: Pair)
    requires PairReachable(p) && SendsAll(p.At(to.Other()).out) && p.At(to).inb.input == Flowing
    ensures PairReaches(p, ts, q) && AllDeliver(ts, to)
    ensures q.At(to.Other()) == p.At(to.Other()).(out := q.At(to.Other()).out)
    ensures q.At(to.Other()).out.accepted == p.At(to.Other()).out.accepted
    ensures AllSent(q.At(to.Other()).out) && SendsAll(q.At(to.Other()).out)
    ensures !WriterLooping(p.At(to.Other()).out) ==> q.At(to.Other()) == p.At(to.Other())
    ensures q.At(to) == p.At(to).(inb := p.At(to).inb.(rcvd := q.At(to.Other()).out.sent))
  {
    var from := to.Other();
    SideReachable(p, from);
    var vs, s := AllIsSent(p.At(from));
    var m := p.Set(from, s);
    LocalsLift(p, from, vs, s);
    AtOfSet(p, from, s);
    PairReachableOnward(p, Locals(from, vs), m);
    ts, q := AllIsCarried(m, to);
    AtOfSet(m, to, q.At(to));
    PairReachesTrans(p, Locals(from, vs), m, ts, q);
    ts := Locals(from, vs) + ts;
  }

  /**
   From every reachable state in which the sending side's writer is at work, or has ended cleanly,
   and the receiving side is ready, a run of the tasks, the network and the receiving caller hands
   over every payload accepted so far.
   */
  lemma AcceptedCanBeDelivered(p: Pair, to: Side) returns (ts: seq<PairStep>, q: Pair)
    requires PairReachable(p) && SendsAll(p.At(to.Other()).out) && ReadyToReceive(p.At(to))
    ensures PairReaches(p, ts, q) && AllDeliver(ts, to)
    ensures q.At(to).inb.popped == q.At(to.Other()).out.accepted == p.At(to.Other()).out.accepted
    ensures q.At(to).inb.inbox.frames == [] && ReaderLooping(q.At(to).inb) && SendsAll(q.At(to.Other()).out)
    ensures !WriterLooping(p.At(to.Other()).out) ==> q.At(to.Other()) == p.At(to.Other())
  {
    var m: Pair;
    ts, m := AllArrives(p, to);
    PairReachableOnward(p, ts, m);
    SideReachable(m, to);
    var us, s := ReceivedIsTaken(m.At(to), m.At(to.Other()).out.accepted);
    q := m.Set(to, s);
    AtOfSet(m, to, s);
    LocalsLift(m, to, us, s);
    PairReachesTrans(p, ts, m, Locals(to, us), q);
    ts := ts + Locals(to, us);
    SideOfRun(m.At(to), us, s);
  }

  lemma SideOfRun(s: State, ts: seq<Step>, t: State)
    requires Reachable(s) && Reaches(s, ts, t) && t.inb.popped == t.inb.pushed
    ensures t.inb.inbox.frames == []
  {
    ReachableOnward(s, ts, t);
    PushedIsPrefixOfParse(t);
    assert t.inb.popped + t.inb.inbox.frames == t.inb.popped;
  }

  // ---------------------------------------------------------------------------------------
  // The clean end
  // ---------------------------------------------------------------------------------------

  lemma NothingIsLeft(taken: seq<byte>, pushed: seq<Frame>, held: seq<Frame>, partial: seq<byte>)
    requires taken == EncodeAll(pushed + held) + partial && taken <= EncodeAll(pushed)
    ensures EncodeAll(held) == [] && partial == [] && taken == EncodeAll(pushed)
  {
    EncodeAllConcat(pushed, held);
  }

  lemma ReaderIsThrough(b: Inbound)
    requires InInv(b) && ReaderLooping(b) && b.rcvd == EncodeAll(b.pushed)
    ensures (b.pc.RSelect? || b.pc.RNotifying?) && b.consumed == |b.rcvd|
  {
    NothingIsLeft(b.rcvd[..b.consumed], b.pushed, Held(b.pc), PartialIn(b.pc));
  }

  /** Once the input has ended and all of it is taken, the reader finds the end. */
  lemma ReaderFindsTheEnd(s: State, frames: seq<Frame>) returns (ts: seq<Step>, t: State)
    requires Inv(s) && Receiving(s, frames) && s.inb.pushed == frames && s.inb.input == AtEof
    ensures Reaches(s, ts, t) && ReadsOnly(ts) && t.inb.drained && t.inb.popped == s.inb.popped
  {
    var m, us := s, [];
    ReaderIsThrough(s.inb);
    if s.inb.pc.RNotifying? { us, m := NotifyingGoesOn(s, frames); }
    var end := Read(ReaderEof, 0);
    ReachesOne(m, end);
    t := Apply(m, end);
    ReachesTrans(s, us, m, [end], t);
    ts := us + [end];
  }

  lemma AllAndTheEnd(s: State, frames: seq<Frame>) returns (ts: seq<Step>, t: State)
    requires Reachable(s) && Receiving(s, frames) && s.inb.input == AtEof
    ensures Reaches(s, ts, t) && Receives(ts) && t.inb.drained && t.inb.popped == frames
  {
    var m: State, us: seq<Step>;
    ts, m := ReceivedIsTaken(s, frames);
    InputIsLeft(s, ts, m);
    ReachableOnward(s, ts, m);
    InvReachable(m);
    us, t := ReaderFindsTheEnd(m, frames);
    ReachesTrans(s, ts, m, us, t);
    ts := ts + us;
  }

  lemma FinishedIsNotAtWork(p: Pair, side: Side)
    requires PairReachable(p) && p.At(side).out.fate == FinSent
    ensures !WriterLooping(p.At(side).out)
  {
    PairInvReachable(p);
    PairInvAt(p, side);
  }

  /** The network brings the end behind everything sent. */
  lemma EndArrives(p: Pair, to: Side) returns (ts: seq<PairStep>, q: Pair)
    requires PairReachable(p) && p.At(to).inb.input == Flowing
    requires p.At(to.Other()).out.fate == FinSent && !p.At(to.Other()).out.failed
    ensures PairReaches(p, ts, q) && AllDeliver(ts, to) && q.At(to.Other()) == p.At(to.Other())
    ensures q.At(to) == p.At(to).(inb := p.At(to).inb.(rcvd := EncodeAll(p.At(to.Other()).out.accepted), input := AtEof))
  {
    var m: Pair;
    FinishedIsNotAtWork(p, to.Other());
    ts, m := AllArrives(p, to);
    q := PairApply(m, CarryEnd(to));
    AtOfSet(m, to, q.At(to));
    PairReachesOne(m, CarryEnd(to));
    PairReachesTrans(p, ts, m, [CarryEnd(to)], q);
    ts := ts + [CarryEnd(to)];
  }

  /**
   When the sender has ended the stream cleanly, a run on the receiving side alone hands over
   everything that was ever accepted and finds the end.
   */
  lemma EndCanBeReached(p: Pair, to: Side) returns (ts: seq<PairStep>, q: Pair)
    requires PairReachable(p) && ReadyToReceive(p.At(to))
    requires p.At(to.Other()).out.fate == FinSent && !p.At(to.Other()).out.failed
    ensures PairReaches(p, ts, q) && AllDeliver(ts, to) && q.At(to.Other()) == p.At(to.Other())
    ensures q.At(to).inb.drained && q.At(to).inb.popped == p.At(to.Other()).out.accepted
  {
    var n: Pair;
    ts, n := EndArrives(p, to);
    PairReachableOnward(p, ts, n);
    SideReachable(n, to);
    var us, s := AllAndTheEnd(n.At(to), p.At(to.Other()).out.accepted);
    q := n.Set(to, s);
    AtOfSet(n, to, s);
    LocalsLift(n, to, us, s);
    PairReachesTrans(p, ts, n, Locals(to, us), q);
    ts := ts + Locals(to, us);
  }
}
