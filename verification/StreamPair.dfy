/**
 Two bridges joined by one bidirectional stream. Each side is a full stream of its own; the
 network carries bytes in order, in pieces of any size, and may end a direction cleanly only
 after everything sent has been carried (the ordered byte stream of section 2.2 of RFC 9000).
 */
module StreamPair {
  import opened Framing
  import opened Sequences
  import opened StreamEngine
  import opened StreamInvariants

  datatype Side = Left | Right {
    function Other(): Side {
      if this == Left then Right else Left
    }
  }

  datatype Pair = Pair(left: State, right: State) {
    function At(side: Side): State {
      if side == Left then left else right
    }

    function Set(side: Side, s: State): Pair {
      if side == Left then Pair(s, right) else Pair(left, s)
    }
  }

  datatype PairStep =
    | Local(side: Side, t: Step)
    | Carry(to: Side, n: nat)       // the next `n` bytes arrive
    | CarryEnd(to: Side)            // the clean end of the stream arrives
    | Cut(to: Side)                 // the direction fails

  predicate PairInit(p: Pair) {
    Init(p.left) && Init(p.right)
  }

  predicate PairEnabled(p: Pair, t: PairStep) {
    match t
    case Local(side, u) => !u.Deliver? && !u.EndInput? && Enabled(p.At(side), u)
    case Carry(to, n) =>
      && p.At(to).inb.input == Flowing
      && |p.At(to).inb.rcvd| + n <= |p.At(to.Other()).out.sent|
    case CarryEnd(to) =>
      && p.At(to).inb.input == Flowing
      && p.At(to.Other()).out.fate == FinSent
      && |p.At(to).inb.rcvd| == |p.At(to.Other()).out.sent|
    case Cut(to) => p.At(to).inb.input == Flowing
  }

  /** The receiving side once the next `n` of the bytes sent to it have arrived. */
  function Carried(sent: seq<byte>, to: State, n: nat): State
    requires to.inb.input == Flowing && |to.inb.rcvd| + n <= |sent|
  {
    Apply(to, Deliver(sent[|to.inb.rcvd|..|to.inb.rcvd| + n]))
  }

  function PairApply(p: Pair, t: PairStep): Pair
    requires PairEnabled(p, t)
  {
    match t
    case Local(side, u) => p.Set(side, Apply(p.At(side), u))
    case Carry(to, n) => p.Set(to, Carried(p.At(to.Other()).out.sent, p.At(to), n))
    case CarryEnd(to) => p.Set(to, Apply(p.At(to), EndInput(true)))
    case Cut(to) => p.Set(to, Apply(p.At(to), EndInput(false)))
  }

  ghost predicate PairReaches(p: Pair, ts: seq<PairStep>, q: Pair)
    decreases |ts|
  {
    if ts == [] then p == q
    else PairEnabled(p, ts[0]) && PairReaches(PairApply(p, ts[0]), ts[1..], q)
  }

  ghost predicate PairReachable(q: Pair) {
    exists p, ts :: PairInit(p) && PairReaches(p, ts, q)
  }

  // ---------------------------------------------------------------------------------------
  // The wire between the two sides
  // ---------------------------------------------------------------------------------------

  predicate WireOk(from: Outbound, to: Inbound) {
    && to.rcvd <= from.sent
    && (to.input == AtEof ==> from.fate == FinSent && to.rcvd == from.sent)
  }

  predicate PairInv(p: Pair) {
    && Inv(p.left) && Inv(p.right)
    && WireOk(p.left.out, p.right.inb) && WireOk(p.right.out, p.left.inb)
  }

  /** What a side's own action may do to what it has sent. */
  predicate SentGrows(o: Outbound, o': Outbound) {
    && o.sent <= o'.sent
    && (o.fate == FinSent ==> o'.sent == o.sent && o'.fate == FinSent)
  }

  lemma WriterSends(o: Outbound, g: Signal, w: WriterAction)
    requires OutInv(o) && WriterGuard(o, g, w)
    ensures SentGrows(o, WriterApply(o, g, w))
  {
  }

  lemma ReaderLeavesInput(b: Inbound, g: Signal, r: ReaderAction)
    requires ReaderGuard(b, g, r)
    ensures ReaderApply(b, g, r).rcvd == b.rcvd && ReaderApply(b, g, r).input == b.input
  {
  }

  /** A side's own steps only extend what it has sent, and not once it has ended the stream. */
  lemma LocalStepAndWire(s: State, t: Step)
    requires OutInv(s.out) && Enabled(s, t) && !t.Deliver? && !t.EndInput?
    ensures var s' := Apply(s, t);
            SentGrows(s.out, s'.out) && s'.inb.rcvd == s.inb.rcvd && s'.inb.input == s.inb.input
  {
    match t {
      case Write(w) => WriterSends(s.out, s.sig, w);
      case Read(r, pick) => ReaderLeavesInput(s.inb, s.sig, r);
      case Shutdown(who, pick) =>
        ClosingInbound(s, who, pick);
        ClosingSendsNothing(s, who, pick);
      case _ =>
    }
  }

  lemma PairInvAt(p: Pair, side: Side)
    requires PairInv(p)
    ensures Inv(p.At(side)) && WireOk(p.At(side.Other()).out, p.At(side).inb)
  {
  }

  /** One side's own step, as the two sides of the wire see it. */
  lemma LocalStepKeeps(s: State, other: State, u: Step)
    requires Inv(s) && WireOk(s.out, other.inb) && WireOk(other.out, s.inb)
    requires Enabled(s, u) && !u.Deliver? && !u.EndInput?
    ensures Inv(Apply(s, u))
    ensures WireOk(Apply(s, u).out, other.inb) && WireOk(other.out, Apply(s, u).inb)
  {
    LocalStepAndWire(s, u);
    InvStep(s, u);
  }

  lemma PairLocalStep(p: Pair, side: Side, u: Step)
    requires PairInv(p) && PairEnabled(p, Local(side, u))
    ensures PairInv(PairApply(p, Local(side, u)))
  {
    match side {
      case Left => LocalStepKeeps(p.left, p.right, u);
      case Right => LocalStepKeeps(p.right, p.left, u);
    }
  }

  lemma CarryKeepsWire(from: Outbound, b: Inbound, n: nat)
    requires WireOk(from, b) && b.input == Flowing && |b.rcvd| + n <= |from.sent|
    ensures WireOk(from, b.(rcvd := b.rcvd + from.sent[|b.rcvd|..|b.rcvd| + n]))
  {
    SliceExtends(from.sent, |b.rcvd|, n);
  }

  lemma CarryKeepsInv(from: Outbound, to: State, n: nat)
    requires Inv(to) && to.inb.input == Flowing && |to.inb.rcvd| + n <= |from.sent|
    ensures Inv(Carried(from.sent, to, n))
  {
    InvStep(to, Deliver(from.sent[|to.inb.rcvd|..|to.inb.rcvd| + n]));
  }

  lemma CarryStep(from: Outbound, to: State, n: nat)
    requires WireOk(from, to.inb) && to.inb.input == Flowing && |to.inb.rcvd| + n <= |from.sent|
    ensures WireOk(from, Carried(from.sent, to, n).inb) && Carried(from.sent, to, n).out == to.out
  {
    CarryKeepsWire(from, to.inb, n);
  }

  lemma EndStep(from: Outbound, to: State, clean: bool)
    requires Inv(to) && WireOk(from, to.inb) && to.inb.input == Flowing
    requires clean ==> from.fate == FinSent && |to.inb.rcvd| == |from.sent|
    ensures var to' := Apply(to, EndInput(clean)); Inv(to') && WireOk(from, to'.inb) && to'.out == to.out
  {
    InvStep(to, EndInput(clean));
  }

  lemma PairCarryStep(p: Pair, to: Side, n: nat)
    requires PairInv(p) && PairEnabled(p, Carry(to, n))
    ensures PairInv(PairApply(p, Carry(to, n)))
  {
    match to {
      case Left =>
        CarryKeepsInv(p.right.out, p.left, n);
        CarryStep(p.right.out, p.left, n);
      case Right =>
        CarryKeepsInv(p.left.out, p.right, n);
        CarryStep(p.left.out, p.right, n);
    }
  }

  lemma PairEndStep(p: Pair, t: PairStep)
    requires PairInv(p) && PairEnabled(p, t) && (t.CarryEnd? || t.Cut?)
    ensures PairInv(PairApply(p, t))
  {
    match t.to {
      case Left => EndStep(p.right.out, p.left, t.CarryEnd?);
      case Right => EndStep(p.left.out, p.right, t.CarryEnd?);
    }
  }

  lemma PairInvStep(p: Pair, t: PairStep)
    requires PairInv(p) && PairEnabled(p, t)
    ensures PairInv(PairApply(p, t))
  {
    match t {
      case Local(side, u) => PairLocalStep(p, side, u);
      case Carry(to, n) => PairCarryStep(p, to, n);
      case CarryEnd(_) => PairEndStep(p, t);
      case Cut(_) => PairEndStep(p, t);
    }
  }

  /** A run that is not empty comes to its last step. */
  lemma {:induction false} LastPairStep(p: Pair, ts: seq<PairStep>, q: Pair) returns (m: Pair)
    requires PairReaches(p, ts, q) && ts != []
    ensures var n := |ts| - 1;
            PairReaches(p, ts[..n], m) && PairEnabled(m, ts[n]) && q == PairApply(m, ts[n])
    decreases |ts|
  {
    if |ts| == 1 {
      m := p;
    } else {
      m := LastPairStep(PairApply(p, ts[0]), ts[1..], q);
      assert ts[..|ts| - 1][1..] == ts[1..][..|ts| - 2];
    }
  }

  lemma {:induction false} PairInvReaches(p: Pair, ts: seq<PairStep>, q: Pair)
    requires PairInit(p) && PairReaches(p, ts, q)
    ensures PairInv(q)
    decreases |ts|
  {
    if ts == [] {
      InvInit(p.left);
      InvInit(p.right);
    } else {
      var m := LastPairStep(p, ts, q);
      PairInvReaches(p, ts[..|ts| - 1], m);
      PairInvStep(m, ts[|ts| - 1]);
    }
  }

  lemma PairInvReachable(q: Pair)
    requires PairReachable(q)
    ensures PairInv(q)
  {
    var p, ts :| PairInit(p) && PairReaches(p, ts, q);
    PairInvReaches(p, ts, q);
  }

  // ---------------------------------------------------------------------------------------
  // End to end
  // ---------------------------------------------------------------------------------------

  lemma OneWayOrder(from: State, to: State)
    requires Inv(from) && Inv(to) && WireOk(from.out, to.inb)
    ensures to.inb.popped + to.inb.inbox.frames == to.inb.pushed
    ensures to.inb.pushed <= from.out.accepted
    ensures to.inb.popped <= from.out.accepted
  {
    PrefixOfEncodings(to.inb.pushed, to.inb.rcvd, from.out.accepted);
    assert to.inb.popped <= to.inb.pushed;
  }

  /**
   In every reachable state of the pair, the payloads one side's `next_message` has returned
   are the first payloads the other side's `send` accepted: none lost in between, reordered,
   repeated, altered or made up, in either direction.
   */
  lemma DeliveryIsInOrder(p: Pair, to: Side)
    requires PairReachable(p)
    ensures p.At(to).inb.popped <= p.At(to.Other()).out.accepted
  {
    PairInvReachable(p);
    PairInvAt(p, to);
    PairInvAt(p, to.Other());
    OneWayOrder(p.At(to.Other()), p.At(to));
  }

  /**
   A reader that met the clean end of a stream whose writer had no write error has everything:
   what its consumer took plus what waits in the inbox is all that was ever accepted.
   */
  lemma CleanEndDeliversEverything(p: Pair, to: Side)
    requires PairReachable(p) && p.At(to).inb.drained && !p.At(to.Other()).out.failed
    ensures p.At(to).inb.popped + p.At(to).inb.inbox.frames == p.At(to.Other()).out.accepted
  {
    PairInvReachable(p);
    PairInvAt(p, to);
    PairInvAt(p, to.Other());
    AllDelivered(p.At(to.Other()).out, p.At(to).inb);
  }

  lemma AllDelivered(o: Outbound, b: Inbound)
    requires OutInv(o) && InInv(b) && InboxInv(b) && WireOk(o, b) && b.drained && !o.failed
    ensures b.popped + b.inbox.frames == o.accepted
  {
    var rest := b.rcvd[|EncodeAll(b.pushed)|..];
    assert b.rcvd == EncodeAll(b.pushed) + rest;
    IncompleteIsNoFrame(rest);
    ParseOfEncoding(b.pushed, rest);
    NoTail(EncodeAll(o.accepted));
    ParseOfEncoding(o.accepted, []);
  }

  /** Payloads still on their way never outnumber those accepted and not yet delivered. */
  lemma NothingIsDuplicated(p: Pair, to: Side)
    requires PairReachable(p)
    ensures |p.At(to).inb.popped| + |p.At(to).inb.inbox.frames| <= |p.At(to.Other()).out.accepted|
    ensures multiset(p.At(to).inb.popped) <= multiset(p.At(to.Other()).out.accepted)
  {
    PairInvReachable(p);
    PairInvAt(p, to);
    PairInvAt(p, to.Other());
    OneWayOrder(p.At(to.Other()), p.At(to));
    PrefixIsSubmultiset(p.At(to).inb.popped, p.At(to.Other()).out.accepted);
  }

  lemma PrefixIsSubmultiset(a: seq<Frame>, b: seq<Frame>)
    requires a <= b
    ensures multiset(a) <= multiset(b)
  {
    assert b == a + b[|a|..];
  }
}
