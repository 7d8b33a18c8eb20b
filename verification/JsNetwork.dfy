/**
 From one application to the other. Each end of a stream runs both halves of the JavaScript
 wrapper on one native stream and one JavaScript thread; two ends are joined by the network. The
 runs of this system project onto those of each half and onto those of the pair of native
 streams, so what is proved of the parts holds of the whole.
 */
module JsNetwork {
  import opened Sequences
  import opened StreamEngine
  import opened StreamPair
  import opened JsHandlers
  import opened JsPump
  import JsSend

  // ---------------------------------------------------------------------------------------
  // One end
  // ---------------------------------------------------------------------------------------

  /** The sending and the receiving half, each with its view of the one native stream. */
  datatype End = End(tx: JsSend.JsState, rx: JsStream)

  datatype EndStep =
    | Beside(t: Step)              // the native tasks and the transport
    | Tx(s: JsSend.JsStep)         // the sending half has the thread
    | Rx(r: JsStep)                // the receiving half has the thread

  predicate EndInit(e: End) {
    JsSend.JsInit(e.tx) && JsInit(e.rx) && e.tx.engine == e.rx.engine
  }

  /** While one half is inside a native call, the other one cannot act. */
  predicate EndEnabled(e: End, t: EndStep) {
    match t
    case Beside(u) => JsSend.JsEnabled(e.tx, JsSend.Native(u)) && JsEnabled(e.rx, Native(u))
    case Tx(s) => !s.Native? && !s.EmitClose? && JsSend.JsEnabled(e.tx, s) && !Blocked(e.rx)
    case Rx(r) => !r.Native? && JsEnabled(e.rx, r) && !JsSend.Blocked(e.tx)
  }

  function EndApply(e: End, t: EndStep): End
    requires EndEnabled(e, t)
  {
    match t
    case Beside(u) => End(JsSend.JsApply(e.tx, JsSend.Native(u)), JsApply(e.rx, Native(u)))
    case Tx(s) =>
      var tx := JsSend.JsApply(e.tx, s);
      End(tx, e.rx.(engine := tx.engine))
    case Rx(r) =>
      var rx := JsApply(e.rx, r);
      End(e.tx.(engine := rx.engine, closed := rx.closed), rx)
  }

  /** Both halves are where they could have come to alone, and agree on what they share. */
  ghost predicate EndOk(e: End) {
    && JsSend.JsReachable(e.tx) && JsReachable(e.rx)
    && e.tx.engine == e.rx.engine && e.tx.closed == e.rx.closed
  }

  lemma {:induction false} TxReachesStep(j: JsSend.JsState, ts: seq<JsSend.JsStep>, m: JsSend.JsState, t: JsSend.JsStep)
    requires JsSend.JsReaches(j, ts, m) && JsSend.JsEnabled(m, t)
    ensures JsSend.JsReaches(j, ts + [t], JsSend.JsApply(m, t))
    decreases |ts|
  {
    if ts == [] {
      assert JsSend.JsReaches(JsSend.JsApply(m, t), [], JsSend.JsApply(m, t));
    } else {
      TxReachesStep(JsSend.JsApply(j, ts[0]), ts[1..], m, t);
      assert (ts + [t])[1..] == ts[1..] + [t];
    }
  }

  lemma TxReachableStep(m: JsSend.JsState, t: JsSend.JsStep)
    requires JsSend.JsReachable(m) && JsSend.JsEnabled(m, t)
    ensures JsSend.JsReachable(JsSend.JsApply(m, t))
  {
    var j, ts :| JsSend.JsInit(j) && JsSend.JsReaches(j, ts, m);
    TxReachesStep(j, ts, m, t);
  }

  /** What a turn of the sending half does to the native stream: nothing, or a `send` begins. */
  lemma TxTouches(tx: JsSend.JsState, s: JsSend.JsStep)
    requires JsSend.JsEnabled(tx, s) && !s.Native? && !s.EmitClose?
    ensures var tx' := JsSend.JsApply(tx, s);
            && tx'.closed == tx.closed
            && (tx'.engine == tx.engine
                || (|tx.settled| < |tx.calls|
                    && tx'.engine == Apply(tx.engine, Send(SendBegin(tx.calls[|tx.settled|])))))
  {
  }

  lemma TxStepOk(e: End, s: JsSend.JsStep)
    requires EndOk(e) && EndEnabled(e, Tx(s))
    ensures EndOk(EndApply(e, Tx(s)))
  {
    TxTouches(e.tx, s);
    TxReachableStep(e.tx, s);
    var tx := JsSend.JsApply(e.tx, s);
    if tx.engine != e.tx.engine {
      JsReachableStep(e.rx, Native(Send(SendBegin(e.tx.calls[|e.tx.settled|]))));
    }
  }

  /** The native call a turn of the receiving half made, if any, as the sending half sees it. */
  lemma RxCallSeen(e: End, r: JsStep) returns (m: JsSend.JsState)
    requires EndOk(e) && EndEnabled(e, Rx(r))
    ensures JsSend.JsReachable(m) && m == e.tx.(engine := JsApply(e.rx, r).engine)
  {
    var s, s' := e.rx.engine, JsApply(e.rx, r).engine;
    OwnStepTouches(e.rx, r);
    m := e.tx;
    if s' != s {
      var u := if r.Turn? && r.move.Take? then Poll(PollBegin(false)) else Remove;
      if r.Turn? && r.move.Take? {
        NativeCallsTakeTurns(e.rx, r.k, 0);
        PollIsEnabled(s);
      }
      TxReachableStep(e.tx, JsSend.Native(u));
      m := JsSend.JsApply(e.tx, JsSend.Native(u));
    }
  }

  lemma RxStepOk(e: End, r: JsStep)
    requires EndOk(e) && EndEnabled(e, Rx(r))
    ensures EndOk(EndApply(e, Rx(r)))
  {
    OwnStepTouches(e.rx, r);
    JsReachableStep(e.rx, r);
    var m := RxCallSeen(e, r);
    if JsApply(e.rx, r).closed && !e.rx.closed { TxReachableStep(m, JsSend.EmitClose); }
  }

  lemma EndStepOk(e: End, t: EndStep)
    requires EndOk(e) && EndEnabled(e, t)
    ensures EndOk(EndApply(e, t))
  {
    match t {
      case Beside(u) =>
        TxReachableStep(e.tx, JsSend.Native(u));
        JsReachableStep(e.rx, Native(u));
      case Tx(s) => TxStepOk(e, s);
      case Rx(r) => RxStepOk(e, r);
    }
  }

  /** One thread: the halves are never both inside a native call. */
  predicate TakesTurns(e: End) {
    !(JsSend.Blocked(e.tx) && Blocked(e.rx))
  }

  lemma TurnsStep(e: End, t: EndStep)
    requires TakesTurns(e) && EndEnabled(e, t)
    ensures TakesTurns(EndApply(e, t))
  {
  }

  lemma EndInitOk(e: End)
    requires EndInit(e)
    ensures EndOk(e)
  {
    assert JsSend.JsReaches(e.tx, [], e.tx);
    assert JsReaches(e.rx, [], e.rx);
  }

  // ---------------------------------------------------------------------------------------
  // Two ends and the network
  // ---------------------------------------------------------------------------------------

  datatype Net = Net(left: End, right: End) {
    function At(side: Side): End {
      if side == Left then left else right
    }

    function Set(side: Side, e: End): Net {
      if side == Left then Net(e, right) else Net(left, e)
    }

    /** The two native streams. */
    function Engines(): Pair {
      Pair(left.tx.engine, right.tx.engine)
    }
  }

  datatype NetStep = AtEnd(side: Side, t: EndStep) | OnWire(w: PairStep)

  predicate NetInit(n: Net) {
    EndInit(n.left) && EndInit(n.right)
  }

  predicate FromTransport(t: Step) {
    t.Deliver? || t.EndInput?
  }

  /** What the network does to the end it reaches. */
  function Arrival(p: Pair, w: PairStep): Step
    requires PairEnabled(p, w) && !w.Local?
  {
    match w
    case Carry(to, n) =>
      var k := |p.At(to).inb.rcvd|;
      Deliver(p.At(to.Other()).out.sent[k..k + n])
    case CarryEnd(_) => EndInput(true)
    case Cut(_) => EndInput(false)
  }

  predicate NetEnabled(n: Net, t: NetStep) {
    match t
    case AtEnd(side, u) => EndEnabled(n.At(side), u) && !(u.Beside? && FromTransport(u.t))
    case OnWire(w) =>
      && !w.Local? && PairEnabled(n.Engines(), w)
      && EndEnabled(n.At(w.to), Beside(Arrival(n.Engines(), w)))
  }

  function NetApply(n: Net, t: NetStep): Net
    requires NetEnabled(n, t)
  {
    match t
    case AtEnd(side, u) => n.Set(side, EndApply(n.At(side), u))
    case OnWire(w) => n.Set(w.to, EndApply(n.At(w.to), Beside(Arrival(n.Engines(), w))))
  }

  ghost predicate NetReaches(n: Net, ts: seq<NetStep>, m: Net)
    decreases |ts|
  {
    if ts == [] then n == m
    else NetEnabled(n, ts[0]) && NetReaches(NetApply(n, ts[0]), ts[1..], m)
  }

  ghost predicate NetReachable(m: Net) {
    exists n, ts :: NetInit(n) && NetReaches(n, ts, m)
  }

  ghost predicate NetOk(n: Net) {
    EndOk(n.left) && EndOk(n.right) && PairReachable(n.Engines())
  }

  lemma {:induction false} PairReachesStep(p: Pair, ts: seq<PairStep>, q: Pair, t: PairStep)
    requires PairReaches(p, ts, q) && PairEnabled(q, t)
    ensures PairReaches(p, ts + [t], PairApply(q, t))
    decreases |ts|
  {
    if ts == [] {
      assert PairReaches(PairApply(q, t), [], PairApply(q, t));
    } else {
      PairReachesStep(PairApply(p, ts[0]), ts[1..], q, t);
      assert (ts + [t])[1..] == ts[1..] + [t];
    }
  }

  lemma PairReachableStep(q: Pair, t: PairStep)
    requires PairReachable(q) && PairEnabled(q, t)
    ensures PairReachable(PairApply(q, t))
  {
    var p, ts :| PairInit(p) && PairReaches(p, ts, q);
    PairReachesStep(p, ts, q, t);
  }

  /** An end's step is one step of its native stream, or none. */
  lemma EndStepsEngine(e: End, t: EndStep) returns (moved: bool, u: Step)
    requires EndOk(e) && EndEnabled(e, t)
    ensures var s, s' := e.tx.engine, EndApply(e, t).tx.engine;
            && (moved ==> Enabled(s, u) && s' == Apply(s, u) && (t.Beside? || !FromTransport(u)))
            && (!moved ==> s' == s)
            && (t.Beside? ==> moved && u == t.t)
  {
    var s, s' := e.tx.engine, EndApply(e, t).tx.engine;
    moved, u := s' != s, Remove;
    match t {
      case Beside(v) => moved, u := true, v;
      case Tx(v) =>
        TxTouches(e.tx, v);
        if moved { u := Send(SendBegin(e.tx.calls[|e.tx.settled|])); }
      case Rx(r) =>
        OwnStepTouches(e.rx, r);
        if r.Turn? && r.move.Take? {
          NativeCallsTakeTurns(e.rx, r.k, 0);
          PollIsEnabled(s);
          u := Poll(PollBegin(false));
        }
    }
  }

  lemma AtEndOk(n: Net, side: Side, t: EndStep)
    requires NetOk(n) && NetEnabled(n, AtEnd(side, t))
    ensures NetOk(NetApply(n, AtEnd(side, t)))
  {
    EndStepOk(n.At(side), t);
    var moved, u := EndStepsEngine(n.At(side), t);
    assert n.Engines().At(side) == n.At(side).tx.engine;
    if moved { PairReachableStep(n.Engines(), Local(side, u)); }
  }

  /** The network's steps on the pair are those arrivals. */
  lemma ArrivalIsPairStep(p: Pair, w: PairStep)
    requires PairEnabled(p, w) && !w.Local?
    ensures Enabled(p.At(w.to), Arrival(p, w))
    ensures PairApply(p, w) == p.Set(w.to, Apply(p.At(w.to), Arrival(p, w)))
  {
  }

  lemma EnginesOfSet(n: Net, side: Side, e: End)
    ensures n.Set(side, e).Engines() == n.Engines().Set(side, e.tx.engine)
    ensures n.Engines().At(side) == n.At(side).tx.engine
  {
  }

  lemma OnWireOk(n: Net, w: PairStep)
    requires NetOk(n) && NetEnabled(n, OnWire(w))
    ensures NetOk(NetApply(n, OnWire(w)))
  {
    var u := Arrival(n.Engines(), w);
    var e := EndApply(n.At(w.to), Beside(u));
    EndStepOk(n.At(w.to), Beside(u));
    ArrivalIsPairStep(n.Engines(), w);
    EnginesOfSet(n, w.to, e);
    assert e.tx.engine == Apply(n.At(w.to).tx.engine, u);
    PairReachableStep(n.Engines(), w);
  }

  lemma {:induction false} NetReachesOk(n: Net, ts: seq<NetStep>, m: Net)
    requires NetOk(n) && NetReaches(n, ts, m)
    ensures NetOk(m)
    decreases |ts|
  {
    if ts != [] {
      match ts[0] {
        case AtEnd(side, t) => AtEndOk(n, side, t);
        case OnWire(w) => OnWireOk(n, w);
      }
      NetReachesOk(NetApply(n, ts[0]), ts[1..], m);
    }
  }

  lemma NetHolds(n: Net)
    requires NetReachable(n)
    ensures NetOk(n)
  {
    var m, ts :| NetInit(m) && NetReaches(m, ts, n);
    EndInitOk(m.left);
    EndInitOk(m.right);
    assert PairReaches(m.Engines(), [], m.Engines());
    NetReachesOk(m, ts, n);
  }

  lemma {:induction false} TurnsOnward(n: Net, ts: seq<NetStep>, m: Net)
    requires TakesTurns(n.left) && TakesTurns(n.right) && NetReaches(n, ts, m)
    ensures TakesTurns(m.left) && TakesTurns(m.right)
    decreases |ts|
  {
    if ts != [] {
      match ts[0] {
        case AtEnd(side, t) => TurnsStep(n.At(side), t);
        case OnWire(w) => TurnsStep(n.At(w.to), Beside(Arrival(n.Engines(), w)));
      }
      TurnsOnward(NetApply(n, ts[0]), ts[1..], m);
    }
  }

  /** Sending and receiving share the thread: at neither end are both inside a native call. */
  lemma NativeCallsNeverOverlap(n: Net, side: Side)
    requires NetReachable(n)
    ensures TakesTurns(n.At(side))
  {
    var m, ts :| NetInit(m) && NetReaches(m, ts, n);
    TurnsOnward(m, ts, n);
  }

  /** Every run of the whole is, part by part, a run of each wrapper half and of the native pair. */
  lemma WholeProjectsOntoParts(n: Net, side: Side)
    requires NetReachable(n)
    ensures JsSend.JsReachable(n.At(side).tx) && JsReachable(n.At(side).rx)
    ensures n.At(side).tx.engine == n.At(side).rx.engine == n.Engines().At(side)
    ensures PairReachable(n.Engines())
  {
    NetHolds(n);
  }

  /**
   In every state of the whole, what a registered message handler at one end has been called
   with is, without a gap, a run of the payloads whose `send` promise resolved at the other end,
   in the order of the calls, up to the frame due to it in the pass under way. Only a send that
   has been accepted and not yet settled may be ahead of its promise.
   */
  lemma HandlerHearsResolvedSends(n: Net, side: Side, x: Entry)
    requires NetReachable(n)
    requires x in n.At(side).rx.ears.messages
    ensures var a, b := n.At(side.Other()).tx, n.At(side).rx;
            && |a.settled| <= |a.calls|
            && (Current(b.pumps).Delivering? ==> b.ears.frames != [])
            && Within(Given(b.ears.log, x.id), |b.ears.frames|)
            && (var sent := JsSend.Resolved(a.calls, a.settled) + JsSend.AboutToResolve(a);
                var due := Upto(b.ears, PassOf(Current(b.pumps)), x);
                && x.first <= due <= |b.ears.frames| <= |sent|
                && Payloads(b.ears.frames, Given(b.ears.log, x.id)) == sent[x.first..due])
  {
    WholeProjectsOntoParts(n, side);
    WholeProjectsOntoParts(n, side.Other());
    JsSend.ResolvedExactlyWhenAccepted(n.At(side.Other()).tx);
    HandlerHearsEveryFrame(n.At(side).rx, n.Engines(), side, x);
  }
}
