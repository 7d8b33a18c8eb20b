/**
 The end of a JavaScript stream as its two halves share it: what makes the wrapper close, that the
 native stream is closed with it, and that nothing is sent after it.
 */
module JsClose {
  import opened StreamEngine
  import opened StreamSafety
  import opened StreamPair
  import opened JsPump
  import opened JsNetwork
  import JsSend

  // ---------------------------------------------------------------------------------------
  // What closes the wrapper
  // ---------------------------------------------------------------------------------------

  /** The caller closes, a native call of the pump has failed, or the native stream is found closed. */
  predicate Closes(j: JsStream, t: JsStep) {
    || t.CloseCall?
    || (t.Turn? && t.move.Recover?)
    || (t.Turn? && t.move.Ask? && j.asks && !StreamIsOpen(j.engine))
  }

  lemma ClosesExactly(j: JsStream, t: JsStep)
    requires JsEnabled(j, t)
    ensures JsApply(j, t).closed <==> j.closed || Closes(j, t)
    ensures JsApply(j, t).asks == j.asks
  {
  }

  /** The wrapper closes in one step of every run that ends with it closed, and for one of three reasons. */
  lemma {:induction false} ClosedForCause(j: JsStream, ts: seq<JsStep>, k: JsStream) returns (i: nat, m: JsStream)
    requires JsReaches(j, ts, k) && !j.closed && k.closed
    ensures i < |ts| && JsReaches(j, ts[..i], m) && JsEnabled(m, ts[i]) && !m.closed && Closes(m, ts[i])
    decreases |ts|
  {
    ClosesExactly(j, ts[0]);
    if Closes(j, ts[0]) {
      i, m := 0, j;
    } else {
      i, m := ClosedForCause(JsApply(j, ts[0]), ts[1..], k);
      i := i + 1;
      assert ts[..i][1..] == ts[1..][..i - 1];
    }
  }

  /** The native call just made throws: the stream is not there, or asking after it fails. */
  predicate CallThrows(j: JsStream, k: nat, m: Move) {
    && JsEnabled(j, Turn(k, m))
    && (m.CallFails? || (m.Returned? && Outcome(j.engine, j.pumps[k].call) == Missing))
  }

  lemma ThrowLeadsToRecovery(j: JsStream, k: nat, m: Move)
    requires CallThrows(j, k, m)
    ensures JsApply(j, Turn(k, m)) == j.(pumps := j.pumps[k := Failing])
  {
  }

  /** A native call of the pump that throws ends the stream. */
  lemma FailedCallCloses(j: JsStream, k: nat, m: Move) returns (ts: seq<JsStep>, end: JsStream)
    requires CallThrows(j, k, m)
    ensures ts == [Turn(k, m), Turn(k, Recover)] && JsReaches(j, ts, end)
    ensures end.closed && end.ears == j.ears && end.engine.handle != Registered
  {
    var failing := JsApply(j, Turn(k, m));
    ThrowLeadsToRecovery(j, k, m);
    end := JsApply(failing, Turn(k, Recover));
    JsReachesOne(j, Turn(k, m));
    JsReachesOne(failing, Turn(k, Recover));
    JsReachesTrans(j, [Turn(k, m)], failing, [Turn(k, Recover)], end);
    ts := [Turn(k, m)] + [Turn(k, Recover)];
  }

  // ---------------------------------------------------------------------------------------
  // The native stream is closed with it
  // ---------------------------------------------------------------------------------------

  /** The stream was entered in the map, and a closed wrapper has taken it out. */
  predicate ClosedTogether(j: JsStream) {
    j.engine.handle != Opening && (j.closed ==> j.engine.handle.Closing?)
  }

  lemma ClosedTogetherStep(j: JsStream, t: JsStep)
    requires ClosedTogether(j) && JsEnabled(j, t)
    ensures ClosedTogether(JsApply(j, t))
  {
    if !t.Native? { OwnStepTouches(j, t); }
  }

  /** However the wrapper of an open stream comes to be closed, the native stream is being closed by then. */
  lemma ClosingTheWrapperClosesTheStream(j: JsStream, ts: seq<JsStep>, k: JsStream)
    requires j.engine.handle == Registered && !j.closed
    requires JsReaches(j, ts, k) && k.closed
    ensures k.engine.handle.Closing?
  {
    ClosedTogetherOnward(j, ts, k);
  }

  lemma {:induction false} ClosedTogetherOnward(j: JsStream, ts: seq<JsStep>, k: JsStream)
    requires ClosedTogether(j) && JsReaches(j, ts, k)
    ensures ClosedTogether(k)
    decreases |ts|
  {
    if ts != [] {
      ClosedTogetherStep(j, ts[0]);
      ClosedTogetherOnward(JsApply(j, ts[0]), ts[1..], k);
    }
  }

  // ---------------------------------------------------------------------------------------
  // Nothing is sent after it
  // ---------------------------------------------------------------------------------------

  /** Once the wrapper is closed, no native `send` is under way and none can begin. */
  predicate Sealed(e: End) {
    ClosedTogether(e.rx) && (e.rx.closed ==> JsSend.NativelyClosed(e.tx))
  }

  /** The halves take turns with the thread, so the sending one is not inside a call when the wrapper closes. */
  lemma SealedStep(e: End, t: EndStep)
    requires EndOk(e) && Sealed(e) && EndEnabled(e, t)
    ensures Sealed(EndApply(e, t))
    ensures e.rx.closed ==> EndApply(e, t).rx.closed && EndApply(e, t).tx.engine.out.accepted == e.tx.engine.out.accepted
  {
    match t {
      case Beside(u) =>
        ClosedTogetherStep(e.rx, Native(u));
        if e.rx.closed { JsSend.ClosedStep(e.tx, JsSend.Native(u)); }
      case Tx(s) =>
        if e.rx.closed { JsSend.ClosedStep(e.tx, s); }
      case Rx(r) =>
        ClosedTogetherStep(e.rx, r);
        OwnStepTouches(e.rx, r);
        if !e.rx.closed { JsSend.ChainHolds(e.tx); }
    }
  }

  /** A step of the whole is a step of the end, or leaves it alone. */
  lemma NetStepSealed(n: Net, t: NetStep, side: Side)
    requires NetOk(n) && NetEnabled(n, t) && Sealed(n.At(side))
    ensures var e, f := n.At(side), NetApply(n, t).At(side);
            && NetOk(NetApply(n, t)) && Sealed(f)
            && (e.rx.closed ==> f.rx.closed && f.tx.engine.out.accepted == e.tx.engine.out.accepted)
  {
    match t {
      case AtEnd(at, u) =>
        AtEndOk(n, at, u);
        if at == side { SealedStep(n.At(side), u); }
      case OnWire(w) =>
        OnWireOk(n, w);
        if w.to == side { SealedStep(n.At(side), Beside(Arrival(n.Engines(), w))); }
    }
  }

  lemma {:induction false} SealedOnward(n: Net, ts: seq<NetStep>, m: Net, side: Side)
    requires NetOk(n) && Sealed(n.At(side)) && NetReaches(n, ts, m)
    ensures NetOk(m) && Sealed(m.At(side))
    ensures n.At(side).rx.closed ==>
              m.At(side).rx.closed && m.At(side).tx.engine.out.accepted == n.At(side).tx.engine.out.accepted
    decreases |ts|
  {
    if ts != [] {
      NetStepSealed(n, ts[0], side);
      SealedOnward(NetApply(n, ts[0]), ts[1..], m, side);
    }
  }

  /**
   Over every run of the whole, once an end's wrapper is closed, by its caller or by its pump, the
   native stream is being closed and accepts no payload any more, whatever is called after that.
   */
  lemma NothingIsSentAfterTheEnd(n: Net, ts: seq<NetStep>, m: Net, us: seq<NetStep>, o: Net, side: Side)
    requires NetReachable(n) && n.At(side).rx.engine.handle == Registered && !n.At(side).rx.closed
    requires NetReaches(n, ts, m) && m.At(side).rx.closed && NetReaches(m, us, o)
    ensures o.At(side).rx.engine.handle.Closing?
    ensures o.At(side).tx.engine.out.accepted == m.At(side).tx.engine.out.accepted
  {
    NetHolds(n);
    SealedOnward(n, ts, m, side);
    SealedOnward(m, us, o, side);
    assert EndOk(o.At(side));
  }

  lemma CloseCallCloses(e: End)
    requires EndOk(e) && EndEnabled(e, Rx(CloseCall))
    ensures var f := EndApply(e, Rx(CloseCall)); f.rx.closed && f.tx.engine.out.accepted == e.tx.engine.out.accepted
  {
  }

  lemma NetReachesOne(n: Net, t: NetStep)
    requires NetEnabled(n, t)
    ensures NetReaches(n, [t], NetApply(n, t))
  {
    assert [t][1..] == [];
    assert NetReaches(NetApply(n, t), [], NetApply(n, t));
  }

  /** Nor is anything accepted between the call of `close` and the end of the run. */
  lemma NothingIsSentAfterClose(n: Net, side: Side, us: seq<NetStep>, o: Net)
    requires NetReachable(n) && n.At(side).rx.engine.handle == Registered && !n.At(side).rx.closed
    requires NetEnabled(n, AtEnd(side, Rx(CloseCall))) && NetReaches(NetApply(n, AtEnd(side, Rx(CloseCall))), us, o)
    ensures o.At(side).rx.engine.handle.Closing?
    ensures o.At(side).tx.engine.out.accepted == n.At(side).tx.engine.out.accepted
  {
    var t := AtEnd(side, Rx(CloseCall));
    NetHolds(n);
    CloseCallCloses(n.At(side));
    NetReachesOne(n, t);
    NothingIsSentAfterTheEnd(n, [t], NetApply(n, t), us, o, side);
  }
}
