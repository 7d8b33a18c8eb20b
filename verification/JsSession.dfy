/**
 Logical sessions of the JavaScript wrapper: a session owns the streams opened through it and
 closes them together. Streams are numbered in the order of the `openStream` calls. A stream
 may still be opening when its session closes, and the native close of a stream may throw.
 */
module JsSession {
  import opened Sequences

  datatype Stage = Pending | OpenFailed | Returned | Refused

  /** One `openStream` call and its stream: whether the wrapper closed it, whether it is open natively. */
  datatype Slot = Slot(stage: Stage, closed: bool, native: bool, throws: bool)

  /** `sweep` holds the streams a running `close` has still to close, in order. */
  datatype Session = Session(closed: bool, slots: seq<Slot>, owned: seq<nat>, sweep: seq<nat>, aborted: bool)

  const NEW_SESSION: Session := Session(false, [], [], [], false)

  /** Closing this stream throws. The wrapper marks it closed all the same. */
  predicate Throws(x: Slot) {
    !x.closed && x.native && x.throws
  }

  /** `stream.close()`. */
  function Shut(x: Slot): Slot {
    if x.closed then x else x.(closed := true, native := x.native && x.throws)
  }

  function Without(ids: seq<nat>, i: nat): (r: seq<nat>)
    ensures forall k :: k in r <==> k in ids && k != i
  {
    if ids == [] then []
    else if ids[0] == i then Without(ids[1..], i)
    else [ids[0]] + Without(ids[1..], i)
  }

  // ---------------------------------------------------------------------------------------
  // The steps
  // ---------------------------------------------------------------------------------------

  datatype Step =
    | OpenCall
    | Arrive(i: nat, throws: bool)   // the stream of call `i` is there
    | ArriveFails(i: nat)
    | StreamCloses(i: nat)           // by its own `close`, or because its pump found it ended
    | NativeEnds(i: nat)             // the peer or the native side ended it; the wrapper has not noticed
    | CloseCall
    | SweepNext

  predicate Enabled(s: Session, t: Step) {
    match t
    case OpenCall => true
    case Arrive(i, _) => i < |s.slots| && s.slots[i].stage == Pending
    case ArriveFails(i) => i < |s.slots| && s.slots[i].stage == Pending
    case StreamCloses(i) => i < |s.slots| && s.slots[i].stage == Returned
    case NativeEnds(i) => i < |s.slots|
    case CloseCall => true
    case SweepNext => s.sweep != [] && s.sweep[0] < |s.slots|
  }

  function Apply(s: Session, t: Step): Session
    requires Enabled(s, t)
  {
    match t
    case OpenCall => if s.closed then s else s.(slots := s.slots + [Slot(Pending, false, false, false)])
    case Arrive(i, throws) =>
      if s.closed then s.(slots := s.slots[i := Shut(Slot(Refused, false, true, throws))])
      else s.(slots := s.slots[i := Slot(Returned, false, true, throws)], owned := s.owned + [i])
    case ArriveFails(i) => s.(slots := s.slots[i := Slot(OpenFailed, false, false, false)])
    case StreamCloses(i) => s.(slots := s.slots[i := Shut(s.slots[i])], owned := Without(s.owned, i))
    case NativeEnds(i) => s.(slots := s.slots[i := s.slots[i].(native := false)])
    case CloseCall => if s.closed then s else s.(closed := true, owned := [], sweep := s.owned)
    case SweepNext =>
      var i := s.sweep[0];
      var threw := Throws(s.slots[i]);
      s.(slots := s.slots[i := Shut(s.slots[i])],
         sweep := if threw then [] else s.sweep[1..],    // the error ends the round
         aborted := s.aborted || threw)
  }

  ghost predicate Reaches(s: Session, ts: seq<Step>, t: Session)
    decreases |ts|
  {
    if ts == [] then s == t
    else Enabled(s, ts[0]) && Reaches(Apply(s, ts[0]), ts[1..], t)
  }

  // ---------------------------------------------------------------------------------------
  // Ownership
  // ---------------------------------------------------------------------------------------

  /** Where stream `i` stands with its session. */
  predicate SlotOk(s: Session, i: nat)
    requires i < |s.slots|
  {
    var x := s.slots[i];
    && (x.native ==> x.stage == Returned || x.stage == Refused)
    && (x.closed && x.native ==> x.throws)
    && (x.stage == Refused ==> x.closed && s.closed)
    && (!s.closed ==> (i in s.owned <==> x.stage == Returned && !x.closed))
    && (s.closed && x.stage == Returned && !x.closed ==> i in s.sweep || s.aborted)
    && (i in s.sweep ==> x.stage == Returned)
  }

  predicate Inv(s: Session) {
    && (forall i | 0 <= i < |s.slots| :: SlotOk(s, i))
    && (forall i | i in s.owned :: i < |s.slots|)
    && (forall i | i in s.sweep :: i < |s.slots|)
    && (s.closed ==> s.owned == [])
    && (!s.closed ==> s.sweep == [] && !s.aborted)
    && (s.aborted ==> SomeThrows(s.slots))
  }

  /** The native close of some stream handed out throws. */
  predicate SomeThrows(slots: seq<Slot>) {
    exists i | 0 <= i < |slots| :: slots[i].stage == Returned && slots[i].throws
  }

  lemma HeadAndTail(ids: seq<nat>)
    requires ids != []
    ensures forall i :: i in ids[1..] ==> i in ids
    ensures forall i :: i in ids && i != ids[0] ==> i in ids[1..]
  {
  }

  lemma ThrowersStay(s: Session, t: Step)
    requires Inv(s) && Enabled(s, t) && Apply(s, t).aborted
    ensures SomeThrows(Apply(s, t).slots)
  {
    var s' := Apply(s, t);
    var i: nat;
    if s.aborted {
      i :| i < |s.slots| && s.slots[i].stage == Returned && s.slots[i].throws;
    } else {
      i := s.sweep[0];
      assert SlotOk(s, i);
    }
    assert s'.slots[i].stage == Returned && s'.slots[i].throws;
  }

  lemma InvStep(s: Session, t: Step)
    requires Inv(s) && Enabled(s, t)
    ensures Inv(Apply(s, t))
  {
    var s' := Apply(s, t);
    if s'.aborted { ThrowersStay(s, t); }
    if t.SweepNext? { HeadAndTail(s.sweep); }
    forall i | 0 <= i < |s'.slots| ensures SlotOk(s', i) {
      if i < |s.slots| { assert SlotOk(s, i); }
    }
  }

  lemma {:induction false} InvReaches(s: Session, ts: seq<Step>, t: Session)
    requires Inv(s) && Reaches(s, ts, t)
    ensures Inv(t)
    decreases |ts|
  {
    if ts != [] {
      InvStep(s, ts[0]);
      InvReaches(Apply(s, ts[0]), ts[1..], t);
    }
  }

  /** While a session is open it owns exactly the streams it returned that are not closed. */
  lemma OwnsExactlyItsOpenStreams(ts: seq<Step>, s: Session, i: nat)
    requires Reaches(NEW_SESSION, ts, s) && !s.closed && i < |s.slots|
    ensures i in s.owned <==> s.slots[i].stage == Returned && !s.slots[i].closed
  {
    InvReaches(NEW_SESSION, ts, s);
    assert SlotOk(s, i);
  }

  predicate NothingPending(s: Session) {
    forall i | 0 <= i < |s.slots| :: s.slots[i].stage != Pending
  }

  /**
   When a session has been closed and no open is pending, every stream ever opened through it
   is closed, those that were still opening when it closed included, provided no native close
   of a stream it had handed out or received late throws.
   */
  lemma ClosedSessionLeavesNothingOpen(ts: seq<Step>, s: Session, i: nat)
    requires Reaches(NEW_SESSION, ts, s) && s.closed && s.sweep == [] && NothingPending(s)
    requires forall k | 0 <= k < |s.slots| :: !s.slots[k].throws
    requires i < |s.slots|
    ensures !s.slots[i].native
    ensures s.slots[i].stage == Returned || s.slots[i].stage == Refused ==> s.slots[i].closed
  {
    InvReaches(NEW_SESSION, ts, s);
    assert SlotOk(s, i);
  }

  /** A stream that was not handed out before the close never is. */
  lemma {:induction false} NoneReturnedAfterClose(s: Session, ts: seq<Step>, t: Session, i: nat)
    requires Inv(s) && s.closed && Reaches(s, ts, t) && i < |t.slots| && t.slots[i].stage == Returned
    ensures i < |s.slots| && s.slots[i].stage == Returned
    decreases |ts|
  {
    if ts != [] {
      InvStep(s, ts[0]);
      NoneReturnedAfterClose(Apply(s, ts[0]), ts[1..], t, i);
    }
  }

  lemma LateStreamsAreRefused(us: seq<Step>, s: Session, ts: seq<Step>, t: Session, i: nat)
    requires Reaches(NEW_SESSION, us, s) && s.closed && Reaches(s, ts, t)
    requires i < |s.slots| && s.slots[i].stage == Pending && i < |t.slots|
    ensures t.slots[i].stage != Returned
  {
    InvReaches(NEW_SESSION, us, s);
    if t.slots[i].stage == Returned { NoneReturnedAfterClose(s, ts, t, i); }
  }

  // ---------------------------------------------------------------------------------------
  // One call of `close`
  // ---------------------------------------------------------------------------------------

  /** How many of the streams are closed: all up to and including the first that throws. */
  function Reached(slots: seq<Slot>, active: seq<nat>): (n: nat)
    requires Within(active, |slots|)
    ensures n <= |active|
    ensures forall k | 0 <= k < n - 1 :: !Throws(slots[active[k]])
    ensures n < |active| ==> n > 0 && Throws(slots[active[n - 1]])
  {
    if active == [] then 0
    else if Throws(slots[active[0]]) then 1
    else 1 + Reached(slots, active[1..])
  }

  /** Close the streams in order; an error leaves the rest as they are. */
  function CloseEach(slots: seq<Slot>, active: seq<nat>): (seq<Slot>, bool)
    requires Within(active, |slots|)
    decreases |active|
  {
    if active == [] then (slots, false)
    else
      var x := slots[active[0]];
      var next := slots[active[0] := Shut(x)];
      if Throws(x) then (next, true) else CloseEach(next, active[1..])
  }

  /** The session object as the wrapper updates it; `aborted` remembers that a `close` has thrown. */
  class LogicalSession {
    var closed: bool
    var slots: seq<Slot>
    var owned: seq<nat>
    ghost var aborted: bool

    ghost predicate Valid()
      reads this
    {
      Within(owned, |slots|) && Distinct(owned) && forall i | i in owned :: slots[i].stage == Returned
    }

    /** The session between two calls of its methods, as a state of the transition system. */
    ghost function View(): Session
      reads this
    {
      Session(closed, slots, owned, [], aborted)
    }

    constructor ()
      ensures Valid() && View() == NEW_SESSION
    {
      closed, slots, owned := false, [], [];
      aborted := false;
    }

    method OpenCall() returns (rejected: bool)
      requires Valid()
      modifies this
      ensures Valid() && rejected == old(closed) && closed == old(closed) && owned == old(owned)
      ensures slots == if rejected then old(slots) else old(slots) + [Slot(Pending, false, false, false)]
      ensures View() == Apply(old(View()), Step.OpenCall)
    {
      rejected := closed;
      if !closed {
        slots := slots + [Slot(Pending, false, false, false)];
      }
    }

    /** The stream of call `i` is there: it is handed out and owned, or closed and refused. */
    method Arrived(i: nat, throws: bool) returns (returned: bool)
      requires Valid() && i < |slots| && slots[i].stage == Pending
      modifies this
      ensures Valid() && closed == old(closed) && returned == !closed
      ensures returned ==> slots == old(slots)[i := Slot(Returned, false, true, throws)] && owned == old(owned) + [i]
      ensures !returned ==> slots == old(slots)[i := Slot(Refused, true, throws, throws)] && owned == old(owned)
      ensures View() == Apply(old(View()), Arrive(i, throws))
    {
      returned := !closed;
      if closed {
        slots := slots[i := Shut(Slot(Refused, false, true, throws))];
      } else {
        slots := slots[i := Slot(Returned, false, true, throws)];
        owned := owned + [i];
      }
    }

    /** `close` forgets the owned streams and closes them in order until one throws. */
    method Close() returns (threw: bool, ghost ts: seq<Step>)
      requires Valid()
      modifies this
      ensures Valid() && closed
      ensures old(closed) ==> !threw && slots == old(slots) && owned == old(owned)
      ensures !old(closed) ==> owned == [] && CloseEach(old(slots), old(owned)) == (slots, threw)
      ensures Reaches(old(View()), [CloseCall] + ts, View())
      ensures forall k | 0 <= k < |ts| :: ts[k] == SweepNext
    {
      threw, ts := false, [];
      if closed {
        assert ([CloseCall] + ts)[1..] == [];
        return;
      }
      closed := true;
      var active := owned;
      owned := [];
      var n := 0;
      while n < |active| && !threw
        invariant n <= |active| && |slots| == |old(slots)| && closed && owned == [] && aborted == old(aborted)
        invariant CloseEach(old(slots), active) == if threw then (slots, true) else CloseEach(slots, active[n..])
      {
        var i := active[n];
        assert active[n..][1..] == active[n + 1..];
        threw := Throws(slots[i]);
        slots := slots[i := Shut(slots[i])];
        n := n + 1;
      }
      ghost var swept := Session(true, old(slots), [], active, aborted);
      ts := SweepIsCloseEach(swept);
      aborted := aborted || threw;
      assert ([CloseCall] + ts)[1..] == ts && Apply(old(View()), CloseCall) == swept;
    }
  }

  /** Streams that are not on the list are left alone. */
  lemma {:induction false} CloseEachLeaves(slots: seq<Slot>, active: seq<nat>, i: nat)
    requires Within(active, |slots|) && i < |slots| && i !in active
    ensures |CloseEach(slots, active).0| == |slots|
    ensures CloseEach(slots, active).0[i] == slots[i]
    ensures Reached(slots[i := Shut(slots[i])], active) == Reached(slots, active)
    decreases |active|
  {
    if active != [] {
      var next := slots[active[0] := Shut(slots[active[0]])];
      CloseEachLeaves(next, active[1..], i);
      CloseEachLeaves(slots, active[1..], i);
    }
  }

  lemma {:induction false} CloseEachKeepsLength(slots: seq<Slot>, active: seq<nat>)
    requires Within(active, |slots|)
    ensures |CloseEach(slots, active).0| == |slots|
    decreases |active|
  {
    if active != [] {
      CloseEachKeepsLength(slots[active[0] := Shut(slots[active[0]])], active[1..]);
    }
  }

  lemma HeadIsNotInTail(active: seq<nat>)
    requires Distinct(active) && active != []
    ensures active[0] !in active[1..] && Distinct(active[1..])
  {
  }

  /**
   What one `close` does to each stream: those up to and including the first whose close throws
   are closed, the rest are not touched although the session has forgotten them.
   */
  lemma {:induction false} CloseEachReaches(slots: seq<Slot>, active: seq<nat>, k: nat)
    requires Within(active, |slots|) && Distinct(active) && k < |active|
    ensures var i, after := active[k], CloseEach(slots, active).0;
            && |after| == |slots|
            && after[i] == if k < Reached(slots, active) then Shut(slots[i]) else slots[i]
    decreases |active|
  {
    var i, rest := active[0], active[1..];
    var next := slots[i := Shut(slots[i])];
    HeadIsNotInTail(active);
    if !Throws(slots[i]) {
      CloseEachLeaves(next, rest, i);
      CloseEachLeaves(slots, rest, i);
      if k > 0 { CloseEachReaches(next, rest, k - 1); }
    }
  }

  /** `close` throws exactly when it comes to a stream whose native close throws. */
  lemma {:induction false} CloseThrowsExactly(slots: seq<Slot>, active: seq<nat>)
    requires Within(active, |slots|) && Distinct(active)
    ensures CloseEach(slots, active).1 <==> exists k | 0 <= k < |active| :: Throws(slots[active[k]])
    decreases |active|
  {
    if active != [] && !Throws(slots[active[0]]) {
      var next := slots[active[0] := Shut(slots[active[0]])];
      HeadIsNotInTail(active);
      CloseThrowsExactly(next, active[1..]);
      assert forall k | 0 < k < |active| :: active[k] == active[1..][k - 1] && active[k] != active[0];
      assert forall k | 0 <= k < |active| - 1 :: next[active[1..][k]] == slots[active[k + 1]];
    }
  }

  /** The steps of a round of closing, with nothing in between, come to the same. */
  lemma {:induction false} SweepIsCloseEach(s: Session) returns (ts: seq<Step>)
    requires Within(s.sweep, |s.slots|)
    ensures var (after, threw) := CloseEach(s.slots, s.sweep);
            Reaches(s, ts, s.(slots := after, sweep := [], aborted := s.aborted || threw))
    ensures forall k | 0 <= k < |ts| :: ts[k] == SweepNext
    decreases |s.sweep|
  {
    ts := [];
    if s.sweep != [] {
      var next := Apply(s, SweepNext);
      if Throws(s.slots[s.sweep[0]]) {
        ts := [SweepNext];
        assert Reaches(next, [], next);
      } else {
        var us := SweepIsCloseEach(next);
        ts := [SweepNext] + us;
        assert ts[1..] == us;
      }
    }
  }

  /** None of the listed streams is open natively. */
  predicate AllEnded(slots: seq<Slot>, active: seq<nat>)
    requires Within(active, |slots|)
  {
    forall k | 0 <= k < |active| :: !slots[active[k]].native
  }

  /**
   One `close` ends every owned stream natively exactly when the native close of none of them
   throws. A stream whose close throws keeps itself and every stream after it open.
   */
  lemma CloseEndsAllExactlyWhenNoneThrows(slots: seq<Slot>, active: seq<nat>)
    requires Within(active, |slots|) && Distinct(active)
    requires forall k | 0 <= k < |active| :: !slots[active[k]].closed
    ensures var after := CloseEach(slots, active).0;
            && |after| == |slots|
            && (AllEnded(after, active) <==> forall k | 0 <= k < |active| :: !Throws(slots[active[k]]))
  {
    var n := Reached(slots, active);
    CloseEachKeepsLength(slots, active);
    forall k | 0 <= k < |active|
      ensures var i, after := active[k], CloseEach(slots, active).0;
              after[i] == if k < n then Shut(slots[i]) else slots[i]
    {
      CloseEachReaches(slots, active, k);
    }
    if n > 0 && Throws(slots[active[n - 1]]) {
      assert CloseEach(slots, active).0[active[n - 1]].native;
    }
  }

  /** The wrapper marks every owned stream closed exactly when no stream but the last throws. */
  lemma CloseMarksAllExactlyWhenOnlyTheLastThrows(slots: seq<Slot>, active: seq<nat>)
    requires Within(active, |slots|) && Distinct(active)
    requires forall k | 0 <= k < |active| :: !slots[active[k]].closed
    ensures var after := CloseEach(slots, active).0;
            && |after| == |slots|
            && ((forall k | 0 <= k < |active| :: after[active[k]].closed)
                <==> forall k | 0 <= k < |active| - 1 :: !Throws(slots[active[k]]))
  {
    var n := Reached(slots, active);
    CloseEachKeepsLength(slots, active);
    forall k | 0 <= k < |active|
      ensures var i, after := active[k], CloseEach(slots, active).0;
              after[i] == if k < n then Shut(slots[i]) else slots[i]
    {
      CloseEachReaches(slots, active, k);
    }
    if n < |active| {
      assert !CloseEach(slots, active).0[active[n]].closed;
    }
  }

  /**
   That is reached: of two streams handed out, the native close of the first throws, and the
   session is closed for good with the second open and no longer owned.
   */
  lemma AThrowLeavesTheNextOpen() returns (ts: seq<Step>, s: Session)
    ensures Reaches(NEW_SESSION, ts, s)
    ensures s.closed && s.sweep == [] && s.owned == [] && NothingPending(s)
    ensures |s.slots| == 2 && s.slots[1] == Slot(Returned, false, true, false)
  {
    var us := [CloseCall, SweepNext];
    var vs := [OpenCall, Arrive(1, false)] + us;
    ts := [OpenCall, Arrive(0, true)] + vs;
    var s1 := NEW_SESSION.(slots := [Slot(Returned, false, true, true)], owned := [0]);
    var s2 := NEW_SESSION.(slots := [Slot(Returned, false, true, true), Slot(Returned, false, true, false)], owned := [0, 1]);
    s := Session(true, [Slot(Returned, true, true, true), Slot(Returned, false, true, false)], [], [], true);
    TwoSteps(s2, CloseCall, SweepNext, [], s);
    assert us == [CloseCall, SweepNext] + [];
    TwoSteps(s1, OpenCall, Arrive(1, false), us, s);
    TwoSteps(NEW_SESSION, OpenCall, Arrive(0, true), vs, s);
  }

  lemma TwoSteps(s: Session, a: Step, b: Step, ts: seq<Step>, t: Session)
    requires Enabled(s, a) && Enabled(Apply(s, a), b) && Reaches(Apply(Apply(s, a), b), ts, t)
    ensures Reaches(s, [a, b] + ts, t)
  {
    assert ([a, b] + ts)[1..] == [b] + ts;
    assert ([b] + ts)[1..] == ts;
    assert Reaches(Apply(s, a), [b] + ts, t);
  }
}
