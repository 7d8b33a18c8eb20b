/**
 What registering and removing a handler promise its owner: a message handler registered on an open
 stream stays until it is removed and is not called afterwards, and a close handler is called when
 the stream has ended, also if it came too late, unless it was removed first.
 */
module JsRegistrations {
  import opened JsHandlers
  import opened JsPump

  // ---------------------------------------------------------------------------------------
  // Entries
  // ---------------------------------------------------------------------------------------

  /** No entry has this number, and none will. */
  predicate Past(entries: seq<Entry>, next: nat, id: nat) {
    id < next && forall x | x in entries :: x.id != id
  }

  lemma {:induction false} DropIsPart(entries: seq<Entry>, h: nat)
    ensures forall x :: x in Drop(entries, h) <==> x in entries && x.handler != h
  {
    if entries != [] {
      DropIsPart(entries[..|entries| - 1], h);
      assert entries == entries[..|entries| - 1] + [entries[|entries| - 1]];
    }
  }

  lemma AddIsThere(entries: seq<Entry>, x: Entry)
    ensures exists y :: y in Add(entries, x) && y.handler == x.handler
    ensures forall y | y in Add(entries, x) :: y in entries || y == x
    ensures forall y | y in entries :: y in Add(entries, x)
  {
    if Has(entries, x.handler) {
      var i :| 0 <= i < |entries| && entries[i].handler == x.handler;
      assert entries[i] in Add(entries, x);
    } else {
      assert x in Add(entries, x);
    }
  }

  /** Numbers are given out once. */
  lemma SameNumber(entries: seq<Entry>, next: nat, x: Entry, y: Entry)
    requires Sorted(entries, next) && x in entries && y in entries && x.id == y.id
    ensures x == y
  {
    var i :| 0 <= i < |entries| && entries[i] == x;
    var j :| 0 <= j < |entries| && entries[j] == y;
    assert i == j;
  }

  lemma DroppedIsPast(entries: seq<Entry>, next: nat, x: Entry)
    requires Sorted(entries, next) && x in entries
    ensures Past(Drop(entries, x.handler), next, x.id)
  {
    DropIsPart(entries, x.handler);
    forall y | y in Drop(entries, x.handler) ensures y.id != x.id {
      if y.id == x.id { SameNumber(entries, next, x, y); }
    }
  }

  // ---------------------------------------------------------------------------------------
  // Message handlers
  // ---------------------------------------------------------------------------------------

  /** A move changes the message handlers' record only by handing the frame to one that is registered. */
  lemma MoveHands(j: JsStream, k: nat, m: Move, id: nat)
    requires JsEnabled(j, Turn(k, m)) && Past(j.ears.messages, j.ears.next, id)
    ensures var e := JsApply(j, Turn(k, m)).ears;
            e.messages == j.ears.messages && e.next == j.ears.next && Given(e.log, id) == Given(j.ears.log, id)
  {
    var e := NextEars(j, j.pumps[k], m);
    assert JsApply(j, Turn(k, m)).ears == e;
    if e.log != j.ears.log {
      var d := e.log[|e.log| - 1];
      assert e.log == j.ears.log + [d];
      GivenNext(j.ears.log, d, id);
    }
  }

  lemma PastStep(j: JsStream, t: JsStep, id: nat)
    requires JsEnabled(j, t) && Past(j.ears.messages, j.ears.next, id)
    ensures var e := JsApply(j, t).ears; Past(e.messages, e.next, id) && Given(e.log, id) == Given(j.ears.log, id)
  {
    match t {
      case OnMessage(h) =>
        if !j.closed {
          var e := AddMessage(j.ears, PassAt(j), h);
          assert JsApply(j, t).ears == e;
          AddIsThere(j.ears.messages, Entry(j.ears.next, h, if PassAt(j).Visited? then |j.ears.frames| - 1 else |j.ears.frames|));
        }
      case OffMessage(h) => DropIsPart(j.ears.messages, h);
      case Turn(k, m) => MoveHands(j, k, m, id);
      case _ =>
    }
  }

  lemma {:induction false} PastOnward(j: JsStream, ts: seq<JsStep>, k: JsStream, id: nat)
    requires JsReaches(j, ts, k) && Past(j.ears.messages, j.ears.next, id)
    ensures Given(k.ears.log, id) == Given(j.ears.log, id)
    decreases |ts|
  {
    if ts != [] {
      PastStep(j, ts[0], id);
      PastOnward(JsApply(j, ts[0]), ts[1..], k, id);
    }
  }

  /** A message handler that has been removed is not called any more, not even in the pass under way. */
  lemma RemovedHandlerHearsNothing(j: JsStream, x: Entry, ts: seq<JsStep>, k: JsStream)
    requires JsReachable(j) && x in j.ears.messages && JsEnabled(j, OffMessage(x.handler))
    requires JsReaches(JsApply(j, OffMessage(x.handler)), ts, k)
    ensures Given(k.ears.log, x.id) == Given(j.ears.log, x.id)
  {
    EarsHold(j);
    DroppedIsPast(j.ears.messages, j.ears.next, x);
    PastOnward(JsApply(j, OffMessage(x.handler)), ts, k, x.id);
  }

  predicate NeverOff(ts: seq<JsStep>, off: JsStep) {
    forall i | 0 <= i < |ts| :: ts[i] != off
  }

  lemma EntryStays(j: JsStream, t: JsStep, x: Entry)
    requires JsEnabled(j, t) && t != OffMessage(x.handler) && x in j.ears.messages
    ensures x in JsApply(j, t).ears.messages
  {
    match t {
      case OffMessage(h) => DropIsPart(j.ears.messages, h);
      case Turn(k, m) => assert JsApply(j, t).ears == NextEars(j, j.pumps[k], m);
      case _ =>
    }
  }

  lemma {:induction false} EntryStaysOnward(j: JsStream, ts: seq<JsStep>, k: JsStream, x: Entry)
    requires JsReaches(j, ts, k) && NeverOff(ts, OffMessage(x.handler)) && x in j.ears.messages
    ensures x in k.ears.messages
    decreases |ts|
  {
    if ts != [] {
      EntryStays(j, ts[0], x);
      assert NeverOff(ts[1..], OffMessage(x.handler));
      EntryStaysOnward(JsApply(j, ts[0]), ts[1..], k, x);
    }
  }

  /**
   A message handler registered on an open stream stays registered until it is removed, and in
   every state until then has been called with every frame taken since, as `HandlerIsUpToDate` has it.
   */
  lemma RegisteredHandlerStays(j: JsStream, h: nat, ts: seq<JsStep>, k: JsStream) returns (x: Entry)
    requires JsReachable(j) && JsEnabled(j, OnMessage(h)) && !j.closed
    requires JsReaches(JsApply(j, OnMessage(h)), ts, k) && NeverOff(ts, OffMessage(h))
    ensures x.handler == h && x.first <= |j.ears.frames| && x in k.ears.messages
    ensures Current(k.pumps).Delivering? ==> k.ears.frames != []
    ensures UpToDate(k.ears, PassOf(Current(k.pumps)), x)
  {
    EarsHold(j);
    var m := JsApply(j, OnMessage(h));
    assert m.ears == AddMessage(j.ears, PassAt(j), h);
    var first := if PassAt(j).Visited? then |j.ears.frames| - 1 else |j.ears.frames|;
    AddIsThere(j.ears.messages, Entry(j.ears.next, h, first));
    x :| x in m.ears.messages && x.handler == h;
    if x in j.ears.messages { assert UpToDate(j.ears, PassOf(Current(j.pumps)), x); }
    EntryStaysOnward(m, ts, k, x);
    JsReachableStep(j, OnMessage(h));
    JsReachableOnward(m, ts, k);
    HandlerIsUpToDate(k, x);
  }

  // ---------------------------------------------------------------------------------------
  // Each handler once
  // ---------------------------------------------------------------------------------------

  predicate EachOnce(entries: seq<Entry>) {
    forall i, j | 0 <= i < j < |entries| :: entries[i].handler != entries[j].handler
  }

  lemma {:induction false} DropKeepsOnce(entries: seq<Entry>, h: nat)
    requires EachOnce(entries)
    ensures EachOnce(Drop(entries, h))
  {
    if entries != [] {
      var init := entries[..|entries| - 1];
      DropKeepsOnce(init, h);
      DropIsPart(init, h);
      forall x | x in Drop(init, h) ensures x.handler != entries[|entries| - 1].handler {
        var i :| 0 <= i < |init| && init[i] == x;
        assert entries[i] == x;
      }
    }
  }

  lemma OnceStep(j: JsStream, t: JsStep)
    requires JsEnabled(j, t) && EachOnce(j.ears.messages) && EachOnce(j.bye.closes)
    ensures EachOnce(JsApply(j, t).ears.messages) && EachOnce(JsApply(j, t).bye.closes)
  {
    match t {
      case OffMessage(h) => DropKeepsOnce(j.ears.messages, h);
      case OffClose(h) => DropKeepsOnce(j.bye.closes, h);
      case Turn(k, m) =>
        assert JsApply(j, t).ears == NextEars(j, j.pumps[k], m);
        MovesLeaveBye(j, t);
      case _ =>
    }
  }

  lemma {:induction false} OnceOnward(j: JsStream, ts: seq<JsStep>, k: JsStream)
    requires JsReaches(j, ts, k) && EachOnce(j.ears.messages) && EachOnce(j.bye.closes)
    ensures EachOnce(k.ears.messages) && EachOnce(k.bye.closes)
    decreases |ts|
  {
    if ts != [] {
      OnceStep(j, ts[0]);
      OnceOnward(JsApply(j, ts[0]), ts[1..], k);
    }
  }

  /** However often it is registered, a handler is on either list once, so it is called once for each frame and once at the end. */
  lemma HandlersAreRegisteredOnce(j: JsStream)
    requires JsReachable(j)
    ensures EachOnce(j.ears.messages) && EachOnce(j.bye.closes)
  {
    var j0, ts :| JsInit(j0) && JsReaches(j0, ts, j);
    OnceOnward(j0, ts, j);
  }

  // ---------------------------------------------------------------------------------------
  // Close handlers
  // ---------------------------------------------------------------------------------------

  /** No call of this entry has been made, and none will. */
  predicate Forgotten(b: Farewell, id: nat) {
    Past(b.closes, b.next, id) && id !in b.late && id !in b.fired
  }

  lemma ForgottenStep(j: JsStream, t: JsStep, id: nat)
    requires JsEnabled(j, t) && Forgotten(j.bye, id)
    ensures Forgotten(JsApply(j, t).bye, id)
  {
    match t {
      case OnClose(h) =>
        assert JsApply(j, t).bye == AddClose(j.bye, h, j.closed);
        AddIsThere(j.bye.closes, Entry(j.bye.next, h, 0));
      case OffClose(h) => DropIsPart(j.bye.closes, h);
      case FireNext =>
        assert j.bye.closes[NextFrom(j.bye.closes, j.bye.emission.from)] in j.bye.closes;
      case FireLate => assert j.bye.late[0] in j.bye.late;
      case _ => MovesLeaveBye(j, t);
    }
  }

  lemma {:induction false} ForgottenOnward(j: JsStream, ts: seq<JsStep>, k: JsStream, id: nat)
    requires JsReaches(j, ts, k) && Forgotten(j.bye, id)
    ensures Forgotten(k.bye, id)
    decreases |ts|
  {
    if ts != [] {
      ForgottenStep(j, ts[0], id);
      ForgottenOnward(JsApply(j, ts[0]), ts[1..], k, id);
    }
  }

  /** A close handler removed before its call is never called. */
  lemma RemovedCloseHandlerIsNotCalled(j: JsStream, x: Entry, ts: seq<JsStep>, k: JsStream)
    requires JsReachable(j) && x in j.bye.closes && x.id !in j.bye.fired && JsEnabled(j, OffClose(x.handler))
    requires JsReaches(JsApply(j, OffClose(x.handler)), ts, k)
    ensures x.id !in k.bye.fired
  {
    ByeHolds(j);
    DroppedIsPast(j.bye.closes, j.bye.next, x);
    ForgottenOnward(JsApply(j, OffClose(x.handler)), ts, k, x.id);
  }

  /** The call of this entry is scheduled or made. */
  predicate Due(b: Farewell, id: nat) {
    id in b.late || id in b.fired
  }

  lemma DueStep(j: JsStream, t: JsStep, id: nat)
    requires JsEnabled(j, t) && Due(j.bye, id)
    ensures Due(JsApply(j, t).bye, id)
  {
    match t {
      case OnClose(h) => assert JsApply(j, t).bye == AddClose(j.bye, h, j.closed);
      case FireLate => if id in j.bye.late { HeadOrTail(j.bye.late, id); }
      case FireNext =>
      case OffClose(h) =>
      case _ => MovesLeaveBye(j, t);
    }
  }

  lemma HeadOrTail(ids: seq<nat>, id: nat)
    requires ids != [] && id in ids
    ensures id == ids[0] || id in ids[1..]
  {
  }

  lemma {:induction false} DueOnward(j: JsStream, ts: seq<JsStep>, k: JsStream, id: nat)
    requires JsReaches(j, ts, k) && Due(j.bye, id)
    ensures Due(k.bye, id)
    decreases |ts|
  {
    if ts != [] {
      DueStep(j, ts[0], id);
      DueOnward(JsApply(j, ts[0]), ts[1..], k, id);
    }
  }

  /** A close handler that comes after the end is called by the time no scheduled call is left. */
  lemma LateCloseHandlerIsCalled(j: JsStream, h: nat, ts: seq<JsStep>, k: JsStream)
    requires JsReachable(j) && JsEnabled(j, OnClose(h)) && j.closed
    requires JsReaches(JsApply(j, OnClose(h)), ts, k) && !JsEnabled(k, FireLate)
    ensures j.bye.next !in j.bye.fired && j.bye.next in k.bye.fired
  {
    ByeHolds(j);
    var m := JsApply(j, OnClose(h));
    assert m.bye.late[|m.bye.late| - 1] == j.bye.next;
    DueOnward(m, ts, k, j.bye.next);
  }

  lemma CloseEntryStays(j: JsStream, t: JsStep, x: Entry)
    requires JsEnabled(j, t) && t != OffClose(x.handler) && x in j.bye.closes
    ensures x in JsApply(j, t).bye.closes
  {
    match t {
      case OnClose(h) => assert JsApply(j, t).bye == AddClose(j.bye, h, j.closed);
      case OffClose(h) => DropIsPart(j.bye.closes, h);
      case FireNext =>
      case FireLate =>
      case _ => MovesLeaveBye(j, t);
    }
  }

  lemma {:induction false} CloseEntryStaysOnward(j: JsStream, ts: seq<JsStep>, k: JsStream, x: Entry)
    requires JsReaches(j, ts, k) && NeverOff(ts, OffClose(x.handler)) && x in j.bye.closes
    ensures x in k.bye.closes
    decreases |ts|
  {
    if ts != [] {
      CloseEntryStays(j, ts[0], x);
      assert NeverOff(ts[1..], OffClose(x.handler));
      CloseEntryStaysOnward(JsApply(j, ts[0]), ts[1..], k, x);
    }
  }

  /** A close handler registered on an open stream and not removed has been called when the round of calls is over. */
  lemma RegisteredCloseHandlerIsCalled(j: JsStream, h: nat, ts: seq<JsStep>, k: JsStream) returns (x: Entry)
    requires JsReachable(j) && JsEnabled(j, OnClose(h)) && !j.closed
    requires JsReaches(JsApply(j, OnClose(h)), ts, k) && NeverOff(ts, OffClose(h))
    requires k.closed && !JsEnabled(k, FireNext)
    ensures x.handler == h && x.id !in j.bye.fired && x.id in k.bye.fired
  {
    ByeHolds(j);
    var m := JsApply(j, OnClose(h));
    assert m.bye == AddClose(j.bye, h, false);
    AddIsThere(j.bye.closes, Entry(j.bye.next, h, 0));
    x :| x in m.bye.closes && x.handler == h;
    CloseEntryStaysOnward(m, ts, k, x);
    JsReachableStep(j, OnClose(h));
    JsReachableOnward(m, ts, k);
    EveryCloseHandlerFires(k);
  }

  // ---------------------------------------------------------------------------------------
  // In order
  // ---------------------------------------------------------------------------------------

  /** No close handler is called before one that was registered earlier and is still there. */
  lemma CloseHandlersFireInOrder(j: JsStream)
    requires JsReachable(j) && JsEnabled(j, FireNext)
    ensures var fired := JsApply(j, FireNext).bye.fired;
            && |fired| == |j.bye.fired| + 1 && j.bye.fired <= fired
            && forall x | x in j.bye.closes && x.id < fired[|fired| - 1] :: x.id in j.bye.fired
  {
    ByeHolds(j);
    forall x | x in j.bye.closes && x.id < JsApply(j, FireNext).bye.fired[|j.bye.fired|] ensures x.id in j.bye.fired {
      var i :| 0 <= i < |j.bye.closes| && j.bye.closes[i] == x;
    }
  }

  predicate LateInOrder(b: Farewell) {
    && (forall i, k | 0 <= i < k < |b.late| :: b.late[i] < b.late[k])
    && (forall i | 0 <= i < |b.late| :: b.late[i] < b.next)
  }

  lemma LateStep(j: JsStream, t: JsStep)
    requires JsEnabled(j, t) && LateInOrder(j.bye)
    ensures LateInOrder(JsApply(j, t).bye)
  {
    match t {
      case OnClose(h) => assert JsApply(j, t).bye == AddClose(j.bye, h, j.closed);
      case OffClose(h) =>
      case FireNext =>
      case FireLate =>
      case _ => MovesLeaveBye(j, t);
    }
  }

  lemma {:induction false} LateOnward(j: JsStream, ts: seq<JsStep>, k: JsStream)
    requires JsReaches(j, ts, k) && LateInOrder(j.bye)
    ensures LateInOrder(k.bye)
    decreases |ts|
  {
    if ts != [] {
      LateStep(j, ts[0]);
      LateOnward(JsApply(j, ts[0]), ts[1..], k);
    }
  }

  /** Handlers that come after the end are called in the order they came. */
  lemma LateHandlersFireInOrder(j: JsStream)
    requires JsReachable(j) && JsEnabled(j, FireLate)
    ensures var b := JsApply(j, FireLate).bye;
            && |b.fired| == |j.bye.fired| + 1 && j.bye.fired <= b.fired
            && b.fired[|b.fired| - 1] in j.bye.late
            && forall id | id in b.late :: b.fired[|b.fired| - 1] < id
  {
    var j0, ts :| JsInit(j0) && JsReaches(j0, ts, j);
    LateOnward(j0, ts, j);
  }
}
