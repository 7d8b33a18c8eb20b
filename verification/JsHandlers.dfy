/**
 The handler sets of a JavaScript stream. A set keeps its handlers in the order they were
 added, holds each handler once, and is iterated live: handlers added during a pass are still
 visited and handlers removed before their turn are not. Every entry gets a number of its own,
 so that removing a handler and adding it again makes a new entry.
 */
module JsHandlers {
  import opened Framing
  import opened Sequences

  datatype Entry = Entry(id: nat, handler: nat, first: nat)

  predicate Sorted(entries: seq<Entry>, next: nat) {
    && (forall i, j | 0 <= i < j < |entries| :: entries[i].id < entries[j].id)
    && (forall x | x in entries :: x.id < next)
  }

  predicate Has(entries: seq<Entry>, handler: nat) {
    exists i | 0 <= i < |entries| :: entries[i].handler == handler
  }

  function Add(entries: seq<Entry>, x: Entry): seq<Entry> {
    if Has(entries, x.handler) then entries else entries + [x]
  }

  function Drop(entries: seq<Entry>, handler: nat): seq<Entry> {
    if entries == [] then []
    else
      var rest := Drop(entries[..|entries| - 1], handler);
      if entries[|entries| - 1].handler == handler then rest else rest + [entries[|entries| - 1]]
  }

  /** Where a pass that has come to entry number `from` goes on. */
  function NextFrom(entries: seq<Entry>, from: nat): (i: nat)
    ensures i <= |entries|
    ensures forall k | 0 <= k < i :: entries[k].id < from
    ensures i < |entries| ==> entries[i].id >= from
  {
    if entries == [] || entries[0].id >= from then 0
    else 1 + NextFrom(entries[1..], from)
  }

  lemma {:induction false} DropKeeps(entries: seq<Entry>, handler: nat, next: nat)
    requires Sorted(entries, next)
    ensures Sorted(Drop(entries, handler), next)
    ensures forall x :: x in Drop(entries, handler) <==> x in entries && x.handler != handler
  {
    if entries != [] {
      var init, last := entries[..|entries| - 1], entries[|entries| - 1];
      assert entries == init + [last];
      DropKeeps(init, handler, next);
      assert Sorted(init, last.id);
      DropKeeps(init, handler, last.id);
    }
  }

  // ---------------------------------------------------------------------------------------
  // Deliveries
  // ---------------------------------------------------------------------------------------

  /** Frame number `frame` was handed to entry number `id`. */
  datatype Delivery = Delivery(frame: nat, id: nat)

  /** The message handlers, the frames taken from the native side, and who was given what. */
  datatype Ears = Ears(messages: seq<Entry>, next: nat, frames: seq<Frame>, log: seq<Delivery>)

  /** A pass over the handlers for the newest frame has last visited entry `cursor`. */
  datatype Pass = NoPass | Visited(cursor: nat)

  /** The numbers of the frames an entry was given, in the order of its calls. */
  function Given(log: seq<Delivery>, id: nat): seq<nat> {
    if log == [] then []
    else
      var d, rest := log[|log| - 1], Given(log[..|log| - 1], id);
      if d.id == id then rest + [d.frame] else rest
  }

  function Range(a: nat, b: nat): seq<nat> {
    if a >= b then [] else Range(a, b - 1) + [b - 1]
  }

  lemma GivenNext(log: seq<Delivery>, d: Delivery, id: nat)
    ensures Given(log + [d], id) == if d.id == id then Given(log, id) + [d.frame] else Given(log, id)
  {
    assert (log + [d])[..|log|] == log;
  }

  lemma {:induction false} GivenNothing(log: seq<Delivery>, id: nat)
    requires forall d | d in log :: d.id != id
    ensures Given(log, id) == []
  {
    if log != [] {
      GivenNothing(log[..|log| - 1], id);
    }
  }

  /** How many frames an entry should have been given by now, counted from the first one taken. */
  function Upto(e: Ears, p: Pass, x: Entry): nat
    requires p.Visited? ==> e.frames != []
  {
    if p.Visited? && x.id > p.cursor then |e.frames| - 1 else |e.frames|
  }

  predicate UpToDate(e: Ears, p: Pass, x: Entry)
    requires p.Visited? ==> e.frames != []
  {
    x.first <= Upto(e, p, x) && Given(e.log, x.id) == Range(x.first, Upto(e, p, x))
  }

  predicate Before(a: Delivery, b: Delivery) {
    a.frame < b.frame || (a.frame == b.frame && a.id < b.id)
  }

  predicate Ordered(log: seq<Delivery>) {
    forall i, j | 0 <= i < j < |log| :: Before(log[i], log[j])
  }

  predicate IsHeard(log: seq<Delivery>, frame: nat) {
    exists d | d in log :: d.frame == frame
  }

  predicate LogOk(e: Ears, p: Pass) {
    && (forall d | d in e.log :: d.frame < |e.frames| && d.id < e.next)
    && Ordered(e.log)
    && (forall k | 0 <= k < |e.frames| :: IsHeard(e.log, k))
    && (p.Visited? ==> e.frames != [] && e.log != [] && e.log[|e.log| - 1] == Delivery(|e.frames| - 1, p.cursor))
  }

  predicate EarsOk(e: Ears, p: Pass) {
    && (p.Visited? ==> e.frames != [])
    && Sorted(e.messages, e.next)
    && LogOk(e, p)
    && (forall x | x in e.messages :: UpToDate(e, p, x))
  }

  // ---------------------------------------------------------------------------------------
  // The operations on them
  // ---------------------------------------------------------------------------------------

  /** A handler added during a pass still gets the frame of that pass. */
  function AddMessage(e: Ears, p: Pass, handler: nat): Ears
    requires p.Visited? ==> e.frames != []
  {
    var first := if p.Visited? then |e.frames| - 1 else |e.frames|;
    e.(messages := Add(e.messages, Entry(e.next, handler, first)), next := e.next + 1)
  }

  function DropMessage(e: Ears, handler: nat): Ears {
    e.(messages := Drop(e.messages, handler))
  }

  /** A frame arrives and its pass begins with the first handler there is. */
  function BeginPass(e: Ears, f: Frame): Ears {
    if e.messages == [] then e.(frames := e.frames + [f])
    else e.(frames := e.frames + [f], log := e.log + [Delivery(|e.frames|, e.messages[0].id)])
  }

  function VisitNext(e: Ears, i: nat): Ears
    requires i < |e.messages| && e.frames != []
  {
    e.(log := e.log + [Delivery(|e.frames| - 1, e.messages[i].id)])
  }

  lemma CursorBelow(e: Ears, p: Pass)
    requires LogOk(e, p)
    ensures p.Visited? ==> p.cursor < e.next
  {
    if p.Visited? { assert e.log[|e.log| - 1] in e.log; }
  }

  lemma AddKeepsLog(e: Ears, p: Pass, handler: nat)
    requires LogOk(e, p)
    ensures p.Visited? ==> e.frames != []
    ensures LogOk(AddMessage(e, p, handler), p)
  {
  }

  lemma AddKeepsEars(e: Ears, p: Pass, handler: nat)
    requires EarsOk(e, p)
    ensures EarsOk(AddMessage(e, p, handler), p)
  {
    var e' := AddMessage(e, p, handler);
    AddKeepsLog(e, p, handler);
    GivenNothing(e.log, e.next);
    CursorBelow(e, p);
    forall x | x in e'.messages ensures UpToDate(e', p, x) {
      if x in e.messages { assert UpToDate(e, p, x); }
    }
  }

  lemma DropKeepsEars(e: Ears, p: Pass, handler: nat)
    requires EarsOk(e, p)
    ensures EarsOk(DropMessage(e, handler), p)
  {
    DropKeeps(e.messages, handler, e.next);
    var e' := DropMessage(e, handler);
    assert LogOk(e', p);
    forall x | x in e'.messages ensures UpToDate(e', p, x) {
      assert UpToDate(e, p, x);
    }
  }

  lemma LogGrows(e: Ears, p: Pass, frames: seq<Frame>, d: Delivery)
    requires LogOk(e, p) && d.id < e.next && d.frame == |frames| - 1
    requires frames == e.frames ==> p.Visited? && p.cursor < d.id
    requires frames != e.frames ==> |frames| == |e.frames| + 1
    ensures LogOk(e.(frames := frames, log := e.log + [d]), Visited(d.id))
  {
    var log := e.log + [d];
    assert forall x | x in log :: x in e.log || x == d;
    assert Ordered(log) by {
      forall i, j | 0 <= i < j < |log| ensures Before(log[i], log[j]) {
        if j == |e.log| {
          assert e.log[i] in e.log;
          assert i < |e.log| - 1 ==> Before(e.log[i], e.log[|e.log| - 1]);
        }
      }
    }
    forall k | 0 <= k < |frames| ensures IsHeard(log, k) {
      if k < |e.frames| {
        assert IsHeard(e.log, k);
        var x :| x in e.log && x.frame == k;
        assert x in log;
      } else {
        assert d in log;
      }
    }
  }

  lemma BeginKeepsEars(e: Ears, f: Frame)
    requires EarsOk(e, NoPass) && e.messages != []
    ensures EarsOk(BeginPass(e, f), Visited(e.messages[0].id))
  {
    var e', c := BeginPass(e, f), e.messages[0].id;
    assert e.messages[0] in e.messages;
    LogGrows(e, NoPass, e'.frames, Delivery(|e.frames|, c));
    forall x | x in e'.messages ensures UpToDate(e', Visited(c), x) {
      assert UpToDate(e, NoPass, x);
      GivenNext(e.log, Delivery(|e.frames|, c), x.id);
      var i :| 0 <= i < |e.messages| && e.messages[i] == x;
    }
  }

  /** One handler's record after the next one has been visited. */
  lemma VisitKeepsUpToDate(e: Ears, c: nat, k: nat)
    requires e.frames != [] && Sorted(e.messages, e.next) && NextFrom(e.messages, c + 1) < |e.messages|
    requires k < |e.messages| && UpToDate(e, Visited(c), e.messages[k])
    ensures var i := NextFrom(e.messages, c + 1);
            UpToDate(VisitNext(e, i), Visited(e.messages[i].id), e.messages[k])
  {
    var i := NextFrom(e.messages, c + 1);
    GivenNext(e.log, Delivery(|e.frames| - 1, e.messages[i].id), e.messages[k].id);
  }

  lemma VisitKeepsEars(e: Ears, c: nat)
    requires EarsOk(e, Visited(c)) && NextFrom(e.messages, c + 1) < |e.messages|
    ensures var i := NextFrom(e.messages, c + 1);
            EarsOk(VisitNext(e, i), Visited(e.messages[i].id))
  {
    var i := NextFrom(e.messages, c + 1);
    var d := Delivery(|e.frames| - 1, e.messages[i].id);
    assert e.messages[i] in e.messages;
    LogGrows(e, Visited(c), e.frames, d);
    forall x | x in e.messages ensures UpToDate(VisitNext(e, i), Visited(d.id), x) {
      var k :| 0 <= k < |e.messages| && e.messages[k] == x;
      assert UpToDate(e, Visited(c), x);
      VisitKeepsUpToDate(e, c, k);
    }
  }

  lemma EndKeepsEars(e: Ears, c: nat)
    requires EarsOk(e, Visited(c)) && NextFrom(e.messages, c + 1) == |e.messages|
    ensures EarsOk(e, NoPass)
  {
    forall x | x in e.messages ensures UpToDate(e, NoPass, x) {
      assert UpToDate(e, Visited(c), x);
      var j :| 0 <= j < |e.messages| && e.messages[j] == x;
    }
  }

  // ---------------------------------------------------------------------------------------
  // Payloads
  // ---------------------------------------------------------------------------------------

  function Payloads(frames: seq<Frame>, numbers: seq<nat>): seq<Frame>
    requires Within(numbers, |frames|)
  {
    if numbers == [] then []
    else Payloads(frames, numbers[..|numbers| - 1]) + [frames[numbers[|numbers| - 1]]]
  }

  lemma PayloadsNext(frames: seq<Frame>, numbers: seq<nat>, k: nat)
    requires Within(numbers, |frames|) && k < |frames|
    ensures Within(numbers + [k], |frames|)
    ensures Payloads(frames, numbers + [k]) == Payloads(frames, numbers) + [frames[k]]
  {
    assert (numbers + [k])[..|numbers|] == numbers;
  }

  lemma {:induction false} PayloadsOfRange(frames: seq<Frame>, a: nat, b: nat)
    requires a <= b <= |frames|
    ensures Within(Range(a, b), |frames|)
    ensures Payloads(frames, Range(a, b)) == frames[a..b]
  {
    if a < b {
      PayloadsOfRange(frames, a, b - 1);
      PayloadsNext(frames, Range(a, b - 1), b - 1);
      assert frames[a..b] == frames[a..b - 1] + [frames[b - 1]];
    }
  }
}
