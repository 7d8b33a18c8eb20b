/**
 The receive inbox of one stream: a frame queue bounded both by frame count and by payload
 bytes, with the running byte count kept beside it and updated with saturating arithmetic.
 */
module Inbox {
  import opened Framing
  import opened Totals
  import opened Saturating

  const MAX_INBOX_FRAMES: nat := 256
  const MAX_INBOX_BYTES: nat := 16 * 1024 * 1024

  function Size(f: Frame): nat {
    |f|
  }

  datatype InboxState = InboxState(frames: seq<Frame>, bytes: nat) {

    /** The admission test of the enqueue path. */
    predicate Fits(payload: Frame) {
      |frames| < MAX_INBOX_FRAMES && SaturatingAdd(bytes, |payload|) <= MAX_INBOX_BYTES
    }

    function Push(payload: Frame): InboxState {
      InboxState(frames + [payload], bytes + |payload|)
    }

    function Pop(): InboxState
      requires frames != []
    {
      InboxState(frames[1..], SaturatingSub(bytes, |frames[0]|))
    }

    /** The accounting every operation keeps. */
    predicate Accounted() {
      && bytes == Total(frames, Size)
      && |frames| <= MAX_INBOX_FRAMES
      && bytes <= MAX_INBOX_BYTES
    }
  }

  const EMPTY_INBOX: InboxState := InboxState([], 0)

  lemma PushKeepsAccounts(s: InboxState, payload: Frame)
    requires s.Accounted() && s.Fits(payload)
    ensures s.Push(payload).Accounted()
    ensures SaturatingAdd(s.bytes, |payload|) == s.bytes + |payload| <= MAX_INBOX_BYTES
  {
    TotalAppend(s.frames, payload, Size);
  }

  lemma PopKeepsAccounts(s: InboxState)
    requires s.Accounted() && s.frames != []
    ensures s.Pop().Accounted()
    ensures s.Pop().bytes == s.bytes - |s.frames[0]|
  {
    TotalHead(s.frames, Size);
  }

  /** Any legal frame fits once the inbox is empty, so a draining consumer always makes room. */
  lemma EmptyInboxAdmits(s: InboxState, payload: Frame)
    requires s.Accounted() && s.frames == []
    ensures s.Fits(payload)
  {
    assert s.bytes == Total(s.frames, Size);
  }

  /** The admission test with saturating arithmetic refuses exactly what plain arithmetic refuses. */
  lemma FitsExactly(s: InboxState, payload: Frame)
    requires s.Accounted()
    ensures s.Fits(payload) <==>
            |s.frames + [payload]| <= MAX_INBOX_FRAMES && Total(s.frames + [payload], Size) <= MAX_INBOX_BYTES
  {
    TotalAppend(s.frames, payload, Size);
  }

  /** A notification cell with one stored permit and one waiter, the reader. */
  datatype Notify = Notify(permit: bool, waiting: bool, woken: bool) {

    /** Wake the waiter, or store the permit if there is none to wake. */
    function NotifyOne(): Notify {
      if waiting && !woken then this.(woken := true) else this.(permit := true)
    }
  }

  /** The inbox as the tasks share it, with its capacity notification. Each method body is one critical section of its lock. */
  class SharedInbox {
    var frames: seq<Frame>
    var bytes: nat
    var capacity: Notify

    function State(): InboxState
      reads this
    {
      InboxState(frames, bytes)
    }

    constructor ()
      ensures State() == EMPTY_INBOX && capacity == Notify(false, false, false)
    {
      frames, bytes, capacity := [], 0, Notify(false, false, false);
    }

    method TryPush(payload: Frame) returns (pushed: bool)
      requires State().Accounted()
      modifies this
      ensures State().Accounted()
      ensures pushed <==> |old(frames)| < MAX_INBOX_FRAMES && Total(old(frames), Size) + |payload| <= MAX_INBOX_BYTES
      ensures frames == if pushed then old(frames) + [payload] else old(frames)
      ensures State() == if old(State()).Fits(payload) then old(State()).Push(payload) else old(State())
      ensures capacity == old(capacity)
    {
      pushed := false;
      if |frames| < MAX_INBOX_FRAMES && SaturatingAdd(bytes, |payload|) <= MAX_INBOX_BYTES {
        PushKeepsAccounts(State(), payload);
        bytes := bytes + |payload|;
        frames := frames + [payload];
        pushed := true;
      }
    }

    method PopFront() returns (empty: bool, payload: Frame)
      requires State().Accounted()
      modifies this
      ensures State().Accounted()
      ensures empty <==> old(frames) == []
      ensures empty ==> State() == old(State())
      ensures !empty ==> old(frames) == [payload] + frames && bytes + |payload| == old(bytes)
      ensures !empty ==> State() == old(State()).Pop()
      ensures capacity == if empty then old(capacity) else old(capacity).NotifyOne()
      ensures !empty && capacity.waiting ==> capacity.woken
    {
      if |frames| == 0 {
        empty, payload := true, [0];
      } else {
        PopKeepsAccounts(State());
        empty, payload := false, frames[0];
        frames := frames[1..];
        bytes := SaturatingSub(bytes, |payload|);
        capacity := capacity.NotifyOne();
      }
    }
  }
}
