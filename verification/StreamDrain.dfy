/**
 Backpressure never lasts: from any open stream whose writer is at work, the calls that hold
 permits come to their end, the writer brings the queue down to nothing and all permits back, and
 then a `send` of any legal payload succeeds.
 */
module StreamDrain {
  import opened Framing
  import opened Totals
  import opened StreamEngine
  import opened StreamInvariants
  import opened StreamSafety
  import opened StreamCalls

  predicate WriterOnly(ts: seq<Step>) {
    forall k | 0 <= k < |ts| :: ts[k].Write?
  }

  /** The frame the writer holds is on the wire and its permits are back. */
  function Wrote(o: Outbound): Outbound
    requires o.pc.WWriting? && o.pc.offset <= |Encode(o.pc.frame)|
  {
    o.(pc := WSelect, sent := o.sent + Encode(o.pc.frame)[o.pc.offset..], written := o.written + [o.pc.frame],
       permits := o.permits + |o.pc.frame|)
  }

  lemma FrameIsWritten(s: State) returns (ts: seq<Step>)
    requires s.out.pc.WWriting? && s.out.pc.offset <= |Encode(s.out.pc.frame)|
    ensures Reaches(s, ts, s.(out := Wrote(s.out))) && WriterOnly(ts)
  {
    var encoded, k := Encode(s.out.pc.frame), s.out.pc.offset;
    if k == |encoded| {
      ts := [Write(WriterFrameDone)];
      assert s.out.sent + encoded[k..] == s.out.sent;
      ReachesOne(s, ts[0]);
    } else {
      ts := [Write(WriterChunk(|encoded| - k)), Write(WriterFrameDone)];
      assert encoded[k..|encoded|] == encoded[k..];
      TwoSteps(s, ts[0], ts[1]);
    }
  }

  /** `t` is `s` after the writer's work: what has been accepted and the calls are as they were. */
  predicate OnlyWritten(s: State, t: State) {
    t == s.(out := t.out) && t.out.accepted == s.out.accepted
  }

  lemma NextFrameIsWritten(s: State) returns (ts: seq<Step>, t: State)
    requires s.out.pc.WSelect? && s.out.queue != []
    ensures Reaches(s, ts, t) && WriterOnly(ts) && OnlyWritten(s, t)
    ensures t.out.pc.WSelect? && t.out.queue == s.out.queue[1..]
  {
    var m := Apply(s, Write(WriterRecv));
    ReachesOne(s, Write(WriterRecv));
    ts := FrameIsWritten(m);
    t := m.(out := Wrote(m.out));
    ReachesTrans(s, [Write(WriterRecv)], m, ts, t);
    ts := [Write(WriterRecv)] + ts;
  }

  lemma {:induction false} QueueIsWritten(s: State) returns (ts: seq<Step>, t: State)
    requires s.out.pc.WSelect?
    ensures Reaches(s, ts, t) && WriterOnly(ts) && OnlyWritten(s, t)
    ensures t.out.pc.WSelect? && t.out.queue == []
    decreases |s.out.queue|
  {
    if s.out.queue == [] {
      ts, t := [], s;
    } else {
      var m: State, us: seq<Step>;
      ts, m := NextFrameIsWritten(s);
      us, t := QueueIsWritten(m);
      ReachesTrans(s, ts, m, us, t);
      ts := ts + us;
    }
  }

  lemma OffsetInFrame(s: State)
    requires Reachable(s) && s.out.pc.WWriting?
    ensures s.out.pc.offset <= |Encode(s.out.pc.frame)|
  {
    InvReachable(s);
  }

  /** From anywhere in its loop the writer alone can bring the queue down to nothing. */
  lemma WriterDrainsQueue(s: State) returns (ts: seq<Step>, t: State)
    requires Reachable(s) && WriterLooping(s.out)
    ensures Reaches(s, ts, t) && WriterOnly(ts) && OnlyWritten(s, t)
    ensures t.out.pc.WSelect? && t.out.queue == []
    ensures NoneHolding(s.sends) ==> t.out.permits == MAX_SEND_QUEUE_BYTES
  {
    if s.out.pc.WSelect? {
      ts, t := QueueIsWritten(s);
    } else {
      OffsetInFrame(s);
      ts := FrameIsWritten(s);
      var m := s.(out := Wrote(s.out));
      var us: seq<Step>;
      us, t := QueueIsWritten(m);
      ReachesTrans(s, ts, m, us, t);
      ts := ts + us;
    }
    ReachableOnward(s, ts, t);
    if NoneHolding(s.sends) { IdleStreamHasAllPermits(t); }
  }

  // ---------------------------------------------------------------------------------------
  // Calls that hold permits
  // ---------------------------------------------------------------------------------------

  function Trying(pc: SendPc): nat {
    if pc.STrying? then 1 else 0
  }

  predicate TriesOnly(ts: seq<Step>) {
    forall k | 0 <= k < |ts| :: ts[k].Send? && ts[k].c.SendTry?
  }

  /** `t` is `s` after calls have tried the channel: the writer is where it was, nothing accepted is lost. */
  predicate OnlyTried(s: State, t: State) {
    && t == s.(out := t.out, sends := t.sends)
    && t.out.pc == s.out.pc && s.out.accepted <= t.out.accepted && |t.sends| == |s.sends|
  }

  lemma TryFinishes(s: State, i: nat)
    requires i < |s.sends| && s.sends[i].STrying?
    ensures var m := Apply(s, Send(SendTry(i)));
            OnlyTried(s, m) && Total(m.sends, Trying) < Total(s.sends, Trying)
  {
    TotalUpdate(s.sends, i, Apply(s, Send(SendTry(i))).sends[i], Trying);
  }

  /** The calls between their permits and the channel try it, one after the other. */
  lemma {:induction false} CallsSettle(s: State) returns (ts: seq<Step>, t: State)
    ensures Reaches(s, ts, t) && TriesOnly(ts) && OnlyTried(s, t) && NoneHolding(t.sends)
    ensures NoneHolding(s.sends) ==> ts == [] && t == s
    decreases Total(s.sends, Trying)
  {
    if NoneHolding(s.sends) {
      ts, t := [], s;
    } else {
      var i :| 0 <= i < |s.sends| && s.sends[i].STrying?;
      var m := Apply(s, Send(SendTry(i)));
      TryFinishes(s, i);
      ReachesOne(s, Send(SendTry(i)));
      ts, t := CallsSettle(m);
      ReachesTrans(s, [Send(SendTry(i))], m, ts, t);
      ts := [Send(SendTry(i))] + ts;
    }
  }

  /** Only calls already holding permits and the writer act. */
  predicate TriesThenWrites(ts: seq<Step>) {
    forall k | 0 <= k < |ts| :: ts[k].Write? || (ts[k].Send? && ts[k].c.SendTry?)
  }

  /** The calls come to their end and the writer drains what they leave. */
  lemma AllSettlesAndDrains(s: State) returns (ts: seq<Step>, t: State)
    requires Reachable(s) && WriterLooping(s.out)
    ensures Reaches(s, ts, t) && TriesThenWrites(ts) && s.out.accepted <= t.out.accepted
    ensures t == s.(out := t.out, sends := t.sends) && NoneHolding(t.sends)
    ensures t.out.pc.WSelect? && t.out.queue == []
    ensures NoneHolding(s.sends) ==> WriterOnly(ts) && OnlyWritten(s, t)
  {
    var m: State, vs: seq<Step>;
    ts, m := CallsSettle(s);
    ReachableOnward(s, ts, m);
    vs, t := WriterDrainsQueue(m);
    ReachesTrans(s, ts, m, vs, t);
    ts := ts + vs;
  }

  /**
   However full the queue of an open stream is and whatever its calls hold, as long as its writer
   is in its loop, a run of the writer and of the calls holding permits makes room for any legal
   payload. With no call holding permits the writer alone is enough.
   */
  lemma BackpressureIsTemporary(s: State, payload: Frame) returns (ts: seq<Step>, us: seq<Step>, t: State)
    requires Reachable(s) && StreamIsOpen(s) && WriterLooping(s.out)
    ensures Reaches(s, ts, t) && TriesThenWrites(ts) && s.out.accepted <= t.out.accepted && WriterLooping(t.out)
    ensures OutcomeOf(t, payload) == SendOk && Reaches(t, us, AfterSend(t, payload)) && OneSend(us, payload)
    ensures AfterSend(t, payload).out.accepted == t.out.accepted + [payload]
    ensures NoneHolding(s.sends) ==> WriterOnly(ts) && OnlyWritten(s, t)
  {
    ts, t := AllSettlesAndDrains(s);
    ReachableOnward(s, ts, t);
    us := IdleStreamAcceptsAnyFrame(t, payload);
  }

  /** A drained writer whose senders are gone ends the stream cleanly, with everything on the wire. */
  lemma DrainedWriterEnds(s: State) returns (t: State)
    requires Reachable(s) && s.out.pc.WSelect? && s.out.queue == [] && NoSenders(s)
    ensures Reaches(s, [Write(WriterRecvNone), Write(WriterEnd)], t)
    ensures t.out.fate == FinSent && t.out.accepted == s.out.accepted && t.out.sent == EncodeAll(s.out.accepted)
  {
    var none, end := Write(WriterRecvNone), Write(WriterEnd);
    InvReachable(s);
    t := Apply(Apply(s, none), end);
    TwoSteps(s, none, end);
    ReachableOnward(s, [none, end], t);
    InvReachable(t);
  }

  /**
   Once every handle to the channel is gone, the writer can end the stream cleanly, by itself and
   with everything accepted on the wire.
   */
  lemma WriterCanFinish(s: State) returns (ts: seq<Step>, t: State)
    requires Reachable(s) && WriterLooping(s.out) && NoSenders(s)
    ensures Reaches(s, ts, t) && WriterOnly(ts)
    ensures t.out.fate == FinSent && t.out.accepted == s.out.accepted && t.out.sent == EncodeAll(s.out.accepted)
  {
    var m: State;
    ts, m := WriterDrainsQueue(s);
    ReachableOnward(s, ts, m);
    t := DrainedWriterEnds(m);
    ReachesTrans(s, ts, m, [Write(WriterRecvNone), Write(WriterEnd)], t);
    ts := ts + [Write(WriterRecvNone), Write(WriterEnd)];
  }
}
