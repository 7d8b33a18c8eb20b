/**
 One forwarded TCP connection: an optional preamble, then two copy loops that run in one task
 and are polled in any order. The response side decides when the exchange is over. Either side
 may end, fail or be aborted at any point, and every write may be taken up in pieces.
 */
module TcpPump {
  import opened Framing
  import opened Sequences

  const COPY_BUFFER_BYTES: nat := 64 * 1024

  datatype CopyPc =
    | Reading
    | Writing(chunk: seq<byte>, offset: nat)   // a buffer read, `offset` bytes of it written
    | Done                                     // this half reached the end of its input

  /** One copy loop: its input so far, what it has taken from it, and its output. */
  datatype Half = Half(
    pc: CopyPc,
    input: seq<byte>, ended: bool, taken: nat,
    output: seq<byte>,
    counted: nat)                              // bytes added to the forwarder's statistics

  datatype Phase = Greeting | Copying | Finished(ok: bool)

  datatype State = State(preamble: seq<byte>, phase: Phase, greeted: seq<byte>, up: Half, down: Half, fin: bool)

  const FRESH: Half := Half(Reading, [], false, 0, [], 0)

  predicate Init(s: State) {
    s.phase == Greeting && s.greeted == [] && s.up == FRESH && s.down == FRESH && !s.fin
  }

  datatype Step =
    | Greet(n: nat) | StartCopying
    | UpTake(n: nat) | UpWrite(n: nat) | UpEof
    | DownTake(n: nat) | DownWrite(n: nat) | DownEof
    | Fail                                     // a read or write error, or the task is aborted
    | ClientSends(bytes: seq<byte>) | ClientEnds
    | PeerSends(bytes: seq<byte>) | PeerEnds

  predicate CanTake(h: Half, n: nat) {
    h.pc == Reading && 0 < n <= COPY_BUFFER_BYTES && h.taken + n <= |h.input|
  }

  predicate CanWrite(h: Half, n: nat) {
    h.pc.Writing? && 0 < n && h.pc.offset + n <= |h.pc.chunk|
  }

  predicate AtEnd(h: Half) {
    h.pc == Reading && h.ended && h.taken == |h.input|
  }

  /** Read a buffer; the response loop counts it at once, the request loop after writing it. */
  function Take(h: Half, n: nat, countNow: bool): Half
    requires CanTake(h, n)
  {
    h.(pc := Writing(h.input[h.taken..h.taken + n], 0), taken := h.taken + n,
       counted := h.counted + if countNow then n else 0)
  }

  function Write(h: Half, n: nat, countAfter: bool): Half
    requires CanWrite(h, n)
  {
    var whole := h.pc.offset + n == |h.pc.chunk|;
    h.(output := h.output + h.pc.chunk[h.pc.offset..h.pc.offset + n],
       pc := if whole then Reading else Writing(h.pc.chunk, h.pc.offset + n),
       counted := h.counted + if whole && countAfter then |h.pc.chunk| else 0)
  }

  predicate Enabled(s: State, t: Step) {
    match t
    case Greet(n) => s.phase == Greeting && 0 < n && |s.greeted| + n <= |s.preamble|
    case StartCopying => s.phase == Greeting && |s.greeted| == |s.preamble|
    case UpTake(n) => s.phase == Copying && CanTake(s.up, n)
    case UpWrite(n) => s.phase == Copying && CanWrite(s.up, n)
    case UpEof => s.phase == Copying && AtEnd(s.up)
    case DownTake(n) => s.phase == Copying && CanTake(s.down, n)
    case DownWrite(n) => s.phase == Copying && CanWrite(s.down, n)
    case DownEof => s.phase == Copying && AtEnd(s.down)
    case Fail => !s.phase.Finished?
    case ClientSends(_) => !s.up.ended
    case ClientEnds => !s.up.ended
    case PeerSends(_) => !s.down.ended
    case PeerEnds => !s.down.ended
  }

  function Apply(s: State, t: Step): State
    requires Enabled(s, t)
  {
    match t
    case Greet(n) => s.(greeted := s.greeted + s.preamble[|s.greeted|..|s.greeted| + n])
    case StartCopying => s.(phase := Copying)
    case UpTake(n) => s.(up := Take(s.up, n, false))
    case UpWrite(n) => s.(up := Write(s.up, n, true))
    case UpEof => s.(up := s.up.(pc := Done), fin := true)
    case DownTake(n) => s.(down := Take(s.down, n, true))
    case DownWrite(n) => s.(down := Write(s.down, n, false))
    case DownEof => s.(down := s.down.(pc := Done), phase := Finished(true), fin := true)
    case Fail => s.(phase := Finished(false))
    case ClientSends(bytes) => s.(up := s.up.(input := s.up.input + bytes))
    case ClientEnds => s.(up := s.up.(ended := true))
    case PeerSends(bytes) => s.(down := s.down.(input := s.down.input + bytes))
    case PeerEnds => s.(down := s.down.(ended := true))
  }

  ghost predicate Reaches(s: State, ts: seq<Step>, t: State)
    decreases |ts|
  {
    if ts == [] then s == t
    else Enabled(s, ts[0]) && Reaches(Apply(s, ts[0]), ts[1..], t)
  }

  ghost predicate Reachable(t: State) {
    exists s, ts :: Init(s) && Reaches(s, ts, t)
  }

  // ---------------------------------------------------------------------------------------
  // One copy loop
  // ---------------------------------------------------------------------------------------

  /** Bytes taken from the input and not yet written out. */
  function Pending(h: Half): int {
    if h.pc.Writing? then |h.pc.chunk| - h.pc.offset else 0
  }

  predicate HalfInv(h: Half, countNow: bool) {
    && h.taken <= |h.input|
    && 0 <= Pending(h) <= h.taken
    && (h.pc.Writing? ==>
          && h.pc.offset < |h.pc.chunk| <= COPY_BUFFER_BYTES && |h.pc.chunk| <= h.taken
          && h.pc.chunk == h.input[h.taken - |h.pc.chunk|..h.taken])
    && h.output == h.input[..h.taken - Pending(h)]
    && h.counted == (if countNow || !h.pc.Writing? then h.taken else h.taken - |h.pc.chunk|)
    && (h.pc == Done ==> h.ended && h.taken == |h.input|)
  }

  lemma TakeKeeps(h: Half, n: nat, countNow: bool)
    requires HalfInv(h, countNow) && CanTake(h, n)
    ensures HalfInv(Take(h, n, countNow), countNow)
  {
  }

  /** A slice of a slice, and the prefix it extends. */
  lemma SliceOfSlice(xs: seq<byte>, a: nat, b: nat, i: nat, n: nat)
    requires a <= b <= |xs| && a + i + n <= b
    ensures xs[a..b][i..i + n] == xs[a + i..a + i + n]
    ensures xs[..a + i] + xs[a..b][i..i + n] == xs[..a + i + n]
  {
    var u, v := xs[a..b][i..i + n], xs[a + i..a + i + n];
    forall k | 0 <= k < n ensures u[k] == v[k] {
      assert xs[a..b][i + k] == xs[a + i + k];
    }
    assert u == v;
    SliceExtends(xs, a + i, n);
  }

  lemma WriteKeeps(h: Half, n: nat, countNow: bool)
    requires HalfInv(h, countNow) && CanWrite(h, n)
    ensures HalfInv(Write(h, n, !countNow), countNow)
  {
    SliceOfSlice(h.input, h.taken - |h.pc.chunk|, h.taken, h.pc.offset, n);
  }

  lemma InputKeeps(h: Half, bytes: seq<byte>, countNow: bool)
    requires HalfInv(h, countNow) && !h.ended
    ensures HalfInv(h.(input := h.input + bytes), countNow)
  {
    var h' := h.(input := h.input + bytes);
    assert h'.input[..h.taken - Pending(h)] == h.input[..h.taken - Pending(h)];
    if h.pc.Writing? {
      assert h'.input[h.taken - |h.pc.chunk|..h.taken] == h.input[h.taken - |h.pc.chunk|..h.taken];
    }
  }

  // ---------------------------------------------------------------------------------------
  // The connection
  // ---------------------------------------------------------------------------------------

  predicate Inv(s: State) {
    HalfInv(s.up, false) && HalfInv(s.down, true) && PhaseInv(s)
  }

  /** Each copy loop keeps its own account. */
  lemma HalvesStep(s: State, t: Step)
    requires HalfInv(s.up, false) && HalfInv(s.down, true) && Enabled(s, t)
    ensures HalfInv(Apply(s, t).up, false) && HalfInv(Apply(s, t).down, true)
  {
    match t {
      case UpTake(n) => TakeKeeps(s.up, n, false);
      case UpWrite(n) => WriteKeeps(s.up, n, false);
      case DownTake(n) => TakeKeeps(s.down, n, true);
      case DownWrite(n) => WriteKeeps(s.down, n, true);
      case ClientSends(bytes) => InputKeeps(s.up, bytes, false);
      case PeerSends(bytes) => InputKeeps(s.down, bytes, true);
      case UpEof => assert Apply(s, t).down == s.down;
      case DownEof => assert Apply(s, t).up == s.up;
      case _ => assert Apply(s, t).up.taken == s.up.taken && Apply(s, t).down.taken == s.down.taken;
    }
  }

  predicate PhaseInv(s: State) {
    && s.greeted <= s.preamble
    && (s.phase == Copying || s.phase == Finished(true) || s.up.pc != Reading ==> s.greeted == s.preamble)
    && (s.greeted != s.preamble ==> s.up.taken == 0)
    && (s.phase == Finished(true) <==> s.down.pc == Done)
    && (s.fin <==> s.up.pc == Done || s.phase == Finished(true))
  }

  lemma PhaseStep(s: State, t: Step)
    requires PhaseInv(s) && Enabled(s, t)
    ensures PhaseInv(Apply(s, t))
  {
    if t.Greet? { SliceExtends(s.preamble, |s.greeted|, t.n); }
  }

  lemma InvStep(s: State, t: Step)
    requires Inv(s) && Enabled(s, t)
    ensures Inv(Apply(s, t))
  {
    HalvesStep(s, t);
    PhaseStep(s, t);
  }

  lemma {:induction false} InvReaches(s: State, ts: seq<Step>, t: State)
    requires Inv(s) && Reaches(s, ts, t)
    ensures Inv(t)
    decreases |ts|
  {
    if ts != [] {
      InvStep(s, ts[0]);
      InvReaches(Apply(s, ts[0]), ts[1..], t);
    }
  }

  lemma InvReachable(s: State)
    requires Reachable(s)
    ensures Inv(s)
  {
    var s0, ts :| Init(s0) && Reaches(s0, ts, s);
    InvReaches(s0, ts, s);
  }

  /** Everything the peer's stream has received from this connection. */
  function StreamOutput(s: State): seq<byte> {
    s.greeted + s.up.output
  }

  /**
   At every step: the stream carries a prefix of the preamble followed by the client's bytes;
   the client has received a prefix of the peer's bytes, behind what was read from the stream by
   at most one buffer; the download count is exactly the bytes received, and the upload count
   never claims bytes that were not written after the preamble.
   */
  lemma BytesAreConserved(s: State)
    requires Reachable(s)
    ensures StreamOutput(s) <= s.preamble + s.up.input
    ensures s.down.output <= s.down.input
    ensures s.down.counted == s.down.taken
    ensures s.down.counted - COPY_BUFFER_BYTES <= |s.down.output| <= s.down.counted
    ensures s.up.counted <= |s.up.output| <= s.up.counted + COPY_BUFFER_BYTES
  {
    InvReachable(s);
    if s.greeted == s.preamble {
      assert s.up.output <= s.up.input;
    } else {
      assert StreamOutput(s) == s.greeted;
    }
  }

  /** The request half is ended only once all the client sent is on it, or when the response is over. */
  lemma RequestEndsAfterItsBytes(s: State)
    requires Reachable(s) && s.fin
    ensures s.phase == Finished(true) || StreamOutput(s) == s.preamble + s.up.input
  {
    InvReachable(s);
    assert s.up.input[..|s.up.input|] == s.up.input;
  }

  /** The request half is ended when the request loop has come to its end, when the response is over, and at no other time. */
  lemma RequestEndsExactly(s: State)
    requires Reachable(s)
    ensures s.fin <==> s.up.pc == Done || s.phase == Finished(true)
  {
    InvReachable(s);
  }

  /** An exchange that ends well has handed the client every byte the peer sent, after the preamble. */
  lemma SuccessDeliversTheResponse(s: State)
    requires Reachable(s) && s.phase == Finished(true)
    ensures s.down.ended && s.down.output == s.down.input && s.down.counted == |s.down.input|
    ensures s.preamble <= StreamOutput(s)
  {
    InvReachable(s);
    assert s.down.input[..|s.down.input|] == s.down.input;
  }

  // ---------------------------------------------------------------------------------------
  // Both directions come to their end
  // ---------------------------------------------------------------------------------------

  lemma {:induction false} ReachesTrans(s: State, ts: seq<Step>, m: State, us: seq<Step>, t: State)
    requires Reaches(s, ts, m) && Reaches(m, us, t)
    ensures Reaches(s, ts + us, t)
    decreases |ts|
  {
    if ts == [] {
      assert ts + us == us;
    } else {
      ReachesTrans(Apply(s, ts[0]), ts[1..], m, us, t);
      assert (ts + us)[1..] == ts[1..] + us;
    }
  }

  lemma ReachesOne(s: State, t: Step)
    requires Enabled(s, t)
    ensures Reaches(s, [t], Apply(s, t))
  {
    assert [t][1..] == [];
    assert Reaches(Apply(s, t), [], Apply(s, t));
  }

  /** Only the greeting and the request loop act. */
  predicate Upward(ts: seq<Step>) {
    forall k | 0 <= k < |ts| :: ts[k].Greet? || ts[k].StartCopying? || ts[k].UpTake? || ts[k].UpWrite? || ts[k].UpEof?
  }

  /** Only the response loop acts. */
  predicate Downward(ts: seq<Step>) {
    forall k | 0 <= k < |ts| :: ts[k].DownTake? || ts[k].DownWrite? || ts[k].DownEof?
  }

  /** The preamble goes out and the copy loops start. */
  lemma CopyingStarts(s: State) returns (ts: seq<Step>)
    requires Inv(s) && s.phase == Greeting
    ensures Reaches(s, ts, s.(greeted := s.preamble, phase := Copying)) && Upward(ts)
  {
    var m, n := s.(greeted := s.preamble), |s.preamble| - |s.greeted|;
    ReachesOne(m, StartCopying);
    if n == 0 {
      ts := [StartCopying];
    } else {
      SliceExtends(s.preamble, |s.greeted|, n);
      assert s.preamble[..|s.preamble|] == s.preamble;
      ReachesOne(s, Greet(n));
      ReachesTrans(s, [Greet(n)], m, [StartCopying], m.(phase := Copying));
      ts := [Greet(n)] + [StartCopying];
    }
  }

  /** What a copy loop still has to do. */
  function Work(h: Half): int {
    2 * (|h.input| - h.taken) + if h.pc.Writing? then 1 else 0
  }

  /** How much a copy loop takes with its next read. */
  function NextRead(h: Half): int {
    if |h.input| - h.taken < COPY_BUFFER_BYTES then |h.input| - h.taken else COPY_BUFFER_BYTES
  }

  /** The next step of the request loop when there is no error. */
  function UpNext(h: Half): Step
    requires HalfInv(h, false) && h.pc != Done
  {
    if h.pc.Writing? then UpWrite(Pending(h)) else if h.taken < |h.input| then UpTake(NextRead(h)) else UpEof
  }

  function DownNext(h: Half): Step
    requires HalfInv(h, true) && h.pc != Done
  {
    if h.pc.Writing? then DownWrite(Pending(h)) else if h.taken < |h.input| then DownTake(NextRead(h)) else DownEof
  }

  lemma UpWorks(s: State)
    requires Inv(s) && s.phase == Copying && s.up.ended && s.up.pc != Done
    ensures Enabled(s, UpNext(s.up))
    ensures var m := Apply(s, UpNext(s.up));
            && Inv(m) && m.phase == Copying && m.down == s.down && m.preamble == s.preamble
            && m.up.input == s.up.input && m.up.ended
            && (m.up.pc == Done || Work(m.up) < Work(s.up))
  {
    InvStep(s, UpNext(s.up));
  }

  lemma DownWorks(s: State)
    requires Inv(s) && s.phase == Copying && s.down.ended && s.down.pc != Done
    ensures Enabled(s, DownNext(s.down))
    ensures var m := Apply(s, DownNext(s.down));
            && Inv(m) && m.up == s.up && m.preamble == s.preamble && m.greeted == s.greeted
            && m.down.input == s.down.input && m.down.ended
            && (if m.down.pc == Done then m.phase == Finished(true) else m.phase == Copying && Work(m.down) < Work(s.down))
  {
    InvStep(s, DownNext(s.down));
  }

  lemma {:induction false} UpCopiesAll(s: State) returns (ts: seq<Step>, t: State)
    requires Inv(s) && s.phase == Copying && s.up.ended
    ensures Upward(ts) && Reaches(s, ts, t) && Inv(t) && t.up.pc == Done
    ensures t.phase == Copying && t.down == s.down && t.preamble == s.preamble && t.up.input == s.up.input
    decreases s.up.pc != Done, Work(s.up)
  {
    if s.up.pc == Done {
      ts, t := [], s;
    } else {
      var step := UpNext(s.up);
      UpWorks(s);
      ReachesOne(s, step);
      ts, t := UpCopiesAll(Apply(s, step));
      ReachesTrans(s, [step], Apply(s, step), ts, t);
      ts := [step] + ts;
    }
  }

  lemma {:induction false} DownCopiesAll(s: State) returns (ts: seq<Step>, t: State)
    requires Inv(s) && s.phase == Copying && s.down.ended && s.down.pc != Done
    ensures Downward(ts) && Reaches(s, ts, t) && Inv(t) && t.phase == Finished(true)
    ensures t.up == s.up && t.preamble == s.preamble && t.greeted == s.greeted && t.down.input == s.down.input
    decreases Work(s.down)
  {
    var step := DownNext(s.down);
    var m := Apply(s, step);
    DownWorks(s);
    ReachesOne(s, step);
    if m.down.pc == Done {
      ts, t := [step], m;
    } else {
      ts, t := DownCopiesAll(m);
      ReachesTrans(s, [step], m, ts, t);
      ts := [step] + ts;
    }
  }

  /**
   Once the client has ended its request, a run of the greeting and the request loop alone ends
   the peer's stream with the preamble and the whole request on it, while the response goes on.
   */
  lemma RequestCanEnd(s: State) returns (ts: seq<Step>, t: State)
    requires Reachable(s) && !s.phase.Finished? && s.up.ended
    ensures Reaches(s, ts, t) && Upward(ts)
    ensures t.fin && t.phase == Copying && t.down == s.down
    ensures StreamOutput(t) == s.preamble + s.up.input && t.up.counted == |s.up.input|
  {
    InvReachable(s);
    var m, us := s, [];
    if s.phase == Greeting {
      us := CopyingStarts(s);
      m := s.(greeted := s.preamble, phase := Copying);
      InvReaches(s, us, m);
    }
    ts, t := UpCopiesAll(m);
    ReachesTrans(s, us, m, ts, t);
    ts := us + ts;
    assert t.up.input[..|t.up.input|] == t.up.input;
  }

  /** Once the peer has ended its response, a run of the response loop alone hands all of it to the client and ends well. */
  lemma ResponseCanEnd(s: State) returns (ts: seq<Step>, t: State)
    requires Reachable(s) && s.phase == Copying && s.down.ended
    ensures Reaches(s, ts, t) && Downward(ts)
    ensures t.phase == Finished(true) && t.fin && t.up == s.up
    ensures t.down.output == s.down.input && t.down.counted == |s.down.input|
  {
    InvReachable(s);
    ts, t := DownCopiesAll(s);
    assert t.down.input[..|t.down.input|] == t.down.input;
  }
}
