/**
 Stopping the endpoint while connects are under way. `connect` and the forwarder's `session`
 take the state lock in separate sections: one to look the session up, one to enter the session,
 and for a stream one more to enter the stream. `stop` empties both maps in a section of its
 own, which may fall between them.
 */
module EndpointLife {

  datatype ConnectPc = Dialing | Caching | Entering | Over

  /** A call on its way to a session, and for `connect` to a stream. */
  datatype Connect = Connect(key: nat, forStream: bool, pc: ConnectPc)

  /** `survives`: a dial in progress may still succeed after the endpoint has been closed. */
  datatype State = State(survives: bool, running: bool, sessions: set<nat>, streams: set<nat>, connects: seq<Connect>)

  predicate Init(s: State) {
    !s.running && s.sessions == {} && s.streams == {} && s.connects == []
  }

  datatype Step =
    | Start | Stop
    | Begin(key: nat, forStream: bool)   // the lookup, which needs a running endpoint
    | Dialed(i: nat) | DialFailed(i: nat)
    | CacheSession(i: nat) | EnterStream(i: nat)
    | SessionGone(key: nat) | StreamGone(stream: nat)

  predicate At(s: State, i: nat, pc: ConnectPc) {
    i < |s.connects| && s.connects[i].pc == pc
  }

  predicate Enabled(s: State, t: Step) {
    match t
    case Start => !s.running
    case Stop => true
    case Begin(_, _) => s.running
    case Dialed(i) => At(s, i, Dialing) && (s.running || s.survives)
    case DialFailed(i) => At(s, i, Dialing)
    case CacheSession(i) => At(s, i, Caching)
    case EnterStream(i) => At(s, i, Entering)
    case SessionGone(_) => true
    case StreamGone(_) => true
  }

  function Moved(s: State, i: nat, pc: ConnectPc): seq<Connect>
    requires i < |s.connects|
  {
    s.connects[i := s.connects[i].(pc := pc)]
  }

  /** The later sections of a connect do not look whether the endpoint is still running. */
  function Apply(s: State, t: Step): State
    requires Enabled(s, t)
  {
    match t
    case Start => s.(running := true)
    case Stop => s.(running := false, sessions := {}, streams := {})
    case Begin(key, forStream) => s.(connects := s.connects + [Connect(key, forStream, Dialing)])
    case Dialed(i) => s.(connects := Moved(s, i, Caching))
    case DialFailed(i) => s.(connects := Moved(s, i, Over))
    case CacheSession(i) =>
      s.(sessions := s.sessions + {s.connects[i].key},
         connects := Moved(s, i, if s.connects[i].forStream then Entering else Over))
    case EnterStream(i) => s.(streams := s.streams + {i}, connects := Moved(s, i, Over))
    case SessionGone(key) => s.(sessions := s.sessions - {key})
    case StreamGone(stream) => s.(streams := s.streams - {stream})
  }

  ghost predicate Reaches(s: State, ts: seq<Step>, t: State)
    decreases |ts|
  {
    if ts == [] then s == t
    else Enabled(s, ts[0]) && Reaches(Apply(s, ts[0]), ts[1..], t)
  }

  predicate NoStart(ts: seq<Step>) {
    forall k | 0 <= k < |ts| :: !ts[k].Start?
  }

  predicate Empty(s: State) {
    s.sessions == {} && s.streams == {}
  }

  /** Until the endpoint is started again, the maps are empty. */
  ghost predicate StaysEmpty(s: State) {
    forall ts, t :: Reaches(s, ts, t) && NoStart(ts) ==> Empty(t)
  }

  /** A connect past its dial, or one whose dial outlives the endpoint. */
  predicate Entitled(c: Connect, survives: bool) {
    c.pc == Caching || c.pc == Entering || (c.pc == Dialing && survives)
  }

  predicate NoneUnderWay(s: State) {
    forall i | 0 <= i < |s.connects| :: !Entitled(s.connects[i], s.survives)
  }

  lemma {:induction false} QuietStaysEmpty(s: State, ts: seq<Step>, t: State)
    requires !s.running && Empty(s) && NoneUnderWay(s) && Reaches(s, ts, t) && NoStart(ts)
    ensures Empty(t)
    decreases |ts|
  {
    if ts != [] {
      assert !ts[0].Start?;
      QuietStaysEmpty(Apply(s, ts[0]), ts[1..], t);
    }
  }

  /** A connect that is under way enters its session or its stream, stopped or not. */
  lemma UnderWayEnters(s: State, i: nat) returns (ts: seq<Step>, t: State)
    requires i < |s.connects| && Entitled(s.connects[i], s.survives)
    ensures Reaches(s, ts, t) && NoStart(ts) && !Empty(t)
  {
    match s.connects[i].pc {
      case Dialing =>
        ts := [Dialed(i), CacheSession(i)];
        t := Apply(Apply(s, ts[0]), ts[1]);
        assert Reaches(Apply(s, ts[0]), ts[1..], t);
        assert s.connects[i].key in t.sessions;
      case Caching =>
        ts := [CacheSession(i)];
        t := Apply(s, ts[0]);
        assert s.connects[i].key in t.sessions;
      case Entering =>
        ts := [EnterStream(i)];
        t := Apply(s, ts[0]);
        assert i in t.streams;
    }
  }

  /**
   After a stop the maps stay empty until the next start exactly when at the stop no connect was
   past its dial, nor dialing if dials outlive the endpoint.
   */
  lemma StopEmptiesExactlyWhenNoneUnderWay(s: State)
    ensures StaysEmpty(Apply(s, Stop)) <==> NoneUnderWay(s)
  {
    var s' := Apply(s, Stop);
    if NoneUnderWay(s) {
      forall ts, t | Reaches(s', ts, t) && NoStart(ts) ensures Empty(t) {
        QuietStaysEmpty(s', ts, t);
      }
    } else {
      var i :| 0 <= i < |s.connects| && Entitled(s.connects[i], s.survives);
      var ts, t := UnderWayEnters(s', i);
    }
  }

  /** A stop between the sections of a connect: the session and the stream are entered afterwards. */
  lemma StopCanLeaveAStream(survives: bool) returns (ts: seq<Step>, t: State)
    ensures exists s: State :: Init(s) && Reaches(s, ts, t)
    ensures Stop in ts && NoneUnderWay(t)
    ensures t == State(survives, false, {7}, {0}, [Connect(7, true, Over)])
  {
    var us := [Stop, CacheSession(0), EnterStream(0)];
    ts := [Start, Begin(7, true), Dialed(0)] + us;
    var s0 := State(survives, false, {}, {}, []);
    var s1 := State(survives, true, {}, {}, []);
    var s2 := State(survives, true, {}, {}, [Connect(7, true, Dialing)]);
    var s3 := State(survives, true, {}, {}, [Connect(7, true, Caching)]);
    t := EntersAfterStop(s3);
    assert Reaches(s2, [Dialed(0)] + us, t) by { assert ([Dialed(0)] + us)[1..] == us; }
    assert Reaches(s1, [Begin(7, true)] + ([Dialed(0)] + us), t) by {
      assert ([Begin(7, true)] + ([Dialed(0)] + us))[1..] == [Dialed(0)] + us;
    }
    assert ts[1..] == [Begin(7, true)] + ([Dialed(0)] + us);
    assert Init(s0) && Reaches(s0, ts, t);
  }

  lemma EntersAfterStop(s: State) returns (t: State)
    requires s.connects == [Connect(7, true, Caching)]
    ensures Reaches(s, [Stop, CacheSession(0), EnterStream(0)], t)
    ensures t == State(s.survives, false, {7}, {0}, [Connect(7, true, Over)])
  {
    var s1 := Apply(s, Stop);
    var s2 := Apply(s1, CacheSession(0));
    t := Apply(s2, EnterStream(0));
    assert [EnterStream(0)][1..] == [] && [CacheSession(0), EnterStream(0)][1..] == [EnterStream(0)];
    assert Reaches(t, [], t);
    assert Reaches(s2, [EnterStream(0)], t);
    assert [Stop, CacheSession(0), EnterStream(0)][1..] == [CacheSession(0), EnterStream(0)];
    assert Reaches(s1, [CacheSession(0), EnterStream(0)], t);
  }

  // ---------------------------------------------------------------------------------------
  // Where sessions and streams come from
  // ---------------------------------------------------------------------------------------

  /** The connect has got as far as entering its session. */
  predicate Connected(c: Connect, key: nat) {
    c.key == key && (c.pc == Entering || c.pc == Over)
  }

  predicate ConnectedBy(s: State, key: nat) {
    exists i | 0 <= i < |s.connects| :: Connected(s.connects[i], key)
  }

  predicate Sourced(s: State) {
    && (forall key | key in s.sessions :: ConnectedBy(s, key))
    && (forall i | i in s.streams :: At(s, i, Over) && s.connects[i].forStream)
    && (forall i | 0 <= i < |s.connects| :: s.connects[i].pc == Entering ==> s.connects[i].forStream)
  }

  lemma SourcedStep(s: State, t: Step)
    requires Sourced(s) && Enabled(s, t)
    ensures Sourced(Apply(s, t))
  {
    var s' := Apply(s, t);
    forall key | key in s'.sessions ensures ConnectedBy(s', key) {
      if key in s.sessions {
        assert ConnectedBy(s, key);
        var i :| 0 <= i < |s.connects| && Connected(s.connects[i], key);
        assert Connected(s'.connects[i], key);
      } else {
        assert Connected(s'.connects[t.i], key);
      }
    }
  }

  lemma {:induction false} SourcedReaches(s: State, ts: seq<Step>, t: State)
    requires Sourced(s) && Reaches(s, ts, t)
    ensures Sourced(t)
    decreases |ts|
  {
    if ts != [] {
      SourcedStep(s, ts[0]);
      SourcedReaches(Apply(s, ts[0]), ts[1..], t);
    }
  }

  /** Only what a connect has dialed is ever cached, and only a connect that is to open a stream enters one, when it is through. */
  lemma OnlyConnectsFillTheMaps(s: State, ts: seq<Step>, t: State)
    requires Init(s) && Reaches(s, ts, t)
    ensures forall key | key in t.sessions :: ConnectedBy(t, key)
    ensures forall i | i in t.streams :: At(t, i, Over) && t.connects[i].forStream
  {
    SourcedReaches(s, ts, t);
  }
}
