/**
 How the connections of one TCP forwarder share a peer session. Each connection task looks the
 session up and dials on a miss, all under one asynchronous lock; the rest of the bridge may
 close, evict, replace or clear the cached session at any moment, also while a dial is under way.
 */
module SingleFlight {

  datatype TaskPc = Waiting | Locked | Dialing | Returned(ok: bool)

  datatype Cached = Absent | Present(open: bool)

  datatype State = State(
    tasks: seq<TaskPc>,
    entry: Cached,
    dials: nat,            // dials that succeeded
    disturbances: nat)     // times the entry was closed, evicted, replaced or cleared

  const INITIAL: State := State([], Absent, 0, 0)

  datatype Step =
    | Begin | Acquire(i: nat) | Lookup(i: nat) | DialOk(i: nat) | DialFailed(i: nat) | Abort(i: nat)
    | ConnectionCloses | Removed | Replaced

  predicate Holds(pc: TaskPc) {
    pc == Locked || pc == Dialing
  }

  predicate Unlocked(tasks: seq<TaskPc>) {
    forall i | 0 <= i < |tasks| :: !Holds(tasks[i])
  }

  predicate Enabled(s: State, t: Step) {
    match t
    case Begin => true
    case Acquire(i) => i < |s.tasks| && s.tasks[i] == Waiting && Unlocked(s.tasks)
    case Lookup(i) => i < |s.tasks| && s.tasks[i] == Locked
    case DialOk(i) => i < |s.tasks| && s.tasks[i] == Dialing
    case DialFailed(i) => i < |s.tasks| && s.tasks[i] == Dialing
    case Abort(i) => i < |s.tasks|
    case ConnectionCloses => s.entry == Present(true)
    case Removed => s.entry.Present?
    case Replaced => true
  }

  function Apply(s: State, t: Step): State
    requires Enabled(s, t)
  {
    match t
    case Begin => s.(tasks := s.tasks + [Waiting])
    case Acquire(i) => s.(tasks := s.tasks[i := Locked])
    case Lookup(i) => s.(tasks := s.tasks[i := if s.entry == Present(true) then Returned(true) else Dialing])
    case DialOk(i) => s.(tasks := s.tasks[i := Returned(true)], entry := Present(true), dials := s.dials + 1)
    case DialFailed(i) => s.(tasks := s.tasks[i := Returned(false)])
    case Abort(i) => s.(tasks := s.tasks[i := Returned(false)])
    case ConnectionCloses => s.(entry := Present(false), disturbances := s.disturbances + 1)
    case Removed => s.(entry := Absent, disturbances := s.disturbances + 1)
    case Replaced => s.(entry := Present(true), disturbances := s.disturbances + 1)
  }

  ghost predicate Reaches(s: State, ts: seq<Step>, t: State)
    decreases |ts|
  {
    if ts == [] then s == t
    else Enabled(s, ts[0]) && Reaches(Apply(s, ts[0]), ts[1..], t)
  }

  predicate OneHolder(tasks: seq<TaskPc>) {
    forall i, j | 0 <= i < j < |tasks| :: !(Holds(tasks[i]) && Holds(tasks[j]))
  }

  predicate SomeDialing(tasks: seq<TaskPc>) {
    exists i | 0 <= i < |tasks| :: tasks[i] == Dialing
  }

  predicate Inv(s: State) {
    && OneHolder(s.tasks)
    && s.dials <= s.disturbances + (if s.entry == Present(true) then 1 else 0)
    && (SomeDialing(s.tasks) ==> s.dials <= s.disturbances)
  }

  lemma InvStep(s: State, t: Step)
    requires Inv(s) && Enabled(s, t)
    ensures Inv(Apply(s, t))
  {
    var s' := Apply(s, t);
    assert OneHolder(s'.tasks);
    if SomeDialing(s'.tasks) && !(t.Lookup? && s'.tasks[t.i] == Dialing) {
      var i :| 0 <= i < |s'.tasks| && s'.tasks[i] == Dialing;
      assert s.tasks[i] == Dialing;
    }
  }

  lemma {:induction false} InvReaches(s: State, ts: seq<Step>, t: State)
    requires Inv(s) && Reaches(s, ts, t)
    ensures Inv(t)
    decreases |ts|
  {
    if ts != [] {
      InvStep(s, ts[0]);
      InvReaches(Apply(s, ts[0]), ts[1..], t);
    }
  }

  /** At most one dial of a forwarder is ever in flight. */
  lemma OneDialInFlight(ts: seq<Step>, s: State, i: nat, j: nat)
    requires Reaches(INITIAL, ts, s)
    requires i < |s.tasks| && j < |s.tasks| && s.tasks[i] == Dialing && s.tasks[j] == Dialing
    ensures i == j
  {
    InvReaches(INITIAL, ts, s);
    assert Holds(s.tasks[i]) && Holds(s.tasks[j]);
  }

  // ---------------------------------------------------------------------------------------
  // Between two dials
  // ---------------------------------------------------------------------------------------

  /** The cached session was closed, evicted, replaced or cleared. */
  predicate Disturbs(t: Step) {
    t.ConnectionCloses? || t.Removed? || t.Replaced?
  }

  predicate Undisturbed(ts: seq<Step>) {
    forall k | 0 <= k < |ts| :: !Disturbs(ts[k])
  }

  /** An open session is cached and nobody is dialing. */
  predicate Settled(s: State) {
    s.entry == Present(true) && !SomeDialing(s.tasks)
  }

  lemma SettledStays(s: State, t: Step)
    requires Settled(s) && Enabled(s, t) && !Disturbs(t)
    ensures Settled(Apply(s, t)) && Apply(s, t).dials == s.dials
  {
    var s' := Apply(s, t);
    assert forall i | 0 <= i < |s.tasks| :: s.tasks[i] != Dialing;
    assert forall i | 0 <= i < |s'.tasks| :: s'.tasks[i] != Dialing;
  }

  lemma {:induction false} SettledOnward(s: State, ts: seq<Step>, t: State)
    requires Settled(s) && Reaches(s, ts, t) && Undisturbed(ts)
    ensures Settled(t) && t.dials == s.dials
    decreases |ts|
  {
    if ts != [] {
      SettledStays(s, ts[0]);
      SettledOnward(Apply(s, ts[0]), ts[1..], t);
    }
  }

  lemma DialSettles(s: State, i: nat)
    requires Inv(s) && Enabled(s, DialOk(i))
    ensures Settled(Apply(s, DialOk(i)))
  {
    assert forall j | 0 <= j < |s.tasks| && j != i :: s.tasks[j] != Dialing by {
      forall j | 0 <= j < |s.tasks| && j != i ensures s.tasks[j] != Dialing {
        assert Holds(s.tasks[i]);
        assert !(Holds(s.tasks[if i < j then i else j]) && Holds(s.tasks[if i < j then j else i]));
      }
    }
  }

  /**
   After any successful dial a forwarder does not dial again, successfully or not, until the
   cached session is closed, evicted, replaced or cleared: every connection served in between
   shares the one dialed.
   */
  lemma NoRedialWithoutDisturbance(us: seq<Step>, s: State, i: nat, ts: seq<Step>, t: State)
    requires Reaches(INITIAL, us, s) && Enabled(s, DialOk(i))
    requires Reaches(Apply(s, DialOk(i)), ts, t) && Undisturbed(ts)
    ensures t.dials == s.dials + 1 && !SomeDialing(t.tasks) && t.entry == Present(true)
  {
    InvReaches(INITIAL, us, s);
    DialSettles(s, i);
    SettledOnward(Apply(s, DialOk(i)), ts, t);
  }

  /** Over a whole life, successful dials outnumber the disturbances by one at most. */
  lemma DialsAreShared(ts: seq<Step>, s: State)
    requires Reaches(INITIAL, ts, s)
    ensures s.dials <= s.disturbances + 1
  {
    InvReaches(INITIAL, ts, s);
  }

  // ---------------------------------------------------------------------------------------
  // What a connection is served
  // ---------------------------------------------------------------------------------------

  predicate Served(s: State, i: nat) {
    i < |s.tasks| && s.tasks[i] == Returned(true)
  }

  /** The task finds an open session cached, or has dialed one itself. */
  predicate Serves(s: State, t: Step, i: nat) {
    (t == Lookup(i) && s.entry == Present(true)) || t == DialOk(i)
  }

  lemma ServedExactly(s: State, t: Step, i: nat)
    requires Enabled(s, t) && !Served(s, i)
    ensures Served(Apply(s, t), i) <==> Serves(s, t, i)
    ensures t == Lookup(i) && !Serves(s, t, i) ==> Apply(s, t) == s.(tasks := s.tasks[i := Dialing])
  {
  }

  /** A connection is never given a session that has closed: it finds an open one cached or dials its own. */
  lemma {:induction false} ServedForCause(s: State, ts: seq<Step>, t: State, i: nat) returns (n: nat, m: State)
    requires Reaches(s, ts, t) && !Served(s, i) && Served(t, i)
    ensures n < |ts| && Reaches(s, ts[..n], m) && Enabled(m, ts[n]) && Serves(m, ts[n], i)
    decreases |ts|
  {
    ServedExactly(s, ts[0], i);
    if Served(Apply(s, ts[0]), i) {
      n, m := 0, s;
    } else {
      n, m := ServedForCause(Apply(s, ts[0]), ts[1..], t, i);
      n := n + 1;
      assert ts[..n][1..] == ts[1..][..n - 1];
    }
  }
}
