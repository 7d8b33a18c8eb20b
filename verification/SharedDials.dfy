/**
 The connections of one forwarder on the session cache itself. The tasks look the session up in
 the cache and enter what they dial; `connect`, other forwarders and `stop` use the same cache
 beside them, and connections close at any time. Every run of this is a run of the single-flight
 system, whose cached entry is the one under the forwarder's key.
 */
module SharedDials {
  import opened Framing
  import opened SessionKey
  import opened SessionCache
  import SingleFlight

  /** `books` is the cache with its history, `closed` the connections that have closed. */
  datatype Joint = Joint(key: string, tasks: seq<SingleFlight.TaskPc>, dials: nat, books: Books, closed: set<nat>)

  datatype Step =
    | Task(t: SingleFlight.Step)        // a task begins, takes the lock, fails or is aborted
    | LookUp(i: nat)
    | Dialed(i: nat, connection: Connection)
    | CacheOp(op: Op)                   // any other user of the cache
    | Closes(id: nat)

  predicate Init(j: Joint) {
    j.tasks == [] && j.dials == 0 && j.books == Books([], [], 1) && j.closed == {}
  }

  /** What a lookup under the key would find. */
  function EntryOf(v: seq<Entry>, key: string, closed: set<nat>): SingleFlight.Cached {
    match Lookup(v, key)
    case None => SingleFlight.Absent
    case Some(session) => SingleFlight.Present(session.connection.id !in closed)
  }

  function EntryIn(j: Joint): SingleFlight.Cached {
    EntryOf(j.books.cache, j.key, j.closed)
  }

  /** The tasks as the single-flight system sees them. */
  function Flight(j: Joint, disturbances: nat): SingleFlight.State {
    SingleFlight.State(j.tasks, EntryIn(j), j.dials, disturbances)
  }

  predicate OwnTask(t: SingleFlight.Step) {
    t.Begin? || t.Acquire? || t.DialFailed? || t.Abort?
  }

  predicate Enabled(j: Joint, t: Step) {
    match t
    case Task(u) => OwnTask(u) && SingleFlight.Enabled(Flight(j, 0), u)
    case LookUp(i) => i < |j.tasks| && j.tasks[i] == SingleFlight.Locked
    case Dialed(i, _) => i < |j.tasks| && j.tasks[i] == SingleFlight.Dialing
    case CacheOp(_) => true
    case Closes(_) => true
  }

  function Next(j: Joint, t: Step): Joint
    requires Enabled(j, t)
  {
    match t
    case Task(u) => j.(tasks := SingleFlight.Apply(Flight(j, 0), u).tasks)
    case LookUp(i) =>
      if EntryIn(j) == SingleFlight.Present(true)
      then j.(tasks := j.tasks[i := SingleFlight.Returned(true)], books := Apply(j.books, Hit(j.key)))
      else j.(tasks := j.tasks[i := SingleFlight.Dialing])
    case Dialed(i, c) =>
      j.(tasks := j.tasks[i := SingleFlight.Returned(true)], dials := j.dials + 1, books := Apply(j.books, Put(j.key, c)))
    case CacheOp(op) => j.(books := Apply(j.books, op))
    case Closes(id) => j.(closed := j.closed + {id})
  }

  ghost predicate Reaches(j: Joint, ts: seq<Step>, k: Joint)
    decreases |ts|
  {
    if ts == [] then j == k
    else Enabled(j, ts[0]) && Reaches(Next(j, ts[0]), ts[1..], k)
  }

  // ---------------------------------------------------------------------------------------
  // Onto the single-flight system
  // ---------------------------------------------------------------------------------------

  lemma HitKeepsEntry(b: Books, key: string, closed: set<nat>)
    ensures EntryOf(Apply(b, Hit(key)).cache, key, closed) == EntryOf(b.cache, key, closed)
  {
  }

  lemma PutMakesEntry(b: Books, key: string, c: Connection, closed: set<nat>)
    ensures EntryOf(Apply(b, Put(key, c)).cache, key, closed) == SingleFlight.Present(c.id !in closed)
  {
  }

  /** Whatever happens to the entry from outside is one or two disturbances, or none. */
  lemma EntryChanges(f: SingleFlight.State, e: SingleFlight.Cached) returns (us: seq<SingleFlight.Step>, d: nat)
    ensures SingleFlight.Reaches(f, us, f.(entry := e, disturbances := f.disturbances + d))
    ensures forall k | 0 <= k < |us| :: SingleFlight.Disturbs(us[k])
  {
    if e == f.entry {
      us, d := [], 0;
    } else if e == SingleFlight.Absent {
      us, d := [SingleFlight.Removed], 1;
      OneStep(f, us[0]);
    } else if e == SingleFlight.Present(true) {
      us, d := [SingleFlight.Replaced], 1;
      OneStep(f, us[0]);
    } else if f.entry == SingleFlight.Present(true) {
      us, d := [SingleFlight.ConnectionCloses], 1;
      OneStep(f, us[0]);
    } else {
      us, d := [SingleFlight.Replaced, SingleFlight.ConnectionCloses], 2;
      var m := SingleFlight.Apply(f, us[0]);
      OneStep(m, us[1]);
      assert us[1..] == [us[1]];
    }
  }

  lemma OneStep(f: SingleFlight.State, u: SingleFlight.Step)
    requires SingleFlight.Enabled(f, u)
    ensures SingleFlight.Reaches(f, [u], SingleFlight.Apply(f, u))
  {
    assert [u][1..] == [];
    assert SingleFlight.Reaches(SingleFlight.Apply(f, u), [], SingleFlight.Apply(f, u));
  }

  lemma {:induction false} RunsJoin(f: SingleFlight.State, us: seq<SingleFlight.Step>, m: SingleFlight.State,
                                    vs: seq<SingleFlight.Step>, g: SingleFlight.State)
    requires SingleFlight.Reaches(f, us, m) && SingleFlight.Reaches(m, vs, g)
    ensures SingleFlight.Reaches(f, us + vs, g)
    decreases |us|
  {
    if us == [] {
      assert us + vs == vs;
    } else {
      RunsJoin(SingleFlight.Apply(f, us[0]), us[1..], m, vs, g);
      assert (us + vs)[1..] == us[1..] + vs;
    }
  }

  /** One step is one of the tasks' own, followed by what becomes of the entry. */
  lemma StepProjects(j: Joint, t: Step, n: nat) returns (us: seq<SingleFlight.Step>, m: nat)
    requires Enabled(j, t)
    ensures SingleFlight.Reaches(Flight(j, n), us, Flight(Next(j, t), m))
  {
    var f, k := Flight(j, n), Next(j, t);
    var own := if t.Task? then [t.t]
               else if t.LookUp? then [SingleFlight.Lookup(t.i)]
               else if t.Dialed? then [SingleFlight.DialOk(t.i)] else [];
    var g := if own == [] then f else SingleFlight.Apply(f, own[0]);
    if own != [] { OneStep(f, own[0]); }
    if t.LookUp? { HitKeepsEntry(j.books, j.key, j.closed); }
    var d: nat;
    us, d := EntryChanges(g, EntryIn(k));
    RunsJoin(f, own, g, us, g.(entry := EntryIn(k), disturbances := g.disturbances + d));
    us, m := own + us, g.disturbances + d;
    assert Flight(k, m) == g.(entry := EntryIn(k), disturbances := m);
  }

  /** So every run on the cache is a run of the single-flight system. */
  lemma {:induction false} RunProjects(j: Joint, ts: seq<Step>, k: Joint, n: nat)
      returns (us: seq<SingleFlight.Step>, m: nat)
    requires Reaches(j, ts, k)
    ensures SingleFlight.Reaches(Flight(j, n), us, Flight(k, m))
    decreases |ts|
  {
    if ts == [] {
      us, m := [], n;
    } else {
      var vs: seq<SingleFlight.Step>, l: nat;
      us, l := StepProjects(j, ts[0], n);
      vs, m := RunProjects(Next(j, ts[0]), ts[1..], k, l);
      RunsJoin(Flight(j, n), us, Flight(Next(j, ts[0]), l), vs, Flight(k, m));
      us := us + vs;
    }
  }

  /** On the cache, too, at most one dial of a forwarder is in flight. */
  lemma OneDialOnTheCache(j: Joint, ts: seq<Step>, k: Joint, a: nat, b: nat)
    requires Init(j) && Reaches(j, ts, k)
    requires a < |k.tasks| && b < |k.tasks|
    requires k.tasks[a] == SingleFlight.Dialing && k.tasks[b] == SingleFlight.Dialing
    ensures a == b
  {
    var us, m := RunProjects(j, ts, k, 0);
    assert Flight(j, 0) == SingleFlight.INITIAL;
    SingleFlight.OneDialInFlight(us, Flight(k, m), a, b);
  }

  // ---------------------------------------------------------------------------------------
  // No dial while the session is cached
  // ---------------------------------------------------------------------------------------

  /** In every state of the run an open session is cached under the key. */
  ghost predicate StaysCached(j: Joint, ts: seq<Step>)
    decreases |ts|
  {
    && EntryIn(j) == SingleFlight.Present(true)
    && (ts != [] && Enabled(j, ts[0]) ==> StaysCached(Next(j, ts[0]), ts[1..]))
  }

  lemma NobodyStartsDialing(j: Joint, t: Step)
    requires Enabled(j, t) && EntryIn(j) == SingleFlight.Present(true) && !SingleFlight.SomeDialing(j.tasks)
    ensures !SingleFlight.SomeDialing(Next(j, t).tasks) && Next(j, t).dials == j.dials
  {
    assert forall i | 0 <= i < |j.tasks| :: j.tasks[i] != SingleFlight.Dialing;
    assert forall i | 0 <= i < |Next(j, t).tasks| :: Next(j, t).tasks[i] != SingleFlight.Dialing;
  }

  lemma {:induction false} NoDialOnward(j: Joint, ts: seq<Step>, k: Joint)
    requires Reaches(j, ts, k) && StaysCached(j, ts) && !SingleFlight.SomeDialing(j.tasks)
    ensures k.dials == j.dials && !SingleFlight.SomeDialing(k.tasks)
    decreases |ts|
  {
    if ts != [] {
      NobodyStartsDialing(j, ts[0]);
      NoDialOnward(Next(j, ts[0]), ts[1..], k);
    }
  }

  /**
   After a successful dial a forwarder dials no more for as long as an open session stays cached
   under its key, whatever the other users of the cache do meanwhile.
   */
  lemma NoRedialWhileCached(j: Joint, us: seq<Step>, m: Joint, i: nat, c: Connection, ts: seq<Step>, k: Joint)
    requires Init(j) && Reaches(j, us, m) && Enabled(m, Dialed(i, c))
    requires Reaches(Next(m, Dialed(i, c)), ts, k) && StaysCached(Next(m, Dialed(i, c)), ts)
    ensures k.dials == m.dials + 1 && !SingleFlight.SomeDialing(k.tasks)
  {
    forall a | 0 <= a < |m.tasks| && m.tasks[a] == SingleFlight.Dialing ensures a == i {
      OneDialOnTheCache(j, us, m, a, i);
    }
    NoDialOnward(Next(m, Dialed(i, c)), ts, k);
  }

  /** The lookup of the map is the one above: it serves exactly when an open session is cached. */
  lemma LookupFindsEntry(c: Cache, peer: EndpointId, alpn: seq<byte>, closed: set<nat>)
    requires c.Valid()
    ensures Serves(c.view, peer, alpn, (x: Connection) => x.id in closed)
       <==> EntryOf(After(c.ops).cache, Key(c.z32, peer, alpn), closed) == SingleFlight.Present(true)
  {
    var key := Key(c.z32, peer, alpn);
    LookupIsExact(c.z32, c.view, peer, alpn, (x: Connection) => x.id in closed);
    LookupIsMapOf(c.view, key);
  }

  // ---------------------------------------------------------------------------------------
  // What a connection is served
  // ---------------------------------------------------------------------------------------

  /** The session is under the key, and the most recently used of all. */
  predicate AtFront(j: Joint, c: Connection) {
    j.books.cache != [] && j.books.cache[0].key == j.key && j.books.cache[0].session.connection == c
  }

  predicate Served(j: Joint, i: nat) {
    i < |j.tasks| && j.tasks[i] == SingleFlight.Returned(true)
  }

  /** The task finds `c` open in the cache, or has dialed it. */
  predicate Gives(j: Joint, t: Step, i: nat, c: Connection) {
    || (t == LookUp(i) && Lookup(j.books.cache, j.key).Some? && Lookup(j.books.cache, j.key).value.connection == c
        && c.id !in j.closed)
    || t == Dialed(i, c)
  }

  lemma ServedInOneStep(j: Joint, t: Step, i: nat) returns (c: Connection)
    requires Enabled(j, t) && !Served(j, i) && Served(Next(j, t), i)
    ensures Gives(j, t, i, c) && AtFront(Next(j, t), c)
  {
    c := if t.Dialed? then t.connection else Lookup(j.books.cache, j.key).value.connection;
  }

  /**
   A connection is never given a session that has closed: it finds an open one under its key or
   dials its own, and in either case that session is then the most recently used of the cache.
   */
  lemma {:induction false} ServedForCause(j: Joint, ts: seq<Step>, k: Joint, i: nat)
      returns (n: nat, m: Joint, c: Connection)
    requires Reaches(j, ts, k) && !Served(j, i) && Served(k, i)
    ensures n < |ts| && Reaches(j, ts[..n], m) && Enabled(m, ts[n])
    ensures Gives(m, ts[n], i, c) && AtFront(Next(m, ts[n]), c)
    decreases |ts|
  {
    if Served(Next(j, ts[0]), i) {
      n, m := 0, j;
      c := ServedInOneStep(j, ts[0], i);
    } else {
      n, m, c := ServedForCause(Next(j, ts[0]), ts[1..], k, i);
      n := n + 1;
      assert ts[..n][1..] == ts[1..][..n - 1];
    }
  }
}
