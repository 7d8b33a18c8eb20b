/**
 The cache of warm peer sessions. The bridge keeps a map from session key to connection with a
 use stamp and evicts the smallest stamp; the plain description is a list of at most 32
 entries, most recently used first. The class is the map; its `view` is the list.
 */
module SessionCache {
  import opened Framing
  import opened SessionKey
  import opened Wrappers

  const MAX_CACHED_SESSIONS: nat := 32

  /** A QUIC connection: an identity of its own, and whom it was dialed for. */
  datatype Connection = Connection(id: nat, peer: EndpointId, alpn: seq<byte>)

  datatype Session = Session(connection: Connection, lastUsed: nat)

  datatype Entry = Entry(key: string, session: Session)

  // ---------------------------------------------------------------------------------------
  // The recency list
  // ---------------------------------------------------------------------------------------

  function Without(v: seq<Entry>, key: string): seq<Entry> {
    if v == [] then [] else if v[0].key == key then Without(v[1..], key) else [v[0]] + Without(v[1..], key)
  }

  /** `e` becomes the most recently used entry, replacing any entry under its key. */
  function Front(v: seq<Entry>, e: Entry): seq<Entry> {
    [e] + Without(v, e.key)
  }

  function Truncated(v: seq<Entry>): (r: seq<Entry>)
    ensures |r| <= MAX_CACHED_SESSIONS && r <= v
  {
    if |v| <= MAX_CACHED_SESSIONS then v else v[..MAX_CACHED_SESSIONS]
  }

  predicate Distinct(v: seq<Entry>) {
    forall i, j | 0 <= i < j < |v| :: v[i].key != v[j].key
  }

  /** Stamps fall strictly along the list: it really is in recency order. */
  predicate Descending(v: seq<Entry>) {
    forall i, j | 0 <= i < j < |v| :: v[i].session.lastUsed > v[j].session.lastUsed
  }

  predicate Before(v: seq<Entry>, next: nat) {
    forall i | 0 <= i < |v| :: v[i].session.lastUsed < next
  }

  // ---------------------------------------------------------------------------------------
  // From the list to the map and back
  // ---------------------------------------------------------------------------------------

  function MapOf(v: seq<Entry>): map<string, Session> {
    if v == [] then map[] else MapOf(v[1..])[v[0].key := v[0].session]
  }

  lemma {:induction false} MapOfKeys(v: seq<Entry>, k: string)
    ensures k in MapOf(v) <==> exists i | 0 <= i < |v| :: v[i].key == k
  {
    if v != [] {
      MapOfKeys(v[1..], k);
      if k in MapOf(v[1..]) {
        var i :| 0 <= i < |v[1..]| && v[1..][i].key == k;
        assert v[i + 1].key == k;
      }
      if i :| 0 < i < |v| && v[i].key == k {
        assert v[1..][i - 1].key == k;
      }
    }
  }

  lemma {:induction false} MapOfAt(v: seq<Entry>, i: nat)
    requires Distinct(v) && i < |v|
    ensures v[i].key in MapOf(v) && MapOf(v)[v[i].key] == v[i].session
  {
    if i > 0 {
      MapOfAt(v[1..], i - 1);
      assert v[1..][i - 1] == v[i];
    }
  }

  lemma {:induction false} MapOfSize(v: seq<Entry>)
    requires Distinct(v)
    ensures |MapOf(v)| == |v|
  {
    if v != [] {
      MapOfSize(v[1..]);
      MapOfKeys(v[1..], v[0].key);
      var rest := MapOf(v[1..]);
      assert v[0].key !in rest;
      assert MapOf(v).Keys == rest.Keys + {v[0].key};
    }
  }

  lemma {:induction false} MapOfWithout(v: seq<Entry>, key: string)
    ensures MapOf(Without(v, key)) == MapOf(v) - {key}
  {
    if v != [] {
      MapOfWithout(v[1..], key);
      if v[0].key != key {
        assert Without(v, key)[1..] == Without(v[1..], key);
      }
    }
  }

  lemma {:induction false} MapOfInit(v: seq<Entry>)
    requires v != [] && Distinct(v)
    ensures MapOf(v[..|v| - 1]) == MapOf(v) - {v[|v| - 1].key}
  {
    var n := |v| - 1;
    if n > 0 {
      MapOfInit(v[1..]);
      assert v[..n][1..] == v[1..][..n - 1];
      assert v[1..][n - 1] == v[n];
      assert v[0].key != v[n].key;
    }
  }

  /** `e` may stand in front of `w`: a different key, a later stamp. */
  predicate Leads(e: Entry, w: seq<Entry>) {
    forall x | x in w :: x.key != e.key && x.session.lastUsed < e.session.lastUsed
  }

  lemma ConsOrdered(e: Entry, w: seq<Entry>)
    requires Distinct(w) && Descending(w) && Leads(e, w)
    ensures Distinct([e] + w) && Descending([e] + w)
  {
    assert forall i | 0 <= i < |w| :: w[i] in w;
  }

  /** What every lemma about `Without` needs: it keeps the order and drops exactly the key. */
  lemma {:induction false} WithoutKeeps(v: seq<Entry>, key: string)
    requires Distinct(v) && Descending(v)
    ensures var w := Without(v, key);
            && Distinct(w) && Descending(w) && |w| <= |v|
            && (forall e | e in w :: e in v && e.key != key)
  {
    if v != [] {
      WithoutKeeps(v[1..], key);
      if v[0].key != key {
        ConsOrdered(v[0], Without(v[1..], key));
      }
    }
  }

  predicate Represents(sessions: map<string, Session>, v: seq<Entry>) {
    sessions == MapOf(v) && Distinct(v) && Descending(v)
  }

  /** The recency order is not a matter of choice: the map determines the list. */
  lemma {:induction false} RepresentationIsUnique(v: seq<Entry>, w: seq<Entry>)
    requires Distinct(v) && Descending(v) && Distinct(w) && Descending(w) && MapOf(v) == MapOf(w)
    ensures v == w
  {
    MapOfSize(v);
    MapOfSize(w);
    if v != [] {
      SameHead(v, w);
      assert v[0] == w[0] by { SameHead(w, v); }
      MapOfWithoutHead(v);
      MapOfWithoutHead(w);
      RepresentationIsUnique(v[1..], w[1..]);
      assert v == [v[0]] + v[1..] && w == [w[0]] + w[1..];
    }
  }

  lemma MapOfWithoutHead(v: seq<Entry>)
    requires v != [] && Distinct(v)
    ensures MapOf(v[1..]) == MapOf(v) - {v[0].key}
  {
    MapOfKeys(v[1..], v[0].key);
  }

  lemma SameHead(v: seq<Entry>, w: seq<Entry>)
    requires Distinct(v) && Descending(v) && Distinct(w) && Descending(w) && MapOf(v) == MapOf(w)
    requires v != [] && w != []
    ensures w[0].session.lastUsed <= v[0].session.lastUsed
    ensures w[0].session.lastUsed == v[0].session.lastUsed ==> v[0] == w[0]
  {
    MapOfAt(w, 0);
    MapOfKeys(v, w[0].key);
    var i :| 0 <= i < |v| && v[i].key == w[0].key;
    MapOfAt(v, i);
  }

  /** Stamping a key with a fresh stamp puts it at the front of the list. */
  lemma StampRepresents(sessions: map<string, Session>, v: seq<Entry>, e: Entry)
    requires Represents(sessions, v) && Before(v, e.session.lastUsed)
    ensures Represents(sessions[e.key := e.session], Front(v, e))
    ensures Before(Front(v, e), e.session.lastUsed + 1)
  {
    var w := Without(v, e.key);
    WithoutKeeps(v, e.key);
    ConsOrdered(e, w);
    assert MapOf(Front(v, e)) == sessions[e.key := e.session] by {
      MapOfWithout(v, e.key);
      assert Front(v, e)[1..] == w;
      assert sessions[e.key := e.session] == (sessions - {e.key})[e.key := e.session];
    }
    WithoutBefore(v, e.key, e.session.lastUsed);
  }

  lemma WithoutBefore(v: seq<Entry>, key: string, next: nat)
    requires Before(v, next) && Distinct(v) && Descending(v)
    ensures Before(Without(v, key), next)
  {
    WithoutKeeps(v, key);
    var w := Without(v, key);
    assert forall i | 0 <= i < |w| :: w[i] in w && w[i] in v;
  }

  /** Evicting the smallest stamp is dropping the end of the list: one entry, the least recent. */
  lemma EvictRepresents(sessions: map<string, Session>, v: seq<Entry>, oldest: string)
    requires Represents(sessions, v)
    requires oldest in sessions && forall k | k in sessions :: sessions[oldest].lastUsed <= sessions[k].lastUsed
    ensures v != [] && oldest == v[|v| - 1].key
    ensures Represents(sessions - {oldest}, v[..|v| - 1])
  {
    MapOfKeys(v, oldest);
    var i :| 0 <= i < |v| && v[i].key == oldest;
    MapOfAt(v, i);
    MapOfAt(v, |v| - 1);
    MapOfInit(v);
  }

  // ---------------------------------------------------------------------------------------
  // Identity
  // ---------------------------------------------------------------------------------------

  /** The entry is filed under the key of the peer and protocol it was dialed for. */
  predicate FiledRight(z32: Names, e: Entry) {
    e.key == Key(z32, e.session.connection.peer, e.session.connection.alpn)
  }

  predicate Identified(z32: Names, v: seq<Entry>) {
    forall e | e in v :: FiledRight(z32, e)
  }

  predicate ServedBy(e: Entry, peer: EndpointId, alpn: seq<byte>, closed: Connection -> bool) {
    var c := e.session.connection;
    c.peer == peer && c.alpn == alpn && !closed(c)
  }

  /** Some entry of the list would serve this peer and protocol. */
  predicate Serves(v: seq<Entry>, peer: EndpointId, alpn: seq<byte>, closed: Connection -> bool) {
    exists e | e in v :: ServedBy(e, peer, alpn, closed)
  }

  /** Looking up by key finds an entry for exactly the peer and protocol asked for. */
  lemma LookupIsExact(z32: Names, v: seq<Entry>, peer: EndpointId, alpn: seq<byte>, closed: Connection -> bool)
    requires GoodNames(z32) && Identified(z32, v) && Distinct(v)
    ensures var key, m := Key(z32, peer, alpn), MapOf(v);
            && (key in m ==> m[key].connection.peer == peer && m[key].connection.alpn == alpn)
            && (Serves(v, peer, alpn, closed) <==> key in m && !closed(m[key].connection))
  {
    var key := Key(z32, peer, alpn);
    MapOfKeys(v, key);
    if key in MapOf(v) {
      var i :| 0 <= i < |v| && v[i].key == key;
      MapOfAt(v, i);
      assert v[i] in v && FiledRight(z32, v[i]);
      KeyIsInjective(z32, v[i].session.connection.peer, v[i].session.connection.alpn, peer, alpn);
    }
    if Serves(v, peer, alpn, closed) {
      var e :| e in v && ServedBy(e, peer, alpn, closed);
      var j :| 0 <= j < |v| && v[j] == e;
      assert FiledRight(z32, e);
      MapOfAt(v, j);
    }
  }

  lemma FrontIdentified(z32: Names, v: seq<Entry>, e: Entry)
    requires Identified(z32, v) && FiledRight(z32, e) && Distinct(v) && Descending(v)
    ensures Identified(z32, Front(v, e)) && Identified(z32, Without(v, e.key))
  {
    WithoutKeeps(v, e.key);
  }

  // ---------------------------------------------------------------------------------------
  // Histories
  // ---------------------------------------------------------------------------------------

  datatype Op =
    | Hit(key: string)                             // a lookup that found the key, if it is cached
    | Put(key: string, connection: Connection)     // a session entered after a dial or a reuse
    | Drop(key: string)                            // a missed lookup: a closed entry, if any, goes
    | Reset                                        // the endpoint stopped

  /** `cache` is what the bridge holds; `all` is the same history without eviction. */
  datatype Books = Books(cache: seq<Entry>, all: seq<Entry>, next: nat)

  function Lookup(v: seq<Entry>, key: string): Option<Session> {
    if v == [] then None else if v[0].key == key then Some(v[0].session) else Lookup(v[1..], key)
  }

  function Apply(b: Books, op: Op): Books {
    match op
    case Hit(key) =>
      (match Lookup(b.cache, key)
       case None => b
       case Some(s) =>
         var e := Entry(key, Session(s.connection, b.next));
         Books(Front(b.cache, e), Front(b.all, e), b.next + 1))
    case Put(key, connection) =>
      var e := Entry(key, Session(connection, b.next));
      Books(Truncated(Front(b.cache, e)), Front(b.all, e), b.next + 1)
    case Drop(key) =>
      if Lookup(b.cache, key).None? then b else Books(Without(b.cache, key), Without(b.all, key), b.next)
    case Reset => Books([], [], b.next)
  }

  function After(ops: seq<Op>): Books {
    if ops == [] then Books([], [], 1) else Apply(After(ops[..|ops| - 1]), ops[|ops| - 1])
  }

  lemma AfterNext(ops: seq<Op>, op: Op)
    ensures After(ops + [op]) == Apply(After(ops), op)
  {
    assert (ops + [op])[..|ops|] == ops;
  }

  lemma {:induction false} WithoutAbsent(v: seq<Entry>, key: string)
    ensures Lookup(v, key).None? ==> Without(v, key) == v
  {
    if v != [] {
      WithoutAbsent(v[1..], key);
      assert v == [v[0]] + v[1..];
    }
  }

  /** Looking up in the list is looking up in the map. */
  lemma {:induction false} LookupIsMapOf(v: seq<Entry>, key: string)
    ensures Lookup(v, key) == if key in MapOf(v) then Some(MapOf(v)[key]) else None
  {
    if v != [] {
      LookupIsMapOf(v[1..], key);
    }
  }

  // ---------------------------------------------------------------------------------------
  // The cache itself
  // ---------------------------------------------------------------------------------------

  class Cache {
    const z32: Names
    var sessions: map<string, Session>
    var nextUse: nat
    ghost var view: seq<Entry>
    ghost var ops: seq<Op>      // what has been done to it since it was made

    /** The map and the list agree; the limit may be exceeded. */
    ghost predicate Coherent()
      reads this
    {
      Represents(sessions, view) && Before(view, nextUse)
    }

    ghost predicate Valid()
      reads this
    {
      && GoodNames(z32)
      && Coherent()
      && |view| <= MAX_CACHED_SESSIONS
      && Identified(z32, view)
      && view == After(ops).cache && nextUse == After(ops).next
    }

    constructor (z32: Names)
      requires GoodNames(z32)
      ensures Valid() && this.z32 == z32 && view == [] && ops == []
    {
      this.z32, sessions, nextUse, view, ops := z32, map[], 1, [], [];
    }

    /** The lookup both users of the cache start with: a closed connection does not count. */
    method Reuse(peer: EndpointId, alpn: seq<byte>, closed: Connection -> bool) returns (cached: Option<Connection>)
      requires Valid()
      modifies this
      ensures Valid()
      ensures cached.Some? <==> Serves(old(view), peer, alpn, closed)
      ensures cached.Some? ==> cached.value.peer == peer && cached.value.alpn == alpn && !closed(cached.value)
      ensures cached.Some? ==> view == Front(old(view), Entry(Key(z32, peer, alpn), Session(cached.value, old(nextUse))))
      ensures cached.None? ==> view == old(view)
      ensures ops == if cached.Some? then old(ops) + [Hit(Key(z32, peer, alpn))] else old(ops)
    {
      var key := Key(z32, peer, alpn);
      LookupIsExact(z32, view, peer, alpn, closed);
      if key in sessions && !closed(sessions[key].connection) {
        var session := Session(sessions[key].connection, nextUse);
        StampRepresents(sessions, view, Entry(key, session));
        FrontIdentified(z32, view, Entry(key, session));
        MapOfSize(view);
        sessions := sessions[key := session];
        nextUse := nextUse + 1;
        cached := Some(session.connection);
        LookupIsMapOf(view, key);
        AfterNext(ops, Hit(key));
        ops := ops + [Hit(key)];
        view := Front(view, Entry(key, session));
        MapOfSize(view);
      } else {
        cached := None;
      }
    }

    /** The lookup of `connect`: a miss also removes a closed entry. */
    method LookupForConnect(peer: EndpointId, alpn: seq<byte>, closed: Connection -> bool)
      returns (cached: Option<Connection>)
      requires Valid()
      modifies this
      ensures Valid()
      ensures cached.Some? <==> Serves(old(view), peer, alpn, closed)
      ensures cached.Some? ==> cached.value.peer == peer && cached.value.alpn == alpn && !closed(cached.value)
      ensures var key := Key(z32, peer, alpn);
              view == if cached.Some? then Front(old(view), Entry(key, Session(cached.value, old(nextUse))))
                      else Without(old(view), key)
      ensures var key := Key(z32, peer, alpn); ops == old(ops) + [if cached.Some? then Hit(key) else Drop(key)]
    {
      cached := Reuse(peer, alpn, closed);
      if cached.None? {
        var key := Key(z32, peer, alpn);
        MapOfWithout(view, key);
        WithoutKeeps(view, key);
        WithoutBefore(view, key, nextUse);
        sessions := sessions - {key};
        WithoutAbsent(view, key);
        view := Without(view, key);
        AfterNext(ops, Drop(key));
        ops := ops + [Drop(key)];
      }
    }

    /** The lookup of the TCP forwarder: a miss leaves a closed entry where it is. */
    method LookupForForwarder(peer: EndpointId, alpn: seq<byte>, closed: Connection -> bool)
      returns (cached: Option<Connection>)
      requires Valid()
      modifies this
      ensures Valid()
      ensures cached.Some? <==> Serves(old(view), peer, alpn, closed)
      ensures cached.Some? ==> cached.value.peer == peer && cached.value.alpn == alpn && !closed(cached.value)
      ensures view == if cached.Some? then Front(old(view), Entry(Key(z32, peer, alpn), Session(cached.value, old(nextUse))))
                      else old(view)
      ensures ops == if cached.Some? then old(ops) + [Hit(Key(z32, peer, alpn))] else old(ops)
    {
      cached := Reuse(peer, alpn, closed);
    }

    /** The key with the smallest stamp. */
    method Oldest() returns (oldest: string)
      requires sessions != map[]
      ensures oldest in sessions
      ensures forall k | k in sessions :: sessions[oldest].lastUsed <= sessions[k].lastUsed
    {
      var rest := sessions.Keys;
      oldest :| oldest in rest;
      rest := rest - {oldest};
      while rest != {}
        invariant rest <= sessions.Keys && oldest in sessions
        invariant forall k | k in sessions && k !in rest :: sessions[oldest].lastUsed <= sessions[k].lastUsed
        decreases |rest|
      {
        var k :| k in rest;
        if sessions[k].lastUsed < sessions[oldest].lastUsed {
          oldest := k;
        }
        rest := rest - {k};
      }
    }

    /** One eviction takes out one entry, the least recently used one. */
    method EvictOne()
      requires Coherent() && sessions != map[]
      modifies this`sessions, this`view
      ensures Coherent() && |sessions| == |view| == |old(view)| - 1
      ensures view == old(view)[..|old(view)| - 1]
    {
      var oldest := Oldest();
      EvictRepresents(sessions, view, oldest);
      sessions := sessions - {oldest};
      view := view[..|view| - 1];
      MapOfSize(view);
    }

    /** The eviction loop: drop the oldest entry until the limit is met. */
    method EvictToLimit()
      requires Coherent() && |sessions| == |view|
      modifies this`sessions, this`view
      ensures Coherent() && view == Truncated(old(view))
    {
      ghost var full := view;
      while |sessions| > MAX_CACHED_SESSIONS
        invariant Coherent()
        invariant |sessions| == |view| && view <= full
        invariant |view| == |full| || |view| >= MAX_CACHED_SESSIONS
        decreases |sessions|
      {
        EvictOne();
      }
    }

    /** Enter a freshly dialed or reused connection, then evict down to the limit. */
    method CacheSession(connection: Connection)
      requires Valid()
      modifies this
      ensures Valid()
      ensures var e := Entry(Key(z32, connection.peer, connection.alpn), Session(connection, old(nextUse)));
              view == Truncated(Front(old(view), e)) && view[0] == e
      ensures ops == old(ops) + [Put(Key(z32, connection.peer, connection.alpn), connection)]
    {
      var e := Entry(Key(z32, connection.peer, connection.alpn), Session(connection, nextUse));
      StampRepresents(sessions, view, e);
      FrontIdentified(z32, view, e);
      sessions := sessions[e.key := e.session];
      nextUse := nextUse + 1;
      view := Front(view, e);
      ghost var full := view;
      MapOfSize(view);
      EvictToLimit();
      assert forall x | x in view :: x in full;
      AfterNext(ops, Put(e.key, connection));
      ops := ops + [Put(e.key, connection)];
    }

    method Clear()
      requires Valid()
      modifies this`sessions, this`view, this`ops
      ensures Valid() && view == [] && ops == old(ops) + [Reset]
    {
      sessions, view := map[], [];
      AfterNext(ops, Reset);
      ops := ops + [Reset];
    }
  }
}
