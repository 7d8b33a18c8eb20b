/**
 Which sessions survive, over whole histories of the cache. Beside the bounded list the same
 history is kept on a list that never evicts; the cache is always the front of it.
 */
module SessionHistory {
  import opened SessionCache

  predicate Ordered(v: seq<Entry>, next: nat) {
    Distinct(v) && Descending(v) && Before(v, next)
  }

  lemma {:induction false} WithoutOfPrefix(v: seq<Entry>, u: seq<Entry>, key: string)
    requires v <= u
    ensures Without(v, key) <= Without(u, key)
  {
    if v != [] {
      assert v[0] == u[0] && v[1..] <= u[1..];
      WithoutOfPrefix(v[1..], u[1..], key);
    }
  }

  lemma {:induction false} LookupFinds(v: seq<Entry>, key: string)
    ensures Lookup(v, key).Some? <==> exists i | 0 <= i < |v| :: v[i].key == key
  {
    if v != [] {
      LookupFinds(v[1..], key);
      if i :| 0 < i < |v| && v[i].key == key {
        assert v[1..][i - 1].key == key;
      }
      if j :| 0 <= j < |v[1..]| && v[1..][j].key == key {
        assert v[j + 1].key == key;
      }
    }
  }

  /** Removal takes out one entry if the key is there and none if it is not. */
  lemma {:induction false} WithoutLength(v: seq<Entry>, key: string)
    requires Distinct(v)
    ensures |Without(v, key)| == if Lookup(v, key).Some? then |v| - 1 else |v|
  {
    if v != [] {
      WithoutLength(v[1..], key);
      if v[0].key == key {
        LookupFinds(v[1..], key);
      }
    }
  }

  lemma {:induction false} LookupInPrefix(v: seq<Entry>, u: seq<Entry>, key: string)
    requires v <= u && Lookup(v, key).Some?
    ensures Lookup(u, key) == Lookup(v, key)
  {
    if v[0].key != key {
      LookupInPrefix(v[1..], u[1..], key);
    }
  }

  lemma FrontOrdered(v: seq<Entry>, e: Entry, next: nat)
    requires Ordered(v, next) && e.session.lastUsed == next
    ensures Ordered(Front(v, e), next + 1)
  {
    StampRepresents(MapOf(v), v, e);
  }

  lemma FrontOfPrefix(v: seq<Entry>, u: seq<Entry>, e: Entry)
    requires v <= u
    ensures Front(v, e) <= Front(u, e)
  {
    WithoutOfPrefix(v, u, e.key);
  }

  predicate Agree(b: Books) {
    b.cache <= b.all && Ordered(b.cache, b.next) && Ordered(b.all, b.next) && |b.cache| <= MAX_CACHED_SESSIONS
  }

  lemma ApplyAgrees(b: Books, op: Op)
    requires Agree(b)
    ensures Agree(Apply(b, op))
  {
    match op {
      case Hit(key) =>
        if Lookup(b.cache, key).Some? {
          var e := Entry(key, Session(Lookup(b.cache, key).value.connection, b.next));
          FrontOrdered(b.cache, e, b.next);
          FrontOrdered(b.all, e, b.next);
          FrontOfPrefix(b.cache, b.all, e);
          WithoutLength(b.cache, key);
        }
      case Put(key, connection) =>
        var e := Entry(key, Session(connection, b.next));
        FrontOrdered(b.cache, e, b.next);
        FrontOrdered(b.all, e, b.next);
        FrontOfPrefix(b.cache, b.all, e);
      case Drop(key) =>
        WithoutKeeps(b.cache, key);
        WithoutKeeps(b.all, key);
        WithoutBefore(b.cache, key, b.next);
        WithoutBefore(b.all, key, b.next);
        WithoutOfPrefix(b.cache, b.all, key);
      case Reset =>
    }
  }

  /**
   After any history the cache is a prefix of the full recency list: whatever is cached, every
   session used more recently is cached too, and never more than 32 are.
   */
  lemma {:induction false} SurvivorsAreTheMostRecent(ops: seq<Op>)
    ensures After(ops).cache <= After(ops).all
    ensures |After(ops).cache| <= MAX_CACHED_SESSIONS
    ensures Agree(After(ops))
  {
    if ops != [] {
      SurvivorsAreTheMostRecent(ops[..|ops| - 1]);
      ApplyAgrees(After(ops[..|ops| - 1]), ops[|ops| - 1]);
    }
  }

  predicate NoDrops(ops: seq<Op>) {
    forall i | 0 <= i < |ops| :: !ops[i].Drop?
  }

  /**
   Over any history at all, removals included, the survivors are exactly the 32 most recently
   used if and only if the cache is full or nothing is missing from it.
   */
  lemma SurvivorsAreExactWhenFullOrWhole(ops: seq<Op>)
    ensures var b := After(ops);
            b.cache == Truncated(b.all) <==> |b.cache| == MAX_CACHED_SESSIONS || b.cache == b.all
  {
    SurvivorsAreTheMostRecent(ops);
  }

  /** As long as no closed entry was removed, they are. */
  lemma {:induction false} ExactWithoutRemovals(ops: seq<Op>)
    requires NoDrops(ops)
    ensures After(ops).cache == Truncated(After(ops).all)
  {
    SurvivorsAreTheMostRecent(ops);
    if ops != [] {
      var b, op := After(ops[..|ops| - 1]), ops[|ops| - 1];
      SurvivorsAreTheMostRecent(ops[..|ops| - 1]);
      ExactWithoutRemovals(ops[..|ops| - 1]);
      ExactStep(b, op);
    }
  }

  lemma ExactStep(b: Books, op: Op)
    requires Agree(b) && b.cache == Truncated(b.all) && !op.Drop?
    ensures |Apply(b, op).cache| == if |Apply(b, op).all| <= MAX_CACHED_SESSIONS then |Apply(b, op).all| else MAX_CACHED_SESSIONS
    ensures Apply(b, op).cache == Truncated(Apply(b, op).all)
  {
    ApplyAgrees(b, op);
    if op.Hit? || op.Put? {
      WithoutLength(b.cache, op.key);
      WithoutLength(b.all, op.key);
      if Lookup(b.cache, op.key).Some? { LookupInPrefix(b.cache, b.all, op.key); }
    }
  }

  /** So it is for the map itself, after whatever has been done to it. */
  lemma CacheHoldsTheMostRecent(c: Cache)
    requires c.Valid()
    ensures c.sessions == MapOf(c.view) && |c.sessions| == |c.view| <= MAX_CACHED_SESSIONS
    ensures c.view <= After(c.ops).all
    ensures c.view == Truncated(After(c.ops).all) <==> |c.view| == MAX_CACHED_SESSIONS || c.view == After(c.ops).all
  {
    SurvivorsAreTheMostRecent(c.ops);
    SurvivorsAreExactWhenFullOrWhole(c.ops);
    MapOfSize(c.view);
  }

  /**
   Removing a closed entry is what can break that: the slot it frees is not refilled by the
   session evicted earlier. It does so exactly when the key was cached and something had
   already been evicted.
   */
  lemma DropKeepsExactnessExactlyWhen(b: Books, key: string)
    requires Agree(b) && b.cache == Truncated(b.all)
    ensures Apply(b, Drop(key)).cache == Truncated(Apply(b, Drop(key)).all)
       <==> (|b.all| <= MAX_CACHED_SESSIONS || Lookup(b.cache, key).None?)
  {
    ApplyAgrees(b, Drop(key));
    WithoutLength(b.cache, key);
    WithoutLength(b.all, key);
    if Lookup(b.cache, key).Some? { LookupInPrefix(b.cache, b.all, key); }
  }

  // ---------------------------------------------------------------------------------------
  // A history that breaks it
  // ---------------------------------------------------------------------------------------

  function KeyOf(n: nat): string {
    seq(n, _ => 'k')
  }

  /** `n` sessions entered one after the other, each under a key of its own. */
  function Fill(n: nat, connection: Connection): seq<Op> {
    if n == 0 then [] else Fill(n - 1, connection) + [Put(KeyOf(n), connection)]
  }

  lemma LongerKeyIsNew(v: seq<Entry>, key: string)
    requires forall e | e in v :: |e.key| < |key|
    ensures Lookup(v, key).None? && Without(v, key) == v
  {
    assert forall i | 0 <= i < |v| :: v[i] in v;
    LookupFinds(v, key);
    WithoutAbsent(v, key);
  }

  lemma PutOfNewKey(ops: seq<Op>, key: string, connection: Connection)
    requires forall e | e in After(ops).all :: |e.key| < |key|
    ensures After(ops + [Put(key, connection)]).all == [Entry(key, Session(connection, After(ops).next))] + After(ops).all
  {
    assert (ops + [Put(key, connection)])[..|ops|] == ops;
    LongerKeyIsNew(After(ops).all, key);
  }

  lemma {:induction false} FillKeepsAll(n: nat, connection: Connection)
    ensures NoDrops(Fill(n, connection))
    ensures |After(Fill(n, connection)).all| == n
    ensures forall e | e in After(Fill(n, connection)).all :: |e.key| <= n
  {
    if n > 0 {
      FillKeepsAll(n - 1, connection);
      PutOfNewKey(Fill(n - 1, connection), KeyOf(n), connection);
    }
  }

  /** One session more than the cache holds, and then the newest is found closed and removed. */
  function BreakingHistory(connection: Connection): seq<Op> {
    Fill(MAX_CACHED_SESSIONS + 1, connection) + [Drop(KeyOf(MAX_CACHED_SESSIONS + 1))]
  }

  /**
   After it the cache holds 31 sessions although 32 were used more recently than any removed:
   the slot that came free is not refilled by the session evicted earlier.
   */
  lemma ARemovalCanBreakExactness(connection: Connection)
    ensures var b := After(BreakingHistory(connection));
            && |b.cache| == MAX_CACHED_SESSIONS - 1
            && |b.all| == MAX_CACHED_SESSIONS
            && b.cache != Truncated(b.all)
  {
    var n, ops := MAX_CACHED_SESSIONS + 1, Fill(MAX_CACHED_SESSIONS + 1, connection);
    FillKeepsAll(n, connection);
    ExactWithoutRemovals(ops);
    SurvivorsAreTheMostRecent(ops);
    assert BreakingHistory(connection)[..|ops|] == ops;
    NewestIsCached(ops[..|ops| - 1], KeyOf(n), connection);
    assert ops == Fill(n - 1, connection) + [Put(KeyOf(n), connection)];
    WithoutLength(After(ops).cache, KeyOf(n));
    LookupInPrefix(After(ops).cache, After(ops).all, KeyOf(n));
    WithoutLength(After(ops).all, KeyOf(n));
  }

  lemma NewestIsCached(ops: seq<Op>, key: string, connection: Connection)
    ensures Lookup(After(ops + [Put(key, connection)]).cache, key).Some?
  {
    assert (ops + [Put(key, connection)])[..|ops|] == ops;
  }

  /**
   The entry just put is at the front, so it is never the one evicted; and eviction takes at
   most one entry, the least recently used one, only when the cache was full of other keys.
   */
  lemma PutEvictsAtMostOne(b: Books, key: string, connection: Connection)
    requires Agree(b)
    ensures var e, c := Entry(key, Session(connection, b.next)), Apply(b, Put(key, connection)).cache;
            && c != [] && c[0] == e
            && (c == Front(b.cache, e)
                || (|b.cache| == MAX_CACHED_SESSIONS && Lookup(b.cache, key).None?
                    && c + [b.cache[|b.cache| - 1]] == [e] + b.cache))
  {
    var e, c := Entry(key, Session(connection, b.next)), Apply(b, Put(key, connection)).cache;
    WithoutLength(b.cache, key);
    if |Front(b.cache, e)| > MAX_CACHED_SESSIONS {
      WithoutAbsent(b.cache, key);
      var full := [e] + b.cache;
      assert full == full[..MAX_CACHED_SESSIONS] + [full[MAX_CACHED_SESSIONS]];
    }
  }
}
