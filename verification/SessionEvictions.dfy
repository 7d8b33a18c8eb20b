/**
 Exactly which histories leave the cache with less than the most recently used sessions, told by
 the evictions and removals in them.
 */
module SessionEvictions {
  import opened SessionCache
  import opened SessionHistory

  /** The keys that were evicted and have not been entered again since, told by the evictions alone. */
  function Evicted(ops: seq<Op>): set<string> {
    if ops == [] then {}
    else
      var before, op := ops[..|ops| - 1], ops[|ops| - 1];
      var cache := After(before).cache;
      match op
      case Put(key, _) =>
        (Evicted(before) - {key})
        + if |cache| == MAX_CACHED_SESSIONS && Lookup(cache, key).None? then {cache[|cache| - 1].key} else {}
      case Reset => {}
      case _ => Evicted(before)
  }

  function Keys(v: seq<Entry>): set<string> {
    if v == [] then {} else {v[0].key} + Keys(v[1..])
  }

  lemma {:induction false} KeysOf(v: seq<Entry>, key: string)
    ensures key in Keys(v) <==> Lookup(v, key).Some?
    ensures Keys(v) == {} <==> v == []
  {
    if v != [] {
      KeysOf(v[1..], key);
      assert v[0].key in Keys(v);
    }
  }

  lemma {:induction false} KeysWithout(v: seq<Entry>, key: string)
    ensures Keys(Without(v, key)) == Keys(v) - {key}
  {
    if v != [] {
      KeysWithout(v[1..], key);
      if v[0].key != key {
        assert Without(v, key)[0] == v[0] && Without(v, key)[1..] == Without(v[1..], key);
      }
    }
  }

  lemma {:induction false} WithoutConcat(v: seq<Entry>, w: seq<Entry>, key: string)
    ensures Without(v + w, key) == Without(v, key) + Without(w, key)
  {
    if v == [] {
      assert v + w == w;
    } else {
      WithoutConcat(v[1..], w, key);
      assert (v + w)[1..] == v[1..] + w;
    }
  }

  /** What the full recency list has behind the cached entries. */
  function Missing(b: Books): seq<Entry>
    requires b.cache <= b.all
  {
    b.all[|b.cache|..]
  }

  lemma CachedIsNotMissing(b: Books, key: string)
    requires Agree(b) && Lookup(b.cache, key).Some?
    ensures Lookup(Missing(b), key).None? && Without(Missing(b), key) == Missing(b)
  {
    var tail := Missing(b);
    LookupFinds(b.cache, key);
    LookupFinds(tail, key);
    var i :| 0 <= i < |b.cache| && b.cache[i].key == key;
    assert b.all[i] == b.cache[i];
    assert forall j | 0 <= j < |tail| :: tail[j] == b.all[|b.cache| + j];
    WithoutAbsent(tail, key);
  }

  lemma MissingAfterFront(b: Books, e: Entry)
    requires b.cache <= b.all
    ensures Front(b.all, e) == Front(b.cache, e) + Without(Missing(b), e.key)
  {
    assert b.all == b.cache + Missing(b);
    WithoutConcat(b.cache, Missing(b), e.key);
    var v, w := Without(b.cache, e.key), Without(Missing(b), e.key);
    assert [e] + (v + w) == ([e] + v) + w;
  }

  lemma MissingAfterPut(b: Books, key: string, connection: Connection)
    requires Agree(b)
    ensures Agree(Apply(b, Put(key, connection)))
    ensures var c := b.cache;
            Keys(Missing(Apply(b, Put(key, connection)))) == (Keys(Missing(b)) - {key})
            + if |c| == MAX_CACHED_SESSIONS && Lookup(c, key).None? then {c[|c| - 1].key} else {}
  {
    var e := Entry(key, Session(connection, b.next));
    var b' := Apply(b, Put(key, connection));
    var tail := Without(Missing(b), key);
    ApplyAgrees(b, Put(key, connection));
    MissingAfterFront(b, e);
    KeysWithout(Missing(b), key);
    WithoutLength(b.cache, key);
    if |b.cache| == MAX_CACHED_SESSIONS && Lookup(b.cache, key).None? {
      WithoutAbsent(b.cache, key);
      var last := b.cache[|b.cache| - 1];
      assert Missing(b') == [last] + tail;
      assert ([last] + tail)[1..] == tail;
    } else {
      assert Missing(b') == tail;
    }
  }

  lemma MissingAfterDrop(b: Books, key: string)
    requires Agree(b)
    ensures Agree(Apply(b, Drop(key))) && Missing(Apply(b, Drop(key))) == Missing(b)
  {
    ApplyAgrees(b, Drop(key));
    if Lookup(b.cache, key).Some? {
      CachedIsNotMissing(b, key);
      assert b.all == b.cache + Missing(b);
      WithoutConcat(b.cache, Missing(b), key);
    }
  }

  lemma MissingAfterHit(b: Books, key: string)
    requires Agree(b)
    ensures Agree(Apply(b, Hit(key))) && Missing(Apply(b, Hit(key))) == Missing(b)
  {
    ApplyAgrees(b, Hit(key));
    if Lookup(b.cache, key).Some? {
      CachedIsNotMissing(b, key);
      MissingAfterFront(b, Entry(key, Session(Lookup(b.cache, key).value.connection, b.next)));
    }
  }

  /** What is missing from the cache is exactly what was evicted and not entered again. */
  lemma {:induction false} MissingIsEvicted(ops: seq<Op>)
    ensures Agree(After(ops)) && Keys(Missing(After(ops))) == Evicted(ops)
  {
    SurvivorsAreTheMostRecent(ops);
    if ops != [] {
      var before, op := ops[..|ops| - 1], ops[|ops| - 1];
      MissingIsEvicted(before);
      match op {
        case Hit(key) => MissingAfterHit(After(before), key);
        case Put(key, connection) => MissingAfterPut(After(before), key, connection);
        case Drop(key) => MissingAfterDrop(After(before), key);
        case Reset =>
      }
    }
  }

  predicate Exact(b: Books) {
    b.cache == Truncated(b.all)
  }

  /** Something evicted is still out although the cache has a slot free. */
  predicate SlotStandsOpen(ops: seq<Op>) {
    |After(ops).cache| < MAX_CACHED_SESSIONS && Evicted(ops) != {}
  }

  lemma NothingMissing(b: Books)
    requires b.cache <= b.all
    ensures Keys(Missing(b)) == {} <==> b.cache == b.all
  {
    KeysOf(Missing(b), "");
    assert b.all == b.cache + Missing(b);
  }

  lemma InexactWhileSlotStandsOpen(ops: seq<Op>)
    ensures Exact(After(ops)) <==> !SlotStandsOpen(ops)
  {
    SurvivorsAreExactWhenFullOrWhole(ops);
    MissingIsEvicted(ops);
    NothingMissing(After(ops));
  }

  /** Operation `i` took a cached entry out while something evicted was out too. */
  predicate RemovedAfterEviction(ops: seq<Op>, i: nat)
    requires i < |ops|
  {
    && ops[i].Drop? && Lookup(After(ops[..i]).cache, ops[i].key).Some?
    && Evicted(ops[..i]) != {}
  }

  /** From operation `i` on the slot has not been refilled, nor has what was evicted come back. */
  predicate OpenSince(ops: seq<Op>, i: nat)
    requires i < |ops|
  {
    forall j | i < j <= |ops| :: SlotStandsOpen(ops[..j])
  }

  /** Only a removal opens a slot while something evicted is out. */
  lemma OnlyRemovalsOpen(ops: seq<Op>)
    requires ops != [] && !SlotStandsOpen(ops[..|ops| - 1]) && SlotStandsOpen(ops)
    ensures RemovedAfterEviction(ops, |ops| - 1)
  {
    var before, op := ops[..|ops| - 1], ops[|ops| - 1];
    InexactWhileSlotStandsOpen(before);
    InexactWhileSlotStandsOpen(ops);
    MissingIsEvicted(before);
    if !op.Drop? {
      ExactStep(After(before), op);
    } else {
      DropKeepsExactnessExactlyWhen(After(before), op.key);
    }
  }

  /**
   Told by the history: the survivors are not exactly the most recent if and only if a cached
   entry was removed while something evicted was out, and ever since the slot has stayed open and
   not all that was evicted has been entered again.
   */
  lemma {:induction false} InexactExactlySinceARemoval(ops: seq<Op>)
    ensures !Exact(After(ops)) <==> exists i | 0 <= i < |ops| :: RemovedAfterEviction(ops, i) && OpenSince(ops, i)
  {
    InexactWhileSlotStandsOpen(ops);
    assert ops[..|ops|] == ops;
    if !Exact(After(ops)) && ops != [] {
      var n := |ops| - 1;
      var before := ops[..n];
      InexactExactlySinceARemoval(before);
      InexactWhileSlotStandsOpen(before);
      if SlotStandsOpen(before) {
        var i :| 0 <= i < |before| && RemovedAfterEviction(before, i) && OpenSince(before, i);
        StaysOpen(ops, i);
      } else {
        OnlyRemovalsOpen(ops);
        assert OpenSince(ops, n);
      }
    }
  }

  lemma StaysOpen(ops: seq<Op>, i: nat)
    requires ops != [] && i < |ops| - 1 && SlotStandsOpen(ops)
    requires RemovedAfterEviction(ops[..|ops| - 1], i) && OpenSince(ops[..|ops| - 1], i)
    ensures RemovedAfterEviction(ops, i) && OpenSince(ops, i)
  {
    var before := ops[..|ops| - 1];
    assert before[..i] == ops[..i];
    forall j | i < j <= |ops| ensures SlotStandsOpen(ops[..j]) {
      if j < |ops| { assert before[..j] == ops[..j]; } else { assert ops[..j] == ops; }
    }
  }
}
