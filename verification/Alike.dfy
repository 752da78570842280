/** Databases that store the same contents under the same keys, expired entries included: every
    request, run on both at the same time, leaves them so. Only creation and access stamps may
    differ. */
module Alike {
  import opened Text
  import opened Values
  import opened Operations
  import opened Agreement
  import opened Execution

  predicate SameStored(a: Db, b: Db) {
    a.Keys == b.Keys && forall k :: k in a ==> ContentOf(a[k]) == ContentOf(b[k])
  }

  // ----- one database ---------------------------------------------------------------------------------

  lemma StoredLookup(a: Db, b: Db, key: string, t: int)
    requires SameStored(a, b)
    ensures SameEntry(Lookup(a, key, t), Lookup(b, key, t))
  {
    assert key in a <==> key in a.Keys;
    assert key in b <==> key in b.Keys;
    if key in a { assert ContentOf(a[key]) == ContentOf(b[key]); }
  }

  lemma StoredStore(a: Db, b: Db, key: string, x: Option<ValueObject>, y: Option<ValueObject>)
    requires SameStored(a, b) && SameEntry(x, y)
    ensures SameStored(Store(a, key, x), Store(b, key, y))
  {
  }

  lemma StoredSingle(a: Db, b: Db, key: string, op: KeyOp, t: int)
    requires SameStored(a, b)
    ensures SameStored(RunSingle(a, key, op, t).db, RunSingle(b, key, op, t).db)
  {
    hide Apply, SameStored, Store, Lookup;
    var x, y := Lookup(a, key, t), Lookup(b, key, t);
    StoredLookup(a, b, key, t);
    ApplyAgrees(op, key, x, y, t, t);
    StoredStore(a, b, key, Apply(op, key, x, t).entry, Apply(op, key, y, t).entry);
  }

  lemma {:induction false} StoredMGet(a: Db, b: Db, keys: seq<string>, t: int)
    requires SameStored(a, b)
    ensures SameStored(RunMGet(a, keys, t).db, RunMGet(b, keys, t).db)
  {
    hide RunSingle, SameStored;
    if keys != [] {
      var front := keys[..|keys| - 1];
      StoredMGet(a, b, front, t);
      StoredSingle(RunMGet(a, front, t).db, RunMGet(b, front, t).db, keys[|keys| - 1], Get, t);
    }
  }

  lemma {:induction false} StoredStoreAll(a: Db, b: Db, entries: seq<(string, string)>, t: int)
    requires SameStored(a, b)
    ensures SameStored(StoreAll(a, entries, t), StoreAll(b, entries, t))
  {
    hide SameStored;
    if entries != [] {
      var front, last := entries[..|entries| - 1], entries[|entries| - 1];
      StoredStoreAll(a, b, front, t);
      var e := Some(StringObject(last.1, t, -1, t));
      StoredStore(StoreAll(a, front, t), StoreAll(b, front, t), last.0, e, e);
    }
  }

  lemma StoredRename(a: Db, b: Db, source: string, destination: string, t: int)
    requires SameStored(a, b)
    ensures SameStored(RunRename(a, source, destination, t).db, RunRename(b, source, destination, t).db)
  {
    hide SameStored, Lookup;
    StoredLookup(a, b, source, t);
    StoredStore(a, b, source, None, None);
    var x, y := Lookup(a, source, t), Lookup(b, source, t);
    if x.Some? {
      var u, v := Some(Touch(x.value, t)), Some(Touch(y.value, t));
      StoredStore(a, b, destination, u, v);
      StoredStore(Store(a, destination, u), Store(b, destination, v), source, None, None);
    }
  }

  lemma StoredPurge(a: Db, b: Db, t: int)
    requires SameStored(a, b)
    ensures SameStored(Purge(a, t), Purge(b, t))
  {
    forall k | k in a ensures IsExpired(a[k], t) == IsExpired(b[k], t) {
      assert ContentOf(a[k]) == ContentOf(b[k]);
    }
  }

  lemma StoredRun(request: Request, a: Db, b: Db, t: int)
    requires SameStored(a, b)
    ensures SameStored(Run(request, a, t).db, Run(request, b, t).db)
  {
    hide RunSingle, RunMGet, StoreAll, RunRename, Lines, Number, InfoText, Purge;
    match request {
      case Single(key, op) => StoredSingle(a, b, key, op, t);
      case Del(key) => StoredStore(a, b, key, None, None);
      case MGet(keys) => StoredMGet(a, b, keys, t);
      case MSet(entries) => StoredStoreAll(a, b, entries, t);
      case Rename(source, destination) => StoredRename(a, b, source, destination, t);
      case _ => StoredPurge(a, b, t);
    }
  }

  // ----- all databases ----------------------------------------------------------------------------------

  predicate AllSameStored(a: seq<Db>, b: seq<Db>) {
    |a| == |b| && forall k :: 0 <= k < |a| ==> SameStored(a[k], b[k])
  }

  lemma StoredMove(a: seq<Db>, b: seq<Db>, i: nat, key: string, j: nat, t: int)
    requires AllSameStored(a, b) && i < |a| && j < |a|
    ensures AllSameStored(MoveBetween(a, i, key, j, t).dbs, MoveBetween(b, i, key, j, t).dbs)
  {
    hide SameStored, Lookup;
    if i != j {
      StoredLookup(a[i], b[i], key, t);
      StoredLookup(a[j], b[j], key, t);
      StoredStore(a[i], b[i], key, None, None);
      var x, y := Lookup(a[i], key, t), Lookup(b[i], key, t);
      if x.Some? { StoredStore(a[j], b[j], key, Some(Touch(x.value, t)), Some(Touch(y.value, t))); }
    }
  }

  lemma StoredInOne(a: seq<Db>, b: seq<Db>, i: nat, request: Request, t: int)
    requires AllSameStored(a, b) && i < |a|
    ensures AllSameStored(ExecuteInOne(a, i, request, t).dbs, ExecuteInOne(b, i, request, t).dbs)
  {
    hide SameStored, Run;
    StoredRun(request, a[i], b[i], t);
  }

  lemma StoredEmptied(n: nat)
    ensures AllSameStored(Emptied(n), Emptied(n))
  {
  }

  // ----- what that means for a client ------------------------------------------------------------------------

  /** They look the same at every time. */
  lemma StoredLive(a: Db, b: Db, t: int)
    requires SameStored(a, b)
    ensures Live(a, t) == Live(b, t)
  {
    hide SameStored;
    forall k ensures SameEntry(Lookup(a, k, t), Lookup(b, k, t)) { StoredLookup(a, b, k, t); }
    SameEntriesSameLive(a, b, t, t);
  }

  lemma AllStoredLive(a: seq<Db>, b: seq<Db>, t: int)
    requires AllSameStored(a, b)
    ensures SameLive(a, b, t)
  {
    hide SameStored, Live;
    forall k | 0 <= k < |a| ensures Live(a[k], t) == Live(b[k], t) { StoredLive(a[k], b[k], t); }
  }

  /** And databases that look the same at every time store the same contents. */
  lemma LiveStored(a: Db, b: Db)
    requires forall t :: Live(a, t) == Live(b, t)
    ensures SameStored(a, b)
  {
    forall k ensures k in a <==> k in b
             ensures k in a && k in b ==> ContentOf(a[k]) == ContentOf(b[k]) {
      var t := (if k in a && a[k].expiresAt < 0 then a[k].expiresAt else 0)
               + (if k in b && b[k].expiresAt < 0 then b[k].expiresAt else 0) - 1;
      assert k in a ==> k in Live(a, t) && Live(a, t)[k] == ContentOf(a[k]);
      assert k in b ==> k in Live(b, t) && Live(b, t)[k] == ContentOf(b[k]);
      assert Live(a, t) == Live(b, t);
    }
  }
}
