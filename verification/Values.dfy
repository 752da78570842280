/** Stored values, expiry, and the contents a client can observe: for each key that has not
    expired, its type, payload and expiry time. */
module Values {
  import opened Text

  datatype DataType = StringType | ListType | HashType | SetType

  function TypeName(t: DataType): string {
    match t
    case StringType => "string"
    case ListType => "list"
    case HashType => "hash"
    case SetType => "set"
  }

  /** `ValueObject`: one field per payload type, of which `kind` says which is in use. */
  datatype ValueObject = ValueObject(
    value: string, list: seq<string>, hash: map<string, string>, members: set<string>,
    kind: DataType, createdAt: int, expiresAt: int, lastAccessedAt: int)

  type Db = map<string, ValueObject>

  predicate IsExpired(e: ValueObject, now: int) {
    e.expiresAt != -1 && e.expiresAt <= now
  }

  function StringObject(value: string, createdAt: int, expiresAt: int, now: int): ValueObject {
    ValueObject(value, [], map[], {}, StringType, createdAt, expiresAt, now)
  }

  function Touch(e: ValueObject, now: int): ValueObject {
    e.(lastAccessedAt := now)
  }

  // ----- observable contents ------------------------------------------------------------------

  datatype Content = Content(kind: DataType, value: string, list: seq<string>,
                             hash: map<string, string>, members: set<string>, expiresAt: int)

  function ContentOf(e: ValueObject): Content {
    Content(e.kind, e.value, e.list, e.hash, e.members, e.expiresAt)
  }

  function Live(db: Db, now: int): map<string, Content> {
    map k | k in db && !IsExpired(db[k], now) :: ContentOf(db[k])
  }

  /** The entry an operation finds under a key: expired entries count as absent. */
  function Lookup(db: Db, key: string, now: int): Option<ValueObject> {
    if key in db && !IsExpired(db[key], now) then Some(db[key]) else None
  }

  /** The database after an operation left `entry` (or nothing) under `key`. */
  function Store(db: Db, key: string, entry: Option<ValueObject>): Db {
    match entry
    case None => db - {key}
    case Some(e) => db[key := e]
  }

  /** `removeExpired`. */
  function Purge(db: Db, now: int): Db {
    map k | k in db && !IsExpired(db[k], now) :: db[k]
  }

  predicate SameEntry(a: Option<ValueObject>, b: Option<ValueObject>) {
    if a.None? then b.None? else b.Some? && ContentOf(a.value) == ContentOf(b.value)
  }

  lemma LiveOfStore(db: Db, key: string, entry: Option<ValueObject>, t: int)
    ensures Live(Store(db, key, entry), t) ==
            if entry.Some? && !IsExpired(entry.value, t)
            then Live(db, t)[key := ContentOf(entry.value)] else Live(db, t) - {key}
  {
  }

  lemma LiveAgreesOnEntries(a: Db, b: Db, s: int, t: int, key: string)
    requires Live(a, s) == Live(b, t)
    ensures SameEntry(Lookup(a, key, s), Lookup(b, key, t))
  {
    assert key in Live(a, s) <==> key in Live(b, t);
    if key in Live(a, s) { assert Live(a, s)[key] == Live(b, t)[key]; }
  }

  /** Two databases with the same contents now have the same contents at any later time. */
  lemma LiveLater(a: Db, b: Db, now: int, t: int)
    requires now <= t && Live(a, now) == Live(b, now)
    ensures Live(a, t) == Live(b, t)
  {
    forall k ensures SameEntry(Lookup(a, k, t), Lookup(b, k, t)) {
      LiveAgreesOnEntries(a, b, now, now, k);
    }
    SameEntriesSameLive(a, b, t, t);
  }

  lemma SameEntriesSameLive(a: Db, b: Db, s: int, t: int)
    requires forall k :: SameEntry(Lookup(a, k, s), Lookup(b, k, t))
    ensures Live(a, s) == Live(b, t)
  {
    forall k ensures k in Live(a, s) <==> k in Live(b, t) {
      assert SameEntry(Lookup(a, k, s), Lookup(b, k, t));
    }
    forall k | k in Live(a, s) ensures Live(a, s)[k] == Live(b, t)[k] {
      assert SameEntry(Lookup(a, k, s), Lookup(b, k, t));
    }
  }

  /** Removing what has expired is unobservable, now and later. */
  lemma LiveOfPurge(db: Db, now: int, t: int)
    requires now <= t
    ensures Live(Purge(db, now), t) == Live(db, t)
  {
  }

  /** Storing entries with the same contents into databases with the same contents. */
  lemma StoreKeepsAgreement(a: Db, b: Db, s: int, t: int, key: string,
                            x: Option<ValueObject>, y: Option<ValueObject>)
    requires Live(a, s) == Live(b, t) && SameEntry(x, y)
    requires x.Some? ==> IsExpired(x.value, s) == IsExpired(y.value, t)
    ensures Live(Store(a, key, x), s) == Live(Store(b, key, y), t)
  {
    LiveOfStore(a, key, x, s);
    LiveOfStore(b, key, y, t);
  }

  // ----- databases without expiry times -----------------------------------------------------------

  predicate NoTtl(db: Db) {
    forall k :: k in db ==> db[k].expiresAt == -1
  }

  lemma LiveWithoutTtl(db: Db, s: int, t: int)
    requires NoTtl(db)
    ensures Live(db, s) == Live(db, t)
  {
  }
}
