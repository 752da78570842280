/** Using a key is what keeps it: under allkeys-lru the key that was used last is the last one to
    be evicted. */
module RecentUse {
  import opened Text
  import opened Values
  import opened Memory
  import opened Operations
  import opened Eviction
  import opened Requests

  /** Operations that find what they ask for, or write. */
  predicate Uses(op: KeyOp, cur: Option<ValueObject>) {
    match op
    case Set(_, _) => true
    case Get => cur.Some? && cur.value.kind == StringType
    case Strlen => cur.Some? && cur.value.kind == StringType
    case Exists => cur.Some?
    case Type => cur.Some?
    case MemoryUsage => cur.Some?
    case Append(_) => cur.None? || cur.value.kind == StringType
    case LPush(_) => cur.None? || cur.value.kind == ListType
    case RPush(_) => cur.None? || cur.value.kind == ListType
    case HSet(_, _) => cur.None? || cur.value.kind == HashType
    case HGet(field) => cur.Some? && cur.value.kind == HashType && field in cur.value.hash
    case HExists(_) => cur.Some? && cur.value.kind == HashType
    case HGetAll => cur.Some? && cur.value.kind == HashType
    case SAdd(_) => cur.None? || cur.value.kind == SetType
    case SIsMember(_) => cur.Some? && cur.value.kind == SetType
    case SMembers => cur.Some? && cur.value.kind == SetType
    case SCard => cur.Some? && cur.value.kind == SetType
    case _ => false
  }

  /** They leave the key stamped with the time of use. */
  lemma UseStamps(op: KeyOp, key: string, cur: Option<ValueObject>, now: int)
    requires Uses(op, cur)
    ensures var e := Apply(op, key, cur, now).entry; e.Some? && e.value.lastAccessedAt == now
  {
    hide Number, Line, Lines, FieldLines, WrongType, EstimateBytes, Show, Reversed, AsSet;
  }

  /** When an entry was used last. */
  function UsedAt(e: ValueObject): int {
    if e.lastAccessedAt == -1 then e.createdAt else e.lastAccessedAt
  }

  /** If every other key was used before, eviction takes the key just used only after all of
      them. */
  lemma LastUsedGoesLast(config: Config, dbs: seq<Db>, i: nat, tokens: seq<string>, key: string, op: KeyOp, now: int,
                         left: Db)
    requires config.policy == AllKeysLru && i < |dbs| && 0 <= now < MAX_LL
    requires Means(tokens, Single(key, op)) && Uses(op, Lookup(dbs[i], key, now))
    requires forall k :: k in dbs[i] && k != key ==> UsedAt(dbs[i][k]) < now
    requires Evicted(config, After(dbs, i, tokens, now)[i], left)
    ensures key in left || left == map[]
  {
    hide Reply, Means, Apply, Uses, Evicted;
    UseStamps(op, key, Lookup(dbs[i], key, now), now);
    Runs(dbs, i, tokens, key, op, now);
    var db := After(dbs, i, tokens, now)[i];
    assert key in db && UsedAt(db[key]) == now;
    forall k | k in db && k != key ensures UsedAt(db[k]) < now { assert k in dbs[i] - {key} && db[k] == dbs[i][k]; }
    hide After, OnlyKey, Lookup;
    OnlyIfAllGo(config, db, left, key, now);
  }

  lemma OnlyIfAllGo(config: Config, db: Db, left: Db, key: string, now: int)
    requires config.policy == AllKeysLru && Evicted(config, db, left) && now < MAX_LL
    requires key in db && UsedAt(db[key]) == now && forall k :: k in db && k != key ==> UsedAt(db[k]) < now
    ensures key in left || left == map[]
  {
    hide Over;
    if key !in left && left != map[] {
      var k :| k in left;
      assert StampsFit(db);
      LruOrder(config, db, left, key, k);
      assert false;
    }
  }
}
