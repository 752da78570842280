/** Eviction (`overEvictionLimitLocked`, `evictOneLocked`, `evictIfNeededLocked`): when it is
    due, which key goes, and what the whole loop may have done by the time it ends. */
module Eviction {
  import opened Text
  import opened Values
  import opened Memory

  datatype Policy = NoEviction | AllKeysLru | VolatileLru | TtlPriority | Random

  datatype Config = Config(maxKeys: nat, maxMemory: nat, policy: Policy)

  /** A zero limit is no limit. */
  predicate Over(config: Config, db: Db) {
    (config.maxKeys > 0 && |db| > config.maxKeys) ||
    (config.maxMemory > 0 && TotalBytes(db) > config.maxMemory)
  }

  function Stamp(e: ValueObject): int {
    if e.lastAccessedAt == -1 then e.createdAt else e.lastAccessedAt
  }

  /** What a policy orders keys by, least first. */
  function Rank(policy: Policy, e: ValueObject): int {
    match policy
    case AllKeysLru => Stamp(e)
    case VolatileLru => Stamp(e)
    case TtlPriority => e.expiresAt
    case _ => 0
  }

  /** Keys a policy may pick; the scans compare with `<` from the 64-bit maximum, so an entry
      with that rank is never picked. */
  predicate Choosable(policy: Policy, e: ValueObject) {
    && policy != NoEviction
    && ((policy == VolatileLru || policy == TtlPriority) ==> e.expiresAt != -1)
    && Rank(policy, e) < MAX_LL
  }

  predicate IsVictim(policy: Policy, db: Db, k: string) {
    && k in db && Choosable(policy, db[k])
    && forall j :: j in db && Choosable(policy, db[j]) ==> Rank(policy, db[k]) <= Rank(policy, db[j])
  }

  predicate SubDb(a: Db, b: Db) {
    forall k :: k in a ==> k in b && a[k] == b[k]
  }

  /** Of the keys lost from `before` to `after`, `v` is the last in the policy's order, and
      with it back the limits are exceeded. */
  predicate LastVictim(config: Config, before: Db, after: Db, v: string) {
    && v in before && v !in after && Over(config, after[v := before[v]])
    && forall w :: w in before && w !in after ==> Rank(config.policy, before[w]) <= Rank(config.policy, before[v])
  }

  /** What an eviction loop may leave: survivors unchanged; only choosable keys lost, each no
      later in the policy's order than every choosable survivor; nothing lost beyond need; and
      either the limits are met or nothing is left to choose. */
  ghost predicate Evicted(config: Config, before: Db, after: Db) {
    && Trimmed(config, before, after)
    && (!Over(config, after) || forall k :: k in after ==> !Choosable(config.policy, after[k]))
  }

  /** The same, before the loop has ended. */
  ghost predicate Trimmed(config: Config, before: Db, after: Db) {
    && SubDb(after, before)
    && (forall v :: v in before && v !in after ==> Choosable(config.policy, before[v]))
    && (forall v, k :: v in before && v !in after && k in after && Choosable(config.policy, after[k])
          ==> Rank(config.policy, before[v]) <= Rank(config.policy, after[k]))
    && (after == before || exists v :: LastVictim(config, before, after, v))
  }

  // ----- one turn of the loop -------------------------------------------------------------------------

  lemma EvictOneMore(config: Config, before: Db, now: Db, k: string)
    requires Trimmed(config, before, now) && Over(config, now) && IsVictim(config.policy, now, k)
    ensures Trimmed(config, before, now - {k})
  {
    hide Over, Rank;
    var after := now - {k};
    assert after[k := before[k]] == now;
    assert LastVictim(config, before, after, k) by {
      forall w | w in before && w !in after ensures Rank(config.policy, before[w]) <= Rank(config.policy, before[k]) {
        if w in now { assert w == k; }
      }
    }
  }

  // ----- consequences ------------------------------------------------------------------------------------

  /** Fewer entries, no more keys and no more bytes. */
  lemma {:induction false} SumOfFewer(m: map<string, nat>, keep: map<string, nat>)
    requires forall k :: k in keep ==> k in m && keep[k] == m[k]
    ensures Sum(keep) <= Sum(m)
    decreases |m|
  {
    if m == map[] {
      assert keep == map[];
    } else {
      var k := LeastKey(m);
      assert (m - {k}).Keys == m.Keys - {k};
      SumOfFewer(m - {k}, keep - {k});
      if k in keep { SumTakeOut(keep, k); } else { assert keep - {k} == keep; }
    }
  }

  lemma SubDbIsSmaller(a: Db, b: Db)
    requires SubDb(a, b)
    ensures |a| <= |b| && TotalBytes(a) <= TotalBytes(b)
  {
    hide EstimateBytes, Sum;
    SumOfFewer(EntrySizes(b), EntrySizes(a));
    assert |a| == |a.Keys| && |b| == |b.Keys|;
    FewerMembers(a.Keys, b.Keys);
  }

  /** Restoring any part of what was evicted cannot bring the limits back. */
  lemma OverIsMonotone(config: Config, a: Db, b: Db)
    requires SubDb(a, b) && Over(config, a)
    ensures Over(config, b)
  {
    SubDbIsSmaller(a, b);
  }

  /** Nothing is evicted while the limits are met. */
  lemma NoNeedNoEviction(config: Config, before: Db, after: Db)
    requires Evicted(config, before, after)
    requires config.maxKeys > 0 ==> |before| <= config.maxKeys
    requires config.maxMemory > 0 ==> TotalBytes(before) <= config.maxMemory
    ensures after == before
  {
    hide TotalBytes;
    assert !Over(config, before);
    hide Over, Rank;
    if after != before {
      var v :| LastVictim(config, before, after, v);
      OverIsMonotone(config, after[v := before[v]], before);
    }
  }

  /** Without limits, or without a policy, nothing is evicted. */
  lemma SwitchedOff(config: Config, before: Db, after: Db)
    requires Evicted(config, before, after)
    requires config.policy == NoEviction || (config.maxKeys == 0 && config.maxMemory == 0)
    ensures after == before
  {
    hide TotalBytes;
    if config.policy == NoEviction {
      assert forall v :: v in before ==> v in after;
    } else {
      NoNeedNoEviction(config, before, after);
    }
  }

  /** Every access stamp is below the 64-bit maximum. */
  predicate StampsFit(db: Db) {
    forall k :: k in db ==> Stamp(db[k]) < MAX_LL
  }

  predicate ExpiriesFit(db: Db) {
    forall k :: k in db ==> db[k].expiresAt < MAX_LL
  }

  /** Under allkeys-lru and random the loop always gets within both limits. */
  lemma AllKeysMeetsLimits(config: Config, before: Db, after: Db)
    requires Evicted(config, before, after)
    requires config.policy == Random || (config.policy == AllKeysLru && StampsFit(before))
    ensures config.maxKeys > 0 ==> |after| <= config.maxKeys
    ensures config.maxMemory > 0 ==> TotalBytes(after) <= config.maxMemory
  {
    EmptyIsWithin(config);
    hide TotalBytes;
    if after != map[] {
      var k :| k in after;
      assert Choosable(config.policy, after[k]);
    }
  }

  lemma EmptyIsWithin(config: Config)
    ensures !Over(config, map[])
  {
    assert EntrySizes(map[]) == map[];
  }

  /** Under the two volatile policies the loop ends within the limits, or with no key left that
      carries an expiry time; keys without one always survive. */
  lemma VolatileEndsWell(config: Config, before: Db, after: Db)
    requires Evicted(config, before, after)
    requires (config.policy == VolatileLru && StampsFit(before)) ||
             (config.policy == TtlPriority && ExpiriesFit(before))
    ensures (forall k :: k in after ==> after[k].expiresAt == -1) || !(config.maxKeys > 0 && |after| > config.maxKeys)
    ensures (forall k :: k in after ==> after[k].expiresAt == -1) ||
            !(config.maxMemory > 0 && TotalBytes(after) > config.maxMemory)
    ensures forall k :: k in before && before[k].expiresAt == -1 ==> k in after && after[k] == before[k]
  {
    hide TotalBytes;
  }

  /** The order of eviction, least recently used first: no evicted key was used later than any
      surviving key that could have been evicted. */
  lemma LruOrder(config: Config, before: Db, after: Db, v: string, k: string)
    requires Evicted(config, before, after) && StampsFit(before)
    requires config.policy == AllKeysLru || config.policy == VolatileLru
    requires v in before && v !in after && k in after && (config.policy == VolatileLru ==> after[k].expiresAt != -1)
    ensures (if before[v].lastAccessedAt == -1 then before[v].createdAt else before[v].lastAccessedAt) <=
            (if before[k].lastAccessedAt == -1 then before[k].createdAt else before[k].lastAccessedAt)
    ensures config.policy == VolatileLru ==> before[v].expiresAt != -1
  {
    hide Over;
  }

  /** And under ttl-priority, soonest expiry first. */
  lemma TtlOrder(config: Config, before: Db, after: Db, v: string, k: string)
    requires Evicted(config, before, after) && config.policy == TtlPriority && ExpiriesFit(before)
    requires v in before && v !in after && k in after && after[k].expiresAt != -1
    ensures before[v].expiresAt != -1 && before[v].expiresAt <= before[k].expiresAt
  {
    hide Over;
  }

  /** Eviction stops as early as it can: whatever else of the losses is kept, a database that
      still holds the last victim exceeds a limit. */
  lemma NoShorterEviction(config: Config, before: Db, after: Db) returns (v: string)
    requires Evicted(config, before, after) && after != before
    ensures v in before && v !in after
    ensures forall w :: w in before && w !in after ==> Rank(config.policy, before[w]) <= Rank(config.policy, before[v])
    ensures forall mid: Db :: SubDb(after, mid) && SubDb(mid, before) && v in mid ==>
              (config.maxKeys > 0 && |mid| > config.maxKeys) ||
              (config.maxMemory > 0 && TotalBytes(mid) > config.maxMemory)
  {
    hide Rank, TotalBytes;
    v :| LastVictim(config, before, after, v);
    forall mid: Db | SubDb(after, mid) && SubDb(mid, before) && v in mid ensures Over(config, mid) {
      OverIsMonotone(config, after[v := before[v]], mid);
    }
  }
}
