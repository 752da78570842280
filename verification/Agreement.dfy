/** Every request depends on, and changes, the observable contents only: databases with the
    same contents give the same replies and end with the same contents. */
module Agreement {
  import opened Text
  import opened Values
  import opened Memory
  import opened Glob
  import opened Operations

  // ----- requests that attach an expiry time ----------------------------------------------------

  predicate OpSetsTtl(op: KeyOp, cur: Option<ValueObject>) {
    (op.Set? && op.ttlSeconds >= 0) || (op.Expire? && cur.Some?)
  }

  /** SET with EX, and EXPIRE on a key that is there. */
  predicate SetsTtl(request: Request, db: Db, now: int) {
    request.Single? && OpSetsTtl(request.op, Lookup(db, request.key, now))
  }

  predicate EntryNoTtl(e: Option<ValueObject>) {
    e.Some? ==> e.value.expiresAt == -1
  }

  // ----- one key -----------------------------------------------------------------------------------

  predicate SameEffect(f: Effect, g: Effect) {
    SameEntry(f.entry, g.entry) && f.reply == g.reply && f.evicts == g.evicts
  }

  /** Equal clocks, or nothing in sight that depends on the clock. */
  predicate ClockFree(op: KeyOp, cur: Option<ValueObject>, s: int, t: int) {
    s == t || (EntryNoTtl(cur) && !OpSetsTtl(op, cur))
  }

  lemma StringOpsAgree(op: KeyOp, key: string, a: Option<ValueObject>, b: Option<ValueObject>, s: int, t: int)
    requires SameEntry(a, b) && ClockFree(op, a, s, t)
    requires op.Set? || op.Get? || op.Exists? || op.Expire? || op.Ttl? || op.Persist? || op.IncrBy? || op.Append?
             || op.Strlen? || op.MemoryUsage? || op.Type?
    ensures SameEffect(Apply(op, key, a, s), Apply(op, key, b, t))
  {
    hide Number, EstimateBytes, ParseInteger, Show, Wrap;
  }

  lemma ListOpsAgree(op: KeyOp, key: string, a: Option<ValueObject>, b: Option<ValueObject>, s: int, t: int)
    requires SameEntry(a, b)
    requires op.LPush? || op.RPush? || op.LPop? || op.RPop? || op.LRange?
    ensures SameEffect(Apply(op, key, a, s), Apply(op, key, b, t))
  {
    hide Number, Line, Lines, NormalizeRange, Reversed, WrongType;
  }

  lemma HashOpsAgree(op: KeyOp, key: string, a: Option<ValueObject>, b: Option<ValueObject>, s: int, t: int)
    requires SameEntry(a, b)
    requires op.HSet? || op.HGet? || op.HDel? || op.HExists? || op.HGetAll?
    ensures SameEffect(Apply(op, key, a, s), Apply(op, key, b, t))
  {
    hide Number, Line, Lines, FieldLines, WrongType;
  }

  lemma SetChangesAgree(op: KeyOp, key: string, a: Option<ValueObject>, b: Option<ValueObject>, s: int, t: int)
    requires SameEntry(a, b)
    requires op.SAdd? || op.SRem?
    ensures SameEffect(Apply(op, key, a, s), Apply(op, key, b, t))
  {
    hide Number, WrongType, AsSet;
  }

  lemma SetReadsAgree(op: KeyOp, key: string, a: Option<ValueObject>, b: Option<ValueObject>, s: int, t: int)
    requires SameEntry(a, b)
    requires op.SIsMember? || op.SMembers? || op.SCard?
    ensures SameEffect(Apply(op, key, a, s), Apply(op, key, b, t))
  {
    hide Number, Lines, WrongType, Sorted;
  }

  lemma ApplyAgrees(op: KeyOp, key: string, a: Option<ValueObject>, b: Option<ValueObject>, s: int, t: int)
    requires SameEntry(a, b) && ClockFree(op, a, s, t)
    ensures SameEffect(Apply(op, key, a, s), Apply(op, key, b, t))
  {
    hide Apply, SameEffect;
    if op.LPush? || op.RPush? || op.LPop? || op.RPop? || op.LRange? {
      ListOpsAgree(op, key, a, b, s, t);
    } else if op.HSet? || op.HGet? || op.HDel? || op.HExists? || op.HGetAll? {
      HashOpsAgree(op, key, a, b, s, t);
    } else if op.SAdd? || op.SRem? {
      SetChangesAgree(op, key, a, b, s, t);
    } else if op.SIsMember? || op.SMembers? || op.SCard? {
      SetReadsAgree(op, key, a, b, s, t);
    } else {
      StringOpsAgree(op, key, a, b, s, t);
    }
  }

  /** Only SET with EX and a successful EXPIRE attach an expiry time. */
  lemma ApplyNoTtl(op: KeyOp, key: string, cur: Option<ValueObject>, now: int)
    requires EntryNoTtl(cur) && !OpSetsTtl(op, cur)
    ensures EntryNoTtl(Apply(op, key, cur, now).entry)
  {
    hide Number, Line, Lines, FieldLines, WrongType, EstimateBytes, ParseInteger, Show, Wrap, NormalizeRange, Reversed;
  }

  // ----- whole databases ---------------------------------------------------------------------------------

  /** The two databases look the same, at the clock reading each is looked at. */
  predicate Agree(a: Db, b: Db, s: int, t: int) {
    Live(a, s) == Live(b, t) && (s == t || (NoTtl(a) && NoTtl(b)))
  }

  lemma StoreAgrees(a: Db, b: Db, s: int, t: int, key: string, x: Option<ValueObject>, y: Option<ValueObject>)
    requires Agree(a, b, s, t) && SameEntry(x, y) && (s == t || EntryNoTtl(x))
    ensures Agree(Store(a, key, x), Store(b, key, y), s, t)
  {
    StoreKeepsAgreement(a, b, s, t, key, x, y);
  }

  lemma EntriesAgree(a: Db, b: Db, s: int, t: int, key: string)
    requires Agree(a, b, s, t)
    ensures SameEntry(Lookup(a, key, s), Lookup(b, key, t))
    ensures s == t || EntryNoTtl(Lookup(a, key, s))
  {
    LiveAgreesOnEntries(a, b, s, t, key);
  }

  lemma SingleAgrees(a: Db, b: Db, key: string, op: KeyOp, s: int, t: int)
    requires Agree(a, b, s, t) && (s == t || !OpSetsTtl(op, Lookup(a, key, s)))
    ensures Agree(RunSingle(a, key, op, s).db, RunSingle(b, key, op, t).db, s, t)
    ensures RunSingle(a, key, op, s).reply == RunSingle(b, key, op, t).reply
    ensures RunSingle(a, key, op, s).evicts == RunSingle(b, key, op, t).evicts
  {
    hide Apply, Agree, Lookup, Store, OpSetsTtl;
    EntriesAgree(a, b, s, t, key);
    var x, y := Lookup(a, key, s), Lookup(b, key, t);
    ApplyAgrees(op, key, x, y, s, t);
    if s != t { ApplyNoTtl(op, key, x, s); }
    StoreAgrees(a, b, s, t, key, Apply(op, key, x, s).entry, Apply(op, key, y, t).entry);
  }

  lemma {:induction false} MGetAgrees(a: Db, b: Db, keys: seq<string>, s: int, t: int)
    requires Agree(a, b, s, t)
    ensures Agree(RunMGet(a, keys, s).db, RunMGet(b, keys, t).db, s, t)
    ensures RunMGet(a, keys, s).reply == RunMGet(b, keys, t).reply
  {
    hide RunSingle, Agree;
    if keys != [] {
      var front := keys[..|keys| - 1];
      MGetAgrees(a, b, front, s, t);
      SingleAgrees(RunMGet(a, front, s).db, RunMGet(b, front, t).db, keys[|keys| - 1], Get, s, t);
    }
  }

  lemma {:induction false} StoreAllAgrees(a: Db, b: Db, entries: seq<(string, string)>, s: int, t: int)
    requires Agree(a, b, s, t)
    ensures Agree(StoreAll(a, entries, s), StoreAll(b, entries, t), s, t)
  {
    if entries != [] {
      var front := entries[..|entries| - 1];
      var last := entries[|entries| - 1];
      StoreAllAgrees(a, b, front, s, t);
      hide Agree;
      StoreAgrees(StoreAll(a, front, s), StoreAll(b, front, t), s, t, last.0,
                  Some(StringObject(last.1, s, -1, s)), Some(StringObject(last.1, t, -1, t)));
    }
  }

  lemma RenameAgrees(a: Db, b: Db, source: string, destination: string, s: int, t: int)
    requires Agree(a, b, s, t)
    ensures Agree(RunRename(a, source, destination, s).db, RunRename(b, source, destination, t).db, s, t)
    ensures RunRename(a, source, destination, s).reply == RunRename(b, source, destination, t).reply
    ensures RunRename(a, source, destination, s).evicts == RunRename(b, source, destination, t).evicts
  {
    hide Agree;
    EntriesAgree(a, b, s, t, source);
    var x, y := Lookup(a, source, s), Lookup(b, source, t);
    if x.None? {
      StoreAgrees(a, b, s, t, source, None, None);
    } else if source != destination {
      var u, v := Some(Touch(x.value, s)), Some(Touch(y.value, t));
      StoreAgrees(a, b, s, t, destination, u, v);
      StoreAgrees(Store(a, destination, u), Store(b, destination, v), s, t, source, None, None);
    }
  }

  lemma PurgeAgrees(a: Db, b: Db, s: int, t: int)
    requires Agree(a, b, s, t)
    ensures Agree(Purge(a, s), Purge(b, t), s, t)
    ensures Purge(a, s).Keys == Purge(b, t).Keys && |Purge(a, s)| == |Purge(b, t)|
    ensures EntrySizes(Purge(a, s)) == EntrySizes(Purge(b, t))
  {
    hide EstimateBytes;
    LiveOfPurge(a, s, s);
    LiveOfPurge(b, t, t);
    assert Purge(a, s).Keys == Live(a, s).Keys && Purge(b, t).Keys == Live(b, t).Keys;
    assert |Purge(a, s)| == |Purge(a, s).Keys| && |Purge(b, t)| == |Purge(b, t).Keys|;
    forall k | k in Purge(a, s) ensures ContentOf(Purge(a, s)[k]) == ContentOf(Purge(b, t)[k]) {
      assert Live(a, s)[k] == Live(b, t)[k];
    }
  }

  lemma ListingAgrees(request: Request, a: Db, b: Db, s: int, t: int)
    requires request.Keys? || request.Scan? || request.DbSize? || request.Info?
    requires Agree(a, b, s, t)
    ensures Agree(Run(request, a, s).db, Run(request, b, t).db, s, t)
    ensures Run(request, a, s).reply == Run(request, b, t).reply
  {
    hide Agree, Purge, EntrySizes, Lines, Number, MatchesPattern;
    PurgeAgrees(a, b, s, t);
    var x, y := Purge(a, s), Purge(b, t);
    if request.Keys? || request.Scan? {
      assert MatchingKeys(x, request.pattern) == MatchingKeys(y, request.pattern) by {
        assert forall k :: k in x <==> k in x.Keys;
        assert forall k :: k in y <==> k in y.Keys;
      }
    }
  }

  /** The central fact. Running a request on two databases with the same contents leaves them
      with the same contents and sends the same reply; only DEL's count may differ, since it
      counts an expired entry that has not been removed yet. With no expiry times around, the
      two runs may even happen at different times. */
  lemma RunAgrees(request: Request, a: Db, b: Db, s: int, t: int)
    requires Agree(a, b, s, t) && (s == t || !SetsTtl(request, a, s))
    ensures Agree(Run(request, a, s).db, Run(request, b, t).db, s, t)
    ensures !request.Del? ==> Run(request, a, s).reply == Run(request, b, t).reply
    ensures Run(request, a, s).evicts == Run(request, b, t).evicts
  {
    match request {
      case Single(key, op) => hide Agree, RunSingle; SingleAgrees(a, b, key, op, s, t);
      case Del(key) => hide Agree; StoreAgrees(a, b, s, t, key, None, None);
      case MGet(keys) =>
        hide Agree, RunMGet;
        MGetAgrees(a, b, keys, s, t);
        MGetNeverEvicts(a, keys, s);
        MGetNeverEvicts(b, keys, t);
      case MSet(entries) => hide Agree, StoreAll; StoreAllAgrees(a, b, entries, s, t);
      case Rename(source, destination) => hide Agree, RunRename; RenameAgrees(a, b, source, destination, s, t);
      case FlushDb => assert Live(map[], s) == Live(map[], t);
      case Reject(_) =>
      case Ping =>
      case _ => hide Agree, Purge, Lines, InfoText, Number; ListingAgrees(request, a, b, s, t);
    }
  }

  lemma MGetNeverEvicts(db: Db, keys: seq<string>, now: int)
    ensures !RunMGet(db, keys, now).evicts
  {
  }
}
