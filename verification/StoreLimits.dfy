/** The configured limits under allkeys-lru and random: every command, and every load of a
    snapshot, leaves every database within both limits. */
module StoreLimits {
  import opened Text
  import opened Values
  import opened Memory
  import opened Operations
  import opened Commands
  import opened Execution
  import opened Eviction
  import opened Snapshot

  // ----- operations that do not evict do not grow -------------------------------------------------------

  predicate NoBigger(key: string, cur: Option<ValueObject>, entry: Option<ValueObject>) {
    entry.Some? ==>
      cur.Some? && EstimateBytes(key, ContentOf(entry.value)) <= EstimateBytes(key, ContentOf(cur.value))
  }

  lemma {:induction false} ListBytesFromFront(list: seq<string>)
    requires list != []
    ensures ListBytes(list) == |list[0]| + STRING_SIZE + ListBytes(list[1..])
    decreases |list|
  {
    if |list| == 1 {
      assert list[1..] == [] && list[..0] == [];
    } else {
      var front := list[..|list| - 1];
      ListBytesFromFront(front);
      assert front[1..] == list[1..][..|list| - 2];
    }
  }

  lemma PopShrinks(op: KeyOp, key: string, cur: Option<ValueObject>, now: int)
    requires op.LPop? || op.RPop?
    ensures NoBigger(key, cur, Apply(op, key, cur, now).entry)
  {
    hide Sum, Line, WrongType;
    if cur.Some? && cur.value.list != [] { ListBytesFromFront(cur.value.list); }
  }

  lemma RemoveShrinks(op: KeyOp, key: string, cur: Option<ValueObject>, now: int)
    requires op.HDel? || op.SRem?
    ensures NoBigger(key, cur, Apply(op, key, cur, now).entry)
  {
    hide Sum, Number, WrongType, ListBytes;
    if cur.Some? {
      if op.HDel? {
        SumOfFewer(FieldSizes(cur.value.hash), FieldSizes(cur.value.hash - {op.field}));
      } else {
        SumOfFewer(MemberSizes(cur.value.members), MemberSizes(cur.value.members - AsSet(op.items)));
      }
    }
  }

  lemma OthersKeepSize(op: KeyOp, key: string, cur: Option<ValueObject>, now: int)
    requires !ReadsKey(op) && !op.LPop? && !op.RPop? && !op.HDel? && !op.SRem? && !Apply(op, key, cur, now).evicts
    ensures NoBigger(key, cur, Apply(op, key, cur, now).entry)
  {
    hide Sum, ListBytes, Number, WrongType, Show, Wrap, ParseInteger, Reversed, FieldSizes, MemberSizes;
  }

  lemma NotEvictingShrinks(op: KeyOp, key: string, cur: Option<ValueObject>, now: int)
    requires !Apply(op, key, cur, now).evicts
    ensures NoBigger(key, cur, Apply(op, key, cur, now).entry)
  {
    hide Apply, EstimateBytes;
    if ReadsKey(op) {
      ReadKeepsEntry(op, key, cur, now);
    } else if op.LPop? || op.RPop? {
      PopShrinks(op, key, cur, now);
    } else if op.HDel? || op.SRem? {
      RemoveShrinks(op, key, cur, now);
    } else {
      OthersKeepSize(op, key, cur, now);
    }
  }

  predicate NoLarger(after: Db, before: Db) {
    |after| <= |before| && TotalBytes(after) <= TotalBytes(before)
  }

  lemma StoreNoLarger(db: Db, key: string, entry: Option<ValueObject>, now: int)
    requires NoBigger(key, Lookup(db, key, now), entry)
    ensures NoLarger(Store(db, key, entry), db)
  {
    hide TotalBytes, EstimateBytes;
    match entry {
      case None => SubDbIsSmaller(db - {key}, db);
      case Some(e) =>
        TotalOfReplace(db, key, e);
        TotalTakeOut(db, key);
        assert db[key := e].Keys == db.Keys;
        assert |db[key := e]| == |db[key := e].Keys| && |db| == |db.Keys|;
    }
  }

  lemma SingleNoLarger(db: Db, key: string, op: KeyOp, now: int)
    requires !RunSingle(db, key, op, now).evicts
    ensures NoLarger(RunSingle(db, key, op, now).db, db)
  {
    hide Apply, NoLarger, NoBigger, Store, Lookup;
    NotEvictingShrinks(op, key, Lookup(db, key, now), now);
    StoreNoLarger(db, key, Apply(op, key, Lookup(db, key, now), now).entry, now);
  }

  lemma {:induction false} MGetNoLarger(db: Db, keys: seq<string>, now: int)
    ensures NoLarger(RunMGet(db, keys, now).db, db)
  {
    hide TotalBytes, Apply, Store, Lookup;
    if keys != [] {
      var front := keys[..|keys| - 1];
      MGetNoLarger(db, front, now);
      ReadKeepsEntry(Get, keys[|keys| - 1], Lookup(RunMGet(db, front, now).db, keys[|keys| - 1], now), now);
      SingleNoLarger(RunMGet(db, front, now).db, keys[|keys| - 1], Get, now);
    }
  }

  lemma SubsetsAreNoLarger(db: Db, key: string, now: int)
    ensures NoLarger(db, db) && NoLarger(db - {key}, db) && NoLarger(Purge(db, now), db) && NoLarger(map[], db)
  {
    hide TotalBytes;
    SubDbIsSmaller(db - {key}, db);
    SubDbIsSmaller(Purge(db, now), db);
    SubDbIsSmaller(map[], db);
  }

  /** A request that does not evict leaves no more keys and no more bytes than it found. */
  lemma NotEvictingNoLarger(request: Request, db: Db, now: int)
    requires !Run(request, db, now).evicts
    ensures NoLarger(Run(request, db, now).db, db)
  {
    hide RunSingle, RunMGet, StoreAll, NoLarger, Lines, Number, InfoText, Purge, Lookup;
    SubsetsAreNoLarger(db, if request.Del? then request.key else if request.Rename? then request.source else "", now);
    match request {
      case Single(key, op) => SingleNoLarger(db, key, op, now);
      case MGet(keys) => MGetNoLarger(db, keys, now);
      case _ =>
    }
  }

  // ----- access stamps stay in range ----------------------------------------------------------------------

  predicate StampFits(e: Option<ValueObject>) {
    e.Some? ==> Stamp(e.value) < MAX_LL
  }

  lemma ApplyKeepsStamp(op: KeyOp, key: string, cur: Option<ValueObject>, now: int)
    requires StampFits(cur) && 0 <= now < MAX_LL
    ensures StampFits(Apply(op, key, cur, now).entry)
  {
    hide Number, Line, Lines, FieldLines, WrongType, EstimateBytes, ParseInteger, Show, Wrap, NormalizeRange, Reversed;
  }

  lemma SingleKeepsStamps(db: Db, key: string, op: KeyOp, now: int)
    requires StampsFit(db) && 0 <= now < MAX_LL
    ensures StampsFit(RunSingle(db, key, op, now).db)
  {
    hide Apply;
    ApplyKeepsStamp(op, key, Lookup(db, key, now), now);
  }

  lemma {:induction false} MGetKeepsStamps(db: Db, keys: seq<string>, now: int)
    requires StampsFit(db) && 0 <= now < MAX_LL
    ensures StampsFit(RunMGet(db, keys, now).db)
  {
    hide RunSingle, StampsFit;
    if keys != [] {
      MGetKeepsStamps(db, keys[..|keys| - 1], now);
      SingleKeepsStamps(RunMGet(db, keys[..|keys| - 1], now).db, keys[|keys| - 1], Get, now);
    }
  }

  lemma {:induction false} StoreAllKeepsStamps(db: Db, entries: seq<(string, string)>, now: int)
    requires StampsFit(db) && 0 <= now < MAX_LL
    ensures StampsFit(StoreAll(db, entries, now))
  {
    if entries != [] { StoreAllKeepsStamps(db, entries[..|entries| - 1], now); }
  }

  lemma RunKeepsStamps(request: Request, db: Db, now: int)
    requires StampsFit(db) && 0 <= now < MAX_LL
    ensures StampsFit(Run(request, db, now).db)
  {
    hide RunSingle, RunMGet, StoreAll, Lines, Number, InfoText;
    match request {
      case Single(key, op) => SingleKeepsStamps(db, key, op, now);
      case MGet(keys) => MGetKeepsStamps(db, keys, now);
      case MSet(entries) => StoreAllKeepsStamps(db, entries, now);
      case _ =>
    }
  }

  // ----- whole runs, all databases ----------------------------------------------------------------------------

  /** The databases after the eviction that a command ends with. */
  ghost predicate SettledBy(config: Config, x: Executed, after: seq<Db>) {
    && |after| == |x.dbs|
    && forall k :: 0 <= k < |after| ==>
         if x.evictIn == Some(k) then Evicted(config, x.dbs[k], after[k]) else after[k] == x.dbs[k]
  }

  predicate Good(config: Config, db: Db) {
    !Over(config, db) && StampsFit(db)
  }

  predicate AllGood(config: Config, dbs: seq<Db>) {
    forall k :: 0 <= k < |dbs| ==> Good(config, dbs[k])
  }

  predicate EvictsFromAll(config: Config) {
    config.policy == AllKeysLru || config.policy == Random
  }

  lemma EvictedIsGood(config: Config, before: Db, after: Db)
    requires EvictsFromAll(config) && StampsFit(before) && Evicted(config, before, after)
    ensures Good(config, after)
  {
    hide TotalBytes;
    AllKeysMeetsLimits(config, before, after);
  }

  lemma NoLargerIsGood(config: Config, before: Db, after: Db)
    requires !Over(config, before) && NoLarger(after, before) && StampsFit(after)
    ensures Good(config, after)
  {
  }

  lemma MoveStaysGood(config: Config, source: Db, destination: Db, key: string, now: int)
    requires Good(config, source) && Good(config, destination) && 0 <= now < MAX_LL
    ensures Good(config, MoveKey(source, destination, key, now).source)
    ensures StampsFit(MoveKey(source, destination, key, now).destination)
    ensures !MoveKey(source, destination, key, now).moved ==>
              MoveKey(source, destination, key, now).destination == destination
  {
    hide Over, Lookup;
    TakenOutIsGood(config, source, key);
  }

  lemma TakenOutIsGood(config: Config, db: Db, key: string)
    requires Good(config, db)
    ensures Good(config, db - {key})
  {
    hide TotalBytes, Stamp;
    SubDbIsSmaller(db - {key}, db);
  }

  lemma InOneStaysGood(config: Config, dbs: seq<Db>, i: nat, request: Request, now: int, after: seq<Db>)
    requires EvictsFromAll(config) && AllGood(config, dbs) && i < |dbs| && 0 <= now < MAX_LL
    requires SettledBy(config, ExecuteInOne(dbs, i, request, now), after)
    ensures AllGood(config, after)
  {
    hide Run, Over, Evicted, StampsFit, EvictsFromAll, NoLarger;
    RunKeepsStamps(request, dbs[i], now);
    if Run(request, dbs[i], now).evicts {
      EvictedIsGood(config, Run(request, dbs[i], now).db, after[i]);
    } else {
      NotEvictingNoLarger(request, dbs[i], now);
      NoLargerIsGood(config, dbs[i], Run(request, dbs[i], now).db);
    }
  }

  lemma MovedStaysGood(config: Config, dbs: seq<Db>, i: nat, key: string, j: nat, now: int, after: seq<Db>)
    requires EvictsFromAll(config) && AllGood(config, dbs) && i < |dbs| && j < |dbs| && 0 <= now < MAX_LL
    requires SettledBy(config, MoveBetween(dbs, i, key, j, now), after)
    ensures AllGood(config, after)
  {
    hide MoveKey, Good, Evicted, EvictsFromAll, StampsFit;
    if i != j {
      var m := MoveKey(dbs[i], dbs[j], key, now);
      MoveStaysGood(config, dbs[i], dbs[j], key, now);
      assert MoveBetween(dbs, i, key, j, now).dbs == dbs[i := m.source][j := m.destination];
      if m.moved { EvictedIsGood(config, m.destination, after[j]); }
    }
  }

  lemma MoveCommandStaysGood(config: Config, dbs: seq<Db>, i: nat, tokens: seq<string>, now: int, after: seq<Db>)
    requires EvictsFromAll(config) && AllGood(config, dbs) && i < |dbs| && 0 <= now < MAX_LL
    requires SettledBy(config, ExecuteMove(dbs, i, tokens, now), after)
    ensures AllGood(config, after)
  {
    hide MoveBetween, Good, Evicted, EvictsFromAll, DatabaseIndex, StampsFit;
    if |tokens| == 3 && DatabaseIndex(tokens[2], |dbs|).Some? {
      MovedStaysGood(config, dbs, i, tokens[1], DatabaseIndex(tokens[2], |dbs|).value, now, after);
    }
  }

  /** A data command in any database, with the eviction it ends with. */
  lemma CommandStaysGood(config: Config, dbs: seq<Db>, i: nat, tokens: seq<string>, now: int, after: seq<Db>)
    requires EvictsFromAll(config) && AllGood(config, dbs) && i < |dbs| && 0 <= now < MAX_LL
    requires SettledBy(config, Execute(dbs, i, tokens, now), after)
    ensures AllGood(config, after)
  {
    hide EvictsFromAll, Good, Evicted, CommandName, Decode, ExecuteMove, ExecuteInOne;
    if CommandName(tokens) == MOVE {
      MoveCommandStaysGood(config, dbs, i, tokens, now, after);
    } else if CommandName(tokens) == FLUSHALL {
      EmptyIsGood(config);
    } else {
      InOneStaysGood(config, dbs, i, Decode(tokens), now, after);
    }
  }

  lemma EmptyIsGood(config: Config)
    ensures Good(config, map[])
  {
    EmptyIsWithin(config);
  }

  lemma PurgedIsGood(config: Config, db: Db, now: int)
    requires Good(config, db)
    ensures Good(config, Purge(db, now))
  {
    hide TotalBytes;
    SubDbIsSmaller(Purge(db, now), db);
  }

  // ----- start-up -------------------------------------------------------------------------------------------

  /** The intended databases, or what an eviction loop left of them. */
  ghost predicate AllKept(config: Config, ideal: seq<Db>, after: seq<Db>) {
    && |after| == |ideal|
    && forall k :: 0 <= k < |ideal| ==> after[k] == ideal[k] || Evicted(config, ideal[k], after[k])
  }

  ghost predicate AllEvicted(config: Config, ideal: seq<Db>, after: seq<Db>) {
    |after| == |ideal| && forall k :: 0 <= k < |ideal| ==> Evicted(config, ideal[k], after[k])
  }

  /** An empty database is what eviction leaves of an empty database. */
  lemma NothingEvicted(config: Config)
    ensures Evicted(config, map[], map[])
  {
    EmptyIsWithin(config);
  }

  predicate Unstamped(xs: seq<Entry>) {
    forall i :: 0 <= i < |xs| ==> xs[i].value.lastAccessedAt == -1
  }

  lemma ReadEntryIsUnstamped(input: string)
    ensures ReadEntry(input).Got? ==> ReadEntry(input).value.value.lastAccessedAt == -1
  {
    hide ReadBulk, ReadSize, ReadLongLong, ReadFields, ReadBulks, TypeNamed;
  }

  lemma {:induction false} EntryListIsUnstamped(input: string, count: nat, read: seq<Entry>)
    requires Unstamped(read)
    ensures ReadEntryList(input, count, read).Got? ==> Unstamped(ReadEntryList(input, count, read).value)
    decreases count
  {
    hide ReadEntry;
    if count > 0 && ReadEntry(input).Got? {
      ReadEntryIsUnstamped(input);
      EntryListIsUnstamped(ReadEntry(input).rest, count - 1, read + [ReadEntry(input).value]);
    }
  }

  lemma {:induction false} LoadedStampsFit(xs: seq<Entry>, now: int)
    requires Unstamped(xs) && 0 <= now < MAX_LL
    ensures StampsFit(LoadEntries(xs, now))
  {
    if xs != [] { LoadedStampsFit(xs[..|xs| - 1], now); }
  }

  lemma ReadStampsFit(input: string, now: int)
    requires 0 <= now < MAX_LL
    ensures ReadEntries(input).Got? ==> StampsFit(LoadEntries(ReadEntries(input).value, now))
  {
    hide ReadEntryList, LoadEntries, ReadSize, StampsFit;
    if ReadEntries(input).Got? {
      EntryListIsUnstamped(ReadSize(input).rest, ReadSize(input).value, []);
      LoadedStampsFit(ReadEntries(input).value, now);
    }
  }

  predicate AllStampsFit(dbs: seq<Db>) {
    forall k :: 0 <= k < |dbs| ==> StampsFit(dbs[k])
  }

  lemma {:induction false} LoadDbsStampsFit(input: string, i: nat, count: nat, dbs: seq<Db>, now: int)
    requires i <= count && AllStampsFit(dbs) && 0 <= now < MAX_LL
    ensures AllStampsFit(LoadDbs(input, i, count, dbs, now).dbs)
    decreases count - i
  {
    hide ReadEntries, LoadEntries, StampsFit;
    EmptyStampsFit();
    if i < count && ReadEntries(input).Got? {
      ReadStampsFit(input, now);
      var loaded := LoadEntries(ReadEntries(input).value, now);
      LoadDbsStampsFit(ReadEntries(input).rest, i + 1, count, if i < |dbs| then dbs[i := loaded] else dbs, now);
    }
  }

  lemma EmptyStampsFit()
    ensures StampsFit(map[])
  {
  }

  /** Whatever file is loaded, the access stamps are in range. */
  lemma LoadStampsFit(file: Option<string>, dbs: seq<Db>, now: int)
    requires dbs != [] && AllStampsFit(dbs) && 0 <= now < MAX_LL
    ensures AllStampsFit(Load(file, dbs, now).dbs)
  {
    hide ReadEntries, LoadEntries, StampsFit, LoadDbs, ReadLine, ReadSize;
    EmptyStampsFit();
    if file.Some? && ReadLine(file.value).Got? {
      var rest := ReadLine(file.value).rest;
      ReadStampsFit(rest, now);
      if ReadSize(rest).Got? { LoadDbsStampsFit(ReadSize(rest).rest, 0, ReadSize(rest).value, dbs, now); }
    }
  }

  lemma AllEvictedIsGood(config: Config, ideal: seq<Db>, after: seq<Db>)
    requires EvictsFromAll(config) && AllStampsFit(ideal) && AllEvicted(config, ideal, after)
    ensures AllGood(config, after)
  {
    hide Good, Evicted, StampsFit, EvictsFromAll;
    forall k | 0 <= k < |after| ensures Good(config, after[k]) { EvictedIsGood(config, ideal[k], after[k]); }
  }
}
