/** The shape of stored values: payload fields of other types are empty, and no stored list,
    hash or set is empty. Every request keeps it. */
module Shape {
  import opened Text
  import opened Values
  import opened Operations
  import opened Commands

  predicate Shaped(e: ValueObject) {
    match e.kind
    case StringType => e.list == [] && e.hash == map[] && e.members == {}
    case ListType => e.value == "" && e.list != [] && e.hash == map[] && e.members == {}
    case HashType => e.value == "" && e.list == [] && e.hash != map[] && e.members == {}
    case SetType => e.value == "" && e.list == [] && e.hash == map[] && e.members != {}
  }

  predicate WellShaped(db: Db) {
    forall k :: k in db ==> Shaped(db[k])
  }

  predicate ShapedEntry(e: Option<ValueObject>) {
    e.Some? ==> Shaped(e.value)
  }

  /** Pushes and additions carry at least one element, as their arity checks demand. */
  predicate NonEmptyArguments(op: KeyOp) {
    (op.LPush? || op.RPush? ==> op.values != []) && (op.SAdd? ==> op.items != [])
  }

  lemma DecodeGivesArguments(tokens: seq<string>)
    ensures Decode(tokens).Single? ==> NonEmptyArguments(Decode(tokens).op)
  {
    hide CommandName, ParseInteger, ToUpper;
  }

  lemma SameContentSameShape(a: Option<ValueObject>, b: Option<ValueObject>)
    requires SameEntry(a, b) && ShapedEntry(a)
    ensures ShapedEntry(b)
  {
  }

  lemma StringOpsKeepShape(op: KeyOp, key: string, cur: Option<ValueObject>, now: int)
    requires ShapedEntry(cur)
    requires op.Set? || op.Expire? || op.Persist? || op.IncrBy? || op.Append?
    ensures ShapedEntry(Apply(op, key, cur, now).entry)
  {
    hide Number, ParseInteger, Show, Wrap, WrongType;
  }

  lemma ListOpsKeepShape(op: KeyOp, key: string, cur: Option<ValueObject>, now: int)
    requires ShapedEntry(cur) && NonEmptyArguments(op)
    requires op.LPush? || op.RPush? || op.LPop? || op.RPop?
    ensures ShapedEntry(Apply(op, key, cur, now).entry)
  {
    hide Number, Line, WrongType;
  }

  lemma HashOpsKeepShape(op: KeyOp, key: string, cur: Option<ValueObject>, now: int)
    requires ShapedEntry(cur) && (op.HSet? || op.HDel?)
    ensures ShapedEntry(Apply(op, key, cur, now).entry)
  {
    hide WrongType;
    if op.HSet? {
      assert op.field in map[op.field := op.content];
      if cur.Some? { assert op.field in cur.value.hash[op.field := op.content]; }
    }
  }

  lemma SetOpsKeepShape(op: KeyOp, key: string, cur: Option<ValueObject>, now: int)
    requires ShapedEntry(cur) && NonEmptyArguments(op) && (op.SAdd? || op.SRem?)
    ensures ShapedEntry(Apply(op, key, cur, now).entry)
  {
    if op.SAdd? { assert op.items[0] in AsSet(op.items); }
    hide Number, WrongType, AsSet;
  }

  lemma ApplyKeepsShape(op: KeyOp, key: string, cur: Option<ValueObject>, now: int)
    requires ShapedEntry(cur) && NonEmptyArguments(op)
    ensures ShapedEntry(Apply(op, key, cur, now).entry)
  {
    hide Apply, ShapedEntry, NonEmptyArguments;
    if ReadsKey(op) {
      ReadKeepsEntry(op, key, cur, now);
      SameContentSameShape(cur, Apply(op, key, cur, now).entry);
    } else if op.LPush? || op.RPush? || op.LPop? || op.RPop? {
      ListOpsKeepShape(op, key, cur, now);
    } else if op.HSet? || op.HDel? {
      HashOpsKeepShape(op, key, cur, now);
    } else if op.SAdd? || op.SRem? {
      SetOpsKeepShape(op, key, cur, now);
    } else {
      StringOpsKeepShape(op, key, cur, now);
    }
  }

  lemma StoreKeepsShape(db: Db, key: string, entry: Option<ValueObject>)
    requires WellShaped(db) && ShapedEntry(entry)
    ensures WellShaped(Store(db, key, entry))
  {
  }

  lemma SingleKeepsShape(db: Db, key: string, op: KeyOp, now: int)
    requires WellShaped(db) && NonEmptyArguments(op)
    ensures WellShaped(RunSingle(db, key, op, now).db)
  {
    hide Apply, Store, Shaped, NonEmptyArguments;
    ApplyKeepsShape(op, key, Lookup(db, key, now), now);
    StoreKeepsShape(db, key, Apply(op, key, Lookup(db, key, now), now).entry);
  }

  lemma {:induction false} MGetKeepsShape(db: Db, keys: seq<string>, now: int)
    requires WellShaped(db)
    ensures WellShaped(RunMGet(db, keys, now).db)
  {
    hide RunSingle, WellShaped;
    if keys != [] {
      MGetKeepsShape(db, keys[..|keys| - 1], now);
      SingleKeepsShape(RunMGet(db, keys[..|keys| - 1], now).db, keys[|keys| - 1], Get, now);
    }
  }

  lemma {:induction false} StoreAllKeepsShape(db: Db, entries: seq<(string, string)>, now: int)
    requires WellShaped(db)
    ensures WellShaped(StoreAll(db, entries, now))
  {
    if entries != [] { StoreAllKeepsShape(db, entries[..|entries| - 1], now); }
  }

  /** Whatever a client sends, the database it is run on stays well shaped. */
  lemma RunKeepsShape(tokens: seq<string>, db: Db, now: int)
    requires WellShaped(db)
    ensures WellShaped(Run(Decode(tokens), db, now).db)
  {
    DecodeGivesArguments(tokens);
    hide Decode, RunSingle, RunMGet, StoreAll, NonEmptyArguments, Lines, Number, InfoText;
    match Decode(tokens) {
      case Single(key, op) => SingleKeepsShape(db, key, op, now);
      case MGet(keys) => MGetKeepsShape(db, keys, now);
      case MSet(entries) => StoreAllKeepsShape(db, entries, now);
      case _ =>
    }
  }

  lemma MoveKeepsShape(source: Db, destination: Db, key: string, now: int)
    requires WellShaped(source) && WellShaped(destination)
    ensures WellShaped(MoveKey(source, destination, key, now).source)
    ensures WellShaped(MoveKey(source, destination, key, now).destination)
  {
  }
}
