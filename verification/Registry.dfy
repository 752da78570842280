/** Commands at work on stores: the registry's dispatch to the methods of one store, and the
    commands that span all of them. */
module Registry {
  import opened Text
  import opened Values
  import opened Memory
  import opened Operations
  import opened Agreement
  import opened Commands
  import opened Execution
  import opened Eviction
  import opened StoreLimits
  import opened Datastore

  function Bit(b: bool): string {
    if b then "1\n" else "0\n"
  }

  /** The store answered with `reply` and went where the request `o` takes it. */
  ghost predicate Served(store: DataStore, o: Outcome, reply: string, lostBefore: nat)
    reads store
  {
    reply == o.reply && store.Settled(o.db, o.evicts, lostBefore)
  }

  // ----- one key -------------------------------------------------------------------------------------

  lemma ApplyToList(op: KeyOp, key: string, cur: Option<ValueObject>, now: int)
    ensures op.LPush? ==> Apply(op, key, cur, now) == LPushAt(cur, op.values, now)
    ensures op.RPush? ==> Apply(op, key, cur, now) == RPushAt(cur, op.values, now)
    ensures op.LPop? ==> Apply(op, key, cur, now) == LPopAt(cur, now)
    ensures op.RPop? ==> Apply(op, key, cur, now) == RPopAt(cur, now)
    ensures op.LRange? ==> Apply(op, key, cur, now) == LRangeAt(cur, op.start, op.stop, now)
  {
    hide LPushAt, RPushAt, LPopAt, RPopAt, LRangeAt;
  }

  lemma ApplyToHash(op: KeyOp, key: string, cur: Option<ValueObject>, now: int)
    ensures op.HSet? ==> Apply(op, key, cur, now) == HSetAt(cur, op.field, op.content, now)
    ensures op.HGet? ==> Apply(op, key, cur, now) == HGetAt(cur, op.field, now)
    ensures op.HDel? ==> Apply(op, key, cur, now) == HDelAt(cur, op.field, now)
    ensures op.HExists? ==> Apply(op, key, cur, now) == HExistsAt(cur, op.field, now)
    ensures op.HGetAll? ==> Apply(op, key, cur, now) == HGetAllAt(cur, now)
  {
    hide HSetAt, HGetAt, HDelAt, HExistsAt, HGetAllAt;
  }

  lemma ApplyToSet(op: KeyOp, key: string, cur: Option<ValueObject>, now: int)
    ensures op.SAdd? ==> Apply(op, key, cur, now) == SAddAt(cur, op.items, now)
    ensures op.SRem? ==> Apply(op, key, cur, now) == SRemAt(cur, op.items, now)
    ensures op.SIsMember? ==> Apply(op, key, cur, now) == SIsMemberAt(cur, op.item, now)
    ensures op.SMembers? ==> Apply(op, key, cur, now) == SMembersAt(cur, now)
    ensures op.SCard? ==> Apply(op, key, cur, now) == SCardAt(cur, now)
  {
    hide SAddAt, SRemAt, SIsMemberAt, SMembersAt, SCardAt;
  }

  method ServeString(store: DataStore, key: string, op: KeyOp, now: int) returns (reply: string)
    requires op.Set? || op.Get? || op.IncrBy? || op.Append? || op.Strlen?
    modifies store`values, store`evictedKeys
    ensures Served(store, RunSingle(old(store.values), key, op, now), reply, old(store.evictedKeys))
  {
    hide Evicted, Number, Line, Store, Lookup, ParseInteger, Wrap, Show;
    match op {
      case Set(value, ttl) =>
        store.Set(key, value, ttl, now);
        reply := "OK\n";
      case Get =>
        var value := store.Get(key, now);
        reply := if value.None? then "(nil)\n" else Line(value.value);
      case IncrBy(delta) =>
        var n := store.IncrBy(key, delta, now);
        reply := if n.None? then "ERR value is not an integer\n" else Number(n.value);
      case Append(suffix) =>
        var n := store.Append(key, suffix, now);
        reply := if n.None? then WrongType("APPEND") else Number(n.value);
      case Strlen =>
        var n := store.StrLen(key, now);
        NumberZero();
        reply := Number(if n.None? then 0 else n.value);
    }
  }

  lemma NumberZero()
    ensures Number(0) == "0\n" && Number(1) == "1\n" && Number(-1) == "-1\n" && Number(-2) == "-2\n"
  {
    assert Show(0) == "0" && Show(1) == "1" && Show(-1) == "-1" && Show(-2) == "-2";
  }

  method ServeKey(store: DataStore, key: string, op: KeyOp, now: int) returns (reply: string)
    requires op.Exists? || op.Expire? || op.Ttl? || op.Persist? || op.MemoryUsage? || op.Type?
    modifies store`values, store`evictedKeys
    ensures Served(store, RunSingle(old(store.values), key, op, now), reply, old(store.evictedKeys))
  {
    hide Evicted, Number, Line, Store, EstimateBytes, TypeName;
    NumberZero();
    match op {
      case Exists =>
        var b := store.Exists(key, now);
        reply := Bit(b);
      case Expire(seconds) =>
        var b := store.Expire(key, seconds, now);
        reply := Bit(b);
      case Ttl =>
        var n := store.Ttl(key, now);
        reply := Number(n);
      case Persist =>
        var b := store.Persist(key, now);
        reply := Bit(b);
      case MemoryUsage =>
        var n := store.MemoryUsage(key, now);
        reply := if n.None? then "(nil)\n" else Number(n.value);
      case Type =>
        var name := store.Type(key, now);
        LineNone();
        reply := Line(name);
    }
  }

  lemma LineNone()
    ensures Line("none") == "none\n"
  {
  }

  method ServePush(store: DataStore, key: string, op: KeyOp, now: int) returns (reply: string)
    requires op.LPush? || op.RPush?
    modifies store`values, store`evictedKeys
    ensures Served(store, RunSingle(old(store.values), key, op, now), reply, old(store.evictedKeys))
  {
    hide Apply, LRangeAt, LPopAt, RPopAt;
    ApplyToList(op, key, Lookup(store.values, key, now), now);
    hide Evicted, Number, Line, Lines, Store, Lookup, NormalizeRange, WrongType, Reversed;
    if op.LPush? {
      var n := store.LPush(key, op.values, now);
      reply := if n.None? then WrongType("LPUSH") else Number(n.value);
    } else {
      var n := store.RPush(key, op.values, now);
      reply := if n.None? then WrongType("RPUSH") else Number(n.value);
    }
  }

  method ServePop(store: DataStore, key: string, op: KeyOp, now: int) returns (reply: string)
    requires op.LPop? || op.RPop?
    modifies store`values, store`evictedKeys
    ensures Served(store, RunSingle(old(store.values), key, op, now), reply, old(store.evictedKeys))
  {
    hide Apply, LRangeAt, LPushAt, RPushAt;
    ApplyToList(op, key, Lookup(store.values, key, now), now);
    hide Evicted, Number, Line, Lines, Store, Lookup, NormalizeRange, WrongType, Reversed;
    var status, value;
    if op.LPop? {
      status, value := store.LPop(key, now);
    } else {
      status, value := store.RPop(key, now);
    }
    var name := if op.LPop? then "LPOP" else "RPOP";
    reply := if status == WrongKind then WrongType(name) else if status == Missing then "(nil)\n" else Line(value);
  }

  method ServeRange(store: DataStore, key: string, op: KeyOp, now: int) returns (reply: string)
    requires op.LRange?
    modifies store`values, store`evictedKeys
    ensures Served(store, RunSingle(old(store.values), key, op, now), reply, old(store.evictedKeys))
  {
    hide Apply, LPopAt, RPopAt, LPushAt, RPushAt;
    ApplyToList(op, key, Lookup(store.values, key, now), now);
    hide Evicted, Number, Line, Lines, Store, Lookup, NormalizeRange, WrongType, Reversed;
    var status, items := store.LRange(key, op.start, op.stop, now);
    NoLines();
    reply := if status == WrongKind then WrongType("LRANGE") else Lines(items);
  }

  lemma NoLines()
    ensures Lines([]) == ""
  {
  }

  method ServeHash(store: DataStore, key: string, op: KeyOp, now: int) returns (reply: string)
    requires op.HSet? || op.HGet? || op.HDel? || op.HExists? || op.HGetAll?
    modifies store`values, store`evictedKeys
    ensures Served(store, RunSingle(old(store.values), key, op, now), reply, old(store.evictedKeys))
  {
    hide Apply;
    ApplyToHash(op, key, Lookup(store.values, key, now), now);
    hide Evicted, Number, Line, Lines, Store, Lookup, WrongType, FieldLines;
    NumberZero();
    match op {
      case HSet(field, content) =>
        var n := store.HSet(key, field, content, now);
        reply := if n.None? then WrongType("HSET") else Number(n.value);
      case HGet(field) =>
        var status, content := store.HGet(key, field, now);
        reply := if status == WrongKind then WrongType("HGET")
                 else if content.None? then "(nil)\n" else Line(content.value);
      case HDel(field) =>
        var n := store.HDel(key, field, now);
        reply := if n.None? then WrongType("HDEL") else Number(n.value);
      case HExists(field) =>
        var b := store.HExists(key, field, now);
        reply := if b.None? then WrongType("HEXISTS") else Bit(b.value);
      case HGetAll =>
        var status, fields := store.HGetAll(key, now);
        NoLines();
        reply := if status == WrongKind then WrongType("HGETALL") else Lines(fields);
    }
  }

  method ServeSetChange(store: DataStore, key: string, op: KeyOp, now: int) returns (reply: string)
    requires op.SAdd? || op.SRem?
    modifies store`values, store`evictedKeys
    ensures Served(store, RunSingle(old(store.values), key, op, now), reply, old(store.evictedKeys))
  {
    hide Apply, SIsMemberAt, SMembersAt, SCardAt;
    ApplyToSet(op, key, Lookup(store.values, key, now), now);
    hide Evicted, Number, Store, Lookup, WrongType, AsSet;
    if op.SAdd? {
      var n := store.SAdd(key, op.items, now);
      reply := if n.None? then WrongType("SADD") else Number(n.value);
    } else {
      var n := store.SRem(key, op.items, now);
      reply := if n.None? then WrongType("SREM") else Number(n.value);
    }
  }

  method ServeSetRead(store: DataStore, key: string, op: KeyOp, now: int) returns (reply: string)
    requires op.SIsMember? || op.SMembers? || op.SCard?
    modifies store`values, store`evictedKeys
    ensures Served(store, RunSingle(old(store.values), key, op, now), reply, old(store.evictedKeys))
  {
    hide Apply, SAddAt, SRemAt;
    ApplyToSet(op, key, Lookup(store.values, key, now), now);
    hide Evicted, Number, Line, Lines, Store, Lookup, WrongType, Sorted;
    NumberZero();
    match op {
      case SIsMember(item) =>
        var b := store.SIsMember(key, item, now);
        reply := if b.None? then WrongType("SISMEMBER") else Bit(b.value);
      case SMembers =>
        var status, members := store.SMembers(key, now);
        NoLines();
        reply := if status == WrongKind then WrongType("SMEMBERS") else Lines(members);
      case SCard =>
        var n := store.SCard(key, now);
        reply := if n.None? then WrongType("SCARD") else Number(n.value);
    }
  }

  method ServeSingle(store: DataStore, key: string, op: KeyOp, now: int) returns (reply: string)
    modifies store`values, store`evictedKeys
    ensures Served(store, RunSingle(old(store.values), key, op, now), reply, old(store.evictedKeys))
  {
    hide Served, RunSingle;
    if op.LPush? || op.RPush? {
      reply := ServePush(store, key, op, now);
    } else if op.LPop? || op.RPop? {
      reply := ServePop(store, key, op, now);
    } else if op.LRange? {
      reply := ServeRange(store, key, op, now);
    } else if op.HSet? || op.HGet? || op.HDel? || op.HExists? || op.HGetAll? {
      reply := ServeHash(store, key, op, now);
    } else if op.SAdd? || op.SRem? {
      reply := ServeSetChange(store, key, op, now);
    } else if op.SIsMember? || op.SMembers? || op.SCard? {
      reply := ServeSetRead(store, key, op, now);
    } else if op.Set? || op.Get? || op.IncrBy? || op.Append? || op.Strlen? {
      reply := ServeString(store, key, op, now);
    } else {
      reply := ServeKey(store, key, op, now);
    }
  }

  // ----- any request -----------------------------------------------------------------------------------

  predicate Lists(request: Request) {
    request.Keys? || request.Scan? || request.DbSize? || request.Info?
  }

  /** How many entries a request removes and counts as expired: only listings look for them. */
  function Expires(request: Request, db: Db, now: int): (n: nat) {
    PurgedIsFewer(db, now);
    if Lists(request) then |db| - |Purge(db, now)| else 0
  }

  lemma PurgedIsFewer(db: Db, now: int)
    ensures |Purge(db, now)| <= |db|
  {
    hide TotalBytes;
    SubDbIsSmaller(Purge(db, now), db);
  }

  method ServeListing(store: DataStore, request: Request, now: int) returns (reply: string)
    requires Lists(request)
    modifies store`values, store`evictedKeys, store`expiredKeys
    ensures Served(store, Run(request, old(store.values), now), reply, old(store.evictedKeys))
    ensures store.expiredKeys == old(store.expiredKeys) + Expires(request, old(store.values), now)
  {
    hide Evicted, Number, Lines, Purge, TotalBytes, MatchingKeys, Sorted, Show;
    match request {
      case Keys(pattern) =>
        var keys := store.Keys(pattern, now);
        reply := Lines(keys);
      case Scan(pattern) =>
        var keys := store.Keys(pattern, now);
        reply := "0\n" + Lines(keys);
      case DbSize =>
        var n := store.DbSize(now);
        reply := Number(n);
      case Info =>
        var removed := store.RemoveExpired(now);
        var keys, bytes, evicted, expired := store.Stats();
        reply := "{\n totalKeys: " + Show(keys) + ",\n estimatedBytes: " + Show(bytes) + ",\n";
    }
  }

  /** `CommandRegistry::execute`: replies, and changes the store, as the request says. */
  method ExecuteRequest(store: DataStore, request: Request, now: int) returns (reply: string)
    modifies store`values, store`evictedKeys, store`expiredKeys
    ensures Served(store, Run(request, old(store.values), now), reply, old(store.evictedKeys))
    ensures store.expiredKeys == old(store.expiredKeys) + Expires(request, old(store.values), now)
  {
    hide Evicted, RunSingle, RunMGet, StoreAll, RunRename, Purge, Lines, Number, InfoText;
    match request {
      case Reject(message) => reply := message;
      case Ping => reply := "PONG\n";
      case Single(key, op) =>
        hide Served;
        reply := ServeSingle(store, key, op, now);
      case Del(key) =>
        var b := store.Del(key);
        reply := Bit(b);
      case MGet(keys) =>
        MGetNeverEvicts(store.values, keys, now);
        var found := store.MGet(keys, now);
        reply := OptionLines(found);
      case MSet(entries) =>
        store.MSet(entries, now);
        reply := "OK\n";
      case Rename(source, destination) =>
        RenameReply(store.values, source, destination, now);
        var b := store.Rename(source, destination, now);
        reply := if b then "OK\n" else "ERR no such key\n";
      case FlushDb =>
        store.FlushDb();
        reply := "OK\n";
      case _ =>
        hide Served, Run;
        reply := ServeListing(store, request, now);
    }
  }

  lemma RenameReply(db: Db, source: string, destination: string, now: int)
    ensures RunRename(db, source, destination, now).reply ==
            if Lookup(db, source, now).Some? then "OK\n" else "ERR no such key\n"
  {
  }

  // ----- all databases -----------------------------------------------------------------------------------

  /** Different databases are different objects, configured alike. */
  ghost predicate Ready(stores: seq<DataStore>, config: Config)
    reads stores
  {
    && (forall i, j :: 0 <= i < j < |stores| ==> stores[i] != stores[j])
    && (forall i :: 0 <= i < |stores| ==> stores[i].config == config)
  }

  ghost function Contents(stores: seq<DataStore>): (dbs: seq<Db>)
    reads stores
    ensures |dbs| == |stores| && forall i :: 0 <= i < |stores| ==> dbs[i] == stores[i].values
  {
    seq(|stores|, i requires 0 <= i < |stores| reads stores => stores[i].values)
  }

  method RunInOne(stores: seq<DataStore>, i: nat, request: Request, now: int, ghost config: Config)
    returns (reply: string)
    requires i < |stores| && Ready(stores, config)
    modifies stores
    ensures Ready(stores, config)
    ensures reply == ExecuteInOne(old(Contents(stores)), i, request, now).reply
    ensures SettledBy(config, ExecuteInOne(old(Contents(stores)), i, request, now), Contents(stores))
  {
    hide Evicted, Run;
    reply := ExecuteRequest(stores[i], request, now);
  }

  method MoveCommand(stores: seq<DataStore>, i: nat, tokens: seq<string>, now: int, ghost config: Config)
    returns (reply: string)
    requires i < |stores| && Ready(stores, config)
    modifies stores
    ensures Ready(stores, config)
    ensures reply == ExecuteMove(old(Contents(stores)), i, tokens, now).reply
    ensures SettledBy(config, ExecuteMove(old(Contents(stores)), i, tokens, now), Contents(stores))
  {
    hide Evicted, MoveKey, DatabaseIndex;
    if |tokens| != 3 {
      return "ERR wrong number of arguments for MOVE\n";
    }
    var j := DatabaseIndex(tokens[2], |stores|);
    if j.None? {
      return "ERR DB index is out of range\n";
    }
    var moved := stores[i].MoveKeyTo(tokens[1], stores[j.value], now);
    return Bit(moved);
  }

  method FlushAll(stores: seq<DataStore>, ghost config: Config)
    requires Ready(stores, config)
    modifies stores
    ensures Ready(stores, config) && Contents(stores) == Emptied(|stores|)
  {
    for i := 0 to |stores|
      invariant Ready(stores, config)
      invariant forall k :: 0 <= k < i ==> stores[k].values == map[]
    {
      stores[i].FlushDb();
    }
  }

  /** A data command in database `i`, as the server runs it. */
  method ExecuteCommand(stores: seq<DataStore>, i: nat, tokens: seq<string>, now: int, ghost config: Config)
    returns (reply: string)
    requires i < |stores| && Ready(stores, config)
    modifies stores
    ensures Ready(stores, config)
    ensures reply == Execute(old(Contents(stores)), i, tokens, now).reply
    ensures SettledBy(config, Execute(old(Contents(stores)), i, tokens, now), Contents(stores))
  {
    hide Evicted, CommandName, Decode, ExecuteMove, ExecuteInOne;
    if CommandName(tokens) == MOVE {
      reply := MoveCommand(stores, i, tokens, now, config);
    } else if CommandName(tokens) == FLUSHALL {
      if |tokens| != 1 {
        return "ERR wrong number of arguments for FLUSHALL\n";
      }
      FlushAll(stores, config);
      reply := "OK\n";
    } else {
      reply := RunInOne(stores, i, Decode(tokens), now, config);
    }
  }

  /** Eviction is switched off: no policy, or no limit. */
  predicate Unlimited(config: Config) {
    config.policy == NoEviction || (config.maxKeys == 0 && config.maxMemory == 0)
  }

  lemma SettledUnlimited(config: Config, x: Executed, after: seq<Db>)
    requires Unlimited(config) && SettledBy(config, x, after)
    ensures after == x.dbs
  {
    hide Evicted;
    forall k | 0 <= k < |after| ensures after[k] == x.dbs[k] {
      if x.evictIn == Some(k) { SwitchedOff(config, x.dbs[k], after[k]); }
    }
  }
}
