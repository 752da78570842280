/** The operations of one database (`DataStore`), before eviction: what each leaves in the
    database at a given clock reading, and the reply text its command sends. */
module Operations {
  import opened Text
  import opened Values
  import opened Memory
  import opened Glob

  /** Operations on the entry under one key. */
  datatype KeyOp =
    | Set(value: string, ttlSeconds: int)
    | Get
    | Exists
    | Expire(seconds: nat)
    | Ttl
    | Persist
    | IncrBy(delta: int)
    | Append(suffix: string)
    | Strlen
    | LPush(values: seq<string>)
    | RPush(values: seq<string>)
    | LPop
    | RPop
    | LRange(start: int, stop: int)
    | HSet(field: string, content: string)
    | HGet(field: string)
    | HDel(field: string)
    | HExists(field: string)
    | HGetAll
    | SAdd(items: seq<string>)
    | SRem(items: seq<string>)
    | SIsMember(item: string)
    | SMembers
    | SCard
    | MemoryUsage
    | Type

  /** What an operation leaves under its key, its reply, and whether it ends by evicting. */
  datatype Effect = Effect(entry: Option<ValueObject>, reply: string, evicts: bool)

  // ----- helpers -------------------------------------------------------------------------------

  function Line(s: string): string {
    s + NL
  }

  function Lines(xs: seq<string>): string {
    if xs == [] then "" else Lines(xs[..|xs| - 1]) + Line(xs[|xs| - 1])
  }

  function Number(n: int): string {
    Line(Show(n))
  }

  /** Signed 64-bit arithmetic, overflow taken to wrap. */
  function Wrap(n: int): int {
    (n - MIN_LL) % (MAX_ULL + 1) + MIN_LL
  }

  function Reversed(xs: seq<string>): (r: seq<string>)
    ensures |r| == |xs|
  {
    if xs == [] then [] else [xs[|xs| - 1]] + Reversed(xs[..|xs| - 1])
  }

  function AsSet(xs: seq<string>): set<string> {
    set x | x in xs
  }

  lemma AsSetNone()
    ensures AsSet([]) == {}
  {
  }

  lemma AsSetOneMore(items: seq<string>, i: nat)
    requires i < |items|
    ensures AsSet(items[..i + 1]) == AsSet(items[..i]) + {items[i]}
  {
  }

  /** `normalizeRange`: inclusive bounds, or None for an empty range. */
  function NormalizeRange(start: int, stop: int, size: nat): (r: Option<(nat, nat)>)
    ensures r.Some? ==> r.value.0 <= r.value.1 < size
  {
    var first := if start < 0 then size + start else start;
    var last := if stop < 0 then size + stop else stop;
    var from := if first < 0 then 0 else first;
    var to := if last < size - 1 then last else size - 1;
    if size == 0 || from > to || from >= size then None else Some((from, to))
  }

  /** Negative positions count from the end. */
  function FromEnd(i: int, size: nat): int {
    if i < 0 then size + i else i
  }

  /** LRANGE selects exactly the positions from `start` to `stop`, both inclusive, however far
      outside the list the two lie. */
  lemma RangeIsInclusive(start: int, stop: int, size: nat, i: nat)
    requires i < size
    ensures FromEnd(start, size) <= i <= FromEnd(stop, size) <==>
              var r := NormalizeRange(start, stop, size); r.Some? && r.value.0 <= i <= r.value.1
  {
  }

  function Pairs(hash: map<string, string>, fields: seq<string>): seq<string>
    requires forall f :: f in fields ==> f in hash
  {
    if fields == [] then []
    else Pairs(hash, fields[..|fields| - 1]) + [fields[|fields| - 1], hash[fields[|fields| - 1]]]
  }

  function FieldLines(hash: map<string, string>): string {
    SortedMembers(hash.Keys);
    Lines(Pairs(hash, Sorted(hash.Keys)))
  }

  function WrongType(name: string): string {
    "ERR wrong type for " + name + NL
  }

  // ----- strings and key attributes -------------------------------------------------------------

  function SetAt(value: string, ttlSeconds: int, now: int): Effect {
    Effect(Some(StringObject(value, now, if ttlSeconds >= 0 then now + ttlSeconds * 1000 else -1, now)), "OK\n", true)
  }

  function GetAt(cur: Option<ValueObject>, now: int): Effect {
    if cur.None? || cur.value.kind != StringType then Effect(cur, "(nil)\n", false)
    else Effect(Some(Touch(cur.value, now)), Line(cur.value.value), false)
  }

  function ExistsAt(cur: Option<ValueObject>, now: int): Effect {
    if cur.None? then Effect(None, "0\n", false) else Effect(Some(Touch(cur.value, now)), "1\n", false)
  }

  function ExpireAt(cur: Option<ValueObject>, seconds: nat, now: int): Effect {
    if cur.None? then Effect(None, "0\n", false)
    else Effect(Some(cur.value.(expiresAt := now + seconds * 1000)), "1\n", false)
  }

  function TtlAt(cur: Option<ValueObject>, now: int): Effect {
    if cur.None? then Effect(None, "-2\n", false)
    else if cur.value.expiresAt == -1 then Effect(cur, "-1\n", false)
    else Effect(Some(Touch(cur.value, now)), Number((cur.value.expiresAt - now + 999) / 1000), false)
  }

  function PersistAt(cur: Option<ValueObject>, now: int): Effect {
    if cur.None? || cur.value.expiresAt == -1 then Effect(cur, "0\n", false)
    else Effect(Some(cur.value.(expiresAt := -1, lastAccessedAt := now)), "1\n", true)
  }

  function IncrAt(cur: Option<ValueObject>, delta: int, now: int): Effect {
    if cur.None? then
      Effect(Some(StringObject(Show(Wrap(delta)), now, -1, now)), Number(Wrap(delta)), true)
    else
      var n := ParseInteger(cur.value.value);
      if cur.value.kind != StringType || n.None? then Effect(cur, "ERR value is not an integer\n", false)
      else
        var updated := Wrap(n.value + delta);
        Effect(Some(StringObject(Show(updated), cur.value.createdAt, cur.value.expiresAt, now)), Number(updated), true)
  }

  function AppendAt(cur: Option<ValueObject>, suffix: string, now: int): Effect {
    if cur.None? then Effect(Some(StringObject(suffix, now, -1, now)), Number(|suffix|), true)
    else if cur.value.kind != StringType then Effect(cur, WrongType("APPEND"), false)
    else
      var e := cur.value.(value := cur.value.value + suffix, lastAccessedAt := now);
      Effect(Some(e), Number(|e.value|), true)
  }

  function StrlenAt(cur: Option<ValueObject>, now: int): Effect {
    if cur.None? || cur.value.kind != StringType then Effect(cur, "0\n", false)
    else Effect(Some(Touch(cur.value, now)), Number(|cur.value.value|), false)
  }

  function MemoryAt(key: string, cur: Option<ValueObject>, now: int): Effect {
    if cur.None? then Effect(None, "(nil)\n", false)
    else Effect(Some(Touch(cur.value, now)), Number(EstimateBytes(key, ContentOf(cur.value))), false)
  }

  function TypeAt(cur: Option<ValueObject>, now: int): Effect {
    if cur.None? then Effect(None, "none\n", false)
    else Effect(Some(Touch(cur.value, now)), Line(TypeName(cur.value.kind)), false)
  }

  // ----- lists -------------------------------------------------------------------------------------

  function ListObject(list: seq<string>, now: int): ValueObject {
    ValueObject("", list, map[], {}, ListType, now, -1, now)
  }

  function LPushAt(cur: Option<ValueObject>, values: seq<string>, now: int): Effect {
    if cur.None? then Effect(Some(ListObject(Reversed(values), now)), Number(|values|), true)
    else if cur.value.kind != ListType then Effect(cur, WrongType("LPUSH"), false)
    else
      var e := cur.value.(list := Reversed(values) + cur.value.list, lastAccessedAt := now);
      Effect(Some(e), Number(|e.list|), true)
  }

  function RPushAt(cur: Option<ValueObject>, values: seq<string>, now: int): Effect {
    if cur.None? then Effect(Some(ListObject(values, now)), Number(|values|), true)
    else if cur.value.kind != ListType then Effect(cur, WrongType("RPUSH"), false)
    else
      var e := cur.value.(list := cur.value.list + values, lastAccessedAt := now);
      Effect(Some(e), Number(|e.list|), true)
  }

  /** The entry once `rest` is what a pop left of its list: an emptied list is removed. */
  function Popped(e: ValueObject, rest: seq<string>, now: int): Option<ValueObject> {
    if rest == [] then None else Some(e.(list := rest, lastAccessedAt := now))
  }

  function LPopAt(cur: Option<ValueObject>, now: int): Effect {
    if cur.None? then Effect(None, "(nil)\n", false)
    else if cur.value.kind != ListType then Effect(cur, WrongType("LPOP"), false)
    else if cur.value.list == [] then Effect(cur, "(nil)\n", false)
    else Effect(Popped(cur.value, cur.value.list[1..], now), Line(cur.value.list[0]), false)
  }

  function RPopAt(cur: Option<ValueObject>, now: int): Effect {
    if cur.None? then Effect(None, "(nil)\n", false)
    else if cur.value.kind != ListType then Effect(cur, WrongType("RPOP"), false)
    else if cur.value.list == [] then Effect(cur, "(nil)\n", false)
    else
      var last := |cur.value.list| - 1;
      Effect(Popped(cur.value, cur.value.list[..last], now), Line(cur.value.list[last]), false)
  }

  function LRangeAt(cur: Option<ValueObject>, start: int, stop: int, now: int): Effect {
    if cur.None? then Effect(None, "", false)
    else if cur.value.kind != ListType then Effect(cur, WrongType("LRANGE"), false)
    else
      var range := NormalizeRange(start, stop, |cur.value.list|);
      if range.None? then Effect(cur, "", false)
      else Effect(Some(Touch(cur.value, now)), Lines(cur.value.list[range.value.0..range.value.1 + 1]), false)
  }

  // ----- hashes --------------------------------------------------------------------------------------

  function HSetAt(cur: Option<ValueObject>, field: string, content: string, now: int): Effect {
    if cur.None? then
      Effect(Some(ValueObject("", [], map[field := content], {}, HashType, now, -1, now)), "1\n", true)
    else if cur.value.kind != HashType then Effect(cur, WrongType("HSET"), false)
    else
      Effect(Some(cur.value.(hash := cur.value.hash[field := content], lastAccessedAt := now)),
             if field in cur.value.hash then "0\n" else "1\n", true)
  }

  function HGetAt(cur: Option<ValueObject>, field: string, now: int): Effect {
    if cur.None? then Effect(None, "(nil)\n", false)
    else if cur.value.kind != HashType then Effect(cur, WrongType("HGET"), false)
    else if field !in cur.value.hash then Effect(cur, "(nil)\n", false)
    else Effect(Some(Touch(cur.value, now)), Line(cur.value.hash[field]), false)
  }

  function HDelAt(cur: Option<ValueObject>, field: string, now: int): Effect {
    if cur.None? then Effect(None, "0\n", false)
    else if cur.value.kind != HashType then Effect(cur, WrongType("HDEL"), false)
    else
      var rest := cur.value.hash - {field};
      Effect(if rest == map[] then None else Some(cur.value.(hash := rest, lastAccessedAt := now)),
             if field in cur.value.hash then "1\n" else "0\n", false)
  }

  function HExistsAt(cur: Option<ValueObject>, field: string, now: int): Effect {
    if cur.None? then Effect(None, "0\n", false)
    else if cur.value.kind != HashType then Effect(cur, WrongType("HEXISTS"), false)
    else Effect(Some(Touch(cur.value, now)), if field in cur.value.hash then "1\n" else "0\n", false)
  }

  function HGetAllAt(cur: Option<ValueObject>, now: int): Effect {
    if cur.None? then Effect(None, "", false)
    else if cur.value.kind != HashType then Effect(cur, WrongType("HGETALL"), false)
    else Effect(Some(Touch(cur.value, now)), FieldLines(cur.value.hash), false)
  }

  // ----- sets ------------------------------------------------------------------------------------------

  function SAddAt(cur: Option<ValueObject>, items: seq<string>, now: int): Effect {
    if cur.None? then
      Effect(Some(ValueObject("", [], map[], AsSet(items), SetType, now, -1, now)), Number(|AsSet(items)|), true)
    else if cur.value.kind != SetType then Effect(cur, WrongType("SADD"), false)
    else
      var members := cur.value.members + AsSet(items);
      Effect(Some(cur.value.(members := members, lastAccessedAt := now)), Number(|members| - |cur.value.members|), true)
  }

  function SRemAt(cur: Option<ValueObject>, items: seq<string>, now: int): Effect {
    if cur.None? then Effect(None, "0\n", false)
    else if cur.value.kind != SetType then Effect(cur, WrongType("SREM"), false)
    else
      var members := cur.value.members - AsSet(items);
      Effect(if members == {} then None else Some(cur.value.(members := members, lastAccessedAt := now)),
             Number(|cur.value.members| - |members|), false)
  }

  function SIsMemberAt(cur: Option<ValueObject>, item: string, now: int): Effect {
    if cur.None? then Effect(None, "0\n", false)
    else if cur.value.kind != SetType then Effect(cur, WrongType("SISMEMBER"), false)
    else Effect(Some(Touch(cur.value, now)), if item in cur.value.members then "1\n" else "0\n", false)
  }

  function SMembersAt(cur: Option<ValueObject>, now: int): Effect {
    if cur.None? then Effect(None, "", false)
    else if cur.value.kind != SetType then Effect(cur, WrongType("SMEMBERS"), false)
    else Effect(Some(Touch(cur.value, now)), Lines(Sorted(cur.value.members)), false)
  }

  function SCardAt(cur: Option<ValueObject>, now: int): Effect {
    if cur.None? then Effect(None, "0\n", false)
    else if cur.value.kind != SetType then Effect(cur, WrongType("SCARD"), false)
    else Effect(Some(Touch(cur.value, now)), Number(|cur.value.members|), false)
  }

  // ----- one key, whole database ---------------------------------------------------------------------------

  function Apply(op: KeyOp, key: string, cur: Option<ValueObject>, now: int): Effect {
    match op
    case Set(value, ttl) => SetAt(value, ttl, now)
    case Get => GetAt(cur, now)
    case Exists => ExistsAt(cur, now)
    case Expire(seconds) => ExpireAt(cur, seconds, now)
    case Ttl => TtlAt(cur, now)
    case Persist => PersistAt(cur, now)
    case IncrBy(delta) => IncrAt(cur, delta, now)
    case Append(suffix) => AppendAt(cur, suffix, now)
    case Strlen => StrlenAt(cur, now)
    case LPush(values) => LPushAt(cur, values, now)
    case RPush(values) => RPushAt(cur, values, now)
    case LPop => LPopAt(cur, now)
    case RPop => RPopAt(cur, now)
    case LRange(start, stop) => LRangeAt(cur, start, stop, now)
    case HSet(field, content) => HSetAt(cur, field, content, now)
    case HGet(field) => HGetAt(cur, field, now)
    case HDel(field) => HDelAt(cur, field, now)
    case HExists(field) => HExistsAt(cur, field, now)
    case HGetAll => HGetAllAt(cur, now)
    case SAdd(items) => SAddAt(cur, items, now)
    case SRem(items) => SRemAt(cur, items, now)
    case SIsMember(item) => SIsMemberAt(cur, item, now)
    case SMembers => SMembersAt(cur, now)
    case SCard => SCardAt(cur, now)
    case MemoryUsage => MemoryAt(key, cur, now)
    case Type => TypeAt(cur, now)
  }

  /** Requests a database serves, with their arguments already checked. */
  datatype Request =
    | Reject(message: string)
    | Ping
    | Single(key: string, op: KeyOp)
    | Del(key: string)
    | MGet(keys: seq<string>)
    | MSet(entries: seq<(string, string)>)
    | Rename(source: string, destination: string)
    | Keys(pattern: string)
    | Scan(pattern: string)
    | DbSize
    | FlushDb
    | Info

  datatype Outcome = Outcome(db: Db, reply: string, evicts: bool)

  function RunSingle(db: Db, key: string, op: KeyOp, now: int): Outcome {
    var f := Apply(op, key, Lookup(db, key, now), now);
    Outcome(Store(db, key, f.entry), f.reply, f.evicts)
  }

  function RunMGet(db: Db, keys: seq<string>, now: int): Outcome {
    if keys == [] then Outcome(db, "", false)
    else
      var before := RunMGet(db, keys[..|keys| - 1], now);
      var last := RunSingle(before.db, keys[|keys| - 1], Get, now);
      Outcome(last.db, before.reply + last.reply, false)
  }

  function StoreAll(db: Db, entries: seq<(string, string)>, now: int): Db {
    if entries == [] then db
    else
      var last := entries[|entries| - 1];
      StoreAll(db, entries[..|entries| - 1], now)[last.0 := StringObject(last.1, now, -1, now)]
  }

  function RunRename(db: Db, source: string, destination: string, now: int): Outcome {
    var cur := Lookup(db, source, now);
    if cur.None? then Outcome(db - {source}, "ERR no such key\n", false)
    else if source == destination then Outcome(db, "OK\n", false)
    else Outcome(db[destination := Touch(cur.value, now)] - {source}, "OK\n", true)
  }

  function MatchingKeys(db: Db, pattern: string): set<string> {
    set k | k in db && MatchesPattern(k, pattern)
  }

  function InfoText(db: Db): string {
    "{\n totalKeys: " + Show(|db|) + ",\n estimatedBytes: " + Show(TotalBytes(db)) + ",\n"
  }

  function Run(request: Request, db: Db, now: int): Outcome {
    match request
    case Reject(message) => Outcome(db, message, false)
    case Ping => Outcome(db, "PONG\n", false)
    case Single(key, op) => RunSingle(db, key, op, now)
    case Del(key) => Outcome(db - {key}, if key in db then "1\n" else "0\n", false)
    case MGet(keys) => RunMGet(db, keys, now)
    case MSet(entries) => Outcome(StoreAll(db, entries, now), "OK\n", true)
    case Rename(source, destination) => RunRename(db, source, destination, now)
    case Keys(pattern) =>
      Outcome(Purge(db, now), Lines(Sorted(MatchingKeys(Purge(db, now), pattern))), false)
    case Scan(pattern) =>
      Outcome(Purge(db, now), "0\n" + Lines(Sorted(MatchingKeys(Purge(db, now), pattern))), false)
    case DbSize => Outcome(Purge(db, now), Number(|Purge(db, now)|), false)
    case FlushDb => Outcome(map[], "OK\n", false)
    case Info => Outcome(Purge(db, now), InfoText(Purge(db, now)), false)
  }

  // ----- MOVE -------------------------------------------------------------------------------------------

  datatype Moved = Moved(source: Db, destination: Db, moved: bool)

  /** `moveKeyTo`, for two different databases. */
  function MoveKey(source: Db, destination: Db, key: string, now: int): Moved {
    var cur := Lookup(source, key, now);
    if cur.None? then Moved(source - {key}, destination, false)
    else if Lookup(destination, key, now).Some? then Moved(source, destination, false)
    else Moved(source - {key}, destination[key := Touch(cur.value, now)], true)
  }
}
