/** The command table (`CommandMetadata`) and the command classes of the registry: how a list
    of tokens becomes a request, and what the table promises about it. */
module Commands {
  import opened Text
  import opened Values
  import opened Operations
  import opened Agreement

  // ----- names -----------------------------------------------------------------------------------

  datatype Name =
    | GET | EXISTS | TTL | STRLEN | MGET | LRANGE | HGET | HEXISTS | HGETALL | SISMEMBER | SMEMBERS | SCARD
    | KEYS | DBSIZE | MEMORY | TYPE | SCAN
    | SET | MSET | DEL | EXPIRE | PERSIST | INCR | DECR | APPEND | LPUSH | RPUSH | LPOP | RPOP
    | HSET | HDEL | SADD | SREM | RENAME | MOVE | FLUSHDB | FLUSHALL
    | PING | INFO | AUTH | READONLY | CONFIG | COMMAND | SELECT
    | SAVE | LASTSAVE | SUBSCRIBE | UNSUBSCRIBE | PUBLISH | CLIENT
    | UNKNOWN

  function NameOf(upper: string): Name {
    match upper
    case "GET" => GET
    case "EXISTS" => EXISTS
    case "TTL" => TTL
    case "STRLEN" => STRLEN
    case "MGET" => MGET
    case "LRANGE" => LRANGE
    case "HGET" => HGET
    case "HEXISTS" => HEXISTS
    case "HGETALL" => HGETALL
    case "SISMEMBER" => SISMEMBER
    case "SMEMBERS" => SMEMBERS
    case "SCARD" => SCARD
    case "KEYS" => KEYS
    case "DBSIZE" => DBSIZE
    case "MEMORY" => MEMORY
    case "TYPE" => TYPE
    case "SCAN" => SCAN
    case "SET" => SET
    case "MSET" => MSET
    case "DEL" => DEL
    case "EXPIRE" => EXPIRE
    case "PERSIST" => PERSIST
    case "INCR" => INCR
    case "DECR" => DECR
    case "APPEND" => APPEND
    case "LPUSH" => LPUSH
    case "RPUSH" => RPUSH
    case "LPOP" => LPOP
    case "RPOP" => RPOP
    case "HSET" => HSET
    case "HDEL" => HDEL
    case "SADD" => SADD
    case "SREM" => SREM
    case "RENAME" => RENAME
    case "MOVE" => MOVE
    case "FLUSHDB" => FLUSHDB
    case "FLUSHALL" => FLUSHALL
    case "PING" => PING
    case "INFO" => INFO
    case "AUTH" => AUTH
    case "READONLY" => READONLY
    case "CONFIG" => CONFIG
    case "COMMAND" => COMMAND
    case "SELECT" => SELECT
    case "SAVE" => SAVE
    case "LASTSAVE" => LASTSAVE
    case "SUBSCRIBE" => SUBSCRIBE
    case "UNSUBSCRIBE" => UNSUBSCRIBE
    case "PUBLISH" => PUBLISH
    case "CLIENT" => CLIENT
    case _ => UNKNOWN
  }

  /** The name a command is looked up by: its first token, upper-cased. */
  function CommandName(tokens: seq<string>): Name {
    if tokens == [] then UNKNOWN else NameOf(ToUpper(tokens[0]))
  }

  // ----- the metadata table ---------------------------------------------------------------------------

  datatype Category = Read | Write | Admin | PubSub | Persistence | Client | Unknown

  datatype Metadata = Metadata(category: Category, mutatesData: bool, appendToAof: bool, allowedInReadOnly: bool)

  function MetadataOf(name: Name): Metadata {
    match name
    case GET | EXISTS | TTL | STRLEN | MGET | LRANGE | HGET | HEXISTS | HGETALL | SISMEMBER | SMEMBERS | SCARD
       | KEYS | DBSIZE | MEMORY | TYPE | SCAN => Metadata(Read, false, false, true)
    case SET | MSET | DEL | EXPIRE | PERSIST | INCR | DECR | APPEND | LPUSH | RPUSH | LPOP | RPOP
       | HSET | HDEL | SADD | SREM | RENAME | MOVE | FLUSHDB | FLUSHALL => Metadata(Write, true, true, false)
    case PING | INFO | AUTH | READONLY | CONFIG | COMMAND | SELECT => Metadata(Admin, false, false, true)
    case SAVE | LASTSAVE => Metadata(Persistence, false, false, true)
    case SUBSCRIBE | UNSUBSCRIBE => Metadata(PubSub, false, false, true)
    case PUBLISH => Metadata(PubSub, false, false, false)
    case CLIENT => Metadata(Client, false, false, true)
    case UNKNOWN => Metadata(Unknown, false, false, true)
  }

  predicate IsAofLogged(tokens: seq<string>) {
    MetadataOf(CommandName(tokens)).appendToAof
  }

  predicate IsAllowedInReadOnly(tokens: seq<string>) {
    MetadataOf(CommandName(tokens)).allowedInReadOnly
  }

  // ----- the registry's commands -------------------------------------------------------------------------

  function Arity(name: string): (r: Request)
    ensures r.Reject?
  {
    Reject("ERR wrong number of arguments for " + name + "\n")
  }

  function OneKey(args: seq<string>, name: string, op: KeyOp): (r: Request)
    ensures r.Reject? || (r.Single? && r.op == op)
  {
    if |args| != 1 then Arity(name) else Single(args[0], op)
  }

  function DecodeSet(args: seq<string>): (r: Request)
    ensures r.Reject? || (r.Single? && r.op.Set?)
  {
    if |args| != 2 && |args| != 4 then Arity("SET")
    else if |args| == 2 then Single(args[0], Set(args[1], -1))
    else if ToUpper(args[2]) != "EX" then Reject("ERR syntax error\n")
    else
      var ttl := ParseInteger(args[3]);
      if ttl.None? || ttl.value < 0 then Reject("ERR invalid expire time\n")
      else Single(args[0], Set(args[1], ttl.value))
  }

  function DecodeExpire(args: seq<string>): (r: Request)
    ensures r.Reject? || (r.Single? && r.op.Expire?)
  {
    if |args| != 2 then Arity("EXPIRE")
    else
      var ttl := ParseInteger(args[1]);
      if ttl.None? || ttl.value < 0 then Reject("ERR invalid expire time\n")
      else Single(args[0], Expire(ttl.value))
  }

  function DecodeMSet(args: seq<string>): (r: Request)
    ensures r.Reject? || r.MSet?
  {
    if args == [] || |args| % 2 != 0 then Arity("MSET")
    else MSet(seq(|args| / 2, i requires 0 <= i < |args| / 2 => (args[2 * i], args[2 * i + 1])))
  }

  function DecodeLRange(args: seq<string>): Request {
    if |args| != 3 then Arity("LRANGE")
    else
      var start, stop := ParseInteger(args[1]), ParseInteger(args[2]);
      if start.None? || stop.None? then Reject("ERR invalid range index\n")
      else Single(args[0], LRange(start.value, stop.value))
  }

  function DecodeScan(args: seq<string>): Request {
    if |args| != 1 && |args| != 3 then Arity("SCAN")
    else if args[0] != "0" then Reject("ERR invalid cursor\n")
    else if |args| == 1 then Scan("*")
    else if ToUpper(args[1]) != "MATCH" then Reject("ERR syntax error\n")
    else Scan(args[2])
  }

  function DecodeMemory(args: seq<string>): Request {
    if |args| != 2 || ToUpper(args[0]) != "USAGE" then Reject("ERR usage: MEMORY USAGE key\n")
    else Single(args[1], MemoryUsage)
  }

  function Unregistered(tokens: seq<string>): Request {
    Reject("ERR unknown command '" + (if tokens == [] then "" else tokens[0]) + "'\n")
  }

  /** `CommandRegistry::execute` up to the call into the store. */
  function Decode(tokens: seq<string>): Request {
    if tokens == [] then Reject("ERR empty command\n")
    else
      var args := tokens[1..];
      match CommandName(tokens)
      case GET => OneKey(args, "GET", Get)
      case EXISTS => OneKey(args, "EXISTS", Exists)
      case TTL => OneKey(args, "TTL", Ttl)
      case STRLEN => OneKey(args, "STRLEN", Strlen)
      case MGET => if args == [] then Arity("MGET") else MGet(args)
      case LRANGE => DecodeLRange(args)
      case HGET => if |args| != 2 then Arity("HGET") else Single(args[0], HGet(args[1]))
      case HEXISTS => if |args| != 2 then Arity("HEXISTS") else Single(args[0], HExists(args[1]))
      case HGETALL => OneKey(args, "HGETALL", HGetAll)
      case SISMEMBER => if |args| != 2 then Arity("SISMEMBER") else Single(args[0], SIsMember(args[1]))
      case SMEMBERS => OneKey(args, "SMEMBERS", SMembers)
      case SCARD => OneKey(args, "SCARD", SCard)
      case KEYS => if |args| > 1 then Arity("KEYS") else Keys(if args == [] then "*" else args[0])
      case DBSIZE => if args != [] then Arity("DBSIZE") else DbSize
      case MEMORY => DecodeMemory(args)
      case TYPE => OneKey(args, "TYPE", Type)
      case SCAN => DecodeScan(args)
      case SET => DecodeSet(args)
      case MSET => DecodeMSet(args)
      case DEL => if |args| != 1 then Arity("DEL") else Del(args[0])
      case EXPIRE => DecodeExpire(args)
      case PERSIST => OneKey(args, "PERSIST", Persist)
      case INCR => OneKey(args, "INCR", IncrBy(1))
      case DECR => OneKey(args, "DECR", IncrBy(-1))
      case APPEND => if |args| != 2 then Arity("APPEND") else Single(args[0], Append(args[1]))
      case LPUSH => if |args| < 2 then Arity("LPUSH") else Single(args[0], LPush(args[1..]))
      case RPUSH => if |args| < 2 then Arity("RPUSH") else Single(args[0], RPush(args[1..]))
      case LPOP => OneKey(args, "LPOP", LPop)
      case RPOP => OneKey(args, "RPOP", RPop)
      case HSET => if |args| != 3 then Arity("HSET") else Single(args[0], HSet(args[1], args[2]))
      case HDEL => if |args| != 2 then Arity("HDEL") else Single(args[0], HDel(args[1]))
      case SADD => if |args| < 2 then Arity("SADD") else Single(args[0], SAdd(args[1..]))
      case SREM => if |args| < 2 then Arity("SREM") else Single(args[0], SRem(args[1..]))
      case RENAME => if |args| != 2 then Arity("RENAME") else Rename(args[0], args[1])
      case FLUSHDB => if args != [] then Arity("FLUSHDB") else FlushDb
      case PING => if args != [] then Arity("PING") else Ping
      case INFO => if args != [] then Arity("INFO") else Info
      case _ => Unregistered(tokens)
  }

  // ----- what the table says about requests ------------------------------------------------------------------

  predicate ReadsKey(op: KeyOp) {
    op.Get? || op.Exists? || op.Ttl? || op.Strlen? || op.LRange? || op.HGet? || op.HExists? || op.HGetAll?
    || op.SIsMember? || op.SMembers? || op.SCard? || op.MemoryUsage? || op.Type?
  }

  /** Requests that change nothing a client can observe. */
  predicate Reads(request: Request) {
    match request
    case Reject(_) => true
    case Ping => true
    case Single(_, op) => ReadsKey(op)
    case MGet(_) => true
    case Keys(_) => true
    case Scan(_) => true
    case DbSize => true
    case Info => true
    case _ => false
  }

  /** A command the table does not log only reads. */
  lemma UnloggedReads(tokens: seq<string>)
    requires !IsAofLogged(tokens)
    ensures Reads(Decode(tokens))
  {
    hide CommandName;
  }

  predicate WritesStrings(name: Name) {
    name == SET || name == MSET || name == DEL || name == EXPIRE || name == PERSIST || name == INCR || name == DECR
  }

  lemma StringCommandsWrite(tokens: seq<string>)
    requires WritesStrings(CommandName(tokens))
    ensures Decode(tokens).Reject? || !Reads(Decode(tokens))
  {
    hide CommandName, Arity, OneKey, DecodeSet, DecodeExpire, DecodeMSet, DecodeLRange, DecodeScan, DecodeMemory,
      Unregistered;
  }

  predicate WritesLists(name: Name) {
    name == APPEND || name == LPUSH || name == RPUSH || name == LPOP || name == RPOP
  }

  lemma ListCommandsWrite(tokens: seq<string>)
    requires WritesLists(CommandName(tokens))
    ensures Decode(tokens).Reject? || !Reads(Decode(tokens))
  {
    hide CommandName, Arity, OneKey, DecodeSet, DecodeExpire, DecodeMSet, DecodeLRange, DecodeScan, DecodeMemory,
      Unregistered;
  }

  predicate WritesOthers(name: Name) {
    name == HSET || name == HDEL || name == SADD || name == SREM || name == RENAME || name == FLUSHDB
  }

  lemma OtherCommandsWrite(tokens: seq<string>)
    requires WritesOthers(CommandName(tokens))
    ensures Decode(tokens).Reject? || !Reads(Decode(tokens))
  {
    hide CommandName, Arity, OneKey, DecodeSet, DecodeExpire, DecodeMSet, DecodeLRange, DecodeScan, DecodeMemory,
      Unregistered;
  }

  lemma LoggedNames(name: Name)
    requires MetadataOf(name).category == Write
    ensures WritesStrings(name) || WritesLists(name) || WritesOthers(name) || name == MOVE || name == FLUSHALL
  {
  }

  lemma LoggedIsWrite(name: Name)
    requires MetadataOf(name).appendToAof
    ensures MetadataOf(name).category == Write
  {
  }

  /** And a command it logs, if the command is well formed, writes. */
  lemma LoggedWrites(tokens: seq<string>)
    requires IsAofLogged(tokens) && CommandName(tokens) != MOVE && CommandName(tokens) != FLUSHALL
    ensures Decode(tokens).Reject? || !Reads(Decode(tokens))
  {
    hide CommandName, Decode, Reads;
    LoggedIsWrite(CommandName(tokens));
    LoggedNames(CommandName(tokens));
    if WritesStrings(CommandName(tokens)) {
      StringCommandsWrite(tokens);
    } else if WritesLists(CommandName(tokens)) {
      ListCommandsWrite(tokens);
    } else {
      OtherCommandsWrite(tokens);
    }
  }

  /** The table allows in read-only mode exactly what it does not log, but for PUBLISH. */
  lemma AllowedIffUnlogged(tokens: seq<string>)
    ensures IsAllowedInReadOnly(tokens) <==> !IsAofLogged(tokens) && CommandName(tokens) != PUBLISH
  {
    hide CommandName;
  }

  /** A command the table allows in read-only mode is not logged. */
  lemma AllowedIsUnlogged(tokens: seq<string>)
    requires IsAllowedInReadOnly(tokens)
    ensures !IsAofLogged(tokens)
  {
    hide CommandName;
  }

  lemma ReadKeepsEntry(op: KeyOp, key: string, cur: Option<ValueObject>, now: int)
    requires ReadsKey(op)
    ensures SameEntry(cur, Apply(op, key, cur, now).entry) && !Apply(op, key, cur, now).evicts
  {
  }

  /** Leaving an entry with the same contents where it was found is unobservable. */
  lemma StoreSame(db: Db, key: string, entry: Option<ValueObject>, now: int, t: int)
    requires now <= t && SameEntry(Lookup(db, key, now), entry)
    ensures Live(Store(db, key, entry), t) == Live(db, t)
  {
    LiveOfStore(db, key, entry, t);
  }

  lemma {:induction false} MGetKeepsLive(db: Db, keys: seq<string>, now: int, t: int)
    requires now <= t
    ensures Live(RunMGet(db, keys, now).db, t) == Live(db, t)
  {
    hide Apply, Live, Store, Lookup;
    if keys != [] {
      var front := keys[..|keys| - 1];
      MGetKeepsLive(db, front, now, t);
      SingleReadKeepsLive(RunMGet(db, front, now).db, keys[|keys| - 1], Get, now, t);
    }
  }

  lemma SingleReadKeepsLive(db: Db, key: string, op: KeyOp, now: int, t: int)
    requires now <= t && ReadsKey(op)
    ensures Live(RunSingle(db, key, op, now).db, t) == Live(db, t)
    ensures !RunSingle(db, key, op, now).evicts
  {
    hide Apply, Live, Store, Lookup;
    var cur := Lookup(db, key, now);
    ReadKeepsEntry(op, key, cur, now);
    StoreSame(db, key, Apply(op, key, cur, now).entry, now, t);
  }

  /** Reading requests leave the contents as they were, now and later, and never evict. */
  lemma ReadsKeepLive(request: Request, db: Db, now: int, t: int)
    requires Reads(request) && now <= t
    ensures Live(Run(request, db, now).db, t) == Live(db, t)
    ensures !Run(request, db, now).evicts
  {
    hide Live, RunSingle, RunMGet, Purge, Lines, InfoText, Number;
    match request {
      case Single(key, op) => SingleReadKeepsLive(db, key, op, now, t);
      case MGet(keys) => MGetKeepsLive(db, keys, now, t); MGetNeverEvicts(db, keys, now);
      case Reject(_) =>
      case Ping =>
      case _ => LiveOfPurge(db, now, t);
    }
  }

  // ----- replies that look like errors ------------------------------------------------------------------------

  /** How a failed command is told apart: `response.rfind("ERR ", 0) == 0`. */
  predicate IsError(reply: string) {
    "ERR " <= reply
  }

  /** A pop whose popped element itself starts with the error prefix. */
  predicate PopsErrorText(request: Request, db: Db, now: int) {
    request.Single? && OpPopsErrorText(request.op, Lookup(db, request.key, now))
  }

  predicate OpPopsErrorText(op: KeyOp, cur: Option<ValueObject>) {
    && cur.Some? && cur.value.kind == ListType && cur.value.list != []
    && ((op.LPop? && IsError(cur.value.list[0])) || (op.RPop? && IsError(cur.value.list[|cur.value.list| - 1])))
  }

  lemma NumberIsNoError(n: int)
    ensures !IsError(Number(n))
  {
    ShowHasNoLineEnd(n);
    ScanShow(n);
    assert Number(n)[0] == Show(n)[0];
  }

  lemma LineIsError(s: string)
    ensures IsError(Line(s)) == IsError(s)
  {
    if |s| >= 4 { assert Line(s)[..4] == s[..4]; }
    if |s| == 3 { assert Line(s)[3] == '\n'; }
  }

  lemma ErrorKeepsStringEntry(op: KeyOp, key: string, cur: Option<ValueObject>, now: int)
    requires op.Set? || op.Expire? || op.Persist? || op.IncrBy? || op.Append?
    requires IsError(Apply(op, key, cur, now).reply)
    ensures SameEntry(cur, Apply(op, key, cur, now).entry) && !Apply(op, key, cur, now).evicts
  {
    hide Number, Show, Wrap, ParseInteger;
    forall n ensures !IsError(Number(n)) { NumberIsNoError(n); }
  }

  lemma ErrorKeepsCollectionEntry(op: KeyOp, key: string, cur: Option<ValueObject>, now: int)
    requires op.LPush? || op.RPush? || op.HSet? || op.HDel? || op.SAdd? || op.SRem?
    requires IsError(Apply(op, key, cur, now).reply)
    ensures SameEntry(cur, Apply(op, key, cur, now).entry) && !Apply(op, key, cur, now).evicts
  {
    hide Number, Reversed;
    forall n ensures !IsError(Number(n)) { NumberIsNoError(n); }
  }

  lemma ErrorKeepsPoppedEntry(op: KeyOp, key: string, cur: Option<ValueObject>, now: int)
    requires (op.LPop? || op.RPop?) && !OpPopsErrorText(op, cur)
    requires IsError(Apply(op, key, cur, now).reply)
    ensures SameEntry(cur, Apply(op, key, cur, now).entry) && !Apply(op, key, cur, now).evicts
  {
    hide Line;
    forall s ensures IsError(Line(s)) == IsError(s) { LineIsError(s); }
  }

  lemma ErrorKeepsEntry(op: KeyOp, key: string, cur: Option<ValueObject>, now: int)
    requires IsError(Apply(op, key, cur, now).reply) && !OpPopsErrorText(op, cur)
    ensures SameEntry(cur, Apply(op, key, cur, now).entry) && !Apply(op, key, cur, now).evicts
  {
    hide Apply, IsError, OpPopsErrorText;
    if ReadsKey(op) {
      ReadKeepsEntry(op, key, cur, now);
    } else if op.LPop? || op.RPop? {
      ErrorKeepsPoppedEntry(op, key, cur, now);
    } else if op.LPush? || op.RPush? || op.HSet? || op.HDel? || op.SAdd? || op.SRem? {
      ErrorKeepsCollectionEntry(op, key, cur, now);
    } else {
      ErrorKeepsStringEntry(op, key, cur, now);
    }
  }

  /** A reply with the error prefix means that nothing observable changed, except when a pop
      returned an element that starts with that prefix. */
  lemma ErrorKeepsLive(request: Request, db: Db, now: int, t: int)
    requires now <= t && IsError(Run(request, db, now).reply) && !PopsErrorText(request, db, now)
    ensures Live(Run(request, db, now).db, t) == Live(db, t)
    ensures !Run(request, db, now).evicts
  {
    if Reads(request) {
      hide IsError, Run;
      ReadsKeepLive(request, db, now, t);
    } else {
      hide Live, Apply, Store, Lookup, StoreAll, OpPopsErrorText;
      match request {
        case Single(key, op) =>
          hide IsError;
          ErrorKeepsEntry(op, key, Lookup(db, key, now), now);
          StoreSame(db, key, Apply(op, key, Lookup(db, key, now), now).entry, now, t);
        case Rename(source, _) =>
          StoreSame(db, source, None, now, t);
          assert Store(db, source, None) == db - {source} by { StoreNone(db, source); }
        case _ =>
      }
    }
  }

  lemma StoreNone(db: Db, key: string)
    ensures Store(db, key, None) == db - {key}
  {
  }

  /** Such a pop does change the contents. */
  lemma ErrorTextPopChangesLive(request: Request, db: Db, now: int)
    requires PopsErrorText(request, db, now)
    ensures IsError(Run(request, db, now).reply)
    ensures Live(Run(request, db, now).db, now) != Live(db, now)
  {
    var cur := Lookup(db, request.key, now);
    var list := cur.value.list;
    LineIsError(list[0]);
    LineIsError(list[|list| - 1]);
    hide IsError, Line;
    var f := Apply(request.op, request.key, cur, now);
    LiveOfStore(db, request.key, f.entry, now);
    assert Live(db, now)[request.key].list == list;
  }
}
