/** Requests as clients write them: the tokens of every data command, and what the server does
    with them. Each command is tied to its arguments in their order. */
module Requests {
  import opened Text
  import opened Values
  import opened Operations
  import opened Commands
  import opened Execution

  /** The reply to a request in database `i`, and the databases after it. */
  function Reply(dbs: seq<Db>, i: nat, tokens: seq<string>, now: int): string
    requires i < |dbs|
  {
    Execute(dbs, i, tokens, now).reply
  }

  function After(dbs: seq<Db>, i: nat, tokens: seq<string>, now: int): (after: seq<Db>)
    requires i < |dbs|
    ensures |after| == |dbs|
  {
    Execute(dbs, i, tokens, now).dbs
  }

  /** Nothing has changed but the entry under `key` in database `i`. */
  predicate OnlyKey(dbs: seq<Db>, after: seq<Db>, i: nat, key: string) {
    && |after| == |dbs| && i < |dbs| && after[i] - {key} == dbs[i] - {key}
    && forall j :: 0 <= j < |dbs| && j != i ==> after[j] == dbs[j]
  }


  /** This text, in upper case, is the name of that command. */
  predicate FoundAs(text: string, name: Name) {
    NameOf(text) == name && forall i :: 0 <= i < |text| ==> 'A' <= text[i] <= 'Z'
  }

  /** A command written in upper case, and its arguments. */
  lemma Literal(text: string, name: Name, args: seq<string>)
    requires FoundAs(text, name)
    ensures CommandName([text] + args) == name && ([text] + args)[1..] == args
  {
    hide NameOf;
    AlreadyUpper(text);
  }

  predicate Means(tokens: seq<string>, request: Request) {
    RunsInOne(tokens) && Decode(tokens) == request
  }

  /** A one-key operation and its effect. */
  lemma Runs(dbs: seq<Db>, i: nat, tokens: seq<string>, key: string, op: KeyOp, now: int)
    requires i < |dbs| && Means(tokens, Single(key, op))
    ensures var f := Apply(op, key, Lookup(dbs[i], key, now), now);
            Reply(dbs, i, tokens, now) == f.reply && After(dbs, i, tokens, now) == dbs[i := Store(dbs[i], key, f.entry)]
    ensures OnlyKey(dbs, After(dbs, i, tokens, now), i, key)
  {
    hide CommandName, Decode, Apply;
  }

  /** Its reply alone. */
  lemma Answers(dbs: seq<Db>, i: nat, tokens: seq<string>, key: string, op: KeyOp, now: int)
    requires i < |dbs| && Means(tokens, Single(key, op))
    ensures Reply(dbs, i, tokens, now) == Apply(op, key, Lookup(dbs[i], key, now), now).reply
  {
    hide Means, Apply;
    Runs(dbs, i, tokens, key, op, now);
  }

  /** Any other request of one database. */
  lemma RunsInDb(dbs: seq<Db>, i: nat, tokens: seq<string>, request: Request, now: int)
    requires i < |dbs| && Means(tokens, request)
    ensures var o := Run(request, dbs[i], now);
            Reply(dbs, i, tokens, now) == o.reply && After(dbs, i, tokens, now) == dbs[i := o.db]
  {
    hide CommandName, Decode, Run;
  }

  // ----- one-key commands ------------------------------------------------------------------------

  function SetRequest(key: string, value: string): seq<string> {
    ["SET", key, value]
  }

  lemma SetNamed()
    ensures FoundAs("SET", SET)
  {
  }

  lemma SetMeans(key: string, value: string)
    ensures Means(SetRequest(key, value), Single(key, Set(value, -1)))
  {
    hide FoundAs, NameOf;
    SetNamed();
    assert SetRequest(key, value) == ["SET"] + [key, value];
    Literal("SET", SET, [key, value]);
    assert SetRequest(key, value) != [];
    hide SetRequest, CommandName, Arity, Unregistered, OneKey, DecodeExpire, DecodeMSet, DecodeLRange, DecodeScan,
      DecodeMemory;
  }

  function SetExRequest(key: string, value: string, seconds: nat): seq<string> {
    ["SET", key, value, "EX", Show(seconds)]
  }

  lemma SetExNamed()
    ensures FoundAs("SET", SET)
  {
  }

  lemma SetExArguments(key: string, value: string, seconds: nat)
    requires seconds <= MAX_LL
    ensures DecodeSet([key, value, "EX", Show(seconds)]) == Single(key, Set(value, seconds))
  {
    StollShow(seconds);
    AlreadyUpper("EX");
    hide Show, ParseInteger, ToUpper;
  }

  lemma SetExMeans(key: string, value: string, seconds: nat)
    requires seconds <= MAX_LL
    ensures Means(SetExRequest(key, value, seconds), Single(key, Set(value, seconds)))
  {
    hide FoundAs, NameOf;
    SetExNamed();
    assert SetExRequest(key, value, seconds) == ["SET"] + [key, value, "EX", Show(seconds)];
    Literal("SET", SET, [key, value, "EX", Show(seconds)]);
    SetExArguments(key, value, seconds);
    assert SetExRequest(key, value, seconds) != [];
    hide SetExRequest, CommandName, DecodeSet, Show;
  }

  function GetRequest(key: string): seq<string> {
    ["GET", key]
  }

  lemma GetNamed()
    ensures FoundAs("GET", GET)
  {
  }

  lemma GetMeans(key: string)
    ensures Means(GetRequest(key), Single(key, KeyOp.Get))
  {
    hide FoundAs, NameOf;
    GetNamed();
    assert GetRequest(key) == ["GET"] + [key];
    Literal("GET", GET, [key]);
    assert GetRequest(key) != [];
    hide GetRequest, CommandName, Arity, Unregistered, DecodeSet, DecodeExpire, DecodeMSet, DecodeLRange, DecodeScan,
      DecodeMemory;
  }

  function ExistsRequest(key: string): seq<string> {
    ["EXISTS", key]
  }

  lemma ExistsNamed()
    ensures FoundAs("EXISTS", EXISTS)
  {
  }

  lemma ExistsMeans(key: string)
    ensures Means(ExistsRequest(key), Single(key, KeyOp.Exists))
  {
    hide FoundAs, NameOf;
    ExistsNamed();
    assert ExistsRequest(key) == ["EXISTS"] + [key];
    Literal("EXISTS", EXISTS, [key]);
    assert ExistsRequest(key) != [];
    hide ExistsRequest, CommandName, Arity, Unregistered, DecodeSet, DecodeExpire, DecodeMSet, DecodeLRange,
      DecodeScan, DecodeMemory;
  }

  function ExpireRequest(key: string, seconds: nat): seq<string> {
    ["EXPIRE", key, Show(seconds)]
  }

  lemma ExpireNamed()
    ensures FoundAs("EXPIRE", EXPIRE)
  {
  }

  lemma ExpireArguments(key: string, seconds: nat)
    requires seconds <= MAX_LL
    ensures DecodeExpire([key, Show(seconds)]) == Single(key, Expire(seconds))
  {
    StollShow(seconds);
    hide Show, ParseInteger, ToUpper;
  }

  lemma ExpireMeans(key: string, seconds: nat)
    requires seconds <= MAX_LL
    ensures Means(ExpireRequest(key, seconds), Single(key, Expire(seconds)))
  {
    hide FoundAs, NameOf;
    ExpireNamed();
    assert ExpireRequest(key, seconds) == ["EXPIRE"] + [key, Show(seconds)];
    Literal("EXPIRE", EXPIRE, [key, Show(seconds)]);
    ExpireArguments(key, seconds);
    assert ExpireRequest(key, seconds) != [];
    hide ExpireRequest, CommandName, DecodeExpire, Show;
  }

  function TtlRequest(key: string): seq<string> {
    ["TTL", key]
  }

  lemma TtlNamed()
    ensures FoundAs("TTL", TTL)
  {
  }

  lemma TtlMeans(key: string)
    ensures Means(TtlRequest(key), Single(key, KeyOp.Ttl))
  {
    hide FoundAs, NameOf;
    TtlNamed();
    assert TtlRequest(key) == ["TTL"] + [key];
    Literal("TTL", TTL, [key]);
    assert TtlRequest(key) != [];
    hide TtlRequest, CommandName, Arity, Unregistered, DecodeSet, DecodeExpire, DecodeMSet, DecodeLRange, DecodeScan,
      DecodeMemory;
  }

  function PersistRequest(key: string): seq<string> {
    ["PERSIST", key]
  }

  lemma PersistNamed()
    ensures FoundAs("PERSIST", PERSIST)
  {
  }

  lemma PersistMeans(key: string)
    ensures Means(PersistRequest(key), Single(key, KeyOp.Persist))
  {
    hide FoundAs, NameOf;
    PersistNamed();
    assert PersistRequest(key) == ["PERSIST"] + [key];
    Literal("PERSIST", PERSIST, [key]);
    assert PersistRequest(key) != [];
    hide PersistRequest, CommandName, Arity, Unregistered, DecodeSet, DecodeExpire, DecodeMSet, DecodeLRange,
      DecodeScan, DecodeMemory;
  }

  function IncrRequest(key: string): seq<string> {
    ["INCR", key]
  }

  lemma IncrNamed()
    ensures FoundAs("INCR", INCR)
  {
  }

  lemma IncrMeans(key: string)
    ensures Means(IncrRequest(key), Single(key, IncrBy(1)))
  {
    hide FoundAs, NameOf;
    IncrNamed();
    assert IncrRequest(key) == ["INCR"] + [key];
    Literal("INCR", INCR, [key]);
    assert IncrRequest(key) != [];
    hide IncrRequest, CommandName, Arity, Unregistered, DecodeSet, DecodeExpire, DecodeMSet, DecodeLRange, DecodeScan,
      DecodeMemory;
  }

  function DecrRequest(key: string): seq<string> {
    ["DECR", key]
  }

  lemma DecrNamed()
    ensures FoundAs("DECR", DECR)
  {
  }

  lemma DecrMeans(key: string)
    ensures Means(DecrRequest(key), Single(key, IncrBy(-1)))
  {
    hide FoundAs, NameOf;
    DecrNamed();
    assert DecrRequest(key) == ["DECR"] + [key];
    Literal("DECR", DECR, [key]);
    assert DecrRequest(key) != [];
    hide DecrRequest, CommandName, Arity, Unregistered, DecodeSet, DecodeExpire, DecodeMSet, DecodeLRange, DecodeScan,
      DecodeMemory;
  }

  function AppendRequest(key: string, suffix: string): seq<string> {
    ["APPEND", key, suffix]
  }

  lemma AppendNamed()
    ensures FoundAs("APPEND", APPEND)
  {
  }

  lemma AppendMeans(key: string, suffix: string)
    ensures Means(AppendRequest(key, suffix), Single(key, Append(suffix)))
  {
    hide FoundAs, NameOf;
    AppendNamed();
    assert AppendRequest(key, suffix) == ["APPEND"] + [key, suffix];
    Literal("APPEND", APPEND, [key, suffix]);
    assert AppendRequest(key, suffix) != [];
    hide AppendRequest, CommandName, Arity, Unregistered, OneKey, DecodeSet, DecodeExpire, DecodeMSet, DecodeLRange,
      DecodeScan,
      DecodeMemory;
  }

  function StrlenRequest(key: string): seq<string> {
    ["STRLEN", key]
  }

  lemma StrlenNamed()
    ensures FoundAs("STRLEN", STRLEN)
  {
  }

  lemma StrlenMeans(key: string)
    ensures Means(StrlenRequest(key), Single(key, KeyOp.Strlen))
  {
    hide FoundAs, NameOf;
    StrlenNamed();
    assert StrlenRequest(key) == ["STRLEN"] + [key];
    Literal("STRLEN", STRLEN, [key]);
    assert StrlenRequest(key) != [];
    hide StrlenRequest, CommandName, Arity, Unregistered, DecodeSet, DecodeExpire, DecodeMSet, DecodeLRange,
      DecodeScan, DecodeMemory;
  }

  function TypeRequest(key: string): seq<string> {
    ["TYPE", key]
  }

  lemma TypeNamed()
    ensures FoundAs("TYPE", TYPE)
  {
  }

  lemma TypeMeans(key: string)
    ensures Means(TypeRequest(key), Single(key, KeyOp.Type))
  {
    hide FoundAs, NameOf;
    TypeNamed();
    assert TypeRequest(key) == ["TYPE"] + [key];
    Literal("TYPE", TYPE, [key]);
    assert TypeRequest(key) != [];
    hide TypeRequest, CommandName, Arity, Unregistered, DecodeSet, DecodeExpire, DecodeMSet, DecodeLRange, DecodeScan,
      DecodeMemory;
  }

  function LPopRequest(key: string): seq<string> {
    ["LPOP", key]
  }

  lemma LPopNamed()
    ensures FoundAs("LPOP", LPOP)
  {
  }

  lemma LPopMeans(key: string)
    ensures Means(LPopRequest(key), Single(key, KeyOp.LPop))
  {
    hide FoundAs, NameOf;
    LPopNamed();
    assert LPopRequest(key) == ["LPOP"] + [key];
    Literal("LPOP", LPOP, [key]);
    assert LPopRequest(key) != [];
    hide LPopRequest, CommandName, Arity, Unregistered, DecodeSet, DecodeExpire, DecodeMSet, DecodeLRange, DecodeScan,
      DecodeMemory;
  }

  function RPopRequest(key: string): seq<string> {
    ["RPOP", key]
  }

  lemma RPopNamed()
    ensures FoundAs("RPOP", RPOP)
  {
  }

  lemma RPopMeans(key: string)
    ensures Means(RPopRequest(key), Single(key, KeyOp.RPop))
  {
    hide FoundAs, NameOf;
    RPopNamed();
    assert RPopRequest(key) == ["RPOP"] + [key];
    Literal("RPOP", RPOP, [key]);
    assert RPopRequest(key) != [];
    hide RPopRequest, CommandName, Arity, Unregistered, DecodeSet, DecodeExpire, DecodeMSet, DecodeLRange, DecodeScan,
      DecodeMemory;
  }

  function LRangeRequest(key: string, start: int, stop: int): seq<string> {
    ["LRANGE", key, Show(start), Show(stop)]
  }

  lemma LRangeNamed()
    ensures FoundAs("LRANGE", LRANGE)
  {
  }

  lemma LRangeArguments(key: string, start: int, stop: int)
    requires MIN_LL <= start <= MAX_LL && MIN_LL <= stop <= MAX_LL
    ensures DecodeLRange([key, Show(start), Show(stop)]) == Single(key, LRange(start, stop))
  {
    StollShow(start);
    StollShow(stop);
    hide Show, ParseInteger, ToUpper;
  }

  lemma LRangeMeans(key: string, start: int, stop: int)
    requires MIN_LL <= start <= MAX_LL && MIN_LL <= stop <= MAX_LL
    ensures Means(LRangeRequest(key, start, stop), Single(key, LRange(start, stop)))
  {
    hide FoundAs, NameOf;
    LRangeNamed();
    assert LRangeRequest(key, start, stop) == ["LRANGE"] + [key, Show(start), Show(stop)];
    Literal("LRANGE", LRANGE, [key, Show(start), Show(stop)]);
    LRangeArguments(key, start, stop);
    assert LRangeRequest(key, start, stop) != [];
    hide LRangeRequest, CommandName, DecodeLRange, Show;
  }

  function HSetRequest(key: string, field: string, content: string): seq<string> {
    ["HSET", key, field, content]
  }

  lemma HSetNamed()
    ensures FoundAs("HSET", HSET)
  {
  }

  lemma HSetMeans(key: string, field: string, content: string)
    ensures Means(HSetRequest(key, field, content), Single(key, HSet(field, content)))
  {
    hide FoundAs, NameOf;
    HSetNamed();
    assert HSetRequest(key, field, content) == ["HSET"] + [key, field, content];
    Literal("HSET", HSET, [key, field, content]);
    assert HSetRequest(key, field, content) != [];
    hide HSetRequest, CommandName, Arity, Unregistered, OneKey, DecodeSet, DecodeExpire, DecodeMSet, DecodeLRange,
      DecodeScan,
      DecodeMemory;
  }

  function HGetRequest(key: string, field: string): seq<string> {
    ["HGET", key, field]
  }

  lemma HGetNamed()
    ensures FoundAs("HGET", HGET)
  {
  }

  lemma HGetMeans(key: string, field: string)
    ensures Means(HGetRequest(key, field), Single(key, HGet(field)))
  {
    hide FoundAs, NameOf;
    HGetNamed();
    assert HGetRequest(key, field) == ["HGET"] + [key, field];
    Literal("HGET", HGET, [key, field]);
    assert HGetRequest(key, field) != [];
    hide HGetRequest, CommandName, Arity, Unregistered, OneKey, DecodeSet, DecodeExpire, DecodeMSet, DecodeLRange,
      DecodeScan,
      DecodeMemory;
  }

  function HDelRequest(key: string, field: string): seq<string> {
    ["HDEL", key, field]
  }

  lemma HDelNamed()
    ensures FoundAs("HDEL", HDEL)
  {
  }

  lemma HDelMeans(key: string, field: string)
    ensures Means(HDelRequest(key, field), Single(key, HDel(field)))
  {
    hide FoundAs, NameOf;
    HDelNamed();
    assert HDelRequest(key, field) == ["HDEL"] + [key, field];
    Literal("HDEL", HDEL, [key, field]);
    assert HDelRequest(key, field) != [];
    hide HDelRequest, CommandName, Arity, Unregistered, OneKey, DecodeSet, DecodeExpire, DecodeMSet, DecodeLRange,
      DecodeScan,
      DecodeMemory;
  }

  function HExistsRequest(key: string, field: string): seq<string> {
    ["HEXISTS", key, field]
  }

  lemma HExistsNamed()
    ensures FoundAs("HEXISTS", HEXISTS)
  {
  }

  lemma HExistsMeans(key: string, field: string)
    ensures Means(HExistsRequest(key, field), Single(key, HExists(field)))
  {
    hide FoundAs, NameOf;
    HExistsNamed();
    assert HExistsRequest(key, field) == ["HEXISTS"] + [key, field];
    Literal("HEXISTS", HEXISTS, [key, field]);
    assert HExistsRequest(key, field) != [];
    hide HExistsRequest, CommandName, Arity, Unregistered, OneKey, DecodeSet, DecodeExpire, DecodeMSet, DecodeLRange,
      DecodeScan,
      DecodeMemory;
  }

  function HGetAllRequest(key: string): seq<string> {
    ["HGETALL", key]
  }

  lemma HGetAllNamed()
    ensures FoundAs("HGETALL", HGETALL)
  {
  }

  lemma HGetAllMeans(key: string)
    ensures Means(HGetAllRequest(key), Single(key, KeyOp.HGetAll))
  {
    hide FoundAs, NameOf;
    HGetAllNamed();
    assert HGetAllRequest(key) == ["HGETALL"] + [key];
    Literal("HGETALL", HGETALL, [key]);
    assert HGetAllRequest(key) != [];
    hide HGetAllRequest, CommandName, Arity, Unregistered, DecodeSet, DecodeExpire, DecodeMSet, DecodeLRange,
      DecodeScan, DecodeMemory;
  }

  function SIsMemberRequest(key: string, item: string): seq<string> {
    ["SISMEMBER", key, item]
  }

  lemma SIsMemberNamed()
    ensures FoundAs("SISMEMBER", SISMEMBER)
  {
  }

  lemma SIsMemberMeans(key: string, item: string)
    ensures Means(SIsMemberRequest(key, item), Single(key, SIsMember(item)))
  {
    hide FoundAs, NameOf;
    SIsMemberNamed();
    assert SIsMemberRequest(key, item) == ["SISMEMBER"] + [key, item];
    Literal("SISMEMBER", SISMEMBER, [key, item]);
    assert SIsMemberRequest(key, item) != [];
    hide SIsMemberRequest, CommandName, Arity, Unregistered, OneKey, DecodeSet, DecodeExpire, DecodeMSet, DecodeLRange,
      DecodeScan,
      DecodeMemory;
  }

  function SMembersRequest(key: string): seq<string> {
    ["SMEMBERS", key]
  }

  lemma SMembersNamed()
    ensures FoundAs("SMEMBERS", SMEMBERS)
  {
  }

  lemma SMembersMeans(key: string)
    ensures Means(SMembersRequest(key), Single(key, KeyOp.SMembers))
  {
    hide FoundAs, NameOf;
    SMembersNamed();
    assert SMembersRequest(key) == ["SMEMBERS"] + [key];
    Literal("SMEMBERS", SMEMBERS, [key]);
    assert SMembersRequest(key) != [];
    hide SMembersRequest, CommandName, Arity, Unregistered, DecodeSet, DecodeExpire, DecodeMSet, DecodeLRange,
      DecodeScan, DecodeMemory;
  }

  function SCardRequest(key: string): seq<string> {
    ["SCARD", key]
  }

  lemma SCardNamed()
    ensures FoundAs("SCARD", SCARD)
  {
  }

  lemma SCardMeans(key: string)
    ensures Means(SCardRequest(key), Single(key, KeyOp.SCard))
  {
    hide FoundAs, NameOf;
    SCardNamed();
    assert SCardRequest(key) == ["SCARD"] + [key];
    Literal("SCARD", SCARD, [key]);
    assert SCardRequest(key) != [];
    hide SCardRequest, CommandName, Arity, Unregistered, DecodeSet, DecodeExpire, DecodeMSet, DecodeLRange, DecodeScan,
      DecodeMemory;
  }

  function LPushRequest(key: string, items: seq<string>): seq<string> {
    ["LPUSH", key] + items
  }

  lemma LPushNamed()
    ensures FoundAs("LPUSH", LPUSH)
  {
  }

  lemma LPushMeans(key: string, items: seq<string>)
    requires items != []
    ensures Means(LPushRequest(key, items), Single(key, LPush(items)))
  {
    hide FoundAs, NameOf;
    LPushNamed();
    assert LPushRequest(key, items) == ["LPUSH"] + ([key] + items);
    Literal("LPUSH", LPUSH, ([key] + items));
    assert ([key] + items)[1..] == items;
    assert LPushRequest(key, items) != [];
    hide LPushRequest, CommandName, Arity, Unregistered, OneKey, DecodeSet, DecodeExpire, DecodeMSet, DecodeLRange,
      DecodeScan,
      DecodeMemory;
  }

  function RPushRequest(key: string, items: seq<string>): seq<string> {
    ["RPUSH", key] + items
  }

  lemma RPushNamed()
    ensures FoundAs("RPUSH", RPUSH)
  {
  }

  lemma RPushMeans(key: string, items: seq<string>)
    requires items != []
    ensures Means(RPushRequest(key, items), Single(key, RPush(items)))
  {
    hide FoundAs, NameOf;
    RPushNamed();
    assert RPushRequest(key, items) == ["RPUSH"] + ([key] + items);
    Literal("RPUSH", RPUSH, ([key] + items));
    assert ([key] + items)[1..] == items;
    assert RPushRequest(key, items) != [];
    hide RPushRequest, CommandName, Arity, Unregistered, OneKey, DecodeSet, DecodeExpire, DecodeMSet, DecodeLRange,
      DecodeScan,
      DecodeMemory;
  }

  function SAddRequest(key: string, items: seq<string>): seq<string> {
    ["SADD", key] + items
  }

  lemma SAddNamed()
    ensures FoundAs("SADD", SADD)
  {
  }

  lemma SAddMeans(key: string, items: seq<string>)
    requires items != []
    ensures Means(SAddRequest(key, items), Single(key, SAdd(items)))
  {
    hide FoundAs, NameOf;
    SAddNamed();
    assert SAddRequest(key, items) == ["SADD"] + ([key] + items);
    Literal("SADD", SADD, ([key] + items));
    assert ([key] + items)[1..] == items;
    assert SAddRequest(key, items) != [];
    hide SAddRequest, CommandName, Arity, Unregistered, OneKey, DecodeSet, DecodeExpire, DecodeMSet, DecodeLRange,
      DecodeScan,
      DecodeMemory;
  }

  function SRemRequest(key: string, items: seq<string>): seq<string> {
    ["SREM", key] + items
  }

  lemma SRemNamed()
    ensures FoundAs("SREM", SREM)
  {
  }

  lemma SRemMeans(key: string, items: seq<string>)
    requires items != []
    ensures Means(SRemRequest(key, items), Single(key, SRem(items)))
  {
    hide FoundAs, NameOf;
    SRemNamed();
    assert SRemRequest(key, items) == ["SREM"] + ([key] + items);
    Literal("SREM", SREM, ([key] + items));
    assert ([key] + items)[1..] == items;
    assert SRemRequest(key, items) != [];
    hide SRemRequest, CommandName, Arity, Unregistered, OneKey, DecodeSet, DecodeExpire, DecodeMSet, DecodeLRange,
      DecodeScan,
      DecodeMemory;
  }

  // ----- other commands --------------------------------------------------------------------------

  function DelRequest(key: string): seq<string> {
    ["DEL", key]
  }

  lemma DelNamed()
    ensures FoundAs("DEL", DEL)
  {
  }

  lemma DelMeans(key: string)
    ensures Means(DelRequest(key), Request.Del(key))
  {
    hide FoundAs, NameOf;
    DelNamed();
    assert DelRequest(key) == ["DEL"] + [key];
    Literal("DEL", DEL, [key]);
    assert DelRequest(key) != [];
    hide DelRequest, CommandName, Arity, Unregistered, OneKey, DecodeSet, DecodeExpire, DecodeMSet, DecodeLRange,
      DecodeScan,
      DecodeMemory;
  }

  function MemoryRequest(key: string): seq<string> {
    ["MEMORY", "USAGE", key]
  }

  lemma MemoryNamed()
    ensures FoundAs("MEMORY", MEMORY)
  {
  }

  lemma MemoryArguments(key: string)
    ensures DecodeMemory(["USAGE", key]) == Single(key, MemoryUsage)
  {
    AlreadyUpper("USAGE");
    hide Show, ParseInteger, ToUpper;
  }

  lemma MemoryMeans(key: string)
    ensures Means(MemoryRequest(key), Single(key, MemoryUsage))
  {
    hide FoundAs, NameOf;
    MemoryNamed();
    assert MemoryRequest(key) == ["MEMORY"] + ["USAGE", key];
    Literal("MEMORY", MEMORY, ["USAGE", key]);
    MemoryArguments(key);
    assert MemoryRequest(key) != [];
    hide MemoryRequest, CommandName, DecodeMemory, Show;
  }

  function MGetRequest(keys: seq<string>): seq<string> {
    ["MGET"] + keys
  }

  lemma MGetNamed()
    ensures FoundAs("MGET", MGET)
  {
  }

  lemma MGetMeans(keys: seq<string>)
    requires keys != []
    ensures Means(MGetRequest(keys), Request.MGet(keys))
  {
    hide FoundAs, NameOf;
    MGetNamed();
    Literal("MGET", MGET, keys);
    assert MGetRequest(keys) != [];
    hide MGetRequest, CommandName, Arity, Unregistered, OneKey, DecodeSet, DecodeExpire, DecodeMSet, DecodeLRange,
      DecodeScan,
      DecodeMemory;
  }

  function RenameRequest(source: string, destination: string): seq<string> {
    ["RENAME", source, destination]
  }

  lemma RenameNamed()
    ensures FoundAs("RENAME", RENAME)
  {
  }

  lemma RenameMeans(source: string, destination: string)
    ensures Means(RenameRequest(source, destination), Request.Rename(source, destination))
  {
    hide FoundAs, NameOf;
    RenameNamed();
    assert RenameRequest(source, destination) == ["RENAME"] + [source, destination];
    Literal("RENAME", RENAME, [source, destination]);
    assert RenameRequest(source, destination) != [];
    hide RenameRequest, CommandName, Arity, Unregistered, OneKey, DecodeSet, DecodeExpire, DecodeMSet, DecodeLRange,
      DecodeScan,
      DecodeMemory;
  }

  function KeysRequest(pattern: string): seq<string> {
    ["KEYS", pattern]
  }

  lemma KeysNamed()
    ensures FoundAs("KEYS", KEYS)
  {
  }

  lemma KeysMeans(pattern: string)
    ensures Means(KeysRequest(pattern), Request.Keys(pattern))
  {
    hide FoundAs, NameOf;
    KeysNamed();
    assert KeysRequest(pattern) == ["KEYS"] + [pattern];
    Literal("KEYS", KEYS, [pattern]);
    assert KeysRequest(pattern) != [];
    hide KeysRequest, CommandName, Arity, Unregistered, OneKey, DecodeSet, DecodeExpire, DecodeMSet, DecodeLRange,
      DecodeScan,
      DecodeMemory;
  }

  function ScanRequest(pattern: string): seq<string> {
    ["SCAN", "0", "MATCH", pattern]
  }

  lemma ScanNamed()
    ensures FoundAs("SCAN", SCAN)
  {
  }

  lemma ScanArguments(pattern: string)
    ensures DecodeScan(["0", "MATCH", pattern]) == Request.Scan(pattern)
  {
    AlreadyUpper("MATCH");
    hide Show, ParseInteger, ToUpper;
  }

  lemma ScanMeans(pattern: string)
    ensures Means(ScanRequest(pattern), Request.Scan(pattern))
  {
    hide FoundAs, NameOf;
    ScanNamed();
    assert ScanRequest(pattern) == ["SCAN"] + ["0", "MATCH", pattern];
    Literal("SCAN", SCAN, ["0", "MATCH", pattern]);
    ScanArguments(pattern);
    assert ScanRequest(pattern) != [];
    hide ScanRequest, CommandName, DecodeScan, Show;
  }

  function DbSizeRequest(): seq<string> {
    ["DBSIZE"]
  }

  lemma DbSizeNamed()
    ensures FoundAs("DBSIZE", DBSIZE)
  {
  }

  lemma DbSizeMeans()
    ensures Means(DbSizeRequest(), Request.DbSize)
  {
    hide FoundAs, NameOf;
    DbSizeNamed();
    assert DbSizeRequest() == ["DBSIZE"] + [];
    Literal("DBSIZE", DBSIZE, []);
    assert DbSizeRequest() != [];
    hide DbSizeRequest, CommandName, Arity, Unregistered, OneKey, DecodeSet, DecodeExpire, DecodeMSet, DecodeLRange,
      DecodeScan,
      DecodeMemory;
  }

  function FlushDbRequest(): seq<string> {
    ["FLUSHDB"]
  }

  lemma FlushDbNamed()
    ensures FoundAs("FLUSHDB", FLUSHDB)
  {
  }

  lemma FlushDbMeans()
    ensures Means(FlushDbRequest(), Request.FlushDb)
  {
    hide FoundAs, NameOf;
    FlushDbNamed();
    assert FlushDbRequest() == ["FLUSHDB"] + [];
    Literal("FLUSHDB", FLUSHDB, []);
    assert FlushDbRequest() != [];
    hide FlushDbRequest, CommandName, Arity, Unregistered, OneKey, DecodeSet, DecodeExpire, DecodeMSet, DecodeLRange,
      DecodeScan,
      DecodeMemory;
  }

  function InfoRequest(): seq<string> {
    ["INFO"]
  }

  lemma InfoNamed()
    ensures FoundAs("INFO", INFO)
  {
  }

  lemma InfoMeans()
    ensures Means(InfoRequest(), Request.Info)
  {
    hide FoundAs, NameOf;
    InfoNamed();
    assert InfoRequest() == ["INFO"] + [];
    Literal("INFO", INFO, []);
    hide InfoRequest, CommandName, Arity, Unregistered, OneKey, DecodeSet, DecodeExpire, DecodeMSet, DecodeLRange,
      DecodeScan, DecodeMemory;
  }

  /** MSET with its pairs written one after the other. */
  function Flattened(entries: seq<(string, string)>): (r: seq<string>)
    ensures |r| == 2 * |entries|
    ensures forall j :: 0 <= j < |entries| ==> r[2 * j] == entries[j].0 && r[2 * j + 1] == entries[j].1
  {
    if entries == [] then []
    else Flattened(entries[..|entries| - 1]) + [entries[|entries| - 1].0, entries[|entries| - 1].1]
  }

  function MSetRequest(entries: seq<(string, string)>): seq<string> {
    ["MSET"] + Flattened(entries)
  }

  lemma MSetNamed()
    ensures FoundAs("MSET", MSET)
  {
  }

  lemma MSetMeans(entries: seq<(string, string)>)
    requires entries != []
    ensures Means(MSetRequest(entries), Request.MSet(entries))
  {
    var args := Flattened(entries);
    hide FoundAs, NameOf, Flattened;
    MSetNamed();
    Literal("MSET", MSET, args);
    hide CommandName;
    var pairs := seq(|args| / 2, j requires 0 <= j < |args| / 2 => (args[2 * j], args[2 * j + 1]));
    assert pairs == entries;
  }

  function FlushAllRequest(): seq<string> {
    ["FLUSHALL"]
  }

  lemma FlushAllNamed()
    ensures FoundAs("FLUSHALL", FLUSHALL)
  {
  }

  lemma FlushAllRuns(dbs: seq<Db>, i: nat, now: int)
    requires i < |dbs|
    ensures Execute(dbs, i, FlushAllRequest(), now) == Executed(Emptied(|dbs|), "OK\n", None)
  {
    hide FoundAs, NameOf, ExecuteMove, ExecuteInOne;
    FlushAllNamed();
    assert FlushAllRequest() == ["FLUSHALL"] + [];
    Literal("FLUSHALL", FLUSHALL, []);
    hide CommandName, FlushAllRequest;
  }

  function MoveRequest(key: string, db: nat): seq<string> {
    ["MOVE", key, Show(db)]
  }

  /** The decimal text of a database number names that database, if there is one. */
  lemma IndexOfShow(db: nat, n: nat)
    requires db <= MAX_ULL
    ensures DatabaseIndex(Show(db), n) == if db < n then Some(db) else None
  {
    StoullShow(db);
    DecimalDenotes(db);
    assert IsDigit(Show(db)[0]);
    hide Stoull, Show;
  }

  lemma MoveNamed()
    ensures FoundAs("MOVE", MOVE)
  {
  }

  lemma MoveRuns(dbs: seq<Db>, i: nat, key: string, db: nat, now: int)
    requires i < |dbs| && db <= MAX_ULL
    ensures Execute(dbs, i, MoveRequest(key, db), now) ==
            if db < |dbs| then MoveBetween(dbs, i, key, db, now) else Executed(dbs, "ERR DB index is out of range\n",
                                                                               None)
  {
    hide FoundAs, NameOf, Show, MoveBetween, DatabaseIndex, ExecuteFlushAll, ExecuteInOne;
    MoveNamed();
    assert MoveRequest(key, db) == ["MOVE"] + [key, Show(db)];
    Literal("MOVE", MOVE, [key, Show(db)]);
    IndexOfShow(db, |dbs|);
    hide CommandName;
  }

  // ----- upper and lower case --------------------------------------------------------------------

  function Lower(s: string): (r: string)
    ensures |r| == |s|
    ensures forall i :: 0 <= i < |s| ==> r[i] == if 'A' <= s[i] <= 'Z' then (s[i] as int + 32) as char else s[i]
  {
    seq(|s|, i requires 0 <= i < |s| => if 'A' <= s[i] <= 'Z' then (s[i] as int + 32) as char else s[i])
  }

  lemma {:induction false} UpperOfLower(s: string)
    requires forall i :: 0 <= i < |s| ==> 'A' <= s[i] <= 'Z'
    ensures ToUpper(Lower(s)) == s
  {
    if s != [] {
      UpperOfLower(s[1..]);
      assert Lower(s)[1..] == Lower(s[1..]);
    }
  }

  /** A command written in lower case is the same command. */
  lemma CaseDoesNotMatter(name: string, args: seq<string>)
    requires forall i :: 0 <= i < |name| ==> 'A' <= name[i] <= 'Z'
    ensures CommandName([Lower(name)] + args) == CommandName([name] + args)
  {
    hide NameOf, ToUpper, Lower;
    UpperOfLower(name);
    AlreadyUpper(name);
  }
}
