/** What clients see of keys: after a request, what later requests reply. Deleting, renaming,
    moving, expiring and listing, stated over tokens and replies. */
module KeyLaws {
  import opened Text
  import opened Values
  import opened Memory
  import opened Glob
  import opened Operations
  import opened Agreement
  import opened Commands
  import opened Execution
  import opened Requests

  /** Nothing is there, or it has expired. */
  predicate Absent(dbs: seq<Db>, i: nat, key: string, t: int)
    requires i < |dbs|
  {
    Lookup(dbs[i], key, t).None?
  }

  // ----- keys that are not there -----------------------------------------------------------------

  lemma MissingKey(dbs: seq<Db>, i: nat, key: string, t: int)
    requires i < |dbs| && Absent(dbs, i, key, t)
    ensures Reply(dbs, i, GetRequest(key), t) == "(nil)\n" && Reply(dbs, i, ExistsRequest(key), t) == "0\n"
    ensures Reply(dbs, i, TypeRequest(key), t) == "none\n" && Reply(dbs, i, TtlRequest(key), t) == "-2\n"
    ensures Reply(dbs, i, StrlenRequest(key), t) == "0\n" && Reply(dbs, i, MemoryRequest(key), t) == "(nil)\n"
  {
    hide Reply, After, Means, GetRequest, ExistsRequest, TypeRequest, TtlRequest, StrlenRequest, MemoryRequest, OnlyKey;
    GetMeans(key);
    Runs(dbs, i, GetRequest(key), key, KeyOp.Get, t);
    ExistsMeans(key);
    Runs(dbs, i, ExistsRequest(key), key, KeyOp.Exists, t);
    TypeMeans(key);
    Runs(dbs, i, TypeRequest(key), key, KeyOp.Type, t);
    TtlMeans(key);
    Runs(dbs, i, TtlRequest(key), key, KeyOp.Ttl, t);
    StrlenMeans(key);
    Runs(dbs, i, StrlenRequest(key), key, KeyOp.Strlen, t);
    MemoryMeans(key);
    Runs(dbs, i, MemoryRequest(key), key, MemoryUsage, t);
  }

  lemma MissingCollection(dbs: seq<Db>, i: nat, key: string, x: string, t: int)
    requires i < |dbs| && Absent(dbs, i, key, t)
    ensures Reply(dbs, i, LPopRequest(key), t) == "(nil)\n" && Reply(dbs, i, RPopRequest(key), t) == "(nil)\n"
    ensures Reply(dbs, i, HGetRequest(key, x), t) == "(nil)\n" && Reply(dbs, i, HExistsRequest(key, x), t) == "0\n"
    ensures Reply(dbs, i, SIsMemberRequest(key, x), t) == "0\n" && Reply(dbs, i, SCardRequest(key), t) == "0\n"
  {
    hide Reply, After, Means, LPopRequest, RPopRequest, HGetRequest, HExistsRequest, SIsMemberRequest, SCardRequest,
      OnlyKey;
    LPopMeans(key);
    Runs(dbs, i, LPopRequest(key), key, KeyOp.LPop, t);
    RPopMeans(key);
    Runs(dbs, i, RPopRequest(key), key, KeyOp.RPop, t);
    HGetMeans(key, x);
    Runs(dbs, i, HGetRequest(key, x), key, HGet(x), t);
    HExistsMeans(key, x);
    Runs(dbs, i, HExistsRequest(key, x), key, HExists(x), t);
    SIsMemberMeans(key, x);
    Runs(dbs, i, SIsMemberRequest(key, x), key, SIsMember(x), t);
    SCardMeans(key);
    Runs(dbs, i, SCardRequest(key), key, KeyOp.SCard, t);
  }

  /** EXISTS says whether a client could see the key. */
  lemma ExistsIff(dbs: seq<Db>, i: nat, key: string, t: int)
    requires i < |dbs|
    ensures Reply(dbs, i, ExistsRequest(key), t) == if key in Live(dbs[i], t) then "1\n" else "0\n"
  {
    hide Reply, After, Means, ExistsRequest, OnlyKey;
    ExistsMeans(key);
    Runs(dbs, i, ExistsRequest(key), key, KeyOp.Exists, t);
  }

  lemma TypeIs(dbs: seq<Db>, i: nat, key: string, t: int)
    requires i < |dbs| && key in Live(dbs[i], t)
    ensures Reply(dbs, i, TypeRequest(key), t) ==
            match Live(dbs[i], t)[key].kind
            case StringType => "string\n"
            case ListType => "list\n"
            case HashType => "hash\n"
            case SetType => "set\n"
  {
    hide Reply, After, Means, TypeRequest, OnlyKey;
    TypeMeans(key);
    Runs(dbs, i, TypeRequest(key), key, KeyOp.Type, t);
  }

  // ----- DEL -------------------------------------------------------------------------------------

  /** After DEL nothing is seen of the key at any time, every other key is as it was, and the
      reply says whether the key was stored. */
  lemma DelForgets(dbs: seq<Db>, i: nat, key: string, now: int, t: int)
    requires i < |dbs|
    ensures var after := After(dbs, i, DelRequest(key), now);
            && Absent(after, i, key, t) && OnlyKey(dbs, after, i, key)
            && Reply(after, i, ExistsRequest(key), t) == "0\n" && Reply(after, i, GetRequest(key), t) == "(nil)\n"
            && Reply(after, i, TypeRequest(key), t) == "none\n"
    ensures Reply(dbs, i, DelRequest(key), now) == if key in dbs[i] then "1\n" else "0\n"
  {
    hide Reply, Means, DelRequest, GetRequest, ExistsRequest, TypeRequest;
    DelMeans(key);
    RunsInDb(dbs, i, DelRequest(key), Request.Del(key), now);
    var after := After(dbs, i, DelRequest(key), now);
    assert after == dbs[i := dbs[i] - {key}];
    hide After, Run;
    MissingKey(after, i, key, t);
  }

  // ----- the same contents, the same replies -----------------------------------------------------

  /** Wherever the same contents are stored, a one-key request gets the same reply (only MEMORY
      USAGE counts the key itself). */
  lemma SameReply(a: seq<Db>, i: nat, asked: seq<string>, k: string, b: seq<Db>, j: nat, asks: seq<string>, l: string,
                  op: KeyOp, t: int)
    requires i < |a| && j < |b| && Means(asked, Single(k, op)) && Means(asks, Single(l, op))
    requires SameEntry(Lookup(a[i], k, t), Lookup(b[j], l, t)) && (k == l || !op.MemoryUsage?)
    ensures Reply(a, i, asked, t) == Reply(b, j, asks, t)
  {
    hide Reply, After, Means, OnlyKey, Lookup;
    Runs(a, i, asked, k, op, t);
    Runs(b, j, asks, l, op, t);
    KeyDoesNotMatter(op, k, l, Lookup(a[i], k, t), t);
    hide Apply;
    ApplyAgrees(op, l, Lookup(a[i], k, t), Lookup(b[j], l, t), t, t);
  }

  lemma KeyDoesNotMatter(op: KeyOp, k: string, l: string, cur: Option<ValueObject>, t: int)
    requires k == l || !op.MemoryUsage?
    ensures Apply(op, k, cur, t) == Apply(op, l, cur, t)
  {
    hide Number, Line, Lines, FieldLines, WrongType, EstimateBytes, ParseInteger, Show, Wrap, NormalizeRange, Reversed,
      AsSet;
  }

  // ----- RENAME ----------------------------------------------------------------------------------

  /** RENAME of a key that is there: the source is gone, the destination answers every one-key
      request as the source would have, and no other key is touched. */
  lemma RenameMoves(dbs: seq<Db>, i: nat, source: string, destination: string, now: int, t: int, op: KeyOp,
                    asked: seq<string>, asks: seq<string>)
    requires i < |dbs| && source != destination && !Absent(dbs, i, source, now)
    requires Means(asked, Single(source, op)) && Means(asks, Single(destination, op)) && !op.MemoryUsage?
    ensures Reply(dbs, i, RenameRequest(source, destination), now) == "OK\n"
    ensures var after := After(dbs, i, RenameRequest(source, destination), now);
            && Absent(after, i, source, t) && Reply(after, i, asks, t) == Reply(dbs, i, asked, t)
            && after[i] - {source, destination} == dbs[i] - {source, destination}
            && forall j :: 0 <= j < |dbs| && j != i ==> after[j] == dbs[j]
  {
    hide Reply, Means, RenameRequest;
    RenameMeans(source, destination);
    RunsInDb(dbs, i, RenameRequest(source, destination), Request.Rename(source, destination), now);
    var after, e := After(dbs, i, RenameRequest(source, destination), now), Touch(dbs[i][source], now);
    assert after == dbs[i := dbs[i][destination := e] - {source}];
    hide After, Run;
    SameReply(dbs, i, asked, source, after, i, asks, destination, op, t);
  }

  lemma RenameOfMissing(dbs: seq<Db>, i: nat, source: string, destination: string, now: int, t: int)
    requires i < |dbs| && Absent(dbs, i, source, now) && now <= t
    ensures Reply(dbs, i, RenameRequest(source, destination), now) == "ERR no such key\n"
    ensures SameLive(After(dbs, i, RenameRequest(source, destination), now), dbs, t)
  {
    RenameMeans(source, destination);
    RunsInDb(dbs, i, RenameRequest(source, destination), Request.Rename(source, destination), now);
    hide Reply, Means, RenameRequest, Live;
    StoreSame(dbs[i], source, None, now, t);
  }

  // ----- MOVE ------------------------------------------------------------------------------------

  /** MOVE of a key that is here and not there: it is gone here, and answers there. */
  lemma MoveTakesEffect(dbs: seq<Db>, i: nat, key: string, j: nat, now: int, t: int, op: KeyOp, asks: seq<string>)
    requires i < |dbs| <= MAX_ULL && j < |dbs| && i != j && !Absent(dbs, i, key, now) && Absent(dbs, j, key, now)
    requires Means(asks, Single(key, op))
    ensures Reply(dbs, i, MoveRequest(key, j), now) == "1\n"
    ensures var after := After(dbs, i, MoveRequest(key, j), now);
            && Absent(after, i, key, t) && Reply(after, j, asks, t) == Reply(dbs, i, asks, t)
            && after[i] - {key} == dbs[i] - {key} && after[j] - {key} == dbs[j] - {key}
            && forall d :: 0 <= d < |dbs| && d != i && d != j ==> after[d] == dbs[d]
  {
    hide Means, MoveRequest, Execute;
    MoveRuns(dbs, i, key, j, now);
    var after := After(dbs, i, MoveRequest(key, j), now);
    assert after == dbs[i := dbs[i] - {key}][j := dbs[j][key := Touch(dbs[i][key], now)]];
    hide After, MoveBetween, MoveKey, Reply;
    SameReply(dbs, i, asks, key, after, j, asks, key, op, t);
  }

  /** Otherwise MOVE replies 0 and nothing can be seen of it. */
  lemma MoveRefused(dbs: seq<Db>, i: nat, key: string, j: nat, now: int, t: int)
    requires i < |dbs| <= MAX_ULL && j < |dbs| && now <= t
    requires i == j || Absent(dbs, i, key, now) || !Absent(dbs, j, key, now)
    ensures Reply(dbs, i, MoveRequest(key, j), now) == "0\n"
    ensures SameLive(After(dbs, i, MoveRequest(key, j), now), dbs, t)
  {
    MoveRuns(dbs, i, key, j, now);
    hide MoveRequest, Execute, Live;
    if i != j {
      var m := MoveKey(dbs[i], dbs[j], key, now);
      assert m.destination == dbs[j] && (m.source == dbs[i] || m.source == Store(dbs[i], key, None));
      if Absent(dbs, i, key, now) { StoreSame(dbs[i], key, None, now, t); }
      hide MoveKey, Lookup, Store;
      assert After(dbs, i, MoveRequest(key, j), now) == dbs[i := m.source][j := m.destination];
    }
  }

  // ----- expiry ----------------------------------------------------------------------------------

  /** The whole seconds a client is told remain, rounded up. */
  predicate SecondsLeft(remaining: int, r: int) {
    (r - 1) * 1000 < remaining <= r * 1000
  }

  lemma RemainingSeconds(remaining: int, r: int)
    requires SecondsLeft(remaining, r)
    ensures (remaining + 999) / 1000 == r
  {
  }

  /** The entry while it lasts. */
  lemma EntryWithExpiry(key: string, cur: ValueObject, at: int, now: int, t: int, r: int)
    requires t < at && 0 <= at && SecondsLeft(at - t, r)
    ensures var e := Some(cur.(expiresAt := at));
            && Apply(KeyOp.Ttl, key, e, t).reply == Show(r) + "\n"
            && Apply(KeyOp.Get, key, e, t).reply == Apply(KeyOp.Get, key, Some(cur), now).reply
            && Apply(KeyOp.Type, key, e, t).reply == Apply(KeyOp.Type, key, Some(cur), now).reply
  {
    hide Show;
    RemainingSeconds(at - t, r);
  }

  /** A database that holds it. */
  lemma ExpiringAnswers(dbs: seq<Db>, i: nat, key: string, cur: ValueObject, at: int, now: int, t: int, r: int)
    requires i < |dbs| && key in dbs[i] && dbs[i][key] == cur.(expiresAt := at) && 0 <= at && SecondsLeft(at - t, r)
    ensures Absent(dbs, i, key, t) <==> at <= t
    ensures t < at ==>
              && Reply(dbs, i, TtlRequest(key), t) == Show(r) + "\n"
              && Reply(dbs, i, GetRequest(key), t) == Apply(KeyOp.Get, key, Some(cur), now).reply
              && Reply(dbs, i, TypeRequest(key), t) == Apply(KeyOp.Type, key, Some(cur), now).reply
  {
    hide Reply, Means, TtlRequest, GetRequest, TypeRequest, Show, Apply;
    if t < at {
      EntryWithExpiry(key, cur, at, now, t, r);
      TtlMeans(key);
      GetMeans(key);
      TypeMeans(key);
      Answers(dbs, i, TtlRequest(key), key, KeyOp.Ttl, t);
      Answers(dbs, i, GetRequest(key), key, KeyOp.Get, t);
      Answers(dbs, i, TypeRequest(key), key, KeyOp.Type, t);
    }
  }

  /** EXPIRE of a key that is there: until then the key answers as it did, with the seconds that
      remain, and from then on it is gone. */
  lemma ExpireTakesEffect(dbs: seq<Db>, i: nat, key: string, seconds: nat, now: int, t: int, r: int)
    requires i < |dbs| && 0 <= now <= t && seconds <= MAX_LL && !Absent(dbs, i, key, now)
    requires SecondsLeft(now + seconds * 1000 - t, r)
    ensures Reply(dbs, i, ExpireRequest(key, seconds), now) == "1\n"
    ensures var after := After(dbs, i, ExpireRequest(key, seconds), now);
            && OnlyKey(dbs, after, i, key) && (Absent(after, i, key, t) <==> now + seconds * 1000 <= t)
            && (t < now + seconds * 1000 ==>
                  && Reply(after, i, TtlRequest(key), t) == Show(r) + "\n"
                  && Reply(after, i, GetRequest(key), t) == Reply(dbs, i, GetRequest(key), now)
                  && Reply(after, i, TypeRequest(key), t) == Reply(dbs, i, TypeRequest(key), now))
  {
    hide Reply, Means, ExpireRequest, TtlRequest, GetRequest, TypeRequest, Show;
    ExpireMeans(key, seconds);
    Runs(dbs, i, ExpireRequest(key, seconds), key, Expire(seconds), now);
    var after, cur, at := After(dbs, i, ExpireRequest(key, seconds), now), dbs[i][key], now + seconds * 1000;
    assert key in after[i] && after[i][key] == cur.(expiresAt := at);
    hide After, OnlyKey, Apply, Absent;
    GetMeans(key);
    TypeMeans(key);
    Answers(dbs, i, GetRequest(key), key, KeyOp.Get, now);
    Answers(dbs, i, TypeRequest(key), key, KeyOp.Type, now);
    ExpiringAnswers(after, i, key, cur, at, now, t, r);
  }

  lemma ExpireOfMissing(dbs: seq<Db>, i: nat, key: string, seconds: nat, now: int, t: int)
    requires i < |dbs| && seconds <= MAX_LL && Absent(dbs, i, key, now) && now <= t
    ensures Reply(dbs, i, ExpireRequest(key, seconds), now) == "0\n"
    ensures SameLive(After(dbs, i, ExpireRequest(key, seconds), now), dbs, t)
  {
    hide Reply, Means, ExpireRequest, Live, OnlyKey;
    ExpireMeans(key, seconds);
    Runs(dbs, i, ExpireRequest(key, seconds), key, Expire(seconds), now);
    StoreSame(dbs[i], key, None, now, t);
  }

  lemma PersistedEntry(key: string, cur: ValueObject, now: int, t: int)
    requires !IsExpired(cur, now)
    ensures var f := Apply(KeyOp.Persist, key, Some(cur), now);
            && f.entry.Some? && f.entry.value.expiresAt == -1
            && f.reply == (if Apply(KeyOp.Ttl, key, Some(cur), now).reply == "-1\n" then "0\n" else "1\n")
            && Apply(KeyOp.Ttl, key, f.entry, t).reply == "-1\n"
            && Apply(KeyOp.Get, key, f.entry, t).reply == Apply(KeyOp.Get, key, Some(cur), now).reply
  {
    if cur.expiresAt != -1 { CeilingIsNotNegative(cur.expiresAt - now); }
    hide Show, Number;
  }

  /** PERSIST: the key stays for good, and answers as it did; the reply says whether it had an
      expiry time. */
  lemma PersistTakesEffect(dbs: seq<Db>, i: nat, key: string, now: int, t: int)
    requires i < |dbs| && !Absent(dbs, i, key, now)
    ensures var after := After(dbs, i, PersistRequest(key), now);
            && OnlyKey(dbs, after, i, key) && !Absent(after, i, key, t)
            && Reply(after, i, TtlRequest(key), t) == "-1\n"
            && Reply(after, i, GetRequest(key), t) == Reply(dbs, i, GetRequest(key), now)
    ensures Reply(dbs, i, PersistRequest(key), now) ==
            if Reply(dbs, i, TtlRequest(key), now) == "-1\n" then "0\n" else "1\n"
  {
    hide Reply, Means, PersistRequest, TtlRequest, GetRequest, Apply;
    PersistMeans(key);
    Runs(dbs, i, PersistRequest(key), key, KeyOp.Persist, now);
    PersistedEntry(key, dbs[i][key], now, t);
    var after := After(dbs, i, PersistRequest(key), now);
    assert Lookup(after[i], key, t) == Apply(KeyOp.Persist, key, Some(dbs[i][key]), now).entry;
    hide After, OnlyKey;
    TtlMeans(key);
    GetMeans(key);
    Answers(after, i, TtlRequest(key), key, KeyOp.Ttl, t);
    Answers(dbs, i, TtlRequest(key), key, KeyOp.Ttl, now);
    Answers(after, i, GetRequest(key), key, KeyOp.Get, t);
    Answers(dbs, i, GetRequest(key), key, KeyOp.Get, now);
  }

  lemma CeilingIsNotNegative(remaining: int)
    requires remaining > 0
    ensures Number((remaining + 999) / 1000) != "-1\n"
  {
    var n := (remaining + 999) / 1000;
    DecimalDenotes(n);
    assert Number(n)[0] == Decimal(n)[0] && IsDigit(Decimal(n)[0]);
  }

  // ----- listings --------------------------------------------------------------------------------

  lemma {:induction false} LinesOfBoth(xs: seq<string>, ys: seq<string>)
    ensures Lines([]) == "" && Lines(xs + ys) == Lines(xs) + Lines(ys)
    decreases |ys|
  {
    if ys == [] {
      assert xs + ys == xs;
    } else {
      var n := |ys| - 1;
      assert (xs + ys)[..|xs| + n] == xs + ys[..n];
      LinesOfBoth(xs, ys[..n]);
      assert Lines(xs) + Lines(ys[..n]) + Line(ys[n]) == Lines(xs) + Lines(ys);
    }
  }

  lemma LinesOfOne(x: string)
    ensures Lines([x]) == x + "\n"
  {
    assert [x][..0] == [];
  }


  /** The keys found, against the meaning of the pattern. */
  lemma FoundKeys(db: Db, pattern: string, now: int, x: string)
    ensures var found := MatchingKeys(Purge(db, now), pattern);
            && (x in found ==> x in Live(db, now) && Matches(x, pattern))
            && (x in Live(db, now) && '*' !in x && Matches(x, pattern) ==> x in found)
  {
    hide MatchesPattern, Matches;
    if MatchesPattern(x, pattern) { Sound(x, pattern); }
    if '*' !in x { Complete(x, pattern); }
  }

  /** KEYS and SCAN list, in strictly ascending order, live keys that match the pattern, and all
      of them whose name has no star. */
  lemma KeysListMatches(dbs: seq<Db>, i: nat, pattern: string, now: int) returns (xs: seq<string>)
    requires i < |dbs|
    ensures Reply(dbs, i, KeysRequest(pattern), now) == Lines(xs)
    ensures Reply(dbs, i, ScanRequest(pattern), now) == "0\n" + Lines(xs)
    ensures Ascending(xs)
    ensures forall x :: x in xs ==> x in Live(dbs[i], now) && Matches(x, pattern)
    ensures forall x :: x in Live(dbs[i], now) && '*' !in x && Matches(x, pattern) ==> x in xs
  {
    hide Reply, After, Means, KeysRequest, ScanRequest, Lines, MatchingKeys, Matches, Live, Purge, Sorted, Ascending;
    KeysMeans(pattern);
    RunsInDb(dbs, i, KeysRequest(pattern), Request.Keys(pattern), now);
    ScanMeans(pattern);
    RunsInDb(dbs, i, ScanRequest(pattern), Request.Scan(pattern), now);
    var found := MatchingKeys(Purge(dbs[i], now), pattern);
    SortedMembers(found);
    SortedAscends(found);
    xs := Sorted(found);
    forall x
      ensures x in xs ==> x in Live(dbs[i], now) && Matches(x, pattern)
      ensures x in Live(dbs[i], now) && '*' !in x && Matches(x, pattern) ==> x in xs
    {
      FoundKeys(dbs[i], pattern, now, x);
    }
  }

  /** DBSIZE counts the keys a client can see. */
  lemma DbSizeCounts(dbs: seq<Db>, i: nat, now: int)
    requires i < |dbs|
    ensures Reply(dbs, i, DbSizeRequest(), now) == Show(|Live(dbs[i], now)|) + "\n"
  {
    hide Reply, Means, DbSizeRequest, Show;
    DbSizeMeans();
    RunsInDb(dbs, i, DbSizeRequest(), Request.DbSize, now);
    var db := dbs[i];
    assert Purge(db, now).Keys == Live(db, now).Keys;
    assert |Purge(db, now)| == |Purge(db, now).Keys| && |Live(db, now)| == |Live(db, now).Keys|;
  }

  /** INFO starts with the number of keys a client can see and the bytes of what is left once the
      expired entries are gone. */
  lemma InfoCounts(dbs: seq<Db>, i: nat, now: int)
    requires i < |dbs|
    ensures Reply(dbs, i, InfoRequest(), now) ==
            "{\n totalKeys: " + Show(|Live(dbs[i], now)|) + ",\n estimatedBytes: " +
            Show(TotalBytes(After(dbs, i, InfoRequest(), now)[i])) + ",\n"
  {
    hide Reply, Means, InfoRequest, Show, TotalBytes;
    InfoMeans();
    RunsInDb(dbs, i, InfoRequest(), Request.Info, now);
    var db := dbs[i];
    assert Purge(db, now).Keys == Live(db, now).Keys;
    assert |Purge(db, now)| == |Purge(db, now).Keys| && |Live(db, now)| == |Live(db, now).Keys|;
  }

  /** A name that is no command is refused by that name, and nothing happens. */
  lemma UnknownIsRefused(dbs: seq<Db>, i: nat, tokens: seq<string>, now: int)
    requires i < |dbs| && tokens != [] && CommandName(tokens) == UNKNOWN
    ensures Reply(dbs, i, tokens, now) == "ERR unknown command '" + tokens[0] + "'\n"
    ensures After(dbs, i, tokens, now) == dbs
  {
    hide CommandName, Decode;
    UnknownDecodes(tokens);
    assert dbs[i := dbs[i]] == dbs;
  }

  lemma UnknownDecodes(tokens: seq<string>)
    requires tokens != [] && CommandName(tokens) == UNKNOWN
    ensures Decode(tokens) == Unregistered(tokens)
  {
    hide CommandName, Unregistered, Arity, OneKey, DecodeSet, DecodeExpire, DecodeMSet, DecodeLRange, DecodeScan,
      DecodeMemory;
  }

  /** GET with no key, or with too many, is refused, and nothing happens. */
  lemma GetNeedsOneKey(dbs: seq<Db>, i: nat, args: seq<string>, now: int)
    requires i < |dbs| && |args| != 1
    ensures Reply(dbs, i, ["GET"] + args, now) == "ERR wrong number of arguments for GET\n"
    ensures After(dbs, i, ["GET"] + args, now) == dbs
  {
    hide FoundAs, NameOf;
    GetNamed();
    Literal("GET", GET, args);
    hide CommandName;
    assert Decode(["GET"] + args) == Arity("GET");
    hide Decode;
    assert dbs[i := dbs[i]] == dbs;
  }

  /** What the expiry worker leaves: exactly the keys that have not expired. */
  lemma PurgeIsExact(db: Db, now: int)
    ensures Purge(db, now).Keys == Live(db, now).Keys
    ensures forall k :: k in Purge(db, now) ==> k in db && Purge(db, now)[k] == db[k] && !IsExpired(db[k], now)
  {
  }

  lemma FlushDbEmpties(dbs: seq<Db>, i: nat, key: string, now: int, t: int)
    requires i < |dbs|
    ensures Reply(dbs, i, FlushDbRequest(), now) == "OK\n"
    ensures var after := After(dbs, i, FlushDbRequest(), now);
            && Absent(after, i, key, t) && forall j :: 0 <= j < |dbs| && j != i ==> after[j] == dbs[j]
  {
    FlushDbMeans();
    hide Reply, Means, FlushDbRequest;
    RunsInDb(dbs, i, FlushDbRequest(), Request.FlushDb, now);
  }

  lemma FlushAllEmpties(dbs: seq<Db>, i: nat, j: nat, key: string, now: int, t: int)
    requires i < |dbs| && j < |dbs|
    ensures Reply(dbs, i, FlushAllRequest(), now) == "OK\n"
    ensures Absent(After(dbs, i, FlushAllRequest(), now), j, key, t)
  {
    FlushAllRuns(dbs, i, now);
    hide Execute, FlushAllRequest;
  }
}
