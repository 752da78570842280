/** What clients see of strings: SET, GET, APPEND, STRLEN, INCR and DECR, MSET and MGET, stated
    over tokens and replies. */
module StringLaws {
  import opened Text
  import opened Values
  import opened Memory
  import opened Operations
  import opened Agreement
  import opened Commands
  import opened Requests
  import opened KeyLaws
  import opened Counter

  // ----- a stored string -------------------------------------------------------------------------

  /** Database `i` holds this text under `key`, for good. */
  predicate Holding(dbs: seq<Db>, i: nat, key: string, text: string) {
    && i < |dbs| && key in dbs[i]
    && dbs[i][key].kind == StringType && dbs[i][key].value == text && dbs[i][key].expiresAt == -1
  }

  /** And so it answers, at any time. */
  lemma HoldingAnswers(dbs: seq<Db>, i: nat, key: string, text: string, t: int)
    requires Holding(dbs, i, key, text)
    ensures Reply(dbs, i, GetRequest(key), t) == text + "\n" && Reply(dbs, i, TypeRequest(key), t) == "string\n"
    ensures Reply(dbs, i, StrlenRequest(key), t) == Show(|text|) + "\n" && Reply(dbs, i, TtlRequest(key), t) == "-1\n"
    ensures Reply(dbs, i, ExistsRequest(key), t) == "1\n"
  {
    hide Reply, Means, GetRequest, TypeRequest, StrlenRequest, TtlRequest, ExistsRequest, Show;
    GetMeans(key);
    TypeMeans(key);
    StrlenMeans(key);
    TtlMeans(key);
    ExistsMeans(key);
    Answers(dbs, i, GetRequest(key), key, KeyOp.Get, t);
    Answers(dbs, i, TypeRequest(key), key, KeyOp.Type, t);
    Answers(dbs, i, StrlenRequest(key), key, KeyOp.Strlen, t);
    Answers(dbs, i, TtlRequest(key), key, KeyOp.Ttl, t);
    Answers(dbs, i, ExistsRequest(key), key, KeyOp.Exists, t);
  }

  lemma StringBytes(key: string, e: ValueObject)
    requires e.kind == StringType && e.list == [] && e.hash == map[] && e.members == {}
    ensures EstimateBytes(key, ContentOf(e)) == |key| + 6 + |e.value| + 280
  {
    hide Sum, FieldSizes, MemberSizes;
    NoFieldBytes();
    NoMemberBytes();
  }

  /** MEMORY USAGE of a string: key, type name, text and the object itself. */
  lemma MemoryOfString(dbs: seq<Db>, i: nat, key: string, t: int)
    requires i < |dbs| && !Absent(dbs, i, key, t)
    requires var e := dbs[i][key]; e.kind == StringType && e.list == [] && e.hash == map[] && e.members == {}
    ensures Reply(dbs, i, MemoryRequest(key), t) == Show(|key| + 6 + |dbs[i][key].value| + 280) + "\n"
  {
    hide Reply, Means, MemoryRequest, Show, EstimateBytes, Sum, FieldSizes, MemberSizes;
    StringBytes(key, dbs[i][key]);
    MemoryMeans(key);
    Answers(dbs, i, MemoryRequest(key), key, MemoryUsage, t);
  }

  /** A list grows by the bytes of an element and the string that holds it. */
  lemma ListBytesGrow(key: string, c: Content, x: string)
    ensures EstimateBytes(key, c.(list := c.list + [x])) == EstimateBytes(key, c) + |x| + 32
  {
    hide Sum, FieldSizes, MemberSizes;
    assert (c.list + [x])[..|c.list|] == c.list;
  }

  /** A hash grows by the bytes of a field and its content and two strings. */
  lemma HashBytesGrow(key: string, c: Content, field: string, content: string)
    requires field !in c.hash
    ensures EstimateBytes(key, c.(hash := c.hash[field := content])) ==
            EstimateBytes(key, c) + |field| + |content| + 64
  {
    hide Sum, MemberSizes, ListBytes;
    var sizes := FieldSizes(c.hash[field := content]);
    SumTakeOut(sizes, field);
    assert sizes - {field} == FieldSizes(c.hash);
  }

  /** A set grows like a list. */
  lemma SetBytesGrow(key: string, c: Content, x: string)
    requires x !in c.members
    ensures EstimateBytes(key, c.(members := c.members + {x})) == EstimateBytes(key, c) + |x| + 32
  {
    hide Sum, FieldSizes, ListBytes;
    var sizes := MemberSizes(c.members + {x});
    SumTakeOut(sizes, x);
    assert sizes - {x} == MemberSizes(c.members);
  }

  lemma NoFieldBytes()
    ensures Sum(FieldSizes(map[])) == 0
  {
    assert FieldSizes(map[]) == map[];
  }

  lemma NoMemberBytes()
    ensures Sum(MemberSizes({})) == 0
  {
    assert MemberSizes({}) == map[];
  }

  // ----- SET -------------------------------------------------------------------------------------

  /** After SET the key holds that text, for good, whatever it held before; no other key is
      touched. */
  lemma SetThenGet(dbs: seq<Db>, i: nat, key: string, value: string, now: int)
    requires i < |dbs|
    ensures Reply(dbs, i, SetRequest(key, value), now) == "OK\n"
    ensures var after := After(dbs, i, SetRequest(key, value), now);
            Holding(after, i, key, value) && OnlyKey(dbs, after, i, key)
  {
    hide Reply, Means, SetRequest;
    SetMeans(key, value);
    Runs(dbs, i, SetRequest(key, value), key, Set(value, -1), now);
  }

  /** SET with EX: the text is there for that many seconds, with the seconds that remain. */
  lemma SetExThenGet(dbs: seq<Db>, i: nat, key: string, value: string, seconds: nat, now: int, t: int, r: int)
    requires i < |dbs| && 0 <= now <= t && seconds <= MAX_LL && SecondsLeft(now + seconds * 1000 - t, r)
    ensures Reply(dbs, i, SetExRequest(key, value, seconds), now) == "OK\n"
    ensures var after := After(dbs, i, SetExRequest(key, value, seconds), now);
            && OnlyKey(dbs, after, i, key) && (Absent(after, i, key, t) <==> now + seconds * 1000 <= t)
            && (t < now + seconds * 1000 ==>
                  Reply(after, i, GetRequest(key), t) == value + "\n" && Reply(after, i, TtlRequest(key), t) ==
                    Show(r) + "\n")
  {
    hide Reply, Means, SetExRequest, GetRequest, TtlRequest, Show;
    SetExMeans(key, value, seconds);
    Runs(dbs, i, SetExRequest(key, value, seconds), key, Set(value, seconds), now);
    var after, at := After(dbs, i, SetExRequest(key, value, seconds), now), now + seconds * 1000;
    var e := StringObject(value, now, -1, now);
    assert key in after[i] && after[i][key] == e.(expiresAt := at);
    assert Apply(KeyOp.Get, key, Some(e), now).reply == value + "\n";
    hide After, OnlyKey, Apply, Absent;
    ExpiringAnswers(after, i, key, e, at, now, t, r);
  }

  // ----- APPEND ----------------------------------------------------------------------------------

  /** APPEND puts the suffix after the text that was there (nothing, if the key was not), keeps
      the expiry time, and replies the new length. */
  lemma AppendThenGet(dbs: seq<Db>, i: nat, key: string, suffix: string, now: int, t: int)
    requires i < |dbs|
    requires var cur := Lookup(dbs[i], key, now); cur.None? || cur.value.kind == StringType
    ensures var cur, after := Lookup(dbs[i], key, now), After(dbs, i, AppendRequest(key, suffix), now);
            var text := (if cur.None? then "" else cur.value.value) + suffix;
            && Reply(dbs, i, AppendRequest(key, suffix), now) == Show(|text|) + "\n"
            && OnlyKey(dbs, after, i, key)
            && (Absent(after, i, key, t) <==> cur.Some? && IsExpired(cur.value, t))
            && (!Absent(after, i, key, t) ==> Reply(after, i, GetRequest(key), t) == text + "\n")
  {
    hide Reply, Means, AppendRequest, GetRequest, Show;
    AppendMeans(key, suffix);
    Runs(dbs, i, AppendRequest(key, suffix), key, Append(suffix), now);
    var after := After(dbs, i, AppendRequest(key, suffix), now);
    assert "" + suffix == suffix;
    var e := after[i][key];
    assert Apply(KeyOp.Get, key, Some(e), t).reply == e.value + "\n";
    hide Apply, After, OnlyKey;
    GetMeans(key);
    Answers(after, i, GetRequest(key), key, KeyOp.Get, t);
  }

  // ----- INCR and DECR ---------------------------------------------------------------------------

  /** INCR and DECR of a key that holds the text of a number: the next and the previous number. */
  lemma CountThenGet(dbs: seq<Db>, i: nat, key: string, n: int, now: int)
    requires Holding(dbs, i, key, Show(n)) && Representable(n)
    ensures Representable(n + 1) ==>
              && Reply(dbs, i, IncrRequest(key), now) == Show(n + 1) + "\n"
              && Holding(After(dbs, i, IncrRequest(key), now), i, key, Show(n + 1))
    ensures Representable(n - 1) ==>
              && Reply(dbs, i, DecrRequest(key), now) == Show(n - 1) + "\n"
              && Holding(After(dbs, i, DecrRequest(key), now), i, key, Show(n - 1))
  {
    hide Reply, Means, IncrRequest, DecrRequest, Show, IncrAt, Representable, Holding;
    IncrMeans(key);
    DecrMeans(key);
    if Representable(n + 1) { CountedOnce(dbs, i, IncrRequest(key), key, n, 1, now); }
    if Representable(n - 1) { CountedOnce(dbs, i, DecrRequest(key), key, n, -1, now); }
  }

  lemma CountedOnce(dbs: seq<Db>, i: nat, tokens: seq<string>, key: string, n: int, delta: int, now: int)
    requires Holding(dbs, i, key, Show(n)) && Representable(n) && Representable(n + delta)
    requires Means(tokens, Single(key, IncrBy(delta)))
    ensures Reply(dbs, i, tokens, now) == Show(n + delta) + "\n"
    ensures Holding(After(dbs, i, tokens, now), i, key, Show(n + delta))
  {
    hide Reply, Means, Show, IncrAt, Representable;
    Runs(dbs, i, tokens, key, IncrBy(delta), now);
    IncrAddsToText(dbs[i][key], n, delta, now);
  }

  lemma RefusedOnce(dbs: seq<Db>, i: nat, tokens: seq<string>, key: string, delta: int, now: int)
    requires i < |dbs| && !Absent(dbs, i, key, now) && Means(tokens, Single(key, IncrBy(delta)))
    requires dbs[i][key].kind != StringType || ParseInteger(dbs[i][key].value).None?
    ensures Reply(dbs, i, tokens, now) == "ERR value is not an integer\n" && After(dbs, i, tokens, now) == dbs
  {
    hide Reply, Means, OnlyKey, IncrAt, ParseInteger;
    IncrRefuses(dbs[i][key], delta, now);
    assert dbs[i][key := dbs[i][key]] == dbs[i] && dbs[i := dbs[i]] == dbs;
    Runs(dbs, i, tokens, key, IncrBy(delta), now);
  }

  lemma IncrRefuses(e: ValueObject, delta: int, now: int)
    requires e.kind != StringType || ParseInteger(e.value).None?
    ensures IncrAt(Some(e), delta, now) == Effect(Some(e), "ERR value is not an integer\n", false)
  {
    hide Show, ParseInteger, Wrap, Number;
  }

  /** A text that is no number is refused, and stays. */
  lemma CountRefused(dbs: seq<Db>, i: nat, key: string, now: int)
    requires i < |dbs| && !Absent(dbs, i, key, now)
    requires dbs[i][key].kind != StringType || ParseInteger(dbs[i][key].value).None?
    ensures Reply(dbs, i, IncrRequest(key), now) == "ERR value is not an integer\n"
    ensures Reply(dbs, i, DecrRequest(key), now) == "ERR value is not an integer\n"
    ensures After(dbs, i, IncrRequest(key), now) == dbs && After(dbs, i, DecrRequest(key), now) == dbs
  {
    hide Reply, After, Means, IncrRequest, DecrRequest, ParseInteger;
    IncrMeans(key);
    DecrMeans(key);
    RefusedOnce(dbs, i, IncrRequest(key), key, 1, now);
    RefusedOnce(dbs, i, DecrRequest(key), key, -1, now);
  }

  // ----- MSET and MGET ---------------------------------------------------------------------------

  /** The last pair with this key, if there is one. */
  predicate LastPair(entries: seq<(string, string)>, key: string, j: nat) {
    && j < |entries| && entries[j].0 == key
    && forall m :: j < m < |entries| ==> entries[m].0 != key
  }

  lemma {:induction false} StoreAllHolds(db: Db, entries: seq<(string, string)>, key: string, j: nat, now: int)
    requires LastPair(entries, key, j)
    ensures var after := StoreAll(db, entries, now);
            && key in after && after[key].kind == StringType && after[key].value == entries[j].1 &&
              after[key].expiresAt == -1
  {
    var n := |entries| - 1;
    if j < n {
      var front := entries[..n];
      assert forall m :: 0 <= m < n ==> front[m] == entries[m];
      StoreAllHolds(db, front, key, j, now);
    }
  }

  lemma {:induction false} StoreAllOthers(db: Db, entries: seq<(string, string)>, key: string, now: int)
    requires forall m :: 0 <= m < |entries| ==> entries[m].0 != key
    ensures key in StoreAll(db, entries, now) <==> key in db
    ensures key in db ==> StoreAll(db, entries, now)[key] == db[key]
  {
    if entries != [] { StoreAllOthers(db, entries[..|entries| - 1], key, now); }
  }

  /** After MSET every key of its pairs holds the text of its last pair, for good. */
  lemma MSetThenGet(dbs: seq<Db>, i: nat, entries: seq<(string, string)>, key: string, j: nat, now: int)
    requires i < |dbs| && LastPair(entries, key, j)
    ensures Reply(dbs, i, MSetRequest(entries), now) == "OK\n"
    ensures Holding(After(dbs, i, MSetRequest(entries), now), i, key, entries[j].1)
  {
    hide Reply, Means, MSetRequest, StoreAll, LastPair;
    assert entries != [] by { assert j < |entries| by { LastIsThere(entries, key, j); } }
    LastIsThere(entries, key, j);
    MSetMeans(entries);
    RunsInDb(dbs, i, MSetRequest(entries), Request.MSet(entries), now);
    StoreAllHolds(dbs[i], entries, key, j, now);
  }

  lemma LastIsThere(entries: seq<(string, string)>, key: string, j: nat)
    requires LastPair(entries, key, j)
    ensures j < |entries|
  {
  }

  /** And every other key is as it was. */
  lemma MSetOthers(dbs: seq<Db>, i: nat, entries: seq<(string, string)>, key: string, now: int)
    requires i < |dbs| && entries != [] && forall m :: 0 <= m < |entries| ==> entries[m].0 != key
    ensures var after := After(dbs, i, MSetRequest(entries), now);
            && (key in after[i] <==> key in dbs[i]) && (key in dbs[i] ==> after[i][key] == dbs[i][key])
            && forall d :: 0 <= d < |dbs| && d != i ==> after[d] == dbs[d]
  {
    hide Reply, Means, MSetRequest, StoreAll;
    MSetMeans(entries);
    RunsInDb(dbs, i, MSetRequest(entries), Request.MSet(entries), now);
    StoreAllOthers(dbs[i], entries, key, now);
  }

  /** The replies to GET of each key, one after the other. */
  function GetReplies(dbs: seq<Db>, i: nat, keys: seq<string>, now: int): string
    requires i < |dbs|
  {
    if keys == [] then ""
    else GetReplies(dbs, i, keys[..|keys| - 1], now) + Reply(dbs, i, GetRequest(keys[|keys| - 1]), now)
  }

  lemma {:induction false} MGetRuns(dbs: seq<Db>, i: nat, keys: seq<string>, now: int)
    requires i < |dbs|
    ensures RunMGet(dbs[i], keys, now).reply == GetReplies(dbs, i, keys, now)
    ensures Agree(dbs[i], RunMGet(dbs[i], keys, now).db, now, now)
  {
    hide Reply, GetRequest, Means, RunSingle, Agree;
    if keys == [] {
      assert Agree(dbs[i], dbs[i], now, now) by { AgreesAtOnce(dbs[i], now); }
    } else {
      var front, last := keys[..|keys| - 1], keys[|keys| - 1];
      MGetRuns(dbs, i, front, now);
      var db := RunMGet(dbs[i], front, now).db;
      SingleAgrees(dbs[i], db, last, KeyOp.Get, now, now);
      GetKeepsAgreement(dbs[i], db, last, now);
      GetMeans(last);
      SingleReply(dbs, i, GetRequest(last), last, KeyOp.Get, now);
    }
  }

  lemma AgreesAtOnce(db: Db, now: int)
    ensures Agree(db, db, now, now)
  {
  }

  lemma SingleReply(dbs: seq<Db>, i: nat, tokens: seq<string>, key: string, op: KeyOp, now: int)
    requires i < |dbs| && Means(tokens, Single(key, op))
    ensures Reply(dbs, i, tokens, now) == RunSingle(dbs[i], key, op, now).reply
  {
    hide Reply, Means, Apply;
    Answers(dbs, i, tokens, key, op, now);
  }

  lemma GetKeepsAgreement(a: Db, b: Db, key: string, now: int)
    requires Agree(a, b, now, now)
    ensures Agree(a, RunSingle(b, key, KeyOp.Get, now).db, now, now)
  {
    hide RunSingle, Live;
    SingleReadKeepsLive(b, key, KeyOp.Get, now, now);
  }

  /** MGET replies what GET of each key would, in the order of the keys. */
  lemma MGetIsGets(dbs: seq<Db>, i: nat, keys: seq<string>, now: int)
    requires i < |dbs| && keys != []
    ensures Reply(dbs, i, MGetRequest(keys), now) == GetReplies(dbs, i, keys, now)
  {
    hide Reply, Means, MGetRequest, RunMGet, GetReplies, Agree;
    MGetMeans(keys);
    RunsInDb(dbs, i, MGetRequest(keys), Request.MGet(keys), now);
    MGetRuns(dbs, i, keys, now);
  }
}
