/** What clients see of hashes and sets, stated over tokens and replies. */
module CollectionLaws {
  import opened Text
  import opened Values
  import opened Operations
  import opened Requests
  import opened KeyLaws

  /** What is stored under a key. */
  function Stored(dbs: seq<Db>, i: nat, key: string): Option<ValueObject>
    requires i < |dbs|
  {
    if key in dbs[i] then Some(dbs[i][key]) else None
  }

  /** A one-key request on an entry that stays for good. */
  lemma RunsOnStored(dbs: seq<Db>, i: nat, tokens: seq<string>, key: string, op: KeyOp, now: int)
    requires i < |dbs| && Means(tokens, Single(key, op))
    requires Stored(dbs, i, key).None? || Stored(dbs, i, key).value.expiresAt == -1
    ensures var f, after := Apply(op, key, Stored(dbs, i, key), now), After(dbs, i, tokens, now);
            Stored(after, i, key) == f.entry && OnlyKey(dbs, after, i, key) && Reply(dbs, i, tokens, now) == f.reply
  {
    hide Reply, Means, Apply;
    Runs(dbs, i, tokens, key, op, now);
  }

  // ----- hashes ----------------------------------------------------------------------------------

  /** An entry that is this hash, for good; none, if the hash is empty. */
  predicate HashEntry(e: Option<ValueObject>, hash: map<string, string>) {
    if hash == map[] then e.None?
    else e.Some? && e.value.kind == HashType && e.value.hash == hash && e.value.expiresAt == -1
  }

  predicate HoldsHash(dbs: seq<Db>, i: nat, key: string, hash: map<string, string>) {
    i < |dbs| && HashEntry(Stored(dbs, i, key), hash)
  }

  lemma HashChanges(key: string, e: Option<ValueObject>, hash: map<string, string>, field: string, content: string,
                    now: int)
    requires HashEntry(e, hash)
    ensures var f := Apply(HSet(field, content), key, e, now);
            HashEntry(f.entry, hash[field := content]) && f.reply == if field in hash then "0\n" else "1\n"
    ensures var f := Apply(HDel(field), key, e, now);
            HashEntry(f.entry, hash - {field}) && f.reply == if field in hash then "1\n" else "0\n"
  {
    hide WrongType;
    var none: map<string, string> := map[];
    assert none[field := content] == map[field := content] && none - {field} == none;
    assert field in hash[field := content];
  }

  /** HSET sets the field and no other, and says whether it is new. */
  lemma HSetSets(dbs: seq<Db>, i: nat, key: string, hash: map<string, string>, field: string, content: string, now: int)
    requires HoldsHash(dbs, i, key, hash)
    ensures Reply(dbs, i, HSetRequest(key, field, content), now) == if field in hash then "0\n" else "1\n"
    ensures var after := After(dbs, i, HSetRequest(key, field, content), now);
            HoldsHash(after, i, key, hash[field := content]) && OnlyKey(dbs, after, i, key)
  {
    hide Reply, After, Means, HSetRequest, OnlyKey, Apply, Stored;
    HSetMeans(key, field, content);
    RunsOnStored(dbs, i, HSetRequest(key, field, content), key, HSet(field, content), now);
    HashChanges(key, Stored(dbs, i, key), hash, field, content, now);
  }

  /** HDEL removes the field and no other; the last one takes the key with it. */
  lemma HDelRemoves(dbs: seq<Db>, i: nat, key: string, hash: map<string, string>, field: string, now: int)
    requires HoldsHash(dbs, i, key, hash)
    ensures Reply(dbs, i, HDelRequest(key, field), now) == if field in hash then "1\n" else "0\n"
    ensures var after := After(dbs, i, HDelRequest(key, field), now);
            HoldsHash(after, i, key, hash - {field}) && OnlyKey(dbs, after, i, key)
  {
    hide Reply, After, Means, HDelRequest, OnlyKey, Apply, Stored;
    HDelMeans(key, field);
    RunsOnStored(dbs, i, HDelRequest(key, field), key, HDel(field), now);
    HashChanges(key, Stored(dbs, i, key), hash, field, "", now);
  }

  lemma HashReads(key: string, e: Option<ValueObject>, hash: map<string, string>, field: string, t: int)
    requires HashEntry(e, hash)
    ensures Apply(HGet(field), key, e, t).reply == if field in hash then hash[field] + "\n" else "(nil)\n"
    ensures Apply(HExists(field), key, e, t).reply == if field in hash then "1\n" else "0\n"
  {
    hide WrongType;
  }

  /** HGET and HEXISTS answer for every field. */
  lemma HashAnswers(dbs: seq<Db>, i: nat, key: string, hash: map<string, string>, field: string, t: int)
    requires HoldsHash(dbs, i, key, hash)
    ensures Reply(dbs, i, HGetRequest(key, field), t) == if field in hash then hash[field] + "\n" else "(nil)\n"
    ensures Reply(dbs, i, HExistsRequest(key, field), t) == if field in hash then "1\n" else "0\n"
  {
    hide Reply, After, Means, HGetRequest, HExistsRequest, OnlyKey, Apply, Stored;
    HGetMeans(key, field);
    HExistsMeans(key, field);
    RunsOnStored(dbs, i, HGetRequest(key, field), key, HGet(field), t);
    RunsOnStored(dbs, i, HExistsRequest(key, field), key, HExists(field), t);
    HashReads(key, Stored(dbs, i, key), hash, field, t);
  }

  lemma {:induction false} PairsAt(hash: map<string, string>, fields: seq<string>, k: nat)
    requires (forall f :: f in fields ==> f in hash) && k < |fields|
    ensures var xs := Pairs(hash, fields);
            |xs| == 2 * |fields| && xs[2 * k] == fields[k] && fields[k] in hash && xs[2 * k + 1] == hash[fields[k]]
  {
    var n := |fields| - 1;
    assert fields[k] in fields;
    if n > 0 { PairsAt(hash, fields[..n], if k < n then k else 0); }
  }

  /** HGETALL lists every field once, in ascending order, each followed by its content. */
  lemma HGetAllLists(dbs: seq<Db>, i: nat, key: string, hash: map<string, string>, t: int)
    returns (fields: seq<string>, xs: seq<string>)
    requires HoldsHash(dbs, i, key, hash)
    ensures Reply(dbs, i, HGetAllRequest(key), t) == Lines(xs) && |xs| == 2 * |fields|
    ensures Ascending(fields) && forall f :: f in fields <==> f in hash
    ensures forall k :: 0 <= k < |fields| ==>
              xs[2 * k] == fields[k] && fields[k] in hash && xs[2 * k + 1] == hash[fields[k]]
  {
    fields := Sorted(hash.Keys);
    SortedMembers(hash.Keys);
    SortedAscends(hash.Keys);
    xs := Pairs(hash, fields);
    hide Reply, After, Means, HGetAllRequest, OnlyKey, Apply, Stored, Pairs, Sorted, Ascending;
    NoPairs(hash);
    forall k | 0 <= k < |fields|
      ensures |xs| == 2 * |fields| && xs[2 * k] == fields[k] && fields[k] in hash && xs[2 * k + 1] == hash[fields[k]]
    {
      PairsAt(hash, fields, k);
    }
    HGetAllMeans(key);
    RunsOnStored(dbs, i, HGetAllRequest(key), key, KeyOp.HGetAll, t);
    HashListing(key, Stored(dbs, i, key), hash, t);
  }

  lemma NoPairs(hash: map<string, string>)
    ensures Pairs(hash, []) == [] && (hash == map[] ==> Sorted(hash.Keys) == [])
  {
    if hash == map[] { SortedMembers(hash.Keys); }
  }

  lemma HashListing(key: string, e: Option<ValueObject>, hash: map<string, string>, t: int)
    requires HashEntry(e, hash)
    ensures (forall f :: f in Sorted(hash.Keys) ==> f in hash) && |Sorted(hash.Keys)| == |hash.Keys|
    ensures Apply(KeyOp.HGetAll, key, e, t).reply == Lines(Pairs(hash, Sorted(hash.Keys)))
  {
    hide WrongType, Lines, Pairs, Sorted;
    SortedMembers(hash.Keys);
    NoPairs(hash);
    LinesOfBoth([], []);
  }

  // ----- sets ------------------------------------------------------------------------------------

  /** An entry that is this set, for good; none, if the set is empty. */
  predicate SetEntry(e: Option<ValueObject>, members: set<string>) {
    if members == {} then e.None?
    else e.Some? && e.value.kind == SetType && e.value.members == members && e.value.expiresAt == -1
  }

  predicate HoldsSet(dbs: seq<Db>, i: nat, key: string, members: set<string>) {
    i < |dbs| && SetEntry(Stored(dbs, i, key), members)
  }

  lemma SetGrows(key: string, e: Option<ValueObject>, members: set<string>, items: seq<string>, now: int)
    requires SetEntry(e, members) && items != []
    ensures var f := Apply(SAdd(items), key, e, now);
            SetEntry(f.entry, members + AsSet(items)) && f.reply == Number(|members + AsSet(items)| - |members|)
  {
    hide WrongType, Number;
    assert items[0] in AsSet(items);
    hide AsSet;
    var none: set<string> := {};
    assert none + AsSet(items) == AsSet(items);
  }

  lemma SetShrinks(key: string, e: Option<ValueObject>, members: set<string>, items: seq<string>, now: int)
    requires SetEntry(e, members)
    ensures var f := Apply(SRem(items), key, e, now);
            SetEntry(f.entry, members - AsSet(items)) && f.reply == Number(|members| - |members - AsSet(items)|)
  {
    NumberZero();
    hide WrongType, Number, AsSet;
    var none: set<string> := {};
    assert none - AsSet(items) == none;
  }

  lemma NumberZero()
    ensures Number(0) == "0\n"
  {
    assert Show(0) == "0";
  }

  /** SADD adds all its elements, and counts the new ones. */
  lemma SAddAdds(dbs: seq<Db>, i: nat, key: string, members: set<string>, items: seq<string>, now: int)
    returns (grown: set<string>)
    requires HoldsSet(dbs, i, key, members) && items != []
    ensures forall x :: x in grown <==> x in members || x in items
    ensures Reply(dbs, i, SAddRequest(key, items), now) == Show(|grown| - |members|) + "\n"
    ensures var after := After(dbs, i, SAddRequest(key, items), now);
            HoldsSet(after, i, key, grown) && OnlyKey(dbs, after, i, key)
  {
    grown := members + AsSet(items);
    hide Reply, After, Means, SAddRequest, OnlyKey, Apply, Stored, AsSet, Show;
    ItemsOf(items);
    SAddMeans(key, items);
    RunsOnStored(dbs, i, SAddRequest(key, items), key, SAdd(items), now);
    SetGrows(key, Stored(dbs, i, key), members, items, now);
  }

  lemma ItemsOf(items: seq<string>)
    ensures forall x :: x in AsSet(items) <==> x in items
  {
  }

  /** SREM removes its elements, and counts those that were there; the last one takes the key
      with it. */
  lemma SRemRemoves(dbs: seq<Db>, i: nat, key: string, members: set<string>, items: seq<string>, now: int)
    returns (left: set<string>)
    requires HoldsSet(dbs, i, key, members) && items != []
    ensures forall x :: x in left <==> x in members && x !in items
    ensures Reply(dbs, i, SRemRequest(key, items), now) == Show(|members| - |left|) + "\n"
    ensures var after := After(dbs, i, SRemRequest(key, items), now);
            HoldsSet(after, i, key, left) && OnlyKey(dbs, after, i, key)
  {
    left := members - AsSet(items);
    hide Reply, After, Means, SRemRequest, OnlyKey, Apply, Stored, AsSet, Show;
    ItemsOf(items);
    SRemMeans(key, items);
    RunsOnStored(dbs, i, SRemRequest(key, items), key, SRem(items), now);
    SetShrinks(key, Stored(dbs, i, key), members, items, now);
  }

  lemma SetReads(key: string, e: Option<ValueObject>, members: set<string>, item: string, t: int)
    requires SetEntry(e, members)
    ensures Apply(SIsMember(item), key, e, t).reply == if item in members then "1\n" else "0\n"
    ensures Apply(KeyOp.SCard, key, e, t).reply == Number(|members|)
    ensures Apply(KeyOp.SMembers, key, e, t).reply == Lines(Sorted(members))
  {
    NumberZero();
    SortedMembers(members);
    LinesOfBoth([], []);
    hide WrongType, Number, Lines, Sorted;
  }

  /** SISMEMBER, SCARD and SMEMBERS answer for the whole set; SMEMBERS lists every member once,
      in ascending order. */
  lemma SetAnswers(dbs: seq<Db>, i: nat, key: string, members: set<string>, item: string, t: int)
    returns (listed: seq<string>)
    requires HoldsSet(dbs, i, key, members)
    ensures Reply(dbs, i, SIsMemberRequest(key, item), t) == if item in members then "1\n" else "0\n"
    ensures Reply(dbs, i, SCardRequest(key), t) == Show(|members|) + "\n"
    ensures Reply(dbs, i, SMembersRequest(key), t) == Lines(listed)
    ensures Ascending(listed) && forall x :: x in listed <==> x in members
  {
    listed := Sorted(members);
    SortedMembers(members);
    SortedAscends(members);
    hide Reply, After, Means, SIsMemberRequest, SCardRequest, SMembersRequest, OnlyKey, Apply, Stored, Sorted,
      Ascending,
      Show, Lines;
    SIsMemberMeans(key, item);
    SCardMeans(key);
    SMembersMeans(key);
    RunsOnStored(dbs, i, SIsMemberRequest(key, item), key, SIsMember(item), t);
    RunsOnStored(dbs, i, SCardRequest(key), key, KeyOp.SCard, t);
    RunsOnStored(dbs, i, SMembersRequest(key), key, KeyOp.SMembers, t);
    SetReads(key, Stored(dbs, i, key), members, item, t);
  }

  // ----- other types -----------------------------------------------------------------------------

  lemma RefusalTexts()
    ensures WrongType("HSET") == "ERR wrong type for HSET\n" && WrongType("HGET") == "ERR wrong type for HGET\n"
    ensures WrongType("HDEL") == "ERR wrong type for HDEL\n" && WrongType("SADD") == "ERR wrong type for SADD\n"
    ensures WrongType("SREM") == "ERR wrong type for SREM\n"
    ensures WrongType("SISMEMBER") == "ERR wrong type for SISMEMBER\n"
  {
  }

  /** Hash commands refuse a key of another type. */
  lemma HashRefuses(dbs: seq<Db>, i: nat, key: string, x: string, y: string, now: int)
    requires i < |dbs| && !Absent(dbs, i, key, now) && dbs[i][key].kind != HashType
    ensures Reply(dbs, i, HSetRequest(key, x, y), now) == "ERR wrong type for HSET\n"
    ensures Reply(dbs, i, HGetRequest(key, x), now) == "ERR wrong type for HGET\n"
    ensures Reply(dbs, i, HDelRequest(key, x), now) == "ERR wrong type for HDEL\n"
  {
    hide Reply, Means, HSetRequest, HGetRequest, HDelRequest, WrongType;
    HSetMeans(key, x, y);
    HGetMeans(key, x);
    HDelMeans(key, x);
    Answers(dbs, i, HSetRequest(key, x, y), key, HSet(x, y), now);
    Answers(dbs, i, HGetRequest(key, x), key, HGet(x), now);
    Answers(dbs, i, HDelRequest(key, x), key, HDel(x), now);
    RefusalTexts();
  }

  /** And so do set commands. */
  lemma SetRefuses(dbs: seq<Db>, i: nat, key: string, items: seq<string>, x: string, now: int)
    requires i < |dbs| && items != [] && !Absent(dbs, i, key, now) && dbs[i][key].kind != SetType
    ensures Reply(dbs, i, SAddRequest(key, items), now) == "ERR wrong type for SADD\n"
    ensures Reply(dbs, i, SRemRequest(key, items), now) == "ERR wrong type for SREM\n"
    ensures Reply(dbs, i, SIsMemberRequest(key, x), now) == "ERR wrong type for SISMEMBER\n"
  {
    hide Reply, Means, SAddRequest, SRemRequest, SIsMemberRequest, WrongType, AsSet, Number;
    SAddMeans(key, items);
    SRemMeans(key, items);
    SIsMemberMeans(key, x);
    Answers(dbs, i, SAddRequest(key, items), key, SAdd(items), now);
    Answers(dbs, i, SRemRequest(key, items), key, SRem(items), now);
    Answers(dbs, i, SIsMemberRequest(key, x), key, SIsMember(x), now);
    RefusalTexts();
  }
}
