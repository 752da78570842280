/** The store itself (`DataStore`): one database that its methods update in place, each proved
    against the operation it performs. The clock reading is passed in. */
module Datastore {
  import opened Text
  import opened Values
  import opened Memory
  import opened Glob
  import opened Operations
  import opened Eviction
  import opened Snapshot

  datatype Status = Ok | Missing | WrongKind

  /** One logical database: its entries, its eviction settings and the counters of lost keys. */
  class DataStore {
    var values: Db
    var config: Config
    var evictedKeys: nat
    var expiredKeys: nat

    constructor ()
      ensures values == map[] && evictedKeys == 0 && expiredKeys == 0
      ensures config == Config(0, 0, NoEviction)
    {
      values, evictedKeys, expiredKeys := map[], 0, 0;
      config := Config(0, 0, NoEviction);
    }

    /** `left` is what an operation left before eviction; `lostBefore` the eviction count then. */
    ghost predicate Settled(left: Db, evicts: bool, lostBefore: nat)
      reads this
    {
      if evicts then Evicted(config, left, values) && evictedKeys == lostBefore + |left| - |values|
      else values == left && evictedKeys == lostBefore
    }

    // ----- eviction --------------------------------------------------------------------------------

    /** `overEvictionLimitLocked`: stops adding up as soon as the limit is passed, and still
        agrees with the total, whatever the iteration order. */
    method OverEvictionLimit() returns (over: bool)
      ensures over <==> (config.maxKeys > 0 && |values| > config.maxKeys) ||
                        (config.maxMemory > 0 && TotalBytes(values) > config.maxMemory)
    {
      if config.maxKeys > 0 && |values| > config.maxKeys {
        return true;
      }
      if config.maxMemory == 0 {
        return false;
      }
      var estimated := 0;
      var left := values;
      while left != map[]
        invariant estimated + TotalBytes(left) == TotalBytes(values)
        invariant estimated <= config.maxMemory
        decreases |left|
      {
        hide TotalBytes, EstimateBytes;
        var key :| key in left;
        TotalTakeOut(left, key);
        assert (left - {key}).Keys == left.Keys - {key};
        var bytes := EstimateObjectBytes(key, left[key]);
        estimated := estimated + bytes;
        if estimated > config.maxMemory {
          return true;
        }
        left := left - {key};
      }
      assert EntrySizes(left) == map[];
      return false;
    }

    /** The scan for the least rank, by stamp or by expiry; keys in any order. */
    method FindVictim() returns (victim: Option<string>)
      requires config.policy != NoEviction && config.policy != Random
      ensures victim.Some? ==> IsVictim(config.policy, values, victim.value)
      ensures victim.None? ==> forall k :: k in values ==> !Choosable(config.policy, values[k])
    {
      victim := None;
      var least := MAX_LL;
      var left := values.Keys;
      while left != {}
        invariant left <= values.Keys
        invariant victim.None? ==> least == MAX_LL
        invariant victim.Some? ==> && victim.value in values && Choosable(config.policy, values[victim.value])
                                   && least == Rank(config.policy, values[victim.value])
        invariant forall k :: k in values && k !in left && Choosable(config.policy, values[k]) ==>
                    victim.Some? && least <= Rank(config.policy, values[k])
        decreases |left|
      {
        var key :| key in left;
        var e := values[key];
        left := left - {key};
        if config.policy == TtlPriority {
          if e.expiresAt != -1 && e.expiresAt < least {
            least := e.expiresAt;
            victim := Some(key);
          }
        } else if !(config.policy == VolatileLru && e.expiresAt == -1) {
          var lastAccessed := if e.lastAccessedAt == -1 then e.createdAt else e.lastAccessedAt;
          if lastAccessed < least {
            least := lastAccessed;
            victim := Some(key);
          }
        }
      }
    }

    /** `evictOneLocked`. */
    method EvictOne() returns (evicted: bool)
      modifies this`values, this`evictedKeys
      ensures evicted ==> exists k :: IsVictim(config.policy, old(values), k) && values == old(values) - {k}
      ensures evicted ==> evictedKeys == old(evictedKeys) + 1
      ensures !evicted ==> values == old(values) && evictedKeys == old(evictedKeys)
      ensures !evicted ==> forall k :: k in values ==> !Choosable(config.policy, values[k])
    {
      if values == map[] || config.policy == NoEviction {
        return false;
      }
      var victim: Option<string> := None;
      if config.policy == Random {
        var key :| key in values;
        victim := Some(key);
      } else {
        victim := FindVictim();
      }
      if victim.None? {
        return false;
      }
      assert IsVictim(config.policy, values, victim.value);
      values := values - {victim.value};
      evictedKeys := evictedKeys + 1;
      return true;
    }

    /** `evictIfNeededLocked`: the loop keeps the order and the minimality of what it evicts,
        counts it exactly, and ends within the limits or with nothing left to choose. */
    method EvictIfNeeded()
      modifies this`values, this`evictedKeys
      ensures Evicted(config, old(values), values)
      ensures evictedKeys == old(evictedKeys) + |old(values)| - |values|
    {
      hide TotalBytes;
      var over := OverEvictionLimit();
      while over
        invariant over == Over(config, values)
        invariant Trimmed(config, old(values), values)
        invariant evictedKeys == old(evictedKeys) + |old(values)| - |values|
        decreases |values|
      {
        ghost var before := values;
        var evicted := EvictOne();
        if !evicted {
          break;
        }
        ghost var k :| IsVictim(config.policy, before, k) && values == before - {k};
        EvictOneMore(config, old(values), before, k);
        assert values.Keys == before.Keys - {k};
        over := OverEvictionLimit();
      }
    }

    method ConfigureEviction(config: Config)
      modifies this`values, this`evictedKeys, this`config
      ensures this.config == config
      ensures Settled(old(values), true, old(evictedKeys))
    {
      hide Evicted;
      this.config := config;
      EvictIfNeeded();
    }

    // ----- finding and replacing entries -------------------------------------------------------------

    /** The common opening of the operations: find the entry, dropping it if it has expired. */
    method FindLive(key: string, now: int) returns (cur: Option<ValueObject>)
      modifies this`values
      ensures cur == Lookup(old(values), key, now) && values == Store(old(values), key, cur)
      ensures cur.Some? ==> values == old(values)
      ensures forall e :: Store(values, key, e) == Store(old(values), key, e)
    {
      if key !in values {
        assert values - {key} == values;
        return None;
      }
      if IsExpired(values[key], now) {
        values := values - {key};
        return None;
      }
      assert values[key := values[key]] == values;
      return Some(values[key]);
    }

    method Put(key: string, e: ValueObject)
      modifies this`values
      ensures values == Store(old(values), key, Some(e))
    {
      values := values[key := e];
    }

    /** Store an entry, then evict. */
    method PutAndEvict(key: string, e: ValueObject)
      modifies this`values, this`evictedKeys
      ensures Settled(Store(old(values), key, Some(e)), true, old(evictedKeys))
    {
      hide Evicted;
      Put(key, e);
      EvictIfNeeded();
    }

    method Erase(key: string)
      modifies this`values
      ensures values == Store(old(values), key, None)
    {
      values := values - {key};
    }

    // ----- strings -------------------------------------------------------------------------------------

    method Set(key: string, value: string, ttlSeconds: int, now: int)
      modifies this`values, this`evictedKeys
      ensures Settled(Store(old(values), key, SetAt(value, ttlSeconds, now).entry), true, old(evictedKeys))
    {
      hide Evicted;
      var expiresAt := if ttlSeconds >= 0 then now + ttlSeconds * 1000 else -1;
      PutAndEvict(key, StringObject(value, now, expiresAt, now));
    }

    method Get(key: string, now: int) returns (value: Option<string>)
      modifies this`values
      ensures values == Store(old(values), key, GetAt(Lookup(old(values), key, now), now).entry)
      ensures value == var cur := Lookup(old(values), key, now);
                       if cur.None? || cur.value.kind != StringType then None else Some(cur.value.value)
    {
      var cur := FindLive(key, now);
      if cur.None? || cur.value.kind != StringType {
        return None;
      }
      Put(key, Touch(cur.value, now));
      return Some(cur.value.value);
    }

    method Del(key: string) returns (deleted: bool)
      modifies this`values
      ensures values == old(values) - {key}
      ensures deleted == (key in old(values))
    {
      deleted := key in values;
      values := values - {key};
    }

    method Exists(key: string, now: int) returns (exists_: bool)
      modifies this`values
      ensures values == Store(old(values), key, ExistsAt(Lookup(old(values), key, now), now).entry)
      ensures exists_ == Lookup(old(values), key, now).Some?
    {
      var cur := FindLive(key, now);
      if cur.None? {
        return false;
      }
      Put(key, Touch(cur.value, now));
      return true;
    }

    method Expire(key: string, ttlSeconds: nat, now: int) returns (found: bool)
      modifies this`values
      ensures values == Store(old(values), key, ExpireAt(Lookup(old(values), key, now), ttlSeconds, now).entry)
      ensures found == Lookup(old(values), key, now).Some?
    {
      var cur := FindLive(key, now);
      if cur.None? {
        return false;
      }
      Put(key, cur.value.(expiresAt := now + ttlSeconds * 1000));
      return true;
    }

    /** -2 for a missing key, -1 without expiry, else the remaining seconds rounded up. */
    method Ttl(key: string, now: int) returns (seconds: int)
      modifies this`values
      ensures values == Store(old(values), key, TtlAt(Lookup(old(values), key, now), now).entry)
      ensures var cur := Lookup(old(values), key, now);
              && (cur.None? ==> seconds == -2)
              && (cur.Some? && cur.value.expiresAt == -1 ==> seconds == -1)
              && (cur.Some? && cur.value.expiresAt != -1 ==>
                    seconds >= 1 && (seconds - 1) * 1000 < cur.value.expiresAt - now <= seconds * 1000)
    {
      var cur := FindLive(key, now);
      if cur.None? {
        return -2;
      }
      if cur.value.expiresAt == -1 {
        return -1;
      }
      Put(key, Touch(cur.value, now));
      var remainingMillis := cur.value.expiresAt - now;
      return (remainingMillis + 999) / 1000;
    }

    method Persist(key: string, now: int) returns (changed: bool)
      modifies this`values, this`evictedKeys
      ensures Settled(Store(old(values), key, PersistAt(Lookup(old(values), key, now), now).entry), changed,
                      old(evictedKeys))
      ensures changed == var cur := Lookup(old(values), key, now); cur.Some? && cur.value.expiresAt != -1
    {
      hide Evicted;
      var cur := FindLive(key, now);
      if cur.None? || cur.value.expiresAt == -1 {
        return false;
      }
      PutAndEvict(key, cur.value.(expiresAt := -1, lastAccessedAt := now));
      return true;
    }

    method IncrBy(key: string, delta: int, now: int) returns (updated: Option<int>)
      modifies this`values, this`evictedKeys
      ensures Settled(Store(old(values), key, IncrAt(Lookup(old(values), key, now), delta, now).entry), updated.Some?,
                      old(evictedKeys))
      ensures updated == var cur := Lookup(old(values), key, now);
                         if cur.None? then Some(Wrap(delta))
                         else if cur.value.kind != StringType || ParseInteger(cur.value.value).None? then None
                         else Some(Wrap(ParseInteger(cur.value.value).value + delta))
    {
      hide Evicted;
      hide ParseInteger, Wrap, Number, Show;
      var cur := FindLive(key, now);
      var current, expiresAt, createdAt := 0, -1, now;
      if cur.Some? {
        if cur.value.kind != StringType {
          return None;
        }
        var parsed := ParseInteger(cur.value.value);
        if parsed.None? {
          return None;
        }
        current, expiresAt, createdAt := parsed.value, cur.value.expiresAt, cur.value.createdAt;
      }
      var sum := Wrap(current + delta);
      PutAndEvict(key, StringObject(Show(sum), createdAt, expiresAt, now));
      return Some(sum);
    }

    method Append(key: string, suffix: string, now: int) returns (size: Option<nat>)
      modifies this`values, this`evictedKeys
      ensures Settled(Store(old(values), key, AppendAt(Lookup(old(values), key, now), suffix, now).entry), size.Some?,
                      old(evictedKeys))
      ensures size == var cur := Lookup(old(values), key, now);
                      if cur.None? then Some(|suffix|)
                      else if cur.value.kind != StringType then None else Some(|cur.value.value| + |suffix|)
    {
      hide Evicted;
      hide Number, WrongType;
      var cur := FindLive(key, now);
      if cur.None? {
        PutAndEvict(key, StringObject(suffix, now, -1, now));
        return Some(|suffix|);
      }
      if cur.value.kind != StringType {
        return None;
      }
      var e := cur.value.(value := cur.value.value + suffix, lastAccessedAt := now);
      PutAndEvict(key, e);
      return Some(|e.value|);
    }

    method StrLen(key: string, now: int) returns (size: Option<nat>)
      modifies this`values
      ensures values == Store(old(values), key, StrlenAt(Lookup(old(values), key, now), now).entry)
      ensures size == var cur := Lookup(old(values), key, now);
                      if cur.None? || cur.value.kind != StringType then None else Some(|cur.value.value|)
    {
      hide Number;
      var cur := FindLive(key, now);
      if cur.None? || cur.value.kind != StringType {
        return None;
      }
      Put(key, Touch(cur.value, now));
      return Some(|cur.value.value|);
    }

    /** The text each GET of the keys, one after the other, would have replied. */
    method MGet(keys: seq<string>, now: int) returns (found: seq<Option<string>>)
      modifies this`values
      ensures values == RunMGet(old(values), keys, now).db
      ensures OptionLines(found) == RunMGet(old(values), keys, now).reply
    {
      found := [];
      for i := 0 to |keys|
        invariant values == RunMGet(old(values), keys[..i], now).db
        invariant OptionLines(found) == RunMGet(old(values), keys[..i], now).reply
      {
        assert keys[..i + 1][..i] == keys[..i];
        ghost var before := found;
        var value := Get(keys[i], now);
        found := found + [value];
        assert found[..|before|] == before;
      }
      assert keys[..|keys|] == keys;
    }

    method MSet(entries: seq<(string, string)>, now: int)
      modifies this`values, this`evictedKeys
      ensures Settled(StoreAll(old(values), entries, now), true, old(evictedKeys))
    {
      hide Evicted;
      for i := 0 to |entries|
        invariant values == StoreAll(old(values), entries[..i], now) && evictedKeys == old(evictedKeys)
      {
        assert entries[..i + 1][..i] == entries[..i];
        values := values[entries[i].0 := StringObject(entries[i].1, now, -1, now)];
      }
      assert entries[..|entries|] == entries;
      EvictIfNeeded();
    }

    // ----- lists ---------------------------------------------------------------------------------------------

    method LPush(key: string, items: seq<string>, now: int) returns (size: Option<nat>)
      modifies this`values, this`evictedKeys
      ensures Settled(Store(old(values), key, LPushAt(Lookup(old(values), key, now), items, now).entry), size.Some?,
                      old(evictedKeys))
      ensures size == var cur := Lookup(old(values), key, now);
                      if cur.None? then Some(|items|)
                      else if cur.value.kind != ListType then None else Some(|items| + |cur.value.list|)
    {
      hide Evicted;
      hide Number, WrongType, Reversed;
      var cur := FindLive(key, now);
      if cur.None? {
        var created := PushFront([], items);
        assert created == Reversed(items);
        PutAndEvict(key, ListObject(created, now));
        return Some(|created|);
      }
      if cur.value.kind != ListType {
        return None;
      }
      var list := PushFront(cur.value.list, items);
      PutAndEvict(key, cur.value.(list := list, lastAccessedAt := now));
      return Some(|list|);
    }

    method RPush(key: string, items: seq<string>, now: int) returns (size: Option<nat>)
      modifies this`values, this`evictedKeys
      ensures Settled(Store(old(values), key, RPushAt(Lookup(old(values), key, now), items, now).entry), size.Some?,
                      old(evictedKeys))
      ensures size == var cur := Lookup(old(values), key, now);
                      if cur.None? then Some(|items|)
                      else if cur.value.kind != ListType then None else Some(|items| + |cur.value.list|)
    {
      hide Evicted;
      hide Number, WrongType;
      var cur := FindLive(key, now);
      if cur.None? {
        var created := PushBack([], items);
        assert created == items;
        PutAndEvict(key, ListObject(created, now));
        return Some(|created|);
      }
      if cur.value.kind != ListType {
        return None;
      }
      var list := PushBack(cur.value.list, items);
      PutAndEvict(key, cur.value.(list := list, lastAccessedAt := now));
      return Some(|list|);
    }

    method LPop(key: string, now: int) returns (status: Status, value: string)
      modifies this`values
      ensures values == Store(old(values), key, LPopAt(Lookup(old(values), key, now), now).entry)
      ensures var cur := Lookup(old(values), key, now);
              status == (if cur.None? then Missing else if cur.value.kind != ListType then WrongKind
                         else if cur.value.list == [] then Missing else Ok)
      ensures status == Ok ==> value == Lookup(old(values), key, now).value.list[0]
    {
      hide Line, WrongType;
      var cur := FindLive(key, now);
      if cur.None? {
        return Missing, "";
      }
      if cur.value.kind != ListType {
        return WrongKind, "";
      }
      if cur.value.list == [] {
        return Missing, "";
      }
      value := cur.value.list[0];
      var rest := cur.value.list[1..];
      if rest == [] {
        Erase(key);
      } else {
        Put(key, cur.value.(list := rest, lastAccessedAt := now));
      }
      return Ok, value;
    }

    method RPop(key: string, now: int) returns (status: Status, value: string)
      modifies this`values
      ensures values == Store(old(values), key, RPopAt(Lookup(old(values), key, now), now).entry)
      ensures var cur := Lookup(old(values), key, now);
              status == (if cur.None? then Missing else if cur.value.kind != ListType then WrongKind
                         else if cur.value.list == [] then Missing else Ok)
      ensures status == Ok ==>
                var list := Lookup(old(values), key, now).value.list; value == list[|list| - 1]
    {
      hide Line, WrongType;
      var cur := FindLive(key, now);
      if cur.None? {
        return Missing, "";
      }
      if cur.value.kind != ListType {
        return WrongKind, "";
      }
      if cur.value.list == [] {
        return Missing, "";
      }
      var last := |cur.value.list| - 1;
      value := cur.value.list[last];
      var rest := cur.value.list[..last];
      if rest == [] {
        Erase(key);
      } else {
        Put(key, cur.value.(list := rest, lastAccessedAt := now));
      }
      return Ok, value;
    }

    method LRange(key: string, start: int, stop: int, now: int) returns (status: Status, items: seq<string>)
      modifies this`values
      ensures values == Store(old(values), key, LRangeAt(Lookup(old(values), key, now), start, stop, now).entry)
      ensures var cur := Lookup(old(values), key, now);
              && status == (if cur.None? then Missing else if cur.value.kind != ListType then WrongKind else Ok)
              && items == if status != Ok then [] else Range(cur.value.list, start, stop)
    {
      hide Lines, WrongType, NormalizeRange;
      var cur := FindLive(key, now);
      items := [];
      if cur.None? {
        return Missing, [];
      }
      if cur.value.kind != ListType {
        return WrongKind, [];
      }
      var range := NormalizeRange(start, stop, |cur.value.list|);
      if range.None? {
        return Ok, [];
      }
      items := Slice(cur.value.list, range.value.0, range.value.1);
      Put(key, Touch(cur.value, now));
      return Ok, items;
    }

    // ----- hashes ----------------------------------------------------------------------------------------------

    method HSet(key: string, field: string, content: string, now: int) returns (added: Option<nat>)
      modifies this`values, this`evictedKeys
      ensures Settled(Store(old(values), key, HSetAt(Lookup(old(values), key, now), field, content, now).entry),
                      added.Some?, old(evictedKeys))
      ensures added == var cur := Lookup(old(values), key, now);
                       if cur.None? then Some(1) else if cur.value.kind != HashType then None
                       else if field in cur.value.hash then Some(0) else Some(1)
    {
      hide Evicted;
      hide WrongType;
      var cur := FindLive(key, now);
      if cur.None? {
        PutAndEvict(key, ValueObject("", [], map[field := content], {}, HashType, now, -1, now));
        return Some(1);
      }
      if cur.value.kind != HashType {
        return None;
      }
      var isNewField := field !in cur.value.hash;
      PutAndEvict(key, cur.value.(hash := cur.value.hash[field := content], lastAccessedAt := now));
      return Some(if isNewField then 1 else 0);
    }

    method HGet(key: string, field: string, now: int) returns (status: Status, content: Option<string>)
      modifies this`values
      ensures values == Store(old(values), key, HGetAt(Lookup(old(values), key, now), field, now).entry)
      ensures var cur := Lookup(old(values), key, now);
              && status == (if cur.None? then Missing else if cur.value.kind != HashType then WrongKind
                            else if field !in cur.value.hash then Missing else Ok)
              && content == if status == Ok then Some(cur.value.hash[field]) else None
    {
      hide Line, WrongType;
      var cur := FindLive(key, now);
      if cur.None? {
        return Missing, None;
      }
      if cur.value.kind != HashType {
        return WrongKind, None;
      }
      if field !in cur.value.hash {
        return Missing, None;
      }
      Put(key, Touch(cur.value, now));
      return Ok, Some(cur.value.hash[field]);
    }

    method HDel(key: string, field: string, now: int) returns (removed: Option<nat>)
      modifies this`values
      ensures values == Store(old(values), key, HDelAt(Lookup(old(values), key, now), field, now).entry)
      ensures removed == var cur := Lookup(old(values), key, now);
                         if cur.None? then Some(0) else if cur.value.kind != HashType then None
                         else if field in cur.value.hash then Some(1) else Some(0)
    {
      hide WrongType;
      var cur := FindLive(key, now);
      if cur.None? {
        return Some(0);
      }
      if cur.value.kind != HashType {
        return None;
      }
      var count := if field in cur.value.hash then 1 else 0;
      var rest := cur.value.hash - {field};
      if rest == map[] {
        Erase(key);
      } else {
        Put(key, cur.value.(hash := rest, lastAccessedAt := now));
      }
      return Some(count);
    }

    method HExists(key: string, field: string, now: int) returns (found: Option<bool>)
      modifies this`values
      ensures values == Store(old(values), key, HExistsAt(Lookup(old(values), key, now), field, now).entry)
      ensures found == var cur := Lookup(old(values), key, now);
                       if cur.None? then Some(false) else if cur.value.kind != HashType then None
                       else Some(field in cur.value.hash)
    {
      hide WrongType;
      var cur := FindLive(key, now);
      if cur.None? {
        return Some(false);
      }
      if cur.value.kind != HashType {
        return None;
      }
      Put(key, Touch(cur.value, now));
      return Some(field in cur.value.hash);
    }

    /** Fields and values in turn, fields in order. */
    method HGetAll(key: string, now: int) returns (status: Status, fields: seq<string>)
      modifies this`values
      ensures values == Store(old(values), key, HGetAllAt(Lookup(old(values), key, now), now).entry)
      ensures var cur := Lookup(old(values), key, now);
              && status == (if cur.None? then Missing else if cur.value.kind != HashType then WrongKind else Ok)
              && (status == Ok ==> Lines(fields) == FieldLines(cur.value.hash)) && (status != Ok ==> fields == [])
    {
      hide WrongType, Lines;
      var cur := FindLive(key, now);
      if cur.None? {
        return Missing, [];
      }
      if cur.value.kind != HashType {
        return WrongKind, [];
      }
      SortedMembers(cur.value.hash.Keys);
      fields := PairUp(cur.value.hash, Sorted(cur.value.hash.Keys));
      Put(key, Touch(cur.value, now));
      return Ok, fields;
    }

    // ----- sets --------------------------------------------------------------------------------------------------

    method SAdd(key: string, items: seq<string>, now: int) returns (added: Option<nat>)
      modifies this`values, this`evictedKeys
      ensures Settled(Store(old(values), key, SAddAt(Lookup(old(values), key, now), items, now).entry), added.Some?,
                      old(evictedKeys))
      ensures added == var cur := Lookup(old(values), key, now);
                       if cur.None? then Some(|AsSet(items)|) else if cur.value.kind != SetType then None
                       else Some(|cur.value.members + AsSet(items)| - |cur.value.members|)
    {
      hide Evicted;
      hide WrongType, Number, AsSet;
      var cur := FindLive(key, now);
      if cur.None? {
        var created, size := InsertAll({}, items);
        PutAndEvict(key, ValueObject("", [], map[], created, SetType, now, -1, now));
        return Some(size);
      }
      if cur.value.kind != SetType {
        return None;
      }
      var members, count := InsertAll(cur.value.members, items);
      PutAndEvict(key, cur.value.(members := members, lastAccessedAt := now));
      return Some(count);
    }

    method SRem(key: string, items: seq<string>, now: int) returns (removed: Option<nat>)
      modifies this`values
      ensures values == Store(old(values), key, SRemAt(Lookup(old(values), key, now), items, now).entry)
      ensures removed == var cur := Lookup(old(values), key, now);
                         if cur.None? then Some(0) else if cur.value.kind != SetType then None
                         else Some(|cur.value.members| - |cur.value.members - AsSet(items)|)
    {
      hide WrongType, Number, AsSet;
      var cur := FindLive(key, now);
      if cur.None? {
        return Some(0);
      }
      if cur.value.kind != SetType {
        return None;
      }
      var members, count := EraseAll(cur.value.members, items);
      if members == {} {
        Erase(key);
      } else {
        Put(key, cur.value.(members := members, lastAccessedAt := now));
      }
      return Some(count);
    }

    method SIsMember(key: string, item: string, now: int) returns (found: Option<bool>)
      modifies this`values
      ensures values == Store(old(values), key, SIsMemberAt(Lookup(old(values), key, now), item, now).entry)
      ensures found == var cur := Lookup(old(values), key, now);
                       if cur.None? then Some(false) else if cur.value.kind != SetType then None
                       else Some(item in cur.value.members)
    {
      hide WrongType;
      var cur := FindLive(key, now);
      if cur.None? {
        return Some(false);
      }
      if cur.value.kind != SetType {
        return None;
      }
      Put(key, Touch(cur.value, now));
      return Some(item in cur.value.members);
    }

    method SMembers(key: string, now: int) returns (status: Status, members: seq<string>)
      modifies this`values
      ensures values == Store(old(values), key, SMembersAt(Lookup(old(values), key, now), now).entry)
      ensures var cur := Lookup(old(values), key, now);
              && status == (if cur.None? then Missing else if cur.value.kind != SetType then WrongKind else Ok)
              && members == if status == Ok then Sorted(cur.value.members) else []
    {
      hide WrongType, Lines, Sorted;
      var cur := FindLive(key, now);
      if cur.None? {
        return Missing, [];
      }
      if cur.value.kind != SetType {
        return WrongKind, [];
      }
      Put(key, Touch(cur.value, now));
      return Ok, Sorted(cur.value.members);
    }

    method SCard(key: string, now: int) returns (size: Option<nat>)
      modifies this`values
      ensures values == Store(old(values), key, SCardAt(Lookup(old(values), key, now), now).entry)
      ensures size == var cur := Lookup(old(values), key, now);
                      if cur.None? then Some(0) else if cur.value.kind != SetType then None
                      else Some(|cur.value.members|)
    {
      hide WrongType, Number;
      var cur := FindLive(key, now);
      if cur.None? {
        return Some(0);
      }
      if cur.value.kind != SetType {
        return None;
      }
      Put(key, Touch(cur.value, now));
      return Some(|cur.value.members|);
    }

    // ----- keys ----------------------------------------------------------------------------------------------------

    method MemoryUsage(key: string, now: int) returns (bytes: Option<nat>)
      modifies this`values
      ensures values == Store(old(values), key, MemoryAt(key, Lookup(old(values), key, now), now).entry)
      ensures bytes == var cur := Lookup(old(values), key, now);
                       if cur.None? then None else Some(EstimateBytes(key, ContentOf(cur.value)))
    {
      hide Number, EstimateBytes;
      var cur := FindLive(key, now);
      if cur.None? {
        return None;
      }
      Put(key, Touch(cur.value, now));
      var total := EstimateObjectBytes(key, cur.value);
      return Some(total);
    }

    method Type(key: string, now: int) returns (name: string)
      modifies this`values
      ensures values == Store(old(values), key, TypeAt(Lookup(old(values), key, now), now).entry)
      ensures name == var cur := Lookup(old(values), key, now);
                      if cur.None? then "none" else TypeName(cur.value.kind)
    {
      hide TypeName;
      var cur := FindLive(key, now);
      if cur.None? {
        return "none";
      }
      Put(key, Touch(cur.value, now));
      return TypeName(cur.value.kind);
    }

    /** The loop that erases every expired entry, and how many there were. */
    method DropExpired(now: int) returns (removed: nat)
      modifies this`values
      ensures values == Purge(old(values), now) && removed == |old(values)| - |values|
    {
      removed := 0;
      var left := values.Keys;
      while left != {}
        invariant left <= values.Keys
        invariant forall k :: k in values ==> k in old(values) && values[k] == old(values)[k]
        invariant forall k :: k in old(values) && (k in left || !IsExpired(old(values)[k], now)) ==> k in values
        invariant forall k :: k in values && k !in left ==> !IsExpired(values[k], now)
        invariant removed + |values| == |old(values)|
        decreases |left|
      {
        var key :| key in left;
        left := left - {key};
        if IsExpired(values[key], now) {
          assert (values - {key}).Keys == values.Keys - {key};
          values := values - {key};
          removed := removed + 1;
        }
      }
      assert values == Purge(old(values), now);
    }

    /** `removeExpired`: every expired entry goes, each counted once. */
    method RemoveExpired(now: int) returns (removed: nat)
      modifies this`values, this`expiredKeys
      ensures values == Purge(old(values), now)
      ensures removed == |old(values)| - |values| && expiredKeys == old(expiredKeys) + removed
    {
      removed := DropExpired(now);
      expiredKeys := expiredKeys + removed;
    }

    /** `keys`: purge, then the matching keys in order. */
    method Keys(pattern: string, now: int) returns (found: seq<string>)
      modifies this`values, this`expiredKeys
      ensures values == Purge(old(values), now)
      ensures found == Sorted(MatchingKeys(Purge(old(values), now), pattern))
      ensures expiredKeys == old(expiredKeys) + |old(values)| - |values|
    {
      var removed := RemoveExpired(now);
      var matching := {};
      var left := values.Keys;
      while left != {}
        invariant left <= values.Keys
        invariant values == Purge(old(values), now) && expiredKeys == old(expiredKeys) + |old(values)| - |values|
        invariant matching == set k | k in values && k !in left && MatchesPattern(k, pattern)
        decreases |left|
      {
        var key :| key in left;
        left := left - {key};
        var matched := MatchPattern(key, pattern);
        if matched {
          matching := matching + {key};
        }
      }
      assert matching == MatchingKeys(values, pattern);
      return Sorted(matching);
    }

    method DbSize(now: int) returns (size: nat)
      modifies this`values, this`expiredKeys
      ensures values == Purge(old(values), now) && size == |Purge(old(values), now)|
      ensures expiredKeys == old(expiredKeys) + |old(values)| - |values|
    {
      var removed := RemoveExpired(now);
      return |values|;
    }

    method Rename(source: string, destination: string, now: int) returns (found: bool)
      modifies this`values, this`evictedKeys
      ensures Settled(RunRename(old(values), source, destination, now).db,
                      RunRename(old(values), source, destination, now).evicts, old(evictedKeys))
      ensures found == Lookup(old(values), source, now).Some?
    {
      hide Evicted;
      var cur := FindLive(source, now);
      if cur.None? {
        return false;
      }
      if source == destination {
        return true;
      }
      values := values[destination := Touch(cur.value, now)];
      values := values - {source};
      EvictIfNeeded();
      return true;
    }

    /** `moveKeyTo`. */
    method MoveKeyTo(key: string, destination: DataStore, now: int) returns (moved: bool)
      modifies this`values, destination`values, destination`evictedKeys
      ensures this == destination ==> !moved && values == old(values) && evictedKeys == old(evictedKeys)
      ensures this != destination ==>
                var m := MoveKey(old(values), old(destination.values), key, now);
                && moved == m.moved && values == m.source
                && destination.Settled(m.destination, moved, old(destination.evictedKeys))
    {
      hide Evicted;
      if this == destination {
        return false;
      }
      var cur := FindLive(key, now);
      if cur.None? {
        return false;
      }
      if key in destination.values && !IsExpired(destination.values[key], now) {
        return false;
      }
      destination.Put(key, Touch(cur.value, now));
      values := values - {key};
      destination.EvictIfNeeded();
      return true;
    }

    method FlushDb()
      modifies this`values
      ensures values == map[]
    {
      values := map[];
    }

    /** `stats`: the number of keys, the estimated total, and the keys lost so far. */
    method Stats() returns (keys: nat, bytes: nat, evicted: nat, expired: nat)
      ensures keys == |values| && bytes == TotalBytes(values) && evicted == evictedKeys && expired == expiredKeys
    {
      bytes := 0;
      var left := values;
      while left != map[]
        invariant bytes + TotalBytes(left) == TotalBytes(values)
        decreases |left|
      {
        hide TotalBytes, EstimateBytes;
        var key :| key in left;
        TotalTakeOut(left, key);
        assert (left - {key}).Keys == left.Keys - {key};
        var size := EstimateObjectBytes(key, left[key]);
        bytes := bytes + size;
        left := left - {key};
      }
      assert EntrySizes(left) == map[];
      return |values|, bytes, evictedKeys, expiredKeys;
    }

    // ----- snapshots -------------------------------------------------------------------------------------------------

    /** `snapshot`: drops what has expired, uncounted, and returns the rest in key order. */
    method TakeSnapshot(now: int) returns (entries: seq<Entry>)
      modifies this`values
      ensures values == Purge(old(values), now) && entries == SnapshotOf(old(values), now)
    {
      var removed := DropExpired(now);
      entries := Listing(values);
    }

    /** `loadSnapshot`. */
    method LoadSnapshot(entries: seq<Entry>, now: int)
      modifies this`values, this`evictedKeys
      ensures Settled(LoadEntries(entries, now), true, old(evictedKeys))
    {
      hide Evicted;
      values := map[];
      for i := 0 to |entries|
        invariant values == LoadEntries(entries[..i], now) && evictedKeys == old(evictedKeys)
      {
        assert entries[..i + 1][..i] == entries[..i];
        var x := entries[i];
        if !IsExpired(x.value, now) {
          var value := x.value;
          if value.lastAccessedAt == -1 {
            value := Touch(value, now);
          }
          values := values[x.key := value];
        }
      }
      assert entries[..|entries|] == entries;
      EvictIfNeeded();
    }
  }

  /** The entries of a database in key order. */
  method Listing(db: Db) returns (entries: seq<Entry>)
    ensures entries == ListingOf(db)
  {
    SortedMembers(db.Keys);
    var keys := Sorted(db.Keys);
    entries := [];
    for i := 0 to |keys|
      invariant |entries| == i && forall j :: 0 <= j < i ==> entries[j] == Entry(keys[j], db[keys[j]])
    {
      assert keys[i] in keys;
      entries := entries + [Entry(keys[i], db[keys[i]])];
    }
    assert entries == EntriesOf(db, keys);
  }

  // ----- the element loops of the list and set operations -----------------------------------------------------------

  function OptionLines(xs: seq<Option<string>>): string {
    if xs == [] then ""
    else OptionLines(xs[..|xs| - 1]) + (if xs[|xs| - 1].None? then "(nil)\n" else Line(xs[|xs| - 1].value))
  }

  /** The inclusive range that LRANGE denotes. */
  function Range(list: seq<string>, start: int, stop: int): seq<string> {
    var range := NormalizeRange(start, stop, |list|);
    if range.None? then [] else list[range.value.0..range.value.1 + 1]
  }

  method PushFront(list: seq<string>, items: seq<string>) returns (r: seq<string>)
    ensures r == Reversed(items) + list
  {
    r := list;
    for i := 0 to |items|
      invariant r == Reversed(items[..i]) + list
    {
      assert items[..i + 1][..i] == items[..i];
      r := [items[i]] + r;
    }
    assert items[..|items|] == items;
  }

  method PushBack(list: seq<string>, items: seq<string>) returns (r: seq<string>)
    ensures r == list + items
  {
    r := list;
    for i := 0 to |items|
      invariant r == list + items[..i]
    {
      r := r + [items[i]];
    }
    assert items[..|items|] == items;
  }

  method Slice(list: seq<string>, first: nat, last: nat) returns (r: seq<string>)
    requires first <= last < |list|
    ensures r == list[first..last + 1]
  {
    r := [];
    for i := first to last + 1
      invariant r == list[first..i]
    {
      r := r + [list[i]];
    }
  }

  method PairUp(hash: map<string, string>, fields: seq<string>) returns (r: seq<string>)
    requires forall f :: f in fields ==> f in hash
    ensures r == Pairs(hash, fields)
  {
    r := [];
    for i := 0 to |fields|
      invariant r == Pairs(hash, fields[..i])
    {
      assert fields[..i + 1][..i] == fields[..i];
      r := r + [fields[i], hash[fields[i]]];
    }
    assert fields[..|fields|] == fields;
  }

  /** Insertions that were new are counted. */
  method InsertAll(members: set<string>, items: seq<string>) returns (r: set<string>, added: nat)
    ensures r == members + AsSet(items) && added == |members + AsSet(items)| - |members|
    ensures members == {} ==> r == AsSet(items)
  {
    hide AsSet;
    AsSetNone();
    r, added := members, 0;
    for i := 0 to |items|
      invariant r == members + AsSet(items[..i]) && added == |r| - |members|
    {
      AsSetOneMore(items, i);
      if items[i] !in r {
        added := added + 1;
      } else {
        assert r + {items[i]} == r;
      }
      r := r + {items[i]};
    }
    assert items[..|items|] == items && items[..0] == [];
  }

  /** Removals that removed something are counted. */
  method EraseAll(members: set<string>, items: seq<string>) returns (r: set<string>, removed: nat)
    ensures r == members - AsSet(items) && removed == |members| - |members - AsSet(items)|
  {
    hide AsSet;
    AsSetNone();
    r, removed := members, 0;
    for i := 0 to |items|
      invariant r == members - AsSet(items[..i]) && removed == |members| - |r|
    {
      AsSetOneMore(items, i);
      if items[i] in r {
        removed := removed + 1;
      } else {
        assert r - {items[i]} == r;
      }
      r := r - {items[i]};
    }
    assert items[..|items|] == items;
  }
}
