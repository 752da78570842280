/** What clients see of lists: pushes, pops and ranges, stated over tokens and replies; a list
    served at one end is a stack, at both ends a queue. */
module ListLaws {
  import opened Text
  import opened Values
  import opened Operations
  import opened Requests
  import opened KeyLaws

  /** What a key holds as a list: nothing, if it is not there. */
  function ListAt(dbs: seq<Db>, i: nat, key: string, t: int): seq<string>
    requires i < |dbs|
  {
    var cur := Lookup(dbs[i], key, t);
    if cur.None? then [] else cur.value.list
  }

  /** The key is not there, or holds a list. */
  predicate IsListAt(dbs: seq<Db>, i: nat, key: string, t: int)
    requires i < |dbs|
  {
    var cur := Lookup(dbs[i], key, t);
    cur.None? || (cur.value.kind == ListType && cur.value.list != [])
  }

  /** An entry that is this list, for good; none, if the list is empty. */
  predicate ListEntry(e: Option<ValueObject>, list: seq<string>) {
    if list == [] then e.None?
    else e.Some? && e.value.kind == ListType && e.value.list == list && e.value.expiresAt == -1
  }

  /** The key holds this list. */
  predicate HoldsList(dbs: seq<Db>, i: nat, key: string, list: seq<string>) {
    i < |dbs| && ListEntry(if key in dbs[i] then Some(dbs[i][key]) else None, list)
  }

  /** A request on such a key, from the entry it finds to the entry it leaves. */
  lemma ListRuns(dbs: seq<Db>, i: nat, tokens: seq<string>, key: string, op: KeyOp, list: seq<string>,
                 rest: seq<string>,
                 now: int)
    requires HoldsList(dbs, i, key, list) && Means(tokens, Single(key, op))
    requires forall e :: ListEntry(e, list) ==> ListEntry(Apply(op, key, e, now).entry, rest)
    ensures var after := After(dbs, i, tokens, now);
            HoldsList(after, i, key, rest) && OnlyKey(dbs, after, i, key)
    ensures ListEntry(Lookup(dbs[i], key, now), list)
    ensures Reply(dbs, i, tokens, now) == Apply(op, key, Lookup(dbs[i], key, now), now).reply
  {
    hide Reply, Means, Apply;
    Runs(dbs, i, tokens, key, op, now);
  }

  // ----- what LRANGE shows -----------------------------------------------------------------------

  /** The elements at positions from `lo` to `hi`. */
  function Between(list: seq<string>, lo: int, hi: int): seq<string> {
    if list == [] then []
    else
      var n := |list| - 1;
      Between(list[..n], lo, hi) + (if lo <= n <= hi then [list[n]] else [])
  }

  lemma {:induction false} BetweenIsSlice(list: seq<string>, from: nat, to: int)
    requires -1 <= to < |list| && from <= to + 1
    ensures Between(list, from, to) == list[from..to + 1]
    decreases |list|
  {
    if list != [] {
      var n := |list| - 1;
      if to < n {
        BetweenIsSlice(list[..n], from, to);
        assert list[..n][from..to + 1] == list[from..to + 1];
      } else if from <= n {
        BetweenIsSlice(list[..n], from, n - 1);
        assert list[..n][from..n] + [list[n]] == list[from..n + 1];
        BetweenIgnores(list[..n], from, to, n - 1);
      } else {
        NoneBetween(list, from, to);
      }
    }
  }

  /** Positions past the end make no difference. */
  lemma {:induction false} BetweenIgnores(list: seq<string>, lo: int, hi: int, hi': int)
    requires hi == hi' || (hi >= |list| - 1 && hi' >= |list| - 1)
    ensures Between(list, lo, hi) == Between(list, lo, hi')
  {
    if list != [] { BetweenIgnores(list[..|list| - 1], lo, hi, hi'); }
  }

  lemma {:induction false} NoneBetween(list: seq<string>, lo: int, hi: int)
    requires list == [] || lo > hi || lo >= |list| || hi < 0
    ensures Between(list, lo, hi) == []
  {
    if list != [] { NoneBetween(list[..|list| - 1], lo, hi); }
  }

  lemma {:induction false} BetweenStartsLate(list: seq<string>, lo: int, hi: int)
    requires lo < 0
    ensures Between(list, lo, hi) == Between(list, 0, hi)
  {
    if list != [] { BetweenStartsLate(list[..|list| - 1], lo, hi); }
  }

  /** `normalizeRange` picks exactly the elements between the two positions. */
  lemma RangeIsBetween(list: seq<string>, start: int, stop: int)
    ensures var r := NormalizeRange(start, stop, |list|);
            var chosen := Between(list, FromEnd(start, |list|), FromEnd(stop, |list|));
            if r.None? then chosen == [] else chosen == list[r.value.0..r.value.1 + 1]
  {
    hide Between;
    var lo, hi := FromEnd(start, |list|), FromEnd(stop, |list|);
    var r := NormalizeRange(start, stop, |list|);
    if r.None? {
      NoneBetween(list, lo, hi);
    } else {
      var from, to := r.value.0, r.value.1;
      assert from == (if lo < 0 then 0 else lo) && (hi == to || (hi >= |list| - 1 && to == |list| - 1));
      if lo < 0 { BetweenStartsLate(list, lo, hi); }
      BetweenIgnores(list, from, hi, to);
      BetweenIsSlice(list, from, to);
    }
  }

  /** LRANGE replies the elements between the two positions, in order; negative positions count
      from the end. */
  lemma LRangeShows(dbs: seq<Db>, i: nat, key: string, start: int, stop: int, t: int)
    requires i < |dbs| && MIN_LL <= start <= MAX_LL && MIN_LL <= stop <= MAX_LL && IsListAt(dbs, i, key, t)
    ensures var list := ListAt(dbs, i, key, t);
            Reply(dbs, i, LRangeRequest(key, start, stop), t) ==
            Lines(Between(list, FromEnd(start, |list|), FromEnd(stop, |list|)))
  {
    hide Reply, Means, LRangeRequest, Lines, NormalizeRange, Between;
    var list := ListAt(dbs, i, key, t);
    RangeIsBetween(list, start, stop);
    NoneBetweenNothing(FromEnd(start, |list|), FromEnd(stop, |list|));
    LinesOfBoth([], []);
    LRangeMeans(key, start, stop);
    Answers(dbs, i, LRangeRequest(key, start, stop), key, LRange(start, stop), t);
  }

  lemma NoneBetweenNothing(lo: int, hi: int)
    ensures Between([], lo, hi) == []
  {
  }

  /** LRANGE 0 -1 shows the whole list. */
  lemma WholeList(dbs: seq<Db>, i: nat, key: string, t: int)
    requires i < |dbs| && IsListAt(dbs, i, key, t)
    ensures Reply(dbs, i, LRangeRequest(key, 0, -1), t) == Lines(ListAt(dbs, i, key, t))
  {
    hide Reply, LRangeRequest, Lines, Between;
    var list := ListAt(dbs, i, key, t);
    LRangeShows(dbs, i, key, 0, -1, t);
    BetweenIsSlice(list, 0, |list| - 1);
    assert list[0..|list|] == list;
  }

  // ----- pushes ----------------------------------------------------------------------------------

  lemma {:induction false} ReversedAt(xs: seq<string>, k: nat)
    requires k < |xs|
    ensures Reversed(xs)[k] == xs[|xs| - 1 - k]
  {
    if k > 0 { ReversedAt(xs[..|xs| - 1], k - 1); }
  }

  /** RPUSH adds its elements behind the list, in order, and replies the new length. */
  lemma RPushAdds(dbs: seq<Db>, i: nat, key: string, list: seq<string>, items: seq<string>, now: int)
    requires HoldsList(dbs, i, key, list) && items != []
    ensures Reply(dbs, i, RPushRequest(key, items), now) == Show(|list| + |items|) + "\n"
    ensures var after := After(dbs, i, RPushRequest(key, items), now);
            HoldsList(after, i, key, list + items) && OnlyKey(dbs, after, i, key)
  {
    hide Reply, After, Means, RPushRequest, Show, OnlyKey, HoldsList;
    ItemsAlone(items);
    RPushMeans(key, items);
    ListRuns(dbs, i, RPushRequest(key, items), key, RPush(items), list, list + items, now);
  }

  lemma ItemsAlone(items: seq<string>)
    ensures [] + items == items && Reversed(items) + [] == Reversed(items)
  {
  }

  lemma PushedOnNothing(e: Option<ValueObject>, items: seq<string>, now: int)
    requires ListEntry(e, []) && items != []
    ensures ListEntry(LPushAt(e, items, now).entry, Reversed(items) + []) && LPushAt(e, items, now).reply ==
            Number(|items|)
  {
    hide Reversed, Number, WrongType;
    ItemsAlone(items);
    assert LPushAt(e, items, now).entry == Some(ListObject(Reversed(items), now));
  }

  lemma PushedOnList(e: Option<ValueObject>, list: seq<string>, items: seq<string>, now: int)
    requires ListEntry(e, list) && items != [] && list != []
    ensures ListEntry(LPushAt(e, items, now).entry, Reversed(items) + list)
    ensures LPushAt(e, items, now).reply == Number(|list| + |items|)
  {
    hide Reversed, Number, WrongType;
    var front := Reversed(items);
    assert LPushAt(e, items, now).entry == Some(e.value.(list := front + list, lastAccessedAt := now));
    assert |front + list| == |items| + |list|;
  }

  lemma LPushIs(key: string, e: Option<ValueObject>, items: seq<string>, now: int)
    ensures Apply(LPush(items), key, e, now) == LPushAt(e, items, now)
  {
    hide LPushAt;
  }

  lemma PushedFront(key: string, e: Option<ValueObject>, list: seq<string>, items: seq<string>, now: int)
    requires ListEntry(e, list) && items != []
    ensures ListEntry(Apply(LPush(items), key, e, now).entry, Reversed(items) + list)
    ensures Apply(LPush(items), key, e, now).reply == Number(|list| + |items|)
  {
    hide Reversed, Number, LPushAt, ListEntry, Apply;
    LPushIs(key, e, items, now);
    if list == [] { PushedOnNothing(e, items, now); } else { PushedOnList(e, list, items, now); }
  }

  /** LPUSH adds its elements before the list, the last one first. */
  lemma LPushAdds(dbs: seq<Db>, i: nat, key: string, list: seq<string>, items: seq<string>, now: int)
    requires HoldsList(dbs, i, key, list) && items != []
    ensures Reply(dbs, i, LPushRequest(key, items), now) == Show(|list| + |items|) + "\n"
    ensures var after := After(dbs, i, LPushRequest(key, items), now);
            HoldsList(after, i, key, Reversed(items) + list) && OnlyKey(dbs, after, i, key)
  {
    hide Reply, After, Means, LPushRequest, Show, OnlyKey, HoldsList, Reversed, Apply, ListEntry;
    forall e | ListEntry(e, list) ensures ListEntry(Apply(LPush(items), key, e, now).entry, Reversed(items) + list)
             ensures Apply(LPush(items), key, e, now).reply == Number(|list| + |items|) {
      PushedFront(key, e, list, items, now);
    }
    LPushMeans(key, items);
    ListRuns(dbs, i, LPushRequest(key, items), key, LPush(items), list, Reversed(items) + list, now);
  }

  /** So that LRANGE shows the elements pushed in front, the last one first. */
  lemma LPushShows(dbs: seq<Db>, i: nat, key: string, list: seq<string>, items: seq<string>, now: int, t: int)
    returns (shown: seq<string>)
    requires HoldsList(dbs, i, key, list) && items != []
    ensures Reply(After(dbs, i, LPushRequest(key, items), now), i, LRangeRequest(key, 0, -1), t) == Lines(shown)
    ensures |shown| == |items| + |list| && shown[|items|..] == list
    ensures forall k :: 0 <= k < |items| ==> shown[k] == items[|items| - 1 - k]
  {
    hide Reply, LPushRequest, LRangeRequest, Lines, Show, Reversed;
    LPushAdds(dbs, i, key, list, items, now);
    shown := Reversed(items) + list;
    forall k | 0 <= k < |items| ensures Reversed(items)[k] == items[|items| - 1 - k] { ReversedAt(items, k); }
    WholeList(After(dbs, i, LPushRequest(key, items), now), i, key, t);
  }

  // ----- pops ------------------------------------------------------------------------------------

  /** LPOP replies the first element and leaves the rest; the last one takes the key with it. */
  lemma LPopTakes(dbs: seq<Db>, i: nat, key: string, list: seq<string>, now: int)
    requires HoldsList(dbs, i, key, list) && list != []
    ensures Reply(dbs, i, LPopRequest(key), now) == list[0] + "\n"
    ensures var after := After(dbs, i, LPopRequest(key), now);
            HoldsList(after, i, key, list[1..]) && OnlyKey(dbs, after, i, key)
  {
    hide Reply, After, Means, LPopRequest, OnlyKey, HoldsList;
    LPopMeans(key);
    ListRuns(dbs, i, LPopRequest(key), key, KeyOp.LPop, list, list[1..], now);
  }

  /** RPOP does the same at the other end. */
  lemma RPopTakes(dbs: seq<Db>, i: nat, key: string, list: seq<string>, now: int)
    requires HoldsList(dbs, i, key, list) && list != []
    ensures Reply(dbs, i, RPopRequest(key), now) == list[|list| - 1] + "\n"
    ensures var after := After(dbs, i, RPopRequest(key), now);
            HoldsList(after, i, key, list[..|list| - 1]) && OnlyKey(dbs, after, i, key)
  {
    hide Reply, After, Means, RPopRequest, OnlyKey, HoldsList;
    RPopMeans(key);
    ListRuns(dbs, i, RPopRequest(key), key, KeyOp.RPop, list, list[..|list| - 1], now);
  }

  // ----- queues and stacks -----------------------------------------------------------------------

  /** The replies to `n` LPOPs in a row, at any times. */
  function Popping(dbs: seq<Db>, i: nat, key: string, n: nat, clock: nat -> int): seq<string>
    requires i < |dbs|
    decreases n
  {
    if n == 0 then []
    else
      [Reply(dbs, i, LPopRequest(key), clock(n))] + Popping(After(dbs, i, LPopRequest(key), clock(n)), i, key, n - 1,
                                                            clock)
  }

  lemma {:induction false} PopsInOrder(dbs: seq<Db>, i: nat, key: string, list: seq<string>, clock: nat -> int)
    requires HoldsList(dbs, i, key, list)
    ensures var replies := Popping(dbs, i, key, |list|, clock);
            |replies| == |list| && forall k :: 0 <= k < |list| ==> replies[k] == list[k] + "\n"
    decreases |list|
  {
    hide Reply, After, LPopRequest, HoldsList;
    assert i < |dbs| by { ListIsSomewhere(dbs, i, key, list); }
    if list != [] {
      LPopTakes(dbs, i, key, list, clock(|list|));
      PopsInOrder(After(dbs, i, LPopRequest(key), clock(|list|)), i, key, list[1..], clock);
    }
  }

  lemma ListIsSomewhere(dbs: seq<Db>, i: nat, key: string, list: seq<string>)
    requires HoldsList(dbs, i, key, list)
    ensures i < |dbs|
  {
  }

  /** RPUSH and LPOP make a queue: what was pushed comes out in the same order. */
  lemma QueueLaw(dbs: seq<Db>, i: nat, key: string, items: seq<string>, now: int, clock: nat -> int)
    requires i < |dbs| && key !in dbs[i] && items != []
    ensures var replies := Popping(After(dbs, i, RPushRequest(key, items), now), i, key, |items|, clock);
            |replies| == |items| && forall k :: 0 <= k < |items| ==> replies[k] == items[k] + "\n"
  {
    hide Popping;
    RPushAdds(dbs, i, key, [], items, now);
    ItemsAlone(items);
    PopsInOrder(After(dbs, i, RPushRequest(key, items), now), i, key, items, clock);
  }

  /** LPUSH and LPOP make a stack: what was pushed last comes out first. */
  lemma StackLaw(dbs: seq<Db>, i: nat, key: string, items: seq<string>, now: int, clock: nat -> int)
    requires i < |dbs| && key !in dbs[i] && items != []
    ensures var replies := Popping(After(dbs, i, LPushRequest(key, items), now), i, key, |items|, clock);
            |replies| == |items| && forall k :: 0 <= k < |items| ==> replies[k] == items[|items| - 1 - k] + "\n"
  {
    hide Popping, Reversed;
    LPushAdds(dbs, i, key, [], items, now);
    ItemsAlone(items);
    forall k | 0 <= k < |items| ensures Reversed(items)[k] == items[|items| - 1 - k] { ReversedAt(items, k); }
    PopsInOrder(After(dbs, i, LPushRequest(key, items), now), i, key, Reversed(items), clock);
  }

  // ----- other types -----------------------------------------------------------------------------

  /** List commands refuse a key of another type, and change nothing. */
  lemma ListRefuses(dbs: seq<Db>, i: nat, key: string, items: seq<string>, now: int)
    requires i < |dbs| && items != [] && !Absent(dbs, i, key, now) && dbs[i][key].kind != ListType
    ensures Reply(dbs, i, LPushRequest(key, items), now) == "ERR wrong type for LPUSH\n"
    ensures Reply(dbs, i, RPushRequest(key, items), now) == "ERR wrong type for RPUSH\n"
    ensures Reply(dbs, i, LPopRequest(key), now) == "ERR wrong type for LPOP\n"
    ensures Reply(dbs, i, RPopRequest(key), now) == "ERR wrong type for RPOP\n"
    ensures Reply(dbs, i, LRangeRequest(key, 0, -1), now) == "ERR wrong type for LRANGE\n"
  {
    hide Reply, Means, LPushRequest, RPushRequest, LPopRequest, RPopRequest, LRangeRequest, Reversed;
    LPushMeans(key, items);
    RPushMeans(key, items);
    LPopMeans(key);
    RPopMeans(key);
    LRangeMeans(key, 0, -1);
    Answers(dbs, i, LPushRequest(key, items), key, LPush(items), now);
    Answers(dbs, i, RPushRequest(key, items), key, RPush(items), now);
    Answers(dbs, i, LPopRequest(key), key, KeyOp.LPop, now);
    Answers(dbs, i, RPopRequest(key), key, KeyOp.RPop, now);
    Answers(dbs, i, LRangeRequest(key, 0, -1), key, LRange(0, -1), now);
    RefusalTexts();
    hide WrongType;
  }

  lemma RefusalTexts()
    ensures WrongType("LPUSH") == "ERR wrong type for LPUSH\n" && WrongType("RPUSH") == "ERR wrong type for RPUSH\n"
    ensures WrongType("LPOP") == "ERR wrong type for LPOP\n" && WrongType("RPOP") == "ERR wrong type for RPOP\n"
    ensures WrongType("LRANGE") == "ERR wrong type for LRANGE\n"
  {
  }
}
