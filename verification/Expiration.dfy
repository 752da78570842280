/** Lazy against eager expiration: entries that have expired but are still stored make no
    difference, so the expiry worker may run at any time, any number of times. */
module Expiration {
  import opened Text
  import opened Values
  import opened Operations
  import opened Commands
  import opened Execution

  // ----- databases that are equal once purged -----------------------------------------------------

  predicate SamePurged(a: Db, b: Db, t: int) {
    Purge(a, t) == Purge(b, t)
  }

  lemma PurgedLookup(a: Db, b: Db, t: int, key: string)
    requires SamePurged(a, b, t)
    ensures Lookup(a, key, t) == Lookup(b, key, t)
  {
    assert key in Purge(a, t) <==> key in Purge(b, t);
    if key in Purge(a, t) { assert Purge(a, t)[key] == Purge(b, t)[key]; }
  }

  lemma PurgeOfStore(db: Db, key: string, entry: Option<ValueObject>, t: int)
    ensures Purge(Store(db, key, entry), t) ==
            Store(Purge(db, t), key, if entry.Some? && IsExpired(entry.value, t) then None else entry)
  {
  }

  lemma StorePurged(a: Db, b: Db, t: int, key: string, entry: Option<ValueObject>)
    requires SamePurged(a, b, t)
    ensures SamePurged(Store(a, key, entry), Store(b, key, entry), t)
  {
    PurgeOfStore(a, key, entry, t);
    PurgeOfStore(b, key, entry, t);
  }

  lemma PurgedLater(a: Db, b: Db, now: int, t: int)
    requires SamePurged(a, b, now) && now <= t
    ensures SamePurged(a, b, t)
  {
    assert Purge(a, t) == Purge(Purge(a, now), t);
    assert Purge(b, t) == Purge(Purge(b, now), t);
  }

  lemma PurgedItself(db: Db, now: int, t: int)
    requires now <= t
    ensures SamePurged(Purge(db, now), db, t)
  {
  }

  // ----- requests ----------------------------------------------------------------------------------

  lemma SinglePurged(a: Db, b: Db, key: string, op: KeyOp, t: int)
    requires SamePurged(a, b, t)
    ensures SamePurged(RunSingle(a, key, op, t).db, RunSingle(b, key, op, t).db, t)
    ensures RunSingle(a, key, op, t).reply == RunSingle(b, key, op, t).reply
  {
    hide Apply, SamePurged, Store, Lookup;
    PurgedLookup(a, b, t, key);
    StorePurged(a, b, t, key, Apply(op, key, Lookup(a, key, t), t).entry);
  }

  lemma {:induction false} MGetPurged(a: Db, b: Db, keys: seq<string>, t: int)
    requires SamePurged(a, b, t)
    ensures SamePurged(RunMGet(a, keys, t).db, RunMGet(b, keys, t).db, t)
    ensures RunMGet(a, keys, t).reply == RunMGet(b, keys, t).reply
  {
    hide RunSingle, SamePurged;
    if keys != [] {
      var front := keys[..|keys| - 1];
      MGetPurged(a, b, front, t);
      SinglePurged(RunMGet(a, front, t).db, RunMGet(b, front, t).db, keys[|keys| - 1], Get, t);
    }
  }

  lemma {:induction false} StoreAllPurged(a: Db, b: Db, entries: seq<(string, string)>, t: int)
    requires SamePurged(a, b, t)
    ensures SamePurged(StoreAll(a, entries, t), StoreAll(b, entries, t), t)
  {
    hide SamePurged;
    if entries != [] {
      var front := entries[..|entries| - 1];
      var last := entries[|entries| - 1];
      StoreAllPurged(a, b, front, t);
      StorePurged(StoreAll(a, front, t), StoreAll(b, front, t), t, last.0, Some(StringObject(last.1, t, -1, t)));
    }
  }

  lemma RenamePurged(a: Db, b: Db, source: string, destination: string, t: int)
    requires SamePurged(a, b, t)
    ensures SamePurged(RunRename(a, source, destination, t).db, RunRename(b, source, destination, t).db, t)
    ensures RunRename(a, source, destination, t).reply == RunRename(b, source, destination, t).reply
  {
    hide SamePurged, Lookup;
    PurgedLookup(a, b, t, source);
    StorePurged(a, b, t, source, None);
    var cur := Lookup(a, source, t);
    if cur.Some? {
      var moved := Some(Touch(cur.value, t));
      StorePurged(a, b, t, destination, moved);
      StorePurged(Store(a, destination, moved), Store(b, destination, moved), t, source, None);
    }
  }

  lemma RunPurged(request: Request, a: Db, b: Db, t: int)
    requires SamePurged(a, b, t)
    ensures SamePurged(Run(request, a, t).db, Run(request, b, t).db, t)
    ensures !request.Del? ==> Run(request, a, t).reply == Run(request, b, t).reply
  {
    hide RunSingle, RunMGet, StoreAll, RunRename, Lines, Number, InfoText;
    match request {
      case Single(key, op) => SinglePurged(a, b, key, op, t);
      case Del(key) => StorePurged(a, b, t, key, None);
      case MGet(keys) => MGetPurged(a, b, keys, t);
      case MSet(entries) => StoreAllPurged(a, b, entries, t);
      case Rename(source, destination) => RenamePurged(a, b, source, destination, t);
      case _ =>
    }
  }

  // ----- commands over all databases -------------------------------------------------------------------

  predicate AllSamePurged(a: seq<Db>, b: seq<Db>, t: int) {
    |a| == |b| && forall k :: 0 <= k < |a| ==> SamePurged(a[k], b[k], t)
  }

  lemma MovePurged(a: seq<Db>, b: seq<Db>, i: nat, tokens: seq<string>, t: int)
    requires AllSamePurged(a, b, t) && i < |a|
    ensures AllSamePurged(ExecuteMove(a, i, tokens, t).dbs, ExecuteMove(b, i, tokens, t).dbs, t)
    ensures ExecuteMove(a, i, tokens, t).reply == ExecuteMove(b, i, tokens, t).reply
  {
    hide SamePurged, Lookup, DatabaseIndex;
    if |tokens| == 3 && DatabaseIndex(tokens[2], |a|).Some? {
      var key, j := tokens[1], DatabaseIndex(tokens[2], |a|).value;
      PurgedLookup(a[i], b[i], t, key);
      PurgedLookup(a[j], b[j], t, key);
      StorePurged(a[i], b[i], t, key, None);
      var cur := Lookup(a[i], key, t);
      if cur.Some? { StorePurged(a[j], b[j], t, key, Some(Touch(cur.value, t))); }
    }
  }

  lemma ExecutePurged(a: seq<Db>, b: seq<Db>, i: nat, tokens: seq<string>, t: int)
    requires AllSamePurged(a, b, t) && i < |a|
    ensures AllSamePurged(Execute(a, i, tokens, t).dbs, Execute(b, i, tokens, t).dbs, t)
    ensures !Decode(tokens).Del? ==> Execute(a, i, tokens, t).reply == Execute(b, i, tokens, t).reply
  {
    hide SamePurged, ExecuteMove, Run, CommandName, Decode;
    if CommandName(tokens) == MOVE {
      MovePurged(a, b, i, tokens, t);
    } else if CommandName(tokens) == FLUSHALL {
      assert SamePurged(map[], map[], t) by { SamePurgedReflexive(map[], t); }
    } else {
      RunPurged(Decode(tokens), a[i], b[i], t);
    }
  }

  lemma SamePurgedReflexive(db: Db, t: int)
    ensures SamePurged(db, db, t)
  {
  }

  // ----- whole runs -----------------------------------------------------------------------------------------

  /** A client command in one database, or a visit of the expiry worker to one database. */
  datatype Step =
    | Command(db: nat, tokens: seq<string>, now: int)
    | ExpiryTick(db: nat, now: int)

  datatype History = History(dbs: seq<Db>, replies: seq<string>)

  predicate StepsFit(steps: seq<Step>, n: nat) {
    forall s :: s in steps ==> s.db < n
  }

  /** The clock does not go back, and has not passed `t` at the end. */
  predicate ClockedUpTo(steps: seq<Step>, t: int) {
    (forall j, k :: 0 <= j < k < |steps| ==> steps[j].now <= steps[k].now) &&
    (forall k :: 0 <= k < |steps| ==> steps[k].now <= t)
  }

  function Play(dbs: seq<Db>, steps: seq<Step>): (h: History)
    requires StepsFit(steps, |dbs|)
    ensures |h.dbs| == |dbs|
  {
    if steps == [] then History(dbs, [])
    else
      var before := Play(dbs, steps[..|steps| - 1]);
      match steps[|steps| - 1]
      case Command(i, tokens, now) =>
        var x := Execute(before.dbs, i, tokens, now);
        History(x.dbs, before.replies + [x.reply])
      case ExpiryTick(i, now) =>
        History(before.dbs[i := Purge(before.dbs[i], now)], before.replies)
  }

  /** The same run without the expiry worker. */
  function CommandsOf(steps: seq<Step>): (r: seq<Step>)
    ensures forall s :: s in r ==> s in steps
  {
    if steps == [] then []
    else
      var front := CommandsOf(steps[..|steps| - 1]);
      if steps[|steps| - 1].Command? then front + [steps[|steps| - 1]] else front
  }

  /** Replies agree one by one, except to a DEL of some key. */
  predicate SameReplies(commands: seq<Step>, x: seq<string>, y: seq<string>) {
    |x| == |y| == |commands| &&
    forall k :: 0 <= k < |x| ==> commands[k].Command? && (!Decode(commands[k].tokens).Del? ==> x[k] == y[k])
  }

  lemma AllPurgedLater(a: seq<Db>, b: seq<Db>, now: int, t: int)
    requires AllSamePurged(a, b, now) && now <= t
    ensures AllSamePurged(a, b, t)
  {
    hide SamePurged;
    forall k | 0 <= k < |a| ensures SamePurged(a[k], b[k], t) { PurgedLater(a[k], b[k], now, t); }
  }

  lemma TickPurged(a: seq<Db>, b: seq<Db>, i: nat, now: int, t: int)
    requires AllSamePurged(a, b, now) && i < |a| && now <= t
    ensures AllSamePurged(a[i := Purge(a[i], now)], b, t)
  {
    AllPurgedLater(a, b, now, t);
    PurgedItself(a[i], now, t);
  }

  /** Inserting visits of the expiry worker anywhere in a run changes no reply, except DEL's
      count, and the databases are the same in every field once what has expired is removed. */
  lemma {:induction false} LazyEqualsEager(dbs: seq<Db>, steps: seq<Step>, t: int)
    requires StepsFit(steps, |dbs|) && ClockedUpTo(steps, t)
    ensures var lazy, both := Play(dbs, CommandsOf(steps)), Play(dbs, steps);
            && AllSamePurged(both.dbs, lazy.dbs, t)
            && SameReplies(CommandsOf(steps), both.replies, lazy.replies)
    decreases |steps|
  {
    hide SamePurged, Execute, Decode;
    if steps == [] {
      forall k | 0 <= k < |dbs| ensures SamePurged(dbs[k], dbs[k], t) { SamePurgedReflexive(dbs[k], t); }
    } else {
      var front, last := steps[..|steps| - 1], steps[|steps| - 1];
      LazyEqualsEager(dbs, front, last.now);
      var lazy, both := Play(dbs, CommandsOf(front)), Play(dbs, front);
      match last {
        case Command(i, tokens, now) =>
          ExecutePurged(both.dbs, lazy.dbs, i, tokens, now);
          AllPurgedLater(Execute(both.dbs, i, tokens, now).dbs, Execute(lazy.dbs, i, tokens, now).dbs, now, t);
          assert (CommandsOf(front) + [last])[..|CommandsOf(front)|] == CommandsOf(front);
        case ExpiryTick(i, now) =>
          TickPurged(both.dbs, lazy.dbs, i, now, t);
      }
    }
  }
}
