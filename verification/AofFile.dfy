/** The append-only file (`AofPersistence`): appending under the lock, checkpoints and replay,
    as they change the file and the stores, proved against the persistence protocol. */
module AofFile {
  import opened Text
  import opened CommandParser
  import opened RespCodec
  import opened Values
  import opened Operations
  import opened Commands
  import opened Execution
  import opened Eviction
  import opened StoreLimits
  import opened Snapshot
  import opened Replay
  import opened Recovery
  import opened Datastore
  import opened Registry
  import opened SnapshotFile

  /** The protocol state that the objects hold, lock free. */
  ghost function StateOf(stores: seq<DataStore>, snapshot: SnapshotPersistence, aof: AofPersistence): System
    reads stores, snapshot, aof
  {
    System(Contents(stores), snapshot.file, aof.file, aof.currentAppendDatabase, Idle)
  }

  /** The file and the current database after a command with this reply: a success of a logged
      command is written, anything else leaves them alone. */
  function FileAfter(w: (string, nat), db: nat, tokens: seq<string>, reply: string): (string, nat) {
    if IsAofLogged(tokens) && !IsError(reply) then (w.0 + EncodeLog(Records(w.1, db, tokens)), db) else w
  }

  class AofPersistence {
    var file: string
    var currentAppendDatabase: nat

    constructor ()
      ensures file == "" && currentAppendDatabase == 0
    {
      file, currentAppendDatabase := "", 0;
    }

    /** `writeCommand`: a SELECT marker when the database changes, then the command. */
    method WriteCommand(tokens: seq<string>, databaseIndex: nat)
      modifies this
      ensures file == old(file) + EncodeLog(Records(old(currentAppendDatabase), databaseIndex, tokens))
      ensures currentAppendDatabase == databaseIndex
    {
      EncodeRecords(currentAppendDatabase, databaseIndex, tokens);
      hide EncodeCommand, EncodeLog;
      if databaseIndex != currentAppendDatabase {
        var marker := EncodeRespCommand(["SELECT", Show(databaseIndex)]);
        file := file + marker;
        currentAppendDatabase := databaseIndex;
      }
      var encoded := EncodeRespCommand(tokens);
      file := file + encoded;
    }

    /** `append`: commands the table does not log leave the file alone. */
    method Append(tokens: seq<string>, databaseIndex: nat)
      modifies this
      ensures !IsAofLogged(tokens) ==> file == old(file) && currentAppendDatabase == old(currentAppendDatabase)
      ensures IsAofLogged(tokens) ==>
                && file == old(file) + EncodeLog(Records(old(currentAppendDatabase), databaseIndex, tokens))
                && currentAppendDatabase == databaseIndex
    {
      hide EncodeLog, Records, IsAofLogged;
      if !IsAofLogged(tokens) {
        return;
      }
      WriteCommand(tokens, databaseIndex);
    }

    /** `executeAndAppend`: what is written does not depend on eviction, and with eviction off
        this is exactly a command step of the protocol. */
    method ExecuteThenAppend(tokens: seq<string>, databaseIndex: nat, stores: seq<DataStore>, now: int,
                             ghost snapshot: SnapshotPersistence, ghost config: Config) returns (reply: string)
      requires databaseIndex < |stores| && Ready(stores, config)
      modifies this, stores
      ensures Ready(stores, config)
      ensures reply == Execute(old(Contents(stores)), databaseIndex, tokens, now).reply
      ensures SettledBy(config, Execute(old(Contents(stores)), databaseIndex, tokens, now), Contents(stores))
      ensures (file, currentAppendDatabase) ==
              FileAfter(old((file, currentAppendDatabase)), databaseIndex, tokens, reply)
      ensures Unlimited(config) ==>
                StateOf(stores, snapshot, this) ==
                Next(old(StateOf(stores, snapshot, this)), Event.Command(databaseIndex, tokens, now))
    {
      ghost var before := StateOf(stores, snapshot, this);
      hide Execute, EncodeLog, Records, IsAofLogged, IsError, SettledBy, Unlimited;
      reply := ExecuteCommand(stores, databaseIndex, tokens, now, config);
      if Unlimited(config) {
        SettledUnlimited(config, Execute(before.dbs, databaseIndex, tokens, now), Contents(stores));
      }
      if !IsAofLogged(tokens) || IsError(reply) {
        return;
      }
      label executed:
      WriteCommand(tokens, databaseIndex);
      assert Contents(stores) == old@executed(Contents(stores));
    }

    /** `checkpoint`: save the snapshot, truncate the file, start over in database 0. */
    method Checkpoint(stores: seq<DataStore>, snapshot: SnapshotPersistence, now: int, ghost config: Config)
      requires Ready(stores, config)
      modifies this, snapshot, stores
      ensures Ready(stores, config)
      ensures StateOf(stores, snapshot, this) ==
              Next(Next(old(StateOf(stores, snapshot, this)), CheckpointSave(now)), CheckpointTruncate)
    {
      hide SaveText, PurgeAll;
      snapshot.Save(stores, now, config);
      label saved:
      file := "";
      currentAppendDatabase := 0;
      assert Contents(stores) == old@saved(Contents(stores));
    }

    /** `replay`: every complete command of the file, in the database the markers select, each
        followed by the eviction it ends with. */
    method ReplayInto(stores: seq<DataStore>, clock: nat -> int, ghost config: Config)
      returns (ghost states: seq<Cursor>)
      requires stores != [] && Ready(stores, config)
      modifies stores
      ensures Ready(stores, config)
      ensures Replays(config, CommandsIn(file), clock, states)
      ensures states[0] == Cursor(old(Contents(stores)), 0) && states[|states| - 1].dbs == Contents(stores)
      ensures Unlimited(config) ==> Contents(stores) == ReplayFile(file, old(Contents(stores)), clock)
    {
      hide ReplaySettles, ReplayLog, ParseAvailable, Unlimited, ReplayOne;
      var commands, leftover := ParseBuffer(file);
      ghost var log := TokensOf(commands);
      var databaseIndex: nat := 0;
      states := [Cursor(Contents(stores), 0)];
      for j := 0 to |commands|
        invariant Ready(stores, config) && databaseIndex < |stores|
        invariant Replays(config, log[..j], clock, states)
        invariant states[0] == Cursor(old(Contents(stores)), 0)
        invariant states[|states| - 1] == Cursor(Contents(stores), databaseIndex)
      {
        databaseIndex := ReplayCommand(stores, databaseIndex, commands[j].tokens, clock(j), config);
        states := states + [Cursor(Contents(stores), databaseIndex)];
        OneMoreReplays(config, log, clock, states, j);
      }
      assert log[..|commands|] == log;
      if Unlimited(config) { UnlimitedReplays(config, log, clock, states); }
    }
  }

  /** The command of a replay step, with the database (if any) that evicts next. */
  function ReplayOutcome(c: Cursor, tokens: seq<string>, now: int): (r: Executed)
    requires Sound(c)
    ensures |r.dbs| == |c.dbs|
  {
    if tokens == [] || CommandName(tokens) == SELECT then Executed(c.dbs, "", None)
    else if CommandName(tokens) == FLUSHALL then ExecuteFlushAll(c.dbs, tokens)
    else if CommandName(tokens) != MOVE then ExecuteInOne(c.dbs, c.db, Decode(tokens), now)
    else if |tokens| != 3 || IndexBelow(tokens[2], |c.dbs|).None? then Executed(c.dbs, "", None)
    else MoveBetween(c.dbs, c.db, tokens[1], IndexBelow(tokens[2], |c.dbs|).value, now)
  }

  lemma OutcomeIsReplay(c: Cursor, tokens: seq<string>, now: int)
    requires Sound(c)
    ensures ReplayOutcome(c, tokens, now).dbs == ReplayOne(c, tokens, now).dbs
  {
    hide CommandName, Decode, ExecuteInOne, MoveBetween, IndexBelow;
  }

  /** One step of the replay loop, with eviction. */
  ghost predicate ReplaySettles(config: Config, c: Cursor, tokens: seq<string>, now: int, next: Cursor) {
    && Sound(c) && next.db == ReplayOne(c, tokens, now).db
    && SettledBy(config, ReplayOutcome(c, tokens, now), next.dbs)
  }

  /** `states` are the successive states of the replay loop over `log`. */
  ghost predicate Replays(config: Config, log: seq<seq<string>>, clock: nat -> int, states: seq<Cursor>) {
    && |states| == |log| + 1
    && forall j :: 0 <= j < |log| ==> ReplaySettles(config, states[j], log[j], clock(j), states[j + 1])
  }

  lemma OneMoreReplays(config: Config, log: seq<seq<string>>, clock: nat -> int, states: seq<Cursor>, j: nat)
    requires j < |log| && |states| == j + 2 && Replays(config, log[..j], clock, states[..j + 1])
    requires ReplaySettles(config, states[j], log[j], clock(j), states[j + 1])
    ensures Replays(config, log[..j + 1], clock, states)
  {
    hide ReplaySettles;
  }

  /** Without eviction the loop is the replay of the protocol. */
  lemma {:induction false} UnlimitedReplays(config: Config, log: seq<seq<string>>, clock: nat -> int,
                                            states: seq<Cursor>)
    requires Unlimited(config) && Replays(config, log, clock, states) && Sound(states[0])
    ensures states[|log|] == ReplayLog(states[0], log, clock)
    decreases |log|
  {
    hide ReplayOne, ReplayOutcome, SettledBy, Unlimited;
    if log != [] {
      var front, last := log[..|log| - 1], |log| - 1;
      UnlimitedReplays(config, front, clock, states[..|log|]);
      OutcomeIsReplay(states[last], log[last], clock(last));
      SettledUnlimited(config, ReplayOutcome(states[last], log[last], clock(last)), states[last + 1].dbs);
    }
  }

  // ----- limits ------------------------------------------------------------------------------------------

  lemma NothingToSettle(config: Config, x: Executed, after: seq<Db>)
    requires SettledBy(config, x, after) && x.evictIn.None?
    ensures after == x.dbs
  {
    hide Evicted;
  }

  lemma ReplayStepStaysGood(config: Config, c: Cursor, tokens: seq<string>, now: int, next: Cursor)
    requires EvictsFromAll(config) && AllGood(config, c.dbs) && 0 <= now < MAX_LL
    requires ReplaySettles(config, c, tokens, now, next)
    ensures AllGood(config, next.dbs)
  {
    hide EvictsFromAll, Good, SettledBy, CommandName, Decode, MoveBetween, ExecuteInOne, IndexBelow, ReplayOne;
    EmptyIsGood(config);
    if ReplayOutcome(c, tokens, now).evictIn.None? { NothingToSettle(config, ReplayOutcome(c, tokens, now), next.dbs); }
    if tokens != [] && CommandName(tokens) != SELECT && CommandName(tokens) != FLUSHALL {
      if CommandName(tokens) != MOVE {
        InOneStaysGood(config, c.dbs, c.db, Decode(tokens), now, next.dbs);
      } else if |tokens| == 3 && IndexBelow(tokens[2], |c.dbs|).Some? {
        MovedStaysGood(config, c.dbs, c.db, tokens[1], IndexBelow(tokens[2], |c.dbs|).value, now, next.dbs);
      }
    }
  }

  lemma {:induction false} ReplayStaysGood(config: Config, log: seq<seq<string>>, clock: nat -> int,
                                           states: seq<Cursor>, j: nat)
    requires EvictsFromAll(config) && Replays(config, log, clock, states) && AllGood(config, states[0].dbs)
    requires j < |states| && forall i: nat :: 0 <= clock(i) < MAX_LL
    ensures AllGood(config, states[j].dbs)
    decreases j
  {
    hide EvictsFromAll, AllGood, ReplaySettles;
    if j > 0 {
      ReplayStaysGood(config, log, clock, states, j - 1);
      ReplayStepStaysGood(config, states[j - 1], log[j - 1], clock(j - 1), states[j]);
    }
  }

  lemma EncodeRecords(current: nat, db: nat, tokens: seq<string>)
    ensures EncodeLog(Records(current, db, tokens)) ==
            (if db != current then EncodeCommand(["SELECT", Show(db)]) else "") + EncodeCommand(tokens)
    ensures forall file: string :: file + EncodeCommand(["SELECT", Show(db)]) + EncodeCommand(tokens) ==
                                   file + (EncodeCommand(["SELECT", Show(db)]) + EncodeCommand(tokens))
  {
    hide EncodeCommand, Show;
    var one, two := [tokens], [Marker(db), tokens];
    assert one[..0] == [] && two[..1] == [Marker(db)] && [Marker(db)][..0] == [];
    assert EncodeLog([]) == "";
    assert "" + EncodeCommand(tokens) == EncodeCommand(tokens);
    assert "" + EncodeCommand(Marker(db)) == EncodeCommand(Marker(db));
    assert EncodeLog([Marker(db)]) == EncodeCommand(Marker(db));
  }

  /** The body of the replay loop. */
  method ReplayCommand(stores: seq<DataStore>, databaseIndex: nat, tokens: seq<string>, now: int, ghost config: Config)
    returns (next: nat)
    requires databaseIndex < |stores| && Ready(stores, config)
    modifies stores
    ensures Ready(stores, config) && next < |stores|
    ensures ReplaySettles(config, Cursor(old(Contents(stores)), databaseIndex), tokens, now,
                          Cursor(Contents(stores), next))
  {
    hide CommandName, Decode, ExecuteInOne, MoveBetween, IndexBelow, Evicted;
    next := databaseIndex;
    if tokens == [] {
      return;
    }
    if CommandName(tokens) == FLUSHALL {
      if |tokens| == 1 {
        FlushAll(stores, config);
      }
    } else if CommandName(tokens) == MOVE {
      ReplayMoveInto(stores, databaseIndex, tokens, now, config);
    } else if CommandName(tokens) == SELECT {
      if |tokens| == 2 && IndexBelow(tokens[1], |stores|).Some? {
        next := IndexBelow(tokens[1], |stores|).value;
      }
    } else {
      var reply := RunInOne(stores, databaseIndex, Decode(tokens), now, config);
    }
  }

  method ReplayMoveInto(stores: seq<DataStore>, databaseIndex: nat, tokens: seq<string>, now: int, ghost config: Config)
    requires databaseIndex < |stores| && Ready(stores, config)
    modifies stores
    ensures Ready(stores, config)
    ensures var dbs := old(Contents(stores));
            if |tokens| != 3 || IndexBelow(tokens[2], |stores|).None? then Contents(stores) == dbs
            else
              SettledBy(config, MoveBetween(dbs, databaseIndex, tokens[1], IndexBelow(tokens[2], |stores|).value, now),
                        Contents(stores))
  {
    hide Evicted, MoveKey, IndexBelow;
    if |tokens| != 3 {
      return;
    }
    var parsed := IndexBelow(tokens[2], |stores|);
    if parsed.None? {
      return;
    }
    var moved := stores[databaseIndex].MoveKeyTo(tokens[1], stores[parsed.value], now);
  }

  /** Start-up as `main` does it: load the snapshot into empty stores, each evicting, then replay
      the log, each command evicting (`states` are the states of that loop). With eviction off
      that is recovery; under allkeys-lru and random the server starts within its
      limits, whatever the files hold. */
  method StartUp(stores: seq<DataStore>, snapshot: SnapshotPersistence, aof: AofPersistence, loadAt: int,
                 clock: nat -> int, ghost config: Config) returns (ok: bool, ghost states: seq<Cursor>)
    requires stores != [] && Ready(stores, config) && Contents(stores) == Emptied(|stores|)
    modifies stores
    ensures Ready(stores, config)
    ensures ok == Load(snapshot.file, Emptied(|stores|), loadAt).ok
    ensures states != [] && AllKept(config, Load(snapshot.file, Emptied(|stores|), loadAt).dbs, states[0].dbs)
    ensures ok ==> Replays(config, CommandsIn(aof.file), clock, states)
    ensures states[|states| - 1].dbs == Contents(stores)
    ensures Unlimited(config) ==>
              Loaded(ok, Contents(stores)) == Recover(snapshot.file, aof.file, |stores|, loadAt, clock)
    ensures ok && EvictsFromAll(config) && 0 <= loadAt < MAX_LL && (forall i: nat :: 0 <= clock(i) < MAX_LL) ==>
              AllGood(config, Contents(stores))
  {
    hide Load, ReplayFile, Unlimited, EvictsFromAll, AllGood, AllEvicted, AllKept, ReplaySettles;
    ok := snapshot.LoadFile(stores, loadAt, config);
    ghost var ideal, loaded := Load(snapshot.file, Emptied(|stores|), loadAt).dbs, Contents(stores);
    if Unlimited(config) { KeptUnlimited(config, ideal, loaded); }
    states := [Cursor(loaded, 0)];
    if ok {
      states := aof.ReplayInto(stores, clock, config);
      if EvictsFromAll(config) && 0 <= loadAt < MAX_LL && (forall i: nat :: 0 <= clock(i) < MAX_LL) {
        LoadedIsGood(config, snapshot.file, |stores|, loadAt, loaded);
        ReplayStaysGood(config, CommandsIn(aof.file), clock, states, |states| - 1);
      }
    }
  }

  lemma KeptUnlimited(config: Config, ideal: seq<Db>, after: seq<Db>)
    requires Unlimited(config) && AllKept(config, ideal, after)
    ensures after == ideal
  {
    hide Evicted;
    forall k | 0 <= k < |after| ensures after[k] == ideal[k] {
      if after[k] != ideal[k] { SwitchedOff(config, ideal[k], after[k]); }
    }
  }

  lemma NoEmptier(config: Config, after: Db)
    requires after == map[] || Evicted(config, map[], after)
    ensures after == map[]
  {
  }

  lemma LoadedIsGood(config: Config, file: Option<string>, n: nat, now: int, after: seq<Db>)
    requires n > 0 && EvictsFromAll(config) && 0 <= now < MAX_LL
    requires AllKept(config, Load(file, Emptied(n), now).dbs, after)
    requires file.Some? ==> AllEvicted(config, Load(file, Emptied(n), now).dbs, after)
    ensures AllGood(config, after)
  {
    EmptyStampsFit();
    EmptyIsGood(config);
    hide AllEvicted, EvictsFromAll, Good, StampsFit, Evicted;
    if file.Some? {
      hide Load, AllKept;
      LoadStampsFit(file, Emptied(n), now);
      AllEvictedIsGood(config, Load(file, Emptied(n), now).dbs, after);
    } else {
      forall k | 0 <= k < n ensures after[k] == map[] { NoEmptier(config, after[k]); }
    }
  }
}
