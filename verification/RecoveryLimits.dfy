/** Exactly where exact recovery ends: the two kinds of logged commands after which the disk no
    longer recovers the live contents, and the one kind of restart that misplaces commands. */
module RecoveryLimits {
  import opened Text
  import opened RespCodec
  import opened Values
  import opened Operations
  import opened Agreement
  import opened Commands
  import opened Execution
  import opened Snapshot
  import opened Replay
  import opened Recovery

  // ----- a command that attaches an expiry time ----------------------------------------------------------

  function TtlMillis(op: KeyOp): int {
    if op.Set? then op.ttlSeconds * 1000 else if op.Expire? then op.seconds * 1000 else 0
  }

  /** SET with EX, or EXPIRE on a key that is there, with a time to live that is not zero. */
  predicate AttachesLastingTtl(dbs: seq<Db>, i: nat, tokens: seq<string>, now: int)
    requires i < |dbs|
  {
    AttachesTtl(dbs, i, tokens, now) && TtlMillis(Decode(tokens).op) > 0
  }

  /** The entry such a command leaves expires a fixed time after the command ran. */
  lemma ExpiryCountsFromExecution(db: Db, key: string, op: KeyOp, now: int, t: int)
    requires OpSetsTtl(op, Lookup(db, key, now)) && 0 <= now && t < now + TtlMillis(op)
    ensures var live := Live(RunSingle(db, key, op, now).db, t);
            key in live && live[key].expiresAt == now + TtlMillis(op)
  {
  }

  lemma TtlReplyIsNoError(db: Db, key: string, op: KeyOp, now: int)
    requires OpSetsTtl(op, Lookup(db, key, now))
    ensures !IsError(RunSingle(db, key, op, now).reply)
  {
    assert "OK\n"[0] != "ERR "[0] && "1\n"[0] != "ERR "[0];
  }

  lemma TtlCommandSucceeds(dbs: seq<Db>, i: nat, tokens: seq<string>, now: int)
    requires i < |dbs| && AttachesTtl(dbs, i, tokens, now)
    ensures Decode(tokens).Single?
    ensures !IsError(Execute(dbs, i, tokens, now).reply)
    ensures Execute(dbs, i, tokens, now).dbs ==
            dbs[i := RunSingle(dbs[i], Decode(tokens).key, Decode(tokens).op, now).db]
  {
    hide CommandName, Decode, RunSingle, IsError;
    TtlReplyIsNoError(dbs[i], Decode(tokens).key, Decode(tokens).op, now);
  }

  lemma RunTtlDependsOnClock(a: Db, b: Db, key: string, op: KeyOp, s: int)
    requires OpSetsTtl(op, Lookup(a, key, s)) && OpSetsTtl(op, Lookup(b, key, s + 1)) && TtlMillis(op) > 0 && 0 <= s
    ensures Live(RunSingle(b, key, op, s + 1).db, s + 1) != Live(RunSingle(a, key, op, s).db, s + 1)
  {
    hide RunSingle, Live, OpSetsTtl;
    assert TtlMillis(op) > 1;
    ExpiryCountsFromExecution(a, key, op, s, s + 1);
    ExpiryCountsFromExecution(b, key, op, s + 1, s + 1);
  }

  /** Executed a millisecond later on databases with the same contents, such a command leaves
      contents that differ, both commands done. */
  lemma TtlDependsOnClock(a: seq<Db>, b: seq<Db>, i: nat, tokens: seq<string>, s: int)
    requires SameContents(a, b) && i < |a| && 0 <= s && AttachesLastingTtl(a, i, tokens, s)
    ensures |b| == |a|
    ensures !SameLive(Execute(b, i, tokens, s + 1).dbs, Execute(a, i, tokens, s).dbs, s + 1)
  {
    ContentsHaveNoTtl(a, b);
    TtlSetInBoth(a, b, i, tokens, s, s + 1);
    hide AttachesTtl, Decode, Live, RunSingle, Lookup, SameContents, Execute, TtlMillis, OpSetsTtl;
    TtlCommandSucceeds(a, i, tokens, s);
    TtlCommandSucceeds(b, i, tokens, s + 1);
    RunTtlDependsOnClock(a[i], b[i], Decode(tokens).key, Decode(tokens).op, s);
    assert Execute(b, i, tokens, s + 1).dbs[i] == RunSingle(b[i], Decode(tokens).key, Decode(tokens).op, s + 1).db;
  }

  lemma TtlSetInBoth(a: seq<Db>, b: seq<Db>, i: nat, tokens: seq<string>, s: int, u: int)
    requires SameContents(a, b) && i < |a| && AttachesTtl(a, i, tokens, s)
    ensures |b| == |a| && AttachesTtl(b, i, tokens, u) && Decode(tokens).Single?
    ensures OpSetsTtl(Decode(tokens).op, Lookup(a[i], Decode(tokens).key, s))
    ensures OpSetsTtl(Decode(tokens).op, Lookup(b[i], Decode(tokens).key, u))
  {
    ContentsHaveNoTtl(a, b);
    ContentsAgree(a, b, s, u);
    hide CommandName, Decode, Lookup, SameContents, Agree, OpSetsTtl;
    SetsTtlAgrees(Decode(tokens), a[i], b[i], s, u);
  }

  /** With no time to live the entry is gone as soon as the command is done. */
  lemma GoneAtOnce(db: Db, key: string, op: KeyOp, now: int, t: int)
    requires OpSetsTtl(op, Lookup(db, key, now)) && TtlMillis(op) <= 0 && 0 <= now <= t
    ensures Live(RunSingle(db, key, op, now).db, t) == Live(db, t) - {key}
  {
    hide Live;
    LiveOfStore(db, key, Apply(op, key, Lookup(db, key, now), now).entry, t);
  }

  lemma ZeroTtlForgetsClock(a: seq<Db>, b: seq<Db>, i: nat, tokens: seq<string>, s: int, u: int, t: int)
    requires SameContents(a, b) && i < |a| && 0 <= s <= t && 0 <= u <= t
    requires AttachesTtl(a, i, tokens, s) && !AttachesLastingTtl(a, i, tokens, s)
    ensures |b| == |a| && SameLive(Execute(b, i, tokens, u).dbs, Execute(a, i, tokens, s).dbs, t)
  {
    ContentsHaveNoTtl(a, b);
    ContentsSameLive(a, b, t);
    TtlSetInBoth(a, b, i, tokens, s, u);
    hide AttachesTtl, Decode, Live, RunSingle, Lookup, SameContents, Execute, TtlMillis, OpSetsTtl;
    TtlCommandSucceeds(a, i, tokens, s);
    TtlCommandSucceeds(b, i, tokens, u);
    GoneAtOnce(a[i], Decode(tokens).key, Decode(tokens).op, s, t);
    GoneAtOnce(b[i], Decode(tokens).key, Decode(tokens).op, u, t);
  }

  /** What recovery gives after a logged command was appended, with no condition on it: the
      command executed again, at one of recovery's clock readings. */
  lemma RecoverAfterAppend(s: System, db: nat, tokens: seq<string>, now: int, base: seq<Db>, log: seq<seq<string>>,
                           loadAt: int, clock: nat -> int) returns (before: seq<Db>, at: nat)
    requires Durable(s, base, log) && s.phase == Idle && db < |s.dbs|
    requires IsAofLogged(tokens) && Encodable(tokens) && !IsError(Execute(s.dbs, db, tokens, now).reply)
    ensures SameContents(s.dbs, before) && |before| == |s.dbs|
    ensures var s' := ExecuteAndAppend(s, db, tokens, now);
            var r := Recover(s'.snapshot, s'.aof, |s'.dbs|, loadAt, clock);
            r.ok && r.dbs == Execute(before, db, tokens, clock(at)).dbs
  {
    hide ReplayLog, Timeless, EncodeLog, SameContents, Execute, IsAofLogged, Accepted, AllShaped, Encodable, Records,
      IsError, Load, ReplayFile;
    SuccessIsAccepted(s.dbs, db, tokens, now);
    var loaded := Load(s.snapshot, Emptied(|base|), loadAt);
    var more := Extended(log, s.appendDb, db, tokens);
    RecordsEncodable(s.appendDb, db, tokens);
    EncodeLogAppend(log, Records(s.appendDb, db, tokens));
    ReplayFileIsReplayLog(more, loaded.dbs, clock);
    ReplayLogAgrees(base, loaded.dbs, log, clock);
    before, at := ReplayLog(Cursor(loaded.dbs, 0), log, clock).dbs, |more| - 1;
    ContentsSymmetric(ReplayLog(Cursor(base, 0), log, Zero).dbs, s.dbs);
    ContentsTransitive(s.dbs, ReplayLog(Cursor(base, 0), log, Zero).dbs, before);
    ReplayRecords(Cursor(loaded.dbs, 0), log, db, tokens, clock);
  }

  /** Restarted one millisecond after the command, the server holds an expiry time one
      millisecond later than the one that was live. */
  lemma TtlStepIsInexact(s: System, db: nat, tokens: seq<string>, now: int, base: seq<Db>, log: seq<seq<string>>)
    requires Durable(s, base, log) && s.phase == Idle && db < |s.dbs| && 0 <= now
    requires IsAofLogged(tokens) && Encodable(tokens) && AttachesLastingTtl(s.dbs, db, tokens, now)
    ensures !RecoversAfter(ExecuteAndAppend(s, db, tokens, now), now)
  {
    hide SameContents, Execute, IsAofLogged, Encodable, IsError, Durable, AttachesTtl, SameLive, EncodeLog, Records,
      Recover, Decode, CommandName, RunSingle;
    TtlCommandSucceeds(s.dbs, db, tokens, now);
    hide AttachesLastingTtl;
    var clock := (i: nat) => now + 1;
    var before, at := RecoverAfterAppend(s, db, tokens, now, base, log, now, clock);
    TtlDependsOnClock(s.dbs, before, db, tokens, now);
    OneBadRestart(ExecuteAndAppend(s, db, tokens, now), now, clock, now + 1);
  }

  /** An expiry time of zero seconds is recovered: the key is gone before and after. */
  lemma ZeroTtlStepIsExact(s: System, db: nat, tokens: seq<string>, now: int, base: seq<Db>, log: seq<seq<string>>)
    requires Durable(s, base, log) && s.phase == Idle && db < |s.dbs| && 0 <= now
    requires IsAofLogged(tokens) && Encodable(tokens)
    requires AttachesTtl(s.dbs, db, tokens, now) && !AttachesLastingTtl(s.dbs, db, tokens, now)
    ensures RecoversAfter(ExecuteAndAppend(s, db, tokens, now), now)
  {
    hide SameContents, Execute, IsAofLogged, Encodable, IsError, Durable, AttachesTtl, AttachesLastingTtl, SameLive,
      EncodeLog, Records, Recover, Decode, CommandName, RunSingle;
    TtlCommandSucceeds(s.dbs, db, tokens, now);
    forall loadAt: int, clock: nat -> int, t: int | Possible(now, loadAt, clock, t)
      ensures RecoversAt(ExecuteAndAppend(s, db, tokens, now), loadAt, clock, t)
    {
      var before, at := RecoverAfterAppend(s, db, tokens, now, base, log, loadAt, clock);
      ZeroTtlForgetsClock(s.dbs, before, db, tokens, now, clock(at), t);
    }
  }

  // ----- a pop that looks like an error ---------------------------------------------------------------------

  lemma ErrorPopIsInexact(s: System, db: nat, tokens: seq<string>, now: int, base: seq<Db>, log: seq<seq<string>>)
    requires Durable(s, base, log) && s.phase == Idle && db < |s.dbs|
    requires PopsError(s.dbs, db, tokens, now)
    ensures !RecoversAfter(ExecuteAndAppend(s, db, tokens, now), now)
  {
    hide SameContents, Execute, Durable, PopsError, IsError, Recover, EncodeLog, Records, Live;
    ErrorPopLosesLive(s.dbs, db, tokens, now);
    DurableRecovers(s, base, log);
    var s' := ExecuteAndAppend(s, db, tokens, now);
    var clock := (i: nat) => now;
    assert RecoversAt(s, now, clock, now);
    OneBadRestart(s', now, clock, now);
  }

  // ----- the exact condition ------------------------------------------------------------------------------------

  lemma HarmlessStepIsExact(s: System, db: nat, tokens: seq<string>, now: int, base: seq<Db>, log: seq<seq<string>>)
    requires Durable(s, base, log) && s.phase == Idle && db < |s.dbs|
    requires IsAofLogged(tokens) && Encodable(tokens)
    requires !PopsError(s.dbs, db, tokens, now) && !AttachesTtl(s.dbs, db, tokens, now)
    ensures RecoversExactly(ExecuteAndAppend(s, db, tokens, now))
  {
    hide Durable, RecoversExactly, PopsError, AttachesTtl, IsAofLogged, Encodable, Execute;
    var b, l := StepKeepsDurable(s, Event.Command(db, tokens, now), base, log);
    DurableRecovers(Next(s, Event.Command(db, tokens, now)), b, l);
  }

  /** Executing and logging one command keeps the disk exact, for every restart from then on,
      if and only if the command neither attaches an expiry time other than zero seconds nor
      pops an element that starts with the error prefix. Both can be seen from the command and
      the database before it runs. */
  lemma ExactIffHarmless(s: System, db: nat, tokens: seq<string>, now: int, base: seq<Db>, log: seq<seq<string>>)
    requires Durable(s, base, log) && s.phase == Idle && db < |s.dbs| && 0 <= now
    requires IsAofLogged(tokens) && Encodable(tokens)
    ensures RecoversAfter(ExecuteAndAppend(s, db, tokens, now), now) <==>
              !PopsError(s.dbs, db, tokens, now) && !AttachesLastingTtl(s.dbs, db, tokens, now)
  {
    assert AttachesLastingTtl(s.dbs, db, tokens, now) ==> AttachesTtl(s.dbs, db, tokens, now);
    hide Durable, RecoversAt, PopsError, AttachesTtl, AttachesLastingTtl, IsAofLogged, Encodable, ExecuteAndAppend;
    if PopsError(s.dbs, db, tokens, now) {
      ErrorPopIsInexact(s, db, tokens, now, base, log);
    } else if AttachesLastingTtl(s.dbs, db, tokens, now) {
      TtlStepIsInexact(s, db, tokens, now, base, log);
    } else if AttachesTtl(s.dbs, db, tokens, now) {
      ZeroTtlStepIsExact(s, db, tokens, now, base, log);
    } else {
      HarmlessStepIsExact(s, db, tokens, now, base, log);
    }
  }

  // ----- restarting over a log that does not end in database 0 ---------------------------------------------------

  /** A command that, on its own, would be logged and recovered exactly. */
  predicate MayLog(s: System, db: nat, tokens: seq<string>, now: int) {
    && db < |s.dbs| && IsAofLogged(tokens) && Encodable(tokens)
    && !PopsError(s.dbs, db, tokens, now) && !AttachesTtl(s.dbs, db, tokens, now)
  }

  /** After a restart the next command in database 0 is appended without a marker, and replay
      runs it in the database the old log ended in. */
  lemma MisplacedRecord(s: System, base: seq<Db>, log: seq<seq<string>>, tokens: seq<string>, loadAt: int,
                        clock: nat -> int, u: int)
    returns (before: seq<Db>)
    requires Durable(s, base, log) && s.phase == Idle && Encodable(tokens) && tokens != []
    requires RunsInOne(tokens) && CommandName(tokens) != SELECT && Stopped(clock, u)
    ensures SameContents(s.dbs, before) && |before| == |s.dbs| && s.appendDb < |s.dbs|
    ensures var r := Recover(s.snapshot, s.aof + EncodeLog([tokens]), |s.dbs|, loadAt, clock);
            r.dbs == ExecuteInOne(before, s.appendDb, Decode(tokens), u).dbs
  {
    hide ReplayLog, Timeless, EncodeLog, SameContents, AllShaped, Encodable, Load, ReplayFile, Decode, ExecuteInOne,
      CommandName;
    var loaded := Load(s.snapshot, Emptied(|base|), loadAt);
    EncodeLogAppend(log, [tokens]);
    ReplayFileIsReplayLog(log + [tokens], loaded.dbs, clock);
    ReplayLogAgrees(base, loaded.dbs, log, clock);
    before := ReplayLog(Cursor(loaded.dbs, 0), log, clock).dbs;
    ContentsSymmetric(ReplayLog(Cursor(base, 0), log, Zero).dbs, s.dbs);
    ContentsTransitive(s.dbs, ReplayLog(Cursor(base, 0), log, Zero).dbs, before);
    ReplayLogSplit(Cursor(loaded.dbs, 0), log, [tokens], clock);
  }

  lemma SetIsSet(k: string, v: string)
    ensures CommandName(["SET", k, v]) == SET
  {
    hide ToUpper;
    AlreadyUpper("SET");
    assert NameOf("SET") == SET;
  }

  lemma FlushDbIsFlushDb()
    ensures CommandName(["FLUSHDB"]) == FLUSHDB
  {
    hide ToUpper;
    AlreadyUpper("FLUSHDB");
    assert NameOf("FLUSHDB") == FLUSHDB;
  }

  /** The command that exposes the misplacement: SET of the empty key if database 0 has no such
      key, FLUSHDB otherwise. */
  function Revealing(dbs: seq<Db>): seq<string>
    requires dbs != []
  {
    if "" in dbs[0] then ["FLUSHDB"] else ["SET", "", ""]
  }

  lemma RevealingDecodes(dbs: seq<Db>)
    requires dbs != []
    ensures var tokens := Revealing(dbs);
            && tokens != [] && Encodable(tokens) && IsAofLogged(tokens)
            && RunsInOne(tokens) && CommandName(tokens) != SELECT
            && Decode(tokens) == (if "" in dbs[0] then FlushDb else Single("", Set("", -1)))
  {
    hide CommandName, ParseInteger, ToUpper;
    SetIsSet("", "");
    FlushDbIsFlushDb();
  }

  lemma RevealingMayLog(s: System, now: int)
    requires s.dbs != []
    ensures MayLog(s, 0, Revealing(s.dbs), now) && !IsError(Execute(s.dbs, 0, Revealing(s.dbs), now).reply)
  {
    hide CommandName, Decode, IsAofLogged, Revealing, Encodable;
    RevealingDecodes(s.dbs);
    assert "OK\n"[0] != "ERR "[0];
  }

  lemma RevealingShows(live: seq<Db>, before: seq<Db>, d: nat, t: int)
    requires SameContents(live, before) && 0 < d < |live|
    ensures var request := if "" in live[0] then FlushDb else Single("", Set("", -1));
            !SameLive(ExecuteInOne(before, d, request, t).dbs, ExecuteInOne(live, 0, request, t).dbs, t)
  {
    LiveWithoutTtl(live[0], 0, t);
    LiveWithoutTtl(before[0], 0, t);
    assert Live(live[0], t) == Live(before[0], t);
    var request := if "" in live[0] then FlushDb else Single("", Set("", -1));
    assert ExecuteInOne(before, d, request, t).dbs[0] == before[0];
    assert ExecuteInOne(live, 0, request, t).dbs[0] == Run(request, live[0], t).db;
    if "" in live[0] {
      assert "" in Live(live[0], t);
      assert Live(map[], t) == map[];
    } else {
      assert "" !in Live(before[0], t);
      assert "" in Live(Run(Single("", Set("", -1)), live[0], t).db, t);
    }
  }

  lemma MisplacementShows(s: System, base: seq<Db>, log: seq<seq<string>>, s1: System, now: int)
    requires Durable(s, base, log) && s.phase == Idle && s.appendDb != 0
    requires s1 == System(s1.dbs, s.snapshot, s.aof, 0, Idle) && SameContents(s1.dbs, s.dbs) && |s1.dbs| == |s.dbs| > 0
    ensures var tokens := Revealing(s1.dbs);
            MayLog(s1, 0, tokens, now) && !RecoversAfter(ExecuteAndAppend(s1, 0, tokens, now), now)
  {
    hide Durable, SameContents, Recover, EncodeLog, Decode, CommandName, MayLog, ExecuteInOne, IsError, SameLive,
      IsAofLogged, PopsError, AttachesTtl, Encodable, Revealing;
    var tokens := Revealing(s1.dbs);
    RevealingDecodes(s1.dbs);
    RevealingMayLog(s1, now);
    var clock := (i: nat) => now;
    var before := MisplacedRecord(s, base, log, tokens, now, clock, now);
    ContentsTransitive(s1.dbs, s.dbs, before);
    RevealingShows(s1.dbs, before, s.appendDb, now);
    assert Records(0, 0, tokens) == [tokens];
    OneBadRestart(ExecuteAndAppend(s1, 0, tokens, now), now, clock, now);
  }

  lemma RestartElsewhereIsInexact(s: System, base: seq<Db>, log: seq<seq<string>>, loadAt: int, clock: nat -> int,
                                  now: int)
    requires Durable(s, base, log) && s.phase == Idle && s.appendDb != 0
    ensures var s1 := Next(s, Restart(loadAt, clock));
            var tokens := Revealing(s1.dbs);
            MayLog(s1, 0, tokens, now) && !RecoversAfter(ExecuteAndAppend(s1, 0, tokens, now), now)
  {
    hide Durable, SameContents, Recover, MayLog, ExecuteAndAppend, RecoversAfter, Revealing;
    DurableNoTtl(s, base, log);
    RecoverIs(s, base, log, loadAt, clock);
    MisplacementShows(s, base, log, Next(s, Restart(loadAt, clock)), now);
  }

  lemma RestartAtZeroIsExact(s: System, base: seq<Db>, log: seq<seq<string>>, loadAt: int, clock: nat -> int,
                             db: nat, tokens: seq<string>, now: int)
    requires Durable(s, base, log) && s.phase == Idle && s.appendDb == 0
    requires MayLog(Next(s, Restart(loadAt, clock)), db, tokens, now)
    ensures RecoversExactly(ExecuteAndAppend(Next(s, Restart(loadAt, clock)), db, tokens, now))
  {
    var s1 := Next(s, Restart(loadAt, clock));
    assert s1 == s.(dbs := Recover(s.snapshot, s.aof, |s.dbs|, loadAt, clock).dbs);
    hide Durable, Recover, RecoversExactly, ExecuteAndAppend, PopsError, AttachesTtl, IsAofLogged, Encodable;
    RestartStep(s, loadAt, clock, base, log);
    HarmlessStepIsExact(s1, db, tokens, now, base, log);
  }

  /** A restart over a log is safe for what comes next if and only if the log ends in database
      0: then every command that may be logged, at any time from `since` on, is recovered
      exactly, and otherwise some command is replayed in the wrong database. */
  lemma RestartSafeIffDatabaseZero(s: System, base: seq<Db>, log: seq<seq<string>>, loadAt: int, clock: nat -> int,
                                   since: int)
    requires Durable(s, base, log) && s.phase == Idle
    ensures var s1 := Next(s, Restart(loadAt, clock));
            s.appendDb == 0 <==>
            (forall db, tokens, now ::
               since <= now && MayLog(s1, db, tokens, now) ==>
                 RecoversAfter(ExecuteAndAppend(s1, db, tokens, now), now))
  {
    var s1 := Next(s, Restart(loadAt, clock));
    hide Durable, RecoversAt, ExecuteAndAppend, MayLog;
    if s.appendDb == 0 {
      forall db, tokens, now | MayLog(s1, db, tokens, now)
        ensures RecoversAfter(ExecuteAndAppend(s1, db, tokens, now), now)
      {
        RestartAtZeroIsExact(s, base, log, loadAt, clock, db, tokens, now);
      }
    } else {
      hide RecoversAfter;
      RestartElsewhereIsInexact(s, base, log, loadAt, clock, since);
    }
  }
}
