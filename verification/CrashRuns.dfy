/** Concrete runs of the protocol that crash inside a checkpoint: a counter that counts twice, an
    expiry time out of nowhere, one that does no harm, and a torn log that recovers contents no
    state ever had. */
module CrashRuns {
  import opened Text
  import opened RespCodec
  import opened Values
  import opened Operations
  import opened Commands
  import opened Execution
  import opened Alike
  import opened Snapshot
  import opened Replay
  import opened Recovery
  import opened RecoveryLimits
  import opened CrashLimits
  import opened Repetition
  import opened Counter

  // ----- one key in database 0 -----------------------------------------------------------------------------

  /** Database 0 of `n` holds `key` with this text and nothing else; the others are empty. */
  function OneString(n: nat, key: string, text: string, now: int): (dbs: seq<Db>)
    requires n > 0
    ensures |dbs| == n
  {
    Emptied(n)[0 := map[key := StringObject(text, now, -1, now)]]
  }

  /** Database 0 holds the number `m` under `key`, without an expiry time. */
  predicate Counts(dbs: seq<Db>, key: string, m: int) {
    && dbs != [] && key in dbs[0]
    && dbs[0][key].kind == StringType && dbs[0][key].value == Show(m) && dbs[0][key].expiresAt == -1
  }

  lemma StoredCounts(a: seq<Db>, b: seq<Db>, key: string, m: int)
    requires AllSameStored(a, b) && Counts(a, key, m)
    ensures Counts(b, key, m)
  {
    hide Show;
    assert key in a[0].Keys;
    assert ContentOf(a[0][key]) == ContentOf(b[0][key]);
  }

  /** Contents with different numbers are different. */
  lemma CountsDiffer(a: seq<Db>, b: seq<Db>, key: string, m: nat, k: nat)
    requires Counts(a, key, m) && Counts(b, key, k) && m < k <= 9
    ensures !SameContents(a, b)
  {
    assert Show(m)[0] != Show(k)[0];
    if SameContents(a, b) {
      ContentsStored(a, b);
      StoredCounts(a, b, key, m);
      assert false;
    }
  }

  lemma OneStringCounts(n: nat, key: string, text: string, m: int, now: int)
    requires n > 0 && text == Show(m)
    ensures Counts(OneString(n, key, text, now), key, m)
  {
  }

  lemma StringFits(n: nat, key: string, text: string, now: int)
    requires 0 < n <= MAX_LL && |key| <= MAX_LL && |text| <= MAX_LL && 0 <= now <= MAX_LL
    ensures FitsAll(OneString(n, key, text, now))
  {
    var db := map[key := StringObject(text, now, -1, now)];
    assert |db| == 1 && FitsEntry(Entry(key, db[key]));
    assert FitsDb(db) && FitsDb(map[]);
  }

  // ----- INCR ---------------------------------------------------------------------------------------------

  /** Wherever it runs, INCR is logged, and attaches and pops nothing. */
  lemma IncrIsPlain(dbs: seq<Db>, key: string, now: int)
    requires dbs != [] && |key| <= MAX_LL
    ensures var tokens := CountCommand(key, true);
            && IsAofLogged(tokens) && Encodable(tokens) && Accepted(tokens, |dbs|)
            && !AttachesTtl(dbs, 0, tokens, now) && !PopsError(dbs, 0, tokens, now)
            && Accumulates(dbs, 0, tokens, now)
  {
    CountNames(key);
    CountDecodes(key, true);
    hide CommandName, Decode;
  }

  lemma NumberTexts()
    ensures Show(1) == "1" && Show(2) == "2"
  {
  }

  lemma FromNothing(key: string, now: int)
    ensures var o := RunSingle(map[], key, IncrBy(1), now);
            o.db == map[key := StringObject("1", now, -1, now)] && !IsError(o.reply)
  {
    IncrStartsAtZero(1, now);
    NumberTexts();
    NumberIsNoError(Wrap(1));
    hide Show, Number, Wrap, IsError;
  }

  lemma FromOne(key: string, now: int)
    ensures var o := RunSingle(map[key := StringObject("1", now, -1, now)], key, IncrBy(1), now);
            o.db == map[key := StringObject("2", now, -1, now)] && !IsError(o.reply)
  {
    NumberTexts();
    var e := StringObject("1", now, -1, now);
    IncrAddsToText(e, 1, 1, now);
    NumberIsNoError(2);
    hide Show, Number, IsError, IncrAt;
    assert map[key := e][key := StringObject("2", now, -1, now)] == map[key := StringObject("2", now, -1, now)];
  }

  lemma IncrRuns(dbs: seq<Db>, key: string, now: int)
    requires dbs != []
    ensures var o := RunSingle(dbs[0], key, IncrBy(1), now);
            Execute(dbs, 0, CountCommand(key, true), now) ==
            Executed(dbs[0 := o.db], o.reply, if o.evicts then Some(0) else None)
  {
    CountNames(key);
    CountDecodes(key, true);
    hide CommandName, Decode, RunSingle;
  }

  lemma FirstIncr(n: nat, key: string, now: int)
    requires n > 0
    ensures Execute(Emptied(n), 0, CountCommand(key, true), now).dbs == OneString(n, key, "1", now)
    ensures !IsError(Execute(Emptied(n), 0, CountCommand(key, true), now).reply)
  {
    hide Execute, RunSingle, CountCommand, IsError;
    IncrRuns(Emptied(n), key, now);
    FromNothing(key, now);
  }

  lemma SecondIncr(n: nat, key: string, now: int)
    requires n > 0
    ensures Execute(OneString(n, key, "1", now), 0, CountCommand(key, true), now).dbs == OneString(n, key, "2", now)
    ensures !IsError(Execute(OneString(n, key, "1", now), 0, CountCommand(key, true), now).reply)
  {
    hide Execute, RunSingle, CountCommand, IsError;
    IncrRuns(OneString(n, key, "1", now), key, now);
    FromOne(key, now);
  }

  /** Replayed, INCR adds one. */
  lemma IncrReplays(c: Cursor, key: string, m: int, u: int)
    requires Sound(c) && c.db == 0 && Counts(c.dbs, key, m) && Representable(m) && Representable(m + 1)
    ensures ReplayOne(c, CountCommand(key, true), u).db == 0
    ensures Counts(ReplayOne(c, CountCommand(key, true), u).dbs, key, m + 1)
  {
    CountNames(key);
    CountDecodes(key, true);
    OneMore(c.dbs[0], key, m, 1, u, c.dbs[0] - {key});
    hide CommandName, Decode, RunSingle, Show, Representable;
  }

  // ----- two commands and a checkpoint begun -------------------------------------------------------------------

  /** A command that the protocol logs in database 0 and that the theorem allows. */
  predicate Fine(dbs: seq<Db>, tokens: seq<string>, now: int) {
    && dbs != [] && IsAofLogged(tokens) && Encodable(tokens) && !IsError(Execute(dbs, 0, tokens, now).reply)
    && !AttachesTtl(dbs, 0, tokens, now) && !PopsError(dbs, 0, tokens, now)
  }

  function TwoCommands(a: seq<string>, b: seq<string>, now: int): (run: seq<Event>)
    ensures |run| == 3
  {
    [Event.Command(0, a, now), Event.Command(0, b, now), CheckpointSave(now)]
  }

  /** Inside the checkpoint, with these databases and these two commands in the log. */
  ghost predicate SavedWith(s: System, n: nat, dbs: seq<Db>, a: seq<string>, b: seq<string>) {
    s.phase == Saved && s.appendDb == 0 && s.dbs == dbs && Durable(s, Emptied(n), [a, b])
  }

  lemma SavedWithIs(s: System, n: nat, dbs: seq<Db>, a: seq<string>, b: seq<string>)
    requires SavedWith(s, n, dbs, a, b)
    ensures s.dbs == dbs && |s.dbs| == n
  {
  }

  /** One logged command in database 0, as a step of the protocol. */
  lemma LoggedAtZero(s: System, base: seq<Db>, log: seq<seq<string>>, tokens: seq<string>, now: int)
    requires Durable(s, base, log) && s.appendDb == 0 && s.phase == Idle && Fine(s.dbs, tokens, now)
    ensures var e := Event.Command(0, tokens, now);
            && Enabled(s, e) && Harmless(s, e) && Durable(Next(s, e), base, log + [tokens])
            && Next(s, e) == s.(dbs := Execute(s.dbs, 0, tokens, now).dbs, aof := Next(s, e).aof)
  {
    hide Durable, Execute, IsAofLogged, Encodable, AttachesTtl, PopsError, IsError, EncodeLog;
    LoggedStep(s, 0, tokens, now, base, log);
    assert Extended(log, 0, 0, tokens) == log + [tokens];
  }

  lemma ThreeSteps(s0: System, e0: Event, s1: System, e1: Event, s2: System, e2: Event, s3: System)
    requires Enabled(s0, e0) && Harmless(s0, e0) && s1 == Next(s0, e0)
    requires Enabled(s1, e1) && Harmless(s1, e1) && s2 == Next(s1, e1)
    requires Enabled(s2, e2) && Harmless(s2, e2) && s3 == Next(s2, e2)
    ensures Passes([e0, e1, e2], [s0, s1, s2, s3])
  {
    hide Enabled, Harmless, Next;
  }

  lemma OneMoreStep(run: seq<Event>, states: seq<System>, e: Event)
    requires Passes(run, states) && Enabled(states[|run|], e) && Harmless(states[|run|], e)
    ensures Passes(run + [e], states + [Next(states[|run|], e)])
  {
    hide Enabled, Harmless, Next;
  }

  lemma PairLog(a: seq<string>, b: seq<string>)
    ensures [] + [a] == [a] && [a] + [b] == [a, b]
  {
  }

  lemma TwoCommandsPass(n: nat, a: seq<string>, b: seq<string>, now: int, d1: seq<Db>, d2: seq<Db>)
    returns (states: seq<System>)
    requires 0 < n <= MAX_LL && Fine(Emptied(n), a, now) && Execute(Emptied(n), 0, a, now).dbs == d1
    requires Fine(d1, b, now) && Execute(d1, 0, b, now).dbs == d2 && FitsAll(d2)
    ensures |states| == 4 && Passes(TwoCommands(a, b, now), states)
    ensures states[0] == Initial(n) && states[1].dbs == d1 && states[2].dbs == d2 && SavedWith(states[3], n, d2, a, b)
  {
    var s0 := Initial(n);
    InitialIsDurable(n);
    PairLog(a, b);
    hide Durable, Execute, Fine, Next, Harmless, Enabled, FitsAll, Passes;
    LoggedAtZero(s0, Emptied(n), [], a, now);
    var e0, e1, e2 := Event.Command(0, a, now), Event.Command(0, b, now), CheckpointSave(now);
    var s1 := Next(s0, e0);
    LoggedAtZero(s1, Emptied(n), [a], b, now);
    var s2 := Next(s1, e1);
    CheckpointBegins(s2, Emptied(n), [a, b], now);
    ThreeSteps(s0, e0, s1, e1, s2, e2, Next(s2, e2));
    states := [s0, s1, s2, Next(s2, e2)];
  }

  lemma TwoReplayed(dbs: seq<Db>, a: seq<string>, b: seq<string>, clock: nat -> int)
    requires dbs != []
    ensures ReplayLog(Cursor(dbs, 0), [a, b], clock) ==
            ReplayOne(ReplayOne(Cursor(dbs, 0), a, clock(0)), b, clock(1))
  {
    hide ReplayOne, ReplayLog;
    ReplayOfNothing(Cursor(dbs, 0), clock);
    ReplayLogSplit(Cursor(dbs, 0), [], [a, b], clock);
    assert [] + [a, b] == [a, b];
  }

  lemma IncrIsFine(n: nat, key: string, now: int)
    requires n > 0 && |key| <= MAX_LL
    ensures Fine(Emptied(n), CountCommand(key, true), now)
  {
    hide Execute, IsAofLogged, Encodable, AttachesTtl, PopsError, IsError, Accumulates, Accepted, CountCommand,
      OneString;
    IncrIsPlain(Emptied(n), key, now);
    FirstIncr(n, key, now);
  }

  lemma SecondIncrIsFine(n: nat, key: string, now: int)
    requires n > 0 && |key| <= MAX_LL
    ensures Fine(OneString(n, key, "1", now), CountCommand(key, true), now)
  {
    hide Execute, IsAofLogged, Encodable, AttachesTtl, PopsError, IsError, Accumulates, Accepted, CountCommand,
      OneString;
    IncrIsPlain(OneString(n, key, "1", now), key, now);
    SecondIncr(n, key, now);
  }

  // ----- a counter that counts twice --------------------------------------------------------------------------

  /** Where the run below stops: INCR of a fresh counter, then a checkpoint begun. */
  function IncrSaved(n: nat, key: string, now: int, savedAt: int): System
    requires n > 0
  {
    SavedAfter(Initial(n), 0, CountCommand(key, true), now, savedAt)
  }

  /** INCR of a fresh counter and a crash inside the checkpoint that follows: a harmless run,
      after which the disk does not recover the live databases. */
  lemma WindowIsInexact(n: nat, key: string, now: int, savedAt: int)
    requires 0 < n <= MAX_LL && |key| <= MAX_LL && 0 <= now <= MAX_LL
    ensures var run := [Event.Command(0, CountCommand(key, true), now), CheckpointSave(savedAt)];
            Passes(run, [Initial(n), Next(Initial(n), run[0]), IncrSaved(n, key, now, savedAt)])
    ensures IncrSaved(n, key, now, savedAt).phase == Saved && IncrSaved(n, key, now, savedAt).dbs != []
    ensures !RecoversAfter(IncrSaved(n, key, now, savedAt), savedAt)
  {
    hide Durable, Execute, IsAofLogged, Encodable, AttachesTtl, PopsError, IsError, FitsAll, SaveText, Accumulates,
      RecoversAfter, Records, EncodeLog, CountCommand, OneString, Accepted;
    IncrIsPlain(Emptied(n), key, now);
    FirstIncr(n, key, now);
    StringFits(n, key, "1", now);
    InitialIsDurable(n);
    OneCommandWindow(Initial(n), Emptied(n), 0, CountCommand(key, true), now, savedAt);
  }

  /** The counter was 1 and, recovered at whatever times, is 2. */
  lemma WindowDoublesIncr(n: nat, key: string, now: int, savedAt: int, loadAt: int, clock: nat -> int)
    requires 0 < n <= MAX_LL && |key| <= MAX_LL && 0 <= now <= MAX_LL
    ensures var s := IncrSaved(n, key, now, savedAt);
            var r := Recover(s.snapshot, s.aof, n, loadAt, clock);
            Counts(s.dbs, key, 1) && r.ok && Counts(r.dbs, key, 2)
  {
    hide Durable, Execute, IsAofLogged, Encodable, AttachesTtl, PopsError, IsError, FitsAll, Accumulates, SavedAfter,
      CountCommand, ReplayLog, Timeless, Recover, AllSameStored, OneString, Counts, Accepted, ReplayOne, Show;
    var tokens, s := CountCommand(key, true), IncrSaved(n, key, now, savedAt);
    IncrIsPlain(Emptied(n), key, now);
    FirstIncr(n, key, now);
    StringFits(n, key, "1", now);
    InitialIsDurable(n);
    SavedAfterIs(Initial(n), Emptied(n), 0, tokens, now, savedAt);
    NumberTexts();
    OneStringCounts(n, key, "1", 1, now);
    assert Extended([], 0, 0, tokens) == [tokens];
    WindowRecoverIs(s, Emptied(n), [tokens], loadAt, clock);
    OneIncrReplays(s.dbs, key, 1, clock);
    var r := Recover(s.snapshot, s.aof, n, loadAt, clock).dbs;
    StoredCounts(ReplayLog(Cursor(s.dbs, 0), [tokens], clock).dbs, r, key, 2);
  }

  lemma OneIncrReplays(dbs: seq<Db>, key: string, m: int, clock: nat -> int)
    requires Counts(dbs, key, m) && Representable(m) && Representable(m + 1)
    ensures var c := ReplayLog(Cursor(dbs, 0), [CountCommand(key, true)], clock);
            c.db == 0 && Counts(c.dbs, key, m + 1)
  {
    assert dbs != [];
    hide ReplayOne, Counts, CountCommand, ReplayLog;
    ReplayOfNothing(Cursor(dbs, 0), clock);
    ReplayLogSplit(Cursor(dbs, 0), [], [CountCommand(key, true)], clock);
    assert [] + [CountCommand(key, true)] == [CountCommand(key, true)];
    IncrReplays(Cursor(dbs, 0), key, m, clock(0));
  }

  // ----- an expiry time out of nowhere -----------------------------------------------------------------------

  function ExpireCommand(key: string): seq<string> {
    ["EXPIRE", key, "10"]
  }

  lemma ExpireNames(key: string)
    ensures CommandName(ExpireCommand(key)) == EXPIRE
  {
    hide ToUpper;
    AlreadyUpper("EXPIRE");
    assert NameOf("EXPIRE") == EXPIRE;
  }

  lemma TenParses()
    ensures ParseInteger("10") == Some(10)
  {
    assert Show(10) == "10";
    hide ParseInteger, Show;
    StollShow(10);
  }

  lemma ExpireDecodes(key: string)
    ensures CommandName(ExpireCommand(key)) == EXPIRE && Decode(ExpireCommand(key)) == Single(key, Expire(10))
  {
    hide CommandName, ParseInteger;
    ExpireNames(key);
    TenParses();
    assert ExpireCommand(key)[1..] == [key, "10"];
  }

  lemma ExpireOfNothing(n: nat, key: string, now: int)
    requires n > 0
    ensures Execute(Emptied(n), 0, ExpireCommand(key), now) == Executed(Emptied(n), "0\n", None)
  {
    ExpireDecodes(key);
    hide CommandName, Decode;
    var none: Db := map[];
    assert none - {key} == none;
    assert Emptied(n)[0 := map[]] == Emptied(n);
  }

  lemma ExpireIsFine(n: nat, key: string, now: int)
    requires n > 0 && |key| <= MAX_LL
    ensures Fine(Emptied(n), ExpireCommand(key), now)
  {
    ExpireOfNothing(n, key, now);
    ExpireDecodes(key);
    assert "0\n"[0] != "ERR "[0];
    hide CommandName, Decode, Execute;
  }

  /** EXPIRE of a missing key (which replies 0 and is logged), INCR, and a checkpoint begun. */
  function ExpireRun(key: string, now: int): seq<Event> {
    TwoCommands(ExpireCommand(key), CountCommand(key, true), now)
  }

  /** The state where that run stops. */
  ghost predicate ExpireSaved(s: System, n: nat, key: string, now: int)
    requires n > 0
  {
    SavedWith(s, n, OneString(n, key, "1", now), ExpireCommand(key), CountCommand(key, true))
  }

  lemma ExpireRunPasses(n: nat, key: string, now: int) returns (states: seq<System>)
    requires 0 < n <= MAX_LL && |key| <= MAX_LL && 0 <= now <= MAX_LL
    ensures |states| == 4 && Passes(ExpireRun(key, now), states)
    ensures states[0] == Initial(n) && ExpireSaved(states[3], n, key, now)
  {
    hide Execute, CountCommand, ExpireCommand, OneString, FitsAll, Fine, TwoCommands, SavedWith, Passes;
    ExpireIsFine(n, key, now);
    ExpireOfNothing(n, key, now);
    IncrIsFine(n, key, now);
    FirstIncr(n, key, now);
    StringFits(n, key, "1", now);
    states := TwoCommandsPass(n, ExpireCommand(key), CountCommand(key, true), now, Emptied(n),
                              OneString(n, key, "1", now));
  }

  lemma ExpireReplaysOn(c: Cursor, key: string, u: int)
    requires Sound(c) && c.db == 0 && key in c.dbs[0] && c.dbs[0][key].expiresAt == -1
    ensures ReplayOne(c, ExpireCommand(key), u) ==
            Cursor(c.dbs[0 := c.dbs[0][key := c.dbs[0][key].(expiresAt := u + 10000)]], 0)
  {
    ExpireDecodes(key);
    hide CommandName, Decode;
  }

  lemma IncrKeepsExpiry(c: Cursor, key: string, u: int)
    requires Sound(c) && c.db == 0 && key in c.dbs[0] && c.dbs[0][key].kind == StringType
    requires c.dbs[0][key].value == "1" && c.dbs[0][key].expiresAt > u
    ensures key in ReplayOne(c, CountCommand(key, true), u).dbs[0]
    ensures ReplayOne(c, CountCommand(key, true), u).dbs[0][key].expiresAt == c.dbs[0][key].expiresAt
  {
    NumberTexts();
    IncrAddsToText(c.dbs[0][key], 1, 1, u);
    hide CommandName, Decode, Show, IncrAt, CountCommand;
    CountDecodes(key, true);
    CountNames(key);
  }

  /** Replayed over the counter it produced, the log gives it an expiry time. */
  lemma ExpireReplays(dbs: seq<Db>, key: string, clock: nat -> int, u: int, t: int)
    requires dbs != [] && key in dbs[0] && dbs[0][key].kind == StringType && dbs[0][key].value == "1"
    requires dbs[0][key].expiresAt == -1 && 0 <= u <= t < u + 10000 && Stopped(clock, u)
    ensures var r := ReplayLog(Cursor(dbs, 0), [ExpireCommand(key), CountCommand(key, true)], clock).dbs;
            key in Live(r[0], t) && Live(r[0], t)[key].expiresAt == u + 10000
  {
    var c := ReplayOne(Cursor(dbs, 0), ExpireCommand(key), u);
    hide CountCommand, ExpireCommand, ReplayOne, ReplayLog;
    TwoReplayed(dbs, ExpireCommand(key), CountCommand(key, true), clock);
    ExpireReplaysOn(Cursor(dbs, 0), key, u);
    IncrKeepsExpiry(c, key, u);
  }

  /** What recovery from there gives, replaying at time `u`. */
  lemma ExpireRecovers(s: System, n: nat, key: string, now: int, loadAt: int, clock: nat -> int, u: int, t: int)
    requires n > 0 && ExpireSaved(s, n, key, now) && 0 <= u <= t < u + 10000 && Stopped(clock, u)
    ensures var r := Recover(s.snapshot, s.aof, n, loadAt, clock);
            r.ok && key in Live(r.dbs[0], t) && Live(r.dbs[0], t)[key].expiresAt == u + 10000
  {
    hide Durable, Recover, ReplayLog, Live, AllSameStored, CountCommand, ExpireCommand;
    var log := [ExpireCommand(key), CountCommand(key, true)];
    ExpireReplays(s.dbs, key, clock, u, t);
    WindowRecoverIs(s, Emptied(n), log, loadAt, clock);
    AllStoredLive(ReplayLog(Cursor(s.dbs, 0), log, clock).dbs, Recover(s.snapshot, s.aof, n, loadAt, clock).dbs, t);
  }

  lemma ExpireMoves(s: System, n: nat, key: string, now: int, slow: nat -> int, slower: nat -> int)
    requires n > 0 && ExpireSaved(s, n, key, now) && 0 <= now
    requires Stopped(slow, now) && Stopped(slower, now + 1)
    ensures s.dbs != [] && !RecoversAt(Next(s, Restart(now, slow)), now, slower, now + 1)
  {
    hide Durable, OneString, Recover, Live, Execute, SaveText, PurgeAll, ExecuteAndAppend;
    assert |s.dbs| == n;
    hide ExpireSaved;
    ExpireRecovers(s, n, key, now, now, slow, now, now + 1);
    ExpireRecovers(s, n, key, now, now, slower, now + 1, now + 1);
  }

  /** A restart inside a checkpoint cannot do without a condition: after this run of harmless
      steps, none of which attaches an expiry time, a crash inside the checkpoint leaves the
      server with a counter that expires, and the disk no longer recovers what is live. */
  lemma WindowAttachesTtl(n: nat, key: string, now: int, clock: nat -> int) returns (states: seq<System>)
    requires 0 < n <= MAX_LL && |key| <= MAX_LL && 0 <= now <= MAX_LL && Stopped(clock, now)
    ensures |states| == 4 && Passes(ExpireRun(key, now), states) && states[0] == Initial(n) && states[3].appendDb == 0
    ensures Enabled(states[3], Restart(now, clock)) && !Harmless(states[3], Restart(now, clock))
    ensures Next(states[3], Restart(now, clock)).dbs != []
    ensures !RecoversAfter(Next(states[3], Restart(now, clock)), now)
  {
    hide Durable, OneString, Recover, RecoversAt, Execute, SaveText, PurgeAll, ExecuteAndAppend, Timeless, CommandsIn,
      Passes, ExpireRun, IsAofLogged, Encodable, AttachesTtl, PopsError, FitsAll, RecoversAfter, RecoversExactly;
    states := ExpireRunPasses(n, key, now);
    var s, later, log := states[3], (i: nat) => now + 1, [ExpireCommand(key), CountCommand(key, true)];
    ExpireMoves(s, n, key, now, clock, later);
    OneBadRestart(Next(s, Restart(now, clock)), now, later, now + 1);
    DurableHasBase(s, Emptied(n), log);
    WindowRestartIff(s, Emptied(n), log);
  }

  // ----- an expiry time that does no harm -------------------------------------------------------------------

  function SetCommand(key: string): seq<string> {
    ["SET", key, ""]
  }

  lemma SetDecodes(key: string)
    ensures CommandName(SetCommand(key)) == SET && Decode(SetCommand(key)) == Single(key, Set("", -1))
  {
    SetIsSet(key, "");
    hide CommandName, ParseInteger, ToUpper;
    assert SetCommand(key) == ["SET", key, ""] && SetCommand(key)[1..] == [key, ""];
  }

  lemma SetIsFine(n: nat, key: string, now: int)
    requires n > 0 && |key| <= MAX_LL
    ensures Fine(Emptied(n), SetCommand(key), now)
    ensures Execute(Emptied(n), 0, SetCommand(key), now).dbs == OneString(n, key, "", now)
  {
    SetDecodes(key);
    hide CommandName, Decode;
    assert Encodable(SetCommand(key));
    hide SetCommand;
    assert "OK\n"[0] != "ERR "[0];
    assert Execute(Emptied(n), 0, SetCommand(key), now).dbs[0] == map[key := StringObject("", now, -1, now)];
  }

  lemma SetReplaysOn(c: Cursor, key: string, u: int)
    requires Sound(c) && c.db == 0
    ensures ReplayOne(c, SetCommand(key), u) == Cursor(c.dbs[0 := c.dbs[0][key := StringObject("", u, -1, u)]], 0)
  {
    SetDecodes(key);
    hide CommandName, Decode;
  }

  /** Such a database, whatever was done to the key before SET. */
  lemma SetRestores(n: nat, key: string, now: int, e: ValueObject, u: int)
    requires n > 0
    ensures var dbs := OneString(n, key, "", now);
            SameContents(dbs, ReplayOne(Cursor(dbs[0 := dbs[0][key := e]], 0), SetCommand(key), u).dbs)
  {
    var dbs: seq<Db> := OneString(n, key, "", now);
    var c := Cursor(dbs[0 := dbs[0][key := e]], 0);
    hide SetCommand, ReplayOne;
    SetReplaysOn(c, key, u);
    var r := c.dbs[0 := c.dbs[0][key := StringObject("", u, -1, u)]];
    assert r[0] == map[key := StringObject("", u, -1, u)];
    assert forall k :: 1 <= k < n ==> r[k] == map[] && dbs[k] == map[];
    assert Live(dbs[0], 0) == Live(r[0], 0);
  }

  lemma HoldsString(n: nat, key: string, now: int)
    requires n > 0
    ensures var dbs := OneString(n, key, "", now); key in dbs[0] && dbs[0][key].expiresAt == -1
  {
  }

  /** EXPIRE attaches an expiry time in passing, and SET overwrites it, at whatever times. */
  lemma SetReplays(n: nat, key: string, now: int, clock: nat -> int)
    requires n > 0
    ensures var dbs := OneString(n, key, "", now);
            SameContents(dbs, ReplayLog(Cursor(dbs, 0), [ExpireCommand(key), SetCommand(key)], clock).dbs)
  {
    hide ExpireCommand, SetCommand, ReplayOne, ReplayLog, SameContents, OneString;
    var dbs: seq<Db> := OneString(n, key, "", now);
    HoldsString(n, key, now);
    TwoReplayed(dbs, ExpireCommand(key), SetCommand(key), clock);
    ExpireReplaysOn(Cursor(dbs, 0), key, clock(0));
    SetRestores(n, key, now, dbs[0][key].(expiresAt := clock(0) + 10000), clock(1));
  }

  lemma SetIsNotTtlFree(dbs: seq<Db>, key: string, tokens: seq<string>)
    requires dbs != [] && key in dbs[0] && dbs[0][key].expiresAt == -1
    ensures !TtlFree(dbs, [ExpireCommand(key), tokens])
  {
    var log := [ExpireCommand(key), tokens];
    assert log[..1] == [ExpireCommand(key)] && log[..1][..0] == [];
    assert AttachesTtl(dbs, 0, ExpireCommand(key), 0) by { ExpireDecodes(key); hide CommandName, Decode; }
    hide AttachesTtl, ReplayOne, ExpireCommand;
    assert !TtlFree(dbs, log[..1]);
  }

  /** A log may attach an expiry time in passing and still be timeless: EXPIRE of a missing key,
      SET, and a crash inside the checkpoint that follows are recovered exactly. */
  lemma WindowForgivesExpire(n: nat, key: string, now: int) returns (states: seq<System>)
    requires 0 < n <= MAX_LL && |key| <= MAX_LL && 0 <= now <= MAX_LL
    ensures |states| == 4 && Passes(TwoCommands(ExpireCommand(key), SetCommand(key), now), states)
    ensures states[0] == Initial(n) && states[3].phase == Saved && states[3].appendDb == 0 && states[3].dbs != []
    ensures !TtlFree(states[3].dbs, CommandsIn(states[3].aof)) && Timeless(states[3].dbs, CommandsIn(states[3].aof))
    ensures RecoversExactly(states[3])
  {
    var store, dbs := SetCommand(key), OneString(n, key, "", now);
    SetIsNotTtlFree(dbs, key, store);
    hide Durable, Execute, ExpireCommand, SetCommand, OneString, FitsAll, Fine, TwoCommands, Passes, TtlFree,
      CommandsIn, RecoversExactly, RecoversAfter, SameContents, ReplayLog;
    ExpireIsFine(n, key, now);
    ExpireOfNothing(n, key, now);
    SetIsFine(n, key, now);
    StringFits(n, key, "", now);
    states := TwoCommandsPass(n, ExpireCommand(key), store, now, Emptied(n), dbs);
    var s, log := states[3], [ExpireCommand(key), store];
    DurableHasBase(s, Emptied(n), log);
    SetIsTimeless(n, key, now);
    SetReplays(n, key, now, Zero);
    TimelessWindowIff(s, Emptied(n), log, now);
  }

  lemma SetIsTimeless(n: nat, key: string, now: int)
    requires n > 0
    ensures Timeless(OneString(n, key, "", now), [ExpireCommand(key), SetCommand(key)])
  {
    var dbs, log := OneString(n, key, "", now), [ExpireCommand(key), SetCommand(key)];
    hide OneString, ExpireCommand, SetCommand, ReplayLog, SameContents;
    forall clock: nat -> int
      ensures SameContents(ReplayLog(Cursor(dbs, 0), log, Zero).dbs, ReplayLog(Cursor(dbs, 0), log, clock).dbs)
    {
      SetReplays(n, key, now, Zero);
      SetReplays(n, key, now, clock);
      ContentsSymmetric(dbs, ReplayLog(Cursor(dbs, 0), log, Zero).dbs);
      ContentsTransitive(ReplayLog(Cursor(dbs, 0), log, Zero).dbs, dbs, ReplayLog(Cursor(dbs, 0), log, clock).dbs);
    }
  }

  // ----- a torn log after a restart in the window -------------------------------------------------------------

  lemma TwoIncrsReplay(dbs: seq<Db>, key: string, m: int, clock: nat -> int)
    requires Counts(dbs, key, m) && Representable(m) && Representable(m + 1) && Representable(m + 2)
    ensures var c := ReplayLog(Cursor(dbs, 0), [CountCommand(key, true), CountCommand(key, true)], clock);
            Counts(c.dbs, key, m + 2)
  {
    assert dbs != [];
    hide ReplayOne, Counts, CountCommand, ReplayLog, Representable;
    TwoReplayed(dbs, CountCommand(key, true), CountCommand(key, true), clock);
    IncrReplays(Cursor(dbs, 0), key, m, clock(0));
    IncrReplays(ReplayOne(Cursor(dbs, 0), CountCommand(key, true), clock(0)), key, m + 1, clock(1));
  }

  lemma TwoIncrsAreTimeless(dbs: seq<Db>, key: string)
    requires 0 < |dbs| <= MAX_LL && AllNoTtl(dbs) && |key| <= MAX_LL
    ensures Timeless(dbs, [CountCommand(key, true), CountCommand(key, true)])
  {
    hide Execute, IsAofLogged, Encodable, AttachesTtl, PopsError, Accumulates, CountCommand, Timeless, ReplayLog,
      Accepted, AllNoTtl;
    var tokens := CountCommand(key, true);
    forall x: seq<Db> | x != [] && |x| == |dbs| ensures !AttachesTtl(x, 0, tokens, 0) { IncrIsPlain(x, key, 0); }
    IncrIsPlain(dbs, key, 0);
    NothingIsTimeless(dbs);
    ReplayOfNothing(Cursor(dbs, 0), Zero);
    TimelessExtended(dbs, [], 0, tokens);
    assert Extended([], 0, 0, tokens) == [tokens];
    ReplayRecords(Cursor(dbs, 0), [], 0, tokens, Zero);
    TimelessExtended(dbs, [tokens], 0, tokens);
    assert Extended([tokens], 0, 0, tokens) == [tokens, tokens];
  }

  lemma TwoIncrsPass(n: nat, key: string, now: int) returns (states: seq<System>)
    requires 0 < n <= MAX_LL && |key| <= MAX_LL && 0 <= now <= MAX_LL
    ensures |states| == 4 && Passes(TwoCommands(CountCommand(key, true), CountCommand(key, true), now), states)
    ensures states[0] == Initial(n) && Counts(states[1].dbs, key, 1) && Counts(states[2].dbs, key, 2)
    ensures SavedWith(states[3], n, states[2].dbs, CountCommand(key, true), CountCommand(key, true))
  {
    hide Durable, Execute, CountCommand, OneString, FitsAll, Fine, TwoCommands, Passes, SavedWith, Counts, Show;
    IncrIsFine(n, key, now);
    FirstIncr(n, key, now);
    SecondIncrIsFine(n, key, now);
    SecondIncr(n, key, now);
    StringFits(n, key, "2", now);
    NumberTexts();
    OneStringCounts(n, key, "1", 1, now);
    OneStringCounts(n, key, "2", 2, now);
    states := TwoCommandsPass(n, CountCommand(key, true), CountCommand(key, true), now, OneString(n, key, "1", now),
                              OneString(n, key, "2", now));
  }

  /** The restart of a server that crashed there: harmless, and the counter is 4. */
  lemma TwoIncrsRestart(s: System, n: nat, key: string, loadAt: int, clock: nat -> int)
    requires 0 < n <= MAX_LL && |key| <= MAX_LL && Counts(s.dbs, key, 2)
    requires SavedWith(s, n, s.dbs, CountCommand(key, true), CountCommand(key, true)) && |s.dbs| == n
    ensures Enabled(s, Restart(loadAt, clock)) && Harmless(s, Restart(loadAt, clock))
    ensures var s1 := Next(s, Restart(loadAt, clock));
            && Counts(s1.dbs, key, 4) && |s1.dbs| == n && s1.phase == Idle && s1.aof == s.aof
            && Durable(s1, s.dbs, [CountCommand(key, true), CountCommand(key, true)])
  {
    hide Durable, CountCommand, Timeless, ReplayLog, AllNoTtl, Recover, AllSameStored, CommandsIn, Counts, Show,
      Execute, ExecuteAndAppend, PurgeAll, SaveText, AttachesTtl, PopsError, IsAofLogged, Encodable, FitsAll;
    var log := [CountCommand(key, true), CountCommand(key, true)];
    DurableNoTtl(s, Emptied(n), log);
    DurableHasBase(s, Emptied(n), log);
    TwoIncrsAreTimeless(s.dbs, key);
    WindowRestartStep(s, loadAt, clock, Emptied(n), log);
    TwoIncrsReplay(s.dbs, key, 2, clock);
    WindowRecoverIs(s, Emptied(n), log, loadAt, clock);
    StoredCounts(ReplayLog(Cursor(s.dbs, 0), log, clock).dbs, Recover(s.snapshot, s.aof, n, loadAt, clock).dbs, key, 4);
  }

  /** The log of that server, torn after its first record: the counter is recovered as 3. */
  lemma TornAfterOne(s: System, base: seq<Db>, key: string, loadAt: int, clock: nat -> int)
    requires Durable(s, base, [CountCommand(key, true), CountCommand(key, true)]) && s.phase == Idle
    requires Counts(base, key, 2)
    ensures var cut := |EncodeLog([CountCommand(key, true)])|;
            && cut <= |s.aof|
            && var r := Recover(s.snapshot, s.aof[..cut], |s.dbs|, loadAt, clock);
            && r.ok && Counts(r.dbs, key, 3)
  {
    var one, log := [CountCommand(key, true)], [CountCommand(key, true), CountCommand(key, true)];
    hide CountCommand, Counts, Show, Load, ReplayFile, ReplayLog, SameContents, AllShaped, Timeless, AllSameStored,
      EncodeCommand;
    assert log[..1] == one && EncodeLog(log) == EncodeLog(one) + EncodeCommand(CountCommand(key, true));
    assert s.aof[..|EncodeLog(one)|] == EncodeLog(one);
    assert EncodableLog(one);
    hide EncodeLog, Encodable;
    var loaded := Load(s.snapshot, Emptied(|base|), loadAt);
    ReplayFileIsReplayLog(one, loaded.dbs, clock);
    ContentsStored(base, loaded.dbs);
    StoredCounts(base, loaded.dbs, key, 2);
    OneIncrReplays(loaded.dbs, key, 2, clock);
  }

  /** After a restart inside a checkpoint a torn log may recover contents that no state of the
      run ever had: the counter was never 3. */
  lemma TornLogRecoversNoState(n: nat, key: string, now: int, loadAt: int, clock: nat -> int)
    returns (run: seq<Event>, states: seq<System>)
    requires 0 < n <= MAX_LL && |key| <= MAX_LL && 0 <= now <= MAX_LL
    ensures run == TwoCommands(CountCommand(key, true), CountCommand(key, true), now) + [Restart(loadAt, clock)]
    ensures |states| == 5 && Passes(run, states) && states[0] == Initial(n) && states[4].phase == Idle
    ensures Counts(states[4].dbs, key, 4)
    ensures var cut := |EncodeLog([CountCommand(key, true)])|;
            && cut <= |states[4].aof|
            && var r := Recover(states[4].snapshot, states[4].aof[..cut], n, loadAt, clock);
            r.ok && Counts(r.dbs, key, 3) && forall i :: 0 <= i < 5 ==> !SameContents(r.dbs, states[i].dbs)
  {
    hide Durable, CountCommand, Counts, Show, TwoCommands, Passes, SavedWith, Enabled, Harmless, Next, Recover,
      SameContents, EncodeLog;
    var front := TwoIncrsPass(n, key, now);
    var s := front[3];
    SavedWithIs(s, n, front[2].dbs, CountCommand(key, true), CountCommand(key, true));
    TwoIncrsRestart(s, n, key, loadAt, clock);
    var s1 := Next(s, Restart(loadAt, clock));
    run := TwoCommands(CountCommand(key, true), CountCommand(key, true), now) + [Restart(loadAt, clock)];
    states := front + [s1];
    OneMoreStep(TwoCommands(CountCommand(key, true), CountCommand(key, true), now), front, Restart(loadAt, clock));
    TornAfterOne(s1, s.dbs, key, loadAt, clock);
    var r := Recover(s1.snapshot, s1.aof[..|EncodeLog([CountCommand(key, true)])|], n, loadAt, clock).dbs;
    NeverThree(r, key, states);
  }

  lemma NeverThree(r: seq<Db>, key: string, states: seq<System>)
    requires |states| == 5 && Counts(r, key, 3) && states[0].dbs == Emptied(|states[0].dbs|)
    requires Counts(states[1].dbs, key, 1) && Counts(states[2].dbs, key, 2) && Counts(states[3].dbs, key, 2)
    requires Counts(states[4].dbs, key, 4)
    ensures forall i :: 0 <= i < 5 ==> !SameContents(r, states[i].dbs)
  {
    EmptyCountsNothing(r, states[0].dbs, key);
    hide SameContents, Counts;
    forall i | 1 <= i < 5 ensures !SameContents(r, states[i].dbs) {
      if SameContents(r, states[i].dbs) {
        ContentsSymmetric(r, states[i].dbs);
        if i == 1 {
          CountsDiffer(states[1].dbs, r, key, 1, 3);
        } else if i == 4 {
          CountsDiffer(r, states[4].dbs, key, 3, 4);
        } else {
          CountsDiffer(states[i].dbs, r, key, 2, 3);
        }
      }
    }
  }

  lemma EmptyCountsNothing(r: seq<Db>, dbs: seq<Db>, key: string)
    requires Counts(r, key, 3) && dbs == Emptied(|dbs|)
    ensures !SameContents(r, dbs)
  {
    assert key in Live(r[0], 0);
    if dbs != [] { assert key !in Live(dbs[0], 0); }
  }
}
