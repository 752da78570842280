/** The persistence protocol: commands executed and logged under one lock, checkpoints that
    write a snapshot and then truncate the log, the expiry worker, and restarts. At every
    moment the lock is free, the files on disk recover exactly the live databases. */
module Recovery {
  import opened Text
  import opened RespCodec
  import opened Values
  import opened Operations
  import opened Agreement
  import opened Commands
  import opened Shape
  import opened Execution
  import opened Snapshot
  import opened Replay
  import opened Alike

  // ----- the system ---------------------------------------------------------------------------------

  /** `Saved` is the window inside `checkpoint`, lock held, after the new snapshot has been
      renamed into place and before the log has been truncated. */
  datatype Phase = Idle | Saved

  datatype System = System(dbs: seq<Db>, snapshot: Option<string>, aof: string, appendDb: nat, phase: Phase)

  datatype Event =
    | Command(db: nat, tokens: seq<string>, now: int)
    | ExpiryTick(db: nat, now: int)
    | CheckpointSave(now: int)
    | CheckpointTruncate
    | Restart(loadAt: int, clock: nat -> int)

  function PurgeAll(dbs: seq<Db>, now: int): (r: seq<Db>)
    ensures |r| == |dbs| && forall k :: 0 <= k < |dbs| ==> r[k] == Purge(dbs[k], now)
  {
    seq(|dbs|, k requires 0 <= k < |dbs| => Purge(dbs[k], now))
  }

  /** Start-up: load the snapshot into empty databases, then replay the log over them. */
  function Recover(snapshot: Option<string>, aof: string, n: nat, loadAt: int, clock: nat -> int): (r: Loaded)
    requires n > 0
    ensures |r.dbs| == n
  {
    var loaded := Load(snapshot, Emptied(n), loadAt);
    if !loaded.ok then loaded else Loaded(true, ReplayFile(aof, loaded.dbs, clock))
  }

  /** `executeAndAppend` on a logged command: run it, and log it unless its reply is an error. */
  function ExecuteAndAppend(s: System, db: nat, tokens: seq<string>, now: int): System
    requires db < |s.dbs|
  {
    var x := Execute(s.dbs, db, tokens, now);
    if IsError(x.reply) then s.(dbs := x.dbs)
    else s.(dbs := x.dbs, aof := s.aof + EncodeLog(Records(s.appendDb, db, tokens)), appendDb := db)
  }

  /** Steps that may happen; logged commands and checkpoints wait for the lock. */
  predicate Enabled(s: System, e: Event) {
    match e
    case Command(db, tokens, _) => db < |s.dbs| && (IsAofLogged(tokens) ==> s.phase == Idle)
    case ExpiryTick(db, _) => db < |s.dbs|
    case CheckpointSave(_) => s.phase == Idle
    case CheckpointTruncate => s.phase == Saved
    case Restart(_, _) => s.dbs != []
  }

  function Next(s: System, e: Event): System
    requires Enabled(s, e)
  {
    match e
    case Command(db, tokens, now) =>
      if IsAofLogged(tokens) then ExecuteAndAppend(s, db, tokens, now)
      else s.(dbs := Execute(s.dbs, db, tokens, now).dbs)
    case ExpiryTick(db, now) => s.(dbs := s.dbs[db := Purge(s.dbs[db], now)])
    case CheckpointSave(now) => s.(dbs := PurgeAll(s.dbs, now), snapshot := Some(SaveText(s.dbs, now)), phase := Saved)
    case CheckpointTruncate => s.(aof := "", appendDb := 0, phase := Idle)
    case Restart(loadAt, clock) =>
      System(Recover(s.snapshot, s.aof, |s.dbs|, loadAt, clock).dbs, s.snapshot, s.aof, 0, Idle)
  }

  function Initial(n: nat): System {
    System(Emptied(n), None, "", 0, Idle)
  }

  /** Recovery at these clock readings succeeds, with the live contents as seen at time `t`. */
  predicate RecoversAt(s: System, loadAt: int, clock: nat -> int, t: int)
    requires s.dbs != []
  {
    var r := Recover(s.snapshot, s.aof, |s.dbs|, loadAt, clock);
    r.ok && SameLive(r.dbs, s.dbs, t)
  }

  /** The disk recovers the live contents of every database, whenever recovery runs. */
  ghost predicate RecoversExactly(s: System)
    requires s.dbs != []
  {
    forall loadAt: int, clock: nat -> int, t: int :: RecoversAt(s, loadAt, clock, t)
  }

  /** Clock readings a server stopped at time `now` can meet: it loads no earlier, replays each
      command no earlier than that, and is looked at once replay is over. (Readings past the
      last command are never used; the clock may stand still there.) */
  ghost predicate Possible(now: int, loadAt: int, clock: nat -> int, t: int) {
    && now <= loadAt
    && (forall i: nat :: loadAt <= clock(i) <= t)
    && (forall i: nat, j: nat :: i <= j ==> clock(i) <= clock(j))
  }

  /** The disk recovers the live contents whenever a server stopped at `now` can recover. */
  ghost predicate RecoversAfter(s: System, now: int)
    requires s.dbs != []
  {
    forall loadAt: int, clock: nat -> int, t: int :: Possible(now, loadAt, clock, t) ==> RecoversAt(s, loadAt, clock, t)
  }

  /** A clock that stands still: every reading is `u`. */
  ghost predicate Stopped(clock: nat -> int, u: int) {
    forall i: nat :: clock(i) == u
  }

  /** One restart that goes wrong, with everything at time `u`, is enough. */
  lemma OneBadRestart(s: System, now: int, clock: nat -> int, u: int)
    requires s.dbs != [] && now <= u && Stopped(clock, u) && !RecoversAt(s, now, clock, u)
    ensures !RecoversAfter(s, now) && !RecoversExactly(s)
  {
    hide RecoversAt;
    assert Possible(now, now, clock, u);
  }

  // ----- contents without expiry times ----------------------------------------------------------------

  /** Same contents, none of them with an expiry time. */
  predicate SameContents(a: seq<Db>, b: seq<Db>) {
    |a| == |b| && AllNoTtl(a) && AllNoTtl(b) && forall k :: 0 <= k < |a| ==> Live(a[k], 0) == Live(b[k], 0)
  }

  lemma ContentsAgree(a: seq<Db>, b: seq<Db>, s: int, t: int)
    requires SameContents(a, b)
    ensures AgreeAll(a, b, s, t)
  {
    forall k | 0 <= k < |a| ensures Agree(a[k], b[k], s, t) {
      LiveWithoutTtl(a[k], s, 0);
      LiveWithoutTtl(b[k], t, 0);
    }
  }

  lemma AgreeingContents(a: seq<Db>, b: seq<Db>, s: int, t: int)
    requires AgreeAll(a, b, s, t) && AllNoTtl(a) && AllNoTtl(b)
    ensures SameContents(a, b)
  {
    forall k | 0 <= k < |a| ensures Live(a[k], 0) == Live(b[k], 0) {
      LiveWithoutTtl(a[k], s, 0);
      LiveWithoutTtl(b[k], t, 0);
    }
  }

  lemma ContentsSameLive(a: seq<Db>, b: seq<Db>, t: int)
    requires SameContents(a, b)
    ensures SameLive(a, b, t)
  {
    forall k | 0 <= k < |a| ensures Live(a[k], t) == Live(b[k], t) {
      LiveWithoutTtl(a[k], t, 0);
      LiveWithoutTtl(b[k], t, 0);
    }
  }

  /** Steps that keep what is live keep the contents. */
  lemma LiveSameContents(a: seq<Db>, b: seq<Db>, t: int)
    requires SameLive(a, b, t) && AllNoTtl(a) && AllNoTtl(b)
    ensures SameContents(a, b)
  {
    forall k | 0 <= k < |a| ensures Live(a[k], 0) == Live(b[k], 0) {
      LiveWithoutTtl(a[k], t, 0);
      LiveWithoutTtl(b[k], t, 0);
    }
  }

  lemma ContentsTransitive(a: seq<Db>, b: seq<Db>, c: seq<Db>)
    requires SameContents(a, b) && SameContents(b, c)
    ensures SameContents(a, c)
  {
  }

  lemma ContentsReflexive(a: seq<Db>)
    requires AllNoTtl(a)
    ensures SameContents(a, a)
  {
  }

  // ----- replay depends on contents only -------------------------------------------------------------------

  function Zero(i: nat): int {
    0
  }

  lemma ContentsHaveNoTtl(a: seq<Db>, b: seq<Db>)
    requires SameContents(a, b)
    ensures AllNoTtl(a) && AllNoTtl(b) && |a| == |b|
  {
  }

  lemma EmptiedNoTtl(n: nat)
    ensures AllNoTtl(Emptied(n))
  {
  }

  lemma MoveNoTtl(dbs: seq<Db>, i: nat, key: string, j: nat, now: int)
    requires i < |dbs| && j < |dbs| && AllNoTtl(dbs)
    ensures AllNoTtl(MoveBetween(dbs, i, key, j, now).dbs)
  {
  }

  /** Whether a request attaches an expiry time is itself a matter of contents. */
  lemma SetsTtlAgrees(request: Request, a: Db, b: Db, s: int, t: int)
    requires Agree(a, b, s, t)
    ensures SetsTtl(request, a, s) == SetsTtl(request, b, t)
  {
    if request.Single? { EntriesAgree(a, b, s, t, request.key); }
  }

  lemma RequestKeepsNoTtl(request: Request, db: Db, now: int)
    requires NoTtl(db) && !SetsTtl(request, db, now)
    ensures NoTtl(Run(request, db, now).db)
  {
    hide Run, SetsTtl;
    LiveWithoutTtl(db, now, now + 1);
    RunAgrees(request, db, db, now, now + 1);
  }

  lemma ReplayOneStored(a: Cursor, b: Cursor, tokens: seq<string>, t: int)
    requires Sound(a) && Sound(b) && a.db == b.db && AllSameStored(a.dbs, b.dbs)
    ensures AllSameStored(ReplayOne(a, tokens, t).dbs, ReplayOne(b, tokens, t).dbs)
  {
    hide CommandName, Decode, ExecuteInOne, MoveBetween, IndexBelow, SameStored;
    StoredEmptied(|a.dbs|);
    if tokens != [] {
      if CommandName(tokens) == MOVE {
        if |tokens| == 3 && IndexBelow(tokens[2], |a.dbs|).Some? {
          StoredMove(a.dbs, b.dbs, a.db, tokens[1], IndexBelow(tokens[2], |a.dbs|).value, t);
        }
      } else if CommandName(tokens) != FLUSHALL && CommandName(tokens) != SELECT {
        StoredInOne(a.dbs, b.dbs, a.db, Decode(tokens), t);
      }
    }
  }

  /** Replaying any log over databases that store the same contents, at the same times, leaves
      databases that store the same contents. */
  lemma {:induction false} ReplayLogStored(a: Cursor, b: Cursor, log: seq<seq<string>>, clock: nat -> int)
    requires Sound(a) && Sound(b) && a.db == b.db && AllSameStored(a.dbs, b.dbs)
    ensures AllSameStored(ReplayLog(a, log, clock).dbs, ReplayLog(b, log, clock).dbs)
  {
    hide ReplayOne, AllSameStored;
    assert |a.dbs| == |b.dbs| by { StoredCount(a.dbs, b.dbs); }
    if log != [] {
      var front := log[..|log| - 1];
      ReplayLogStored(a, b, front, clock);
      ReplayEndsAlike(a, b, front, clock, clock);
      ReplayOneStored(ReplayLog(a, front, clock), ReplayLog(b, front, clock), log[|log| - 1], clock(|log| - 1));
    }
  }

  lemma StoredCount(a: seq<Db>, b: seq<Db>)
    requires AllSameStored(a, b)
    ensures |a| == |b|
  {
  }

  /** Same contents without expiry times are the same stored contents. */
  lemma ContentsStored(a: seq<Db>, b: seq<Db>)
    requires SameContents(a, b)
    ensures AllSameStored(a, b)
  {
    forall k | 0 <= k < |a| ensures SameStored(a[k], b[k]) {
      forall t ensures Live(a[k], t) == Live(b[k], t) {
        LiveWithoutTtl(a[k], t, 0);
        LiveWithoutTtl(b[k], t, 0);
      }
      LiveStored(a[k], b[k]);
    }
  }

  lemma StoredContents(a: seq<Db>, b: seq<Db>)
    requires AllSameStored(a, b) && AllNoTtl(a)
    ensures SameContents(a, b)
  {
    forall k | 0 <= k < |a| ensures NoTtl(b[k]) && Live(a[k], 0) == Live(b[k], 0) {
      StoredLive(a[k], b[k], 0);
      forall key | key in b[k] ensures b[k][key].expiresAt == -1 {
        assert key in a[k].Keys;
        assert ContentOf(a[k][key]) == ContentOf(b[k][key]);
      }
    }
  }

  /** Replaying the log over `base` gives the same contents, without expiry times, at whatever
      times the commands are replayed. */
  ghost predicate Timeless(base: seq<Db>, log: seq<seq<string>>)
    requires base != []
  {
    forall clock: nat -> int ::
      SameContents(ReplayLog(Cursor(base, 0), log, Zero).dbs, ReplayLog(Cursor(base, 0), log, clock).dbs)
  }

  /** Such a log, replayed over databases with the same contents, at whatever times, gives the
      same contents and ends in the same database. */
  lemma ReplayLogAgrees(base: seq<Db>, other: seq<Db>, log: seq<seq<string>>, clock: nat -> int)
    requires base != [] && SameContents(base, other) && Timeless(base, log)
    ensures other != []
    ensures ReplayLog(Cursor(base, 0), log, Zero).db == ReplayLog(Cursor(other, 0), log, clock).db
    ensures SameContents(ReplayLog(Cursor(base, 0), log, Zero).dbs, ReplayLog(Cursor(other, 0), log, clock).dbs)
  {
    ContentsHaveNoTtl(base, other);
    hide SameContents, ReplayLog, AllSameStored, AllNoTtl;
    ContentsStored(base, other);
    ReplayLogStored(Cursor(base, 0), Cursor(other, 0), log, clock);
    ReplayEndsAlike(Cursor(base, 0), Cursor(other, 0), log, Zero, clock);
    var zero, x := ReplayLog(Cursor(base, 0), log, Zero).dbs, ReplayLog(Cursor(base, 0), log, clock).dbs;
    ContentsHaveNoTtl(zero, x);
    StoredContents(x, ReplayLog(Cursor(other, 0), log, clock).dbs);
    ContentsTransitive(zero, x, ReplayLog(Cursor(other, 0), log, clock).dbs);
  }

  lemma {:induction false} ReplayKeepsShape(start: Cursor, log: seq<seq<string>>, clock: nat -> int)
    requires Sound(start) && AllShaped(start.dbs)
    ensures AllShaped(ReplayLog(start, log, clock).dbs)
  {
    if log != [] {
      ReplayKeepsShape(start, log[..|log| - 1], clock);
      ReplayOneKeepsShape(ReplayLog(start, log[..|log| - 1], clock), log[|log| - 1], clock(|log| - 1));
    }
  }

  lemma ReplayOneKeepsShape(c: Cursor, tokens: seq<string>, now: int)
    requires Sound(c) && AllShaped(c.dbs)
    ensures AllShaped(ReplayOne(c, tokens, now).dbs)
  {
    hide CommandName, Decode, Run, MoveKey, IndexBelow, WellShaped;
    RunKeepsShape(tokens, c.dbs[c.db], now);
    EmptyIsShaped();
    if |tokens| == 3 && IndexBelow(tokens[2], |c.dbs|).Some? {
      MoveKeepsShape(c.dbs[c.db], c.dbs[IndexBelow(tokens[2], |c.dbs|).value], tokens[1], now);
    }
  }

  // ----- the invariant -----------------------------------------------------------------------------------

  /** Whenever it is loaded, the snapshot gives well-shaped databases with these contents. */
  ghost predicate LoadsAs(snapshot: Option<string>, base: seq<Db>)
    requires base != []
  {
    forall loadAt: int ::
      var loaded := Load(snapshot, Emptied(|base|), loadAt);
      loaded.ok && AllShaped(loaded.dbs) && SameContents(base, loaded.dbs)
  }

  /** Replaying the log over `base` leads to the live contents and to the database that the
      next append compares with. */
  predicate LogLeadsTo(base: seq<Db>, log: seq<seq<string>>, dbs: seq<Db>, appendDb: nat)
    requires base != []
  {
    var c := ReplayLog(Cursor(base, 0), log, Zero);
    c.db == appendDb && SameContents(c.dbs, dbs)
  }

  /** The invariant of the protocol: the file holds exactly the commands of `log`, and the
      snapshot (the live databases, inside a checkpoint) is where the log starts. */
  ghost predicate Durable(s: System, base: seq<Db>, log: seq<seq<string>>) {
    && s.dbs != [] && |s.dbs| <= MAX_LL && |base| == |s.dbs|
    && AllShaped(s.dbs)
    && EncodableLog(log) && s.aof == EncodeLog(log)
    && Timeless(base, log)
    && LogLeadsTo(base, log, s.dbs, s.appendDb)
    && LoadsAs(s.snapshot, if s.phase == Idle then base else s.dbs)
  }

  lemma InitialIsDurable(n: nat)
    requires 0 < n <= MAX_LL
    ensures Durable(Initial(n), Emptied(n), [])
  {
    EmptiedNoTtl(n);
    ContentsReflexive(Emptied(n));
    EmptyIsShaped();
    hide SameContents;
    assert AllShaped(Emptied(n)) && EncodeLog([]) == "";
    forall loadAt ensures Load(None, Emptied(n), loadAt) == Loaded(true, Emptied(n)) {}
  }

  lemma DurableNoTtl(s: System, base: seq<Db>, log: seq<seq<string>>)
    requires Durable(s, base, log)
    ensures s.dbs != [] && AllNoTtl(s.dbs)
  {
    hide ReplayLog, Timeless, EncodeLog, LoadsAs;
    ContentsHaveNoTtl(ReplayLog(Cursor(base, 0), log, Zero).dbs, s.dbs);
  }

  /** With the lock free, the invariant means exact recovery. */
  lemma DurableRecovers(s: System, base: seq<Db>, log: seq<seq<string>>)
    requires Durable(s, base, log) && s.phase == Idle
    ensures RecoversExactly(s)
  {
    hide SameContents, Load, ReplayLog, ReplayFile, EncodeLog, Timeless, SameLive, AllShaped;
    forall loadAt: int, clock: nat -> int, t: int ensures RecoversAt(s, loadAt, clock, t) {
      RecoverIs(s, base, log, loadAt, clock);
      ContentsSameLive(Recover(s.snapshot, s.aof, |s.dbs|, loadAt, clock).dbs, s.dbs, t);
    }
  }

  lemma RecoverIs(s: System, base: seq<Db>, log: seq<seq<string>>, loadAt: int, clock: nat -> int)
    requires Durable(s, base, log) && s.phase == Idle
    ensures Recover(s.snapshot, s.aof, |s.dbs|, loadAt, clock).ok
    ensures SameContents(Recover(s.snapshot, s.aof, |s.dbs|, loadAt, clock).dbs, s.dbs)
    ensures AllShaped(Recover(s.snapshot, s.aof, |s.dbs|, loadAt, clock).dbs)
  {
    hide SameContents, Load, ReplayLog, ReplayFile, EncodeLog, Timeless, AllShaped;
    var loaded := Load(s.snapshot, Emptied(|base|), loadAt);
    ReplayFileIsReplayLog(log, loaded.dbs, clock);
    ReplayLogAgrees(base, loaded.dbs, log, clock);
    ReplayKeepsShape(Cursor(loaded.dbs, 0), log, clock);
    ContentsSymmetric(ReplayLog(Cursor(base, 0), log, Zero).dbs, ReplayLog(Cursor(loaded.dbs, 0), log, clock).dbs);
    ContentsTransitive(ReplayLog(Cursor(loaded.dbs, 0), log, clock).dbs,
                       ReplayLog(Cursor(base, 0), log, Zero).dbs, s.dbs);
  }

  lemma ContentsSymmetric(a: seq<Db>, b: seq<Db>)
    requires SameContents(a, b)
    ensures SameContents(b, a)
  {
  }

  // ----- steps --------------------------------------------------------------------------------------------

  /** What the protocol needs of a step: sizes that fit the files, no expiry time attached, no
      popped element that looks like an error, and restarts only over a log that ends in
      database 0, where `currentAppendDatabase_` starts. A restart inside a checkpoint replays
      the log over the databases it produced, which must not depend on when it runs. */
  ghost predicate Harmless(s: System, e: Event)
    requires Enabled(s, e)
  {
    match e
    case Command(db, tokens, now) =>
      && (IsAofLogged(tokens) ==> Encodable(tokens))
      && !AttachesTtl(s.dbs, db, tokens, now) && !PopsError(s.dbs, db, tokens, now)
    case ExpiryTick(_, _) => true
    case CheckpointSave(_) => FitsAll(s.dbs)
    case CheckpointTruncate => true
    case Restart(_, _) => s.appendDb == 0 && (s.phase == Saved ==> Timeless(s.dbs, CommandsIn(s.aof)))
  }

  /** A step that changes no contents and no file. */
  lemma QuietStep(s: System, dbs: seq<Db>, base: seq<Db>, log: seq<seq<string>>)
    requires Durable(s, base, log) && AllShaped(dbs) && SameContents(s.dbs, dbs)
    ensures Durable(s.(dbs := dbs), base, log)
  {
    ContentsHaveNoTtl(s.dbs, dbs);
    hide SameContents, ReplayLog, Timeless, EncodeLog, Load, AllShaped;
    ContentsTransitive(ReplayLog(Cursor(base, 0), log, Zero).dbs, s.dbs, dbs);
    if s.phase == Saved {
      ContentsSymmetric(s.dbs, dbs);
      forall loadAt: int
        ensures SameContents(dbs, Load(s.snapshot, Emptied(|dbs|), loadAt).dbs)
      {
        assert Load(s.snapshot, Emptied(|s.dbs|), loadAt).ok;
        ContentsTransitive(dbs, s.dbs, Load(s.snapshot, Emptied(|s.dbs|), loadAt).dbs);
      }
    }
  }

  lemma UnloggedStep(s: System, db: nat, tokens: seq<string>, now: int, base: seq<Db>, log: seq<seq<string>>)
    requires Durable(s, base, log) && db < |s.dbs|
    requires !AttachesTtl(s.dbs, db, tokens, now) && SameLive(Execute(s.dbs, db, tokens, now).dbs, s.dbs, now)
    ensures Durable(s.(dbs := Execute(s.dbs, db, tokens, now).dbs), base, log)
  {
    var dbs := Execute(s.dbs, db, tokens, now).dbs;
    hide SameContents, Execute, ReplayLog, Timeless, EncodeLog, AttachesTtl, SameLive, AllShaped;
    ContentsHaveNoTtl(ReplayLog(Cursor(base, 0), log, Zero).dbs, s.dbs);
    ExecuteKeepsNoTtl(s.dbs, db, tokens, now);
    ExecuteKeepsShape(s.dbs, db, tokens, now);
    LiveSameContents(dbs, s.dbs, now);
    ContentsSymmetric(dbs, s.dbs);
    QuietStep(s, dbs, base, log);
  }

  lemma TickStep(s: System, db: nat, now: int, base: seq<Db>, log: seq<seq<string>>)
    requires Durable(s, base, log) && db < |s.dbs|
    ensures Durable(s.(dbs := s.dbs[db := Purge(s.dbs[db], now)]), base, log)
  {
    hide ReplayLog, Timeless, EncodeLog;
    ContentsHaveNoTtl(ReplayLog(Cursor(base, 0), log, Zero).dbs, s.dbs);
    NothingToPurge(s.dbs[db], now);
    assert s.dbs[db := s.dbs[db]] == s.dbs;
  }

  lemma NothingToPurge(db: Db, now: int)
    requires NoTtl(db)
    ensures Purge(db, now) == db
  {
  }

  lemma SaveStep(s: System, now: int, base: seq<Db>, log: seq<seq<string>>)
    requires Durable(s, base, log) && s.phase == Idle && FitsAll(s.dbs)
    ensures Durable(s.(dbs := PurgeAll(s.dbs, now), snapshot := Some(SaveText(s.dbs, now)), phase := Saved), base, log)
  {
    hide ReplayLog, Timeless, EncodeLog, SaveText, Load, SameContents, AllShaped, FitsAll;
    ContentsHaveNoTtl(ReplayLog(Cursor(base, 0), log, Zero).dbs, s.dbs);
    forall k | 0 <= k < |s.dbs| ensures Purge(s.dbs[k], now) == s.dbs[k] { NothingToPurge(s.dbs[k], now); }
    assert PurgeAll(s.dbs, now) == s.dbs;
    SavedLoads(s.dbs, now);
  }

  lemma SavedLoads(dbs: seq<Db>, now: int)
    requires dbs != [] && AllShaped(dbs) && FitsAll(dbs) && AllNoTtl(dbs)
    ensures LoadsAs(Some(SaveText(dbs, now)), dbs)
  {
    hide SaveText, Load, FitsAll;
    forall loadAt: int
      ensures var loaded := Load(Some(SaveText(dbs, now)), Emptied(|dbs|), loadAt);
              loaded.ok && AllShaped(loaded.dbs) && SameContents(dbs, loaded.dbs)
    {
      SnapshotRoundTrip(dbs, Emptied(|dbs|), now, loadAt);
      RestoredContents(dbs, now, loadAt);
    }
  }

  lemma RestoredContents(dbs: seq<Db>, savedAt: int, loadedAt: int)
    requires AllShaped(dbs) && AllNoTtl(dbs)
    ensures AllShaped(RestoredAll(dbs, |dbs|, savedAt, loadedAt))
    ensures SameContents(dbs, RestoredAll(dbs, |dbs|, savedAt, loadedAt))
  {
    forall k | 0 <= k < |dbs|
      ensures WellShaped(RestoredAll(dbs, |dbs|, savedAt, loadedAt)[k])
      ensures NoTtl(RestoredAll(dbs, |dbs|, savedAt, loadedAt)[k])
      ensures Live(dbs[k], 0) == Live(RestoredAll(dbs, |dbs|, savedAt, loadedAt)[k], 0)
    {
      RestoredShape(dbs[k], savedAt, loadedAt);
    }
  }

  lemma TruncateStep(s: System, base: seq<Db>, log: seq<seq<string>>)
    requires Durable(s, base, log) && s.phase == Saved
    ensures Durable(s.(aof := "", appendDb := 0, phase := Idle), s.dbs, [])
  {
    ContentsHaveNoTtl(ReplayLog(Cursor(base, 0), log, Zero).dbs, s.dbs);
    ContentsReflexive(s.dbs);
    hide SameContents, Load, AllShaped, EncodeCommand;
  }

  lemma RestartStep(s: System, loadAt: int, clock: nat -> int, base: seq<Db>, log: seq<seq<string>>)
    requires Durable(s, base, log) && s.phase == Idle && s.appendDb == 0
    ensures Durable(s.(dbs := Recover(s.snapshot, s.aof, |s.dbs|, loadAt, clock).dbs), base, log)
  {
    hide SameContents, Recover, ReplayLog, Timeless, EncodeLog, AllShaped, LoadsAs;
    RecoverIs(s, base, log, loadAt, clock);
    ContentsSymmetric(Recover(s.snapshot, s.aof, |s.dbs|, loadAt, clock).dbs, s.dbs);
    QuietStep(s, Recover(s.snapshot, s.aof, |s.dbs|, loadAt, clock).dbs, base, log);
  }

  /** After a crash inside a checkpoint the new snapshot is where the old log starts. */
  lemma WindowRestartStep(s: System, loadAt: int, clock: nat -> int, base: seq<Db>, log: seq<seq<string>>)
    requires Durable(s, base, log) && s.phase == Saved && s.appendDb == 0 && Timeless(s.dbs, log)
    ensures Durable(Next(s, Restart(loadAt, clock)), s.dbs, log)
  {
    hide SameContents, Load, ReplayLog, ReplayFile, EncodeLog, Timeless, AllShaped;
    var loaded := Load(s.snapshot, Emptied(|s.dbs|), loadAt);
    ReplayFileIsReplayLog(log, loaded.dbs, clock);
    ReplayLogAgrees(s.dbs, loaded.dbs, log, clock);
    ReplayKeepsShape(Cursor(loaded.dbs, 0), log, clock);
    ReplayEndsAlike(Cursor(base, 0), Cursor(s.dbs, 0), log, Zero, Zero);
  }

  // ----- the step that matters: a logged command -------------------------------------------------------

  /** The log after `executeAndAppend` logged a command. */
  function Extended(log: seq<seq<string>>, appendDb: nat, db: nat, tokens: seq<string>): seq<seq<string>> {
    log + Records(appendDb, db, tokens)
  }

  lemma {:induction false} EncodeLogAppend(log: seq<seq<string>>, more: seq<seq<string>>)
    ensures EncodeLog(log + more) == EncodeLog(log) + EncodeLog(more)
    decreases |more|
  {
    hide EncodeCommand;
    if more == [] {
      assert log + more == log;
    } else {
      var front := more[..|more| - 1];
      EncodeLogAppend(log, front);
      assert (log + more)[..|log + more| - 1] == log + front;
      assert EncodeLog(log) + EncodeLog(front) + EncodeCommand(more[|front|]) == EncodeLog(log) + EncodeLog(more);
    }
  }

  lemma RecordsEncodable(appendDb: nat, db: nat, tokens: seq<string>)
    requires Encodable(tokens) && db < MAX_LL
    ensures EncodableLog(Records(appendDb, db, tokens))
  {
    hide Encodable;
    MarkerIsEncodable(db);
  }

  lemma AttachesTtlAgrees(a: seq<Db>, b: seq<Db>, i: nat, tokens: seq<string>, s: int, t: int)
    requires AgreeAll(a, b, s, t) && i < |a|
    ensures AttachesTtl(a, i, tokens, s) == AttachesTtl(b, i, tokens, t)
  {
    hide Agree, SetsTtl, CommandName, Decode;
    SetsTtlAgrees(Decode(tokens), a[i], b[i], s, t);
  }

  lemma ExecuteContents(a: seq<Db>, b: seq<Db>, i: nat, tokens: seq<string>, s: int, t: int)
    requires SameContents(a, b) && i < |a| && !AttachesTtl(a, i, tokens, s)
    ensures |b| == |a|
    ensures SameContents(Execute(a, i, tokens, s).dbs, Execute(b, i, tokens, t).dbs)
  {
    hide SameContents, AgreeAll, AllNoTtl, Execute, AttachesTtl;
    ContentsHaveNoTtl(a, b);
    ContentsAgree(a, b, s, t);
    AttachesTtlAgrees(a, b, i, tokens, s, t);
    ExecuteAgrees(a, b, i, tokens, s, t);
    ExecuteKeepsNoTtl(a, i, tokens, s);
    ExecuteKeepsNoTtl(b, i, tokens, t);
    AgreeingContents(Execute(a, i, tokens, s).dbs, Execute(b, i, tokens, t).dbs, s, t);
  }

  /** Appending a command that attaches no expiry time keeps the log timeless. */
  lemma TimelessExtended(base: seq<Db>, log: seq<seq<string>>, db: nat, tokens: seq<string>)
    requires base != [] && db < |base| <= MAX_LL && Timeless(base, log)
    requires IsAofLogged(tokens) && Accepted(tokens, |base|)
    requires !AttachesTtl(ReplayLog(Cursor(base, 0), log, Zero).dbs, db, tokens, 0)
    ensures Timeless(base, Extended(log, ReplayLog(Cursor(base, 0), log, Zero).db, db, tokens))
  {
    hide ReplayLog, SameContents, Execute, AttachesTtl, IsAofLogged, Accepted, Records;
    var start, c := Cursor(base, 0), ReplayLog(Cursor(base, 0), log, Zero);
    var more := Extended(log, c.db, db, tokens);
    ReplayRecords(start, log, db, tokens, Zero);
    forall clock: nat -> int ensures SameContents(ReplayLog(start, more, Zero).dbs, ReplayLog(start, more, clock).dbs) {
      ReplayEndsAlike(start, start, log, Zero, clock);
      ReplayRecords(start, log, db, tokens, clock);
      ExecuteContents(c.dbs, ReplayLog(start, log, clock).dbs, db, tokens, 0, clock(|more| - 1));
    }
  }

  lemma LoggedLogLeads(s: System, db: nat, tokens: seq<string>, now: int, base: seq<Db>, log: seq<seq<string>>)
    requires Durable(s, base, log) && db < |s.dbs| && IsAofLogged(tokens) && Accepted(tokens, |s.dbs|)
    requires !AttachesTtl(s.dbs, db, tokens, now)
    ensures LogLeadsTo(base, Extended(log, s.appendDb, db, tokens), Execute(s.dbs, db, tokens, now).dbs, db)
    ensures Timeless(base, Extended(log, s.appendDb, db, tokens))
  {
    hide ReplayLog, Timeless, EncodeLog, SameContents, Execute, AttachesTtl, IsAofLogged, Accepted, AllShaped, Records,
      LoadsAs, AgreeAll;
    var c := ReplayLog(Cursor(base, 0), log, Zero);
    ReplayRecords(Cursor(base, 0), log, db, tokens, Zero);
    ContentsAgree(c.dbs, s.dbs, 0, now);
    AttachesTtlAgrees(c.dbs, s.dbs, db, tokens, 0, now);
    TimelessExtended(base, log, db, tokens);
    ExecuteContents(c.dbs, s.dbs, db, tokens, 0, now);
  }

  lemma LoggedStep(s: System, db: nat, tokens: seq<string>, now: int, base: seq<Db>, log: seq<seq<string>>)
    requires Durable(s, base, log) && s.phase == Idle && db < |s.dbs|
    requires IsAofLogged(tokens) && Encodable(tokens) && !AttachesTtl(s.dbs, db, tokens, now)
    requires !IsError(Execute(s.dbs, db, tokens, now).reply)
    ensures Durable(ExecuteAndAppend(s, db, tokens, now), base, Extended(log, s.appendDb, db, tokens))
  {
    hide ReplayLog, Timeless, EncodeLog, SameContents, Execute, AttachesTtl, IsAofLogged, Accepted, AllShaped, LoadsAs,
      LogLeadsTo, Encodable, Records, IsError;
    SuccessIsAccepted(s.dbs, db, tokens, now);
    LoggedLogLeads(s, db, tokens, now, base, log);
    EncodeLogAppend(log, Records(s.appendDb, db, tokens));
    RecordsEncodable(s.appendDb, db, tokens);
    ExecuteKeepsShape(s.dbs, db, tokens, now);
  }

  /** Steps after which the log still starts where it did. */
  predicate KeepsBase(s: System, e: Event) {
    !e.CheckpointTruncate? && !(e.Restart? && s.phase == Saved)
  }

  /** Every step keeps the invariant. */
  lemma StepKeepsDurable(s: System, e: Event, base: seq<Db>, log: seq<seq<string>>)
    returns (base': seq<Db>, log': seq<seq<string>>)
    requires Durable(s, base, log) && Enabled(s, e) && Harmless(s, e)
    ensures Durable(Next(s, e), base', log')
    ensures e.CheckpointTruncate? ==> log' == []
    ensures e.Restart? && s.phase == Saved ==> base' == s.dbs
    ensures KeepsBase(s, e) ==>
              base' == base && (log' == log || (e.Command? && log' == Extended(log, s.appendDb, e.db, e.tokens)))
  {
    base', log' := base, log;
    match e {
      case Command(db, tokens, now) =>
        hide Durable, Execute, IsAofLogged, Encodable, AttachesTtl, PopsError, IsError;
        if IsAofLogged(tokens) && !IsError(Execute(s.dbs, db, tokens, now).reply) {
          LoggedStep(s, db, tokens, now, base, log);
          log' := Extended(log, s.appendDb, db, tokens);
        } else {
          if IsAofLogged(tokens) {
            FailedKeepsLive(s.dbs, db, tokens, now, now);
          } else {
            UnloggedKeepsLive(s.dbs, db, tokens, now, now);
          }
          UnloggedStep(s, db, tokens, now, base, log);
        }
      case ExpiryTick(db, now) => hide Durable; TickStep(s, db, now, base, log);
      case CheckpointSave(now) => hide Durable; SaveStep(s, now, base, log);
      case CheckpointTruncate =>
        hide Durable;
        TruncateStep(s, base, log);
        base', log' := s.dbs, [];
      case Restart(loadAt, clock) =>
        CommandsInLog(log);
        hide Durable;
        if s.phase == Saved {
          WindowRestartStep(s, loadAt, clock, base, log);
          base' := s.dbs;
        } else {
          RestartStep(s, loadAt, clock, base, log);
        }
    }
  }

  // ----- runs -------------------------------------------------------------------------------------------------

  /** `states` are the successive states of a run whose steps are possible and harmless. */
  ghost predicate Passes(run: seq<Event>, states: seq<System>) {
    && |states| == |run| + 1
    && forall j :: 0 <= j < |run| ==>
         Enabled(states[j], run[j]) && Harmless(states[j], run[j]) && states[j + 1] == Next(states[j], run[j])
  }

  lemma {:induction false} RunKeepsDurable(n: nat, run: seq<Event>, states: seq<System>, j: nat)
    returns (base: seq<Db>, log: seq<seq<string>>)
    requires 0 < n <= MAX_LL && Passes(run, states) && states[0] == Initial(n) && j < |states|
    ensures Durable(states[j], base, log)
    ensures j == 0 || run[j - 1].CheckpointTruncate? ==> log == []
    ensures j > 0 && run[j - 1].Restart? && states[j - 1].phase == Saved ==> base == states[j - 1].dbs
    decreases j
  {
    hide Durable, Enabled, Harmless, Next;
    if j == 0 {
      InitialIsDurable(n);
      base, log := Emptied(n), [];
    } else {
      base, log := RunKeepsDurable(n, run, states, j - 1);
      base, log := StepKeepsDurable(states[j - 1], run[j - 1], base, log);
    }
  }

  /** The recovery theorem. From empty databases and an empty log, after any interleaving of
      client commands in any databases, expiry ticks, checkpoint steps and restarts (also in
      the middle of a checkpoint), whenever the persistence lock is free the files on disk
      recover exactly the live contents. */
  lemma AlwaysRecoverable(n: nat, run: seq<Event>, states: seq<System>, j: nat)
    requires 0 < n <= MAX_LL && Passes(run, states) && states[0] == Initial(n)
    requires j < |states| && states[j].phase == Idle
    ensures states[j].dbs != [] && RecoversExactly(states[j])
  {
    hide RecoversExactly, Passes;
    var base, log := RunKeepsDurable(n, run, states, j);
    DurableRecovers(states[j], base, log);
  }

  // ----- torn logs ------------------------------------------------------------------------------------------

  /** A torn log: cut the file anywhere, and recovery replays a prefix of the records over the
      databases where the log starts. */
  lemma TornLogRecoversPrefix(s: System, base: seq<Db>, log: seq<seq<string>>, n: nat, loadAt: int, clock: nat -> int)
    requires Durable(s, base, log) && s.phase == Idle && n <= |s.aof|
    ensures WholeCommands(log, n) <= |log|
    ensures var r := Recover(s.snapshot, s.aof[..n], |s.dbs|, loadAt, clock);
            r.ok && AllSameStored(ReplayLog(Cursor(base, 0), log[..WholeCommands(log, n)], clock).dbs, r.dbs)
  {
    hide SameContents, Load, ReplayLog, ReplayFile, EncodeLog, Timeless, AllShaped, WholeCommands, AllSameStored;
    var loaded := Load(s.snapshot, Emptied(|base|), loadAt);
    TornFileReplaysPrefix(log, n, loaded.dbs, clock);
    ContentsStored(base, loaded.dbs);
    ReplayLogStored(Cursor(base, 0), Cursor(loaded.dbs, 0), log[..WholeCommands(log, n)], clock);
  }

  /** Replaying these records over `base`, at whatever times, gives the contents of a state from
      `c` to `j`. */
  ghost predicate WasLive(base: seq<Db>, records: seq<seq<string>>, states: seq<System>, c: nat, j: nat)
    requires base != [] && j < |states|
  {
    && Timeless(base, records)
    && exists i :: c <= i <= j && SameContents(ReplayLog(Cursor(base, 0), records, Zero).dbs, states[i].dbs)
  }

  ghost predicate AllWereLive(base: seq<Db>, log: seq<seq<string>>, states: seq<System>, c: nat, j: nat)
    requires base != [] && j < |states|
  {
    forall k :: 0 <= k <= |log| ==> WasLive(base, log[..k], states, c, j)
  }

  lemma WholeLogIsLive(base: seq<Db>, log: seq<seq<string>>, states: seq<System>, c: nat, j: nat)
    requires c <= j < |states| && Durable(states[j], base, log)
    ensures WasLive(base, log, states, c, j)
  {
    hide SameContents, ReplayLog, Timeless, EncodeLog, AllShaped, LoadsAs;
  }

  lemma WasLiveLater(base: seq<Db>, records: seq<seq<string>>, states: seq<System>, c: nat, j: nat)
    requires base != [] && j + 1 < |states| && WasLive(base, records, states, c, j)
    ensures WasLive(base, records, states, c, j + 1)
  {
    hide SameContents, ReplayLog, Timeless;
  }

  lemma MarkerChangesNothing(base: seq<Db>, log: seq<seq<string>>, db: nat, clock: nat -> int)
    requires 0 < |base| <= MAX_LL && db < |base|
    ensures ReplayLog(Cursor(base, 0), log + [Marker(db)], clock).dbs == ReplayLog(Cursor(base, 0), log, clock).dbs
  {
    hide ReplayLog, ReplayOne, Marker;
    ReplayLogSplit(Cursor(base, 0), log, [Marker(db)], clock);
    MarkerSelects(ReplayLog(Cursor(base, 0), log, clock), db, clock(|log|));
  }

  lemma MarkerWasLive(base: seq<Db>, log: seq<seq<string>>, db: nat, states: seq<System>, c: nat, j: nat)
    requires c <= j < |states| && 0 < |base| <= MAX_LL && db < |base| && WasLive(base, log, states, c, j)
    ensures WasLive(base, log + [Marker(db)], states, c, j)
  {
    hide SameContents, ReplayLog, Marker;
    forall clock: nat -> int
      ensures ReplayLog(Cursor(base, 0), log + [Marker(db)], clock).dbs == ReplayLog(Cursor(base, 0), log, clock).dbs
    {
      MarkerChangesNothing(base, log, db, clock);
    }
  }

  /** One more step: its records, if any, lead from the last state to the next. */
  lemma StepWasLive(base: seq<Db>, log: seq<seq<string>>, more: seq<seq<string>>, db: nat, tokens: seq<string>,
                    states: seq<System>, c: nat, j: nat)
    requires c <= j && j + 1 < |states| && Durable(states[j], base, log) && Durable(states[j + 1], base, more)
    requires more == log || (more == Extended(log, states[j].appendDb, db, tokens) && db < |base|)
    requires AllWereLive(base, log, states, c, j)
    ensures AllWereLive(base, more, states, c, j + 1)
  {
    assert 0 < |base| <= MAX_LL;
    hide Durable, WasLive, Marker, Extended;
    WholeLogIsLive(base, more, states, c, j + 1);
    assert log[..|log|] == log && more[..|more|] == more;
    forall k | 0 <= k <= |more| ensures WasLive(base, more[..k], states, c, j + 1) {
      if more != log { ExtendedPrefix(log, states[j].appendDb, db, tokens, k); }
      if k <= |log| {
        WasLiveLater(base, log[..k], states, c, j);
      } else if k < |more| {
        MarkerWasLive(base, log, db, states, c, j);
        WasLiveLater(base, log + [Marker(db)], states, c, j);
      }
    }
  }

  lemma ExtendedPrefix(log: seq<seq<string>>, appendDb: nat, db: nat, tokens: seq<string>, k: nat)
    requires k <= |Extended(log, appendDb, db, tokens)|
    ensures var more := Extended(log, appendDb, db, tokens);
            more[..k] == if k <= |log| then log[..k] else if k < |more| then log + [Marker(db)] else more
  {
    hide Marker;
  }

  /** The last step by `j` at which the log got a new start: the end of a checkpoint, or a restart
      inside one; 0 if there was none. */
  function BaseStep(run: seq<Event>, states: seq<System>, j: nat): (c: nat)
    requires |states| == |run| + 1 && j < |states|
    ensures c <= j && (c == 0 || !KeepsBase(states[c - 1], run[c - 1]))
    ensures forall i :: c <= i < j ==> KeepsBase(states[i], run[i])
  {
    if j == 0 || !KeepsBase(states[j - 1], run[j - 1]) then j else BaseStep(run, states, j - 1)
  }

  /** The log starts at the end of a checkpoint or at the start of the run. */
  predicate StartsClean(run: seq<Event>, c: nat)
    requires c <= |run|
  {
    c == 0 || run[c - 1].CheckpointTruncate?
  }

  lemma NewStartWasLive(n: nat, run: seq<Event>, states: seq<System>, j: nat)
    returns (base: seq<Db>, log: seq<seq<string>>)
    requires 0 < n <= MAX_LL && Passes(run, states) && states[0] == Initial(n) && j < |states|
    requires j == 0 || !KeepsBase(states[j - 1], run[j - 1])
    ensures Durable(states[j], base, log) && base != []
    ensures StartsClean(run, j) ==> AllWereLive(base, log, states, j, j)
    ensures !StartsClean(run, j) ==> base == states[j - 1].dbs
  {
    hide Durable, Harmless, Next, WasLive;
    base, log := RunKeepsDurable(n, run, states, j);
    DurableHasBase(states[j], base, log);
    if StartsClean(run, j) {
      WholeLogIsLive(base, log, states, j, j);
      assert log[..0] == log;
    }
  }

  /** Where the log starts at step `j`, and what its prefixes lead to. */
  lemma {:induction false} PrefixesWereLive(n: nat, run: seq<Event>, states: seq<System>, j: nat)
    returns (base: seq<Db>, log: seq<seq<string>>)
    requires 0 < n <= MAX_LL && Passes(run, states) && states[0] == Initial(n) && j < |states|
    ensures Durable(states[j], base, log) && base != []
    ensures var c := BaseStep(run, states, j);
            if StartsClean(run, c) then AllWereLive(base, log, states, c, j) else base == states[c - 1].dbs
    decreases j
  {
    hide Durable, Harmless, Next, AllWereLive;
    if j == 0 || !KeepsBase(states[j - 1], run[j - 1]) {
      base, log := NewStartWasLive(n, run, states, j);
    } else {
      var b, l := PrefixesWereLive(n, run, states, j - 1);
      var s, e, c := states[j - 1], run[j - 1], BaseStep(run, states, j);
      base, log := StepKeepsDurable(s, e, b, l);
      DurableHasBase(s, b, l);
      if StartsClean(run, c) {
        var db, tokens := if e.Command? then e.db else 0, if e.Command? then e.tokens else [];
        StepWasLive(base, l, log, db, tokens, states, c, j - 1);
      }
    }
  }

  lemma DurableHasBase(s: System, base: seq<Db>, log: seq<seq<string>>)
    requires Durable(s, base, log)
    ensures base != [] && |base| == |s.dbs| && CommandsIn(s.aof) == log
  {
    hide ReplayLog, Timeless, EncodeLog, LoadsAs, AllShaped, SameContents, CommandsIn;
    CommandsInLog(log);
  }

  lemma WasLiveAt(base: seq<Db>, records: seq<seq<string>>, states: seq<System>, c: nat, j: nat, clock: nat -> int,
                  dbs: seq<Db>) returns (i: nat)
    requires base != [] && j < |states| && WasLive(base, records, states, c, j)
    requires AllSameStored(ReplayLog(Cursor(base, 0), records, clock).dbs, dbs)
    ensures c <= i <= j && SameContents(dbs, states[i].dbs)
  {
    hide SameContents, ReplayLog, AllSameStored, AllNoTtl;
    var zero, x := ReplayLog(Cursor(base, 0), records, Zero).dbs, ReplayLog(Cursor(base, 0), records, clock).dbs;
    var at :| c <= at <= j && SameContents(zero, states[at].dbs);
    ContentsHaveNoTtl(zero, x);
    StoredContents(x, dbs);
    ContentsTransitive(zero, x, dbs);
    ContentsSymmetric(zero, dbs);
    ContentsTransitive(dbs, zero, states[at].dbs);
    i := at;
  }

  /** What is left of a torn log recovers an earlier state: the contents the server had at some
      moment from step `c` on. */
  ghost predicate RecoversEarlier(dbs: seq<Db>, states: seq<System>, c: nat) {
    exists i :: c <= i < |states| && SameContents(dbs, states[i].dbs)
  }

  /** It recovers a prefix of the commands in the log, executed over these databases. */
  ghost predicate RecoversPrefix(dbs: seq<Db>, base: seq<Db>, log: seq<seq<string>>, clock: nat -> int)
    requires base != []
  {
    exists k :: 0 <= k <= |log| && AllSameStored(ReplayLog(Cursor(base, 0), log[..k], clock).dbs, dbs)
  }

  /** Torn logs, over every run: cut the log anywhere. If it starts at the end of a checkpoint (or
      of the run's beginning), recovery gives the contents the server had at some moment of the
      run, no earlier than that. If a restart fell inside a checkpoint since then, it gives a
      prefix of the log executed over the databases that the checkpoint had saved. */
  lemma TornLogRecovers(n: nat, run: seq<Event>, states: seq<System>, cut: nat, loadAt: int, clock: nat -> int)
    requires 0 < n <= MAX_LL && Passes(run, states) && states[0] == Initial(n)
    requires states[|run|].phase == Idle && cut <= |states[|run|].aof|
    ensures states[|run|].dbs != []
    ensures var s, c := states[|run|], BaseStep(run, states, |run|);
            var r := Recover(s.snapshot, s.aof[..cut], |s.dbs|, loadAt, clock);
            && r.ok
            && (StartsClean(run, c) ==> RecoversEarlier(r.dbs, states, c))
            && (!StartsClean(run, c) ==>
                  states[c - 1].dbs != [] && RecoversPrefix(r.dbs, states[c - 1].dbs, CommandsIn(s.aof), clock))
  {
    var base, log := PrefixesWereLive(n, run, states, |run|);
    hide Durable, Passes, Recover, ReplayLog, WholeCommands, AllSameStored, WasLive, SameContents, CommandsIn;
    var s, c := states[|run|], BaseStep(run, states, |run|);
    DurableHasBase(s, base, log);
    TornLogRecoversPrefix(s, base, log, cut, loadAt, clock);
    var r := Recover(s.snapshot, s.aof[..cut], |s.dbs|, loadAt, clock);
    var records := log[..WholeCommands(log, cut)];
    if StartsClean(run, c) {
      var i := WasLiveAt(base, records, states, c, |run|, clock, r.dbs);
    }
  }
}
