/** Exactly when a crash inside a checkpoint is harmless, for any log: recovery replays the log a
    second time, over the databases it produced. */
module CrashLimits {
  import opened Text
  import opened RespCodec
  import opened Values
  import opened Memory
  import opened Operations
  import opened Agreement
  import opened Commands
  import opened Execution
  import opened Alike
  import opened Snapshot
  import opened Replay
  import opened Recovery

  // ----- logs that attach no expiry time ----------------------------------------------------------------

  /** No command of the log attaches an expiry time where replay runs it. */
  predicate TtlFree(base: seq<Db>, log: seq<seq<string>>)
    requires base != []
  {
    log == [] ||
    (TtlFree(base, log[..|log| - 1]) &&
     var c := ReplayLog(Cursor(base, 0), log[..|log| - 1], Zero);
     !AttachesTtl(c.dbs, c.db, log[|log| - 1], 0))
  }

  lemma ReplayOneAgrees(a: Cursor, b: Cursor, tokens: seq<string>, s: int, t: int)
    requires Sound(a) && Sound(b) && a.db == b.db && SameContents(a.dbs, b.dbs)
    requires !AttachesTtl(a.dbs, a.db, tokens, s)
    ensures ReplayOne(a, tokens, s).db == ReplayOne(b, tokens, t).db
    ensures SameContents(ReplayOne(a, tokens, s).dbs, ReplayOne(b, tokens, t).dbs)
  {
    hide CommandName, Decode, ExecuteInOne, MoveBetween, IndexBelow, SameContents, AgreeAll, SetsTtl;
    ContentsAgree(a.dbs, b.dbs, s, t);
    SameCount(a.dbs, b.dbs, s, t);
    assert AllNoTtl(a.dbs) && AllNoTtl(b.dbs) by { ContentsHaveNoTtl(a.dbs, b.dbs); }
    if tokens == [] || CommandName(tokens) == SELECT {
    } else if CommandName(tokens) == FLUSHALL {
      EmptiedNoTtl(|a.dbs|);
      ContentsReflexive(Emptied(|a.dbs|));
    } else if CommandName(tokens) == MOVE {
      if |tokens| == 3 && IndexBelow(tokens[2], |a.dbs|).Some? {
        var j := IndexBelow(tokens[2], |a.dbs|).value;
        MoveAgrees(a.dbs, b.dbs, a.db, tokens[1], j, s, t);
        MoveNoTtl(a.dbs, a.db, tokens[1], j, s);
        MoveNoTtl(b.dbs, a.db, tokens[1], j, t);
        AgreeingContents(MoveBetween(a.dbs, a.db, tokens[1], j, s).dbs,
                         MoveBetween(b.dbs, a.db, tokens[1], j, t).dbs, s, t);
      }
    } else {
      InOneContents(a.dbs, b.dbs, a.db, Decode(tokens), s, t);
    }
  }

  lemma InOneContents(a: seq<Db>, b: seq<Db>, i: nat, request: Request, s: int, t: int)
    requires SameContents(a, b) && i < |a| && !SetsTtl(request, a[i], s)
    ensures SameContents(ExecuteInOne(a, i, request, s).dbs, ExecuteInOne(b, i, request, t).dbs)
  {
    hide Run, SetsTtl, Agree, Live, NoTtl;
    ContentsAgree(a, b, s, t);
    SetsTtlAgrees(request, a[i], b[i], s, t);
    RequestKeepsNoTtl(request, a[i], s);
    RequestKeepsNoTtl(request, b[i], t);
    InOneAgrees(a, b, i, request, s, t);
    AgreeingContents(ExecuteInOne(a, i, request, s).dbs, ExecuteInOne(b, i, request, t).dbs, s, t);
  }

  /** If no command attaches an expiry time, the log is timeless. */
  lemma TtlFreeIsTimeless(base: seq<Db>, log: seq<seq<string>>)
    requires base != [] && AllNoTtl(base) && TtlFree(base, log)
    ensures Timeless(base, log)
  {
    hide ReplayLog, TtlFree, SameContents, AllNoTtl;
    forall clock: nat -> int
      ensures SameContents(ReplayLog(Cursor(base, 0), log, Zero).dbs, ReplayLog(Cursor(base, 0), log, clock).dbs)
    {
      TtlFreeReplays(base, log, clock);
    }
  }

  lemma {:induction false} TtlFreeReplays(base: seq<Db>, log: seq<seq<string>>, clock: nat -> int)
    requires base != [] && AllNoTtl(base) && TtlFree(base, log)
    ensures ReplayLog(Cursor(base, 0), log, Zero).db == ReplayLog(Cursor(base, 0), log, clock).db
    ensures SameContents(ReplayLog(Cursor(base, 0), log, Zero).dbs, ReplayLog(Cursor(base, 0), log, clock).dbs)
  {
    ContentsReflexive(base);
    hide SameContents, ReplayOne, AttachesTtl, AllNoTtl;
    if log != [] {
      var front := log[..|log| - 1];
      TtlFreeReplays(base, front, clock);
      ReplayOneAgrees(ReplayLog(Cursor(base, 0), front, Zero), ReplayLog(Cursor(base, 0), front, clock),
                      log[|log| - 1], 0, clock(|log| - 1));
    }
  }

  // ----- any log -------------------------------------------------------------------------------------

  /** Recovery inside the window: the log, replayed over the live databases. */
  lemma WindowRecoverIs(s: System, base: seq<Db>, log: seq<seq<string>>, loadAt: int, clock: nat -> int)
    requires Durable(s, base, log) && s.phase == Saved
    ensures var r := Recover(s.snapshot, s.aof, |s.dbs|, loadAt, clock);
            r.ok && AllSameStored(ReplayLog(Cursor(s.dbs, 0), log, clock).dbs, r.dbs)
  {
    hide SameContents, Load, ReplayLog, ReplayFile, EncodeLog, Timeless, AllShaped, AllSameStored;
    var loaded := Load(s.snapshot, Emptied(|s.dbs|), loadAt);
    ReplayFileIsReplayLog(log, loaded.dbs, clock);
    ContentsStored(s.dbs, loaded.dbs);
    ReplayLogStored(Cursor(s.dbs, 0), Cursor(loaded.dbs, 0), log, clock);
  }

  lemma WindowExactAt(s: System, base: seq<Db>, log: seq<seq<string>>, loadAt: int, clock: nat -> int, t: int)
    requires Durable(s, base, log) && s.phase == Saved
    ensures s.dbs != []
    ensures RecoversAt(s, loadAt, clock, t) <==> SameLive(ReplayLog(Cursor(s.dbs, 0), log, clock).dbs, s.dbs, t)
  {
    DurableHasBase(s, base, log);
    hide Durable, Recover, ReplayLog, Live, AllSameStored;
    WindowRecoverIs(s, base, log, loadAt, clock);
    var r := Recover(s.snapshot, s.aof, |s.dbs|, loadAt, clock).dbs;
    AllStoredLive(ReplayLog(Cursor(s.dbs, 0), log, clock).dbs, r, t);
  }

  /** Replaying the log over these databases, whenever a server stopped at `now` can do so,
      changes nothing a client can observe. */
  ghost predicate ReplayIsQuiet(dbs: seq<Db>, log: seq<seq<string>>, now: int)
    requires dbs != []
  {
    forall loadAt: int, clock: nat -> int, t: int :: Possible(now, loadAt, clock, t) ==>
      SameLive(ReplayLog(Cursor(dbs, 0), log, clock).dbs, dbs, t)
  }

  /** A crash between the rename of the snapshot and the truncation of the log is harmless if
      and only if replaying the log over the live databases changes nothing, for any log. */
  lemma WindowExactIff(s: System, base: seq<Db>, log: seq<seq<string>>, now: int)
    requires Durable(s, base, log) && s.phase == Saved
    ensures s.dbs != []
    ensures RecoversAfter(s, now) <==> ReplayIsQuiet(s.dbs, log, now)
  {
    DurableHasBase(s, base, log);
    hide Durable, RecoversAt, ReplayLog, SameLive, Possible;
    forall loadAt: int, clock: nat -> int, t: int
      ensures RecoversAt(s, loadAt, clock, t) <==> SameLive(ReplayLog(Cursor(s.dbs, 0), log, clock).dbs, s.dbs, t)
    {
      WindowExactAt(s, base, log, loadAt, clock, t);
    }
  }

  /** For a timeless log one replay, at any time, decides. */
  lemma TimelessWindowIff(s: System, base: seq<Db>, log: seq<seq<string>>, now: int)
    requires Durable(s, base, log) && s.phase == Saved && Timeless(s.dbs, log)
    ensures RecoversExactly(s) <==> SameContents(s.dbs, ReplayLog(Cursor(s.dbs, 0), log, Zero).dbs)
    ensures RecoversAfter(s, now) <==> SameContents(s.dbs, ReplayLog(Cursor(s.dbs, 0), log, Zero).dbs)
  {
    DurableNoTtl(s, base, log);
    hide Durable, SameContents, RecoversAt, ReplayLog, SameLive, AllNoTtl;
    var again := ReplayLog(Cursor(s.dbs, 0), log, Zero).dbs;
    if SameContents(s.dbs, again) {
      forall loadAt: int, clock: nat -> int, t: int ensures RecoversAt(s, loadAt, clock, t) {
        var x := ReplayLog(Cursor(s.dbs, 0), log, clock).dbs;
        ContentsTransitive(s.dbs, again, x);
        ContentsSymmetric(s.dbs, x);
        ContentsSameLive(x, s.dbs, t);
        WindowExactAt(s, base, log, loadAt, clock, t);
      }
    } else {
      var clock := (i: nat) => now;
      NotTheSame(s.dbs, again, ReplayLog(Cursor(s.dbs, 0), log, clock).dbs, now);
      WindowExactAt(s, base, log, now, clock, now);
      OneBadRestart(s, now, clock, now);
    }
  }

  lemma NotTheSame(live: seq<Db>, again: seq<Db>, recovered: seq<Db>, t: int)
    requires AllNoTtl(live) && !SameContents(live, again) && SameContents(again, recovered)
    ensures !SameLive(recovered, live, t)
  {
    ContentsHaveNoTtl(again, recovered);
    hide SameContents, SameLive, AllNoTtl;
    if SameLive(recovered, live, t) {
      LiveSameContents(recovered, live, t);
      ContentsSymmetric(recovered, live);
      ContentsSymmetric(again, recovered);
      ContentsTransitive(live, recovered, again);
      assert false;
    }
  }

  lemma NothingIsTimeless(dbs: seq<Db>)
    requires dbs != [] && AllNoTtl(dbs)
    ensures Timeless(dbs, [])
  {
    ContentsReflexive(dbs);
    hide SameContents;
  }

  // ----- the exact condition for a restart in the window ---------------------------------------------------

  /** Expiry times no earlier than `u`. */
  predicate LateEntry(e: Option<ValueObject>, u: int) {
    e.Some? ==> e.value.expiresAt == -1 || e.value.expiresAt >= u
  }

  predicate Late(db: Db, u: int) {
    forall k :: k in db ==> db[k].expiresAt == -1 || db[k].expiresAt >= u
  }

  lemma ApplyIsLate(op: KeyOp, key: string, cur: Option<ValueObject>, u: int)
    requires LateEntry(cur, u)
    ensures LateEntry(Apply(op, key, cur, u).entry, u)
  {
    hide Number, Line, Lines, FieldLines, WrongType, EstimateBytes, ParseInteger, Show, Wrap, NormalizeRange, Reversed,
      AsSet;
  }

  lemma SingleIsLate(db: Db, key: string, op: KeyOp, u: int)
    requires Late(db, u)
    ensures Late(RunSingle(db, key, op, u).db, u)
  {
    ApplyIsLate(op, key, Lookup(db, key, u), u);
    hide Apply;
  }

  lemma {:induction false} MGetIsLate(db: Db, keys: seq<string>, u: int)
    requires Late(db, u)
    ensures Late(RunMGet(db, keys, u).db, u)
  {
    hide RunSingle, Late;
    if keys != [] {
      MGetIsLate(db, keys[..|keys| - 1], u);
      SingleIsLate(RunMGet(db, keys[..|keys| - 1], u).db, keys[|keys| - 1], Get, u);
    }
  }

  lemma {:induction false} StoreAllIsLate(db: Db, entries: seq<(string, string)>, u: int)
    requires Late(db, u)
    ensures Late(StoreAll(db, entries, u), u)
  {
    if entries != [] { StoreAllIsLate(db, entries[..|entries| - 1], u); }
  }

  /** What runs at time `u` attaches no expiry time before `u`. */
  lemma RunIsLate(request: Request, db: Db, u: int)
    requires Late(db, u)
    ensures Late(Run(request, db, u).db, u)
  {
    hide RunSingle, RunMGet, StoreAll, Lines, Number, InfoText;
    match request {
      case Single(key, op) => SingleIsLate(db, key, op, u);
      case MGet(keys) => MGetIsLate(db, keys, u);
      case MSet(entries) => StoreAllIsLate(db, entries, u);
      case _ =>
    }
  }

  predicate AllLate(dbs: seq<Db>, u: int) {
    forall k :: 0 <= k < |dbs| ==> Late(dbs[k], u)
  }

  lemma ReplayOneIsLate(c: Cursor, tokens: seq<string>, u: int)
    requires Sound(c) && AllLate(c.dbs, u)
    ensures AllLate(ReplayOne(c, tokens, u).dbs, u)
  {
    hide CommandName, Decode, Run, IndexBelow;
    RunIsLate(Decode(tokens), c.dbs[c.db], u);
  }

  lemma {:induction false} ReplayIsLate(start: Cursor, log: seq<seq<string>>, clock: nat -> int, u: int)
    requires Sound(start) && AllLate(start.dbs, u) && Stopped(clock, u)
    ensures AllLate(ReplayLog(start, log, clock).dbs, u)
  {
    hide ReplayOne, AllLate;
    if log != [] {
      ReplayIsLate(start, log[..|log| - 1], clock, u);
      ReplayOneIsLate(ReplayLog(start, log[..|log| - 1], clock), log[|log| - 1], u);
    }
  }

  /** If replay stores the same contents at all times, they carry no expiry time: replayed late
      enough, the log would attach a later one. */
  lemma SteadyHasNoTtl(dbs: seq<Db>, log: seq<seq<string>>)
    requires dbs != [] && AllNoTtl(dbs)
    requires forall clock: nat -> int ::
               AllSameStored(ReplayLog(Cursor(dbs, 0), log, clock).dbs, ReplayLog(Cursor(dbs, 0), log, Zero).dbs)
    ensures AllNoTtl(ReplayLog(Cursor(dbs, 0), log, Zero).dbs)
  {
    hide ReplayLog;
    var z: seq<Db> := ReplayLog(Cursor(dbs, 0), log, Zero).dbs;
    forall d: nat, key: string | d < |z| && key in z[d] ensures z[d][key].expiresAt == -1 {
      var e := z[d][key].expiresAt;
      var u := if e < 0 then 0 else e + 1;
      var clock := (i: nat) => u;
      var x := ReplayLog(Cursor(dbs, 0), log, clock).dbs;
      ReplayIsLate(Cursor(dbs, 0), log, clock, u);
      assert AllSameStored(x, z);
      assert SameStored(x[d], z[d]) && key in x[d].Keys;
      assert ContentOf(x[d][key]) == ContentOf(z[d][key]);
    }
  }

  /** Databases that look the same at all times, and what they store. */
  lemma AllLiveStored(a: seq<Db>, b: seq<Db>)
    requires |a| == |b| && forall t :: SameLive(a, b, t)
    ensures AllSameStored(a, b)
  {
    hide Live, SameStored;
    forall k | 0 <= k < |a| ensures SameStored(a[k], b[k]) {
      forall t ensures Live(a[k], t) == Live(b[k], t) { assert SameLive(a, b, t); }
      LiveStored(a[k], b[k]);
    }
  }

  lemma StoredTransitive(a: seq<Db>, b: seq<Db>, c: seq<Db>)
    requires AllSameStored(a, b) && AllSameStored(b, c)
    ensures AllSameStored(a, c)
  {
    forall k | 0 <= k < |a| ensures SameStored(a[k], c[k]) {
      forall key | key in a[k] ensures ContentOf(a[k][key]) == ContentOf(c[k][key]) { assert key in a[k].Keys; }
    }
  }

  lemma StoredSymmetric(a: seq<Db>, b: seq<Db>)
    requires AllSameStored(a, b)
    ensures AllSameStored(b, a)
  {
    forall k | 0 <= k < |a| ensures SameStored(b[k], a[k]) {
      forall key | key in b[k] ensures ContentOf(b[k][key]) == ContentOf(a[k][key]) { assert key in b[k].Keys; }
    }
  }

  /** After a restart at time zero that the disk recovers exactly, any replay stores what it did. */
  lemma ExactRestartIsSteady(s: System, base: seq<Db>, log: seq<seq<string>>, clock: nat -> int)
    requires Durable(s, base, log) && s.phase == Saved
    requires s.dbs != [] && RecoversExactly(Next(s, Restart(0, Zero)))
    ensures AllSameStored(ReplayLog(Cursor(s.dbs, 0), log, clock).dbs, ReplayLog(Cursor(s.dbs, 0), log, Zero).dbs)
  {
    hide Durable, Recover, ReplayLog, AllSameStored, SameLive;
    var s1 := Next(s, Restart(0, Zero));
    WindowRecoverIs(s, base, log, 0, Zero);
    WindowRecoverIs(s, base, log, 0, clock);
    var z, x := ReplayLog(Cursor(s.dbs, 0), log, Zero).dbs, ReplayLog(Cursor(s.dbs, 0), log, clock).dbs;
    var r := Recover(s.snapshot, s.aof, |s.dbs|, 0, clock).dbs;
    forall t ensures SameLive(r, s1.dbs, t) { assert RecoversAt(s1, 0, clock, t); }
    AllLiveStored(r, s1.dbs);
    StoredTransitive(x, r, s1.dbs);
    StoredSymmetric(z, s1.dbs);
    StoredTransitive(x, s1.dbs, z);
  }

  /** A restart in the window can be recovered from at whatever times if and only if replaying the
      log over the live databases is timeless. */
  lemma WindowRestartIff(s: System, base: seq<Db>, log: seq<seq<string>>)
    requires Durable(s, base, log) && s.phase == Saved && s.appendDb == 0
    ensures s.dbs != []
    ensures Timeless(s.dbs, log) <==>
              forall loadAt: int, clock: nat -> int :: RecoversExactly(Next(s, Restart(loadAt, clock)))
  {
    DurableNoTtl(s, base, log);
    hide Durable, RecoversExactly, ReplayLog, AllSameStored, SameContents, AllNoTtl;
    if Timeless(s.dbs, log) {
      forall loadAt: int, clock: nat -> int ensures RecoversExactly(Next(s, Restart(loadAt, clock))) {
        WindowRestartStep(s, loadAt, clock, base, log);
        DurableRecovers(Next(s, Restart(loadAt, clock)), s.dbs, log);
      }
    } else if forall loadAt: int, clock: nat -> int :: RecoversExactly(Next(s, Restart(loadAt, clock))) {
      SteadyIsTimeless(s, base, log);
      assert false;
    }
  }

  lemma SteadyIsTimeless(s: System, base: seq<Db>, log: seq<seq<string>>)
    requires Durable(s, base, log) && s.phase == Saved
    requires s.dbs != [] && RecoversExactly(Next(s, Restart(0, Zero)))
    ensures Timeless(s.dbs, log)
  {
    DurableNoTtl(s, base, log);
    hide Durable, RecoversExactly, ReplayLog, AllSameStored, SameContents, AllNoTtl;
    var z := ReplayLog(Cursor(s.dbs, 0), log, Zero).dbs;
    forall clock: nat -> int ensures AllSameStored(ReplayLog(Cursor(s.dbs, 0), log, clock).dbs, z) {
      ExactRestartIsSteady(s, base, log, clock);
    }
    SteadyHasNoTtl(s.dbs, log);
    forall clock: nat -> int ensures SameContents(z, ReplayLog(Cursor(s.dbs, 0), log, clock).dbs) {
      StoredSymmetric(ReplayLog(Cursor(s.dbs, 0), log, clock).dbs, z);
      StoredContents(z, ReplayLog(Cursor(s.dbs, 0), log, clock).dbs);
    }
  }
}
