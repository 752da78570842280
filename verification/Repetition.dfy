/** One command since the last checkpoint and a crash inside the next one: everything depends on
    whether the command changes its own result when it is executed again. */
module Repetition {
  import opened Text
  import opened RespCodec
  import opened Values
  import opened Operations
  import opened Agreement
  import opened Commands
  import opened Shape
  import opened Execution
  import opened Snapshot
  import opened Replay
  import opened Recovery
  import opened CrashWindow
  import opened CrashLimits
  import opened Counter

  // ----- one command, executed again on its own result ----------------------------------------------------

  /** Operations that change their own result: INCR and DECR, APPEND of something, pushes, and
      a pop that leaves something to pop. */
  predicate OpAccumulates(op: KeyOp, cur: Option<ValueObject>) {
    match op
    case IncrBy(_) => true
    case Append(suffix) => suffix != ""
    case LPush(_) => true
    case RPush(_) => true
    case LPop => cur.Some? && cur.value.kind == ListType && |cur.value.list| > 1
    case RPop => cur.Some? && cur.value.kind == ListType && |cur.value.list| > 1
    case _ => false
  }

  predicate Accumulates(dbs: seq<Db>, i: nat, tokens: seq<string>, now: int)
    requires i < |dbs|
  {
    && RunsInOne(tokens) && Decode(tokens).Single?
    && OpAccumulates(Decode(tokens).op, Lookup(dbs[i], Decode(tokens).key, now))
  }

  /** What decoding guarantees about arguments. */
  predicate Sensible(op: KeyOp) {
    && NonEmptyArguments(op) && (op.IncrBy? ==> op.delta == 1 || op.delta == -1)
  }

  lemma DecodesSensibly(tokens: seq<string>)
    ensures Decode(tokens).Single? ==> Sensible(Decode(tokens).op)
  {
    DecodeGivesArguments(tokens);
    hide CommandName, ParseInteger, ToUpper, NonEmptyArguments;
  }

  /** The second execution leaves what the first one left. */
  predicate Repeatable(op: KeyOp, key: string, cur: Option<ValueObject>, s: int, t: int) {
    var once := Apply(op, key, cur, s).entry;
    SameEntry(once, Apply(op, key, once, t).entry)
  }

  lemma WrapIsRepresentable(n: int)
    ensures Representable(Wrap(n))
  {
  }

  lemma WrapMoves(n: int, delta: int)
    requires Representable(n) && (delta == 1 || delta == -1)
    ensures Wrap(n + delta) != n
  {
  }

  lemma CountedText(cur: Option<ValueObject>, delta: int, now: int) returns (n: int)
    requires !IsError(IncrAt(cur, delta, now).reply)
    ensures Representable(n) && IncrAt(cur, delta, now).entry.Some?
    ensures var e := IncrAt(cur, delta, now).entry.value; e.kind == StringType && e.value == Show(n)
  {
    hide Show, ParseInteger, Wrap, Representable;
    n := if cur.None? then Wrap(delta) else Wrap(ParseInteger(cur.value.value).value + delta);
    WrapIsRepresentable(if cur.None? then delta else ParseInteger(cur.value.value).value + delta);
  }

  lemma CountedAgain(e: ValueObject, n: int, delta: int, now: int)
    requires e.kind == StringType && e.value == Show(n) && Representable(n)
    ensures IncrAt(Some(e), delta, now).entry.Some?
    ensures IncrAt(Some(e), delta, now).entry.value.value == Show(Wrap(n + delta))
  {
    StollShow(n);
    hide Show, ParseInteger, Wrap, Number, Representable;
  }

  lemma ShowIsInjective(m: int, k: int)
    requires Representable(m) && Representable(k) && m != k
    ensures Show(m) != Show(k)
  {
    StollShow(m);
    StollShow(k);
    hide Show, ParseInteger, Stoll;
  }

  lemma CountingIsNotRepeatable(op: KeyOp, key: string, cur: Option<ValueObject>, s: int, t: int)
    requires op.IncrBy? && Sensible(op) && !IsError(Apply(op, key, cur, s).reply)
    ensures !Repeatable(op, key, cur, s, t)
  {
    hide Show, Wrap, IncrAt, IsError, Representable;
    var n := CountedText(cur, op.delta, s);
    CountedAgain(IncrAt(cur, op.delta, s).entry.value, n, op.delta, t);
    WrapMoves(n, op.delta);
    WrapIsRepresentable(n + op.delta);
    ShowIsInjective(n, Wrap(n + op.delta));
  }

  lemma StringOpRepeats(op: KeyOp, key: string, cur: Option<ValueObject>, s: int, t: int)
    requires op.Set? || op.Expire? || op.Persist? || op.Append?
    requires EntryNoTtl(cur) && !OpSetsTtl(op, cur) && !IsError(Apply(op, key, cur, s).reply)
    ensures Repeatable(op, key, cur, s, t) <==> !OpAccumulates(op, cur)
  {
    hide Number;
  }

  lemma ListOpRepeats(op: KeyOp, key: string, cur: Option<ValueObject>, s: int, t: int)
    requires op.LPush? || op.RPush? || op.LPop? || op.RPop?
    requires Sensible(op) && !IsError(Apply(op, key, cur, s).reply)
    ensures Repeatable(op, key, cur, s, t) <==> !OpAccumulates(op, cur)
  {
    hide Number, Line, Reversed;
  }

  lemma HashOpRepeats(op: KeyOp, key: string, cur: Option<ValueObject>, s: int, t: int)
    requires op.HSet? || op.HDel?
    ensures Repeatable(op, key, cur, s, t)
  {
    hide WrongType;
  }

  lemma AddRepeats(op: KeyOp, key: string, cur: Option<ValueObject>, s: int, t: int)
    requires op.SAdd?
    ensures Repeatable(op, key, cur, s, t)
  {
    hide Number, AsSet, WrongType;
  }

  lemma RemoveRepeats(op: KeyOp, key: string, cur: Option<ValueObject>, s: int, t: int)
    requires op.SRem?
    ensures Repeatable(op, key, cur, s, t)
  {
    hide Number, AsSet, WrongType;
  }

  /** A logged operation can be executed twice if and only if it does not accumulate. */
  lemma ApplyRepeats(op: KeyOp, key: string, cur: Option<ValueObject>, s: int, t: int)
    requires Sensible(op) && EntryNoTtl(cur) && !OpSetsTtl(op, cur) && !IsError(Apply(op, key, cur, s).reply)
    ensures Repeatable(op, key, cur, s, t) <==> !OpAccumulates(op, cur)
  {
    if ReadsKey(op) {
      hide Apply;
      ReadKeepsEntry(op, key, cur, s);
      ReadKeepsEntry(op, key, Apply(op, key, cur, s).entry, t);
    } else {
      hide Apply, Repeatable, IsError, Sensible;
      if op.IncrBy? {
        CountingIsNotRepeatable(op, key, cur, s, t);
      } else if op.LPush? || op.RPush? || op.LPop? || op.RPop? {
        ListOpRepeats(op, key, cur, s, t);
      } else if op.HSet? || op.HDel? {
        HashOpRepeats(op, key, cur, s, t);
      } else if op.SAdd? {
        AddRepeats(op, key, cur, s, t);
      } else if op.SRem? {
        RemoveRepeats(op, key, cur, s, t);
      } else {
        StringOpRepeats(op, key, cur, s, t);
      }
    }
  }

  lemma SingleRepeats(db: Db, key: string, op: KeyOp, s: int, t: int)
    requires NoTtl(db) && Sensible(op) && !OpSetsTtl(op, Lookup(db, key, s))
    requires !IsError(RunSingle(db, key, op, s).reply)
    ensures var once := RunSingle(db, key, op, s).db;
            Live(RunSingle(once, key, op, t).db, 0) == Live(once, 0) <==> !OpAccumulates(op, Lookup(db, key, s))
  {
    var cur := Lookup(db, key, s);
    ApplyRepeats(op, key, cur, s, t);
    ApplyNoTtl(op, key, cur, s);
    hide Apply, OpAccumulates, OpSetsTtl, Sensible, IsError;
    var entry := Apply(op, key, cur, s).entry;
    var once := Store(db, key, entry);
    assert Lookup(once, key, t) == entry;
    OpStillSetsNoTtl(op, key, cur, s);
    ApplyNoTtl(op, key, entry, t);
    StoreTwice(db, key, entry, Apply(op, key, entry, t).entry);
  }

  lemma OpStillSetsNoTtl(op: KeyOp, key: string, cur: Option<ValueObject>, now: int)
    requires !OpSetsTtl(op, cur)
    ensures !OpSetsTtl(op, Apply(op, key, cur, now).entry)
  {
  }

  lemma StoreTwice(db: Db, key: string, x: Option<ValueObject>, y: Option<ValueObject>)
    requires EntryNoTtl(x) && EntryNoTtl(y)
    ensures Live(Store(Store(db, key, x), key, y), 0) == Live(Store(db, key, x), 0) <==> SameEntry(x, y)
  {
    hide Live, Store;
    var once := Store(db, key, x);
    LiveOfStore(db, key, x, 0);
    LiveOfStore(once, key, y, 0);
    var one, two := Live(once, 0), Live(Store(once, key, y), 0);
    assert key in one <==> x.Some?;
    assert key in two <==> y.Some?;
    if SameEntry(x, y) {
      assert forall k :: k in two <==> k in one;
      assert forall k :: k in one ==> two[k] == one[k];
    } else if x.Some? && y.Some? {
      assert one[key] != two[key];
    }
  }

  lemma OverwritingRepeats(request: Request, db: Db, s: int, t: int)
    requires OverwritingRequest(request) && NoTtl(Run(request, db, s).db)
    ensures Live(Run(request, Run(request, db, s).db, t).db, 0) == Live(Run(request, db, s).db, 0)
  {
    hide Run, OverwritingRequest, NoTtl;
    var once := Run(request, db, s).db;
    forall k ensures ValueIn(once, k) == ValueIn(Run(request, once, t).db, k) {
      RequestSettles(request, db, once, s, t, k);
    }
    SameValuesInOne(once, Run(request, once, t).db);
  }

  lemma RenameRepeats(db: Db, source: string, destination: string, s: int, t: int)
    requires NoTtl(db)
    ensures var once := RunRename(db, source, destination, s).db;
            Live(RunRename(once, source, destination, t).db, 0) == Live(once, 0)
  {
  }

  /** A request can be run twice if and only if it is no operation that accumulates. */
  lemma RequestRepeats(request: Request, db: Db, s: int, t: int)
    requires NoTtl(db) && !SetsTtl(request, db, s) && !IsError(Run(request, db, s).reply)
    requires request.Single? ==> Sensible(request.op)
    ensures var once := Run(request, db, s).db;
            Live(Run(request, once, t).db, 0) == Live(once, 0) <==>
              !(request.Single? && OpAccumulates(request.op, Lookup(db, request.key, s)))
  {
    RequestKeepsNoTtl(request, db, s);
    if request.Single? {
      hide OpAccumulates, RunSingle, OpSetsTtl, Sensible, IsError, NoTtl, Lookup, Live;
      SingleRepeats(db, request.key, request.op, s, t);
    } else if request.Rename? {
      hide RunRename, Live;
      RenameRepeats(db, request.source, request.destination, s, t);
    } else {
      hide Run, Live, NoTtl, IsError, SetsTtl;
      var once := Run(request, db, s).db;
      if OverwritingRequest(request) {
        OverwritingRepeats(request, db, s, t);
      } else {
        ReadsKeepLive(request, once, t, t);
        RequestKeepsNoTtl(request, once, t);
        LiveWithoutTtl(once, t, 0);
        LiveWithoutTtl(Run(request, once, t).db, t, 0);
      }
    }
  }

  lemma MoveRepeats(dbs: seq<Db>, i: nat, key: string, j: nat, s: int, t: int)
    requires i < |dbs| && j < |dbs| && AllNoTtl(dbs)
    ensures var once := MoveBetween(dbs, i, key, j, s).dbs;
            SameContents(once, MoveBetween(once, i, key, j, t).dbs)
  {
    MoveNoTtl(dbs, i, key, j, s);
    var once := MoveBetween(dbs, i, key, j, s).dbs;
    MoveNoTtl(once, i, key, j, t);
    if i != j {
      var m := MoveKey(dbs[i], dbs[j], key, s);
      var m' := MoveKey(m.source, m.destination, key, t);
      assert once[i] == m.source && once[j] == m.destination;
      assert m'.source == m.source && m'.destination == m.destination;
      assert MoveBetween(once, i, key, j, t).dbs == once;
    }
    ContentsReflexive(once);
  }

  /** Replayed over its own result, a command changes the contents if and only if it
      accumulates. */
  lemma ExecuteRepeats(dbs: seq<Db>, i: nat, tokens: seq<string>, s: int, t: int)
    requires i < |dbs| && AllNoTtl(dbs) && !AttachesTtl(dbs, i, tokens, s) && !IsError(Execute(dbs, i, tokens, s).reply)
    ensures var once := Execute(dbs, i, tokens, s).dbs;
            && !AttachesTtl(once, i, tokens, t)
            && (SameContents(once, Execute(once, i, tokens, t).dbs) <==> !Accumulates(dbs, i, tokens, s))
  {
    hide CommandName, Decode, ExecuteMove, ExecuteFlushAll, ExecuteInOne, IsError, OpAccumulates, SetsTtl, Sensible,
      SameContents, Lookup, AllNoTtl;
    if CommandName(tokens) == MOVE {
      MoveCommandRepeats(dbs, i, tokens, s, t);
    } else if CommandName(tokens) == FLUSHALL {
      FlushAllRepeats(dbs, tokens);
    } else {
      DecodesSensibly(tokens);
      InOneRepeats(dbs, i, Decode(tokens), s, t);
    }
  }

  lemma MoveCommandRepeats(dbs: seq<Db>, i: nat, tokens: seq<string>, s: int, t: int)
    requires i < |dbs| && AllNoTtl(dbs)
    ensures var once := ExecuteMove(dbs, i, tokens, s).dbs;
            SameContents(once, ExecuteMove(once, i, tokens, t).dbs)
  {
    ContentsReflexive(dbs);
    hide MoveBetween, DatabaseIndex, SameContents, AllNoTtl;
    if |tokens| == 3 && DatabaseIndex(tokens[2], |dbs|).Some? {
      MoveRepeats(dbs, i, tokens[1], DatabaseIndex(tokens[2], |dbs|).value, s, t);
    }
  }

  lemma FlushAllRepeats(dbs: seq<Db>, tokens: seq<string>)
    requires AllNoTtl(dbs)
    ensures var once := ExecuteFlushAll(dbs, tokens).dbs;
            SameContents(once, ExecuteFlushAll(once, tokens).dbs)
  {
    ContentsReflexive(dbs);
    EmptiedNoTtl(|dbs|);
    ContentsReflexive(Emptied(|dbs|));
  }

  lemma InOneRepeats(dbs: seq<Db>, i: nat, request: Request, s: int, t: int)
    requires i < |dbs| && AllNoTtl(dbs) && !SetsTtl(request, dbs[i], s)
    requires !IsError(ExecuteInOne(dbs, i, request, s).reply) && (request.Single? ==> Sensible(request.op))
    ensures var once := ExecuteInOne(dbs, i, request, s).dbs;
            && !SetsTtl(request, once[i], t)
            && (SameContents(once, ExecuteInOne(once, i, request, t).dbs) <==>
                  !(request.Single? && OpAccumulates(request.op, Lookup(dbs[i], request.key, s))))
  {
    hide Run, IsError, Live, OpAccumulates, SetsTtl, NoTtl, Sensible;
    RequestRepeats(request, dbs[i], s, t);
    RequestStillSetsNoTtl(request, dbs[i], s, t);
    RequestKeepsNoTtl(request, dbs[i], s);
    var once := ExecuteInOne(dbs, i, request, s).dbs;
    RequestKeepsNoTtl(request, once[i], t);
    assert SameContents(once, ExecuteInOne(once, i, request, t).dbs) <==>
           Live(Run(request, once[i], t).db, 0) == Live(once[i], 0);
  }

  lemma RequestStillSetsNoTtl(request: Request, db: Db, s: int, t: int)
    requires NoTtl(db) && !SetsTtl(request, db, s)
    ensures !SetsTtl(request, Run(request, db, s).db, t)
  {
    if request.Single? {
      OpStillSetsNoTtl(request.op, request.key, Lookup(db, request.key, s), s);
      ApplyNoTtl(request.op, request.key, Lookup(db, request.key, s), s);
      hide Apply, OpSetsTtl;
    }
  }

  /** A command executed and logged right after a checkpoint, and the next checkpoint begun. */
  function SavedAfter(s: System, db: nat, tokens: seq<string>, now: int, savedAt: int): System
    requires db < |s.dbs| && s.phase == Idle
  {
    Next(Next(s, Event.Command(db, tokens, now)), CheckpointSave(savedAt))
  }

  /** What the protocol needs of that command, and that it succeeds. */
  predicate Logs(s: System, db: nat, tokens: seq<string>, now: int) {
    && s.phase == Idle && db < |s.dbs| && IsAofLogged(tokens) && Encodable(tokens)
    && !AttachesTtl(s.dbs, db, tokens, now) && !IsError(Execute(s.dbs, db, tokens, now).reply)
  }

  lemma SavedAfterStep(s: System, base: seq<Db>, db: nat, tokens: seq<string>, now: int, savedAt: int)
    requires Durable(s, base, []) && Logs(s, db, tokens, now) && FitsAll(Execute(s.dbs, db, tokens, now).dbs)
    requires s.appendDb == 0
    ensures var s2 := SavedAfter(s, db, tokens, now, savedAt);
            && s2.dbs == Execute(s.dbs, db, tokens, now).dbs && s2.phase == Saved
            && Durable(s2, base, Extended([], 0, db, tokens))
  {
    hide Durable, IsAofLogged, Encodable, AttachesTtl, IsError, FitsAll, Execute, SaveText, Records, AllNoTtl, Extended;
    LoggedStep(s, db, tokens, now, base, []);
    CheckpointBegins(Next(s, Event.Command(db, tokens, now)), base, Extended([], 0, db, tokens), savedAt);
  }

  /** Recovery from there executes the command again, on its own result. */
  lemma SavedAfterIs(s: System, base: seq<Db>, db: nat, tokens: seq<string>, now: int, savedAt: int)
    requires Durable(s, base, []) && Logs(s, db, tokens, now) && FitsAll(Execute(s.dbs, db, tokens, now).dbs)
    ensures var s2, log := SavedAfter(s, db, tokens, now, savedAt), Extended([], 0, db, tokens);
            && s2.dbs == Execute(s.dbs, db, tokens, now).dbs && s2.phase == Saved && s2.dbs != []
            && Durable(s2, base, log) && Timeless(s2.dbs, log)
            && ReplayLog(Cursor(s2.dbs, 0), log, Zero).dbs == Execute(s2.dbs, db, tokens, 0).dbs
  {
    DurableNoTtl(s, base, []);
    StartsAtZero(s, base);
    hide Durable, IsAofLogged, Encodable, AttachesTtl, IsError, FitsAll, Execute, SameContents, ReplayLog, Timeless,
      Records, Accumulates, AllNoTtl, Accepted, Extended, Next;
    SavedAfterStep(s, base, db, tokens, now, savedAt);
    ExecuteRepeats(s.dbs, db, tokens, now, 0);
    SuccessIsAccepted(s.dbs, db, tokens, now);
    AgainOverItself(Execute(s.dbs, db, tokens, now).dbs, db, tokens);
  }

  /** One command after a checkpoint, then a crash inside the next one: harmless if and only if
      the command does not accumulate. */
  lemma OneCommandWindow(s: System, base: seq<Db>, db: nat, tokens: seq<string>, now: int, savedAt: int)
    requires Durable(s, base, []) && Logs(s, db, tokens, now) && FitsAll(Execute(s.dbs, db, tokens, now).dbs)
    ensures SavedAfter(s, db, tokens, now, savedAt).dbs != []
    ensures RecoversAfter(SavedAfter(s, db, tokens, now, savedAt), savedAt) <==> !Accumulates(s.dbs, db, tokens, now)
  {
    SavedAfterIs(s, base, db, tokens, now, savedAt);
    DurableNoTtl(s, base, []);
    hide Durable, IsAofLogged, Encodable, AttachesTtl, IsError, FitsAll, Execute, SavedAfter, SameContents, ReplayLog,
      Timeless, RecoversAfter, Accumulates, AllNoTtl, Extended;
    ExecuteRepeats(s.dbs, db, tokens, now, 0);
    TimelessWindowIff(SavedAfter(s, db, tokens, now, savedAt), base, Extended([], 0, db, tokens), savedAt);
  }

  lemma StartsAtZero(s: System, base: seq<Db>)
    requires Durable(s, base, [])
    ensures s.appendDb == 0 && |s.dbs| <= MAX_LL
  {
  }

  lemma PurgeAllKeeps(dbs: seq<Db>, now: int)
    requires AllNoTtl(dbs)
    ensures PurgeAll(dbs, now) == dbs
  {
    forall k | 0 <= k < |dbs| ensures Purge(dbs[k], now) == dbs[k] { NothingToPurge(dbs[k], now); }
  }

  /** The records of one command, replayed over the databases it left. */
  lemma AgainOverItself(dbs: seq<Db>, db: nat, tokens: seq<string>)
    requires |dbs| <= MAX_LL && db < |dbs| && IsAofLogged(tokens) && Accepted(tokens, |dbs|)
    requires AllNoTtl(dbs) && !AttachesTtl(dbs, db, tokens, 0)
    ensures var log := Extended([], 0, db, tokens);
            && Timeless(dbs, log)
            && ReplayLog(Cursor(dbs, 0), log, Zero).dbs == Execute(dbs, db, tokens, 0).dbs
  {
    NothingIsTimeless(dbs);
    ReplayOfNothing(Cursor(dbs, 0), Zero);
    hide IsAofLogged, Accepted, AttachesTtl, Execute, ReplayLog, Records, Timeless;
    ReplayRecords(Cursor(dbs, 0), [], db, tokens, Zero);
    TimelessExtended(dbs, [], db, tokens);
  }

  lemma CheckpointBegins(s: System, base: seq<Db>, log: seq<seq<string>>, now: int)
    requires Durable(s, base, log) && s.phase == Idle && FitsAll(s.dbs)
    ensures var e := CheckpointSave(now);
            && Enabled(s, e) && Harmless(s, e) && Durable(Next(s, e), base, log)
            && Next(s, e) == s.(snapshot := Next(s, e).snapshot, phase := Saved)
  {
    hide Durable, FitsAll, SaveText, AllNoTtl;
    SaveStep(s, now, base, log);
    DurableNoTtl(s, base, log);
    PurgeAllKeeps(s.dbs, now);
  }
}
