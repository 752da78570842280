/** Replaying the append-only file (`AofPersistence::replay`), and the SELECT markers by which
    `writeCommand` tells it which database each command ran in. */
module Replay {
  import opened Text
  import opened CommandParser
  import opened RespCodec
  import opened Values
  import opened Operations
  import opened Commands
  import opened Execution

  // ----- replay ------------------------------------------------------------------------------------

  /** The databases, and the one that replay has selected. */
  datatype Cursor = Cursor(dbs: seq<Db>, db: nat)

  predicate Sound(c: Cursor) {
    c.db < |c.dbs|
  }

  function ReplayMove(c: Cursor, tokens: seq<string>, now: int): (r: Cursor)
    requires Sound(c)
    ensures Sound(r) && |r.dbs| == |c.dbs|
  {
    if |tokens| != 3 || IndexBelow(tokens[2], |c.dbs|).None? then c
    else Cursor(MoveBetween(c.dbs, c.db, tokens[1], IndexBelow(tokens[2], |c.dbs|).value, now).dbs, c.db)
  }

  function ReplaySelect(c: Cursor, tokens: seq<string>): (r: Cursor)
    requires Sound(c)
    ensures Sound(r) && r.dbs == c.dbs
  {
    if |tokens| != 2 || IndexBelow(tokens[1], |c.dbs|).None? then c
    else Cursor(c.dbs, IndexBelow(tokens[1], |c.dbs|).value)
  }

  /** One command of the replay loop. */
  function ReplayOne(c: Cursor, tokens: seq<string>, now: int): (r: Cursor)
    requires Sound(c)
    ensures Sound(r) && |r.dbs| == |c.dbs|
  {
    if tokens == [] then c
    else if CommandName(tokens) == FLUSHALL then
      if |tokens| != 1 then c else Cursor(Emptied(|c.dbs|), c.db)
    else if CommandName(tokens) == MOVE then ReplayMove(c, tokens, now)
    else if CommandName(tokens) == SELECT then ReplaySelect(c, tokens)
    else Cursor(ExecuteInOne(c.dbs, c.db, Decode(tokens), now).dbs, c.db)
  }

  function ReplayLog(start: Cursor, log: seq<seq<string>>, clock: nat -> int): (r: Cursor)
    requires Sound(start)
    ensures Sound(r) && |r.dbs| == |start.dbs|
  {
    if log == [] then start
    else ReplayOne(ReplayLog(start, log[..|log| - 1], clock), log[|log| - 1], clock(|log| - 1))
  }

  function TokensOf(commands: seq<ParsedCommand>): (r: seq<seq<string>>)
    ensures |r| == |commands| && forall i :: 0 <= i < |commands| ==> r[i] == commands[i].tokens
  {
    seq(|commands|, i requires 0 <= i < |commands| => commands[i].tokens)
  }

  /** The commands a file holds completely. */
  function CommandsIn(file: string): seq<seq<string>> {
    TokensOf(ParseAvailable(file).commands)
  }

  /** `replay`: parse the whole file, then run every command it holds. */
  function ReplayFile(file: string, dbs: seq<Db>, clock: nat -> int): (r: seq<Db>)
    requires dbs != []
    ensures |r| == |dbs|
  {
    ReplayLog(Cursor(dbs, 0), CommandsIn(file), clock).dbs
  }

  lemma CommandsInLog(log: seq<seq<string>>)
    requires EncodableLog(log)
    ensures CommandsIn(EncodeLog(log)) == log
  {
    hide ParseAvailable, EncodeLog;
    LogRoundTrip(log);
    assert TokensOf(AsResp(log)) == log;
  }

  lemma ReplayFileIsReplayLog(log: seq<seq<string>>, dbs: seq<Db>, clock: nat -> int)
    requires dbs != [] && EncodableLog(log)
    ensures ReplayFile(EncodeLog(log), dbs, clock) == ReplayLog(Cursor(dbs, 0), log, clock).dbs
  {
    hide CommandsIn, EncodeLog, ReplayLog;
    CommandsInLog(log);
  }

  /** A torn file replays the commands it holds completely, and nothing of the rest. */
  lemma TornFileReplaysPrefix(log: seq<seq<string>>, n: nat, dbs: seq<Db>, clock: nat -> int)
    requires dbs != [] && EncodableLog(log) && n <= |EncodeLog(log)|
    ensures WholeCommands(log, n) <= |log|
    ensures ReplayFile(EncodeLog(log)[..n], dbs, clock) ==
            ReplayLog(Cursor(dbs, 0), log[..WholeCommands(log, n)], clock).dbs
  {
    hide ParseAvailable, EncodeLog, ReplayLog, WholeCommands;
    TornLog(log, n);
    var k := WholeCommands(log, n);
    assert TokensOf(AsResp(log[..k])) == log[..k];
  }

  lemma {:induction false} ReplayLogSplit(start: Cursor, log: seq<seq<string>>, more: seq<seq<string>>,
                                          clock: nat -> int)
    requires Sound(start)
    ensures more == [] ==> ReplayLog(start, log + more, clock) == ReplayLog(start, log, clock)
    ensures |more| == 1 ==>
              ReplayLog(start, log + more, clock) == ReplayOne(ReplayLog(start, log, clock), more[0], clock(|log|))
    ensures |more| == 2 ==>
              ReplayLog(start, log + more, clock) ==
              ReplayOne(ReplayOne(ReplayLog(start, log, clock), more[0], clock(|log|)), more[1], clock(|log| + 1))
  {
    hide ReplayOne;
    if more == [] { assert log + more == log; }
    if |more| == 1 { assert (log + more)[..|log|] == log; }
    if |more| == 2 {
      assert (log + more)[..|log| + 1] == log + [more[0]];
      assert (log + [more[0]])[..|log|] == log;
    }
  }

  // ----- what a logged command does when replayed -----------------------------------------------------

  /** MOVE and FLUSHALL with the arguments the server insists on before it runs them. */
  predicate Accepted(tokens: seq<string>, n: nat) {
    && (CommandName(tokens) == MOVE ==> |tokens| == 3 && DatabaseIndex(tokens[2], n).Some?)
    && (CommandName(tokens) == FLUSHALL ==> |tokens| == 1)
  }

  lemma SuccessIsAccepted(dbs: seq<Db>, i: nat, tokens: seq<string>, now: int)
    requires i < |dbs| && !IsError(Execute(dbs, i, tokens, now).reply)
    ensures Accepted(tokens, |dbs|)
  {
    RefusalsAreErrors();
    hide CommandName, ExecuteInOne, DatabaseIndex, MoveBetween, IsError;
  }

  lemma RefusalsAreErrors()
    ensures IsError("ERR wrong number of arguments for MOVE\n") && IsError("ERR DB index is out of range\n")
    ensures IsError("ERR wrong number of arguments for FLUSHALL\n")
  {
  }

  /** In the database it was logged for, a logged command replays as it executed. */
  lemma ReplayIsExecution(c: Cursor, tokens: seq<string>, now: int)
    requires Sound(c) && IsAofLogged(tokens) && Accepted(tokens, |c.dbs|)
    ensures ReplayOne(c, tokens, now) == Cursor(Execute(c.dbs, c.db, tokens, now).dbs, c.db)
  {
    hide Decode, Run, IndexBelow, MoveBetween, NameOf;
    assert tokens != [];
  }

  // ----- SELECT markers ---------------------------------------------------------------------------------

  function Marker(db: nat): seq<string> {
    ["SELECT", Show(db)]
  }

  /** What `writeCommand` appends, given the database of the last command written. */
  function Records(current: nat, db: nat, tokens: seq<string>): (r: seq<seq<string>>)
    ensures r != []
  {
    if db != current then [Marker(db), tokens] else [tokens]
  }

  lemma SelectIsSelect(db: nat)
    ensures CommandName(Marker(db)) == SELECT
  {
    hide ToUpper, Show;
    AlreadyUpper("SELECT");
    assert NameOf("SELECT") == SELECT;
  }

  lemma MarkerSelects(c: Cursor, db: nat, now: int)
    requires Sound(c) && db < |c.dbs| <= MAX_ULL
    ensures ReplayOne(c, Marker(db), now) == Cursor(c.dbs, db)
  {
    SelectIsSelect(db);
    StoullShow(db);
    hide CommandName, Show, Stoull;
  }

  lemma {:induction false} DecimalIsShort(n: nat)
    ensures |Decimal(n)| <= n + 1
  {
    if n >= 10 { DecimalIsShort(n / 10); }
  }

  lemma MarkerIsEncodable(db: nat)
    requires db < MAX_LL
    ensures Encodable(Marker(db))
  {
    DecimalIsShort(db);
  }

  /** Where replay ends up depends on the markers alone, not on what the databases hold. */
  lemma {:induction false} ReplayEndsAlike(a: Cursor, b: Cursor, log: seq<seq<string>>, p: nat -> int, q: nat -> int)
    requires Sound(a) && Sound(b) && a.db == b.db && |a.dbs| == |b.dbs|
    ensures ReplayLog(a, log, p).db == ReplayLog(b, log, q).db
  {
    hide CommandName, Decode, ExecuteInOne, MoveBetween, IndexBelow;
    if log != [] { ReplayEndsAlike(a, b, log[..|log| - 1], p, q); }
  }

  /** Replaying the records of one append executes the command in the database it was appended
      for, provided replay had arrived where the append believed it to be. */
  lemma ReplayRecords(start: Cursor, log: seq<seq<string>>, db: nat, tokens: seq<string>, clock: nat -> int)
    requires Sound(start) && db < |start.dbs| <= MAX_ULL && IsAofLogged(tokens) && Accepted(tokens, |start.dbs|)
    ensures var c := ReplayLog(start, log, clock);
            var more := log + Records(c.db, db, tokens);
            ReplayLog(start, more, clock) == Cursor(Execute(c.dbs, db, tokens, clock(|more| - 1)).dbs, db)
  {
    hide ReplayLog, ReplayOne, Execute, Marker, IsAofLogged, Accepted;
    var c := ReplayLog(start, log, clock);
    ReplayLogSplit(start, log, Records(c.db, db, tokens), clock);
    if db == c.db {
      ReplayIsExecution(c, tokens, clock(|log|));
    } else {
      MarkerSelects(c, db, clock(|log|));
      ReplayIsExecution(Cursor(c.dbs, db), tokens, clock(|log| + 1));
    }
  }

  // ----- whole histories of the file --------------------------------------------------------------------

  /** What happens to the file: `append` for some database, and the truncation that ends a
      checkpoint. */
  datatype FileStep = Append(db: nat, tokens: seq<string>) | Truncate

  /** The commands in the file, and `currentAppendDatabase_`. */
  datatype Written = Written(log: seq<seq<string>>, current: nat)

  function WriteStep(w: Written, step: FileStep): Written {
    match step
    case Append(db, tokens) => if IsAofLogged(tokens) then Written(w.log + Records(w.current, db, tokens), db) else w
    case Truncate => Written([], 0)
  }

  function WriteAll(steps: seq<FileStep>): Written {
    if steps == [] then Written([], 0) else WriteStep(WriteAll(steps[..|steps| - 1]), steps[|steps| - 1])
  }

  /** The databases when the logged commands appended since the last truncation are executed
      directly, each in the database it was appended for, at the time replay reaches it. */
  function ExecuteAll(start: seq<Db>, steps: seq<FileStep>, clock: nat -> int): (dbs: seq<Db>)
    requires AppendsFit(steps, |start|)
    ensures |dbs| == |start|
  {
    if steps == [] then start
    else
      var before := ExecuteAll(start, steps[..|steps| - 1], clock);
      match steps[|steps| - 1]
      case Append(db, tokens) =>
        var w := WriteAll(steps[..|steps| - 1]);
        var more := w.log + Records(w.current, db, tokens);
        if IsAofLogged(tokens) then Execute(before, db, tokens, clock(|more| - 1)).dbs else before
      case Truncate => start
  }

  /** Appends are for existing databases, and come after the server's checks. */
  predicate AppendsFit(steps: seq<FileStep>, n: nat) {
    forall i :: 0 <= i < |steps| && steps[i].Append? ==> steps[i].db < n && Accepted(steps[i].tokens, n)
  }

  /** The marker invariant: over every sequence of appends to arbitrary databases and of
      truncations, from an empty file, replay executes exactly the logged commands appended
      since the last truncation, in order, each in the database it was appended for, and ends
      in the database `currentAppendDatabase_` names. */
  lemma {:induction false} MarkersFollowAppends(start: seq<Db>, steps: seq<FileStep>, clock: nat -> int)
    requires 0 < |start| <= MAX_ULL && AppendsFit(steps, |start|)
    ensures ReplayLog(Cursor(start, 0), WriteAll(steps).log, clock) ==
            Cursor(ExecuteAll(start, steps, clock), WriteAll(steps).current)
  {
    hide ReplayLog, Records, IsAofLogged, Accepted, Execute;
    if steps == [] {
      ReplayOfNothing(Cursor(start, 0), clock);
    } else {
      var front, last := steps[..|steps| - 1], steps[|steps| - 1];
      MarkersFollowAppends(start, front, clock);
      match last {
        case Append(db, tokens) =>
          if IsAofLogged(tokens) { ReplayRecords(Cursor(start, 0), WriteAll(front).log, db, tokens, clock); }
        case Truncate => ReplayOfNothing(Cursor(start, 0), clock);
      }
    }
  }

  lemma ReplayOfNothing(start: Cursor, clock: nat -> int)
    requires Sound(start)
    ensures ReplayLog(start, [], clock) == start
  {
  }
}
