/** A crash inside a checkpoint, after the snapshot has been renamed into place and before the
    log has been truncated: recovery replays the log over the state it already produced. For
    logs that only overwrite that is harmless. */
module CrashWindow {
  import opened Text
  import opened RespCodec
  import opened Values
  import opened Operations
  import opened Commands
  import opened Execution
  import opened Snapshot
  import opened Replay
  import opened Recovery

  // ----- commands that overwrite -------------------------------------------------------------------------

  /** SET without EX, MSET, DEL and FLUSHDB, and requests that were refused. */
  predicate OverwritingRequest(request: Request) {
    match request
    case Reject(_) => true
    case Single(_, op) => op.Set? && op.ttlSeconds < 0
    case Del(_) => true
    case MSet(_) => true
    case FlushDb => true
    case _ => false
  }

  /** These, FLUSHALL, and SELECT markers. */
  predicate Overwrites(tokens: seq<string>) {
    || CommandName(tokens) == FLUSHALL || CommandName(tokens) == SELECT
    || (CommandName(tokens) != MOVE && OverwritingRequest(Decode(tokens)))
  }

  predicate OverwritingLog(log: seq<seq<string>>) {
    forall i :: 0 <= i < |log| ==> Overwrites(log[i])
  }

  // ----- each stored value is either fixed by the log or left alone ----------------------------------------

  function ValueIn(db: Db, k: string): Option<Content> {
    if k in db then Some(ContentOf(db[k])) else None
  }

  function ValueAt(dbs: seq<Db>, d: nat, k: string): Option<Content>
    requires d < |dbs|
  {
    ValueIn(dbs[d], k)
  }

  /** From `a` to `a'` and from `b` to `b'`: either the same value results, or none changed. */
  predicate Settles(a: Option<Content>, a': Option<Content>, b: Option<Content>, b': Option<Content>) {
    a' == b' || (a' == a && b' == b)
  }

  lemma {:induction false} StoreAllSettles(a: Db, b: Db, entries: seq<(string, string)>, s: int, t: int, k: string)
    ensures Settles(ValueIn(a, k), ValueIn(StoreAll(a, entries, s), k), ValueIn(b, k),
                    ValueIn(StoreAll(b, entries, t), k))
  {
    if entries != [] { StoreAllSettles(a, b, entries[..|entries| - 1], s, t, k); }
  }

  lemma RequestSettles(request: Request, a: Db, b: Db, s: int, t: int, k: string)
    requires OverwritingRequest(request)
    ensures Settles(ValueIn(a, k), ValueIn(Run(request, a, s).db, k), ValueIn(b, k), ValueIn(Run(request, b, t).db, k))
  {
    if request.MSet? {
      hide StoreAll;
      StoreAllSettles(a, b, request.entries, s, t, k);
    }
  }

  lemma ReplayOneSettles(a: Cursor, b: Cursor, tokens: seq<string>, s: int, t: int, d: nat, k: string)
    requires Sound(a) && Sound(b) && a.db == b.db && |a.dbs| == |b.dbs| && d < |a.dbs| && Overwrites(tokens)
    ensures ReplayOne(a, tokens, s).db == ReplayOne(b, tokens, t).db
    ensures Settles(ValueAt(a.dbs, d, k), ValueAt(ReplayOne(a, tokens, s).dbs, d, k),
                    ValueAt(b.dbs, d, k), ValueAt(ReplayOne(b, tokens, t).dbs, d, k))
  {
    hide Run, Decode, CommandName, ReplayMove, IndexBelow, OverwritingRequest;
    if tokens != [] && CommandName(tokens) != FLUSHALL && CommandName(tokens) != SELECT {
      RequestSettles(Decode(tokens), a.dbs[a.db], b.dbs[b.db], s, t, k);
    }
  }

  lemma {:induction false} ReplayLogSettles(a: Cursor, b: Cursor, log: seq<seq<string>>, p: nat -> int, q: nat -> int,
                                            d: nat, k: string)
    requires Sound(a) && Sound(b) && a.db == b.db && |a.dbs| == |b.dbs| && d < |a.dbs| && OverwritingLog(log)
    ensures ReplayLog(a, log, p).db == ReplayLog(b, log, q).db
    ensures Settles(ValueAt(a.dbs, d, k), ValueAt(ReplayLog(a, log, p).dbs, d, k),
                    ValueAt(b.dbs, d, k), ValueAt(ReplayLog(b, log, q).dbs, d, k))
  {
    hide ReplayOne, Overwrites, ValueAt;
    if log != [] {
      var front := log[..|log| - 1];
      ReplayLogSettles(a, b, front, p, q, d, k);
      ReplayOneSettles(ReplayLog(a, front, p), ReplayLog(b, front, q), log[|log| - 1], p(|log| - 1), q(|log| - 1),
                       d, k);
    }
  }

  /** Replaying an overwriting log over the state it produced changes no stored value. */
  lemma ReplayTwiceIsOnce(base: seq<Db>, log: seq<seq<string>>, p: nat -> int, q: nat -> int, d: nat, k: string)
    requires base != [] && OverwritingLog(log) && d < |base|
    ensures var once := ReplayLog(Cursor(base, 0), log, p).dbs;
            ValueAt(ReplayLog(Cursor(once, 0), log, q).dbs, d, k) == ValueAt(once, d, k)
  {
    hide ReplayLog, ValueAt, OverwritingLog;
    ReplayLogSettles(Cursor(base, 0), Cursor(ReplayLog(Cursor(base, 0), log, p).dbs, 0), log, p, q, d, k);
  }

  // ----- recovery inside the window ----------------------------------------------------------------------------

  lemma ContentsSameValues(a: seq<Db>, b: seq<Db>, d: nat, k: string)
    requires SameContents(a, b) && d < |a|
    ensures ValueAt(a, d, k) == ValueAt(b, d, k)
  {
    assert k in a[d] <==> k in Live(a[d], 0);
    assert k in b[d] <==> k in Live(b[d], 0);
    if k in Live(a[d], 0) { assert Live(a[d], 0)[k] == Live(b[d], 0)[k]; }
  }

  lemma SameValuesContents(a: seq<Db>, b: seq<Db>)
    requires |a| == |b| && AllNoTtl(a)
    requires forall d: nat, k: string :: d < |a| ==> ValueAt(a, d, k) == ValueAt(b, d, k)
    ensures SameContents(a, b)
  {
    forall d | 0 <= d < |a| ensures NoTtl(b[d]) && Live(a[d], 0) == Live(b[d], 0) {
      forall k ensures ValueIn(a[d], k) == ValueIn(b[d], k) { assert ValueAt(a, d, k) == ValueAt(b, d, k); }
      SameValuesInOne(a[d], b[d]);
    }
  }

  lemma SameValuesInOne(a: Db, b: Db)
    requires NoTtl(a) && forall k :: ValueIn(a, k) == ValueIn(b, k)
    ensures NoTtl(b) && Live(a, 0) == Live(b, 0)
  {
    forall k | k in b ensures b[k].expiresAt == -1 { assert ValueIn(a, k) == ValueIn(b, k); }
    forall k ensures SameEntry(Lookup(a, k, 0), Lookup(b, k, 0)) { assert ValueIn(a, k) == ValueIn(b, k); }
    SameEntriesSameLive(a, b, 0, 0);
  }

  lemma WindowContents(base: seq<Db>, live: seq<Db>, loaded: seq<Db>, log: seq<seq<string>>, clock: nat -> int)
    requires base != [] && |base| == |live| == |loaded| && OverwritingLog(log)
    requires SameContents(ReplayLog(Cursor(base, 0), log, Zero).dbs, live) && SameContents(live, loaded)
    ensures SameContents(live, ReplayLog(Cursor(loaded, 0), log, clock).dbs)
  {
    hide ReplayLog, SameContents, ValueAt, OverwritingLog;
    ContentsHaveNoTtl(live, loaded);
    var r := ReplayLog(Cursor(loaded, 0), log, clock).dbs;
    forall d: nat, k: string | d < |live| ensures ValueAt(live, d, k) == ValueAt(r, d, k) {
      ReplayLogSettles(Cursor(base, 0), Cursor(loaded, 0), log, Zero, clock, d, k);
      ContentsSameValues(ReplayLog(Cursor(base, 0), log, Zero).dbs, live, d, k);
      ContentsSameValues(live, loaded, d, k);
    }
    SameValuesContents(live, r);
  }

  /** A crash between the rename of the snapshot and the truncation of the log: if the log
      only overwrites, the disk still recovers exactly the live contents. */
  lemma WindowRecovers(s: System, base: seq<Db>, log: seq<seq<string>>)
    requires Durable(s, base, log) && s.phase == Saved && OverwritingLog(log)
    ensures RecoversExactly(s)
  {
    hide SameContents, Load, ReplayLog, ReplayFile, EncodeLog, Timeless, SameLive, AllShaped, OverwritingLog;
    forall loadAt: int, clock: nat -> int, t: int ensures RecoversAt(s, loadAt, clock, t) {
      var loaded := Load(s.snapshot, Emptied(|s.dbs|), loadAt);
      ReplayFileIsReplayLog(log, loaded.dbs, clock);
      WindowContents(base, s.dbs, loaded.dbs, log, clock);
      ContentsSymmetric(s.dbs, ReplayLog(Cursor(loaded.dbs, 0), log, clock).dbs);
      ContentsSameLive(ReplayLog(Cursor(loaded.dbs, 0), log, clock).dbs, s.dbs, t);
    }
  }
}
