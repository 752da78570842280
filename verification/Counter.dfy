/** INCR and DECR as a counter: the stored text always reads back as the running sum. */
module Counter {
  import opened Text
  import opened Values
  import opened Operations
  import opened Commands

  function CountCommand(key: string, up: bool): seq<string> {
    [if up then "INCR" else "DECR", key]
  }

  /** A run of INCR (true) and DECR (false) on one key, each at its own clock reading. */
  function CountRun(db: Db, key: string, ups: seq<bool>, clock: nat -> int): Db {
    if ups == [] then db
    else
      var before := CountRun(db, key, ups[..|ups| - 1], clock);
      Run(Decode(CountCommand(key, ups[|ups| - 1])), before, clock(|ups| - 1)).db
  }

  lemma CountNames(key: string)
    ensures CommandName(CountCommand(key, true)) == INCR && CommandName(CountCommand(key, false)) == DECR
  {
    hide ToUpper;
    AlreadyUpper("INCR");
    AlreadyUpper("DECR");
    assert NameOf("INCR") == INCR;
    assert NameOf("DECR") == DECR;
  }

  lemma CountDecodes(key: string, up: bool)
    ensures Decode(CountCommand(key, up)) == Single(key, IncrBy(if up then 1 else -1))
  {
    hide CommandName;
    CountNames(key);
    assert CountCommand(key, up)[1..] == [key];
  }

  /** INCRs minus DECRs. */
  function Net(ups: seq<bool>): int {
    if ups == [] then 0 else Net(ups[..|ups| - 1]) + (if ups[|ups| - 1] then 1 else -1)
  }

  predicate Representable(n: int) {
    MIN_LL <= n <= MAX_LL
  }

  lemma IncrAddsToText(e: ValueObject, n: int, delta: int, now: int)
    requires e.kind == StringType && e.value == Show(n) && Representable(n) && Representable(n + delta)
    ensures IncrAt(Some(e), delta, now).entry == Some(StringObject(Show(n + delta), e.createdAt, e.expiresAt, now))
    ensures IncrAt(Some(e), delta, now).reply == Number(n + delta)
  {
    hide Show, ParseInteger, Number;
    StollShow(n);
  }

  lemma IncrStartsAtZero(delta: int, now: int)
    requires Representable(delta)
    ensures IncrAt(None, delta, now).entry == Some(StringObject(Show(delta), now, -1, now))
  {
    hide Show, Number;
  }

  /** `key` holds the number `n` as text, without expiry; everything else is `rest`. */
  predicate Holds(db: Db, key: string, n: int, rest: Db) {
    && db - {key} == rest
    && key in db && db[key].kind == StringType && db[key].value == Show(n) && db[key].expiresAt == -1
  }

  lemma OneMore(db: Db, key: string, n: int, delta: int, now: int, rest: Db)
    requires Holds(db, key, n, rest) && Representable(n) && Representable(n + delta)
    ensures Holds(RunSingle(db, key, IncrBy(delta), now).db, key, n + delta, rest)
  {
    IncrAddsToText(db[key], n, delta, now);
    hide Show, IncrAt;
  }

  lemma TheFirst(db: Db, key: string, delta: int, now: int)
    requires key !in db && Representable(delta)
    ensures Holds(RunSingle(db, key, IncrBy(delta), now).db, key, delta, db)
  {
    IncrStartsAtZero(delta, now);
    hide Show, IncrAt;
  }

  /** From an absent key, any interleaving of INCR and DECR whose running sums fit 64 bits
      stores the decimal text of the sum, without expiry, and touches no other key. */
  lemma {:induction false} CounterHoldsNet(db: Db, key: string, ups: seq<bool>, clock: nat -> int)
    requires key !in db && ups != []
    requires forall i :: 0 <= i <= |ups| ==> Representable(Net(ups[..i]))
    ensures Holds(CountRun(db, key, ups, clock), key, Net(ups), db)
  {
    hide Holds, Representable, RunSingle, Decode;
    CountDecodes(key, ups[|ups| - 1]);
    var front := ups[..|ups| - 1];
    assert forall i :: 0 <= i <= |front| ==> front[..i] == ups[..i];
    var delta := if ups[|ups| - 1] then 1 else -1;
    assert ups[..|ups|] == ups;
    assert Representable(Net(ups)) && Net(ups) == Net(front) + delta;
    if front == [] {
      TheFirst(db, key, delta, clock(0));
    } else {
      CounterHoldsNet(db, key, front, clock);
      OneMore(CountRun(db, key, front, clock), key, Net(front), delta, clock(|front|), db);
    }
  }
}
