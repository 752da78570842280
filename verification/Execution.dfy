/** Commands over all logical databases: MOVE and FLUSHALL, which the server runs itself, and
    every other data command, which the registry runs on the selected database. */
module Execution {
  import opened Text
  import opened Values
  import opened Operations
  import opened Agreement
  import opened Commands
  import opened Shape

  /** The databases afterwards, the reply, and the database (if any) that evicts next. */
  datatype Executed = Executed(dbs: seq<Db>, reply: string, evictIn: Option<nat>)

  /** A whole string read by `stoull` as an index below `count`. */
  function IndexBelow(raw: string, count: nat): (r: Option<nat>)
    ensures r.Some? ==> r.value < count
  {
    var n := Stoull(raw);
    if n.None? || n.value.1 != |raw| || n.value.0 >= count then None else Some(n.value.0)
  }

  /** `parseDatabaseIndex`: as above, but a leading minus sign is refused. */
  function DatabaseIndex(raw: string, count: nat): (r: Option<nat>)
    ensures r.Some? ==> r.value < count
  {
    if raw == "" || raw[0] == '-' then None else IndexBelow(raw, count)
  }

  function MoveBetween(dbs: seq<Db>, i: nat, key: string, j: nat, now: int): (r: Executed)
    requires i < |dbs| && j < |dbs|
    ensures |r.dbs| == |dbs|
  {
    if i == j then Executed(dbs, "0\n", None)
    else
      var m := MoveKey(dbs[i], dbs[j], key, now);
      Executed(dbs[i := m.source][j := m.destination], if m.moved then "1\n" else "0\n",
               if m.moved then Some(j) else None)
  }

  /** `handleMoveCommand`. */
  function ExecuteMove(dbs: seq<Db>, i: nat, tokens: seq<string>, now: int): (r: Executed)
    requires i < |dbs|
    ensures |r.dbs| == |dbs|
  {
    if |tokens| != 3 then Executed(dbs, "ERR wrong number of arguments for MOVE\n", None)
    else
      var j := DatabaseIndex(tokens[2], |dbs|);
      if j.None? then Executed(dbs, "ERR DB index is out of range\n", None)
      else MoveBetween(dbs, i, tokens[1], j.value, now)
  }

  function Emptied(n: nat): (dbs: seq<Db>)
    ensures |dbs| == n && forall k :: 0 <= k < n ==> dbs[k] == map[]
  {
    seq(n, _ => map[])
  }

  /** `handleFlushAllCommand`. */
  function ExecuteFlushAll(dbs: seq<Db>, tokens: seq<string>): (r: Executed)
    ensures |r.dbs| == |dbs|
  {
    if |tokens| != 1 then Executed(dbs, "ERR wrong number of arguments for FLUSHALL\n", None)
    else Executed(Emptied(|dbs|), "OK\n", None)
  }

  function ExecuteInOne(dbs: seq<Db>, i: nat, request: Request, now: int): (r: Executed)
    requires i < |dbs|
    ensures |r.dbs| == |dbs|
  {
    var o := Run(request, dbs[i], now);
    Executed(dbs[i := o.db], o.reply, if o.evicts then Some(i) else None)
  }

  function Execute(dbs: seq<Db>, i: nat, tokens: seq<string>, now: int): (r: Executed)
    requires i < |dbs|
    ensures |r.dbs| == |dbs|
  {
    if CommandName(tokens) == MOVE then ExecuteMove(dbs, i, tokens, now)
    else if CommandName(tokens) == FLUSHALL then ExecuteFlushAll(dbs, tokens)
    else ExecuteInOne(dbs, i, Decode(tokens), now)
  }

  predicate RunsInOne(tokens: seq<string>) {
    CommandName(tokens) != MOVE && CommandName(tokens) != FLUSHALL
  }

  // ----- agreement over all databases ---------------------------------------------------------------

  predicate AgreeAll(a: seq<Db>, b: seq<Db>, s: int, t: int) {
    |a| == |b| && forall k :: 0 <= k < |a| ==> Agree(a[k], b[k], s, t)
  }

  /** The command attaches an expiry time to some key. */
  predicate AttachesTtl(dbs: seq<Db>, i: nat, tokens: seq<string>, now: int)
    requires i < |dbs|
  {
    RunsInOne(tokens) && SetsTtl(Decode(tokens), dbs[i], now)
  }

  lemma MoveAgrees(a: seq<Db>, b: seq<Db>, i: nat, key: string, j: nat, s: int, t: int)
    requires AgreeAll(a, b, s, t) && i < |a| && j < |a|
    ensures AgreeAll(MoveBetween(a, i, key, j, s).dbs, MoveBetween(b, i, key, j, t).dbs, s, t)
    ensures MoveBetween(a, i, key, j, s).reply == MoveBetween(b, i, key, j, t).reply
    ensures MoveBetween(a, i, key, j, s).evictIn == MoveBetween(b, i, key, j, t).evictIn
  {
    hide Agree, Lookup;
    if i != j {
      EntriesAgree(a[i], b[i], s, t, key);
      EntriesAgree(a[j], b[j], s, t, key);
      var x, y := Lookup(a[i], key, s), Lookup(b[i], key, t);
      StoreAgrees(a[i], b[i], s, t, key, None, None);
      if x.Some? {
        StoreAgrees(a[j], b[j], s, t, key, Some(Touch(x.value, s)), Some(Touch(y.value, t)));
      }
    }
  }

  lemma FlushAgrees(n: nat, s: int, t: int)
    ensures AgreeAll(Emptied(n), Emptied(n), s, t)
  {
    assert Live(map[], s) == Live(map[], t);
  }

  lemma MoveCommandAgrees(a: seq<Db>, b: seq<Db>, i: nat, tokens: seq<string>, s: int, t: int)
    requires AgreeAll(a, b, s, t) && i < |a|
    ensures AgreeAll(ExecuteMove(a, i, tokens, s).dbs, ExecuteMove(b, i, tokens, t).dbs, s, t)
    ensures ExecuteMove(a, i, tokens, s).reply == ExecuteMove(b, i, tokens, t).reply
    ensures ExecuteMove(a, i, tokens, s).evictIn == ExecuteMove(b, i, tokens, t).evictIn
  {
    hide AgreeAll, MoveBetween, DatabaseIndex;
    assert |a| == |b| by { SameCount(a, b, s, t); }
    if |tokens| == 3 && DatabaseIndex(tokens[2], |a|).Some? {
      MoveAgrees(a, b, i, tokens[1], DatabaseIndex(tokens[2], |a|).value, s, t);
    }
  }

  lemma SameCount(a: seq<Db>, b: seq<Db>, s: int, t: int)
    requires AgreeAll(a, b, s, t)
    ensures |a| == |b|
  {
  }

  lemma InOneAgrees(a: seq<Db>, b: seq<Db>, i: nat, request: Request, s: int, t: int)
    requires AgreeAll(a, b, s, t) && i < |a| && (s == t || !SetsTtl(request, a[i], s))
    ensures AgreeAll(ExecuteInOne(a, i, request, s).dbs, ExecuteInOne(b, i, request, t).dbs, s, t)
    ensures !request.Del? ==> ExecuteInOne(a, i, request, s).reply == ExecuteInOne(b, i, request, t).reply
    ensures ExecuteInOne(a, i, request, s).evictIn == ExecuteInOne(b, i, request, t).evictIn
  {
    hide Agree, Run, SetsTtl;
    RunAgrees(request, a[i], b[i], s, t);
  }

  /** Running a command on databases with the same contents leaves the same contents, and sends
      the same reply unless it is DEL. */
  lemma ExecuteAgrees(a: seq<Db>, b: seq<Db>, i: nat, tokens: seq<string>, s: int, t: int)
    requires AgreeAll(a, b, s, t) && i < |a| && (s == t || !AttachesTtl(a, i, tokens, s))
    ensures AgreeAll(Execute(a, i, tokens, s).dbs, Execute(b, i, tokens, t).dbs, s, t)
    ensures !(RunsInOne(tokens) && Decode(tokens).Del?) ==>
              Execute(a, i, tokens, s).reply == Execute(b, i, tokens, t).reply
    ensures Execute(a, i, tokens, s).evictIn == Execute(b, i, tokens, t).evictIn
  {
    hide AgreeAll, CommandName, Decode, ExecuteMove, ExecuteInOne, SetsTtl;
    SameCount(a, b, s, t);
    if CommandName(tokens) == MOVE {
      MoveCommandAgrees(a, b, i, tokens, s, t);
    } else if CommandName(tokens) == FLUSHALL {
      FlushAgrees(|a|, s, t);
    } else {
      InOneAgrees(a, b, i, Decode(tokens), s, t);
    }
  }

  // ----- commands that leave the contents alone --------------------------------------------------------

  predicate SameLive(a: seq<Db>, b: seq<Db>, t: int) {
    |a| == |b| && forall k :: 0 <= k < |a| ==> Live(a[k], t) == Live(b[k], t)
  }

  /** A command that is not logged changes nothing observable, now or later. */
  lemma UnloggedKeepsLive(dbs: seq<Db>, i: nat, tokens: seq<string>, now: int, t: int)
    requires i < |dbs| && !IsAofLogged(tokens) && now <= t
    ensures SameLive(Execute(dbs, i, tokens, now).dbs, dbs, t)
    ensures Execute(dbs, i, tokens, now).evictIn.None?
  {
    hide CommandName, Decode, Run, Live, ExecuteMove, ExecuteFlushAll;
    UnloggedReads(tokens);
    ReadsKeepLive(Decode(tokens), dbs[i], now, t);
  }

  /** The command pops a list element that starts with the error prefix. */
  predicate PopsError(dbs: seq<Db>, i: nat, tokens: seq<string>, now: int)
    requires i < |dbs|
  {
    RunsInOne(tokens) && PopsErrorText(Decode(tokens), dbs[i], now)
  }

  lemma FailedKeepsLive(dbs: seq<Db>, i: nat, tokens: seq<string>, now: int, t: int)
    requires i < |dbs| && now <= t
    requires IsError(Execute(dbs, i, tokens, now).reply) && !PopsError(dbs, i, tokens, now)
    ensures SameLive(Execute(dbs, i, tokens, now).dbs, dbs, t)
    ensures Execute(dbs, i, tokens, now).evictIn.None?
  {
    hide CommandName, Decode, Run, Live, PopsErrorText, MoveKey, DatabaseIndex;
    if RunsInOne(tokens) {
      hide IsError;
      ErrorKeepsLive(Decode(tokens), dbs[i], now, t);
    }
  }

  lemma ErrorPopLosesLive(dbs: seq<Db>, i: nat, tokens: seq<string>, now: int)
    requires i < |dbs| && PopsError(dbs, i, tokens, now)
    ensures IsError(Execute(dbs, i, tokens, now).reply)
    ensures Live(Execute(dbs, i, tokens, now).dbs[i], now) != Live(dbs[i], now)
  {
    hide CommandName, Decode, Run, Live, PopsErrorText, IsError;
    ErrorTextPopChangesLive(Decode(tokens), dbs[i], now);
  }

  // ----- shape and expiry times, over all databases --------------------------------------------------------

  predicate AllShaped(dbs: seq<Db>) {
    forall k :: 0 <= k < |dbs| ==> WellShaped(dbs[k])
  }

  lemma ExecuteKeepsShape(dbs: seq<Db>, i: nat, tokens: seq<string>, now: int)
    requires i < |dbs| && AllShaped(dbs)
    ensures AllShaped(Execute(dbs, i, tokens, now).dbs)
  {
    hide CommandName, Decode, Run, MoveKey, DatabaseIndex, WellShaped;
    RunKeepsShape(tokens, dbs[i], now);
    assert WellShaped(map[]) by { EmptyIsShaped(); }
    if CommandName(tokens) == MOVE && |tokens| == 3 && DatabaseIndex(tokens[2], |dbs|).Some? {
      MoveKeepsShape(dbs[i], dbs[DatabaseIndex(tokens[2], |dbs|).value], tokens[1], now);
    }
  }

  lemma EmptyIsShaped()
    ensures WellShaped(map[])
  {
  }

  predicate AllNoTtl(dbs: seq<Db>) {
    forall k :: 0 <= k < |dbs| ==> NoTtl(dbs[k])
  }

  /** Without a TTL-setting command, databases without expiry times stay so. */
  lemma ExecuteKeepsNoTtl(dbs: seq<Db>, i: nat, tokens: seq<string>, now: int)
    requires i < |dbs| && AllNoTtl(dbs) && !AttachesTtl(dbs, i, tokens, now)
    ensures AllNoTtl(Execute(dbs, i, tokens, now).dbs)
  {
    AgreesWithItself(dbs, now, now + 1);
    ExecuteAgrees(dbs, dbs, i, tokens, now, now + 1);
  }

  lemma AgreesWithItself(dbs: seq<Db>, s: int, t: int)
    requires s == t || AllNoTtl(dbs)
    ensures AgreeAll(dbs, dbs, s, t)
  {
    if s != t {
      forall k | 0 <= k < |dbs| ensures Live(dbs[k], s) == Live(dbs[k], t) { LiveWithoutTtl(dbs[k], s, t); }
    }
  }
}
