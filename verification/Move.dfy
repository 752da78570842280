/** MOVE conserves what is stored: across all databases nothing is lost, duplicated or
    overwritten, however many MOVEs are run. */
module Move {
  import opened Text
  import opened Values
  import opened Operations
  import opened Commands
  import opened Execution

  function ItemsOf(m: map<string, Content>): multiset<(string, Content)> {
    multiset(m.Items)
  }

  /** All live entries of all databases, with their keys and expiry times. */
  function AllItems(dbs: seq<Db>, t: int): multiset<(string, Content)> {
    if dbs == [] then multiset{}
    else AllItems(dbs[..|dbs| - 1], t) + ItemsOf(Live(dbs[|dbs| - 1], t))
  }

  lemma ItemsTakeOut(m: map<string, Content>, k: string)
    requires k in m
    ensures ItemsOf(m) == ItemsOf(m - {k}) + multiset{(k, m[k])}
  {
    forall p ensures p in m.Items <==> p in (m - {k}).Items + {(k, m[k])} {
      assert p == (p.0, p.1);
      assert p in m.Items <==> p.0 in m && m[p.0] == p.1;
      assert p in (m - {k}).Items <==> p.0 in m - {k} && (m - {k})[p.0] == p.1;
    }
    assert m.Items == (m - {k}).Items + {(k, m[k])};
  }

  lemma ItemsPutIn(m: map<string, Content>, k: string, c: Content)
    requires k !in m
    ensures ItemsOf(m[k := c]) == ItemsOf(m) + multiset{(k, c)}
  {
    ItemsTakeOut(m[k := c], k);
    assert m[k := c] - {k} == m;
  }

  lemma Swap<T>(a: multiset<T>, b: multiset<T>, c: multiset<T>)
    ensures a + b + c == a + c + b
  {
  }

  /** Replacing one part and then another, the two together being unchanged. */
  lemma Cancel<T>(after: multiset<T>, between: multiset<T>, before: multiset<T>,
                  s: multiset<T>, s': multiset<T>, d: multiset<T>, d': multiset<T>)
    requires between + s == before + s' && after + d == between + d' && s' + d' == s + d
    ensures after == before
  {
    forall e ensures after[e] == before[e] {
      assert (between + s)[e] == (before + s')[e];
      assert (after + d)[e] == (between + d')[e];
      assert (s' + d')[e] == (s + d)[e];
    }
  }

  lemma {:induction false} ReplaceOne(dbs: seq<Db>, i: nat, x: Db, t: int)
    requires i < |dbs|
    ensures AllItems(dbs[i := x], t) + ItemsOf(Live(dbs[i], t)) == AllItems(dbs, t) + ItemsOf(Live(x, t))
  {
    hide ItemsOf, Live;
    var front := dbs[..|dbs| - 1];
    if i == |front| {
      assert dbs[i := x][..|front|] == front;
    } else {
      assert dbs[i := x][..|front|] == front[i := x];
      ReplaceOne(front, i, x, t);
      var l := ItemsOf(Live(dbs[|front|], t));
      Swap(AllItems(front[i := x], t), l, ItemsOf(Live(dbs[i], t)));
      Swap(AllItems(front, t), l, ItemsOf(Live(x, t)));
    }
  }

  lemma MoveKeyConserves(source: Db, destination: Db, key: string, now: int, t: int)
    requires now <= t
    ensures var m := MoveKey(source, destination, key, now);
            ItemsOf(Live(m.source, t)) + ItemsOf(Live(m.destination, t)) ==
            ItemsOf(Live(source, t)) + ItemsOf(Live(destination, t))
  {
    hide ItemsOf;
    var cur := Lookup(source, key, now);
    var m := MoveKey(source, destination, key, now);
    if m.moved {
      var moved := Some(Touch(cur.value, now));
      LiveOfStore(source, key, None, t);
      LiveOfStore(destination, key, moved, t);
      if !IsExpired(cur.value, t) {
        ItemsTakeOut(Live(source, t), key);
        ItemsPutIn(Live(destination, t), key, ContentOf(cur.value));
      } else {
        assert Live(source, t) - {key} == Live(source, t);
        assert Live(destination, t) - {key} == Live(destination, t);
      }
    } else if cur.None? {
      assert Live(m.source, t) == Live(source, t);
    }
  }

  /** One MOVE: the entries of all databases together are the same, at that moment and at any
      later time. */
  lemma MoveConserves(dbs: seq<Db>, i: nat, key: string, j: nat, now: int, t: int)
    requires i < |dbs| && j < |dbs| && now <= t
    ensures AllItems(MoveBetween(dbs, i, key, j, now).dbs, t) == AllItems(dbs, t)
  {
    hide ItemsOf, Live, MoveKey, AllItems;
    if i != j {
      var m := MoveKey(dbs[i], dbs[j], key, now);
      ReplaceOne(dbs, i, m.source, t);
      ReplaceOne(dbs[i := m.source], j, m.destination, t);
      MoveKeyConserves(dbs[i], dbs[j], key, now, t);
      Cancel(AllItems(dbs[i := m.source][j := m.destination], t), AllItems(dbs[i := m.source], t), AllItems(dbs, t),
             ItemsOf(Live(dbs[i], t)), ItemsOf(Live(m.source, t)),
             ItemsOf(Live(dbs[j], t)), ItemsOf(Live(m.destination, t)));
    }
  }

  /** One MOVE: every live entry other than the one named stays where it is. In particular a
      live entry in the destination is never overwritten. */
  lemma MoveOverwritesNothing(dbs: seq<Db>, i: nat, key: string, j: nat, now: int, t: int, d: nat, k: string)
    requires i < |dbs| && j < |dbs| && d < |dbs| && now <= t
    requires k in Live(dbs[d], t) && (d != i || k != key)
    ensures var after := MoveBetween(dbs, i, key, j, now).dbs;
            k in Live(after[d], t) && Live(after[d], t)[k] == Live(dbs[d], t)[k]
  {
  }

  /** One MOVE moves exactly when the key is live here and not live there. */
  lemma MoveMovesExactly(dbs: seq<Db>, i: nat, key: string, j: nat, now: int)
    requires i < |dbs| && j < |dbs|
    ensures MoveBetween(dbs, i, key, j, now).reply == "1\n" <==>
              i != j && key in Live(dbs[i], now) && key !in Live(dbs[j], now)
    ensures MoveBetween(dbs, i, key, j, now).reply == "1\n" ==>
              var after := MoveBetween(dbs, i, key, j, now).dbs;
              && key !in Live(after[i], now)
              && key in Live(after[j], now) && Live(after[j], now)[key] == Live(dbs[i], now)[key]
  {
    assert "1\n"[0] != "0\n"[0];
  }

  // ----- runs of MOVE commands -----------------------------------------------------------------------

  datatype MoveCommand = MoveCommand(db: nat, tokens: seq<string>, now: int)

  predicate MovesFit(moves: seq<MoveCommand>, n: nat, t: int) {
    (forall k :: 0 <= k < |moves| ==> moves[k].db < n && CommandName(moves[k].tokens) == MOVE && moves[k].now <= t)
  }

  function PlayMoves(dbs: seq<Db>, moves: seq<MoveCommand>, t: int): (r: seq<Db>)
    requires MovesFit(moves, |dbs|, t)
    ensures |r| == |dbs|
  {
    if moves == [] then dbs
    else
      var last := moves[|moves| - 1];
      Execute(PlayMoves(dbs, moves[..|moves| - 1], t), last.db, last.tokens, last.now).dbs
  }

  /** Any sequence of MOVE commands, well formed or not, between any databases: the live
      entries of all databases together are unchanged at every time after the last one. */
  lemma {:induction false} MovesConserve(dbs: seq<Db>, moves: seq<MoveCommand>, t: int)
    requires MovesFit(moves, |dbs|, t)
    ensures AllItems(PlayMoves(dbs, moves, t), t) == AllItems(dbs, t)
  {
    hide AllItems, MoveBetween, DatabaseIndex, CommandName;
    if moves != [] {
      var front, last := moves[..|moves| - 1], moves[|moves| - 1];
      MovesConserve(dbs, front, t);
      var before := PlayMoves(dbs, front, t);
      if |last.tokens| == 3 && DatabaseIndex(last.tokens[2], |dbs|).Some? {
        MoveConserves(before, last.db, last.tokens[1], DatabaseIndex(last.tokens[2], |dbs|).value, last.now, t);
      }
    }
  }
}
