/** Estimated sizes (`estimateObjectBytes`, `stats`): sums over containers whose iteration
    order is unspecified. */
module Memory {
  import opened Text
  import opened Values

  /** `sizeof(std::string)` and `sizeof(ValueObject)` on a 64-bit libstdc++ platform. */
  const STRING_SIZE: nat := 32
  const OBJECT_SIZE: nat := 280

  function LeastKey(m: map<string, nat>): (k: string)
    requires m != map[]
    ensures k in m
  {
    SortedMembers(m.Keys);
    assert m.Keys != {} by { var k :| k in m; assert k in m.Keys; }
    assert Sorted(m.Keys)[0] in Sorted(m.Keys);
    Sorted(m.Keys)[0]
  }

  /** The sum of all values of a map. */
  function Sum(m: map<string, nat>): nat
    decreases |m|
  {
    if m == map[] then 0
    else
      var k := LeastKey(m);
      assert (m - {k}).Keys == m.Keys - {k};
      m[k] + Sum(m - {k})
  }

  /** The order of summation is irrelevant: any key may be taken out first. */
  lemma {:induction false} SumTakeOut(m: map<string, nat>, k: string)
    requires k in m
    ensures Sum(m) == m[k] + Sum(m - {k})
    decreases |m|
  {
    var x := LeastKey(m);
    if x != k {
      assert (m - {x}).Keys == m.Keys - {x} && (m - {k}).Keys == m.Keys - {k};
      SumTakeOut(m - {x}, k);
      SumTakeOut(m - {k}, x);
      assert m - {x} - {k} == m - {k} - {x};
    }
  }

  function ListBytes(list: seq<string>): nat {
    if list == [] then 0 else ListBytes(list[..|list| - 1]) + |list[|list| - 1]| + STRING_SIZE
  }

  function FieldSizes(hash: map<string, string>): map<string, nat> {
    map f | f in hash :: |f| + |hash[f]| + 2 * STRING_SIZE
  }

  function MemberSizes(members: set<string>): map<string, nat> {
    map x | x in members :: |x| + STRING_SIZE
  }

  /** `estimateObjectBytes`: it depends on the key and the contents only. */
  function EstimateBytes(key: string, c: Content): nat {
    |key| + |TypeName(c.kind)| + |c.value| + OBJECT_SIZE
    + ListBytes(c.list) + Sum(FieldSizes(c.hash)) + Sum(MemberSizes(c.members))
  }

  function EntrySizes(db: Db): map<string, nat> {
    map k | k in db :: EstimateBytes(k, ContentOf(db[k]))
  }

  /** The total that `stats` reports. */
  function TotalBytes(db: Db): nat {
    Sum(EntrySizes(db))
  }

  lemma TotalTakeOut(db: Db, k: string)
    requires k in db
    ensures TotalBytes(db) == EstimateBytes(k, ContentOf(db[k])) + TotalBytes(db - {k})
  {
    hide EstimateBytes, Sum;
    SumTakeOut(EntrySizes(db), k);
    assert EntrySizes(db) - {k} == EntrySizes(db - {k});
  }

  /** Replacing an entry changes the total by the difference of the two sizes. */
  lemma TotalOfReplace(db: Db, k: string, e: ValueObject)
    ensures TotalBytes(db[k := e]) == EstimateBytes(k, ContentOf(e)) + TotalBytes(db - {k})
  {
    hide EstimateBytes, TotalBytes;
    TotalTakeOut(db[k := e], k);
    assert db[k := e] - {k} == db - {k};
  }

  // ----- the loops of the source -----------------------------------------------------------------

  /** `estimateObjectBytes`, whatever order the hash and the set are iterated in. */
  method EstimateObjectBytes(key: string, e: ValueObject) returns (total: nat)
    ensures total == EstimateBytes(key, ContentOf(e))
  {
    total := |key| + |TypeName(e.kind)| + |e.value| + OBJECT_SIZE;
    total := AddList(total, e.list);
    total := AddFields(total, e.hash);
    total := AddMembers(total, e.members);
  }

  method AddList(start: nat, list: seq<string>) returns (total: nat)
    ensures total == start + ListBytes(list)
  {
    total := start;
    for i := 0 to |list|
      invariant total == start + ListBytes(list[..i])
    {
      assert list[..i + 1][..i] == list[..i];
      total := total + |list[i]| + STRING_SIZE;
    }
    assert list[..|list|] == list;
  }

  method AddFields(start: nat, hash: map<string, string>) returns (total: nat)
    ensures total == start + Sum(FieldSizes(hash))
  {
    total := start;
    var left := hash;
    while left != map[]
      invariant total + Sum(FieldSizes(left)) == start + Sum(FieldSizes(hash))
      decreases |left|
    {
      var f :| f in left;
      SumTakeOut(FieldSizes(left), f);
      assert FieldSizes(left) - {f} == FieldSizes(left - {f});
      assert (left - {f}).Keys == left.Keys - {f};
      total := total + |f| + |left[f]| + STRING_SIZE * 2;
      left := left - {f};
    }
    assert FieldSizes(left) == map[];
  }

  method AddMembers(start: nat, members: set<string>) returns (total: nat)
    ensures total == start + Sum(MemberSizes(members))
  {
    total := start;
    var left := members;
    while left != {}
      invariant total + Sum(MemberSizes(left)) == start + Sum(MemberSizes(members))
      decreases |left|
    {
      var x :| x in left;
      SumTakeOut(MemberSizes(left), x);
      assert MemberSizes(left) - {x} == MemberSizes(left - {x});
      total := total + |x| + STRING_SIZE;
      left := left - {x};
    }
    assert MemberSizes(left) == map[];
  }
}
