/** Saving stores to the snapshot file and loading them back (`SnapshotPersistence`), as the
    loops of the source, proved against the file format. */
module SnapshotFile {
  import opened Text
  import opened Values
  import opened Execution
  import opened Eviction
  import opened StoreLimits
  import opened Datastore
  import opened Registry
  import opened Snapshot
  import opened Recovery

  // ----- writing -------------------------------------------------------------------------------------

  method WriteBulk(output: string, s: string) returns (r: string)
    ensures r == output + BulkText(s)
  {
    hide Show;
    r := output + Show(|s|) + "\n";
    r := r + s;
    r := r + "\n";
    assert output + Show(|s|) + "\n" + s + "\n" == output + BulkText(s);
  }

  method WriteLine(output: string, s: string) returns (r: string)
    ensures r == output + TextLine(s)
  {
    r := output + s + "\n";
    assert output + s + "\n" == output + TextLine(s);
  }

  method WriteBulks(output: string, xs: seq<string>) returns (r: string)
    ensures r == output + BulksText(xs)
  {
    hide BulkText;
    r := output;
    for i := 0 to |xs|
      invariant r + BulksText(xs[i..]) == output + BulksText(xs)
    {
      assert xs[i..][1..] == xs[i + 1..];
      Assoc(r, BulkText(xs[i]), BulksText(xs[i + 1..]));
      r := WriteBulk(r, xs[i]);
    }
    assert r + "" == r;
  }

  method WriteFields(output: string, hash: map<string, string>, fields: seq<string>) returns (r: string)
    requires forall f :: f in fields ==> f in hash
    ensures r == output + FieldsText(hash, fields)
  {
    hide BulkText;
    r := output;
    for i := 0 to |fields|
      invariant r + FieldsText(hash, fields[i..]) == output + FieldsText(hash, fields)
    {
      assert fields[i..][1..] == fields[i + 1..];
      var tail := FieldsText(hash, fields[i + 1..]);
      Assoc(r, BulkText(fields[i]), BulkText(hash[fields[i]]) + tail);
      Assoc(r + BulkText(fields[i]), BulkText(hash[fields[i]]), tail);
      r := WriteBulk(r, fields[i]);
      r := WriteBulk(r, hash[fields[i]]);
    }
    assert r + "" == r;
  }

  method WritePayload(output: string, e: ValueObject) returns (r: string)
    ensures r == output + PayloadText(e)
  {
    hide BulkText, TextLine, Show, BulksText, FieldsText, Sorted;
    match e.kind {
      case StringType => r := WriteBulk(output, e.value);
      case ListType =>
        Assoc(output, TextLine(Show(|e.list|)), BulksText(e.list));
        r := WriteLine(output, Show(|e.list|));
        r := WriteBulks(r, e.list);
      case HashType =>
        SortedMembers(e.hash.Keys);
        var fields := Sorted(e.hash.Keys);
        Assoc(output, TextLine(Show(|fields|)), FieldsText(e.hash, fields));
        r := WriteLine(output, Show(|fields|));
        r := WriteFields(r, e.hash, fields);
      case SetType =>
        var members := Sorted(e.members);
        Assoc(output, TextLine(Show(|members|)), BulksText(members));
        r := WriteLine(output, Show(|members|));
        r := WriteBulks(r, members);
    }
  }

  method WriteEntry(output: string, x: Entry) returns (r: string)
    ensures r == output + EntryText(x)
  {
    hide BulkText, TextLine, Show, PayloadText;
    var t4 := PayloadText(x.value);
    var t3 := TextLine(Show(x.value.expiresAt)) + t4;
    var t2 := TextLine(Show(x.value.createdAt)) + t3;
    var t1 := BulkText(TypeName(x.value.kind)) + t2;
    Assoc(output, BulkText(x.key), t1);
    r := WriteBulk(output, x.key);
    Assoc(r, BulkText(TypeName(x.value.kind)), t2);
    r := WriteBulk(r, TypeName(x.value.kind));
    Assoc(r, TextLine(Show(x.value.createdAt)), t3);
    r := WriteLine(r, Show(x.value.createdAt));
    Assoc(r, TextLine(Show(x.value.expiresAt)), t4);
    r := WriteLine(r, Show(x.value.expiresAt));
    r := WritePayload(r, x.value);
  }

  /** `writeEntries`. */
  method WriteEntries(output: string, xs: seq<Entry>) returns (r: string)
    ensures r == output + EntriesText(xs)
  {
    hide EntryText, TextLine, Show;
    r := WriteLine(output, Show(|xs|));
    ghost var start := r;
    for i := 0 to |xs|
      invariant r + EntryListText(xs[i..]) == start + EntryListText(xs)
    {
      assert xs[i..][1..] == xs[i + 1..];
      Assoc(r, EntryText(xs[i]), EntryListText(xs[i + 1..]));
      r := WriteEntry(r, xs[i]);
    }
    assert r + "" == r;
    Assoc(output, TextLine(Show(|xs|)), EntryListText(xs));
  }

  // ----- reading -------------------------------------------------------------------------------------

  method ReadBulkLoop(input: string, count: nat) returns (r: Input<seq<string>>)
    ensures r == ReadBulks(input, count, [])
  {
    hide ReadBulk;
    var read, rest := [], input;
    var j := 0;
    while j < count
      invariant j <= count && ReadBulks(input, count, []) == ReadBulks(rest, count - j, read)
    {
      var x := ReadBulk(rest);
      if x.Fail? {
        return Fail;
      }
      read, rest := read + [x.value], x.rest;
      j := j + 1;
    }
    return Got(read, rest);
  }

  method ReadFieldLoop(input: string, count: nat) returns (r: Input<map<string, string>>)
    ensures r == ReadFields(input, count, map[])
  {
    hide ReadBulk;
    var read, rest := map[], input;
    var j := 0;
    while j < count
      invariant j <= count && ReadFields(input, count, map[]) == ReadFields(rest, count - j, read)
    {
      var field := ReadBulk(rest);
      if field.Fail? {
        return Fail;
      }
      var content := ReadBulk(field.rest);
      if content.Fail? {
        return Fail;
      }
      read, rest := read[field.value := content.value], content.rest;
      j := j + 1;
    }
    return Got(read, rest);
  }

  method ReadPayloadOfKind(input: string, e: ValueObject) returns (r: Input<ValueObject>)
    ensures r == ReadPayload(input, e)
  {
    hide ReadBulk, ReadSize, ReadBulks, ReadFields;
    if e.kind == StringType {
      var s := ReadBulk(input);
      return if s.Fail? then Fail else Got(e.(value := s.value), s.rest);
    }
    var count := ReadSize(input);
    if count.Fail? {
      return Fail;
    }
    if e.kind == HashType {
      var hash := ReadFieldLoop(count.rest, count.value);
      return if hash.Fail? then Fail else Got(e.(hash := hash.value), hash.rest);
    }
    var xs := ReadBulkLoop(count.rest, count.value);
    if xs.Fail? {
      return Fail;
    }
    if e.kind == ListType {
      return Got(e.(list := xs.value), xs.rest);
    }
    var members, added := InsertAll({}, xs.value);
    return Got(e.(members := members), xs.rest);
  }

  /** `readEntries`. */
  method ReadEntryLoop(input: string) returns (r: Input<seq<Entry>>)
    ensures r == ReadEntries(input)
  {
    hide ReadHeader, ReadPayload, ReadSize;
    var count := ReadSize(input);
    if count.Fail? {
      return Fail;
    }
    var read, rest := [], count.rest;
    var i := 0;
    while i < count.value
      invariant i <= count.value && ReadEntries(input) == ReadEntryList(rest, count.value - i, read)
    {
      var x := ReadHeader(rest);
      if x.Fail? {
        return Fail;
      }
      var e := ReadPayloadOfKind(x.rest, x.value.value);
      if e.Fail? {
        return Fail;
      }
      read, rest := read + [Entry(x.value.key, e.value)], e.rest;
      i := i + 1;
    }
    return Got(read, rest);
  }

  // ----- the file and the stores --------------------------------------------------------------------------

  class SnapshotPersistence {
    var file: Option<string>

    constructor ()
      ensures file == None
    {
      file := None;
    }

    /** `save`: writes every store's snapshot to a temporary file, then renames it. */
    method Save(stores: seq<DataStore>, now: int, ghost config: Config)
      requires Ready(stores, config)
      modifies this, stores
      ensures Ready(stores, config)
      ensures file == Some(SaveText(old(Contents(stores)), now))
      ensures Contents(stores) == PurgeAll(old(Contents(stores)), now)
    {
      ghost var dbs := Contents(stores);
      hide TextLine, Show, EntriesText, SnapshotOf, Purge;
      var output := WriteLine("", MULTI_DB_MAGIC);
      output := WriteLine(output, Show(|stores|));
      ghost var start := output;
      for i := 0 to |stores|
        invariant Ready(stores, config)
        invariant forall k :: 0 <= k < |stores| ==> stores[k].values == if k < i then Purge(dbs[k], now) else dbs[k]
        invariant output + DbsText(dbs[i..], now) == start + DbsText(dbs, now)
      {
        assert dbs[i..][1..] == dbs[i + 1..];
        var entries := stores[i].TakeSnapshot(now);
        Assoc(output, EntriesText(entries), DbsText(dbs[i + 1..], now));
        output := WriteEntries(output, entries);
      }
      assert output + "" == output;
      SaveTextIs(dbs, now, start);
      file := Some(output);
    }

    /** `load`: overwrites the stores one by one, each evicting once it is filled; false as soon
        as the file makes no sense. */
    method LoadFile(stores: seq<DataStore>, now: int, ghost config: Config) returns (ok: bool)
      requires stores != [] && Ready(stores, config)
      modifies stores
      ensures Ready(stores, config)
      ensures ok == Load(file, old(Contents(stores)), now).ok
      ensures AllKept(config, Load(file, old(Contents(stores)), now).dbs, Contents(stores))
      ensures ok && file.Some? ==> AllEvicted(config, Load(file, old(Contents(stores)), now).dbs, Contents(stores))
    {
      hide ReadEntries, ReadSize, ReadLine, LoadEntries, LoadDbs, Evicted;
      if file.None? {
        return true;
      }
      var magic := ReadLine(file.value);
      if magic.Fail? || (magic.value != MAGIC && magic.value != MULTI_DB_MAGIC) {
        return false;
      }
      if magic.value == MAGIC {
        ok := LoadOld(stores, magic.rest, now, config);
      } else {
        var count := ReadSize(magic.rest);
        if count.Fail? {
          return false;
        }
        ok := LoadMany(stores, count.rest, count.value, now, config);
      }
    }
  }

  lemma SaveTextIs(dbs: seq<Db>, now: int, start: string)
    requires start == "" + TextLine(MULTI_DB_MAGIC) + TextLine(Show(|dbs|))
    ensures SaveText(dbs, now) == start + DbsText(dbs, now)
  {
    hide TextLine, Show, DbsText;
    assert "" + TextLine(MULTI_DB_MAGIC) == TextLine(MULTI_DB_MAGIC);
    Assoc(TextLine(MULTI_DB_MAGIC), TextLine(Show(|dbs|)), DbsText(dbs, now));
  }

  method EmptyFrom(stores: seq<DataStore>, first: nat, ghost config: Config)
    requires Ready(stores, config)
    modifies stores
    ensures Ready(stores, config)
    ensures forall k :: 0 <= k < |stores| ==> stores[k].values == if k < first then old(stores[k].values) else map[]
  {
    var i := first;
    while i < |stores|
      invariant first <= i && Ready(stores, config)
      invariant forall k :: 0 <= k < |stores| ==>
                  stores[k].values == if first <= k < i then map[] else old(stores[k].values)
    {
      stores[i].FlushDb();
      i := i + 1;
    }
  }

  /** The single-database format. */
  method LoadOld(stores: seq<DataStore>, input: string, now: int, ghost config: Config) returns (ok: bool)
    requires stores != [] && Ready(stores, config)
    modifies stores
    ensures Ready(stores, config)
    ensures ok == ReadEntries(input).Got?
    ensures !ok ==> Contents(stores) == old(Contents(stores))
    ensures ok ==>
              AllEvicted(config, Emptied(|stores|)[0 := LoadEntries(ReadEntries(input).value, now)], Contents(stores))
  {
    hide ReadEntries, LoadEntries, Evicted;
    NothingEvicted(config);
    var entries := ReadEntryLoop(input);
    if entries.Fail? {
      return false;
    }
    stores[0].LoadSnapshot(entries.value, now);
    EmptyFrom(stores, 1, config);
    return true;
  }

  /** The format with any number of databases. */
  method LoadMany(stores: seq<DataStore>, input: string, count: nat, now: int, ghost config: Config) returns (ok: bool)
    requires Ready(stores, config)
    modifies stores
    ensures Ready(stores, config)
    ensures ok == LoadDbs(input, 0, count, old(Contents(stores)), now).ok
    ensures AllKept(config, LoadDbs(input, 0, count, old(Contents(stores)), now).dbs, Contents(stores))
    ensures ok ==> AllEvicted(config, LoadDbs(input, 0, count, old(Contents(stores)), now).dbs, Contents(stores))
  {
    hide ReadEntries, LoadEntries, Evicted;
    NothingEvicted(config);
    var rest := input;
    ghost var ideal := Contents(stores);
    var i := 0;
    while i < count
      invariant i <= count && Ready(stores, config) && |ideal| == |stores|
      invariant LoadDbs(input, 0, count, old(Contents(stores)), now) == LoadDbs(rest, i, count, ideal, now)
      invariant forall k :: 0 <= k < |stores| ==>
                  if k < i then Evicted(config, ideal[k], stores[k].values) else stores[k].values == ideal[k]
    {
      var entries := ReadEntryLoop(rest);
      if entries.Fail? {
        return false;
      }
      if i < |stores| {
        stores[i].LoadSnapshot(entries.value, now);
        ideal := ideal[i := LoadEntries(entries.value, now)];
      }
      rest := entries.rest;
      i := i + 1;
    }
    EmptyFrom(stores, count, config);
    return true;
  }
}
