/** The snapshot file (`SnapshotPersistence`): what `save` writes, what `load` reads, and that
    loading a saved file restores the databases. */
module Snapshot {
  import opened Text
  import opened CommandParser
  import opened Values
  import opened Operations
  import opened Shape
  import opened Execution

  const MAGIC: string := "SWIFTCACHE_SNAPSHOT_V1"
  const MULTI_DB_MAGIC: string := "SWIFTCACHE_SNAPSHOT_V2"

  datatype Entry = Entry(key: string, value: ValueObject)

  // ----- writing -----------------------------------------------------------------------------------

  function TextLine(s: string): string {
    s + NL
  }

  function BulkText(s: string): string {
    TextLine(Show(|s|)) + (s + NL)
  }

  function BulksText(xs: seq<string>): string {
    if xs == [] then "" else BulkText(xs[0]) + BulksText(xs[1..])
  }

  function FieldsText(hash: map<string, string>, fields: seq<string>): string
    requires forall f :: f in fields ==> f in hash
  {
    if fields == [] then ""
    else BulkText(fields[0]) + (BulkText(hash[fields[0]]) + FieldsText(hash, fields[1..]))
  }

  /** The part of an entry that depends on its type; collections are written in order. */
  function PayloadText(e: ValueObject): string {
    match e.kind
    case StringType => BulkText(e.value)
    case ListType => TextLine(Show(|e.list|)) + BulksText(e.list)
    case HashType =>
      SortedMembers(e.hash.Keys);
      TextLine(Show(|Sorted(e.hash.Keys)|)) + FieldsText(e.hash, Sorted(e.hash.Keys))
    case SetType => TextLine(Show(|Sorted(e.members)|)) + BulksText(Sorted(e.members))
  }

  function EntryText(x: Entry): string {
    BulkText(x.key) + (BulkText(TypeName(x.value.kind)) +
      (TextLine(Show(x.value.createdAt)) + (TextLine(Show(x.value.expiresAt)) + PayloadText(x.value))))
  }

  function EntryListText(xs: seq<Entry>): string {
    if xs == [] then "" else EntryText(xs[0]) + EntryListText(xs[1..])
  }

  function EntriesText(xs: seq<Entry>): string {
    TextLine(Show(|xs|)) + EntryListText(xs)
  }

  function EntriesOf(db: Db, keys: seq<string>): (r: seq<Entry>)
    requires forall k :: k in keys ==> k in db
    ensures |r| == |keys| && forall i :: 0 <= i < |keys| ==> r[i] == Entry(keys[i], db[keys[i]])
  {
    seq(|keys|, i requires 0 <= i < |keys| => Entry(keys[i], db[keys[i]]))
  }

  /** The entries of a database, in key order. */
  function ListingOf(db: Db): seq<Entry> {
    SortedMembers(db.Keys);
    EntriesOf(db, Sorted(db.Keys))
  }

  /** `DataStore::snapshot`: the unexpired entries, in key order. */
  function SnapshotOf(db: Db, now: int): seq<Entry> {
    ListingOf(Purge(db, now))
  }

  function DbsText(dbs: seq<Db>, now: int): string {
    if dbs == [] then "" else EntriesText(SnapshotOf(dbs[0], now)) + DbsText(dbs[1..], now)
  }

  /** `save`: the bytes of the file. */
  function SaveText(dbs: seq<Db>, now: int): string {
    TextLine(MULTI_DB_MAGIC) + (TextLine(Show(|dbs|)) + DbsText(dbs, now))
  }

  // ----- reading -----------------------------------------------------------------------------------

  /** What a read takes from the front of a stream, and the stream after it. */
  datatype Input<T> = Fail | Got(value: T, rest: string)

  /** `std::getline`: a last line without a newline still counts; an exhausted stream fails. */
  function ReadLine(input: string): Input<string> {
    if input == "" then Fail
    else
      var i := FindNewline(input, 0);
      if i.None? then Got(input, "") else Got(input[..i.value], input[i.value + 1..])
  }

  /** `readSize`: `stoull`, which ignores what follows the digits. */
  function ReadSize(input: string): Input<nat> {
    match ReadLine(input)
    case Fail => Fail
    case Got(line, rest) => if Stoull(line).None? then Fail else Got(Stoull(line).value.0, rest)
  }

  function ReadLongLong(input: string): Input<int> {
    match ReadLine(input)
    case Fail => Fail
    case Got(line, rest) => if Stoll(line).None? then Fail else Got(Stoll(line).value.0, rest)
  }

  function ReadBulk(input: string): Input<string> {
    match ReadSize(input)
    case Fail => Fail
    case Got(size, rest) =>
      if |rest| <= size || rest[size] != '\n' then Fail else Got(rest[..size], rest[size + 1..])
  }

  function ReadBulks(input: string, count: nat, read: seq<string>): Input<seq<string>>
    decreases count
  {
    if count == 0 then Got(read, input)
    else
      match ReadBulk(input)
      case Fail => Fail
      case Got(x, rest) => ReadBulks(rest, count - 1, read + [x])
  }

  function ReadFields(input: string, count: nat, read: map<string, string>): Input<map<string, string>>
    decreases count
  {
    if count == 0 then Got(read, input)
    else
      match ReadBulk(input)
      case Fail => Fail
      case Got(field, more) =>
        match ReadBulk(more)
        case Fail => Fail
        case Got(content, rest) => ReadFields(rest, count - 1, read[field := content])
  }

  function TypeNamed(name: string): Option<DataType> {
    if name == "string" then Some(StringType)
    else if name == "list" then Some(ListType)
    else if name == "hash" then Some(HashType)
    else if name == "set" then Some(SetType)
    else None
  }

  function ReadPayload(input: string, e: ValueObject): Input<ValueObject> {
    if e.kind == StringType then
      match ReadBulk(input)
      case Fail => Fail
      case Got(s, rest) => Got(e.(value := s), rest)
    else
      match ReadSize(input)
      case Fail => Fail
      case Got(count, more) =>
        if e.kind == HashType then
          match ReadFields(more, count, map[])
          case Fail => Fail
          case Got(hash, rest) => Got(e.(hash := hash), rest)
        else
          match ReadBulks(more, count, [])
          case Fail => Fail
          case Got(xs, rest) =>
            Got(if e.kind == ListType then e.(list := xs) else e.(members := AsSet(xs)), rest)
  }

  /** A value as it stands before its payload has been read. */
  function Blank(kind: DataType, createdAt: int, expiresAt: int): ValueObject {
    ValueObject("", [], map[], {}, kind, createdAt, expiresAt, -1)
  }

  function ReadHeader(input: string): Input<Entry> {
    match ReadBulk(input)
    case Fail => Fail
    case Got(key, r1) =>
      match ReadBulk(r1)
      case Fail => Fail
      case Got(name, r2) =>
        match ReadLongLong(r2)
        case Fail => Fail
        case Got(createdAt, r3) =>
          match ReadLongLong(r3)
          case Fail => Fail
          case Got(expiresAt, r4) =>
            if TypeNamed(name).None? then Fail
            else Got(Entry(key, Blank(TypeNamed(name).value, createdAt, expiresAt)), r4)
  }

  function ReadEntry(input: string): Input<Entry> {
    match ReadHeader(input)
    case Fail => Fail
    case Got(x, more) =>
      match ReadPayload(more, x.value)
      case Fail => Fail
      case Got(e, rest) => Got(Entry(x.key, e), rest)
  }

  function ReadEntryList(input: string, count: nat, read: seq<Entry>): Input<seq<Entry>>
    decreases count
  {
    if count == 0 then Got(read, input)
    else
      match ReadEntry(input)
      case Fail => Fail
      case Got(x, rest) => ReadEntryList(rest, count - 1, read + [x])
  }

  function ReadEntries(input: string): Input<seq<Entry>> {
    match ReadSize(input)
    case Fail => Fail
    case Got(count, rest) => ReadEntryList(rest, count, [])
  }

  /** `DataStore::loadSnapshot`, before eviction: expired entries are skipped, and an entry
      without an access stamp gets the current time. */
  function LoadEntries(xs: seq<Entry>, now: int): Db {
    if xs == [] then map[]
    else
      var x := xs[|xs| - 1];
      var before := LoadEntries(xs[..|xs| - 1], now);
      if IsExpired(x.value, now) then before
      else before[x.key := if x.value.lastAccessedAt == -1 then Touch(x.value, now) else x.value]
  }

  /** Whether `load` succeeded, and the databases as it left them. */
  datatype Loaded = Loaded(ok: bool, dbs: seq<Db>)

  function LoadDbs(input: string, i: nat, count: nat, dbs: seq<Db>, now: int): (r: Loaded)
    requires i <= count
    ensures |r.dbs| == |dbs|
    decreases count - i
  {
    if i == count then
      Loaded(true, seq(|dbs|, k requires 0 <= k < |dbs| => if k < count then dbs[k] else map[]))
    else
      match ReadEntries(input)
      case Fail => Loaded(false, dbs)
      case Got(xs, rest) =>
        LoadDbs(rest, i + 1, count, if i < |dbs| then dbs[i := LoadEntries(xs, now)] else dbs, now)
  }

  /** `load`, over a file that may not exist. */
  function Load(file: Option<string>, dbs: seq<Db>, now: int): (r: Loaded)
    requires dbs != []
    ensures |r.dbs| == |dbs|
  {
    if file.None? then Loaded(true, dbs)
    else
      match ReadLine(file.value)
      case Fail => Loaded(false, dbs)
      case Got(magic, rest) =>
        if magic == MAGIC then
          match ReadEntries(rest)
          case Fail => Loaded(false, dbs)
          case Got(xs, _) => Loaded(true, Emptied(|dbs|)[0 := LoadEntries(xs, now)])
        else if magic == MULTI_DB_MAGIC then
          match ReadSize(rest)
          case Fail => Loaded(false, dbs)
          case Got(count, more) => LoadDbs(more, 0, count, dbs, now)
        else Loaded(false, dbs)
  }

  // ----- what fits in the file ---------------------------------------------------------------------

  predicate FitsSize(n: nat) {
    n <= MAX_ULL
  }

  /** Sizes and times a C++ process can hold. */
  predicate FitsEntry(x: Entry) {
    && FitsSize(|x.key|) && FitsSize(|x.value.value|) && FitsSize(|x.value.list|)
    && FitsSize(|x.value.hash|) && FitsSize(|x.value.members|)
    && (forall s :: s in x.value.list ==> FitsSize(|s|))
    && (forall f :: f in x.value.hash ==> FitsSize(|f|) && FitsSize(|x.value.hash[f]|))
    && (forall s :: s in x.value.members ==> FitsSize(|s|))
    && MIN_LL <= x.value.createdAt <= MAX_LL && MIN_LL <= x.value.expiresAt <= MAX_LL
  }

  predicate FitsDb(db: Db) {
    FitsSize(|db|) && forall k :: k in db ==> FitsEntry(Entry(k, db[k]))
  }

  predicate FitsAll(dbs: seq<Db>) {
    FitsSize(|dbs|) && forall i :: 0 <= i < |dbs| ==> FitsDb(dbs[i])
  }

  // ----- round trip ----------------------------------------------------------------------------------

  lemma ReadLineOf(s: string, rest: string)
    requires '\n' !in s
    ensures ReadLine(TextLine(s) + rest) == Got(s, rest)
  {
    FindNewlineAt(s, rest, 0);
    var all := s + NL + rest;
    assert all[..|s|] == s && all[|s| + 1..] == rest;
  }

  lemma ReadSizeOf(n: nat, rest: string)
    requires FitsSize(n)
    ensures ReadSize(TextLine(Show(n)) + rest) == Got(n, rest)
  {
    hide Show, ReadLine, Stoull, TextLine;
    ShowHasNoLineEnd(n);
    ReadLineOf(Show(n), rest);
    StoullShow(n);
  }

  lemma ReadLongLongOf(n: int, rest: string)
    requires MIN_LL <= n <= MAX_LL
    ensures ReadLongLong(TextLine(Show(n)) + rest) == Got(n, rest)
  {
    hide Show, ReadLine, Stoll, TextLine;
    ShowHasNoLineEnd(n);
    ReadLineOf(Show(n), rest);
    StollShow(n);
  }

  lemma Assoc(a: string, b: string, c: string)
    ensures a + b + c == a + (b + c)
  {
  }

  lemma ReadBulkOf(s: string, rest: string)
    requires FitsSize(|s|)
    ensures ReadBulk(BulkText(s) + rest) == Got(s, rest)
  {
    hide Show, ReadSize;
    Assoc(TextLine(Show(|s|)), s + NL, rest);
    hide TextLine;
    ReadSizeOf(|s|, s + NL + rest);
    var all := s + NL + rest;
    assert all[|s|] == '\n' && all[..|s|] == s && all[|s| + 1..] == rest;
  }

  lemma {:induction false} ReadBulksOf(xs: seq<string>, read: seq<string>, rest: string)
    requires forall i :: 0 <= i < |xs| ==> FitsSize(|xs[i]|)
    ensures ReadBulks(BulksText(xs) + rest, |xs|, read) == Got(read + xs, rest)
    decreases |xs|
  {
    hide BulkText, ReadBulk;
    if xs == [] {
      assert "" + rest == rest && read + xs == read;
    } else {
      Assoc(BulkText(xs[0]), BulksText(xs[1..]), rest);
      ReadBulkOf(xs[0], BulksText(xs[1..]) + rest);
      ReadBulksOf(xs[1..], read + [xs[0]], rest);
      assert read + [xs[0]] + xs[1..] == read + xs;
    }
  }

  /** The fields in `fields`, with their values, on top of `read`. */
  function WithFields(read: map<string, string>, hash: map<string, string>, fields: seq<string>): map<string, string>
    requires forall f :: f in fields ==> f in hash
  {
    read + map f | f in fields :: hash[f]
  }

  lemma {:induction false} ReadFieldsOf(hash: map<string, string>, fields: seq<string>, read: map<string, string>,
                                        rest: string)
    requires forall f :: f in fields ==> f in hash && FitsSize(|f|) && FitsSize(|hash[f]|)
    ensures ReadFields(FieldsText(hash, fields) + rest, |fields|, read) == Got(WithFields(read, hash, fields), rest)
    decreases |fields|
  {
    hide BulkText, ReadBulk, FitsSize, WithFields;
    if fields == [] {
      assert "" + rest == rest;
      NoFields(read, hash);
    } else {
      var f := fields[0];
      assert f in fields;
      var tail := FieldsText(hash, fields[1..]);
      Assoc(BulkText(f), BulkText(hash[f]) + tail, rest);
      Assoc(BulkText(hash[f]), tail, rest);
      ReadBulkOf(f, BulkText(hash[f]) + (tail + rest));
      ReadBulkOf(hash[f], tail + rest);
      ReadFieldsOf(hash, fields[1..], read[f := hash[f]], rest);
      WithFieldsStep(read, hash, fields);
    }
  }

  lemma NoFields(read: map<string, string>, hash: map<string, string>)
    ensures WithFields(read, hash, []) == read
  {
  }

  lemma WithFieldsStep(read: map<string, string>, hash: map<string, string>, fields: seq<string>)
    requires fields != [] && forall f :: f in fields ==> f in hash
    ensures WithFields(read[fields[0] := hash[fields[0]]], hash, fields[1..]) == WithFields(read, hash, fields)
  {
    assert fields == [fields[0]] + fields[1..];
  }

  /** The value a load yields for a stored one: the same, without its access stamp. */
  function Unstamped(e: ValueObject): ValueObject {
    e.(lastAccessedAt := -1)
  }

  /** A counted list of strings reads back, whatever follows it. */
  lemma ReadCountedOf(xs: seq<string>, rest: string)
    requires FitsSize(|xs|) && forall s :: s in xs ==> FitsSize(|s|)
    ensures var text := TextLine(Show(|xs|)) + BulksText(xs) + rest;
            && ReadSize(text) == Got(|xs|, BulksText(xs) + rest)
            && ReadBulks(BulksText(xs) + rest, |xs|, []) == Got(xs, rest)
  {
    hide TextLine, Show, ReadSize, BulksText, ReadBulks;
    Assoc(TextLine(Show(|xs|)), BulksText(xs), rest);
    ReadSizeOf(|xs|, BulksText(xs) + rest);
    ReadBulksOf(xs, [], rest);
    assert [] + xs == xs;
  }

  lemma ReadListOf(e: ValueObject, rest: string)
    requires Shaped(e) && FitsEntry(Entry("", e)) && e.kind == ListType
    ensures ReadPayload(PayloadText(e) + rest, Blank(e.kind, e.createdAt, e.expiresAt)) == Got(Unstamped(e), rest)
  {
    hide TextLine, Show, ReadSize, BulksText, ReadBulks, FitsSize;
    ReadCountedOf(e.list, rest);
  }

  lemma ReadSetOf(e: ValueObject, rest: string)
    requires Shaped(e) && FitsEntry(Entry("", e)) && e.kind == SetType
    ensures ReadPayload(PayloadText(e) + rest, Blank(e.kind, e.createdAt, e.expiresAt)) == Got(Unstamped(e), rest)
  {
    hide TextLine, Show, ReadSize, BulksText, ReadBulks, FitsSize;
    SortedMembers(e.members);
    ReadCountedOf(Sorted(e.members), rest);
    assert AsSet(Sorted(e.members)) == e.members;
  }

  lemma ReadHashOf(e: ValueObject, rest: string)
    requires Shaped(e) && FitsEntry(Entry("", e)) && e.kind == HashType
    ensures ReadPayload(PayloadText(e) + rest, Blank(e.kind, e.createdAt, e.expiresAt)) == Got(Unstamped(e), rest)
  {
    hide TextLine, Show, ReadSize, FieldsText, ReadFields;
    var fields := Sorted(e.hash.Keys);
    SortedMembers(e.hash.Keys);
    assert |fields| == |e.hash|;
    Assoc(TextLine(Show(|fields|)), FieldsText(e.hash, fields), rest);
    ReadSizeOf(|fields|, FieldsText(e.hash, fields) + rest);
    ReadFieldsOf(e.hash, fields, map[], rest);
    assert WithFields(map[], e.hash, fields) == e.hash;
  }

  lemma ReadPayloadOf(e: ValueObject, rest: string)
    requires Shaped(e) && FitsEntry(Entry("", e))
    ensures ReadPayload(PayloadText(e) + rest, Blank(e.kind, e.createdAt, e.expiresAt)) == Got(Unstamped(e), rest)
  {
    if e.kind == StringType {
      hide BulkText, ReadBulk;
      ReadBulkOf(e.value, rest);
    } else {
      hide PayloadText, ReadPayload;
      if e.kind == HashType {
        ReadHashOf(e, rest);
      } else if e.kind == ListType {
        ReadListOf(e, rest);
      } else {
        ReadSetOf(e, rest);
      }
    }
  }

  lemma TypeNamesReadBack(t: DataType)
    ensures TypeNamed(TypeName(t)) == Some(t) && FitsSize(|TypeName(t)|)
  {
    assert "hash"[0] != "list"[0];
  }

  lemma ReadHeaderOf(x: Entry, rest: string)
    requires FitsEntry(x)
    ensures ReadHeader(BulkText(x.key) + (BulkText(TypeName(x.value.kind)) +
              (TextLine(Show(x.value.createdAt)) + (TextLine(Show(x.value.expiresAt)) + rest)))) ==
            Got(Entry(x.key, Blank(x.value.kind, x.value.createdAt, x.value.expiresAt)), rest)
  {
    hide BulkText, TextLine, Show, ReadBulk, ReadLongLong, TypeName, TypeNamed;
    TypeNamesReadBack(x.value.kind);
    var r3 := TextLine(Show(x.value.expiresAt)) + rest;
    var r2 := TextLine(Show(x.value.createdAt)) + r3;
    var r1 := BulkText(TypeName(x.value.kind)) + r2;
    ReadBulkOf(x.key, r1);
    ReadBulkOf(TypeName(x.value.kind), r2);
    ReadLongLongOf(x.value.createdAt, r3);
    ReadLongLongOf(x.value.expiresAt, rest);
  }

  lemma ReadEntryOf(x: Entry, rest: string)
    requires Shaped(x.value) && FitsEntry(x)
    ensures ReadEntry(EntryText(x) + rest) == Got(Entry(x.key, Unstamped(x.value)), rest)
  {
    hide BulkText, TextLine, Show, ReadHeader, ReadPayload, PayloadText, Shaped;
    var t4 := PayloadText(x.value);
    var t3 := TextLine(Show(x.value.expiresAt)) + t4;
    var t2 := TextLine(Show(x.value.createdAt)) + t3;
    var t1 := BulkText(TypeName(x.value.kind)) + t2;
    Assoc(BulkText(x.key), t1, rest);
    Assoc(BulkText(TypeName(x.value.kind)), t2, rest);
    Assoc(TextLine(Show(x.value.createdAt)), t3, rest);
    Assoc(TextLine(Show(x.value.expiresAt)), t4, rest);
    ReadHeaderOf(x, t4 + rest);
    ReadPayloadOf(x.value, rest);
  }

  /** Entries as a load reads them back. */
  function AllUnstamped(xs: seq<Entry>): (r: seq<Entry>)
    ensures |r| == |xs| && forall i :: 0 <= i < |xs| ==> r[i] == Entry(xs[i].key, Unstamped(xs[i].value))
  {
    seq(|xs|, i requires 0 <= i < |xs| => Entry(xs[i].key, Unstamped(xs[i].value)))
  }

  predicate GoodEntries(xs: seq<Entry>) {
    forall i :: 0 <= i < |xs| ==> Shaped(xs[i].value) && FitsEntry(xs[i])
  }

  lemma {:induction false} ReadEntryListOf(xs: seq<Entry>, read: seq<Entry>, rest: string)
    requires GoodEntries(xs)
    ensures ReadEntryList(EntryListText(xs) + rest, |xs|, read) == Got(read + AllUnstamped(xs), rest)
    decreases |xs|
  {
    hide EntryText, ReadEntry, Shaped, FitsEntry;
    if xs == [] {
      assert "" + rest == rest && read + AllUnstamped(xs) == read;
    } else {
      Assoc(EntryText(xs[0]), EntryListText(xs[1..]), rest);
      ReadEntryOf(xs[0], EntryListText(xs[1..]) + rest);
      var x := Entry(xs[0].key, Unstamped(xs[0].value));
      ReadEntryListOf(xs[1..], read + [x], rest);
      assert read + [x] + AllUnstamped(xs[1..]) == read + AllUnstamped(xs);
    }
  }

  lemma ReadEntriesOf(xs: seq<Entry>, rest: string)
    requires GoodEntries(xs) && FitsSize(|xs|)
    ensures ReadEntries(EntriesText(xs) + rest) == Got(AllUnstamped(xs), rest)
  {
    hide TextLine, Show, ReadSize, EntryListText, ReadEntryList, GoodEntries;
    Assoc(TextLine(Show(|xs|)), EntryListText(xs), rest);
    ReadSizeOf(|xs|, EntryListText(xs) + rest);
    ReadEntryListOf(xs, [], rest);
    assert [] + AllUnstamped(xs) == AllUnstamped(xs);
  }

  /** A database as a load restores it: what had expired by the save or by the load is gone. */
  function Restored(db: Db, savedAt: int, loadedAt: int): Db {
    map k | k in db && !IsExpired(db[k], savedAt) && !IsExpired(db[k], loadedAt) :: Touch(db[k], loadedAt)
  }

  /** What loading the entries of `db` under `keys` gives. */
  function LoadedKeys(db: Db, keys: seq<string>, now: int): Db
    requires forall k :: k in keys ==> k in db
  {
    map k | k in keys && !IsExpired(db[k], now) :: Touch(db[k], now)
  }

  lemma LoadedKeysStep(db: Db, keys: seq<string>, now: int)
    requires keys != [] && forall k :: k in keys ==> k in db
    ensures var last := keys[|keys| - 1];
            var front := LoadedKeys(db, keys[..|keys| - 1], now);
            last !in keys[..|keys| - 1] ==>
            LoadedKeys(db, keys, now) == if IsExpired(db[last], now) then front else front[last := Touch(db[last], now)]
  {
    assert keys == keys[..|keys| - 1] + [keys[|keys| - 1]];
  }

  lemma {:induction false} LoadEntriesOf(db: Db, keys: seq<string>, now: int)
    requires (forall k :: k in keys ==> k in db) && (forall i, j :: 0 <= i < j < |keys| ==> keys[i] != keys[j])
    ensures LoadEntries(AllUnstamped(EntriesOf(db, keys)), now) == LoadedKeys(db, keys, now)
    decreases |keys|
  {
    hide LoadedKeys;
    if keys == [] {
      assert LoadedKeys(db, [], now) == map[] by { NoKeys(db, now); }
    } else {
      var front, last := keys[..|keys| - 1], keys[|keys| - 1];
      LoadEntriesOf(db, front, now);
      LoadedKeysStep(db, keys, now);
      var xs := AllUnstamped(EntriesOf(db, keys));
      assert xs[..|keys| - 1] == AllUnstamped(EntriesOf(db, front));
      assert xs[|keys| - 1] == Entry(last, Unstamped(db[last]));
      assert Touch(Unstamped(db[last]), now) == Touch(db[last], now);
    }
  }

  lemma NoKeys(db: Db, now: int)
    ensures LoadedKeys(db, [], now) == map[]
  {
  }

  lemma SnapshotLoads(db: Db, savedAt: int, loadedAt: int)
    ensures LoadEntries(AllUnstamped(SnapshotOf(db, savedAt)), loadedAt) == Restored(db, savedAt, loadedAt)
  {
    hide LoadEntries;
    var kept := Purge(db, savedAt);
    SortedMembers(kept.Keys);
    SortedAscends(kept.Keys);
    LoadEntriesOf(kept, Sorted(kept.Keys), loadedAt);
  }

  lemma SnapshotIsGood(db: Db, now: int)
    requires WellShaped(db) && FitsDb(db)
    ensures GoodEntries(SnapshotOf(db, now)) && FitsSize(|SnapshotOf(db, now)|)
  {
    hide Shaped, FitsEntry;
    var kept := Purge(db, now);
    SortedMembers(kept.Keys);
    var keys := Sorted(kept.Keys);
    forall i | 0 <= i < |keys| ensures keys[i] in kept { assert keys[i] in keys; }
    FewerKeys(kept, db);
  }

  lemma FewerKeys(a: Db, b: Db)
    requires a.Keys <= b.Keys
    ensures |a| <= |b|
  {
    assert |a| == |a.Keys| && |b| == |b.Keys|;
    FewerMembers(a.Keys, b.Keys);
  }

  /** The target databases once the first `i` of the saved ones have been loaded. */
  function PartlyLoaded(saved: seq<Db>, i: nat, target: seq<Db>, savedAt: int, loadedAt: int): (r: seq<Db>)
    requires i <= |saved|
    ensures |r| == |target|
  {
    seq(|target|, k requires 0 <= k < |target| => if k < i then Restored(saved[k], savedAt, loadedAt) else target[k])
  }

  lemma PartlyLoadedStep(saved: seq<Db>, i: nat, target: seq<Db>, savedAt: int, loadedAt: int)
    requires i < |saved|
    ensures var now := PartlyLoaded(saved, i, target, savedAt, loadedAt);
            PartlyLoaded(saved, i + 1, target, savedAt, loadedAt) ==
            if i < |target| then now[i := Restored(saved[i], savedAt, loadedAt)] else now
  {
    hide Restored;
  }

  /** `saved` restored into as many databases as there are; the others emptied. */
  function RestoredAll(saved: seq<Db>, n: nat, savedAt: int, loadedAt: int): (r: seq<Db>)
    ensures |r| == n
  {
    seq(n, k requires 0 <= k < n => if k < |saved| then Restored(saved[k], savedAt, loadedAt) else map[])
  }

  lemma {:induction false} LoadDbsOf(saved: seq<Db>, i: nat, target: seq<Db>, savedAt: int, loadedAt: int)
    requires i <= |saved| && AllShaped(saved) && FitsAll(saved)
    ensures LoadDbs(DbsText(saved[i..], savedAt), i, |saved|, PartlyLoaded(saved, i, target, savedAt, loadedAt),
                    loadedAt)
            == Loaded(true, RestoredAll(saved, |target|, savedAt, loadedAt))
    decreases |saved| - i
  {
    hide ReadEntries, EntriesText, LoadEntries, Restored, WellShaped, FitsDb, SnapshotOf, AllUnstamped;
    if i < |saved| {
      var xs := SnapshotOf(saved[i], savedAt);
      var more := DbsText(saved[i + 1..], savedAt);
      assert saved[i..][1..] == saved[i + 1..];
      SnapshotIsGood(saved[i], savedAt);
      ReadEntriesOf(xs, more);
      SnapshotLoads(saved[i], savedAt, loadedAt);
      PartlyLoadedStep(saved, i, target, savedAt, loadedAt);
      LoadDbsOf(saved, i + 1, target, savedAt, loadedAt);
    } else {
      assert forall k :: 0 <= k < |target| ==>
        (if k < |saved| then PartlyLoaded(saved, i, target, savedAt, loadedAt)[k] else map[])
        == RestoredAll(saved, |target|, savedAt, loadedAt)[k];
    }
  }

  /** Saving any number of databases and loading them into any number restores, index by index,
      every entry unexpired at the save and at the load with its type, payload, creation and
      expiry time, for arbitrary bytes, and empties the databases that were not saved. */
  lemma SnapshotRoundTrip(saved: seq<Db>, target: seq<Db>, savedAt: int, loadedAt: int)
    requires AllShaped(saved) && FitsAll(saved) && target != []
    ensures Load(Some(SaveText(saved, savedAt)), target, loadedAt) ==
            Loaded(true, RestoredAll(saved, |target|, savedAt, loadedAt))
  {
    hide TextLine, Show, ReadLine, ReadSize, DbsText, LoadDbs, AllShaped, RestoredAll;
    var body := TextLine(Show(|saved|)) + DbsText(saved, savedAt);
    MagicIsALine();
    ReadLineOf(MULTI_DB_MAGIC, body);
    ReadSizeOf(|saved|, DbsText(saved, savedAt));
    LoadDbsOf(saved, 0, target, savedAt, loadedAt);
    assert saved[0..] == saved;
    assert PartlyLoaded(saved, 0, target, savedAt, loadedAt) == target;
  }

  lemma MagicIsALine()
    ensures '\n' !in MULTI_DB_MAGIC && MULTI_DB_MAGIC != MAGIC
  {
    assert MULTI_DB_MAGIC[21] != MAGIC[21];
  }

  /** What is observable of a restored database. */
  lemma RestoredLive(db: Db, savedAt: int, loadedAt: int, t: int)
    requires savedAt <= t && loadedAt <= t
    ensures Live(Restored(db, savedAt, loadedAt), t) == Live(db, t)
  {
  }

  lemma RestoredShape(db: Db, savedAt: int, loadedAt: int)
    requires WellShaped(db)
    ensures WellShaped(Restored(db, savedAt, loadedAt))
  {
  }

  /** Loading a saved snapshot gives well-shaped databases. */
  lemma LoadedIsShaped(saved: seq<Db>, target: seq<Db>, savedAt: int, loadedAt: int)
    requires AllShaped(saved) && FitsAll(saved) && target != []
    ensures AllShaped(Load(Some(SaveText(saved, savedAt)), target, loadedAt).dbs)
  {
    hide Load, SaveText, FitsAll, WellShaped;
    SnapshotRoundTrip(saved, target, savedAt, loadedAt);
    EmptyIsShaped();
    forall k | 0 <= k < |target| ensures WellShaped(RestoredAll(saved, |target|, savedAt, loadedAt)[k]) {
      if k < |saved| { RestoredShape(saved[k], savedAt, loadedAt); }
    }
  }
}
