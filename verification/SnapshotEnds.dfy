/** The single-database snapshot format, and snapshot files of either format that end early: what
    a load makes of them, database by database. */
module SnapshotEnds {
  import opened Text
  import opened CommandParser
  import opened Values
  import opened Shape
  import opened Execution
  import opened Snapshot

  // ----- the single-database format --------------------------------------------------------------

  /** A file of the older format. */
  function OldText(db: Db, savedAt: int): string {
    TextLine(MAGIC) + EntriesText(SnapshotOf(db, savedAt))
  }

  lemma OldMagicIsALine()
    ensures '\n' !in MAGIC && MULTI_DB_MAGIC != MAGIC
  {
    assert MULTI_DB_MAGIC[21] != MAGIC[21];
  }

  /** Such a file loads into database 0, with all its entries that are unexpired at the save and
      at the load, and empties the others, whatever they held and whatever follows in the file. */
  lemma OldFormatLoads(db: Db, target: seq<Db>, savedAt: int, loadedAt: int, rest: string)
    requires WellShaped(db) && FitsDb(db) && target != []
    ensures var r := Load(Some(OldText(db, savedAt) + rest), target, loadedAt);
            && r.ok && r.dbs[0] == Restored(db, savedAt, loadedAt)
            && forall k :: 1 <= k < |target| ==> r.dbs[k] == map[]
  {
    hide TextLine, Load, ReadEntries, EntriesText, LoadEntries, SnapshotOf, WellShaped, FitsDb, AllUnstamped,
      Restored;
    var xs := SnapshotOf(db, savedAt);
    Assoc(TextLine(MAGIC), EntriesText(xs), rest);
    OldLoadIs(EntriesText(xs) + rest, target, loadedAt);
    SnapshotIsGood(db, savedAt);
    ReadEntriesOf(xs, rest);
    SnapshotLoads(db, savedAt, loadedAt);
  }

  // ----- torn lines ------------------------------------------------------------------------------

  /** Cutting a text made of two parts. */
  lemma CutInTwo(a: string, b: string, m: nat)
    requires m <= |a| + |b|
    ensures (a + b)[..m] == if m < |a| then a[..m] else a + b[..m - |a|]
  {
  }

  lemma {:induction false} NoNewline(s: string, from: nat)
    requires '\n' !in s
    ensures FindNewline(s, from).None?
    decreases |s| - from
  {
    if from < |s| { NoNewline(s, from + 1); }
  }

  /** A line without its end still reads, as what is left of it. */
  lemma TornLine(s: string, m: nat)
    requires '\n' !in s && m < |TextLine(s)|
    ensures ReadLine(TextLine(s)[..m]) == if m == 0 then Fail else Got(s[..m], "")
  {
    CutInTwo(s, NL, m);
    assert m == |s| ==> s + NL[..0] == s && s[..m] == s;
    assert TextLine(s)[..m] == s[..m];
    NoNewline(s[..m], 0);
  }

  /** The front of a positive number is a positive number. */
  lemma {:induction false} FrontOfDecimal(n: nat, m: nat) returns (q: nat)
    requires 0 < n && 0 < m <= |Decimal(n)|
    ensures 0 < q <= n && Decimal(n)[..m] == Decimal(q)
    decreases n
  {
    if m == |Decimal(n)| {
      q := n;
      assert Decimal(n)[..m] == Decimal(n);
    } else {
      assert n >= 10 && Decimal(n) == Decimal(n / 10) + [DigitChar(n % 10)];
      q := FrontOfDecimal(n / 10, m);
      CutInTwo(Decimal(n / 10), [DigitChar(n % 10)], m);
      assert m == |Decimal(n / 10)| ==> Decimal(n / 10)[..m] == Decimal(n / 10);
      assert Decimal(n)[..m] == Decimal(n / 10)[..m];
    }
  }

  /** A torn count of something does not read as nothing. */
  lemma TornCount(n: nat, m: nat)
    requires 0 < n && FitsSize(n) && m < |TextLine(Show(n))|
    ensures var r := ReadSize(TextLine(Show(n))[..m]);
            r.Fail? || (r.value > 0 && r.rest == "")
  {
    ShowHasNoLineEnd(n);
    TornLine(Show(n), m);
    if m > 0 {
      var q := FrontOfDecimal(n, m);
      StoullShow(q);
      hide Decimal, Stoull, ReadLine, TextLine;
    }
  }

  /** Any torn number line leaves nothing to read. */
  lemma TornNumber(n: int, m: nat)
    requires m < |TextLine(Show(n))|
    ensures var r := ReadLongLong(TextLine(Show(n))[..m]);
            r.Fail? || r.rest == ""
    ensures var r := ReadSize(TextLine(Show(n))[..m]);
            r.Fail? || r.rest == ""
  {
    ShowHasNoLineEnd(n);
    TornLine(Show(n), m);
    hide Show, Stoull, Stoll, ReadLine, TextLine;
  }

  // ----- torn strings, payloads and entries ------------------------------------------------------

  lemma TornBulk(s: string, m: nat)
    requires FitsSize(|s|) && m < |BulkText(s)|
    ensures ReadBulk(BulkText(s)[..m]) == Fail
  {
    var line := TextLine(Show(|s|));
    CutInTwo(line, s + NL, m);
    if m < |line| {
      hide TextLine, Show, ReadSize;
      TornNumber(|s|, m);
    } else {
      hide TextLine, Show, ReadSize;
      ReadSizeOf(|s|, (s + NL)[..m - |line|]);
    }
  }

  lemma NothingReads()
    ensures ReadLine("") == Fail && ReadSize("") == Fail && ReadBulk("") == Fail && ReadLongLong("") == Fail
    ensures ReadHeader("") == Fail && ReadEntries("") == Fail
    ensures forall e :: ReadPayload("", e) == Fail
  {
  }

  lemma {:induction false} TornBulks(xs: seq<string>, m: nat, read: seq<string>)
    requires (forall i :: 0 <= i < |xs| ==> FitsSize(|xs[i]|)) && m < |BulksText(xs)|
    ensures ReadBulks(BulksText(xs)[..m], |xs|, read) == Fail
    decreases |xs|
  {
    hide BulkText, ReadBulk;
    var first, more := BulkText(xs[0]), BulksText(xs[1..]);
    CutInTwo(first, more, m);
    if m < |first| {
      TornBulk(xs[0], m);
    } else {
      ReadBulkOf(xs[0], more[..m - |first|]);
      TornBulks(xs[1..], m - |first|, read + [xs[0]]);
    }
  }

  lemma {:induction false} TornFields(hash: map<string, string>, fields: seq<string>, m: nat, read: map<string, string>)
    requires forall f :: f in fields ==> f in hash && FitsSize(|f|) && FitsSize(|hash[f]|)
    requires m < |FieldsText(hash, fields)|
    ensures ReadFields(FieldsText(hash, fields)[..m], |fields|, read) == Fail
    decreases |fields|
  {
    hide BulkText, ReadBulk, FitsSize;
    var f := fields[0];
    assert f in fields;
    var a, b, more := BulkText(f), BulkText(hash[f]), FieldsText(hash, fields[1..]);
    CutInTwo(a, b + more, m);
    if m < |a| {
      TornBulk(f, m);
    } else {
      var n := m - |a|;
      ReadBulkOf(f, (b + more)[..n]);
      CutInTwo(b, more, n);
      if n < |b| {
        TornBulk(hash[f], n);
      } else {
        ReadBulkOf(hash[f], more[..n - |b|]);
        TornFields(hash, fields[1..], n - |b|, read[f := hash[f]]);
      }
    }
  }

  lemma TornCounted(xs: seq<string>, m: nat, e: ValueObject)
    requires xs != [] && FitsSize(|xs|) && (forall i :: 0 <= i < |xs| ==> FitsSize(|xs[i]|))
    requires m < |TextLine(Show(|xs|)) + BulksText(xs)| && (e.kind == ListType || e.kind == SetType)
    ensures ReadPayload((TextLine(Show(|xs|)) + BulksText(xs))[..m], e) == Fail
  {
    var line, more := TextLine(Show(|xs|)), BulksText(xs);
    hide TextLine, Show, ReadSize, BulksText, FitsSize;
    CutInTwo(line, more, m);
    NothingReads();
    if m < |line| {
      TornCount(|xs|, m);
    } else {
      ReadSizeOf(|xs|, more[..m - |line|]);
      TornBulks(xs, m - |line|, []);
    }
  }

  lemma TornHash(hash: map<string, string>, fields: seq<string>, m: nat, e: ValueObject)
    requires fields != [] && FitsSize(|fields|) && e.kind == HashType
    requires forall f :: f in fields ==> f in hash && FitsSize(|f|) && FitsSize(|hash[f]|)
    requires m < |TextLine(Show(|fields|)) + FieldsText(hash, fields)|
    ensures ReadPayload((TextLine(Show(|fields|)) + FieldsText(hash, fields))[..m], e) == Fail
  {
    var line, more := TextLine(Show(|fields|)), FieldsText(hash, fields);
    hide TextLine, Show, ReadSize, FieldsText, FitsSize;
    CutInTwo(line, more, m);
    NothingReads();
    if m < |line| {
      TornCount(|fields|, m);
    } else {
      ReadSizeOf(|fields|, more[..m - |line|]);
      TornFields(hash, fields, m - |line|, map[]);
    }
  }

  lemma TornPayload(x: ValueObject, m: nat, e: ValueObject)
    requires Shaped(x) && FitsEntry(Entry("", x)) && e.kind == x.kind && m < |PayloadText(x)|
    ensures ReadPayload(PayloadText(x)[..m], e) == Fail
  {
    hide TextLine, Show, ReadSize, BulksText, FieldsText, ReadBulks, ReadFields, BulkText, ReadBulk;
    match x.kind {
      case StringType => TornBulk(x.value, m);
      case ListType => TornCounted(x.list, m, e);
      case HashType =>
        SortedMembers(x.hash.Keys);
        assert |Sorted(x.hash.Keys)| == |x.hash|;
        TornHash(x.hash, Sorted(x.hash.Keys), m, e);
      case SetType =>
        SortedMembers(x.members);
        TornCounted(Sorted(x.members), m, e);
    }
  }

  lemma TornTimes(x: Entry, m: nat)
    requires Shaped(x.value) && FitsEntry(x)
    requires m < |TextLine(Show(x.value.createdAt)) + (TextLine(Show(x.value.expiresAt)) + PayloadText(x.value))|
    ensures var text := TextLine(Show(x.value.createdAt)) + (TextLine(Show(x.value.expiresAt)) + PayloadText(x.value));
            var r := ReadLongLong(text[..m]);
            r.Fail? ||
            (var q := ReadLongLong(r.rest);
             q.Fail? || forall e: ValueObject :: e.kind == x.value.kind ==> ReadPayload(q.rest, e) == Fail)
  {
    hide TextLine, Show, ReadLongLong, PayloadText, ReadPayload, Shaped;
    var a, b, payload := TextLine(Show(x.value.createdAt)), TextLine(Show(x.value.expiresAt)), PayloadText(x.value);
    NothingReads();
    CutInTwo(a, b + payload, m);
    if m < |a| {
      TornNumber(x.value.createdAt, m);
    } else {
      var n := m - |a|;
      ReadLongLongOf(x.value.createdAt, (b + payload)[..n]);
      CutInTwo(b, payload, n);
      if n < |b| {
        TornNumber(x.value.expiresAt, n);
      } else {
        ReadLongLongOf(x.value.expiresAt, payload[..n - |b|]);
        forall e: ValueObject | e.kind == x.value.kind ensures ReadPayload(payload[..n - |b|], e) == Fail {
          TornPayload(x.value, n - |b|, e);
        }
      }
    }
  }

  /** A torn entry does not read. */
  lemma TornEntry(x: Entry, m: nat)
    requires Shaped(x.value) && FitsEntry(x) && m < |EntryText(x)|
    ensures ReadEntry(EntryText(x)[..m]) == Fail
  {
    var times := TextLine(Show(x.value.createdAt)) + (TextLine(Show(x.value.expiresAt)) + PayloadText(x.value));
    var a, b := BulkText(x.key), BulkText(TypeName(x.value.kind));
    TypeNamesReadBack(x.value.kind);
    hide BulkText, TextLine, Show, ReadBulk, ReadLongLong, PayloadText, ReadPayload, Shaped, TypeName, TypeNamed;
    CutInTwo(a, b + times, m);
    if m < |a| {
      TornBulk(x.key, m);
    } else {
      var n := m - |a|;
      ReadBulkOf(x.key, (b + times)[..n]);
      CutInTwo(b, times, n);
      if n < |b| {
        TornBulk(TypeName(x.value.kind), n);
      } else {
        ReadBulkOf(TypeName(x.value.kind), times[..n - |b|]);
        TornTimes(x, n - |b|);
      }
    }
  }

  lemma {:induction false} TornEntryList(xs: seq<Entry>, m: nat, read: seq<Entry>)
    requires GoodEntries(xs) && m < |EntryListText(xs)|
    ensures ReadEntryList(EntryListText(xs)[..m], |xs|, read) == Fail
    decreases |xs|
  {
    hide EntryText, ReadEntry, Shaped, FitsEntry;
    var first, more := EntryText(xs[0]), EntryListText(xs[1..]);
    CutInTwo(first, more, m);
    if m < |first| {
      TornEntry(xs[0], m);
    } else {
      ReadEntryOf(xs[0], more[..m - |first|]);
      TornEntryList(xs[1..], m - |first|, read + [Entry(xs[0].key, Unstamped(xs[0].value))]);
    }
  }

  /** The torn entries of a database do not read; only an empty database may lose the newline
      after its count. */
  lemma TornEntries(xs: seq<Entry>, m: nat)
    requires GoodEntries(xs) && FitsSize(|xs|) && m < |EntriesText(xs)|
    ensures var r := ReadEntries(EntriesText(xs)[..m]);
            r == Fail || (xs == [] && r == Got([], ""))
  {
    var line, more := TextLine(Show(|xs|)), EntryListText(xs);
    if xs == [] {
      assert Show(0) == "0" && line == "0\n" && EntriesText(xs) == "0\n";
      StoullShow(0);
      ShowHasNoLineEnd(0);
      TornLine(Show(0), m);
      assert "0"[..1] == "0";
      hide Stoull, ReadLine, TextLine, Show;
    } else {
      hide TextLine, Show, ReadSize, EntryListText, GoodEntries, FitsSize, ReadHeader, ReadPayload;
      CutInTwo(line, more, m);
      NothingReads();
      if m < |line| {
        TornCount(|xs|, m);
      } else {
        ReadSizeOf(|xs|, more[..m - |line|]);
        TornEntryList(xs, m - |line|, []);
      }
    }
  }

  // ----- files that end early --------------------------------------------------------------------

  /** What a load of a cut file may be: everything restored, or a failure with the databases
      before some point restored and the others as they were. */
  ghost predicate LoadsUpTo(r: Loaded, saved: seq<Db>, target: seq<Db>, savedAt: int, loadedAt: int) {
    || r == Loaded(true, RestoredAll(saved, |target|, savedAt, loadedAt))
    || exists j :: 0 <= j <= |saved| && r == Loaded(false, PartlyLoaded(saved, j, target, savedAt, loadedAt))
  }

  lemma AllLoaded(saved: seq<Db>, target: seq<Db>, savedAt: int, loadedAt: int, dbs: seq<Db>)
    requires dbs == PartlyLoaded(saved, |saved|, target, savedAt, loadedAt)
    ensures seq(|dbs|, k requires 0 <= k < |dbs| => if k < |saved| then dbs[k] else map[]) ==
            RestoredAll(saved, |target|, savedAt, loadedAt)
  {
    hide Restored;
  }

  /** One more database has been read. */
  lemma NextDb(saved: seq<Db>, i: nat, target: seq<Db>, savedAt: int, loadedAt: int, input: string, rest: string)
    requires i < |saved| && WellShaped(saved[i])
    requires ReadEntries(input) == Got(AllUnstamped(SnapshotOf(saved[i], savedAt)), rest)
    ensures LoadDbs(input, i, |saved|, PartlyLoaded(saved, i, target, savedAt, loadedAt), loadedAt) ==
            LoadDbs(rest, i + 1, |saved|, PartlyLoaded(saved, i + 1, target, savedAt, loadedAt), loadedAt)
  {
    hide ReadEntries, LoadEntries, Restored, WellShaped, SnapshotOf, AllUnstamped;
    SnapshotLoads(saved[i], savedAt, loadedAt);
    PartlyLoadedStep(saved, i, target, savedAt, loadedAt);
  }

  lemma NothingMore(saved: seq<Db>, i: nat, target: seq<Db>, savedAt: int, loadedAt: int)
    requires i <= |saved|
    ensures LoadsUpTo(LoadDbs("", i, |saved|, PartlyLoaded(saved, i, target, savedAt, loadedAt), loadedAt),
                      saved, target, savedAt, loadedAt)
  {
    hide Restored, ReadHeader, ReadPayload;
    NothingReads();
    if i == |saved| { AllLoaded(saved, target, savedAt, loadedAt, PartlyLoaded(saved, i, target, savedAt, loadedAt)); }
  }

  lemma {:induction false} TornDbs(saved: seq<Db>, i: nat, target: seq<Db>, savedAt: int, loadedAt: int, m: nat)
    requires i <= |saved| && AllShaped(saved) && FitsAll(saved) && m < |DbsText(saved[i..], savedAt)|
    ensures LoadsUpTo(LoadDbs(DbsText(saved[i..], savedAt)[..m], i, |saved|,
                              PartlyLoaded(saved, i, target, savedAt, loadedAt), loadedAt),
                      saved, target, savedAt, loadedAt)
    decreases |saved| - i
  {
    hide ReadEntries, EntriesText, LoadEntries, WellShaped, FitsDb, SnapshotOf, AllUnstamped, PartlyLoaded, RestoredAll;
    var xs := SnapshotOf(saved[i], savedAt);
    var first, more := EntriesText(xs), DbsText(saved[i + 1..], savedAt);
    assert saved[i..][1..] == saved[i + 1..];
    SnapshotIsGood(saved[i], savedAt);
    CutInTwo(first, more, m);
    if m < |first| {
      TornEntries(xs, m);
      if ReadEntries(first[..m]).Got? {
        assert AllUnstamped(xs) == [] by { assert |AllUnstamped(xs)| == 0; }
        NextDb(saved, i, target, savedAt, loadedAt, first[..m], "");
        NothingMore(saved, i + 1, target, savedAt, loadedAt);
      }
    } else {
      ReadEntriesOf(xs, more[..m - |first|]);
      NextDb(saved, i, target, savedAt, loadedAt, first + more[..m - |first|], more[..m - |first|]);
      TornDbs(saved, i + 1, target, savedAt, loadedAt, m - |first|);
    }
  }

  lemma NothingLoaded(saved: seq<Db>, target: seq<Db>, savedAt: int, loadedAt: int)
    ensures PartlyLoaded(saved, 0, target, savedAt, loadedAt) == target
  {
  }

  lemma TornBody(saved: seq<Db>, target: seq<Db>, savedAt: int, loadedAt: int, m: nat)
    requires AllShaped(saved) && FitsAll(saved) && m < |TextLine(Show(|saved|)) + DbsText(saved, savedAt)|
    ensures var body := (TextLine(Show(|saved|)) + DbsText(saved, savedAt))[..m];
            match ReadSize(body)
            case Fail => true
            case Got(count, rest) => LoadsUpTo(LoadDbs(rest, 0, count, target, loadedAt), saved, target, savedAt,
                                               loadedAt)
  {
    var line, dbs := TextLine(Show(|saved|)), DbsText(saved, savedAt);
    NothingLoaded(saved, target, savedAt, loadedAt);
    CutInTwo(line, dbs, m);
    hide ReadLine, TextLine, Show, DbsText, AllShaped, PartlyLoaded, RestoredAll;
    if m < |line| {
      if saved == [] {
        TornNoDbs(m, target, savedAt, loadedAt);
      } else {
        hide ReadSize;
        TornCount(|saved|, m);
        NothingReads();
        assert PartlyLoaded(saved, 0, target, savedAt, loadedAt) == target;
      }
    } else {
      hide ReadSize;
      ReadSizeOf(|saved|, dbs[..m - |line|]);
      assert saved[0..] == saved;
      TornDbs(saved, 0, target, savedAt, loadedAt, m - |line|);
    }
  }

  lemma TornNoDbs(m: nat, target: seq<Db>, savedAt: int, loadedAt: int)
    requires m < |TextLine(Show(0))|
    ensures match ReadSize(TextLine(Show(0))[..m])
            case Fail => true
            case Got(count, rest) => LoadDbs(rest, 0, count, target, loadedAt) ==
                                     Loaded(true, RestoredAll([], |target|, savedAt, loadedAt))
  {
    assert Show(0) == "0" && "0"[..1] == "0";
    StoullShow(0);
    ShowHasNoLineEnd(0);
    TornLine(Show(0), m);
    hide Stoull, ReadLine, TextLine, Show;
    AllLoaded([], target, savedAt, loadedAt, PartlyLoaded([], 0, target, savedAt, loadedAt));
    NothingLoaded([], target, savedAt, loadedAt);
  }

  /** A snapshot file cut anywhere: the load fails, the databases before the cut are restored and
      the others keep what they held; or nothing but the last newline was missing, and all are
      restored. */
  lemma TornSnapshot(saved: seq<Db>, target: seq<Db>, savedAt: int, loadedAt: int, m: nat)
    requires AllShaped(saved) && FitsAll(saved) && target != [] && m < |SaveText(saved, savedAt)|
    ensures LoadsUpTo(Load(Some(SaveText(saved, savedAt)[..m]), target, loadedAt), saved, target, savedAt, loadedAt)
  {
    var line, body := TextLine(MULTI_DB_MAGIC), TextLine(Show(|saved|)) + DbsText(saved, savedAt);
    MagicIsALine();
    NothingLoaded(saved, target, savedAt, loadedAt);
    CutInTwo(line, body, m);
    if m < |line| {
      TornMagic(MULTI_DB_MAGIC, m);
      hide ReadLine, TextLine, Show, DbsText, AllShaped, PartlyLoaded, RestoredAll, ReadEntries, LoadDbs, ReadSize;
      NothingReads();
      assert Load(Some(line[..m]), target, loadedAt) ==
             Loaded(false, PartlyLoaded(saved, 0, target, savedAt, loadedAt));
    } else {
      hide ReadLine, TextLine, Show, DbsText, AllShaped, PartlyLoaded, RestoredAll, LoadDbs, ReadSize, ReadEntries;
      ReadLineOf(MULTI_DB_MAGIC, body[..m - |line|]);
      TornBody(saved, target, savedAt, loadedAt, m - |line|);
    }
  }

  /** What is left of a first line names no format, or nothing follows it. */
  lemma TornMagic(magic: string, m: nat)
    requires (magic == MAGIC || magic == MULTI_DB_MAGIC) && m < |TextLine(magic)|
    ensures var r := ReadLine(TextLine(magic)[..m]);
            r.Fail? || (r.value != MAGIC && r.value != MULTI_DB_MAGIC) || (r.value == magic && r.rest == "")
  {
    OldMagicIsALine();
    MagicIsALine();
    TornLine(magic, m);
    assert m == |magic| ==> magic[..m] == magic;
  }

  /** What a load makes of a file of the older format. */
  lemma OldLoadIs(rest: string, target: seq<Db>, now: int)
    requires target != []
    ensures Load(Some(TextLine(MAGIC) + rest), target, now) ==
            if ReadEntries(rest).Fail? then Loaded(false, target)
            else Loaded(true, Emptied(|target|)[0 := LoadEntries(ReadEntries(rest).value, now)])
  {
    hide ReadLine, TextLine, ReadEntries, LoadEntries, LoadDbs, ReadSize;
    OldMagicIsALine();
    ReadLineOf(MAGIC, rest);
  }

  lemma TornOldMagic(target: seq<Db>, now: int, m: nat)
    requires target != [] && m < |TextLine(MAGIC)|
    ensures Load(Some(TextLine(MAGIC)[..m]), target, now) == Loaded(false, target)
  {
    TornMagic(MAGIC, m);
    OldMagicIsALine();
    hide ReadLine, TextLine, ReadHeader, ReadPayload, LoadDbs, LoadEntries, ReadSize;
    assert ReadEntries("") == Fail by { NothingReads(); }
  }

  /** A file of the older format cut anywhere: the load fails and changes nothing, or nothing but
      the newline after the count of an empty database was missing. */
  lemma TornOldSnapshot(db: Db, target: seq<Db>, savedAt: int, loadedAt: int, m: nat)
    requires WellShaped(db) && FitsDb(db) && target != [] && m < |OldText(db, savedAt)|
    ensures var r := Load(Some(OldText(db, savedAt)[..m]), target, loadedAt);
            r == Loaded(false, target) || (SnapshotOf(db, savedAt) == [] && r == Loaded(true, Emptied(|target|)))
  {
    var line, xs := TextLine(MAGIC), SnapshotOf(db, savedAt);
    hide Load, TextLine, EntriesText, SnapshotOf, ReadEntries, WellShaped, FitsDb;
    CutInTwo(line, EntriesText(xs), m);
    if m < |line| {
      TornOldMagic(target, loadedAt, m);
    } else {
      SnapshotIsGood(db, savedAt);
      TornEntries(xs, m - |line|);
      OldLoadIs(EntriesText(xs)[..m - |line|], target, loadedAt);
      assert Emptied(|target|)[0 := map[]] == Emptied(|target|);
    }
  }
}
