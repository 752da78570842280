/** The bytes on the wire and on disk, spelled out for small cases, so that the formats are those of
    the files and the protocol. */
module Formats {
  import opened Text
  import opened RespCodec
  import opened Values
  import opened Snapshot
  import opened SnapshotEnds
  import opened Replay

  /** RESP: an array of bulk strings. */
  lemma LoggedCommand()
    ensures EncodeLog([["GET", "k"]]) == "*2\r\n$3\r\nGET\r\n$1\r\nk\r\n"
  {
    assert Show(1) == "1" && Show(2) == "2" && Show(3) == "3";
    var tokens := ["GET", "k"];
    assert tokens[..1] == ["GET"] && tokens[..1][..0] == [];
    var log := [tokens];
    assert log[..0] == [];
  }

  /** The marker of database 7. */
  lemma LoggedMarker()
    ensures Marker(7) == ["SELECT", "7"]
  {
    assert Show(7) == "7";
  }

  function OneString(): Db {
    map["k" := StringObject("v", 5, -1, 9)]
  }

  lemma SmallBulks()
    ensures BulkText("k") == "1\nk\n" && BulkText("v") == "1\nv\n" && BulkText("string") == "6\nstring\n"
    ensures TextLine(Show(5)) == "5\n" && TextLine(Show(-1)) == "-1\n" && TextLine(Show(1)) == "1\n"
  {
    assert Show(1) == "1" && Show(6) == "6" && Show(5) == "5" && Show(-1) == "-1";
  }

  /** The lines of one stored string: key, type, creation time, expiry time, text. */
  function StringEntry(): string {
    "1\nk\n" + ("6\nstring\n" + ("5\n" + ("-1\n" + "1\nv\n")))
  }

  lemma EntryBytes()
    ensures EntryText(Entry("k", StringObject("v", 5, -1, 9))) == StringEntry()
  {
    hide BulkText, TextLine, Show;
    SmallBulks();
  }

  /** The entries of a database with one string, after their number. */
  lemma OneStringBytes(now: int)
    ensures EntriesText(SnapshotOf(OneString(), now)) == "1\n" + StringEntry()
  {
    var e := Entry("k", StringObject("v", 5, -1, 9));
    OneEntry(now);
    hide SnapshotOf, EntryText, Show, StringEntry, OneString, TextLine;
    EntryBytes();
    SmallBulks();
    var xs := [e];
    assert xs[1..] == [] && EntryListText([]) == "";
    assert EntryListText(xs) == EntryText(e) + "" == EntryText(e);
  }

  lemma OneEntry(now: int)
    ensures SnapshotOf(OneString(), now) == [Entry("k", StringObject("v", 5, -1, 9))]
  {
    var db := OneString();
    assert Purge(db, now) == db && db.Keys == {"k"};
    SortedMembers(db.Keys);
    assert |Sorted(db.Keys)| == 1 && Sorted(db.Keys)[0] in Sorted(db.Keys);
  }

  lemma MagicBytes()
    ensures TextLine(MULTI_DB_MAGIC) == "SWIFTCACHE_SNAPSHOT_V2\n" && TextLine(MAGIC) == "SWIFTCACHE_SNAPSHOT_V1\n"
    ensures TextLine(Show(2)) == "2\n"
  {
    assert Show(2) == "2";
  }

  /** A whole snapshot file of two databases, and one of the older format. */
  lemma SnapshotBytes(now: int)
    ensures SaveText([OneString(), map[]], now) ==
            "SWIFTCACHE_SNAPSHOT_V2\n" + ("2\n" + ("1\n" + StringEntry() + "0\n"))
    ensures OldText(OneString(), now) == "SWIFTCACHE_SNAPSHOT_V1\n" + ("1\n" + StringEntry())
  {
    hide EntriesText, SnapshotOf, Show, OneString, TextLine, StringEntry;
    OneStringBytes(now);
    NoEntries(now);
    MagicBytes();
    TwoDbs(OneString(), map[], now);
    var dbs: seq<Db> := [OneString(), map[]];
    assert |dbs| == 2;
  }

  lemma TwoDbs(a: Db, b: Db, now: int)
    ensures DbsText([a, b], now) == EntriesText(SnapshotOf(a, now)) + EntriesText(SnapshotOf(b, now))
  {
    hide EntriesText, SnapshotOf;
    var dbs := [a, b];
    assert dbs[1..] == [b] && dbs[1..][1..] == [];
    assert DbsText([], now) == "" && EntriesText(SnapshotOf(b, now)) + "" == EntriesText(SnapshotOf(b, now));
  }

  lemma NoEntries(now: int)
    ensures EntriesText(SnapshotOf(map[], now)) == "0\n"
  {
    var none: Db := map[];
    assert Purge(none, now) == none;
    SortedMembers(none.Keys);
    assert SnapshotOf(none, now) == [];
    assert Show(0) == "0";
  }
}
