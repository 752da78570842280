# SwiftCache, verified in Dafny

SwiftCache is a Redis-like store in C++: typed values in several logical databases, expiry times,
eviction, a RESP/inline request parser, an append-only log with snapshots and checkpoints,
Pub/Sub and a read-only mode. This project models that logic and proves what the parts promise
together. `dafny verify dfyconfig.toml` checks all of it.

How it is built:

- `Operations` gives each store operation as a function on the entry it finds, `Agreement` proves
  that every request depends on and changes only the observable contents (type, payload, expiry
  time of unexpired keys), and most run-level theorems rest on that fact.
- `Requests` gives the tokens of every data command, and `KeyLaws`, `StringLaws`, `ListLaws`,
  `CollectionLaws` and `RecentUse` say, over tokens and replies alone, what clients see after each of
  them; `Gate` does so for the server's own commands.
- `Datastore`, `Registry`, `SnapshotFile`, `AofFile`, `PubSub` and `Server` hold the classes and
  loops of the source, each method proved against those functions.
- `Recovery` is the persistence protocol as a step system; `RecoveryLimits`, `CrashWindow`,
  `CrashLimits` and `Repetition` say exactly where its guarantee ends, and `CrashRuns` holds the runs
  that show it.

Main results, hardest first:

1. **The disk always recovers the live state** (`Recovery.AlwaysRecoverable`). From empty databases
   and an empty log, after any interleaving of client commands in any databases, expiry ticks,
   checkpoint steps and restarts, also restarts in the middle of a checkpoint, whenever the
   persistence lock is free, loading the snapshot and replaying the log gives the live contents of
   every database, at whatever times recovery runs. Cut the log anywhere
   (`Recovery.TornLogRecovers`): if no restart fell inside a checkpoint since the last one ended,
   recovery gives the contents of some state of the run, no earlier than that; otherwise it gives a
   prefix of the log executed over the databases the checkpoint had saved, which need be no state of
   the run (`CrashRuns.TornLogRecoversNoState`). The proof crosses the RESP encoder and parser, the
   snapshot codec, the dispatch table and the store.
2. **Where that ends.** One logged command keeps the disk exact for every later restart *if and only
   if* it attaches no expiry time other than zero seconds and pops no element starting with `ERR `
   (`RecoveryLimits.ExactIffHarmless`); a restart is safe for what follows *if and only if* the log
   ends in database 0 (`RecoveryLimits.RestartSafeIffDatabaseZero`). For any log, a crash between
   snapshot rename and log truncation is harmless *if and only if* replaying the log over the live
   databases, at the times a restart can meet, changes nothing observable
   (`CrashLimits.WindowExactIff`), and what follows the restart is recovered at whatever times *if
   and only if* that replay does not depend on its clock (`CrashLimits.WindowRestartIff`). After a
   single command the crash is harmless *if and only if* the command is no INCR, DECR, APPEND of
   something, push, or pop that leaves something (`Repetition.OneCommandWindow`). An INCR is then
   counted twice (`CrashRuns.WindowDoublesIncr`).
3. **Chunk invariance, torn logs and round trips** of the incremental parser
   (`CommandParser.FeedIsParse`, `RespCodec.TornLog`, `InlineRequests.InlineRoundTrip`).
4. **The greedy glob matcher** is sound for all values and agrees with every pattern on a value
   *if and only if* the value contains no `*` (`Glob.ExactlyStarFreeValues`).
5. **Lazy equals eager expiration** over whole runs (`Expiration.LazyEqualsEager`).
6. **Snapshot round trip** between any numbers of databases, arbitrary bytes, in both formats
   (`Snapshot.SnapshotRoundTrip`, `SnapshotEnds.OldFormatLoads`), and what a file cut anywhere leaves
   (`SnapshotEnds.TornSnapshot`).
7. **Eviction**: order, minimality, exact counting and termination of the loop
   (`Datastore.DataStore.EvictIfNeeded`), and the limits over whole server runs
   (`Server.LimitsHoldThroughout`).
8. **Read-only safety** over any stretch of a server run that starts with no write past the gate
   (`Server.ReadOnlyIsSafe`; a write already past it does get through,
   `Server.RacingWriteSlipsThrough`), **shape** over whole server runs
   (`Server.ShapeHoldsThroughout`), **MOVE conservation** (`Move.MovesConserve`), **inverse Pub/Sub
   indexes** (`PubSub.AlwaysInverse`), and INCR/DECR as a counter (`Counter.CounterHoldsNet`).
9. **Read-back laws** for every data command, over tokens and replies: `KeyLaws`, `StringLaws`,
   `ListLaws` (with `QueueLaw` and `StackLaw` over whole sequences of pops) and `CollectionLaws`; and
   the read-only gate *exactly* (`Gate.GateIsExact`).

Modelling choices: strings are sequences of characters standing for bytes; the clock is passed to
each operation as one reading (operations that read it twice use one value); lock-protected regions
are atomic steps; C++ integers are unbounded except where the code observes a width (`strtoll`
saturates, `stoll`/`stoull` reject, INCR wraps). `strtoll` stops at an embedded NUL byte and the
length-line check then accepts the line, as in the code. Where documentation and code differ the
code is followed: `docs/persistence.md:60` says checkpoints never duplicate writes, which
`CrashRuns.WindowIsInexact` and `CrashRuns.WindowDoublesIncr` refute by a run of the protocol.

## Model

| member | source | states |
|---|---|---|
| Text.ScanShow | swiftcache/src/parser/CommandParser.cpp:15-20 | scanning the text `to_string` writes for any integer returns its sign and magnitude and consumes all of it |
| Text.StollShow | swiftcache/src/datastore/DataStore.cpp:113-121 | a signed 64-bit integer printed and read back by `parseInteger` is itself |
| Text.StoullShow | swiftcache/src/core/SnapshotPersistence.cpp:67-79 | a size printed and read back by `stoull` is itself |
| Text.SortedAscends | swiftcache/src/datastore/DataStore.cpp:844-845 | sorted listings are strictly ascending byte-wise |
| Text.SortedMembers | swiftcache/src/datastore/DataStore.cpp:806-807 | sorted listings hold exactly the members, each once |
| CommandParser.ParseIntegerLine | swiftcache/src/parser/CommandParser.cpp:9-23 | finds the first CR LF, returns the line's value (or -1) and the offset after it, or leaves the offset |
| CommandParser.ParseElement | swiftcache/src/parser/CommandParser.cpp:90-120 | one bulk element: partial, malformed with the bytes to drop, or a token with the next offset |
| CommandParser.ParseRespFrame | swiftcache/src/parser/CommandParser.cpp:74-126 | the element loop computes the frame at the front of the buffer |
| CommandParser.ParseLine | swiftcache/src/parser/CommandParser.cpp:27-37 | the words of an inline line |
| CommandParser.ParseInline | swiftcache/src/parser/CommandParser.cpp:60-68 | trims line endings; a blank line yields no command |
| CommandParser.ParseBuffer | swiftcache/src/parser/CommandParser.cpp:39-72 | the loop returns all complete commands and exactly the unconsumed bytes |
| CommandParser.NextTurn | swiftcache/src/parser/CommandParser.cpp:42-69 | every turn that consumes takes at least one byte and at most the buffer |
| CommandParser.NextTurnStable | swiftcache/src/parser/CommandParser.cpp:42-69 | appending data never changes a turn already decided |
| CommandParser.ChunkInvariance | swiftcache/src/parser/CommandParser.cpp:39-126 | parsing a, then its leftover with b appended, equals parsing a+b, for all byte strings |
| CommandParser.FeedIsParse | swiftcache/src/networking/TcpServer.cpp:325-326 | however the stream is cut into chunks, commands and pending bytes are those of the whole stream |
| CommandParser.LeftoverIsFinal | swiftcache/src/parser/CommandParser.cpp:39-72 | the leftover is a suffix of the input and parsing it again yields nothing |
| InlineRequests.WordsOfSpaced | swiftcache/src/parser/CommandParser.cpp:27-37 | a line of words with blanks before, between and after them is cut into exactly these words |
| InlineRequests.EveryLineSplits | swiftcache/src/parser/CommandParser.cpp:27-37 | any line is its words, in order, each a maximal run of non-blank bytes, with blanks around them: nothing else is lost |
| InlineRequests.InlineRoundTrip | swiftcache/src/parser/CommandParser.cpp:55-69 | such a line, ended by CR LF or LF, is one request with those words, and what follows parses as if it stood alone |
| Numbers.ParseIntegerIff | swiftcache/src/datastore/DataStore.cpp:113-121 | `parseInteger` accepts exactly blanks, a sign or none, and digits, within 64 bits, and yields that number |
| Numbers.LineValueOf | swiftcache/src/parser/CommandParser.cpp:9-23 | a length line is worth its number, cut off at 64 bits, if nothing or a NUL byte follows it, and -1 otherwise |
| Numbers.ShowIsCanonical | swiftcache/src/core/AofPersistence.cpp:196-204 | the text of a number is its digits without a needless zero, and a minus sign if it is negative |
| Numbers.LeqIsByteOrder | swiftcache/src/datastore/DataStore.cpp:844-845 | listings are ordered by the first byte that differs, a prefix first |
| Numbers.BadCount | swiftcache/src/parser/CommandParser.cpp:74-84 | a frame whose count is no number is dropped with its line, as an empty request |
| Numbers.NoDollar | swiftcache/src/parser/CommandParser.cpp:90-98 | a frame whose first element does not start with a dollar sign is dropped with that byte |
| Numbers.NullElement | swiftcache/src/parser/CommandParser.cpp:99-108 | an element of negative length is an empty token |
| Numbers.BadEnd | swiftcache/src/parser/CommandParser.cpp:110-118 | an element that does not end where its length says is dropped up to that point, with its frame |
| RespCodec.EncodeRespCommand | swiftcache/src/core/AofPersistence.cpp:196-204 | the loop builds the RESP encoding |
| RespCodec.FrameRoundTrip | swiftcache/src/core/AofPersistence.cpp:196-204 | an encoded command is one complete frame with exactly its tokens, for any bytes, whatever follows |
| RespCodec.TornFrameWaits | swiftcache/src/parser/CommandParser.cpp:74-126 | no proper prefix of a frame is accepted |
| RespCodec.LogRoundTrip | swiftcache/src/core/AofPersistence.cpp:33-38 | parsing a written log returns the logged token lists in order with nothing left |
| RespCodec.TornLog | swiftcache/src/core/AofPersistence.cpp:33-106 | any byte prefix of a log yields exactly the commands whose frames are complete and leaves the partial frame |
| Formats.LoggedCommand | swiftcache/src/core/AofPersistence.cpp:196-204 | the bytes of a logged command, spelled out |
| Glob.MatchPattern | swiftcache/src/datastore/DataStore.cpp:123-150 | the two loops compute the scan and terminate by a lexicographic measure on star, match and value index |
| Glob.Sound | swiftcache/src/datastore/DataStore.cpp:123-150 | whatever the matcher accepts matches by the recursive meaning of globs, for every value and pattern |
| Glob.Complete | swiftcache/src/datastore/DataStore.cpp:123-150 | on values without a star the matcher decides exactly that meaning |
| Glob.StarredValueIsMissed | swiftcache/src/datastore/DataStore.cpp:130-136 | every value with a star has a matching pattern that the matcher rejects |
| Glob.ExactlyStarFreeValues | swiftcache/src/datastore/DataStore.cpp:123-150 | the matcher agrees with every pattern on a value if and only if the value has no star |
| Values.LiveLater | swiftcache/src/datastore/DataStore.cpp:17-19 | equal contents now are equal contents at any later time |
| Values.LiveOfPurge | swiftcache/src/datastore/DataStore.cpp:990-1006 | removing what has expired is unobservable now and later |
| Memory.SumTakeOut | swiftcache/src/datastore/DataStore.cpp:44-50 | a sum over a hash container does not depend on iteration order |
| Memory.EstimateObjectBytes | swiftcache/src/datastore/DataStore.cpp:21-33 | the size estimate, for any iteration order of hash and set |
| Operations.RangeIsInclusive | swiftcache/src/datastore/DataStore.cpp:152-174 | LRANGE selects exactly the positions from start to stop, negatives counted from the end |
| Agreement.ApplyAgrees | swiftcache/src/datastore/DataStore.cpp:176-886 | each one-key operation gives equal replies and equal contents on equal contents |
| Agreement.RunAgrees | swiftcache/src/datastore/DataStore.cpp:176-943 | every request does, except DEL's count; without expiry times even at different clock readings |
| Agreement.ApplyNoTtl | swiftcache/src/datastore/DataStore.cpp:176-284 | only SET with EX and a successful EXPIRE attach an expiry time |
| Commands.UnloggedReads | swiftcache/src/core/CommandMetadata.cpp:10-94 | a command the table does not log decodes to a reading request, for all 37 registered commands |
| Commands.AllowedIsUnlogged | swiftcache/src/core/CommandMetadata.cpp:10-94 | what the table allows in read-only mode it does not log |
| Commands.LoggedWrites | swiftcache/src/core/CommandMetadata.cpp:29-49 | a well-formed command that the table logs writes |
| Commands.AllowedIffUnlogged | swiftcache/src/core/CommandMetadata.cpp:10-94 | the table allows in read-only mode exactly what it does not log, but for PUBLISH |
| Commands.ReadsKeepLive | swiftcache/src/datastore/DataStore.cpp:184-223 | reading requests change nothing observable, now or later, and never evict |
| Commands.ErrorKeepsLive | swiftcache/src/core/AofPersistence.cpp:143-146 | a reply starting with the error prefix means nothing observable changed, except for such a pop |
| Commands.ErrorTextPopChangesLive | swiftcache/src/commands/list/LpopCommand.cpp:14-22 | a pop of an element with the error prefix replies an error and does change the contents |
| Shape.RunKeepsShape | swiftcache/src/datastore/DataStore.cpp:286-766 | every command keeps other payload fields empty and stores no empty collection |
| Shape.DecodeGivesArguments | swiftcache/src/commands/list/LpushCommand.cpp:12-17 | pushes and additions always carry an element |
| Counter.CounterHoldsNet | swiftcache/src/datastore/DataStore.cpp:286-313 | from an absent key any interleaving of INCR and DECR within 64 bits stores the text of the net count and touches nothing else |
| Requests.CaseDoesNotMatter | swiftcache/src/core/CommandRegistry.cpp:14-27 | a command written in lower case is the same command |
| KeyLaws.MissingKey | swiftcache/src/datastore/DataStore.cpp:184-262 | what every read replies for a key that is not there or has expired |
| KeyLaws.ExistsIff | swiftcache/src/datastore/DataStore.cpp:209-223 | EXISTS replies 1 exactly for keys a client can see |
| KeyLaws.TypeIs | swiftcache/src/datastore/DataStore.cpp:872-886 | TYPE replies the name of the type |
| KeyLaws.DelForgets | swiftcache/src/datastore/DataStore.cpp:204-207 | after DEL nothing is seen of the key at any time, every other key is as it was, and the reply says whether it was stored |
| KeyLaws.RenameMoves | swiftcache/src/datastore/DataStore.cpp:888-909 | after RENAME the source is gone and the destination answers every one-key request as the source would have |
| KeyLaws.RenameOfMissing | swiftcache/src/datastore/DataStore.cpp:888-909 | RENAME of a missing key is refused and changes nothing observable |
| KeyLaws.MoveTakesEffect | swiftcache/src/datastore/DataStore.cpp:911-943 | after MOVE of a key that is here and not there it is gone here and answers there |
| KeyLaws.MoveRefused | swiftcache/src/datastore/DataStore.cpp:911-943 | otherwise MOVE replies 0 and nothing is seen of it |
| KeyLaws.ExpireTakesEffect | swiftcache/src/datastore/DataStore.cpp:225-262 | after EXPIRE the key answers as before, with the seconds that remain rounded up, and from that moment on it is gone |
| KeyLaws.ExpireOfMissing | swiftcache/src/datastore/DataStore.cpp:225-240 | EXPIRE of a missing key replies 0 and changes nothing observable |
| KeyLaws.PersistTakesEffect | swiftcache/src/datastore/DataStore.cpp:264-284 | after PERSIST the key answers as before, at all times; the reply says whether it had an expiry time |
| KeyLaws.KeysListMatches | swiftcache/src/datastore/DataStore.cpp:833-846 | KEYS and SCAN list, in ascending order, live keys that match the pattern by its meaning, and all of them whose name has no star |
| KeyLaws.DbSizeCounts | swiftcache/src/datastore/DataStore.cpp:848-853 | DBSIZE replies the number of keys a client can see |
| KeyLaws.InfoCounts | swiftcache/src/datastore/DataStore.cpp:1008-1015 | INFO starts with the number of visible keys and the estimated bytes of what is left |
| KeyLaws.PurgeIsExact | swiftcache/src/datastore/DataStore.cpp:990-1006 | the expiry worker leaves exactly the unexpired entries |
| KeyLaws.FlushDbEmpties | swiftcache/src/datastore/DataStore.cpp:945-948 | after FLUSHDB no key of that database is seen, and the others are as they were |
| KeyLaws.FlushAllEmpties | swiftcache/src/networking/TcpServer.cpp:796-805 | after FLUSHALL no key of any database is seen |
| KeyLaws.UnknownIsRefused | swiftcache/src/core/CommandRegistry.cpp:14-27 | an unknown command is refused by its name and changes nothing |
| KeyLaws.GetNeedsOneKey | swiftcache/src/commands/string/GetCommand.cpp:9-12 | GET with another number of arguments is refused and changes nothing |
| StringLaws.SetThenGet | swiftcache/src/datastore/DataStore.cpp:176-182 | after SET the key holds that text for good, whatever it held, and no other key is touched |
| StringLaws.HoldingAnswers | swiftcache/src/datastore/DataStore.cpp:184-359 | GET, TYPE, STRLEN, TTL and EXISTS of a key that holds a text |
| StringLaws.MemoryOfString | swiftcache/src/datastore/DataStore.cpp:855-870 | MEMORY USAGE of a string, byte by byte |
| StringLaws.ListBytesGrow | swiftcache/src/datastore/DataStore.cpp:21-33 | a list element is worth its bytes and 32 |
| StringLaws.HashBytesGrow | swiftcache/src/datastore/DataStore.cpp:21-33 | a new field is worth its bytes, those of its content, and 64 |
| StringLaws.SetBytesGrow | swiftcache/src/datastore/DataStore.cpp:21-33 | a new set member is worth its bytes and 32 |
| StringLaws.SetExThenGet | swiftcache/src/datastore/DataStore.cpp:176-182 | after SET with EX the text is there for exactly that many seconds, with the seconds that remain |
| StringLaws.AppendThenGet | swiftcache/src/datastore/DataStore.cpp:315-339 | APPEND puts the suffix after the text that was there, keeps the expiry time and replies the new length |
| StringLaws.CountThenGet | swiftcache/src/datastore/DataStore.cpp:286-313 | INCR and DECR reply and store the next and the previous number |
| StringLaws.CountRefused | swiftcache/src/datastore/DataStore.cpp:286-313 | a text that is no number is refused and stays |
| StringLaws.MSetThenGet | swiftcache/src/datastore/DataStore.cpp:391-399 | after MSET every key of its pairs holds the text of its last pair |
| StringLaws.MSetOthers | swiftcache/src/datastore/DataStore.cpp:391-399 | and every other key is as it was |
| StringLaws.MGetIsGets | swiftcache/src/datastore/DataStore.cpp:361-389 | MGET replies what GET of each key would, in order |
| ListLaws.LRangeShows | swiftcache/src/datastore/DataStore.cpp:533-563 | LRANGE replies exactly the elements between the two positions, in order |
| ListLaws.WholeList | swiftcache/src/datastore/DataStore.cpp:533-563 | LRANGE 0 -1 shows the whole list |
| ListLaws.RPushAdds | swiftcache/src/datastore/DataStore.cpp:436-469 | RPUSH adds its elements behind the list, in order, and replies the length |
| ListLaws.LPushShows | swiftcache/src/datastore/DataStore.cpp:401-434 | after LPUSH the list shows the pushed elements first, the last one foremost, and then what it held |
| ListLaws.LPopTakes | swiftcache/src/datastore/DataStore.cpp:471-500 | LPOP replies the first element and leaves the rest; the last one takes the key with it |
| ListLaws.RPopTakes | swiftcache/src/datastore/DataStore.cpp:502-531 | RPOP does the same at the other end |
| ListLaws.QueueLaw | swiftcache/src/datastore/DataStore.cpp:436-500 | RPUSH and LPOPs at any times return all elements in order |
| ListLaws.StackLaw | swiftcache/src/datastore/DataStore.cpp:401-500 | LPUSH and LPOPs at any times return all elements, the last one first |
| ListLaws.ListRefuses | swiftcache/src/datastore/DataStore.cpp:401-563 | list commands refuse a key of another type |
| CollectionLaws.HSetSets | swiftcache/src/datastore/DataStore.cpp:565-594 | HSET sets the field and no other, and says whether it is new |
| CollectionLaws.HDelRemoves | swiftcache/src/datastore/DataStore.cpp:622-647 | HDEL removes the field and no other; the last one takes the key with it |
| CollectionLaws.HashAnswers | swiftcache/src/datastore/DataStore.cpp:596-668 | HGET and HEXISTS answer for every field |
| CollectionLaws.HGetAllLists | swiftcache/src/datastore/DataStore.cpp:670-699 | HGETALL lists every field once, in order, each followed by its content |
| CollectionLaws.SAddAdds | swiftcache/src/datastore/DataStore.cpp:701-735 | SADD adds its elements and counts the new ones |
| CollectionLaws.SRemRemoves | swiftcache/src/datastore/DataStore.cpp:737-766 | SREM removes its elements and counts those that were there; the last one takes the key with it |
| CollectionLaws.SetAnswers | swiftcache/src/datastore/DataStore.cpp:768-831 | SISMEMBER, SCARD and SMEMBERS answer for the whole set |
| CollectionLaws.HashRefuses | swiftcache/src/datastore/DataStore.cpp:565-647 | hash commands refuse a key of another type |
| CollectionLaws.SetRefuses | swiftcache/src/datastore/DataStore.cpp:701-787 | and so do set commands |
| Execution.ExecuteAgrees | swiftcache/src/networking/TcpServer.cpp:373-389 | commands over all databases, MOVE and FLUSHALL included, depend on and change contents only |
| Execution.UnloggedKeepsLive | swiftcache/src/core/CommandMetadata.cpp:88-90 | every command not logged leaves the live contents of all databases unchanged |
| Execution.FailedKeepsLive | swiftcache/src/core/AofPersistence.cpp:143-146 | a failed command leaves them unchanged, unless it popped an element with the error prefix |
| Execution.ExecuteKeepsShape | swiftcache/src/networking/TcpServer.cpp:373-389 | the shape invariant over all databases |
| Execution.ExecuteKeepsNoTtl | swiftcache/src/networking/TcpServer.cpp:373-389 | databases without expiry times stay so under commands that attach none |
| Expiration.ExecutePurged | swiftcache/src/datastore/DataStore.cpp:184-943 | databases equal once purged stay so, with equal replies except to DEL |
| Expiration.LazyEqualsEager | swiftcache/src/core/ExpiryWorker.cpp:31-42 | inserting expiry-worker visits anywhere in a run changes no reply but DEL's, and the purged databases are equal in every field |
| Move.MoveConserves | swiftcache/src/datastore/DataStore.cpp:911-943 | one MOVE preserves the multiset of live (key, type, payload, expiry) over all databases, at any later time |
| Move.MoveOverwritesNothing | swiftcache/src/datastore/DataStore.cpp:928-936 | every live entry other than the one named stays where it is |
| Move.MoveMovesExactly | swiftcache/src/datastore/DataStore.cpp:911-943 | it moves if and only if the key is live here and not live there, and carries the contents over |
| Move.MovesConserve | swiftcache/src/networking/TcpServer.cpp:721-752 | any sequence of MOVE commands, well formed or not, preserves that multiset |
| Eviction.EvictOneMore | swiftcache/src/datastore/DataStore.cpp:99-105 | one more eviction keeps order and minimality |
| Eviction.NoNeedNoEviction | swiftcache/src/datastore/DataStore.cpp:99-105 | nothing is evicted while keys and bytes are within what is configured |
| Eviction.SwitchedOff | swiftcache/src/datastore/DataStore.cpp:54-57 | with policy none, or no limits, nothing is evicted |
| Eviction.AllKeysMeetsLimits | swiftcache/src/datastore/DataStore.cpp:54-105 | under allkeys-lru and random the loop ends with no more keys and no more estimated bytes than configured |
| Eviction.VolatileEndsWell | swiftcache/src/datastore/DataStore.cpp:66-88 | under the volatile policies it ends within the limits or with no TTL key left, and keys without TTL survive |
| Eviction.LruOrder | swiftcache/src/datastore/DataStore.cpp:75-87 | no evicted key was used later than an eligible survivor |
| Eviction.TtlOrder | swiftcache/src/datastore/DataStore.cpp:67-73 | no evicted key expires later than an eligible survivor |
| RecentUse.LastUsedGoesLast | swiftcache/src/datastore/DataStore.cpp:75-87 | if every other key was used before, eviction under allkeys-lru takes the key just used only after all others |
| RecentUse.UseStamps | swiftcache/src/datastore/DataStore.cpp:184-202 | operations that find what they ask for, or write, stamp the key with the time of use |
| Eviction.NoShorterEviction | swiftcache/src/datastore/DataStore.cpp:99-105 | whatever else of the losses is kept, a database that still holds the last victim has too many keys or too many bytes |
| StoreLimits.NotEvictingNoLarger | swiftcache/src/datastore/DataStore.cpp:471-531 | a request that does not end by evicting leaves no more keys and no more bytes |
| StoreLimits.CommandStaysGood | swiftcache/src/datastore/DataStore.cpp:176-182 | under allkeys-lru and random a command in any database, with the eviction it ends with, leaves every database within both limits |
| StoreLimits.LoadStampsFit | swiftcache/src/datastore/DataStore.cpp:972-988 | whatever file is loaded, every access stamp is in range, so eviction after a load can get within the limits |
| Snapshot.SnapshotRoundTrip | swiftcache/src/core/SnapshotPersistence.cpp:202-286 | saving n databases and loading into m restores, index by index, the entries unexpired at save and load with all stored fields, and empties the rest |
| SnapshotEnds.OldFormatLoads | swiftcache/src/core/SnapshotPersistence.cpp:255-264 | a file of the single-database format loads into database 0, with all entries unexpired at save and load, and empties the others |
| SnapshotEnds.TornSnapshot | swiftcache/src/core/SnapshotPersistence.cpp:243-286 | a file cut anywhere: the load fails with the databases before the cut restored and the others as they were, or only the last newline was missing and all are restored |
| SnapshotEnds.TornOldSnapshot | swiftcache/src/core/SnapshotPersistence.cpp:255-264 | the same for the single-database format: a failed load changes nothing |
| Formats.SnapshotBytes | swiftcache/src/core/SnapshotPersistence.cpp:81-121 | the bytes of a snapshot file in both formats, spelled out |
| Snapshot.ReadEntryOf | swiftcache/src/core/SnapshotPersistence.cpp:81-189 | one written entry of any type reads back, whatever bytes it holds and whatever follows |
| Snapshot.ReadBulkOf | swiftcache/src/core/SnapshotPersistence.cpp:23-51 | a written bulk string reads back, newlines and all |
| Snapshot.RestoredLive | swiftcache/src/datastore/DataStore.cpp:972-988 | what a load restores is observably what was saved, from both times on |
| Snapshot.LoadedIsShaped | swiftcache/src/core/SnapshotPersistence.cpp:123-189 | loading a saved snapshot gives well-shaped databases |
| Replay.ReplayIsExecution | swiftcache/src/core/AofPersistence.cpp:43-97 | in the right database a logged command replays exactly as it executed |
| Replay.TornFileReplaysPrefix | swiftcache/src/core/AofPersistence.cpp:33-106 | a torn file replays its complete commands and nothing else |
| Replay.MarkersFollowAppends | swiftcache/src/core/AofPersistence.cpp:206-214 | over every sequence of appends to arbitrary databases and truncations, replay executes exactly the logged commands appended since the last truncation, each in the database it was appended for, and ends in the one `currentAppendDatabase_` names |
| Replay.ReplayRecords | swiftcache/src/core/AofPersistence.cpp:206-214 | replaying the records of one append executes the command in the database it was appended for |
| Replay.ReplayEndsAlike | swiftcache/src/core/AofPersistence.cpp:76-95 | the database replay ends in depends on the markers alone |
| Alike.StoredRun | swiftcache/src/datastore/DataStore.cpp:176-943 | run at the same time on databases that store the same contents, expired entries included, every request leaves them so |
| Recovery.ReplayLogStored | swiftcache/src/core/AofPersistence.cpp:27-108 | replaying any log at the same times over databases that store the same contents leaves the same stored contents |
| Recovery.ReplayLogAgrees | swiftcache/src/core/AofPersistence.cpp:27-108 | a log whose replay does not depend on its clock gives equal contents over equal contents, at whatever times |
| Recovery.StepKeepsDurable | swiftcache/src/core/AofPersistence.cpp:133-179 | commands, ticks, both checkpoint steps and restarts, inside a checkpoint too, keep the protocol invariant |
| Recovery.DurableRecovers | swiftcache/src/main.cpp:405-417 | with the lock free the invariant means exact recovery |
| Recovery.AlwaysRecoverable | swiftcache/src/core/AofPersistence.cpp:27-179 | in every reachable state with the lock free, also after crashes inside a checkpoint, snapshot load and log replay yield the live contents of every database |
| Recovery.TornLogRecoversPrefix | swiftcache/src/core/AofPersistence.cpp:33-106 | a log cut anywhere recovers a prefix of its records, replayed over the databases where the log starts |
| Recovery.TornLogRecovers | swiftcache/src/core/AofPersistence.cpp:33-106 | for every run and every cut of its log: the contents of some state of the run since the last checkpoint ended, or, if a restart fell inside a checkpoint since, a prefix of the log executed over the databases that checkpoint saved |
| RecoveryLimits.ExactIffHarmless | swiftcache/src/core/AofPersistence.cpp:133-163 | executing and logging a command keeps recovery exact, for every restart from then on, if and only if it attaches no expiry time other than zero seconds and pops no element with the error prefix |
| RecoveryLimits.TtlStepIsInexact | swiftcache/src/datastore/DataStore.cpp:225-240 | replay re-bases a lasting expiry time on its own clock: restarted a millisecond later, the server holds a later expiry than the live one |
| RecoveryLimits.ZeroTtlStepIsExact | swiftcache/src/commands/string/ExpireCommand.cpp:28-32 | an accepted expiry time of zero seconds is recovered exactly |
| RecoveryLimits.ErrorPopIsInexact | swiftcache/src/commands/list/LpopCommand.cpp:14-22 | a popped element with the error prefix is removed but not logged |
| RecoveryLimits.RestartSafeIffDatabaseZero | swiftcache/src/core/AofPersistence.h:42-42 | after a restart every further loggable command is recovered exactly if and only if the log ended in database 0 |
| CrashWindow.ReplayTwiceIsOnce | swiftcache/src/core/AofPersistence.cpp:165-179 | replaying an overwriting log over its own result changes no stored value |
| CrashWindow.WindowRecovers | swiftcache/src/core/AofPersistence.cpp:165-179 | a crash between snapshot rename and log truncation still recovers exactly, for logs of SET without EX, MSET, DEL, FLUSHDB, FLUSHALL and markers |
| CrashLimits.WindowExactIff | swiftcache/src/core/AofPersistence.cpp:165-179 | for any log, a crash in that window is harmless if and only if replaying the log over the live databases, at the times a restart can meet, changes nothing observable |
| CrashLimits.TimelessWindowIff | swiftcache/src/core/AofPersistence.cpp:165-179 | for a log whose replay does not depend on its clock, one replay decides |
| CrashLimits.TtlFreeIsTimeless | swiftcache/src/core/AofPersistence.cpp:27-108 | a log that attaches no expiry time where replay runs it is such a log |
| CrashLimits.WindowRestartIff | swiftcache/src/core/AofPersistence.cpp:165-179 | after a restart in the window the disk is exact at whatever times if and only if replaying the log over the live databases does not depend on its clock |
| Repetition.ApplyRepeats | swiftcache/src/datastore/DataStore.cpp:176-766 | a successful operation leaves its own result alone if and only if it is no INCR, DECR, APPEND of something, push, or pop that leaves something |
| Repetition.ExecuteRepeats | swiftcache/src/networking/TcpServer.cpp:373-389 | the same for every command over all databases, MOVE, RENAME and FLUSHALL included |
| Repetition.OneCommandWindow | swiftcache/src/core/AofPersistence.cpp:165-179 | with one command logged since the last checkpoint, a crash in the window is harmless if and only if the command is none of those |
| CrashRuns.WindowIsInexact | swiftcache/src/core/AofPersistence.cpp:165-179 | INCR and a checkpoint begun form a run of the protocol after which a crash is not recovered |
| CrashRuns.WindowDoublesIncr | swiftcache/src/core/AofPersistence.cpp:165-179 | the counter was 1 and is recovered as 2, at whatever times |
| CrashRuns.WindowAttachesTtl | swiftcache/src/datastore/DataStore.cpp:225-240 | EXPIRE of a missing key, INCR and a crash in the window give the key an expiry time, and the disk is inexact from then on |
| CrashRuns.WindowForgivesExpire | swiftcache/src/datastore/DataStore.cpp:225-240 | EXPIRE of a missing key, SET and a crash in the window are recovered exactly, though replay attaches an expiry time in passing |
| CrashRuns.TornLogRecoversNoState | swiftcache/src/core/AofPersistence.cpp:165-179 | INCR twice, a restart inside the checkpoint that follows, and the log torn after one record: the counter is recovered as 3, which no state of the run held |
| Datastore.DataStore.OverEvictionLimit | swiftcache/src/datastore/DataStore.cpp:35-52 | true exactly if there are more keys, or more estimated bytes in total, than a limit allows, for every iteration order |
| Datastore.DataStore.FindVictim | swiftcache/src/datastore/DataStore.cpp:66-88 | finds a key of least rank, or there is none to choose |
| Datastore.DataStore.EvictOne | swiftcache/src/datastore/DataStore.cpp:54-97 | removes exactly one victim and counts it, or nothing is choosable |
| Datastore.DataStore.EvictIfNeeded | swiftcache/src/datastore/DataStore.cpp:99-105 | survivors unchanged, victims in policy order, minimal, counted exactly, ending within limits or with nothing to choose |
| Datastore.DataStore.ConfigureEviction | swiftcache/src/datastore/DataStore.cpp:107-111 | a new configuration takes effect at once |
| Datastore.DataStore.FindLive | swiftcache/src/datastore/DataStore.cpp:186-194 | finds the unexpired entry and drops an expired one |
| Datastore.DataStore.Set | swiftcache/src/datastore/DataStore.cpp:176-182 | stores the string with its expiry, then evicts |
| Datastore.DataStore.Get | swiftcache/src/datastore/DataStore.cpp:184-202 | the value of a live string, touching it |
| Datastore.DataStore.Del | swiftcache/src/datastore/DataStore.cpp:204-207 | removes the key and says whether it was stored, expired or not |
| Datastore.DataStore.Exists | swiftcache/src/datastore/DataStore.cpp:209-223 | whether the key is live |
| Datastore.DataStore.Expire | swiftcache/src/datastore/DataStore.cpp:225-240 | sets the expiry of a live key |
| Datastore.DataStore.Ttl | swiftcache/src/datastore/DataStore.cpp:242-262 | remaining seconds rounded up, -1 without expiry, -2 for a missing key |
| Datastore.DataStore.Persist | swiftcache/src/datastore/DataStore.cpp:264-284 | clears the expiry of a live key that has one, then evicts |
| Datastore.DataStore.IncrBy | swiftcache/src/datastore/DataStore.cpp:286-313 | adds to the parsed text, keeping creation and expiry, or refuses |
| Datastore.DataStore.Append | swiftcache/src/datastore/DataStore.cpp:315-339 | appends and returns the new size, or refuses |
| Datastore.DataStore.StrLen | swiftcache/src/datastore/DataStore.cpp:341-359 | the size of a live string |
| Datastore.DataStore.MGet | swiftcache/src/datastore/DataStore.cpp:361-389 | the loop is one GET per key, in order |
| Datastore.DataStore.MSet | swiftcache/src/datastore/DataStore.cpp:391-399 | the loop stores every pair, later ones winning, then evicts once |
| Datastore.DataStore.LPush | swiftcache/src/datastore/DataStore.cpp:401-434 | pushes each value to the front in turn and returns the size, or refuses |
| Datastore.DataStore.RPush | swiftcache/src/datastore/DataStore.cpp:436-469 | pushes each value to the back and returns the size, or refuses |
| Datastore.DataStore.LPop | swiftcache/src/datastore/DataStore.cpp:471-500 | takes the first element; an emptied list is removed |
| Datastore.DataStore.RPop | swiftcache/src/datastore/DataStore.cpp:502-531 | takes the last element; an emptied list is removed |
| Datastore.DataStore.LRange | swiftcache/src/datastore/DataStore.cpp:533-563 | the inclusive range of the list |
| Datastore.DataStore.HSet | swiftcache/src/datastore/DataStore.cpp:565-594 | sets a field; 1 if new, 0 if replaced |
| Datastore.DataStore.HGet | swiftcache/src/datastore/DataStore.cpp:596-620 | the field's value and why it is missing |
| Datastore.DataStore.HDel | swiftcache/src/datastore/DataStore.cpp:622-647 | removes a field; an emptied hash is removed |
| Datastore.DataStore.HExists | swiftcache/src/datastore/DataStore.cpp:649-668 | whether the field is there |
| Datastore.DataStore.HGetAll | swiftcache/src/datastore/DataStore.cpp:670-699 | all fields with values, fields in order |
| Datastore.DataStore.SAdd | swiftcache/src/datastore/DataStore.cpp:701-735 | adds all members and counts the new ones |
| Datastore.DataStore.SRem | swiftcache/src/datastore/DataStore.cpp:737-766 | removes members and counts them; an emptied set is removed |
| Datastore.DataStore.SIsMember | swiftcache/src/datastore/DataStore.cpp:768-787 | membership |
| Datastore.DataStore.SMembers | swiftcache/src/datastore/DataStore.cpp:789-810 | all members in order |
| Datastore.DataStore.SCard | swiftcache/src/datastore/DataStore.cpp:812-831 | the number of members |
| Datastore.DataStore.Keys | swiftcache/src/datastore/DataStore.cpp:833-846 | purges and counts what has expired, then the matching keys in order |
| Datastore.DataStore.DbSize | swiftcache/src/datastore/DataStore.cpp:848-853 | the number of unexpired keys, counting the expired ones it removes |
| Datastore.DataStore.MemoryUsage | swiftcache/src/datastore/DataStore.cpp:855-870 | the estimate of a live entry |
| Datastore.DataStore.Type | swiftcache/src/datastore/DataStore.cpp:872-886 | the type name of a live entry |
| Datastore.DataStore.Rename | swiftcache/src/datastore/DataStore.cpp:888-909 | moves the entry with its expiry over the destination |
| Datastore.DataStore.MoveKeyTo | swiftcache/src/datastore/DataStore.cpp:911-943 | moves a live key to another store that has no live entry there; the same store refuses |
| Datastore.DataStore.FlushDb | swiftcache/src/datastore/DataStore.cpp:945-948 | empties the store |
| Datastore.DataStore.TakeSnapshot | swiftcache/src/datastore/DataStore.cpp:950-970 | drops what has expired and lists the rest in key order |
| Datastore.DataStore.LoadSnapshot | swiftcache/src/datastore/DataStore.cpp:972-988 | replaces the contents by the unexpired entries, stamping unstamped ones, then evicts |
| Datastore.DataStore.RemoveExpired | swiftcache/src/datastore/DataStore.cpp:990-1006 | removes exactly the expired entries and counts each once |
| Datastore.DataStore.Stats | swiftcache/src/datastore/DataStore.cpp:1008-1015 | number of keys, order-independent total of estimates, and the keys evicted and expired so far |
| Registry.ExecuteRequest | swiftcache/src/core/CommandRegistry.cpp:14-27 | the store methods together reply and change the store and its counters as the request says |
| Registry.MoveCommand | swiftcache/src/networking/TcpServer.cpp:721-752 | arity, index and MOVE on the stores |
| Registry.FlushAll | swiftcache/src/networking/TcpServer.cpp:796-805 | every store is emptied |
| Registry.ExecuteCommand | swiftcache/src/networking/TcpServer.cpp:373-389 | a data command on the stores is the command on their contents, followed by the eviction it ends with |
| SnapshotFile.WriteEntries | swiftcache/src/core/SnapshotPersistence.cpp:81-121 | the writing loops produce the file format |
| SnapshotFile.ReadEntryLoop | swiftcache/src/core/SnapshotPersistence.cpp:123-189 | the reading loops decode it, failing exactly where the format is broken |
| SnapshotFile.SnapshotPersistence.Save | swiftcache/src/core/SnapshotPersistence.cpp:202-231 | the file becomes the save of all stores, which are purged on the way |
| SnapshotFile.SnapshotPersistence.LoadFile | swiftcache/src/core/SnapshotPersistence.cpp:243-286 | both formats, missing and broken files: success as the load says, and every store holds what eviction leaves of the database it says |
| AofFile.AofPersistence.WriteCommand | swiftcache/src/core/AofPersistence.cpp:206-214 | a marker when the database changes, then the command |
| AofFile.AofPersistence.Append | swiftcache/src/core/AofPersistence.cpp:110-131 | logs exactly the commands the table logs |
| AofFile.AofPersistence.ExecuteThenAppend | swiftcache/src/core/AofPersistence.cpp:133-163 | reply, stores and bytes written, with any eviction; with eviction off, exactly one command step of the protocol |
| AofFile.AofPersistence.Checkpoint | swiftcache/src/core/AofPersistence.cpp:165-179 | exactly the two checkpoint steps of the protocol |
| AofFile.AofPersistence.ReplayInto | swiftcache/src/core/AofPersistence.cpp:27-108 | each parsed command runs in the database the markers select, followed by the eviction it ends with; with eviction off this is the replay of the protocol |
| AofFile.StartUp | swiftcache/src/main.cpp:405-417 | with any policy, the stores hold what eviction leaves of the load and then of each replayed command; with eviction off this is recovery, and under allkeys-lru and random it ends within the limits, whatever the files hold |
| AofFile.UnlimitedReplays | swiftcache/src/core/AofPersistence.cpp:27-108 | without eviction the loop with its evictions is the replay of the protocol |
| AofFile.ReplayStaysGood | swiftcache/src/core/AofPersistence.cpp:27-108 | under allkeys-lru and random every state of the replay loop is within the limits |
| PubSub.SubscriptionIndex.SubscribeTo | swiftcache/src/networking/TcpServer.cpp:862-877 | both indexes updated for every channel; each reported count is the number of subscriptions so far |
| PubSub.SubscriptionIndex.UnsubscribeFrom | swiftcache/src/networking/TcpServer.cpp:879-914 | the named channels, or all of them in any order; each reported count is what remains |
| PubSub.SubscriptionIndex.PublishTo | swiftcache/src/networking/TcpServer.cpp:916-947 | counts the subscribers reached and removes those that failed |
| PubSub.SubscriptionIndex.RemoveClient | swiftcache/src/networking/TcpServer.cpp:1002-1022 | a disconnecting client is removed from both indexes |
| PubSub.AlwaysInverse | swiftcache/src/networking/TcpServer.cpp:862-1022 | in every reachable state the indexes are inverse and keep no empty entry |
| PubSub.DropAllIsRemove | swiftcache/src/networking/TcpServer.cpp:885-888 | UNSUBSCRIBE with no channel does what a disconnect does |
| PubSub.RemoveIsThorough | swiftcache/src/networking/TcpServer.cpp:1002-1022 | a removed client is nowhere and nobody else is affected |
| PubSub.AddReaches | swiftcache/src/networking/TcpServer.cpp:862-877 | after SUBSCRIBE the client is reached on those channels by its protocol, and everyone else as before |
| PubSub.DropReaches | swiftcache/src/networking/TcpServer.cpp:879-914 | after UNSUBSCRIBE it is not reached there any more, and everyone else as before |
| PubSub.ReachAfter | swiftcache/src/networking/TcpServer.cpp:862-1022 | who is reached on which channel, and how, after any event |
| Server.TcpServer.HandleCommand | swiftcache/src/networking/TcpServer.cpp:339-406 | the dispatch order, the session, the mode, a data command's reply, the stores and both files with any eviction; with eviction off, the protocol steps of one command |
| Server.ReadOnlyRequestIsHarmless | swiftcache/src/networking/TcpServer.cpp:676-688 | a request served while the mode stays on changes nothing live, with any eviction configured |
| Server.GateAdmitsReads | swiftcache/src/networking/TcpServer.cpp:676-688 | with the mode on the gate admits only commands that are not logged |
| Gate.GateIsExact | swiftcache/src/networking/TcpServer.cpp:676-688 | for an authenticated client, turning the mode on changes what a request does if and only if the command is logged or is PUBLISH, and then nothing is done |
| Gate.ReadsAreServed | swiftcache/src/networking/TcpServer.cpp:676-688 | every well-formed read is run, with the mode on as with the mode off |
| Gate.CommandsAreServed | swiftcache/src/networking/TcpServer.cpp:339-406 | with the mode off every data command is run |
| Gate.SelectSelects | swiftcache/src/networking/TcpServer.cpp:690-719 | SELECT with the number of a database selects it, with any other does nothing |
| Gate.SelectThenRun | swiftcache/src/networking/TcpServer.cpp:339-406 | after SELECT the commands of that client run in that database |
| Gate.ReadOnlySwitches | swiftcache/src/networking/TcpServer.cpp:459-476 | READONLY ON and OFF switch the mode |
| Gate.AuthChecks | swiftcache/src/networking/TcpServer.cpp:416-434 | AUTH authenticates with the password of the server and with no other |
| Gate.AuthOpens | swiftcache/src/networking/TcpServer.cpp:416-434 | after AUTH a client may send requests if it could before or gave the password |
| Gate.ModeIsSet | swiftcache/src/networking/TcpServer.cpp:459-476 | after READONLY the mode is as requested |
| Gate.SaveSaves | swiftcache/src/networking/TcpServer.cpp:635-662 | SAVE saves, in read-only mode too |
| Server.ReadOnlyIsSafe | swiftcache/src/networking/TcpServer.cpp:339-406 | over any stretch of a run of any clients, threads and workers, with the mode on and no write past the gate at its start, every database keeps its contents minus what has expired |
| Server.RacingWriteSlipsThrough | swiftcache/src/networking/TcpServer.cpp:367-389 | a SET past the gate runs after another client has switched the mode on, so that condition cannot be dropped |
| Server.ShapeHoldsThroughout | swiftcache/src/datastore/DataStore.cpp:286-766 | the shape invariant over every server run with any eviction |
| Server.LimitsHoldThroughout | swiftcache/src/datastore/DataStore.cpp:176-182 | under allkeys-lru and random, in every state of any server run, SAVE and the workers included, every database has at most the configured number of keys and of estimated bytes |
| Server.WithoutPasswordNothingChanges | swiftcache/src/networking/TcpServer.cpp:342-349 | over any run in which nobody sends the password, neither the mode nor any database changes, minus what expires |

## Left out

- Sockets, signals and condition variables: lock-protected regions are atomic steps, the workers are step kinds, and a client's thread takes one step to the gate and one to run its command.
- FLUSHALL, SAVE and the snapshot worker visit the stores one after the other; here each is one step.
- Failed file writes, and reopening a log with a torn tail.
- C++ iterator and reference lifetimes (reads after eviction, iterators kept across an insertion in RENAME and MOVE); returned sizes are computed before eviction.
- Allocation effects such as `reserve` on a declared count, and allocation failure for an absurd declared size in a snapshot.
- Reply formatting for RESP clients, Pub/Sub message formatting, CONFIG, COMMAND and CLIENT text, server metrics, configuration parsing.
- INFO is modelled up to the key count and byte estimate; the counters that follow are not.
- The single-store constructors and overloads: the model uses the multi-database forms.
- Overflow of `ttl * 1000` and of the memory estimate: both are unbounded here.
- Datastore.DataStore.IncrBy: signed overflow, undefined in C++, is taken to wrap.
- Recovery.AlwaysRecoverable: with eviction off; no expiry times attached and no popped element with the error prefix (both proved necessary step by step, except that a single zero-second expiry is harmless), sizes that fit the files, restarts over a log ending in database 0 (proved necessary), and inside a checkpoint only if replaying the log there does not depend on its clock. That last condition is exact for recovery at whatever clock readings (CrashLimits.WindowRestartIff) and sufficient for clocks that never go back; attaching an expiry time in passing is allowed.
- CrashWindow.WindowRecovers: a sufficient condition that can be read off the log; the exact condition for any log is CrashLimits.WindowExactIff.
- Server.LimitsHoldThroughout: clock readings and stamps below the 64-bit maximum, which the scans treat as infinity.
- AofFile.AofPersistence.ReplayInto: which keys a loop evicts is left open where the policy leaves it open, so with eviction on the result is a relation; evictions are not logged, and no recovery of the live contents is claimed then.
- PubSub.SubscriptionIndex.PublishTo: one step; the source releases the lock between collecting the subscribers, sending to them and removing those that failed.
- Server.TcpServer.HandleCommand: the texts the server itself sends (authentication, refusals, SELECT, SAVE) and Pub/Sub requests, which the SubscriptionIndex methods model.
- Datastore.DataStore.Keys: purge and listing are one step; the source releases the lock between them.
