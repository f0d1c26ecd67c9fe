# A verified model of a change-data-capture pipeline

The system streams row changes out of MySQL and PostgreSQL and hands each
change, as a JSON document, to a set of publisher plugins. This project
models its core in Dafny and proves properties of that model.

- **MySQL binlog streamer** (`binlog_bytes`, `binlog_events`, `binlog_text`,
  `binlog_config`, `binlog_stream`). It models:
  - the event frame and the decoders of QUERY, ROTATE, TABLE_MAP and the rows-event headers, each paired with an encoder;
  - the column bitmaps and value widths;
  - statement classification and the two JSON escapers;
  - the streamer's globals (binlog file and position, transaction flag and id, table map and ENUM cache, checkpoint counter) as a class whose methods follow step functions.
  - the events it publishes: DDL statements, XID commits, and one event per rows event that has a row.
- **PostgreSQL pgoutput streamer** (`pg_wire`, `pg_decode`, `pg_lsn`,
  `pg_feedback`, `pg_stream`). It models:
  - the `pg_getmsg*` cursor readers;
  - the RELATION and TupleData decoders, with the wire layout they read back;
  - the LSN text and checkpoint forms;
  - the standby status update;
  - the streamer's state: the current LSN, the counters, the transaction and the relation cache.
- **Publisher loader** (`publisher_loader`, `plugin_config`, `cdc_types`). It models loading a plugin into an instance, the instance's bounded ring-buffer queue (an array updated in place), the worker's dequeue step, start and stop with their counters, the per-publisher database filter, and the configuration helpers handed to plugins.
- **Logger** (`logger`). It models the level names, the 32-slot callback table and the byte accounting of the rotating log file.
- **Publisher plugins**: Kafka, UDP, Redis, ZeroMQ, syslog, webhook, and the Python and Java bridges. Each is modelled with the settings its `init` reads, what `publish` sends, its result codes and its counters. The transport (librdkafka, sockets, hiredis, libzmq, libcurl, CPython, the JVM) enters as oracle parameters: whether a call succeeded and what it returned.
- **Plugin examples** (`publish_example`, `java_example`) and **monitor scripts** (`kafka_monitor`, `redis_stream_monitor`, `redis_pubsub_monitor`, `webhook_test`). Their statistics and the outputs they compute are modelled. The clients, the clock and the JSON decoder are passed in. Python dicts and text operations are in `py_dict` and `py_text`.
- **Shared modules**: `wrappers` (Option), `ctext` (the C library text primitives), `json` (a decoded JSON value), `monitor_stats` and `sets`.

Code that updates state in place is modelled as classes with `modifies`
clauses. Each state-changing method is tied to a step function on a value
of the state, and the promised properties are proved about those functions.
Pure code is modelled as functions and lemmas.

## Model

| member | source | states |
|---|---|---|
| CdcTypes.OrUnknown | src/plugins/kafka_publisher.c:206-207 | a NULL database or table name is written as "unknown"; a present name is kept as it is |
| CdcTypes.QualifiedNameParts | src/plugins/kafka_publisher.c:204-207 | the "%s%s.%s" name reads back as the prefix, the database, one dot and the table, at the offsets their lengths give |
| CdcTypes.EventFieldsKeys | src/plugins/python_publisher.c:329-360 | the bridges' dictionary has one entry per non-NULL field, "txn" first when present and "json" last when present |
| CText.AtoiOfDecimal | src/core/publisher_loader.c:74-78 | atoi reads back exactly the integer that "%d" prints, negative ones included |
| CText.Bounded | src/core/pg_stream_modular.c:386 | strncpy into a zeroed buffer of `size` bytes keeps a prefix of at most size - 1 characters: all of a shorter string, exactly size - 1 of a longer one |
| CText.ToInt32 | src/core/publisher_loader.c:311 | storing into a 32-bit int wraps modulo 2^32 into the signed range and keeps every value already in range |
| CText.LastIndexOf | src/plugins/python_publisher.c:84 | strrchr: the index found holds the character and no later index does; None exactly when the character does not occur |
| MonitorStats.Bump | scripts/monitors/redis_stream_monitor.py:95-108 | the total grows by one, and the per-type counters never add up to more than the total |
| Json.Len | scripts/monitors/webhook_test.py:82 | Python's len is defined exactly for strings, lists and dicts; anything else raises |
| PluginConfig.GetConfig | src/core/publisher_loader.c:63-72 | the value of the first entry whose key matches; None exactly when no entry has the key |
| PluginConfig.FirstEntryWins | src/core/publisher_loader.c:66-70 | an entry placed in front shadows every later entry with the same key |
| PluginConfig.GetConfigInt | src/core/publisher_loader.c:74-78 | the default for a missing key, otherwise atoi of the first matching value |
| PluginConfig.GetConfigBool | src/core/publisher_loader.c:80-109 | the default for a missing key, otherwise the text rule applied to the first matching value |
| PluginConfig.ParseBoolText | src/core/publisher_loader.c:86-108 | after the leading blanks, a "true" word gives 1, a "false" word gives 0 and anything else, the empty text included, gives the default |
| PluginConfig.TrueFalseDisjoint | src/core/publisher_loader.c:95-105 | no text is in both word lists, so the order of the tests does not decide anything |
| PluginConfig.BlankPrefixIgnored | src/core/publisher_loader.c:87-89 | any run of spaces, tabs, CR and LF in front of a recognised word leaves that word's flag unchanged |
| PluginConfig.TrailingBlankNotTrimmed | src/core/publisher_loader.c:87-108 | only leading blanks are skipped: "yes " is not recognised and gives the default |
| PublisherLoader.QueueCapacityRule | src/core/publisher_loader.c:311 | the capacity is always positive; a depth in the int range is used as it is; 0 selects the default; a depth of 2^32 wraps to 0 and falls back to the default; 2^32 + 5 wraps to 5 |
| PublisherLoader.EnqueueAllKeepsWhatFits | src/core/publisher_loader.c:513-542 | a burst of enqueues keeps exactly the events that fit, in arrival order, and counts each of the others as dropped |
| PublisherLoader.DrainAllIsItems | src/core/publisher_loader.c:223-270 | draining the queue yields its items, oldest first |
| PublisherLoader.FifoOrder | src/core/publisher_loader.c:223-270 | events enqueued into an empty queue that has room for all of them come out in the order they went in, and none is dropped |
| PublisherLoader.RingPush | src/core/publisher_loader.c:534-536 | writing the tail slot and advancing the tail modulo the capacity appends the event to the queue's contents |
| PublisherLoader.RingPop | src/core/publisher_loader.c:241-245 | the head slot holds the oldest event; clearing it and advancing the head modulo the capacity removes that event |
| PublisherLoader.ListContains | src/core/publisher_loader.c:552-556 | the filter-list search finds the database exactly when it is listed |
| PublisherLoader.ShouldPublish | src/core/publisher_loader.c:545-559 | true exactly for an active instance, a non-NULL database, and an empty filter list or one that lists the database |
| PublisherLoader.LoadedPluginIsSound | src/core/publisher_loader.c:273-451 | a loaded plugin had an active configuration, publish and init callbacks, API version 1 when it reports one, and an init that returned 0, and it gets a queue with room; an inactive configuration is refused |
| PublisherLoader.Failed | src/core/publisher_loader.c:255-260 | failures and successes among the publish results add up to all of them |
| PublisherLoader.PublisherInstance.constructor | src/core/publisher_loader.c:183-203 | queue_init: the capacity rule, an empty queue with head, tail and count 0, the stop flag cleared, all counters 0 |
| PublisherLoader.PublisherInstance.Enqueue | src/core/publisher_loader.c:513-542 | -1 with nothing changed for an inactive instance or a NULL event; otherwise the queue follows the enqueue rule (a failed copy or a full queue counts a drop); 0 exactly when the event was stored |
| PublisherLoader.PublisherInstance.PushTail | src/core/publisher_loader.c:533-536 | the ring stays well formed and its contents gain the event at the end |
| PublisherLoader.PublisherInstance.PopHead | src/core/publisher_loader.c:241-245 | the ring stays well formed; the event returned is the oldest and leaves the contents |
| PublisherLoader.PublisherInstance.WorkerStep | src/core/publisher_loader.c:223-270 | an empty queue waits, or exits once stop is set; otherwise the oldest event leaves the queue and is published: success counts a publish, a non-zero result an error; without a publish callback it is discarded |
| PublisherLoader.PublisherInstance.Start | src/core/publisher_loader.c:454-479 | -1 for an inactive instance; 0 when already started; otherwise 0 exactly when the start callback (if any) returned 0 and the thread was created, and only then is the instance started |
| PublisherLoader.PublisherInstance.Stop | src/core/publisher_loader.c:482-510 | 0 always; a started instance sets the stop flag, delivers every queued event in order, counts a publish for each 0 result and an error for each other result, and ends stopped |
| PublisherLoader.PublisherManager.LoadPlugin | src/core/publisher_loader.c:273-451 | 0 exactly when the load checks pass; then a fresh, active, empty, not yet started instance with the configured capacity and filter list is prepended to the list and counted; on failure nothing changes |
| Logger.LevelName | src/core/logger.c:75-78 | a level's name, and "UNKNOWN" exactly for a level outside TRACE..FATAL |
| Logger.Log.SetLevel | src/core/logger.c:85-87 | the global level is the new one and nothing else changes |
| Logger.Log.SetQuiet | src/core/logger.c:89-91 | the quiet flag is the new one and nothing else changes |
| Logger.Log.AddCallback | src/core/logger.c:93-103 | the first empty slot takes the callback and 0 is returned, exactly when a slot is free; with all MAX_CALLBACKS slots full, -1 and nothing changes |
| Logger.Log.Dispatch | src/core/logger.c:390-420 | the event goes to stderr exactly when not quiet and at or above the global level; the callbacks run are exactly the filled slots whose level the event meets, in slot order |
| Logger.LineLength | src/core/logger.c:323-331 | the line written is at least one byte (the newline) and at most 4095; a short line is header, message and newline in full |
| Logger.RotatingFile.Open | src/core/logger.c:346-376 | a NULL path or max_files <= 0 gives -1 with nothing touched; otherwise the settings are stored (path kept to 511 characters), the byte count is seeded from a positive ftell, and the result is 0 exactly when the file opened and a callback slot was free |
| Logger.RotatingFile.Rotate | src/core/logger.c:215-276 | without a path or with max_files <= 0 nothing happens; otherwise the file is reopened and the byte count restarts at 0 |
| Logger.RotatingFile.Write | src/core/logger.c:278-343 | the line is capped; a closed file ignores it; a line that would take the count past max_bytes rotates first; the count then grows by what fwrite wrote |
| BinlogConfig.FindDatabaseConfig | src/core/binlog_stream_modular.c:255-262 | the first configured database with that name; None exactly when no configured database has it |
| BinlogConfig.FindTable | src/core/binlog_stream_modular.c:268-272 | a listed table with that name; None exactly when the list has none |
| BinlogConfig.FindTableConfig | src/core/binlog_stream_modular.c:264-274 | the table is looked up only under the first database entry of that name; an unknown database gives None |
| BinlogConfig.CaptureNeedsConfiguredDatabase | src/core/binlog_stream_modular.c:276-288 | a table, DML or DDL is captured only for a database that is configured |
| BinlogConfig.CapturedTableIsListed | src/core/binlog_stream_modular.c:276-278 | a captured table is listed under the database's first entry |
| BinlogConfig.ParseLogLevel | src/core/binlog_stream_modular.c:290-298 | always a valid level: one whose name matches the text case-insensitively, or INFO |
| BinlogConfig.ParseLogLevelOfName | src/core/binlog_stream_modular.c:290-298 | every name the logger prints reads back as its own level |
| BinlogText.ClassifyQuery | src/core/binlog_stream_modular.c:1614-1630 | a keyword is chosen only when it starts the statement, case ignored, and no keyword checked before it does; QUERY when none does |
| BinlogText.KeywordClassifies | src/core/binlog_stream_modular.c:1614-1630 | a statement starting with a keyword, in any case, is classified by that keyword |
| BinlogText.ClassifyIgnoresCase | src/core/binlog_stream_modular.c:1614-1630 | upper-casing the statement never changes its classification |
| BinlogText.ValueEscapeRoundTrip | src/core/binlog_stream_modular.c:1292-1304 | a JSON reader gets a string column's bytes back from their escaped text |
| BinlogText.ValueEscapeHasNoControlChars | src/core/binlog_stream_modular.c:1300-1301 | no character below 32 is left raw in an escaped column value |
| BinlogText.DdlEscapeRoundTrip | src/core/binlog_stream_modular.c:1666-1686 | a JSON reader gets the statement back from its escaped text |
| BinlogText.DdlEscapeKeepsControlChars | src/core/binlog_stream_modular.c:1683-1685 | the statement escape leaves other control characters raw, so a statement holding byte 1 keeps it |
| BinlogText.QuoteValue | src/core/binlog_stream_modular.c:1292-1304 | the value is the escaped bytes between two quotes |
| BinlogText.EscapeQuery | src/core/binlog_stream_modular.c:1665-1687 | the escape of the first 1023 statement characters, and at most 2046 bytes, so the terminating NUL always fits |
| BinlogBytes.LeBytesRoundTrip | src/core/binlog_stream_modular.c:180-197 | the little-endian reading of the n low bytes of a value below 256^n is that value |
| BinlogBytes.LeValueRoundTrip | src/core/binlog_stream_modular.c:180-197 | writing back the little-endian value of a byte string gives the same bytes |
| BinlogBytes.Le16 | src/core/binlog_stream_modular.c:180-182 | le16 is the little-endian value of the first two bytes |
| BinlogBytes.Le24 | src/core/binlog_stream_modular.c:183-185 | le24 is the little-endian value of the first three bytes |
| BinlogBytes.Le32 | src/core/binlog_stream_modular.c:186-189 | le32 is the little-endian value of the first four bytes, below 2^32 |
| BinlogBytes.Le48 | src/core/binlog_stream_modular.c:190-192 | le48 (le16 of bytes 4-5 above le32) is the little-endian value of the first six bytes |
| BinlogBytes.Le64 | src/core/binlog_stream_modular.c:193-197 | the shifting loop yields the little-endian value of the first eight bytes, below 2^64 |
| BinlogBytes.BitGet | src/core/binlog_stream_modular.c:198-200 | a bit is 0 or 1 |
| BinlogBytes.PresentCountIsCardinality | src/core/binlog_stream_modular.c:202-208 | the count of present columns is the number of set bits among the first n |
| BinlogBytes.CountPresentColumns | src/core/binlog_stream_modular.c:202-208 | the counting loop returns the number of set bits among the first ncols, at most ncols |
| BinlogBytes.BitmapLen | src/core/binlog_stream_modular.c:1490 | (n + 7) >> 3 is the fewest bytes that hold n bits |
| BinlogBytes.RowNullBitmap | src/core/binlog_stream_modular.c:1489-1495 | a row shorter than its null bitmap (one bit per present column) is rejected; otherwise the bitmap takes (present + 7) >> 3 bytes |
| BinlogBytes.MetaLenPrefix | src/core/binlog_stream_modular.c:1063-1075 | below 251 the byte is the length; 252 and 253 take a 2- and 3-byte length; 251, 254 and 255 give length 0 and consume nothing |
| BinlogBytes.LenencRoundTrip | src/core/binlog_stream_modular.c:1063-1075 | a length written in MySQL's length-encoded form reads back, and exactly the prefix is skipped |
| BinlogBytes.SkipColumnValue | src/core/binlog_stream_modular.c:1408-1457 | the width of each fixed-size type, the fraction bytes of TIMESTAMP2 and DATETIME2, the pack length of ENUM, and length field plus length for VARCHAR, BLOB and STRING; any other type takes 0 bytes |
| BinlogBytes.SkipLandsAfterValue | src/core/binlog_stream_modular.c:1430-1453 | skipping a length-prefixed value lands exactly after its bytes |
| BinlogBytes.DecodeTiny | src/core/binlog_stream_modular.c:1186-1189 | (int8_t) of the byte: a signed value congruent to it modulo 256 |
| BinlogBytes.DecodeShort | src/core/binlog_stream_modular.c:1190-1194 | (int16_t)le16: a signed value congruent to le16 modulo 65536 |
| BinlogBytes.Int24RoundTrip | src/core/binlog_stream_modular.c:1195-1199 | the sign extension of le24 reads back every 24-bit signed value written in three bytes |
| BinlogBytes.CRem | src/core/binlog_stream_modular.c:1269-1270 | C's truncating division and remainder: a = q * b + r, agreeing with Euclidean division for a >= 0 |
| BinlogBytes.DecodeDatetime2 | src/core/binlog_stream_modular.c:1260-1274 | the five bytes are read big-endian and split into fields as the decoder does |
| BinlogBytes.Datetime2RoundTrip | src/core/binlog_stream_modular.c:1260-1274 | every valid date and time packed as DATETIME2 stays below 2^40 and the decoder's field split gives it back |
| BinlogEvents.CStringIsPrefix | src/core/binlog_stream_modular.c:989-990 | a name read as a C string is a prefix of its buffer that ends at a NUL or at the buffer's end |
| BinlogEvents.CStringOfNoNul | src/core/binlog_stream_modular.c:989-990 | a buffer without a NUL is read whole |
| BinlogEvents.PayloadLenAsWritten | src/core/binlog_stream_modular.c:2089-2095 | the clipped event length minus 19, taken modulo 2^32, less a checksum of 4 when there is one; within the received bytes whenever the length field counts the header |
| BinlogEvents.EventFrameOf | src/core/binlog_stream_modular.c:2079-2095 | rejected exactly for a packet shorter than 20 bytes or without the OK byte; the type is byte 4 of the event and the next position its bytes 13-16; the payload is the received bytes after the header, as many as the as-written length allows |
| BinlogEvents.IntendedEventFrameOf | src/core/binlog_stream_modular.c:2083-2092 | as the frame, but an event-length field below 19 is rejected too, so the computed payload length is exactly the payload received |
| BinlogEvents.HeaderOnlyEventWraps | src/core/binlog_stream_modular.c:2092 | a 20-byte packet whose event-length field is 0 passes every check, and the payload length computed is 2^32 - 19 where no payload byte was received; the intended frame rejects it |
| BinlogEvents.EventFrameRoundTrip | src/core/binlog_stream_modular.c:2083-2095 | an event whose length field counts its header, payload and checksum frames back to its type, next position and payload |
| BinlogEvents.TrimNulsIsPrefix | src/core/binlog_stream_modular.c:1602-1604 | trimming removes exactly a tail of NULs and leaves a statement that does not end in NUL |
| BinlogEvents.TrimmedLength | src/core/binlog_stream_modular.c:1602-1604 | the trimming loop stops at the length of the statement without its trailing NULs |
| BinlogEvents.QueryEventFields | src/core/binlog_stream_modular.c:1559-1606 | None for a payload below 13 bytes; otherwise the database length is byte 8, the database has no NUL, the statement does not end in NUL, and all of it lies within the payload |
| BinlogEvents.QueryEventRoundTrip | src/core/binlog_stream_modular.c:1559-1606 | decoding an encoded QUERY_EVENT gives back its database and statement, with NUL padding after the statement dropped |
| BinlogEvents.PrintableRun | src/core/binlog_stream_modular.c:2056-2061 | the longest prefix of printable bytes within the limit; the byte that stops it is not printable |
| BinlogEvents.RotateNameLength | src/core/binlog_stream_modular.c:2055-2061 | the name loop stops at the printable run, capped to the file name buffer |
| BinlogEvents.RotationOf | src/core/binlog_stream_modular.c:2048-2069 | None exactly for a payload below 8 bytes; the position is the little-endian 8-byte value; the name is the printable bytes after it, within the buffer's size |
| BinlogEvents.RotationRoundTrip | src/core/binlog_stream_modular.c:2048-2069 | a position followed by a printable name is read back whole |
| BinlogEvents.Clip127 | src/core/binlog_stream_modular.c:987-988 | a name length is clipped to 127 and kept when it fits |
| BinlogEvents.TableColumns | src/core/binlog_stream_modular.c:1053-1061 | one column type per column the count byte announces |
| BinlogEvents.MetaBlock | src/core/binlog_stream_modular.c:1063-1078 | the metadata block is the bytes after the length prefix, at most as many as it announces and cut short where the payload ends; only an unreadable prefix loses it |
| BinlogEvents.ShortMetaBlockKept | src/core/binlog_stream_modular.c:1063-1122 | one MT_LONG column with meta_len 5 and nothing after it keeps its type and an empty metadata block |
| BinlogEvents.TableMapFields | src/core/binlog_stream_modular.c:981-1074 | None below 8 bytes, as the source's guard; an 8-byte payload, where the source reads the schema length past the payload, is None too; otherwise the 6-byte table id, names of at most 127 bytes without NUL, and one type per column |
| BinlogEvents.TableMapRoundTrip | src/core/binlog_stream_modular.c:981-1074 | decoding an encoded table map gives back its table id, names, column types and metadata block |
| BinlogEvents.MetaStep | src/core/binlog_stream_modular.c:1079-1121 | the bytes consumed stay within the block; a STRING column becomes ENUM or SET only as its metadata says; a type without metadata consumes nothing |
| BinlogEvents.Untouched | src/core/binlog_stream_modular.c:1054-1060 | a column the loop never reaches keeps metadata 0 and its declared type |
| BinlogEvents.ColumnMetadataTypes | src/core/binlog_stream_modular.c:1078-1122 | every column's real type is its declared type, except a STRING whose metadata names ENUM or SET |
| BinlogEvents.ReadColumnMetadata | src/core/binlog_stream_modular.c:1053-1122 | fresh arrays with one entry per column, holding exactly what the metadata loop specification gives |
| BinlogEvents.ReadEntry | src/core/binlog_stream_modular.c:1081-1121 | the switch for one column gives its metadata, real type and width as the step specification does |
| BinlogEvents.RowsBitmaps | src/core/binlog_stream_modular.c:1985-2004 | the column count byte, a present bitmap of (ncols + 7) >> 3 bytes, a second one exactly for an update, and the rest as rows |
| BinlogEvents.RowsEventHeader | src/core/binlog_stream_modular.c:1950-2004 | None below 8 bytes; the table id is the little-endian 6-byte value; the bitmaps and rows lie inside the payload |
| BinlogEvents.RowsEventRoundTrip | src/core/binlog_stream_modular.c:1950-2004 | decoding an encoded rows event, with v2 extra data, gives back its table id, bitmaps and rows |
| BinlogEvents.DecompressHeader | src/core/binlog_stream_modular.c:798-811 | -1 exactly for fewer than 2 bytes, a zero header size, a header longer than the input or an algorithm other than 0; otherwise the little-endian uncompressed length |
| BinlogStream.RotatedName | src/core/binlog_stream_modular.c:2063-2068 | the file name recorded is never empty: "<unknown>" stands in for a name without printable bytes |
| BinlogStream.CacheReset | src/core/binlog_stream_modular.c:1024-1051 | as evidently intended: the ENUM cache is reset exactly when the table, the column count changes or there is no cache yet |
| BinlogStream.CacheResetAsWritten | src/core/binlog_stream_modular.c:1004-1051 | as written: the cache is reset exactly when the column count changes or there is no cache, because the table names are compared after being overwritten |
| BinlogStream.TableChangeIgnoredAsWritten | src/core/binlog_stream_modular.c:1024-1025 | a different table with the same column count does not reset the cache as written, though the intended decision does |
| BinlogStream.StaleCacheAsWritten | src/core/binlog_stream_modular.c:1046-1051 | after a.t with its cache, a captured map of another table with as many columns keeps a.t's cache as written, where the intended step gives the new table its own |
| BinlogStream.CapturedMapOwnsCache | src/core/binlog_stream_modular.c:1046-1051 | with the intended decision the cache after a captured map is the one for that table and column count, never a previous table's |
| BinlogStream.CapturedMapSizesCache | src/core/binlog_stream_modular.c:1026-1051 | as written the cache is kept when it exists and the column count is unchanged, otherwise reallocated for the new map; either way it is sized for the new map |
| BinlogStream.RowsKind | src/core/binlog_stream_modular.c:2024-2033 | a rows event is printed as INSERT exactly for the write types, UPDATE exactly for the update types, DELETE otherwise |
| BinlogStream.RowBytes | src/core/binlog_stream_modular.c:2008-2022 | the row loop runs over the bytes after the bitmaps, or for a compressed event over what they inflate to; a header mariadb_decompress_rows rejects gives none |
| BinlogStream.RowsOnlyPublish | src/core/binlog_stream_modular.c:1775-2037 | a rows event changes nothing but the published list, and adds at most one event: the table map's db and table, the current txn id, and JSON opening with the type, txn, db and table members |
| BinlogStream.RowsEventOfLayout | src/core/binlog_stream_modular.c:1775-2037 | an uncompressed rows event publishes exactly when the last map was captured (table id not 0) and the row bytes hold the smallest row: (ncols + 7) >> 3 bytes, or two bitmaps plus two bytes per column for an update; otherwise nothing changes |
| BinlogStream.FailedInflationSkipped | src/core/binlog_stream_modular.c:2010-2017 | a compressed rows event whose header is rejected or whose inflation fails changes nothing |
| BinlogStream.Tick | src/core/binlog_stream_modular.c:2148-2154 | a checkpoint is written exactly when the counter reaches the configured count, and the counter then restarts at 0 |
| BinlogStream.TicksCount | src/core/binlog_stream_modular.c:2148-2154 | k events from a fresh counter write k / n checkpoints and leave the counter at k mod n: one checkpoint every n events |
| BinlogStream.CadenceSaves | src/core/binlog_stream_modular.c:2148-2159 | with saving on, a due checkpoint records the file and position in effect after the event and resets the counter; with count 0 every event is saved; otherwise only the counter grows |
| BinlogStream.InitialValid | src/core/binlog_stream_modular.c:2202-2394 | the streaming state at start-up satisfies the streamer's invariant |
| BinlogStream.BeginStartsTransaction | src/core/binlog_stream_modular.c:1632-1635 | BEGIN opens a transaction under a fresh id and publishes nothing |
| BinlogStream.CommitEndsTransaction | src/core/binlog_stream_modular.c:1697-1702 | COMMIT and ROLLBACK close the transaction, clear its id and publish nothing |
| BinlogStream.OtherStatementKeepsTransaction | src/core/binlog_stream_modular.c:1636-1640 | any other statement leaves the transaction flag alone, and outside a transaction gets a fresh id |
| BinlogStream.StatementPublishesCapturedDdl | src/core/binlog_stream_modular.c:1642-1695 | a statement is published exactly when it is DDL naming a default database that captures DDL; the event is routed by that database, names the statement kind as its table, and carries the escaped statement cut to 1023 characters |
| BinlogStream.XidEndsTransaction | src/core/binlog_stream_modular.c:2101-2124 | XID always ends the transaction and clears its id; inside a transaction whose table-map database captures DDL it publishes one COMMIT event with the transaction id and the server's xid (0 when the payload is short); otherwise nothing |
| BinlogStream.IgnoredTableMap | src/core/binlog_stream_modular.c:1004-1022 | a map that is not captured is remembered under its names with table id 0 and touches neither the transaction nor the cache |
| BinlogStream.CapturedTableMapOpensTransaction | src/core/binlog_stream_modular.c:1024-1122 | a captured map opens a transaction when none is open (keeping the id otherwise) and records the table id, names and decoded column metadata |
| BinlogStream.RotateMovesToFile | src/core/binlog_stream_modular.c:2048-2077 | a ROTATE_EVENT moves to the named file and position and, with saving on, saves a checkpoint there at once and resets the counter |
| BinlogStream.QueryKeepsValid | src/core/binlog_stream_modular.c:1559-1703 | parse_query touches neither the table map nor the cache, and an open transaction always has an id |
| BinlogStream.EmitKeeps | src/core/binlog_stream_modular.c:1709-1743 | publish_event changes nothing but the list of published events |
| BinlogStream.RotateKeepsValid | src/core/binlog_stream_modular.c:2048-2077 | parse_rotate touches neither the transaction, the table map nor the cache |
| BinlogStream.TableMapKeepsValid | src/core/binlog_stream_modular.c:981-1160 | parse_table_map keeps an open transaction's id set and the cache sized for the map |
| BinlogStream.DispatchKeepsValid | src/core/binlog_stream_modular.c:2097-2146 | every branch of the switch of parse_event, rows events included, keeps the transaction and cache parts of the invariant |
| BinlogStream.HeaderOnlyEventCounted | src/core/binlog_stream_modular.c:2083-2148 | a bare header whose event-length field is 0 is still an event: an unknown type moves the position to next_pos and is counted |
| BinlogStream.HeaderOnlyXidCommits | src/core/binlog_stream_modular.c:2101-2124 | a bare XID header with event length 0 still ends the transaction |
| BinlogStream.EventStepPreservesValid | src/core/binlog_stream_modular.c:2079-2162 | every event parse_event accepts keeps the streamer's invariant |
| BinlogStream.Streamer.constructor | src/core/binlog_stream_modular.c:2202-2394 | the globals at the start: the given file and position, no transaction, an empty table map, no cache, no checkpoint, nothing published |
| BinlogStream.Streamer.PublishEvent | src/core/binlog_stream_modular.c:1709-1743 | the state after publish_event is the publishing step of the old one |
| BinlogStream.Streamer.SavePosition | src/core/binlog_stream_modular.c:665-683 | the state after save_position is the checkpoint step of the old one |
| BinlogStream.Streamer.ParseQuery | src/core/binlog_stream_modular.c:1559-1703 | the state after parse_query is the query step of the old one |
| BinlogStream.Streamer.ParseXid | src/core/binlog_stream_modular.c:2101-2124 | the state after the XID case is the XID step of the old one |
| BinlogStream.Streamer.ParseRotate | src/core/binlog_stream_modular.c:2048-2077 | the state after parse_rotate is the rotate step of the old one |
| BinlogStream.Streamer.ParseTableMap | src/core/binlog_stream_modular.c:981-1160 | the state after parse_table_map is the table-map step of the old one, unchanged for a payload the model cannot read |
| BinlogStream.Streamer.ApplyTableMap | src/core/binlog_stream_modular.c:1004-1122 | the state after the decoded table map is applied is the as-written map step of the old one |
| BinlogStream.Streamer.DispatchFrame | src/core/binlog_stream_modular.c:2097-2146 | the state after the switch is the dispatch step of the old one, rows events included |
| BinlogStream.Streamer.ParseRowsEvent | src/core/binlog_stream_modular.c:1775-2037 | the state after parse_rows_event and its row parser is the rows step of the old one |
| BinlogStream.Streamer.CountEvent | src/core/binlog_stream_modular.c:2148-2159 | the state after the counting tail is the checkpoint cadence of the old one |
| BinlogStream.Streamer.ReadColumns | src/core/binlog_stream_modular.c:1078-1122 | the column metadata the loop reads is the metadata specification of the types and block |
| BinlogStream.Streamer.ParseEvent | src/core/binlog_stream_modular.c:2079-2162 | -1 with nothing changed exactly when the packet is rejected; otherwise 0 and the event step of the old state |
| PgLsn.HexValueOfUpper | src/core/pg_stream_modular.c:657 | the digits "%lX" prints read back as the number printed |
| PgLsn.HexRunOfDigits | src/core/pg_stream_modular.c:221 | a run of hex digits ends exactly where the digits do |
| PgLsn.ScanHex | src/core/pg_stream_modular.c:221 | one "%lx" conversion: a value up to ULONG_MAX and at least one character consumed, within the text |
| PgLsn.ScanHexOfDigits | src/core/pg_stream_modular.c:221 | a conversion over a run of hex digits reads exactly that run and its value |
| PgLsn.Combine | src/core/pg_stream_modular.c:223 | `(upper << 32) \| lower` on 64-bit values always fits in 64 bits |
| PgLsn.CombineOfHalves | src/core/pg_stream_modular.c:223 | for 32-bit halves the shift and the or are upper * 2^32 + lower |
| PgLsn.ParseLsnText | src/core/pg_stream_modular.c:216-225 | a NULL or empty text is rejected; a parsed LSN is below 2^64 |
| PgLsn.ScanLsnOfHalves | src/core/pg_stream_modular.c:221-223 | "H/L" with hex halves below 2^32, in either case, reads as H * 2^32 + L |
| PgLsn.CombineOfSplit | src/core/pg_stream_modular.c:657 | the two halves save_position prints recombine to the LSN |
| PgLsn.ParseLsnTextOfLsnText | src/core/pg_stream_modular.c:216-225 | every LSN printed as the server prints it reads back unchanged |
| PgLsn.RestorePosition | src/core/pg_stream_modular.c:666-683 | nothing is restored when saving is off or the file does not open; a restored LSN is below 2^64 |
| PgLsn.CheckpointRoundTrip | src/core/pg_stream_modular.c:645-683 | restore_position after save_position gives back the same 64-bit LSN |
| PgLsn.StartLsn | src/core/pg_stream_modular.c:1556-1600 | the resume point, clamped down to the slot's confirmed_flush_lsn when that reads, and the resume point itself when it does not |
| PgLsn.StartNeverAheadOfSlot | src/core/pg_stream_modular.c:1578-1598 | streaming never starts ahead of the LSN the server confirmed nor ahead of the resume point, and starts at the resume point when that is not ahead |
| PgLsn.CheckpointOverridesConfiguration | src/core/pg_stream_modular.c:1556-1576 | a readable checkpoint wins over the configured LSN and the server's current WAL position |
| PgWire.BeBytesRoundTrip | src/core/pg_stream_modular.c:1316-1323 | the big-endian reading of the n low bytes of a value below 256^n is that value |
| PgWire.BeValueRoundTrip | src/core/pg_stream_modular.c:178-197 | writing back a byte string's big-endian value gives the same bytes |
| PgWire.BeValueSplit | src/core/pg_stream_modular.c:178-197 | a big-endian run is its front shifted over its back |
| PgWire.Be16 | src/core/pg_stream_modular.c:178-183 | ntohs of two bytes is their big-endian value |
| PgWire.Be32 | src/core/pg_stream_modular.c:185-190 | ntohl of four bytes is their big-endian value |
| PgWire.Be64 | src/core/pg_stream_modular.c:192-197 | be64toh of eight bytes is their big-endian value |
| PgWire.BeAtOfBytes | src/core/pg_stream_modular.c:178-197 | reading at an offset the bytes a writer put there gives the value written |
| PgWire.StrLen | src/core/pg_stream_modular.c:205-209 | strlen: no NUL before it, and a NUL at it when it is short of the end |
| PgWire.StrLenOfCString | src/core/pg_stream_modular.c:205-209 | strlen finds exactly the string a writer terminated, whatever follows |
| PgWire.Cursor.GetByte | src/core/pg_stream_modular.c:199-203 | the next byte, and the cursor one further |
| PgWire.Cursor.GetInt16 | src/core/pg_stream_modular.c:178-183 | the big-endian value of the next two bytes, and the cursor two further |
| PgWire.Cursor.GetInt32 | src/core/pg_stream_modular.c:185-190 | the big-endian value of the next four bytes, and the cursor four further |
| PgWire.Cursor.GetInt64 | src/core/pg_stream_modular.c:192-197 | the big-endian value of the next eight bytes, and the cursor eight further |
| PgWire.Cursor.GetString | src/core/pg_stream_modular.c:205-209 | the bytes before the next NUL, none of them NUL, and the cursor past that NUL |
| PgWire.Cursor.GetBytes | src/core/pg_stream_modular.c:211-214 | the next len bytes, and the cursor len further |
| PgFeedback.StatusTimestampAsWritten | src/core/pg_stream_modular.c:1312-1313 | as written, the timestamp is the protocol's value plus twice the 2000-01-01 epoch offset |
| PgFeedback.StatusTimestampMeansNow | src/core/pg_stream_modular.c:1310-1313 | the corrected timestamp, read back in PostgreSQL's epoch, is the client's clock |
| PgFeedback.StatusTimestampAsWrittenIsAhead | src/core/pg_stream_modular.c:1313 | as written every status update claims a clock 2 * 946684800 seconds ahead |
| PgFeedback.StatusTimestampAtPgEpoch | src/core/pg_stream_modular.c:1313 | at 2000-01-01 00:00:00 UTC the field should be 0; as written it is 1893369600000000, i.e. 2060-01-01 |
| PgFeedback.ToUint64 | src/core/pg_stream_modular.c:1322 | `(uint64_t)` of a signed 64-bit value is its two's complement, and keeps a non-negative one |
| PgFeedback.StatusMessageLayout | src/core/pg_stream_modular.c:1304-1326 | 34 bytes: 'r', the LSN three times as big-endian 64-bit fields, the timestamp, and a 0 reply byte, each read back at its offset |
| PgFeedback.PutBe64 | src/core/pg_stream_modular.c:1316-1317 | the eight bytes at the offset become the big-endian value and nothing else changes |
| PgFeedback.SendStatusUpdate | src/core/pg_stream_modular.c:1299-1337 | the buffer is the status message for the current LSN and the as-written timestamp; 0 exactly when both the copy and the flush succeed, else -1 |
| PgDecode.Truncate127 | src/core/pg_stream_modular.c:896-897 | strncpy into a zeroed 128-byte field keeps a prefix of at most 127 bytes, and a short name whole |
| PgDecode.ColumnAt | src/core/pg_stream_modular.c:979-990 | a decoded column consumes at least its kind byte and stays within the message |
| PgDecode.ColumnsAt | src/core/pg_stream_modular.c:978-990 | exactly n columns, all within the message |
| PgDecode.TupleAt | src/core/pg_stream_modular.c:963-966 | a tuple consumes at least its type byte and its Int16 count, within the message |
| PgDecode.ColumnReadsBack | src/core/pg_stream_modular.c:979-990 | a column written in the wire layout reads back as itself with its size |
| PgDecode.ColumnsReadBack | src/core/pg_stream_modular.c:978-990 | the columns written at an offset read back exactly, with their total size |
| PgDecode.TupleReadsBack | src/core/pg_stream_modular.c:963-990 | a tuple written at an offset reads back as its columns, whatever its type byte |
| PgDecode.ColumnEncoded | src/core/pg_stream_modular.c:979-990 | an encoder's column bytes are the wire layout the decoder reads |
| PgDecode.ColumnsEncoded | src/core/pg_stream_modular.c:978-990 | the encoder's bytes, wherever they sit, hold the columns in the wire layout |
| PgDecode.TupleEncoded | src/core/pg_stream_modular.c:963-990 | the encoder's tuple bytes are the wire layout, three bytes of header plus the columns |
| PgDecode.TupleRoundTrip | src/core/pg_stream_modular.c:963-990 | decoding an encoded tuple gives back its columns, whatever bytes surround it |
| PgDecode.UpdateTuplesAt | src/core/pg_stream_modular.c:1036-1066 | as evidently intended: an old row is read exactly when the first byte is 'K' or 'O' |
| PgDecode.UpdateReadsNewRow | src/core/pg_stream_modular.c:1060-1066 | as evidently intended: an UPDATE with only the 'N' tuple reads back its new row |
| PgDecode.UpdateReadsBothRows | src/core/pg_stream_modular.c:1036-1066 | an UPDATE with a 'K' or 'O' tuple and then the 'N' tuple reads back both rows |
| PgDecode.UpdateAsWrittenWithOldTuple | src/core/pg_stream_modular.c:1036-1066 | with an old tuple the code as written and the intended decoder agree |
| PgDecode.UpdateAsWrittenMisreadsNewRow | src/core/pg_stream_modular.c:1036-1066 | as written, an UPDATE without an old tuple reads the 'N' byte as the old-tuple test and the new tuple's first count byte as its type, and runs past a valid message |
| PgDecode.AttrAt | src/core/pg_stream_modular.c:901-906 | a column description consumes at least its flags byte, within the message |
| PgDecode.AttrsAt | src/core/pg_stream_modular.c:901-909 | exactly natts column descriptions, within the message |
| PgDecode.RelationAt | src/core/pg_stream_modular.c:867-909 | a RELATION body read within the message |
| PgDecode.FormatValueReadsBack | src/core/pg_stream_modular.c:794-844 | null for a missing value; bool true exactly for a 't' text; numeric and json types verbatim; every other type a quoted string that unescapes to the text |
| PgStream.FindRelation | src/core/pg_stream_modular.c:726-733 | None exactly when no cached relation has the OID; otherwise the first, newest, one that has it |
| PgStream.AddedRelationShadows | src/core/pg_stream_modular.c:735-738 | a relation added in front shadows older entries with the same OID and leaves other OIDs as they were |
| PgStream.AttrIndex | src/core/pg_stream_modular.c:927-935 | the first column with the configured name, -1 exactly when the relation has none |
| PgStream.IncludedIffConfiguredName | src/core/pg_stream_modular.c:927-935 | with a column list, a column is written exactly when its name is configured and no earlier column has that name |
| PgStream.Selected | src/core/pg_stream_modular.c:981-1007 | the columns a row writes lie within both the tuple and the relation |
| PgStream.SelectedExactly | src/core/pg_stream_modular.c:981-1007 | the columns a row writes are exactly the included ones, each once, in increasing order |
| PgStream.SelectedAll | src/core/pg_stream_modular.c:994-998 | with every column captured, a row writes every column that both the tuple and the relation have |
| PgStream.RowPrefixJoins | src/core/pg_stream_modular.c:1000-1006 | what the column loop has written so far is the comma-joined members of the columns it has selected |
| PgStream.RowMembersCaptureAll | src/core/pg_stream_modular.c:981-1010 | with every column captured, one member per shared column, in order, with its name and formatted value |
| PgStream.RowMembersConfigured | src/core/pg_stream_modular.c:981-1010 | with a column list, the members are those of the configured names the relation has, in column order |
| PgStream.InitialValid | src/core/pg_stream_modular.c:1600 | the state stream_changes starts in satisfies the model's invariant |
| PgStream.DmlTargetSpec | src/core/pg_stream_modular.c:945-957 | a row event is captured exactly for a cached relation whose schema captures DML and whose table is configured |
| PgStream.DmlStepEffect | src/core/pg_stream_modular.c:945-1023 | a row event publishes at most one event, at the current LSN and transaction, and counts itself; an uncaptured relation changes nothing |
| PgStream.PublishRowEffect | src/core/pg_stream_modular.c:755-788 | a captured row event is counted, and reaches the publishers exactly when a manager is configured |
| PgStream.SingleRowPublished | src/core/pg_stream_modular.c:945-1023 | an INSERT or DELETE publishes exactly the row written in the message |
| PgStream.UpdatePublishesBothRows | src/core/pg_stream_modular.c:1025-1166 | an UPDATE with a 'K' or 'O' tuple publishes both the old and the new row |
| PgStream.UpdateWithoutOldTupleAsWritten | src/core/pg_stream_modular.c:1036-1066 | as written, an UPDATE without an old tuple publishes the tuple that starts one byte after the 'N' as its new row |
| PgStream.RelationRegistersTarget | src/core/pg_stream_modular.c:867-943 | a RELATION for a configured table makes it the target of later row events, with indexes resolved from this message; another table changes nothing |
| PgStream.CommitCheckpoints | src/core/pg_stream_modular.c:1260-1293 | COMMIT ends the transaction at the end LSN; with saving on, a checkpoint of that LSN is written exactly when the count is 0 or reached, and the counter restarts |
| PgStream.MessageStepKeepsValid | src/core/pg_stream_modular.c:1437-1447 | every pgoutput message keeps the invariant and publishes only at the current LSN and transaction |
| PgStream.CopyDataKeepsValid | src/core/pg_stream_modular.c:1416-1459 | every CopyData buffer keeps the invariant; XLogData publishes at most one event stamped with its end LSN, anything else publishes nothing |
| PgStream.KeepaliveReply | src/core/pg_stream_modular.c:1448-1459 | a keepalive asking for a reply reports the current LSN, or stops the loop when the update fails; one not asking changes nothing |
| PgStream.FinishResumesAtCurrentLsn | src/core/pg_stream_modular.c:1604-1606 | with saving on, the checkpoint left at exit restores to the last current LSN |
| PgStream.PeriodicStatusCadence | src/core/pg_stream_modular.c:1465-1470 | the loop reports at most once per 10 seconds, exactly when one is due and goes out, and stops when one due fails |
| PgStream.PgStreamer.constructor | src/core/pg_stream_modular.c:1600 | the globals at the start of streaming: current_lsn is the start LSN |
| PgStream.PgStreamer.LookupRelation | src/core/pg_stream_modular.c:726-733 | the relation find_relation returns |
| PgStream.PgStreamer.AddRelation | src/core/pg_stream_modular.c:735-738 | the new relation goes in front of the cache and nothing else changes |
| PgStream.PgStreamer.PublishEvent | src/core/pg_stream_modular.c:755-788 | the event is queued at the current LSN and transaction when a manager is configured |
| PgStream.PgStreamer.SavePosition | src/core/pg_stream_modular.c:645-664 | with saving on the checkpoint becomes the "%lX/%lX" text of the LSN; otherwise nothing changes |
| PgStream.PgStreamer.ResolveColumnIndexes | src/core/pg_stream_modular.c:926-936 | each configured column gets the index of the first relation column with its name, or -1 |
| PgStream.PgStreamer.AllIndexes | src/core/pg_stream_modular.c:916-924 | with every column captured, column i gets index i |
| PgStream.PgStreamer.ParseRelation | src/core/pg_stream_modular.c:867-943 | succeeds exactly on a well-formed RELATION body, then applies the relation step; changes nothing otherwise |
| PgStream.PgStreamer.ParseBegin | src/core/pg_stream_modular.c:1246-1258 | a fresh transaction id, and the state is in a transaction |
| PgStream.PgStreamer.ReadCommitEndLsn | src/core/pg_stream_modular.c:1261-1264 | the end LSN is the 64-bit field after the flags and the commit LSN |
| PgStream.PgStreamer.ParseCommit | src/core/pg_stream_modular.c:1260-1293 | the state after COMMIT at the body's end LSN |
| PgStream.PgStreamer.IndexListed | src/core/pg_stream_modular.c:996-998 | true exactly when some configured column resolved to the index |
| PgStream.PgStreamer.AppendMember | src/core/pg_stream_modular.c:1001-1002 | a comma goes before every member but the first |
| PgStream.PgStreamer.BuildRow | src/core/pg_stream_modular.c:978-1010 | the row object holds the included columns' members, comma-separated |
| PgStream.PgStreamer.PrimaryKeyMetadata | src/core/pg_stream_modular.c:846-861 | the "primary_key" member lists the configured keys, and is absent when there are none |
| PgStream.PgStreamer.BuildDmlJson | src/core/pg_stream_modular.c:967-1012 | the event JSON of one row event, with type, transaction, schema, table, keys and rows |
| PgStream.PgStreamer.ReadRelid | src/core/pg_stream_modular.c:946 | the relation OID is the first Int32 of the body |
| PgStream.PgStreamer.FindTarget | src/core/pg_stream_modular.c:947-957 | the relation and table configuration a row event is captured for, if any |
| PgStream.PgStreamer.PublishRowEvent | src/core/pg_stream_modular.c:1012-1022 | the event is built, published and counted |
| PgStream.PgStreamer.ParseDml | src/core/pg_stream_modular.c:945-1244 | succeeds exactly on a well-formed row event, then applies its step; changes nothing otherwise |
| PgStream.PgStreamer.ParseMessage | src/core/pg_stream_modular.c:1437-1447 | succeeds exactly on a well-formed pgoutput message, then applies its step; an unknown type changes nothing |
| PgStream.PgStreamer.ReadXLogDataEndLsn | src/core/pg_stream_modular.c:1419-1422 | the end LSN is the second 64-bit field after the 'w' |
| PgStream.PgStreamer.ReadKeepaliveReply | src/core/pg_stream_modular.c:1449-1452 | the reply byte follows the end LSN and the server clock |
| PgStream.PgStreamer.ReplyToKeepalive | src/core/pg_stream_modular.c:1454-1458 | a status update goes out, and a failed one stops the loop |
| PgStream.PgStreamer.HandleXLogData | src/core/pg_stream_modular.c:1418-1447 | the end LSN becomes current, then its message is applied |
| PgStream.PgStreamer.HandleKeepalive | src/core/pg_stream_modular.c:1448-1459 | a status update when the server asks for one |
| PgStream.PgStreamer.HandleCopyData | src/core/pg_stream_modular.c:1416-1462 | the state after one CopyData buffer of the drain loop |
| PgStream.PgStreamer.PeriodicStatus | src/core/pg_stream_modular.c:1465-1470 | the periodic status step: the report, the stop flag and the new time of the last update |
| PgStream.PgStreamer.FinishStreaming | src/core/pg_stream_modular.c:1604-1606 | the current LSN is checkpointed when saving is on |
| KafkaPublisher.Init | src/plugins/kafka_publisher.c:87-131 | init fails exactly when bootstrap_servers is missing; every text fits its buffer |
| KafkaPublisher.InitDefaults | src/plugins/kafka_publisher.c:107-123 | a configuration naming only the brokers gets prefix "cdc.", compression "snappy", batch size 1000 and one shared topic |
| KafkaPublisher.InitKeepsConfigured | src/plugins/kafka_publisher.c:107-119 | a configured prefix and compression that fit their buffers are kept verbatim |
| KafkaPublisher.TopicName | src/plugins/kafka_publisher.c:197-213 | the topic always fits the 256-byte buffer |
| KafkaPublisher.PerTableTopic | src/plugins/kafka_publisher.c:204-207 | per-table topics are prefix, database, '.', table when they fit |
| KafkaPublisher.UnknownParts | src/plugins/kafka_publisher.c:206-207 | a missing database or table name becomes "unknown" |
| KafkaPublisher.SharedTopic | src/plugins/kafka_publisher.c:209-211 | without topic_per_table every event goes to the prefix topic |
| KafkaPublisher.PublishBookkeeping | src/plugins/kafka_publisher.c:216-251 | 0 exactly for a producible event that librdkafka accepts; a rejected call changes nothing, a produce error adds one failure, and publish never counts a message as sent |
| KafkaPublisher.Successes | src/plugins/kafka_publisher.c:258-266 | the successes of a batch number at most its events |
| KafkaPublisher.AllSucceed | src/plugins/kafka_publisher.c:258-266 | every event succeeded exactly when the successes are the whole batch |
| KafkaPublisher.BatchAllOrFail | src/plugins/kafka_publisher.c:254-270 | publish_batch returns 0 exactly when every publish returned 0 |
| KafkaPublisher.BatchCountsFailures | src/plugins/kafka_publisher.c:254-270 | each failed publish of a batch is one more failure, and nothing is counted as sent |
| KafkaPublisher.Delivered | src/plugins/kafka_publisher.c:45-64 | the reports without an error number at most the reports |
| KafkaPublisher.DeliverAllTotals | src/plugins/kafka_publisher.c:45-64 | after a run of delivery reports, sent grew by the good ones, failed by the rest, and bytes by the good ones' lengths |
| KafkaPublisher.HealthBacklog | src/plugins/kafka_publisher.c:316-332 | healthy exactly with a producer and a backlog of at most ten batches; a shorter backlog is never less healthy |
| KafkaPublisher.Publisher.constructor | src/plugins/kafka_publisher.c:95-125 | the calloc'd data: no producer and every counter zero |
| KafkaPublisher.Publisher.Start | src/plugins/kafka_publisher.c:134-194 | 0 exactly when the configuration, both settings and the producer succeed; only rd_kafka_new assigns the producer |
| KafkaPublisher.Publisher.Publish | src/plugins/kafka_publisher.c:216-251 | the return code and counters PublishBookkeeping describes |
| KafkaPublisher.Publisher.PublishBatch | src/plugins/kafka_publisher.c:254-270 | the return code and counters of publishing each event in turn |
| KafkaPublisher.Publisher.OnDelivery | src/plugins/kafka_publisher.c:45-64 | one delivery report counts as sent with its length, or as failed |
| KafkaPublisher.Publisher.Stop | src/plugins/kafka_publisher.c:273-290 | stop always succeeds and leaves no producer |
| KafkaPublisher.Publisher.HealthCheck | src/plugins/kafka_publisher.c:316-332 | the health rule of HealthBacklog |
| UdpPublisher.MaxPacketSize | src/plugins/udp_publisher.c:101-110 | the packet limit is always in (0, 65507] |
| UdpPublisher.Init | src/plugins/udp_publisher.c:70-151 | a configured publisher has a valid port and limit |
| UdpPublisher.InitAccepts | src/plugins/udp_publisher.c:80-134 | init succeeds exactly when host and port are given, the port is in 1..65535 and the socket and the host resolve |
| UdpPublisher.MaxPacketSizeRule | src/plugins/udp_publisher.c:101-110 | a configured limit in range is used; otherwise, and when unset, 65507 |
| UdpPublisher.NewlineSpellings | src/plugins/udp_publisher.c:112-119 | only "no", "false" and "0" turn the newline off: "NO" and "off" keep it, unlike the boolean helper |
| UdpPublisher.PacketShape | src/plugins/udp_publisher.c:182-251 | the datagram is the JSON, followed by one newline when that is on |
| UdpPublisher.OneCountPerEvent | src/plugins/udp_publisher.c:182-251 | with a socket every publish counts one event as sent or failed; only oversized packets count as dropped; only a send adds the bytes sendto reported |
| UdpPublisher.OversizedDropped | src/plugins/udp_publisher.c:182-251 | a packet over the limit is never handed to sendto |
| UdpPublisher.HealthIsSocketState | src/plugins/udp_publisher.c:288-309 | healthy exactly with a socket whose SO_ERROR reads as 0 |
| UdpPublisher.Publisher.constructor | src/plugins/udp_publisher.c:120-143 | the configured data with its socket and zero counters |
| UdpPublisher.Publisher.Start | src/plugins/udp_publisher.c:154-179 | start sends the probe and succeeds whatever the probe's fate |
| UdpPublisher.Publisher.Publish | src/plugins/udp_publisher.c:182-251 | the return code and counters of the publish outcome, and the datagram exactly when sendto is called |
| UdpPublisher.Publisher.HealthCheck | src/plugins/udp_publisher.c:288-309 | the socket-state health rule |
| RedisPublisher.Init | src/plugins/redis_publisher.c:38-82 | every configured text fits its buffer |
| RedisPublisher.InitDefaults | src/plugins/redis_publisher.c:45-72 | an empty configuration: localhost:6379, database 0, no password, pub/sub on "cdc_events" |
| RedisPublisher.StreamModeDefaults | src/plugins/redis_publisher.c:61-67 | with streams on, the default destination is the "cdc:" prefix and no channel |
| RedisPublisher.StartCommandsRule | src/plugins/redis_publisher.c:104-130 | AUTH is sent exactly when there is a password, and first; SELECT exactly for a database other than 0, and last; a default configuration sends nothing after connecting |
| RedisPublisher.StreamKey | src/plugins/redis_publisher.c:146-150 | the stream name always fits the 256-byte buffer |
| RedisPublisher.StreamEntryFields | src/plugins/redis_publisher.c:144-158 | in stream mode an XADD with an automatic id to the table's stream, with the json, db, table and txn fields, empty for a missing one |
| RedisPublisher.PubSubMessage | src/plugins/redis_publisher.c:159-163 | in pub/sub mode a PUBLISH of the json alone on the channel |
| RedisPublisher.OneCountPerCommand | src/plugins/redis_publisher.c:135-186 | a refused call counts nothing; a sent command counts once, as published exactly when the reply is neither NULL nor an error |
| RedisPublisher.Publisher.constructor | src/plugins/redis_publisher.c:42-75 | the configured data, not connected, zero counters |
| RedisPublisher.Publisher.Start | src/plugins/redis_publisher.c:84-133 | 0 exactly when connecting, AUTH and SELECT succeed where needed; connected exactly then; the commands issued stop after a refused AUTH |
| RedisPublisher.Publisher.Publish | src/plugins/redis_publisher.c:135-186 | the return code and counters of OneCountPerCommand, and the command exactly when one is sent |
| RedisPublisher.Publisher.Stop | src/plugins/redis_publisher.c:188-200 | always 0, and no context is left |
| RedisPublisher.Publisher.HealthCheck | src/plugins/redis_publisher.c:215-231 | healthy exactly when connected and PING is answered without an error |
| ZmqPublisher.Init | src/plugins/zmq_publisher.c:37-65 | init fails exactly when the endpoint is missing; the endpoint fits its buffer |
| ZmqPublisher.InitDefaults | src/plugins/zmq_publisher.c:45-59 | an endpoint alone gets a high-water mark of 1000 and no filtering |
| ZmqPublisher.Topic | src/plugins/zmq_publisher.c:118-122 | the topic frame always fits the 256-byte buffer |
| ZmqPublisher.FrameOrder | src/plugins/zmq_publisher.c:109-147 | with filtering the topic goes first and the json follows only once the topic was accepted; without it only the json; a delivered event ends with its json |
| ZmqPublisher.OneCountPerEvent | src/plugins/zmq_publisher.c:109-147 | an unsendable event counts nothing and fails; a sendable one counts once, as sent exactly when every frame went |
| ZmqPublisher.Successes | src/plugins/zmq_publisher.c:150-160 | the successes of a batch number at most its events |
| ZmqPublisher.BatchAllOrFail | src/plugins/zmq_publisher.c:150-160 | publish_batch returns 0 exactly when every publish returned 0 |
| ZmqPublisher.BatchCountsEveryEvent | src/plugins/zmq_publisher.c:150-160 | over a batch of sendable events, sent grows by the successes and failures by the rest |
| ZmqPublisher.Publisher.constructor | src/plugins/zmq_publisher.c:42-62 | the configured data, no socket, zero counters |
| ZmqPublisher.Publisher.Start | src/plugins/zmq_publisher.c:68-106 | 0 exactly when the context, the socket and the bind succeed |
| ZmqPublisher.Publisher.Publish | src/plugins/zmq_publisher.c:109-147 | the return code, frames and counters FrameOrder and OneCountPerEvent describe |
| ZmqPublisher.Publisher.PublishBatch | src/plugins/zmq_publisher.c:150-160 | the return code and counters of publishing each event in turn |
| ZmqPublisher.Publisher.Stop | src/plugins/zmq_publisher.c:163-180 | always 0, and no socket is left |
| ZmqPublisher.Publisher.HealthCheck | src/plugins/zmq_publisher.c:200-204 | healthy exactly when a socket exists |
| SyslogPublisher.FacilityNames | src/plugins/syslog_publisher.c:36-51 | each listed name gives its code; a missing or unlisted name, another case included, gives LOG_LOCAL0; the result is always a listed code |
| SyslogPublisher.PriorityNames | src/plugins/syslog_publisher.c:54-67 | each listed name gives its level; a missing or unlisted name gives LOG_INFO; the result is a syslog level |
| SyslogPublisher.Init | src/plugins/syslog_publisher.c:69-101 | the ident fits its 64-byte buffer |
| SyslogPublisher.InitDefaults | src/plugins/syslog_publisher.c:69-101 | nothing configured: ident "binlog_cdc", LOG_LOCAL0, LOG_INFO, the pid logged, full json |
| SyslogPublisher.OptionsRule | src/plugins/syslog_publisher.c:108-114 | LOG_CONS and LOG_NDELAY are always set, LOG_PID exactly with include_pid, and nothing else |
| SyslogPublisher.FormatCompact | src/plugins/syslog_publisher.c:121-156 | the summary always fits the 512-byte buffer |
| SyslogPublisher.CompactPrefix | src/plugins/syslog_publisher.c:125-147 | a summary of parsed json starts "CDC: ", one of unparseable json "CDC event db=" |
| SyslogPublisher.CompactDefaults | src/plugins/syslog_publisher.c:125-152 | with nothing to go on every field takes its default: UNKNOWN, ?, 0 rows, txn none |
| SyslogPublisher.CompactReportsTypeAndRows | src/plugins/syslog_publisher.c:132-144 | a type string and a rows array are reported as given |
| SyslogPublisher.NonObjectRoot | src/plugins/syslog_publisher.c:132-144 | a root that is not an object has neither member |
| SyslogPublisher.Publisher.constructor | src/plugins/syslog_publisher.c:69-101 | the configured data with no event logged |
| SyslogPublisher.Publisher.Start | src/plugins/syslog_publisher.c:103-118 | start always succeeds and opens the log with the ident, options of OptionsRule and facility |
| SyslogPublisher.Publisher.Publish | src/plugins/syslog_publisher.c:158-185 | a missing event or json fails and logs nothing; otherwise one message at the configured priority, counted |
| SyslogPublisher.Publisher.HealthCheck | src/plugins/syslog_publisher.c:207-210 | always healthy |
| WebhookPublisher.Init | src/plugins/webhook_publisher.c:43-78 | init fails exactly when webhook_url is missing; URL and header fit their buffers |
| WebhookPublisher.InitDefaults | src/plugins/webhook_publisher.c:62-70 | only the URL configured: no auth header, a 10 s timeout and 3 retries |
| WebhookPublisher.AuthHeaderOfToken | src/plugins/webhook_publisher.c:62-66 | a token gives "Authorization: Bearer <token>", cut to the 256-byte buffer, whole when it fits |
| WebhookPublisher.HeadersOfInit | src/plugins/webhook_publisher.c:111-116 | the JSON content type always goes first; an Authorization header follows exactly when a token is configured |
| WebhookPublisher.Schedule | src/plugins/webhook_publisher.c:148-151 | one backoff sleep before each retry |
| WebhookPublisher.ScheduleAt | src/plugins/webhook_publisher.c:150 | the sleep after attempt k is 100000 * 2^k microseconds |
| WebhookPublisher.ScheduleDoubles | src/plugins/webhook_publisher.c:150 | each backoff is twice the one before |
| WebhookPublisher.FirstSuccessIsFirst | src/plugins/webhook_publisher.c:126-152 | the first attempt whose transfer succeeded with a 2xx status, or none exactly when every attempt failed |
| WebhookPublisher.RetryRules | src/plugins/webhook_publisher.c:126-159 | at most retry_count + 1 attempts, stopping at the first success; a delivery's last attempt succeeded and all earlier ones failed; a failure used every attempt |
| WebhookPublisher.NegativeRetriesNeverSend | src/plugins/webhook_publisher.c:126 | a negative retry_count makes no request, and the event fails |
| WebhookPublisher.Publisher.constructor | src/plugins/webhook_publisher.c:43-78 | the configured data with no handle and zero counters |
| WebhookPublisher.Publisher.Start | src/plugins/webhook_publisher.c:80-101 | 0 exactly when curl_easy_init gives a handle |
| WebhookPublisher.Publisher.Publish | src/plugins/webhook_publisher.c:103-160 | no handle, event or json fails without a request; otherwise the attempts of RetryRules, the backoff sleeps between them, and one count as sent or failed |
| WebhookPublisher.Publisher.Stop | src/plugins/webhook_publisher.c:162-176 | always 0, and no handle is left |
| WebhookPublisher.Publisher.HealthCheck | src/plugins/webhook_publisher.c:191-194 | healthy exactly with a handle |
| PythonPublisher.BaseNameRule | src/plugins/python_publisher.c:84-89 | the text after the last '/', the whole path without one |
| PythonPublisher.StripPyRule | src/plugins/python_publisher.c:91-97 | exactly a trailing ".py" is removed |
| PythonPublisher.ModuleNameRule | src/plugins/python_publisher.c:84-97 | the module imported is the base name less a trailing ".py", and holds no '/' |
| PythonPublisher.CallMethod | src/plugins/python_publisher.c:362-378 | a raised exception fails the call; a result is the low 32 bits of a long, -1 beyond a long, and 0 for a non-int |
| PythonPublisher.CallMapping | src/plugins/python_publisher.c:370-374 | small ints pass unchanged, non-ints give 0, 2^32 gives 0 and LONG_MAX + 1 gives -1 |
| PythonPublisher.OptionalMethod | src/plugins/python_publisher.c:380-394 | a hook is the configured name when the module has it callable |
| PythonPublisher.Init | src/plugins/python_publisher.c:42-171 | the configured script and its module name, with a callable event method |
| PythonPublisher.InitRequirements | src/plugins/python_publisher.c:42-171 | init succeeds exactly with python_script, an importable module, a callable event method ("on_event" by default) and an init hook, if any, that returns 0 |
| PythonPublisher.OneCountPerPublish | src/plugins/python_publisher.c:204-245 | every publish counts once, as published exactly when it returns 0; an exception or a 1 fails, a non-int result succeeds |
| PythonPublisher.HealthRc | src/plugins/python_publisher.c:305-327 | 0 without a hook, -1 when it raises, 0 for a non-int |
| PythonPublisher.Publisher.constructor | src/plugins/python_publisher.c:42-171 | the configured data with zero counters |
| PythonPublisher.Publisher.Start | src/plugins/python_publisher.c:173-202 | the on_start hook's code: 0 without a hook |
| PythonPublisher.Publisher.Publish | src/plugins/python_publisher.c:204-245 | the return code and counters of OneCountPerPublish, and the event dict when one was built |
| PythonPublisher.Publisher.Stop | src/plugins/python_publisher.c:247-276 | the on_stop hook's code: 0 without a hook |
| PythonPublisher.Publisher.HealthCheck | src/plugins/python_publisher.c:305-327 | the health rule of HealthRc |
| JavaPublisher.TokenLength | src/plugins/java_publisher.c:111 | a token ends at the first ' ' or the text's end |
| JavaPublisher.SkipDelims | src/plugins/java_publisher.c:111 | strtok skips leading delimiters to a suffix that starts with a non-' ' |
| JavaPublisher.Strtok | src/plugins/java_publisher.c:111-114 | a token is never empty and the rest is shorter than the text |
| JavaPublisher.TokensStep | src/plugins/java_publisher.c:111-114 | one strtok call peels the first token off the list |
| JavaPublisher.TokensAreWords | src/plugins/java_publisher.c:111-114 | every token is non-empty and holds no ' ' |
| JavaPublisher.TokensSpellArgs | src/plugins/java_publisher.c:111-114 | together the tokens spell the argument text without its spaces |
| JavaPublisher.CustomArgs | src/plugins/java_publisher.c:107-116 | at most 32 custom options |
| JavaPublisher.SplitDone | src/plugins/java_publisher.c:112-115 | when strtok runs dry or the slots are full, the slots hold the first 32 tokens |
| JavaPublisher.StoreToken | src/plugins/java_publisher.c:113 | the filled prefix of custom_args grows by the token |
| JavaPublisher.SplitJvmArgs | src/plugins/java_publisher.c:107-116 | custom_args holds the first 32 tokens of jvm_args, in order |
| JavaPublisher.ClasspathOption | src/plugins/java_publisher.c:140-146 | the classpath option fits its 512-byte buffer |
| JavaPublisher.OptionsLayout | src/plugins/java_publisher.c:138-158 | the classpath option ("." by default), -Xrs, headless, then the custom options in order |
| JavaPublisher.BuildOptions | src/plugins/java_publisher.c:138-158 | the options array is the JVM option list |
| JavaPublisher.DotsToSlashes | src/plugins/java_publisher.c:185-188 | the JNI class name is as long as the Java one |
| JavaPublisher.SlashedName | src/plugins/java_publisher.c:185-188 | no '.' is left, every other character stays, a second pass changes nothing |
| JavaPublisher.ConvertClassName | src/plugins/java_publisher.c:185-188 | the array in place becomes the slashed name |
| JavaPublisher.ConfigMapContents | src/plugins/java_publisher.c:557-598 | the config map holds exactly the listed keys that are configured, with their values |
| JavaPublisher.Init | src/plugins/java_publisher.c:69-309 | the configured class, with an event method of signature (Map)int |
| JavaPublisher.InitRequirements | src/plugins/java_publisher.c:69-309 | init succeeds exactly with java_class, a JVM, the class, an instance and the event method ("onEvent" by default), and an init hook that returns 0; at most 35 JVM options |
| JavaPublisher.OneCountPerPublish | src/plugins/java_publisher.c:346-396 | every publish counts once, as published exactly when it returns 0; an exception or a 1 fails |
| JavaPublisher.HealthRc | src/plugins/java_publisher.c:469-494 | -1 without a JVM, 0 without a hook, else the hook's value, -1 when it throws |
| JavaPublisher.Publisher.constructor | src/plugins/java_publisher.c:69-309 | the configured data with a JVM and zero counters |
| JavaPublisher.Publisher.Start | src/plugins/java_publisher.c:311-344 | the onStart hook's code |
| JavaPublisher.Publisher.Publish | src/plugins/java_publisher.c:346-396 | the return code and counters of OneCountPerPublish, and the event map when one was made |
| JavaPublisher.Publisher.Stop | src/plugins/java_publisher.c:398-431 | the onStop hook's code |
| JavaPublisher.Publisher.HealthCheck | src/plugins/java_publisher.c:469-494 | the health rule of HealthRc |
| KafkaMonitor.Topics | scripts/monitors/kafka_monitor.py:47 | the filtered topic list is never longer than the full one |
| KafkaMonitor.TopicsKept | scripts/monitors/kafka_monitor.py:47 | a topic is monitored exactly when the broker lists it and it is not excluded |
| KafkaMonitor.PartitionsOfTopics | scripts/monitors/kafka_monitor.py:54-60 | a partition is listed exactly when its topic is monitored and the broker reports it for that topic |
| KafkaMonitor.CollectPartitions | scripts/monitors/kafka_monitor.py:54-60 | the loop builds the partition list topic by topic, partition by partition |
| KafkaMonitor.EndOffsets | scripts/monitors/kafka_monitor.py:67 | one end offset per partition, the broker's |
| KafkaMonitor.KeyOrder | scripts/monitors/kafka_monitor.py:89-90 | the (topic, partition) sort key is a strict total order |
| KafkaMonitor.InsertSorted | scripts/monitors/kafka_monitor.py:89-90 | insertion adds the one item and keeps every other |
| KafkaMonitor.InsertSortedSorted | scripts/monitors/kafka_monitor.py:89-90 | insertion into a sorted list keeps it sorted |
| KafkaMonitor.SortItems | scripts/monitors/kafka_monitor.py:89-90 | sorting keeps exactly the items |
| KafkaMonitor.SortItemsSorted | scripts/monitors/kafka_monitor.py:89-90 | the rows come out in (topic, partition) order and hold exactly the items |
| KafkaMonitor.Lag | scripts/monitors/kafka_monitor.py:94-95 | a lag exactly when a committed offset is known, never negative and never below end minus committed |
| KafkaMonitor.RateSign | scripts/monitors/kafka_monitor.py:99-104 | the rate is 0 without a previous sample or without elapsed time, and negative only when the end offset went backwards |
| KafkaMonitor.TotalRateNonNegative | scripts/monitors/kafka_monitor.py:86-107 | the total rate is never negative and never below any positive rate |
| KafkaMonitor.TotalsSnoc | scripts/monitors/kafka_monitor.py:96-107 | each row adds its known lag and its positive rate to the totals |
| KafkaMonitor.NoGroupNoLag | scripts/monitors/kafka_monitor.py:69-97 | without a consumer group no lag is known and the total lag stays 0 |
| KafkaMonitor.BaselineKept | scripts/monitors/kafka_monitor.py:100-106 | a partition not in the sample keeps its baseline |
| KafkaMonitor.BaselineOverwritten | scripts/monitors/kafka_monitor.py:106 | a sampled partition's baseline becomes its end offset and this tick's time |
| KafkaMonitor.RowsFollowItems | scripts/monitors/kafka_monitor.py:89-117 | one row per item, in the items' order, with its partition and end offset |
| KafkaMonitor.Monitor.constructor | scripts/monitors/kafka_monitor.py:40 | the baselines start empty |
| KafkaMonitor.Monitor.RateSince | scripts/monitors/kafka_monitor.py:99-104 | the rate against the partition's previous sample |
| KafkaMonitor.Monitor.Sample | scripts/monitors/kafka_monitor.py:86-107 | the rows, baselines and totals of one tick |
| KafkaMonitor.Monitor.Tick | scripts/monitors/kafka_monitor.py:43-123 | no report, and the baselines untouched, exactly when there are no topics or no partitions; otherwise the sorted rows and their totals |
| RedisStreamMonitor.TypeKindIgnoresCase | scripts/monitors/redis_stream_monitor.py:92-107 | after upper() a type matches INSERT, UPDATE, DELETE or COMMIT exactly when it equals that name ignoring ASCII case |
| RedisStreamMonitor.TimestampOfId | scripts/monitors/redis_stream_monitor.py:63-67 | a stream id "<ms>-<seq>" is shown at its millisecond time |
| RedisStreamMonitor.TimestampOfGarbage | scripts/monitors/redis_stream_monitor.py:65-69 | an id whose first field holds a character other than an ASCII digit, '_', '+' or ASCII white space is shown as "??:??:??" |
| RedisStreamMonitor.DisplayShows | scripts/monitors/redis_stream_monitor.py:71-126 | a message with a table field whose payload decodes to an object, or does not decode, is shown and counted under its type |
| RedisStreamMonitor.UndecodableIsUnknown | scripts/monitors/redis_stream_monitor.py:84-119 | a payload that does not decode is shown as an empty object of unknown type with 0 rows, counted only in the total |
| RedisStreamMonitor.NonObjectCrashes | scripts/monitors/redis_stream_monitor.py:85-89 | a payload that decodes to something other than an object raises before anything is counted |
| RedisStreamMonitor.Tagged | scripts/monitors/redis_stream_monitor.py:206-207 | one stream's messages, in order, tagged with its name |
| RedisStreamMonitor.Displayer | scripts/monitors/redis_stream_monitor.py:71-126 | display_event with the script's decoder and clock |
| RedisStreamMonitor.StepIs | scripts/monitors/redis_stream_monitor.py:208-211 | a message moves its stream's cursor to its id, then is displayed |
| RedisStreamMonitor.ProcessConcat | scripts/monitors/redis_stream_monitor.py:205-211 | two runs of messages are processed one after the other; once a display raised, later messages are never reached |
| RedisStreamMonitor.StreamStopped | scripts/monitors/redis_stream_monitor.py:207-211 | a stream's later messages are not reached after a display raised |
| RedisStreamMonitor.ProcessCounted | scripts/monitors/redis_stream_monitor.py:95-107 | the statistics never count an event under two kinds, and the kinds never exceed the total |
| RedisStreamMonitor.ProcessTotal | scripts/monitors/redis_stream_monitor.py:95 | when every message was shown, each was counted once in the total |
| RedisStreamMonitor.StepStreams | scripts/monitors/redis_stream_monitor.py:209 | a step moves its stream's cursor and no other |
| RedisStreamMonitor.CursorAdvanced | scripts/monitors/redis_stream_monitor.py:205-211 | a stream ends at the id of its last message processed |
| RedisStreamMonitor.CursorKept | scripts/monitors/redis_stream_monitor.py:205-211 | a stream without messages in the reply keeps its cursor |
| RedisStreamMonitor.PatternNamesAreStreams | scripts/monitors/redis_stream_monitor.py:47-50 | only keys whose type is "stream" are taken |
| RedisStreamMonitor.PatternNamesComplete | scripts/monitors/redis_stream_monitor.py:46-52 | every stream key listed before the first failing call is taken |
| RedisStreamMonitor.DiscoveredEither | scripts/monitors/redis_stream_monitor.py:42-52 | a name is discovered exactly when one of the two patterns contributes it |
| RedisStreamMonitor.RegisteredTwice | scripts/monitors/redis_stream_monitor.py:54-59 | two discoveries register the union; a later discovery never moves a cursor |
| RedisStreamMonitor.AwaitStep | scripts/monitors/redis_stream_monitor.py:152-154 | a discovery made while nothing was registered had nothing known and nothing found before it |
| RedisStreamMonitor.CollectNames | scripts/monitors/redis_stream_monitor.py:46-52 | one pattern's keys of type stream, in order, until a call raises |
| RedisStreamMonitor.CollectAll | scripts/monitors/redis_stream_monitor.py:42-52 | the names found under both patterns |
| RedisStreamMonitor.RegisterAll | scripts/monitors/redis_stream_monitor.py:54-59 | each new name starts at start_from, known ones keep their cursor, and the new ones are counted |
| RedisStreamMonitor.RegisteredKnown | scripts/monitors/redis_stream_monitor.py:56 | a name already registered is a known stream and keeps its cursor |
| RedisStreamMonitor.RegisteredNew | scripts/monitors/redis_stream_monitor.py:56-59 | a name not yet registered is new and starts at start_from |
| RedisStreamMonitor.StreamMonitor.constructor | scripts/monitors/redis_stream_monitor.py:22-37 | no stream registered and every counter 0 |
| RedisStreamMonitor.StreamMonitor.DiscoverStreams | scripts/monitors/redis_stream_monitor.py:39-61 | registers the discovered streams and returns how many were found and how many are new |
| RedisStreamMonitor.StreamMonitor.Start | scripts/monitors/redis_stream_monitor.py:144-163 | the first discovery, then one per wait while nothing is registered; a second discovery happens only when the first found nothing |
| RedisStreamMonitor.StreamMonitor.AwaitStreams | scripts/monitors/redis_stream_monitor.py:152-154 | discoveries go on exactly while no stream is registered |
| RedisStreamMonitor.StreamMonitor.Poll | scripts/monitors/redis_stream_monitor.py:166-211 | rediscovery exactly when five seconds passed; then the XREAD reply's messages, when streams are registered and XREAD answered |
| RedisStreamMonitor.StreamMonitor.DisplayEvent | scripts/monitors/redis_stream_monitor.py:71-126 | the statistics change as the display says; the cursors do not |
| RedisStreamMonitor.StreamMonitor.ProcessStream | scripts/monitors/redis_stream_monitor.py:207-211 | one stream's messages, in order, until a display raises |
| RedisStreamMonitor.StreamMonitor.ProcessReply | scripts/monitors/redis_stream_monitor.py:205-211 | every stream of the reply, in order, until a display raises |
| RedisStreamMonitor.ReplyStep | scripts/monitors/redis_stream_monitor.py:206 | stream i continues from where the streams before it left off |
| RedisStreamMonitor.ReplyStopped | scripts/monitors/redis_stream_monitor.py:206-211 | after a display raised in stream i, the later streams are not reached |
| RedisPubSubMonitor.TxnPrefix | scripts/monitors/redis_pubsub_monitor.py:64 | `txn[:32]` slices a string or a list to at most 32 items and raises on anything else |
| RedisPubSubMonitor.StatsChangeOnObjects | scripts/monitors/redis_pubsub_monitor.py:36-56 | the statistics change exactly when the message decodes to an object, by one event of its type |
| RedisPubSubMonitor.NonJsonUnchanged | scripts/monitors/redis_pubsub_monitor.py:66-67 | a message that is not JSON leaves every counter and shows its first 50 characters |
| RedisPubSubMonitor.TypeIsCaseSensitive | scripts/monitors/redis_pubsub_monitor.py:42-55 | the type comparison is case-sensitive: "insert" counts only in the total |
| RedisPubSubMonitor.DisplayDefaults | scripts/monitors/redis_pubsub_monitor.py:58-61 | an object with only a string type shows db '?', table '?', txn 'none' and 0 rows |
| RedisPubSubMonitor.OnlyDataMessagesCount | scripts/monitors/redis_pubsub_monitor.py:133-144 | only 'message' and 'pmessage' reach display_event; nothing else touches the statistics |
| RedisPubSubMonitor.Listened | scripts/monitors/redis_pubsub_monitor.py:133-144 | one reaction per message |
| RedisPubSubMonitor.ListenedSnoc | scripts/monitors/redis_pubsub_monitor.py:133 | each message reacts on the statistics the earlier ones left |
| RedisPubSubMonitor.RunTotal | scripts/monitors/redis_pubsub_monitor.py:133-144 | the total grows by the data messages whose payload decoded to an object |
| RedisPubSubMonitor.RunCounted | scripts/monitors/redis_pubsub_monitor.py:41-53 | no event is ever counted under two types |
| RedisPubSubMonitor.PubSubMonitor.constructor | scripts/monitors/redis_pubsub_monitor.py:22-32 | every counter 0 and the start time now |
| RedisPubSubMonitor.PubSubMonitor.Receive | scripts/monitors/redis_pubsub_monitor.py:134-144 | the reaction to one delivered message |
| RedisPubSubMonitor.PubSubMonitor.DisplayEvent | scripts/monitors/redis_pubsub_monitor.py:34-69 | the statistics and outcome of display_event |
| RedisPubSubMonitor.PubSubMonitor.Listen | scripts/monitors/redis_pubsub_monitor.py:132-145 | the statistics and reactions after the delivered messages, in order |
| RedisPubSubMonitor.PubSubMonitor.ShownRate | scripts/monitors/redis_pubsub_monitor.py:73-82 | the rate line for the events so far and the time since the start |
| RedisPubSubMonitor.Rate | scripts/monitors/redis_pubsub_monitor.py:80-82 | a rate is shown exactly when events arrived; it is events per second, or 0 when no time passed |
| RedisPubSubMonitor.SubscriptionRule | scripts/monitors/redis_pubsub_monitor.py:153-160 | an argument is subscribed to as a pattern exactly when it holds '*' or '?', under its own text |
| RedisPubSubMonitor.DefaultSubscription | scripts/monitors/redis_pubsub_monitor.py:151-166 | with no argument the monitor subscribes to the channel 'cdc_events' |
| WebhookTest.Names | scripts/monitors/webhook_test.py:134 | iterating over a dict yields its keys, in order, as strings |
| WebhookTest.Chars | scripts/monitors/webhook_test.py:134 | iterating over a string yields its one-character strings |
| WebhookTest.Iteration | scripts/monitors/webhook_test.py:134 | `for key in after` works exactly on a dict, a list or a string |
| WebhookTest.Position | scripts/monitors/webhook_test.py:135-136 | an index that does not raise lies within the list or string |
| WebhookTest.Prepend | scripts/monitors/webhook_test.py:133-136 | the earlier entries go in front when the rest did not raise |
| WebhookTest.ChangedKeys | scripts/monitors/webhook_test.py:133-136 | the `changed` list of one row, or a raise |
| WebhookTest.HandleUpdate | scripts/monitors/webhook_test.py:125-139 | each row's `changed` list, in order, or a raise |
| WebhookTest.UpdateChangesSnoc | scripts/monitors/webhook_test.py:128 | a row at the end adds its list at the end |
| WebhookTest.UpdateRaisesIff | scripts/monitors/webhook_test.py:125-139 | handle_update raises exactly when one of its rows does; otherwise one list per row |
| WebhookTest.ChangesInOrder | scripts/monitors/webhook_test.py:134-136 | the list keeps the iteration order of `after` |
| WebhookTest.DictChanges | scripts/monitors/webhook_test.py:129-136 | for two dicts nothing raises, and `changed` holds exactly the keys of `after` present in `before` with a different value |
| WebhookTest.DictKeyChanges | scripts/monitors/webhook_test.py:134-136 | over keys of `after`, an entry exactly for each key `before` holds with a different value |
| WebhookTest.Received | scripts/monitors/webhook_test.py:42-109 | every request counts in the total, and as an error exactly when it is not processed |
| WebhookTest.EmptyPayloadRejected | scripts/monitors/webhook_test.py:52-55 | a falsy payload gets 400 'Empty payload' and counts as an error; nothing else changes |
| WebhookTest.SuccessIff | scripts/monitors/webhook_test.py:58-109 | 200 with the type and txn exactly when the payload is accepted, its rows have a length and its handler does not raise; otherwise an error status |
| WebhookTest.TypeCounters | scripts/monitors/webhook_test.py:67-72 | the per-type counter grows by one for an accepted payload whose type is exactly its name |
| WebhookTest.OtherTypesNotCounted | scripts/monitors/webhook_test.py:67-72 | a COMMIT, a lower-case name or a non-string type leaves the per-type counters alone |
| WebhookTest.LastEventRule | scripts/monitors/webhook_test.py:74-79 | last_event records the latest accepted payload's type, db and table, even when handling it fails |
| WebhookTest.DefaultFields | scripts/monitors/webhook_test.py:58-62 | defaults: type 'UNKNOWN', db and table 'unknown', txn 'none', no rows |
| WebhookTest.NonObjectRowFails | scripts/monitors/webhook_test.py:128-130 | an UPDATE with a row that is not a dict fails with 500 |
| WebhookTest.WebhookReceiver.constructor | scripts/monitors/webhook_test.py:32-39 | every counter 0 and no last event |
| WebhookTest.WebhookReceiver.ReceiveCdcEvent | scripts/monitors/webhook_test.py:42-109 | the statistics and reply of one request, and the invariant kept |
| PublishExample.EventLookups | src/plugins/python_publisher.c:329-360 | the dict the bridge builds answers `get` for db and table with the event's own fields |
| PublishExample.TableKeyOfEvent | scripts/plugin-examples/publish.py:14 | the table key is the publishers' "db.table" name, "unknown" for a missing part |
| PublishExample.SumInsert | scripts/plugin-examples/publish.py:15 | storing a count under a key replaces that key's share of the sum |
| PublishExample.TallyCounts | scripts/plugin-examples/publish.py:14-15 | after a run of events each key holds the number of events from that table |
| PublishExample.TallySum | scripts/plugin-examples/publish.py:11-15 | the per-table counts add up to the number of events |
| PublishExample.TallyUnique | scripts/plugin-examples/publish.py:15 | no table key is listed twice |
| PublishExample.Plugin.constructor | scripts/plugin-examples/publish.py:4-7 | total 0 and no table counted |
| PublishExample.Plugin.OnEvent | scripts/plugin-examples/publish.py:9-25 | returns 0; the total grows by one and the event's table count by one; the invariant is kept |
| PublishExample.Plugin.OnInit | scripts/plugin-examples/publish.py:27-33 | returns 0 |
| PublishExample.Plugin.OnStart | scripts/plugin-examples/publish.py:35-40 | returns 0 and resets the statistics |
| PublishExample.Plugin.OnStop | scripts/plugin-examples/publish.py:42-49 | returns 0 and shows the total and the table counts, which add up to it |
| PublishExample.Plugin.OnHealth | scripts/plugin-examples/publish.py:55-58 | returns 0 |
| JavaExample.TableKeyNotTotal | scripts/plugin-examples/JavaPublisher.java:19-21 | a table key holds a '.' and so never overwrites the "total" entry |
| JavaExample.Plugin.constructor | scripts/plugin-examples/JavaPublisher.java:8-11 | the map holds only total = 0 |
| JavaExample.Plugin.OnEvent | scripts/plugin-examples/JavaPublisher.java:14-32 | returns 0; total and the event's table entry each grow by one, nothing else changes |
| JavaExample.Plugin.OnInit | scripts/plugin-examples/JavaPublisher.java:35-42 | returns 0 |
| JavaExample.Plugin.OnStart | scripts/plugin-examples/JavaPublisher.java:45-50 | returns 0 and leaves only total = 0 |
| JavaExample.Plugin.OnStop | scripts/plugin-examples/JavaPublisher.java:53-63 | returns 0 and lists the total and every other entry exactly once, with its value |
| JavaExample.Plugin.OnHealth | scripts/plugin-examples/JavaPublisher.java:71-74 | returns 0 |
| PyDict.KeysOf | scripts/plugin-examples/publish.py:47 | the keys in insertion order |
| PyDict.Insert | scripts/plugin-examples/publish.py:15 | `d[key] = value` grows the dict exactly for a new key |
| PyDict.InsertLookup | scripts/plugin-examples/publish.py:15 | after `d[key] = value`, key reads back as value and every other key as before |
| PyDict.InsertKeys | scripts/plugin-examples/publish.py:15 | an existing key keeps its place; a new key goes last |
| PyDict.InsertUnique | scripts/plugin-examples/publish.py:15 | keys stay unique |
| PyText.FirstField | scripts/monitors/redis_stream_monitor.py:66 | `split(sep)[0]`: the prefix before the first separator, or the whole string |
| PyText.FirstFieldOf | scripts/monitors/redis_stream_monitor.py:66 | a field without the separator is returned whole whatever follows |
| PyText.DecimalGrouped | scripts/monitors/redis_stream_monitor.py:66 | str() of a natural number is a digit string whose value is that number |
| PyText.PyIntOfDecimal | scripts/monitors/redis_stream_monitor.py:66 | int() reads back exactly what str() of an integer prints |
| PyText.PyIntRejects | scripts/monitors/redis_stream_monitor.py:66-69 | a character that is not an ASCII digit, '_', a sign or ASCII white space makes int() raise |
| PyText.Prefix | scripts/monitors/redis_pubsub_monitor.py:67 | `s[:n]`: the first n characters, or the whole string when shorter |

## Left out

- Network and database I/O (the binlog fetch, the `select`/`PQconsumeInput` loops, the Kafka, Redis, curl, ZeroMQ, syslog and MySQL client calls, the Flask routes, the redis-py and kafka-python consumers): these are oracle inputs, either parameters or function values the caller supplies.
- Threads, mutexes and condition variables (the publisher worker, the logger's lock): the queue is modelled as a sequence of enqueue and dequeue steps, because concurrency is outside what the model states.
- Plugin loading: `dlopen`/`dlsym`, JNI and the CPython API are left out. Their outcomes are oracle inputs: whether a symbol was found, a class or module loaded, a call returned.
- zlib `uncompress` of MariaDB compressed rows events: only the header the rows decoder reads before inflating is modelled. The inflated length, or the failure of `uncompress`, is an oracle input.
- Row-event column values: the binlog streamer publishes one event per rows event exactly when the source does, and that event's JSON starts with the type, txn, db and table members. The rest of it is an oracle input: the primary-key metadata and the "rows" array built from the column values. The rows-event header, the bitmaps, the null-bitmap check and the value widths are modelled.
- Floating point: MT_FLOAT and MT_DOUBLE formatting is left out. Monitor rates are Dafny `real`, with no rounding.
- Clocks, `localtime`, `time()` and `sleep`: TIMESTAMP2 local-time formatting is left out. The clock values the code reads are parameters.
- UUID generation: transaction ids are fresh opaque strings supplied by the caller.
- `snprintf` truncation of the 32 KB JSON buffers and the buffer-limit guards in the row loops: the JSON is an unbounded string.
- Printing, logging output and console presentation: what the monitors print.
  - `show_stats` is left out.
  - The printed lines are modelled as returned values.
- Python set and dict iteration order where the order is unspecified: the model uses the insertion order of a sequence of pairs, and proofs over sets hold for any visiting order.
- The Redis `KEYS` glob: the model receives the key list the server returns and applies the `cdc:`/`cdc.` prefix test.
- NaN and `str()` of non-string JSON values in the monitors: display fields that are not strings are shown through a caller-supplied rendering.
- The `get_stats`, `health_check` and `index` routes of the test webhook receiver: these are read-only views of the statistics.
- `check_channels` of the Pub/Sub monitor and the ping and unsubscribe calls around `monitor`: these are client calls with no effect on the statistics.
- The plugins' `cleanup` functions: they only free memory.
- File renaming in `rotate_files`: the rename sequence is not modelled. Only the byte accounting that triggers rotation is.
- `atoi` overflow in the configuration readers (`plugin_get_config_int`, the loader's numeric settings): `CText.Atoi` returns the unbounded value of the digits. The C behaviour on overflow is undefined.
- Unsigned 64-bit counter wrap-around: the events-published, error and byte counters are `nat`, because at one event per nanosecond they would need centuries to wrap.
- WebhookPublisher.Schedule: the backoff `100000 * (1 << attempt)` (src/plugins/webhook_publisher.c:150) is unbounded in the model. In C it overflows a signed int once `retry_count` reaches 15, and the shift is undefined from 31.
- KafkaPublisher.HealthRc: `batch_size * 10` (src/plugins/kafka_publisher.c:326) is unbounded in the model, where the C int product overflows for a batch size above 214748364.
- JavaExample.Plugin.OnEvent: the int `total` (scripts/plugin-examples/JavaPublisher.java:15) is unbounded in the model, where Java wraps it at 2^31.
- Reads past the end of a buffer: where the C decoders read past the bytes received (a table map that ends before its names, column types or metadata length prefix, a pgoutput message shorter than its counts claim), the model returns None and leaves the state unchanged. A metadata block cut short by the end of the payload is read only as far as it goes, where the C reads a two-byte entry past the last byte. The bytes C would read there are not determined.
- BinlogEvents.TableMapFields: the source's guard (src/core/binlog_stream_modular.c:982) admits an 8-byte payload and then reads the database-name length one byte past it. The model rejects that payload.
- PgLsn.ScanHex: `sscanf("%lx")` (src/core/pg_stream_modular.c:221) also accepts a `0x` prefix and a sign, so "0x1/0x2" and "-1/0" parse in C. The model skips leading white space and then reads hex digits only, so it rejects both.
- CText.UpperString: the case folding is ASCII only. `RedisStreamMonitor.TypeKind` uses it where Python's `str(event_type).upper()` (scripts/monitors/redis_stream_monitor.py:92) is Unicode, so "ınsert" (dotless i) counts as INSERT in Python and as another type in the model.
- PyText.PyInt: accepts ASCII digits and ASCII white space only. Python's `int()` also accepts every Unicode decimal digit and Unicode white space, so `int("٣")` is 3 and an id "٣-0" is formatted as a time at scripts/monitors/redis_stream_monitor.py:66-67, where `RedisStreamMonitor.FormatTimestamp` gives "??:??:??".
- PyText.PyIntRejects: proved for the ASCII model of `int()` above; a non-ASCII decimal digit such as "٣" or a space such as U+00A0, which Python accepts, is among the characters it rejects.
- RedisStreamMonitor.TimestampOfGarbage: rests on the same ASCII model, so an id such as "٣-0" is shown as "??:??:??" where Python formats it as a time.
- SyslogPublisher.CompactRows: gives 0 rows for a "rows" member that is not an array. At src/plugins/syslog_publisher.c:143 `json_object_array_length` is called on it regardless, which fails json-c's type assertion.
- WebhookTest.Position: a JSON number with an integral value, such as 1.0, indexes a list in the model. Python raises TypeError for a float index, because `json.loads` yields a float there.
- PyDict.Lookup: takes the first of duplicate keys, where a dict built by `json.loads` keeps the last. Decoded objects in the model hold each key once.
- src/core/banner.c, src/plugins/example_publisher.c, src/plugins/file_publisher.c, src/plugins/lua_publisher.c, src/plugins/mysql_publisher.c and scripts/monitors/zmq_subscriber.py are not part of this model: they are a console banner, thin wrappers and a console printer.
- The headers under src/include are declarations only. Their field layouts appear in the datatypes and classes.

## Findings

| source | as written | input that shows it | evidently intended | confidence | as-written member | corrected member |
|---|---|---|---|---|---|---|
| src/core/binlog_stream_modular.c:1004-1051 | `parse_table_map` copies the new database and table names into `g_map` before computing `table_changed` from them, so a change of table with the same column count keeps the previous table's ENUM string cache | a cache for `a.t` with 3 columns, then a captured table map for `a.u` with 3 columns: the cache of `a.t` is kept | reset the cache whenever the table, its database or its column count changes | not executed | BinlogStream.TableChangeIgnoredAsWritten | BinlogStream.CapturedMapOwnsCache |
| src/core/binlog_stream_modular.c:2083-2095 | `parse_event` computes the payload length as `event_len - 19` in 32-bit unsigned arithmetic with no check that `event_len >= 19`, so a header whose length field is below 19 wraps to about 4 GB of payload and is still dispatched | the 20-byte packet 0, then a 19-byte header of zeros with type byte 2 and event length 0: the payload length is 2^32 - 19 | reject an event whose length field is below the header length, like a short packet | not executed | BinlogEvents.HeaderOnlyEventWraps | BinlogEvents.IntendedEventFrameOf |
| src/core/pg_stream_modular.c:1313 | the status update's clock is `now * 1000000 + 946684800000000`, adding the 2000-01-01 epoch offset where it must be subtracted | now = 946684800 (2000-01-01 00:00:00 UTC): the field is 1893369600000000, which is 2060-01-01, where it should be 0 | `(now - 946684800) * 1000000`, microseconds since 2000-01-01 | not executed | PgFeedback.StatusTimestampAtPgEpoch | PgFeedback.StatusTimestampMeansNow |
| src/core/pg_stream_modular.c:1036-1066 | `parse_update_message` takes an 'N' read where the optional old-tuple marker belongs as the old-tuple type, then reads the following byte as the new-tuple type and the next two as the new column count | the UPDATE body N, 0, 2, 'n', 'n' (a new row of two NULLs): the count read is 0x026E = 622 and decoding runs past the message | an 'N' in that position starts the new tuple, so the old row is absent and the new row is read | not executed | PgDecode.UpdateAsWrittenMisreadsNewRow | PgDecode.UpdateReadsNewRow |
