// The MySQL binlog streamer's state machine: the globals that parse_event
// and its per-type parsers update (the binlog file and position, the
// transaction flag and id, the last table map and its ENUM string cache,
// the checkpoint counter), the content of the checkpoint file and the
// events handed to publish_event. Each parser is a method of Streamer whose
// effect is stated by a step function on StreamState; what the streamer
// promises is proved about the step functions.
module BinlogStream {
  import opened Wrappers
  import opened CText
  import opened CdcTypes
  import opened BinlogBytes
  import opened BinlogText
  import opened BinlogEvents
  import opened BinlogConfig

  /** generate_txn_id: uuid_unparse_lower writes 36 characters. */
  predicate IsTxnId(s: string)
  {
    |s| == 36
  }

  /** The settings of config_t that the event parsers consult. */
  datatype StreamConfig = StreamConfig(
    databases: seq<DatabaseConfig>,
    saveLastPosition: bool,
    saveEventCount: nat,
    hasChecksum: bool,
    /** g_config.publisher_manager != NULL */
    hasPublishers: bool)

  /** g_map: the last table map and, for a captured table, its column metadata. */
  datatype TableMap = TableMap(tableId: nat, db: string, tbl: string, ncols: nat, columns: seq<ColumnMeta>)

  /** The table and column count the ENUM string cache was allocated for. */
  datatype CacheOwner = CacheOwner(db: string, tbl: string, ncols: nat)

  /** What save_position writes to the checkpoint file. */
  datatype Checkpoint = Checkpoint(file: string, position: nat)

  datatype StreamState = StreamState(
    binlog: string,
    position: nat,
    eventsSinceSave: nat,
    txnId: string,
    inTransaction: bool,
    tableMap: TableMap,
    /** None while g_enum_cache is NULL. */
    cache: Option<CacheOwner>,
    checkpoint: Option<Checkpoint>,
    published: seq<CdcEvent>)

  // ---------------------------------------------------------------------
  // Step functions
  // ---------------------------------------------------------------------

  /**
   * publish_event: the event carries the current txn id, position and
   * binlog file; without a publisher manager nothing is handed on.
   */
  function Emit(s: StreamState, cfg: StreamConfig, db: string, table: string, json: string): StreamState
  {
    if !cfg.hasPublishers then s
    else s.(published := s.published + [CdcEvent(Some(db), Some(table), Some(json), Some(s.txnId), s.position, Some(s.binlog))])
  }

  /** The DDL event parse_query formats. */
  function DdlJson(kind: string, txn: string, db: string, escapedQuery: string): string
  {
    "{\"type\":\"" + kind + "\",\"txn\":\"" + txn + "\",\"db\":\"" + db + "\",\"query\":\"" + escapedQuery + "\"}"
  }

  /** The COMMIT event parse_event formats for an XID_EVENT. */
  function CommitJson(txn: string, db: string, xid: nat): string
  {
    "{\"type\":\"COMMIT\",\"txn\":\"" + txn + "\",\"db\":\"" + db + "\",\"xid\":" + NatToDecimal(xid) + "}"
  }

  /** The statement part of parse_query, once the payload has been decoded. */
  function StatementStep(s: StreamState, cfg: StreamConfig, qe: QueryEvent, freshId: string): StreamState
  {
    var q := Chars(qe.query);
    var k := ClassifyQuery(q);
    var db := Chars(qe.db);
    var s1 := if k == Begin then s.(inTransaction := true, txnId := freshId)
              else if !s.inTransaction then s.(txnId := freshId)
              else s;
    if IsDdl(k) && qe.dbLen > 0 then
      if ShouldCaptureDdl(cfg.databases, db) then
        Emit(s1, cfg, db, KindName(k), DdlJson(KindName(k), s1.txnId, db, EscapeDdl(q[..Min(|q|, 1023)])))
      else s1
    else if k == Commit || k == Rollback then s1.(inTransaction := false, txnId := [])
    else s1
  }

  /** parse_query: nothing changes for a payload it returns early on. */
  function QueryStep(s: StreamState, cfg: StreamConfig, p: seq<Byte>, freshId: string): StreamState
  {
    match QueryEventFields(p)
    case None => s
    case Some(qe) => StatementStep(s, cfg, qe, freshId)
  }

  /**
   * The XID_EVENT case of parse_event: a COMMIT event routed by the last
   * table map's database when a transaction with an id is open and that
   * database captures DDL; the transaction is closed in every case.
   */
  function XidStep(s: StreamState, cfg: StreamConfig, p: seq<Byte>): StreamState
  {
    var xid := if |p| >= 8 then LeValue(p[..8]) else 0;
    var s1 := if s.inTransaction && s.txnId != [] && ShouldCaptureDdl(cfg.databases, s.tableMap.db)
              then Emit(s, cfg, s.tableMap.db, "COMMIT", CommitJson(s.txnId, s.tableMap.db, xid))
              else s;
    s1.(inTransaction := false, txnId := [])
  }

  /** save_position, which writes only when saving is enabled. */
  function Save(s: StreamState, cfg: StreamConfig): StreamState
  {
    if cfg.saveLastPosition then s.(checkpoint := Some(Checkpoint(s.binlog, s.position))) else s
  }

  /** The name parse_rotate records: "<unknown>" when no printable byte starts it. */
  function RotatedName(file: seq<Byte>): (name: string)
    ensures name != []
  {
    if file == [] then "<unknown>" else Chars(file)
  }

  /** parse_rotate: the next file and position, saved at once when saving is on. */
  function RotateStep(s: StreamState, cfg: StreamConfig, p: seq<Byte>): StreamState
  {
    match RotationOf(p)
    case None => s
    case Some(r) =>
      var s1 := s.(binlog := RotatedName(r.file), position := r.position);
      if cfg.saveLastPosition then Save(s1, cfg).(eventsSinceSave := 0) else s1
  }

  /** A table whose row events the streamer decodes. */
  predicate Captured(cfg: StreamConfig, db: string, tbl: string)
  {
    ShouldCaptureTable(cfg.databases, db, tbl) && ShouldCaptureDml(cfg.databases, db)
  }

  /**
   * The decision to drop and reallocate the ENUM cache, as evidently
   * intended: another table, another column count, or no cache yet.
   */
  function CacheReset(prev: TableMap, db: string, tbl: string, ncols: nat, cacheNull: bool): (reset: bool)
    ensures (prev.db, prev.tbl, prev.ncols) != (db, tbl, ncols) ==> reset
    ensures cacheNull ==> reset
    ensures reset ==> (prev.db, prev.tbl, prev.ncols) != (db, tbl, ncols) || cacheNull
  {
    prev.db != db || prev.tbl != tbl || prev.ncols != ncols || cacheNull
  }

  /**
   * The same decision as parse_table_map writes it: `table_changed` compares
   * g_map.db and g_map.tbl with the new names after both were copied into
   * g_map, so a change of table alone never resets the cache.
   */
  function CacheResetAsWritten(prev: TableMap, db: string, tbl: string, ncols: nat, cacheNull: bool): (reset: bool)
    ensures reset <==> prev.ncols != ncols || cacheNull
  {
    var overwritten := prev.(db := db, tbl := tbl);
    var tableChanged := overwritten.db != db || overwritten.tbl != tbl;
    tableChanged || prev.ncols != ncols || cacheNull
  }

  /** The state change of a decoded table map, given the decision whether to reset the ENUM cache. */
  function MapStepWith(s: StreamState, cfg: StreamConfig, h: TableMapHeader, freshId: string, reset: bool): StreamState
  {
    var db := Chars(h.db);
    var tbl := Chars(h.tbl);
    if !Captured(cfg, db, tbl) then
      s.(tableMap := s.tableMap.(tableId := 0, db := db, tbl := tbl))
    else
      var s1 := if !s.inTransaction then s.(inTransaction := true, txnId := freshId) else s;
      s1.(tableMap := TableMap(h.tableId, db, tbl, h.ncols, ColumnMetadataFrom(h.types, h.metaBlock, 0, 0)),
          cache := if !reset then s.cache else if h.ncols > 0 then Some(CacheOwner(db, tbl, h.ncols)) else None)
  }

  /** The state change of a decoded table map, with the reset decision as parse_table_map writes it. */
  function MapStep(s: StreamState, cfg: StreamConfig, h: TableMapHeader, freshId: string): StreamState
  {
    MapStepWith(s, cfg, h, freshId, CacheResetAsWritten(s.tableMap, Chars(h.db), Chars(h.tbl), h.ncols, s.cache.None?))
  }

  /** The same state change with the intended reset decision. */
  function IntendedMapStep(s: StreamState, cfg: StreamConfig, h: TableMapHeader, freshId: string): StreamState
  {
    MapStepWith(s, cfg, h, freshId, CacheReset(s.tableMap, Chars(h.db), Chars(h.tbl), h.ncols, s.cache.None?))
  }

  /** parse_table_map. */
  function TableMapStep(s: StreamState, cfg: StreamConfig, p: seq<Byte>, freshId: string): StreamState
  {
    match TableMapFields(p)
    case None => s
    case Some(h) => MapStep(s, cfg, h, freshId)
  }

  /**
   * What a rows event takes from outside the model: the text the row
   * parsers print after the event's fixed fields (the primary-key metadata
   * and the "rows" array built from the column values, which the model does
   * not build), and for the MariaDB compressed types the length zlib
   * inflates the rows to, None when uncompress fails.
   */
  datatype RowsInput = RowsInput(body: string, inflated: Option<nat>)

  /** The event type parse_write_rows, parse_update_rows and parse_delete_rows print. */
  function RowsKind(t: Byte): (k: string)
    ensures k == "INSERT" || k == "UPDATE" || k == "DELETE"
    ensures IsRowsEvent(t) ==> (k == "INSERT" <==> IsWriteRows(t)) && (k == "UPDATE" <==> IsUpdateRows(t))
  {
    if IsWriteRows(t) then "INSERT" else if IsUpdateRows(t) then "UPDATE" else "DELETE"
  }

  /** A rows event's JSON: the type, txn, db and table members, then the body the row parsers add. */
  function RowsJson(kind: string, txn: string, db: string, tbl: string, body: string): string
  {
    "{\"type\":\"" + kind + "\",\"txn\":\"" + txn + "\",\"db\":\"" + db + "\",\"table\":\"" + tbl + "\"" + body
  }

  /**
   * The length of the row images the row loop runs over: the bytes after
   * the bitmaps, or for a compressed event what they inflate to; None when
   * mariadb_decompress_rows fails.
   */
  function RowBytes(t: Byte, rows: seq<Byte>, o: RowsInput): (n: Option<nat>)
    ensures !IsCompressedRows(t) ==> n == Some(|rows|)
    ensures IsCompressedRows(t) && !CompressedHeaderOk(rows) ==> n.None?
  {
    if !IsCompressedRows(t) then Some(|rows|)
    else if CompressedHeaderOk(rows) then o.inflated
    else None
  }

  /**
   * parse_rows_event with parse_write_rows, parse_update_rows or
   * parse_delete_rows: nothing happens for a payload too short for the
   * bitmaps, a failed inflation, or the map of an ignored table (table id
   * 0); otherwise the row loop counts a first row exactly when the row
   * bytes hold the smallest row, and one event is published under the
   * table map's names and the current transaction id.
   */
  function RowsStep(s: StreamState, cfg: StreamConfig, t: Byte, p: seq<Byte>, o: RowsInput): StreamState
  {
    match RowsEventHeader(t, p)
    case None => s
    case Some(h) =>
      var n := RowBytes(t, h.rows, o);
      if n.None? || s.tableMap.tableId == 0 || n.value < MinRowBytes(t, h.ncols) then s
      else Emit(s, cfg, s.tableMap.db, s.tableMap.tbl,
                RowsJson(RowsKind(t), s.txnId, s.tableMap.db, s.tableMap.tbl, o.body))
  }

  /**
   * The checkpoint counter with saving on and a positive count: the new
   * counter and whether a checkpoint is written.
   */
  function Tick(n: nat, since: nat): (r: (nat, bool))
    requires n > 0
    ensures r.1 <==> since + 1 >= n
    ensures r.0 == if r.1 then 0 else since + 1
  {
    if since + 1 >= n then (0, true) else (since + 1, false)
  }

  /** The end of parse_event: count the event, then save as the settings say. */
  function Cadence(s: StreamState, cfg: StreamConfig): StreamState
  {
    if !cfg.saveLastPosition then s.(eventsSinceSave := s.eventsSinceSave + 1)
    else if cfg.saveEventCount > 0 then
      var (since, save) := Tick(cfg.saveEventCount, s.eventsSinceSave);
      if save then Save(s, cfg).(eventsSinceSave := 0) else s.(eventsSinceSave := since)
    else Save(s, cfg).(eventsSinceSave := 0)
  }

  /** The switch of parse_event, after next_pos has been recorded. */
  function Dispatch(s: StreamState, cfg: StreamConfig, f: EventFrame, freshId: string, o: RowsInput): StreamState
  {
    var s0 := if f.nextPos > 0 then s.(position := f.nextPos) else s;
    if f.eventType == EVT_QUERY_EVENT then QueryStep(s0, cfg, f.payload, freshId)
    else if f.eventType == EVT_XID then XidStep(s0, cfg, f.payload)
    else if f.eventType == EVT_ROTATE then RotateStep(s0, cfg, f.payload)
    else if f.eventType == EVT_TABLE_MAP then TableMapStep(s0, cfg, f.payload, freshId)
    else if IsRowsEvent(f.eventType) then RowsStep(s0, cfg, f.eventType, f.payload, o)
    else s0
  }

  /** parse_event: None (-1, nothing changes) for a packet that is too short or not an OK packet. */
  function EventStep(s: StreamState, cfg: StreamConfig, buf: seq<Byte>, freshId: string, o: RowsInput): Option<StreamState>
  {
    match EventFrameOf(buf, cfg.hasChecksum)
    case None => None
    case Some(f) => Some(Cadence(Dispatch(s, cfg, f, freshId, o), cfg))
  }

  // ---------------------------------------------------------------------
  // Properties
  // ---------------------------------------------------------------------

  /** A transaction in progress always has an id. */
  predicate TxnIdSet(s: StreamState)
  {
    s.inTransaction ==> IsTxnId(s.txnId)
  }

  /**
   * With saving on, the counter stays below the configured count, and at 0
   * when every event is saved.
   */
  predicate CounterBounded(cfg: StreamConfig, s: StreamState)
  {
    cfg.saveLastPosition ==>
      if cfg.saveEventCount > 0 then s.eventsSinceSave < cfg.saveEventCount else s.eventsSinceSave == 0
  }

  /**
   * The ENUM cache, when there is one, has an entry for every column of
   * the current table map.
   */
  predicate CacheSized(s: StreamState)
  {
    s.cache.Some? ==> s.cache.value.ncols > 0 && s.cache.value.ncols == s.tableMap.ncols
  }

  /**
   * The ENUM cache, when there is one, was allocated for the current table
   * map, unless that map is an ignored one (whose row events are skipped):
   * what the intended reset decision keeps.
   */
  predicate CacheOwned(cfg: StreamConfig, s: StreamState)
  {
    s.cache.Some? ==>
      s.cache.value.ncols > 0 &&
      (s.cache.value == CacheOwner(s.tableMap.db, s.tableMap.tbl, s.tableMap.ncols) ||
       !Captured(cfg, s.tableMap.db, s.tableMap.tbl))
  }

  predicate Valid(cfg: StreamConfig, s: StreamState)
  {
    TxnIdSet(s) && CounterBounded(cfg, s) && CacheSized(s)
  }

  /** The state the constructor sets up satisfies the invariant. */
  lemma InitialValid(cfg: StreamConfig, file: string, pos: nat)
    ensures Valid(cfg, StreamState(file, pos, 0, [], false, TableMap(0, [], [], 0, []), None, None, []))
  {
  }

  /** BEGIN opens a transaction under a fresh id and publishes nothing. */
  lemma BeginStartsTransaction(s: StreamState, cfg: StreamConfig, qe: QueryEvent, freshId: string)
    requires ClassifyQuery(Chars(qe.query)) == Begin
    ensures StatementStep(s, cfg, qe, freshId).inTransaction
    ensures StatementStep(s, cfg, qe, freshId).txnId == freshId
    ensures StatementStep(s, cfg, qe, freshId).published == s.published
  {
  }

  /** COMMIT and ROLLBACK statements close the transaction and clear its id. */
  lemma CommitEndsTransaction(s: StreamState, cfg: StreamConfig, qe: QueryEvent, freshId: string)
    requires ClassifyQuery(Chars(qe.query)) == Commit || ClassifyQuery(Chars(qe.query)) == Rollback
    ensures !StatementStep(s, cfg, qe, freshId).inTransaction
    ensures StatementStep(s, cfg, qe, freshId).txnId == []
    ensures StatementStep(s, cfg, qe, freshId).published == s.published
  {
  }

  /**
   * Any other statement leaves the transaction flag alone; outside a
   * transaction it is still given a fresh id.
   */
  lemma OtherStatementKeepsTransaction(s: StreamState, cfg: StreamConfig, qe: QueryEvent, freshId: string)
    requires ClassifyQuery(Chars(qe.query)) !in {Begin, Commit, Rollback}
    ensures StatementStep(s, cfg, qe, freshId).inTransaction == s.inTransaction
    ensures StatementStep(s, cfg, qe, freshId).txnId == if s.inTransaction then s.txnId else freshId
  {
  }

  /**
   * A statement is published exactly when it is DDL naming a default
   * database that captures DDL (and a publisher manager exists). The event
   * is routed by that database, carries the statement kind as its table and
   * the escaped statement, cut to 1023 characters, in its JSON.
   */
  lemma StatementPublishesCapturedDdl(s: StreamState, cfg: StreamConfig, qe: QueryEvent, freshId: string)
    ensures var q := Chars(qe.query);
            var k := ClassifyQuery(q);
            var t := StatementStep(s, cfg, qe, freshId);
            var db := Chars(qe.db);
            if IsDdl(k) && qe.dbLen > 0 && ShouldCaptureDdl(cfg.databases, db) && cfg.hasPublishers then
              t.published == s.published + [CdcEvent(Some(db), Some(KindName(k)),
                                                      Some(DdlJson(KindName(k), t.txnId, db, EscapeDdl(q[..Min(|q|, 1023)]))),
                                                      Some(t.txnId), s.position, Some(s.binlog))]
            else t.published == s.published
  {
  }

  /**
   * XID_EVENT always ends the transaction. Inside a transaction whose
   * table-map database captures DDL it publishes one COMMIT event carrying
   * the transaction's id and the server's xid; otherwise nothing.
   */
  lemma XidEndsTransaction(s: StreamState, cfg: StreamConfig, p: seq<Byte>)
    requires TxnIdSet(s)
    ensures !XidStep(s, cfg, p).inTransaction && XidStep(s, cfg, p).txnId == []
    ensures var xid := if |p| >= 8 then LeValue(p[..8]) else 0;
            if s.inTransaction && ShouldCaptureDdl(cfg.databases, s.tableMap.db) && cfg.hasPublishers then
              XidStep(s, cfg, p).published ==
                s.published + [CdcEvent(Some(s.tableMap.db), Some("COMMIT"), Some(CommitJson(s.txnId, s.tableMap.db, xid)),
                                        Some(s.txnId), s.position, Some(s.binlog))]
            else XidStep(s, cfg, p).published == s.published
    ensures XidStep(s, cfg, p).tableMap == s.tableMap && XidStep(s, cfg, p).cache == s.cache
  {
  }

  /**
   * A table map that is not captured (table not listed or DML capture off)
   * is remembered with table id 0 and touches neither the transaction nor
   * the ENUM cache.
   */
  lemma IgnoredTableMap(s: StreamState, cfg: StreamConfig, h: TableMapHeader, freshId: string)
    requires !Captured(cfg, Chars(h.db), Chars(h.tbl))
    ensures var t := MapStep(s, cfg, h, freshId);
            t.tableMap.tableId == 0 && t.tableMap.db == Chars(h.db) && t.tableMap.tbl == Chars(h.tbl) &&
            t.inTransaction == s.inTransaction && t.txnId == s.txnId && t.cache == s.cache
  {
  }

  /**
   * A captured table map opens a transaction when none is in progress
   * (keeping the current id otherwise) and records the table id, names and
   * the decoded column metadata.
   */
  lemma CapturedTableMapOpensTransaction(s: StreamState, cfg: StreamConfig, h: TableMapHeader, freshId: string)
    requires Captured(cfg, Chars(h.db), Chars(h.tbl))
    ensures var t := MapStep(s, cfg, h, freshId);
            t.inTransaction && t.txnId == (if s.inTransaction then s.txnId else freshId) &&
            t.tableMap == TableMap(h.tableId, Chars(h.db), Chars(h.tbl), h.ncols, ColumnMetadataFrom(h.types, h.metaBlock, 0, 0))
  {
  }

  /**
   * As written, a captured table map keeps the cache when its column count
   * is the previous map's and a cache exists, and otherwise allocates one
   * for the new table (none for a table without columns); either way the
   * cache is sized for the new map.
   */
  lemma CapturedMapSizesCache(s: StreamState, cfg: StreamConfig, h: TableMapHeader, freshId: string)
    requires CacheSized(s) && Captured(cfg, Chars(h.db), Chars(h.tbl))
    ensures MapStep(s, cfg, h, freshId).cache ==
              if s.cache.Some? && s.tableMap.ncols == h.ncols then s.cache
              else if h.ncols > 0 then Some(CacheOwner(Chars(h.db), Chars(h.tbl), h.ncols)) else None
    ensures CacheSized(MapStep(s, cfg, h, freshId))
  {
  }

  /**
   * With the intended reset decision, the ENUM cache after a captured table
   * map is the one allocated for exactly that table and column count
   * (none for a table without columns), never a previous table's.
   */
  lemma CapturedMapOwnsCache(s: StreamState, cfg: StreamConfig, h: TableMapHeader, freshId: string)
    requires CacheOwned(cfg, s) && Captured(cfg, Chars(h.db), Chars(h.tbl))
    ensures IntendedMapStep(s, cfg, h, freshId).cache ==
              if h.ncols > 0 then Some(CacheOwner(Chars(h.db), Chars(h.tbl), h.ncols)) else None
    ensures CacheOwned(cfg, IntendedMapStep(s, cfg, h, freshId))
  {
  }

  /**
   * As written, a table map for another table with the same column count
   * keeps the cache that was allocated for the previous table, where the
   * intended decision resets it.
   */
  lemma TableChangeIgnoredAsWritten(prev: TableMap, db: string, tbl: string)
    requires (prev.db, prev.tbl) != (db, tbl)
    ensures !CacheResetAsWritten(prev, db, tbl, prev.ncols, false)
    ensures CacheReset(prev, db, tbl, prev.ncols, false)
  {
  }

  /**
   * The stepping itself: after a.t with a cache, a captured map of another
   * table with as many columns leaves a.t's cache in place as written,
   * where the intended step gives the new table a cache of its own.
   */
  lemma StaleCacheAsWritten(s: StreamState, cfg: StreamConfig, h: TableMapHeader, freshId: string)
    requires s.cache == Some(CacheOwner(s.tableMap.db, s.tableMap.tbl, s.tableMap.ncols))
    requires Captured(cfg, Chars(h.db), Chars(h.tbl)) && h.ncols == s.tableMap.ncols > 0
    requires (Chars(h.db), Chars(h.tbl)) != (s.tableMap.db, s.tableMap.tbl)
    ensures MapStep(s, cfg, h, freshId).cache == s.cache
    ensures MapStep(s, cfg, h, freshId).cache != Some(CacheOwner(Chars(h.db), Chars(h.tbl), h.ncols))
    ensures IntendedMapStep(s, cfg, h, freshId).cache == Some(CacheOwner(Chars(h.db), Chars(h.tbl), h.ncols))
  {
    TableChangeIgnoredAsWritten(s.tableMap, Chars(h.db), Chars(h.tbl));
  }

  /** The step of the checkpoint counter after k events from 0. */
  function Ticks(n: nat, k: nat): (r: (nat, nat))
    requires n > 0
  {
    if k == 0 then (0, 0)
    else
      var (since, saves) := Ticks(n, k - 1);
      var (next, saved) := Tick(n, since);
      (next, saves + if saved then 1 else 0)
  }

  lemma DivModOf(k: nat, n: nat, q: nat, r: nat)
    requires n > 0 && r < n && k == q * n + r
    ensures k / n == q && k % n == r
  {
    var d := k / n;
    var e := k % n;
    assert (d - q) * n == r - e;
    if d > q {
      MulAtLeast(d - q, n);
    } else if d < q {
      MulAtLeast(q - d, n);
    }
  }

  lemma MulAtLeast(a: int, n: nat)
    requires a >= 1
    ensures a * n >= n
  {
  }

  /**
   * With save_position_event_count = n > 0, k events starting from a fresh
   * counter write k / n checkpoints and leave the counter at k mod n: a
   * checkpoint every n events.
   */
  lemma {:induction false} TicksCount(n: nat, k: nat)
    requires n > 0
    ensures Ticks(n, k) == (k % n, k / n)
  {
    if k > 0 {
      TicksCount(n, k - 1);
      var m := (k - 1) / n;
      var c := (k - 1) % n;
      assert Ticks(n, k - 1) == (c, m);
      assert m * n + c + 1 == k;
      TickAfter(n, m, c);
    }
  }

  /** One more event after m full rounds and c further events. */
  lemma TickAfter(n: nat, m: nat, c: nat)
    requires c < n
    ensures var (next, saved) := Tick(n, c);
            next == (m * n + c + 1) % n && m + (if saved then 1 else 0) == (m * n + c + 1) / n
  {
    if c + 1 == n {
      assert m * n + c + 1 == (m + 1) * n + 0;
      DivModOf(m * n + c + 1, n, m + 1, 0);
    } else {
      DivModOf(m * n + c + 1, n, m, c + 1);
    }
  }

  /**
   * The end of parse_event: with saving on the checkpoint written records
   * the file and position in effect after the event; with a count of 0
   * every event is saved.
   */
  lemma CadenceSaves(s: StreamState, cfg: StreamConfig)
    ensures var t := Cadence(s, cfg);
            var due := cfg.saveLastPosition && (cfg.saveEventCount == 0 || s.eventsSinceSave + 1 >= cfg.saveEventCount);
            (due ==> t.checkpoint == Some(Checkpoint(s.binlog, s.position)) && t.eventsSinceSave == 0) &&
            (!due ==> t.checkpoint == s.checkpoint && t.eventsSinceSave == s.eventsSinceSave + 1) &&
            t.binlog == s.binlog && t.position == s.position && t.published == s.published
  {
  }

  /**
   * A ROTATE_EVENT carrying a position and a printable name moves the
   * streamer to that file and position ("<unknown>" for an empty name) and
   * saves a checkpoint there at once when saving is on.
   */
  lemma RotateMovesToFile(s: StreamState, cfg: StreamConfig, position: nat, name: seq<Byte>, tail: seq<Byte>)
    requires position < 0x1_0000_0000_0000_0000
    requires |name| <= MAX_BINLOG_NAME && forall i :: 0 <= i < |name| ==> Printable(name[i])
    requires tail == [] || !Printable(tail[0]) || |name| == MAX_BINLOG_NAME
    ensures var t := RotateStep(s, cfg, LeBytes(position, 8) + name + tail);
            t.binlog == RotatedName(name) && t.position == position &&
            (cfg.saveLastPosition ==> t.checkpoint == Some(Checkpoint(RotatedName(name), position)) && t.eventsSinceSave == 0) &&
            (!cfg.saveLastPosition ==> t.checkpoint == s.checkpoint && t.eventsSinceSave == s.eventsSinceSave)
  {
    RotationRoundTrip(position, name, tail);
  }

  /** parse_query touches neither the table map nor the cache, and always leaves an open transaction an id. */
  lemma QueryKeepsValid(s: StreamState, cfg: StreamConfig, p: seq<Byte>, freshId: string)
    requires TxnIdSet(s) && IsTxnId(freshId)
    ensures var t := QueryStep(s, cfg, p, freshId);
            TxnIdSet(t) && t.tableMap == s.tableMap && t.cache == s.cache
  {
    match QueryEventFields(p)
    case None =>
    case Some(qe) => StatementKeepsValid(s, cfg, qe, freshId);
  }

  lemma StatementKeepsValid(s: StreamState, cfg: StreamConfig, qe: QueryEvent, freshId: string)
    requires TxnIdSet(s) && IsTxnId(freshId)
    ensures var t := StatementStep(s, cfg, qe, freshId);
            TxnIdSet(t) && t.tableMap == s.tableMap && t.cache == s.cache
  {
    var q := Chars(qe.query);
    var k := ClassifyQuery(q);
    var s1 := if k == Begin then s.(inTransaction := true, txnId := freshId)
              else if !s.inTransaction then s.(txnId := freshId)
              else s;
    assert TxnIdSet(s1) && s1.tableMap == s.tableMap && s1.cache == s.cache;
    var db := Chars(qe.db);
    if IsDdl(k) && qe.dbLen > 0 && ShouldCaptureDdl(cfg.databases, db) {
      EmitKeeps(s1, cfg, db, KindName(k), DdlJson(KindName(k), s1.txnId, db, EscapeDdl(q[..Min(|q|, 1023)])));
    }
  }

  /** publish_event changes nothing but the list of published events. */
  lemma EmitKeeps(s: StreamState, cfg: StreamConfig, db: string, table: string, json: string)
    ensures Emit(s, cfg, db, table, json) == s.(published := Emit(s, cfg, db, table, json).published)
  {
  }

  /** parse_rotate touches neither the transaction, the table map nor the cache. */
  lemma RotateKeepsValid(s: StreamState, cfg: StreamConfig, p: seq<Byte>)
    ensures var t := RotateStep(s, cfg, p);
            t.inTransaction == s.inTransaction && t.txnId == s.txnId && t.tableMap == s.tableMap && t.cache == s.cache
  {
  }

  /** parse_table_map keeps the transaction and cache parts of the invariant. */
  lemma TableMapKeepsValid(s: StreamState, cfg: StreamConfig, p: seq<Byte>, freshId: string)
    requires TxnIdSet(s) && CacheSized(s) && IsTxnId(freshId)
    ensures TxnIdSet(TableMapStep(s, cfg, p, freshId)) && CacheSized(TableMapStep(s, cfg, p, freshId))
  {
    match TableMapFields(p)
    case None =>
    case Some(h) =>
      if Captured(cfg, Chars(h.db), Chars(h.tbl)) {
        CapturedMapSizesCache(s, cfg, h, freshId);
      } else {
        IgnoredTableMap(s, cfg, h, freshId);
      }
  }

  /**
   * A rows event changes nothing but the published list, to which it adds
   * at most one event: the table map's names, the current transaction id
   * and a JSON text that starts with the event's type, txn, db and table.
   */
  lemma RowsOnlyPublish(s: StreamState, cfg: StreamConfig, t: Byte, p: seq<Byte>, o: RowsInput)
    ensures var r := RowsStep(s, cfg, t, p, o);
            r == s.(published := r.published) &&
            (r.published == s.published ||
             r.published == s.published + [CdcEvent(Some(s.tableMap.db), Some(s.tableMap.tbl),
                                                   Some(RowsJson(RowsKind(t), s.txnId, s.tableMap.db, s.tableMap.tbl, o.body)),
                                                   Some(s.txnId), s.position, Some(s.binlog))])
  {
  }

  /**
   * An uncompressed rows event laid out field by field publishes one event
   * exactly when the last table map was captured (table id not 0) and the
   * row bytes hold the smallest row the row loop starts on; otherwise
   * nothing changes.
   */
  lemma RowsEventOfLayout(s: StreamState, cfg: StreamConfig, t: Byte, tableId: nat, flags: seq<Byte>, extra: seq<Byte>,
                          ncols: nat, before: seq<Byte>, after: seq<Byte>, rows: seq<Byte>, o: RowsInput)
    requires IsRowsEvent(t) && !IsCompressedRows(t) && cfg.hasPublishers
    requires tableId < Pow256(6) && |flags| == 2 && |extra| + 2 < 0x1_0000 && ncols < 256
    requires |before| == BitmapLen(ncols) && (IsUpdateRows(t) ==> |after| == BitmapLen(ncols))
    ensures var r := RowsStep(s, cfg, t, EncodeRowsEvent(t, tableId, flags, extra, ncols, before, after, rows), o);
            if s.tableMap.tableId != 0 && |rows| >= MinRowBytes(t, ncols) then
              r == s.(published := s.published + [CdcEvent(Some(s.tableMap.db), Some(s.tableMap.tbl),
                                                  Some(RowsJson(RowsKind(t), s.txnId, s.tableMap.db, s.tableMap.tbl, o.body)),
                                                  Some(s.txnId), s.position, Some(s.binlog))])
            else r == s
  {
    RowsEventRoundTrip(t, tableId, flags, extra, ncols, before, after, rows);
  }

  /**
   * A compressed rows event whose header mariadb_decompress_rows rejects,
   * or whose inflation fails, changes nothing.
   */
  lemma FailedInflationSkipped(s: StreamState, cfg: StreamConfig, t: Byte, p: seq<Byte>, o: RowsInput)
    requires IsCompressedRows(t) && RowsEventHeader(t, p).Some?
    requires !CompressedHeaderOk(RowsEventHeader(t, p).value.rows) || o.inflated.None?
    ensures RowsStep(s, cfg, t, p, o) == s
  {
  }

  /** The switch of parse_event keeps the transaction and cache parts of the invariant. */
  lemma DispatchKeepsValid(s: StreamState, cfg: StreamConfig, f: EventFrame, freshId: string, o: RowsInput)
    requires TxnIdSet(s) && CacheSized(s) && IsTxnId(freshId)
    ensures TxnIdSet(Dispatch(s, cfg, f, freshId, o)) && CacheSized(Dispatch(s, cfg, f, freshId, o))
  {
    var s0 := if f.nextPos > 0 then s.(position := f.nextPos) else s;
    assert TxnIdSet(s0) && CacheSized(s0);
    var t := Dispatch(s, cfg, f, freshId, o);
    if f.eventType == EVT_QUERY_EVENT {
      QueryKeepsValid(s0, cfg, f.payload, freshId);
      assert t.tableMap == s0.tableMap && t.cache == s0.cache;
    } else if f.eventType == EVT_XID {
      XidEndsTransaction(s0, cfg, f.payload);
      assert t.tableMap == s0.tableMap && t.cache == s0.cache;
    } else if f.eventType == EVT_ROTATE {
      RotateKeepsValid(s0, cfg, f.payload);
      assert t.tableMap == s0.tableMap && t.cache == s0.cache;
    } else if f.eventType == EVT_TABLE_MAP {
      TableMapKeepsValid(s0, cfg, f.payload, freshId);
    } else if IsRowsEvent(f.eventType) {
      RowsOnlyPublish(s0, cfg, f.eventType, f.payload, o);
    } else {
      assert t == s0;
    }
  }

  /**
   * A bare header whose event-length field is 0 is still an event: an
   * unknown type (here 0) moves the position to next_pos and is counted.
   */
  lemma HeaderOnlyEventCounted(s: StreamState, cfg: StreamConfig, freshId: string, buf: seq<Byte>, o: RowsInput)
    requires BareHeader(buf) && buf[5] == 0
    ensures EventStep(s, cfg, buf, freshId, o) == Some(Cadence(s.(position := 4), cfg))
  {
    BareHeaderFrame(buf, cfg.hasChecksum);
  }

  /** A bare XID header with event length 0 ends the transaction. */
  lemma HeaderOnlyXidCommits(s: StreamState, cfg: StreamConfig, freshId: string, buf: seq<Byte>, o: RowsInput)
    requires BareHeader(buf) && buf[5] == EVT_XID as Byte
    ensures EventStep(s, cfg, buf, freshId, o).Some? && !EventStep(s, cfg, buf, freshId, o).value.inTransaction
  {
    BareHeaderFrame(buf, cfg.hasChecksum);
  }

  /** A 20-byte OK packet whose event-length field is 0 and whose next_pos is 4. */
  predicate BareHeader(buf: seq<Byte>)
  {
    |buf| == 20 && buf[0] == 0 &&
    buf[10] == 0 && buf[11] == 0 && buf[12] == 0 && buf[13] == 0 &&
    buf[14] == 4 && buf[15] == 0 && buf[16] == 0 && buf[17] == 0
  }

  /** The frame of a 20-byte packet whose event-length field is 0 and whose next_pos is 4. */
  lemma BareHeaderFrame(buf: seq<Byte>, hasChecksum: bool)
    requires BareHeader(buf)
    ensures EventFrameOf(buf, hasChecksum) == Some(EventFrame(buf[5], 4, []))
  {
    var e := buf[10..];
    var n := buf[14..];
    assert e[0] == 0 && e[1] == 0 && e[2] == 0 && e[3] == 0;
    assert n[0] == 4 && n[1] == 0 && n[2] == 0 && n[3] == 0;
    assert Le32(e) == 0 && Le32(n) == 4;
  }

  /** Every event parse_event accepts keeps the invariant. */
  lemma EventStepPreservesValid(s: StreamState, cfg: StreamConfig, buf: seq<Byte>, freshId: string, o: RowsInput)
    requires Valid(cfg, s) && IsTxnId(freshId)
    requires EventStep(s, cfg, buf, freshId, o).Some?
    ensures Valid(cfg, EventStep(s, cfg, buf, freshId, o).value)
  {
    var f := EventFrameOf(buf, cfg.hasChecksum).value;
    DispatchKeepsValid(s, cfg, f, freshId, o);
  }

  // ---------------------------------------------------------------------
  // The globals
  // ---------------------------------------------------------------------

  class Streamer {
    const cfg: StreamConfig
    var binlog: string
    var position: nat
    var eventsSinceSave: nat
    var txnId: string
    var inTransaction: bool
    var tableMap: TableMap
    var cache: Option<CacheOwner>
    var checkpoint: Option<Checkpoint>
    var published: seq<CdcEvent>

    function State(): StreamState
      reads this
    {
      StreamState(binlog, position, eventsSinceSave, txnId, inTransaction, tableMap, cache, checkpoint, published)
    }

    /**
     * The globals at the start of streaming: the file and position come
     * from the configuration or the restored checkpoint.
     */
    constructor (c: StreamConfig, file: string, pos: nat)
      ensures cfg == c
      ensures State() == StreamState(file, pos, 0, [], false, TableMap(0, [], [], 0, []), None, None, [])
    {
      cfg := c;
      binlog := file;
      position := pos;
      eventsSinceSave := 0;
      txnId := [];
      inTransaction := false;
      tableMap := TableMap(0, [], [], 0, []);
      cache := None;
      checkpoint := None;
      published := [];
    }

    method PublishEvent(db: string, table: string, json: string)
      modifies this
      ensures State() == Emit(old(State()), cfg, db, table, json)
    {
      if !cfg.hasPublishers {
        return;
      }
      published := published + [CdcEvent(Some(db), Some(table), Some(json), Some(txnId), position, Some(binlog))];
    }

    method SavePosition()
      modifies this
      ensures State() == Save(old(State()), cfg)
    {
      if !cfg.saveLastPosition {
        return;
      }
      checkpoint := Some(Checkpoint(binlog, position));
    }

    method ParseQuery(p: seq<Byte>, freshId: string)
      modifies this
      ensures State() == QueryStep(old(State()), cfg, p, freshId)
    {
      var fields := QueryEventFields(p);
      if fields.None? {
        return;
      }
      var qe := fields.value;
      var q := Chars(qe.query);
      var k := ClassifyQuery(q);
      var db := Chars(qe.db);
      if k == Begin {
        inTransaction := true;
        txnId := freshId;
      } else if !inTransaction {
        // a DDL statement and any other statement outside a transaction both get a fresh id
        txnId := freshId;
      }
      if IsDdl(k) && qe.dbLen > 0 && !ShouldCaptureDdl(cfg.databases, db) {
        return;
      }
      if IsDdl(k) && qe.dbLen > 0 {
        var escaped := EscapeQuery(q);
        PublishEvent(db, KindName(k), DdlJson(KindName(k), txnId, db, escaped));
      }
      if k == Commit || k == Rollback {
        inTransaction := false;
        txnId := [];
      }
    }

    method ParseXid(p: seq<Byte>)
      modifies this
      ensures State() == XidStep(old(State()), cfg, p)
    {
      var xid := 0;
      if |p| >= 8 {
        xid := Le64(p);
      }
      if inTransaction && txnId != [] {
        var db := tableMap.db;
        if ShouldCaptureDdl(cfg.databases, db) {
          PublishEvent(db, "COMMIT", CommitJson(txnId, db, xid));
        }
      }
      inTransaction := false;
      txnId := [];
    }

    method ParseRotate(p: seq<Byte>)
      modifies this
      ensures State() == RotateStep(old(State()), cfg, p)
    {
      if |p| < 8 {
        return;
      }
      var pos := Le64(p);
      var n := RotateNameLength(p[8..]);
      if n > 0 {
        binlog := Chars(p[8..][..n]);
        assert p[8..][..n] == p[8..8 + n];
      } else {
        binlog := "<unknown>";
      }
      position := pos;
      if cfg.saveLastPosition {
        SavePosition();
        eventsSinceSave := 0;
      }
    }

    method ParseTableMap(p: seq<Byte>, freshId: string)
      modifies this
      ensures State() == TableMapStep(old(State()), cfg, p, freshId)
    {
      var fields := TableMapFields(p);
      if fields.None? {
        return;
      }
      ApplyTableMap(fields.value, freshId);
    }

    /** parse_table_map from the decoded fields on. */
    method ApplyTableMap(h: TableMapHeader, freshId: string)
      modifies this
      ensures State() == MapStep(old(State()), cfg, h, freshId)
    {
      var db := Chars(h.db);
      var tbl := Chars(h.tbl);
      var previous := tableMap;
      tableMap := tableMap.(tableId := h.tableId, db := db, tbl := tbl);
      if !ShouldCaptureTable(cfg.databases, db, tbl) || !ShouldCaptureDml(cfg.databases, db) {
        tableMap := tableMap.(tableId := 0);
        return;
      }
      var tableChanged := tableMap.db != db || tableMap.tbl != tbl;
      var reset := tableChanged || previous.ncols != h.ncols || cache.None?;
      if !inTransaction {
        txnId := freshId;
        inTransaction := true;
      }
      if reset {
        cache := if h.ncols > 0 then Some(CacheOwner(db, tbl, h.ncols)) else None;
      }
      var columns := ReadColumns(h.types, h.metaBlock);
      tableMap := TableMap(h.tableId, db, tbl, h.ncols, columns);
      assert inTransaction && txnId == (if old(inTransaction) then old(txnId) else freshId);
    }

    /** The switch of parse_event, after next_pos has been recorded. */
    method DispatchFrame(f: EventFrame, freshId: string, o: RowsInput)
      modifies this
      ensures State() == Dispatch(old(State()), cfg, f, freshId, o)
    {
      if f.nextPos > 0 {
        position := f.nextPos;
      }
      ghost var s0 := State();
      assert s0 == if f.nextPos > 0 then old(State()).(position := f.nextPos) else old(State());
      if f.eventType == EVT_QUERY_EVENT {
        ParseQuery(f.payload, freshId);
      } else if f.eventType == EVT_XID {
        ParseXid(f.payload);
      } else if f.eventType == EVT_ROTATE {
        ParseRotate(f.payload);
      } else if f.eventType == EVT_TABLE_MAP {
        ParseTableMap(f.payload, freshId);
      } else if IsRowsEvent(f.eventType) {
        ParseRowsEvent(f.eventType, f.payload, o);
      }
      // FORMAT_DESCRIPTION only logs
    }

    /**
     * parse_rows_event and the row parser for its type, up to the decision
     * to publish; the row JSON after the fixed fields comes from `o`.
     */
    method ParseRowsEvent(t: Byte, p: seq<Byte>, o: RowsInput)
      modifies this
      ensures State() == RowsStep(old(State()), cfg, t, p, o)
    {
      var header := RowsEventHeader(t, p);
      if header.None? {
        return;
      }
      var h := header.value;
      var rowLen: nat;
      if IsCompressedRows(t) {
        var expected := DecompressHeader(h.rows);
        if expected.None? || o.inflated.None? {
          return;
        }
        rowLen := o.inflated.value;
      } else {
        rowLen := |h.rows|;
      }
      if tableMap.tableId == 0 {
        return;
      }
      // row_num is counted before the first row is parsed, so one row that fits is enough
      if rowLen >= MinRowBytes(t, h.ncols) {
        PublishEvent(tableMap.db, tableMap.tbl, RowsJson(RowsKind(t), txnId, tableMap.db, tableMap.tbl, o.body));
      }
    }

    /** The end of parse_event: the event is counted and a checkpoint saved when due. */
    method CountEvent()
      modifies this
      ensures State() == Cadence(old(State()), cfg)
    {
      eventsSinceSave := eventsSinceSave + 1;
      if cfg.saveLastPosition {
        if cfg.saveEventCount > 0 {
          if eventsSinceSave >= cfg.saveEventCount {
            SavePosition();
            eventsSinceSave := 0;
          }
        } else {
          SavePosition();
          eventsSinceSave := 0;
        }
      }
    }

    /** The column metadata of a captured table map, read by the metadata loop. */
    static method ReadColumns(types: seq<Byte>, block: seq<Byte>) returns (columns: seq<ColumnMeta>)
      ensures columns == ColumnMetadataFrom(types, block, 0, 0)
    {
      var meta, realTypes := ReadColumnMetadata(types, block);
      columns := seq(|types|, k requires 0 <= k < |types| reads meta, realTypes => ColumnMeta(meta[k], realTypes[k]));
    }

    /** parse_event: 0 for a dispatched event, -1 for a rejected packet. */
    method ParseEvent(buf: seq<Byte>, freshId: string, o: RowsInput) returns (rc: int)
      modifies this
      ensures rc == 0 || rc == -1
      ensures rc == -1 <==> EventStep(old(State()), cfg, buf, freshId, o).None?
      ensures rc == -1 ==> State() == old(State())
      ensures rc == 0 ==> State() == EventStep(old(State()), cfg, buf, freshId, o).value
    {
      var frame := EventFrameOf(buf, cfg.hasChecksum);
      if frame.None? {
        return -1;
      }
      DispatchFrame(frame.value, freshId, o);
      CountEvent();
      return 0;
    }
  }
}
