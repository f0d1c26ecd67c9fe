// The PostgreSQL streamer's state machine: the globals that stream_changes
// and the pgoutput message parsers update (the current LSN, the event
// counters, the transaction flag and id, the relation cache, the column
// indexes resolved into the table configuration), the content of the
// checkpoint file, the events handed to publish_event and the LSNs reported
// back in standby status updates. Each parser is a method of PgStreamer
// whose effect is stated by a step function on PgState; what the streamer
// promises is proved about the step functions.
module PgStream {
  import opened Wrappers
  import opened CText
  import opened CdcTypes
  import opened BinlogBytes
  import opened BinlogConfig
  import opened PgWire
  import opened PgLsn
  import opened PgFeedback
  import opened PgDecode
  import BinlogStream

  /** The settings of config_t that the message parsers consult. */
  datatype PgConfig = PgConfig(
    schemas: seq<DatabaseConfig>,
    saveLastPosition: bool,
    saveEventCount: nat,
    /** g_config.publisher_manager != NULL */
    hasPublishers: bool)

  /** pg_relation_t: names and attribute names are kept to 127 bytes. */
  datatype Relation = Relation(relid: nat, schema: string, name: string, attrs: seq<Attr>)

  datatype PgState = PgState(
    currentLsn: nat,
    eventsReceived: nat,
    eventsSinceSave: nat,
    txnId: string,
    inTransaction: bool,
    /** g_relations, newest first. */
    relations: seq<Relation>,
    /**
     * The `index` fields of a table configuration's columns, by the schema
     * and table name the configuration is found under.
     */
    columnIndexes: map<(string, string), seq<int>>,
    /** What save_position last wrote to the checkpoint file. */
    checkpoint: Option<string>,
    published: seq<CdcEvent>,
    /** The LSN of every standby status update sent successfully. */
    reports: seq<nat>,
    /** keep_running */
    running: bool)

  // ---------------------------------------------------------------------
  // The relation cache
  // ---------------------------------------------------------------------

  /** find_relation: the newest cached relation with that OID. */
  function FindRelation(rels: seq<Relation>, relid: nat): (r: Option<Relation>)
    ensures r.None? <==> forall i :: 0 <= i < |rels| ==> rels[i].relid != relid
    ensures r.Some? ==> exists i :: 0 <= i < |rels| && rels[i] == r.value && rels[i].relid == relid &&
                          forall j :: 0 <= j < i ==> rels[j].relid != relid
  {
    if rels == [] then None
    else if rels[0].relid == relid then Some(rels[0])
    else
      var r := FindRelation(rels[1..], relid);
      assert forall i :: 1 <= i < |rels| ==> rels[i] == rels[1..][i - 1];
      if r.Some? then
        var k :| 0 <= k < |rels[1..]| && rels[1..][k] == r.value && rels[1..][k].relid == relid &&
                 forall j :: 0 <= j < k ==> rels[1..][j].relid != relid;
        assert rels[k + 1] == r.value;
        r
      else r
  }

  /** add_relation puts the new entry in front, so it shadows an older one with the same OID. */
  lemma AddedRelationShadows(rels: seq<Relation>, rel: Relation, relid: nat)
    ensures FindRelation([rel] + rels, relid) == if rel.relid == relid then Some(rel) else FindRelation(rels, relid)
  {
    assert ([rel] + rels)[1..] == rels;
  }

  // ---------------------------------------------------------------------
  // Column selection
  // ---------------------------------------------------------------------

  /** The first attribute with that name, -1 when there is none. */
  function AttrIndex(attrs: seq<Attr>, name: string): (j: int)
    ensures -1 <= j < |attrs|
    ensures j == -1 <==> forall i :: 0 <= i < |attrs| ==> attrs[i].name != name
    ensures j >= 0 ==> attrs[j].name == name && forall i :: 0 <= i < j ==> attrs[i].name != name
  {
    if attrs == [] then -1
    else if attrs[0].name == name then 0
    else
      var r := AttrIndex(attrs[1..], name);
      assert forall i :: 1 <= i < |attrs| ==> attrs[i] == attrs[1..][i - 1];
      if r == -1 then -1 else r + 1
  }

  /** The index parse_relation_message resolves for every configured column. */
  function ResolveIndexes(columns: seq<string>, attrs: seq<Attr>): seq<int>
  {
    seq(|columns|, i requires 0 <= i < |columns| => AttrIndex(attrs, columns[i]))
  }

  /** should_include: column i of a tuple is written into the JSON. */
  predicate Included(i: nat, natts: nat, captureAll: bool, idx: seq<int>)
  {
    i < natts && (captureAll || i in idx)
  }

  /**
   * With a configured column list, a column of the relation is written
   * exactly when its name is configured and no earlier column has the same
   * name.
   */
  lemma IncludedIffConfiguredName(i: nat, columns: seq<string>, attrs: seq<Attr>)
    ensures Included(i, |attrs|, false, ResolveIndexes(columns, attrs)) <==>
              i < |attrs| && attrs[i].name in columns && AttrIndex(attrs, attrs[i].name) == i
  {
    var idx := ResolveIndexes(columns, attrs);
    if Included(i, |attrs|, false, idx) {
      var j :| 0 <= j < |idx| && idx[j] == i;
      assert attrs[i].name == columns[j];
    }
    if i < |attrs| && attrs[i].name in columns && AttrIndex(attrs, attrs[i].name) == i {
      var j :| 0 <= j < |columns| && columns[j] == attrs[i].name;
      assert idx[j] == i;
    }
  }

  /** The columns among the first n that are written, in column order. */
  function Selected(n: nat, natts: nat, captureAll: bool, idx: seq<int>): (sel: seq<nat>)
    ensures forall j :: 0 <= j < |sel| ==> sel[j] < n && sel[j] < natts
  {
    if n == 0 then []
    else
      var prefix := Selected(n - 1, natts, captureAll, idx);
      if Included(n - 1, natts, captureAll, idx) then prefix + [n - 1] else prefix
  }

  /** The written columns are exactly the included ones, each once, in increasing order. */
  lemma {:induction false} SelectedExactly(n: nat, natts: nat, captureAll: bool, idx: seq<int>)
    ensures forall j :: 0 <= j < |Selected(n, natts, captureAll, idx)| ==>
              Included(Selected(n, natts, captureAll, idx)[j], natts, captureAll, idx)
    ensures forall i :: 0 <= i < n && Included(i, natts, captureAll, idx) ==> i in Selected(n, natts, captureAll, idx)
    ensures forall j, k :: 0 <= j < k < |Selected(n, natts, captureAll, idx)| ==>
              Selected(n, natts, captureAll, idx)[j] < Selected(n, natts, captureAll, idx)[k]
  {
    if n > 0 {
      SelectedExactly(n - 1, natts, captureAll, idx);
    }
  }

  /** With every column captured, the written columns are all of those the relation describes. */
  lemma {:induction false} SelectedAll(n: nat, natts: nat, idx: seq<int>)
    ensures Selected(n, natts, true, idx) == seq(if n < natts then n else natts, i => i)
  {
    if n > 0 {
      SelectedAll(n - 1, natts, idx);
    }
  }

  // ---------------------------------------------------------------------
  // The event JSON
  // ---------------------------------------------------------------------

  /** Strings separated by commas, as the `first` flag of the column loops writes them. */
  function Join(ms: seq<string>): string
  {
    if ms == [] then ""
    else if |ms| == 1 then ms[0]
    else Join(ms[..|ms| - 1]) + "," + ms[|ms| - 1]
  }

  lemma JoinSnoc(ms: seq<string>, m: string)
    ensures Join(ms + [m]) == if ms == [] then m else Join(ms) + "," + m
  {
    assert (ms + [m])[..|ms + [m]| - 1] == ms;
  }

  /** The members of the selected columns: `"name":value` with the relation's name and type. */
  function MembersOf(cols: seq<ColumnValue>, attrs: seq<Attr>, sel: seq<nat>): seq<string>
    requires forall j :: 0 <= j < |sel| ==> sel[j] < |cols| && sel[j] < |attrs|
  {
    seq(|sel|, j requires 0 <= j < |sel| => ColumnJson(attrs[sel[j]].name, cols[sel[j]], attrs[sel[j]].typid))
  }

  /** The members of one row image: cols as decoded, attrs from the cached relation. */
  function RowMembers(cols: seq<ColumnValue>, attrs: seq<Attr>, captureAll: bool, idx: seq<int>): seq<string>
  {
    MembersOf(cols, attrs, Selected(|cols|, |attrs|, captureAll, idx))
  }

  /** The body of one row object. */
  function RowJson(cols: seq<ColumnValue>, attrs: seq<Attr>, captureAll: bool, idx: seq<int>): string
  {
    Join(RowMembers(cols, attrs, captureAll, idx))
  }

  /** The row body the column loop has written after its first i columns. */
  function RowPrefix(cols: seq<ColumnValue>, attrs: seq<Attr>, captureAll: bool, idx: seq<int>, i: nat): string
    requires i <= |cols|
  {
    if i == 0 then ""
    else
      var prefix := RowPrefix(cols, attrs, captureAll, idx, i - 1);
      if !Included(i - 1, |attrs|, captureAll, idx) then prefix
      else
        var member := ColumnJson(attrs[i - 1].name, cols[i - 1], attrs[i - 1].typid);
        if Selected(i - 1, |attrs|, captureAll, idx) == [] then member
        else prefix + "," + member
  }

  /** A column the loop includes adds its member after those of the columns before it. */
  lemma MembersStep(cols: seq<ColumnValue>, attrs: seq<Attr>, captureAll: bool, idx: seq<int>, i: nat)
    requires i < |cols| && Included(i, |attrs|, captureAll, idx)
    ensures MembersOf(cols, attrs, Selected(i + 1, |attrs|, captureAll, idx)) ==
              MembersOf(cols, attrs, Selected(i, |attrs|, captureAll, idx)) + [ColumnJson(attrs[i].name, cols[i], attrs[i].typid)]
  {
    var sel := Selected(i, |attrs|, captureAll, idx);
    var next := Selected(i + 1, |attrs|, captureAll, idx);
    assert next == sel + [i];
    assert |MembersOf(cols, attrs, next)| == |sel| + 1;
    forall j | 0 <= j < |sel|
      ensures MembersOf(cols, attrs, next)[j] == MembersOf(cols, attrs, sel)[j]
    {
      assert next[j] == sel[j];
    }
  }

  /** The loop step for a column that is written. */
  lemma RowPrefixStepIncluded(cols: seq<ColumnValue>, attrs: seq<Attr>, captureAll: bool, idx: seq<int>, i: nat)
    requires i < |cols| && Included(i, |attrs|, captureAll, idx)
    requires RowPrefix(cols, attrs, captureAll, idx, i) == Join(MembersOf(cols, attrs, Selected(i, |attrs|, captureAll, idx)))
    ensures RowPrefix(cols, attrs, captureAll, idx, i + 1) == Join(MembersOf(cols, attrs, Selected(i + 1, |attrs|, captureAll, idx)))
  {
    var member := ColumnJson(attrs[i].name, cols[i], attrs[i].typid);
    var ms := MembersOf(cols, attrs, Selected(i, |attrs|, captureAll, idx));
    MembersStep(cols, attrs, captureAll, idx, i);
    JoinSnoc(ms, member);
  }

  /** The loop step for a column that is skipped. */
  lemma RowPrefixStepSkipped(cols: seq<ColumnValue>, attrs: seq<Attr>, captureAll: bool, idx: seq<int>, i: nat)
    requires i < |cols| && !Included(i, |attrs|, captureAll, idx)
    requires RowPrefix(cols, attrs, captureAll, idx, i) == Join(MembersOf(cols, attrs, Selected(i, |attrs|, captureAll, idx)))
    ensures RowPrefix(cols, attrs, captureAll, idx, i + 1) == Join(MembersOf(cols, attrs, Selected(i + 1, |attrs|, captureAll, idx)))
  {
    assert Selected(i + 1, |attrs|, captureAll, idx) == Selected(i, |attrs|, captureAll, idx);
  }

  /** What the column loop has written is the comma-joined members of the columns it selected so far. */
  lemma {:induction false} RowPrefixJoins(cols: seq<ColumnValue>, attrs: seq<Attr>, captureAll: bool, idx: seq<int>, i: nat)
    requires i <= |cols|
    ensures RowPrefix(cols, attrs, captureAll, idx, i) == Join(MembersOf(cols, attrs, Selected(i, |attrs|, captureAll, idx)))
  {
    if i == 0 {
      assert MembersOf(cols, attrs, []) == [];
    } else {
      RowPrefixJoins(cols, attrs, captureAll, idx, i - 1);
      if Included(i - 1, |attrs|, captureAll, idx) {
        RowPrefixStepIncluded(cols, attrs, captureAll, idx, i - 1);
      } else {
        RowPrefixStepSkipped(cols, attrs, captureAll, idx, i - 1);
      }
    }
  }

  /**
   * With every column captured, a row has one member per column the tuple
   * and the relation both have, in order, each with that column's name and
   * formatted value.
   */
  lemma RowMembersCaptureAll(cols: seq<ColumnValue>, attrs: seq<Attr>, idx: seq<int>)
    ensures var n := if |cols| < |attrs| then |cols| else |attrs|;
            var ms := RowMembers(cols, attrs, true, idx);
            |ms| == n && forall i :: 0 <= i < n ==> ms[i] == ColumnJson(attrs[i].name, cols[i], attrs[i].typid)
  {
    SelectedAll(|cols|, |attrs|, idx);
  }

  /**
   * With a configured column list, the members are those of the configured
   * names the relation has, in the relation's column order.
   */
  lemma RowMembersConfigured(cols: seq<ColumnValue>, attrs: seq<Attr>, columns: seq<string>)
    ensures var sel := Selected(|cols|, |attrs|, false, ResolveIndexes(columns, attrs));
            var ms := RowMembers(cols, attrs, false, ResolveIndexes(columns, attrs));
            |ms| == |sel| &&
            (forall j :: 0 <= j < |sel| ==>
               attrs[sel[j]].name in columns && ms[j] == ColumnJson(attrs[sel[j]].name, cols[sel[j]], attrs[sel[j]].typid)) &&
            (forall i :: 0 <= i < |cols| && i < |attrs| && attrs[i].name in columns && AttrIndex(attrs, attrs[i].name) == i
                ==> i in sel)
  {
    var idx := ResolveIndexes(columns, attrs);
    var sel := Selected(|cols|, |attrs|, false, idx);
    SelectedExactly(|cols|, |attrs|, false, idx);
    forall j | 0 <= j < |sel|
      ensures attrs[sel[j]].name in columns
    {
      IncludedIffConfiguredName(sel[j], columns, attrs);
    }
    forall i | 0 <= i < |cols| && i < |attrs| && attrs[i].name in columns && AttrIndex(attrs, attrs[i].name) == i
      ensures i in sel
    {
      IncludedIffConfiguredName(i, columns, attrs);
    }
  }

  function Quoted(s: string): string
  {
    "\"" + s + "\""
  }

  /** append_primary_key_metadata: nothing for a table without primary keys. */
  function PrimaryKeyJson(pks: seq<string>): string
  {
    if pks == [] then ""
    else ",\"primary_key\":[" + Join(seq(|pks|, i requires 0 <= i < |pks| => Quoted(pks[i]))) + "]"
  }

  datatype DmlKind = Insert | Update | Delete

  function DmlName(kind: DmlKind): string
  {
    match kind
    case Insert => "INSERT"
    case Update => "UPDATE"
    case Delete => "DELETE"
  }

  /** The head every row event starts with. */
  function EventHead(kind: DmlKind, txn: string, rel: Relation): string
  {
    "{\"type\":" + Quoted(DmlName(kind)) + ",\"txn\":" + Quoted(txn) + ",\"schema\":" + Quoted(rel.schema) +
    ",\"table\":" + Quoted(rel.name)
  }

  /**
   * The event of one INSERT, UPDATE or DELETE: the head, the primary keys,
   * then one row object. An UPDATE row holds a "before" object when the
   * message carried an old tuple, and always an "after" object.
   */
  function DmlJson(kind: DmlKind, txn: string, rel: Relation, tbl: TableConfig, idx: seq<int>, change: RowChange): string
  {
    var after := RowJson(change.after, rel.attrs, tbl.captureAllColumns, idx);
    EventHead(kind, txn, rel) + PrimaryKeyJson(tbl.primaryKeys) + ",\"rows\":[{" +
    if kind == Update then
      (if change.before.Some? then "\"before\":{" + RowJson(change.before.value, rel.attrs, tbl.captureAllColumns, idx) + "},"
       else "") +
      "\"after\":{" + after + "}}]}"
    else after + "}]}"
  }

  // ---------------------------------------------------------------------
  // Step functions
  // ---------------------------------------------------------------------

  /**
   * publish_event: the event carries the current transaction id and LSN and
   * an empty binlog file name; without a publisher manager nothing is
   * handed on.
   */
  function Publish(s: PgState, cfg: PgConfig, schema: string, table: string, json: string): PgState
  {
    if cfg.hasPublishers then
      s.(published := s.published + [CdcEvent(Some(schema), Some(table), Some(json), Some(s.txnId), s.currentLsn, Some(""))])
    else s
  }

  /**
   * The column indexes a table configuration holds: those the last captured
   * RELATION for it resolved, or the -1 entries load_config sets up.
   */
  function IndexesOf(s: PgState, tbl: TableConfig, schema: string, name: string): seq<int>
  {
    if (schema, name) in s.columnIndexes then s.columnIndexes[(schema, name)]
    else seq(|tbl.columns|, _ => -1)
  }

  /** The relation and table configuration a row event is captured for, if any. */
  function DmlTarget(s: PgState, cfg: PgConfig, relid: nat): Option<(Relation, TableConfig)>
  {
    match FindRelation(s.relations, relid)
    case None => None
    case Some(rel) =>
      if !ShouldCaptureDml(cfg.schemas, rel.schema) then None
      else
        match FindTableConfig(cfg.schemas, rel.schema, rel.name)
        case None => None
        case Some(tbl) => Some((rel, tbl))
  }

  /** The row images at k of an INSERT or DELETE (one tuple) or an UPDATE. */
  function RowChangeAt(kind: DmlKind, p: seq<Byte>, k: nat): Option<RowChange>
  {
    if kind == Update then UpdateTuplesAtAsWritten(p, k)
    else
      match TupleAt(p, k)
      case None => None
      case Some(t) => Some(RowChange(None, t.value))
  }

  /**
   * parse_insert_message, parse_update_message, parse_delete_message on the
   * body at k. None when the bytes it would read are missing; an unknown or
   * uncaptured relation changes nothing.
   */
  function DmlStep(s: PgState, cfg: PgConfig, kind: DmlKind, p: seq<Byte>, k: nat): Option<PgState>
  {
    if |p| < k + 4 then None
    else
      match DmlTarget(s, cfg, BeAt(p, k, 4))
      case None => Some(s)
      case Some((rel, tbl)) =>
        match RowChangeAt(kind, p, k + 4)
        case None => None
        case Some(change) => Some(PublishRow(s, cfg, kind, rel, tbl, change))
  }

  /** The end of a row event's parser: its JSON is published and the event counted. */
  function PublishRow(s: PgState, cfg: PgConfig, kind: DmlKind, rel: Relation, tbl: TableConfig, change: RowChange): PgState
  {
    var json := DmlJson(kind, s.txnId, rel, tbl, IndexesOf(s, tbl, rel.schema, rel.name), change);
    var s1 := Publish(s, cfg, rel.schema, rel.name, json);
    s1.(eventsSinceSave := s1.eventsSinceSave + 1)
  }

  /**
   * parse_relation_message after the body is decoded: a captured table is
   * cached (names cut to 127 bytes) and its configured columns resolved.
   */
  function RelationStep(s: PgState, cfg: PgConfig, m: RelationMsg): PgState
  {
    match FindTableConfig(cfg.schemas, m.schema, m.name)
    case None => s
    case Some(tbl) =>
      var idx := if tbl.captureAllColumns then seq(|m.attrs|, i => i) else ResolveIndexes(tbl.columns, m.attrs);
      s.(relations := [Relation(m.relid, Truncate127(m.schema), Truncate127(m.name), m.attrs)] + s.relations,
         columnIndexes := s.columnIndexes[(m.schema, m.name) := idx])
  }

  /** parse_begin_message: a fresh transaction id (generate_txn_id). */
  function BeginStep(s: PgState, freshId: string): PgState
  {
    s.(txnId := freshId, inTransaction := true)
  }

  /**
   * parse_commit_message: the current LSN moves to the commit's end LSN,
   * the transaction ends, and with saving on a checkpoint is written when
   * enough row events were counted (always, for a count of 0).
   */
  function CommitStep(s: PgState, cfg: PgConfig, endLsn: nat): PgState
  {
    var s1 := s.(currentLsn := endLsn, inTransaction := false, txnId := []);
    if cfg.saveLastPosition && (cfg.saveEventCount == 0 || s1.eventsSinceSave >= cfg.saveEventCount) then
      s1.(checkpoint := Some(CheckpointText(endLsn)), eventsSinceSave := 0)
    else s1
  }

  /**
   * The switch of stream_changes on the pgoutput message type at k, with
   * the body from k + 1; any other type is ignored.
   */
  function MessageStep(s: PgState, cfg: PgConfig, p: seq<Byte>, k: nat, freshId: string): Option<PgState>
    requires k < |p|
  {
    var t := p[k];
    if t == 'B' as int then (if |p| < k + 21 then None else Some(BeginStep(s, freshId)))
    else if t == 'C' as int then (if |p| < k + 26 then None else Some(CommitStep(s, cfg, BeAt(p, k + 10, 8))))
    else if t == 'R' as int then
      match RelationAt(p, k + 1)
      case None => None
      case Some(m) => Some(RelationStep(s, cfg, m.value))
    else if t == 'I' as int then DmlStep(s, cfg, Insert, p, k + 1)
    else if t == 'U' as int then DmlStep(s, cfg, Update, p, k + 1)
    else if t == 'D' as int then DmlStep(s, cfg, Delete, p, k + 1)
    else Some(s)
  }

  /** A standby status update: its LSN is recorded when sent, and a failure stops the loop. */
  function StatusStep(s: PgState, sent: bool): PgState
  {
    if sent then s.(reports := s.reports + [s.currentLsn]) else s.(running := false)
  }

  /** An XLogData buffer: the header, then the pgoutput message at offset 25. */
  function XLogDataStep(s: PgState, cfg: PgConfig, buf: seq<Byte>, freshId: string): Option<PgState>
  {
    if |buf| < 26 then None
    else MessageStep(s.(currentLsn := BeAt(buf, 9, 8), eventsReceived := s.eventsReceived + 1), cfg, buf, 25, freshId)
  }

  /** A primary keepalive buffer: byte 17 asks for an immediate reply. */
  function KeepaliveStep(s: PgState, buf: seq<Byte>, sent: bool): Option<PgState>
  {
    if |buf| < 18 then None
    else if buf[17] == 0 then Some(s)
    else Some(StatusStep(s, sent))
  }

  /**
   * One CopyData buffer of the drain loop. XLogData ('w'): the current LSN
   * becomes the message's end LSN (offset 9), the event is counted, and the
   * pgoutput message at offset 25 is dispatched. Keepalive ('k'): a status
   * update is sent when the reply byte at offset 17 is set (`sent` is
   * whether send_status_update succeeded). Anything else is ignored. None
   * when the bytes read are missing.
   */
  function CopyDataStep(s: PgState, cfg: PgConfig, buf: seq<Byte>, freshId: string, sent: bool): Option<PgState>
  {
    if buf == [] then None
    else if buf[0] == 'w' as int then XLogDataStep(s, cfg, buf, freshId)
    else if buf[0] == 'k' as int then KeepaliveStep(s, buf, sent)
    else Some(s)
  }

  // ---------------------------------------------------------------------
  // Properties
  // ---------------------------------------------------------------------

  /** An 8-byte read is a 64-bit value. */
  lemma BeAt8Bound(p: seq<Byte>, k: nat)
    requires k + 8 <= |p|
    ensures BeAt(p, k, 8) < 0x1_0000_0000_0000_0000
  {
    BeAtIsBeValue(p, k, 8);
    assert p[k..][..8] == p[k..k + 8];
    var _ := Be64(p[k..]);
  }

  /** A transaction in progress always has an id. */
  predicate TxnIdSet(s: PgState)
  {
    s.inTransaction ==> BinlogStream.IsTxnId(s.txnId)
  }

  /** The current LSN is a 64-bit value and the checkpoint file, once written, can be restored. */
  predicate Valid(s: PgState)
  {
    TxnIdSet(s) && s.currentLsn < 0x1_0000_0000_0000_0000 &&
    (s.checkpoint.Some? ==> RestorePosition(true, s.checkpoint).Some?)
  }

  /** The state main hands to stream_changes: current_lsn is the start LSN. */
  function Initial(startLsn: nat): PgState
  {
    PgState(startLsn, 0, 0, [], false, [], map[], None, [], [], true)
  }

  lemma InitialValid(startLsn: nat)
    requires startLsn < 0x1_0000_0000_0000_0000
    ensures Valid(Initial(startLsn))
  {
  }

  /** `after` is `before` with at most one event appended, stamped with lsn and txn. */
  predicate AppendsAt(before: seq<CdcEvent>, after: seq<CdcEvent>, lsn: nat, txn: string)
  {
    |before| <= |after| <= |before| + 1 && after[..|before|] == before &&
    forall i :: |before| <= i < |after| ==> after[i].position == lsn && after[i].txn == Some(txn) &&
                                            after[i].binlogFile == Some("")
  }

  /**
   * A row event is captured exactly for a cached relation whose schema
   * captures DML and whose table is configured.
   */
  lemma DmlTargetSpec(s: PgState, cfg: PgConfig, relid: nat)
    ensures DmlTarget(s, cfg, relid).Some? <==>
              FindRelation(s.relations, relid).Some? &&
              ShouldCaptureDml(cfg.schemas, FindRelation(s.relations, relid).value.schema) &&
              ShouldCaptureTable(cfg.schemas, FindRelation(s.relations, relid).value.schema,
                                 FindRelation(s.relations, relid).value.name)
    ensures DmlTarget(s, cfg, relid).Some? ==>
              DmlTarget(s, cfg, relid).value.0 == FindRelation(s.relations, relid).value &&
              Some(DmlTarget(s, cfg, relid).value.1) ==
                FindTableConfig(cfg.schemas, DmlTarget(s, cfg, relid).value.0.schema, DmlTarget(s, cfg, relid).value.0.name)
  {
  }

  /**
   * A row event publishes at most one event, at the current LSN under the
   * current transaction id, and counts itself; an unknown or uncaptured
   * relation changes nothing.
   */
  lemma DmlStepEffect(s: PgState, cfg: PgConfig, kind: DmlKind, p: seq<Byte>, k: nat)
    requires DmlStep(s, cfg, kind, p, k).Some?
    ensures var t := DmlStep(s, cfg, kind, p, k).value;
            AppendsAt(s.published, t.published, s.currentLsn, s.txnId) &&
            t == s.(published := t.published, eventsSinceSave := t.eventsSinceSave) &&
            (DmlTarget(s, cfg, BeAt(p, k, 4)).None? ==> t == s) &&
            (DmlTarget(s, cfg, BeAt(p, k, 4)).Some? ==>
               t.eventsSinceSave == s.eventsSinceSave + 1 && (|t.published| == |s.published| + 1 <==> cfg.hasPublishers))
  {
    var target := DmlTarget(s, cfg, BeAt(p, k, 4));
    if target.Some? {
      var (rel, tbl) := target.value;
      PublishRowEffect(s, cfg, kind, rel, tbl, RowChangeAt(kind, p, k + 4).value);
    }
  }

  lemma PublishRowEffect(s: PgState, cfg: PgConfig, kind: DmlKind, rel: Relation, tbl: TableConfig, change: RowChange)
    ensures var t := PublishRow(s, cfg, kind, rel, tbl, change);
            AppendsAt(s.published, t.published, s.currentLsn, s.txnId) &&
            t == s.(published := t.published, eventsSinceSave := s.eventsSinceSave + 1) &&
            (|t.published| == |s.published| + 1 <==> cfg.hasPublishers)
  {
  }

  /**
   * An INSERT or DELETE of a captured relation whose tuple was written at
   * k + 4 publishes that row: the decoded columns are exactly the written
   * ones.
   */
  lemma SingleRowPublished(s: PgState, cfg: PgConfig, kind: DmlKind, p: seq<Byte>, k: nat,
                           tupleKind: Byte, cols: seq<ColumnValue>)
    requires kind != Update
    requires k + 4 <= |p| && DmlTarget(s, cfg, BeAt(p, k, 4)).Some?
    requires TupleWritten(p, k + 4, tupleKind, cols)
    ensures var (rel, tbl) := DmlTarget(s, cfg, BeAt(p, k, 4)).value;
            DmlStep(s, cfg, kind, p, k) == Some(PublishRow(s, cfg, kind, rel, tbl, RowChange(None, cols)))
  {
    TupleReadsBack(p, k + 4, tupleKind, cols);
  }

  /** An UPDATE with an old key or row publishes both the written old and new rows. */
  lemma UpdatePublishesBothRows(s: PgState, cfg: PgConfig, p: seq<Byte>, k: nat,
                                oldKind: Byte, before: seq<ColumnValue>, after: seq<ColumnValue>)
    requires k + 4 <= |p| && DmlTarget(s, cfg, BeAt(p, k, 4)).Some?
    requires oldKind == 'K' as int || oldKind == 'O' as int
    requires TupleWritten(p, k + 4, oldKind, before)
    requires TupleWritten(p, k + 4 + 3 + ColumnsSize(before), 'N' as int as Byte, after)
    ensures var (rel, tbl) := DmlTarget(s, cfg, BeAt(p, k, 4)).value;
            DmlStep(s, cfg, Update, p, k) == Some(PublishRow(s, cfg, Update, rel, tbl, RowChange(Some(before), after)))
  {
    UpdateReadsBothRows(p, k + 4, oldKind, before, after);
    UpdateAsWrittenWithOldTuple(p, k + 4);
  }

  /**
   * An UPDATE without an old tuple, as parse_update_message is written: its
   * first byte is consumed as the old tuple's type, so the new row is the
   * tuple that starts one byte later, published with no "before" object.
   */
  lemma UpdateWithoutOldTupleAsWritten(s: PgState, cfg: PgConfig, p: seq<Byte>, k: nat,
                                       tupleKind: Byte, after: seq<ColumnValue>)
    requires k + 5 <= |p| && DmlTarget(s, cfg, BeAt(p, k, 4)).Some?
    requires p[k + 4] != 'K' as int && p[k + 4] != 'O' as int
    requires TupleWritten(p, k + 5, tupleKind, after)
    ensures var (rel, tbl) := DmlTarget(s, cfg, BeAt(p, k, 4)).value;
            DmlStep(s, cfg, Update, p, k) == Some(PublishRow(s, cfg, Update, rel, tbl, RowChange(None, after)))
  {
    TupleReadsBack(p, k + 5, tupleKind, after);
  }

  /**
   * A RELATION for a configured table makes it the target of the row
   * events that follow (when its schema captures DML and the names fit the
   * 127-byte fields), with the column indexes resolved from this message;
   * one for another table changes nothing.
   */
  lemma RelationRegistersTarget(s: PgState, cfg: PgConfig, m: RelationMsg)
    ensures !ShouldCaptureTable(cfg.schemas, m.schema, m.name) ==> RelationStep(s, cfg, m) == s
    ensures ShouldCaptureTable(cfg.schemas, m.schema, m.name) && ShouldCaptureDml(cfg.schemas, m.schema) &&
            |m.schema| <= 127 && |m.name| <= 127 ==>
              var t := RelationStep(s, cfg, m);
              var tbl := FindTableConfig(cfg.schemas, m.schema, m.name).value;
              DmlTarget(t, cfg, m.relid) == Some((Relation(m.relid, m.schema, m.name, m.attrs), tbl)) &&
              IndexesOf(t, tbl, m.schema, m.name) ==
                (if tbl.captureAllColumns then seq(|m.attrs|, i => i) else ResolveIndexes(tbl.columns, m.attrs))
  {
    if ShouldCaptureTable(cfg.schemas, m.schema, m.name) {
      AddedRelationShadows(s.relations, Relation(m.relid, Truncate127(m.schema), Truncate127(m.name), m.attrs), m.relid);
    }
  }

  /**
   * COMMIT ends the transaction and moves the current LSN to the commit's
   * end LSN. With saving on, a checkpoint is written exactly when the
   * count is 0 or reached; it restores to that end LSN and the counter
   * restarts. Nothing is published.
   */
  lemma CommitCheckpoints(s: PgState, cfg: PgConfig, endLsn: nat)
    requires endLsn < 0x1_0000_0000_0000_0000
    ensures var t := CommitStep(s, cfg, endLsn);
            var due := cfg.saveLastPosition && (cfg.saveEventCount == 0 || s.eventsSinceSave >= cfg.saveEventCount);
            t.currentLsn == endLsn && !t.inTransaction && t.txnId == [] && t.published == s.published &&
            (due ==> RestorePosition(true, t.checkpoint) == Some(endLsn) && t.eventsSinceSave == 0) &&
            (!due ==> t.checkpoint == s.checkpoint && t.eventsSinceSave == s.eventsSinceSave)
  {
    CheckpointRoundTrip(endLsn);
  }

  /** Every pgoutput message keeps the invariant, given a well-formed fresh id. */
  lemma MessageStepKeepsValid(s: PgState, cfg: PgConfig, p: seq<Byte>, k: nat, freshId: string)
    requires k < |p| && Valid(s) && BinlogStream.IsTxnId(freshId)
    requires MessageStep(s, cfg, p, k, freshId).Some?
    ensures Valid(MessageStep(s, cfg, p, k, freshId).value)
    ensures AppendsAt(s.published, MessageStep(s, cfg, p, k, freshId).value.published, s.currentLsn, s.txnId)
  {
    var t := p[k];
    if t == 'C' as int {
      BeAt8Bound(p, k + 10);
      CommitCheckpoints(s, cfg, BeAt(p, k + 10, 8));
    } else if t == 'I' as int {
      DmlStepEffect(s, cfg, Insert, p, k + 1);
    } else if t == 'U' as int {
      DmlStepEffect(s, cfg, Update, p, k + 1);
    } else if t == 'D' as int {
      DmlStepEffect(s, cfg, Delete, p, k + 1);
    }
  }

  /**
   * Every CopyData buffer keeps the invariant. An XLogData buffer publishes
   * at most one event, stamped with the buffer's end LSN; nothing else
   * publishes.
   */
  lemma CopyDataKeepsValid(s: PgState, cfg: PgConfig, buf: seq<Byte>, freshId: string, sent: bool)
    requires Valid(s) && BinlogStream.IsTxnId(freshId)
    requires CopyDataStep(s, cfg, buf, freshId, sent).Some?
    ensures Valid(CopyDataStep(s, cfg, buf, freshId, sent).value)
    ensures buf[0] == 'w' as int ==>
              AppendsAt(s.published, CopyDataStep(s, cfg, buf, freshId, sent).value.published, BeAt(buf, 9, 8), s.txnId)
    ensures buf[0] != 'w' as int ==> CopyDataStep(s, cfg, buf, freshId, sent).value.published == s.published
  {
    if buf[0] == 'w' as int {
      BeAt8Bound(buf, 9);
      var s0 := s.(currentLsn := BeAt(buf, 9, 8), eventsReceived := s.eventsReceived + 1);
      assert CopyDataStep(s, cfg, buf, freshId, sent) == MessageStep(s0, cfg, buf, 25, freshId);
      MessageStepKeepsValid(s0, cfg, buf, 25, freshId);
    }
  }

  /**
   * A keepalive asking for a reply reports the current LSN when the status
   * update goes out, and stops the loop when it does not; one not asking
   * changes nothing.
   */
  lemma KeepaliveReply(s: PgState, cfg: PgConfig, buf: seq<Byte>, freshId: string, sent: bool)
    requires |buf| >= 18 && buf[0] == 'k' as int
    ensures var t := CopyDataStep(s, cfg, buf, freshId, sent).value;
            if buf[17] == 0 then t == s
            else if sent then t == s.(reports := s.reports + [s.currentLsn])
            else t == s.(running := false)
  {
  }

  /** After streaming ends, main saves the current LSN, and a restart resumes from it. */
  function Finish(s: PgState, cfg: PgConfig): PgState
  {
    if cfg.saveLastPosition then s.(checkpoint := Some(CheckpointText(s.currentLsn))) else s
  }

  lemma FinishResumesAtCurrentLsn(s: PgState, cfg: PgConfig)
    requires Valid(s) && cfg.saveLastPosition
    ensures RestorePosition(true, Finish(s, cfg).checkpoint) == Some(s.currentLsn)
  {
    CheckpointRoundTrip(s.currentLsn);
  }

  /**
   * The periodic status update at the end of each pass of stream_changes:
   * due 10 seconds after the last one; a failure leaves the loop (`true`),
   * a success records the report and the new time of the last status.
   */
  function PeriodicStep(s: PgState, now: int, lastStatus: int, sent: bool): (PgState, bool, int)
  {
    if now - lastStatus < 10 then (s, false, lastStatus)
    else if sent then (s.(reports := s.reports + [s.currentLsn]), false, now)
    else (s, true, lastStatus)
  }

  /**
   * The loop reports the current LSN at most once per 10 seconds of its
   * clock, and exactly when one is due and goes out.
   */
  lemma PeriodicStatusCadence(s: PgState, now: int, lastStatus: int, sent: bool)
    ensures var (t, stop, last) := PeriodicStep(s, now, lastStatus, sent);
            (last != lastStatus ==> last == now && now - lastStatus >= 10) &&
            (t.reports != s.reports <==> now - lastStatus >= 10 && sent) &&
            (t.reports != s.reports ==> t.reports == s.reports + [s.currentLsn] && last == now) &&
            (stop <==> now - lastStatus >= 10 && !sent) &&
            t == s.(reports := t.reports)
  {
    if now - lastStatus >= 10 && sent {
      assert |s.reports + [s.currentLsn]| != |s.reports|;
    }
  }

  // ---------------------------------------------------------------------
  // The globals
  // ---------------------------------------------------------------------

  class PgStreamer {
    const cfg: PgConfig
    var currentLsn: nat
    var eventsReceived: nat
    var eventsSinceSave: nat
    var txnId: string
    var inTransaction: bool
    var relations: seq<Relation>
    var columnIndexes: map<(string, string), seq<int>>
    var checkpoint: Option<string>
    var published: seq<CdcEvent>
    var reports: seq<nat>
    var running: bool

    function State(): PgState
      reads this
    {
      PgState(currentLsn, eventsReceived, eventsSinceSave, txnId, inTransaction, relations, columnIndexes,
              checkpoint, published, reports, running)
    }

    /** The globals when main calls stream_changes: current_lsn is the start LSN. */
    constructor (c: PgConfig, startLsn: nat)
      ensures cfg == c && State() == Initial(startLsn)
    {
      cfg := c;
      currentLsn := startLsn;
      eventsReceived := 0;
      eventsSinceSave := 0;
      txnId := [];
      inTransaction := false;
      relations := [];
      columnIndexes := map[];
      checkpoint := None;
      published := [];
      reports := [];
      running := true;
    }

    /** find_relation: walks the cache from the newest entry. */
    method LookupRelation(relid: nat) returns (r: Option<Relation>)
      ensures r == FindRelation(relations, relid)
    {
      var i := 0;
      assert relations[i..] == relations;
      while i < |relations|
        invariant i <= |relations|
        invariant FindRelation(relations[i..], relid) == FindRelation(relations, relid)
      {
        if relations[i].relid == relid {
          return Some(relations[i]);
        }
        assert relations[i..][1..] == relations[i + 1..];
        i := i + 1;
      }
      return None;
    }

    /** add_relation */
    method AddRelation(rel: Relation)
      modifies this
      ensures State() == old(State()).(relations := [rel] + old(relations))
    {
      relations := [rel] + relations;
    }

    method PublishEvent(schema: string, table: string, json: string)
      modifies this
      ensures State() == Publish(old(State()), cfg, schema, table, json)
    {
      if !cfg.hasPublishers {
        return;
      }
      published := published + [CdcEvent(Some(schema), Some(table), Some(json), Some(txnId), currentLsn, Some(""))];
    }

    /** save_position: "%lX/%lX\n" into the checkpoint file, when saving is on. */
    method SavePosition(lsn: nat)
      modifies this
      ensures State() == if cfg.saveLastPosition then old(State()).(checkpoint := Some(CheckpointText(lsn))) else old(State())
    {
      if !cfg.saveLastPosition {
        return;
      }
      checkpoint := Some(CheckpointText(lsn));
    }

    /** The name-matching loops of parse_relation_message for a configured column list. */
    static method ResolveColumnIndexes(columns: seq<string>, attrs: seq<Attr>) returns (idx: seq<int>)
      ensures idx == ResolveIndexes(columns, attrs)
    {
      idx := [];
      var i := 0;
      while i < |columns|
        invariant i <= |columns| && |idx| == i
        invariant forall c :: 0 <= c < i ==> idx[c] == AttrIndex(attrs, columns[c])
      {
        var index := -1;
        var j := 0;
        while j < |attrs|
          invariant j <= |attrs| && index == -1
          invariant forall a :: 0 <= a < j ==> attrs[a].name != columns[i]
        {
          if attrs[j].name == columns[i] {
            index := j;
            break;
          }
          j := j + 1;
        }
        assert index == AttrIndex(attrs, columns[i]);
        idx := idx + [index];
        i := i + 1;
      }
    }

    /** The index loop of parse_relation_message when every column is captured. */
    static method AllIndexes(n: nat) returns (idx: seq<int>)
      ensures idx == seq(n, i => i)
    {
      idx := [];
      var i := 0;
      while i < n
        invariant i <= n && idx == seq(i, c => c)
      {
        idx := idx + [i];
        i := i + 1;
      }
    }

    /** parse_relation_message on the body at k. */
    method ParseRelation(p: seq<Byte>, k: nat) returns (ok: bool)
      modifies this
      ensures ok <==> RelationAt(p, k).Some?
      ensures ok ==> State() == RelationStep(old(State()), cfg, RelationAt(p, k).value.value)
      ensures !ok ==> State() == old(State())
    {
      var decoded := RelationAt(p, k);
      if decoded.None? {
        return false;
      }
      var m := decoded.value.value;
      var tbl := FindTableConfig(cfg.schemas, m.schema, m.name);
      if tbl.None? {
        // should_capture_table: the attributes are skipped
        return true;
      }
      var idx;
      if tbl.value.captureAllColumns {
        idx := AllIndexes(|m.attrs|);
      } else {
        idx := ResolveColumnIndexes(tbl.value.columns, m.attrs);
      }
      columnIndexes := columnIndexes[(m.schema, m.name) := idx];
      AddRelation(Relation(m.relid, Truncate127(m.schema), Truncate127(m.name), m.attrs));
      return true;
    }

    /** The fields of a BEGIN body at k, read and ignored: final LSN, commit time, xid. */
    static method ReadBegin(p: seq<Byte>, k: nat)
      requires k + 20 <= |p|
    {
      var cursor := new Cursor(p, k);
      var finalLsn := cursor.GetInt64();
      var commitTime := cursor.GetInt64();
      var xid := cursor.GetInt32();
    }

    /** parse_begin_message on the body at k. */
    method ParseBegin(p: seq<Byte>, k: nat, freshId: string)
      requires k + 20 <= |p|
      modifies this
      ensures State() == BeginStep(old(State()), freshId)
    {
      ReadBegin(p, k);
      txnId := freshId;
      inTransaction := true;
    }

    /** The end LSN of a COMMIT body at k: flags, commit LSN, end LSN, commit time. */
    static method ReadCommitEndLsn(p: seq<Byte>, k: nat) returns (endLsn: nat)
      requires k + 25 <= |p|
      ensures endLsn == BeAt(p, k + 9, 8)
    {
      var cursor := new Cursor(p, k);
      var flags := cursor.GetByte();
      var commitLsn := cursor.GetInt64();
      endLsn := cursor.GetInt64();
      var commitTime := cursor.GetInt64();
      BeAtIsBeValue(p, k + 9, 8);
    }

    /** parse_commit_message on the body at k. */
    method ParseCommit(p: seq<Byte>, k: nat)
      requires k + 25 <= |p|
      modifies this
      ensures State() == CommitStep(old(State()), cfg, BeAt(p, k + 9, 8))
    {
      var endLsn := ReadCommitEndLsn(p, k);
      currentLsn := endLsn;
      inTransaction := false;
      txnId := [];
      if cfg.saveLastPosition {
        if cfg.saveEventCount > 0 {
          if eventsSinceSave >= cfg.saveEventCount {
            SavePosition(currentLsn);
            eventsSinceSave := 0;
          }
        } else {
          SavePosition(currentLsn);
          eventsSinceSave := 0;
        }
      }
    }

    /** The inner loop of should_include: some configured column resolved to index i. */
    static method IndexListed(idx: seq<int>, i: int) returns (listed: bool)
      ensures listed <==> i in idx
    {
      var j := 0;
      while j < |idx|
        invariant j <= |idx| && forall c :: 0 <= c < j ==> idx[c] != i
      {
        if idx[j] == i {
          return true;
        }
        j := j + 1;
      }
      return false;
    }

    /** One member written by a column loop: a comma first unless it is the first member. */
    static method AppendMember(json: string, first: bool, member: string) returns (out: string)
      ensures out == if first then member else json + "," + member
    {
      if first {
        out := member;
      } else {
        out := json + "," + member;
      }
    }

    /** The column loop of a row image: included columns, comma-separated by the `first` flag. */
    static method BuildRow(cols: seq<ColumnValue>, attrs: seq<Attr>, captureAll: bool, idx: seq<int>)
      returns (json: string)
      ensures json == RowJson(cols, attrs, captureAll, idx)
    {
      json := "";
      var first := true;
      var i := 0;
      while i < |cols|
        invariant i <= |cols|
        invariant json == RowPrefix(cols, attrs, captureAll, idx, i)
        invariant first == (Selected(i, |attrs|, captureAll, idx) == [])
      {
        var included := false;
        if i < |attrs| {
          if captureAll {
            included := true;
          } else {
            included := IndexListed(idx, i);
          }
        }
        assert included == Included(i, |attrs|, captureAll, idx);
        assert Selected(i + 1, |attrs|, captureAll, idx) == [] <==>
                 Selected(i, |attrs|, captureAll, idx) == [] && !included;
        if included {
          json := AppendMember(json, first, ColumnJson(attrs[i].name, cols[i], attrs[i].typid));
          first := false;
        }
        i := i + 1;
      }
      RowPrefixJoins(cols, attrs, captureAll, idx, |cols|);
    }

    /** append_primary_key_metadata */
    static method PrimaryKeyMetadata(pks: seq<string>) returns (out: string)
      ensures out == PrimaryKeyJson(pks)
    {
      if |pks| == 0 {
        return "";
      }
      ghost var quoted := seq(|pks|, i requires 0 <= i < |pks| => Quoted(pks[i]));
      var list := "";
      var i := 0;
      while i < |pks|
        invariant i <= |pks| && list == Join(quoted[..i])
      {
        assert quoted[..i + 1] == quoted[..i] + [Quoted(pks[i])];
        JoinSnoc(quoted[..i], Quoted(pks[i]));
        if i > 0 {
          list := list + ",";
        }
        list := list + Quoted(pks[i]);
        i := i + 1;
      }
      assert quoted[..i] == quoted;
      out := ",\"primary_key\":[" + list + "]";
    }

    /** The JSON of one row event, as the parsers write it into json_event. */
    static method BuildDmlJson(kind: DmlKind, txn: string, rel: Relation, tbl: TableConfig, idx: seq<int>, change: RowChange)
      returns (json: string)
      ensures json == DmlJson(kind, txn, rel, tbl, idx, change)
    {
      var pk := PrimaryKeyMetadata(tbl.primaryKeys);
      var head := EventHead(kind, txn, rel) + pk + ",\"rows\":[{";
      var after := BuildRow(change.after, rel.attrs, tbl.captureAllColumns, idx);
      var body: string;
      if kind == Update {
        var before := "";
        if change.before.Some? {
          var b := BuildRow(change.before.value, rel.attrs, tbl.captureAllColumns, idx);
          before := "\"before\":{" + b + "},";
        }
        body := before + "\"after\":{" + after + "}}]}";
      } else {
        body := after + "}]}";
      }
      json := head + body;
    }

    /** The relation OID a row event's body at k starts with. */
    static method ReadRelid(p: seq<Byte>, k: nat) returns (relid: nat)
      requires k + 4 <= |p|
      ensures relid == BeAt(p, k, 4)
    {
      var cursor := new Cursor(p, k);
      relid := cursor.GetInt32();
      BeAtIsBeValue(p, k, 4);
    }

    /** The opening checks of the row-event parsers. */
    method FindTarget(relid: nat) returns (target: Option<(Relation, TableConfig)>)
      ensures target == DmlTarget(State(), cfg, relid)
    {
      var rel := LookupRelation(relid);
      if rel.None? || !ShouldCaptureDml(cfg.schemas, rel.value.schema) {
        return None;
      }
      var tbl := FindTableConfig(cfg.schemas, rel.value.schema, rel.value.name);
      if tbl.None? {
        return None;
      }
      return Some((rel.value, tbl.value));
    }

    /** The event of a captured row event: built, published and counted. */
    method PublishRowEvent(kind: DmlKind, rel: Relation, tbl: TableConfig, change: RowChange)
      modifies this
      ensures State() == PublishRow(old(State()), cfg, kind, rel, tbl, change)
    {
      var idx := IndexesOf(State(), tbl, rel.schema, rel.name);
      var json := BuildDmlJson(kind, txnId, rel, tbl, idx, change);
      PublishEvent(rel.schema, rel.name, json);
      eventsSinceSave := eventsSinceSave + 1;
    }

    /** parse_insert_message, parse_update_message, parse_delete_message on the body at k. */
    method ParseDml(kind: DmlKind, p: seq<Byte>, k: nat) returns (ok: bool)
      modifies this
      ensures ok <==> DmlStep(old(State()), cfg, kind, p, k).Some?
      ensures ok ==> State() == DmlStep(old(State()), cfg, kind, p, k).value
      ensures !ok ==> State() == old(State())
    {
      if |p| < k + 4 {
        return false;
      }
      var relid := ReadRelid(p, k);
      var target := FindTarget(relid);
      if target.None? {
        return true;
      }
      var change := RowChangeAt(kind, p, k + 4);
      if change.None? {
        return false;
      }
      PublishRowEvent(kind, target.value.0, target.value.1, change.value);
      return true;
    }

    /** The switch of stream_changes on the pgoutput message type at k. */
    method ParseMessage(p: seq<Byte>, k: nat, freshId: string) returns (ok: bool)
      requires k < |p|
      modifies this
      ensures ok <==> MessageStep(old(State()), cfg, p, k, freshId).Some?
      ensures ok ==> State() == MessageStep(old(State()), cfg, p, k, freshId).value
      ensures !ok ==> State() == old(State())
    {
      var t := p[k];
      if t == 'B' as int {
        if |p| < k + 21 {
          return false;
        }
        ParseBegin(p, k + 1, freshId);
        ok := true;
      } else if t == 'C' as int {
        if |p| < k + 26 {
          return false;
        }
        ParseCommit(p, k + 1);
        ok := true;
      } else if t == 'R' as int {
        ok := ParseRelation(p, k + 1);
      } else if t == 'I' as int {
        ok := ParseDml(Insert, p, k + 1);
      } else if t == 'U' as int {
        ok := ParseDml(Update, p, k + 1);
      } else if t == 'D' as int {
        ok := ParseDml(Delete, p, k + 1);
      } else {
        ok := true;
      }
    }

    /** The end LSN of an XLogData header: start LSN, end LSN, send time from offset 1. */
    static method ReadXLogDataEndLsn(buf: seq<Byte>) returns (endLsn: nat)
      requires 26 <= |buf|
      ensures endLsn == BeAt(buf, 9, 8)
    {
      var cursor := new Cursor(buf, 1);
      var startLsn := cursor.GetInt64();
      endLsn := cursor.GetInt64();
      var sendTime := cursor.GetInt64();
      BeAtIsBeValue(buf, 9, 8);
    }

    /** The reply-requested byte of a keepalive: after the end LSN and the server clock. */
    static method ReadKeepaliveReply(buf: seq<Byte>) returns (reply: Byte)
      requires 18 <= |buf|
      ensures reply == buf[17]
    {
      var cursor := new Cursor(buf, 1);
      var endLsn := cursor.GetInt64();
      var timestamp := cursor.GetInt64();
      reply := cursor.GetByte();
    }

    /** A status update asked for by a keepalive; a failure stops the loop. */
    method ReplyToKeepalive(now: int, putOk: bool, flushOk: bool)
      modifies this
      ensures State() == StatusStep(old(State()), putOk && flushOk)
    {
      var rc, statusBuf := SendStatusUpdate(currentLsn, now, putOk, flushOk);
      if rc != 0 {
        running := false;
      } else {
        reports := reports + [currentLsn];
      }
    }

    /** An XLogData buffer: the header's end LSN becomes the position, then its message is applied. */
    method HandleXLogData(buf: seq<Byte>, freshId: string) returns (ok: bool)
      requires |buf| > 0 && buf[0] == 'w' as int
      modifies this
      ensures ok <==> XLogDataStep(old(State()), cfg, buf, freshId).Some?
      ensures ok ==> State() == XLogDataStep(old(State()), cfg, buf, freshId).value
    {
      if |buf| < 26 {
        return false;
      }
      var endLsn := ReadXLogDataEndLsn(buf);
      currentLsn := endLsn;
      eventsReceived := eventsReceived + 1;
      ghost var header := State();
      assert XLogDataStep(old(State()), cfg, buf, freshId) == MessageStep(header, cfg, buf, 25, freshId);
      ok := ParseMessage(buf, 25, freshId);
    }

    /** A primary keepalive buffer: a status update when the server asks for a reply. */
    method HandleKeepalive(buf: seq<Byte>, now: int, putOk: bool, flushOk: bool) returns (ok: bool)
      requires |buf| > 0 && buf[0] == 'k' as int
      modifies this
      ensures ok <==> KeepaliveStep(old(State()), buf, putOk && flushOk).Some?
      ensures ok ==> State() == KeepaliveStep(old(State()), buf, putOk && flushOk).value
    {
      if |buf| < 18 {
        return false;
      }
      var reply := ReadKeepaliveReply(buf);
      if reply != 0 {
        ReplyToKeepalive(now, putOk, flushOk);
      }
      ok := true;
    }

    /**
     * One buffer of the drain loop. `now` is time(NULL) and `putOk`,
     * `flushOk` the outcomes of PQputCopyData and PQflush for a status
     * update it sends.
     */
    method HandleCopyData(buf: seq<Byte>, freshId: string, now: int, putOk: bool, flushOk: bool) returns (ok: bool)
      modifies this
      ensures ok <==> CopyDataStep(old(State()), cfg, buf, freshId, putOk && flushOk).Some?
      ensures ok ==> State() == CopyDataStep(old(State()), cfg, buf, freshId, putOk && flushOk).value
    {
      if |buf| == 0 {
        return false;
      }
      if buf[0] == 'w' as int {
        ok := HandleXLogData(buf, freshId);
      } else if buf[0] == 'k' as int {
        ok := HandleKeepalive(buf, now, putOk, flushOk);
      } else {
        ok := true;
      }
    }

    /** The periodic status update of stream_changes. */
    method PeriodicStatus(now: int, lastStatus: int, putOk: bool, flushOk: bool) returns (stop: bool, last: int)
      modifies this
      ensures (State(), stop, last) == PeriodicStep(old(State()), now, lastStatus, putOk && flushOk)
    {
      stop, last := false, lastStatus;
      if now - lastStatus >= 10 {
        var rc, statusBuf := SendStatusUpdate(currentLsn, now, putOk, flushOk);
        if rc != 0 {
          return true, lastStatus;
        }
        reports := reports + [currentLsn];
        last := now;
      }
    }

    /** main after stream_changes returns: the current LSN is saved. */
    method FinishStreaming()
      modifies this
      ensures State() == Finish(old(State()), cfg)
    {
      if cfg.saveLastPosition {
        SavePosition(currentLsn);
      }
    }
  }
}
