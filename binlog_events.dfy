// The payload decoders of the MySQL binlog event types the streamer acts
// on: the common event header, QUERY_EVENT, ROTATE_EVENT, TABLE_MAP_EVENT
// (with its per-column metadata) and the header of the rows events, as
// the binlog event formats of the MySQL replication protocol lay them out.
// Each decoder is paired with an encoder of the same layout and a lemma
// that decoding an encoded event gives back its fields.
module BinlogEvents {
  import opened Wrappers
  import opened CText
  import opened BinlogBytes

  const EVT_QUERY_EVENT: nat := 2
  const EVT_ROTATE: nat := 4
  const EVT_FORMAT_DESCRIPTION: nat := 15
  const EVT_XID: nat := 16
  const EVT_TABLE_MAP: nat := 19
  const EVT_WRITE_ROWSv1: nat := 23
  const EVT_UPDATE_ROWSv1: nat := 24
  const EVT_DELETE_ROWSv1: nat := 25
  const EVT_WRITE_ROWSv2: nat := 30
  const EVT_UPDATE_ROWSv2: nat := 31
  const EVT_DELETE_ROWSv2: nat := 32
  const EVT_MARIA_WRITE_ROWS_COMPRESSED: nat := 166
  const EVT_MARIA_UPDATE_ROWS_COMPRESSED: nat := 167
  const EVT_MARIA_DELETE_ROWS_COMPRESSED: nat := 168

  /** The common event header every event starts with. */
  const HEADER_LEN: nat := 19

  /** A C string read out of a buffer: the bytes before the first NUL. */
  function CString(bs: seq<Byte>): (s: seq<Byte>)
    ensures |s| <= |bs| && NoNul(s)
  {
    if bs == [] || bs[0] == 0 then [] else [bs[0]] + CString(bs[1..])
  }

  predicate NoNul(bs: seq<Byte>)
  {
    forall i :: 0 <= i < |bs| ==> bs[i] != 0
  }

  /** The C string is a prefix of the buffer, ended by a NUL or by the buffer's end. */
  lemma {:induction false} CStringIsPrefix(bs: seq<Byte>)
    ensures var s := CString(bs);
            s == bs[..|s|] && (|s| < |bs| ==> bs[|s|] == 0)
  {
    if bs != [] && bs[0] != 0 {
      CStringIsPrefix(bs[1..]);
      var s := CString(bs[1..]);
      assert bs[1..][..|s|] == bs[1..1 + |s|];
      assert [bs[0]] + bs[1..1 + |s|] == bs[..1 + |s|];
    }
  }

  /** A buffer without NUL is its own C string. */
  lemma {:induction false} CStringOfNoNul(bs: seq<Byte>)
    requires NoNul(bs)
    ensures CString(bs) == bs
  {
    if bs != [] {
      CStringOfNoNul(bs[1..]);
    }
  }

  // ---------------------------------------------------------------------
  // The event frame (parse_event)
  // ---------------------------------------------------------------------

  datatype EventFrame = EventFrame(eventType: Byte, nextPos: nat, payload: seq<Byte>)

  /**
   * The header checks and the payload length of parse_event as written:
   * the event length is clipped to the bytes received and 19 is subtracted
   * in `uint32_t`, then a 4-byte checksum is dropped when present.
   */
  function PayloadLenAsWritten(size: nat, eventLen: nat, hasChecksum: bool): (n: nat)
    ensures n < 0x1_0000_0000
    ensures eventLen >= HEADER_LEN && size >= HEADER_LEN ==> n <= size - HEADER_LEN
  {
    var clipped := if eventLen > size then size else eventLen;
    var len := ToUint32(clipped - HEADER_LEN);
    if hasChecksum && len >= 4 then len - 4 else len
  }

  /**
   * The frame parse_event dispatches on, from the packet the client library
   * hands over (an OK byte, then the event), as written: only the packet
   * size and the OK byte are checked. An event-length field below the
   * header length makes the payload length wrap to nearly 2^32; the C
   * handlers then read past the packet, where the model hands them the
   * bytes that were received, so the payload is the announced length
   * clipped to what lies after the header.
   */
  function EventFrameOf(buf: seq<Byte>, hasChecksum: bool): (r: Option<EventFrame>)
    ensures r.None? <==> |buf| < 1 + HEADER_LEN || buf[0] != 0
    ensures r.Some? ==> r.value.eventType == buf[5] && r.value.nextPos == Le32(buf[14..])
    ensures r.Some? ==> 1 + HEADER_LEN + |r.value.payload| <= |buf| &&
                        r.value.payload == buf[1 + HEADER_LEN..1 + HEADER_LEN + |r.value.payload|]
    ensures r.Some? ==> var n := PayloadLenAsWritten(|buf| - 1, Le32(buf[10..]), hasChecksum);
                        |r.value.payload| == if n <= |buf| - 1 - HEADER_LEN then n else |buf| - 1 - HEADER_LEN
  {
    if |buf| < 1 + HEADER_LEN || buf[0] != 0 then None
    else
      var n := PayloadLenAsWritten(|buf| - 1, Le32(buf[10..]), hasChecksum);
      var received := |buf| - 1 - HEADER_LEN;
      var m := if n <= received then n else received;
      Some(EventFrame(buf[5], Le32(buf[14..]), buf[1 + HEADER_LEN..1 + HEADER_LEN + m]))
  }

  /**
   * The frame as evidently intended: an event whose length field is below
   * the header length is rejected like a short packet, so the payload
   * length parse_event computes is exactly the payload received.
   */
  function IntendedEventFrameOf(buf: seq<Byte>, hasChecksum: bool): (r: Option<EventFrame>)
    ensures r.None? <==> EventFrameOf(buf, hasChecksum).None? || Le32(buf[10..]) < HEADER_LEN
    ensures r.Some? ==> r == EventFrameOf(buf, hasChecksum) &&
                        |r.value.payload| == PayloadLenAsWritten(|buf| - 1, Le32(buf[10..]), hasChecksum)
  {
    if |buf| < 1 + HEADER_LEN || buf[0] != 0 || Le32(buf[10..]) < HEADER_LEN then None
    else EventFrameOf(buf, hasChecksum)
  }

  /**
   * A 20-byte packet (the OK byte and a bare header whose event-length field
   * is 0) passes every check of parse_event, yet the payload length it
   * computes is 2^32 - 19, where not one payload byte was received; the
   * intended frame rejects it.
   */
  lemma HeaderOnlyEventWraps()
    ensures var buf: seq<Byte> := [0, 0, 0, 0, 0, 2, 0, 0, 0, 0, 0, 0, 0, 0, 0, 0, 0, 0, 0, 0];
            PayloadLenAsWritten(|buf| - 1, Le32(buf[10..]), false) == 0xFFFF_FFED &&
            EventFrameOf(buf, false) == Some(EventFrame(2, 0, [])) &&
            IntendedEventFrameOf(buf, false).None?
  {
    var buf: seq<Byte> := [0, 0, 0, 0, 0, 2, 0, 0, 0, 0, 0, 0, 0, 0, 0, 0, 0, 0, 0, 0];
    assert Le32(buf[10..]) == 0;
    assert Le32(buf[14..]) == 0;
  }

  /** An event as the server sends it: header fields around the payload. */
  function EncodeEvent(eventType: Byte, eventLen: nat, nextPos: nat, payload: seq<Byte>): (buf: seq<Byte>)
    requires eventLen < 0x1_0000_0000 && nextPos < 0x1_0000_0000
    ensures |buf| == 1 + HEADER_LEN + |payload|
  {
    [0] + (LeBytes(0, 4) + ([eventType] + (LeBytes(0, 4) + (LeBytes(eventLen, 4) + (LeBytes(nextPos, 4)
      + (LeBytes(0, 2) + payload))))))
  }

  /** A 32-bit field read where its encoding starts a suffix. */
  lemma Le32At(buf: seq<Byte>, k: nat, n: nat, rest: seq<Byte>)
    requires n < 0x1_0000_0000 && k <= |buf| && buf[k..] == LeBytes(n, 4) + rest
    ensures Le32(buf[k..]) == n
  {
    assert buf[k..][..4] == LeBytes(n, 4);
    assert Pow256(4) == 0x1_0000_0000 by {
      assert Pow256(2) == 0x1_0000;
    }
    LeBytesRoundTrip(n, 4);
  }

  /**
   * A well-formed event (its length field counts the header, the payload
   * and the checksum when there is one) frames back to its payload.
   */
  lemma EventFrameRoundTrip(eventType: Byte, nextPos: nat, body: seq<Byte>, checksum: seq<Byte>, hasChecksum: bool)
    requires nextPos < 0x1_0000_0000
    requires |checksum| == (if hasChecksum then 4 else 0)
    requires HEADER_LEN + |body| + |checksum| < 0x1_0000_0000
    ensures EventFrameOf(EncodeEvent(eventType, HEADER_LEN + |body| + |checksum|, nextPos, body + checksum), hasChecksum)
            == Some(EventFrame(eventType, nextPos, body))
  {
    var len := HEADER_LEN + |body| + |checksum|;
    var payload := body + checksum;
    var buf := EncodeEvent(eventType, len, nextPos, payload);
    var tail := LeBytes(0, 2) + payload;
    var r14 := LeBytes(nextPos, 4) + tail;
    var r10 := LeBytes(len, 4) + r14;
    var r6 := LeBytes(0, 4) + r10;
    PieceAt(buf, 1, LeBytes(0, 4), [eventType] + r6);
    PieceAt(buf, 5, [eventType], r6);
    PieceAt(buf, 6, LeBytes(0, 4), r10);
    PieceAt(buf, 10, LeBytes(len, 4), r14);
    PieceAt(buf, 14, LeBytes(nextPos, 4), tail);
    PieceAt(buf, 18, LeBytes(0, 2), payload);
    PieceAt(buf, 20, body, checksum);
    assert buf[5] == eventType by {
      assert buf[5..6] == [eventType];
    }
    Le32At(buf, 10, len, r14);
    Le32At(buf, 14, nextPos, tail);
  }

  // ---------------------------------------------------------------------
  // QUERY_EVENT (parse_query)
  // ---------------------------------------------------------------------

  /** The statement without the trailing NUL bytes. */
  function TrimNuls(bs: seq<Byte>): (r: seq<Byte>)
    ensures |r| <= |bs|
    ensures r != [] ==> r[|r| - 1] != 0
  {
    if bs == [] then []
    else if bs[|bs| - 1] == 0 then TrimNuls(bs[..|bs| - 1])
    else bs
  }

  /** Trimming removes exactly a tail of NULs. */
  lemma {:induction false} TrimNulsIsPrefix(bs: seq<Byte>)
    ensures var r := TrimNuls(bs);
            r == bs[..|r|] && forall i :: |r| <= i < |bs| ==> bs[i] == 0
  {
    if bs != [] && bs[|bs| - 1] == 0 {
      var init := bs[..|bs| - 1];
      TrimNulsIsPrefix(init);
      var r := TrimNuls(init);
      assert init[..|r|] == bs[..|r|];
      forall i | |r| <= i < |bs|
        ensures bs[i] == 0
      {
        if i < |init| {
          assert init[i] == bs[i];
        }
      }
    } else if bs != [] {
      assert bs[..|bs|] == bs;
    }
  }

  /** The trimming loop of parse_query. */
  method TrimmedLength(bs: seq<Byte>) returns (n: nat)
    ensures n == |TrimNuls(bs)|
  {
    n := |bs|;
    assert bs[..n] == bs;
    while n > 0 && bs[n - 1] == 0
      invariant n <= |bs|
      invariant TrimNuls(bs[..n]) == TrimNuls(bs)
    {
      assert bs[..n][..n - 1] == bs[..n - 1];
      n := n - 1;
    }
  }

  datatype QueryEvent = QueryEvent(dbLen: nat, db: seq<Byte>, query: seq<Byte>)

  /**
   * The fixed part (thread id, exec time, db_len, error code, status-vars
   * length), the status variables, the default database and its NUL, then
   * the statement. None where parse_query returns early: a payload shorter
   * than 13 bytes, status variables or a database name running past the
   * payload, or no statement left once trailing NULs are trimmed.
   */
  function QueryEventFields(p: seq<Byte>): (r: Option<QueryEvent>)
    ensures |p| < 13 ==> r.None?
    ensures r.Some? ==> r.value.dbLen == p[8] && |r.value.db| <= r.value.dbLen && NoNul(r.value.db)
    ensures r.Some? ==> r.value.query != [] && r.value.query[|r.value.query| - 1] != 0
    ensures r.Some? ==> 13 + Le16(p[11..]) + r.value.dbLen + |r.value.query| <= |p|
  {
    if |p| < 13 then None
    else
      var dbLen := p[8] as nat;
      var off := 13 + Le16(p[11..]);
      if off > |p| then None
      else if dbLen > 0 && off + dbLen + 1 > |p| then None
      else
        var start := if dbLen > 0 then off + dbLen + 1
                     else if off < |p| && p[off] == 0 then off + 1
                     else off;
        match Statement(p[start..])
        case None => None
        case Some(q) => Some(QueryEvent(dbLen, if dbLen > 0 then CString(p[off..off + dbLen]) else [], q))
  }

  /** The statement: what is left once trailing NULs are trimmed, None when nothing is. */
  function Statement(bs: seq<Byte>): (r: Option<seq<Byte>>)
    ensures r.Some? ==> r.value != [] && r.value[|r.value| - 1] != 0 && |r.value| <= |bs|
  {
    var q := TrimNuls(bs);
    if q == [] then None else Some(q)
  }

  /** A QUERY_EVENT payload: 8 bytes of thread id and exec time, then the rest. */
  function EncodeQueryEvent(prefix: seq<Byte>, errorCode: seq<Byte>, statusVars: seq<Byte>,
                            db: seq<Byte>, query: seq<Byte>): (p: seq<Byte>)
    requires |prefix| == 8 && |errorCode| == 2 && |db| < 256 && |statusVars| < 0x1_0000
  {
    prefix + ([|db|] + (errorCode + (LeBytes(|statusVars|, 2) + (statusVars + (db + ([0] + query))))))
  }

  /** QueryEventFields once the lengths and the pieces at their offsets are known. */
  lemma QueryEventFieldsAt(p: seq<Byte>, db: seq<Byte>, off: nat, query: seq<Byte>)
    requires |p| >= 13 && p[8] as nat == |db| && off == 13 + Le16(p[11..]) && off + |db| + 1 <= |p|
    requires |db| > 0 ==> CString(p[off..off + |db|]) == db
    requires p[off + |db|] == 0 && Statement(p[off + |db| + 1..]) == Some(query)
    ensures QueryEventFields(p) == Some(QueryEvent(|db|, if |db| > 0 then db else [], query))
  {
  }

  /**
   * Decoding an encoded QUERY_EVENT gives back the database and the
   * statement; NUL padding after the statement is dropped.
   */
  lemma QueryEventRoundTrip(prefix: seq<Byte>, errorCode: seq<Byte>, statusVars: seq<Byte>,
                            db: seq<Byte>, query: seq<Byte>, padding: seq<Byte>)
    requires |prefix| == 8 && |errorCode| == 2 && |db| < 256 && |statusVars| < 0x1_0000
    requires NoNul(db) && query != [] && query[|query| - 1] != 0
    requires forall i :: 0 <= i < |padding| ==> padding[i] == 0
    ensures QueryEventFields(EncodeQueryEvent(prefix, errorCode, statusVars, db, query + padding))
            == Some(QueryEvent(|db|, db, query))
  {
    var p := EncodeQueryEvent(prefix, errorCode, statusVars, db, query + padding);
    var off := 13 + |statusVars|;
    QueryEventPieces(prefix, errorCode, statusVars, db, query + padding);
    assert Statement(p[off + |db| + 1..]) == Some(query) by {
      TrimPadding(query, padding);
    }
    assert |db| > 0 ==> CString(p[off..off + |db|]) == db by {
      CStringOfNoNul(db);
    }
    QueryEventFieldsAt(p, db, off, query);
  }

  /** Where the encoder puts each field of a QUERY_EVENT payload. */
  lemma QueryEventPieces(prefix: seq<Byte>, errorCode: seq<Byte>, statusVars: seq<Byte>,
                         db: seq<Byte>, body: seq<Byte>)
    requires |prefix| == 8 && |errorCode| == 2 && |db| < 256 && |statusVars| < 0x1_0000
    ensures var p := EncodeQueryEvent(prefix, errorCode, statusVars, db, body);
            var off := 13 + |statusVars|;
            |p| == off + |db| + 1 + |body| && p[8] == |db| && Le16(p[11..]) == |statusVars| &&
            p[off..off + |db|] == db && p[off + |db|] == 0 && p[off + |db| + 1..] == body
  {
    var p := EncodeQueryEvent(prefix, errorCode, statusVars, db, body);
    var r3 := [0] + body;
    var r2 := db + r3;
    var r1 := LeBytes(|statusVars|, 2) + (statusVars + r2);
    PieceAt(p, 8, [|db|], errorCode + r1);
    assert p[8] == |db| by {
      assert p[8..9] == [|db|];
    }
    PieceAt(p, 9, errorCode, r1);
    assert Le16(p[11..]) == |statusVars| by {
      assert p[11..][..2] == LeBytes(|statusVars|, 2);
      LeBytesRoundTrip(|statusVars|, 2);
    }
    var off := 13 + |statusVars|;
    PieceAt(p, 11, LeBytes(|statusVars|, 2), statusVars + r2);
    PieceAt(p, 13, statusVars, r2);
    PieceAt(p, off, db, r3);
    PieceAt(p, off + |db|, [0], body);
    assert p[off + |db|] == 0 by {
      assert p[off + |db|..off + |db| + 1] == [0];
    }
  }

  /** Trailing NULs after a statement that ends in a non-NUL byte are all trimmed. */
  lemma {:induction false} TrimPadding(query: seq<Byte>, padding: seq<Byte>)
    requires query != [] && query[|query| - 1] != 0
    requires forall i :: 0 <= i < |padding| ==> padding[i] == 0
    ensures TrimNuls(query + padding) == query
  {
    if padding == [] {
      assert query + padding == query;
    } else {
      var pre := padding[..|padding| - 1];
      assert (query + padding)[..|query + padding| - 1] == query + pre;
      TrimPadding(query, pre);
    }
  }

  // ---------------------------------------------------------------------
  // ROTATE_EVENT (parse_rotate)
  // ---------------------------------------------------------------------

  predicate Printable(b: Byte)
  {
    32 <= b <= 126
  }

  /**
   * The name loop's stopping point: the longest prefix of printable bytes
   * (32..126; a NUL stops it too) of at most `limit` bytes.
   */
  function PrintableRun(p: seq<Byte>, limit: nat): (n: nat)
    ensures n <= |p| && n <= limit
    ensures forall i :: 0 <= i < n ==> Printable(p[i])
    ensures n < |p| && n < limit ==> !Printable(p[n])
  {
    if p == [] || limit == 0 || !Printable(p[0]) then 0 else 1 + PrintableRun(p[1..], limit - 1)
  }

  /** The longest binlog file name `current_binlog[256]` holds. */
  const MAX_BINLOG_NAME: nat := 255

  /** The loop of parse_rotate over the bytes after the position. */
  method RotateNameLength(p: seq<Byte>) returns (n: nat)
    ensures n == PrintableRun(p, MAX_BINLOG_NAME)
  {
    n := 0;
    while n < |p| && n < MAX_BINLOG_NAME && p[n] != 0
      invariant n <= |p| && n <= MAX_BINLOG_NAME
      invariant PrintableRun(p, MAX_BINLOG_NAME) == n + PrintableRun(p[n..], MAX_BINLOG_NAME - n)
    {
      if p[n] < 32 || p[n] > 126 {
        break;
      }
      assert p[n..][1..] == p[n + 1..];
      n := n + 1;
    }
    assert n == |p| || n == MAX_BINLOG_NAME || !Printable(p[n]);
    assert PrintableRun(p[n..], MAX_BINLOG_NAME - n) == 0;
  }

  datatype Rotation = Rotation(file: seq<Byte>, position: nat)

  /**
   * parse_rotate: the 8-byte position, then the next file's name. None
   * (nothing changes) for a payload shorter than 8 bytes. `file` is empty
   * when no printable byte starts the name; the streamer then records
   * "<unknown>".
   */
  function RotationOf(p: seq<Byte>): (r: Option<Rotation>)
    ensures r.None? <==> |p| < 8
    ensures r.Some? ==> r.value.position == LeValue(p[..8]) && r.value.position < 0x1_0000_0000_0000_0000
    ensures r.Some? ==> |r.value.file| <= MAX_BINLOG_NAME && 8 + |r.value.file| <= |p| &&
                        r.value.file == p[8..8 + |r.value.file|]
    ensures r.Some? ==> forall i :: 0 <= i < |r.value.file| ==> Printable(r.value.file[i])
  {
    if |p| < 8 then None
    else
      Pow256Of8();
      var n := PrintableRun(p[8..], MAX_BINLOG_NAME);
      Some(Rotation(p[8..8 + n], LeValue(p[..8])))
  }

  /** A printable name after the position is read back whole. */
  lemma RotationRoundTrip(position: nat, name: seq<Byte>, tail: seq<Byte>)
    requires position < 0x1_0000_0000_0000_0000
    requires |name| <= MAX_BINLOG_NAME && forall i :: 0 <= i < |name| ==> Printable(name[i])
    requires tail == [] || !Printable(tail[0]) || |name| == MAX_BINLOG_NAME
    ensures RotationOf(LeBytes(position, 8) + name + tail) == Some(Rotation(name, position))
  {
    var p := LeBytes(position, 8) + name + tail;
    assert p[..8] == LeBytes(position, 8);
    Pow256Of8();
    LeBytesRoundTrip(position, 8);
    assert p[8..] == name + tail;
    RunOverName(name, tail, MAX_BINLOG_NAME);
    assert p[8..8 + |name|] == name;
  }

  lemma {:induction false} RunOverName(name: seq<Byte>, tail: seq<Byte>, limit: nat)
    requires |name| <= limit && forall i :: 0 <= i < |name| ==> Printable(name[i])
    requires tail == [] || !Printable(tail[0]) || |name| == limit
    ensures PrintableRun(name + tail, limit) == |name|
  {
    if name != [] {
      assert (name + tail)[1..] == name[1..] + tail;
      RunOverName(name[1..], tail, limit - 1);
    } else {
      assert name + tail == tail;
    }
  }

  // ---------------------------------------------------------------------
  // TABLE_MAP_EVENT (parse_table_map)
  // ---------------------------------------------------------------------

  /** `char new_db[128]`, `char new_tbl[128]`: lengths are clipped to 127. */
  function Clip127(n: nat): (r: nat)
    ensures r <= 127 && (n < 128 ==> r == n)
  {
    if n >= 128 then 127 else n
  }

  datatype TableMapHeader = TableMapHeader(
    tableId: nat,
    db: seq<Byte>,
    tbl: seq<Byte>,
    ncols: nat,
    types: seq<Byte>,
    metaBlock: seq<Byte>)

  /**
   * The metadata block behind its length prefix: the bytes after the
   * prefix, at most as many as it announces. parse_table_map never compares
   * meta_len with the payload; its loop reads metadata only for the column
   * types that carry some and stops at meta_len, so a block cut short by
   * the end of the payload is read as far as it goes. None only when the
   * prefix itself does not fit.
   */
  function MetaBlock(r: seq<Byte>): (m: Option<seq<Byte>>)
    ensures m.None? <==> !LenPrefixReadable(r)
    ensures m.Some? ==> var (ml, w) := MetaLenPrefix(r);
              w <= |r| && |m.value| <= ml && m.value <= r[w..] && (|m.value| < ml ==> m.value == r[w..])
  {
    if !LenPrefixReadable(r) then None
    else
      var (ml, w) := MetaLenPrefix(r);
      if w + ml <= |r| then Some(r[w..w + ml]) else Some(r[w..])
  }

  /**
   * The column part of a TABLE_MAP_EVENT, from the one-byte column count
   * on: the column types, then the metadata block (cut short where the
   * payload ends). None when the payload is shorter than the column types
   * or ends before the metadata length prefix, which the source would read
   * past the payload.
   */
  function TableColumns(q: seq<Byte>): (r: Option<(seq<Byte>, seq<Byte>)>)
    requires |q| >= 1
    ensures r.Some? ==> |r.value.0| == q[0] as nat
  {
    var c := 1 + q[0] as nat;
    if c > |q| then None
    else
      match MetaBlock(q[c..])
      case None => None
      case Some(meta) => Some((q[1..c], meta))
  }

  /**
   * The fields of a TABLE_MAP_EVENT: the 6-byte table id, 2 flag bytes,
   * the schema and table names (each a length byte, the name, a NUL), then
   * the columns. The pointer advances by the clipped name length.
   * parse_table_map returns early only below 8 bytes; a payload of exactly
   * 8 bytes passes its guard and the schema length is then read one byte
   * past the payload. The model does not read past the payload: that case,
   * and every payload that ends before the names, the column types or the
   * metadata length prefix, is None.
   */
  function TableMapFields(p: seq<Byte>): (r: Option<TableMapHeader>)
    ensures |p| < 8 ==> r.None?
    ensures |p| == 8 ==> r.None?
    ensures r.Some? ==> r.value.tableId == LeValue(p[..6]) && r.value.tableId < Pow256(6)
    ensures r.Some? ==> |r.value.db| <= 127 && |r.value.tbl| <= 127 && NoNul(r.value.db) && NoNul(r.value.tbl)
    ensures r.Some? ==> |r.value.types| == r.value.ncols && r.value.ncols < 256
  {
    if |p| < 9 then None
    else
      var sl := Clip127(p[8]);
      var a := 9 + sl + 1;
      if a >= |p| then None
      else
        var tl := Clip127(p[a]);
        var b := a + 1 + tl + 1;
        if b >= |p| then None
        else
          match TableColumns(p[b..])
          case None => None
          case Some((types, meta)) =>
            Some(TableMapHeader(Le48(p), CString(p[9..9 + sl]), CString(p[a + 1..a + 1 + tl]),
                                |types|, types, meta))
  }

  /** A name as the table map carries it: a length byte, the name, a NUL. */
  function EncodeName(name: seq<Byte>): (e: seq<Byte>)
    requires |name| < 128
    ensures |e| == |name| + 2
  {
    [|name|] + name + [0]
  }

  /** Reading a known piece at offset k of a buffer. */
  lemma PieceAt(p: seq<Byte>, k: nat, piece: seq<Byte>, rest: seq<Byte>)
    requires k <= |p| && p[k..] == piece + rest
    ensures k + |piece| <= |p| && p[k..k + |piece|] == piece && p[k + |piece|..] == rest
  {
    assert p[k..k + |piece|] == p[k..][..|piece|];
    assert p[k + |piece|..] == p[k..][|piece|..];
  }

  /** Reading a length-prefixed name at offset k. */
  lemma NameAt(p: seq<Byte>, k: nat, name: seq<Byte>, rest: seq<Byte>)
    requires |name| < 128 && NoNul(name)
    requires k <= |p| && p[k..] == EncodeName(name) + rest
    ensures k + |name| + 2 <= |p| && p[k] == |name| && Clip127(p[k]) == |name|
    ensures CString(p[k + 1..k + 1 + |name|]) == name
    ensures p[k + |name| + 2..] == rest
  {
    PieceAt(p, k, [|name|], name + [0] + rest);
    PieceAt(p, k + 1, name, [0] + rest);
    PieceAt(p, k + 1 + |name|, [0], rest);
    CStringOfNoNul(name);
  }

  /** A TABLE_MAP_EVENT payload; `rest` is whatever follows the metadata (the null bitmap). */
  function EncodeTableMap(tableId: nat, flags: seq<Byte>, db: seq<Byte>, tbl: seq<Byte>,
                          types: seq<Byte>, meta: seq<Byte>, rest: seq<Byte>): (p: seq<Byte>)
    requires |flags| == 2 && |db| < 128 && |tbl| < 128 && |types| < 256 && |meta| < 0x100_0000
  {
    LeBytes(tableId, 6) + flags + (EncodeName(db) + (EncodeName(tbl) + (([|types|] + types)
      + (EncodeLenenc(|meta|) + (meta + rest)))))
  }

  /** A metadata block laid out as the encoder writes it. */
  lemma MetaBlockOfLayout(r: seq<Byte>, meta: seq<Byte>, rest: seq<Byte>)
    requires |meta| < 0x100_0000 && r == EncodeLenenc(|meta|) + (meta + rest)
    ensures MetaBlock(r) == Some(meta)
  {
    LenencRoundTrip(|meta|, meta + rest);
    PieceAt(r, |EncodeLenenc(|meta|)|, meta, rest);
  }

  /** The column part laid out as the encoder writes it. */
  lemma TableColumnsOfLayout(q: seq<Byte>, types: seq<Byte>, meta: seq<Byte>, rest: seq<Byte>)
    requires |types| < 256 && |meta| < 0x100_0000
    requires q == [|types|] + (types + (EncodeLenenc(|meta|) + (meta + rest)))
    ensures TableColumns(q) == Some((types, meta))
  {
    var r := EncodeLenenc(|meta|) + (meta + rest);
    PieceAt(q, 1, types, r);
    MetaBlockOfLayout(r, meta, rest);
  }

  /**
   * A metadata length prefix announcing more bytes than the payload still
   * holds does not lose the map: one MT_LONG column with meta_len 5 and
   * nothing after it keeps its column type and an empty metadata block.
   */
  lemma ShortMetaBlockKept()
    ensures TableColumns([1, MT_LONG as Byte, 5]) == Some(([MT_LONG as Byte], []))
  {
    var q: seq<Byte> := [1, MT_LONG as Byte, 5];
    assert q[2..] == [5];
    assert q[1..2] == [MT_LONG as Byte];
  }

  /** TableMapFields once the names and the column part are known at their offsets. */
  lemma TableMapFieldsAt(p: seq<Byte>, a: nat, b: nat, db: seq<Byte>, tbl: seq<Byte>, types: seq<Byte>, meta: seq<Byte>)
    requires |db| < 128 && |tbl| < 128 && a == 8 + |db| + 2 && b == a + |tbl| + 2 && b < |p|
    requires p[8] == |db| && CString(p[9..9 + |db|]) == db
    requires p[a] == |tbl| && CString(p[a + 1..a + 1 + |tbl|]) == tbl
    requires TableColumns(p[b..]) == Some((types, meta))
    ensures TableMapFields(p) == Some(TableMapHeader(Le48(p), db, tbl, |types|, types, meta))
  {
    assert Clip127(p[8]) == |db| && Clip127(p[a]) == |tbl|;
    assert 9 + Clip127(p[8]) + 1 == a && a + 1 + Clip127(p[a]) + 1 == b;
  }

  /** The decoding of a payload whose two names are followed by a decodable column part. */
  lemma TableMapOfNames(p: seq<Byte>, db: seq<Byte>, tbl: seq<Byte>, cols: seq<Byte>, types: seq<Byte>, meta: seq<Byte>)
    requires |db| < 128 && |tbl| < 128 && NoNul(db) && NoNul(tbl)
    requires |p| >= 8 && p[8..] == EncodeName(db) + (EncodeName(tbl) + cols)
    requires |cols| >= 1 && TableColumns(cols) == Some((types, meta))
    ensures TableMapFields(p) == Some(TableMapHeader(Le48(p), db, tbl, |types|, types, meta))
  {
    var a := 8 + |db| + 2;
    var b := a + |tbl| + 2;
    NameAt(p, 8, db, EncodeName(tbl) + cols);
    NameAt(p, a, tbl, cols);
    TableMapFieldsAt(p, a, b, db, tbl, types, meta);
  }

  /** The decoding of a payload laid out field by field. */
  lemma TableMapOfLayout(p: seq<Byte>, db: seq<Byte>, tbl: seq<Byte>, types: seq<Byte>, meta: seq<Byte>, rest: seq<Byte>)
    requires |db| < 128 && |tbl| < 128 && |types| < 256 && |meta| < 0x100_0000 && NoNul(db) && NoNul(tbl)
    requires |p| >= 8
    requires p[8..] == EncodeName(db) + (EncodeName(tbl) + (([|types|] + types) + (EncodeLenenc(|meta|) + (meta + rest))))
    ensures TableMapFields(p) == Some(TableMapHeader(Le48(p), db, tbl, |types|, types, meta))
  {
    var cols := [|types|] + (types + (EncodeLenenc(|meta|) + (meta + rest)));
    assert ([|types|] + types) + (EncodeLenenc(|meta|) + (meta + rest)) == cols;
    TableColumnsOfLayout(cols, types, meta, rest);
    TableMapOfNames(p, db, tbl, cols, types, meta);
  }

  /** Decoding an encoded table map gives back every field. */
  lemma TableMapRoundTrip(tableId: nat, flags: seq<Byte>, db: seq<Byte>, tbl: seq<Byte>,
                          types: seq<Byte>, meta: seq<Byte>, rest: seq<Byte>)
    requires |flags| == 2 && |db| < 128 && |tbl| < 128 && |types| < 256 && |meta| < 0x100_0000
    requires tableId < Pow256(6) && NoNul(db) && NoNul(tbl)
    ensures TableMapFields(EncodeTableMap(tableId, flags, db, tbl, types, meta, rest))
            == Some(TableMapHeader(tableId, db, tbl, |types|, types, meta))
  {
    var p := EncodeTableMap(tableId, flags, db, tbl, types, meta, rest);
    assert Le48(p) == tableId by {
      assert p[..6] == LeBytes(tableId, 6);
      LeBytesRoundTrip(tableId, 6);
    }
    TableMapOfLayout(p, db, tbl, types, meta, rest);
  }

  // ---------------------------------------------------------------------
  // Column metadata (the metadata loop of parse_table_map)
  // ---------------------------------------------------------------------

  /** The types with one metadata byte. */
  predicate OneByteMeta(t: Byte)
  {
    t == MT_FLOAT || t == MT_DOUBLE || t == MT_TIMESTAMP2 || t == MT_DATETIME2 ||
    t == MT_TIME2 || t == MT_BLOB || t == MT_GEOMETRY
  }

  /** The types with two metadata bytes (MT_STRING besides, handled apart). */
  predicate TwoByteMeta(t: Byte)
  {
    t == MT_BIT || t == MT_VARCHAR || t == MT_NEWDECIMAL || t == MT_SET || t == MT_ENUM
  }

  /** One column's metadata word and the type the value is actually decoded as. */
  datatype ColumnMeta = ColumnMeta(meta: U16, realType: Byte)

  /**
   * A column keeps its declared type, except a STRING column that is
   * really an ENUM or a SET; a column without metadata has metadata 0.
   */
  predicate TypeKept(t: Byte, c: ColumnMeta)
  {
    (c.realType == t || (t == MT_STRING && (c.realType == MT_ENUM || c.realType == MT_SET))) &&
    (!OneByteMeta(t) && !TwoByteMeta(t) && t != MT_STRING ==> c.meta == 0)
  }

  /**
   * One step of the loop at offset `pos` of the block: the column's
   * metadata and the bytes consumed. A two-byte entry without its second
   * byte in the block is left at 0 and consumes nothing. A STRING column
   * whose low metadata byte names ENUM or SET is decoded as that type.
   */
  function MetaStep(t: Byte, block: seq<Byte>, pos: nat): (r: (ColumnMeta, nat))
    requires pos < |block|
    ensures pos + r.1 <= |block|
    ensures TypeKept(t, r.0)
    ensures !OneByteMeta(t) && !TwoByteMeta(t) && t != MT_STRING ==> r.1 == 0
  {
    if OneByteMeta(t) then (ColumnMeta(block[pos], t), 1)
    else if TwoByteMeta(t) then
      if pos + 1 < |block| then (ColumnMeta(Le16(block[pos..]), t), 2) else (ColumnMeta(0, t), 0)
    else if t == MT_STRING then
      if pos + 1 < |block| then
        var m := Le16(block[pos..]);
        var low := m % 256;
        (ColumnMeta(m, if low == MT_ENUM || low == MT_SET then low else t), 2)
      else (ColumnMeta(0, t), 0)
    else (ColumnMeta(0, t), 0)
  }

  /** A column the loop never reached: metadata 0 (calloc), its type as declared. */
  function Untouched(types: seq<Byte>): (r: seq<ColumnMeta>)
    ensures |r| == |types| && forall k :: 0 <= k < |types| ==> r[k] == ColumnMeta(0, types[k])
  {
    seq(|types|, k requires 0 <= k < |types| => ColumnMeta(0, types[k]))
  }

  /**
   * The metadata of columns i.. when the loop is at offset `pos`; the
   * loop stops once the block is used up.
   */
  function ColumnMetadataFrom(types: seq<Byte>, block: seq<Byte>, i: nat, pos: nat): (r: seq<ColumnMeta>)
    requires i <= |types|
    decreases |types| - i
    ensures |r| == |types| - i
  {
    if i == |types| then []
    else if pos >= |block| then Untouched(types[i..])
    else
      var (c, w) := MetaStep(types[i], block, pos);
      [c] + ColumnMetadataFrom(types, block, i + 1, pos + w)
  }

  /** Every column the loop decodes or leaves alone satisfies TypeKept. */
  lemma {:induction false} ColumnMetadataTypes(types: seq<Byte>, block: seq<Byte>, i: nat, pos: nat)
    requires i <= |types|
    decreases |types| - i
    ensures forall j :: 0 <= j < |types| - i ==> TypeKept(types[i + j], ColumnMetadataFrom(types, block, i, pos)[j])
  {
    var r := ColumnMetadataFrom(types, block, i, pos);
    if i < |types| && pos >= |block| {
      forall j | 0 <= j < |r|
        ensures TypeKept(types[i + j], r[j])
      {
        assert r == Untouched(types[i..]);
        assert r[j] == ColumnMeta(0, types[i..][j]) && types[i..][j] == types[i + j];
      }
    } else if i < |types| {
      var step := MetaStep(types[i], block, pos);
      ColumnMetadataTypes(types, block, i + 1, pos + step.1);
      var rest := ColumnMetadataFrom(types, block, i + 1, pos + step.1);
      assert r == [step.0] + rest;
      forall j | 1 <= j < |r|
        ensures TypeKept(types[i + j], r[j])
      {
        assert TypeKept(types[(i + 1) + (j - 1)], rest[j - 1]);
        assert r[j] == rest[j - 1] && types[i + j] == types[(i + 1) + (j - 1)];
      }
    }
  }

  /**
   * The metadata loop: `meta` and `realTypes` start as calloc'd zeros and a copy
   * of the types, and are filled column by column.
   */
  method ReadColumnMetadata(types: seq<Byte>, block: seq<Byte>) returns (meta: array<U16>, realTypes: array<Byte>)
    ensures fresh(meta) && fresh(realTypes) && meta.Length == |types| && realTypes.Length == |types|
    ensures forall k :: 0 <= k < |types| ==>
              ColumnMeta(meta[k], realTypes[k]) == ColumnMetadataFrom(types, block, 0, 0)[k]
  {
    meta := new U16[|types|](_ => 0);
    realTypes := new Byte[|types|](k requires 0 <= k < |types| => types[k]);
    ghost var all := ColumnMetadataFrom(types, block, 0, 0);
    var i: nat := 0;
    var pos: nat := 0;
    while i < |types| && pos < |block|
      invariant i <= |types| && pos <= |block|
      invariant all[i..] == ColumnMetadataFrom(types, block, i, pos)
      invariant forall k :: 0 <= k < i ==> ColumnMeta(meta[k], realTypes[k]) == all[k]
      invariant forall k :: i <= k < |types| ==> meta[k] == 0 && realTypes[k] == types[k]
    {
      var c, w := ReadEntry(types[i], block, pos);
      MetadataStep(types, block, all, i, pos);
      meta[i] := c.meta;
      realTypes[i] := c.realType;
      i := i + 1;
      pos := pos + w;
    }
    if i < |types| {
      UntouchedTail(types, block, all, i, pos);
    }
  }

  /** Once the block is used up, the remaining columns keep metadata 0 and their declared type. */
  lemma UntouchedTail(types: seq<Byte>, block: seq<Byte>, all: seq<ColumnMeta>, i: nat, pos: nat)
    requires i < |types| && pos >= |block| && |all| == |types|
    requires all[i..] == ColumnMetadataFrom(types, block, i, pos)
    ensures forall k :: i <= k < |types| ==> all[k] == ColumnMeta(0, types[k])
  {
    forall k | i <= k < |types|
      ensures all[k] == ColumnMeta(0, types[k])
    {
      assert all[i..] == Untouched(types[i..]);
      assert all[k] == all[i..][k - i];
    }
  }

  /** The switch of the metadata loop for one column of type `t`. */
  method ReadEntry(t: Byte, block: seq<Byte>, pos: nat) returns (c: ColumnMeta, w: nat)
    requires pos < |block|
    ensures (c, w) == MetaStep(t, block, pos)
  {
    c, w := ColumnMeta(0, t), 0;
    if OneByteMeta(t) {
      c, w := ColumnMeta(block[pos], t), 1;
    } else if TwoByteMeta(t) {
      if pos + 1 < |block| {
        c, w := ColumnMeta(Le16(block[pos..]), t), 2;
      }
    } else if t == MT_STRING {
      if pos + 1 < |block| {
        var m := Le16(block[pos..]);
        c, w := ColumnMeta(m, t), 2;
        var low := m % 256;
        if low == MT_ENUM || low == MT_SET {
          c := c.(realType := low);
        }
      }
    }
  }

  /** One unrolling of ColumnMetadataFrom while the block lasts. */
  lemma MetadataStep(types: seq<Byte>, block: seq<Byte>, all: seq<ColumnMeta>, i: nat, pos: nat)
    requires i < |types| && pos < |block| && i <= |all|
    requires all[i..] == ColumnMetadataFrom(types, block, i, pos)
    ensures var (c, w) := MetaStep(types[i], block, pos);
            i < |all| && all[i] == c && all[i + 1..] == ColumnMetadataFrom(types, block, i + 1, pos + w)
  {
    assert all[i + 1..] == all[i..][1..];
  }

  // ---------------------------------------------------------------------
  // Rows events (parse_rows_event) and the compressed-rows header
  // ---------------------------------------------------------------------

  predicate IsRowsV2(t: Byte)
  {
    t == EVT_WRITE_ROWSv2 || t == EVT_UPDATE_ROWSv2 || t == EVT_DELETE_ROWSv2
  }

  predicate IsUpdateRows(t: Byte)
  {
    t == EVT_UPDATE_ROWSv1 || t == EVT_UPDATE_ROWSv2 || t == EVT_MARIA_UPDATE_ROWS_COMPRESSED
  }

  predicate IsCompressedRows(t: Byte)
  {
    t == EVT_MARIA_WRITE_ROWS_COMPRESSED || t == EVT_MARIA_UPDATE_ROWS_COMPRESSED ||
    t == EVT_MARIA_DELETE_ROWS_COMPRESSED
  }

  predicate IsWriteRows(t: Byte)
  {
    t == EVT_WRITE_ROWSv1 || t == EVT_WRITE_ROWSv2 || t == EVT_MARIA_WRITE_ROWS_COMPRESSED
  }

  predicate IsDeleteRows(t: Byte)
  {
    t == EVT_DELETE_ROWSv1 || t == EVT_DELETE_ROWSv2 || t == EVT_MARIA_DELETE_ROWS_COMPRESSED
  }

  /** The nine event types parse_event hands to parse_rows_event. */
  predicate IsRowsEvent(t: Byte)
  {
    IsWriteRows(t) || IsUpdateRows(t) || IsDeleteRows(t)
  }

  /**
   * The bytes the row loop of parse_write_rows and parse_delete_rows needs
   * before its first row, (ncols + 7) >> 3; parse_update_rows asks for two
   * bitmaps plus two bytes per column.
   */
  function MinRowBytes(t: Byte, ncols: nat): nat
  {
    if IsUpdateRows(t) then 2 * BitmapLen(ncols) + ncols * 2 else BitmapLen(ncols)
  }

  /**
   * The rows event up to its row images: the table id, the column count,
   * the columns-present bitmap (two of them, before and after, for an
   * update) and the row bytes after them, which are compressed for the
   * MariaDB compressed types.
   */
  datatype RowsHeader = RowsHeader(
    tableId: nat,
    ncols: nat,
    before: seq<Byte>,
    after: Option<seq<Byte>>,
    rows: seq<Byte>)

  /** Where the column count sits: after the v2 extra data when there is any. */
  function RowsColumnCountAt(t: Byte, p: seq<Byte>): (k: nat)
    requires |p| >= 8 && (IsRowsV2(t) ==> |p| >= 10)
  {
    if !IsRowsV2(t) then 8
    else
      // extra_data_len counts its own two bytes
      var extra := Le16(p[8..]);
      if extra > 2 then 10 + (extra - 2) else 10
  }

  /**
   * The rows event from its column count on: the count, the
   * columns-present bitmap (a second one for an update) and the rows.
   * None when the payload is shorter than the bitmaps.
   */
  function RowsBitmaps(t: Byte, tableId: nat, q: seq<Byte>): (r: Option<RowsHeader>)
    requires |q| >= 1
    ensures r.Some? ==> r.value.tableId == tableId && r.value.ncols == q[0] as nat
    ensures r.Some? ==> |r.value.before| == BitmapLen(r.value.ncols) && r.value.ncols < 256
    ensures r.Some? ==> (r.value.after.Some? <==> IsUpdateRows(t))
    ensures r.Some? && r.value.after.Some? ==> |r.value.after.value| == BitmapLen(r.value.ncols)
    ensures r.Some? ==> q == [q[0]] + (r.value.before + (r.value.after.GetOr([]) + r.value.rows))
  {
    var nc := q[0] as nat;
    var bl := BitmapLen(nc);
    var need := if IsUpdateRows(t) then 2 * bl else bl;
    if |q| < 1 + need then None
    else
      var after := if IsUpdateRows(t) then Some(q[1 + bl..1 + 2 * bl]) else None;
      assert q == [q[0]] + (q[1..1 + bl] + (after.GetOr([]) + q[1 + need..]));
      Some(RowsHeader(tableId, nc, q[1..1 + bl], after, q[1 + need..]))
  }

  /**
   * The header of a rows event (parse_rows_event up to the row images):
   * the 6-byte table id, 2 flag bytes, the v2 extra data, then the
   * column count and bitmaps. None for a payload too short for them.
   */
  function RowsEventHeader(t: Byte, p: seq<Byte>): (r: Option<RowsHeader>)
    ensures |p| < 8 ==> r.None?
    ensures r.Some? ==> r.value.tableId == LeValue(p[..6])
    ensures r.Some? ==> |r.value.before| + |r.value.after.GetOr([])| + |r.value.rows| < |p|
  {
    if |p| < 8 || (IsRowsV2(t) && |p| < 10) then None
    else
      var k := RowsColumnCountAt(t, p);
      if |p| < k + 1 then None
      else RowsBitmaps(t, Le48(p), p[k..])
  }

  /** The v2 extra-data field: its length (counting the length bytes) and the data. */
  function ExtraField(t: Byte, extra: seq<Byte>): (e: seq<Byte>)
    requires |extra| + 2 < 0x1_0000
    ensures |e| == if IsRowsV2(t) then |extra| + 2 else 0
  {
    if IsRowsV2(t) then LeBytes(|extra| + 2, 2) + extra else []
  }

  /** A rows event payload; `extra` is the v2 extra data after its length field. */
  function EncodeRowsEvent(t: Byte, tableId: nat, flags: seq<Byte>, extra: seq<Byte>, ncols: nat,
                           before: seq<Byte>, after: seq<Byte>, rows: seq<Byte>): (p: seq<Byte>)
    requires |flags| == 2 && |extra| + 2 < 0x1_0000 && ncols < 256
  {
    LeBytes(tableId, 6) + (flags + (ExtraField(t, extra)
      + ([ncols] + (before + ((if IsUpdateRows(t) then after else []) + rows)))))
  }

  /** The bitmaps and rows laid out as the encoder writes them. */
  lemma RowsBitmapsOfLayout(t: Byte, tableId: nat, q: seq<Byte>, ncols: nat,
                            before: seq<Byte>, after: seq<Byte>, rows: seq<Byte>)
    requires ncols < 256 && |before| == BitmapLen(ncols) && (IsUpdateRows(t) ==> |after| == BitmapLen(ncols))
    requires q == [ncols] + (before + ((if IsUpdateRows(t) then after else []) + rows))
    ensures RowsBitmaps(t, tableId, q)
            == Some(RowsHeader(tableId, ncols, before, if IsUpdateRows(t) then Some(after) else None, rows))
  {
    var bl := BitmapLen(ncols);
    var mid := if IsUpdateRows(t) then after else [];
    PieceAt(q, 1, before, mid + rows);
    PieceAt(q, 1 + bl, mid, rows);
  }

  /** RowsEventHeader once the column count's offset is known. */
  lemma RowsEventHeaderAt(t: Byte, p: seq<Byte>, k: nat)
    requires |p| >= 8 && (IsRowsV2(t) ==> |p| >= 10) && k < |p| && RowsColumnCountAt(t, p) == k
    ensures RowsEventHeader(t, p) == RowsBitmaps(t, Le48(p), p[k..])
  {
  }

  /** The column count follows the v2 extra data. */
  lemma ColumnCountAfterExtra(t: Byte, p: seq<Byte>, extra: seq<Byte>, q: seq<Byte>)
    requires |extra| + 2 < 0x1_0000 && |p| >= 8 && p[8..] == ExtraField(t, extra) + q
    ensures IsRowsV2(t) ==> |p| >= 10
    ensures RowsColumnCountAt(t, p) == 8 + |ExtraField(t, extra)| && p[8 + |ExtraField(t, extra)|..] == q
  {
    var e := ExtraField(t, extra);
    PieceAt(p, 8, e, q);
    if IsRowsV2(t) {
      PieceAt(p, 8, LeBytes(|extra| + 2, 2), extra + q);
      LeBytesRoundTrip(|extra| + 2, 2);
    }
  }

  /** Decoding an encoded rows event gives back its bitmaps and rows. */
  lemma RowsEventRoundTrip(t: Byte, tableId: nat, flags: seq<Byte>, extra: seq<Byte>, ncols: nat,
                           before: seq<Byte>, after: seq<Byte>, rows: seq<Byte>)
    requires |flags| == 2 && |extra| + 2 < 0x1_0000 && ncols < 256 && tableId < Pow256(6)
    requires |before| == BitmapLen(ncols) && (IsUpdateRows(t) ==> |after| == BitmapLen(ncols))
    ensures RowsEventHeader(t, EncodeRowsEvent(t, tableId, flags, extra, ncols, before, after, rows))
            == Some(RowsHeader(tableId, ncols, before, if IsUpdateRows(t) then Some(after) else None, rows))
  {
    var p := EncodeRowsEvent(t, tableId, flags, extra, ncols, before, after, rows);
    var q := [ncols] + (before + ((if IsUpdateRows(t) then after else []) + rows));
    var e := ExtraField(t, extra);
    PieceAt(p, 0, LeBytes(tableId, 6), flags + (e + q));
    LeBytesRoundTrip(tableId, 6);
    PieceAt(p, 6, flags, e + q);
    ColumnCountAfterExtra(t, p, extra, q);
    RowsEventHeaderAt(t, p, 8 + |e|);
    RowsBitmapsOfLayout(t, tableId, q, ncols, before, after, rows);
  }

  /** The header checks mariadb_decompress_rows makes before inflating. */
  predicate CompressedHeaderOk(input: seq<Byte>)
  {
    |input| >= 2 && input[0] % 8 != 0 && 1 + input[0] % 8 <= |input| && (input[0] / 16) % 8 == 0
  }

  /**
   * The header of mariadb_decompress_rows: the low 3 bits of the first
   * byte give the size of the little-endian uncompressed length that
   * follows, bits 4..6 the algorithm, which must be 0 (zlib). None where it
   * returns -1 before inflating.
   */
  method DecompressHeader(input: seq<Byte>) returns (expected: Option<nat>)
    ensures expected.None? <==> !CompressedHeaderOk(input)
    ensures expected.None? <==>
              |input| < 2 || input[0] % 8 == 0 || 1 + input[0] % 8 > |input| || (input[0] / 16) % 8 != 0
    ensures expected.Some? ==> expected.value == LeValue(input[1..1 + input[0] % 8])
    ensures expected.Some? ==> expected.value < Pow256(7)
  {
    if |input| < 2 {
      return None;
    }
    var headerSize := input[0] % 8;
    var algo := (input[0] / 16) % 8;
    if headerSize == 0 || 1 + headerSize > |input| || algo != 0 {
      return None;
    }
    var v := 0;
    var i := headerSize;
    // expected |= in[1 + i] << (8 * i), accumulated from the high byte down
    while i > 0
      invariant 0 <= i <= headerSize
      invariant v == LeValue(input[1 + i..1 + headerSize])
    {
      i := i - 1;
      assert input[1 + i..1 + headerSize][1..] == input[1 + i + 1..1 + headerSize];
      v := input[1 + i] as nat + 256 * v;
    }
    assert Pow256(headerSize) <= Pow256(7) by {
      Pow256Monotone(headerSize, 7);
    }
    return Some(v);
  }

  lemma {:induction false} Pow256Monotone(a: nat, b: nat)
    requires a <= b
    ensures Pow256(a) <= Pow256(b)
  {
    if a < b {
      Pow256Monotone(a, b - 1);
    }
  }
}
