// The pgoutput message bodies the PostgreSQL streamer decodes (section 55.9
// of the PostgreSQL 16 documentation, Logical Replication Message Formats,
// protocol version 1): RELATION with its column descriptions, and the
// TupleData of INSERT, UPDATE and DELETE. Each decoder reads from offset k
// of one CopyData message, as the pg_getmsg* readers do from a cursor, and
// returns the decoded value with the number of bytes it consumed, or None
// when the bytes it would read are not there. Beside the TupleData decoders
// stands a description of the wire layout (what a writer puts at offset k),
// an encoder producing it, and the proofs that the decoders read back what
// was written. The JSON value formatter append_value_to_json is here too.
module PgDecode {
  import opened Wrappers
  import opened CText
  import opened BinlogBytes
  import opened BinlogText
  import opened PgWire

  // The type OIDs append_value_to_json distinguishes.
  const PG_TYPE_BOOL: nat := 16
  const PG_TYPE_INT8: nat := 20
  const PG_TYPE_INT2: nat := 21
  const PG_TYPE_INT4: nat := 23
  const PG_TYPE_TEXT: nat := 25
  const PG_TYPE_OID: nat := 26
  const PG_TYPE_JSON: nat := 114
  const PG_TYPE_FLOAT4: nat := 700
  const PG_TYPE_FLOAT8: nat := 701
  const PG_TYPE_NUMERIC: nat := 1700
  const PG_TYPE_JSONB: nat := 3802

  /** A decoded value with the count of bytes it took. */
  datatype Decoded<T> = Decoded(value: T, used: nat)

  /**
   * One TupleData column: the bytes of a 't' column, or the kind byte of a
   * column that carries no data ('n' NULL, 'u' unchanged TOAST value, and
   * any other kind, for which the source reads nothing further either).
   */
  datatype ColumnValue = Text(bytes: seq<Byte>) | NoValue(kind: Byte)

  /** A column description of a RELATION message, as the cache keeps it. */
  datatype Attr = Attr(flags: Byte, name: string, typid: nat, typmod: int)

  datatype RelationMsg = RelationMsg(
    relid: nat,
    schema: string,
    name: string,
    replicaIdentity: Byte,
    attrs: seq<Attr>)

  /** strncpy into a zeroed `char[128]` with a limit of 127: at most 127 bytes survive. */
  function Truncate127(s: string): (r: string)
    ensures |r| <= 127 && |r| <= |s| && r == s[..|r|]
    ensures |s| <= 127 ==> r == s
  {
    if |s| <= 127 then s else s[..127]
  }

  // ---------------------------------------------------------------------
  // TupleData
  // ---------------------------------------------------------------------

  /** One column at k: its kind byte, and for 't' an Int32 length and that many bytes. */
  function ColumnAt(p: seq<Byte>, k: nat): (r: Option<Decoded<ColumnValue>>)
    ensures r.Some? ==> 0 < r.value.used && k + r.value.used <= |p|
  {
    if |p| <= k then None
    else if p[k] != 't' as int then Some(Decoded(NoValue(p[k]), 1))
    else if |p| < k + 5 then None
    else
      var len := BeAt(p, k + 1, 4);
      if |p| < k + 5 + len then None
      else Some(Decoded(Text(p[k + 5..k + 5 + len]), 5 + len))
  }

  /** n columns, one after the other, from k. */
  function ColumnsAt(p: seq<Byte>, k: nat, n: nat): (r: Option<Decoded<seq<ColumnValue>>>)
    requires k <= |p|
    ensures r.Some? ==> |r.value.value| == n && k + r.value.used <= |p|
    decreases n
  {
    if n == 0 then Some(Decoded([], 0))
    else
      match ColumnAt(p, k)
      case None => None
      case Some(c) =>
        match ColumnsAt(p, k + c.used, n - 1)
        case None => None
        case Some(cs) => Some(Decoded([c.value] + cs.value, c.used + cs.used))
  }

  /**
   * A tuple as the source reads it: a tuple-type byte ('N', 'K' or 'O',
   * read and ignored), an Int16 column count, then the columns.
   */
  function TupleAt(p: seq<Byte>, k: nat): (r: Option<Decoded<seq<ColumnValue>>>)
    ensures r.Some? ==> 3 <= r.value.used && k + r.value.used <= |p|
  {
    if |p| < k + 3 then None
    else
      match ColumnsAt(p, k + 3, BeAt(p, k + 1, 2))
      case None => None
      case Some(cs) => Some(Decoded(cs.value, 3 + cs.used))
  }

  // The wire layout a pgoutput writer produces.

  /** The bytes one column takes on the wire. */
  function ColumnSize(c: ColumnValue): nat
  {
    match c
    case Text(b) => 5 + |b|
    case NoValue(_) => 1
  }

  function ColumnsSize(cs: seq<ColumnValue>): nat
  {
    if cs == [] then 0 else ColumnSize(cs[0]) + ColumnsSize(cs[1..])
  }

  /**
   * Column c is written at offset k of p: a kind byte other than 't' alone,
   * or 't', the length as a big-endian Int32, and the bytes.
   */
  predicate ColumnWritten(p: seq<Byte>, k: nat, c: ColumnValue)
  {
    match c
    case NoValue(b) => b != 't' as int && k < |p| && p[k] == b
    case Text(b) =>
      |b| < 0x1_0000_0000 && k + 5 + |b| <= |p| && p[k] == 't' as int &&
      p[k + 1..k + 5] == BeBytes(|b|, 4) && p[k + 5..k + 5 + |b|] == b
  }

  /** The columns cs are written one after the other from offset k. */
  predicate ColumnsWritten(p: seq<Byte>, k: nat, cs: seq<ColumnValue>)
    decreases |cs|
  {
    cs == [] || (ColumnWritten(p, k, cs[0]) && ColumnsWritten(p, k + ColumnSize(cs[0]), cs[1..]))
  }

  /** A tuple of type `kind` with columns cs is written at offset k. */
  predicate TupleWritten(p: seq<Byte>, k: nat, kind: Byte, cs: seq<ColumnValue>)
  {
    |cs| < 0x1_0000 && k + 3 <= |p| && p[k] == kind && p[k + 1..k + 3] == BeBytes(|cs|, 2) &&
    ColumnsWritten(p, k + 3, cs)
  }

  lemma Pow256Of4()
    ensures Pow256(2) == 0x1_0000 && Pow256(4) == 0x1_0000_0000
  {
  }

  lemma ColumnReadsBack(p: seq<Byte>, k: nat, c: ColumnValue)
    requires ColumnWritten(p, k, c)
    ensures ColumnAt(p, k) == Some(Decoded(c, ColumnSize(c)))
  {
    if c.Text? {
      Pow256Of4();
      BeAtOfBytes(p, k + 1, 4, |c.bytes|);
    }
  }

  /** The column decoder reads back exactly the columns written at k, and their size. */
  lemma {:induction false} ColumnsReadBack(p: seq<Byte>, k: nat, cs: seq<ColumnValue>)
    requires k <= |p| && ColumnsWritten(p, k, cs)
    ensures ColumnsAt(p, k, |cs|) == Some(Decoded(cs, ColumnsSize(cs)))
    decreases |cs|
  {
    if cs != [] {
      ColumnReadsBack(p, k, cs[0]);
      ColumnsReadBack(p, k + ColumnSize(cs[0]), cs[1..]);
      assert [cs[0]] + cs[1..] == cs;
    }
  }

  /** The tuple decoder reads back exactly the tuple written at k. */
  lemma TupleReadsBack(p: seq<Byte>, k: nat, kind: Byte, cs: seq<ColumnValue>)
    requires TupleWritten(p, k, kind, cs)
    ensures TupleAt(p, k) == Some(Decoded(cs, 3 + ColumnsSize(cs)))
  {
    Pow256Of4();
    BeAtOfBytes(p, k + 1, 2, |cs|);
    ColumnsReadBack(p, k + 3, cs);
  }

  // An encoder producing that layout.

  function EncodeColumn(c: ColumnValue): seq<Byte>
  {
    match c
    case Text(b) => ['t' as int as Byte] + BeBytes(|b|, 4) + b
    case NoValue(k) => [k]
  }

  function EncodeColumns(cs: seq<ColumnValue>): seq<Byte>
  {
    if cs == [] then [] else EncodeColumn(cs[0]) + EncodeColumns(cs[1..])
  }

  /** A tuple the way pgoutput writes one: type byte, Int16 count, columns. */
  function EncodeTuple(kind: Byte, cs: seq<ColumnValue>): seq<Byte>
    requires |cs| < 0x1_0000
  {
    [kind] + BeBytes(|cs|, 2) + EncodeColumns(cs)
  }

  predicate ColumnEncodable(c: ColumnValue)
  {
    match c
    case Text(b) => |b| < 0x1_0000_0000
    case NoValue(k) => k != 't' as int
  }

  /** Every column of the list fits the wire format (recursive, to keep proofs by induction small). */
  predicate AllEncodable(cs: seq<ColumnValue>)
  {
    cs == [] || (ColumnEncodable(cs[0]) && AllEncodable(cs[1..]))
  }

  lemma ColumnEncoded(p: seq<Byte>, k: nat, c: ColumnValue)
    requires ColumnEncodable(c)
    requires k + |EncodeColumn(c)| <= |p| && p[k..k + |EncodeColumn(c)|] == EncodeColumn(c)
    ensures ColumnWritten(p, k, c) && |EncodeColumn(c)| == ColumnSize(c)
  {
    match c
    case NoValue(_) =>
      assert p[k] == p[k..k + 1][0];
    case Text(b) =>
      var t: seq<Byte> := ['t' as int as Byte];
      SplitSlice(p, k, t + BeBytes(|b|, 4), b);
      SplitSlice(p, k, t, BeBytes(|b|, 4));
      assert p[k] == p[k..k + 1][0];
  }

  /** Bytes the encoder wrote at k, wherever they sit, hold the columns in the wire layout. */
  lemma {:induction false} ColumnsEncoded(p: seq<Byte>, k: nat, cs: seq<ColumnValue>)
    requires AllEncodable(cs)
    requires k + |EncodeColumns(cs)| <= |p| && p[k..k + |EncodeColumns(cs)|] == EncodeColumns(cs)
    ensures ColumnsWritten(p, k, cs) && |EncodeColumns(cs)| == ColumnsSize(cs)
    decreases |cs|
  {
    if cs != [] {
      var e := EncodeColumn(cs[0]);
      var t := EncodeColumns(cs[1..]);
      assert EncodeColumns(cs) == e + t;
      SplitSlice(p, k, e, t);
      ColumnEncoded(p, k, cs[0]);
      ColumnsEncoded(p, k + |e|, cs[1..]);
      assert ColumnsWritten(p, k + ColumnSize(cs[0]), cs[1..]);
    }
  }

  /** A run of p equal to e + t is e followed by t. */
  lemma SplitSlice(p: seq<Byte>, k: nat, e: seq<Byte>, t: seq<Byte>)
    requires k + |e| + |t| <= |p| && p[k..k + |e| + |t|] == e + t
    ensures p[k..k + |e|] == e && p[k + |e|..k + |e| + |t|] == t
  {
    assert p[k..k + |e|] == p[k..k + |e| + |t|][..|e|];
    assert p[k + |e|..k + |e| + |t|] == p[k..k + |e| + |t|][|e|..];
  }

  lemma TupleEncoded(p: seq<Byte>, k: nat, kind: Byte, cs: seq<ColumnValue>)
    requires |cs| < 0x1_0000 && AllEncodable(cs)
    requires k + |EncodeTuple(kind, cs)| <= |p| && p[k..k + |EncodeTuple(kind, cs)|] == EncodeTuple(kind, cs)
    ensures TupleWritten(p, k, kind, cs) && |EncodeTuple(kind, cs)| == 3 + ColumnsSize(cs)
  {
    var h := [kind] + BeBytes(|cs|, 2);
    SplitSlice(p, k, h, EncodeColumns(cs));
    assert p[k] == h[0];
    assert p[k + 1..k + 3] == h[1..];
    ColumnsEncoded(p, k + 3, cs);
  }

  /** Decoding what the encoder wrote gives back the columns, whatever surrounds them. */
  lemma TupleRoundTrip(pre: seq<Byte>, kind: Byte, cs: seq<ColumnValue>, post: seq<Byte>)
    requires |cs| < 0x1_0000 && AllEncodable(cs)
    ensures TupleAt(pre + EncodeTuple(kind, cs) + post, |pre|) == Some(Decoded(cs, |EncodeTuple(kind, cs)|))
  {
    var p := pre + EncodeTuple(kind, cs) + post;
    assert p[|pre|..|pre| + |EncodeTuple(kind, cs)|] == EncodeTuple(kind, cs);
    TupleEncoded(p, |pre|, kind, cs);
    TupleReadsBack(p, |pre|, kind, cs);
  }

  // ---------------------------------------------------------------------
  // The tuples of INSERT, UPDATE and DELETE
  // ---------------------------------------------------------------------

  /** The row images a DML message carries: the old tuple of an UPDATE, if sent, and the tuple. */
  datatype RowChange = RowChange(before: Option<seq<ColumnValue>>, after: seq<ColumnValue>)

  /**
   * The tuples of an UPDATE from offset k (just after the relation OID): a
   * 'K' or 'O' tuple with the old key or row when the first byte says so,
   * then the 'N' tuple with the new row.
   */
  function UpdateTuplesAt(p: seq<Byte>, k: nat): (r: Option<RowChange>)
    ensures r.Some? ==> k < |p| && (r.value.before.Some? <==> (p[k] == 'K' as int || p[k] == 'O' as int))
  {
    if |p| <= k then None
    else if p[k] == 'K' as int || p[k] == 'O' as int then
      match TupleAt(p, k)
      case None => None
      case Some(prior) =>
        match TupleAt(p, k + prior.used)
        case None => None
        case Some(row) => Some(RowChange(Some(prior.value), row.value))
    else
      match TupleAt(p, k)
      case None => None
      case Some(row) => Some(RowChange(None, row.value))
  }

  /**
   * parse_update_message as written: when the first byte is neither 'K'
   * nor 'O' it is taken as the old tuple's type and not reread as the new
   * one's, so one more type byte is read before the column count.
   */
  function UpdateTuplesAtAsWritten(p: seq<Byte>, k: nat): Option<RowChange>
  {
    if |p| <= k then None
    else if p[k] == 'K' as int || p[k] == 'O' as int then UpdateTuplesAt(p, k)
    else
      match TupleAt(p, k + 1)
      case None => None
      case Some(row) => Some(RowChange(None, row.value))
  }

  /** An UPDATE carrying only the new row reads back that row. */
  lemma UpdateReadsNewRow(p: seq<Byte>, k: nat, after: seq<ColumnValue>)
    requires TupleWritten(p, k, 'N' as int as Byte, after)
    ensures UpdateTuplesAt(p, k) == Some(RowChange(None, after))
  {
    TupleReadsBack(p, k, 'N' as int as Byte, after);
  }

  /** An UPDATE with a key or old-row tuple before the new one reads back both rows. */
  lemma UpdateReadsBothRows(p: seq<Byte>, k: nat, kind: Byte, before: seq<ColumnValue>, after: seq<ColumnValue>)
    requires kind == 'K' as int || kind == 'O' as int
    requires TupleWritten(p, k, kind, before)
    requires TupleWritten(p, k + 3 + ColumnsSize(before), 'N' as int as Byte, after)
    ensures UpdateTuplesAt(p, k) == Some(RowChange(Some(before), after))
  {
    TupleReadsBack(p, k, kind, before);
    TupleReadsBack(p, k + 3 + ColumnsSize(before), 'N' as int as Byte, after);
  }

  /** With an old tuple, the decoder as written reads the same rows. */
  lemma UpdateAsWrittenWithOldTuple(p: seq<Byte>, k: nat)
    requires k < |p| && (p[k] == 'K' as int || p[k] == 'O' as int)
    ensures UpdateTuplesAtAsWritten(p, k) == UpdateTuplesAt(p, k)
  {
  }

  /**
   * Without an old tuple, the decoder as written takes the count's high
   * byte for the type byte: for the row of two NULL columns N, 0, 2, 'n',
   * 'n' it reads a count of 0x026E = 622 and runs past the message.
   */
  lemma UpdateAsWrittenMisreadsNewRow()
    ensures UpdateTuplesAt(['N' as int as Byte, 0, 2, 'n' as int as Byte, 'n' as int as Byte], 0) ==
              Some(RowChange(None, [NoValue('n' as int as Byte), NoValue('n' as int as Byte)]))
    ensures UpdateTuplesAtAsWritten(['N' as int as Byte, 0, 2, 'n' as int as Byte, 'n' as int as Byte], 0) == None
  {
    var n: Byte := 'n' as int as Byte;
    var p: seq<Byte> := ['N' as int as Byte, 0, 2, n, n];
    assert BeAt(p, 1, 1) == 0;
    assert BeAt(p, 1, 2) == 2;
    assert ColumnAt(p, 3) == Some(Decoded(NoValue(n), 1));
    assert ColumnAt(p, 4) == Some(Decoded(NoValue(n), 1));
    assert ColumnsAt(p, 5, 0) == Some(Decoded([], 0));
    assert [NoValue(n)] + [] == [NoValue(n)];
    assert ColumnsAt(p, 4, 1) == Some(Decoded([NoValue(n)], 1));
    assert [NoValue(n)] + [NoValue(n)] == [NoValue(n), NoValue(n)];
    assert ColumnsAt(p, 3, 2) == Some(Decoded([NoValue(n), NoValue(n)], 2));
    assert BeAt(p, 2, 1) == 2;
    assert BeAt(p, 2, 2) == 622;
    assert ColumnAt(p, 5) == None;
    assert ColumnsAt(p, 5, 621) == None;
    assert ColumnsAt(p, 4, 622) == None;
  }

  // ---------------------------------------------------------------------
  // RELATION
  // ---------------------------------------------------------------------

  /**
   * One column description at k: flags byte, NUL-terminated name (kept to
   * 127 bytes), Int32 type OID, Int32 type modifier (read as int32_t).
   */
  function AttrAt(p: seq<Byte>, k: nat): (r: Option<Decoded<Attr>>)
    ensures r.Some? ==> 0 < r.value.used && k + r.value.used <= |p|
  {
    if |p| <= k then None
    else
      var n := StrLen(p[k + 1..]);
      if |p| < k + n + 10 then None
      else Some(Decoded(Attr(p[k], Truncate127(Chars(p[k + 1..k + 1 + n])), BeAt(p, k + n + 2, 4),
                             ToInt32(BeAt(p, k + n + 6, 4))), n + 10))
  }

  function AttrsAt(p: seq<Byte>, k: nat, n: nat): (r: Option<Decoded<seq<Attr>>>)
    requires k <= |p|
    ensures r.Some? ==> |r.value.value| == n && k + r.value.used <= |p|
    decreases n
  {
    if n == 0 then Some(Decoded([], 0))
    else
      match AttrAt(p, k)
      case None => None
      case Some(a) =>
        match AttrsAt(p, k + a.used, n - 1)
        case None => None
        case Some(rest) => Some(Decoded([a.value] + rest.value, a.used + rest.used))
  }

  /**
   * A RELATION body at k: Int32 relation OID, namespace and relation names
   * (NUL-terminated), replica-identity byte, Int16 column count, columns.
   */
  function RelationAt(p: seq<Byte>, k: nat): (r: Option<Decoded<RelationMsg>>)
    ensures r.Some? ==> k + r.value.used <= |p|
  {
    if |p| < k + 4 then None
    else
      var s := StrLen(p[k + 4..]);
      var j := k + 5 + s;
      if |p| < j then None
      else
        var t := StrLen(p[j..]);
        if |p| < j + t + 4 then None
        else
          match AttrsAt(p, j + t + 4, BeAt(p, j + t + 2, 2))
          case None => None
          case Some(attrs) =>
            Some(Decoded(RelationMsg(BeAt(p, k, 4), Chars(p[k + 4..k + 4 + s]), Chars(p[j..j + t]), p[j + t + 1],
                                     attrs.value),
                         5 + s + t + 4 + attrs.used))
  }

  // ---------------------------------------------------------------------
  // append_value_to_json
  // ---------------------------------------------------------------------

  /** The types whose text form is written into the JSON as it is. */
  predicate IsVerbatimType(typid: nat)
  {
    typid == PG_TYPE_INT2 || typid == PG_TYPE_INT4 || typid == PG_TYPE_INT8 || typid == PG_TYPE_OID ||
    typid == PG_TYPE_FLOAT4 || typid == PG_TYPE_FLOAT8 || typid == PG_TYPE_NUMERIC ||
    typid == PG_TYPE_JSON || typid == PG_TYPE_JSONB
  }

  /**
   * The JSON text of one column value. A value without data is null; bool
   * is true only for a text form starting with 't'; numbers and json are
   * copied up to the first NUL (the copied value is NUL-terminated); every
   * other type becomes a quoted, escaped JSON string.
   */
  function FormatValue(v: ColumnValue, typid: nat): string
  {
    match v
    case NoValue(_) => "null"
    case Text(b) =>
      if typid == PG_TYPE_BOOL then (if |b| > 0 && b[0] == 't' as int then "true" else "false")
      else if IsVerbatimType(typid) then Chars(b[..StrLen(b)])
      else "\"" + EscapeValue(b) + "\""
  }

  /** One `"name":value` member. */
  function ColumnJson(name: string, v: ColumnValue, typid: nat): string
  {
    "\"" + name + "\":" + FormatValue(v, typid)
  }

  /**
   * What a consumer reads back from a formatted value: null for a missing
   * value, the text exactly for a text-like type, the text form for numbers
   * and json, and a boolean that is true exactly for a 't' form.
   */
  lemma FormatValueReadsBack(v: ColumnValue, typid: nat)
    ensures v.NoValue? ==> FormatValue(v, typid) == "null"
    ensures v.Text? && typid == PG_TYPE_BOOL ==>
      (FormatValue(v, typid) == "true" <==> (|v.bytes| > 0 && v.bytes[0] == 't' as int)) &&
      (FormatValue(v, typid) == "true" || FormatValue(v, typid) == "false")
    ensures v.Text? && IsVerbatimType(typid) && (forall i :: 0 <= i < |v.bytes| ==> v.bytes[i] != 0) ==>
      FormatValue(v, typid) == Chars(v.bytes)
    ensures v.Text? && typid != PG_TYPE_BOOL && !IsVerbatimType(typid) ==>
      var f := FormatValue(v, typid);
      |f| >= 2 && f[0] == '"' && f[|f| - 1] == '"' && JsonUnescape(f[1..|f| - 1]) == Some(Chars(v.bytes))
  {
    if v.Text? {
      var b := v.bytes;
      if IsVerbatimType(typid) && (forall i :: 0 <= i < |b| ==> b[i] != 0) {
        assert StrLen(b) == |b|;
        assert b[..|b|] == b;
      }
      if typid != PG_TYPE_BOOL && !IsVerbatimType(typid) {
        var f := FormatValue(v, typid);
        assert f[1..|f| - 1] == EscapeValue(b);
        ValueEscapeRoundTrip(b);
      }
    }
  }
}
