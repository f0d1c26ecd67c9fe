// Byte-level decoding of MySQL binlog events: the little-endian readers,
// the column bitmaps, the table-map metadata length prefix (a MySQL
// length-encoded integer) and the wire widths of column values, following
// the binlog event formats of the MySQL replication protocol.
module BinlogBytes {
  import opened Wrappers
  import opened CText

  type U16 = x: int | 0 <= x < 0x1_0000

  function Pow256(n: nat): (r: nat)
    ensures r > 0
  {
    if n == 0 then 1 else 256 * Pow256(n - 1)
  }

  function Pow2(n: nat): (r: nat)
    ensures r > 0
  {
    if n == 0 then 1 else 2 * Pow2(n - 1)
  }

  /** The reference little-endian reading: byte i weighs 256^i. */
  function LeValue(p: seq<Byte>): (v: nat)
    ensures v < Pow256(|p|)
  {
    if p == [] then 0 else p[0] as nat + 256 * LeValue(p[1..])
  }

  /** The reference big-endian reading: the last byte weighs 1. */
  function BeValue(p: seq<Byte>): (v: nat)
    ensures v < Pow256(|p|)
  {
    if p == [] then 0 else BeValue(p[..|p| - 1]) * 256 + p[|p| - 1] as nat
  }

  /** The n low-order bytes of v, least significant first. */
  function LeBytes(v: nat, n: nat): (r: seq<Byte>)
    ensures |r| == n
  {
    if n == 0 then [] else [v % 256] + LeBytes(v / 256, n - 1)
  }

  lemma {:induction false} LeBytesRoundTrip(v: nat, n: nat)
    requires v < Pow256(n)
    ensures LeValue(LeBytes(v, n)) == v
  {
    if n > 0 {
      LeBytesRoundTrip(v / 256, n - 1);
      assert LeBytes(v, n)[1..] == LeBytes(v / 256, n - 1);
    }
  }

  lemma {:induction false} LeValueRoundTrip(p: seq<Byte>)
    ensures LeBytes(LeValue(p), |p|) == p
  {
    if p != [] {
      LeValueRoundTrip(p[1..]);
      assert (p[0] + 256 * LeValue(p[1..])) / 256 == LeValue(p[1..]);
    }
  }

  // The fixed-width readers. Their bytes occupy disjoint bit ranges, so the
  // C `|` of shifted bytes is the sum written here.

  function Le16(p: seq<Byte>): (v: nat)
    requires |p| >= 2
    ensures v == LeValue(p[..2]) && v < 0x1_0000
  {
    assert p[..2][1..] == [p[1]];
    p[0] as nat + p[1] as nat * 0x100
  }

  function Le24(p: seq<Byte>): (v: nat)
    requires |p| >= 3
    ensures v == LeValue(p[..3]) && v < 0x100_0000
  {
    var q := p[..3];
    assert q[1..][1..][1..] == [];
    assert LeValue(q[1..]) == p[1] as nat + 256 * p[2] as nat;
    p[0] as nat + p[1] as nat * 0x100 + p[2] as nat * 0x1_0000
  }

  function Le32(p: seq<Byte>): (v: nat)
    requires |p| >= 4
    ensures v == LeValue(p[..4]) && v < 0x1_0000_0000
  {
    var q := p[..4];
    assert q[1..][1..][1..][1..] == [];
    assert LeValue(q[1..][1..]) == p[2] as nat + 256 * p[3] as nat;
    assert LeValue(q[1..]) == p[1] as nat + 256 * (p[2] as nat + 256 * p[3] as nat);
    p[0] as nat + p[1] as nat * 0x100 + p[2] as nat * 0x1_0000 + p[3] as nat * 0x100_0000
  }

  /** le48(p) = le16(p + 4) * 2^32 + le32(p): the 6-byte table id. */
  function Le48(p: seq<Byte>): (v: nat)
    requires |p| >= 6
    ensures v == LeValue(p[..6])
  {
    var q := p[..6];
    assert q[1..][1..][1..][1..][1..][1..] == [];
    assert LeValue(q[1..][1..][1..][1..]) == p[4] as nat + 256 * p[5] as nat;
    assert LeValue(q[1..][1..][1..]) == p[3] as nat + 256 * (p[4] as nat + 256 * p[5] as nat);
    assert LeValue(q[1..][1..]) == p[2] as nat + 256 * (p[3] as nat + 256 * (p[4] as nat + 256 * p[5] as nat));
    assert LeValue(q[1..]) == p[1] as nat + 256 * (p[2] as nat + 256 * (p[3] as nat + 256 * (p[4] as nat + 256 * p[5] as nat)));
    Le16(p[4..]) * 0x1_0000_0000 + Le32(p)
  }

  /** le64: the loop from byte 7 down to byte 0, shifting in one byte at a time. */
  method Le64(p: seq<Byte>) returns (v: nat)
    requires |p| >= 8
    ensures v == LeValue(p[..8])
    ensures v < 0x1_0000_0000_0000_0000
  {
    v := 0;
    // i runs 7, 6, ..., 0 as in the C loop; it is decremented before use
    var i: nat := 8;
    assert p[8..8] == [];
    while i > 0
      invariant i <= 8
      invariant v == LeValue(p[i..8])
    {
      i := i - 1;
      LeValueOfSlice(p, i, 8);
      v := p[i] as nat + 256 * v;
    }
    assert p[0..8] == p[..8];
    Pow256Of8();
  }

  /** Peeling the first byte off a slice. */
  lemma LeValueOfSlice(p: seq<Byte>, i: nat, j: nat)
    requires i < j <= |p|
    ensures LeValue(p[i..j]) == p[i] as nat + 256 * LeValue(p[i + 1..j])
  {
    assert p[i..j][1..] == p[i + 1..j];
  }

  lemma Pow256Of8()
    ensures Pow256(8) == 0x1_0000_0000_0000_0000
  {
    assert Pow256(2) == 0x1_0000;
    assert Pow256(4) == 0x1_0000_0000;
    assert Pow256(6) == 0x1_0000_0000_0000;
  }

  /** bit_get: bit (idx & 7) of byte (idx >> 3). */
  function BitGet(bits: seq<Byte>, idx: nat): (b: nat)
    requires idx / 8 < |bits|
    ensures b <= 1
  {
    (bits[idx / 8] / Pow2(idx % 8)) % 2
  }

  /** The number of columns below n whose bit is set. */
  function PresentCount(bits: seq<Byte>, n: nat): (c: nat)
    requires n <= 8 * |bits|
    ensures c <= n
  {
    if n == 0 then 0 else PresentCount(bits, n - 1) + BitGet(bits, n - 1)
  }

  function PresentSet(bits: seq<Byte>, n: nat): set<nat>
    requires n <= 8 * |bits|
  {
    set i: nat | i < n && BitGet(bits, i) == 1
  }

  /** The count is exactly the number of set bits among the first n. */
  lemma {:induction false} PresentCountIsCardinality(bits: seq<Byte>, n: nat)
    requires n <= 8 * |bits|
    ensures PresentCount(bits, n) == |PresentSet(bits, n)|
  {
    if n == 0 {
      assert PresentSet(bits, 0) == {};
    } else {
      PresentCountIsCardinality(bits, n - 1);
      if BitGet(bits, n - 1) == 1 {
        assert PresentSet(bits, n) == PresentSet(bits, n - 1) + {n - 1};
      } else {
        assert PresentSet(bits, n) == PresentSet(bits, n - 1);
      }
    }
  }

  /** count_present_columns: the counting loop. */
  method CountPresentColumns(bits: seq<Byte>, ncols: nat) returns (count: nat)
    requires ncols <= 8 * |bits|
    ensures count == PresentCount(bits, ncols)
    ensures count <= ncols
  {
    count := 0;
    var i := 0;
    while i < ncols
      invariant i <= ncols
      invariant count == PresentCount(bits, i)
    {
      if BitGet(bits, i) == 1 {
        count := count + 1;
      }
      i := i + 1;
    }
  }

  /** (n + 7) >> 3: the bytes of a bitmap with n entries. */
  function BitmapLen(n: nat): (r: nat)
    ensures 8 * r >= n && 8 * r < n + 8
  {
    (n + 7) / 8
  }

  /**
   * The null bitmap in front of a row holds one bit per column present in
   * the row: the row is rejected (None) when it is shorter than that bitmap.
   */
  function RowNullBitmap(present: seq<Byte>, ncols: nat, rowLen: nat): (r: Option<nat>)
    requires ncols <= 8 * |present|
    ensures r.None? <==> rowLen < BitmapLen(PresentCount(present, ncols))
    ensures r.Some? ==> r.value == BitmapLen(PresentCount(present, ncols)) && r.value <= rowLen
    ensures r.Some? ==> 8 * r.value >= PresentCount(present, ncols)
  {
    var bmp := BitmapLen(PresentCount(present, ncols));
    if rowLen < bmp then None else Some(bmp)
  }

  // ---------------------------------------------------------------------
  // Table-map metadata length prefix
  // ---------------------------------------------------------------------

  /** Bytes the length prefix needs to be readable. */
  predicate LenPrefixReadable(p: seq<Byte>)
  {
    |p| >= 1 && (p[0] == 252 ==> |p| >= 3) && (p[0] == 253 ==> |p| >= 4)
  }

  /**
   * The metadata block's length and the bytes its prefix occupies. A first
   * byte of 251, 254 or 255 is not recognised: the length is 0 and nothing
   * is consumed.
   */
  function MetaLenPrefix(p: seq<Byte>): (r: (nat, nat))
    requires LenPrefixReadable(p)
    ensures p[0] < 251 ==> r == (p[0], 1)
    ensures p[0] == 252 ==> r == (LeValue(p[1..3]), 3)
    ensures p[0] == 253 ==> r == (LeValue(p[1..4]), 4)
    ensures p[0] == 251 || p[0] >= 254 ==> r == (0, 0)
  {
    if p[0] < 251 then (p[0], 1)
    else if p[0] == 252 then
      assert p[1..][..2] == p[1..3];
      (Le16(p[1..]), 3)
    else if p[0] == 253 then
      // le32(p) & 0xFFFFFF keeps the low three bytes
      assert p[1..][..3] == p[1..4];
      (Le24(p[1..]), 4)
    else (0, 0)
  }

  /** The MySQL length-encoded form of a length below 2^24. */
  function EncodeLenenc(n: nat): (r: seq<Byte>)
    requires n < 0x100_0000
    ensures 1 <= |r| <= 4
  {
    if n < 251 then [n]
    else if n < 0x1_0000 then [252] + LeBytes(n, 2)
    else [253] + LeBytes(n, 3)
  }

  /** Reading the prefix back yields the length and skips exactly the prefix. */
  lemma LenencRoundTrip(n: nat, rest: seq<Byte>)
    requires n < 0x100_0000
    ensures LenPrefixReadable(EncodeLenenc(n) + rest)
    ensures MetaLenPrefix(EncodeLenenc(n) + rest) == (n, |EncodeLenenc(n)|)
  {
    var p := EncodeLenenc(n) + rest;
    if n >= 251 && n < 0x1_0000 {
      assert p[1..3] == LeBytes(n, 2);
      LeBytesRoundTrip(n, 2);
    } else if n >= 0x1_0000 {
      assert p[1..4] == LeBytes(n, 3);
      LeBytesRoundTrip(n, 3);
    }
  }

  // ---------------------------------------------------------------------
  // Column types and value widths
  // ---------------------------------------------------------------------

  const MT_DECIMAL: nat := 0
  const MT_TINY: nat := 1
  const MT_SHORT: nat := 2
  const MT_LONG: nat := 3
  const MT_FLOAT: nat := 4
  const MT_DOUBLE: nat := 5
  const MT_NULL: nat := 6
  const MT_TIMESTAMP: nat := 7
  const MT_LONGLONG: nat := 8
  const MT_INT24: nat := 9
  const MT_DATE: nat := 10
  const MT_TIME: nat := 11
  const MT_DATETIME: nat := 12
  const MT_YEAR: nat := 13
  const MT_NEWDATE: nat := 14
  const MT_VARCHAR: nat := 15
  const MT_BIT: nat := 16
  const MT_TIMESTAMP2: nat := 17
  const MT_DATETIME2: nat := 18
  const MT_TIME2: nat := 19
  const MT_NEWDECIMAL: nat := 246
  const MT_ENUM: nat := 247
  const MT_SET: nat := 248
  const MT_TINY_BLOB: nat := 249
  const MT_MEDIUM_BLOB: nat := 250
  const MT_LONG_BLOB: nat := 251
  const MT_BLOB: nat := 252
  const MT_VAR_STRING: nat := 253
  const MT_STRING: nat := 254
  const MT_GEOMETRY: nat := 255

  /** The bytes of the length field in front of a variable-width value. */
  function LengthFieldWidth(t: nat, meta: U16): nat
  {
    if t == MT_VARCHAR then (if meta < 256 then 1 else 2)
    else if t == MT_BLOB then meta
    else if t == MT_STRING then (if meta / 256 == 0 then 1 else 2)
    else 0
  }

  /** The width of the fractional-seconds part of TIMESTAMP2 and DATETIME2. */
  function FractionWidth(meta: U16): nat
  {
    if meta > 0 then (meta + 1) / 2 else 0
  }

  /** The real types skip_column_value knows a width for. */
  predicate SkippableType(t: nat)
  {
    t in {MT_TINY, MT_SHORT, MT_YEAR, MT_INT24, MT_LONG, MT_FLOAT, MT_TIMESTAMP,
          MT_LONGLONG, MT_DOUBLE, MT_TIMESTAMP2, MT_DATETIME2, MT_VARCHAR,
          MT_BLOB, MT_ENUM, MT_STRING}
  }

  /**
   * skip_column_value: the bytes a non-NULL value of real type t occupies.
   * A BLOB's length field is its pack length (1 to 4 bytes, as the table
   * map announces it); for any other type the metadata is what the table
   * map holds.
   */
  function SkipColumnValue(t: nat, meta: U16, p: seq<Byte>): (n: nat)
    requires t == MT_BLOB ==> meta <= 4
    requires |p| >= LengthFieldWidth(t, meta)
    ensures t == MT_TINY ==> n == 1
    ensures t == MT_SHORT || t == MT_YEAR ==> n == 2
    ensures t == MT_INT24 ==> n == 3
    ensures t == MT_LONG || t == MT_FLOAT || t == MT_TIMESTAMP ==> n == 4
    ensures t == MT_LONGLONG || t == MT_DOUBLE ==> n == 8
    ensures t == MT_TIMESTAMP2 ==> n == 4 + FractionWidth(meta)
    ensures t == MT_DATETIME2 ==> n == 5 + FractionWidth(meta)
    ensures t == MT_ENUM ==> n == (if (meta / 256) % 256 == 1 then 1 else 2)
    ensures t in {MT_VARCHAR, MT_BLOB, MT_STRING} ==>
              n == LengthFieldWidth(t, meta) + LeValue(p[..LengthFieldWidth(t, meta)])
    ensures !SkippableType(t) ==> n == 0
  {
    if t == MT_TINY then 1
    else if t == MT_SHORT || t == MT_YEAR then 2
    else if t == MT_INT24 then 3
    else if t == MT_LONG || t == MT_FLOAT || t == MT_TIMESTAMP then 4
    else if t == MT_LONGLONG || t == MT_DOUBLE then 8
    else if t == MT_TIMESTAMP2 then 4 + FractionWidth(meta)
    else if t == MT_DATETIME2 then 5 + FractionWidth(meta)
    else if t == MT_VARCHAR then
      if meta < 256 then 1 + p[0] else 2 + Le16(p)
    else if t == MT_BLOB then meta + LeValue(p[..meta])
    else if t == MT_ENUM then (if (meta / 256) % 256 == 1 then 1 else 2)
    else if t == MT_STRING then
      if meta / 256 == 0 then 1 + p[0] else 2 + Le16(p)
    else 0
  }

  /**
   * Skipping a length-prefixed value (VARCHAR, BLOB, STRING) written as its
   * length field followed by its bytes lands exactly after those bytes.
   */
  lemma SkipLandsAfterValue(t: nat, meta: U16, body: seq<Byte>, rest: seq<Byte>)
    requires t in {MT_VARCHAR, MT_BLOB, MT_STRING}
    requires t == MT_BLOB ==> meta <= 4
    requires |body| < Pow256(LengthFieldWidth(t, meta))
    ensures |LeBytes(|body|, LengthFieldWidth(t, meta)) + body + rest| >= LengthFieldWidth(t, meta)
    ensures SkipColumnValue(t, meta, LeBytes(|body|, LengthFieldWidth(t, meta)) + body + rest)
            == LengthFieldWidth(t, meta) + |body|
  {
    var w := LengthFieldWidth(t, meta);
    var p := LeBytes(|body|, w) + body + rest;
    assert p[..w] == LeBytes(|body|, w);
    LeBytesRoundTrip(|body|, w);
  }

  // ---------------------------------------------------------------------
  // Integer and DATETIME2 values (append_column_value_to_json)
  // ---------------------------------------------------------------------

  /** (int8_t)*p for TINY. */
  function DecodeTiny(p: seq<Byte>): (r: int)
    requires |p| >= 1
    ensures -0x80 <= r < 0x80
    ensures r % 0x100 == p[0]
  {
    if p[0] >= 0x80 then p[0] as int - 0x100 else p[0]
  }

  /** (int16_t)le16(p) for SHORT and YEAR. */
  function DecodeShort(p: seq<Byte>): (r: int)
    requires |p| >= 2
    ensures -0x8000 <= r < 0x8000
    ensures r % 0x1_0000 == Le16(p)
  {
    var v := Le16(p);
    if v >= 0x8000 then v - 0x1_0000 else v
  }

  /** INT24: le24, then the sign bit 0x800000 extended into the upper byte. */
  function DecodeInt24(p: seq<Byte>): (r: int)
    requires |p| >= 3
    ensures -0x80_0000 <= r < 0x80_0000
  {
    var v := Le24(p);
    if v >= 0x80_0000 then v - 0x100_0000 else v
  }

  /** Any 24-bit signed value written in three bytes reads back unchanged. */
  lemma Int24RoundTrip(x: int)
    requires -0x80_0000 <= x < 0x80_0000
    ensures DecodeInt24(LeBytes(x % 0x100_0000, 3)) == x
  {
    assert Pow256(3) == 0x100_0000;
    var p := LeBytes(x % 0x100_0000, 3);
    LeBytesRoundTrip(x % 0x100_0000, 3);
    assert p[..3] == p;
  }

  /** The fields a DATETIME2 value is printed with. */
  datatype DateTime = DateTime(year: int, month: int, day: int, hour: int, minute: int, second: int)

  /** C's `/` on int: truncation toward zero. */
  function CDiv(a: int, b: int): (q: int)
    requires b > 0
    ensures a >= 0 ==> q == a / b
  {
    if a >= 0 then a / b else -((-a) / b)
  }

  /** C's `%` on int: the remainder takes the sign of the dividend. */
  function CRem(a: int, b: int): (r: int)
    requires b > 0
    ensures a == CDiv(a, b) * b + r
    ensures a >= 0 ==> r == a % b
  {
    if a >= 0 then a % b else -((-a) % b)
  }

  /**
   * The DATETIME2 field split applied to the 40-bit big-endian integer
   * part. The unsigned subtraction of 0x8000000000 wraps modulo 2^64 and
   * the 64-bit result is narrowed to `int` before the `>> 5`, `/ 13`, `% 13`.
   */
  function Datetime2Fields(val: nat): (dt: DateTime)
  {
    var v := (val - 0x80_0000_0000) % 0x1_0000_0000_0000_0000;
    var ymd := ToInt32(v / 0x2_0000);
    var ym := ymd / 32;
    var hms := v % 0x2_0000;
    DateTime(CDiv(ym, 13), CRem(ym, 13), ymd % 32, hms / 0x1000, (hms / 64) % 64, hms % 64)
  }

  /** DATETIME2: the five bytes are read most significant first. */
  method DecodeDatetime2(p: seq<Byte>) returns (dt: DateTime)
    requires |p| >= 5
    ensures dt == Datetime2Fields(BeValue(p[..5]))
  {
    var val := 0;
    var i := 0;
    while i < 5
      invariant i <= 5
      invariant val == BeValue(p[..i])
    {
      assert p[..i + 1][..i] == p[..i];
      val := val * 256 + p[i] as nat;
      i := i + 1;
    }
    dt := Datetime2Fields(val);
  }

  predicate ValidDateTime(dt: DateTime)
  {
    0 <= dt.year <= 9999 && 0 <= dt.month <= 12 && 0 <= dt.day <= 31 &&
    0 <= dt.hour <= 23 && 0 <= dt.minute <= 59 && 0 <= dt.second <= 59
  }

  /** The packed integer part MySQL writes for a DATETIME2 value. */
  function PackDatetime2(dt: DateTime): (val: nat)
    requires ValidDateTime(dt)
  {
    0x80_0000_0000 +
    (((dt.year * 13 + dt.month) * 32 + dt.day) * 0x2_0000) +
    dt.hour * 0x1000 + dt.minute * 64 + dt.second
  }

  lemma SplitLow17(a: nat, b: nat)
    requires b < 0x2_0000
    ensures (a * 0x2_0000 + b) / 0x2_0000 == a && (a * 0x2_0000 + b) % 0x2_0000 == b
  {
  }

  lemma SplitLow5(a: nat, b: nat)
    requires b < 32
    ensures (a * 32 + b) / 32 == a && (a * 32 + b) % 32 == b
  {
  }

  lemma SplitBy13(a: nat, b: nat)
    requires b < 13
    ensures (a * 13 + b) / 13 == a && (a * 13 + b) % 13 == b
  {
  }

  lemma SplitLow6(a: nat, b: nat)
    requires b < 64
    ensures (a * 64 + b) / 64 == a && (a * 64 + b) % 64 == b
  {
  }

  /** The decoder's field split of a packed value, given its parts. */
  lemma Datetime2FieldsOfParts(ym: nat, day: nat, hm: nat, second: nat)
    requires day < 32 && second < 64 && hm < 24 * 64 && ym < 130000
    ensures Datetime2Fields(0x80_0000_0000 + ((ym * 32 + day) * 0x2_0000 + hm * 64 + second)) ==
            DateTime(ym / 13, ym % 13, day, hm / 64, hm % 64, second)
  {
    var ymd: nat := ym * 32 + day;
    var hms: nat := hm * 64 + second;
    var v: nat := ymd * 0x2_0000 + hms;
    assert hms < 0x2_0000;
    assert v < 0x80_0000_0000;
    assert (0x80_0000_0000 + v - 0x80_0000_0000) % 0x1_0000_0000_0000_0000 == v;
    SplitLow17(ymd, hms);
    assert ToInt32(v / 0x2_0000) == ymd;
    SplitLow5(ym, day);
    SplitLow6(hm, second);
    assert hms / 0x1000 == hm / 64;
  }

  /** Every valid date and time survives packing and the decoder's field split. */
  lemma Datetime2RoundTrip(dt: DateTime)
    requires ValidDateTime(dt)
    ensures PackDatetime2(dt) < 0x100_0000_0000
    ensures Datetime2Fields(PackDatetime2(dt)) == dt
  {
    var ym: nat := dt.year * 13 + dt.month;
    var hm: nat := dt.hour * 64 + dt.minute;
    assert ym < 130000 && hm < 24 * 64;
    var x := 0x80_0000_0000 + ((ym * 32 + dt.day) * 0x2_0000 + hm * 64 + dt.second);
    assert PackDatetime2(dt) == x;
    assert x < 0x100_0000_0000;
    Datetime2FieldsOfParts(ym, dt.day, hm, dt.second);
    assert ym / 13 == dt.year && ym % 13 == dt.month by {
      SplitBy13(dt.year, dt.month);
    }
    assert hm / 64 == dt.hour && hm % 64 == dt.minute by {
      SplitLow6(dt.hour, dt.minute);
    }
  }
}
