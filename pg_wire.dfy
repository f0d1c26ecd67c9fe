// The cursor readers of the PostgreSQL logical-replication decoder: the
// pg_getmsg* family reads big-endian integers, single bytes, NUL-terminated
// strings and raw byte runs out of one CopyData message, each advancing the
// read position by exactly the bytes it consumed. Integers on the wire are
// in network byte order, as section 55.9 of the PostgreSQL 16 documentation
// (Logical Replication Message Formats) lays them out.
module PgWire {
  import opened CText
  import opened BinlogBytes

  /** The n low-order bytes of v, most significant first (htobe16/32/64). */
  function BeBytes(v: nat, n: nat): (r: seq<Byte>)
    ensures |r| == n
  {
    if n == 0 then [] else BeBytes(v / 256, n - 1) + [v % 256]
  }

  lemma {:induction false} BeBytesRoundTrip(v: nat, n: nat)
    requires v < Pow256(n)
    ensures BeValue(BeBytes(v, n)) == v
  {
    if n > 0 {
      assert v / 256 < Pow256(n - 1);
      BeBytesRoundTrip(v / 256, n - 1);
      var r := BeBytes(v, n);
      assert r[..|r| - 1] == BeBytes(v / 256, n - 1);
    }
  }

  lemma {:induction false} BeValueRoundTrip(p: seq<Byte>)
    ensures BeBytes(BeValue(p), |p|) == p
  {
    if p != [] {
      var q := p[..|p| - 1];
      BeValueRoundTrip(q);
      assert (BeValue(q) * 256 + p[|p| - 1]) / 256 == BeValue(q);
      assert p == q + [p[|p| - 1]];
    }
  }

  /** A big-endian run splits into its high part shifted over the low part. */
  lemma {:induction false} BeValueSplit(p: seq<Byte>, k: nat)
    requires k <= |p|
    ensures BeValue(p) == BeValue(p[..k]) * Pow256(|p| - k) + BeValue(p[k..])
    decreases |p| - k
  {
    if k < |p| {
      var q := p[..|p| - 1];
      BeValueSplit(q, k);
      assert q[..k] == p[..k];
      assert p[k..][..|p[k..]| - 1] == q[k..];
      SplitStep(BeValue(p), BeValue(q), BeValue(p[..k]), Pow256(|q| - k), BeValue(q[k..]),
                p[|p| - 1], Pow256(|p| - k), BeValue(p[k..]));
    } else {
      assert p[..k] == p && p[k..] == [];
    }
  }

  /** The arithmetic of shifting one more low byte in. */
  lemma SplitStep(whole: nat, front: nat, hi: nat, m: nat, lo: nat, b: nat, big: nat, low: nat)
    requires front == hi * m + lo && whole == front * 256 + b
    requires big == 256 * m && low == lo * 256 + b
    ensures whole == hi * big + low
  {
    assert (hi * m + lo) * 256 == hi * (256 * m) + lo * 256;
  }

  function Be16(p: seq<Byte>): (v: nat)
    requires |p| >= 2
    ensures v == BeValue(p[..2]) && v < 0x1_0000
  {
    var q := p[..2];
    assert q[..1][..0] == [];
    assert q[..1] == [p[0]];
    p[0] as nat * 0x100 + p[1] as nat
  }

  function Be32(p: seq<Byte>): (v: nat)
    requires |p| >= 4
    ensures v == BeValue(p[..4]) && v < 0x1_0000_0000
  {
    var q := p[..4];
    BeValueSplit(q, 2);
    assert q[..2] == p[..2] && q[2..] == p[2..][..2];
    assert Pow256(2) == 0x1_0000;
    Be16(p) * 0x1_0000 + Be16(p[2..])
  }

  function Be64(p: seq<Byte>): (v: nat)
    requires |p| >= 8
    ensures v == BeValue(p[..8]) && v < 0x1_0000_0000_0000_0000
  {
    var q := p[..8];
    BeValueSplit(q, 4);
    assert q[..4] == p[..4] && q[4..] == p[4..][..4];
    assert Pow256(4) == 0x1_0000_0000;
    Be32(p) * 0x1_0000_0000 + Be32(p[4..])
  }

  /**
   * The n bytes at offset k of p, most significant first: what
   * pg_getmsgint16/32/64 return for a cursor standing at k.
   */
  function BeAt(p: seq<Byte>, k: nat, n: nat): nat
    requires k + n <= |p|
  {
    if n == 0 then 0 else BeAt(p, k, n - 1) * 256 + p[k + n - 1] as nat
  }

  lemma {:induction false} BeAtIsBeValue(p: seq<Byte>, k: nat, n: nat)
    requires k + n <= |p|
    ensures BeAt(p, k, n) == BeValue(p[k..k + n])
  {
    if n > 0 {
      BeAtIsBeValue(p, k, n - 1);
      assert p[k..k + n][..n - 1] == p[k..k + n - 1];
    }
  }

  /** Reading at k the bytes a writer put there gives the value written. */
  lemma BeAtOfBytes(p: seq<Byte>, k: nat, n: nat, v: nat)
    requires k + n <= |p| && v < Pow256(n) && p[k..k + n] == BeBytes(v, n)
    ensures BeAt(p, k, n) == v
  {
    BeAtIsBeValue(p, k, n);
    BeBytesRoundTrip(v, n);
  }

  /** strlen: the bytes before the first NUL (all of p when there is none). */
  function StrLen(p: seq<Byte>): (n: nat)
    ensures n <= |p|
    ensures forall i :: 0 <= i < n ==> p[i] != 0
    ensures n < |p| ==> p[n] == 0
  {
    if p == [] || p[0] == 0 then 0 else 1 + StrLen(p[1..])
  }

  /** A C string on the wire: its bytes, then the terminating NUL. */
  function CString(s: seq<Byte>): seq<Byte>
  {
    s + [0]
  }

  /** strlen finds exactly the string a writer terminated, whatever follows. */
  lemma {:induction false} StrLenOfCString(s: seq<Byte>, rest: seq<Byte>)
    requires forall i :: 0 <= i < |s| ==> s[i] != 0
    ensures StrLen(CString(s) + rest) == |s|
  {
    if s != [] {
      assert (CString(s) + rest)[1..] == CString(s[1..]) + rest;
      StrLenOfCString(s[1..], rest);
    }
  }

  /**
   * The `const char **ptr` the pg_getmsg* readers advance through one
   * message. The source does no bounds checking, so every reader requires
   * the bytes it reads to be present.
   */
  class Cursor {
    const buf: seq<Byte>
    var pos: nat

    constructor (b: seq<Byte>, start: nat)
      requires start <= |b|
      ensures buf == b && pos == start
    {
      buf := b;
      pos := start;
    }

    /** pg_getmsgbyte */
    method GetByte() returns (v: Byte)
      requires pos + 1 <= |buf|
      modifies this
      ensures v == buf[old(pos)] && pos == old(pos) + 1
    {
      v := buf[pos];
      pos := pos + 1;
    }

    /** pg_getmsgint16: ntohs of the next two bytes. */
    method GetInt16() returns (v: nat)
      requires pos + 2 <= |buf|
      modifies this
      ensures v == BeValue(buf[old(pos)..old(pos) + 2]) && v < 0x1_0000
      ensures pos == old(pos) + 2
    {
      v := Be16(buf[pos..]);
      assert buf[pos..][..2] == buf[pos..pos + 2];
      pos := pos + 2;
    }

    /** pg_getmsgint32: ntohl of the next four bytes. */
    method GetInt32() returns (v: nat)
      requires pos + 4 <= |buf|
      modifies this
      ensures v == BeValue(buf[old(pos)..old(pos) + 4]) && v < 0x1_0000_0000
      ensures pos == old(pos) + 4
    {
      v := Be32(buf[pos..]);
      assert buf[pos..][..4] == buf[pos..pos + 4];
      pos := pos + 4;
    }

    /** pg_getmsgint64: be64toh of the next eight bytes. */
    method GetInt64() returns (v: nat)
      requires pos + 8 <= |buf|
      modifies this
      ensures v == BeValue(buf[old(pos)..old(pos) + 8]) && v < 0x1_0000_0000_0000_0000
      ensures pos == old(pos) + 8
    {
      v := Be64(buf[pos..]);
      assert buf[pos..][..8] == buf[pos..pos + 8];
      pos := pos + 8;
    }

    /**
     * pg_getmsgstring: the bytes up to the next NUL (strdup), after which
     * the cursor stands past the NUL (strlen + 1).
     */
    method GetString() returns (s: seq<Byte>)
      requires pos <= |buf| && StrLen(buf[pos..]) < |buf| - pos
      modifies this
      ensures old(pos) + |s| < |buf| && buf[old(pos) + |s|] == 0
      ensures s == buf[old(pos)..old(pos) + |s|]
      ensures forall i :: 0 <= i < |s| ==> s[i] != 0
      ensures pos == old(pos) + |s| + 1
    {
      var n := 0;
      while buf[pos + n] != 0
        invariant n <= StrLen(buf[pos..])
        invariant forall i :: pos <= i < pos + n ==> buf[i] != 0
        decreases StrLen(buf[pos..]) - n
      {
        assert buf[pos..][n] == buf[pos + n];
        n := n + 1;
      }
      assert n == StrLen(buf[pos..]) by {
        assert buf[pos..][n] == 0;
      }
      s := buf[pos..pos + n];
      pos := pos + n + 1;
    }

    /** pg_getmsgbytes: the next len bytes, copied out. */
    method GetBytes(len: nat) returns (b: seq<Byte>)
      requires pos + len <= |buf|
      modifies this
      ensures b == buf[old(pos)..old(pos) + len] && pos == old(pos) + len
    {
      b := buf[pos..pos + len];
      pos := pos + len;
    }
  }
}
