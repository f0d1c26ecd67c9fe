// The standby status update send_status_update writes back to the server:
// the 34-byte 'r' message of section 55.4 of the PostgreSQL 16
// documentation (Streaming Replication Protocol), carrying the write,
// flush and apply LSNs, the client clock (meant as microseconds since
// 2000-01-01 00:00:00 UTC, converted as the source converts it) and the
// reply-requested flag.
module PgFeedback {
  import opened CText
  import opened BinlogBytes
  import opened PgWire

  const STATUS_UPDATE_LENGTH: nat := 34

  /** Seconds from the Unix epoch (1970-01-01) to the PostgreSQL epoch (2000-01-01). */
  const PG_EPOCH_OFFSET_SECONDS: int := 946684800

  /**
   * The timestamp as send_status_update computes it from time(NULL): the
   * epoch offset is added where it should be subtracted, so the value is
   * twice the offset ahead of the protocol's.
   */
  function StatusTimestampAsWritten(now: int): (ts: int)
    ensures ts == StatusTimestamp(now) + 2 * PG_EPOCH_OFFSET_SECONDS * 1000000
  {
    now * 1000000 + 946684800000000
  }

  /** The timestamp the protocol asks for: microseconds since the PostgreSQL epoch. */
  function StatusTimestamp(now: int): int
  {
    (now - 946684800) * 1000000
  }

  /** How the server reads a status timestamp back as Unix seconds. */
  function PgTimestampToUnixSeconds(ts: int): int
  {
    ts / 1000000 + 946684800
  }

  /** The corrected timestamp tells the server the client's clock. */
  lemma StatusTimestampMeansNow(now: int)
    ensures PgTimestampToUnixSeconds(StatusTimestamp(now)) == now
  {
    assert StatusTimestamp(now) / 1000000 == now - 946684800;
  }

  /** As written, every status update claims a clock 60 years (2 * 946684800 s) ahead. */
  lemma StatusTimestampAsWrittenIsAhead(now: int)
    ensures PgTimestampToUnixSeconds(StatusTimestampAsWritten(now)) == now + 2 * PG_EPOCH_OFFSET_SECONDS
  {
    assert StatusTimestampAsWritten(now) == (now + 946684800) * 1000000;
    assert StatusTimestampAsWritten(now) / 1000000 == now + 946684800;
  }

  /** At 2000-01-01 00:00:00 UTC the field should be 0; as written it is 2060-01-01. */
  lemma StatusTimestampAtPgEpoch()
    ensures StatusTimestamp(946684800) == 0
    ensures StatusTimestampAsWritten(946684800) == 1893369600000000
    ensures PgTimestampToUnixSeconds(StatusTimestampAsWritten(946684800)) == 2840054400
  {
  }

  /** `(uint64_t)` of a 64-bit signed value: two's complement. */
  function ToUint64(x: int): (r: nat)
    ensures r < 0x1_0000_0000_0000_0000
    ensures 0 <= x < 0x1_0000_0000_0000_0000 ==> r == x
  {
    x % 0x1_0000_0000_0000_0000
  }

  /** How the receiver reads an Int64 field: two's complement. */
  function FromUint64(v: nat): int
    requires v < 0x1_0000_0000_0000_0000
  {
    if v < 0x8000_0000_0000_0000 then v else v - 0x1_0000_0000_0000_0000
  }

  /**
   * The status buffer: 'r', write/flush/apply LSN, timestamp (all
   * htobe64), then the reply-requested byte 0.
   */
  function StatusMessage(lsn: nat, ts: int): seq<Byte>
  {
    ['r' as int as Byte] + (BeBytes(lsn, 8) + (BeBytes(lsn, 8) + (BeBytes(lsn, 8) +
      (BeBytes(ToUint64(ts), 8) + [0]))))
  }

  /** Reading the fields back at their offsets gives what was sent. */
  lemma StatusMessageLayout(lsn: nat, ts: int)
    requires lsn < 0x1_0000_0000_0000_0000
    requires -0x8000_0000_0000_0000 <= ts < 0x8000_0000_0000_0000
    ensures |StatusMessage(lsn, ts)| == STATUS_UPDATE_LENGTH
    ensures StatusMessage(lsn, ts)[0] == 'r' as int
    ensures BeValue(StatusMessage(lsn, ts)[1..9]) == lsn
    ensures BeValue(StatusMessage(lsn, ts)[9..17]) == lsn
    ensures BeValue(StatusMessage(lsn, ts)[17..25]) == lsn
    ensures FromUint64(BeValue(StatusMessage(lsn, ts)[25..33])) == ts
    ensures StatusMessage(lsn, ts)[33] == 0
  {
    var m := StatusMessage(lsn, ts);
    var b := BeBytes(lsn, 8);
    var t := BeBytes(ToUint64(ts), 8);
    assert m[1..9] == b && m[9..17] == b && m[17..25] == b && m[25..33] == t;
    Pow256Of8();
    BeBytesRoundTrip(lsn, 8);
    BeBytesRoundTrip(ToUint64(ts), 8);
  }

  /** `memcpy(&buf[at], &tmp, 8)` of `tmp = htobe64(v)`. */
  method PutBe64(buf: array<Byte>, at: nat, v: nat)
    requires at + 8 <= buf.Length
    modifies buf
    ensures buf[..] == old(buf[..at]) + BeBytes(v, 8) + old(buf[at + 8..])
  {
    var tmp := BeBytes(v, 8);
    forall k | 0 <= k < 8 {
      buf[at + k] := tmp[k];
    }
  }

  /**
   * send_status_update: the buffer it fills from current_lsn and the clock
   * (`now` is time(NULL)), and its result: -1 when PQputCopyData or
   * PQflush fails (`putOk`, `flushOk`), else 0.
   */
  method SendStatusUpdate(currentLsn: nat, now: int, putOk: bool, flushOk: bool)
    returns (rc: int, buf: array<Byte>)
    ensures fresh(buf)
    ensures buf[..] == StatusMessage(currentLsn, StatusTimestampAsWritten(now))
    ensures rc == (if putOk && flushOk then 0 else -1)
  {
    buf := new Byte[STATUS_UPDATE_LENGTH](_ => 0);
    var timestamp := StatusTimestampAsWritten(now);
    buf[0] := 'r' as int as Byte;
    PutBe64(buf, 1, currentLsn);
    PutBe64(buf, 9, currentLsn);
    PutBe64(buf, 17, currentLsn);
    PutBe64(buf, 25, ToUint64(timestamp));
    buf[33] := 0;
    assert buf[..] == StatusMessage(currentLsn, timestamp);
    rc := if putOk && flushOk then 0 else -1;
  }
}
