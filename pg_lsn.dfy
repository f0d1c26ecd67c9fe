// Log sequence numbers in their text forms: the "%X/%X" of the pg_lsn type
// (section 8.20 of the PostgreSQL 16 documentation), read back by
// parse_lsn_text with sscanf("%lx/%lx"), the checkpoint file written by
// save_position with "%lX/%lX\n" and read by restore_position with
// fscanf("%lX/%lX\n"), and the choice of the LSN streaming starts from.
module PgLsn {
  import opened Wrappers
  import opened CText

  /** strtoul's result on overflow, for a 64-bit `unsigned long`. */
  const ULONG_MAX: nat := 0xFFFF_FFFF_FFFF_FFFF

  predicate IsHexDigit(c: char)
  {
    '0' <= c <= '9' || 'a' <= c <= 'f' || 'A' <= c <= 'F'
  }

  function HexDigitValue(c: char): (d: nat)
    requires IsHexDigit(c)
    ensures d < 16
  {
    if '0' <= c <= '9' then c as int - '0' as int
    else if 'a' <= c <= 'f' then c as int - 'a' as int + 10
    else c as int - 'A' as int + 10
  }

  /** The digit printf("%X") writes for d. */
  function HexDigitUpper(d: nat): (c: char)
    requires d < 16
    ensures IsHexDigit(c) && HexDigitValue(c) == d
  {
    if d < 10 then ('0' as int + d) as char else ('A' as int + d - 10) as char
  }

  predicate AllHex(s: string)
  {
    forall i :: 0 <= i < |s| ==> IsHexDigit(s[i])
  }

  /** The value of a string of hex digits, most significant first. */
  function HexValue(s: string): nat
    requires AllHex(s)
  {
    if s == [] then 0 else HexValue(s[..|s| - 1]) * 16 + HexDigitValue(s[|s| - 1])
  }

  /** Length of the longest prefix of hex digits. */
  function HexRun(s: string): (n: nat)
    ensures n <= |s| && AllHex(s[..n])
    ensures n < |s| ==> !IsHexDigit(s[n])
  {
    if s == [] || !IsHexDigit(s[0]) then 0
    else
      var n := 1 + HexRun(s[1..]);
      assert forall i :: 1 <= i < n ==> s[..n][i] == s[1..][..n - 1][i - 1];
      n
  }

  /** printf("%lX"): upper-case hex digits, no leading zeros, "0" for zero. */
  function HexUpper(n: nat): (s: string)
    ensures |s| > 0 && AllHex(s)
  {
    if n < 16 then [HexDigitUpper(n)]
    else
      var s := HexUpper(n / 16) + [HexDigitUpper(n % 16)];
      assert forall i :: 0 <= i < |s| - 1 ==> s[i] == HexUpper(n / 16)[i];
      s
  }

  lemma {:induction false} HexValueOfUpper(n: nat)
    ensures HexValue(HexUpper(n)) == n
  {
    if n >= 16 {
      var s := HexUpper(n);
      assert s[..|s| - 1] == HexUpper(n / 16);
      HexValueOfUpper(n / 16);
    }
  }

  /** A run of hex digits ends where the digits do. */
  lemma {:induction false} HexRunOfDigits(h: string, rest: string)
    requires AllHex(h)
    requires rest == [] || !IsHexDigit(rest[0])
    ensures HexRun(h + rest) == |h|
  {
    if h != [] {
      assert (h + rest)[1..] == h[1..] + rest;
      HexRunOfDigits(h[1..], rest);
    }
  }

  /**
   * One "%lx" conversion: leading white space is skipped, then the longest
   * run of hex digits is read, saturating at ULONG_MAX as strtoul does. No
   * digit means a matching failure. The result is the value and the number
   * of characters consumed.
   */
  function ScanHex(s: string): (r: Option<(nat, nat)>)
    ensures r.Some? ==> r.value.0 <= ULONG_MAX && 0 < r.value.1 <= |s|
  {
    var t := DropSpaces(s);
    var k := HexRun(t);
    if k == 0 then None
    else
      var v := HexValue(t[..k]);
      Some((if v > ULONG_MAX then ULONG_MAX else v, |s| - |t| + k))
  }

  function Pow2(n: nat): (r: nat)
    ensures r > 0
  {
    if n == 0 then 1 else 2 * Pow2(n - 1)
  }

  lemma Pow2Of32()
    ensures Pow2(32) == 0x1_0000_0000
  {
    assert Pow2(8) == 0x100;
    assert Pow2(16) == 0x1_0000;
    assert Pow2(24) == 0x100_0000;
  }

  /** The n low bits of a | b. */
  function BitOr(a: nat, b: nat, n: nat): (r: nat)
    ensures r < Pow2(n)
  {
    if n == 0 then 0
    else (if a % 2 == 1 || b % 2 == 1 then 1 else 0) + 2 * BitOr(a / 2, b / 2, n - 1)
  }

  lemma {:induction false} BitOrZero(a: nat, n: nat)
    requires a < Pow2(n)
    ensures BitOr(a, 0, n) == a
  {
    if n > 0 {
      BitOrZero(a / 2, n - 1);
    }
  }

  /**
   * `((uint64_t)upper << 32) | (uint64_t)lower` on 64-bit values: the shift
   * keeps the low 32 bits of upper as the high half, which the high half
   * of lower is or-ed into; the low half is lower's.
   */
  function Combine(upper: nat, lower: nat): (v: nat)
    requires upper < 0x1_0000_0000_0000_0000 && lower < 0x1_0000_0000_0000_0000
    ensures v < 0x1_0000_0000_0000_0000
  {
    Pow2Of32();
    BitOr(upper % 0x1_0000_0000, lower / 0x1_0000_0000, 32) * 0x1_0000_0000 + lower % 0x1_0000_0000
  }

  /** For 32-bit halves the shift and the `|` are plain arithmetic. */
  lemma CombineOfHalves(u: nat, l: nat)
    requires u < 0x1_0000_0000 && l < 0x1_0000_0000
    ensures Combine(u, l) == u * 0x1_0000_0000 + l
  {
    assert l / 0x1_0000_0000 == 0 && l % 0x1_0000_0000 == l && u % 0x1_0000_0000 == u;
    Pow2Of32();
    BitOrZero(u, 32);
  }

  /**
   * sscanf(s, "%lx/%lx", &upper, &lower) == 2, and what the two
   * conversions combine to: a hex number, a '/' immediately after it,
   * another hex number; anything after that is ignored.
   */
  function ScanLsn(s: string): Option<nat>
  {
    var upper := ScanHex(s);
    if upper.None? then None
    else
      var n := upper.value.1;
      if n < |s| && s[n] == '/' then
        var lower := ScanHex(s[n + 1..]);
        if lower.None? then None else Some(Combine(upper.value.0, lower.value.0))
      else None
  }

  /**
   * parse_lsn_text: None (-1, the output untouched) for a NULL or empty
   * text and for text the scan rejects.
   */
  function ParseLsnText(text: Option<string>): (r: Option<nat>)
    ensures text.None? || text == Some([]) ==> r.None?
    ensures r.Some? ==> r.value < 0x1_0000_0000_0000_0000
  {
    if text.None? || text.value == [] then None else ScanLsn(text.value)
  }

  /** One conversion over a run of hex digits reads exactly that run. */
  lemma ScanHexOfDigits(h: string, rest: string)
    requires h != [] && AllHex(h) && HexValue(h) <= ULONG_MAX
    requires rest == [] || !IsHexDigit(rest[0])
    ensures ScanHex(h + rest) == Some((HexValue(h), |h|))
  {
    var s := h + rest;
    HexRunOfDigits(h, rest);
    assert s[0] == h[0] && !IsSpace(s[0]);
    assert DropSpaces(s) == s;
    assert s[..|h|] == h;
  }

  lemma AfterSlash(h: string, t: string)
    ensures (h + ("/" + t))[|h|] == '/' && (h + ("/" + t))[|h| + 1..] == t
  {
    assert h + ("/" + t) == (h + "/") + t;
  }

  /** "H/L" with hex H and L below 2^32 reads as H * 2^32 + L, in either case of digit. */
  lemma ScanLsnOfHalves(h: string, l: string, rest: string)
    requires h != [] && l != [] && AllHex(h) && AllHex(l)
    requires HexValue(h) < 0x1_0000_0000 && HexValue(l) < 0x1_0000_0000
    requires rest == [] || !IsHexDigit(rest[0])
    ensures ScanLsn(h + ("/" + (l + rest))) == Some(Combine(HexValue(h), HexValue(l)))
    ensures Combine(HexValue(h), HexValue(l)) == HexValue(h) * 0x1_0000_0000 + HexValue(l)
  {
    var t := l + rest;
    var s := h + ("/" + t);
    ScanHexOfDigits(h, "/" + t);
    AfterSlash(h, t);
    ScanHexOfDigits(l, rest);
    ScanLsnOfScans(s, |h|, HexValue(h), HexValue(l));
    CombineOfHalves(HexValue(h), HexValue(l));
  }

  /** The two conversions of ScanLsn, given what each of them reads. */
  lemma ScanLsnOfScans(s: string, n: nat, hv: nat, lv: nat)
    requires ScanHex(s) == Some((hv, n)) && n < |s| && s[n] == '/'
    requires ScanHex(s[n + 1..]).Some? && ScanHex(s[n + 1..]).value.0 == lv
    ensures ScanLsn(s) == Some(Combine(hv, lv))
  {
  }

  /** The two halves save_position prints recombine to the LSN. */
  lemma CombineOfSplit(lsn: nat)
    requires lsn < 0x1_0000_0000_0000_0000
    ensures Combine(lsn / 0x1_0000_0000, lsn % 0x1_0000_0000) == lsn
  {
    var u, l := lsn / 0x1_0000_0000, lsn % 0x1_0000_0000;
    assert u < 0x1_0000_0000;
    CombineOfHalves(u, l);
  }

  /** The pg_lsn output form: the upper and lower 32 bits as "%X/%X". */
  function LsnText(lsn: nat): string
  {
    HexUpper(lsn / 0x1_0000_0000) + "/" + HexUpper(lsn % 0x1_0000_0000)
  }

  /** Reading back any LSN the server prints. */
  lemma ParseLsnTextOfLsnText(lsn: nat)
    requires lsn < 0x1_0000_0000_0000_0000
    ensures ParseLsnText(Some(LsnText(lsn))) == Some(lsn)
  {
    HexValueOfUpper(lsn / 0x1_0000_0000);
    HexValueOfUpper(lsn % 0x1_0000_0000);
    var h, l := HexUpper(lsn / 0x1_0000_0000), HexUpper(lsn % 0x1_0000_0000);
    assert LsnText(lsn) == h + ("/" + (l + []));
    ScanLsnOfHalves(h, l, []);
    CombineOfSplit(lsn);
  }

  /** save_position's file content: "%lX/%lX\n" of lsn >> 32 and lsn & 0xFFFFFFFF. */
  function CheckpointText(lsn: nat): string
  {
    LsnText(lsn) + "\n"
  }

  /**
   * restore_position: None (-1, the LSN untouched) when saving is off, when
   * the file does not open (`file` is None) or when its text does not scan.
   */
  function RestorePosition(saveLastPosition: bool, file: Option<string>): (r: Option<nat>)
    ensures !saveLastPosition || file.None? ==> r.None?
    ensures r.Some? ==> r.value < 0x1_0000_0000_0000_0000
  {
    if !saveLastPosition || file.None? then None else ScanLsn(file.value)
  }

  /** restore after save gives back the same 64-bit LSN. */
  lemma CheckpointRoundTrip(lsn: nat)
    requires lsn < 0x1_0000_0000_0000_0000
    ensures RestorePosition(true, Some(CheckpointText(lsn))) == Some(lsn)
  {
    HexValueOfUpper(lsn / 0x1_0000_0000);
    HexValueOfUpper(lsn % 0x1_0000_0000);
    var h, l := HexUpper(lsn / 0x1_0000_0000), HexUpper(lsn % 0x1_0000_0000);
    assert CheckpointText(lsn) == h + ("/" + (l + "\n"));
    ScanLsnOfHalves(h, l, "\n");
    CombineOfSplit(lsn);
  }

  /**
   * The LSN main settles on before asking the slot: the configured
   * start_lsn, overridden by a restored checkpoint; only when neither gives
   * a nonzero LSN is pg_current_wal_lsn() asked (`currentWal` is its text,
   * None when the query fails), and an unparsable answer keeps 0.
   */
  function ResumeLsn(configured: nat, restored: Option<nat>, currentWal: Option<string>): nat
  {
    if restored.Some? then restored.value
    else if configured != 0 then configured
    else ParseLsnText(currentWal).GetOr(0)
  }

  /**
   * main's start LSN: the resume point, clamped down to the slot's
   * confirmed_flush_lsn when that reads (`slotLsn` is the query's text,
   * None when the query fails or yields no single non-NULL row).
   */
  function StartLsn(configured: nat, restored: Option<nat>, currentWal: Option<string>,
                    slotLsn: Option<string>): (r: nat)
    ensures ParseLsnText(slotLsn).Some? ==>
              r == if ResumeLsn(configured, restored, currentWal) > ParseLsnText(slotLsn).value
                   then ParseLsnText(slotLsn).value else ResumeLsn(configured, restored, currentWal)
    ensures ParseLsnText(slotLsn).None? ==> r == ResumeLsn(configured, restored, currentWal)
  {
    var start := ResumeLsn(configured, restored, currentWal);
    match ParseLsnText(slotLsn)
    case Some(slot) => if start > slot then slot else start
    case None => start
  }

  /** Streaming never starts ahead of what the server has confirmed, and never below the resume point otherwise. */
  lemma StartNeverAheadOfSlot(configured: nat, restored: Option<nat>, currentWal: Option<string>, slotLsn: Option<string>)
    requires ParseLsnText(slotLsn).Some?
    ensures StartLsn(configured, restored, currentWal, slotLsn) <= ParseLsnText(slotLsn).value
    ensures StartLsn(configured, restored, currentWal, slotLsn) <= ResumeLsn(configured, restored, currentWal)
    ensures ResumeLsn(configured, restored, currentWal) <= ParseLsnText(slotLsn).value ==>
              StartLsn(configured, restored, currentWal, slotLsn) == ResumeLsn(configured, restored, currentWal)
  {
  }

  /** A readable checkpoint wins over the configuration and the server's current WAL position. */
  lemma CheckpointOverridesConfiguration(configured: nat, lsn: nat, currentWal: Option<string>)
    requires lsn < 0x1_0000_0000_0000_0000
    ensures ResumeLsn(configured, RestorePosition(true, Some(CheckpointText(lsn))), currentWal) == lsn
  {
    CheckpointRoundTrip(lsn);
  }
}
