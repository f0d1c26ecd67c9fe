// Text handling in the MySQL binlog decoder: QUERY_EVENT statement
// classification and the two JSON string escapers (the one used for
// VARCHAR/STRING/ENUM column values and the one used for DDL statements).
// Binlog bytes become characters one for one; the JSON text is a byte
// string whose characters are all below 256.
module BinlogText {
  import opened Wrappers
  import opened CText

  /** The bytes of a buffer read as characters. */
  function Chars(bs: seq<Byte>): (s: string)
    ensures |s| == |bs|
    ensures forall i :: 0 <= i < |bs| ==> s[i] as int == bs[i]
  {
    if bs == [] then [] else [bs[0] as char] + Chars(bs[1..])
  }

  // ---------------------------------------------------------------------
  // Statement classification (parse_query)
  // ---------------------------------------------------------------------

  datatype QueryKind = Begin | Commit | Rollback | Create | Alter | Drop | Truncate | Rename | Query

  /** The `type` string parse_query reports for each kind. */
  function KindName(k: QueryKind): string
  {
    match k
    case Begin => "BEGIN"
    case Commit => "COMMIT"
    case Rollback => "ROLLBACK"
    case Create => "CREATE"
    case Alter => "ALTER"
    case Drop => "DROP"
    case Truncate => "TRUNCATE"
    case Rename => "RENAME"
    case Query => "QUERY"
  }

  /** The keywords in the order parse_query tests them. */
  const Keywords: seq<QueryKind> := [Begin, Commit, Rollback, Create, Alter, Drop, Truncate, Rename]

  function Rank(k: QueryKind): (r: nat)
    ensures r <= |Keywords|
    ensures k != Query ==> r < |Keywords| && Keywords[r] == k
  {
    match k
    case Begin => 0
    case Commit => 1
    case Rollback => 2
    case Create => 3
    case Alter => 4
    case Drop => 5
    case Truncate => 6
    case Rename => 7
    case Query => 8
  }

  /** The statements that set the DDL flag. */
  predicate IsDdl(k: QueryKind)
  {
    k == Create || k == Alter || k == Drop || k == Truncate || k == Rename
  }

  /**
   * The first keyword, in the order above, that starts the statement when
   * case is ignored; QUERY when none does.
   */
  function ClassifyQuery(q: string): (k: QueryKind)
    ensures k != Query ==> HasPrefixIgnoreCase(q, KindName(k))
    ensures forall j :: 0 <= j < Rank(k) ==> !HasPrefixIgnoreCase(q, KindName(Keywords[j]))
  {
    if HasPrefixIgnoreCase(q, "BEGIN") then Begin
    else if HasPrefixIgnoreCase(q, "COMMIT") then Commit
    else if HasPrefixIgnoreCase(q, "ROLLBACK") then Rollback
    else if HasPrefixIgnoreCase(q, "CREATE") then Create
    else if HasPrefixIgnoreCase(q, "ALTER") then Alter
    else if HasPrefixIgnoreCase(q, "DROP") then Drop
    else if HasPrefixIgnoreCase(q, "TRUNCATE") then Truncate
    else if HasPrefixIgnoreCase(q, "RENAME") then Rename
    else Query
  }

  /** Which prefixes of which keywords agree with which, case ignored. */
  lemma PrefixOfKeyword(k: QueryKind, rest: string, j: nat)
    requires k != Query && j < Rank(k)
    ensures !HasPrefixIgnoreCase(KindName(k) + rest, KindName(Keywords[j]))
  {
    var q := KindName(k) + rest;
    var w := KindName(Keywords[j]);
    assert Lower(q[0]) != Lower(w[0]) || Lower(q[1]) != Lower(w[1]);
  }

  /** A statement that starts with a keyword, in any case, is classified by it. */
  lemma KeywordClassifies(k: QueryKind, rest: string)
    requires k != Query
    ensures ClassifyQuery(KindName(k) + rest) == k
  {
    var q := KindName(k) + rest;
    var c := ClassifyQuery(q);
    forall j | 0 <= j < Rank(k)
      ensures !HasPrefixIgnoreCase(q, KindName(Keywords[j]))
    {
      PrefixOfKeyword(k, rest, j);
    }
    assert HasPrefixIgnoreCase(q, KindName(k));
    assert Keywords[Rank(k)] == k;
    assert c != Query ==> Keywords[Rank(c)] == c;
  }

  lemma LowerOfUpper(c: char)
    ensures Lower(Upper(c)) == Lower(c)
  {
  }

  lemma UpperKeepsPrefix(q: string, w: string)
    ensures HasPrefixIgnoreCase(UpperString(q), w) == HasPrefixIgnoreCase(q, w)
  {
    var u := UpperString(q);
    if |w| <= |q| {
      forall i | 0 <= i < |w|
        ensures Lower(u[i]) == Lower(q[i])
      {
        LowerOfUpper(q[i]);
      }
    }
  }

  /** Upper-casing the statement never changes how it is classified. */
  lemma ClassifyIgnoresCase(q: string)
    ensures ClassifyQuery(UpperString(q)) == ClassifyQuery(q)
  {
    UpperKeepsPrefix(q, "BEGIN");
    UpperKeepsPrefix(q, "COMMIT");
    UpperKeepsPrefix(q, "ROLLBACK");
    UpperKeepsPrefix(q, "CREATE");
    UpperKeepsPrefix(q, "ALTER");
    UpperKeepsPrefix(q, "DROP");
    UpperKeepsPrefix(q, "TRUNCATE");
    UpperKeepsPrefix(q, "RENAME");
  }

  // ---------------------------------------------------------------------
  // JSON string escaping
  // ---------------------------------------------------------------------

  function HexDigit(d: nat): (c: char)
    requires d < 16
  {
    if d < 10 then ('0' as int + d) as char else ('a' as int + d - 10) as char
  }

  function HexValue(c: char): Option<nat>
  {
    if '0' <= c <= '9' then Some(c as int - '0' as int)
    else if 'a' <= c <= 'f' then Some(c as int - 'a' as int + 10)
    else if 'A' <= c <= 'F' then Some(c as int - 'A' as int + 10)
    else None
  }

  /** The JSON escape a column value gets for one byte ("\\u%04x" below 32). */
  function EscapeValueByte(b: Byte): (e: string)
    ensures 1 <= |e| <= 6
  {
    if b == '"' as int then "\\\""
    else if b == '\\' as int then "\\\\"
    else if b == '\n' as int then "\\n"
    else if b == '\r' as int then "\\r"
    else if b == '\t' as int then "\\t"
    else if b < 32 then "\\u00" + [HexDigit(b / 16), HexDigit(b % 16)]
    else [b as char]
  }

  /** The escaped text of a whole value, byte by byte. */
  function EscapeValue(bs: seq<Byte>): (s: string)
  {
    if bs == [] then [] else EscapeValue(bs[..|bs| - 1]) + EscapeValueByte(bs[|bs| - 1])
  }

  /** The DDL statement escape: only quote, backslash, LF, CR and tab. */
  function EscapeDdlChar(c: char): (e: string)
    ensures 1 <= |e| <= 2
  {
    if c == '"' then "\\\""
    else if c == '\\' then "\\\\"
    else if c == '\n' then "\\n"
    else if c == '\r' then "\\r"
    else if c == '\t' then "\\t"
    else [c]
  }

  function EscapeDdl(s: string): (e: string)
    ensures |e| <= 2 * |s|
  {
    if s == [] then [] else EscapeDdl(s[..|s| - 1]) + EscapeDdlChar(s[|s| - 1])
  }

  /**
   * A JSON string-body reader: the escapes \" \\ \n \r \t and \uXXXX, and
   * every other character as itself. None on a malformed escape.
   */
  function JsonUnescape(s: string): (r: Option<string>)
    decreases |s|
  {
    if s == [] then Some([])
    else if s[0] != '\\' then
      match JsonUnescape(s[1..])
      case Some(t) => Some([s[0]] + t)
      case None => None
    else if |s| < 2 then None
    else
      var c := s[1];
      if c == '"' || c == '\\' || c == 'n' || c == 'r' || c == 't' then
        var d := if c == 'n' then '\n' else if c == 'r' then '\r' else if c == 't' then '\t' else c;
        match JsonUnescape(s[2..])
        case Some(t) => Some([d] + t)
        case None => None
      else if c == 'u' && |s| >= 6 then
        match (HexValue(s[2]), HexValue(s[3]), HexValue(s[4]), HexValue(s[5]))
        case (Some(h1), Some(h2), Some(h3), Some(h4)) =>
          var code := ((h1 * 16 + h2) * 16 + h3) * 16 + h4;
          if 0xD800 <= code < 0xE000 || code >= 0x11_0000 then None
          else
            (match JsonUnescape(s[6..])
             case Some(t) => Some([code as char] + t)
             case None => None)
        case _ => None
      else None
  }

  lemma HexRoundTrip(d: nat)
    requires d < 16
    ensures HexValue(HexDigit(d)) == Some(d)
  {
  }

  /** Unescaping one escaped byte in front of more text. */
  lemma UnescapeValueByte(b: Byte, t: string)
    ensures JsonUnescape(EscapeValueByte(b) + t) ==
            (match JsonUnescape(t) case Some(u) => Some([b as char] + u) case None => None)
  {
    var e := EscapeValueByte(b);
    var s := e + t;
    if b < 32 && b != '\n' as int && b != '\r' as int && b != '\t' as int {
      HexRoundTrip(b / 16);
      HexRoundTrip(b % 16);
      assert s[2] == '0' && s[3] == '0' && s[4] == HexDigit(b / 16) && s[5] == HexDigit(b % 16);
      assert s[6..] == t;
    } else if |e| == 2 {
      assert s[2..] == t;
    } else {
      assert s[1..] == t;
    }
  }

  lemma UnescapeDdlChar(c: char, t: string)
    ensures JsonUnescape(EscapeDdlChar(c) + t) ==
            (match JsonUnescape(t) case Some(u) => Some([c] + u) case None => None)
  {
    var e := EscapeDdlChar(c);
    var s := e + t;
    if |e| == 2 {
      assert s[2..] == t;
    } else {
      assert s[1..] == t;
    }
  }

  lemma {:induction false} EscapeValueCons(b: Byte, bs: seq<Byte>)
    ensures EscapeValue([b] + bs) == EscapeValueByte(b) + EscapeValue(bs)
    decreases |bs|
  {
    var s := [b] + bs;
    if bs == [] {
      assert s[..0] == [];
      assert EscapeValue(s) == EscapeValue([]) + EscapeValueByte(b);
    } else {
      var init := bs[..|bs| - 1];
      var last := bs[|bs| - 1];
      assert s[..|s| - 1] == [b] + init;
      assert s[|s| - 1] == last;
      EscapeValueCons(b, init);
      var eb := EscapeValueByte(b);
      var el := EscapeValueByte(last);
      assert EscapeValue(s) == EscapeValue([b] + init) + el;
      assert EscapeValue(bs) == EscapeValue(init) + el;
    }
  }

  lemma {:induction false} EscapeDdlCons(c: char, s: string)
    ensures EscapeDdl([c] + s) == EscapeDdlChar(c) + EscapeDdl(s)
    decreases |s|
  {
    var cs := [c] + s;
    if s == [] {
      assert cs[..0] == [];
      assert EscapeDdl(cs) == EscapeDdl([]) + EscapeDdlChar(c);
    } else {
      var init := s[..|s| - 1];
      var last := s[|s| - 1];
      assert cs[..|cs| - 1] == [c] + init;
      assert cs[|cs| - 1] == last;
      EscapeDdlCons(c, init);
      assert EscapeDdl(cs) == EscapeDdl([c] + init) + EscapeDdlChar(last);
      assert EscapeDdl(s) == EscapeDdl(init) + EscapeDdlChar(last);
    }
  }

  /** A JSON reader gets the column value's bytes back from its escaped text. */
  lemma {:induction false} ValueEscapeRoundTrip(bs: seq<Byte>)
    ensures JsonUnescape(EscapeValue(bs)) == Some(Chars(bs))
    decreases |bs|
  {
    if bs != [] {
      EscapeValueCons(bs[0], bs[1..]);
      assert [bs[0]] + bs[1..] == bs;
      ValueEscapeRoundTrip(bs[1..]);
      UnescapeValueByte(bs[0], EscapeValue(bs[1..]));
    }
  }

  /** A JSON reader gets the statement back from its escaped text. */
  lemma {:induction false} DdlEscapeRoundTrip(s: string)
    ensures JsonUnescape(EscapeDdl(s)) == Some(s)
    decreases |s|
  {
    if s != [] {
      EscapeDdlCons(s[0], s[1..]);
      assert [s[0]] + s[1..] == s;
      DdlEscapeRoundTrip(s[1..]);
      UnescapeDdlChar(s[0], EscapeDdl(s[1..]));
    }
  }

  /** No character below 32 is left raw in an escaped column value. */
  lemma {:induction false} ValueEscapeHasNoControlChars(bs: seq<Byte>)
    ensures forall i :: 0 <= i < |EscapeValue(bs)| ==> EscapeValue(bs)[i] as int >= 32
    decreases |bs|
  {
    if bs != [] {
      ValueEscapeHasNoControlChars(bs[..|bs| - 1]);
    }
  }

  /**
   * The DDL escape leaves other control characters raw: a statement holding
   * byte 1 keeps it in the escaped text.
   */
  lemma DdlEscapeKeepsControlChars()
    ensures EscapeDdl([1 as char]) == [1 as char]
  {
  }

  /**
   * The VARCHAR/STRING value loop: an opening quote, each byte escaped, a
   * closing quote. (The buffer-space guard of the loop is not modelled.)
   */
  method QuoteValue(bs: seq<Byte>) returns (out: string)
    ensures out == "\"" + EscapeValue(bs) + "\""
  {
    out := "\"";
    var i := 0;
    while i < |bs|
      invariant i <= |bs|
      invariant out == "\"" + EscapeValue(bs[..i])
    {
      // quote, backslash, LF, CR, tab and the other bytes below 32 are escaped
      var e := EscapeValueByte(bs[i]);
      assert bs[..i + 1][..i] == bs[..i];
      out := out + e;
      i := i + 1;
    }
    assert bs[..|bs|] == bs;
    out := out + "\"";
  }

  function Min(a: nat, b: nat): nat
  {
    if a < b then a else b
  }

  /** The DDL buffer: `char escaped_query[2048]`. */
  const DDL_BUFFER_SIZE: nat := 2048

  /**
   * The DDL escape loop of parse_query: at most 1023 statement characters
   * are escaped into a 2048-byte buffer while fewer than 2046 bytes are
   * written. The character limit is always the one that stops it: the
   * escaped text is at most 2046 bytes, so the terminating NUL fits.
   */
  method EscapeQuery(query: string) returns (escaped: string)
    ensures escaped == EscapeDdl(query[..Min(|query|, 1023)])
    ensures |escaped| <= DDL_BUFFER_SIZE - 2
  {
    var buf := new char[DDL_BUFFER_SIZE];
    var i := 0;
    var j := 0;
    while i < |query| && i < 1023 && j < 2046
      invariant i <= Min(|query|, 1023)
      invariant j <= 2 * i
      invariant buf[..j] == EscapeDdl(query[..i])
    {
      var c := query[i];
      assert query[..i + 1][..i] == query[..i];
      ghost var before := buf[..j];
      // quote, backslash, LF, CR and tab take a backslash and one more character
      var e := EscapeDdlChar(c);
      if |e| == 2 {
        buf[j] := e[0];
        buf[j + 1] := e[1];
        assert buf[..j + 2] == buf[..j] + [e[0], e[1]];
        assert [e[0], e[1]] == e;
        j := j + 2;
      } else {
        buf[j] := e[0];
        assert buf[..j + 1] == buf[..j] + [e[0]];
        assert [e[0]] == e;
        j := j + 1;
      }
      assert buf[..j] == before + e;
      i := i + 1;
    }
    buf[j] := 0 as char;
    escaped := buf[..j];
  }
}
