// The Redis stream monitor: discovery of the CDC streams ("cdc:*" and
// "cdc.*" keys of type stream), the per-stream read cursors, and the
// display of each message with the statistics it updates. The Redis
// client, json.loads and the wall clock are oracles passed in as
// functions; printing is left out, and the printed line is a `Line` value.
module RedisStreamMonitor {
  import opened Wrappers
  import opened CText
  import opened PyText
  import opened Json
  import opened PyDict
  import opened Sets
  import opened MonitorStats

  const PATTERNS: seq<string> := ["cdc:*", "cdc.*"]
  const UNKNOWN_TIME: string := "??:??:??"
  /** How often (seconds) the monitor loop looks for new streams. */
  const DISCOVERY_INTERVAL: real := 5.0

  /**
   * `str(event_type).upper()` compared with the four names. Only a string
   * can match: str() of null, a boolean, a number, a list or an object
   * never spells one of them.
   */
  function TypeKind(ev: Json): Kind
  {
    match Get(ev, "type")
    case Some(JStr(s)) => KindOf(UpperString(s))
    case _ => Other
  }

  lemma UpperLetter(c: char, u: char)
    requires 'A' <= u <= 'Z'
    ensures Upper(c) == u <==> Lower(c) == Lower(u)
  {
  }

  /** Normalising with upper() makes the match case-insensitive (strcasecmp-style) for the four names. */
  lemma TypeKindIgnoresCase(s: string, name: string)
    requires name in ["INSERT", "UPDATE", "DELETE", "COMMIT"]
    ensures UpperString(s) == name <==> EqualsIgnoreCase(s, name)
  {
    assert forall i :: 0 <= i < |name| ==> 'A' <= name[i] <= 'Z';
    if EqualsIgnoreCase(s, name) {
      forall i | 0 <= i < |s|
        ensures UpperString(s)[i] == name[i]
      {
        UpperLetter(s[i], name[i]);
      }
    }
    if UpperString(s) == name {
      forall i | 0 <= i < |s|
        ensures Lower(s[i]) == Lower(name[i])
      {
        UpperLetter(s[i], name[i]);
      }
    }
  }

  // ---------------------------------------------------------------------
  // One message

  /** `format_timestamp`: the milliseconds before the first '-', through the clock; "??:??:??" on any failure. */
  function FormatTimestamp(id: string, clock: int -> Option<string>): string
  {
    match PyInt(FirstField(id, '-'))
    case None => UNKNOWN_TIME
    case Some(ms) => clock(ms).GetOr(UNKNOWN_TIME)
  }

  /** A well-formed stream id "<ms>-<seq>" is shown at its millisecond time. */
  lemma TimestampOfId(ms: nat, sq: nat, clock: int -> Option<string>)
    ensures FormatTimestamp(NatToDecimal(ms) + "-" + NatToDecimal(sq), clock) == clock(ms).GetOr(UNKNOWN_TIME)
  {
    var a := NatToDecimal(ms);
    assert forall i :: 0 <= i < |a| ==> IsDigit(a[i]);
    assert '-' !in a;
    FirstFieldOf(a, '-', NatToDecimal(sq));
    PyIntOfNat(ms);
  }

  /** An id whose first field holds a character int() refuses is shown as "??:??:??". */
  lemma TimestampOfGarbage(id: string, i: nat, clock: int -> Option<string>)
    requires i < |FirstField(id, '-')|
    requires var c := id[i]; !IsDigit(c) && c != '_' && c != '+' && !PyIsSpace(c)
    ensures FormatTimestamp(id, clock) == UNKNOWN_TIME
  {
    var f := FirstField(id, '-');
    assert f[i] == id[i];
    assert f[i] != '-';
    PyIntRejects(f, i);
  }

  /** The payload: the 'json' field, else the first field's value, else "{}". */
  function Payload(data: Dict<string>): string
  {
    match Lookup(data, "json")
    case Some(raw) => raw
    case None => if data != [] then data[0].1 else "{}"
  }

  /** `json.loads(raw_json)`, with {} for text that does not decode. */
  function Decoded(data: Dict<string>, decode: string -> Option<Json>): Json
  {
    decode(Payload(data)).GetOr(JObj([]))
  }

  /** `data.get(key, event_json.get(key, default))`: the message field wins over the payload. */
  function Field(data: Dict<string>, ev: Json, key: string, default: string): Json
  {
    match Lookup(data, key)
    case Some(v) => JStr(v)
    case None => Get(ev, key).GetOr(JStr(default))
  }

  /** `len(event_json.get('rows', []))`, 0 when rows has no length. */
  function RowCount(ev: Json): nat
  {
    Len(Get(ev, "rows").GetOr(JArr([]))).GetOr(0)
  }

  /** `f"{(table or ''):20s}"` formats a falsy value or a string; any other value raises. */
  predicate TableFormats(t: Json)
  {
    !Truthy(t) || t.JStr?
  }

  /** What one printed line shows. */
  datatype Line = Line(time: string, kind: Kind, db: Json, table: Json, txn: Json, rows: nat, stream: string, event: Json)

  /** A display either prints its line or raises out of the monitor loop. */
  datatype Shown = Crash | Shown(line: Line)

  /**
   * `display_event`: a payload that decodes to anything but an object
   * raises on `.get` before the statistics change; a table that cannot be
   * formatted raises when printing, after they changed.
   */
  function Display(stats: Stats, stream: string, id: string, data: Dict<string>,
                   decode: string -> Option<Json>, clock: int -> Option<string>): (Stats, Shown)
  {
    var ev := Decoded(data, decode);
    if !ev.JObj? then (stats, Crash)
    else
      var kind := TypeKind(ev);
      var table := Field(data, ev, "table", "?");
      if !TableFormats(table) then (Bump(stats, kind), Crash)
      else (Bump(stats, kind),
            Shown(Line(FormatTimestamp(id, clock), kind, Field(data, ev, "db", "?"), table,
                       Field(data, ev, "txn", "none"), RowCount(ev), stream, ev)))
  }

  /** A message whose payload names its table and type as strings is always shown and counted. */
  lemma DisplayShows(stats: Stats, stream: string, id: string, data: Dict<string>,
                     decode: string -> Option<Json>, clock: int -> Option<string>)
    requires Lookup(data, "table").Some?
    requires decode(Payload(data)).None? || decode(Payload(data)).value.JObj?
    ensures Display(stats, stream, id, data, decode, clock).1.Shown?
    ensures Display(stats, stream, id, data, decode, clock).0 == Bump(stats, TypeKind(Decoded(data, decode)))
  {
  }

  /** Text that does not decode is shown as an empty object of unknown type, and counted only in the total. */
  lemma UndecodableIsUnknown(stats: Stats, stream: string, id: string, data: Dict<string>,
                             decode: string -> Option<Json>, clock: int -> Option<string>)
    requires decode(Payload(data)).None?
    ensures Display(stats, stream, id, data, decode, clock).0 == stats.(total := stats.total + 1)
    ensures Lookup(data, "table").Some? ==>
              var shown := Display(stats, stream, id, data, decode, clock).1;
              shown.Shown? && shown.line.kind == Other && shown.line.rows == 0
  {
    var ev := Decoded(data, decode);
    assert ev == JObj([]);
    assert Get(ev, "type") == None && Get(ev, "rows") == None;
    assert TypeKind(ev) == Other && RowCount(ev) == 0;
    assert Bump(stats, Other) == stats.(total := stats.total + 1);
  }

  /** A decoded value that is not an object stops the monitor before anything is counted. */
  lemma NonObjectCrashes(stats: Stats, stream: string, id: string, data: Dict<string>,
                         decode: string -> Option<Json>, clock: int -> Option<string>)
    requires decode(Payload(data)).Some? && !decode(Payload(data)).value.JObj?
    ensures Display(stats, stream, id, data, decode, clock) == (stats, Crash)
  {
  }

  // ---------------------------------------------------------------------
  // A reply of XREAD, message by message

  type Message = (string, string, Dict<string>)
  type Reply = seq<(string, seq<(string, Dict<string>)>)>

  /** The messages of one stream, tagged with the stream's name. */
  function Tagged(stream: string, msgs: seq<(string, Dict<string>)>): (r: seq<Message>)
    ensures |r| == |msgs|
    ensures forall i :: 0 <= i < |msgs| ==> r[i] == (stream, msgs[i].0, msgs[i].1)
  {
    seq(|msgs|, i requires 0 <= i < |msgs| => (stream, msgs[i].0, msgs[i].1))
  }

  lemma TaggedSnoc(stream: string, msgs: seq<(string, Dict<string>)>, j: nat)
    requires j < |msgs|
    ensures Tagged(stream, msgs[..j + 1]) == Tagged(stream, msgs[..j]) + [(stream, msgs[j].0, msgs[j].1)]
  {
    var a := Tagged(stream, msgs[..j + 1]);
    var b := Tagged(stream, msgs[..j]) + [(stream, msgs[j].0, msgs[j].1)];
    assert |a| == |b|;
    forall i | 0 <= i < |a|
      ensures a[i] == b[i]
    {
      if i < j {
        assert msgs[..j + 1][i] == msgs[..j][i];
      }
    }
  }

  /** The reply's messages in the order the two loops visit them. */
  function Flatten(reply: Reply): seq<Message>
  {
    if reply == [] then []
    else Flatten(reply[..|reply| - 1]) + Tagged(reply[|reply| - 1].0, reply[|reply| - 1].1)
  }

  datatype State = State(streams: map<string, string>, stats: Stats)

  /** How a message is displayed, given the statistics so far. */
  type Show = (Stats, Message) -> (Stats, Shown)

  /** `display_event` with the script's json.loads and clock. */
  function Displayer(decode: string -> Option<Json>, clock: int -> Option<string>): (show: Show)
    ensures forall s: Stats, m: Message :: show(s, m) == Display(s, m.0, m.1, m.2, decode, clock)
  {
    (s: Stats, m: Message) => Display(s, m.0, m.1, m.2, decode, clock)
  }

  /** One message: its stream's cursor moves to its id, then it is displayed. */
  function Step(st: State, m: Message, show: Show): (State, bool)
  {
    var d := show(st.stats, m);
    (State(st.streams[m.0 := m.1], d.0), d.1.Shown?)
  }

  lemma StepIs(st: State, m: Message, decode: string -> Option<Json>, clock: int -> Option<string>,
               stats: Stats, shown: Shown)
    requires (stats, shown) == Display(st.stats, m.0, m.1, m.2, decode, clock)
    ensures Step(st, m, Displayer(decode, clock)) == (State(st.streams[m.0 := m.1], stats), shown.Shown?)
  {
  }

  /** The messages in order, up to the first display that raises. */
  function Process(st: State, msgs: seq<Message>, show: Show): (State, bool)
  {
    if msgs == [] then (st, true)
    else
      var r := Process(st, msgs[..|msgs| - 1], show);
      if !r.1 then r else Step(r.0, msgs[|msgs| - 1], show)
  }

  lemma ProcessSnoc(st: State, msgs: seq<Message>, m: Message, show: Show)
    ensures Process(st, msgs + [m], show) ==
            if Process(st, msgs, show).1 then Step(Process(st, msgs, show).0, m, show)
            else Process(st, msgs, show)
  {
    assert (msgs + [m])[..|msgs|] == msgs;
  }

  /**
   * Processing two runs of messages is processing the first, then the
   * second from where it left off; once a display raised, later messages
   * are never reached.
   */
  lemma {:induction false} ProcessConcat(st: State, a: seq<Message>, b: seq<Message>,
                                         show: Show)
    ensures Process(st, a + b, show) ==
            if Process(st, a, show).1 then Process(Process(st, a, show).0, b, show)
            else Process(st, a, show)
  {
    if b == [] {
      assert a + b == a;
    } else {
      var n := |b| - 1;
      ProcessConcat(st, a, b[..n], show);
      assert a + b == (a + b[..n]) + [b[n]];
      assert b == b[..n] + [b[n]];
      ProcessSnoc(st, a + b[..n], b[n], show);
      ProcessSnoc(Process(st, a, show).0, b[..n], b[n], show);
    }
  }

  /** A stream's later messages are not reached after a display raised. */
  lemma StreamStopped(st: State, stream: string, messages: seq<(string, Dict<string>)>, j: nat,
                      show: Show)
    requires j <= |messages| && !Process(st, Tagged(stream, messages[..j]), show).1
    ensures Process(st, Tagged(stream, messages), show) == Process(st, Tagged(stream, messages[..j]), show)
  {
    assert Tagged(stream, messages) == Tagged(stream, messages[..j]) + Tagged(stream, messages[j..]);
    ProcessConcat(st, Tagged(stream, messages[..j]), Tagged(stream, messages[j..]), show);
  }

  /** The statistics never count an event under two kinds. */
  lemma {:induction false} ProcessCounted(st: State, msgs: seq<Message>, decode: string -> Option<Json>, clock: int -> Option<string>)
    requires Counted(st.stats)
    ensures Counted(Process(st, msgs, Displayer(decode, clock)).0.stats)
  {
    if msgs != [] {
      var show := Displayer(decode, clock);
      ProcessCounted(st, msgs[..|msgs| - 1], decode, clock);
      var r := Process(st, msgs[..|msgs| - 1], show);
      var m := msgs[|msgs| - 1];
      assert show(r.0.stats, m) == Display(r.0.stats, m.0, m.1, m.2, decode, clock);
    }
  }

  /** When every message was shown, each one was counted once in the total. */
  lemma {:induction false} ProcessTotal(st: State, msgs: seq<Message>, decode: string -> Option<Json>, clock: int -> Option<string>)
    ensures var r := Process(st, msgs, Displayer(decode, clock));
            r.1 ==> r.0.stats.total == st.stats.total + |msgs|
  {
    if msgs != [] {
      var show := Displayer(decode, clock);
      ProcessTotal(st, msgs[..|msgs| - 1], decode, clock);
      var r := Process(st, msgs[..|msgs| - 1], show);
      var m := msgs[|msgs| - 1];
      assert show(r.0.stats, m) == Display(r.0.stats, m.0, m.1, m.2, decode, clock);
    }
  }

  /** A step moves its stream's cursor and no other, whatever the display does. */
  lemma StepStreams(st: State, m: Message, show: Show)
    ensures Step(st, m, show).0.streams == st.streams[m.0 := m.1]
  {
  }

  /** The last message of a run that was processed through is a step from the run before it. */
  lemma LastStep(st: State, msgs: seq<Message>, show: Show)
    requires msgs != [] && Process(st, msgs, show).1
    ensures var r := Process(st, msgs[..|msgs| - 1], show);
            r.1 && Process(st, msgs, show).0.streams == r.0.streams[msgs[|msgs| - 1].0 := msgs[|msgs| - 1].1]
  {
    var n := |msgs| - 1;
    var r := Process(st, msgs[..n], show);
    StepStreams(r.0, msgs[n], show);
  }

  /** A stream with a shown message ends at the id of its last one. */
  lemma {:induction false} CursorAdvanced(st: State, msgs: seq<Message>, i: nat,
                                          show: Show)
    requires i < |msgs| && forall j :: i < j < |msgs| ==> msgs[j].0 != msgs[i].0
    requires Process(st, msgs, show).1
    ensures var s := Process(st, msgs, show).0.streams;
            msgs[i].0 in s && s[msgs[i].0] == msgs[i].1
  {
    var n := |msgs| - 1;
    var prefix := msgs[..n];
    LastStep(st, msgs, show);
    var r := Process(st, prefix, show).0.streams;
    var s := Process(st, msgs, show).0.streams;
    assert s == r[msgs[n].0 := msgs[n].1];
    if i < n {
      assert forall j :: i < j < n ==> prefix[j] == msgs[j];
      assert prefix[i] == msgs[i];
      CursorAdvanced(st, prefix, i, show);
      assert msgs[i].0 in r && r[msgs[i].0] == msgs[i].1;
      assert msgs[n].0 != msgs[i].0;
    } else {
      assert i == n;
    }
    assert msgs[i].0 in s && s[msgs[i].0] == msgs[i].1;
  }

  /** A stream without messages in the reply keeps its cursor. */
  lemma {:induction false} CursorKept(st: State, msgs: seq<Message>, stream: string,
                                      show: Show)
    requires forall j :: 0 <= j < |msgs| ==> msgs[j].0 != stream
    ensures var s := Process(st, msgs, show).0.streams;
            (stream in s <==> stream in st.streams) && (stream in s ==> s[stream] == st.streams[stream])
  {
    if msgs != [] {
      var n := |msgs| - 1;
      var prefix := msgs[..n];
      assert forall j :: 0 <= j < n ==> prefix[j] == msgs[j];
      CursorKept(st, prefix, stream, show);
      var r := Process(st, prefix, show);
      if r.1 {
        StepStreams(r.0, msgs[n], show);
      }
    }
  }

  // ---------------------------------------------------------------------
  // Discovery

  /**
   * The stream keys one KEYS listing contributes: each key with its TYPE
   * reply, None where TYPE raised, which ends that pattern's loop (a KEYS
   * call that raised is the empty listing).
   */
  function PatternNames(listing: seq<(string, Option<string>)>): set<string>
  {
    if listing == [] || listing[0].1.None? then {}
    else (if listing[0].1 == Some("stream") then {listing[0].0} else {}) + PatternNames(listing[1..])
  }

  /** Only keys whose type is "stream" are taken. */
  lemma {:induction false} PatternNamesAreStreams(listing: seq<(string, Option<string>)>, name: string)
    requires name in PatternNames(listing)
    ensures exists i :: 0 <= i < |listing| && listing[i] == (name, Some("stream"))
  {
    if listing[0] != (name, Some("stream")) {
      PatternNamesAreStreams(listing[1..], name);
      var i :| 0 <= i < |listing[1..]| && listing[1..][i] == (name, Some("stream"));
      assert listing[i + 1] == listing[1..][i];
    }
  }

  /** Every stream key listed before the first failing TYPE call is taken. */
  lemma {:induction false} PatternNamesComplete(listing: seq<(string, Option<string>)>, i: nat)
    requires i < |listing| && listing[i].1 == Some("stream")
    requires forall j :: 0 <= j < i ==> listing[j].1.Some?
    ensures listing[i].0 in PatternNames(listing)
  {
    if i > 0 {
      assert listing[0].1.Some?;
      assert forall j :: 0 <= j < i - 1 ==> listing[1..][j] == listing[j + 1];
      PatternNamesComplete(listing[1..], i - 1);
    }
  }

  /** The stream keys the given patterns contribute. */
  function DiscoveredIn(patterns: seq<string>, listingOf: string -> seq<(string, Option<string>)>): set<string>
  {
    if patterns == [] then {}
    else DiscoveredIn(patterns[..|patterns| - 1], listingOf) + PatternNames(listingOf(patterns[|patterns| - 1]))
  }

  /** `stream_names`: the union over both patterns. */
  function Discovered(listingOf: string -> seq<(string, Option<string>)>): set<string>
  {
    DiscoveredIn(PATTERNS, listingOf)
  }

  /** A name is discovered exactly when one of the two patterns contributes it. */
  lemma DiscoveredEither(listingOf: string -> seq<(string, Option<string>)>, name: string)
    ensures name in Discovered(listingOf) <==>
            name in PatternNames(listingOf("cdc:*")) || name in PatternNames(listingOf("cdc.*"))
  {
    var l0 := PatternNames(listingOf("cdc:*"));
    var l1 := PatternNames(listingOf("cdc.*"));
    assert PATTERNS[..1] == ["cdc:*"] && PATTERNS[..1][..0] == [];
    assert DiscoveredIn(PATTERNS[..1], listingOf) == l0;
    assert Discovered(listingOf) == DiscoveredIn(PATTERNS[..1], listingOf) + l1;
  }

  /** The names of several discoveries, one after the other. */
  function DiscoveredAll(attempts: seq<string -> seq<(string, Option<string>)>>): set<string>
  {
    if attempts == [] then {}
    else DiscoveredAll(attempts[..|attempts| - 1]) + Discovered(attempts[|attempts| - 1])
  }

  lemma DiscoveredAllSnoc(attempts: seq<string -> seq<(string, Option<string>)>>, k: nat)
    requires k < |attempts|
    ensures DiscoveredAll(attempts[..k + 1]) == DiscoveredAll(attempts[..k]) + Discovered(attempts[k])
  {
    assert attempts[..k + 1][..k] == attempts[..k];
  }

  lemma FirstDiscovery(m: map<string, string>, s0: map<string, string>,
                       attempts: seq<string -> seq<(string, Option<string>)>>, start: string)
    requires |attempts| > 0 && Registered(m, s0, Discovered(attempts[0]), start)
    ensures Registered(m, s0, DiscoveredAll(attempts[..1]), start)
  {
    DiscoveredAllSnoc(attempts, 0);
    assert attempts[..0] == [];
    assert DiscoveredAll(attempts[..1]) == Discovered(attempts[0]);
  }

  /** Two registrations in a row register the union: a later discovery never moves a cursor. */
  lemma RegisteredTwice(m0: map<string, string>, m1: map<string, string>, m2: map<string, string>,
                        a: set<string>, b: set<string>, start: string)
    requires Registered(m1, m0, a, start) && Registered(m2, m1, b, start)
    ensures Registered(m2, m0, a + b, start)
  {
  }

  /** A discovery made while nothing was registered: nothing was known and nothing had been found before it. */
  lemma AwaitStep(s0: map<string, string>, before: map<string, string>, after: map<string, string>,
                  attempts: seq<string -> seq<(string, Option<string>)>>, k: nat, start: string)
    requires k < |attempts| && before == map[]
    requires Registered(before, s0, DiscoveredAll(attempts[..k]), start)
    requires Registered(after, before, Discovered(attempts[k]), start)
    ensures Registered(after, s0, DiscoveredAll(attempts[..k + 1]), start)
    ensures s0 == map[] && DiscoveredAll(attempts[..k]) == {}
  {
    DiscoveredAllSnoc(attempts, k);
    assert s0.Keys == {};
    RegisteredTwice(s0, before, after, DiscoveredAll(attempts[..k]), Discovered(attempts[k]), start);
  }

  /** One pattern's try block: the keys in order until TYPE raises. */
  method CollectNames(listing: seq<(string, Option<string>)>) returns (names: set<string>)
    ensures names == PatternNames(listing)
  {
    names := {};
    var i := 0;
    while i < |listing|
      invariant 0 <= i <= |listing|
      invariant names + PatternNames(listing[i..]) == PatternNames(listing)
    {
      var (key, streamType) := listing[i];
      assert listing[i..][1..] == listing[i + 1..];
      if streamType.None? {
        return;
      }
      if streamType.value == "stream" {
        names := names + {key};
      }
      i := i + 1;
    }
  }

  /** The loop over both patterns. */
  method CollectAll(listingOf: string -> seq<(string, Option<string>)>) returns (names: set<string>)
    ensures names == Discovered(listingOf)
  {
    names := {};
    var k := 0;
    while k < |PATTERNS|
      invariant 0 <= k <= |PATTERNS|
      invariant names == DiscoveredIn(PATTERNS[..k], listingOf)
    {
      var found := CollectNames(listingOf(PATTERNS[k]));
      assert PATTERNS[..k + 1][..k] == PATTERNS[..k];
      names := names + found;
      k := k + 1;
    }
    assert PATTERNS[..k] == PATTERNS;
  }

  /** The loop over the discovered names: each new one starts at `start`; the new ones are counted. */
  method RegisterAll(streams: map<string, string>, names: set<string>, start: string)
    returns (registered: map<string, string>, added: nat)
    ensures Registered(registered, streams, names, start)
    ensures added == |names - streams.Keys|
  {
    added := 0;
    registered := streams;
    ghost var visited: set<string> := {};
    ghost var newNames: set<string> := {};
    var remaining := names;
    while remaining != {}
      invariant visited + remaining == names && visited !! remaining
      invariant Registered(registered, streams, visited, start)
      invariant newNames == visited - streams.Keys && added == |newNames|
      decreases |remaining|
    {
      var name :| name in remaining;
      VisitOne(visited, remaining, name, name);
      SubtractOne(visited, streams.Keys, newNames, name);
      if name in registered {
        RegisteredKnown(registered, streams, visited, name, start);
      } else {
        RegisteredNew(registered, streams, visited, name, start);
        registered := registered[name := start];
        added := added + 1;
        assert |newNames + {name}| == |newNames| + 1;
        newNames := newNames + {name};
      }
      visited := visited + {name};
      remaining := remaining - {name};
    }
  }

  /**
   * `after` is `before` with every name of `names` it lacked added at
   * `start`: new names start there, known streams keep their cursor.
   */
  predicate Registered(after: map<string, string>, before: map<string, string>, names: set<string>, start: string)
  {
    after.Keys == before.Keys + names &&
    forall k :: k in after ==> after[k] == if k in before then before[k] else start
  }

  /** A name already registered is a known stream and keeps its cursor. */
  lemma RegisteredKnown(registered: map<string, string>, streams: map<string, string>, visited: set<string>,
                        name: string, start: string)
    requires Registered(registered, streams, visited, start) && name !in visited && name in registered
    ensures name in streams
    ensures Registered(registered, streams, visited + {name}, start)
  {
  }

  /** A name not yet registered is new and starts at `start`. */
  lemma RegisteredNew(registered: map<string, string>, streams: map<string, string>, visited: set<string>,
                      name: string, start: string)
    requires Registered(registered, streams, visited, start) && name !in visited && name !in registered
    ensures name !in streams
    ensures Registered(registered[name := start], streams, visited + {name}, start)
  {
  }

  class StreamMonitor {
    /** '0-0' reads each new stream from its start, '$' only what arrives later. */
    const startFrom: string
    /** stream name -> id of the last message read */
    var streams: map<string, string>
    var stats: Stats
    var lastDiscovery: real

    constructor (startFrom: string)
      ensures this.startFrom == startFrom && streams == map[] && stats == NO_STATS && Counted(stats)
    {
      this.startFrom := startFrom;
      streams := map[];
      stats := NO_STATS;
      lastDiscovery := 0.0;
    }

    /** `discover_streams`: register the new streams; return how many were found and how many of them are new. */
    method DiscoverStreams(listingOf: string -> seq<(string, Option<string>)>) returns (total: nat, added: nat)
      modifies this`streams
      ensures total == |Discovered(listingOf)|
      ensures added == |Discovered(listingOf) - old(streams).Keys|
      ensures Registered(streams, old(streams), Discovered(listingOf), startFrom)
    {
      var names := CollectAll(listingOf);
      streams, added := RegisterAll(streams, names, startFrom);
      total := |names|;
    }

    /**
     * The start of `monitor()`: the first discovery and, when it found
     * nothing, one more discovery per wait while no stream is registered;
     * then `last_discovery`. `attempts` are the listings of the successive
     * discoveries; the script would keep waiting when they run out.
     */
    method Start(attempts: seq<string -> seq<(string, Option<string>)>>, now: real) returns (discoveries: nat)
      requires |attempts| > 0
      modifies this`streams, this`lastDiscovery
      ensures 0 < discoveries <= |attempts|
      ensures Registered(streams, old(streams), DiscoveredAll(attempts[..discoveries]), startFrom)
      ensures discoveries > 1 ==> old(streams) == map[] && DiscoveredAll(attempts[..discoveries - 1]) == {}
      ensures streams == map[] ==> discoveries == |attempts|
      ensures lastDiscovery == now
    {
      ghost var s0 := streams;
      lastDiscovery := now;
      var total, added := DiscoverStreams(attempts[0]);
      FirstDiscovery(streams, s0, attempts, startFrom);
      discoveries := 1;
      if total == 0 {
        discoveries := AwaitStreams(attempts, s0);
      } else {
        assert streams.Keys != {};
      }
      assert Registered(streams, s0, DiscoveredAll(attempts[..discoveries]), startFrom);
      assert discoveries > 1 ==> s0 == map[] && DiscoveredAll(attempts[..discoveries - 1]) == {};
    }

    /** `while not self.streams`: one more discovery per wait, for as long as no stream is registered. */
    method AwaitStreams(attempts: seq<string -> seq<(string, Option<string>)>>, ghost s0: map<string, string>)
      returns (discoveries: nat)
      requires |attempts| > 0 && Registered(streams, s0, DiscoveredAll(attempts[..1]), startFrom)
      modifies this`streams
      ensures 0 < discoveries <= |attempts|
      ensures Registered(streams, s0, DiscoveredAll(attempts[..discoveries]), startFrom)
      ensures discoveries > 1 ==> s0 == map[] && DiscoveredAll(attempts[..discoveries - 1]) == {}
      ensures streams == map[] ==> discoveries == |attempts|
    {
      discoveries := 1;
      while streams == map[] && discoveries < |attempts|
        invariant 0 < discoveries <= |attempts|
        invariant Registered(streams, s0, DiscoveredAll(attempts[..discoveries]), startFrom)
        invariant discoveries > 1 ==> s0 == map[] && DiscoveredAll(attempts[..discoveries - 1]) == {}
      {
        ghost var before := streams;
        var total, added := DiscoverStreams(attempts[discoveries]);
        AwaitStep(s0, before, streams, attempts, discoveries, startFrom);
        discoveries := discoveries + 1;
      }
    }

    /**
     * One pass of the `while True` loop: rediscovery when five seconds
     * passed (its (total, new) counts returned), then, when a stream is
     * registered, the XREAD reply (None when XREAD raised). False when a
     * display raised, which ends the monitor.
     */
    method Poll(now: real, listingOf: string -> seq<(string, Option<string>)>, reply: Option<Reply>,
                decode: string -> Option<Json>, clock: int -> Option<string>)
      returns (ok: bool, discovery: Option<(nat, nat)>, ghost registered: map<string, string>)
      modifies this
      ensures discovery.Some? <==> now - old(lastDiscovery) >= DISCOVERY_INTERVAL
      ensures lastDiscovery == if discovery.Some? then now else old(lastDiscovery)
      ensures discovery.Some? ==> discovery.value == (|Discovered(listingOf)|, |Discovered(listingOf) - old(streams).Keys|)
      ensures discovery.Some? ==> Registered(registered, old(streams), Discovered(listingOf), startFrom)
      ensures discovery.None? ==> registered == old(streams)
      ensures if registered == map[] || reply.None? then ok && streams == registered && stats == old(stats)
              else (State(streams, stats), ok) == Process(State(registered, old(stats)), Flatten(reply.value), Displayer(decode, clock))
    {
      discovery := None;
      registered := streams;
      if now - lastDiscovery >= DISCOVERY_INTERVAL {
        var total, added := DiscoverStreams(listingOf);
        registered := streams;
        discovery := Some((total, added));
        lastDiscovery := now;
      }
      if streams == map[] || reply.None? {
        return true, discovery, registered;
      }
      ok := ProcessReply(reply.value, decode, clock);
    }

    /** `display_event`: the statistics change as Display says; the cursors do not. */
    method DisplayEvent(stream: string, id: string, data: Dict<string>,
                        decode: string -> Option<Json>, clock: int -> Option<string>) returns (shown: Shown)
      modifies this`stats
      ensures (stats, shown) == Display(old(stats), stream, id, data, decode, clock)
    {
      var timestamp := FormatTimestamp(id, clock);
      var raw := Payload(data);
      var ev := decode(raw).GetOr(JObj([]));
      assert ev == Decoded(data, decode);
      if !ev.JObj? {
        return Crash;
      }
      var kind := TypeKind(ev);
      stats := Bump(stats, kind);
      var db := Field(data, ev, "db", "?");
      var table := Field(data, ev, "table", "?");
      var txn := Field(data, ev, "txn", "none");
      var rows := RowCount(ev);
      if !TableFormats(table) {
        return Crash;
      }
      shown := Shown(Line(timestamp, kind, db, table, txn, rows, stream, ev));
    }

    /** The inner loop: one stream's messages, in order, until a display raises. */
    method ProcessStream(stream: string, messages: seq<(string, Dict<string>)>,
                         decode: string -> Option<Json>, clock: int -> Option<string>) returns (ok: bool)
      modifies this`streams, this`stats
      ensures (State(streams, stats), ok) == Process(old(State(streams, stats)), Tagged(stream, messages), Displayer(decode, clock))
    {
      ghost var st0 := State(streams, stats);
      var j := 0;
      while j < |messages|
        invariant 0 <= j <= |messages|
        invariant (State(streams, stats), true) == Process(st0, Tagged(stream, messages[..j]), Displayer(decode, clock))
      {
        var messageId := messages[j].0;
        var data := messages[j].1;
        ghost var before := Tagged(stream, messages[..j]);
        ghost var cur := State(streams, stats);
        TaggedSnoc(stream, messages, j);
        ProcessSnoc(st0, before, (stream, messageId, data), Displayer(decode, clock));
        streams := streams[stream := messageId];
        var shown := DisplayEvent(stream, messageId, data, decode, clock);
        StepIs(cur, (stream, messageId, data), decode, clock, stats, shown);
        if shown.Crash? {
          StreamStopped(st0, stream, messages, j + 1, Displayer(decode, clock));
          return false;
        }
        j := j + 1;
      }
      assert messages[..j] == messages;
      ok := true;
    }

    /** The read loop over one XREAD reply; false when a display raised, which ends the monitor. */
    method ProcessReply(reply: Reply, decode: string -> Option<Json>, clock: int -> Option<string>) returns (ok: bool)
      modifies this`streams, this`stats
      ensures (State(streams, stats), ok) == Process(old(State(streams, stats)), Flatten(reply), Displayer(decode, clock))
    {
      ghost var st0 := State(streams, stats);
      ghost var show := Displayer(decode, clock);
      var i := 0;
      while i < |reply|
        invariant 0 <= i <= |reply|
        invariant (State(streams, stats), true) == Process(st0, Flatten(reply[..i]), show)
      {
        ReplyStep(st0, reply, i, show);
        ok := ProcessStream(reply[i].0, reply[i].1, decode, clock);
        if !ok {
          ReplyStopped(st0, reply, i, show);
          return;
        }
        i := i + 1;
      }
      assert reply[..i] == reply;
      ok := true;
    }
  }

  /** Once the first `i` streams were processed without a raise, stream `i` continues from there. */
  lemma ReplyStep(st0: State, reply: Reply, i: nat, show: Show)
    requires i < |reply| && Process(st0, Flatten(reply[..i]), show).1
    ensures Process(st0, Flatten(reply[..i + 1]), show) ==
            Process(Process(st0, Flatten(reply[..i]), show).0, Tagged(reply[i].0, reply[i].1), show)
  {
    assert reply[..i + 1][..i] == reply[..i];
    assert Flatten(reply[..i + 1]) == Flatten(reply[..i]) + Tagged(reply[i].0, reply[i].1);
    ProcessConcat(st0, Flatten(reply[..i]), Tagged(reply[i].0, reply[i].1), show);
  }

  /** After a display raised in stream `i`, the later streams are not reached. */
  lemma ReplyStopped(st0: State, reply: Reply, i: nat, show: Show)
    requires i < |reply| && !Process(st0, Flatten(reply[..i + 1]), show).1
    ensures Process(st0, Flatten(reply), show) == Process(st0, Flatten(reply[..i + 1]), show)
  {
    FlattenConcat(reply, i + 1);
    ProcessConcat(st0, Flatten(reply[..i + 1]), Flatten2(reply, i + 1), show);
  }

  /** The messages of the streams from index `i` on. */
  function Flatten2(reply: Reply, i: nat): seq<Message>
    requires i <= |reply|
    decreases |reply| - i
  {
    if i == |reply| then [] else Tagged(reply[i].0, reply[i].1) + Flatten2(reply, i + 1)
  }

  lemma {:induction false} FlattenConcat(reply: Reply, i: nat)
    requires i <= |reply|
    ensures Flatten(reply) == Flatten(reply[..i]) + Flatten2(reply, i)
    decreases |reply| - i
  {
    if i < |reply| {
      FlattenConcat(reply, i + 1);
      assert reply[..i + 1][..i] == reply[..i];
      assert Flatten(reply[..i + 1]) == Flatten(reply[..i]) + Tagged(reply[i].0, reply[i].1);
    } else {
      assert reply[..i] == reply;
    }
  }
}
