// The Redis Pub/Sub monitor: the dispatch of the messages `listen()`
// delivers, the display of each CDC event with the statistics it updates,
// the rate shown at the end, and the choice between a channel and a
// pattern subscription. The Redis client, json.loads and the wall clock are
// oracles passed in; printing is left out, and what a display prints is an
// `Outcome` value.
module RedisPubSubMonitor {
  import opened Wrappers
  import opened PyText
  import opened Json
  import opened MonitorStats

  const DEFAULT_CHANNEL: string := "cdc_events"

  // ---------------------------------------------------------------------
  // display_event

  /** `event_type == 'INSERT'` and so on: only a string equal to one of the four names matches. */
  function TypeKind(ev: Json): Kind
  {
    match Get(ev, "type")
    case Some(JStr(s)) => KindOf(s)
    case _ => Other
  }

  /** `txn[:32]`: a string or a list is sliced; any other value raises. */
  function TxnPrefix(txn: Json): (r: Option<Json>)
    ensures r.Some? <==> txn.JStr? || txn.JArr?
    ensures txn.JStr? ==> r == Some(JStr(Prefix(txn.s, 32)))
    ensures txn.JArr? ==> r.value.JArr? && |r.value.items| <= 32 && |r.value.items| <= |txn.items| &&
                          r.value.items == txn.items[..|r.value.items|]
  {
    match txn
    case JStr(s) => Some(JStr(Prefix(s, 32)))
    case JArr(items) => Some(JArr(if |items| <= 32 then items else items[..32]))
    case _ => None
  }

  /** What one printed line shows. */
  datatype Line = Line(time: string, kind: Kind, typeName: string, db: Json, table: string,
                       rows: nat, txn: Json, event: Json)

  /**
   * A display prints the non-JSON notice with the first 50 characters of
   * the message, prints the event line, or fails into the generic
   * "Error processing message" handler.
   */
  datatype Outcome = NonJson(text: string) | Failed | Shown(line: Line)

  /**
   * `display_event`: `message` is the message data, `time` the clock's
   * "%H:%M:%S". A value that does not decode changes nothing; one that is
   * not an object fails on `.get` before the statistics change; an object
   * is counted, and its display then fails when `len(rows)` or the
   * `:6s`/`:20s` formats of type and table or `txn[:32]` raise.
   */
  function Display(stats: Stats, message: string, decode: string -> Option<Json>, time: string): (Stats, Outcome)
  {
    match decode(message)
    case None => (stats, NonJson(Prefix(message, 50)))
    case Some(ev) =>
      if !ev.JObj? then (stats, Failed)
      else
        var counted := Bump(stats, TypeKind(ev));
        var typeName := Get(ev, "type").GetOr(JStr("UNKNOWN"));
        var table := Get(ev, "table").GetOr(JStr("?"));
        var txn := TxnPrefix(Get(ev, "txn").GetOr(JStr("none")));
        var rows := Len(Get(ev, "rows").GetOr(JArr([])));
        if rows.None? || !typeName.JStr? || !table.JStr? || txn.None? then (counted, Failed)
        else (counted, Shown(Line(time, TypeKind(ev), typeName.s, Get(ev, "db").GetOr(JStr("?")),
                                  table.s, rows.value, txn.value, ev)))
  }

  /** The statistics change exactly when the message decodes to an object, by one event of its type. */
  lemma StatsChangeOnObjects(stats: Stats, message: string, decode: string -> Option<Json>, time: string)
    ensures var after := Display(stats, message, decode, time).0;
            if decode(message).Some? && decode(message).value.JObj?
            then after == Bump(stats, TypeKind(decode(message).value)) && after.total == stats.total + 1
            else after == stats
  {
  }

  /** A message that is not JSON leaves every counter as it was and shows its first 50 characters. */
  lemma NonJsonUnchanged(stats: Stats, message: string, decode: string -> Option<Json>, time: string)
    requires decode(message).None?
    ensures Display(stats, message, decode, time) == (stats, NonJson(Prefix(message, 50)))
    ensures |Prefix(message, 50)| <= 50
  {
  }

  /** The comparison is case-sensitive: "insert" is counted in the total only. */
  lemma TypeIsCaseSensitive(stats: Stats, message: string, decode: string -> Option<Json>, time: string,
                            fields: seq<(string, Json)>)
    requires decode(message) == Some(JObj([("type", JStr("insert"))] + fields))
    ensures Display(stats, message, decode, time).0 == stats.(total := stats.total + 1)
  {
    var ev := JObj([("type", JStr("insert"))] + fields);
    assert ([("type", JStr("insert"))] + fields)[0] == ("type", JStr("insert"));
    assert Get(ev, "type") == Some(JStr("insert"));
    assert KindOf("insert") == Other;
  }

  /** An object with only a string type shows db '?', table '?', txn 'none' and 0 rows. */
  lemma DisplayDefaults(stats: Stats, message: string, decode: string -> Option<Json>, time: string, t: string)
    requires decode(message) == Some(JObj([("type", JStr(t))]))
    ensures var shown := Display(stats, message, decode, time).1;
            shown.Shown? && shown.line.typeName == t && shown.line.db == JStr("?") &&
            shown.line.table == "?" && shown.line.txn == JStr("none") && shown.line.rows == 0
  {
    var fields := [("type", JStr(t))];
    var ev := JObj(fields);
    assert fields[1..] == [];
    assert fields[0].0 == "type";
    assert Get(ev, "type") == Some(JStr(t));
    forall key | key in ["db", "table", "txn", "rows"]
      ensures Get(ev, key) == None
    {
      assert key != "type";
      assert PyDict.Lookup(fields[1..], key) == None;
    }
    assert Get(ev, "db") == None && Get(ev, "table") == None;
    assert Get(ev, "txn") == None && Get(ev, "rows") == None;
    assert Prefix("none", 32) == "none";
  }

  // ---------------------------------------------------------------------
  // The listen() loop

  /** A message `listen()` delivers: its 'type', 'channel', 'pattern' and 'data' entries. */
  datatype PubSubMessage = PubSubMessage(kind: string, channel: string, pattern: string, data: string)

  /** What the loop does with one message. */
  datatype Reaction =
    | Displayed(outcome: Outcome)
    | FromChannel(channel: string, outcome: Outcome)
    | Subscribed(channel: string)
    | PatternSubscribed(pattern: string)
    | Ignored

  /** The if/elif chain on `message['type']`; `time` is the clock for this message. */
  function React(stats: Stats, m: PubSubMessage, decode: string -> Option<Json>, time: string): (Stats, Reaction)
  {
    if m.kind == "message" then
      var d := Display(stats, m.data, decode, time);
      (d.0, Displayed(d.1))
    else if m.kind == "pmessage" then
      var d := Display(stats, m.data, decode, time);
      (d.0, FromChannel(m.channel, d.1))
    else if m.kind == "subscribe" then (stats, Subscribed(m.channel))
    else if m.kind == "psubscribe" then (stats, PatternSubscribed(m.pattern))
    else (stats, Ignored)
  }

  /** Only 'message' and 'pmessage' reach `display_event`; nothing else touches the statistics. */
  lemma OnlyDataMessagesCount(stats: Stats, m: PubSubMessage, decode: string -> Option<Json>, time: string)
    ensures m.kind != "message" && m.kind != "pmessage" ==> React(stats, m, decode, time).0 == stats
    ensures m.kind == "message" || m.kind == "pmessage" ==>
              React(stats, m, decode, time).0 == Display(stats, m.data, decode, time).0
  {
  }

  /** The statistics and the reactions after the messages, in order. */
  function Listened(stats: Stats, msgs: seq<PubSubMessage>, decode: string -> Option<Json>, times: seq<string>)
    : (r: (Stats, seq<Reaction>))
    requires |times| == |msgs|
    ensures |r.1| == |msgs|
  {
    if msgs == [] then (stats, [])
    else
      var n := |msgs| - 1;
      var before := Listened(stats, msgs[..n], decode, times[..n]);
      var step := React(before.0, msgs[n], decode, times[n]);
      (step.0, before.1 + [step.1])
  }

  lemma ListenedSnoc(stats: Stats, msgs: seq<PubSubMessage>, decode: string -> Option<Json>, times: seq<string>, i: nat)
    requires |times| == |msgs| && i < |msgs|
    ensures var before := Listened(stats, msgs[..i], decode, times[..i]);
            var step := React(before.0, msgs[i], decode, times[i]);
            Listened(stats, msgs[..i + 1], decode, times[..i + 1]) == (step.0, before.1 + [step.1])
  {
    assert msgs[..i + 1][..i] == msgs[..i] && times[..i + 1][..i] == times[..i];
  }

  /** Whether a message is one `display_event` counts: message data that decodes to an object. */
  predicate CountsEvent(m: PubSubMessage, decode: string -> Option<Json>)
  {
    (m.kind == "message" || m.kind == "pmessage") && decode(m.data).Some? && decode(m.data).value.JObj?
  }

  function CountEvents(msgs: seq<PubSubMessage>, decode: string -> Option<Json>): nat
  {
    if msgs == [] then 0
    else CountEvents(msgs[..|msgs| - 1], decode) + (if CountsEvent(msgs[|msgs| - 1], decode) then 1 else 0)
  }

  /** The total is the number of data messages whose payload decoded to an object. */
  lemma {:induction false} RunTotal(stats: Stats, msgs: seq<PubSubMessage>, decode: string -> Option<Json>, times: seq<string>)
    requires |times| == |msgs|
    ensures Listened(stats, msgs, decode, times).0.total == stats.total + CountEvents(msgs, decode)
  {
    if msgs != [] {
      var n := |msgs| - 1;
      RunTotal(stats, msgs[..n], decode, times[..n]);
      var before := Listened(stats, msgs[..n], decode, times[..n]).0;
      OnlyDataMessagesCount(before, msgs[n], decode, times[n]);
      StatsChangeOnObjects(before, msgs[n].data, decode, times[n]);
    }
  }

  /** No event is ever counted under two types. */
  lemma {:induction false} RunCounted(stats: Stats, msgs: seq<PubSubMessage>, decode: string -> Option<Json>, times: seq<string>)
    requires |times| == |msgs| && Counted(stats)
    ensures Counted(Listened(stats, msgs, decode, times).0)
  {
    if msgs != [] {
      var n := |msgs| - 1;
      RunCounted(stats, msgs[..n], decode, times[..n]);
      var before := Listened(stats, msgs[..n], decode, times[..n]).0;
      OnlyDataMessagesCount(before, msgs[n], decode, times[n]);
      StatsChangeOnObjects(before, msgs[n].data, decode, times[n]);
    }
  }

  // ---------------------------------------------------------------------
  // The monitor

  class PubSubMonitor {
    var stats: Stats
    /** `start_time`, in seconds. */
    const startTime: real

    constructor (now: real)
      ensures stats == NO_STATS && startTime == now
    {
      stats := NO_STATS;
      startTime := now;
    }

    /** One message of the `for message in self.pubsub.listen()` loop. */
    method Receive(m: PubSubMessage, decode: string -> Option<Json>, time: string) returns (reaction: Reaction)
      modifies this`stats
      ensures (stats, reaction) == React(old(stats), m, decode, time)
    {
      if m.kind == "message" {
        var outcome := DisplayEvent(m.data, decode, time);
        reaction := Displayed(outcome);
      } else if m.kind == "pmessage" {
        var outcome := DisplayEvent(m.data, decode, time);
        reaction := FromChannel(m.channel, outcome);
      } else if m.kind == "subscribe" {
        reaction := Subscribed(m.channel);
      } else if m.kind == "psubscribe" {
        reaction := PatternSubscribed(m.pattern);
      } else {
        reaction := Ignored;
      }
    }

    /** `display_event`. */
    method DisplayEvent(message: string, decode: string -> Option<Json>, time: string) returns (outcome: Outcome)
      modifies this`stats
      ensures (stats, outcome) == Display(old(stats), message, decode, time)
    {
      var decoded := decode(message);
      if decoded.None? {
        return NonJson(Prefix(message, 50));
      }
      var event := decoded.value;
      if !event.JObj? {
        return Failed;
      }
      var eventType := Get(event, "type").GetOr(JStr("UNKNOWN"));
      stats := Bump(stats, TypeKind(event));
      var db := Get(event, "db").GetOr(JStr("?"));
      var table := Get(event, "table").GetOr(JStr("?"));
      var txn := Get(event, "txn").GetOr(JStr("none"));
      var rows := Len(Get(event, "rows").GetOr(JArr([])));
      if rows.None? {
        return Failed;
      }
      var slice := TxnPrefix(txn);
      if !eventType.JStr? || !table.JStr? || slice.None? {
        return Failed;
      }
      outcome := Shown(Line(time, TypeKind(event), eventType.s, db, table.s, rows.value, slice.value, event));
    }

    /** The loop over the delivered messages, until KeyboardInterrupt ends the list. */
    method Listen(msgs: seq<PubSubMessage>, decode: string -> Option<Json>, times: seq<string>)
      returns (reactions: seq<Reaction>)
      requires |times| == |msgs|
      modifies this`stats
      ensures (stats, reactions) == Listened(old(stats), msgs, decode, times)
    {
      ghost var s0 := stats;
      reactions := [];
      var i := 0;
      while i < |msgs|
        invariant 0 <= i <= |msgs|
        invariant (stats, reactions) == Listened(s0, msgs[..i], decode, times[..i])
      {
        ListenedSnoc(s0, msgs, decode, times, i);
        var reaction := Receive(msgs[i], decode, times[i]);
        reactions := reactions + [reaction];
        i := i + 1;
      }
      assert msgs[..i] == msgs && times[..i] == times;
    }

    /** The rate line of `show_stats`: shown only when events arrived; 0 when no time passed. */
    method ShownRate(now: real) returns (rate: Option<real>)
      ensures rate == Rate(stats.total, now - startTime)
    {
      var duration := now - startTime;
      if stats.total > 0 {
        rate := Some(if duration > 0.0 then stats.total as real / duration else 0.0);
      } else {
        rate := None;
      }
    }
  }

  /** `total / duration if duration > 0 else 0`, printed only when total > 0. */
  function Rate(total: nat, duration: real): (r: Option<real>)
    ensures r.Some? <==> total > 0
    ensures r.Some? ==> r.value >= 0.0
    ensures r.Some? && duration > 0.0 ==> r.value * duration == total as real
    ensures r.Some? && duration <= 0.0 ==> r.value == 0.0
  {
    if total == 0 then None
    else Some(if duration > 0.0 then total as real / duration else 0.0)
  }

  // ---------------------------------------------------------------------
  // main

  datatype Subscription = Channel(name: string) | Pattern(glob: string)

  /**
   * `main`: None for -h/--help (the usage is printed); otherwise the
   * subscription `monitor` makes.
   */
  function SubscriptionOf(args: seq<string>): (r: Option<Subscription>)
  {
    if |args| == 0 then Some(Channel(DEFAULT_CHANNEL))
    else if args[0] == "-h" || args[0] == "--help" then None
    else if '*' in args[0] || '?' in args[0] then Some(Pattern(args[0]))
    else Some(Channel(args[0]))
  }

  /** A pattern subscription is made iff the argument holds '*' or '?'; it names the argument itself. */
  lemma SubscriptionRule(args: seq<string>)
    requires |args| > 0 && args[0] != "-h" && args[0] != "--help"
    ensures SubscriptionOf(args).Some?
    ensures SubscriptionOf(args).value.Pattern? <==> '*' in args[0] || '?' in args[0]
    ensures match SubscriptionOf(args).value
            case Channel(name) => name == args[0]
            case Pattern(glob) => glob == args[0]
  {
  }

  /** With no argument the monitor subscribes to exactly 'cdc_events', never to a pattern. */
  lemma DefaultSubscription()
    ensures SubscriptionOf([]) == Some(Channel("cdc_events"))
  {
  }
}
