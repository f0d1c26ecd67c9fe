// The Redis publisher plugin: init's defaults and mode, the AUTH and SELECT
// commands start issues, the stream key and the command publish sends in
// stream or pub/sub mode, and how replies are counted. hiredis is an
// oracle: whether the connection came up, and what each command replied.
module RedisPublisher {
  import opened Wrappers
  import opened CText
  import opened CdcTypes
  import opened PluginConfig

  datatype Settings = Settings(
    host: string,          // char[128]
    port: int,
    password: string,      // char[128], empty when none is configured
    db: int,
    useStreams: bool,
    streamPrefix: string,  // char[64], set in stream mode only
    channel: string)       // char[128], set in pub/sub mode only

  function Init(entries: seq<ConfigEntry>): (s: Settings)
    ensures |s.host| < 128 && |s.password| < 128 && |s.streamPrefix| < 64 && |s.channel| < 128
  {
    var useStreams := GetConfigBool(entries, "use_streams", 0) != 0;
    Settings(
      Bounded(GetConfig(entries, "host").GetOr("localhost"), 128),
      GetConfigInt(entries, "port", 6379),
      Bounded(GetConfig(entries, "password").GetOr(""), 128),
      GetConfigInt(entries, "db", 0),
      useStreams,
      if useStreams then Bounded(GetConfig(entries, "stream_prefix").GetOr("cdc:"), 64) else "",
      if useStreams then "" else Bounded(GetConfig(entries, "channel").GetOr("cdc_events"), 128))
  }

  /** An empty configuration: localhost:6379, database 0, no password, pub/sub on "cdc_events". */
  lemma InitDefaults()
    ensures Init([]) == Settings("localhost", 6379, "", 0, false, "", "cdc_events")
  {
  }

  /** Turning streams on switches the default destination to the "cdc:" prefix. */
  lemma StreamModeDefaults()
    ensures var s := Init([ConfigEntry("use_streams", "true")]);
            s.useStreams && s.streamPrefix == "cdc:" && s.channel == "" &&
            s.host == "localhost" && s.port == 6379 && s.db == 0
  {
    var es := [ConfigEntry("use_streams", "true")];
    assert EqualsIgnoreCase("true", "true");
    assert GetConfigBool(es, "use_streams", 0) == 1;
  }

  // ---------------------------------------------------------------------
  // start

  /** What a hiredis command returned: NULL, a reply of type error, or anything else. */
  datatype Reply = NoReply | ErrorReply | ValueReply

  predicate Accepted(r: Reply)
  {
    r.ValueReply?
  }

  /** The commands start sends after connecting: AUTH only with a password, SELECT only off database 0. */
  function StartCommands(s: Settings): seq<seq<string>>
  {
    (if s.password != "" then [["AUTH", s.password]] else []) +
    (if s.db != 0 then [["SELECT", IntToDecimal(s.db)]] else [])
  }

  /** A default configuration sends nothing after connecting; AUTH, when sent, always comes first. */
  lemma StartCommandsRule(s: Settings)
    ensures |StartCommands(s)| == (if s.password != "" then 1 else 0) + (if s.db != 0 then 1 else 0)
    ensures s.password != "" ==> StartCommands(s)[0] == ["AUTH", s.password]
    ensures s.db != 0 ==> StartCommands(s)[|StartCommands(s)| - 1] == ["SELECT", IntToDecimal(s.db)]
    ensures StartCommands(Init([])) == []
  {
    InitDefaults();
  }

  // ---------------------------------------------------------------------
  // publish

  /** The stream an event is appended to: snprintf into `char stream_name[256]`. */
  function StreamKey(s: Settings, db: Option<string>, table: Option<string>): (k: string)
    ensures |k| < 256
  {
    Bounded(QualifiedName(s.streamPrefix, db, table), 256)
  }

  /** The command publish sends for an event that has json. */
  function PublishCommand(s: Settings, e: CdcEvent): seq<string>
    requires e.json.Some?
  {
    if s.useStreams then
      ["XADD", StreamKey(s, e.db, e.table), "*", "json", e.json.value,
       "db", e.db.GetOr(""), "table", e.table.GetOr(""), "txn", e.txn.GetOr("")]
    else ["PUBLISH", s.channel, e.json.value]
  }

  /**
   * In stream mode the entry carries the json and the event's db, table and
   * txn as fields (empty when missing), under a key that names the table.
   */
  lemma StreamEntryFields(s: Settings, e: CdcEvent)
    requires s.useStreams && e.json.Some?
    requires |s.streamPrefix| + |OrUnknown(e.db)| + |OrUnknown(e.table)| < 255
    ensures var c := PublishCommand(s, e);
            |c| == 11 && c[0] == "XADD" && c[2] == "*" &&
            c[1] == s.streamPrefix + OrUnknown(e.db) + "." + OrUnknown(e.table) &&
            c[4] == e.json.value && (e.db.Some? ==> c[6] == e.db.value) &&
            (e.table.Some? ==> c[8] == e.table.value) && (e.txn.None? ==> c[10] == "")
  {
  }

  /** In pub/sub mode the json alone is published on the configured channel. */
  lemma PubSubMessage(s: Settings, e: CdcEvent)
    requires !s.useStreams && e.json.Some?
    ensures PublishCommand(s, e) == ["PUBLISH", s.channel, e.json.value]
  {
  }

  datatype Counters = Counters(published: nat, failed: nat)

  /** The calls publish refuses before sending anything. */
  predicate Sendable(connected: bool, event: Option<CdcEvent>)
  {
    connected && event.Some? && event.value.json.Some?
  }

  function PublishRc(connected: bool, event: Option<CdcEvent>, reply: Reply): int
  {
    if Sendable(connected, event) && Accepted(reply) then OK else FAIL
  }

  function PublishStep(c: Counters, connected: bool, event: Option<CdcEvent>, reply: Reply): Counters
  {
    if !Sendable(connected, event) then c
    else if Accepted(reply) then c.(published := c.published + 1)
    else c.(failed := c.failed + 1)
  }

  /**
   * A refused call counts nothing; a sent command counts exactly once, as
   * published when the reply is not NULL and not an error, else as failed.
   */
  lemma OneCountPerCommand(c: Counters, connected: bool, event: Option<CdcEvent>, reply: Reply)
    ensures !Sendable(connected, event) ==> PublishStep(c, connected, event, reply) == c
    ensures Sendable(connected, event) ==>
              var c' := PublishStep(c, connected, event, reply);
              c'.published + c'.failed == c.published + c.failed + 1 &&
              (c'.published == c.published + 1 <==> PublishRc(connected, event, reply) == OK)
  {
  }

  // ---------------------------------------------------------------------
  // The plugin's private data

  class Publisher {
    const settings: Settings
    var connected: bool
    var eventsPublished: nat
    var eventsFailed: nat

    function Stats(): Counters
      reads this
    {
      Counters(eventsPublished, eventsFailed)
    }

    constructor (s: Settings)
      ensures settings == s && !connected && Stats() == Counters(0, 0)
    {
      settings := s;
      connected := false;
      eventsPublished, eventsFailed := 0, 0;
    }

    /**
     * start: connect, then AUTH and SELECT as needed. `connectOk` is
     * whether redisConnectWithTimeout gave a context without error;
     * `authReply` and `selectReply` are the replies those commands would get.
     * `sent` lists the commands issued, in order.
     */
    method Start(connectOk: bool, authReply: Reply, selectReply: Reply) returns (rc: int, sent: seq<seq<string>>)
      modifies this`connected
      ensures !connectOk ==> rc == FAIL && sent == [] && !connected
      ensures connectOk ==>
                var authOk := settings.password == "" || Accepted(authReply);
                var selectOk := settings.db == 0 || Accepted(selectReply);
                (rc == OK <==> authOk && selectOk) && (rc == OK || rc == FAIL) && connected == (rc == OK) &&
                sent == if authOk then StartCommands(settings) else StartCommands(settings)[..1]
    {
      sent := [];
      if !connectOk {
        connected := false;
        return FAIL, [];
      }
      connected := true;
      if settings.password != "" {
        sent := sent + [["AUTH", settings.password]];
        if !Accepted(authReply) {
          connected := false;
          return FAIL, sent;
        }
      }
      if settings.db != 0 {
        sent := sent + [["SELECT", IntToDecimal(settings.db)]];
        if !Accepted(selectReply) {
          connected := false;
          return FAIL, sent;
        }
      }
      rc := OK;
    }

    /** publish; `command` is what was sent, None when the call was refused. */
    method Publish(event: Option<CdcEvent>, reply: Reply) returns (rc: int, command: Option<seq<string>>)
      modifies this`eventsPublished, this`eventsFailed
      ensures rc == PublishRc(connected, event, reply)
      ensures Stats() == PublishStep(old(Stats()), connected, event, reply)
      ensures command.Some? <==> Sendable(connected, event)
      ensures command.Some? ==> command.value == PublishCommand(settings, event.value)
    {
      if !connected || event.None? || event.value.json.None? {
        return FAIL, None;
      }
      command := Some(PublishCommand(settings, event.value));
      if !Accepted(reply) {
        eventsFailed := eventsFailed + 1;
        return FAIL, command;
      }
      eventsPublished := eventsPublished + 1;
      rc := OK;
    }

    /** stop: free the context; always 0. */
    method Stop() returns (rc: int)
      modifies this`connected
      ensures rc == OK && !connected
    {
      connected := false;
      rc := OK;
    }

    /** health_check: a context that answers PING without an error. */
    method HealthCheck(pingReply: Reply) returns (rc: int)
      ensures rc == OK <==> connected && Accepted(pingReply)
      ensures rc == OK || rc == FAIL
    {
      rc := if connected && Accepted(pingReply) then OK else FAIL;
    }
  }
}
