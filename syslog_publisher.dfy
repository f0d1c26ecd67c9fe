// The syslog publisher plugin: the facility and priority names it accepts,
// init's defaults, the openlog options start passes, the compact one-line
// summary, and publish's message choice and counter. syslog(3) itself is
// outside the model: publish returns the priority and message it would log.
module SyslogPublisher {
  import opened Wrappers
  import opened CText
  import opened CdcTypes
  import opened PluginConfig
  import opened Json

  // The glibc <syslog.h> codes: facilities are shifted left by 3.
  const LOG_USER: int := 8
  const LOG_DAEMON: int := 24
  const LOG_LOCAL0: int := 128
  const LOG_LOCAL1: int := 136
  const LOG_LOCAL2: int := 144
  const LOG_LOCAL3: int := 152
  const LOG_LOCAL4: int := 160
  const LOG_LOCAL5: int := 168
  const LOG_LOCAL6: int := 176
  const LOG_LOCAL7: int := 184

  const LOG_EMERG: int := 0
  const LOG_ALERT: int := 1
  const LOG_CRIT: int := 2
  const LOG_ERR: int := 3
  const LOG_WARNING: int := 4
  const LOG_NOTICE: int := 5
  const LOG_INFO: int := 6
  const LOG_DEBUG: int := 7

  const LOG_PID: bv32 := 0x01
  const LOG_CONS: bv32 := 0x02
  const LOG_NDELAY: bv32 := 0x08

  /** Every facility name parse_facility knows, with its code. */
  const FACILITIES: seq<(string, int)> := [
    ("LOG_USER", LOG_USER), ("LOG_DAEMON", LOG_DAEMON),
    ("LOG_LOCAL0", LOG_LOCAL0), ("LOG_LOCAL1", LOG_LOCAL1), ("LOG_LOCAL2", LOG_LOCAL2),
    ("LOG_LOCAL3", LOG_LOCAL3), ("LOG_LOCAL4", LOG_LOCAL4), ("LOG_LOCAL5", LOG_LOCAL5),
    ("LOG_LOCAL6", LOG_LOCAL6), ("LOG_LOCAL7", LOG_LOCAL7)]

  /** Every priority name parse_priority knows, with its code. */
  const PRIORITIES: seq<(string, int)> := [
    ("LOG_EMERG", LOG_EMERG), ("LOG_ALERT", LOG_ALERT), ("LOG_CRIT", LOG_CRIT),
    ("LOG_ERR", LOG_ERR), ("LOG_WARNING", LOG_WARNING), ("LOG_NOTICE", LOG_NOTICE),
    ("LOG_INFO", LOG_INFO), ("LOG_DEBUG", LOG_DEBUG)]

  predicate Named(table: seq<(string, int)>, name: string)
  {
    exists i :: 0 <= i < |table| && table[i].0 == name
  }

  /** parse_facility: a chain of exact, case-sensitive comparisons. */
  function ParseFacility(name: Option<string>): int
  {
    if name.None? then LOG_LOCAL0
    else if name.value == "LOG_USER" then LOG_USER
    else if name.value == "LOG_DAEMON" then LOG_DAEMON
    else if name.value == "LOG_LOCAL0" then LOG_LOCAL0
    else if name.value == "LOG_LOCAL1" then LOG_LOCAL1
    else if name.value == "LOG_LOCAL2" then LOG_LOCAL2
    else if name.value == "LOG_LOCAL3" then LOG_LOCAL3
    else if name.value == "LOG_LOCAL4" then LOG_LOCAL4
    else if name.value == "LOG_LOCAL5" then LOG_LOCAL5
    else if name.value == "LOG_LOCAL6" then LOG_LOCAL6
    else if name.value == "LOG_LOCAL7" then LOG_LOCAL7
    else LOG_LOCAL0
  }

  /** parse_priority: likewise for the eight severities. */
  function ParsePriority(name: Option<string>): int
  {
    if name.None? then LOG_INFO
    else if name.value == "LOG_EMERG" then LOG_EMERG
    else if name.value == "LOG_ALERT" then LOG_ALERT
    else if name.value == "LOG_CRIT" then LOG_CRIT
    else if name.value == "LOG_ERR" then LOG_ERR
    else if name.value == "LOG_WARNING" then LOG_WARNING
    else if name.value == "LOG_NOTICE" then LOG_NOTICE
    else if name.value == "LOG_INFO" then LOG_INFO
    else if name.value == "LOG_DEBUG" then LOG_DEBUG
    else LOG_INFO
  }

  /**
   * A listed name gives its own code; a missing or unlisted name (a
   * different case included) gives LOG_LOCAL0; and the result is always
   * one of the listed codes.
   */
  lemma FacilityNames(name: Option<string>)
    ensures forall i :: 0 <= i < |FACILITIES| ==> ParseFacility(Some(FACILITIES[i].0)) == FACILITIES[i].1
    ensures name.None? || !Named(FACILITIES, name.value) ==> ParseFacility(name) == LOG_LOCAL0
    ensures exists i :: 0 <= i < |FACILITIES| && FACILITIES[i].1 == ParseFacility(name)
    ensures ParseFacility(Some("log_user")) == LOG_LOCAL0
  {
    var r := ParseFacility(name);
    if name.Some? && Named(FACILITIES, name.value) {
      var i :| 0 <= i < |FACILITIES| && FACILITIES[i].0 == name.value;
      assert FACILITIES[i].1 == r;
    } else {
      if name.Some? {
        assert FACILITIES[0].0 != name.value && FACILITIES[1].0 != name.value && FACILITIES[2].0 != name.value &&
               FACILITIES[3].0 != name.value && FACILITIES[4].0 != name.value && FACILITIES[5].0 != name.value &&
               FACILITIES[6].0 != name.value && FACILITIES[7].0 != name.value && FACILITIES[8].0 != name.value &&
               FACILITIES[9].0 != name.value;
      }
      assert FACILITIES[2].1 == r;
    }
  }

  lemma PriorityNames(name: Option<string>)
    ensures forall i :: 0 <= i < |PRIORITIES| ==> ParsePriority(Some(PRIORITIES[i].0)) == PRIORITIES[i].1
    ensures name.None? || !Named(PRIORITIES, name.value) ==> ParsePriority(name) == LOG_INFO
    ensures LOG_EMERG <= ParsePriority(name) <= LOG_DEBUG
  {
    if name.Some? && Named(PRIORITIES, name.value) {
      var i :| 0 <= i < |PRIORITIES| && PRIORITIES[i].0 == name.value;
      assert PRIORITIES[i].1 == ParsePriority(name);
    } else if name.Some? {
      assert PRIORITIES[0].0 != name.value && PRIORITIES[1].0 != name.value && PRIORITIES[2].0 != name.value &&
             PRIORITIES[3].0 != name.value && PRIORITIES[4].0 != name.value && PRIORITIES[5].0 != name.value &&
             PRIORITIES[6].0 != name.value && PRIORITIES[7].0 != name.value;
    }
  }

  // ---------------------------------------------------------------------
  // init and start

  datatype Settings = Settings(ident: string, facility: int, priority: int, includePid: bool, formatCompact: bool)

  function Init(entries: seq<ConfigEntry>): (s: Settings)
    ensures |s.ident| < 64
  {
    Settings(Bounded(GetConfig(entries, "ident").GetOr("binlog_cdc"), 64),
             ParseFacility(GetConfig(entries, "facility")),
             ParsePriority(GetConfig(entries, "priority")),
             GetConfigBool(entries, "include_pid", 1) != 0,
             GetConfigBool(entries, "format_compact", 0) != 0)
  }

  /** Nothing configured: ident "binlog_cdc", LOG_LOCAL0, LOG_INFO, with the pid, full json. */
  lemma InitDefaults()
    ensures Init([]) == Settings("binlog_cdc", LOG_LOCAL0, LOG_INFO, true, false)
  {
  }

  /** The options start hands to openlog. */
  function OpenlogOptions(includePid: bool): bv32
  {
    LOG_CONS | LOG_NDELAY | (if includePid then LOG_PID else 0)
  }

  /** The console fallback and immediate connection are always on; the pid is logged iff include_pid. */
  lemma OptionsRule(includePid: bool)
    ensures OpenlogOptions(includePid) & (LOG_CONS | LOG_NDELAY) == LOG_CONS | LOG_NDELAY
    ensures OpenlogOptions(includePid) & LOG_PID != 0 <==> includePid
    ensures OpenlogOptions(includePid) & !(LOG_CONS | LOG_NDELAY | LOG_PID) == 0
  {
  }

  // ---------------------------------------------------------------------
  // format_compact

  /**
   * The text %s prints for the "type" member: the string itself, "(null)"
   * for a JSON null (json-c hands back a NULL string, which glibc prints
   * so), "UNKNOWN" when there is no such member or the root is not an
   * object, and json-c's own rendering `rendered` of any other value.
   */
  function CompactType(root: Json, rendered: string): string
  {
    match Get(root, "type")
    case None => "UNKNOWN"
    case Some(JStr(t)) => t
    case Some(JNull) => "(null)"
    case Some(_) => rendered
  }

  /** The row count: the length of the "rows" array, 0 when there is none. */
  function CompactRows(root: Json): nat
  {
    match Get(root, "rows")
    case Some(JArr(items)) => |items|
    case _ => 0
  }

  /** The fields after "CDC: " in the summary of parsed json. */
  function CompactFields(e: CdcEvent, root: Json, rendered: string): string
  {
    CompactType(root, rendered) + " db=" + e.db.GetOr("?") + " table=" + e.table.GetOr("?") +
    " rows=" + IntToDecimal(CompactRows(root)) + " txn=" + e.txn.GetOr("none")
  }

  function CompactText(e: CdcEvent, parsed: Option<Json>, rendered: string): string
  {
    match parsed
    case None => "CDC event db=" + (e.db.GetOr("?") + " table=" + e.table.GetOr("?"))
    case Some(root) => "CDC: " + CompactFields(e, root, rendered)
  }

  /**
   * format_compact: the summary in its `static char buffer[512]`. `parsed`
   * is json_tokener_parse's result: None when it returns NULL, which it
   * also does for the text "null", so a JSON null root is passed as None
   * and never as Some(JNull).
   */
  function FormatCompact(e: CdcEvent, parsed: Option<Json>, rendered: string): (m: string)
    ensures |m| < 512
  {
    Bounded(CompactText(e, parsed, rendered), 512)
  }

  /** A summary of parsed json starts "CDC: ", and one of unparseable json "CDC event db=". */
  lemma CompactPrefix(e: CdcEvent, parsed: Option<Json>, rendered: string)
    ensures parsed.Some? ==> FormatCompact(e, parsed, rendered)[..5] == "CDC: "
    ensures parsed.None? ==> FormatCompact(e, parsed, rendered)[..13] == "CDC event db="
  {
    var t := CompactText(e, parsed, rendered);
    var m := FormatCompact(e, parsed, rendered);
    assert |m| >= 13;
    if parsed.Some? {
      assert t[..5] == "CDC: ";
      assert m[..5] == t[..5];
    } else {
      assert t[..13] == "CDC event db=";
      assert m[..13] == t[..13];
    }
  }

  /** With nothing to go on, every field of the summary takes its default. */
  lemma CompactDefaults(e: CdcEvent, rendered: string)
    requires e.db.None? && e.table.None? && e.txn.None?
    ensures FormatCompact(e, Some(JObj([])), rendered)
            == "CDC: " + "UNKNOWN" + " db=" + "?" + " table=" + "?" + " rows=" + "0" + " txn=" + "none"
    ensures FormatCompact(e, None, rendered) == "CDC event db=" + "?" + " table=" + "?"
  {
    assert CompactType(JObj([]), rendered) == "UNKNOWN" && CompactRows(JObj([])) == 0;
    assert IntToDecimal(0) == "0";
    var t := CompactText(e, Some(JObj([])), rendered);
    assert |t| < 512;
    var u := CompactText(e, None, rendered);
    assert u == "CDC event db=" + "?" + " table=" + "?";
    assert |u| < 512;
  }

  /** A type string and a rows array are reported as given, whatever else the object holds. */
  lemma CompactReportsTypeAndRows(root: Json, rendered: string, t: string, rows: seq<Json>)
    requires Get(root, "type") == Some(JStr(t)) && Get(root, "rows") == Some(JArr(rows))
    ensures CompactType(root, rendered) == t && CompactRows(root) == |rows|
    ensures root.JObj?
  {
  }

  /** A root that is not an object (an array, a number) has neither member. */
  lemma NonObjectRoot(root: Json, rendered: string)
    requires !root.JObj?
    ensures CompactType(root, rendered) == "UNKNOWN" && CompactRows(root) == 0
  {
  }

  // ---------------------------------------------------------------------
  // publish

  /** The message publish logs: the summary in compact mode, the json itself otherwise. */
  function Message(s: Settings, e: CdcEvent, parsed: Option<Json>, rendered: string): string
    requires e.json.Some?
  {
    if s.formatCompact then FormatCompact(e, parsed, rendered) else e.json.value
  }

  class Publisher {
    const settings: Settings
    var eventsLogged: nat

    constructor (s: Settings)
      ensures settings == s && eventsLogged == 0
    {
      settings := s;
      eventsLogged := 0;
    }

    /** start: returns the ident, options and facility passed to openlog. */
    method Start() returns (rc: int, ident: string, options: bv32, facility: int)
      ensures rc == OK && ident == settings.ident && facility == settings.facility
      ensures options == OpenlogOptions(settings.includePid)
    {
      options := LOG_CONS | LOG_NDELAY;
      if settings.includePid {
        options := options | LOG_PID;
      }
      rc, ident, facility := OK, settings.ident, settings.facility;
    }

    /**
     * publish: `logged` is the (priority, message) pair handed to syslog,
     * None when the event or its json is missing.
     */
    method Publish(event: Option<CdcEvent>, parsed: Option<Json>, rendered: string) returns (rc: int, logged: Option<(int, string)>)
      modifies this`eventsLogged
      ensures event.None? || event.value.json.None? ==>
                rc == FAIL && logged.None? && eventsLogged == old(eventsLogged)
      ensures event.Some? && event.value.json.Some? ==>
                rc == OK && eventsLogged == old(eventsLogged) + 1 &&
                logged == Some((settings.priority, Message(settings, event.value, parsed, rendered)))
    {
      if event.None? || event.value.json.None? {
        return FAIL, None;
      }
      var message := event.value.json.value;
      if settings.formatCompact {
        message := FormatCompact(event.value, parsed, rendered);
      }
      logged := Some((settings.priority, message));
      eventsLogged := eventsLogged + 1;
      rc := OK;
    }

    /** health_check: the plugin's data exists once init has run. */
    method HealthCheck() returns (rc: int)
      ensures rc == OK
    {
      rc := OK;
    }
  }
}
