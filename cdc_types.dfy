// The values that cross the plugin boundary: the CDC event handed to every
// publisher and the per-publisher configuration block. A NULL `const char *`
// is `None`.
module CdcTypes {
  import opened Wrappers

  /** The API version both the loader and every plugin are built against. */
  const PUBLISHER_API_VERSION: int := 1

  datatype CdcEvent = CdcEvent(
    db: Option<string>,
    table: Option<string>,
    json: Option<string>,
    txn: Option<string>,
    position: nat,
    binlogFile: Option<string>)

  /** One `config_keys[i]` / `config_values[i]` pair. */
  datatype ConfigEntry = ConfigEntry(key: string, value: string)

  datatype PublisherConfig = PublisherConfig(
    name: Option<string>,
    active: bool,
    maxQDepth: nat,
    databases: seq<string>,
    entries: seq<ConfigEntry>)

  /** The integer codes plugin callbacks return to the loader. */
  const OK: int := 0
  const FAIL: int := -1

  /** The `name ? name : "unknown"` the publishers use for a missing db or table. */
  function OrUnknown(name: Option<string>): (r: string)
    ensures name.Some? ==> r == name.value
    ensures name.None? ==> r == "unknown"
  {
    name.GetOr("unknown")
  }

  /**
   * The "%s%s.%s" name the Kafka, Redis and ZMQ publishers give an event:
   * a prefix, the database, a dot, the table, "unknown" for a missing part.
   */
  function QualifiedName(prefix: string, db: Option<string>, table: Option<string>): string
  {
    prefix + OrUnknown(db) + "." + OrUnknown(table)
  }

  /** The parts can be read back: the dot after the prefix and database ends the database. */
  lemma QualifiedNameParts(prefix: string, db: Option<string>, table: Option<string>)
    ensures var n := QualifiedName(prefix, db, table);
            |n| == |prefix| + |OrUnknown(db)| + 1 + |OrUnknown(table)| &&
            n[..|prefix|] == prefix &&
            n[|prefix|..|prefix| + |OrUnknown(db)|] == OrUnknown(db) &&
            n[|prefix| + |OrUnknown(db)|] == '.' &&
            n[|prefix| + |OrUnknown(db)| + 1..] == OrUnknown(table)
  {
  }

  /**
   * The string fields of an event as the Python and Java bridges hand them
   * to user code (a dict, a HashMap): one key per non-NULL field, in the
   * order they are added.
   */
  function EventFields(e: CdcEvent): (d: seq<(string, string)>)
    ensures |d| <= 4
  {
    (if e.txn.Some? then [("txn", e.txn.value)] else []) +
    (if e.db.Some? then [("db", e.db.value)] else []) +
    (if e.table.Some? then [("table", e.table.value)] else []) +
    (if e.json.Some? then [("json", e.json.value)] else [])
  }

  lemma EventFieldsKeys(e: CdcEvent)
    ensures |EventFields(e)| == (if e.txn.Some? then 1 else 0) + (if e.db.Some? then 1 else 0) +
                                (if e.table.Some? then 1 else 0) + (if e.json.Some? then 1 else 0)
    ensures e.json.Some? ==> EventFields(e)[|EventFields(e)| - 1] == ("json", e.json.value)
    ensures e.txn.Some? ==> EventFields(e)[0] == ("txn", e.txn.value)
  {
  }
}
