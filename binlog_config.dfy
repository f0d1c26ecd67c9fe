// The capture configuration both streamers consult for every table map,
// relation, statement and commit: databases (PostgreSQL schemas), their
// tables and flags, and the log-level names accepted in the configuration
// file. The MySQL and PostgreSQL streamers define the same lookups.
module BinlogConfig {
  import opened Wrappers
  import opened CText
  import Logger

  /**
   * table_config_t: `columns` are the configured column names, in the
   * configuration's order (unused when captureAllColumns is set).
   */
  datatype TableConfig = TableConfig(
    name: string,
    captureAllColumns: bool,
    columns: seq<string>,
    primaryKeys: seq<string>)

  datatype DatabaseConfig = DatabaseConfig(
    name: string,
    captureDml: bool,
    captureDdl: bool,
    tables: seq<TableConfig>)

  /**
   * find_database_config: the FIRST configured database with that name,
   * None when no configured database has it.
   */
  function FindDatabaseConfig(dbs: seq<DatabaseConfig>, db: string): (r: Option<DatabaseConfig>)
    ensures r.None? <==> forall i :: 0 <= i < |dbs| ==> dbs[i].name != db
    ensures r.Some? ==> exists i :: 0 <= i < |dbs| && dbs[i] == r.value && dbs[i].name == db &&
                          forall j :: 0 <= j < i ==> dbs[j].name != db
  {
    if dbs == [] then None
    else if dbs[0].name == db then Some(dbs[0])
    else
      var r := FindDatabaseConfig(dbs[1..], db);
      assert forall i :: 1 <= i < |dbs| ==> dbs[i] == dbs[1..][i - 1];
      if r.Some? then
        var k :| 0 <= k < |dbs[1..]| && dbs[1..][k] == r.value && dbs[1..][k].name == db &&
                 forall j :: 0 <= j < k ==> dbs[1..][j].name != db;
        assert dbs[k + 1] == r.value;
        r
      else r
  }

  /** The first table of a database's list with that name. */
  function FindTable(tables: seq<TableConfig>, table: string): (r: Option<TableConfig>)
    ensures r.None? <==> forall i :: 0 <= i < |tables| ==> tables[i].name != table
    ensures r.Some? ==> r.value in tables && r.value.name == table
  {
    if tables == [] then None
    else if tables[0].name == table then Some(tables[0])
    else
      var r := FindTable(tables[1..], table);
      assert forall i :: 1 <= i < |tables| ==> tables[i] == tables[1..][i - 1];
      r
  }

  /**
   * find_table_config: the table is looked up only in the first database
   * entry with the given name.
   */
  function FindTableConfig(dbs: seq<DatabaseConfig>, db: string, table: string): (r: Option<TableConfig>)
    ensures FindDatabaseConfig(dbs, db).None? ==> r.None?
    ensures FindDatabaseConfig(dbs, db).Some? ==> r == FindTable(FindDatabaseConfig(dbs, db).value.tables, table)
  {
    match FindDatabaseConfig(dbs, db)
    case None => None
    case Some(d) => FindTable(d.tables, table)
  }

  /** should_capture_table: a configured table of a configured database. */
  predicate ShouldCaptureTable(dbs: seq<DatabaseConfig>, db: string, table: string)
  {
    FindTableConfig(dbs, db, table).Some?
  }

  /** should_capture_dml: the database's flag, false for an unknown database. */
  predicate ShouldCaptureDml(dbs: seq<DatabaseConfig>, db: string)
  {
    match FindDatabaseConfig(dbs, db)
    case None => false
    case Some(d) => d.captureDml
  }

  /** should_capture_ddl: the database's flag, false for an unknown database. */
  predicate ShouldCaptureDdl(dbs: seq<DatabaseConfig>, db: string)
  {
    match FindDatabaseConfig(dbs, db)
    case None => false
    case Some(d) => d.captureDdl
  }

  /** Only configured databases are ever captured, whatever the flags say. */
  lemma CaptureNeedsConfiguredDatabase(dbs: seq<DatabaseConfig>, db: string, table: string)
    requires ShouldCaptureTable(dbs, db, table) || ShouldCaptureDml(dbs, db) || ShouldCaptureDdl(dbs, db)
    ensures exists i :: 0 <= i < |dbs| && dbs[i].name == db
  {
    var d := FindDatabaseConfig(dbs, db);
    assert d.Some?;
  }

  /** A captured table is one listed under the database's first entry. */
  lemma CapturedTableIsListed(dbs: seq<DatabaseConfig>, db: string, table: string)
    requires ShouldCaptureTable(dbs, db, table)
    ensures exists t :: t in FindDatabaseConfig(dbs, db).value.tables && t.name == table
  {
    var t := FindTableConfig(dbs, db, table).value;
    assert t in FindDatabaseConfig(dbs, db).value.tables;
  }

  /**
   * parse_log_level: ERROR, WARN, INFO, DEBUG, TRACE or FATAL in any case;
   * anything else means INFO.
   */
  function ParseLogLevel(s: string): (level: int)
    ensures Logger.LOG_TRACE <= level <= Logger.LOG_FATAL
    ensures EqualsIgnoreCase(s, Logger.LevelName(level)) || level == Logger.LOG_INFO
  {
    if EqualsIgnoreCase(s, "ERROR") then Logger.LOG_ERROR
    else if EqualsIgnoreCase(s, "WARN") then Logger.LOG_WARN
    else if EqualsIgnoreCase(s, "INFO") then Logger.LOG_INFO
    else if EqualsIgnoreCase(s, "DEBUG") then Logger.LOG_DEBUG
    else if EqualsIgnoreCase(s, "TRACE") then Logger.LOG_TRACE
    else if EqualsIgnoreCase(s, "FATAL") then Logger.LOG_FATAL
    else Logger.LOG_INFO
  }

  /** Every level name the logger prints is read back as that level. */
  lemma ParseLogLevelOfName(level: int)
    requires Logger.LOG_TRACE <= level <= Logger.LOG_FATAL
    ensures ParseLogLevel(Logger.LevelName(level)) == level
  {
  }
}
