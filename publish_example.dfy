// The example Python plugin: a module-level `stats` dict holding the number
// of events seen and, per "<db>.<table>" key, how many of them came from
// that table. on_event counts, on_start resets, the other hooks only report.
// Printing is left out; the hooks' return values and the state are modelled.
module PublishExample {
  import opened Wrappers
  import opened CdcTypes
  import opened PyDict

  /** `f"{event.get('db', 'unknown')}.{event.get('table', 'unknown')}"` */
  function TableKey(event: Dict<string>): string
  {
    Lookup(event, "db").GetOr("unknown") + "." + Lookup(event, "table").GetOr("unknown")
  }

  /** The dict the bridge builds from an event answers `get` with the event's own fields. */
  lemma EventLookups(e: CdcEvent)
    ensures Lookup(EventFields(e), "db") == e.db
    ensures Lookup(EventFields(e), "table") == e.table
  {
    var t: Dict<string> := if e.txn.Some? then [("txn", e.txn.value)] else [];
    var d: Dict<string> := if e.db.Some? then [("db", e.db.value)] else [];
    var b: Dict<string> := if e.table.Some? then [("table", e.table.value)] else [];
    var j: Dict<string> := if e.json.Some? then [("json", e.json.value)] else [];
    assert EventFields(e) == t + d + b + j;
    LookupConcat(t + d + b, j, "db");
    LookupConcat(t + d, b, "db");
    LookupConcat(t, d, "db");
    LookupConcat(t + d + b, j, "table");
    LookupConcat(t + d, b, "table");
    LookupConcat(t, d, "table");
  }

  /** For such a dict, the key is the publishers' "db.table" name. */
  lemma TableKeyOfEvent(e: CdcEvent)
    ensures TableKey(EventFields(e)) == QualifiedName("", e.db, e.table)
  {
    EventLookups(e);
  }

  /** The sum of the per-table counts. */
  function Sum(d: Dict<nat>): nat
  {
    if d == [] then 0 else d[0].1 + Sum(d[1..])
  }

  /** Storing `value` under `key` replaces what that key held in the sum. */
  lemma {:induction false} SumInsert(d: Dict<nat>, key: string, value: nat)
    ensures Sum(Insert(d, key, value)) + Lookup(d, key).GetOr(0) == Sum(d) + value
  {
    if d != [] && d[0].0 != key {
      SumInsert(d[1..], key, value);
      assert Insert(d, key, value)[1..] == Insert(d[1..], key, value);
    } else if d != [] {
      assert Insert(d, key, value)[1..] == d[1..];
    }
  }

  /** One on_event's change to the per-table counts. */
  function Count(byTable: Dict<nat>, event: Dict<string>): Dict<nat>
  {
    Insert(byTable, TableKey(event), Lookup(byTable, TableKey(event)).GetOr(0) + 1)
  }

  /** The per-table counts after a run of events from the empty dict. */
  function Tally(events: seq<Dict<string>>): Dict<nat>
  {
    if events == [] then [] else Count(Tally(events[..|events| - 1]), events[|events| - 1])
  }

  /** How many of the events carry `key`. */
  function Occurrences(events: seq<Dict<string>>, key: string): nat
  {
    if events == [] then 0
    else Occurrences(events[..|events| - 1], key) + (if TableKey(events[|events| - 1]) == key then 1 else 0)
  }

  /** After a run of events, each key holds the number of events from that table. */
  lemma {:induction false} TallyCounts(events: seq<Dict<string>>, key: string)
    ensures Lookup(Tally(events), key).GetOr(0) == Occurrences(events, key)
  {
    if events != [] {
      var prefix := events[..|events| - 1];
      var k := TableKey(events[|events| - 1]);
      var before := Tally(prefix);
      TallyCounts(prefix, key);
      InsertLookup(before, k, Lookup(before, k).GetOr(0) + 1, key);
    }
  }

  /** The counts add up to the number of events. */
  lemma {:induction false} TallySum(events: seq<Dict<string>>)
    ensures Sum(Tally(events)) == |events|
  {
    if events != [] {
      var prefix := events[..|events| - 1];
      var k := TableKey(events[|events| - 1]);
      var before := Tally(prefix);
      TallySum(prefix);
      SumInsert(before, k, Lookup(before, k).GetOr(0) + 1);
    }
  }

  /** No table key is listed twice. */
  lemma {:induction false} TallyUnique(events: seq<Dict<string>>)
    ensures UniqueKeys(Tally(events))
  {
    if events != [] {
      var prefix := events[..|events| - 1];
      var k := TableKey(events[|events| - 1]);
      var before := Tally(prefix);
      TallyUnique(prefix);
      InsertUnique(before, k, Lookup(before, k).GetOr(0) + 1);
    }
  }

  /** The module-level `stats` dict. */
  class Plugin {
    var total: nat
    var byTable: Dict<nat>

    /** `sum(stats['by_table'].values()) == stats['total']`, one entry per table. */
    predicate Valid()
      reads this
    {
      Sum(byTable) == total && UniqueKeys(byTable)
    }

    /** The module is imported: `{'total': 0, 'by_table': {}}`. */
    constructor ()
      ensures total == 0 && byTable == [] && Valid()
    {
      total, byTable := 0, [];
    }

    method OnEvent(event: Dict<string>) returns (rc: int)
      modifies this
      ensures rc == 0
      ensures total == old(total) + 1
      ensures byTable == Count(old(byTable), event)
      ensures old(Valid()) ==> Valid()
    {
      total := total + 1;
      var key := TableKey(event);
      var seen := Lookup(byTable, key).GetOr(0);
      SumInsert(byTable, key, seen + 1);
      if UniqueKeys(byTable) {
        InsertUnique(byTable, key, seen + 1);
      }
      byTable := Insert(byTable, key, seen + 1);
      rc := 0;
    }

    /** on_init only prints the configuration it receives. */
    method OnInit(config: Dict<string>) returns (rc: int)
      ensures rc == 0
    {
      rc := 0;
    }

    method OnStart() returns (rc: int)
      modifies this
      ensures rc == 0 && total == 0 && byTable == [] && Valid()
    {
      total := 0;
      byTable := [];
      rc := 0;
    }

    /** on_stop prints the total and then each table's count in insertion order. */
    method OnStop() returns (rc: int, shownTotal: nat, shownTables: Dict<nat>)
      ensures rc == 0 && shownTotal == total && shownTables == byTable
      ensures Valid() ==> Sum(shownTables) == shownTotal
    {
      return 0, total, byTable;
    }

    method OnHealth() returns (rc: int)
      ensures rc == 0
    {
      rc := 0;
    }
  }
}
