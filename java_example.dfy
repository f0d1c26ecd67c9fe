// The example Java plugin: a HashMap `stats` holding the number of events
// under "total" and, under each "<db>.<table>" key, how many events came
// from that table. onEvent counts, onStart resets, onStop lists the
// per-table entries, onHealth reports. Printing is left out.
module JavaExample {
  import opened Wrappers
  import opened PyDict
  import PublishExample
  import opened Sets

  const TOTAL: string := "total"

  /**
   * `event.getOrDefault("db", "unknown") + "." + event.getOrDefault("table", "unknown")`,
   * the same key the Python example builds.
   */
  function TableKey(event: Dict<string>): string
  {
    PublishExample.TableKey(event)
  }

  /** A table key always holds a '.', so it can never overwrite the "total" entry. */
  lemma TableKeyNotTotal(event: Dict<string>)
    ensures '.' in TableKey(event)
    ensures TableKey(event) != TOTAL
  {
    var db := Lookup(event, "db").GetOr("unknown");
    assert TableKey(event)[|db|] == '.';
    assert forall i :: 0 <= i < |TOTAL| ==> TOTAL[i] != '.';
  }

  /** The keys of the listed entries. */
  function ListedKeys(listed: seq<(string, int)>): set<string>
  {
    set i | 0 <= i < |listed| :: listed[i].0
  }

  lemma ListedKeysSnoc(listed: seq<(string, int)>, entry: (string, int))
    ensures ListedKeys(listed + [entry]) == ListedKeys(listed) + {entry.0}
  {
    var l := listed + [entry];
    forall k | k in ListedKeys(l)
      ensures k in ListedKeys(listed) + {entry.0}
    {
      var i :| 0 <= i < |l| && l[i].0 == k;
      if i < |listed| {
        assert listed[i] == l[i];
      }
    }
    forall k | k in ListedKeys(listed)
      ensures k in ListedKeys(l)
    {
      var i :| 0 <= i < |listed| && listed[i].0 == k;
      assert l[i] == listed[i];
    }
    assert l[|listed|] == entry;
  }

  /** Every listed entry is a (key, value) pair of the map. */
  predicate Entries(listed: seq<(string, int)>, stats: map<string, int>)
  {
    forall i :: 0 <= i < |listed| ==> listed[i].0 in stats && listed[i].1 == stats[listed[i].0]
  }

  /** No key is listed twice. */
  predicate Distinct(listed: seq<(string, int)>)
  {
    forall i, j :: 0 <= i < j < |listed| ==> listed[i].0 != listed[j].0
  }

  lemma EntriesSnoc(listed: seq<(string, int)>, stats: map<string, int>, k: string)
    requires Entries(listed, stats) && k in stats
    ensures Entries(listed + [(k, stats[k])], stats)
  {
  }

  lemma DistinctSnoc(listed: seq<(string, int)>, entry: (string, int))
    requires Distinct(listed) && entry.0 !in ListedKeys(listed)
    ensures Distinct(listed + [entry])
  {
    var l := listed + [entry];
    forall i, j | 0 <= i < j < |l|
      ensures l[i].0 != l[j].0
    {
      assert l[i] == listed[i];
      if j == |listed| {
        assert listed[i].0 in ListedKeys(listed);
      } else {
        assert l[j] == listed[j];
      }
    }
  }

  class Plugin {
    var stats: map<string, int>

    /** "total" is present, and no table has been seen more often than there were events. */
    predicate Valid()
      reads this
    {
      TOTAL in stats && forall k :: k in stats ==> 0 <= stats[k] <= stats[TOTAL]
    }

    constructor ()
      ensures stats == map[TOTAL := 0] && Valid()
    {
      stats := map[TOTAL := 0];
    }

    method OnEvent(event: Dict<string>) returns (rc: int)
      requires Valid()
      modifies this
      ensures rc == 0 && Valid()
      ensures stats[TOTAL] == old(stats[TOTAL]) + 1
      ensures var key := TableKey(event);
              stats == old(stats)[TOTAL := old(stats[TOTAL]) + 1]
                                 [key := (if key in old(stats) then old(stats[key]) else 0) + 1]
    {
      var total := stats[TOTAL] + 1;
      stats := stats[TOTAL := total];
      var key := TableKey(event);
      TableKeyNotTotal(event);
      var seen := if key in stats then stats[key] else 0;
      stats := stats[key := seen + 1];
      rc := 0;
    }

    /** onInit only prints the configuration it receives. */
    method OnInit(config: Dict<string>) returns (rc: int)
      ensures rc == 0
    {
      rc := 0;
    }

    method OnStart() returns (rc: int)
      modifies this
      ensures rc == 0 && stats == map[TOTAL := 0] && Valid()
    {
      stats := map[];
      stats := stats[TOTAL := 0];
      rc := 0;
    }

    /**
     * onStop prints the total, then every entry but "total", in the map's
     * own (unspecified) iteration order.
     */
    method OnStop() returns (rc: int, total: int, listed: seq<(string, int)>)
      requires Valid()
      ensures rc == 0 && total == stats[TOTAL]
      ensures ListedKeys(listed) == stats.Keys - {TOTAL}
      ensures Entries(listed, stats) && Distinct(listed)
    {
      total := stats[TOTAL];
      listed := [];
      var remaining := stats.Keys;
      ghost var visited: set<string> := {};
      while remaining != {}
        invariant visited + remaining == stats.Keys && visited !! remaining
        invariant ListedKeys(listed) == visited - {TOTAL}
        invariant Entries(listed, stats) && Distinct(listed)
        decreases |remaining|
      {
        var k :| k in remaining;
        VisitOne(visited, remaining, k, TOTAL);
        if k != TOTAL {
          ListedKeysSnoc(listed, (k, stats[k]));
          EntriesSnoc(listed, stats, k);
          DistinctSnoc(listed, (k, stats[k]));
          listed := listed + [(k, stats[k])];
        }
        visited := visited + {k};
        remaining := remaining - {k};
      }
      rc := 0;
    }

    method OnHealth() returns (rc: int)
      ensures rc == 0
    {
      rc := 0;
    }
  }
}
