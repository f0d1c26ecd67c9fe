// The statistics both Redis monitors keep: the number of events displayed
// and, for the four event types, how many were of that type.
module MonitorStats {
  datatype Stats = Stats(total: nat, inserts: nat, updates: nat, deletes: nat, commits: nat)

  const NO_STATS := Stats(0, 0, 0, 0, 0)

  /** Each event is counted under at most one of the four kinds. */
  predicate Counted(s: Stats)
  {
    s.inserts + s.updates + s.deletes + s.commits <= s.total
  }

  datatype Kind = Insert | Update | Delete | Commit | Other

  /** The if/elif chain over the four type names; any other name is Other. */
  function KindOf(name: string): Kind
  {
    if name == "INSERT" then Insert
    else if name == "UPDATE" then Update
    else if name == "DELETE" then Delete
    else if name == "COMMIT" then Commit
    else Other
  }

  /** `self.stats['total'] += 1` and the counter of the event's kind. */
  function Bump(s: Stats, k: Kind): (r: Stats)
    ensures r.total == s.total + 1
    ensures Counted(s) ==> Counted(r)
  {
    var s1 := s.(total := s.total + 1);
    match k
    case Insert => s1.(inserts := s.inserts + 1)
    case Update => s1.(updates := s.updates + 1)
    case Delete => s1.(deletes := s.deletes + 1)
    case Commit => s1.(commits := s.commits + 1)
    case Other => s1
  }
}
