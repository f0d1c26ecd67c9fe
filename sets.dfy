// Iterating over a set in no particular order, as Python and Java do with a
// set or a map's key set: the facts each step of such a loop needs.
module Sets {
  /** One step of an iteration over a set: `k` moves from the elements still to visit to the visited ones. */
  lemma VisitOne<T>(visited: set<T>, remaining: set<T>, k: T, skip: T)
    requires k in remaining && visited !! remaining
    ensures (visited + {k}) + (remaining - {k}) == visited + remaining
    ensures (visited + {k}) !! (remaining - {k})
    ensures k !in visited
    ensures k != skip ==> (visited + {k}) - {skip} == (visited - {skip}) + {k}
    ensures k == skip ==> (visited + {k}) - {skip} == visited - {skip}
  {
  }

  /** Adding one element to `visited` adds it to `visited - keys` unless it is one of `keys`. */
  lemma SubtractOne<T>(visited: set<T>, keys: set<T>, diff: set<T>, k: T)
    requires diff == visited - keys && k !in visited
    ensures k in keys ==> visited + {k} - keys == diff
    ensures k !in keys ==> k !in diff && visited + {k} - keys == diff + {k}
  {
  }
}
