// A Python dict with string keys, as the monitor scripts and the example
// plugins use one: a sequence of (key, value) pairs in insertion order,
// which is also the order iteration visits them in. `d.get(k)` is Lookup,
// `d[k] = v` is Insert.
module PyDict {
  import opened Wrappers

  type Dict<V> = seq<(string, V)>

  /** `d.get(key)`: the value stored under `key`, searching in order. */
  function Lookup<V>(d: Dict<V>, key: string): Option<V>
  {
    if d == [] then None
    else if d[0].0 == key then Some(d[0].1)
    else Lookup(d[1..], key)
  }

  /** `list(d.keys())` */
  function KeysOf<V>(d: Dict<V>): (ks: seq<string>)
    ensures |ks| == |d| && forall i :: 0 <= i < |d| ==> ks[i] == d[i].0
  {
    if d == [] then [] else [d[0].0] + KeysOf(d[1..])
  }

  /** Every key occurs once. */
  predicate UniqueKeys<V>(d: Dict<V>)
  {
    forall i, j :: 0 <= i < j < |d| ==> d[i].0 != d[j].0
  }

  /** `d[key] = value`: an existing key keeps its place, a new key goes last. */
  function Insert<V>(d: Dict<V>, key: string, value: V): (r: Dict<V>)
    ensures |r| == if key in KeysOf(d) then |d| else |d| + 1
  {
    if d == [] then [(key, value)]
    else if d[0].0 == key then [(key, value)] + d[1..]
    else [d[0]] + Insert(d[1..], key, value)
  }

  /** Looking up in a concatenation searches the first part, then the second. */
  lemma {:induction false} LookupConcat<V>(a: Dict<V>, b: Dict<V>, key: string)
    ensures Lookup(a + b, key) == if Lookup(a, key).Some? then Lookup(a, key) else Lookup(b, key)
  {
    if a == [] {
      assert a + b == b;
    } else {
      assert (a + b)[1..] == a[1..] + b;
      LookupConcat(a[1..], b, key);
    }
  }

  /** After `d[key] = value`, key reads back as value and every other key reads as before. */
  lemma {:induction false} InsertLookup<V>(d: Dict<V>, key: string, value: V, other: string)
    ensures Lookup(Insert(d, key, value), key) == Some(value)
    ensures other != key ==> Lookup(Insert(d, key, value), other) == Lookup(d, other)
  {
    if d != [] && d[0].0 != key {
      InsertLookup(d[1..], key, value, other);
      assert Insert(d, key, value)[1..] == Insert(d[1..], key, value);
    } else if d != [] {
      assert Insert(d, key, value)[1..] == d[1..];
    }
  }

  /** The key order is kept and a new key is appended. */
  lemma {:induction false} InsertKeys<V>(d: Dict<V>, key: string, value: V)
    ensures KeysOf(Insert(d, key, value)) == if key in KeysOf(d) then KeysOf(d) else KeysOf(d) + [key]
  {
    if d != [] && d[0].0 != key {
      InsertKeys(d[1..], key, value);
      assert KeysOf(d) == [d[0].0] + KeysOf(d[1..]);
      assert KeysOf(Insert(d, key, value)) == [d[0].0] + KeysOf(Insert(d[1..], key, value));
    }
  }

  /** Insert keeps every key unique. */
  lemma InsertUnique<V>(d: Dict<V>, key: string, value: V)
    requires UniqueKeys(d)
    ensures UniqueKeys(Insert(d, key, value))
  {
    var r := Insert(d, key, value);
    InsertKeys(d, key, value);
    forall i, j | 0 <= i < j < |r|
      ensures r[i].0 != r[j].0
    {
      var ks := KeysOf(r);
      assert ks[i] == r[i].0 && ks[j] == r[j].0;
      if key in KeysOf(d) {
        assert ks[i] == KeysOf(d)[i] == d[i].0;
      } else {
        assert ks[i] == (KeysOf(d) + [key])[i];
        if j == |d| {
          assert KeysOf(d)[i] == d[i].0;
        }
      }
    }
  }
}
