// The test webhook receiver: the POST handler for CDC events with the
// module-level statistics it updates, the responses it returns, and the
// per-type handlers, of which only `handle_insert` and `handle_update` can
// raise. Flask's `request.get_json()` is an oracle: the model receives the
// decoded payload, or None when decoding raised. Logging is left out, and
// the clock's `isoformat()` is passed in as `now`.
module WebhookTest {
  import opened Wrappers
  import opened Json
  import PyDict

  // ---------------------------------------------------------------------
  // Python's comparison, membership and indexing on decoded JSON values

  /** The numeric value of a number or a bool (`True == 1`). */
  function NumberOf(j: Json): real
    requires j.JBool? || j.JNum?
  {
    if j.JBool? then (if j.b then 1.0 else 0.0) else j.n
  }

  /**
   * Python's `==` on decoded values: numbers and bools compare by value,
   * lists element by element, and dicts by their keys and the values stored
   * under them, whatever the order.
   */
  predicate PyEq(a: Json, b: Json)
    decreases a
  {
    match a
    case JNull => b.JNull?
    case JBool(_) => (b.JBool? || b.JNum?) && NumberOf(a) == NumberOf(b)
    case JNum(_) => (b.JBool? || b.JNum?) && NumberOf(a) == NumberOf(b)
    case JStr(s) => b.JStr? && b.s == s
    case JArr(xs) =>
      b.JArr? && |xs| == |b.items| && forall i :: 0 <= i < |xs| ==> PyEq(xs[i], b.items[i])
    case JObj(fs) =>
      b.JObj? && |fs| == |b.fields| &&
      forall i :: 0 <= i < |fs| ==>
        match PyDict.Lookup(b.fields, fs[i].0)
        case Some(v) => PyEq(fs[i].1, v)
        case None => false
  }

  /** The keys of a dict, as the string values iteration yields. */
  function Names(fs: seq<(string, Json)>): (r: seq<Json>)
    ensures |r| == |fs| && forall i :: 0 <= i < |fs| ==> r[i] == JStr(fs[i].0)
  {
    if fs == [] then [] else [JStr(fs[0].0)] + Names(fs[1..])
  }

  /** The one-character strings iterating over a string yields. */
  function Chars(s: string): (r: seq<Json>)
    ensures |r| == |s| && forall i :: 0 <= i < |s| ==> r[i] == JStr([s[i]])
  {
    if s == [] then [] else [JStr([s[0]])] + Chars(s[1..])
  }

  /** `for x in c`: the values iteration yields, or None for a value that is not iterable. */
  function Iteration(c: Json): (r: Option<seq<Json>>)
    ensures r.Some? <==> c.JObj? || c.JArr? || c.JStr?
  {
    match c
    case JObj(fs) => Some(Names(fs))
    case JArr(xs) => Some(xs)
    case JStr(s) => Some(Chars(s))
    case _ => None
  }

  /** `s` occurs in `t` as a substring (the empty string occurs everywhere). */
  predicate Substring(s: string, t: string)
  {
    (|s| <= |t| && t[..|s|] == s) || (t != [] && Substring(s, t[1..]))
  }

  /**
   * `key in c`: dict membership (a list or dict key is unhashable), list
   * membership by `==`, substring test (the left operand must be a
   * string); None where Python raises TypeError.
   */
  function In(key: Json, c: Json): Option<bool>
  {
    match c
    case JObj(fs) =>
      if key.JArr? || key.JObj? then None
      else Some(key.JStr? && PyDict.Lookup(fs, key.s).Some?)
    case JArr(xs) => Some(exists i :: 0 <= i < |xs| && PyEq(key, xs[i]))
    case JStr(t) => if key.JStr? then Some(Substring(key.s, t)) else None
    case _ => None
  }

  /**
   * A list or string index: an integer (a bool counts as one), negative
   * indices counting from the end; None where Python raises.
   */
  function Position(key: Json, len: nat): (r: Option<nat>)
    ensures r.Some? ==> r.value < len
  {
    var i: Option<int> :=
      if key.JBool? then Some(if key.b then 1 else 0)
      else if key.JNum? && key.n == key.n.Floor as real then Some(key.n.Floor)
      else None;
    if i.None? then None
    else if 0 <= i.value < len then Some(i.value)
    else if 0 <= i.value + len < len then Some(i.value + len)
    else None
  }

  /** `c[key]`; None where Python raises KeyError, IndexError or TypeError. */
  function Index(c: Json, key: Json): Option<Json>
  {
    match c
    case JObj(fs) => if key.JStr? then PyDict.Lookup(fs, key.s) else None
    case JArr(xs) =>
      var p := Position(key, |xs|);
      if p.Some? then Some(xs[p.value]) else None
    case JStr(t) =>
      var p := Position(key, |t|);
      if p.Some? then Some(JStr([t[p.value]])) else None
    case _ => None
  }

  // ---------------------------------------------------------------------
  // handle_update

  /** One entry of `changed`: the key with its value before and after. */
  datatype Change = Change(key: Json, before: Json, after: Json)

  /** What one pass of `for key in after` does. */
  datatype KeyOutcome = Raises | Same | Differs(change: Change)

  /** `if key in before and before[key] != after[key]: changed.append(...)` */
  function KeyStep(before: Json, after: Json, key: Json): KeyOutcome
  {
    match In(key, before)
    case None => Raises
    case Some(false) => Same
    case Some(true) =>
      var b := Index(before, key);
      var a := Index(after, key);
      if b.None? || a.None? then Raises
      else if PyEq(b.value, a.value) then Same
      else Differs(Change(key, b.value, a.value))
  }

  /** `changed` after the passes over `keys`, in order; None when one of them raises. */
  function Changes(before: Json, after: Json, keys: seq<Json>): Option<seq<Change>>
  {
    if keys == [] then Some([])
    else
      match KeyStep(before, after, keys[0])
      case Raises => None
      case Same => Changes(before, after, keys[1..])
      case Differs(c) => Prepend([c], Changes(before, after, keys[1..]))
  }

  /** `front + rest` when the rest did not raise. */
  function Prepend(front: seq<Change>, rest: Option<seq<Change>>): (r: Option<seq<Change>>)
    ensures r.Some? <==> rest.Some?
  {
    if rest.Some? then Some(front + rest.value) else None
  }

  /** The `changed` list of one pair of `before` and `after` values. */
  function PairChanges(before: Json, after: Json): Option<seq<Change>>
  {
    match Iteration(after)
    case None => None
    case Some(keys) => Changes(before, after, keys)
  }

  /** One row: `row.get('before', {})` and `row.get('after', {})` raise unless the row is a dict. */
  function RowChanges(row: Json): Option<seq<Change>>
  {
    if !row.JObj? then None
    else PairChanges(Get(row, "before").GetOr(JObj([])), Get(row, "after").GetOr(JObj([])))
  }

  /** The `changed` list of every row, in order; None when one of them raises. */
  function UpdateChanges(rows: seq<Json>): Option<seq<seq<Change>>>
  {
    if rows == [] then Some([])
    else
      var first := RowChanges(rows[0]);
      var rest := UpdateChanges(rows[1..]);
      if first.None? || rest.None? then None else Some([first.value] + rest.value)
  }

  /** The `for key in after` loop of one row. */
  method ChangedKeys(before: Json, after: Json) returns (changed: Option<seq<Change>>)
    ensures changed == PairChanges(before, after)
  {
    var keys := Iteration(after);
    if keys.None? {
      return None;
    }
    var ks := keys.value;
    var acc: seq<Change> := [];
    var i := 0;
    assert ks[0..] == ks;
    assert Prepend([], Changes(before, after, ks)) == Changes(before, after, ks) by {
      if Changes(before, after, ks).Some? {
        assert [] + Changes(before, after, ks).value == Changes(before, after, ks).value;
      }
    }
    while i < |ks|
      invariant 0 <= i <= |ks|
      invariant Changes(before, after, ks) == Prepend(acc, Changes(before, after, ks[i..]))
    {
      assert ks[i..][0] == ks[i] && ks[i..][1..] == ks[i + 1..];
      var step := KeyStep(before, after, ks[i]);
      if step.Raises? {
        return None;
      }
      if step.Differs? {
        PrependTwice(acc, [step.change], Changes(before, after, ks[i + 1..]));
        acc := acc + [step.change];
      }
      i := i + 1;
    }
    assert acc + [] == acc;
    changed := Some(acc);
  }

  lemma PrependTwice(a: seq<Change>, b: seq<Change>, rest: Option<seq<Change>>)
    ensures Prepend(a, Prepend(b, rest)) == Prepend(a + b, rest)
  {
    if rest.Some? {
      assert a + (b + rest.value) == (a + b) + rest.value;
    }
  }

  /** `handle_update`: the loop over the rows, each with its `changed` list. */
  method HandleUpdate(rows: seq<Json>) returns (changes: Option<seq<seq<Change>>>)
    ensures changes == UpdateChanges(rows)
  {
    var acc: seq<seq<Change>> := [];
    var i := 0;
    while i < |rows|
      invariant 0 <= i <= |rows|
      invariant UpdateChanges(rows[..i]) == Some(acc)
    {
      var changed: Option<seq<Change>> := None;
      if rows[i].JObj? {
        var before := Get(rows[i], "before").GetOr(JObj([]));
        var after := Get(rows[i], "after").GetOr(JObj([]));
        changed := ChangedKeys(before, after);
      }
      assert changed == RowChanges(rows[i]);
      if changed.None? {
        UpdateRaisesIff(rows);
        return None;
      }
      UpdateChangesSnoc(rows[..i], rows[i]);
      assert rows[..i + 1] == rows[..i] + [rows[i]];
      acc := acc + [changed.value];
      i := i + 1;
    }
    assert rows[..i] == rows;
    changes := Some(acc);
  }

  /** Adding a row at the end adds its list at the end. */
  lemma {:induction false} UpdateChangesSnoc(rows: seq<Json>, row: Json)
    ensures UpdateChanges(rows + [row]) ==
      if UpdateChanges(rows).Some? && RowChanges(row).Some?
      then Some(UpdateChanges(rows).value + [RowChanges(row).value]) else None
  {
    if rows == [] {
      assert [row][1..] == [];
      if RowChanges(row).Some? {
        assert [] + [RowChanges(row).value] == [RowChanges(row).value] + [];
      }
    } else {
      assert (rows + [row])[0] == rows[0] && (rows + [row])[1..] == rows[1..] + [row];
      UpdateChangesSnoc(rows[1..], row);
      var first := RowChanges(rows[0]);
      var rest := UpdateChanges(rows[1..]);
      if first.Some? && rest.Some? && RowChanges(row).Some? {
        assert [first.value] + (rest.value + [RowChanges(row).value]) ==
               ([first.value] + rest.value) + [RowChanges(row).value];
      }
    }
  }

  /** `handle_update` raises exactly when one of the rows does. */
  lemma {:induction false} UpdateRaisesIff(rows: seq<Json>)
    ensures UpdateChanges(rows).None? <==> exists i :: 0 <= i < |rows| && RowChanges(rows[i]).None?
    ensures UpdateChanges(rows).Some? ==>
              |UpdateChanges(rows).value| == |rows| &&
              forall i :: 0 <= i < |rows| ==> Some(UpdateChanges(rows).value[i]) == RowChanges(rows[i])
  {
    if rows != [] {
      UpdateRaisesIff(rows[1..]);
      if RowChanges(rows[0]).Some? && UpdateChanges(rows[1..]).None? {
        var i :| 0 <= i < |rows[1..]| && RowChanges(rows[1..][i]).None?;
        assert rows[i + 1] == rows[1..][i];
      }
      if UpdateChanges(rows).Some? {
        forall i | 0 <= i < |rows|
          ensures Some(UpdateChanges(rows).value[i]) == RowChanges(rows[i])
        {
          if i > 0 {
            assert rows[i] == rows[1..][i - 1];
          }
        }
      }
    }
  }

  /** Earlier keys' entries come first: the list keeps the iteration order of `after`. */
  lemma {:induction false} ChangesInOrder(before: Json, after: Json, k1: seq<Json>, k2: seq<Json>)
    ensures Changes(before, after, k1 + k2) ==
      if Changes(before, after, k1).Some? then Prepend(Changes(before, after, k1).value, Changes(before, after, k2))
      else None
  {
    if k1 == [] {
      assert k1 + k2 == k2;
      assert [] + Changes(before, after, k2).GetOr([]) == Changes(before, after, k2).GetOr([]);
    } else {
      assert (k1 + k2)[0] == k1[0] && (k1 + k2)[1..] == k1[1..] + k2;
      ChangesInOrder(before, after, k1[1..], k2);
      var step := KeyStep(before, after, k1[0]);
      if step.Differs? {
        PrependTwice([step.change], Changes(before, after, k1[1..]).GetOr([]), Changes(before, after, k2));
      }
    }
  }

  /** An entry of `changed` for dicts: a key of `after` whose value differs from the one in `before`. */
  ghost predicate ChangedField(before: seq<(string, Json)>, after: seq<(string, Json)>, c: Change)
  {
    exists i :: 0 <= i < |after| && c.key == JStr(after[i].0) && c.after == after[i].1 &&
      PyDict.Lookup(before, after[i].0) == Some(c.before) && !PyEq(c.before, c.after)
  }

  /**
   * For a dict `before` and a dict `after` nothing raises, and `changed`
   * holds exactly the keys of `after` present in `before` with a different
   * value.
   */
  lemma DictChanges(before: seq<(string, Json)>, after: seq<(string, Json)>)
    requires PyDict.UniqueKeys(after)
    ensures PairChanges(JObj(before), JObj(after)).Some?
    ensures forall c :: c in PairChanges(JObj(before), JObj(after)).value <==> ChangedField(before, after, c)
  {
    var keys := Names(after);
    forall i | 0 <= i < |after|
      ensures PyDict.Lookup(after, after[i].0) == Some(after[i].1)
    {
      LookupUnique(after, i);
    }
    DictKeyChanges(before, after, keys);
    forall c
      ensures c in Changes(JObj(before), JObj(after), keys).value <==> ChangedField(before, after, c)
    {
      if ChangedField(before, after, c) {
        var i :| 0 <= i < |after| && c.key == JStr(after[i].0) && c.after == after[i].1 &&
          PyDict.Lookup(before, after[i].0) == Some(c.before) && !PyEq(c.before, c.after);
        assert keys[i] == c.key;
      }
      if c in Changes(JObj(before), JObj(after), keys).value {
        var k :| 0 <= k < |keys| && keys[k] == c.key;
        assert c.key == JStr(after[k].0);
      }
    }
  }

  /** In a dict whose keys are unique, looking up an entry's key finds that entry. */
  lemma {:induction false} LookupUnique(d: seq<(string, Json)>, i: nat)
    requires PyDict.UniqueKeys(d) && i < |d|
    ensures PyDict.Lookup(d, d[i].0) == Some(d[i].1)
  {
    if i > 0 {
      assert d[0].0 != d[i].0;
      assert d[1..][i - 1] == d[i];
      LookupUnique(d[1..], i - 1);
    }
  }

  /** The passes over keys of `after` on two dicts: the step rule, key by key. */
  lemma {:induction false} DictKeyChanges(before: seq<(string, Json)>, after: seq<(string, Json)>, keys: seq<Json>)
    requires forall k :: 0 <= k < |keys| ==> keys[k].JStr? && PyDict.Lookup(after, keys[k].s).Some?
    ensures Changes(JObj(before), JObj(after), keys).Some?
    ensures forall c :: c in Changes(JObj(before), JObj(after), keys).value <==>
      exists k :: 0 <= k < |keys| && keys[k] == c.key && c.key.JStr? &&
        PyDict.Lookup(after, c.key.s) == Some(c.after) &&
        PyDict.Lookup(before, c.key.s) == Some(c.before) && !PyEq(c.before, c.after)
  {
    if keys != [] {
      DictKeyChanges(before, after, keys[1..]);
      var rest := Changes(JObj(before), JObj(after), keys[1..]).value;
      var key := keys[0];
      var r := Changes(JObj(before), JObj(after), keys).value;
      forall c
        ensures c in r <==>
          exists k :: 0 <= k < |keys| && keys[k] == c.key && c.key.JStr? &&
            PyDict.Lookup(after, c.key.s) == Some(c.after) &&
            PyDict.Lookup(before, c.key.s) == Some(c.before) && !PyEq(c.before, c.after)
      {
        if c in rest {
          var k :| 0 <= k < |keys[1..]| && keys[1..][k] == c.key && c.key.JStr? &&
            PyDict.Lookup(after, c.key.s) == Some(c.after) &&
            PyDict.Lookup(before, c.key.s) == Some(c.before) && !PyEq(c.before, c.after);
          assert keys[k + 1] == c.key;
        }
        if exists k :: 0 <= k < |keys| && keys[k] == c.key && c.key.JStr? &&
            PyDict.Lookup(after, c.key.s) == Some(c.after) &&
            PyDict.Lookup(before, c.key.s) == Some(c.before) && !PyEq(c.before, c.after)
        {
          var k :| 0 <= k < |keys| && keys[k] == c.key && c.key.JStr? &&
            PyDict.Lookup(after, c.key.s) == Some(c.after) &&
            PyDict.Lookup(before, c.key.s) == Some(c.before) && !PyEq(c.before, c.after);
          if k > 0 {
            assert keys[1..][k - 1] == c.key;
          }
        }
      }
    }
  }

  // ---------------------------------------------------------------------
  // handle_insert

  /**
   * `username = row.get('username') if rows else None` for the 'radacct'
   * table: `row` is the last value the logging loop bound, and `.get`
   * raises unless it is a dict.
   */
  predicate InsertRaises(table: Json, rows: seq<Json>)
  {
    table == JStr("radacct") && rows != [] && !rows[|rows| - 1].JObj?
  }

  // ---------------------------------------------------------------------
  // receive_cdc_event

  datatype LastEvent = LastEvent(eventType: Json, db: Json, table: Json, time: string)

  /** The module-level `stats` dict. */
  datatype Stats = Stats(totalReceived: nat, inserts: nat, updates: nat, deletes: nat, errors: nat,
                         lastEvent: Option<LastEvent>)

  const NO_EVENTS := Stats(0, 0, 0, 0, 0, None)

  /** Every request is counted once, as at most one type and at most one error. */
  predicate Valid(s: Stats)
  {
    s.inserts + s.updates + s.deletes <= s.totalReceived && s.errors <= s.totalReceived
  }

  /** The reply: 200 with status 'success', 400 'Empty payload', or 500 with the exception's text. */
  datatype Reply = Processed(eventType: Json, txn: Json) | EmptyPayload | Failed

  function Code(r: Reply): nat
  {
    match r
    case Processed(_, _) => 200
    case EmptyPayload => 400
    case Failed => 500
  }

  function Status(r: Reply): string
  {
    if r.Processed? then "success" else "error"
  }

  /** The 'message' entry; None for the text of an exception and for a type that is not a string. */
  function Message(r: Reply): Option<string>
  {
    match r
    case Processed(JStr(t), _) => Some("Event " + t + " processed")
    case Processed(_, _) => None
    case EmptyPayload => Some("Empty payload")
    case Failed => None
  }

  /** The five values the handler reads from a payload, with their defaults. */
  datatype Fields = Fields(eventType: Json, db: Json, table: Json, txn: Json, rows: Json)

  function FieldsOf(event: Json): Fields
  {
    Fields(Get(event, "type").GetOr(JStr("UNKNOWN")), Get(event, "db").GetOr(JStr("unknown")),
           Get(event, "table").GetOr(JStr("unknown")), Get(event, "txn").GetOr(JStr("none")),
           Get(event, "rows").GetOr(JArr([])))
  }

  /** The if/elif chain on the type: exactly the strings 'INSERT', 'UPDATE' and 'DELETE' count. */
  function Count(s: Stats, eventType: Json): Stats
  {
    if eventType == JStr("INSERT") then s.(inserts := s.inserts + 1)
    else if eventType == JStr("UPDATE") then s.(updates := s.updates + 1)
    else if eventType == JStr("DELETE") then s.(deletes := s.deletes + 1)
    else s
  }

  /** Whether the handler chosen by the type raises; the rows are iterable, `len` having succeeded. */
  predicate HandlerRaises(f: Fields)
  {
    var rows := Iteration(f.rows).GetOr([]);
    if f.eventType == JStr("INSERT") then InsertRaises(f.table, rows)
    else if f.eventType == JStr("UPDATE") then UpdateChanges(rows).None?
    else false
  }

  /** A payload that passes the checks before the fields are read: truthy, and a dict. */
  predicate Accepted(payload: Option<Json>)
  {
    payload.Some? && Truthy(payload.value) && payload.value.JObj?
  }

  /**
   * `receive_cdc_event` on the statistics `s`: the new statistics and the
   * reply. The counters of an accepted payload are updated before
   * `len(rows)` and the handlers can raise.
   */
  function Received(s: Stats, payload: Option<Json>, now: string): (r: (Stats, Reply))
    ensures r.0.totalReceived == s.totalReceived + 1
    ensures r.0.errors == if r.1.Processed? then s.errors else s.errors + 1
    ensures Valid(s) ==> Valid(r.0)
  {
    var s1 := s.(totalReceived := s.totalReceived + 1);
    if payload.None? then (s1.(errors := s1.errors + 1), Failed)
    else if !Truthy(payload.value) then (s1.(errors := s1.errors + 1), EmptyPayload)
    else if !payload.value.JObj? then (s1.(errors := s1.errors + 1), Failed)
    else
      var f := FieldsOf(payload.value);
      var s2 := Count(s1, f.eventType).(lastEvent := Some(LastEvent(f.eventType, f.db, f.table, now)));
      if Len(f.rows).None? || HandlerRaises(f) then (s2.(errors := s2.errors + 1), Failed)
      else (s2, Processed(f.eventType, f.txn))
  }

  /** A falsy payload is rejected with 400 'Empty payload' and counted as an error, and nothing else changes. */
  lemma EmptyPayloadRejected(s: Stats, j: Json, now: string)
    requires !Truthy(j)
    ensures Received(s, Some(j), now) ==
      (s.(totalReceived := s.totalReceived + 1, errors := s.errors + 1), EmptyPayload)
    ensures Code(EmptyPayload) == 400 && Status(EmptyPayload) == "error"
    ensures Message(EmptyPayload) == Some("Empty payload")
  {
  }

  /**
   * The reply is 200 with the payload's type and txn exactly when the
   * payload is accepted, its rows have a length and its handler does not
   * raise.
   */
  lemma SuccessIff(s: Stats, payload: Option<Json>, now: string)
    ensures var reply := Received(s, payload, now).1;
      reply.Processed? <==>
        Accepted(payload) && Len(FieldsOf(payload.value).rows).Some? && !HandlerRaises(FieldsOf(payload.value))
    ensures var reply := Received(s, payload, now).1;
      reply.Processed? ==>
        reply == Processed(FieldsOf(payload.value).eventType, FieldsOf(payload.value).txn) &&
        Code(reply) == 200 && Status(reply) == "success"
    ensures var reply := Received(s, payload, now).1;
      !reply.Processed? ==> Code(reply) != 200 && Status(reply) == "error"
  {
  }

  /** The per-type counters grow by one for an accepted payload whose type is exactly that name. */
  lemma TypeCounters(s: Stats, payload: Option<Json>, now: string)
    ensures var after := Received(s, payload, now).0;
      var t := if Accepted(payload) then FieldsOf(payload.value).eventType else JNull;
      after.inserts == s.inserts + (if t == JStr("INSERT") then 1 else 0) &&
      after.updates == s.updates + (if t == JStr("UPDATE") then 1 else 0) &&
      after.deletes == s.deletes + (if t == JStr("DELETE") then 1 else 0)
  {
  }

  /** A COMMIT, a lower-case name or a type that is not a string leaves the per-type counters alone. */
  lemma OtherTypesNotCounted(s: Stats, fields: seq<(string, Json)>, t: Json, now: string)
    requires PyDict.Lookup(fields, "type") == Some(t)
    requires t != JStr("INSERT") && t != JStr("UPDATE") && t != JStr("DELETE")
    ensures var after := Received(s, Some(JObj(fields)), now).0;
      after.inserts == s.inserts && after.updates == s.updates && after.deletes == s.deletes
  {
    TypeCounters(s, Some(JObj(fields)), now);
  }

  /** `last_event` records the type, db and table of the latest accepted payload, even when handling it fails. */
  lemma LastEventRule(s: Stats, payload: Option<Json>, now: string)
    ensures Received(s, payload, now).0.lastEvent ==
      if Accepted(payload)
      then Some(LastEvent(FieldsOf(payload.value).eventType, FieldsOf(payload.value).db,
                          FieldsOf(payload.value).table, now))
      else s.lastEvent
  {
  }

  /** The defaults: type 'UNKNOWN', db and table 'unknown', txn 'none' and no rows. */
  lemma DefaultFields(fields: seq<(string, Json)>)
    requires forall k :: k in ["type", "db", "table", "txn", "rows"] ==> PyDict.Lookup(fields, k) == None
    ensures FieldsOf(JObj(fields)) ==
      Fields(JStr("UNKNOWN"), JStr("unknown"), JStr("unknown"), JStr("none"), JArr([]))
  {
    assert PyDict.Lookup(fields, "type") == None && PyDict.Lookup(fields, "db") == None;
    assert PyDict.Lookup(fields, "table") == None && PyDict.Lookup(fields, "txn") == None;
    assert PyDict.Lookup(fields, "rows") == None;
  }

  /** An UPDATE whose rows include one that is not a dict fails with 500. */
  lemma NonObjectRowFails(s: Stats, payload: Option<Json>, now: string, i: nat)
    requires Accepted(payload) && FieldsOf(payload.value).eventType == JStr("UPDATE")
    requires FieldsOf(payload.value).rows.JArr? && i < |FieldsOf(payload.value).rows.items|
    requires !FieldsOf(payload.value).rows.items[i].JObj?
    ensures Received(s, payload, now).1 == Failed
  {
    UpdateRaisesIff(FieldsOf(payload.value).rows.items);
  }

  // ---------------------------------------------------------------------
  // The receiver

  class WebhookReceiver {
    var stats: Stats

    constructor ()
      ensures stats == NO_EVENTS && Valid(stats)
    {
      stats := NO_EVENTS;
    }

    /** `receive_cdc_event`: `payload` is what `request.get_json()` returned, None when it raised. */
    method ReceiveCdcEvent(payload: Option<Json>, now: string) returns (reply: Reply)
      modifies this
      ensures (stats, reply) == Received(old(stats), payload, now)
      ensures old(Valid(stats)) ==> Valid(stats)
    {
      stats := stats.(totalReceived := stats.totalReceived + 1);
      if payload.None? {
        stats := stats.(errors := stats.errors + 1);
        return Failed;
      }
      var event := payload.value;
      if !Truthy(event) {
        stats := stats.(errors := stats.errors + 1);
        return EmptyPayload;
      }
      if !event.JObj? {
        stats := stats.(errors := stats.errors + 1);
        return Failed;
      }
      var f := FieldsOf(event);
      stats := Count(stats, f.eventType);
      stats := stats.(lastEvent := Some(LastEvent(f.eventType, f.db, f.table, now)));
      if Len(f.rows).None? {
        stats := stats.(errors := stats.errors + 1);
        return Failed;
      }
      var rows := Iteration(f.rows).GetOr([]);
      var raised := false;
      if f.eventType == JStr("INSERT") {
        raised := InsertRaises(f.table, rows);
      } else if f.eventType == JStr("UPDATE") {
        var changes := HandleUpdate(rows);
        raised := changes.None?;
      }
      if raised {
        stats := stats.(errors := stats.errors + 1);
        return Failed;
      }
      reply := Processed(f.eventType, f.txn);
    }
  }
}
