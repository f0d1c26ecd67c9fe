// The Kafka monitor's sampling tick: the topic filter, the partition list,
// the (topic, partition) ordering of the rows, and per partition the lag
// against the committed offset and the rate against the previous sample,
// with the running totals. The consumer is an oracle: the topics it lists,
// each topic's partitions, the end and committed offsets, and the clock.
module KafkaMonitor {
  import opened Wrappers

  const EXCLUDE_TOPICS: seq<string> := ["__consumer_offsets"]

  datatype TopicPartition = TopicPartition(topic: string, partition: int)

  // ---------------------------------------------------------------------
  // The topic filter and the partition list

  /** `[t for t in all_topics if t not in EXCLUDE_TOPICS]` */
  function Topics(all: seq<string>): (ts: seq<string>)
    ensures |ts| <= |all|
  {
    if all == [] then []
    else Topics(all[..|all| - 1]) + (if all[|all| - 1] in EXCLUDE_TOPICS then [] else [all[|all| - 1]])
  }

  /** The filter keeps exactly the topics that are not excluded. */
  lemma {:induction false} TopicsKept(all: seq<string>, t: string)
    ensures t in Topics(all) <==> t in all && t !in EXCLUDE_TOPICS
  {
    if all != [] {
      var n := |all| - 1;
      TopicsKept(all[..n], t);
      assert all == all[..n] + [all[n]];
    }
  }

  /** The partitions of the listed topics, topic by topic, as `partitions_for_topic` lists them. */
  function Partitions(topics: seq<string>, partsOf: string -> seq<int>): seq<TopicPartition>
  {
    if topics == [] then []
    else
      var t := topics[|topics| - 1];
      Partitions(topics[..|topics| - 1], partsOf) + seq(|partsOf(t)|, i requires 0 <= i < |partsOf(t)| => TopicPartition(t, partsOf(t)[i]))
  }

  /** Every partition in the list belongs to a listed topic and is one of its partitions. */
  lemma {:induction false} PartitionsOfTopics(topics: seq<string>, partsOf: string -> seq<int>, tp: TopicPartition)
    ensures tp in Partitions(topics, partsOf) <==> tp.topic in topics && tp.partition in partsOf(tp.topic)
  {
    if topics != [] {
      var n := |topics| - 1;
      var t := topics[n];
      PartitionsOfTopics(topics[..n], partsOf, tp);
      assert topics == topics[..n] + [t];
      var last := seq(|partsOf(t)|, i requires 0 <= i < |partsOf(t)| => TopicPartition(t, partsOf(t)[i]));
      if tp.topic == t && tp.partition in partsOf(t) {
        var i :| 0 <= i < |partsOf(t)| && partsOf(t)[i] == tp.partition;
        assert last[i] == tp;
      }
    }
  }

  /** The loop that builds `partitions`, topic by topic and partition by partition. */
  method CollectPartitions(topics: seq<string>, partsOf: string -> seq<int>) returns (partitions: seq<TopicPartition>)
    ensures partitions == Partitions(topics, partsOf)
  {
    partitions := [];
    var k := 0;
    while k < |topics|
      invariant 0 <= k <= |topics|
      invariant partitions == Partitions(topics[..k], partsOf)
    {
      var parts := partsOf(topics[k]);
      var j := 0;
      ghost var start := partitions;
      while j < |parts|
        invariant 0 <= j <= |parts|
        invariant partitions == start + seq(j, i requires 0 <= i < j => TopicPartition(topics[k], parts[i]))
      {
        partitions := partitions + [TopicPartition(topics[k], parts[j])];
        j := j + 1;
      }
      assert topics[..k + 1][..k] == topics[..k];
      k := k + 1;
    }
    assert topics[..k] == topics;
  }

  /** `consumer.end_offsets(partitions).items()`, one item per partition. */
  function EndOffsets(partitions: seq<TopicPartition>, endOf: TopicPartition -> int): (items: seq<(TopicPartition, int)>)
    ensures |items| == |partitions|
    ensures forall i :: 0 <= i < |items| ==> items[i] == (partitions[i], endOf(partitions[i]))
  {
    seq(|partitions|, i requires 0 <= i < |partitions| => (partitions[i], endOf(partitions[i])))
  }

  // ---------------------------------------------------------------------
  // sorted(end_offsets.items(), key=lambda kv: (kv[0].topic, kv[0].partition))

  /** Python's `<` on str: by code point, a proper prefix first. */
  predicate StrLess(a: string, b: string)
  {
    if a == [] then b != []
    else if b == [] then false
    else if a[0] != b[0] then a[0] < b[0]
    else StrLess(a[1..], b[1..])
  }

  lemma {:induction false} StrLessIrreflexive(a: string)
    ensures !StrLess(a, a)
  {
    if a != [] {
      StrLessIrreflexive(a[1..]);
    }
  }

  lemma {:induction false} StrLessTransitive(a: string, b: string, c: string)
    requires StrLess(a, b) && StrLess(b, c)
    ensures StrLess(a, c)
  {
    if a != [] && b != [] && c != [] && a[0] == b[0] && b[0] == c[0] {
      StrLessTransitive(a[1..], b[1..], c[1..]);
    }
  }

  lemma {:induction false} StrLessTotal(a: string, b: string)
    ensures a == b || StrLess(a, b) || StrLess(b, a)
  {
    if a != [] && b != [] && a[0] == b[0] {
      StrLessTotal(a[1..], b[1..]);
      if a[1..] == b[1..] {
        assert a == [a[0]] + a[1..] && b == [b[0]] + b[1..];
      }
    }
  }

  /** The tuple order on (topic, partition). */
  predicate KeyLess(p: TopicPartition, q: TopicPartition)
  {
    StrLess(p.topic, q.topic) || (p.topic == q.topic && p.partition < q.partition)
  }

  /** Two keys either tie or one comes first, and the order chains. */
  lemma KeyOrder(p: TopicPartition, q: TopicPartition, r: TopicPartition)
    ensures !KeyLess(p, p)
    ensures p == q || KeyLess(p, q) || KeyLess(q, p)
    ensures KeyLess(p, q) && KeyLess(q, r) ==> KeyLess(p, r)
  {
    StrLessIrreflexive(p.topic);
    StrLessTotal(p.topic, q.topic);
    if StrLess(p.topic, q.topic) && StrLess(q.topic, r.topic) {
      StrLessTransitive(p.topic, q.topic, r.topic);
    }
    if StrLess(p.topic, q.topic) && StrLess(q.topic, p.topic) {
      StrLessTransitive(p.topic, q.topic, p.topic);
    }
  }

  type Item = (TopicPartition, int)

  predicate Sorted(s: seq<Item>)
  {
    forall i, j :: 0 <= i < j < |s| ==> !KeyLess(s[j].0, s[i].0)
  }

  /** Insert one item into a sorted list, after every item that does not come later. */
  function InsertSorted(x: Item, s: seq<Item>): (r: seq<Item>)
    ensures multiset(r) == multiset(s) + multiset{x}
  {
    if s == [] then [x]
    else if KeyLess(x.0, s[0].0) then [x] + s
    else
      assert s == [s[0]] + s[1..];
      [s[0]] + InsertSorted(x, s[1..])
  }

  lemma {:induction false} InsertSortedSorted(x: Item, s: seq<Item>)
    requires Sorted(s)
    ensures Sorted(InsertSorted(x, s))
  {
    if s != [] && !KeyLess(x.0, s[0].0) {
      InsertSortedSorted(x, s[1..]);
      var r := InsertSorted(x, s);
      forall j | 0 < j < |r|
        ensures !KeyLess(r[j].0, s[0].0)
      {
        assert r[j] in multiset(InsertSorted(x, s[1..]));
        assert r[j] in multiset(s[1..]) + multiset{x};
        if r[j] == x {
          KeyOrder(x.0, s[0].0, x.0);
        } else {
          var k :| 0 <= k < |s[1..]| && s[1..][k] == r[j];
          assert s[k + 1] == r[j];
        }
      }
    } else if s != [] {
      forall j | 0 <= j < |s|
        ensures !KeyLess(s[j].0, x.0)
      {
        KeyOrder(s[0].0, s[j].0, x.0);
        KeyOrder(s[j].0, x.0, s[0].0);
        KeyOrder(x.0, s[0].0, s[j].0);
        KeyOrder(s[j].0, s[0].0, x.0);
      }
    }
  }

  /** `sorted(...)`: insertion sort by (topic, partition). */
  function SortItems(s: seq<Item>): (r: seq<Item>)
    ensures multiset(r) == multiset(s)
  {
    if s == [] then []
    else
      assert s == s[..|s| - 1] + [s[|s| - 1]];
      InsertSorted(s[|s| - 1], SortItems(s[..|s| - 1]))
  }

  /** The rows come out in (topic, partition) order, holding exactly the items given. */
  lemma {:induction false} SortItemsSorted(s: seq<Item>)
    ensures Sorted(SortItems(s)) && multiset(SortItems(s)) == multiset(s)
  {
    if s != [] {
      SortItemsSorted(s[..|s| - 1]);
      InsertSortedSorted(s[|s| - 1], SortItems(s[..|s| - 1]));
    }
  }

  // ---------------------------------------------------------------------
  // One row of the report

  /** `max(0, end - committed)` when a committed offset is known, else None. */
  function Lag(end: int, committed: Option<int>): (l: Option<nat>)
    ensures l.None? <==> committed.None?
    ensures l.Some? ==> l.value >= end - committed.value
  {
    match committed
    case None => None
    case Some(c) => Some(if end - c > 0 then end - c else 0)
  }

  /** Messages per second since the last sample of this partition; 0.0 when unseen or no time passed. */
  function Rate(last: Option<(int, real)>, end: int, now: real): (r: real)
  {
    if last.Some? && now - last.value.1 > 0.0 then (end - last.value.0) as real / (now - last.value.1)
    else 0.0
  }

  /** A printed rate is negative only when the end offset went backwards. */
  lemma RateSign(last: Option<(int, real)>, end: int, now: real)
    ensures last.None? ==> Rate(last, end, now) == 0.0
    ensures last.Some? && now - last.value.1 <= 0.0 ==> Rate(last, end, now) == 0.0
    ensures Rate(last, end, now) < 0.0 ==> last.Some? && end < last.value.0
  {
    if last.Some? && now - last.value.1 > 0.0 && end >= last.value.0 {
      var num := (end - last.value.0) as real;
      var dt := now - last.value.1;
      assert num >= 0.0;
      assert num / dt >= 0.0;
    }
  }

  datatype Row = Row(tp: TopicPartition, end: int, committed: Option<int>, lag: Option<nat>, rate: real)

  type Baselines = map<TopicPartition, (int, real)>

  function LastSample(b: Baselines, tp: TopicPartition): Option<(int, real)>
  {
    if tp in b then Some(b[tp]) else None
  }

  /** The row printed for one item, and the committed offset it is measured against. */
  function RowOf(b: Baselines, item: Item, groupId: bool, committedOf: TopicPartition -> Option<int>, now: real): Row
  {
    var committed := if groupId then committedOf(item.0) else None;
    Row(item.0, item.1, committed, Lag(item.1, committed), Rate(LastSample(b, item.0), item.1, now))
  }

  /** The rows of a sample and the baselines left behind, item by item. */
  function SampleRows(b: Baselines, items: seq<Item>, groupId: bool, committedOf: TopicPartition -> Option<int>, now: real): (Baselines, seq<Row>)
  {
    if items == [] then (b, [])
    else
      var (b1, rows) := SampleRows(b, items[..|items| - 1], groupId, committedOf, now);
      var item := items[|items| - 1];
      (b1[item.0 := (item.1, now)], rows + [RowOf(b1, item, groupId, committedOf, now)])
  }

  /** `total_lag`: the known lags added up. */
  function TotalLag(rows: seq<Row>): nat
  {
    if rows == [] then 0
    else TotalLag(rows[..|rows| - 1]) + (if rows[|rows| - 1].lag.Some? then rows[|rows| - 1].lag.value else 0)
  }

  /** `total_rate`: the non-negative rates added up. */
  function TotalRate(rows: seq<Row>): real
  {
    if rows == [] then 0.0
    else TotalRate(rows[..|rows| - 1]) + (if rows[|rows| - 1].rate > 0.0 then rows[|rows| - 1].rate else 0.0)
  }

  /** The total rate never goes below zero, whatever the individual rates. */
  lemma {:induction false} TotalRateNonNegative(rows: seq<Row>)
    ensures TotalRate(rows) >= 0.0
    ensures forall i :: 0 <= i < |rows| && rows[i].rate > 0.0 ==> TotalRate(rows) >= rows[i].rate
  {
    if rows != [] {
      var n := |rows| - 1;
      TotalRateNonNegative(rows[..n]);
      assert forall i :: 0 <= i < n ==> rows[..n][i] == rows[i];
    }
  }

  lemma TotalsSnoc(rows: seq<Row>, row: Row)
    ensures TotalLag(rows + [row]) == TotalLag(rows) + (if row.lag.Some? then row.lag.value else 0)
    ensures TotalRate(rows + [row]) == TotalRate(rows) + (if row.rate > 0.0 then row.rate else 0.0)
  {
    assert (rows + [row])[..|rows|] == rows;
  }

  lemma SampleRowsSnoc(b: Baselines, items: seq<Item>, i: nat, groupId: bool,
                       committedOf: TopicPartition -> Option<int>, now: real)
    requires i < |items|
    ensures var (b1, rows) := SampleRows(b, items[..i], groupId, committedOf, now);
            SampleRows(b, items[..i + 1], groupId, committedOf, now) ==
              (b1[items[i].0 := (items[i].1, now)], rows + [RowOf(b1, items[i], groupId, committedOf, now)])
  {
    assert items[..i + 1][..i] == items[..i];
  }

  /** Without a consumer group no lag is known and the total lag stays 0. */
  lemma {:induction false} NoGroupNoLag(b: Baselines, items: seq<Item>, committedOf: TopicPartition -> Option<int>, now: real)
    ensures forall i :: 0 <= i < |SampleRows(b, items, false, committedOf, now).1| ==>
              SampleRows(b, items, false, committedOf, now).1[i].lag.None?
    ensures TotalLag(SampleRows(b, items, false, committedOf, now).1) == 0
  {
    if items != [] {
      NoGroupNoLag(b, items[..|items| - 1], committedOf, now);
    }
  }

  /** A partition the sample does not list keeps its baseline. */
  lemma {:induction false} BaselineKept(b: Baselines, items: seq<Item>, groupId: bool,
                                        committedOf: TopicPartition -> Option<int>, now: real,
                                        tp: TopicPartition)
    requires forall i :: 0 <= i < |items| ==> items[i].0 != tp
    ensures LastSample(SampleRows(b, items, groupId, committedOf, now).0, tp) == LastSample(b, tp)
  {
    if items != [] {
      var n := |items| - 1;
      assert forall i :: 0 <= i < n ==> items[..n][i] == items[i];
      BaselineKept(b, items[..n], groupId, committedOf, now, tp);
    }
  }

  /** A listed partition's baseline becomes (end, now) of its last row, whatever the rate was. */
  lemma {:induction false} BaselineOverwritten(b: Baselines, items: seq<Item>, groupId: bool,
                                               committedOf: TopicPartition -> Option<int>, now: real,
                                               i: nat)
    requires i < |items| && forall j :: i < j < |items| ==> items[j].0 != items[i].0
    ensures LastSample(SampleRows(b, items, groupId, committedOf, now).0, items[i].0) == Some((items[i].1, now))
  {
    var n := |items| - 1;
    if i < n {
      assert forall j :: i < j < n ==> items[..n][j] == items[j];
      BaselineOverwritten(b, items[..n], groupId, committedOf, now, i);
      assert items[..n][i] == items[i];
    }
  }

  /** One row per item, in the items' order. */
  lemma {:induction false} RowsFollowItems(b: Baselines, items: seq<Item>, groupId: bool,
                                           committedOf: TopicPartition -> Option<int>, now: real)
    ensures var rows := SampleRows(b, items, groupId, committedOf, now).1;
            |rows| == |items| && forall i :: 0 <= i < |items| ==> rows[i].tp == items[i].0 && rows[i].end == items[i].1
  {
    if items != [] {
      var n := |items| - 1;
      RowsFollowItems(b, items[..n], groupId, committedOf, now);
      assert forall i :: 0 <= i < n ==> items[..n][i] == items[i];
    }
  }

  /** What one tick prints after its header: the rows, the total lag ('N/A' as None) and the total rate. */
  datatype Report = Report(rows: seq<Row>, totalLag: Option<nat>, totalRate: real)

  // ---------------------------------------------------------------------
  // The monitor loop's state

  class Monitor {
    /** `GROUP_ID` is set (truthy). */
    const groupId: bool
    /** `last_end_offsets` */
    var lastEndOffsets: Baselines

    constructor (groupId: bool)
      ensures this.groupId == groupId && lastEndOffsets == map[]
    {
      this.groupId := groupId;
      lastEndOffsets := map[];
    }

    /** The rate shown for one partition, against its previous sample. */
    method RateSince(tp: TopicPartition, end: int, now: real) returns (rate: real)
      ensures rate == Rate(LastSample(lastEndOffsets, tp), end, now)
    {
      rate := 0.0;
      if tp in lastEndOffsets {
        var (lastOff, lastTs) := lastEndOffsets[tp];
        var dt := now - lastTs;
        if dt > 0.0 {
          rate := (end - lastOff) as real / dt;
        }
      }
    }

    /** The row loop of one tick, over the items in their sorted order. */
    method Sample(items: seq<Item>, committedOf: TopicPartition -> Option<int>, now: real)
      returns (rows: seq<Row>, totalLag: nat, totalRate: real)
      modifies this
      ensures (lastEndOffsets, rows) == SampleRows(old(lastEndOffsets), items, groupId, committedOf, now)
      ensures totalLag == TotalLag(rows) && totalRate == TotalRate(rows)
    {
      rows, totalLag, totalRate := [], 0, 0.0;
      ghost var b0 := lastEndOffsets;
      var i := 0;
      while i < |items|
        invariant 0 <= i <= |items|
        invariant lastEndOffsets == SampleRows(b0, items[..i], groupId, committedOf, now).0
        invariant rows == SampleRows(b0, items[..i], groupId, committedOf, now).1
        invariant totalLag == TotalLag(rows) && totalRate == TotalRate(rows)
      {
        var tp := items[i].0;
        var end := items[i].1;
        var committed := if groupId then committedOf(tp) else None;
        var lag := Lag(end, committed);
        if lag.Some? {
          totalLag := totalLag + lag.value;
        }
        var rate := RateSince(tp, end, now);
        var row := Row(tp, end, committed, lag, rate);
        SampleRowsSnoc(b0, items, i, groupId, committedOf, now);
        TotalsSnoc(rows, row);
        lastEndOffsets := lastEndOffsets[tp := (end, now)];
        totalRate := totalRate + (if rate > 0.0 then rate else 0.0);
        rows := rows + [row];
        i := i + 1;
      }
      assert items[..i] == items;
    }

    /**
     * One pass of the `while True` loop. `topicList` is `sorted(consumer.topics())`;
     * None stands for the two "Retrying..." paths, which leave the baselines alone.
     */
    method Tick(topicList: seq<string>, partsOf: string -> seq<int>, endOf: TopicPartition -> int,
                committedOf: TopicPartition -> Option<int>, now: real)
      returns (report: Option<Report>)
      modifies this
      ensures report.None? <==> Topics(topicList) == [] || Partitions(Topics(topicList), partsOf) == []
      ensures report.None? ==> lastEndOffsets == old(lastEndOffsets)
      ensures report.Some? ==>
                var (b, rows) := SampleRows(old(lastEndOffsets),
                                            SortItems(EndOffsets(Partitions(Topics(topicList), partsOf), endOf)),
                                            groupId, committedOf, now);
                lastEndOffsets == b &&
                report.value == Report(rows, if groupId then Some(TotalLag(rows)) else None, TotalRate(rows))
    {
      var topics := Topics(topicList);
      if topics == [] {
        return None;
      }
      var partitions := CollectPartitions(topics, partsOf);
      if partitions == [] {
        return None;
      }
      var items := SortItems(EndOffsets(partitions, endOf));
      var rows, totalLag, totalRate := Sample(items, committedOf, now);
      report := Some(Report(rows, if groupId then Some(totalLag) else None, totalRate));
    }
  }
}
