// The Kafka publisher plugin: the settings init reads, the topic each event
// is produced to, the results of publish and publish_batch, the counters the
// delivery-report callback keeps, start/stop of the producer handle and the
// health check. Every librdkafka call is an oracle input: whether it
// succeeded, or what it reported.
module KafkaPublisher {
  import opened Wrappers
  import opened CText
  import opened CdcTypes
  import opened PluginConfig

  datatype Settings = Settings(
    bootstrapServers: string,   // char[512]
    topicPerTable: bool,
    topicPrefix: string,        // char[128]
    compression: string,        // char[32]
    flushTimeoutMs: int,
    batchSize: int)

  /** init: None (init returns -1) exactly when bootstrap_servers is missing. */
  function Init(entries: seq<ConfigEntry>): (r: Option<Settings>)
    ensures r.None? <==> GetConfig(entries, "bootstrap_servers").None?
    ensures r.Some? ==> |r.value.bootstrapServers| < 512 && |r.value.topicPrefix| < 128 &&
                        |r.value.compression| < 32
  {
    match GetConfig(entries, "bootstrap_servers")
    case None => None
    case Some(servers) =>
      Some(Settings(
        Bounded(servers, 512),
        GetConfigBool(entries, "topic_per_table", 0) != 0,
        Bounded(GetConfig(entries, "topic_prefix").GetOr("cdc."), 128),
        Bounded(GetConfig(entries, "compression").GetOr("snappy"), 32),
        GetConfigInt(entries, "flush_timeout_ms", 1000),
        GetConfigInt(entries, "batch_size", 1000)))
  }

  /** A configuration naming only the brokers gets every default. */
  lemma InitDefaults(servers: string)
    requires |servers| < 512
    ensures Init([ConfigEntry("bootstrap_servers", servers)]) ==
            Some(Settings(servers, false, "cdc.", "snappy", 1000, 1000))
  {
    var es := [ConfigEntry("bootstrap_servers", servers)];
    assert GetConfig(es, "topic_prefix").None?;
    assert GetConfig(es, "compression").None?;
    assert GetConfig(es, "topic_per_table").None?;
  }

  /** Configured values that fit their buffers are kept verbatim. */
  lemma InitKeepsConfigured(entries: seq<ConfigEntry>, prefix: string, compression: string)
    requires GetConfig(entries, "bootstrap_servers").Some?
    requires GetConfig(entries, "topic_prefix") == Some(prefix) && |prefix| < 128
    requires GetConfig(entries, "compression") == Some(compression) && |compression| < 32
    ensures Init(entries).value.topicPrefix == prefix
    ensures Init(entries).value.compression == compression
  {
  }

  // ---------------------------------------------------------------------
  // Topics

  /** build_topic_name into `char topic[256]`. */
  function TopicName(s: Settings, db: Option<string>, table: Option<string>): (t: string)
    ensures |t| < 256
  {
    if s.topicPerTable then Bounded(QualifiedName(s.topicPrefix, db, table), 256)
    else Bounded(s.topicPrefix, 256)
  }

  /** Per-table topics are prefix, database, '.', table, when they fit. */
  lemma PerTableTopic(s: Settings, db: string, table: string)
    requires s.topicPerTable && |s.topicPrefix| + |db| + |table| < 255
    ensures TopicName(s, Some(db), Some(table)) == s.topicPrefix + db + "." + table
  {
  }

  /** A missing database or table name becomes "unknown" in the topic. */
  lemma UnknownParts(s: Settings)
    requires s.topicPerTable && |s.topicPrefix| < 128
    ensures TopicName(s, None, None) == s.topicPrefix + "unknown.unknown"
  {
  }

  /** Without topic_per_table every event, whatever its table, goes to the prefix topic. */
  lemma SharedTopic(s: Settings, db: Option<string>, table: Option<string>)
    requires !s.topicPerTable && |s.topicPrefix| < 128
    ensures TopicName(s, db, table) == s.topicPrefix
  {
  }

  // ---------------------------------------------------------------------
  // publish and publish_batch

  datatype Counters = Counters(sent: nat, failed: nat, bytes: nat)

  /** The checks publish makes before producing: a producer, an event, its json. */
  predicate Producible(producer: bool, event: Option<CdcEvent>)
  {
    producer && event.Some? && event.value.json.Some?
  }

  /** publish's return value; `produceOk` is rd_kafka_producev's answer. */
  function PublishRc(producer: bool, event: Option<CdcEvent>, produceOk: bool): int
  {
    if Producible(producer, event) && produceOk then OK else FAIL
  }

  /** publish's effect on the counters: only a produce error is counted. */
  function PublishStep(c: Counters, producer: bool, event: Option<CdcEvent>, produceOk: bool): Counters
  {
    if Producible(producer, event) && !produceOk then c.(failed := c.failed + 1) else c
  }

  /**
   * A rejected call (no producer, event or json) changes nothing; a
   * produce error adds exactly one failure; publish itself never counts a
   * message as sent, which only the delivery report does.
   */
  lemma PublishBookkeeping(c: Counters, producer: bool, event: Option<CdcEvent>, produceOk: bool)
    ensures PublishRc(producer, event, produceOk) == OK <==> Producible(producer, event) && produceOk
    ensures !Producible(producer, event) ==> PublishStep(c, producer, event, produceOk) == c
    ensures PublishStep(c, producer, event, produceOk).sent == c.sent
    ensures PublishStep(c, producer, event, produceOk).bytes == c.bytes
    ensures PublishStep(c, producer, event, produceOk).failed ==
            c.failed + (if Producible(producer, event) && PublishRc(producer, event, produceOk) == FAIL then 1 else 0)
  {
  }

  /** The number of events of a batch whose publish returns 0. */
  function Successes(producer: bool, events: seq<Option<CdcEvent>>, oks: seq<bool>): (n: nat)
    requires |events| == |oks|
    ensures n <= |events|
    decreases |events|
  {
    if events == [] then 0
    else Successes(producer, events[..|events| - 1], oks[..|oks| - 1]) +
         (if PublishRc(producer, events[|events| - 1], oks[|oks| - 1]) == OK then 1 else 0)
  }

  /** The counters after publishing every event of a batch in order. */
  function BatchStep(c: Counters, producer: bool, events: seq<Option<CdcEvent>>, oks: seq<bool>): Counters
    requires |events| == |oks|
    decreases |events|
  {
    if events == [] then c
    else PublishStep(BatchStep(c, producer, events[..|events| - 1], oks[..|oks| - 1]),
                     producer, events[|events| - 1], oks[|oks| - 1])
  }

  /** publish_batch's return value. */
  function BatchRc(producer: bool, events: seq<Option<CdcEvent>>, oks: seq<bool>): int
    requires |events| == |oks|
  {
    if Successes(producer, events, oks) == |events| then OK else FAIL
  }

  lemma {:induction false} AllSucceed(producer: bool, events: seq<Option<CdcEvent>>, oks: seq<bool>)
    requires |events| == |oks|
    ensures Successes(producer, events, oks) == |events| <==>
            forall i :: 0 <= i < |events| ==> PublishRc(producer, events[i], oks[i]) == OK
    decreases |events|
  {
    if events != [] {
      var n := |events| - 1;
      AllSucceed(producer, events[..n], oks[..n]);
      assert forall i :: 0 <= i < n ==> events[..n][i] == events[i] && oks[..n][i] == oks[i];
    }
  }

  /** publish_batch returns 0 exactly when every single publish returned 0. */
  lemma BatchAllOrFail(producer: bool, events: seq<Option<CdcEvent>>, oks: seq<bool>)
    requires |events| == |oks|
    ensures BatchRc(producer, events, oks) == OK <==>
            forall i :: 0 <= i < |events| ==> PublishRc(producer, events[i], oks[i]) == OK
  {
    AllSucceed(producer, events, oks);
  }

  /** Every failed publish of a batch is one more failure; nothing is counted as sent. */
  lemma {:induction false} BatchCountsFailures(c: Counters, producer: bool, events: seq<Option<CdcEvent>>, oks: seq<bool>)
    requires |events| == |oks| && producer
    requires forall i :: 0 <= i < |events| ==> events[i].Some? && events[i].value.json.Some?
    ensures BatchStep(c, producer, events, oks) ==
            c.(failed := c.failed + |events| - Successes(producer, events, oks))
    decreases |events|
  {
    if events != [] {
      var n := |events| - 1;
      assert forall i :: 0 <= i < n ==> events[..n][i] == events[i];
      BatchCountsFailures(c, producer, events[..n], oks[..n]);
    }
  }

  // ---------------------------------------------------------------------
  // Delivery reports

  /** One delivery report: whether it carries an error, and the message length. */
  datatype DeliveryReport = DeliveryReport(err: bool, len: nat)

  /** kafka_delivery_callback. */
  function DeliveryStep(c: Counters, r: DeliveryReport): Counters
  {
    if r.err then c.(failed := c.failed + 1) else c.(sent := c.sent + 1, bytes := c.bytes + r.len)
  }

  function DeliverAll(c: Counters, rs: seq<DeliveryReport>): Counters
    decreases |rs|
  {
    if rs == [] then c else DeliveryStep(DeliverAll(c, rs[..|rs| - 1]), rs[|rs| - 1])
  }

  /** The number of reports without an error, and their total length. */
  function Delivered(rs: seq<DeliveryReport>): (n: nat)
    ensures n <= |rs|
    decreases |rs|
  {
    if rs == [] then 0 else Delivered(rs[..|rs| - 1]) + (if rs[|rs| - 1].err then 0 else 1)
  }

  function DeliveredBytes(rs: seq<DeliveryReport>): nat
    decreases |rs|
  {
    if rs == [] then 0 else DeliveredBytes(rs[..|rs| - 1]) + (if rs[|rs| - 1].err then 0 else rs[|rs| - 1].len)
  }

  /**
   * After a run of delivery reports, sent grew by the reports without an
   * error, failed by the rest, and bytes by the lengths of the delivered ones.
   */
  lemma {:induction false} DeliverAllTotals(c: Counters, rs: seq<DeliveryReport>)
    ensures DeliverAll(c, rs) ==
            Counters(c.sent + Delivered(rs), c.failed + |rs| - Delivered(rs), c.bytes + DeliveredBytes(rs))
    decreases |rs|
  {
    if rs != [] {
      DeliverAllTotals(c, rs[..|rs| - 1]);
    }
  }

  // ---------------------------------------------------------------------
  // Health

  /** health_check, given rd_kafka_outq_len. */
  function HealthRc(producer: bool, queueLen: int, batchSize: int): int
  {
    if !producer then FAIL else if queueLen > batchSize * 10 then FAIL else OK
  }

  /**
   * Healthy means a producer whose backlog is at most ten batches; a
   * shorter backlog is never less healthy.
   */
  lemma HealthBacklog(producer: bool, queueLen: int, shorter: int, batchSize: int)
    requires shorter <= queueLen
    ensures HealthRc(producer, queueLen, batchSize) == OK <==> producer && queueLen <= 10 * batchSize
    ensures HealthRc(producer, queueLen, batchSize) == OK ==> HealthRc(producer, shorter, batchSize) == OK
  {
  }

  // ---------------------------------------------------------------------
  // The plugin's private data

  class Publisher {
    const settings: Settings
    var producer: bool
    var messagesSent: nat
    var messagesFailed: nat
    var bytesSent: nat

    function Stats(): Counters
      reads this
    {
      Counters(messagesSent, messagesFailed, bytesSent)
    }

    /** The calloc'd data init fills in: no producer yet, every counter zero. */
    constructor (s: Settings)
      ensures settings == s && !producer && Stats() == Counters(0, 0, 0)
    {
      settings := s;
      producer := false;
      messagesSent, messagesFailed, bytesSent := 0, 0, 0;
    }

    /**
     * start: rd_kafka_conf_new, the two rd_kafka_conf_set calls and
     * rd_kafka_new, each of which can fail. Only rd_kafka_new assigns the
     * producer handle.
     */
    method Start(confOk: bool, serversOk: bool, compressionOk: bool, producerOk: bool) returns (rc: int)
      modifies this`producer
      ensures rc == OK <==> confOk && serversOk && compressionOk && producerOk
      ensures rc == OK || rc == FAIL
      ensures producer == if confOk && serversOk && compressionOk then producerOk else old(producer)
    {
      if !confOk || !serversOk || !compressionOk {
        return FAIL;
      }
      producer := producerOk;
      rc := if producerOk then OK else FAIL;
    }

    method Publish(event: Option<CdcEvent>, produceOk: bool) returns (rc: int)
      modifies this`messagesFailed
      ensures rc == PublishRc(producer, event, produceOk)
      ensures Stats() == PublishStep(old(Stats()), producer, event, produceOk)
    {
      if !producer || event.None? || event.value.json.None? {
        return FAIL;
      }
      if !produceOk {
        messagesFailed := messagesFailed + 1;
        return FAIL;
      }
      rc := OK;
    }

    /** publish_batch: publish each event in turn and count the successes. */
    method PublishBatch(events: seq<Option<CdcEvent>>, oks: seq<bool>) returns (rc: int)
      requires |events| == |oks|
      modifies this`messagesFailed
      ensures rc == BatchRc(producer, events, oks)
      ensures Stats() == BatchStep(old(Stats()), producer, events, oks)
    {
      var success := 0;
      var i := 0;
      while i < |events|
        invariant 0 <= i <= |events|
        invariant success == Successes(producer, events[..i], oks[..i])
        invariant Stats() == BatchStep(old(Stats()), producer, events[..i], oks[..i])
      {
        var r := Publish(events[i], oks[i]);
        if r == OK {
          success := success + 1;
        }
        assert events[..i + 1][..i] == events[..i] && oks[..i + 1][..i] == oks[..i];
        i := i + 1;
      }
      assert events[..i] == events && oks[..i] == oks;
      rc := if success == |events| then OK else FAIL;
    }

    method OnDelivery(r: DeliveryReport)
      modifies this`messagesSent, this`messagesFailed, this`bytesSent
      ensures Stats() == DeliveryStep(old(Stats()), r)
    {
      if r.err {
        messagesFailed := messagesFailed + 1;
      } else {
        messagesSent := messagesSent + 1;
        bytesSent := bytesSent + r.len;
      }
    }

    /** stop: flush and destroy the producer; always succeeds. */
    method Stop() returns (rc: int)
      modifies this`producer
      ensures rc == OK && !producer
    {
      producer := false;
      rc := OK;
    }

    method HealthCheck(queueLen: int) returns (rc: int)
      ensures rc == HealthRc(producer, queueLen, settings.batchSize)
    {
      if !producer {
        return FAIL;
      }
      rc := if queueLen > settings.batchSize * 10 then FAIL else OK;
    }
  }
}
