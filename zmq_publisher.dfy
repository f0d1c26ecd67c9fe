// The ZeroMQ publisher plugin: init's endpoint and defaults, the frames
// publish sends (an optional "db.table" topic frame, then the json), the
// batch result, and the socket's start/stop/health. Every zmq call's
// success is an oracle input.
module ZmqPublisher {
  import opened Wrappers
  import opened CText
  import opened CdcTypes
  import opened PluginConfig

  datatype Settings = Settings(endpoint: string, sendTimeoutMs: int, subscriberFiltering: bool)

  /** init: None (init returns -1) exactly when the endpoint is missing. */
  function Init(entries: seq<ConfigEntry>): (r: Option<Settings>)
    ensures r.None? <==> GetConfig(entries, "endpoint").None?
    ensures r.Some? ==> |r.value.endpoint| < 256
  {
    match GetConfig(entries, "endpoint")
    case None => None
    case Some(endpoint) =>
      Some(Settings(Bounded(endpoint, 256),
                    GetConfigInt(entries, "send_timeout_ms", 1000),
                    GetConfigBool(entries, "subscriber_filtering", 0) != 0))
  }

  lemma InitDefaults(endpoint: string)
    requires |endpoint| < 256
    ensures Init([ConfigEntry("endpoint", endpoint)]) == Some(Settings(endpoint, 1000, false))
  {
    var es := [ConfigEntry("endpoint", endpoint)];
    assert GetConfig(es, "subscriber_filtering").None?;
  }

  /** The topic frame: "db.table" in `char topic[256]`. */
  function Topic(db: Option<string>, table: Option<string>): (t: string)
    ensures |t| < 256
  {
    Bounded(QualifiedName("", db, table), 256)
  }

  /** What zmq_send answered for the topic frame and for the json frame. */
  datatype SendResults = SendResults(topicOk: bool, jsonOk: bool)

  /** The checks publish makes before sending: a socket, an event, its json. */
  predicate Sendable(socket: bool, event: Option<CdcEvent>)
  {
    socket && event.Some? && event.value.json.Some?
  }

  /** The frames handed to zmq_send, in order. */
  function Frames(s: Settings, socket: bool, event: Option<CdcEvent>, r: SendResults): seq<string>
  {
    if !Sendable(socket, event) then []
    else if s.subscriberFiltering then
      [Topic(event.value.db, event.value.table)] + (if r.topicOk then [event.value.json.value] else [])
    else [event.value.json.value]
  }

  /** The message got out whole: every frame it needs was accepted. */
  predicate Delivered(s: Settings, socket: bool, event: Option<CdcEvent>, r: SendResults)
  {
    Sendable(socket, event) && (!s.subscriberFiltering || r.topicOk) && r.jsonOk
  }

  function PublishRc(s: Settings, socket: bool, event: Option<CdcEvent>, r: SendResults): int
  {
    if Delivered(s, socket, event, r) then OK else FAIL
  }

  datatype Counters = Counters(sent: nat, failures: nat)

  function PublishStep(c: Counters, s: Settings, socket: bool, event: Option<CdcEvent>, r: SendResults): Counters
  {
    if !Sendable(socket, event) then c
    else if Delivered(s, socket, event, r) then c.(sent := c.sent + 1)
    else c.(failures := c.failures + 1)
  }

  /**
   * With filtering, the topic frame goes first and the json follows only
   * once the topic was accepted; without it only the json frame is sent.
   */
  lemma FrameOrder(s: Settings, e: CdcEvent, r: SendResults)
    requires e.json.Some?
    ensures s.subscriberFiltering ==>
              Frames(s, true, Some(e), r) ==
              if r.topicOk then [Topic(e.db, e.table), e.json.value] else [Topic(e.db, e.table)]
    ensures !s.subscriberFiltering ==> Frames(s, true, Some(e), r) == [e.json.value]
    ensures Delivered(s, true, Some(e), r) ==> Frames(s, true, Some(e), r)[|Frames(s, true, Some(e), r)| - 1] == e.json.value
  {
  }

  /** A sendable event counts exactly once: as sent when every frame went, else as a failure. */
  lemma OneCountPerEvent(c: Counters, s: Settings, socket: bool, event: Option<CdcEvent>, r: SendResults)
    ensures !Sendable(socket, event) ==> PublishStep(c, s, socket, event, r) == c && PublishRc(s, socket, event, r) == FAIL
    ensures Sendable(socket, event) ==>
              var c' := PublishStep(c, s, socket, event, r);
              c'.sent + c'.failures == c.sent + c.failures + 1 &&
              (c'.sent == c.sent + 1 <==> PublishRc(s, socket, event, r) == OK)
  {
  }

  // ---------------------------------------------------------------------
  // publish_batch

  function Successes(s: Settings, socket: bool, events: seq<Option<CdcEvent>>, rs: seq<SendResults>): (n: nat)
    requires |events| == |rs|
    ensures n <= |events|
    decreases |events|
  {
    if events == [] then 0
    else Successes(s, socket, events[..|events| - 1], rs[..|rs| - 1]) +
         (if PublishRc(s, socket, events[|events| - 1], rs[|rs| - 1]) == OK then 1 else 0)
  }

  function BatchStep(c: Counters, s: Settings, socket: bool, events: seq<Option<CdcEvent>>, rs: seq<SendResults>): Counters
    requires |events| == |rs|
    decreases |events|
  {
    if events == [] then c
    else PublishStep(BatchStep(c, s, socket, events[..|events| - 1], rs[..|rs| - 1]),
                     s, socket, events[|events| - 1], rs[|rs| - 1])
  }

  function BatchRc(s: Settings, socket: bool, events: seq<Option<CdcEvent>>, rs: seq<SendResults>): int
    requires |events| == |rs|
  {
    if Successes(s, socket, events, rs) == |events| then OK else FAIL
  }

  /** publish_batch returns 0 exactly when every single publish returned 0. */
  lemma {:induction false} BatchAllOrFail(s: Settings, socket: bool, events: seq<Option<CdcEvent>>, rs: seq<SendResults>)
    requires |events| == |rs|
    ensures BatchRc(s, socket, events, rs) == OK <==>
            forall i :: 0 <= i < |events| ==> PublishRc(s, socket, events[i], rs[i]) == OK
    decreases |events|
  {
    if events != [] {
      var n := |events| - 1;
      BatchAllOrFail(s, socket, events[..n], rs[..n]);
      assert forall i :: 0 <= i < n ==> events[..n][i] == events[i] && rs[..n][i] == rs[i];
    }
  }

  /** Over a batch of sendable events, sent and failures together grow by the batch size. */
  lemma {:induction false} BatchCountsEveryEvent(c: Counters, s: Settings, socket: bool,
                                                 events: seq<Option<CdcEvent>>, rs: seq<SendResults>)
    requires |events| == |rs|
    requires forall i :: 0 <= i < |events| ==> Sendable(socket, events[i])
    ensures BatchStep(c, s, socket, events, rs) ==
            Counters(c.sent + Successes(s, socket, events, rs),
                     c.failures + |events| - Successes(s, socket, events, rs))
    decreases |events|
  {
    if events != [] {
      var n := |events| - 1;
      assert forall i :: 0 <= i < n ==> events[..n][i] == events[i];
      BatchCountsEveryEvent(c, s, socket, events[..n], rs[..n]);
    }
  }

  // ---------------------------------------------------------------------
  // The plugin's private data

  class Publisher {
    const settings: Settings
    var socket: bool
    var messagesSent: nat
    var sendFailures: nat

    function Stats(): Counters
      reads this
    {
      Counters(messagesSent, sendFailures)
    }

    constructor (s: Settings)
      ensures settings == s && !socket && Stats() == Counters(0, 0)
    {
      settings := s;
      socket := false;
      messagesSent, sendFailures := 0, 0;
    }

    /** start: zmq_ctx_new, zmq_socket(ZMQ_PUB) and zmq_bind to the endpoint. */
    method Start(contextOk: bool, socketOk: bool, bindOk: bool) returns (rc: int)
      modifies this`socket
      ensures rc == OK <==> contextOk && socketOk && bindOk
      ensures rc == OK || rc == FAIL
      ensures socket == if contextOk then socketOk && bindOk else old(socket)
    {
      if !contextOk {
        return FAIL;
      }
      socket := socketOk;
      if !socketOk {
        return FAIL;
      }
      if !bindOk {
        socket := false;
        return FAIL;
      }
      rc := OK;
    }

    method Publish(event: Option<CdcEvent>, r: SendResults) returns (rc: int, frames: seq<string>)
      modifies this`messagesSent, this`sendFailures
      ensures rc == PublishRc(settings, socket, event, r)
      ensures frames == Frames(settings, socket, event, r)
      ensures Stats() == PublishStep(old(Stats()), settings, socket, event, r)
    {
      frames := [];
      if !socket || event.None? || event.value.json.None? {
        return FAIL, [];
      }
      var e := event.value;
      if settings.subscriberFiltering {
        frames := [Topic(e.db, e.table)];
        if !r.topicOk {
          sendFailures := sendFailures + 1;
          return FAIL, frames;
        }
      }
      frames := frames + [e.json.value];
      if !r.jsonOk {
        sendFailures := sendFailures + 1;
        return FAIL, frames;
      }
      messagesSent := messagesSent + 1;
      rc := OK;
    }

    method PublishBatch(events: seq<Option<CdcEvent>>, rs: seq<SendResults>) returns (rc: int)
      requires |events| == |rs|
      modifies this`messagesSent, this`sendFailures
      ensures rc == BatchRc(settings, socket, events, rs)
      ensures Stats() == BatchStep(old(Stats()), settings, socket, events, rs)
    {
      var success := 0;
      var i := 0;
      while i < |events|
        invariant 0 <= i <= |events|
        invariant success == Successes(settings, socket, events[..i], rs[..i])
        invariant Stats() == BatchStep(old(Stats()), settings, socket, events[..i], rs[..i])
      {
        var r, _ := Publish(events[i], rs[i]);
        if r == OK {
          success := success + 1;
        }
        assert events[..i + 1][..i] == events[..i] && rs[..i + 1][..i] == rs[..i];
        i := i + 1;
      }
      assert events[..i] == events && rs[..i] == rs;
      rc := if success == |events| then OK else FAIL;
    }

    /** stop: close the socket and destroy the context; always 0. */
    method Stop() returns (rc: int)
      modifies this`socket
      ensures rc == OK && !socket
    {
      socket := false;
      rc := OK;
    }

    /** health_check: 0 iff a socket exists. */
    method HealthCheck() returns (rc: int)
      ensures rc == OK <==> socket
      ensures rc == OK || rc == FAIL
    {
      rc := if socket then OK else FAIL;
    }
  }
}
