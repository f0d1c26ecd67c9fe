// The UDP publisher plugin: init's validation of host, port, packet-size
// limit and newline flag, and publish's size check, packet composition and
// counters. The socket, name resolution, sendto and getsockopt are oracle
// inputs.
module UdpPublisher {
  import opened Wrappers
  import opened CText
  import opened CdcTypes
  import opened PluginConfig

  /** The largest UDP payload over IPv4, and init's default limit. */
  const MAX_UDP_PAYLOAD: int := 65507

  /** The probe start sends once to test connectivity. */
  const TEST_MESSAGE: string := "{\"test\":\"connection\"}"

  datatype Settings = Settings(host: string, port: int, maxPacketSize: int, addNewline: bool)

  predicate ValidPort(port: int)
  {
    0 < port <= 65535
  }

  /** max_packet_size: atoi of the configured text, replaced by 65507 when not in (0, 65507]. */
  function MaxPacketSize(entries: seq<ConfigEntry>): (m: int)
    ensures 0 < m <= MAX_UDP_PAYLOAD
  {
    match GetConfig(entries, "max_packet_size")
    case None => MAX_UDP_PAYLOAD
    case Some(text) =>
      var v := Atoi(text);
      if v <= 0 || v > MAX_UDP_PAYLOAD then MAX_UDP_PAYLOAD else v
  }

  /** add_newline is off only for the exact texts "no", "false" and "0". */
  function AddNewline(entries: seq<ConfigEntry>): bool
  {
    match GetConfig(entries, "add_newline")
    case None => true
    case Some(text) => !(text == "no" || text == "false" || text == "0")
  }

  /**
   * init. `socketOk` is whether socket() returned a descriptor and
   * `resolveOk` whether inet_pton or gethostbyname resolved the host.
   */
  function Init(entries: seq<ConfigEntry>, socketOk: bool, resolveOk: bool): (r: Option<Settings>)
    ensures r.Some? ==> ValidPort(r.value.port) && 0 < r.value.maxPacketSize <= MAX_UDP_PAYLOAD
  {
    var host := GetConfig(entries, "udp_host");
    var portText := GetConfig(entries, "udp_port");
    if host.None? || portText.None? then None
    else if !ValidPort(Atoi(portText.value)) then None
    else if !socketOk || !resolveOk then None
    else Some(Settings(host.value, Atoi(portText.value), MaxPacketSize(entries), AddNewline(entries)))
  }

  /** init succeeds exactly when host and port are given, the port is valid and the socket can be set up. */
  lemma InitAccepts(entries: seq<ConfigEntry>, socketOk: bool, resolveOk: bool)
    ensures Init(entries, socketOk, resolveOk).Some? <==>
            GetConfig(entries, "udp_host").Some? && GetConfig(entries, "udp_port").Some? &&
            ValidPort(Atoi(GetConfig(entries, "udp_port").value)) && socketOk && resolveOk
    ensures Init(entries, socketOk, resolveOk).Some? ==>
            Init(entries, socketOk, resolveOk).value.host == GetConfig(entries, "udp_host").value
  {
  }

  /** A configured limit is used when it is in range; otherwise, and when unset, 65507. */
  lemma MaxPacketSizeRule(entries: seq<ConfigEntry>)
    ensures GetConfig(entries, "max_packet_size").None? ==> MaxPacketSize(entries) == MAX_UDP_PAYLOAD
    ensures GetConfig(entries, "max_packet_size").Some? ==>
              var v := Atoi(GetConfig(entries, "max_packet_size").value);
              MaxPacketSize(entries) == if 0 < v <= MAX_UDP_PAYLOAD then v else MAX_UDP_PAYLOAD
  {
  }

  /**
   * The newline switch is case-sensitive and takes no other spellings:
   * "NO" and "off" keep the newline on, unlike the boolean config helper.
   */
  lemma NewlineSpellings()
    ensures !AddNewline([ConfigEntry("add_newline", "no")])
    ensures !AddNewline([ConfigEntry("add_newline", "0")])
    ensures AddNewline([ConfigEntry("add_newline", "NO")])
    ensures AddNewline([ConfigEntry("add_newline", "off")])
    ensures GetConfigBool([ConfigEntry("add_newline", "off")], "add_newline", 1) == 0
  {
    assert EqualsIgnoreCase("off", "off");
  }

  // ---------------------------------------------------------------------
  // publish

  datatype Counters = Counters(sent: nat, failed: nat, bytes: nat, dropped: nat)

  /** The datagram publish composes: the json bytes, then '\n' when enabled. */
  function Packet(json: string, addNewline: bool): string
  {
    json + (if addNewline then "\n" else "")
  }

  lemma PacketShape(json: string, addNewline: bool)
    ensures |Packet(json, addNewline)| == |json| + (if addNewline then 1 else 0)
    ensures Packet(json, addNewline)[..|json|] == json
    ensures addNewline ==> Packet(json, addNewline)[|json|] == '\n'
  {
  }

  /** What one publish call does, as its outcome. */
  datatype Outcome =
    | Rejected            // no socket: nothing counted
    | NoEvent             // null event or json
    | TooLarge            // packet longer than max_packet_size
    | NoBuffer            // malloc failed
    | SendFailed          // sendto returned a negative value
    | Sent(bytes: nat)    // sendto accepted this many bytes

  /**
   * publish. `allocOk` is malloc's answer and `sendResult` is what
   * sendto returned.
   */
  function PublishOutcome(s: Settings, sockfd: int, event: Option<CdcEvent>, allocOk: bool, sendResult: int): Outcome
  {
    if sockfd < 0 then Rejected
    else if event.None? || event.value.json.None? then NoEvent
    else if |Packet(event.value.json.value, s.addNewline)| > s.maxPacketSize then TooLarge
    else if !allocOk then NoBuffer
    else if sendResult < 0 then SendFailed
    else Sent(sendResult)
  }

  function OutcomeRc(o: Outcome): int
  {
    if o.Sent? then OK else FAIL
  }

  function OutcomeStep(c: Counters, o: Outcome): Counters
  {
    match o
    case Rejected => c
    case TooLarge => c.(failed := c.failed + 1, dropped := c.dropped + 1)
    case Sent(n) => c.(sent := c.sent + 1, bytes := c.bytes + n)
    case _ => c.(failed := c.failed + 1)
  }

  /**
   * With a socket, every publish counts exactly one event, as sent or as
   * failed; only oversized packets count as dropped, and only a send adds
   * bytes, the number sendto reported.
   */
  lemma OneCountPerEvent(s: Settings, sockfd: int, event: Option<CdcEvent>, allocOk: bool, sendResult: int, c: Counters)
    requires sockfd >= 0
    ensures var o := PublishOutcome(s, sockfd, event, allocOk, sendResult);
            var c' := OutcomeStep(c, o);
            c'.sent + c'.failed == c.sent + c.failed + 1 &&
            (c'.sent == c.sent + 1 <==> OutcomeRc(o) == OK) &&
            c'.dropped == c.dropped + (if o.TooLarge? then 1 else 0) &&
            c'.bytes == c.bytes + (if OutcomeRc(o) == OK then sendResult else 0)
  {
  }

  /** A packet over the limit is never handed to sendto, whatever sendto would have done. */
  lemma OversizedDropped(s: Settings, sockfd: int, e: CdcEvent, allocOk: bool, sendResult: int)
    requires sockfd >= 0 && e.json.Some?
    requires |e.json.value| + (if s.addNewline then 1 else 0) > s.maxPacketSize
    ensures PublishOutcome(s, sockfd, Some(e), allocOk, sendResult) == TooLarge
  {
    PacketShape(e.json.value, s.addNewline);
  }

  /** health_check, given getsockopt's success and the SO_ERROR value it read. */
  function HealthRc(sockfd: int, getsockoptOk: bool, soError: int): int
  {
    if sockfd < 0 || !getsockoptOk || soError != 0 then FAIL else OK
  }

  lemma HealthIsSocketState(sockfd: int, getsockoptOk: bool, soError: int)
    ensures HealthRc(sockfd, getsockoptOk, soError) == OK <==> sockfd >= 0 && getsockoptOk && soError == 0
  {
  }

  // ---------------------------------------------------------------------
  // The plugin's private data

  class Publisher {
    const settings: Settings
    const sockfd: int
    var eventsSent: nat
    var eventsFailed: nat
    var bytesSent: nat
    var packetsDropped: nat

    function Stats(): Counters
      reads this
    {
      Counters(eventsSent, eventsFailed, bytesSent, packetsDropped)
    }

    constructor (s: Settings, fd: int)
      ensures settings == s && sockfd == fd && Stats() == Counters(0, 0, 0, 0)
    {
      settings := s;
      sockfd := fd;
      eventsSent, eventsFailed, bytesSent, packetsDropped := 0, 0, 0, 0;
    }

    /** start: send the probe; its failure is only logged. */
    method Start(probeResult: int) returns (rc: int, probe: string)
      ensures rc == OK && probe == TEST_MESSAGE
    {
      probe := TEST_MESSAGE;
      rc := OK;
    }

    /**
     * publish; `packet` is the datagram handed to sendto, None when the
     * call stops before sending.
     */
    method Publish(event: Option<CdcEvent>, allocOk: bool, sendResult: int) returns (rc: int, packet: Option<string>)
      modifies this`eventsSent, this`eventsFailed, this`bytesSent, this`packetsDropped
      ensures rc == OutcomeRc(PublishOutcome(settings, sockfd, event, allocOk, sendResult))
      ensures Stats() == OutcomeStep(old(Stats()), PublishOutcome(settings, sockfd, event, allocOk, sendResult))
      ensures packet.Some? <==> PublishOutcome(settings, sockfd, event, allocOk, sendResult).SendFailed? ||
                                PublishOutcome(settings, sockfd, event, allocOk, sendResult).Sent?
      ensures packet.Some? ==> packet.value == Packet(event.value.json.value, settings.addNewline)
    {
      packet := None;
      if sockfd < 0 {
        return FAIL, None;
      }
      if event.None? || event.value.json.None? {
        eventsFailed := eventsFailed + 1;
        return FAIL, None;
      }
      var json := event.value.json.value;
      var packetLen := |json| + (if settings.addNewline then 1 else 0);
      PacketShape(json, settings.addNewline);
      if packetLen > settings.maxPacketSize {
        packetsDropped := packetsDropped + 1;
        eventsFailed := eventsFailed + 1;
        return FAIL, None;
      }
      if !allocOk {
        eventsFailed := eventsFailed + 1;
        return FAIL, None;
      }
      var buf := json;
      if settings.addNewline {
        buf := buf + "\n";
      }
      packet := Some(buf);
      if sendResult < 0 {
        eventsFailed := eventsFailed + 1;
        return FAIL, packet;
      }
      eventsSent := eventsSent + 1;
      bytesSent := bytesSent + sendResult;
      rc := OK;
    }

    method HealthCheck(getsockoptOk: bool, soError: int) returns (rc: int)
      ensures rc == HealthRc(sockfd, getsockoptOk, soError)
    {
      if sockfd < 0 || !getsockoptOk || soError != 0 {
        return FAIL;
      }
      rc := OK;
    }
  }
}
