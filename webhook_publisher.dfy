// The webhook publisher plugin: init's URL, auth header and defaults, the
// request headers, the retry loop with exponential backoff in publish, and
// the curl handle's start/stop/health. Each curl_easy_perform and the
// HTTP status it leaves behind are oracle inputs, one per possible attempt.
module WebhookPublisher {
  import opened Wrappers
  import opened CText
  import opened CdcTypes
  import opened PluginConfig

  datatype Settings = Settings(
    url: string,          // char[512]
    authHeader: string,   // char[256], empty when no auth_token is configured
    timeoutSeconds: int,
    retryCount: int)

  const AUTH_PREFIX: string := "Authorization: Bearer "
  const CONTENT_TYPE: string := "Content-Type: application/json"

  /** init: None (init returns -1) exactly when webhook_url is missing. */
  function Init(entries: seq<ConfigEntry>): (r: Option<Settings>)
    ensures r.None? <==> GetConfig(entries, "webhook_url").None?
    ensures r.Some? ==> |r.value.url| < 512 && |r.value.authHeader| < 256
  {
    match GetConfig(entries, "webhook_url")
    case None => None
    case Some(url) =>
      var auth := match GetConfig(entries, "auth_token")
                  case None => ""
                  case Some(token) => Bounded(AUTH_PREFIX + token, 256);
      Some(Settings(Bounded(url, 512), auth,
                    GetConfigInt(entries, "timeout_seconds", 10),
                    GetConfigInt(entries, "retry_count", 3)))
  }

  /** Only the URL configured: no auth header, a 10 s timeout and 3 retries. */
  lemma InitDefaults(url: string)
    requires |url| < 512
    ensures Init([ConfigEntry("webhook_url", url)]) == Some(Settings(url, "", 10, 3))
  {
    var es := [ConfigEntry("webhook_url", url)];
    assert GetConfig(es, "auth_token").None?;
  }

  /** A configured token yields "Authorization: Bearer <token>", cut to the buffer. */
  lemma AuthHeaderOfToken(entries: seq<ConfigEntry>, token: string)
    requires GetConfig(entries, "webhook_url").Some?
    requires GetConfig(entries, "auth_token") == Some(token)
    ensures Init(entries).value.authHeader == Bounded(AUTH_PREFIX + token, 256)
    ensures |token| < 234 ==> Init(entries).value.authHeader == AUTH_PREFIX + token
  {
  }

  /**
   * The request headers: the content type, then the auth header when it is
   * non-empty. A configured token, even an empty one, always sends one.
   */
  function Headers(s: Settings): (hs: seq<string>)
  {
    [CONTENT_TYPE] + (if s.authHeader != "" then [s.authHeader] else [])
  }

  lemma HeadersOfInit(entries: seq<ConfigEntry>)
    requires Init(entries).Some?
    ensures var hs := Headers(Init(entries).value);
            hs[0] == CONTENT_TYPE &&
            (|hs| == 2 <==> GetConfig(entries, "auth_token").Some?) &&
            (|hs| == 2 ==> hs[1][..|AUTH_PREFIX|] == AUTH_PREFIX)
  {
    if GetConfig(entries, "auth_token").Some? {
      var h := Bounded(AUTH_PREFIX + GetConfig(entries, "auth_token").value, 256);
      assert h[..|AUTH_PREFIX|] == AUTH_PREFIX;
    }
  }

  // ---------------------------------------------------------------------
  // The retry loop

  /** What one curl_easy_perform gave: CURLE_OK or not, and the HTTP status. */
  datatype Response = Response(curlOk: bool, httpCode: int)

  /** An attempt succeeds iff curl reports CURLE_OK and the status is 2xx. */
  predicate Succeeds(r: Response)
  {
    r.curlOk && 200 <= r.httpCode < 300
  }

  /** `for (attempt = 0; attempt <= retry_count; attempt++)` runs this many times at most. */
  function MaxAttempts(retryCount: int): nat
  {
    if retryCount < 0 then 0 else retryCount + 1
  }

  function Pow2(k: nat): (r: nat)
    ensures r >= 1
  {
    if k == 0 then 1 else 2 * Pow2(k - 1)
  }

  /** The sleeps before retries 1..n: 100 ms, 200 ms, 400 ms, ... in microseconds. */
  function Schedule(n: nat): (sl: seq<nat>)
    ensures |sl| == n
  {
    if n == 0 then [] else Schedule(n - 1) + [100000 * Pow2(n - 1)]
  }

  lemma {:induction false} ScheduleAt(n: nat, k: nat)
    requires k < n
    ensures Schedule(n)[k] == 100000 * Pow2(k)
  {
    if k < n - 1 {
      ScheduleAt(n - 1, k);
    }
  }

  /** Each backoff is twice the one before. */
  lemma ScheduleDoubles(n: nat, k: nat)
    requires k + 1 < n
    ensures Schedule(n)[k + 1] == 2 * Schedule(n)[k]
  {
    ScheduleAt(n, k);
    ScheduleAt(n, k + 1);
  }

  /** The index of the first successful attempt among attempts k..n-1. */
  function FirstSuccess(rs: seq<Response>, k: nat, n: nat): (r: Option<nat>)
    requires k <= n <= |rs|
    decreases n - k
  {
    if k == n then None
    else if Succeeds(rs[k]) then Some(k)
    else FirstSuccess(rs, k + 1, n)
  }

  lemma {:induction false} FirstSuccessIsFirst(rs: seq<Response>, k: nat, n: nat)
    requires k <= n <= |rs|
    ensures FirstSuccess(rs, k, n).None? <==> forall j :: k <= j < n ==> !Succeeds(rs[j])
    ensures FirstSuccess(rs, k, n).Some? ==>
              var i := FirstSuccess(rs, k, n).value;
              k <= i < n && Succeeds(rs[i]) && forall j :: k <= j < i ==> !Succeeds(rs[j])
    decreases n - k
  {
    if k < n && !Succeeds(rs[k]) {
      FirstSuccessIsFirst(rs, k + 1, n);
    }
  }

  /** How a delivery went: whether it got through, and how many attempts it took. */
  datatype Delivery = Delivery(delivered: bool, attempts: nat)

  function Deliver(retryCount: int, rs: seq<Response>): Delivery
    requires |rs| >= MaxAttempts(retryCount)
  {
    match FirstSuccess(rs, 0, MaxAttempts(retryCount))
    case Some(i) => Delivery(true, i + 1)
    case None => Delivery(false, MaxAttempts(retryCount))
  }

  /**
   * At most retry_count + 1 attempts, stopping at the first success: a
   * delivery's last attempt succeeded and every earlier one failed, and a
   * failed delivery used every attempt, all of them failing.
   */
  lemma RetryRules(retryCount: int, rs: seq<Response>)
    requires |rs| >= MaxAttempts(retryCount)
    ensures var d := Deliver(retryCount, rs);
            d.attempts <= MaxAttempts(retryCount) &&
            (d.delivered ==> d.attempts >= 1 && Succeeds(rs[d.attempts - 1])) &&
            (forall j :: 0 <= j < d.attempts - 1 ==> !Succeeds(rs[j])) &&
            (!d.delivered <==> forall j :: 0 <= j < MaxAttempts(retryCount) ==> !Succeeds(rs[j]))
  {
    FirstSuccessIsFirst(rs, 0, MaxAttempts(retryCount));
  }

  /** A negative retry_count skips the loop: the event fails without any request. */
  lemma NegativeRetriesNeverSend(retryCount: int, rs: seq<Response>)
    requires retryCount < 0
    ensures Deliver(retryCount, rs) == Delivery(false, 0)
  {
  }

  // ---------------------------------------------------------------------
  // The plugin's private data

  datatype Counters = Counters(sent: nat, failed: nat)

  class Publisher {
    const settings: Settings
    var curl: bool
    var eventsSent: nat
    var eventsFailed: nat

    function Stats(): Counters
      reads this
    {
      Counters(eventsSent, eventsFailed)
    }

    constructor (s: Settings)
      ensures settings == s && !curl && Stats() == Counters(0, 0)
    {
      settings := s;
      curl := false;
      eventsSent, eventsFailed := 0, 0;
    }

    /** start: curl_easy_init, whose handle becomes the plugin's. */
    method Start(initOk: bool) returns (rc: int)
      modifies this`curl
      ensures curl == initOk && (rc == OK <==> initOk) && (rc == OK || rc == FAIL)
    {
      curl := initOk;
      rc := if initOk then OK else FAIL;
    }

    /**
     * publish: `rs[k]` is what attempt k would get back. Returns the
     * attempts made and the usleep arguments in the order slept.
     */
    method Publish(event: Option<CdcEvent>, rs: seq<Response>) returns (rc: int, attempts: nat, sleeps: seq<nat>)
      requires |rs| >= MaxAttempts(settings.retryCount)
      modifies this`eventsSent, this`eventsFailed
      ensures !curl || event.None? || event.value.json.None? ==>
                rc == FAIL && attempts == 0 && sleeps == [] && Stats() == old(Stats())
      ensures curl && event.Some? && event.value.json.Some? ==>
                var d := Deliver(settings.retryCount, rs);
                attempts == d.attempts && (rc == OK <==> d.delivered) && (rc == OK || rc == FAIL) &&
                sleeps == Schedule(if attempts == 0 then 0 else attempts - 1) &&
                Stats() == if d.delivered then old(Stats()).(sent := old(eventsSent) + 1)
                           else old(Stats()).(failed := old(eventsFailed) + 1)
    {
      attempts, sleeps := 0, [];
      if !curl || event.None? || event.value.json.None? {
        return FAIL, 0, [];
      }
      var n := MaxAttempts(settings.retryCount);
      var attempt := 0;
      while attempt <= settings.retryCount
        invariant 0 <= attempt <= n
        invariant FirstSuccess(rs, 0, n) == FirstSuccess(rs, attempt, n)
        invariant sleeps == Schedule(if attempt <= settings.retryCount || attempt == 0 then attempt else attempt - 1)
        invariant Stats() == old(Stats())
        decreases settings.retryCount - attempt
      {
        if Succeeds(rs[attempt]) {
          eventsSent := eventsSent + 1;
          return OK, attempt + 1, sleeps;
        }
        if attempt < settings.retryCount {
          sleeps := sleeps + [100000 * Pow2(attempt)];
        }
        attempt := attempt + 1;
      }
      eventsFailed := eventsFailed + 1;
      rc, attempts := FAIL, attempt;
    }

    /** stop: clean the handle up; always 0. */
    method Stop() returns (rc: int)
      modifies this`curl
      ensures rc == OK && !curl
    {
      curl := false;
      rc := OK;
    }

    /** health_check: 0 iff a curl handle exists. */
    method HealthCheck() returns (rc: int)
      ensures rc == OK <==> curl
      ensures rc == OK || rc == FAIL
    {
      rc := if curl then OK else FAIL;
    }
  }
}
