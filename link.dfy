/** The non-blocking MQTT manager polled once per loop: it does nothing while WiFi
    is down, services the client while MQTT is connected, and otherwise attempts a
    reconnect at most once per retry interval. The WiFi status, the MQTT status and
    the result of `connect` are inputs; only the timing decision is modelled. */
module Link {
  import opened Clock

  /** Minimum time between two reconnect attempts, in milliseconds. */
  const MQTT_RETRY_INTERVAL: nat := 5000

  /** What one poll did. */
  datatype Action =
    | Offline                      // WiFi down: returned at once
    | Serviced                     // MQTT connected: the client loop was run
    | Waiting                      // disconnected, but the retry interval has not passed
    | Attempted(connected: bool)   // a reconnect was tried, with its result

  datatype Outcome = Outcome(action: Action, lastMqttRetry: Millis)

  /** `manageMQTT`: a reconnect is attempted exactly when WiFi is up, MQTT is down
      and more than 5000 ms (unsigned 32-bit) have passed since the last attempt;
      an attempt stamps `lastMqttRetry` whatever its result, and nothing else does. */
  function Manage(wifiUp: bool, mqttUp: bool, connectOk: bool, now: Millis, lastRetry: Millis): (r: Outcome)
    ensures r.action.Attempted? <==> wifiUp && !mqttUp && Due(now, lastRetry, MQTT_RETRY_INTERVAL)
    ensures r.action.Attempted? ==> r.action.connected == connectOk
    ensures r.lastMqttRetry == if r.action.Attempted? then now else lastRetry
    ensures !wifiUp <==> r.action == Offline
    ensures wifiUp && mqttUp <==> r.action == Serviced
  {
    if !wifiUp then Outcome(Offline, lastRetry)
    else if mqttUp then Outcome(Serviced, lastRetry)
    else if Elapsed(now, lastRetry) > MQTT_RETRY_INTERVAL then Outcome(Attempted(connectOk), now)
    else Outcome(Waiting, lastRetry)
  }

  /** A reconnect is not due at exactly 5000 ms after the last attempt, only after
      5001 ms; in particular none is made in the first 5000 ms after power-up. */
  lemma RetryStrictlyAfterInterval(lastRetry: Millis)
    requires lastRetry < U32 - MQTT_RETRY_INTERVAL - 1
    ensures Manage(true, false, false, lastRetry + MQTT_RETRY_INTERVAL, lastRetry).action == Waiting
    ensures Manage(true, false, false, lastRetry + MQTT_RETRY_INTERVAL + 1, lastRetry).action == Attempted(false)
  {
  }

  /** One call of `manageMQTT` with its inputs. */
  datatype Poll = Poll(wifiUp: bool, mqttUp: bool, connectOk: bool, now: Millis)

  /** The clock readings of the reconnect attempts over a sequence of polls. */
  function Attempts(lastRetry: Millis, polls: seq<Poll>): seq<Millis>
    decreases |polls|
  {
    if polls == [] then []
    else
      var p := polls[0];
      var r := Manage(p.wifiUp, p.mqttUp, p.connectOk, p.now, lastRetry);
      (if r.action.Attempted? then [p.now] else []) + Attempts(r.lastMqttRetry, polls[1..])
  }

  /** The polls seen by the retry throttle: ready when WiFi is up and MQTT down. */
  function Readiness(polls: seq<Poll>): (ticks: seq<Tick>)
    ensures |ticks| == |polls|
    ensures forall i :: 0 <= i < |polls| ==>
              ticks[i] == Tick(polls[i].wifiUp && !polls[i].mqttUp, polls[i].now)
  {
    seq(|polls|, i requires 0 <= i < |polls| => Tick(polls[i].wifiUp && !polls[i].mqttUp, polls[i].now))
  }

  /** Reconnect attempts are exactly the firings of the 5000 ms throttle stamped at
      `lastMqttRetry`, whether each attempt succeeds or not. */
  lemma {:induction false} AttemptsAreThrottled(lastRetry: Millis, polls: seq<Poll>)
    ensures Attempts(lastRetry, polls) == Fired(lastRetry, MQTT_RETRY_INTERVAL, Readiness(polls))
    decreases |polls|
  {
    if polls != [] {
      var p := polls[0];
      var r := Manage(p.wifiUp, p.mqttUp, p.connectOk, p.now, lastRetry);
      AttemptsAreThrottled(r.lastMqttRetry, polls[1..]);
      assert Readiness(polls)[1..] == Readiness(polls[1..]);
    }
  }

  /** Retry law over any sequence of polls: no attempt comes before its time, that
      is, consecutive attempts are more than 5000 ms apart, and every attempt is
      made at a poll where WiFi was up and MQTT down. */
  lemma AttemptsSpaced(lastRetry: Millis, polls: seq<Poll>)
    ensures var a := Attempts(lastRetry, polls);
            (|a| > 0 ==> Elapsed(a[0], lastRetry) > MQTT_RETRY_INTERVAL) &&
            (forall i :: 0 <= i < |a| - 1 ==> Elapsed(a[i + 1], a[i]) > MQTT_RETRY_INTERVAL) &&
            (forall t :: t in a ==> exists k :: 0 <= k < |polls| && polls[k].wifiUp && !polls[k].mqttUp && polls[k].now == t)
  {
    AttemptsAreThrottled(lastRetry, polls);
    FiredSpaced(lastRetry, MQTT_RETRY_INTERVAL, Readiness(polls));
  }
}
