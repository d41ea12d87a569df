/** The firmware's notion of time: `millis()` returns an `unsigned long`, a 32-bit
    unsigned counter on the ESP32, and every interval test subtracts two such readings
    in unsigned arithmetic, so elapsed time is taken modulo 2^32. */
module Clock {

  const U32: int := 0x1_0000_0000

  /** One reading of the millisecond clock. */
  type Millis = t: int | 0 <= t < U32

  /** The unsigned 32-bit difference `now - since`: the one value in [0, 2^32) that,
      added to `since`, gives `now` modulo 2^32. */
  function Elapsed(now: Millis, since: Millis): (d: Millis)
    ensures (since + d - now) % U32 == 0
    ensures since <= now ==> d == now - since
    ensures now < since ==> d == U32 - (since - now)
  {
    (now - since) % U32
  }

  /** The guard shared by the button debounce and the reconnect scheduler:
      strictly more than `interval` milliseconds have passed since `since`. */
  predicate Due(now: Millis, since: Millis, interval: nat)
  {
    Elapsed(now, since) > interval
  }

  /** One call of a throttled routine: whether its other conditions hold, and the clock. */
  datatype Tick = Tick(ready: bool, now: Millis)

  /** The clock readings at which a throttled action fires over a sequence of calls,
      starting from the stamp `since`: it fires on a ready call that is due, and the
      firing re-stamps. */
  function Fired(since: Millis, interval: nat, ticks: seq<Tick>): (fired: seq<Millis>)
    ensures |fired| <= |ticks|
    ensures forall t :: t in fired ==> exists k :: 0 <= k < |ticks| && ticks[k].ready && ticks[k].now == t
    decreases |ticks|
  {
    if ticks == [] then []
    else
      var rest := if ticks[0].ready && Due(ticks[0].now, since, interval)
                  then Fired(ticks[0].now, interval, ticks[1..])
                  else Fired(since, interval, ticks[1..]);
      assert forall t :: t in rest ==> exists k :: 0 <= k < |ticks| && ticks[k].ready && ticks[k].now == t by {
        forall t | t in rest
          ensures exists k :: 0 <= k < |ticks| && ticks[k].ready && ticks[k].now == t
        {
          var j :| 0 <= j < |ticks[1..]| && ticks[1..][j].ready && ticks[1..][j].now == t;
          assert ticks[j + 1] == ticks[1..][j];
        }
      }
      if ticks[0].ready && Due(ticks[0].now, since, interval) then [ticks[0].now] + rest else rest
  }

  /** Firings are spaced: the first is more than `interval` after `since`, and each
      later one more than `interval` after the one before it. */
  lemma {:induction false} FiredSpaced(since: Millis, interval: nat, ticks: seq<Tick>)
    ensures var f := Fired(since, interval, ticks);
            (|f| > 0 ==> Due(f[0], since, interval)) &&
            (forall i :: 0 <= i < |f| - 1 ==> Due(f[i + 1], f[i], interval))
    decreases |ticks|
  {
    if ticks != [] {
      var t := ticks[0];
      if t.ready && Due(t.now, since, interval) {
        FiredSpaced(t.now, interval, ticks[1..]);
        var f := Fired(since, interval, ticks);
        var g := Fired(t.now, interval, ticks[1..]);
        assert f == [t.now] + g;
        forall i | 0 <= i < |f| - 1 ensures Due(f[i + 1], f[i], interval) {
          if i > 0 { assert f[i] == g[i - 1] && f[i + 1] == g[i]; }
        }
      } else {
        FiredSpaced(since, interval, ticks[1..]);
      }
    }
  }
}
