/**
 * The alert store of src/python/api.py: the module-level `ALERT_BUFFER`
 * deque of capacity 1000, the `alerts_buffer_size` gauge, and the three
 * operations on them (`push_alert`, `get_alerts`, `metrics`).
 */
module Api {
  import Deque

  /** The `Alert` response schema: timestamp in nanoseconds, score and token count. */
  datatype Alert = Alert(tsNs: int, score: real, tokenCount: nat)

  /** `deque(maxlen=1000)`. */
  const Capacity: nat := 1000

  /** The default of `get_alerts`'s `limit` query parameter. */
  const DefaultLimit: int := 100

  /** Python's `s[start:]` for an integer start: a negative start counts from the end, and both ends are clamped. */
  function SliceFrom<T>(s: seq<T>, start: int): (r: seq<T>)
    ensures |r| <= |s|
    ensures r == s[|s| - |r|..]
  {
    var i := if start < 0 then (if start + |s| < 0 then 0 else start + |s|)
             else (if start > |s| then |s| else start);
    s[i..]
  }

  /** `s[-limit:]` for the three signs of `limit`, including `-0 == 0`. */
  lemma SliceFromNegated<T>(s: seq<T>, limit: int)
    ensures limit > 0 ==> SliceFrom(s, -limit) == Deque.LastN(s, limit)
    ensures limit == 0 ==> SliceFrom(s, -limit) == s
    ensures limit < 0 ==> SliceFrom(s, -limit) == s[if -limit < |s| then -limit else |s|..]
  {
  }

  /** The module-level state of api.py. */
  class AlertStore {
    /** `ALERT_BUFFER`. */
    var buffer: seq<Alert>
    /** The last value set on `ALERT_GAUGE`. */
    var gauge: int
    /** Every alert ever pushed, oldest first. */
    ghost var pushed: seq<Alert>

    /** The buffer holds the last 1000 alerts pushed, in order. */
    ghost predicate Valid()
      reads this
    {
      buffer == Deque.LastN(pushed, Capacity)
    }

    /** Module import: an empty deque and a gauge at 0. */
    constructor()
      ensures Valid() && pushed == [] && buffer == [] && gauge == 0
    {
      buffer := [];
      gauge := 0;
      pushed := [];
    }

    /** `push_alert(row)`: append at the back; when full the oldest alert is dropped. */
    method PushAlert(row: Alert)
      requires Valid()
      modifies this
      ensures Valid()
      ensures pushed == old(pushed) + [row]
      ensures buffer == Deque.Append(old(buffer), row, Capacity)
      ensures gauge == old(gauge)
    {
      Deque.AppendKeepsLastN(pushed, row, Capacity);
      buffer := Deque.Append(buffer, row, Capacity);
      pushed := pushed + [row];
    }

    /**
     * `get_alerts(limit)`: `list(ALERT_BUFFER)[-limit:]`. A positive limit
     * gives the last min(limit, len) alerts, 0 gives all of them, and -k
     * gives all but the first k.
     */
    function GetAlerts(limit: int): (r: seq<Alert>)
      reads this
      ensures limit > 0 ==> r == Deque.LastN(buffer, limit)
      ensures limit == 0 ==> r == buffer
      ensures limit < 0 ==> r == buffer[if -limit < |buffer| then -limit else |buffer|..]
    {
      SliceFromNegated(buffer, limit);
      SliceFrom(buffer, -limit)
    }

    /** `metrics()`: the gauge is set to the buffer length; the buffer is unchanged. */
    method Metrics()
      modifies this
      ensures gauge == |buffer|
      ensures buffer == old(buffer) && pushed == old(pushed)
    {
      gauge := |buffer|;
    }
  }

  /** The buffer never holds more than 1000 alerts. */
  lemma BufferBounded(store: AlertStore)
    requires store.Valid()
    ensures |store.buffer| <= Capacity
  {
  }

  /**
   * `GET /alerts` without a limit: the last min(len, 100) alerts of the
   * buffer, which are also the last 100 ever pushed.
   */
  lemma GetAlertsDefault(store: AlertStore)
    requires store.Valid()
    ensures store.GetAlerts(DefaultLimit) == Deque.LastN(store.buffer, 100)
    ensures store.GetAlerts(DefaultLimit) == Deque.LastN(store.pushed, 100)
  {
    var h := store.pushed;
    if |h| > Capacity {
      assert store.buffer == h[|h| - Capacity..];
      assert Deque.LastN(store.buffer, 100) == h[|h| - 100..];
    }
  }

  /** The newest alert pushed is the last one `get_alerts` returns for any positive limit. */
  lemma NewestLast(store: AlertStore, limit: int)
    requires store.Valid() && store.pushed != [] && limit > 0
    ensures store.GetAlerts(limit) != []
    ensures store.GetAlerts(limit)[|store.GetAlerts(limit)| - 1] == store.pushed[|store.pushed| - 1]
  {
  }
}
