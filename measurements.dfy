/** The sensor side shared by app_3.py and app_monitor.py: `get_dht11_data`
    over a DHT11 reading, and `update_measurements`, which stamps each reading
    with the wall-clock time and appends it to `measurements`, a
    `deque(maxlen=100)` that forgets its oldest entry when full. Temperatures
    and humidities are taken as integers; the sensor and the clock are inputs. */
module Measurements {
  import opened Text
  import opened Timestamps

  /** What `Adafruit_DHT.read_retry` returns: `(humidity, temperature)`,
      either of which may be `None` after the retries ran out. */
  datatype SensorRead = SensorRead(humidity: Option<int>, temperature: Option<int>)

  /** `(temperature, humidity)` as the programs use it. */
  datatype Climate = Climate(temperature: int, humidity: int)

  /** `get_dht11_data`: the reading in temperature-first order, or `(0, 0)`
      when either value is missing. */
  function DhtData(r: SensorRead): (c: Climate)
    ensures r.humidity.Some? && r.temperature.Some? ==>
              c.temperature == r.temperature.value && c.humidity == r.humidity.value
    ensures r.humidity.None? || r.temperature.None? ==> c == Climate(0, 0)
  {
    match (r.humidity, r.temperature)
    case (Some(h), Some(t)) => Climate(t, h)
    case _ => Climate(0, 0)
  }

  /** The dictionary appended per poll. */
  datatype Measurement = Measurement(timestamp: string, temperature: int, humidity: int)

  /** One poll: the reading and the `%H:%M:%S` time it was taken at. */
  function Poll(r: SensorRead, now: DateTime): Measurement {
    var c := DhtData(r);
    Measurement(ClockText(now), c.temperature, c.humidity)
  }

  /** The measurements of a run of polls, in order. */
  function Polls(readings: seq<SensorRead>, clock: seq<DateTime>): (r: seq<Measurement>)
    requires |readings| == |clock|
    ensures |r| == |readings|
  {
    if |readings| == 0 then []
    else Polls(readings[..|readings| - 1], clock[..|clock| - 1]) + [Poll(readings[|readings| - 1], clock[|clock| - 1])]
  }

  lemma PollsSnoc(readings: seq<SensorRead>, clock: seq<DateTime>, i: nat)
    requires |readings| == |clock| && i < |readings|
    ensures Polls(readings[..i + 1], clock[..i + 1]) == Polls(readings[..i], clock[..i]) + [Poll(readings[i], clock[i])]
  {
    assert readings[..i + 1][..i] == readings[..i] && clock[..i + 1][..i] == clock[..i];
  }

  /** Poll `i` gives measurement `i`: exactly one entry per poll, in order. */
  lemma {:induction false} PollsAt(readings: seq<SensorRead>, clock: seq<DateTime>, i: nat)
    requires |readings| == |clock| && i < |readings|
    ensures Polls(readings, clock)[i] == Poll(readings[i], clock[i])
  {
    var n := |readings|;
    if i < n - 1 {
      PollsAt(readings[..n - 1], clock[..n - 1], i);
    }
  }

  const MAXLEN: nat := 100

  /** The last `n` elements of `s`, or all of them when there are fewer. */
  function LastN<T>(s: seq<T>, n: nat): (r: seq<T>)
    ensures |r| == if |s| <= n then |s| else n
    ensures r == s[|s| - |r|..]
  {
    if |s| <= n then s else s[|s| - n..]
  }

  /** Keeping the last `n` after each append is keeping the last `n` of all
      that was appended. */
  lemma LastNAppend<T>(s: seq<T>, x: T, n: nat)
    requires n > 0
    ensures LastN(LastN(s, n) + [x], n) == LastN(s + [x], n)
  {
    var t := LastN(s, n);
    if |s| >= n {
      assert (t + [x])[1..] == (s + [x])[|s| + 1 - n..];
    }
  }

  /** The bounded deque never holds more than `MAXLEN` entries; the entries
      are the last `min(k, MAXLEN)` of the `k` appended so far, in order, the
      latest last. */
  lemma LastNBounded<T>(s: seq<T>, n: nat)
    ensures |LastN(s, n)| <= n && |LastN(s, n)| <= |s|
    ensures forall i :: 0 <= i < |LastN(s, n)| ==> LastN(s, n)[i] == s[|s| - |LastN(s, n)| + i]
    ensures |s| > 0 && n > 0 ==> LastN(s, n)[|LastN(s, n)| - 1] == s[|s| - 1]
  {
  }

  /** A failed read still produces a measurement: the sentinel `(0, 0)`. */
  lemma FailedReadRecorded(now: DateTime, t: Option<int>)
    ensures Poll(SensorRead(None, t), now) == Measurement(ClockText(now), 0, 0)
    ensures Poll(SensorRead(t, None), now) == Measurement(ClockText(now), 0, 0)
  {
  }

  /** `measurements`, with the ghost history of all that was appended. */
  class MeasurementLog {
    var entries: seq<Measurement>
    ghost var appended: seq<Measurement>

    ghost predicate Valid()
      reads this
    {
      entries == LastN(appended, MAXLEN)
    }

    constructor ()
      ensures Valid() && entries == [] && appended == []
    {
      entries := [];
      appended := [];
    }

    /** `deque.append`: when full, the oldest entry drops out. */
    method Append(m: Measurement)
      requires Valid()
      modifies this
      ensures Valid()
      ensures appended == old(appended) + [m]
      ensures entries == LastN(old(entries) + [m], MAXLEN)
    {
      if |entries| == MAXLEN {
        entries := entries[1..];
      }
      entries := entries + [m];
      appended := appended + [m];
      LastNAppend(old(appended), m, MAXLEN);
    }
  }

  /** `update_measurements` for as many polls as `readings` has, each stamped
      with the time of `clock` at the same position. */
  method UpdateMeasurements(log: MeasurementLog, readings: seq<SensorRead>, clock: seq<DateTime>)
    requires log.Valid() && |readings| == |clock|
    modifies log
    ensures log.Valid()
    ensures log.appended == old(log.appended) + Polls(readings, clock)
    ensures log.entries == LastN(old(log.appended) + Polls(readings, clock), MAXLEN)
  {
    var i := 0;
    while i < |readings|
      invariant 0 <= i <= |readings|
      invariant log.Valid()
      invariant log.appended == old(log.appended) + Polls(readings[..i], clock[..i])
    {
      var c := DhtData(readings[i]);
      var m := Measurement(ClockText(clock[i]), c.temperature, c.humidity);
      log.Append(m);
      PollsSnoc(readings, clock, i);
      i := i + 1;
    }
    assert readings[..i] == readings && clock[..i] == clock;
  }
}
