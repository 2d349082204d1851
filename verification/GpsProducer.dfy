/**
 Adaptive GPS sampling (app/lib/features/convoy/data/adaptive_interval.dart, gps_producer.dart). Speeds are
 reals; floating-point rounding of the speed itself is not modelled.
 */
module GpsProducer {
  import opened Wrappers
  import opened Rounding
  import opened Wire

  type SubId = nat

  const SLOW_INTERVAL: Millis := 5000
  const FAST_INTERVAL: Millis := 1000

  /** Interval for a speed in metres per second. */
  function AdaptiveInterval(speedMps: real): Millis {
    var kmh := speedMps * 3.6;
    if kmh <= 5.0 then SLOW_INTERVAL
    else if kmh >= 30.0 then FAST_INTERVAL
    else
      var ratio := (kmh - 5.0) / 25.0;
      var ms := SLOW_INTERVAL + Round(-4000.0 * ratio);
      if FAST_INTERVAL > ms then FAST_INTERVAL else ms
  }

  lemma IntervalInRange(v: real)
    ensures FAST_INTERVAL <= AdaptiveInterval(v) <= SLOW_INTERVAL
  {
    var kmh := v * 3.6;
    if 5.0 < kmh < 30.0 {
      RoundMonotone(-4000.0 * ((kmh - 5.0) / 25.0), 0.0);
      RoundWhole(0);
    }
  }

  /** Five seconds up to 5 km/h, one second from 30 km/h on, and the straight line in between, rounded. */
  lemma IntervalIsTheRamp(kmh: real)
    ensures kmh <= 5.0 ==> AdaptiveInterval(kmh / 3.6) == 5000
    ensures kmh >= 30.0 ==> AdaptiveInterval(kmh / 3.6) == 1000
    ensures 5.0 < kmh < 30.0 ==>
              -0.5 <= AdaptiveInterval(kmh / 3.6) as real - (5000.0 - 160.0 * (kmh - 5.0)) <= 0.5
  {
    assert kmh / 3.6 * 3.6 == kmh;
    if 5.0 < kmh < 30.0 {
      RoundNearest(-4000.0 * ((kmh - 5.0) / 25.0));
    }
  }

  /** Faster never means longer. */
  lemma IntervalNeverGrowsWithSpeed(v: real, w: real)
    requires v <= w
    ensures AdaptiveInterval(w) <= AdaptiveInterval(v)
  {
    IntervalInRange(v);
    IntervalInRange(w);
    var k, l := v * 3.6, w * 3.6;
    if 5.0 < k && l < 30.0 {
      RoundMonotone(-4000.0 * ((l - 5.0) / 25.0), -4000.0 * ((k - 5.0) / 25.0));
    }
  }

  datatype Bucket = Fast | Medium | Slow

  function IntervalOf(bucket: Bucket): Millis {
    match bucket
    case Fast => 1000
    case Medium => 2000
    case Slow => 5000
  }

  function FromInterval(d: Millis): Bucket {
    if d <= 1200 then Fast else if d <= 3500 then Medium else Slow
  }

  lemma BucketNeverSlowerWithSpeed(v: real, w: real)
    requires v <= w
    ensures IntervalOf(FromInterval(AdaptiveInterval(w))) <= IntervalOf(FromInterval(AdaptiveInterval(v)))
  {
    IntervalNeverGrowsWithSpeed(v, w);
  }

  /** In speeds: one second from about 28.7 km/h on, two seconds from about 14.4 km/h on, five below. */
  lemma BucketBySpeed(kmh: real)
    ensures IntervalOf(FromInterval(AdaptiveInterval(kmh / 3.6)))
            == if kmh >= 28.746875 then 1000 else if kmh >= 14.371875 then 2000 else 5000
  {
    assert kmh / 3.6 * 3.6 == kmh;
    if 5.0 < kmh < 30.0 {
      var x := -4000.0 * ((kmh - 5.0) / 25.0);
      assert x == -160.0 * (kmh - 5.0);
      RoundSteps(x, 3799);
      RoundSteps(x, 1499);
    }
  }

  /** Where rounding a negative number passes from one whole number to the next. */
  lemma RoundSteps(x: real, n: nat)
    requires x <= 0.0
    ensures Round(x) <= -(n + 1) <==> x <= -(n as real) - 0.5
  {
    if x < 0.0 {
      var up := 0.5 - x;
      assert up.Floor as real <= up < up.Floor as real + 1.0;
    }
  }

  // ---------------------------------------------------------------- the bucket machine

  /** An operating-system position stream: opened with an interval, later perhaps cancelled. */
  datatype Stream = Stream(interval: Millis, cancelled: bool)

  datatype Sampler = Sampler(
    started: bool, disposed: bool, background: bool, lowBattery: bool,
    bucket: Bucket, streams: seq<Stream>, sub: Option<SubId>)
  {
    predicate ForceSlow() { background || lowBattery }
  }

  datatype Event = Start | Background(on: bool) | LowBattery(on: bool) | Position(speedMps: real) | Dispose

  const IDLE_SAMPLER := Sampler(false, false, false, false, Slow, [], None)

  /** The subscription is cancelled before the next stream is opened. */
  function Cancelled(p: Sampler): seq<Stream> {
    if p.sub.Some? && p.sub.value < |p.streams|
    then p.streams[p.sub.value := p.streams[p.sub.value].(cancelled := true)] else p.streams
  }

  function Open(p: Sampler, bucket: Bucket): Sampler {
    p.(bucket := bucket, streams := Cancelled(p) + [Stream(IntervalOf(bucket), false)], sub := Some(|p.streams|))
  }

  function Throttled(p: Sampler): Sampler {
    if !p.started || p.disposed then p
    else if p.ForceSlow() then if p.bucket != Slow then Open(p, Slow) else p
    else Open(p, p.bucket)
  }

  function Next(p: Sampler, e: Event, strategy: real -> Millis): Sampler {
    match e
    case Start => if p.disposed || p.started then p else Open(p.(started := true), Slow)
    case Background(on) => if p.background == on then p else Throttled(p.(background := on))
    case LowBattery(on) => if p.lowBattery == on then p else Throttled(p.(lowBattery := on))
    case Position(v) =>
      if p.disposed || p.ForceSlow() || FromInterval(strategy(v)) == p.bucket then p
      else Open(p, FromInterval(strategy(v)))
    case Dispose => if p.disposed then p else p.(disposed := true, streams := Cancelled(p), sub := None)
  }

  /** Positions come from the open stream only. */
  predicate Possible(p: Sampler, e: Event) {
    e.Position? ==> p.sub.Some?
  }

  /**
   Between start and dispose exactly one stream is open, the subscribed one, and it samples at the current
   bucket's interval; before and after there is none. An active override means the slow bucket.
   */
  ghost predicate OneStream(p: Sampler) {
    && (p.sub.Some? <==> p.started && !p.disposed)
    && (p.sub.Some? ==> (p.sub.value < |p.streams| && p.streams[p.sub.value].interval == IntervalOf(p.bucket)))
    && (forall i | 0 <= i < |p.streams| :: !p.streams[i].cancelled <==> p.sub == Some(i))
    && (!p.disposed && p.ForceSlow() ==> p.bucket == Slow)
  }

  lemma StepKeepsOneStream(p: Sampler, e: Event, strategy: real -> Millis)
    requires OneStream(p) && Possible(p, e) && (!p.started ==> p.bucket == Slow)
    ensures OneStream(Next(p, e, strategy))
    ensures !Next(p, e, strategy).started ==> Next(p, e, strategy).bucket == Slow
  {
  }

  function After(events: seq<Event>, strategy: real -> Millis): Sampler {
    if events == [] then IDLE_SAMPLER
    else Next(After(events[..|events| - 1], strategy), events[|events| - 1], strategy)
  }

  ghost predicate IsRun(events: seq<Event>, strategy: real -> Millis) {
    forall i | 0 <= i < |events| :: Possible(After(events[..i], strategy), events[i])
  }

  /** In every run, whatever the order of events. */
  lemma {:induction false} RunKeepsOneStream(events: seq<Event>, strategy: real -> Millis)
    requires IsRun(events, strategy)
    ensures OneStream(After(events, strategy))
    ensures !After(events, strategy).started ==> After(events, strategy).bucket == Slow
  {
    if events != [] {
      var init := events[..|events| - 1];
      assert forall i | 0 <= i < |init| :: init[..i] == events[..i];
      RunKeepsOneStream(init, strategy);
      StepKeepsOneStream(After(init, strategy), events[|events| - 1], strategy);
    }
  }

  /** The override flags as the last setters left them. */
  function Forced(events: seq<Event>): (bool, bool) {
    if events == [] then (false, false)
    else
      var before := Forced(events[..|events| - 1]);
      match events[|events| - 1]
      case Background(on) => (on, before.1)
      case LowBattery(on) => (before.0, on)
      case _ => before
  }

  /** The speed of the last position since the overrides were last all off; None if there was none. */
  function LastFreeSpeed(events: seq<Event>): Option<real> {
    if events == [] then None
    else
      var forced := Forced(events);
      match events[|events| - 1]
      case Position(v) => if forced.0 || forced.1 then None else Some(v)
      case _ => if forced.0 || forced.1 then None else LastFreeSpeed(events[..|events| - 1])
  }

  lemma {:induction false} FlagsFollow(events: seq<Event>, strategy: real -> Millis)
    ensures (After(events, strategy).background, After(events, strategy).lowBattery) == Forced(events)
  {
    if events != [] {
      var init, last := events[..|events| - 1], events[|events| - 1];
      FlagsFollow(init, strategy);
      FlagStep(After(init, strategy), last, strategy);
    }
  }

  lemma FlagStep(p: Sampler, e: Event, strategy: real -> Millis)
    ensures var p' := Next(p, e, strategy);
            && p'.background == (if e.Background? then e.on else p.background)
            && p'.lowBattery == (if e.LowBattery? then e.on else p.lowBattery)
  {
  }

  lemma NextBucket(p: Sampler, e: Event, strategy: real -> Millis)
    requires OneStream(p) && Possible(p, e) && (!p.started ==> p.bucket == Slow)
    ensures var p' := Next(p, e, strategy);
            && p'.background == (if e.Background? then e.on else p.background)
            && p'.lowBattery == (if e.LowBattery? then e.on else p.lowBattery)
            && (!p'.disposed ==>
                  !p.disposed
                  && p'.bucket == if p'.ForceSlow() then Slow
                                  else if e.Position? then FromInterval(strategy(e.speedMps)) else p.bucket)
  {
  }

  /** While not disposed, the bucket is the one for the last unthrottled speed, and slow if there is none. */
  lemma {:induction false} BucketIsForLastFreeSpeed(events: seq<Event>, strategy: real -> Millis)
    requires IsRun(events, strategy) && !After(events, strategy).disposed
    ensures var p := After(events, strategy);
            && (p.background, p.lowBattery) == Forced(events)
            && p.bucket == match LastFreeSpeed(events)
                           case Some(v) => FromInterval(strategy(v))
                           case None => Slow
  {
    if events != [] {
      var init := events[..|events| - 1];
      assert forall i | 0 <= i < |init| :: init[..i] == events[..i];
      RunKeepsOneStream(init, strategy);
      NextBucket(After(init, strategy), events[|events| - 1], strategy);
      FlagsFollow(init, strategy);
      BucketIsForLastFreeSpeed(init, strategy);
    }
  }

  // ---------------------------------------------------------------- the producer object

  class GpsProducer {
    const strategy: real -> Millis
    var streams: seq<Stream>
    var positionSub: Option<SubId>
    var currentBucket: Bucket
    var started: bool
    var disposed: bool
    var isBackground: bool
    var isLowBattery: bool
    var emitted: seq<real>

    ghost function Abs(): Sampler reads this {
      Sampler(started, disposed, isBackground, isLowBattery, currentBucket, streams, positionSub)
    }

    ghost predicate Valid() reads this { OneStream(Abs()) && (!started ==> currentBucket == Slow) }

    constructor (strategy: real -> Millis)
      ensures Valid() && Abs() == IDLE_SAMPLER && emitted == [] && this.strategy == strategy
    {
      this.strategy := strategy;
      streams, positionSub, currentBucket := [], None, Slow;
      started, disposed, isBackground, isLowBattery, emitted := false, false, false, false, [];
    }

    method CancelSub()
      requires positionSub.Some? ==> positionSub.value < |streams|
      modifies this`streams
      ensures streams == Cancelled(old(Abs()))
    {
      if positionSub.Some? {
        var i := positionSub.value;
        streams := streams[i := streams[i].(cancelled := true)];
      }
    }

    method OpenStream(bucket: Bucket)
      requires positionSub.Some? ==> positionSub.value < |streams|
      modifies this`streams, this`positionSub, this`currentBucket
      ensures Abs() == Open(old(Abs()), bucket)
    {
      CancelSub();
      currentBucket := bucket;
      streams := streams + [Stream(IntervalOf(bucket), false)];
      positionSub := Some(|streams| - 1);
    }

    method ApplyThrottleMode()
      requires positionSub.Some? ==> positionSub.value < |streams|
      modifies this`streams, this`positionSub, this`currentBucket
      ensures Abs() == Throttled(old(Abs()))
    {
      if !started || disposed {
        return;
      }
      if isBackground || isLowBattery {
        if currentBucket != Slow {
          OpenStream(Slow);
        }
      } else {
        OpenStream(currentBucket);
      }
    }

    method SetBackground(on: bool)
      requires Valid()
      modifies this
      ensures Valid() && Abs() == Next(old(Abs()), Background(on), strategy) && emitted == old(emitted)
    {
      StepKeepsOneStream(Abs(), Background(on), strategy);
      if isBackground == on {
        return;
      }
      isBackground := on;
      ApplyThrottleMode();
    }

    method SetLowBattery(on: bool)
      requires Valid()
      modifies this
      ensures Valid() && Abs() == Next(old(Abs()), LowBattery(on), strategy) && emitted == old(emitted)
    {
      StepKeepsOneStream(Abs(), LowBattery(on), strategy);
      if isLowBattery == on {
        return;
      }
      isLowBattery := on;
      ApplyThrottleMode();
    }

    /** Not ok after dispose, where the source throws. */
    method Begin() returns (ok: bool)
      requires Valid()
      modifies this
      ensures Valid() && ok == !old(disposed) && emitted == old(emitted)
      ensures Abs() == Next(old(Abs()), Start, strategy)
    {
      StepKeepsOneStream(Abs(), Start, strategy);
      ok := !disposed;
      if disposed || started {
        return;
      }
      started := true;
      OpenStream(Slow);
    }

    method Dispose()
      requires Valid()
      modifies this
      ensures Valid() && Abs() == Next(old(Abs()), Event.Dispose, strategy) && emitted == old(emitted)
    {
      StepKeepsOneStream(Abs(), Event.Dispose, strategy);
      if disposed {
        return;
      }
      disposed := true;
      CancelSub();
      positionSub := None;
    }

    method OnPosition(speedMps: real)
      requires Valid() && positionSub.Some?
      modifies this
      ensures Valid() && Abs() == Next(old(Abs()), Position(speedMps), strategy)
      ensures emitted == old(emitted) + [speedMps]
    {
      StepKeepsOneStream(Abs(), Position(speedMps), strategy);
      if disposed {
        return;
      }
      emitted := emitted + [speedMps];
      if !(isBackground || isLowBattery) {
        var newBucket := FromInterval(strategy(speedMps));
        if newBucket != currentBucket {
          OpenStream(newBucket);
        }
      }
    }
  }
}
