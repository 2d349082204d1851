/** The throttle in front of the socket (app/lib/features/convoy/data/location_publisher.dart). */
module LocationPublisher {
  import opened Wrappers
  import opened Wire
  import GpsProducer

  /** A GPS fix; `number` is its place in the order of arrival. */
  datatype Fix = Fix(number: nat, speedMps: real)

  /** An offer to the sink; not accepted means the sink threw. */
  datatype Offer = Offer(fix: Fix, at: Millis, accepted: bool)

  datatype Phase = Idle | Running | Stopping

  /** `received` and `offered` are the history of the current session. */
  datatype Publisher = Publisher(
    phase: Phase, disposed: bool, lastEmitAt: Option<Millis>, pendingFlush: Option<Fix>,
    flushTimer: Option<Millis>, received: seq<Fix>, offered: seq<Offer>)
  const STOPPED := Publisher(Idle, false, None, None, None, [], [])

  datatype Event =
    | Start
    | Update(fix: Fix, now: Millis, accepted: bool)
    | TimerFired(now: Millis, accepted: bool)
    | BeginStop(dispose: bool)
    | EndStop

  type Strategy = Fix -> Millis

  /** Updates come while subscribed; the timer fires at its deadline or later. */
  predicate Enabled(p: Publisher, e: Event) {
    match e
    case Start => p.phase.Idle? && !p.disposed
    case Update(fix, _, _) => p.phase.Running? && fix.number == |p.received|
    case TimerFired(now, _) => p.flushTimer.Some? && p.flushTimer.value <= now
    case BeginStop(_) => p.phase.Running?
    case EndStop => p.phase.Stopping?
  }

  /** The throttle window is spent only on a successful send. */
  function Emit(p: Publisher, fix: Fix, at: Millis, accepted: bool): Publisher {
    p.(offered := p.offered + [Offer(fix, at, accepted)], lastEmitAt := if accepted then Some(at) else p.lastEmitAt)
  }

  /** The guard of the branch that emits at once. */
  predicate WindowOpen(p: Publisher, fix: Fix, now: Millis, strategy: Strategy) {
    p.lastEmitAt.None? || now - p.lastEmitAt.value >= strategy(fix)
  }

  function Next(p: Publisher, e: Event, strategy: Strategy): Publisher
    requires Enabled(p, e)
  {
    match e
    case Start => STOPPED.(phase := Running)
    case Update(fix, now, accepted) =>
      var p := p.(received := p.received + [fix]);
      if WindowOpen(p, fix, now, strategy) then Emit(p, fix, now, accepted)
      else p.(pendingFlush := Some(fix),
              flushTimer := if p.flushTimer.Some? then p.flushTimer
                            else Some(now + (strategy(fix) - (now - p.lastEmitAt.value))))
    case TimerFired(now, accepted) =>
      var idle := p.(flushTimer := None, pendingFlush := None);
      if p.pendingFlush.None? || p.disposed || p.phase.Idle? then idle
      else Emit(idle, p.pendingFlush.value, now, accepted)
    case BeginStop(dispose) => p.(phase := Stopping, disposed := p.disposed || dispose)
    case EndStop => STOPPED.(disposed := p.disposed)
  }

  // ---------------------------------------------------------------- order

  /** What is offered, in its order of arrival and nothing twice; the pending fix is newer than all of it. */
  ghost predicate InOrder(p: Publisher) {
    && (forall i | 0 <= i < |p.received| :: p.received[i].number == i)
    && (forall i | 0 <= i < |p.offered| :: p.offered[i].fix in p.received)
    && (forall i, j | 0 <= i < j < |p.offered| :: p.offered[i].fix.number < p.offered[j].fix.number)
    && (p.pendingFlush.Some? ==> p.pendingFlush.value in p.received)
    && (p.pendingFlush.Some? ==> forall i | 0 <= i < |p.offered| :: p.offered[i].fix.number < p.pendingFlush.value.number)
    && (p.phase.Idle? ==> p.received == [] && p.offered == [] && p.pendingFlush.None? && p.flushTimer.None?)
    && (p.pendingFlush.Some? <==> p.flushTimer.Some?)
  }

  /** Nothing received is left behind: the newest fix is pending, or was the last one offered. */
  ghost predicate NothingStale(p: Publisher) {
    p.received != [] ==>
      var newest := p.received[|p.received| - 1];
      if p.pendingFlush.Some? then p.pendingFlush.value == newest
      else p.offered != [] && p.offered[|p.offered| - 1].fix == newest
  }

  /** The guard of the branch at fault: a fix is emitted at once while an older one is still armed. */
  predicate Overtakes(p: Publisher, e: Event, strategy: Strategy) {
    e.Update? && p.pendingFlush.Some? && WindowOpen(p, e.fix, e.now, strategy)
  }

  ghost predicate Tidy(p: Publisher) {
    InOrder(p) && (!p.disposed ==> NothingStale(p))
  }

  /** For any strategy, a step that overtakes nothing keeps the order and leaves nothing stale. */
  lemma StepKeepsTidy(p: Publisher, e: Event, strategy: Strategy)
    requires Enabled(p, e) && Tidy(p) && !Overtakes(p, e, strategy)
    ensures Tidy(Next(p, e, strategy))
  {
    if e.Update? {
      UpdateKeepsTidy(p, e, strategy);
    }
  }

  lemma UpdateKeepsTidy(p: Publisher, e: Event, strategy: Strategy)
    requires Enabled(p, e) && Tidy(p) && !Overtakes(p, e, strategy) && e.Update?
    ensures Tidy(Next(p, e, strategy))
  {
    if WindowOpen(p, e.fix, e.now, strategy) {
      SendKeepsTidy(p, e, strategy);
    } else {
      var p' := Next(p, e, strategy);
      assert forall f | f in p.received :: f in p'.received && f.number < |p.received|;
      assert p'.received[|p.received|] == e.fix;
    }
  }

  lemma SendKeepsTidy(p: Publisher, e: Event, strategy: Strategy)
    requires Enabled(p, e) && Tidy(p) && e.Update? && p.pendingFlush.None? && WindowOpen(p, e.fix, e.now, strategy)
    ensures Tidy(Next(p, e, strategy))
  {
    var p' := Next(p, e, strategy);
    assert forall f | f in p.received :: f in p'.received && f.number < |p.received|;
    assert p'.received[|p.received|] == e.fix;
    assert p'.offered == p.offered + [Offer(e.fix, e.now, e.accepted)];
    assert forall i | 0 <= i < |p.offered| :: p'.offered[i].fix.number < |p.received|;
  }

  /** Exactly the overtaking steps spoil the order. */
  lemma StepTidyExactlyWhen(p: Publisher, e: Event, strategy: Strategy)
    requires Enabled(p, e) && Tidy(p)
    ensures Tidy(Next(p, e, strategy)) <==> !Overtakes(p, e, strategy)
  {
    if Overtakes(p, e, strategy) {
      var q := Next(p, e, strategy);
      assert q.offered[|p.offered|].fix == e.fix && p.pendingFlush.value in p.received;
    } else {
      StepKeepsTidy(p, e, strategy);
    }
  }

  /** And a step that overtakes always leaves an older fix armed, which is then flushed after the newer one. */
  lemma OvertakingGoesBackwards(p: Publisher, e: Event, later: Millis, accepted: bool, strategy: Strategy)
    requires Enabled(p, e) && Tidy(p) && !p.disposed && Overtakes(p, e, strategy)
    requires p.flushTimer.value <= later
    ensures !Tidy(Next(p, e, strategy))
    ensures var q := Next(p, e, strategy);
            Enabled(q, TimerFired(later, accepted)) && !InOrder(Next(q, TimerFired(later, accepted), strategy))
  {
    var q := Next(p, e, strategy);
    var r := Next(q, TimerFired(later, accepted), strategy);
    var n := |r.offered|;
    assert r.offered[n - 2].fix == e.fix;
    assert r.offered[n - 1].fix == p.pendingFlush.value;
  }

  // ---------------------------------------------------------------- what is sent when

  /**
   An update is offered at once when nothing has been sent yet or its own interval has passed since the last
   send; otherwise it replaces the pending one, and a timer is armed for the rest of the interval unless one
   is running.
   */
  lemma UpdatesAreOfferedOrPending(p: Publisher, fix: Fix, now: Millis, accepted: bool, strategy: Strategy)
    requires Enabled(p, Update(fix, now, accepted))
    ensures var p' := Next(p, Update(fix, now, accepted), strategy);
            var due := p.lastEmitAt.None? || p.lastEmitAt.value + strategy(fix) <= now;
            && (due ==> p'.offered == p.offered + [Offer(fix, now, accepted)]
                        && p'.pendingFlush == p.pendingFlush && p'.flushTimer == p.flushTimer
                        && p'.lastEmitAt == if accepted then Some(now) else p.lastEmitAt)
            && (!due ==> p'.offered == p.offered && p'.lastEmitAt == p.lastEmitAt && p'.pendingFlush == Some(fix)
                         && p'.flushTimer == if p.flushTimer.Some? then p.flushTimer
                                             else Some(p.lastEmitAt.value + strategy(fix)))
  {
  }

  /** The timer offers what is pending, once, unless the publisher has been disposed. */
  lemma TimerOffersPending(p: Publisher, now: Millis, accepted: bool, strategy: Strategy)
    requires Enabled(p, TimerFired(now, accepted)) && Tidy(p)
    ensures var p' := Next(p, TimerFired(now, accepted), strategy);
            && p'.pendingFlush.None? && p'.flushTimer.None? && p.pendingFlush.Some?
            && p'.offered == p.offered + if p.disposed then [] else [Offer(p.pendingFlush.value, now, accepted)]
  {
  }

  /** Starting begins an empty session; stopping ends it, and disposing lasts. */
  lemma SessionsStartAndEnd(p: Publisher, e: Event, strategy: Strategy)
    requires Enabled(p, e)
    ensures var p' := Next(p, e, strategy);
            match e
            case Start => p'.phase.Running? && !p'.disposed && p'.received == [] && p'.offered == [] && p'.lastEmitAt.None?
            case BeginStop(dispose) => p'.phase.Stopping? && p'.offered == p.offered
                                       && (p'.disposed <==> p.disposed || dispose)
            case EndStop => p'.phase.Idle? && p'.disposed == p.disposed && p'.lastEmitAt.None? && p'.pendingFlush.None?
            case _ => p'.phase == p.phase && p'.disposed == p.disposed
  {
  }

  /** Once disposed, or stopped, nothing is offered any more, in any run and with any strategy. */
  lemma {:induction false} DisposedIsSilent(states: seq<Publisher>, events: seq<Event>, strategy: Strategy, n: nat)
    requires IsRun(states, events, strategy) && n < |states|
    ensures states[n].disposed ==> !states[n].phase.Running?
    ensures states[n].phase.Idle? ==> states[n].offered == [] && states[n].flushTimer.None? && states[n].pendingFlush.None?
    ensures n > 0 && states[n - 1].disposed ==>
              (states[n].disposed && (states[n].offered == states[n - 1].offered || states[n].offered == []))
  {
    if n > 0 {
      DisposedIsSilent(states, events, strategy, n - 1);
    }
  }

  // ---------------------------------------------------------------- spacing, for a constant interval

  /** Successful sends are at least `interval` apart, and an armed timer is due at last send + interval. */
  ghost predicate Spaced(p: Publisher, interval: nat) {
    && (forall i, j | 0 <= i < j < |p.offered| && p.offered[i].accepted && p.offered[j].accepted ::
          p.offered[j].at - p.offered[i].at >= interval)
    && (forall i | 0 <= i < |p.offered| && p.offered[i].accepted ::
          p.lastEmitAt.Some? && p.offered[i].at <= p.lastEmitAt.value)
    && (p.flushTimer.Some? ==> p.lastEmitAt.Some? && p.flushTimer.value == p.lastEmitAt.value + interval)
  }

  ghost predicate Constant(strategy: Strategy, interval: nat) {
    forall fix :: strategy(fix) == interval
  }

  /** A due timer fires before the next update is processed. */
  predicate Prompt(p: Publisher, e: Event) {
    e.Update? && p.flushTimer.Some? ==> e.now < p.flushTimer.value
  }

  lemma PromptNeverOvertakes(p: Publisher, e: Event, strategy: Strategy, interval: nat)
    requires Enabled(p, e) && Tidy(p) && Spaced(p, interval) && Constant(strategy, interval) && Prompt(p, e)
    ensures !Overtakes(p, e, strategy)
  {
  }

  lemma StepKeepsSpaced(p: Publisher, e: Event, strategy: Strategy, interval: nat)
    requires Enabled(p, e) && Tidy(p) && Spaced(p, interval) && Constant(strategy, interval) && Prompt(p, e)
    ensures Spaced(Next(p, e, strategy), interval)
  {
  }

  ghost predicate IsRun(states: seq<Publisher>, events: seq<Event>, strategy: Strategy) {
    && |states| == |events| + 1 && states[0] == STOPPED
    && forall i | 0 <= i < |events| :: Enabled(states[i], events[i]) && states[i + 1] == Next(states[i], events[i], strategy)
  }

  /**
   The throttle's guarantee for a constant interval and prompt timers, in every run and also when the sink
   throws: offers in order of arrival, successful ones at least an interval apart, a fix pending exactly
   while the timer is armed, due one interval after the last send, and otherwise nothing left behind.
   */
  lemma {:induction false} ConstantIntervalThrottles(
      states: seq<Publisher>, events: seq<Event>, strategy: Strategy, interval: nat, n: nat)
    requires IsRun(states, events, strategy) && n < |states|
    requires Constant(strategy, interval)
    requires forall i | 0 <= i < n :: Prompt(states[i], events[i])
    ensures Tidy(states[n]) && Spaced(states[n], interval)
  {
    if n > 0 {
      ConstantIntervalThrottles(states, events, strategy, interval, n - 1);
      PromptNeverOvertakes(states[n - 1], events[n - 1], strategy, interval);
      StepKeepsTidy(states[n - 1], events[n - 1], strategy);
      StepKeepsSpaced(states[n - 1], events[n - 1], strategy, interval);
    }
  }

  /** With any strategy the order is kept in every run without an overtaking update. */
  lemma {:induction false} OrderWithoutOvertaking(states: seq<Publisher>, events: seq<Event>, strategy: Strategy, n: nat)
    requires IsRun(states, events, strategy) && n < |states|
    requires forall i | 0 <= i < n :: !Overtakes(states[i], events[i], strategy)
    ensures Tidy(states[n])
  {
    if n > 0 {
      OrderWithoutOvertaking(states, events, strategy, n - 1);
      StepKeepsTidy(states[n - 1], events[n - 1], strategy);
    }
  }

  // ---------------------------------------------------------------- the adaptive strategy overtakes

  function Adaptive(fix: Fix): Millis { GpsProducer.AdaptiveInterval(fix.speedMps) }

  /** A driver stops for a moment and drives on: the fix taken at the stop is sent after a newer one. */
  function StopAndGo(): seq<Event> {
    [ Start, Update(Fix(0, 10.0), 0, true), Update(Fix(1, 0.0), 500, true),
      Update(Fix(2, 10.0), 1500, true), TimerFired(5000, true) ]
  }

  function StopAndGoStates(): seq<Publisher> {
    var fast, stop, again := Fix(0, 10.0), Fix(1, 0.0), Fix(2, 10.0);
    [ STOPPED,
      Publisher(Running, false, None, None, None, [], []),
      Publisher(Running, false, Some(0), None, None, [fast], [Offer(fast, 0, true)]),
      Publisher(Running, false, Some(0), Some(stop), Some(5000), [fast, stop], [Offer(fast, 0, true)]),
      Publisher(Running, false, Some(1500), Some(stop), Some(5000), [fast, stop, again],
                [Offer(fast, 0, true), Offer(again, 1500, true)]),
      Publisher(Running, false, Some(5000), None, None, [fast, stop, again],
                [Offer(fast, 0, true), Offer(again, 1500, true), Offer(stop, 5000, true)]) ]
  }

  lemma AdaptiveIntervals()
    ensures Adaptive(Fix(0, 10.0)) == 1000 && Adaptive(Fix(1, 0.0)) == 5000 && Adaptive(Fix(2, 10.0)) == 1000
  {
    assert 10.0 * 3.6 == 36.0 && 0.0 * 3.6 == 0.0;
  }

  lemma AdaptiveIntervalOvertakes()
    ensures exists states, events ::
              && IsRun(states, events, Adaptive) && |states| == |events| + 1
              && (forall i | 0 <= i < |events| :: Prompt(states[i], events[i]))
              && !InOrder(states[|events|])
  {
    AdaptiveIntervals();
    var states, events := StopAndGoStates(), StopAndGo();
    assert Next(states[1], events[1], Adaptive) == states[2];
    assert Next(states[2], events[2], Adaptive) == states[3];
    assert Next(states[3], events[3], Adaptive) == states[4];
    assert Next(states[4], events[4], Adaptive) == states[5];
    assert IsRun(states, events, Adaptive);
    assert states[5].offered[1].fix.number == 2 && states[5].offered[2].fix.number == 1;
  }

  // ---------------------------------------------------------------- exactly the constant intervals

  function BySpeed(interval: real -> nat): Strategy {
    (fix: Fix) => interval(fix.speedMps)
  }

  /** The clock reading of an event that takes one. */
  function ReadingOf(e: Event): Option<Millis> {
    match e
    case Update(_, now, _) => Some(now)
    case TimerFired(now, _) => Some(now)
    case _ => None
  }

  ghost predicate ClockRunsForward(events: seq<Event>) {
    forall i, j | 0 <= i < j < |events| && ReadingOf(events[i]).Some? && ReadingOf(events[j]).Some? ::
      ReadingOf(events[i]).value <= ReadingOf(events[j]).value
  }

  ghost predicate IsPromptRun(states: seq<Publisher>, events: seq<Event>, strategy: Strategy) {
    && IsRun(states, events, strategy) && ClockRunsForward(events)
    && forall i | 0 <= i < |events| :: Prompt(states[i], events[i])
  }

  ghost predicate AlwaysInOrder(states: seq<Publisher>) {
    forall i | 0 <= i < |states| :: InOrder(states[i])
  }

  /** A fix of speed w is armed, and one of speed v, with the shorter interval, is sent past it. */
  function PastEvents(interval: real -> nat, v: real, w: real): seq<Event> {
    [ Start, Update(Fix(0, v), 0, true), Update(Fix(1, w), interval(v), true),
      Update(Fix(2, v), interval(v), true), TimerFired(interval(w), true) ]
  }

  function PastStates(interval: real -> nat, v: real, w: real): seq<Publisher> {
    var first, slow, fast := Fix(0, v), Fix(1, w), Fix(2, v);
    var near, far := interval(v), interval(w);
    [ STOPPED,
      Publisher(Running, false, None, None, None, [], []),
      Publisher(Running, false, Some(0), None, None, [first], [Offer(first, 0, true)]),
      Publisher(Running, false, Some(0), Some(slow), Some(far), [first, slow], [Offer(first, 0, true)]),
      Publisher(Running, false, Some(near), Some(slow), Some(far), [first, slow, fast],
                [Offer(first, 0, true), Offer(fast, near, true)]),
      Publisher(Running, false, Some(far), None, None, [first, slow, fast],
                [Offer(first, 0, true), Offer(fast, near, true), Offer(slow, far, true)]) ]
  }

  lemma PastArmed(interval: real -> nat, v: real, w: real)
    requires interval(v) < interval(w)
    ensures var states, events := PastStates(interval, v, w), PastEvents(interval, v, w);
            forall i | 0 <= i < 3 :: Enabled(states[i], events[i]) && Next(states[i], events[i], BySpeed(interval)) == states[i + 1]
  {
  }

  lemma PastSent(interval: real -> nat, v: real, w: real)
    requires interval(v) < interval(w)
    ensures var states, events := PastStates(interval, v, w), PastEvents(interval, v, w);
            forall i | 3 <= i < 5 :: Enabled(states[i], events[i]) && Next(states[i], events[i], BySpeed(interval)) == states[i + 1]
  {
  }

  lemma LongerIntervalIsOvertaken(interval: real -> nat, v: real, w: real)
    requires interval(v) < interval(w)
    ensures IsPromptRun(PastStates(interval, v, w), PastEvents(interval, v, w), BySpeed(interval))
    ensures !AlwaysInOrder(PastStates(interval, v, w))
  {
    var states, events, strategy := PastStates(interval, v, w), PastEvents(interval, v, w), BySpeed(interval);
    PastArmed(interval, v, w);
    PastSent(interval, v, w);
    assert IsRun(states, events, strategy);
    assert !InOrder(states[5]) by {
      assert states[5].offered[1].fix.number == 2 && states[5].offered[2].fix.number == 1;
    }
  }

  /**
   For an interval that depends on speed, in whatever way: with prompt timers and a clock that never runs
   back the order is kept in every run if and only if the interval does not depend on speed after all.
   */
  lemma OrderedExactlyWhenConstant(interval: real -> nat)
    ensures (forall v, w :: interval(v) == interval(w))
            <==> forall states, events | IsPromptRun(states, events, BySpeed(interval)) :: AlwaysInOrder(states)
  {
    if forall v, w :: interval(v) == interval(w) {
      assert forall v :: interval(v) == interval(0.0);
      forall states, events | IsPromptRun(states, events, BySpeed(interval)) ensures AlwaysInOrder(states) {
        forall n | 0 <= n < |states| ensures InOrder(states[n]) {
          ConstantIntervalThrottles(states, events, BySpeed(interval), interval(0.0), n);
        }
      }
    } else {
      var v, w :| interval(v) != interval(w);
      if interval(v) < interval(w) {
        LongerIntervalIsOvertaken(interval, v, w);
      } else {
        LongerIntervalIsOvertaken(interval, w, v);
      }
    }
  }

  // ---------------------------------------------------------------- the publisher object

  class LocationPublisher {
    const strategy: Strategy
    var phase: Phase
    var disposed: bool
    var lastEmitAt: Option<Millis>
    var pendingFlush: Option<Fix>
    var flushTimer: Option<Millis>
    ghost var received: seq<Fix>
    ghost var offered: seq<Offer>

    ghost function Abs(): Publisher reads this {
      Publisher(phase, disposed, lastEmitAt, pendingFlush, flushTimer, received, offered)
    }

    constructor (strategy: Strategy)
      ensures Abs() == STOPPED && this.strategy == strategy
    {
      this.strategy := strategy;
      phase, disposed, lastEmitAt, pendingFlush, flushTimer := Idle, false, None, None, None;
      received, offered := [], [];
    }

    /** Not ok after dispose, where the source throws; starting twice changes nothing. */
    method Begin() returns (ok: bool)
      requires phase.Idle? ==> lastEmitAt.None? && pendingFlush.None? && flushTimer.None?
      modifies this
      ensures ok == !old(disposed)
      ensures Abs() == if Enabled(old(Abs()), Start) then Next(old(Abs()), Start, strategy) else old(Abs())
    {
      ok := !disposed;
      if disposed || !phase.Idle? {
        return;
      }
      phase := Running;
      received, offered := [], [];
    }

    /** `accepted`: whether the sink takes the fix without throwing. */
    method EmitFix(update: Fix, at: Millis, accepted: bool)
      modifies this`lastEmitAt, this`offered
      ensures Abs() == Emit(old(Abs()), update, at, accepted)
    {
      offered := offered + [Offer(update, at, accepted)];
      if accepted {
        lastEmitAt := Some(at);
      }
    }

    method OnUpdate(update: Fix, now: Millis, accepted: bool)
      requires Enabled(Abs(), Update(update, now, accepted))
      modifies this
      ensures Abs() == Next(old(Abs()), Update(update, now, accepted), strategy)
    {
      received := received + [update];
      var interval := strategy(update);
      if lastEmitAt.None? || now - lastEmitAt.value >= interval {
        EmitFix(update, now, accepted);
        return;
      }
      pendingFlush := Some(update);
      if flushTimer.None? {
        flushTimer := Some(now + (interval - (now - lastEmitAt.value)));
      }
    }

    method FlushPending(now: Millis, accepted: bool)
      requires Enabled(Abs(), TimerFired(now, accepted))
      modifies this
      ensures Abs() == Next(old(Abs()), TimerFired(now, accepted), strategy)
    {
      flushTimer := None;
      var pending := pendingFlush;
      pendingFlush := None;
      if pending.None? || disposed || phase.Idle? {
        return;
      }
      EmitFix(pending.value, now, accepted);
    }

    method StopUntilCancelled(dispose: bool)
      requires Enabled(Abs(), BeginStop(dispose))
      modifies this
      ensures Abs() == Next(old(Abs()), BeginStop(dispose), strategy)
    {
      if dispose {
        disposed := true;
      }
      phase := Stopping;
    }

    method StopAfterCancelled()
      requires Enabled(Abs(), EndStop)
      modifies this
      ensures Abs() == Next(old(Abs()), EndStop, strategy)
    {
      phase := Idle;
      flushTimer := None;
      pendingFlush := None;
      lastEmitAt := None;
      received, offered := [], [];
    }
  }
}
