/** Sustained separation (app/lib/features/convoy/application/convoy_split_watcher.dart). */
module ConvoySplitWatcher {
  import opened Wrappers
  import opened Wire
  import opened Hysteresis

  const SUSTAINED_SECONDS := 30
  const COOLDOWN_SECONDS := 300

  /** Dart's `Duration.inSeconds`: whole seconds, truncated towards zero. */
  function InSeconds(d: Millis): int {
    if d >= 0 then d / 1000 else -((-d) / 1000)
  }

  /** What is remembered about one member. */
  datatype Tracker = Tracker(breachStart: Option<Millis>, lastSplit: Option<Millis>)

  /** One evaluation of a member: when, and whether it was beyond the threshold. */
  datatype Eval = Eval(now: Millis, beyond: bool)

  function StartOf(t: Tracker, e: Eval): Millis {
    if t.breachStart.Some? then t.breachStart.value else e.now
  }

  predicate Sustained(t: Tracker, e: Eval) {
    e.beyond && InSeconds(e.now - StartOf(t, e)) >= SUSTAINED_SECONDS
  }

  predicate Declares(t: Tracker, e: Eval) {
    Sustained(t, e) && (t.lastSplit.None? || InSeconds(e.now - t.lastSplit.value) >= COOLDOWN_SECONDS)
  }

  /** The breach timer restarts whenever it runs out, also during the cooldown. */
  function Step(t: Tracker, e: Eval): Tracker {
    if !e.beyond then t.(breachStart := None)
    else if Sustained(t, e) then Tracker(Some(e.now), if Declares(t, e) then Some(e.now) else t.lastSplit)
    else t.(breachStart := Some(StartOf(t, e)))
  }

  function After(evals: seq<Eval>): Tracker {
    if evals == [] then Tracker(None, None) else Step(After(evals[..|evals| - 1]), evals[|evals| - 1])
  }

  /** A split is declared at evaluation i. */
  predicate SplitAt(evals: seq<Eval>, i: nat)
    requires i < |evals|
  {
    Declares(After(evals[..i]), evals[i])
  }

  lemma AfterNext(evals: seq<Eval>, i: nat)
    requires i < |evals|
    ensures After(evals[..i + 1]) == Step(After(evals[..i]), evals[i])
  {
    assert evals[..i + 1][..i] == evals[..i];
  }

  lemma AfterAppend(evals: seq<Eval>, e: Eval)
    ensures After(evals + [e]) == Step(After(evals), e)
  {
    assert (evals + [e])[..|evals|] == evals;
  }

  ghost predicate ClockRunsForward(evals: seq<Eval>) {
    forall i, j | 0 <= i <= j < |evals| :: evals[i].now <= evals[j].now
  }

  /** Unbroken separation from a to b. */
  ghost predicate BeyondThroughout(evals: seq<Eval>, a: nat, b: nat)
    requires b < |evals|
  {
    forall k | a <= k <= b :: evals[k].beyond
  }

  /** Consecutive evaluations from a to b are at most g apart. */
  ghost predicate GapsAtMost(evals: seq<Eval>, a: nat, b: nat, g: Millis)
    requires b < |evals|
  {
    forall k | a < k <= b :: evals[k].now - evals[k - 1].now <= g
  }

  // ---------------------------------------------------------------- safety

  /** A running breach timer started at an evaluation since which the member was beyond throughout. */
  lemma {:induction false} TimerStartedAt(evals: seq<Eval>, n: nat)
    requires n <= |evals| && After(evals[..n]).breachStart.Some?
    ensures exists j: nat | j < n :: evals[j].now == After(evals[..n]).breachStart.value
                                     && BeyondThroughout(evals, j, n - 1)
  {
    AfterNext(evals, n - 1);
    var t := After(evals[..n - 1]);
    if t.breachStart.Some? && !Sustained(t, evals[n - 1]) {
      TimerStartedAt(evals, n - 1);
      var j: nat :| j < n - 1 && evals[j].now == t.breachStart.value && BeyondThroughout(evals, j, n - 2);
      assert BeyondThroughout(evals, j, n - 1);
    } else {
      assert BeyondThroughout(evals, n - 1, n - 1);
    }
  }

  /** Every declared split ends a run of evaluations, all beyond the threshold, that spans at least 30 s. */
  lemma SplitNeedsSustainedBreach(evals: seq<Eval>, i: nat)
    requires i < |evals| && SplitAt(evals, i)
    ensures exists j: nat | j <= i :: evals[i].now - evals[j].now >= 30_000 && BeyondThroughout(evals, j, i)
  {
    var t := After(evals[..i]);
    if t.breachStart.Some? {
      TimerStartedAt(evals, i);
      var j: nat :| j < i && evals[j].now == t.breachStart.value && BeyondThroughout(evals, j, i - 1);
      assert BeyondThroughout(evals, j, i);
    }
  }

  lemma {:induction false} LastSplitRemembered(evals: seq<Eval>, i: nat, n: nat)
    requires ClockRunsForward(evals) && i < n <= |evals| && SplitAt(evals, i)
    ensures After(evals[..n]).lastSplit.Some? && After(evals[..n]).lastSplit.value >= evals[i].now
    decreases n
  {
    AfterNext(evals, n - 1);
    if i + 1 < n {
      LastSplitRemembered(evals, i, n - 1);
    }
  }

  /** Splits of one member are at least 300 s apart. */
  lemma SplitsApart(evals: seq<Eval>, i: nat, k: nat)
    requires ClockRunsForward(evals) && i < k < |evals| && SplitAt(evals, i) && SplitAt(evals, k)
    ensures evals[k].now - evals[i].now >= 300_000
  {
    LastSplitRemembered(evals, i, k);
  }

  // ---------------------------------------------------------------- liveness

  /** The first evaluation from a on that is not before `t`. */
  lemma {:induction false} FirstReaching(evals: seq<Eval>, a: nat, b: nat, t: Millis) returns (e: nat)
    requires a <= b < |evals| && evals[a].now < t <= evals[b].now
    ensures a < e <= b && t <= evals[e].now && forall k | a <= k < e :: evals[k].now < t
    decreases b - a
  {
    if evals[a + 1].now >= t {
      e := a + 1;
    } else {
      e := FirstReaching(evals, a + 1, b, t);
    }
  }

  /**
   When the member evaluated at a must be reported if it stays away: 30 s after its breach timer started,
   unless a cooldown is still running then; during it the timer restarts, so 30 s after its end.
   */
  function DueAt(evals: seq<Eval>, a: nat): Millis
    requires a < |evals|
  {
    var t := After(evals[..a]);
    var start := StartOf(t, evals[a]);
    if t.lastSplit.Some? && start + 30_000 < t.lastSplit.value + 300_000 then t.lastSplit.value + 330_000
    else start + 30_000
  }

  /** Without a split the timer keeps running, or was restarted before the cooldown ended. */
  ghost predicate StillWaiting(before: Tracker, start: Millis, t: Tracker) {
    && t.lastSplit == before.lastSplit && t.breachStart.Some?
    && (t.breachStart.value == start
        || (t.lastSplit.Some? && start + 30_000 < t.lastSplit.value + 300_000
            && t.breachStart.value < t.lastSplit.value + 300_000))
  }

  lemma {:induction false} TimerMeanwhile(evals: seq<Eval>, a: nat, n: nat)
    requires a < n <= |evals| && BeyondThroughout(evals, a, n - 1)
    requires forall k: nat | a <= k < n :: !SplitAt(evals, k)
    ensures StillWaiting(After(evals[..a]), StartOf(After(evals[..a]), evals[a]), After(evals[..n]))
    decreases n
  {
    AfterNext(evals, n - 1);
    assert !SplitAt(evals, n - 1);
    if a + 1 < n {
      TimerMeanwhile(evals, a, n - 1);
    }
  }

  /** Whatever waited this long is declared. */
  lemma DueIsDeclared(evals: seq<Eval>, a: nat, e: nat)
    requires a <= e < |evals| && BeyondThroughout(evals, a, e) && DueAt(evals, a) <= evals[e].now
    requires forall k: nat | a <= k < e :: !SplitAt(evals, k)
    ensures SplitAt(evals, e)
  {
    if a < e {
      assert BeyondThroughout(evals, a, e - 1);
      TimerMeanwhile(evals, a, e);
    }
  }

  /**
   Split timing in general, for a member with any past: under unbroken separation with evaluations at most g
   apart, a split is declared at once if it is due, and otherwise less than g after it is due.
   */
  lemma SplitInTime(evals: seq<Eval>, a: nat, b: nat, g: Millis)
    requires a <= b < |evals| && BeyondThroughout(evals, a, b) && GapsAtMost(evals, a, b, g)
    requires evals[b].now >= DueAt(evals, a)
    ensures exists i: nat | a <= i <= b :: SplitAt(evals, i) && (i == a || evals[i].now < DueAt(evals, a) + g)
  {
    var e := a;
    if evals[a].now < DueAt(evals, a) {
      e := FirstReaching(evals, a, b, DueAt(evals, a));
      assert evals[e].now - evals[e - 1].now <= g;
    }
    if forall k: nat | a <= k < e :: !SplitAt(evals, k) {
      assert BeyondThroughout(evals, a, e);
      DueIsDeclared(evals, a, e);
    } else {
      var k: nat :| a <= k < e && SplitAt(evals, k);
      assert a < e && 0 < g;
    }
  }

  /**
   A member that comes back and is separated again is reported 30 s + g after the new breach, or within
   330 s + g of its last split if the cooldown is still running 30 s after the breach.
   */
  lemma BreachIsReportedInTime(evals: seq<Eval>, a: nat, b: nat, g: Millis)
    requires a <= b < |evals| && After(evals[..a]).breachStart.None?
    requires BeyondThroughout(evals, a, b) && GapsAtMost(evals, a, b, g)
    requires var last := After(evals[..a]).lastSplit;
             evals[b].now >= if last.Some? && evals[a].now + 30_000 < last.value + 300_000 then last.value + 330_000
                             else evals[a].now + 30_000
    ensures var last := After(evals[..a]).lastSplit;
            var due := if last.Some? && evals[a].now + 30_000 < last.value + 300_000 then last.value + 330_000
                       else evals[a].now + 30_000;
            exists i: nat | a < i <= b :: SplitAt(evals, i) && evals[i].now < due + g
  {
    SplitInTime(evals, a, b, g);
    assert !SplitAt(evals, a);
  }

  /** Under unbroken separation the first split of a member comes within 30 s + g of the breach. */
  lemma FirstSplitInTime(evals: seq<Eval>, a: nat, b: nat, g: Millis)
    requires a <= b < |evals| && After(evals[..a]) == Tracker(None, None)
    requires BeyondThroughout(evals, a, b) && GapsAtMost(evals, a, b, g)
    requires evals[b].now >= evals[a].now + 30_000
    ensures exists i: nat | a < i <= b :: SplitAt(evals, i) && evals[i].now < evals[a].now + 30_000 + g
  {
    BreachIsReportedInTime(evals, a, b, g);
  }

  /** And each further split comes within 330 s + g of the one before. */
  lemma NextSplitInTime(evals: seq<Eval>, i: nat, b: nat, g: Millis)
    requires i <= b < |evals| && SplitAt(evals, i)
    requires BeyondThroughout(evals, i, b) && GapsAtMost(evals, i, b, g)
    requires evals[b].now >= evals[i].now + 330_000
    ensures exists k: nat | i < k <= b :: SplitAt(evals, k) && evals[k].now < evals[i].now + 330_000 + g
  {
    AfterNext(evals, i);
    assert i < b && DueAt(evals, i + 1) == evals[i].now + 330_000;
    SplitInTime(evals, i + 1, b, g);
  }

  // ---------------------------------------------------------------- the watcher

  datatype SplitEvent = SplitEvent(splitMemberId: MemberId, distanceMeters: Metres, detectedAt: Millis)

  type Times = map<MemberId, Millis>

  function TrackerIn(breachStart: Times, lastSplit: Times, m: MemberId): Tracker {
    Tracker(if m in breachStart then Some(breachStart[m]) else None,
            if m in lastSplit then Some(lastSplit[m]) else None)
  }

  function HistoryIn(history: map<MemberId, seq<Eval>>, m: MemberId): seq<Eval> {
    if m in history then history[m] else []
  }

  /** The evaluations of one emission of positions. */
  type Round = map<MemberId, Eval>

  /** One event for every member of the round that declares a split, and no other. */
  ghost predicate Declared(breachStart: Times, lastSplit: Times, round: Round, members: set<MemberId>, events: seq<SplitEvent>) {
    && (forall i, j | 0 <= i < j < |events| :: events[i].splitMemberId != events[j].splitMemberId)
    && (forall e | e in events :: e.splitMemberId in members)
    && (forall m | m in members :: (exists e :: e in events && e.splitMemberId == m)
                                   <==> m in round && Declares(TrackerIn(breachStart, lastSplit, m), round[m]))
  }

  lemma OneMoreDeclared(breachStart: Times, lastSplit: Times, round: Round, members: set<MemberId>,
                        events: seq<SplitEvent>, m: MemberId, more: seq<SplitEvent>)
    requires Declared(breachStart, lastSplit, round, members, events) && m !in members && m in round
    requires if Declares(TrackerIn(breachStart, lastSplit, m), round[m])
             then |more| == 1 && more[0].splitMemberId == m else more == []
    ensures Declared(breachStart, lastSplit, round, members + {m}, events + more)
  {
    var all := events + more;
    forall n | n in members + {m}
      ensures (exists e :: e in all && e.splitMemberId == n)
              <==> n in round && Declares(TrackerIn(breachStart, lastSplit, n), round[n])
    {
      if n in members && exists e :: e in events && e.splitMemberId == n {
        var e :| e in events && e.splitMemberId == n;
        assert e in all;
      }
      if n == m && more != [] {
        assert more[0] in all;
      }
    }
  }

  class ConvoySplitWatcher {
    const selfId: MemberId
    const proximityWarningMeters: real
    const distance: (Gps, Gps) -> Metres
    var breachStart: Times
    var lastSplit: Times
    var declared: seq<SplitEvent>
    ghost var history: map<MemberId, seq<Eval>>

    /** Each member's timer and cooldown are what its own evaluations make of them. */
    ghost predicate Valid() reads this {
      forall m :: TrackerIn(breachStart, lastSplit, m) == After(HistoryIn(history, m))
    }

    constructor (selfId: MemberId, proximityWarningMeters: real, distance: (Gps, Gps) -> Metres)
      ensures Valid() && declared == [] && history == map[]
      ensures this.selfId == selfId && this.proximityWarningMeters == proximityWarningMeters
      ensures this.distance == distance
    {
      this.selfId, this.proximityWarningMeters, this.distance := selfId, proximityWarningMeters, distance;
      breachStart, lastSplit, declared, history := map[], map[], [], map[];
    }

    /** Every other member in the emission is evaluated once, if the own position is known. */
    function RoundOf(positions: map<MemberId, Gps>, now: Millis): Round {
      if selfId !in positions then map[]
      else map m | m in positions && m != selfId
             :: Eval(now, distance(positions[selfId], positions[m]) > proximityWarningMeters)
    }

    /** Every event carries its member's distance in this emission, and the instant of it. */
    ghost predicate Located(positions: map<MemberId, Gps>, now: Millis, events: seq<SplitEvent>) {
      forall e | e in events :: selfId in positions && e.splitMemberId in positions
        && e == SplitEvent(e.splitMemberId, distance(positions[selfId], positions[e.splitMemberId]), now)
    }

    lemma OneMoreLocated(positions: map<MemberId, Gps>, now: Millis, events: seq<SplitEvent>, m: MemberId,
                         more: seq<SplitEvent>)
      requires Located(positions, now, events) && selfId in positions && m in positions
      requires more == [] || more == [SplitEvent(m, distance(positions[selfId], positions[m]), now)]
      ensures Located(positions, now, events + more)
    {
    }

    method OnPositions(positions: map<MemberId, Gps>, now: Millis)
      requires Valid()
      modifies this
      ensures Valid() && old(declared) <= declared
      ensures var round := RoundOf(positions, now);
              && (forall m :: HistoryIn(history, m)
                              == HistoryIn(old(history), m) + if m in round then [round[m]] else [])
              && Declared(old(breachStart), old(lastSplit), round, round.Keys, declared[|old(declared)|..])
      ensures forall m :: HistoryIn(history, m) == HistoryIn(old(history), m)
                + if selfId in positions && m in positions && m != selfId
                  then [Eval(now, distance(positions[selfId], positions[m]) > proximityWarningMeters)] else []
      ensures Located(positions, now, declared[|old(declared)|..])
    {
      if selfId !in positions {
        assert forall m :: HistoryIn(history, m) == HistoryIn(history, m) + [];
        return;
      }
      ghost var round := RoundOf(positions, now);
      EvaluateOthers(positions, now);
      history := Extended(history, round);
      RoundIsHistory(old(breachStart), old(lastSplit), old(history), round, breachStart, lastSplit);
    }

    method EvaluateOthers(positions: map<MemberId, Gps>, now: Millis)
      requires selfId in positions
      modifies this`breachStart, this`lastSplit, this`declared
      ensures var round := RoundOf(positions, now);
              && (forall m :: TrackerIn(breachStart, lastSplit, m)
                              == Tracked(TrackerIn(old(breachStart), old(lastSplit), m), round, m, {}))
              && old(declared) <= declared
              && Declared(old(breachStart), old(lastSplit), round, round.Keys, declared[|old(declared)|..])
              && Located(positions, now, declared[|old(declared)|..])
    {
      ghost var round, events := RoundOf(positions, now), [];
      var todo := positions.Keys - {selfId};
      while todo != {}
        invariant todo <= round.Keys && declared == old(declared) + events
        invariant forall m :: TrackerIn(breachStart, lastSplit, m)
                              == Tracked(TrackerIn(old(breachStart), old(lastSplit), m), round, m, todo)
        invariant Declared(old(breachStart), old(lastSplit), round, round.Keys - todo, events)
        invariant Located(positions, now, events)
        decreases todo
      {
        var m :| m in todo;
        ghost var before := declared;
        Evaluate(m, distance(positions[selfId], positions[m]), now);
        OneMoreDeclared(old(breachStart), old(lastSplit), round, round.Keys - todo, events, m, declared[|before|..]);
        OneMoreLocated(positions, now, events, m, declared[|before|..]);
        events := events + declared[|before|..];
        assert round.Keys - todo + {m} == round.Keys - (todo - {m});
        todo := todo - {m};
      }
      assert round.Keys - todo == round.Keys && declared[|old(declared)|..] == events;
    }

    method Evaluate(m: MemberId, dist: Metres, now: Millis)
      modifies this`breachStart, this`lastSplit, this`declared
      ensures var t, e := TrackerIn(old(breachStart), old(lastSplit), m), Eval(now, dist > proximityWarningMeters);
              && TrackerIn(breachStart, lastSplit, m) == Step(t, e)
              && declared == old(declared) + if Declares(t, e) then [SplitEvent(m, dist, now)] else []
      ensures forall o | o != m :: TrackerIn(breachStart, lastSplit, o) == TrackerIn(old(breachStart), old(lastSplit), o)
    {
      if dist > proximityWarningMeters {
        if m !in breachStart {
          breachStart := breachStart[m := now];
        }
        var elapsed := now - breachStart[m];
        if InSeconds(elapsed) >= SUSTAINED_SECONDS {
          var cooldownExpired := m !in lastSplit || InSeconds(now - lastSplit[m]) >= COOLDOWN_SECONDS;
          if cooldownExpired {
            declared := declared + [SplitEvent(m, dist, now)];
            lastSplit := lastSplit[m := now];
          }
          breachStart := breachStart[m := now];
        }
      } else {
        breachStart := breachStart - {m};
      }
    }
  }

  /** A member's tracker while a round is being worked off. */
  ghost function Tracked(before: Tracker, round: Round, m: MemberId, todo: set<MemberId>): Tracker {
    if m in round && m !in todo then Step(before, round[m]) else before
  }

  ghost function Extended(history: map<MemberId, seq<Eval>>, round: Round): map<MemberId, seq<Eval>> {
    map m | m in history.Keys + round.Keys :: HistoryIn(history, m) + if m in round then [round[m]] else []
  }

  /** A finished round has moved every tracker along its member's history. */
  lemma RoundIsHistory(breachStart: Times, lastSplit: Times, history: map<MemberId, seq<Eval>>, round: Round,
                       breachStart': Times, lastSplit': Times)
    requires forall m :: TrackerIn(breachStart, lastSplit, m) == After(HistoryIn(history, m))
    requires forall m :: TrackerIn(breachStart', lastSplit', m)
                         == Tracked(TrackerIn(breachStart, lastSplit, m), round, m, {})
    ensures forall m :: TrackerIn(breachStart', lastSplit', m) == After(HistoryIn(Extended(history, round), m))
    ensures forall m :: HistoryIn(Extended(history, round), m)
                        == HistoryIn(history, m) + if m in round then [round[m]] else []
  {
    forall m
      ensures TrackerIn(breachStart', lastSplit', m) == After(HistoryIn(Extended(history, round), m))
      ensures HistoryIn(Extended(history, round), m) == HistoryIn(history, m) + if m in round then [round[m]] else []
    {
      var evals := HistoryIn(history, m);
      assert TrackerIn(breachStart, lastSplit, m) == After(evals);
      assert HistoryIn(Extended(history, round), m) == evals + if m in round then [round[m]] else [];
      assert TrackerIn(breachStart', lastSplit', m) == Tracked(After(evals), round, m, {});
      if m in round {
        AfterAppend(evals, round[m]);
      } else {
        assert evals + [] == evals;
      }
    }
  }
}
