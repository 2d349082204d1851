/** Two runs in which an app ends up showing something else than the server holds. */
module ReplicaRuns {
  import opened Wrappers
  import opened Wire
  import opened SnapshotStore
  import opened ConvoyView
  import opened Agreement
  import opened Backplane
  import opened ReplicaAgreement

  const NOBODY: map<HandlerId, Handler> := map[]
  const NO_FRAMES: seq<Frame> := []
  const NEW_A := Conn("A", "c", [], Loading([]))

  // ---------------------------------------------------------------- a replay that arrives late

  function Route(stop: string): Tour {
    Tour([Waypoint(0.0, 0.0, stop, "A", 0)])
  }

  const EARLY := TourFrame(Route("x"))
  const LATE := TourFrame(Route("y"))
  const LED_BY_A: map<ConvoyId, MemberId> := map["c" := "A"]
  const EARLY_HELD: map<ConvoyId, World> := map["c" := World(map[], Some(Route("x")), None)]
  const LATE_HELD: map<ConvoyId, World> := map["c" := World(map[], Some(Route("y")), None)]
  const ALONE: map<ConnId, Conn> := map[0 := NEW_A]

  function Planned(h: HandlerId, frame: Frame, check: Check): map<HandlerId, Handler> {
    map[h := Handler("A", "c", frame, check)]
  }

  function WithB(id: ConnId, inbox: seq<Frame>, replay: ReplayState): map<ConnId, Conn> {
    ALONE[id := Conn("B", "c", inbox, replay)]
  }

  /**
   The leader's second plan has passed its check when B registers, and is carried out before B's replay is
   sent. Both continuations wait for nothing but their turn, so any store allows this order.
   */
  function RacingEvents(): seq<Event> {
    [ Connect(0, "A", "c", []), SetLeader("c", "A"),
      Message(0, 0, Some(EARLY)), Answer(0), Resume(0),
      Message(0, 1, Some(LATE)), Answer(1),
      Connect(1, "B", "c", [EARLY]), Resume(1), Replay(1) ]
  }

  function RacingStates(): seq<State> {
    [ InitialState(true),
      State(true, 0, map[], ALONE, NOBODY, map[]),
      State(true, 0, map[], ALONE, NOBODY, LED_BY_A),
      State(true, 0, map[], ALONE, Planned(0, EARLY, Asking), LED_BY_A),
      State(true, 0, map[], ALONE, Planned(0, EARLY, Answered(true)), LED_BY_A),
      State(true, 0, EARLY_HELD, ALONE, NOBODY, LED_BY_A),
      State(true, 0, EARLY_HELD, ALONE, Planned(1, LATE, Asking), LED_BY_A),
      State(true, 0, EARLY_HELD, ALONE, Planned(1, LATE, Answered(true)), LED_BY_A),
      State(true, 0, EARLY_HELD, WithB(1, [], Loading([EARLY])), Planned(1, LATE, Answered(true)), LED_BY_A),
      State(true, 0, LATE_HELD, WithB(1, [LATE], Loading([EARLY])), NOBODY, LED_BY_A),
      State(true, 0, LATE_HELD, WithB(1, [LATE, EARLY], Replayed), NOBODY, LED_BY_A) ]
  }

  lemma RacingStart()
    ensures forall i: nat | i < 2 :: Follows(RacingStates(), RacingEvents(), i)
  {
    assert ReplayFrames(EMPTY_WORLD, 0) == {};
    assert map[][0 := NEW_A] == ALONE;
    assert map[]["c" := "A"] == LED_BY_A;
  }

  lemma RacingFirstPlan()
    ensures forall i: nat | 2 <= i < 4 :: Follows(RacingStates(), RacingEvents(), i)
  {
    assert NOBODY[0 := Handler("A", "c", EARLY, Asking)] == Planned(0, EARLY, Asking);
    assert Planned(0, EARLY, Asking)[0 := Handler("A", "c", EARLY, Answered(true))] == Planned(0, EARLY, Answered(true));
  }

  lemma RacingFirstCommit()
    ensures Follows(RacingStates(), RacingEvents(), 4)
  {
    assert Planned(0, EARLY, Answered(true)) - {0} == NOBODY;
    assert FanOut(ALONE, "c", EARLY, "A") == ALONE;
    assert map[]["c" := RecordFrame(EMPTY_WORLD, EARLY)] == EARLY_HELD;
  }

  lemma RacingSecondPlan()
    ensures forall i: nat | 5 <= i < 7 :: Follows(RacingStates(), RacingEvents(), i)
  {
    assert NOBODY[1 := Handler("A", "c", LATE, Asking)] == Planned(1, LATE, Asking);
    assert Planned(1, LATE, Asking)[1 := Handler("A", "c", LATE, Answered(true))] == Planned(1, LATE, Answered(true));
  }

  lemma RacingJoin()
    ensures Follows(RacingStates(), RacingEvents(), 7)
  {
    var held := EARLY_HELD["c"];
    assert PruneExpired(held, 0) == held;
    assert EARLY_HELD["c" := held] == EARLY_HELD;
    assert HazardFrames(held, held.hazards.Keys, 0) == {};
    assert ReplayFrames(held, 0) == {EARLY};
  }

  lemma RacingSecondCommit()
    ensures Follows(RacingStates(), RacingEvents(), 8)
  {
    assert Planned(1, LATE, Answered(true)) - {1} == NOBODY;
    assert [] + [LATE] == [LATE];
    assert FanOut(WithB(1, [], Loading([EARLY])), "c", LATE, "A") == WithB(1, [LATE], Loading([EARLY]));
    assert EARLY_HELD["c" := RecordFrame(EARLY_HELD["c"], LATE)] == LATE_HELD;
  }

  lemma RacingReplay()
    ensures Follows(RacingStates(), RacingEvents(), 9)
  {
    assert [LATE] + [EARLY] == [LATE, EARLY];
    assert WithB(1, [LATE], Loading([EARLY]))[1 := Conn("B", "c", [LATE, EARLY], Replayed)]
           == WithB(1, [LATE, EARLY], Replayed);
  }

  lemma RacingRun()
    ensures IsRun(RacingStates(), RacingEvents())
  {
    RacingStart();
    RacingFirstPlan();
    RacingFirstCommit();
    RacingSecondPlan();
    RacingJoin();
    RacingSecondCommit();
    RacingReplay();
  }

  function Shown(stop: string): View {
    View([], Route(stop), None)
  }

  function RacingSession(): Session {
    var n := NOTHING_SHOWN;
    Session(RacingStates(), RacingEvents(), 1, "B", "c", 7, 9, 10, [n, n, n, n, n, n, n, n, n, Shown("y"), Shown("x")],
            [false, false, false, false, false, false, false, false, false, false])
  }

  lemma RacingViews()
    ensures ViewFollows(RacingSession(), 8) && ViewFollows(RacingSession(), 9)
  {
    assert Arrived(Conn("B", "c", [], Loading([EARLY])), Conn("B", "c", [LATE], Loading([EARLY]))) == [LATE];
    assert Arrived(Conn("B", "c", [LATE], Loading([EARLY])), Conn("B", "c", [LATE, EARLY], Replayed)) == [EARLY];
    assert ReceiveAll(NOTHING_SHOWN, [LATE]) == Shown("y");
    assert ReceiveAll(Shown("y"), [EARLY]) == Shown("x");
  }

  lemma RacingSilence()
    ensures forall k | 7 < k < 10 :: Silent(RacingSession(), k)
  {
    var x := RacingSession();
    assert CommitOf(x.states[8], x.events[8]) == Some(Commit("c", LATE, "A"));
    assert Silent(x, 8);
    assert CommitOf(x.states[9], x.events[9]) == None;
    assert Silent(x, 9);
  }

  lemma RacingListener()
    ensures Listens(RacingSession())
  {
    RacingRun();
    RacingViews();
    RacingSilence();
  }

  /** A run in which the replay arrives late: the newcomer ends up with the route as it was before. */
  lemma StaleReplayWins()
    ensures exists x: Session :: Listens(x) && x.views[x.joined + 1] == NOTHING_SHOWN && x.last == |x.events|
              && !Agrees(x.views[x.last], ServerWorld(x, x.last), x.states[x.last].now)
  {
    var x := RacingSession();
    RacingListener();
    assert "x"[0] != "y"[0];
    assert x.views[10].tour.stops[0].name == "x" && ServerWorld(x, 10).tour == Some(Route("y"));
  }

  // ---------------------------------------------------------------- a hazard removed behind the back

  const PIN := Hazard("h", Accident, 0.0, 0.0, "A", 0, None, None)
  const REPORT := HazardFrame(PIN)
  const REMOVAL := HazardRemoveFrame("h")
  const PINNED: map<ConvoyId, World> := map["c" := World(map["h" := PIN], None, None)]
  const CLEARED: map<ConvoyId, World> := map["c" := EMPTY_WORLD]

  /** B loses its connection, A takes its hazard back, B connects again. */
  function AwayEvents(): seq<Event> {
    [ Connect(0, "A", "c", []), Connect(1, "B", "c", []), Replay(1),
      Message(0, 0, Some(REPORT)), Close(1),
      Message(0, 0, Some(REMOVAL)), Answer(0), Resume(0),
      Connect(2, "B", "c", []), Replay(2) ]
  }

  function AwayStates(): seq<State> {
    [ InitialState(true),
      State(true, 0, map[], ALONE, NOBODY, map[]),
      State(true, 0, map[], WithB(1, [], Loading([])), NOBODY, map[]),
      State(true, 0, map[], WithB(1, [], Replayed), NOBODY, map[]),
      State(true, 0, PINNED, WithB(1, [REPORT], Replayed), NOBODY, map[]),
      State(true, 0, PINNED, ALONE, NOBODY, map[]),
      State(true, 0, PINNED, ALONE, Planned(0, REMOVAL, Asking), map[]),
      State(true, 0, PINNED, ALONE, Planned(0, REMOVAL, Answered(true)), map[]),
      State(true, 0, CLEARED, ALONE, NOBODY, map[]),
      State(true, 0, CLEARED, WithB(2, [], Loading([])), NOBODY, map[]),
      State(true, 0, CLEARED, WithB(2, [], Replayed), NOBODY, map[]) ]
  }

  lemma AwayStart()
    ensures forall i: nat | i < 3 :: Follows(AwayStates(), AwayEvents(), i)
  {
    assert ReplayFrames(EMPTY_WORLD, 0) == {};
    assert map[][0 := NEW_A] == ALONE;
    assert NO_FRAMES + NO_FRAMES == NO_FRAMES;
    assert WithB(1, [], Loading([]))[1 := Conn("B", "c", [], Replayed)] == WithB(1, [], Replayed);
  }

  lemma AwayFanOut()
    ensures FanOut(WithB(1, [], Replayed), "c", REPORT, "A") == WithB(1, [REPORT], Replayed)
  {
    assert [] + [REPORT] == [REPORT];
  }

  lemma AwayReport()
    ensures Follows(AwayStates(), AwayEvents(), 3)
  {
    AwayFanOut();
    assert RecordFrame(EMPTY_WORLD, REPORT) == PINNED["c"];
    assert map[]["c" := PINNED["c"]] == PINNED;
  }

  lemma AwayCheck()
    ensures forall i: nat | 4 <= i < 7 :: Follows(AwayStates(), AwayEvents(), i)
  {
    assert WithB(1, [REPORT], Replayed) - {1} == ALONE;
    assert NOBODY[0 := Handler("A", "c", REMOVAL, Asking)] == Planned(0, REMOVAL, Asking);
    assert Planned(0, REMOVAL, Asking)[0 := Handler("A", "c", REMOVAL, Answered(true))]
           == Planned(0, REMOVAL, Answered(true));
  }

  lemma AwayRemoval()
    ensures Follows(AwayStates(), AwayEvents(), 7)
  {
    assert Planned(0, REMOVAL, Answered(true)) - {0} == NOBODY;
    assert FanOut(ALONE, "c", REMOVAL, "A") == ALONE;
    assert RecordFrame(PINNED["c"], REMOVAL) == EMPTY_WORLD;
    assert PINNED["c" := EMPTY_WORLD] == CLEARED;
  }

  lemma AwayReturn()
    ensures forall i: nat | 8 <= i < 10 :: Follows(AwayStates(), AwayEvents(), i)
  {
    assert ReplayFrames(EMPTY_WORLD, 0) == {};
    assert PruneExpired(EMPTY_WORLD, 0) == EMPTY_WORLD;
    assert CLEARED["c" := EMPTY_WORLD] == CLEARED;
    assert NO_FRAMES + NO_FRAMES == NO_FRAMES;
    assert WithB(2, [], Loading([]))[2 := Conn("B", "c", [], Replayed)] == WithB(2, [], Replayed);
  }

  lemma AwayRun()
    ensures IsRun(AwayStates(), AwayEvents())
  {
    AwayStart();
    AwayReport();
    AwayCheck();
    AwayRemoval();
    AwayReturn();
  }

  const PIN_SHOWN := View([PIN], Tour([]), None)

  /** B's app through both connections. */
  function AwayViews(): seq<View> {
    var n, p := NOTHING_SHOWN, PIN_SHOWN;
    [n, n, n, n, p, p, p, p, p, p, p]
  }

  function FirstStay(): Session {
    Session(AwayStates(), AwayEvents(), 1, "B", "c", 1, 2, 4, AwayViews(),
            [false, false, false, false, false, false, false, false, false, false])
  }

  function SecondStay(): Session {
    FirstStay().(id := 2, joined := 8, replayed := 9, last := 10)
  }

  lemma FirstStayReplay()
    ensures ViewFollows(FirstStay(), 2)
  {
    assert Arrived(Conn("B", "c", [], Loading([])), Conn("B", "c", [], Replayed)) == [];
  }

  lemma FirstStayReport()
    ensures ViewFollows(FirstStay(), 3)
  {
    assert Arrived(Conn("B", "c", [], Replayed), Conn("B", "c", [REPORT], Replayed)) == [REPORT];
    assert ReceiveAll(NOTHING_SHOWN, [REPORT]) == PIN_SHOWN;
  }

  lemma FirstStaySilence()
    ensures Silent(FirstStay(), 2) && Silent(FirstStay(), 3)
  {
    var y := FirstStay();
    assert CommitOf(y.states[2], y.events[2]) == None;
    assert CommitOf(y.states[3], y.events[3]) == Some(Commit("c", REPORT, "A"));
  }

  lemma FirstStayListens()
    ensures Listens(FirstStay())
  {
    AwayRun();
    var y := FirstStay();
    assert forall k | y.joined < k < y.last :: ViewFollows(y, k) by {
      FirstStayReplay();
      FirstStayReport();
    }
    assert NeverSends(y) by {
      FirstStaySilence();
    }
  }

  lemma SecondStayListens()
    ensures Listens(SecondStay())
  {
    AwayRun();
    var x := SecondStay();
    assert Arrived(Conn("B", "c", [], Loading([])), Conn("B", "c", [], Replayed)) == [];
    assert ViewFollows(x, 9);
    assert CommitOf(x.states[9], x.events[9]) == None;
    assert Silent(x, 9);
  }

  /** The same member's app in the same run, carrying its view from one connection to the next. */
  ghost predicate ComesBack(y: Session, x: Session)
    requires Listens(y) && Listens(x)
  {
    && y.states == x.states && y.events == x.events && y.member == x.member && y.convoy == x.convoy
    && y.last <= x.joined && x.views[x.joined + 1] == y.views[y.last]
  }

  /** A run in which a hazard removed while its viewer was away stays on that viewer's map. */
  lemma RemovedHazardStaysShown()
    ensures exists y: Session, x: Session :: Listens(y) && Listens(x) && ComesBack(y, x)
              && y.views[y.joined + 1] == NOTHING_SHOWN && x.last == |x.events|
              && ServerWorld(x, x.last) == EMPTY_WORLD && PIN in x.views[x.last].hazards
              && !Agrees(x.views[x.last], ServerWorld(x, x.last), x.states[x.last].now)
  {
    var y, x := FirstStay(), SecondStay();
    FirstStayListens();
    SecondStayListens();
    assert ComesBack(y, x);
    assert ServerWorld(x, 10) == EMPTY_WORLD && x.views[10].hazards == [PIN];
    assert HazardFrame(PIN) !in ReplayFrames(EMPTY_WORLD, 0);
    assert IsActiveAt(PIN, 0) && PIN in x.views[10].hazards;
  }
}
