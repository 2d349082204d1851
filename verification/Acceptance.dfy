/**
 What honest clients can rely on (backend/src/realtime/frame_handler.ts): which frames are published at once,
 which after a check, and what publishing does, frame by frame.
 */
module Acceptance {
  import opened Wrappers
  import opened Wire
  import opened SnapshotStore
  import opened Backplane

  // ---------------------------------------------------------------- what publishing means

  /** Every connection of the convoy but the sender's member has `f` appended; all the others are as before. */
  ghost predicate SentToOthers(before: map<ConnId, Conn>, after: map<ConnId, Conn>, c: ConvoyId, sender: MemberId, f: Frame) {
    && (forall id :: id in after <==> id in before)
    && (forall id | id in before ::
          && after[id].member == before[id].member && after[id].convoy == before[id].convoy
          && after[id].replay == before[id].replay
          && after[id].inbox == if before[id].convoy == c && before[id].member != sender then before[id].inbox + [f]
                                else before[id].inbox)
  }

  function HazardIn(w: World, id: HazardId): Option<Hazard> {
    if id in w.hazards then Some(w.hazards[id]) else None
  }

  ghost predicate SameHazardsBut(w: World, w': World, id: HazardId) {
    forall other | other != id :: HazardIn(w', other) == HazardIn(w, other)
  }

  /** A report is stored, a removal deletes, a route of no stops and no waypoint clear; the rest is not stored. */
  ghost predicate Stored(w: World, w': World, f: Frame) {
    match f
    case HazardFrame(h) =>
      SameHazardsBut(w, w', h.id) && HazardIn(w', h.id) == Some(h) && w'.tour == w.tour && w'.waypoint == w.waypoint
    case HazardRemoveFrame(id) =>
      SameHazardsBut(w, w', id) && HazardIn(w', id) == None && w'.tour == w.tour && w'.waypoint == w.waypoint
    case TourFrame(t) =>
      && w'.hazards == w.hazards && w'.waypoint == w.waypoint
      && (t.stops == [] ==> w'.tour.None?) && (t.stops != [] ==> w'.tour == Some(t))
    case WaypointFrame(p) => w'.hazards == w.hazards && w'.tour == w.tour && w'.waypoint == p
    case _ => w' == w
  }

  /** The step publishes `f` for `sender` in convoy `c`, to connections and world at once. */
  ghost predicate Accepts(s: State, s': State, c: ConvoyId, sender: MemberId, f: Frame) {
    && SentToOthers(s.conns, s'.conns, c, sender, f)
    && Stored(WorldOf(s, c), WorldOf(s', c), f)
    && (forall other | other != c :: WorldOf(s', other) == WorldOf(s, other))
    && s'.now == s.now && s'.leaders == s.leaders && s'.leaderGate == s.leaderGate
  }

  lemma PublishAccepts(s: State, c: ConvoyId, f: Frame, sender: MemberId)
    ensures Accepts(s, Publish(s, c, f, sender), c, sender, f)
  {
    assert Stored(WorldOf(s, c), RecordFrame(WorldOf(s, c), f), f);
  }

  // ---------------------------------------------------------------- frames that need no check

  /** The four kinds that any member may send, naming the sender. */
  predicate IsOwnReport(f: Frame, sender: MemberId) {
    match f
    case GpsFrame(gps) => gps.memberId == sender
    case HazardFrame(hazard) => hazard.reporterId == sender
    case CheckInFrame(checkIn) => checkIn.memberId == sender
    case StatusFrame(status) => status.memberId == sender
    case _ => false
  }

  /** A route, a cleared waypoint, or a waypoint set by the sender. */
  predicate IsPlan(f: Frame, sender: MemberId) {
    match f
    case TourFrame(_) => true
    case WaypointFrame(waypoint) => waypoint.Some? ==> waypoint.value.setBy == sender
    case _ => false
  }

  /** Positions, hazards, check-ins and statuses go out in the step that reads them. */
  lemma OwnReportsGoOutAtOnce(s: State, id: ConnId, h: HandlerId, f: Frame)
    requires Enabled(s, Message(id, h, Some(f))) && IsOwnReport(f, s.conns[id].member)
    ensures var s' := Next(s, Message(id, h, Some(f)));
            Accepts(s, s', s.conns[id].convoy, s.conns[id].member, f) && s'.handlers == s.handlers
  {
    PublishAccepts(s, s.conns[id].convoy, f, s.conns[id].member);
  }

  /** Where no leader check is configured, so do plans. */
  lemma UngatedPlansGoOutAtOnce(s: State, id: ConnId, h: HandlerId, f: Frame)
    requires Enabled(s, Message(id, h, Some(f))) && IsPlan(f, s.conns[id].member) && !s.leaderGate
    ensures var s' := Next(s, Message(id, h, Some(f)));
            Accepts(s, s', s.conns[id].convoy, s.conns[id].member, f) && s'.handlers == s.handlers
  {
    PublishAccepts(s, s.conns[id].convoy, f, s.conns[id].member);
  }

  /** What does not parse, and what names somebody else, has no effect at all. */
  lemma OthersAreDropped(s: State, id: ConnId, h: HandlerId, message: Option<Frame>)
    requires Enabled(s, Message(id, h, message))
    requires match message
             case None => true
             case Some(f) => && !IsOwnReport(f, s.conns[id].member) && !IsPlan(f, s.conns[id].member)
                             && !f.HazardRemoveFrame?
    ensures Next(s, Message(id, h, message)) == s
  {
  }

  // ---------------------------------------------------------------- frames that wait for a check

  /** A plan under a leader check, or a removal. */
  predicate Waits(leaderGate: bool, f: Frame, sender: MemberId) {
    (IsPlan(f, sender) && leaderGate) || f.HazardRemoveFrame?
  }

  lemma CheckedFramesWait(s: State, id: ConnId, h: HandlerId, f: Frame)
    requires Enabled(s, Message(id, h, Some(f))) && Waits(s.leaderGate, f, s.conns[id].member)
    ensures Next(s, Message(id, h, Some(f)))
            == s.(handlers := s.handlers[h := Handler(s.conns[id].member, s.conns[id].convoy, f, Asking)])
  {
  }

  /** A plan is the leader's, a removal is for the reporter; nobody is kept from removing what is not there. */
  predicate MayPass(s: State, member: MemberId, c: ConvoyId, f: Frame) {
    if f.HazardRemoveFrame? then
      var held := HazardIn(WorldOf(s, c), f.hazardId);
      held.Some? ==> held.value.reporterId == member
    else c in s.leaders && s.leaders[c] == member
  }

  lemma ChecksAnswerTheTruth(s: State, h: HandlerId)
    requires Enabled(s, Answer(h))
    ensures var hd := s.handlers[h];
            Next(s, Answer(h))
            == s.(handlers := s.handlers[h := Handler(hd.member, hd.convoy, hd.frame,
                                                      Answered(MayPass(s, hd.member, hd.convoy, hd.frame)))])
  {
  }

  lemma PassedFramesGoOut(s: State, h: HandlerId)
    requires Enabled(s, Resume(h))
    ensures var hd, s' := s.handlers[h], Next(s, Resume(h));
            && s'.handlers == s.handlers - {h}
            && (hd.check == Answered(true) ==> Accepts(s, s', hd.convoy, hd.member, hd.frame))
            && (hd.check == Answered(false) ==> s' == s.(handlers := s.handlers - {h}))
  {
    var hd := s.handlers[h];
    PublishAccepts(s.(handlers := s.handlers - {h}), hd.convoy, hd.frame, hd.member);
  }

  /** Nobody else's step touches a waiting handler. */
  lemma HandlersKeepWaiting(s: State, e: Event, h: HandlerId)
    requires Enabled(s, e) && h in s.handlers && e != Answer(h) && e != Resume(h)
    ensures h in Next(s, e).handlers && Next(s, e).handlers[h] == s.handlers[h]
  {
  }

  lemma {:induction false} WaitingSince(states: seq<State>, events: seq<Event>, i: nat, n: nat, h: HandlerId, hd: Handler)
    requires IsRun(states, events) && i <= n < |states| && h in states[i].handlers && states[i].handlers[h] == hd
    requires forall l | i <= l < n :: events[l] != Answer(h) && events[l] != Resume(h)
    ensures h in states[n].handlers && states[n].handlers[h] == hd
    decreases n
  {
    if i < n {
      WaitingSince(states, events, i, n - 1, h, hd);
      assert Follows(states, events, n - 1);
      HandlersKeepWaiting(states[n - 1], events[n - 1], h);
    }
  }

  /** Steps i, j and k read, check and carry out one frame. */
  ghost predicate IsPassage(states: seq<State>, events: seq<Event>, i: nat, j: nat, k: nat, id: ConnId, h: HandlerId,
                            f: Frame)
    requires IsRun(states, events)
  {
    && i < j < k < |events| && events[i] == Message(id, h, Some(f)) && id in states[i].conns
    && events[j] == Answer(h) && events[k] == Resume(h)
    && (forall l | i < l < j :: events[l] != Answer(h) && events[l] != Resume(h))
    && (forall l | j < l < k :: events[l] != Answer(h) && events[l] != Resume(h))
  }

  /**
   In every run, whatever happens in between: a plan or removal is published by its last step exactly when its
   sender was entitled to it at the check, and is then published to all; otherwise it leaves no trace.
   */
  lemma CheckedFramesArrive(states: seq<State>, events: seq<Event>, i: nat, j: nat, k: nat, id: ConnId, h: HandlerId,
                            f: Frame)
    requires IsRun(states, events) && IsPassage(states, events, i, j, k, id, h, f)
    requires Waits(states[i].leaderGate, f, states[i].conns[id].member)
    ensures var sender, c := states[i].conns[id].member, states[i].conns[id].convoy;
            && states[i + 1].conns == states[i].conns && states[i + 1].worlds == states[i].worlds
            && (MayPass(states[j], sender, c, f) ==> Accepts(states[k], states[k + 1], c, sender, f))
            && (!MayPass(states[j], sender, c, f) ==>
                  states[k + 1].conns == states[k].conns && states[k + 1].worlds == states[k].worlds)
  {
    var sender, c := states[i].conns[id].member, states[i].conns[id].convoy;
    assert Follows(states, events, i);
    CheckedFramesWait(states[i], id, h, f);
    WaitingSince(states, events, i + 1, j, h, Handler(sender, c, f, Asking));
    assert Follows(states, events, j);
    ChecksAnswerTheTruth(states[j], h);
    WaitingSince(states, events, j + 1, k, h, Handler(sender, c, f, Answered(MayPass(states[j], sender, c, f))));
    assert Follows(states, events, k);
    PassedFramesGoOut(states[k], h);
  }

  /** The same for reports, on which no other step has any influence. */
  lemma OwnReportsArrive(states: seq<State>, events: seq<Event>, n: nat, id: ConnId, h: HandlerId, f: Frame)
    requires IsRun(states, events) && n < |events| && events[n] == Message(id, h, Some(f)) && id in states[n].conns
    requires IsOwnReport(f, states[n].conns[id].member)
    ensures Accepts(states[n], states[n + 1], states[n].conns[id].convoy, states[n].conns[id].member, f)
    ensures states[n + 1].handlers == states[n].handlers
  {
    assert Follows(states, events, n);
    OwnReportsGoOutAtOnce(states[n], id, h, f);
  }

  // ---------------------------------------------------------------- connections and the outside world

  /** A new connection has its replay loading; the replay is sent once, in one piece; a closed one is gone. */
  lemma ConnectionsComeAndGo(s: State, e: Event)
    requires Enabled(s, e)
    ensures var s' := Next(s, e);
            match e
            case Connect(id, m, c, frames) =>
              && s'.conns == s.conns[id := Conn(m, c, [], Loading(frames))] && s'.handlers == s.handlers
              && PlainReplay(frames, WorldOf(s, c), s.now)
            case Replay(id) =>
              && (forall other | other != id :: (other in s'.conns <==> other in s.conns)
                                                && (other in s.conns ==> s'.conns[other] == s.conns[other]))
              && id in s'.conns && s'.conns[id].replay.Replayed?
              && s'.conns[id].inbox == s.conns[id].inbox + s.conns[id].replay.frames
              && s'.worlds == s.worlds && s'.handlers == s.handlers
            case Close(id) => s' == s.(conns := s.conns - {id}) && id !in s'.conns
            case Tick(t) => s' == s.(now := t)
            case SetLeader(c, m) => c in s'.leaders && s'.leaders[c] == m && s'.conns == s.conns && s'.worlds == s.worlds
            case _ => true
  {
    if e.Connect? {
      ReplayIsPlain(e.frames, WorldOf(s, e.convoy), s.now);
    }
  }
}
