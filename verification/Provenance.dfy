/** Who may have caused what, in every interleaving of suspended frame handlers. */
module Provenance {
  import opened Wrappers
  import opened Wire
  import opened SnapshotStore
  import opened Agreement
  import opened Backplane

  /** Before state n, this frame was sent on a connection authenticated as this member of this convoy. */
  ghost predicate SentBy(states: seq<State>, events: seq<Event>, n: nat, member: MemberId, convoy: ConvoyId, frame: Frame)
    requires IsRun(states, events) && n <= |events|
  {
    exists j | 0 <= j < n :: IsMessageOf(states[j], events[j], member, convoy, frame)
  }

  predicate IsMessageOf(s: State, e: Event, member: MemberId, convoy: ConvoyId, frame: Frame) {
    e.Message? && e.frame == Some(frame) && e.conn in s.conns
    && s.conns[e.conn].member == member && s.conns[e.conn].convoy == convoy
  }

  /** From just after step j up to state n, handler h is this one, answered and waiting. */
  ghost predicate WaitsSince(states: seq<State>, j: nat, n: nat, h: HandlerId, hd: Handler)
    requires n < |states|
  {
    forall i | j < i <= n :: h in states[i].handlers && states[i].handlers[h] == hd
  }

  /** Its own check found this handler's member to be the convoy's owner. */
  ghost predicate LedAtCheck(states: seq<State>, events: seq<Event>, n: nat, h: HandlerId, hd: Handler)
    requires IsRun(states, events) && n <= |events|
  {
    exists j | 0 <= j < n :: events[j] == Answer(h) && WaitsSince(states, j, n, h, hd)
                             && hd.convoy in states[j].leaders && states[j].leaders[hd.convoy] == hd.member
  }

  /** Its own check found the hazard unknown, or reported by this handler's member. */
  ghost predicate MayRemove(states: seq<State>, events: seq<Event>, n: nat, h: HandlerId, hd: Handler)
    requires IsRun(states, events) && n <= |events| && hd.frame.HazardRemoveFrame?
  {
    exists j | 0 <= j < n :: events[j] == Answer(h) && WaitsSince(states, j, n, h, hd)
                             && ReporterIn(WorldOf(states[j], hd.convoy), hd.frame.hazardId) in {None, Some(hd.member)}
  }

  /** A suspended handler is genuine; a passed one has its own check behind it. */
  ghost predicate HandlerGenuine(states: seq<State>, events: seq<Event>, n: nat, h: HandlerId)
    requires IsRun(states, events) && n <= |events| && h in states[n].handlers
  {
    var hd := states[n].handlers[h];
    && SentBy(states, events, n, hd.member, hd.convoy, hd.frame)
    && (hd.check == Answered(true) ==>
          if hd.frame.HazardRemoveFrame? then MayRemove(states, events, n, h, hd)
          else LedAtCheck(states, events, n, h, hd))
  }

  /** Which handlers a step leaves behind. */
  lemma HandlerStep(s: State, e: Event, h: HandlerId)
    requires Enabled(s, e) && h in Next(s, e).handlers
    ensures var hd' := Next(s, e).handlers[h];
            || (h in s.handlers && hd' == s.handlers[h])
            || (IsMessageOf(s, e, hd'.member, hd'.convoy, hd'.frame) && hd'.check == Asking)
            || (e == Answer(h) && h in s.handlers
                && hd' == s.handlers[h].(check := Answered(Verdict(s, s.handlers[h]))))
  {
  }

  lemma {:induction false} HandlersGenuine(states: seq<State>, events: seq<Event>, n: nat, h: HandlerId)
    requires IsRun(states, events) && n <= |events| && h in states[n].handlers
    ensures HandlerGenuine(states, events, n, h)
  {
    if n > 0 {
      assert Follows(states, events, n - 1);
      HandlerStep(states[n - 1], events[n - 1], h);
      var hd := states[n].handlers[h];
      if h in states[n - 1].handlers {
        HandlersGenuine(states, events, n - 1, h);
      }
      if hd.check == Answered(true) {
        if events[n - 1] == Answer(h) {
          assert WaitsSince(states, n - 1, n, h, hd);
        } else {
          var j :| 0 <= j < n - 1 && events[j] == Answer(h) && WaitsSince(states, j, n - 1, h, hd)
                   && if hd.frame.HazardRemoveFrame?
                      then ReporterIn(WorldOf(states[j], hd.convoy), hd.frame.hazardId) in {None, Some(hd.member)}
                      else hd.convoy in states[j].leaders && states[j].leaders[hd.convoy] == hd.member;
          assert WaitsSince(states, j, n, h, hd);
        }
      }
    }
  }

  /** The handler that made a commit which needs a check. */
  function Resumed(s: State, e: Event): Handler
    requires e.Resume? && e.handler in s.handlers
  {
    s.handlers[e.handler]
  }

  /**
   Provenance of what a step publishes: it was sent on a connection authenticated as its origin, it claims
   no other originator, a route or waypoint passed its own leader check, and a removal its reporter check.
   */
  lemma CommitsAreGenuine(states: seq<State>, events: seq<Event>, k: nat, commit: Commit)
    requires IsRun(states, events) && k < |events|
    requires CommitOf(states[k], events[k]) == Some(commit)
    ensures SentBy(states, events, k + 1, commit.origin, commit.convoy, commit.frame)
    ensures OriginatorOf(commit.frame) in {None, Some(commit.origin)}
    ensures NeedsCheck(states[0].leaderGate, commit.frame) ==>
              && events[k].Resume? && events[k].handler in states[k].handlers
              && var hd := Resumed(states[k], events[k]);
              && hd == Handler(commit.origin, commit.convoy, commit.frame, Answered(true))
              && if commit.frame.HazardRemoveFrame? then MayRemove(states, events, k, events[k].handler, hd)
                 else LedAtCheck(states, events, k, events[k].handler, hd)
  {
    RunStaysSane(states, events, k);
    if events[k].Resume? {
      HandlersGenuine(states, events, k, events[k].handler);
    } else {
      assert IsMessageOf(states[k], events[k], commit.origin, commit.convoy, commit.frame);
    }
  }

  /** The same, spelled out frame by frame. */
  lemma NobodySpeaksForAnother(states: seq<State>, events: seq<Event>, k: nat, commit: Commit)
    requires IsRun(states, events) && k < |events|
    requires CommitOf(states[k], events[k]) == Some(commit)
    ensures match commit.frame
            case GpsFrame(gps) => gps.memberId == commit.origin
            case HazardFrame(hazard) => hazard.reporterId == commit.origin
            case CheckInFrame(checkIn) => checkIn.memberId == commit.origin
            case StatusFrame(status) => status.memberId == commit.origin
            case WaypointFrame(waypoint) => waypoint.Some? ==> waypoint.value.setBy == commit.origin
            case _ => true
    ensures (commit.frame.TourFrame? || commit.frame.WaypointFrame?) && states[0].leaderGate ==>
              && events[k].Resume? && events[k].handler in states[k].handlers
              && LedAtCheck(states, events, k, events[k].handler, Resumed(states[k], events[k]))
    ensures commit.frame.HazardRemoveFrame? ==>
              && events[k].Resume? && events[k].handler in states[k].handlers
              && Resumed(states[k], events[k]).frame.HazardRemoveFrame?
              && MayRemove(states, events, k, events[k].handler, Resumed(states[k], events[k]))
  {
    CommitsAreGenuine(states, events, k, commit);
  }

  // ---------------------------------------------------------------- recorded and delivered frames

  ghost predicate Committed(states: seq<State>, events: seq<Event>, n: nat, convoy: ConvoyId, frame: Frame)
    requires IsRun(states, events) && n <= |events|
  {
    exists j | 0 <= j < n :: CommitOf(states[j], events[j]).Some?
                             && CommitOf(states[j], events[j]).value.convoy == convoy
                             && CommitOf(states[j], events[j]).value.frame == frame
  }

  /** The frames that would rebuild what the world holds. */
  ghost predicate Holds(w: World, frame: Frame) {
    match frame
    case HazardFrame(h) => h.id in w.hazards && w.hazards[h.id] == h
    case TourFrame(t) => w.tour == Some(t)
    case WaypointFrame(p) => p.Some? && w.waypoint == p
    case _ => false
  }

  lemma {:induction false} RecordedFramesWereCommitted(
      states: seq<State>, events: seq<Event>, n: nat, convoy: ConvoyId, frame: Frame)
    requires IsRun(states, events) && n <= |events| && Holds(WorldOf(states[n], convoy), frame)
    ensures Committed(states, events, n, convoy, frame)
  {
    if n > 0 {
      assert Follows(states, events, n - 1);
      WorldStep(states[n - 1], events[n - 1], convoy);
      if Holds(WorldOf(states[n - 1], convoy), frame) {
        RecordedFramesWereCommitted(states, events, n - 1, convoy, frame);
      }
    }
  }

  lemma ReplayedFramesAreHeld(frames: seq<Frame>, w: World, now: Millis, frame: Frame)
    requires WellFormed(w) && IsReplay(frames, w, now) && frame in frames
    ensures Holds(w, frame)
  {
    ReplayMembers(frames, w, now);
  }

  lemma LoadedFramesAreHeld(states: seq<State>, events: seq<Event>, j: nat, frame: Frame)
    requires IsRun(states, events) && j < |events| && events[j].Connect? && frame in events[j].frames
    ensures Holds(WorldOf(states[j], events[j].convoy), frame)
  {
    RunStaysSane(states, events, j);
    assert WellFormed(EMPTY_WORLD);
    var w := WorldOf(states[j], events[j].convoy);
    assert Follows(states, events, j);
    ReplayedFramesAreHeld(events[j].frames, w, states[j].now, frame);
  }

  /** Where a connection's state comes from, one step back. */
  lemma ConnStep(s: State, e: Event, id: ConnId)
    requires Enabled(s, e) && id in Next(s, e).conns && id !in s.conns
    ensures e.Connect? && e.conn == id
    ensures Next(s, e).conns[id] == Conn(e.member, e.convoy, [], Loading(e.frames))
  {
  }

  lemma {:induction false} LoadingFramesWereCommitted(
      states: seq<State>, events: seq<Event>, n: nat, id: ConnId, frame: Frame)
    requires IsRun(states, events) && n <= |events| && id in states[n].conns
    requires states[n].conns[id].replay.Loading? && frame in states[n].conns[id].replay.frames
    ensures Committed(states, events, n, states[n].conns[id].convoy, frame)
  {
    if n > 0 {
      assert Follows(states, events, n - 1);
      if id in states[n - 1].conns {
        InboxStep(states[n - 1], events[n - 1], id);
        LoadingFramesWereCommitted(states, events, n - 1, id, frame);
      } else {
        ConnStep(states[n - 1], events[n - 1], id);
        LoadedFramesAreHeld(states, events, n - 1, frame);
        RecordedFramesWereCommitted(states, events, n - 1, states[n].conns[id].convoy, frame);
      }
    }
  }

  /**
   Whatever a connection has been sent, live or in its replay, is a frame some step committed in this very
   convoy, so CommitsAreGenuine applies to it.
   */
  lemma {:induction false} DeliveredFramesWereCommitted(
      states: seq<State>, events: seq<Event>, n: nat, id: ConnId, frame: Frame)
    requires IsRun(states, events) && n <= |events| && id in states[n].conns
    requires frame in states[n].conns[id].inbox
    ensures Committed(states, events, n, states[n].conns[id].convoy, frame)
  {
    if n > 0 {
      assert Follows(states, events, n - 1);
      if id in states[n - 1].conns {
        InboxStep(states[n - 1], events[n - 1], id);
        if frame in states[n - 1].conns[id].inbox {
          DeliveredFramesWereCommitted(states, events, n - 1, id, frame);
        } else if events[n - 1] == Replay(id) && CommitOf(states[n - 1], events[n - 1]).None? {
          LoadingFramesWereCommitted(states, events, n - 1, id, frame);
        }
      } else {
        ConnStep(states[n - 1], events[n - 1], id);
      }
    }
  }

  // ---------------------------------------------------------------- removals

  /** Every hazard ever sent under an id names the same reporter, as ids made by the clients do. */
  ghost predicate IdsDetermineReporters(events: seq<Event>, reporterOf: map<HazardId, MemberId>) {
    forall j | 0 <= j < |events| ::
      events[j].Message? && events[j].frame.Some? && events[j].frame.value.HazardFrame? ==>
        var hazard := events[j].frame.value.hazard;
        hazard.id in reporterOf && reporterOf[hazard.id] == hazard.reporterId
  }

  lemma StoredReporter(states: seq<State>, events: seq<Event>, n: nat, convoy: ConvoyId, id: HazardId,
                       reporterOf: map<HazardId, MemberId>)
    requires IsRun(states, events) && n <= |events| && IdsDetermineReporters(events, reporterOf)
    requires id in WorldOf(states[n], convoy).hazards
    ensures id in reporterOf && reporterOf[id] == WorldOf(states[n], convoy).hazards[id].reporterId
  {
    RunStaysSane(states, events, n);
    assert WellFormed(WorldOf(states[n], convoy));
    var frame := HazardFrame(WorldOf(states[n], convoy).hazards[id]);
    RecordedFramesWereCommitted(states, events, n, convoy, frame);
    var j :| 0 <= j < n && CommitOf(states[j], events[j]).Some? && CommitOf(states[j], events[j]).value.frame == frame;
    CommitsAreGenuine(states, events, j, CommitOf(states[j], events[j]).value);
  }

  /**
   If ids determine reporters, the reporter check leaves exactly one gap: a removal deletes a hazard of
   somebody else only if its own check found no hazard with this id.
   */
  lemma ForeignRemovalMeansUnknownAtCheck(
      states: seq<State>, events: seq<Event>, k: nat, commit: Commit, reporterOf: map<HazardId, MemberId>)
    requires IsRun(states, events) && k < |events| && IdsDetermineReporters(events, reporterOf)
    requires CommitOf(states[k], events[k]) == Some(commit) && commit.frame.HazardRemoveFrame?
    requires ReporterIn(WorldOf(states[k], commit.convoy), commit.frame.hazardId) !in {None, Some(commit.origin)}
    ensures events[k].Resume? && events[k].handler in states[k].handlers
    ensures exists j | 0 <= j < k :: events[j] == Answer(events[k].handler)
              && WaitsSince(states, j, k, events[k].handler, Resumed(states[k], events[k]))
              && ReporterIn(WorldOf(states[j], commit.convoy), commit.frame.hazardId) == None
  {
    var id := commit.frame.hazardId;
    CommitsAreGenuine(states, events, k, commit);
    StoredReporter(states, events, k, commit.convoy, id, reporterOf);
    var hd := Resumed(states[k], events[k]);
    var j :| 0 <= j < k && events[j] == Answer(events[k].handler)
             && WaitsSince(states, j, k, events[k].handler, hd)
             && ReporterIn(WorldOf(states[j], commit.convoy), id) in {None, Some(commit.origin)};
    if ReporterIn(WorldOf(states[j], commit.convoy), id).Some? {
      StoredReporter(states, events, j, commit.convoy, id, reporterOf);
    }
  }

  /** Step i commits something about this hazard in this convoy. */
  predicate IsAbout(s: State, e: Event, convoy: ConvoyId, id: HazardId) {
    var commit := CommitOf(s, e);
    commit.Some? && commit.value.convoy == convoy && id in Touch(UNTOUCHED, commit.value.frame).ids
  }

  /** A report and nothing else about its hazard: the step leaves `hazard` in the convoy's world. */
  predicate Reports(s: State, e: Event, convoy: ConvoyId, hazard: Hazard) {
    CommitOf(s, e) == Some(Commit(convoy, HazardFrame(hazard), hazard.reporterId))
  }

  predicate Kept(s: State, convoy: ConvoyId, hazard: Hazard) {
    hazard.id in WorldOf(s, convoy).hazards && WorldOf(s, convoy).hazards[hazard.id] == hazard
  }

  /** The step neither touches the hazard nor prunes it, which a new connection does once it has expired. */
  predicate Spares(s: State, e: Event, convoy: ConvoyId, hazard: Hazard) {
    !IsAbout(s, e, convoy, hazard.id) && (e.Connect? && e.convoy == convoy ==> !Expired(hazard, s.now))
  }

  lemma KeptStep(s: State, e: Event, convoy: ConvoyId, hazard: Hazard)
    requires Enabled(s, e) && !IsAbout(s, e, convoy, hazard.id)
    ensures Kept(Next(s, e), convoy, hazard) <==> Kept(s, convoy, hazard) && Spares(s, e, convoy, hazard)
  {
    WorldStep(s, e, convoy);
  }

  /** A step about a hazard leaves it in the world only by reporting it. */
  lemma AboutStep(s: State, e: Event, convoy: ConvoyId, hazard: Hazard)
    requires Enabled(s, e) && IsAbout(s, e, convoy, hazard.id)
    ensures Kept(Next(s, e), convoy, hazard)
            <==> CommitOf(s, e).value.frame == HazardFrame(hazard)
  {
    WorldStep(s, e, convoy);
  }

  ghost predicate SparedBetween(states: seq<State>, events: seq<Event>, i: nat, n: nat, convoy: ConvoyId, hazard: Hazard)
    requires n <= |events| < |states|
  {
    forall l | i < l < n :: Spares(states[l], events[l], convoy, hazard)
  }

  /** This hazard was reported in step i, and nothing removed, replaced or pruned it before state n. */
  ghost predicate ReportedAndSpared(states: seq<State>, events: seq<Event>, i: nat, n: nat, convoy: ConvoyId,
                                    hazard: Hazard)
    requires i < n <= |events| < |states|
  {
    Reports(states[i], events[i], convoy, hazard) && SparedBetween(states, events, i, n, convoy, hazard)
  }

  lemma ReporterIsOrigin(states: seq<State>, events: seq<Event>, i: nat, convoy: ConvoyId, hazard: Hazard)
    requires IsRun(states, events) && i < |events|
    requires CommitOf(states[i], events[i]).Some? && CommitOf(states[i], events[i]).value.convoy == convoy
    requires CommitOf(states[i], events[i]).value.frame == HazardFrame(hazard)
    ensures Reports(states[i], events[i], convoy, hazard)
  {
    CommitsAreGenuine(states, events, i, CommitOf(states[i], events[i]).value);
  }

  lemma {:induction false} SparedIsKept(
      states: seq<State>, events: seq<Event>, i: nat, n: nat, convoy: ConvoyId, hazard: Hazard)
    requires IsRun(states, events) && i < n <= |events| && ReportedAndSpared(states, events, i, n, convoy, hazard)
    ensures Kept(states[n], convoy, hazard)
    decreases n
  {
    assert Follows(states, events, n - 1);
    if n == i + 1 {
      AboutStep(states[i], events[i], convoy, hazard);
    } else {
      SparedIsKept(states, events, i, n - 1, convoy, hazard);
      assert Spares(states[n - 1], events[n - 1], convoy, hazard);
      KeptStep(states[n - 1], events[n - 1], convoy, hazard);
    }
  }

  /** A hazard that was not there at state j and is at state n has been reported in between. */
  lemma {:induction false} ReportedSince(
      states: seq<State>, events: seq<Event>, j: nat, n: nat, convoy: ConvoyId, hazard: Hazard)
    returns (i: nat)
    requires IsRun(states, events) && j < n <= |events|
    requires hazard.id !in WorldOf(states[j], convoy).hazards && Kept(states[n], convoy, hazard)
    ensures j <= i < n && ReportedAndSpared(states, events, i, n, convoy, hazard)
    decreases n
  {
    assert Follows(states, events, n - 1);
    if IsAbout(states[n - 1], events[n - 1], convoy, hazard.id) {
      i := n - 1;
      AboutStep(states[i], events[i], convoy, hazard);
      ReporterIsOrigin(states, events, i, convoy, hazard);
    } else {
      KeptStep(states[n - 1], events[n - 1], convoy, hazard);
      i := ReportedSince(states, events, j, n - 1, convoy, hazard);
    }
  }

  /** Step k removes a hazard that is another member's. */
  ghost predicate RemovesForeign(states: seq<State>, k: nat, commit: Commit)
    requires k < |states| && commit.frame.HazardRemoveFrame?
  {
    ReporterIn(WorldOf(states[k], commit.convoy), commit.frame.hazardId) !in {None, Some(commit.origin)}
  }

  /** Step j is the check behind the removal in step k. */
  ghost predicate IsCheckOf(states: seq<State>, events: seq<Event>, j: nat, k: nat)
    requires k < |events| < |states|
  {
    && j < k && events[k].Resume? && events[k].handler in states[k].handlers
    && events[j] == Answer(events[k].handler)
    && WaitsSince(states, j, k, events[k].handler, Resumed(states[k], events[k]))
  }

  lemma CheckFoundNothingForeign(states: seq<State>, events: seq<Event>, j: nat, k: nat, commit: Commit)
    requires IsRun(states, events) && k < |events| && IsCheckOf(states, events, j, k)
    requires CommitOf(states[k], events[k]) == Some(commit) && commit.frame.HazardRemoveFrame?
    ensures !RemovesForeign(states, j, commit)
  {
    assert Follows(states, events, j);
    HandlerStep(states[j], events[j], events[k].handler);
  }

  /**
   If ids determine reporters, exactly when the reporter check fails to protect: a removal deletes a hazard
   of somebody else if and only if that hazard was reported after the removal's own check, by that somebody,
   and was still untouched when the removal was carried out.
   */
  lemma RemovalIsForeignExactlyWhen(
      states: seq<State>, events: seq<Event>, j: nat, k: nat, commit: Commit, reporterOf: map<HazardId, MemberId>)
    requires IsRun(states, events) && k < |events| && IdsDetermineReporters(events, reporterOf)
    requires CommitOf(states[k], events[k]) == Some(commit) && commit.frame.HazardRemoveFrame?
    requires IsCheckOf(states, events, j, k)
    ensures RemovesForeign(states, k, commit)
            <==> exists i: nat, hazard: Hazard :: j < i < k && ReportedAndSpared(states, events, i, k, commit.convoy, hazard)
                   && hazard.id == commit.frame.hazardId && hazard.reporterId != commit.origin
  {
    var id := commit.frame.hazardId;
    if RemovesForeign(states, k, commit) {
      CheckFoundNothingForeign(states, events, j, k, commit);
      StoredReporter(states, events, k, commit.convoy, id, reporterOf);
      if id in WorldOf(states[j], commit.convoy).hazards {
        StoredReporter(states, events, j, commit.convoy, id, reporterOf);
      }
      RunStaysSane(states, events, k);
      var hazard := WorldOf(states[k], commit.convoy).hazards[id];
      assert WellFormed(WorldOf(states[k], commit.convoy));
      var i := ReportedSince(states, events, j, k, commit.convoy, hazard);
      assert i != j;
    }
    if i: nat, hazard: Hazard :| (j < i < k && ReportedAndSpared(states, events, i, k, commit.convoy, hazard)
                                  && hazard.id == id && hazard.reporterId != commit.origin) {
      SparedIsKept(states, events, i, k, commit.convoy, hazard);
    }
  }

  /**
   So with no report of another member committed to the convoy between check and removal, no removal deletes
   another member's hazard. The in-memory store is always in this case: its answer is there at once, so the
   removal goes on before another socket is read, and a report is committed as soon as it is read.
   */
  lemma PromptRemovalIsOwn(
      states: seq<State>, events: seq<Event>, j: nat, k: nat, commit: Commit, reporterOf: map<HazardId, MemberId>)
    requires IsRun(states, events) && k < |events| && IdsDetermineReporters(events, reporterOf)
    requires CommitOf(states[k], events[k]) == Some(commit) && commit.frame.HazardRemoveFrame?
    requires IsCheckOf(states, events, j, k)
    requires forall i, hazard: Hazard | j < i < k && Reports(states[i], events[i], commit.convoy, hazard) ::
               hazard.reporterId == commit.origin
    ensures !RemovesForeign(states, k, commit)
  {
    RemovalIsForeignExactlyWhen(states, events, j, k, commit, reporterOf);
  }

  /** Every removal has such a check. */
  lemma EveryRemovalWasChecked(states: seq<State>, events: seq<Event>, k: nat, commit: Commit) returns (j: nat)
    requires IsRun(states, events) && k < |events|
    requires CommitOf(states[k], events[k]) == Some(commit) && commit.frame.HazardRemoveFrame?
    ensures IsCheckOf(states, events, j, k)
  {
    CommitsAreGenuine(states, events, k, commit);
    var hd := Resumed(states[k], events[k]);
    j :| 0 <= j < k && events[j] == Answer(events[k].handler) && WaitsSince(states, j, k, events[k].handler, hd)
         && ReporterIn(WorldOf(states[j], hd.convoy), hd.frame.hazardId) in {None, Some(hd.member)};
  }

  // ---------------------------------------------------------------- the gap is real

  const PIN := Hazard("x", Obstacle, 0.0, 0.0, "A", 0, None, None)
  const REMOVAL := Handler("B", "c", HazardRemoveFrame("x"), Asking)
  const BOTH: map<ConnId, Conn> := map[0 := Conn("A", "c", [], Loading([])), 1 := Conn("B", "c", [], Loading([]))]
  const TOLD: map<ConnId, Conn> := map[0 := Conn("A", "c", [], Loading([])), 1 := Conn("B", "c", [HazardFrame(PIN)], Loading([]))]
  const PASSED: map<HandlerId, Handler> := map[0 := REMOVAL.(check := Answered(true))]
  const HELD: map<ConvoyId, World> := map["c" := World(map["x" := PIN], None, None)]

  /**
   B's removal is checked before A's report arrives, and carried out after it. A socket event between check
   and removal needs a store that answers over the network: this is a gateway on RedisSnapshotStore, for
   which `worlds` stands as long as the store answers like the in-memory one (StoresAnswerAlike there).
   */
  function GapEvents(): seq<Event> {
    [ Connect(0, "A", "c", []), Connect(1, "B", "c", []),
      Message(1, 0, Some(HazardRemoveFrame("x"))), Answer(0),
      Message(0, 1, Some(HazardFrame(PIN))), Resume(0) ]
  }

  ghost function GapStates(): seq<State> {
    [ InitialState(true),
      State(true, 0, map[], map[0 := Conn("A", "c", [], Loading([]))], map[], map[]),
      State(true, 0, map[], BOTH, map[], map[]),
      State(true, 0, map[], BOTH, map[0 := REMOVAL], map[]),
      State(true, 0, map[], BOTH, PASSED, map[]),
      State(true, 0, HELD, TOLD, PASSED, map[]),
      Next(State(true, 0, HELD, TOLD, PASSED, map[]), Resume(0)) ]
  }

  lemma GapConnects()
    ensures forall i | 0 <= i < 2 :: Enabled(GapStates()[i], GapEvents()[i])
    ensures forall i | 0 <= i < 2 :: GapStates()[i + 1] == Next(GapStates()[i], GapEvents()[i])
  {
    assert ReplayFrames(EMPTY_WORLD, 0) == {};
  }

  lemma GapCheck()
    ensures forall i | 2 <= i < 4 :: Enabled(GapStates()[i], GapEvents()[i])
    ensures forall i | 2 <= i < 4 :: GapStates()[i + 1] == Next(GapStates()[i], GapEvents()[i])
  {
    assert Verdict(GapStates()[3], REMOVAL);
    assert map[0 := REMOVAL][0 := REMOVAL.(check := Answered(true))] == PASSED;
  }

  lemma GapReport()
    ensures Enabled(GapStates()[4], GapEvents()[4])
    ensures GapStates()[5] == Next(GapStates()[4], GapEvents()[4])
  {
    assert [] + [HazardFrame(PIN)] == [HazardFrame(PIN)];
    assert FanOut(BOTH, "c", HazardFrame(PIN), "A") == TOLD;
    assert RecordFrame(EMPTY_WORLD, HazardFrame(PIN)) == HELD["c"];
  }

  lemma GapRemoval()
    ensures Enabled(GapStates()[5], GapEvents()[5])
    ensures GapStates()[6] == Next(GapStates()[5], GapEvents()[5])
  {
  }

  /** A run in which a removal checked too early deletes the report of somebody else. */
  lemma ForeignRemovalHappens()
    ensures exists states, events, k: nat, commit ::
              && IsRun(states, events) && k < |events|
              && CommitOf(states[k], events[k]) == Some(commit) && commit.frame.HazardRemoveFrame?
              && ReporterIn(WorldOf(states[k], commit.convoy), commit.frame.hazardId) !in {None, Some(commit.origin)}
  {
    GapConnects();
    GapCheck();
    GapReport();
    GapRemoval();
    forall i: nat | i < |GapEvents()| ensures Follows(GapStates(), GapEvents(), i) {
    }
    assert IsRun(GapStates(), GapEvents());
    assert CommitOf(GapStates()[5], GapEvents()[5]) == Some(Commit("c", HazardRemoveFrame("x"), "B"));
  }
}
