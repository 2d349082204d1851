/** A listener's app and the server's snapshot show the same world, in every run. */
module ReplicaAgreement {
  import opened Wrappers
  import opened Wire
  import opened SnapshotStore
  import opened ConvoyView
  import opened Agreement
  import opened Backplane

  /**
   One listener in a run: connection `id` is registered by step `joined`, gets its replay at step
   `replayed`, and stays connected up to state `last`. Its app may prune before any step. What it shows when
   it registers is open: nothing for a newcomer, the old list for a member that lost its connection.
   */
  datatype Session = Session(
    states: seq<State>, events: seq<Event>, id: ConnId, member: MemberId, convoy: ConvoyId,
    joined: nat, replayed: nat, last: nat, views: seq<View>, prunes: seq<bool>)

  function Arrived(before: Conn, after: Conn): seq<Frame> {
    if |before.inbox| <= |after.inbox| then after.inbox[|before.inbox|..] else []
  }

  /** The app at state k + 1: whatever it pruned, then everything that arrived in step k. */
  ghost predicate ViewFollows(x: Session, k: nat)
    requires k + 1 < |x.states| && k + 1 < |x.views| && k < |x.prunes|
  {
    && x.id in x.states[k].conns && x.id in x.states[k + 1].conns
    && x.views[k + 1] == ReceiveAll(
         if x.prunes[k] then PruneView(x.views[k], x.states[k].now) else x.views[k],
         Arrived(x.states[k].conns[x.id], x.states[k + 1].conns[x.id]))
  }

  /** Step k commits nothing of the member's in this convoy. */
  ghost predicate Silent(x: Session, k: nat)
    requires k < |x.events| < |x.states|
  {
    var commit := CommitOf(x.states[k], x.events[k]);
    commit.Some? && commit.value.convoy == x.convoy ==> commit.value.origin != x.member
  }

  /** The member commits nothing in this convoy while listening, on any of its connections. */
  ghost predicate NeverSends(x: Session)
    requires |x.states| == |x.events| + 1 && x.last <= |x.events|
  {
    forall k | x.joined < k < x.last :: Silent(x, k)
  }

  ghost predicate Listens(x: Session) {
    && IsRun(x.states, x.events)
    && |x.views| == |x.states| && |x.prunes| == |x.events|
    && x.joined < x.replayed < x.last <= |x.events|
    && x.events[x.joined].Connect? && x.events[x.joined].conn == x.id
    && x.events[x.joined].member == x.member && x.events[x.joined].convoy == x.convoy
    && x.events[x.replayed] == Replay(x.id)
    && DistinctIds(x.views[x.joined + 1].hazards)
    && (forall k | x.joined < k < x.last :: ViewFollows(x, k))
    && (forall k | x.joined < k < x.replayed :: x.events[k] != Replay(x.id))
    && NeverSends(x)
  }

  function ServerWorld(x: Session, k: nat): World
    requires k < |x.states|
  {
    WorldOf(x.states[k], x.convoy)
  }

  /** The world the replay was built from. */
  function Base(x: Session): World
    requires x.joined < |x.states|
  {
    WorldOf(x.states[x.joined], x.convoy)
  }

  /** The step relation, one step at a time. */
  lemma StepAt(x: Session, k: nat)
    requires Listens(x) && k < |x.events|
    ensures Enabled(x.states[k], x.events[k]) && x.states[k + 1] == Next(x.states[k], x.events[k])
  {
    assert Follows(x.states, x.events, k);
  }

  ghost predicate Registered(s: State, x: Session, loading: bool)
    requires x.joined < |x.events| && x.events[x.joined].Connect?
  {
    && x.id in s.conns
    && s.conns[x.id].member == x.member && s.conns[x.id].convoy == x.convoy
    && s.conns[x.id].replay == if loading then Loading(x.events[x.joined].frames) else Replayed
  }

  lemma RegisteredStep(s: State, e: Event, x: Session, loading: bool)
    requires x.joined < |x.events| && x.events[x.joined].Connect?
    requires Enabled(s, e) && Registered(s, x, loading) && x.id in Next(s, e).conns
    ensures e == Replay(x.id) ==> loading
    ensures Registered(Next(s, e), x, loading && e != Replay(x.id))
  {
  }

  /** Registration is remembered, and the replay is the one loaded then. */
  lemma {:induction false} ConnectionStays(x: Session, k: nat)
    requires Listens(x) && x.joined < k <= x.last
    ensures Registered(x.states[k], x, k <= x.replayed)
  {
    StepAt(x, k - 1);
    if k == x.joined + 1 {
      ConnectStep(x.states[k - 1], x.events[k - 1]);
    } else {
      ConnectionStays(x, k - 1);
      assert ViewFollows(x, k - 1);
      RegisteredStep(x.states[k - 1], x.events[k - 1], x, k - 1 <= x.replayed);
    }
  }

  /** One step after registration, on the view's side: an optional prune, then the step's frames. */
  lemma ViewStep(x: Session, k: nat)
    requires Listens(x) && x.joined < k < x.last
    requires DistinctIds(x.views[k].hazards)
    ensures DistinctIds(x.views[k + 1].hazards)
    ensures var shown := WorldShown(x.views[k]);
            var pruned := if x.prunes[k] then PruneExpired(shown, x.states[k].now) else shown;
            var commit := CommitOf(x.states[k], x.events[k]);
            WorldShown(x.views[k + 1]) ==
              if x.events[k] == Replay(x.id) then RecordAll(pruned, x.events[x.joined].frames)
              else if commit.Some? && commit.value.convoy == x.convoy then RecordFrame(pruned, commit.value.frame)
              else pruned
  {
    ConnectionStays(x, k);
    StepAt(x, k);
    assert ViewFollows(x, k) && Silent(x, k);
    var s, e := x.states[k], x.events[k];
    InboxStep(s, e, x.id);
    var v := if x.prunes[k] then PruneView(x.views[k], s.now) else x.views[k];
    ClientPruneIsServerPrune(x.views[k], s.now);
    var arrived := Arrived(s.conns[x.id], x.states[k + 1].conns[x.id]);
    ClientFoldsAreServerFolds(v, arrived);
    var commit := CommitOf(s, e);
    if e == Replay(x.id) {
      assert arrived == s.conns[x.id].replay.frames;
    } else if commit.Some? && commit.value.convoy == x.convoy {
      assert arrived == [commit.value.frame];
      assert RecordAll(WorldShown(v), arrived) == RecordFrame(WorldShown(v), commit.value.frame);
    } else {
      assert arrived == [];
    }
  }

  /** What the app showed when it registered. */
  function Earlier(x: Session): World
    requires x.joined + 1 < |x.views|
  {
    WorldShown(x.views[x.joined + 1])
  }

  /** What the commits to the convoy between registration and state k were about. */
  function TouchedBy(x: Session, k: nat): Touched
    requires x.joined < k <= |x.events| < |x.states|
  {
    if k == x.joined + 1 then UNTOUCHED
    else
      var commit := CommitOf(x.states[k - 1], x.events[k - 1]);
      if commit.Some? && commit.value.convoy == x.convoy then Touch(TouchedBy(x, k - 1), commit.value.frame)
      else TouchedBy(x, k - 1)
  }

  /** One committed or idle step keeps both sides in the relation of the window. */
  lemma WindowStep(c: World, s: World, s': World, earlier: World, w0: World, t0: Millis, now: Millis, later: Millis,
                   frame: Option<Frame>, prunes: bool, t: Touched)
    requires Meanwhile(c, s, earlier, w0, t0, now, t) && now <= later
    requires match frame
             case Some(f) => s' == RecordFrame(s, f)
             case None => s' == s || s' == PruneExpired(s, now)
    ensures var pruned := if prunes then PruneExpired(c, now) else c;
            match frame
            case Some(f) => Meanwhile(RecordFrame(pruned, f), s', earlier, w0, t0, later, Touch(t, f))
            case None => Meanwhile(pruned, s', earlier, w0, t0, later, t)
  {
    PruneAndTimeKeepMeanwhile(c, s, earlier, w0, t0, now, now, now, t);
    var pruned := if prunes then PruneExpired(c, now) else c;
    match frame
    case Some(f) =>
      RecordKeepsMeanwhile(pruned, s, earlier, w0, f, t0, now, t);
      PruneAndTimeKeepMeanwhile(RecordFrame(pruned, f), s', earlier, w0, t0, now, now, later, Touch(t, f));
    case None =>
      PruneAndTimeKeepMeanwhile(pruned, s, earlier, w0, t0, now, now, later, t);
  }

  /**
   While the replay is under way the client has, of everything the replay is silent about, exactly what was
   committed meanwhile and what it showed before.
   */
  lemma {:induction false} WindowInvariant(x: Session, k: nat)
    requires Listens(x) && x.joined < k <= x.replayed
    ensures DistinctIds(x.views[k].hazards)
    ensures Meanwhile(WorldShown(x.views[k]), ServerWorld(x, k), Earlier(x), Base(x), x.states[x.joined].now,
                      x.states[k].now, TouchedBy(x, k))
  {
    var t0 := x.states[x.joined].now;
    ServerStep(x, k - 1);
    if k == x.joined + 1 {
      RegisteredMeanwhile(Earlier(x), Base(x), t0, t0);
      WindowStep(Earlier(x), Base(x), ServerWorld(x, k), Earlier(x), Base(x), t0, t0, x.states[k].now, None, false,
                 UNTOUCHED);
    } else {
      WindowInvariant(x, k - 1);
      ViewStep(x, k - 1);
      var commit := CommitOf(x.states[k - 1], x.events[k - 1]);
      var frame := if commit.Some? && commit.value.convoy == x.convoy then Some(commit.value.frame) else None;
      WindowStep(WorldShown(x.views[k - 1]), ServerWorld(x, k - 1), ServerWorld(x, k), Earlier(x), Base(x), t0,
                 x.states[k - 1].now, x.states[k].now, frame, x.prunes[k - 1], TouchedBy(x, k - 1));
    }
  }

  lemma WellFormedWorlds(x: Session, k: nat)
    requires Listens(x) && k < |x.states|
    ensures WellFormed(ServerWorld(x, k))
  {
    RunStaysSane(x.states, x.events, k);
    assert WellFormed(EMPTY_WORLD);
  }

  lemma BaseIsReplayed(x: Session)
    requires Listens(x)
    ensures WellFormed(Base(x)) && IsReplay(x.events[x.joined].frames, Base(x), x.states[x.joined].now)
  {
    WellFormedWorlds(x, x.joined);
    StepAt(x, x.joined);
  }

  lemma ReplayLeavesWorlds(x: Session)
    requires Listens(x)
    ensures ServerWorld(x, x.replayed + 1) == ServerWorld(x, x.replayed)
    ensures x.states[x.replayed + 1].now == x.states[x.replayed].now
  {
    StepAt(x, x.replayed);
  }

  /** Time passes forwards only, and only a commit changes what a convoy's world holds actively. */
  lemma ServerStep(x: Session, k: nat)
    requires Listens(x) && k < |x.events|
    ensures x.states[k].now <= x.states[k + 1].now
    ensures var w, w' := ServerWorld(x, k), ServerWorld(x, k + 1);
            match CommitOf(x.states[k], x.events[k])
            case Some(commit) => w' == if commit.convoy == x.convoy then RecordFrame(w, commit.frame) else w
            case None => w' == w || w' == PruneExpired(w, x.states[k].now)
  {
    RunStaysSane(x.states, x.events, k);
    StepAt(x, k);
    StepKeepsSane(x.states[k], x.events[k]);
    WorldStep(x.states[k], x.events[k], x.convoy);
  }

  /** Nothing the replay carries was changed while it was under way, and nothing shown before is left over. */
  ghost predicate ReplayRepairs(x: Session)
    requires Listens(x)
  {
    && ReplayStillTrue(Base(x), ServerWorld(x, x.replayed), x.states[x.joined].now, x.states[x.replayed].now)
    && NothingLeftOver(Earlier(x), Base(x), x.states[x.joined].now, x.states[x.replayed].now, TouchedBy(x, x.replayed))
  }

  /**
   Exactly when connecting works, for newcomers and for members that come back: right after the replay the
   app shows what the server holds if and only if, between registration and replay, nothing the replay
   carries was changed, and nothing the app showed before is left over.
   */
  lemma JoinIsSafeExactlyWhen(x: Session)
    requires Listens(x)
    ensures Agrees(x.views[x.replayed + 1], ServerWorld(x, x.replayed + 1), x.states[x.replayed + 1].now)
            <==> ReplayRepairs(x)
  {
    var b, t0 := x.replayed, x.states[x.joined].now;
    WindowInvariant(x, b);
    ViewStep(x, b);
    BaseIsReplayed(x);
    ReplayLeavesWorlds(x);
    WellFormedWorlds(x, b);
    var client, server, now := WorldShown(x.views[b]), ServerWorld(x, b), x.states[b].now;
    var t := TouchedBy(x, b);
    var pruned := if x.prunes[b] then PruneExpired(client, now) else client;
    PruneAndTimeKeepMeanwhile(client, server, Earlier(x), Base(x), t0, now, now, now, t);
    JoinAgreement(pruned, server, Earlier(x), Base(x), x.events[x.joined].frames, t0, now, t);
    ViewAgreement(x.views[b + 1], ServerWorld(x, b + 1), x.states[b + 1].now);
  }

  /** For a newcomer only the replay's own content matters. */
  lemma NewcomerIsSafeExactlyWhen(x: Session)
    requires Listens(x) && x.views[x.joined + 1] == NOTHING_SHOWN
    ensures Agrees(x.views[x.replayed + 1], ServerWorld(x, x.replayed + 1), x.states[x.replayed + 1].now)
            <==> ReplayStillTrue(Base(x), ServerWorld(x, x.replayed),
                                 x.states[x.joined].now, x.states[x.replayed].now)
  {
    JoinIsSafeExactlyWhen(x);
    assert WorldShown(NOTHING_SHOWN) == EMPTY_WORLD;
  }

  lemma ReplaysOnce(x: Session, k: nat)
    requires Listens(x) && x.replayed < k < x.last
    ensures x.events[k] != Replay(x.id)
  {
    ConnectionStays(x, k);
    StepAt(x, k);
  }

  /** Agreement, once reached, survives every later step. */
  lemma {:induction false} AgreementLasts(x: Session, k: nat)
    requires Listens(x) && x.replayed < k <= x.last
    requires WorldsAgree(WorldShown(x.views[x.replayed + 1]), ServerWorld(x, x.replayed + 1),
                         x.states[x.replayed + 1].now)
    requires DistinctIds(x.views[x.replayed + 1].hazards)
    ensures DistinctIds(x.views[k].hazards)
    ensures WorldsAgree(WorldShown(x.views[k]), ServerWorld(x, k), x.states[k].now)
  {
    if k > x.replayed + 1 {
      AgreementLasts(x, k - 1);
      ViewStep(x, k - 1);
      ReplaysOnce(x, k - 1);
      ServerStep(x, k - 1);
      var client, server := WorldShown(x.views[k - 1]), ServerWorld(x, k - 1);
      var then_, now := x.states[k - 1].now, x.states[k].now;
      PruneAndTimeKeepAgreement(client, server, then_, then_, then_);
      var pruned := if x.prunes[k - 1] then PruneExpired(client, then_) else client;
      var commit := CommitOf(x.states[k - 1], x.events[k - 1]);
      if commit.Some? && commit.value.convoy == x.convoy {
        RecordKeepsAgreement(pruned, server, commit.value.frame, then_);
      }
      var client', server' := WorldShown(x.views[k]), ServerWorld(x, k);
      if server' == server || (commit.Some? && commit.value.convoy == x.convoy) {
        PruneAndTimeKeepAgreement(client', server', then_, then_, now);
      } else {
        PruneAndTimeKeepAgreement(client', server, then_, then_, now);
      }
    }
  }

  /**
   Replica agreement, in every run and for every listener, whatever it showed before: after its replay it
   shows in every later state exactly the hazards active then, the route and the waypoint the server holds,
   if and only if the replay repaired it.
   */
  lemma ReplicasAgree(x: Session)
    requires Listens(x)
    ensures (forall k | x.replayed < k <= x.last :: Agrees(x.views[k], ServerWorld(x, k), x.states[k].now))
            <==> ReplayRepairs(x)
  {
    JoinIsSafeExactlyWhen(x);
    WellFormedWorlds(x, x.replayed + 1);
    if ReplayRepairs(x) {
      ViewAgreement(x.views[x.replayed + 1], ServerWorld(x, x.replayed + 1), x.states[x.replayed + 1].now);
      forall k | x.replayed < k <= x.last ensures Agrees(x.views[k], ServerWorld(x, k), x.states[k].now) {
        AgreementLasts(x, k);
        WellFormedWorlds(x, k);
        ViewAgreement(x.views[k], ServerWorld(x, k), x.states[k].now);
      }
    }
  }

  /** No commit to the convoy while the replay is under way is enough, whatever else happens then. */
  lemma {:induction false} QuietJoinIsSafe(x: Session, k: nat)
    requires Listens(x) && x.joined < k <= x.replayed
    requires forall i | x.joined < i < k :: Idle(x, i)
    ensures ReplayStillTrue(Base(x), ServerWorld(x, k), x.states[x.joined].now, x.states[k].now)
    decreases k
  {
    ServerStep(x, k - 1);
    var t0 := x.states[x.joined].now;
    if k == x.joined + 1 {
      StepAt(x, x.joined);
    } else {
      QuietJoinIsSafe(x, k - 1);
      assert Idle(x, k - 1);
      TrueReplayLasts(Base(x), ServerWorld(x, k - 1), ServerWorld(x, k), t0, x.states[k - 1].now, x.states[k].now);
    }
  }

  /** Step i commits nothing to the convoy. */
  ghost predicate Idle(x: Session, i: nat)
    requires i < |x.events| < |x.states|
  {
    CommitOf(x.states[i], x.events[i]).None? || CommitOf(x.states[i], x.events[i]).value.convoy != x.convoy
  }

  lemma {:induction false} IdleTouchesNothing(x: Session, k: nat)
    requires x.joined < k <= |x.events| < |x.states| && forall i | x.joined < i < k :: Idle(x, i)
    ensures TouchedBy(x, k) == UNTOUCHED
    decreases k
  {
    if k > x.joined + 1 {
      IdleTouchesNothing(x, k - 1);
      assert Idle(x, k - 1);
    }
  }

  /**
   A member that comes back without commits in the window is repaired if and only if nothing it showed was
   withdrawn in its absence: every id the replay does not carry has expired, and a route or waypoint it shows
   is one the server still has.
   */
  lemma QuietReturnIsSafeExactlyWhen(x: Session)
    requires Listens(x) && forall i | x.joined < i < x.replayed :: Idle(x, i)
    ensures Agrees(x.views[x.replayed + 1], ServerWorld(x, x.replayed + 1), x.states[x.replayed + 1].now)
            <==> && (forall id | !Carries(Base(x), x.states[x.joined].now, id) ::
                       ActiveAt(Earlier(x), id, x.states[x.replayed].now).None?)
                 && (Earlier(x).tour.Some? ==> ServerWorld(x, x.replayed).tour.Some?)
                 && (Earlier(x).waypoint.Some? ==> ServerWorld(x, x.replayed).waypoint.Some?)
  {
    JoinIsSafeExactlyWhen(x);
    QuietJoinIsSafe(x, x.replayed);
    IdleTouchesNothing(x, x.replayed);
    WindowInvariant(x, x.replayed);
  }

  lemma TrueReplayLasts(w0: World, w: World, w': World, then_: Millis, now: Millis, later: Millis)
    requires ReplayStillTrue(w0, w, then_, now) && now <= later
    requires w' == w || w' == PruneExpired(w, now)
    ensures ReplayStillTrue(w0, w', then_, later)
  {
    forall id | Carries(w0, then_, id) ensures ActiveAt(w', id, later) == ActiveAt(w0, id, later) {
      assert ActiveAt(w, id, now) == ActiveAt(w0, id, now);
    }
  }
}
