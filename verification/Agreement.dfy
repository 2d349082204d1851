/**
 When two copies of the world agree on what is active, and what keeps them agreeing. Used for a listener's
 view against the server's snapshot.
 */
module Agreement {
  import opened Wrappers
  import opened Wire
  import opened SnapshotStore
  import opened ConvoyView

  /** The hazard with this id if it is active now. */
  function ActiveAt(w: World, id: HazardId, now: Millis): Option<Hazard> {
    if id in w.hazards && !Expired(w.hazards[id], now) then Some(w.hazards[id]) else None
  }

  ghost predicate WorldsAgree(a: World, b: World, now: Millis) {
    && (forall id :: ActiveAt(a, id, now) == ActiveAt(b, id, now))
    && a.tour == b.tour
    && a.waypoint == b.waypoint
  }

  /** What the app shows is what the server would replay now: the same active hazards, each listed once. */
  ghost predicate Agrees(v: View, w: World, now: Millis) {
    && DistinctIds(v.hazards)
    && (forall h: Hazard :: (h in v.hazards && IsActiveAt(h, now))
                            <==> HazardFrame(h) in ReplayFrames(w, now))
    && v.tour.stops == (if w.tour.Some? then w.tour.value.stops else [])
    && v.waypoint == w.waypoint
  }

  lemma ViewAgreement(v: View, w: World, now: Millis)
    requires DistinctIds(v.hazards) && WellFormed(w)
    ensures WorldsAgree(WorldShown(v), w, now) <==> Agrees(v, w, now)
  {
    ByIdKeyed(v.hazards);
    var shown := WorldShown(v);
    forall h: Hazard
      ensures h in v.hazards && IsActiveAt(h, now) <==> ActiveAt(shown, h.id, now) == Some(h)
      ensures HazardFrame(h) in ReplayFrames(w, now) <==> ActiveAt(w, h.id, now) == Some(h)
    {
      assert HazardFrame(h) in ReplayFrames(w, now) <==> HazardFrame(h) in HazardFrames(w, w.hazards.Keys, now);
    }
    if Agrees(v, w, now) {
      forall id ensures ActiveAt(shown, id, now) == ActiveAt(w, id, now) {
        if ActiveAt(shown, id, now).Some? {
          assert ActiveAt(shown, id, now).value.id == id;
        }
        if ActiveAt(w, id, now).Some? {
          assert ActiveAt(w, id, now).value.id == id;
        }
      }
    }
  }

  lemma RecordKeepsAgreement(a: World, b: World, frame: Frame, now: Millis)
    requires WorldsAgree(a, b, now)
    ensures WorldsAgree(RecordFrame(a, frame), RecordFrame(b, frame), now)
  {
    forall id
      ensures ActiveAt(RecordFrame(a, frame), id, now) == ActiveAt(RecordFrame(b, frame), id, now)
    {
      assert ActiveAt(a, id, now) == ActiveAt(b, id, now);
    }
  }

  /** Pruning at an earlier instant is invisible later on, and so is waiting. */
  lemma PruneAndTimeKeepAgreement(a: World, b: World, then_: Millis, now: Millis, later: Millis)
    requires WorldsAgree(a, b, now) && then_ <= later && now <= later
    ensures WorldsAgree(a, b, later)
    ensures WorldsAgree(PruneExpired(a, then_), b, later)
    ensures WorldsAgree(a, PruneExpired(b, then_), later)
  {
    forall id
      ensures ActiveAt(a, id, later) == ActiveAt(b, id, later)
      ensures ActiveAt(PruneExpired(a, then_), id, later) == ActiveAt(a, id, later)
      ensures ActiveAt(PruneExpired(b, then_), id, later) == ActiveAt(b, id, later)
    {
      assert ActiveAt(a, id, now) == ActiveAt(b, id, now);
    }
  }

  // ---------------------------------------------------------------- joining

  /** `w0` is what the replay was built from, at `then_`: the things the replay says something about. */
  predicate Carries(w0: World, then_: Millis, id: HazardId) {
    id in w0.hazards && !Expired(w0.hazards[id], then_)
  }

  /** Nothing the replay carries has been changed on the server since the replay was built. */
  ghost predicate ReplayStillTrue(w0: World, server: World, then_: Millis, now: Millis) {
    && (forall id :: Carries(w0, then_, id) ==> ActiveAt(server, id, now) == ActiveAt(w0, id, now))
    && (w0.tour.Some? ==> server.tour == w0.tour)
    && (w0.waypoint.Some? ==> server.waypoint == w0.waypoint)
  }

  /** What the frames committed since then were about. */
  datatype Touched = Touched(ids: set<HazardId>, tour: bool, waypoint: bool)

  const UNTOUCHED := Touched({}, false, false)

  function Touch(t: Touched, frame: Frame): Touched {
    match frame
    case HazardFrame(hazard) => t.(ids := t.ids + {hazard.id})
    case HazardRemoveFrame(id) => t.(ids := t.ids + {id})
    case TourFrame(_) => t.(tour := true)
    case WaypointFrame(_) => t.(waypoint := true)
    case _ => t
  }

  /**
   A client that showed `old` when it registered, while its replay of `w0` is under way: of everything the
   replay is silent about, both sides have what was committed meanwhile; the rest is as it was, with the
   client still holding on to `old` and the server to nothing.
   */
  ghost predicate Meanwhile(client: World, server: World, earlier: World, w0: World, then_: Millis, now: Millis, t: Touched) {
    && (forall id | !Carries(w0, then_, id) :: HazardMeanwhile(client, server, earlier, now, t, id))
    && (w0.tour.None? ==> if t.tour then client.tour == server.tour else client.tour == earlier.tour && server.tour.None?)
    && (w0.waypoint.None? ==>
          if t.waypoint then client.waypoint == server.waypoint
          else client.waypoint == earlier.waypoint && server.waypoint.None?)
  }

  ghost predicate HazardMeanwhile(client: World, server: World, earlier: World, now: Millis, t: Touched, id: HazardId) {
    if id in t.ids then ActiveAt(client, id, now) == ActiveAt(server, id, now)
    else ActiveAt(client, id, now) == ActiveAt(earlier, id, now) && ActiveAt(server, id, now).None?
  }

  lemma RegisteredMeanwhile(earlier: World, w0: World, then_: Millis, now: Millis)
    requires then_ <= now
    ensures Meanwhile(earlier, w0, earlier, w0, then_, now, UNTOUCHED)
  {
  }

  lemma RecordKeepsMeanwhile(c: World, s: World, earlier: World, w0: World, frame: Frame, then_: Millis, now: Millis,
                             t: Touched)
    requires Meanwhile(c, s, earlier, w0, then_, now, t)
    ensures Meanwhile(RecordFrame(c, frame), RecordFrame(s, frame), earlier, w0, then_, now, Touch(t, frame))
  {
    forall id | !Carries(w0, then_, id)
      ensures HazardMeanwhile(RecordFrame(c, frame), RecordFrame(s, frame), earlier, now, Touch(t, frame), id)
    {
      assert HazardMeanwhile(c, s, earlier, now, t, id);
    }
  }

  lemma PruneAndTimeKeepMeanwhile(
      c: World, s: World, earlier: World, w0: World, then_: Millis, p: Millis, now: Millis, later: Millis, t: Touched)
    requires Meanwhile(c, s, earlier, w0, then_, now, t) && p <= later && now <= later
    ensures Meanwhile(c, s, earlier, w0, then_, later, t)
    ensures Meanwhile(PruneExpired(c, p), s, earlier, w0, then_, later, t)
    ensures Meanwhile(c, PruneExpired(s, p), earlier, w0, then_, later, t)
  {
    forall id | !Carries(w0, then_, id)
      ensures HazardMeanwhile(c, s, earlier, later, t, id)
      ensures ActiveAt(PruneExpired(c, p), id, later) == ActiveAt(c, id, later)
      ensures ActiveAt(PruneExpired(s, p), id, later) == ActiveAt(s, id, later)
    {
      assert HazardMeanwhile(c, s, earlier, now, t, id);
    }
  }

  /**
   Nothing the client showed before is left over: what is neither in the replay nor replaced or withdrawn by
   a commit since is not active any more. A newcomer, which showed nothing, leaves nothing behind.
   */
  ghost predicate NothingLeftOver(earlier: World, w0: World, then_: Millis, now: Millis, t: Touched) {
    && (forall id | !Carries(w0, then_, id) && id !in t.ids :: ActiveAt(earlier, id, now).None?)
    && (w0.tour.None? && !t.tour ==> earlier.tour.None?)
    && (w0.waypoint.None? && !t.waypoint ==> earlier.waypoint.None?)
  }

  /** What a replay makes of the listener: it overwrites exactly the things it carries. */
  ghost predicate Overwritten(before: World, after: World, frames: seq<Frame>) {
    && (forall h: Hazard :: HazardFrame(h) in frames ==> h.id in after.hazards && after.hazards[h.id] == h)
    && (forall id :: (forall h: Hazard :: HazardFrame(h) in frames ==> h.id != id)
                     ==> (id in after.hazards <==> id in before.hazards)
                         && (id in after.hazards ==> after.hazards[id] == before.hazards[id]))
    && (forall t: Tour :: TourFrame(t) in frames && |t.stops| > 0 ==> after.tour == Some(t))
    && ((forall t: Tour :: TourFrame(t) !in frames) ==> after.tour == before.tour)
    && (forall p: Option<Waypoint> :: WaypointFrame(p) in frames ==> after.waypoint == p)
    && ((forall p: Option<Waypoint> :: WaypointFrame(p) !in frames) ==> after.waypoint == before.waypoint)
  }

  /** At most one frame for each thing, as in a snapshot. */
  ghost predicate SnapshotShaped(frames: seq<Frame>) {
    && (forall f | f in frames :: f.HazardFrame? || f.TourFrame? || f.WaypointFrame?)
    && (forall f, g :: f in frames && g in frames && f.HazardFrame? && g.HazardFrame? && f.hazard.id == g.hazard.id ==> f == g)
    && (forall f, g :: f in frames && g in frames && f.TourFrame? && g.TourFrame? ==> f == g)
    && (forall f, g :: f in frames && g in frames && f.WaypointFrame? && g.WaypointFrame? ==> f == g)
  }

  lemma {:induction false} ReplayOverwrites(before: World, frames: seq<Frame>)
    requires SnapshotShaped(frames)
    ensures Overwritten(before, RecordAll(before, frames), frames)
  {
    if frames != [] {
      var init, last := frames[..|frames| - 1], frames[|frames| - 1];
      assert forall f :: f in frames <==> f in init || f == last;
      ReplayOverwrites(before, init);
    }
  }

  lemma ReplayContents(frames: seq<Frame>, w0: World, then_: Millis)
    requires WellFormed(w0) && IsReplay(frames, w0, then_)
    ensures SnapshotShaped(frames)
    ensures forall h: Hazard :: HazardFrame(h) in frames
                                <==> Carries(w0, then_, h.id) && w0.hazards[h.id] == h
    ensures forall t: Tour :: TourFrame(t) in frames <==> w0.tour == Some(t)
    ensures forall p: Option<Waypoint> :: WaypointFrame(p) in frames <==> p.Some? && w0.waypoint == p
  {
    ReplayMembers(frames, w0, then_);
  }

  /** After the replay: its own word on what it carries, the client's on everything else. */
  lemma AfterReplay(client: World, w0: World, frames: seq<Frame>, then_: Millis, now: Millis)
    requires WellFormed(w0) && IsReplay(frames, w0, then_)
    ensures var after := RecordAll(client, frames);
            && (forall id :: ActiveAt(after, id, now)
                             == if Carries(w0, then_, id) then ActiveAt(w0, id, now) else ActiveAt(client, id, now))
            && after.tour == (if w0.tour.Some? then w0.tour else client.tour)
            && after.waypoint == (if w0.waypoint.Some? then w0.waypoint else client.waypoint)
  {
    ReplayContents(frames, w0, then_);
    ReplayOverwrites(client, frames);
    var after := RecordAll(client, frames);
    forall id
      ensures ActiveAt(after, id, now) == if Carries(w0, then_, id) then ActiveAt(w0, id, now) else ActiveAt(client, id, now)
    {
      if Carries(w0, then_, id) {
        assert HazardFrame(w0.hazards[id]) in frames;
      }
    }
    if w0.tour.Some? {
      assert TourFrame(w0.tour.value) in frames;
    }
    if w0.waypoint.Some? {
      assert WaypointFrame(w0.waypoint) in frames;
    }
  }

  /**
   The joining race, decided exactly, for whatever the client showed before: after the replay it agrees with
   the server if and only if nothing the replay carries was changed while it was under way, and nothing the
   client showed before is left over.
   */
  lemma JoinAgreement(client: World, server: World, earlier: World, w0: World, frames: seq<Frame>, then_: Millis,
                      now: Millis, t: Touched)
    requires WellFormed(w0) && IsReplay(frames, w0, then_)
    requires Meanwhile(client, server, earlier, w0, then_, now, t)
    ensures WorldsAgree(RecordAll(client, frames), server, now)
            <==> ReplayStillTrue(w0, server, then_, now) && NothingLeftOver(earlier, w0, then_, now, t)
  {
    AfterReplay(client, w0, frames, then_, now);
    var after := RecordAll(client, frames);
    forall id
      ensures ActiveAt(after, id, now) == ActiveAt(server, id, now)
              <==> && (Carries(w0, then_, id) ==> ActiveAt(server, id, now) == ActiveAt(w0, id, now))
                   && (!Carries(w0, then_, id) && id !in t.ids ==> ActiveAt(earlier, id, now).None?)
    {
      if !Carries(w0, then_, id) {
        assert HazardMeanwhile(client, server, earlier, now, t, id);
      }
    }
  }

  /**
   At one instant: a client that comes back with what it showed before is repaired by the replay if and only
   if nothing it still shows was withdrawn meanwhile, as a replay has no frame for a removed hazard or a
   cleared route. ReplicaAgreement has the statement about runs.
   */
  lemma ReconnectAgreement(client: World, w: World, frames: seq<Frame>, now: Millis)
    requires WellFormed(w) && IsReplay(frames, w, now)
    ensures WorldsAgree(RecordAll(client, frames), w, now)
            <==> && (forall id :: ActiveAt(client, id, now).Some? ==> ActiveAt(w, id, now).Some?)
                 && (client.tour.Some? ==> w.tour.Some?)
                 && (client.waypoint.Some? ==> w.waypoint.Some?)
  {
    AfterReplay(client, w, frames, now, now);
    var after := RecordAll(client, frames);
    if WorldsAgree(after, w, now) {
      forall id | ActiveAt(client, id, now).Some? ensures ActiveAt(w, id, now).Some? {
        assert ActiveAt(after, id, now) == ActiveAt(w, id, now);
      }
    }
  }
}
