/** The convoy "world state" replayed to late joiners (backend/src/realtime/snapshot_store.ts). */
module SnapshotStore {
  import opened Wrappers
  import opened Wire

  datatype World = World(
    hazards: map<HazardId, Hazard>, tour: Option<Tour>, waypoint: Option<Waypoint>)

  const EMPTY_WORLD := World(map[], None, None)

  /** Every hazard is stored under its own id. */
  ghost predicate Keyed(w: World) {
    forall id | id in w.hazards :: w.hazards[id].id == id
  }

  /** No empty route is ever stored either. */
  ghost predicate WellFormed(w: World) {
    Keyed(w) && (w.tour.Some? ==> |w.tour.value.stops| > 0)
  }

  /** The server's expiry test: a hazard is gone AT its expiry instant. */
  predicate Expired(hazard: Hazard, now: Millis) {
    hazard.expiresAt.Some? && hazard.expiresAt.value <= now
  }

  /** What `record` makes of the world. Transient frames leave it alone. */
  function RecordFrame(w: World, frame: Frame): World {
    match frame
    case HazardFrame(hazard) => w.(hazards := w.hazards[hazard.id := hazard])
    case HazardRemoveFrame(id) => w.(hazards := w.hazards - {id})
    case TourFrame(tour) => w.(tour := if |tour.stops| > 0 then Some(tour) else None)
    case WaypointFrame(waypoint) => w.(waypoint := waypoint)
    case _ => w
  }

  function RecordAll(w: World, frames: seq<Frame>): World {
    if frames == [] then w
    else RecordFrame(RecordAll(w, frames[..|frames| - 1]), frames[|frames| - 1])
  }

  function PruneExpired(w: World, now: Millis): World {
    w.(hazards := map id | id in w.hazards && !Expired(w.hazards[id], now) :: w.hazards[id])
  }

  /** The frames a snapshot must consist of. */
  ghost function ReplayFrames(w: World, now: Millis): set<Frame> {
    HazardFrames(w, w.hazards.Keys, now)
    + (if w.tour.Some? then {TourFrame(w.tour.value)} else {})
    + (if w.waypoint.Some? then {WaypointFrame(w.waypoint)} else {})
  }

  ghost function HazardFrames(w: World, ids: set<HazardId>, now: Millis): set<Frame> {
    set id | id in ids && id in w.hazards && !Expired(w.hazards[id], now) :: HazardFrame(w.hazards[id])
  }

  /** `frames` replays `w` at `now`: every required frame exactly once, nothing else, in any order. */
  ghost predicate IsReplay(frames: seq<Frame>, w: World, now: Millis) {
    multiset(frames) == multiset(ReplayFrames(w, now))
  }

  lemma ReplayMembers(frames: seq<Frame>, w: World, now: Millis)
    requires IsReplay(frames, w, now)
    ensures forall f :: f in frames <==> f in ReplayFrames(w, now)
  {
    forall f ensures f in frames <==> f in ReplayFrames(w, now) {
      assert f in frames <==> f in multiset(frames);
    }
  }

  /** A hazard whose expiry has not been reached, the route, or the waypoint. */
  ghost predicate IsCurrent(f: Frame, w: World, now: Millis) {
    match f
    case HazardFrame(h) =>
      exists id :: id in w.hazards && w.hazards[id] == h && (h.expiresAt.Some? ==> now < h.expiresAt.value)
    case TourFrame(t) => w.tour == Some(t)
    case WaypointFrame(p) => p.Some? && w.waypoint == p
    case _ => false
  }

  /** All that is current, each once. */
  ghost predicate PlainReplay(frames: seq<Frame>, w: World, now: Millis) {
    && (forall i, j | 0 <= i < j < |frames| :: frames[i] != frames[j])
    && (forall f :: f in frames <==> IsCurrent(f, w, now))
  }

  lemma ReplayedMeansCurrent(f: Frame, w: World, now: Millis)
    ensures f in ReplayFrames(w, now) <==> IsCurrent(f, w, now)
  {
    if f.HazardFrame? {
      assert f in ReplayFrames(w, now) <==> f in HazardFrames(w, w.hazards.Keys, now);
      if IsCurrent(f, w, now) {
        var id :| id in w.hazards && w.hazards[id] == f.hazard;
        assert id in w.hazards.Keys;
      }
    }
  }

  lemma NothingTwice(frames: seq<Frame>, s: set<Frame>)
    requires multiset(frames) == multiset(s)
    ensures forall i, j | 0 <= i < j < |frames| :: frames[i] != frames[j]
  {
    forall i, j | 0 <= i < j < |frames| ensures frames[i] != frames[j] {
      assert multiset(s)[frames[i]] <= 1;
      if frames[i] == frames[j] {
        TwiceInMultiset(frames, i, j);
      }
    }
  }

  /** A replay, in terms of what is stored and the clock. */
  lemma ReplayIsPlain(frames: seq<Frame>, w: World, now: Millis)
    requires IsReplay(frames, w, now)
    ensures PlainReplay(frames, w, now)
  {
    NothingTwice(frames, ReplayFrames(w, now));
    forall f ensures f in frames <==> IsCurrent(f, w, now) {
      ReplayMembers(frames, w, now);
      ReplayedMeansCurrent(f, w, now);
    }
  }

  /** A prune leaves exactly the hazards whose expiry has not been reached. */
  lemma PruneIsPlain(w: World, now: Millis, id: HazardId)
    ensures id in PruneExpired(w, now).hazards
            <==> id in w.hazards && (w.hazards[id].expiresAt.Some? ==> now < w.hazards[id].expiresAt.value)
    ensures id in PruneExpired(w, now).hazards ==> PruneExpired(w, now).hazards[id] == w.hazards[id]
    ensures PruneExpired(w, now).tour == w.tour && PruneExpired(w, now).waypoint == w.waypoint
  {
  }

  lemma TwiceInMultiset(frames: seq<Frame>, i: nat, j: nat)
    requires i < j < |frames| && frames[i] == frames[j]
    ensures multiset(frames)[frames[i]] >= 2
  {
    assert frames == frames[..j] + frames[j..];
    assert frames[..j][i] == frames[i] && frames[j..][0] == frames[j];
  }

  /** One more hazard id adds one frame, which was not there before. */
  lemma HazardFramesInsert(w: World, ids: set<HazardId>, id: HazardId, now: Millis)
    requires Keyed(w) && id !in ids && id in w.hazards
    ensures multiset(HazardFrames(w, ids + {id}, now))
            == multiset(HazardFrames(w, ids, now))
               + if Expired(w.hazards[id], now) then multiset{} else multiset{HazardFrame(w.hazards[id])}
  {
    var f := HazardFrame(w.hazards[id]);
    var before, after := HazardFrames(w, ids, now), HazardFrames(w, ids + {id}, now);
    forall g ensures g in after <==> g in before || (g == f && !Expired(w.hazards[id], now)) {
      if g == f && !Expired(w.hazards[id], now) {
        assert id in ids + {id};
      }
    }
    assert f !in before;
    assert after == before + if Expired(w.hazards[id], now) then {} else {f};
  }

  /** The loop of `snapshot`: one frame per live hazard, the expired ones deleted as they are met. */
  method SweepHazards(state: World, now: Millis)
    returns (frames: seq<Frame>, left: map<HazardId, Hazard>)
    requires Keyed(state)
    ensures multiset(frames) == multiset(HazardFrames(state, state.hazards.Keys, now))
    ensures left == PruneExpired(state, now).hazards
  {
    frames, left := [], state.hazards;
    var todo := state.hazards.Keys;
    ghost var done: set<HazardId> := {};
    while todo != {}
      invariant done + todo == state.hazards.Keys && done !! todo
      invariant multiset(frames) == multiset(HazardFrames(state, done, now))
      invariant forall id :: id in left <==> id in state.hazards && (id in todo || !Expired(state.hazards[id], now))
      invariant forall id | id in left :: left[id] == state.hazards[id]
      decreases todo
    {
      var id :| id in todo;
      HazardFramesInsert(state, done, id, now);
      if Expired(state.hazards[id], now) {
        left := left - {id};
      } else {
        frames := frames + [HazardFrame(state.hazards[id])];
      }
      todo, done := todo - {id}, done + {id};
    }
    assert done == state.hazards.Keys;
  }

  /** Route and waypoint after the hazards make a replay. */
  lemma ReplayAssembled(w: World, now: Millis, swept: seq<Frame>, frames: seq<Frame>)
    requires multiset(swept) == multiset(HazardFrames(w, w.hazards.Keys, now))
    requires frames == swept + (if w.tour.Some? then [TourFrame(w.tour.value)] else [])
                             + (if w.waypoint.Some? then [WaypointFrame(w.waypoint)] else [])
    ensures IsReplay(frames, w, now)
  {
    var hazards := HazardFrames(w, w.hazards.Keys, now);
    var planned := if w.tour.Some? then hazards + {TourFrame(w.tour.value)} else hazards;
    var before := swept + (if w.tour.Some? then [TourFrame(w.tour.value)] else []);
    if w.tour.Some? {
      OneFrameMore(swept, hazards, TourFrame(w.tour.value));
    } else {
      assert before == swept;
    }
    if w.waypoint.Some? {
      OneFrameMore(before, planned, WaypointFrame(w.waypoint));
      assert ReplayFrames(w, now) == planned + {WaypointFrame(w.waypoint)};
    } else {
      assert frames == before && ReplayFrames(w, now) == planned;
    }
  }

  lemma OneFrameMore(frames: seq<Frame>, s: set<Frame>, f: Frame)
    requires multiset(frames) == multiset(s) && f !in s
    ensures multiset(frames + [f]) == multiset(s + {f})
  {
    assert multiset(s + {f}) == multiset(s) + multiset{f};
  }

  /** The in-memory store. The clock is read by the caller and passed in. */
  class InMemorySnapshotStore {
    var convoys: map<ConvoyId, World>

    ghost predicate Valid() reads this {
      forall c | c in convoys :: Keyed(convoys[c])
    }

    /** The convoy's world; a convoy never heard of has the empty one. */
    function WorldOf(convoyId: ConvoyId): World reads this {
      if convoyId in convoys then convoys[convoyId] else EMPTY_WORLD
    }

    constructor ()
      ensures Valid() && convoys == map[]
    {
      convoys := map[];
    }

    method Record(convoyId: ConvoyId, frame: Frame)
      requires Valid()
      modifies this
      ensures Valid()
      ensures convoys == old(convoys)[convoyId := RecordFrame(old(WorldOf(convoyId)), frame)]
    {
      var state := WorldOf(convoyId);
      match frame {
        case HazardFrame(hazard) =>
          state := state.(hazards := state.hazards[hazard.id := hazard]);
        case HazardRemoveFrame(id) =>
          state := state.(hazards := state.hazards - {id});
        case TourFrame(tour) =>
          state := state.(tour := if |tour.stops| > 0 then Some(tour) else None);
        case WaypointFrame(waypoint) =>
          state := state.(waypoint := waypoint);
        case _ =>
      }
      convoys := convoys[convoyId := state];
    }

    /** Answers the replay and deletes the expired hazards it meets on the way. */
    method Snapshot(convoyId: ConvoyId, now: Millis) returns (frames: seq<Frame>)
      requires Valid()
      modifies this
      ensures Valid()
      ensures IsReplay(frames, old(WorldOf(convoyId)), now)
      ensures convoys == if convoyId !in old(convoys) then old(convoys)
                         else old(convoys)[convoyId := PruneExpired(old(convoys)[convoyId], now)]
    {
      frames := [];
      if convoyId !in convoys {
        return;
      }
      var state := convoys[convoyId];
      var left;
      frames, left := SweepHazards(state, now);
      ghost var swept := frames;
      if state.tour.Some? {
        frames := frames + [TourFrame(state.tour.value)];
      }
      if state.waypoint.Some? {
        frames := frames + [WaypointFrame(state.waypoint)];
      }
      ReplayAssembled(state, now, swept, frames);
      convoys := convoys[convoyId := state.(hazards := left)];
    }

    method Clear(convoyId: ConvoyId)
      requires Valid()
      modifies this
      ensures Valid() && convoys == old(convoys) - {convoyId}
    {
      convoys := convoys - {convoyId};
    }

    /** The reporter of a tracked hazard; expiry is not looked at here. */
    method HazardReporter(convoyId: ConvoyId, hazardId: HazardId) returns (reporter: Option<MemberId>)
      ensures reporter == ReporterIn(WorldOf(convoyId), hazardId)
    {
      if convoyId in convoys && hazardId in convoys[convoyId].hazards {
        reporter := Some(convoys[convoyId].hazards[hazardId].reporterId);
      } else {
        reporter := None;
      }
    }
  }

  function ReporterIn(w: World, hazardId: HazardId): Option<MemberId> {
    if hazardId in w.hazards then Some(w.hazards[hazardId].reporterId) else None
  }
}
