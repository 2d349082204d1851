/**
 What a member's app shows: the hazard list, the route and the waypoint, folded from the inbound frames
 (app/lib/features/convoy/application/hazard_providers.dart, waypoint_providers.dart).
 */
module ConvoyView {
  import opened Wrappers
  import opened Wire
  import opened SnapshotStore

  /** `waypoint` is the last value of the client's waypoint stream. */
  datatype View = View(hazards: seq<Hazard>, tour: Tour, waypoint: Option<Waypoint>)

  const NOTHING_SHOWN := View([], Tour([]), None)

  /** The client's expiry test. */
  predicate IsActiveAt(hazard: Hazard, moment: Millis) {
    hazard.expiresAt.None? || moment < hazard.expiresAt.value
  }

  function Without(hazards: seq<Hazard>, id: HazardId): seq<Hazard>
  {
    if hazards == [] then []
    else
      var init, last := hazards[..|hazards| - 1], hazards[|hazards| - 1];
      Without(init, id) + if last.id != id then [last] else []
  }

  function StillActive(hazards: seq<Hazard>, now: Millis): seq<Hazard>
  {
    if hazards == [] then []
    else
      var init, last := hazards[..|hazards| - 1], hazards[|hazards| - 1];
      StillActive(init, now) + if IsActiveAt(last, now) then [last] else []
  }

  /** One inbound frame, as the notifiers apply it. */
  function Receive(v: View, frame: Frame): View {
    match frame
    case HazardFrame(hazard) => v.(hazards := Without(v.hazards, hazard.id) + [hazard])
    case HazardRemoveFrame(id) => v.(hazards := Without(v.hazards, id))
    case TourFrame(tour) => v.(tour := tour)
    case WaypointFrame(waypoint) => v.(waypoint := waypoint)
    case _ => v
  }

  function ReceiveAll(v: View, frames: seq<Frame>): View {
    if frames == [] then v
    else Receive(ReceiveAll(v, frames[..|frames| - 1]), frames[|frames| - 1])
  }

  function PruneView(v: View, now: Millis): View {
    v.(hazards := StillActive(v.hazards, now))
  }

  ghost predicate DistinctIds(hazards: seq<Hazard>) {
    forall i, j | 0 <= i < j < |hazards| :: hazards[i].id != hazards[j].id
  }

  // ---------------------------------------------------------------- the notifiers

  class HazardPingsNotifier {
    var state: seq<Hazard>
    var bound: bool
    var published: seq<Frame>

    constructor ()
      ensures state == [] && !bound && published == []
    {
      state, bound, published := [], false, [];
    }

    /** Called for every change of the socket; only losing the convoy empties the list. */
    method BindToSocket(hasSocket: bool)
      modifies this
      ensures bound == hasSocket && published == old(published)
      ensures state == if hasSocket then old(state) else []
    {
      bound := hasSocket;
      if !hasSocket {
        state := [];
      }
    }

    method OnHazardAdded(report: Hazard)
      modifies this`state
      ensures state == Receive(View(old(state), Tour([]), None), HazardFrame(report)).hazards
    {
      var rest := KeepOthers(state, report.id);
      state := rest + [report];
    }

    method OnHazardRemoved(id: HazardId)
      modifies this`state
      ensures state == Receive(View(old(state), Tour([]), None), HazardRemoveFrame(id)).hazards
    {
      state := KeepOthers(state, id);
    }

    /** Reporting and removing change the own list at once, whatever the server will say. */
    method Report(report: Hazard)
      modifies this
      ensures state == old(state) + [report] && bound == old(bound)
      ensures published == old(published) + if bound then [HazardFrame(report)] else []
    {
      state := state + [report];
      if bound {
        published := published + [HazardFrame(report)];
      }
    }

    method Remove(id: HazardId)
      modifies this
      ensures state == Without(old(state), id) && bound == old(bound)
      ensures published == old(published) + if bound then [HazardRemoveFrame(id)] else []
    {
      state := KeepOthers(state, id);
      if bound {
        published := published + [HazardRemoveFrame(id)];
      }
    }

    method PruneExpired(now: Millis)
      modifies this`state
      ensures state == PruneView(View(old(state), Tour([]), None), now).hazards
    {
      var active: seq<Hazard> := [];
      for i := 0 to |state|
        invariant active == StillActive(state[..i], now)
      {
        assert state[..i + 1][..i] == state[..i];
        if IsActiveAt(state[i], now) {
          active := active + [state[i]];
        }
      }
      assert state[..|state|] == state;
      if |active| != |state| {
        state := active;
      } else {
        NothingExpired(state, now);
      }
    }
  }

  /** The list comprehension of `_bindToSocket` and `remove`. */
  method KeepOthers(hazards: seq<Hazard>, id: HazardId) returns (rest: seq<Hazard>)
    ensures rest == Without(hazards, id)
  {
    rest := [];
    for i := 0 to |hazards|
      invariant rest == Without(hazards[..i], id)
    {
      assert hazards[..i + 1][..i] == hazards[..i];
      if hazards[i].id != id {
        rest := rest + [hazards[i]];
      }
    }
    assert hazards[..|hazards|] == hazards;
  }

  /** A prune that keeps the length keeps the list, so skipping the assignment is harmless. */
  lemma {:induction false} NothingExpired(hazards: seq<Hazard>, now: Millis)
    ensures |StillActive(hazards, now)| <= |hazards|
    ensures |StillActive(hazards, now)| == |hazards| ==> StillActive(hazards, now) == hazards
  {
    if hazards != [] {
      var init, last := hazards[..|hazards| - 1], hazards[|hazards| - 1];
      NothingExpired(init, now);
      assert hazards == init + [last];
    }
  }

  class TourNotifier {
    var state: Tour
    var bound: bool
    var published: seq<Frame>

    constructor ()
      ensures state == Tour([]) && !bound && published == []
    {
      state, bound, published := Tour([]), false, [];
    }

    method BindToSocket(hasSocket: bool)
      modifies this
      ensures bound == hasSocket && published == old(published)
      ensures state == if hasSocket then old(state) else Tour([])
    {
      bound := hasSocket;
      if !hasSocket {
        state := Tour([]);
      }
    }

    /** An inbound plan replaces the state and is not published again. */
    method OnTour(tour: Tour)
      modifies this`state
      ensures state == Receive(View([], old(state), None), TourFrame(tour)).tour
    {
      state := tour;
    }

    method Push(next: Tour)
      modifies this
      ensures state == next && bound == old(bound)
      ensures published == old(published) + if bound then [TourFrame(next)] else []
    {
      state := next;
      if bound {
        published := published + [TourFrame(next)];
      }
    }
  }

  // ---------------------------------------------------------------- the client fold is the server fold

  /** The list as a map; a later entry wins. */
  function ById(hazards: seq<Hazard>): map<HazardId, Hazard> {
    if hazards == [] then map[]
    else
      var last := hazards[|hazards| - 1];
      ById(hazards[..|hazards| - 1])[last.id := last]
  }

  /** The world a view stands for. */
  function WorldShown(v: View): World {
    World(ById(v.hazards), if |v.tour.stops| > 0 then Some(v.tour) else None, v.waypoint)
  }

  lemma {:induction false} ByIdKeyed(hazards: seq<Hazard>)
    ensures forall id | id in ById(hazards) :: ById(hazards)[id].id == id && ById(hazards)[id] in hazards
    ensures forall h | h in hazards :: h.id in ById(hazards)
    ensures DistinctIds(hazards) ==> forall h | h in hazards :: ById(hazards)[h.id] == h
  {
    if hazards != [] {
      var init, last := hazards[..|hazards| - 1], hazards[|hazards| - 1];
      ByIdKeyed(init);
      assert hazards == init + [last];
    }
  }

  lemma ByIdAppend(hazards: seq<Hazard>, last: Hazard)
    ensures ById(hazards + [last]) == ById(hazards)[last.id := last]
  {
    assert (hazards + [last])[..|hazards|] == hazards;
  }

  lemma {:induction false} ByIdWithout(hazards: seq<Hazard>, id: HazardId)
    ensures ById(Without(hazards, id)) == ById(hazards) - {id}
    ensures forall h | h in Without(hazards, id) :: h in hazards
  {
    if hazards != [] {
      var init, last := hazards[..|hazards| - 1], hazards[|hazards| - 1];
      ByIdWithout(init, id);
      if last.id == id {
        assert Without(hazards, id) == Without(init, id);
        MapUpdateThenDrop(ById(init), id, last);
      } else {
        ByIdAppend(Without(init, id), last);
        MapUpdateAndDrop(ById(init), id, last.id, last);
      }
    }
  }

  lemma MapUpdateThenDrop<K, V>(m: map<K, V>, k: K, v: V)
    ensures m[k := v] - {k} == m - {k}
    ensures (m - {k})[k := v] == m[k := v]
  {
  }

  lemma MapUpdateAndDrop<K, V>(m: map<K, V>, k: K, other: K, v: V)
    requires other != k
    ensures m[other := v] - {k} == (m - {k})[other := v]
  {
  }

  lemma {:induction false} WithoutStaysDistinct(hazards: seq<Hazard>, id: HazardId)
    requires DistinctIds(hazards)
    ensures DistinctIds(Without(hazards, id))
    ensures forall h | h in Without(hazards, id) :: h in hazards && h.id != id
  {
    if hazards != [] {
      var init, last := hazards[..|hazards| - 1], hazards[|hazards| - 1];
      WithoutStaysDistinct(init, id);
    }
  }

  /**
   The list the app keeps and the map the server keeps are the same replicated object: whatever frame
   arrives, the app's fold commutes with `record`.
   */
  lemma ClientFoldIsServerFold(v: View, frame: Frame)
    requires DistinctIds(v.hazards)
    ensures WorldShown(Receive(v, frame)) == RecordFrame(WorldShown(v), frame)
    ensures DistinctIds(Receive(v, frame).hazards)
  {
    match frame {
      case HazardFrame(h) =>
        ByIdWithout(v.hazards, h.id);
        WithoutStaysDistinct(v.hazards, h.id);
        ByIdAppend(Without(v.hazards, h.id), h);
        MapUpdateThenDrop(ById(v.hazards), h.id, h);
      case HazardRemoveFrame(id) =>
        ByIdWithout(v.hazards, id);
        WithoutStaysDistinct(v.hazards, id);
      case _ =>
    }
  }

  lemma {:induction false} ClientFoldsAreServerFolds(v: View, frames: seq<Frame>)
    requires DistinctIds(v.hazards)
    ensures WorldShown(ReceiveAll(v, frames)) == RecordAll(WorldShown(v), frames)
    ensures DistinctIds(ReceiveAll(v, frames).hazards)
  {
    if frames != [] {
      var init, last := frames[..|frames| - 1], frames[|frames| - 1];
      ClientFoldsAreServerFolds(v, init);
      ClientFoldIsServerFold(ReceiveAll(v, init), last);
    }
  }

  /** Both sides treat the expiry instant alike, so pruning a view is pruning the world it shows. */
  lemma ClientPruneIsServerPrune(v: View, now: Millis)
    requires DistinctIds(v.hazards)
    ensures WorldShown(PruneView(v, now)) == PruneExpired(WorldShown(v), now)
    ensures DistinctIds(PruneView(v, now).hazards)
  {
    StillActiveStaysDistinct(v.hazards, now);
    var kept := StillActive(v.hazards, now);
    ByIdKeyed(kept);
    ByIdKeyed(v.hazards);
    assert ById(kept) == PruneExpired(WorldShown(v), now).hazards;
  }

  lemma {:induction false} StillActiveStaysDistinct(hazards: seq<Hazard>, now: Millis)
    requires DistinctIds(hazards)
    ensures DistinctIds(StillActive(hazards, now))
    ensures forall h :: h in StillActive(hazards, now) <==> h in hazards && !Expired(h, now)
  {
    if hazards != [] {
      var init, last := hazards[..|hazards| - 1], hazards[|hazards| - 1];
      StillActiveStaysDistinct(init, now);
      assert hazards == init + [last];
      assert forall h | h in init :: h.id != last.id;
      var kept := StillActive(init, now);
      assert forall i | 0 <= i < |kept| :: kept[i] in init;
    }
  }
}
