/** The last-writer-wins position map (app/lib/features/convoy/domain/convoy_session.dart). */
module ConvoySession {
  import opened Wire
  import opened Hysteresis
  import ProximityWarningService

  type Positions = map<MemberId, Gps>

  /** An update wins unless a strictly newer one is stored; ties go to the later arrival. */
  predicate Wins(latest: Positions, update: Gps) {
    update.memberId in latest ==> latest[update.memberId].timestamp <= update.timestamp
  }

  function Store(latest: Positions, update: Gps): Positions {
    if Wins(latest, update) then latest[update.memberId := update] else latest
  }

  function Latest(updates: seq<Gps>): Positions {
    if updates == [] then map[]
    else Store(Latest(updates[..|updates| - 1]), updates[|updates| - 1])
  }

  /** `i` is the arrival of the newest update of `m`, the last one if several are as new. */
  ghost predicate IsNewest(updates: seq<Gps>, m: MemberId, i: nat) {
    && i < |updates| && updates[i].memberId == m
    && (forall j | 0 <= j < |updates| && updates[j].memberId == m :: updates[j].timestamp <= updates[i].timestamp)
    && (forall j | i < j < |updates| && updates[j].memberId == m :: updates[j].timestamp < updates[i].timestamp)
  }

  ghost predicate Heard(updates: seq<Gps>, m: MemberId) {
    exists i | 0 <= i < |updates| :: updates[i].memberId == m
  }

  /** The map holds exactly the members heard of, each with its newest update. */
  lemma {:induction false} StoredIsNewest(updates: seq<Gps>, m: MemberId)
    ensures m in Latest(updates) <==> Heard(updates, m)
    ensures m in Latest(updates) ==> exists i: nat :: IsNewest(updates, m, i) && Latest(updates)[m] == updates[i]
  {
    if updates != [] {
      var init, last := updates[..|updates| - 1], updates[|updates| - 1];
      StoredIsNewest(init, m);
      HeardStep(init, last, m);
      assert updates == init + [last];
      if m in Latest(init) {
        var i: nat :| IsNewest(init, m, i) && Latest(init)[m] == init[i];
        NewestStep(init, last, m, i);
      } else if last.memberId == m {
        NewestFirst(init, last, m);
      }
    }
  }

  lemma HeardStep(init: seq<Gps>, last: Gps, m: MemberId)
    ensures Heard(init + [last], m) <==> Heard(init, m) || last.memberId == m
  {
    var updates := init + [last];
    if Heard(init, m) {
      var i :| 0 <= i < |init| && init[i].memberId == m;
      assert updates[i].memberId == m;
    }
    if last.memberId == m {
      assert updates[|init|].memberId == m;
    }
  }

  lemma NewestStep(init: seq<Gps>, last: Gps, m: MemberId, i: nat)
    requires IsNewest(init, m, i)
    ensures last.memberId == m && init[i].timestamp <= last.timestamp ==> IsNewest(init + [last], m, |init|)
    ensures !(last.memberId == m && init[i].timestamp <= last.timestamp) ==> IsNewest(init + [last], m, i)
  {
  }

  lemma NewestFirst(init: seq<Gps>, last: Gps, m: MemberId)
    requires !Heard(init, m) && last.memberId == m
    ensures IsNewest(init + [last], m, |init|)
  {
    assert forall j | 0 <= j < |init| :: init[j].memberId != m;
  }

  /** One member never reports two different positions with one timestamp. */
  ghost predicate DistinctTimes(updates: seq<Gps>) {
    forall u, v | u in updates && v in updates :: u.memberId == v.memberId && u.timestamp == v.timestamp ==> u == v
  }

  /** The same updates, in any order and with any duplication. */
  ghost predicate SameUpdates(a: seq<Gps>, b: seq<Gps>) {
    forall u :: u in a <==> u in b
  }

  /** Two different updates of one member with one timestamp are both superseded by a newer one. */
  ghost predicate NewestUnique(updates: seq<Gps>) {
    forall u, v | u in updates && v in updates && u.memberId == v.memberId && u.timestamp == v.timestamp && u != v ::
      Superseded(updates, u)
  }

  ghost predicate Superseded(updates: seq<Gps>, u: Gps) {
    exists w :: w in updates && w.memberId == u.memberId && u.timestamp < w.timestamp
  }

  lemma StoredIsReceived(updates: seq<Gps>, m: MemberId)
    requires m in Latest(updates)
    ensures Latest(updates)[m] in updates && Latest(updates)[m].memberId == m && !Superseded(updates, Latest(updates)[m])
    ensures forall u | u in updates && u.memberId == m :: u.timestamp <= Latest(updates)[m].timestamp
  {
    StoredIsNewest(updates, m);
    var i: nat :| IsNewest(updates, m, i) && Latest(updates)[m] == updates[i];
  }

  lemma SameNewest(a: seq<Gps>, b: seq<Gps>, m: MemberId)
    requires SameUpdates(a, b) && NewestUnique(a) && m in Latest(a) && m in Latest(b)
    ensures Latest(a)[m] == Latest(b)[m]
  {
    StoredIsReceived(a, m);
    StoredIsReceived(b, m);
  }

  lemma HeardInBoth(a: seq<Gps>, b: seq<Gps>, m: MemberId)
    requires SameUpdates(a, b)
    ensures m in Latest(a) ==> m in Latest(b)
  {
    StoredIsNewest(a, m);
    StoredIsNewest(b, m);
    if m in Latest(a) {
      var i :| 0 <= i < |a| && a[i].memberId == m;
      assert a[i] in b;
      var j :| 0 <= j < |b| && b[j] == a[i];
    }
  }

  lemma UniqueConverges(a: seq<Gps>, b: seq<Gps>)
    requires SameUpdates(a, b) && NewestUnique(a)
    ensures Latest(a) == Latest(b)
  {
    forall m ensures m in Latest(a) <==> m in Latest(b)
             ensures m in Latest(a) ==> Latest(a)[m] == Latest(b)[m]
    {
      HeardInBoth(a, b, m);
      HeardInBoth(b, a, m);
      if m in Latest(a) && m in Latest(b) {
        SameNewest(a, b, m);
      }
    }
  }

  /** An update nobody superseded is stored when it arrives once more. */
  lemma RepeatedNewestIsStored(a: seq<Gps>, u: Gps)
    requires u in a && !Superseded(a, u)
    ensures SameUpdates(a, a + [u])
    ensures u.memberId in Latest(a + [u]) && Latest(a + [u])[u.memberId] == u
  {
    assert (a + [u])[..|a|] == a;
    if u.memberId in Latest(a) {
      StoredIsReceived(a, u.memberId);
    }
  }

  /**
   Convergence, exactly: every session that receives the updates of `a`, in any order and with any
   duplication, ends with the same positions if and only if no member's newest timestamp is shared by two
   different updates.
   */
  lemma SessionsConvergeExactlyWhen(a: seq<Gps>)
    ensures NewestUnique(a) <==> forall b: seq<Gps> | SameUpdates(a, b) :: Latest(a) == Latest(b)
  {
    if NewestUnique(a) {
      forall b: seq<Gps> | SameUpdates(a, b) ensures Latest(a) == Latest(b) {
        UniqueConverges(a, b);
      }
    } else {
      var u, v :| u in a && v in a && u.memberId == v.memberId && u.timestamp == v.timestamp && u != v
                  && !Superseded(a, u);
      assert !Superseded(a, v);
      RepeatedNewestIsStored(a, u);
      RepeatedNewestIsStored(a, v);
      assert Latest(a + [u]) != Latest(a + [v]);
    }
  }

  /** In particular when no member ever reports two different positions with one timestamp. */
  lemma SessionsConverge(a: seq<Gps>, b: seq<Gps>)
    requires SameUpdates(a, b) && DistinctTimes(a)
    ensures Latest(a) == Latest(b)
  {
    UniqueConverges(a, b);
  }

  /** The shortest case of two orders ending differently. */
  lemma TiesDependOnOrder(u: Gps, v: Gps)
    requires u.memberId == v.memberId && u.timestamp == v.timestamp && u != v
    ensures Latest([u, v]) != Latest([v, u])
  {
    assert [u, v][..1] == [u] && [v, u][..1] == [v];
    assert Latest([u]) == map[u.memberId := u] && Latest([v]) == map[v.memberId := v];
    assert Latest([u, v])[u.memberId] == v && Latest([v, u])[u.memberId] == u;
  }

  /** Per member, stored timestamps never go backwards. */
  lemma {:induction false} TimestampsNeverGoBack(updates: seq<Gps>, more: seq<Gps>, m: MemberId)
    requires m in Latest(updates)
    ensures m in Latest(updates + more) && Latest(updates)[m].timestamp <= Latest(updates + more)[m].timestamp
  {
    if more == [] {
      assert updates + more == updates;
    } else {
      var init, last := more[..|more| - 1], more[|more| - 1];
      TimestampsNeverGoBack(updates, init, m);
      assert (updates + more)[..|updates + more| - 1] == updates + init;
    }
  }

  class ConvoySession {
    const proximity: ProximityWarningService.ProximityWarningService
    var latestPositions: Positions
    var positionsRelay: seq<Positions>
    var gpsRelay: seq<Gps>
    ghost var received: seq<Gps>

    ghost predicate Valid() reads this, proximity {
      latestPositions == Latest(received) && proximity.Valid()
    }

    constructor (selfMemberId: MemberId, thresholdMeters: real, maxPositionAge: Millis, distance: (Gps, Gps) -> Metres)
      ensures Valid() && received == [] && positionsRelay == [] && gpsRelay == []
      ensures fresh(proximity) && proximity.fed == [] && proximity.warnings == []
    {
      proximity := new ProximityWarningService.ProximityWarningService(selfMemberId, thresholdMeters, maxPositionAge, distance);
      latestPositions, positionsRelay, gpsRelay, received := map[], [], [], [];
    }

    /** Every update is fed to the warnings and relayed; the map, and its relay, only move for a winning one. */
    method OnUpdate(update: Gps, now: Millis)
      requires Valid()
      modifies this, proximity
      ensures proximity.fed == old(proximity.fed) + [Sample(update, now)]
      ensures old(proximity.warnings) <= proximity.warnings
      ensures WarnedAbout(proximity.Settings(), proximity.fed, AllPeers(proximity.fed),
                          proximity.warnings[|old(proximity.warnings)|..])
      ensures Valid() && received == old(received) + [update]
      ensures latestPositions == Store(old(latestPositions), update)
      ensures gpsRelay == old(gpsRelay) + [update]
      ensures positionsRelay == old(positionsRelay) + if Wins(old(latestPositions), update) then [latestPositions] else []
    {
      proximity.Ingest(update, now);
      if update.memberId !in latestPositions || update.timestamp >= latestPositions[update.memberId].timestamp {
        latestPositions := latestPositions[update.memberId := update];
        positionsRelay := positionsRelay + [latestPositions];
      }
      gpsRelay := gpsRelay + [update];
      received := received + [update];
      assert received[..|received| - 1] == old(received);
    }
  }
}
