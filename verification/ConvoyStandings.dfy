/** Ranking behind the leader (app/lib/features/convoy/domain/convoy_standings.dart). */
module ConvoyStandings {
  import opened Wrappers
  import opened Wire
  import opened Hysteresis

  datatype ConvoyMember = ConvoyMember(id: MemberId, isLeader: bool)

  datatype GapTier = Green | Yellow | Red

  datatype MemberStanding = MemberStanding(ordinal: nat, tier: GapTier, gapMeters: Option<Metres>)

  /** The arguments of `computeConvoyStandings`, with the leader already looked up. */
  datatype Ranking = Ranking(
    leaderId: Option<MemberId>, positions: map<MemberId, Gps>, thresholdMeters: real,
    distance: (Gps, Gps) -> Metres)

  // ---------------------------------------------------------------- the order

  /** Dart's string order: by code units, a prefix first. */
  predicate StringLess(a: string, b: string) {
    b != [] && (a == [] || a[0] < b[0] || (a[0] == b[0] && StringLess(a[1..], b[1..])))
  }

  lemma {:induction false} StringLessTotal(a: string, b: string)
    ensures a == b || StringLess(a, b) || StringLess(b, a)
    ensures !(StringLess(a, b) && StringLess(b, a))
    ensures !StringLess(a, a)
  {
    if a != [] {
      StringLessTotal(a[1..], a[1..]);
      if b != [] {
        StringLessTotal(a[1..], b[1..]);
        assert a == [a[0]] + a[1..] && b == [b[0]] + b[1..];
      }
    }
  }

  /** The first difference decides. */
  ghost predicate DiffersFirstAt(a: string, b: string, k: nat) {
    k <= |a| && k < |b| && a[..k] == b[..k] && (k == |a| || a[k] < b[k])
  }

  lemma {:induction false} StringLessIsLexicographic(a: string, b: string)
    ensures StringLess(a, b) <==> exists k: nat :: DiffersFirstAt(a, b, k)
  {
    if a == [] {
      if b != [] {
        assert DiffersFirstAt(a, b, 0);
      }
    } else if b != [] {
      StringLessIsLexicographic(a[1..], b[1..]);
      if a[0] < b[0] {
        assert DiffersFirstAt(a, b, 0);
      } else if a[0] == b[0] && StringLess(a[1..], b[1..]) {
        var k: nat :| DiffersFirstAt(a[1..], b[1..], k);
        assert a[..k + 1] == [a[0]] + a[1..][..k] && b[..k + 1] == [b[0]] + b[1..][..k];
        assert DiffersFirstAt(a, b, k + 1);
      }
      if k: nat :| DiffersFirstAt(a, b, k) {
        if k > 0 {
          assert a[0] == a[..k][0] && b[0] == b[..k][0];
          assert a[1..][..k - 1] == a[..k][1..] && b[1..][..k - 1] == b[..k][1..];
          assert DiffersFirstAt(a[1..], b[1..], k - 1);
        }
      }
    }
  }

  lemma {:induction false} StringLessTransitive(a: string, b: string, c: string)
    requires StringLess(a, b) && StringLess(b, c)
    ensures StringLess(a, c)
  {
    if a != [] && a[0] == b[0] && b[0] == c[0] {
      StringLessTransitive(a[1..], b[1..], c[1..]);
    }
  }

  /** The distance behind the leader; None for the leader, or when either position is missing. */
  function GapOf(r: Ranking, id: MemberId): Option<Metres> {
    if r.leaderId.None? || r.leaderId.value !in r.positions || id == r.leaderId.value || id !in r.positions then None
    else Some(r.distance(r.positions[r.leaderId.value], r.positions[id]))
  }

  /** No gap counts as infinitely far. */
  predicate GapLess(a: Option<Metres>, b: Option<Metres>) {
    a.Some? && (b.None? || a.value < b.value)
  }

  /** The comparator handed to `sort`; negative means `a` first. */
  function Compare(r: Ranking, a: MemberId, b: MemberId): int {
    if Some(a) == r.leaderId then -1
    else if Some(b) == r.leaderId then 1
    else if GapLess(GapOf(r, a), GapOf(r, b)) then -1
    else if GapLess(GapOf(r, b), GapOf(r, a)) then 1
    else if StringLess(a, b) then -1
    else if StringLess(b, a) then 1
    else 0
  }

  predicate Ahead(r: Ranking, a: MemberId, b: MemberId) {
    a != b && Compare(r, a, b) < 0
  }

  /** The comparator is a strict total order on different ids, so sorting has one possible outcome. */
  lemma AheadIsTotal(r: Ranking, a: MemberId, b: MemberId)
    ensures a != b ==> (Ahead(r, a, b) <==> !Ahead(r, b, a))
    ensures a != b ==> (Compare(r, a, b) < 0 <==> Compare(r, b, a) > 0)
  {
    StringLessTotal(a, b);
  }

  lemma AheadIsTransitive(r: Ranking, a: MemberId, b: MemberId, c: MemberId)
    requires Ahead(r, a, b) && Ahead(r, b, c)
    ensures Ahead(r, a, c)
  {
    StringLessTotal(a, b);
    StringLessTotal(b, c);
    StringLessTotal(a, c);
    if StringLess(a, b) && StringLess(b, c) {
      StringLessTransitive(a, b, c);
    }
  }

  // ---------------------------------------------------------------- ordinals, without any sorting

  /** Everybody with a position who is ranked ahead of `id`. */
  function AllAhead(r: Ranking, ids: set<MemberId>, id: MemberId): set<MemberId> {
    set o | o in ids && Ahead(r, o, id)
  }

  /** The ordinal, defined by counting. */
  function Ordinal(r: Ranking, id: MemberId): nat {
    |AllAhead(r, r.positions.Keys, id)| + 1
  }

  function TierOf(r: Ranking, id: MemberId): GapTier {
    match GapOf(r, id)
    case None => Green
    case Some(gap) =>
      if gap < r.thresholdMeters * 0.5 then Green else if gap < r.thresholdMeters then Yellow else Red
  }

  function StandingOf(r: Ranking, id: MemberId): MemberStanding {
    MemberStanding(Ordinal(r, id), TierOf(r, id), GapOf(r, id))
  }

  lemma SmallerSet<T>(a: set<T>, b: set<T>)
    requires a <= b
    ensures |a| <= |b| && (a != b ==> |a| < |b|)
  {
    assert b == a + (b - a);
    if a != b {
      assert b - a != {};
    }
  }

  lemma AheadHasSmallerOrdinal(r: Ranking, a: MemberId, b: MemberId)
    requires a in r.positions && b in r.positions
    ensures Ahead(r, a, b) <==> Ordinal(r, a) < Ordinal(r, b)
    ensures Ordinal(r, a) == Ordinal(r, b) ==> a == b
  {
    if a != b {
      AheadIsTotal(r, a, b);
      if Ahead(r, a, b) {
        OrdinalGrows(r, a, b);
      } else {
        OrdinalGrows(r, b, a);
      }
    }
  }

  lemma OrdinalGrows(r: Ranking, a: MemberId, b: MemberId)
    requires a in r.positions && Ahead(r, a, b)
    ensures Ordinal(r, a) < Ordinal(r, b)
  {
    var keys := r.positions.Keys;
    forall o | o in AllAhead(r, keys, a) ensures o in AllAhead(r, keys, b) {
      AheadIsTransitive(r, o, a, b);
    }
    assert a in AllAhead(r, keys, b) && a !in AllAhead(r, keys, a);
    SmallerSet(AllAhead(r, keys, a), AllAhead(r, keys, b));
  }

  /** Ordinals lie in 1..n and no two members share one. */
  lemma OrdinalsAreDistinctAndInRange(r: Ranking)
    ensures forall id | id in r.positions :: 1 <= Ordinal(r, id) <= |r.positions|
    ensures forall a, b | a in r.positions && b in r.positions :: Ordinal(r, a) == Ordinal(r, b) ==> a == b
  {
    forall id | id in r.positions ensures Ordinal(r, id) <= |r.positions| {
      assert id !in AllAhead(r, r.positions.Keys, id);
      SmallerSet(AllAhead(r, r.positions.Keys, id), r.positions.Keys);
      assert |r.positions.Keys| == |r.positions|;
    }
    forall a, b | a in r.positions && b in r.positions ensures Ordinal(r, a) == Ordinal(r, b) ==> a == b {
      AheadHasSmallerOrdinal(r, a, b);
    }
  }

  /** A set of n different numbers from 1..n is all of them. */
  lemma {:induction false} Pigeonhole(s: set<nat>, n: nat)
    requires |s| == n && forall k | k in s :: 1 <= k <= n
    ensures forall k | 1 <= k <= n :: k in s
  {
    if n > 0 {
      if n !in s {
        BoundedSize(s, n - 1);
      } else {
        Pigeonhole(s - {n}, n - 1);
      }
    }
  }

  lemma {:induction false} BoundedSize(s: set<nat>, n: nat)
    requires forall k | k in s :: 1 <= k <= n
    ensures |s| <= n
  {
    if n == 0 {
      assert s == {};
    } else {
      BoundedSize(s - {n}, n - 1);
      SmallerSet(s, s - {n} + {n});
    }
  }

  ghost function OrdinalsOf(r: Ranking, ids: set<MemberId>): set<nat> {
    set id | id in ids :: Ordinal(r, id)
  }

  lemma {:induction false} OrdinalCount(r: Ranking, ids: set<MemberId>)
    requires ids <= r.positions.Keys
    ensures |OrdinalsOf(r, ids)| == |ids|
    decreases ids
  {
    if ids != {} {
      var id :| id in ids;
      OrdinalCount(r, ids - {id});
      OrdinalsAreDistinctAndInRange(r);
      assert OrdinalsOf(r, ids) == OrdinalsOf(r, ids - {id}) + {Ordinal(r, id)};
      assert Ordinal(r, id) !in OrdinalsOf(r, ids - {id});
    }
  }

  lemma OrdinalIsTaken(r: Ranking, k: nat)
    requires 1 <= k <= |r.positions|
    ensures k in OrdinalsOf(r, r.positions.Keys)
  {
    OrdinalsAreDistinctAndInRange(r);
    OrdinalCount(r, r.positions.Keys);
    assert |r.positions.Keys| == |r.positions|;
    Pigeonhole(OrdinalsOf(r, r.positions.Keys), |r.positions|);
  }

  /** The ordinals are a bijection onto 1..n: every place is held by exactly one member. */
  lemma OrdinalsAreABijection(r: Ranking, k: nat) returns (holder: MemberId)
    requires 1 <= k <= |r.positions|
    ensures forall id | id in r.positions :: Ordinal(r, id) == k <==> id == holder
    ensures holder in r.positions
  {
    OrdinalIsTaken(r, k);
    holder :| holder in r.positions.Keys && Ordinal(r, holder) == k;
    forall id | id in r.positions ensures Ordinal(r, id) == k <==> id == holder {
      AheadHasSmallerOrdinal(r, id, holder);
    }
  }

  /** A leader with a position is number one, and green. */
  lemma LeaderIsFirst(r: Ranking)
    requires r.leaderId.Some? && r.leaderId.value in r.positions
    ensures Ordinal(r, r.leaderId.value) == 1 && TierOf(r, r.leaderId.value) == Green
  {
    forall o ensures !Ahead(r, o, r.leaderId.value) {
      AheadIsTotal(r, o, r.leaderId.value);
    }
    assert AllAhead(r, r.positions.Keys, r.leaderId.value) == {};
  }

  predicate NotBetter(a: GapTier, b: GapTier) {
    match (a, b)
    case (Green, _) => true
    case (Yellow, t) => t != Green
    case (Red, t) => t == Red
  }

  /** With the leader's position known, gaps never shrink and tiers never improve down the ranking. */
  lemma GapsAndTiersFollowOrdinals(r: Ranking, a: MemberId, b: MemberId)
    requires r.leaderId.Some? && r.leaderId.value in r.positions
    requires a in r.positions && b in r.positions && Ordinal(r, a) < Ordinal(r, b)
    ensures NotBetter(TierOf(r, a), TierOf(r, b))
    ensures b != r.leaderId.value && GapOf(r, b).Some?
    ensures a != r.leaderId.value ==> GapOf(r, a).Some? && GapOf(r, a).value <= GapOf(r, b).value
  {
    AheadHasSmallerOrdinal(r, a, b);
    LeaderIsFirst(r);
  }

  /** Equally far, or equally unknown: the smaller id comes first. */
  lemma TiesFollowIds(r: Ranking, a: MemberId, b: MemberId)
    requires a in r.positions && b in r.positions && Some(a) != r.leaderId && Some(b) != r.leaderId
    requires StringLess(a, b)
    requires match r.leaderId
             case Some(leader) => leader in r.positions ==>
               r.distance(r.positions[leader], r.positions[a]) == r.distance(r.positions[leader], r.positions[b])
             case None => true
    ensures Ordinal(r, a) < Ordinal(r, b)
  {
    StringLessTotal(a, b);
    AheadHasSmallerOrdinal(r, a, b);
  }

  // ---------------------------------------------------------------- the computation

  ghost predicate Sorted(r: Ranking, ids: seq<MemberId>) {
    forall i, j | 0 <= i < j < |ids| :: Ahead(r, ids[i], ids[j])
  }

  function Elements(ids: seq<MemberId>): set<MemberId> {
    set id | id in ids
  }

  /** The library's sort, here by insertion: the order of the given keys does not matter to the result. */
  method SortIds(r: Ranking, keys: set<MemberId>) returns (ids: seq<MemberId>)
    ensures Sorted(r, ids) && Elements(ids) == keys
  {
    ids := [];
    var todo := keys;
    while todo != {}
      invariant Sorted(r, ids) && Elements(ids) == keys - todo && todo <= keys
      decreases todo
    {
      var id :| id in todo;
      ids := Insert(r, ids, id);
      todo := todo - {id};
    }
  }

  method Insert(r: Ranking, ids: seq<MemberId>, id: MemberId) returns (more: seq<MemberId>)
    requires Sorted(r, ids) && id !in ids
    ensures Sorted(r, more) && Elements(more) == Elements(ids) + {id}
  {
    var i := 0;
    while i < |ids| && Compare(r, ids[i], id) < 0
      invariant i <= |ids| && forall k | 0 <= k < i :: Ahead(r, ids[k], id)
    {
      i := i + 1;
    }
    InsertKeepsSorted(r, ids, id, i);
    more := ids[..i] + [id] + ids[i..];
    InsertAddsOne(ids, id, i);
  }

  lemma InsertKeepsSorted(r: Ranking, ids: seq<MemberId>, id: MemberId, i: nat)
    requires Sorted(r, ids) && id !in ids && i <= |ids|
    requires forall k | 0 <= k < i :: Ahead(r, ids[k], id)
    requires i < |ids| ==> !Ahead(r, ids[i], id)
    ensures Sorted(r, ids[..i] + [id] + ids[i..])
  {
    forall k | i <= k < |ids| ensures Ahead(r, id, ids[k]) {
      AheadIsTotal(r, ids[i], id);
      if k > i {
        AheadIsTransitive(r, id, ids[i], ids[k]);
      }
    }
  }

  lemma InsertAddsOne(ids: seq<MemberId>, id: MemberId, i: nat)
    requires i <= |ids|
    ensures Elements(ids[..i] + [id] + ids[i..]) == Elements(ids) + {id}
  {
    assert ids == ids[..i] + ids[i..];
  }

  lemma {:induction false} DistinctSize(ids: seq<MemberId>)
    requires forall i, j | 0 <= i < j < |ids| :: ids[i] != ids[j]
    ensures |Elements(ids)| == |ids|
  {
    if ids != [] {
      var init, last := ids[..|ids| - 1], ids[|ids| - 1];
      DistinctSize(init);
      assert Elements(ids) == Elements(init) + {last};
    }
  }

  /** In a sorted list the counted ordinal is the place. */
  lemma PlaceIsOrdinal(r: Ranking, ids: seq<MemberId>, i: nat)
    requires Sorted(r, ids) && Elements(ids) == r.positions.Keys && i < |ids|
    ensures Ordinal(r, ids[i]) == i + 1
  {
    forall o | o in AllAhead(r, r.positions.Keys, ids[i]) ensures o in ids[..i] {
      assert o in Elements(ids);
      var k :| 0 <= k < |ids| && ids[k] == o;
      if k > i {
        AheadIsTotal(r, ids[i], ids[k]);
      }
    }
    forall o | o in ids[..i] ensures o in AllAhead(r, r.positions.Keys, ids[i]) {
      var k :| 0 <= k < i && ids[k] == o;
      assert o in Elements(ids);
    }
    assert AllAhead(r, r.positions.Keys, ids[i]) == Elements(ids[..i]);
    DistinctSize(ids[..i]);
  }

  function FirstLeader(members: seq<ConvoyMember>): Option<MemberId> {
    if members == [] then None
    else if members[0].isLeader then Some(members[0].id)
    else FirstLeader(members[1..])
  }

  /** The leader is the first member of the roster marked as one. */
  ghost predicate IsFirstLeader(members: seq<ConvoyMember>, i: nat) {
    i < |members| && members[i].isLeader && forall k | 0 <= k < i :: !members[k].isLeader
  }

  lemma {:induction false} FirstLeaderIsFirst(members: seq<ConvoyMember>)
    ensures FirstLeader(members).None? <==> forall i | 0 <= i < |members| :: !members[i].isLeader
    ensures FirstLeader(members).Some? ==>
              exists i: nat :: IsFirstLeader(members, i) && FirstLeader(members).value == members[i].id
  {
    if members != [] {
      if members[0].isLeader {
        assert IsFirstLeader(members, 0);
      } else {
        FirstLeaderIsFirst(members[1..]);
        if FirstLeader(members).Some? {
          var i: nat :| IsFirstLeader(members[1..], i) && FirstLeader(members).value == members[1..][i].id;
          assert IsFirstLeader(members, i + 1);
        }
      }
    }
  }

  /**
   A standing in the source's own terms: with a live leader everybody else's gap is the distance to it, green
   below half the threshold, yellow below it, red from it on; without one, and for the leader, there is no
   gap and the tier is green.
   */
  ghost predicate StandingIsPlain(leaderId: Option<MemberId>, positions: map<MemberId, Gps>, thresholdMeters: real,
                                  distance: (Gps, Gps) -> Metres, id: MemberId, standing: MemberStanding)
    requires id in positions
  {
    if leaderId.Some? && leaderId.value in positions && leaderId.value != id then
      var gap := distance(positions[leaderId.value], positions[id]);
      && standing.gapMeters == Some(gap)
      && (gap + gap < thresholdMeters ==> standing.tier == Green)
      && (gap + gap >= thresholdMeters && gap < thresholdMeters ==> standing.tier == Yellow)
      && (gap + gap >= thresholdMeters && gap >= thresholdMeters ==> standing.tier == Red)
    else standing.gapMeters == None && standing.tier == Green
  }

  lemma StandingsArePlain(r: Ranking, id: MemberId)
    requires id in r.positions
    ensures StandingIsPlain(r.leaderId, r.positions, r.thresholdMeters, r.distance, id, StandingOf(r, id))
  {
  }

  method FindLeader(members: seq<ConvoyMember>) returns (leaderId: Option<MemberId>)
    ensures leaderId == FirstLeader(members)
  {
    leaderId := None;
    var n := 0;
    while n < |members|
      invariant n <= |members| && FirstLeader(members[n..]) == FirstLeader(members)
    {
      if members[n].isLeader {
        return Some(members[n].id);
      }
      assert members[n..][1..] == members[n + 1..];
      n := n + 1;
    }
  }

  /** Numbers a ranked list from 1. */
  method Number(r: Ranking, ids: seq<MemberId>) returns (standings: map<MemberId, MemberStanding>)
    requires Sorted(r, ids) && Elements(ids) == r.positions.Keys
    ensures standings.Keys == r.positions.Keys
    ensures forall id | id in standings :: standings[id] == StandingOf(r, id)
  {
    standings := map[];
    for i := 0 to |ids|
      invariant standings.Keys == Elements(ids[..i])
      invariant forall id | id in standings :: standings[id] == StandingOf(r, id)
    {
      PlaceIsOrdinal(r, ids, i);
      assert ids[..i + 1] == ids[..i] + [ids[i]];
      ElementsGrow(ids[..i], ids[i]);
      standings := standings[ids[i] := MemberStanding(i + 1, TierOf(r, ids[i]), GapOf(r, ids[i]))];
    }
    assert ids[..|ids|] == ids;
  }

  lemma ElementsGrow(ids: seq<MemberId>, id: MemberId)
    ensures Elements(ids + [id]) == Elements(ids) + {id}
  {
    forall o | o in ids + [id] ensures o in ids || o == id {
    }
  }

  /**
   Exactly the members with a position get a standing, and it is the counted one: the roster's and the
   map's order have no influence, except that the first leader in the roster is the leader.
   */
  method ComputeConvoyStandings(members: seq<ConvoyMember>, positions: map<MemberId, Gps>, thresholdMeters: real,
                                distance: (Gps, Gps) -> Metres)
    returns (standings: map<MemberId, MemberStanding>)
    ensures standings.Keys == positions.Keys
    ensures var r := Ranking(FirstLeader(members), positions, thresholdMeters, distance);
            forall id | id in positions :: standings[id] == StandingOf(r, id)
    ensures forall id | id in positions ::
      StandingIsPlain(FirstLeader(members), positions, thresholdMeters, distance, id, standings[id])
  {
    var leaderId := FindLeader(members);
    var r := Ranking(leaderId, positions, thresholdMeters, distance);
    var ids := SortIds(r, positions.Keys);
    standings := Number(r, ids);
    forall id | id in positions
      ensures StandingIsPlain(leaderId, positions, thresholdMeters, distance, id, standings[id])
    {
      StandingsArePlain(r, id);
    }
  }
}
