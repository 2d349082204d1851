/** Flags with a dead band, evaluated against the own position: the logic shared by the two distance services. */
module Hysteresis {
  import opened Wrappers
  import opened Wire

  type Metres = r: real | 0.0 <= r witness 0.0

  /** `enter` sets a clear flag, `leave` clears a set one; distances that do neither form the dead band. */
  datatype Band = Band(enter: Metres -> bool, leave: Metres -> bool)

  /** `distance` is left uninterpreted; positions older than `maxAge` are stale. */
  datatype Config = Config(self: MemberId, maxAge: Millis, distance: (Gps, Gps) -> Metres, band: Band)

  datatype Sample = Sample(update: Gps, now: Millis)

  datatype Warning = Warning(otherMemberId: MemberId, distanceMeters: Metres, triggeredAt: Millis)

  ghost predicate Proper(band: Band) {
    forall d :: !(band.enter(d) && band.leave(d))
  }

  predicate IsStale(c: Config, position: Gps, now: Millis) {
    now - position.timestamp > c.maxAge
  }

  function LatestAfter(samples: seq<Sample>): map<MemberId, Gps> {
    if samples == [] then map[]
    else
      var last := samples[|samples| - 1].update;
      LatestAfter(samples[..|samples| - 1])[last.memberId := last]
  }

  /**
   The distance at which `peer` is evaluated when `last` has just come in: an update of a peer evaluates
   that peer, one of the own position all peers, and stale positions are not evaluated.
   */
  function Evaluation(c: Config, latest: map<MemberId, Gps>, last: MemberId, now: Millis, peer: MemberId): Option<Metres> {
    if c.self !in latest || peer !in latest || peer == c.self || (last != c.self && last != peer) then None
    else if IsStale(c, latest[c.self], now) || IsStale(c, latest[peer], now) then None
    else Some(c.distance(latest[c.self], latest[peer]))
  }

  function NewFlag(c: Config, was: bool, evaluation: Option<Metres>): bool {
    match evaluation
    case None => was
    case Some(d) => if !was && c.band.enter(d) then true else if was && c.band.leave(d) then false else was
  }

  /** The evaluation of `peer` at the last of these samples. */
  function EvaluationAt(c: Config, samples: seq<Sample>, peer: MemberId): Option<Metres>
    requires samples != []
  {
    var last := samples[|samples| - 1];
    Evaluation(c, LatestAfter(samples), last.update.memberId, last.now, peer)
  }

  /** The flag of `peer` after these samples. */
  function Flagged(c: Config, samples: seq<Sample>, peer: MemberId): bool {
    samples != [] && NewFlag(c, Flagged(c, samples[..|samples| - 1], peer), EvaluationAt(c, samples, peer))
  }

  /** The evaluation of `peer` at sample j. */
  function EvaluationOf(c: Config, samples: seq<Sample>, peer: MemberId, j: nat): Option<Metres>
    requires j < |samples|
  {
    EvaluationAt(c, samples[..j + 1], peer)
  }

  /** Sample j evaluates `peer`, and on the entering (leaving) side of the dead band. */
  predicate Enters(c: Config, samples: seq<Sample>, peer: MemberId, j: nat)
    requires j < |samples|
  {
    var e := EvaluationOf(c, samples, peer, j);
    e.Some? && c.band.enter(e.value)
  }

  predicate Leaves(c: Config, samples: seq<Sample>, peer: MemberId, j: nat)
    requires j < |samples|
  {
    var e := EvaluationOf(c, samples, peer, j);
    e.Some? && c.band.leave(e.value)
  }

  lemma PrefixesAgree(c: Config, samples: seq<Sample>, peer: MemberId, n: nat, j: nat)
    requires j < n <= |samples|
    ensures Enters(c, samples[..n], peer, j) == Enters(c, samples, peer, j)
    ensures Leaves(c, samples[..n], peer, j) == Leaves(c, samples, peer, j)
  {
    assert samples[..n][..j + 1] == samples[..j + 1];
  }

  /** Sample i was the last one at which `peer` was evaluated outside the dead band, on the entering side. */
  ghost predicate EnteredLast(c: Config, samples: seq<Sample>, peer: MemberId, i: nat) {
    && i < |samples| && Enters(c, samples, peer, i)
    && forall j: nat | i < j < |samples| :: !Enters(c, samples, peer, j) && !Leaves(c, samples, peer, j)
  }

  /**
   Hysteresis, for every stream: a peer is flagged if and only if its most recent fresh evaluation outside
   the dead band was on the entering side.
   */
  lemma {:induction false} FlaggedMeansEnteredLast(c: Config, samples: seq<Sample>, peer: MemberId)
    requires Proper(c.band)
    ensures Flagged(c, samples, peer) <==> exists i: nat :: EnteredLast(c, samples, peer, i)
  {
    if samples != [] {
      var n := |samples|;
      FlaggedMeansEnteredLast(c, samples[..n - 1], peer);
      assert samples[..n] == samples;
      if Enters(c, samples, peer, n - 1) {
        assert EnteredLast(c, samples, peer, n - 1);
      } else if !Leaves(c, samples, peer, n - 1) {
        var init := samples[..n - 1];
        if Flagged(c, init, peer) {
          var i: nat :| EnteredLast(c, init, peer, i);
          QuietSample(c, samples, peer, i);
        } else if i: nat :| EnteredLast(c, samples, peer, i) {
          QuietSample(c, samples, peer, i);
        }
      }
    }
  }

  lemma QuietSample(c: Config, samples: seq<Sample>, peer: MemberId, i: nat)
    requires samples != []
    requires !Enters(c, samples, peer, |samples| - 1) && !Leaves(c, samples, peer, |samples| - 1)
    ensures EnteredLast(c, samples, peer, i) <==> EnteredLast(c, samples[..|samples| - 1], peer, i)
  {
    var init := samples[..|samples| - 1];
    if i < |init| {
      PrefixesAgree(c, samples, peer, |init|, i);
    }
    if EnteredLast(c, init, peer, i) {
      forall j: nat | i < j < |samples| ensures !Enters(c, samples, peer, j) && !Leaves(c, samples, peer, j) {
        if j < |init| {
          PrefixesAgree(c, samples, peer, |init|, j);
          assert !Enters(c, init, peer, j) && !Leaves(c, init, peer, j);
        }
      }
    }
    if EnteredLast(c, samples, peer, i) {
      forall j: nat | i < j < |init| ensures !Enters(c, init, peer, j) && !Leaves(c, init, peer, j) {
        PrefixesAgree(c, samples, peer, |init|, j);
      }
    }
  }

  /** The last of these samples raises a warning about `peer`. */
  predicate Warns(c: Config, samples: seq<Sample>, peer: MemberId)
    requires samples != []
  {
    !Flagged(c, samples[..|samples| - 1], peer) && Flagged(c, samples, peer)
  }

  lemma {:induction false} StaysFlagged(c: Config, samples: seq<Sample>, peer: MemberId, i: nat, k: nat)
    requires i <= k < |samples| && Flagged(c, samples[..i + 1], peer)
    requires forall j: nat | i < j <= k :: !Leaves(c, samples, peer, j)
    ensures Flagged(c, samples[..k + 1], peer)
    decreases k
  {
    if i < k {
      StaysFlagged(c, samples, peer, i, k - 1);
      assert samples[..k + 1][..k] == samples[..k];
      assert !Leaves(c, samples, peer, k);
    }
  }

  /** Two warnings about one peer always have a release between them. */
  lemma ReleaseBetweenWarnings(c: Config, samples: seq<Sample>, peer: MemberId, i: nat, k: nat)
    requires i < k < |samples| && Warns(c, samples[..i + 1], peer) && Warns(c, samples[..k + 1], peer)
    ensures exists j: nat | i < j < k :: Leaves(c, samples, peer, j)
  {
    assert samples[..k + 1][..k] == samples[..k];
    if forall j: nat | i < j < k :: !Leaves(c, samples, peer, j) {
      StaysFlagged(c, samples, peer, i, k - 1);
    }
  }

  /** A sample that evaluates a peer stale, or not at all, changes nothing about it. */
  lemma StaleChangesNothing(c: Config, samples: seq<Sample>, peer: MemberId)
    requires samples != []
    requires var latest, last := LatestAfter(samples), samples[|samples| - 1];
             c.self in latest && peer in latest
             && (IsStale(c, latest[c.self], last.now) || IsStale(c, latest[peer], last.now))
    ensures Flagged(c, samples, peer) == Flagged(c, samples[..|samples| - 1], peer)
  {
  }

  // ---------------------------------------------------------------- what a service's `ingest` must do

  lemma {:induction false} LatestKeyed(samples: seq<Sample>)
    ensures forall m | m in LatestAfter(samples) :: LatestAfter(samples)[m].memberId == m
  {
    if samples != [] {
      LatestKeyed(samples[..|samples| - 1]);
    }
  }

  /** `flags` are the flags after `samples`. */
  ghost predicate Tracks(c: Config, samples: seq<Sample>, latest: map<MemberId, Gps>, flags: set<MemberId>) {
    && latest == LatestAfter(samples)
    && forall p :: p in flags <==> Flagged(c, samples, p)
  }

  /** The flags while the latest sample is being worked through: `done` are the peers already looked at. */
  ghost predicate TracksAmid(c: Config, samples: seq<Sample>, done: set<MemberId>, flags: set<MemberId>)
    requires samples != []
  {
    forall p :: p in flags <==> if p in done then Flagged(c, samples, p) else Flagged(c, samples[..|samples| - 1], p)
  }

  lemma OneMoreTracked(c: Config, samples: seq<Sample>, done: set<MemberId>, flags: set<MemberId>, p: MemberId,
                       next: set<MemberId>)
    requires samples != [] && p !in done && TracksAmid(c, samples, done, flags)
    requires next == if NewFlag(c, p in flags, EvaluationAt(c, samples, p)) then flags + {p} else flags - {p}
    ensures TracksAmid(c, samples, done + {p}, next)
    ensures p in flags <==> Flagged(c, samples[..|samples| - 1], p)
    ensures p in next <==> Flagged(c, samples, p)
  {
  }

  /** One warning for every peer in `peers` flagged by this sample, with its distance; no other. */
  ghost predicate WarnedAbout(c: Config, samples: seq<Sample>, peers: set<MemberId>, warnings: seq<Warning>)
    requires samples != []
  {
    && (forall i, j | 0 <= i < j < |warnings| :: warnings[i].otherMemberId != warnings[j].otherMemberId)
    && (forall p :: (exists w :: w in warnings && w.otherMemberId == p) <==> p in peers && Warns(c, samples, p))
    && (forall w | w in warnings :: EvaluationAt(c, samples, w.otherMemberId) == Some(w.distanceMeters)
                                    && w.triggeredAt == samples[|samples| - 1].now)
  }

  lemma OneMoreWarned(c: Config, samples: seq<Sample>, peers: set<MemberId>, warnings: seq<Warning>,
                      p: MemberId, more: seq<Warning>)
    requires samples != [] && p !in peers && WarnedAbout(c, samples, peers, warnings)
    requires if Warns(c, samples, p)
             then EvaluationAt(c, samples, p).Some?
                  && more == [Warning(p, EvaluationAt(c, samples, p).value, samples[|samples| - 1].now)]
             else more == []
    ensures WarnedAbout(c, samples, peers + {p}, warnings + more)
  {
    var all := warnings + more;
    forall q ensures (exists w :: w in all && w.otherMemberId == q) <==> q in peers + {p} && Warns(c, samples, q) {
      assert (exists w :: w in warnings && w.otherMemberId == q) <==> q in peers && Warns(c, samples, q);
      if q in peers && Warns(c, samples, q) {
        var w :| w in warnings && w.otherMemberId == q;
        assert w in all;
      }
      if q == p && Warns(c, samples, p) {
        assert more[0] in all;
      }
    }
    assert forall w | w in warnings :: w.otherMemberId in peers;
  }

  /** One more peer looked at: its flag and its warning. */
  lemma OneMoreEvaluated(c: Config, samples: seq<Sample>, done: set<MemberId>, flags: set<MemberId>, p: MemberId,
                         next: set<MemberId>, warnings: seq<Warning>, more: seq<Warning>)
    requires samples != [] && p !in done && TracksAmid(c, samples, done, flags) && WarnedAbout(c, samples, done, warnings)
    requires var e := EvaluationAt(c, samples, p);
             var flag := NewFlag(c, p in flags, e);
             && next == (if flag then flags + {p} else flags - {p})
             && (p !in flags && flag ==> e.Some? && more == [Warning(p, e.value, samples[|samples| - 1].now)])
             && (p in flags || !flag ==> more == [])
    ensures TracksAmid(c, samples, done + {p}, next) && WarnedAbout(c, samples, done + {p}, warnings + more)
  {
    OneMoreTracked(c, samples, done, flags, p, next);
    OneMoreWarned(c, samples, done, warnings, p, more);
  }

  /** Every peer that may be evaluated at all. */
  function AllPeers(samples: seq<Sample>): set<MemberId> {
    LatestAfter(samples).Keys
  }

  /** The peers the last sample evaluates; all the others keep their flag. */
  ghost predicate Covers(c: Config, samples: seq<Sample>, peers: set<MemberId>)
    requires samples != []
  {
    forall p | p !in peers :: EvaluationAt(c, samples, p).None?
  }

  lemma OthersUntouched(c: Config, samples: seq<Sample>, peers: set<MemberId>)
    requires samples != [] && Covers(c, samples, peers)
    ensures forall p | p !in peers :: Flagged(c, samples, p) == Flagged(c, samples[..|samples| - 1], p)
  {
  }

  lemma WarnedAboutAll(c: Config, samples: seq<Sample>, peers: set<MemberId>, warnings: seq<Warning>)
    requires samples != [] && Covers(c, samples, peers) && WarnedAbout(c, samples, peers, warnings)
    requires peers <= AllPeers(samples)
    ensures WarnedAbout(c, samples, AllPeers(samples), warnings)
  {
    OthersUntouched(c, samples, peers);
    forall p
      ensures (exists w :: w in warnings && w.otherMemberId == p) <==> p in AllPeers(samples) && Warns(c, samples, p)
    {
      assert (exists w :: w in warnings && w.otherMemberId == p) <==> p in peers && Warns(c, samples, p);
    }
  }

  // ---------------------------------------------------------------- one update, told by the positions received

  /** Sample i brought the last position received from `m`. */
  ghost predicate LastFrom(samples: seq<Sample>, m: MemberId, i: nat) {
    && i < |samples| && samples[i].update.memberId == m
    && forall j | i < j < |samples| :: samples[j].update.memberId != m
  }

  /** The last update is the own position or the peer's, and i and j brought what is known of both. */
  ghost predicate Compares(self: MemberId, samples: seq<Sample>, peer: MemberId, i: nat, j: nat) {
    && peer != self && LastFrom(samples, self, i) && LastFrom(samples, peer, j)
    && (i == |samples| - 1 || j == |samples| - 1)
  }

  ghost predicate NoneAbout(warnings: seq<Warning>, peer: MemberId) {
    forall k | 0 <= k < |warnings| :: warnings[k].otherMemberId != peer
  }

  ghost predicate OneAbout(warnings: seq<Warning>, warning: Warning) {
    exists k :: 0 <= k < |warnings| && warnings[k] == warning && IsOnlyAbout(warnings, k)
  }

  ghost predicate IsOnlyAbout(warnings: seq<Warning>, k: nat)
    requires k < |warnings|
  {
    forall l | 0 <= l < |warnings| && warnings[l].otherMemberId == warnings[k].otherMemberId :: l == k
  }

  lemma {:induction false} LatestIsLast(samples: seq<Sample>, m: MemberId, i: nat)
    requires LastFrom(samples, m, i)
    ensures m in LatestAfter(samples) && LatestAfter(samples)[m] == samples[i].update
  {
    if i < |samples| - 1 {
      LatestIsLast(samples[..|samples| - 1], m, i);
    }
  }

  lemma {:induction false} LatestHasLast(samples: seq<Sample>, m: MemberId) returns (i: nat)
    requires m in LatestAfter(samples)
    ensures LastFrom(samples, m, i)
  {
    i := |samples| - 1;
    if samples[i].update.memberId != m {
      i := LatestHasLast(samples[..|samples| - 1], m);
    }
  }

  /** Positions no older than `maxAge` are compared by their distance, and nothing else is. */
  lemma FreshPositionsAreCompared(c: Config, samples: seq<Sample>, peer: MemberId, i: nat, j: nat)
    requires Compares(c.self, samples, peer, i, j)
    ensures var own, other, now := samples[i].update, samples[j].update, samples[|samples| - 1].now;
            EvaluationAt(c, samples, peer)
            == if now - own.timestamp <= c.maxAge && now - other.timestamp <= c.maxAge then Some(c.distance(own, other))
               else None
  {
    LatestIsLast(samples, c.self, i);
    LatestIsLast(samples, peer, j);
  }

  lemma OthersAreNotCompared(c: Config, samples: seq<Sample>, peer: MemberId)
    requires samples != [] && forall i, j :: !Compares(c.self, samples, peer, i, j)
    ensures EvaluationAt(c, samples, peer).None?
  {
    if EvaluationAt(c, samples, peer).Some? {
      var i := LatestHasLast(samples, c.self);
      var j := LatestHasLast(samples, peer);
      assert Compares(c.self, samples, peer, i, j);
    }
  }

  /** The flags before and after one ingest, and the warnings it raised. */
  ghost predicate Ingested(c: Config, samples: seq<Sample>, before: set<MemberId>, after: set<MemberId>,
                           news: seq<Warning>)
    requires samples != []
  {
    && (forall p :: p in before <==> Flagged(c, samples[..|samples| - 1], p))
    && (forall p :: p in after <==> Flagged(c, samples, p))
    && WarnedAbout(c, samples, AllPeers(samples), news)
  }

  lemma NothingHappens(c: Config, samples: seq<Sample>, before: set<MemberId>, after: set<MemberId>, news: seq<Warning>,
                       peer: MemberId)
    requires samples != [] && Ingested(c, samples, before, after, news)
    requires EvaluationAt(c, samples, peer).None? || !Warns(c, samples, peer)
    ensures NoneAbout(news, peer)
    ensures EvaluationAt(c, samples, peer).None? ==> (peer in after <==> peer in before)
  {
    forall k | 0 <= k < |news| ensures news[k].otherMemberId != peer {
      assert news[k] in news;
    }
  }

  lemma FlagRises(c: Config, samples: seq<Sample>, before: set<MemberId>, after: set<MemberId>, news: seq<Warning>,
                  peer: MemberId)
    requires samples != [] && Ingested(c, samples, before, after, news) && Warns(c, samples, peer)
    ensures EvaluationAt(c, samples, peer).Some?
    ensures OneAbout(news, Warning(peer, EvaluationAt(c, samples, peer).value, samples[|samples| - 1].now))
  {
    var last := samples[|samples| - 1];
    assert peer in AllPeers(samples) by {
      assert EvaluationAt(c, samples, peer).Some?;
    }
    var w :| w in news && w.otherMemberId == peer;
    var k :| 0 <= k < |news| && news[k] == w;
    assert IsOnlyAbout(news, k);
  }

  /** One ingest, for one compared peer, in terms of the two distances of the band. */
  lemma ComparisonDecides(c: Config, samples: seq<Sample>, before: set<MemberId>, after: set<MemberId>,
                          news: seq<Warning>, peer: MemberId, d: Metres)
    requires samples != [] && Ingested(c, samples, before, after, news) && Proper(c.band)
    requires EvaluationAt(c, samples, peer) == Some(d)
    ensures c.band.enter(d) ==> peer in after
    ensures c.band.enter(d) && peer !in before ==> OneAbout(news, Warning(peer, d, samples[|samples| - 1].now))
    ensures !c.band.enter(d) || peer in before ==> NoneAbout(news, peer)
    ensures c.band.leave(d) ==> peer !in after
    ensures !c.band.enter(d) && !c.band.leave(d) ==> (peer in after <==> peer in before)
  {
    if c.band.enter(d) && peer !in before {
      FlagRises(c, samples, before, after, news, peer);
    } else {
      NothingHappens(c, samples, before, after, news, peer);
    }
  }
}

/** Warns when a member comes near (app/lib/features/convoy/domain/proximity_warning_service.dart). */
module ProximityWarningService {
  import opened Wrappers
  import opened Wire
  import opened Hysteresis

  /** Warned at or below the threshold, released above 1.2 times the threshold. */
  function BandOf(thresholdMeters: real): Band {
    Band(d => d <= thresholdMeters, d => d > thresholdMeters * 1.2)
  }

  lemma BandIsProper(thresholdMeters: real)
    ensures Proper(BandOf(thresholdMeters))
    ensures forall d: Metres :: !BandOf(thresholdMeters).enter(d) && !BandOf(thresholdMeters).leave(d)
                                <==> thresholdMeters < d <= thresholdMeters * 1.2
  {
  }

  /** Sample i saw the peer at or below the threshold, every later evaluation saw it in the dead band. */
  ghost predicate LastSeenNear(c: Config, samples: seq<Sample>, peer: MemberId, thresholdMeters: real, i: nat) {
    && i < |samples|
    && EvaluationOf(c, samples, peer, i).Some? && EvaluationOf(c, samples, peer, i).value <= thresholdMeters
    && forall j: nat | i < j < |samples| && EvaluationOf(c, samples, peer, j).Some? ::
         thresholdMeters < EvaluationOf(c, samples, peer, j).value <= thresholdMeters * 1.2
  }

  /** For every stream: warned exactly when last seen outside the dead band at or below the threshold. */
  lemma WarnedMeansLastSeenNear(c: Config, samples: seq<Sample>, peer: MemberId, thresholdMeters: real)
    requires c.band == BandOf(thresholdMeters)
    ensures Flagged(c, samples, peer) <==> exists i: nat :: LastSeenNear(c, samples, peer, thresholdMeters, i)
  {
    BandIsProper(thresholdMeters);
    FlaggedMeansEnteredLast(c, samples, peer);
    forall i: nat ensures EnteredLast(c, samples, peer, i) <==> LastSeenNear(c, samples, peer, thresholdMeters, i) {
      forall j: nat | j < |samples|
        ensures !Enters(c, samples, peer, j) && !Leaves(c, samples, peer, j)
                <==> (EvaluationOf(c, samples, peer, j).Some? ==>
                        thresholdMeters < EvaluationOf(c, samples, peer, j).value <= thresholdMeters * 1.2)
      {
      }
    }
  }

  /**
   What one update does, told by the positions received: a peer is compared when the update is the peer's or
   the own one and neither position is older than `maxPositionAge`. Near, it is warned about, once and only if
   it was not before; further away than 1.2 times the threshold it is released; otherwise nothing changes.
   */
  ghost predicate StepIsPlain(self: MemberId, thresholdMeters: real, maxPositionAge: Millis,
                              distance: (Gps, Gps) -> Metres, samples: seq<Sample>, before: set<MemberId>,
                              after: set<MemberId>, news: seq<Warning>)
    requires samples != []
  {
    && (forall p, i, j | Compares(self, samples, p, i, j) ::
          PeerIsPlain(thresholdMeters, maxPositionAge, distance, samples, before, after, news, p, i, j))
    && (forall p | forall i, j :: !Compares(self, samples, p, i, j) ::
          (p in after <==> p in before) && NoneAbout(news, p))
  }

  ghost predicate PeerIsPlain(thresholdMeters: real, maxPositionAge: Millis, distance: (Gps, Gps) -> Metres,
                              samples: seq<Sample>, before: set<MemberId>, after: set<MemberId>, news: seq<Warning>,
                              p: MemberId, i: nat, j: nat)
    requires i < |samples| && j < |samples|
  {
    var own, other, now := samples[i].update, samples[j].update, samples[|samples| - 1].now;
    if now - own.timestamp <= maxPositionAge && now - other.timestamp <= maxPositionAge then
      var d := distance(own, other);
      if d <= thresholdMeters then
        p in after && if p in before then NoneAbout(news, p) else OneAbout(news, Warning(p, d, now))
      else NoneAbout(news, p) && if d > thresholdMeters * 1.2 then p !in after else (p in after <==> p in before)
    else (p in after <==> p in before) && NoneAbout(news, p)
  }

  lemma IngestIsPlain(c: Config, thresholdMeters: real, samples: seq<Sample>, before: set<MemberId>,
                      after: set<MemberId>, news: seq<Warning>)
    requires samples != [] && c.band == BandOf(thresholdMeters) && Ingested(c, samples, before, after, news)
    ensures StepIsPlain(c.self, thresholdMeters, c.maxAge, c.distance, samples, before, after, news)
  {
    BandIsProper(thresholdMeters);
    forall p, i, j | Compares(c.self, samples, p, i, j)
      ensures PeerIsPlain(thresholdMeters, c.maxAge, c.distance, samples, before, after, news, p, i, j)
    {
      FreshPositionsAreCompared(c, samples, p, i, j);
      if EvaluationAt(c, samples, p).Some? {
        ComparisonDecides(c, samples, before, after, news, p, EvaluationAt(c, samples, p).value);
      } else {
        NothingHappens(c, samples, before, after, news, p);
      }
    }
    forall p | forall i, j :: !Compares(c.self, samples, p, i, j)
      ensures (p in after <==> p in before) && NoneAbout(news, p)
    {
      OthersAreNotCompared(c, samples, p);
      NothingHappens(c, samples, before, after, news, p);
    }
  }

  class ProximityWarningService {
    const selfMemberId: MemberId
    const thresholdMeters: real
    const maxPositionAge: Millis
    const distance: (Gps, Gps) -> Metres
    var latestByMember: map<MemberId, Gps>
    var warned: set<MemberId>
    var warnings: seq<Warning>
    ghost var fed: seq<Sample>

    ghost function Settings(): Config {
      Config(selfMemberId, maxPositionAge, distance, BandOf(thresholdMeters))
    }

    ghost predicate Valid() reads this {
      Tracks(Settings(), fed, latestByMember, warned)
    }

    constructor (selfMemberId: MemberId, thresholdMeters: real, maxPositionAge: Millis, distance: (Gps, Gps) -> Metres)
      ensures Valid() && fed == [] && warnings == []
      ensures Settings() == Config(selfMemberId, maxPositionAge, distance, BandOf(thresholdMeters))
    {
      this.selfMemberId, this.thresholdMeters := selfMemberId, thresholdMeters;
      this.maxPositionAge, this.distance := maxPositionAge, distance;
      latestByMember, warned, warnings, fed := map[], {}, [], [];
    }

    /** Feeds one update; `now` is the clock reading during the call. */
    method Ingest(update: Gps, now: Millis)
      requires Valid()
      modifies this
      ensures Valid() && fed == old(fed) + [Sample(update, now)]
      ensures old(warnings) <= warnings
      ensures WarnedAbout(Settings(), fed, AllPeers(fed), warnings[|old(warnings)|..])
      ensures StepIsPlain(selfMemberId, thresholdMeters, maxPositionAge, distance, fed, old(warned), warned,
                          warnings[|old(warnings)|..])
    {
      fed := fed + [Sample(update, now)];
      assert fed[..|fed| - 1] == old(fed);
      latestByMember := latestByMember[update.memberId := update];
      LatestKeyed(fed);
      var peers: set<MemberId> := {};
      if selfMemberId in latestByMember {
        peers := if update.memberId == selfMemberId then latestByMember.Keys - {selfMemberId} else {update.memberId};
      }
      EvaluateAllAgainstSelf(peers, now);
      OthersUntouched(Settings(), fed, peers);
      WarnedAboutAll(Settings(), fed, peers, warnings[|old(warnings)|..]);
      IngestIsPlain(Settings(), thresholdMeters, fed, old(warned), warned, warnings[|old(warnings)|..]);
    }

    method EvaluateAllAgainstSelf(peers: set<MemberId>, now: Millis)
      requires fed != [] && fed[|fed| - 1].now == now && latestByMember == LatestAfter(fed) && peers <= latestByMember.Keys
      requires peers != {} ==> selfMemberId in latestByMember
      requires forall p | p in peers :: p != selfMemberId
                                        && fed[|fed| - 1].update.memberId in {selfMemberId, p}
      requires TracksAmid(Settings(), fed, {}, warned)
      modifies this`warned, this`warnings
      ensures TracksAmid(Settings(), fed, peers, warned)
      ensures old(warnings) <= warnings
      ensures WarnedAbout(Settings(), fed, peers, warnings[|old(warnings)|..])
    {
      var todo := peers;
      ghost var more: seq<Warning> := [];
      while todo != {}
        invariant todo <= peers && warnings == old(warnings) + more
        invariant TracksAmid(Settings(), fed, peers - todo, warned)
        invariant WarnedAbout(Settings(), fed, peers - todo, more)
        decreases todo
      {
        var p :| p in todo;
        LatestKeyed(fed);
        ghost var before, was := warnings, warned;
        EvaluateAgainstSelf(latestByMember[selfMemberId], latestByMember[p], now);
        OneMoreEvaluated(Settings(), fed, peers - todo, was, p, warned, more, warnings[|before|..]);
        more := more + warnings[|before|..];
        assert peers - todo + {p} == peers - (todo - {p});
        todo := todo - {p};
      }
      assert peers - todo == peers;
      assert warnings[|old(warnings)|..] == more;
    }

    method EvaluateAgainstSelf(selfPos: Gps, other: Gps, now: Millis)
      modifies this`warned, this`warnings
      ensures var e := if IsStale(Settings(), selfPos, now) || IsStale(Settings(), other, now) then None
                       else Some(distance(selfPos, other));
              var was, flag := other.memberId in old(warned), NewFlag(Settings(), other.memberId in old(warned), e);
              && warned == (if flag then old(warned) + {other.memberId} else old(warned) - {other.memberId})
              && warnings == old(warnings) + if !was && flag then [Warning(other.memberId, e.value, now)] else []
    {
      if now - selfPos.timestamp > maxPositionAge || now - other.timestamp > maxPositionAge {
        assert warned == if other.memberId in warned then warned + {other.memberId} else warned - {other.memberId};
        return;
      }
      var d := distance(selfPos, other);
      var was := other.memberId in warned;
      if !was && d <= thresholdMeters {
        warned := warned + {other.memberId};
        warnings := warnings + [Warning(other.memberId, d, now)];
      } else if was && d > thresholdMeters * 1.2 {
        warned := warned - {other.memberId};
      }
    }
  }
}

/** Warns when a member falls behind (app/lib/features/convoy/domain/distance_watcher_service.dart). */
module DistanceWatcherService {
  import opened Wrappers
  import opened Wire
  import opened Hysteresis

  /** Breached above the threshold, re-armed at or below 0.8 times the threshold. */
  function BandOf(thresholdMeters: real): Band {
    Band(d => d > thresholdMeters, d => d <= thresholdMeters * 0.8)
  }

  lemma BandIsProper(thresholdMeters: real)
    ensures Proper(BandOf(thresholdMeters))
    ensures forall d: Metres :: !BandOf(thresholdMeters).enter(d) && !BandOf(thresholdMeters).leave(d)
                                <==> thresholdMeters * 0.8 < d <= thresholdMeters
  {
  }

  /** Sample i saw the peer above the threshold, every later evaluation saw it in the dead band. */
  ghost predicate LastSeenFar(c: Config, samples: seq<Sample>, peer: MemberId, thresholdMeters: real, i: nat) {
    && i < |samples|
    && EvaluationOf(c, samples, peer, i).Some? && EvaluationOf(c, samples, peer, i).value > thresholdMeters
    && forall j: nat | i < j < |samples| && EvaluationOf(c, samples, peer, j).Some? ::
         thresholdMeters * 0.8 < EvaluationOf(c, samples, peer, j).value <= thresholdMeters
  }

  /** For every stream: breached exactly when last seen outside the dead band above the threshold. */
  lemma BreachedMeansLastSeenFar(c: Config, samples: seq<Sample>, peer: MemberId, thresholdMeters: real)
    requires c.band == BandOf(thresholdMeters)
    ensures Flagged(c, samples, peer) <==> exists i: nat :: LastSeenFar(c, samples, peer, thresholdMeters, i)
  {
    BandIsProper(thresholdMeters);
    FlaggedMeansEnteredLast(c, samples, peer);
    forall i: nat ensures EnteredLast(c, samples, peer, i) <==> LastSeenFar(c, samples, peer, thresholdMeters, i) {
      forall j: nat | j < |samples|
        ensures !Enters(c, samples, peer, j) && !Leaves(c, samples, peer, j)
                <==> (EvaluationOf(c, samples, peer, j).Some? ==>
                        thresholdMeters * 0.8 < EvaluationOf(c, samples, peer, j).value <= thresholdMeters)
      {
      }
    }
  }

  /**
   What one update does, told by the positions received: a peer is compared when the update is the peer's or
   the own one and neither position is older than `maxPositionAge`. Far, it is warned about, once and only if
   it was not before; at most 0.8 times the threshold away it is released; otherwise nothing changes.
   */
  ghost predicate StepIsPlain(self: MemberId, thresholdMeters: real, maxPositionAge: Millis,
                              distance: (Gps, Gps) -> Metres, samples: seq<Sample>, before: set<MemberId>,
                              after: set<MemberId>, news: seq<Warning>)
    requires samples != []
  {
    && (forall p, i, j | Compares(self, samples, p, i, j) ::
          PeerIsPlain(thresholdMeters, maxPositionAge, distance, samples, before, after, news, p, i, j))
    && (forall p | forall i, j :: !Compares(self, samples, p, i, j) ::
          (p in after <==> p in before) && NoneAbout(news, p))
  }

  ghost predicate PeerIsPlain(thresholdMeters: real, maxPositionAge: Millis, distance: (Gps, Gps) -> Metres,
                              samples: seq<Sample>, before: set<MemberId>, after: set<MemberId>, news: seq<Warning>,
                              p: MemberId, i: nat, j: nat)
    requires i < |samples| && j < |samples|
  {
    var own, other, now := samples[i].update, samples[j].update, samples[|samples| - 1].now;
    if now - own.timestamp <= maxPositionAge && now - other.timestamp <= maxPositionAge then
      var d := distance(own, other);
      if d > thresholdMeters then
        p in after && if p in before then NoneAbout(news, p) else OneAbout(news, Warning(p, d, now))
      else NoneAbout(news, p) && if d <= thresholdMeters * 0.8 then p !in after else (p in after <==> p in before)
    else (p in after <==> p in before) && NoneAbout(news, p)
  }

  lemma IngestIsPlain(c: Config, thresholdMeters: real, samples: seq<Sample>, before: set<MemberId>,
                      after: set<MemberId>, news: seq<Warning>)
    requires samples != [] && c.band == BandOf(thresholdMeters) && Ingested(c, samples, before, after, news)
    ensures StepIsPlain(c.self, thresholdMeters, c.maxAge, c.distance, samples, before, after, news)
  {
    BandIsProper(thresholdMeters);
    forall p, i, j | Compares(c.self, samples, p, i, j)
      ensures PeerIsPlain(thresholdMeters, c.maxAge, c.distance, samples, before, after, news, p, i, j)
    {
      FreshPositionsAreCompared(c, samples, p, i, j);
      if EvaluationAt(c, samples, p).Some? {
        ComparisonDecides(c, samples, before, after, news, p, EvaluationAt(c, samples, p).value);
      } else {
        NothingHappens(c, samples, before, after, news, p);
      }
    }
    forall p | forall i, j :: !Compares(c.self, samples, p, i, j)
      ensures (p in after <==> p in before) && NoneAbout(news, p)
    {
      OthersAreNotCompared(c, samples, p);
      NothingHappens(c, samples, before, after, news, p);
    }
  }

  class DistanceWatcherService {
    const selfMemberId: MemberId
    const thresholdMeters: real
    const maxPositionAge: Millis
    const distance: (Gps, Gps) -> Metres
    var latest: map<MemberId, Gps>
    var breached: set<MemberId>
    var warnings: seq<Warning>
    ghost var fed: seq<Sample>

    ghost function Settings(): Config {
      Config(selfMemberId, maxPositionAge, distance, BandOf(thresholdMeters))
    }

    ghost predicate Valid() reads this {
      Tracks(Settings(), fed, latest, breached)
    }

    constructor (selfMemberId: MemberId, thresholdMeters: real, maxPositionAge: Millis, distance: (Gps, Gps) -> Metres)
      ensures Valid() && fed == [] && warnings == []
      ensures Settings() == Config(selfMemberId, maxPositionAge, distance, BandOf(thresholdMeters))
    {
      this.selfMemberId, this.thresholdMeters := selfMemberId, thresholdMeters;
      this.maxPositionAge, this.distance := maxPositionAge, distance;
      latest, breached, warnings, fed := map[], {}, [], [];
    }

    /** Feeds one update; `now` is the clock reading during the call. */
    method Ingest(update: Gps, now: Millis)
      requires Valid()
      modifies this
      ensures Valid() && fed == old(fed) + [Sample(update, now)]
      ensures old(warnings) <= warnings
      ensures WarnedAbout(Settings(), fed, AllPeers(fed), warnings[|old(warnings)|..])
      ensures StepIsPlain(selfMemberId, thresholdMeters, maxPositionAge, distance, fed, old(breached), breached,
                          warnings[|old(warnings)|..])
    {
      fed := fed + [Sample(update, now)];
      assert fed[..|fed| - 1] == old(fed);
      latest := latest[update.memberId := update];
      LatestKeyed(fed);
      var peers: set<MemberId> := {};
      if selfMemberId in latest {
        peers := if update.memberId == selfMemberId then latest.Keys - {selfMemberId} else {update.memberId};
      }
      EvaluateAll(peers, now);
      OthersUntouched(Settings(), fed, peers);
      WarnedAboutAll(Settings(), fed, peers, warnings[|old(warnings)|..]);
      IngestIsPlain(Settings(), thresholdMeters, fed, old(breached), breached, warnings[|old(warnings)|..]);
    }

    method EvaluateAll(peers: set<MemberId>, now: Millis)
      requires fed != [] && fed[|fed| - 1].now == now && latest == LatestAfter(fed) && peers <= latest.Keys
      requires peers != {} ==> selfMemberId in latest
      requires forall p | p in peers :: p != selfMemberId
                                        && fed[|fed| - 1].update.memberId in {selfMemberId, p}
      requires TracksAmid(Settings(), fed, {}, breached)
      modifies this`breached, this`warnings
      ensures TracksAmid(Settings(), fed, peers, breached)
      ensures old(warnings) <= warnings
      ensures WarnedAbout(Settings(), fed, peers, warnings[|old(warnings)|..])
    {
      var todo := peers;
      ghost var more: seq<Warning> := [];
      while todo != {}
        invariant todo <= peers && warnings == old(warnings) + more
        invariant TracksAmid(Settings(), fed, peers - todo, breached)
        invariant WarnedAbout(Settings(), fed, peers - todo, more)
        decreases todo
      {
        var p :| p in todo;
        LatestKeyed(fed);
        ghost var before, was := warnings, breached;
        Evaluate(latest[selfMemberId], latest[p], now);
        OneMoreEvaluated(Settings(), fed, peers - todo, was, p, breached, more, warnings[|before|..]);
        more := more + warnings[|before|..];
        assert peers - todo + {p} == peers - (todo - {p});
        todo := todo - {p};
      }
      assert peers - todo == peers;
      assert warnings[|old(warnings)|..] == more;
    }

    method Evaluate(selfPos: Gps, other: Gps, now: Millis)
      modifies this`breached, this`warnings
      ensures var e := if IsStale(Settings(), selfPos, now) || IsStale(Settings(), other, now) then None
                       else Some(distance(selfPos, other));
              var was, flag := other.memberId in old(breached), NewFlag(Settings(), other.memberId in old(breached), e);
              && breached == (if flag then old(breached) + {other.memberId} else old(breached) - {other.memberId})
              && warnings == old(warnings) + if !was && flag then [Warning(other.memberId, e.value, now)] else []
    {
      if now - selfPos.timestamp > maxPositionAge || now - other.timestamp > maxPositionAge {
        assert breached == if other.memberId in breached then breached + {other.memberId} else breached - {other.memberId};
        return;
      }
      var d := distance(selfPos, other);
      var was := other.memberId in breached;
      if !was && d > thresholdMeters {
        breached := breached + {other.memberId};
        warnings := warnings + [Warning(other.memberId, d, now)];
      } else if was && d <= thresholdMeters * 0.8 {
        breached := breached - {other.memberId};
      }
    }
  }
}
