/**
 The shared snapshot store: one Redis hash per convoy with an expiring key, proved to answer like the
 in-memory store (backend/src/realtime/redis_snapshot_store.ts).
 */
module RedisSnapshotStore {
  import opened Wrappers
  import opened Wire
  import opened SnapshotStore

  const KEY_PREFIX := "crewlink:snapshot:"
  const HAZARD_FIELD_PREFIX := "hazard:"
  const TOUR_FIELD := "tour"
  const WAYPOINT_FIELD := "waypoint"
  const SNAPSHOT_TTL: Millis := 24 * 60 * 60 * 1000

  /** Payload text; parsing gives back the payload that was written. */
  datatype Json = HazardJson(hazard: Hazard) | TourJson(tour: Tour) | WaypointJson(waypoint: Waypoint)

  type Fields = map<string, Json>

  /** A hash that holds no field does not exist. */
  datatype Hash = Hash(fields: Fields, deadline: Option<Millis>)

  type Redis = map<string, Hash>

  function KeyFor(convoyId: ConvoyId): string { KEY_PREFIX + convoyId }

  function HazardField(id: HazardId): string { HAZARD_FIELD_PREFIX + id }

  // ---------------------------------------------------------------- the Redis commands used

  predicate Live(db: Redis, key: string, now: Millis) {
    key in db && (db[key].deadline.None? || now < db[key].deadline.value)
  }

  function HGetAll(db: Redis, key: string, now: Millis): Fields {
    if Live(db, key, now) then db[key].fields else map[]
  }

  function HSet(db: Redis, key: string, field: string, value: Json, now: Millis): Redis {
    db[key := Hash(HGetAll(db, key, now)[field := value], if Live(db, key, now) then db[key].deadline else None)]
  }

  function WithFields(db: Redis, key: string, fields: Fields): Redis
    requires key in db
  {
    if fields == map[] then db - {key} else db[key := db[key].(fields := fields)]
  }

  function HDel(db: Redis, key: string, field: string, now: Millis): Redis {
    if Live(db, key, now) then WithFields(db, key, db[key].fields - {field}) else db
  }

  function Expire(db: Redis, key: string, ttl: Millis, now: Millis): Redis {
    if Live(db, key, now) then db[key := db[key].(deadline := Some(now + ttl))] else db
  }

  // ---------------------------------------------------------------- the store's operations

  predicate Transient(frame: Frame) {
    frame.GpsFrame? || frame.CheckInFrame? || frame.StatusFrame?
  }

  predicate IsHazardField(field: string) { HAZARD_FIELD_PREFIX <= field }

  function DecodeField(field: string, value: Json): Option<Frame> {
    if IsHazardField(field) then
      if value.HazardJson? then Some(HazardFrame(value.hazard)) else None
    else if field == TOUR_FIELD then
      if value.TourJson? then Some(TourFrame(value.tour)) else None
    else if field == WAYPOINT_FIELD then
      if value.WaypointJson? then Some(WaypointFrame(Some(value.waypoint))) else None
    else None
  }

  /** The write `record` issues before it refreshes the key's lifetime. */
  function Written(db: Redis, key: string, frame: Frame, now: Millis): Redis {
    match frame
    case HazardFrame(h) => HSet(db, key, HazardField(h.id), HazardJson(h), now)
    case HazardRemoveFrame(id) => HDel(db, key, HazardField(id), now)
    case TourFrame(t) => if |t.stops| > 0 then HSet(db, key, TOUR_FIELD, TourJson(t), now)
                         else HDel(db, key, TOUR_FIELD, now)
    case WaypointFrame(Some(p)) => HSet(db, key, WAYPOINT_FIELD, WaypointJson(p), now)
    case WaypointFrame(None) => HDel(db, key, WAYPOINT_FIELD, now)
    case _ => db
  }

  /** Transient frames neither write nor keep the snapshot alive. */
  function Recorded(db: Redis, convoyId: ConvoyId, frame: Frame, now: Millis): Redis {
    if Transient(frame) then db
    else Expire(Written(db, KeyFor(convoyId), frame, now), KeyFor(convoyId), SNAPSHOT_TTL, now)
  }

  predicate ExpiredField(field: string, value: Json, now: Millis) {
    var frame := DecodeField(field, value);
    frame.Some? && frame.value.HazardFrame? && Expired(frame.value.hazard, now)
  }

  ghost function FieldFrames(fields: Fields, names: set<string>, now: Millis): set<Frame> {
    set f | f in names && f in fields && DecodeField(f, fields[f]).Some? && !ExpiredField(f, fields[f], now)
      :: DecodeField(f, fields[f]).value
  }

  function LeftAfterPrune(fields: Fields, now: Millis): Fields {
    map f | f in fields && !ExpiredField(f, fields[f], now) :: fields[f]
  }

  function Pruned(db: Redis, key: string, now: Millis): Redis {
    if Live(db, key, now) then WithFields(db, key, LeftAfterPrune(db[key].fields, now)) else db
  }

  function ReporterAt(db: Redis, convoyId: ConvoyId, id: HazardId, now: Millis): Option<MemberId> {
    var fields := HGetAll(db, KeyFor(convoyId), now);
    if HazardField(id) !in fields then None
    else
      match DecodeField(HazardField(id), fields[HazardField(id)])
      case Some(HazardFrame(h)) => Some(h.reporterId)
      case _ => None
  }

  // ---------------------------------------------------------------- which world a hash stands for

  function IdOf(field: string): HazardId
    requires IsHazardField(field)
  {
    field[|HAZARD_FIELD_PREFIX|..]
  }

  /** The value a field must have in a hash that stands for `w`; None if it must be absent. */
  function ValueIn(w: World, field: string): Option<Json> {
    if IsHazardField(field) then
      if IdOf(field) in w.hazards then Some(HazardJson(w.hazards[IdOf(field)])) else None
    else if field == TOUR_FIELD then
      if w.tour.Some? then Some(TourJson(w.tour.value)) else None
    else if field == WAYPOINT_FIELD then
      if w.waypoint.Some? then Some(WaypointJson(w.waypoint.value)) else None
    else None
  }

  function Lookup(fields: Fields, field: string): Option<Json> {
    if field in fields then Some(fields[field]) else None
  }

  ghost predicate Represents(fields: Fields, w: World) {
    forall f :: Lookup(fields, f) == ValueIn(w, f)
  }

  /** Field names never collide: hazards by id, and neither with the route nor with the waypoint. */
  lemma FieldNames(field: string, id: HazardId)
    ensures field == HazardField(id) <==> IsHazardField(field) && IdOf(field) == id
    ensures !IsHazardField(TOUR_FIELD) && !IsHazardField(WAYPOINT_FIELD) && TOUR_FIELD != WAYPOINT_FIELD
  {
    assert IsHazardField(field) ==> field == HAZARD_FIELD_PREFIX + field[|HAZARD_FIELD_PREFIX|..];
    assert HazardField(id)[|HAZARD_FIELD_PREFIX|..] == id;
    assert HAZARD_FIELD_PREFIX[0] == 'h' && TOUR_FIELD[0] == 't' && WAYPOINT_FIELD[0] == 'w';
  }

  lemma KeysInjective(a: ConvoyId, b: ConvoyId)
    ensures KeyFor(a) == KeyFor(b) ==> a == b
  {
    assert KeyFor(a)[|KEY_PREFIX|..] == a && KeyFor(b)[|KEY_PREFIX|..] == b;
  }

  /** The field a recorded frame writes, and what it writes there (None deletes). */
  function WrittenField(frame: Frame): (string, Option<Json>)
    requires !Transient(frame)
  {
    match frame
    case HazardFrame(h) => (HazardField(h.id), Some(HazardJson(h)))
    case HazardRemoveFrame(id) => (HazardField(id), None)
    case TourFrame(t) => (TOUR_FIELD, if |t.stops| > 0 then Some(TourJson(t)) else None)
    case WaypointFrame(p) => (WAYPOINT_FIELD, if p.Some? then Some(WaypointJson(p.value)) else None)
  }

  function Put(fields: Fields, field: string, value: Option<Json>): Fields {
    if value.Some? then fields[field := value.value] else fields - {field}
  }

  lemma WriteRepresents(fields: Fields, w: World, frame: Frame)
    requires Represents(fields, w) && !Transient(frame)
    ensures Represents(Put(fields, WrittenField(frame).0, WrittenField(frame).1), RecordFrame(w, frame))
  {
    var (field, value) := WrittenField(frame);
    forall f ensures Lookup(Put(fields, field, value), f) == ValueIn(RecordFrame(w, frame), f) {
      assert Lookup(fields, f) == ValueIn(w, f);
      match frame {
        case HazardFrame(h) => FieldNames(f, h.id);
        case HazardRemoveFrame(id) => FieldNames(f, id);
        case _ => FieldNames(f, "");
      }
    }
  }

  /** The frames read from the hash are the frames of the world it stands for. */
  lemma FramesRepresent(fields: Fields, w: World, now: Millis)
    requires Represents(fields, w)
    ensures FieldFrames(fields, fields.Keys, now) == ReplayFrames(w, now)
  {
    var read, wanted := FieldFrames(fields, fields.Keys, now), ReplayFrames(w, now);
    forall g | g in read ensures g in wanted {
      var f :| f in fields.Keys && DecodeField(f, fields[f]) == Some(g) && !ExpiredField(f, fields[f], now);
      FieldFrameIsWanted(fields, w, now, f);
    }
    forall g | g in wanted ensures g in read {
      WantedFrameIsRead(fields, w, now, g);
    }
  }

  lemma FieldFrameIsWanted(fields: Fields, w: World, now: Millis, f: string)
    requires Represents(fields, w) && f in fields
    requires DecodeField(f, fields[f]).Some? && !ExpiredField(f, fields[f], now)
    ensures DecodeField(f, fields[f]).value in ReplayFrames(w, now)
  {
    FieldNames(f, "");
    assert Lookup(fields, f) == ValueIn(w, f);
    if IsHazardField(f) {
      assert IdOf(f) in w.hazards.Keys;
      assert HazardFrame(w.hazards[IdOf(f)]) in HazardFrames(w, w.hazards.Keys, now);
    }
  }

  lemma WantedFrameIsRead(fields: Fields, w: World, now: Millis, g: Frame)
    requires Represents(fields, w) && g in ReplayFrames(w, now)
    ensures g in FieldFrames(fields, fields.Keys, now)
  {
    var f;
    if g.HazardFrame? {
      var id :| id in w.hazards && g == HazardFrame(w.hazards[id]) && !Expired(w.hazards[id], now);
      f := HazardField(id);
      FieldNames(f, id);
    } else {
      f := if g.TourFrame? then TOUR_FIELD else WAYPOINT_FIELD;
      FieldNames(f, "");
    }
    assert Lookup(fields, f) == ValueIn(w, f);
    assert f in fields.Keys;
    assert DecodeField(f, fields[f]) == Some(g);
  }

  lemma PruneRepresents(fields: Fields, w: World, now: Millis)
    requires Represents(fields, w)
    ensures Represents(LeftAfterPrune(fields, now), PruneExpired(w, now))
  {
    forall f ensures Lookup(LeftAfterPrune(fields, now), f) == ValueIn(PruneExpired(w, now), f) {
      FieldNames(f, "");
      assert Lookup(fields, f) == ValueIn(w, f);
    }
  }

  lemma ReporterRepresents(fields: Fields, w: World, id: HazardId)
    requires Represents(fields, w)
    ensures ReporterIn(w, id) == match Lookup(fields, HazardField(id))
                                 case Some(HazardJson(h)) => Some(h.reporterId)
                                 case _ => None
  {
    FieldNames(HazardField(id), id);
    assert Lookup(fields, HazardField(id)) == ValueIn(w, HazardField(id));
  }

  // ---------------------------------------------------------------- both stores, call by call

  datatype Op = Record(frame: Frame) | Snapshot | Clear | HazardReporter(id: HazardId)

  datatype Call = Call(at: Millis, convoy: ConvoyId, op: Op)

  /** A snapshot is answered as a set of frames: the order is the store's own. */
  datatype Reply = Done | Frames(frames: set<Frame>) | Reporter(member: Option<MemberId>)

  type Memory = map<ConvoyId, World>

  function MemoryWorld(mem: Memory, c: ConvoyId): World {
    if c in mem then mem[c] else EMPTY_WORLD
  }

  function MemoryNext(mem: Memory, call: Call): Memory {
    match call.op
    case Record(frame) => mem[call.convoy := RecordFrame(MemoryWorld(mem, call.convoy), frame)]
    case Snapshot => if call.convoy in mem then mem[call.convoy := PruneExpired(mem[call.convoy], call.at)] else mem
    case Clear => mem - {call.convoy}
    case HazardReporter(_) => mem
  }

  ghost function MemoryReply(mem: Memory, call: Call): Reply {
    match call.op
    case Snapshot => Frames(ReplayFrames(MemoryWorld(mem, call.convoy), call.at))
    case HazardReporter(id) => Reporter(ReporterIn(MemoryWorld(mem, call.convoy), id))
    case _ => Done
  }

  function RedisNext(db: Redis, call: Call): Redis {
    match call.op
    case Record(frame) => Recorded(db, call.convoy, frame, call.at)
    case Snapshot => Pruned(db, KeyFor(call.convoy), call.at)
    case Clear => db - {KeyFor(call.convoy)}
    case HazardReporter(_) => db
  }

  ghost function RedisReply(db: Redis, call: Call): Reply {
    match call.op
    case Snapshot =>
      var fields := HGetAll(db, KeyFor(call.convoy), call.at);
      Frames(FieldFrames(fields, fields.Keys, call.at))
    case HazardReporter(id) => Reporter(ReporterAt(db, call.convoy, id, call.at))
    case _ => Done
  }

  /** When the convoy's snapshot was last kept alive. */
  type Refreshed = map<ConvoyId, Millis>

  function NextRefreshed(last: Refreshed, call: Call): Refreshed {
    if call.op.Record? && !Transient(call.op.frame) then last[call.convoy := call.at] else last
  }

  /** The call comes less than 24 h after the convoy's last non-transient record. */
  predicate InTime(last: Refreshed, call: Call) {
    call.convoy in last ==> call.at < last[call.convoy] + 86_400_000
  }

  /** What the key holds, whether or not its time is up. */
  function Stored(db: Redis, c: ConvoyId): Fields {
    if KeyFor(c) in db then db[KeyFor(c)].fields else map[]
  }

  ghost predicate Tracks(db: Redis, mem: Memory, last: Refreshed, c: ConvoyId) {
    && Represents(Stored(db, c), MemoryWorld(mem, c))
    && (KeyFor(c) in db ==> c in last && db[KeyFor(c)].deadline == Some(last[c] + SNAPSHOT_TTL))
  }

  ghost predicate Refines(db: Redis, mem: Memory, last: Refreshed) {
    forall c :: Tracks(db, mem, last, c)
  }

  lemma OthersUntouched(db: Redis, mem: Memory, last: Refreshed, call: Call, c: ConvoyId)
    requires Tracks(db, mem, last, c) && c != call.convoy
    ensures Tracks(RedisNext(db, call), MemoryNext(mem, call), NextRefreshed(last, call), c)
  {
    KeysInjective(c, call.convoy);
  }

  /** On a key that is not overdue the write changes one field. */
  lemma WriteIsStored(db: Redis, c: ConvoyId, frame: Frame, at: Millis)
    requires !Transient(frame) && (KeyFor(c) in db ==> Live(db, KeyFor(c), at))
    ensures var (field, value) := WrittenField(frame);
            && Stored(Written(db, KeyFor(c), frame, at), c) == Put(Stored(db, c), field, value)
            && Stored(Recorded(db, c, frame, at), c) == Put(Stored(db, c), field, value)
    ensures KeyFor(c) in Written(db, KeyFor(c), frame, at) ==> Live(Written(db, KeyFor(c), frame, at), KeyFor(c), at)
  {
  }

  lemma RecordTracks(db: Redis, mem: Memory, last: Refreshed, call: Call)
    requires call.op.Record? && Tracks(db, mem, last, call.convoy) && InTime(last, call)
    ensures Tracks(RedisNext(db, call), MemoryNext(mem, call), NextRefreshed(last, call), call.convoy)
  {
    var key, frame, w := KeyFor(call.convoy), call.op.frame, MemoryWorld(mem, call.convoy);
    if Transient(frame) {
      assert RecordFrame(w, frame) == w;
    } else {
      WriteRepresents(Stored(db, call.convoy), w, frame);
      WriteIsStored(db, call.convoy, frame, call.at);
    }
  }

  /** One call in time: same answer, and the hash still stands for the same world. */
  lemma CallRefines(db: Redis, mem: Memory, last: Refreshed, call: Call)
    requires Refines(db, mem, last) && InTime(last, call)
    ensures RedisReply(db, call) == MemoryReply(mem, call)
    ensures Refines(RedisNext(db, call), MemoryNext(mem, call), NextRefreshed(last, call))
  {
    var c := call.convoy;
    var fields, w := Stored(db, c), MemoryWorld(mem, c);
    assert Tracks(db, mem, last, c);
    assert HGetAll(db, KeyFor(c), call.at) == fields;
    match call.op {
      case Record(_) => RecordTracks(db, mem, last, call);
      case Snapshot =>
        FramesRepresent(fields, w, call.at);
        PruneRepresents(fields, w, call.at);
        assert LeftAfterPrune(map[], call.at) == map[];
        assert PruneExpired(EMPTY_WORLD, call.at) == EMPTY_WORLD;
        assert Stored(RedisNext(db, call), c) == LeftAfterPrune(fields, call.at);
      case Clear =>
        forall f ensures Lookup(map[], f) == ValueIn(EMPTY_WORLD, f) {}
      case HazardReporter(id) =>
        ReporterRepresents(fields, w, id);
        FieldNames(HazardField(id), id);
    }
    forall d ensures Tracks(RedisNext(db, call), MemoryNext(mem, call), NextRefreshed(last, call), d) {
      assert Tracks(db, mem, last, d);
      if d != c {
        OthersUntouched(db, mem, last, call, d);
      }
    }
  }

  function RedisAfter(calls: seq<Call>): Redis {
    if calls == [] then map[] else RedisNext(RedisAfter(calls[..|calls| - 1]), calls[|calls| - 1])
  }

  function MemoryAfter(calls: seq<Call>): Memory {
    if calls == [] then map[] else MemoryNext(MemoryAfter(calls[..|calls| - 1]), calls[|calls| - 1])
  }

  function RefreshedAfter(calls: seq<Call>): Refreshed {
    if calls == [] then map[] else NextRefreshed(RefreshedAfter(calls[..|calls| - 1]), calls[|calls| - 1])
  }

  ghost predicate AllInTime(calls: seq<Call>) {
    forall i | 0 <= i < |calls| :: InTime(RefreshedAfter(calls[..i]), calls[i])
  }

  lemma {:induction false} RunRefines(calls: seq<Call>)
    requires AllInTime(calls)
    ensures Refines(RedisAfter(calls), MemoryAfter(calls), RefreshedAfter(calls))
  {
    if calls == [] {
      forall c ensures Tracks(map[], map[], map[], c) {
        forall f ensures Lookup(map[], f) == ValueIn(EMPTY_WORLD, f) {}
      }
    } else {
      var init, last := calls[..|calls| - 1], calls[|calls| - 1];
      assert forall i | 0 <= i < |init| :: init[..i] == calls[..i];
      RunRefines(init);
      CallRefines(RedisAfter(init), MemoryAfter(init), RefreshedAfter(init), last);
    }
  }

  /** The two stores give the same answer to every call of every sequence of calls that come in time. */
  lemma StoresAnswerAlike(calls: seq<Call>, i: nat)
    requires AllInTime(calls) && i < |calls|
    ensures RedisReply(RedisAfter(calls[..i]), calls[i]) == MemoryReply(MemoryAfter(calls[..i]), calls[i])
  {
    assert forall j | 0 <= j < i :: calls[..i][..j] == calls[..j];
    RunRefines(calls[..i]);
    CallRefines(RedisAfter(calls[..i]), MemoryAfter(calls[..i]), RefreshedAfter(calls[..i]), calls[i]);
  }

  /**
   The lifetime is the only difference: a snapshot that may come late is answered alike exactly when it is
   in time or the in-memory store has nothing left to replay.
   */
  lemma LateSnapshotAgreesExactlyWhen(calls: seq<Call>, call: Call)
    requires AllInTime(calls) && call.op == Snapshot
    ensures RedisReply(RedisAfter(calls), call) == MemoryReply(MemoryAfter(calls), call)
            <==> InTime(RefreshedAfter(calls), call)
                 || ReplayFrames(MemoryWorld(MemoryAfter(calls), call.convoy), call.at) == {}
  {
    RunRefines(calls);
    var db, mem, last := RedisAfter(calls), MemoryAfter(calls), RefreshedAfter(calls);
    assert Tracks(db, mem, last, call.convoy);
    if InTime(last, call) {
      CallRefines(db, mem, last, call);
    } else if KeyFor(call.convoy) in db {
      assert !Live(db, KeyFor(call.convoy), call.at);
    } else {
      FramesRepresent(map[], MemoryWorld(mem, call.convoy), call.at);
    }
  }

  /** The same for a reporter asked for late: alike exactly when in time, or when the hazard is unknown. */
  lemma LateReporterAgreesExactlyWhen(calls: seq<Call>, call: Call)
    requires AllInTime(calls) && call.op.HazardReporter?
    ensures RedisReply(RedisAfter(calls), call) == MemoryReply(MemoryAfter(calls), call)
            <==> InTime(RefreshedAfter(calls), call)
                 || call.op.id !in MemoryWorld(MemoryAfter(calls), call.convoy).hazards
  {
    RunRefines(calls);
    var db, mem, last := RedisAfter(calls), MemoryAfter(calls), RefreshedAfter(calls);
    assert Tracks(db, mem, last, call.convoy);
    if InTime(last, call) {
      CallRefines(db, mem, last, call);
    } else if KeyFor(call.convoy) in db {
      assert !Live(db, KeyFor(call.convoy), call.at);
    } else {
      ReporterRepresents(map[], MemoryWorld(mem, call.convoy), call.op.id);
    }
  }

  /** However many transient frames are recorded, they do not keep the snapshot alive. */
  lemma {:induction false} TransientsDoNotRefresh(calls: seq<Call>, more: seq<Call>)
    requires forall call | call in more :: call.op.Record? && Transient(call.op.frame)
    ensures RefreshedAfter(calls + more) == RefreshedAfter(calls) && RedisAfter(calls + more) == RedisAfter(calls)
    decreases more
  {
    if more == [] {
      assert calls + more == calls;
    } else {
      var init := more[..|more| - 1];
      TransientsDoNotRefresh(calls, init);
      assert (calls + more)[..|calls + more| - 1] == calls + init;
    }
  }

  // ---------------------------------------------------------------- overlapping operations

  /**
   What reaches Redis while a snapshot, having read the hash, deletes the expired fields one by one: frames
   recorded by others, and its own deletes.
   */
  datatype Overlap = Saved(frame: Frame, at: Millis) | Deleted(id: HazardId, at: Millis)

  function OverlapNext(db: Redis, c: ConvoyId, step: Overlap): Redis {
    match step
    case Saved(frame, at) => Recorded(db, c, frame, at)
    case Deleted(id, at) => HDel(db, KeyFor(c), HazardField(id), at)
  }

  function OverlapAfter(db: Redis, c: ConvoyId, steps: seq<Overlap>): Redis {
    if steps == [] then db else OverlapNext(OverlapAfter(db, c, steps[..|steps| - 1]), c, steps[|steps| - 1])
  }

  /** No step comes after the key's time is up. */
  ghost predicate OverlapInTime(db: Redis, c: ConvoyId, steps: seq<Overlap>) {
    forall i | 0 <= i < |steps| :: NotOverdue(OverlapAfter(db, c, steps[..i]), c, steps[i].at)
  }

  predicate NotOverdue(db: Redis, c: ConvoyId, at: Millis) {
    KeyFor(c) in db ==> Live(db, KeyFor(c), at)
  }

  function SavedFrames(steps: seq<Overlap>): seq<Frame> {
    if steps == [] then []
    else SavedFrames(steps[..|steps| - 1])
         + if steps[|steps| - 1].Saved? then [steps[|steps| - 1].frame] else []
  }

  /** What the in-memory store, whose snapshot prunes without a pause, would hold. */
  function WithoutOverlap(w: World, now: Millis, steps: seq<Overlap>): World {
    RecordAll(PruneExpired(w, now), SavedFrames(steps))
  }

  /** The deletes hit whatever is stored under the id by then. */
  function WithOverlap(w: World, steps: seq<Overlap>): World {
    if steps == [] then w
    else
      var before := WithOverlap(w, steps[..|steps| - 1]);
      match steps[|steps| - 1]
      case Saved(frame, _) => RecordFrame(before, frame)
      case Deleted(id, _) => RecordFrame(before, HazardRemoveFrame(id))
  }

  /** Exactly the hazards that had expired when the hash was read are deleted. */
  ghost predicate DeletesExpired(w: World, now: Millis, steps: seq<Overlap>) {
    forall id :: IsDeleted(steps, id) <==> id in w.hazards && Expired(w.hazards[id], now)
  }

  predicate IsDeleted(steps: seq<Overlap>, id: HazardId) {
    steps != [] && ((steps[|steps| - 1].Deleted? && steps[|steps| - 1].id == id) || IsDeleted(steps[..|steps| - 1], id))
  }

  /** The last thing that happened to this id: a report made since the hash was read has been deleted. */
  predicate ReportLost(w: World, now: Millis, steps: seq<Overlap>, id: HazardId) {
    steps != [] &&
    var init := steps[..|steps| - 1];
    match steps[|steps| - 1]
    case Deleted(other, _) =>
      if other == id then id in WithoutOverlap(w, now, init).hazards else ReportLost(w, now, init, id)
    case Saved(frame, _) =>
      (frame.HazardFrame? ==> frame.hazard.id != id) && (frame.HazardRemoveFrame? ==> frame.hazardId != id)
      && ReportLost(w, now, init, id)
  }

  ghost predicate NothingLost(w: World, now: Millis, steps: seq<Overlap>) {
    forall id :: !ReportLost(w, now, steps, id)
  }

  function HeldIn(w: World, id: HazardId): Option<Hazard> {
    if id in w.hazards then Some(w.hazards[id]) else None
  }

  lemma WithoutOverlapStep(w: World, now: Millis, steps: seq<Overlap>)
    requires steps != []
    ensures WithoutOverlap(w, now, steps)
            == (var init := WithoutOverlap(w, now, steps[..|steps| - 1]);
                match steps[|steps| - 1]
                case Saved(frame, _) => RecordFrame(init, frame)
                case Deleted(_, _) => init)
  {
    var init, last := steps[..|steps| - 1], steps[|steps| - 1];
    if last.Saved? {
      assert SavedFrames(steps)[..|SavedFrames(init)|] == SavedFrames(init);
    } else {
      assert SavedFrames(steps) == SavedFrames(init);
    }
  }

  /** What a frame makes of one id. */
  function HeldAfter(before: Option<Hazard>, frame: Frame, id: HazardId): Option<Hazard> {
    match frame
    case HazardFrame(h) => if h.id == id then Some(h) else before
    case HazardRemoveFrame(other) => if other == id then None else before
    case _ => before
  }

  lemma RecordHeld(w: World, frame: Frame, id: HazardId)
    ensures HeldIn(RecordFrame(w, frame), id) == HeldAfter(HeldIn(w, id), frame, id)
  {
  }

  /** Route and waypoint are never at risk. */
  lemma {:induction false} OverlapSparesTheRest(w: World, now: Millis, steps: seq<Overlap>)
    ensures WithOverlap(w, steps).tour == WithoutOverlap(w, now, steps).tour
    ensures WithOverlap(w, steps).waypoint == WithoutOverlap(w, now, steps).waypoint
  {
    if steps != [] {
      OverlapSparesTheRest(w, now, steps[..|steps| - 1]);
      WithoutOverlapStep(w, now, steps);
    }
  }

  lemma HeldStep(w: World, now: Millis, steps: seq<Overlap>, id: HazardId)
    requires steps != []
    ensures var init, last := steps[..|steps| - 1], steps[|steps| - 1];
            var frame := if last.Saved? then last.frame else HazardRemoveFrame(last.id);
            && HeldIn(WithOverlap(w, steps), id) == HeldAfter(HeldIn(WithOverlap(w, init), id), frame, id)
            && HeldIn(WithoutOverlap(w, now, steps), id)
               == (if last.Saved? then HeldAfter(HeldIn(WithoutOverlap(w, now, init), id), frame, id)
                   else HeldIn(WithoutOverlap(w, now, init), id))
  {
    var init, last := steps[..|steps| - 1], steps[|steps| - 1];
    WithoutOverlapStep(w, now, steps);
    RecordHeld(WithOverlap(w, init), if last.Saved? then last.frame else HazardRemoveFrame(last.id), id);
    if last.Saved? {
      RecordHeld(WithoutOverlap(w, now, init), last.frame, id);
    }
  }

  /** One id: what the overlap makes of it, against what it should be. */
  lemma {:induction false} OverlapAt(w: World, now: Millis, steps: seq<Overlap>, id: HazardId)
    ensures IsDeleted(steps, id) ==>
              (HeldIn(WithOverlap(w, steps), id) == HeldIn(WithoutOverlap(w, now, steps), id)
               <==> !ReportLost(w, now, steps, id))
    ensures !IsDeleted(steps, id) && !(id in w.hazards && Expired(w.hazards[id], now)) ==>
              HeldIn(WithOverlap(w, steps), id) == HeldIn(WithoutOverlap(w, now, steps), id)
    ensures !IsDeleted(steps, id) ==> !ReportLost(w, now, steps, id)
  {
    if steps != [] {
      OverlapAt(w, now, steps[..|steps| - 1], id);
      HeldStep(w, now, steps, id);
    }
  }

  /** A hash stands for one world only. */
  lemma RepresentsOne(fields: Fields, v: World, w: World)
    requires Represents(fields, v) && Represents(fields, w)
    ensures v == w
  {
    forall id ensures HeldIn(v, id) == HeldIn(w, id) {
      FieldNames(HazardField(id), id);
      assert ValueIn(v, HazardField(id)) == ValueIn(w, HazardField(id));
    }
    FieldNames("", "");
    assert ValueIn(v, TOUR_FIELD) == ValueIn(w, TOUR_FIELD) && ValueIn(v, WAYPOINT_FIELD) == ValueIn(w, WAYPOINT_FIELD);
    SameWorld(v, w);
  }

  lemma OverlapStepRepresents(db: Redis, c: ConvoyId, w: World, step: Overlap)
    requires Represents(Stored(db, c), w) && NotOverdue(db, c, step.at)
    ensures Represents(Stored(OverlapNext(db, c, step), c),
                       RecordFrame(w, if step.Saved? then step.frame else HazardRemoveFrame(step.id)))
  {
    var frame := if step.Saved? then step.frame else HazardRemoveFrame(step.id);
    if !Transient(frame) {
      WriteRepresents(Stored(db, c), w, frame);
      WriteIsStored(db, c, frame, step.at);
    }
  }

  lemma {:induction false} OverlapRepresents(db: Redis, c: ConvoyId, w: World, steps: seq<Overlap>)
    requires Represents(Stored(db, c), w) && OverlapInTime(db, c, steps)
    ensures Represents(Stored(OverlapAfter(db, c, steps), c), WithOverlap(w, steps))
  {
    if steps != [] {
      var init, last := steps[..|steps| - 1], steps[|steps| - 1];
      assert forall i | 0 <= i < |init| :: init[..i] == steps[..i];
      OverlapRepresents(db, c, w, init);
      assert NotOverdue(OverlapAfter(db, c, init), c, last.at);
      OverlapStepRepresents(OverlapAfter(db, c, init), c, WithOverlap(w, init), last);
    }
  }

  /**
   Exactly when a snapshot may overlap with records: whatever is recorded between its reading and its
   deletes, and between these, the hash ends up standing for what the in-memory store would hold if and only
   if no report made in the meantime was hit by a delete without being replaced or withdrawn later.
   */
  lemma OverlapIsHarmlessExactlyWhen(db: Redis, c: ConvoyId, w: World, now: Millis, steps: seq<Overlap>)
    requires Represents(Stored(db, c), w) && OverlapInTime(db, c, steps) && DeletesExpired(w, now, steps)
    ensures Represents(Stored(OverlapAfter(db, c, steps), c), WithoutOverlap(w, now, steps))
            <==> NothingLost(w, now, steps)
  {
    OverlapRepresents(db, c, w, steps);
    var held, ideal := WithOverlap(w, steps), WithoutOverlap(w, now, steps);
    forall id ensures HeldIn(held, id) == HeldIn(ideal, id) <==> !ReportLost(w, now, steps, id) {
      OverlapAt(w, now, steps, id);
    }
    OverlapSparesTheRest(w, now, steps);
    if Represents(Stored(OverlapAfter(db, c, steps), c), ideal) {
      RepresentsOne(Stored(OverlapAfter(db, c, steps), c), held, ideal);
    }
    if NothingLost(w, now, steps) {
      SameWorld(held, ideal);
    }
  }

  lemma SameWorld(v: World, w: World)
    requires v.tour == w.tour && v.waypoint == w.waypoint && forall id :: HeldIn(v, id) == HeldIn(w, id)
    ensures v == w
  {
    forall id ensures id in v.hazards <==> id in w.hazards
              ensures id in v.hazards ==> v.hazards[id] == w.hazards[id]
    {
      assert HeldIn(v, id) == HeldIn(w, id);
    }
    assert v.hazards == w.hazards;
  }

  lemma LastOfBoth<T>(a: seq<T>, b: seq<T>)
    requires b != []
    ensures (a + b)[|a + b| - 1] == b[|b| - 1] && (a + b)[..|a + b| - 1] == a + b[..|b| - 1]
  {
  }

  lemma {:induction false} SavedBeforeDeletes(saved: seq<Overlap>, deletes: seq<Overlap>)
    requires forall step | step in deletes :: step.Deleted?
    ensures SavedFrames(saved + deletes) == SavedFrames(saved)
    decreases deletes
  {
    if deletes == [] {
      assert saved + deletes == saved;
    } else {
      SavedBeforeDeletes(saved, deletes[..|deletes| - 1]);
      LastOfBoth(saved, deletes);
      assert deletes[|deletes| - 1] in deletes;
      assert SavedFrames(saved) + [] == SavedFrames(saved);
    }
  }

  lemma {:induction false} SavedLosesNothing(w: World, now: Millis, saved: seq<Overlap>, id: HazardId)
    requires forall step | step in saved :: step.Saved?
    ensures !ReportLost(w, now, saved, id) && !IsDeleted(saved, id)
  {
    if saved != [] {
      SavedLosesNothing(w, now, saved[..|saved| - 1], id);
    }
  }

  lemma {:induction false} DeletesOnly(w: World, now: Millis, saved: seq<Overlap>, deletes: seq<Overlap>, id: HazardId)
    requires (forall step | step in saved :: step.Saved?) && (forall step | step in deletes :: step.Deleted?)
    ensures ReportLost(w, now, saved + deletes, id)
            <==> IsDeleted(saved + deletes, id) && id in WithoutOverlap(w, now, saved).hazards
    decreases deletes
  {
    if deletes == [] {
      assert saved + deletes == saved;
      SavedLosesNothing(w, now, saved, id);
    } else {
      var init := deletes[..|deletes| - 1];
      DeletesOnly(w, now, saved, init, id);
      SavedBeforeDeletes(saved, init);
      LastOfBoth(saved, deletes);
      assert deletes[|deletes| - 1] in deletes;
    }
  }

  /** With all records between the reading and the first delete: no expired hazard has been reported anew. */
  lemma OverlapBeforeDeletes(db: Redis, c: ConvoyId, w: World, now: Millis, saved: seq<Overlap>, deletes: seq<Overlap>)
    requires (forall step | step in saved :: step.Saved?) && (forall step | step in deletes :: step.Deleted?)
    requires Represents(Stored(db, c), w) && OverlapInTime(db, c, saved + deletes)
    requires DeletesExpired(w, now, saved + deletes)
    ensures Represents(Stored(OverlapAfter(db, c, saved + deletes), c), WithoutOverlap(w, now, saved))
            <==> forall id | id in w.hazards && Expired(w.hazards[id], now) ::
                   id !in WithoutOverlap(w, now, saved).hazards
  {
    SavedBeforeDeletes(saved, deletes);
    OverlapIsHarmlessExactlyWhen(db, c, w, now, saved + deletes);
    forall id
      ensures ReportLost(w, now, saved + deletes, id)
              <==> id in w.hazards && Expired(w.hazards[id], now) && id in WithoutOverlap(w, now, saved).hazards
    {
      DeletesOnly(w, now, saved, deletes, id);
    }
  }

  /**
   The shortest harmful overlap, command by command: a report recorded under an expired id between the reading
   and the delete is gone.
   */
  lemma OverlappingPruneLosesReport(db: Redis, c: ConvoyId, stale: Hazard, update: Hazard, now: Millis)
    requires Lookup(HGetAll(db, KeyFor(c), now), HazardField(stale.id)) == Some(HazardJson(stale)) && Expired(stale, now)
    requires update.id == stale.id && !Expired(update, now)
    ensures var recorded := Recorded(db, c, HazardFrame(update), now);
            && ExpiredField(HazardField(stale.id), HazardJson(stale), now)
            && HazardFrame(update) in FieldFrames(HGetAll(recorded, KeyFor(c), now), {HazardField(update.id)}, now)
            && HazardField(update.id) !in HGetAll(HDel(recorded, KeyFor(c), HazardField(stale.id), now), KeyFor(c), now)
  {
    var field := HazardField(update.id);
    FieldNames(field, update.id);
    var recorded := Recorded(db, c, HazardFrame(update), now);
    assert HGetAll(recorded, KeyFor(c), now)[field] == HazardJson(update);
  }

  // ---------------------------------------------------------------- the store object

  /** What this store's own writes guarantee: no empty hash, and hazards stored under their own ids. */
  ghost predicate WellKept(db: Redis) {
    forall key | key in db :: db[key].fields != map[] && WellKeyed(db[key].fields)
  }

  ghost predicate WellKeyed(fields: Fields) {
    forall f | f in fields && IsHazardField(f) && fields[f].HazardJson? :: fields[f].hazard.id == IdOf(f)
  }

  lemma RecordKeepsWellKept(db: Redis, convoyId: ConvoyId, frame: Frame, now: Millis)
    requires WellKept(db)
    ensures WellKept(Recorded(db, convoyId, frame, now))
  {
    var key := KeyFor(convoyId);
    var db' := Written(db, key, frame, now);
    if frame.HazardFrame? {
      FieldNames(HazardField(frame.hazard.id), frame.hazard.id);
    } else {
      FieldNames("", "");
    }
    assert WellKeyed(HGetAll(db, key, now));
    if !Transient(frame) && key in db' && db' != db {
      var (field, value) := WrittenField(frame);
      assert value.Some? ==> field in db'[key].fields;
      assert WellKeyed(db'[key].fields);
    }
  }

  class RedisSnapshotStore {
    var redis: Redis

    ghost predicate Valid() reads this {
      WellKept(redis)
    }

    constructor ()
      ensures Valid() && redis == map[]
    {
      redis := map[];
    }

    method Record(convoyId: ConvoyId, frame: Frame, now: Millis)
      requires Valid()
      modifies this
      ensures Valid()
      ensures redis == RedisNext(old(redis), Call(now, convoyId, Op.Record(frame)))
    {
      var key := KeyFor(convoyId);
      RecordKeepsWellKept(redis, convoyId, frame, now);
      match frame {
        case HazardFrame(h) => redis := HSet(redis, key, HAZARD_FIELD_PREFIX + h.id, HazardJson(h), now);
        case HazardRemoveFrame(id) => redis := HDel(redis, key, HAZARD_FIELD_PREFIX + id, now);
        case TourFrame(t) =>
          if |t.stops| > 0 {
            redis := HSet(redis, key, TOUR_FIELD, TourJson(t), now);
          } else {
            redis := HDel(redis, key, TOUR_FIELD, now);
          }
        case WaypointFrame(p) =>
          if p.Some? {
            redis := HSet(redis, key, WAYPOINT_FIELD, WaypointJson(p.value), now);
          } else {
            redis := HDel(redis, key, WAYPOINT_FIELD, now);
          }
        case _ => return;
      }
      redis := Expire(redis, key, SNAPSHOT_TTL, now);
    }

    method Clear(convoyId: ConvoyId, now: Millis)
      requires Valid()
      modifies this
      ensures Valid()
      ensures redis == RedisNext(old(redis), Call(now, convoyId, Op.Clear))
    {
      redis := redis - {KeyFor(convoyId)};
    }

    method HazardReporter(convoyId: ConvoyId, hazardId: HazardId, now: Millis) returns (reporter: Option<MemberId>)
      ensures Reporter(reporter) == RedisReply(redis, Call(now, convoyId, Op.HazardReporter(hazardId)))
    {
      var field := HAZARD_FIELD_PREFIX + hazardId;
      var fields := HGetAll(redis, KeyFor(convoyId), now);
      if field !in fields {
        return None;
      }
      var frame := DecodeField(field, fields[field]);
      reporter := if frame.Some? && frame.value.HazardFrame? then Some(frame.value.hazard.reporterId) else None;
    }

    /** Reads the whole hash, then deletes the expired hazard fields one by one. */
    method Snapshot(convoyId: ConvoyId, now: Millis) returns (frames: seq<Frame>)
      requires Valid()
      modifies this
      ensures Valid()
      ensures redis == RedisNext(old(redis), Call(now, convoyId, Op.Snapshot))
      ensures var reply := RedisReply(old(redis), Call(now, convoyId, Op.Snapshot));
              multiset(frames) == multiset(reply.frames)
    {
      PruneKeepsWellKept(redis, KeyFor(convoyId), now);
      frames, redis := SweepFields(redis, KeyFor(convoyId), now);
    }
  }

  lemma PruneKeepsWellKept(db: Redis, key: string, now: Millis)
    requires WellKept(db)
    ensures WellKept(Pruned(db, key, now))
  {
    if Live(db, key, now) {
      assert WellKeyed(db[key].fields);
      assert WellKeyed(LeftAfterPrune(db[key].fields, now));
    }
  }

  /** The loop of `snapshot`, with the deletions it issues. */
  method SweepFields(db: Redis, key: string, now: Millis) returns (frames: seq<Frame>, redis: Redis)
    requires WellKept(db)
    ensures var fields := HGetAll(db, key, now);
            multiset(frames) == multiset(FieldFrames(fields, fields.Keys, now))
    ensures redis == Pruned(db, key, now)
  {
    var fields := HGetAll(db, key, now);
    assert WellKeyed(fields);
    frames, redis := [], db;
    var todo := fields.Keys;
    ghost var done: set<string> := {};
    assert Remaining(fields, todo, now) == fields;
    while todo != {}
      invariant done + todo == fields.Keys && done !! todo
      invariant multiset(frames) == multiset(FieldFrames(fields, done, now))
      invariant if Live(db, key, now) then redis == WithFields(db, key, Remaining(fields, todo, now)) else redis == db
      decreases todo
    {
      var field :| field in todo;
      var frame := DecodeField(field, fields[field]);
      FieldFramesInsert(fields, done, field, now);
      if ExpiredField(field, fields[field], now) {
        DeleteOne(db, redis, key, fields, todo, field, now);
        redis := HDel(redis, key, field, now);
      } else {
        assert Remaining(fields, todo - {field}, now) == Remaining(fields, todo, now);
        if frame.Some? {
          frames := frames + [frame.value];
        }
      }
      todo, done := todo - {field}, done + {field};
    }
    assert done == fields.Keys;
    assert Remaining(fields, {}, now) == LeftAfterPrune(fields, now);
  }

  /** The fields left when only `todo` has not been looked at yet. */
  function Remaining(fields: Fields, todo: set<string>, now: Millis): Fields {
    map f | f in fields && (f in todo || !ExpiredField(f, fields[f], now)) :: fields[f]
  }

  lemma DeleteOne(db: Redis, redis: Redis, key: string, fields: Fields, todo: set<string>, field: string, now: Millis)
    requires Live(db, key, now) && fields == db[key].fields
    requires redis == WithFields(db, key, Remaining(fields, todo, now))
    requires field in todo && field in fields && ExpiredField(field, fields[field], now)
    ensures HDel(redis, key, field, now) == WithFields(db, key, Remaining(fields, todo - {field}, now))
  {
    var rest := Remaining(fields, todo, now);
    assert field in rest;
    assert rest - {field} == Remaining(fields, todo - {field}, now);
  }

  lemma FieldFramesInsert(fields: Fields, done: set<string>, field: string, now: Millis)
    requires WellKeyed(fields) && field in fields && field !in done
    ensures multiset(FieldFrames(fields, done + {field}, now))
            == multiset(FieldFrames(fields, done, now))
               + (if DecodeField(field, fields[field]).Some? && !ExpiredField(field, fields[field], now)
                  then multiset{DecodeField(field, fields[field]).value} else multiset{})
  {
    var before, after := FieldFrames(fields, done, now), FieldFrames(fields, done + {field}, now);
    forall g | g in before
      ensures g in after
      ensures DecodeField(field, fields[field]) != Some(g)
    {
      var f :| f in done && f in fields && DecodeField(f, fields[f]) == Some(g) && !ExpiredField(f, fields[f], now);
      assert f in done + {field};
      FieldNames(f, if IsHazardField(field) then IdOf(field) else "");
      FieldNames(field, if IsHazardField(field) then IdOf(field) else "");
    }
    if DecodeField(field, fields[field]).Some? && !ExpiredField(field, fields[field], now) {
      assert field in done + {field};
      assert after == before + {DecodeField(field, fields[field]).value};
    } else {
      assert after == before;
    }
  }
}
