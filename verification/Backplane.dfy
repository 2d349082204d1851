/**
 The gateway as a step system: connections, snapshot replay, and frame handlers that may be suspended at
 an authorisation check while others run (backend/src/realtime/convoy_gateway.ts, frame_handler.ts).
 */
module Backplane {
  import opened Wrappers
  import opened Wire
  import opened SnapshotStore

  type ConnId = nat
  type HandlerId = nat

  /** `Loading` from registration until the snapshot promise resolves and its frames are sent. */
  datatype ReplayState = Loading(frames: seq<Frame>) | Replayed

  datatype Conn = Conn(member: MemberId, convoy: ConvoyId, inbox: seq<Frame>, replay: ReplayState)

  /** A handler waits for its check to be answered, then for its turn to continue. */
  datatype Check = Asking | Answered(pass: bool)

  /** A suspended frame handler; it keeps its own copy of the connection's context. */
  datatype Handler = Handler(member: MemberId, convoy: ConvoyId, frame: Frame, check: Check)

  /** `leaders` is what the membership table answers at this moment; it changes under our feet. */
  datatype State = State(
    leaderGate: bool, now: Millis, worlds: map<ConvoyId, World>,
    conns: map<ConnId, Conn>, handlers: map<HandlerId, Handler>, leaders: map<ConvoyId, MemberId>)

  datatype Event =
    | Tick(t: Millis)
    | SetLeader(convoy: ConvoyId, leader: MemberId)
    | Connect(conn: ConnId, member: MemberId, convoy: ConvoyId, frames: seq<Frame>)
    | Replay(conn: ConnId)
    | Close(conn: ConnId)
    | Message(conn: ConnId, handler: HandlerId, frame: Option<Frame>)
    | Answer(handler: HandlerId)
    | Resume(handler: HandlerId)

  function WorldOf(s: State, convoy: ConvoyId): World {
    if convoy in s.worlds then s.worlds[convoy] else EMPTY_WORLD
  }

  function InitialState(leaderGate: bool): State {
    State(leaderGate, 0, map[], map[], map[], map[])
  }

  /** A payload naming somebody else as its originator is dropped. */
  predicate ClaimHolds(frame: Frame, member: MemberId) {
    OriginatorOf(frame).None? || OriginatorOf(frame).value == member
  }

  predicate NeedsCheck(leaderGate: bool, frame: Frame) {
    frame.HazardRemoveFrame? || ((frame.TourFrame? || frame.WaypointFrame?) && leaderGate)
  }

  /** The reporter check passes for unknown hazards; the leader check asks for the convoy's owner. */
  predicate Verdict(s: State, h: Handler) {
    if h.frame.HazardRemoveFrame? then
      ReporterIn(WorldOf(s, h.convoy), h.frame.hazardId) in {None, Some(h.member)}
    else
      h.convoy in s.leaders && s.leaders[h.convoy] == h.member
  }

  /** Everybody in the convoy but the sender's own connections gets the frame. */
  function FanOut(conns: map<ConnId, Conn>, convoy: ConvoyId, frame: Frame, origin: MemberId): map<ConnId, Conn> {
    map id | id in conns ::
      if conns[id].convoy == convoy && conns[id].member != origin
      then conns[id].(inbox := conns[id].inbox + [frame])
      else conns[id]
  }

  /** Publish and record, with no await in between. */
  function Publish(s: State, convoy: ConvoyId, frame: Frame, origin: MemberId): State {
    s.(conns := FanOut(s.conns, convoy, frame, origin),
       worlds := s.worlds[convoy := RecordFrame(WorldOf(s, convoy), frame)])
  }

  ghost predicate Enabled(s: State, e: Event) {
    match e
    case Tick(t) => s.now <= t
    case SetLeader(_, _) => true
    case Connect(id, _, c, frames) => id !in s.conns && IsReplay(frames, WorldOf(s, c), s.now)
    case Replay(id) => id in s.conns && s.conns[id].replay.Loading?
    case Close(id) => id in s.conns
    case Message(id, h, _) => id in s.conns && h !in s.handlers
    case Answer(h) => h in s.handlers && s.handlers[h].check.Asking?
    case Resume(h) => h in s.handlers && s.handlers[h].check.Answered?
  }

  ghost function Next(s: State, e: Event): State
    requires Enabled(s, e)
  {
    match e
    case Tick(t) => s.(now := t)
    case SetLeader(c, m) => s.(leaders := s.leaders[c := m])
    case Connect(id, m, c, frames) =>
      s.(conns := s.conns[id := Conn(m, c, [], Loading(frames))],
         worlds := if c in s.worlds then s.worlds[c := PruneExpired(s.worlds[c], s.now)] else s.worlds)
    case Replay(id) =>
      var conn := s.conns[id];
      s.(conns := s.conns[id := conn.(inbox := conn.inbox + conn.replay.frames, replay := Replayed)])
    case Close(id) => s.(conns := s.conns - {id})
    case Message(id, h, msg) =>
      var conn := s.conns[id];
      if msg.None? || !ClaimHolds(msg.value, conn.member) then s
      else if NeedsCheck(s.leaderGate, msg.value) then
        s.(handlers := s.handlers[h := Handler(conn.member, conn.convoy, msg.value, Asking)])
      else Publish(s, conn.convoy, msg.value, conn.member)
    case Answer(h) =>
      s.(handlers := s.handlers[h := s.handlers[h].(check := Answered(Verdict(s, s.handlers[h])))])
    case Resume(h) =>
      var done := s.(handlers := s.handlers - {h});
      var hd := s.handlers[h];
      if hd.check.pass then Publish(done, hd.convoy, hd.frame, hd.member) else done
  }

  datatype Commit = Commit(convoy: ConvoyId, frame: Frame, origin: MemberId)

  /** The frame this step publishes and records, if any. */
  function CommitOf(s: State, e: Event): Option<Commit> {
    match e
    case Message(id, _, Some(f)) =>
      if id in s.conns && ClaimHolds(f, s.conns[id].member) && !NeedsCheck(s.leaderGate, f)
      then Some(Commit(s.conns[id].convoy, f, s.conns[id].member)) else None
    case Resume(h) =>
      if h in s.handlers && s.handlers[h].check == Answered(true)
      then Some(Commit(s.handlers[h].convoy, s.handlers[h].frame, s.handlers[h].member)) else None
    case _ => None
  }

  /** `states[i + 1]` follows from `states[i]` by `events[i]`. */
  ghost predicate Follows(states: seq<State>, events: seq<Event>, i: nat)
    requires i < |events| < |states|
  {
    Enabled(states[i], events[i]) && states[i + 1] == Next(states[i], events[i])
  }

  /** A run from the start. */
  ghost predicate IsRun(states: seq<State>, events: seq<Event>) {
    && |states| == |events| + 1
    && states[0] == InitialState(states[0].leaderGate)
    && forall i | 0 <= i < |events| :: Follows(states, events, i)
  }

  // ---------------------------------------------------------------- what every reachable state satisfies

  ghost predicate Sane(s: State) {
    && (forall c | c in s.worlds :: WellFormed(s.worlds[c]))
    && (forall h | h in s.handlers :: NeedsCheck(s.leaderGate, s.handlers[h].frame)
                                      && ClaimHolds(s.handlers[h].frame, s.handlers[h].member))
  }

  lemma PublishKeepsSane(s: State, c: ConvoyId, f: Frame, m: MemberId)
    requires Sane(s)
    ensures Sane(Publish(s, c, f, m))
  {
    assert WellFormed(WorldOf(s, c));
    assert WellFormed(RecordFrame(WorldOf(s, c), f));
  }

  lemma StepKeepsSane(s: State, e: Event)
    requires Sane(s) && Enabled(s, e)
    ensures Sane(Next(s, e)) && s.now <= Next(s, e).now && Next(s, e).leaderGate == s.leaderGate
  {
    match e {
      case Connect(_, _, c, _) =>
        if c in s.worlds {
          assert WellFormed(s.worlds[c]);
          assert WellFormed(PruneExpired(s.worlds[c], s.now));
        }
      case Message(id, h, msg) =>
        if msg.Some? {
          PublishKeepsSane(s, s.conns[id].convoy, msg.value, s.conns[id].member);
        }
      case Resume(h) =>
        var hd := s.handlers[h];
        PublishKeepsSane(s.(handlers := s.handlers - {h}), hd.convoy, hd.frame, hd.member);
      case _ =>
    }
  }

  lemma {:induction false} RunStaysSane(states: seq<State>, events: seq<Event>, n: nat)
    requires IsRun(states, events) && n < |states|
    ensures Sane(states[n]) && states[n].leaderGate == states[0].leaderGate
  {
    if n > 0 {
      RunStaysSane(states, events, n - 1);
      assert Follows(states, events, n - 1);
      StepKeepsSane(states[n - 1], events[n - 1]);
    }
  }

  /** What a step does to one convoy's world: record its commit, or at most prune. */
  lemma WorldStep(s: State, e: Event, c: ConvoyId)
    requires Enabled(s, e)
    ensures var w, w' := WorldOf(s, c), WorldOf(Next(s, e), c);
            match CommitOf(s, e)
            case Some(commit) => w' == if commit.convoy == c then RecordFrame(w, commit.frame) else w
            case None => w' == w || (w' == PruneExpired(w, s.now) && Next(s, e).now == s.now)
  {
  }

  /** What a step does to one open connection: hand it the commit unless it is the sender's, or replay. */
  lemma InboxStep(s: State, e: Event, id: ConnId)
    requires Enabled(s, e) && id in s.conns && id in Next(s, e).conns
    ensures var k, k' := s.conns[id], Next(s, e).conns[id];
            && k'.member == k.member && k'.convoy == k.convoy
            && k'.inbox == k.inbox + (match CommitOf(s, e)
                                      case Some(m) => if m.convoy == k.convoy && m.origin != k.member then [m.frame] else []
                                      case None => if e == Replay(id) then k.replay.frames else [])
            && k'.replay == if e == Replay(id) then Replayed else k.replay
  {
  }

  lemma ConnectStep(s: State, e: Event)
    requires Enabled(s, e) && e.Connect?
    ensures e.conn in Next(s, e).conns
    ensures Next(s, e).conns[e.conn] == Conn(e.member, e.convoy, [], Loading(e.frames))
  {
  }
}
