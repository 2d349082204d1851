/**
 The gateway's objects, each method one uninterrupted stretch of the source's asynchronous code, proved to
 take exactly the steps of Backplane (backend/src/realtime/fanout.ts, frame_handler.ts, convoy_gateway.ts).
 */
module ConvoyGateway {
  import opened Wrappers
  import opened Wire
  import opened SnapshotStore
  import opened Backplane

  /** `sockets` stands for the open sockets behind the registered senders and what was sent on them. */
  class InProcessFanout {
    var registry: map<ConvoyId, set<ConnId>>
    var sockets: map<ConnId, Conn>

    /** Pools are never empty, and hold exactly the convoy's open connections. */
    ghost predicate Valid() reads this {
      && (forall c | c in registry :: registry[c] != {})
      && (forall c, id :: c in registry && id in registry[c] <==> id in sockets && sockets[id].convoy == c)
    }

    constructor ()
      ensures Valid() && sockets == map[]
    {
      registry, sockets := map[], map[];
    }

    method Publish(convoyId: ConvoyId, frame: Frame, originMemberId: MemberId)
      requires Valid()
      modifies this`sockets
      ensures Valid()
      ensures sockets == FanOut(old(sockets), convoyId, frame, originMemberId)
    {
      if convoyId !in registry {
        assert sockets == FanOut(sockets, convoyId, frame, originMemberId);
        return;
      }
      var pool := registry[convoyId];
      var todo := pool;
      ghost var done: set<ConnId> := {};
      while todo != {}
        invariant done + todo == pool && done !! todo
        invariant sockets.Keys == old(sockets).Keys
        invariant forall id | id in sockets && id !in done :: sockets[id] == old(sockets)[id]
        invariant forall id | id in done :: sockets[id] == FanOut(old(sockets), convoyId, frame, originMemberId)[id]
        decreases todo
      {
        var id :| id in todo;
        assert id in sockets && sockets[id] == old(sockets)[id];
        if sockets[id].member != originMemberId {
          sockets := sockets[id := sockets[id].(inbox := sockets[id].inbox + [frame])];
        }
        todo, done := todo - {id}, done + {id};
      }
    }

    method AddLocalConnection(id: ConnId, conn: Conn)
      requires Valid() && id !in sockets
      modifies this
      ensures Valid() && sockets == old(sockets)[id := conn]
    {
      var pool := if conn.convoy in registry then registry[conn.convoy] else {};
      registry := registry[conn.convoy := pool + {id}];
      sockets := sockets[id := conn];
    }

    /** The snapshot's promise, which holds the replay of one connection. */
    method HoldReplay(id: ConnId, frames: seq<Frame>)
      requires Valid() && id in sockets
      modifies this`sockets
      ensures Valid() && sockets == old(sockets)[id := old(sockets)[id].(replay := Loading(frames))]
    {
      sockets := sockets[id := sockets[id].(replay := Loading(frames))];
    }

    /** The closure handed out at registration; calling it again does nothing. */
    method Unregister(convoyId: ConvoyId, id: ConnId)
      requires Valid() && (id in sockets ==> sockets[id].convoy == convoyId)
      modifies this
      ensures Valid() && sockets == old(sockets) - {id}
    {
      if convoyId !in registry {
        return;
      }
      var pool := registry[convoyId] - {id};
      if pool == {} {
        registry := registry - {convoyId};
      } else {
        registry := registry[convoyId := pool];
      }
      sockets := sockets - {id};
    }
  }

  class Gateway {
    const leaderGate: bool
    const fanout: InProcessFanout
    const store: InMemorySnapshotStore
    var handlers: map<HandlerId, Handler>

    ghost predicate Valid() reads this, fanout, store {
      fanout.Valid() && store.Valid()
    }

    /** The step system's state; clock and membership table belong to the outside world. */
    ghost function Abs(now: Millis, leaders: map<ConvoyId, MemberId>): State reads this, fanout, store {
      State(leaderGate, now, store.convoys, fanout.sockets, handlers, leaders)
    }

    /** `leaderGate`: whether a leader check is configured. */
    constructor (leaderGate: bool)
      ensures Valid() && fresh(fanout) && fresh(store)
      ensures Abs(0, map[]) == InitialState(leaderGate)
    {
      this.leaderGate := leaderGate;
      fanout := new InProcessFanout();
      store := new InMemorySnapshotStore();
      handlers := map[];
    }

    /** A socket opens: register it, and ask for the snapshot. */
    method OnConnection(id: ConnId, memberId: MemberId, convoyId: ConvoyId, now: Millis,
                        ghost leaders: map<ConvoyId, MemberId>)
      returns (frames: seq<Frame>)
      requires Valid() && id !in fanout.sockets
      modifies fanout, store
      ensures Valid() && Enabled(old(Abs(now, leaders)), Connect(id, memberId, convoyId, frames))
      ensures Abs(now, leaders) == Next(old(Abs(now, leaders)), Connect(id, memberId, convoyId, frames))
    {
      fanout.AddLocalConnection(id, Conn(memberId, convoyId, [], Loading([])));
      frames := store.Snapshot(convoyId, now);
      fanout.HoldReplay(id, frames);
      assert fanout.sockets == old(fanout.sockets)[id := Conn(memberId, convoyId, [], Loading(frames))];
    }

    /** The snapshot has arrived; nothing is sent if the socket closed meanwhile. */
    method OnSnapshotLoaded(id: ConnId, now: Millis, ghost leaders: map<ConvoyId, MemberId>)
      requires Valid() && (id in fanout.sockets ==> fanout.sockets[id].replay.Loading?)
      modifies fanout
      ensures Valid()
      ensures Abs(now, leaders) == if id in old(fanout.sockets) then Next(old(Abs(now, leaders)), Replay(id))
                                   else old(Abs(now, leaders))
    {
      if id !in fanout.sockets {
        return;
      }
      var conn := fanout.sockets[id];
      var sent := conn;
      for i := 0 to |conn.replay.frames|
        invariant sent == conn.(inbox := conn.inbox + conn.replay.frames[..i])
      {
        sent := sent.(inbox := sent.inbox + [conn.replay.frames[i]]);
      }
      assert conn.replay.frames[..|conn.replay.frames|] == conn.replay.frames;
      fanout.sockets := fanout.sockets[id := sent.(replay := Replayed)];
    }

    method OnClose(id: ConnId, now: Millis, ghost leaders: map<ConvoyId, MemberId>)
      requires Valid() && id in fanout.sockets
      modifies fanout
      ensures Valid()
      ensures Abs(now, leaders) == Next(old(Abs(now, leaders)), Close(id))
    {
      fanout.Unregister(fanout.sockets[id].convoy, id);
    }

    /** handleFrame up to its first await, or to its end. None is a frame that does not parse. */
    method OnMessage(id: ConnId, handler: HandlerId, message: Option<Frame>, now: Millis,
                     ghost leaders: map<ConvoyId, MemberId>)
      requires Valid() && id in fanout.sockets && handler !in handlers
      modifies this, fanout, store
      ensures Valid()
      ensures Abs(now, leaders) == Next(old(Abs(now, leaders)), Message(id, handler, message))
    {
      if message.None? {
        return;
      }
      var frame, originMemberId, convoyId := message.value, fanout.sockets[id].member, fanout.sockets[id].convoy;
      var claimedOriginator := OriginatorOf(frame);
      if claimedOriginator.Some? && claimedOriginator.value != originMemberId {
        return;
      }
      if frame.HazardRemoveFrame? || ((frame.TourFrame? || frame.WaypointFrame?) && leaderGate) {
        handlers := handlers[handler := Handler(originMemberId, convoyId, frame, Asking)];
        return;
      }
      fanout.Publish(convoyId, frame, originMemberId);
      store.Record(convoyId, frame);
    }

    /** The store answers who reported the hazard. */
    method OnReporterAsked(handler: HandlerId, now: Millis, ghost leaders: map<ConvoyId, MemberId>)
      requires Valid() && handler in handlers && handlers[handler].check.Asking?
      requires handlers[handler].frame.HazardRemoveFrame?
      modifies this
      ensures Valid()
      ensures Abs(now, leaders) == Next(old(Abs(now, leaders)), Answer(handler))
    {
      var h := handlers[handler];
      var reporter := store.HazardReporter(h.convoy, h.frame.hazardId);
      assert WorldOf(Abs(now, leaders), h.convoy) == store.WorldOf(h.convoy);
      var pass := reporter.None? || reporter.value == h.member;
      handlers := handlers[handler := h.(check := Answered(pass))];
    }

    /** The membership table answers whether the member is the owner now. */
    method OnLeaderResolved(handler: HandlerId, isLeader: bool, now: Millis, ghost leaders: map<ConvoyId, MemberId>)
      requires Valid() && handler in handlers && handlers[handler].check.Asking?
      requires !handlers[handler].frame.HazardRemoveFrame?
      requires isLeader <==> handlers[handler].convoy in leaders
                             && leaders[handlers[handler].convoy] == handlers[handler].member
      modifies this
      ensures Valid()
      ensures Abs(now, leaders) == Next(old(Abs(now, leaders)), Answer(handler))
    {
      handlers := handlers[handler := handlers[handler].(check := Answered(isLeader))];
    }

    /** handleFrame after its await: drop, or publish and record without a further await. */
    method OnResume(handler: HandlerId, now: Millis, ghost leaders: map<ConvoyId, MemberId>)
      requires Valid() && handler in handlers && handlers[handler].check.Answered?
      modifies this, fanout, store
      ensures Valid()
      ensures Abs(now, leaders) == Next(old(Abs(now, leaders)), Resume(handler))
    {
      var h := handlers[handler];
      handlers := handlers - {handler};
      if !h.check.pass {
        return;
      }
      fanout.Publish(h.convoy, h.frame, h.member);
      store.Record(h.convoy, h.frame);
    }
  }
}
