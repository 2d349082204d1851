/**
 Fan-out over several gateway instances through Redis pub/sub (backend/src/realtime/redis_fanout.ts): the
 object of one instance, and the delivery guarantees of any number of them.
 */
module RedisFanout {
  import opened Wrappers
  import opened Wire

  type InstanceId = nat
  type ConnId = nat
  type PublishId = nat

  datatype LocalSender = LocalSender(id: ConnId, memberId: MemberId)

  datatype Command = Subscribe(convoy: ConvoyId) | Unsubscribe(convoy: ConvoyId)

  /** `number` identifies the publish call; the source's messages carry the other fields. */
  datatype RedisMessage = RedisMessage(
    number: PublishId, convoy: ConvoyId, frame: Frame, originMemberId: MemberId, instanceId: InstanceId)

  type Pools = map<ConvoyId, set<LocalSender>>

  function PoolOf(pools: Pools, c: ConvoyId): set<LocalSender> {
    if c in pools then pools[c] else {}
  }

  function Added(pools: Pools, c: ConvoyId, conn: LocalSender): Pools {
    pools[c := PoolOf(pools, c) + {conn}]
  }

  function Removed(pools: Pools, c: ConvoyId, conn: LocalSender): Pools {
    var pool := PoolOf(pools, c) - {conn};
    if pool == {} then pools - {c} else pools[c := pool]
  }

  /** The subscriptions in force after the issued commands. */
  function Subscribed(commands: seq<Command>): set<ConvoyId> {
    if commands == [] then {}
    else
      var before := Subscribed(commands[..|commands| - 1]);
      match commands[|commands| - 1]
      case Subscribe(c) => before + {c}
      case Unsubscribe(c) => before - {c}
  }

  // ---------------------------------------------------------------- one instance

  /** What was handed to each sender's socket. */
  type Outbox = map<LocalSender, seq<RedisMessage>>

  function SentTo(outbox: Outbox, conn: LocalSender): seq<RedisMessage> {
    if conn in outbox then outbox[conn] else []
  }

  /** What a delivery to these pools hands to a sender: one copy if it is registered and not the origin's. */
  function Due(pools: Pools, msg: RedisMessage, conn: LocalSender): seq<RedisMessage> {
    DueFrom(PoolOf(pools, msg.convoy), msg, conn)
  }

  function DueFrom(pool: set<LocalSender>, msg: RedisMessage, conn: LocalSender): seq<RedisMessage> {
    if conn in pool && conn.memberId != msg.originMemberId then [msg] else []
  }

  class RedisFanout {
    const instanceId: InstanceId
    var localConns: Pools
    var commands: seq<Command>
    var published: seq<RedisMessage>
    var outbox: Outbox
    ghost var uses: seq<Use>

    /** No empty pool is stored, and the commands issued so far subscribe to exactly the stored pools. */
    ghost predicate Valid() reads this {
      && (forall c | c in localConns :: localConns[c] != {})
      && Subscribed(commands) == localConns.Keys
      && localConns == PoolsAfter(uses)
    }

    constructor (instanceId: InstanceId)
      ensures Valid() && localConns == map[] && published == []
      ensures this.instanceId == instanceId
    {
      this.instanceId := instanceId;
      localConns, commands, published, outbox, uses := map[], [], [], map[], [];
    }

    method AddLocalConnection(convoyId: ConvoyId, conn: LocalSender)
      requires Valid()
      modifies this`localConns, this`commands, this`uses
      ensures Valid() && uses == old(uses) + [Add(convoyId, conn)]
      ensures localConns == Added(old(localConns), convoyId, conn)
      ensures commands == old(commands) + if convoyId in old(localConns) then [] else [Subscribe(convoyId)]
    {
      uses := uses + [Add(convoyId, conn)];
      assert uses[..|uses| - 1] == old(uses);
      var isFirst := convoyId !in localConns || localConns[convoyId] == {};
      if convoyId !in localConns {
        localConns := localConns[convoyId := {}];
      }
      localConns := localConns[convoyId := localConns[convoyId] + {conn}];
      assert localConns == Added(old(localConns), convoyId, conn);
      if isFirst {
        commands := commands + [Subscribe(convoyId)];
        assert commands[..|commands| - 1] == old(commands);
      }
    }

    /** The closure returned by addLocalConnection; it may be called any number of times. */
    method Unregister(convoyId: ConvoyId, conn: LocalSender)
      requires Valid()
      modifies this`localConns, this`commands, this`uses
      ensures Valid() && uses == old(uses) + [Remove(convoyId, conn)]
      ensures localConns == Removed(old(localConns), convoyId, conn)
      ensures commands == old(commands) + if convoyId in old(localConns) && convoyId !in localConns
                                          then [Unsubscribe(convoyId)] else []
    {
      uses := uses + [Remove(convoyId, conn)];
      assert uses[..|uses| - 1] == old(uses);
      if convoyId !in localConns {
        return;
      }
      var pool := localConns[convoyId] - {conn};
      if pool == {} {
        localConns := localConns - {convoyId};
        commands := commands + [Unsubscribe(convoyId)];
        assert commands[..|commands| - 1] == old(commands);
      } else {
        localConns := localConns[convoyId := pool];
      }
    }

    /** Deliver to the local pool, then broadcast. */
    method Publish(number: PublishId, convoyId: ConvoyId, frame: Frame, originMemberId: MemberId)
      requires Valid()
      modifies this`outbox, this`published
      ensures Valid()
      ensures var msg := RedisMessage(number, convoyId, frame, originMemberId, instanceId);
              && published == old(published) + [msg]
              && forall conn :: SentTo(outbox, conn) == SentTo(old(outbox), conn) + Due(old(localConns), msg, conn)
    {
      var msg := RedisMessage(number, convoyId, frame, originMemberId, instanceId);
      DeliverLocally(msg);
      published := published + [msg];
    }

    /** A message from the channel; the own ones were delivered when they were published. */
    method OnMessage(msg: RedisMessage)
      requires Valid()
      modifies this`outbox
      ensures Valid()
      ensures msg.instanceId == instanceId ==> outbox == old(outbox)
      ensures msg.instanceId != instanceId ==>
                forall conn :: SentTo(outbox, conn) == SentTo(old(outbox), conn) + Due(localConns, msg, conn)
    {
      if msg.instanceId == instanceId {
        return;
      }
      DeliverLocally(msg);
    }

    method DeliverLocally(msg: RedisMessage)
      requires Valid()
      modifies this`outbox
      ensures forall conn :: SentTo(outbox, conn) == SentTo(old(outbox), conn) + Due(localConns, msg, conn)
    {
      if msg.convoy !in localConns {
        return;
      }
      outbox := SendAll(outbox, localConns[msg.convoy], msg);
    }
  }

  method SendAll(before: Outbox, pool: set<LocalSender>, msg: RedisMessage) returns (outbox: Outbox)
    ensures forall conn :: SentTo(outbox, conn) == SentTo(before, conn) + DueFrom(pool, msg, conn)
  {
    outbox := before;
    var todo := pool;
    while todo != {}
      invariant todo <= pool
      invariant forall conn :: SentTo(outbox, conn) == SentTo(before, conn) + DueFrom(pool - todo, msg, conn)
      decreases todo
    {
      var conn :| conn in todo;
      if conn.memberId != msg.originMemberId {
        outbox := outbox[conn := SentTo(outbox, conn) + [msg]];
      }
      todo := todo - {conn};
    }
  }

  // ---------------------------------------------------------------- registering and unregistering

  /** A call of addLocalConnection, or of the closure it returned. */
  datatype Use = Add(convoy: ConvoyId, conn: LocalSender) | Remove(convoy: ConvoyId, conn: LocalSender)

  function PoolsAfter(uses: seq<Use>): Pools {
    if uses == [] then map[]
    else
      var before := PoolsAfter(uses[..|uses| - 1]);
      match uses[|uses| - 1]
      case Add(c, conn) => Added(before, c, conn)
      case Remove(c, conn) => Removed(before, c, conn)
  }

  /** Added, and not removed since. */
  ghost predicate Registered(uses: seq<Use>, c: ConvoyId, conn: LocalSender) {
    exists i | 0 <= i < |uses| :: uses[i] == Add(c, conn)
                                  && forall j | i < j < |uses| :: uses[j] != Remove(c, conn)
  }

  /**
   In every state reached by any such calls in any order, the pools hold exactly the connections whose
   closure has not been called since they were added, and no pool is empty. So a closure evicts nobody
   else, and calling it again changes nothing.
   */
  lemma {:induction false} PoolsHoldTheRegistered(uses: seq<Use>, c: ConvoyId, conn: LocalSender)
    ensures conn in PoolOf(PoolsAfter(uses), c) <==> Registered(uses, c, conn)
    ensures c in PoolsAfter(uses) ==> PoolsAfter(uses)[c] != {}
  {
    if uses != [] {
      var init, last := uses[..|uses| - 1], uses[|uses| - 1];
      PoolsHoldTheRegistered(init, c, conn);
      if last == Add(c, conn) {
        assert uses[|uses| - 1] == Add(c, conn);
        assert Registered(uses, c, conn);
      } else if last != Remove(c, conn) {
        if Registered(init, c, conn) {
          var i :| 0 <= i < |init| && init[i] == Add(c, conn) && forall j | i < j < |init| :: init[j] != Remove(c, conn);
          assert uses[i] == Add(c, conn);
        }
        if Registered(uses, c, conn) {
          var i :| 0 <= i < |uses| && uses[i] == Add(c, conn) && forall j | i < j < |uses| :: uses[j] != Remove(c, conn);
          assert init[i] == Add(c, conn);
        }
      }
    }
  }

  /** Hence the subscriptions in force are exactly the convoys with a registered local connection. */
  lemma SubscriptionsMatchConnections(uses: seq<Use>, c: ConvoyId)
    ensures c in PoolsAfter(uses) <==> exists conn :: Registered(uses, c, conn)
  {
    forall conn ensures conn in PoolOf(PoolsAfter(uses), c) <==> Registered(uses, c, conn) {
      PoolsHoldTheRegistered(uses, c, conn);
    }
    if c in PoolsAfter(uses) {
      PoolsHoldTheRegistered(uses, c, LocalSender(0, ""));
      var conn :| conn in PoolsAfter(uses)[c];
    }
  }

  // ---------------------------------------------------------------- any number of instances

  /** `channel` is what Redis has delivered to the instance and it has not handled yet. */
  datatype Instance = Instance(pools: Pools, channel: seq<RedisMessage>)

  /** Every connection ever opened lives on one instance, for one convoy. */
  datatype Home = Home(instance: InstanceId, convoy: ConvoyId)

  datatype Cluster = Cluster(
    instances: map<InstanceId, Instance>, homes: map<LocalSender, Home>,
    sent: Outbox, published: seq<RedisMessage>)

  /** `reached`: the instances Redis gets this message to. Delivery is at most once, so it may be any set. */
  datatype Event =
    | Register(conn: LocalSender, home: Home)
    | Leave(conn: LocalSender)
    | Broadcast(instance: InstanceId, convoy: ConvoyId, frame: Frame, origin: MemberId, reached: set<InstanceId>)
    | Handle(instance: InstanceId)

  predicate Enabled(s: Cluster, e: Event) {
    match e
    case Register(conn, home) => conn !in s.homes && home.instance in s.instances
    case Leave(conn) => conn in s.homes && s.homes[conn].instance in s.instances
    case Broadcast(i, _, _, _, _) => i in s.instances
    case Handle(i) => i in s.instances && s.instances[i].channel != []
  }

  /** Everybody due a copy from these pools gets it. */
  ghost predicate Delivered(before: Outbox, after: Outbox, pools: Pools, msg: RedisMessage) {
    forall conn :: SentTo(after, conn) == SentTo(before, conn) + Due(pools, msg, conn)
  }

  function Queued(s: Cluster, msg: RedisMessage, reached: set<InstanceId>): map<InstanceId, Instance> {
    map i | i in s.instances ::
      if i in reached then s.instances[i].(channel := s.instances[i].channel + [msg]) else s.instances[i]
  }

  ghost predicate Step(s: Cluster, e: Event, s': Cluster) {
    && Enabled(s, e)
    && match e
       case Register(conn, home) =>
         var inst := s.instances[home.instance];
         s' == s.(homes := s.homes[conn := home],
                  instances := s.instances[home.instance := inst.(pools := Added(inst.pools, home.convoy, conn))])
       case Leave(conn) =>
         var home := s.homes[conn];
         var inst := s.instances[home.instance];
         s' == s.(instances := s.instances[home.instance := inst.(pools := Removed(inst.pools, home.convoy, conn))])
       case Broadcast(i, c, f, m, reached) =>
         var msg := RedisMessage(|s.published|, c, f, m, i);
         && s' == s.(published := s.published + [msg], instances := Queued(s, msg, reached), sent := s'.sent)
         && Delivered(s.sent, s'.sent, s.instances[i].pools, msg)
       case Handle(i) =>
         var inst := s.instances[i];
         var msg := inst.channel[0];
         && s' == s.(instances := s.instances[i := inst.(channel := inst.channel[1..])], sent := s'.sent)
         && if msg.instanceId == i then s'.sent == s.sent else Delivered(s.sent, s'.sent, inst.pools, msg)
  }

  ghost predicate Follows(states: seq<Cluster>, events: seq<Event>, k: nat)
    requires k < |events| < |states|
  {
    Step(states[k], events[k], states[k + 1])
  }

  ghost predicate IsRun(states: seq<Cluster>, events: seq<Event>) {
    && |states| == |events| + 1
    && states[0].homes == map[] && states[0].sent == map[] && states[0].published == []
    && (forall i | i in states[0].instances :: states[0].instances[i] == Instance(map[], []))
    && forall k | 0 <= k < |events| :: Follows(states, events, k)
  }

  /** How often message `msg` was handed to `conn`. */
  function Copies(s: Cluster, msg: RedisMessage, conn: LocalSender): nat {
    multiset(SentTo(s.sent, conn))[msg]
  }

  function InChannel(s: Cluster, i: InstanceId, msg: RedisMessage): nat {
    if i in s.instances then multiset(s.instances[i].channel)[msg] else 0
  }

  ghost predicate IsRegistered(s: Cluster, conn: LocalSender, i: InstanceId, c: ConvoyId) {
    i in s.instances && conn in PoolOf(s.instances[i].pools, c)
  }

  // ---------------------------------------------------------------- what one step does

  /** Whether this step hands `msg` to `conn`. */
  predicate Hands(s: Cluster, e: Event, msg: RedisMessage, conn: LocalSender) {
    match e
    case Broadcast(i, c, f, m, _) =>
      i in s.instances && msg == RedisMessage(|s.published|, c, f, m, i) && Due(s.instances[i].pools, msg, conn) != []
    case Handle(i) =>
      i in s.instances && s.instances[i].channel != [] && msg == s.instances[i].channel[0] && msg.instanceId != i
      && Due(s.instances[i].pools, msg, conn) != []
    case _ => false
  }

  lemma CopyStep(s: Cluster, e: Event, s': Cluster, msg: RedisMessage, conn: LocalSender)
    requires Step(s, e, s')
    ensures Copies(s', msg, conn) == Copies(s, msg, conn) + if Hands(s, e, msg, conn) then 1 else 0
  {
    if s'.sent != s.sent {
      var i := e.instance;
      var m := if e.Broadcast? then RedisMessage(|s.published|, e.convoy, e.frame, e.origin, i)
               else s.instances[i].channel[0];
      assert SentTo(s'.sent, conn) == SentTo(s.sent, conn) + Due(s.instances[i].pools, m, conn);
    }
  }

  lemma ChannelStep(s: Cluster, e: Event, s': Cluster, msg: RedisMessage, i: InstanceId)
    requires Step(s, e, s')
    ensures InChannel(s', i, msg)
            == InChannel(s, i, msg)
               + (if e.Broadcast? && i in s.instances && i in e.reached && msg == s'.published[|s.published|] then 1 else 0)
               - (if e == Handle(i) && msg == s.instances[i].channel[0] then 1 else 0)
  {
    if e == Handle(i) {
      var channel := s.instances[i].channel;
      assert channel == [channel[0]] + channel[1..];
    }
  }

  // ---------------------------------------------------------------- what every reachable state satisfies

  /** Messages are numbered; whatever is under way or delivered has been published. */
  ghost predicate Numbered(s: Cluster) {
    && (forall n | 0 <= n < |s.published| :: s.published[n].number == n)
    && (forall i, msg :: InChannel(s, i, msg) > 0 ==> msg in s.published)
    && (forall conn, msg :: Copies(s, msg, conn) > 0 ==> msg in s.published)
  }

  /** Pools hold connections at home there; copies go to other members of the message's convoy only. */
  ghost predicate Homed(s: Cluster) {
    && (forall conn, i, c | IsRegistered(s, conn, i, c) :: conn in s.homes && s.homes[conn] == Home(i, c))
    && (forall conn, msg :: Copies(s, msg, conn) > 0 ==>
          conn in s.homes && s.homes[conn].convoy == msg.convoy && conn.memberId != msg.originMemberId)
  }

  /** A copy still to come from a channel counts as one already delivered. */
  function Claims(s: Cluster, msg: RedisMessage, conn: LocalSender): nat {
    Copies(s, msg, conn)
    + if conn in s.homes && s.homes[conn].instance != msg.instanceId
      then InChannel(s, s.homes[conn].instance, msg) else 0
  }

  ghost predicate AtMostOnce(s: Cluster) {
    && (forall i, msg :: InChannel(s, i, msg) <= 1)
    && (forall conn, msg :: Claims(s, msg, conn) <= 1)
  }

  ghost predicate Sound(s: Cluster) {
    Numbered(s) && Homed(s) && AtMostOnce(s)
  }

  lemma StepKeepsNumbered(s: Cluster, e: Event, s': Cluster)
    requires Step(s, e, s') && Numbered(s)
    ensures Numbered(s')
    ensures e.Broadcast? ==> s'.published[|s.published|] !in s.published
    ensures forall msg | msg in s.published :: msg in s'.published
  {
    forall i, msg | InChannel(s', i, msg) > 0 ensures msg in s'.published { ChannelStep(s, e, s', msg, i); }
    forall conn, msg | Copies(s', msg, conn) > 0 ensures msg in s'.published {
      CopyStep(s, e, s', msg, conn);
      if e.Handle? && Hands(s, e, msg, conn) {
        assert msg in multiset(s.instances[e.instance].channel);
        assert InChannel(s, e.instance, msg) > 0;
      }
    }
  }

  lemma HomesGrow(s: Cluster, e: Event, s': Cluster, conn: LocalSender)
    requires Step(s, e, s') && conn in s.homes
    ensures conn in s'.homes && s'.homes[conn] == s.homes[conn]
  {
  }

  lemma StepKeepsHomed(s: Cluster, e: Event, s': Cluster)
    requires Step(s, e, s') && Homed(s)
    ensures Homed(s')
  {
    forall conn, i, c | IsRegistered(s', conn, i, c) ensures conn in s'.homes && s'.homes[conn] == Home(i, c) {
      assert IsRegistered(s, conn, i, c) || e == Register(conn, Home(i, c));
    }
    forall conn, msg | Copies(s', msg, conn) > 0
      ensures conn in s'.homes && s'.homes[conn].convoy == msg.convoy && conn.memberId != msg.originMemberId
    {
      CopyStep(s, e, s', msg, conn);
      if Hands(s, e, msg, conn) {
        assert IsRegistered(s, conn, e.instance, msg.convoy);
      }
    }
  }

  lemma StepKeepsAtMostOnce(s: Cluster, e: Event, s': Cluster)
    requires Step(s, e, s') && Sound(s)
    ensures AtMostOnce(s')
  {
    StepKeepsNumbered(s, e, s');
    StepKeepsHomed(s, e, s');
    forall i, msg ensures InChannel(s', i, msg) <= 1 { ChannelStep(s, e, s', msg, i); }
    forall conn, msg ensures Claims(s', msg, conn) <= 1 { ClaimsStep(s, e, s', msg, conn); }
  }

  /** The claims of one connection on one message. */
  lemma ClaimsStep(s: Cluster, e: Event, s': Cluster, msg: RedisMessage, conn: LocalSender)
    requires Step(s, e, s') && Sound(s)
    requires e.Broadcast? ==> s'.published[|s.published|] !in s.published
    ensures Claims(s', msg, conn) <= 1
  {
    CopyStep(s, e, s', msg, conn);
    assert Claims(s, msg, conn) <= 1;
    if conn in s'.homes {
      ChannelStep(s, e, s', msg, s'.homes[conn].instance);
    }
    if Hands(s, e, msg, conn) {
      assert IsRegistered(s, conn, e.instance, msg.convoy);
    }
  }

  lemma {:induction false} RunStaysSound(states: seq<Cluster>, events: seq<Event>, n: nat)
    requires IsRun(states, events) && n < |states|
    ensures Sound(states[n])
  {
    if n > 0 {
      RunStaysSound(states, events, n - 1);
      var s, e, s' := states[n - 1], events[n - 1], states[n];
      assert Follows(states, events, n - 1);
      StepKeepsNumbered(s, e, s');
      StepKeepsHomed(s, e, s');
      StepKeepsAtMostOnce(s, e, s');
    }
  }

  /** The connection was opened before state n, for this instance and convoy, and has not been closed since. */
  ghost predicate IsOpen(events: seq<Event>, n: nat, conn: LocalSender, home: Home)
    requires n <= |events|
  {
    exists k | 0 <= k < n :: events[k] == Register(conn, home) && forall l | k < l < n :: events[l] != Leave(conn)
  }

  lemma HomeStep(s: Cluster, e: Event, s': Cluster, conn: LocalSender, home: Home)
    requires Step(s, e, s') && Homed(s)
    ensures IsRegistered(s', conn, home.instance, home.convoy)
            <==> e == Register(conn, home) || (IsRegistered(s, conn, home.instance, home.convoy) && e != Leave(conn))
  {
    if IsRegistered(s, conn, home.instance, home.convoy) {
      assert s.homes[conn] == home;
    }
  }

  lemma OpenStep(events: seq<Event>, n: nat, conn: LocalSender, home: Home)
    requires n < |events|
    ensures IsOpen(events, n + 1, conn, home)
            <==> events[n] == Register(conn, home) || (IsOpen(events, n, conn, home) && events[n] != Leave(conn))
  {
    if IsOpen(events, n, conn, home) && events[n] != Leave(conn) {
      var k :| 0 <= k < n && events[k] == Register(conn, home) && forall l | k < l < n :: events[l] != Leave(conn);
      assert forall l | k < l < n + 1 :: events[l] != Leave(conn);
    }
    if IsOpen(events, n + 1, conn, home) && events[n] != Register(conn, home) {
      var k :| 0 <= k < n + 1 && events[k] == Register(conn, home) && forall l | k < l < n + 1 :: events[l] != Leave(conn);
      assert k < n;
    }
  }

  /** In every run the pools hold exactly the connections that are open. */
  lemma {:induction false} RegisteredMeansOpen(
      states: seq<Cluster>, events: seq<Event>, n: nat, conn: LocalSender, home: Home)
    requires IsRun(states, events) && n < |states|
    ensures IsRegistered(states[n], conn, home.instance, home.convoy) <==> IsOpen(events, n, conn, home)
  {
    if n > 0 {
      RegisteredMeansOpen(states, events, n - 1, conn, home);
      RunStaysSound(states, events, n - 1);
      assert Follows(states, events, n - 1);
      HomeStep(states[n - 1], events[n - 1], states[n], conn, home);
      OpenStep(events, n - 1, conn, home);
    }
  }

  /**
   In every reachable state no connection has more than one copy of a message, and none goes to a
   connection of the origin member or of another convoy.
   */
  lemma DeliveredAtMostOnce(states: seq<Cluster>, events: seq<Event>, n: nat, msg: RedisMessage, conn: LocalSender)
    requires IsRun(states, events) && n < |states|
    ensures Copies(states[n], msg, conn) <= 1
    ensures Copies(states[n], msg, conn) == 1 ==>
              && conn in states[n].homes && states[n].homes[conn].convoy == msg.convoy
              && conn.memberId != msg.originMemberId && msg in states[n].published
  {
    RunStaysSound(states, events, n);
    assert Claims(states[n], msg, conn) <= 1;
  }

  lemma CopyAt(states: seq<Cluster>, events: seq<Event>, k: nat, msg: RedisMessage, conn: LocalSender)
    requires IsRun(states, events) && k < |events|
    ensures Copies(states[k + 1], msg, conn)
            == Copies(states[k], msg, conn) + if Hands(states[k], events[k], msg, conn) then 1 else 0
  {
    assert Follows(states, events, k);
    CopyStep(states[k], events[k], states[k + 1], msg, conn);
  }

  lemma {:induction false} CopiesNeverLost(
      states: seq<Cluster>, events: seq<Event>, k: nat, n: nat, msg: RedisMessage, conn: LocalSender)
    requires IsRun(states, events) && k <= n < |states|
    ensures Copies(states[k], msg, conn) <= Copies(states[n], msg, conn)
    decreases n
  {
    if k < n {
      CopiesNeverLost(states, events, k, n - 1, msg, conn);
      CopyAt(states, events, n - 1, msg, conn);
    }
  }

  /** Whoever is registered, in this convoy and of another member, when a message is delivered has it for good. */
  lemma HandedMeansExactlyOnce(
      states: seq<Cluster>, events: seq<Event>, k: nat, n: nat, msg: RedisMessage, conn: LocalSender)
    requires IsRun(states, events) && k < n < |states| && Hands(states[k], events[k], msg, conn)
    ensures Copies(states[n], msg, conn) == 1
  {
    CopyAt(states, events, k, msg, conn);
    CopiesNeverLost(states, events, k + 1, n, msg, conn);
    DeliveredAtMostOnce(states, events, n, msg, conn);
  }

  /**
   On any other instance: whoever is registered there for the convoy when the message is taken from the
   instance's channel, and is not of the origin member, has exactly one copy from then on.
   */
  lemma RemoteDeliveryIsExact(states: seq<Cluster>, events: seq<Event>, k: nat, n: nat, i: InstanceId, conn: LocalSender)
    requires IsRun(states, events) && k < n < |states| && events[k] == Handle(i)
    requires i in states[k].instances && states[k].instances[i].channel != []
    requires var msg := states[k].instances[i].channel[0];
             && msg.instanceId != i && conn.memberId != msg.originMemberId
             && msg.convoy in states[k].instances[i].pools && conn in states[k].instances[i].pools[msg.convoy]
    ensures Copies(states[n], states[k].instances[i].channel[0], conn) == 1
  {
    HandedMeansExactlyOnce(states, events, k, n, states[k].instances[i].channel[0], conn);
  }

  /** The message that step k publishes, by its event. */
  function Sent(states: seq<Cluster>, events: seq<Event>, k: nat): RedisMessage
    requires k < |events| < |states| && events[k].Broadcast?
  {
    RedisMessage(|states[k].published|, events[k].convoy, events[k].frame, events[k].origin, events[k].instance)
  }

  /** Step k publishes for others than `conn`, Redis gets it to instance `i`, and `conn` is open there until state n. */
  ghost predicate Awaits(states: seq<Cluster>, events: seq<Event>, k: nat, n: nat, i: InstanceId, conn: LocalSender)
    requires IsRun(states, events)
  {
    && k < n < |states| && events[k].Broadcast? && i in events[k].reached && i in states[k].instances
    && i != events[k].instance && conn.memberId != events[k].origin
    && forall l | k < l < n :: IsOpen(events, l, conn, Home(i, events[k].convoy))
  }

  /** Taking a message from the channel hands it to who is registered. */
  lemma StaysUnderWay(s: Cluster, e: Event, s': Cluster, msg: RedisMessage, i: InstanceId, conn: LocalSender)
    requires Step(s, e, s') && IsRegistered(s, conn, i, msg.convoy)
    requires i != msg.instanceId && conn.memberId != msg.originMemberId
    requires InChannel(s, i, msg) + Copies(s, msg, conn) > 0
    ensures i in s'.instances && InChannel(s', i, msg) + Copies(s', msg, conn) > 0
  {
    ChannelStep(s, e, s', msg, i);
    CopyStep(s, e, s', msg, conn);
  }

  lemma StartsUnderWay(states: seq<Cluster>, events: seq<Event>, k: nat, i: InstanceId)
    requires IsRun(states, events) && k < |events| && events[k].Broadcast?
    requires i in events[k].reached && i in states[k].instances
    ensures InChannel(states[k + 1], i, Sent(states, events, k)) > 0
  {
    assert Follows(states, events, k);
    ChannelStep(states[k], events[k], states[k + 1], Sent(states, events, k), i);
  }

  lemma {:induction false} UnderWayOrDelivered(
      states: seq<Cluster>, events: seq<Event>, k: nat, n: nat, i: InstanceId, conn: LocalSender)
    requires IsRun(states, events) && Awaits(states, events, k, n, i, conn)
    ensures i in states[n].instances
    ensures InChannel(states[n], i, Sent(states, events, k)) + Copies(states[n], Sent(states, events, k), conn) > 0
    decreases n
  {
    if k + 1 == n {
      StartsUnderWay(states, events, k, i);
    } else {
      assert Awaits(states, events, k, n - 1, i, conn);
      UnderWayOrDelivered(states, events, k, n - 1, i, conn);
      RegisteredMeansOpen(states, events, n - 1, conn, Home(i, events[k].convoy));
      assert Follows(states, events, n - 1);
      StaysUnderWay(states[n - 1], events[n - 1], states[n], Sent(states, events, k), i, conn);
    }
  }

  /**
   From publisher to listener, over whatever happens in between: a message that Redis gets to another instance is
   there exactly once with each connection of another member that stays open, as soon as the instance has emptied
   its channel.
   */
  lemma BroadcastArrives(
      states: seq<Cluster>, events: seq<Event>, k: nat, n: nat, i: InstanceId, conn: LocalSender)
    requires IsRun(states, events) && Awaits(states, events, k, n, i, conn)
    ensures i in states[n].instances
    ensures states[n].instances[i].channel == [] ==> Copies(states[n], Sent(states, events, k), conn) == 1
  {
    UnderWayOrDelivered(states, events, k, n, i, conn);
    DeliveredAtMostOnce(states, events, n, Sent(states, events, k), conn);
  }

  /** Step k publishes `msg`. */
  ghost predicate PublishesAt(states: seq<Cluster>, events: seq<Event>, k: nat, msg: RedisMessage)
    requires k < |events| < |states|
  {
    && events[k].Broadcast? && |states[k].published| < |states[k + 1].published|
    && msg == states[k + 1].published[|states[k].published|]
  }

  /**
   On the publishing instance delivery is decided at once: exactly one copy for every connection of another
   member registered for the convoy at that moment, none ever for any other connection living there.
   */
  lemma {:induction false} LocalDeliveryIsExact(
      states: seq<Cluster>, events: seq<Event>, k: nat, n: nat, msg: RedisMessage, conn: LocalSender)
    requires IsRun(states, events) && k < n < |states| && PublishesAt(states, events, k, msg)
    requires conn in states[n].homes && states[n].homes[conn].instance == msg.instanceId
    ensures Copies(states[n], msg, conn)
            == if IsRegistered(states[k], conn, msg.instanceId, msg.convoy) && conn.memberId != msg.originMemberId
               then 1 else 0
    decreases n
  {
    if n == k + 1 {
      FirstCopies(states, events, k, msg, conn);
    } else {
      if conn in states[n - 1].homes {
        assert Follows(states, events, n - 1);
        HomesGrow(states[n - 1], events[n - 1], states[n], conn);
        LocalDeliveryIsExact(states, events, k, n - 1, msg, conn);
      } else {
        NewcomersStartEmpty(states, events, k, n - 1, msg, conn);
      }
      PublishedStays(states, events, k, n - 1, msg);
      NoSecondHandOut(states, events, n - 1, msg, conn);
    }
  }

  lemma FirstCopies(states: seq<Cluster>, events: seq<Event>, k: nat, msg: RedisMessage, conn: LocalSender)
    requires IsRun(states, events) && k < |events| && PublishesAt(states, events, k, msg)
    ensures Copies(states[k + 1], msg, conn)
            == if IsRegistered(states[k], conn, msg.instanceId, msg.convoy) && conn.memberId != msg.originMemberId
               then 1 else 0
  {
    RunStaysSound(states, events, k);
    assert Follows(states, events, k);
    StepKeepsNumbered(states[k], events[k], states[k + 1]);
    CopyStep(states[k], events[k], states[k + 1], msg, conn);
  }

  /** Once published, a message is not handed out again on its own instance. */
  lemma NoSecondHandOut(states: seq<Cluster>, events: seq<Event>, n: nat, msg: RedisMessage, conn: LocalSender)
    requires IsRun(states, events) && n < |events| && msg in states[n].published
    requires conn in states[n + 1].homes && states[n + 1].homes[conn].instance == msg.instanceId
    ensures Copies(states[n + 1], msg, conn) == Copies(states[n], msg, conn)
  {
    var s, e, s' := states[n], events[n], states[n + 1];
    RunStaysSound(states, events, n);
    assert Follows(states, events, n);
    CopyStep(s, e, s', msg, conn);
    if Hands(s, e, msg, conn) {
      assert IsRegistered(s, conn, e.instance, msg.convoy);
      HomesGrow(s, e, s', conn);
      if e.Broadcast? {
        StepKeepsNumbered(s, e, s');
      }
    }
  }

  /** A connection not yet opened has nothing and was registered nowhere. */
  lemma NewcomersStartEmpty(states: seq<Cluster>, events: seq<Event>, k: nat, n: nat, msg: RedisMessage, conn: LocalSender)
    requires IsRun(states, events) && k <= n < |states| && conn !in states[n].homes
    ensures Copies(states[n], msg, conn) == 0
    ensures !IsRegistered(states[k], conn, msg.instanceId, msg.convoy)
  {
    RunStaysSound(states, events, n);
    RunStaysSound(states, events, k);
    HomesStay(states, events, k, n, conn);
  }

  lemma {:induction false} HomesStay(states: seq<Cluster>, events: seq<Event>, k: nat, n: nat, conn: LocalSender)
    requires IsRun(states, events) && k <= n < |states| && conn !in states[n].homes
    ensures conn !in states[k].homes
    decreases n
  {
    if k < n {
      if conn in states[n - 1].homes {
        assert Follows(states, events, n - 1);
        HomesGrow(states[n - 1], events[n - 1], states[n], conn);
      }
      HomesStay(states, events, k, n - 1, conn);
    }
  }

  lemma {:induction false} PublishedStays(states: seq<Cluster>, events: seq<Event>, k: nat, n: nat, msg: RedisMessage)
    requires IsRun(states, events) && k < n < |states| && PublishesAt(states, events, k, msg)
    ensures msg in states[n].published
    decreases n
  {
    if k + 1 < n {
      PublishedStays(states, events, k, n - 1, msg);
      RunStaysSound(states, events, n - 1);
      assert Follows(states, events, n - 1);
      StepKeepsNumbered(states[n - 1], events[n - 1], states[n]);
    }
  }
}
