/**
 The client's connection machine (app/lib/core/realtime/convoy_socket_client.dart). Every `await` splits a
 method: what runs before it and what runs after it are separate events, with anything in between.
 */
module ConvoySocketClient {
  import opened Wrappers
  import opened OutboundFrameQueue

  type ChannelId = nat
  type AttemptId = nat
  type CriticalFrame = nat

  datatype ConnectionStatus = Connecting | Connected | Reconnecting | Offline

  /** Where a connection attempt is suspended: waiting for its token, or for its channel to be ready. */
  datatype Attempt = AwaitingToken | AwaitingReady(channel: ChannelId)

  /** How far `disconnect` has got: cancelling the subscription, closing the sink, done. */
  datatype Shutdown = NotAsked | CancellingSub | ClosingSink | Finished

  datatype Client = Client(
    channel: Option<ChannelId>,        // _channel
    frameSub: bool,                    // _frameSub, listening on that channel
    reconnectTimer: bool,              // _reconnectTimer is running
    watchdog: bool,                    // _inboundWatchdog is running
    retryAttempt: nat,
    started: bool,                     // connect() has been called
    disposed: bool,
    status: ConnectionStatus,
    queue: seq<CriticalFrame>,
    attempts: map<AttemptId, Attempt>, // suspended _attemptConnect calls
    shutdown: Shutdown,
    sent: seq<CriticalFrame>)          // critical frames handed to sinks, over all channels

  datatype Event =
    | Connect(id: AttemptId)
    | TokenArrived(id: AttemptId, channel: ChannelId)
    | TokenFailed(id: AttemptId)
    | DialFailed(id: AttemptId)
    | ReadyOk(id: AttemptId)
    | ReadyFailed(id: AttemptId)
    | FrameArrived
    | ChannelBroken
    | SilenceTimeout
    | TimerFired(id: AttemptId)
    | PublishCritical(frame: CriticalFrame)
    | Disconnect
    | SubCancelled
    | SinkClosed

  const INITIAL_CLIENT := Client(None, false, false, false, 0, false, false, Connecting, [], map[], NotAsked, [])

  predicate Enabled(c: Client, e: Event) {
    match e
    case Connect(id) => !c.started && c.shutdown.NotAsked? && id !in c.attempts
    case TokenArrived(id, _) => id in c.attempts && c.attempts[id].AwaitingToken?
    case TokenFailed(id) => id in c.attempts && c.attempts[id].AwaitingToken?
    case DialFailed(id) => id in c.attempts && c.attempts[id].AwaitingToken?
    case ReadyOk(id) => id in c.attempts && c.attempts[id].AwaitingReady?
    case ReadyFailed(id) => id in c.attempts && c.attempts[id].AwaitingReady?
    case FrameArrived => c.frameSub
    case ChannelBroken => c.frameSub
    case SilenceTimeout => c.watchdog
    case TimerFired(id) => c.reconnectTimer && id !in c.attempts
    case PublishCritical(_) => true
    case Disconnect => c.shutdown.NotAsked? || c.shutdown.Finished?
    case SubCancelled => c.shutdown.CancellingSub?
    case SinkClosed => c.shutdown.ClosingSink?
  }

  /** `_attemptConnect` up to its first await. */
  function Attempting(c: Client, id: AttemptId): Client {
    if c.disposed then c else c.(status := Connecting, attempts := c.attempts[id := AwaitingToken])
  }

  /** `_onChannelLost`, including the scheduling of the next attempt. */
  function Lost(c: Client): Client {
    var bare := c.(watchdog := false, frameSub := false, channel := None);
    if c.disposed then bare
    else bare.(retryAttempt := c.retryAttempt + 1, status := Reconnecting, reconnectTimer := true)
  }

  function Without(c: Client, id: AttemptId): Client {
    c.(attempts := c.attempts - {id})
  }

  function Next(c: Client, e: Event, maxLength: nat): Client
    requires Enabled(c, e)
  {
    match e
    case Connect(id) => Attempting(c.(started := true, disposed := false), id)
    case TokenArrived(id, channel) =>
      if c.disposed then Without(c, id) else c.(attempts := c.attempts[id := AwaitingReady(channel)])
    case TokenFailed(id) => Lost(Without(c, id))
    case DialFailed(id) => if c.disposed then Without(c, id) else Lost(Without(c, id))
    case ReadyOk(id) =>
      if c.disposed then Without(c, id)
      else Without(c, id).(channel := Some(c.attempts[id].channel), retryAttempt := 0, status := Connected,
                           frameSub := true, sent := c.sent + c.queue, queue := [])
    case ReadyFailed(id) => Lost(Without(c, id))
    case FrameArrived => c.(watchdog := true)
    case ChannelBroken => Lost(c)
    case SilenceTimeout =>
      var fired := c.(watchdog := false);
      if c.disposed || c.status != Connected then fired else Lost(fired)
    case TimerFired(id) => Attempting(c.(reconnectTimer := false), id)
    case PublishCritical(f) =>
      if c.channel.None? then c.(queue := KeepLast(c.queue + [f], maxLength)) else c.(sent := c.sent + [f])
    case Disconnect => c.(disposed := true, reconnectTimer := false, watchdog := false, frameSub := false,
                          shutdown := CancellingSub)
    case SubCancelled => c.(frameSub := false, status := Offline, shutdown := ClosingSink)
    case SinkClosed => c.(channel := None, shutdown := Finished)
  }

  datatype Trace = Trace(states: seq<Client>, events: seq<Event>, maxLength: nat)

  ghost predicate Follows(r: Trace, i: nat)
    requires i < |r.events| < |r.states|
  {
    Enabled(r.states[i], r.events[i]) && r.states[i + 1] == Next(r.states[i], r.events[i], r.maxLength)
  }

  /** One client from its construction on; connect() is called at most once, as the app does. */
  ghost predicate IsRun(r: Trace) {
    && 0 < r.maxLength && |r.states| == |r.events| + 1 && r.states[0] == INITIAL_CLIENT
    && forall i | 0 <= i < |r.events| :: Follows(r, i)
  }

  // ---------------------------------------------------------------- the single control token

  /** How many of {attempt in flight, open channel with subscription, pending timer} there are. */
  function Tokens(c: Client): nat {
    |c.attempts| + (if c.channel.Some? && c.frameSub then 1 else 0) + (if c.reconnectTimer then 1 else 0)
  }

  ghost predicate Running(c: Client) { c.started && c.shutdown.NotAsked? }

  /** After connect() and before disconnect(): one token, a status that names it, a watchdog only on a channel. */
  ghost predicate InControl(c: Client) {
    && !c.disposed && Tokens(c) == 1
    && c.status == (if c.attempts != map[] then Connecting else if c.channel.Some? then Connected else Reconnecting)
    && (c.frameSub <==> c.channel.Some?)
    && (c.watchdog ==> c.channel.Some?)
  }

  /** Once disconnect() is under way nothing is armed any more; when it is through, nothing is left. */
  ghost predicate WindingDown(c: Client) {
    && c.disposed && !c.reconnectTimer && !c.watchdog && !c.frameSub
    && (c.shutdown.ClosingSink? || c.shutdown.Finished? ==> c.status == Offline)
    && (c.shutdown.Finished? ==> c.channel.None?)
  }

  ghost predicate Sound(c: Client) {
    && (!c.started && c.shutdown.NotAsked? ==>
          c.attempts == map[] && c.channel.None? && !c.frameSub && !c.reconnectTimer && !c.watchdog && !c.disposed)
    && (Running(c) ==> InControl(c))
    && (!c.shutdown.NotAsked? ==> WindingDown(c))
    && (c.channel.Some? ==> c.queue == [])
  }

  lemma StepKeepsSound(c: Client, e: Event, maxLength: nat)
    requires Sound(c) && Enabled(c, e)
    ensures Sound(Next(c, e, maxLength))
  {
  }

  lemma {:induction false} RunStaysSound(r: Trace, n: nat)
    requires IsRun(r) && n < |r.states|
    ensures Sound(r.states[n])
  {
    if n > 0 {
      RunStaysSound(r, n - 1);
      assert Follows(r, n - 1);
      StepKeepsSound(r.states[n - 1], r.events[n - 1], r.maxLength);
    }
  }

  /**
   In every reachable state between connect() and disconnect() there is exactly one of an attempt in flight,
   an open channel with its subscription, and a pending reconnect timer, and the status says which.
   */
  lemma SingleControlToken(r: Trace, n: nat)
    requires IsRun(r) && n < |r.states| && Running(r.states[n])
    ensures var c := r.states[n];
            && (c.status == Connecting <==> |c.attempts| == 1)
            && (c.status == Connected <==> c.channel.Some? && c.frameSub)
            && (c.status == Reconnecting <==> c.reconnectTimer)
            && c.status != Offline && Tokens(c) == 1
  {
    RunStaysSound(r, n);
    if r.states[n].attempts == map[] {
      assert |r.states[n].attempts| == 0;
    } else {
      var id :| id in r.states[n].attempts;
      assert id in r.states[n].attempts.Keys;
      assert |r.states[n].attempts| == |r.states[n].attempts.Keys|;
    }
  }

  /** The channel delivered a frame in step i and has been the same ever since. */
  ghost predicate DeliveredSince(r: Trace, i: nat, n: nat)
    requires i < n <= |r.events| < |r.states|
  {
    r.events[i] == FrameArrived && forall j | i <= j <= n :: r.states[j].channel == r.states[n].channel
  }

  /** The only step that arms the watchdog; while armed, the channel stays. */
  lemma WatchdogStep(c: Client, e: Event, maxLength: nat)
    requires Sound(c) && Enabled(c, e) && Next(c, e, maxLength).watchdog
    ensures Next(c, e, maxLength).channel == c.channel && (e == FrameArrived || c.watchdog)
  {
  }

  lemma WatchdogAt(r: Trace, n: nat)
    requires IsRun(r) && n < |r.states| && r.states[n].watchdog
    ensures n > 0 && r.states[n].channel == r.states[n - 1].channel
    ensures r.events[n - 1] == FrameArrived || r.states[n - 1].watchdog
  {
    RunStaysSound(r, n - 1);
    assert Follows(r, n - 1);
    WatchdogStep(r.states[n - 1], r.events[n - 1], r.maxLength);
  }

  /** An armed watchdog sits on a channel that has been open, unchanged, since it delivered a frame. */
  lemma {:induction false} WatchdogNeedsAFrame(r: Trace, n: nat) returns (i: nat)
    requires IsRun(r) && n < |r.states| && r.states[n].watchdog
    ensures r.states[n].channel.Some? && r.states[n].frameSub
    ensures i < n && DeliveredSince(r, i, n)
  {
    RunStaysSound(r, n);
    WatchdogAt(r, n);
    if r.events[n - 1] == FrameArrived {
      i := n - 1;
    } else {
      i := WatchdogNeedsAFrame(r, n - 1);
      DeliveredStays(r, i, n - 1);
    }
  }

  lemma DeliveredStays(r: Trace, i: nat, n: nat)
    requires i < n < |r.events| < |r.states| && DeliveredSince(r, i, n) && r.states[n + 1].channel == r.states[n].channel
    ensures DeliveredSince(r, i, n + 1)
  {
  }

  ghost predicate Gone(c: Client) {
    c.disposed && !c.shutdown.NotAsked? && !c.reconnectTimer && !c.watchdog && !c.frameSub
    && c.channel.None? && c.status == Offline
  }

  lemma GoneStep(c: Client, e: Event, maxLength: nat)
    requires Gone(c) && Enabled(c, e)
    ensures Gone(Next(c, e, maxLength))
  {
  }

  /** From the moment disconnect() has completed no timer, channel or other status ever comes back. */
  lemma {:induction false} DisconnectIsFinal(r: Trace, k: nat, n: nat)
    requires IsRun(r) && k <= n < |r.states| && r.states[k].shutdown.Finished?
    ensures Gone(r.states[n])
    decreases n
  {
    if k == n {
      RunStaysSound(r, n);
    } else {
      DisconnectIsFinal(r, k, n - 1);
      assert Follows(r, n - 1);
      GoneStep(r.states[n - 1], r.events[n - 1], r.maxLength);
    }
  }

  // ---------------------------------------------------------------- critical frames

  /** Everything published so far, in order. */
  function Published(r: Trace, n: nat): seq<CriticalFrame>
    requires n <= |r.events|
  {
    if n == 0 then []
    else Published(r, n - 1) + if r.events[n - 1].PublishCritical? then [r.events[n - 1].frame] else []
  }

  /** Published since the channel was last open; nothing while it is open. */
  function Gap(r: Trace, n: nat): seq<CriticalFrame>
    requires n <= |r.events| < |r.states|
  {
    if n == 0 || r.states[n].channel.Some? then []
    else Gap(r, n - 1) + if r.events[n - 1].PublishCritical? then [r.events[n - 1].frame] else []
  }

  /** The step from n - 1 to n ends an offline gap. */
  predicate Reopens(r: Trace, n: nat)
    requires 0 < n <= |r.events| < |r.states|
  {
    r.states[n - 1].channel.None? && r.states[n].channel.Some?
  }

  /**
   What must have been handed to sinks: every frame published while open, and of every gap that has ended
   its newest `maxLength` frames.
   */
  function Due(r: Trace, n: nat): seq<CriticalFrame>
    requires n <= |r.events| < |r.states|
  {
    if n == 0 then []
    else if Reopens(r, n) then Due(r, n - 1) + KeepLast(Gap(r, n - 1), r.maxLength)
    else if r.states[n - 1].channel.Some? && r.events[n - 1].PublishCritical?
    then Due(r, n - 1) + [r.events[n - 1].frame]
    else Due(r, n - 1)
  }

  /** What a step does with critical frames. */
  lemma CriticalNext(c: Client, e: Event, maxLength: nat)
    requires Sound(c) && Enabled(c, e)
    ensures var c' := Next(c, e, maxLength);
            var reopens := c.channel.None? && c'.channel.Some?;
            && (e.PublishCritical? ==> c'.channel == c.channel)
            && c'.sent == c.sent + (if reopens then c.queue
                                    else if c.channel.Some? && e.PublishCritical? then [e.frame] else [])
            && c'.queue == (if reopens then []
                            else if c.channel.None? && e.PublishCritical?
                            then KeepLast(c.queue + [e.frame], maxLength) else c.queue)
  {
  }

  lemma CriticalStep(r: Trace, n: nat)
    requires IsRun(r) && 0 < n <= |r.events|
    ensures var c, e, c' := r.states[n - 1], r.events[n - 1], r.states[n];
            && (c.channel.Some? ==> c.queue == [])
            && (e.PublishCritical? ==> c'.channel == c.channel)
            && c'.sent == c.sent + (if Reopens(r, n) then c.queue
                                    else if c.channel.Some? && e.PublishCritical? then [e.frame] else [])
            && c'.queue == (if Reopens(r, n) then []
                            else if c.channel.None? && e.PublishCritical?
                            then KeepLast(c.queue + [e.frame], r.maxLength) else c.queue)
  {
    RunStaysSound(r, n - 1);
    assert Follows(r, n - 1);
    CriticalNext(r.states[n - 1], r.events[n - 1], r.maxLength);
  }

  /** Conservation, exactly: what sinks were handed, and what is still waiting. */
  lemma {:induction false} SentIsDue(r: Trace, n: nat)
    requires IsRun(r) && n <= |r.events|
    ensures r.states[n].sent == Due(r, n)
    ensures r.states[n].queue == KeepLast(Gap(r, n), r.maxLength)
    ensures r.states[n].channel.Some? ==> r.states[n].queue == []
  {
    RunStaysSound(r, n);
    if n > 0 {
      SentIsDue(r, n - 1);
      CriticalStep(r, n);
      DueStep(r, n);
    }
  }

  lemma DueStep(r: Trace, n: nat)
    requires 0 < n <= |r.events| < |r.states| && r.maxLength > 0
    requires r.states[n - 1].channel.Some? ==> r.states[n - 1].queue == []
    requires r.states[n].channel.Some? ==> r.states[n].queue == []
    requires r.states[n - 1].sent == Due(r, n - 1)
    requires r.states[n - 1].queue == KeepLast(Gap(r, n - 1), r.maxLength)
    requires var c, e, c' := r.states[n - 1], r.events[n - 1], r.states[n];
             && (e.PublishCritical? ==> c'.channel == c.channel)
             && c'.sent == c.sent + (if Reopens(r, n) then c.queue
                                     else if c.channel.Some? && e.PublishCritical? then [e.frame] else [])
             && c'.queue == (if Reopens(r, n) then []
                             else if c.channel.None? && e.PublishCritical?
                             then KeepLast(c.queue + [e.frame], r.maxLength) else c.queue)
    ensures r.states[n].sent == Due(r, n)
    ensures r.states[n].queue == KeepLast(Gap(r, n), r.maxLength)
  {
    var c, e := r.states[n - 1], r.events[n - 1];
    if e.PublishCritical? && c.channel.None? {
      KeepLastStep(Gap(r, n - 1), e.frame, r.maxLength);
    }
  }

  /** `at` picks the elements of `a`, in order and without repetition, out of `b`. */
  ghost predicate Picks(at: seq<nat>, a: seq<CriticalFrame>, b: seq<CriticalFrame>) {
    && |at| == |a|
    && (forall i | 0 <= i < |at| :: at[i] < |b| && a[i] == b[at[i]])
    && (forall i, j | 0 <= i < j < |at| :: at[i] < at[j])
  }

  /** Published so far without the current gap. */
  function BeforeGap(r: Trace, n: nat): seq<CriticalFrame>
    requires n <= |r.events| < |r.states|
  {
    if n == 0 then []
    else if r.states[n].channel.Some? then Published(r, n)
    else BeforeGap(r, n - 1)
  }

  lemma {:induction false} GapIsASuffix(r: Trace, n: nat)
    requires IsRun(r) && n <= |r.events|
    ensures Published(r, n) == BeforeGap(r, n) + Gap(r, n)
  {
    if n > 0 && r.states[n].channel.None? {
      GapIsASuffix(r, n - 1);
    }
  }

  lemma PicksAppend(at1: seq<nat>, a1: seq<CriticalFrame>, b1: seq<CriticalFrame>,
                    a2: seq<CriticalFrame>, b2: seq<CriticalFrame>, skipped: nat)
    returns (at: seq<nat>)
    requires Picks(at1, a1, b1) && skipped <= |b2| && a2 == b2[skipped..]
    ensures Picks(at, a1 + a2, b1 + b2)
  {
    at := at1 + seq(|a2|, i requires 0 <= i => |b1| + skipped + i);
  }

  /** What was handed to sinks is an in-order, duplicate-free selection of what was published before the gap. */
  lemma {:induction false} DueIsASelection(r: Trace, n: nat) returns (at: seq<nat>)
    requires IsRun(r) && n <= |r.events|
    ensures Picks(at, Due(r, n), BeforeGap(r, n))
  {
    if n == 0 {
      return [];
    }
    at := DueIsASelection(r, n - 1);
    GapIsASuffix(r, n - 1);
    CriticalStep(r, n);
    at := SelectionStep(r, n, at);
  }

  lemma SelectionStep(r: Trace, n: nat, before: seq<nat>) returns (at: seq<nat>)
    requires 0 < n <= |r.events| < |r.states| && Picks(before, Due(r, n - 1), BeforeGap(r, n - 1))
    requires Published(r, n - 1) == BeforeGap(r, n - 1) + Gap(r, n - 1)
    requires r.events[n - 1].PublishCritical? ==> r.states[n].channel == r.states[n - 1].channel
    ensures Picks(at, Due(r, n), BeforeGap(r, n))
  {
    var gap := Gap(r, n - 1);
    if Reopens(r, n) {
      at := PicksAppend(before, Due(r, n - 1), BeforeGap(r, n - 1), KeepLast(gap, r.maxLength), gap,
                        |gap| - |KeepLast(gap, r.maxLength)|);
    } else if r.states[n - 1].channel.Some? && r.events[n - 1].PublishCritical? {
      at := PicksAppend(before, Due(r, n - 1), BeforeGap(r, n - 1), [r.events[n - 1].frame], [r.events[n - 1].frame], 0);
    } else {
      at := before;
    }
  }

  /**
   Conservation: the frames handed to sinks over all channels, followed by the queue, are published frames
   in their order, none of them twice.
   */
  lemma CriticalFramesInOrder(r: Trace, n: nat)
    requires IsRun(r) && n <= |r.events|
    ensures exists at :: Picks(at, r.states[n].sent + r.states[n].queue, Published(r, n))
  {
    SentIsDue(r, n);
    GapIsASuffix(r, n);
    var at := DueIsASelection(r, n);
    var gap := Gap(r, n);
    at := PicksAppend(at, Due(r, n), BeforeGap(r, n), KeepLast(gap, r.maxLength), gap,
                      |gap| - |KeepLast(gap, r.maxLength)|);
  }

  /** How far the current gap exceeds the buffer. */
  function Overflow(r: Trace, n: nat): nat
    requires n <= |r.events| < |r.states|
  {
    if |Gap(r, n)| <= r.maxLength then 0 else |Gap(r, n)| - r.maxLength
  }

  /** Losses of the gaps that have ended. */
  function OverflowSoFar(r: Trace, n: nat): nat
    requires n <= |r.events| < |r.states|
  {
    if n == 0 then 0
    else OverflowSoFar(r, n - 1) + if Reopens(r, n) then Overflow(r, n - 1) else 0
  }

  /**
   The books balance: published = handed over + waiting + lost, where a gap loses only what it published
   beyond the buffer. So with no oversized gap, nothing is lost at all.
   */
  lemma CriticalFramesBalance(r: Trace, n: nat)
    requires IsRun(r) && n <= |r.events|
    ensures |Published(r, n)| == |r.states[n].sent| + |r.states[n].queue| + OverflowSoFar(r, n) + Overflow(r, n)
    ensures OverflowSoFar(r, n) + Overflow(r, n) == 0 ==> r.states[n].sent + r.states[n].queue == Published(r, n)
  {
    SentIsDue(r, n);
    GapIsASuffix(r, n);
    DueBalance(r, n);
    CriticalFramesInOrder(r, n);
    if OverflowSoFar(r, n) + Overflow(r, n) == 0 {
      var a, b := r.states[n].sent + r.states[n].queue, Published(r, n);
      var at :| Picks(at, a, b);
      FullSelectionIsAll(at, a, b);
    }
  }

  lemma {:induction false} DueBalance(r: Trace, n: nat)
    requires IsRun(r) && n <= |r.events|
    ensures |BeforeGap(r, n)| == |Due(r, n)| + OverflowSoFar(r, n)
  {
    if n > 0 {
      DueBalance(r, n - 1);
      GapIsASuffix(r, n - 1);
      CriticalStep(r, n);
    }
  }

  /** A selection as long as the whole is the whole. */
  lemma FullSelectionIsAll(at: seq<nat>, a: seq<CriticalFrame>, b: seq<CriticalFrame>)
    requires Picks(at, a, b) && |a| == |b|
    ensures a == b
  {
    forall i | 0 <= i < |a| ensures at[i] == i {
      PickedAtLeast(at, a, b, i);
      PickedAtMost(at, a, b, i);
    }
  }

  lemma {:induction false} PickedAtLeast(at: seq<nat>, a: seq<CriticalFrame>, b: seq<CriticalFrame>, i: nat)
    requires Picks(at, a, b) && i < |a|
    ensures at[i] >= i
  {
    if i > 0 {
      PickedAtLeast(at, a, b, i - 1);
    }
  }

  lemma {:induction false} PickedAtMost(at: seq<nat>, a: seq<CriticalFrame>, b: seq<CriticalFrame>, i: nat)
    requires Picks(at, a, b) && |a| == |b| && i < |a|
    ensures at[i] <= i
    decreases |a| - i
  {
    if i + 1 < |a| {
      PickedAtMost(at, a, b, i + 1);
    }
  }

  // ---------------------------------------------------------------- which frames survive

  ghost predicate IsSuffix(a: seq<CriticalFrame>, b: seq<CriticalFrame>) {
    |a| <= |b| && a == b[|b| - |a|..]
  }

  /** How many of `n` frames of a gap are lost. */
  function Excess(n: nat, maxLength: nat): nat {
    if n <= maxLength then 0 else n - maxLength
  }

  /** The frame published last is the last to go: without a channel it is queued, behind all the others. */
  lemma NewestFrameIsQueued(r: Trace, n: nat)
    requires IsRun(r) && n < |r.events| && r.events[n].PublishCritical? && r.states[n].channel.None?
    ensures var queue, queue' := r.states[n].queue, r.states[n + 1].queue;
            && queue' != [] && queue'[|queue'| - 1] == r.events[n].frame
            && queue' == (if |queue| < r.maxLength then queue else queue[1..]) + [r.events[n].frame]
            && r.states[n + 1].sent == r.states[n].sent && r.states[n + 1].channel.None?
  {
    SentIsDue(r, n);
    CriticalStep(r, n + 1);
    var queue, f := r.states[n].queue, r.events[n].frame;
    KeptIsNewest(queue + [f], r.maxLength);
    assert |queue| <= r.maxLength;
    if |queue| == r.maxLength {
      assert queue + [f] == [queue[0]] + (queue[1..] + [f]);
    }
  }

  /** With a channel it is handed over at once. */
  lemma NewestFrameIsSent(r: Trace, n: nat)
    requires IsRun(r) && n < |r.events| && r.events[n].PublishCritical? && r.states[n].channel.Some?
    ensures r.states[n + 1].sent == r.states[n].sent + [r.events[n].frame] && r.states[n + 1].queue == []
  {
    CriticalStep(r, n + 1);
  }

  /** In every run the queue is the newest part of the gap, and of all that was published. */
  lemma QueueIsNewest(r: Trace, n: nat)
    requires IsRun(r) && n <= |r.events|
    ensures IsSuffix(r.states[n].queue, Gap(r, n)) && IsSuffix(r.states[n].queue, Published(r, n))
    ensures |r.states[n].queue| == |Gap(r, n)| - Excess(|Gap(r, n)|, r.maxLength)
  {
    SentIsDue(r, n);
    GapIsASuffix(r, n);
    KeptIsNewest(Gap(r, n), r.maxLength);
    var all, queue := Published(r, n), r.states[n].queue;
    assert all == (BeforeGap(r, n) + Gap(r, n)[..|Gap(r, n)| - |queue|]) + queue;
  }

  /**
   When the channel is back, what is handed over is the newest part of the gap: each frame of the gap that is
   lost comes before each frame that is not, and no more are lost than the gap has beyond the buffer.
   */
  lemma ReopeningLosesTheOldest(r: Trace, n: nat) returns (lost: seq<CriticalFrame>, handed: seq<CriticalFrame>)
    requires IsRun(r) && 0 < n <= |r.events| && Reopens(r, n)
    ensures Gap(r, n - 1) == lost + handed && |lost| == Excess(|Gap(r, n - 1)|, r.maxLength)
    ensures r.states[n].sent == r.states[n - 1].sent + handed && r.states[n].queue == []
  {
    QueueIsNewest(r, n - 1);
    CriticalStep(r, n);
    handed := r.states[n - 1].queue;
    lost := Gap(r, n - 1)[..|Gap(r, n - 1)| - |handed|];
  }

  // ---------------------------------------------------------------- every phase is left

  /** A line that breaks, or falls silent, is given up, and a reconnect is scheduled. */
  lemma LossIsNoticed(r: Trace, n: nat)
    requires IsRun(r) && n < |r.events| && Running(r.states[n]) && r.states[n].channel.Some?
    requires r.events[n] == ChannelBroken || r.events[n] == SilenceTimeout
    ensures var c, c' := r.states[n], r.states[n + 1];
            && c'.channel.None? && !c'.frameSub && !c'.watchdog && c'.attempts == map[]
            && c'.reconnectTimer && c'.status == Reconnecting && c'.retryAttempt == c.retryAttempt + 1
            && c'.sent == c.sent && c'.queue == [] && Running(c')
  {
    RunStaysSound(r, n);
    assert Follows(r, n);
    LossStep(r.states[n], r.events[n], r.maxLength);
  }

  lemma LossStep(c: Client, e: Event, maxLength: nat)
    requires Sound(c) && Running(c) && c.channel.Some? && Enabled(c, e) && (e == ChannelBroken || e == SilenceTimeout)
    ensures var c' := Next(c, e, maxLength);
            && c'.channel.None? && !c'.frameSub && !c'.watchdog && c'.attempts == map[]
            && c'.reconnectTimer && c'.status == Reconnecting && c'.retryAttempt == c.retryAttempt + 1
            && c'.sent == c.sent && c'.queue == [] && Running(c')
  {
    OneAttemptAtMost(c);
  }

  lemma OneAttemptAtMost(c: Client)
    requires Sound(c) && Running(c)
    ensures c.attempts == map[] || (!c.reconnectTimer && c.channel.None? && exists id :: c.attempts.Keys == {id})
  {
    assert |c.attempts| == |c.attempts.Keys|;
    if c.attempts != map[] {
      var id :| id in c.attempts;
      assert c.attempts.Keys == {id} + (c.attempts.Keys - {id});
      assert |c.attempts.Keys - {id}| == |c.attempts.Keys| - 1;
    }
  }

  /** An attempt that fails, at its token, its dial or its channel, schedules the next one. */
  lemma FailureIsRetried(r: Trace, n: nat)
    requires IsRun(r) && n < |r.events| && Running(r.states[n])
    requires r.events[n].TokenFailed? || r.events[n].DialFailed? || r.events[n].ReadyFailed?
    ensures var c, c' := r.states[n], r.states[n + 1];
            && c'.channel.None? && !c'.frameSub && !c'.watchdog && c'.attempts == map[]
            && c'.reconnectTimer && c'.status == Reconnecting && c'.retryAttempt == c.retryAttempt + 1
            && c'.sent == c.sent && c'.queue == c.queue && Running(c')
  {
    RunStaysSound(r, n);
    assert Follows(r, n);
    OneAttemptAtMost(r.states[n]);
  }

  /** The timer starts an attempt; its token leads to a dial; a dialled channel that is ready is the open one. */
  lemma AttemptGoesOn(r: Trace, n: nat)
    requires IsRun(r) && n < |r.events| && Running(r.states[n])
    ensures var c, e, c' := r.states[n], r.events[n], r.states[n + 1];
            && (e.TimerFired? ==> c'.attempts == map[e.id := AwaitingToken] && !c'.reconnectTimer && c'.status == Connecting)
            && (e.TokenArrived? ==> c'.attempts == map[e.id := AwaitingReady(e.channel)] && c'.status == Connecting)
            && (e.ReadyOk? ==> && c'.channel.Some? && c.attempts == map[e.id := AwaitingReady(c'.channel.value)]
                               && c'.frameSub && c'.status == Connected && c'.retryAttempt == 0
                               && c'.attempts == map[] && c'.sent == c.sent + c.queue && c'.queue == [])
            && (e.FrameArrived? ==> c' == c.(watchdog := true))
  {
    RunStaysSound(r, n);
    assert Follows(r, n);
    OneAttemptAtMost(r.states[n]);
  }

  /** connect() starts the first attempt. */
  lemma ConnectStarts(r: Trace, n: nat)
    requires IsRun(r) && n < |r.events| && r.events[n].Connect?
    ensures var c, c' := r.states[n], r.states[n + 1];
            && c'.attempts == map[r.events[n].id := AwaitingToken] && c'.status == Connecting && Running(c')
            && c'.queue == c.queue && c'.sent == c.sent
  {
    RunStaysSound(r, n);
    assert Follows(r, n);
  }

  /** From a loss until a channel is ready again everything published is queued, and nothing is handed over. */
  lemma {:induction false} OfflineFramesAreQueued(r: Trace, k: nat, n: nat)
    requires IsRun(r) && k < n < |r.states| && Running(r.states[k]) && r.states[k].channel.Some?
    requires r.events[k] == ChannelBroken || r.events[k] == SilenceTimeout
    requires forall i | k < i < n :: !r.events[i].ReadyOk?
    ensures r.states[n].channel.None? && r.states[n].sent == r.states[k].sent
    ensures r.events[n - 1].PublishCritical? ==>
              r.states[n].queue != [] && r.states[n].queue[|r.states[n].queue| - 1] == r.events[n - 1].frame
    decreases n
  {
    if n == k + 1 {
      LossIsNoticed(r, k);
    } else {
      OfflineFramesAreQueued(r, k, n - 1);
      StaysClosed(r, n);
      if r.events[n - 1].PublishCritical? {
        NewestFrameIsQueued(r, n - 1);
      }
    }
  }

  lemma StaysClosed(r: Trace, n: nat)
    requires IsRun(r) && 0 < n <= |r.events| && r.states[n - 1].channel.None? && !r.events[n - 1].ReadyOk?
    ensures r.states[n].channel.None? && r.states[n].sent == r.states[n - 1].sent
  {
    assert Follows(r, n - 1);
  }

  /** disconnect() is carried through: nothing armed at once, offline after one await, no channel after the next. */
  lemma DisconnectGoesThrough(r: Trace, n: nat)
    requires IsRun(r) && n < |r.events|
    ensures var c, e, c' := r.states[n], r.events[n], r.states[n + 1];
            && (e.Disconnect? ==> c'.disposed && !c'.reconnectTimer && !c'.watchdog && c'.shutdown == CancellingSub)
            && (e.SubCancelled? ==> !c'.frameSub && c'.status == Offline && c'.shutdown == ClosingSink)
            && (e.SinkClosed? ==> c'.channel.None? && c'.shutdown == Finished && Gone(c'))
  {
    RunStaysSound(r, n);
    RunStaysSound(r, n + 1);
    assert Follows(r, n);
  }

  // ---------------------------------------------------------------- the client object

  /** Attempts and channels are numbered; dialling and timers belong to the outside world. */
  class ConvoySocketClient {
    const maxLength: nat
    const outboundQueue: OutboundFrameQueue<CriticalFrame>
    var channel: Option<ChannelId>
    var frameSub: bool
    var reconnectTimer: bool
    var watchdog: bool
    var retryAttempt: nat
    var started: bool
    var disposed: bool
    var currentStatus: ConnectionStatus
    var attempts: map<AttemptId, Attempt>
    var shutdown: Shutdown
    var sent: seq<CriticalFrame>

    ghost predicate Valid() reads this, outboundQueue {
      outboundQueue.Valid() && outboundQueue.maxLength == maxLength
    }

    ghost function Abs(): Client reads this, outboundQueue {
      Client(channel, frameSub, reconnectTimer, watchdog, retryAttempt, started, disposed, currentStatus,
             outboundQueue.frames, attempts, shutdown, sent)
    }

    constructor (maxLength: nat)
      requires maxLength > 0
      ensures Valid() && fresh(outboundQueue) && Abs() == INITIAL_CLIENT && this.maxLength == maxLength
    {
      this.maxLength := maxLength;
      outboundQueue := new OutboundFrameQueue<CriticalFrame>(maxLength);
      channel, frameSub, reconnectTimer, watchdog, retryAttempt := None, false, false, false, 0;
      started, disposed, currentStatus, attempts, shutdown, sent := false, false, Connecting, map[], NotAsked, [];
    }

    method AttemptConnect(id: AttemptId)
      requires Valid() && id !in attempts
      modifies this
      ensures Valid() && Abs() == Attempting(old(Abs()), id)
    {
      if disposed {
        return;
      }
      currentStatus := Connecting;
      attempts := attempts[id := AwaitingToken];
    }

    method OnChannelLost()
      requires Valid()
      modifies this
      ensures Valid() && Abs() == Lost(old(Abs()))
    {
      watchdog := false;
      frameSub := false;
      channel := None;
      if disposed {
        return;
      }
      retryAttempt := retryAttempt + 1;
      currentStatus := Reconnecting;
      reconnectTimer := true;
    }

    method OnConnect(id: AttemptId)
      requires Valid() && Enabled(Abs(), Connect(id))
      modifies this
      ensures Valid() && Abs() == Next(old(Abs()), Connect(id), maxLength)
    {
      started := true;
      disposed := false;
      AttemptConnect(id);
    }

    method OnToken(id: AttemptId, newChannel: ChannelId)
      requires Valid() && Enabled(Abs(), TokenArrived(id, newChannel))
      modifies this
      ensures Valid() && Abs() == Next(old(Abs()), TokenArrived(id, newChannel), maxLength)
    {
      if disposed {
        attempts := attempts - {id};
        return;
      }
      attempts := attempts[id := AwaitingReady(newChannel)];
    }

    method OnTokenError(id: AttemptId)
      requires Valid() && Enabled(Abs(), TokenFailed(id))
      modifies this
      ensures Valid() && Abs() == Next(old(Abs()), TokenFailed(id), maxLength)
    {
      attempts := attempts - {id};
      OnChannelLost();
    }

    method OnDialError(id: AttemptId)
      requires Valid() && Enabled(Abs(), DialFailed(id))
      modifies this
      ensures Valid() && Abs() == Next(old(Abs()), DialFailed(id), maxLength)
    {
      attempts := attempts - {id};
      if disposed {
        return;
      }
      OnChannelLost();
    }

    /** The channel is ready: publish it, listen, and flush what was buffered, oldest first. */
    method OnReady(id: AttemptId)
      requires Valid() && Enabled(Abs(), ReadyOk(id))
      modifies this, outboundQueue
      ensures Valid() && Abs() == Next(old(Abs()), ReadyOk(id), maxLength)
    {
      var ready := attempts[id].channel;
      attempts := attempts - {id};
      if disposed {
        return;
      }
      channel := Some(ready);
      retryAttempt := 0;
      currentStatus := Connected;
      frameSub := true;
      DrainAndFlush();
    }

    /** Everything buffered goes to the sink, oldest first. */
    method DrainAndFlush()
      requires Valid()
      modifies this`sent, outboundQueue
      ensures Valid() && outboundQueue.frames == [] && sent == old(sent) + old(outboundQueue.frames)
    {
      var drained := outboundQueue.Drain();
      Flush(drained);
    }

    method Flush(drained: seq<CriticalFrame>)
      modifies this`sent
      ensures sent == old(sent) + drained
    {
      for i := 0 to |drained|
        invariant sent == old(sent) + drained[..i]
      {
        sent := sent + [drained[i]];
      }
      assert drained[..|drained|] == drained;
    }

    method OnReadyError(id: AttemptId)
      requires Valid() && Enabled(Abs(), ReadyFailed(id))
      modifies this
      ensures Valid() && Abs() == Next(old(Abs()), ReadyFailed(id), maxLength)
    {
      attempts := attempts - {id};
      OnChannelLost();
    }

    /** Any inbound frame restarts the watchdog. */
    method OnFrame()
      requires Valid() && Enabled(Abs(), FrameArrived)
      modifies this
      ensures Valid() && Abs() == Next(old(Abs()), FrameArrived, maxLength)
    {
      watchdog := true;
    }

    method OnChannelBroken()
      requires Valid() && Enabled(Abs(), ChannelBroken)
      modifies this
      ensures Valid() && Abs() == Next(old(Abs()), ChannelBroken, maxLength)
    {
      OnChannelLost();
    }

    method OnInboundSilence()
      requires Valid() && Enabled(Abs(), SilenceTimeout)
      modifies this
      ensures Valid() && Abs() == Next(old(Abs()), SilenceTimeout, maxLength)
    {
      watchdog := false;
      if disposed || currentStatus != Connected {
        return;
      }
      OnChannelLost();
    }

    method OnReconnectTimer(id: AttemptId)
      requires Valid() && Enabled(Abs(), TimerFired(id))
      modifies this
      ensures Valid() && Abs() == Next(old(Abs()), TimerFired(id), maxLength)
    {
      reconnectTimer := false;
      AttemptConnect(id);
    }

    /** Send at once, or buffer while there is no channel. */
    method SendCritical(frame: CriticalFrame)
      requires Valid()
      modifies this, outboundQueue
      ensures Valid() && Abs() == Next(old(Abs()), PublishCritical(frame), maxLength)
    {
      if channel.None? {
        outboundQueue.Enqueue(frame);
        return;
      }
      sent := sent + [frame];
    }

    method BeginDisconnect()
      requires Valid() && Enabled(Abs(), Disconnect)
      modifies this
      ensures Valid() && Abs() == Next(old(Abs()), Disconnect, maxLength)
    {
      disposed := true;
      reconnectTimer := false;
      watchdog := false;
      frameSub := false;
      shutdown := CancellingSub;
    }

    method OnSubCancelled()
      requires Valid() && Enabled(Abs(), SubCancelled)
      modifies this
      ensures Valid() && Abs() == Next(old(Abs()), SubCancelled, maxLength)
    {
      frameSub := false;
      currentStatus := Offline;
      shutdown := ClosingSink;
    }

    method OnSinkClosed()
      requires Valid() && Enabled(Abs(), SinkClosed)
      modifies this
      ensures Valid() && Abs() == Next(old(Abs()), SinkClosed, maxLength)
    {
      channel := None;
      shutdown := Finished;
    }
  }
}
