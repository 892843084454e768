/**
 * The dashboard's live-sync channel: one WebSocket at a time, re-opened three
 * seconds after every close while the page is mounted. Time is reduced to
 * discrete events; a pending `setTimeout(connectWebSocket, 3000)` is an armed timer.
 */
module LiveSync {

  /** The `readyState` of the socket the closure variable `ws` currently holds. */
  datatype Socket = Connecting | Open | Closing | Closed

  /** The closure state of the effect: `isComponentMounted`, `ws`, the reconnect
      timers not yet fired, and how many sockets `connectWebSocket` has created. */
  datatype SyncState = SyncState(mounted: bool, ws: Socket, armedTimers: nat, connections: nat)

  datatype SyncEvent = SocketOpened | SocketClosed | TimerFired | Unmounted

  /** The effect's first run: the flag is set and the first socket is created. */
  function Mount(): (s: SyncState)
    ensures s.mounted && s.ws == Connecting && s.armedTimers == 0 && s.connections == 1
  {
    SyncState(true, Connecting, 0, 1)
  }

  /** One event. An event that cannot occur in the current state (an open on a socket
      that is not connecting, a close on a closed socket, a timer when none is armed)
      changes nothing. */
  function Step(s: SyncState, e: SyncEvent): (r: SyncState)
    ensures r.mounted <==> s.mounted && e != Unmounted
    ensures r.connections == s.connections + (if e == TimerFired && s.armedTimers > 0 then 1 else 0)
    ensures r.armedTimers > s.armedTimers ==> s.mounted && e == SocketClosed && r.armedTimers == s.armedTimers + 1
  {
    match e
    case SocketOpened =>
      if s.ws == Connecting then s.(ws := Open) else s
    case SocketClosed =>
      if s.ws == Closed then s
      else if s.mounted then s.(ws := Closed, armedTimers := s.armedTimers + 1)
      else s.(ws := Closed)
    case TimerFired =>
      // connectWebSocket does not look at the flag
      if s.armedTimers == 0 then s
      else s.(ws := Connecting, armedTimers := s.armedTimers - 1, connections := s.connections + 1)
    case Unmounted =>
      // cleanup clears the flag and closes the socket; armed timers are not cleared
      s.(mounted := false, ws := if s.ws in {Connecting, Open} then Closing else s.ws)
  }

  /** A sequence of events, in order: the page stays mounted exactly until cleanup,
      and sockets once created are never uncounted. */
  function Run(s: SyncState, events: seq<SyncEvent>): (r: SyncState)
    ensures r.mounted <==> s.mounted && Unmounted !in events
    ensures r.connections >= s.connections
    ensures r.connections <= s.connections + |events|
    decreases |events|
  {
    if events == [] then s else Run(Step(s, events[0]), events[1..])
  }

  /** At most one reconnect is ever pending, and only while the socket is closed;
      at least one socket has been created. */
  ghost predicate Valid(s: SyncState) {
    && s.armedTimers <= 1
    && (s.armedTimers == 1 ==> s.ws == Closed)
    && s.connections >= 1
  }

  lemma StepValid(s: SyncState, e: SyncEvent)
    requires Valid(s)
    ensures Valid(Step(s, e))
  {
  }

  lemma {:induction false} RunValid(s: SyncState, events: seq<SyncEvent>)
    requires Valid(s)
    ensures Valid(Run(s, events))
    decreases |events|
  {
    if events != [] {
      StepValid(s, events[0]);
      RunValid(Step(s, events[0]), events[1..]);
    }
  }

  lemma MountValid()
    ensures Valid(Mount())
  {
  }

  /** A close while mounted arms exactly one reconnect; a close after cleanup arms none. */
  lemma CloseArmsReconnect(s: SyncState)
    requires s.ws != Closed
    ensures s.mounted ==> Step(s, SocketClosed) == s.(ws := Closed, armedTimers := s.armedTimers + 1)
    ensures !s.mounted ==> Step(s, SocketClosed) == s.(ws := Closed)
  {
  }

  /** Cleanup clears the flag, closes a live socket and leaves armed timers alone. */
  lemma CleanupEffect(s: SyncState)
    ensures !Step(s, Unmounted).mounted
    ensures Step(s, Unmounted).armedTimers == s.armedTimers
    ensures Step(s, Unmounted).connections == s.connections
    ensures s.ws in {Connecting, Open} ==> Step(s, Unmounted).ws == Closing
  {
  }

  /** While mounted, a live socket that drops is replaced by exactly one new socket. */
  lemma MountedReconnect(s: SyncState)
    requires Valid(s) && s.mounted && s.ws != Closed
    ensures Run(s, [SocketClosed, TimerFired]) == s.(ws := Connecting, connections := s.connections + 1)
  {
    assert [SocketClosed, TimerFired][1..] == [TimerFired];
  }

  /** After cleanup nothing arms a new timer: the flag stays clear and timers plus
      sockets never grow, so at most the reconnects armed before cleanup still fire. */
  lemma {:induction false} NoGrowthAfterUnmount(s: SyncState, events: seq<SyncEvent>)
    requires !s.mounted
    ensures !Run(s, events).mounted
    ensures Run(s, events).armedTimers <= s.armedTimers
    ensures Run(s, events).connections + Run(s, events).armedTimers <= s.connections + s.armedTimers
    decreases |events|
  {
    if events != [] {
      NoGrowthAfterUnmount(Step(s, events[0]), events[1..]);
    }
  }

  /** A reconnect armed before cleanup still fires and opens a socket on an unmounted
      page, and that socket is never closed by the page. */
  lemma ReconnectAfterUnmount()
    ensures var s := Run(Mount(), [SocketOpened, SocketClosed, Unmounted, TimerFired]);
      && !s.mounted && s.ws == Connecting && s.connections == 2 && s.armedTimers == 0
  {
    var e := [SocketOpened, SocketClosed, Unmounted, TimerFired];
    assert e[1..] == [SocketClosed, Unmounted, TimerFired];
    assert e[1..][1..] == [Unmounted, TimerFired];
    assert e[1..][1..][1..] == [TimerFired];
  }
}
