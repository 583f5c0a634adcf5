/** The browser's signaling connection: reconnecting with growing delays, pausing while
    the page is hidden or offline, and closing for good. */
module SignalConnection {
  import opened Wrappers
  import opened Arithmetic

  const BASE_DELAY_MS: nat := 1000
  const MAX_DELAY_MS: nat := 5000
  const MAX_ATTEMPT: nat := 5

  datatype ReadyState = Connecting | Open | Closing | Closed

  /** A socket and the closure around it. `afterDelay` records the timer that made it. */
  datatype Socket = Socket(
    state: ReadyState,
    attempt: nat,
    listening: bool,
    connectTimeout: bool,
    heartbeat: bool,
    afterDelay: Option<nat>)

  datatype Timer = Timer(attempt: nat, delay: nat)

  datatype Connection = Connection(
    closedByApp: bool,
    visible: bool,
    online: bool,
    lifecycle: bool,
    timer: Option<Timer>,
    current: Option<nat>,
    sockets: seq<Socket>)

  function Delay(attempt: nat): nat {
    Min(BASE_DELAY_MS * Pow2(attempt), MAX_DELAY_MS)
  }

  predicate CanAttempt(c: Connection) {
    !c.closedByApp && c.visible && c.online
  }

  // ------------------------------------------------ what each handler does

  function Connect(c: Connection, attempt: nat, afterDelay: Option<nat>): Connection {
    c.(current := Some(|c.sockets|),
       sockets := c.sockets + [Socket(Connecting, attempt, true, true, false, afterDelay)])
  }

  function Started(visible: bool, online: bool): Connection {
    var c := Connection(false, visible, online, true, None, None, []);
    if CanAttempt(c) then Connect(c, 0, None) else c
  }

  /** `socket.close()`. */
  function Closes(s: Socket): Socket {
    if s.state == Connecting || s.state == Open then s.(state := Closing) else s
  }

  /** Asking for the games list; a send that throws closes the socket. */
  function AsksForGames(s: Socket, sendFails: bool): Socket {
    if s.state == Open && sendFails then Closes(s) else s
  }

  function WithSocket(c: Connection, i: nat, s: Socket): Connection
    requires i < |c.sockets|
  {
    c.(sockets := c.sockets[i := s])
  }

  function Recovered(c: Connection, sendFails: bool): Connection
    requires c.current != None ==> c.current.value < |c.sockets|
  {
    if !CanAttempt(c) then c
    else if c.current != None && c.sockets[c.current.value].state != Closed then
      WithSocket(c, c.current.value, AsksForGames(c.sockets[c.current.value], sendFails))
    else if c.timer != None then c
    else Connect(c, 0, None)
  }

  function Opened(c: Connection, i: nat, sendFails: bool): Connection
    requires i < |c.sockets|
  {
    WithSocket(c, i, OpenedSocket(c.sockets[i], sendFails))
  }

  function OpenedSocket(socket: Socket, sendFails: bool): Socket {
    var s := socket.(state := Open);
    if s.listening then AsksForGames(s.(connectTimeout := false), sendFails).(heartbeat := true) else s
  }

  function HasClosed(c: Connection, i: nat): Connection
    requires i < |c.sockets|
  {
    var s := c.sockets[i].(state := Closed);
    if !s.listening then WithSocket(c, i, s)
    else
      var d := WithSocket(c, i, s.(connectTimeout := false, heartbeat := false));
      if CanAttempt(d) && d.current == Some(i) then d.(timer := Some(Timer(s.attempt, Delay(s.attempt)))) else d
  }

  function TimerFired(c: Connection): Connection
    requires c.timer != None
  {
    var t, d := c.timer.value, c.(timer := None);
    if CanAttempt(d) then Connect(d, Min(t.attempt + 1, MAX_ATTEMPT), Some(t.delay)) else d
  }

  function TimedOut(c: Connection, i: nat): Connection
    requires i < |c.sockets|
  {
    var s := c.sockets[i].(connectTimeout := false);
    WithSocket(c, i, if c.current == Some(i) && s.state == Connecting then Closes(s) else s)
  }

  function ClosedByApp(c: Connection): Connection
    requires c.current != None ==> c.current.value < |c.sockets|
  {
    var quiet := if c.sockets == [] then c.sockets
                 else
                   var last := |c.sockets| - 1;
                   c.sockets[last := c.sockets[last].(listening := false, connectTimeout := false, heartbeat := false)];
    c.(closedByApp := true, lifecycle := false, timer := None, current := None,
       sockets := if c.current == None then quiet else quiet[c.current.value := Closes(quiet[c.current.value])])
  }

  datatype Event =
    | SocketOpens(i: nat, sendFails: bool)
    | SocketStartsClosing(i: nat)
    | SocketCloses(i: nat)
    | Heartbeat(i: nat, sendFails: bool)
    | ConnectTimeout(i: nat)
    | TimerFires
    | Foreground(sendFails: bool)
    | VisibilityChange(nowVisible: bool, sendFails: bool)
    | OnlineChange(nowOnline: bool, sendFails: bool)
    | AppClose

  /** Which events can happen: the browser drives sockets forward only, and only running
      timers fire. */
  predicate Possible(c: Connection, e: Event) {
    match e
    case SocketOpens(i, _) => i < |c.sockets| && c.sockets[i].state == Connecting
    case SocketStartsClosing(i) => i < |c.sockets| && c.sockets[i].state != Closed
    case SocketCloses(i) => i < |c.sockets| && c.sockets[i].state != Closed
    case Heartbeat(i, _) => i < |c.sockets| && c.sockets[i].heartbeat
    case ConnectTimeout(i) => i < |c.sockets| && c.sockets[i].connectTimeout
    case TimerFires => c.timer != None
    case _ => true
  }

  function Step(c: Connection, e: Event): Connection
    requires Possible(c, e) && (c.current != None ==> c.current.value < |c.sockets|)
  {
    match e
    case SocketOpens(i, fails) => Opened(c, i, fails)
    case SocketStartsClosing(i) => WithSocket(c, i, Closes(c.sockets[i]))
    case SocketCloses(i) => HasClosed(c, i)
    case Heartbeat(i, fails) => WithSocket(c, i, AsksForGames(c.sockets[i], fails))
    case ConnectTimeout(i) => TimedOut(c, i)
    case TimerFires => TimerFired(c)
    case Foreground(fails) => if c.lifecycle then Recovered(c, fails) else c
    case VisibilityChange(v, fails) =>
      var d := c.(visible := v);
      if c.lifecycle && v then Recovered(d, fails) else d
    case OnlineChange(v, fails) =>
      var d := c.(online := v);
      if c.lifecycle && v then Recovered(d, fails) else d
    case AppClose => ClosedByApp(c)
  }

  predicate IsGoing(s: Socket) {
    s.state == Closing || s.state == Closed
  }

  /** While a socket is listened to, the connect timeout runs as long as it has not opened,
      and the heartbeat while it is open. */
  predicate IsWatched(s: Socket) {
    && (s.state == Connecting ==> s.connectTimeout && !s.heartbeat)
    && (s.state == Open ==> s.heartbeat && !s.connectTimeout)
  }

  /** What holds at every moment. */
  ghost predicate Invariant(c: Connection) {
    && (c.current != None ==> c.sockets != [] && c.current.value == |c.sockets| - 1)
    && (c.current == None && !c.closedByApp ==> c.sockets == [] && c.timer == None)
    && (forall i | 0 <= i < |c.sockets| - 1 :: c.sockets[i].state == Closed)
    && (c.timer != None ==>
          c.current != None && !c.closedByApp
          && c.sockets[c.current.value].state == Closed
          && c.timer.value == Timer(c.sockets[c.current.value].attempt, Delay(c.sockets[c.current.value].attempt)))
    && (c.closedByApp ==> c.timer == None && c.current == None && !c.lifecycle)
    && (c.closedByApp ==> forall i | 0 <= i < |c.sockets| :: IsGoing(c.sockets[i]))
    && (forall i | 0 <= i < |c.sockets| :: SocketInvariant(c, i))
  }

  /** Timers of a closed socket are stopped, a socket that is listened to is watched, and one
      made by a reconnect timer is one attempt further than the socket before it. */
  ghost predicate SocketInvariant(c: Connection, i: nat)
    requires i < |c.sockets|
  {
    var s := c.sockets[i];
    && s.attempt <= MAX_ATTEMPT
    && (s.listening || (c.closedByApp && i == |c.sockets| - 1 && !s.connectTimeout && !s.heartbeat))
    && (s.state == Closed ==> !s.connectTimeout && !s.heartbeat)
    && (s.listening ==> IsWatched(s))
    && (if s.afterDelay == None then s.attempt == 0
        else && i > 0 && s.afterDelay.value == Delay(c.sockets[i - 1].attempt)
             && s.attempt == Min(c.sockets[i - 1].attempt + 1, MAX_ATTEMPT))
  }

  // ------------------------------------------------------------ the invariant

  lemma ConnectKeepsInvariant(c: Connection, attempt: nat, afterDelay: Option<nat>)
    requires Invariant(c) && CanAttempt(c) && c.timer == None && attempt <= MAX_ATTEMPT
    requires c.current != None ==> c.sockets[c.current.value].state == Closed
    requires if afterDelay == None then attempt == 0
             else
               && c.current != None && afterDelay.value == Delay(c.sockets[c.current.value].attempt)
               && attempt == Min(c.sockets[c.current.value].attempt + 1, MAX_ATTEMPT)
    ensures Invariant(Connect(c, attempt, afterDelay))
  {
    var d := Connect(c, attempt, afterDelay);
    forall i | 0 <= i < |d.sockets| ensures SocketInvariant(d, i) {
      assert i < |c.sockets| ==> SocketInvariant(c, i);
    }
  }

  lemma DelaysGrow(attempt: nat)
    requires attempt <= MAX_ATTEMPT
    ensures BASE_DELAY_MS <= Delay(attempt) <= Delay(Min(attempt + 1, MAX_ATTEMPT)) <= MAX_DELAY_MS
  {
    assert Pow2(5) == 2 * Pow2(4);
  }

  /** Changing one socket without changing its place in the chain of reconnects. */
  lemma UpdateKeepsInvariant(c: Connection, i: nat, s: Socket)
    requires Invariant(c) && i < |c.sockets|
    requires s.(state := c.sockets[i].state, connectTimeout := c.sockets[i].connectTimeout,
                heartbeat := c.sockets[i].heartbeat) == c.sockets[i]
    requires c.sockets[i].state == Closed ==> s.state == Closed
    requires s.state == Closed ==> !s.connectTimeout && !s.heartbeat
    requires if s.listening then IsWatched(s) else !s.connectTimeout && !s.heartbeat
    requires c.closedByApp ==> IsGoing(s)
    ensures Invariant(WithSocket(c, i, s))
  {
    var d := WithSocket(c, i, s);
    forall k | 0 <= k < |d.sockets| ensures SocketInvariant(d, k) {
      assert SocketInvariant(c, k);
    }
  }

  lemma RecoveryKeepsInvariant(c: Connection, sendFails: bool)
    requires Invariant(c)
    ensures Invariant(Recovered(c, sendFails))
  {
    if CanAttempt(c) {
      if c.current != None && c.sockets[c.current.value].state != Closed {
        var i := c.current.value;
        assert SocketInvariant(c, i);
        UpdateKeepsInvariant(c, i, AsksForGames(c.sockets[i], sendFails));
      } else if c.timer == None {
        ConnectKeepsInvariant(c, 0, None);
      }
    }
  }

  lemma ClosingKeepsInvariant(c: Connection, i: nat)
    requires Invariant(c) && i < |c.sockets| && c.sockets[i].state != Closed
    ensures Invariant(HasClosed(c, i))
  {
    var s := c.sockets[i];
    assert SocketInvariant(c, i);
    UpdateKeepsInvariant(c, i, s.(state := Closed, connectTimeout := false, heartbeat := false));
    var d := WithSocket(c, i, s.(state := Closed, connectTimeout := false, heartbeat := false));
    if s.listening && CanAttempt(d) && d.current == Some(i) {
      var e := HasClosed(c, i);
      forall k | 0 <= k < |e.sockets| ensures SocketInvariant(e, k) {
        assert SocketInvariant(d, k);
      }
    }
  }

  lemma TimerKeepsInvariant(c: Connection)
    requires Invariant(c) && c.timer != None
    ensures Invariant(TimerFired(c))
  {
    var d := c.(timer := None);
    forall k | 0 <= k < |d.sockets| ensures SocketInvariant(d, k) {
      assert SocketInvariant(c, k);
    }
    var i := c.current.value;
    assert SocketInvariant(c, i);
    DelaysGrow(c.sockets[i].attempt);
    if CanAttempt(d) {
      ConnectKeepsInvariant(d, Min(c.timer.value.attempt + 1, MAX_ATTEMPT), Some(c.timer.value.delay));
    }
  }

  lemma AppCloseKeepsInvariant(c: Connection)
    requires Invariant(c)
    ensures Invariant(ClosedByApp(c))
  {
    var d := ClosedByApp(c);
    forall k | 0 <= k < |d.sockets| ensures SocketInvariant(d, k) {
      assert SocketInvariant(c, k);
      assert k > 0 ==> d.sockets[k - 1].attempt == c.sockets[k - 1].attempt;
    }
  }

  lemma EnvironmentKeepsInvariant(c: Connection, visible: bool, online: bool)
    requires Invariant(c)
    ensures Invariant(c.(visible := visible, online := online))
  {
    var d := c.(visible := visible, online := online);
    forall k | 0 <= k < |d.sockets| ensures SocketInvariant(d, k) {
      assert SocketInvariant(c, k);
    }
  }

  lemma OpeningKeepsInvariant(c: Connection, i: nat, sendFails: bool)
    requires Invariant(c) && Possible(c, SocketOpens(i, sendFails))
    ensures Invariant(Opened(c, i, sendFails))
  {
    assert SocketInvariant(c, i);
    UpdateKeepsInvariant(c, i, OpenedSocket(c.sockets[i], sendFails));
  }

  lemma SocketEventKeepsInvariant(c: Connection, i: nat, sendFails: bool)
    requires Invariant(c) && i < |c.sockets|
    ensures Invariant(WithSocket(c, i, Closes(c.sockets[i])))
    ensures Invariant(WithSocket(c, i, AsksForGames(c.sockets[i], sendFails)))
  {
    assert SocketInvariant(c, i);
    UpdateKeepsInvariant(c, i, Closes(c.sockets[i]));
    UpdateKeepsInvariant(c, i, AsksForGames(c.sockets[i], sendFails));
  }

  lemma TimeoutKeepsInvariant(c: Connection, i: nat)
    requires Invariant(c) && i < |c.sockets|
    ensures Invariant(TimedOut(c, i))
  {
    assert SocketInvariant(c, i);
    var s := c.sockets[i].(connectTimeout := false);
    UpdateKeepsInvariant(c, i, if c.current == Some(i) && s.state == Connecting then Closes(s) else s);
  }

  lemma StepKeepsInvariant(c: Connection, e: Event)
    requires Invariant(c) && Possible(c, e)
    ensures Invariant(Step(c, e))
  {
    match e
    case SocketOpens(i, fails) => OpeningKeepsInvariant(c, i, fails);
    case SocketStartsClosing(i) => SocketEventKeepsInvariant(c, i, false);
    case SocketCloses(i) => ClosingKeepsInvariant(c, i);
    case Heartbeat(i, fails) => SocketEventKeepsInvariant(c, i, fails);
    case ConnectTimeout(i) => TimeoutKeepsInvariant(c, i);
    case TimerFires => TimerKeepsInvariant(c);
    case Foreground(fails) => RecoveryKeepsInvariant(c, fails);
    case VisibilityChange(v, fails) =>
      EnvironmentKeepsInvariant(c, v, c.online);
      RecoveryKeepsInvariant(c.(visible := v), fails);
    case OnlineChange(v, fails) =>
      EnvironmentKeepsInvariant(c, c.visible, v);
      RecoveryKeepsInvariant(c.(online := v), fails);
    case AppClose => AppCloseKeepsInvariant(c);
  }

  // ------------------------------------------------------------- the handlers

  class ConnectionManager {
    var closedByApp: bool
    var visible: bool
    var online: bool
    var lifecycle: bool
    var timer: Option<Timer>
    var current: Option<nat>
    var sockets: seq<Socket>

    ghost function View(): Connection
      reads this
    {
      Connection(closedByApp, visible, online, lifecycle, timer, current, sockets)
    }

    ghost predicate Valid()
      reads this
    {
      Invariant(View())
    }

    constructor (visible: bool, online: bool)
      ensures Valid() && View() == Started(visible, online)
    {
      closedByApp, this.visible, this.online, lifecycle := false, visible, online, true;
      timer, current, sockets := None, None, [];
      new;
      if visible && online {
        ConnectKeepsInvariant(View(), 0, None);
        OpenSocket(0, None);
      }
    }

    method OpenSocket(attempt: nat, afterDelay: Option<nat>)
      modifies this`current, this`sockets
      ensures View() == Connect(old(View()), attempt, afterDelay)
    {
      current := Some(|sockets|);
      sockets := sockets + [Socket(Connecting, attempt, true, true, false, afterDelay)];
    }

    method CloseSocket(i: nat)
      requires i < |sockets|
      modifies this`sockets
      ensures View() == WithSocket(old(View()), i, Closes(old(sockets)[i]))
    {
      if sockets[i].state == Connecting || sockets[i].state == Open {
        sockets := sockets[i := sockets[i].(state := Closing)];
      }
    }

    method SendGetGames(i: nat, sendFails: bool)
      requires i < |sockets|
      modifies this`sockets
      ensures View() == WithSocket(old(View()), i, AsksForGames(old(sockets)[i], sendFails))
    {
      if sockets[i].state != Open {
        return;
      }
      if sendFails {
        CloseSocket(i);
      }
    }

    method HandleOpen(i: nat, sendFails: bool)
      requires Valid() && Possible(View(), SocketOpens(i, sendFails))
      modifies this
      ensures Valid() && View() == Step(old(View()), SocketOpens(i, sendFails))
    {
      StepKeepsInvariant(View(), SocketOpens(i, sendFails));
      sockets := sockets[i := sockets[i].(state := Open)];
      if sockets[i].listening {
        sockets := sockets[i := sockets[i].(connectTimeout := false)];
        SendGetGames(i, sendFails);
        sockets := sockets[i := sockets[i].(heartbeat := true)];
      }
      assert sockets == Step(old(View()), SocketOpens(i, sendFails)).sockets;
    }

    method HandleHeartbeat(i: nat, sendFails: bool)
      requires Valid() && Possible(View(), Heartbeat(i, sendFails))
      modifies this
      ensures Valid() && View() == Step(old(View()), Heartbeat(i, sendFails))
    {
      StepKeepsInvariant(View(), Heartbeat(i, sendFails));
      SendGetGames(i, sendFails);
    }

    method HandleConnectTimeout(i: nat)
      requires Valid() && Possible(View(), ConnectTimeout(i))
      modifies this
      ensures Valid() && View() == Step(old(View()), ConnectTimeout(i))
    {
      StepKeepsInvariant(View(), ConnectTimeout(i));
      sockets := sockets[i := sockets[i].(connectTimeout := false)];
      if current != Some(i) {
        return;
      }
      if sockets[i].state == Connecting {
        CloseSocket(i);
      }
      assert sockets == Step(old(View()), ConnectTimeout(i)).sockets;
    }

    method HandleClose(i: nat)
      requires Valid() && Possible(View(), SocketCloses(i))
      modifies this
      ensures Valid() && View() == Step(old(View()), SocketCloses(i))
    {
      StepKeepsInvariant(View(), SocketCloses(i));
      sockets := sockets[i := sockets[i].(state := Closed)];
      if !sockets[i].listening {
        return;
      }
      sockets := sockets[i := sockets[i].(connectTimeout := false, heartbeat := false)];
      assert sockets
          == old(sockets)[i := old(sockets[i]).(state := Closed, connectTimeout := false, heartbeat := false)];
      if closedByApp {
        return;
      }
      if current != Some(i) {
        return;
      }
      if !(visible && online) {
        return;
      }
      var attempt := sockets[i].attempt;
      var delay := Min(BASE_DELAY_MS * Pow2(attempt), MAX_DELAY_MS);
      timer := Some(Timer(attempt, delay));
    }

    method HandleReconnectTimer()
      requires Valid() && timer != None
      modifies this
      ensures Valid() && View() == Step(old(View()), TimerFires)
    {
      StepKeepsInvariant(View(), TimerFires);
      var fired := timer.value;
      timer := None;
      if closedByApp || !visible || !online {
        return;
      }
      OpenSocket(Min(fired.attempt + 1, MAX_ATTEMPT), Some(fired.delay));
    }

    method RecoverOnForeground(sendFails: bool)
      requires Valid()
      modifies this
      ensures Valid() && View() == Recovered(old(View()), sendFails)
    {
      RecoveryKeepsInvariant(View(), sendFails);
      if closedByApp {
        return;
      }
      if !visible || !online {
        return;
      }
      if current != None && sockets[current.value].state == Open {
        SendGetGames(current.value, sendFails);
        return;
      }
      if current != None && sockets[current.value].state == Connecting {
        return;
      }
      if current != None && sockets[current.value].state == Closing {
        return;
      }
      if timer != None {
        return;
      }
      OpenSocket(0, None);
    }

    method HandleVisibilityChange(nowVisible: bool, sendFails: bool)
      requires Valid()
      modifies this
      ensures Valid() && View() == Step(old(View()), VisibilityChange(nowVisible, sendFails))
    {
      EnvironmentKeepsInvariant(View(), nowVisible, online);
      visible := nowVisible;
      if lifecycle && nowVisible {
        RecoverOnForeground(sendFails);
      }
    }

    method HandleOnlineChange(nowOnline: bool, sendFails: bool)
      requires Valid()
      modifies this
      ensures Valid() && View() == Step(old(View()), OnlineChange(nowOnline, sendFails))
    {
      EnvironmentKeepsInvariant(View(), visible, nowOnline);
      online := nowOnline;
      if lifecycle && nowOnline {
        RecoverOnForeground(sendFails);
      }
    }

    method Close()
      requires Valid()
      modifies this
      ensures Valid() && View() == Step(old(View()), AppClose)
    {
      AppCloseKeepsInvariant(View());
      closedByApp := true;
      timer := None;
      lifecycle := false;
      if sockets != [] {
        var last := |sockets| - 1;
        sockets := sockets[last := sockets[last].(listening := false, connectTimeout := false, heartbeat := false)];
      }
      if current != None {
        CloseSocket(current.value);
      }
      current := None;
      assert sockets == ClosedByApp(old(View())).sockets;
    }
  }

  // -------------------------------------------------------------------- runs

  /** The connection after a run, if every event of the run could happen when it did. */
  function After(visible: bool, online: bool, run: seq<Event>): (r: Option<Connection>)
    ensures r != None ==> Invariant(r.value)
  {
    if run == [] then StartIsSafe(visible, online); Some(Started(visible, online))
    else
      var before, e := After(visible, online, run[..|run| - 1]), run[|run| - 1];
      if before == None || !Possible(before.value, e) then None
      else StepKeepsInvariant(before.value, e); Some(Step(before.value, e))
  }

  lemma StartIsSafe(visible: bool, online: bool)
    ensures Invariant(Started(visible, online))
  {
    var c := Connection(false, visible, online, true, None, None, []);
    if CanAttempt(c) {
      ConnectKeepsInvariant(c, 0, None);
    }
  }

  ghost predicate AtMostOneNotClosed(c: Connection) {
    forall i, j | 0 <= i < j < |c.sockets| :: c.sockets[i].state == Closed || c.sockets[j].state == Closed
  }

  /** In every run at most one socket is not closed, and it is the current one until the
      application closes; a pending reconnect timer means the current socket is closed;
      and its delay lies between one and five seconds. */
  lemma OneSocketAtATime(visible: bool, online: bool, run: seq<Event>)
    requires After(visible, online, run) != None
    ensures var c := After(visible, online, run).value;
            && AtMostOneNotClosed(c)
            && (forall i | 0 <= i < |c.sockets| ::
                  c.sockets[i].state != Closed && !c.closedByApp ==> c.current == Some(i))
            && (c.timer != None ==>
                  && c.current != None && c.sockets[c.current.value].state == Closed
                  && BASE_DELAY_MS <= c.timer.value.delay <= MAX_DELAY_MS)
  {
    OneSocketAtMost(After(visible, online, run).value);
  }

  lemma OneSocketAtMost(c: Connection)
    requires Invariant(c)
    ensures AtMostOneNotClosed(c)
    ensures forall i | 0 <= i < |c.sockets| ::
              c.sockets[i].state != Closed && !c.closedByApp ==> c.current == Some(i)
    ensures c.timer != None ==>
              && c.current != None && c.sockets[c.current.value].state == Closed
              && BASE_DELAY_MS <= c.timer.value.delay <= MAX_DELAY_MS
  {
    if c.timer != None {
      assert SocketInvariant(c, c.current.value);
      DelaysGrow(c.sockets[c.current.value].attempt);
    }
  }

  ghost predicate IsIdle(c: Connection)
    requires Invariant(c)
  {
    c.timer == None && (c.current == None || c.sockets[c.current.value].state == Closed)
  }

  /** A page that may connect is never left without a timer or a socket. */
  lemma StepNeverLeavesIdle(c: Connection, e: Event)
    requires Invariant(c) && Possible(c, e)
    requires (c.closedByApp || c.lifecycle) && (CanAttempt(c) ==> !IsIdle(c))
    ensures var d := Step(c, e);
            Invariant(d) && (d.closedByApp || d.lifecycle) && (CanAttempt(d) ==> !IsIdle(d))
  {
    StepKeepsInvariant(c, e);
    if e.SocketCloses? && CanAttempt(c) {
      LossSchedulesReconnect(c, e.i);
    }
  }

  /** In every reachable state that may connect, whatever led to it, a reconnect timer runs
      or there is a socket that is not closed. */
  lemma {:induction false} NeverIdle(visible: bool, online: bool, run: seq<Event>)
    requires After(visible, online, run) != None
    ensures var c := After(visible, online, run).value;
            (c.closedByApp || c.lifecycle) && (CanAttempt(c) ==> !IsIdle(c))
  {
    if run == [] {
    } else {
      var front := run[..|run| - 1];
      NeverIdle(visible, online, front);
      StepNeverLeavesIdle(After(visible, online, front).value, run[|run| - 1]);
    }
  }

  /** Once the application has closed the connection, every socket is closed or closing, and
      nothing that follows opens a socket or sets a timer. */
  lemma {:induction false} ClosedForGood(visible: bool, online: bool, run: seq<Event>, k: nat)
    requires k <= |run| && After(visible, online, run) != None
    ensures After(visible, online, run[..k]) != None
    ensures var c, d := After(visible, online, run[..k]).value, After(visible, online, run).value;
            c.closedByApp ==>
              && d.closedByApp && d.timer == None && |d.sockets| == |c.sockets|
              && forall s <- d.sockets :: s.state == Closing || s.state == Closed
  {
    if k == |run| {
      assert run[..k] == run;
    } else {
      var front := run[..|run| - 1];
      ClosedForGood(visible, online, front, k);
      assert front[..k] == run[..k];
      var c := After(visible, online, front).value;
      if c.closedByApp {
        NothingOpensAfterClose(c, run[|run| - 1]);
      }
    }
  }

  /** Nothing is opened once the application has closed the connection, and no timer runs
      that could open anything. */
  lemma NothingOpensAfterClose(c: Connection, e: Event)
    requires Invariant(c) && Possible(c, e) && c.closedByApp
    ensures var d := Step(c, e); d.closedByApp && d.timer == None && |d.sockets| == |c.sockets|
  {
  }

  /** Once everything a foreground event may do is done, the page either has a socket that
      is not closed or a timer that will open one. */
  lemma ForegroundNeverLeavesIdle(c: Connection, e: Event)
    requires Invariant(c) && c.lifecycle
    requires e.Foreground? || (e.VisibilityChange? && e.nowVisible) || (e.OnlineChange? && e.nowOnline)
    ensures var d := Step(c, e);
            CanAttempt(d) ==>
              || d.timer != None
              || (d.current != None && d.sockets[d.current.value].state != Closed)
  {
  }

  /** A socket that closes while the page may connect is followed by a reconnect timer. */
  lemma LossSchedulesReconnect(c: Connection, i: nat)
    requires Invariant(c) && i < |c.sockets| && c.sockets[i].state != Closed && CanAttempt(c)
    ensures HasClosed(c, i).timer == Some(Timer(c.sockets[i].attempt, Delay(c.sockets[i].attempt)))
  {
    assert SocketInvariant(c, i);
  }

  /** Along a chain of timer reconnects delays never shrink: when a timer of delay d opens
      a socket, the timer that socket's own closing sets waits at least d. */
  lemma DelaysNeverShrinkAlongAChain(visible: bool, online: bool, run: seq<Event>, i: nat)
    requires After(visible, online, run) != None
    requires i < |After(visible, online, run).value.sockets|
    ensures var c := After(visible, online, run).value;
            var s := c.sockets[i];
            s.afterDelay != None ==>
              && BASE_DELAY_MS <= s.afterDelay.value <= MAX_DELAY_MS
              && (c.current == Some(i) && c.timer != None ==> s.afterDelay.value <= c.timer.value.delay)
              && i > 0 && s.afterDelay.value == Delay(c.sockets[i - 1].attempt)
  {
    var c := After(visible, online, run).value;
    assert SocketInvariant(c, i);
    if c.sockets[i].afterDelay != None {
      assert SocketInvariant(c, i - 1);
      DelaysGrow(c.sockets[i - 1].attempt);
    }
  }

  /** What a timer waits after a socket that was made by a timer of this delay, or by none. */
  function NextDelay(afterDelay: Option<nat>): nat {
    if afterDelay == None then 1000 else Min(2 * afterDelay.value, 5000)
  }

  /** Each chain of timer reconnects starts with one second, and every delay is twice the one
      before it, up to five seconds. */
  lemma DelaysDoubleAlongAChain(visible: bool, online: bool, run: seq<Event>, i: nat)
    requires After(visible, online, run) != None
    requires i < |After(visible, online, run).value.sockets|
    ensures var c := After(visible, online, run).value;
            && (i > 0 && c.sockets[i].afterDelay != None ==>
                  c.sockets[i].afterDelay == Some(NextDelay(c.sockets[i - 1].afterDelay)))
            && (c.timer != None && c.current == Some(i) ==>
                  c.timer.value.delay == NextDelay(c.sockets[i].afterDelay))
  {
    DelaysDouble(After(visible, online, run).value, i);
  }

  lemma DelaysDouble(c: Connection, i: nat)
    requires Invariant(c) && i < |c.sockets|
    ensures i > 0 && c.sockets[i].afterDelay != None ==>
              c.sockets[i].afterDelay == Some(NextDelay(c.sockets[i - 1].afterDelay))
    ensures c.timer != None && c.current == Some(i) ==> c.timer.value.delay == NextDelay(c.sockets[i].afterDelay)
  {
    assert SocketInvariant(c, i);
    DelayOfSocket(c, i);
    if i > 0 {
      DelayOfSocket(c, i - 1);
    }
  }

  lemma DelayOfSocket(c: Connection, i: nat)
    requires Invariant(c) && i < |c.sockets|
    ensures Delay(c.sockets[i].attempt) == NextDelay(c.sockets[i].afterDelay)
  {
    assert SocketInvariant(c, i);
    if c.sockets[i].afterDelay != None {
      assert SocketInvariant(c, i - 1);
      DelayDoubles(c.sockets[i - 1].attempt);
    }
  }

  lemma DelayDoubles(attempt: nat)
    requires attempt <= MAX_ATTEMPT
    ensures Delay(Min(attempt + 1, MAX_ATTEMPT)) == Min(2 * Delay(attempt), 5000)
  {
    assert Pow2(attempt + 1) == 2 * Pow2(attempt);
    assert Pow2(3) == 8;
    if attempt >= 3 {
      assert Pow2(4) == 16 && Pow2(5) == 32;
    }
  }

  /** In every run: while a socket is listened to, its connect timeout runs exactly until it
      opens or closes, and its heartbeat while it is open. */
  lemma SocketsAreWatched(visible: bool, online: bool, run: seq<Event>, i: nat)
    requires After(visible, online, run) != None
    requires i < |After(visible, online, run).value.sockets|
    ensures var s := After(visible, online, run).value.sockets[i];
            && (s.listening ==> IsWatched(s))
            && (s.state == Closed || !s.listening ==> !s.connectTimeout && !s.heartbeat)
  {
    assert SocketInvariant(After(visible, online, run).value, i);
  }

  // ------------------------------------------------- when sockets open and close

  /** Does the event bring the page to the foreground or online? */
  predicate Returns(c: Connection, e: Event) {
    c.lifecycle && (e.Foreground? || (e.VisibilityChange? && e.nowVisible) || (e.OnlineChange? && e.nowOnline))
  }

  /** A socket is opened exactly when the reconnect timer fires or the page comes back and finds
      neither a timer nor a socket that is not closed, and then only if it may connect. */
  lemma OpensExactlyWhen(c: Connection, e: Event)
    requires Invariant(c) && Possible(c, e)
    ensures var d := Step(c, e);
            var opens := CanAttempt(d) && (e.TimerFires? || (Returns(c, e) && IsIdle(c)));
            |d.sockets| == |c.sockets| + if opens then 1 else 0
  {
    if Returns(c, e) {
      RecoveryOpensExactlyWhen(c.(visible := Step(c, e).visible, online := Step(c, e).online), SendFails(e));
    }
  }

  function SendFails(e: Event): bool {
    match e
    case Foreground(fails) => fails
    case VisibilityChange(_, fails) => fails
    case OnlineChange(_, fails) => fails
    case _ => false
  }

  lemma RecoveryOpensExactlyWhen(c: Connection, sendFails: bool)
    requires c.current != None ==> c.current.value < |c.sockets|
    ensures
      var idle := c.timer == None && (c.current == None || c.sockets[c.current.value].state == Closed);
      |Recovered(c, sendFails).sockets| == |c.sockets| + if CanAttempt(c) && idle then 1 else 0
  {
  }

  /** A timer runs afterwards exactly when a socket has just closed while the page may connect,
      or one ran before and has neither fired nor been cleared by the application's closing. */
  lemma WaitsExactlyWhen(c: Connection, e: Event)
    requires Invariant(c) && Possible(c, e)
    ensures Step(c, e).timer != None <==>
              || (e.SocketCloses? && CanAttempt(c))
              || (c.timer != None && !e.TimerFires? && !e.AppClose?)
  {
    if e.SocketCloses? {
      assert SocketInvariant(c, e.i);
    }
  }

  /** Does the event make a socket that is connecting or open start to close? Its connect
      timeout does, the application's closing, and a request for the games list that fails. */
  predicate StartsToClose(c: Connection, e: Event, i: nat)
    requires i < |c.sockets|
  {
    match e
    case SocketStartsClosing(k) => k == i
    case SocketOpens(k, fails) => k == i && fails
    case Heartbeat(k, fails) => k == i && fails && c.sockets[i].state == Open
    case ConnectTimeout(k) => k == i
    case AppClose => true
    case SocketCloses(_) => false
    case TimerFires => false
    case Foreground(fails) => AsksInVain(c, c, e, i, fails)
    case VisibilityChange(v, fails) => AsksInVain(c, c.(visible := v), e, i, fails)
    case OnlineChange(v, fails) => AsksInVain(c, c.(online := v), e, i, fails)
  }

  predicate AsksInVain(c: Connection, d: Connection, e: Event, i: nat, fails: bool)
    requires i < |c.sockets|
  {
    Returns(c, e) && CanAttempt(d) && c.sockets[i].state == Open && fails
  }

  lemma ClosesExactlyWhen(c: Connection, e: Event, i: nat)
    requires Invariant(c) && Possible(c, e) && i < |c.sockets|
    requires c.sockets[i].state == Connecting || c.sockets[i].state == Open
    ensures Step(c, e).sockets[i].state == Closing <==> StartsToClose(c, e, i)
  {
    assert SocketInvariant(c, i);
  }
}
