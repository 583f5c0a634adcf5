/** Who is at the signaling server, bound to whom and listed with which game, told from what
    happened alone. */
module ServerHistory {
  import opened Wrappers
  import opened Protocol
  import Arithmetic
  import Pairing
  import Registry
  import SignalServer

  type Server = SignalServer.Server
  type Event = SignalServer.Event

  /** Is the worker connected? */
  predicate IsUp(run: seq<Event>, worker: Id) {
    run != [] &&
    var before := IsUp(run[..|run| - 1], worker);
    match run[|run| - 1]
    case WorkerConnects(id) => id == worker || before
    case WorkerLeaves(id) => id != worker && before
    case _ => before
  }

  /** The worker that a browser is bound to: the connected one it last named with an initwebrtc
      or a joinRoom, if it has not terminated that session and neither has left since. */
  function BoundTo(run: seq<Event>, client: Id): Option<Id> {
    if run == [] then None
    else
      var front := run[..|run| - 1];
      var before := BoundTo(front, client);
      match run[|run| - 1]
      case BrowserSends(id, m, _, _) =>
        if id != client then before
        else
          (match (m.kind, Trimmed(m.sessionId))
           case (InitWebrtc, Some(worker)) => if IsUp(front, worker) then Some(worker) else before
           case (JoinRoom, Some(worker)) => if IsUp(front, worker) then Some(worker) else before
           case (TerminateSession, target) => if target == None || target == before then None else before
           case _ => before)
      case BrowserLeaves(id, _) => if id == client then None else before
      case WorkerLeaves(id) => if before == Some(id) then None else before
      case _ => before
  }

  /** Can the browser be sent to? The worker it is bound to takes it along when it leaves. */
  predicate IsHere(run: seq<Event>, client: Id) {
    run != [] &&
    var front := run[..|run| - 1];
    match run[|run| - 1]
    case BrowserConnects(id) => id == client || IsHere(front, client)
    case BrowserLeaves(id, _) => id != client && IsHere(front, client)
    case WorkerLeaves(id) => BoundTo(front, client) != Some(id) && IsHere(front, client)
    case _ => IsHere(front, client)
  }

  /** Does the message name a game? */
  predicate NamesGame(m: Message) {
    m.kind == GameInfo && m.data != None && Registry.NormalizeGameName(m.data.value) != ""
  }

  /** The game the worker named last since it connected. */
  function Game(run: seq<Event>, worker: Id): Option<string> {
    if run == [] then None
    else
      var before := Game(run[..|run| - 1], worker);
      match run[|run| - 1]
      case WorkerSends(id, m) => if id == worker && NamesGame(m) then m.data else before
      case WorkerLeaves(id) => if id == worker then None else before
      case _ => before
  }

  /** How many workers have connected, as far as the counter goes. */
  function Connected(run: seq<Event>): nat {
    if run == [] then 0
    else
      var before := Connected(run[..|run| - 1]);
      if !run[|run| - 1].WorkerConnects? then before
      else if before < Arithmetic.U64_MAX then before + 1
      else Arithmetic.U64_MAX
  }

  /** A worker's place in line. */
  function Place(run: seq<Event>, worker: Id): Option<nat> {
    if run == [] then None
    else
      var front := run[..|run| - 1];
      match run[|run| - 1]
      case WorkerConnects(id) => if id == worker then Some(Connected(front)) else Place(front, worker)
      case WorkerLeaves(id) => if id == worker then None else Place(front, worker)
      case _ => Place(front, worker)
  }

  // -------------------------------------------------- the tables follow history

  function In<T>(table: map<Id, T>, id: Id): Option<T> {
    if id in table then Some(table[id]) else None
  }

  ghost predicate FollowsAt(t: Registry.Tables, run: seq<Event>, id: Id) {
    && (id in t.workers <==> IsUp(run, id))
    && In(t.clientToWorker, id) == BoundTo(run, id)
    && (id in t.clients <==> IsHere(run, id))
    && In(t.gameRooms, id) == Game(run, id)
    && In(t.workerOrder, id) == Place(run, id)
    && t.nextWorkerOrder == Connected(run)
  }

  /** The tables are what history makes them. */
  ghost predicate Follows(t: Registry.Tables, run: seq<Event>) {
    forall id :: FollowsAt(t, run, id)
  }

  lemma {:induction false} TablesFollowHistory(dedupe: bool, run: seq<Event>)
    ensures Follows(SignalServer.After(dedupe, run).tables, run)
  {
    if run == [] {
    } else {
      var front, e := run[..|run| - 1], run[|run| - 1];
      var s := SignalServer.After(dedupe, front);
      TablesFollowHistory(dedupe, front);
      forall id ensures FollowsAt(SignalServer.Step(s, dedupe, e).tables, run, id) {
        assert FollowsAt(s.tables, front, id);
        StepFollows(s, dedupe, front, run, id);
      }
    }
  }

  lemma StepFollows(s: Server, dedupe: bool, front: seq<Event>, run: seq<Event>, id: Id)
    requires OneMore(front, run) && Follows(s.tables, front)
    ensures FollowsAt(SignalServer.Step(s, dedupe, run[|run| - 1]).tables, run, id)
  {
    var e := run[|run| - 1];
    assert FollowsAt(s.tables, front, id);
    match e
    case BrowserSends(client, m, now, code) => MessagesFollow(s, dedupe, front, run, id);
    case BrowserLeaves(client, cleanup) =>
      LeavingTables(s, client, cleanup);
      BrowserLeavingFollows(s.tables, front, run, id);
    case WorkerSends(worker, m) => WorkersFollow(s, dedupe, front, run, id);
    case WorkerLeaves(worker) => WorkerLeavingFollows(s.tables, front, run, id);
    case _ => ConnectingFollows(s, dedupe, front, run, id);
  }

  lemma LeavingTables(s: Server, client: Id, r: Pairing.Cleanup)
    ensures SignalServer.BrowserCleaned(s, client, r).tables == Registry.ClientUnregistered(s.tables, client)
  {
    var t := SignalServer.BrowserGone(s, client, r.notifyHost);
    var left := SignalServer.ToClient(ControllerLeft, Some(client), None);
    SignalServer.NotifyingTouchesClientsOnly(t, r.notifyControllers, left);
    var u := SignalServer.NotifyAll(t, r.notifyControllers, left);
    SignalServer.TerminatingTouchesWorkersOnly(u, r.workerTerminations);
  }

  ghost predicate OneMore(front: seq<Event>, run: seq<Event>) {
    run != [] && front == run[..|run| - 1]
  }

  lemma ConnectingFollows(s: Server, dedupe: bool, front: seq<Event>, run: seq<Event>, id: Id)
    requires OneMore(front, run) && (run[|run| - 1].BrowserConnects? || run[|run| - 1].WorkerConnects?)
    requires FollowsAt(s.tables, front, id)
    ensures FollowsAt(SignalServer.Step(s, dedupe, run[|run| - 1]).tables, run, id)
  {
  }

  lemma BrowserLeavingFollows(t: Registry.Tables, front: seq<Event>, run: seq<Event>, id: Id)
    requires OneMore(front, run) && run[|run| - 1].BrowserLeaves? && FollowsAt(t, front, id)
    ensures FollowsAt(Registry.ClientUnregistered(t, run[|run| - 1].id), run, id)
  {
  }

  lemma WorkerLeavingFollows(t: Registry.Tables, front: seq<Event>, run: seq<Event>, id: Id)
    requires OneMore(front, run) && run[|run| - 1].WorkerLeaves? && FollowsAt(t, front, id)
    ensures FollowsAt(Registry.WorkerUnregistered(t, run[|run| - 1].id), run, id)
  {
    assert id in Registry.ClientsOf(t, run[|run| - 1].id) <==> BoundTo(front, id) == Some(run[|run| - 1].id);
  }

  lemma WorkersFollow(s: Server, dedupe: bool, front: seq<Event>, run: seq<Event>, id: Id)
    requires OneMore(front, run) && run[|run| - 1].WorkerSends? && FollowsAt(s.tables, front, id)
    ensures FollowsAt(SignalServer.Step(s, dedupe, run[|run| - 1]).tables, run, id)
  {
    var e := run[|run| - 1];
    WorkersName(s, dedupe, e.id, e.m);
  }

  lemma WorkersName(s: Server, dedupe: bool, worker: Id, m: Message)
    ensures
      var t, u := s.tables, SignalServer.WorkerHandled(s, dedupe, worker, m).tables;
      u == t.(playerCounts := u.playerCounts,
              gameRooms := if NamesGame(m) then t.gameRooms[worker := m.data.value] else t.gameRooms)
  {
  }

  /** What a browser's message does to the bindings. */
  function Rebound(t: Registry.Tables, client: Id, m: Message): map<Id, Id> {
    var bindings := t.clientToWorker;
    match (m.kind, Trimmed(m.sessionId))
    case (InitWebrtc, Some(worker)) => if worker in t.workers then bindings[client := worker] else bindings
    case (JoinRoom, Some(worker)) => if worker in t.workers then bindings[client := worker] else bindings
    case (TerminateSession, target) =>
      if target == None || target == In(bindings, client) then bindings - {client} else bindings
    case _ => bindings
  }

  lemma MessagesRebind(s: Server, dedupe: bool, client: Id, m: Message, now: nat, code: string)
    ensures SignalServer.BrowserHandled(s, dedupe, client, m, now, code).tables
            == s.tables.(clientToWorker := Rebound(s.tables, client, m))
  {
    ForwardsAsSent(m);
    var kept := s.tables.(clientToWorker := s.tables.clientToWorker);
    assert kept == s.tables;
    match ParseBrowserCommand(m)
    case None =>
    case Some(ForwardToWorker(worker, event, data, binds)) =>
      ForwardingRebinds(s, client, worker, event, data, binds);
    case Some(Terminate(target)) => TerminatingRebinds(s, client, target);
    case Some(command) => OthersKeepTables(s, dedupe, client, command, now, code);
  }

  lemma ForwardingRebinds(s: Server, client: Id, worker: Id, event: Kind, data: Option<string>, binds: bool)
    ensures SignalServer.Forwarded(s, client, worker, event, data, binds).tables
            == if binds && worker in s.tables.workers then Registry.Bound(s.tables, client, worker) else s.tables
  {
  }

  lemma TerminatingRebinds(s: Server, client: Id, target: Option<Id>)
    ensures
      var bindings := s.tables.clientToWorker;
      SignalServer.SessionTerminated(s, client, target).tables
      == s.tables.(clientToWorker := if target == None || target == In(bindings, client) then bindings - {client}
                                     else bindings)
  {
    if client !in s.tables.clientToWorker {
      assert s.tables.clientToWorker - {client} == s.tables.clientToWorker;
    }
  }

  lemma OthersKeepTables(s: Server, dedupe: bool, client: Id, command: BrowserCommand, now: nat, code: string)
    requires !command.ForwardToWorker? && !command.Terminate?
    ensures SignalServer.CommandHandled(s, dedupe, client, command, now, code).tables == s.tables
  {
    match command
    case JoinHost(text) => assert SignalServer.HostJoined(s, client, text, now).tables == s.tables;
    case _ =>
  }

  lemma MessagesFollow(s: Server, dedupe: bool, front: seq<Event>, run: seq<Event>, id: Id)
    requires OneMore(front, run) && run[|run| - 1].BrowserSends? && Follows(s.tables, front)
    ensures FollowsAt(SignalServer.Step(s, dedupe, run[|run| - 1]).tables, run, id)
  {
    var e := run[|run| - 1];
    MessagesRebind(s, dedupe, e.id, e.m, e.now, e.code);
    assert FollowsAt(s.tables, front, id);
    if Trimmed(e.m.sessionId) != None {
      assert FollowsAt(s.tables, front, Trimmed(e.m.sessionId).value);
    }
  }

  // ---------------------------------------------------------------- the room list

  /** Is v's place in line before w's, the smaller id first at the same place? */
  predicate IsAhead(run: seq<Event>, v: Id, w: Id) {
    Place(run, v) != None && Place(run, w) != None &&
    var p, q := Place(run, v).value, Place(run, w).value;
    p < q || (p == q && Registry.StringLess(v, w))
  }

  predicate SameGame(run: seq<Event>, v: Id, w: Id) {
    && Game(run, v) != None && Game(run, w) != None
    && Registry.NormalizeGameName(Game(run, v).value) == Registry.NormalizeGameName(Game(run, w).value)
  }

  /** In every run, a worker is in the room list exactly when it has named a game and, if there
      is to be one room for each game, no other worker with that game is ahead of it. */
  lemma ListedExactlyWhen(dedupe: bool, run: seq<Event>, w: Id)
    requires SignalServer.IsRun(dedupe, run)
    ensures
      var rooms := SignalServer.Rooms(SignalServer.After(dedupe, run).tables, dedupe);
      && (w in rooms <==> Game(run, w) != None
                          && (dedupe ==> forall v :: v != w && SameGame(run, v, w) ==> IsAhead(run, w, v)))
      && (w in rooms ==> Game(run, w) == Some(rooms[w]))
  {
    var t := SignalServer.After(dedupe, run).tables;
    TablesFollowHistory(dedupe, run);
    SignalServer.RunsKeepInvariant(dedupe, run);
    assert FollowsAt(t, run, w);
    if dedupe && w in t.gameRooms {
      FirstIsAhead(t, run, w);
    }
  }

  lemma FirstIsAhead(t: Registry.Tables, run: seq<Event>, w: Id)
    requires Follows(t, run) && Registry.Consistent(t) && w in t.gameRooms
    ensures w in Registry.Deduped(t) <==> forall v :: v != w && SameGame(run, v, w) ==> IsAhead(run, w, v)
  {
    var rooms := Registry.RoomsOf(t);
    forall v | v in t.gameRooms
      ensures SameGame(run, v, w) <==> rooms[v].name == rooms[w].name
      ensures IsAhead(run, w, v) <==> Registry.Before(rooms, w, v)
    {
      assert FollowsAt(t, run, v) && FollowsAt(t, run, w);
    }
    forall v | SameGame(run, v, w) ensures v in t.gameRooms {
      assert FollowsAt(t, run, v);
    }
  }
}
