/** The signaling server: browsers and workers connect, send and disconnect, and each has
    a first-in first-out outbox. Every handler is one atomic step. */
module SignalServer {
  import opened Wrappers
  import opened Protocol
  import Decimal
  import JoinCodes
  import Pairing
  import Registry

  /** What is put in an outbox: a message, a room list, or the order to close. */
  datatype Outbound =
    | Signal(m: Message)
    | RoomList(rooms: map<Id, string>)
    | Close

  type Outboxes = map<Id, seq<Outbound>>

  function Outbox(out: Outboxes, id: Id): seq<Outbound> {
    if id in out then out[id] else []
  }

  function Pushed(out: Outboxes, id: Id, o: Outbound): Outboxes {
    out[id := Outbox(out, id) + [o]]
  }

  function PushedToAll(out: Outboxes, ids: set<Id>, o: Outbound): Outboxes {
    map id | id in out.Keys + ids :: if id in ids then Outbox(out, id) + [o] else Outbox(out, id)
  }

  datatype Server = Server(
    tables: Registry.Tables,
    pairing: Pairing.Maps,
    toClients: Outboxes,
    toWorkers: Outboxes)

  // ----------------------------------------------------------------- sending

  function SendToWorker(s: Server, worker: Id, m: Message): Server {
    if worker in s.tables.workers then s.(toWorkers := Pushed(s.toWorkers, worker, Signal(m))) else s
  }

  function SendToClient(s: Server, client: Id, o: Outbound): Server {
    if client in s.tables.clients then s.(toClients := Pushed(s.toClients, client, o)) else s
  }

  function Broadcast(s: Server, o: Outbound): Server {
    s.(toClients := PushedToAll(s.toClients, s.tables.clients, o))
  }

  ghost function Rooms(t: Registry.Tables, dedupe: bool): map<Id, string> {
    if dedupe then Registry.Deduped(t) else t.gameRooms
  }

  function ToWorker(kind: Kind, client: Id, data: Option<string>): Message {
    Message(kind, data, Some(client))
  }

  function ToClient(kind: Kind, about: Option<Id>, data: Option<string>): Outbound {
    Signal(Message(kind, data, about))
  }

  // ------------------------------------------------- what each handler does

  /** A browser's signal for a worker: binding commands bind, the others need the binding. */
  function Forwarded(s: Server, client: Id, worker: Id, event: Kind, data: Option<string>, binds: bool): Server {
    var m := ToWorker(event, client, data);
    if binds then
      if worker !in s.tables.workers then s
      else SendToWorker(s.(tables := Registry.Bound(s.tables, client, worker)), worker, m)
    else if Registry.IsBound(s.tables, client, worker) then SendToWorker(s, worker, m)
    else s
  }

  function SessionTerminated(s: Server, client: Id, target: Option<Id>): Server {
    if client in s.tables.clientToWorker && (target == None || target == Some(s.tables.clientToWorker[client])) then
      var worker := s.tables.clientToWorker[client];
      var t := SendToWorker(s, worker, ToWorker(TerminateSession, client, None));
      t.(tables := t.tables.(clientToWorker := t.tables.clientToWorker - {client}))
    else s
  }

  /** `code` is the join code granted, if one is. */
  function HostRegistered(s: Server, client: Id, worker: Id, now: nat, code: string): Server {
    if !Registry.IsBound(s.tables, client, worker) then s
    else
      var t := s.(pairing := Pairing.Registered(Pairing.Pruned(s.pairing, now), client, worker, code, now));
      SendToClient(t, client, ToClient(ControllerReady, None, Some(code)))
  }

  function HostJoined(s: Server, client: Id, text: string, now: nat): Server {
    var pruned := Pairing.Pruned(s.pairing, now);
    match Pairing.JoinAnswer(s.pairing, text, now)
    case Err(MissingCode) => SendToClient(s, client, ToClient(ControllerRejected, None, Some("missing-code")))
    case Err(InvalidCode) =>
      SendToClient(s.(pairing := pruned), client, ToClient(ControllerRejected, None, Some("invalid-code")))
    case Ok(target) =>
      PairingTold(s.(pairing := Pairing.Joined(pruned, client, Pairing.Normalize(text))), client,
                  target.host, target.worker)
  }

  /** Controller and host are told of each other, and the worker of the controller. */
  function PairingTold(s: Server, client: Id, host: Id, worker: Id): Server {
    var t := SendToClient(s, client, ToClient(ControllerJoined, Some(host), None));
    var u := SendToClient(t, host, ToClient(ControllerJoined, Some(client), None));
    SendToWorker(u, worker, ToWorker(JoinRoom, client, None))
  }

  function InputSent(s: Server, client: Id, host: Id, input: string): Server {
    var routes := s.pairing.controllerToHost;
    if client in routes && routes[client].host == host
    then SendToWorker(s, routes[client].worker, ToWorker(Input, client, Some(input)))
    else s
  }

  function AudioSent(s: Server, client: Id, host: Id, action: string): Server {
    var routes := s.pairing.controllerToHost;
    if client in routes && routes[client].host == host
    then SendToClient(s, host, ToClient(ControllerAudio, Some(client), Some(action)))
    else s
  }

  ghost function CommandHandled(s: Server, dedupe: bool, client: Id, command: BrowserCommand, now: nat,
                                code: string): Server {
    match command
    case RequestGames => SendToClient(s, client, RoomList(Rooms(s.tables, dedupe)))
    case ForwardToWorker(worker, event, data, binds) => Forwarded(s, client, worker, event, data, binds)
    case Terminate(target) => SessionTerminated(s, client, target)
    case HostControllers(worker) => HostRegistered(s, client, worker, now, code)
    case JoinHost(text) => HostJoined(s, client, text, now)
    case SendInput(host, input) => InputSent(s, client, host, input)
    case SendAudio(host, action) => AudioSent(s, client, host, action)
  }

  ghost function BrowserHandled(s: Server, dedupe: bool, client: Id, m: Message, now: nat, code: string): Server {
    match ParseBrowserCommand(m)
    case None => s
    case Some(command) => CommandHandled(s, dedupe, client, command, now, code)
  }

  /** May the step grant this code? */
  ghost predicate MayGrant(s: Server, client: Id, m: Message, now: nat, code: string) {
    match ParseBrowserCommand(m)
    case Some(HostControllers(worker)) =>
      Registry.IsBound(s.tables, client, worker) ==> Pairing.MayGrant(Pairing.Pruned(s.pairing, now), client, code)
    case _ => true
  }

  /** A message that asks for a fresh code can be answered while one is left. */
  ghost predicate CanAnswer(s: Server, client: Id, m: Message, now: nat) {
    match ParseBrowserCommand(m)
    case Some(HostControllers(worker)) =>
      Registry.IsBound(s.tables, client, worker) ==> Pairing.CodeIsLeft(Pairing.Pruned(s.pairing, now), client)
    case _ => true
  }

  ghost function WorkerHandled(s: Server, dedupe: bool, worker: Id, m: Message): Server {
    match ParseWorkerCommand(m)
    case None => s
    case Some(command) =>
      match command
      case SetGame(game) =>
        if game == None || Registry.NormalizeGameName(game.value) == "" then s
        else
          var t := s.tables.(gameRooms := s.tables.gameRooms[worker := game.value]);
          Broadcast(s.(tables := t), RoomList(Rooms(t, dedupe)))
      case ForwardToClient(client, event, data) => SendToClient(s, client, ToClient(event, Some(client), data))
      case SetPlayerCount(count) =>
        var t := s.tables.(playerCounts := s.tables.playerCounts[worker := count]);
        Broadcast(s.(tables := t), ToClient(UpdatePlayerCount, Some(worker), Some(Decimal.Print(count))))
  }

  function NotifyAll(s: Server, clients: seq<Id>, o: Outbound): Server {
    if clients == [] then s else SendToClient(NotifyAll(s, clients[..|clients| - 1], o), clients[|clients| - 1], o)
  }

  function TerminateAll(s: Server, terminations: seq<(Id, Id)>): Server {
    if terminations == [] then s
    else
      var (worker, client) := terminations[|terminations| - 1];
      var t := TerminateAll(s, terminations[..|terminations| - 1]);
      SendToWorker(t, worker, ToWorker(TerminateSession, client, None))
  }

  /** A browser is gone: its own worker and its host are told. */
  function BrowserGone(s: Server, client: Id, notifyHost: Option<Id>): Server {
    var t := s.(pairing := Pairing.Cleaned(s.pairing, client), tables := Registry.ClientUnregistered(s.tables, client));
    var u := if client in s.tables.clientToWorker
             then SendToWorker(t, s.tables.clientToWorker[client], ToWorker(TerminateSession, client, None)) else t;
    if notifyHost == None then u else SendToClient(u, notifyHost.value, ToClient(ControllerLeft, Some(client), None))
  }

  /** Then its controllers, and the workers of every route removed; `r` lists them in the
      order they were found. */
  function BrowserCleaned(s: Server, client: Id, r: Pairing.Cleanup): Server {
    var t := NotifyAll(BrowserGone(s, client, r.notifyHost), r.notifyControllers,
                       ToClient(ControllerLeft, Some(client), None));
    TerminateAll(t, r.workerTerminations)
  }

  ghost function WorkerCleaned(s: Server, dedupe: bool, worker: Id): Server {
    var t := Registry.WorkerUnregistered(s.tables, worker);
    var closed := s.tables.clients * Registry.ClientsOf(s.tables, worker);
    Broadcast(s.(tables := t, toClients := PushedToAll(s.toClients, closed, Close)), RoomList(Rooms(t, dedupe)))
  }

  // ------------------------------------------------------------- the server

  class AppState {
    const dedupe: bool
    const registry: Registry.Registry
    const controllers: Pairing.Controllers
    var toClients: Outboxes
    var toWorkers: Outboxes

    ghost function View(): Server
      reads this, registry, controllers
    {
      Server(registry.View(), controllers.View(), toClients, toWorkers)
    }

    ghost predicate Valid()
      reads this, registry, controllers
    {
      controllers.Valid()
    }

    constructor (dedupe: bool)
      ensures fresh(registry) && fresh(controllers) && Valid() && this.dedupe == dedupe
      ensures View() == Server(Registry.EMPTY, Pairing.Maps(map[], map[], map[]), map[], map[])
    {
      this.dedupe := dedupe;
      registry := new Registry.Registry();
      controllers := new Pairing.Controllers();
      toClients, toWorkers := map[], map[];
    }

    method SendWorker(worker: Id, m: Message)
      modifies this`toWorkers
      ensures View() == SendToWorker(old(View()), worker, m)
    {
      if worker in registry.workers {
        var before := if worker in toWorkers then toWorkers[worker] else [];
        toWorkers := toWorkers[worker := before + [Signal(m)]];
      }
    }

    method SendClient(client: Id, o: Outbound)
      modifies this`toClients
      ensures View() == SendToClient(old(View()), client, o)
    {
      if client in registry.clients {
        var before := if client in toClients then toClients[client] else [];
        toClients := toClients[client := before + [o]];
      }
    }

    /** Puts o in the outbox of each of the clients, in whatever order. */
    method PushToAll(clients: set<Id>, o: Outbound)
      modifies this`toClients
      ensures toClients == PushedToAll(old(toClients), clients, o)
    {
      ghost var out := toClients;
      var done: set<Id> := {};
      assert toClients == PushedToAll(out, {}, o);
      while clients - done != {}
        invariant done <= clients
        invariant toClients == PushedToAll(out, done, o)
        decreases clients - done
      {
        var c :| c in clients - done;
        done := done + {c};
        var before := if c in toClients then toClients[c] else [];
        toClients := toClients[c := before + [o]];
      }
      assert done == clients;
    }

    method BroadcastGames()
      modifies this`toClients
      ensures View() == Broadcast(old(View()), RoomList(Rooms(registry.View(), dedupe)))
    {
      var rooms := registry.GamesPayload(dedupe);
      PushToAll(registry.clients, RoomList(rooms));
    }

    method ForwardFromBrowser(client: Id, worker: Id, event: Kind, data: Option<string>, binds: bool)
      modifies this`toWorkers, registry
      ensures View() == Forwarded(old(View()), client, worker, event, data, binds)
    {
      if binds {
        if worker !in registry.workers {
          return;
        }
        BindAndSend(client, worker, ToWorker(event, client, data));
      } else {
        if !(client in registry.clientToWorker && registry.clientToWorker[client] == worker) {
          return;
        }
        SendWorker(worker, ToWorker(event, client, data));
      }
    }

    method BindAndSend(client: Id, worker: Id, m: Message)
      modifies this`toWorkers, registry
      ensures var s := old(View());
              View() == SendToWorker(s.(tables := Registry.Bound(s.tables, client, worker)), worker, m)
    {
      registry.BindClientToWorker(client, worker);
      SendWorker(worker, m);
    }

    method TerminateFromBrowser(client: Id, target: Option<Id>)
      modifies this`toWorkers, registry
      ensures View() == SessionTerminated(old(View()), client, target)
    {
      if client !in registry.clientToWorker {
        return;
      }
      var bound := registry.clientToWorker[client];
      if target != None && target != Some(bound) {
        return;
      }
      SendWorker(bound, ToWorker(TerminateSession, client, None));
      registry.UnbindClient(client);
    }

    method HostFromBrowser(client: Id, worker: Id, now: nat, seeds: seq<JoinCodes.U64>) returns (ghost code: string)
      requires Valid() && |seeds| == JoinCodes.MAX_ATTEMPTS + 1
      requires Registry.IsBound(registry.View(), client, worker) ==>
                 Pairing.CodeIsLeft(Pairing.Pruned(controllers.View(), now), client)
      modifies this`toClients, controllers
      ensures Valid() && View() == HostRegistered(old(View()), client, worker, now, code)
      ensures Registry.IsBound(old(View()).tables, client, worker) ==>
                Pairing.MayGrant(Pairing.Pruned(old(View()).pairing, now), client, code)
    {
      code := "";
      if !(client in registry.clientToWorker && registry.clientToWorker[client] == worker) {
        return;
      }
      var granted := controllers.RegisterHost(client, worker, now, seeds);
      SendClient(client, ToClient(ControllerReady, None, Some(granted)));
      code := granted;
    }

    method JoinFromBrowser(client: Id, text: string, now: nat)
      requires Valid()
      modifies this, controllers
      ensures Valid() && View() == HostJoined(old(View()), client, text, now)
    {
      var r := controllers.Join(client, text, now);
      match r {
        case Ok(target) =>
          SendClient(client, ToClient(ControllerJoined, Some(target.host), None));
          SendClient(target.host, ToClient(ControllerJoined, Some(client), None));
          SendWorker(target.worker, ToWorker(JoinRoom, client, None));
        case Err(reason) =>
          var why := if reason.MissingCode? then "missing-code" else "invalid-code";
          SendClient(client, ToClient(ControllerRejected, None, Some(why)));
      }
    }

    /** `code` is the join code granted, if the message asks for one. */
    method HandleBrowserMessage(client: Id, m: Message, now: nat, seeds: seq<JoinCodes.U64>)
      returns (ghost code: string)
      requires Valid() && |seeds| == JoinCodes.MAX_ATTEMPTS + 1 && CanAnswer(View(), client, m, now)
      modifies this, registry, controllers
      ensures Valid() && MayGrant(old(View()), client, m, now, code)
      ensures View() == BrowserHandled(old(View()), dedupe, client, m, now, code)
    {
      code := "";
      var parsed := ParseBrowserCommand(m);
      if parsed == None {
        return;
      }
      match parsed.value {
        case RequestGames =>
          var rooms := registry.GamesPayload(dedupe);
          SendClient(client, RoomList(rooms));
        case ForwardToWorker(worker, event, data, binds) =>
          ForwardFromBrowser(client, worker, event, data, binds);
        case Terminate(target) =>
          TerminateFromBrowser(client, target);
        case HostControllers(worker) =>
          code := HostFromBrowser(client, worker, now, seeds);
        case JoinHost(text) =>
          JoinFromBrowser(client, text, now);
        case SendInput(host, input) =>
          var worker := controllers.WorkerForInput(client, host);
          if worker != None {
            SendWorker(worker.value, ToWorker(Input, client, Some(input)));
          }
        case SendAudio(host, action) =>
          var worker := controllers.WorkerForInput(client, host);
          if worker != None {
            SendClient(host, ToClient(ControllerAudio, Some(client), Some(action)));
          }
      }
    }

    method HandleWorkerMessage(worker: Id, m: Message)
      requires Valid()
      modifies this`toClients, registry
      ensures Valid() && View() == WorkerHandled(old(View()), dedupe, worker, m)
    {
      var parsed := ParseWorkerCommand(m);
      if parsed == None {
        return;
      }
      match parsed.value {
        case SetGame(game) =>
          var updated := registry.SetWorkerGame(worker, game);
          if updated {
            BroadcastGames();
          }
        case ForwardToClient(client, event, data) =>
          SendClient(client, ToClient(event, Some(client), data));
        case SetPlayerCount(count) =>
          registry.SetWorkerPlayerCount(worker, count);
          PushToAll(registry.clients, ToClient(UpdatePlayerCount, Some(worker), Some(Decimal.Print(count))));
      }
    }

    method CleanupBrowser(client: Id) returns (ghost r: Pairing.Cleanup)
      requires Valid()
      modifies this, registry, controllers
      ensures Valid() && Pairing.Reports(old(View()).pairing, client, r)
      ensures View() == BrowserCleaned(old(View()), client, r)
    {
      var cleanup := controllers.CleanupPeer(client);
      r := cleanup;
      var worker := registry.UnregisterClient(client);
      if worker != None {
        SendWorker(worker.value, ToWorker(TerminateSession, client, None));
      }
      var left := ToClient(ControllerLeft, Some(client), None);
      if cleanup.notifyHost != None {
        SendClient(cleanup.notifyHost.value, left);
      }
      NotifyControllers(cleanup.notifyControllers, left);
      TerminateSessions(cleanup.workerTerminations);
    }

    method NotifyControllers(clients: seq<Id>, o: Outbound)
      modifies this`toClients
      ensures View() == NotifyAll(old(View()), clients, o)
    {
      for i := 0 to |clients|
        invariant View() == NotifyAll(old(View()), clients[..i], o)
      {
        assert clients[..i + 1][..i] == clients[..i];
        SendClient(clients[i], o);
      }
      assert clients[..|clients|] == clients;
    }

    method TerminateSessions(terminations: seq<(Id, Id)>)
      modifies this`toWorkers
      ensures View() == TerminateAll(old(View()), terminations)
    {
      for i := 0 to |terminations|
        invariant View() == TerminateAll(old(View()), terminations[..i])
      {
        assert terminations[..i + 1][..i] == terminations[..i];
        SendWorker(terminations[i].0, ToWorker(TerminateSession, terminations[i].1, None));
      }
      assert terminations[..|terminations|] == terminations;
    }

    method CleanupWorker(worker: Id)
      requires Valid()
      modifies this`toClients, registry
      ensures Valid() && View() == WorkerCleaned(old(View()), dedupe, worker)
    {
      var toClose := registry.UnregisterWorker(worker);
      PushToAll(toClose, Close);
      BroadcastGames();
    }
  }

  // -------------------------------------------------------------------- runs

  /** Peer ids are fresh, and a worker's messages are read from the time it is registered
      until it is cleaned up. */
  datatype Event =
    | BrowserConnects(id: Id)
    | WorkerConnects(id: Id)
    | BrowserSends(id: Id, m: Message, now: nat, code: string)
    | WorkerSends(id: Id, m: Message)
    | BrowserLeaves(id: Id, cleanup: Pairing.Cleanup)
    | WorkerLeaves(id: Id)

  ghost predicate Possible(s: Server, e: Event) {
    match e
    case WorkerConnects(id) => id !in s.tables.workers
    case BrowserSends(id, m, now, code) => MayGrant(s, id, m, now, code)
    case WorkerSends(id, _) => id in s.tables.workers
    case BrowserLeaves(id, cleanup) => Pairing.Reports(s.pairing, id, cleanup)
    case _ => true
  }

  ghost function Step(s: Server, dedupe: bool, e: Event): Server {
    match e
    case BrowserConnects(id) => s.(tables := s.tables.(clients := s.tables.clients + {id}))
    case WorkerConnects(id) => s.(tables := Registry.WorkerRegistered(s.tables, id))
    case BrowserSends(id, m, now, code) => BrowserHandled(s, dedupe, id, m, now, code)
    case WorkerSends(id, m) => WorkerHandled(s, dedupe, id, m)
    case BrowserLeaves(id, cleanup) => BrowserCleaned(s, id, cleanup)
    case WorkerLeaves(id) => WorkerCleaned(s, dedupe, id)
  }

  ghost function After(dedupe: bool, run: seq<Event>): Server {
    if run == [] then Server(Registry.EMPTY, Pairing.Maps(map[], map[], map[]), map[], map[])
    else Step(After(dedupe, run[..|run| - 1]), dedupe, run[|run| - 1])
  }

  ghost predicate IsRun(dedupe: bool, run: seq<Event>) {
    run == [] || (IsRun(dedupe, run[..|run| - 1]) && Possible(After(dedupe, run[..|run| - 1]), run[|run| - 1]))
  }

  // ---------------------------------------------------------- introductions

  /** The message that first tells a worker about a client. */
  predicate Introduces(o: Outbound, client: Id) {
    o.Signal? && (o.m.kind == InitWebrtc || o.m.kind == JoinRoom) && o.m.sessionId == Some(client)
  }

  ghost predicate HasIntroduction(out: seq<Outbound>, client: Id) {
    exists k | 0 <= k < |out| :: Introduces(out[k], client)
  }

  predicate IsAnswerOrCandidate(o: Outbound) {
    o.Signal? && (o.m.kind == Answer || o.m.kind == Candidate)
  }

  /** Every answer or candidate names a client, and comes after that client's
      introduction. */
  ghost predicate Introduced(out: seq<Outbound>) {
    forall k | 0 <= k < |out| && IsAnswerOrCandidate(out[k]) ::
      out[k].m.sessionId != None && HasIntroduction(out[..k], out[k].m.sessionId.value)
  }

  ghost predicate AllIntroduced(s: Server) {
    && (forall w :: Introduced(Outbox(s.toWorkers, w)))
    && (forall c <- s.tables.clientToWorker :: HasIntroduction(Outbox(s.toWorkers, s.tables.clientToWorker[c]), c))
  }

  lemma AppendKeepsIntroduction(out: seq<Outbound>, o: Outbound, client: Id)
    requires HasIntroduction(out, client)
    ensures HasIntroduction(out + [o], client)
  {
    var k :| 0 <= k < |out| && Introduces(out[k], client);
    assert Introduces((out + [o])[k], client);
  }

  lemma AppendKeepsIntroduced(out: seq<Outbound>, o: Outbound)
    requires Introduced(out)
    requires IsAnswerOrCandidate(o) ==> o.m.sessionId != None && HasIntroduction(out, o.m.sessionId.value)
    ensures Introduced(out + [o])
  {
    var after := out + [o];
    forall k | 0 <= k < |after| && IsAnswerOrCandidate(after[k])
      ensures after[k].m.sessionId != None && HasIntroduction(after[..k], after[k].m.sessionId.value)
    {
      if k < |out| {
        assert after[k] == out[k] && after[..k] == out[..k];
      } else {
        assert after[..k] == out;
      }
    }
  }

  /** Sending a worker something keeps introductions first, if what is sent needs none or
      has had one. */
  lemma SendingKeepsIntroduced(s: Server, worker: Id, m: Message)
    requires AllIntroduced(s)
    requires IsAnswerOrCandidate(Signal(m)) ==>
               m.sessionId != None && HasIntroduction(Outbox(s.toWorkers, worker), m.sessionId.value)
    ensures AllIntroduced(SendToWorker(s, worker, m))
  {
    var t := SendToWorker(s, worker, m);
    AppendKeepsIntroduced(Outbox(s.toWorkers, worker), Signal(m));
    forall w ensures Introduced(Outbox(t.toWorkers, w)) {
      assert w != worker ==> Outbox(t.toWorkers, w) == Outbox(s.toWorkers, w);
    }
    forall c <- s.tables.clientToWorker
      ensures HasIntroduction(Outbox(t.toWorkers, s.tables.clientToWorker[c]), c)
    {
      if s.tables.clientToWorker[c] == worker {
        AppendKeepsIntroduction(Outbox(s.toWorkers, worker), Signal(m), c);
      }
    }
  }

  /** A binding command introduces the client to the worker it binds it to. */
  lemma BindingKeepsIntroduced(s: Server, client: Id, worker: Id, m: Message)
    requires AllIntroduced(s) && worker in s.tables.workers && Introduces(Signal(m), client)
    ensures AllIntroduced(SendToWorker(s.(tables := Registry.Bound(s.tables, client, worker)), worker, m))
  {
    var unbound := s.(tables := s.tables.(clientToWorker := s.tables.clientToWorker - {client}));
    SendingKeepsIntroduced(unbound, worker, m);
    var t := SendToWorker(s.(tables := Registry.Bound(s.tables, client, worker)), worker, m);
    var out := Outbox(t.toWorkers, worker);
    assert Introduces(out[|out| - 1], client);
    assert t.toWorkers == SendToWorker(unbound, worker, m).toWorkers;
  }

  lemma ForwardingKeepsIntroduced(s: Server, client: Id, worker: Id, event: Kind, data: Option<string>, binds: bool)
    requires AllIntroduced(s) && (binds <==> event == InitWebrtc || event == JoinRoom)
    ensures AllIntroduced(Forwarded(s, client, worker, event, data, binds))
  {
    var m := ToWorker(event, client, data);
    if binds && worker in s.tables.workers {
      BindingKeepsIntroduced(s, client, worker, m);
    } else if !binds && Registry.IsBound(s.tables, client, worker) {
      SendingKeepsIntroduced(s, worker, m);
    }
  }

  lemma {:induction false} TerminatingKeepsIntroduced(s: Server, terminations: seq<(Id, Id)>)
    requires AllIntroduced(s)
    ensures AllIntroduced(TerminateAll(s, terminations))
  {
    if terminations == [] {
    } else {
      var (worker, client) := terminations[|terminations| - 1];
      var front := terminations[..|terminations| - 1];
      TerminatingKeepsIntroduced(s, front);
      SendingKeepsIntroduced(TerminateAll(s, front), worker, ToWorker(TerminateSession, client, None));
    }
  }

  lemma {:induction false} TerminatingTouchesWorkersOnly(s: Server, terminations: seq<(Id, Id)>)
    ensures TerminateAll(s, terminations) == s.(toWorkers := TerminateAll(s, terminations).toWorkers)
  {
    if terminations == [] {
    } else {
      TerminatingTouchesWorkersOnly(s, terminations[..|terminations| - 1]);
    }
  }

  lemma {:induction false} NotifyingTouchesClientsOnly(s: Server, clients: seq<Id>, o: Outbound)
    ensures NotifyAll(s, clients, o) == s.(toClients := NotifyAll(s, clients, o).toClients)
  {
    if clients == [] {
    } else {
      NotifyingTouchesClientsOnly(s, clients[..|clients| - 1], o);
    }
  }

  // ----------------------------------------------------------- the invariant

  /** Tables and pairing are consistent, so that games, counts and bindings belong to
      registered workers, and introductions come first. */
  ghost predicate Invariant(s: Server) {
    Registry.Consistent(s.tables) && Pairing.Consistent(s.pairing) && AllIntroduced(s)
  }

  lemma TellingClientsKeepsIntroduced(s: Server, client: Id, o: Outbound)
    requires AllIntroduced(s)
    ensures var t := SendToClient(s, client, o);
            AllIntroduced(t) && t.tables == s.tables && t.pairing == s.pairing && t.toWorkers == s.toWorkers
  {
  }

  lemma TellingPairingKeepsIntroduced(s: Server, client: Id, host: Id, worker: Id)
    requires AllIntroduced(s)
    ensures var t := PairingTold(s, client, host, worker);
            AllIntroduced(t) && t.tables == s.tables && t.pairing == s.pairing
  {
    var t := SendToClient(s, client, ToClient(ControllerJoined, Some(host), None));
    var u := SendToClient(t, host, ToClient(ControllerJoined, Some(client), None));
    TellingClientsKeepsIntroduced(s, client, ToClient(ControllerJoined, Some(host), None));
    TellingClientsKeepsIntroduced(t, host, ToClient(ControllerJoined, Some(client), None));
    SendingKeepsIntroduced(u, worker, ToWorker(JoinRoom, client, None));
  }

  lemma RepairingKeepsInvariant(s: Server, pairing: Pairing.Maps)
    requires Invariant(s) && Pairing.Consistent(pairing)
    ensures Invariant(s.(pairing := pairing))
  {
  }

  lemma TellingKeepsInvariant(s: Server, client: Id, o: Outbound)
    requires Invariant(s)
    ensures Invariant(SendToClient(s, client, o))
  {
    TellingClientsKeepsIntroduced(s, client, o);
  }

  lemma JoiningKeepsInvariant(s: Server, client: Id, text: string, now: nat)
    requires Invariant(s)
    ensures Invariant(HostJoined(s, client, text, now))
  {
    var pruned := Pairing.Pruned(s.pairing, now);
    Pairing.PruningKeepsConsistent(s.pairing, now);
    RepairingKeepsInvariant(s, pruned);
    match Pairing.JoinAnswer(s.pairing, text, now)
    case Err(MissingCode) =>
      TellingKeepsInvariant(s, client, ToClient(ControllerRejected, None, Some("missing-code")));
    case Err(InvalidCode) =>
      TellingKeepsInvariant(s.(pairing := pruned), client, ToClient(ControllerRejected, None, Some("invalid-code")));
    case Ok(target) =>
      var joined := Pairing.Joined(pruned, client, Pairing.Normalize(text));
      assert Pairing.Consistent(joined);
      RepairingKeepsInvariant(s, joined);
      TellingPairingKeepsIntroduced(s.(pairing := joined), client, target.host, target.worker);
  }

  lemma HostingKeepsInvariant(s: Server, client: Id, worker: Id, now: nat, code: string)
    requires Invariant(s)
    requires Registry.IsBound(s.tables, client, worker) ==>
               Pairing.MayGrant(Pairing.Pruned(s.pairing, now), client, code)
    ensures Invariant(HostRegistered(s, client, worker, now, code))
  {
    Pairing.PruningKeepsConsistent(s.pairing, now);
    if Registry.IsBound(s.tables, client, worker) {
      Pairing.RegisteringKeepsConsistent(Pairing.Pruned(s.pairing, now), client, worker, code, now);
    }
  }

  lemma TerminatingKeepsInvariant(s: Server, client: Id, target: Option<Id>)
    requires Invariant(s)
    ensures Invariant(SessionTerminated(s, client, target))
  {
    if client in s.tables.clientToWorker {
      SendingKeepsIntroduced(s, s.tables.clientToWorker[client], ToWorker(TerminateSession, client, None));
    }
  }

  lemma BrowserKeepsInvariant(s: Server, dedupe: bool, client: Id, m: Message, now: nat, code: string)
    requires Invariant(s) && MayGrant(s, client, m, now, code)
    ensures Invariant(BrowserHandled(s, dedupe, client, m, now, code))
  {
    ForwardsAsSent(m);
    match ParseBrowserCommand(m)
    case None =>
    case Some(command) => CommandKeepsInvariant(s, dedupe, client, command, now, code);
  }

  lemma CommandKeepsInvariant(s: Server, dedupe: bool, client: Id, command: BrowserCommand, now: nat, code: string)
    requires Invariant(s)
    requires command.ForwardToWorker? ==>
               (command.bindClient <==> command.event == InitWebrtc || command.event == JoinRoom)
    requires command.HostControllers? && Registry.IsBound(s.tables, client, command.worker) ==>
               Pairing.MayGrant(Pairing.Pruned(s.pairing, now), client, code)
    ensures Invariant(CommandHandled(s, dedupe, client, command, now, code))
  {
    match command
    case RequestGames => TellingKeepsInvariant(s, client, RoomList(Rooms(s.tables, dedupe)));
    case ForwardToWorker(worker, event, data, binds) =>
      ForwardingKeepsInvariant(s, client, worker, event, data, binds);
    case Terminate(target) => TerminatingKeepsInvariant(s, client, target);
    case HostControllers(worker) => HostingKeepsInvariant(s, client, worker, now, code);
    case JoinHost(text) => JoiningKeepsInvariant(s, client, text, now);
    case SendInput(host, input) => InputKeepsInvariant(s, client, host, input);
    case SendAudio(host, action) =>
      TellingKeepsInvariant(s, host, ToClient(ControllerAudio, Some(client), Some(action)));
  }

  lemma ForwardingKeepsInvariant(s: Server, client: Id, worker: Id, event: Kind, data: Option<string>, binds: bool)
    requires Invariant(s) && (binds <==> event == InitWebrtc || event == JoinRoom)
    ensures Invariant(Forwarded(s, client, worker, event, data, binds))
  {
    ForwardingKeepsIntroduced(s, client, worker, event, data, binds);
  }

  lemma InputKeepsInvariant(s: Server, client: Id, host: Id, input: string)
    requires Invariant(s)
    ensures Invariant(InputSent(s, client, host, input))
  {
    if client in s.pairing.controllerToHost {
      SendingKeepsIntroduced(s, s.pairing.controllerToHost[client].worker, ToWorker(Input, client, Some(input)));
    }
  }

  lemma GoneKeepsInvariant(s: Server, client: Id, notifyHost: Option<Id>)
    requires Invariant(s)
    ensures Invariant(BrowserGone(s, client, notifyHost))
  {
    var t := s.(pairing := Pairing.Cleaned(s.pairing, client), tables := Registry.ClientUnregistered(s.tables, client));
    Pairing.CleaningKeepsConsistent(s.pairing, client);
    Registry.UnregisteringKeepsConsistent(s.tables, client);
    WorkersUntouched(s, t);
    if client in s.tables.clientToWorker {
      SendingKeepsIntroduced(t, s.tables.clientToWorker[client], ToWorker(TerminateSession, client, None));
    }
  }

  lemma CleaningKeepsInvariant(s: Server, client: Id, r: Pairing.Cleanup)
    requires Invariant(s)
    ensures Invariant(BrowserCleaned(s, client, r))
  {
    var t := BrowserGone(s, client, r.notifyHost);
    var left := ToClient(ControllerLeft, Some(client), None);
    GoneKeepsInvariant(s, client, r.notifyHost);
    NotifyingTouchesClientsOnly(t, r.notifyControllers, left);
    WorkersUntouched(t, NotifyAll(t, r.notifyControllers, left));
    TerminatingTouchesWorkersOnly(NotifyAll(t, r.notifyControllers, left), r.workerTerminations);
    TerminatingKeepsIntroduced(NotifyAll(t, r.notifyControllers, left), r.workerTerminations);
  }

  lemma WorkerKeepsInvariant(s: Server, dedupe: bool, worker: Id, m: Message)
    requires Invariant(s) && worker in s.tables.workers
    ensures Invariant(WorkerHandled(s, dedupe, worker, m))
  {
    match ParseWorkerCommand(m)
    case None =>
    case Some(command) =>
      match command
      case SetGame(game) =>
        if game != None && Registry.NormalizeGameName(game.value) != "" {
          Registry.UpdatingKeepsConsistent(s.tables, worker, game.value, 0);
          WorkersUntouched(s, WorkerHandled(s, dedupe, worker, m));
        }
      case ForwardToClient(client, event, data) =>
        TellingClientsKeepsIntroduced(s, client, ToClient(event, Some(client), data));
      case SetPlayerCount(count) =>
        Registry.UpdatingKeepsConsistent(s.tables, worker, "", count);
        WorkersUntouched(s, WorkerHandled(s, dedupe, worker, m));
  }

  lemma WorkersUntouched(s: Server, t: Server)
    requires AllIntroduced(s) && t.toWorkers == s.toWorkers
    requires forall c <- t.tables.clientToWorker :: Registry.IsBound(s.tables, c, t.tables.clientToWorker[c])
    ensures AllIntroduced(t)
  {
  }

  lemma WorkerLeavingKeepsInvariant(s: Server, dedupe: bool, worker: Id)
    requires Invariant(s)
    ensures Invariant(WorkerCleaned(s, dedupe, worker))
  {
    Registry.UnregisteringKeepsConsistent(s.tables, worker);
    var t := WorkerCleaned(s, dedupe, worker);
    WorkersUntouched(s, t);
  }

  lemma StepKeepsInvariant(s: Server, dedupe: bool, e: Event)
    requires Invariant(s) && Possible(s, e)
    ensures Invariant(Step(s, dedupe, e))
  {
    match e
    case BrowserConnects(id) =>
    case WorkerConnects(id) => Registry.RegisteringKeepsConsistent(s.tables, id);
    case BrowserSends(id, m, now, code) => BrowserKeepsInvariant(s, dedupe, id, m, now, code);
    case WorkerSends(id, m) => WorkerKeepsInvariant(s, dedupe, id, m);
    case BrowserLeaves(id, cleanup) => CleaningKeepsInvariant(s, id, cleanup);
    case WorkerLeaves(id) => WorkerLeavingKeepsInvariant(s, dedupe, id);
  }

  /** In every run: games, player counts and client bindings are only held for registered
      workers, whose places in line differ; and each answer or candidate in a worker's
      outbox comes after an initwebrtc or joinRoom for the same client. */
  lemma {:induction false} RunsKeepInvariant(dedupe: bool, run: seq<Event>)
    requires IsRun(dedupe, run)
    ensures Invariant(After(dedupe, run))
  {
    if run == [] {
    } else {
      RunsKeepInvariant(dedupe, run[..|run| - 1]);
      StepKeepsInvariant(After(dedupe, run[..|run| - 1]), dedupe, run[|run| - 1]);
    }
  }

  /** Everything in `after` beyond `before` carries the client's id. */
  ghost predicate GrowsStamped(before: seq<Outbound>, after: seq<Outbound>, client: Id) {
    before <= after && forall k | |before| <= k < |after| :: after[k].Signal? && after[k].m.sessionId == Some(client)
  }

  lemma SendingStamps(s: Server, worker: Id, m: Message, client: Id, w: Id)
    requires m.sessionId == Some(client)
    ensures GrowsStamped(Outbox(s.toWorkers, w), Outbox(SendToWorker(s, worker, m).toWorkers, w), client)
  {
  }

  /** Everything a browser's message puts in a worker's outbox carries that browser's own
      id. */
  lemma MessagesAreStampedBySender(s: Server, dedupe: bool, client: Id, m: Message, now: nat, code: string, w: Id)
    ensures GrowsStamped(Outbox(s.toWorkers, w),
                         Outbox(BrowserHandled(s, dedupe, client, m, now, code).toWorkers, w), client)
  {
    match ParseBrowserCommand(m)
    case None =>
    case Some(command) => CommandsAreStamped(s, dedupe, client, command, now, code, w);
  }

  lemma CommandsAreStamped(s: Server, dedupe: bool, client: Id, command: BrowserCommand, now: nat, code: string, w: Id)
    ensures GrowsStamped(Outbox(s.toWorkers, w),
                         Outbox(CommandHandled(s, dedupe, client, command, now, code).toWorkers, w), client)
  {
    match command
    case ForwardToWorker(worker, event, data, binds) =>
      SendingStamps(s, worker, ToWorker(event, client, data), client, w);
      var bound := s.(tables := Registry.Bound(s.tables, client, worker));
      SendingStamps(bound, worker, ToWorker(event, client, data), client, w);
    case Terminate(target) =>
      if client in s.tables.clientToWorker {
        SendingStamps(s, s.tables.clientToWorker[client], ToWorker(TerminateSession, client, None), client, w);
      }
    case JoinHost(text) => JoiningStamps(s, client, text, now, w);
    case SendInput(host, input) =>
      if client in s.pairing.controllerToHost {
        SendingStamps(s, s.pairing.controllerToHost[client].worker, ToWorker(Input, client, Some(input)), client, w);
      }
    case _ =>
  }

  lemma JoiningStamps(s: Server, client: Id, text: string, now: nat, w: Id)
    ensures GrowsStamped(Outbox(s.toWorkers, w), Outbox(HostJoined(s, client, text, now).toWorkers, w), client)
  {
    var code, pruned := Pairing.Normalize(text), Pairing.Pruned(s.pairing, now);
    if code != "" && code in pruned.codeToHost {
      var t := s.(pairing := Pairing.Joined(pruned, client, code));
      PairingStamps(t, client, pruned.codeToHost[code].host, pruned.codeToHost[code].worker, w);
    }
  }

  lemma PairingStamps(s: Server, client: Id, host: Id, worker: Id, w: Id)
    ensures GrowsStamped(Outbox(s.toWorkers, w), Outbox(PairingTold(s, client, host, worker).toWorkers, w), client)
  {
  }

  /** No other event puts an answer or a candidate there. */
  lemma OnlyBrowsersSendAnswers(s: Server, dedupe: bool, e: Event, w: Id)
    requires !e.BrowserSends?
    ensures GrowsWithoutAnswers(Outbox(s.toWorkers, w), Outbox(Step(s, dedupe, e).toWorkers, w))
  {
    if e.BrowserLeaves? {
      LeavingSendsNoAnswers(s, e.id, e.cleanup, w);
    }
  }

  ghost predicate GrowsWithoutAnswers(before: seq<Outbound>, after: seq<Outbound>) {
    before <= after && forall k | |before| <= k < |after| :: !IsAnswerOrCandidate(after[k])
  }

  lemma LeavingSendsNoAnswers(s: Server, client: Id, r: Pairing.Cleanup, w: Id)
    ensures GrowsWithoutAnswers(Outbox(s.toWorkers, w), Outbox(BrowserCleaned(s, client, r).toWorkers, w))
  {
    var t := BrowserGone(s, client, r.notifyHost);
    var left := ToClient(ControllerLeft, Some(client), None);
    assert GrowsWithoutAnswers(Outbox(s.toWorkers, w), Outbox(t.toWorkers, w));
    NotifyingTouchesClientsOnly(t, r.notifyControllers, left);
    TerminationsOnly(NotifyAll(t, r.notifyControllers, left), r.workerTerminations, w);
  }

  lemma {:induction false} TerminationsOnly(s: Server, terminations: seq<(Id, Id)>, w: Id)
    ensures GrowsWithoutAnswers(Outbox(s.toWorkers, w), Outbox(TerminateAll(s, terminations).toWorkers, w))
  {
    if terminations == [] {
    } else {
      TerminationsOnly(s, terminations[..|terminations| - 1], w);
    }
  }
}
