/** What is in the outboxes of the signaling server, told from what happened alone. */
module Delivery {
  import opened Wrappers
  import opened Protocol
  import opened ServerHistory
  import opened SignalServer
  import Decimal
  import JoinCodes
  import Pairing
  import PairingHistory
  import PairingLink
  import Registry
  import Text

  type Route = Pairing.ControllerRoute

  function About(kind: Kind, id: Id, data: Option<string>): Outbound {
    Signal(Message(kind, data, Some(id)))
  }

  function If(condition: bool, o: Outbound): seq<Outbound> {
    if condition then [o] else []
  }

  // ---------------------------------------------------------- what a worker hears

  /** What a browser's message puts in w's outbox: `bound` is the worker that the browser is
      bound to, `lead` the route that a controller's message leads along. */
  function HeardFrom(client: Id, m: Message, w: Id, bound: Option<Id>, lead: Option<Route>): seq<Outbound> {
    var target := Trimmed(m.sessionId);
    match m.kind
    case InitWebrtc => If(target == Some(w), About(InitWebrtc, client, m.data))
    case JoinRoom => If(target == Some(w), About(JoinRoom, client, m.data))
    case Answer => If(target == Some(w) == bound, About(Answer, client, m.data))
    case Candidate => If(target == Some(w) == bound, About(Candidate, client, m.data))
    case Input => If(target == Some(w) == bound, About(Input, client, m.data))
    case TerminateSession =>
      If(bound == Some(w) && (target == None || target == bound), About(TerminateSession, client, None))
    case ControllerJoin => If(lead != None && lead.value.worker == w, About(JoinRoom, client, None))
    case ControllerInput => If(lead != None && lead.value.worker == w, About(Input, client, Trimmed(m.data)))
    case _ => []
  }

  /** What ending these sessions puts in w's outbox. */
  function Endings(terminations: seq<(Id, Id)>, w: Id): seq<Outbound> {
    if terminations == [] then []
    else
      var (worker, client) := terminations[|terminations| - 1];
      Endings(terminations[..|terminations| - 1], w) + If(worker == w, About(TerminateSession, client, None))
  }

  /** What an event puts in the outbox of a worker that is connected. */
  function Heard(e: Event, w: Id, bound: Option<Id>, lead: Option<Route>): seq<Outbound> {
    match e
    case BrowserSends(id, m, _, _) => HeardFrom(id, m, w, bound, lead)
    case BrowserLeaves(id, r) =>
      If(bound == Some(w), About(TerminateSession, id, None)) + Endings(r.workerTerminations, w)
    case _ => []
  }

  /** Where a controller's message leads by the tables. */
  function Lead(s: Server, e: Event): Option<Route> {
    if !e.BrowserSends? then None
    else
      var target, payload := Trimmed(e.m.sessionId), Trimmed(e.m.data);
      if e.m.kind == ControllerJoin then
        if payload == None then None else RouteJoined(Pairing.JoinAnswer(s.pairing, payload.value, e.now))
      else if e.m.kind == ControllerInput || e.m.kind == ControllerAudio then
        RouteTo(s.pairing.controllerToHost, e.id, target, payload)
      else None
  }

  function RouteJoined(answer: Result<Route, Pairing.JoinError>): Option<Route> {
    if answer.Ok? then Some(answer.value) else None
  }

  function RouteTo(routes: map<Id, Route>, client: Id, target: Option<Id>, payload: Option<string>): Option<Route> {
    if payload != None && client in routes && target == Some(routes[client].host) then Some(routes[client]) else None
  }

  function WorkerOutbox(s: Server, w: Id): seq<Outbound> {
    Outbox(s.toWorkers, w)
  }

  lemma SendingIsHeard(s: Server, worker: Id, m: Message, w: Id)
    ensures WorkerOutbox(SendToWorker(s, worker, m), w)
            == WorkerOutbox(s, w) + If(worker == w && w in s.tables.workers, Signal(m))
  {
  }

  lemma SendingIsTold(s: Server, client: Id, o: Outbound, c: Id)
    ensures ClientOutbox(SendToClient(s, client, o), c)
            == ClientOutbox(s, c) + If(client == c && c in s.tables.clients, o)
  {
  }

  /** An event adds exactly that to the outbox of a worker that is connected, and nothing to
      any other. */
  lemma StepIsHeard(s: Server, dedupe: bool, e: Event, w: Id)
    ensures WorkerOutbox(Step(s, dedupe, e), w)
            == WorkerOutbox(s, w)
               + if w in s.tables.workers then Heard(e, w, In(s.tables.clientToWorker, e.id), Lead(s, e)) else []
  {
    match e
    case BrowserSends(id, m, now, code) => MessageIsHeard(s, dedupe, e, w);
    case BrowserLeaves(id, r) => LeavingIsHeard(s, id, r, w);
    case _ =>
  }

  lemma MessageIsHeard(s: Server, dedupe: bool, e: Event, w: Id)
    requires e.BrowserSends?
    ensures WorkerOutbox(Step(s, dedupe, e), w)
            == WorkerOutbox(s, w)
               + if w in s.tables.workers then HeardFrom(e.id, e.m, w, In(s.tables.clientToWorker, e.id), Lead(s, e))
                 else []
  {
    var bound, lead := In(s.tables.clientToWorker, e.id), Lead(s, e);
    match ParseBrowserCommand(e.m)
    case None => assert HeardFrom(e.id, e.m, w, bound, lead) == [];
    case Some(command) =>
      CommandIsHeard(s, dedupe, e.id, command, e.now, e.code, w);
      CommandsAreRead(s, e, command, w);
  }

  /** What a command puts in w's outbox, by the tables. */
  function HeardByCommand(s: Server, client: Id, command: BrowserCommand, now: nat, w: Id): seq<Outbound> {
    match command
    case ForwardToWorker(worker, event, data, binds) =>
      If(worker == w && (binds || Registry.IsBound(s.tables, client, w)), About(event, client, data))
    case Terminate(target) =>
      If(Registry.IsBound(s.tables, client, w) && (target == None || target == Some(w)),
         About(TerminateSession, client, None))
    case JoinHost(text) =>
      var answer := Pairing.JoinAnswer(s.pairing, text, now);
      If(answer.Ok? && answer.value.worker == w, About(JoinRoom, client, None))
    case SendInput(host, input) =>
      var route := RouteTo(s.pairing.controllerToHost, client, Some(host), Some(input));
      If(route != None && route.value.worker == w, About(Input, client, Some(input)))
    case _ => []
  }

  lemma CommandsAreRead(s: Server, e: Event, command: BrowserCommand, w: Id)
    requires e.BrowserSends? && ParseBrowserCommand(e.m) == Some(command)
    ensures HeardFrom(e.id, e.m, w, In(s.tables.clientToWorker, e.id), Lead(s, e))
            == HeardByCommand(s, e.id, command, e.now, w)
  {
  }

  lemma CommandIsHeard(s: Server, dedupe: bool, client: Id, command: BrowserCommand, now: nat, code: string, w: Id)
    ensures WorkerOutbox(CommandHandled(s, dedupe, client, command, now, code), w)
            == WorkerOutbox(s, w)
               + if w in s.tables.workers then HeardByCommand(s, client, command, now, w) else []
  {
    match command
    case ForwardToWorker(worker, event, data, binds) => ForwardingIsHeard(s, client, worker, event, data, binds, w);
    case JoinHost(text) => JoiningIsHeard(s, client, text, now, w);
    case Terminate(target) => TerminatingIsHeard(s, client, target, w);
    case SendInput(host, input) => InputIsHeard(s, client, host, input, w);
    case _ =>
  }

  lemma ForwardingIsHeard(s: Server, client: Id, worker: Id, event: Kind, data: Option<string>, binds: bool, w: Id)
    ensures WorkerOutbox(Forwarded(s, client, worker, event, data, binds), w)
            == WorkerOutbox(s, w)
               + If(w in s.tables.workers && worker == w && (binds || Registry.IsBound(s.tables, client, w)),
                    About(event, client, data))
  {
    var m := ToWorker(event, client, data);
    if binds {
      SendingIsHeard(s.(tables := Registry.Bound(s.tables, client, worker)), worker, m, w);
    } else {
      SendingIsHeard(s, worker, m, w);
    }
  }

  lemma InputIsHeard(s: Server, client: Id, host: Id, input: string, w: Id)
    ensures
      var route := RouteTo(s.pairing.controllerToHost, client, Some(host), Some(input));
      WorkerOutbox(InputSent(s, client, host, input), w)
      == WorkerOutbox(s, w)
         + If(w in s.tables.workers && route != None && route.value.worker == w, About(Input, client, Some(input)))
  {
    if client in s.pairing.controllerToHost {
      SendingIsHeard(s, s.pairing.controllerToHost[client].worker, ToWorker(Input, client, Some(input)), w);
    }
  }

  lemma TerminatingIsHeard(s: Server, client: Id, target: Option<Id>, w: Id)
    ensures WorkerOutbox(SessionTerminated(s, client, target), w)
            == WorkerOutbox(s, w)
               + If(w in s.tables.workers && Registry.IsBound(s.tables, client, w)
                    && (target == None || target == Some(w)),
                    About(TerminateSession, client, None))
  {
    if client in s.tables.clientToWorker {
      SendingIsHeard(s, s.tables.clientToWorker[client], ToWorker(TerminateSession, client, None), w);
    }
  }

  lemma JoiningIsHeard(s: Server, client: Id, text: string, now: nat, w: Id)
    ensures
      var answer := Pairing.JoinAnswer(s.pairing, text, now);
      WorkerOutbox(HostJoined(s, client, text, now), w)
      == WorkerOutbox(s, w)
         + If(w in s.tables.workers && answer.Ok? && answer.value.worker == w, About(JoinRoom, client, None))
  {
    var pruned := Pairing.Pruned(s.pairing, now);
    match Pairing.JoinAnswer(s.pairing, text, now)
    case Err(_) =>
    case Ok(route) =>
      PairingIsHeard(s.(pairing := Pairing.Joined(pruned, client, Pairing.Normalize(text))), client, route, w);
  }

  lemma PairingIsHeard(s: Server, client: Id, route: Route, w: Id)
    ensures WorkerOutbox(PairingTold(s, client, route.host, route.worker), w)
            == WorkerOutbox(s, w) + If(w in s.tables.workers && route.worker == w, About(JoinRoom, client, None))
  {
  }

  lemma LeavingIsHeard(s: Server, client: Id, r: Pairing.Cleanup, w: Id)
    ensures WorkerOutbox(BrowserCleaned(s, client, r), w)
            == WorkerOutbox(s, w)
               + if w !in s.tables.workers then []
                 else If(In(s.tables.clientToWorker, client) == Some(w), About(TerminateSession, client, None))
                      + Endings(r.workerTerminations, w)
  {
    var t := BrowserGone(s, client, r.notifyHost);
    var left := ToClient(ControllerLeft, Some(client), None);
    NotifyingTouchesClientsOnly(t, r.notifyControllers, left);
    EndingsAreHeard(NotifyAll(t, r.notifyControllers, left), r.workerTerminations, w);
    GoneIsHeard(s, client, r.notifyHost, w);
  }

  lemma GoneIsHeard(s: Server, client: Id, notifyHost: Option<Id>, w: Id)
    ensures
      var t := BrowserGone(s, client, notifyHost);
      && t.tables.workers == s.tables.workers
      && WorkerOutbox(t, w)
         == WorkerOutbox(s, w)
            + If(w in s.tables.workers && In(s.tables.clientToWorker, client) == Some(w),
                 About(TerminateSession, client, None))
  {
  }

  lemma {:induction false} EndingsAreHeard(s: Server, terminations: seq<(Id, Id)>, w: Id)
    ensures WorkerOutbox(TerminateAll(s, terminations), w)
            == WorkerOutbox(s, w) + if w in s.tables.workers then Endings(terminations, w) else []
  {
    if terminations == [] {
    } else {
      EndingsAreHeard(s, terminations[..|terminations| - 1], w);
      TerminatingTouchesWorkersOnly(s, terminations[..|terminations| - 1]);
    }
  }

  // --------------------------------------------------------- what a browser is told

  /** What a browser's message puts in c's outbox; `bound` is the worker that c is bound to. */
  function ToldBy(client: Id, m: Message, code: string, c: Id, bound: Option<Id>, lead: Option<Route>,
                  rooms: map<Id, string>): seq<Outbound>
  {
    match m.kind
    case GetGames => If(client == c, RoomList(rooms))
    case ControllerHost =>
      If(client == c && bound != None && Trimmed(m.sessionId) == bound,
         Signal(Message(ControllerReady, Some(code), None)))
    case ControllerJoin => if Trimmed(m.data) == None then [] else ToldByJoin(client, lead, c)
    case ControllerAudio => If(lead != None && lead.value.host == c, About(ControllerAudio, client, Trimmed(m.data)))
    case _ => []
  }

  /** The controller and the host that it is led to are told of each other. */
  function ToldByJoin(client: Id, lead: Option<Route>, c: Id): seq<Outbound> {
    if lead == None then If(client == c, Signal(Message(ControllerRejected, Some("invalid-code"), None)))
    else If(client == c, About(ControllerJoined, lead.value.host, None))
         + If(lead.value.host == c, About(ControllerJoined, client, None))
  }

  function ToldByWorker(worker: Id, m: Message, c: Id, rooms: map<Id, string>): seq<Outbound> {
    var target := Trimmed(m.sessionId);
    match m.kind
    case GameInfo => If(NamesGame(m), RoomList(rooms))
    case Offer => If(target == Some(c), About(Offer, c, m.data))
    case Candidate => If(target == Some(c), About(Candidate, c, m.data))
    case UpdatePlayerCount =>
      var count := if m.data == None then None else Decimal.ParseUsize(Text.Trim(m.data.value));
      if count == None then [] else [About(UpdatePlayerCount, worker, Some(Decimal.Print(count.value)))]
    case _ => []
  }

  /** What an event puts in the outbox of a browser that can be sent to; `parted` says whether
      c loses its controller or its host. */
  function Told(e: Event, c: Id, bound: Option<Id>, lead: Option<Route>, parted: bool, rooms: map<Id, string>)
    : seq<Outbound>
  {
    match e
    case BrowserSends(id, m, _, code) => ToldBy(id, m, code, c, bound, lead, rooms)
    case WorkerSends(id, m) => ToldByWorker(id, m, c, rooms)
    case BrowserLeaves(id, _) => If(c != id && parted, About(ControllerLeft, id, None))
    case WorkerLeaves(id) => [if bound == Some(id) then Close else RoomList(rooms)]
    case _ => []
  }

  /** Is c the leaver's host, or else, if that has no host, one of its controllers? */
  predicate Parted(hostOfLeaver: Option<Id>, hostOfC: Option<Id>, leaver: Id, c: Id) {
    hostOfLeaver == Some(c) || (hostOfLeaver == None && hostOfC == Some(leaver))
  }

  predicate PartedIn(m: Pairing.Maps, leaver: Id, c: Id) {
    Parted(PairingHistory.HostOf(m, leaver), PairingHistory.HostOf(m, c), leaver, c)
  }

  function ClientOutbox(s: Server, c: Id): seq<Outbound> {
    Outbox(s.toClients, c)
  }

  /** An event adds exactly that to the outbox of a browser that can be sent to, and nothing to
      any other. */
  lemma StepIsTold(s: Server, dedupe: bool, e: Event, c: Id)
    requires Possible(s, e)
    ensures
      var t := Step(s, dedupe, e);
      ClientOutbox(t, c)
      == ClientOutbox(s, c)
         + if c !in s.tables.clients then []
           else Told(e, c, In(s.tables.clientToWorker, c), Lead(s, e), PartedIn(s.pairing, e.id, c),
                     Rooms(t.tables, dedupe))
  {
    match e
    case BrowserSends(id, m, now, code) => MessageIsTold(s, dedupe, e, c);
    case BrowserLeaves(id, r) => LeavingIsTold(s, id, r, c);
    case WorkerSends(id, m) => WorkerIsTold(s, dedupe, id, m, c);
    case WorkerLeaves(id) =>
      assert c in Registry.ClientsOf(s.tables, id) <==> In(s.tables.clientToWorker, c) == Some(id);
    case _ =>
  }

  lemma BroadcastIsTold(s: Server, o: Outbound, c: Id)
    ensures ClientOutbox(Broadcast(s, o), c) == ClientOutbox(s, c) + If(c in s.tables.clients, o)
  {
  }

  lemma WorkerIsTold(s: Server, dedupe: bool, worker: Id, m: Message, c: Id)
    ensures
      var t := WorkerHandled(s, dedupe, worker, m);
      ClientOutbox(t, c)
      == ClientOutbox(s, c)
         + if c in s.tables.clients then ToldByWorker(worker, m, c, Rooms(t.tables, dedupe)) else []
  {
    var t := WorkerHandled(s, dedupe, worker, m);
    match ParseWorkerCommand(m)
    case None =>
    case Some(SetGame(game)) => BroadcastIsTold(s.(tables := t.tables), RoomList(Rooms(t.tables, dedupe)), c);
    case Some(ForwardToClient(client, event, data)) =>
      SendingIsTold(s, client, ToClient(event, Some(client), data), c);
    case Some(SetPlayerCount(count)) =>
      BroadcastIsTold(s.(tables := t.tables), ToClient(UpdatePlayerCount, Some(worker), Some(Decimal.Print(count))), c);
  }

  lemma MessageIsTold(s: Server, dedupe: bool, e: Event, c: Id)
    requires e.BrowserSends?
    ensures
      var t := Step(s, dedupe, e);
      ClientOutbox(t, c)
      == ClientOutbox(s, c)
         + if c !in s.tables.clients then []
           else ToldBy(e.id, e.m, e.code, c, In(s.tables.clientToWorker, c), Lead(s, e), Rooms(t.tables, dedupe))
  {
    var t := Step(s, dedupe, e);
    match ParseBrowserCommand(e.m)
    case None => NothingIsRead(s, e, c, Rooms(t.tables, dedupe));
    case Some(command) =>
      JoinsNameACode(e.m);
      CommandIsTold(s, dedupe, e.id, command, e.now, e.code, c);
      TellingIsRead(s, dedupe, e, command, c, Rooms(t.tables, dedupe));
  }

  lemma JoinsNameACode(m: Message)
    ensures var command := ParseBrowserCommand(m);
            command != None && command.value.JoinHost? ==> Pairing.Normalize(command.value.code) != ""
  {
    if Trimmed(m.data) != None {
      Text.TrimTwice(m.data.value);
    }
  }

  /** What a command puts in c's outbox, by the tables. */
  ghost function ToldByCommand(s: Server, dedupe: bool, client: Id, command: BrowserCommand, now: nat, code: string,
                               c: Id): seq<Outbound> {
    match command
    case RequestGames => If(client == c, RoomList(Rooms(s.tables, dedupe)))
    case HostControllers(worker) =>
      If(client == c && In(s.tables.clientToWorker, c) == Some(worker),
         Signal(Message(ControllerReady, Some(code), None)))
    case JoinHost(text) => ToldByJoin(client, RouteJoined(Pairing.JoinAnswer(s.pairing, text, now)), c)
    case SendAudio(host, action) =>
      var route := RouteTo(s.pairing.controllerToHost, client, Some(host), Some(action));
      If(route != None && route.value.host == c, About(ControllerAudio, client, Some(action)))
    case _ => []
  }

  lemma NothingIsRead(s: Server, e: Event, c: Id, rooms: map<Id, string>)
    requires e.BrowserSends? && ParseBrowserCommand(e.m) == None
    ensures ToldBy(e.id, e.m, e.code, c, In(s.tables.clientToWorker, c), Lead(s, e), rooms) == []
  {
  }

  lemma TellingIsRead(s: Server, dedupe: bool, e: Event, command: BrowserCommand, c: Id, rooms: map<Id, string>)
    requires e.BrowserSends? && ParseBrowserCommand(e.m) == Some(command)
    requires command.RequestGames? ==> rooms == Rooms(s.tables, dedupe)
    ensures ToldBy(e.id, e.m, e.code, c, In(s.tables.clientToWorker, c), Lead(s, e), rooms)
            == ToldByCommand(s, dedupe, e.id, command, e.now, e.code, c)
  {
  }

  lemma CommandIsTold(s: Server, dedupe: bool, client: Id, command: BrowserCommand, now: nat, code: string, c: Id)
    requires command.JoinHost? ==> Pairing.Normalize(command.code) != ""
    ensures ClientOutbox(CommandHandled(s, dedupe, client, command, now, code), c)
            == ClientOutbox(s, c)
               + if c in s.tables.clients then ToldByCommand(s, dedupe, client, command, now, code, c) else []
  {
    match command
    case RequestGames => SendingIsTold(s, client, RoomList(Rooms(s.tables, dedupe)), c);
    case JoinHost(text) => JoiningIsTold(s, client, text, now, c);
    case HostControllers(worker) => HostingIsTold(s, client, worker, now, code, c);
    case SendAudio(host, action) => AudioIsTold(s, client, host, action, c);
    case _ =>
  }

  lemma HostingIsTold(s: Server, client: Id, worker: Id, now: nat, code: string, c: Id)
    ensures ClientOutbox(HostRegistered(s, client, worker, now, code), c)
            == ClientOutbox(s, c)
               + If(c in s.tables.clients && client == c && In(s.tables.clientToWorker, c) == Some(worker),
                    Signal(Message(ControllerReady, Some(code), None)))
  {
  }

  lemma AudioIsTold(s: Server, client: Id, host: Id, action: string, c: Id)
    ensures
      var route := RouteTo(s.pairing.controllerToHost, client, Some(host), Some(action));
      ClientOutbox(AudioSent(s, client, host, action), c)
      == ClientOutbox(s, c)
         + If(c in s.tables.clients && route != None && route.value.host == c,
              About(ControllerAudio, client, Some(action)))
  {
  }

  lemma JoiningIsTold(s: Server, client: Id, text: string, now: nat, c: Id)
    requires Pairing.Normalize(text) != ""
    ensures
      ClientOutbox(HostJoined(s, client, text, now), c)
      == ClientOutbox(s, c)
         + if c !in s.tables.clients then []
           else ToldByJoin(client, RouteJoined(Pairing.JoinAnswer(s.pairing, text, now)), c)
  {
    var pruned := Pairing.Pruned(s.pairing, now);
    match Pairing.JoinAnswer(s.pairing, text, now)
    case Err(_) =>
      SendingIsTold(s.(pairing := pruned), client, ToClient(ControllerRejected, None, Some("invalid-code")), c);
    case Ok(route) =>
      PairingIsTold(s.(pairing := Pairing.Joined(pruned, client, Pairing.Normalize(text))), client, route, c);
  }

  lemma PairingIsTold(s: Server, client: Id, route: Route, c: Id)
    ensures ClientOutbox(PairingTold(s, client, route.host, route.worker), c)
            == ClientOutbox(s, c)
               + if c !in s.tables.clients then []
                 else If(client == c, About(ControllerJoined, route.host, None))
                      + If(route.host == c, About(ControllerJoined, client, None))
  {
    var t := SendToClient(s, client, ToClient(ControllerJoined, Some(route.host), None));
    SendingIsTold(s, client, ToClient(ControllerJoined, Some(route.host), None), c);
    SendingIsTold(t, route.host, ToClient(ControllerJoined, Some(client), None), c);
  }

  lemma LeavingIsTold(s: Server, client: Id, r: Pairing.Cleanup, c: Id)
    requires Pairing.Reports(s.pairing, client, r)
    ensures ClientOutbox(BrowserCleaned(s, client, r), c)
            == ClientOutbox(s, c)
               + If(c in s.tables.clients && c != client && PartedIn(s.pairing, client, c),
                    About(ControllerLeft, client, None))
  {
    var t := BrowserGone(s, client, r.notifyHost);
    var left := ToClient(ControllerLeft, Some(client), None);
    NotifyingTouchesClientsOnly(t, r.notifyControllers, left);
    TerminatingTouchesWorkersOnly(NotifyAll(t, r.notifyControllers, left), r.workerTerminations);
    GoneIsTold(s, client, r.notifyHost, c);
    NoticesAreTold(t, r.notifyControllers, left, c);
  }

  lemma GoneIsTold(s: Server, client: Id, notifyHost: Option<Id>, c: Id)
    ensures
      var t := BrowserGone(s, client, notifyHost);
      && t.tables.clients == s.tables.clients - {client}
      && ClientOutbox(t, c)
         == ClientOutbox(s, c)
            + If(c in s.tables.clients && c != client && notifyHost == Some(c), About(ControllerLeft, client, None))
  {
  }

  lemma {:induction false} NoticesAreTold(s: Server, clients: seq<Id>, o: Outbound, c: Id)
    requires Pairing.NoDuplicates(clients)
    ensures ClientOutbox(NotifyAll(s, clients, o), c)
            == ClientOutbox(s, c) + If(c in s.tables.clients && c in clients, o)
  {
    if clients == [] {
    } else {
      var front, last := clients[..|clients| - 1], clients[|clients| - 1];
      NoticesAreTold(s, front, o, c);
      NotifyingTouchesClientsOnly(s, front, o);
      SendingIsTold(NotifyAll(s, front, o), last, o, c);
      LastOrBefore(clients, c);
    }
  }

  lemma LastOrBefore(clients: seq<Id>, c: Id)
    requires clients != [] && Pairing.NoDuplicates(clients)
    ensures var front, last := clients[..|clients| - 1], clients[|clients| - 1];
            (c in clients <==> c in front || c == last) && !(c in front && c == last)
  {
    var front, last := clients[..|clients| - 1], clients[|clients| - 1];
    assert clients == front + [last];
    if c in front {
      var i :| 0 <= i < |front| && front[i] == c;
      assert clients[i] != last;
    }
  }

  // --------------------------------------------------------- outboxes by history

  /** The registration, join or clean-up that an event amounts to. */
  function PairingOf(e: Event, bound: Option<Id>, clock: nat): seq<Pairing.Event> {
    match e
    case BrowserSends(id, m, now, code) =>
      var target, payload := Trimmed(m.sessionId), Trimmed(m.data);
      if m.kind == ControllerHost && target != None && target == bound then
        [Pairing.Register(now, id, target.value, code)]
      else if m.kind == ControllerJoin && payload != None then [Pairing.Join(now, id, payload.value)]
      else []
    case BrowserLeaves(id, _) => [Pairing.CleanUp(clock, id)]
    case _ => []
  }

  function Pairings(run: seq<Event>): seq<Pairing.Event> {
    if run == [] then []
    else
      var front, e := run[..|run| - 1], run[|run| - 1];
      Pairings(front) + PairingOf(e, BoundTo(front, e.id), PairingLink.Clock(front))
  }

  lemma PairingsAgree(s: Server, e: Event, clock: nat)
    ensures PairingLink.PairingEvents(s, e, clock) == PairingOf(e, In(s.tables.clientToWorker, e.id), clock)
  {
  }

  lemma {:induction false} PairingsAreTheServers(dedupe: bool, run: seq<Event>)
    ensures PairingLink.PairingRun(dedupe, run) == Pairings(run)
  {
    if run == [] {
    } else {
      var front, e := run[..|run| - 1], run[|run| - 1];
      PairingsAreTheServers(dedupe, front);
      TablesFollowHistory(dedupe, front);
      assert FollowsAt(After(dedupe, front).tables, front, e.id);
      PairingsAgree(After(dedupe, front), e, PairingLink.Clock(front));
    }
  }

  /** The host that a controller is paired with. */
  function HostOf(run: seq<Event>, controller: Id): Option<Id> {
    PairingHistory.PairedWith(Pairings(run), controller)
  }

  /** To that host on the worker of its latest registration. */
  function RouteFor(p: seq<Pairing.Event>, host: Option<Id>): Option<Route> {
    if host == None || Pairing.LastWorker(p, host.value) == None then None
    else Some(Pairing.ControllerRoute(host.value, Pairing.LastWorker(p, host.value).value))
  }

  /** Where a controller's message leads: a join to the host that its code leads to, and any
      other to the host that it is paired with, if it names that. */
  function LeadAfter(run: seq<Event>, e: Event): Option<Route> {
    if !e.BrowserSends? || Trimmed(e.m.data) == None then None
    else
      var p, target := Pairings(run), Trimmed(e.m.sessionId);
      if e.m.kind == ControllerJoin then
        RouteFor(p, PairingHistory.Owner(p, Pairing.Normalize(Trimmed(e.m.data).value), e.now))
      else if e.m.kind == ControllerInput || e.m.kind == ControllerAudio then
        RouteFor(p, if target == HostOf(run, e.id) then target else None)
      else None
  }

  /** What a worker has heard. */
  function HeardIn(run: seq<Event>, w: Id): seq<Outbound> {
    if run == [] then []
    else
      var front, e := run[..|run| - 1], run[|run| - 1];
      HeardIn(front, w) + if IsUp(front, w) then Heard(e, w, BoundTo(front, e.id), LeadAfter(front, e)) else []
  }

  /** What a browser has been told. */
  ghost function ToldIn(dedupe: bool, run: seq<Event>, c: Id): seq<Outbound> {
    if run == [] then []
    else
      var front, e := run[..|run| - 1], run[|run| - 1];
      ToldIn(dedupe, front, c)
      + if !IsHere(front, c) then []
        else Told(e, c, BoundTo(front, c), LeadAfter(front, e), Parted(HostOf(front, e.id), HostOf(front, c), e.id, c),
                  Rooms(After(dedupe, run).tables, dedupe))
  }

  lemma HostsFollow(dedupe: bool, run: seq<Event>, c: Id)
    requires IsRun(dedupe, run) && PairingLink.InTimeOrder(run)
    ensures PairingHistory.HostOf(After(dedupe, run).pairing, c) == HostOf(run, c)
  {
    PairingsAreTheServers(dedupe, run);
    PairingLink.ServerRunsArePairingRuns(dedupe, run);
    PairingHistory.TablesFollowHistory(Pairings(run));
  }

  lemma LeadsFollow(dedupe: bool, run: seq<Event>, e: Event)
    requires IsRun(dedupe, run) && PairingLink.InTimeOrder(run)
    requires e.BrowserSends? ==> PairingLink.Clock(run) <= e.now
    ensures Lead(After(dedupe, run), e) == LeadAfter(run, e)
  {
    if e.BrowserSends? && Trimmed(e.m.data) != None {
      PairingFollows(dedupe, run, e.now);
      HostsFollow(dedupe, run, e.id);
      MessageLeads(After(dedupe, run), run, e);
    }
  }

  lemma PairingFollows(dedupe: bool, run: seq<Event>, now: nat)
    requires IsRun(dedupe, run) && PairingLink.InTimeOrder(run) && PairingLink.Clock(run) <= now
    ensures PairingLink.LeadsTo(Pairings(run), After(dedupe, run).pairing, now)
    ensures Pairing.NamesLatestWorkers(After(dedupe, run).pairing, Pairings(run))
  {
    PairingsAreTheServers(dedupe, run);
    PairingLink.ServerRunsArePairingRuns(dedupe, run);
    Pairing.RoutesFollowLatestRegistration(Pairings(run));
  }

  lemma MessageLeads(s: Server, run: seq<Event>, e: Event)
    requires e.BrowserSends? && Trimmed(e.m.data) != None
    requires PairingLink.LeadsTo(Pairings(run), s.pairing, e.now)
    requires Pairing.NamesLatestWorkers(s.pairing, Pairings(run))
    requires PairingHistory.HostOf(s.pairing, e.id) == HostOf(run, e.id)
    ensures Lead(s, e) == LeadAfter(run, e)
  {
    var target, payload := Trimmed(e.m.sessionId), Trimmed(e.m.data);
    JoinsFollow(Pairings(run), s.pairing, payload.value, e.now);
    RoutesFollow(Pairings(run), s.pairing, e.id, target, payload);
  }

  lemma RoutesFollow(p: seq<Pairing.Event>, m: Pairing.Maps, id: Id, target: Option<Id>, payload: Option<string>)
    requires Pairing.NamesLatestWorkers(m, p) && payload != None
    ensures RouteTo(m.controllerToHost, id, target, payload)
            == RouteFor(p, if target == PairingHistory.HostOf(m, id) then target else None)
  {
  }

  lemma JoinsFollow(p: seq<Pairing.Event>, m: Pairing.Maps, text: string, now: nat)
    requires PairingLink.LeadsTo(p, m, now) && Pairing.NamesLatestWorkers(m, p)
    ensures RouteFor(p, PairingHistory.Owner(p, Pairing.Normalize(text), now))
            == RouteJoined(Pairing.JoinAnswer(m, text, now))
  {
    var code := Pairing.Normalize(text);
    PairingHistory.TablesFollowHistory(p);
    Pairing.RunsStayConsistent(p);
    OwnersFollow(p, m, code, now);
    assert "" !in m.codeToHost by {
      assert !JoinCodes.IsCode("");
    }
  }

  lemma OwnersFollow(p: seq<Pairing.Event>, m: Pairing.Maps, code: string, now: nat)
    requires PairingLink.LeadsTo(p, m, now) && PairingHistory.Agrees(m, p)
    ensures PairingHistory.OwnerIn(m, code, now) == PairingHistory.Owner(p, code, now)
  {
  }

  /** In every run, the outbox of a worker holds exactly what it has heard. */
  lemma {:induction false} WorkersHear(dedupe: bool, run: seq<Event>, w: Id)
    requires IsRun(dedupe, run) && PairingLink.InTimeOrder(run)
    ensures WorkerOutbox(After(dedupe, run), w) == HeardIn(run, w)
  {
    if run == [] {
    } else {
      var front, e := run[..|run| - 1], run[|run| - 1];
      WorkersHear(dedupe, front, w);
      StepIsHeard(After(dedupe, front), dedupe, e, w);
      TablesFollowHistory(dedupe, front);
      LeadsFollow(dedupe, front, e);
      assert FollowsAt(After(dedupe, front).tables, front, w) && FollowsAt(After(dedupe, front).tables, front, e.id);
    }
  }

  /** ... and that of a browser exactly what it has been told. */
  lemma {:induction false} BrowsersAreTold(dedupe: bool, run: seq<Event>, c: Id)
    requires IsRun(dedupe, run) && PairingLink.InTimeOrder(run)
    ensures ClientOutbox(After(dedupe, run), c) == ToldIn(dedupe, run, c)
  {
    if run == [] {
    } else {
      var front, e := run[..|run| - 1], run[|run| - 1];
      BrowsersAreTold(dedupe, front, c);
      StepIsTold(After(dedupe, front), dedupe, e, c);
      TablesFollowHistory(dedupe, front);
      LeadsFollow(dedupe, front, e);
      HostsFollow(dedupe, front, e.id);
      HostsFollow(dedupe, front, c);
      assert FollowsAt(After(dedupe, front).tables, front, c);
    }
  }

  /** A controller's host and its own session on the host's worker, or else, each once, the
      sessions of a host's controllers on its worker. */
  ghost predicate IsReport(r: Pairing.Cleanup, client: Id, host: Option<Id>, p: seq<Pairing.Event>) {
    match host
    case Some(h) =>
      var worker := Pairing.LastWorker(p, h);
      worker != None && r == Pairing.Cleanup(host, [], [(worker.value, client)])
    case None =>
      var worker, controllers := Pairing.LastWorker(p, client), r.notifyControllers;
      && r.notifyHost == None && Pairing.NoDuplicates(controllers)
      && (controllers != [] ==> worker != None)
      && |r.workerTerminations| == |controllers|
      && forall i | 0 <= i < |controllers| :: r.workerTerminations[i] == (worker.value, controllers[i])
  }

  /** What the clean-up of a browser that leaves lists: that, and as a host's controllers exactly
      those paired with it. */
  lemma LeavingReports(dedupe: bool, run: seq<Event>, client: Id, r: Pairing.Cleanup)
    requires IsRun(dedupe, run) && PairingLink.InTimeOrder(run)
    requires Possible(After(dedupe, run), BrowserLeaves(client, r))
    ensures IsReport(r, client, HostOf(run, client), Pairings(run))
    ensures HostOf(run, client) == None ==> forall k :: k in r.notifyControllers <==> HostOf(run, k) == Some(client)
  {
    var m := After(dedupe, run).pairing;
    PairingFollows(dedupe, run, PairingLink.Clock(run));
    HostsFollow(dedupe, run, client);
    ReportsLatestWorkers(m, Pairings(run), client, r);
    forall k ensures PairingHistory.HostOf(m, k) == HostOf(run, k) {
      HostsFollow(dedupe, run, k);
    }
  }

  lemma ReportsLatestWorkers(m: Pairing.Maps, p: seq<Pairing.Event>, client: Id, r: Pairing.Cleanup)
    requires Pairing.NamesLatestWorkers(m, p) && Pairing.Reports(m, client, r)
    ensures IsReport(r, client, PairingHistory.HostOf(m, client), p)
    ensures PairingHistory.HostOf(m, client) == None ==>
              forall k :: k in r.notifyControllers <==> PairingHistory.HostOf(m, k) == Some(client)
  {
    var controllers := r.notifyControllers;
    if PairingHistory.HostOf(m, client) == None && controllers != [] {
      assert controllers[0] in Pairing.RoutesOf(m.controllerToHost, client);
      forall i | 0 <= i < |controllers|
        ensures Some(m.controllerToHost[controllers[i]].worker) == Pairing.LastWorker(p, client)
      {
        assert controllers[i] in Pairing.RoutesOf(m.controllerToHost, client);
      }
    }
  }

  // ------------------------------------------------------ signals arrive, each once

  /** An answer, a candidate or an input from a browser that is bound to a connected worker and
      names it becomes one more message in that worker's outbox, under the browser's id, and
      changes nothing else. */
  lemma BoundSignalsArrive(s: Server, dedupe: bool, e: Event, w: Id)
    requires e.BrowserSends? && e.m.kind in {Answer, Candidate, Input} && Trimmed(e.m.sessionId) == Some(w)
    requires Registry.IsBound(s.tables, e.id, w) && w in s.tables.workers
    ensures
      var t := Step(s, dedupe, e);
      && t.tables == s.tables && t.pairing == s.pairing && t.toClients == s.toClients
      && WorkerOutbox(t, w) == WorkerOutbox(s, w) + [Signal(Message(e.m.kind, e.m.data, Some(e.id)))]
      && forall v | v != w :: WorkerOutbox(t, v) == WorkerOutbox(s, v)
  {
  }

  /** The messages of these kinds in an outbox, in order. */
  function Only(out: seq<Outbound>, kinds: set<Kind>): seq<Outbound> {
    if out == [] then []
    else
      var last := out[|out| - 1];
      Only(out[..|out| - 1], kinds) + If(last.Signal? && last.m.kind in kinds, last)
  }

  lemma {:induction false} OnlyAppends(out: seq<Outbound>, more: seq<Outbound>, kinds: set<Kind>)
    ensures Only(out + more, kinds) == Only(out, kinds) + Only(more, kinds)
    decreases |more|
  {
    if more == [] {
      assert out + more == out;
    } else {
      var front, last := more[..|more| - 1], more[|more| - 1];
      OnlyAppends(out, front, kinds);
      AppendsLast(out, more);
      Associate(Only(out, kinds), Only(front, kinds), If(last.Signal? && last.m.kind in kinds, last));
    }
  }

  lemma AppendsLast(out: seq<Outbound>, more: seq<Outbound>)
    requires more != []
    ensures var all := out + more;
            all[..|all| - 1] == out + more[..|more| - 1] && all[|all| - 1] == more[|more| - 1]
  {
  }

  lemma Associate(a: seq<Outbound>, b: seq<Outbound>, c: seq<Outbound>)
    ensures (a + b) + c == a + (b + c)
  {
  }

  lemma OnlyGrows(before: seq<Outbound>, after: seq<Outbound>, more: seq<Outbound>, grows: bool, kinds: set<Kind>,
                  added: seq<Outbound>)
    requires after == before + (if grows then more else []) && Only(more, kinds) == added
    ensures Only(after, kinds) == Only(before, kinds) + if grows then added else []
  {
    if grows {
      OnlyAppends(before, more, kinds);
    } else {
      assert after == before;
    }
  }

  /** No message of these kinds. */
  ghost predicate Lacks(out: seq<Outbound>, kinds: set<Kind>) {
    forall o <- out :: !(o.Signal? && o.m.kind in kinds)
  }

  lemma {:induction false} NothingOnly(out: seq<Outbound>, kinds: set<Kind>)
    requires Lacks(out, kinds)
    ensures Only(out, kinds) == []
  {
    if out == [] {
    } else {
      NothingOnly(out[..|out| - 1], kinds);
    }
  }

  lemma {:induction false} EndingsLack(terminations: seq<(Id, Id)>, w: Id, kinds: set<Kind>)
    requires TerminateSession !in kinds
    ensures Lacks(Endings(terminations, w), kinds)
  {
    if terminations == [] {
    } else {
      EndingsLack(terminations[..|terminations| - 1], w, kinds);
    }
  }

  lemma OnlyOne(condition: bool, o: Outbound, kinds: set<Kind>)
    ensures Only(If(condition, o), kinds) == If(condition && o.Signal? && o.m.kind in kinds, o)
  {
    if condition {
      assert If(condition, o)[..0] == [];
    }
  }

  const ANSWERS: set<Kind> := {Answer, Candidate}
  const OFFERS: set<Kind> := {Offer, Candidate}

  function AnswerSent(e: Event, w: Id, bound: Option<Id>): seq<Outbound> {
    if e.BrowserSends? && e.m.kind in ANSWERS && Trimmed(e.m.sessionId) == Some(w) == bound
    then [Signal(Message(e.m.kind, e.m.data, Some(e.id)))] else []
  }

  /** The answers and candidates that browsers sent to a worker while bound to it, each under
      its sender's id. */
  function AnswersSent(run: seq<Event>, w: Id): seq<Outbound> {
    if run == [] then []
    else
      var front, e := run[..|run| - 1], run[|run| - 1];
      AnswersSent(front, w) + AnswerSent(e, w, BoundTo(front, e.id))
  }

  function OfferSent(e: Event, c: Id): seq<Outbound> {
    if e.WorkerSends? && e.m.kind in OFFERS && Trimmed(e.m.sessionId) == Some(c)
    then [Signal(Message(e.m.kind, e.m.data, Some(c)))] else []
  }

  /** The offers and candidates that workers sent to a browser while it was there. */
  function OffersSent(run: seq<Event>, c: Id): seq<Outbound> {
    if run == [] then []
    else
      var front, e := run[..|run| - 1], run[|run| - 1];
      OffersSent(front, c) + if IsHere(front, c) then OfferSent(e, c) else []
  }

  lemma {:induction false} BoundWorkersAreUp(run: seq<Event>, client: Id, w: Id)
    ensures BoundTo(run, client) == Some(w) ==> IsUp(run, w)
  {
    if run == [] {
    } else {
      BoundWorkersAreUp(run[..|run| - 1], client, w);
    }
  }

  lemma AnswersHeard(e: Event, w: Id, bound: Option<Id>, lead: Option<Route>)
    ensures Only(Heard(e, w, bound, lead), ANSWERS) == AnswerSent(e, w, bound)
  {
    var heard := Heard(e, w, bound, lead);
    if AnswerSent(e, w, bound) == [] {
      if e.BrowserLeaves? {
        EndingsLack(e.cleanup.workerTerminations, w, ANSWERS);
      }
      NothingOnly(heard, ANSWERS);
    } else {
      assert heard == If(true, heard[0]);
      OnlyOne(true, heard[0], ANSWERS);
    }
  }

  lemma StepAnswers(s: Server, dedupe: bool, e: Event, w: Id)
    requires Registry.IsBound(s.tables, e.id, w) ==> w in s.tables.workers
    ensures Only(WorkerOutbox(Step(s, dedupe, e), w), ANSWERS)
            == Only(WorkerOutbox(s, w), ANSWERS) + AnswerSent(e, w, In(s.tables.clientToWorker, e.id))
  {
    var heard := Heard(e, w, In(s.tables.clientToWorker, e.id), Lead(s, e));
    StepIsHeard(s, dedupe, e, w);
    AnswersHeard(e, w, In(s.tables.clientToWorker, e.id), Lead(s, e));
    OnlyGrows(WorkerOutbox(s, w), WorkerOutbox(Step(s, dedupe, e), w), heard, w in s.tables.workers, ANSWERS,
              AnswerSent(e, w, In(s.tables.clientToWorker, e.id)));
  }

  /** In every run, the answers and candidates in a worker's outbox are exactly those that
      browsers sent to it while bound to it, in order and once each. */
  lemma {:induction false} AnswersArrive(dedupe: bool, run: seq<Event>, w: Id)
    ensures Only(WorkerOutbox(After(dedupe, run), w), ANSWERS) == AnswersSent(run, w)
  {
    if run == [] {
    } else {
      var front, e := run[..|run| - 1], run[|run| - 1];
      var s := After(dedupe, front);
      AnswersArrive(dedupe, front, w);
      TablesFollowHistory(dedupe, front);
      assert FollowsAt(s.tables, front, w) && FollowsAt(s.tables, front, e.id);
      BoundWorkersAreUp(front, e.id, w);
      StepAnswers(s, dedupe, e, w);
    }
  }

  lemma OffersTold(e: Event, c: Id, bound: Option<Id>, lead: Option<Route>, parted: bool, rooms: map<Id, string>)
    ensures Only(Told(e, c, bound, lead, parted, rooms), OFFERS) == OfferSent(e, c)
  {
    if e.WorkerSends? && (e.m.kind == Offer || e.m.kind == Candidate) {
      OfferIsTold(e.id, e.m, c, rooms);
    } else {
      OthersLackOffers(e, c, bound, lead, parted, rooms);
      NothingOnly(Told(e, c, bound, lead, parted, rooms), OFFERS);
    }
  }

  lemma OfferIsTold(worker: Id, m: Message, c: Id, rooms: map<Id, string>)
    requires m.kind == Offer || m.kind == Candidate
    ensures Only(ToldByWorker(worker, m, c, rooms), OFFERS) == OfferSent(WorkerSends(worker, m), c)
  {
    OnlyOne(Trimmed(m.sessionId) == Some(c), About(m.kind, c, m.data), OFFERS);
  }

  lemma OthersLackOffers(e: Event, c: Id, bound: Option<Id>, lead: Option<Route>, parted: bool,
                         rooms: map<Id, string>)
    requires e.WorkerSends? ==> e.m.kind != Offer && e.m.kind != Candidate
    ensures Lacks(Told(e, c, bound, lead, parted, rooms), OFFERS)
  {
  }

  lemma StepOffers(s: Server, dedupe: bool, e: Event, c: Id)
    requires Possible(s, e)
    ensures Only(ClientOutbox(Step(s, dedupe, e), c), OFFERS)
            == Only(ClientOutbox(s, c), OFFERS) + if c in s.tables.clients then OfferSent(e, c) else []
  {
    var bound, rooms := In(s.tables.clientToWorker, c), Rooms(Step(s, dedupe, e).tables, dedupe);
    var parted := PartedIn(s.pairing, e.id, c);
    StepIsTold(s, dedupe, e, c);
    OffersTold(e, c, bound, Lead(s, e), parted, rooms);
    OnlyGrows(ClientOutbox(s, c), ClientOutbox(Step(s, dedupe, e), c), Told(e, c, bound, Lead(s, e), parted, rooms),
              c in s.tables.clients, OFFERS, OfferSent(e, c));
  }

  /** ... and the offers and candidates in a browser's outbox exactly those that workers sent
      to it while it was there. */
  lemma {:induction false} OffersArrive(dedupe: bool, run: seq<Event>, c: Id)
    requires IsRun(dedupe, run)
    ensures Only(ClientOutbox(After(dedupe, run), c), OFFERS) == OffersSent(run, c)
  {
    if run == [] {
    } else {
      var front, e := run[..|run| - 1], run[|run| - 1];
      OffersArrive(dedupe, front, c);
      TablesFollowHistory(dedupe, front);
      assert FollowsAt(After(dedupe, front).tables, front, c);
      StepOffers(After(dedupe, front), dedupe, e, c);
    }
  }
}
