/** Which workers never learn that a browser has left, over whole runs of the signaling
    server: those that lost their tie to it without being told. */
module Departures {
  import opened Wrappers
  import opened Protocol
  import Pairing
  import Registry
  import Relays
  import SignalServer

  type Server = SignalServer.Server
  type Event = SignalServer.Event
  type Outbound = SignalServer.Outbound

  // ------------------------------------------------------- what one event does

  /** Does the event put an introduction of the client in the worker's outbox? */
  ghost predicate Tells(s: Server, t: Server, client: Id, w: Id) {
    HasNew(Relays.OutboxOf(s, w), Relays.OutboxOf(t, w), o => SignalServer.Introduces(o, client))
  }

  /** ... or the news that the client is gone? */
  ghost predicate Forgets(s: Server, t: Server, client: Id, w: Id) {
    HasNew(Relays.OutboxOf(s, w), Relays.OutboxOf(t, w), o => Relays.Terminates(o, client))
  }

  ghost predicate HasNew(before: seq<Outbound>, after: seq<Outbound>, p: Outbound -> bool) {
    exists k :: |before| <= k < |after| && p(after[k])
  }

  /** Would the worker be told if the client left now? */
  predicate IsTied(s: Server, client: Id, w: Id) {
    Registry.IsBound(s.tables, client, w) || Relays.IsRouted(s, client, w)
  }

  /** The ways to lose a tie to a worker that do not tell it: a client binds to another worker
      or joins another host, its host registers with another worker, or the worker itself
      leaves or is gone already. */
  predicate UntiesSilently(s: Server, e: Event, client: Id, w: Id) {
    || w !in s.tables.workers
    || (e.WorkerLeaves? && e.id == w)
    || (e.BrowserSends? &&
        match ParseBrowserCommand(e.m)
        case Some(command) => CommandUnties(s, e.id, command, client, w)
        case None => false)
  }

  predicate CommandUnties(s: Server, sender: Id, command: BrowserCommand, client: Id, w: Id) {
    match command
    case ForwardToWorker(worker, _, _, binds) => binds && sender == client && worker != w
    case JoinHost(_) => sender == client
    case HostControllers(worker) =>
      var routes := s.pairing.controllerToHost;
      worker != w && client in routes && routes[client].host == sender
    case _ => false
  }

  /** What every event keeps to: outboxes grow; whoever is told of a client is tied to it; and
      a tie is only lost with the news or silently in one of those ways. */
  ghost predicate Moves(s: Server, t: Server, client: Id, w: Id, silently: bool) {
    && Relays.OutboxOf(s, w) <= Relays.OutboxOf(t, w)
    && (Tells(s, t, client, w) ==> IsTied(t, client, w) && Relays.KnowsOf(Relays.OutboxOf(t, w), client))
    && (IsTied(s, client, w) && !IsTied(t, client, w) ==> Forgets(s, t, client, w) || silently)
  }

  lemma SendingAppends(s: Server, worker: Id, m: Message, w: Id)
    ensures var t := SignalServer.SendToWorker(s, worker, m);
            Relays.OutboxOf(t, w)
            == Relays.OutboxOf(s, w) + if worker == w && w in s.tables.workers then [SignalServer.Signal(m)] else []
  {
  }

  lemma SendingMoves(s: Server, u: Server, worker: Id, m: Message, client: Id, w: Id, silently: bool)
    requires Relays.OutboxOf(u, w) == Relays.OutboxOf(s, w)
    requires var t := SignalServer.SendToWorker(u, worker, m);
             var news := worker == w && w in u.tables.workers;
             && (news && SignalServer.Introduces(SignalServer.Signal(m), client) ==> IsTied(t, client, w))
             && (IsTied(s, client, w) && !IsTied(t, client, w) ==>
                   silently || (news && Relays.Terminates(SignalServer.Signal(m), client)))
    ensures Moves(s, SignalServer.SendToWorker(u, worker, m), client, w, silently)
  {
    var t := SignalServer.SendToWorker(u, worker, m);
    var before, after := Relays.OutboxOf(s, w), Relays.OutboxOf(t, w);
    SendingAppends(u, worker, m, w);
    if worker == w && w in u.tables.workers {
      assert after[|before|] == SignalServer.Signal(m);
      Relays.KnowsAfter(before, SignalServer.Signal(m), client);
    }
  }

  lemma NothingSentMoves(s: Server, t: Server, client: Id, w: Id, silently: bool)
    requires Relays.OutboxOf(t, w) == Relays.OutboxOf(s, w)
    requires IsTied(s, client, w) ==> IsTied(t, client, w) || silently
    ensures Moves(s, t, client, w, silently)
  {
  }

  lemma CommandMoves(s: Server, dedupe: bool, sender: Id, command: BrowserCommand, now: nat, code: string,
                     client: Id, w: Id)
    requires command.ForwardToWorker? ==>
               command.event != TerminateSession && (command.bindClient <==>
                 command.event == InitWebrtc || command.event == JoinRoom)
    ensures Moves(s, SignalServer.CommandHandled(s, dedupe, sender, command, now, code), client, w,
                  w !in s.tables.workers || CommandUnties(s, sender, command, client, w))
  {
    var silently := w !in s.tables.workers || CommandUnties(s, sender, command, client, w);
    var t := SignalServer.CommandHandled(s, dedupe, sender, command, now, code);
    match command
    case ForwardToWorker(worker, event, data, binds) =>
      ForwardingMoves(s, sender, worker, event, data, binds, client, w);
    case Terminate(target) => TerminatingMoves(s, sender, target, client, w, silently);
    case JoinHost(text) => JoiningMoves(s, sender, text, now, client, w, silently);
    case HostControllers(worker) => HostingMoves(s, sender, worker, now, code, client, w);
    case SendInput(host, input) => InputMoves(s, sender, host, input, client, w, silently);
    case _ => NothingSentMoves(s, t, client, w, silently);
  }

  lemma ForwardingMoves(s: Server, sender: Id, worker: Id, event: Kind, data: Option<string>, binds: bool,
                        client: Id, w: Id)
    requires event != TerminateSession && (binds <==> event == InitWebrtc || event == JoinRoom)
    ensures Moves(s, SignalServer.Forwarded(s, sender, worker, event, data, binds), client, w,
                  w !in s.tables.workers || (binds && sender == client && worker != w))
  {
    var silently := w !in s.tables.workers || (binds && sender == client && worker != w);
    var m := SignalServer.ToWorker(event, sender, data);
    if binds && worker in s.tables.workers {
      BindingMoves(s, sender, worker, m, client, w);
    } else if !binds && Registry.IsBound(s.tables, sender, worker) {
      SendingMoves(s, s, worker, m, client, w, silently);
    } else {
      NothingSentMoves(s, s, client, w, silently);
    }
  }

  lemma BindingMoves(s: Server, sender: Id, worker: Id, m: Message, client: Id, w: Id)
    requires m.kind != TerminateSession && m.sessionId == Some(sender)
    ensures Moves(s, SignalServer.SendToWorker(s.(tables := Registry.Bound(s.tables, sender, worker)), worker, m),
                  client, w, w !in s.tables.workers || (sender == client && worker != w))
  {
    var bound := s.(tables := Registry.Bound(s.tables, sender, worker));
    SendingMoves(s, bound, worker, m, client, w, w !in s.tables.workers || (sender == client && worker != w));
  }

  lemma TerminatingMoves(s: Server, sender: Id, target: Option<Id>, client: Id, w: Id, silently: bool)
    requires w !in s.tables.workers ==> silently
    ensures Moves(s, SignalServer.SessionTerminated(s, sender, target), client, w, silently)
  {
    var bindings := s.tables.clientToWorker;
    if sender in bindings && (target == None || target == Some(bindings[sender])) {
      var u := s.(tables := s.tables.(clientToWorker := bindings - {sender}));
      SendingMoves(s, u, bindings[sender], SignalServer.ToWorker(TerminateSession, sender, None), client, w, silently);
      assert SignalServer.SessionTerminated(s, sender, target)
          == SignalServer.SendToWorker(u, bindings[sender], SignalServer.ToWorker(TerminateSession, sender, None));
    } else {
      NothingSentMoves(s, s, client, w, silently);
    }
  }

  lemma JoiningMoves(s: Server, sender: Id, text: string, now: nat, client: Id, w: Id, silently: bool)
    requires sender == client ==> silently
    ensures Moves(s, SignalServer.HostJoined(s, sender, text, now), client, w, silently)
  {
    var pruned := Pairing.Pruned(s.pairing, now);
    var t := SignalServer.HostJoined(s, sender, text, now);
    match Pairing.JoinAnswer(s.pairing, text, now)
    case Err(_) => NothingSentMoves(s, t, client, w, silently);
    case Ok(target) =>
      var joined := s.(pairing := Pairing.Joined(pruned, sender, Pairing.Normalize(text)));
      PairingMoves(s, joined, sender, target.host, target.worker, client, w, silently);
  }

  lemma PairingMoves(s: Server, joined: Server, sender: Id, host: Id, worker: Id, client: Id, w: Id, silently: bool)
    requires joined.toWorkers == s.toWorkers && Relays.IsRouted(joined, sender, worker)
    requires IsTied(s, client, w) ==> IsTied(joined, client, w) || silently
    ensures Moves(s, SignalServer.PairingTold(joined, sender, host, worker), client, w, silently)
  {
    var t := SignalServer.SendToClient(joined, sender, SignalServer.ToClient(ControllerJoined, Some(host), None));
    var u := SignalServer.SendToClient(t, host, SignalServer.ToClient(ControllerJoined, Some(sender), None));
    SendingMoves(s, u, worker, SignalServer.ToWorker(JoinRoom, sender, None), client, w, silently);
  }

  lemma HostingMoves(s: Server, sender: Id, worker: Id, now: nat, code: string, client: Id, w: Id)
    ensures Moves(s, SignalServer.HostRegistered(s, sender, worker, now, code), client, w,
                  w !in s.tables.workers || CommandUnties(s, sender, HostControllers(worker), client, w))
  {
    NothingSentMoves(s, SignalServer.HostRegistered(s, sender, worker, now, code), client, w,
                     w !in s.tables.workers || CommandUnties(s, sender, HostControllers(worker), client, w));
  }

  lemma InputMoves(s: Server, sender: Id, host: Id, input: string, client: Id, w: Id, silently: bool)
    ensures Moves(s, SignalServer.InputSent(s, sender, host, input), client, w, silently)
  {
    var routes := s.pairing.controllerToHost;
    if sender in routes && routes[sender].host == host {
      SendingMoves(s, s, routes[sender].worker, SignalServer.ToWorker(Input, sender, Some(input)), client, w, silently);
    } else {
      NothingSentMoves(s, s, client, w, silently);
    }
  }

  // ------------------------------------------------------------------ leaving

  /** Outboxes only grow, and by terminations of others or of the client. */
  ghost predicate GrowsByTerminations(s: Server, t: Server, w: Id) {
    var before, after := Relays.OutboxOf(s, w), Relays.OutboxOf(t, w);
    && before <= after
    && forall k | |before| <= k < |after| :: after[k].Signal? && after[k].m.kind == TerminateSession
  }

  lemma {:induction false} TerminationsAreSent(s: Server, terminations: seq<(Id, Id)>, client: Id, w: Id)
    ensures var t := SignalServer.TerminateAll(s, terminations);
            && GrowsByTerminations(s, t, w)
            && ((w, client) in terminations && w in s.tables.workers ==> Forgets(s, t, client, w))
  {
    if terminations == [] {
    } else {
      var front, last := terminations[..|terminations| - 1], terminations[|terminations| - 1];
      var u := SignalServer.TerminateAll(s, front);
      var t := SignalServer.TerminateAll(s, terminations);
      var before, mid, after := Relays.OutboxOf(s, w), Relays.OutboxOf(u, w), Relays.OutboxOf(t, w);
      TerminationsAreSent(s, front, client, w);
      SignalServer.TerminatingTouchesWorkersOnly(s, front);
      SendingAppends(u, last.0, SignalServer.ToWorker(TerminateSession, last.1, None), w);
      assert terminations == front + [last];
      if (w, client) in front && w in s.tables.workers {
        var k :| |before| <= k < |mid| && Relays.Terminates(mid[k], client);
        assert after[k] == mid[k];
      } else if (w, client) == last && w in s.tables.workers {
        assert Relays.Terminates(after[|mid|], client);
      }
    }
  }

  lemma GoneTells(s: Server, leaver: Id, notifyHost: Option<Id>, client: Id, w: Id)
    ensures var t := SignalServer.BrowserGone(s, leaver, notifyHost);
            && GrowsByTerminations(s, t, w) && t.tables == Registry.ClientUnregistered(s.tables, leaver)
            && t.pairing == Pairing.Cleaned(s.pairing, leaver)
            && (leaver == client && Registry.IsBound(s.tables, client, w) && w in s.tables.workers ==>
                  Forgets(s, t, client, w))
  {
    var u := s.(pairing := Pairing.Cleaned(s.pairing, leaver), tables := Registry.ClientUnregistered(s.tables, leaver));
    if leaver in s.tables.clientToWorker {
      var worker := s.tables.clientToWorker[leaver];
      SendingAppends(u, worker, SignalServer.ToWorker(TerminateSession, leaver, None), w);
      if worker == w && w in s.tables.workers {
        var t := SignalServer.BrowserGone(s, leaver, notifyHost);
        var before, after := Relays.OutboxOf(s, w), Relays.OutboxOf(t, w);
        assert after == before + [SignalServer.Signal(SignalServer.ToWorker(TerminateSession, leaver, None))];
        assert Relays.Terminates(after[|before|], leaver);
      }
    }
  }

  lemma NewStaysNew(s: Server, t: Server, u: Server, client: Id, w: Id)
    requires GrowsByTerminations(s, t, w) && GrowsByTerminations(t, u, w)
    ensures GrowsByTerminations(s, u, w)
    ensures Forgets(s, t, client, w) || Forgets(t, u, client, w) ==> Forgets(s, u, client, w)
  {
    var before, mid, after := Relays.OutboxOf(s, w), Relays.OutboxOf(t, w), Relays.OutboxOf(u, w);
    if Forgets(s, t, client, w) {
      var k :| |before| <= k < |mid| && Relays.Terminates(mid[k], client);
      assert Relays.Terminates(after[k], client);
    }
  }

  lemma LeavingTells(s: Server, leaver: Id, r: Pairing.Cleanup, client: Id, w: Id)
    ensures
      var v := SignalServer.BrowserCleaned(s, leaver, r);
      && GrowsByTerminations(s, v, w) && v.tables == Registry.ClientUnregistered(s.tables, leaver)
      && v.pairing == Pairing.Cleaned(s.pairing, leaver)
      && (w in s.tables.workers ==>
            (leaver == client && Registry.IsBound(s.tables, client, w)) || (w, client) in r.workerTerminations ==>
              Forgets(s, v, client, w))
  {
    var t := SignalServer.BrowserGone(s, leaver, r.notifyHost);
    var left := SignalServer.ToClient(ControllerLeft, Some(leaver), None);
    var u := SignalServer.NotifyAll(t, r.notifyControllers, left);
    GoneTells(s, leaver, r.notifyHost, client, w);
    SignalServer.NotifyingTouchesClientsOnly(t, r.notifyControllers, left);
    SignalServer.TerminatingTouchesWorkersOnly(u, r.workerTerminations);
    TerminationsAreSent(u, r.workerTerminations, client, w);
    NewStaysNew(s, u, SignalServer.TerminateAll(u, r.workerTerminations), client, w);
  }

  lemma LeavingMoves(s: Server, leaver: Id, r: Pairing.Cleanup, client: Id, w: Id)
    requires Pairing.Reports(s.pairing, leaver, r)
    ensures Moves(s, SignalServer.BrowserCleaned(s, leaver, r), client, w, w !in s.tables.workers)
  {
    LeavingTells(s, leaver, r, client, w);
    Pairing.OneTerminationPerRemovedRoute(s.pairing, leaver, r);
    LeavingTies(s, SignalServer.BrowserCleaned(s, leaver, r), leaver, r.workerTerminations, client, w);
  }

  lemma LeavingTies(s: Server, t: Server, leaver: Id, terminations: seq<(Id, Id)>, client: Id, w: Id)
    requires GrowsByTerminations(s, t, w)
    requires t.tables == Registry.ClientUnregistered(s.tables, leaver)
    requires t.pairing == Pairing.Cleaned(s.pairing, leaver)
    requires w in s.tables.workers ==>
               (leaver == client && Registry.IsBound(s.tables, client, w)) || (w, client) in terminations ==>
                 Forgets(s, t, client, w)
    requires Relays.IsRouted(s, client, w) && client !in t.pairing.controllerToHost ==> (w, client) in terminations
    ensures Moves(s, t, client, w, w !in s.tables.workers)
  {
    TiesAfterLeaving(s, t, leaver, client, w);
  }

  lemma TiesAfterLeaving(s: Server, t: Server, leaver: Id, client: Id, w: Id)
    requires t.tables == Registry.ClientUnregistered(s.tables, leaver)
    requires t.pairing == Pairing.Cleaned(s.pairing, leaver)
    ensures Registry.IsBound(s.tables, client, w) && leaver != client ==> Registry.IsBound(t.tables, client, w)
    ensures Relays.IsRouted(s, client, w) && client in t.pairing.controllerToHost ==> Relays.IsRouted(t, client, w)
  {
  }

  lemma StepMoves(s: Server, dedupe: bool, e: Event, client: Id, w: Id)
    requires SignalServer.Possible(s, e)
    ensures Moves(s, SignalServer.Step(s, dedupe, e), client, w, UntiesSilently(s, e, client, w))
  {
    var t, silently := SignalServer.Step(s, dedupe, e), UntiesSilently(s, e, client, w);
    match e
    case BrowserSends(id, m, now, code) =>
      ForwardsAsSent(m);
      ForwardsNoTermination(m);
      match ParseBrowserCommand(m) {
        case None => NothingSentMoves(s, t, client, w, silently);
        case Some(command) => CommandMoves(s, dedupe, id, command, now, code, client, w);
      }
    case BrowserLeaves(id, cleanup) => LeavingMoves(s, id, cleanup, client, w);
    case WorkerSends(id, m) =>
      WorkersKeepTies(s, dedupe, id, m);
      NothingSentMoves(s, t, client, w, silently);
    case _ => NothingSentMoves(s, t, client, w, silently);
  }

  lemma ForwardsNoTermination(m: Message)
    ensures var command := ParseBrowserCommand(m);
            command != None && command.value.ForwardToWorker? ==> command.value.event != TerminateSession
  {
  }

  lemma WorkersKeepTies(s: Server, dedupe: bool, worker: Id, m: Message)
    ensures var t := SignalServer.WorkerHandled(s, dedupe, worker, m);
            && t.toWorkers == s.toWorkers && t.pairing == s.pairing
            && t.tables.clientToWorker == s.tables.clientToWorker
  {
  }

  // ------------------------------------------------------------------ whole runs

  /** The servers before, between and after the events of a run. */
  ghost function Trace(dedupe: bool, run: seq<Event>): (states: seq<Server>)
    ensures |states| == |run| + 1 && states[|run|] == SignalServer.After(dedupe, run)
  {
    if run == [] then [SignalServer.After(dedupe, run)]
    else Trace(dedupe, run[..|run| - 1]) + [SignalServer.After(dedupe, run)]
  }

  ghost predicate IsTrace(states: seq<Server>, run: seq<Event>, client: Id, w: Id) {
    && |states| == |run| + 1 && Relays.OutboxOf(states[0], w) == []
    && forall i | 0 <= i < |run| ::
         Moves(states[i], states[i + 1], client, w, UntiesSilently(states[i], run[i], client, w))
  }

  lemma {:induction false} TraceMoves(dedupe: bool, run: seq<Event>, client: Id, w: Id)
    requires SignalServer.IsRun(dedupe, run)
    ensures IsTrace(Trace(dedupe, run), run, client, w)
  {
    if run == [] {
    } else {
      var n := |run| - 1;
      TraceMoves(dedupe, run[..n], client, w);
      StepMoves(SignalServer.After(dedupe, run[..n]), dedupe, run[n], client, w);
      OneMoreMoves(dedupe, run, client, w);
    }
  }

  lemma OneMoreMoves(dedupe: bool, run: seq<Event>, client: Id, w: Id)
    requires run != []
    requires var front, e := run[..|run| - 1], run[|run| - 1];
             var s := SignalServer.After(dedupe, front);
             && IsTrace(Trace(dedupe, front), front, client, w)
             && Moves(s, SignalServer.Step(s, dedupe, e), client, w, UntiesSilently(s, e, client, w))
    ensures IsTrace(Trace(dedupe, run), run, client, w)
  {
    var front, e := run[..|run| - 1], run[|run| - 1];
    assert run == front + [e];
    AppendMoves(Trace(dedupe, front), front, e, SignalServer.After(dedupe, run), client, w);
  }

  lemma AppendMoves(states: seq<Server>, run: seq<Event>, e: Event, t: Server, client: Id, w: Id)
    requires IsTrace(states, run, client, w)
    requires Moves(states[|run|], t, client, w, UntiesSilently(states[|run|], e, client, w))
    ensures IsTrace(states + [t], run + [e], client, w)
  {
    var longer, events := states + [t], run + [e];
    forall i | 0 <= i < |events|
      ensures Moves(longer[i], longer[i + 1], client, w, UntiesSilently(longer[i], events[i], client, w))
    {
      if i < |run| {
        assert longer[i] == states[i] && longer[i + 1] == states[i + 1] && events[i] == run[i];
      } else {
        assert longer[i] == states[|run|] && longer[i + 1] == t && events[i] == e;
      }
    }
  }

  ghost predicate KnowsAt(states: seq<Server>, i: nat, client: Id, w: Id)
    requires i < |states|
  {
    Relays.KnowsOf(Relays.OutboxOf(states[i], w), client)
  }

  /** None of the events from i to j tells the worker that the client is gone. */
  ghost predicate NotForgotten(states: seq<Server>, i: nat, j: nat, client: Id, w: Id)
    requires j < |states|
  {
    forall k | i <= k < j :: !Forgets(states[k], states[k + 1], client, w)
  }

  ghost predicate NotTied(states: seq<Server>, i: nat, j: nat, client: Id, w: Id)
    requires j < |states|
  {
    forall k | i <= k <= j :: !IsTied(states[k], client, w)
  }

  /** With event i the worker is told of the client, and with none of those behind it that
      the client is gone; with event m, later, the client's tie to it is lost in a way that
      does not tell it, for good. */
  ghost predicate LosesTie(states: seq<Server>, run: seq<Event>, i: nat, m: nat, client: Id, w: Id) {
    && i < m < |run| && |states| == |run| + 1
    && Tells(states[i], states[i + 1], client, w) && NotForgotten(states, i + 1, |run|, client, w)
    && IsTied(states[m], client, w) && NotTied(states, m + 1, |run|, client, w)
    && UntiesSilently(states[m], run[m], client, w)
  }

  ghost predicate LosesItsTie(states: seq<Server>, run: seq<Event>, client: Id, w: Id) {
    exists i: nat, m: nat :: LosesTie(states, run, i, m, client, w)
  }

  /** What the new part of an outbox makes of what the worker knows. */
  lemma {:induction false} KnowsGrows(before: seq<Outbound>, after: seq<Outbound>, client: Id)
    requires before <= after
    ensures
      var told := HasNew(before, after, o => SignalServer.Introduces(o, client));
      var gone := HasNew(before, after, o => Relays.Terminates(o, client));
      && (Relays.KnowsOf(after, client) && !told ==> Relays.KnowsOf(before, client) && !gone)
      && (Relays.KnowsOf(before, client) && !gone ==> Relays.KnowsOf(after, client))
    decreases |after|
  {
    if before == after {
    } else {
      var n := |after| - 1;
      var mid := after[..n];
      KnowsGrows(before, mid, client);
      assert after == mid + [after[n]];
      Relays.KnowsAfter(mid, after[n], client);
      assert forall k | |before| <= k < n :: mid[k] == after[k];
    }
  }

  /** A worker that knows of a client was told by some event, and not since that it is gone. */
  lemma {:induction false} WasTold(states: seq<Server>, run: seq<Event>, j: nat, client: Id, w: Id) returns (i: nat)
    requires IsTrace(states, run, client, w) && j <= |run| && KnowsAt(states, j, client, w)
    ensures i < j && Tells(states[i], states[i + 1], client, w) && NotForgotten(states, i + 1, j, client, w)
  {
    if j == 0 {
      assert false;
    } else {
      var s, t := states[j - 1], states[j];
      assert Moves(s, t, client, w, UntiesSilently(s, run[j - 1], client, w));
      KnowsGrows(Relays.OutboxOf(s, w), Relays.OutboxOf(t, w), client);
      if Tells(s, t, client, w) {
        i := j - 1;
      } else {
        i := WasTold(states, run, j - 1, client, w);
      }
    }
  }

  lemma {:induction false} StillKnows(states: seq<Server>, run: seq<Event>, i: nat, j: nat, client: Id, w: Id)
    requires IsTrace(states, run, client, w) && i <= j <= |run|
    requires KnowsAt(states, i, client, w) && NotForgotten(states, i, j, client, w)
    ensures KnowsAt(states, j, client, w)
    decreases j
  {
    if i == j {
    } else {
      StillKnows(states, run, i, j - 1, client, w);
      var s, t := states[j - 1], states[j];
      assert Moves(s, t, client, w, UntiesSilently(s, run[j - 1], client, w));
      KnowsGrows(Relays.OutboxOf(s, w), Relays.OutboxOf(t, w), client);
    }
  }

  /** A tie that is there before event i and gone at the end is lost for good at some event. */
  lemma {:induction false} TieIsLost(states: seq<Server>, i: nat, j: nat, client: Id, w: Id) returns (m: nat)
    requires i <= j < |states| && IsTied(states[i], client, w) && !IsTied(states[j], client, w)
    ensures i <= m < j && IsTied(states[m], client, w) && NotTied(states, m + 1, j, client, w)
    decreases j
  {
    if IsTied(states[j - 1], client, w) {
      m := j - 1;
    } else {
      m := TieIsLost(states, i, j - 1, client, w);
    }
  }

  lemma UntoldExactlyWhen(states: seq<Server>, run: seq<Event>, client: Id, w: Id)
    requires IsTrace(states, run, client, w)
    ensures KnowsAt(states, |run|, client, w) && !IsTied(states[|run|], client, w)
            <==> LosesItsTie(states, run, client, w)
  {
    if KnowsAt(states, |run|, client, w) && !IsTied(states[|run|], client, w) {
      var i := WasTold(states, run, |run|, client, w);
      assert Moves(states[i], states[i + 1], client, w, UntiesSilently(states[i], run[i], client, w));
      var m := TieIsLost(states, i + 1, |run|, client, w);
      assert Moves(states[m], states[m + 1], client, w, UntiesSilently(states[m], run[m], client, w));
      assert LosesTie(states, run, i, m, client, w);
    }
    forall i: nat, m: nat | LosesTie(states, run, i, m, client, w)
      ensures KnowsAt(states, |run|, client, w) && !IsTied(states[|run|], client, w)
    {
      assert Moves(states[i], states[i + 1], client, w, UntiesSilently(states[i], run[i], client, w));
      StillKnows(states, run, i + 1, |run|, client, w);
    }
  }

  /** In every run that ends with a browser leaving, a worker that is still there goes on
      knowing of it exactly when it was told of the browser, and the browser then lost its tie
      to the worker for good by binding to another worker, joining another host or its host's
      registering with another worker, and the worker was never told that it is gone. */
  lemma LeftUntoldExactlyWhen(dedupe: bool, run: seq<Event>, client: Id, r: Pairing.Cleanup, w: Id)
    requires SignalServer.IsRun(dedupe, run + [SignalServer.BrowserLeaves(client, r)])
    requires w in SignalServer.After(dedupe, run).tables.workers
    ensures
      var t := SignalServer.After(dedupe, run + [SignalServer.BrowserLeaves(client, r)]);
      Relays.KnowsOf(Relays.OutboxOf(t, w), client) <==> LosesItsTie(Trace(dedupe, run), run, client, w)
  {
    var e := SignalServer.BrowserLeaves(client, r);
    assert (run + [e])[..|run|] == run;
    TraceMoves(dedupe, run, client, w);
    UntoldExactlyWhen(Trace(dedupe, run), run, client, w);
    Relays.LeavingIsToldExactlyWhen(dedupe, run, client, r, w);
  }
}
