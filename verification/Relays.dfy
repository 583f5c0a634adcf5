/** What workers hear of browsers over whole runs of the signaling server: who sent what is
    relayed, and which workers learn that a browser has left. */
module Relays {
  import opened Wrappers
  import opened Protocol
  import Pairing
  import Registry
  import SignalServer
  import Text

  type Server = SignalServer.Server
  type Event = SignalServer.Event
  type Outbound = SignalServer.Outbound

  function OutboxOf(s: Server, worker: Id): seq<Outbound> {
    SignalServer.Outbox(s.toWorkers, worker)
  }

  // ------------------------------------------------------ answers and candidates

  /** Is o what a browser sent with event e, under that browser's id? */
  predicate IsRelayOf(o: Outbound, e: Event) {
    && e.BrowserSends? && o.Signal?
    && o.m == SignalServer.ToWorker(e.m.kind, e.id, e.m.data)
  }

  /** Every answer or candidate beyond `before` is a relay of e. */
  ghost predicate GrowsByRelays(before: seq<Outbound>, after: seq<Outbound>, e: Event) {
    && before <= after
    && forall k | |before| <= k < |after| && SignalServer.IsAnswerOrCandidate(after[k]) :: IsRelayOf(after[k], e)
  }

  lemma StepRelays(s: Server, dedupe: bool, e: Event, w: Id)
    ensures GrowsByRelays(OutboxOf(s, w), OutboxOf(SignalServer.Step(s, dedupe, e), w), e)
  {
    if e.BrowserSends? {
      MessageRelays(s, dedupe, e, w);
    } else {
      SignalServer.OnlyBrowsersSendAnswers(s, dedupe, e, w);
    }
  }

  lemma MessageRelays(s: Server, dedupe: bool, e: Event, w: Id)
    requires e.BrowserSends?
    ensures GrowsByRelays(OutboxOf(s, w), OutboxOf(SignalServer.Step(s, dedupe, e), w), e)
  {
    ForwardsAsSent(e.m);
    match ParseBrowserCommand(e.m)
    case None =>
    case Some(command) => CommandRelays(s, dedupe, e, command, w);
  }

  lemma CommandRelays(s: Server, dedupe: bool, e: Event, command: BrowserCommand, w: Id)
    requires e.BrowserSends?
    requires command.ForwardToWorker? ==> command.event == e.m.kind && command.data == e.m.data
    ensures
      var t := SignalServer.CommandHandled(s, dedupe, e.id, command, e.now, e.code);
      GrowsByRelays(OutboxOf(s, w), OutboxOf(t, w), e)
  {
    match command
    case ForwardToWorker(worker, event, data, binds) => ForwardingRelays(s, e, worker, binds, w);
    case JoinHost(text) => JoiningRelays(s, e, text, w);
    case Terminate(target) => TerminatingRelays(s, e, target, w);
    case SendInput(host, input) => InputRelays(s, e, host, input, w);
    case _ =>
  }

  lemma TerminatingRelays(s: Server, e: Event, target: Option<Id>, w: Id)
    requires e.BrowserSends?
    ensures GrowsByRelays(OutboxOf(s, w), OutboxOf(SignalServer.SessionTerminated(s, e.id, target), w), e)
  {
  }

  lemma InputRelays(s: Server, e: Event, host: Id, input: string, w: Id)
    requires e.BrowserSends?
    ensures GrowsByRelays(OutboxOf(s, w), OutboxOf(SignalServer.InputSent(s, e.id, host, input), w), e)
  {
  }

  lemma ForwardingRelays(s: Server, e: Event, worker: Id, binds: bool, w: Id)
    requires e.BrowserSends?
    ensures GrowsByRelays(OutboxOf(s, w),
                          OutboxOf(SignalServer.Forwarded(s, e.id, worker, e.m.kind, e.m.data, binds), w), e)
  {
  }

  lemma JoiningRelays(s: Server, e: Event, text: string, w: Id)
    requires e.BrowserSends?
    ensures GrowsByRelays(OutboxOf(s, w), OutboxOf(SignalServer.HostJoined(s, e.id, text, e.now), w), e)
  {
    match Pairing.JoinAnswer(s.pairing, text, e.now)
    case Err(_) =>
    case Ok(target) =>
      var joined := Pairing.Joined(Pairing.Pruned(s.pairing, e.now), e.id, Pairing.Normalize(text));
      PairingRelays(s.(pairing := joined), e, target.host, target.worker, w);
  }

  lemma PairingRelays(s: Server, e: Event, host: Id, worker: Id, w: Id)
    requires e.BrowserSends?
    ensures GrowsByRelays(OutboxOf(s, w), OutboxOf(SignalServer.PairingTold(s, e.id, host, worker), w), e)
  {
  }

  ghost predicate IsRelayed(run: seq<Event>, o: Outbound) {
    exists j | 0 <= j < |run| :: IsRelayOf(o, run[j])
  }

  lemma {:induction false} AnswersAreRelayed(dedupe: bool, run: seq<Event>, w: Id, k: nat)
    requires k < |OutboxOf(SignalServer.After(dedupe, run), w)|
    requires SignalServer.IsAnswerOrCandidate(OutboxOf(SignalServer.After(dedupe, run), w)[k])
    ensures IsRelayed(run, OutboxOf(SignalServer.After(dedupe, run), w)[k])
  {
    if run == [] {
    } else {
      var front, e := run[..|run| - 1], run[|run| - 1];
      var before := OutboxOf(SignalServer.After(dedupe, front), w);
      StepRelays(SignalServer.After(dedupe, front), dedupe, e, w);
      if k < |before| {
        AnswersAreRelayed(dedupe, front, w, k);
        var j :| 0 <= j < |front| && IsRelayOf(before[k], front[j]);
        assert run[j] == front[j];
      }
    }
  }

  /** In every run, each answer or candidate in a worker's outbox is one that some browser
      sent in that run, stamped with that browser's own id, and comes after an initwebrtc or
      joinRoom for that id. */
  lemma AnswersAreStampedAndIntroduced(dedupe: bool, run: seq<Event>, w: Id, k: nat)
    requires SignalServer.IsRun(dedupe, run) && k < |OutboxOf(SignalServer.After(dedupe, run), w)|
    requires SignalServer.IsAnswerOrCandidate(OutboxOf(SignalServer.After(dedupe, run), w)[k])
    ensures
      var out := OutboxOf(SignalServer.After(dedupe, run), w);
      exists j | 0 <= j < |run| ::
        IsRelayOf(out[k], run[j]) && SignalServer.HasIntroduction(out[..k], run[j].id)
  {
    SignalServer.RunsKeepInvariant(dedupe, run);
    AnswersAreRelayed(dedupe, run, w, k);
    var out := OutboxOf(SignalServer.After(dedupe, run), w);
    assert SignalServer.Introduced(out);
    var j :| 0 <= j < |run| && IsRelayOf(out[k], run[j]);
    assert SignalServer.HasIntroduction(out[..k], run[j].id);
  }

  // ------------------------------------------------------------------ departures

  predicate Terminates(o: Outbound, client: Id) {
    o.Signal? && o.m.kind == TerminateSession && o.m.sessionId == Some(client)
  }

  /** Was the worker told of the client, and not since that the client is gone? */
  predicate KnowsOf(out: seq<Outbound>, client: Id) {
    out != [] &&
    var last := out[|out| - 1];
    SignalServer.Introduces(last, client) || (!Terminates(last, client) && KnowsOf(out[..|out| - 1], client))
  }

  lemma KnowsAfter(out: seq<Outbound>, o: Outbound, client: Id)
    ensures KnowsOf(out + [o], client)
            <==> SignalServer.Introduces(o, client) || (!Terminates(o, client) && KnowsOf(out, client))
  {
    assert (out + [o])[..|out|] == out;
  }

  lemma TerminateForgets(s: Server, worker: Id, client: Id, w: Id, c: Id)
    ensures
      var t := SignalServer.SendToWorker(s, worker, SignalServer.ToWorker(TerminateSession, client, None));
      KnowsOf(OutboxOf(t, w), c)
      <==> KnowsOf(OutboxOf(s, w), c) && !(worker == w && client == c && w in s.tables.workers)
  {
    KnowsAfter(OutboxOf(s, w), SignalServer.Signal(SignalServer.ToWorker(TerminateSession, client, None)), c);
  }

  lemma {:induction false} TerminationsForget(s: Server, terminations: seq<(Id, Id)>, w: Id, c: Id)
    ensures KnowsOf(OutboxOf(SignalServer.TerminateAll(s, terminations), w), c)
            <==> KnowsOf(OutboxOf(s, w), c) && !((w, c) in terminations && w in s.tables.workers)
  {
    if terminations == [] {
    } else {
      var front, last := terminations[..|terminations| - 1], terminations[|terminations| - 1];
      TerminationsForget(s, front, w, c);
      SignalServer.TerminatingTouchesWorkersOnly(s, front);
      TerminateForgets(SignalServer.TerminateAll(s, front), last.0, last.1, w, c);
      assert terminations == front + [last];
    }
  }

  /** Is the worker the one its controller route names? */
  predicate IsRouted(s: Server, client: Id, worker: Id) {
    client in s.pairing.controllerToHost && s.pairing.controllerToHost[client].worker == worker
  }

  lemma DepartureForgets(s: Server, client: Id, r: Pairing.Cleanup, w: Id)
    requires Pairing.Reports(s.pairing, client, r) && w in s.tables.workers
    ensures KnowsOf(OutboxOf(SignalServer.BrowserCleaned(s, client, r), w), client)
            <==> KnowsOf(OutboxOf(s, w), client)
                 && !Registry.IsBound(s.tables, client, w) && !IsRouted(s, client, w)
  {
    var t := SignalServer.BrowserGone(s, client, r.notifyHost);
    var left := SignalServer.ToClient(ControllerLeft, Some(client), None);
    var u := SignalServer.NotifyAll(t, r.notifyControllers, left);
    GoneForgets(s, client, r.notifyHost, w);
    SignalServer.NotifyingTouchesClientsOnly(t, r.notifyControllers, left);
    TerminationsForget(u, r.workerTerminations, w, client);
    Pairing.OneTerminationPerRemovedRoute(s.pairing, client, r);
  }

  lemma GoneForgets(s: Server, client: Id, notifyHost: Option<Id>, w: Id)
    requires w in s.tables.workers
    ensures var t := SignalServer.BrowserGone(s, client, notifyHost);
            && w in t.tables.workers
            && (KnowsOf(OutboxOf(t, w), client)
                <==> KnowsOf(OutboxOf(s, w), client) && !Registry.IsBound(s.tables, client, w))
  {
    var t := s.(pairing := Pairing.Cleaned(s.pairing, client), tables := Registry.ClientUnregistered(s.tables, client));
    if client in s.tables.clientToWorker {
      TerminateForgets(t, s.tables.clientToWorker[client], client, w, client);
    }
  }

  /** In every run that ends with a browser leaving, a worker that is still there goes on
      knowing of that browser exactly when it did before, and the browser was neither bound
      to it nor routed to it as a controller. */
  lemma LeavingIsToldExactlyWhen(dedupe: bool, run: seq<Event>, client: Id, r: Pairing.Cleanup, w: Id)
    requires SignalServer.IsRun(dedupe, run + [SignalServer.BrowserLeaves(client, r)])
    requires w in SignalServer.After(dedupe, run).tables.workers
    ensures
      var s := SignalServer.After(dedupe, run);
      var t := SignalServer.After(dedupe, run + [SignalServer.BrowserLeaves(client, r)]);
      KnowsOf(OutboxOf(t, w), client)
      <==> KnowsOf(OutboxOf(s, w), client) && !Registry.IsBound(s.tables, client, w) && !IsRouted(s, client, w)
  {
    var e := SignalServer.BrowserLeaves(client, r);
    assert (run + [e])[..|run|] == run;
    DepartureForgets(SignalServer.After(dedupe, run), client, r, w);
  }

  // ----------------------------------------------------- a worker that is not told

  function InitFor(client: Id, worker: Id): Event {
    SignalServer.BrowserSends(client, Message(InitWebrtc, None, Some(worker)), 0, "")
  }

  lemma InitBinds(s: Server, dedupe: bool, client: Id, worker: Id)
    requires worker in s.tables.workers && worker != "" && Text.Trim(worker) == worker
    ensures
      var t := SignalServer.Step(s, dedupe, InitFor(client, worker));
      && t.tables == Registry.Bound(s.tables, client, worker) && t.pairing == s.pairing
      && KnowsOf(OutboxOf(t, worker), client)
      && forall w | w != worker :: OutboxOf(t, w) == OutboxOf(s, w)
  {
    KnowsAfter(OutboxOf(s, worker), SignalServer.Signal(SignalServer.ToWorker(InitWebrtc, client, None)), client);
  }

  lemma OneMore(dedupe: bool, run: seq<Event>, e: Event) returns (longer: seq<Event>)
    requires SignalServer.IsRun(dedupe, run) && SignalServer.Possible(SignalServer.After(dedupe, run), e)
    ensures longer == run + [e] && SignalServer.IsRun(dedupe, longer)
    ensures SignalServer.After(dedupe, longer) == SignalServer.Step(SignalServer.After(dedupe, run), dedupe, e)
  {
    longer := run + [e];
    assert longer[..|run|] == run;
  }

  lemma TwoWorkersConnect(dedupe: bool, a: Id, b: Id) returns (run: seq<Event>)
    requires a != b
    ensures SignalServer.IsRun(dedupe, run)
    ensures var s := SignalServer.After(dedupe, run);
            a in s.tables.workers && b in s.tables.workers && s.pairing == Pairing.Maps(map[], map[], map[])
  {
    run := OneMore(dedupe, [], SignalServer.WorkerConnects(a));
    run := OneMore(dedupe, run, SignalServer.WorkerConnects(b));
  }

  /** Reachable: a browser that set up a session with worker a and then one with worker b is
      bound to b only, so a is not told when it leaves. */
  lemma RebindingLeavesTheFirstUntold(dedupe: bool, client: Id, a: Id, b: Id) returns (run: seq<Event>)
    requires a != b && a != "" && b != "" && Text.Trim(a) == a && Text.Trim(b) == b
    ensures SignalServer.IsRun(dedupe, run) && run != []
    ensures run[|run| - 1] == SignalServer.BrowserLeaves(client, Pairing.Cleanup(None, [], []))
    ensures var t := SignalServer.After(dedupe, run);
            KnowsOf(OutboxOf(t, a), client) && !KnowsOf(OutboxOf(t, b), client)
  {
    run := TwoWorkersConnect(dedupe, a, b);
    InitBinds(SignalServer.After(dedupe, run), dedupe, client, a);
    run := OneMore(dedupe, run, InitFor(client, a));
    InitBinds(SignalServer.After(dedupe, run), dedupe, client, b);
    run := OneMore(dedupe, run, InitFor(client, b));
    run := LeavesUnpaired(dedupe, run, client, a, b);
  }

  lemma LeavesUnpaired(dedupe: bool, run: seq<Event>, client: Id, a: Id, b: Id) returns (longer: seq<Event>)
    requires SignalServer.IsRun(dedupe, run) && a != b
    requires var s := SignalServer.After(dedupe, run);
             && s.pairing.controllerToHost == map[] && a in s.tables.workers && b in s.tables.workers
             && Registry.IsBound(s.tables, client, b) && KnowsOf(OutboxOf(s, a), client)
    ensures SignalServer.IsRun(dedupe, longer) && longer != []
    ensures longer[|longer| - 1] == SignalServer.BrowserLeaves(client, Pairing.Cleanup(None, [], []))
    ensures var t := SignalServer.After(dedupe, longer);
            KnowsOf(OutboxOf(t, a), client) && !KnowsOf(OutboxOf(t, b), client)
  {
    var nothing := Pairing.Cleanup(None, [], []);
    var s := SignalServer.After(dedupe, run);
    NothingToReport(s.pairing, client);
    DepartureForgets(s, client, nothing, a);
    DepartureForgets(s, client, nothing, b);
    longer := OneMore(dedupe, run, SignalServer.BrowserLeaves(client, nothing));
  }

  lemma NothingToReport(m: Pairing.Maps, client: Id)
    requires m.controllerToHost == map[]
    ensures Pairing.Reports(m, client, Pairing.Cleanup(None, [], []))
  {
    assert Pairing.RoutesOf(m.controllerToHost, client) == {};
  }
}
