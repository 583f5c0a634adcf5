/** Pairing as browsers see it: what a run of the whole signaling server amounts to for the
    join-code tables, and so when a phone that types a code gets through. */
module PairingLink {
  import opened Wrappers
  import opened Protocol
  import Pairing
  import Registry
  import SignalServer
  import Text

  type Server = SignalServer.Server
  type Event = SignalServer.Event

  /** The time of the last message from a browser. */
  function Clock(run: seq<Event>): nat {
    if run == [] then 0
    else if run[|run| - 1].BrowserSends? then run[|run| - 1].now
    else Clock(run[..|run| - 1])
  }

  /** The clock never goes back. */
  ghost predicate InTimeOrder(run: seq<Event>) {
    run == [] ||
    var front, e := run[..|run| - 1], run[|run| - 1];
    InTimeOrder(front) && (e.BrowserSends? ==> Clock(front) <= e.now)
  }

  /** What a server event does to the pairing tables, if anything. Registering as a host
      takes a binding to the worker named. */
  function PairingEvents(s: Server, e: Event, clock: nat): seq<Pairing.Event> {
    match e
    case BrowserSends(id, m, now, code) =>
      (match ParseBrowserCommand(m)
       case Some(HostControllers(worker)) =>
         if Registry.IsBound(s.tables, id, worker) then [Pairing.Register(now, id, worker, code)] else []
       case Some(JoinHost(text)) => [Pairing.Join(now, id, text)]
       case _ => [])
    case BrowserLeaves(id, _) => [Pairing.CleanUp(clock, id)]
    case _ => []
  }

  ghost function PairingRun(dedupe: bool, run: seq<Event>): seq<Pairing.Event> {
    if run == [] then []
    else
      var front := run[..|run| - 1];
      PairingRun(dedupe, front) + PairingEvents(SignalServer.After(dedupe, front), run[|run| - 1], Clock(front))
  }

  function Applied(m: Pairing.Maps, events: seq<Pairing.Event>): Pairing.Maps
    requires |events| <= 1
  {
    if events == [] then m else Pairing.Step(m, events[0])
  }

  lemma PairingAfterStep(s: Server, dedupe: bool, e: Event, clock: nat)
    ensures SignalServer.Step(s, dedupe, e).pairing == Applied(s.pairing, PairingEvents(s, e, clock))
  {
    match e
    case BrowserSends(id, m, now, code) => PairingAfterMessage(s, dedupe, id, m, now, code, clock);
    case BrowserLeaves(id, cleanup) => PairingAfterLeaving(s, id, cleanup);
    case _ =>
  }

  lemma PairingAfterMessage(s: Server, dedupe: bool, client: Id, m: Message, now: nat, code: string, clock: nat)
    ensures SignalServer.BrowserHandled(s, dedupe, client, m, now, code).pairing
            == Applied(s.pairing, PairingEvents(s, SignalServer.BrowserSends(client, m, now, code), clock))
  {
    match ParseBrowserCommand(m)
    case Some(JoinHost(text)) =>
      assert SignalServer.HostJoined(s, client, text, now).pairing
             == Pairing.Step(s.pairing, Pairing.Join(now, client, text));
    case _ =>
  }

  lemma PairingAfterLeaving(s: Server, client: Id, r: Pairing.Cleanup)
    ensures SignalServer.BrowserCleaned(s, client, r).pairing == Pairing.Cleaned(s.pairing, client)
  {
    var t := SignalServer.BrowserGone(s, client, r.notifyHost);
    var left := SignalServer.ToClient(ControllerLeft, Some(client), None);
    SignalServer.NotifyingTouchesClientsOnly(t, r.notifyControllers, left);
    var u := SignalServer.NotifyAll(t, r.notifyControllers, left);
    SignalServer.TerminatingTouchesWorkersOnly(u, r.workerTerminations);
  }

  function TimeOf(e: Event, clock: nat): nat {
    if e.BrowserSends? then e.now else clock
  }

  lemma EventsArePossible(s: Server, e: Event, clock: nat)
    requires SignalServer.Possible(s, e) && PairingEvents(s, e, clock) != []
    ensures var p := PairingEvents(s, e, clock)[0];
            && p.at == TimeOf(e, clock)
            && (p.Register? ==> Pairing.MayGrant(Pairing.Pruned(s.pairing, p.at), p.host, p.code))
  {
  }

  /** p is a pairing run that leads to these tables, with nothing after this time. */
  ghost predicate LeadsTo(p: seq<Pairing.Event>, m: Pairing.Maps, clock: nat) {
    Pairing.IsRun(p) && Pairing.After(p) == m && (p != [] ==> p[|p| - 1].at <= clock)
  }

  lemma PairingRunGrows(s: Server, e: Event, clock: nat, p: seq<Pairing.Event>)
    requires SignalServer.Possible(s, e) && clock <= TimeOf(e, clock) && LeadsTo(p, s.pairing, clock)
    ensures var more := PairingEvents(s, e, clock);
            LeadsTo(p + more, Applied(s.pairing, more), TimeOf(e, clock))
  {
    var more := PairingEvents(s, e, clock);
    if more == [] {
      assert p + more == p;
    } else {
      EventsArePossible(s, e, clock);
      var q := Pairing.ExtendRun(p, more[0]);
      assert more == [more[0]];
    }
  }

  /** The server's pairing tables are those of a pairing run: whatever results hold of all
      pairing runs hold at the server. */
  lemma {:induction false} ServerRunsArePairingRuns(dedupe: bool, run: seq<Event>)
    requires SignalServer.IsRun(dedupe, run) && InTimeOrder(run)
    ensures LeadsTo(PairingRun(dedupe, run), SignalServer.After(dedupe, run).pairing, Clock(run))
  {
    if run == [] {
    } else {
      ServerRunsArePairingRuns(dedupe, run[..|run| - 1]);
      OneEventMore(dedupe, run);
    }
  }

  lemma OneEventMore(dedupe: bool, run: seq<Event>)
    requires run != [] && InTimeOrder(run)
    requires var front := run[..|run| - 1];
             && SignalServer.Possible(SignalServer.After(dedupe, front), run[|run| - 1])
             && LeadsTo(PairingRun(dedupe, front), SignalServer.After(dedupe, front).pairing, Clock(front))
    ensures LeadsTo(PairingRun(dedupe, run), SignalServer.After(dedupe, run).pairing, Clock(run))
  {
    var front, e := run[..|run| - 1], run[|run| - 1];
    var s := SignalServer.After(dedupe, front);
    PairingAfterStep(s, dedupe, e, Clock(front));
    PairingRunGrows(s, e, Clock(front), PairingRun(dedupe, front));
  }

  /** The controller is told of the host, and the worker, if it is still there, of the
      controller. */
  ghost predicate LetIn(s: Server, t: Server, client: Id, host: Id, worker: Id) {
    var before, after := SignalServer.Outbox(s.toClients, client), SignalServer.Outbox(t.toClients, client);
    && |before| < |after| && after[..|before|] == before
    && after[|before|] == SignalServer.ToClient(ControllerJoined, Some(host), None)
    && t.toWorkers == SignalServer.SendToWorker(s, worker, SignalServer.ToWorker(JoinRoom, client, None)).toWorkers
    && client in t.pairing.controllerToHost
    && t.pairing.controllerToHost[client] == Pairing.ControllerRoute(host, worker)
  }

  ghost predicate TurnedAway(s: Server, t: Server, client: Id) {
    var rejection := SignalServer.ToClient(ControllerRejected, None, Some("invalid-code"));
    && SignalServer.Outbox(t.toClients, client) == SignalServer.Outbox(s.toClients, client) + [rejection]
    && t.toWorkers == s.toWorkers && t.pairing.controllerToHost == s.pairing.controllerToHost
  }

  lemma JoiningLetsIn(s: Server, client: Id, text: string, now: nat)
    requires client in s.tables.clients && Pairing.JoinAnswer(s.pairing, text, now).Ok?
    ensures var target := Pairing.JoinAnswer(s.pairing, text, now).value;
            LetIn(s, SignalServer.HostJoined(s, client, text, now), client, target.host, target.worker)
  {
  }

  lemma JoiningTurnsAway(s: Server, client: Id, text: string, now: nat)
    requires client in s.tables.clients && Pairing.JoinAnswer(s.pairing, text, now) == Err(Pairing.InvalidCode)
    ensures TurnedAway(s, SignalServer.HostJoined(s, client, text, now), client)
  {
  }

  lemma DispatchesJoin(s: Server, dedupe: bool, client: Id, m: Message, now: nat, code: string)
    requires m.kind == ControllerJoin && Trimmed(m.data) != None
    ensures SignalServer.BrowserHandled(s, dedupe, client, m, now, code)
            == SignalServer.HostJoined(s, client, Trimmed(m.data).value, now)
    ensures var text := Trimmed(m.data).value;
            Pairing.Normalize(text) == Pairing.Normalize(m.data.value) && Pairing.Normalize(text) != ""
  {
    Text.TrimTwice(m.data.value);
  }

  lemma JoinTextLetsIn(dedupe: bool, run: seq<Event>, client: Id, text: string, now: nat)
    requires SignalServer.IsRun(dedupe, run) && InTimeOrder(run) && Clock(run) <= now
    requires Pairing.Normalize(text) != "" && client in SignalServer.After(dedupe, run).tables.clients
    ensures
      var s, p := SignalServer.After(dedupe, run), PairingRun(dedupe, run);
      JoinOutcome(s, SignalServer.HostJoined(s, client, text, now), p, client, Pairing.Normalize(text), now)
  {
    var s, p := SignalServer.After(dedupe, run), PairingRun(dedupe, run);
    GrantsDecide(dedupe, run, client, text, now);
    AnswerDecides(s, p, client, text, now);
  }

  lemma GrantsDecide(dedupe: bool, run: seq<Event>, client: Id, text: string, now: nat)
    requires SignalServer.IsRun(dedupe, run) && InTimeOrder(run) && Clock(run) <= now
    ensures AnswerIsByGrants(SignalServer.After(dedupe, run), PairingRun(dedupe, run), text, now)
  {
    ServerRunsArePairingRuns(dedupe, run);
    AnswerFollowsGrants(SignalServer.After(dedupe, run), PairingRun(dedupe, run), client, text, now);
  }

  /** What a join is answered in terms of the grants of a pairing run. */
  ghost predicate AnswerIsByGrants(s: Server, p: seq<Pairing.Event>, text: string, now: nat) {
    var answer := Pairing.JoinAnswer(s.pairing, text, now);
    && (answer.Ok? ==> exists i: nat :: Pairing.GrantedWithinTtl(p, i, Pairing.Normalize(text), now))
    && (forall i: nat | Pairing.GrantedWithinTtl(p, i, Pairing.Normalize(text), now) ::
          && answer.Ok? && answer.value.host == p[i].host
          && Some(answer.value.worker) == Pairing.LastWorker(p, p[i].host))
  }

  lemma AnswerFollowsGrants(s: Server, p: seq<Pairing.Event>, client: Id, text: string, now: nat)
    requires LeadsTo(p, s.pairing, now)
    ensures AnswerIsByGrants(s, p, text, now)
  {
    Pairing.JoinSucceedsExactlyWhen(p, now, client, text);
  }

  lemma AnswerDecides(s: Server, p: seq<Pairing.Event>, client: Id, text: string, now: nat)
    requires Pairing.Normalize(text) != "" && client in s.tables.clients
    requires AnswerIsByGrants(s, p, text, now)
    ensures JoinOutcome(s, SignalServer.HostJoined(s, client, text, now), p, client, Pairing.Normalize(text), now)
  {
    if Pairing.JoinAnswer(s.pairing, text, now).Ok? {
      JoiningLetsIn(s, client, text, now);
    } else {
      JoiningTurnsAway(s, client, text, now);
    }
  }

  /** Let in by each grant of the code typed that still holds, turned away without one. */
  ghost predicate JoinOutcome(s: Server, t: Server, p: seq<Pairing.Event>, client: Id, typed: string, now: nat) {
    && (forall i: nat | Pairing.GrantedWithinTtl(p, i, typed, now) ::
          && Pairing.LastWorker(p, p[i].host) != None
          && LetIn(s, t, client, p[i].host, Pairing.LastWorker(p, p[i].host).value))
    && ((forall i: nat :: !Pairing.GrantedWithinTtl(p, i, typed, now)) ==> TurnedAway(s, t, client))
  }

  /** In every run of the server, a controller that sends a join code is let in exactly when
      that code was granted less than fifteen minutes ago to a host whose host path of
      clean-up has not run since. It is then told of that host, and the worker of the host's
      latest registration is told of it. Otherwise it is told that the code is invalid, and
      no worker hears of it. */
  lemma CodesLetControllersIn(dedupe: bool, run: seq<Event>, client: Id, m: Message, now: nat, code: string)
    requires SignalServer.IsRun(dedupe, run) && InTimeOrder(run) && Clock(run) <= now
    requires m.kind == ControllerJoin && Trimmed(m.data) != None
    requires client in SignalServer.After(dedupe, run).tables.clients
    ensures
      var s := SignalServer.After(dedupe, run);
      JoinOutcome(s, SignalServer.BrowserHandled(s, dedupe, client, m, now, code), PairingRun(dedupe, run),
                  client, Pairing.Normalize(m.data.value), now)
  {
    DispatchesJoin(SignalServer.After(dedupe, run), dedupe, client, m, now, code);
    JoinTextLetsIn(dedupe, run, client, Trimmed(m.data).value, now);
  }

  /** A controller's input reaches the worker its host registered with last, or nobody. */
  lemma InputFollowsTheHost(dedupe: bool, run: seq<Event>, client: Id, host: Id, input: string)
    requires SignalServer.IsRun(dedupe, run) && InTimeOrder(run)
    ensures
      var s, p := SignalServer.After(dedupe, run), PairingRun(dedupe, run);
      var t, worker := SignalServer.InputSent(s, client, host, input), Pairing.LastWorker(p, host);
      if client in s.pairing.controllerToHost && s.pairing.controllerToHost[client].host == host then
        && worker != None
        && t == SignalServer.SendToWorker(s, worker.value, SignalServer.ToWorker(Input, client, Some(input)))
      else t == s
  {
    ServerRunsArePairingRuns(dedupe, run);
    Pairing.RoutesFollowLatestRegistration(PairingRun(dedupe, run));
  }
}
