/** Player counts from a worker's room to the signaling server's table. */
module CountLink {
  import opened Wrappers
  import Pairing
  import PlayerRoom
  import Protocol
  import SignalServer

  /** The counts a worker has sent since it last connected, oldest first. */
  function Announced(run: seq<SignalServer.Event>, worker: Id): seq<string> {
    if run == [] then []
    else
      var before := Announced(run[..|run| - 1], worker);
      match run[|run| - 1]
      case WorkerLeaves(id) => if id == worker then [] else before
      case WorkerSends(id, m) =>
        if id == worker && m.kind == Protocol.UpdatePlayerCount && m.data != None
        then before + [m.data.value] else before
      case _ => before
  }

  function CountOf(s: SignalServer.Server, worker: Id): Option<nat> {
    if worker in s.tables.playerCounts then Some(s.tables.playerCounts[worker]) else None
  }

  function AllStored(outbox: seq<string>): Option<nat> {
    PlayerRoom.Stored(outbox, |outbox|)
  }

  lemma {:induction false} StoredIgnoresLater(outbox: seq<string>, more: seq<string>, n: nat)
    requires n <= |outbox|
    ensures PlayerRoom.Stored(outbox + more, n) == PlayerRoom.Stored(outbox, n)
  {
    if n == 0 {
    } else {
      StoredIgnoresLater(outbox, more, n - 1);
    }
  }

  lemma StoresOneMore(outbox: seq<string>, data: string)
    ensures AllStored(outbox + [data]) == PlayerRoom.Received(AllStored(outbox), data)
  {
    StoredIgnoresLater(outbox, [data], |outbox|);
  }

  /** What an event does to a worker's count. */
  lemma CountAfterStep(s: SignalServer.Server, dedupe: bool, e: SignalServer.Event, worker: Id)
    ensures
      var after := CountOf(SignalServer.Step(s, dedupe, e), worker);
      match e
      case WorkerLeaves(id) => after == if id == worker then None else CountOf(s, worker)
      case WorkerSends(id, m) =>
        after == if id == worker && m.kind == Protocol.UpdatePlayerCount && m.data != None
                 then PlayerRoom.Received(CountOf(s, worker), m.data.value) else CountOf(s, worker)
      case _ => after == CountOf(s, worker)
  {
    match e
    case BrowserSends(id, m, now, code) => BrowsersKeepCounts(s, dedupe, id, m, now, code);
    case BrowserLeaves(id, cleanup) => LeavingKeepsCounts(s, id, cleanup);
    case WorkerSends(id, m) => CountAfterMessage(s, dedupe, id, m, worker);
    case _ =>
  }

  lemma CountAfterMessage(s: SignalServer.Server, dedupe: bool, id: Id, m: Protocol.Message, worker: Id)
    ensures CountOf(SignalServer.WorkerHandled(s, dedupe, id, m), worker)
            == if id == worker && m.kind == Protocol.UpdatePlayerCount && m.data != None
               then PlayerRoom.Received(CountOf(s, worker), m.data.value) else CountOf(s, worker)
  {
  }

  lemma BrowsersKeepCounts(s: SignalServer.Server, dedupe: bool, client: Id, m: Protocol.Message, now: nat,
                           code: string)
    ensures SignalServer.BrowserHandled(s, dedupe, client, m, now, code).tables.playerCounts == s.tables.playerCounts
  {
    match Protocol.ParseBrowserCommand(m)
    case Some(JoinHost(text)) =>
      assert SignalServer.HostJoined(s, client, text, now).tables == s.tables;
    case _ =>
  }

  lemma LeavingKeepsCounts(s: SignalServer.Server, client: Id, r: Pairing.Cleanup)
    ensures SignalServer.BrowserCleaned(s, client, r).tables.playerCounts == s.tables.playerCounts
  {
    var t := SignalServer.BrowserGone(s, client, r.notifyHost);
    var left := SignalServer.ToClient(Protocol.ControllerLeft, Some(client), None);
    SignalServer.NotifyingTouchesClientsOnly(t, r.notifyControllers, left);
    var u := SignalServer.NotifyAll(t, r.notifyControllers, left);
    SignalServer.TerminatingTouchesWorkersOnly(u, r.workerTerminations);
  }

  /** Whatever else happens at the server, the count it holds for a worker is the last one
      it could read of those that worker announced since it connected. */
  lemma {:induction false} ServerHoldsLastAnnounced(dedupe: bool, run: seq<SignalServer.Event>, worker: Id)
    ensures CountOf(SignalServer.After(dedupe, run), worker) == AllStored(Announced(run, worker))
  {
    if run == [] {
    } else {
      var front, e := run[..|run| - 1], run[|run| - 1];
      ServerHoldsLastAnnounced(dedupe, front, worker);
      CountAfterStep(SignalServer.After(dedupe, front), dedupe, e, worker);
      if e.WorkerSends? && e.m.data != None {
        StoresOneMore(Announced(front, worker), e.m.data.value);
      }
    }
  }

  /** So once everything the room announced has arrived, in order, the server's count is
      the number of occupied slots; no count means that nobody ever took one. */
  lemma ServerCountEqualsRoomCount(dedupe: bool, run: seq<SignalServer.Event>, worker: Id,
                                   roomRun: seq<PlayerRoom.Event>)
    requires Announced(run, worker) == PlayerRoom.After(roomRun).outbox
    ensures
      var occupied := PlayerRoom.Occupied(PlayerRoom.After(roomRun).slots);
      match CountOf(SignalServer.After(dedupe, run), worker)
      case Some(n) => n == occupied
      case None => occupied == 0
  {
    ServerHoldsLastAnnounced(dedupe, run, worker);
    PlayerRoom.DrainedLinkAgrees(roomRun);
  }
}
