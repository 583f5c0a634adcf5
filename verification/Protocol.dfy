/** The messages peers exchange through the signaling server, and the commands they parse
    to. */
module Protocol {
  import opened Wrappers
  import Decimal
  import Text

  datatype Kind =
    | GetGames | GameInfo | UpdatePlayerCount
    | InitWebrtc | Offer | Answer | Candidate | JoinRoom | TerminateSession | Input
    | ControllerHost | ControllerReady | ControllerJoin | ControllerJoined | ControllerLeft
    | ControllerRejected | ControllerInput | ControllerAudio
    | Unknown

  datatype Message = Message(kind: Kind, data: Option<string>, sessionId: Option<string>)

  datatype BrowserCommand =
    | RequestGames
    | ForwardToWorker(worker: Id, event: Kind, data: Option<string>, bindClient: bool)
    | Terminate(target: Option<Id>)
    | HostControllers(worker: Id)
    | JoinHost(code: string)
    | SendInput(host: Id, input: string)
    | SendAudio(host: Id, action: string)

  datatype WorkerCommand =
    | SetGame(game: Option<string>)
    | ForwardToClient(client: Id, event: Kind, data: Option<string>)
    | SetPlayerCount(count: nat)

  /** A target or payload counts only if something is left after trimming. */
  function Trimmed(s: Option<string>): Option<string> {
    if s == None || Text.Trim(s.value) == "" then None else Some(Text.Trim(s.value))
  }

  /** None stands for any error: the server only logs it. */
  function ParseBrowserCommand(m: Message): Option<BrowserCommand> {
    var target, payload := Trimmed(m.sessionId), Trimmed(m.data);
    match m.kind
    case GetGames => Some(RequestGames)
    case InitWebrtc => if target == None then None else Some(ForwardToWorker(target.value, InitWebrtc, m.data, true))
    case Answer => if target == None then None else Some(ForwardToWorker(target.value, Answer, m.data, false))
    case Candidate => if target == None then None else Some(ForwardToWorker(target.value, Candidate, m.data, false))
    case JoinRoom => if target == None then None else Some(ForwardToWorker(target.value, JoinRoom, m.data, true))
    case Input => if target == None then None else Some(ForwardToWorker(target.value, Input, m.data, false))
    case TerminateSession => Some(Terminate(target))
    case ControllerHost => if target == None then None else Some(HostControllers(target.value))
    case ControllerJoin => if payload == None then None else Some(JoinHost(payload.value))
    case ControllerInput =>
      if target == None || payload == None then None else Some(SendInput(target.value, payload.value))
    case ControllerAudio =>
      if target == None || payload == None then None else Some(SendAudio(target.value, payload.value))
    case _ => None
  }

  /** A message that is forwarded goes on as it was sent, and only setting up a session and
      joining a room bind. */
  lemma ForwardsAsSent(m: Message)
    ensures var command := ParseBrowserCommand(m);
            command != None && command.value.ForwardToWorker? ==>
              && command.value.event == m.kind && command.value.data == m.data
              && (command.value.bindClient <==> m.kind == InitWebrtc || m.kind == JoinRoom)
  {
  }

  function ParseWorkerCommand(m: Message): Option<WorkerCommand> {
    var target := Trimmed(m.sessionId);
    match m.kind
    case GameInfo => Some(SetGame(m.data))
    case Offer => if target == None then None else Some(ForwardToClient(target.value, Offer, m.data))
    case Candidate => if target == None then None else Some(ForwardToClient(target.value, Candidate, m.data))
    case UpdatePlayerCount =>
      var count := if m.data == None then None else Decimal.ParseUsize(Text.Trim(m.data.value));
      if count == None then None else Some(SetPlayerCount(count.value))
    case _ => None
  }
}
