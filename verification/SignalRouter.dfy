/** The worker's signal router: answers and candidates that arrive before their session
    exists are queued, within bounds, and replayed once it does. */
module SignalRouter {
  import opened Wrappers
  import opened Subsequences

  const MAX_PENDING_SESSIONS: nat := 512
  const MAX_PENDING_MESSAGES: nat := 32

  datatype Kind = InitWebrtc | TerminateSession | Answer | Candidate | JoinRoom | Input | Other

  datatype Message = Message(kind: Kind, sessionId: Option<string>, data: Option<string>)

  function NonEmpty(s: Option<string>): Option<string> {
    if s == Some("") then None else s
  }

  function ClientOf(m: Message): Option<Id> {
    NonEmpty(m.sessionId)
  }

  /** An answer or candidate with a client and a payload: what the router applies or keeps. */
  predicate IsSignal(m: Message) {
    (m.kind == Answer || m.kind == Candidate) && ClientOf(m) != None && NonEmpty(m.data) != None
  }

  predicate IsSignalOf(m: Message, client: Id) {
    IsSignal(m) && m.sessionId == Some(client)
  }

  type Pending = map<Id, seq<Message>>

  function QueueOf(pending: Pending, client: Id): seq<Message> {
    if client in pending then pending[client] else []
  }

  /** Is room for a new client made by evicting one that waits? */
  predicate Evicts(pending: Pending, client: Id) {
    client !in pending && |pending| >= MAX_PENDING_SESSIONS
  }

  /** The queues after `victim` made room, if room was needed, and the client's oldest
      message made way, if its queue was full. */
  function Enqueued(pending: Pending, m: Message, client: Id, victim: Id): Pending {
    var kept := if Evicts(pending, client) then pending - {victim} else pending;
    var queue := QueueOf(kept, client);
    kept[client := (if |queue| >= MAX_PENDING_MESSAGES then queue[1..] else queue) + [m]]
  }

  datatype State = State(sessions: set<Id>, pending: Pending, applied: seq<Message>)

  const EMPTY: State := State({}, map[], [])

  /** A signal is applied if its session exists and queued otherwise. */
  function Delivered(s: State, m: Message, victim: Id): State
    requires IsSignal(m)
  {
    var client := m.sessionId.value;
    if client in s.sessions then s.(applied := s.applied + [m])
    else s.(pending := Enqueued(s.pending, m, client, victim))
  }

  /** A session comes into being and what waited for it is applied, oldest first. */
  function Established(s: State, client: Id): State {
    State(s.sessions + {client}, s.pending - {client}, s.applied + QueueOf(s.pending, client))
  }

  /** `sessionCreated` says whether setting up a peer connection works out, `victim` whose
      queue goes if one must; sessions also end when their peer connection does. */
  datatype Event =
    | Handle(m: Message, sessionCreated: bool, victim: Id)
    | SessionEnds(client: Id)

  function Step(s: State, e: Event): State {
    match e
    case SessionEnds(client) => s.(sessions := s.sessions - {client})
    case Handle(m, sessionCreated, victim) =>
      match ClientOf(m)
      case None => s
      case Some(client) =>
        match m.kind
        case InitWebrtc => if sessionCreated && client !in s.sessions then Established(s, client) else s
        case TerminateSession => s.(sessions := s.sessions - {client}, pending := s.pending - {client})
        case _ => if IsSignal(m) then Delivered(s, m, victim) else s
  }

  ghost predicate Allowed(s: State, e: Event) {
    e.Handle? && IsSignal(e.m) && e.m.sessionId.value !in s.sessions && Evicts(s.pending, e.m.sessionId.value)
    ==> e.victim in s.pending
  }

  /** Bounds hold, queues hold their own client's signals, and nobody with a session has
      anything waiting. */
  ghost predicate Invariant(s: State) {
    && |s.pending| <= MAX_PENDING_SESSIONS
    && (forall c <- s.pending :: 0 < |s.pending[c]| <= MAX_PENDING_MESSAGES)
    && (forall c <- s.pending, m <- s.pending[c] :: IsSignalOf(m, c))
    && (forall c <- s.sessions :: c !in s.pending)
  }

  class Router {
    var sessions: set<Id>
    var pending: Pending
    var applied: seq<Message>

    ghost function View(): State
      reads this
    {
      State(sessions, pending, applied)
    }

    ghost predicate Valid()
      reads this
    {
      Invariant(View())
    }

    constructor ()
      ensures Valid() && View() == EMPTY
    {
      sessions, pending, applied := {}, map[], [];
    }

    method Enqueue(m: Message) returns (ghost victim: Id)
      requires IsSignal(m)
      modifies this`pending
      ensures Evicts(old(pending), m.sessionId.value) ==> victim in old(pending)
      ensures pending == Enqueued(old(pending), m, m.sessionId.value, victim)
    {
      var client := m.sessionId.value;
      victim := client;
      if client !in pending && |pending| >= MAX_PENDING_SESSIONS {
        assert pending.Keys != {};
        var first :| first in pending;
        victim := first;
        pending := pending - {first};
      }
      var queue := if client in pending then pending[client] else [];
      if |queue| >= MAX_PENDING_MESSAGES {
        queue := queue[1..];
      }
      pending := pending[client := queue + [m]];
    }

    method HandleSignal(m: Message) returns (ghost victim: Id)
      requires IsSignal(m)
      modifies this`pending, this`applied
      ensures Allowed(old(View()), Handle(m, false, victim))
      ensures View() == Delivered(old(View()), m, victim)
    {
      var client := m.sessionId.value;
      victim := client;
      if client in sessions {
        applied := applied + [m];
      } else {
        victim := Enqueue(m);
      }
    }

    method HandleNonInitMessage(m: Message) returns (ghost victim: Id)
      modifies this`pending, this`applied
      ensures Allowed(old(View()), Handle(m, false, victim))
      ensures View() == if IsSignal(m) then Delivered(old(View()), m, victim) else old(View())
    {
      victim := "";
      if m.kind == Answer || m.kind == Candidate {
        if ClientOf(m) == None || NonEmpty(m.data) == None {
          return;
        }
        victim := HandleSignal(m);
      }
      // Room joins and inputs do not touch the sessions or the queues.
    }

    method HandleInitWebrtc(client: Id, sessionCreated: bool)
      requires Valid()
      modifies this
      ensures View() == if sessionCreated && client !in old(sessions) then Established(old(View()), client)
                        else old(View())
    {
      if !sessionCreated || client in sessions {
        return;
      }
      sessions := sessions + {client};
      ReplayPendingSignals(client);
    }

    method ReplayPendingSignals(client: Id)
      requires client in sessions
      requires forall m <- QueueOf(pending, client) :: IsSignalOf(m, client)
      modifies this`pending, this`applied
      ensures pending == old(pending) - {client}
      ensures applied == old(applied) + QueueOf(old(pending), client)
    {
      var queue := if client in pending then pending[client] else [];
      pending := pending - {client};
      ghost var rest := pending;
      if queue == [] {
        return;
      }
      for i := 0 to |queue|
        invariant pending == rest && applied == old(applied) + queue[..i]
      {
        var m := queue[i];
        assert m in QueueOf(old(pending), client) && IsSignalOf(m, client);
        assert queue[..i + 1] == queue[..i] + [m];
        ghost var victim := HandleNonInitMessage(m);
      }
      assert queue[..|queue|] == queue;
    }

    method HandleTerminateSession(client: Id)
      modifies this`sessions, this`pending
      ensures sessions == old(sessions) - {client} && pending == old(pending) - {client}
    {
      pending := pending - {client};
      sessions := sessions - {client};
    }

    method HandleMessage(m: Message, sessionCreated: bool) returns (ghost victim: Id)
      requires Valid()
      modifies this
      ensures Valid()
      ensures var e := Handle(m, sessionCreated, victim);
              Allowed(old(View()), e) && View() == Step(old(View()), e)
    {
      ghost var before := View();
      victim := "";
      match m.kind {
        case InitWebrtc =>
          if ClientOf(m) != None {
            HandleInitWebrtc(m.sessionId.value, sessionCreated);
          }
        case TerminateSession =>
          if ClientOf(m) != None {
            HandleTerminateSession(m.sessionId.value);
          }
        case _ =>
          victim := HandleNonInitMessage(m);
      }
      ghost var e := Handle(m, sessionCreated, victim);
      assert Allowed(before, e) && View() == Step(before, e);
      StepKeepsInvariant(before, e);
    }
  }

  // -------------------------------------------------------------- properties

  lemma EnqueueKeepsBounds(s: State, m: Message, victim: Id)
    requires Invariant(s) && IsSignal(m) && m.sessionId.value !in s.sessions
    requires Evicts(s.pending, m.sessionId.value) ==> victim in s.pending
    ensures Invariant(s.(pending := Enqueued(s.pending, m, m.sessionId.value, victim)))
  {
    var client := m.sessionId.value;
    EnqueueKeepsSize(s.pending, m, client, victim);
    var after := Enqueued(s.pending, m, client, victim);
    forall c <- after, x <- after[c] ensures IsSignalOf(x, c) {
      if x != m {
        assert x in s.pending[c];
      }
    }
  }

  lemma EnqueueKeepsSize(pending: Pending, m: Message, client: Id, victim: Id)
    requires |pending| <= MAX_PENDING_SESSIONS && (Evicts(pending, client) ==> victim in pending)
    ensures |Enqueued(pending, m, client, victim)| <= MAX_PENDING_SESSIONS
  {
    var kept := if Evicts(pending, client) then pending - {victim} else pending;
    KeysCount(pending);
    KeysCount(kept);
    if Evicts(pending, client) {
      assert kept.Keys == pending.Keys - {victim};
    }
    var after := Enqueued(pending, m, client, victim);
    KeysCount(after);
    assert after.Keys == kept.Keys + {client};
    if client in kept {
      assert kept.Keys + {client} == kept.Keys;
    }
  }

  lemma KeysCount(pending: Pending)
    ensures |pending.Keys| == |pending|
  {
  }

  lemma StepKeepsInvariant(s: State, e: Event)
    requires Invariant(s) && Allowed(s, e)
    ensures Invariant(Step(s, e))
  {
    if e.Handle? && ClientOf(e.m) != None {
      var client := e.m.sessionId.value;
      FewerEntries(s.pending, client);
      if IsSignal(e.m) && client !in s.sessions {
        EnqueueKeepsBounds(s, e.m, e.victim);
      }
    }
  }

  lemma FewerEntries(pending: Pending, client: Id)
    ensures |pending - {client}| <= |pending|
  {
    KeysCount(pending);
    KeysCount(pending - {client});
    assert (pending - {client}).Keys == pending.Keys - {client};
    if client in pending {
      assert |pending.Keys - {client}| == |pending.Keys| - 1;
    } else {
      assert pending.Keys - {client} == pending.Keys;
    }
  }

  function After(run: seq<Event>): State {
    if run == [] then EMPTY else Step(After(run[..|run| - 1]), run[|run| - 1])
  }

  ghost predicate IsRun(run: seq<Event>) {
    run == [] || (IsRun(run[..|run| - 1]) && Allowed(After(run[..|run| - 1]), run[|run| - 1]))
  }

  /** In every reachable state the bounds hold and nobody with a session has anything
      waiting. */
  lemma {:induction false} RunsKeepInvariant(run: seq<Event>)
    requires IsRun(run)
    ensures Invariant(After(run))
  {
    if run == [] {
    } else {
      RunsKeepInvariant(run[..|run| - 1]);
      StepKeepsInvariant(After(run[..|run| - 1]), run[|run| - 1]);
    }
  }

  /** The messages of one client. */
  function For(log: seq<Message>, client: Id): seq<Message> {
    if log == [] then []
    else For(log[..|log| - 1], client) + (if log[|log| - 1].sessionId == Some(client) then [log[|log| - 1]] else [])
  }

  /** The signals of one client, as they arrived. */
  function Arrived(run: seq<Event>, client: Id): seq<Message> {
    if run == [] then []
    else Arrived(run[..|run| - 1], client) + ArrivingIn(run[|run| - 1], client)
  }

  /** How many of a client's waiting signals an event throws away: its oldest when its
      queue is full, all of them when it is evicted for a newcomer, all of them when its
      session is terminated. */
  function Overflowed(s: State, e: Event, client: Id): nat {
    if e.Handle? && IsSignalOf(e.m, client) && client !in s.sessions
       && |QueueOf(s.pending, client)| >= MAX_PENDING_MESSAGES
    then 1 else 0
  }

  function Evicted(s: State, e: Event, client: Id): nat {
    if e.Handle? && IsSignal(e.m) && e.m.sessionId.value !in s.sessions
       && Evicts(s.pending, e.m.sessionId.value) && e.victim == client
    then |QueueOf(s.pending, client)| else 0
  }

  function Terminated(s: State, e: Event, client: Id): nat {
    if e.Handle? && e.m.kind == TerminateSession && ClientOf(e.m) == Some(client)
    then |QueueOf(s.pending, client)| else 0
  }

  function LostIn(s: State, e: Event, client: Id): nat {
    Overflowed(s, e, client) + Evicted(s, e, client) + Terminated(s, e, client)
  }

  function Lost(run: seq<Event>, client: Id): nat {
    if run == [] then 0
    else Lost(run[..|run| - 1], client) + LostIn(After(run[..|run| - 1]), run[|run| - 1], client)
  }

  function ArrivingIn(e: Event, client: Id): seq<Message> {
    if e.Handle? && IsSignalOf(e.m, client) then [e.m] else []
  }

  lemma {:induction false} ForAppends(a: seq<Message>, b: seq<Message>, client: Id)
    ensures For(a + b, client) == For(a, client) + For(b, client)
  {
    if b == [] {
      assert a + b == a;
    } else {
      var front := b[..|b| - 1];
      assert (a + b)[..|a + b| - 1] == a + front;
      ForAppends(a, front, client);
    }
  }

  lemma {:induction false} ForOwnQueue(queue: seq<Message>, owner: Id, client: Id)
    requires forall m <- queue :: IsSignalOf(m, owner)
    ensures For(queue, client) == if owner == client then queue else []
  {
    if queue == [] {
    } else {
      ForOwnQueue(queue[..|queue| - 1], owner, client);
      assert queue[|queue| - 1] in queue;
    }
  }

  /** The signals of one client that were applied, followed by those that wait. */
  function Kept(s: State, client: Id): seq<Message> {
    For(s.applied, client) + QueueOf(s.pending, client)
  }

  /** What one event does: the applied part may grow by the whole queue or by the signal
      that arrives; else a stretch goes from the front of the queue, and the signal that
      arrives goes on its end. */
  lemma StepCutsAndAppends(s: State, e: Event, client: Id)
    requires Invariant(s) && Allowed(s, e)
    ensures
      var kept, w, lost := Kept(s, client), |For(s.applied, client)|, LostIn(s, e, client);
      && w + lost <= |kept|
      && Kept(Step(s, e), client) == kept[..w] + kept[w + lost..] + ArrivingIn(e, client)
  {
    var applied, queue := For(s.applied, client), QueueOf(s.pending, client);
    KeptAfterStep(s, e, client);
    CutFromQueue(applied, queue, LostIn(s, e, client), ArrivingIn(e, client));
  }

  lemma KeptAfterStep(s: State, e: Event, client: Id)
    requires Invariant(s) && Allowed(s, e)
    ensures
      var applied, queue, lost := For(s.applied, client), QueueOf(s.pending, client), LostIn(s, e, client);
      lost <= |queue| && Kept(Step(s, e), client) == applied + (queue[lost..] + ArrivingIn(e, client))
  {
    var queue := QueueOf(s.pending, client);
    assert queue[0..] + [] == queue && queue[|queue|..] == [];
    if e.Handle? && ClientOf(e.m) != None {
      var owner := e.m.sessionId.value;
      if IsSignal(e.m) && owner in s.sessions {
        AppliedAtOnce(s, e, client);
      } else if IsSignal(e.m) {
        EnqueueCutsAndAppends(s, e, client);
      } else if e.m.kind == InitWebrtc {
        EstablishingKeepsAll(s, owner, client);
      }
    }
  }

  lemma AppliedAtOnce(s: State, e: Event, client: Id)
    requires Invariant(s) && e.Handle? && IsSignal(e.m) && e.m.sessionId.value in s.sessions
    ensures
      var queue := QueueOf(s.pending, client);
      && LostIn(s, e, client) == 0
      && Kept(Step(s, e), client) == For(s.applied, client) + (queue + ArrivingIn(e, client))
  {
    var log := s.applied + [e.m];
    ForAppends(s.applied, [e.m], client);
    ForOwnQueue([e.m], e.m.sessionId.value, client);
    AppliedBehind(For(s.applied, client), QueueOf(s.pending, client), ArrivingIn(e, client));
    assert Step(s, e) == s.(applied := log);
    assert For(log, client) == For(s.applied, client) + ArrivingIn(e, client);
    assert e.m.sessionId.value == client ==> QueueOf(s.pending, client) == [];
  }

  /** With nothing waiting, or nothing arriving, it does not matter what comes first. */
  lemma AppliedBehind(applied: seq<Message>, queue: seq<Message>, arriving: seq<Message>)
    ensures queue == [] || arriving == [] ==> (applied + arriving) + queue == applied + (queue + arriving)
  {
  }

  lemma CutFromQueue(applied: seq<Message>, queue: seq<Message>, lost: nat, tail: seq<Message>)
    ensures lost <= |queue| ==>
              (applied + queue)[..|applied|] + (applied + queue)[|applied| + lost..] + tail
              == applied + (queue[lost..] + tail)
  {
  }

  lemma EstablishingKeepsAll(s: State, owner: Id, client: Id)
    requires Invariant(s)
    ensures Kept(Established(s, owner), client) == Kept(s, client)
  {
    var queue := QueueOf(s.pending, owner);
    ForAppends(s.applied, queue, client);
    ForOwnQueue(queue, owner, client);
  }

  lemma EnqueueCutsAndAppends(s: State, e: Event, client: Id)
    requires Invariant(s) && Allowed(s, e) && e.Handle? && IsSignal(e.m) && e.m.sessionId.value !in s.sessions
    ensures
      var lost, queue := LostIn(s, e, client), QueueOf(s.pending, client);
      && lost <= |queue|
      && QueueOf(Step(s, e).pending, client) == queue[lost..] + ArrivingIn(e, client)
  {
  }

  /** For each client, what the router applied and still keeps is a subsequence of what
      arrived, so nothing is applied twice or out of order; and nothing is missing but
      what overflow, eviction or a terminate threw away. */
  lemma {:induction false} SignalsKeepOrderAndAreAccountedFor(run: seq<Event>, client: Id)
    requires IsRun(run)
    ensures var s := After(run);
            && IsSubsequence(Kept(s, client), Arrived(run, client))
            && |Arrived(run, client)|
               == |For(s.applied, client)| + |QueueOf(s.pending, client)| + Lost(run, client)
  {
    if run == [] {
      SubsequenceOfItself<Message>([]);
      assert Kept(EMPTY, client) == [];
    } else {
      var front, e := run[..|run| - 1], run[|run| - 1];
      var s := After(front);
      var kept, w, lost := Kept(s, client), |For(s.applied, client)|, LostIn(s, e, client);
      SignalsKeepOrderAndAreAccountedFor(front, client);
      RunsKeepInvariant(front);
      StepCutsAndAppends(s, e, client);
      CutOutAndAppend(kept, Arrived(front, client), w, w + lost, ArrivingIn(e, client));
    }
  }

  /** Does the event apply the signal: the event that brought it, or the one that set up its
      client's session? */
  predicate Applies(e: Event, m: Message) {
    && e.Handle? && IsSignal(m)
    && (e.m == m || (e.m.kind == InitWebrtc && e.m.sessionId == m.sessionId))
  }

  /** A signal is only ever applied while its client has a session. */
  lemma AppliedOnlyWithASession(s: State, e: Event)
    requires Invariant(s)
    ensures s.applied <= Step(s, e).applied
    ensures forall i | |s.applied| <= i < |Step(s, e).applied| ::
              var m := Step(s, e).applied[i];
              Applies(e, m) && m.sessionId.value in Step(s, e).sessions
  {
    if e.Handle? && ClientOf(e.m) != None {
      var queue := QueueOf(s.pending, e.m.sessionId.value);
      assert forall m <- queue :: IsSignalOf(m, e.m.sessionId.value);
      assert forall i | 0 <= i < |queue| :: queue[i] in queue;
    }
  }

  lemma LastEventApplies(run: seq<Event>)
    requires IsRun(run) && run != []
    ensures
      var before, s, e := After(run[..|run| - 1]).applied, After(run), run[|run| - 1];
      && before <= s.applied
      && forall i | |before| <= i < |s.applied| ::
           Applies(e, s.applied[i]) && s.applied[i].sessionId.value in s.sessions
  {
    RunsKeepInvariant(run[..|run| - 1]);
    AppliedOnlyWithASession(After(run[..|run| - 1]), run[|run| - 1]);
  }

  /** In every run, each signal in the order of application was put there by one event: the
      one that brought it or the one that set up its client's session. Its client had a
      session then. */
  lemma {:induction false} AppliedWhileInSession(run: seq<Event>, k: nat) returns (i: nat)
    requires IsRun(run) && k < |After(run).applied|
    ensures i < |run| && |After(run[..i]).applied| <= k < |After(run[..i + 1]).applied|
    ensures var m := After(run).applied[k];
            && After(run[..i + 1]).applied[k] == m
            && Applies(run[i], m) && m.sessionId.value in After(run[..i + 1]).sessions
  {
    if run == [] {
      assert false;
    } else {
      var n := |run| - 1;
      var front := run[..n];
      LastEventApplies(run);
      if k < |After(front).applied| {
        i := AppliedWhileInSession(front, k);
        assert front[..i] == run[..i] && front[..i + 1] == run[..i + 1];
      } else {
        i := n;
        assert run[..n + 1] == run;
      }
    }
  }

  // ------------------------------------------------- sessions come and signals get through

  /** Does the client have a session, by what happened: was one set up, and not terminated or
      ended since? */
  predicate HasSession(run: seq<Event>, client: Id) {
    run != [] &&
    var before := HasSession(run[..|run| - 1], client);
    match run[|run| - 1]
    case SessionEnds(id) => id != client && before
    case Handle(m, sessionCreated, _) =>
      if m.sessionId != Some(client) || client == "" then before
      else if m.kind == InitWebrtc then sessionCreated || before
      else m.kind != TerminateSession && before
  }

  lemma {:induction false} SessionsFollowHistory(run: seq<Event>, client: Id)
    ensures client in After(run).sessions <==> HasSession(run, client)
  {
    if run == [] {
    } else {
      SessionsFollowHistory(run[..|run| - 1], client);
    }
  }

  /** The clients that any signal came for. */
  function Senders(run: seq<Event>): set<Id> {
    if run == [] then {}
    else
      var e := run[|run| - 1];
      Senders(run[..|run| - 1]) + if e.Handle? && IsSignal(e.m) then {e.m.sessionId.value} else {}
  }

  predicate IsTerminated(run: seq<Event>, client: Id) {
    exists i | 0 <= i < |run| ::
      run[i].Handle? && run[i].m.kind == TerminateSession && run[i].m.sessionId == Some(client)
  }

  lemma WaitingAreSenders(s: State, e: Event, senders: set<Id>)
    requires Invariant(s) && s.pending.Keys <= senders
    ensures Step(s, e).pending.Keys <= senders + if e.Handle? && IsSignal(e.m) then {e.m.sessionId.value} else {}
  {
  }

  /** While signals come for no more clients than may wait, no more for this one than its queue
      holds and nothing terminates it, none of its signals is lost. */
  lemma {:induction false} NothingIsLost(run: seq<Event>, client: Id)
    requires IsRun(run) && !IsTerminated(run, client)
    requires |Senders(run)| <= 512 && |Arrived(run, client)| <= 32
    ensures Kept(After(run), client) == Arrived(run, client) && After(run).pending.Keys <= Senders(run)
  {
    if run == [] {
    } else {
      var front, e := run[..|run| - 1], run[|run| - 1];
      FewerSenders(front, run);
      NothingIsLost(front, client);
      RunsKeepInvariant(front);
      var s := After(front);
      NothingIsLostIn(s, e, Senders(front), client);
      StepCutsAndAppends(s, e, client);
      WaitingAreSenders(s, e, Senders(front));
      var kept, w := Kept(s, client), |For(s.applied, client)|;
      assert kept[..w] + kept[w..] == kept;
    }
  }

  lemma FewerSenders(front: seq<Event>, run: seq<Event>)
    requires run != [] && front == run[..|run| - 1]
    ensures |Senders(front)| <= |Senders(run)|
    ensures forall c :: IsTerminated(front, c) ==> IsTerminated(run, c)
  {
    FewerMembers(Senders(front), Senders(run));
    forall c | IsTerminated(front, c) ensures IsTerminated(run, c) {
      var i :| 0 <= i < |front|
               && front[i].Handle? && front[i].m.kind == TerminateSession && front[i].m.sessionId == Some(c);
      assert run[i] == front[i];
    }
  }

  lemma FewerMembers<T>(a: set<T>, b: set<T>)
    requires a <= b
    ensures |a| <= |b|
  {
    assert b == a + (b - a);
  }

  lemma NothingIsLostIn(s: State, e: Event, senders: set<Id>, client: Id)
    requires Invariant(s) && s.pending.Keys <= senders
    requires !(e.Handle? && e.m.kind == TerminateSession && e.m.sessionId == Some(client))
    requires e.Handle? && IsSignal(e.m) ==> |senders + {e.m.sessionId.value}| <= 512
    requires |QueueOf(s.pending, client)| + |ArrivingIn(e, client)| <= 32
    ensures LostIn(s, e, client) == 0
  {
    if e.Handle? && IsSignal(e.m) && Evicts(s.pending, e.m.sessionId.value) {
      var waiting := s.pending.Keys + {e.m.sessionId.value};
      KeysCount(s.pending);
      FewerMembers(waiting, senders + {e.m.sessionId.value});
      assert false;
    }
  }

  /** In every such run in which the client then has a session, exactly its signals were
      applied, each once and in the order they came, whether before the session or after. */
  lemma SignalsGetThrough(run: seq<Event>, client: Id)
    requires IsRun(run) && !IsTerminated(run, client)
    requires |Senders(run)| <= 512 && |Arrived(run, client)| <= 32
    requires HasSession(run, client)
    ensures For(After(run).applied, client) == Arrived(run, client)
  {
    NothingIsLost(run, client);
    SessionsFollowHistory(run, client);
    RunsKeepInvariant(run);
  }
}
