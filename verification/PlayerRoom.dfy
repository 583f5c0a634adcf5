/** The worker's player slots, and the player counts it announces to the signaling
    server over a first-in first-out link. */
module PlayerRoom {
  import opened Wrappers
  import Decimal
  import Text

  type Slots = seq<Option<Id>>

  const MAX_PLAYERS: nat := 8

  // --------------------------------------------------------------- the slots

  /** The first position holding x, or the length if there is none. */
  function FirstIndex(slots: Slots, x: Option<Id>): (k: nat)
    ensures k <= |slots|
    ensures k < |slots| ==> slots[k] == x
    ensures forall i | 0 <= i < k :: slots[i] != x
  {
    if slots == [] || slots[0] == x then 0 else 1 + FirstIndex(slots[1..], x)
  }

  function Occupied(slots: Slots): nat {
    if slots == [] then 0 else (if slots[0] == None then 0 else 1) + Occupied(slots[1..])
  }

  datatype Assignment = Assignment(slot: Option<nat>, isNew: bool)

  /** A client keeps the slot it has; a new one gets the lowest free slot, if any. */
  function Assign(slots: Slots, client: Id): (Slots, Assignment) {
    var held, free := FirstIndex(slots, Some(client)), FirstIndex(slots, None);
    if held < |slots| then (slots, Assignment(Some(held), false))
    else if free < |slots| then (slots[free := Some(client)], Assignment(Some(free), true))
    else (slots, Assignment(None, false))
  }

  function Release(slots: Slots, client: Id): Slots {
    var held := FirstIndex(slots, Some(client));
    if held < |slots| then slots[held := None] else slots
  }

  ghost predicate NoClientTwice(slots: Slots) {
    forall i, j | 0 <= i < j < |slots| :: slots[i] != None ==> slots[i] != slots[j]
  }

  class PlayerSlots {
    const slots: array<Option<Id>>

    constructor ()
      ensures fresh(slots) && slots.Length == MAX_PLAYERS && slots[..] == FREE
    {
      slots := new Option<Id>[MAX_PLAYERS](_ => None);
    }

    method Position(x: Option<Id>) returns (k: nat)
      ensures k == FirstIndex(slots[..], x)
    {
      k := 0;
      while k < slots.Length
        invariant 0 <= k <= slots.Length
        invariant FirstIndex(slots[..], x) == k + FirstIndex(slots[k..], x)
      {
        if slots[k] == x {
          return;
        }
        k := k + 1;
      }
    }

    method AssignClient(client: Id) returns (r: Assignment)
      modifies slots
      ensures (slots[..], r) == Assign(old(slots[..]), client)
    {
      var held := Position(Some(client));
      if held < slots.Length {
        return Assignment(Some(held), false);
      }
      var free := Position(None);
      if free < slots.Length {
        slots[free] := Some(client);
        return Assignment(Some(free), true);
      }
      r := Assignment(None, false);
    }

    method ReleaseClient(client: Id) returns (released: bool)
      modifies slots
      ensures slots[..] == Release(old(slots[..]), client)
      ensures released <==> Some(client) in old(slots[..])
    {
      var held := Position(Some(client));
      if held == slots.Length {
        return false;
      }
      slots[held] := None;
      released := true;
    }

    method Count() returns (n: nat)
      ensures n == Occupied(slots[..])
    {
      n := 0;
      for k := 0 to slots.Length
        invariant n + Occupied(slots[k..]) == Occupied(slots[..])
      {
        if slots[k] != None {
          n := n + 1;
        }
      }
    }
  }

  // ---------------------------------------------------------------- the room

  /** `outbox` holds every count announced, oldest first, as the text that is sent. */
  datatype State = State(slots: Slots, sessions: set<Id>, outbox: seq<string>)

  const FREE: Slots := [None, None, None, None, None, None, None, None]

  const EMPTY: State := State(FREE, {}, [])

  function Announce(s: State): State {
    s.(outbox := s.outbox + [Decimal.Print(Occupied(s.slots))])
  }

  datatype Event =
    | Join(client: Id)
    | Register(client: Id)
    | Unregister(client: Id)
    | ReleaseInput(client: Id)

  function Step(s: State, e: Event): State {
    match e
    case Join(client) =>
      var (slots, a) := Assign(s.slots, client);
      if a.slot != None && !a.isNew then s else Announce(s.(slots := slots))
    case Register(client) => s.(sessions := s.sessions + {client})
    case Unregister(client) =>
      if client !in s.sessions then s
      else
        var t := s.(sessions := s.sessions - {client}, slots := Release(s.slots, client));
        if Some(client) in s.slots then Announce(t) else t
    case ReleaseInput(client) =>
      var t := s.(slots := Release(s.slots, client));
      if Some(client) in s.slots then Announce(t) else t
  }

  class Room {
    const players: PlayerSlots
    var sessions: set<Id>
    var outbox: seq<string>

    ghost function View(): State
      reads this, players.slots
    {
      State(players.slots[..], sessions, outbox)
    }

    constructor ()
      ensures fresh(players) && fresh(players.slots) && View() == EMPTY
    {
      players := new PlayerSlots();
      sessions, outbox := {}, [];
    }

    method SendPlayerCountUpdate(count: nat)
      modifies this`outbox
      ensures outbox == old(outbox) + [Decimal.Print(count)]
    {
      outbox := outbox + [Decimal.Print(count)];
    }

    method AssignPlayerSlot(client: Id) returns (slot: Option<nat>)
      modifies this`outbox, players.slots
      ensures View() == Step(old(View()), Join(client))
      ensures slot == Assign(old(players.slots[..]), client).1.slot
    {
      var a := players.AssignClient(client);
      slot := a.slot;
      if slot != None && !a.isNew {
        return;
      }
      var count := players.Count();
      SendPlayerCountUpdate(count);
    }

    method RegisterClientSession(client: Id) returns (registered: bool)
      modifies this`sessions
      ensures View() == Step(old(View()), Register(client))
      ensures registered <==> client !in old(sessions)
    {
      if client in sessions {
        assert sessions + {client} == sessions;
        return false;
      }
      sessions := sessions + {client};
      registered := true;
    }

    method UnregisterClientSession(client: Id) returns (removed: bool)
      modifies this, players.slots
      ensures View() == Step(old(View()), Unregister(client))
      ensures removed <==> client in old(sessions)
    {
      if client !in sessions {
        return false;
      }
      sessions := sessions - {client};
      var countChanged := players.ReleaseClient(client);
      if countChanged {
        var count := players.Count();
        SendPlayerCountUpdate(count);
      }
      removed := true;
    }

    method ReleaseInputSource(client: Id) returns (released: bool)
      modifies this`outbox, players.slots
      ensures View() == Step(old(View()), ReleaseInput(client))
      ensures released <==> Some(client) in old(players.slots[..])
    {
      released := players.ReleaseClient(client);
      if released {
        var count := players.Count();
        SendPlayerCountUpdate(count);
      }
    }
  }

  // -------------------------------------------------------------- properties

  lemma {:induction false} OccupiedUpdate(slots: Slots, k: nat, x: Option<Id>)
    requires k < |slots|
    ensures Occupied(slots[k := x])
            == Occupied(slots) - (if slots[k] == None then 0 else 1) + (if x == None then 0 else 1)
  {
    if k == 0 {
      assert slots[0 := x][1..] == slots[1..];
    } else {
      assert slots[k := x][1..] == slots[1..][k - 1 := x];
      OccupiedUpdate(slots[1..], k - 1, x);
    }
  }

  function After(run: seq<Event>): (s: State)
    ensures |s.slots| == MAX_PLAYERS
  {
    if run == [] then EMPTY else Step(After(run[..|run| - 1]), run[|run| - 1])
  }

  /** Nobody has two slots, and the last count announced is the number of occupied slots;
      before any announcement there are none. */
  ghost predicate Invariant(s: State) {
    && NoClientTwice(s.slots)
    && (s.outbox == [] ==> Occupied(s.slots) == 0)
    && (s.outbox != [] ==> s.outbox[|s.outbox| - 1] == Decimal.Print(Occupied(s.slots)))
  }

  lemma {:induction false} NoneOccupied(slots: Slots)
    requires forall i | 0 <= i < |slots| :: slots[i] == None
    ensures Occupied(slots) == 0
  {
    if slots == [] {
    } else {
      NoneOccupied(slots[1..]);
    }
  }

  lemma SlotsStayDistinct(slots: Slots, client: Id)
    requires NoClientTwice(slots)
    ensures NoClientTwice(Assign(slots, client).0) && NoClientTwice(Release(slots, client))
  {
    assert FirstIndex(slots, Some(client)) == |slots| ==> forall i | 0 <= i < |slots| :: slots[i] != Some(client);
  }

  lemma NothingToRelease(slots: Slots, client: Id)
    requires Some(client) !in slots
    ensures Release(slots, client) == slots
  {
  }

  lemma StepKeepsInvariant(s: State, e: Event)
    requires Invariant(s)
    ensures Invariant(Step(s, e))
  {
    SlotsStayDistinct(s.slots, e.client);
    if Some(e.client) !in s.slots {
      NothingToRelease(s.slots, e.client);
    }
  }

  /** ... in every run. */
  lemma {:induction false} RunsKeepInvariant(run: seq<Event>)
    ensures Invariant(After(run))
  {
    if run == [] {
      NoneOccupied(EMPTY.slots);
    } else {
      RunsKeepInvariant(run[..|run| - 1]);
      StepKeepsInvariant(After(run[..|run| - 1]), run[|run| - 1]);
    }
  }

  /** Taking or leaving a slot changes the number of occupied slots by exactly one, and a
      new client gets the lowest free slot. */
  lemma AssignAndReleaseCount(slots: Slots, client: Id)
    ensures var (slots', a) := Assign(slots, client);
            && (a.slot == None <==> Some(client) !in slots && None !in slots)
            && (a.slot != None ==> a.slot.value < |slots'| && slots'[a.slot.value] == Some(client))
            && Occupied(slots') == Occupied(slots) + (if a.isNew then 1 else 0)
            && (a.isNew ==> slots[a.slot.value] == None && forall i | 0 <= i < a.slot.value :: slots[i] != None)
    ensures Occupied(Release(slots, client)) == Occupied(slots) - (if Some(client) in slots then 1 else 0)
    ensures NoClientTwice(slots) ==> Some(client) !in Release(slots, client)
  {
    var held, free := FirstIndex(slots, Some(client)), FirstIndex(slots, None);
    if held < |slots| {
      OccupiedUpdate(slots, held, None);
    } else if free < |slots| {
      OccupiedUpdate(slots, free, Some(client));
    }
  }

  /** Does the event take the client's slot away? */
  predicate Leaves(e: Event, client: Id) {
    (e.Unregister? || e.ReleaseInput?) && e.client == client
  }

  /** A slot once held never moves: through any events that do not release it, the client
      keeps the very slot it had. */
  lemma {:induction false} HeldSlotsDoNotMove(before: seq<Event>, more: seq<Event>, k: nat, client: Id)
    requires k < MAX_PLAYERS && After(before).slots[k] == Some(client)
    requires forall e <- more :: !Leaves(e, client)
    ensures After(before + more).slots[k] == Some(client)
  {
    if more == [] {
      assert before + more == before;
    } else {
      var n := |more| - 1;
      var front := before + more[..n];
      assert (before + more)[..|before + more| - 1] == front && (before + more)[|before + more| - 1] == more[n];
      RunsKeepInvariant(front);
      HeldSlotsDoNotMove(before, more[..n], k, client);
      assert more[n] in more;
      HeldThroughStep(After(front), more[n], k, client);
    }
  }

  lemma HeldThroughStep(s: State, e: Event, k: nat, client: Id)
    requires Invariant(s) && k < |s.slots| && s.slots[k] == Some(client) && !Leaves(e, client)
    ensures Step(s, e).slots[k] == Some(client)
  {
  }

  // ---------------------------------------------------------------- the link

  /** The signaling server keeps the last count it could read. */
  function Received(stored: Option<nat>, data: string): Option<nat> {
    match Decimal.ParseUsize(Text.Trim(data)) case Some(n) => Some(n) case None => stored
  }

  /** What the server has stored after the first n announcements arrived. */
  function Stored(outbox: seq<string>, n: nat): Option<nat>
    requires n <= |outbox|
  {
    if n == 0 then None else Received(Stored(outbox, n - 1), outbox[n - 1])
  }

  lemma {:induction false} OccupiedAtMost(slots: Slots)
    ensures Occupied(slots) <= |slots|
  {
    if slots == [] {
    } else {
      OccupiedAtMost(slots[1..]);
    }
  }

  /** Once every announcement of a run has been delivered, the count the server stores is
      the room's; if it stores none, nobody has ever had a slot. */
  lemma DrainedLinkAgrees(run: seq<Event>)
    ensures
      var s := After(run);
      match Stored(s.outbox, |s.outbox|)
      case Some(n) => n == Occupied(s.slots)
      case None => Occupied(s.slots) == 0 && s.outbox == []
  {
    var s := After(run);
    RunsKeepInvariant(run);
    OccupiedAtMost(s.slots);
    Decimal.ParseUsizeReadsBack(Occupied(s.slots));
  }

  // ------------------------------------------------------------ who sits, by history

  function HasSession(run: seq<Event>, client: Id): bool {
    run != [] &&
    var e, before := run[|run| - 1], HasSession(run[..|run| - 1], client);
    if e.client != client then before else e.Register? || (!e.Unregister? && before)
  }

  /** Those who joined while fewer than eight sat there and were neither released nor, while
      they had a session, unregistered since. */
  function Seated(run: seq<Event>): set<Id> {
    if run == [] then {}
    else
      var front := run[..|run| - 1];
      var before := Seated(front);
      match run[|run| - 1]
      case Join(client) => if |before| < 8 then before + {client} else before
      case Register(_) => before
      case Unregister(client) => if HasSession(front, client) then before - {client} else before
      case ReleaseInput(client) => before - {client}
  }

  function Holders(slots: Slots): set<Id> {
    set k | 0 <= k < |slots| && slots[k] != None :: slots[k].value
  }

  lemma {:induction false} HoldersCount(slots: Slots)
    requires NoClientTwice(slots)
    ensures |Holders(slots)| == Occupied(slots)
  {
    if slots == [] {
    } else {
      HoldersCount(slots[1..]);
      OneHolderMore(slots);
    }
  }

  lemma OneHolderMore(slots: Slots)
    requires slots != [] && NoClientTwice(slots)
    ensures Holders(slots) == Holders(slots[1..]) + if slots[0] == None then {} else {slots[0].value}
    ensures slots[0] != None ==> slots[0].value !in Holders(slots[1..])
  {
    assert forall k | 0 < k < |slots| :: slots[k] == slots[1..][k - 1];
  }

  lemma {:induction false} FreeSlotLeft(slots: Slots)
    ensures Occupied(slots) <= |slots| && (Occupied(slots) < |slots| <==> None in slots)
  {
    if slots == [] {
    } else {
      FreeSlotLeft(slots[1..]);
      assert slots == [slots[0]] + slots[1..];
    }
  }

  lemma HoldersAfterStep(s: State, e: Event)
    requires NoClientTwice(s.slots) && |s.slots| == MAX_PLAYERS
    ensures
      var before, after := Holders(s.slots), Holders(Step(s, e).slots);
      match e
      case Join(client) => after == if |before| < 8 then before + {client} else before
      case Register(_) => after == before
      case Unregister(client) => after == if client in s.sessions then before - {client} else before
      case ReleaseInput(client) => after == before - {client}
  {
    HoldersCount(s.slots);
    FreeSlotLeft(s.slots);
    AssigningSeats(s.slots, e.client);
    ReleasingFrees(s.slots, e.client);
  }

  lemma AssigningSeats(slots: Slots, client: Id)
    ensures Holders(Assign(slots, client).0) == if None in slots then Holders(slots) + {client} else Holders(slots)
  {
    var held, free := FirstIndex(slots, Some(client)), FirstIndex(slots, None);
    if held < |slots| {
      assert client in Holders(slots);
    } else if free < |slots| {
      var after := slots[free := Some(client)];
      assert after[free].value in Holders(after);
      assert forall k | 0 <= k < |slots| && slots[k] != None :: after[k] == slots[k];
    }
  }

  lemma ReleasingFrees(slots: Slots, client: Id)
    requires NoClientTwice(slots)
    ensures Holders(Release(slots, client)) == Holders(slots) - {client}
  {
    var held, after := FirstIndex(slots, Some(client)), Release(slots, client);
    assert forall k | 0 <= k < |slots| && k != held :: after[k] == slots[k];
  }

  /** In every run exactly those hold a slot, and the sessions are those registered and not
      unregistered since. */
  lemma {:induction false} SlotsFollowHistory(run: seq<Event>)
    ensures var s := After(run);
            && Holders(s.slots) == Seated(run) && Occupied(s.slots) == |Seated(run)|
            && forall c :: c in s.sessions <==> HasSession(run, c)
  {
    RunsKeepInvariant(run);
    HoldersCount(After(run).slots);
    if run == [] {
    } else {
      var front := run[..|run| - 1];
      SlotsFollowHistory(front);
      RunsKeepInvariant(front);
      HoldersAfterStep(After(front), run[|run| - 1]);
      assert HasSession(front, run[|run| - 1].client) <==> run[|run| - 1].client in After(front).sessions;
    }
  }
}
