/** The room's player counts when several threads work on it. Taking a slot, counting and
    announcing happen under one lock, but a thread that frees a slot lets go of the lock
    before it counts, and again before it announces, so its count may be overtaken. */
module RoomThreads {
  import opened Wrappers
  import PlayerRoom

  type Slots = PlayerRoom.Slots

  /** The slots, how many threads have freed a slot and not counted yet, the counts that
      wait to be announced, and the last one that was. */
  datatype State = State(slots: Slots, counting: nat, waiting: seq<nat>, last: Option<nat>)

  const EMPTY: State := State(PlayerRoom.FREE, 0, [], None)

  datatype Event =
    | Take(client: Id)
    | Free(client: Id)
    | Count
    | Announce(k: nat)

  predicate Possible(s: State, e: Event) {
    match e
    case Count => s.counting > 0
    case Announce(k) => k < |s.waiting|
    case _ => true
  }

  function Step(s: State, e: Event): State
    requires Possible(s, e)
  {
    match e
    case Take(client) =>
      var (slots, a) := PlayerRoom.Assign(s.slots, client);
      if a.slot != None && !a.isNew then s else s.(slots := slots, last := Some(PlayerRoom.Occupied(slots)))
    case Free(client) =>
      if Some(client) !in s.slots then s
      else s.(slots := PlayerRoom.Release(s.slots, client), counting := s.counting + 1)
    case Count => s.(counting := s.counting - 1, waiting := s.waiting + [PlayerRoom.Occupied(s.slots)])
    case Announce(k) => s.(waiting := s.waiting[..k] + s.waiting[k + 1..], last := Some(s.waiting[k]))
  }

  /** Does the event announce a count? Taking a slot does, and asking for one in a full room,
      but not asking for one that is already held. */
  predicate Announces(s: State, e: Event) {
    match e
    case Take(client) => var a := PlayerRoom.Assign(s.slots, client).1; a.slot == None || a.isNew
    case Announce(_) => true
    case _ => false
  }

  function After(run: seq<Event>): Option<State> {
    if run == [] then Some(EMPTY)
    else
      var before, e := After(run[..|run| - 1]), run[|run| - 1];
      if before == None || !Possible(before.value, e) then None else Some(Step(before.value, e))
  }

  /** The slots when the last count was announced. */
  function SlotsAnnounced(run: seq<Event>): Slots
    requires After(run) != None
  {
    if run == [] then PlayerRoom.FREE
    else
      var front, e := run[..|run| - 1], run[|run| - 1];
      if Announces(After(front).value, e) then After(run).value.slots else SlotsAnnounced(front)
  }

  /** How many slots were freed since then. */
  function FreedSince(run: seq<Event>): nat
    requires After(run) != None
  {
    if run == [] then 0
    else
      var front, e := run[..|run| - 1], run[|run| - 1];
      if Announces(After(front).value, e) then 0
      else FreedSince(front) + (if e.Free? && Some(e.client) in After(front).value.slots then 1 else 0)
  }

  /** Each slot freed since the last announcement has still to be counted or announced; and
      if there is none, the slots are those of that announcement. */
  ghost predicate OwesAnnouncements(s: State, announced: Slots, freed: nat) {
    freed <= s.counting + |s.waiting| && (freed == 0 ==> s.slots == announced)
  }

  lemma StepKeepsOwing(s: State, e: Event, announced: Slots, freed: nat)
    requires Possible(s, e) && OwesAnnouncements(s, announced, freed)
    ensures
      var t := Step(s, e);
      if Announces(s, e) then OwesAnnouncements(t, t.slots, 0)
      else OwesAnnouncements(t, announced, freed + (if e.Free? && Some(e.client) in s.slots then 1 else 0))
  {
  }

  lemma {:induction false} RunsOwe(run: seq<Event>)
    requires After(run) != None
    ensures OwesAnnouncements(After(run).value, SlotsAnnounced(run), FreedSince(run))
  {
    if run == [] {
    } else {
      var front := run[..|run| - 1];
      RunsOwe(front);
      StepKeepsOwing(After(front).value, run[|run| - 1], SlotsAnnounced(front), FreedSince(front));
    }
  }

  /** Is nothing left to count or to announce? */
  predicate IsAtRest(s: State) {
    s.counting == 0 && s.waiting == []
  }

  /** Was the last count announced still current when it was? One announced on taking a slot
      is, under the lock; one announced by a thread that freed a slot is if that thread, had
      it counted again before sending, would have found the same. */
  function LastWasCurrent(run: seq<Event>): bool
    requires After(run) != None
  {
    if run == [] then true
    else
      var front, e := run[..|run| - 1], run[|run| - 1];
      var s := After(front).value;
      if !Announces(s, e) then LastWasCurrent(front)
      else e.Take? || s.waiting[e.k] == PlayerRoom.Occupied(s.slots)
  }

  /** No count at all is right while nobody has a slot. */
  predicate IsRight(last: Option<nat>, slots: Slots) {
    PlayerRoom.Occupied(slots) == if last == None then 0 else last.value
  }

  lemma {:induction false} CurrentWhenAnnounced(run: seq<Event>)
    requires After(run) != None
    ensures IsRight(After(run).value.last, SlotsAnnounced(run)) <==> LastWasCurrent(run)
  {
    if run == [] {
      PlayerRoom.NoneOccupied(PlayerRoom.FREE);
    } else {
      var front, e := run[..|run| - 1], run[|run| - 1];
      CurrentWhenAnnounced(front);
      AnnouncedOrKept(After(front).value, e);
    }
  }

  lemma AnnouncedOrKept(s: State, e: Event)
    requires Possible(s, e)
    ensures var t := Step(s, e);
            if !Announces(s, e) then t.last == s.last
            else if e.Take? then t.last == Some(PlayerRoom.Occupied(t.slots))
            else t.slots == s.slots && t.last == Some(s.waiting[e.k])
  {
  }

  /** In every interleaving that leaves nothing to count or to announce, the last count
      announced is the number of occupied slots exactly when it was current when it was
      announced: counting again under the lock before sending is all it takes. */
  lemma LastCountIsRightExactlyWhen(run: seq<Event>)
    requires After(run) != None && IsAtRest(After(run).value)
    ensures IsRight(After(run).value.last, After(run).value.slots) <==> LastWasCurrent(run)
  {
    RunsOwe(run);
    CurrentWhenAnnounced(run);
  }

  lemma OneMore(run: seq<Event>, s: State, e: Event) returns (longer: seq<Event>)
    requires After(run) == Some(s) && Possible(s, e)
    ensures After(longer) == Some(Step(s, e))
  {
    longer := run + [e];
    assert longer[..|run|] == run;
  }

  function OneTaken(client: Id): Slots {
    PlayerRoom.FREE[0 := Some(client)]
  }

  lemma OneIsTaken(client: Id)
    ensures PlayerRoom.Assign(PlayerRoom.FREE, client) == (OneTaken(client), PlayerRoom.Assignment(Some(0), true))
    ensures PlayerRoom.Release(OneTaken(client), client) == PlayerRoom.FREE && Some(client) in OneTaken(client)
    ensures PlayerRoom.Occupied(PlayerRoom.FREE) == 0 && PlayerRoom.Occupied(OneTaken(client)) == 1
  {
    assert OneTaken(client)[0] == Some(client) && OneTaken(client)[0 := None] == PlayerRoom.FREE;
    PlayerRoom.NoneOccupied(PlayerRoom.FREE);
    PlayerRoom.OccupiedUpdate(PlayerRoom.FREE, 0, Some(client));
  }

  lemma TakeFirst(s: State, client: Id)
    requires s.slots == PlayerRoom.FREE
    ensures var t := Step(s, Take(client));
            t == s.(slots := OneTaken(client), last := Some(1))
  {
    OneIsTaken(client);
  }

  lemma FreeFirst(s: State, client: Id)
    requires s.slots == OneTaken(client)
    ensures var t := Step(s, Free(client));
            t == s.(slots := PlayerRoom.FREE, counting := s.counting + 1)
  {
    OneIsTaken(client);
  }

  /** It may be wrong with nothing left to announce: the slot of `a` is freed and counted,
      `b` takes a slot and announces it, and only then the count without it goes out. */
  lemma StaleCountMayStay(a: Id, b: Id) returns (run: seq<Event>)
    ensures After(run) != None
    ensures var s := After(run).value;
            IsAtRest(s) && s.last == Some(0) && PlayerRoom.Occupied(s.slots) == 1
  {
    run := OneMore([], EMPTY, Take(a));
    TakeFirst(EMPTY, a);
    var s := After(run).value;
    run := OneMore(run, s, Free(a));
    FreeFirst(s, a);
    s := After(run).value;
    run := OneMore(run, s, Count);
    OneIsTaken(b);
    s := Step(s, Count);
    run := OneMore(run, s, Take(b));
    TakeFirst(s, b);
    s := Step(s, Take(b));
    run := OneMore(run, s, Announce(0));
  }
}
