/** The signaling server's registry of peers, bindings, rooms and player counts. */
module Registry {
  import opened Wrappers
  import opened Arithmetic
  import opened Text

  /** The tables as one value. The two sets are the peers that can be sent to. */
  datatype Tables = Tables(
    clients: set<Id>,
    workers: set<Id>,
    clientToWorker: map<Id, Id>,
    gameRooms: map<Id, string>,
    playerCounts: map<Id, nat>,
    workerOrder: map<Id, nat>,
    nextWorkerOrder: nat)

  const EMPTY: Tables := Tables({}, {}, map[], map[], map[], map[], 0)

  // ------------------------------------------------------------- game names

  /** `split_whitespace`, with the word read so far. */
  function WordsFrom(word: string, s: string): seq<string>
    decreases |s|
  {
    if s == [] then if word == [] then [] else [word]
    else if IsSpace(s[0]) then (if word == [] then [] else [word]) + WordsFrom([], s[1..])
    else WordsFrom(word + [s[0]], s[1..])
  }

  function JoinWords(words: seq<string>): string {
    if words == [] then [] else if |words| == 1 then words[0] else words[0] + " " + JoinWords(words[1..])
  }

  function NormalizeGameName(name: string): string {
    Trim(JoinWords(WordsFrom([], Lower(name))))
  }

  ghost predicate IsWord(w: string) {
    w != [] && forall c <- w :: !IsSpace(c) && LowerChar(c) == c
  }

  /** Reading a stretch without white space extends the word being read. */
  lemma {:induction false} ReadWord(word: string, w: string, rest: string)
    requires forall c <- w :: !IsSpace(c)
    ensures WordsFrom(word, w + rest) == WordsFrom(word + w, rest)
    decreases |w|
  {
    if w == [] {
      assert w + rest == rest && word + w == word;
    } else {
      ReadWord(word + [w[0]], w[1..], rest);
      assert (w + rest)[1..] == w[1..] + rest && word + [w[0]] + w[1..] == word + w;
    }
  }

  lemma {:induction false} WordsAreWords(word: string, s: string)
    requires word == [] || IsWord(word)
    requires forall c <- s :: LowerChar(c) == c
    ensures forall w <- WordsFrom(word, s) :: IsWord(w)
    decreases |s|
  {
    if s == [] {
    } else {
      var next := if IsSpace(s[0]) then [] else word + [s[0]];
      assert s[0] in s;
      WordsAreWords(next, s[1..]);
    }
  }

  lemma {:induction false} JoinedWordsReadBack(words: seq<string>)
    requires forall w <- words :: IsWord(w)
    ensures WordsFrom([], JoinWords(words)) == words
  {
    if words == [] {
    } else {
      var w := words[0];
      assert IsWord(w) && [] + w == w;
      if |words| == 1 {
        ReadWord([], w, []);
        assert w + [] == w && words == [w];
      } else {
        var rest := JoinWords(words[1..]);
        JoinedWordsReadBack(words[1..]);
        ReadWord([], w, " " + rest);
        assert w + (" " + rest) == JoinWords(words) && (" " + rest)[1..] == rest;
      }
    }
  }

  /** Joined words start and end with a word, and have no upper-case letters. */
  lemma {:induction false} JoinedWordsAreNormal(words: seq<string>)
    requires forall w <- words :: IsWord(w)
    ensures forall c <- JoinWords(words) :: LowerChar(c) == c
    ensures var s := JoinWords(words);
            if words == [] then s == [] else s != [] && !IsSpace(s[0]) && !IsSpace(s[|s| - 1])
  {
    if words == [] {
    } else {
      var w := words[0];
      assert IsWord(w) && w[0] in w && w[|w| - 1] in w;
      if |words| > 1 {
        JoinedWordsAreNormal(words[1..]);
      }
    }
  }

  lemma NormalNameStays(words: seq<string>)
    requires forall w <- words :: IsWord(w)
    ensures var s := JoinWords(words); Trim(s) == s && NormalizeGameName(s) == s
  {
    var s := JoinWords(words);
    JoinedWordsAreNormal(words);
    JoinedWordsReadBack(words);
    NothingToTrim(s);
    assert Lower(s) == s by {
      assert forall i | 0 <= i < |s| :: s[i] in s;
    }
  }

  lemma WordsOfName(name: string)
    ensures forall w <- WordsFrom([], Lower(name)) :: IsWord(w)
  {
    assert forall c <- Lower(name) :: LowerChar(c) == c;
    WordsAreWords([], Lower(name));
  }

  /** Two names are one game exactly when they have the same words, whatever their letter
      case and spacing; a normalized name stays as it is. */
  lemma SameGameExactlyWhen(a: string, b: string)
    ensures NormalizeGameName(a) == NormalizeGameName(b) <==> WordsFrom([], Lower(a)) == WordsFrom([], Lower(b))
    ensures NormalizeGameName(NormalizeGameName(a)) == NormalizeGameName(a)
    ensures NormalizeGameName(a) == "" <==> AllSpace(a)
  {
    WordsOfName(a);
    WordsOfName(b);
    var v, w := WordsFrom([], Lower(a)), WordsFrom([], Lower(b));
    JoinedWordsReadBack(v);
    JoinedWordsReadBack(w);
    JoinedWordsAreNormal(v);
    NormalNameStays(v);
    NormalNameStays(w);
    NoWordsExactlyWhen([], Lower(a));
    assert forall i | 0 <= i < |a| :: IsSpace(Lower(a)[i]) <==> IsSpace(a[i]);
  }

  lemma {:induction false} NoWordsExactlyWhen(word: string, s: string)
    ensures WordsFrom(word, s) == [] <==> word == [] && AllSpace(s)
    decreases |s|
  {
    if s == [] {
    } else {
      NoWordsExactlyWhen(if IsSpace(s[0]) then [] else word + [s[0]], s[1..]);
      assert s == [s[0]] + s[1..];
    }
  }

  // --------------------------------------------------- choosing one per game

  /** Strings compared character by character. */
  predicate StringLess(a: string, b: string) {
    if b == [] then false
    else if a == [] then true
    else a[0] < b[0] || (a[0] == b[0] && StringLess(a[1..], b[1..]))
  }

  lemma {:induction false} StringLessIsTotal(a: string, b: string)
    ensures a == b || StringLess(a, b) || StringLess(b, a)
    ensures !(StringLess(a, b) && StringLess(b, a)) && !StringLess(a, a)
  {
    if a == [] {
    } else {
      StringLessIsTotal(a[1..], a[1..]);
      if b != [] {
        StringLessIsTotal(a[1..], b[1..]);
        assert a == [a[0]] + a[1..] && b == [b[0]] + b[1..];
      }
    }
  }

  lemma {:induction false} StringLessIsTransitive(a: string, b: string, c: string)
    requires StringLess(a, b) && StringLess(b, c)
    ensures StringLess(a, c)
  {
    if a != [] && a[0] == b[0] == c[0] {
      StringLessIsTransitive(a[1..], b[1..], c[1..]);
    }
  }

  /** What the choice goes by: a room's normalized name and its worker's place in line. */
  datatype Room = Room(name: string, order: nat)

  type Rooms = map<Id, Room>

  /** Registered earlier, or at the same place with the lesser id. */
  predicate Before(rooms: Rooms, a: Id, b: Id)
    requires a in rooms && b in rooms
  {
    rooms[a].order < rooms[b].order || (rooms[a].order == rooms[b].order && StringLess(a, b))
  }

  lemma BeforeIsAnOrder(rooms: Rooms, a: Id, b: Id, c: Id)
    requires a in rooms && b in rooms && c in rooms
    ensures a == b || Before(rooms, a, b) || Before(rooms, b, a)
    ensures !(Before(rooms, a, b) && Before(rooms, b, a)) && !Before(rooms, a, a)
    ensures Before(rooms, a, b) && Before(rooms, b, c) ==> Before(rooms, a, c)
  {
    StringLessIsTotal(a, b);
    if StringLess(a, b) && StringLess(b, c) {
      StringLessIsTransitive(a, b, c);
    }
  }

  /** Is w, of all workers in `among` with its game, the one that comes first? */
  ghost predicate IsFirst(rooms: Rooms, among: set<Id>, w: Id)
    requires among <= rooms.Keys
  {
    && w in among
    && rooms[w].name != ""
    && forall v <- among :: v != w && rooms[v].name == rooms[w].name ==> Before(rooms, w, v)
  }

  /** The choices made after visiting `seen`: under each name, the first worker with it. */
  ghost predicate ChoosesFirst(rooms: Rooms, seen: set<Id>, chosen: map<string, Id>) {
    && seen <= rooms.Keys
    && (forall name <- chosen :: IsFirst(rooms, seen, chosen[name]) && rooms[chosen[name]].name == name)
    && (forall w <- seen :: rooms[w].name != "" ==> rooms[w].name in chosen)
  }

  /** The next worker visited takes its game's place, or leaves it. */
  function Choose(rooms: Rooms, chosen: map<string, Id>, w: Id): map<string, Id>
    requires w in rooms && forall name <- chosen :: chosen[name] in rooms
  {
    var name := rooms[w].name;
    if name == "" || (name in chosen && !Before(rooms, w, chosen[name])) then chosen else chosen[name := w]
  }

  lemma ChooseKeepsFirst(rooms: Rooms, seen: set<Id>, chosen: map<string, Id>, w: Id)
    requires ChoosesFirst(rooms, seen, chosen) && w in rooms && w !in seen
    ensures ChoosesFirst(rooms, seen + {w}, Choose(rooms, chosen, w))
  {
    var name, after := rooms[w].name, Choose(rooms, chosen, w);
    if name in chosen {
      BeforeIsAnOrder(rooms, w, chosen[name], w);
    }
    forall n <- after ensures IsFirst(rooms, seen + {w}, after[n]) && rooms[after[n]].name == n {
      if after[n] == w {
        forall v <- seen | rooms[v].name == name ensures Before(rooms, w, v) {
          BeforeIsAnOrder(rooms, w, chosen[name], v);
        }
      } else {
        assert n in chosen && chosen[n] == after[n];
      }
    }
  }

  /** Once every worker was visited the chosen ones are exactly the first ones. */
  lemma ChosenAreFirst(rooms: Rooms, chosen: map<string, Id>, w: Id)
    requires ChoosesFirst(rooms, rooms.Keys, chosen)
    ensures w in chosen.Values <==> IsFirst(rooms, rooms.Keys, w)
  {
    if IsFirst(rooms, rooms.Keys, w) {
      var c := chosen[rooms[w].name];
      BeforeIsAnOrder(rooms, w, c, w);
    }
  }

  lemma {:induction false} FirstOf(rooms: Rooms, among: set<Id>, w: Id) returns (first: Id)
    requires among <= rooms.Keys && w in among && rooms[w].name != ""
    ensures IsFirst(rooms, among, first) && rooms[first].name == rooms[w].name
    ensures first == w || Before(rooms, first, w)
    decreases |among|
  {
    first := w;
    if !IsFirst(rooms, among, w) {
      var v :| v in among && v != w && rooms[v].name == rooms[w].name && !Before(rooms, w, v);
      BeforeIsAnOrder(rooms, w, v, w);
      first := FirstOf(rooms, among - {w}, v);
      BeforeIsAnOrder(rooms, first, v, w);
    }
  }

  // ---------------------------------------------------------------- the tables

  function OrderOf(t: Tables, worker: Id): nat {
    if worker in t.workerOrder then t.workerOrder[worker] else U64_MAX
  }

  function RoomsOf(t: Tables): Rooms {
    map w | w in t.gameRooms :: Room(NormalizeGameName(t.gameRooms[w]), OrderOf(t, w))
  }

  /** The room list with one room per game. */
  ghost function Deduped(t: Tables): map<Id, string> {
    map w | w in t.gameRooms && IsFirst(RoomsOf(t), RoomsOf(t).Keys, w) :: t.gameRooms[w]
  }

  /** Exactly one room is listed for each game that has one, that of the worker with the
      least registration order and id. */
  lemma OneRoomPerGame(t: Tables, w: Id)
    requires w in t.gameRooms && RoomsOf(t)[w].name != ""
    ensures exists v <- Deduped(t) :: RoomsOf(t)[v].name == RoomsOf(t)[w].name && (v == w || Before(RoomsOf(t), v, w))
    ensures forall u, v :: u in Deduped(t) && v in Deduped(t) && RoomsOf(t)[u].name == RoomsOf(t)[v].name ==> u == v
  {
    var rooms := RoomsOf(t);
    var v := FirstOf(rooms, rooms.Keys, w);
    assert v in Deduped(t);
    forall a, b | a in Deduped(t) && b in Deduped(t) && rooms[a].name == rooms[b].name ensures a == b {
      BeforeIsAnOrder(rooms, a, b, a);
    }
  }

  /** Games, player counts and places in line are only kept for registered workers, the
      places differ until the counter saturates, no room has an empty name, and every
      client binding names a registered worker. */
  ghost predicate Consistent(t: Tables) {
    && t.gameRooms.Keys <= t.workers
    && t.playerCounts.Keys <= t.workers
    && t.workerOrder.Keys == t.workers
    && (t.nextWorkerOrder < U64_MAX ==>
          && (forall w <- t.workerOrder :: t.workerOrder[w] < t.nextWorkerOrder)
          && (forall v, w :: v in t.workerOrder && w in t.workerOrder && v != w ==>
                           t.workerOrder[v] != t.workerOrder[w]))
    && (forall w <- t.gameRooms :: NormalizeGameName(t.gameRooms[w]) != "")
    && (forall c <- t.clientToWorker :: t.clientToWorker[c] in t.workers)
  }

  // ------------------------------------------------ what each operation does

  function WorkerRegistered(t: Tables, worker: Id): Tables {
    t.(workers := t.workers + {worker},
       workerOrder := t.workerOrder[worker := t.nextWorkerOrder],
       nextWorkerOrder := if t.nextWorkerOrder < U64_MAX then t.nextWorkerOrder + 1 else U64_MAX)
  }

  function ClientUnregistered(t: Tables, client: Id): Tables {
    t.(clients := t.clients - {client}, clientToWorker := t.clientToWorker - {client})
  }

  function ClientsOf(t: Tables, worker: Id): set<Id> {
    set c | c in t.clientToWorker && t.clientToWorker[c] == worker
  }

  function WorkerUnregistered(t: Tables, worker: Id): Tables {
    t.(workers := t.workers - {worker},
       workerOrder := t.workerOrder - {worker},
       gameRooms := t.gameRooms - {worker},
       playerCounts := t.playerCounts - {worker},
       clientToWorker := t.clientToWorker - ClientsOf(t, worker),
       clients := t.clients - ClientsOf(t, worker))
  }

  function Bound(t: Tables, client: Id, worker: Id): Tables {
    t.(clientToWorker := t.clientToWorker[client := worker])
  }

  predicate IsBound(t: Tables, client: Id, worker: Id) {
    client in t.clientToWorker && t.clientToWorker[client] == worker
  }

  class Registry {
    var clients: set<Id>
    var workers: set<Id>
    var clientToWorker: map<Id, Id>
    var gameRooms: map<Id, string>
    var playerCounts: map<Id, nat>
    var workerOrder: map<Id, nat>
    var nextWorkerOrder: nat

    ghost function View(): Tables
      reads this
    {
      Tables(clients, workers, clientToWorker, gameRooms, playerCounts, workerOrder, nextWorkerOrder)
    }

    constructor ()
      ensures View() == EMPTY
    {
      clients, workers, clientToWorker := {}, {}, map[];
      gameRooms, playerCounts, workerOrder, nextWorkerOrder := map[], map[], map[], 0;
    }

    method RegisterClient(client: Id)
      modifies this
      ensures View() == old(View()).(clients := old(clients) + {client})
    {
      clients := clients + {client};
    }

    method RegisterWorker(worker: Id)
      modifies this
      ensures View() == WorkerRegistered(old(View()), worker)
    {
      workers := workers + {worker};
      var order := nextWorkerOrder;
      nextWorkerOrder := if nextWorkerOrder < U64_MAX then nextWorkerOrder + 1 else U64_MAX;
      workerOrder := workerOrder[worker := order];
    }

    method UnregisterClient(client: Id) returns (worker: Option<Id>)
      modifies this
      ensures View() == ClientUnregistered(old(View()), client)
      ensures worker == if client in old(clientToWorker) then Some(old(clientToWorker)[client]) else None
    {
      clients := clients - {client};
      worker := if client in clientToWorker then Some(clientToWorker[client]) else None;
      clientToWorker := clientToWorker - {client};
    }

    /** Returns the clients to close: those bound to the worker that can be sent to. */
    method UnregisterWorker(worker: Id) returns (toClose: set<Id>)
      modifies this
      ensures View() == WorkerUnregistered(old(View()), worker)
      ensures toClose == old(clients) * ClientsOf(old(View()), worker)
    {
      workers, workerOrder := workers - {worker}, workerOrder - {worker};
      gameRooms, playerCounts := gameRooms - {worker}, playerCounts - {worker};
      var affected := set c | c in clientToWorker && clientToWorker[c] == worker;
      toClose := DropClients(affected);
    }

    /** Takes the clients out one by one, keeping those that can be told. */
    method DropClients(affected: set<Id>) returns (toClose: set<Id>)
      modifies this`clients, this`clientToWorker
      ensures clients == old(clients) - affected && clientToWorker == old(clientToWorker) - affected
      ensures toClose == old(clients) * affected
    {
      ghost var clients0, bindings0 := clients, clientToWorker;
      var done: set<Id> := {};
      toClose := {};
      while affected - done != {}
        invariant done <= affected && toClose == clients0 * done
        invariant clients == clients0 - done && clientToWorker == bindings0 - done
        decreases affected - done
      {
        var c :| c in affected - done;
        done := done + {c};
        clientToWorker := clientToWorker - {c};
        if c in clients {
          clients := clients - {c};
          toClose := toClose + {c};
        }
      }
      assert affected <= done by {
        assert forall c <- affected :: c !in affected - done;
      }
      assert done == affected;
    }

    method BindClientToWorker(client: Id, worker: Id)
      modifies this
      ensures View() == Bound(old(View()), client, worker)
    {
      clientToWorker := clientToWorker[client := worker];
    }

    method UnbindClient(client: Id)
      modifies this
      ensures View() == old(View()).(clientToWorker := old(clientToWorker) - {client})
    {
      clientToWorker := clientToWorker - {client};
    }

    method SetWorkerGame(worker: Id, gameName: Option<string>) returns (updated: bool)
      modifies this
      ensures updated <==> gameName != None && NormalizeGameName(gameName.value) != ""
      ensures View() == if updated then old(View()).(gameRooms := old(gameRooms)[worker := gameName.value])
                        else old(View())
    {
      if gameName == None || NormalizeGameName(gameName.value) == "" {
        return false;
      }
      gameRooms := gameRooms[worker := gameName.value];
      updated := true;
    }

    method SetWorkerPlayerCount(worker: Id, count: nat)
      modifies this
      ensures View() == old(View()).(playerCounts := old(playerCounts)[worker := count])
    {
      playerCounts := playerCounts[worker := count];
    }

    /** The room list, whichever order the tables are walked in. */
    method GamesPayload(dedupe: bool) returns (rooms: map<Id, string>)
      ensures rooms == if dedupe then Deduped(View()) else gameRooms
    {
      if !dedupe {
        return gameRooms;
      }
      ghost var all := RoomsOf(View());
      var selected: Selection := map[];
      ghost var chosen: map<string, Id> := map[];
      var seen: set<Id> := {};
      while gameRooms.Keys - seen != {}
        invariant seen <= gameRooms.Keys
        invariant ChoosesFirst(all, seen, chosen) && Records(selected, all, gameRooms, chosen)
        decreases gameRooms.Keys - seen
      {
        var worker :| worker in gameRooms.Keys - seen;
        ChooseKeepsFirst(all, seen, chosen, worker);
        seen := seen + {worker};
        var order := if worker in workerOrder then workerOrder[worker] else U64_MAX;
        selected := Select(selected, worker, gameRooms[worker], NormalizeGameName(gameRooms[worker]), order,
                           all, gameRooms, chosen);
        chosen := Choose(all, chosen, worker);
      }
      assert seen == all.Keys;
      rooms := RoomsByWorker(selected, all, gameRooms, chosen);
    }
  }

  type Selection = map<string, (nat, Id, string)>

  /** The selection holds what belongs to the workers chosen. */
  ghost predicate Records(selected: Selection, all: Rooms, games: map<Id, string>, chosen: map<string, Id>) {
    && selected.Keys == chosen.Keys
    && forall n <- chosen ::
         && chosen[n] in all && chosen[n] in games
         && selected[n] == (all[chosen[n]].order, chosen[n], games[chosen[n]])
  }

  /** Weighs one worker against the choice made so far under its game's name. */
  method Select(selected0: Selection, worker: Id, game: string, normalized: string, order: nat,
                ghost all: Rooms, ghost games: map<Id, string>, ghost chosen: map<string, Id>)
    returns (selected: Selection)
    requires Records(selected0, all, games, chosen)
    requires worker in all && all[worker] == Room(normalized, order) && worker in games && games[worker] == game
    ensures Records(selected, all, games, Choose(all, chosen, worker))
  {
    selected := selected0;
    if normalized == "" {
      return;
    }
    if normalized in selected {
      var existing := selected[normalized];
      if order < existing.0 || (order == existing.0 && StringLess(worker, existing.1)) {
        selected := selected[normalized := (order, worker, game)];
      }
    } else {
      selected := selected[normalized := (order, worker, game)];
    }
  }

  /** Puts the choices back under their workers. */
  method RoomsByWorker(selected: Selection, ghost all: Rooms, ghost games: map<Id, string>,
                       ghost chosen: map<string, Id>)
    returns (rooms: map<Id, string>)
    requires Records(selected, all, games, chosen) && ChoosesFirst(all, all.Keys, chosen) && all.Keys == games.Keys
    ensures rooms == map w | w in games && IsFirst(all, all.Keys, w) :: games[w]
  {
    rooms := map[];
    var done: set<string> := {};
    while selected.Keys - done != {}
      invariant done <= selected.Keys
      invariant forall n <- done :: chosen[n] in rooms
      invariant forall w <- rooms :: w in chosen.Values && w in games && rooms[w] == games[w]
      decreases selected.Keys - done
    {
      var n :| n in selected.Keys - done;
      done := done + {n};
      assert chosen[n] in chosen.Values;
      rooms := rooms[selected[n].1 := selected[n].2];
    }
    assert done == selected.Keys;
    forall w ensures w in rooms <==> w in games && IsFirst(all, all.Keys, w) {
      ChosenAreFirst(all, chosen, w);
    }
  }

  // -------------------------------------------------------------- properties

  lemma RegisteringKeepsConsistent(t: Tables, worker: Id)
    requires Consistent(t)
    ensures Consistent(WorkerRegistered(t, worker))
  {
  }

  lemma UnregisteringKeepsConsistent(t: Tables, id: Id)
    requires Consistent(t)
    ensures Consistent(WorkerUnregistered(t, id)) && Consistent(ClientUnregistered(t, id))
  {
    var u := WorkerUnregistered(t, id);
    forall c <- u.clientToWorker ensures u.clientToWorker[c] in u.workers {
      assert c !in ClientsOf(t, id);
    }
  }

  lemma UpdatingKeepsConsistent(t: Tables, worker: Id, game: string, count: nat)
    requires Consistent(t) && worker in t.workers
    ensures NormalizeGameName(game) != "" ==> Consistent(t.(gameRooms := t.gameRooms[worker := game]))
    ensures Consistent(t.(playerCounts := t.playerCounts[worker := count]))
  {
  }
}
