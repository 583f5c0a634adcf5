/** Who is paired with whom, told from what happened alone: which registrations, joins and
    clean-ups there were, and when. */
module PairingHistory {
  import opened Wrappers
  import opened Pairing
  import JoinCodes

  /** The host that a code leads to at `now`: the last to be granted it, if that is less than
      the time-to-live ago and the host has not been cleaned up, while no controller, since. */
  function Owner(run: seq<Event>, code: string, now: nat): Option<Id>
    decreases |run|, 0
  {
    if run == [] then None
    else
      var front := run[..|run| - 1];
      match run[|run| - 1]
      case Register(at, host, _, granted) =>
        if granted != code then Owner(front, code, now) else if now < at + JOIN_CODE_TTL then Some(host) else None
      case Join(_, _, _) => Owner(front, code, now)
      case CleanUp(_, id) => if RunsHostPath(front, id) && Owner(front, code, now) == Some(id) then None
                             else Owner(front, code, now)
  }

  /** The host that a controller is paired with: the one its last join that succeeded led to,
      if neither has been cleaned up since, the host while no controller itself. */
  function PairedWith(run: seq<Event>, controller: Id): Option<Id>
    decreases |run|, 0
  {
    if run == [] then None
    else
      var front := run[..|run| - 1];
      var before := PairedWith(front, controller);
      match run[|run| - 1]
      case Register(_, _, _, _) => before
      case Join(at, who, text) =>
        var owner := Owner(front, Normalize(text), at);
        if who == controller && owner != None then owner else before
      case CleanUp(_, id) =>
        if id == controller || (RunsHostPath(front, id) && before == Some(id)) then None else before
  }

  /** Does cleaning up the id after this history go on to the host tables? */
  predicate RunsHostPath(run: seq<Event>, id: Id)
    decreases |run|, 1
  {
    PairedWith(run, id) == None
  }

  // -------------------------------------------------- the tables follow history

  function HostOf(m: Maps, controller: Id): Option<Id> {
    if controller in m.controllerToHost then Some(m.controllerToHost[controller].host) else None
  }

  function OwnerIn(m: Maps, code: string, now: nat): Option<Id> {
    var live := Pruned(m, now).codeToHost;
    if code in live then Some(live[code].host) else None
  }

  ghost predicate Agrees(m: Maps, run: seq<Event>) {
    && (forall k :: HostOf(m, k) == PairedWith(run, k))
    && (forall code, now: nat | run != [] ==> run[|run| - 1].at <= now ::
          OwnerIn(m, code, now) == Owner(run, code, now))
  }

  lemma {:induction false} TablesFollowHistory(run: seq<Event>)
    requires IsRun(run)
    ensures Agrees(After(run), run)
  {
    if run == [] {
    } else {
      var front, e := run[..|run| - 1], run[|run| - 1];
      var m := After(front);
      TablesFollowHistory(front);
      RunsStayConsistent(front);
      forall k ensures HostOf(Step(m, e), k) == PairedWith(run, k) {
        PairsFollow(m, front, run, k);
      }
      forall code, now: nat | e.at <= now ensures OwnerIn(Step(m, e), code, now) == Owner(run, code, now) {
        OwnersFollow(m, front, run, code, now);
      }
    }
  }

  lemma PairsFollow(m: Maps, front: seq<Event>, run: seq<Event>, k: Id)
    requires run != [] && front == run[..|run| - 1] && Consistent(m) && Agrees(m, front)
    requires front != [] ==> front[|front| - 1].at <= run[|run| - 1].at
    ensures HostOf(Step(m, run[|run| - 1]), k) == PairedWith(run, k)
  {
    match run[|run| - 1]
    case Register(at, host, worker, code) => RegisteringKeepsPairs(m, host, worker, code, at, k);
    case Join(at, who, text) =>
      assert OwnerIn(m, Normalize(text), at) == Owner(front, Normalize(text), at);
      JoiningPairs(m, at, who, text, k);
    case CleanUp(at, id) =>
      assert HostOf(m, id) == PairedWith(front, id) && HostOf(m, k) == PairedWith(front, k);
      CleaningUnpairs(m, id, k);
  }

  lemma RegisteringKeepsPairs(m: Maps, host: Id, worker: Id, code: string, at: nat, k: Id)
    ensures HostOf(Registered(Pruned(m, at), host, worker, code, at), k) == HostOf(m, k)
  {
  }

  lemma JoiningPairs(m: Maps, at: nat, who: Id, text: string, k: Id)
    requires Consistent(m)
    ensures var owner := OwnerIn(m, Normalize(text), at);
            HostOf(Step(m, Join(at, who, text)), k) == if who == k && owner != None then owner else HostOf(m, k)
  {
    assert "" !in m.codeToHost by {
      assert !JoinCodes.IsCode("");
    }
  }

  lemma CleaningUnpairs(m: Maps, id: Id, k: Id)
    ensures HostOf(Cleaned(m, id), k)
            == if id == k || (HostOf(m, id) == None && HostOf(m, k) == Some(id)) then None else HostOf(m, k)
  {
  }

  lemma OwnersFollow(m: Maps, front: seq<Event>, run: seq<Event>, code: string, now: nat)
    requires run != [] && front == run[..|run| - 1] && run[|run| - 1].at <= now
    requires front != [] ==> front[|front| - 1].at <= run[|run| - 1].at
    requires Consistent(m) && Agrees(m, front)
    requires var e := run[|run| - 1]; e.Register? ==> MayGrant(Pruned(m, e.at), e.host, e.code)
    ensures OwnerIn(Step(m, run[|run| - 1]), code, now) == Owner(run, code, now)
  {
    var e := run[|run| - 1];
    assert OwnerIn(m, code, now) == Owner(front, code, now);
    if e.Register? && e.code == code {
      GrantMakesLive(m, e, now);
    } else {
      OtherEventsKeepLive(m, e, code, now);
      if e.CleanUp? {
        assert HostOf(m, e.id) == PairedWith(front, e.id);
      }
    }
  }

  // ------------------------------------------------------------- in one sentence

  /** Does event j pair the controller with the host? */
  predicate Pairs(run: seq<Event>, j: nat, controller: Id, host: Id)
    requires j < |run|
  {
    && run[j].Join? && run[j].controller == controller
    && Owner(run[..j], Normalize(run[j].text), run[j].at) == Some(host)
  }

  /** Does event j end that: a join that leads elsewhere, or again, the controller's clean-up,
      or the host's by the host path? */
  predicate Unpairs(run: seq<Event>, j: nat, controller: Id, host: Id)
    requires j < |run|
  {
    || (run[j].Join? && run[j].controller == controller
        && Owner(run[..j], Normalize(run[j].text), run[j].at) != None)
    || (run[j].CleanUp? && (run[j].id == controller || (run[j].id == host && RunsHostPath(run[..j], host))))
  }

  ghost predicate PairsForGood(run: seq<Event>, i: nat, controller: Id, host: Id) {
    && i < |run| && Pairs(run, i, controller, host)
    && forall j | i < j < |run| :: !Unpairs(run, j, controller, host)
  }

  lemma PrefixesAgree(run: seq<Event>, j: nat, controller: Id, host: Id)
    requires j < |run| - 1
    ensures var front := run[..|run| - 1];
            && Pairs(front, j, controller, host) == Pairs(run, j, controller, host)
            && Unpairs(front, j, controller, host) == Unpairs(run, j, controller, host)
  {
    assert run[..|run| - 1][..j] == run[..j];
  }

  lemma LastEventDecides(run: seq<Event>, controller: Id, host: Id)
    requires run != []
    ensures var n := |run| - 1;
            PairedWith(run, controller) == Some(host) <==>
              || Pairs(run, n, controller, host)
              || (PairedWith(run[..n], controller) == Some(host) && !Unpairs(run, n, controller, host))
  {
  }

  lemma {:induction false} PairedExactlyWhen(run: seq<Event>, controller: Id, host: Id)
    ensures PairedWith(run, controller) == Some(host) <==> exists i: nat :: PairsForGood(run, i, controller, host)
  {
    if run == [] {
    } else {
      var n := |run| - 1;
      var front := run[..n];
      PairedExactlyWhen(front, controller, host);
      LastEventDecides(run, controller, host);
      if Pairs(run, n, controller, host) {
        assert PairsForGood(run, n, controller, host);
      }
      forall i: nat | i < n
        ensures PairsForGood(run, i, controller, host) <==>
                PairsForGood(front, i, controller, host) && !Unpairs(run, n, controller, host)
      {
        forall j | i <= j < n
          ensures Pairs(front, j, controller, host) == Pairs(run, j, controller, host)
          ensures Unpairs(front, j, controller, host) == Unpairs(run, j, controller, host)
        {
          PrefixesAgree(run, j, controller, host);
        }
      }
    }
  }

  /** In every run, a controller has a route to a host exactly when its latest join that
      succeeded led to that host, and since then neither the controller was cleaned up nor the
      host by the host path. Registrations and expiry in between do not matter, but for the
      worker: the route names the one of the host's latest registration. */
  lemma RoutedExactlyWhen(run: seq<Event>, controller: Id, host: Id)
    requires IsRun(run)
    ensures
      var routes := After(run).controllerToHost;
      var paired := exists i: nat :: PairsForGood(run, i, controller, host);
      && (controller in routes && routes[controller].host == host <==> paired)
      && (paired ==> LastWorker(run, host) == Some(routes[controller].worker))
  {
    TablesFollowHistory(run);
    PairedExactlyWhen(run, controller, host);
    RoutesFollowLatestRegistration(run);
    assert HostOf(After(run), controller) == PairedWith(run, controller);
  }

  /** A code leads to a host exactly while one of its grants to the host holds. */
  lemma OwnsExactlyWhen(run: seq<Event>, code: string, now: nat, host: Id)
    requires IsRun(run) && (run != [] ==> run[|run| - 1].at <= now)
    ensures Owner(run, code, now) == Some(host)
            <==> exists i: nat :: GrantedWithinTtl(run, i, code, now) && run[i].host == host
  {
    TablesFollowHistory(run);
    LiveCodes(run, code, now);
    assert OwnerIn(After(run), code, now) == Owner(run, code, now);
  }
}
