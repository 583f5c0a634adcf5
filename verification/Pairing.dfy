/** Join-code pairing of phone controllers with the browser that hosts them: three maps
    kept in step by registration, joining, expiry and clean-up. */
module Pairing {
  import opened Wrappers
  import opened JoinCodes
  import opened Text

  /** Fifteen minutes, in milliseconds. */
  const JOIN_CODE_TTL: nat := 15 * 60 * 1000

  datatype HostRegistration = HostRegistration(host: Id, worker: Id, expiresAt: nat)

  datatype ControllerRoute = ControllerRoute(host: Id, worker: Id)

  datatype JoinError = MissingCode | InvalidCode

  datatype Cleanup = Cleanup(
    notifyHost: Option<Id>,
    notifyControllers: seq<Id>,
    workerTerminations: seq<(Id, Id)>)

  /** The three maps as one value. */
  datatype Maps = Maps(
    codeToHost: map<string, HostRegistration>,
    hostToCode: map<Id, string>,
    controllerToHost: map<Id, ControllerRoute>)

  /** `code_to_host` and `host_to_code` undo each other, and every key is a join code. */
  ghost predicate Consistent(m: Maps) {
    && (forall c <- m.codeToHost :: IsCode(c))
    && (forall c <- m.codeToHost ::
          m.codeToHost[c].host in m.hostToCode && m.hostToCode[m.codeToHost[c].host] == c)
    && (forall h <- m.hostToCode ::
          m.hostToCode[h] in m.codeToHost && m.codeToHost[m.hostToCode[h]].host == h)
  }

  // ------------------------------------------------ what each operation does

  /** The maps with the codes in `gone` taken out, and each host whose code that was. */
  function DropCodes(m: Maps, gone: set<string>): Maps
    requires gone <= m.codeToHost.Keys
  {
    m.(codeToHost := m.codeToHost - gone,
       hostToCode := map h | h in m.hostToCode
           && !(m.hostToCode[h] in gone && m.codeToHost[m.hostToCode[h]].host == h) :: m.hostToCode[h])
  }

  function Expired(m: Maps, now: nat): set<string> {
    set c | c in m.codeToHost && m.codeToHost[c].expiresAt <= now
  }

  function Pruned(m: Maps, now: nat): Maps {
    DropCodes(m, Expired(m, now))
  }

  lemma DropOneMore(m: Maps, gone: set<string>, code: string)
    requires gone <= m.codeToHost.Keys && code in m.codeToHost && code !in gone
    ensures
      var d, host := DropCodes(m, gone), m.codeToHost[code].host;
      DropCodes(m, gone + {code})
      == Maps(d.codeToHost - {code},
              if host in d.hostToCode && d.hostToCode[host] == code then d.hostToCode - {host} else d.hostToCode,
              d.controllerToHost)
  {
  }

  function Retargeted(routes: map<Id, ControllerRoute>, host: Id, worker: Id): map<Id, ControllerRoute> {
    map c | c in routes ::
      if routes[c].host == host then ControllerRoute(host, worker) else routes[c]
  }

  function Registered(m: Maps, host: Id, worker: Id, code: string, now: nat): Maps {
    Maps(m.codeToHost[code := HostRegistration(host, worker, now + JOIN_CODE_TTL)],
         m.hostToCode[host := code],
         Retargeted(m.controllerToHost, host, worker))
  }

  /** The code a registration may hand out: the host's own, or else an unused one. */
  predicate MayGrant(m: Maps, host: Id, code: string) {
    if host in m.hostToCode then code == m.hostToCode[host]
    else IsCode(code) && code !in m.codeToHost
  }

  function Joined(m: Maps, controller: Id, code: string): Maps
    requires code in m.codeToHost
  {
    var r := m.codeToHost[code];
    m.(controllerToHost := m.controllerToHost[controller := ControllerRoute(r.host, r.worker)])
  }

  /** What a join answers, and where it leads. */
  function JoinAnswer(m: Maps, text: string, now: nat): Result<ControllerRoute, JoinError> {
    var code, live := Normalize(text), Pruned(m, now).codeToHost;
    if code == "" then Err(MissingCode)
    else if code in live then Ok(ControllerRoute(live[code].host, live[code].worker))
    else Err(InvalidCode)
  }

  function Cleaned(m: Maps, id: Id): Maps {
    if id in m.controllerToHost then m.(controllerToHost := m.controllerToHost - {id})
    else
      Maps(if id in m.hostToCode then m.codeToHost - {m.hostToCode[id]} else m.codeToHost,
           m.hostToCode - {id},
           WithoutHost(m.controllerToHost, id))
  }

  function WithoutHost(routes: map<Id, ControllerRoute>, host: Id): map<Id, ControllerRoute> {
    map c | c in routes && routes[c].host != host :: routes[c]
  }

  function RoutesOf(routes: map<Id, ControllerRoute>, host: Id): set<Id> {
    set c | c in routes && routes[c].host == host
  }

  function Normalize(text: string): string {
    Upper(Trim(text))
  }

  ghost predicate NoDuplicates<T>(s: seq<T>) {
    forall i, j | 0 <= i < j < |s| :: s[i] != s[j]
  }

  /** What clean-up reports, in whatever order the route table is walked: one notice and
      one termination for each route that goes away. */
  ghost predicate Reports(m: Maps, id: Id, r: Cleanup) {
    if id in m.controllerToHost then
      && r.notifyHost == Some(m.controllerToHost[id].host)
      && r.notifyControllers == []
      && r.workerTerminations == [(m.controllerToHost[id].worker, id)]
    else
      && r.notifyHost == None
      && ListsRoutes(m.controllerToHost, RoutesOf(m.controllerToHost, id), r.notifyControllers, r.workerTerminations)
  }

  ghost predicate ListsRoutes(routes: map<Id, ControllerRoute>, gone: set<Id>, controllers: seq<Id>,
                              terminations: seq<(Id, Id)>)
    requires gone <= routes.Keys
  {
    && NoDuplicates(controllers)
    && (forall c :: c in controllers <==> c in gone)
    && |terminations| == |controllers|
    && forall i | 0 <= i < |controllers| ::
         controllers[i] in gone && terminations[i] == (routes[controllers[i]].worker, controllers[i])
  }

  lemma ListOneMore(routes: map<Id, ControllerRoute>, gone: set<Id>, controllers: seq<Id>,
                    terminations: seq<(Id, Id)>, c: Id)
    requires gone <= routes.Keys && ListsRoutes(routes, gone, controllers, terminations)
    requires c in routes && c !in gone
    ensures ListsRoutes(routes, gone + {c}, controllers + [c], terminations + [(routes[c].worker, c)])
  {
  }

  /** Does the host keep a code, or is an unused one left? */
  ghost predicate CodeIsLeft(m: Maps, host: Id) {
    host in m.hostToCode || |m.codeToHost.Keys| < CODE_SPACE
  }

  lemma PruningKeepsConsistent(m: Maps, now: nat)
    requires Consistent(m)
    ensures Consistent(Pruned(m, now))
  {
  }

  lemma RegisteringKeepsConsistent(m: Maps, host: Id, worker: Id, code: string, now: nat)
    requires Consistent(m) && MayGrant(m, host, code)
    ensures Consistent(Registered(m, host, worker, code, now))
  {
    var m' := Registered(m, host, worker, code, now);
    forall c <- m'.codeToHost
      ensures m'.codeToHost[c].host in m'.hostToCode && m'.hostToCode[m'.codeToHost[c].host] == c
    {
      if c != code {
        assert m.hostToCode[m.codeToHost[c].host] == c;
      }
    }
  }

  lemma CleaningKeepsConsistent(m: Maps, id: Id)
    requires Consistent(m)
    ensures Consistent(Cleaned(m, id))
  {
  }

  // ---------------------------------------------------------- the controllers

  class Controllers {
    var codeToHost: map<string, HostRegistration>
    var hostToCode: map<Id, string>
    var controllerToHost: map<Id, ControllerRoute>

    ghost function View(): Maps
      reads this
    {
      Maps(codeToHost, hostToCode, controllerToHost)
    }

    ghost predicate Valid()
      reads this
    {
      Consistent(View())
    }

    constructor ()
      ensures Valid() && View() == Maps(map[], map[], map[])
    {
      codeToHost, hostToCode, controllerToHost := map[], map[], map[];
    }

    method PruneExpired(now: nat)
      modifies this
      ensures View() == Pruned(old(View()), now)
    {
      ghost var m := View();
      var expired := set c | c in codeToHost && codeToHost[c].expiresAt <= now;
      var done: set<string> := {};
      assert View() == DropCodes(m, {});
      while expired - done != {}
        invariant done <= expired
        invariant View() == DropCodes(m, done)
        decreases expired - done
      {
        var code :| code in expired - done;
        DropOneMore(m, done, code);
        done := done + {code};
        var host := codeToHost[code].host;
        codeToHost := codeToHost - {code};
        if host in hostToCode && hostToCode[host] == code {
          hostToCode := hostToCode - {host};
        }
      }
      assert done == expired;
    }

    method RefreshControllerRoutes(host: Id, worker: Id)
      modifies this`controllerToHost
      ensures controllerToHost == Retargeted(old(controllerToHost), host, worker)
    {
      var routes := controllerToHost;
      var todo := routes.Keys;
      while todo != {}
        invariant todo <= routes.Keys && controllerToHost.Keys == routes.Keys
        invariant forall c <- routes ::
                    controllerToHost[c] == (if c in todo then routes else Retargeted(routes, host, worker))[c]
        decreases |todo|
      {
        var c :| c in todo;
        todo := todo - {c};
        if controllerToHost[c].host == host {
          controllerToHost := controllerToHost[c := controllerToHost[c].(worker := worker)];
        }
      }
    }

    /** `seeds` is what the seed source would deliver if a fresh code is needed. */
    method RegisterHost(host: Id, worker: Id, now: nat, seeds: seq<U64>) returns (code: string)
      requires Valid()
      requires |seeds| == MAX_ATTEMPTS + 1
      requires CodeIsLeft(Pruned(View(), now), host)
      modifies this
      ensures Valid()
      ensures MayGrant(Pruned(old(View()), now), host, code)
      ensures View() == Registered(Pruned(old(View()), now), host, worker, code, now)
    {
      PruningKeepsConsistent(View(), now);
      PruneExpired(now);
      ghost var pruned := View();
      if host in hostToCode {
        code := hostToCode[host];
        RegisteringKeepsConsistent(pruned, host, worker, code, now);
        var refreshed := RefreshCode(host, worker, code, now);
        if refreshed {
          return;
        }
        // A host's code is always registered, so the stale entry is never dropped here.
        assert false;
      }

      code := NextAvailableCode(codeToHost.Keys, seeds);
      RegisteringKeepsConsistent(pruned, host, worker, code, now);
      RecordCode(host, worker, code, now);
    }

    /** Extends the code the host has, and moves it and its controllers to the worker. */
    method RefreshCode(host: Id, worker: Id, code: string, now: nat) returns (refreshed: bool)
      requires host in hostToCode && hostToCode[host] == code
      requires code in codeToHost ==> codeToHost[code].host == host
      modifies this
      ensures refreshed <==> code in old(codeToHost)
      ensures View() == if refreshed then Registered(old(View()), host, worker, code, now) else old(View())
    {
      refreshed := false;
      if code in codeToHost {
        codeToHost := codeToHost[code := codeToHost[code].(worker := worker, expiresAt := now + JOIN_CODE_TTL)];
        refreshed := true;
      }
      if refreshed {
        RefreshControllerRoutes(host, worker);
        assert hostToCode == hostToCode[host := code];
      }
    }

    method RecordCode(host: Id, worker: Id, code: string, now: nat)
      modifies this
      ensures View() == Registered(old(View()), host, worker, code, now)
    {
      codeToHost := codeToHost[code := HostRegistration(host, worker, now + JOIN_CODE_TTL)];
      hostToCode := hostToCode[host := code];
      RefreshControllerRoutes(host, worker);
    }

    method Join(controller: Id, text: string, now: nat) returns (r: Result<ControllerRoute, JoinError>)
      requires Valid()
      modifies this
      ensures Valid()
      ensures r == JoinAnswer(old(View()), text, now)
      ensures
        var code, pruned := Normalize(text), Pruned(old(View()), now);
        if r == Err(MissingCode) then View() == old(View())
        else if r == Err(InvalidCode) then View() == pruned
        else View() == Joined(pruned, controller, code)
    {
      var code := Normalize(text);
      if code == "" {
        return Err(MissingCode);
      }
      PruningKeepsConsistent(View(), now);
      PruneExpired(now);
      if code !in codeToHost {
        return Err(InvalidCode);
      }
      var target := codeToHost[code];
      controllerToHost := controllerToHost[controller := ControllerRoute(target.host, target.worker)];
      r := Ok(ControllerRoute(target.host, target.worker));
    }

    method WorkerForInput(controller: Id, host: Id) returns (worker: Option<Id>)
      ensures forall w :: worker == Some(w) <==>
                controller in controllerToHost && controllerToHost[controller] == ControllerRoute(host, w)
    {
      if controller !in controllerToHost || controllerToHost[controller].host != host {
        return None;
      }
      worker := Some(controllerToHost[controller].worker);
    }

    method CleanupPeer(id: Id) returns (r: Cleanup)
      requires Valid()
      modifies this
      ensures Valid()
      ensures View() == Cleaned(old(View()), id)
      ensures Reports(old(View()), id, r)
    {
      CleaningKeepsConsistent(View(), id);
      if id in controllerToHost {
        var route := controllerToHost[id];
        controllerToHost := controllerToHost - {id};
        return Cleanup(Some(route.host), [], [(route.worker, id)]);
      }

      if id in hostToCode {
        var code := hostToCode[id];
        hostToCode := hostToCode - {id};
        codeToHost := codeToHost - {code};
      }

      var controllers, terminations := RemoveRoutesOf(id);
      r := Cleanup(None, controllers, terminations);
    }

    /** Takes out every route of `host`, in whatever order the table is walked. */
    method RemoveRoutesOf(host: Id) returns (controllers: seq<Id>, terminations: seq<(Id, Id)>)
      modifies this`controllerToHost
      ensures var routes := old(controllerToHost);
              && controllerToHost == WithoutHost(routes, host)
              && ListsRoutes(routes, RoutesOf(routes, host), controllers, terminations)
    {
      ghost var routes := controllerToHost;
      var mine := RoutesOf(controllerToHost, host);
      var done: set<Id> := {};
      controllers, terminations := [], [];
      while mine - done != {}
        invariant done <= mine
        invariant controllerToHost == routes - done
        invariant ListsRoutes(routes, done, controllers, terminations)
        decreases mine - done
      {
        var c :| c in mine - done;
        ListOneMore(routes, done, controllers, terminations, c);
        done := done + {c};
        terminations := terminations + [(controllerToHost[c].worker, c)];
        controllers := controllers + [c];
        controllerToHost := controllerToHost - {c};
      }
      assert done == mine;
      assert controllerToHost == WithoutHost(routes, host);
    }
  }

  // -------------------------------------------------------------------- runs

  datatype Event =
    | Register(at: nat, host: Id, worker: Id, code: string)
    | Join(at: nat, controller: Id, text: string)
    | CleanUp(at: nat, id: Id)

  function Step(m: Maps, e: Event): Maps {
    match e
    case Register(at, host, worker, code) => Registered(Pruned(m, at), host, worker, code, at)
    case Join(at, controller, text) =>
      var code, pruned := Normalize(text), Pruned(m, at);
      if code == "" then m
      else if code in pruned.codeToHost then Joined(pruned, controller, code)
      else pruned
    case CleanUp(_, id) => Cleaned(m, id)
  }

  function After(run: seq<Event>): Maps {
    if run == [] then Maps(map[], map[], map[]) else Step(After(run[..|run| - 1]), run[|run| - 1])
  }

  /** A run: the clock never goes back and every registration hands out a code it may. */
  ghost predicate IsRun(run: seq<Event>) {
    run == [] ||
    var front, e := run[..|run| - 1], run[|run| - 1];
    && IsRun(front)
    && (front != [] ==> front[|front| - 1].at <= e.at)
    && (e.Register? ==> MayGrant(Pruned(After(front), e.at), e.host, e.code))
  }

  /** Event j is a clean-up of `host` that takes the host path. */
  ghost predicate DropsHost(run: seq<Event>, j: nat, host: Id)
    requires j < |run|
  {
    Drops(After(run[..j]), run[j], host)
  }

  /** Event i returned `code`, and its host has not been cleaned up since. */
  ghost predicate HoldsGrant(run: seq<Event>, i: nat, code: string) {
    && i < |run| && run[i].Register? && run[i].code == code
    && forall j | i < j < |run| :: !DropsHost(run, j, run[i].host)
  }

  /** The worker named by the host's most recent registration. */
  function LastWorker(run: seq<Event>, host: Id): Option<Id> {
    if run == [] then None
    else
      var e := run[|run| - 1];
      if e.Register? && e.host == host then Some(e.worker) else LastWorker(run[..|run| - 1], host)
  }

  lemma StepKeepsConsistent(m: Maps, e: Event)
    requires Consistent(m) && (e.Register? ==> MayGrant(Pruned(m, e.at), e.host, e.code))
    ensures Consistent(Step(m, e))
  {
    PruningKeepsConsistent(m, e.at);
    if e.Register? {
      RegisteringKeepsConsistent(Pruned(m, e.at), e.host, e.worker, e.code, e.at);
    } else if e.CleanUp? {
      CleaningKeepsConsistent(m, e.id);
    }
  }

  lemma {:induction false} RunsStayConsistent(run: seq<Event>)
    requires IsRun(run)
    ensures Consistent(After(run))
  {
    if run == [] {
    } else {
      RunsStayConsistent(run[..|run| - 1]);
      StepKeepsConsistent(After(run[..|run| - 1]), run[|run| - 1]);
    }
  }

  /** Every live registration and every controller route names the worker of its host's
      most recent registration. */
  ghost predicate NamesLatestWorkers(m: Maps, run: seq<Event>) {
    && (forall c <- m.codeToHost :: LastWorker(run, m.codeToHost[c].host) == Some(m.codeToHost[c].worker))
    && (forall k <- m.controllerToHost ::
          LastWorker(run, m.controllerToHost[k].host) == Some(m.controllerToHost[k].worker))
  }

  /** ... in every reachable state, even after that host's code expired. */
  lemma {:induction false} RoutesFollowLatestRegistration(run: seq<Event>)
    requires IsRun(run)
    ensures NamesLatestWorkers(After(run), run)
  {
    if run == [] {
    } else {
      var front, e := run[..|run| - 1], run[|run| - 1];
      var m := After(front);
      RoutesFollowLatestRegistration(front);
      RunsStayConsistent(front);
      assert NamesLatestWorkers(Pruned(m, e.at), front);
      if e.Register? {
        PruningKeepsConsistent(m, e.at);
        RegistrationUpdatesWorkers(Pruned(m, e.at), run);
      } else {
        assert forall h :: LastWorker(run, h) == LastWorker(front, h);
        assert NamesLatestWorkers(Step(m, e), front);
      }
    }
  }

  lemma RegistrationUpdatesWorkers(m: Maps, run: seq<Event>)
    requires run != [] && run[|run| - 1].Register? && Consistent(m)
    requires NamesLatestWorkers(m, run[..|run| - 1])
    requires var e := run[|run| - 1]; MayGrant(m, e.host, e.code)
    ensures var e := run[|run| - 1];
            NamesLatestWorkers(Registered(m, e.host, e.worker, e.code, e.at), run)
  {
    var e := run[|run| - 1];
    var m' := Registered(m, e.host, e.worker, e.code, e.at);
    forall c <- m'.codeToHost
      ensures LastWorker(run, m'.codeToHost[c].host) == Some(m'.codeToHost[c].worker)
    {
      if c != e.code {
        assert m.hostToCode[m.codeToHost[c].host] == c;
      }
    }
  }

  /** Does event e, applied to m, remove the registrations of `host`? */
  predicate Drops(m: Maps, e: Event, host: Id) {
    e.CleanUp? && e.id == host && host !in m.controllerToHost
  }

  lemma GrantMakesLive(m: Maps, e: Event, now: nat)
    requires Consistent(m) && e.Register? && e.at <= now && MayGrant(Pruned(m, e.at), e.host, e.code)
    ensures
      var before, after := Pruned(m, now).codeToHost, Pruned(Step(m, e), now).codeToHost;
      && (e.code in after <==> now < e.at + JOIN_CODE_TTL)
      && (e.code in after ==> after[e.code].host == e.host)
      && (e.code in before ==> before[e.code].host == e.host)
  {
    var pruned := Pruned(m, e.at);
    PruningKeepsConsistent(m, e.at);
    if e.code in Pruned(m, now).codeToHost {
      assert e.code in pruned.codeToHost;
    }
  }

  lemma OtherEventsKeepLive(m: Maps, e: Event, code: string, now: nat)
    requires Consistent(m) && e.at <= now && !(e.Register? && e.code == code)
    ensures
      var before, after := Pruned(m, now).codeToHost, Pruned(Step(m, e), now).codeToHost;
      && (code in after <==> code in before && !Drops(m, e, before[code].host))
      && (code in after ==> after[code] == before[code])
  {
    if e.CleanUp? {
      CleanUpKeepsLive(m, e, code, now);
    } else {
      assert Pruned(Pruned(m, e.at), now).codeToHost == Pruned(m, now).codeToHost;
    }
  }

  lemma CleanUpKeepsLive(m: Maps, e: Event, code: string, now: nat)
    requires Consistent(m) && e.CleanUp?
    ensures
      var before, after := Pruned(m, now).codeToHost, Pruned(Step(m, e), now).codeToHost;
      && (code in after <==> code in before && !Drops(m, e, before[code].host))
      && (code in after ==> after[code] == before[code])
  {
    if code in m.codeToHost {
      var host := m.codeToHost[code].host;
      assert e.id in m.hostToCode && m.hostToCode[e.id] == code <==> host == e.id;
      assert code in Step(m, e).codeToHost <==> !Drops(m, e, host);
    }
  }

  lemma GrantsCarryOver(run: seq<Event>, i: nat, code: string)
    requires i < |run| - 1
    ensures var front := run[..|run| - 1];
            HoldsGrant(run, i, code) <==>
            HoldsGrant(front, i, code) && !DropsHost(run, |run| - 1, run[i].host)
  {
    var n := |run| - 1;
    var front := run[..n];
    if run[i].Register? {
      var host := run[i].host;
      forall j | i < j < n ensures DropsHost(run, j, host) == DropsHost(front, j, host) {
        assert run[..j] == front[..j];
      }
    }
  }

  ghost predicate GrantedWithinTtl(run: seq<Event>, i: nat, code: string, now: nat) {
    HoldsGrant(run, i, code) && now < run[i].at + JOIN_CODE_TTL
  }

  ghost predicate IsLiveByGrants(run: seq<Event>, code: string, now: nat) {
    var live := Pruned(After(run), now).codeToHost;
    && (code in live ==> exists i: nat :: GrantedWithinTtl(run, i, code, now))
    && (forall i: nat | GrantedWithinTtl(run, i, code, now) :: code in live && live[code].host == run[i].host)
  }

  /** A code is live at `now` exactly when some registration returned it less than the
      time-to-live ago and its host has not been cleaned up since; that host owns it. */
  lemma {:induction false} LiveCodes(run: seq<Event>, code: string, now: nat)
    requires IsRun(run) && (run != [] ==> run[|run| - 1].at <= now)
    ensures IsLiveByGrants(run, code, now)
  {
    if run == [] {
    } else {
      var front, e := run[..|run| - 1], run[|run| - 1];
      LiveCodes(front, code, now);
      RunsStayConsistent(front);
      if e.Register? && e.code == code {
        LiveAfterGrant(run, code, now);
      } else {
        LiveAfterOther(run, code, now);
      }
    }
  }

  lemma LiveAfterGrant(run: seq<Event>, code: string, now: nat)
    requires IsRun(run) && run != [] && run[|run| - 1].at <= now
    requires run[|run| - 1].Register? && run[|run| - 1].code == code
    requires var front := run[..|run| - 1]; Consistent(After(front)) && IsLiveByGrants(front, code, now)
    ensures IsLiveByGrants(run, code, now)
  {
    var n := |run| - 1;
    var front := run[..n];
    var live := Pruned(After(run), now).codeToHost;
    GrantMakesLive(After(front), run[n], now);
    forall i: nat | GrantedWithinTtl(run, i, code, now)
      ensures code in live && live[code].host == run[i].host
    {
      if i < n {
        GrantsCarryOver(run, i, code);
        assert GrantedWithinTtl(front, i, code, now);
        AtMostLastEvent(run, i);
      }
    }
    if code in live {
      assert GrantedWithinTtl(run, n, code, now);
    }
  }

  lemma LiveAfterOther(run: seq<Event>, code: string, now: nat)
    requires IsRun(run) && run != [] && run[|run| - 1].at <= now
    requires !(run[|run| - 1].Register? && run[|run| - 1].code == code)
    requires var front := run[..|run| - 1]; Consistent(After(front)) && IsLiveByGrants(front, code, now)
    ensures IsLiveByGrants(run, code, now)
  {
    var n := |run| - 1;
    var front := run[..n];
    var live := Pruned(After(run), now).codeToHost;
    OtherEventsKeepLive(After(front), run[n], code, now);
    forall i: nat | GrantedWithinTtl(run, i, code, now)
      ensures code in live && live[code].host == run[i].host
    {
      GrantsCarryOver(run, i, code);
      assert GrantedWithinTtl(front, i, code, now);
    }
    if code in live {
      var i: nat :| GrantedWithinTtl(front, i, code, now);
      GrantsCarryOver(run, i, code);
      assert GrantedWithinTtl(run, i, code, now);
    }
  }

  /** Events are in time order. */
  lemma {:induction false} AtMostLastEvent(run: seq<Event>, i: nat)
    requires IsRun(run) && i < |run|
    ensures run[i].at <= run[|run| - 1].at
  {
    if i < |run| - 1 {
      AtMostLastEvent(run[..|run| - 1], i);
    }
  }

  /** In every run, a join at time `now` succeeds exactly when the code typed, trimmed and
      upper-cased, was returned by a registration less than fifteen minutes earlier whose
      host has not been cleaned up since. It then leads to that host, on the worker of the
      host's latest registration. */
  lemma JoinSucceedsExactlyWhen(run: seq<Event>, now: nat, controller: Id, text: string)
    requires IsRun(run) && (run != [] ==> run[|run| - 1].at <= now)
    ensures
      var code, answer := Normalize(text), JoinAnswer(After(run), text, now);
      var after := After(run + [Join(now, controller, text)]).controllerToHost;
      && (answer.Ok? <==> exists i: nat :: GrantedWithinTtl(run, i, code, now))
      && (forall i: nat | GrantedWithinTtl(run, i, code, now) ::
            && answer.Ok? && answer.value.host == run[i].host
            && Some(answer.value.worker) == LastWorker(run, run[i].host)
            && controller in after && after[controller] == answer.value)
  {
    var code := Normalize(text);
    LiveCodes(run, code, now);
    RunsStayConsistent(run);
    RoutesFollowLatestRegistration(run);
    assert (run + [Join(now, controller, text)])[..|run|] == run;
  }

  /** A code typed back in any letter case and with any white space around it is the code. */
  lemma TypedCodeIsRecognized(left: string, typed: string, right: string, code: string)
    requires AllSpace(left) && AllSpace(right) && IsCode(code) && Upper(typed) == code
    ensures Normalize(left + typed + right) == code
  {
    assert IsSymbol(code[0]) && IsSymbol(code[5]);
    assert UpperChar(typed[0]) == code[0] && UpperChar(typed[5]) == code[5];
    TrimFindsCore(left, typed, right);
  }

  ghost predicate MentionsHost(m: Maps, id: Id) {
    || id in m.hostToCode
    || (exists c <- m.codeToHost :: m.codeToHost[c].host == id)
    || (exists k <- m.controllerToHost :: k != id && m.controllerToHost[k].host == id)
  }

  ghost predicate Mentions(m: Maps, id: Id) {
    id in m.controllerToHost || MentionsHost(m, id)
  }

  /** Cleaning up an id leaves no mention of it exactly when the id was not a controller
      and a host at once: a controller's clean-up stops before the host tables. */
  lemma CleanupIsCompleteExactlyWhen(m: Maps, id: Id)
    requires Consistent(m)
    ensures !Mentions(Cleaned(m, id), id) <==> !(id in m.controllerToHost && MentionsHost(m, id))
  {
    var m' := Cleaned(m, id);
    if id in m.controllerToHost {
      assert forall k <- m.controllerToHost :: k != id ==> k in m'.controllerToHost;
    } else {
      forall c <- m'.codeToHost ensures m'.codeToHost[c].host != id {
        assert m.hostToCode[m.codeToHost[c].host] == c;
      }
    }
  }

  /** Clean-up lists each route it removes exactly once, with the worker that route named,
      whatever the order in which the table was walked. */
  lemma OneTerminationPerRemovedRoute(m: Maps, id: Id, r: Cleanup)
    requires Reports(m, id, r)
    ensures NoDuplicates(r.workerTerminations)
    ensures var left := Cleaned(m, id).controllerToHost;
            forall w, c :: (w, c) in r.workerTerminations <==>
              c in m.controllerToHost && c !in left && m.controllerToHost[c].worker == w
  {
    var removed := if id in m.controllerToHost then {id} else RoutesOf(m.controllerToHost, id);
    assert forall c :: c in removed <==> c in m.controllerToHost && c !in Cleaned(m, id).controllerToHost;
    if id !in m.controllerToHost {
      var cs, ts := r.notifyControllers, r.workerTerminations;
      forall c | c in removed ensures (m.controllerToHost[c].worker, c) in ts {
        assert c in cs;
        var i :| 0 <= i < |cs| && cs[i] == c;
        assert ts[i] == (m.controllerToHost[c].worker, c);
      }
      forall w, c | (w, c) in ts ensures c in removed && m.controllerToHost[c].worker == w {
        var i :| 0 <= i < |ts| && ts[i] == (w, c);
        assert ts[i] == (m.controllerToHost[cs[i]].worker, cs[i]);
      }
      forall i, j | 0 <= i < j < |ts| ensures ts[i] != ts[j] {
        assert ts[i].1 == cs[i] && ts[j].1 == cs[j];
      }
    }
  }

  /** Such ids are reachable: a host that also joined another host's code stays
      registered after it has gone. */
  lemma HostThatJoinedElsewhereStaysRegistered(a: Id, b: Id, worker: Id, codeA: string, codeB: string)
    returns (run: seq<Event>)
    requires a != b && codeA != codeB && IsCode(codeA) && IsCode(codeB)
    ensures IsRun(run) && run != [] && run[|run| - 1] == CleanUp(0, a) && Mentions(After(run), a)
  {
    run := TwoHostsRegister(a, b, worker, codeA, codeB);
    CodesNormalizeToThemselves(codeB);
    run := JoinThenLeave(run, a, codeB);
  }

  lemma JoinThenLeave(before: seq<Event>, a: Id, code: string) returns (run: seq<Event>)
    requires IsRun(before) && before != [] && before[|before| - 1].at == 0
    requires var m := After(before); Pruned(m, 0) == m && a in m.hostToCode && code in m.codeToHost
    requires code != "" && Normalize(code) == code
    ensures IsRun(run) && run != [] && run[|run| - 1] == CleanUp(0, a) && Mentions(After(run), a)
  {
    JoinedHostSurvivesCleanup(After(before), 0, a, code);
    run := ExtendRun(before, Join(0, a, code));
    run := ExtendRun(run, CleanUp(0, a));
  }

  lemma JoinedHostSurvivesCleanup(m: Maps, now: nat, a: Id, code: string)
    requires Pruned(m, now) == m && a in m.hostToCode
    requires code != "" && Normalize(code) == code && code in m.codeToHost
    ensures Mentions(Step(Step(m, Join(now, a, code)), CleanUp(now, a)), a)
  {
    var m1 := Step(m, Join(now, a, code));
    assert a in m1.controllerToHost && m1.hostToCode == m.hostToCode;
    assert Cleaned(m1, a).hostToCode == m.hostToCode;
  }

  lemma TwoHostsRegister(a: Id, b: Id, worker: Id, codeA: string, codeB: string) returns (run: seq<Event>)
    requires a != b && codeA != codeB && IsCode(codeA) && IsCode(codeB)
    ensures IsRun(run) && run != [] && run[|run| - 1].at == 0
    ensures var m := After(run); Pruned(m, 0) == m && a in m.hostToCode && codeB in m.codeToHost
  {
    NothingExpires(After([]), 0);
    run := ExtendRun([], Register(0, a, worker, codeA));
    var m1 := After(run);
    assert m1.codeToHost == map[codeA := HostRegistration(a, worker, JOIN_CODE_TTL)];
    assert m1.hostToCode == map[a := codeA];
    NothingExpires(m1, 0);
    run := ExtendRun(run, Register(0, b, worker, codeB));
    NothingExpires(After(run), 0);
  }

  lemma NothingExpires(m: Maps, now: nat)
    requires forall c <- m.codeToHost :: now < m.codeToHost[c].expiresAt
    ensures Pruned(m, now) == m
  {
    assert Expired(m, now) == {};
  }

  lemma ExtendRun(run: seq<Event>, e: Event) returns (longer: seq<Event>)
    requires IsRun(run) && (run != [] ==> run[|run| - 1].at <= e.at)
    requires e.Register? ==> MayGrant(Pruned(After(run), e.at), e.host, e.code)
    ensures longer == run + [e] && longer[|longer| - 1] == e
    ensures IsRun(longer) && After(longer) == Step(After(run), e)
  {
    longer := run + [e];
    assert longer[..|longer| - 1] == run;
  }

  lemma CodesNormalizeToThemselves(code: string)
    requires IsCode(code)
    ensures Normalize(code) == code && code != ""
  {
    assert forall i | 0 <= i < |code| :: UpperChar(code[i]) == code[i];
    assert Upper(code) == code;
    TypedCodeIsRecognized("", code, "", code);
    assert "" + code + "" == code;
  }
}
