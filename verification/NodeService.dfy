/** The operations of internal/node that hold the lifecycle lock, each shown to be one step of NodeRuns. */
module NodeService {
  import opened Common
  import opened CoreConfig
  import opened ApiConfig
  import L = Listeners
  import F = Forwarding
  import opened UserEdits
  import opened Activation
  import opened NodeRuns

  class Service {
    const host: L.Host
    const manager: Manager
    const forwarding: F.Service

    ghost predicate Valid() reads this, manager, manager.runtime, forwarding { manager.Valid() && forwarding.Valid() }

    ghost function Now(): World reads this, manager, manager.runtime,
        forwarding { World(manager.Snapshot(), forwarding.applied) }

    /** The ports of the configuration that runs, as a sync reads them. */
    ghost function Opened(): seq<L.Listener> reads manager, manager.runtime {
      if manager.runtime.running == SingBox then L.CoreListeners(manager.runtime.config, host) else []
    }

    /** A running core comes up again with its edited configuration. */
    ghost predicate RestartsIfRunning(n: Node, edited: Object, f: Faults) {
      n.running == SingBox ==> OutcomeOf(n.(config := edited), f, manager.codec) == Committed
    }

    ghost function Around(): Env { Env(manager.codec, manager.settings, host) }

    constructor (codec: Codec, settings: Settings, host: L.Host, file: Option<string>, lastGood: Option<string>)
      ensures Valid() && Init(Now()) && Around() == Env(codec, settings, host)
      ensures fresh(manager) && fresh(manager.runtime) && fresh(forwarding)
    {
      this.host := host;
      manager := new Manager(codec, settings, file, lastGood);
      forwarding := new F.Service();
    }

    /** Start; `restart` says whether anything asks for a restart even if the configuration is the running one. */
    method Start(request: Object, restart: bool, f: Faults) returns (ok: bool, ghost a: Action)
      requires Valid()
      modifies manager, manager.runtime
      ensures Valid() && Step(old(Now()), Now(), a, Around())
      ensures a == Action.Start(request, restart, f)
      ensures ok ==> manager.runtime.running == SingBox
      ensures var c := Equipped(request, manager.settings);
              var stays := !restart && old(manager.runtime.running) == SingBox && old(manager.runtime.config) == c;
              && (ok <==>
                    && c != map[] && F.Exclusive(forwarding.applied, L.CoreListeners(c, host))
                    && (stays || OutcomeOf(old(manager.Snapshot()), f, manager.codec) == Committed))
              && (ok && stays ==> manager.report == Report(Unchanged, Some(manager.codec.encode(c)), NotRequired))
    {
      var c := ApplySingBoxAPIConfig(request, manager.settings);
      if c == map[] {
        return false, Action.Start(request, restart, f);
      }
      var conflict := forwarding.ValidateCoreConfig(c, host);
      if conflict.Some? {
        return false, Action.Start(request, restart, f);
      }
      if restart || manager.runtime.running != SingBox || manager.runtime.config != c {
        ok := manager.RestartSingBox(c, f);
        return ok, Action.Start(request, restart, f);
      }
      manager.runtime.SetSingBoxConfig(c);
      manager.report := Report(Unchanged, Some(manager.codec.encode(c)), NotRequired);
      return true, Action.Start(request, restart, f);
    }

    /** restartCurrentCore */
    method RestartCurrentCore(f: Faults) returns (ok: bool)
      requires Valid()
      modifies manager, manager.runtime
      ensures Valid()
      ensures old(manager.runtime.running) == NoCore ==> ok && manager.Snapshot() == old(manager.Snapshot())
      ensures old(manager.runtime.running) == SingBox ==>
                Activates(old(manager.Snapshot()), manager.Snapshot(), old(manager.runtime.config), f, Around())
      ensures old(manager.runtime.running) == SingBox ==>
                ok == (OutcomeOf(old(manager.Snapshot()), f, manager.codec) == Committed)
    {
      if manager.runtime.running == SingBox {
        ok := manager.RestartSingBox(manager.runtime.config, f);
      } else {
        ok := true;
      }
    }

    /** AddUser */
    method AddUser(items: seq<Item>, f: Faults) returns (ok: bool, ghost a: Action)
      requires Valid()
      modifies manager, manager.runtime
      ensures Valid() && Step(old(Now()), Now(), a, Around()) && a.Edit?
      ensures ok && items != [] ==> Edited(old(manager.runtime.config), items) == Ok(a.edited)
      ensures a.faults == f
      ensures a.whole <==> ApplicableTo(items, old(manager.runtime.running), old(manager.runtime.config))
      ensures ok <==> a.whole && RestartsIfRunning(old(manager.Snapshot()), a.edited, f)
    {
      var applied := manager.runtime.ApplyAddUserRequest(items);
      ghost var edited := manager.runtime.config;
      if applied.Err? {
        return false, Action.Edit(edited, false, f);
      }
      ok := RestartCurrentCore(f);
      return ok, Action.Edit(edited, true, f);
    }

    /** RemoveUser */
    method RemoveUser(username: string, f: Faults) returns (ok: bool, ghost a: Action)
      requires Valid()
      modifies manager, manager.runtime
      ensures Valid() && Step(old(Now()), Now(), a, Around()) && a.Edit?
      ensures old(manager.runtime.running) == SingBox ==>
                && a == Action.Edit(Removed(old(manager.runtime.config), username), true, f)
                && ok == RestartsIfRunning(old(manager.Snapshot()), a.edited, f)
      ensures old(manager.runtime.running) == NoCore ==>
                !ok && a == Action.Edit(old(manager.runtime.config), false, f)
    {
      RemovedSameShape(manager.runtime.config, username);
      SameShapeReflexive(manager.runtime.config);
      var removed := manager.runtime.RemoveUserEverywhere(username);
      ghost var edited := manager.runtime.config;
      if removed.Err? {
        return false, Action.Edit(edited, false, f);
      }
      ok := RestartCurrentCore(f);
      return ok, Action.Edit(edited, true, f);
    }

    /** Stop; an error of the supervisor is ignored. */
    method Stop(fails: bool) returns (ghost a: Action)
      requires Valid()
      modifies manager, manager.runtime
      ensures Valid() && Step(old(Now()), Now(), a, Around()) && a.Stop?
      ensures manager.process == if fails then old(manager.process) else Stopped
    {
      manager.StopProcess(fails);
      manager.runtime.SetRunningCore(NoCore);
      manager.runtime.Reset();
      return Action.Stop;
    }

    /** ForwardingSync: rules are checked against the listeners of the core that runs now. `isSealed` is
        whether the traffic so far could be captured first; `sockets` is the host's listing, which shows
        everything the core's process listens on. */
    method ForwardingSync(cfg: F.Config, hash: string, net: F.Network, isSealed: bool,
                          sockets: seq<L.Listener>, dnat: seq<L.Listener>, hostFailed: bool)
      returns (ok: bool, ghost a: Action)
      requires Valid() && Shows(sockets, Sockets(manager.Snapshot(), Around()))
      modifies forwarding
      ensures Valid() && Step(old(Now()), Now(), a, Around()) && a.Sync?
      ensures ok <==>
                && isSealed && !hostFailed
                && F.Accepts(cfg, Opened(), net.(last := old(forwarding.resolved)))
                && (F.Active(cfg) ==> F.RulesExclude(cfg.rules, sockets) && F.RulesExclude(cfg.rules, dnat))
      ensures forwarding.applied == if ok then cfg else old(forwarding.applied)
    {
      if !isSealed {
        return false, Action.Sync;
      }
      var listeners: seq<L.Listener> := [];
      if manager.runtime.running == SingBox {
        listeners := L.ExtractCoreListeners(manager.runtime.config, host);
      }
      ShownIsExcluded(cfg, sockets, Sockets(manager.Snapshot(), Around()));
      var r := forwarding.Sync(cfg, listeners, hash, net, sockets, dnat, hostFailed);
      return r.Ok?, Action.Sync;
    }
  }

  ghost predicate ApplicableTo(items: seq<Item>, running: CoreType, config: Object) {
    items == [] || (running == SingBox && Edited(config, items).Ok?)
  }

  ghost predicate Shows(sockets: seq<L.Listener>, held: seq<L.Listener>) {
    forall i :: 0 <= i < |held| ==>
      exists j :: 0 <= j < |sockets| && sockets[j].port == held[i].port && sockets[j].transport == held[i].transport
  }

  lemma ShownIsExcluded(cfg: F.Config, sockets: seq<L.Listener>, held: seq<L.Listener>)
    requires Shows(sockets, held)
    ensures F.Exclusive(cfg, sockets) ==> F.Exclusive(cfg, held)
  {
    if F.Exclusive(cfg, sockets) && cfg.enabled {
      forall r, i | 0 <= r < |cfg.rules| && 0 <= i < |held| ensures !F.Takes(cfg.rules[r], held[i]) {
        var j :| 0 <= j < |sockets| && sockets[j].port == held[i].port && sockets[j].transport == held[i].transport;
        assert !F.Takes(cfg.rules[r], sockets[j]);
      }
    }
  }

  lemma SameShapeReflexive(c: Object)
    ensures SameShape(c, c)
  {
  }
}
