/** internal/forwarding/forwarding.go: port forwarding rules and their conflicts with each other and
    with the core's inbounds. */
module Forwarding {
  import opened Common
  import opened StatName
  import opened CoreConfig
  import opened Listeners

  datatype Rule = Rule(id: string, name: string, enabled: bool, protocol: Transport, listenPort: int,
      targetAddress: string, targetPort: int)

  datatype Config = Config(enabled: bool, rules: seq<Rule>)

  datatype Against = CoreInbound(source: string) | ForwardingRule(name: string) | NodeService | NftRule

  datatype Error = Invalid | Unresolved | Conflict(protocol: Transport, port: int, against: Against) | NoRoute
      | HostFailed

  /** What the host says about addresses. Resolving a target takes the address the rule had last, which is
      preferred among several; `last` holds those addresses by rule. */
  datatype Network = Network(
    addressOk: string -> bool, resolve: (string, string) -> Option<string>, last: map<string, string>,
    local: set<string>, interface: Option<string>, route: string -> Option<string>)

  function Target(rule: Rule, net: Network): Option<string> {
    net.resolve(rule.targetAddress, if rule.id in net.last then net.last[rule.id] else "")
  }

  const MAX_RULES := 64

  // ---------------------------------------------------------------- overlap

  predicate Overlap(left: Transport, right: Transport) { left == Both || right == Both || left == right }

  function OverlapProtocol(left: Transport, right: Transport): Transport { if left == Both then right else left }

  /** expandedProtocols: the transports whose traffic a rule takes. */
  function Expanded(protocol: Transport): set<Transport> {
    match protocol
    case TCP => {TCP}
    case UDP => {UDP}
    case _ => {TCP, UDP}
  }

  predicate Known(protocol: Transport) { !protocol.Other? }

  /** Two protocols overlap exactly when some transport belongs to both, and the reported protocol is
      what they share. */
  lemma OverlapIsShared(left: Transport, right: Transport)
    requires Known(left) && Known(right)
    ensures Overlap(left, right) <==> Expanded(left) * Expanded(right) != {}
    ensures Overlap(left, right) ==> Expanded(OverlapProtocol(left, right)) == Expanded(left) * Expanded(right)
  {
    if left == TCP || left == UDP {
      assert left in Expanded(left);
      if right != Both && right != left {
        assert Expanded(left) * Expanded(right) == {};
      } else {
        assert left in Expanded(left) * Expanded(right);
      }
    } else {
      assert Expanded(left) * Expanded(right) == Expanded(right);
      assert right == TCP || right == UDP || right == Both;
      assert TCP in Expanded(right) || UDP in Expanded(right);
    }
  }

  // ---------------------------------------------------------------- conflicts

  predicate Clash(left: Rule, right: Rule) {
    left.enabled && right.enabled && left.listenPort == right.listenPort && Overlap(left.protocol, right.protocol)
  }

  predicate Takes(rule: Rule, l: Listener) {
    rule.enabled && rule.listenPort == l.port && Overlap(rule.protocol, l.transport)
  }

  predicate Disjoint(rules: seq<Rule>) {
    forall i, j :: 0 <= i < j < |rules| ==> !Clash(rules[i], rules[j])
  }

  /** No enabled rule takes the traffic of a listener. */
  predicate RulesExclude(rules: seq<Rule>, listeners: seq<Listener>) {
    forall i, j :: 0 <= i < |rules| && 0 <= j < |listeners| ==> !Takes(rules[i], listeners[j])
  }

  predicate Exclusive(cfg: Config, listeners: seq<Listener>) { cfg.enabled ==> RulesExclude(cfg.rules, listeners) }

  /** A reported conflict is a real one. */
  ghost predicate Genuine(e: Error, cfg: Config, listeners: seq<Listener>) {
    e.Conflict? ==>
      match e.against
      case ForwardingRule(name) =>
        exists i, j :: 0 <= i < j < |cfg.rules| && Clash(cfg.rules[i], cfg.rules[j])
            && cfg.rules[i].listenPort == e.port && cfg.rules[j].name == name
          && e.protocol == OverlapProtocol(cfg.rules[i].protocol, cfg.rules[j].protocol)
      case NodeService => false
      case NftRule => false
      case CoreInbound(source) =>
        exists i, j :: 0 <= i < |cfg.rules| && 0 <= j < |listeners| && Takes(cfg.rules[i], listeners[j])
            && listeners[j].port == e.port && listeners[j].source == source
          && e.protocol == OverlapProtocol(cfg.rules[i].protocol, listeners[j].transport)
  }

  // ---------------------------------------------------------------- validateLocked

  predicate Blank(s: string) { forall i :: 0 <= i < |s| ==> s[i] == ' ' || '\t' <= s[i] <= '\r' }

  predicate Port(n: int) { 1 <= n <= 65535 }

  predicate RuleOk(rule: Rule, net: Network) {
    && !Blank(rule.id) && !Blank(rule.name) && |rule.name| <= 64
    && Known(rule.protocol) && Port(rule.listenPort) && Port(rule.targetPort)
    && net.addressOk(rule.targetAddress)
  }

  predicate TargetOk(rule: Rule, net: Network) {
    rule.enabled ==> Target(rule, net).Some? && Target(rule, net).value !in net.local
  }

  predicate RulesOk(rules: seq<Rule>, net: Network) {
    && (forall i :: 0 <= i < |rules| ==> RuleOk(rules[i], net) && TargetOk(rules[i], net))
    && (forall i, j :: 0 <= i < j < |rules| ==> rules[i].id != rules[j].id)
  }

  predicate AnyEnabled(rules: seq<Rule>) { exists i :: 0 <= i < |rules| && rules[i].enabled }

  predicate Active(cfg: Config) { cfg.enabled && AnyEnabled(cfg.rules) }

  function Resolved(rule: Rule, net: Network): Rule {
    if rule.enabled && Target(rule, net).Some? then rule.(targetAddress := Target(rule, net).value) else rule
  }

  predicate Routed(rules: seq<Rule>, net: Network) {
    forall i :: 0 <= i < |rules| && rules[i].enabled ==> net.route(Resolved(rules[i], net).targetAddress).Some?
  }

  /** Everything a configuration must satisfy to be applied. */
  predicate Accepts(cfg: Config, listeners: seq<Listener>, net: Network) {
    && |cfg.rules| <= MAX_RULES && RulesOk(cfg.rules, net) && Disjoint(cfg.rules)
    && (Active(cfg) ==> net.interface.Some? && Exclusive(cfg, listeners) && Routed(cfg.rules, net))
  }

  method CheckRules(rules: seq<Rule>, net: Network) returns (r: Result<map<string, string>, Error>)
    ensures r.Ok? <==> RulesOk(rules, net)
    ensures r.Err? ==> !r.error.Conflict?
    ensures r.Ok? ==> Targets(r.value, rules, net)
  {
    var seen: set<string> := {};
    var resolved: map<string, string> := map[];
    for k := 0 to |rules|
      invariant RulesOk(rules[..k], net)
      invariant forall id :: id in seen <==> exists i :: 0 <= i < k && rules[i].id == id
      invariant forall id :: id in resolved <==> exists i :: 0 <= i < k && rules[i].enabled && rules[i].id == id
      invariant forall i :: 0 <= i < k && rules[i].enabled ==> Some(resolved[rules[i].id]) == Target(rules[i], net)
    {
      var rule := rules[k];
      if rule.id in seen || !RuleOk(rule, net) {
        return Err(Invalid);
      }
      seen := seen + {rule.id};
      if rule.enabled {
        var target := Target(rule, net);
        if target.None? || target.value in net.local {
          assert !TargetOk(rules[k], net);
          return Err(Unresolved);
        }
        resolved := resolved[rule.id := target.value];
      }
    }
    assert rules[..|rules|] == rules;
    return Ok(resolved);
  }

  method FindClash(rules: seq<Rule>) returns (e: Option<Error>)
    ensures e.None? <==> Disjoint(rules)
    ensures e.Some? ==>
              e.value.Conflict? && e.value.against.ForwardingRule?
                  && forall listeners, on :: Genuine(e.value, Config(on, rules), listeners)
  {
    for i := 0 to |rules|
      invariant forall k, j :: 0 <= k < i && k < j < |rules| ==> !Clash(rules[k], rules[j])
    {
      if rules[i].enabled {
        for j := i + 1 to |rules|
          invariant forall k :: i < k < j ==> !Clash(rules[i], rules[k])
        {
          if rules[j].enabled && rules[i].listenPort == rules[j].listenPort
              && Overlap(rules[i].protocol, rules[j].protocol) {
            assert Clash(rules[i], rules[j]);
            return Some(Conflict(OverlapProtocol(rules[i].protocol, rules[j].protocol), rules[i].listenPort,
                ForwardingRule(rules[j].name)));
          }
        }
      }
    }
    return None;
  }

  /** The conflict loop shared by validateLocked and ValidateCoreConfig. */
  method FindTaken(rules: seq<Rule>, listeners: seq<Listener>) returns (e: Option<Error>)
    ensures e.None? <==> RulesExclude(rules, listeners)
    ensures e.Some? ==>
              e.value.Conflict? && e.value.against.CoreInbound?
                  && forall on :: Genuine(e.value, Config(on, rules), listeners)
  {
    for i := 0 to |rules|
      invariant forall k, j :: 0 <= k < i && 0 <= j < |listeners| ==> !Takes(rules[k], listeners[j])
    {
      if rules[i].enabled {
        for j := 0 to |listeners|
          invariant forall k :: 0 <= k < j ==> !Takes(rules[i], listeners[k])
        {
          if rules[i].listenPort == listeners[j].port && Overlap(rules[i].protocol, listeners[j].transport) {
            assert Takes(rules[i], listeners[j]);
            return Some(Conflict(OverlapProtocol(rules[i].protocol, listeners[j].transport), rules[i].listenPort,
                CoreInbound(listeners[j].source)));
          }
        }
      }
    }
    return None;
  }

  method FindRoutes(rules: seq<Rule>, net: Network) returns (routes: Option<map<string, string>>)
    ensures routes.Some? <==> Routed(rules, net)
    ensures routes.Some? ==> forall i :: 0 <= i < |rules| && rules[i].enabled ==>
              Resolved(rules[i], net).targetAddress in routes.value &&
              net.route(Resolved(rules[i], net).targetAddress) ==
                  Some(routes.value[Resolved(rules[i], net).targetAddress])
  {
    var found: map<string, string> := map[];
    for k := 0 to |rules|
      invariant forall a :: a in found ==> net.route(a) == Some(found[a])
      invariant forall i :: 0 <= i < k && rules[i].enabled ==> Resolved(rules[i], net).targetAddress in found
    {
      if rules[k].enabled {
        var target := Resolved(rules[k], net).targetAddress;
        if target !in found {
          var egress := net.route(target);
          if egress.None? {
            return None;
          }
          found := found[target := egress.value];
        }
      }
    }
    return Some(found);
  }

  /** detectSocketConflicts and detectNFTConflicts: nothing outside the managed table may hold a rule's port. */
  method FindHeld(rules: seq<Rule>, held: seq<Listener>, against: Against) returns (e: Option<Error>)
    ensures e.None? <==> RulesExclude(rules, held)
    ensures e.Some? ==> e.value.Conflict? && e.value.against == against
    ensures e.Some? ==>
              exists i, j :: 0 <= i < |rules| && 0 <= j < |held| && Takes(rules[i], held[j])
                             && e.value.port == held[j].port && e.value.protocol == held[j].transport
  {
    for j := 0 to |held|
      invariant forall i, k :: 0 <= i < |rules| && 0 <= k < j ==> !Takes(rules[i], held[k])
    {
      for i := 0 to |rules|
        invariant forall k :: 0 <= k < i ==> !Takes(rules[k], held[j])
      {
        if rules[i].enabled && rules[i].listenPort == held[j].port && Overlap(rules[i].protocol, held[j].transport) {
          assert Takes(rules[i], held[j]);
          return Some(Conflict(held[j].transport, held[j].port, against));
        }
      }
    }
    return None;
  }

  method AnyEnabledRule(rules: seq<Rule>) returns (any: bool)
    ensures any == AnyEnabled(rules)
  {
    for i := 0 to |rules|
      invariant forall k :: 0 <= k < i ==> !rules[k].enabled
    {
      if rules[i].enabled {
        return true;
      }
    }
    return false;
  }

  datatype Prepared = Prepared(interface: string, routes: map<string, string>, resolvedTargets: map<string, string>)

  /** The targets of the enabled rules, by rule. */
  ghost predicate Targets(resolved: map<string, string>, rules: seq<Rule>, net: Network) {
    && (forall id :: id in resolved <==> exists i :: 0 <= i < |rules| && rules[i].enabled && rules[i].id == id)
    && (forall i :: 0 <= i < |rules| && rules[i].enabled ==> Some(resolved[rules[i].id]) == Target(rules[i], net))
  }

  /** validateLocked: a configuration passes exactly when it is acceptable, and every conflict it
      reports is a real one. */
  method Validate(cfg: Config, listeners: seq<Listener>, net: Network) returns (r: Result<Prepared, Error>)
    ensures r.Ok? <==> Accepts(cfg, listeners, net)
    ensures r.Err? ==> Genuine(r.error, cfg, listeners)
    ensures r.Ok? ==>
              Targets(r.value.resolvedTargets, cfg.rules, net)
                  && (Active(cfg) ==> net.interface == Some(r.value.interface))
    ensures |cfg.rules| <= MAX_RULES && RulesOk(cfg.rules, net) && !Disjoint(cfg.rules) ==>
              r.Err? && r.error.Conflict? && r.error.against.ForwardingRule?
    ensures |cfg.rules| <= MAX_RULES && RulesOk(cfg.rules, net) && Disjoint(cfg.rules)
            && Active(cfg) && net.interface.Some? && !Exclusive(cfg, listeners) ==>
              r.Err? && r.error.Conflict? && r.error.against.CoreInbound?
  {
    if |cfg.rules| > MAX_RULES {
      return Err(Invalid);
    }
    var checked := CheckRules(cfg.rules, net);
    if checked.Err? {
      return Err(checked.error);
    }
    var clash := FindClash(cfg.rules);
    if clash.Some? {
      return Err(clash.value);
    }
    var any := AnyEnabledRule(cfg.rules);
    if !cfg.enabled || !any {
      return Ok(Prepared("", map[], checked.value));
    }
    if net.interface.None? {
      return Err(NoRoute);
    }
    var taken := FindTaken(cfg.rules, listeners);
    if taken.Some? {
      return Err(taken.value);
    }
    var routes := FindRoutes(cfg.rules, net);
    if routes.None? {
      return Err(NoRoute);
    }
    return Ok(Prepared(net.interface.value, routes.value, checked.value));
  }

  // ---------------------------------------------------------------- the service

  class Service {
    var applied: Config
    var appliedHash: string
    var resolved: map<string, string>

    ghost predicate Valid() reads this { Disjoint(applied.rules) }

    constructor ()
      ensures Valid() && !applied.enabled && applied.rules == []
    {
      applied, appliedHash, resolved := Config(false, []), "", map[];
    }

    /** ValidateCoreConfig: a new core configuration must stay off the ports of the applied rules. */
    method ValidateCoreConfig(core: Object, host: Host) returns (e: Option<Error>)
      ensures e.None? <==> Exclusive(applied, CoreListeners(core, host))
      ensures e.Some? ==> e.value.Conflict? && Genuine(e.value, applied, CoreListeners(core, host))
    {
      if !applied.enabled {
        return None;
      }
      var listeners := ExtractCoreListeners(core, host);
      e := FindTaken(applied.rules, listeners);
    }

    /** SyncWithHash: the applied state moves only when validation and every host step succeed. `sockets` are
        the host's listening sockets beyond loopback, `dnat` the ports that other firewall tables forward;
        `hostFailed` is a failure of a command or of saving the state. */
    method Sync(cfg: Config, listeners: seq<Listener>, hash: string, net: Network,
                sockets: seq<Listener>, dnat: seq<Listener>, hostFailed: bool)
      returns (r: Result<(), Error>)
      requires Valid()
      modifies this
      ensures Valid()
      ensures r.Ok? <==> Accepts(cfg, listeners, net.(last := old(resolved))) && !hostFailed
                         && (Active(cfg) ==> RulesExclude(cfg.rules, sockets) && RulesExclude(cfg.rules, dnat))
      ensures r.Ok? ==> Exclusive(applied, listeners) && Exclusive(applied, sockets)
      ensures if r.Ok? then applied == cfg && appliedHash == hash
              else applied == old(applied) && appliedHash == old(appliedHash) && resolved == old(resolved)
      ensures r.Ok? ==>
                if Active(cfg) then Targets(resolved, cfg.rules, net.(last := old(resolved))) else resolved == map[]
    {
      var prepared := Validate(cfg, listeners, net.(last := resolved));
      if prepared.Err? {
        return Err(prepared.error);
      }
      InactiveExcludes(cfg, listeners);
      InactiveExcludes(cfg, sockets);
      var any := AnyEnabledRule(cfg.rules);
      if cfg.enabled && any {
        var socket := FindHeld(cfg.rules, sockets, NodeService);
        if socket.Some? {
          return Err(socket.value);
        }
        var rule := FindHeld(cfg.rules, dnat, NftRule);
        if rule.Some? {
          return Err(rule.value);
        }
      }
      if hostFailed {
        return Err(HostFailed);
      }
      applied, appliedHash, resolved := cfg, hash, if cfg.enabled && any then prepared.value.resolvedTargets else map[];
      return Ok(());
    }
  }

  /** Rules that are all off take nothing. */
  lemma InactiveExcludes(cfg: Config, listeners: seq<Listener>)
    ensures !Active(cfg) ==> Exclusive(cfg, listeners)
  {
    if cfg.enabled && !AnyEnabled(cfg.rules) {
      forall i, j | 0 <= i < |cfg.rules| && 0 <= j < |listeners| ensures !Takes(cfg.rules[i], listeners[j]) {
        assert !cfg.rules[i].enabled;
      }
    }
  }
}
