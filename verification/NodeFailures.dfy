/** The two failures that put a file in place which is not what runs, what they can lead to, and when. */
module NodeFailures {
  import opened Common
  import opened StatName
  import opened CoreConfig
  import opened ApiConfig
  import L = Listeners
  import F = Forwarding
  import opened UserEdits
  import opened Activation
  import opened NodeRuns

  // ---------------------------------------------------------------- when a rejected candidate takes a port

  /** A listener that going back to the file would open, beside every listener of the runtime configuration
      and every socket of the core's process. */
  ghost predicate Foreign(n: Node, l: L.Listener, env: Env) {
    && l in Ports(Previous(n, env.codec), env)
    && Free(Ports(n.config, env), l) && Free(Sockets(n, env), l)
  }

  ghost predicate Free(held: seq<L.Listener>, l: L.Listener) {
    forall m :: m in held ==> !(m.port == l.port && F.Overlap(l.transport, m.transport))
  }

  function RuleOn(l: L.Listener): F.Config {
    F.Config(true, [F.Rule("1", "rule", true, l.transport, l.port, "192.0.2.1", l.port)])
  }

  ghost predicate Concrete(l: L.Listener) { l.transport == L.TCP || l.transport == L.UDP }

  lemma PortsAreConcrete(config: Object, env: Env, l: L.Listener)
    requires l in Ports(config, env)
    ensures Concrete(l)
  {
    var i := L.ListenersAreInbounds(Inbounds(config), env.host, l);
  }

  lemma SocketsAreConcrete(n: Node, env: Env, l: L.Listener)
    requires l in Sockets(n, env)
    ensures Concrete(l)
  {
    PortsAreConcrete(env.codec.decode(n.process.bytes.value).value, env, l);
  }

  lemma FreeRuleFits(l: L.Listener, held: seq<L.Listener>)
    requires Free(held, l)
    ensures F.Exclusive(RuleOn(l), held)
  {
    forall j | 0 <= j < |held| ensures !F.Takes(RuleOn(l).rules[0], held[j]) {
      assert held[j] in held;
    }
  }

  lemma ForeignRuleFits(n: Node, l: L.Listener, env: Env)
    requires Foreign(n, l, env)
    ensures F.Disjoint(RuleOn(l).rules) && F.Exclusive(RuleOn(l), Ports(n.config, env))
    ensures F.Exclusive(RuleOn(l), Sockets(n, env)) && !F.Exclusive(RuleOn(l), Ports(Previous(n, env.codec), env))
  {
    FreeRuleFits(l, Ports(n.config, env));
    FreeRuleFits(l, Sockets(n, env));
    var after := Ports(Previous(n, env.codec), env);
    var j :| 0 <= j < |after| && after[j] == l;
    assert F.Takes(RuleOn(l).rules[0], after[j]);
  }

  /** A rule that stays off a listener stays off every other one on its port and transport. */
  lemma TakenTogether(rules: F.Config, held: seq<L.Listener>, m: L.Listener, l: L.Listener, i: nat)
    requires m in held && Concrete(m) && Concrete(l) && m.port == l.port && F.Overlap(l.transport, m.transport)
    requires F.Exclusive(rules, held) && rules.enabled && i < |rules.rules|
    ensures !F.Takes(rules.rules[i], l)
  {
    var k :| 0 <= k < |held| && held[k] == m;
    assert !F.Takes(rules.rules[i], held[k]);
  }

  ghost predicate Applicable(n: Node, rules: F.Config, env: Env) {
    F.Exclusive(rules, Ports(n.config, env)) && F.Exclusive(rules, Sockets(n, env))
  }

  lemma NoForeignKeepsRules(n: Node, rules: F.Config, env: Env)
    requires forall l :: !Foreign(n, l, env)
    requires Applicable(n, rules, env)
    ensures F.Exclusive(rules, Ports(Previous(n, env.codec), env))
  {
    var after := Ports(Previous(n, env.codec), env);
    forall i, j | rules.enabled && 0 <= i < |rules.rules| && 0 <= j < |after|
      ensures !F.Takes(rules.rules[i], after[j])
    {
      var l := after[j];
      assert l in after && !Foreign(n, l, env);
      PortsAreConcrete(Previous(n, env.codec), env, l);
      if !Free(Ports(n.config, env), l) {
        var m :| m in Ports(n.config, env) && m.port == l.port && F.Overlap(l.transport, m.transport);
        PortsAreConcrete(n.config, env, m);
        TakenTogether(rules, Ports(n.config, env), m, l, i);
      } else {
        var m :| m in Sockets(n, env) && m.port == l.port && F.Overlap(l.transport, m.transport);
        SocketsAreConcrete(n, env, m);
        TakenTogether(rules, Sockets(n, env), m, l, i);
      }
    }
  }

  /** Going back to the file's configuration keeps every set of rules that could be applied now off its
      ports exactly when that configuration opens no foreign port. */
  lemma GoingBackIsSafeIff(n: Node, env: Env)
    ensures (forall rules: F.Config :: Applicable(n, rules, env) ==>
              F.Exclusive(rules, Ports(Previous(n, env.codec), env)))
            <==> forall l :: !Foreign(n, l, env)
  {
    if forall l :: !Foreign(n, l, env) {
      forall rules: F.Config | Applicable(n, rules, env)
        ensures F.Exclusive(rules, Ports(Previous(n, env.codec), env))
      {
        NoForeignKeepsRules(n, rules, env);
      }
    } else {
      var l :| Foreign(n, l, env);
      ForeignRuleFits(n, l, env);
      assert Applicable(n, RuleOn(l), env);
    }
  }

  /** A process that runs the file's configuration guards its ports: whatever the runtime configuration says,
      no foreign port is left to take. */
  lemma RunningTheFileIsSafe(n: Node, env: Env)
    requires Backed(n) && n.process == Running(n.file) && env.codec.decode(n.file.value).Some?
    requires "inbounds" in env.codec.decode(n.file.value).value || "inbounds" !in n.config
    ensures forall l :: !Foreign(n, l, env)
  {
    var d := env.codec.decode(n.file.value).value;
    assert Field(n.config + d, "inbounds") == Field(d, "inbounds");
    assert Ports(Previous(n, env.codec), env) == Sockets(n, env);
    forall l ensures !Foreign(n, l, env) {
      if l in Sockets(n, env) {
        assert !Free(Sockets(n, env), l);
      }
    }
  }

  const NO_FAULTS := Faults(false, false, false, false, Write.Done, false, false, false, Write.Done,
                            false, false, false, Write.Done, false, Write.Done, false, Write.Done, Write.Done, false)

  /** A foreign port is all it takes: a rule on it is accepted, and a user edit whose candidate is rejected
      makes the runtime configuration that of the file. */
  lemma ForeignPortBreaksExclusion(w: World, l: L.Listener, env: Env)
    returns (synced: World, broken: World, edit: Action)
    requires w.node.running == SingBox && Backed(w.node) && env.codec.decode(w.node.file.value).Some?
    requires Foreign(w.node, l, env)
    ensures Step(w, synced, Sync, env) && Step(synced, broken, edit, env)
    ensures edit == Edit(w.node.config, true, NO_FAULTS.(check := true))
    ensures !Exclusion(broken, env)
  {
    ForeignRuleFits(w.node, l, env);
    synced := w.(forwarding := RuleOn(l));
    edit := Edit(w.node.config, true, NO_FAULTS.(check := true));
    broken := RejectedEdit(synced, edit, env);
  }

  /** A user edit whose candidate is rejected. */
  lemma RejectedEdit(w: World, edit: Action, env: Env) returns (w': World)
    requires w.node.running == SingBox && Backed(w.node) && env.codec.decode(w.node.file.value).Some?
    requires edit == Edit(w.node.config, true, NO_FAULTS.(check := true))
    ensures Step(w, w', edit, env) && w'.forwarding == w.forwarding && w'.node.running == SingBox
    ensures w'.node.config == Previous(w.node, env.codec)
  {
    w' := w.(node := w.node.(config := Previous(w.node, env.codec),
        report := Report(Rejected, w.node.file, NotRequired)));
    assert AllSameButUsers(Inbounds(w.node.config), Inbounds(w.node.config));
    assert Activates(Ahead(w, edit), w'.node, w.node.config, edit.faults, env);
  }

  // ---------------------------------------------------------------- two configurations

  /** One reachable inbound on one TCP port, as the agent equips it. */
  function OnPort(port: int): Object {
    map["inbounds" := Arr([Obj(map["type" := Str("trojan"), "listen_port" := Num(port as real)])])]
  }

  function Ready(port: int, env: Env): Object { Equipped(OnPort(port), env.settings) }

  lemma PortsOnPort(port: int, env: Env)
    requires 1 <= port <= 65535 && !env.host.loopbackOnly("")
    ensures |Ports(OnPort(port), env)| == 1 && Ports(OnPort(port), env)[0].port == port
    ensures Ports(OnPort(port), env)[0].transport == L.TCP
  {
    var items := Inbounds(OnPort(port));
    var inbound := items[0].fields;
    assert Field(inbound, "type") == Str("trojan") && Field(inbound, "listen_port") == Num(port as real);
    assert Field(inbound, "network") == Null && Field(inbound, "listen") == Null;
    assert L.Words(Null) == [] && L.Networks([]) == [];
    KindOfTrojan(inbound);
    assert (port as real).Floor == port;
    assert L.PortOf(inbound) == port;
    assert items[..0] == [];
    assert L.ListenersIn(items, env.host) == L.ListenersIn([], env.host) + L.ListenersOf(items[0], 0, env.host);
  }

  lemma KindOfTrojan(inbound: Object)
    requires Field(inbound, "type") == Str("trojan")
    ensures L.Kind(inbound) == "trojan"
  {
    assert L.ToLower("trojan") == "trojan" by {
      assert "trojan"[1..] == "rojan" && "rojan"[1..] == "ojan" && "ojan"[1..] == "jan" && "jan"[1..] == "an"
               && "an"[1..] == "n" && "n"[1..] == "";
    }
  }

  lemma NoUsers(port: int)
    ensures AllCarried(Inbounds(OnPort(port)))
  {
    var inbound := Inbounds(OnPort(port))[0].fields;
    assert Field(inbound, "users") == Null;
    assert Users(inbound) == [];
  }

  /** An equipped configuration on one port: stable under equipping, with that one port. */
  lemma ReadyOnPort(port: int, env: Env)
    requires 1 <= port <= 65535 && !env.host.loopbackOnly("") && env.settings.apiPort > 0
    ensures Equipped(Ready(port, env), env.settings) == Ready(port, env) && Ready(port, env) != map[]
    ensures |Ports(Ready(port, env), env)| == 1
    ensures Ports(Ready(port, env), env)[0].port == port && Ports(Ready(port, env), env)[0].transport == L.TCP
  {
    assert "inbounds" in OnPort(port);
    NoUsers(port);
    EquippedTwice(OnPort(port), env.settings);
    EquippedKeys(OnPort(port), env.settings);
    assert "experimental" in Ready(port, env);
    EquippedPorts(OnPort(port), env);
    PortsOnPort(port, env);
  }

  lemma SameKeys(a: int, b: int, env: Env)
    ensures Ready(a, env) + Ready(b, env) == Ready(b, env)
  {
    EquippedKeys(OnPort(a), env.settings);
    EquippedKeys(OnPort(b), env.settings);
    assert OnPort(a).Keys == {"inbounds"} == OnPort(b).Keys;
    assert (OnPort(a) == map[]) == (OnPort(b) == map[]) by {
      assert "inbounds" in OnPort(a) && "inbounds" in OnPort(b);
    }
  }

  // ---------------------------------------------------------------- the runs

  lemma StepsStay(ws: seq<World>, actions: seq<Action>, w': World, a: Action, env: Env, i: nat)
    requires Run(ws, actions, env) && i < |actions|
    ensures Step((ws + [w'])[i], (ws + [w'])[i + 1], (actions + [a])[i], env)
  {
    assert (ws + [w'])[i] == ws[i] && (ws + [w'])[i + 1] == ws[i + 1] && (actions + [a])[i] == actions[i];
  }

  lemma RunNext(ws: seq<World>, actions: seq<Action>, w': World, a: Action, env: Env)
    requires Run(ws, actions, env) && Step(ws[|actions|], w', a, env)
    ensures Run(ws + [w'], actions + [a], env)
  {
    var ws', actions', n := ws + [w'], actions + [a], |actions|;
    assert ws'[n] == ws[n] && ws'[n + 1] == w' && actions'[n] == a && ws'[0] == ws[0];
    forall i | 0 <= i < n ensures Step(ws'[i], ws'[i + 1], actions'[i], env) {
      StepsStay(ws, actions, w', a, env, i);
    }
  }

  /** A node with the API port set, which the health check needs, and no forwarding yet. */
  ghost predicate Usual(w: World, env: Env) {
    Init(w) && w.forwarding == OFF && Lossless(env.codec) && env.settings.apiPort > 0 && !env.host.loopbackOnly("")
  }

  lemma StartsOnPort(w: World, n': Node, port: int, f: Faults, env: Env)
    requires w.forwarding == OFF && 1 <= port <= 65535 && !env.host.loopbackOnly("") && env.settings.apiPort > 0
    requires Performs(w.node, n', env.codec.encode(Ready(port, env)), Ready(port, env), env.codec, f)
    ensures Step(w, w.(node := n'), Start(OnPort(port), true, f), env)
  {
    ReadyOnPort(port, env);
  }

  /** The core is up on port 80. */
  function Up(w: World, env: Env): World {
    var bytes := Some(env.codec.encode(Ready(80, env)));
    w.(node := Node(bytes, bytes, Running(bytes), Ready(80, env), SingBox, Report(Applied, bytes, NotRequired),
                    w.node.confirmed + {bytes.value}))
  }

  lemma FirstStart(w: World, env: Env)
    requires Usual(w, env)
    ensures Run([w, Up(w, env)], [Start(OnPort(80), true, NO_FAULTS)], env)
  {
    assert Performs(w.node, Up(w, env).node, env.codec.encode(Ready(80, env)), Ready(80, env), env.codec, NO_FAULTS);
    StartsOnPort(w, Up(w, env).node, 80, NO_FAULTS, env);
    assert Run([w], [], env);
    RunNext([w], [], Up(w, env), Start(OnPort(80), true, NO_FAULTS), env);
    assert [] + [Start(OnPort(80), true, NO_FAULTS)] == [Start(OnPort(80), true, NO_FAULTS)];
  }

  /** The runtime configuration is on port 80 and the file is the configuration on port 443. */
  ghost predicate Astray(w: World, env: Env) {
    && w.node.running == SingBox && w.node.config == Ready(80, env)
    && w.node.file == Some(env.codec.encode(Ready(443, env)))
  }

  /** The core's process is still the one on port 80, or there is none. */
  ghost predicate Unguarded(w: World, env: Env) {
    w.node.process == Running(Some(env.codec.encode(Ready(80, env)))) || w.node.process == Stopped
  }

  lemma AstrayIsForeign(w: World, env: Env) returns (l: L.Listener)
    requires Astray(w, env) && Unguarded(w, env)
    requires Lossless(env.codec) && env.settings.apiPort > 0 && !env.host.loopbackOnly("")
    ensures Backed(w.node) && env.codec.decode(w.node.file.value).Some? && Foreign(w.node, l, env)
  {
    ReadyOnPort(80, env);
    ReadyOnPort(443, env);
    AstrayNode(w, env);
    l := OnePortIsForeign(w.node, Ready(443, env), env);
  }

  lemma AstrayNode(w: World, env: Env)
    requires Astray(w, env) && Unguarded(w, env) && Lossless(env.codec)
    ensures Backed(w.node) && env.codec.decode(w.node.file.value).Some?
    ensures Previous(w.node, env.codec) == Ready(443, env)
    ensures Sockets(w.node, env) == Ports(w.node.config, env) || Sockets(w.node, env) == []
  {
    SameKeys(80, 443, env);
    assert env.codec.decode(w.node.file.value) == Some(Ready(443, env));
    assert env.codec.decode(env.codec.encode(Ready(80, env))) == Some(Ready(80, env));
  }

  lemma OnePortIsForeign(n: Node, c: Object, env: Env) returns (l: L.Listener)
    requires Previous(n, env.codec) == c && (Sockets(n, env) == Ports(n.config, env) || Sockets(n, env) == [])
    requires |Ports(n.config, env)| == 1 && |Ports(c, env)| == 1
    requires Ports(n.config, env)[0].port != Ports(c, env)[0].port
    ensures Foreign(n, l, env)
  {
    l := Ports(c, env)[0];
    assert l in Ports(c, env);
    forall m | m in Ports(n.config, env) ensures m.port != l.port {
      assert m == Ports(n.config, env)[0];
    }
  }

  const STRAYING := NO_FAULTS.(sync := true, unsync := Write.FailedBefore)

  /** Two starts; in the second the directory sync fails, and so does putting the old file back. */
  lemma FailedRestoreGoesAstray(w: World, env: Env) returns (ws: seq<World>, actions: seq<Action>)
    requires Usual(w, env)
    ensures Run(ws, actions, env) && ws[0] == w && |actions| == 2 && Astray(ws[2], env)
    ensures ws[2].node.process == Running(Some(env.codec.encode(Ready(80, env))))
    ensures actions == [Start(OnPort(80), true, NO_FAULTS), Start(OnPort(443), true, STRAYING)]
    ensures ws[2].forwarding == OFF && ws[2].node.confirmed == w.node.confirmed + {env.codec.encode(Ready(80, env))}
  {
    FirstStart(w, env);
    var up := Up(w, env);
    var n' := up.node.(file := Some(env.codec.encode(Ready(443, env))),
        report := Report(Failed, up.node.file, RollbackFailed));
    assert OutcomeOf(up.node, STRAYING, env.codec) == Unsynced;
    StartsOnPort(up, n', 443, STRAYING, env);
    RunNext([w, up], [Start(OnPort(80), true, NO_FAULTS)], up.(node := n'), Start(OnPort(443), true, STRAYING), env);
    ws := [w, up] + [up.(node := n')];
    actions := [Start(OnPort(80), true, NO_FAULTS)] + [Start(OnPort(443), true, STRAYING)];
  }

  const SWAPPING := NO_FAULTS.(commit := Write.FailedAfter)

  function Swapped(n: Node, bytes: string): Node {
    Node(Some(bytes), Some(bytes), Running(Some(bytes)), n.config, SingBox, Report(RolledBack, None, Succeeded),
        n.confirmed + {bytes})
  }

  lemma UpThenLost(w: World, env: Env) returns (ws: seq<World>, actions: seq<Action>, lost: World)
    requires Usual(w, env)
    ensures Run(ws, actions, env) && ws[0] == w && actions == [Start(OnPort(80), true, NO_FAULTS), Lose]
    ensures ws[2] == lost
    ensures lost == Up(w, env).(node := Up(w, env).node.(file := None))
  {
    FirstStart(w, env);
    lost := Up(w, env).(node := Up(w, env).node.(file := None));
    RunNext([w, Up(w, env)], [Start(OnPort(80), true, NO_FAULTS)], lost, Lose, env);
    ws, actions := [w, Up(w, env)] + [lost], [Start(OnPort(80), true, NO_FAULTS)] + [Lose];
  }

  lemma SwapPerforms(n: Node, n': Node, bytes: string, c: Object, env: Env)
    requires n.running == SingBox && n.file.None? && n' == Swapped(n, bytes)
    ensures Performs(n, n', bytes, c, env.codec, SWAPPING)
  {
    assert OutcomeOf(n, SWAPPING, env.codec) == Reverted;
  }

  /** The file is lost, and in the next start writing the new last-good copy fails only after its rename:
      the rollback reports success while the new configuration is running. */
  lemma LateCommitGoesAstray(w: World, env: Env) returns (ws: seq<World>, actions: seq<Action>)
    requires Usual(w, env)
    ensures Run(ws, actions, env) && ws[0] == w && |actions| == 3 && Astray(ws[3], env)
    ensures actions == [Start(OnPort(80), true, NO_FAULTS), Lose, Start(OnPort(443), true, SWAPPING)]
    ensures ws[3].node.process == Running(Some(env.codec.encode(Ready(443, env))))
    ensures ws[3].node.report == Report(RolledBack, None, Succeeded)
  {
    var lost;
    ws, actions, lost := UpThenLost(w, env);
    var n' := Swapped(lost.node, env.codec.encode(Ready(443, env)));
    SwapPerforms(lost.node, n', env.codec.encode(Ready(443, env)), Ready(443, env), env);
    StartsOnPort(lost, n', 443, SWAPPING, env);
    RunNext(ws, actions, lost.(node := n'), Start(OnPort(443), true, SWAPPING), env);
    ws, actions := ws + [lost.(node := n')], actions + [Start(OnPort(443), true, SWAPPING)];
  }

  /** While the process started by the late commit lives, its sockets keep every rule off the file's ports. */
  lemma LateCommitIsGuarded(w: World, env: Env)
    requires Astray(w, env) && w.node.process == Running(w.node.file) && Lossless(env.codec)
    requires env.settings.apiPort > 0 && !env.host.loopbackOnly("")
    ensures forall l :: !Foreign(w.node, l, env)
    ensures forall rules: F.Config :: Applicable(w.node, rules, env) ==>
              F.Exclusive(rules, Ports(Previous(w.node, env.codec), env))
  {
    assert "inbounds" in OnPort(443);
    EquippedKeys(OnPort(443), env.settings);
    assert env.codec.decode(w.node.file.value) == Some(Ready(443, env));
    RunningTheFileIsSafe(w.node, env);
    GoingBackIsSafeIff(w.node, env);
  }

  /** Once that process has died, nothing guards them. */
  lemma ExitUnguards(ws: seq<World>, actions: seq<Action>, env: Env) returns (ws': seq<World>, actions': seq<Action>)
    requires Run(ws, actions, env) && Astray(ws[|actions|], env)
    ensures Run(ws', actions', env) && actions' == actions + [Exit]
    ensures Astray(ws'[|actions'|], env) && Unguarded(ws'[|actions'|], env)
  {
    var w := ws[|actions|];
    var w' := w.(node := w.node.(process := Stopped));
    RunNext(ws, actions, w', Exit, env);
    ws', actions' := ws + [w'], actions + [Exit];
  }

  /** From an unguarded state, as the failed restore leaves it, two more steps end in a port conflict. */
  lemma AstrayBreaksExclusion(ws: seq<World>, actions: seq<Action>, env: Env)
    returns (ws': seq<World>, actions': seq<Action>)
    requires Run(ws, actions, env) && Astray(ws[|actions|], env) && Unguarded(ws[|actions|], env)
    requires Lossless(env.codec) && env.settings.apiPort > 0 && !env.host.loopbackOnly("")
    ensures Run(ws', actions', env)
    ensures actions' == actions + [Sync, Edit(Ready(80, env), true, NO_FAULTS.(check := true))]
    ensures !Exclusion(ws'[|actions'|], env)
  {
    var w := ws[|actions|];
    var l := AstrayIsForeign(w, env);
    var synced, broken, edit := ForeignPortBreaksExclusion(w, l, env);
    RunNext(ws, actions, synced, Sync, env);
    RunNext(ws + [synced], actions + [Sync], broken, edit, env);
    ws', actions' := ws + [synced] + [broken], actions + [Sync] + [edit];
    assert actions' == actions + [Sync, edit];
  }

  const REFUSED := NO_FAULTS.(chmod := true)

  /** After a failed restore the next start copies the unconfirmed file over the last-good one. */
  lemma FailedRestoreSpoilsLastGood(w: World, env: Env) returns (ws: seq<World>, actions: seq<Action>)
    requires Usual(w, env) && env.codec.encode(Ready(443, env)) !in w.node.confirmed
    ensures Run(ws, actions, env) && ws[0] == w && |actions| == 3
    ensures ws[3].node.lastGood.Some? && ws[3].node.lastGood.value !in ws[3].node.confirmed
  {
    ws, actions := FailedRestoreGoesAstray(w, env);
    var stray := ws[2];
    var n' := stray.node.(lastGood := stray.node.file, report := Report(Failed, stray.node.file, NotRequired));
    DifferentBytes(env);
    assert OutcomeOf(stray.node, REFUSED, env.codec) == Refused;
    StartsOnPort(stray, n', 80, REFUSED, env);
    RunNext(ws, actions, stray.(node := n'), Start(OnPort(80), true, REFUSED), env);
    ws, actions := ws + [stray.(node := n')], actions + [Start(OnPort(80), true, REFUSED)];
  }

  lemma DifferentBytes(env: Env)
    requires Lossless(env.codec) && env.settings.apiPort > 0 && !env.host.loopbackOnly("")
    ensures env.codec.encode(Ready(80, env)) != env.codec.encode(Ready(443, env))
  {
    ReadyOnPort(80, env);
    ReadyOnPort(443, env);
    assert env.codec.decode(env.codec.encode(Ready(80, env))) == Some(Ready(80, env));
    assert env.codec.decode(env.codec.encode(Ready(443, env))) == Some(Ready(443, env));
  }
}
