/** Whole runs of the node: starts, user edits, stops, forwarding changes and agent restarts, with any of
    their steps failing. Which bytes the last-good file can hold, and which ports can be taken twice. */
module NodeRuns {
  import opened Common
  import opened CoreConfig
  import opened ApiConfig
  import L = Listeners
  import F = Forwarding
  import opened UserEdits
  import opened Activation

  datatype World = World(node: Node, forwarding: F.Config)

  datatype Env = Env(codec: Codec, settings: Settings, host: L.Host)

  /** What is asked of the node, and which steps fail on the way. */
  datatype Action =
    | Start(request: Object, restart: bool, faults: Faults)   // `restart`: even if the configuration is the running one
    | Edit(edited: Object, whole: bool, faults: Faults)       // a user edit; `whole`: none of its items is refused
    | Stop
    | Sync                                                    // ForwardingSync
    | Lose                                                    // the configuration file disappears
    | Exit                                                    // the core's process dies; nobody restarts it
    | Reboot                                                  // the agent is restarted; files and processes stay

  const OFF := F.Config(false, [])

  function Ports(config: Object, env: Env): seq<L.Listener> { L.CoreListeners(config, env.host) }

  /** The sockets that the core's process holds: those of the configuration it was started with. */
  function Sockets(n: Node, env: Env): seq<L.Listener> {
    match n.process
    case Running(Some(bytes)) => (match env.codec.decode(bytes) case Some(d) => Ports(d, env) case None => [])
    case _ => []
  }

  ghost predicate Activates(n: Node, n': Node, c: Object, f: Faults, env: Env) {
    Performs(n, n', env.codec.encode(Equipped(c, env.settings)), Equipped(c, env.settings), env.codec, f)
  }

  /** The configuration that an action goes on to activate, if it gets that far. */
  function Attempt(w: World, a: Action, env: Env): Option<Object> {
    match a
    case Start(request, restart, _) =>
      var c := Equipped(request, env.settings);
      if c == map[] || !F.Exclusive(w.forwarding, Ports(c, env)) then None
      else if restart || w.node.running != SingBox || w.node.config != c then Some(c)
      else None
    case Edit(edited, whole, _) => if whole && w.node.running == SingBox then Some(edited) else None
    case _ => None
  }

  /** The node when the activation begins: a user edit has changed the runtime configuration by then. */
  function Ahead(w: World, a: Action): Node { if a.Edit? then w.node.(config := a.edited) else w.node }

  /** What an action does when it activates nothing. */
  ghost predicate Settles(w: World, w': World, a: Action, env: Env) {
    match a
    case Start(_, _, _) => w'.forwarding == w.forwarding && w'.node == w.node.(report := w'.node.report)
    case Edit(edited, _, _) => w'.forwarding == w.forwarding && w'.node == Ahead(w, a)
    case Stop => w'.forwarding == w.forwarding && w'.node == w.node.(running := NoCore, process := w'.node.process)
    case Sync =>
      && w'.node == w.node
      && (w'.forwarding == w.forwarding
          || (F.Disjoint(w'.forwarding.rules)
              && (w.node.running == SingBox ==> F.Exclusive(w'.forwarding, Ports(w.node.config, env)))
              && F.Exclusive(w'.forwarding, Sockets(w.node, env))))
    case Lose => w' == w.(node := w.node.(file := None))
    case Exit => w' == w.(node := w.node.(process := Stopped))
    case Reboot =>
      && (w'.forwarding == w.forwarding || w'.forwarding == OFF)
      && w'.node == w.node.(config := map[], running := NoCore, report := NoReport, process := w'.node.process)
  }

  ghost predicate Step(w: World, w': World, a: Action, env: Env) {
    && (a.Edit? ==> SameShape(w.node.config, a.edited))
    && match Attempt(w, a, env)
       case None => Settles(w, w', a, env)
       case Some(c) => w'.forwarding == w.forwarding && Activates(Ahead(w, a), w'.node, c, a.faults, env)
  }

  ghost predicate Init(w: World) {
    && w.node.running == NoCore && F.Disjoint(w.forwarding.rules)
    && (w.node.lastGood.Some? ==> w.node.lastGood.value in w.node.confirmed)
  }

  ghost predicate Run(ws: seq<World>, actions: seq<Action>, env: Env) {
    && |ws| == |actions| + 1 && Init(ws[0])
    && forall i :: 0 <= i < |actions| ==> Step(ws[i], ws[i + 1], actions[i], env)
  }

  // ---------------------------------------------------------------- last good is good

  /** The last-good copy passed a health check once, and so did the file of a running core. */
  ghost predicate GoodFiles(n: Node) {
    && (n.lastGood.Some? ==> n.lastGood.value in n.confirmed)
    && (Backed(n) ==> n.file.value in n.confirmed)
  }

  /** The new file is in place, its directory cannot be synced, and the old file cannot be put back. */
  predicate Strays(n: Node, f: Faults, codec: Codec) { !FailsEarly(n, f, codec) && f.sync && f.unsync == FailedBefore }

  lemma ActivationKeepsGood(n: Node, n': Node, c: Object, f: Faults, env: Env)
    requires GoodFiles(n) && Activates(n, n', c, f, env)
    ensures GoodFiles(n') <==>
            !(n.running == SingBox && Strays(n, f, env.codec)
                && env.codec.encode(Equipped(c, env.settings)) !in n.confirmed)
  {
  }

  /** The action strays from a running core with a configuration that never passed a health check. */
  ghost predicate Spoils(w: World, a: Action, env: Env) {
    && w.node.running == SingBox
    && match Attempt(w, a, env)
       case None => false
       case Some(c) =>
         Strays(Ahead(w, a), a.faults, env.codec) && env.codec.encode(Equipped(c, env.settings)) !in w.node.confirmed
  }

  /** A step keeps the files good exactly when it does not spoil them. */
  lemma StepKeepsGood(w: World, w': World, a: Action, env: Env)
    requires GoodFiles(w.node) && Step(w, w', a, env)
    ensures GoodFiles(w'.node) <==> !Spoils(w, a, env)
  {
    match Attempt(w, a, env)
    case None =>
    case Some(c) => ActivationKeepsGood(Ahead(w, a), w'.node, c, a.faults, env);
  }

  /** Over a run the files are good throughout exactly when no step of it spoils them. */
  lemma {:induction false} LastGoodIsGood(ws: seq<World>, actions: seq<Action>, env: Env, n: nat)
    requires Run(ws, actions, env) && n < |ws|
    ensures (forall i :: 0 <= i <= n ==> GoodFiles(ws[i].node)) <==>
              (forall j :: 0 <= j < n ==> !Spoils(ws[j], actions[j], env))
  {
    if n > 0 {
      LastGoodIsGood(ws, actions, env, n - 1);
      if GoodFiles(ws[n - 1].node) {
        StepKeepsGood(ws[n - 1], ws[n], actions[n - 1], env);
      }
    }
  }

  // ---------------------------------------------------------------- port exclusion

  /** The same top-level keys and the same ports. */
  ghost predicate SameLayout(a: Object, b: Object, env: Env) { a.Keys == b.Keys && Ports(a, env) == Ports(b, env) }

  ghost predicate Matches(bytes: Option<string>, config: Object, env: Env) {
    bytes.Some? ==> var d := env.codec.decode(bytes.value); d.Some? && SameLayout(d.value, config, env)
  }

  /** While the core runs, its file and the last-good copy have the layout of the runtime configuration. */
  ghost predicate Shaped(n: Node, env: Env) {
    n.running == SingBox ==> Matches(n.file, n.config, env) && Matches(n.lastGood, n.config, env)
  }

  ghost predicate Exclusion(w: World, env: Env) {
    F.Disjoint(w.forwarding.rules) && (w.node.running == SingBox ==>
        F.Exclusive(w.forwarding, Ports(w.node.config, env)))
  }

  /** Decoding the file into the runtime configuration merges two maps of the same keys: nothing of
      the runtime configuration shows through. */
  lemma MergeIsHarmless(n: Node, env: Env)
    requires Shaped(n, env) && Backed(n)
    ensures Some(Previous(n, env.codec)) == env.codec.decode(n.file.value)
    ensures SameLayout(Previous(n, env.codec), n.config, env)
  {
    var d := env.codec.decode(n.file.value).value;
    assert n.config + d == d;
  }

  lemma PreviousMatches(n: Node, env: Env)
    requires Shaped(n, env) && n.running == SingBox
    ensures SameLayout(Previous(n, env.codec), n.config, env)
  {
    if Backed(n) {
      MergeIsHarmless(n, env);
    }
  }

  /** The rollback puts the failed activation's own copy in the place of a missing file. */
  predicate Swaps(n: Node, f: Faults, codec: Codec) {
    n.file.None? && OutcomeOf(n, f, codec) == Reverted && Comes(n, f) && f.commit == FailedAfter
  }

  lemma ActivationShape(n: Node, n': Node, c: Object, f: Faults, env: Env)
    requires Lossless(env.codec) && Shaped(n, env) && Activates(n, n', c, f, env)
    ensures Shaped(n', env) <==> !(n.running == SingBox && (Strays(n, f, env.codec) || Swaps(n, f, env.codec))
                                   && !SameLayout(Equipped(c, env.settings), n.config, env))
    ensures n'.running == SingBox ==>
              n'.config == Equipped(c, env.settings) || (n.running == SingBox && SameLayout(n'.config, n.config, env))
  {
    if n.running == SingBox {
      PreviousMatches(n, env);
    }
  }

  lemma EquippedPorts(config: Object, env: Env)
    ensures Ports(Equipped(config, env.settings), env) == Ports(config, env)
  {
    EquippedSameInbounds(config, env.settings);
    L.SameListenersIn(Inbounds(config), Inbounds(Equipped(config, env.settings)), env.host);
  }

  /** One of the two failures hits a running core, with a configuration of another layout. */
  ghost predicate Misplaces(w: World, a: Action, env: Env) {
    && w.node.running == SingBox
    && match Attempt(w, a, env)
       case None => false
       case Some(c) => (Strays(Ahead(w, a), a.faults, env.codec) || Swaps(Ahead(w, a), a.faults, env.codec))
                       && !SameLayout(Equipped(c, env.settings), w.node.config, env)
  }

  lemma AheadShaped(w: World, a: Action, env: Env)
    requires Shaped(w.node, env) && (a.Edit? ==> SameShape(w.node.config, a.edited))
    ensures Shaped(Ahead(w, a), env) && SameLayout(Ahead(w, a).config, w.node.config, env)
  {
    if a.Edit? {
      L.SameShapeListeners(w.node.config, a.edited, env.host);
    }
  }

  lemma AttemptIsExclusive(w: World, a: Action, env: Env)
    requires Exclusion(w, env) && Attempt(w, a, env).Some? && (a.Edit? ==> SameShape(w.node.config, a.edited))
    ensures F.Exclusive(w.forwarding, Ports(Equipped(Attempt(w, a, env).value, env.settings), env))
  {
    EquippedPorts(Attempt(w, a, env).value, env);
    if a.Edit? {
      L.SameShapeListeners(w.node.config, a.edited, env.host);
    }
  }

  /** From a shaped state a step keeps the files in step exactly when it misplaces none. */
  lemma StepKeepsShape(w: World, w': World, a: Action, env: Env)
    requires Lossless(env.codec) && Shaped(w.node, env) && Step(w, w', a, env)
    ensures Shaped(w'.node, env) <==> !Misplaces(w, a, env)
  {
    AheadShaped(w, a, env);
    match Attempt(w, a, env)
    case None =>
    case Some(c) => ActivationShape(Ahead(w, a), w'.node, c, a.faults, env);
  }

  /** The files of the states up to the n-th one. */
  ghost predicate InStep(ws: seq<World>, n: nat, env: Env)
    requires n < |ws|
  {
    Shaped(ws[n].node, env) && (n > 0 ==> InStep(ws, n - 1, env))
  }

  /** The first n steps. */
  ghost predicate NoneMisplaced(ws: seq<World>, actions: seq<Action>, n: nat, env: Env)
    requires n < |ws| && |ws| == |actions| + 1
  {
    n > 0 ==> !Misplaces(ws[n - 1], actions[n - 1], env) && NoneMisplaced(ws, actions, n - 1, env)
  }

  /** Over a run the files keep the layout of the runtime configuration exactly when no step misplaces one. */
  lemma {:induction false} FilesStayInStep(ws: seq<World>, actions: seq<Action>, env: Env, n: nat)
    requires Lossless(env.codec) && Run(ws, actions, env) && n < |ws|
    ensures InStep(ws, n, env) <==> NoneMisplaced(ws, actions, n, env)
  {
    if n > 0 {
      FilesStayInStep(ws, actions, env, n - 1);
      if NoneMisplaced(ws, actions, n - 1, env) {
        StepKeepsShape(ws[n - 1], ws[n], actions[n - 1], env);
      }
    }
  }

  // ---------------------------------------------------------------- exactly when ports stay exclusive

  /** A rejected or rolled back activation goes back to the file's configuration, and that configuration
      listens on the port of an applied rule. */
  ghost predicate Collides(w: World, a: Action, env: Env) {
    && w.node.running == SingBox && Attempt(w, a, env).Some?
    && (RejectedBack(Ahead(w, a), a.faults, env.codec) || OutcomeOf(Ahead(w, a), a.faults, env.codec) == Reverted)
    && !F.Exclusive(w.forwarding, Ports(Previous(Ahead(w, a), env.codec), env))
  }

  /** What an activation makes of the runtime configuration of a running core. */
  lemma ActivationConfig(n: Node, n': Node, c: Object, f: Faults, env: Env)
    requires Activates(n, n', c, f, env)
    ensures n'.running == SingBox ==>
              || n'.config == Equipped(c, env.settings)
              || (n.running == SingBox && n'.config == n.config)
              || (n.running == SingBox && n'.config == Previous(n, env.codec))
    ensures n.running == SingBox && (RejectedBack(n, f, env.codec) || OutcomeOf(n, f, env.codec) == Reverted) ==>
              n'.running == SingBox && n'.config == Previous(n, env.codec)
    ensures n'.running == SingBox && !(RejectedBack(n, f, env.codec) || OutcomeOf(n, f, env.codec) == Reverted) ==>
              n'.config == Equipped(c, env.settings) || (n.running == SingBox && n'.config == n.config)
  {
  }

  /** A step keeps ports exclusive exactly when it does not collide. */
  lemma StepKeepsExclusion(w: World, w': World, a: Action, env: Env)
    requires Exclusion(w, env) && Step(w, w', a, env)
    ensures Exclusion(w', env) <==> !Collides(w, a, env)
  {
    if a.Edit? {
      L.SameShapeListeners(w.node.config, a.edited, env.host);
    }
    match Attempt(w, a, env)
    case None =>
    case Some(c) =>
      AttemptIsExclusive(w, a, env);
      ActivationConfig(Ahead(w, a), w'.node, c, a.faults, env);
  }

  /** Over a run, applied rules and the running core's inbounds, and applied rules among themselves, share no
      port and transport throughout exactly when no step collides. */
  lemma {:induction false} PortsAreExclusive(ws: seq<World>, actions: seq<Action>, env: Env, n: nat)
    requires Run(ws, actions, env) && n < |ws|
    ensures (forall i :: 0 <= i <= n ==> Exclusion(ws[i], env)) <==>
              (forall j :: 0 <= j < n ==> !Collides(ws[j], actions[j], env))
  {
    if n > 0 {
      PortsAreExclusive(ws, actions, env, n - 1);
      if Exclusion(ws[n - 1], env) {
        StepKeepsExclusion(ws[n - 1], ws[n], actions[n - 1], env);
      }
    }
  }

  /** Files in step never collide. */
  lemma InStepDoesNotCollide(w: World, a: Action, env: Env)
    requires Shaped(w.node, env) && Exclusion(w, env) && (a.Edit? ==> SameShape(w.node.config, a.edited))
    ensures !Collides(w, a, env)
  {
    AheadShaped(w, a, env);
    if w.node.running == SingBox {
      PreviousMatches(Ahead(w, a), env);
    }
  }
}
