/** The capture half of internal/node/manager.go as a concurrent protocol: periodic captures,
    forwarding seals, activation, Start, user edits and Stop contend for coreMu; traffic, counter
    restarts and agent reboots happen at any moment between their steps. */
module UsageRuns {
  import opened Common
  import opened UsageStore
  import opened UsageLedger
  import opened UsageProtocol

  predicate OfKind(key: string, kind: string) { kind + [NUL] <= key }

  predicate Forwarding(key: string) { OfKind(key, "forwarding") }

  const KINDS := ["forwarding", "user", "inbound", "outbound"]

  datatype Job = Periodic | Seal | Activation | Starting | Editing | Stopping

  /** Where an actor stands. Everything but Idle happens while holding coreMu. `life` remembers in
      which life of its counter each reading was taken, `stage` how many kinds have been read and
      `sealed` how many of the readings are forwarding counters. */
  datatype Proc =
    | Idle
    | Entered(job: Job)
    | Sampling(job: Job, counters: seq<Counter>, sealed: nat, life: string -> nat, stage: nat)
    | Sampled(job: Job, counters: seq<Counter>, life: string -> nat, withCore: bool, capturing: bool, complete: bool)
    | Launched(job: Job)
    | Leaving

  datatype Sys = Sys(
    db: Db, log: seq<Snapshot>, maxBytes: int, size: Snapshot -> nat,
    marker: bool, running: bool,
    lock: Option<nat>, procs: nat -> Proc,
    ledger: string -> Ledger)

  datatype Step =
    | Acquire(job: Job)
    | SkipInactive
    | ReadForwarding(sample: Result<(seq<Counter>, bool), ()>)
    | QueryCore(reply: Result<seq<Counter>, ()>)
    | Commit(core: string, at: int, id: Option<string>)
    | Launch
    | Finish(succeeded: bool)
    | Release
    | Acknowledge(generation: string, through: nat)
    | Traffic(key: string, more: nat)
    | CounterRestart(keys: iset<string>)
    | Reboot

  ghost function Lives(s: Sys, key: string): seq<nat> { s.ledger(key).lives }

  ghost function CurrentLife(s: Sys, key: string): nat {
    if Lives(s, key) == [] then 0 else |Lives(s, key)| - 1
  }

  ghost function Base(s: Sys, key: string): int { Baseline(s.db.baseline, key) }

  ghost predicate Mentions(counters: seq<Counter>, key: string) {
    exists i :: 0 <= i < |counters| && Key(counters[i]) == key
  }

  /** One statistics reply: current values, one per key, of one kind, omitting only zero counters. */
  ghost predicate Reading(s: Sys, kind: string, counters: seq<Counter>) {
    && DistinctKeys(counters)
    && (forall i :: 0 <= i < |counters| ==>
        counters[i].kind == kind && counters[i].value == Last(Lives(s, Key(counters[i]))))
    && (kind != "forwarding" ==> forall key :: OfKind(key, kind) && Last(Lives(s, key)) > 0 ==> Mentions(counters, key))
  }

  ghost function Becomes(s: Sys, p: nat, proc: Proc): Sys {
    s.(procs := (q: nat) => if q == p then proc else s.procs(q))
  }

  ghost function Reborn(l: Ledger): Ledger { l.(lives := l.lives + [0]) }

  /** The life every counter is in. */
  ghost function Now(s: Sys): string -> nat { (key: string) => CurrentLife(s, key) }

  /** Readings of one more kind are of the life their counter is in now. */
  ghost function NowFor(s: Sys, kind: string, life: string -> nat): string -> nat {
    (key: string) => if OfKind(key, kind) then CurrentLife(s, key) else life(key)
  }

  /** A new core starts every core counter from zero. */
  ghost function Relaunched(s: Sys): string -> Ledger {
    (key: string) => if Forwarding(key) then s.ledger(key) else Reborn(s.ledger(key))
  }

  function Longer(lives: seq<nat>, more: nat): seq<nat>
    requires lives != []
  {
    lives[|lives| - 1 := Last(lives) + more]
  }

  ghost function Flowing(s: Sys, key: string, more: nat): string -> Ledger
    requires Lives(s, key) != []
  {
    (k: string) => if k == key then s.ledger(k).(lives := Longer(Lives(s, key), more)) else s.ledger(k)
  }

  /** The ledger after the store accepted a sample. */
  ghost predicate Accounted(s: Sys, counters: seq<Counter>, life: string -> nat, restarted: bool, s': Sys) {
    forall key ::
      && (!Mentions(counters, key) ==> s'.ledger(key) == s.ledger(key))
      && (forall i :: 0 <= i < |counters| && Key(counters[i]) == key && counters[i].value >= 0 && Base(s, key) >= 0 ==>
            s'.ledger(key) == Record(s.ledger(key), Base(s, key), counters[i].value, life(key), restarted
                && !Forwarding(key)))
  }

  /** Where accounting begins for a counter the activation sample does not mention: a core counter
      looked for in a running core starts from zero in that life, one of a core that is not running
      in its next life, an unsampled forwarding counter from its first byte. */
  ghost function Unsampled(s: Sys, key: string, life: string -> nat, withCore: bool): Ledger {
    Opened(s.ledger(key), if Forwarding(key) then 0 else if withCore then life(key) else |Lives(s, key)|, 0)
  }

  ghost predicate AccountingBegins(s: Sys, counters: seq<Counter>, life: string -> nat, withCore: bool, s': Sys) {
    forall key ::
      && (!Mentions(counters, key) ==> s'.ledger(key) == Unsampled(s, key, life, withCore))
      && (forall i :: 0 <= i < |counters| && Key(counters[i]) == key && counters[i].value >= 0 ==>
            s'.ledger(key) == Opened(s.ledger(key), life(key), counters[i].value))
  }

  ghost predicate CommitActivation(s: Sys, p: nat, proc: Proc, id: Option<string>, s': Sys)
    requires proc.Sampled?
  {
    if proc.complete && id.Some? && id.value != "" && !s.db.active then
      && s' == Becomes(s, p, Leaving).(db := Activated(s.db, proc.counters, id).0, log := [], ledger := s'.ledger)
      && AccountingBegins(s, proc.counters, proc.life, proc.withCore, s')
    else s' == Becomes(s, p, Leaving)
  }

  ghost predicate CommitCapture(s: Sys, p: nat, proc: Proc, core: string, at: int, s': Sys)
    requires proc.Sampled?
  {
    if !proc.capturing then s' == Becomes(s, p, Leaving)
    else
      var (db', marker', r) := Committed(s.db, s.marker, core, proc.counters, proc.complete, at, s.maxBytes, s.size);
      if r.Err? then s' == Becomes(s, p, Leaving)
      else
        && s' == Becomes(s, p, Leaving).(db := db', log := LogAfter(s.db, s.log, db'), marker := marker',
             ledger := s'.ledger)
        && Accounted(s, proc.counters, proc.life, proc.complete && s.marker, s')
  }

  ghost predicate Next(s: Sys, p: nat, step: Step, s': Sys) {
    var proc := s.procs(p);
    match step
    case Acquire(job) =>
      s.lock == None && proc == Idle && s' == Becomes(s, p, Entered(job)).(lock := Some(p))
    case SkipInactive =>
      (proc == Entered(Periodic) || proc == Entered(Seal)) && !s.db.active && s' == Becomes(s, p, Leaving)
    case ReadForwarding(sample) =>
      && (proc == Entered(Activation) || ((proc == Entered(Periodic) || proc == Entered(Seal)) && s.db.active))
      && (match sample
          case Err(_) => s' == Becomes(s, p, Leaving)
          case Ok((counters, active)) =>
            && Reading(s, KINDS[0], counters)
            && s' == Becomes(s, p,
                 if s.running then Sampling(proc.job, counters, |counters|, Now(s), 1)
                 else Sampled(proc.job, counters, Now(s), false, active, true)))
    case QueryCore(reply) =>
      && proc.Sampling? && 1 <= proc.stage <= 3 && proc.sealed <= |proc.counters|
      && (match reply
          case Err(_) => s' == Becomes(s, p, Sampled(proc.job, proc.counters[..proc.sealed], proc.life, false, true,
              false))
          case Ok(more) =>
            && Reading(s, KINDS[proc.stage], more)
            && var life := NowFor(s, KINDS[proc.stage], proc.life);
               s' == Becomes(s, p,
                 if proc.stage < 3 then Sampling(proc.job, proc.counters + more, proc.sealed, life, proc.stage + 1)
                 else Sampled(proc.job, proc.counters + more, life, true, true, true)))
    case Commit(core, at, id) =>
      && proc.Sampled?
      && (if proc.job == Activation then CommitActivation(s, p, proc, id, s')
           else CommitCapture(s, p, proc, core, at, s'))
    case Launch =>
      && (proc == Entered(Starting) || proc == Launched(Starting)
           || (s.running && (proc == Entered(Editing) || proc == Launched(Editing))))
      && s' == Becomes(s, p, Launched(proc.job)).(ledger := Relaunched(s))
    case Finish(succeeded) =>
      && (proc.Launched? || proc == Entered(Starting) || proc == Entered(Editing) || proc == Entered(Stopping))
      && s' == Becomes(s, p, Leaving).(running := s'.running, marker := s'.marker)
      && (succeeded ==> proc.Launched? && s'.running)
      && (!succeeded ==> s'.running ==> s.running && proc != Entered(Stopping))
      && s'.marker == (s.marker || (succeeded && proc == Launched(Starting) && s.db.active))
    case Release =>
      proc == Leaving && s' == Becomes(s, p, Idle).(lock := None)
    case Acknowledge(generation, through) =>
      s' == s.(db := Acked(s.db, generation, through).0)
    case Traffic(key, more) =>
      && Lives(s, key) != []
      && s' == s.(ledger := Flowing(s, key, more))
    case CounterRestart(keys) =>
      s' == s.(ledger := (k: string) => if k in keys && !Forwarding(k) then Reborn(s.ledger(k)) else s.ledger(k))
    case Reboot =>
      s' == s.(marker := false, running := false, lock := None, procs := (q: nat) => Idle)
  }

  ghost predicate Init(s: Sys) {
    && s.db == EMPTY_DB && s.log == [] && !s.marker && !s.running && s.maxBytes >= 0
    && s.lock == None && (forall p: nat :: s.procs(p) == Idle)
    && (forall key :: s.ledger(key) == Ledger([0], map[], 0, 0, 0, 0))
  }

  // ---------------------------------------------------------------- the invariant

  ghost function Holder(s: Sys): Proc {
    if s.lock.Some? then s.procs(s.lock.value) else Idle
  }

  /** Readings of at most the first `stages` kinds, one per key. */
  ghost predicate WellSampled(counters: seq<Counter>, stages: nat) {
    && DistinctKeys(counters)
    && stages <= 4
    && (forall i :: 0 <= i < |counters| ==> counters[i].kind in KINDS[..stages])
  }

  ghost predicate GlobalInv(s: Sys) {
    && (forall p: nat :: s.procs(p) != Idle ==> s.lock == Some(p))
    && Queue(s.db, s.log)
    && (s.marker ==> s.db.active)
    && (match Holder(s)
        case Sampling(_, counters, sealed, _, stage) =>
          1 <= stage <= 3 && sealed <= |counters| && s.running && WellSampled(counters, stage)
              && WellSampled(counters[..sealed], 1)
        case Sampled(_, counters, _, withCore, _, complete) =>
          WellSampled(counters, if withCore then 4 else 1) && (withCore ==> complete && s.running)
              && (complete && !withCore ==> !s.running)
        case _ => true)
  }

  /** A reading in flight is neither from the future nor older than the baseline, and when the
      restart marker is set the baseline is from an earlier life. */
  ghost predicate InFlight(s: Sys, key: string, v: int, life: nat) {
    var l := s.ledger(key);
    && life < |l.lives| && 0 <= v <= l.lives[life]
    && (s.db.active ==> l.at <= life && (l.at == life ==> Base(s, key) <= v))
    && (s.db.active && s.marker && !Forwarding(key) ==> l.at < life || Base(s, key) == 0)
  }

  ghost predicate SampleInv(s: Sys, counters: seq<Counter>, life: string -> nat, key: string) {
    && life(key) < |Lives(s, key)|
    && (forall i :: 0 <= i < |counters| && Key(counters[i]) == key ==> InFlight(s, key, counters[i].value, life(key)))
  }

  ghost predicate LedgerInv(s: Sys, key: string) {
    var l := s.ledger(key);
    && |l.lives| > 0
    && (Forwarding(key) ==> |l.lives| == 1)
    && (s.db.active ==>
          && Balanced(l, Base(s, key), TotalBill(s.log, key))
          && (Forwarding(key) ==> l.at == 0 && l.lost == 0)
          && (!Forwarding(key) && s.running ==> l.at < |l.lives|)
          && (!Forwarding(key) && (s.marker || Holder(s).Launched?) ==>
              l.at < |l.lives| && (l.at < |l.lives| - 1 || Base(s, key) == 0)))
  }

  ghost predicate KeyInv(s: Sys, key: string) {
    && LedgerInv(s, key)
    && (Holder(s).Sampling? || Holder(s).Sampled? ==> SampleInv(s, Holder(s).counters, Holder(s).life, key))
  }

  lemma OneKind(key: string, a: string, b: string)
    requires NUL !in a && NUL !in b && OfKind(key, a) && OfKind(key, b)
    ensures a == b
  {
    var x, y := key[|a| + 1..], key[|b| + 1..];
    assert key == a + [NUL] + x && key == b + [NUL] + y;
    SplitAtNul(a, x, b, y);
  }

  lemma KindOfKey(c: Counter, kind: string)
    requires NUL !in c.kind && NUL !in kind
    ensures OfKind(Key(c), kind) <==> c.kind == kind
  {
    assert OfKind(Key(c), c.kind);
    if OfKind(Key(c), kind) {
      OneKind(Key(c), kind, c.kind);
    }
  }

  lemma KindsAreDistinct()
    ensures |KINDS| == 4
    ensures forall i :: 0 <= i < 4 ==> NUL !in KINDS[i]
    ensures forall i, j :: 0 <= i < j < 4 ==> KINDS[i] != KINDS[j]
  {
    assert "user"[0] == 'u' && "inbound"[0] == 'i' && "outbound"[0] == 'o' && "forwarding"[0] == 'f';
  }

  lemma InitInv(s: Sys, key: string)
    requires Init(s)
    ensures GlobalInv(s) && KeyInv(s, key)
  {
  }

  lemma SamplesJoin(counters: seq<Counter>, more: seq<Counter>, stage: nat)
    requires 1 <= stage <= 3 && WellSampled(counters, stage) && DistinctKeys(more)
    requires forall i :: 0 <= i < |more| ==> more[i].kind == KINDS[stage]
    ensures WellSampled(counters + more, stage + 1)
  {
    KindsAreDistinct();
    forall i, j | 0 <= i < j < |counters + more| ensures Key((counters + more)[i]) != Key((counters + more)[j]) {
      if i < |counters| <= j {
        var a, b := counters[i], more[j - |counters|];
        var k :| 0 <= k < stage && KINDS[k] == a.kind;
        KindOfKey(a, a.kind);
        KindOfKey(b, a.kind);
      }
    }
  }

  lemma ReadKeepsGlobalInv(s: Sys, p: nat, step: Step, s': Sys)
    requires GlobalInv(s) && Next(s, p, step, s') && step.ReadForwarding?
    ensures GlobalInv(s')
  {
    assert Holder(s) == s.procs(p);
    if step.sample.Ok? {
      var counters := step.sample.value.0;
      assert KINDS[0] in KINDS[..1] && counters[..|counters|] == counters;
      assert WellSampled(counters, 1);
    }
  }

  lemma QueryKeepsGlobalInv(s: Sys, p: nat, step: Step, s': Sys)
    requires GlobalInv(s) && Next(s, p, step, s') && step.QueryCore?
    ensures GlobalInv(s')
  {
    var proc := s.procs(p);
    assert Holder(s) == proc && Holder(s') == s'.procs(p);
    if step.reply.Ok? {
      SamplesJoin(proc.counters, step.reply.value, proc.stage);
      assert (proc.counters + step.reply.value)[..proc.sealed] == proc.counters[..proc.sealed];
    }
  }

  lemma CommitKeepsGlobalInv(s: Sys, p: nat, step: Step, s': Sys)
    requires GlobalInv(s) && Next(s, p, step, s') && step.Commit?
    ensures GlobalInv(s')
  {
    var proc := s.procs(p);
    assert Holder(s) == proc && Holder(s') == Leaving;
    if proc.job != Activation && proc.capturing {
      CapturedKeepsQueue(s.db, s.log, step.core, proc.counters, step.at, proc.complete && s.marker, s.maxBytes, s.size);
    }
  }

  lemma NextKeepsGlobalInv(s: Sys, p: nat, step: Step, s': Sys)
    requires GlobalInv(s) && Next(s, p, step, s')
    ensures GlobalInv(s')
  {
    match step
    case ReadForwarding(_) => ReadKeepsGlobalInv(s, p, step, s');
    case QueryCore(_) => QueryKeepsGlobalInv(s, p, step, s');
    case Commit(_, _, _) => CommitKeepsGlobalInv(s, p, step, s');
    case Acknowledge(generation, through) => AckedKeepsQueue(s.db, s.log, generation, through);
    case _ =>
      assert Holder(s') == Holder(s) || !(Holder(s').Sampling? || Holder(s').Sampled?);
  }

  // ---------------------------------------------------------------- each step, one key at a time

  /** Only forwarding counters survive a sample whose core half is missing. */
  lemma KindInSample(counters: seq<Counter>, stages: nat, i: nat)
    requires WellSampled(counters, stages) && i < |counters|
    ensures Forwarding(Key(counters[i])) <==> counters[i].kind == "forwarding"
    ensures stages == 1 ==> Forwarding(Key(counters[i]))
  {
    KindsAreDistinct();
    assert counters[i].kind in KINDS[..stages];
    var k :| 0 <= k < stages && KINDS[..stages][k] == counters[i].kind;
    assert KINDS[k] == counters[i].kind;
    KindOfKey(counters[i], "forwarding");
  }

  /** The sampled key after a capture: everything the invariant looks at. */
  ghost predicate CapturedAt(s: Sys, c: Counter, life: nat, complete: bool, s': Sys) {
    var key, restarted := Key(c), complete && s.marker && !Forwarding(Key(c));
    && s'.db.active && s'.running == s.running && Holder(s') == Leaving
    && s'.marker == (s.marker && !complete)
    && Base(s, key) >= 0 && c.value >= 0
    && Base(s', key) == c.value
    && TotalBill(s'.log, key) == TotalBill(s.log, key) + Charged(Base(s, key), c.value, restarted)
    && s'.ledger(key) == Record(s.ledger(key), Base(s, key), c.value, life, restarted)
  }

  lemma CaptureEffect(s: Sys, p: nat, core: string, at: int, s': Sys, i: nat)
    requires s.lock == Some(p) && s.procs(p).Sampled? && i < |s.procs(p).counters|
    requires Queue(s.db, s.log) && WellSampled(s.procs(p).counters, 4)
    requires s.db.active && s.procs(p).capturing && CommitCapture(s, p, s.procs(p), core, at, s')
    requires s.procs(p).counters[i].value >= 0 && Base(s, Key(s.procs(p).counters[i])) >= 0
    requires s' != Becomes(s, p, Leaving)
    ensures var proc := s.procs(p); CapturedAt(s, proc.counters[i], proc.life(Key(proc.counters[i])), proc.complete, s')
  {
    var proc := s.procs(p);
    var c := proc.counters[i];
    CommittedBills(s.db, s.log, s.marker, core, proc.counters, proc.complete, at, s.maxBytes, s.size, Key(c));
    KindInSample(proc.counters, 4, i);
    ChargeIsCharged(s.db.baseline, c, proc.complete && s.marker);
  }

  lemma ChargeIsCharged(baseline: map<string, Int64>, c: Counter, reset: bool)
    requires c.value >= 0 && Baseline(baseline, Key(c)) >= 0
    requires Forwarding(Key(c)) <==> c.kind == "forwarding"
    ensures Charge(baseline, c, reset) == Charged(Baseline(baseline, Key(c)), c.value, reset && !Forwarding(Key(c)))
  {
  }

  /** A forwarding-only sample is in particular a sample. */
  lemma SampleWidens(counters: seq<Counter>, stages: nat)
    requires 1 <= stages <= 4 && WellSampled(counters, stages)
    ensures WellSampled(counters, 4)
  {
    assert forall k :: k in KINDS[..stages] ==> k in KINDS[..4];
  }

  lemma RecordedKeepsLedger(s: Sys, c: Counter, life: nat, complete: bool, s': Sys)
    requires s.db.active && LedgerInv(s, Key(c)) && InFlight(s, Key(c), c.value, life)
    requires !complete ==> Forwarding(Key(c))
    requires CapturedAt(s, c, life, complete, s')
    ensures LedgerInv(s', Key(c))
  {
    var key := Key(c);
    RecordKeepsBalance(s.ledger(key), Base(s, key), TotalBill(s.log, key), c.value, life, complete && s.marker
        && !Forwarding(key));
  }

  lemma LeavingKeepsKey(s: Sys, p: nat, key: string)
    requires s.lock == Some(p) && LedgerInv(s, key)
    ensures KeyInv(Becomes(s, p, Leaving), key)
  {
  }

  lemma CaptureOfSampledKey(s: Sys, p: nat, core: string, at: int, s': Sys, i: nat)
    requires GlobalInv(s) && s.lock == Some(p) && s.procs(p).Sampled? && i < |s.procs(p).counters|
    requires s.db.active && s.procs(p).capturing && CommitCapture(s, p, s.procs(p), core, at, s')
    requires KeyInv(s, Key(s.procs(p).counters[i]))
    ensures KeyInv(s', Key(s.procs(p).counters[i]))
  {
    var proc := s.procs(p);
    var c := proc.counters[i];
    assert InFlight(s, Key(c), c.value, proc.life(Key(c)));
    if s' == Becomes(s, p, Leaving) {
      LeavingKeepsKey(s, p, Key(c));
    } else {
      KindInSample(proc.counters, if proc.withCore then 4 else 1, i);
      SampleWidens(proc.counters, if proc.withCore then 4 else 1);
      CaptureEffect(s, p, core, at, s', i);
      RecordedKeepsLedger(s, c, proc.life(Key(c)), proc.complete, s');
    }
  }

  lemma CaptureOfOtherKey(s: Sys, p: nat, core: string, at: int, s': Sys, key: string)
    requires GlobalInv(s) && s.lock == Some(p) && s.procs(p).Sampled?
    requires CommitCapture(s, p, s.procs(p), core, at, s')
    requires KeyInv(s, key) && (s.db.active && s.procs(p).capturing ==> !Mentions(s.procs(p).counters, key))
    ensures KeyInv(s', key)
  {
    var proc := s.procs(p);
    if s' == Becomes(s, p, Leaving) {
      LeavingKeepsKey(s, p, key);
    } else if s.db.active {
      CommittedBills(s.db, s.log, s.marker, core, proc.counters, proc.complete, at, s.maxBytes, s.size, key);
      OtherKeepsLedger(s, s', key);
    } else {
      assert s'.ledger(key).lives == s.ledger(key).lives;
    }
  }

  lemma OtherKeepsLedger(s: Sys, s': Sys, key: string)
    requires s'.db.active == s.db.active && (s'.marker ==> s.marker) && s'.running == s.running && Holder(s') == Leaving
    requires s'.ledger(key) == s.ledger(key) && Base(s', key) == Base(s, key)
    requires TotalBill(s'.log, key) == TotalBill(s.log, key)
    requires LedgerInv(s, key)
    ensures KeyInv(s', key)
  {
  }

  lemma ActivationKeepsKey(s: Sys, p: nat, id: Option<string>, s': Sys, key: string)
    requires GlobalInv(s) && s.lock == Some(p) && s.procs(p).Sampled?
    requires CommitActivation(s, p, s.procs(p), id, s')
    requires KeyInv(s, key)
    ensures KeyInv(s', key)
  {
    var proc := s.procs(p);
    if s'.db.active && !s.db.active {
      StoredLookup(map[], proc.counters, key);
      var l := s.ledger(key);
      if Mentions(proc.counters, key) {
        var i :| 0 <= i < |proc.counters| && Key(proc.counters[i]) == key;
        OpenedIsBalanced(l, proc.life(key), proc.counters[i].value);
      } else {
        OpenedIsBalanced(l, if Forwarding(key) then 0 else if proc.withCore then proc.life(key) else |l.lives|, 0);
      }
    }
  }

  lemma CommitKeepsKey(s: Sys, p: nat, step: Step, s': Sys, key: string)
    requires GlobalInv(s) && KeyInv(s, key) && Next(s, p, step, s') && step.Commit?
    ensures KeyInv(s', key)
  {
    var proc := s.procs(p);
    if proc.job == Activation {
      ActivationKeepsKey(s, p, step.id, s', key);
    } else if s.db.active && proc.capturing && Mentions(proc.counters, key) {
      var i :| 0 <= i < |proc.counters| && Key(proc.counters[i]) == key;
      CaptureOfSampledKey(s, p, step.core, step.at, s', i);
    } else {
      CaptureOfOtherKey(s, p, step.core, step.at, s', key);
    }
  }

  lemma CurrentReadingInFlight(s: Sys, key: string)
    requires LedgerInv(s, key) && (Forwarding(key) || s.running)
    ensures InFlight(s, key, Last(Lives(s, key)), CurrentLife(s, key))
  {
  }

  lemma ReadKeepsKey(s: Sys, p: nat, step: Step, s': Sys, key: string)
    requires GlobalInv(s) && KeyInv(s, key) && Next(s, p, step, s') && step.ReadForwarding?
    ensures KeyInv(s', key)
  {
    if step.sample.Ok? {
      var counters := step.sample.value.0;
      forall i | 0 <= i < |counters| && Key(counters[i]) == key
        ensures InFlight(s, key, counters[i].value, CurrentLife(s, key))
      {
        assert KINDS[0] in KINDS[..1];
        assert WellSampled(counters, 1);
        KindInSample(counters, 1, i);
        CurrentReadingInFlight(s, key);
      }
    }
  }

  /** Readings already taken keep their life when the next kind is looked up. */
  lemma QueryKeepsSample(s: Sys, counters: seq<Counter>, more: seq<Counter>, life: string -> nat, life': string -> nat,
                         stage: nat, key: string)
    requires LedgerInv(s, key) && s.running && SampleInv(s, counters, life, key)
    requires 1 <= stage <= 3 && WellSampled(counters, stage) && Reading(s, KINDS[stage], more)
    requires life'(key) == if OfKind(key, KINDS[stage]) then CurrentLife(s, key) else life(key)
    ensures SampleInv(s, counters + more, life', key)
  {
    var all := counters + more;
    KindsAreDistinct();
    forall i | 0 <= i < |all| && Key(all[i]) == key
      ensures InFlight(s, key, all[i].value, life'(key))
    {
      if i < |counters| {
        assert all[i] == counters[i] && counters[i].kind in KINDS[..stage];
        var k :| 0 <= k < stage && KINDS[..stage][k] == counters[i].kind;
        assert KINDS[k] == counters[i].kind;
        KindOfKey(counters[i], KINDS[stage]);
      } else {
        assert all[i] == more[i - |counters|];
        KindOfKey(all[i], KINDS[stage]);
        CurrentReadingInFlight(s, key);
      }
    }
  }

  lemma QueryKeepsKey(s: Sys, p: nat, step: Step, s': Sys, key: string)
    requires GlobalInv(s) && KeyInv(s, key) && Next(s, p, step, s') && step.QueryCore?
    ensures KeyInv(s', key)
  {
    var proc := s.procs(p);
    assert Holder(s) == proc && Holder(s') == s'.procs(p);
    if step.reply.Ok? {
      QueryKeepsSample(s, proc.counters, step.reply.value, proc.life, Holder(s').life, proc.stage, key);
    } else {
      assert forall i :: 0 <= i < proc.sealed ==> proc.counters[..proc.sealed][i] == proc.counters[i];
    }
  }

  /** More true bytes, or a new life, never unsettles a reading in flight. */
  lemma LivesGrow(s: Sys, s': Sys, key: string)
    requires KeyInv(s, key)
    requires s'.db == s.db && s'.log == s.log && s'.marker == s.marker && s'.running == s.running
    requires s'.ledger(key) == s.ledger(key).(lives := s'.ledger(key).lives)
    requires var a, b := s.ledger(key).lives, s'.ledger(key).lives;
             && |a| <= |b| && (forall i :: 0 <= i < |a| ==> a[i] <= b[i])
             && (Forwarding(key) ==> |b| == |a|)
    requires s.db.active ==> Balanced(s'.ledger(key), Base(s, key), TotalBill(s.log, key))
    requires Holder(s') == Holder(s) || (Holder(s').Launched?
               && (Forwarding(key) || |s'.ledger(key).lives| > |s.ledger(key).lives|))
    ensures KeyInv(s', key)
  {
  }

  lemma RebirthKeepsKey(s: Sys, p: nat, step: Step, s': Sys, key: string)
    requires GlobalInv(s) && KeyInv(s, key) && Next(s, p, step, s') && (step.Launch? || step.CounterRestart?)
    ensures KeyInv(s', key)
  {
    if s.db.active {
      RebirthKeepsBalance(s.ledger(key), Base(s, key), TotalBill(s.log, key));
    }
    assert s'.ledger(key) == s.ledger(key) || (!Forwarding(key) && s'.ledger(key) == Reborn(s.ledger(key)));
    LivesGrow(s, s', key);
  }

  lemma TrafficKeepsKey(s: Sys, p: nat, step: Step, s': Sys, key: string)
    requires GlobalInv(s) && KeyInv(s, key) && Next(s, p, step, s') && step.Traffic?
    ensures KeyInv(s', key)
  {
    if s.db.active {
      TrafficKeepsBalance(s.ledger(key), Base(s, key), TotalBill(s.log, key), step.more);
    }
    LivesGrow(s, s', key);
  }

  /** The panel acknowledges without taking the lock, at any moment: no bill, baseline or sample moves. */
  lemma AckKeepsKey(s: Sys, p: nat, step: Step, s': Sys, key: string)
    requires KeyInv(s, key) && Next(s, p, step, s') && step.Acknowledge?
    ensures KeyInv(s', key)
  {
    assert s'.db.active == s.db.active && s'.db.baseline == s.db.baseline;
  }

  lemma LockKeepsKey(s: Sys, p: nat, step: Step, s': Sys, key: string)
    requires GlobalInv(s) && KeyInv(s, key) && Next(s, p, step, s')
    requires step.Acquire? || step.SkipInactive? || step.Release? || step.Finish? || step.Reboot?
    ensures KeyInv(s', key)
  {
    assert s'.ledger == s.ledger && s'.db == s.db && s'.log == s.log;
    assert !Holder(s').Sampling? && !Holder(s').Sampled? && !Holder(s').Launched?;
  }

  lemma NextKeepsKeyInv(s: Sys, p: nat, step: Step, s': Sys, key: string)
    requires GlobalInv(s) && KeyInv(s, key) && Next(s, p, step, s')
    ensures KeyInv(s', key)
  {
    match step
    case Commit(_, _, _) => CommitKeepsKey(s, p, step, s', key);
    case ReadForwarding(_) => ReadKeepsKey(s, p, step, s', key);
    case QueryCore(_) => QueryKeepsKey(s, p, step, s', key);
    case Traffic(_, _) => TrafficKeepsKey(s, p, step, s', key);
    case CounterRestart(_) => RebirthKeepsKey(s, p, step, s', key);
    case Launch => RebirthKeepsKey(s, p, step, s', key);
    case Acknowledge(_, _) => AckKeepsKey(s, p, step, s', key);
    case _ => LockKeepsKey(s, p, step, s', key);
  }

  // ---------------------------------------------------------------- whole runs

  ghost predicate Run(trace: seq<Sys>, actors: seq<nat>, steps: seq<Step>) {
    && |trace| == |steps| + 1 == |actors| + 1
    && Init(trace[0])
    && forall i :: 0 <= i < |steps| ==> Next(trace[i], actors[i], steps[i], trace[i + 1])
  }

  lemma {:induction false} RunKeepsInv(trace: seq<Sys>, actors: seq<nat>, steps: seq<Step>, n: nat, key: string)
    requires Run(trace, actors, steps) && n < |trace|
    ensures GlobalInv(trace[n]) && KeyInv(trace[n], key)
  {
    if n == 0 {
      InitInv(trace[0], key);
    } else {
      RunKeepsInv(trace, actors, steps, n - 1, key);
      NextKeepsGlobalInv(trace[n - 1], actors[n - 1], steps[n - 1], trace[n]);
      NextKeepsKeyInv(trace[n - 1], actors[n - 1], steps[n - 1], trace[n], key);
    }
  }

  /** Over every interleaving, whatever restarts, fails or reboots: what was ever queued for a
      counter, plus the baselines of dead lives that were subtracted from live readings, plus the
      reading accounting began with, is the sum of the last committed reading of each life. */
  lemma BillingBalances(trace: seq<Sys>, actors: seq<nat>, steps: seq<Step>, n: nat, key: string)
    requires Run(trace, actors, steps) && n < |trace| && trace[n].db.active
    ensures var s := trace[n]; var l := s.ledger(key);
            TotalBill(s.log, key) + l.lost + l.offset == Recorded(l.committed, |l.lives|)
  {
    RunKeepsInv(trace, actors, steps, n, key);
  }

  /** The queue never bills more than the counter carried since accounting began. */
  lemma NeverOverBills(trace: seq<Sys>, actors: seq<nat>, steps: seq<Step>, n: nat, key: string)
    requires Run(trace, actors, steps) && n < |trace| && trace[n].db.active
    ensures var s := trace[n]; var l := s.ledger(key);
            TotalBill(s.log, key) <= Carried(l.lives, l.origin) - l.offset
  {
    RunKeepsInv(trace, actors, steps, n, key);
    BalancedNeverOverBills(trace[n].ledger(key), Base(trace[n], key), TotalBill(trace[n].log, key));
  }

  /** A forwarding counter lives exactly as long as its scope, so no core restart can touch it: it is
      billed its last committed reading minus the one activation stored, in every run. */
  lemma ForwardingBillsExactly(trace: seq<Sys>, actors: seq<nat>, steps: seq<Step>, n: nat, key: string)
    requires Run(trace, actors, steps) && n < |trace| && trace[n].db.active && Forwarding(key)
    ensures var s := trace[n]; TotalBill(s.log, key) == Base(s, key) - s.ledger(key).offset
    ensures Base(trace[n], key) <= Last(Lives(trace[n], key))
  {
    RunKeepsInv(trace, actors, steps, n, key);
    assert Recorded(trace[n].ledger(key).committed, 1) == At(trace[n].ledger(key).committed, 0) by {
      assert Recorded(trace[n].ledger(key).committed, 0) == 0;
    }
  }

  // ---------------------------------------------------------------- the byte limit

  /** A commit leaves the queue as it was, or as a capture leaves it. */
  lemma CommitIsCapture(s: Sys, p: nat, step: Step, s': Sys) returns (reset: bool, captured: bool)
    requires Next(s, p, step, s') && s.db.active && step.Commit?
    ensures !captured ==> s'.db == s.db && s'.log == s.log
    ensures captured ==>
              s'.db == Captured(s.db, step.core, s.procs(p).counters, step.at, reset, s.maxBytes, s.size).0
              && s'.log == LogAfter(s.db, s.log, s'.db)
  {
    var proc := s.procs(p);
    reset := proc.complete && s.marker;
    captured := proc.job != Activation && proc.capturing
      && Committed(s.db, s.marker, step.core, proc.counters, proc.complete, step.at, s.maxBytes, s.size).2.Ok?;
  }

  lemma NextKeepsLimit(s: Sys, p: nat, step: Step, s': Sys)
    requires GlobalInv(s) && Next(s, p, step, s') && WithinLimit(s.db, s.maxBytes, s.size)
    ensures WithinLimit(s'.db, s'.maxBytes, s'.size) && s'.maxBytes == s.maxBytes && s'.size == s.size
  {
    LimitsStay(s, p, step, s');
    match step
    case Commit(_, _, _) => CommitKeepsLimit(s, p, step, s');
    case Acknowledge(generation, through) => AckedKeepsLimit(s.db, generation, through, s.maxBytes, s.size);
    case _ =>
  }

  lemma CommitKeepsLimit(s: Sys, p: nat, step: Step, s': Sys)
    requires GlobalInv(s) && Next(s, p, step, s') && step.Commit? && WithinLimit(s.db, s.maxBytes, s.size)
    ensures WithinLimit(s'.db, s.maxBytes, s.size)
  {
    if s.db.active {
      var reset, captured := CommitIsCapture(s, p, step, s');
      if captured {
        CapturedKeepsLimit(s.db, s.log, step.core, s.procs(p).counters, step.at, reset, s.maxBytes, s.size);
      }
    } else {
      CommitOpensEmpty(s, p, step, s');
    }
  }

  lemma CommitOpensEmpty(s: Sys, p: nat, step: Step, s': Sys)
    requires Next(s, p, step, s') && step.Commit? && !s.db.active
    ensures s'.db == s.db || s'.db.snapshots == map[]
  {
  }

  lemma LimitsStay(s: Sys, p: nat, step: Step, s': Sys)
    requires Next(s, p, step, s')
    ensures s'.maxBytes == s.maxBytes && s'.size == s.size
    ensures !step.Commit? && !step.Acknowledge? ==> s'.db == s.db
  {
  }

  /** Over every run the queue stays within the store's byte limit. */
  lemma {:induction false} QueueStaysWithinLimit(trace: seq<Sys>, actors: seq<nat>, steps: seq<Step>, n: nat)
    requires Run(trace, actors, steps) && n < |trace|
    ensures WithinLimit(trace[n].db, trace[n].maxBytes, trace[n].size)
    ensures trace[n].maxBytes == trace[0].maxBytes && trace[n].size == trace[0].size
  {
    if n > 0 {
      QueueStaysWithinLimit(trace, actors, steps, n - 1);
      RunKeepsInv(trace, actors, steps, n - 1, "");
      NextKeepsLimit(trace[n - 1], actors[n - 1], steps[n - 1], trace[n]);
    }
  }
}
