/** When the bill of a counter is exact: precisely in the runs in which no capture compares a reading of
    a new life with the baseline of an old one. Two short runs in which one does. */
module UsageExact {
  import opened Common
  import opened UsageStore
  import opened UsageLedger
  import opened UsageProtocol
  import opened UsageRuns

  ghost predicate Accepts(s: Sys, proc: Proc, core: string, at: int)
    requires proc.Sampled?
  {
    Committed(s.db, s.marker, core, proc.counters, proc.complete, at, s.maxBytes, s.size).2.Ok?
  }

  /** The reading `v` was taken in another life of the counter than the baseline, no restart marker says
      so, and it is not smaller than the baseline, so the decrease does not give the restart away. */
  ghost predicate Mistaken(s: Sys, key: string, v: int, life: nat, restarted: bool) {
    life != s.ledger(key).at && !(restarted && !Forwarding(key)) && 0 < Base(s, key) <= v
  }

  /** An accepted capture is about to commit a mistaken reading of the counter. */
  ghost predicate Misreads(s: Sys, p: nat, step: Step, key: string) {
    var proc := s.procs(p);
    && step.Commit? && s.db.active && proc.Sampled? && proc.job != Activation && proc.capturing
    && Accepts(s, proc, step.core, step.at)
    && exists i :: 0 <= i < |proc.counters| && Key(proc.counters[i]) == key
                   && Mistaken(s, key, proc.counters[i].value, proc.life(key), proc.complete && s.marker)
  }

  /** The capture commits, and this is the reading of the counter it commits. */
  lemma MentionedLoses(s: Sys, counters: seq<Counter>, life: string -> nat, restarted: bool, s': Sys, i: nat)
    requires i < |counters| && counters[i].value >= 0 && Base(s, Key(counters[i])) >= 0
    requires Accounted(s, counters, life, restarted, s')
    ensures var key := Key(counters[i]);
            s'.ledger(key).lost == s.ledger(key).lost
                + if Mistaken(s, key, counters[i].value, life(key), restarted) then Base(s, key) else 0
  {
    var key := Key(counters[i]);
    var restarted' := restarted && !Forwarding(key);
    assert s'.ledger(key) == Record(s.ledger(key), Base(s, key), counters[i].value, life(key), restarted');
  }

  lemma OneReading(counters: seq<Counter>, key: string) returns (i: nat)
    requires DistinctKeys(counters) && Mentions(counters, key)
    ensures i < |counters| && Key(counters[i]) == key
    ensures forall j :: 0 <= j < |counters| && Key(counters[j]) == key ==> j == i
  {
    i :| 0 <= i < |counters| && Key(counters[i]) == key;
  }

  lemma CommitAccounts(s: Sys, p: nat, step: Step, s': Sys)
    requires GlobalInv(s) && Next(s, p, step, s') && s.db.active && step.Commit? && s.procs(p).job != Activation
    ensures s'.db.active && DistinctKeys(s.procs(p).counters) && Holder(s) == s.procs(p)
    ensures var proc := s.procs(p);
            if proc.capturing && Accepts(s, proc, step.core, step.at)
            then Accounted(s, proc.counters, proc.life, proc.complete && s.marker, s')
            else s'.ledger == s.ledger
  {
  }

  lemma CaptureLoses(s: Sys, p: nat, step: Step, s': Sys, key: string)
    requires GlobalInv(s) && KeyInv(s, key) && Next(s, p, step, s') && s.db.active
    requires step.Commit? && s.procs(p).job != Activation
    ensures s'.db.active
    ensures s'.ledger(key).lost == s.ledger(key).lost + if Misreads(s, p, step, key) then Base(s, key) else 0
  {
    var proc := s.procs(p);
    CommitAccounts(s, p, step, s');
    if proc.capturing && Accepts(s, proc, step.core, step.at) && Mentions(proc.counters, key) {
      var i := OneReading(proc.counters, key);
      assert InFlight(s, key, proc.counters[i].value, proc.life(key));
      MentionedLoses(s, proc.counters, proc.life, proc.complete && s.marker, s', i);
    }
  }

  lemma StepLoses(s: Sys, p: nat, step: Step, s': Sys, key: string)
    requires GlobalInv(s) && KeyInv(s, key) && Next(s, p, step, s')
    ensures s.db.active ==> s'.db.active
    ensures s.db.active ==>
              s'.ledger(key).lost == s.ledger(key).lost + if Misreads(s, p, step, key) then Base(s, key) else 0
    ensures !s.db.active && s'.db.active ==> s'.ledger(key).lost == 0
  {
    if step.Commit? && s.db.active && s.procs(p).job != Activation {
      CaptureLoses(s, p, step, s', key);
    } else if step.Commit? && s.procs(p).job == Activation {
      ActivationLosesNothing(s, p, step, s', key);
    }
  }

  lemma ActivationLosesNothing(s: Sys, p: nat, step: Step, s': Sys, key: string)
    requires GlobalInv(s) && KeyInv(s, key) && Next(s, p, step, s') && step.Commit? && s.procs(p).job == Activation
    ensures s.db.active ==> s'.db.active && s'.ledger(key) == s.ledger(key)
    ensures !s.db.active && s'.db.active ==> s'.ledger(key).lost == 0
  {
    var proc := s.procs(p);
    if !s.db.active && s'.db.active && Mentions(proc.counters, key) {
      var i :| 0 <= i < |proc.counters| && Key(proc.counters[i]) == key;
      assert InFlight(s, key, proc.counters[i].value, proc.life(key));
    }
  }

  lemma {:induction false} LostIffMisread(trace: seq<Sys>, actors: seq<nat>, steps: seq<Step>, n: nat, key: string)
    requires Run(trace, actors, steps) && n < |trace|
    ensures trace[n].db.active ==>
              (trace[n].ledger(key).lost == 0 <==> forall j :: 0 <= j < n ==>
                  !Misreads(trace[j], actors[j], steps[j], key))
    ensures !trace[n].db.active ==> forall j :: 0 <= j < n ==> !trace[j].db.active
  {
    if n > 0 {
      LostIffMisread(trace, actors, steps, n - 1, key);
      RunKeepsInv(trace, actors, steps, n - 1, key);
      StepLoses(trace[n - 1], actors[n - 1], steps[n - 1], trace[n], key);
    }
  }

  /** The queued total is the sum of the last committed reading of every life, minus the reading
      accounting began with, exactly when no accepted capture of the run commits a mistaken reading. */
  lemma BillsExactlyIff(trace: seq<Sys>, actors: seq<nat>, steps: seq<Step>, n: nat, key: string)
    requires Run(trace, actors, steps) && n < |trace| && trace[n].db.active
    ensures var s := trace[n]; var l := s.ledger(key);
            TotalBill(s.log, key) == Recorded(l.committed, |l.lives|) - l.offset <==>
            forall j :: 0 <= j < n ==> !Misreads(trace[j], actors[j], steps[j], key)
  {
    LostIffMisread(trace, actors, steps, n, key);
    BillingBalances(trace, actors, steps, n, key);
  }

  // ---------------------------------------------------------------- orderly runs

  ghost predicate CoreKey(key: string, stage: nat) {
    1 <= stage <= 3 && OfKind(key, KINDS[stage])
  }

  /** The counter only restarts through Start, every launch that leaves the core running is a
      successful Start, and every complete sample of a running core mentions the counter. */
  ghost predicate Orderly(s: Sys, p: nat, step: Step, s': Sys, key: string, stage: nat)
    requires CoreKey(key, stage)
  {
    match step
    case CounterRestart(keys) => key !in keys
    case QueryCore(reply) => reply.Ok? && s.procs(p).Sampling? && s.procs(p).stage == stage ==>
        Mentions(reply.value, key)
    case Finish(succeeded) => s.procs(p).Launched? && s'.running ==> succeeded && s.procs(p).job == Starting
    case _ => true
  }

  ghost predicate Tracking(s: Sys, key: string, stage: nat) {
    var l := s.ledger(key);
    && |l.lives| > 0
    && (s.db.active ==>
          && l.lost == 0
          && (s.running && !s.marker && !Holder(s).Launched? ==> l.at == |l.lives| - 1 || Base(s, key) == 0))
    && (match Holder(s)
        case Sampling(_, counters, _, life, next) =>
          stage < next ==> Mentions(counters, key) && life(key) == |l.lives| - 1
        case Sampled(_, counters, life, withCore, _, _) =>
          withCore ==> Mentions(counters, key) && life(key) == |l.lives| - 1
        case _ => true)
  }

  lemma CoreKeyIsNotForwarding(key: string, stage: nat)
    requires CoreKey(key, stage)
    ensures !Forwarding(key)
    ensures forall k :: 0 <= k < 4 && k != stage ==> !OfKind(key, KINDS[k])
  {
    KindsAreDistinct();
    forall k | 0 <= k < 4 && OfKind(key, KINDS[k])
      ensures k == stage
    {
      OneKind(key, KINDS[k], KINDS[stage]);
    }
    assert KINDS[0] == "forwarding";
  }

  lemma CommitTracks(s: Sys, p: nat, step: Step, s': Sys, key: string, stage: nat)
    requires GlobalInv(s) && KeyInv(s, key) && CoreKey(key, stage) && Tracking(s, key, stage)
    requires Next(s, p, step, s') && step.Commit?
    ensures Tracking(s', key, stage)
  {
    var proc := s.procs(p);
    CoreKeyIsNotForwarding(key, stage);
    if s' != Becomes(s, p, Leaving) {
      if Mentions(proc.counters, key) {
        var i :| 0 <= i < |proc.counters| && Key(proc.counters[i]) == key;
        KindInSample(proc.counters, if proc.withCore then 4 else 1, i);
        assert proc.withCore;
        if proc.job != Activation && s.db.active {
          SampleWidens(proc.counters, 4);
          CaptureEffect(s, p, step.core, step.at, s', i);
        }
      } else if proc.job != Activation && s.db.active {
        CommittedBills(s.db, s.log, s.marker, step.core, proc.counters, proc.complete, step.at, s.maxBytes, s.size,
            key);
      }
    }
  }

  lemma QueryTracks(s: Sys, p: nat, step: Step, s': Sys, key: string, stage: nat)
    requires GlobalInv(s) && KeyInv(s, key) && CoreKey(key, stage) && Tracking(s, key, stage)
    requires Next(s, p, step, s') && step.QueryCore? && Orderly(s, p, step, s', key, stage)
    ensures Tracking(s', key, stage)
  {
    var proc := s.procs(p);
    CoreKeyIsNotForwarding(key, stage);
    if step.reply.Ok? {
      var all := proc.counters + step.reply.value;
      if stage == proc.stage {
        var i :| 0 <= i < |step.reply.value| && Key(step.reply.value[i]) == key;
        assert all[|proc.counters| + i] == step.reply.value[i];
      } else if stage < proc.stage {
        var i :| 0 <= i < |proc.counters| && Key(proc.counters[i]) == key;
        assert all[i] == proc.counters[i];
      }
    }
  }

  lemma AckTracks(s: Sys, p: nat, step: Step, s': Sys, key: string, stage: nat)
    requires CoreKey(key, stage) && Tracking(s, key, stage) && Next(s, p, step, s') && step.Acknowledge?
    ensures Tracking(s', key, stage)
  {
    assert s'.db.active == s.db.active && s'.db.baseline == s.db.baseline;
  }

  lemma OtherTracks(s: Sys, p: nat, step: Step, s': Sys, key: string, stage: nat)
    requires GlobalInv(s) && KeyInv(s, key) && CoreKey(key, stage) && Tracking(s, key, stage)
    requires Next(s, p, step, s') && Orderly(s, p, step, s', key, stage)
    requires !step.Commit? && !step.QueryCore? && !step.Acknowledge?
    ensures Tracking(s', key, stage)
  {
    CoreKeyIsNotForwarding(key, stage);
  }

  lemma NextTracks(s: Sys, p: nat, step: Step, s': Sys, key: string, stage: nat)
    requires GlobalInv(s) && KeyInv(s, key) && CoreKey(key, stage) && Tracking(s, key, stage)
    requires Next(s, p, step, s') && Orderly(s, p, step, s', key, stage)
    ensures Tracking(s', key, stage)
  {
    match step
    case Commit(_, _, _) => CommitTracks(s, p, step, s', key, stage);
    case QueryCore(_) => QueryTracks(s, p, step, s', key, stage);
    case Acknowledge(_, _) => AckTracks(s, p, step, s', key, stage);
    case _ => OtherTracks(s, p, step, s', key, stage);
  }

  lemma {:induction false} RunTracks(trace: seq<Sys>, actors: seq<nat>, steps: seq<Step>, n: nat, key: string,
                                     stage: nat)
    requires Run(trace, actors, steps) && n < |trace| && CoreKey(key, stage)
    requires forall i :: 0 <= i < n ==> Orderly(trace[i], actors[i], steps[i], trace[i + 1], key, stage)
    ensures Tracking(trace[n], key, stage)
  {
    if n > 0 {
      RunTracks(trace, actors, steps, n - 1, key, stage);
      RunKeepsInv(trace, actors, steps, n - 1, key);
      NextTracks(trace[n - 1], actors[n - 1], steps[n - 1], trace[n], key, stage);
    }
  }

  /** In an orderly run nothing is lost: the queued total is the sum of the last committed reading
      of every life, minus the reading accounting began with, however many samples failed. */
  lemma OrderlyRunsBillExactly(trace: seq<Sys>, actors: seq<nat>, steps: seq<Step>, n: nat, key: string, stage: nat)
    requires Run(trace, actors, steps) && n < |trace| && CoreKey(key, stage) && trace[n].db.active
    requires forall i :: 0 <= i < n ==> Orderly(trace[i], actors[i], steps[i], trace[i + 1], key, stage)
    ensures var s := trace[n]; var l := s.ledger(key);
            TotalBill(s.log, key) == Recorded(l.committed, |l.lives|) - l.offset
  {
    RunTracks(trace, actors, steps, n, key, stage);
    RunKeepsInv(trace, actors, steps, n, key);
  }
}
