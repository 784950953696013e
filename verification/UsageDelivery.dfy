/** From the counter to the panel: what the panel has pulled and acknowledged over a run, against what was
    queued and what the counters carried. */
module UsageDelivery {
  import opened Common
  import opened UsageStore
  import opened UsageLedger
  import opened UsageProtocol
  import opened UsageRuns

  // ---------------------------------------------------------------- bills are never negative

  ghost predicate Positive(deltas: seq<Counter>) { forall i :: 0 <= i < |deltas| ==> deltas[i].value > 0 }

  ghost predicate AllPositive(log: seq<Snapshot>) { forall i :: 0 <= i < |log| ==> Positive(log[i].counters) }

  lemma {:induction false} DeltasArePositive(baseline: map<string, Int64>, counters: seq<Counter>, reset: bool)
    ensures Positive(Deltas(baseline, counters, reset))
  {
    if counters != [] {
      DeltasArePositive(baseline, counters[..|counters| - 1], reset);
    }
  }

  lemma {:induction false} BillOfPositive(deltas: seq<Counter>, key: string)
    requires Positive(deltas)
    ensures Bill(deltas, key) >= 0
  {
    if deltas != [] {
      BillOfPositive(deltas[..|deltas| - 1], key);
    }
  }

  /** A prefix of the log bills at most what the log bills. */
  lemma {:induction false} PrefixBillsLess(log: seq<Snapshot>, n: nat, key: string)
    requires n <= |log| && AllPositive(log)
    ensures 0 <= TotalBill(log[..n], key) <= TotalBill(log, key)
  {
    if n < |log| {
      PrefixBillsLess(log[..|log| - 1], n, key);
      BillOfPositive(log[|log| - 1].counters, key);
      assert log[..|log| - 1][..n] == log[..n];
    } else {
      assert log[..n] == log;
      if log != [] {
        PrefixBillsLess(log[..|log| - 1], |log| - 1, key);
        BillOfPositive(log[|log| - 1].counters, key);
        assert log[..|log| - 1][..|log| - 1] == log[..|log| - 1];
      }
    }
  }

  // ---------------------------------------------------------------- how the log moves

  /** A step of an active store only adds to its log, and moves the acknowledged sequence forward. */
  ghost predicate Forward(s: Sys, s': Sys) {
    && s'.db.active && |s.log| <= |s'.log| && s'.log[..|s.log|] == s.log
    && s.db.acked <= s'.db.acked <= |s'.log|
  }

  lemma CapturedForward(db: Db, log: seq<Snapshot>, core: string, counters: seq<Counter>, at: int, reset: bool,
                        maxBytes: int, size: Snapshot -> nat)
    requires Queue(db, log) && db.active
    ensures var db' := Captured(db, core, counters, at, reset, maxBytes, size).0; var log' := LogAfter(db, log, db');
            && db'.active && db'.acked == db.acked && Queue(db', log')
            && |log| <= |log'| && log'[..|log|] == log && (AllPositive(log) ==> AllPositive(log'))
  {
    CapturedKeepsQueue(db, log, core, counters, at, reset, maxBytes, size);
    DeltasArePositive(db.baseline, counters, reset);
  }

  lemma CommitMovesForward(s: Sys, p: nat, step: Step, s': Sys)
    requires GlobalInv(s) && Next(s, p, step, s') && s.db.active && step.Commit?
    ensures Forward(s, s') && s'.db.acked == s.db.acked && (AllPositive(s.log) ==> AllPositive(s'.log))
  {
    var reset, captured := CommitIsCapture(s, p, step, s');
    if captured {
      CapturedForward(s.db, s.log, step.core, s.procs(p).counters, step.at, reset, s.maxBytes, s.size);
    }
  }

  lemma StepMovesForward(s: Sys, p: nat, step: Step, s': Sys)
    requires GlobalInv(s) && GlobalInv(s') && Next(s, p, step, s') && s.db.active
    ensures Forward(s, s') && (!step.Acknowledge? ==> s'.db.acked == s.db.acked)
    ensures AllPositive(s.log) ==> AllPositive(s'.log)
  {
    match step
    case Commit(_, _, _) => CommitMovesForward(s, p, step, s');
    case Acknowledge(generation, through) => AckedKeepsQueue(s.db, s.log, generation, through);
    case _ =>
  }

  lemma StepOpens(s: Sys, p: nat, step: Step, s': Sys)
    requires GlobalInv(s) && GlobalInv(s') && Next(s, p, step, s') && !s.db.active && s'.db.active
    ensures s'.log == [] && s'.db.acked == 0 && !step.Acknowledge?
  {
  }

  // ---------------------------------------------------------------- the panel

  /** The stretch of the log between two acknowledgements: what the panel pulled in between. */
  function Stretch(log: seq<Snapshot>, from: nat, to: nat): seq<Snapshot> {
    if from <= to <= |log| then log[from..to] else []
  }

  /** What the panel has pulled and acknowledged during the first `n` steps. */
  ghost function Received(trace: seq<Sys>, steps: seq<Step>, n: nat): seq<Snapshot>
    requires n <= |steps| && |trace| == |steps| + 1
  {
    if n == 0 then []
    else
      Received(trace, steps, n - 1) +
      if steps[n - 1].Acknowledge? then Stretch(trace[n].log, trace[n - 1].db.acked, trace[n].db.acked) else []
  }

  /** Exactly the snapshots up to the acknowledged one. */
  ghost predicate Holding(s: Sys, received: seq<Snapshot>) {
    if s.db.active then s.db.acked <= |s.log| && AllPositive(s.log) && received == s.log[..s.db.acked]
    else received == []
  }

  /** What a step does to the queue, as far as the panel can see. */
  ghost predicate Moves(s: Sys, step: Step, s': Sys) {
    if s.db.active then
      Forward(s, s') && (step.Acknowledge? || s'.db.acked == s.db.acked) && (AllPositive(s.log) ==> AllPositive(s'.log))
    else if s'.db.active then !step.Acknowledge? && s'.log == [] && s'.db.acked == 0
    else s'.db.acked == 0 && s.db.acked == 0 && s'.log == []
  }

  ghost predicate AllMove(trace: seq<Sys>, steps: seq<Step>) {
    && |trace| == |steps| + 1 && !trace[0].db.active
    && forall i :: 0 <= i < |steps| ==> Moves(trace[i], steps[i], trace[i + 1])
  }

  lemma StepMoves(s: Sys, p: nat, step: Step, s': Sys)
    requires GlobalInv(s) && GlobalInv(s') && Next(s, p, step, s')
    ensures Moves(s, step, s')
  {
    if s.db.active {
      StepMovesForward(s, p, step, s');
    } else if s'.db.active {
      StepOpens(s, p, step, s');
    }
  }

  lemma RunMoves(trace: seq<Sys>, actors: seq<nat>, steps: seq<Step>)
    requires Run(trace, actors, steps)
    ensures AllMove(trace, steps)
  {
    forall i | 0 <= i < |steps| ensures Moves(trace[i], steps[i], trace[i + 1]) {
      StepAt(trace, actors, steps, i);
      StepMoves(trace[i], actors[i], steps[i], trace[i + 1]);
    }
  }

  lemma StepAt(trace: seq<Sys>, actors: seq<nat>, steps: seq<Step>, i: nat)
    requires Run(trace, actors, steps) && i < |steps|
    ensures GlobalInv(trace[i]) && GlobalInv(trace[i + 1]) && Next(trace[i], actors[i], steps[i], trace[i + 1])
  {
    RunKeepsInv(trace, actors, steps, i, "");
    RunKeepsInv(trace, actors, steps, i + 1, "");
  }

  lemma PanelStep(s: Sys, step: Step, s': Sys, received: seq<Snapshot>)
    requires Moves(s, step, s') && Holding(s, received)
    ensures Holding(s', received + if step.Acknowledge? then Stretch(s'.log, s.db.acked, s'.db.acked) else [])
  {
    if s.db.active {
      assert s.log[..s.db.acked] == s'.log[..s.db.acked];
      if step.Acknowledge? {
        assert s'.log[..s.db.acked] + s'.log[s.db.acked..s'.db.acked] == s'.log[..s'.db.acked];
      }
    }
  }

  /** The panel holds every snapshot up to the acknowledged one, each once and in capture order. */
  lemma PanelHoldsPrefix(trace: seq<Sys>, actors: seq<nat>, steps: seq<Step>, n: nat)
    requires Run(trace, actors, steps) && n < |trace|
    ensures Holding(trace[n], Received(trace, steps, n))
  {
    RunMoves(trace, actors, steps);
    MovesHoldPrefix(trace, steps, n);
  }

  lemma {:induction false} MovesHoldPrefix(trace: seq<Sys>, steps: seq<Step>, n: nat)
    requires AllMove(trace, steps) && n < |trace|
    ensures Holding(trace[n], Received(trace, steps, n))
  {
    if n > 0 {
      MovesHoldPrefix(trace, steps, n - 1);
      PanelStep(trace[n - 1], steps[n - 1], trace[n], Received(trace, steps, n - 1));
    }
  }

  /** End to end, over every run: what the panel holds for a counter is never more than the counter carried
      since accounting began, and once everything queued is acknowledged it is everything ever billed. */
  lemma PanelNeverOverBills(trace: seq<Sys>, actors: seq<nat>, steps: seq<Step>, n: nat, key: string)
    requires Run(trace, actors, steps) && n < |trace| && trace[n].db.active
    ensures var s := trace[n]; var l := s.ledger(key); var held := TotalBill(Received(trace, steps, n), key);
            && 0 <= held <= TotalBill(s.log, key) <= Carried(l.lives, l.origin) - l.offset
            && (s.db.snapshots == map[] ==> held == TotalBill(s.log, key))
  {
    PanelHoldsPrefix(trace, actors, steps, n);
    RunKeepsInv(trace, actors, steps, n, key);
    NeverOverBills(trace, actors, steps, n, key);
    var s := trace[n];
    PrefixBillsLess(s.log, s.db.acked, key);
    if s.db.snapshots == map[] {
      DrainedIsAcknowledged(s.db, s.log);
      assert s.log[..s.db.acked] == s.log;
    }
  }

  lemma DrainedIsAcknowledged(db: Db, log: seq<Snapshot>)
    requires Queue(db, log) && db.active && db.snapshots == map[]
    ensures db.acked == |log|
  {
    assert |log| !in db.snapshots;
  }
}
