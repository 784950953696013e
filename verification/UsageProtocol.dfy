/** The capture half of internal/node/manager.go as a concurrent protocol: periodic captures,
    forwarding seals, activation, Start, user edits and Stop contend for coreMu; traffic, counter
    restarts and agent reboots happen at any moment between their steps. */
module UsageProtocol {
  import opened Common
  import opened UsageStore
  import opened UsageLedger

  // ---------------------------------------------------------------- the commit

  /** captureUsageSnapshot after sampling: the restart marker is consumed by a complete sample
      only, and put back when the store refuses the capture. */
  ghost function Committed(db: Db, marker: bool, core: string, counters: seq<Counter>, complete: bool, at: int,
                           maxBytes: int, size: Snapshot -> nat): (Db, bool, Result<(), Error>)
  {
    var (db', r) := Captured(db, core, counters, at, complete && marker, maxBytes, size);
    if r.Err? && r.error != NotActive then (db, marker, r)
    else (db', marker && !complete, Ok(()))
  }

  /** The volatile half of the manager: the restart marker and the runtime's idea of the core. */
  class Capturer {
    const store: Store
    var usageCoreRestarted: bool
    var coreRunning: bool

    constructor (store: Store)
      ensures this.store == store && !usageCoreRestarted && !coreRunning
    {
      this.store, usageCoreRestarted, coreRunning := store, false, false;
    }

    method CommitSample(core: string, counters: seq<Counter>, complete: bool, at: int) returns (r: Result<(), Error>)
      requires store.Valid()
      modifies this`usageCoreRestarted, store
      ensures store.Valid()
      ensures (store.db, usageCoreRestarted, r) ==
              Committed(old(store.db), old(usageCoreRestarted), core, counters, complete, at, store.maxBytes,
                  store.size)
      ensures r.Err? ==> store.db == old(store.db) && usageCoreRestarted == old(usageCoreRestarted)
    {
      var coreRestarted := false;
      if complete {
        coreRestarted := usageCoreRestarted;
        usageCoreRestarted := false;
      }
      var captured := store.Capture(core, counters, at, coreRestarted);
      if captured.Err? && captured.error != NotActive {
        if coreRestarted {
          usageCoreRestarted := true;
        }
        return captured;
      }
      return Ok(());
    }

    /** The two reads are passed in: forwarding counters (and whether forwarding is active), then
        the core's, each of which may fail. */
    method CaptureUsageSnapshot(forwarding: Result<(seq<Counter>, bool), Error>, core: Result<seq<Counter>, Error>,
                                at: int)
      returns (r: Result<(), Error>)
      requires store.Valid()
      modifies this`usageCoreRestarted, store
      ensures store.Valid()
      ensures r.Err? || !old(store.db.active) ==>
                store.db == old(store.db) && usageCoreRestarted == old(usageCoreRestarted)
      ensures old(store.db.active) && forwarding.Ok? ==>
                if coreRunning || forwarding.value.1 then
                  (store.db, usageCoreRestarted, r) ==
                  Committed(old(store.db), old(usageCoreRestarted), if coreRunning then "SING_BOX"
                      else "FORWARDING_ONLY",
                            forwarding.value.0 + if coreRunning && core.Ok? then core.value else [],
                            !coreRunning || core.Ok?, at, store.maxBytes, store.size)
                else
                  store.db == old(store.db) && usageCoreRestarted == old(usageCoreRestarted) && r.Ok?
    {
      if !store.db.active {
        return Ok(());
      }
      if forwarding.Err? {
        return Err(forwarding.error);
      }
      var counters, capturing, complete := forwarding.value.0, forwarding.value.1, true;
      if coreRunning {
        capturing := true;
        if core.Ok? {
          counters := counters + core.value;
        } else {
          complete := false;
        }
      }
      if !capturing {
        return Ok(());
      }
      assert counters == forwarding.value.0 + if coreRunning && core.Ok? then core.value else [];
      r := CommitSample(if coreRunning then "SING_BOX" else "FORWARDING_ONLY", counters, complete, at);
    }
  }

  // ---------------------------------------------------------------- what a capture bills

  /** Everything ever queued for a key. */
  function TotalBill(log: seq<Snapshot>, key: string): int {
    if log == [] then 0 else TotalBill(log[..|log| - 1], key) + Bill(log[|log| - 1].counters, key)
  }

  lemma BillGrows(log: seq<Snapshot>, snapshot: Snapshot, key: string)
    ensures TotalBill(log + [snapshot], key) == TotalBill(log, key) + Bill(snapshot.counters, key)
  {
    assert (log + [snapshot])[..|log|] == log;
  }

  /** An accepted capture extends the log by what it bills. */
  lemma CapturedExtendsLog(db: Db, log: seq<Snapshot>, core: string, counters: seq<Counter>, at: int, reset: bool,
                           maxBytes: int, size: Snapshot -> nat, key: string)
    requires Queue(db, log) && db.active
    requires Captured(db, core, counters, at, reset, maxBytes, size).1.Ok?
    ensures var db' := Captured(db, core, counters, at, reset, maxBytes, size).0;
            && db'.active && db'.baseline == Stored(db.baseline, counters)
            && TotalBill(LogAfter(db, log, db'), key) ==
                 TotalBill(log, key) + Bill(Deltas(db.baseline, counters, reset), key)
  {
    CapturedKeepsQueue(db, log, core, counters, at, reset, maxBytes, size);
    BillGrows(log, NextSnapshot(db, core, Deltas(db.baseline, counters, reset), at), key);
    assert log + [] == log;
  }

  lemma CommittedBills(db: Db, log: seq<Snapshot>, marker: bool, core: string, counters: seq<Counter>, complete: bool,
                       at: int,
                       maxBytes: int, size: Snapshot -> nat, key: string)
    requires Queue(db, log) && db.active && DistinctKeys(counters)
    requires Committed(db, marker, core, counters, complete, at, maxBytes, size).2.Ok?
    ensures var (db', marker', r) := Committed(db, marker, core, counters, complete, at, maxBytes, size);
            && db'.active && marker' == (marker && !complete)
            && (forall i :: 0 <= i < |counters| && Key(counters[i]) == key ==>
                  && Baseline(db'.baseline, key) == counters[i].value
                  && TotalBill(LogAfter(db, log, db'), key) ==
                       TotalBill(log, key) + Charge(db.baseline, counters[i], complete && marker))
            && ((forall i :: 0 <= i < |counters| ==> Key(counters[i]) != key) ==>
                  && Baseline(db'.baseline, key) == Baseline(db.baseline, key)
                  && TotalBill(LogAfter(db, log, db'), key) == TotalBill(log, key))
  {
    var reset := complete && marker;
    CapturedExtendsLog(db, log, core, counters, at, reset, maxBytes, size, key);
    StoredLookup(db.baseline, counters, key);
    if i :| 0 <= i < |counters| && Key(counters[i]) == key {
      DeltasPresent(db.baseline, counters, reset, i);
      assert forall j :: 0 <= j < |counters| && Key(counters[j]) == key ==> j == i;
    } else {
      DeltasAbsent(db.baseline, counters, reset, key);
    }
  }

  /** What two captures bill for a counter when their readings commit one after the other. */
  function BillOfTwo(baseline: map<string, Int64>, c: Counter, first: Int64, second: Int64): int {
    var a, b := c.(value := first), c.(value := second);
    Bill(Deltas(baseline, [a], false), Key(c)) + Bill(Deltas(Stored(baseline, [a]), [b], false), Key(c))
  }

  /** A single reading is billed its growth, or the whole of it when the counter seems to have fallen. */
  lemma BillOfOne(baseline: map<string, Int64>, c: Counter, key: string)
    requires Key(c) == key && 0 <= Baseline(baseline, key) && 0 <= c.value
    ensures Bill(Deltas(baseline, [c], false), key) == Charged(Baseline(baseline, key), c.value, false)
    ensures Baseline(Stored(baseline, [c]), key) == c.value
  {
    assert DistinctKeys([c]);
    DeltasPresent(baseline, [c], false, 0);
    StoredPresent(baseline, [c], 0);
  }

  /** Why captures are serialized: two readings that commit in the order they were taken bill the growth
      since the baseline, and in the other order they bill the whole older reading on top. */
  lemma UnserializedCapturesOverBill(baseline: map<string, Int64>, c: Counter, older: Int64, newer: Int64)
    requires 0 <= Baseline(baseline, Key(c)) <= older < newer
    ensures BillOfTwo(baseline, c, older, newer) == newer - Baseline(baseline, Key(c))
    ensures BillOfTwo(baseline, c, newer, older) == newer - Baseline(baseline, Key(c)) + older
  {
    BillInTurn(baseline, c, older, newer);
    BillInTurn(baseline, c, newer, older);
  }

  lemma BillInTurn(baseline: map<string, Int64>, c: Counter, first: Int64, second: Int64)
    requires 0 <= Baseline(baseline, Key(c)) && 0 <= first && 0 <= second
    ensures BillOfTwo(baseline, c, first, second) ==
              Charged(Baseline(baseline, Key(c)), first, false) + Charged(first, second, false)
  {
    var key := Key(c);
    KeyIgnoresValue(c, first);
    KeyIgnoresValue(c, second);
    BillOfOne(baseline, c.(value := first), key);
    BillOfOne(Stored(baseline, [c.(value := first)]), c.(value := second), key);
  }

  // ---------------------------------------------------------------- failed captures are invisible

  datatype Attempt = Attempt(core: string, counters: seq<Counter>, complete: bool, at: int)

  ghost function Serve(db: Db, marker: bool, attempts: seq<Attempt>, maxBytes: int, size: Snapshot -> nat): (Db, bool)
    decreases |attempts|
  {
    if attempts == [] then (db, marker)
    else
      var a := attempts[0];
      var (db', marker', r) := Committed(db, marker, a.core, a.counters, a.complete, a.at, maxBytes, size);
      Serve(db', marker', attempts[1..], maxBytes, size)
  }

  /** The attempts that the store did not refuse. */
  ghost function Accepted(db: Db, marker: bool, attempts: seq<Attempt>, maxBytes: int,
                          size: Snapshot -> nat): seq<Attempt>
    decreases |attempts|
  {
    if attempts == [] then []
    else
      var a := attempts[0];
      var (db', marker', r) := Committed(db, marker, a.core, a.counters, a.complete, a.at, maxBytes, size);
      (if r.Ok? then [a] else []) + Accepted(db', marker', attempts[1..], maxBytes, size)
  }

  /** A run with refused captures ends where the run without them ends. */
  lemma {:induction false} RefusedCapturesAreInvisible(db: Db, marker: bool, attempts: seq<Attempt>, maxBytes: int,
                                                       size: Snapshot -> nat)
    ensures Serve(db, marker, Accepted(db, marker, attempts, maxBytes, size), maxBytes, size)
         == Serve(db, marker, attempts, maxBytes, size)
    decreases |attempts|
  {
    if attempts != [] {
      var a := attempts[0];
      var (db', marker', r) := Committed(db, marker, a.core, a.counters, a.complete, a.at, maxBytes, size);
      var rest := Accepted(db', marker', attempts[1..], maxBytes, size);
      RefusedCapturesAreInvisible(db', marker', attempts[1..], maxBytes, size);
      assert ([a] + rest)[1..] == rest && [] + rest == rest;
    }
  }
}
