/** internal/benchmark/runner.go: one test job at a time, with crash recovery and eviction. */
module Benchmark {
  import opened Common

  datatype Request = Request(id: string, body: string)

  datatype Status = Running | Completed | Partial | Failed | Cancelled | Interrupted

  datatype Verdict = Passed | Skipped | Broken

  datatype Job = Job(
    id: string, request: Request, status: Status, phase: string, progress: int, createdAt: int, finishedAt: Option<int>,
    results: seq<Verdict>, message: string)

  /** What lies on disk under one job's name: a record, a record that cannot be read, or the tombstone of one. */
  datatype OnDisk = Record(job: Job) | Damaged(modified: int) | Tombstone(modified: int)

  /** Saving a record can fail before the rename, or after it. */
  datatype Save = Saved | FailedBefore | FailedAfter

  datatype Error = Rejected | DifferentRequest | Busy | NotSaved

  const MAX_JOBS := 100
  const MAX_AGE: int := 90 * 24 * 3600 * 1_000_000_000

  // ---------------------------------------------------------------- history

  datatype Event = Executed(id: string) | Evicted(id: string)

  /** The jobs executed and not evicted since. */
  ghost function Live(log: seq<Event>): set<string> {
    if log == [] then {}
    else
      var before := Live(log[..|log| - 1]);
      match log[|log| - 1]
      case Executed(id) => before + {id}
      case Evicted(id) => before - {id}
  }

  /** Nothing is executed while an earlier execution's record is retained. */
  ghost predicate Once(log: seq<Event>) {
    log == [] || (Once(log[..|log| - 1]) && (log[|log| - 1].Executed? ==> log[|log| - 1].id !in Live(log[..|log| - 1])))
  }

  lemma Appended(log: seq<Event>, e: Event)
    ensures Live(log + [e]) == if e.Executed? then Live(log) + {e.id} else Live(log) - {e.id}
    ensures Once(log + [e]) <==> Once(log) && (e.Executed? ==> e.id !in Live(log))
  {
    assert (log + [e])[..|log|] == log;
  }

  lemma {:induction false} StillLive(log: seq<Event>, i: nat)
    requires i < |log| && log[i].Executed?
    requires forall k :: i < k < |log| ==> log[k] != Evicted(log[i].id)
    ensures log[i].id in Live(log)
  {
    if i < |log| - 1 {
      StillLive(log[..|log| - 1], i);
    }
  }

  /** Between two executions of one job its record was evicted. */
  lemma {:induction false} ExecutedOncePerRecord(log: seq<Event>, i: nat, j: nat)
    requires Once(log) && i < j < |log| && log[i].Executed? && log[j] == log[i]
    ensures exists k :: i < k < j && log[k] == Evicted(log[i].id)
  {
    if j < |log| - 1 {
      ExecutedOncePerRecord(log[..|log| - 1], i, j);
      var k :| i < k < j && log[..|log| - 1][k] == Evicted(log[i].id);
      assert log[k] == Evicted(log[i].id);
    } else if forall k :: i < k < j ==> log[k] != Evicted(log[i].id) {
      var front := log[..|log| - 1];
      StillLive(front, i);
    }
  }

  // ---------------------------------------------------------------- results

  function Tally(results: seq<Verdict>, v: Verdict): nat {
    if results == [] then 0 else Tally(results[..|results| - 1], v) + if results[|results| - 1] == v then 1 else 0
  }

  lemma {:induction false} TallyBounds(results: seq<Verdict>, v: Verdict)
    ensures Tally(results, v) <= |results|
    ensures Tally(results, v) == |results| <==> forall i :: 0 <= i < |results| ==> results[i] == v
    ensures Tally(results, v) == 0 <==> v !in results
  {
    if results != [] {
      var front := results[..|results| - 1];
      TallyBounds(front, v);
      assert results == front + [results[|results| - 1]];
    }
  }

  /** The final status of a test that was neither cancelled nor out of time: complete exactly when
      something ran and everything passed, failed exactly when something ran and all of it failed. */
  method Judge(results: seq<Verdict>) returns (status: Status, nothing: bool)
    ensures status == Completed <==> results != [] && forall i :: 0 <= i < |results| ==> results[i] == Passed
    ensures status == Failed <==> results != [] && forall i :: 0 <= i < |results| ==> results[i] == Broken
    ensures status in {Completed, Failed, Partial}
    ensures nothing <==> forall i :: 0 <= i < |results| ==> results[i] == Skipped
  {
    var failed, skipped := 0, 0;
    for i := 0 to |results|
      invariant failed == Tally(results[..i], Broken) && skipped == Tally(results[..i], Skipped)
      invariant failed + skipped <= i
      invariant failed + skipped == 0 <==> forall k :: 0 <= k < i ==> results[k] == Passed
    {
      assert results[..i + 1][..i] == results[..i];
      if results[i] == Broken {
        failed := failed + 1;
      }
      if results[i] == Skipped {
        skipped := skipped + 1;
      }
    }
    assert results[..|results|] == results;
    TallyBounds(results, Broken);
    TallyBounds(results, Skipped);
    status, nothing := Completed, false;
    if failed + skipped > 0 {
      status := Partial;
    }
    if failed > 0 && failed == |results| {
      status := Failed;
    }
    if |results| == 0 || skipped == |results| {
      status, nothing := Partial, true;
    }
  }

  // ---------------------------------------------------------------- eviction

  predicate Aged(j: Job, now: int) { now - j.createdAt > MAX_AGE }

  /** Every evicted job is inactive and at most as recent as each surviving inactive one. */
  ghost predicate OldestGone(jobs: map<string, Job>, kept: map<string, Job>, active: string) {
    && kept.Keys <= jobs.Keys && (forall id :: id in kept ==> kept[id] == jobs[id])
    && (active in jobs ==> active in kept)
    && (forall id, s :: id in jobs && id !in kept && s in kept && s != active ==>
         jobs[id].createdAt <= kept[s].createdAt)
  }

  /** The scan for the oldest inactive job, in any order. */
  method Oldest(jobs: map<string, Job>, active: string) returns (oldest: Option<string>)
    ensures oldest.None? <==> forall id :: id in jobs ==> id == active
    ensures oldest.Some? ==> oldest.value in jobs && oldest.value != active
    ensures oldest.Some? ==> forall s :: s in jobs && s != active ==> jobs[oldest.value].createdAt <= jobs[s].createdAt
  {
    oldest := None;
    var todo := jobs.Keys;
    while todo != {}
      invariant todo <= jobs.Keys
      invariant oldest.None? ==> forall id :: id in jobs && id !in todo ==> id == active
      invariant oldest.Some? ==> oldest.value in jobs && oldest.value != active
      invariant oldest.Some? ==> forall s :: s in jobs && s !in todo && s != active ==>
                  jobs[oldest.value].createdAt <= jobs[s].createdAt
      decreases todo
    {
      var id :| id in todo;
      todo := todo - {id};
      if id != active && (oldest.None? || jobs[id].createdAt < jobs[oldest.value].createdAt) {
        oldest := Some(id);
      }
    }
  }

  /** The size limit: at most MAX_JOBS stay, and no more go than must. */
  method EvictOldest(jobs: map<string, Job>, active: string) returns (kept: map<string, Job>)
    ensures OldestGone(jobs, kept, active)
    ensures |kept| == if |jobs| > MAX_JOBS then MAX_JOBS else |jobs|
  {
    kept := jobs;
    while |kept| > MAX_JOBS
      invariant OldestGone(jobs, kept, active)
      invariant |jobs| <= MAX_JOBS ==> kept == jobs
      invariant |jobs| > MAX_JOBS ==> |kept| >= MAX_JOBS
      decreases |kept|
    {
      var oldest := Oldest(kept, active);
      if oldest.None? {
        SomeoneIsInactive(kept, active);
        assert false;
      }
      CountRemoved(kept, oldest.value);
      kept := kept - {oldest.value};
    }
  }

  lemma SomeoneIsInactive(kept: map<string, Job>, active: string)
    requires |kept| > 1
    ensures exists id :: id in kept && id != active
  {
    if forall id :: id in kept ==> id == active {
      assert kept.Keys <= {active};
      assert |kept.Keys| == |kept|;
      SubsetCount(kept.Keys, {active});
    }
  }

  lemma {:induction false} SubsetCount(a: set<string>, b: set<string>)
    requires a <= b
    ensures |a| <= |b|
  {
    if a != {} {
      var x :| x in a;
      SubsetCount(a - {x}, b - {x});
    }
  }

  lemma CountRemoved(bucket: map<string, Job>, k: string)
    requires k in bucket
    ensures |bucket - {k}| == |bucket| - 1
  {
    assert (bucket - {k}).Keys == bucket.Keys - {k};
    assert |bucket.Keys| == |bucket| && |(bucket - {k}).Keys| == |bucket - {k}|;
  }

  /** The age limit. */
  method EvictAged(jobs: map<string, Job>, active: string, now: int) returns (kept: map<string, Job>)
    ensures kept.Keys <= jobs.Keys && forall id :: id in kept ==> kept[id] == jobs[id]
    ensures forall id :: id in jobs ==> (id in kept <==> id == active || !Aged(jobs[id], now))
  {
    kept := jobs;
    var todo := jobs.Keys;
    while todo != {}
      invariant todo <= kept.Keys <= jobs.Keys && forall id :: id in kept ==> kept[id] == jobs[id]
      invariant forall id :: id in jobs && id !in todo ==> (id in kept <==> id == active || !Aged(jobs[id], now))
      decreases todo
    {
      var id :| id in todo;
      todo := todo - {id};
      if id != active && Aged(jobs[id], now) {
        kept := kept - {id};
      }
    }
  }

  /** prune: both limits. */
  ghost predicate PrunedTo(jobs: map<string, Job>, kept: map<string, Job>, active: string, now: int) {
    && OldestGone(jobs, kept, active) && |kept| <= MAX_JOBS
    && (forall id :: id in kept ==> id == active || !Aged(kept[id], now))
    && (|jobs| <= MAX_JOBS ==> forall id :: id in jobs && id !in kept ==> Aged(jobs[id], now))
  }

  method PruneJobs(jobs: map<string, Job>, active: string, now: int) returns (kept: map<string, Job>)
    ensures PrunedTo(jobs, kept, active, now)
  {
    var few := EvictOldest(jobs, active);
    kept := EvictAged(few, active, now);
    CountWithin(few, kept);
    if |jobs| <= MAX_JOBS {
      NoneGone(jobs, few);
    }
  }

  lemma NoneGone(jobs: map<string, Job>, few: map<string, Job>)
    requires few.Keys <= jobs.Keys && |few| == |jobs|
    ensures few.Keys == jobs.Keys
  {
    assert |few.Keys| == |few| && |jobs.Keys| == |jobs|;
    if id :| id in jobs && id !in few {
      SubsetCount(few.Keys, jobs.Keys - {id});
    }
  }
}
