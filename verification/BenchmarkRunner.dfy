/** The benchmark runner itself: starting, progress, cancelling, finishing, and recovery after a crash. */
module BenchmarkRunner {
  import opened Common
  import opened Benchmark

  /** Whether the job's deadline passed before anything cancelled it. */
  datatype Ending = InTime | Deadline

  ghost predicate OneRunning(jobs: map<string, Job>, active: string) {
    && "" !in jobs
    && (active != "" ==> active in jobs)
    && (forall id :: id in jobs ==> jobs[id].id == id && (jobs[id].status == Running <==> id == active))
  }

  /** A record that was running when the agent died is interrupted; an unreadable one becomes a failed
      tombstone without a request. */
  function Recovered(id: string, d: OnDisk, now: int): Job {
    match d
    case Record(j) => if j.status == Running then j.(status := Interrupted, message := "Agent restarted during test",
        finishedAt := Some(now)) else j
    case _ => Job(id, Request("", ""), Failed, "finished", 100, d.modified, Some(now), [],
        "Previous benchmark record is damaged; test was not restarted")
  }

  ghost predicate WellNamed(disk: map<string, OnDisk>) {
    "" !in disk && forall id :: id in disk && disk[id].Record? ==> disk[id].job.id == id
  }

  /** The answer for an ID that is already known. */
  function Known(existing: Job, req: Request): Result<Job, Error> {
    if existing.request == req || (existing.request.id == "" && existing.status == Failed) then Ok(existing)
        else Err(DifferentRequest)
  }

  class Runner {
    var jobs: map<string, Job>
    var active: string
    var cancel: Option<bool>   // the active job's cancel function, and whether it has been called
    var disk: map<string, OnDisk>
    ghost var log: seq<Event>

    /** What survives a crash: whatever was executed and not evicted has an entry on disk. */
    ghost predicate Durable() reads this { WellNamed(disk) && Once(log) && Live(log) <= disk.Keys }

    ghost predicate Valid() reads this {
      Durable() && OneRunning(jobs, active) && Live(log) <= jobs.Keys && (cancel.Some? <==> active != "")
    }

    /** The active job has been cancelled. */
    function Cancelled(): bool reads this { cancel == Some(true) }

    constructor (disk: map<string, OnDisk>)
      requires WellNamed(disk)
      ensures Durable() && this.disk == disk && log == []
    {
      this.disk, jobs, active, cancel, log := disk, map[], "", None, [];
    }

    /** save, with how it goes */
    method SaveJob(j: Job, s: Save) returns (ok: bool)
      requires Durable() && j.id != ""
      modifies this`disk
      ensures Durable() && ok == (s == Saved)
      ensures disk == if s == FailedBefore then old(disk) else old(disk)[j.id := Record(j)]
    {
      if s != FailedBefore {
        disk := disk[j.id := Record(j)];
      }
      return s == Saved;
    }

    /** One entry of New's directory scan; a failed rename or save gives up. */
    method RecoverOne(id: string, renameFails: bool, s: Save, now: int) returns (ok: bool)
      requires Durable() && id in disk
      modifies this`disk, this`jobs
      ensures Durable() && disk.Keys == old(disk).Keys
      ensures forall other :: other in disk && other != id ==> disk[other] == old(disk)[other]
      ensures ok ==> jobs == old(jobs)[id := Recovered(id, old(disk)[id], now)]
      ensures !ok ==> jobs.Keys <= old(jobs).Keys + {id}
    {
      match disk[id]
      case Tombstone(_) =>
        jobs := jobs[id := Recovered(id, disk[id], now)];
        return true;
      case Damaged(modified) =>
        if renameFails {
          return false;
        }
        jobs := jobs[id := Recovered(id, disk[id], now)];
        disk := disk[id := Tombstone(modified)];
        return true;
      case Record(_) =>
        var j := Recovered(id, disk[id], now);
        jobs := jobs[id := j];
        ok := SaveJob(j, s);
    }

    /** New's scan of what a crash left behind. */
    method RecoverAll(renameFails: string -> bool, s: string -> Save, now: int) returns (ok: bool)
      requires Durable()
      modifies this`jobs, this`disk
      ensures Durable() && disk.Keys == old(disk).Keys
      ensures ok ==> jobs.Keys == old(disk).Keys && forall id :: id in jobs ==>
                jobs[id] == Recovered(id, old(disk)[id], now)
    {
      jobs := map[];
      var todo := disk.Keys;
      ghost var start := disk;
      while todo != {}
        invariant Durable() && todo <= disk.Keys == start.Keys && jobs.Keys == start.Keys - todo
        invariant forall id :: id in todo ==> disk[id] == start[id]
        invariant forall id :: id in jobs ==> jobs[id] == Recovered(id, start[id], now)
        decreases todo
      {
        var id :| id in todo;
        var recovered := RecoverOne(id, renameFails(id), s(id), now);
        if !recovered {
          return false;
        }
        todo := todo - {id};
      }
      return true;
    }

    /** New: nothing runs, and everything on disk is known again unless it is evicted right away. */
    method Recover(renameFails: string -> bool, s: string -> Save, stuck: set<string>, now: int)
      returns (ok: bool, ghost all: map<string, Job>)
      requires Durable()
      modifies this
      ensures Durable() && (ok ==> Valid() && active == "" && PrunedTo(all, jobs, "", now))
      ensures ok ==> all.Keys == old(disk).Keys && forall id :: id in all ==>
                all[id] == Recovered(id, old(disk)[id], now)
    {
      active, cancel := "", None;
      ok := RecoverAll(renameFails, s, now);
      all := jobs;
      if ok {
        RecoveredOneRunning(old(disk), jobs, now);
        Prune(stuck, now);
      }
    }

    /** prune; the `stuck` files cannot be removed. */
    method Prune(stuck: set<string>, now: int)
      requires Valid()
      modifies this`jobs, this`disk, this`log
      ensures Valid() && PrunedTo(old(jobs), jobs, active, now)
      ensures Live(log) == Live(old(log)) * jobs.Keys
    {
      var kept := PruneJobs(jobs, active, now);
      PrunedOneRunning(jobs, kept, active, now);
      var gone := jobs.Keys - kept.Keys;
      StillRetained(Live(log), jobs.Keys, kept.Keys, disk.Keys, stuck);
      log := EvictAll(log, gone);
      disk := RemoveFiles(disk, gone - stuck);
      jobs := kept;
    }

    /** A record on disk goes bad while nobody looks. */
    method Corrupt(id: string, modified: int)
      requires Durable() && id in disk
      modifies this`disk
      ensures Durable() && disk == old(disk)[id := Damaged(modified)]
    {
      disk := disk[id := Damaged(modified)];
    }

    /** Start: a known ID is never executed again, and a new one only while nothing runs and once it is on disk. */
    method Start(req: Request, acceptable: Request -> bool, s: Save, now: int)
      returns (r: Result<Job, Error>, executed: bool)
      requires Valid() && (acceptable(req) ==> req.id != "")
      modifies this
      ensures Valid()
      ensures executed ==>
                r.Ok? && old(active) == "" && req.id !in Live(old(log)) && log == old(log) + [Executed(req.id)]
      ensures executed ==>
                active == req.id && r.value == jobs[req.id] && jobs == old(jobs)[req.id := r.value]
                    && disk == old(disk)[req.id := Record(r.value)]
      ensures executed ==> r.value.status == Running && r.value.request == req && cancel == Some(false)
      ensures !executed ==> jobs == old(jobs) && active == old(active) && log == old(log) && cancel == old(cancel)
      ensures acceptable(req) && req.id in old(jobs) ==>
                !executed && disk == old(disk) && r == Known(old(jobs)[req.id], req)
      ensures acceptable(req) && req.id !in old(jobs) && old(active) != "" ==> r == Err(Busy) && disk == old(disk)
      ensures executed <==> acceptable(req) && req.id !in old(jobs) && old(active) == "" && s == Saved
      ensures acceptable(req) && req.id !in old(jobs) && old(active) == "" && s != Saved ==> r == Err(NotSaved)
      ensures !acceptable(req) ==> r == Err(Rejected) && disk == old(disk)
    {
      if !acceptable(req) {
        return Err(Rejected), false;
      }
      if req.id in jobs {
        var existing := jobs[req.id];
        if existing.request.id == "" && existing.status == Failed {
          return Ok(existing), false;
        }
        if existing.request != req {
          return Err(DifferentRequest), false;
        }
        return Ok(existing), false;
      }
      if active != "" {
        return Err(Busy), false;
      }
      var j := Job(req.id, req, Running, "starting", 0, now, None, [], "");
      var saved := SaveJob(j, s);
      if !saved {
        return Err(NotSaved), false;
      }
      Appended(log, Executed(req.id));
      jobs, active, cancel := jobs[j.id := j], j.id, Some(false);
      log := log + [Executed(req.id)];
      return Ok(j), true;
    }

    /** change: the running job is always found; a failed save cancels the test. */
    method Change(phase: Option<(string, int)>, result: Option<Verdict>, s: Save)
      requires Valid() && active != ""
      modifies this`jobs, this`disk, this`cancel
      ensures Valid() && Cancelled() == (old(Cancelled()) || s != Saved)
      ensures jobs.Keys == old(jobs).Keys && forall id :: id in jobs && id != active ==> jobs[id] == old(jobs)[id]
      ensures jobs[active].results == old(jobs)[active].results + (if result.Some? then [result.value] else [])
      ensures if phase.Some? then (jobs[active].phase, jobs[active].progress) == phase.value
              else jobs[active].phase == old(jobs)[active].phase && jobs[active].progress == old(jobs)[active].progress
      ensures jobs[active].request == old(jobs)[active].request && jobs[active].createdAt == old(jobs)[active].createdAt
      ensures s == Saved ==> disk == old(disk)[active := Record(jobs[active])]
    {
      var j := jobs[active];
      if phase.Some? {
        j := j.(phase := phase.value.0, progress := phase.value.1);
      }
      if result.Some? {
        j := j.(results := j.results + [result.value]);
      }
      var saved := SaveJob(j, s);
      if !saved {
        j := j.(message := "Could not persist progress");
        if cancel.Some? {
          cancel := Some(true);
        }
      }
      jobs := jobs[active := j];
    }

    /** Cancel calls the cancel function without looking whether there is one; None is the panic that follows
        when there is none. The call is safe exactly when the ID is not empty or a job is active. */
    method Cancel(id: string) returns (r: Option<bool>)
      requires Valid()
      modifies this`cancel
      ensures Valid() && (r.Some? <==> id != "" || active != "")
      ensures r.Some? ==> r.value == (active == id) && Cancelled() == (r.value || old(Cancelled()))
      ensures r.None? ==> cancel == old(cancel)
    {
      if active != id {
        return Some(false);
      }
      if cancel.None? {
        return None;
      }
      cancel := Some(true);
      return Some(true);
    }

    /** Close, which does look. */
    method Close()
      requires Valid()
      modifies this`cancel
      ensures Valid() && Cancelled() == (active != "")
    {
      if cancel.Some? {
        cancel := Some(true);
      }
    }

    /** The block that ends a job's goroutine. */
    method Finish(ending: Ending, s: Save, stuck: set<string>, now: int)
      returns (ghost all: map<string, Job>, ghost done: Job)
      requires Valid() && active != ""
      modifies this
      ensures Valid() && active == "" && PrunedTo(all, jobs, "", now) && all == old(jobs)[old(active) := done]
      ensures done.results == old(jobs)[old(active)].results && done.request == old(jobs)[old(active)].request
      ensures s != Saved || ending == Deadline ==> done.status == Failed
      ensures s == Saved && !old(Cancelled()) && ending == InTime ==>
                (done.status == Failed <==> done.results != [] && forall i :: 0 <= i < |done.results| ==>
                    done.results[i] == Broken)
      ensures done.status == Status.Cancelled <==> s == Saved && old(Cancelled()) && ending == InTime
      ensures done.status == Completed <==> s == Saved && !old(Cancelled()) && ending == InTime && done.results != []
                                            && forall i :: 0 <= i < |done.results| ==> done.results[i] == Passed
    {
      var j := Concluded(jobs[active], Cancelled(), ending, now);
      var saved := SaveJob(j, s);
      if !saved {
        j := j.(status := Failed, message := "Could not persist result");
      }
      FinishedOneRunning(jobs, active, j);
      jobs := jobs[active := j];
      active, cancel := "", None;
      all, done := jobs, j;
      Prune(stuck, now);
    }
  }

  lemma FinishedOneRunning(jobs: map<string, Job>, active: string, j: Job)
    requires OneRunning(jobs, active) && active != "" && j.id == active && j.status != Running
    ensures OneRunning(jobs[active := j], "")
  {
  }

  /** Evictions recorded one by one. */
  lemma {:induction false} EvictAll(log: seq<Event>, gone: set<string>) returns (log': seq<Event>)
    requires Once(log)
    ensures Once(log') && Live(log') == Live(log) - gone
    decreases |gone|
  {
    log' := log;
    if gone != {} {
      var id :| id in gone;
      var rest := EvictAll(log, gone - {id});
      Appended(rest, Evicted(id));
      log' := rest + [Evicted(id)];
    }
  }

  function RemoveFiles(disk: map<string, OnDisk>, gone: set<string>): (disk': map<string, OnDisk>)
    ensures disk'.Keys == disk.Keys - gone && forall id :: id in disk' ==> disk'[id] == disk[id]
  {
    disk - gone
  }

  lemma StillRetained(live: set<string>, jobs: set<string>, kept: set<string>, disk: set<string>, stuck: set<string>)
    requires live <= jobs && live <= disk && kept <= jobs
    ensures live - (jobs - kept) == live * kept
    ensures live * kept <= disk - ((jobs - kept) - stuck)
  {
  }

  lemma PrunedOneRunning(jobs: map<string, Job>, kept: map<string, Job>, active: string, now: int)
    requires OneRunning(jobs, active) && PrunedTo(jobs, kept, active, now)
    ensures OneRunning(kept, active)
  {
  }

  lemma RecoveredIsIdle(start: map<string, OnDisk>, id: string, now: int)
    requires WellNamed(start) && id in start
    ensures Recovered(id, start[id], now).id == id && Recovered(id, start[id], now).status != Running
  {
  }

  lemma RecoveredOneRunning(start: map<string, OnDisk>, all: map<string, Job>, now: int)
    requires WellNamed(start) && all.Keys == start.Keys
    requires forall id :: id in all ==> all[id] == Recovered(id, start[id], now)
    ensures OneRunning(all, "")
  {
    forall id | id in all ensures all[id].id == id && all[id].status != Running {
      RecoveredIsIdle(start, id, now);
    }
  }

  /** The verdict of the finishing block, before it is saved. */
  method Concluded(j: Job, cancelled: bool, ending: Ending, now: int) returns (j': Job)
    ensures j'.id == j.id && j'.request == j.request && j'.createdAt == j.createdAt && j'.results == j.results
    ensures j'.status in {Completed, Failed, Partial, Status.Cancelled} && j'.finishedAt == Some(now)
    ensures j'.status == Status.Cancelled <==> cancelled && ending == InTime
    ensures ending == Deadline ==> j'.status == Failed
    ensures !cancelled && ending == InTime ==>
              (j'.status == Failed <==> j.results != [] && forall i :: 0 <= i < |j.results| ==> j.results[i] == Broken)
    ensures j'.status == Completed <==>
        !cancelled && ending == InTime && j.results != [] && forall i :: 0 <= i < |j.results| ==> j.results[i] == Passed
  {
    j' := j.(finishedAt := Some(now));
    if cancelled && ending == InTime {
      j' := j'.(status := Status.Cancelled);
    } else if ending == Deadline {
      j' := j'.(status := Failed, message := "Task exceeded deadline");
    } else {
      var status, nothing := Judge(j.results);
      j' := j'.(status := status);
      if nothing {
        j' := j'.(message := "No test items could be executed");
      }
    }
    j' := j'.(progress := 100, phase := "finished");
  }
}
