/** Activating a core configuration in internal/node/manager.go: a transaction over the configuration
    file, its last-good copy, the supervised process and the runtime state. Any step may fail. */
module Activation {
  import opened Common
  import opened CoreConfig
  import opened ApiConfig
  import opened UserEdits

  /** JSON text of a configuration. */
  datatype Codec = Codec(encode: Object -> string, decode: string -> Option<Object>)

  ghost predicate Lossless(codec: Codec) { forall c :: codec.decode(codec.encode(c)) == Some(c) }

  /** An atomic file write can fail before the rename, or after it when the directory is not synced. */
  datatype Write = Done | FailedBefore | FailedAfter

  function Written(old_: Option<string>, bytes: string,
                   w: Write): Option<string> { if w == FailedBefore then old_ else Some(bytes) }

  /** restoreOptionalFile: write the bytes back, or remove the file. */
  function Restored(old_: Option<string>, previous: Option<string>,
                    w: Write): Option<string> { if w == FailedBefore then old_ else previous }

  /** What the supervisor runs, and the file it was started with. */
  datatype Process = Stopped | Running(bytes: Option<string>)

  datatype Status = Pending | Failed | Rejected | RolledBack | Applied | Unchanged

  datatype Rollback = NotRequired | Succeeded | RollbackFailed | NotAvailable

  /** The reported result; `active` is the configuration whose hash is reported as active. */
  datatype Report = NoReport | Report(status: Status, active: Option<string>, rollback: Rollback)

  /** Which steps fail, in the order they are taken. */
  datatype Faults = Faults(
    mkdir: bool, candidate: bool, readConfig: bool, check: bool, saveLastGood: Write, chmod: bool, rename: bool,
        sync: bool, unsync: Write,
    stop: bool, start: bool, health: bool, commit: Write,
    stopAgain: bool, restore: Write, readLastGood: bool, copyLastGood: Write, saveAgain: Write, startAgain: bool)

  /** Everything an activation can change; `confirmed` are the bytes that ever passed a health check. */
  datatype Node = Node(
    file: Option<string>, lastGood: Option<string>, process: Process, config: Object, running: CoreType, report: Report,
        confirmed: set<string>)

  datatype Outcome = Committed | Refused | Unsynced | Reverted | Dead

  /** The core runs and its configuration file is there. */
  predicate Backed(n: Node) { n.running == SingBox && n.file.Some? }

  /** The runtime configuration a rollback goes back to: decoding the file into the runtime configuration merges. */
  function Previous(n: Node, codec: Codec): Object {
    if Backed(n) && codec.decode(n.file.value).Some? then n.config + codec.decode(n.file.value).value else n.config
  }

  ghost predicate LastGoodKept(n: Node, n': Node) { n'.lastGood == n.lastGood || (Backed(n) && n'.lastGood == n.file) }

  /** The steps before the new file is in place. */
  predicate FailsEarly(n: Node, f: Faults, codec: Codec) {
    f.mkdir || f.candidate || f.readConfig || f.check || f.chmod || f.rename
    || (Backed(n) && (codec.decode(n.file.value).None? || f.saveLastGood != Done))
  }

  /** The candidate of a backed core is rejected, which puts the runtime configuration back to the file's. */
  predicate RejectedBack(n: Node, f: Faults, codec: Codec) {
    !f.mkdir && !f.candidate && !f.readConfig && Backed(n) && codec.decode(n.file.value).Some? && f.check
  }

  /** The new process comes up and answers the health check. */
  predicate Comes(n: Node, f: Faults) { (!f.stop || n.process == Stopped) && !f.start && !f.health }

  /** Both files can be put back; `copy` says whether there is a last-good copy. */
  predicate Restores(running: CoreType, previousFile: Option<string>, copy: bool, f: Faults) {
    if previousFile.Some? then f.restore == Done && (running == SingBox ==> f.saveAgain == Done)
    else !f.readLastGood && (if running == SingBox && copy then f.copyLastGood == Done else f.restore == Done)
  }

  /** The last-good copy a rollback finds when the configuration file was missing: the failed
      activation's own, if writing that failed only after the rename. */
  function CopyFound(n: Node, f: Faults, new_: string): Option<string> {
    if Comes(n, f) && f.commit == FailedAfter then Some(new_) else n.lastGood
  }

  /** The old core can be started again: nothing is running by then. */
  predicate StartsAgain(n: Node, f: Faults) {
    !f.startAgain && (!f.stopAgain || ((n.process == Stopped || !f.stop) && f.start))
  }

  predicate RollsBack(n: Node, f: Faults) {
    && Restores(n.running, n.file, n.lastGood.Some? || (Comes(n, f) && f.commit == FailedAfter), f)
    && (n.running == SingBox ==> StartsAgain(n, f))
  }

  /** The outcome, from the state before and the steps that fail. */
  function OutcomeOf(n: Node, f: Faults, codec: Codec): Outcome {
    if FailsEarly(n, f, codec) then Refused
    else if f.sync then Unsynced
    else if Comes(n, f) && f.commit == Done then Committed
    else if RollsBack(n, f) then Reverted
    else Dead
  }

  /** Failing early leaves file, process and core as they are; a rejected candidate also refreshes the runtime
      configuration from the file. */
  ghost predicate RefusedFrom(n: Node, n': Node, codec: Codec) {
    && n'.file == n.file && n'.process == n.process && n'.running == n.running && n'.confirmed == n.confirmed
    && LastGoodKept(n, n')
    && (n'.config == n.config || n'.config == Previous(n, codec))
  }

  /** The previous configuration cannot be told: the candidate or the file cannot be written, read or decoded. */
  predicate FailsUnknowing(n: Node, f: Faults, codec: Codec) {
    f.candidate || f.readConfig || (Backed(n) && codec.decode(n.file.value).None?)
  }

  /** The report after a refusal: the old one exactly when not even the directory can be made; REJECTED
      exactly when the preflight check is the step that fails, and FAILED for any other; with the file's
      configuration as the active one as soon as it is known. */
  ghost predicate RefusalReported(n: Node, n': Node, f: Faults, codec: Codec) {
    && (f.mkdir ==> n'.report == n.report)
    && (!f.mkdir ==>
          && n'.report.Report? && n'.report.rollback == NotRequired
          && n'.report.status == (if !FailsUnknowing(n, f, codec) && f.check then Rejected else Failed)
          && n'.report.active == (if FailsUnknowing(n, f, codec) then None else n.file))
  }

  /** The directory could not be synced: the old file is put back, or the failure to do so is reported. */
  ghost predicate UnsyncedFrom(n: Node, n': Node, new_: string) {
    && n'.process == n.process && n'.running == n.running && n'.config == n.config && n'.confirmed == n.confirmed
    && LastGoodKept(n, n')
    && n'.report.Report? && n'.report.status == Failed && n'.report.active == n.file
    && (n'.report.rollback == Succeeded || n'.report.rollback == RollbackFailed)
    && (n'.report.rollback == Succeeded ==> n'.file == n.file)
    && (n'.file == n.file || n'.file == Some(new_))
  }

  ghost predicate CommittedFrom(n: Node, n': Node, new_: string, c: Object) {
    n' == Node(Some(new_), Some(new_), Running(Some(new_)), c, SingBox, Report(Applied, Some(new_), NotRequired),
        n.confirmed + {new_})
  }

  /** The new configuration was confirmed or it was not; only a confirmed one can reach the last-good file. */
  ghost predicate Tried(n: Node, n': Node, new_: string) {
    && (n'.confirmed == n.confirmed || n'.confirmed == n.confirmed + {new_})
    && (LastGoodKept(n, n') || (n'.lastGood == Some(new_) && new_ in n'.confirmed))
  }

  /** What a rollback puts back in place of a missing file is the last-good copy. */
  ghost predicate RevertedFrom(n: Node, n': Node, new_: string, codec: Codec) {
    && Tried(n, n', new_) && n'.running == n.running
    && (n.running == SingBox ==>
          && n'.config == Previous(n, codec) && n'.process == Running(n'.file)
          && n'.file == (if n.file.Some? then n.file else n'.lastGood)
          && (n.file.Some? ==> n'.lastGood == n.file))
    && (n.running == NoCore ==>
          && n'.config == n.config && n'.file == n.file
          && (n'.process == Stopped || n'.process == n.process || n'.process == Running(Some(new_))))
    && n'.report == if n.running == NoCore && n.file.None? then Report(Failed, None, NotAvailable)
         else Report(RolledBack, n.file, Succeeded)
  }

  ghost predicate DeadFrom(n: Node, n': Node, new_: string, codec: Codec) {
    && Tried(n, n', new_) && n'.running == NoCore && (n'.config == n.config || n'.config == Previous(n, codec))
    && n'.report == Report(Failed, n.file, RollbackFailed)
  }

  ghost predicate ActivatedFrom(n: Node, n': Node, new_: string, c: Object, codec: Codec, outcome: Outcome) {
    match outcome
    case Committed => CommittedFrom(n, n', new_, c)
    case Refused => RefusedFrom(n, n', codec)
    case Unsynced => UnsyncedFrom(n, n', new_)
    case Reverted => RevertedFrom(n, n', new_, codec)
    case Dead => DeadFrom(n, n', new_, codec)
  }

  /** An activation with these failures, start to end. */
  ghost predicate Performs(n: Node, n': Node, new_: string, c: Object, codec: Codec, f: Faults) {
    var outcome := OutcomeOf(n, f, codec);
    && ActivatedFrom(n, n', new_, c, codec, outcome)
    && (outcome == Refused ==> n'.config == if RejectedBack(n, f, codec) then Previous(n, codec) else n.config)
    && (outcome == Refused ==> RefusalReported(n, n', f, codec))
    && (outcome == Unsynced ==> (n'.report.rollback == Succeeded <==> f.unsync == Done))
    && (outcome == Unsynced ==> n'.file == if f.unsync == FailedBefore then Some(new_) else n.file)
    && (outcome == Reverted && n.running == SingBox && n.file.None? ==> n'.lastGood == CopyFound(n, f, new_))
    && (!f.stopAgain && (outcome == Dead || (outcome == Reverted && n.running == NoCore)) ==> n'.process == Stopped)
  }

  class Manager {
    const codec: Codec
    const settings: Settings
    const runtime: Runtime
    var file: Option<string>
    var lastGood: Option<string>
    var process: Process
    var report: Report
    ghost var confirmed: set<string>

    ghost predicate Valid() reads this, runtime { runtime.Valid() }

    ghost function Snapshot(): Node reads this, runtime {
      Node(file, lastGood, process, runtime.config, runtime.running, report, confirmed)
    }

    constructor (codec: Codec, settings: Settings, file: Option<string>, lastGood: Option<string>)
      ensures Valid() && this.codec == codec && this.settings == settings && fresh(runtime)
      ensures Snapshot() == Node(file, lastGood, Stopped, map[], NoCore, NoReport,
                if lastGood.Some? then {lastGood.value} else {})
    {
      this.codec, this.settings := codec, settings;
      runtime := new Runtime();
      this.file, this.lastGood, process, report := file, lastGood, Stopped, NoReport;
      confirmed := if lastGood.Some? then {lastGood.value} else {};
    }

    method StopProcess(fails: bool)
      modifies this`process
      ensures process == if fails then old(process) else Stopped
    {
      if !fails {
        process := Stopped;
      }
    }

    /** Starting a process that is already running is an error; otherwise it reads the file as it is now. */
    method StartProcess(fails: bool) returns (ok: bool)
      modifies this`process
      ensures ok == (!fails && old(process) == Stopped)
      ensures process == if ok then Running(file) else old(process)
    {
      ok := !fails && process == Stopped;
      if ok {
        process := Running(file);
      }
    }

    /** rollbackSingBox's work on the two files. */
    method RestoreFiles(running: CoreType, previousFile: Option<string>, f: Faults) returns (ok: bool)
      modifies this`file, this`lastGood
      ensures ok <==> Restores(running, previousFile, old(lastGood).Some?, f)
      ensures ok ==> file == if previousFile.Some? || running == NoCore then previousFile else old(lastGood)
      ensures lastGood == old(lastGood) || (running == SingBox && previousFile.Some? && lastGood == previousFile)
      ensures ok && running == SingBox && previousFile.Some? ==> lastGood == previousFile
    {
      file, ok := Restored(file, previousFile, f.restore), f.restore == Done;
      if previousFile.None? {
        if f.readLastGood {
          ok := false;
        } else if running == SingBox && lastGood.Some? {
          file, ok := Written(file, lastGood.value, f.copyLastGood), f.copyLastGood == Done;
        }
      }
      if ok && running == SingBox && previousFile.Some? {
        lastGood, ok := Written(lastGood, previousFile.value, f.saveAgain), f.saveAgain == Done;
      }
    }

    /** rollbackSingBox */
    method Rollback(running: CoreType, previousConfig: Object, previousFile: Option<string>, f: Faults)
      returns (ok: bool)
      requires Valid()
      modifies this`file, this`lastGood, this`process, runtime
      ensures Valid()
      ensures runtime.running == if ok then running else NoCore
      ensures runtime.config == old(runtime.config) || (running == SingBox && runtime.config == previousConfig)
      ensures ok && running == SingBox ==> runtime.config == previousConfig && process == Running(file)
      ensures ok <==>
                Restores(running, previousFile, old(lastGood).Some?, f)
                    && (running == SingBox ==> !f.startAgain && (!f.stopAgain || old(process) == Stopped))
      ensures running == NoCore || !ok ==> process == if f.stopAgain then old(process) else Stopped
      ensures ok ==> file == if previousFile.Some? || running == NoCore then previousFile else old(lastGood)
      ensures lastGood == old(lastGood) || (running == SingBox && previousFile.Some? && lastGood == previousFile)
      ensures ok && running == SingBox && previousFile.Some? ==> lastGood == previousFile
    {
      StopProcess(f.stopAgain);
      var restored := RestoreFiles(running, previousFile, f);
      if !restored {
        runtime.SetRunningCore(NoCore);
        return false;
      }
      if running == SingBox {
        runtime.SetSingBoxConfig(previousConfig);
        var started := StartProcess(f.startAgain);
        if !started {
          runtime.SetRunningCore(NoCore);
          return false;
        }
      }
      runtime.SetRunningCore(running);
      return true;
    }

    /** failSingBoxActivation */
    method Fail(running: CoreType, previousConfig: Object, previousFile: Option<string>, f: Faults, ghost n: Node,
                ghost new_: string) returns (ghost outcome: Outcome)
      requires Valid() && running == n.running && previousConfig == Previous(n, codec) && previousFile == n.file
      requires runtime.config == n.config && Tried(n, Snapshot(), new_)
      requires (n.running == NoCore ==> runtime.running == NoCore)
      requires process == Stopped || process == n.process || process == Running(Some(new_))
      modifies this`file, this`lastGood, this`process, this`report, runtime
      ensures Valid() && outcome in {Reverted, Dead} && confirmed == old(confirmed)
      ensures ActivatedFrom(n, Snapshot(), new_, map[], codec, outcome)
      ensures outcome == Reverted && n.running == SingBox && n.file.None? ==> lastGood == old(lastGood)
      ensures outcome == Reverted <==> Restores(running, previousFile, old(lastGood).Some?, f)
                                       && (running == SingBox ==>
                                           !f.startAgain && (!f.stopAgain || old(process) == Stopped))
      ensures !f.stopAgain && (outcome == Dead || n.running == NoCore) ==> process == Stopped
    {
      var restored := Rollback(running, previousConfig, previousFile, f);
      if !restored {
        report := Report(Failed, previousFile, RollbackFailed);
        return Dead;
      }
      if running == NoCore && previousFile.None? {
        report := Report(Failed, None, NotAvailable);
        return Reverted;
      }
      report := Report(RolledBack, previousFile, Succeeded);
      return Reverted;
    }

    /** restartSingBox up to the rename; None is success. */
    method Prepare(f: Faults) returns (failed: bool, previousConfig: Object)
      requires Valid()
      modifies this`lastGood, this`report, runtime
      ensures Valid() && failed == FailsEarly(old(Snapshot()), f, codec)
      ensures failed ==> RefusedFrom(old(Snapshot()), Snapshot(), codec)
      ensures failed ==> RefusalReported(old(Snapshot()), Snapshot(), f, codec)
      ensures failed && RejectedBack(old(Snapshot()), f, codec) ==> runtime.config == Previous(old(Snapshot()), codec)
      ensures failed && !RejectedBack(old(Snapshot()), f, codec) ==> runtime.config == old(runtime.config)
      ensures !failed ==>
                Snapshot() == old(Snapshot()).(lastGood := lastGood, report := report)
                    && LastGoodKept(old(Snapshot()), Snapshot())
      ensures !failed ==> previousConfig == Previous(old(Snapshot()), codec)
    {
      previousConfig := runtime.config;
      if f.mkdir {
        return true, previousConfig;
      }
      report := Report(Pending, None, NotRequired);
      if f.candidate || f.readConfig {
        report := Report(Failed, None, NotRequired);
        return true, previousConfig;
      }
      var backed := runtime.running == SingBox && file.Some?;
      if backed {
        var decoded := codec.decode(file.value);
        if decoded.None? {
          report := Report(Failed, None, NotRequired);
          return true, previousConfig;
        }
        previousConfig := previousConfig + decoded.value;
      }
      if f.check {
        if backed {
          runtime.SetSingBoxConfig(previousConfig);
        }
        report := Report(Rejected, file, NotRequired);
        return true, previousConfig;
      }
      if backed {
        lastGood := Written(lastGood, file.value, f.saveLastGood);
        if f.saveLastGood != Done {
          report := Report(Failed, file, NotRequired);
          return true, previousConfig;
        }
      }
      if f.chmod || f.rename {
        report := Report(Failed, file, NotRequired);
        return true, previousConfig;
      }
      return false, previousConfig;
    }

    /** Stop, start, health check, and the write of the last-good copy. */
    method Launch(encoded: string, f: Faults, ghost n: Node) returns (ok: bool)
      requires Snapshot() == n.(file := Some(encoded), lastGood := lastGood, report := report)
      requires LastGoodKept(n, Snapshot())
      modifies this`process, this`confirmed, this`lastGood
      ensures ok == (Comes(n, f) && f.commit == Done) && Tried(n, Snapshot(), encoded)
      ensures ok ==> process == Running(file) && lastGood == Some(encoded) && confirmed == n.confirmed + {encoded}
      ensures process == Stopped || process == n.process || process == Running(file)
      ensures !ok ==> (process == Stopped <==> (n.process == Stopped || !f.stop) && f.start)
      ensures lastGood == if Comes(n, f) && f.commit != FailedBefore then Some(encoded) else old(lastGood)
    {
      StopProcess(f.stop);
      var started := StartProcess(f.start);
      if !started || f.health {
        return false;
      }
      confirmed := confirmed + {encoded};
      lastGood := Written(lastGood, encoded, f.commit);
      return f.commit == Done;
    }

    /** The last steps of a success. */
    method Commit(c: Object, encoded: string)
      requires Valid()
      modifies this`report, runtime
      ensures Valid() && runtime.config == c && runtime.running == SingBox
      ensures report == Report(Applied, Some(encoded), NotRequired)
    {
      report := Report(Applied, Some(encoded), NotRequired);
      runtime.SetSingBoxConfig(c);
      runtime.SetRunningCore(SingBox);
    }

    /** The steps after the new file is in place. */
    method Switch(c: Object, encoded: string, previousConfig: Object, previousFile: Option<string>, f: Faults,
                  ghost n: Node) returns (ok: bool, ghost outcome: Outcome)
      requires Valid() && previousConfig == Previous(n, codec) && previousFile == n.file && LastGoodKept(n, Snapshot())
      requires Snapshot() == n.(file := Some(encoded), lastGood := lastGood, report := report)
      requires n.file.None? ==> lastGood == n.lastGood
      modifies this, runtime
      ensures Valid() && ok == (outcome == Committed) && ActivatedFrom(n, Snapshot(), encoded, c, codec, outcome)
      ensures outcome == if Comes(n, f) && f.commit == Done then Committed else if RollsBack(n, f) then Reverted
                else Dead
      ensures outcome == Reverted && n.running == SingBox && n.file.None? ==> lastGood == CopyFound(n, f, encoded)
      ensures !f.stopAgain && (outcome == Dead || (outcome == Reverted && n.running == NoCore)) ==> process == Stopped
    {
      ok := Launch(encoded, f, n);
      if !ok {
        outcome := Fail(runtime.running, previousConfig, previousFile, f, n, encoded);
        return false, outcome;
      }
      Commit(c, encoded);
      return true, Committed;
    }

    /** restartSingBox: which of the five outcomes, and what each leaves behind. */
    method RestartSingBox(requested: Object, f: Faults) returns (ok: bool)
      requires Valid()
      modifies this, runtime
      ensures Valid() && ok == (OutcomeOf(old(Snapshot()), f, codec) == Committed)
      ensures var c := Equipped(requested, settings); Performs(old(Snapshot()), Snapshot(), codec.encode(c), c, codec,
                f)
    {
      ghost var n := Snapshot();
      var c := ApplySingBoxAPIConfig(requested, settings);
      var encoded := codec.encode(c);
      var previousFile := file;
      var failed, previousConfig := Prepare(f);
      if failed {
        return false;
      }
      file := Some(encoded);
      if f.sync {
        file := Restored(file, previousFile, f.unsync);
        report := Report(Failed, previousFile, if f.unsync == Done then Succeeded else RollbackFailed);
        return false;
      }
      ghost var outcome;
      ok, outcome := Switch(c, encoded, previousConfig, previousFile, f, n);
    }
  }
}
