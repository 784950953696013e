/** Two runs that bill less than was carried, for every amount of traffic before and after the restart:
    a user edit restarts the core without the marker, and a counter that is still zero in the first
    complete sample after Start misses it. */
module UsageShortfall {
  import opened Common
  import opened UsageStore
  import opened UsageLedger
  import opened UsageProtocol
  import opened UsageRuns

  // ---------------------------------------------------------------- pieces of runs

  /** A stretch of a run in which actor 0 is the only one to move. */
  datatype Path = Path(trace: seq<Sys>, steps: seq<Step>)

  ghost predicate Valid(path: Path) {
    && |path.trace| == |path.steps| + 1
    && forall i :: 0 <= i < |path.steps| ==> Next(path.trace[i], 0, path.steps[i], path.trace[i + 1])
  }

  ghost predicate Leads(path: Path, s: Sys,
                        s': Sys) { Valid(path) && path.trace[0] == s && path.trace[|path.steps|] == s' }

  lemma Join(a: Path, b: Path, s: Sys, mid: Sys, s': Sys) returns (path: Path)
    requires Leads(a, s, mid) && Leads(b, mid, s')
    ensures Leads(path, s, s')
  {
    path := Path(a.trace + b.trace[1..], a.steps + b.steps);
    forall i | 0 <= i < |path.steps| ensures Next(path.trace[i], 0, path.steps[i], path.trace[i + 1]) {
      if i < |a.steps| {
        assert path.trace[i] == a.trace[i] && path.trace[i + 1] == a.trace[i + 1];
      } else {
        assert path.trace[i] == b.trace[i - |a.steps|] && path.trace[i + 1] == b.trace[i + 1 - |a.steps|];
      }
    }
  }

  lemma One(s: Sys, step: Step, s': Sys) returns (path: Path)
    requires Next(s, 0, step, s')
    ensures Leads(path, s, s')
  {
    path := Path([s, s'], [step]);
  }

  lemma Then(a: Path, s: Sys, mid: Sys, step: Step, s': Sys) returns (path: Path)
    requires Leads(a, s, mid) && Next(mid, 0, step, s')
    ensures Leads(path, s, s')
  {
    var b := One(mid, step, s');
    path := Join(a, b, s, mid, s');
  }

  lemma PathIsRun(path: Path, s: Sys, s': Sys) returns (actors: seq<nat>)
    requires Leads(path, s, s') && Init(s)
    ensures Run(path.trace, actors, path.steps)
  {
    actors := seq(|path.steps|, i => 0);
  }

  /** Nobody holds the lock. */
  ghost predicate Quiet(s: Sys) { s.lock == None && forall p: nat :: s.procs(p) == Idle }

  /** The limits of a store. */
  ghost predicate Limits(s: Sys, s': Sys) { s'.maxBytes == s.maxBytes && s'.size == s.size }

  /** The only core counter that moves. */
  ghost predicate OnlyMoving(s: Sys, key: string) {
    forall k :: !Forwarding(k) && k != key ==> Last(Lives(s, k)) == 0
  }

  // ---------------------------------------------------------------- a restart

  lemma Restart(s: Sys, job: Job) returns (path: Path, s': Sys)
    requires Quiet(s) && (job == Starting || (job == Editing && s.running))
    ensures Leads(path, s, s') && Quiet(s') && Limits(s, s')
    ensures s'.db == s.db && s'.log == s.log && s'.running
    ensures s'.marker == (s.marker || (job == Starting && s.db.active))
    ensures forall k :: s'.ledger(k) == if Forwarding(k) then s.ledger(k) else Reborn(s.ledger(k))
  {
    var entered := Becomes(s, 0, Entered(job)).(lock := Some(0));
    var launched := Becomes(entered, 0, Launched(job)).(ledger := Relaunched(entered));
    var left := Becomes(launched, 0, Leaving).(running := true, marker := launched.marker
        || (job == Starting && launched.db.active));
    s' := Becomes(left, 0, Idle).(lock := None);
    path := One(s, Acquire(job), entered);
    path := Then(path, s, entered, Launch, launched);
    path := Then(path, s, launched, Finish(true), left);
    path := Then(path, s, left, Release, s');
  }

  // ---------------------------------------------------------------- one complete sample

  lemma SameLife(s: Sys, t: Sys, life: string -> nat)
    requires s.ledger == t.ledger && life == Now(t)
    ensures forall k :: life(k) == CurrentLife(s, k)
  {
  }

  lemma LifeKept(s: Sys, t: Sys, kind: string, life: string -> nat)
    requires s.ledger == t.ledger && forall k :: life(k) == CurrentLife(s, k)
    ensures forall k :: NowFor(t, kind, life)(k) == CurrentLife(s, k)
  {
  }

  /** A complete sample of a running core in which the statistics hold these user counters. */
  lemma Sample(s: Sys, job: Job, users: seq<Counter>) returns (path: Path, held: Sys)
    requires Quiet(s) && s.running && (job == Activation || (job == Periodic && s.db.active))
    requires Reading(s, KINDS[1], users) && Reading(s, KINDS[2], []) && Reading(s, KINDS[3], [])
    ensures Leads(path, s, held)
    ensures held == s.(lock := Some(0), procs := held.procs) && (forall p: nat :: p != 0 ==> held.procs(p) == Idle)
    ensures var proc := held.procs(0);
            && proc.Sampled? && proc == Sampled(job, users, proc.life, true, true, true)
            && forall k :: proc.life(k) == CurrentLife(s, k)
  {
    var entered := Becomes(s, 0, Entered(job)).(lock := Some(0));
    var one := Becomes(entered, 0, Sampling(job, [], 0, Now(entered), 1));
    assert Reading(entered, KINDS[0], []);
    path := One(s, Acquire(job), entered);
    path := Then(path, s, entered, ReadForwarding(Ok(([], false))), one);
    var life2 := NowFor(one, KINDS[1], Now(entered));
    SameLife(s, entered, Now(entered));
    LifeKept(s, one, KINDS[1], Now(entered));
    assert [] + users == users && users + [] == users;
    var two := Becomes(one, 0, Sampling(job, users, 0, life2, 2));
    assert Reading(one, KINDS[1], users);
    path := Then(path, s, one, QueryCore(Ok(users)), two);
    var life3 := NowFor(two, KINDS[2], life2);
    LifeKept(s, two, KINDS[2], life2);
    var three := Becomes(two, 0, Sampling(job, users, 0, life3, 3));
    assert Reading(two, KINDS[2], []);
    path := Then(path, s, two, QueryCore(Ok([])), three);
    var life4 := NowFor(three, KINDS[3], life3);
    LifeKept(s, three, KINDS[3], life3);
    held := Becomes(three, 0, Sampled(job, users, life4, true, true, true));
    assert Reading(three, KINDS[3], []);
    path := Then(path, s, three, QueryCore(Ok([])), held);
  }

  lemma ReleaseFrom(path: Path, s: Sys, left: Sys) returns (path': Path, s': Sys)
    requires Leads(path, s, left) && left.procs(0) == Leaving && (forall p: nat :: p != 0 ==> left.procs(p) == Idle)
    ensures Leads(path', s, s') && Quiet(s') && s' == left.(lock := None, procs := s'.procs)
  {
    s' := Becomes(left, 0, Idle).(lock := None);
    path' := Then(path, s, left, Release, s');
  }

  lemma Activates(s: Sys) returns (path: Path, s': Sys)
    requires Quiet(s) && s.running && !s.db.active && forall k :: !Forwarding(k) ==> Last(Lives(s, k)) == 0
    ensures Leads(path, s, s') && Quiet(s') && Limits(s, s') && s'.running && s'.marker == s.marker
    ensures s'.db == Activated(EMPTY_DB, [], Some("g")).0 && s'.log == []
    ensures forall k :: !Forwarding(k) ==> s'.ledger(k) == Opened(s.ledger(k), CurrentLife(s, k), 0)
  {
    var held;
    KindsAreCore();
    path, held := Sample(s, Activation, []);
    var proc := held.procs(0);
    var ledger := (k: string) => Unsampled(held, k, proc.life, true);
    var left := Becomes(held, 0, Leaving).(db := Activated(held.db, [], Some("g")).0, log := [], ledger := ledger);
    assert AccountingBegins(held, [], proc.life, true, left);
    path := Then(path, s, held, Commit("", 0, Some("g")), left);
    path, s' := ReleaseFrom(path, s, left);
  }

  lemma KindsAreCore()
    ensures forall i, k :: 1 <= i <= 3 && OfKind(k, KINDS[i]) ==> !Forwarding(k)
  {
    KindsAreDistinct();
    forall i, k | 1 <= i <= 3 && OfKind(k, KINDS[i]) ensures !Forwarding(k) {
      if Forwarding(k) {
        OneKind(k, KINDS[i], KINDS[0]);
      }
    }
  }

  ghost predicate User(c: Counter) { c.kind == "user" }

  /** The reply in which the moving counter is listed unless it is zero. */
  function Listed(c: Counter): seq<Counter> { if c.value > 0 then [c] else [] }

  lemma ListedIsReading(s: Sys, c: Counter)
    requires User(c) && c.value >= 0 && c.value == Last(Lives(s, Key(c))) && OnlyMoving(s, Key(c))
    ensures Reading(s, KINDS[1], Listed(c)) && Reading(s, KINDS[2], []) && Reading(s, KINDS[3], [])
  {
    KindsAreCore();
    KindsAreDistinct();
    assert OfKind(Key(c), KINDS[1]);
    forall i | 2 <= i <= 3 ensures !OfKind(Key(c), KINDS[i]) {
      if OfKind(Key(c), KINDS[i]) {
        OneKind(Key(c), KINDS[i], KINDS[1]);
      }
    }
    if c.value > 0 {
      assert Listed(c)[0] == c;
      assert Mentions(Listed(c), Key(c));
    }
  }

  /** The store after a capture of the moving counter. */
  ghost function After(s: Sys, c: Counter): (Db, Result<(), Error>) {
    Captured(s.db, "SING_BOX", Listed(c), 0, s.marker, s.maxBytes, s.size)
  }

  /** A periodic capture of the moving counter that the queue has room for. */
  lemma Captures(s: Sys, c: Counter) returns (path: Path, s': Sys)
    requires Quiet(s) && s.running && s.db.active && User(c) && c.value >= 0 && Base(s, Key(c)) >= 0
    requires c.value == Last(Lives(s, Key(c))) && OnlyMoving(s, Key(c)) && After(s, c).1.Ok?
    ensures Leads(path, s, s') && Quiet(s') && Limits(s, s') && s'.running && s'.db.active && !s'.marker
    ensures s'.db == After(s, c).0
    ensures forall k :: k != Key(c) ==> s'.ledger(k) == s.ledger(k)
    ensures c.value > 0 ==>
              s'.ledger(Key(c)) == Record(s.ledger(Key(c)), Base(s, Key(c)), c.value, CurrentLife(s, Key(c)), s.marker)
              && Base(s', Key(c)) == c.value
    ensures c.value == 0 ==> s'.ledger(Key(c)) == s.ledger(Key(c)) && Base(s', Key(c)) == Base(s, Key(c))
  {
    var held;
    ListedIsReading(s, c);
    path, held := Sample(s, Periodic, Listed(c));
    var left := CommitOne(held, c);
    path := Then(path, s, held, Commit("SING_BOX", 0, None), left);
    path, s' := ReleaseFrom(path, s, left);
  }

  lemma CommitOne(held: Sys, c: Counter) returns (left: Sys)
    requires held.lock == Some(0) && held.procs(0).Sampled?
    requires held.procs(0) == Sampled(Periodic, Listed(c), held.procs(0).life, true, true, true)
    requires held.db.active && After(held, c).1.Ok?
    requires User(c) && c.value >= 0 && Base(held, Key(c)) >= 0
    ensures Next(held, 0, Commit("SING_BOX", 0, None), left)
    ensures left == held.(procs := left.procs, db := After(held, c).0, log := left.log, marker := false,
                          ledger := left.ledger)
    ensures left.procs(0) == Leaving && (forall p: nat :: p != 0 ==> left.procs(p) == held.procs(p))
    ensures left.db.active && left.db.baseline == Stored(held.db.baseline, Listed(c))
    ensures forall k :: left.ledger(k) == if k == Key(c) && c.value > 0
              then Record(held.ledger(k), Base(held, k), c.value, held.procs(0).life(k), held.marker)
              else held.ledger(k)
  {
    var proc := held.procs(0);
    var key := Key(c);
    KindsAreCore();
    assert OfKind(key, KINDS[1]);
    var (db', marker', r) := Committed(held.db, held.marker, "SING_BOX", Listed(c), true, 0, held.maxBytes, held.size);
    assert r.Ok?;
    var ledger := (k: string) =>
      if k == key && c.value > 0 then Record(held.ledger(k), Base(held, key), c.value, proc.life(k), held.marker)
      else held.ledger(k);
    left := Becomes(held, 0, Leaving).(db := db', log := LogAfter(held.db, held.log, db'), marker := marker',
                                       ledger := ledger);
    assert Accounted(held, Listed(c), proc.life, proc.complete && held.marker, left);
  }

  // ---------------------------------------------------------------- room in the queue

  /** A snapshot such as the runs below take: of at most the one counter, with whatever value. */
  ghost predicate Small(x: Snapshot, c: Counter) {
    && x.generation == "g" && x.core == "SING_BOX" && x.capturedAt == 0 && x.sequence <= 2 && |x.counters| <= 1
    && forall i :: 0 <= i < |x.counters| ==> x.counters[i].(value := 0) == c.(value := 0)
  }

  /** The queue limit has room for two of them. */
  ghost predicate Roomy(maxBytes: int, size: Snapshot -> nat, c: Counter) {
    forall x, y :: Small(x, c) && Small(y, c) ==> size(x) + size(y) <= maxBytes
  }

  lemma RoomyIsPositive(maxBytes: int, size: Snapshot -> nat, c: Counter)
    requires Roomy(maxBytes, size, c)
    ensures maxBytes >= 0
  {
    var x := Snapshot("g", 1, 0, "SING_BOX", []);
    assert Small(x, c) && size(x) + size(x) <= maxBytes;
  }

  /** At most `n` of them are queued. */
  ghost predicate Holds(db: Db, c: Counter, n: nat) {
    && db.active && db.generation == "g" && 1 <= db.next <= n + 1 && |db.snapshots| <= n
    && forall k :: k in db.snapshots ==> Small(db.snapshots[k], c)
  }

  lemma HeldBytes(db: Db, c: Counter, x: Snapshot, maxBytes: int, size: Snapshot -> nat)
    requires Roomy(maxBytes, size, c) && Holds(db, c, 1) && Small(x, c)
    ensures size(x) + Total(db.snapshots, size) <= maxBytes
  {
    if db.snapshots == map[] {
      assert size(x) + size(x) <= maxBytes;
    } else {
      var k: nat :| k in db.snapshots;
      TotalRemove(db.snapshots, k, size);
      assert |(db.snapshots - {k}).Keys| == |db.snapshots - {k}| && |db.snapshots.Keys| == |db.snapshots|;
      assert (db.snapshots - {k}).Keys == db.snapshots.Keys - {k};
      assert db.snapshots - {k} == map[];
    }
  }

  /** A capture of the moving counter fits when at most one snapshot is queued. */
  lemma Fits(s: Sys, c: Counter, n: nat)
    requires Roomy(s.maxBytes, s.size, c) && Holds(s.db, c, n) && n <= 1
    ensures After(s, c).1.Ok? && Holds(After(s, c).0, c, n + 1)
    ensures c.value <= 0 ==> Holds(After(s, c).0, c, n)
  {
    var deltas := Deltas(s.db.baseline, Listed(c), s.marker);
    if c.value > 0 {
      assert Listed(c)[..0] == [] && Deltas(s.db.baseline, [], s.marker) == [];
      assert |deltas| <= 1;
    }
    var x := NextSnapshot(s.db, "SING_BOX", deltas, 0);
    if deltas != [] {
      assert Small(x, c);
      HeldBytes(s.db, c, x, s.maxBytes, s.size);
      CountPut(s.db.snapshots, s.db.next, x);
    }
  }

  lemma RoomyAnyValue(maxBytes: int, size: Snapshot -> nat, c: Counter, db: Db, n: nat, v: Int64)
    ensures Roomy(maxBytes, size, c) ==> Roomy(maxBytes, size, c.(value := v))
    ensures Holds(db, c, n) <==> Holds(db, c.(value := v), n)
  {
    assert forall x :: Small(x, c) <==> Small(x, c.(value := v));
  }

  // ---------------------------------------------------------------- the two runs

  /** A fresh agent with an empty database. */
  function Fresh(maxBytes: int, size: Snapshot -> nat): Sys {
    Sys(EMPTY_DB, [], maxBytes, size, false, false, None, p => Idle, k => Ledger([0], map[], 0, 0, 0, 0))
  }

  /** The lives of the one counter, and where it stands with the store. */
  ghost predicate Stands(s: Sys, start: Sys, c: Counter, lives: seq<nat>, committed: map<nat, nat>,
                         base: nat, lost: nat)
  {
    var key := Key(c);
    && Quiet(s) && Limits(start, s) && s.running && s.db.active && OnlyMoving(s, key)
    && Lives(s, key) == lives && Base(s, key) == base
    && s.ledger(key) == Ledger(lives, committed, s.ledger(key).at, 1, 0, lost)
  }

  lemma Flows(path: Path, start: Sys, s: Sys, key: string, more: nat) returns (path': Path, s': Sys)
    requires Leads(path, start, s) && Quiet(s) && Lives(s, key) != []
    ensures Leads(path', start, s') && s' == s.(ledger := s'.ledger)
    ensures forall k :: s'.ledger(k) ==
              if k == key then s.ledger(k).(lives := Longer(Lives(s, key), more)) else s.ledger(k)
  {
    s' := s.(ledger := Flowing(s, key, more));
    path' := Then(path, start, s, Traffic(key, more), s');
  }

  lemma ActivatedFrom(start: Sys, c: Counter) returns (path: Path, s: Sys)
    requires User(c) && start == Fresh(start.maxBytes, start.size)
    ensures Leads(path, start, s) && !s.marker && Holds(s.db, c, 0)
    ensures Stands(s, start, c, [0, 0], map[1 := 0], 0, 0) && s.ledger(Key(c)).at == 1
  {
    var key := Key(c);
    KindsAreCore();
    assert OfKind(key, KINDS[1]);
    var up, more;
    path, up := Restart(start, Starting);
    more, s := Activates(up);
    path := Join(path, more, start, up, s);
  }

  /** Start, activate, and capture once after `b` bytes. */
  lemma Billed(start: Sys, c: Counter, b: Int64) returns (path: Path, s: Sys)
    requires User(c) && 0 < b && start == Fresh(start.maxBytes, start.size) && Roomy(start.maxBytes, start.size, c)
    ensures Leads(path, start, s) && !s.marker && Holds(s.db, c, 1)
    ensures Stands(s, start, c, [0, b], map[1 := b], b, 0) && s.ledger(Key(c)).at == 1
  {
    var key := Key(c);
    KindsAreCore();
    assert OfKind(key, KINDS[1]);
    path, s := ActivatedFrom(start, c);
    path, s := Flows(path, start, s, key, b);
    var before, more := s, path;
    KeyIgnoresValue(c, b);
    RoomyAnyValue(s.maxBytes, s.size, c, s.db, 0, b);
    Fits(s, c.(value := b), 0);
    more, s := Captures(s, c.(value := b));
    RoomyAnyValue(s.maxBytes, s.size, c, s.db, 1, b);
    path := Join(path, more, start, before, s);
    assert map[1 := 0][1 := b] == map[1 := b];
  }

  /** After a restart the counter carries `v` more bytes, and a capture without the marker takes the old
      baseline off again. */
  lemma BilledAgain(path: Path, start: Sys, s: Sys, c: Counter, b: Int64, v: Int64) returns (path': Path, s': Sys)
    requires User(c) && 0 < b <= v && Leads(path, start, s) && Roomy(start.maxBytes, start.size, c) && Holds(s.db, c, 1)
    requires !s.marker && Stands(s, start, c, [0, b, 0], map[1 := b], b, 0) && s.ledger(Key(c)).at == 1
    ensures Leads(path', start, s') && Stands(s', start, c, [0, b, v], map[1 := b, 2 := v], v, b)
  {
    var key := Key(c);
    KindsAreCore();
    assert OfKind(key, KINDS[1]);
    var mid, more;
    path', mid := Flows(path, start, s, key, v);
    KeyIgnoresValue(c, v);
    RoomyAnyValue(s.maxBytes, s.size, c, mid.db, 1, v);
    Fits(mid, c.(value := v), 1);
    more, s' := Captures(mid, c.(value := v));
    path' := Join(path', more, start, mid, s');
  }

  lemma Short(path: Path, start: Sys, s: Sys, c: Counter, b: nat, v: nat) returns (actors: seq<nat>)
    requires Leads(path, start, s) && Init(start) && Stands(s, start, c, [0, b, v], map[1 := b, 2 := v], v, b)
    ensures Run(path.trace, actors, path.steps)
    ensures TotalBill(s.log, Key(c)) == v && Carried(Lives(s, Key(c)), s.ledger(Key(c)).origin) == b + v
  {
    actors := PathIsRun(path, start, s);
    BillingBalances(path.trace, actors, path.steps, |path.steps|, Key(c));
    var committed := map[1 := b, 2 := v];
    assert Recorded(committed, 0) == 0 && Recorded(committed, 1) == 0;
    assert Recorded(committed, 2) == b && Recorded(committed, 3) == b + v;
    assert [0, b, v][..2] == [0, b] && [0, b][..1] == [0] && Carried([0], 1) == 0;
    assert Carried([0, b], 1) == b;
  }

  /** A user edit restarts the core but sets no marker: of b + v bytes v are billed. */
  lemma EditUnderbills(c: Counter, b: Int64, v: Int64, maxBytes: int, size: Snapshot -> nat)
    returns (path: Path, s: Sys, actors: seq<nat>)
    requires User(c) && 0 < b <= v && Roomy(maxBytes, size, c)
    ensures Run(path.trace, actors, path.steps) && path.trace[|path.steps|] == s && s.db.active
    ensures s.maxBytes == maxBytes && s.size == size && TotalBill(s.log, Key(c)) == v
    ensures Carried(Lives(s, Key(c)), s.ledger(Key(c)).origin) - s.ledger(Key(c)).offset == b + v
  {
    var key, start := Key(c), Fresh(maxBytes, size);
    KindsAreCore();
    assert OfKind(key, KINDS[1]);
    var before, more, after;
    path, before := Billed(start, c, b);
    more, after := Restart(before, Editing);
    path := Join(path, more, start, before, after);
    assert Lives(after, key) == [0, b, 0];
    path, s := BilledAgain(path, start, after, c, b, v);
    RoomyIsPositive(maxBytes, size, c);
    actors := Short(path, start, s, c, b, v);
  }

  /** Start sets the marker, but the first complete sample does not list the counter, which is still
      zero, and uses the marker up. */
  lemma LateCounterUnderbills(c: Counter, b: Int64, v: Int64, maxBytes: int, size: Snapshot -> nat)
    returns (path: Path, s: Sys, actors: seq<nat>)
    requires User(c) && 0 < b <= v && Roomy(maxBytes, size, c)
    ensures Run(path.trace, actors, path.steps) && path.trace[|path.steps|] == s && s.db.active
    ensures s.maxBytes == maxBytes && s.size == size && TotalBill(s.log, Key(c)) == v
    ensures Carried(Lives(s, Key(c)), s.ledger(Key(c)).origin) - s.ledger(Key(c)).offset == b + v
  {
    var key, start := Key(c), Fresh(maxBytes, size);
    KindsAreCore();
    assert OfKind(key, KINDS[1]);
    var before, more, up, after;
    path, before := Billed(start, c, b);
    more, up := Restart(before, Starting);
    path := Join(path, more, start, before, up);
    KeyIgnoresValue(c, 0);
    assert Lives(up, key) == [0, b, 0];
    RoomyAnyValue(maxBytes, size, c, up.db, 1, 0);
    Fits(up, c.(value := 0), 1);
    more, after := Captures(up, c.(value := 0));
    RoomyAnyValue(maxBytes, size, c, after.db, 1, 0);
    path := Join(path, more, start, up, after);
    path, s := BilledAgain(path, start, after, c, b, v);
    RoomyIsPositive(maxBytes, size, c);
    actors := Short(path, start, s, c, b, v);
  }
}
