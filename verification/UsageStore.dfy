/** The durable usage queue of internal/usagesnapshot/store.go: cumulative counters become
    deltas against a stored baseline, queued under consecutive sequence numbers. */
module UsageStore {
  import opened Common

  datatype Counter = Counter(
    kind: string, name: string, inbound: string, protocol: string,
    scope: string, direction: string, value: Int64)

  datatype Snapshot = Snapshot(
    generation: string, sequence: nat, capturedAt: int, core: string, counters: seq<Counter>)

  datatype Error = NotActive | QueueLimit | NoEntropy | GenerationMismatch | AckAhead

  /** The database: a `meta` bucket spelled out field by field, and two buckets. */
  datatype Db = Db(
    active: bool, generation: string, next: nat, acked: nat, lastCaptured: Option<int>,
    baseline: map<string, Int64>, snapshots: map<nat, Snapshot>)

  const EMPTY_DB := Db(false, "", 0, 0, None, map[], map[])

  const NUL: char := '\0'

  // ---------------------------------------------------------------- counter keys

  function Fields(c: Counter): seq<string> {
    if c.kind != "forwarding" then [c.kind, c.name, c.inbound, c.direction]
    else [c.kind, c.name, c.protocol, c.scope, c.direction]
  }

  function Key(c: Counter): string {
    if c.kind != "forwarding" then c.kind + [NUL] + c.name + [NUL] + c.inbound + [NUL] + c.direction
    else c.kind + [NUL] + c.name + [NUL] + c.protocol + [NUL] + c.scope + [NUL] + c.direction
  }

  ghost predicate NulFree(c: Counter) {
    forall f :: f in Fields(c) ==> NUL !in f
  }

  function Join(fields: seq<string>): string
    requires |fields| > 0
  {
    if |fields| == 1 then fields[0] else fields[0] + [NUL] + Join(fields[1..])
  }

  lemma KeyIsJoin(c: Counter)
    ensures Key(c) == Join(Fields(c))
  {
    var f := Fields(c);
    assert Join(f) == f[0] + [NUL] + Join(f[1..]);
    assert f[1..] == [f[1]] + f[2..];
    assert Join(f[1..]) == f[1] + [NUL] + Join(f[2..]);
    assert Join(f[2..]) == f[2] + [NUL] + Join(f[3..]);
    if c.kind == "forwarding" {
      assert Join(f[3..]) == f[3] + [NUL] + Join(f[4..]);
      assert Join(f[4..]) == f[4];
      assert Key(c) == f[0] + ([NUL] + (f[1] + ([NUL] + (f[2] + ([NUL] + (f[3] + ([NUL] + f[4])))))));
    } else {
      assert Join(f[3..]) == f[3];
      assert Key(c) == f[0] + ([NUL] + (f[1] + ([NUL] + (f[2] + ([NUL] + f[3])))));
    }
  }

  /** The first field ends at the first NUL. */
  lemma FirstNul(a: string, x: string)
    requires NUL !in a
    ensures var s := a + [NUL] + x; s[|a|] == NUL && forall i :: 0 <= i < |a| ==> s[i] != NUL
  {
    forall i | 0 <= i < |a| ensures (a + [NUL] + x)[i] != NUL {
      assert (a + [NUL] + x)[i] == a[i];
      assert a[i] in a;
    }
  }

  lemma SplitAtNul(a: string, x: string, b: string, y: string)
    requires NUL !in a && NUL !in b
    requires a + [NUL] + x == b + [NUL] + y
    ensures a == b && x == y
  {
    var s, t := a + [NUL] + x, b + [NUL] + y;
    FirstNul(a, x);
    FirstNul(b, y);
    assert |a| == |b|;
    assert a == s[..|a|] && b == t[..|b|];
    assert x == s[|a| + 1..] && y == t[|b| + 1..];
  }

  lemma JoinHasNul(f: seq<string>)
    requires |f| > 0 && forall s :: s in f ==> NUL !in s
    ensures NUL in Join(f) <==> |f| > 1
  {
    assert f[0] in f;
    if |f| > 1 {
      FirstNul(f[0], Join(f[1..]));
    }
  }

  lemma {:induction false} JoinInjective(f: seq<string>, g: seq<string>)
    requires |f| > 0 && |g| > 0
    requires forall s :: s in f ==> NUL !in s
    requires forall s :: s in g ==> NUL !in s
    requires Join(f) == Join(g)
    ensures f == g
  {
    JoinHasNul(f);
    JoinHasNul(g);
    if |f| > 1 {
      SplitAtNul(f[0], Join(f[1..]), g[0], Join(g[1..]));
      JoinInjective(f[1..], g[1..]);
      assert f == [f[0]] + f[1..] && g == [g[0]] + g[1..];
    }
  }

  /** On NUL-free fields two counters share a baseline slot exactly when they agree on every
      field that identifies them; a forwarding and a core counter never do. */
  lemma KeyInjective(a: Counter, b: Counter)
    requires NulFree(a) && NulFree(b)
    ensures Key(a) == Key(b) <==> Fields(a) == Fields(b)
    ensures Key(a) == Key(b) ==> (a.kind == "forwarding" <==> b.kind == "forwarding")
  {
    KeyIsJoin(a);
    KeyIsJoin(b);
    if Key(a) == Key(b) {
      JoinInjective(Fields(a), Fields(b));
      assert Fields(a)[0] == a.kind && Fields(b)[0] == b.kind;
    }
  }

  // ---------------------------------------------------------------- transactions as functions

  function Baseline(baseline: map<string, Int64>, key: string): Int64 {
    if key in baseline then baseline[key] else 0
  }

  function Delta(previous: Int64, c: Counter, reset: bool): Int64 {
    var d := Sub64(c.value, previous);
    if (reset && c.kind != "forwarding") || d < 0 then c.value else d
  }

  /** The baseline bucket after storing a list of readings, later ones over earlier ones. */
  function Stored(baseline: map<string, Int64>, counters: seq<Counter>): map<string, Int64> {
    if counters == [] then baseline
    else
      var c := counters[|counters| - 1];
      Stored(baseline, counters[..|counters| - 1])[Key(c) := c.value]
  }

  /** The positive deltas of a sample, in order; each counter meets the baseline its predecessors left. */
  function Deltas(baseline: map<string, Int64>, counters: seq<Counter>, reset: bool): seq<Counter> {
    if counters == [] then []
    else
      var prefix, c := counters[..|counters| - 1], counters[|counters| - 1];
      var d := Delta(Baseline(Stored(baseline, prefix), Key(c)), c, reset);
      Deltas(baseline, prefix, reset) + if d > 0 then [c.(value := d)] else []
  }

  function Activated(db: Db, counters: seq<Counter>, id: Option<string>): (Db, Result<(), Error>) {
    if db.active then (db, Ok(()))
    else match id
      case None => (db, Err(NoEntropy))
      case Some(generation) => (Db(true, generation, 1, 0, None, Stored(map[], counters), map[]), Ok(()))
  }

  function NextSnapshot(db: Db, core: string, deltas: seq<Counter>, at: int): Snapshot {
    Snapshot(db.generation, db.next, at, core, deltas)
  }

  ghost function Captured(db: Db, core: string, counters: seq<Counter>, at: int, reset: bool,
                          maxBytes: int, size: Snapshot -> nat): (Db, Result<(), Error>)
  {
    if !db.active then (db, Err(NotActive))
    else
      var b, deltas := Stored(db.baseline, counters), Deltas(db.baseline, counters, reset);
      if deltas == [] then (db.(baseline := b), Ok(()))
      else
        var snapshot := NextSnapshot(db, core, deltas, at);
        if size(snapshot) + Total(db.snapshots, size) > maxBytes then (db, Err(QueueLimit))
        else (db.(baseline := b, snapshots := db.snapshots[db.next := snapshot],
                  next := db.next + 1, lastCaptured := Some(at)), Ok(()))
  }

  function Acked(db: Db, generation: string, through: nat): (Db, Result<(), Error>) {
    if generation == "" || generation != db.generation then (db, Err(GenerationMismatch))
    else if through > Latest(db) then (db, Err(AckAhead))
    else if through <= db.acked then (db, Ok(()))
    else (db.(acked := through, snapshots := Above(db.snapshots, through)), Ok(()))
  }

  function Latest(db: Db): nat {
    if db.next > 0 then db.next - 1 else 0
  }

  // ---------------------------------------------------------------- what a sample does to one counter

  ghost predicate DistinctKeys(counters: seq<Counter>) {
    forall i, j :: 0 <= i < j < |counters| ==> Key(counters[i]) != Key(counters[j])
  }

  /** What a list of deltas bills to one key. */
  function Bill(deltas: seq<Counter>, key: string): int {
    if deltas == [] then 0
    else
      var c := deltas[|deltas| - 1];
      Bill(deltas[..|deltas| - 1], key) + if Key(c) == key then c.value else 0
  }

  lemma KeyIgnoresValue(c: Counter, v: Int64)
    ensures Key(c.(value := v)) == Key(c)
  {
  }

  lemma BillAppend(deltas: seq<Counter>, c: Counter, key: string)
    ensures Bill(deltas + [c], key) == Bill(deltas, key) + if Key(c) == key then c.value else 0
  {
    assert (deltas + [c])[..|deltas|] == deltas;
  }

  /** What one counter is charged against a baseline. */
  function Charge(baseline: map<string, Int64>, c: Counter, reset: bool): (charge: int)
    ensures charge >= 0
  {
    var d := Delta(Baseline(baseline, Key(c)), c, reset);
    if d > 0 then d else 0
  }

  /** One turn of the loop. */
  lemma DeltasStep(baseline: map<string, Int64>, prefix: seq<Counter>, c: Counter, reset: bool, key: string)
    ensures Bill(Deltas(baseline, prefix + [c], reset), key) ==
            Bill(Deltas(baseline, prefix, reset), key) + if Key(c) ==
                key then Charge(Stored(baseline, prefix), c, reset) else 0
  {
    assert (prefix + [c])[..|prefix|] == prefix;
    var d := Delta(Baseline(Stored(baseline, prefix), Key(c)), c, reset);
    var deltas := Deltas(baseline, prefix, reset);
    KeyIgnoresValue(c, d);
    BillAppend(deltas, c.(value := d), key);
    assert deltas + [] == deltas;
  }

  lemma StoredStep(baseline: map<string, Int64>, prefix: seq<Counter>, c: Counter)
    ensures Stored(baseline, prefix + [c]) == Stored(baseline, prefix)[Key(c) := c.value]
  {
    assert (prefix + [c])[..|prefix|] == prefix;
  }

  lemma {:induction false} StoredAbsent(baseline: map<string, Int64>, counters: seq<Counter>, key: string)
    requires forall i :: 0 <= i < |counters| ==> Key(counters[i]) != key
    ensures key in Stored(baseline, counters) <==> key in baseline
    ensures Baseline(Stored(baseline, counters), key) == Baseline(baseline, key)
  {
    if counters != [] {
      var n := |counters| - 1;
      var prefix, last := counters[..n], counters[n];
      assert forall j :: 0 <= j < n ==> prefix[j] == counters[j];
      StoredAbsent(baseline, prefix, key);
      PutElsewhere(Stored(baseline, prefix), Key(last), last.value, key);
    }
  }

  lemma PutElsewhere(baseline: map<string, Int64>, k: string, v: Int64, key: string)
    requires k != key
    ensures key in baseline[k := v] <==> key in baseline
    ensures Baseline(baseline[k := v], key) == Baseline(baseline, key)
  {
  }

  lemma {:induction false} StoredPresent(baseline: map<string, Int64>, counters: seq<Counter>, i: nat)
    requires i < |counters| && DistinctKeys(counters)
    ensures Key(counters[i]) in Stored(baseline, counters)
    ensures Stored(baseline, counters)[Key(counters[i])] == counters[i].value
  {
    var n := |counters| - 1;
    assert counters[..n] + [counters[n]] == counters;
    StoredStep(baseline, counters[..n], counters[n]);
    if i < n {
      assert counters[..n][i] == counters[i];
      StoredPresent(baseline, counters[..n], i);
    }
  }

  lemma StoredLookup(baseline: map<string, Int64>, counters: seq<Counter>, key: string)
    requires DistinctKeys(counters)
    ensures forall i :: 0 <= i < |counters| && Key(counters[i]) == key ==>
              key in Stored(baseline, counters) && Stored(baseline, counters)[key] == counters[i].value
    ensures (forall i :: 0 <= i < |counters| ==> Key(counters[i]) != key) ==>
              Baseline(Stored(baseline, counters), key) == Baseline(baseline, key)
  {
    if i :| 0 <= i < |counters| && Key(counters[i]) == key {
      StoredPresent(baseline, counters, i);
      assert forall j :: 0 <= j < |counters| && Key(counters[j]) == key ==> j == i;
    } else {
      StoredAbsent(baseline, counters, key);
    }
  }

  /** A key the sample does not mention is billed nothing. */
  lemma {:induction false} DeltasAbsent(baseline: map<string, Int64>, counters: seq<Counter>, reset: bool, key: string)
    requires forall i :: 0 <= i < |counters| ==> Key(counters[i]) != key
    ensures Bill(Deltas(baseline, counters, reset), key) == 0
  {
    if counters != [] {
      var n := |counters| - 1;
      var prefix := counters[..n];
      assert forall j :: 0 <= j < n ==> prefix[j] == counters[j];
      assert prefix + [counters[n]] == counters;
      DeltasAbsent(baseline, prefix, reset, key);
      DeltasStep(baseline, prefix, counters[n], reset, key);
    }
  }

  lemma DeltasLast(baseline: map<string, Int64>, prefix: seq<Counter>, c: Counter, reset: bool)
    requires DistinctKeys(prefix) && forall i :: 0 <= i < |prefix| ==> Key(prefix[i]) != Key(c)
    ensures Bill(Deltas(baseline, prefix + [c], reset), Key(c)) == Charge(baseline, c, reset)
  {
    DeltasStep(baseline, prefix, c, reset, Key(c));
    DeltasAbsent(baseline, prefix, reset, Key(c));
    StoredAbsent(baseline, prefix, Key(c));
  }

  /** In a sample with distinct keys each counter is compared with the baseline the transaction
      started from, and billed its delta when that is positive. */
  lemma {:induction false} DeltasPresent(baseline: map<string, Int64>, counters: seq<Counter>, reset: bool, i: nat)
    requires i < |counters| && DistinctKeys(counters)
    ensures Bill(Deltas(baseline, counters, reset), Key(counters[i])) == Charge(baseline, counters[i], reset)
  {
    var n := |counters| - 1;
    var prefix, c := counters[..n], counters[n];
    assert forall j :: 0 <= j < n ==> prefix[j] == counters[j];
    assert prefix + [c] == counters;
    if i < n {
      DeltasStep(baseline, prefix, c, reset, Key(counters[i]));
      DeltasPresent(baseline, prefix, reset, i);
    } else {
      DeltasLast(baseline, prefix, c, reset);
    }
  }

  /** Why a sample must hold one counter per key: taken again with no new traffic at all, a sample with
      two readings under one key bills the larger of them once more, unless they are equal. */
  lemma SharedKeyBillsAgain(baseline: map<string, Int64>, a: Counter, b: Counter)
    requires Key(a) == Key(b) && a.value >= 0 && b.value >= 0
    ensures var after := Stored(baseline, [a, b]);
            && Stored(after, [a, b]) == after
            && Bill(Deltas(after, [a, b], false), Key(a)) ==
               if a.value == b.value then 0 else if a.value > b.value then a.value else b.value
  {
    var k := Key(a);
    StoredTwo(baseline, a, b);
    var after := Stored(baseline, [a, b]);
    StoredTwo(after, a, b);
    assert Stored(after, [a, b]) == after;
    BillOfBoth(after, a, b, k);
  }

  lemma BillOfBoth(baseline: map<string, Int64>, a: Counter, b: Counter, k: string)
    requires Key(a) == k && Key(b) == k
    ensures Bill(Deltas(baseline, [a, b], false), k) ==
            Charge(baseline, a, false) + Charge(baseline[k := a.value], b, false)
  {
    assert [] + [a] == [a] && [a] + [b] == [a, b];
    DeltasStep(baseline, [], a, false, k);
    DeltasStep(baseline, [a], b, false, k);
    StoredStep(baseline, [], a);
  }

  lemma StoredTwo(baseline: map<string, Int64>, a: Counter, b: Counter)
    ensures Stored(baseline, [a, b]) == baseline[Key(a) := a.value][Key(b) := b.value]
  {
    assert [a, b][..1] == [a] && [a][..0] == [];
    assert Stored(baseline, [a]) == baseline[Key(a) := a.value];
  }

  // ---------------------------------------------------------------- queue shape

  /** The durable queue against the list of every snapshot committed since activation. */
  ghost predicate Queue(db: Db, log: seq<Snapshot>) {
    if db.active then
      && db.generation != ""
      && db.next == |log| + 1
      && db.acked <= |log|
      && (forall i :: i in db.snapshots <==> db.acked < i <= |log|)
      && (forall i :: db.acked < i <= |log| ==> db.snapshots[i] == log[i - 1])
      && (forall i :: 0 <= i < |log| ==> log[i].sequence == i + 1 && log[i].generation == db.generation)
    else
      db == EMPTY_DB && log == []
  }

  /** The unacknowledged part of the log, which is what Pull reads. */
  ghost function Unacked(db: Db, log: seq<Snapshot>): seq<Snapshot>
    requires Queue(db, log)
  {
    log[db.acked..]
  }

  /** The bytes of the queue. */
  ghost predicate WithinLimit(db: Db, maxBytes: int, size: Snapshot -> nat) { Total(db.snapshots, size) <= maxBytes }

  /** A capture with something to queue is refused exactly when the queue with it would exceed the limit. */
  lemma RefusedIffOverLimit(db: Db, log: seq<Snapshot>, core: string, counters: seq<Counter>, at: int, reset: bool,
                            maxBytes: int, size: Snapshot -> nat)
    requires Queue(db, log) && db.active && Deltas(db.baseline, counters, reset) != []
    ensures var queue := db.snapshots[db.next := NextSnapshot(db, core, Deltas(db.baseline, counters, reset), at)];
            var (db', r) := Captured(db, core, counters, at, reset, maxBytes, size);
            && (r == Err(QueueLimit) <==> Total(queue, size) > maxBytes)
            && (r.Ok? <==> db'.snapshots == queue && db'.next == db.next + 1)
  {
    var snapshot := NextSnapshot(db, core, Deltas(db.baseline, counters, reset), at);
    assert db.next !in db.snapshots;
    TotalPut(db.snapshots, db.next, snapshot, size);
  }

  lemma CapturedKeepsLimit(db: Db, log: seq<Snapshot>, core: string, counters: seq<Counter>, at: int, reset: bool,
                           maxBytes: int, size: Snapshot -> nat)
    requires Queue(db, log) && WithinLimit(db, maxBytes, size)
    ensures WithinLimit(Captured(db, core, counters, at, reset, maxBytes, size).0, maxBytes, size)
  {
    if db.active && Deltas(db.baseline, counters, reset) != [] {
      RefusedIffOverLimit(db, log, core, counters, at, reset, maxBytes, size);
    }
  }

  lemma AckedKeepsLimit(db: Db, generation: string, through: nat, maxBytes: int, size: Snapshot -> nat)
    requires WithinLimit(db, maxBytes, size)
    ensures WithinLimit(Acked(db, generation, through).0, maxBytes, size)
  {
    TotalOfPart(db.snapshots, Above(db.snapshots, through), size);
  }

  ghost function LogAfter(db: Db, log: seq<Snapshot>, db': Db): seq<Snapshot> {
    if db'.active && db.active && db'.next == db.next + 1
        && db.next in db'.snapshots then log + [db'.snapshots[db.next]] else log
  }

  lemma CapturedKeepsQueue(db: Db, log: seq<Snapshot>, core: string, counters: seq<Counter>, at: int, reset: bool,
                           maxBytes: int, size: Snapshot -> nat)
    requires Queue(db, log)
    ensures var (db', r) := Captured(db, core, counters, at, reset, maxBytes, size);
            Queue(db', LogAfter(db, log, db')) && (r.Err? ==> db' == db)
    ensures var (db', r) := Captured(db, core, counters, at, reset, maxBytes, size);
            r.Ok? ==> var deltas := Deltas(db.baseline, counters, reset);
                      db'.baseline == Stored(db.baseline, counters) &&
                      LogAfter(db, log, db') == log
                          + (if deltas == [] then [] else [NextSnapshot(db, core, deltas, at)])
  {
    var deltas := Deltas(db.baseline, counters, reset);
    var (db', r) := Captured(db, core, counters, at, reset, maxBytes, size);
    if db' != db && deltas != [] {
      QueueAppended(db, log, NextSnapshot(db, core, deltas, at), db');
    } else {
      assert LogAfter(db, log, db') == log && log + [] == log;
    }
  }

  lemma QueueAppended(db: Db, log: seq<Snapshot>, snapshot: Snapshot, db': Db)
    requires Queue(db, log) && db.active && snapshot.generation == db.generation && snapshot.sequence == db.next
    requires db' == db.(baseline := db'.baseline, lastCaptured := db'.lastCaptured,
                        snapshots := db.snapshots[db.next := snapshot], next := db.next + 1)
    ensures Queue(db', log + [snapshot]) && LogAfter(db, log, db') == log + [snapshot]
  {
  }

  lemma AckedKeepsQueue(db: Db, log: seq<Snapshot>, generation: string, through: nat)
    requires Queue(db, log)
    ensures var (db', r) := Acked(db, generation, through);
            && Queue(db', log)
            && (r.Ok? <==> db.active && generation == db.generation && through <= |log|)
            && db'.acked == (if r.Ok? && through > db.acked then through else db.acked)
            && db' == db.(acked := db'.acked, snapshots := db'.snapshots)
  {
    var (db', r) := Acked(db, generation, through);
  }

  /** Where a cursor lands in the queue. */
  lemma SeekQueue(db: Db, log: seq<Snapshot>, from: nat, key: Option<nat>)
    requires Queue(db, log)
    requires key.None? <==> forall j :: j in db.snapshots ==> j < from
    requires key.Some? ==> key.value in db.snapshots && from <= key.value
    requires key.Some? ==> forall j :: j in db.snapshots && from <= j ==> key.value <= j
    ensures db.active ==> (key.Some? <==> db.acked < |log| && from <= |log|)
    ensures key.Some? ==> db.active && key.value == if from <= db.acked then db.acked + 1 else from
  {
    if db.active {
      var first := if from <= db.acked then db.acked + 1 else from;
      assert first in db.snapshots <==> first <= |log|;
    }
  }

  /** Where a pull stops that has already taken `n` snapshots worth `used` bytes. */
  function FitFrom(queue: seq<Snapshot>, n: nat, used: int, limit: nat, room: int, size: Snapshot -> nat): (m: nat)
    requires n <= |queue| && n <= limit
    ensures n <= m <= |queue| && m <= limit
    decreases |queue| - n
  {
    if n == |queue| || n == limit || used + size(queue[n]) > room then n
    else FitFrom(queue, n + 1, used + size(queue[n]), limit, room, size)
  }

  /** How many leading snapshots a pull returns. */
  function Fitting(queue: seq<Snapshot>, limit: nat, room: int, size: Snapshot -> nat): (n: nat)
    ensures n <= |queue| && n <= limit
  {
    FitFrom(queue, 0, 0, limit, room, size)
  }

  function Bytes(queue: seq<Snapshot>, n: nat, size: Snapshot -> nat): nat
    requires n <= |queue|
  {
    if n == 0 then 0 else Bytes(queue, n - 1, size) + size(queue[n - 1])
  }

  lemma {:induction false} FitFromIsGreatest(queue: seq<Snapshot>, n: nat, limit: nat, room: int, size: Snapshot -> nat)
    requires n <= |queue| && n <= limit && Bytes(queue, n, size) <= room
    ensures var m := FitFrom(queue, n, Bytes(queue, n, size), limit, room, size);
            Bytes(queue, m, size) <= room && (m < |queue| ==> m == limit || Bytes(queue, m + 1, size) > room)
    decreases |queue| - n
  {
    if n < |queue| && n < limit && Bytes(queue, n, size) + size(queue[n]) <= room {
      FitFromIsGreatest(queue, n + 1, limit, room, size);
    }
  }

  /** The pulled prefix respects both limits and cannot be extended. */
  lemma FittingIsGreatest(queue: seq<Snapshot>, limit: nat, room: nat, size: Snapshot -> nat)
    ensures var n := Fitting(queue, limit, room, size);
            Bytes(queue, n, size) <= room && (n < |queue| ==> n == limit || Bytes(queue, n + 1, size) > room)
  {
    FitFromIsGreatest(queue, 0, limit, room, size);
  }

  datatype PullResponse = PullResponse(generation: string, snapshots: seq<Snapshot>, hasMore: bool)

  datatype Status = Status(active: bool, generation: string, oldest: nat, latest: nat, acked: nat,
                           pending: nat, bytes: nat, lastCaptured: Option<int>)

  /** The status an observer sees of a queue: its unacknowledged part, its ends and its size. */
  ghost function StatusOf(db: Db, log: seq<Snapshot>, size: Snapshot -> nat): Status
    requires Queue(db, log)
  {
    Status(db.active, db.generation, if |Unacked(db, log)| > 0 then db.acked + 1 else 0, |log|, db.acked,
           |Unacked(db, log)|, Total(db.snapshots, size), db.lastCaptured)
  }

  const PULL_LIMIT := 500
  const PULL_BYTES := 4 * 1024 * 1024

  function EffectiveLimit(limit: int): (r: nat)
    ensures 1 <= limit <= 500 ==> r == limit
    ensures limit < 1 || 500 < limit ==> r == 500
  {
    if limit <= 0 || limit > PULL_LIMIT then PULL_LIMIT else limit
  }

  function EffectiveBytes(maxBytes: int): (r: nat)
    ensures 1 <= maxBytes <= 4_194_304 ==> r == maxBytes
    ensures maxBytes < 1 || 4_194_304 < maxBytes ==> r == 4_194_304
  {
    if maxBytes <= 0 || maxBytes > PULL_BYTES then PULL_BYTES else maxBytes
  }

  /** The last sequence a pull at a cursor skips: the cursor, or the acknowledged sequence when that is
      higher. The largest uint64 has no successor to seek, and starts over from the front. */
  function Skipped(after: UInt64, acked: nat): nat {
    if after < TWO_64 - 1 && after > acked then after else acked
  }

  /** What a consumer that has seen everything up to `after` is still owed. */
  ghost function Owed(db: Db, log: seq<Snapshot>, after: UInt64): seq<Snapshot>
    requires Queue(db, log)
  {
    if Skipped(after, db.acked) <= |log| then log[Skipped(after, db.acked)..] else []
  }

  /** One turn of the counter loop of Capture. */
  method CompareOne(baseline: map<string, Int64>, deltas: seq<Counter>, c: Counter, reset: bool)
    returns (baseline': map<string, Int64>, deltas': seq<Counter>)
    ensures baseline' == baseline[Key(c) := c.value]
    ensures var d := Delta(Baseline(baseline, Key(c)), c, reset); deltas' == deltas + if d > 0 then [c.(value := d)]
              else []
  {
    var key := Key(c);
    var previous := if key in baseline then baseline[key] else 0;
    var delta := Sub64(c.value, previous);
    if (reset && c.kind != "forwarding") || delta < 0 {
      delta := c.value;
    }
    deltas' := deltas;
    if delta > 0 {
      deltas' := deltas + [c.(value := delta)];
    }
    baseline' := baseline[key := c.value];
  }

  /** What is owed is an interval of the bucket. */
  lemma OwedInBucket(db: Db, log: seq<Snapshot>, after: UInt64) returns (first: nat)
    requires Queue(db, log) && db.active
    ensures UInc64(after) <= first
    ensures forall i :: i in db.snapshots && UInc64(after) <= i <==> first <= i < first + |Owed(db, log, after)|
    ensures forall i :: first <= i < first + |Owed(db, log, after)| ==>
              db.snapshots[i] == Owed(db, log, after)[i - first]
  {
    first := if UInc64(after) <= db.acked then db.acked + 1 else UInc64(after);
  }

  /** The counter loop of Capture. */
  method Compare(stored: map<string, Int64>, counters: seq<Counter>, reset: bool)
    returns (baseline: map<string, Int64>, deltas: seq<Counter>)
    ensures baseline == Stored(stored, counters) && deltas == Deltas(stored, counters, reset)
  {
    baseline, deltas := stored, [];
    for i := 0 to |counters|
      invariant baseline == Stored(stored, counters[..i]) && deltas == Deltas(stored, counters[..i], reset)
    {
      assert counters[..i + 1][..i] == counters[..i];
      baseline, deltas := CompareOne(baseline, deltas, counters[i], reset);
    }
    assert counters[..|counters|] == counters;
  }

  /** The cursor loop of Pull, over a bucket whose keys from `from` on are an interval holding `owed`. */
  method Collect(snapshots: map<nat, Snapshot>, from: nat, limit: nat, maxBytes: nat, size: Snapshot -> nat,
                 ghost owed: seq<Snapshot>, ghost first: nat)
    returns (batch: seq<Snapshot>, more: bool)
    requires from <= first
    requires forall i :: i in snapshots && from <= i <==> first <= i < first + |owed|
    requires forall i :: first <= i < first + |owed| ==> snapshots[i] == owed[i - first]
    ensures var n := Fitting(owed, limit, maxBytes, size); batch == owed[..n] && more == (n < |owed|)
  {
    batch, more := [], false;
    var used := 0;
    ghost var stop := Fitting(owed, limit, maxBytes, size);
    var key := Seek(snapshots, from);
    assert owed != [] ==> first in snapshots;
    while key.Some?
      invariant |batch| <= |owed| && batch == owed[..|batch|] && |batch| <= limit
      invariant key.Some? <==> |batch| < |owed|
      invariant key.Some? ==> key.value == first + |batch|
      invariant FitFrom(owed, |batch|, used, limit, maxBytes, size) == stop
      decreases |owed| - |batch|
    {
      var value := snapshots[key.value];
      if |batch| >= limit || used + size(value) > maxBytes {
        more := true;
        break;
      }
      assert owed[..|batch| + 1] == owed[..|batch|] + [value];
      batch, used := batch + [value], used + size(value);
      ghost var next := key.value + 1;
      key := Seek(snapshots, key.value + 1);
      assert |batch| < |owed| ==> next in snapshots;
    }
  }

  /** A write transaction works on a private copy of the database and commits it by one assignment. */
  class Store {
    var db: Db
    ghost var log: seq<Snapshot>
    const maxBytes: int
    const size: Snapshot -> nat

    ghost predicate Valid() reads this { Queue(db, log) && WithinLimit(db, maxBytes, size) }

    /** Open on an empty file. */
    constructor (maxBytes: int, size: Snapshot -> nat)
      ensures Valid() && db == EMPTY_DB && log == []
      ensures this.maxBytes == (if maxBytes <= 0 then 256 * 1024 * 1024 else maxBytes) && this.size == size
    {
      db, log := EMPTY_DB, [];
      this.maxBytes := if maxBytes <= 0 then 256 * 1024 * 1024 else maxBytes;
      this.size := size;
    }

    method Activate(counters: seq<Counter>, id: Option<string>) returns (r: Result<Status, Error>)
      requires Valid() && (id.Some? ==> id.value != "")
      modifies this
      ensures Valid() && (old(db.active) ==> log == old(log)) && (!old(db.active) ==> log == [])
      ensures db == Activated(old(db), counters, id).0
      ensures r.Ok? <==> Activated(old(db), counters, id).1.Ok?
      ensures r.Ok? ==> r.value == StatusOf(db, log, size)
    {
      if !db.active {
        if id.None? {
          return Err(NoEntropy);
        }
        var tx := db.(active := true, generation := id.value, next := 1, acked := 0, lastCaptured := None,
                      baseline := map[], snapshots := map[]);
        for i := 0 to |counters|
          invariant tx == Db(true, id.value, 1, 0, None, Stored(map[], counters[..i]), map[])
        {
          assert counters[..i + 1][..i] == counters[..i];
          tx := tx.(baseline := tx.baseline[Key(counters[i]) := counters[i].value]);
        }
        assert counters[..|counters|] == counters;
        db := tx;
        log := [];
      }
      var status := GetStatus();
      return Ok(status);
    }

    method SnapshotBytes() returns (total: nat)
      ensures total == Total(db.snapshots, size)
    {
      total := 0;
      var rest := db.snapshots;
      while rest != map[]
        invariant rest.Keys <= db.snapshots.Keys
        invariant forall k :: k in rest ==> rest[k] == db.snapshots[k]
        invariant total + Total(rest, size) == Total(db.snapshots, size)
        decreases |rest|
      {
        var k :| k in rest.Keys;
        TotalRemove(rest, k, size);
        total := total + size(rest[k]);
        rest := rest - {k};
      }
    }

    method Capture(core: string, counters: seq<Counter>, at: int, reset: bool) returns (r: Result<(), Error>)
      requires Valid()
      modifies this
      ensures Valid() && log == LogAfter(old(db), old(log), db)
      ensures (db, r) == Captured(old(db), core, counters, at, reset, maxBytes, size)
    {
      CapturedKeepsQueue(db, log, core, counters, at, reset, maxBytes, size);
      CapturedKeepsLimit(db, log, core, counters, at, reset, maxBytes, size);
      if !db.active {
        return Err(NotActive);
      }
      var baseline, deltas := Compare(db.baseline, counters, reset);
      if deltas == [] {
        db := db.(baseline := baseline);
        return Ok(());
      }
      var snapshot := Snapshot(db.generation, db.next, at, core, deltas);
      var queued := SnapshotBytes();
      if size(snapshot) + queued > maxBytes {
        return Err(QueueLimit);
      }
      log := log + [snapshot];
      db := db.(baseline := baseline, snapshots := db.snapshots[db.next := snapshot],
                next := db.next + 1, lastCaptured := Some(at));
      return Ok(());
    }

    method Pull(after: UInt64, limit: int, maxPull: int) returns (r: Result<PullResponse, Error>)
      requires Valid()
      ensures r.Ok? <==> db.active
      ensures r.Ok? ==>
                var owed := Owed(db, log, after);
                var n := Fitting(owed, EffectiveLimit(limit), EffectiveBytes(maxPull), size);
                r.value == PullResponse(db.generation, owed[..n], n < |owed|)
      ensures r.Ok? ==> forall i :: 0 <= i < |r.value.snapshots| ==>
                r.value.snapshots[i].sequence ==
                  (if after < 0xffff_ffff_ffff_ffff && after > db.acked then after else db.acked) + 1 + i
    {
      if !db.active {
        return Err(NotActive);
      }
      ghost var first := OwedInBucket(db, log, after);
      var batch, more := Collect(db.snapshots, UInc64(after), EffectiveLimit(limit), EffectiveBytes(maxPull), size,
                                 Owed(db, log, after), first);
      return Ok(PullResponse(db.generation, batch, more));
    }

    method Ack(generation: string, through: nat) returns (r: Result<Status, Error>)
      requires Valid()
      modifies this
      ensures Valid() && log == old(log)
      ensures db == Acked(old(db), generation, through).0
      ensures match Acked(old(db), generation, through).1
              case Ok(_) => r == Ok(StatusOf(db, log, size))
              case Err(error) => r == Err(error)
    {
      AckedKeepsQueue(db, log, generation, through);
      AckedKeepsLimit(db, generation, through, maxBytes, size);
      if generation == "" || generation != db.generation {
        return Err(GenerationMismatch);
      }
      var latest := db.next;
      if latest > 0 {
        latest := latest - 1;
      }
      if through > latest {
        return Err(AckAhead);
      }
      if through > db.acked {
        var rest := DeleteThrough(db.snapshots, through);
        db := db.(acked := through, snapshots := rest);
      }
      var status := GetStatus();
      return Ok(status);
    }

    method GetStatus() returns (status: Status)
      requires Valid()
      ensures status == StatusOf(db, log, size)
    {
      var bytes := SnapshotBytes();
      var oldest, pending := 0, 0;
      var key := Seek(db.snapshots, 0);
      SeekQueue(db, log, 0, key);
      if key.Some? {
        oldest := key.value;
      }
      ghost var queue := Unacked(db, log);
      while key.Some?
        invariant pending <= |queue|
        invariant key.None? ==> pending == |queue|
        invariant key.Some? ==> pending < |queue| && key.value == db.acked + 1 + pending
        decreases |queue| - pending, key.Some?
      {
        pending := pending + 1;
        ghost var next := key.value + 1;
        key := Seek(db.snapshots, key.value + 1);
        SeekQueue(db, log, next, key);
      }
      status := Status(db.active, db.generation, oldest, if db.next > 0 then db.next - 1 else 0, db.acked,
                       pending, bytes, db.lastCaptured);
    }
  }

  // ---------------------------------------------------------------- delivery

  /** One round of the panel: pull after the last acknowledged sequence, then acknowledge the last
      snapshot received. */
  method Round(store: Store, limit: int, maxPull: int) returns (batch: seq<Snapshot>)
    requires store.Valid() && store.db.active && |store.log| + 1 < TWO_64
    modifies store
    ensures store.Valid() && store.log == old(store.log) && store.db.active
    ensures store.db.acked == old(store.db.acked) +
            Fitting(Unacked(old(store.db), store.log), EffectiveLimit(limit), EffectiveBytes(maxPull), store.size)
    ensures store.db.acked <= |store.log| && batch == store.log[old(store.db.acked)..store.db.acked]
  {
    var pulled := store.Pull(store.db.acked, limit, maxPull);
    batch := pulled.value.snapshots;
    assert Owed(store.db, store.log, store.db.acked) == Unacked(store.db, store.log);
    if batch != [] {
      ghost var before, log := store.db, store.log;
      assert batch[|batch| - 1] == log[before.acked + |batch| - 1];
      AckedKeepsQueue(before, log, before.generation, before.acked + |batch|);
      var status := store.Ack(pulled.value.generation, batch[|batch| - 1].sequence);
    }
  }

  /** What one round hands over fits; when it hands over nothing, the next snapshot does not. */
  lemma RoundFits(log: seq<Snapshot>, acked: nat, limit: nat, room: nat, size: Snapshot -> nat)
    requires acked <= |log| && limit > 0
    ensures var n := Fitting(log[acked..], limit, room, size);
            && (forall i :: acked <= i < acked + n ==> size(log[i]) <= room)
            && (n == 0 && acked < |log| ==> size(log[acked]) > room)
  {
    var queue := log[acked..];
    FittingEachFits(queue, limit, room, size);
    assert forall i :: acked <= i < |log| ==> log[i] == queue[i - acked];
  }

  datatype Sample = Sample(core: string, counters: seq<Counter>, at: int, reset: bool)

  /** A capture that commits between two rounds only adds to the end of the log. */
  method CaptureBetween(store: Store, sample: Sample)
    requires store.Valid() && store.db.active
    modifies store
    ensures store.Valid() && store.db.active && store.db.acked == old(store.db.acked)
    ensures |store.log| <= |old(store.log)| + 1 && Extends(old(store.log), store.log)
  {
    var r := store.Capture(sample.core, sample.counters, sample.at, sample.reset);
  }

  /** A round, perhaps after a capture. */
  method RoundAfter(store: Store, sample: Option<Sample>, limit: int, maxPull: int) returns (batch: seq<Snapshot>)
    requires store.Valid() && store.db.active && |store.log| + 1 + (if sample.Some? then 1 else 0) < TWO_64
    modifies store
    ensures store.Valid() && store.db.active && Extends(old(store.log), store.log)
    ensures |store.log| <= |old(store.log)| + if sample.Some? then 1 else 0
    ensures old(store.db.acked) <= store.db.acked <= |store.log|
    ensures batch == store.log[old(store.db.acked)..store.db.acked]
    ensures forall i :: old(store.db.acked) <= i < store.db.acked ==>
              store.size(store.log[i]) <= EffectiveBytes(maxPull)
    ensures batch == [] && store.db.acked < |store.log| ==>
              store.size(store.log[store.db.acked]) > EffectiveBytes(maxPull)
  {
    if sample.Some? {
      CaptureBetween(store, sample.value);
    }
    RoundFits(store.log, store.db.acked, EffectiveLimit(limit), EffectiveBytes(maxPull), store.size);
    batch := Round(store, limit, maxPull);
  }

  ghost predicate Extends(before: seq<Snapshot>, after: seq<Snapshot>) {
    |before| <= |after| && forall i :: 0 <= i < |before| ==> after[i] == before[i]
  }

  /** What was delivered so far stays a stretch of the log as the log grows. */
  lemma DeliveredMore(before: seq<Snapshot>, after: seq<Snapshot>, start: nat, acked: nat, acked': nat)
    requires Extends(before, after) && start <= acked <= |before| && acked <= acked' <= |after|
    ensures before[start..acked] + after[acked..acked'] == after[start..acked']
  {
  }

  /** A consumer that repeats such rounds, while captures commit between them, until a round after the
      last capture brings nothing: it has received, once each and in capture order, everything it
      acknowledged, and it has emptied the queue exactly when every snapshot fits in a single pull. */
  method Drain(store: Store, limit: int, maxPull: int, between: seq<Sample>) returns (delivered: seq<Snapshot>)
    requires store.Valid() && store.db.active && |store.log| + |between| + 1 < TWO_64
    modifies store
    ensures store.Valid() && store.db.active && Extends(old(store.log), store.log)
    ensures old(store.db.acked) <= store.db.acked <= |store.log|
    ensures delivered == store.log[old(store.db.acked)..store.db.acked]
    ensures store.db.acked == |store.log| <==>
            forall i :: old(store.db.acked) <= i < |store.log| ==> store.size(store.log[i]) <= EffectiveBytes(maxPull)
  {
    ghost var start, log, room := store.db.acked, store.log, EffectiveBytes(maxPull);
    delivered := [];
    var more, next := true, 0;
    while more
      invariant store.Valid() && store.db.active && next <= |between| && |store.log| <= |log| + next
      invariant Extends(log, store.log)
      invariant start <= store.db.acked <= |store.log| && delivered == store.log[start..store.db.acked]
      invariant forall i :: start <= i < store.db.acked ==> store.size(store.log[i]) <= room
      invariant !more ==> next == |between|
      invariant !more && store.db.acked < |store.log| ==> store.size(store.log[store.db.acked]) > room
      decreases |between| - next, |store.log| - store.db.acked, more
    {
      ghost var before, acked := store.log, store.db.acked;
      var sample := if next < |between| then Some(between[next]) else None;
      var batch := RoundAfter(store, sample, limit, maxPull);
      DeliveredMore(before, store.log, start, acked, store.db.acked);
      delivered := delivered + batch;
      next := if next < |between| then next + 1 else next;
      more := batch != [] || next < |between|;
    }
  }

  /** A consumer that reads ahead with a cursor of its own and acknowledges nothing, while captures commit
      between its pulls, gets every snapshot above its start once and in capture order, up to the first
      that does not fit in a single pull. */
  method ReadAhead(store: Store, cursor: nat, limit: int, maxPull: int, between: seq<Sample>)
    returns (delivered: seq<Snapshot>, ghost reached: nat)
    requires store.Valid() && store.db.active && cursor <= |store.log| && |store.log| + |between| + 1 < TWO_64
    modifies store
    ensures store.Valid() && store.db.active && Extends(old(store.log), store.log)
    ensures store.db.acked == old(store.db.acked)
    ensures var start := if cursor < store.db.acked then store.db.acked else cursor;
            && start <= reached <= |store.log| && delivered == store.log[start..reached]
            && (reached == |store.log| <==>
                  forall i :: start <= i < |store.log| ==> store.size(store.log[i]) <= EffectiveBytes(maxPull))
  {
    ghost var start := if cursor < store.db.acked then store.db.acked else cursor;
    ghost var log, room := store.log, EffectiveBytes(maxPull);
    var at: nat := cursor;
    var more, next := true, 0;
    delivered, reached := [], start;
    while more
      invariant store.Valid() && store.db.active && store.db.acked == old(store.db.acked)
      invariant next <= |between| && |store.log| <= |log| + next && Extends(log, store.log)
      invariant start <= reached <= |store.log| && delivered == store.log[start..reached]
      invariant at <= |store.log| && reached == if at < store.db.acked then store.db.acked else at
      invariant forall i :: start <= i < reached ==> store.size(store.log[i]) <= room
      invariant !more ==> next == |between|
      invariant !more && reached < |store.log| ==> store.size(store.log[reached]) > room
      decreases |between| - next, |store.log| - reached, more
    {
      ghost var before, had := store.log, reached;
      if next < |between| {
        CaptureBetween(store, between[next]);
      }
      var batch;
      batch, at, reached := ReadOnce(store, at, limit, maxPull);
      DeliveredMore(before, store.log, start, had, reached);
      delivered := delivered + batch;
      next := if next < |between| then next + 1 else next;
      more := batch != [] || next < |between|;
    }
  }

  /** One pull at the consumer's own cursor, which moves to the last sequence received. */
  method ReadOnce(store: Store, at: nat, limit: int, maxPull: int)
    returns (batch: seq<Snapshot>, at': nat, ghost reached: nat)
    requires store.Valid() && store.db.active && at <= |store.log| && |store.log| + 1 < TWO_64
    ensures var from := if at < store.db.acked then store.db.acked else at;
            && from <= reached <= |store.log| && batch == store.log[from..reached]
            && at' <= |store.log| && reached == (if at' < store.db.acked then store.db.acked else at')
            && (forall i :: from <= i < reached ==> store.size(store.log[i]) <= EffectiveBytes(maxPull))
            && (batch == [] && reached < |store.log| ==> store.size(store.log[reached]) > EffectiveBytes(maxPull))
  {
    ghost var from := if at < store.db.acked then store.db.acked else at;
    var pulled := store.Pull(at, limit, maxPull);
    batch := pulled.value.snapshots;
    assert Owed(store.db, store.log, at) == store.log[from..];
    RoundFits(store.log, from, EffectiveLimit(limit), EffectiveBytes(maxPull), store.size);
    at' := if batch == [] then at else batch[|batch| - 1].sequence;
    reached := from + |batch|;
  }

  /** The queue limit lets in what no pull lets out: such a snapshot is queued and never delivered. */
  lemma OversizedIsStuck(db: Db, core: string, counters: seq<Counter>, at: int, reset: bool, maxBytes: int,
                         size: Snapshot -> nat)
    requires db.active && db.snapshots == map[] && db.generation != "" && db.next == db.acked + 1
    requires var deltas := Deltas(db.baseline, counters, reset);
             deltas != [] && PULL_BYTES < size(NextSnapshot(db, core, deltas, at)) <= maxBytes
    ensures var (db', r) := Captured(db, core, counters, at, reset, maxBytes, size);
            r.Ok? && db'.snapshots == map[db.next := NextSnapshot(db, core, Deltas(db.baseline, counters, reset), at)]
    ensures forall limit, maxPull :: Fitting([NextSnapshot(db, core, Deltas(db.baseline, counters, reset), at)],
                                             EffectiveLimit(limit), EffectiveBytes(maxPull), size) == 0
  {
    var stuck := [NextSnapshot(db, core, Deltas(db.baseline, counters, reset), at)];
    forall limit, maxPull ensures Fitting(stuck, EffectiveLimit(limit), EffectiveBytes(maxPull), size) == 0 {
      FittingEachFits(stuck, EffectiveLimit(limit), EffectiveBytes(maxPull), size);
    }
  }

  lemma {:induction false} BytesBound(queue: seq<Snapshot>, n: nat, i: nat, size: Snapshot -> nat)
    requires i < n <= |queue|
    ensures size(queue[i]) <= Bytes(queue, n, size)
  {
    if i < n - 1 {
      BytesBound(queue, n - 1, i, size);
    }
  }

  lemma FittingEachFits(queue: seq<Snapshot>, limit: nat, room: nat, size: Snapshot -> nat)
    ensures forall i :: 0 <= i < Fitting(queue, limit, room, size) ==> size(queue[i]) <= room
  {
    FittingIsGreatest(queue, limit, room, size);
    forall i | 0 <= i < Fitting(queue, limit, room, size) ensures size(queue[i]) <= room {
      BytesBound(queue, Fitting(queue, limit, room, size), i, size);
    }
  }
}
