/** Which events, policies and acknowledgements the audit store takes up, told from what is handed to it, and
    what they leave behind. */
module AuditTaking {
  import opened Common
  import opened StatName
  import opened AuditStore

  // ---------------------------------------------------------------- who is collected

  lemma {:induction false} SelectedComplete(targets: seq<Target>, t: Target)
    requires UniqueUsers(targets) && t in targets
    ensures Selected(targets, t.userID) == Some(t)
  {
    var n := |targets| - 1;
    if targets[n] != t {
      var i :| 0 <= i <= n && targets[i] == t;
      assert targets[i].userID != targets[n].userID;
      assert targets[..n][i] == t;
      SelectedComplete(targets[..n], t);
    } else {
      assert targets[n].userID == t.userID;
    }
  }

  /** A target takes a connection snapshot: it is the target of the user, the connection is not DNS, its ID
      is a UUID, it was created at a positive time at most a minute ahead, and it did not close before
      collection was enabled. */
  ghost predicate Takes(t: Target, id: string, c: Connection, now: int) {
    && t.userID == UserID(c.user) && c.outboundType != "dns" && IsUUID(id)
    && 0 < c.createdAt && c.createdAt <= (now + 60_000_000_000) / 1_000_000
    && !(0 < c.closedAt < t.enabledAt / 1_000_000)
  }

  /** A target goes on with a record: the record is of its user and window. */
  ghost predicate Continues(t: Target, r: Record) { t.userID == r.userID && t.windowID == r.windowID }

  ghost predicate DeltaFits(r: Record, e: Event) {
    e.kind == 1 ==>
      && 0 <= e.uploadDelta && r.lastUpload + e.uploadDelta <= 0x7fff_ffff_ffff_ffff
      && 0 <= e.downloadDelta && r.lastDownload + e.downloadDelta <= 0x7fff_ffff_ffff_ffff
  }

  /** An event without a snapshot is taken up by a target of the indexed record's user and window. */
  ghost predicate GoesOn(db: Db, t: Target, e: Event) {
    && e.id in db.index && db.index[e.id] in db.records
    && Continues(t, db.records[db.index[e.id]]) && DeltaFits(db.records[db.index[e.id]], e)
  }

  // ---------------------------------------------------------------- what is left behind

  function Filed(db: Db, key: string): Option<Record> { if key in db.records then Some(db.records[key]) else None }

  /** Storing this record would exceed the store's bytes or its number of records. */
  ghost predicate OverLimit(db: Db, key: string, d: Record, shape: Shape) {
    || db.bytes + shape.size(d) - (if key in db.records then shape.size(db.records[key]) else 0) > shape.maxBytes
    || (key !in db.records && db.recordCount >= 50_000)
  }

  /** The record is filed under its key, indexed and pending under the next sequence; over a limit it is
      counted as dropped, and nothing else moves. */
  ghost predicate Files(db: Db, db': Db, key: string, d: Record, id: string, shape: Shape) {
    if OverLimit(db, key, d, shape) then db' == db.(dropped := db.dropped + 1)
    else
      && db'.records == db.records[key := d] && db'.index == db.index[id := key]
      && d.sequence == db.sequence + 1 == db'.sequence && db'.dropped == db.dropped
      && db.sequence + 1 in db'.pending && db'.pending[db.sequence + 1] == key
      && db'.saved == db.saved && db'.generation == db.generation
  }

  /** The latest closing time known, and the visit dated by it or by now, whichever is earlier. */
  ghost predicate Dated(d: Record, before: Option<int>, closed: int, now: int) {
    && d.closedAt == (if closed > 0 then Some(closed * 1_000_000) else before)
    && d.observedAt == (if d.closedAt.Some? && d.closedAt.value < now then d.closedAt.value else now)
  }

  function Later(a: int, b: int): int { if a > b then a else b }

  // ---------------------------------------------------------------- snapshots

  /** The record after a snapshot: the higher of old and new totals, over the old record or a new one. */
  ghost predicate AfterSnapshot(d: Record, previous: Option<Record>, t: Target, e: Event, c: Connection, now: int) {
    && d.connectionID == e.id && d.windowID == t.windowID
    && d.lastUpload == Later(if previous.Some? then previous.value.lastUpload else 0, c.upload)
    && d.lastDownload == Later(if previous.Some? then previous.value.lastDownload else 0, c.download)
    && Dated(d, if previous.Some? then previous.value.closedAt else None, Later(e.closedAt, c.closedAt), now)
    && d.partial == (if previous.Some? then previous.value.partial else c.createdAt * 1_000_000 < t.enabledAt)
    && (previous.None? ==> d.userID == UserID(c.user))
  }

  lemma NotTaken(db: Db, config: Config, e: Event, c: Connection, now: int, shape: Shape)
    requires Sound(config) && e.connection == Some(c)
    requires forall t :: t in config.targets ==> !Takes(t, e.id, c, now)
    ensures AppliedOne(db, config.targets, e, now, shape) == Some(db)
  {
    SelectedIsTarget(config.targets, UserID(c.user));
  }

  lemma Taken(db: Db, config: Config, e: Event, c: Connection, t: Target, now: int, shape: Shape) returns (d: Record)
    requires GoodRecords(db) && Sound(config) && e.connection == Some(c)
    requires t in config.targets && Takes(t, e.id, c, now)
    ensures AppliedOne(db, config.targets, e, now, shape).Some?
    ensures var key := t.windowID + ":" + e.id;
            && AfterSnapshot(d, Filed(db, key), t, e, c, now)
            && Files(db, AppliedOne(db, config.targets, e, now, shape).value, key, d, e.id, shape)
  {
    SelectedComplete(config.targets, t);
    TargetIsNamed(config, t);
    var key := RecordKey(t.windowID, e.id);
    if key in db.records {
      var previous := db.records[key];
      assert GoodRecord(db, key, previous);
      RecordKeyInjective(t.windowID, e.id, previous.windowID, previous.connectionID);
      assert Locate(db, config.targets, e, now) == Update(key, previous);
      d := Finished(Counted(previous, e).value, e, now, db.sequence + 1);
    } else {
      assert Locate(db, config.targets, e, now) == Create(key, t, c);
      d := Finished(Counted(Fresh(t, e, c, shape.describe), e).value, e, now, db.sequence + 1);
    }
  }

  lemma TargetIsNamed(config: Config, t: Target)
    requires Sound(config) && t in config.targets
    ensures t.userID != "" && IsUUID(t.windowID)
  {
    var i :| 0 <= i < |config.targets| && config.targets[i] == t;
    assert IsUserID(config.targets[i].userID);
  }

  /** A connection snapshot is taken up exactly when some target takes it. */
  lemma SnapshotTakenIff(db: Db, config: Config, e: Event, now: int, shape: Shape) returns (d: Record)
    requires GoodRecords(db) && Sound(config) && e.connection.Some?
    ensures AppliedOne(db, config.targets, e, now, shape).Some?
    ensures var c, db' := e.connection.value, AppliedOne(db, config.targets, e, now, shape).value;
            && (db' != db <==> exists t :: t in config.targets && Takes(t, e.id, c, now))
            && forall t :: t in config.targets && Takes(t, e.id, c, now) ==>
                 var key := t.windowID + ":" + e.id;
                 AfterSnapshot(d, Filed(db, key), t, e, c, now) && Files(db, db', key, d, e.id, shape)
  {
    var c := e.connection.value;
    if t :| t in config.targets && Takes(t, e.id, c, now) {
      d := Taken(db, config, e, c, t, now, shape);
      OneTarget(config, t, UserID(c.user));
    } else {
      NotTaken(db, config, e, c, now, shape);
      d := *;
    }
  }

  lemma OneTarget(config: Config, t: Target, user: string)
    requires Sound(config) && t in config.targets && t.userID == user
    ensures forall other :: other in config.targets && other.userID == user ==> other == t
  {
    SelectedComplete(config.targets, t);
    forall other | other in config.targets && other.userID == user ensures other == t {
      SelectedComplete(config.targets, other);
    }
  }

  // ---------------------------------------------------------------- deltas

  ghost predicate AfterDelta(d: Record, r: Record, e: Event, now: int) {
    && d.connectionID == r.connectionID && d.windowID == r.windowID && d.userID == r.userID
    && d.lastUpload == r.lastUpload + (if e.kind == 1 then e.uploadDelta else 0)
    && d.lastDownload == r.lastDownload + (if e.kind == 1 then e.downloadDelta else 0)
    && Dated(d, r.closedAt, e.closedAt, now) && d.partial == (r.partial || e.closedAt > 0)
  }

  lemma NotGoingOn(db: Db, config: Config, e: Event, now: int, shape: Shape)
    requires GoodRecords(db) && IndexSound(db) && Sound(config) && e.connection.None?
    requires forall t :: t in config.targets ==> !GoesOn(db, t, e)
    ensures AppliedOne(db, config.targets, e, now, shape) == Some(db)
  {
    if e.id in db.index {
      var r := db.records[db.index[e.id]];
      assert GoodRecord(db, db.index[e.id], r);
      SelectedIsTarget(config.targets, r.userID);
    }
  }

  lemma GoingOn(db: Db, config: Config, e: Event, t: Target, now: int, shape: Shape) returns (d: Record)
    requires GoodRecords(db) && Sound(config) && e.connection.None? && t in config.targets && GoesOn(db, t, e)
    ensures AppliedOne(db, config.targets, e, now, shape).Some?
    ensures var key := db.index[e.id];
            && AfterDelta(d, db.records[key], e, now)
            && Files(db, AppliedOne(db, config.targets, e, now, shape).value, key, d, e.id, shape)
  {
    var r := db.records[db.index[e.id]];
    SelectedComplete(config.targets, t);
    assert Locate(db, config.targets, e, now) == Update(db.index[e.id], r);
    d := Finished(Counted(r, e).value, e, now, db.sequence + 1);
  }

  /** An event without a snapshot is taken up exactly when the indexed record of its connection is in the
      current window of its user and the new totals fit. */
  lemma DeltaTakenIff(db: Db, config: Config, e: Event, now: int, shape: Shape) returns (d: Record)
    requires GoodRecords(db) && IndexSound(db) && Sound(config) && e.connection.None?
    ensures AppliedOne(db, config.targets, e, now, shape).Some?
    ensures var db' := AppliedOne(db, config.targets, e, now, shape).value;
            && (db' != db <==> exists t :: t in config.targets && GoesOn(db, t, e))
            && (forall t :: t in config.targets && GoesOn(db, t, e) ==>
                  AfterDelta(d, db.records[db.index[e.id]], e, now) && Files(db, db', db.index[e.id], d, e.id, shape))
  {
    if t :| t in config.targets && GoesOn(db, t, e) {
      d := GoingOn(db, config, e, t, now, shape);
    } else {
      NotGoingOn(db, config, e, now, shape);
      d := *;
    }
  }

  /** Apply with a live lease does just this for one event. */
  lemma AppliedToOne(db: Db, config: Config, e: Event, now: int, shape: Shape)
    requires AppliedOne(db, config.targets, e, now, shape).Some?
    ensures Applied(db, config, [e], now, shape) ==
            if now < config.expiresAt then AppliedOne(db, config.targets, e, now, shape).value else db
  {
    assert [e][..0] == [];
    assert AppliedAll(db, config.targets, [], now, shape) == Some(db);
  }

  // ---------------------------------------------------------------- policies, acknowledgements, retention

  /** The policies that are accepted. */
  lemma PolicyTakenIff(config: Config, c: Config, now: int)
    ensures Configured(config, c, now).Ok? <==>
            && 0 <= c.revision <= 9_007_199_254_740_991 && |c.targets| <= 10_000
            && now < c.expiresAt <= now + 300_000_000_000
            && (forall t :: t in c.targets ==>
                  IsUserID(t.userID) && IsUUID(t.windowID) && t.enabledAt != ZERO_TIME
                  && t.enabledAt <= now + 60_000_000_000 && 1 <= t.retentionDays <= 30)
            && (forall i, j :: 0 <= i < j < |c.targets| ==> c.targets[i].userID != c.targets[j].userID)
            && config.revision <= c.revision
            && (c.revision == config.revision && config.expiresAt != ZERO_TIME ==> c.targets == config.targets)
    ensures Configured(config, c, now).Ok? ==> Configured(config, c, now).value == c
  {
    assert forall i :: 0 <= i < |c.targets| ==> c.targets[i] in c.targets;
  }

  /** An acknowledgement counts exactly for this generation and for a sequence that exists. */
  lemma AckTakenIff(db: Db, generation: string, through: nat)
    ensures var (db', r) := Acked(db, generation, through);
            && (r.Ok? <==> generation == db.generation && through <= db.sequence)
            && (r.Err? ==> db' == db)
            && (r.Ok? ==> db' == db.(pending := db'.pending)
                          && forall n :: n in db'.pending <==> n in db.pending && through < n)
  {
  }

  /** A record goes exactly when it was last observed more than a day ago, in nanoseconds. */
  lemma PrunedAfterADay(db: Db, now: int, shape: Shape, k: string)
    requires GoodRecords(db) && k in db.records
    ensures k in Pruned(db, now, shape).records <==> now - db.records[k].observedAt <= 86_400_000_000_000
    ensures k in Pruned(db, now, shape).records ==> Pruned(db, now, shape).records[k] == db.records[k]
  {
    assert GoodRecord(db, k, db.records[k]);
  }
}
