/** The audit store as the collector and the panel use it: Open, Configure, Apply, Pull, Ack, Prune. */
module AuditService {
  import opened Common
  import opened StatName
  import opened AuditStore

  datatype Batch = Batch(generation: string, records: seq<Record>, hasMore: bool)

  const PULL_BYTES := 1024 * 1024

  ghost predicate Listed(records: seq<Record>, n: nat) {
    exists i :: 0 <= i < |records| && records[i].sequence == n
  }

  ghost predicate Below(records: seq<Record>, n: nat) {
    forall i :: 0 <= i < |records| ==> records[i].sequence < n
  }

  /** Pending entry `n` comes next, and one of the limits keeps it out. */
  ghost predicate KeptOut(db: Db, records: seq<Record>, n: nat, limit: nat, size: Record -> nat) {
    && n in db.pending && db.pending[n] in db.records && Below(records, n)
    && (|records| == limit || Weight(records, size) + size(db.records[db.pending[n]]) > PULL_BYTES)
  }

  /** A batch holds the pending records of lowest sequence, in order, as many as the limits allow. */
  ghost predicate Delivers(db: Db, records: seq<Record>, hasMore: bool, limit: nat, size: Record -> nat) {
    && |records| <= limit && Weight(records, size) <= PULL_BYTES
    && (forall i :: 0 <= i < |records| ==> Pending(db, records[i]))
    && (forall i, j :: 0 <= i < j < |records| ==> records[i].sequence < records[j].sequence)
    && (forall n :: n in db.pending && !Listed(records, n) ==> hasMore && Below(records, n))
    && (hasMore ==> exists n :: KeptOut(db, records, n, limit, size))
  }

  ghost predicate Pending(db: Db, r: Record) {
    r.sequence in db.pending && db.pending[r.sequence] in db.records && db.records[db.pending[r.sequence]] == r
  }

  function Weight(records: seq<Record>, size: Record -> nat): nat {
    if records == [] then 0 else Weight(records[..|records| - 1], size) + size(records[|records| - 1])
  }

  class Store {
    const shape: Shape
    var db: Db
    var config: Config
    ghost var acked: nat

    ghost predicate Valid() reads this { Consistent(db, acked, shape) && Sound(config) }

    /** Open on an empty file. */
    constructor (generation: string, shape: Shape)
      requires shape.maxBytes > 0
      ensures Valid() && this.shape == shape && acked == 0 && config == NO_CONFIG
      ensures db == Db(generation, None, map[], map[], map[], 0, 0, 0, 0)
    {
      this.shape := shape;
      db := Db(generation, None, map[], map[], map[], 0, 0, 0, 0);
      config, acked := NO_CONFIG, 0;
    }

    /** Open on an existing file, after an agent restart: a store without a generation gets one, the saved
        policy comes back without its lease, and one that cannot be decoded fails and changes nothing. */
    method Reopen(id: Option<string>, decodable: bool) returns (r: Result<(), Error>)
      requires Valid() && (id.Some? ==> id.value != "")
      modifies this`db, this`config
      ensures Valid()
      ensures r.Ok? <==> (old(db).generation != "" || id.Some?) && (old(db).saved.Some? ==> decodable)
      ensures r.Ok? ==>
                db == old(db).(generation := if old(db).generation != "" then old(db).generation else id.value)
                    && db.generation != ""
      ensures r.Ok? ==> config == Reopened(db) && config.expiresAt == ZERO_TIME
      ensures r.Err? ==> db == old(db) && config == old(config)
    {
      var tx := db;
      if tx.generation == "" {
        if id.None? {
          return Err(NoEntropy);
        }
        tx := tx.(generation := id.value);
      }
      if tx.saved.Some? && !decodable {
        return Err(Corrupt);
      }
      db, config := tx, match tx.saved case None => NO_CONFIG case Some(c) => c.(expiresAt := ZERO_TIME);
      return Ok(());
    }

    method Configure(c: Config, now: int) returns (r: Result<(), Error>)
      requires Valid()
      modifies this`db, this`config
      ensures Valid()
      ensures r.Ok? <==> Configured(old(config), c, now).Ok?
      ensures if r.Ok? then config == c && db == old(db).(saved := Some(c)) else config == old(config) && db == old(db)
    {
      if !Acceptable(c, now) {
        return Err(InvalidPolicy);
      }
      if c.revision < config.revision {
        return Err(StalePolicy);
      }
      if c.revision == config.revision && config.expiresAt != ZERO_TIME {
        if c.targets != config.targets {
          return Err(PolicyConflict);
        }
      }
      db, config := db.(saved := Some(c)), c;
      return Ok(());
    }

    /** The body of Apply's loop; every early exit of the loop body is a return of the database as it was. */
    method ApplyEvent(tx: Db, e: Event, now: int) returns (r: Result<Db, Error>)
      ensures r == match AppliedOne(tx, config.targets, e, now,
                shape) case None => Err(Corrupt) case Some(db') => Ok(db')
    {
      var key, previous, d;
      if e.connection.Some? {
        var c := e.connection.value;
        var selected := Selected(config.targets, UserID(c.user));
        if selected.None? || selected.value.userID == "" || c.outboundType == "dns" || !IsUUID(e.id) || c.createdAt <= 0
           || c.createdAt > UnixMilli(now + MINUTE) {
          return Ok(tx);
        }
        if c.closedAt > 0 && c.closedAt < UnixMilli(selected.value.enabledAt) {
          return Ok(tx);
        }
        key := RecordKey(selected.value.windowID, e.id);
        if key in tx.records {
          previous, d := Some(tx.records[key]), tx.records[key];
        } else {
          previous, d := None, Fresh(selected.value, e, c, shape.describe);
        }
        d := d.(lastUpload := Max(d.lastUpload, c.upload), lastDownload := Max(d.lastDownload, c.download));
      } else {
        if e.id !in tx.index {
          return Ok(tx);
        }
        key := tx.index[e.id];
        if key !in tx.records {
          return Err(Corrupt);
        }
        previous, d := Some(tx.records[key]), tx.records[key];
        if WindowOf(config.targets, d.userID) != d.windowID {
          return Ok(tx);
        }
        if e.kind == 1 {
          if Overflows(d, e) {
            return Ok(tx);
          }
          d := d.(lastUpload := d.lastUpload + e.uploadDelta, lastDownload := d.lastDownload + e.downloadDelta);
        }
      }
      d := Finished(d, e, now, tx.sequence + 1);
      return Ok(StoreRecord(tx, key, previous, e.id, d, shape));
    }

    method Apply(events: seq<Event>, now: int) returns (r: Result<(), Error>)
      requires Valid()
      modifies this`db
      ensures Valid() && r.Ok?
      ensures db == Applied(old(db), config, events, now, shape)
    {
      if config.expiresAt <= now {
        return Ok(());
      }
      AppliedAllKeepsConsistent(db, config, events, now, acked, shape);
      var tx := db;
      for i := 0 to |events|
        invariant db == old(db) && Consistent(tx, acked, shape)
        invariant AppliedAll(db, config.targets, events[..i], now, shape) == Some(tx)
      {
        AppliedOneKeepsConsistent(tx, config, events[i], now, acked, shape);
        assert events[..i + 1][..i] == events[..i];
        var step := ApplyEvent(tx, events[i], now);
        match step
        case Err(error) => return Err(error);
        case Ok(db') => tx := db';
      }
      assert events[..|events|] == events;
      db := tx;
      return Ok(());
    }

    method Ack(generation: string, through: nat) returns (r: Result<(), Error>)
      requires Valid()
      modifies this`db, this`acked
      ensures Valid()
      ensures (db, r) == Acked(old(db), generation, through)
      ensures acked == if r.Ok? && through > old(acked) then through else old(acked)
    {
      AckedKeepsConsistent(db, generation, through, acked, shape);
      if generation != db.generation {
        return Err(GenerationMismatch);
      }
      if through > db.sequence {
        return Err(AckAhead);
      }
      var rest := DeleteThrough(db.pending, through);
      db := db.(pending := rest);
      acked := if through > acked then through else acked;
      return Ok(());
    }

    method Prune(now: int)
      requires Valid()
      modifies this`db
      ensures Valid() && db == Pruned(old(db), now, shape)
    {
      PrunedKeepsConsistent(db, now, acked, shape);
      var tx, size := PruneExpired(db, now, acked, shape);
      db := tx.(bytes := size);
    }

    method Pull(limit: int) returns (batch: Batch)
      requires Valid()
      ensures batch.generation == db.generation
      ensures Delivers(db, batch.records, batch.hasMore, if limit < 1 || limit > 500 then 200 else limit, shape.size)
    {
      var most := if limit < 1 || limit > 500 then 200 else limit;
      assert forall k :: k in db.records ==> GoodRecord(db, k, db.records[k]);
      var records, more := Collect(db, most, shape.size);
      batch := Batch(db.generation, records, more);
    }
  }

  ghost predicate PendingFiled(db: Db) {
    forall n :: n in db.pending ==>
        db.pending[n] in db.records && db.records[db.pending[n]].sequence == n && n <= db.sequence
  }

  /** The records of all pending entries below `next`, in order. */
  ghost predicate Taken(db: Db, records: seq<Record>, next: Option<nat>) {
    && (next.Some? ==> next.value in db.pending && Below(records, next.value))
    && (forall n :: n in db.pending && (next.None? || n < next.value) ==> Listed(records, n))
    && (forall i :: 0 <= i < |records| ==> Pending(db, records[i]))
    && (forall i, j :: 0 <= i < j < |records| ==> records[i].sequence < records[j].sequence)
  }

  /** `next` is the pending entry after entry `k`. */
  ghost predicate Follows(db: Db, k: nat, next: Option<nat>) {
    && (next.None? ==> forall j :: j in db.pending ==> j <= k)
    && (next.Some? ==> next.value in db.pending && k < next.value && forall j :: j in db.pending && k < j ==>
         next.value <= j)
  }

  lemma TakeNext(db: Db, records: seq<Record>, k: nat, next: Option<nat>)
    requires PendingFiled(db) && Taken(db, records, Some(k)) && Follows(db, k, next)
    ensures Taken(db, records + [db.records[db.pending[k]]], next)
  {
    var d := db.records[db.pending[k]];
    ListedMonotone(records, d);
    forall n | n in db.pending && (next.None? || n < next.value) ensures Listed(records + [d], n) {
      assert n < k || n == k;
    }
  }

  lemma TakenDelivers(db: Db, records: seq<Record>, next: Option<nat>, most: nat, size: Record -> nat)
    requires Taken(db, records, next) && |records| <= most && Weight(records, size) <= PULL_BYTES
    requires next.Some? ==> KeptOut(db, records, next.value, most, size)
    ensures Delivers(db, records, next.Some?, most, size)
  {
  }

  method Following(db: Db, k: nat) returns (next: Option<nat>)
    ensures Follows(db, k, next)
  {
    next := Seek(db.pending, k + 1);
  }

  /** The cursor loop of Pull. */
  method Collect(db: Db, most: nat, size: Record -> nat) returns (records: seq<Record>, more: bool)
    requires PendingFiled(db)
    ensures Delivers(db, records, more, most, size)
  {
    var key, bytes;
    records, key, bytes, more := CollectLoop(db, most, size);
    TakenDelivers(db, records, key, most, size);
  }

  method CollectLoop(db: Db, most: nat, size: Record -> nat)
    returns (records: seq<Record>, key: Option<nat>, bytes: nat, more: bool)
    requires PendingFiled(db)
    ensures Taken(db, records, key) && |records| <= most && Weight(records, size) <= PULL_BYTES
    ensures more == key.Some? && (more ==> KeptOut(db, records, key.value, most, size))
  {
    records, bytes, more := [], 0, false;
    key := Seek(db.pending, 0);
    while key.Some?
      invariant Taken(db, records, key) && |records| <= most && bytes == Weight(records, size) <= PULL_BYTES
      decreases db.sequence - (if key.Some? then key.value else db.sequence), key.Some?
    {
      var d := db.records[db.pending[key.value]];
      bytes := bytes + size(d);
      if |records| >= most || bytes > PULL_BYTES {
        more := true;
        return;
      }
      var next := Following(db, key.value);
      TakeNext(db, records, key.value, next);
      WeightNext(records, d, size);
      records, key := records + [d], next;
    }
  }

  lemma WeightNext(records: seq<Record>, d: Record, size: Record -> nat)
    ensures Weight(records + [d], size) == Weight(records, size) + size(d)
  {
    assert (records + [d])[..|records|] == records;
  }

  lemma ListedMonotone(records: seq<Record>, d: Record)
    ensures Listed(records + [d], d.sequence)
    ensures forall n :: Listed(records, n) ==> Listed(records + [d], n)
  {
    assert (records + [d])[|records|] == d;
    forall n | Listed(records, n) ensures Listed(records + [d], n) {
      var i :| 0 <= i < |records| && records[i].sequence == n;
      assert (records + [d])[i] == records[i];
    }
  }

  /** Which records are left of those visited so far. */
  ghost predicate Visited(records: map<string, Record>, kept: map<string, Record>, todo: set<string>, now: int) {
    && todo <= kept.Keys <= records.Keys
    && (forall k :: k in kept ==> kept[k] == records[k])
    && (forall k :: k in records && k !in todo ==> (k in kept <==> !Expired(records[k], now)))
  }

  /** The unique pending entry and index entry of a record. */
  lemma DropEntries(db: Db, kept: map<string, Record>, k: string, acked: nat)
    requires PendingExact(db, acked) && IndexSound(db) && k in kept && k in db.records && kept[k] == db.records[k]
    ensures var d, pending, index := kept[k], PointingInto(db.pending, kept), PointingInto(db.index, kept);
            && PointingInto(db.pending, kept - {k}) == pending - {d.sequence}
            && PointingInto(db.index, kept - {k}) ==
                 (if d.connectionID in index && index[d.connectionID] == k then index - {d.connectionID} else index)
  {
  }

  lemma DropCounts(kept: map<string, Record>, k: string, size: Record -> nat)
    requires k in kept
    ensures Total(kept - {k}, size) == Total(kept, size) - size(kept[k]) && |kept - {k}| == |kept| - 1
  {
    TotalRemove(kept, k, size);
    assert (kept - {k}).Keys == kept.Keys - {k};
    assert |kept.Keys| == |kept| && |(kept - {k}).Keys| == |kept - {k}|;
  }

  /** Removing one record inside Prune; neither counter goes below zero. */
  method DropRecord(tx: Db, size: UInt64, k: string, ghost db: Db, ghost acked: nat, shape: Shape)
    returns (tx': Db, size': UInt64)
    requires PendingExact(db, acked) && IndexSound(db) && k in tx.records && k in db.records
    requires tx.records[k] == db.records[k]
    requires tx.(bytes := size) == Keeping(db, tx.records, shape) && |tx.records| <= MAX_RECORDS
    ensures tx'.(bytes := size') == Keeping(db, tx.records - {k}, shape)
    ensures tx'.records == tx.records - {k} && |tx'.records| <= MAX_RECORDS
  {
    var d := tx.records[k];
    DropEntries(db, tx.records, k, acked);
    DropCounts(tx.records, k, shape.size);
    size' := USub64(size, shape.size(d));
    var index := if d.connectionID in tx.index
        && tx.index[d.connectionID] == k then tx.index - {d.connectionID} else tx.index;
    tx' := tx.(pending := tx.pending - {d.sequence}, index := index, records := tx.records - {k},
        recordCount := USub64(tx.recordCount, 1));
  }

  lemma KeepingAll(db: Db, acked: nat, shape: Shape)
    requires PendingExact(db, acked) && IndexSound(db) && BooksBalance(db, shape)
    ensures Keeping(db, db.records, shape) == db
  {
    assert db.pending == PointingInto(db.pending, db.records) && db.index == PointingInto(db.index, db.records);
  }

  lemma AllVisited(db: Db, kept: map<string, Record>, now: int, shape: Shape)
    requires Visited(db.records, kept, {}, now)
    ensures Keeping(db, kept, shape) == Pruned(db, now, shape)
  {
    assert kept == map k | k in db.records && !Expired(db.records[k], now) :: db.records[k];
  }

  /** The cursor loop of Prune, in any order of the records. */
  method PruneExpired(db: Db, now: int, ghost acked: nat, shape: Shape) returns (tx: Db, size: UInt64)
    requires PendingExact(db, acked) && IndexSound(db) && BooksBalance(db, shape)
    ensures tx.(bytes := size) == Pruned(db, now, shape)
  {
    tx, size := db, db.bytes;
    var todo := db.records.Keys;
    KeepingAll(db, acked, shape);
    while todo != {}
      invariant Visited(db.records, tx.records, todo, now)
      invariant tx.(bytes := size) == Keeping(db, tx.records, shape) && |tx.records| <= MAX_RECORDS
      decreases todo
    {
      var k :| k in todo;
      if Expired(tx.records[k], now) {
        tx, size := DropRecord(tx, size, k, db, acked, shape);
      }
      todo := todo - {k};
    }
    AllVisited(db, tx.records, now, shape);
  }
}
