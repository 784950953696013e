/** The panel's side of the audit queue: pull, then acknowledge the last record received. */
module AuditDelivery {
  import opened Common
  import opened AuditStore
  import opened AuditService
  import opened AuditRuns

  function EffectiveLimit(limit: int): nat { if limit < 1 || limit > 500 then 200 else limit }

  /** Every record last changed after `from` and acknowledged since is among the delivered ones, as it is now. */
  ghost predicate Handed(db: Db, from: nat, acked: nat, delivered: seq<Record>) {
    forall k :: k in db.records && from < db.records[k].sequence <= acked ==> db.records[k] in delivered
  }

  /** A batch holds every pending record up to its last one. */
  lemma BatchCovers(db: Db, records: seq<Record>, more: bool, most: nat, size: Record -> nat, acked: nat, k: string)
    requires PendingExact(db, acked) && Delivers(db, records, more, most, size) && records != []
    requires k in db.records && acked < db.records[k].sequence <= records[|records| - 1].sequence
    ensures db.records[k] in records
  {
    var n := db.records[k].sequence;
    assert n in db.pending && db.pending[n] == k;
    assert !Below(records, n);
    var i :| 0 <= i < |records| && records[i].sequence == n;
    assert Pending(db, records[i]);
  }

  /** An empty batch means an empty queue, or a first record that no pull can carry. */
  lemma EmptyBatch(db: Db, more: bool, most: nat, size: Record -> nat)
    requires Delivers(db, [], more, most, size) && most > 0
    ensures db.pending == map[] || exists k :: k in db.records && size(db.records[k]) > PULL_BYTES
  {
    assert forall n :: !Listed([], n);
    if more {
      var n :| KeptOut(db, [], n, most, size);
      assert Weight([], size) == 0;
    } else {
      assert db.pending.Keys == {};
    }
  }

  lemma BatchHandsOver(db: Db, records: seq<Record>, more: bool, most: nat, size: Record -> nat,
                       from: nat, acked: nat, delivered: seq<Record>)
    requires PendingExact(db, acked) && GoodRecords(db) && Delivers(db, records, more, most, size) && records != []
    requires Handed(db, from, acked, delivered)
    ensures Handed(db, from, records[|records| - 1].sequence, delivered + records)
    ensures var last := records[|records| - 1].sequence; last in db.pending && acked < last <= db.sequence
  {
    var last := records[|records| - 1].sequence;
    assert Pending(db, records[|records| - 1]);
    assert GoodRecord(db, db.pending[last], db.records[db.pending[last]]);
    forall k | k in db.records && from < db.records[k].sequence <= last ensures db.records[k] in delivered + records {
      if acked < db.records[k].sequence {
        BatchCovers(db, records, more, most, size, acked, k);
      }
    }
  }

  ghost predicate Stuck(db: Db, size: Record -> nat) {
    exists k :: k in db.records && size(db.records[k]) > PULL_BYTES
  }

  lemma AckShrinks(pending: map<nat, string>, through: nat, n: nat)
    requires n in pending && n <= through
    ensures |Above(pending, through)| < |pending|
  {
    var rest := Above(pending, through);
    assert rest.Keys <= pending.Keys - {n};
    CountWithin(pending - {n}, rest);
    assert (pending - {n}).Keys == pending.Keys - {n};
    assert |(pending - {n}).Keys| == |pending - {n}| && |pending.Keys| == |pending|;
  }

  /** One round. */
  method Round(store: Store, limit: int, ghost from: nat, ghost delivered: seq<Record>) returns (records: seq<Record>)
    requires store.Valid() && from <= store.acked && Handed(store.db, from, store.acked, delivered)
    modifies store`db, store`acked
    ensures store.Valid() && store.db.records == old(store.db.records) && old(store.acked) <= store.acked
    ensures Handed(store.db, from, store.acked, delivered + records)
    ensures records == [] ==> store.db == old(store.db)
    ensures records == [] ==> store.db.pending == map[] || Stuck(store.db, store.shape.size)
    ensures records != [] ==> |store.db.pending| < |old(store.db.pending)|
  {
    var batch := store.Pull(limit);
    records := batch.records;
    ghost var db, acked := store.db, store.acked;
    if records == [] {
      EmptyBatch(db, batch.hasMore, EffectiveLimit(limit), store.shape.size);
      assert delivered + records == delivered;
      return;
    }
    var last := records[|records| - 1].sequence;
    BatchHandsOver(db, records, batch.hasMore, EffectiveLimit(limit), store.shape.size, from, acked, delivered);
    AckShrinks(db.pending, last, last);
    var r := store.Ack(batch.generation, last);
  }

  lemma ApplyKeepsHanded(db: Db, config: Config, events: seq<Event>, now: int, acked: nat, shape: Shape,
                         from: nat, delivered: seq<Record>)
    requires Consistent(db, acked, shape) && Sound(config) && Handed(db, from, acked, delivered)
    ensures Handed(Applied(db, config, events, now, shape), from, acked, delivered)
  {
    ApplyEvolves(db, config, events, now, acked, shape);
  }

  datatype Message = Message(events: seq<Event>, now: int)

  /** Rounds with event messages applied in between, until one after the last message brings nothing: the
      queue is then empty, unless it holds a record that no pull can carry, and if it is empty the panel
      has the last version of every record changed since it began. */
  method Drain(store: Store, limit: int, between: seq<Message>) returns (delivered: seq<Record>)
    requires store.Valid()
    modifies store`db, store`acked
    ensures store.Valid() && (store.db.pending == map[] || Stuck(store.db, store.shape.size))
    ensures Handed(store.db, old(store.acked), store.acked, delivered)
    ensures store.db.pending == map[] ==>
              forall k :: k in store.db.records && old(store.acked) < store.db.records[k].sequence ==>
                store.db.records[k] in delivered
  {
    ghost var from := store.acked;
    delivered := [];
    var more, next := true, 0;
    while more
      invariant store.Valid() && next <= |between| && from <= store.acked
      invariant Handed(store.db, from, store.acked, delivered)
      invariant !more ==> store.db.pending == map[] || Stuck(store.db, store.shape.size)
      decreases |between| - next, |store.db.pending|, more
    {
      if next < |between| {
        var message := between[next];
        ApplyKeepsHanded(store.db, store.config, message.events, message.now, store.acked, store.shape, from,
                         delivered);
        var r := store.Apply(message.events, message.now);
      }
      var records := Round(store, limit, from, delivered);
      delivered := delivered + records;
      more := records != [] || next < |between|;
      next := if next < |between| then next + 1 else next;
    }
    EmptyIsAcknowledged(store.db, store.acked);
  }

  lemma EmptyIsAcknowledged(db: Db, acked: nat)
    requires PendingExact(db, acked)
    ensures db.pending == map[] ==> forall k :: k in db.records ==> db.records[k].sequence <= acked
  {
  }
}
