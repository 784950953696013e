/** Whole runs of the audit store: what a connection really carried, what the core's event stream
    said about it, and what the records hold. */
module AuditRuns {
  import opened Common
  import opened StatName
  import opened AuditStore

  // ---------------------------------------------------------------- what one Apply may change

  /** From one state to a later one only records of collected windows change, each into a later version. */
  ghost predicate Evolves(targets: seq<Target>, db: Db, db': Db) {
    && db.sequence <= db'.sequence
    && (forall k :: k in db.records ==> k in db'.records && Extends(db.records[k], db'.records[k]))
    && (forall k :: k in db'.records && !(k in db.records && db.records[k] == db'.records[k]) ==>
          db.sequence < db'.records[k].sequence && CurrentWindow(targets, db'.records[k].windowID))
  }

  lemma EvolvesTransitive(targets: seq<Target>, db: Db, mid: Db, db': Db)
    requires Evolves(targets, db, mid) && Evolves(targets, mid, db')
    ensures Evolves(targets, db, db')
  {
  }

  lemma AppliedOneEvolves(db: Db, config: Config, e: Event, now: int, shape: Shape)
    requires GoodRecords(db) && IndexSound(db) && Sound(config)
    ensures AppliedOne(db, config.targets, e, now, shape).Some?
    ensures Evolves(config.targets, db, AppliedOne(db, config.targets, e, now, shape).value)
  {
    var stored, key, previous, d := AppliedOneStores(db, config, e, now, shape);
    assert forall k :: k in db.records ==> Extends(db.records[k], db.records[k]);
  }

  lemma {:induction false} AppliedAllEvolves(db: Db, config: Config, events: seq<Event>, now: int, acked: nat,
                                             shape: Shape)
    requires Consistent(db, acked, shape) && Sound(config)
    ensures AppliedAll(db, config.targets, events, now, shape).Some?
    ensures Evolves(config.targets, db, AppliedAll(db, config.targets, events, now, shape).value)
  {
    AppliedAllKeepsConsistent(db, config, events, now, acked, shape);
    if events == [] {
      assert forall k :: k in db.records ==> Extends(db.records[k], db.records[k]);
    } else {
      var front, last := events[..|events| - 1], events[|events| - 1];
      AppliedAllEvolves(db, config, front, now, acked, shape);
      AppliedAllKeepsConsistent(db, config, front, now, acked, shape);
      var mid := AppliedAll(db, config.targets, front, now, shape).value;
      AppliedOneEvolves(mid, config, last, now, shape);
      EvolvesTransitive(config.targets, db, mid, AppliedOne(mid, config.targets, last, now, shape).value);
    }
  }

  /** Apply never fails, never shrinks a reported total, and touches only windows being collected;
      without a live lease it touches nothing. */
  lemma ApplyEvolves(db: Db, config: Config, events: seq<Event>, now: int, acked: nat, shape: Shape)
    requires Consistent(db, acked, shape) && Sound(config)
    ensures Consistent(Applied(db, config, events, now, shape), acked, shape)
    ensures Evolves(config.targets, db, Applied(db, config, events, now, shape))
    ensures config.expiresAt <= now ==> Applied(db, config, events, now, shape) == db
  {
    AppliedAllEvolves(db, config, [], now, acked, shape);
    AppliedAllEvolves(db, config, events, now, acked, shape);
    AppliedAllKeepsConsistent(db, config, events, now, acked, shape);
  }

  /** A record changed after a pull is still pending after that pull is acknowledged. */
  lemma UpdateSurvivesAck(db: Db, config: Config, events: seq<Event>, now: int, through: nat, acked: nat, shape: Shape,
                          k: string)
    requires Consistent(db, acked, shape) && Sound(config) && through <= db.sequence
    requires var db' := Applied(db, config, events, now, shape);
             k in db'.records && !(k in db.records && db.records[k] == db'.records[k])
    ensures var db' := Applied(db, config, events, now, shape);
            var (left, r) := Acked(db', db'.generation, through);
            && r.Ok? && left.records == db'.records
            && db'.records[k].sequence in left.pending && left.pending[db'.records[k].sequence] == k
            && forall n :: n in left.pending && left.pending[n] == k ==> n == db'.records[k].sequence
  {
    ApplyEvolves(db, config, events, now, acked, shape);
    var db' := Applied(db, config, events, now, shape);
    AckedKeepsConsistent(db', db'.generation, through, acked, shape);
  }

  // ---------------------------------------------------------------- single events

  /** A record opened before collection was enabled reports no bytes from before its first snapshot;
      any other reports everything it has carried. */
  lemma FirstReport(db: Db, targets: seq<Target>, e: Event, now: int, shape: Shape)
    requires Locate(db, targets, e, now).Create?
    ensures var t, c := Locate(db, targets, e, now).target, Locate(db, targets, e, now).snapshot;
            var d := Finished(Counted(Fresh(t, e, c, shape.describe), e).value, e, now, db.sequence + 1);
            var early := c.createdAt * MILLI < t.enabledAt;
            && (d.partial <==> early)
            && d.startedAt == (if early then t.enabledAt else c.createdAt * MILLI)
            && d.upload == (if early || c.upload < 0 then 0 else c.upload)
            && d.download == (if early || c.download < 0 then 0 else c.download)
            && AppliedOne(db, targets, e, now, shape) ==
                 Some(StoreRecord(db, RecordKey(t.windowID, e.id), None, e.id, d, shape))
  {
  }

  /** Seeing the same snapshot again counts nothing twice, and once it says closed the visit time stays. */
  lemma ReplayCountsNothing(previous: Record, e: Event, first: int, again: int, s: nat, s': nat)
    requires e.connection.Some? && first <= again
    ensures var once := Finished(Counted(previous, e).value, e, first, s);
            var twice := Finished(Counted(once, e).value, e, again, s');
            && twice == once.(observedAt := twice.observedAt, sequence := s')
            && (once.closedAt.Some? && once.closedAt.value < first ==>
                 twice.observedAt == once.observedAt == once.closedAt.value)
            && once.observedAt <= first
  {
  }

  // ---------------------------------------------------------------- the core's event stream

  function At(totals: map<string, Meter>, id: string): Meter { if id in totals then totals[id] else Meter(0, 0) }

  predicate NoMore(a: Meter, b: Meter) { a.up <= b.up && a.down <= b.down }

  /** What connections really carried, the highest totals the stream ever implied, and the
      connections the current subscription has opened. */
  datatype Feed = Feed(carried: map<string, Meter>, told: map<string, Meter>, tracked: set<string>)

  ghost predicate FeedOk(f: Feed) {
    forall id :: id in f.carried || id in f.told ==>
      NoMore(Meter(0, 0), At(f.told, id)) && NoMore(At(f.told, id), At(f.carried, id))
          && NoMore(At(f.carried, id), Meter(INT64_MAX, INT64_MAX))
  }

  /** A subscription opens a connection with its absolute totals; snapshots may be repeated later, and
      deltas continue from what was told before. */
  predicate CanTell(f: Feed, e: Event) {
    match e.connection
    case Some(c) =>
      && NoMore(Meter(0, 0), Meter(c.upload, c.download)) && NoMore(Meter(c.upload, c.download), At(f.carried, e.id))
      && (e.id in f.tracked || NoMore(At(f.told, e.id), Meter(c.upload, c.download)))
    case None =>
      e.kind == 1 ==>
        && e.id in f.tracked && 0 <= e.uploadDelta && 0 <= e.downloadDelta
        && NoMore(TotalsAfter(At(f.told, e.id), e), At(f.carried, e.id))
  }

  function Told(f: Feed, e: Event): Feed {
    var told := f.told[e.id := TotalsAfter(At(f.told, e.id), e)];
    if e.connection.Some? then f.(told := told, tracked := f.tracked + {e.id})
    else if e.kind == 1 then f.(told := told)
    else f
  }

  predicate CanTellAll(f: Feed, events: seq<Event>) {
    events == [] || (CanTellAll(f, events[..|events| - 1])
        && CanTell(ToldAll(f, events[..|events| - 1]), events[|events| - 1]))
  }

  function ToldAll(f: Feed, events: seq<Event>): Feed {
    if events == [] then f else Told(ToldAll(f, events[..|events| - 1]), events[|events| - 1])
  }

  /** The event carries byte counts. */
  predicate Counts(e: Event) { e.connection.Some? || e.kind == 1 }

  /** The event went into the record the index already had for its connection. */
  predicate SameRecord(db: Db, db': Db,
                       id: string) { id in db.index && id in db'.index && db'.index[id] == db.index[id] }

  /** Connections whose indexed record missed nothing: a snapshot at full totals was stored, and every
      later snapshot, replayed or not, and every delta went into the same record. */
  ghost function KeptUp(exact: set<string>, f: Feed, e: Event, db: Db, db': Db): set<string> {
    if !Counts(e) then exact
    else if db'.sequence <= db.sequence then exact - {e.id}
    else match e.connection
      case None => exact
      case Some(c) =>
        if NoMore(At(f.told, e.id), Meter(c.upload, c.download)) then exact + {e.id}
        else if SameRecord(db, db', e.id) then exact
        else exact - {e.id}
  }

  ghost function KeptUpAll(exact: set<string>, f: Feed, db: Db, targets: seq<Target>, events: seq<Event>, now: int,
                           shape: Shape): set<string> {
    if events == [] then exact
    else
      var front := events[..|events| - 1];
      KeptUp(KeptUpAll(exact, f, db, targets, front, now, shape), ToldAll(f, front), events[|events| - 1],
             StateAfter(db, targets, front, now, shape), StateAfter(db, targets, events, now, shape))
  }

  function StateAfter(db: Db, targets: seq<Target>, events: seq<Event>, now: int, shape: Shape): Db {
    match AppliedAll(db, targets, events, now, shape) case None => db case Some(db') => db'
  }

  /** Every record of a connection stays within what the stream told about it. */
  ghost predicate WithinTold(db: Db, f: Feed) {
    forall k :: k in db.records ==> NoMore(Totals(db.records[k]), At(f.told, db.records[k].connectionID))
  }

  /** The indexed record of a connection that missed nothing holds exactly what was told. */
  ghost predicate ExactlyTold(db: Db, f: Feed, exact: set<string>) {
    forall id :: id in exact && id in db.index && db.index[id] in db.records ==>
        Totals(db.records[db.index[id]]) == At(f.told, id)
  }

  lemma TellingKeepsFeed(f: Feed, e: Event)
    requires FeedOk(f) && CanTell(f, e)
    ensures FeedOk(Told(f, e))
    ensures forall id :: NoMore(At(f.told, id), At(Told(f, e).told, id))
              && (id != e.id ==> At(Told(f, e).told, id) == At(f.told, id))
    ensures Counts(e) ==> At(Told(f, e).told, e.id) == TotalsAfter(At(f.told, e.id), e)
    ensures !Counts(e) ==> Told(f, e) == f
  {
  }

  /** The overflow guard never refuses an honest delta. */
  lemma HonestDeltasFit(db: Db, f: Feed, e: Event)
    requires IndexSound(db) && FeedOk(f) && WithinTold(db, f) && CanTell(f, e)
    requires e.connection.None? && e.kind == 1 && e.id in db.index
    ensures !Overflows(db.records[db.index[e.id]], e)
  {
    assert e.id !in f.carried && e.id !in f.told ==> At(f.carried, e.id) == At(f.told, e.id) == Meter(0, 0);
  }

  /** Other connections' records and index entries are not touched by storing a record. */
  lemma StoreWithin(db: Db, key: string, previous: Option<Record>, d: Record, shape: Shape, f: Feed, f': Feed)
    requires WithinTold(db, f) && Succeeds(db, key, previous, d)
    requires forall id :: NoMore(At(f.told, id), At(f'.told, id))
    requires NoMore(Totals(d), At(f'.told, d.connectionID))
    ensures WithinTold(StoreRecord(db, key, previous, d.connectionID, d, shape), f')
  {
  }

  lemma TellOneWithin(db: Db, config: Config, e: Event, now: int, shape: Shape, f: Feed)
    requires GoodRecords(db) && IndexSound(db) && Sound(config)
    requires FeedOk(f) && CanTell(f, e) && WithinTold(db, f)
    ensures AppliedOne(db, config.targets, e, now, shape).Some?
    ensures WithinTold(AppliedOne(db, config.targets, e, now, shape).value, Told(f, e))
  {
    TellingKeepsFeed(f, e);
    var stored, key, previous, d := AppliedOneStores(db, config, e, now, shape);
    if stored {
      TotalsMonotone(previous, At(f.told, e.id), e);
      StoreWithin(db, key, previous, d, shape, f, Told(f, e));
    }
  }

  lemma TotalsMonotone(previous: Option<Record>, told: Meter, e: Event)
    requires NoMore(Meter(0, 0), told)
    requires previous.Some? ==> NoMore(Totals(previous.value), told)
    ensures NoMore(TotalsAfter(if previous.Some? then Totals(previous.value) else Meter(0, 0), e), TotalsAfter(told, e))
  {
  }

  lemma StoreExact(db: Db, key: string, previous: Option<Record>, d: Record, shape: Shape, f: Feed, f': Feed,
                   exact: set<string>, exact': set<string>)
    requires ExactlyTold(db, f, exact) && IndexSound(db) && Succeeds(db, key, previous, d)
    requires forall id :: id != d.connectionID ==> At(f'.told, id) == At(f.told, id) && (id in exact' ==> id in exact)
    requires d.connectionID in exact' ==> Totals(d) == At(f'.told, d.connectionID)
    requires !Rejected(db, previous, d, shape)
    ensures ExactlyTold(StoreRecord(db, key, previous, d.connectionID, d, shape), f', exact')
  {
  }

  /** A stored event leaves the record of a caught-up connection at exactly what was told. */
  lemma StoredIsExact(db: Db, db': Db, key: string, previous: Option<Record>, d: Record, e: Event, f: Feed,
                      exact: set<string>)
    requires IndexSound(db) && ExactlyTold(db, f, exact) && Succeeds(db, key, previous, d) && WithinTold(db, f)
    requires FeedOk(f) && CanTell(f, e)
    requires d.connectionID == e.id && db.sequence < db'.sequence && e.id in db'.index && db'.index[e.id] == key
    requires e.connection.None? ==> e.id in db.index && key == db.index[e.id] && previous.Some?
    requires Totals(d) == TotalsAfter(if previous.Some? then Totals(previous.value) else Meter(0, 0), e)
    ensures e.id in KeptUp(exact, f, e, db, db') ==> Totals(d) == At(Told(f, e).told, e.id)
  {
    assert e.id !in f.told ==> At(f.told, e.id) == Meter(0, 0);
    if e.connection.Some? {
      TotalsMonotone(previous, At(f.told, e.id), e);
    }
  }

  lemma NotStoredExact(db: Db, db': Db, f: Feed, f': Feed, exact: set<string>, e: Event)
    requires ExactlyTold(db, f, exact) && db'.index == db.index && db'.records == db.records
    requires db'.sequence == db.sequence
    requires forall id :: id != e.id || !Counts(e) ==> At(f'.told, id) == At(f.told, id)
    ensures ExactlyTold(db', f', KeptUp(exact, f, e, db, db'))
  {
  }

  lemma StoredExact(db: Db, key: string, previous: Option<Record>, d: Record, e: Event, shape: Shape, f: Feed,
                    exact: set<string>)
    requires IndexSound(db) && ExactlyTold(db, f, exact) && Succeeds(db, key, previous, d) && WithinTold(db, f)
    requires FeedOk(f) && CanTell(f, e)
    requires d.connectionID == e.id && !Rejected(db, previous, d, shape)
    requires e.connection.None? ==> e.id in db.index && key == db.index[e.id] && previous.Some?
    requires Totals(d) == TotalsAfter(if previous.Some? then Totals(previous.value) else Meter(0, 0), e)
    ensures var db' := StoreRecord(db, key, previous, e.id, d, shape); ExactlyTold(db', Told(f, e),
              KeptUp(exact, f, e, db, db'))
  {
    var db' := StoreRecord(db, key, previous, e.id, d, shape);
    TellingKeepsFeed(f, e);
    StoredIsExact(db, db', key, previous, d, e, f, exact);
    StoreExact(db, key, previous, d, shape, f, Told(f, e), exact, KeptUp(exact, f, e, db, db'));
  }

  lemma TellOneExact(db: Db, config: Config, e: Event, now: int, shape: Shape, f: Feed, exact: set<string>)
    requires GoodRecords(db) && IndexSound(db) && Sound(config)
    requires FeedOk(f) && CanTell(f, e) && WithinTold(db, f) && ExactlyTold(db, f, exact)
    requires AppliedOne(db, config.targets, e, now, shape).Some?
    ensures var db' := AppliedOne(db, config.targets, e, now, shape).value; ExactlyTold(db', Told(f, e),
              KeptUp(exact, f, e, db, db'))
  {
    var stored, key, previous, d := AppliedOneStores(db, config, e, now, shape);
    if stored && !Rejected(db, previous, d, shape) {
      StoredExact(db, key, previous, d, e, shape, f, exact);
    } else {
      TellingKeepsFeed(f, e);
      NotStoredExact(db, AppliedOne(db, config.targets, e, now, shape).value, f, Told(f, e), exact, e);
    }
  }

  ghost predicate Truthful(db: Db, f: Feed, exact: set<string>) {
    FeedOk(f) && WithinTold(db, f) && ExactlyTold(db, f, exact)
  }

  lemma {:induction false} TellAll(db: Db, config: Config, events: seq<Event>, now: int, acked: nat, shape: Shape,
                                   f: Feed, exact: set<string>)
    requires Consistent(db, acked, shape) && Sound(config) && Truthful(db, f, exact) && CanTellAll(f, events)
    ensures AppliedAll(db, config.targets, events, now, shape).Some?
    ensures Truthful(AppliedAll(db, config.targets, events, now, shape).value, ToldAll(f, events),
                     KeptUpAll(exact, f, db, config.targets, events, now, shape))
  {
    AppliedAllKeepsConsistent(db, config, events, now, acked, shape);
    if events != [] {
      var front, e := events[..|events| - 1], events[|events| - 1];
      TellAll(db, config, front, now, acked, shape, f, exact);
      AppliedAllKeepsConsistent(db, config, front, now, acked, shape);
      var mid := StateAfter(db, config.targets, front, now, shape);
      var told := ToldAll(f, front);
      TellingKeepsFeed(told, e);
      TellOneWithin(mid, config, e, now, shape, told);
      TellOneExact(mid, config, e, now, shape, told, KeptUpAll(exact, f, db, config.targets, front, now, shape));
    }
  }

  /** Events that reach a store without a live lease only widen the gap. */
  lemma {:induction false} Unheard(db: Db, events: seq<Event>, f: Feed, exact: set<string>)
    requires Truthful(db, f, exact) && CanTellAll(f, events)
    ensures Truthful(db, ToldAll(f, events), exact - Mentioned(events))
  {
    if events != [] {
      var front, e := events[..|events| - 1], events[|events| - 1];
      Unheard(db, front, f, exact);
      TellingKeepsFeed(ToldAll(f, front), e);
    }
  }

  function Mentioned(events: seq<Event>): set<string> { set e | e in events :: e.id }

  // ---------------------------------------------------------------- runs

  datatype World = World(db: Db, config: Config, acked: nat, feed: Feed, exact: set<string>)

  datatype Action =
    | Carry(id: string, bytes: Meter)                // a connection carries bytes
    | Subscribe                                   // the collector opens a new stream
    | Deliver(events: seq<Event>, now: int)       // one message of the stream reaches Apply
    | Acknowledge(generation: string, through: nat)
    | Expire(now: int)
    | Renew(policy: Config, now: int)
    | Restart                                     // the agent reopens its database

  ghost predicate Possible(w: World, a: Action) {
    match a
    case Carry(id, bytes) =>
      NoMore(Meter(0, 0), bytes) && NoMore(Sum(At(w.feed.carried, id), bytes), Meter(INT64_MAX, INT64_MAX))
    case Deliver(events, now) => CanTellAll(w.feed, events)
    case _ => true
  }

  function Sum(a: Meter, b: Meter): Meter { Meter(a.up + b.up, a.down + b.down) }

  ghost function After(w: World, a: Action, shape: Shape): World {
    match a
    case Carry(id, bytes) => w.(feed := w.feed.(carried := w.feed.carried[id := Sum(At(w.feed.carried, id), bytes)]))
    case Subscribe => w.(feed := w.feed.(tracked := {}))
    case Deliver(events, now) =>
      w.(db := Applied(w.db, w.config, events, now, shape), feed := ToldAll(w.feed, events),
         exact := if w.config.expiresAt <= now then w.exact - Mentioned(events)
                  else KeptUpAll(w.exact, w.feed, w.db, w.config.targets, events, now, shape))
    case Acknowledge(generation, through) =>
      var (db, r) := Acked(w.db, generation, through);
      w.(db := db, acked := if r.Ok? && through > w.acked then through else w.acked)
    case Expire(now) => w.(db := Pruned(w.db, now, shape))
    case Renew(policy, now) =>
      if Configured(w.config, policy, now).Ok? then w.(db := w.db.(saved := Some(policy)), config := policy) else w
    case Restart => w.(config := Reopened(w.db), feed := w.feed.(tracked := {}))
  }

  function Empty(generation: string): World {
    World(Db(generation, None, map[], map[], map[], 0, 0, 0, 0), NO_CONFIG, 0, Feed(map[], map[], {}), {})
  }

  ghost predicate Run(generation: string, actions: seq<Action>, shape: Shape) {
    actions == [] || (
      && Run(generation, actions[..|actions| - 1], shape)
      && Possible(Reached(generation, actions[..|actions| - 1], shape), actions[|actions| - 1]))
  }

  ghost function Reached(generation: string, actions: seq<Action>, shape: Shape): World {
    if actions == [] then Empty(generation)
    else After(Reached(generation, actions[..|actions| - 1], shape), actions[|actions| - 1], shape)
  }

  ghost predicate Sane(w: World, shape: Shape) {
    Consistent(w.db, w.acked, shape) && Sound(w.config) && Truthful(w.db, w.feed, w.exact)
  }

  lemma DeliverKeepsSane(w: World, events: seq<Event>, now: int, shape: Shape)
    requires Sane(w, shape) && CanTellAll(w.feed, events)
    ensures Sane(After(w, Deliver(events, now), shape), shape)
  {
    ApplyEvolves(w.db, w.config, events, now, w.acked, shape);
    TellAll(w.db, w.config, events, now, w.acked, shape, w.feed, w.exact);
    Unheard(w.db, events, w.feed, w.exact);
  }

  lemma CarryKeepsTruth(w: World, id: string, bytes: Meter, shape: Shape)
    requires Truthful(w.db, w.feed, w.exact) && Possible(w, Carry(id, bytes))
    ensures var w' := After(w, Carry(id, bytes), shape); Truthful(w'.db, w'.feed, w'.exact)
  {
    assert forall j :: At(w.feed.carried[id := Sum(At(w.feed.carried, id), bytes)], j) == if j ==
             id then Sum(At(w.feed.carried, id), bytes) else At(w.feed.carried, j);
    assert id !in w.feed.carried && id !in w.feed.told ==> At(w.feed.carried, id) == At(w.feed.told, id) == Meter(0, 0);
  }

  lemma StepKeepsSane(w: World, a: Action, shape: Shape)
    requires Sane(w, shape) && Possible(w, a)
    ensures Sane(After(w, a, shape), shape)
  {
    match a
    case Carry(id, bytes) => CarryKeepsTruth(w, id, bytes, shape);
    case Subscribe =>
    case Deliver(events, now) => DeliverKeepsSane(w, events, now, shape);
    case Acknowledge(generation, through) => AckedKeepsConsistent(w.db, generation, through, w.acked, shape);
    case Expire(now) => PrunedKeepsConsistent(w.db, now, w.acked, shape);
    case Renew(policy, now) =>
    case Restart =>
  }

  lemma {:induction false} RunsAreSane(generation: string, actions: seq<Action>, shape: Shape)
    requires shape.maxBytes > 0 && Run(generation, actions, shape)
    ensures Sane(Reached(generation, actions, shape), shape)
  {
    if actions != [] {
      RunsAreSane(generation, actions[..|actions| - 1], shape);
      StepKeepsSane(Reached(generation, actions[..|actions| - 1], shape), actions[|actions| - 1], shape);
    }
  }

  /** Over every run: no record reports more than its connection carried, and the record of a
      connection that missed nothing reports exactly what was told. */
  lemma TrafficIsNeverOverstated(generation: string, actions: seq<Action>, shape: Shape)
    requires shape.maxBytes > 0 && Run(generation, actions, shape)
    ensures var w := Reached(generation, actions, shape);
            && (forall k :: k in w.db.records ==>
                  var r := w.db.records[k];
                  && r.upload == r.lastUpload - r.baselineUpload && r.download == r.lastDownload - r.baselineDownload
                  && 0 <= r.baselineUpload <= r.lastUpload <= At(w.feed.told, r.connectionID).up <= At(w.feed.carried,
                       r.connectionID).up
                  && 0 <= r.baselineDownload <= r.lastDownload <= At(w.feed.told,
                       r.connectionID).down <= At(w.feed.carried, r.connectionID).down)
            && (forall id :: id in w.exact && id in w.db.index ==>
                  w.db.index[id] in w.db.records && Totals(w.db.records[w.db.index[id]]) == At(w.feed.told, id))
  {
    RunsAreSane(generation, actions, shape);
  }

  // ---------------------------------------------------------------- the policy

  lemma AppliedOneKeepsPolicy(db: Db, targets: seq<Target>, e: Event, now: int, shape: Shape)
    ensures AppliedOne(db, targets, e, now, shape).Some? ==>
              AppliedOne(db, targets, e, now, shape).value.saved == db.saved
  {
  }

  lemma {:induction false} AppliedAllKeepsPolicy(db: Db, targets: seq<Target>, events: seq<Event>, now: int,
                                                 shape: Shape)
    ensures AppliedAll(db, targets, events, now, shape).Some? ==>
              AppliedAll(db, targets, events, now, shape).value.saved == db.saved
  {
    if events != [] {
      var before := AppliedAll(db, targets, events[..|events| - 1], now, shape);
      AppliedAllKeepsPolicy(db, targets, events[..|events| - 1], now, shape);
      if before.Some? {
        AppliedOneKeepsPolicy(before.value, targets, events[|events| - 1], now, shape);
      }
    }
  }

  /** The policy in force is the saved one, but for its lease. */
  ghost predicate PolicySaved(w: World) { Reopened(w.db).(expiresAt := w.config.expiresAt) == w.config }

  lemma StepKeepsPolicy(w: World, a: Action, shape: Shape)
    requires PolicySaved(w)
    ensures PolicySaved(After(w, a, shape))
    ensures w.config.revision <= After(w, a, shape).config.revision
    ensures After(w, a, shape).config.expiresAt in {w.config.expiresAt, ZERO_TIME} ||
            (a.Renew? && a.now < a.policy.expiresAt <= a.now + 5 * MINUTE && After(w, a, shape).config == a.policy)
  {
    if a.Deliver? {
      AppliedAllKeepsPolicy(w.db, w.config.targets, a.events, a.now, shape);
    }
  }

  /** Over every run, restarts included, the policy revision never goes back. */
  lemma {:induction false} PolicyNeverGoesBack(generation: string, actions: seq<Action>, n: nat, shape: Shape)
    requires n <= |actions|
    ensures PolicySaved(Reached(generation, actions, shape))
    ensures Reached(generation, actions[..n], shape).config.revision <= Reached(generation, actions,
              shape).config.revision
    decreases |actions|
  {
    if n < |actions| {
      var front := actions[..|actions| - 1];
      PolicyNeverGoesBack(generation, front, n, shape);
      assert front[..n] == actions[..n];
      StepKeepsPolicy(Reached(generation, front, shape), actions[|actions| - 1], shape);
    } else {
      assert actions[..n] == actions;
      if actions != [] {
        PolicyNeverGoesBack(generation, actions[..|actions| - 1], 0, shape);
        StepKeepsPolicy(Reached(generation, actions[..|actions| - 1], shape), actions[|actions| - 1], shape);
      }
    }
  }
}
