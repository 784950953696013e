/** The access audit store of internal/accessaudit/store.go: per-connection records, a pending
    delivery queue, a connection index and a few counters, kept consistent by every operation. */
module AuditStore {
  import opened Common
  import opened StatName

  // ---------------------------------------------------------------- data

  const SECOND := 1_000_000_000
  const MINUTE := 60 * SECOND
  const DAY := 24 * 60 * MINUTE
  const MILLI := 1_000_000
  const ZERO_TIME: int := -62_135_596_800 * SECOND
  const MAX_RECORDS := 50_000

  function UnixMilli(time: int): int { time / MILLI }

  datatype Target = Target(userID: string, windowID: string, enabledAt: int, retentionDays: int)

  datatype Config = Config(revision: int, expiresAt: int, targets: seq<Target>)

  const NO_CONFIG := Config(0, ZERO_TIME, [])

  datatype Connection = Connection(
    user: string, domain: string, destination: string, inbound: string, network: string, protocol: string,
    outboundType: string, createdAt: Int64, closedAt: Int64, upload: Int64, download: Int64)

  datatype Event = Event(
    kind: int, id: string, connection: Option<Connection>,
    uploadDelta: Int64, downloadDelta: Int64, closedAt: Int64)

  /** The cleaned-up descriptive fields of a connection. */
  datatype Details = Details(domain: string, ip: string, port: int, inbound: string, network: string, protocol: string)

  datatype Record = Record(
    connectionID: string, userID: string, windowID: string, details: Details,
    startedAt: int, observedAt: int, closedAt: Option<int>, upload: int, download: int, partial: bool, sequence: nat,
    lastUpload: Int64, lastDownload: Int64, baselineUpload: Int64, baselineDownload: Int64, retentionDays: int)

  datatype Db = Db(
    generation: string, saved: Option<Config>,
    records: map<string, Record>, pending: map<nat, string>, index: map<string, string>,
    sequence: nat, bytes: int, recordCount: int, dropped: nat)

  /** Bytes in both directions. */
  datatype Meter = Meter(up: int, down: int)

  /** What the store is built around: the length of a record's encoding and the text clean-up. */
  datatype Shape = Shape(maxBytes: Int64, size: Record -> nat, describe: Connection -> Details)

  datatype Error = InvalidPolicy | StalePolicy | PolicyConflict | Corrupt | GenerationMismatch | AckAhead | NoEntropy

  // ---------------------------------------------------------------- policies

  predicate Hex(c: char) { '0' <= c <= '9' || 'a' <= c <= 'f' }

  predicate IsUUID(s: string) {
    |s| == 36 && forall i :: 0 <= i < 36 ==> if i == 8 || i == 13 || i == 18 || i == 23 then s[i] == '-' else Hex(s[i])
  }

  predicate IsUserID(s: string) {
    1 <= |s| <= 19 && '1' <= s[0] <= '9' && forall i :: 0 <= i < |s| ==> '0' <= s[i] <= '9'
  }

  predicate TargetAllowed(t: Target, now: int) {
    IsUserID(t.userID) && IsUUID(t.windowID) && t.enabledAt != ZERO_TIME && t.enabledAt <= now + MINUTE
        && 1 <= t.retentionDays <= 30
  }

  predicate UniqueUsers(targets: seq<Target>) {
    forall i, j :: 0 <= i < j < |targets| ==> targets[i].userID != targets[j].userID
  }

  predicate Acceptable(c: Config, now: int) {
    && 0 <= c.revision <= 9_007_199_254_740_991
    && |c.targets| <= 10_000
    && now < c.expiresAt <= now + 5 * MINUTE
    && (forall i :: 0 <= i < |c.targets| ==> TargetAllowed(c.targets[i], now))
    && UniqueUsers(c.targets)
  }

  /** What every accepted policy guarantees for good. */
  ghost predicate Sound(c: Config) {
    && UniqueUsers(c.targets)
    && forall i :: 0 <= i < |c.targets| ==> IsUserID(c.targets[i].userID) && IsUUID(c.targets[i].windowID)
  }

  /** The `selected` map: the target of a user. */
  function Selected(targets: seq<Target>, userID: string): Option<Target> {
    if targets == [] then None
    else if targets[|targets| - 1].userID == userID then Some(targets[|targets| - 1])
    else Selected(targets[..|targets| - 1], userID)
  }

  lemma {:induction false} SelectedIsTarget(targets: seq<Target>, userID: string)
    ensures Selected(targets, userID).Some? ==>
              Selected(targets, userID).value in targets && Selected(targets, userID).value.userID == userID
  {
    if targets != [] {
      SelectedIsTarget(targets[..|targets| - 1], userID);
    }
  }

  // ---------------------------------------------------------------- one event

  /** Which record an event is about; Missing is an index entry that leads nowhere. */
  datatype Place = Skip | Missing | Update(key: string, previous: Record)
      | Create(key: string, target: Target, snapshot: Connection)

  function RecordKey(windowID: string, id: string): string { windowID + ":" + id }

  function Locate(db: Db, targets: seq<Target>, e: Event, now: int): Place {
    match e.connection
    case Some(c) =>
      (match Selected(targets, UserID(c.user))
       case None => Skip
       case Some(t) =>
         if t.userID == "" || c.outboundType == "dns" || !IsUUID(e.id) || c.createdAt <= 0
            || c.createdAt > UnixMilli(now + MINUTE) then Skip
         else if c.closedAt > 0 && c.closedAt < UnixMilli(t.enabledAt) then Skip
         else
           var key := RecordKey(t.windowID, e.id);
           if key in db.records then Update(key, db.records[key]) else Create(key, t, c))
    case None =>
      if e.id !in db.index then Skip
      else if db.index[e.id] !in db.records then Missing
      else
        var d := db.records[db.index[e.id]];
        if WindowOf(targets, d.userID) != d.windowID then Skip else Update(db.index[e.id], d)
  }

  /** The window of a user's target, empty for a user without one. */
  function WindowOf(targets: seq<Target>, userID: string): string {
    match Selected(targets, userID) case None => "" case Some(t) => t.windowID
  }

  function NonNegative(v: Int64): Int64 { if v > 0 then v else 0 }

  function Max(a: Int64, b: Int64): Int64 { if a >= b then a else b }

  function Fresh(t: Target, e: Event, c: Connection, describe: Connection -> Details): Record {
    var started := c.createdAt * MILLI;
    var partial := started < t.enabledAt;
    Record(e.id, t.userID, t.windowID, describe(c), if partial then t.enabledAt else started, ZERO_TIME, None, 0, 0,
        partial, 0,
           0, 0, if partial then NonNegative(c.upload) else 0, if partial then NonNegative(c.download) else 0, 0)
  }

  predicate Overflows(d: Record, e: Event) {
    e.uploadDelta < 0 || e.downloadDelta < 0 || e.uploadDelta > INT64_MAX - d.lastUpload
        || e.downloadDelta > INT64_MAX - d.lastDownload
  }

  /** New byte totals, or None when the deltas are refused. */
  function Counted(d: Record, e: Event): Option<Record> {
    match e.connection
    case Some(c) => Some(d.(lastUpload := Max(d.lastUpload, c.upload), lastDownload := Max(d.lastDownload, c.download)))
    case None =>
      if e.kind != 1 then Some(d)
      else if Overflows(d, e) then None
      else Some(d.(lastUpload := d.lastUpload + e.uploadDelta, lastDownload := d.lastDownload + e.downloadDelta))
  }

  function ClosedMillis(e: Event): Int64 {
    if e.connection.Some? && e.connection.value.closedAt > e.closedAt then e.connection.value.closedAt else e.closedAt
  }

  function AtLeastZero(v: int): int { if v > 0 then v else 0 }

  function Finished(d: Record, e: Event, now: int, sequence: nat): Record {
    var closed := ClosedMillis(e);
    var at := if closed > 0 then Some(closed * MILLI) else d.closedAt;
    d.(partial := d.partial || (closed > 0 && e.connection.None?), closedAt := at,
       upload := AtLeastZero(d.lastUpload - d.baselineUpload),
           download := AtLeastZero(d.lastDownload - d.baselineDownload),
       observedAt := if at.Some? && at.value < now then at.value else now,
       retentionDays := 1, sequence := sequence)
  }

  function Rejected(db: Db, previous: Option<Record>, d: Record, shape: Shape): bool {
    NewBytes(db, previous, d, shape) > shape.maxBytes || (previous.None? && db.recordCount >= MAX_RECORDS)
  }

  function NewBytes(db: Db, previous: Option<Record>, d: Record, shape: Shape): int {
    db.bytes + shape.size(d) - if previous.Some? then shape.size(previous.value) else 0
  }

  function StoreRecord(db: Db, key: string, previous: Option<Record>, id: string, d: Record, shape: Shape): Db {
    if Rejected(db, previous, d, shape) then db.(dropped := db.dropped + 1)
    else
      var stale := if previous.Some? then previous.value.sequence else 0;
      db.(records := db.records[key := d],
          pending := (db.pending - {stale})[d.sequence := key],
          index := db.index[id := key],
          recordCount := if previous.None? then db.recordCount + 1 else db.recordCount,
          sequence := d.sequence, bytes := NewBytes(db, previous, d, shape))
  }

  /** One turn of the event loop of Apply; None is a record that cannot be decoded. */
  function AppliedOne(db: Db, targets: seq<Target>, e: Event, now: int, shape: Shape): Option<Db> {
    match Locate(db, targets, e, now)
    case Skip => Some(db)
    case Missing => None
    case Update(key, previous) =>
      (match Counted(previous, e)
       case None => Some(db)
       case Some(d) => Some(StoreRecord(db, key, Some(previous), e.id, Finished(d, e, now, db.sequence + 1), shape)))
    case Create(key, t, c) =>
      (match Counted(Fresh(t, e, c, shape.describe), e)
       case None => Some(db)
       case Some(d) => Some(StoreRecord(db, key, None, e.id, Finished(d, e, now, db.sequence + 1), shape)))
  }

  function AppliedAll(db: Db, targets: seq<Target>, events: seq<Event>, now: int, shape: Shape): Option<Db> {
    if events == [] then Some(db)
    else
      match AppliedAll(db, targets, events[..|events| - 1], now, shape)
      case None => None
      case Some(mid) => AppliedOne(mid, targets, events[|events| - 1], now, shape)
  }

  /** Apply as a transaction: an undecodable record undoes all of it. */
  function Applied(db: Db, config: Config, events: seq<Event>, now: int, shape: Shape): Db {
    if config.expiresAt <= now then db
    else match AppliedAll(db, config.targets, events, now, shape)
      case None => db
      case Some(db') => db'
  }

  function Acked(db: Db, generation: string, through: nat): (Db, Result<(), Error>) {
    if generation != db.generation then (db, Err(GenerationMismatch))
    else if through > db.sequence then (db, Err(AckAhead))
    else (db.(pending := Above(db.pending, through)), Ok(()))
  }

  predicate Expired(r: Record, now: int) { r.observedAt < now - r.retentionDays * DAY }

  /** The store with only some of its records kept, and everything that pointed at the others gone. */
  ghost function Keeping(db: Db, kept: map<string, Record>, shape: Shape): Db {
    db.(records := kept, pending := PointingInto(db.pending, kept), index := PointingInto(db.index, kept),
        bytes := Total(kept, shape.size), recordCount := |kept|)
  }

  /** The entries of a queue or an index whose record is kept. */
  function PointingInto<K(!new)>(entries: map<K, string>, kept: map<string, Record>): (r: map<K, string>)
    ensures forall n :: n in r <==> n in entries && entries[n] in kept
    ensures forall n :: n in r ==> r[n] == entries[n]
  {
    map n | n in entries && entries[n] in kept :: entries[n]
  }

  /** Prune: exactly the records past their retention go. */
  ghost function Pruned(db: Db, now: int, shape: Shape): Db {
    Keeping(db, map k | k in db.records && !Expired(db.records[k], now) :: db.records[k], shape)
  }

  function Configured(config: Config, c: Config, now: int): Result<Config, Error> {
    if !Acceptable(c, now) then Err(InvalidPolicy)
    else if c.revision < config.revision then Err(StalePolicy)
    else if c.revision == config.revision && config.expiresAt != ZERO_TIME
        && c.targets != config.targets then Err(PolicyConflict)
    else Ok(c)
  }

  /** Open on an existing file: the saved policy, with its lease cleared. */
  function Reopened(db: Db): Config {
    match db.saved
    case None => NO_CONFIG
    case Some(c) => c.(expiresAt := ZERO_TIME)
  }

  // ---------------------------------------------------------------- consistency

  /** One side of a record's byte arithmetic. */
  predicate Metered(last: int, baseline: int, reported: int) {
    0 <= baseline <= last <= INT64_MAX && reported == last - baseline
  }

  ghost predicate GoodRecord(db: Db, key: string, r: Record) {
    && IsUUID(r.windowID) && IsUUID(r.connectionID) && key == RecordKey(r.windowID, r.connectionID)
    && 1 <= r.sequence <= db.sequence
    && r.retentionDays == 1
    && Metered(r.lastUpload, r.baselineUpload, r.upload)
    && Metered(r.lastDownload, r.baselineDownload, r.download)
  }

  ghost predicate GoodRecords(db: Db) {
    forall k :: k in db.records ==> GoodRecord(db, k, db.records[k])
  }

  /** The pending queue is exactly the records whose sequence lies above the highest acknowledged one. */
  ghost predicate PendingExact(db: Db, acked: nat) {
    && acked <= db.sequence
    && (forall n :: n in db.pending ==>
        db.pending[n] in db.records && db.records[db.pending[n]].sequence == n && acked < n)
    && (forall k :: k in db.records && acked < db.records[k].sequence ==>
          db.records[k].sequence in db.pending && db.pending[db.records[k].sequence] == k)
  }

  /** An index entry leads to a live record of that very connection. */
  ghost predicate IndexSound(db: Db) {
    forall c :: c in db.index ==> db.index[c] in db.records && db.records[db.index[c]].connectionID == c
  }

  ghost predicate BooksBalance(db: Db, shape: Shape) {
    && db.recordCount == |db.records| <= MAX_RECORDS
    && db.bytes == Total(db.records, shape.size) <= shape.maxBytes
  }

  /** `acked` is the highest sequence acknowledged so far. */
  ghost predicate Consistent(db: Db, acked: nat, shape: Shape) {
    && GoodRecords(db) && PendingExact(db, acked) && IndexSound(db) && BooksBalance(db, shape)
    && (db.saved.Some? ==> Sound(db.saved.value))
  }

  // ---------------------------------------------------------------- every operation keeps it

  lemma CountedKeepsMeter(d: Record, e: Event)
    requires Metered(d.lastUpload, d.baselineUpload, d.lastUpload - d.baselineUpload)
    requires Metered(d.lastDownload, d.baselineDownload, d.lastDownload - d.baselineDownload)
    ensures Counted(d, e).Some? ==>
              var c := Counted(d, e).value;
              && c == d.(lastUpload := c.lastUpload, lastDownload := c.lastDownload)
              && Metered(c.lastUpload, d.baselineUpload, c.lastUpload - d.baselineUpload)
              && Metered(c.lastDownload, d.baselineDownload, c.lastDownload - d.baselineDownload)
              && d.lastUpload <= c.lastUpload && d.lastDownload <= c.lastDownload
  {
  }

  /** A first event can only be a connection snapshot, whose bytes start at the baseline. */
  lemma FreshIsMetered(t: Target, e: Event, c: Connection, describe: Connection -> Details)
    requires e.connection == Some(c)
    ensures var d := Counted(Fresh(t, e, c, describe), e);
            && d.Some?
            && Metered(d.value.lastUpload, d.value.baselineUpload, d.value.lastUpload - d.value.baselineUpload)
            && Metered(d.value.lastDownload, d.value.baselineDownload, d.value.lastDownload - d.value.baselineDownload)
            && d.value.connectionID == e.id && d.value.windowID == t.windowID && d.value.userID == t.userID
  {
  }

  /** Records are filed under their own window and connection: equal keys mean equal parts. */
  lemma RecordKeyInjective(w: string, id: string, w': string, id': string)
    requires IsUUID(id) && IsUUID(id') && RecordKey(w, id) == RecordKey(w', id')
    ensures w == w' && id == id'
  {
    var s, t := RecordKey(w, id), RecordKey(w', id');
    assert |w| == |w'|;
    assert w == s[..|w|] && w' == t[..|w|];
    assert id == s[|w| + 1..] && id' == t[|w| + 1..];
  }

  /** Writing record `d`, the successor of whatever was filed under its key. */
  ghost predicate Succeeds(db: Db, key: string, previous: Option<Record>, d: Record) {
    && previous == (if key in db.records then Some(db.records[key]) else None)
    && d.sequence == db.sequence + 1
    && (previous.Some? ==> previous.value.connectionID == d.connectionID)
  }

  lemma StoreKeepsIndex(db: Db, key: string, previous: Option<Record>, d: Record, shape: Shape)
    requires IndexSound(db) && Succeeds(db, key, previous, d)
    ensures IndexSound(StoreRecord(db, key, previous, d.connectionID, d, shape))
  {
  }

  /** Filing the next sequence number under a key, in place of the key's old entry. */
  lemma RefiledPending(db: Db, db': Db, key: string, d: Record, stale: nat, acked: nat)
    requires PendingExact(db, acked) && d.sequence == db.sequence + 1
    requires forall k :: k in db.records ==> 1 <= db.records[k].sequence <= db.sequence
    requires stale == if key in db.records then db.records[key].sequence else 0
    requires db'.records == db.records[key := d] && db'.sequence == d.sequence
    requires db'.pending == (db.pending - {stale})[d.sequence := key]
    ensures PendingExact(db', acked)
  {
  }

  lemma StoreKeepsPending(db: Db, key: string, previous: Option<Record>, d: Record, acked: nat, shape: Shape)
    requires GoodRecords(db) && PendingExact(db, acked) && Succeeds(db, key, previous, d)
    ensures PendingExact(StoreRecord(db, key, previous, d.connectionID, d, shape), acked)
  {
    assert forall k :: k in db.records ==> GoodRecord(db, k, db.records[k]);
    if !Rejected(db, previous, d, shape) {
      var stale := if previous.Some? then previous.value.sequence else 0;
      RefiledPending(db, StoreRecord(db, key, previous, d.connectionID, d, shape), key, d, stale, acked);
    }
  }

  lemma StoreKeepsBooks(db: Db, key: string, previous: Option<Record>, d: Record, shape: Shape)
    requires BooksBalance(db, shape) && Succeeds(db, key, previous, d)
    ensures BooksBalance(StoreRecord(db, key, previous, d.connectionID, d, shape), shape)
  {
    TotalPut(db.records, key, d, shape.size);
    CountPut(db.records, key, d);
  }

  lemma StoreKeepsRecords(db: Db, key: string, previous: Option<Record>, d: Record, shape: Shape)
    requires GoodRecords(db) && Succeeds(db, key, previous, d)
    requires GoodRecord(db.(sequence := d.sequence), key, d)
    ensures GoodRecords(StoreRecord(db, key, previous, d.connectionID, d, shape))
  {
  }

  lemma StoreKeepsConsistent(db: Db, key: string, previous: Option<Record>, d: Record, acked: nat, shape: Shape)
    requires Consistent(db, acked, shape) && Succeeds(db, key, previous, d)
    requires GoodRecord(db.(sequence := d.sequence), key, d)
    ensures Consistent(StoreRecord(db, key, previous, d.connectionID, d, shape), acked, shape)
  {
    StoreKeepsRecords(db, key, previous, d, shape);
    StoreKeepsIndex(db, key, previous, d, shape);
    StoreKeepsPending(db, key, previous, d, acked, shape);
    StoreKeepsBooks(db, key, previous, d, shape);
  }

  /** Updates go to the record of the event's own connection. */
  lemma UpdateIsOwn(db: Db, config: Config, e: Event, now: int)
    requires GoodRecords(db) && IndexSound(db)
    ensures Locate(db, config.targets, e, now) != Missing
    ensures var place := Locate(db, config.targets, e, now);
            place.Update? ==>
                place.key in db.records && place.previous == db.records[place.key]
                && place.previous.connectionID == e.id
  {
    var place := Locate(db, config.targets, e, now);
    if place.Update? && e.connection.Some? {
      var t := Selected(config.targets, UserID(e.connection.value.user)).value;
      assert GoodRecord(db, place.key, place.previous);
      RecordKeyInjective(t.windowID, e.id, place.previous.windowID, place.previous.connectionID);
    }
  }

  lemma UpdatedIsGood(db: Db, key: string, previous: Record, e: Event, now: int)
    requires GoodRecord(db, key, previous) && Counted(previous, e).Some?
    ensures var d := Finished(Counted(previous, e).value, e, now, db.sequence + 1);
            && GoodRecord(db.(sequence := d.sequence), key, d)
            && d.connectionID == previous.connectionID && d.windowID == previous.windowID && d.userID == previous.userID
            && d.baselineUpload == previous.baselineUpload && d.baselineDownload == previous.baselineDownload
            && previous.upload <= d.upload && previous.download <= d.download
            && previous.lastUpload <= d.lastUpload && previous.lastDownload <= d.lastDownload
  {
    CountedKeepsMeter(previous, e);
  }

  lemma CreatedIsGood(db: Db, config: Config, e: Event, now: int, describe: Connection -> Details)
    requires Sound(config) && Locate(db, config.targets, e, now).Create?
    ensures var place := Locate(db, config.targets, e, now);
            var c := Counted(Fresh(place.target, e, place.snapshot, describe), e);
            && c.Some?
            && var d := Finished(c.value, e, now, db.sequence + 1);
               GoodRecord(db.(sequence := d.sequence), place.key, d) && d.connectionID == e.id
                   && d.windowID == place.target.windowID
  {
    var place := Locate(db, config.targets, e, now);
    SelectedIsTarget(config.targets, UserID(place.snapshot.user));
    FreshIsMetered(place.target, e, place.snapshot, describe);
  }

  /** Some current target collects under this window. */
  ghost predicate CurrentWindow(targets: seq<Target>, windowID: string) {
    exists t :: t in targets && t.windowID == windowID
  }

  /** A later version of the same record: identity and baselines fixed, totals never smaller. */
  ghost predicate Extends(r: Record, d: Record) {
    && d.connectionID == r.connectionID && d.windowID == r.windowID && d.userID == r.userID
    && d.baselineUpload == r.baselineUpload && d.baselineDownload == r.baselineDownload
    && r.lastUpload <= d.lastUpload && r.lastDownload <= d.lastDownload
    && r.upload <= d.upload && r.download <= d.download
    && (r.partial ==> d.partial) && (r.closedAt.Some? ==> d.closedAt.Some?)
  }

  function Totals(r: Record): Meter { Meter(r.lastUpload, r.lastDownload) }

  /** The totals after an event: a connection snapshot raises them, a delta adds to them. */
  function TotalsAfter(before: Meter, e: Event): Meter {
    match e.connection
    case Some(c) => Meter(if c.upload > before.up then c.upload else before.up,
        if c.download > before.down then c.download else before.down)
    case None => if e.kind == 1 then Meter(before.up + e.uploadDelta, before.down + e.downloadDelta) else before
  }

  lemma UpdateStores(db: Db, config: Config, e: Event, now: int, shape: Shape)
    returns (stored: bool, key: string, d: Record)
    requires GoodRecords(db) && IndexSound(db) && Sound(config) && Locate(db, config.targets, e, now).Update?
    ensures !stored ==> AppliedOne(db, config.targets, e, now, shape) == Some(db)
    ensures stored ==>
              && key in db.records && Succeeds(db, key, Some(db.records[key]), d)
              && GoodRecord(db.(sequence := d.sequence), key, d) && d.connectionID == e.id
              && AppliedOne(db, config.targets, e, now, shape) ==
                   Some(StoreRecord(db, key, Some(db.records[key]), d.connectionID, d, shape))
              && Extends(db.records[key], d) && CurrentWindow(config.targets, d.windowID)
              && Totals(d) == TotalsAfter(Totals(db.records[key]), e)
              && (e.connection.None? ==> e.id in db.index && key == db.index[e.id])
  {
    var place := Locate(db, config.targets, e, now);
    UpdateIsOwn(db, config, e, now);
    key := place.key;
    assert GoodRecord(db, key, place.previous);
    var counted := Counted(place.previous, e);
    stored, d := counted.Some?, place.previous;
    if stored {
      UpdatedIsGood(db, key, place.previous, e, now);
      d := Finished(counted.value, e, now, db.sequence + 1);
      UpdateInWindow(db, config, e, now);
    }
  }

  lemma UpdateInWindow(db: Db, config: Config, e: Event, now: int)
    requires GoodRecords(db) && IndexSound(db) && Sound(config) && Locate(db, config.targets, e, now).Update?
    ensures CurrentWindow(config.targets, Locate(db, config.targets, e, now).previous.windowID)
  {
    var place := Locate(db, config.targets, e, now);
    var user := if e.connection.Some? then UserID(e.connection.value.user) else place.previous.userID;
    assert GoodRecord(db, place.key, place.previous);
    SelectedIsTarget(config.targets, user);
    if e.connection.Some? {
      RecordKeyInjective(Selected(config.targets, user).value.windowID, e.id, place.previous.windowID,
          place.previous.connectionID);
    }
    assert IsUUID(place.previous.windowID) && |place.previous.windowID| == 36;
    assert Selected(config.targets, user).value.windowID == place.previous.windowID;
  }

  lemma CreateStores(db: Db, config: Config, e: Event, now: int, shape: Shape) returns (key: string, d: Record)
    requires Sound(config) && Locate(db, config.targets, e, now).Create?
    ensures key !in db.records && Succeeds(db, key, None, d)
    ensures GoodRecord(db.(sequence := d.sequence), key, d) && d.connectionID == e.id
    ensures AppliedOne(db, config.targets, e, now, shape) == Some(StoreRecord(db, key, None, d.connectionID, d, shape))
    ensures CurrentWindow(config.targets, d.windowID)
    ensures Totals(d) == TotalsAfter(Meter(0, 0), e) && e.connection.Some?
  {
    var place := Locate(db, config.targets, e, now);
    CreatedIsGood(db, config, e, now, shape.describe);
    SelectedIsTarget(config.targets, UserID(place.snapshot.user));
    key, d := place.key, Finished(Counted(Fresh(place.target, e, place.snapshot, shape.describe), e).value, e, now,
        db.sequence + 1);
  }

  /** What one event does: nothing, or the next version of the record of its own connection, filed
      under a window that is being collected. */
  lemma AppliedOneStores(db: Db, config: Config, e: Event, now: int, shape: Shape)
    returns (stored: bool, key: string, previous: Option<Record>, d: Record)
    requires GoodRecords(db) && IndexSound(db) && Sound(config)
    ensures !stored ==> AppliedOne(db, config.targets, e, now, shape) == Some(db)
    ensures stored ==>
              && Succeeds(db, key, previous, d) && GoodRecord(db.(sequence := d.sequence), key, d)
                   && d.connectionID == e.id
              && AppliedOne(db, config.targets, e, now, shape) ==
                   Some(StoreRecord(db, key, previous, d.connectionID, d, shape))
              && CurrentWindow(config.targets, d.windowID)
              && (previous.Some? ==> Extends(previous.value, d))
              && Totals(d) == TotalsAfter(if previous.Some? then Totals(previous.value) else Meter(0, 0), e)
              && (e.connection.None? ==> e.id in db.index && key == db.index[e.id])
  {
    UpdateIsOwn(db, config, e, now);
    var place := Locate(db, config.targets, e, now);
    if place.Skip? {
      stored, key, previous := false, "", None;
      d := *;
    } else if place.Update? {
      stored, key, d := UpdateStores(db, config, e, now, shape);
      previous := if stored then Some(db.records[key]) else None;
    } else {
      key, d := CreateStores(db, config, e, now, shape);
      stored, previous := true, None;
    }
  }

  /** Apply never meets a missing record, and keeps everything consistent. */
  lemma AppliedOneKeepsConsistent(db: Db, config: Config, e: Event, now: int, acked: nat, shape: Shape)
    requires Consistent(db, acked, shape) && Sound(config)
    ensures AppliedOne(db, config.targets, e, now, shape).Some?
    ensures Consistent(AppliedOne(db, config.targets, e, now, shape).value, acked, shape)
  {
    var stored, key, previous, d := AppliedOneStores(db, config, e, now, shape);
    if stored {
      StoreKeepsConsistent(db, key, previous, d, acked, shape);
    }
  }

  lemma {:induction false} AppliedAllKeepsConsistent(db: Db, config: Config, events: seq<Event>, now: int, acked: nat,
                                                     shape: Shape)
    requires Consistent(db, acked, shape) && Sound(config)
    ensures AppliedAll(db, config.targets, events, now, shape).Some?
    ensures Consistent(AppliedAll(db, config.targets, events, now, shape).value, acked, shape)
  {
    if events != [] {
      AppliedAllKeepsConsistent(db, config, events[..|events| - 1], now, acked, shape);
      var mid := AppliedAll(db, config.targets, events[..|events| - 1], now, shape).value;
      AppliedOneKeepsConsistent(mid, config, events[|events| - 1], now, acked, shape);
    }
  }

  lemma AckedKeepsConsistent(db: Db, generation: string, through: nat, acked: nat, shape: Shape)
    requires Consistent(db, acked, shape)
    ensures var (db', r) := Acked(db, generation, through);
            Consistent(db', if r.Ok? && through > acked then through else acked, shape)
  {
  }

  lemma PrunedBooks(db: Db, now: int, shape: Shape)
    requires BooksBalance(db, shape)
    ensures BooksBalance(Pruned(db, now, shape), shape)
  {
    var kept := Pruned(db, now, shape).records;
    TotalOfPart(db.records, kept, shape.size);
    CountWithin(db.records, kept);
  }

  lemma PrunedKeepsConsistent(db: Db, now: int, acked: nat, shape: Shape)
    requires Consistent(db, acked, shape)
    ensures Consistent(Pruned(db, now, shape), acked, shape)
  {
    PrunedBooks(db, now, shape);
    var db' := Pruned(db, now, shape);
    assert forall k :: k in db'.records ==>
        k in db.records && db'.records[k] == db.records[k] && GoodRecord(db, k, db.records[k]);
  }
}
