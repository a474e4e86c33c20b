/** What each store transaction does to the tables, as a function of the tables it starts from. */
module Tables {
  import opened Collections
  import opened Model

  // ---------- The per-account sequence ----------

  /** The account's latest seq; 0 before anything was written for it. */
  function Counter(db: Db, a: Account): nat {
    if a in db.counters then db.counters[a] else 0
  }

  function Bump(db: Db, a: Account): Db {
    db.(counters := db.counters[a := Counter(db, a) + 1])
  }

  // ---------- Sync rows ----------

  /** A transaction in progress: the tables, rows written so far, highest seq assigned so far. */
  datatype Tally = Tally(db: Db, written: nat, maxSeq: nat)

  /** Neither skip applies: the row is assigned a seq and written. */
  predicate Writes(db: Db, app: App, a: Account, r: SyncInput) {
    var k := RowKey(a, app, r.id);
    && !(r.insertOnly && k in db.rows)
    && !(r.deleted && k in db.rows && db.rows[k].deleted && db.rows[k].envelope == r.envelope)
  }

  function UpsertOne(t: Tally, app: App, a: Account, r: SyncInput, now: int): Tally {
    if !Writes(t.db, app, a, r) then t
    else
      var s := Counter(t.db, a) + 1;
      var db := Bump(t.db, a);
      var row := SyncRow(r.envelope, s, r.deleted, now, if r.deleted then r.deletedAt else None);
      Tally(db.(rows := db.rows[RowKey(a, app, r.id) := row]), t.written + 1, Max(s, t.maxSeq))
  }

  function UpsertBatch(db: Db, app: App, a: Account, rs: seq<SyncInput>, now: int): Tally {
    if rs == [] then Tally(db, 0, 0)
    else UpsertOne(UpsertBatch(db, app, a, rs[..|rs| - 1], now), app, a, rs[|rs| - 1], now)
  }

  datatype SoftDeleted = SoftDeleted(stamp: nat, already: bool)

  function SoftDelete(db: Db, app: App, a: Account, id: EntityId, deletedAt: Option<int>, now: int): (Db,
                      Option<SoftDeleted>) {
    var k := RowKey(a, app, id);
    if k !in db.rows then (db, None)
    else if db.rows[k].deleted then (db, Some(SoftDeleted(db.rows[k].stamp, true)))
    else
      var s := Counter(db, a) + 1;
      var db1 := Bump(db, a);
      var row := db.rows[k].(deleted := true, stamp := s, mtime := now, deletedAt := deletedAt);
      (db1.(rows := db1.rows[k := row]), Some(SoftDeleted(s, false)))
  }

  /** The rows `listRows` selects from, by stamp. */
  function RowsAbove(db: Db, app: App, a: Account, since: nat): map<RowKey, nat> {
    map k | k in db.rows && k.account == a && k.app == app && db.rows[k].stamp > since :: db.rows[k].stamp
  }

  // ---------- Intents ----------

  function InsertOneIntent(t: Tally, a: Account, e: IntentInput, now: int): Tally {
    var k := IntentKey(a, e.id);
    if k in t.db.intents then t
    else
      var s := Counter(t.db, a) + 1;
      var db := Bump(t.db, a);
      Tally(db.(intents := db.intents[k := Intent(e.envelope, s, e.expiresAt, now)]), t.written + 1, Max(s, t.maxSeq))
  }

  function InsertEvents(db: Db, a: Account, es: seq<IntentInput>, now: int): Tally {
    if es == [] then Tally(db, 0, 0)
    else InsertOneIntent(InsertEvents(db, a, es[..|es| - 1], now), a, es[|es| - 1], now)
  }

  function PruneFor(db: Db, a: Account, now: int): Db {
    db.(intents := map k | k in db.intents && !(k.account == a && db.intents[k].expiresAt <= now) :: db.intents[k])
  }

  function PruneAll(db: Db, now: int): Db {
    db.(intents := map k | k in db.intents && !(db.intents[k].expiresAt <= now) :: db.intents[k])
  }

  function InsertIntents(db: Db, a: Account, es: seq<IntentInput>, now: int): Tally {
    var t := InsertEvents(db, a, es, now);
    t.(db := PruneFor(t.db, a, now))
  }

  /** The events `listIntents` selects from, by stamp: those not yet expired. */
  function IntentsAbove(db: Db, a: Account, since: nat, now: int): map<IntentKey, nat> {
    map k | k in db.intents && k.account == a && db.intents[k].stamp > since && db.intents[k].expiresAt > now ::
        db.intents[k].stamp
  }

  // ---------- Device cursors ----------

  function ReportCursor(db: Db, a: Account, d: DeviceId, lastSeen: nat, now: int): Db {
    var k := DeviceKey(a, d);
    var seen := if k in db.devices then Max(db.devices[k].lastSeen, lastSeen) else lastSeen;
    db.(devices := db.devices[k := Device(seen, now)])
  }

  // ---------- Blob references ----------

  function InsertBlobIfAbsent(db: Db, a: Account, h: Hash, size: nat, now: int): Db {
    var k := BlobKey(a, h);
    if k in db.blobs then db
    else
      var db1 := Bump(db, a);
      db1.(blobs := db1.blobs[k := Blob(size, 0, Some(Counter(db1, a)), now, now)])
  }

  function AddReference(db: Db, a: Account, h: Hash, now: int): Db {
    var k := BlobKey(a, h);
    if k !in db.blobs then db
    else
      var b := db.blobs[k];
      db.(blobs := db.blobs[k := b.(refCount := b.refCount + 1, zeroRef := None, lastActivity := now)])
  }

  function ReleaseReference(db: Db, a: Account, h: Hash, now: int): Db {
    var k := BlobKey(a, h);
    if k !in db.blobs then db
    else
      var b := db.blobs[k];
      var last := b.refCount == 1;
      var b' := Blob(b.size, if b.refCount == 0 then 0 else b.refCount - 1,
                     if last then Some(Counter(db, a) + 1) else b.zeroRef, b.createdAt, now);
      db.(counters := if last then db.counters[a := Counter(db, a) + 1] else db.counters, blobs := db.blobs[k := b'])
  }

  /** A release changes the blob's row and nothing else; it stamps a zero point, and takes a seq
      for it, exactly when the last reference goes. */
  lemma ReleaseShape(db: Db, a: Account, h: Hash, now: int)
    ensures var db' := ReleaseReference(db, a, h, now); var k := BlobKey(a, h);
      && db' == db.(blobs := db'.blobs, counters := db'.counters)
      && db'.blobs.Keys == db.blobs.Keys
      && (forall j :: j in db.blobs && j != k ==> db'.blobs[j] == db.blobs[j])
      && (k in db.blobs ==>
            && db'.blobs[k].size == db.blobs[k].size
            && db'.blobs[k].lastActivity == now
            && db'.blobs[k].refCount == Max(0, db.blobs[k].refCount - 1)
            && db'.counters == (if db.blobs[k].refCount == 1 then db.counters[a := Counter(db, a) + 1] else db.counters)
            && db'.blobs[k].zeroRef == (if db.blobs[k].refCount == 1 then Some(Counter(db, a) + 1)
                else db.blobs[k].zeroRef))
      && (k !in db.blobs ==> db' == db)
  {
  }

  // ---------- Upload sessions ----------

  predicate Owns(db: Db, a: Account, u: UploadId) {
    u in db.sessions && db.sessions[u].account == a
  }

  /** The acked parts of a session and their sizes. */
  function Parts(db: Db, u: UploadId): map<PartKey, nat> {
    map k | k in db.parts && k.upload == u :: db.parts[k]
  }

  function RecordPart(db: Db, a: Account, u: UploadId, index: nat, size: nat): Db {
    if Owns(db, a, u) then db.(parts := db.parts[PartKey(u, index) := size]) else db
  }

  /** Deleting sessions cascades to their parts. */
  function DropSessions(db: Db, us: set<UploadId>): Db {
    db.(sessions := db.sessions - us,
        parts := PartsExcept(db.parts, us))
  }

  function StaleSessions(db: Db, cutoff: int): set<UploadId> {
    set u | u in db.sessions && db.sessions[u].createdAt <= cutoff
  }

  // ---------- Reclaim ----------

  /** A non-dead device of the blob's account that has not acked past its zero point. */
  predicate Behind(db: Db, k: BlobKey, z: nat, deadCutoff: int, d: DeviceKey)
    requires d in db.devices
  {
    d.account == k.account && db.devices[d].lastActive > deadCutoff && db.devices[d].lastSeen < z
  }

  predicate Reclaimable(db: Db, k: BlobKey, graceCutoff: int, deadCutoff: int) {
    && k in db.blobs
    && db.blobs[k].refCount == 0
    && db.blobs[k].zeroRef.Some?
    && db.blobs[k].lastActivity <= graceCutoff
    && forall d :: d in db.devices ==> !Behind(db, k, db.blobs[k].zeroRef.value, deadCutoff, d)
  }

  function ReclaimableBlobs(db: Db, graceCutoff: int, deadCutoff: int): set<BlobKey> {
    set k | k in db.blobs && Reclaimable(db, k, graceCutoff, deadCutoff)
  }

  function DropBlobs(db: Db, ks: set<BlobKey>): Db {
    db.(blobs := db.blobs - ks)
  }

  // ---------- Aggregates read by the quota gate ----------

  function BlobSizes(db: Db, a: Account): map<BlobKey, nat> {
    map k | k in db.blobs && k.account == a :: db.blobs[k].size
  }

  function Reservations(db: Db, a: Account): map<UploadId, nat> {
    map u | u in db.sessions && db.sessions[u].account == a :: db.sessions[u].declaredSize
  }

  ghost function StoredBytes(db: Db, a: Account): nat { Sum(BlobSizes(db, a)) }
  ghost function DeclaredBytes(db: Db, a: Account): nat { Sum(Reservations(db, a)) }

  function AccountRows(db: Db, a: Account): set<RowKey> {
    set k | k in db.rows && k.account == a
  }

  function EntityIds(db: Db, app: App, a: Account): set<EntityId> {
    set k | k in db.rows && k.account == a && k.app == app :: k.id
  }

  function EventIds(db: Db, a: Account): set<EventId> {
    set k | k in db.intents && k.account == a :: k.id
  }

  /** The account's events that have not expired. */
  function CurrentIntents(db: Db, a: Account, now: int): set<IntentKey> {
    set k | k in db.intents && k.account == a && db.intents[k].expiresAt > now
  }

  // ---------- Account removal ----------

  function SessionsOf(db: Db, a: Account): set<UploadId> {
    set u | u in db.sessions && db.sessions[u].account == a
  }

  // DELETE FROM <table> WHERE account_id = ?
  function RowsExcept(m: map<RowKey, SyncRow>, a: Account): map<RowKey, SyncRow>
  {
    map k | k in m && k.account != a :: m[k]
  }
  function IntentsExcept(m: map<IntentKey, Intent>, a: Account): map<IntentKey, Intent>
  {
    map k | k in m && k.account != a :: m[k]
  }
  function DevicesExcept(m: map<DeviceKey, Device>, a: Account): map<DeviceKey, Device>
  {
    map k | k in m && k.account != a :: m[k]
  }
  function BlobsExcept(m: map<BlobKey, Blob>, a: Account): map<BlobKey, Blob>
  {
    map k | k in m && k.account != a :: m[k]
  }
  function CredentialsExcept(m: map<CredentialId, Credential>, a: Account): map<CredentialId, Credential>
  {
    map c | c in m && m[c].account != a :: m[c]
  }
  function PartsExcept(m: map<PartKey, nat>, us: set<UploadId>): map<PartKey, nat>
  {
    map k | k in m && k.upload !in us :: m[k]
  }

  /** Every row of the account in every table; parts go with their sessions. */
  function DropAccount(db: Db, a: Account): Db {
    var us := SessionsOf(db, a);
    Db(db.counters - {a}, RowsExcept(db.rows, a), IntentsExcept(db.intents, a), DevicesExcept(db.devices, a),
       BlobsExcept(db.blobs, a), db.sessions - us, PartsExcept(db.parts, us), CredentialsExcept(db.credentials, a),
           db.registry - {a})
  }

  /** The account's blob hashes that no row holds any more once the account is gone. */
  function UnheldHashes(db: Db, a: Account): set<Hash> {
    set k | k in db.blobs && k.account == a && (forall j :: j in db.blobs && j.hash == k.hash ==> j.account == a) ::
        k.hash
  }

  function ActiveCredentials(db: Db, a: Account): set<CredentialId> {
    set c | c in db.credentials && db.credentials[c].account == a && db.credentials[c].revokedAt.None?
  }

  /** UPDATE device_credentials SET revoked_at = now WHERE ... AND revoked_at IS NULL. */
  function StampRevoked(db: Db, cs: set<CredentialId>, now: int): Db {
    db.(credentials := map c | c in db.credentials ::
      if c in cs && db.credentials[c].revokedAt.None? then db.credentials[c].(revokedAt := Some(now))
          else db.credentials[c])
  }

  /** The active credentials a new one for the device takes over from. */
  function Superseded(db: Db, a: Account, d: DeviceId): set<CredentialId> {
    set c | c in db.credentials && db.credentials[c].account == a && db.credentials[c].device == d &&
        db.credentials[c].revokedAt.None?
  }

  function Issue(db: Db, c: CredentialId, a: Account, d: DeviceId, now: int): Db {
    var db1 := StampRevoked(db, Superseded(db, a, d), now);
    db1.(credentials := db1.credentials[c := Credential(a, d, None)])
  }
}
