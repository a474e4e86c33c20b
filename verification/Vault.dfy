/** The request handlers and the two sweeps as steps of one state machine. A step is a whole
    handler: it runs in one event-loop turn, on validated inputs, at one instant. */
module Vault {
  import opened Collections
  import opened Model
  import opened Tables
  import opened Quotas

  datatype World = World(db: Db, disk: Disk)

  /** The operator's settings; `sha` is the content address of a byte string. */
  datatype Config = Config(maxBlobSize: nat, policy: QuotaPolicy, maxAccounts: Option<nat>, sha: Bytes -> Hash)

  datatype ReclaimPolicy = ReclaimPolicy(reclaim: bool, gracePeriod: nat, deadDevicePeriod: nat)

  datatype Op =
    | SyncBatch(account: Account, app: App, rows: seq<SyncInput>, notify: bool)
    | DeleteRow(account: Account, app: App, id: EntityId, deletedAt: Option<int>)
    | SendIntents(account: Account, events: seq<IntentInput>)
    | PruneIntents
    | DeviceCursor(account: Account, device: DeviceId, lastSeen: nat)
    | Initiate(account: Account, upload: UploadId, hash: Hash, size: nat)
    | PutPart(account: Account, upload: UploadId, index: nat, bytes: Bytes)
    | Finalize(account: Account, upload: UploadId)
    | Cancel(account: Account, upload: UploadId)
    | AddRef(account: Account, hash: Hash)
    | ReleaseRef(account: Account, hash: Hash)
    | ReclaimSweep(policy: ReclaimPolicy)
    | ReapSweep(ttl: nat)
    | CreateAccount(account: Account)
    | DeleteAccount(account: Account)

  datatype Reply =
    | Done
    | Written(written: nat, maxSeq: nat)
    | Deleted(at: nat, already: bool)
    | Rejected(verdict: Verdict)
    | NotFound
    | BadRequest
    | TooLarge
    | Exists
    | Created
    | Acked(received: nat)
    | HashMismatch
    | Stored(size: nat, deduped: bool)
    | Refs(refCount: nat, zeroRef: Option<nat>)
    | Removed(deletedRows: nat, credentials: set<CredentialId>, blobs: set<Hash>)
    | AtLimit
    | Failed

  // ---------- The blob store ----------

  function Put(disk: Disk, h: Hash, bytes: Bytes): Disk {
    if h in disk.files then disk else disk.(files := disk.files[h := bytes])
  }

  function WritePart(disk: Disk, u: UploadId, index: nat, bytes: Bytes): Disk {
    disk.(staged := disk.staged[PartKey(u, index) := bytes])
  }

  function StagedExcept(m: map<PartKey, Bytes>, us: set<UploadId>): map<PartKey, Bytes>
  {
    map k | k in m && k.upload !in us :: m[k]
  }

  function DiscardStaged(disk: Disk, us: set<UploadId>): Disk {
    disk.(staged := StagedExcept(disk.staged, us))
  }

  function DeleteFiles(disk: Disk, hs: set<Hash>): Disk {
    disk.(files := disk.files - hs)
  }

  /** The named parts joined in the order given; None when one of them is not on disk. */
  function Assemble(disk: Disk, u: UploadId, indexes: seq<nat>): Option<Bytes> {
    if indexes == [] then Some([])
    else
      var last := PartKey(u, indexes[|indexes| - 1]);
      var before := Assemble(disk, u, indexes[..|indexes| - 1]);
      if before.Some? && last in disk.staged then Some(before.value + disk.staged[last]) else None
  }

  // ---------- Sync and intents ----------

  function Ids(rs: seq<SyncInput>): (ids: seq<EntityId>)
    ensures |ids| == |rs| && forall i :: 0 <= i < |rs| ==> ids[i] == rs[i].id
  {
    seq(|rs|, i requires 0 <= i < |rs| => rs[i].id)
  }

  function IntentIds(es: seq<IntentInput>): (ids: seq<EventId>)
    ensures |ids| == |es| && forall i :: 0 <= i < |es| ==> ids[i] == es[i].id
  {
    seq(|es|, i requires 0 <= i < |es| => es[i].id)
  }

  function DoSyncBatch(cfg: Config, w: World, app: App, a: Account, rs: seq<SyncInput>, now: int): (World, Reply) {
    var ids := Ids(rs);
    var verdict := AdmitSyncBatch(cfg.policy, |AccountRows(w.db, a)|, ids,
        ChunkedExisting(EntityIds(w.db, app, a), ids));
    if verdict.Some? then (w, Rejected(verdict.value))
    else
      var t := UpsertBatch(w.db, app, a, rs, now);
      (w.(db := t.db), Written(t.written, t.maxSeq))
  }

  function DoDeleteRow(w: World, app: App, a: Account, id: EntityId, deletedAt: Option<int>, now: int): (World, Reply) {
    var (db, r) := SoftDelete(w.db, app, a, id, deletedAt, now);
    (w.(db := db), if r.None? then NotFound else Deleted(r.value.stamp, r.value.already))
  }

  function DoSendIntents(cfg: Config, w: World, a: Account, es: seq<IntentInput>, now: int): (World, Reply) {
    var ids := IntentIds(es);
    var verdict := AdmitIntents(cfg.policy, |CurrentIntents(w.db, a, now)|, ids,
        ChunkedExisting(EventIds(w.db, a), ids));
    if verdict.Some? then (w, Rejected(verdict.value))
    else
      var t := InsertIntents(w.db, a, es, now);
      (w.(db := t.db), Written(t.written, t.maxSeq))
  }

  // ---------- Uploads ----------

  ghost function FootprintOf(db: Db, a: Account): Footprint {
    Footprint(StoredBytes(db, a), |Reservations(db, a)|, DeclaredBytes(db, a))
  }

  /** Why an initiate opens no session, in the route's order. A duplicate upload id breaks the
      primary key: the insert fails and nothing changes. */
  ghost function InitiateRefusal(cfg: Config, w: World, a: Account, u: UploadId, h: Hash, size: nat): Option<Reply> {
    if size > cfg.maxBlobSize then Some(TooLarge)
    else if BlobKey(a, h) in w.db.blobs then Some(Exists)
    else
      var verdict := AdmitUpload(cfg.policy, FootprintOf(w.db, a), size);
      if verdict.Some? then Some(Rejected(verdict.value))
      else if u in w.db.sessions then Some(Failed) else None
  }

  ghost function DoInitiate(cfg: Config, w: World, a: Account, u: UploadId, h: Hash, size: nat, now: int): (World,
                            Reply) {
    var refusal := InitiateRefusal(cfg, w, a, u, h, size);
    if refusal.Some? then (w, refusal.value)
    else (w.(db := w.db.(sessions := w.db.sessions[u := Session(a, h, size, now)])), Created)
  }

  ghost function ReceivedBytes(db: Db, u: UploadId): nat { Sum(Parts(db, u)) }

  /** The parts' total if `bytes` replaced whatever part `index` holds now. */
  ghost function ProspectiveTotal(db: Db, u: UploadId, index: nat, bytes: Bytes): int {
    var prior := if PartKey(u, index) in db.parts then db.parts[PartKey(u, index)] else 0;
    ReceivedBytes(db, u) - prior + |bytes|
  }

  ghost function PutPartRefusal(w: World, a: Account, u: UploadId, index: nat, bytes: Bytes): Option<Reply> {
    if !Owns(w.db, a, u) then Some(NotFound)
    else if ProspectiveTotal(w.db, u, index, bytes) > w.db.sessions[u].declaredSize then Some(BadRequest)
    else None
  }

  ghost function DoPutPart(w: World, a: Account, u: UploadId, index: nat, bytes: Bytes): (World, Reply) {
    var refusal := PutPartRefusal(w, a, u, index, bytes);
    if refusal.Some? then (w, refusal.value)
    else
      var db := RecordPart(w.db, a, u, index, |bytes|);
      (w.(db := db, disk := WritePart(w.disk, u, index, bytes)), Acked(ReceivedBytes(db, u)))
  }

  /** Discarding a session the account does not own, or that is gone, does nothing. */
  function Discard(w: World, a: Account, u: UploadId): World {
    if Owns(w.db, a, u) then w.(db := DropSessions(w.db, {u}), disk := DiscardStaged(w.disk, {u})) else w
  }

  function PartIndexes(db: Db, u: UploadId): seq<nat> {
    Ascending(set k | k in db.parts && k.upload == u :: k.index)
  }

  datatype Judgement = Unowned | AlreadyStored(size: nat) | MissingPart | Oversize | Mismatch |
      OverQuota(verdict: Verdict) | Genuine(bytes: Bytes)

  /** What finalize finds: the checks it makes, in its order, before it changes anything. */
  ghost function Judge(cfg: Config, w: World, a: Account, u: UploadId): Judgement {
    if !Owns(w.db, a, u) then Unowned
    else
      var s := w.db.sessions[u];
      if BlobKey(a, s.hash) in w.db.blobs then AlreadyStored(w.db.blobs[BlobKey(a, s.hash)].size)
      else
        var assembled := Assemble(w.disk, u, PartIndexes(w.db, u));
        if assembled.None? then MissingPart
        else if |assembled.value| > cfg.maxBlobSize then Oversize
        else if cfg.sha(assembled.value) != s.hash then Mismatch
        else
          var verdict := AdmitFinalize(cfg.policy, FootprintOf(w.db, a), |assembled.value|);
          if verdict.Some? then OverQuota(verdict.value) else Genuine(assembled.value)
  }

  function FinalizeReply(j: Judgement): Reply {
    match j
    case Unowned => NotFound
    case AlreadyStored(size) => Stored(size, true)
    case MissingPart => Failed
    case Oversize => TooLarge
    case Mismatch => HashMismatch
    case OverQuota(verdict) => Rejected(verdict)
    case Genuine(bytes) => Stored(|bytes|, false)
  }

  /** Genuine bytes are stored, then their row. The session is discarded, except when it is not the
      account's, a part is missing, or the assembled bytes are over the size cap. */
  function Conclude(cfg: Config, w: World, a: Account, u: UploadId, j: Judgement, now: int): World {
    if j.Unowned? || j.MissingPart? || j.Oversize? then w else Discard(StoreGenuine(cfg, w, a, j, now), a, u)
  }

  function StoreGenuine(cfg: Config, w: World, a: Account, j: Judgement, now: int): World {
    if j.Genuine? then World(InsertBlobIfAbsent(w.db, a, cfg.sha(j.bytes), |j.bytes|, now),
        Put(w.disk, cfg.sha(j.bytes), j.bytes)) else w
  }

  ghost function DoFinalize(cfg: Config, w: World, a: Account, u: UploadId, now: int): (World, Reply) {
    var j := Judge(cfg, w, a, u);
    (Conclude(cfg, w, a, u, j, now), FinalizeReply(j))
  }

  /** What storing and discarding leave alone. */
  lemma StoreFrame(cfg: Config, w: World, a: Account, j: Judgement, now: int)
    ensures var w' := StoreGenuine(cfg, w, a, j, now);
      && w'.db == w.db.(counters := w'.db.counters, blobs := w'.db.blobs)
      && w'.disk.staged == w.disk.staged
  {
  }

  lemma DiscardFrame(w: World, a: Account, u: UploadId)
    ensures var w' := Discard(w, a, u);
      && w'.db == w.db.(sessions := w'.db.sessions, parts := w'.db.parts)
      && w'.disk.files == w.disk.files
  {
  }

  /** Finalizing leaves the tables alone, drops the session, or also adds the blob's row. */
  lemma FinalizeShape(cfg: Config, w: World, a: Account, u: UploadId, now: int)
    ensures var db' := DoFinalize(cfg, w, a, u, now).0.db;
      && (|| db' == w.db
          || db' == DropSessions(w.db, {u})
          || exists h, size :: db' == DropSessions(InsertBlobIfAbsent(w.db, a, h, size, now), {u}))
      && db' == w.db.(counters := db'.counters, blobs := db'.blobs, sessions := db'.sessions, parts := db'.parts)
  {
    var j := Judge(cfg, w, a, u);
    StoreFrame(cfg, w, a, j, now);
    DiscardFrame(StoreGenuine(cfg, w, a, j, now), a, u);
  }

  function DoCancel(w: World, a: Account, u: UploadId): (World, Reply) {
    if !Owns(w.db, a, u) then (w, NotFound) else (Discard(w, a, u), Done)
  }

  // ---------- Blob references ----------

  function RefReply(db: Db, a: Account, h: Hash): Reply {
    var k := BlobKey(a, h);
    if k in db.blobs then Refs(db.blobs[k].refCount, db.blobs[k].zeroRef) else NotFound
  }

  function DoAddRef(w: World, a: Account, h: Hash, now: int): (World, Reply) {
    var db := AddReference(w.db, a, h, now);
    (w.(db := db), RefReply(db, a, h))
  }

  function DoReleaseRef(w: World, a: Account, h: Hash, now: int): (World, Reply) {
    var db := ReleaseReference(w.db, a, h, now);
    (w.(db := db), RefReply(db, a, h))
  }

  // ---------- Sweeps and account removal ----------

  function Hashes(ks: set<BlobKey>): set<Hash> {
    set k | k in ks :: k.hash
  }

  /** What a reclaim sweep at `now` takes. */
  function Swept(db: Db, p: ReclaimPolicy, now: int): set<BlobKey> {
    if p.reclaim then ReclaimableBlobs(db, now - p.gracePeriod, now - p.deadDevicePeriod) else {}
  }

  function Reclaimed(w: World, ks: set<BlobKey>): World {
    World(DropBlobs(w.db, ks), DeleteFiles(w.disk, Hashes(ks)))
  }

  function DoReclaim(w: World, p: ReclaimPolicy, now: int): World {
    Reclaimed(w, Swept(w.db, p, now))
  }

  function DoReap(w: World, ttl: nat, now: int): World {
    var us := StaleSessions(w.db, now - ttl);
    w.(db := DropSessions(w.db, us), disk := DiscardStaged(w.disk, us))
  }

  /** Every place for an account is taken. */
  predicate Full(cfg: Config, db: Db) {
    cfg.maxAccounts.Some? && |db.registry| >= cfg.maxAccounts.value
  }

  function DoCreateAccount(cfg: Config, w: World, a: Account): (World, Reply) {
    if a in w.db.registry then (w, Exists)
    else if Full(cfg, w.db) then (w, AtLimit)
    else (w.(db := w.db.(registry := w.db.registry + {a})), Created)
  }

  function DoDeleteAccount(w: World, a: Account): (World, Reply) {
    if a !in w.db.registry then (w, NotFound)
    else
      var hs := UnheldHashes(w.db, a);
      var disk := DeleteFiles(DiscardStaged(w.disk, SessionsOf(w.db, a)), hs);
      (w.(db := DropAccount(w.db, a), disk := disk), Removed(|AccountRows(w.db, a)|, ActiveCredentials(w.db, a), hs))
  }

  // ---------- Runs ----------

  ghost function Serve(cfg: Config, w: World, op: Op, now: int): (World, Reply) {
    match op
    case SyncBatch(a, app, rows, _) => DoSyncBatch(cfg, w, app, a, rows, now)
    case DeleteRow(a, app, id, deletedAt) => DoDeleteRow(w, app, a, id, deletedAt, now)
    case SendIntents(a, events) => DoSendIntents(cfg, w, a, events, now)
    case PruneIntents => (w.(db := PruneAll(w.db, now)), Done)
    case DeviceCursor(a, d, lastSeen) => (w.(db := ReportCursor(w.db, a, d, lastSeen, now)), Done)
    case Initiate(a, u, h, size) => DoInitiate(cfg, w, a, u, h, size, now)
    case PutPart(a, u, index, bytes) => DoPutPart(w, a, u, index, bytes)
    case Finalize(a, u) => DoFinalize(cfg, w, a, u, now)
    case Cancel(a, u) => DoCancel(w, a, u)
    case AddRef(a, h) => DoAddRef(w, a, h, now)
    case ReleaseRef(a, h) => DoReleaseRef(w, a, h, now)
    case ReclaimSweep(p) => (DoReclaim(w, p, now), Done)
    case ReapSweep(ttl) => (DoReap(w, ttl, now), Done)
    case CreateAccount(a) => DoCreateAccount(cfg, w, a)
    case DeleteAccount(a) => DoDeleteAccount(w, a)
  }

  ghost function Apply(cfg: Config, w: World, op: Op, now: int): World {
    Serve(cfg, w, op, now).0
  }

  const EMPTY_WORLD := World(EMPTY_DB, EMPTY_DISK)

  /** `ss[i]` is the world before the i-th operation, which runs at `ts[i]`; the clock never goes
      back. */
  ghost predicate Trace(cfg: Config, ss: seq<World>, ops: seq<Op>, ts: seq<int>) {
    && |ss| == |ops| + 1 && |ts| == |ops|
    && (forall i {:trigger ops[i]} :: 0 <= i < |ops| ==> ss[i + 1] == Apply(cfg, ss[i], ops[i], ts[i]))
    && (forall i, j :: 0 <= i <= j < |ts| ==> ts[i] <= ts[j])
  }

  /** No operation of the run removes the account. */
  predicate Keeps(ops: seq<Op>, a: Account) {
    forall i :: 0 <= i < |ops| ==> ops[i] != DeleteAccount(a)
  }
}
