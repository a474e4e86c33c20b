/** The tables of the vault. Every table is a map keyed as its primary key; a wall-clock instant is
    an integer number of milliseconds, and an envelope or a blob is an opaque sequence of bytes. */
module Model {
  import opened Collections

  // Opaque identifiers: only ever compared for equality.
  type Account(==, 0, !new)
  type App(==, 0, !new)
  type EntityId(==, 0, !new)
  type EventId(==, 0, !new)
  type DeviceId(==, 0, !new)
  type Hash(==, 0, !new)
  type UploadId(==, 0, !new)
  type CredentialId(==, 0, !new)

  type Byte(==, 0, !new)
  type Bytes = seq<Byte>

  // sync_rows
  datatype RowKey = RowKey(account: Account, app: App, id: EntityId)
  datatype SyncRow = SyncRow(envelope: Bytes, stamp: nat, deleted: bool, mtime: int, deletedAt: Option<int>)
  datatype SyncInput = SyncInput(id: EntityId, envelope: Bytes, deleted: bool, insertOnly: bool, deletedAt: Option<int>)

  // intent_events
  datatype IntentKey = IntentKey(account: Account, id: EventId)
  datatype Intent = Intent(envelope: Bytes, stamp: nat, expiresAt: int, mtime: int)
  datatype IntentInput = IntentInput(id: EventId, envelope: Bytes, expiresAt: int)

  // devices
  datatype DeviceKey = DeviceKey(account: Account, id: DeviceId)
  datatype Device = Device(lastSeen: nat, lastActive: int)

  // blobs
  datatype BlobKey = BlobKey(account: Account, hash: Hash)
  datatype Blob = Blob(size: nat, refCount: nat, zeroRef: Option<nat>, createdAt: int, lastActivity: int)

  // blob_upload_sessions, blob_upload_parts (the part's size)
  datatype Session = Session(account: Account, hash: Hash, declaredSize: nat, createdAt: int)
  datatype PartKey = PartKey(upload: UploadId, index: nat)

  // device_credentials
  datatype Credential = Credential(account: Account, device: DeviceId, revokedAt: Option<int>)

  datatype Db = Db(
    counters: map<Account, nat>,
    rows: map<RowKey, SyncRow>,
    intents: map<IntentKey, Intent>,
    devices: map<DeviceKey, Device>,
    blobs: map<BlobKey, Blob>,
    sessions: map<UploadId, Session>,
    parts: map<PartKey, nat>,
    credentials: map<CredentialId, Credential>,
    registry: set<Account>)

  const EMPTY_DB := Db(map[], map[], map[], map[], map[], map[], map[], map[], {})

  /** The blob store: whole blobs by content address, and staged parts by (upload, index). */
  datatype Disk = Disk(files: map<Hash, Bytes>, staged: map<PartKey, Bytes>)

  const EMPTY_DISK := Disk(map[], map[])
}
