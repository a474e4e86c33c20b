/** The SQLite-backed store: its tables as fields, its transactions as methods that update them in
    place. Each method is tied to the function of `Tables` that says what the transaction does. */
module Store {
  import opened Collections
  import opened Paging
  import opened Model
  import opened Tables
  import opened Vault
  import opened Quotas

  datatype RowRecord = RowRecord(id: EntityId, row: SyncRow)
  datatype IntentRecord = IntentRecord(id: EventId, event: Intent)

  function RowRecords(db: Db, page: seq<RowKey>): (r: seq<RowRecord>)
    requires forall i :: 0 <= i < |page| ==> page[i] in db.rows
  {
    seq(|page|, i requires 0 <= i < |page| => RowRecord(page[i].id, db.rows[page[i]]))
  }

  function IntentRecords(db: Db, page: seq<IntentKey>): (r: seq<IntentRecord>)
    requires forall i :: 0 <= i < |page| ==> page[i] in db.intents
  {
    seq(|page|, i requires 0 <= i < |page| => IntentRecord(page[i].id, db.intents[page[i]]))
  }

  /** SELECT COALESCE(SUM(value), 0). */
  method Total<K(==)>(m: map<K, nat>) returns (n: nat)
    ensures n == Sum(m)
  {
    n := 0;
    var rest := m;
    while rest != map[]
      invariant n + Sum(rest) == Sum(m)
      decreases |rest|
    {
      var k :| k in rest;
      SumTakeOut(rest, k);
      n := n + rest[k];
      rest := rest - {k};
    }
  }

  class SqliteStore {
    var counters: map<Account, nat>
    var rows: map<RowKey, SyncRow>
    var intents: map<IntentKey, Intent>
    var devices: map<DeviceKey, Device>
    var blobs: map<BlobKey, Blob>
    var sessions: map<UploadId, Session>
    var parts: map<PartKey, nat>
    var credentials: map<CredentialId, Credential>
    var registry: set<Account>

    constructor ()
      ensures State() == EMPTY_DB
    {
      counters, rows, intents, devices, blobs := map[], map[], map[], map[], map[];
      sessions, parts, credentials, registry := map[], map[], map[], {};
    }

    function State(): Db
      reads this
    {
      Db(counters, rows, intents, devices, blobs, sessions, parts, credentials, registry)
    }

    // ---------- Sequence ----------

    method NextSeq(a: Account) returns (s: nat)
      modifies this`counters
      ensures State() == Bump(old(State()), a)
      ensures s == old(Counter(State(), a)) + 1
    {
      s := (if a in counters then counters[a] else 0) + 1;
      counters := counters[a := s];
    }

    method LatestSeq(a: Account) returns (s: nat)
      ensures s == Counter(State(), a)
    {
      s := if a in counters then counters[a] else 0;
    }

    // ---------- Sync rows ----------

    method BatchUpsert(app: App, a: Account, rs: seq<SyncInput>, now: int) returns (written: nat, maxSeq: nat)
      modifies this`counters, this`rows
      ensures Tally(State(), written, maxSeq) == UpsertBatch(old(State()), app, a, rs, now)
    {
      written, maxSeq := 0, 0;
      for i := 0 to |rs|
        invariant Tally(State(), written, maxSeq) == UpsertBatch(old(State()), app, a, rs[..i], now)
      {
        var r, k := rs[i], RowKey(a, app, rs[i].id);
        assert rs[..i + 1][..i] == rs[..i];
        if r.insertOnly && k in rows {
          continue;
        }
        if r.deleted {
          if k in rows && rows[k].deleted && rows[k].envelope == r.envelope {
            continue;
          }
        }
        var s := NextSeq(a);
        rows := rows[k := SyncRow(r.envelope, s, r.deleted, now, if r.deleted then r.deletedAt else None)];
        written := written + 1;
        if s > maxSeq { maxSeq := s; }
      }
      assert rs[..|rs|] == rs;
    }

    method ListRows(app: App, a: Account, since: nat, limit: nat) returns (records: seq<RowRecord>, more: bool)
      ensures exists page :: IsPage(RowsAbove(State(), app, a, since), limit, page, more) &&
                             records == RowRecords(State(), page)
    {
      var c := RowsAbove(State(), app, a, since);
      var ks := SelectOrdered(c, limit + 1);
      OverFetch(c, limit, ks);
      more := |ks| > limit;
      var page := if more then ks[..limit] else ks;
      records := RowRecords(State(), page);
    }

    method SoftDeleteRow(app: App, a: Account, id: EntityId, deletedAt: Option<int>, now: int)
                         returns (r: Option<SoftDeleted>)
      modifies this`counters, this`rows
      ensures (State(), r) == SoftDelete(old(State()), app, a, id, deletedAt, now)
    {
      var k := RowKey(a, app, id);
      if k !in rows {
        return None;
      }
      if rows[k].deleted {
        return Some(SoftDeleted(rows[k].stamp, true));
      }
      var s := NextSeq(a);
      rows := rows[k := rows[k].(deleted := true, stamp := s, mtime := now, deletedAt := deletedAt)];
      r := Some(SoftDeleted(s, false));
    }

    // ---------- Intents ----------

    method AddIntents(a: Account, es: seq<IntentInput>, now: int) returns (written: nat, maxSeq: nat)
      modifies this`counters, this`intents
      ensures Tally(State(), written, maxSeq) == InsertIntents(old(State()), a, es, now)
    {
      written, maxSeq := 0, 0;
      for i := 0 to |es|
        invariant Tally(State(), written, maxSeq) == InsertEvents(old(State()), a, es[..i], now)
      {
        var e, k := es[i], IntentKey(a, es[i].id);
        assert es[..i + 1][..i] == es[..i];
        if k in intents {
          continue;
        }
        var s := NextSeq(a);
        intents := intents[k := Intent(e.envelope, s, e.expiresAt, now)];
        written := written + 1;
        if s > maxSeq { maxSeq := s; }
      }
      assert es[..|es|] == es;
      PruneExpiredFor(a, now);
    }

    method PruneExpiredFor(a: Account, now: int)
      modifies this`intents
      ensures State() == PruneFor(old(State()), a, now)
    {
      intents := map k | k in intents && !(k.account == a && intents[k].expiresAt <= now) :: intents[k];
    }

    method PruneExpired(now: int)
      modifies this`intents
      ensures State() == PruneAll(old(State()), now)
    {
      intents := map k | k in intents && !(intents[k].expiresAt <= now) :: intents[k];
    }

    method ListIntents(a: Account, since: nat, limit: nat, now: int) returns (records: seq<IntentRecord>, more: bool)
      ensures exists page :: IsPage(IntentsAbove(State(), a, since, now), limit, page, more) &&
                             records == IntentRecords(State(), page)
    {
      var c := IntentsAbove(State(), a, since, now);
      var ks := SelectOrdered(c, limit + 1);
      OverFetch(c, limit, ks);
      more := |ks| > limit;
      var page := if more then ks[..limit] else ks;
      records := IntentRecords(State(), page);
    }

    // ---------- Devices ----------

    method UpdateDeviceCursor(a: Account, d: DeviceId, lastSeen: nat, now: int)
      modifies this`devices
      ensures State() == ReportCursor(old(State()), a, d, lastSeen, now)
    {
      var k := DeviceKey(a, d);
      var seen := if k in devices && devices[k].lastSeen > lastSeen then devices[k].lastSeen else lastSeen;
      devices := devices[k := Device(seen, now)];
    }

    // ---------- Blobs ----------

    method InsertBlob(a: Account, h: Hash, size: nat, now: int)
      modifies this`counters, this`blobs
      ensures State() == InsertBlobIfAbsent(old(State()), a, h, size, now)
    {
      var k := BlobKey(a, h);
      if k !in blobs {
        var z := NextSeq(a);
        blobs := blobs[k := Blob(size, 0, Some(z), now, now)];
      }
    }

    method AddBlobReference(a: Account, h: Hash, now: int)
      modifies this`blobs
      ensures State() == AddReference(old(State()), a, h, now)
    {
      var k := BlobKey(a, h);
      if k in blobs {
        var b := blobs[k];
        blobs := blobs[k := b.(refCount := b.refCount + 1, zeroRef := None, lastActivity := now)];
      }
    }

    method ReleaseBlobReference(a: Account, h: Hash, now: int)
      modifies this`counters, this`blobs
      ensures State() == ReleaseReference(old(State()), a, h, now)
    {
      var k := BlobKey(a, h);
      if k !in blobs {
        return;
      }
      var b := blobs[k];
      if b.refCount <= 0 {
        blobs := blobs[k := b.(lastActivity := now)];
        return;
      }
      var count := b.refCount - 1;
      var zero := b.zeroRef;
      if count == 0 {
        var z := NextSeq(a);
        zero := Some(z);
      }
      blobs := blobs[k := b.(refCount := count, zeroRef := zero, lastActivity := now)];
    }

    method DeleteBlob(a: Account, h: Hash)
      modifies this`blobs
      ensures State() == DropBlobs(old(State()), {BlobKey(a, h)})
    {
      blobs := blobs - {BlobKey(a, h)};
    }

    // ---------- Upload sessions ----------

    method CreateUploadSession(a: Account, u: UploadId, h: Hash, size: nat, now: int) returns (ok: bool)
      modifies this`sessions
      ensures ok == (u !in old(sessions))
      ensures State() == if ok then old(State()).(sessions := old(sessions)[u := Session(a, h, size, now)])
          else old(State())
    {
      ok := u !in sessions;
      if ok {
        sessions := sessions[u := Session(a, h, size, now)];
      }
    }

    method RecordUploadPart(a: Account, u: UploadId, index: nat, size: nat)
      modifies this`parts
      ensures State() == RecordPart(old(State()), a, u, index, size)
    {
      if u in sessions && sessions[u].account == a {
        parts := parts[PartKey(u, index) := size];
      }
    }

    /** The session's acked bytes, and the size recorded for one index (0 if none). */
    method MeasureParts(u: UploadId, index: nat) returns (received: nat, prior: nat)
      ensures received == ReceivedBytes(State(), u)
      ensures prior == if PartKey(u, index) in parts then parts[PartKey(u, index)] else 0
    {
      received := Total(Parts(State(), u));
      prior := if PartKey(u, index) in parts then parts[PartKey(u, index)] else 0;
    }

    method DeleteUploadSession(u: UploadId)
      modifies this`sessions, this`parts
      ensures State() == DropSessions(old(State()), {u})
    {
      sessions := sessions - {u};
      parts := PartsExcept(parts, {u});
    }

    // ---------- Aggregates for the quota gate ----------

    method BlobFootprint(a: Account) returns (fp: Footprint)
      ensures fp == FootprintOf(State(), a)
    {
      var stored := Total(BlobSizes(State(), a));
      var declared := Total(Reservations(State(), a));
      fp := Footprint(stored, |Reservations(State(), a)|, declared);
    }

    method CountExistingEntities(app: App, a: Account, ids: seq<EntityId>) returns (n: nat)
      ensures n == ChunkedExisting(EntityIds(State(), app, a), ids)
    {
      n := CountInSlices(EntityIds(State(), app, a), ids);
    }

    method CountExistingIntentEvents(a: Account, ids: seq<EventId>) returns (n: nat)
      ensures n == ChunkedExisting(EventIds(State(), a), ids)
    {
      n := CountInSlices(EventIds(State(), a), ids);
    }

    // ---------- Credentials ----------

    /** Supersede, then insert; an id already taken breaks the primary key and nothing changes. */
    method IssueCredential(c: CredentialId, a: Account, d: DeviceId, now: int) returns (ok: bool)
      modifies this`credentials
      ensures ok == (c !in old(credentials))
      ensures State() == if ok then Issue(old(State()), c, a, d, now) else old(State())
    {
      ok := c !in credentials;
      if ok {
        credentials := StampRevoked(State(), Superseded(State(), a, d), now).credentials;
        credentials := credentials[c := Credential(a, d, None)];
      }
    }

    /** A second revocation changes nothing: the first instant stays. */
    method RevokeCredential(c: CredentialId, now: int) returns (known: bool, revokedNow: bool)
      modifies this`credentials
      ensures State() == if revokedNow then StampRevoked(old(State()), {c}, now) else old(State())
      ensures known == (c in old(credentials)) && revokedNow == (known && old(credentials)[c].revokedAt.None?)
    {
      known := c in credentials;
      revokedNow := known && credentials[c].revokedAt.None?;
      if revokedNow {
        credentials := credentials[c := credentials[c].(revokedAt := Some(now))];
        assert credentials == StampRevoked(old(State()), {c}, now).credentials;
      }
    }

    /** The credentials a key rotation revokes: all active ones, if asked to. */
    method RotateAccountKey(a: Account, revokeDevices: bool, now: int) returns (r: Option<set<CredentialId>>)
      modifies this`credentials
      ensures r == if a !in registry then None
          else Some(if revokeDevices then ActiveCredentials(old(State()), a) else {})
      ensures State() == if r.Some? then StampRevoked(old(State()), r.value, now) else old(State())
    {
      if a !in registry {
        return None;
      }
      var revoked := if revokeDevices then ActiveCredentials(State(), a) else {};
      credentials := StampRevoked(State(), revoked, now).credentials;
      r := Some(revoked);
    }

    // ---------- Accounts ----------

    /** Check and insert in one transaction; adopting an id that already holds data moves no row. */
    method CreateAccount(a: Account, maxAccounts: Option<nat>) returns (existing: bool, full: bool)
      modifies this`registry
      ensures existing == (a in old(registry))
      ensures full == (maxAccounts.Some? && |old(registry)| >= maxAccounts.value)
      ensures State() == if existing || full then old(State()) else old(State()).(registry := old(registry) + {a})
    {
      existing, full := a in registry, maxAccounts.Some? && |registry| >= maxAccounts.value;
      if !existing && !full {
        registry := registry + {a};
      }
    }

    /** One transaction: None when the account is not registered. */
    method RemoveAccount(a: Account) returns (r: Option<(nat, set<CredentialId>, set<Hash>, set<UploadId>)>)
      modifies this
      ensures a !in old(registry) ==> r.None? && State() == old(State())
      ensures a in old(registry) ==>
                && State() == DropAccount(old(State()), a)
                && r == Some((|AccountRows(old(State()), a)|, ActiveCredentials(old(State()), a),
                    UnheldHashes(old(State()), a), SessionsOf(old(State()), a)))
    {
      if a !in registry {
        return None;
      }
      var active := ActiveCredentials(State(), a);
      var held := set k | k in blobs && k.account == a :: k.hash;
      var uploads := SessionsOf(State(), a);
      var deletedRows := |AccountRows(State(), a)|;
      PurgeTables(a);
      var unheld := set h | h in held && forall k :: k in blobs ==> k.hash != h;
      UnheldAfter(old(State()), a, held);
      r := Some((deletedRows, active, unheld, uploads));
    }

    method PurgeTables(a: Account)
      modifies this
      ensures State() == DropAccount(old(State()), a)
    {
      var uploads := SessionsOf(State(), a);
      rows := RowsExcept(rows, a);
      intents := IntentsExcept(intents, a);
      devices := DevicesExcept(devices, a);
      counters := counters - {a};
      blobs := BlobsExcept(blobs, a);
      sessions := sessions - uploads;
      parts := PartsExcept(parts, uploads);
      credentials := CredentialsExcept(credentials, a);
      registry := registry - {a};
    }
  }

  /** Filtering the account's hashes by what is held once its rows are gone finds the unheld ones. */
  lemma UnheldAfter(db: Db, a: Account, held: set<Hash>)
    requires held == set k | k in db.blobs && k.account == a :: k.hash
    ensures (set h | h in held && forall k :: k in BlobsExcept(db.blobs, a) ==> k.hash != h) == UnheldHashes(db, a)
  {
    var left := BlobsExcept(db.blobs, a);
    forall k | k in db.blobs && k.account == a
      ensures (forall j :: j in left ==> j.hash != k.hash) <==>
          (forall j :: j in db.blobs && j.hash == k.hash ==> j.account == a)
    {
      assert forall j :: j in db.blobs && j.account != a ==> j in left;
    }
  }

  /** One IN (...) count per slice of IN_CHUNK ids. */
  method CountInSlices<T(==, !new)>(present: set<T>, ids: seq<T>) returns (n: nat)
    ensures n == ChunkedExisting(present, ids)
  {
    n := 0;
    var i := 0;
    ghost var q := 0;
    while i < |ids|
      invariant i == q * IN_CHUNK
      invariant n == ChunkedCount(present, ids, Min(i, |ids|))
    {
      var hi := Min(i + IN_CHUNK, |ids|);
      NextSlice(q, hi);
      n := n + CountIn(present, ids[i..hi]);
      i, q := i + IN_CHUNK, q + 1;
    }
  }

  lemma NextSlice(q: nat, hi: nat)
    requires q * IN_CHUNK < hi <= q * IN_CHUNK + IN_CHUNK
    ensures SliceStart(hi) == q * IN_CHUNK
  {
  }
}
