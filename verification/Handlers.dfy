/** The server: the request handlers and sweeps as methods over the store and the blob store. Each
    is tied to the step of `Vault` it performs, state and reply. */
module Handlers {
  import opened Collections
  import opened Model
  import opened Tables
  import opened Quotas
  import opened Vault
  import opened Store
  import opened DiskStore

  class Server {
    const cfg: Config
    const store: SqliteStore
    const disk: DiskBlobStore

    constructor (cfg: Config)
      ensures this.cfg == cfg && fresh(store) && fresh(disk)
      ensures Now() == EMPTY_WORLD
    {
      this.cfg := cfg;
      store := new SqliteStore();
      disk := new DiskBlobStore();
    }

    ghost function Now(): World
      reads this, store, disk
    {
      World(store.State(), disk.State())
    }

    // ---------- sync and intents ----------

    method HandleSyncBatch(app: App, a: Account, rs: seq<SyncInput>, now: int) returns (reply: Reply)
      modifies store
      ensures (Now(), reply) == DoSyncBatch(cfg, old(Now()), app, a, rs, now)
    {
      if cfg.policy.rows.Some? {
        var ids := Ids(rs);
        var existing := store.CountExistingEntities(app, a, ids);
        var verdict := AdmitSyncBatch(cfg.policy, |AccountRows(store.State(), a)|, ids, existing);
        if verdict.Some? {
          return Rejected(verdict.value);
        }
      }
      var written, maxSeq := store.BatchUpsert(app, a, rs, now);
      reply := Written(written, maxSeq);
    }

    method HandleDeleteRow(app: App, a: Account, id: EntityId, deletedAt: Option<int>, now: int) returns (reply: Reply)
      modifies store
      ensures (Now(), reply) == DoDeleteRow(old(Now()), app, a, id, deletedAt, now)
    {
      var r := store.SoftDeleteRow(app, a, id, deletedAt, now);
      reply := if r.None? then NotFound else Deleted(r.value.stamp, r.value.already);
    }

    method HandleSendIntents(a: Account, es: seq<IntentInput>, now: int) returns (reply: Reply)
      modifies store
      ensures (Now(), reply) == DoSendIntents(cfg, old(Now()), a, es, now)
    {
      if cfg.policy.intents.Some? {
        var ids := IntentIds(es);
        var existing := store.CountExistingIntentEvents(a, ids);
        var verdict := AdmitIntents(cfg.policy, |CurrentIntents(store.State(), a, now)|, ids, existing);
        if verdict.Some? {
          return Rejected(verdict.value);
        }
      }
      var written, maxSeq := store.AddIntents(a, es, now);
      reply := Written(written, maxSeq);
    }

    // ---------- uploads ----------

    method HandleInitiate(a: Account, u: UploadId, h: Hash, size: nat, now: int) returns (reply: Reply)
      modifies store
      ensures (Now(), reply) == DoInitiate(cfg, old(Now()), a, u, h, size, now)
    {
      if size > cfg.maxBlobSize {
        return TooLarge;
      }
      if BlobKey(a, h) in store.blobs {
        return Exists;
      }
      var fp := store.BlobFootprint(a);
      var verdict := AdmitUpload(cfg.policy, fp, size);
      if verdict.Some? {
        return Rejected(verdict.value);
      }
      var ok := store.CreateUploadSession(a, u, h, size, now);
      reply := if ok then Created else Failed;
    }

    method HandlePutPart(a: Account, u: UploadId, index: nat, bytes: Bytes) returns (reply: Reply)
      modifies store, disk
      ensures (Now(), reply) == DoPutPart(old(Now()), a, u, index, bytes)
    {
      if !Owns(store.State(), a, u) {
        return NotFound;
      }
      var received, prior := store.MeasureParts(u, index);
      if received - prior + |bytes| > store.sessions[u].declaredSize {
        return BadRequest;
      }
      disk.StagePart(u, index, bytes);
      store.RecordUploadPart(a, u, index, |bytes|);
      var acked, _ := store.MeasureParts(u, index);
      reply := Acked(acked);
    }

    /** Staged bytes first, then the session row; a session that is not the account's is left alone. */
    method DiscardUpload(a: Account, u: UploadId)
      modifies store, disk
      ensures Now() == Discard(old(Now()), a, u)
    {
      if Owns(store.State(), a, u) {
        disk.DiscardSession(u);
        store.DeleteUploadSession(u);
      }
    }

    /** The checks of finalize, in the route's order. */
    method Inspect(a: Account, u: UploadId) returns (j: Judgement)
      ensures j == Judge(cfg, Now(), a, u)
    {
      if !Owns(store.State(), a, u) {
        return Unowned;
      }
      var h := store.sessions[u].hash;
      if BlobKey(a, h) in store.blobs {
        return AlreadyStored(store.blobs[BlobKey(a, h)].size);
      }
      var assembled := disk.Join(u, PartIndexes(store.State(), u));
      if assembled.None? {
        return MissingPart;
      }
      if |assembled.value| > cfg.maxBlobSize {
        return Oversize;
      }
      if cfg.sha(assembled.value) != h {
        return Mismatch;
      }
      var fp := store.BlobFootprint(a);
      var verdict := AdmitFinalize(cfg.policy, fp, |assembled.value|);
      j := if verdict.Some? then OverQuota(verdict.value) else Genuine(assembled.value);
    }

    method HandleFinalize(a: Account, u: UploadId, now: int) returns (reply: Reply)
      modifies store, disk
      ensures (Now(), reply) == DoFinalize(cfg, old(Now()), a, u, now)
    {
      var j := Inspect(a, u);
      reply := FinalizeReply(j);
      if j.Unowned? || j.MissingPart? || j.Oversize? {
        return;
      }
      StoreIfGenuine(a, j, now);
      DiscardUpload(a, u);
    }

    /** Bytes first, then the row. */
    method StoreIfGenuine(a: Account, j: Judgement, now: int)
      modifies store, disk
      ensures Now() == StoreGenuine(cfg, old(Now()), a, j, now)
    {
      if j.Genuine? {
        var h := cfg.sha(j.bytes);
        disk.Write(h, j.bytes);
        store.InsertBlob(a, h, |j.bytes|, now);
      }
    }

    method HandleCancel(a: Account, u: UploadId) returns (reply: Reply)
      modifies store, disk
      ensures (Now(), reply) == DoCancel(old(Now()), a, u)
    {
      if !Owns(store.State(), a, u) {
        return NotFound;
      }
      DiscardUpload(a, u);
      reply := Done;
    }

    // ---------- references ----------

    method HandleAddRef(a: Account, h: Hash, now: int) returns (reply: Reply)
      modifies store
      ensures (Now(), reply) == DoAddRef(old(Now()), a, h, now)
    {
      store.AddBlobReference(a, h, now);
      reply := RefReply(store.State(), a, h);
    }

    method HandleReleaseRef(a: Account, h: Hash, now: int) returns (reply: Reply)
      modifies store
      ensures (Now(), reply) == DoReleaseRef(old(Now()), a, h, now)
    {
      store.ReleaseBlobReference(a, h, now);
      reply := RefReply(store.State(), a, h);
    }

    // ---------- sweeps ----------

    /** Bytes first, then the row, one eligible blob at a time, in any order. */
    method Reclaim(p: ReclaimPolicy, now: int) returns (reclaimed: seq<BlobKey>)
      modifies store, disk
      ensures Now() == DoReclaim(old(Now()), p, now)
      ensures Distinct(reclaimed) == Swept(old(Now()).db, p, now) && |reclaimed| == |Swept(old(Now()).db, p, now)|
    {
      ghost var w := Now();
      var eligible := Swept(store.State(), p, now);
      var rest := eligible;
      reclaimed := [];
      DropNone(w.db, w.disk);
      assert eligible - rest == {};
      while rest != {}
        invariant rest <= eligible && Distinct(reclaimed) == eligible - rest
        invariant Now() == Reclaimed(w, eligible - rest)
        invariant |reclaimed| + |rest| == |eligible|
        decreases |rest|
      {
        var k :| k in rest;
        ReclaimOne(k, w, eligible - rest);
        reclaimed := reclaimed + [k];
        assert eligible - (rest - {k}) == (eligible - rest) + {k};
        rest := rest - {k};
      }
      assert eligible - {} == eligible;
    }

    method ReclaimOne(k: BlobKey, ghost w: World, ghost done: set<BlobKey>)
      requires Now() == Reclaimed(w, done)
      modifies store, disk
      ensures Now() == Reclaimed(w, done + {k})
    {
      DropOneMore(w.db, w.disk, done, k);
      disk.Delete(k.hash);
      store.DeleteBlob(k.account, k.hash);
    }

    /** Staged bytes first, then the row, one stale session at a time. */
    method Reap(ttl: nat, now: int) returns (swept: nat)
      modifies store, disk
      ensures Now() == DoReap(old(Now()), ttl, now)
      ensures swept == |StaleSessions(old(Now()).db, now - ttl)|
    {
      ghost var db, files := store.State(), disk.State();
      var stale := StaleSessions(store.State(), now - ttl);
      var rest := stale;
      ghost var done: set<UploadId> := {};
      swept := 0;
      ReapNone(db, files);
      while rest != {}
        invariant rest !! done && rest + done == stale
        invariant store.State() == DropSessions(db, done) && disk.State() == DiscardStaged(files, done)
        invariant swept + |rest| == |stale|
        decreases |rest|
      {
        var u :| u in rest;
        ReapOneMore(db, files, done, u);
        disk.DiscardSession(u);
        store.DeleteUploadSession(u);
        swept := swept + 1;
        rest, done := rest - {u}, done + {u};
      }
    }

    // ---------- accounts ----------

    method DiscardAll(us: set<UploadId>)
      modifies disk
      ensures disk.State() == DiscardStaged(old(disk.State()), us)
    {
      ghost var files := disk.State();
      var rest := us;
      ghost var done: set<UploadId> := {};
      ReapNone(EMPTY_DB, files);
      while rest != {}
        invariant rest !! done && rest + done == us && disk.State() == DiscardStaged(files, done)
        decreases |rest|
      {
        var u :| u in rest;
        ReapOneMore(EMPTY_DB, files, done, u);
        disk.DiscardSession(u);
        rest, done := rest - {u}, done + {u};
      }
    }

    method DeleteAll(hs: set<Hash>)
      modifies disk
      ensures disk.State() == DeleteFiles(old(disk.State()), hs)
    {
      ghost var files := disk.State();
      var rest := hs;
      ghost var done: set<Hash> := {};
      DropNone(EMPTY_DB, files);
      while rest != {}
        invariant rest !! done && rest + done == hs && disk.State() == DeleteFiles(files, done)
        decreases |rest|
      {
        var h :| h in rest;
        disk.Delete(h);
        assert files.files - done - {h} == files.files - (done + {h});
        rest, done := rest - {h}, done + {h};
      }
    }

    method HandleCreateAccount(a: Account) returns (reply: Reply)
      modifies store
      ensures (Now(), reply) == DoCreateAccount(cfg, old(Now()), a)
    {
      var existing, full := store.CreateAccount(a, cfg.maxAccounts);
      reply := if existing then Exists else if full then AtLimit else Created;
    }

    method HandleDeleteAccount(a: Account) returns (reply: Reply)
      modifies store, disk
      ensures (Now(), reply) == DoDeleteAccount(old(Now()), a)
    {
      var r := store.RemoveAccount(a);
      if r.None? {
        return NotFound;
      }
      var (deletedRows, active, hashes, uploads) := r.value;
      DiscardAll(uploads);
      DeleteAll(hashes);
      reply := Removed(deletedRows, active, hashes);
    }

    // ---------- one request ----------

    method Perform(op: Op, now: int) returns (reply: Reply)
      modifies store, disk
      ensures Now() == Apply(cfg, old(Now()), op, now)
      ensures reply == Serve(cfg, old(Now()), op, now).1
    {
      if op.SyncBatch? || op.DeleteRow? || op.SendIntents? || op.PruneIntents? || op.DeviceCursor? {
        reply := PerformLog(op, now);
      } else {
        reply := PerformBlobs(op, now);
      }
    }

    method PerformLog(op: Op, now: int) returns (reply: Reply)
      requires op.SyncBatch? || op.DeleteRow? || op.SendIntents? || op.PruneIntents? || op.DeviceCursor?
      modifies store
      ensures (Now(), reply) == Serve(cfg, old(Now()), op, now)
    {
      match op {
        case SyncBatch(a, app, rows, _) => reply := HandleSyncBatch(app, a, rows, now);
        case DeleteRow(a, app, id, deletedAt) => reply := HandleDeleteRow(app, a, id, deletedAt, now);
        case SendIntents(a, events) => reply := HandleSendIntents(a, events, now);
        case PruneIntents => store.PruneExpired(now); reply := Done;
        case DeviceCursor(a, d, lastSeen) => store.UpdateDeviceCursor(a, d, lastSeen, now); reply := Done;
      }
    }

    method PerformBlobs(op: Op, now: int) returns (reply: Reply)
      requires !op.SyncBatch? && !op.DeleteRow? && !op.SendIntents? && !op.PruneIntents? && !op.DeviceCursor?
      modifies store, disk
      ensures (Now(), reply) == Serve(cfg, old(Now()), op, now)
    {
      match op {
        case Initiate(a, u, h, size) => reply := HandleInitiate(a, u, h, size, now);
        case PutPart(a, u, index, bytes) => reply := HandlePutPart(a, u, index, bytes);
        case Finalize(a, u) => reply := HandleFinalize(a, u, now);
        case Cancel(a, u) => reply := HandleCancel(a, u);
        case AddRef(a, h) => reply := HandleAddRef(a, h, now);
        case ReleaseRef(a, h) => reply := HandleReleaseRef(a, h, now);
        case ReclaimSweep(p) => var _ := Reclaim(p, now); reply := Done;
        case ReapSweep(ttl) => var _ := Reap(ttl, now); reply := Done;
        case CreateAccount(a) => reply := HandleCreateAccount(a);
        case DeleteAccount(a) => reply := HandleDeleteAccount(a);
      }
    }
  }

  lemma DropNone(db: Db, disk: Disk)
    ensures DropBlobs(db, {}) == db && DeleteFiles(disk, Hashes({})) == disk && DeleteFiles(disk, {}) == disk
  {
    assert db.blobs - {} == db.blobs && disk.files - {} == disk.files;
    assert Hashes({}) == {};
  }

  lemma DropOneMore(db: Db, disk: Disk, done: set<BlobKey>, k: BlobKey)
    ensures DropBlobs(DropBlobs(db, done), {k}) == DropBlobs(db, done + {k})
    ensures DeleteFiles(DeleteFiles(disk, Hashes(done)), {k.hash}) == DeleteFiles(disk, Hashes(done + {k}))
  {
    assert db.blobs - done - {k} == db.blobs - (done + {k});
    assert Hashes(done + {k}) == Hashes(done) + {k.hash};
    assert disk.files - Hashes(done) - {k.hash} == disk.files - (Hashes(done) + {k.hash});
  }

  lemma ReapNone(db: Db, disk: Disk)
    ensures DropSessions(db, {}) == db && DiscardStaged(disk, {}) == disk
  {
    assert db.sessions - {} == db.sessions && PartsExcept(db.parts, {}) == db.parts;
    assert DiscardStaged(disk, {}).staged == disk.staged;
  }

  lemma ReapOneMore(db: Db, disk: Disk, done: set<UploadId>, u: UploadId)
    ensures DropSessions(DropSessions(db, done), {u}) == DropSessions(db, done + {u})
    ensures DiscardStaged(DiscardStaged(disk, done), {u}) == DiscardStaged(disk, done + {u})
  {
    assert db.sessions - done - {u} == db.sessions - (done + {u});
    assert PartsExcept(PartsExcept(db.parts, done), {u}) == PartsExcept(db.parts, done + {u});
    assert DiscardStaged(DiscardStaged(disk, done), {u}).staged == DiscardStaged(disk, done + {u}).staged;
  }
}
