/** Content addressing over whole runs: what the blob store holds under an address hashes to it,
    and the metadata rows agree with the bytes; and what each way of deleting does to the promise
    that every metadata row has its bytes. */
module Integrity {
  import opened Collections
  import opened Model
  import opened Tables
  import opened Vault
  import opened Views

  /** Bytes stored under h hash to h. */
  ghost predicate FilesHash(cfg: Config, disk: Disk) {
    forall h :: h in disk.files ==> cfg.sha(disk.files[h]) == h
  }

  ghost predicate SomeBytes(cfg: Config, h: Hash, size: nat) {
    exists bytes: Bytes :: cfg.sha(bytes) == h && |bytes| == size
  }

  /** Every row's size is the length of some bytes with the row's hash. */
  ghost predicate RowsHash(cfg: Config, db: Db) {
    forall k :: k in db.blobs ==> SomeBytes(cfg, k.hash, db.blobs[k].size)
  }

  ghost predicate CollisionFree(cfg: Config) {
    forall x: Bytes, y: Bytes :: cfg.sha(x) == cfg.sha(y) ==> x == y
  }

  ghost predicate SizesMatch(w: World) {
    forall k :: k in w.db.blobs && k.hash in w.disk.files ==> |w.disk.files[k.hash]| == w.db.blobs[k].size
  }

  ghost predicate RowsHaveBytes(w: World) {
    forall k :: k in w.db.blobs ==> k.hash in w.disk.files
  }

  // ---------- What every operation does to blobs and files ----------

  /** Files and rows only go, and the rest keep their bytes and sizes. */
  predicate OnlyDrops(w: World, w': World) {
    && (forall h :: h in w'.disk.files ==> h in w.disk.files && w'.disk.files[h] == w.disk.files[h])
    && (forall k :: k in w'.db.blobs ==> k in w.db.blobs && w'.db.blobs[k].size == w.db.blobs[k].size)
  }

  /** Apart from finalize, operations only drop files and rows; and only the sweep and account
      deletion drop any. */
  lemma BlobsShape(cfg: Config, w: World, op: Op, now: int)
    requires !op.Finalize?
    ensures OnlyDrops(w, Apply(cfg, w, op, now))
    ensures var w' := Apply(cfg, w, op, now);
            !op.ReclaimSweep? && !op.DeleteAccount? ==>
                w'.disk.files == w.disk.files && w'.db.blobs.Keys == w.db.blobs.Keys
  {
    match op
    case SyncBatch(a, app, rows, _) => LogLeavesBlobs(w.db, app, a, rows, now);
    case SendIntents(a, events) => EventsLeaveBlobs(w.db, a, events, now);
    case ReleaseRef(a, h) => ReleaseShape(w.db, a, h, now);
    case _ =>
  }

  lemma {:induction false} LogLeavesBlobs(db: Db, app: App, a: Account, rs: seq<SyncInput>, now: int)
    ensures UpsertBatch(db, app, a, rs, now).db.blobs == db.blobs
    decreases |rs|
  {
    if rs == [] {
    } else {
      LogLeavesBlobs(db, app, a, rs[..|rs| - 1], now);
    }
  }

  lemma {:induction false} EventsLeaveBlobs(db: Db, a: Account, es: seq<IntentInput>, now: int)
    ensures InsertEvents(db, a, es, now).db.blobs == db.blobs
    decreases |es|
  {
    if es == [] {
    } else {
      EventsLeaveBlobs(db, a, es[..|es| - 1], now);
    }
  }

  /** Finalize stores nothing, or genuine bytes under their own address together with their row. */
  lemma FinalizeBlobs(cfg: Config, w: World, a: Account, u: UploadId, now: int)
    ensures var w' := DoFinalize(cfg, w, a, u, now).0; var j := Judge(cfg, w, a, u);
      && (!j.Genuine? ==> w'.db.blobs == w.db.blobs && w'.disk.files == w.disk.files)
      && (j.Genuine? ==>
            var h := w.db.sessions[u].hash;
            && Owns(w.db, a, u) && cfg.sha(j.bytes) == h && BlobKey(a, h) !in w.db.blobs
            && |j.bytes| <= cfg.maxBlobSize
            && w'.db.blobs == w.db.blobs[BlobKey(a, h) := Blob(|j.bytes|, 0, Some(Counter(w.db, a) + 1), now, now)]
            && w'.disk.files == Put(w.disk, h, j.bytes).files)
  {
  }

  // ---------- Content-address integrity ----------

  lemma StepIntegrity(cfg: Config, w: World, op: Op, now: int)
    requires FilesHash(cfg, w.disk) && RowsHash(cfg, w.db)
    ensures var w' := Apply(cfg, w, op, now); FilesHash(cfg, w'.disk) && RowsHash(cfg, w'.db)
  {
    var w' := Apply(cfg, w, op, now);
    if op.Finalize? {
      FinalizeBlobs(cfg, w, op.account, op.upload, now);
      var j := Judge(cfg, w, op.account, op.upload);
      forall k | k in w'.db.blobs ensures SomeBytes(cfg, k.hash, w'.db.blobs[k].size) {
        if j.Genuine? && k == BlobKey(op.account, w.db.sessions[op.upload].hash) {
          assert cfg.sha(j.bytes) == k.hash;
        } else {
          assert k in w.db.blobs;
        }
      }
    } else {
      BlobsShape(cfg, w, op, now);
    }
  }

  /** In every reachable state bytes stored under h hash to h, and a row whose bytes are present
      has exactly their length: across skipped writes of bytes already there, reclaim, account
      deletion, and later uploads of a reclaimed address. */
  lemma {:induction false} ContentAddressed(cfg: Config, ss: seq<World>, ops: seq<Op>, ts: seq<int>, n: nat)
    requires Trace(cfg, ss, ops, ts) && n <= |ops|
    requires FilesHash(cfg, ss[0].disk) && RowsHash(cfg, ss[0].db)
    ensures FilesHash(cfg, ss[n].disk) && RowsHash(cfg, ss[n].db)
    ensures CollisionFree(cfg) ==> SizesMatch(ss[n])
  {
    if n == 0 {
    } else {
      ContentAddressed(cfg, ss, ops, ts, n - 1);
      StepIntegrity(cfg, ss[n - 1], ops[n - 1], ts[n - 1]);
    }
    if CollisionFree(cfg) {
      Sized(cfg, ss[n]);
    }
  }

  lemma Sized(cfg: Config, w: World)
    requires FilesHash(cfg, w.disk) && RowsHash(cfg, w.db) && CollisionFree(cfg)
    ensures SizesMatch(w)
  {
    forall k | k in w.db.blobs && k.hash in w.disk.files ensures |w.disk.files[k.hash]| == w.db.blobs[k].size {
      var bytes: Bytes :| cfg.sha(bytes) == k.hash && |bytes| == w.db.blobs[k].size;
      assert cfg.sha(bytes) == cfg.sha(w.disk.files[k.hash]);
    }
  }

  /** Stored bytes are never rewritten: whatever the operation, a file stays as it is or goes. */
  lemma NeverRewritten(cfg: Config, w: World, op: Op, now: int)
    ensures var w' := Apply(cfg, w, op, now);
      forall h :: h in w.disk.files && h in w'.disk.files ==> w'.disk.files[h] == w.disk.files[h]
  {
    if op.Finalize? {
      FinalizeRewritesNone(cfg, w, op.account, op.upload, now);
    } else {
      BlobsShape(cfg, w, op, now);
    }
  }

  lemma FinalizeRewritesNone(cfg: Config, w: World, a: Account, u: UploadId, now: int)
    ensures var w' := DoFinalize(cfg, w, a, u, now).0;
      forall h :: h in w.disk.files ==> h in w'.disk.files && w'.disk.files[h] == w.disk.files[h]
  {
    var j := Judge(cfg, w, a, u);
    StoreRewritesNone(cfg, w, a, j, now);
    DiscardFrame(StoreGenuine(cfg, w, a, j, now), a, u);
  }

  lemma StoreRewritesNone(cfg: Config, w: World, a: Account, j: Judgement, now: int)
    ensures var w' := StoreGenuine(cfg, w, a, j, now);
      forall h :: h in w.disk.files ==> h in w'.disk.files && w'.disk.files[h] == w.disk.files[h]
  {
  }

  // ---------- Every row has its bytes ----------

  /** Some other row, not swept itself, holds the address of a swept one. */
  ghost predicate SharedAddress(w: World, p: ReclaimPolicy, now: int) {
    exists k, j :: k in Swept(w.db, p, now) && j in w.db.blobs && j !in Swept(w.db, p, now) && j.hash == k.hash
  }

  /** A reclaim sweep keeps "every row has its bytes" if and only if no row outside the sweep holds
      a swept address: the sweep deletes bytes without asking who else holds them. */
  lemma SweepKeepsBytes(w: World, p: ReclaimPolicy, now: int)
    requires RowsHaveBytes(w)
    ensures RowsHaveBytes(DoReclaim(w, p, now)) <==> !SharedAddress(w, p, now)
  {
    var swept, w' := Swept(w.db, p, now), DoReclaim(w, p, now);
    if k, j :| k in swept && j in w.db.blobs && j !in swept && j.hash == k.hash {
      assert k.hash in Hashes(swept);
      assert j in w'.db.blobs && j.hash !in w'.disk.files;
    } else {
      forall j | j in w'.db.blobs ensures j.hash in w'.disk.files {
        assert j in w.db.blobs && j !in swept;
        assert j.hash !in Hashes(swept);
      }
    }
  }

  /** Every operation but a sweep that hits a shared address keeps every row's bytes. */
  lemma StepKeepsBytes(cfg: Config, w: World, op: Op, now: int)
    requires RowsHaveBytes(w)
    requires op.ReclaimSweep? ==> !SharedAddress(w, op.policy, now)
    ensures RowsHaveBytes(Apply(cfg, w, op, now))
  {
    match op
    case Finalize(a, u) => FinalizeBlobs(cfg, w, a, u, now);
    case ReclaimSweep(p) => SweepKeepsBytes(w, p, now);
    case DeleteAccount(a) => DeletionKeepsBytes(w, a);
    case _ => BlobsShape(cfg, w, op, now);
  }

  lemma {:induction false} EveryRowHasBytes(cfg: Config, ss: seq<World>, ops: seq<Op>, ts: seq<int>, n: nat)
    requires Trace(cfg, ss, ops, ts) && n <= |ops| && RowsHaveBytes(ss[0])
    requires forall i :: 0 <= i < |ops| && ops[i].ReclaimSweep? ==> !SharedAddress(ss[i], ops[i].policy, ts[i])
    ensures RowsHaveBytes(ss[n])
  {
    if n == 0 {
    } else {
      EveryRowHasBytes(cfg, ss, ops, ts, n - 1);
      StepKeepsBytes(cfg, ss[n - 1], ops[n - 1], ts[n - 1]);
    }
  }

  // ---------- Account deletion ----------

  lemma DeletionKeepsBytes(w: World, a: Account)
    requires RowsHaveBytes(w)
    ensures RowsHaveBytes(DoDeleteAccount(w, a).0)
  {
    if a in w.db.registry {
      var w' := DoDeleteAccount(w, a).0;
      forall k | k in w'.db.blobs ensures k.hash in w'.disk.files {
        assert k in w.db.blobs && k.account != a;
        assert k.hash !in UnheldHashes(w.db, a);
      }
    }
  }

  /** No table has a row of the account, nor a part of one of its sessions. */
  ghost predicate Gone(w: World, a: Account) {
    && a !in w.db.counters && a !in w.db.registry
    && (forall k :: k in w.db.rows ==> k.account != a)
    && (forall k :: k in w.db.intents ==> k.account != a)
    && (forall k :: k in w.db.devices ==> k.account != a)
    && (forall k :: k in w.db.blobs ==> k.account != a)
    && (forall u :: u in w.db.sessions ==> w.db.sessions[u].account != a)
    && (forall c :: c in w.db.credentials ==> w.db.credentials[c].account != a)
  }

  /** Account deletion, the transaction and the byte removal together: nothing of the account is
      left, every other account's rows are untouched, staged bytes of the account's sessions are
      gone, and the files deleted are exactly those only this account held. */
  lemma DeletionComposes(w: World, a: Account)
    requires a in w.db.registry
    ensures var (w', reply) := DoDeleteAccount(w, a);
      && Gone(w', a)
      && (forall b :: b != a ==> Agree(w, w', b))
      && (forall h :: h in w.disk.files && h !in w'.disk.files <==> h in w.disk.files && OnlyHolder(w.db, a, h))
      && (forall h :: h in w'.disk.files ==> h in w.disk.files && w'.disk.files[h] == w.disk.files[h])
      && (forall k :: k in w'.disk.staged <==> k in w.disk.staged && !Owns(w.db, a, k.upload))
      && (forall k :: k in w'.disk.staged ==> w'.disk.staged[k] == w.disk.staged[k])
      && reply.Removed? && reply.deletedRows == |AccountRows(w.db, a)|
      && (forall h :: h in reply.blobs <==> OnlyHolder(w.db, a, h))
      && (forall c :: c in reply.credentials <==> IsLive(w.db, a, c))
      && (forall c :: IsLive(w.db, a, c) ==> c !in w'.db.credentials)
  {
    var w' := DoDeleteAccount(w, a).0;
    forall h ensures h in UnheldHashes(w.db, a) <==> OnlyHolder(w.db, a, h) {
    }
    forall b | b != a ensures Agree(w, w', b) {
      DeletionSpares(w, a, b);
    }
  }

  /** The credential is one of the account's and has not been revoked. */
  ghost predicate IsLive(db: Db, a: Account, c: CredentialId) {
    c in db.credentials && db.credentials[c].account == a && db.credentials[c].revokedAt.None?
  }

  lemma DeletionSpares(w: World, a: Account, b: Account)
    requires a in w.db.registry && a != b
    ensures Agree(w, DoDeleteAccount(w, a).0, b)
  {
  }

  /** The account holds the address and no other account does. */
  ghost predicate OnlyHolder(db: Db, a: Account, h: Hash) {
    BlobKey(a, h) in db.blobs && forall k :: k in db.blobs && k.hash == h ==> k.account == a
  }
}
