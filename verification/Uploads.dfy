/** Resumable upload in any order: a client holding a blob cut into chunks may send them in any
    order, repeat them and be interrupted; it is never refused, and finalize stores its bytes. */
module Uploads {
  import opened Collections
  import opened Model
  import opened Tables
  import opened Quotas
  import opened Vault
  import opened Staging
  import opened Integrity
  import opened QuotaRuns

  function Concat(chunks: seq<Bytes>): Bytes {
    if chunks == [] then [] else Concat(chunks[..|chunks| - 1]) + chunks[|chunks| - 1]
  }

  /** Every part acked so far in session u is a true chunk, staged under its own index. */
  ghost predicate TrueParts(w: World, u: UploadId, chunks: seq<Bytes>) {
    forall k :: k in w.db.parts && k.upload == u ==>
        k.index < |chunks| && k in w.disk.staged && w.disk.staged[k] == chunks[k.index]
  }

  /** What account a puts into session u are true chunks. */
  predicate SendsTrue(op: Op, a: Account, u: UploadId, chunks: seq<Bytes>) {
    op.PutPart? && op.account == a && op.upload == u ==> op.index < |chunks| && op.bytes == chunks[op.index]
  }

  /** No other account has the session. */
  predicate OnlyFor(db: Db, a: Account, u: UploadId) {
    u in db.sessions ==> db.sessions[u].account == a
  }

  /** Parts other accounts send for the session are refused, so only a's matter. */
  lemma StepTrue(cfg: Config, w: World, op: Op, now: int, a: Account, u: UploadId, chunks: seq<Bytes>)
    requires StagingSound(w) && OnlyFor(w.db, a, u) && TrueParts(w, u, chunks) && SendsTrue(op, a, u, chunks)
    ensures TrueParts(Apply(cfg, w, op, now), u, chunks)
  {
    if !op.Initiate? && !op.PutPart? {
      DropShape(cfg, w, op, now);
    }
  }

  lemma StepOnlyFor(cfg: Config, w: World, op: Op, now: int, a: Account, u: UploadId)
    requires OnlyFor(w.db, a, u) && (op.Initiate? && op.upload == u ==> op.account == a)
    ensures OnlyFor(Apply(cfg, w, op, now).db, a, u)
  {
    if !op.Initiate? && !op.PutPart? {
      DropShape(cfg, w, op, now);
    }
  }

  /** In any run in which a alone initiates u and sends it true chunks only, whatever anyone else does
      in between, the acked parts are true chunks at every point. */
  lemma {:induction false} RunTrue(cfg: Config, ss: seq<World>, ops: seq<Op>, ts: seq<int>, n: nat, a: Account,
                                   u: UploadId, chunks: seq<Bytes>)
    requires Trace(cfg, ss, ops, ts) && n <= |ops|
    requires StagingSound(ss[0]) && OnlyFor(ss[0].db, a, u) && TrueParts(ss[0], u, chunks)
    requires forall i :: 0 <= i < n ==>
               SendsTrue(ops[i], a, u, chunks) && (ops[i].Initiate? && ops[i].upload == u ==> ops[i].account == a)
    ensures StagingSound(ss[n]) && OnlyFor(ss[n].db, a, u) && TrueParts(ss[n], u, chunks)
  {
    if n == 0 {
    } else {
      RunTrue(cfg, ss, ops, ts, n - 1, a, u, chunks);
      StepSound(cfg, ss[n - 1], ops[n - 1], ts[n - 1]);
      StepOnlyFor(cfg, ss[n - 1], ops[n - 1], ts[n - 1], a, u);
      StepTrue(cfg, ss[n - 1], ops[n - 1], ts[n - 1], a, u, chunks);
    }
  }

  // ---------- Never refused ----------

  /** The sizes of all chunks, keyed as their parts. */
  function ChunkSizes(u: UploadId, chunks: seq<Bytes>, n: nat): map<PartKey, nat>
    requires n <= |chunks|
  {
    if n == 0 then map[] else ChunkSizes(u, chunks, n - 1)[PartKey(u, n - 1) := |chunks[n - 1]|]
  }

  lemma {:induction false} ChunkSizesAt(u: UploadId, chunks: seq<Bytes>, n: nat)
    requires n <= |chunks|
    ensures forall k :: k in ChunkSizes(u, chunks, n) <==> k.upload == u && k.index < n
    ensures forall k :: k in ChunkSizes(u, chunks, n) ==> ChunkSizes(u, chunks, n)[k] == |chunks[k.index]|
    ensures Sum(ChunkSizes(u, chunks, n)) == |Concat(chunks[..n])|
  {
    if n == 0 {
    } else {
      ChunkSizesAt(u, chunks, n - 1);
      SumPut(ChunkSizes(u, chunks, n - 1), PartKey(u, n - 1), |chunks[n - 1]|);
      assert chunks[..n][..n - 1] == chunks[..n - 1];
    }
  }

  /** The received bytes are the sizes of the distinct chunks acked, so never more than the blob. */
  lemma TruePartsFit(w: World, u: UploadId, chunks: seq<Bytes>)
    requires StagedAgree(w) && TrueParts(w, u, chunks)
    ensures forall k :: k in Parts(w.db, u) ==> Parts(w.db, u)[k] == |chunks[k.index]|
    ensures ReceivedBytes(w.db, u) <= |Concat(chunks)|
  {
    ChunkSizesAt(u, chunks, |chunks|);
    SumMonotone(Parts(w.db, u), ChunkSizes(u, chunks, |chunks|));
    assert chunks[..|chunks|] == chunks;
  }

  /** A true chunk is acked whenever its session still exists, and the ack reports the bytes of the
      distinct chunks received. */
  lemma ChunkAccepted(w: World, a: Account, u: UploadId, chunks: seq<Bytes>, i: nat)
    requires StagingSound(w) && TrueParts(w, u, chunks)
    requires Owns(w.db, a, u) && w.db.sessions[u].declaredSize == |Concat(chunks)| && i < |chunks|
    ensures var (w', reply) := DoPutPart(w, a, u, i, chunks[i]);
      && reply == Acked(ReceivedBytes(w'.db, u))
      && PartKey(u, i) in w'.db.parts
      && TrueParts(w', u, chunks)
  {
    var db' := w.db.(parts := w.db.parts[PartKey(u, i) := |chunks[i]|]);
    var w' := World(db', WritePart(w.disk, u, i, chunks[i]));
    RecordedTotal(w.db, u, i, chunks[i]);
    TruePartsFit(w', u, chunks);
  }

  // ---------- Finalize ----------

  /** A strictly ascending enumeration of 0..n-1 is 0..n-1 in order. */
  lemma {:induction false} InPlace(r: seq<nat>, n: nat, i: nat)
    requires |r| == n && i < n
    requires forall j, k :: 0 <= j < k < n ==> r[j] < r[k]
    requires forall j :: 0 <= j < n ==> r[j] < n
    ensures r[i] == i
  {
    AtLeast(r, i);
    AtMost(r, n, i);
  }

  lemma {:induction false} AtLeast(r: seq<nat>, i: nat)
    requires i < |r| && forall j, k :: 0 <= j < k < |r| ==> r[j] < r[k]
    ensures r[i] >= i
  {
    if i == 0 {
    } else {
      AtLeast(r, i - 1);
    }
  }

  lemma {:induction false} AtMost(r: seq<nat>, n: nat, i: nat)
    requires i < |r| == n && (forall j, k :: 0 <= j < k < n ==> r[j] < r[k]) && forall j :: 0 <= j < n ==> r[j] < n
    ensures r[i] <= i
    decreases n - i
  {
    if i == n - 1 {
    } else {
      AtMost(r, n, i + 1);
    }
  }

  lemma {:induction false} JoinsInOrder(disk: Disk, u: UploadId, r: seq<nat>, chunks: seq<Bytes>, m: nat)
    requires m <= |r| == |chunks| && forall i :: 0 <= i < |r| ==> r[i] == i
    requires forall i :: 0 <= i < |chunks| ==> PartKey(u, i) in disk.staged && disk.staged[PartKey(u, i)] == chunks[i]
    ensures Assemble(disk, u, r[..m]) == Some(Concat(chunks[..m]))
  {
    if m == 0 {
    } else {
      JoinsInOrder(disk, u, r, chunks, m - 1);
      assert r[..m][..m - 1] == r[..m - 1] && chunks[..m][..m - 1] == chunks[..m - 1];
    }
  }

  ghost predicate AllPresent(db: Db, u: UploadId, chunks: seq<Bytes>) {
    forall i :: 0 <= i < |chunks| ==> PartKey(u, i) in db.parts
  }

  /** With every chunk present, the acked indexes in ascending order are 0, 1, 2, ... */
  lemma IndexesInOrder(db: Db, u: UploadId, n: nat)
    requires forall k :: k in db.parts && k.upload == u ==> k.index < n
    requires forall i :: 0 <= i < n ==> PartKey(u, i) in db.parts
    ensures |PartIndexes(db, u)| == n && forall i :: 0 <= i < n ==> PartIndexes(db, u)[i] == i
  {
    var held := set k | k in db.parts && k.upload == u :: k.index;
    forall i | 0 <= i < n ensures i in held {
      assert PartKey(u, i) in db.parts;
    }
    Iota(held, n);
    var r := Ascending(held);
    forall i | 0 <= i < n ensures r[i] == i {
      assert forall j :: 0 <= j < n ==> r[j] in held;
      InPlace(r, n, i);
    }
  }

  /** In whatever order the chunks came, the assembly is the blob. */
  lemma AssemblesBlob(w: World, u: UploadId, chunks: seq<Bytes>)
    requires TrueParts(w, u, chunks) && AllPresent(w.db, u, chunks)
    ensures Assemble(w.disk, u, PartIndexes(w.db, u)) == Some(Concat(chunks))
  {
    var r, n := PartIndexes(w.db, u), |chunks|;
    IndexesInOrder(w.db, u, n);
    JoinsInOrder(w.disk, u, r, chunks, n);
    assert r[..n] == r && chunks[..n] == chunks;
  }

  lemma {:induction false} Iota(s: set<nat>, n: nat)
    requires forall i :: i in s <==> 0 <= i < n
    ensures |s| == n
  {
    if n == 0 {
      assert s == {};
    } else {
      Iota(s - {n - 1}, n - 1);
    }
  }

  /** What finalize does with all chunks present: the account has the blob already and is told so
      with its true size; or the quota turns it down; or exactly the original bytes are stored under
      their hash, with a row of exactly their size. The session is gone in every case. */
  ghost predicate FinalizedAs(cfg: Config, w: World, w': World, reply: Reply, a: Account, blob: Bytes) {
    var k, verdict := BlobKey(a, cfg.sha(blob)), AdmitFinalize(cfg.policy, FootprintOf(w.db, a), |blob|);
    if k in w.db.blobs then
      reply == Stored(|blob|, true) && w'.db.blobs == w.db.blobs && w'.disk.files == w.disk.files
    else if verdict.Some? then
      reply == Rejected(verdict.value) && w'.db.blobs == w.db.blobs && w'.disk.files == w.disk.files
    else
      && reply == Stored(|blob|, false)
      && k.hash in w'.disk.files && w'.disk.files[k.hash] == blob
      && k in w'.db.blobs && w'.db.blobs[k].size == |blob|
  }

  lemma FinalizeStores(cfg: Config, w: World, a: Account, u: UploadId, now: int, chunks: seq<Bytes>)
    requires Complete(cfg, w, a, u, chunks) && |Concat(chunks)| <= cfg.maxBlobSize
    requires FilesHash(cfg, w.disk) && RowsHash(cfg, w.db) && CollisionFree(cfg)
    ensures var (w', reply) := DoFinalize(cfg, w, a, u, now);
      FinalizedAs(cfg, w, w', reply, a, Concat(chunks)) && u !in w'.db.sessions
  {
    var k := BlobKey(a, cfg.sha(Concat(chunks)));
    if k in w.db.blobs {
      StoredAlready(cfg, w, a, u, now, Concat(chunks));
    } else {
      JudgesComplete(cfg, w, a, u, chunks);
      if AdmitFinalize(cfg.policy, FootprintOf(w.db, a), |Concat(chunks)|).None? {
        StoresGenuine(cfg, w, a, u, now, Concat(chunks));
      } else {
        TurnedDown(cfg, w, a, u, now);
      }
    }
  }

  /** With all chunks present finalize finds the blob, and only the quota can object. */
  lemma JudgesComplete(cfg: Config, w: World, a: Account, u: UploadId, chunks: seq<Bytes>)
    requires TrueParts(w, u, chunks) && AllPresent(w.db, u, chunks) && Owns(w.db, a, u)
    requires w.db.sessions[u].hash == cfg.sha(Concat(chunks)) && |Concat(chunks)| <= cfg.maxBlobSize
    requires BlobKey(a, w.db.sessions[u].hash) !in w.db.blobs
    ensures var verdict := AdmitFinalize(cfg.policy, FootprintOf(w.db, a), |Concat(chunks)|);
      Judge(cfg, w, a, u) == if verdict.Some? then OverQuota(verdict.value) else Genuine(Concat(chunks))
  {
    AssemblesBlob(w, u, chunks);
  }

  lemma TurnedDown(cfg: Config, w: World, a: Account, u: UploadId, now: int)
    requires Judge(cfg, w, a, u).OverQuota?
    ensures var (w', reply) := DoFinalize(cfg, w, a, u, now);
      && reply == Rejected(Judge(cfg, w, a, u).verdict) && u !in w'.db.sessions
      && w'.db.blobs == w.db.blobs && w'.disk.files == w.disk.files
  {
    FinalizeBlobs(cfg, w, a, u, now);
    FinalizeDrops(cfg, w, a, u, now);
  }

  lemma StoredAlready(cfg: Config, w: World, a: Account, u: UploadId, now: int, blob: Bytes)
    requires RowsHash(cfg, w.db) && CollisionFree(cfg)
    requires Owns(w.db, a, u) && w.db.sessions[u].hash == cfg.sha(blob) && BlobKey(a, cfg.sha(blob)) in w.db.blobs
    ensures var (w', reply) := DoFinalize(cfg, w, a, u, now);
      && reply == Stored(|blob|, true) && u !in w'.db.sessions
      && w'.db.blobs == w.db.blobs && w'.disk.files == w.disk.files
  {
    var k := BlobKey(a, cfg.sha(blob));
    var bytes: Bytes :| cfg.sha(bytes) == k.hash && |bytes| == w.db.blobs[k].size;
    assert bytes == blob;
    FinalizeBlobs(cfg, w, a, u, now);
    FinalizeDrops(cfg, w, a, u, now);
  }

  lemma StoresGenuine(cfg: Config, w: World, a: Account, u: UploadId, now: int, bytes: Bytes)
    requires Judge(cfg, w, a, u) == Genuine(bytes)
    requires FilesHash(cfg, w.disk) && CollisionFree(cfg)
    ensures var (w', reply) := DoFinalize(cfg, w, a, u, now); var h := cfg.sha(bytes);
      && reply == Stored(|bytes|, false)
      && h in w'.disk.files && w'.disk.files[h] == bytes
      && BlobKey(a, h) in w'.db.blobs && w'.db.blobs[BlobKey(a, h)].size == |bytes|
      && u !in w'.db.sessions
  {
    FinalizeBlobs(cfg, w, a, u, now);
    FinalizeDrops(cfg, w, a, u, now);
    var h := cfg.sha(bytes);
    if h in w.disk.files {
      assert cfg.sha(w.disk.files[h]) == cfg.sha(bytes);
    }
  }

  /** Finalizing too early stores nothing: while some non-empty chunk is missing the assembly is
      shorter than the blob, its hash differs, and the session is discarded. */
  lemma FinalizeTooEarly(cfg: Config, w: World, a: Account, u: UploadId, now: int, chunks: seq<Bytes>, i: nat)
    requires StagingSound(w) && TrueParts(w, u, chunks) && CollisionFree(cfg)
    requires Owns(w.db, a, u)
    requires w.db.sessions[u].hash == cfg.sha(Concat(chunks)) && |Concat(chunks)| <= cfg.maxBlobSize
    requires BlobKey(a, w.db.sessions[u].hash) !in w.db.blobs
    requires i < |chunks| && chunks[i] != [] && PartKey(u, i) !in w.db.parts
    ensures DoFinalize(cfg, w, a, u, now) == (Discard(w, a, u), HashMismatch)
  {
    ShortMismatches(cfg, w, u, chunks, i);
  }

  /** What is staged while a chunk is missing does not hash to the blob's address. */
  lemma ShortMismatches(cfg: Config, w: World, u: UploadId, chunks: seq<Bytes>, i: nat)
    requires StagingSound(w) && TrueParts(w, u, chunks) && CollisionFree(cfg)
    requires i < |chunks| && chunks[i] != [] && PartKey(u, i) !in w.db.parts
    ensures var r := Assemble(w.disk, u, PartIndexes(w.db, u));
      r.Some? && |r.value| < |Concat(chunks)| && cfg.sha(r.value) != cfg.sha(Concat(chunks))
  {
    MissingShortens(w, u, chunks, i);
    AssembledSize(w, u);
    var bytes := Assemble(w.disk, u, PartIndexes(w.db, u)).value;
    assert bytes != Concat(chunks);
  }

  lemma MissingShortens(w: World, u: UploadId, chunks: seq<Bytes>, i: nat)
    requires StagedAgree(w) && TrueParts(w, u, chunks)
    requires i < |chunks| && chunks[i] != [] && PartKey(u, i) !in w.db.parts
    ensures ReceivedBytes(w.db, u) < |Concat(chunks)|
  {
    var all := ChunkSizes(u, chunks, |chunks|);
    ChunkSizesAt(u, chunks, |chunks|);
    assert chunks[..|chunks|] == chunks;
    SumTakeOut(all, PartKey(u, i));
    SumMonotone(Parts(w.db, u), all - {PartKey(u, i)});
  }

  // ---------- A whole upload ----------

  /** Until its id is initiated again a session only keeps its data and its parts, or goes. */
  lemma SessionStep(cfg: Config, w: World, op: Op, now: int, a: Account, u: UploadId)
    requires !(op.Initiate? && op.upload == u)
    ensures var w' := Apply(cfg, w, op, now);
      Owns(w'.db, a, u) ==>
        && Owns(w.db, a, u) && w'.db.sessions[u] == w.db.sessions[u]
        && forall i :: PartKey(u, i) in w.db.parts ==> PartKey(u, i) in w'.db.parts
  {
    if !op.Initiate? && !op.PutPart? {
      DropShape(cfg, w, op, now);
    }
  }

  ghost predicate SentBefore(ops: seq<Op>, m: nat, n: nat, a: Account, u: UploadId, chunks: seq<Bytes>, i: nat)
    requires i < |chunks|
  {
    exists j :: m < j < n && j < |ops| && ops[j] == PutPart(a, u, i, chunks[i])
  }

  /** The operation does not use the upload's id anew, nor puts a part of a's into it that is no true
      chunk. */
  predicate Behaves(op: Op, a: Account, u: UploadId, chunks: seq<Bytes>) {
    !(op.Initiate? && op.upload == u) && SendsTrue(op, a, u, chunks)
  }

  ghost predicate AllBehave(ops: seq<Op>, m: nat, n: nat, a: Account, u: UploadId, chunks: seq<Bytes>) {
    forall j {:trigger Behaves(ops[j], a, u, chunks)} :: m < j <= n && j < |ops| ==> Behaves(ops[j], a, u, chunks)
  }

  /** As long as the session lives it is the one initiated, and every chunk sent so far was acked
      and is there. */
  ghost predicate Uploading(cfg: Config, w: World, ops: seq<Op>, m: nat, n: nat, a: Account, u: UploadId,
                            chunks: seq<Bytes>) {
    && StagingSound(w) && OnlyFor(w.db, a, u) && TrueParts(w, u, chunks)
    && (Owns(w.db, a, u) ==>
          && w.db.sessions[u].hash == cfg.sha(Concat(chunks)) && w.db.sessions[u].declaredSize == |Concat(chunks)|
          && forall i {:trigger SentBefore(ops, m, n, a, u, chunks, i)} ::
               0 <= i < |chunks| && SentBefore(ops, m, n, a, u, chunks, i) ==> PartKey(u, i) in w.db.parts)
  }

  /** An accepted initiate opens a session with no parts. */
  lemma JustInitiated(cfg: Config, w: World, a: Account, u: UploadId, h: Hash, size: nat, now: int)
    requires InitiateRefusal(cfg, w, a, u, h, size).None?
    ensures var w' := DoInitiate(cfg, w, a, u, h, size, now).0;
      && u !in w.db.sessions && Owns(w'.db, a, u) && w'.db.sessions[u] == Session(a, h, size, now)
      && (StagedAgree(w) ==> forall k :: k in w'.db.parts ==> k.upload != u)
      && size <= cfg.maxBlobSize
  {
  }

  lemma UploadStarts(cfg: Config, w: World, ops: seq<Op>, m: nat, now: int, a: Account, u: UploadId, chunks: seq<Bytes>)
    requires StagingSound(w) && m < |ops| && ops[m] == Initiate(a, u, cfg.sha(Concat(chunks)), |Concat(chunks)|)
    requires Serve(cfg, w, ops[m], now).1 == Created
    ensures Uploading(cfg, Apply(cfg, w, ops[m], now), ops, m, m + 1, a, u, chunks)
    ensures |Concat(chunks)| <= cfg.maxBlobSize
  {
    var h, size := cfg.sha(Concat(chunks)), |Concat(chunks)|;
    assert InitiateRefusal(cfg, w, a, u, h, size).None?;
    JustInitiated(cfg, w, a, u, h, size, now);
    InitiateSound(cfg, w, a, u, h, size, now);
  }

  lemma UploadGoesOn(cfg: Config, w: World, w': World, ops: seq<Op>, m: nat, n: nat, now: int, a: Account,
                     u: UploadId, chunks: seq<Bytes>)
    requires m < n < |ops| && Uploading(cfg, w, ops, m, n, a, u, chunks)
    requires Behaves(ops[n], a, u, chunks)
    requires w' == Apply(cfg, w, ops[n], now)
    ensures Uploading(cfg, w', ops, m, n + 1, a, u, chunks)
  {
    StepSound(cfg, w, ops[n], now);
    StepOnlyFor(cfg, w, ops[n], now, a, u);
    StepTrue(cfg, w, ops[n], now, a, u, chunks);
    SessionStep(cfg, w, ops[n], now, a, u);
    if Owns(w'.db, a, u) {
      forall i | 0 <= i < |chunks| && SentBefore(ops, m, n + 1, a, u, chunks, i) ensures PartKey(u, i) in w'.db.parts {
        if ops[n] == PutPart(a, u, i, chunks[i]) {
          ChunkAccepted(w, a, u, chunks, i);
        } else {
          assert SentBefore(ops, m, n, a, u, chunks, i);
        }
      }
    }
  }

  lemma {:induction false} UploadRun(cfg: Config, ss: seq<World>, ops: seq<Op>, ts: seq<int>, m: nat, n: nat,
                                     a: Account, u: UploadId, chunks: seq<Bytes>)
    requires Trace(cfg, ss, ops, ts) && m < n <= |ops|
    requires Uploading(cfg, ss[m + 1], ops, m, m + 1, a, u, chunks)
    requires AllBehave(ops, m, n - 1, a, u, chunks)
    ensures Uploading(cfg, ss[n], ops, m, n, a, u, chunks)
  {
    if n == m + 1 {
    } else {
      UploadRun(cfg, ss, ops, ts, m, n - 1, a, u, chunks);
      assert Behaves(ops[n - 1], a, u, chunks);
      UploadGoesOn(cfg, ss[n - 1], ss[n], ops, m, n - 1, ts[n - 1], a, u, chunks);
    }
  }

  ghost predicate AllSent(ops: seq<Op>, m: nat, n: nat, a: Account, u: UploadId, chunks: seq<Bytes>) {
    forall i {:trigger SentBefore(ops, m, n, a, u, chunks, i)} :: 0 <= i < |chunks| ==>
        SentBefore(ops, m, n, a, u, chunks, i)
  }

  /** The run of an upload up to step n: initiated at m and accepted; since then its account sent only
      true chunks for it, in any order and any number of times, amid any other traffic, be it parts
      that other accounts send for the same id; and it is alive. */
  ghost predicate UploadUnderWay(cfg: Config, ss: seq<World>, ops: seq<Op>, ts: seq<int>, m: nat, n: nat, a: Account,
                                 u: UploadId, chunks: seq<Bytes>)
  {
    && Trace(cfg, ss, ops, ts) && StagingSound(ss[0]) && m < n < |ops|
    && FilesHash(cfg, ss[0].disk) && RowsHash(cfg, ss[0].db) && CollisionFree(cfg)
    && ops[m] == Initiate(a, u, cfg.sha(Concat(chunks)), |Concat(chunks)|)
    && Serve(cfg, ss[m], ops[m], ts[m]).1 == Created
    && AllBehave(ops, m, n, a, u, chunks)
    && Owns(ss[n].db, a, u)
  }

  lemma StillUploading(cfg: Config, ss: seq<World>, ops: seq<Op>, ts: seq<int>, m: nat, n: nat, a: Account, u: UploadId,
                       chunks: seq<Bytes>)
    requires UploadUnderWay(cfg, ss, ops, ts, m, n, a, u, chunks)
    ensures Uploading(cfg, ss[n], ops, m, n, a, u, chunks) && |Concat(chunks)| <= cfg.maxBlobSize
  {
    ReachableSound(cfg, ss, ops, ts, m);
    UploadStarts(cfg, ss[m], ops, m, ts[m], a, u, chunks);
    UploadRun(cfg, ss, ops, ts, m, n, a, u, chunks);
  }

  /** The quota never turns the whole upload down: its bytes were reserved when it was accepted. */
  lemma ReservationHolds(cfg: Config, ss: seq<World>, ops: seq<Op>, ts: seq<int>, m: nat, n: nat, a: Account,
                         u: UploadId, h: Hash, size: nat)
    requires Trace(cfg, ss, ops, ts) && StagingSound(ss[0]) && m < n <= |ops|
    requires ops[m] == Initiate(a, u, h, size) && Serve(cfg, ss[m], ops[m], ts[m]).1 == Created
    requires Owns(ss[n].db, a, u) && ss[n].db.sessions[u].declaredSize == size
    ensures AdmitFinalize(cfg.policy, FootprintOf(ss[n].db, a), size).None?
  {
    JustInitiated(cfg, ss[m], a, u, h, size, ts[m]);
    SolventSince(cfg, ss, ops, ts, m, n, a, u);
    ReservedFits(cfg.policy, ss[n].db, a, u, size);
  }

  /** The account is within its limit from the moment it opens a session. */
  lemma SolventSince(cfg: Config, ss: seq<World>, ops: seq<Op>, ts: seq<int>, m: nat, n: nat, a: Account, u: UploadId)
    requires Trace(cfg, ss, ops, ts) && StagingSound(ss[0]) && m < n <= |ops|
    requires u !in ss[m].db.sessions && Owns(ss[m + 1].db, a, u)
    ensures Solvent(cfg.policy, ss[n].db, a)
  {
    SolventNext(cfg, ss, ops, ts, m, a, u);
    StaysSolvent(cfg, ss, ops, ts, m + 1, n, a);
  }

  lemma SolventNext(cfg: Config, ss: seq<World>, ops: seq<Op>, ts: seq<int>, m: nat, a: Account, u: UploadId)
    requires Trace(cfg, ss, ops, ts) && m < |ops| && u !in ss[m].db.sessions && Owns(ss[m + 1].db, a, u)
    ensures Solvent(cfg.policy, ss[m + 1].db, a)
  {
    assert ss[m + 1] == Apply(cfg, ss[m], ops[m], ts[m]);
    OpeningIsSolvent(cfg, ss[m], ops[m], ts[m], a, u);
  }

  /** Only an accepted initiate opens a session. */
  lemma OpeningIsSolvent(cfg: Config, w: World, op: Op, now: int, a: Account, u: UploadId)
    requires u !in w.db.sessions && Owns(Apply(cfg, w, op, now).db, a, u)
    ensures Solvent(cfg.policy, Apply(cfg, w, op, now).db, a)
  {
    if op.Initiate? {
      assert op.account == a && op.upload == u;
      AcceptedIsSolvent(cfg, w, a, u, op.hash, op.size, now);
    } else if !op.PutPart? {
      DropShape(cfg, w, op, now);
    }
  }

  /** Finalize told the account the blob's true size and left it with its row; unless it had the blob,
      exactly the original bytes are now stored under their hash. */
  ghost predicate Delivered(cfg: Config, w: World, w': World, reply: Reply, a: Account, blob: Bytes) {
    var k := BlobKey(a, cfg.sha(blob));
    && reply == Stored(|blob|, k in w.db.blobs)
    && k in w'.db.blobs && w'.db.blobs[k].size == |blob|
    && (k !in w.db.blobs ==> k.hash in w'.disk.files)
    && (k.hash in w'.disk.files ==> w'.disk.files[k.hash] == blob)
  }

  /** Resumable upload: after an accepted initiate no true chunk is ever refused, in whatever order
      they come and however often; and once each was sent, finalizing delivers the blob: the quota
      cannot turn it down. */
  lemma ResumableUpload(cfg: Config, ss: seq<World>, ops: seq<Op>, ts: seq<int>, m: nat, n: nat, a: Account,
                        u: UploadId, chunks: seq<Bytes>)
    requires UploadUnderWay(cfg, ss, ops, ts, m, n, a, u, chunks)
    ensures ops[n].PutPart? && ops[n].account == a && ops[n].upload == u ==>
              Serve(cfg, ss[n], ops[n], ts[n]).1 == Acked(ReceivedBytes(ss[n + 1].db, u))
    ensures ops[n] == Finalize(a, u) && AllSent(ops, m, n, a, u, chunks) ==>
              Delivered(cfg, ss[n], ss[n + 1], Serve(cfg, ss[n], ops[n], ts[n]).1, a, Concat(chunks))
  {
    if ops[n].PutPart? && ops[n].account == a && ops[n].upload == u {
      NeverRefused(cfg, ss, ops, ts, m, n, a, u, chunks);
    } else if ops[n] == Finalize(a, u) && AllSent(ops, m, n, a, u, chunks) {
      WholeArrived(cfg, ss, ops, ts, m, n, a, u, chunks);
      UploadFinalized(cfg, ss, ops, ts, m, n, a, u, chunks);
    }
  }

  lemma NeverRefused(cfg: Config, ss: seq<World>, ops: seq<Op>, ts: seq<int>, m: nat, n: nat, a: Account, u: UploadId,
                     chunks: seq<Bytes>)
    requires UploadUnderWay(cfg, ss, ops, ts, m, n, a, u, chunks)
    requires ops[n].PutPart? && ops[n].account == a && ops[n].upload == u
    ensures Serve(cfg, ss[n], ops[n], ts[n]).1 == Acked(ReceivedBytes(ss[n + 1].db, u))
  {
    StillUploading(cfg, ss, ops, ts, m, n, a, u, chunks);
    assert Behaves(ops[n], a, u, chunks);
    NextAcked(cfg, ss, ops, ts, n, a, u, chunks);
  }

  lemma NextAcked(cfg: Config, ss: seq<World>, ops: seq<Op>, ts: seq<int>, n: nat, a: Account, u: UploadId,
                  chunks: seq<Bytes>)
    requires Trace(cfg, ss, ops, ts) && n < |ops| && StagingSound(ss[n]) && TrueParts(ss[n], u, chunks)
    requires Owns(ss[n].db, a, u) && ss[n].db.sessions[u].declaredSize == |Concat(chunks)|
    requires ops[n].PutPart? && ops[n].account == a && ops[n].upload == u && SendsTrue(ops[n], a, u, chunks)
    ensures Serve(cfg, ss[n], ops[n], ts[n]).1 == Acked(ReceivedBytes(ss[n + 1].db, u))
  {
    ChunkAccepted(ss[n], a, u, chunks, ops[n].index);
  }

  lemma WholeArrived(cfg: Config, ss: seq<World>, ops: seq<Op>, ts: seq<int>, m: nat, n: nat, a: Account, u: UploadId,
                     chunks: seq<Bytes>)
    requires UploadUnderWay(cfg, ss, ops, ts, m, n, a, u, chunks) && AllSent(ops, m, n, a, u, chunks)
    ensures Complete(cfg, ss[n], a, u, chunks) && |Concat(chunks)| <= cfg.maxBlobSize
  {
    StillUploading(cfg, ss, ops, ts, m, n, a, u, chunks);
    AllArrived(cfg, ss[n], ops, m, n, a, u, chunks);
  }

  lemma UploadFinalized(cfg: Config, ss: seq<World>, ops: seq<Op>, ts: seq<int>, m: nat, n: nat, a: Account,
                        u: UploadId, chunks: seq<Bytes>)
    requires UploadUnderWay(cfg, ss, ops, ts, m, n, a, u, chunks) && ops[n] == Finalize(a, u)
    requires Complete(cfg, ss[n], a, u, chunks) && |Concat(chunks)| <= cfg.maxBlobSize
    ensures Delivered(cfg, ss[n], ss[n + 1], Serve(cfg, ss[n], ops[n], ts[n]).1, a, Concat(chunks))
  {
    ContentAddressed(cfg, ss, ops, ts, n);
    DeliversNext(cfg, ss, ops, ts, m, n, a, u, chunks);
  }

  lemma AllArrived(cfg: Config, w: World, ops: seq<Op>, m: nat, n: nat, a: Account, u: UploadId, chunks: seq<Bytes>)
    requires Uploading(cfg, w, ops, m, n, a, u, chunks) && Owns(w.db, a, u) && AllSent(ops, m, n, a, u, chunks)
    ensures Complete(cfg, w, a, u, chunks)
  {
    forall i | 0 <= i < |chunks| ensures PartKey(u, i) in w.db.parts {
      assert SentBefore(ops, m, n, a, u, chunks, i);
    }
  }

  /** Every chunk of the blob the session declares is staged. */
  ghost predicate Complete(cfg: Config, w: World, a: Account, u: UploadId, chunks: seq<Bytes>) {
    && TrueParts(w, u, chunks) && AllPresent(w.db, u, chunks)
    && Owns(w.db, a, u) && w.db.sessions[u].hash == cfg.sha(Concat(chunks)) &&
        w.db.sessions[u].declaredSize == |Concat(chunks)|
  }

  lemma DeliversNext(cfg: Config, ss: seq<World>, ops: seq<Op>, ts: seq<int>, m: nat, n: nat, a: Account, u: UploadId,
                     chunks: seq<Bytes>)
    requires Trace(cfg, ss, ops, ts) && StagingSound(ss[0]) && m < n < |ops| && ops[n] == Finalize(a, u)
    requires FilesHash(cfg, ss[n].disk) && RowsHash(cfg, ss[n].db) && CollisionFree(cfg)
    requires ops[m] == Initiate(a, u, cfg.sha(Concat(chunks)), |Concat(chunks)|)
    requires Serve(cfg, ss[m], ops[m], ts[m]).1 == Created
    requires Complete(cfg, ss[n], a, u, chunks) && |Concat(chunks)| <= cfg.maxBlobSize
    ensures Delivered(cfg, ss[n], ss[n + 1], Serve(cfg, ss[n], ops[n], ts[n]).1, a, Concat(chunks))
  {
    ReservationHolds(cfg, ss, ops, ts, m, n, a, u, cfg.sha(Concat(chunks)), |Concat(chunks)|);
    FinalizeAnswers(cfg, ss[n], a, u, ts[n], chunks);
  }

  lemma FinalizeAnswers(cfg: Config, w: World, a: Account, u: UploadId, now: int, chunks: seq<Bytes>)
    requires Complete(cfg, w, a, u, chunks) && |Concat(chunks)| <= cfg.maxBlobSize
    requires FilesHash(cfg, w.disk) && RowsHash(cfg, w.db) && CollisionFree(cfg)
    requires AdmitFinalize(cfg.policy, FootprintOf(w.db, a), |Concat(chunks)|).None?
    ensures var (w', reply) := DoFinalize(cfg, w, a, u, now); Delivered(cfg, w, w', reply, a, Concat(chunks))
  {
    var blob := Concat(chunks);
    var k, w' := BlobKey(a, cfg.sha(blob)), DoFinalize(cfg, w, a, u, now).0;
    FinalizeStores(cfg, w, a, u, now, chunks);
    StepIntegrity(cfg, w, Finalize(a, u), now);
    if k.hash in w'.disk.files {
      assert cfg.sha(w'.disk.files[k.hash]) == cfg.sha(blob);
    }
    var bytes: Bytes :| cfg.sha(bytes) == k.hash && |bytes| == w'.db.blobs[k].size;
    assert bytes == blob;
  }
}
