/** Runs from the empty server that reach the states the theorems speak of: a sweep that deletes a
    blob safely, and a sweep that takes the bytes of a blob another account still references. */
module Witnesses {
  import opened Collections
  import opened Model
  import opened Tables
  import opened Quotas
  import opened Vault
  import opened SeqLine
  import opened Integrity
  import opened Uploads
  import opened Reclaim

  const UNLIMITED := QuotaPolicy(None, None, None, None)

  // ---------- One upload ----------

  /** A blob sent in one part, in three steps at t, t + 1 and t + 2. */
  ghost function Upload(cfg: Config, a: Account, u: UploadId, blob: Bytes): seq<Op> {
    [Initiate(a, u, cfg.sha(blob), |blob|), PutPart(a, u, 0, blob), Finalize(a, u)]
  }

  predicate Untouched(w: World, u: UploadId) {
    && u !in w.db.sessions
    && (forall k :: k in w.db.parts ==> k.upload != u)
    && (forall k :: k in w.disk.staged ==> k.upload != u)
  }

  /** The account has the blob, new and unreferenced; nothing else is different. */
  function WithBlob(cfg: Config, w: World, a: Account, blob: Bytes, now: int): World {
    var h, z := cfg.sha(blob), Counter(w.db, a) + 1;
    World(w.db.(counters := w.db.counters[a := z],
        blobs := w.db.blobs[BlobKey(a, h) := Blob(|blob|, 0, Some(z), now, now)]),
          Put(w.disk, h, blob))
  }

  function Initiated(cfg: Config, w: World, a: Account, u: UploadId, blob: Bytes, now: int): World {
    w.(db := w.db.(sessions := w.db.sessions[u := Session(a, cfg.sha(blob), |blob|, now)]))
  }

  function Staged(cfg: Config, w: World, a: Account, u: UploadId, blob: Bytes, now: int): World {
    var k := PartKey(u, 0);
    World(Initiated(cfg, w, a, u, blob, now).db.(parts := w.db.parts[k := |blob|]),
        w.disk.(staged := w.disk.staged[k := blob]))
  }

  lemma OpenStep(cfg: Config, w: World, a: Account, u: UploadId, blob: Bytes, now: int)
    requires cfg.policy == UNLIMITED && |blob| <= cfg.maxBlobSize && Untouched(w, u) &&
        BlobKey(a, cfg.sha(blob)) !in w.db.blobs
    ensures Apply(cfg, w, Initiate(a, u, cfg.sha(blob), |blob|), now) == Initiated(cfg, w, a, u, blob, now)
  {
  }

  lemma StageStep(cfg: Config, w: World, a: Account, u: UploadId, blob: Bytes, now: int, later: int)
    requires Untouched(w, u)
    ensures Apply(cfg, Initiated(cfg, w, a, u, blob, now), PutPart(a, u, 0, blob), later) ==
        Staged(cfg, w, a, u, blob, now)
  {
    assert Parts(Initiated(cfg, w, a, u, blob, now).db, u) == map[];
  }

  lemma JoinsOnePart(cfg: Config, w: World, a: Account, u: UploadId, blob: Bytes, now: int)
    requires Untouched(w, u)
    ensures var v := Staged(cfg, w, a, u, blob, now); Assemble(v.disk, u, PartIndexes(v.db, u)) == Some(blob)
  {
    var v := Staged(cfg, w, a, u, blob, now);
    assert Concat([blob]) == blob by {
      assert Concat([blob]) == Concat([blob][..0]) + blob;
    }
    AssemblesBlob(v, u, [blob]);
  }

  lemma DiscardsOnePart(cfg: Config, w: World, v: World, a: Account, u: UploadId, blob: Bytes, now: int)
    requires Untouched(w, u)
    requires v.db.sessions == w.db.sessions[u := Session(a, cfg.sha(blob), |blob|, now)]
    requires v.db.parts == w.db.parts[PartKey(u, 0) := |blob|] && v.disk.staged == w.disk.staged[PartKey(u, 0) := blob]
    ensures var d := Discard(v, a, u);
      && d.db == v.db.(sessions := w.db.sessions, parts := w.db.parts)
      && d.disk == v.disk.(staged := w.disk.staged)
  {
    assert v.db.sessions - {u} == w.db.sessions;
    assert PartsExcept(v.db.parts, {u}) == w.db.parts;
    assert StagedExcept(v.disk.staged, {u}) == w.disk.staged;
  }

  lemma JudgesOnePart(cfg: Config, w: World, a: Account, u: UploadId, blob: Bytes, now: int)
    requires cfg.policy == UNLIMITED && |blob| <= cfg.maxBlobSize && Untouched(w, u) &&
        BlobKey(a, cfg.sha(blob)) !in w.db.blobs
    ensures Judge(cfg, Staged(cfg, w, a, u, blob, now), a, u) == Genuine(blob)
  {
    JoinsOnePart(cfg, w, a, u, blob, now);
  }

  lemma StoreStep(cfg: Config, w: World, a: Account, u: UploadId, blob: Bytes, now: int, later: int)
    requires cfg.policy == UNLIMITED && |blob| <= cfg.maxBlobSize && Untouched(w, u) &&
        BlobKey(a, cfg.sha(blob)) !in w.db.blobs
    ensures Apply(cfg, Staged(cfg, w, a, u, blob, now), Finalize(a, u), later) == WithBlob(cfg, w, a, blob, later)
  {
    var v := Staged(cfg, w, a, u, blob, now);
    JudgesOnePart(cfg, w, a, u, blob, now);
    ConcludesOnePart(cfg, w, v, a, u, blob, now, later);
  }

  lemma ConcludesOnePart(cfg: Config, w: World, v: World, a: Account, u: UploadId, blob: Bytes, now: int, later: int)
    requires v == Staged(cfg, w, a, u, blob, now) && Untouched(w, u) && BlobKey(a, cfg.sha(blob)) !in w.db.blobs
    ensures Conclude(cfg, v, a, u, Genuine(blob), later) == WithBlob(cfg, w, a, blob, later)
  {
    DiscardsOnePart(cfg, w, StoreGenuine(cfg, v, a, Genuine(blob), later), a, u, blob, now);
  }

  // ---------- Traces by extension ----------

  lemma TraceStarts(cfg: Config, w: World)
    ensures Trace(cfg, [w], [], [])
  {
  }

  lemma TraceGrows(cfg: Config, ss: seq<World>, ops: seq<Op>, ts: seq<int>, op: Op, now: int)
    requires Trace(cfg, ss, ops, ts) && (ts == [] || ts[|ts| - 1] <= now)
    ensures Trace(cfg, ss + [Apply(cfg, ss[|ops|], op, now)], ops + [op], ts + [now])
  {
    var ss', ops', ts' := ss + [Apply(cfg, ss[|ops|], op, now)], ops + [op], ts + [now];
    forall i {:trigger ops'[i]} | 0 <= i < |ops'| ensures ss'[i + 1] == Apply(cfg, ss'[i], ops'[i], ts'[i]) {
      assert i < |ops| ==> ops'[i] == ops[i];
    }
  }

  /** Three steps more, and the blob is there. */
  lemma TraceUploads(cfg: Config, ss: seq<World>, ops: seq<Op>, ts: seq<int>, a: Account, u: UploadId, blob: Bytes,
                     t: int)
      returns (ss': seq<World>)
    requires Trace(cfg, ss, ops, ts) && (ts == [] || ts[|ts| - 1] <= t)
    requires cfg.policy == UNLIMITED && |blob| <= cfg.maxBlobSize
    requires Untouched(ss[|ops|], u) && BlobKey(a, cfg.sha(blob)) !in ss[|ops|].db.blobs
    ensures Trace(cfg, ss', ops + Upload(cfg, a, u, blob), ts + [t, t + 1, t + 2])
    ensures ss'[|ops| + 3] == WithBlob(cfg, ss[|ops|], a, blob, t + 2) && ss'[0] == ss[0]
  {
    var w, up := ss[|ops|], Upload(cfg, a, u, blob);
    OpenStep(cfg, w, a, u, blob, t);
    StageStep(cfg, w, a, u, blob, t, t + 1);
    StoreStep(cfg, w, a, u, blob, t, t + 2);
    var w1, w2, w3 := Initiated(cfg, w, a, u, blob, t), Staged(cfg, w, a, u, blob, t), WithBlob(cfg, w, a, blob, t + 2);
    TraceGrows(cfg, ss, ops, ts, up[0], t);
    TraceGrows(cfg, ss + [w1], ops + [up[0]], ts + [t], up[1], t + 1);
    TraceGrows(cfg, ss + [w1] + [w2], ops + [up[0]] + [up[1]], ts + [t] + [t + 1], up[2], t + 2);
    ss' := ss + [w1] + [w2] + [w3];
    assert ops + [up[0]] + [up[1]] + [up[2]] == ops + up;
    assert ts + [t] + [t + 1] + [t + 2] == ts + [t, t + 1, t + 2];
  }

  /** From the empty server. */
  lemma FirstUpload(cfg: Config, a: Account, u: UploadId, blob: Bytes) returns (ss: seq<World>)
    requires cfg.policy == UNLIMITED && |blob| <= cfg.maxBlobSize
    ensures Trace(cfg, ss, Upload(cfg, a, u, blob), [0, 1, 2]) && ss[0] == EMPTY_WORLD
    ensures ss[3] == WithBlob(cfg, EMPTY_WORLD, a, blob, 2)
  {
    TraceStarts(cfg, EMPTY_WORLD);
    ss := TraceUploads(cfg, [EMPTY_WORLD], [], [], a, u, blob, 0);
    assert [] + Upload(cfg, a, u, blob) == Upload(cfg, a, u, blob) && [] + [0, 1, 2] == [0, 1, 2];
  }

  /** Two steps more. */
  lemma TraceGrowsTwice(cfg: Config, ss: seq<World>, ops: seq<Op>, ts: seq<int>, first: Op, t: int, second: Op, t': int)
      returns (ss': seq<World>)
    requires Trace(cfg, ss, ops, ts) && (ts == [] || ts[|ts| - 1] <= t) && t <= t'
    ensures Trace(cfg, ss', ops + [first, second], ts + [t, t'])
    ensures |ss'| == |ss| + 2 && ss'[..|ss|] == ss
    ensures ss'[|ss|] == Apply(cfg, ss[|ops|], first, t) && ss'[|ss| + 1] == Apply(cfg, ss'[|ss|], second, t')
  {
    var w := Apply(cfg, ss[|ops|], first, t);
    TraceGrows(cfg, ss, ops, ts, first, t);
    TraceGrows(cfg, ss + [w], ops + [first], ts + [t], second, t');
    ss' := ss + [w] + [Apply(cfg, w, second, t')];
    assert ops + [first] + [second] == ops + [first, second] && ts + [t] + [t'] == ts + [t, t'];
  }

  // ---------- A sweep that is safe ----------

  /** Uploaded, never referenced, acknowledged by a live device, then swept. */
  ghost function UnusedUpload(cfg: Config, a: Account, u: UploadId, blob: Bytes, d: DeviceId): seq<Op> {
    Upload(cfg, a, u, blob) + [DeviceCursor(a, d, 1), ReclaimSweep(ReclaimPolicy(true, 1, 100))]
  }

  /** The blob is deleted by the sweep, with a live device on the account, in a run that meets every
      hypothesis of SweepIsSafe. */
  lemma SweepDeletesUnused(cfg: Config, a: Account, u: UploadId, blob: Bytes, d: DeviceId) returns (ss: seq<World>)
    requires cfg.policy == UNLIMITED && |blob| <= cfg.maxBlobSize
    ensures var ops, ts := UnusedUpload(cfg, a, u, blob, d), [0, 1, 2, 3, 10]; var k := BlobKey(a, cfg.sha(blob));
      && Trace(cfg, ss, ops, ts) && ss[0] == EMPTY_WORLD && OneLine(ss[0].db)
      && Keeps(ops, a) && Honest(ss, ops, a)
      && k in ss[4].db.blobs && k !in ss[5].db.blobs
      && DeviceKey(a, d) in ss[4].db.devices && ss[4].db.devices[DeviceKey(a, d)].lastActive > 10 - 100
  {
    ss := UnusedRun(cfg, a, u, blob, d);
    UnusedIsSwept(cfg, ss[3], a, blob, d);
    HonestUpload(cfg, ss, a, u, blob, d);
  }

  lemma UnusedRun(cfg: Config, a: Account, u: UploadId, blob: Bytes, d: DeviceId) returns (ss: seq<World>)
    requires cfg.policy == UNLIMITED && |blob| <= cfg.maxBlobSize
    ensures Trace(cfg, ss, UnusedUpload(cfg, a, u, blob, d), [0, 1, 2, 3, 10]) && ss[0] == EMPTY_WORLD
    ensures ss[3] == WithBlob(cfg, EMPTY_WORLD, a, blob, 2) && ss[4] == Apply(cfg, ss[3], DeviceCursor(a, d, 1), 3)
    ensures ss[5] == Apply(cfg, ss[4], ReclaimSweep(ReclaimPolicy(true, 1, 100)), 10)
  {
    ss := FirstUpload(cfg, a, u, blob);
    var report, sweep := DeviceCursor(a, d, 1), ReclaimSweep(ReclaimPolicy(true, 1, 100));
    ss := TraceGrowsTwice(cfg, ss, Upload(cfg, a, u, blob), [0, 1, 2], report, 3, sweep, 10);
    assert [0, 1, 2] + [3, 10] == [0, 1, 2, 3, 10];
  }

  lemma HonestUpload(cfg: Config, ss: seq<World>, a: Account, u: UploadId, blob: Bytes, d: DeviceId)
    requires |ss| == 6 && Counter(ss[3].db, a) == 1
    ensures var ops := UnusedUpload(cfg, a, u, blob, d); Keeps(ops, a) && Honest(ss, ops, a)
  {
  }

  lemma UnusedIsSwept(cfg: Config, w: World, a: Account, blob: Bytes, d: DeviceId)
    requires w == WithBlob(cfg, EMPTY_WORLD, a, blob, 2)
    ensures var w1 := Apply(cfg, w, DeviceCursor(a, d, 1), 3); var k := BlobKey(a, cfg.sha(blob));
      && Counter(w.db, a) == 1 && k in w1.db.blobs && w1.db.devices == map[DeviceKey(a, d) := Device(1, 3)]
      && k !in Apply(cfg, w1, ReclaimSweep(ReclaimPolicy(true, 1, 100)), 10).db.blobs
  {
    var w1, k := Apply(cfg, w, DeviceCursor(a, d, 1), 3), BlobKey(a, cfg.sha(blob));
    assert Reclaimable(w1.db, k, 9, -90);
    assert k in Swept(w1.db, ReclaimPolicy(true, 1, 100), 10);
  }

  // ---------- A sweep that is not ----------

  /** Two accounts upload the same bytes, the second references them, and the sweep comes by. */
  ghost function SharedUpload(cfg: Config, a: Account, u: UploadId, b: Account, v: UploadId, blob: Bytes): seq<Op> {
    Upload(cfg, a, u, blob) + Upload(cfg, b, v, blob) +
        [AddRef(b, cfg.sha(blob)), ReclaimSweep(ReclaimPolicy(true, 1, 100))]
  }

  /** The loss is real: in this run from the empty server every row has its bytes up to the sweep, and
      afterwards the second account still has its row, referenced, and its bytes are gone. */
  lemma SweepCanStrand(cfg: Config, a: Account, u: UploadId, b: Account, v: UploadId, blob: Bytes)
                       returns (ss: seq<World>)
    requires cfg.policy == UNLIMITED && |blob| <= cfg.maxBlobSize && a != b && u != v
    ensures var ops, ts := SharedUpload(cfg, a, u, b, v, blob), [0, 1, 2, 3, 4, 5, 6, 10];
        var k := BlobKey(b, cfg.sha(blob));
      && Trace(cfg, ss, ops, ts) && ss[0] == EMPTY_WORLD
      && RowsHaveBytes(ss[7]) && SharedAddress(ss[7], ops[7].policy, 10)
      && k in ss[8].db.blobs && ss[8].db.blobs[k].refCount == 1 && k.hash !in ss[8].disk.files
  {
    ss := BothUpload(cfg, a, u, b, v, blob);
    SharedIsStranded(cfg, ss[6], a, b, blob);
    var both := Upload(cfg, a, u, blob) + Upload(cfg, b, v, blob);
    ss := TraceGrowsTwice(cfg, ss, both, [0, 1, 2, 3, 4, 5], AddRef(b, cfg.sha(blob)), 6,
        ReclaimSweep(ReclaimPolicy(true, 1, 100)), 10);
    assert [0, 1, 2, 3, 4, 5] + [6, 10] == [0, 1, 2, 3, 4, 5, 6, 10];
  }

  lemma BothUpload(cfg: Config, a: Account, u: UploadId, b: Account, v: UploadId, blob: Bytes) returns (ss: seq<World>)
    requires cfg.policy == UNLIMITED && |blob| <= cfg.maxBlobSize && a != b && u != v
    ensures Trace(cfg, ss, Upload(cfg, a, u, blob) + Upload(cfg, b, v, blob), [0, 1, 2, 3, 4, 5]) &&
        ss[0] == EMPTY_WORLD
    ensures ss[6] == WithBlob(cfg, WithBlob(cfg, EMPTY_WORLD, a, blob, 2), b, blob, 5)
  {
    ss := FirstUpload(cfg, a, u, blob);
    ss := TraceUploads(cfg, ss, Upload(cfg, a, u, blob), [0, 1, 2], b, v, blob, 3);
    assert [0, 1, 2] + [3, 4, 5] == [0, 1, 2, 3, 4, 5];
  }

  lemma SharedIsStranded(cfg: Config, w: World, a: Account, b: Account, blob: Bytes)
    requires a != b && w == WithBlob(cfg, WithBlob(cfg, EMPTY_WORLD, a, blob, 2), b, blob, 5)
    ensures var w1, p, k := Apply(cfg, w, AddRef(b, cfg.sha(blob)), 6), ReclaimPolicy(true, 1, 100),
        BlobKey(b, cfg.sha(blob));
      var w2 := Apply(cfg, w1, ReclaimSweep(p), 10);
      && RowsHaveBytes(w1) && SharedAddress(w1, p, 10)
      && k in w2.db.blobs && w2.db.blobs[k].refCount == 1 && k.hash !in w2.disk.files
  {
    var w1, p := Apply(cfg, w, AddRef(b, cfg.sha(blob)), 6), ReclaimPolicy(true, 1, 100);
    var j, k := BlobKey(a, cfg.sha(blob)), BlobKey(b, cfg.sha(blob));
    assert w1.db.blobs == map[j := Blob(|blob|, 0, Some(1), 2, 2), k := Blob(|blob|, 1, None, 5, 6)];
    assert Reclaimable(w1.db, j, 9, -90);
    assert j in Swept(w1.db, p, 10) && k !in Swept(w1.db, p, 10);
    assert j.hash in Hashes(Swept(w1.db, p, 10));
  }
}
