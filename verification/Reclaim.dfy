/** Safety of the garbage collector over whole runs: whatever a reclaim sweep deletes had been at
    zero references, untouched, and past the cursor of every device that is not dead. */
module Reclaim {
  import opened Collections
  import opened Model
  import opened Tables
  import opened Vault
  import opened SeqLine
  import opened Staging
  import opened Integrity

  /** The operation reports a reference to the blob gained or lost. */
  predicate Touches(op: Op, k: BlobKey) {
    (op.AddRef? || op.ReleaseRef?) && BlobKey(op.account, op.hash) == k
  }

  predicate Reports(op: Op, d: DeviceKey) {
    op.DeviceCursor? && DeviceKey(op.account, op.device) == d
  }

  /** Devices of the account only report cursors they can have seen. */
  ghost predicate Honest(ss: seq<World>, ops: seq<Op>, a: Account)
    requires |ss| == |ops| + 1
  {
    forall j :: 0 <= j < |ops| && ops[j].DeviceCursor? && ops[j].account == a ==>
        ops[j].lastSeen <= Counter(ss[j].db, a)
  }

  // ---------- One step ----------

  /** A blob at zero was at zero before with the same zero point, or this step took it there with
      the next seq. */
  ghost predicate ZeroStep(db: Db, db': Db, k: BlobKey) {
    k in db'.blobs && db'.blobs[k].zeroRef.Some? ==>
      || (k in db.blobs && db.blobs[k].refCount == 0 && db.blobs[k].zeroRef == db'.blobs[k].zeroRef)
      || (db'.blobs[k].zeroRef.value == Counter(db, k.account) + 1 && (k !in db.blobs || db.blobs[k].refCount > 0))
  }

  /** The activity stamp stays, or it is now; and it is now whenever a reference was reported. */
  ghost predicate ActivityStep(db: Db, db': Db, k: BlobKey, touched: bool, now: int) {
    k in db'.blobs ==>
      db'.blobs[k].lastActivity == now || (!touched && k in db.blobs &&
          db'.blobs[k].lastActivity == db.blobs[k].lastActivity)
  }

  lemma BlobStep(cfg: Config, w: World, op: Op, now: int, k: BlobKey)
    requires OneLine(w.db)
    ensures ZeroStep(w.db, Apply(cfg, w, op, now).db, k)
    ensures ActivityStep(w.db, Apply(cfg, w, op, now).db, k, Touches(op, k), now)
  {
    if op.AddRef? || op.ReleaseRef? {
      ReferenceStep(cfg, w, op, now, k);
    } else if op.Finalize? {
      FinalizeBlobs(cfg, w, op.account, op.upload, now);
    } else {
      BlobsStayOrGo(cfg, w, op, now, k);
    }
  }

  lemma ReferenceStep(cfg: Config, w: World, op: Op, now: int, k: BlobKey)
    requires OneLine(w.db) && (op.AddRef? || op.ReleaseRef?)
    ensures ZeroStep(w.db, Apply(cfg, w, op, now).db, k)
    ensures ActivityStep(w.db, Apply(cfg, w, op, now).db, k, Touches(op, k), now)
  {
    if op.ReleaseRef? {
      ReleaseShape(w.db, op.account, op.hash, now);
    }
  }

  /** Nothing else changes a blob's row, other than removing it. */
  lemma BlobsStayOrGo(cfg: Config, w: World, op: Op, now: int, k: BlobKey)
    requires !op.AddRef? && !op.ReleaseRef? && !op.Finalize?
    ensures var db' := Apply(cfg, w, op, now).db; k in db'.blobs ==> k in w.db.blobs && db'.blobs[k] == w.db.blobs[k]
  {
    match op
    case SyncBatch(a, app, rows, _) => LogLeavesBlobs(w.db, app, a, rows, now);
    case SendIntents(a, events) => EventsLeaveBlobs(w.db, a, events, now);
    case _ =>
  }

  /** A device row stays, or this step is its report: the cursor then is the reported one, or the
      higher one already there. */
  lemma DeviceStep(cfg: Config, w: World, op: Op, now: int, d: DeviceKey)
    ensures var db' := Apply(cfg, w, op, now).db;
      d in db'.devices ==>
        || (d in w.db.devices && db'.devices[d] == w.db.devices[d])
        || (Reports(op, d) && db'.devices[d].lastActive == now
            && (db'.devices[d].lastSeen == op.lastSeen ||
                (d in w.db.devices && db'.devices[d].lastSeen == w.db.devices[d].lastSeen)))
  {
    match op
    case SyncBatch(a, app, rows, _) => BatchLeavesUploads(w.db, app, a, rows, now);
    case SendIntents(a, events) => EventsLeaveUploads(w.db, a, events, now);
    case Finalize(a, u) => FinalizeShape(cfg, w, a, u, now);
    case ReleaseRef(a, h) => ReleaseShape(w.db, a, h, now);
    case _ =>
  }

  // ---------- Histories ----------

  /** Step i took the blob to zero references, and it has stayed there with that zero point. */
  ghost predicate AtZeroSince(ss: seq<World>, n: nat, k: BlobKey, z: nat, i: nat)
    requires n < |ss|
  {
    && i < n
    && Counter(ss[i].db, k.account) < z
    && (k !in ss[i].db.blobs || ss[i].db.blobs[k].refCount > 0)
    && (forall j :: i < j <= n ==> k in ss[j].db.blobs && ss[j].db.blobs[k].refCount == 0 &&
                                   ss[j].db.blobs[k].zeroRef == Some(z))
  }

  lemma {:induction false} ZeroHistory(cfg: Config, ss: seq<World>, ops: seq<Op>, ts: seq<int>, n: nat, k: BlobKey)
                                       returns (i: nat)
    requires Trace(cfg, ss, ops, ts) && n <= |ops| && OneLine(ss[0].db)
    requires k !in ss[0].db.blobs && k in ss[n].db.blobs && ss[n].db.blobs[k].zeroRef.Some?
    ensures AtZeroSince(ss, n, k, ss[n].db.blobs[k].zeroRef.value, i)
  {
    NextZero(cfg, ss, ops, ts, n - 1, k);
    if StillZero(ss[n - 1].db, ss[n].db, k) {
      i := ZeroHistory(cfg, ss, ops, ts, n - 1, k);
    } else {
      i := n - 1;
    }
  }

  /** The blob was at zero references before, with the same zero point. */
  predicate StillZero(db: Db, db': Db, k: BlobKey)
    requires k in db'.blobs
  {
    k in db.blobs && db.blobs[k].refCount == 0 && db.blobs[k].zeroRef == db'.blobs[k].zeroRef
  }

  lemma NextZero(cfg: Config, ss: seq<World>, ops: seq<Op>, ts: seq<int>, i: nat, k: BlobKey)
    requires Trace(cfg, ss, ops, ts) && i < |ops| && OneLine(ss[0].db)
    requires k in ss[i + 1].db.blobs && ss[i + 1].db.blobs[k].zeroRef.Some?
    ensures ss[i + 1].db.blobs[k].refCount == 0
    ensures StillZero(ss[i].db, ss[i + 1].db, k) || AtZeroSince(ss, i + 1, k, ss[i + 1].db.blobs[k].zeroRef.value, i)
  {
    ReachableLine(cfg, ss, ops, ts, i + 1);
    NextBlob(cfg, ss, ops, ts, i, k);
  }

  /** BlobStep, along a run. */
  lemma NextBlob(cfg: Config, ss: seq<World>, ops: seq<Op>, ts: seq<int>, i: nat, k: BlobKey)
    requires Trace(cfg, ss, ops, ts) && i < |ops| && OneLine(ss[0].db)
    ensures ZeroStep(ss[i].db, ss[i + 1].db, k)
    ensures ActivityStep(ss[i].db, ss[i + 1].db, k, Touches(ops[i], k), ts[i])
    ensures (k !in ss[i].db.blobs || ss[i].db.blobs[k].refCount > 0) ==>
              k in ss[i + 1].db.blobs && ss[i + 1].db.blobs[k].refCount == 0 ==>
              ss[i + 1].db.blobs[k].lastActivity == ts[i]
  {
    ReachableLine(cfg, ss, ops, ts, i);
    BlobStep(cfg, ss[i], ops[i], ts[i], k);
    if k !in ss[i].db.blobs || ss[i].db.blobs[k].refCount > 0 {
      ReferenceLost(cfg, ss[i], ops[i], ts[i], k);
    }
    assert ss[i + 1] == Apply(cfg, ss[i], ops[i], ts[i]);
  }

  /** The activity stamp is at least as late as every reference report so far. */
  lemma {:induction false} ActivityHistory(cfg: Config, ss: seq<World>, ops: seq<Op>, ts: seq<int>, n: nat,
                                           k: BlobKey, j: nat)
    requires Trace(cfg, ss, ops, ts) && n <= |ops| && OneLine(ss[0].db)
    requires k !in ss[0].db.blobs && k in ss[n].db.blobs && j < n && Touches(ops[j], k)
    ensures ts[j] <= ss[n].db.blobs[k].lastActivity
  {
    NextBlob(cfg, ss, ops, ts, n - 1, k);
    if j < n - 1 && k in ss[n - 1].db.blobs {
      ActivityHistory(cfg, ss, ops, ts, n - 1, k, j);
    }
  }

  /** The activity stamp is at least as late as the step that took the blob to zero. */
  lemma {:induction false} TransitionHistory(cfg: Config, ss: seq<World>, ops: seq<Op>, ts: seq<int>, n: nat,
                                             k: BlobKey, z: nat, i: nat)
    requires Trace(cfg, ss, ops, ts) && n <= |ops| && OneLine(ss[0].db)
    requires AtZeroSince(ss, n, k, z, i)
    ensures ts[i] <= ss[n].db.blobs[k].lastActivity
  {
    NextBlob(cfg, ss, ops, ts, n - 1, k);
    if i < n - 1 {
      TransitionHistory(cfg, ss, ops, ts, n - 1, k, z, i);
    }
  }

  /** Leaving a positive count, or appearing, is activity. */
  lemma ReferenceLost(cfg: Config, w: World, op: Op, now: int, k: BlobKey)
    requires OneLine(w.db)
    requires k !in w.db.blobs || w.db.blobs[k].refCount > 0
    ensures var db' := Apply(cfg, w, op, now).db;
        k in db'.blobs && db'.blobs[k].refCount == 0 ==> db'.blobs[k].lastActivity == now
  {
    if op.ReleaseRef? {
      ReleaseShape(w.db, op.account, op.hash, now);
    } else if op.Finalize? {
      FinalizeBlobs(cfg, w, op.account, op.upload, now);
    } else if !op.AddRef? {
      BlobsStayOrGo(cfg, w, op, now, k);
    }
  }

  /** A device's cursor is one it reported. */
  lemma {:induction false} DeviceHistory(cfg: Config, ss: seq<World>, ops: seq<Op>, ts: seq<int>, n: nat,
                                         d: DeviceKey) returns (j: nat)
    requires Trace(cfg, ss, ops, ts) && n <= |ops|
    requires d !in ss[0].db.devices && d in ss[n].db.devices
    ensures j < n && Reports(ops[j], d) && ops[j].lastSeen == ss[n].db.devices[d].lastSeen
  {
    var w := ss[n - 1];
    DeviceStep(cfg, w, ops[n - 1], ts[n - 1], d);
    assert ss[n] == Apply(cfg, w, ops[n - 1], ts[n - 1]);
    if d in w.db.devices && w.db.devices[d].lastSeen == ss[n].db.devices[d].lastSeen {
      j := DeviceHistory(cfg, ss, ops, ts, n - 1, d);
    } else {
      j := n - 1;
    }
  }

  /** While the account stays, a device's cursor is at or past everything it reported; with
      DeviceHistory, it is the highest of its reports, and stale reports never rewind it. And it
      counts as active at least since its last report. */
  lemma CursorCovers(cfg: Config, ss: seq<World>, ops: seq<Op>, ts: seq<int>, n: nat, d: DeviceKey, j: nat)
    requires Trace(cfg, ss, ops, ts) && n <= |ops| && Keeps(ops, d.account)
    requires j < n && Reports(ops[j], d)
    ensures d in ss[n].db.devices && ss[n].db.devices[d].lastSeen >= ops[j].lastSeen &&
        ss[n].db.devices[d].lastActive >= ts[j]
  {
    JustReported(cfg, ss, ops, ts, j, d);
    CursorRises(cfg, ss, ops, ts, j + 1, n, d, ts[j]);
  }

  lemma {:induction false} CursorRises(cfg: Config, ss: seq<World>, ops: seq<Op>, ts: seq<int>, m: nat, n: nat,
                                       d: DeviceKey, since: int)
    requires Trace(cfg, ss, ops, ts) && m <= n <= |ops| && Keeps(ops, d.account)
    requires d in ss[m].db.devices && since <= ss[m].db.devices[d].lastActive && (m < |ops| ==> since <= ts[m])
    ensures d in ss[n].db.devices && ss[n].db.devices[d].lastSeen >= ss[m].db.devices[d].lastSeen
    ensures ss[n].db.devices[d].lastActive >= since
    decreases n
  {
    if n == m {
    } else {
      CursorRises(cfg, ss, ops, ts, m, n - 1, d, since);
      NextCursor(cfg, ss, ops, ts, n - 1, d);
    }
  }

  lemma JustReported(cfg: Config, ss: seq<World>, ops: seq<Op>, ts: seq<int>, j: nat, d: DeviceKey)
    requires Trace(cfg, ss, ops, ts) && j < |ops| && Reports(ops[j], d)
    ensures d in ss[j + 1].db.devices
    ensures ss[j + 1].db.devices[d].lastSeen >= ops[j].lastSeen && ss[j + 1].db.devices[d].lastActive == ts[j]
  {
    assert ss[j + 1] == Apply(cfg, ss[j], ops[j], ts[j]);
  }

  lemma NextCursor(cfg: Config, ss: seq<World>, ops: seq<Op>, ts: seq<int>, i: nat, d: DeviceKey)
    requires Trace(cfg, ss, ops, ts) && i < |ops| && ops[i] != DeleteAccount(d.account) && d in ss[i].db.devices
    ensures d in ss[i + 1].db.devices && ss[i + 1].db.devices[d].lastSeen >= ss[i].db.devices[d].lastSeen
    ensures ss[i + 1].db.devices[d].lastActive == ss[i].db.devices[d].lastActive ||
        ss[i + 1].db.devices[d].lastActive == ts[i]
  {
    assert ss[i + 1] == Apply(cfg, ss[i], ops[i], ts[i]);
    CursorStays(cfg, ss[i], ops[i], ts[i], d);
  }

  lemma CursorStays(cfg: Config, w: World, op: Op, now: int, d: DeviceKey)
    requires op != DeleteAccount(d.account) && d in w.db.devices
    ensures var db' := Apply(cfg, w, op, now).db;
      && d in db'.devices && db'.devices[d].lastSeen >= w.db.devices[d].lastSeen
      && (db'.devices[d].lastActive == w.db.devices[d].lastActive || db'.devices[d].lastActive == now)
  {
    match op
    case SyncBatch(a, app, rows, _) => BatchLeavesUploads(w.db, app, a, rows, now);
    case SendIntents(a, events) => EventsLeaveUploads(w.db, a, events, now);
    case Finalize(a, u) => FinalizeShape(cfg, w, a, u, now);
    case ReleaseRef(a, h) => ReleaseShape(w.db, a, h, now);
    case _ =>
  }

  /** What one report does to a count; a release too many is ignored. */
  function Recount(count: nat, op: Op, k: BlobKey): nat {
    if !Touches(op, k) then count else if op.AddRef? then count + 1 else Max(0, count - 1)
  }

  /** The references left after all reports, starting from `count`. */
  function Balance(count: nat, ops: seq<Op>, k: BlobKey): nat {
    if ops == [] then count else Recount(Balance(count, ops[..|ops| - 1], k), ops[|ops| - 1], k)
  }

  /** As long as a blob's row lives, its count is the balance of the references reported for it, and
      of nothing else. */
  lemma CountIsBalance(cfg: Config, ss: seq<World>, ops: seq<Op>, ts: seq<int>, m: nat, n: nat, k: BlobKey)
    requires Trace(cfg, ss, ops, ts) && m <= n <= |ops|
    requires Lives(ss, m, n, k)
    ensures ss[n].db.blobs[k].refCount == Balance(ss[m].db.blobs[k].refCount, ops[m..n], k)
  {
    CountFrom(cfg, ss, ops, ts, m, n, k, ss[m].db.blobs[k].refCount);
  }

  /** The blob's row is there from m to n. */
  ghost predicate Lives(ss: seq<World>, m: nat, n: nat, k: BlobKey) {
    forall j :: m <= j <= n && j < |ss| ==> k in ss[j].db.blobs
  }

  lemma {:induction false} CountFrom(cfg: Config, ss: seq<World>, ops: seq<Op>, ts: seq<int>, m: nat, n: nat,
                                     k: BlobKey, count: nat)
    requires Trace(cfg, ss, ops, ts) && m <= n <= |ops|
    requires Lives(ss, m, n, k) && ss[m].db.blobs[k].refCount == count
    ensures ss[n].db.blobs[k].refCount == Balance(count, ops[m..n], k)
    decreases n
  {
    if m == n {
      assert ops[m..n] == [];
    } else {
      CountFrom(cfg, ss, ops, ts, m, n - 1, k, count);
      NextBalance(cfg, ss, ops, ts, m, n - 1, k, count);
    }
  }

  lemma NextBalance(cfg: Config, ss: seq<World>, ops: seq<Op>, ts: seq<int>, m: nat, i: nat, k: BlobKey, count: nat)
    requires Trace(cfg, ss, ops, ts) && m <= i < |ops| && k in ss[i].db.blobs && k in ss[i + 1].db.blobs
    requires ss[i].db.blobs[k].refCount == Balance(count, ops[m..i], k)
    ensures ss[i + 1].db.blobs[k].refCount == Balance(count, ops[m..i + 1], k)
  {
    NextCount(cfg, ss, ops, ts, i, k);
    OneMoreReport(count, ops, m, i, k);
  }

  lemma OneMoreReport(count: nat, ops: seq<Op>, m: nat, n: nat, k: BlobKey)
    requires m <= n < |ops|
    ensures Balance(count, ops[m..n + 1], k) == Recount(Balance(count, ops[m..n], k), ops[n], k)
  {
    assert ops[m..n + 1][..n - m] == ops[m..n];
  }

  lemma NextCount(cfg: Config, ss: seq<World>, ops: seq<Op>, ts: seq<int>, i: nat, k: BlobKey)
    requires Trace(cfg, ss, ops, ts) && i < |ops| && k in ss[i].db.blobs && k in ss[i + 1].db.blobs
    ensures ss[i + 1].db.blobs[k].refCount == Recount(ss[i].db.blobs[k].refCount, ops[i], k)
  {
    CountStep(cfg, ss[i], ss[i + 1], ops[i], ts[i], k);
  }

  lemma CountStep(cfg: Config, w: World, w': World, op: Op, now: int, k: BlobKey)
    requires w' == Apply(cfg, w, op, now) && k in w.db.blobs && k in w'.db.blobs
    ensures w'.db.blobs[k].refCount == Recount(w.db.blobs[k].refCount, op, k)
  {
    if op.AddRef? {
      assert w'.db == AddReference(w.db, op.account, op.hash, now);
    } else if op.ReleaseRef? {
      ReleaseCounts(w, op.account, op.hash, now, k);
    } else if op.Finalize? {
      FinalizeBlobs(cfg, w, op.account, op.upload, now);
    } else {
      BlobsStayOrGo(cfg, w, op, now, k);
    }
  }

  lemma ReleaseCounts(w: World, a: Account, h: Hash, now: int, k: BlobKey)
    requires k in w.db.blobs
    ensures var db' := ReleaseReference(w.db, a, h, now);
      k in db'.blobs && db'.blobs[k].refCount == Recount(w.db.blobs[k].refCount, ReleaseRef(a, h), k)
  {
    ReleaseShape(w.db, a, h, now);
  }

  lemma CounterGrows(cfg: Config, ss: seq<World>, ops: seq<Op>, ts: seq<int>, a: Account, i: nat, j: nat)
    requires Trace(cfg, ss, ops, ts) && i <= j <= |ops| && OneLine(ss[0].db) && Keeps(ops, a)
    ensures Counter(ss[i].db, a) <= Counter(ss[j].db, a)
  {
    if i < j {
      RunEvolves(cfg, ss, ops, ts, a, i, j);
    }
  }

  // ---------- The theorem ----------

  /** Why deleting k at step n is safe, i being the step that last took it to zero references. */
  ghost predicate Safe(ss: seq<World>, ops: seq<Op>, ts: seq<int>, n: nat, k: BlobKey, p: ReclaimPolicy, i: nat)
    requires |ss| == |ops| + 1 && |ts| == |ops| && n < |ops| && k in ss[n].db.blobs && ss[n].db.blobs[k].zeroRef.Some?
  {
    var z := ss[n].db.blobs[k].zeroRef.value;
    && AtZeroSince(ss, n, k, z, i)
    && ts[i] <= ts[n] - p.gracePeriod
    && (forall j :: 0 <= j < n && Touches(ops[j], k) ==> ts[j] <= ts[n] - p.gracePeriod)
    && (forall d :: d in ss[n].db.devices && d.account == k.account &&
                    ss[n].db.devices[d].lastActive > ts[n] - p.deadDevicePeriod ==>
          AckedBetween(ops, i, n, d, z))
  }

  ghost predicate AckedBetween(ops: seq<Op>, i: nat, n: nat, d: DeviceKey, z: nat) {
    exists j :: i < j < n && j < |ops| && Reports(ops[j], d) && ops[j].lastSeen >= z
  }

  /** Reclaim safety: any blob a sweep deletes has had zero references ever since the step that last
      took it there; neither that step nor any reference report is within the grace period; and
      every device that is not dead has, after that step, reported a cursor at or past it. */
  lemma SweepIsSafe(cfg: Config, ss: seq<World>, ops: seq<Op>, ts: seq<int>, n: nat, k: BlobKey) returns (i: nat)
    requires Trace(cfg, ss, ops, ts) && n < |ops| && OneLine(ss[0].db)
    requires Keeps(ops, k.account) && Honest(ss, ops, k.account)
    requires k !in ss[0].db.blobs && forall d :: d in ss[0].db.devices ==> d.account != k.account
    requires ops[n].ReclaimSweep? && k in ss[n].db.blobs && k !in ss[n + 1].db.blobs
    ensures ss[n].db.blobs[k].zeroRef.Some? && ops[n].policy.reclaim
    ensures Safe(ss, ops, ts, n, k, ops[n].policy, i)
  {
    var p, db := ops[n].policy, ss[n].db;
    SweptAway(cfg, ss, ops, ts, n, k);
    var z := db.blobs[k].zeroRef.value;
    i := ZeroHistory(cfg, ss, ops, ts, n, k);
    TransitionHistory(cfg, ss, ops, ts, n, k, z, i);
    forall j | 0 <= j < n && Touches(ops[j], k) ensures ts[j] <= ts[n] - p.gracePeriod {
      ActivityHistory(cfg, ss, ops, ts, n, k, j);
    }
    forall d | d in db.devices && d.account == k.account && db.devices[d].lastActive > ts[n] - p.deadDevicePeriod
      ensures AckedBetween(ops, i, n, d, z)
    {
      assert !Behind(db, k, z, ts[n] - p.deadDevicePeriod, d);
      Acked(cfg, ss, ops, ts, n, k.account, d, z, i);
    }
  }

  /** What a sweep deletes was reclaimable. */
  lemma SweptAway(cfg: Config, ss: seq<World>, ops: seq<Op>, ts: seq<int>, n: nat, k: BlobKey)
    requires Trace(cfg, ss, ops, ts) && n < |ops| && ops[n].ReclaimSweep?
    requires k in ss[n].db.blobs && k !in ss[n + 1].db.blobs
    ensures ops[n].policy.reclaim && Reclaimable(ss[n].db, k, ts[n] - ops[n].policy.gracePeriod,
        ts[n] - ops[n].policy.deadDevicePeriod)
  {
    assert ss[n + 1] == Apply(cfg, ss[n], ops[n], ts[n]);
    assert k in Swept(ss[n].db, ops[n].policy, ts[n]);
  }

  /** A cursor past a zero point was reported after the step that stamped it. */
  lemma Acked(cfg: Config, ss: seq<World>, ops: seq<Op>, ts: seq<int>, n: nat, a: Account, d: DeviceKey, z: nat, i: nat)
    requires Trace(cfg, ss, ops, ts) && n < |ops| && OneLine(ss[0].db) && Keeps(ops, a) && Honest(ss, ops, a)
    requires d !in ss[0].db.devices && d.account == a
    requires d in ss[n].db.devices && z <= ss[n].db.devices[d].lastSeen
    requires i < n && Counter(ss[i].db, a) < z
    ensures AckedBetween(ops, i, n, d, z)
  {
    var j := DeviceHistory(cfg, ss, ops, ts, n, d);
    assert z <= ops[j].lastSeen <= Counter(ss[j].db, a);
    if j <= i {
      CounterGrows(cfg, ss, ops, ts, a, j, i);
    }
    assert i < j < n;
  }

  // ---------- Nothing is kept for ever ----------

  /** The three conditions, for a blob of this account and zero point: no references, none reported within
      the grace period, and every device seen within the dead-device period has acknowledged. */
  ghost predicate Due(db: Db, k: BlobKey, p: ReclaimPolicy, now: int) {
    && k in db.blobs && db.blobs[k].refCount == 0 && db.blobs[k].zeroRef.Some?
    && now - db.blobs[k].lastActivity >= p.gracePeriod
    && forall d :: d in db.devices && d.account == k.account && now - db.devices[d].lastActive < p.deadDevicePeriod ==>
         db.devices[d].lastSeen >= db.blobs[k].zeroRef.value
  }

  /** A sweep takes exactly the blobs that are due, when it is turned on: dead devices and devices of other
      accounts hold nothing back. With a row its bytes go; every other file stays. */
  lemma SweepTakesExactly(cfg: Config, w: World, p: ReclaimPolicy, now: int)
    ensures var w' := Apply(cfg, w, ReclaimSweep(p), now);
      && (forall k :: k in w'.db.blobs <==> k in w.db.blobs && !(p.reclaim && Due(w.db, k, p, now)))
      && (forall k :: k in w'.db.blobs ==> w'.db.blobs[k] == w.db.blobs[k])
      && (forall h :: h in w'.disk.files <==>
            h in w.disk.files && !exists k :: k in w.db.blobs && k.hash == h && p.reclaim && Due(w.db, k, p, now))
      && w'.disk.staged == w.disk.staged && w'.db == w.db.(blobs := w'.db.blobs)
  {
    forall k ensures k in Swept(w.db, p, now) <==> p.reclaim && Due(w.db, k, p, now) {
      DueIsReclaimable(w.db, k, p, now);
    }
  }

  lemma DueIsReclaimable(db: Db, k: BlobKey, p: ReclaimPolicy, now: int)
    ensures Due(db, k, p, now) <==> Reclaimable(db, k, now - p.gracePeriod, now - p.deadDevicePeriod)
  {
    if k in db.blobs && db.blobs[k].zeroRef.Some? {
      forall d | d in db.devices
        ensures Behind(db, k, db.blobs[k].zeroRef.value, now - p.deadDevicePeriod, d) <==>
                d.account == k.account && now - db.devices[d].lastActive < p.deadDevicePeriod
                && db.devices[d].lastSeen < db.blobs[k].zeroRef.value
      {
      }
    }
  }
}
