/** What the quota gate guarantees over whole runs, together with the write paths it guards. */
module QuotaRuns {
  import opened Collections
  import opened Model
  import opened Tables
  import opened Quotas
  import opened Vault
  import opened Staging
  import opened Integrity

  // ---------- Storage: stored bytes plus reservations ----------

  /** What the account has stored plus what its open sessions have reserved. */
  ghost function Committed(db: Db, a: Account): nat {
    StoredBytes(db, a) + DeclaredBytes(db, a)
  }

  /** The account's blobs and sessions are among what they were, at their sizes. */
  ghost predicate Shrinks(db: Db, db': Db, a: Account) {
    && (forall k :: k in BlobSizes(db', a) ==> k in BlobSizes(db, a) && BlobSizes(db', a)[k] == BlobSizes(db, a)[k])
    && (forall u :: u in Reservations(db', a) ==>
        u in Reservations(db, a) && Reservations(db', a)[u] == Reservations(db, a)[u])
  }

  lemma ShrinkingBounds(db: Db, db': Db, a: Account)
    requires Shrinks(db, db', a)
    ensures Committed(db', a) <= Committed(db, a)
    ensures |Reservations(db', a)| <= |Reservations(db, a)|
  {
    SumMonotone(BlobSizes(db', a), BlobSizes(db, a));
    SumMonotone(Reservations(db', a), Reservations(db, a));
    SubsetCard(Reservations(db', a).Keys, Reservations(db, a).Keys);
  }

  /** Apart from an accepted initiate and a stored blob, operations only shrink every account. */
  lemma OthersShrink(cfg: Config, w: World, op: Op, now: int, a: Account)
    requires !op.Initiate? && !op.Finalize?
    ensures Shrinks(w.db, Apply(cfg, w, op, now).db, a)
  {
    BlobsShape(cfg, w, op, now);
    if !op.PutPart? {
      DropShape(cfg, w, op, now);
    }
  }

  /** An accepted initiate reserves exactly its declared size, within the limits. */
  lemma InitiateReserves(cfg: Config, w: World, b: Account, u: UploadId, h: Hash, size: nat, now: int, a: Account)
    ensures var db' := DoInitiate(cfg, w, b, u, h, size, now).0.db;
      && (cfg.policy.storageBytes.Some? ==> Committed(db', a) <= Max(cfg.policy.storageBytes.value, Committed(w.db, a)))
      && (cfg.policy.uploads.Some? ==> |Reservations(db', a)| <= Max(cfg.policy.uploads.value, |Reservations(w.db, a)|))
  {
    var db' := DoInitiate(cfg, w, b, u, h, size, now).0.db;
    if InitiateRefusal(cfg, w, b, u, h, size).None? {
      assert BlobSizes(db', a) == BlobSizes(w.db, a);
      if a == b {
        assert Reservations(db', a) == Reservations(w.db, a)[u := size];
        SumPut(Reservations(w.db, a), u, size);
      } else {
        assert Reservations(db', a) == Reservations(w.db, a);
      }
    }
  }

  lemma StoreTrades(db: Db, db': Db, k: BlobKey, u: UploadId)
    requires Owns(db, k.account, u) && k !in db.blobs && k in db'.blobs
    requires db'.blobs == db.blobs[k := db'.blobs[k]] && db'.blobs[k].size <= db.sessions[u].declaredSize
    requires db'.sessions == db.sessions - {u}
    ensures Committed(db', k.account) <= Committed(db, k.account)
    ensures |Reservations(db', k.account)| <= |Reservations(db, k.account)|
  {
    var a := k.account;
    assert BlobSizes(db', a) == BlobSizes(db, a)[k := db'.blobs[k].size];
    SumPut(BlobSizes(db, a), k, db'.blobs[k].size);
    assert Reservations(db', a) == Reservations(db, a) - {u};
    SumTakeOut(Reservations(db, a), u);
  }

  /** Storing a blob trades its reservation for at most as many stored bytes. */
  lemma FinalizeTrades(cfg: Config, w: World, b: Account, u: UploadId, now: int, a: Account)
    requires StagingSound(w)
    ensures var db' := DoFinalize(cfg, w, b, u, now).0.db;
            Committed(db', a) <= Committed(w.db, a) && |Reservations(db', a)| <= |Reservations(w.db, a)|
  {
    if Judge(cfg, w, b, u).Genuine? && a == b {
      GenuineTrades(cfg, w, a, u, now);
    } else {
      FinalizeShrinks(cfg, w, b, u, now, a);
      ShrinkingBounds(w.db, DoFinalize(cfg, w, b, u, now).0.db, a);
    }
  }

  lemma GenuineTrades(cfg: Config, w: World, a: Account, u: UploadId, now: int)
    requires StagingSound(w) && Judge(cfg, w, a, u).Genuine?
    ensures var db' := DoFinalize(cfg, w, a, u, now).0.db;
            Committed(db', a) <= Committed(w.db, a) && |Reservations(db', a)| <= |Reservations(w.db, a)|
  {
    GenuineFacts(cfg, w, a, u, now);
    StoreTrades(w.db, DoFinalize(cfg, w, a, u, now).0.db, BlobKey(a, w.db.sessions[u].hash), u);
  }

  /** A stored blob is no larger than its session declared. */
  lemma GenuineFacts(cfg: Config, w: World, a: Account, u: UploadId, now: int)
    requires StagingSound(w) && Judge(cfg, w, a, u).Genuine?
    ensures Owns(w.db, a, u)
    ensures var db' := DoFinalize(cfg, w, a, u, now).0.db; var k := BlobKey(a, w.db.sessions[u].hash);
      && k !in w.db.blobs && k in db'.blobs && db'.blobs == w.db.blobs[k := db'.blobs[k]]
      && db'.blobs[k].size <= w.db.sessions[u].declaredSize
      && db'.sessions == w.db.sessions - {u}
  {
    FinalizeBlobs(cfg, w, a, u, now);
    FinalizeDrops(cfg, w, a, u, now);
    GenuineSize(cfg, w, a, u);
  }

  lemma GenuineSize(cfg: Config, w: World, a: Account, u: UploadId)
    requires StagingSound(w) && Judge(cfg, w, a, u).Genuine?
    ensures Owns(w.db, a, u) && |Judge(cfg, w, a, u).bytes| <= w.db.sessions[u].declaredSize
  {
    AssembledFits(w, u);
  }

  lemma FinalizeShrinks(cfg: Config, w: World, b: Account, u: UploadId, now: int, a: Account)
    requires Judge(cfg, w, b, u).Genuine? ==> a != b
    ensures Shrinks(w.db, DoFinalize(cfg, w, b, u, now).0.db, a)
  {
    FinalizeBlobs(cfg, w, b, u, now);
    FinalizeDrops(cfg, w, b, u, now);
  }

  ghost predicate WithinLimits(p: QuotaPolicy, db: Db, a: Account, committed: nat, open: nat) {
    && (p.storageBytes.Some? ==> Committed(db, a) <= Max(p.storageBytes.value, committed))
    && (p.uploads.Some? ==> |Reservations(db, a)| <= Max(p.uploads.value, open))
  }

  lemma StepConserves(cfg: Config, w: World, op: Op, now: int, a: Account)
    requires StagingSound(w)
    ensures WithinLimits(cfg.policy, Apply(cfg, w, op, now).db, a, Committed(w.db, a), |Reservations(w.db, a)|)
  {
    match op
    case Initiate(b, u, h, size) => InitiateReserves(cfg, w, b, u, h, size, now, a);
    case Finalize(b, u) => FinalizeTrades(cfg, w, b, u, now, a);
    case _ =>
      OthersShrink(cfg, w, op, now, a);
      ShrinkingBounds(w.db, Apply(cfg, w, op, now).db, a);
  }

  /** Reservation conservation: in every run, stored bytes plus reservations never exceed the limit
      or what the run started with, and open sessions never exceed the cap or what it started with. */
  lemma ReservationsConserved(cfg: Config, ss: seq<World>, ops: seq<Op>, ts: seq<int>, n: nat, a: Account)
    requires Trace(cfg, ss, ops, ts) && n <= |ops| && StagingSound(ss[0])
    ensures WithinLimits(cfg.policy, ss[n].db, a, Committed(ss[0].db, a), |Reservations(ss[0].db, a)|)
  {
    var committed, open := Committed(ss[0].db, a), |Reservations(ss[0].db, a)|;
    StartsWithin(cfg.policy, ss[0].db, a);
    RunWithin(cfg, ss, ops, ts, 0, n, a, committed, open);
  }

  lemma {:induction false} RunWithin(cfg: Config, ss: seq<World>, ops: seq<Op>, ts: seq<int>, m: nat, n: nat,
                                     a: Account, committed: nat, open: nat)
    requires Trace(cfg, ss, ops, ts) && m <= n <= |ops| && StagingSound(ss[0])
    requires WithinLimits(cfg.policy, ss[m].db, a, committed, open)
    ensures WithinLimits(cfg.policy, ss[n].db, a, committed, open)
    decreases n
  {
    if n == m {
    } else {
      RunWithin(cfg, ss, ops, ts, m, n - 1, a, committed, open);
      NextWithin(cfg, ss, ops, ts, n - 1, a, committed, open);
    }
  }

  lemma StartsWithin(p: QuotaPolicy, db: Db, a: Account)
    ensures WithinLimits(p, db, a, Committed(db, a), |Reservations(db, a)|)
  {
  }

  lemma NextWithin(cfg: Config, ss: seq<World>, ops: seq<Op>, ts: seq<int>, i: nat, a: Account, committed: nat,
                   open: nat)
    requires Trace(cfg, ss, ops, ts) && i < |ops| && StagingSound(ss[0])
    requires WithinLimits(cfg.policy, ss[i].db, a, committed, open)
    ensures WithinLimits(cfg.policy, ss[i + 1].db, a, committed, open)
  {
    ReachableSound(cfg, ss, ops, ts, i);
    assert ss[i + 1] == Apply(cfg, ss[i], ops[i], ts[i]);
    StaysWithin(cfg, ss[i], ss[i + 1], ops[i], ts[i], a, committed, open);
  }

  lemma StaysWithin(cfg: Config, w: World, w': World, op: Op, now: int, a: Account, committed: nat, open: nat)
    requires StagingSound(w) && w' == Apply(cfg, w, op, now)
    requires WithinLimits(cfg.policy, w.db, a, committed, open)
    ensures WithinLimits(cfg.policy, w'.db, a, committed, open)
  {
    StepConserves(cfg, w, op, now, a);
  }

  /** The account's blobs and reservations fit the storage limit. */
  ghost predicate Solvent(p: QuotaPolicy, db: Db, a: Account) {
    p.storageBytes.Some? ==> Committed(db, a) <= p.storageBytes.value
  }

  /** Within the limit, up to its declared size an open session can always be finalized. */
  lemma ReservedFits(p: QuotaPolicy, db: Db, a: Account, u: UploadId, size: nat)
    requires Owns(db, a, u) && size <= db.sessions[u].declaredSize && Solvent(p, db, a)
    ensures AdmitFinalize(p, FootprintOf(db, a), size).None?
  {
    SumTakeOut(Reservations(db, a), u);
  }

  /** Once within the limit an account stays within it. */
  lemma StaysSolvent(cfg: Config, ss: seq<World>, ops: seq<Op>, ts: seq<int>, m: nat, n: nat, a: Account)
    requires Trace(cfg, ss, ops, ts) && m <= n <= |ops| && StagingSound(ss[0])
    requires Solvent(cfg.policy, ss[m].db, a)
    ensures Solvent(cfg.policy, ss[n].db, a)
  {
    var open := |Reservations(ss[m].db, a)|;
    StartsWithin(cfg.policy, ss[m].db, a);
    RunWithin(cfg, ss, ops, ts, m, n, a, Committed(ss[m].db, a), open);
  }

  /** From a point within the limit on, finalize is never turned away for quota. */
  lemma FinalizeNeverOverQuota(cfg: Config, ss: seq<World>, ops: seq<Op>, ts: seq<int>, m: nat, n: nat, a: Account,
                               u: UploadId)
    requires Trace(cfg, ss, ops, ts) && m <= n <= |ops| && StagingSound(ss[0])
    requires Solvent(cfg.policy, ss[m].db, a)
    ensures !Judge(cfg, ss[n], a, u).OverQuota?
  {
    StaysSolvent(cfg, ss, ops, ts, m, n, a);
    ReachableSound(cfg, ss, ops, ts, n);
    if Owns(ss[n].db, a, u) {
      AssembledSize(ss[n], u);
      ReservedFits(cfg.policy, ss[n].db, a, u, ReceivedBytes(ss[n].db, u));
    }
  }

  /** An accepted initiate leaves its account within the limit, however far over it was before. */
  lemma AcceptedIsSolvent(cfg: Config, w: World, a: Account, u: UploadId, h: Hash, size: nat, now: int)
    requires DoInitiate(cfg, w, a, u, h, size, now).1 == Created
    ensures Solvent(cfg.policy, DoInitiate(cfg, w, a, u, h, size, now).0.db, a)
  {
    assert InitiateRefusal(cfg, w, a, u, h, size).None?;
    var db' := w.db.(sessions := w.db.sessions[u := Session(a, h, size, now)]);
    assert BlobSizes(db', a) == BlobSizes(w.db, a);
    assert Reservations(db', a) == Reservations(w.db, a)[u := size];
    SumPut(Reservations(w.db, a), u, size);
  }

  // ---------- Rows ----------

  function KeysOf(app: App, a: Account, ids: set<EntityId>): (ks: set<RowKey>)
    ensures forall k :: k in ks <==> k.account == a && k.app == app && k.id in ids
    ensures |ks| == |ids|
  {
    var ks := set id | id in ids :: RowKey(a, app, id);
    ImageCard(ids, ks, (id: EntityId) => RowKey(a, app, id));
    assert forall k :: k in ks <==> k.account == a && k.app == app && k.id in ids by {
      assert forall k: RowKey :: k == RowKey(k.account, k.app, k.id);
    }
    ks
  }

  /** A batch adds exactly the keys of its entities. */
  lemma {:induction false} BatchKey(db: Db, app: App, a: Account, rs: seq<SyncInput>, now: int, k: RowKey)
    ensures k in UpsertBatch(db, app, a, rs, now).db.rows <==>
        k in db.rows || (k.account == a && k.app == app && k.id in Ids(rs))
    decreases |rs|
  {
    if rs == [] {
    } else {
      var n := |rs| - 1;
      BatchKey(db, app, a, rs[..n], now, k);
      assert Ids(rs) == Ids(rs[..n]) + [rs[n].id];
      assert k == RowKey(k.account, k.app, k.id);
    }
  }

  /** An applied batch grows the row count by exactly the distinct ids that were not there. */
  lemma BatchGrowth(db: Db, app: App, a: Account, rs: seq<SyncInput>, now: int)
    ensures |AccountRows(UpsertBatch(db, app, a, rs, now).db, a)| ==
        |AccountRows(db, a)| + |Distinct(Ids(rs)) - EntityIds(db, app, a)|
  {
    var before, after := AccountRows(db, a), AccountRows(UpsertBatch(db, app, a, rs, now).db, a);
    var added := AddedRows(db, app, a, rs);
    forall k ensures (k in after <==> k in before || k in added) && !(k in before && k in added) {
      AddsRow(db, app, a, rs, now, k);
    }
    TwoParts(after, before, added);
  }

  function AddedRows(db: Db, app: App, a: Account, rs: seq<SyncInput>): (ks: set<RowKey>)
    ensures |ks| == |Distinct(Ids(rs)) - EntityIds(db, app, a)|
  {
    KeysOf(app, a, Distinct(Ids(rs)) - EntityIds(db, app, a))
  }

  lemma AddsRow(db: Db, app: App, a: Account, rs: seq<SyncInput>, now: int, k: RowKey)
    ensures k in AccountRows(UpsertBatch(db, app, a, rs, now).db, a) <==>
        k in AccountRows(db, a) || k in AddedRows(db, app, a, rs)
    ensures !(k in AccountRows(db, a) && k in AddedRows(db, app, a, rs))
  {
    BatchKey(db, app, a, rs, now, k);
    KnownEntity(db, app, a, k);
  }

  lemma KnownEntity(db: Db, app: App, a: Account, k: RowKey)
    ensures k.account == a && k.app == app ==> (k in db.rows <==> k.id in EntityIds(db, app, a))
  {
    assert k == RowKey(k.account, k.app, k.id);
  }

  /** Row cap: an admitted batch whose probe is exact never takes the account over the cap, unless
      it was over already and does not grow. */
  lemma RowCapStep(cfg: Config, w: World, op: Op, now: int, a: Account)
    requires cfg.policy.rows.Some?
    requires op.SyncBatch? && op.account == a ==> Watertight(EntityIds(w.db, op.app, a), Ids(op.rows))
    ensures |AccountRows(Apply(cfg, w, op, now).db, a)| <= Max(cfg.policy.rows.value, |AccountRows(w.db, a)|)
  {
    var db' := Apply(cfg, w, op, now).db;
    if op.SyncBatch? {
      RowCapBatch(cfg, w, op.app, op.account, op.rows, now, a);
    } else {
      RowsStay(cfg, w, op, now);
      SubsetCard(AccountRows(db', a), AccountRows(w.db, a));
    }
  }

  lemma RowCapBatch(cfg: Config, w: World, app: App, b: Account, rs: seq<SyncInput>, now: int, a: Account)
    requires cfg.policy.rows.Some? && (b == a ==> Watertight(EntityIds(w.db, app, a), Ids(rs)))
    ensures |AccountRows(DoSyncBatch(cfg, w, app, b, rs, now).0.db, a)| <=
        Max(cfg.policy.rows.value, |AccountRows(w.db, a)|)
  {
    var ids, present := Ids(rs), EntityIds(w.db, app, b);
    if a == b {
      BatchGrowth(w.db, app, a, rs, now);
      if AdmitSyncBatch(cfg.policy, |AccountRows(w.db, a)|, ids, ChunkedExisting(present, ids)).None? {
        AdmittedFits(cfg.policy.rows.value, |AccountRows(w.db, a)|, ids, present, 413, Rows);
      }
    } else {
      var before, after := AccountRows(w.db, a), AccountRows(UpsertBatch(w.db, app, b, rs, now).db, a);
      forall k ensures k in after <==> k in before {
        BatchKey(w.db, app, b, rs, now, k);
      }
      assert after == before;
    }
  }

  lemma RowsStay(cfg: Config, w: World, op: Op, now: int)
    requires !op.SyncBatch?
    ensures Apply(cfg, w, op, now).db.rows.Keys <= w.db.rows.Keys
  {
    if op.SendIntents? {
      EventsLeaveUploads(w.db, op.account, op.events, now);
    } else if op.Finalize? {
      FinalizeShape(cfg, w, op.account, op.upload, now);
    }
  }

  /** Row cap: as long as the account's own batches are watertight its row count stays within the cap, or
      within what it was at the start. */
  lemma {:induction false} RowCapHolds(cfg: Config, ss: seq<World>, ops: seq<Op>, ts: seq<int>, n: nat, a: Account)
    requires Trace(cfg, ss, ops, ts) && n <= |ops| && cfg.policy.rows.Some?
    requires forall i :: 0 <= i < n && ops[i].SyncBatch? && ops[i].account == a ==>
               Watertight(EntityIds(ss[i].db, ops[i].app, a), Ids(ops[i].rows))
    ensures |AccountRows(ss[n].db, a)| <= Max(cfg.policy.rows.value, |AccountRows(ss[0].db, a)|)
  {
    if n == 0 {
    } else {
      RowCapHolds(cfg, ss, ops, ts, n - 1, a);
      RowCapStep(cfg, ss[n - 1], ops[n - 1], ts[n - 1], a);
      assert ss[n] == Apply(cfg, ss[n - 1], ops[n - 1], ts[n - 1]);
    }
  }

  // ---------- Intents ----------

  function IntentKeysOf(a: Account, ids: set<EventId>): (ks: set<IntentKey>)
    ensures forall k :: k in ks <==> k.account == a && k.id in ids
    ensures |ks| == |ids|
  {
    var ks := set id | id in ids :: IntentKey(a, id);
    ImageCard(ids, ks, (id: EventId) => IntentKey(a, id));
    assert forall k :: k in ks <==> k.account == a && k.id in ids by {
      assert forall k: IntentKey :: k == IntentKey(k.account, k.id);
    }
    ks
  }

  lemma {:induction false} EventKey(db: Db, a: Account, es: seq<IntentInput>, now: int, k: IntentKey)
    ensures var db' := InsertEvents(db, a, es, now).db;
      && (k in db'.intents <==> k in db.intents || (k.account == a && k.id in IntentIds(es)))
      && (k in db.intents ==> db'.intents[k] == db.intents[k])
    decreases |es|
  {
    if es == [] {
    } else {
      var n := |es| - 1;
      EventKey(db, a, es[..n], now, k);
      assert IntentIds(es) == IntentIds(es[..n]) + [es[n].id];
      assert k == IntentKey(k.account, k.id);
    }
  }

  /** An admitted intents batch whose probe is exact keeps the unexpired count within the cap, or
      within what it was. */
  lemma IntentCapBatch(cfg: Config, w: World, a: Account, es: seq<IntentInput>, now: int)
    requires cfg.policy.intents.Some? && Watertight(EventIds(w.db, a), IntentIds(es))
    ensures |CurrentIntents(DoSendIntents(cfg, w, a, es, now).0.db, a, now)| <=
        Max(cfg.policy.intents.value, |CurrentIntents(w.db, a, now)|)
  {
    var ids, present := IntentIds(es), EventIds(w.db, a);
    if AdmitIntents(cfg.policy, |CurrentIntents(w.db, a, now)|, ids, ChunkedExisting(present, ids)).None? {
      AdmittedFits(cfg.policy.intents.value, |CurrentIntents(w.db, a, now)|, ids, present, 429, Intents);
      CurrentIntentBound(w.db, a, es, now);
    }
  }

  /** The events of the account that are stored, expired or not. */
  function AccountEvents(db: Db, a: Account): set<IntentKey> {
    set k | k in db.intents && k.account == a
  }

  /** Inserting grows the events of the account by exactly the distinct ids not there before. */
  lemma IntentGrowth(db: Db, a: Account, es: seq<IntentInput>, now: int)
    ensures |AccountEvents(InsertEvents(db, a, es, now).db, a)| ==
            |AccountEvents(db, a)| + |Distinct(IntentIds(es)) - EventIds(db, a)|
  {
    var before, after := AccountEvents(db, a), AccountEvents(InsertEvents(db, a, es, now).db, a);
    var added := AddedEvents(db, a, es);
    forall k ensures (k in after <==> k in before || k in added) && !(k in before && k in added) {
      AddsEvent(db, a, es, now, k);
    }
    TwoParts(after, before, added);
  }

  function AddedEvents(db: Db, a: Account, es: seq<IntentInput>): (ks: set<IntentKey>)
    ensures |ks| == |Distinct(IntentIds(es)) - EventIds(db, a)|
  {
    IntentKeysOf(a, Distinct(IntentIds(es)) - EventIds(db, a))
  }

  lemma AddsEvent(db: Db, a: Account, es: seq<IntentInput>, now: int, k: IntentKey)
    ensures k in AccountEvents(InsertEvents(db, a, es, now).db, a) <==>
        k in AccountEvents(db, a) || k in AddedEvents(db, a, es)
    ensures !(k in AccountEvents(db, a) && k in AddedEvents(db, a, es))
  {
    EventKey(db, a, es, now, k);
    KnownEvent(db, a, k);
  }

  /** Every event is unexpired, in the tables and in the batch. */
  predicate NothingExpires(db: Db, a: Account, es: seq<IntentInput>, now: int) {
    && (forall k :: k in db.intents && k.account == a ==> db.intents[k].expiresAt > now)
    && (forall i :: 0 <= i < |es| ==> es[i].expiresAt > now)
  }

  /** When nothing expires the whole batch, with the prune that ends it, grows the current events by
      exactly the distinct new ids. */
  lemma CurrentIntentGrowth(db: Db, a: Account, es: seq<IntentInput>, now: int)
    requires NothingExpires(db, a, es, now)
    ensures |CurrentIntents(InsertIntents(db, a, es, now).db, a, now)| ==
            |CurrentIntents(db, a, now)| + |Distinct(IntentIds(es)) - EventIds(db, a)|
  {
    IntentGrowth(db, a, es, now);
    StaysUnexpired(db, a, es, now);
    var after := InsertEvents(db, a, es, now).db;
    assert CurrentIntents(InsertIntents(db, a, es, now).db, a, now) == AccountEvents(after, a);
    assert CurrentIntents(db, a, now) == AccountEvents(db, a);
  }

  lemma {:induction false} StaysUnexpired(db: Db, a: Account, es: seq<IntentInput>, now: int)
    requires NothingExpires(db, a, es, now)
    ensures var db' := InsertEvents(db, a, es, now).db;
      forall k :: k in db'.intents && k.account == a ==> db'.intents[k].expiresAt > now
    decreases |es|
  {
    if es == [] {
    } else {
      StaysUnexpired(db, a, es[..|es| - 1], now);
    }
  }

  /** In general some may have expired, so the growth of the current events is at most that. */
  lemma CurrentIntentBound(db: Db, a: Account, es: seq<IntentInput>, now: int)
    ensures |CurrentIntents(InsertIntents(db, a, es, now).db, a, now)| <=
            |CurrentIntents(db, a, now)| + |Distinct(IntentIds(es)) - EventIds(db, a)|
  {
    var before, after := CurrentIntents(db, a, now), CurrentIntents(InsertIntents(db, a, es, now).db, a, now);
    var added := AddedEvents(db, a, es);
    forall k | k in after ensures k in before + added {
      AddsEvent(db, a, es, now, k);
      EventKey(db, a, es, now, k);
    }
    SubsetCard(after, before + added);
  }

  lemma KnownEvent(db: Db, a: Account, k: IntentKey)
    ensures k.account == a ==> (k in db.intents <==> k.id in EventIds(db, a))
  {
    assert k == IntentKey(k.account, k.id);
  }

  lemma IntentCapStep(cfg: Config, w: World, op: Op, now: int, a: Account)
    requires cfg.policy.intents.Some?
    requires op.SendIntents? && op.account == a ==> Watertight(EventIds(w.db, a), IntentIds(op.events))
    ensures |CurrentIntents(Apply(cfg, w, op, now).db, a, now)| <=
        Max(cfg.policy.intents.value, |CurrentIntents(w.db, a, now)|)
  {
    var before, after := CurrentIntents(w.db, a, now), CurrentIntents(Apply(cfg, w, op, now).db, a, now);
    if op.SendIntents? && op.account == a {
      IntentCapBatch(cfg, w, a, op.events, now);
    } else {
      OthersSendNothing(cfg, w, op, now, a);
      SubsetCard(after, before);
    }
  }

  lemma OthersSendNothing(cfg: Config, w: World, op: Op, now: int, a: Account)
    requires op.SendIntents? ==> op.account != a
    ensures CurrentIntents(Apply(cfg, w, op, now).db, a, now) <= CurrentIntents(w.db, a, now)
  {
    if op.SyncBatch? {
      BatchLeavesUploads(w.db, op.app, op.account, op.rows, now);
    } else if op.SendIntents? {
      forall k | k in CurrentIntents(Apply(cfg, w, op, now).db, a, now) ensures k in CurrentIntents(w.db, a, now) {
        EventKey(w.db, op.account, op.events, now, k);
      }
    } else if op.Finalize? {
      FinalizeShape(cfg, w, op.account, op.upload, now);
    }
  }

  /** Intent cap: at every instant `t` from the last operation on, the number of unexpired events is
      within the cap, or within what it was at the start of the run. */
  lemma {:induction false} IntentCapHolds(cfg: Config, ss: seq<World>, ops: seq<Op>, ts: seq<int>, n: nat, a: Account,
                                          start: int, t: int)
    requires Trace(cfg, ss, ops, ts) && n <= |ops| && cfg.policy.intents.Some?
    requires forall i :: 0 <= i < n && ops[i].SendIntents? && ops[i].account == a ==>
               Watertight(EventIds(ss[i].db, a), IntentIds(ops[i].events))
    requires start <= t && forall i :: 0 <= i < n ==> start <= ts[i] <= t
    ensures |CurrentIntents(ss[n].db, a, t)| <= Max(cfg.policy.intents.value, |CurrentIntents(ss[0].db, a, start)|)
  {
    if n == 0 {
      SubsetCard(CurrentIntents(ss[0].db, a, t), CurrentIntents(ss[0].db, a, start));
    } else {
      var now := ts[n - 1];
      IntentCapHolds(cfg, ss, ops, ts, n - 1, a, start, now);
      IntentCapStep(cfg, ss[n - 1], ops[n - 1], now, a);
      assert ss[n] == Apply(cfg, ss[n - 1], ops[n - 1], now);
      SubsetCard(CurrentIntents(ss[n].db, a, t), CurrentIntents(ss[n].db, a, now));
    }
  }
}
