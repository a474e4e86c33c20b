/** One sequence line per account. Sync rows of every app, intents and blob zero points are all
    stamped from one counter; this module shows what every operation keeps of that line, and how
    the log of an account moves from one state to the next. */
module SeqLine {
  import opened Collections
  import opened Model
  import opened Tables
  import opened Vault

  /** A place that carries a seq. */
  datatype Site = RowSite(row: RowKey) | IntentSite(intent: IntentKey) | ZeroSite(blob: BlobKey)

  function Owner(s: Site): Account {
    match s
    case RowSite(k) => k.account
    case IntentSite(k) => k.account
    case ZeroSite(k) => k.account
  }

  function StampAt(db: Db, s: Site): Option<nat> {
    match s
    case RowSite(k) => if k in db.rows then Some(db.rows[k].stamp) else None
    case IntentSite(k) => if k in db.intents then Some(db.intents[k].stamp) else None
    case ZeroSite(k) => if k in db.blobs then db.blobs[k].zeroRef else None
  }

  ghost predicate Bounded(db: Db) {
    forall s :: StampAt(db, s).Some? ==> 1 <= StampAt(db, s).value <= Counter(db, Owner(s))
  }

  ghost predicate AllDistinct(db: Db) {
    forall s, t :: Owner(s) == Owner(t) && StampAt(db, s).Some? && StampAt(db, s) == StampAt(db, t) ==> s == t
  }

  /** A blob is at zero references exactly while it has a zero point. */
  ghost predicate ZeroPoints(db: Db) {
    forall k :: k in db.blobs ==> (db.blobs[k].refCount == 0 <==> db.blobs[k].zeroRef.Some?)
  }

  ghost predicate OneLine(db: Db) {
    Bounded(db) && AllDistinct(db) && ZeroPoints(db)
  }

  // ---------- The two ways a transaction touches the line ----------

  /** One site of account `a` takes the next seq; other sites keep theirs or lose it. */
  ghost predicate Restamped(db: Db, db': Db, a: Account, s: Site) {
    && Owner(s) == a
    && StampAt(db', s) == Some(Counter(db, a) + 1)
    && Counter(db', a) == Counter(db, a) + 1
    && (forall b :: b != a ==> Counter(db', b) == Counter(db, b))
    && (forall t :: t != s ==> StampAt(db', t) == StampAt(db, t) || StampAt(db', t).None?)
  }

  /** No site gains or changes a seq, and the counters stand behind those that remain. */
  ghost predicate Thinned(db: Db, db': Db) {
    forall t :: StampAt(db', t).None? || (StampAt(db', t) == StampAt(db, t) &&
                Counter(db', Owner(t)) >= Counter(db, Owner(t)))
  }

  lemma RestampKeeps(db: Db, db': Db, a: Account, s: Site)
    requires Bounded(db) && AllDistinct(db) && Restamped(db, db', a, s)
    ensures Bounded(db') && AllDistinct(db')
  {
    forall t | StampAt(db', t).Some? ensures 1 <= StampAt(db', t).value <= Counter(db', Owner(t)) {
      if t != s { assert StampAt(db', t) == StampAt(db, t); }
    }
    forall t, u | Owner(t) == Owner(u) && StampAt(db', t).Some? && StampAt(db', t) == StampAt(db', u) ensures t == u {
      if t != s { assert StampAt(db', t) == StampAt(db, t); }
      if u != s { assert StampAt(db', u) == StampAt(db, u); }
    }
  }

  lemma ThinningKeeps(db: Db, db': Db)
    requires Bounded(db) && AllDistinct(db) && Thinned(db, db')
    ensures Bounded(db') && AllDistinct(db')
  {
  }

  // ---------- How the log of an account evolves ----------

  /** Rows are never removed, and a row or event that changed or appeared carries a seq above the
      earlier counter; an event goes only once it has expired. */
  ghost predicate Evolves(db: Db, db': Db, a: Account, now: int) {
    && Counter(db, a) <= Counter(db', a)
    && (forall k :: k in db.rows && k.account == a ==> k in db'.rows)
    && (forall k :: k in db'.rows && k.account == a ==>
          (k in db.rows && db'.rows[k] == db.rows[k]) || db'.rows[k].stamp > Counter(db, a))
    && (forall k :: k in db'.intents && k.account == a ==>
          (k in db.intents && db'.intents[k] == db.intents[k]) || db'.intents[k].stamp > Counter(db, a))
    && (forall k :: k in db.intents && k.account == a ==>
          (k in db'.intents && db'.intents[k] == db.intents[k]) || db.intents[k].expiresAt <= now)
  }

  lemma EvolvesTransitive(db: Db, db': Db, db'': Db, a: Account, now: int, now': int)
    requires Evolves(db, db', a, now) && Evolves(db', db'', a, now') && now <= now'
    ensures Evolves(db, db'', a, now')
  {
  }

  // ---------- Batches ----------

  lemma UpsertOneLine(t: Tally, app: App, a: Account, r: SyncInput, now: int, b: Account)
    requires OneLine(t.db)
    ensures var t' := UpsertOne(t, app, a, r, now); OneLine(t'.db) && Evolves(t.db, t'.db, b, now)
  {
    var t' := UpsertOne(t, app, a, r, now);
    if Writes(t.db, app, a, r) {
      RestampKeeps(t.db, t'.db, a, RowSite(RowKey(a, app, r.id)));
    }
  }

  /** A sync batch keeps the line; it consumes exactly `written` consecutive seqs of its account,
      and `maxSeq` is the new latest, or 0 when nothing was written. */
  lemma {:induction false} BatchLine(db: Db, app: App, a: Account, rs: seq<SyncInput>, now: int, b: Account)
    requires OneLine(db)
    ensures var t := UpsertBatch(db, app, a, rs, now);
      && OneLine(t.db) && Evolves(db, t.db, b, now)
      && t.written <= |rs|
      && Counter(t.db, b) == Counter(db, b) + (if b == a then t.written else 0)
      && t.maxSeq == (if t.written == 0 then 0 else Counter(t.db, a))
    decreases |rs|
  {
    if rs == [] {
    } else {
      var n := |rs| - 1;
      BatchLine(db, app, a, rs[..n], now, b);
      BatchLine(db, app, a, rs[..n], now, a);
      var t := UpsertBatch(db, app, a, rs[..n], now);
      UpsertOneLine(t, app, a, rs[n], now, b);
      EvolvesTransitive(db, t.db, UpsertOne(t, app, a, rs[n], now).db, b, now, now);
    }
  }

  lemma InsertOneLine(t: Tally, a: Account, e: IntentInput, now: int, b: Account)
    requires OneLine(t.db)
    ensures var t' := InsertOneIntent(t, a, e, now); OneLine(t'.db) && Evolves(t.db, t'.db, b, now)
  {
    var t' := InsertOneIntent(t, a, e, now);
    if IntentKey(a, e.id) !in t.db.intents {
      RestampKeeps(t.db, t'.db, a, IntentSite(IntentKey(a, e.id)));
    }
  }

  lemma {:induction false} EventsLine(db: Db, a: Account, es: seq<IntentInput>, now: int, b: Account)
    requires OneLine(db)
    ensures var t := InsertEvents(db, a, es, now);
      && OneLine(t.db) && Evolves(db, t.db, b, now)
      && t.written <= |es|
      && Counter(t.db, b) == Counter(db, b) + (if b == a then t.written else 0)
      && t.maxSeq == (if t.written == 0 then 0 else Counter(t.db, a))
    decreases |es|
  {
    if es == [] {
    } else {
      var n := |es| - 1;
      EventsLine(db, a, es[..n], now, b);
      EventsLine(db, a, es[..n], now, a);
      var t := InsertEvents(db, a, es[..n], now);
      InsertOneLine(t, a, es[n], now, b);
      EvolvesTransitive(db, t.db, InsertOneIntent(t, a, es[n], now).db, b, now, now);
    }
  }

  /** An intents batch likewise: exactly `written` seqs, whatever the prune at its end removes. */
  lemma IntentsLine(db: Db, a: Account, es: seq<IntentInput>, now: int, b: Account)
    requires OneLine(db)
    ensures var t := InsertIntents(db, a, es, now);
      && OneLine(t.db) && Evolves(db, t.db, b, now)
      && Counter(t.db, b) == Counter(db, b) + (if b == a then t.written else 0)
      && t.maxSeq == (if t.written == 0 then 0 else Counter(t.db, a))
  {
    EventsLine(db, a, es, now, b);
    EventsLine(db, a, es, now, a);
    var t := InsertEvents(db, a, es, now);
    ThinningKeeps(t.db, PruneFor(t.db, a, now));
    EvolvesTransitive(db, t.db, PruneFor(t.db, a, now), b, now, now);
  }

  // ---------- Every operation ----------

  /** A blob row takes the next seq as its zero point. */
  lemma ZeroStamped(db: Db, db': Db, a: Account, h: Hash, now: int, b: Account)
    requires OneLine(db)
    requires db'.rows == db.rows && db'.intents == db.intents
    requires db'.counters == db.counters[a := Counter(db, a) + 1]
    requires BlobKey(a, h) in db'.blobs
    requires db'.blobs == db.blobs[BlobKey(a, h) := db'.blobs[BlobKey(a, h)]]
    requires db'.blobs[BlobKey(a, h)].refCount == 0 && db'.blobs[BlobKey(a, h)].zeroRef == Some(Counter(db, a) + 1)
    ensures OneLine(db') && Evolves(db, db', b, now)
  {
    RestampKeeps(db, db', a, ZeroSite(BlobKey(a, h)));
  }

  /** Rows, intents and counters stay, and no blob gains or moves a zero point. */
  lemma Quiet(db: Db, db': Db, now: int, b: Account)
    requires OneLine(db)
    requires db'.rows == db.rows && db'.intents == db.intents && db'.counters == db.counters
    requires forall k :: k in db'.blobs ==> k in db.blobs
    requires forall k :: k in db'.blobs ==>
               (db'.blobs[k].zeroRef == db.blobs[k].zeroRef && db'.blobs[k].refCount == db.blobs[k].refCount) ||
               (db'.blobs[k].zeroRef.None? && db'.blobs[k].refCount > 0) ||
               (db'.blobs[k].zeroRef == db.blobs[k].zeroRef && db'.blobs[k].refCount > 0 && db.blobs[k].refCount > 0)
    ensures OneLine(db') && Evolves(db, db', b, now)
  {
    ThinningKeeps(db, db');
  }

  /** A new blob row takes exactly the next seq of its account as its zero point; for one that is
      there the whole database stays as it is. */
  lemma InsertBlobLine(db: Db, a: Account, h: Hash, size: nat, now: int, b: Account)
    requires OneLine(db)
    ensures var db' := InsertBlobIfAbsent(db, a, h, size, now); var k := BlobKey(a, h);
      && OneLine(db') && Evolves(db, db', b, now)
      && (k in db.blobs ==> db' == db)
      && (k !in db.blobs ==>
            && StampAt(db', ZeroSite(k)) == Some(Counter(db, a) + 1)
            && Counter(db', b) == Counter(db, b) + if b == a then 1 else 0)
  {
    var db' := InsertBlobIfAbsent(db, a, h, size, now);
    if BlobKey(a, h) !in db.blobs {
      ZeroStamped(db, db', a, h, now, b);
    }
  }

  /** A release takes a seq exactly on the transition from one reference to none: the next of its
      account, as the new zero point. Otherwise every counter and zero point stays. */
  lemma ReleaseLine(db: Db, a: Account, h: Hash, now: int, b: Account)
    requires OneLine(db)
    ensures var db' := ReleaseReference(db, a, h, now); var k := BlobKey(a, h);
      var last := k in db.blobs && db.blobs[k].refCount == 1;
      && OneLine(db') && Evolves(db, db', b, now)
      && Counter(db', b) == Counter(db, b) + (if last && b == a then 1 else 0)
      && (forall j :: StampAt(db', ZeroSite(j)) == if last &&
                      j == k then Some(Counter(db, a) + 1) else StampAt(db, ZeroSite(j)))
  {
    var db' := ReleaseReference(db, a, h, now);
    ReleaseShape(db, a, h, now);
    if db'.counters == db.counters {
      Quiet(db, db', now, b);
    } else {
      ZeroStamped(db, db', a, h, now, b);
    }
  }

  lemma SoftDeleteLine(db: Db, app: App, a: Account, id: EntityId, deletedAt: Option<int>, now: int, b: Account)
    requires OneLine(db)
    ensures var (db', r) := SoftDelete(db, app, a, id, deletedAt, now);
      && OneLine(db') && Evolves(db, db', b, now)
      && (r.Some? && !r.value.already ==> r.value.stamp == Counter(db', a) && Counter(db', a) == Counter(db, a) + 1)
      && (r.None? || r.value.already ==> db' == db)
  {
    var k := RowKey(a, app, id);
    var (db', r) := SoftDelete(db, app, a, id, deletedAt, now);
    if k in db.rows && !db.rows[k].deleted {
      RestampKeeps(db, db', a, RowSite(k));
    }
  }

  lemma FinalizeLine(cfg: Config, w: World, a: Account, u: UploadId, now: int, b: Account)
    requires OneLine(w.db)
    ensures var db' := DoFinalize(cfg, w, a, u, now).0.db; OneLine(db') && Evolves(w.db, db', b, now)
  {
    var db' := DoFinalize(cfg, w, a, u, now).0.db;
    FinalizeShape(cfg, w, a, u, now);
    if db' != w.db && db' != DropSessions(w.db, {u}) {
      var h, size :| db' == DropSessions(InsertBlobIfAbsent(w.db, a, h, size, now), {u});
      var db1 := InsertBlobIfAbsent(w.db, a, h, size, now);
      InsertBlobLine(w.db, a, h, size, now, b);
      Quiet(db1, db', now, b);
      EvolvesTransitive(w.db, db1, db', b, now, now);
    } else {
      Quiet(w.db, db', now, b);
    }
  }

  lemma StepLineLog(cfg: Config, w: World, op: Op, now: int, b: Account)
    requires OneLine(w.db)
    requires op.SyncBatch? || op.DeleteRow? || op.SendIntents? || op.PruneIntents?
    ensures OneLine(Apply(cfg, w, op, now).db) && Evolves(w.db, Apply(cfg, w, op, now).db, b, now)
  {
    match op
    case SyncBatch(a, app, rows, _) => BatchLine(w.db, app, a, rows, now, b);
    case DeleteRow(a, app, id, deletedAt) => SoftDeleteLine(w.db, app, a, id, deletedAt, now, b);
    case SendIntents(a, events) => IntentsLine(w.db, a, events, now, b);
    case PruneIntents => ThinningKeeps(w.db, PruneAll(w.db, now));
  }

  lemma StepLineBlobs(cfg: Config, w: World, op: Op, now: int, b: Account)
    requires OneLine(w.db)
    requires op.Finalize? || op.AddRef? || op.ReleaseRef? || op.ReclaimSweep?
    ensures OneLine(Apply(cfg, w, op, now).db) && Evolves(w.db, Apply(cfg, w, op, now).db, b, now)
  {
    match op
    case Finalize(a, u) => FinalizeLine(cfg, w, a, u, now, b);
    case AddRef(a, h) => Quiet(w.db, AddReference(w.db, a, h, now), now, b);
    case ReleaseRef(a, h) => ReleaseLine(w.db, a, h, now, b);
    case ReclaimSweep(p) => Quiet(w.db, DropBlobs(w.db, Swept(w.db, p, now)), now, b);
  }

  lemma StepLineRest(cfg: Config, w: World, op: Op, now: int, b: Account)
    requires OneLine(w.db)
    requires op.DeviceCursor? || op.Initiate? || op.PutPart? || op.Cancel? || op.ReapSweep? || op.CreateAccount?
    ensures OneLine(Apply(cfg, w, op, now).db) && Evolves(w.db, Apply(cfg, w, op, now).db, b, now)
  {
    Quiet(w.db, Apply(cfg, w, op, now).db, now, b);
  }

  lemma DropAccountLine(db: Db, a: Account, now: int, b: Account)
    requires OneLine(db)
    ensures OneLine(DropAccount(db, a))
    ensures a != b ==> Evolves(db, DropAccount(db, a), b, now)
  {
    ThinningKeeps(db, DropAccount(db, a));
  }

  /** Every operation keeps the line of every account, and lets the log of any account it does not
      remove only evolve. */
  lemma StepLine(cfg: Config, w: World, op: Op, now: int, b: Account)
    requires OneLine(w.db)
    ensures OneLine(Apply(cfg, w, op, now).db)
    ensures op != DeleteAccount(b) ==> Evolves(w.db, Apply(cfg, w, op, now).db, b, now)
  {
    if op.SyncBatch? || op.DeleteRow? || op.SendIntents? || op.PruneIntents? {
      StepLineLog(cfg, w, op, now, b);
    } else if op.Finalize? || op.AddRef? || op.ReleaseRef? || op.ReclaimSweep? {
      StepLineBlobs(cfg, w, op, now, b);
    } else if op.DeleteAccount? {
      DropAccountLine(w.db, op.account, now, b);
    } else {
      StepLineRest(cfg, w, op, now, b);
    }
  }

  /** In every reachable state the seqs of an account are pairwise distinct, at most its counter,
      and a blob is at zero references exactly while it has a zero point. */
  lemma {:induction false} ReachableLine(cfg: Config, ss: seq<World>, ops: seq<Op>, ts: seq<int>, n: nat)
    requires Trace(cfg, ss, ops, ts) && n <= |ops| && OneLine(ss[0].db)
    ensures OneLine(ss[n].db)
  {
    if n == 0 {
    } else {
      ReachableLine(cfg, ss, ops, ts, n - 1);
      var b: Account := *;
      StepLine(cfg, ss[n - 1], ops[n - 1], ts[n - 1], b);
    }
  }

  /** Between any two points of a run that keeps the account, its log only evolves. */
  lemma {:induction false} RunEvolves(cfg: Config, ss: seq<World>, ops: seq<Op>, ts: seq<int>, a: Account, i: nat,
                                      j: nat)
    requires Trace(cfg, ss, ops, ts) && i < j <= |ops| && OneLine(ss[0].db) && Keeps(ops, a)
    ensures Evolves(ss[i].db, ss[j].db, a, ts[j - 1])
    decreases j
  {
    ReachableLine(cfg, ss, ops, ts, j - 1);
    StepLine(cfg, ss[j - 1], ops[j - 1], ts[j - 1], a);
    if i < j - 1 {
      RunEvolves(cfg, ss, ops, ts, a, i, j - 1);
      EvolvesTransitive(ss[i].db, ss[j - 1].db, ss[j].db, a, ts[j - 2], ts[j - 1]);
    }
  }
}
