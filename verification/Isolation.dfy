/** Account non-interference: whatever other accounts do in between, an account's share of the
    state, and every reply it gets, is what it would be had only its own operations run. */
module Isolation {
  import opened Collections
  import opened Model
  import opened Tables
  import opened Vault
  import opened Views
  import opened Staging
  import opened Integrity

  /** The account's own requests, and the server's sweeps, which visit every account. */
  predicate Concerns(op: Op, b: Account) {
    match op
    case PruneIntents => true
    case ReclaimSweep(_) => true
    case ReapSweep(_) => true
    case _ => op.account == b
  }

  // ---------- Operations of another account go unseen ----------

  /** Another account's batch leaves the account's rows, intents and counter alone. */
  lemma {:induction false} BatchUnseen(db: Db, app: App, a: Account, rs: seq<SyncInput>, now: int, b: Account)
    requires a != b
    ensures var db' := UpsertBatch(db, app, a, rs, now).db; Counter(db, b) == Counter(db', b) && SameRows(db, db', b)
    decreases |rs|
  {
    if rs == [] {
    } else {
      BatchUnseen(db, app, a, rs[..|rs| - 1], now, b);
    }
  }

  lemma {:induction false} EventsUnseen(db: Db, a: Account, es: seq<IntentInput>, now: int, b: Account)
    requires a != b
    ensures var db' := InsertEvents(db, a, es, now).db; Counter(db, b) == Counter(db', b) && SameIntents(db, db', b)
    decreases |es|
  {
    if es == [] {
    } else {
      EventsUnseen(db, a, es[..|es| - 1], now, b);
    }
  }

  /** The tables of the log changed only where b has nothing. */
  lemma LogUnseen(w: World, w': World, b: Account)
    requires w'.disk == w.disk && w'.db == w.db.(counters := w'.db.counters, rows := w'.db.rows,
        intents := w'.db.intents)
    requires Counter(w.db, b) == Counter(w'.db, b) && SameRows(w.db, w'.db, b) && SameIntents(w.db, w'.db, b)
    ensures Agree(w, w', b)
  {
  }

  lemma StoreUnseen(cfg: Config, w: World, a: Account, j: Judgement, now: int, b: Account)
    requires a != b
    ensures Agree(w, StoreGenuine(cfg, w, a, j, now), b)
  {
  }

  /** Sessions that are not b's go. */
  lemma LossUnseen(w: World, w': World, us: set<UploadId>, b: Account)
    requires LosesSessions(w', w, us) && forall u :: u in us ==> !Owns(w.db, b, u)
    requires w'.db == w.db.(sessions := w'.db.sessions, parts := w'.db.parts)
    ensures Agree(w, w', b)
  {
    forall u
      ensures (Owns(w.db, b, u) <==> Owns(w'.db, b, u)) && (Owns(w.db, b, u) ==> w.db.sessions[u] == w'.db.sessions[u])
    {
    }
  }

  lemma DiscardUnseen(w: World, a: Account, u: UploadId, b: Account)
    requires a != b
    ensures Agree(w, Discard(w, a, u), b)
  {
    if Owns(w.db, a, u) {
      DiscardFrame(w, a, u);
      DiscardLoses(w, a, u);
      LossUnseen(w, Discard(w, a, u), {u}, b);
    }
  }

  lemma FinalizeUnseen(cfg: Config, w: World, a: Account, u: UploadId, now: int, b: Account)
    requires a != b
    ensures Agree(w, DoFinalize(cfg, w, a, u, now).0, b)
  {
    var j := Judge(cfg, w, a, u);
    var w1 := StoreGenuine(cfg, w, a, j, now);
    StoreUnseen(cfg, w, a, j, now, b);
    DiscardUnseen(w1, a, u, b);
    AgreeTransitive(w, w1, Discard(w1, a, u), b);
  }

  lemma LogOpUnseen(cfg: Config, w: World, op: Op, now: int, b: Account)
    requires !Concerns(op, b) && (op.SyncBatch? || op.DeleteRow? || op.SendIntents?)
    ensures Agree(w, Apply(cfg, w, op, now), b)
  {
    match op
    case SyncBatch(a, app, rows, _) =>
      BatchUnseen(w.db, app, a, rows, now, b);
      BatchLeavesUploads(w.db, app, a, rows, now);
    case SendIntents(a, events) =>
      EventsUnseen(w.db, a, events, now, b);
      EventsLeaveUploads(w.db, a, events, now);
    case _ =>
    LogUnseen(w, Apply(cfg, w, op, now), b);
  }

  lemma UploadOpUnseen(cfg: Config, w: World, op: Op, now: int, b: Account)
    requires StagedAgree(w) && !Concerns(op, b) && (op.Initiate? || op.PutPart? || op.Cancel?)
    ensures Agree(w, Apply(cfg, w, op, now), b)
  {
    match op
    case Initiate(a, u, h, size) => InitiateUnseen(cfg, w, a, u, h, size, now, b);
    case PutPart(a, u, index, bytes) => PutPartUnseen(w, a, u, index, bytes, b);
    case Cancel(a, u) => DiscardUnseen(w, a, u, b);
  }

  lemma InitiateUnseen(cfg: Config, w: World, a: Account, u: UploadId, h: Hash, size: nat, now: int, b: Account)
    requires a != b
    ensures Agree(w, DoInitiate(cfg, w, a, u, h, size, now).0, b)
  {
  }

  lemma PutPartUnseen(w: World, a: Account, u: UploadId, index: nat, bytes: Bytes, b: Account)
    requires a != b
    ensures Agree(w, DoPutPart(w, a, u, index, bytes).0, b)
  {
  }

  lemma BlobOpUnseen(cfg: Config, w: World, op: Op, now: int, b: Account)
    requires !Concerns(op, b) && (op.DeviceCursor? || op.AddRef? || op.ReleaseRef?)
    ensures Agree(w, Apply(cfg, w, op, now), b)
  {
    if op.AddRef? {
      AddRefUnseen(w, op.account, op.hash, now, b);
    } else if op.ReleaseRef? {
      ReleaseRefUnseen(w, op.account, op.hash, now, b);
    }
  }

  lemma AddRefUnseen(w: World, a: Account, h: Hash, now: int, b: Account)
    requires a != b
    ensures Agree(w, DoAddRef(w, a, h, now).0, b)
  {
  }

  lemma ReleaseRefUnseen(w: World, a: Account, h: Hash, now: int, b: Account)
    requires a != b
    ensures Agree(w, DoReleaseRef(w, a, h, now).0, b)
  {
    ReleaseShape(w.db, a, h, now);
  }

  lemma AccountOpUnseen(cfg: Config, w: World, op: Op, now: int, b: Account)
    requires !Concerns(op, b) && (op.CreateAccount? || op.DeleteAccount?)
    ensures Agree(w, Apply(cfg, w, op, now), b)
  {
    if op.DeleteAccount? && op.account in w.db.registry {
      DeletionSpares(w, op.account, b);
    }
  }

  /** No operation of another account changes anything of b's. */
  lemma Unseen(cfg: Config, w: World, op: Op, now: int, b: Account)
    requires StagedAgree(w) && !Concerns(op, b)
    ensures Agree(w, Apply(cfg, w, op, now), b)
  {
    if op.SyncBatch? || op.DeleteRow? || op.SendIntents? {
      LogOpUnseen(cfg, w, op, now, b);
    } else if op.Initiate? || op.PutPart? || op.Cancel? {
      UploadOpUnseen(cfg, w, op, now, b);
    } else if op.Finalize? {
      FinalizeUnseen(cfg, w, op.account, op.upload, now, b);
    } else if op.CreateAccount? || op.DeleteAccount? {
      AccountOpUnseen(cfg, w, op, now, b);
    } else {
      BlobOpUnseen(cfg, w, op, now, b);
    }
  }

  // ---------- Operations of the account go alike in worlds that agree on it ----------

  ghost predicate SameLog(db: Db, db': Db, b: Account) {
    Counter(db, b) == Counter(db', b) && SameRows(db, db', b) && SameIntents(db, db', b)
  }

  lemma UpsertOneAlike(t: Tally, t': Tally, app: App, b: Account, r: SyncInput, now: int)
    requires SameLog(t.db, t'.db, b) && t.written == t'.written && t.maxSeq == t'.maxSeq
    ensures var o, o' := UpsertOne(t, app, b, r, now), UpsertOne(t', app, b, r, now);
      SameLog(o.db, o'.db, b) && o.written == o'.written && o.maxSeq == o'.maxSeq
  {
    var k := RowKey(b, app, r.id);
    assert k in t.db.rows <==> k in t'.db.rows;
    assert Writes(t.db, app, b, r) <==> Writes(t'.db, app, b, r);
  }

  lemma {:induction false} BatchAlike(db: Db, db': Db, app: App, b: Account, rs: seq<SyncInput>, now: int)
    requires SameLog(db, db', b)
    ensures var t, t' := UpsertBatch(db, app, b, rs, now), UpsertBatch(db', app, b, rs, now);
      SameLog(t.db, t'.db, b) && t.written == t'.written && t.maxSeq == t'.maxSeq
    decreases |rs|
  {
    if rs == [] {
    } else {
      var n := |rs| - 1;
      BatchAlike(db, db', app, b, rs[..n], now);
      UpsertOneAlike(UpsertBatch(db, app, b, rs[..n], now), UpsertBatch(db', app, b, rs[..n], now), app, b, rs[n], now);
    }
  }

  lemma InsertOneAlike(t: Tally, t': Tally, b: Account, e: IntentInput, now: int)
    requires SameLog(t.db, t'.db, b) && t.written == t'.written && t.maxSeq == t'.maxSeq
    ensures var o, o' := InsertOneIntent(t, b, e, now), InsertOneIntent(t', b, e, now);
      SameLog(o.db, o'.db, b) && o.written == o'.written && o.maxSeq == o'.maxSeq
  {
    assert IntentKey(b, e.id) in t.db.intents <==> IntentKey(b, e.id) in t'.db.intents;
  }

  lemma {:induction false} EventsAlike(db: Db, db': Db, b: Account, es: seq<IntentInput>, now: int)
    requires SameLog(db, db', b)
    ensures var t, t' := InsertEvents(db, b, es, now), InsertEvents(db', b, es, now);
      SameLog(t.db, t'.db, b) && t.written == t'.written && t.maxSeq == t'.maxSeq
    decreases |es|
  {
    if es == [] {
    } else {
      var n := |es| - 1;
      EventsAlike(db, db', b, es[..n], now);
      InsertOneAlike(InsertEvents(db, b, es[..n], now), InsertEvents(db', b, es[..n], now), b, es[n], now);
    }
  }

  /** The tables of the log changed, alike in both worlds. */
  lemma LogAlike(w: World, w': World, v: World, v': World, b: Account)
    requires Agree(w, w', b) && SameLog(v.db, v'.db, b) && v.disk == w.disk && v'.disk == w'.disk
    requires v.db == w.db.(counters := v.db.counters, rows := v.db.rows, intents := v.db.intents)
    requires v'.db == w'.db.(counters := v'.db.counters, rows := v'.db.rows, intents := v'.db.intents)
    ensures Agree(v, v', b)
  {
  }

  /** What the quota gate and the readers see of the log. */
  lemma SameSelections(db: Db, db': Db, b: Account, app: App, since: nat, now: int)
    requires SameLog(db, db', b)
    ensures AccountRows(db, b) == AccountRows(db', b) && EntityIds(db, app, b) == EntityIds(db', app, b)
    ensures CurrentIntents(db, b, now) == CurrentIntents(db', b, now) && EventIds(db, b) == EventIds(db', b)
    ensures RowsAbove(db, app, b, since) == RowsAbove(db', app, b, since)
    ensures IntentsAbove(db, b, since, now) == IntentsAbove(db', b, since, now)
  {
    forall id ensures id in EntityIds(db, app, b) <==> id in EntityIds(db', app, b) {
      assert id in EntityIds(db, app, b) <==> RowKey(b, app, id) in db.rows;
      assert id in EntityIds(db', app, b) <==> RowKey(b, app, id) in db'.rows;
    }
    forall id ensures id in EventIds(db, b) <==> id in EventIds(db', b) {
      assert id in EventIds(db, b) <==> IntentKey(b, id) in db.intents;
      assert id in EventIds(db', b) <==> IntentKey(b, id) in db'.intents;
    }
  }

  /** Both the change of the account's share and the reply are the same. */
  ghost predicate Alike(cfg: Config, w: World, w': World, op: Op, now: int, b: Account) {
    && Agree(Apply(cfg, w, op, now), Apply(cfg, w', op, now), b)
    && SameReply(Serve(cfg, w, op, now).1, Serve(cfg, w', op, now).1)
  }

  /** The same reply, except that a deletion may report other hashes as unheld. */
  predicate SameReply(r: Reply, r': Reply) {
    r == r' || (r.Removed? && r'.Removed? && r.deletedRows == r'.deletedRows && r.credentials == r'.credentials)
  }

  lemma SyncBatchAlike(cfg: Config, w: World, w': World, app: App, b: Account, rs: seq<SyncInput>, now: int)
    requires Agree(w, w', b)
    ensures var o, o' := DoSyncBatch(cfg, w, app, b, rs, now), DoSyncBatch(cfg, w', app, b, rs, now);
        Agree(o.0, o'.0, b) && o.1 == o'.1
  {
    SameSelections(w.db, w'.db, b, app, 0, now);
    BatchAlike(w.db, w'.db, app, b, rs, now);
    BatchLeavesUploads(w.db, app, b, rs, now);
    BatchLeavesUploads(w'.db, app, b, rs, now);
    var v, v' := w.(db := UpsertBatch(w.db, app, b, rs, now).db), w'.(db := UpsertBatch(w'.db, app, b, rs, now).db);
    LogAlike(w, w', v, v', b);
  }

  lemma SendIntentsAlike(cfg: Config, w: World, w': World, b: Account, es: seq<IntentInput>, now: int)
    requires Agree(w, w', b)
    ensures var o, o' := DoSendIntents(cfg, w, b, es, now), DoSendIntents(cfg, w', b, es, now);
        Agree(o.0, o'.0, b) && o.1 == o'.1
  {
    var app: App := *;
    SameSelections(w.db, w'.db, b, app, 0, now);
    EventsAlike(w.db, w'.db, b, es, now);
    EventsLeaveUploads(w.db, b, es, now);
    EventsLeaveUploads(w'.db, b, es, now);
    var t, t' := InsertIntents(w.db, b, es, now), InsertIntents(w'.db, b, es, now);
    LogAlike(w, w', w.(db := t.db), w'.(db := t'.db), b);
  }

  lemma SoftDeleteFrame(db: Db, app: App, b: Account, id: EntityId, deletedAt: Option<int>, now: int)
    ensures var (db', r) := SoftDelete(db, app, b, id, deletedAt, now); var k := RowKey(b, app, id);
      && db' == db.(counters := db'.counters, rows := db'.rows)
      && (r.None? <==> k !in db.rows)
      && (r.Some? && r.value.already ==> r.value.stamp == db.rows[k].stamp)
      && (r.Some? ==> r.value.already == db.rows[k].deleted)
      && (r.None? || r.value.already ==> db' == db)
      && (r.Some? && !r.value.already ==>
            && r.value.stamp == Counter(db, b) + 1
            && db'.counters == db.counters[b := Counter(db, b) + 1]
            && db'.rows == db.rows[k := SyncRow(db.rows[k].envelope, Counter(db, b) + 1, true, now, deletedAt)])
  {
  }

  lemma SoftDeleteAlike(db: Db, db': Db, app: App, b: Account, id: EntityId, deletedAt: Option<int>, now: int)
    requires SameLog(db, db', b)
    ensures var o, o' := SoftDelete(db, app, b, id, deletedAt, now), SoftDelete(db', app, b, id, deletedAt, now);
        SameLog(o.0, o'.0, b) && o.1 == o'.1
  {
    assert RowKey(b, app, id) in db.rows <==> RowKey(b, app, id) in db'.rows;
    SoftDeleteFrame(db, app, b, id, deletedAt, now);
    SoftDeleteFrame(db', app, b, id, deletedAt, now);
  }

  lemma DeleteRowAlike(w: World, w': World, app: App, b: Account, id: EntityId, deletedAt: Option<int>, now: int)
    requires Agree(w, w', b)
    ensures var o, o' := DoDeleteRow(w, app, b, id, deletedAt, now), DoDeleteRow(w', app, b, id, deletedAt, now);
        Agree(o.0, o'.0, b) && o.1 == o'.1
  {
    SoftDeleteAlike(w.db, w'.db, app, b, id, deletedAt, now);
    SoftDeleteFrame(w.db, app, b, id, deletedAt, now);
    SoftDeleteFrame(w'.db, app, b, id, deletedAt, now);
    var db, db' := SoftDelete(w.db, app, b, id, deletedAt, now).0, SoftDelete(w'.db, app, b, id, deletedAt, now).0;
    LogAlike(w, w', w.(db := db), w'.(db := db'), b);
  }

  lemma SameFootprint(w: World, w': World, b: Account)
    requires Agree(w, w', b)
    ensures FootprintOf(w.db, b) == FootprintOf(w'.db, b)
  {
    assert BlobSizes(w.db, b) == BlobSizes(w'.db, b);
    forall u ensures u in Reservations(w.db, b) <==> u in Reservations(w'.db, b) {
      assert Owns(w.db, b, u) <==> Owns(w'.db, b, u);
    }
    assert Reservations(w.db, b) == Reservations(w'.db, b);
  }

  /** The upload tables changed, alike in both worlds. */
  lemma UploadsAlike(w: World, w': World, v: World, v': World, b: Account)
    requires Agree(w, w', b) && SameSessions(v.db, v'.db, b) && SameParts(v, v', b)
    requires v.db == w.db.(sessions := v.db.sessions, parts := v.db.parts)
    requires v'.db == w'.db.(sessions := v'.db.sessions, parts := v'.db.parts)
    ensures Agree(v, v', b)
  {
  }

  lemma OpenAlike(w: World, w': World, b: Account, u: UploadId, s: Session)
    requires Agree(w, w', b) && StagedAgree(w) && StagedAgree(w') && s.account == b
    requires u !in w.db.sessions && u !in w'.db.sessions
    ensures Agree(w.(db := w.db.(sessions := w.db.sessions[u := s])),
        w'.(db := w'.db.(sessions := w'.db.sessions[u := s])), b)
  {
    var v, v' := w.(db := w.db.(sessions := w.db.sessions[u := s])),
        w'.(db := w'.db.(sessions := w'.db.sessions[u := s]));
    forall x ensures Owns(v.db, b, x) <==> Owns(w.db, b, x) || x == u {}
    forall x ensures Owns(v'.db, b, x) <==> Owns(w'.db, b, x) || x == u {}
    UploadsAlike(w, w', v, v', b);
  }

  lemma InitiateAlike(cfg: Config, w: World, w': World, b: Account, u: UploadId, h: Hash, size: nat, now: int)
    requires Agree(w, w', b) && StagedAgree(w) && StagedAgree(w')
    requires u !in w.db.sessions && u !in w'.db.sessions
    ensures var o, o' := DoInitiate(cfg, w, b, u, h, size, now), DoInitiate(cfg, w', b, u, h, size, now);
        Agree(o.0, o'.0, b) && o.1 == o'.1
  {
    SameFootprint(w, w', b);
    assert BlobKey(b, h) in w.db.blobs <==> BlobKey(b, h) in w'.db.blobs;
    assert InitiateRefusal(cfg, w, b, u, h, size) == InitiateRefusal(cfg, w', b, u, h, size);
    OpenAlike(w, w', b, u, Session(b, h, size, now));
  }

  lemma SamePartsOf(w: World, w': World, b: Account, u: UploadId)
    requires Agree(w, w', b) && Owns(w.db, b, u)
    ensures Parts(w.db, u) == Parts(w'.db, u) && PartIndexes(w.db, u) == PartIndexes(w'.db, u)
  {
    forall k | k in w.db.parts || k in w'.db.parts ensures k in Parts(w.db, u) <==> k in Parts(w'.db, u) {
    }
    assert Parts(w.db, u) == Parts(w'.db, u);
    var s, s' := (set k | k in w.db.parts && k.upload == u :: k.index), (set k | k in w'.db.parts && k.upload == u ::
        k.index);
    forall i ensures i in s <==> i in s' {
      assert i in s <==> PartKey(u, i) in Parts(w.db, u);
      assert i in s' <==> PartKey(u, i) in Parts(w'.db, u);
    }
    assert s == s';
  }

  lemma PutPartAlike(w: World, w': World, b: Account, u: UploadId, index: nat, bytes: Bytes)
    requires Agree(w, w', b)
    ensures var o, o' := DoPutPart(w, b, u, index, bytes), DoPutPart(w', b, u, index, bytes);
        Agree(o.0, o'.0, b) && o.1 == o'.1
  {
    assert Owns(w.db, b, u) <==> Owns(w'.db, b, u);
    if Owns(w.db, b, u) {
      SamePartsOf(w, w', b, u);
      assert PutPartRefusal(w, b, u, index, bytes) == PutPartRefusal(w', b, u, index, bytes);
      TakenAlike(w, w', b, u, index, bytes);
    }
  }

  /** A part accepted in both worlds. */
  lemma TakenAlike(w: World, w': World, b: Account, u: UploadId, index: nat, bytes: Bytes)
    requires Agree(w, w', b) && Owns(w.db, b, u)
    ensures var v, v' := World(RecordPart(w.db, b, u, index, |bytes|), WritePart(w.disk, u, index, bytes)),
                         World(RecordPart(w'.db, b, u, index, |bytes|), WritePart(w'.disk, u, index, bytes));
            Agree(v, v', b) && ReceivedBytes(v.db, u) == ReceivedBytes(v'.db, u)
  {
    var v, v' := World(RecordPart(w.db, b, u, index, |bytes|), WritePart(w.disk, u, index, bytes)),
                 World(RecordPart(w'.db, b, u, index, |bytes|), WritePart(w'.disk, u, index, bytes));
    forall x ensures Owns(v.db, b, x) <==> Owns(w.db, b, x) {}
    forall x ensures Owns(v'.db, b, x) <==> Owns(w'.db, b, x) {}
    UploadsAlike(w, w', v, v', b);
    SamePartsOf(v, v', b, u);
  }

  // ---------- Finalize ----------

  lemma {:induction false} AssembleAlike(w: World, w': World, b: Account, u: UploadId, indexes: seq<nat>)
    requires SameParts(w, w', b) && Owns(w.db, b, u)
    ensures Assemble(w.disk, u, indexes) == Assemble(w'.disk, u, indexes)
    decreases |indexes|
  {
    if indexes == [] {
    } else {
      AssembleAlike(w, w', b, u, indexes[..|indexes| - 1]);
      assert Owns(w.db, b, PartKey(u, indexes[|indexes| - 1]).upload);
    }
  }

  lemma JudgeAlike(cfg: Config, w: World, w': World, b: Account, u: UploadId)
    requires Agree(w, w', b)
    ensures Judge(cfg, w, b, u) == Judge(cfg, w', b, u)
  {
    assert Owns(w.db, b, u) <==> Owns(w'.db, b, u);
    if Owns(w.db, b, u) {
      var k := BlobKey(b, w.db.sessions[u].hash);
      assert k in w.db.blobs <==> k in w'.db.blobs;
      SamePartsOf(w, w', b, u);
      AssembleAlike(w, w', b, u, PartIndexes(w.db, u));
      SameFootprint(w, w', b);
    }
  }

  lemma StoreAlike(cfg: Config, w: World, w': World, b: Account, j: Judgement, now: int)
    requires Agree(w, w', b)
    ensures Agree(StoreGenuine(cfg, w, b, j, now), StoreGenuine(cfg, w', b, j, now), b)
  {
    if j.Genuine? {
      var k := BlobKey(b, cfg.sha(j.bytes));
      assert k in w.db.blobs <==> k in w'.db.blobs;
    }
  }

  lemma DiscardAlike(w: World, w': World, b: Account, u: UploadId)
    requires Agree(w, w', b)
    ensures Agree(Discard(w, b, u), Discard(w', b, u), b)
  {
    assert Owns(w.db, b, u) <==> Owns(w'.db, b, u);
    if Owns(w.db, b, u) {
      DiscardFrame(w, b, u);
      DiscardFrame(w', b, u);
      DiscardLoses(w, b, u);
      DiscardLoses(w', b, u);
      LossAlike(w, w', Discard(w, b, u), Discard(w', b, u), {u}, {u}, b);
    }
  }

  /** The same sessions of the account go in both worlds. */
  lemma LossAlike(w: World, w': World, v: World, v': World, us: set<UploadId>, us': set<UploadId>, b: Account)
    requires Agree(w, w', b) && LosesSessions(v, w, us) && LosesSessions(v', w', us')
    requires forall u :: Owns(w.db, b, u) ==> (u in us <==> u in us')
    requires v.db == w.db.(sessions := v.db.sessions, parts := v.db.parts)
    requires v'.db == w'.db.(sessions := v'.db.sessions, parts := v'.db.parts)
    ensures Agree(v, v', b)
  {
    forall x ensures Owns(v.db, b, x) <==> Owns(w.db, b, x) && x !in us {}
    forall x ensures Owns(v'.db, b, x) <==> Owns(w'.db, b, x) && x !in us' {}
    UploadsAlike(w, w', v, v', b);
  }

  lemma FinalizeAlike(cfg: Config, w: World, w': World, b: Account, u: UploadId, now: int)
    requires Agree(w, w', b)
    ensures var o, o' := DoFinalize(cfg, w, b, u, now), DoFinalize(cfg, w', b, u, now);
        Agree(o.0, o'.0, b) && o.1 == o'.1
  {
    JudgeAlike(cfg, w, w', b, u);
    var j := Judge(cfg, w, b, u);
    StoreAlike(cfg, w, w', b, j, now);
    DiscardAlike(StoreGenuine(cfg, w, b, j, now), StoreGenuine(cfg, w', b, j, now), b, u);
  }

  // ---------- The remaining operations ----------

  lemma CursorAlike(w: World, w': World, b: Account, d: DeviceId, lastSeen: nat, now: int)
    requires Agree(w, w', b)
    ensures Agree(w.(db := ReportCursor(w.db, b, d, lastSeen, now)),
        w'.(db := ReportCursor(w'.db, b, d, lastSeen, now)), b)
  {
    assert DeviceKey(b, d) in w.db.devices <==> DeviceKey(b, d) in w'.db.devices;
  }

  /** The blob rows and counters changed, alike in both worlds. */
  lemma BlobsAlike(w: World, w': World, v: World, v': World, b: Account)
    requires Agree(w, w', b) && SameBlobs(v.db, v'.db, b) && Counter(v.db, b) == Counter(v'.db, b)
    requires v.disk.staged == w.disk.staged && v'.disk.staged == w'.disk.staged
    requires v.db == w.db.(counters := v.db.counters, blobs := v.db.blobs)
    requires v'.db == w'.db.(counters := v'.db.counters, blobs := v'.db.blobs)
    ensures Agree(v, v', b)
  {
  }

  lemma AddRefAlike(w: World, w': World, b: Account, h: Hash, now: int)
    requires Agree(w, w', b)
    ensures var o, o' := DoAddRef(w, b, h, now), DoAddRef(w', b, h, now); Agree(o.0, o'.0, b) && o.1 == o'.1
  {
    assert BlobKey(b, h) in w.db.blobs <==> BlobKey(b, h) in w'.db.blobs;
    var db, db' := AddReference(w.db, b, h, now), AddReference(w'.db, b, h, now);
    BlobsAlike(w, w', w.(db := db), w'.(db := db'), b);
  }

  lemma ReleaseRefAlike(w: World, w': World, b: Account, h: Hash, now: int)
    requires Agree(w, w', b)
    ensures var o, o' := DoReleaseRef(w, b, h, now), DoReleaseRef(w', b, h, now); Agree(o.0, o'.0, b) && o.1 == o'.1
  {
    var db, db' := ReleaseReference(w.db, b, h, now), ReleaseReference(w'.db, b, h, now);
    var k := BlobKey(b, h);
    assert k in w.db.blobs <==> k in w'.db.blobs;
    ReleaseShape(w.db, b, h, now);
    ReleaseShape(w'.db, b, h, now);
    assert k in w.db.blobs ==> db.blobs[k] == db'.blobs[k];
    BlobsAlike(w, w', w.(db := db), w'.(db := db'), b);
  }

  lemma SweepAlike(w: World, w': World, p: ReclaimPolicy, now: int, b: Account)
    requires Agree(w, w', b)
    ensures Agree(DoReclaim(w, p, now), DoReclaim(w', p, now), b)
  {
    forall k: BlobKey | k.account == b ensures k in Swept(w.db, p, now) <==> k in Swept(w'.db, p, now) {
      SameReclaimable(w.db, w'.db, k, now - p.gracePeriod, now - p.deadDevicePeriod);
    }
    BlobsAlike(w, w', DoReclaim(w, p, now), DoReclaim(w', p, now), b);
  }

  lemma SameReclaimable(db: Db, db': Db, k: BlobKey, graceCutoff: int, deadCutoff: int)
    requires SameBlobs(db, db', k.account) && SameDevices(db, db', k.account)
    ensures Reclaimable(db, k, graceCutoff, deadCutoff) <==> Reclaimable(db', k, graceCutoff, deadCutoff)
  {
    if k in db.blobs && db.blobs[k].zeroRef.Some? {
      var z := db.blobs[k].zeroRef.value;
      forall d: DeviceKey | d.account == k.account && d in db.devices
        ensures d in db'.devices && (Behind(db, k, z, deadCutoff, d) <==> Behind(db', k, z, deadCutoff, d))
      {
      }
      forall d: DeviceKey | d.account == k.account && d in db'.devices
        ensures d in db.devices && (Behind(db, k, z, deadCutoff, d) <==> Behind(db', k, z, deadCutoff, d))
      {
      }
    }
  }

  lemma ReapAlike(w: World, w': World, ttl: nat, now: int, b: Account)
    requires Agree(w, w', b)
    ensures Agree(DoReap(w, ttl, now), DoReap(w', ttl, now), b)
  {
    LossAlike(w, w', DoReap(w, ttl, now), DoReap(w', ttl, now), StaleSessions(w.db, now - ttl),
        StaleSessions(w'.db, now - ttl), b);
  }

  lemma DeletionAlike(w: World, w': World, b: Account)
    requires Agree(w, w', b)
    ensures var o, o' := DoDeleteAccount(w, b), DoDeleteAccount(w', b); Agree(o.0, o'.0, b) && SameReply(o.1, o'.1)
  {
    if b in w.db.registry {
      DeletionComposes(w, b);
      DeletionComposes(w', b);
      GoneAgree(DoDeleteAccount(w, b).0, DoDeleteAccount(w', b).0, b);
      SameDeletionCounts(w.db, w'.db, b);
    }
  }

  lemma SameDeletionCounts(db: Db, db': Db, b: Account)
    requires SameRows(db, db', b) && SameIdentity(db, db', b)
    ensures AccountRows(db, b) == AccountRows(db', b) && ActiveCredentials(db, b) == ActiveCredentials(db', b)
  {
  }

  /** The replies to a deletion are the same in every part if and only if the other accounts hold the
      same of b's blobs in both worlds. */
  lemma DeletionReply(w: World, w': World, b: Account)
    requires Agree(w, w', b) && b in w.db.registry
    ensures DoDeleteAccount(w, b).1 == DoDeleteAccount(w', b).1 <==>
            forall h :: BlobKey(b, h) in w.db.blobs ==> (OnlyHolder(w.db, b, h) <==> OnlyHolder(w'.db, b, h))
  {
    DeletionAlike(w, w', b);
    UnheldIsOnlyHeld(w.db, b);
    UnheldIsOnlyHeld(w'.db, b);
    assert forall h :: BlobKey(b, h) in w.db.blobs <==> BlobKey(b, h) in w'.db.blobs;
    if forall h :: BlobKey(b, h) in w.db.blobs ==> (OnlyHolder(w.db, b, h) <==> OnlyHolder(w'.db, b, h)) {
      assert UnheldHashes(w.db, b) == UnheldHashes(w'.db, b);
    }
  }

  lemma UnheldIsOnlyHeld(db: Db, b: Account)
    ensures forall h :: h in UnheldHashes(db, b) <==> OnlyHolder(db, b, h)
  {
  }

  lemma GoneAgree(w: World, w': World, b: Account)
    requires Gone(w, b) && Gone(w', b)
    ensures Agree(w, w', b)
  {
  }

  /** Registering b finds the same number of places taken, as far as that matters. */
  predicate PlaceAlike(cfg: Config, db: Db, db': Db, op: Op, b: Account) {
    op == CreateAccount(b) ==> b in db.registry || (Full(cfg, db) <==> Full(cfg, db'))
  }

  /** The places for accounts are the one thing accounts compete for: registering goes alike if and
      only if both worlds have a place left, or neither, or the account is there already. */
  lemma CreationAlike(cfg: Config, w: World, w': World, b: Account)
    requires Agree(w, w', b)
    ensures var o, o' := DoCreateAccount(cfg, w, b), DoCreateAccount(cfg, w', b);
      var place := PlaceAlike(cfg, w.db, w'.db, CreateAccount(b), b);
      (Agree(o.0, o'.0, b) <==> place) && (place ==> o.1 == o'.1)
  {
    if PlaceAlike(cfg, w.db, w'.db, CreateAccount(b), b) {
      RegistersAlike(w, w', b);
    }
  }

  lemma RegistersAlike(w: World, w': World, b: Account)
    requires Agree(w, w', b)
    ensures Agree(w.(db := w.db.(registry := w.db.registry + {b})),
        w'.(db := w'.db.(registry := w'.db.registry + {b})), b)
  {
  }

  /** Every operation that concerns the account goes alike in two worlds that agree on it. */
  lemma StepAlike(cfg: Config, w: World, w': World, op: Op, now: int, b: Account)
    requires Agree(w, w', b) && StagedAgree(w) && StagedAgree(w') && Concerns(op, b)
    requires op.Initiate? ==> op.upload !in w.db.sessions && op.upload !in w'.db.sessions
    requires PlaceAlike(cfg, w.db, w'.db, op, b)
    ensures Alike(cfg, w, w', op, now, b)
  {
    if op.SyncBatch? || op.DeleteRow? || op.SendIntents? || op.PruneIntents? {
      LogStepAlike(cfg, w, w', op, now, b);
    } else if op.Initiate? || op.PutPart? || op.Finalize? || op.Cancel? || op.ReapSweep? {
      UploadStepAlike(cfg, w, w', op, now, b);
    } else {
      OtherStepAlike(cfg, w, w', op, now, b);
    }
  }

  lemma LogStepAlike(cfg: Config, w: World, w': World, op: Op, now: int, b: Account)
    requires Agree(w, w', b) && Concerns(op, b)
    requires op.SyncBatch? || op.DeleteRow? || op.SendIntents? || op.PruneIntents?
    ensures Alike(cfg, w, w', op, now, b)
  {
    match op
    case SyncBatch(a, app, rows, _) => SyncBatchAlike(cfg, w, w', app, a, rows, now);
    case DeleteRow(a, app, id, deletedAt) => DeleteRowAlike(w, w', app, a, id, deletedAt, now);
    case SendIntents(a, events) => SendIntentsAlike(cfg, w, w', a, events, now);
    case PruneIntents => LogAlike(w, w', w.(db := PruneAll(w.db, now)), w'.(db := PruneAll(w'.db, now)), b);
  }

  lemma UploadStepAlike(cfg: Config, w: World, w': World, op: Op, now: int, b: Account)
    requires Agree(w, w', b) && StagedAgree(w) && StagedAgree(w') && Concerns(op, b)
    requires op.Initiate? || op.PutPart? || op.Finalize? || op.Cancel? || op.ReapSweep?
    requires op.Initiate? ==> op.upload !in w.db.sessions && op.upload !in w'.db.sessions
    ensures Alike(cfg, w, w', op, now, b)
  {
    match op
    case Initiate(a, u, h, size) => InitiateAlike(cfg, w, w', a, u, h, size, now);
    case PutPart(a, u, index, bytes) => PutPartAlike(w, w', a, u, index, bytes);
    case Finalize(a, u) => FinalizeAlike(cfg, w, w', a, u, now);
    case Cancel(a, u) => DiscardAlike(w, w', a, u);
    case ReapSweep(ttl) => ReapAlike(w, w', ttl, now, b);
  }

  lemma OtherStepAlike(cfg: Config, w: World, w': World, op: Op, now: int, b: Account)
    requires Agree(w, w', b) && Concerns(op, b) && PlaceAlike(cfg, w.db, w'.db, op, b)
    requires op.DeviceCursor? || op.AddRef? || op.ReleaseRef? || op.ReclaimSweep? || op.CreateAccount? ||
        op.DeleteAccount?
    ensures Alike(cfg, w, w', op, now, b)
  {
    match op
    case DeviceCursor(a, d, lastSeen) => CursorAlike(w, w', a, d, lastSeen, now);
    case AddRef(a, h) => AddRefAlike(w, w', a, h, now);
    case ReleaseRef(a, h) => ReleaseRefAlike(w, w', a, h, now);
    case ReclaimSweep(p) => SweepAlike(w, w', p, now, b);
    case CreateAccount(a) => CreationAlike(cfg, w, w', b);
    case DeleteAccount(a) => DeletionAlike(w, w', a);
  }

  // ---------- Whole runs ----------

  /** The world after the operations, each at its instant. */
  ghost function Run(cfg: Config, w: World, ops: seq<Op>, ts: seq<int>): World
    requires |ts| == |ops|
  {
    if ops == [] then w
    else
      var n := |ops| - 1;
      Apply(cfg, Run(cfg, w, ops[..n], ts[..n]), ops[n], ts[n])
  }

  /** The world after only those operations that concern account b, at the same instants. */
  ghost function Alone(cfg: Config, w: World, ops: seq<Op>, ts: seq<int>, b: Account): World
    requires |ts| == |ops|
  {
    if ops == [] then w
    else
      var n := |ops| - 1;
      var before := Alone(cfg, w, ops[..n], ts[..n], b);
      if Concerns(ops[n], b) then Apply(cfg, before, ops[n], ts[n]) else before
  }

  /** Upload ids are globally unique: never reused, and none is in use at the start. */
  ghost predicate FreshUploads(w: World, ops: seq<Op>) {
    && (forall i :: 0 <= i < |ops| && ops[i].Initiate? ==> ops[i].upload !in w.db.sessions)
    && (forall i, j :: 0 <= i < j < |ops| && ops[i].Initiate? && ops[j].Initiate? ==> ops[i].upload != ops[j].upload)
  }

  /** Whenever b registers, the others' accounts make no difference to whether a place is left. */
  ghost predicate PlacesAlike(cfg: Config, w: World, ops: seq<Op>, ts: seq<int>, b: Account)
    requires |ts| == |ops|
  {
    forall i {:trigger ops[i]} :: 0 <= i < |ops| ==>
      PlaceAlike(cfg, Run(cfg, w, ops[..i], ts[..i]).db, Alone(cfg, w, ops[..i], ts[..i], b).db, ops[i], b)
  }

  lemma PlacesPrefix(cfg: Config, w: World, ops: seq<Op>, ts: seq<int>, b: Account, n: nat)
    requires |ts| == |ops| && n <= |ops| && PlacesAlike(cfg, w, ops, ts, b)
    ensures PlacesAlike(cfg, w, ops[..n], ts[..n], b)
  {
    forall i | 0 <= i < n
      ensures PlaceAlike(cfg, Run(cfg, w, ops[..n][..i], ts[..n][..i]).db,
          Alone(cfg, w, ops[..n][..i], ts[..n][..i], b).db, ops[..n][i], b)
    {
      assert ops[..n][..i] == ops[..i] && ts[..n][..i] == ts[..i] && ops[..n][i] == ops[i];
    }
  }

  /** Every session was there at the start or was initiated by one of the operations. */
  ghost predicate Minted(w: World, w': World, ops: seq<Op>) {
    forall u :: u in w'.db.sessions ==> u in w.db.sessions || exists i :: 0 <= i < |ops| && ops[i].Initiate? &&
                                                                          ops[i].upload == u
  }

  lemma StepMinted(cfg: Config, w: World, w': World, ops: seq<Op>, op: Op, now: int)
    requires Minted(w, w', ops)
    ensures Minted(w, w', ops + [op]) && Minted(w, Apply(cfg, w', op, now), ops + [op])
  {
    var v, all := Apply(cfg, w', op, now), ops + [op];
    if !op.Initiate? && !op.PutPart? {
      DropShape(cfg, w', op, now);
    }
    forall u | u in w'.db.sessions && u !in w.db.sessions
      ensures exists i :: 0 <= i < |all| && all[i].Initiate? && all[i].upload == u
    {
      var i :| 0 <= i < |ops| && ops[i].Initiate? && ops[i].upload == u;
      assert all[i] == ops[i];
    }
    assert op.Initiate? ==> all[|ops|].upload == op.upload;
  }

  lemma {:induction false} RunsSound(cfg: Config, w: World, ops: seq<Op>, ts: seq<int>, b: Account)
    requires |ts| == |ops| && StagingSound(w)
    ensures StagingSound(Run(cfg, w, ops, ts)) && StagingSound(Alone(cfg, w, ops, ts, b))
    ensures Minted(w, Run(cfg, w, ops, ts), ops) && Minted(w, Alone(cfg, w, ops, ts, b), ops)
    decreases |ops|
  {
    if ops == [] {
    } else {
      var n := |ops| - 1;
      var op, now := ops[n], ts[n];
      RunsSound(cfg, w, ops[..n], ts[..n], b);
      var v, v' := Run(cfg, w, ops[..n], ts[..n]), Alone(cfg, w, ops[..n], ts[..n], b);
      assert ops == ops[..n] + [op];
      StepMinted(cfg, w, v, ops[..n], op, now);
      StepMinted(cfg, w, v', ops[..n], op, now);
      StepSound(cfg, v, op, now);
      StepSound(cfg, v', op, now);
    }
  }

  lemma FreshPrefix(w: World, ops: seq<Op>, n: nat)
    requires n <= |ops| && FreshUploads(w, ops)
    ensures FreshUploads(w, ops[..n])
  {
  }

  /** The id of the n-th initiate is new to every world whose sessions the first n operations minted. */
  lemma FreshNow(w: World, v: World, ops: seq<Op>, n: nat)
    requires n < |ops| && FreshUploads(w, ops) && Minted(w, v, ops[..n])
    ensures ops[n].Initiate? ==> ops[n].upload !in v.db.sessions
  {
    forall i | 0 <= i < n && ops[..n][i].Initiate? && ops[n].Initiate? ensures ops[..n][i].upload != ops[n].upload {
      assert ops[..n][i] == ops[i];
    }
  }

  /** Non-interference: in every interleaving, what b has is what it would have had if only its own
      operations and the sweeps had run. */
  lemma {:induction false} NonInterference(cfg: Config, w: World, ops: seq<Op>, ts: seq<int>, b: Account)
    requires |ts| == |ops| && StagingSound(w) && FreshUploads(w, ops) && PlacesAlike(cfg, w, ops, ts, b)
    ensures Agree(Run(cfg, w, ops, ts), Alone(cfg, w, ops, ts, b), b)
    decreases |ops|
  {
    if ops == [] {
    } else {
      var n := |ops| - 1;
      PlacesPrefix(cfg, w, ops, ts, b, n);
      FreshPrefix(w, ops, n);
      NonInterference(cfg, w, ops[..n], ts[..n], b);
      RunsSound(cfg, w, ops[..n], ts[..n], b);
      var v, v' := Run(cfg, w, ops[..n], ts[..n]), Alone(cfg, w, ops[..n], ts[..n], b);
      NextIsolated(cfg, w, v, v', ops, ts, b, n);
    }
  }

  lemma NextIsolated(cfg: Config, w: World, v: World, v': World, ops: seq<Op>, ts: seq<int>, b: Account, n: nat)
    requires |ts| == |ops| && n < |ops| && FreshUploads(w, ops) && PlaceAlike(cfg, v.db, v'.db, ops[n], b)
    requires Agree(v, v', b) && StagedAgree(v) && StagedAgree(v') && Minted(w, v, ops[..n]) && Minted(w, v', ops[..n])
    ensures Agree(Apply(cfg, v, ops[n], ts[n]), if Concerns(ops[n], b) then Apply(cfg, v', ops[n], ts[n]) else v', b)
  {
    FreshNow(w, v, ops, n);
    FreshNow(w, v', ops, n);
    StepIsolated(cfg, v, v', ops[n], ts[n], b);
  }

  /** One step of the run, against the same step, or none, of the account alone. */
  lemma StepIsolated(cfg: Config, v: World, v': World, op: Op, now: int, b: Account)
    requires Agree(v, v', b) && StagedAgree(v) && StagedAgree(v')
    requires op.Initiate? ==> op.upload !in v.db.sessions && op.upload !in v'.db.sessions
    requires PlaceAlike(cfg, v.db, v'.db, op, b)
    ensures Agree(Apply(cfg, v, op, now), if Concerns(op, b) then Apply(cfg, v', op, now) else v', b)
  {
    if Concerns(op, b) {
      StepAlike(cfg, v, v', op, now, b);
    } else {
      Unseen(cfg, v, op, now, b);
      AgreeSymmetric(v, Apply(cfg, v, op, now), b);
      AgreeTransitive(Apply(cfg, v, op, now), v, v', b);
    }
  }

  /** And its replies, and the pages it reads, are the same too. */
  lemma SameReplies(cfg: Config, w: World, ops: seq<Op>, ts: seq<int>, b: Account, n: nat)
    requires |ts| == |ops| && StagingSound(w) && FreshUploads(w, ops) && PlacesAlike(cfg, w, ops, ts, b)
    requires n < |ops| && Concerns(ops[n], b)
    ensures SameReply(Serve(cfg, Run(cfg, w, ops[..n], ts[..n]), ops[n], ts[n]).1,
                      Serve(cfg, Alone(cfg, w, ops[..n], ts[..n], b), ops[n], ts[n]).1)
  {
    PlacesPrefix(cfg, w, ops, ts, b, n);
    NonInterference(cfg, w, ops[..n], ts[..n], b);
    RunsSound(cfg, w, ops[..n], ts[..n], b);
    var v, v' := Run(cfg, w, ops[..n], ts[..n]), Alone(cfg, w, ops[..n], ts[..n], b);
    FreshNow(w, v, ops, n);
    FreshNow(w, v', ops, n);
    StepAlike(cfg, v, v', ops[n], ts[n], b);
  }

  lemma SameReads(cfg: Config, w: World, ops: seq<Op>, ts: seq<int>, b: Account, app: App, since: nat, now: int)
    requires |ts| == |ops| && StagingSound(w) && FreshUploads(w, ops) && PlacesAlike(cfg, w, ops, ts, b)
    ensures var v, v' := Run(cfg, w, ops, ts).db, Alone(cfg, w, ops, ts, b).db;
      && Counter(v, b) == Counter(v', b)
      && RowsAbove(v, app, b, since) == RowsAbove(v', app, b, since)
      && IntentsAbove(v, b, since, now) == IntentsAbove(v', b, since, now)
  {
    NonInterference(cfg, w, ops, ts, b);
    SameSelections(Run(cfg, w, ops, ts).db, Alone(cfg, w, ops, ts, b).db, b, app, since, now);
  }

  // ---------- Exactly when ----------

  /** Isolation is exact: b has, at every point of the run, what it would have had alone, if and only
      if the other accounts never take or free the place b registers in. */
  lemma IsolationExact(cfg: Config, w: World, ops: seq<Op>, ts: seq<int>, b: Account)
    requires |ts| == |ops| && StagingSound(w) && FreshUploads(w, ops)
    ensures (forall n {:trigger ops[..n]} :: 0 <= n <= |ops| ==>
               Agree(Run(cfg, w, ops[..n], ts[..n]), Alone(cfg, w, ops[..n], ts[..n], b), b)) <==>
            PlacesAlike(cfg, w, ops, ts, b)
  {
    if PlacesAlike(cfg, w, ops, ts, b) {
      forall n {:trigger ops[..n]} | 0 <= n <= |ops|
        ensures Agree(Run(cfg, w, ops[..n], ts[..n]), Alone(cfg, w, ops[..n], ts[..n], b), b)
      {
        PlacesPrefix(cfg, w, ops, ts, b, n);
        NonInterference(cfg, w, ops[..n], ts[..n], b);
      }
    }
    if forall n {:trigger ops[..n]} :: 0 <= n <= |ops| ==>
         Agree(Run(cfg, w, ops[..n], ts[..n]), Alone(cfg, w, ops[..n], ts[..n], b), b)
    {
      forall i | 0 <= i < |ops|
        ensures PlaceAlike(cfg, Run(cfg, w, ops[..i], ts[..i]).db, Alone(cfg, w, ops[..i], ts[..i], b).db, ops[i], b)
      {
        AgreeingPlace(cfg, w, ops, ts, b, i);
      }
    }
  }

  lemma AgreeingPlace(cfg: Config, w: World, ops: seq<Op>, ts: seq<int>, b: Account, i: nat)
    requires |ts| == |ops| && i < |ops|
    requires Agree(Run(cfg, w, ops[..i], ts[..i]), Alone(cfg, w, ops[..i], ts[..i], b), b)
    requires Agree(Run(cfg, w, ops[..i + 1], ts[..i + 1]), Alone(cfg, w, ops[..i + 1], ts[..i + 1], b), b)
    ensures PlaceAlike(cfg, Run(cfg, w, ops[..i], ts[..i]).db, Alone(cfg, w, ops[..i], ts[..i], b).db, ops[i], b)
  {
    assert ops[..i + 1][..i] == ops[..i] && ts[..i + 1][..i] == ts[..i];
    if ops[i] == CreateAccount(b) {
      CreationAlike(cfg, Run(cfg, w, ops[..i], ts[..i]), Alone(cfg, w, ops[..i], ts[..i], b), b);
    }
  }

  /** Without a limit on accounts nothing can come between them. */
  lemma UnlimitedPlaces(cfg: Config, w: World, ops: seq<Op>, ts: seq<int>, b: Account)
    requires |ts| == |ops| && cfg.maxAccounts.None?
    ensures PlacesAlike(cfg, w, ops, ts, b)
  {
  }

  /** With one it can: the last place goes to whoever registers first. */
  lemma LastPlaceTaken(cfg: Config, a: Account, b: Account)
    requires a != b && cfg.maxAccounts == Some(1)
    ensures var ops, ts := [CreateAccount(a), CreateAccount(b)], [0, 1];
      b !in Run(cfg, EMPTY_WORLD, ops, ts).db.registry && b in Alone(cfg, EMPTY_WORLD, ops, ts, b).db.registry
  {
    var first, second := CreateAccount(a), CreateAccount(b);
    assert [first, second] == [] + [first] + [second] && [0, 1] == [] + [0] + [1];
    RunMore(cfg, EMPTY_WORLD, [], [], first, 0, b);
    RunMore(cfg, EMPTY_WORLD, [] + [first], [] + [0], second, 1, b);
    assert Apply(cfg, EMPTY_WORLD, first, 0).db.registry == {a};
  }

  lemma RunMore(cfg: Config, w: World, ops: seq<Op>, ts: seq<int>, op: Op, now: int, b: Account)
    requires |ts| == |ops|
    ensures Run(cfg, w, ops + [op], ts + [now]) == Apply(cfg, Run(cfg, w, ops, ts), op, now)
    ensures var before := Alone(cfg, w, ops, ts, b);
      Alone(cfg, w, ops + [op], ts + [now], b) == if Concerns(op, b) then Apply(cfg, before, op, now) else before
  {
    var n := |ops|;
    assert (ops + [op])[..n] == ops && (ts + [now])[..n] == ts;
  }
}
