/** What each request is told, and when: the exact condition of every acceptance and refusal, in terms
    of the state the request finds and the state it would leave. A refused request changes nothing. */
module Decisions {
  import opened Collections
  import opened Model
  import opened Tables
  import opened Quotas
  import opened Vault
  import opened SeqLine
  import opened Replay
  import opened Staging
  import opened QuotaRuns

  // ---------- The log ----------

  /** The distinct new ids of a batch, less those the chunked probe counts again. */
  ghost function NewLessRepeats<T(!new)>(present: set<T>, ids: seq<T>): int {
    |Distinct(ids) - present| - |Repeats(present, ids, |ids|)|
  }

  /** The gate's verdict, whole. */
  lemma Gate<T(!new)>(cap: nat, current: nat, ids: seq<T>, present: set<T>, status: int, kind: QuotaKind)
    ensures var added := NewLessRepeats(present, ids);
      AdmitNetNew(Some(cap), current, ids, ChunkedExisting(present, ids), status, kind) ==
        if added <= 0 || current + added <= cap then None else Some(Verdict(status, kind, cap, current, added))
  {
    AdmitsDiscounted(cap, current, ids, present, status, kind);
    if AdmitNetNew(Some(cap), current, ids, ChunkedExisting(present, ids), status, kind).Some? {
      RejectedDoesNotFit(cap, current, ids, present, status, kind);
    }
  }

  /** What a batch adds to the account's rows fits the cap, repeats taken off. */
  ghost predicate RowsFit(cfg: Config, db: Db, app: App, a: Account, rs: seq<SyncInput>) {
    var added := NewLessRepeats(EntityIds(db, app, a), Ids(rs));
    cfg.policy.rows.Some? ==> added <= 0 || |AccountRows(db, a)| + added <= cfg.policy.rows.value
  }

  /** A sync batch is refused exactly when it does not fit; otherwise all of it is applied, and the reply
      counts the seqs it took and names the new latest, or 0. */
  lemma SyncBatchDecided(cfg: Config, w: World, app: App, a: Account, rs: seq<SyncInput>, notify: bool, now: int)
    requires OneLine(w.db)
    ensures var (w', reply) := Serve(cfg, w, SyncBatch(a, app, rs, notify), now);
      if RowsFit(cfg, w.db, app, a, rs) then
        && w' == w.(db := UpsertBatch(w.db, app, a, rs, now).db)
        && reply.Written? && Counter(w'.db, a) == Counter(w.db, a) + reply.written
        && reply.maxSeq == (if reply.written == 0 then 0 else Counter(w'.db, a))
      else
        && w' == w && reply.Rejected? && reply.verdict.status == 413 && reply.verdict.quota == Rows
        && cfg.policy.rows == Some(reply.verdict.limit) && reply.verdict.used == |AccountRows(w.db, a)|
        && reply.verdict.requested == NewLessRepeats(EntityIds(w.db, app, a), Ids(rs))
  {
    BatchLine(w.db, app, a, rs, now, a);
    if cfg.policy.rows.Some? {
      Gate(cfg.policy.rows.value, |AccountRows(w.db, a)|, Ids(rs), EntityIds(w.db, app, a), 413, Rows);
    }
  }

  /** Rewriting what is there is never refused, however far over the cap the account is. */
  lemma RewritesAlwaysFit(cfg: Config, db: Db, app: App, a: Account, rs: seq<SyncInput>)
    requires forall i :: 0 <= i < |rs| ==> RowKey(a, app, rs[i].id) in db.rows
    ensures RowsFit(cfg, db, app, a, rs)
  {
    var ids, present := Ids(rs), EntityIds(db, app, a);
    forall id | id in Distinct(ids) ensures id in present {
      var i :| 0 <= i < |ids| && ids[i] == id;
      assert RowKey(a, app, rs[i].id) in db.rows;
    }
    assert Distinct(ids) - present == {};
  }

  ghost predicate EventsFit(cfg: Config, db: Db, a: Account, es: seq<IntentInput>, now: int) {
    var added := NewLessRepeats(EventIds(db, a), IntentIds(es));
    cfg.policy.intents.Some? ==> added <= 0 || |CurrentIntents(db, a, now)| + added <= cfg.policy.intents.value
  }

  lemma SendIntentsDecided(cfg: Config, w: World, a: Account, es: seq<IntentInput>, now: int)
    requires OneLine(w.db)
    ensures var (w', reply) := Serve(cfg, w, SendIntents(a, es), now);
      if EventsFit(cfg, w.db, a, es, now) then
        && w' == w.(db := InsertIntents(w.db, a, es, now).db)
        && reply.Written? && Counter(w'.db, a) == Counter(w.db, a) + reply.written
        && reply.maxSeq == (if reply.written == 0 then 0 else Counter(w'.db, a))
      else
        && w' == w && reply.Rejected? && reply.verdict.status == 429 && reply.verdict.quota == Intents
        && cfg.policy.intents == Some(reply.verdict.limit) && reply.verdict.used == |CurrentIntents(w.db, a, now)|
        && reply.verdict.requested == NewLessRepeats(EventIds(w.db, a), IntentIds(es))
  {
    IntentsLine(w.db, a, es, now, a);
    if cfg.policy.intents.Some? {
      Gate(cfg.policy.intents.value, |CurrentIntents(w.db, a, now)|, IntentIds(es), EventIds(w.db, a), 429, Intents);
    }
  }

  /** Re-sending events that are all there is never refused. */
  lemma ResendsAlwaysFit(cfg: Config, db: Db, a: Account, es: seq<IntentInput>, now: int)
    requires forall i :: 0 <= i < |es| ==> IntentKey(a, es[i].id) in db.intents
    ensures EventsFit(cfg, db, a, es, now)
  {
    var ids, present := IntentIds(es), EventIds(db, a);
    forall id | id in Distinct(ids) ensures id in present {
      var i :| 0 <= i < |ids| && ids[i] == id;
      assert IntentKey(a, es[i].id) in db.intents;
    }
    assert Distinct(ids) - present == {};
  }

  /** Current events are those the server-wide prune would leave. */
  lemma CurrentSurvivePrune(db: Db, a: Account, now: int)
    ensures CurrentIntents(db, a, now) == AccountEvents(PruneAll(db, now), a)
  {
  }

  /** The server-wide prune removes exactly the expired events of all accounts, and nothing else. */
  lemma PruneDecided(cfg: Config, w: World, now: int)
    ensures var w' := Apply(cfg, w, PruneIntents, now);
      && w' == w.(db := w.db.(intents := w'.db.intents))
      && (forall k :: k in w'.db.intents <==> k in w.db.intents && w.db.intents[k].expiresAt > now)
      && (forall k :: k in w'.db.intents ==> w'.db.intents[k] == w.db.intents[k])
  {
  }

  /** A row delete: unknown, a tombstone already, or a tombstone from now on. */
  lemma DeleteRowDecided(cfg: Config, w: World, app: App, a: Account, id: EntityId, deletedAt: Option<int>, now: int)
    ensures var (w', reply) := Serve(cfg, w, DeleteRow(a, app, id, deletedAt), now); var k := RowKey(a, app, id);
      if k !in w.db.rows then w' == w && reply == NotFound
      else if w.db.rows[k].deleted then w' == w && reply == Deleted(w.db.rows[k].stamp, true)
      else
        && reply == Deleted(Counter(w.db, a) + 1, false)
        && k in w'.db.rows && w'.db.rows[k].stamp == Counter(w.db, a) + 1
        && ContentAt(w'.db, k) == Some(Content(w.db.rows[k].envelope, true, deletedAt))
        && (forall j :: j != k ==> (j in w'.db.rows <==> j in w.db.rows) &&
                                   (j in w.db.rows ==> w'.db.rows[j] == w.db.rows[j]))
        && w' == w.(db := w.db.(rows := w'.db.rows, counters := w'.db.counters))
  {
  }

  /** Every row a request changed carries the time of the request; the others are as they were. */
  lemma {:induction false} RowsChangedNow(db: Db, app: App, a: Account, rs: seq<SyncInput>, now: int, k: RowKey)
    ensures var db' := UpsertBatch(db, app, a, rs, now).db;
      k in db'.rows ==> db'.rows[k].mtime == now || (k in db.rows && db'.rows[k] == db.rows[k])
    decreases |rs|
  {
    if rs == [] {
    } else {
      RowsChangedNow(db, app, a, rs[..|rs| - 1], now, k);
    }
  }

  lemma DeletionChangedNow(db: Db, app: App, a: Account, id: EntityId, deletedAt: Option<int>, now: int, k: RowKey)
    ensures var db' := SoftDelete(db, app, a, id, deletedAt, now).0;
      k in db'.rows ==> db'.rows[k].mtime == now || (k in db.rows && db'.rows[k] == db.rows[k])
  {
  }

  // ---------- Uploads ----------

  /** The account is within both upload limits. */
  ghost predicate UploadsFit(p: QuotaPolicy, db: Db, a: Account) {
    && (p.uploads.Some? ==> |Reservations(db, a)| <= p.uploads.value)
    && (p.storageBytes.Some? ==> Committed(db, a) <= p.storageBytes.value)
  }

  function WithSession(w: World, a: Account, u: UploadId, h: Hash, size: nat, now: int): World {
    w.(db := w.db.(sessions := w.db.sessions[u := Session(a, h, size, now)]))
  }

  /** A session adds one to the open ones and its declared size to the reserved bytes. */
  lemma SessionAdds(w: World, a: Account, u: UploadId, h: Hash, size: nat, now: int)
    requires u !in w.db.sessions
    ensures var db' := WithSession(w, a, u, h, size, now).db;
      && |Reservations(db', a)| == |Reservations(w.db, a)| + 1
      && DeclaredBytes(db', a) == DeclaredBytes(w.db, a) + size && StoredBytes(db', a) == StoredBytes(w.db, a)
  {
    var db' := WithSession(w, a, u, h, size, now).db;
    assert Reservations(db', a) == Reservations(w.db, a)[u := size];
    assert BlobSizes(db', a) == BlobSizes(w.db, a);
    SumPut(Reservations(w.db, a), u, size);
  }

  /** A new blob adds its size to the stored bytes; nothing is stored or reserved at first. */
  lemma BlobAdds(db: Db, a: Account, h: Hash, size: nat, now: int)
    requires BlobKey(a, h) !in db.blobs
    ensures var db' := InsertBlobIfAbsent(db, a, h, size, now);
      StoredBytes(db', a) == StoredBytes(db, a) + size && DeclaredBytes(db', a) == DeclaredBytes(db, a)
    ensures StoredBytes(EMPTY_DB, a) == 0 && DeclaredBytes(EMPTY_DB, a) == 0 && |Reservations(EMPTY_DB, a)| == 0
  {
    var db' := InsertBlobIfAbsent(db, a, h, size, now);
    assert BlobSizes(db', a) == BlobSizes(db, a)[BlobKey(a, h) := size];
    SumPut(BlobSizes(db, a), BlobKey(a, h), size);
    assert Reservations(db', a) == Reservations(db, a);
    assert BlobSizes(EMPTY_DB, a) == map[] && Reservations(EMPTY_DB, a) == map[];
  }

  /** The verdict names a limit that one more session of this size would break, and its figures. */
  ghost predicate BreaksNamedLimit(p: QuotaPolicy, db: Db, a: Account, size: nat, v: Verdict) {
    || (v.quota == ConcurrentUploads && v.status == 429 && p.uploads == Some(v.limit)
        && v.used == |Reservations(db, a)| && v.requested == 1 && v.used + 1 > v.limit)
    || (v.quota == Storage && v.status == 413 && p.storageBytes == Some(v.limit)
        && v.used == Committed(db, a) && v.requested == size && v.used + size > v.limit
        && (p.uploads.Some? ==> |Reservations(db, a)| + 1 <= p.uploads.value))
  }

  /** An initiate opens its session if and only if the size is allowed, the account has no such blob, the
      id is free, and the account with the session added is within both limits. A refusal says which of
      these failed first, and a quota refusal names the limit. */
  lemma InitiateDecided(cfg: Config, w: World, a: Account, u: UploadId, h: Hash, size: nat, now: int)
    ensures var (w', reply) := Serve(cfg, w, Initiate(a, u, h, size), now);
        var added := WithSession(w, a, u, h, size, now);
      && (reply == Created <==>
            size <= cfg.maxBlobSize && BlobKey(a, h) !in w.db.blobs && u !in w.db.sessions &&
                UploadsFit(cfg.policy, added.db, a))
      && w' == (if reply == Created then added else w)
      && (reply == TooLarge <==> size > cfg.maxBlobSize)
      && (reply == Exists <==> size <= cfg.maxBlobSize && BlobKey(a, h) in w.db.blobs)
      && (reply.Rejected? ==> BreaksNamedLimit(cfg.policy, w.db, a, size, reply.verdict))
      && (reply == Created || reply == TooLarge || reply == Exists || reply.Rejected? ||
          (reply == Failed && u in w.db.sessions))
  {
    if u !in w.db.sessions {
      SessionAdds(w, a, u, h, size, now);
    }
  }

  /** A part is taken if and only if the session is the account's and the parts would stay within the
      declared size; the part then has these bytes, and the ack says what has been received. */
  lemma PutPartDecided(cfg: Config, w: World, a: Account, u: UploadId, index: nat, bytes: Bytes, now: int)
    ensures var (w', reply) := Serve(cfg, w, PutPart(a, u, index, bytes), now); var k := PartKey(u, index);
      var recorded := w.db.(parts := w.db.parts[k := |bytes|]);
      if !Owns(w.db, a, u) then w' == w && reply == NotFound
      else if ReceivedBytes(recorded, u) > w.db.sessions[u].declaredSize then w' == w && reply == BadRequest
      else
        && w' == World(recorded, w.disk.(staged := w.disk.staged[k := bytes]))
        && reply == Acked(ReceivedBytes(recorded, u))
  {
    RecordedTotal(w.db, u, index, bytes);
  }

  /** What finalize answers for the account's own session whose parts join to `bytes`. */
  function OwnedReply(cfg: Config, w: World, a: Account, h: Hash, stored: nat, bytes: Bytes): Reply {
    var k := BlobKey(a, h);
    if k in w.db.blobs then Stored(w.db.blobs[k].size, true)
    else if |bytes| > cfg.maxBlobSize then TooLarge
    else if cfg.sha(bytes) != h then HashMismatch
    else if cfg.policy.storageBytes.Some? && stored + |bytes| > cfg.policy.storageBytes.value then
      Rejected(Verdict(413, Storage, cfg.policy.storageBytes.value, stored, |bytes|))
    else Stored(|bytes|, false)
  }

  /** What finalize turns down: a session that is not the account's, assembled bytes over the size cap or
      with another hash, and what does not fit. Only the last two discard the session. */
  lemma FinalizeDecided(cfg: Config, w: World, a: Account, u: UploadId, now: int)
    requires StagedAgree(w)
    ensures var (w', reply) := Serve(cfg, w, Finalize(a, u), now);
      var r := Assemble(w.disk, u, PartIndexes(w.db, u));
      && r.Some?
      && reply == (if Owns(w.db, a, u) then OwnedReply(cfg, w, a, w.db.sessions[u].hash, StoredBytes(w.db, a),
          r.value) else NotFound)
      && (reply == NotFound || reply == TooLarge ==> w' == w)
      && (reply == HashMismatch || reply.Rejected? ==> w' == Discard(w, a, u))
  {
    AssembledSize(w, u);
    if Owns(w.db, a, u) {
      OwnedDecided(cfg, w, a, u, now, Assemble(w.disk, u, PartIndexes(w.db, u)).value);
    }
  }

  lemma OwnedDecided(cfg: Config, w: World, a: Account, u: UploadId, now: int, bytes: Bytes)
    requires Owns(w.db, a, u) && Assemble(w.disk, u, PartIndexes(w.db, u)) == Some(bytes)
    ensures var (w', reply) := Serve(cfg, w, Finalize(a, u), now);
      && reply == OwnedReply(cfg, w, a, w.db.sessions[u].hash, StoredBytes(w.db, a), bytes)
      && (reply == TooLarge ==> w' == w)
      && (reply == HashMismatch || reply.Rejected? ==> w' == Discard(w, a, u))
  {
    OwnedReplied(cfg, w, a, u, bytes);
    RefusalLeaves(cfg, w, a, u, now);
  }

  lemma OwnedReplied(cfg: Config, w: World, a: Account, u: UploadId, bytes: Bytes)
    requires Owns(w.db, a, u) && Assemble(w.disk, u, PartIndexes(w.db, u)) == Some(bytes)
    ensures FinalizeReply(Judge(cfg, w, a, u)) ==
        OwnedReply(cfg, w, a, w.db.sessions[u].hash, StoredBytes(w.db, a), bytes)
  {
    var fp := FootprintOf(w.db, a);
    JudgedWith(cfg, w, a, u, bytes, fp);
    FinalizeVerdict(cfg.policy, fp, |bytes|);
  }

  lemma FinalizeVerdict(p: QuotaPolicy, fp: Footprint, size: nat)
    ensures AdmitFinalize(p, fp, size) ==
            if p.storageBytes.Some? && fp.blobBytes + size > p.storageBytes.value
            then Some(Verdict(413, Storage, p.storageBytes.value, fp.blobBytes, size))
            else None
  {
  }

  lemma JudgedWith(cfg: Config, w: World, a: Account, u: UploadId, bytes: Bytes, fp: Footprint)
    requires Owns(w.db, a, u) && Assemble(w.disk, u, PartIndexes(w.db, u)) == Some(bytes) && fp == FootprintOf(w.db, a)
    ensures var k, verdict := BlobKey(a, w.db.sessions[u].hash), AdmitFinalize(cfg.policy, fp, |bytes|);
      Judge(cfg, w, a, u) ==
        if k in w.db.blobs then AlreadyStored(w.db.blobs[k].size)
        else if |bytes| > cfg.maxBlobSize then Oversize
        else if cfg.sha(bytes) != k.hash then Mismatch
        else if verdict.Some? then OverQuota(verdict.value) else Genuine(bytes)
  {
  }

  lemma RefusalLeaves(cfg: Config, w: World, a: Account, u: UploadId, now: int)
    ensures var (w', reply) := DoFinalize(cfg, w, a, u, now);
      && (reply == NotFound || reply == TooLarge ==> w' == w)
      && (reply == HashMismatch || reply.Rejected? ==> w' == Discard(w, a, u))
  {
    var j := Judge(cfg, w, a, u);
    assert !j.Genuine? ==> StoreGenuine(cfg, w, a, j, now) == w;
  }

  /** Cancelling removes the session, its parts and its staged bytes, and nothing else. */
  lemma CancelDecided(cfg: Config, w: World, a: Account, u: UploadId, now: int)
    ensures var (w', reply) := Serve(cfg, w, Cancel(a, u), now);
      if Owns(w.db, a, u) then
        && reply == Done && LosesSessions(w', w, {u})
        && w'.disk.files == w.disk.files && w'.db == w.db.(sessions := w'.db.sessions, parts := w'.db.parts)
      else w' == w && reply == NotFound
  {
    if Owns(w.db, a, u) {
      DiscardLoses(w, a, u);
      DiscardFrame(w, a, u);
    }
  }

  // ---------- References ----------

  /** The reply to a reference report is the blob's new count and zero point. */
  lemma AddRefDecided(cfg: Config, w: World, a: Account, h: Hash, now: int)
    ensures var (w', reply) := Serve(cfg, w, AddRef(a, h), now); var k := BlobKey(a, h);
      if k in w.db.blobs then
        && reply == Refs(w.db.blobs[k].refCount + 1, None)
        && k in w'.db.blobs && w'.db.blobs[k] ==
            w.db.blobs[k].(refCount := reply.refCount, zeroRef := None, lastActivity := now)
      else w' == w && reply == NotFound
  {
  }

  lemma ReleaseRefDecided(cfg: Config, w: World, a: Account, h: Hash, now: int)
    ensures var (w', reply) := Serve(cfg, w, ReleaseRef(a, h), now); var k := BlobKey(a, h);
      if k !in w.db.blobs then w' == w && reply == NotFound
      else
        && reply.Refs? && k in w'.db.blobs
        && reply.refCount == Max(0, w.db.blobs[k].refCount - 1) == w'.db.blobs[k].refCount
        && reply.zeroRef == (if w.db.blobs[k].refCount == 1 then Some(Counter(w.db, a) + 1) else w.db.blobs[k].zeroRef)
        && reply.zeroRef == w'.db.blobs[k].zeroRef
  {
    ReleaseShape(w.db, a, h, now);
  }

  // ---------- Accounts ----------

  /** An account is registered if and only if it is not yet and a place is left; no data moves. */
  lemma CreateAccountDecided(cfg: Config, w: World, a: Account, now: int)
    ensures var (w', reply) := Serve(cfg, w, CreateAccount(a), now);
      if a in w.db.registry then w' == w && reply == Exists
      else if cfg.maxAccounts.Some? && |w.db.registry| + 1 > cfg.maxAccounts.value then w' == w && reply == AtLimit
      else reply == Created && w' == w.(db := w.db.(registry := w.db.registry + {a}))
  {
  }

  lemma UnknownAccountStays(cfg: Config, w: World, a: Account, now: int)
    requires a !in w.db.registry
    ensures Serve(cfg, w, DeleteAccount(a), now) == (w, NotFound)
  {
  }

  // ---------- What never happens ----------

  ghost predicate DeclaredAllowed(cfg: Config, db: Db) {
    forall u :: u in db.sessions ==> db.sessions[u].declaredSize <= cfg.maxBlobSize
  }

  lemma StepDeclaredAllowed(cfg: Config, w: World, op: Op, now: int)
    requires DeclaredAllowed(cfg, w.db)
    ensures DeclaredAllowed(cfg, Apply(cfg, w, op, now).db)
  {
    if !op.Initiate? && !op.PutPart? {
      DropShape(cfg, w, op, now);
    }
  }

  /** In no run does finalize miss a part or find more bytes than a blob may have: sizes are limited when
      the upload is opened, and parts stay within the declared size. */
  lemma {:induction false} FinalizeNeverStuck(cfg: Config, ss: seq<World>, ops: seq<Op>, ts: seq<int>, n: nat,
                                              a: Account, u: UploadId)
    requires Trace(cfg, ss, ops, ts) && n <= |ops| && StagingSound(ss[0]) && DeclaredAllowed(cfg, ss[0].db)
    ensures DeclaredAllowed(cfg, ss[n].db)
    ensures !Judge(cfg, ss[n], a, u).MissingPart? && !Judge(cfg, ss[n], a, u).Oversize?
  {
    if n == 0 {
    } else {
      FinalizeNeverStuck(cfg, ss, ops, ts, n - 1, a, u);
      NextDeclaredAllowed(cfg, ss, ops, ts, n - 1);
    }
    ReachableSound(cfg, ss, ops, ts, n);
    NotStuck(cfg, ss[n], a, u);
  }

  lemma NextDeclaredAllowed(cfg: Config, ss: seq<World>, ops: seq<Op>, ts: seq<int>, i: nat)
    requires Trace(cfg, ss, ops, ts) && i < |ops| && DeclaredAllowed(cfg, ss[i].db)
    ensures DeclaredAllowed(cfg, ss[i + 1].db)
  {
    assert ss[i + 1] == Apply(cfg, ss[i], ops[i], ts[i]);
    StepDeclaredAllowed(cfg, ss[i], ops[i], ts[i]);
  }

  lemma NotStuck(cfg: Config, w: World, a: Account, u: UploadId)
    requires StagingSound(w) && DeclaredAllowed(cfg, w.db)
    ensures !Judge(cfg, w, a, u).MissingPart? && !Judge(cfg, w, a, u).Oversize?
  {
    if Owns(w.db, a, u) {
      AssembledFits(w, u);
    }
  }
}
