/** Upload staging. The part rows and the staged bytes describe the same thing in every reachable
    state, the parts of a session never exceed its declared size, and a blob sent in any order of
    parts, with any repeats, comes out as exactly the original bytes. */
module Staging {
  import opened Collections
  import opened Model
  import opened Tables
  import opened Vault

  /** Staged bytes exist exactly for the acked parts of live sessions, with the recorded sizes. */
  ghost predicate StagedAgree(w: World) {
    && w.disk.staged.Keys == w.db.parts.Keys
    && (forall k :: k in w.db.parts ==> k.upload in w.db.sessions && |w.disk.staged[k]| == w.db.parts[k])
  }

  ghost predicate WithinDeclared(db: Db) {
    forall u :: u in db.sessions ==> ReceivedBytes(db, u) <= db.sessions[u].declaredSize
  }

  ghost predicate StagingSound(w: World) {
    StagedAgree(w) && WithinDeclared(w.db)
  }

  // ---------- Assembly ----------

  /** Joining distinct staged parts succeeds, and its length is the sum of their sizes. */
  lemma {:induction false} AssembleLength(disk: Disk, u: UploadId, sizes: map<PartKey, nat>, indexes: seq<nat>)
    requires forall k :: k in sizes <==> k.upload == u && k.index in indexes
    requires forall i, j :: 0 <= i < j < |indexes| ==> indexes[i] != indexes[j]
    requires forall k :: k in sizes ==> k in disk.staged && |disk.staged[k]| == sizes[k]
    ensures Assemble(disk, u, indexes).Some? && |Assemble(disk, u, indexes).value| == Sum(sizes)
    decreases |indexes|
  {
    if indexes == [] {
      assert sizes == map[];
    } else {
      var n := |indexes| - 1;
      var before, last := indexes[..n], PartKey(u, indexes[n]);
      assert indexes == before + [indexes[n]];
      AssembleLength(disk, u, sizes - {last}, before);
      SumTakeOut(sizes, last);
    }
  }

  /** With sound staging no acked part is ever missing, and the assembly is as long as reported. */
  lemma AssembledSize(w: World, u: UploadId)
    requires StagedAgree(w)
    ensures var r := Assemble(w.disk, u, PartIndexes(w.db, u)); r.Some? && |r.value| == ReceivedBytes(w.db, u)
  {
    var sizes, indexes := Parts(w.db, u), PartIndexes(w.db, u);
    forall k ensures k in sizes <==> k.upload == u && k.index in indexes {
      assert k == PartKey(k.upload, k.index);
    }
    AssembleLength(w.disk, u, sizes, indexes);
  }

  lemma AssembledFits(w: World, u: UploadId)
    requires StagingSound(w) && u in w.db.sessions
    ensures var r := Assemble(w.disk, u, PartIndexes(w.db, u)); r.Some? && |r.value| <= w.db.sessions[u].declaredSize
  {
    AssembledSize(w, u);
  }

  // ---------- Every operation keeps staging sound ----------

  /** Recording a part makes the total what the route computed before accepting it. */
  lemma RecordedTotal(db: Db, u: UploadId, index: nat, bytes: Bytes)
    ensures Sum(Parts(db.(parts := db.parts[PartKey(u, index) := |bytes|]), u)) == ProspectiveTotal(db, u, index, bytes)
  {
    var k := PartKey(u, index);
    var before, after := Parts(db, u), Parts(db.(parts := db.parts[k := |bytes|]), u);
    assert after == before[k := |bytes|];
    SumTakeOut(after, k);
    assert after - {k} == before - {k};
    if k in before {
      SumTakeOut(before, k);
    } else {
      assert before - {k} == before;
    }
  }

  /** Sessions and parts stay, or only whole sessions go. */
  lemma FewerSessions(db: Db, db': Db, us: set<UploadId>)
    requires WithinDeclared(db)
    requires db'.sessions == db.sessions - us && db'.parts == PartsExcept(db.parts, us)
    ensures WithinDeclared(db')
  {
    forall u | u in db'.sessions ensures ReceivedBytes(db', u) <= db'.sessions[u].declaredSize {
      assert Parts(db', u) == Parts(db, u);
    }
  }

  lemma PutPartSound(w: World, a: Account, u: UploadId, index: nat, bytes: Bytes)
    requires StagingSound(w)
    ensures StagingSound(DoPutPart(w, a, u, index, bytes).0)
  {
    if PutPartRefusal(w, a, u, index, bytes).None? {
      var db' := RecordPart(w.db, a, u, index, |bytes|);
      RecordedTotal(w.db, u, index, bytes);
      forall v | v in db'.sessions ensures ReceivedBytes(db', v) <= db'.sessions[v].declaredSize {
        if v != u {
          assert Parts(db', v) == Parts(w.db, v);
        }
      }
    }
  }

  lemma InitiateSound(cfg: Config, w: World, a: Account, u: UploadId, h: Hash, size: nat, now: int)
    requires StagingSound(w)
    ensures StagingSound(DoInitiate(cfg, w, a, u, h, size, now).0)
  {
    var w' := DoInitiate(cfg, w, a, u, h, size, now).0;
    if InitiateRefusal(cfg, w, a, u, h, size).None? {
      assert w'.db.parts == w.db.parts && w'.db.sessions == w.db.sessions[u := Session(a, h, size, now)];
      forall v | v in w'.db.sessions ensures ReceivedBytes(w'.db, v) <= w'.db.sessions[v].declaredSize {
        assert Parts(w'.db, v) == Parts(w.db, v);
        if v == u {
          assert Parts(w.db, u) == map[];
        }
      }
    }
  }

  lemma DroppedSound(w: World, w': World, us: set<UploadId>)
    requires StagingSound(w)
    requires LosesSessions(w', w, us)
    ensures StagingSound(w')
  {
    FewerSessions(w.db, w'.db, us);
  }

  lemma {:induction false} BatchLeavesUploads(db: Db, app: App, a: Account, rs: seq<SyncInput>, now: int)
    ensures var db' := UpsertBatch(db, app, a, rs, now).db; db' == db.(counters := db'.counters, rows := db'.rows)
    decreases |rs|
  {
    if rs == [] {
    } else {
      BatchLeavesUploads(db, app, a, rs[..|rs| - 1], now);
    }
  }

  lemma {:induction false} EventsLeaveUploads(db: Db, a: Account, es: seq<IntentInput>, now: int)
    ensures var db' := InsertEvents(db, a, es, now).db; db' == db.(counters := db'.counters, intents := db'.intents)
    decreases |es|
  {
    if es == [] {
    } else {
      EventsLeaveUploads(db, a, es[..|es| - 1], now);
    }
  }

  /** The sessions an operation discards. */
  ghost function Dropped(cfg: Config, w: World, op: Op, now: int): set<UploadId> {
    match op
    case Finalize(a, u) =>
      var j := Judge(cfg, w, a, u);
      if j.Unowned? || j.MissingPart? || j.Oversize? then {} else {u}
    case Cancel(a, u) => if Owns(w.db, a, u) then {u} else {}
    case ReapSweep(ttl) => StaleSessions(w.db, now - ttl)
    case DeleteAccount(a) => if a in w.db.registry then SessionsOf(w.db, a) else {}
    case _ => {}
  }

  predicate LosesSessions(w': World, w: World, us: set<UploadId>) {
    && w'.db.sessions == w.db.sessions - us
    && w'.db.parts == PartsExcept(w.db.parts, us)
    && w'.disk.staged == StagedExcept(w.disk.staged, us)
  }

  lemma DropsNone(w: World)
    ensures LosesSessions(w, w, {})
  {
  }

  /** Apart from opening a session or taking a part, operations only discard whole sessions, parts
      and staged bytes together. */
  lemma DropShape(cfg: Config, w: World, op: Op, now: int)
    requires !op.Initiate? && !op.PutPart?
    ensures LosesSessions(Apply(cfg, w, op, now), w, Dropped(cfg, w, op, now))
  {
    DropsNone(w);
    match op
    case SyncBatch(a, app, rows, _) => BatchLeavesUploads(w.db, app, a, rows, now);
    case SendIntents(a, events) => EventsLeaveUploads(w.db, a, events, now);
    case Finalize(a, u) => FinalizeDrops(cfg, w, a, u, now);
    case _ =>
  }

  lemma FinalizeDrops(cfg: Config, w: World, a: Account, u: UploadId, now: int)
    ensures LosesSessions(DoFinalize(cfg, w, a, u, now).0, w, Dropped(cfg, w, Finalize(a, u), now))
  {
    DropsNone(w);
    var j := Judge(cfg, w, a, u);
    if !j.Unowned? && !j.MissingPart? && !j.Oversize? {
      StoreFrame(cfg, w, a, j, now);
      DiscardLoses(StoreGenuine(cfg, w, a, j, now), a, u);
    }
  }

  lemma DiscardLoses(w: World, a: Account, u: UploadId)
    requires Owns(w.db, a, u)
    ensures LosesSessions(Discard(w, a, u), w, {u})
  {
  }

  lemma StepSound(cfg: Config, w: World, op: Op, now: int)
    requires StagingSound(w)
    ensures StagingSound(Apply(cfg, w, op, now))
  {
    if op.Initiate? {
      InitiateSound(cfg, w, op.account, op.upload, op.hash, op.size, now);
    } else if op.PutPart? {
      PutPartSound(w, op.account, op.upload, op.index, op.bytes);
    } else {
      DropShape(cfg, w, op, now);
      DroppedSound(w, Apply(cfg, w, op, now), Dropped(cfg, w, op, now));
    }
  }

  /** In every reachable state staging is sound. */
  lemma {:induction false} ReachableSound(cfg: Config, ss: seq<World>, ops: seq<Op>, ts: seq<int>, n: nat)
    requires Trace(cfg, ss, ops, ts) && n <= |ops| && StagingSound(ss[0])
    ensures StagingSound(ss[n])
  {
    if n == 0 {
    } else {
      ReachableSound(cfg, ss, ops, ts, n - 1);
      StepSound(cfg, ss[n - 1], ops[n - 1], ts[n - 1]);
    }
  }

  /** The reaper discards exactly the sessions opened at or before the cutoff, with their parts and
      staged bytes, and leaves every other session as it was. */
  lemma ReapedExactly(w: World, ttl: nat, now: int)
    requires StagedAgree(w)
    ensures var w' := DoReap(w, ttl, now);
      && (forall u :: u in w'.db.sessions <==> u in w.db.sessions && w.db.sessions[u].createdAt > now - ttl)
      && (forall u :: u in w'.db.sessions ==> w'.db.sessions[u] == w.db.sessions[u] &&
                                              Parts(w'.db, u) == Parts(w.db, u))
      && (forall k :: k in w'.disk.staged <==> k in w.disk.staged && k.upload in w'.db.sessions)
      && (forall k :: k in w'.disk.staged ==> w'.disk.staged[k] == w.disk.staged[k])
      && w'.disk.files == w.disk.files && w'.db.blobs == w.db.blobs
  {
    var w' := DoReap(w, ttl, now);
    forall u | u in w'.db.sessions ensures Parts(w'.db, u) == Parts(w.db, u) {
    }
  }
}
