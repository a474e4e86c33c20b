/** Replaying a sync batch: a retry of a batch that may already have been applied changes no
    entity's content, and is free of seqs exactly when the batch only repeats tombstones. */
module Replay {
  import opened Collections
  import opened Model
  import opened Tables

  /** What a client sees of an entity besides its place in the log. */
  datatype Content = Content(envelope: Bytes, deleted: bool, deletedAt: Option<int>)

  function ContentAt(db: Db, k: RowKey): Option<Content> {
    if k in db.rows then Some(Content(db.rows[k].envelope, db.rows[k].deleted, db.rows[k].deletedAt)) else None
  }

  /** One row's effect on its entity. */
  function Rewrite(c: Option<Content>, r: SyncInput): Option<Content> {
    if r.insertOnly && c.Some? then c
    else if r.deleted && c.Some? && c.value.deleted && c.value.envelope == r.envelope then c
    else Some(Content(r.envelope, r.deleted, if r.deleted then r.deletedAt else None))
  }

  /** A batch's effect on one entity: the rows that name it, in order. */
  function RewriteAll(c: Option<Content>, id: EntityId, rs: seq<SyncInput>): Option<Content> {
    if rs == [] then c
    else
      var last := rs[|rs| - 1];
      var before := RewriteAll(c, id, rs[..|rs| - 1]);
      if last.id == id then Rewrite(before, last) else before
  }

  /** Entities do not interact: a batch acts on each one alone. */
  lemma {:induction false} BatchContent(db: Db, app: App, a: Account, rs: seq<SyncInput>, now: int, k: RowKey)
    ensures ContentAt(UpsertBatch(db, app, a, rs, now).db, k) ==
            if k.account == a && k.app == app then RewriteAll(ContentAt(db, k), k.id, rs) else ContentAt(db, k)
    decreases |rs|
  {
    if rs == [] {
    } else {
      BatchContent(db, app, a, rs[..|rs| - 1], now, k);
    }
  }

  predicate Unconditional(id: EntityId, r: SyncInput) {
    r.id == id && !r.insertOnly
  }

  /** The batch's unconditional rows for the entity all delete it, with the same envelope. */
  ghost predicate OneTombstone(id: EntityId, rs: seq<SyncInput>) {
    && (forall i :: 0 <= i < |rs| && Unconditional(id, rs[i]) ==> rs[i].deleted)
    && (forall i, j :: 0 <= i < |rs| && 0 <= j < |rs| && Unconditional(id, rs[i]) && Unconditional(id, rs[j]) ==>
        rs[i].envelope == rs[j].envelope)
  }

  predicate IsTombstone(c: Option<Content>, envelope: Bytes) {
    c.Some? && c.value.deleted && c.value.envelope == envelope
  }

  lemma {:induction false} OneTombstonePrefix(id: EntityId, rs: seq<SyncInput>, n: nat)
    requires OneTombstone(id, rs) && n <= |rs|
    ensures OneTombstone(id, rs[..n])
  {
  }

  lemma {:induction false} LeavesTombstone(c: Option<Content>, id: EntityId, rs: seq<SyncInput>, i: nat)
    requires OneTombstone(id, rs) && i < |rs| && Unconditional(id, rs[i])
    ensures IsTombstone(RewriteAll(c, id, rs), rs[i].envelope)
    decreases |rs|
  {
    var n := |rs| - 1;
    OneTombstonePrefix(id, rs, n);
    if i < n {
      LeavesTombstone(c, id, rs[..n], i);
    }
  }

  lemma {:induction false} LeavesPresent(c: Option<Content>, id: EntityId, rs: seq<SyncInput>, i: nat)
    requires i < |rs| && rs[i].id == id
    ensures RewriteAll(c, id, rs).Some?
    decreases |rs|
  {
    if i == |rs| - 1 {
    } else {
      LeavesPresent(c, id, rs[..|rs| - 1], i);
    }
  }

  /** From any two starting contents a batch leads to the same content, unless its unconditional
      rows are one tombstone repeated. */
  lemma {:induction false} Converges(c: Option<Content>, d: Option<Content>, id: EntityId, rs: seq<SyncInput>)
    requires d.Some?
    ensures RewriteAll(c, id, rs) == RewriteAll(d, id, rs) || OneTombstone(id, rs)
    decreases |rs|
  {
    if rs == [] {
    } else {
      var n := |rs| - 1;
      var before, last := rs[..n], rs[n];
      Converges(c, d, id, before);
      if OneTombstone(id, before) && Unconditional(id, last) && !OneTombstone(id, rs) {
        if last.deleted {
          var i :| 0 <= i < n && Unconditional(id, rs[i]) && rs[i].envelope != last.envelope;
          assert before[i] == rs[i];
          LeavesTombstone(c, id, before, i);
          LeavesTombstone(d, id, before, i);
        }
      }
      assert forall i :: 0 <= i < n ==> rs[i] == before[i];
    }
  }

  /** Rows that find their own tombstone, or find an entity already there, change nothing. */
  lemma {:induction false} AllSkipped(c: Option<Content>, id: EntityId, rs: seq<SyncInput>)
    requires forall i :: 0 <= i < |rs| && rs[i].id == id ==>
               c.Some? && (Unconditional(id, rs[i]) ==> rs[i].deleted && IsTombstone(c, rs[i].envelope))
    ensures RewriteAll(c, id, rs) == c
    decreases |rs|
  {
    if rs == [] {
    } else {
      AllSkipped(c, id, rs[..|rs| - 1]);
    }
  }

  lemma Settled(c: Option<Content>, id: EntityId, rs: seq<SyncInput>)
    ensures var once := RewriteAll(c, id, rs); RewriteAll(once, id, rs) == once
  {
    var once := RewriteAll(c, id, rs);
    if once.Some? {
      Converges(c, once, id, rs);
    }
    if once.None? || OneTombstone(id, rs) {
      forall i | 0 <= i < |rs| && rs[i].id == id
        ensures once.Some? && (Unconditional(id, rs[i]) ==> rs[i].deleted && IsTombstone(once, rs[i].envelope))
      {
        LeavesPresent(c, id, rs, i);
        if Unconditional(id, rs[i]) {
          LeavesTombstone(c, id, rs, i);
        }
      }
      AllSkipped(once, id, rs);
    }
  }

  /** Replay idempotence, for every batch: duplicates, insert-only rows and deletes mixed. */
  lemma ReplayIdempotent(db: Db, app: App, a: Account, rs: seq<SyncInput>, now: int, later: int, k: RowKey)
    ensures var once := UpsertBatch(db, app, a, rs, now).db;
            ContentAt(UpsertBatch(once, app, a, rs, later).db, k) == ContentAt(once, k)
  {
    BatchContent(db, app, a, rs, now, k);
    BatchContent(UpsertBatch(db, app, a, rs, now).db, app, a, rs, later, k);
    Settled(ContentAt(db, k), k.id, rs);
  }

  // ---------- When a replay costs nothing ----------

  /** A batch none of whose rows writes is the identity and reports {written: 0, maxSeq: 0}; and a
      batch that reports nothing written was one. */
  lemma {:induction false} Unwritten(db: Db, app: App, a: Account, rs: seq<SyncInput>, now: int)
    ensures UpsertBatch(db, app, a, rs, now).written == 0 <==> forall i :: 0 <= i < |rs| ==> !Writes(db, app, a, rs[i])
    ensures UpsertBatch(db, app, a, rs, now).written == 0 ==> UpsertBatch(db, app, a, rs, now) == Tally(db, 0, 0)
    decreases |rs|
  {
    if rs == [] {
    } else {
      var n := |rs| - 1;
      Unwritten(db, app, a, rs[..n], now);
      assert forall i :: 0 <= i < n ==> rs[..n][i] == rs[i];
    }
  }

  /** Every entity's unconditional rows are one tombstone, possibly repeated. */
  ghost predicate OnlyRetombstones(rs: seq<SyncInput>) {
    && (forall i :: 0 <= i < |rs| && !rs[i].insertOnly ==> rs[i].deleted)
    && (forall i, j :: 0 <= i < |rs| && 0 <= j < |rs| && rs[i].id == rs[j].id ==>
          !rs[i].insertOnly && !rs[j].insertOnly ==> rs[i].envelope == rs[j].envelope)
  }

  /** Exactly when the replay of a batch leaves the tables untouched and the counter where it was. */
  lemma ReplayIsFree(db: Db, app: App, a: Account, rs: seq<SyncInput>, now: int, later: int)
    ensures var once := UpsertBatch(db, app, a, rs, now).db;
            UpsertBatch(once, app, a, rs, later) == Tally(once, 0, 0) <==> OnlyRetombstones(rs)
  {
    var once := UpsertBatch(db, app, a, rs, now).db;
    Unwritten(once, app, a, rs, later);
    if OnlyRetombstones(rs) {
      forall i | 0 <= i < |rs| ensures !Writes(once, app, a, rs[i]) {
        var r := rs[i];
        var k := RowKey(a, app, r.id);
        BatchContent(db, app, a, rs, now, k);
        LeavesPresent(ContentAt(db, k), r.id, rs, i);
        if !r.insertOnly {
          assert Unconditional(r.id, r) && OneTombstone(r.id, rs);
          LeavesTombstone(ContentAt(db, k), r.id, rs, i);
        }
      }
    }
  }

  /** A client that re-deletes what it just drained never advances the seq: deletes of entities
      that already are tombstones with those bytes are the identity. */
  lemma RedeleteDrained(db: Db, app: App, a: Account, rs: seq<SyncInput>, now: int)
    requires forall i :: 0 <= i < |rs| ==> rs[i].deleted &&
                                           IsTombstone(ContentAt(db, RowKey(a, app, rs[i].id)), rs[i].envelope)
    ensures UpsertBatch(db, app, a, rs, now) == Tally(db, 0, 0)
    ensures forall i, at, when :: 0 <= i < |rs| ==>
              var (db', r) := SoftDelete(db, app, a, rs[i].id, at, when); db' == db && r.Some? && r.value.already
  {
    Unwritten(db, app, a, rs, now);
  }

  /** A soft delete turns a live entity into a tombstone with the deletion time given, keeping its
      envelope, and touches no other entity; done again, with whatever time, it changes nothing and
      reports the tombstone's seq. */
  lemma SoftDeleteOnce(db: Db, app: App, a: Account, id: EntityId, deletedAt: Option<int>, now: int,
                       again: Option<int>, later: int)
    requires RowKey(a, app, id) in db.rows && !db.rows[RowKey(a, app, id)].deleted
    ensures var k := RowKey(a, app, id); var (db', r) := SoftDelete(db, app, a, id, deletedAt, now);
      && ContentAt(db', k) == Some(Content(db.rows[k].envelope, true, deletedAt))
      && (forall j :: j != k ==> ContentAt(db', j) == ContentAt(db, j))
      && r == Some(SoftDeleted(db'.rows[k].stamp, false))
      && SoftDelete(db', app, a, id, again, later) == (db', Some(SoftDeleted(db'.rows[k].stamp, true)))
  {
  }
}
