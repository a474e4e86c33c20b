/** The reference client of the log: it drains an app's rows page by page by cursor while other
    devices keep writing, and ends up with an exact snapshot. */
module Drain {
  import opened Collections
  import opened Paging
  import opened Model
  import opened Tables
  import opened Vault
  import opened SeqLine
  import opened Staging
  import opened Replay
  import opened Store
  import opened Handlers

  /** What a reader at cursor `since` holds: for every row at or below the cursor, the part `f` of
      the row's current state; and nothing the table does not have. */
  ghost predicate Covers<V>(db: Db, app: App, a: Account, f: SyncRow -> V, since: nat, out: map<EntityId, V>) {
    && since <= Counter(db, a)
    && (forall k :: k in db.rows && k.account == a && k.app == app && db.rows[k].stamp <= since ==>
          k.id in out && out[k.id] == f(db.rows[k]))
    && (forall id :: id in out ==> RowKey(a, app, id) in db.rows)
  }

  /** The collected map is exactly the app's table at this instant, tombstones included. */
  ghost predicate IsSnapshot<V>(db: Db, app: App, a: Account, f: SyncRow -> V, out: map<EntityId, V>) {
    && (forall id :: id in out <==> RowKey(a, app, id) in db.rows)
    && (forall id :: id in out ==> out[id] == f(db.rows[RowKey(a, app, id)]))
  }

  /** Taking a page in order: a later record of the same entity replaces an earlier one. */
  function Take<V>(out: map<EntityId, V>, f: SyncRow -> V, records: seq<RowRecord>): map<EntityId, V> {
    if records == [] then out
    else
      var last := records[|records| - 1];
      Take(out, f, records[..|records| - 1])[last.id := f(last.row)]
  }

  // ---------- Any writer may run between two pages ----------

  lemma WriterKeepsCover<V>(cfg: Config, w: World, op: Op, now: int, app: App, a: Account, f: SyncRow -> V,
                            since: nat, out: map<EntityId, V>)
    requires OneLine(w.db) && Covers(w.db, app, a, f, since, out)
    requires op != DeleteAccount(a)
    ensures var db' := Apply(cfg, w, op, now).db; OneLine(db') && Covers(db', app, a, f, since, out)
  {
    StepLine(cfg, w, op, now, a);
  }

  lemma {:induction false} TakeHolds<V>(db: Db, app: App, a: Account, f: SyncRow -> V, out: map<EntityId, V>,
                                        page: seq<RowKey>)
    requires forall i :: 0 <= i < |page| ==> page[i] in db.rows && page[i].account == a && page[i].app == app
    ensures var t := Take(out, f, RowRecords(db, page));
      && (forall id :: id in t <==> id in out || RowKey(a, app, id) in page)
      && (forall k :: k in page ==> t[k.id] == f(db.rows[k]))
      && (forall id :: id in out && RowKey(a, app, id) !in page ==> t[id] == out[id])
    decreases |page|
  {
    if page == [] {
    } else {
      var n := |page| - 1;
      TakeHolds(db, app, a, f, out, page[..n]);
      assert RowRecords(db, page)[..n] == RowRecords(db, page[..n]);
      assert page == page[..n] + [page[n]];
      forall k | k in page ensures Take(out, f, RowRecords(db, page))[k.id] == f(db.rows[k]) {
        if k != page[n] {
          assert k.id != page[n].id;
        }
      }
    }
  }

  /** A page moves the cover up to the new cursor; the last page makes it a snapshot. */
  lemma PageKeepsCover<V>(db: Db, app: App, a: Account, f: SyncRow -> V, since: nat, out: map<EntityId, V>,
                          limit: nat, page: seq<RowKey>, more: bool)
    requires OneLine(db) && Covers(db, app, a, f, since, out) && limit >= 1
    requires IsPage(RowsAbove(db, app, a, since), limit, page, more)
    ensures var t := Take(out, f, RowRecords(db, page)); var next := Cursor(RowsAbove(db, app, a, since), since, page);
      && Covers(db, app, a, f, next, t)
      && (!more ==> IsSnapshot(db, app, a, f, t))
      && (more ==> next > since)
  {
    var c := RowsAbove(db, app, a, since);
    LogIsDistinct(db, app, a, since);
    PageReaches(c, since, limit, page, more);
    TakeHolds(db, app, a, f, out, page);
    var t, next := Take(out, f, RowRecords(db, page)), Cursor(c, since, page);
    forall k | k in db.rows && k.account == a && k.app == app && db.rows[k].stamp <= next
      ensures k.id in t && t[k.id] == f(db.rows[k])
    {
      if db.rows[k].stamp > since {
        assert k in c;
      } else {
        assert k !in c;
        assert RowKey(a, app, k.id) == k;
      }
    }
    assert Bounded(db) ==> next <= Counter(db, a) by {
      if page != [] {
        assert StampAt(db, RowSite(page[|page| - 1])) == Some(next);
      }
    }
    if !more {
      forall id | RowKey(a, app, id) in db.rows ensures id in t && t[id] == f(db.rows[RowKey(a, app, id)]) {
        var k := RowKey(a, app, id);
        if db.rows[k].stamp > since {
          assert k in c;
        }
      }
    }
  }

  lemma LogIsDistinct(db: Db, app: App, a: Account, since: nat)
    requires AllDistinct(db)
    ensures DistinctStamps(RowsAbove(db, app, a, since))
  {
    var c := RowsAbove(db, app, a, since);
    forall k, l | k in c && l in c && c[k] == c[l] ensures k == l {
      assert StampAt(db, RowSite(k)) == StampAt(db, RowSite(l));
    }
  }

  // ---------- Every interleaving ----------

  /** A reader's cursor and collected map; `done` when its last move was a page without more. */
  datatype Reader<V> = Reader(since: nat, out: map<EntityId, V>, done: bool)

  datatype Move = Write(op: Op, now: int) | Page(limit: nat, page: seq<RowKey>, more: bool)

  ghost predicate ReaderStep<V(!new)>(cfg: Config, app: App, a: Account, f: SyncRow -> V, w: World, r: Reader<V>,
                               m: Move, w': World, r': Reader<V>) {
    match m
    case Write(op, now) => op != DeleteAccount(a) && w' == Apply(cfg, w, op, now) && r' == r.(done := false)
    case Page(limit, page, more) =>
      var c := RowsAbove(w.db, app, a, r.since);
      limit >= 1 && w' == w && IsPage(c, limit, page, more)
      && r' == Reader(Cursor(c, r.since, page), Take(r.out, f, RowRecords(w.db, page)), !more)
  }

  /** Snapshot drain: in every interleaving of pages with operations that keep the account, a page
      that reports no more leaves the reader with exactly the table at that instant. */
  lemma {:induction false} SnapshotDrain<V(!new)>(cfg: Config, app: App, a: Account, f: SyncRow -> V, ws: seq<World>,
                                           rs: seq<Reader<V>>, ms: seq<Move>, n: nat)
    requires |ws| == |rs| == |ms| + 1 && n <= |ms|
    requires OneLine(ws[0].db) && rs[0] == Reader(0, map[], false)
    requires forall i {:trigger ms[i]} :: 0 <= i < |ms| ==>
        ReaderStep(cfg, app, a, f, ws[i], rs[i], ms[i], ws[i + 1], rs[i + 1])
    ensures OneLine(ws[n].db) && Covers(ws[n].db, app, a, f, rs[n].since, rs[n].out)
    ensures rs[n].done ==> IsSnapshot(ws[n].db, app, a, f, rs[n].out)
  {
    if n == 0 {
      StartCover(ws[0].db, app, a, f);
    } else {
      SnapshotDrain(cfg, app, a, f, ws, rs, ms, n - 1);
      var w, r := ws[n - 1], rs[n - 1];
      assert ReaderStep(cfg, app, a, f, w, r, ms[n - 1], ws[n - 1 + 1], rs[n - 1 + 1]);
      match ms[n - 1]
      case Write(op, now) => WriterKeepsCover(cfg, w, op, now, app, a, f, r.since, r.out);
      case Page(limit, page, more) => PageKeepsCover(w.db, app, a, f, r.since, r.out, limit, page, more);
    }
  }

  // ---------- fetchAll ----------

  function Envelope(r: SyncRow): Bytes { r.envelope }

  const PAGE_LIMIT: nat := 1000

  /** The operation writes no row of the account's app. */
  predicate Spares(op: Op, app: App, a: Account) {
    && !((op.SyncBatch? || op.DeleteRow?) && op.account == a && op.app == app)
    && op != DeleteAccount(a)
  }

  ghost predicate SameContents(db: Db, db': Db, app: App, a: Account) {
    forall id :: ContentAt(db', RowKey(a, app, id)) == ContentAt(db, RowKey(a, app, id))
  }

  lemma SparesContents(cfg: Config, w: World, op: Op, now: int, app: App, a: Account)
    requires Spares(op, app, a)
    ensures SameContents(w.db, Apply(cfg, w, op, now).db, app, a)
  {
    match op
    case SyncBatch(b, other, rows, _) => BatchSpares(w.db, other, b, rows, now, app, a);
    case SendIntents(b, events) => EventsLeaveUploads(w.db, b, events, now);
    case Finalize(b, u) => FinalizeShape(cfg, w, b, u, now);
    case ReleaseRef(b, h) => ReleaseShape(w.db, b, h, now);
    case _ =>
  }

  lemma BatchSpares(db: Db, other: App, b: Account, rs: seq<SyncInput>, now: int, app: App, a: Account)
    requires a != b || app != other
    ensures SameContents(db, UpsertBatch(db, other, b, rs, now).db, app, a)
  {
    forall id
      ensures ContentAt(UpsertBatch(db, other, b, rs, now).db, RowKey(a, app, id)) == ContentAt(db, RowKey(a, app, id))
    {
      BatchContent(db, other, b, rs, now, RowKey(a, app, id));
    }
  }

  type Work = seq<(Op, int)>

  ghost predicate AllSpare(work: Work, app: App, a: Account) {
    forall i :: 0 <= i < |work| ==> Spares(work[i].0, app, a)
  }

  /** Other devices at work between two pages. */
  method Interfere<V>(server: Server, work: Work, ghost app: App, ghost a: Account, ghost f: SyncRow -> V,
                      ghost since: nat, ghost out: map<EntityId, V>)
    requires OneLine(server.Now().db) && Covers(server.Now().db, app, a, f, since, out)
    requires forall i :: 0 <= i < |work| ==> work[i].0 != DeleteAccount(a)
    modifies server.store, server.disk
    ensures OneLine(server.Now().db) && Covers(server.Now().db, app, a, f, since, out)
    ensures AllSpare(work, app, a) ==> SameContents(old(server.Now().db), server.Now().db, app, a)
  {
    for i := 0 to |work|
      invariant OneLine(server.Now().db) && Covers(server.Now().db, app, a, f, since, out)
      invariant AllSpare(work, app, a) ==> SameContents(old(server.Now().db), server.Now().db, app, a)
    {
      WriterKeepsCover(server.cfg, server.Now(), work[i].0, work[i].1, app, a, f, since, out);
      if Spares(work[i].0, app, a) {
        SparesContents(server.cfg, server.Now(), work[i].0, work[i].1, app, a);
      }
      var _ := server.Perform(work[i].0, work[i].1);
    }
  }

  /** Fetch every row of an app, paging on hasMore. `schedule[i]` is whatever other devices and the
      sweeps do before the i-th page: for every schedule that does not remove the account, the
      loop ends, and ends with exactly the table as it then stands. */
  method FetchAll(server: Server, app: App, a: Account, schedule: seq<Work>) returns (out: map<EntityId, Bytes>)
    requires OneLine(server.Now().db)
    requires forall i, j :: 0 <= i < |schedule| && 0 <= j < |schedule[i]| ==> schedule[i][j].0 != DeleteAccount(a)
    modifies server.store, server.disk
    ensures IsSnapshot(server.Now().db, app, a, Envelope, out)
    ensures (forall i :: 0 <= i < |schedule| ==> AllSpare(schedule[i], app, a)) ==>
              SameContents(old(server.Now().db), server.Now().db, app, a)
    ensures schedule == [] ==> server.Now() == old(server.Now())
  {
    ghost var f := Envelope;
    out := map[];
    var since, round, more := 0, 0, true;
    StartCover(server.Now().db, app, a, f);
    while more
      invariant round <= |schedule|
      invariant OneLine(server.Now().db)
      invariant Covers(server.Now().db, app, a, f, since, out)
      invariant !more ==> IsSnapshot(server.Now().db, app, a, f, out)
      invariant (forall i :: 0 <= i < |schedule| ==> AllSpare(schedule[i], app, a)) ==>
                  SameContents(old(server.Now().db), server.Now().db, app, a)
      invariant schedule == [] ==> server.Now() == old(server.Now())
      decreases |schedule| - round, if more then |RowsAbove(server.Now().db, app, a, since)| + 1 else 0
    {
      if round < |schedule| {
        Interfere(server, schedule[round], app, a, f, since, out);
        round := round + 1;
      }
      since, out, more := FetchPage(server.store, app, a, since, out);
    }
  }

  /** One page: list, then take each record in turn. */
  method FetchPage(store: SqliteStore, app: App, a: Account, since: nat, have: map<EntityId, Bytes>)
                   returns (next: nat, out: map<EntityId, Bytes>, more: bool)
    requires OneLine(store.State())
    requires Covers(store.State(), app, a, Envelope, since, have)
    ensures Covers(store.State(), app, a, Envelope, next, out)
    ensures !more ==> IsSnapshot(store.State(), app, a, Envelope, out)
    ensures more ==> |RowsAbove(store.State(), app, a, next)| < |RowsAbove(store.State(), app, a, since)|
  {
    ghost var db := store.State();
    var records, hasMore := store.ListRows(app, a, since, PAGE_LIMIT);
    ghost var page :| IsPage(RowsAbove(db, app, a, since), PAGE_LIMIT, page, hasMore) &&
        records == RowRecords(db, page);
    next, out := TakeRecords(records, since, have);
    more := hasMore;
    PageTaken(db, app, a, since, have, page, more);
  }

  lemma PageTaken(db: Db, app: App, a: Account, since: nat, have: map<EntityId, Bytes>, page: seq<RowKey>, more: bool)
    requires OneLine(db) && Covers(db, app, a, Envelope, since, have)
    requires IsPage(RowsAbove(db, app, a, since), PAGE_LIMIT, page, more)
    ensures var records := RowRecords(db, page);
      var next, out := if records == [] then since else records[|records| - 1].row.stamp, Take(have, Envelope, records);
      && Covers(db, app, a, Envelope, next, out)
      && (!more ==> IsSnapshot(db, app, a, Envelope, out))
      && (more ==> |RowsAbove(db, app, a, next)| < |RowsAbove(db, app, a, since)|)
  {
    PageKeepsCover(db, app, a, Envelope, since, have, PAGE_LIMIT, page, more);
    if more {
      FewerAbove(db, app, a, since, page);
    }
  }

  method TakeRecords(records: seq<RowRecord>, since: nat, have: map<EntityId, Bytes>)
                     returns (next: nat, out: map<EntityId, Bytes>)
    ensures out == Take(have, Envelope, records)
    ensures next == if records == [] then since else records[|records| - 1].row.stamp
  {
    next, out := since, have;
    for i := 0 to |records|
      invariant out == Take(have, Envelope, records[..i])
      invariant next == if i == 0 then since else records[i - 1].row.stamp
    {
      assert records[..i + 1][..i] == records[..i];
      out := out[records[i].id := records[i].row.envelope];
      next := records[i].row.stamp;
    }
    assert records[..|records|] == records;
  }

  lemma StartCover<V>(db: Db, app: App, a: Account, f: SyncRow -> V)
    requires Bounded(db)
    ensures Covers(db, app, a, f, 0, map[])
  {
    forall k | k in db.rows ensures db.rows[k].stamp >= 1 {
      assert StampAt(db, RowSite(k)).Some?;
    }
  }

  /** Without writers each page that reports more leaves strictly fewer rows above the cursor. */
  lemma FewerAbove(db: Db, app: App, a: Account, since: nat, page: seq<RowKey>)
    requires AllDistinct(db) && IsPage(RowsAbove(db, app, a, since), PAGE_LIMIT, page, true)
    ensures var next := Cursor(RowsAbove(db, app, a, since), since, page);
      next > since && |RowsAbove(db, app, a, next)| < |RowsAbove(db, app, a, since)|
  {
    var c := RowsAbove(db, app, a, since);
    var k := page[|page| - 1];
    var d := RowsAbove(db, app, a, c[k]);
    assert k in c && k !in d;
    assert d.Keys <= c.Keys - {k};
    SubsetCard(d.Keys, c.Keys - {k});
  }
}
