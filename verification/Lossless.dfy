/** The losslessness check: seed an app in batches, fetch everything back, compare byte for byte. */
module Lossless {
  import opened Collections
  import opened Model
  import opened Tables
  import opened SeqLine
  import opened Replay
  import opened Handlers
  import opened Drain

  datatype DiskEnvelope = DiskEnvelope(id: EntityId, bytes: Bytes)

  const BATCH_SIZE: nat := 100

  ghost predicate UniqueIds(es: seq<DiskEnvelope>) {
    forall i, j :: 0 <= i < j < |es| ==> es[i].id != es[j].id
  }

  function IdsOf(es: seq<DiskEnvelope>): (ids: set<EntityId>)
    ensures forall id :: id in ids <==> exists i :: 0 <= i < |es| && es[i].id == id
  {
    set i | 0 <= i < |es| :: es[i].id
  }

  /** The rows the client sends: live, and written whatever is there. */
  function LiveRows(es: seq<DiskEnvelope>): (rs: seq<SyncInput>)
    ensures |rs| == |es|
  {
    seq(|es|, i requires 0 <= i < |es| => SyncInput(es[i].id, es[i].bytes, false, false, None))
  }

  // ---------- What seeding does ----------

  lemma {:induction false} LiveRowsLand(c: Option<Content>, id: EntityId, es: seq<DiskEnvelope>, n: nat)
    requires n <= |es| && UniqueIds(es)
    ensures var r := RewriteAll(c, id, LiveRows(es)[..n]);
      && (forall i :: 0 <= i < n && es[i].id == id ==> r == Some(Content(es[i].bytes, false, None)))
      && ((forall i :: 0 <= i < n ==> es[i].id != id) ==> r == c)
  {
    if n == 0 {
    } else {
      LiveRowsLand(c, id, es, n - 1);
      assert LiveRows(es)[..n][..n - 1] == LiveRows(es)[..n - 1];
    }
  }

  lemma {:induction false} LiveRowsCount(db: Db, app: App, a: Account, es: seq<DiskEnvelope>, n: nat, now: int)
    requires n <= |es|
    ensures UpsertBatch(db, app, a, LiveRows(es)[..n], now).written == n
  {
    if n == 0 {
    } else {
      LiveRowsCount(db, app, a, es, n - 1, now);
      assert LiveRows(es)[..n][..n - 1] == LiveRows(es)[..n - 1];
    }
  }

  /** The first n envelopes are in the app's table as they are, and no other entity changed. */
  ghost predicate Seeded(was: Db, db: Db, app: App, a: Account, es: seq<DiskEnvelope>, n: nat)
    requires n <= |es|
  {
    && (forall i :: 0 <= i < n ==> ContentAt(db, RowKey(a, app, es[i].id)) == Some(Content(es[i].bytes, false, None)))
    && (forall id :: (forall i :: 0 <= i < n ==> es[i].id != id) ==>
        ContentAt(db, RowKey(a, app, id)) == ContentAt(was, RowKey(a, app, id)))
  }

  lemma SliceSeeds(was: Db, db: Db, app: App, a: Account, es: seq<DiskEnvelope>, lo: nat, hi: nat, now: int)
    requires lo <= hi <= |es| && UniqueIds(es) && Seeded(was, db, app, a, es, lo)
    ensures var t := UpsertBatch(db, app, a, LiveRows(es[lo..hi]), now);
        Seeded(was, t.db, app, a, es, hi) && t.written == hi - lo
  {
    var part := es[lo..hi];
    LiveRowsCount(db, app, a, part, |part|, now);
    assert LiveRows(part)[..|part|] == LiveRows(part);
    SliceHoldsAll(was, db, app, a, es, lo, hi, now);
    SliceSpares(was, db, app, a, es, lo, hi, now);
  }

  lemma SliceHoldsAll(was: Db, db: Db, app: App, a: Account, es: seq<DiskEnvelope>, lo: nat, hi: nat, now: int)
    requires lo <= hi <= |es| && UniqueIds(es) && Seeded(was, db, app, a, es, lo)
    ensures var db' := UpsertBatch(db, app, a, LiveRows(es[lo..hi]), now).db;
      forall i :: 0 <= i < hi ==> ContentAt(db', RowKey(a, app, es[i].id)) == Some(Content(es[i].bytes, false, None))
  {
    var db' := UpsertBatch(db, app, a, LiveRows(es[lo..hi]), now).db;
    forall i | 0 <= i < hi ensures ContentAt(db', RowKey(a, app, es[i].id)) == Some(Content(es[i].bytes, false, None)) {
      SliceHolds(was, db, app, a, es, lo, hi, now, i);
    }
  }

  lemma SliceSpares(was: Db, db: Db, app: App, a: Account, es: seq<DiskEnvelope>, lo: nat, hi: nat, now: int)
    requires lo <= hi <= |es| && UniqueIds(es) && Seeded(was, db, app, a, es, lo)
    ensures var db' := UpsertBatch(db, app, a, LiveRows(es[lo..hi]), now).db;
      forall id :: (forall i :: 0 <= i < hi ==> es[i].id != id) ==>
        ContentAt(db', RowKey(a, app, id)) == ContentAt(was, RowKey(a, app, id))
  {
    var part := es[lo..hi];
    var db' := UpsertBatch(db, app, a, LiveRows(part), now).db;
    forall id | forall i :: 0 <= i < hi ==> es[i].id != id
      ensures ContentAt(db', RowKey(a, app, id)) == ContentAt(was, RowKey(a, app, id))
    {
      assert forall j :: 0 <= j < |part| ==> part[j] == es[lo + j];
      SliceEffect(db, app, a, part, now, id);
    }
  }

  lemma SliceHolds(was: Db, db: Db, app: App, a: Account, es: seq<DiskEnvelope>, lo: nat, hi: nat, now: int, i: nat)
    requires lo <= hi <= |es| && UniqueIds(es) && Seeded(was, db, app, a, es, lo) && i < hi
    ensures ContentAt(UpsertBatch(db, app, a, LiveRows(es[lo..hi]), now).db, RowKey(a, app, es[i].id)) ==
            Some(Content(es[i].bytes, false, None))
  {
    SliceEffect(db, app, a, es[lo..hi], now, es[i].id);
    InOrBefore(es, lo, hi, i);
  }

  lemma InOrBefore(es: seq<DiskEnvelope>, lo: nat, hi: nat, i: nat)
    requires lo <= hi <= |es| && i < hi && UniqueIds(es)
    ensures i >= lo ==> es[lo..hi][i - lo] == es[i]
    ensures i < lo ==> forall j :: 0 <= j < hi - lo ==> es[lo..hi][j].id != es[i].id
  {
  }

  /** What a slice does to one entity. */
  lemma SliceEffect(db: Db, app: App, a: Account, part: seq<DiskEnvelope>, now: int, id: EntityId)
    requires UniqueIds(part)
    ensures var c := ContentAt(UpsertBatch(db, app, a, LiveRows(part), now).db, RowKey(a, app, id));
      && (forall i :: 0 <= i < |part| && part[i].id == id ==> c == Some(Content(part[i].bytes, false, None)))
      && ((forall i :: 0 <= i < |part| ==> part[i].id != id) ==> c == ContentAt(db, RowKey(a, app, id)))
  {
    var k := RowKey(a, app, id);
    assert LiveRows(part)[..|part|] == LiveRows(part);
    BatchContent(db, app, a, LiveRows(part), now, k);
    LiveRowsLand(ContentAt(db, k), id, part, |part|);
  }

  // ---------- The client ----------

  /** One POST of the envelopes lo..hi. */
  method SeedSlice(server: Server, app: App, a: Account, es: seq<DiskEnvelope>, lo: nat, hi: nat, now: int,
                   ghost was: Db) returns (written: Option<nat>)
    requires lo <= hi <= |es| && OneLine(server.Now().db) && UniqueIds(es) &&
        Seeded(was, server.Now().db, app, a, es, lo)
    modifies server.store
    ensures OneLine(server.Now().db)
    ensures written.Some? ==> written.value == hi - lo && Seeded(was, server.Now().db, app, a, es, hi)
  {
    ghost var db := server.Now().db;
    var rows := LiveRows(es[lo..hi]);
    var reply := server.HandleSyncBatch(app, a, rows, now);
    if !reply.Written? {
      return None;
    }
    SliceSeeds(was, db, app, a, es, lo, hi, now);
    BatchLine(db, app, a, rows, now, a);
    written := Some(reply.written);
  }

  /** Other traffic between two posts, none of it writing the app's rows. */
  method Meanwhile(server: Server, work: Work, ghost app: App, ghost a: Account, ghost es: seq<DiskEnvelope>,
                   ghost n: nat, ghost was: Db)
    requires n <= |es| && OneLine(server.Now().db) && Seeded(was, server.Now().db, app, a, es, n) &&
        AllSpare(work, app, a)
    modifies server.store, server.disk
    ensures OneLine(server.Now().db) && Seeded(was, server.Now().db, app, a, es, n)
  {
    for i := 0 to |work|
      invariant OneLine(server.Now().db) && Seeded(was, server.Now().db, app, a, es, n)
    {
      SparesContents(server.cfg, server.Now(), work[i].0, work[i].1, app, a);
      StepLine(server.cfg, server.Now(), work[i].0, work[i].1, a);
      var _ := server.Perform(work[i].0, work[i].1);
    }
  }

  /** Seed all envelopes in batches, `schedule[i]` being what others do before the i-th; None when the
      server refuses one. */
  method Seed(server: Server, app: App, a: Account, es: seq<DiskEnvelope>, clock: nat -> int, schedule: seq<Work>)
      returns (written: Option<nat>)
    requires OneLine(server.Now().db) && UniqueIds(es)
    requires forall i :: 0 <= i < |schedule| ==> AllSpare(schedule[i], app, a)
    modifies server.store, server.disk
    ensures OneLine(server.Now().db)
    ensures written.Some? ==> written.value == |es| && Seeded(old(server.Now().db), server.Now().db, app, a, es, |es|)
  {
    ghost var was := server.Now().db;
    var total, start, round := 0, 0, 0;
    while start < |es|
      invariant OneLine(server.Now().db) && round <= |schedule|
      invariant total == Min(start, |es|) && Seeded(was, server.Now().db, app, a, es, Min(start, |es|))
    {
      if round < |schedule| {
        Meanwhile(server, schedule[round], app, a, es, start, was);
        round := round + 1;
      }
      var sent := SeedSlice(server, app, a, es, start, Min(start + BATCH_SIZE, |es|), clock(start), was);
      if sent.None? {
        return None;
      }
      total := total + sent.value;
      start := start + BATCH_SIZE;
    }
    written := Some(total);
  }

  predicate Matches(e: DiskEnvelope, retrieved: map<EntityId, Bytes>) {
    e.id in retrieved && retrieved[e.id] == e.bytes
  }

  /** How many envelopes did not come back as they were. */
  function Mismatches(es: seq<DiskEnvelope>, retrieved: map<EntityId, Bytes>): nat {
    if es == [] then 0
    else Mismatches(es[..|es| - 1], retrieved) + if Matches(es[|es| - 1], retrieved) then 0 else 1
  }

  lemma {:induction false} NoneMissing(es: seq<DiskEnvelope>, retrieved: map<EntityId, Bytes>)
    ensures Mismatches(es, retrieved) == 0 <==> forall i :: 0 <= i < |es| ==> Matches(es[i], retrieved)
    decreases |es|
  {
    if es == [] {
    } else {
      NoneMissing(es[..|es| - 1], retrieved);
    }
  }

  method CountMismatches(es: seq<DiskEnvelope>, retrieved: map<EntityId, Bytes>) returns (mismatches: nat)
    ensures mismatches == Mismatches(es, retrieved)
  {
    mismatches := 0;
    for i := 0 to |es|
      invariant mismatches == Mismatches(es[..i], retrieved)
    {
      assert es[..i + 1][..i] == es[..i];
      if !Matches(es[i], retrieved) {
        mismatches := mismatches + 1;
      }
    }
    assert es[..|es|] == es;
  }

  /** One target of the check, amid any traffic that does not write the app's rows: it passes if and
      only if the app's table held no other entities before, tombstones included. So every envelope
      comes back byte for byte, always. */
  method Check(server: Server, app: App, a: Account, es: seq<DiskEnvelope>, clock: nat -> int, seeding: seq<Work>,
               fetching: seq<Work>)
      returns (refused: bool, mismatches: nat, pass: bool)
    requires OneLine(server.Now().db) && UniqueIds(es)
    requires forall i :: 0 <= i < |seeding| ==> AllSpare(seeding[i], app, a)
    requires forall i :: 0 <= i < |fetching| ==> AllSpare(fetching[i], app, a)
    modifies server.store, server.disk
    ensures !refused ==> mismatches == 0 && (pass <==> EntityIds(old(server.Now().db), app, a) <= IdsOf(es))
  {
    ghost var was := server.Now().db;
    var seeded := Seed(server, app, a, es, clock, seeding);
    if seeded.None? {
      return true, 0, false;
    }
    ghost var full := server.Now().db;
    var retrieved := FetchAll(server, app, a, fetching);
    StillSeeded(was, full, server.Now().db, app, a, es);
    mismatches := CountMismatches(es, retrieved);
    AllComeBack(was, server.Now().db, app, a, es, retrieved);
    refused, pass := false, mismatches == 0 && |retrieved| == seeded.value;
  }

  lemma StillSeeded(was: Db, full: Db, db: Db, app: App, a: Account, es: seq<DiskEnvelope>)
    requires Seeded(was, full, app, a, es, |es|) && SameContents(full, db, app, a)
    ensures Seeded(was, db, app, a, es, |es|)
  {
  }

  lemma AllComeBack(was: Db, db: Db, app: App, a: Account, es: seq<DiskEnvelope>, retrieved: map<EntityId, Bytes>)
    requires UniqueIds(es) && Seeded(was, db, app, a, es, |es|) && IsSnapshot(db, app, a, Envelope, retrieved)
    ensures Mismatches(es, retrieved) == 0
    ensures |retrieved| == |es| <==> EntityIds(was, app, a) <= IdsOf(es)
  {
    forall i | 0 <= i < |es| ensures Matches(es[i], retrieved) {
      ComesBack(was, db, app, a, es, retrieved, i);
    }
    NoneMissing(es, retrieved);
    TableIs(was, db, app, a, es);
    assert retrieved.Keys == EntityIds(db, app, a) by {
      forall id ensures id in retrieved <==> id in EntityIds(db, app, a) {
        assert id in EntityIds(db, app, a) <==> RowKey(a, app, id) in db.rows;
      }
    }
    IdsCount(es, |es|);
    assert es[..|es|] == es;
    AsMany(IdsOf(es), EntityIds(was, app, a), retrieved.Keys);
  }

  lemma TableIs(was: Db, db: Db, app: App, a: Account, es: seq<DiskEnvelope>)
    requires Seeded(was, db, app, a, es, |es|)
    ensures EntityIds(db, app, a) == IdsOf(es) + EntityIds(was, app, a)
  {
    forall id ensures id in EntityIds(db, app, a) <==> id in IdsOf(es) + EntityIds(was, app, a) {
      InTable(was, db, app, a, es, id);
      assert id in EntityIds(db, app, a) <==> RowKey(a, app, id) in db.rows;
    }
  }

  lemma ComesBack(was: Db, db: Db, app: App, a: Account, es: seq<DiskEnvelope>, retrieved: map<EntityId, Bytes>, i: nat)
    requires Seeded(was, db, app, a, es, |es|) && IsSnapshot(db, app, a, Envelope, retrieved) && i < |es|
    ensures Matches(es[i], retrieved)
  {
    assert ContentAt(db, RowKey(a, app, es[i].id)) == Some(Content(es[i].bytes, false, None));
  }

  /** The table has exactly the seeded entities and those it had before. */
  lemma InTable(was: Db, db: Db, app: App, a: Account, es: seq<DiskEnvelope>, id: EntityId)
    requires Seeded(was, db, app, a, es, |es|)
    ensures RowKey(a, app, id) in db.rows <==> id in IdsOf(es) || id in EntityIds(was, app, a)
  {
    var k := RowKey(a, app, id);
    assert id in EntityIds(was, app, a) <==> k in was.rows;
    assert k in db.rows <==> ContentAt(db, k).Some?;
    if id in IdsOf(es) {
      var i :| 0 <= i < |es| && es[i].id == id;
      assert ContentAt(db, RowKey(a, app, es[i].id)).Some?;
    } else {
      assert ContentAt(db, k) == ContentAt(was, k);
    }
  }

  lemma AsMany(ids: set<EntityId>, before: set<EntityId>, all: set<EntityId>)
    requires all == ids + before
    ensures |all| == |ids| <==> before <= ids
  {
    if before <= ids {
      assert all == ids;
    } else {
      var id :| id in before && id !in ids;
      SubsetCard(ids + {id}, all);
    }
  }

  lemma {:induction false} IdsCount(es: seq<DiskEnvelope>, n: nat)
    requires UniqueIds(es) && n <= |es|
    ensures |IdsOf(es[..n])| == n
  {
    if n == 0 {
      assert IdsOf(es[..n]) == {};
    } else {
      IdsCount(es, n - 1);
      forall id ensures id in IdsOf(es[..n]) <==> id in IdsOf(es[..n - 1]) || id == es[n - 1].id {
        OneMoreId(es, n, id);
      }
      OneMoreId(es, n, es[n - 1].id);
      TwoParts(IdsOf(es[..n]), IdsOf(es[..n - 1]), {es[n - 1].id});
    }
  }

  lemma OneMoreId(es: seq<DiskEnvelope>, n: nat, id: EntityId)
    requires UniqueIds(es) && 0 < n <= |es|
    ensures id in IdsOf(es[..n]) <==> id in IdsOf(es[..n - 1]) || id == es[n - 1].id
    ensures es[n - 1].id !in IdsOf(es[..n - 1])
  {
    var before, after := es[..n - 1], es[..n];
    assert forall i :: 0 <= i < n - 1 ==> before[i] == after[i];
    assert after[n - 1] == es[n - 1];
  }
}
