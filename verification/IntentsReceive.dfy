/** Receiving intents: a client that lists by its own cursor, between arbitrary inserts and prunes,
    misses no event that is still alive and gets no stored row twice. */
module IntentsReceive {
  import opened Collections
  import opened Paging
  import opened Model
  import opened Tables
  import opened Vault
  import opened SeqLine
  import opened Store

  ghost predicate InOrder(log: seq<IntentRecord>, lo: nat, hi: nat) {
    && (forall i, j :: 0 <= i < j < |log| ==> log[i].event.stamp < log[j].event.stamp)
    && (forall i :: 0 <= i < |log| ==> lo < log[i].event.stamp <= hi)
  }

  lemma InOrderJoin(log: seq<IntentRecord>, more: seq<IntentRecord>, lo: nat, mid: nat, hi: nat)
    requires InOrder(log, lo, mid) && InOrder(more, mid, hi) && lo <= mid <= hi
    ensures InOrder(log + more, lo, hi)
  {
  }

  /** The log of everything delivered is in strict seq order up to the cursor, and contains every
      stored event at or below the cursor that has not expired. */
  ghost predicate Received(db: Db, a: Account, now: int, since: nat, log: seq<IntentRecord>) {
    && since <= Counter(db, a)
    && InOrder(log, 0, since)
    && (forall k :: k in db.intents && k.account == a && db.intents[k].stamp <= since &&
                    db.intents[k].expiresAt > now ==>
          IntentRecord(k.id, db.intents[k]) in log)
  }

  datatype Move = Write(op: Op) | Poll(limit: nat, page: seq<IntentKey>, more: bool)

  datatype Receiver = Receiver(since: nat, log: seq<IntentRecord>)

  /** An operation of the server at `now`, or a poll at `now`. */
  ghost predicate ReceiverStep(cfg: Config, a: Account, w: World, r: Receiver, m: Move, now: int, w': World,
                               r': Receiver) {
    match m
    case Write(op) => op != DeleteAccount(a) && w' == Apply(cfg, w, op, now) && r' == r
    case Poll(limit, page, more) =>
      var c := IntentsAbove(w.db, a, r.since, now);
      limit >= 1 && w' == w && IsPage(c, limit, page, more)
      && r' == Receiver(Cursor(c, r.since, page), r.log + IntentRecords(w.db, page))
  }

  lemma WriteKeepsReceived(cfg: Config, w: World, op: Op, before: int, now: int, a: Account, since: nat,
                           log: seq<IntentRecord>)
    requires OneLine(w.db) && Received(w.db, a, before, since, log)
    requires op != DeleteAccount(a) && before <= now
    ensures var db' := Apply(cfg, w, op, now).db; OneLine(db') && Received(db', a, now, since, log)
  {
    StepLine(cfg, w, op, now, a);
  }

  lemma PollKeepsReceived(db: Db, a: Account, before: int, now: int, since: nat, log: seq<IntentRecord>, limit: nat,
                          page: seq<IntentKey>, more: bool)
    requires OneLine(db) && Received(db, a, before, since, log) && before <= now && limit >= 1
    requires IsPage(IntentsAbove(db, a, since, now), limit, page, more)
    ensures Received(db, a, now, Cursor(IntentsAbove(db, a, since, now), since, page), log + IntentRecords(db, page))
  {
    var c := IntentsAbove(db, a, since, now);
    var next, records := Cursor(c, since, page), IntentRecords(db, page);
    PageInOrder(db, a, now, since, limit, page, more);
    InOrderJoin(log, records, 0, since, next);
    forall k | k in db.intents && k.account == a && db.intents[k].stamp <= next && db.intents[k].expiresAt > now
      ensures IntentRecord(k.id, db.intents[k]) in log + records
    {
      if db.intents[k].stamp > since {
        assert k in c;
      }
    }
  }

  /** The records of a page continue the log in order, and include every candidate up to the cursor. */
  lemma PageInOrder(db: Db, a: Account, now: int, since: nat, limit: nat, page: seq<IntentKey>, more: bool)
    requires OneLine(db) && limit >= 1 && since <= Counter(db, a)
    requires IsPage(IntentsAbove(db, a, since, now), limit, page, more)
    ensures var c := IntentsAbove(db, a, since, now); var next := Cursor(c, since, page);
      && InOrder(IntentRecords(db, page), since, next)
      && since <= next <= Counter(db, a)
      && (forall k :: k in c && c[k] <= next ==> IntentRecord(k.id, db.intents[k]) in IntentRecords(db, page))
      && (!more ==> forall k :: k in c ==> c[k] <= next)
  {
    var c := IntentsAbove(db, a, since, now);
    IntentsDistinct(db, a, since, now);
    PageReaches(c, since, limit, page, more);
    PageAscends(c, since, limit, page, more);
    RecordsFollow(db, c, since, page);
    if page != [] {
      assert StampAt(db, IntentSite(page[|page| - 1])) == Some(Cursor(c, since, page));
    }
  }

  /** Reading a page's records: they carry the page's seqs, one record for each key. */
  lemma RecordsFollow(db: Db, c: map<IntentKey, nat>, since: nat, page: seq<IntentKey>)
    requires forall k :: k in c ==> k in db.intents && c[k] == db.intents[k].stamp
    requires forall i :: 0 <= i < |page| ==> page[i] in c
    requires forall i, j :: 0 <= i < j < |page| ==> c[page[i]] < c[page[j]]
    requires forall i :: 0 <= i < |page| ==> since < c[page[i]] <= Cursor(c, since, page)
    ensures InOrder(IntentRecords(db, page), since, Cursor(c, since, page))
    ensures forall k :: k in page ==> IntentRecord(k.id, db.intents[k]) in IntentRecords(db, page)
  {
    var records := IntentRecords(db, page);
    forall k | k in page ensures IntentRecord(k.id, db.intents[k]) in records {
      var i :| 0 <= i < |page| && page[i] == k;
      assert records[i] == IntentRecord(k.id, db.intents[k]);
    }
  }

  lemma IntentsDistinct(db: Db, a: Account, since: nat, now: int)
    requires AllDistinct(db)
    ensures DistinctStamps(IntentsAbove(db, a, since, now))
  {
    var c := IntentsAbove(db, a, since, now);
    forall k, l | k in c && l in c && c[k] == c[l] ensures k == l {
      assert StampAt(db, IntentSite(k)) == StampAt(db, IntentSite(l));
    }
  }

  /** In every interleaving: each stored event at or below the receiver's cursor that is unexpired
      now was delivered to it, and no two deliveries carry the same seq, so no stored row was
      delivered twice. */
  lemma {:induction false} NothingMissedNothingTwice(cfg: Config, a: Account, ws: seq<World>, rs: seq<Receiver>,
      ms: seq<Move>, ts: seq<int>, n: nat)
    requires |ws| == |rs| == |ts| == |ms| + 1 && n <= |ms|
    requires OneLine(ws[0].db) && rs[0] == Receiver(0, [])
    requires forall i, j :: 0 <= i <= j < |ts| ==> ts[i] <= ts[j]
    requires forall i {:trigger ms[i]} :: 0 <= i < |ms| ==>
        ReceiverStep(cfg, a, ws[i], rs[i], ms[i], ts[i + 1], ws[i + 1], rs[i + 1])
    ensures OneLine(ws[n].db) && Received(ws[n].db, a, ts[n], rs[n].since, rs[n].log)
  {
    if n == 0 {
      forall k | k in ws[0].db.intents ensures ws[0].db.intents[k].stamp >= 1 {
        assert StampAt(ws[0].db, IntentSite(k)).Some?;
      }
    } else {
      NothingMissedNothingTwice(cfg, a, ws, rs, ms, ts, n - 1);
      var i := n - 1;
      assert ts[i] <= ts[i + 1] && ReceiverStep(cfg, a, ws[i], rs[i], ms[i], ts[i + 1], ws[i + 1], rs[i + 1]);
      match ms[i]
      case Write(op) => WriteKeepsReceived(cfg, ws[i], op, ts[i], ts[n], a, rs[i].since, rs[i].log);
      case Poll(limit, page, more) => PollKeepsReceived(ws[i].db, a, ts[i], ts[n], rs[i].since, rs[i].log, limit,
          page, more);
    }
  }

  /** A receiver that polls until nothing more is reported has every unexpired event. */
  lemma CaughtUp(db: Db, a: Account, before: int, now: int, since: nat, log: seq<IntentRecord>, limit: nat,
                 page: seq<IntentKey>)
    requires OneLine(db) && Received(db, a, before, since, log) && before <= now && limit >= 1
    requires IsPage(IntentsAbove(db, a, since, now), limit, page, false)
    ensures forall k :: k in CurrentIntents(db, a, now) ==>
        IntentRecord(k.id, db.intents[k]) in log + IntentRecords(db, page)
  {
    var c := IntentsAbove(db, a, since, now);
    PageInOrder(db, a, now, since, limit, page, false);
    forall k | k in CurrentIntents(db, a, now)
      ensures IntentRecord(k.id, db.intents[k]) in log + IntentRecords(db, page)
    {
      assert k !in c ==> db.intents[k].stamp <= since;
    }
  }

  /** An accepted batch leaves no expired event of its account behind, the server-wide prune none at
      all; and neither touches an event that is still due. */
  lemma PrunesExactly(db: Db, a: Account, es: seq<IntentInput>, now: int)
    ensures var db' := InsertIntents(db, a, es, now).db;
      && (forall k :: k in db'.intents && k.account == a ==> db'.intents[k].expiresAt > now)
      && (forall k :: k in db.intents && (k.account != a || db.intents[k].expiresAt > now) ==>
          k in db'.intents && db'.intents[k] == db.intents[k])
    ensures forall k :: k in PruneAll(db, now).intents <==> k in db.intents && db.intents[k].expiresAt > now
  {
    forall k | k in db.intents
      ensures k in InsertEvents(db, a, es, now).db.intents &&
          InsertEvents(db, a, es, now).db.intents[k] == db.intents[k]
    {
      NeverReplaced(db, a, es, now, k);
    }
  }

  /** Inserting never touches an event that is already there. */
  lemma {:induction false} NeverReplaced(db: Db, a: Account, es: seq<IntentInput>, now: int, k: IntentKey)
    requires k in db.intents
    ensures var db' := InsertEvents(db, a, es, now).db; k in db'.intents && db'.intents[k] == db.intents[k]
    decreases |es|
  {
    if es == [] {
    } else {
      NeverReplaced(db, a, es[..|es| - 1], now, k);
    }
  }

  // ---------- What a stored event contains ----------

  /** The first event of the batch with this id. */
  predicate FirstWith(es: seq<IntentInput>, id: EventId, i: nat) {
    i < |es| && es[i].id == id && forall j :: 0 <= j < i ==> es[j].id != id
  }

  /** A new event is stored as it was sent, by the first of the batch that has its id, at this instant. */
  lemma {:induction false} FirstWins(db: Db, a: Account, es: seq<IntentInput>, now: int, id: EventId, i: nat)
    requires IntentKey(a, id) !in db.intents && FirstWith(es, id, i)
    ensures var db' := InsertEvents(db, a, es, now).db; var k := IntentKey(a, id);
      && k in db'.intents && db'.intents[k].envelope == es[i].envelope
      && db'.intents[k].expiresAt == es[i].expiresAt && db'.intents[k].mtime == now
    decreases |es|
  {
    var n := |es| - 1;
    if i == n {
      NotYet(db, a, es[..n], now, IntentKey(a, id));
    } else {
      FirstWins(db, a, es[..n], now, id, i);
    }
  }

  /** An event no element of the batch names does not appear. */
  lemma {:induction false} NotYet(db: Db, a: Account, es: seq<IntentInput>, now: int, k: IntentKey)
    requires k !in db.intents && (k.account != a || forall j :: 0 <= j < |es| ==> es[j].id != k.id)
    ensures k !in InsertEvents(db, a, es, now).db.intents
    decreases |es|
  {
    if es == [] {
    } else {
      NotYet(db, a, es[..|es| - 1], now, k);
    }
  }

  /** The whole transaction: a new event that is due is stored as sent; one that is not is pruned. */
  lemma StoredAsSent(db: Db, a: Account, es: seq<IntentInput>, now: int, id: EventId, i: nat)
    requires IntentKey(a, id) !in db.intents && FirstWith(es, id, i)
    ensures var db' := InsertIntents(db, a, es, now).db; var k := IntentKey(a, id);
      && (k in db'.intents <==> es[i].expiresAt > now)
      && (k in db'.intents ==>
            && db'.intents[k].envelope == es[i].envelope && db'.intents[k].expiresAt == es[i].expiresAt
            && db'.intents[k].mtime == now)
  {
    FirstWins(db, a, es, now, id, i);
  }

  // ---------- What a receiver gets ----------

  /** A poll delivers nothing but unexpired events of the account, as stored, above the cursor. */
  lemma DeliversCurrent(db: Db, a: Account, since: nat, limit: nat, page: seq<IntentKey>, more: bool, now: int,
                        r: IntentRecord)
    requires IsPage(IntentsAbove(db, a, since, now), limit, page, more) && r in IntentRecords(db, page)
    ensures IntentKey(a, r.id) in db.intents && db.intents[IntentKey(a, r.id)] == r.event
    ensures r.event.expiresAt > now && r.event.stamp > since
  {
    var i :| 0 <= i < |page| && IntentRecords(db, page)[i] == r;
    assert page[i] in IntentsAbove(db, a, since, now);
    assert page[i] == IntentKey(a, page[i].id);
  }

  /** A stored event stays as it is until it expires. */
  lemma {:induction false} EventStays(cfg: Config, a: Account, ws: seq<World>, rs: seq<Receiver>, ms: seq<Move>,
                                      ts: seq<int>,
                                      m: nat, n: nat, k: IntentKey)
    requires |ws| == |rs| == |ts| == |ms| + 1 && m <= n <= |ms| && OneLine(ws[m].db)
    requires forall i, j :: 0 <= i <= j < |ts| ==> ts[i] <= ts[j]
    requires forall i {:trigger ms[i]} :: 0 <= i < |ms| ==>
        ReceiverStep(cfg, a, ws[i], rs[i], ms[i], ts[i + 1], ws[i + 1], rs[i + 1])
    requires k.account == a && k in ws[m].db.intents && ws[m].db.intents[k].expiresAt > ts[n]
    ensures OneLine(ws[n].db) && k in ws[n].db.intents && ws[n].db.intents[k] == ws[m].db.intents[k]
    decreases n
  {
    if n == m {
    } else {
      EventStays(cfg, a, ws, rs, ms, ts, m, n - 1, k);
      NextKeeps(cfg, a, ws[n - 1], rs[n - 1], ms[n - 1], ts[n], ws[n], rs[n], k);
      assert ReceiverStep(cfg, a, ws[n - 1], rs[n - 1], ms[n - 1], ts[n - 1 + 1], ws[n - 1 + 1], rs[n - 1 + 1]);
    }
  }

  lemma NextKeeps(cfg: Config, a: Account, w: World, r: Receiver, m: Move, now: int, w': World, r': Receiver,
                  k: IntentKey)
    requires OneLine(w.db) && k.account == a && k in w.db.intents && w.db.intents[k].expiresAt > now
    ensures ReceiverStep(cfg, a, w, r, m, now, w', r') ==>
              OneLine(w'.db) && k in w'.db.intents && w'.db.intents[k] == w.db.intents[k]
  {
    if m.Write? && m.op != DeleteAccount(a) {
      StepLine(cfg, w, m.op, now, a);
    }
  }

  /** End to end: an event that was new when its batch was accepted reaches the receiver with the bytes
      that were sent, by the time a poll reports no more, unless it has expired by then. */
  lemma SentIsReceived(cfg: Config, a: Account, ws: seq<World>, rs: seq<Receiver>, ms: seq<Move>, ts: seq<int>,
                       j: nat, n: nat,
                       es: seq<IntentInput>, id: EventId, i: nat)
    requires |ws| == |rs| == |ts| == |ms| + 1 && j < n < |ms|
    requires OneLine(ws[0].db) && rs[0] == Receiver(0, [])
    requires forall x, y :: 0 <= x <= y < |ts| ==> ts[x] <= ts[y]
    requires forall x {:trigger ms[x]} :: 0 <= x < |ms| ==>
        ReceiverStep(cfg, a, ws[x], rs[x], ms[x], ts[x + 1], ws[x + 1], rs[x + 1])
    requires ms[j] == Write(SendIntents(a, es)) && Serve(cfg, ws[j], SendIntents(a, es), ts[j + 1]).1.Written?
    requires IntentKey(a, id) !in ws[j].db.intents && FirstWith(es, id, i) && es[i].expiresAt > ts[n + 1]
    requires ms[n].Poll? && !ms[n].more
    ensures exists event :: IntentRecord(id, event) in rs[n + 1].log && event.envelope == es[i].envelope &&
                            event.expiresAt == es[i].expiresAt
  {
    var k := IntentKey(a, id);
    SentIsStored(cfg, a, ws[j], ws[j + 1], ts[j + 1], es, id, i);
    assert ReceiverStep(cfg, a, ws[j], rs[j], ms[j], ts[j + 1], ws[j + 1], rs[j + 1]);
    NothingMissedNothingTwice(cfg, a, ws, rs, ms, ts, j + 1);
    EventStays(cfg, a, ws, rs, ms, ts, j + 1, n, k);
    NothingMissedNothingTwice(cfg, a, ws, rs, ms, ts, n);
    assert ReceiverStep(cfg, a, ws[n], rs[n], ms[n], ts[n + 1], ws[n + 1], rs[n + 1]);
    CaughtUp(ws[n].db, a, ts[n], ts[n + 1], rs[n].since, rs[n].log, ms[n].limit, ms[n].page);
    assert k in CurrentIntents(ws[n].db, a, ts[n + 1]);
    assert IntentRecord(id, ws[n].db.intents[k]) in rs[n + 1].log;
  }

  lemma SentIsStored(cfg: Config, a: Account, w: World, w': World, now: int, es: seq<IntentInput>, id: EventId, i: nat)
    requires w' == Apply(cfg, w, SendIntents(a, es), now) && Serve(cfg, w, SendIntents(a, es), now).1.Written?
    requires IntentKey(a, id) !in w.db.intents && FirstWith(es, id, i) && es[i].expiresAt > now
    ensures var k := IntentKey(a, id);
      k in w'.db.intents && w'.db.intents[k].envelope == es[i].envelope && w'.db.intents[k].expiresAt == es[i].expiresAt
  {
    StoredAsSent(w.db, a, es, now, id, i);
  }
}
