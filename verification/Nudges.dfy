/** Live nudges. A stream is told the account's latest seq when it connects and again after every
    content write, so it always knows about everything a reader could drain, except what a client
    chose to write silently. */
module Nudges {
  import opened Collections
  import opened Model
  import opened Tables
  import opened Vault
  import opened SeqLine
  import opened Staging
  import opened Hub

  /** The running process: the vault, its registry and streams, and the next connection id. */
  datatype Process = Process(world: World, net: Net, nextId: nat)

  datatype Caps = Caps(perAccount: nat, inAll: nat)

  datatype Event =
    | Request(op: Op, now: int)
    | Connect(account: Account, credential: Option<CredentialId>)
    | Cleanup(account: Account, sub: Subscriber)
    | Heartbeat(account: Account, sub: Subscriber)
    | Hangup(sub: Subscriber)
    | Fault(sub: Subscriber)
    | RevokeCredential(revoked: CredentialId, now: int)
    | RotateKey(account: Account, revokeDevices: bool, now: int)
    | Enroll(issued: CredentialId, account: Account, device: DeviceId, now: int)

  // ---------- The emit decisions ----------

  /** The nudge a handler emits after its write, if any, and for which account. */
  function NudgeOf(op: Op, reply: Reply): Option<(Account, Nudge)> {
    match op
    case SyncBatch(a, app, _, notify) =>
      if notify && reply.Written? && reply.maxSeq > 0 then Some((a, Nudge(reply.maxSeq, SyncApp(app)))) else None
    case DeleteRow(a, app, _, _) =>
      if reply.Deleted? && !reply.already then Some((a, Nudge(reply.at, SyncApp(app)))) else None
    case SendIntents(a, _) =>
      if reply.Written? && reply.maxSeq > 0 then Some((a, Nudge(reply.maxSeq, IntentsFeed))) else None
    case _ => None
  }

  /** What a handler does to the registry and the streams once it has written. */
  function AfterWrite(net: Net, op: Op, reply: Reply): Net {
    var nudge := NudgeOf(op, reply);
    if nudge.Some? then Published(net, nudge.value.0, Subs(net.registry, nudge.value.0), nudge.value.1)
    else if reply.Removed? then Disconnected(net, reply.credentials)
    else net
  }

  // ---------- Connections ----------

  predicate Active(db: Db, c: CredentialId) {
    c in db.credentials && db.credentials[c].revokedAt.None?
  }

  /** A request carrying a credential must carry an active one of the account it names. */
  predicate Authenticated(db: Db, a: Account, credential: Option<CredentialId>) {
    credential.Some? ==> Active(db, credential.value) && db.credentials[credential.value].account == a
  }

  ghost predicate Admits(caps: Caps, net: Net, a: Account) {
    HasRoom(net.registry, Sum(Sizes(net.registry)), a, caps.perAccount, caps.inAll)
  }

  /** Subscribe, then the ready frame with the latest seq, in one turn. */
  function Opened(proc: Process, a: Account, credential: Option<CredentialId>): Process {
    var s := Subscriber(proc.nextId, credential);
    var stream := Stream(false, false, [Ready(Counter(proc.world.db, a))]);
    Process(proc.world, Net(Joined(proc.net.registry, a, s), proc.net.streams[s := stream]), proc.nextId + 1)
  }

  function Unsubscribed(net: Net, a: Account, s: Subscriber): Net {
    net.(registry := Without(net.registry, a, {s}))
  }

  /** A tick cleans up after a stream that ended or throws, and ends one whose credential is no
      longer active. */
  function Ticked(proc: Process, a: Account, s: Subscriber): Net {
    if Live(proc.net.streams, s) && (s.credential.Some? ==> Active(proc.world.db, s.credential.value)) then proc.net
    else Net(Without(proc.net.registry, a, {s}), if Live(proc.net.streams, s) then Closed(proc.net.streams, {s})
        else proc.net.streams)
  }

  ghost function React(cfg: Config, caps: Caps, proc: Process, e: Event): Process {
    match e
    case Request(op, now) =>
      var (w, reply) := Serve(cfg, proc.world, op, now);
      Process(w, AfterWrite(proc.net, op, reply), proc.nextId)
    case Connect(a, credential) =>
      if !Authenticated(proc.world.db, a, credential) then proc
      else if !Admits(caps, proc.net, a) then proc.(nextId := proc.nextId + 1)
      else Opened(proc, a, credential)
    case Cleanup(a, s) => proc.(net := Unsubscribed(proc.net, a, s))
    case Heartbeat(a, s) => proc.(net := Ticked(proc, a, s))
    case Hangup(s) => proc.(net := proc.net.(streams := Closed(proc.net.streams, {s})))
    case Fault(s) => proc.(net := proc.net.(streams := Broken(proc.net.streams, s)))
    case RevokeCredential(c, now) => if Active(proc.world.db, c) then SignedOut(proc, {c}, now) else proc
    case RotateKey(a, revokeDevices, now) =>
      if a in proc.world.db.registry then SignedOut(proc, if revokeDevices then ActiveCredentials(proc.world.db, a)
          else {}, now) else proc
    case Enroll(c, a, d, now) =>
      if c in proc.world.db.credentials then proc
          else proc.(world := proc.world.(db := Issue(proc.world.db, c, a, d, now)))
  }

  /** The credentials are stamped revoked, then the hub disconnects each of them. */
  function SignedOut(proc: Process, cs: set<CredentialId>, now: int): Process {
    Process(proc.world.(db := StampRevoked(proc.world.db, cs, now)), Disconnected(proc.net, cs), proc.nextId)
  }

  function Broken(streams: Streams, s: Subscriber): Streams {
    if s in streams then streams[s := streams[s].(broken := true)] else streams
  }

  ghost predicate Life(cfg: Config, caps: Caps, ps: seq<Process>, events: seq<Event>) {
    && |ps| == |events| + 1
    && OneLine(ps[0].world.db) && ps[0].net == Net(map[], map[])
    && forall i {:trigger events[i]} :: 0 <= i < |events| ==> ps[i + 1] == React(cfg, caps, ps[i], events[i])
  }

  // ---------- The registry and the streams fit together ----------

  /** Ids are handed out once; every registered connection has a stream, under one account only. */
  ghost predicate Wired(proc: Process) {
    && (forall s :: s in proc.net.streams ==> s.id < proc.nextId)
    && (forall a, s :: s in Subs(proc.net.registry, a) ==> s in proc.net.streams)
    && (forall a, b, s :: s in Subs(proc.net.registry, a) && s in Subs(proc.net.registry, b) ==> a == b)
  }

  /** The registry only lost connections and the streams are the same ones. */
  ghost predicate Thinner(net: Net, net': Net) {
    && net'.streams.Keys == net.streams.Keys
    && forall a, s :: s in Subs(net'.registry, a) ==> s in Subs(net.registry, a)
  }

  lemma ReactThins(cfg: Config, caps: Caps, proc: Process, e: Event)
    requires !e.Connect?
    ensures Thinner(proc.net, React(cfg, caps, proc, e).net)
  {
    var net := proc.net;
    if e.Request? {
      var (w, reply) := Serve(cfg, proc.world, e.op, e.now);
      var nudge := NudgeOf(e.op, reply);
      forall a, s | s in Subs(AfterWrite(net, e.op, reply).registry, a) ensures s in Subs(net.registry, a) {
        if nudge.Some? {
          WhoStays(net, nudge.value.0, nudge.value.1, {}, a, s);
        } else if reply.Removed? {
          WhoStays(net, a, Nudge(0, IntentsFeed), reply.credentials, a, s);
        }
      }
    } else if e.RevokeCredential? {
      SignOutThins(proc, {e.revoked}, e.now);
    } else if e.RotateKey? {
      SignOutThins(proc, if e.revokeDevices then ActiveCredentials(proc.world.db, e.account) else {}, e.now);
    }
  }

  lemma SignOutThins(proc: Process, cs: set<CredentialId>, now: int)
    ensures Thinner(proc.net, SignedOut(proc, cs, now).net)
  {
    forall a, s | s in Subs(Disconnected(proc.net, cs).registry, a) ensures s in Subs(proc.net.registry, a) {
      WhoStays(proc.net, a, Nudge(0, IntentsFeed), cs, a, s);
    }
  }

  lemma OpenedWired(proc: Process, a: Account, credential: Option<CredentialId>)
    requires Wired(proc)
    ensures Wired(Opened(proc, a, credential))
  {
    var s, m, proc' := Subscriber(proc.nextId, credential), proc.net.registry, Opened(proc, a, credential);
    assert s !in proc.net.streams;
    forall b, t ensures t in Subs(proc'.net.registry, b) <==> t in Subs(m, b) || (b == a && t == s) {
    }
  }

  lemma ReactWired(cfg: Config, caps: Caps, proc: Process, e: Event)
    requires Wired(proc)
    ensures Wired(React(cfg, caps, proc, e))
  {
    if e.Connect? {
      OpenedWired(proc, e.account, e.credential);
    } else {
      ReactThins(cfg, caps, proc, e);
    }
  }

  // ---------- What a request tells and what it leaves untold ----------

  predicate SilentBatch(op: Op, a: Account) {
    op.SyncBatch? && op.account == a && !op.notify
  }

  /** Every row and event of the account was there before, as it is. */
  ghost predicate NoNews(db: Db, db': Db, a: Account) {
    && (forall k :: k in db'.rows && k.account == a ==> k in db.rows && db'.rows[k] == db.rows[k])
    && (forall k :: k in db'.intents && k.account == a ==> k in db.intents && db'.intents[k] == db.intents[k])
  }

  /** A log that evolved without its counter moving brought no news. */
  lemma StillCounter(db: Db, db': Db, a: Account, now: int)
    requires Bounded(db') && Evolves(db, db', a, now) && Counter(db', a) == Counter(db, a)
    ensures NoNews(db, db', a)
  {
    forall k | k in db'.rows && k.account == a ensures k in db.rows && db'.rows[k] == db.rows[k] {
      assert StampAt(db', RowSite(k)) == Some(db'.rows[k].stamp);
    }
    forall k | k in db'.intents && k.account == a ensures k in db.intents && db'.intents[k] == db.intents[k] {
      assert StampAt(db', IntentSite(k)) == Some(db'.intents[k].stamp);
    }
  }

  /** Only the three writing handlers bring news, and only of their own account. */
  lemma OthersBringNone(cfg: Config, w: World, op: Op, now: int, a: Account)
    requires !op.SyncBatch? && !op.DeleteRow? && !op.SendIntents?
    ensures NoNews(w.db, Apply(cfg, w, op, now).db, a)
  {
    match op
    case Finalize(b, u) => FinalizeShape(cfg, w, b, u, now);
    case ReleaseRef(b, h) => ReleaseShape(w.db, b, h, now);
    case _ =>
  }

  /** A request that brings news of the account publishes its new latest seq, unless it is a batch
      marked silent. */
  lemma NewsIsPublished(cfg: Config, w: World, op: Op, now: int, a: Account)
    requires OneLine(w.db) && op != DeleteAccount(a)
    ensures var (w', reply) := Serve(cfg, w, op, now); var nudge := NudgeOf(op, reply);
      && (nudge.Some? && nudge.value.0 == a ==> nudge.value.1.latest == Counter(w'.db, a))
      && ((nudge.Some? && nudge.value.0 == a) || SilentBatch(op, a) || NoNews(w.db, w'.db, a))
  {
    match op
    case SyncBatch(b, app, rows, _) => BatchNews(cfg, w, app, b, rows, now, a);
    case DeleteRow(b, app, id, deletedAt) => DeletionNews(w, app, b, id, deletedAt, now, a);
    case SendIntents(b, events) => IntentNews(cfg, w, b, events, now, a);
    case _ => OthersBringNone(cfg, w, op, now, a);
  }

  lemma BatchNews(cfg: Config, w: World, app: App, b: Account, rs: seq<SyncInput>, now: int, a: Account)
    requires OneLine(w.db)
    ensures var (w', reply) := DoSyncBatch(cfg, w, app, b, rs, now);
      if a == b && reply.Written? && reply.maxSeq > 0 then reply.maxSeq == Counter(w'.db, a) else NoNews(w.db, w'.db, a)
  {
    BatchLine(w.db, app, b, rs, now, a);
    var db' := UpsertBatch(w.db, app, b, rs, now).db;
    if Counter(db', a) == Counter(w.db, a) {
      StillCounter(w.db, db', a, now);
    }
  }

  lemma DeletionNews(w: World, app: App, b: Account, id: EntityId, deletedAt: Option<int>, now: int, a: Account)
    requires OneLine(w.db)
    ensures var (w', reply) := DoDeleteRow(w, app, b, id, deletedAt, now);
      if a == b && reply.Deleted? && !reply.already then reply.at == Counter(w'.db, a) else NoNews(w.db, w'.db, a)
  {
    SoftDeleteLine(w.db, app, b, id, deletedAt, now, a);
    SoftDeleteLine(w.db, app, b, id, deletedAt, now, b);
  }

  lemma IntentNews(cfg: Config, w: World, b: Account, es: seq<IntentInput>, now: int, a: Account)
    requires OneLine(w.db)
    ensures var (w', reply) := DoSendIntents(cfg, w, b, es, now);
      if a == b && reply.Written? && reply.maxSeq > 0 then reply.maxSeq == Counter(w'.db, a) else NoNews(w.db, w'.db, a)
  {
    IntentsLine(w.db, b, es, now, a);
    var db' := InsertIntents(w.db, b, es, now).db;
    if Counter(db', a) == Counter(w.db, a) {
      StillCounter(w.db, db', a, now);
    }
  }

  // ---------- Coverage ----------

  function Told(f: Frame): nat {
    match f
    case Ready(latest) => latest
    case Activity(nudge) => nudge.latest
  }

  /** Some frame of the stream named a seq this high. */
  ghost predicate Knows(frames: seq<Frame>, v: nat) {
    exists i :: 0 <= i < |frames| && Told(frames[i]) >= v
  }

  /** Seq v of the account was consumed by a batch marked `notify: false`. */
  ghost predicate Silently(ps: seq<Process>, events: seq<Event>, n: nat, a: Account, v: nat)
    requires |ps| == |events| + 1
  {
    exists i :: 0 <= i < n && i < |events| && events[i].Request? && SilentBatch(events[i].op, a)
                && Counter(ps[i].world.db, a) < v <= Counter(ps[i + 1].world.db, a)
  }

  ghost predicate Accounted(ps: seq<Process>, events: seq<Event>, n: nat, a: Account, frames: seq<Frame>, v: nat)
    requires |ps| == |events| + 1
  {
    Knows(frames, v) || Silently(ps, events, n, a, v)
  }

  /** The stream was told no seq the account has not reached, and every row and event above all it
      was told was written silently. */
  ghost predicate Covered(ps: seq<Process>, events: seq<Event>, n: nat, db: Db, a: Account, frames: seq<Frame>)
    requires |ps| == |events| + 1
  {
    && (forall i :: 0 <= i < |frames| ==> Told(frames[i]) <= Counter(db, a))
    && (forall k :: k in db.rows && k.account == a ==> Accounted(ps, events, n, a, frames, db.rows[k].stamp))
    && (forall k :: k in db.intents && k.account == a ==> Accounted(ps, events, n, a, frames, db.intents[k].stamp))
  }

  lemma ToldLatest(ps: seq<Process>, events: seq<Event>, n: nat, db: Db, a: Account, frames: seq<Frame>)
    requires |ps| == |events| + 1 && Bounded(db) && frames != []
    requires Told(frames[|frames| - 1]) == Counter(db, a) && forall i :: 0 <= i < |frames| ==>
        Told(frames[i]) <= Counter(db, a)
    ensures Covered(ps, events, n, db, a, frames)
  {
    var last := |frames| - 1;
    forall k | k in db.rows && k.account == a ensures Knows(frames, db.rows[k].stamp) {
      assert StampAt(db, RowSite(k)) == Some(db.rows[k].stamp);
      assert Told(frames[last]) >= db.rows[k].stamp;
    }
    forall k | k in db.intents && k.account == a ensures Knows(frames, db.intents[k].stamp) {
      assert StampAt(db, IntentSite(k)) == Some(db.intents[k].stamp);
      assert Told(frames[last]) >= db.intents[k].stamp;
    }
  }

  lemma StaysAccounted(ps: seq<Process>, events: seq<Event>, n: nat, a: Account, frames: seq<Frame>, v: nat)
    requires |ps| == |events| + 1 && Accounted(ps, events, n, a, frames, v)
    ensures Accounted(ps, events, n + 1, a, frames, v)
  {
  }

  /** Without news for the account, or with silent news only, an unchanged stream stays covered. */
  lemma StaysCovered(ps: seq<Process>, events: seq<Event>, n: nat, a: Account, frames: seq<Frame>, now: int)
    requires |ps| == |events| + 1 && n < |events|
    requires var db, db' := ps[n].world.db, ps[n + 1].world.db;
      && Covered(ps, events, n, db, a, frames)
      && Counter(db, a) <= Counter(db', a)
      && (NoNews(db, db', a) || (events[n].Request? && SilentBatch(events[n].op, a) && Bounded(db') &&
          Evolves(db, db', a, now)))
    ensures Covered(ps, events, n + 1, ps[n + 1].world.db, a, frames)
  {
    var db, db' := ps[n].world.db, ps[n + 1].world.db;
    forall k | k in db'.rows && k.account == a ensures Accounted(ps, events, n + 1, a, frames, db'.rows[k].stamp) {
      if k in db.rows && db'.rows[k] == db.rows[k] {
        StaysAccounted(ps, events, n, a, frames, db.rows[k].stamp);
      } else {
        assert StampAt(db', RowSite(k)) == Some(db'.rows[k].stamp);
        assert Silently(ps, events, n + 1, a, db'.rows[k].stamp);
      }
    }
    forall k | k in db'.intents && k.account == a
      ensures Accounted(ps, events, n + 1, a, frames, db'.intents[k].stamp)
    {
      if k in db.intents && db'.intents[k] == db.intents[k] {
        StaysAccounted(ps, events, n, a, frames, db.intents[k].stamp);
      } else {
        assert StampAt(db', IntentSite(k)) == Some(db'.intents[k].stamp);
        assert Silently(ps, events, n + 1, a, db'.intents[k].stamp);
      }
    }
  }

  // ---------- Every run ----------

  /** The events that leave the tables of the log alone leave every frame alone too. */
  lemma FramesStay(cfg: Config, caps: Caps, proc: Process, e: Event, a: Account, s: Subscriber)
    requires Wired(proc) && s in Subs(proc.net.registry, a)
    requires e.Request? ==>
               var nudge := NudgeOf(e.op, Serve(cfg, proc.world, e.op, e.now).1); nudge.Some? ==> nudge.value.0 != a
    ensures var net' := React(cfg, caps, proc, e).net;
      s in proc.net.streams && s in net'.streams && net'.streams[s].frames == proc.net.streams[s].frames
  {
    if e.Request? {
      var nudge := NudgeOf(e.op, Serve(cfg, proc.world, e.op, e.now).1);
      assert nudge.Some? ==> s !in Subs(proc.net.registry, nudge.value.0);
    }
  }

  /** A published nudge is the last frame of every connection that is still registered. */
  lemma HearsNudge(net: Net, a: Account, nudge: Nudge, s: Subscriber)
    requires s in Subs(Published(net, a, Subs(net.registry, a), nudge).registry, a)
    ensures s in Subs(net.registry, a) && s in net.streams
    ensures var net' := Published(net, a, Subs(net.registry, a), nudge);
      s in net'.streams && net'.streams[s].frames == net.streams[s].frames + [Activity(nudge)]
  {
    WhoStays(net, a, nudge, {}, a, s);
  }

  ghost predicate AllCovered(ps: seq<Process>, events: seq<Event>, n: nat, a: Account)
    requires |ps| == |events| + 1 && n <= |events|
  {
    forall s :: s in Subs(ps[n].net.registry, a) ==>
      s in ps[n].net.streams && Covered(ps, events, n, ps[n].world.db, a, ps[n].net.streams[s].frames)
  }

  lemma RequestCovered(cfg: Config, caps: Caps, ps: seq<Process>, events: seq<Event>, n: nat, a: Account, s: Subscriber)
    requires |ps| == |events| + 1 && n < |events| && ps[n + 1] == React(cfg, caps, ps[n], events[n])
    requires OneLine(ps[n].world.db) && Wired(ps[n]) && !(events[n].Request? && events[n].op == DeleteAccount(a))
    requires s in Subs(ps[n + 1].net.registry, a)
    requires AllCovered(ps, events, n, a)
    requires events[n].Request?
    ensures s in ps[n + 1].net.streams && Covered(ps, events, n + 1, ps[n + 1].world.db, a,
        ps[n + 1].net.streams[s].frames)
  {
    var proc, proc', e := ps[n], ps[n + 1], events[n];
    StepLine(cfg, proc.world, e.op, e.now, a);
    NewsIsPublished(cfg, proc.world, e.op, e.now, a);
    var nudge := NudgeOf(e.op, Serve(cfg, proc.world, e.op, e.now).1);
    if nudge.Some? && nudge.value.0 == a {
      HearsNudge(proc.net, a, nudge.value.1, s);
      ToldLatest(ps, events, n + 1, proc'.world.db, a, proc'.net.streams[s].frames);
    } else {
      ReactThins(cfg, caps, proc, e);
      FramesStay(cfg, caps, proc, e, a, s);
      StaysCovered(ps, events, n, a, proc.net.streams[s].frames, e.now);
    }
  }

  /** Besides requests, events change no table but the credentials. */
  lemma OnlyCredentials(cfg: Config, caps: Caps, proc: Process, e: Event)
    requires !e.Request?
    ensures var db' := React(cfg, caps, proc, e).world.db; db' == proc.world.db.(credentials := db'.credentials)
  {
  }

  lemma JustOpened(cfg: Config, caps: Caps, proc: Process, e: Event, a: Account, s: Subscriber)
    requires e.Connect? && s in Subs(React(cfg, caps, proc, e).net.registry, a) && s !in Subs(proc.net.registry, a)
    ensures var proc' := React(cfg, caps, proc, e);
      s in proc'.net.streams && proc'.net.streams[s].frames == [Ready(Counter(proc'.world.db, a))]
  {
  }

  lemma QuietCovered(cfg: Config, caps: Caps, ps: seq<Process>, events: seq<Event>, n: nat, a: Account, s: Subscriber)
    requires |ps| == |events| + 1 && n < |events| && ps[n + 1] == React(cfg, caps, ps[n], events[n])
    requires OneLine(ps[n].world.db) && Wired(ps[n]) && !(events[n].Request? && events[n].op == DeleteAccount(a))
    requires s in Subs(ps[n + 1].net.registry, a)
    requires AllCovered(ps, events, n, a)
    requires !events[n].Request? && s in Subs(ps[n].net.registry, a)
    ensures s in ps[n + 1].net.streams && Covered(ps, events, n + 1, ps[n + 1].world.db, a,
        ps[n + 1].net.streams[s].frames)
  {
    OnlyCredentials(cfg, caps, ps[n], events[n]);
    FramesStay(cfg, caps, ps[n], events[n], a, s);
    StaysCovered(ps, events, n, a, ps[n].net.streams[s].frames, 0);
  }

  lemma OpenedCovered(cfg: Config, caps: Caps, ps: seq<Process>, events: seq<Event>, n: nat, a: Account, s: Subscriber)
    requires |ps| == |events| + 1 && n < |events| && ps[n + 1] == React(cfg, caps, ps[n], events[n])
    requires OneLine(ps[n].world.db) && Wired(ps[n]) && !(events[n].Request? && events[n].op == DeleteAccount(a))
    requires s in Subs(ps[n + 1].net.registry, a)
    requires events[n].Connect? && s !in Subs(ps[n].net.registry, a)
    ensures s in ps[n + 1].net.streams && Covered(ps, events, n + 1, ps[n + 1].world.db, a,
        ps[n + 1].net.streams[s].frames)
  {
    JustOpened(cfg, caps, ps[n], events[n], a, s);
    ToldLatest(ps, events, n + 1, ps[n + 1].world.db, a, ps[n + 1].net.streams[s].frames);
  }

  lemma ProcessLine(cfg: Config, caps: Caps, proc: Process, e: Event)
    requires OneLine(proc.world.db)
    ensures OneLine(React(cfg, caps, proc, e).world.db)
  {
    var a: Account := *;
    if e.Request? {
      StepLine(cfg, proc.world, e.op, e.now, a);
    } else {
      OnlyCredentials(cfg, caps, proc, e);
      Quiet(proc.world.db, React(cfg, caps, proc, e).world.db, 0, a);
    }
  }

  lemma NextCovered(cfg: Config, caps: Caps, ps: seq<Process>, events: seq<Event>, n: nat, a: Account)
    requires |ps| == |events| + 1 && n < |events| && ps[n + 1] == React(cfg, caps, ps[n], events[n])
    requires OneLine(ps[n].world.db) && Wired(ps[n]) && !(events[n].Request? && events[n].op == DeleteAccount(a))
    requires AllCovered(ps, events, n, a)
    ensures AllCovered(ps, events, n + 1, a)
  {
    var m := n + 1;
    forall s | s in Subs(ps[m].net.registry, a)
      ensures s in ps[m].net.streams && Covered(ps, events, m, ps[m].world.db, a, ps[m].net.streams[s].frames)
    {
      SubCovered(cfg, caps, ps, events, n, a, s);
    }
  }

  lemma SubCovered(cfg: Config, caps: Caps, ps: seq<Process>, events: seq<Event>, n: nat, a: Account, s: Subscriber)
    requires |ps| == |events| + 1 && n < |events| && ps[n + 1] == React(cfg, caps, ps[n], events[n])
    requires OneLine(ps[n].world.db) && Wired(ps[n]) && !(events[n].Request? && events[n].op == DeleteAccount(a))
    requires s in Subs(ps[n + 1].net.registry, a) && AllCovered(ps, events, n, a)
    ensures s in ps[n + 1].net.streams
    ensures Covered(ps, events, n + 1, ps[n + 1].world.db, a, ps[n + 1].net.streams[s].frames)
  {
    if events[n].Request? {
      RequestCovered(cfg, caps, ps, events, n, a, s);
    } else if s in Subs(ps[n].net.registry, a) {
      QuietCovered(cfg, caps, ps, events, n, a, s);
    } else if events[n].Connect? {
      OpenedCovered(cfg, caps, ps, events, n, a, s);
    } else {
      ReactThins(cfg, caps, ps[n], events[n]);
    }
  }

  /** Nudge coverage: in every run, for every registered stream, any row or intent of its account
      whose seq exceeds everything the stream was told was written by a batch marked silent, and
      the stream was told no seq the account has not reached. */
  lemma {:induction false} StreamsAreCovered(cfg: Config, caps: Caps, ps: seq<Process>, events: seq<Event>, n: nat,
                                             a: Account)
    requires Life(cfg, caps, ps, events) && n <= |events|
    requires forall i :: 0 <= i < |events| ==> !(events[i].Request? && events[i].op == DeleteAccount(a))
    ensures OneLine(ps[n].world.db) && Wired(ps[n]) && AllCovered(ps, events, n, a)
  {
    if n == 0 {
    } else {
      StreamsAreCovered(cfg, caps, ps, events, n - 1, a);
      NextStep(cfg, caps, ps, events, n - 1, a);
    }
  }

  lemma NextStep(cfg: Config, caps: Caps, ps: seq<Process>, events: seq<Event>, n: nat, a: Account)
    requires Life(cfg, caps, ps, events) && n < |events| && !(events[n].Request? && events[n].op == DeleteAccount(a))
    requires OneLine(ps[n].world.db) && Wired(ps[n]) && AllCovered(ps, events, n, a)
    ensures OneLine(ps[n + 1].world.db) && Wired(ps[n + 1]) && AllCovered(ps, events, n + 1, a)
  {
    assert ps[n + 1] == React(cfg, caps, ps[n], events[n]);
    ProcessLine(cfg, caps, ps[n], events[n]);
    ReactWired(cfg, caps, ps[n], events[n]);
    NextCovered(cfg, caps, ps, events, n, a);
  }

  // ---------- Revocation ----------

  lemma CredentialsStay(cfg: Config, w: World, op: Op, now: int)
    requires !op.DeleteAccount?
    ensures Apply(cfg, w, op, now).db.credentials == w.db.credentials
  {
    match op
    case SyncBatch(a, app, rows, _) => BatchLeavesUploads(w.db, app, a, rows, now);
    case SendIntents(a, events) => EventsLeaveUploads(w.db, a, events, now);
    case Finalize(a, u) => FinalizeShape(cfg, w, a, u, now);
    case ReleaseRef(a, h) => ReleaseShape(w.db, a, h, now);
    case _ =>
  }

  /** A later credential for the device took over from c, in an enrollment, which does not reach for
      the streams; and the connection has not had a heartbeat since. */
  ghost predicate Lingers(ps: seq<Process>, events: seq<Event>, n: nat, a: Account, s: Subscriber, c: CredentialId)
    requires |ps| == |events| + 1
  {
    exists i :: 0 <= i < n && i < |events| && events[i].Enroll?
      && Active(ps[i].world.db, c) && !Active(ps[i + 1].world.db, c)
      && NoTick(events, i, n, a, s)
  }

  predicate NoTick(events: seq<Event>, i: nat, n: nat, a: Account, s: Subscriber) {
    forall j :: i < j < n && j < |events| ==> events[j] != Heartbeat(a, s)
  }

  ghost predicate Trusted(ps: seq<Process>, events: seq<Event>, n: nat, db: Db, a: Account, s: Subscriber)
    requires |ps| == |events| + 1
  {
    s.credential.Some? ==> Active(db, s.credential.value) || Lingers(ps, events, n, a, s, s.credential.value)
  }

  /** A connection that is still registered was registered before, or is the one just opened; and
      its credential stayed active, or was superseded by this very enrollment. */
  lemma StepTrusted(cfg: Config, caps: Caps, proc: Process, e: Event, a: Account, s: Subscriber)
    requires s in Subs(React(cfg, caps, proc, e).net.registry, a) && s.credential.Some?
    ensures var db, db', c := proc.world.db, React(cfg, caps, proc, e).world.db, s.credential.value;
      && (s in Subs(proc.net.registry, a) || Active(db', c))
      && (Active(db, c) && !Active(db', c) ==> e.Enroll?)
      && (e == Heartbeat(a, s) ==> Active(db', c))
  {
    match e
    case Request(op, now) => RequestTrusted(cfg, caps, proc, op, now, a, s);
    case Connect(b, credential) => OpenedTrusted(cfg, caps, proc, b, credential, a, s);
    case RevokeCredential(c, now) => if Active(proc.world.db, c) { SignOutDrops(proc, {c}, now, a, s); }
    case RotateKey(b, revokeDevices, now) => RotationTrusted(cfg, caps, proc, b, revokeDevices, now, a, s);
    case _ => ReactThins(cfg, caps, proc, e);
  }

  lemma OpenedTrusted(cfg: Config, caps: Caps, proc: Process, b: Account, credential: Option<CredentialId>,
                      a: Account, s: Subscriber)
    requires s in Subs(React(cfg, caps, proc, Connect(b, credential)).net.registry, a) && s.credential.Some?
    ensures s in Subs(proc.net.registry, a) || Active(proc.world.db, s.credential.value)
  {
  }

  lemma RotationTrusted(cfg: Config, caps: Caps, proc: Process, b: Account, revokeDevices: bool, now: int, a: Account,
                        s: Subscriber)
    requires s in Subs(React(cfg, caps, proc, RotateKey(b, revokeDevices, now)).net.registry, a) && s.credential.Some?
    ensures s in Subs(proc.net.registry, a)
    ensures Active(React(cfg, caps, proc, RotateKey(b, revokeDevices, now)).world.db, s.credential.value) <==>
        Active(proc.world.db, s.credential.value)
  {
    if b in proc.world.db.registry {
      SignOutDrops(proc, if revokeDevices then ActiveCredentials(proc.world.db, b) else {}, now, a, s);
    }
  }

  lemma RequestTrusted(cfg: Config, caps: Caps, proc: Process, op: Op, now: int, a: Account, s: Subscriber)
    requires s in Subs(React(cfg, caps, proc, Request(op, now)).net.registry, a) && s.credential.Some?
    ensures s in Subs(proc.net.registry, a)
    ensures Active(Apply(cfg, proc.world, op, now).db, s.credential.value) <==>
        Active(proc.world.db, s.credential.value)
  {
    if op.DeleteAccount? {
      DeletionSignsOut(cfg, proc, op.account, a, s);
    } else {
      CredentialsStay(cfg, proc.world, op, now);
      ReactThins(cfg, caps, proc, Request(op, now));
    }
  }

  lemma SignOutDrops(proc: Process, cs: set<CredentialId>, now: int, a: Account, s: Subscriber)
    requires s in Subs(SignedOut(proc, cs, now).net.registry, a) && s.credential.Some?
    ensures s in Subs(proc.net.registry, a)
    ensures Active(SignedOut(proc, cs, now).world.db, s.credential.value) <==> Active(proc.world.db, s.credential.value)
  {
    WhoStays(proc.net, a, Nudge(0, IntentsFeed), cs, a, s);
  }

  lemma DeletionSignsOut(cfg: Config, proc: Process, b: Account, a: Account, s: Subscriber)
    requires var (w, reply) := DoDeleteAccount(proc.world, b);
        s in Subs(AfterWrite(proc.net, DeleteAccount(b), reply).registry, a)
    requires s.credential.Some?
    ensures s in Subs(proc.net.registry, a)
    ensures Active(DoDeleteAccount(proc.world, b).0.db, s.credential.value) <==>
        Active(proc.world.db, s.credential.value)
  {
    WhoStays(proc.net, a, Nudge(0, IntentsFeed), ActiveCredentials(proc.world.db, b), a, s);
  }

  /** Revocation reaches live streams: in every run a registered stream's credential is active,
      unless a re-enrollment of its device superseded it and the stream has not had a heartbeat
      since. Revoking, rotating with sign-out and deleting the account leave no such stream. */
  lemma {:induction false} OnlySupersededLinger(cfg: Config, caps: Caps, ps: seq<Process>, events: seq<Event>, n: nat,
                                                a: Account, s: Subscriber)
    requires Life(cfg, caps, ps, events) && n <= |events| && s in Subs(ps[n].net.registry, a)
    ensures Trusted(ps, events, n, ps[n].world.db, a, s)
  {
    if n == 0 || s.credential.None? {
    } else {
      var before, after, c := ps[n - 1].world.db, ps[n].world.db, s.credential.value;
      assert ps[n - 1 + 1] == React(cfg, caps, ps[n - 1], events[n - 1]);
      StepTrusted(cfg, caps, ps[n - 1], events[n - 1], a, s);
      if s in Subs(ps[n - 1].net.registry, a) && !Active(after, c) {
        OnlySupersededLinger(cfg, caps, ps, events, n - 1, a, s);
        LingersOn(ps, events, n - 1, a, s, c);
      }
    }
  }

  lemma LingersOn(ps: seq<Process>, events: seq<Event>, n: nat, a: Account, s: Subscriber, c: CredentialId)
    requires |ps| == |events| + 1 && n < |events|
    requires Active(ps[n].world.db, c) || Lingers(ps, events, n, a, s, c)
    requires !Active(ps[n + 1].world.db, c) && events[n] != Heartbeat(a, s)
    requires Active(ps[n].world.db, c) ==> events[n].Enroll?
    ensures Lingers(ps, events, n + 1, a, s, c)
  {
    if Active(ps[n].world.db, c) {
      assert NoTick(events, n, n + 1, a, s);
    } else {
      var i :| 0 <= i < n && i < |events| && events[i].Enroll? && Active(ps[i].world.db, c) &&
          !Active(ps[i + 1].world.db, c) && NoTick(events, i, n, a, s);
      assert NoTick(events, i, n + 1, a, s);
    }
  }

  /** The credential was not issued again once it had been active. */
  ghost predicate NotReissued(ps: seq<Process>, events: seq<Event>, n: nat, c: CredentialId)
    requires |ps| == |events| + 1
  {
    forall i, j {:trigger ps[i], events[j]} :: 0 <= i <= j < n && j < |events| && Active(ps[i].world.db, c) ==>
      !(events[j].Enroll? && events[j].issued == c)
  }

  /** Only issuing a credential makes it active. */
  lemma StaysInactive(cfg: Config, caps: Caps, proc: Process, e: Event, c: CredentialId)
    requires !Active(proc.world.db, c) && !(e.Enroll? && e.issued == c)
    ensures !Active(React(cfg, caps, proc, e).world.db, c)
  {
    match e
    case Request(op, now) =>
      if !op.DeleteAccount? {
        CredentialsStay(cfg, proc.world, op, now);
      }
    case _ =>
  }

  /** Once inactive a credential that is not issued again stays inactive. */
  lemma {:induction false} InactiveFrom(cfg: Config, caps: Caps, ps: seq<Process>, events: seq<Event>, m: nat, n: nat,
                                        c: CredentialId)
    requires Life(cfg, caps, ps, events) && m <= n <= |events| && !Active(ps[m].world.db, c)
    requires forall j :: m <= j < n ==> !(events[j].Enroll? && events[j].issued == c)
    ensures !Active(ps[n].world.db, c)
    decreases n
  {
    if n == m {
    } else {
      InactiveFrom(cfg, caps, ps, events, m, n - 1, c);
      NextInactive(cfg, caps, ps, events, n - 1, c);
    }
  }

  lemma NextInactive(cfg: Config, caps: Caps, ps: seq<Process>, events: seq<Event>, n: nat, c: CredentialId)
    requires Life(cfg, caps, ps, events) && n < |events| && !Active(ps[n].world.db, c)
    requires !(events[n].Enroll? && events[n].issued == c)
    ensures !Active(ps[n + 1].world.db, c)
  {
    assert ps[n + 1] == React(cfg, caps, ps[n], events[n]);
    StaysInactive(cfg, caps, ps[n], events[n], c);
  }

  /** Exactly which streams outlive their credential: those a re-enrollment superseded that have not
      had a heartbeat since. */
  lemma LingerExactly(cfg: Config, caps: Caps, ps: seq<Process>, events: seq<Event>, n: nat, a: Account,
                      s: Subscriber, c: CredentialId)
    requires Life(cfg, caps, ps, events) && n <= |events| && NotReissued(ps, events, n, c)
    requires s in Subs(ps[n].net.registry, a) && s.credential == Some(c)
    ensures !Active(ps[n].world.db, c) <==> Lingers(ps, events, n, a, s, c)
  {
    OnlySupersededLinger(cfg, caps, ps, events, n, a, s);
    forall i | 0 <= i < n && Active(ps[i].world.db, c) && !Active(ps[i + 1].world.db, c)
      ensures !Active(ps[n].world.db, c)
    {
      assert forall j :: i < j < n ==> !(events[j].Enroll? && events[j].issued == c);
      InactiveFrom(cfg, caps, ps, events, i + 1, n, c);
    }
  }

  // ---------- One that lingers ----------

  /** A device enrolls, connects, and enrolls again. */
  function Reenrollment(c: CredentialId, c': CredentialId, a: Account, d: DeviceId): seq<Event> {
    [Enroll(c, a, d, 0), Connect(a, Some(c)), Enroll(c', a, d, 1)]
  }

  const STARTED := Process(EMPTY_WORLD, Net(map[], map[]), 1)

  lemma SupersededLingers(cfg: Config, caps: Caps, c: CredentialId, c': CredentialId, a: Account, d: DeviceId)
                          returns (ps: seq<Process>)
    requires c != c' && caps.perAccount > 0 && caps.inAll > 0
    ensures var events, s := Reenrollment(c, c', a, d), Subscriber(1, Some(c));
      && Life(cfg, caps, ps, events) && ps[0] == STARTED && NotReissued(ps, events, 3, c)
      && s in Subs(ps[3].net.registry, a) && Live(ps[3].net.streams, s) && !Active(ps[3].world.db, c)
  {
    var events := Reenrollment(c, c', a, d);
    var p1 := React(cfg, caps, STARTED, events[0]);
    var p2 := React(cfg, caps, p1, events[1]);
    ps := [STARTED, p1, p2, React(cfg, caps, p2, events[2])];
    EnrollsAndConnects(cfg, caps, c, a, d);
    SupersedesFirst(p2.world.db, c, c', a, d);
    assert forall s :: StampAt(EMPTY_DB, s) == None;
  }

  lemma EnrollsAndConnects(cfg: Config, caps: Caps, c: CredentialId, a: Account, d: DeviceId)
    requires caps.perAccount > 0 && caps.inAll > 0
    ensures var p1 := React(cfg, caps, STARTED, Enroll(c, a, d, 0));
        var p2 := React(cfg, caps, p1, Connect(a, Some(c)));
      && !Active(STARTED.world.db, c)
      && p2.world.db.credentials == map[c := Credential(a, d, None)]
      && Subs(p2.net.registry, a) == {Subscriber(1, Some(c))} && Live(p2.net.streams, Subscriber(1, Some(c)))
  {
    var p1 := React(cfg, caps, STARTED, Enroll(c, a, d, 0));
    assert p1.world.db.credentials == map[c := Credential(a, d, None)];
    assert Sizes(p1.net.registry) == map[];
    assert Admits(caps, p1.net, a);
  }

  lemma SupersedesFirst(db: Db, c: CredentialId, c': CredentialId, a: Account, d: DeviceId)
    requires c != c' && db.credentials == map[c := Credential(a, d, None)]
    ensures !Active(Issue(db, c', a, d, 1), c)
  {
    assert c in Superseded(db, a, d);
  }
}
