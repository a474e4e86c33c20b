/** Streams, event by event: exactly when a nudge goes out and what it says, who is let in, who survives a
    tick, and what revoking, signing out and enrolling do to credentials and to live connections. */
module Streams {
  import opened Collections
  import opened Model
  import opened Tables
  import opened Vault
  import opened SeqLine
  import opened Hub
  import opened Nudges

  // ---------- When a nudge goes out ----------

  /** The handlers that may emit: a loud sync batch, a row delete, an intents batch. */
  predicate MayEmit(op: Op) {
    (op.SyncBatch? && op.notify) || op.DeleteRow? || op.SendIntents?
  }

  /** The namespace a nudge names: the app written to, or the intents feed. */
  function ChannelOf(op: Op): Channel
    requires MayEmit(op)
  {
    if op.SendIntents? then IntentsFeed else SyncApp(op.app)
  }

  /** A nudge goes out if and only if the handler may emit and the request took a seq; it is for the
      request's account, names its new latest seq, and the app or feed that was written. */
  lemma EmitsExactly(cfg: Config, w: World, op: Op, now: int)
    requires OneLine(w.db)
    ensures var (w', reply) := Serve(cfg, w, op, now); var nudge := NudgeOf(op, reply);
      && (nudge.Some? <==> MayEmit(op) && Counter(w'.db, op.account) > Counter(w.db, op.account))
      && (nudge.Some? ==> nudge.value == (op.account, Nudge(Counter(w'.db, op.account), ChannelOf(op))))
  {
    match op
    case SyncBatch(a, app, rows, _) => BatchLine(w.db, app, a, rows, now, a);
    case DeleteRow(a, app, id, deletedAt) => SoftDeleteLine(w.db, app, a, id, deletedAt, now, a);
    case SendIntents(a, events) => IntentsLine(w.db, a, events, now, a);
    case _ =>
  }

  /** A request that does not emit, other than an account deletion, sends no frame and drops nobody: a
      silent batch, a repeated delete, a batch that wrote nothing, a cursor report, an upload. */
  lemma OthersAreQuiet(cfg: Config, caps: Caps, proc: Process, op: Op, now: int)
    requires OneLine(proc.world.db) && !op.DeleteAccount?
    requires !MayEmit(op) || Counter(Apply(cfg, proc.world, op, now).db, op.account) ==
        Counter(proc.world.db, op.account)
    ensures React(cfg, caps, proc, Request(op, now)).net == proc.net
  {
    EmitsExactly(cfg, proc.world, op, now);
    OnlyDeletionRemoves(cfg, proc.world, op, now);
  }

  lemma OnlyDeletionRemoves(cfg: Config, w: World, op: Op, now: int)
    ensures Serve(cfg, w, op, now).1.Removed? ==> op.DeleteAccount?
  {
  }

  // ---------- Who is let in ----------

  /** Room is left for a new connection if and only if the registry with it in would still be within both
      caps. */
  lemma RoomIsRoom(m: Registry, total: int, maxPerAccount: nat, maxTotal: nat, a: Account, s: Subscriber)
    requires Sound(m, total, maxPerAccount, maxTotal) && s !in Subs(m, a)
    ensures HasRoom(m, total, a, maxPerAccount, maxTotal) <==>
        Sound(Joined(m, a, s), total + 1, maxPerAccount, maxTotal)
  {
    if HasRoom(m, total, a, maxPerAccount, maxTotal) {
      JoinSound(m, total, maxPerAccount, maxTotal, a, s);
    } else {
      assert |Joined(m, a, s)[a]| == |Subs(m, a)| + 1;
    }
  }

  /** A connection is opened if and only if its credential, if it has one, is an active one of the account
      it names, and the caps leave room. It is then registered under that account, its stream says `ready`
      with the account's latest seq, and nobody else notices. */
  lemma ConnectDecided(cfg: Config, caps: Caps, proc: Process, a: Account, credential: Option<CredentialId>)
    requires Wired(proc)
    ensures var proc' := React(cfg, caps, proc, Connect(a, credential)); var s := Subscriber(proc.nextId, credential);
      && proc'.world == proc.world
      && (s in Subs(proc'.net.registry, a) <==>
            && (credential.Some? ==>
                  && credential.value in proc.world.db.credentials
                  && proc.world.db.credentials[credential.value].revokedAt.None?
                  && proc.world.db.credentials[credential.value].account == a)
            && Sum(Sizes(proc.net.registry)) + 1 <= caps.inAll && |Subs(proc.net.registry, a)| + 1 <= caps.perAccount)
      && (s in Subs(proc'.net.registry, a) ==>
            s in proc'.net.streams && proc'.net.streams[s] == Stream(false, false, [Ready(Counter(proc.world.db, a))]))
      && (s !in Subs(proc'.net.registry, a) ==> proc'.net == proc.net)
      && (forall b, t :: t != s ==> (t in Subs(proc'.net.registry, b) <==> t in Subs(proc.net.registry, b)))
      && (forall t :: t in proc.net.streams ==> t in proc'.net.streams && proc'.net.streams[t] == proc.net.streams[t])
  {
    NewIsUnknown(proc, a, credential);
    JoinedExactly(proc.net.registry, a, Subscriber(proc.nextId, credential));
  }

  lemma NewIsUnknown(proc: Process, a: Account, credential: Option<CredentialId>)
    requires Wired(proc)
    ensures var s := Subscriber(proc.nextId, credential); s !in proc.net.streams && s !in Subs(proc.net.registry, a)
  {
  }

  lemma JoinedExactly(m: Registry, a: Account, s: Subscriber)
    ensures forall b, t :: t in Subs(Joined(m, a, s), b) <==> t in Subs(m, b) || (b == a && t == s)
  {
  }

  // ---------- Who survives a tick ----------

  /** A tick keeps a connection if and only if its stream is live and its credential, if it has one, still
      active. It never touches another connection, sends nothing that counts, and ends the stream it
      shuts out. */
  lemma TickDecided(cfg: Config, caps: Caps, proc: Process, a: Account, s: Subscriber)
    requires s in Subs(proc.net.registry, a)
    ensures var proc' := React(cfg, caps, proc, Heartbeat(a, s));
      && proc'.world == proc.world
      && (s in Subs(proc'.net.registry, a) <==>
            Live(proc.net.streams, s) && (s.credential.Some? ==> Active(proc.world.db, s.credential.value)))
      && (forall b, t :: t != s || b != a ==> (t in Subs(proc'.net.registry, b) <==> t in Subs(proc.net.registry, b)))
      && (s !in Subs(proc'.net.registry, a) ==> !Live(proc'.net.streams, s))
      && (forall t :: t in proc.net.streams ==>
            && t in proc'.net.streams && proc'.net.streams[t].frames == proc.net.streams[t].frames
            && (t != s ==> proc'.net.streams[t] == proc.net.streams[t]))
  {
    forall b, t
      ensures t in Subs(Without(proc.net.registry, a, {s}), b) <==>
          t in Subs(proc.net.registry, b) && !(b == a && t == s)
    {
    }
  }

  /** A client that leaves takes only its own connection out. */
  lemma CleanupDecided(cfg: Config, caps: Caps, proc: Process, a: Account, s: Subscriber)
    ensures var proc' := React(cfg, caps, proc, Cleanup(a, s));
      && proc'.world == proc.world && proc'.net.streams == proc.net.streams
      && forall b, t :: t in Subs(proc'.net.registry, b) <==> t in Subs(proc.net.registry, b) && !(b == a && t == s)
  {
  }

  // ---------- Revoking ----------

  /** Exactly the credentials in `cs` that were active are stamped; every other one is as it was. */
  ghost predicate StampedExactly(db: Db, db': Db, cs: set<CredentialId>, now: int) {
    && db' == db.(credentials := db'.credentials) && db'.credentials.Keys == db.credentials.Keys
    && forall c :: c in db.credentials ==>
         db'.credentials[c] == if c in cs && Active(db, c) then db.credentials[c].(revokedAt := Some(now))
             else db.credentials[c]
  }

  /** Exactly the connections of `cs` are out, their streams are over, and all others are as they were. */
  ghost predicate ShutOut(net: Net, net': Net, cs: set<CredentialId>) {
    && (forall a, s :: s in Subs(net'.registry, a) <==> s in Subs(net.registry, a) && !Holds(s, cs))
    && net'.streams.Keys == net.streams.Keys
    && (forall a, s :: s in Subs(net.registry, a) && Holds(s, cs) ==> !Live(net'.streams, s))
    && (forall s :: s in net.streams && !Holds(s, cs) ==> net'.streams[s] == net.streams[s])
    && (forall s :: s in net.streams ==> net'.streams[s].frames == net.streams[s].frames)
  }

  lemma DisconnectedShutsOut(net: Net, cs: set<CredentialId>)
    ensures ShutOut(net, Disconnected(net, cs), cs)
  {
    var net', m := Disconnected(net, cs), net.registry;
    forall a, s ensures s in Subs(net'.registry, a) <==> s in Subs(m, a) && !Holds(s, cs) {
      WhoStays(net, a, Nudge(0, IntentsFeed), cs, a, s);
    }
    forall a, s | s in Subs(m, a) && Holds(s, cs) ensures !Live(net'.streams, s) {
      HolderIn(m, a, s, cs);
    }
  }

  lemma SignedOutExactly(proc: Process, cs: set<CredentialId>, now: int)
    ensures var proc' := SignedOut(proc, cs, now);
      && proc'.world.disk == proc.world.disk && proc'.nextId == proc.nextId
      && StampedExactly(proc.world.db, proc'.world.db, cs, now) && ShutOut(proc.net, proc'.net, cs)
  {
    DisconnectedShutsOut(proc.net, cs);
  }

  /** Revoking an active credential stamps it, and it alone, with this instant, and shuts out exactly its
      connections. Revoking one that is not active, or unknown, changes nothing at all. */
  lemma RevokeDecided(cfg: Config, caps: Caps, proc: Process, c: CredentialId, now: int)
    ensures var proc' := React(cfg, caps, proc, RevokeCredential(c, now));
      && !Active(proc'.world.db, c)
      && (Active(proc.world.db, c) ==>
            && StampedExactly(proc.world.db, proc'.world.db, {c}, now) && ShutOut(proc.net, proc'.net, {c})
            && proc'.world.db.credentials[c].revokedAt == Some(now))
      && (!Active(proc.world.db, c) ==> proc' == proc)
  {
    SignedOutExactly(proc, {c}, now);
  }

  ghost predicate Heard(net: Net, c: CredentialId) {
    exists a, s :: s in Subs(net.registry, a) && s.credential == Some(c)
  }

  /** After a revocation no registered stream holds the credential, if and only if it was active before or
      no stream held it: one that an enrollment superseded is not shut out by revoking it again. */
  lemma RevokedIsUnheard(cfg: Config, caps: Caps, proc: Process, c: CredentialId, now: int)
    ensures !Heard(React(cfg, caps, proc, RevokeCredential(c, now)).net, c) <==>
        Active(proc.world.db, c) || !Heard(proc.net, c)
  {
    RevokeDecided(cfg, caps, proc, c, now);
  }

  /** And such a stream exists: enroll, connect, enroll again, revoke the first credential. */
  lemma RevokingSupersededKeeps(cfg: Config, caps: Caps, c: CredentialId, c': CredentialId, a: Account, d: DeviceId,
                                now: int)
      returns (ps: seq<Process>)
    requires c != c' && caps.perAccount > 0 && caps.inAll > 0
    ensures Life(cfg, caps, ps, Reenrollment(c, c', a, d)) && ps[0] == STARTED
    ensures Heard(React(cfg, caps, ps[3], RevokeCredential(c, now)).net, c)
  {
    ps := SupersededLingers(cfg, caps, c, c', a, d);
    assert Subscriber(1, Some(c)) in Subs(ps[3].net.registry, a);
    RevokedIsUnheard(cfg, caps, ps[3], c, now);
  }

  /** Signing an account out stamps exactly its active credentials and shuts out exactly their connections;
      rotating the key alone, or for an unknown account, touches neither. */
  lemma RotateDecided(cfg: Config, caps: Caps, proc: Process, a: Account, revokeDevices: bool, now: int)
    ensures var proc' := React(cfg, caps, proc, RotateKey(a, revokeDevices, now));
      var cs := if a in proc.world.db.registry && revokeDevices then AccountsOwn(proc.world.db, a) else {};
      && StampedExactly(proc.world.db, proc'.world.db, cs, now) && ShutOut(proc.net, proc'.net, cs)
      && (a in proc.world.db.registry && revokeDevices ==>
            forall c :: c in proc'.world.db.credentials && proc'.world.db.credentials[c].account == a ==>
                !Active(proc'.world.db, c))
  {
    if a in proc.world.db.registry {
      var cs := if revokeDevices then ActiveCredentials(proc.world.db, a) else {};
      assert revokeDevices ==> cs == AccountsOwn(proc.world.db, a);
      SignedOutExactly(proc, cs, now);
    }
  }

  /** The account's active credentials. */
  function AccountsOwn(db: Db, a: Account): set<CredentialId> {
    set c | c in db.credentials && db.credentials[c].account == a && Active(db, c)
  }

  // ---------- Enrolling ----------

  /** Enrolling issues an active credential for this device of this account, and revokes exactly the active
      ones the device had; every other credential, of other devices and accounts, is as it was, and no
      connection is touched. An id already taken changes nothing. */
  lemma EnrollDecided(cfg: Config, caps: Caps, proc: Process, c: CredentialId, a: Account, d: DeviceId, now: int)
    ensures var proc' := React(cfg, caps, proc, Enroll(c, a, d, now));
      && proc'.net == proc.net
      && (c in proc.world.db.credentials ==> proc' == proc)
      && (c !in proc.world.db.credentials ==>
            var db, db' := proc.world.db, proc'.world.db;
            && db' == db.(credentials := db'.credentials) && db'.credentials.Keys == db.credentials.Keys + {c}
            && db'.credentials[c] == Credential(a, d, None)
            && forall o :: o in db.credentials ==>
                 db'.credentials[o] ==
                   if db.credentials[o].account == a && db.credentials[o].device == d && Active(db, o)
                   then db.credentials[o].(revokedAt := Some(now)) else db.credentials[o])
  {
  }

  // ---------- For good ----------

  /** A revoked credential stays inactive, and unheard, for as long as it is not issued again. */
  lemma {:induction false} RevokedForGood(cfg: Config, caps: Caps, ps: seq<Process>, events: seq<Event>, m: nat,
                                          n: nat, c: CredentialId)
    requires Life(cfg, caps, ps, events) && m <= n <= |events|
    requires !Active(ps[m].world.db, c) && !Heard(ps[m].net, c)
    requires forall i :: m <= i < n ==> !(events[i].Enroll? && events[i].issued == c)
    ensures !Active(ps[n].world.db, c) && !Heard(ps[n].net, c)
    decreases n
  {
    if n == m {
    } else {
      RevokedForGood(cfg, caps, ps, events, m, n - 1, c);
      assert ps[n - 1 + 1] == React(cfg, caps, ps[n - 1], events[n - 1]);
      StaysUnheard(cfg, caps, ps[n - 1], events[n - 1], c);
    }
  }

  lemma StaysUnheard(cfg: Config, caps: Caps, proc: Process, e: Event, c: CredentialId)
    requires !Active(proc.world.db, c) && !Heard(proc.net, c) && !(e.Enroll? && e.issued == c)
    ensures var proc' := React(cfg, caps, proc, e); !Active(proc'.world.db, c) && !Heard(proc'.net, c)
  {
    StaysInactive(cfg, caps, proc, e, c);
    if e.Connect? {
      forall b, t | t in Subs(React(cfg, caps, proc, e).net.registry, b) && t.credential == Some(c)
        ensures t in Subs(proc.net.registry, b)
      {
      }
    } else {
      ReactThins(cfg, caps, proc, e);
    }
  }
}
