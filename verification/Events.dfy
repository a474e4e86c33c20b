/** The running server with its push hub: each handler writes, then emits or disconnects, in one
    turn. Every method is tied to the step of `Nudges` it performs. */
module Events {
  import opened Collections
  import opened Model
  import opened Vault
  import opened Handlers
  import opened Hub
  import opened Nudges

  class LiveServer {
    const server: Server
    const sockets: Sockets
    const hub: InProcessAccountHub
    var nextId: nat

    constructor (cfg: Config, caps: Caps)
      ensures Valid() && Now() == Process(EMPTY_WORLD, Net(map[], map[]), 1)
      ensures server.cfg == cfg && Limits() == caps
      ensures fresh(server) && fresh(server.store) && fresh(server.disk) && fresh(hub) && fresh(sockets)
    {
      server := new Server(cfg);
      var s := new Sockets();
      sockets := s;
      hub := new InProcessAccountHub(caps.perAccount, caps.inAll, s);
      nextId := 1;
    }

    function Limits(): Caps {
      Caps(hub.maxPerAccount, hub.maxTotal)
    }

    ghost predicate Valid()
      reads this, server, server.store, server.disk, hub, sockets
    {
      hub.sockets == sockets && hub.Valid() && Wired(Now())
    }

    ghost function Now(): Process
      reads this, server, server.store, server.disk, hub, sockets
    {
      Process(server.Now(), Net(hub.byAccount, sockets.streams), nextId)
    }

    /** Write, then emit; the nudge goes out only after the write is in. */
    method HandleRequest(op: Op, now: int) returns (reply: Reply)
      requires Valid()
      modifies this, server.store, server.disk, hub, sockets
      ensures Valid() && Now() == React(server.cfg, Limits(), old(Now()), Request(op, now))
      ensures reply == Serve(server.cfg, old(Now()).world, op, now).1
    {
      ReactWired(server.cfg, Limits(), Now(), Request(op, now));
      reply := server.Perform(op, now);
      AfterWriteNow(op, reply);
    }

    method AfterWriteNow(op: Op, reply: Reply)
      requires hub.sockets == sockets && hub.Valid()
      modifies hub, sockets
      ensures hub.Valid() && hub.Now() == AfterWrite(old(hub.Now()), op, reply)
    {
      var nudge := NudgeOf(op, reply);
      if nudge.Some? {
        hub.Publish(nudge.value.0, nudge.value.1);
      } else if reply.Removed? {
        DisconnectAll(reply.credentials);
      }
    }

    method DisconnectAll(cs: set<CredentialId>)
      requires hub.sockets == sockets && hub.Valid()
      modifies hub, sockets
      ensures hub.Valid() && hub.Now() == Disconnected(old(hub.Now()), cs)
    {
      ghost var net := hub.Now();
      var rest := cs;
      DisconnectNone(net);
      assert cs - rest == {};
      while rest != {}
        invariant hub.Valid() && rest <= cs && hub.Now() == Disconnected(net, cs - rest)
        decreases |rest|
      {
        var c :| c in rest;
        DisconnectMore(net, cs - rest, c);
        var _ := hub.DisconnectCredential(c);
        assert cs - (rest - {c}) == (cs - rest) + {c};
        rest := rest - {c};
      }
      assert cs - {} == cs;
    }

    /** GET /events: authenticate, subscribe, then the ready frame, in one turn. */
    method HandleConnect(a: Account, credential: Option<CredentialId>) returns (ok: bool)
      requires Valid()
      modifies this, hub, sockets
      ensures Valid() && Now() == React(server.cfg, Limits(), old(Now()), Connect(a, credential))
      ensures ok == (Authenticated(old(Now()).world.db, a, credential) && Admits(Limits(), old(Now()).net, a))
    {
      ReactWired(server.cfg, Limits(), Now(), Connect(a, credential));
      if !Authenticated(server.store.State(), a, credential) {
        return false;
      }
      var s := Subscriber(nextId, credential);
      assert s !in sockets.streams;
      nextId := nextId + 1;
      ok := hub.Subscribe(a, s);
      if ok {
        var seen := server.store.LatestSeq(a);
        sockets.streams := sockets.streams[s := Stream(false, false, [Ready(seen)])];
      }
    }

    method HandleCleanup(a: Account, s: Subscriber)
      requires Valid()
      modifies hub
      ensures Valid() && Now() == React(server.cfg, Limits(), old(Now()), Cleanup(a, s))
    {
      ReactWired(server.cfg, Limits(), Now(), Cleanup(a, s));
      hub.Unsubscribe(a, s);
    }

    method HandleHeartbeat(a: Account, s: Subscriber)
      requires Valid()
      modifies hub, sockets
      ensures Valid() && Now() == React(server.cfg, Limits(), old(Now()), Heartbeat(a, s))
    {
      ReactWired(server.cfg, Limits(), Now(), Heartbeat(a, s));
      if !Live(sockets.streams, s) {
        hub.Unsubscribe(a, s);
      } else if s.credential.Some? && !Active(server.store.State(), s.credential.value) {
        hub.Unsubscribe(a, s);
        var _ := sockets.Close(s);
      }
    }

    /** Stamp first, then disconnect; a re-revocation disconnects nobody. */
    method HandleRevoke(c: CredentialId, now: int) returns (known: bool, revokedNow: bool)
      requires Valid()
      modifies server.store, hub, sockets
      ensures Valid() && Now() == React(server.cfg, Limits(), old(Now()), RevokeCredential(c, now))
      ensures known == (c in old(Now()).world.db.credentials) && revokedNow == Active(old(Now()).world.db, c)
    {
      ghost var proc, proc' := Now(), React(server.cfg, Limits(), Now(), RevokeCredential(c, now));
      ReactWired(server.cfg, Limits(), proc, RevokeCredential(c, now));
      known, revokedNow := server.store.RevokeCredential(c, now);
      assert proc' == if revokedNow then SignedOut(proc, {c}, now) else proc;
      if revokedNow {
        DisconnectAll({c});
      }
      assert Now() == proc';
    }

    method HandleRotateKey(a: Account, revokeDevices: bool, now: int) returns (r: Option<set<CredentialId>>)
      requires Valid()
      modifies server.store, hub, sockets
      ensures Valid() && Now() == React(server.cfg, Limits(), old(Now()), RotateKey(a, revokeDevices, now))
      ensures r.None? <==> a !in old(Now()).world.db.registry
    {
      ghost var proc, proc' := Now(), React(server.cfg, Limits(), Now(), RotateKey(a, revokeDevices, now));
      ReactWired(server.cfg, Limits(), proc, RotateKey(a, revokeDevices, now));
      r := server.store.RotateAccountKey(a, revokeDevices, now);
      assert proc' == if r.Some? then SignedOut(proc, r.value, now) else proc;
      if r.Some? {
        DisconnectAll(r.value);
      }
      assert Now() == proc';
    }

    method HandleEnroll(c: CredentialId, a: Account, d: DeviceId, now: int) returns (ok: bool)
      requires Valid()
      modifies server.store
      ensures Valid() && Now() == React(server.cfg, Limits(), old(Now()), Enroll(c, a, d, now))
      ensures ok == (c !in old(Now()).world.db.credentials)
    {
      ReactWired(server.cfg, Limits(), Now(), Enroll(c, a, d, now));
      ok := server.store.IssueCredential(c, a, d, now);
    }
  }
}
