/** The push hub: a registry of live connections per account, and the response streams behind
    them. Registry and counter are updated in place while loops walk snapshots of them. */
module Hub {
  import opened Collections
  import opened Model

  /** A connection record; `id` tells records apart. */
  datatype Subscriber = Subscriber(id: nat, credential: Option<CredentialId>)

  datatype Channel = SyncApp(app: App) | IntentsFeed
  datatype Nudge = Nudge(latest: nat, channel: Channel)
  datatype Frame = Ready(latest: nat) | Activity(nudge: Nudge)

  /** The response behind a connection. Writing to it throws once it ended or its socket broke;
      closing it throws when the socket broke. */
  datatype Stream = Stream(ended: bool, broken: bool, frames: seq<Frame>)

  type Registry = map<Account, set<Subscriber>>
  type Streams = map<Subscriber, Stream>

  datatype Net = Net(registry: Registry, streams: Streams)

  function Subs(m: Registry, a: Account): set<Subscriber> {
    if a in m then m[a] else {}
  }

  predicate Live(streams: Streams, s: Subscriber) {
    s in streams && !streams[s].ended && !streams[s].broken
  }

  // ---------- What each call does ----------

  predicate HasRoom(m: Registry, total: int, a: Account, maxPerAccount: nat, maxTotal: nat) {
    total < maxTotal && |Subs(m, a)| < maxPerAccount
  }

  function Joined(m: Registry, a: Account, s: Subscriber): Registry {
    m[a := Subs(m, a) + {s}]
  }

  /** The account loses the given connections, and its key once none is left. */
  function Without(m: Registry, a: Account, xs: set<Subscriber>): Registry {
    if a !in m then m
    else if m[a] - xs == {} then m - {a}
    else m[a := m[a] - xs]
  }

  function Dead(streams: Streams, xs: set<Subscriber>): set<Subscriber> {
    set s | s in xs && !Live(streams, s)
  }

  function Delivered(streams: Streams, xs: set<Subscriber>, f: Frame): Streams {
    map s | s in streams :: if s in xs && Live(streams, s) then streams[s].(frames := streams[s].frames + [f])
        else streams[s]
  }

  /** Every live connection of the account gets the nudge; exactly the throwing ones are evicted. */
  function Published(net: Net, a: Account, xs: set<Subscriber>, nudge: Nudge): Net {
    Net(Without(net.registry, a, Dead(net.streams, xs)), Delivered(net.streams, xs, Activity(nudge)))
  }

  predicate Holds(s: Subscriber, cs: set<CredentialId>) {
    s.credential.Some? && s.credential.value in cs
  }

  function Holders(xs: set<Subscriber>, cs: set<CredentialId>): set<Subscriber> {
    set s | s in xs && Holds(s, cs)
  }

  /** The named accounts lose every connection of the credentials; the others keep theirs. */
  function Evicted(m: Registry, accounts: set<Account>, cs: set<CredentialId>): Registry {
    map a | a in m && (a in accounts ==> m[a] - Holders(m[a], cs) != {}) ::
        if a in accounts then m[a] - Holders(m[a], cs) else m[a]
  }

  function HoldersIn(m: Registry, accounts: set<Account>, cs: set<CredentialId>): set<Subscriber> {
    set a, s | a in accounts && a in m && s in m[a] && Holds(s, cs) :: s
  }

  /** In the named accounts, all connections of the credentials are out of the registry and their
      streams are ended. */
  function DisconnectedIn(net: Net, accounts: set<Account>, cs: set<CredentialId>): Net {
    Net(Evicted(net.registry, accounts, cs), Closed(net.streams, HoldersIn(net.registry, accounts, cs)))
  }

  function Disconnected(net: Net, cs: set<CredentialId>): Net {
    DisconnectedIn(net, net.registry.Keys, cs)
  }

  /** One account's share of that. */
  function SignedOff(net: Net, a: Account, cs: set<CredentialId>): Net {
    Dropped(net, a, Holders(Subs(net.registry, a), cs))
  }

  function Dropped(net: Net, a: Account, xs: set<Subscriber>): Net {
    Net(Without(net.registry, a, xs), Closed(net.streams, xs))
  }

  function Closed(streams: Streams, xs: set<Subscriber>): Streams {
    map s | s in streams :: if s in xs && !streams[s].broken then streams[s].(ended := true) else streams[s]
  }

  // ---------- Accounting ----------

  function Sizes(m: Registry): map<Account, nat> {
    map a | a in m :: |m[a]|
  }

  /** The counter is the number of registered connections, both caps hold, no set is empty. */
  ghost predicate Sound(m: Registry, total: int, maxPerAccount: nat, maxTotal: nat) {
    && total == Sum(Sizes(m))
    && total <= maxTotal
    && forall a :: a in m ==> m[a] != {} && |m[a]| <= maxPerAccount
  }

  /** Replacing one account's set changes the sum of the sizes by the difference. */
  lemma SizesPut(m: Registry, a: Account, xs: set<Subscriber>)
    ensures Sum(Sizes(m[a := xs])) == Sum(Sizes(m)) - |Subs(m, a)| + |xs|
  {
    var s, s' := Sizes(m), Sizes(m[a := xs]);
    SumTakeOut(s', a);
    assert s' - {a} == s - {a};
    if a in m {
      SumTakeOut(s, a);
    } else {
      assert s - {a} == s;
    }
  }

  lemma SizesWithout(m: Registry, a: Account, xs: set<Subscriber>)
    ensures Sum(Sizes(Without(m, a, xs))) == Sum(Sizes(m)) - |Subs(m, a)| + |Subs(m, a) - xs|
  {
    if a in m {
      if m[a] - xs == {} {
        SumTakeOut(Sizes(m), a);
        assert Sizes(m - {a}) == Sizes(m) - {a};
      } else {
        SizesPut(m, a, m[a] - xs);
      }
    } else {
      assert Subs(m, a) - xs == {};
    }
  }

  /** Admitting a connection keeps the accounting if and only if it was not registered already: the
      counter goes up whether or not the set does. */
  lemma JoinSound(m: Registry, total: int, maxPerAccount: nat, maxTotal: nat, a: Account, s: Subscriber)
    requires Sound(m, total, maxPerAccount, maxTotal) && HasRoom(m, total, a, maxPerAccount, maxTotal)
    ensures Sound(Joined(m, a, s), total + 1, maxPerAccount, maxTotal) <==> s !in Subs(m, a)
  {
    SizesPut(m, a, Subs(m, a) + {s});
    if s in Subs(m, a) {
      assert Subs(m, a) + {s} == Subs(m, a);
    }
  }

  lemma WithoutSound(m: Registry, total: int, maxPerAccount: nat, maxTotal: nat, a: Account, xs: set<Subscriber>)
    requires Sound(m, total, maxPerAccount, maxTotal)
    ensures Sound(Without(m, a, xs), total - |xs * Subs(m, a)|, maxPerAccount, maxTotal)
  {
    SizesWithout(m, a, xs);
    var was := Subs(m, a);
    assert was == (was - xs) + (xs * was) && (was - xs) !! (xs * was);
    SubsetCard(was - xs, was);
  }

  // ---------- The streams ----------

  class Sockets {
    var streams: Streams

    constructor ()
      ensures streams == map[]
    {
      streams := map[];
    }

    method Deliver(s: Subscriber, nudge: Nudge) returns (threw: bool)
      modifies this
      ensures threw == !Live(old(streams), s)
      ensures streams == Delivered(old(streams), {s}, Activity(nudge))
    {
      threw := !Live(streams, s);
      if !threw {
        streams := streams[s := streams[s].(frames := streams[s].frames + [Activity(nudge)])];
      }
    }

    method Close(s: Subscriber) returns (threw: bool)
      modifies this
      ensures streams == Closed(old(streams), {s})
    {
      threw := s !in streams || streams[s].broken;
      if !threw {
        streams := streams[s := streams[s].(ended := true)];
      }
    }
  }

  // ---------- The hub ----------

  class InProcessAccountHub {
    const maxPerAccount: nat
    const maxTotal: nat
    const sockets: Sockets
    var byAccount: Registry
    var total: int

    constructor (maxPerAccount: nat, maxTotal: nat, sockets: Sockets)
      ensures Valid() && byAccount == map[] && this.sockets == sockets
      ensures this.maxPerAccount == maxPerAccount && this.maxTotal == maxTotal
    {
      this.maxPerAccount, this.maxTotal, this.sockets := maxPerAccount, maxTotal, sockets;
      byAccount, total := map[], 0;
    }

    ghost predicate Valid()
      reads this
    {
      Sound(byAccount, total, maxPerAccount, maxTotal)
    }

    ghost function Now(): Net
      reads this, sockets
    {
      Net(byAccount, sockets.streams)
    }

    /** Refused at either cap. An admitted connection keeps the accounting exactly when it is new. */
    method Subscribe(a: Account, s: Subscriber) returns (ok: bool)
      requires Valid()
      modifies this
      ensures ok == HasRoom(old(byAccount), old(total), a, maxPerAccount, maxTotal)
      ensures byAccount == if ok then Joined(old(byAccount), a, s) else old(byAccount)
      ensures Valid() <==> !ok || s !in Subs(old(byAccount), a)
    {
      ghost var m := byAccount;
      if total >= maxTotal {
        return false;
      }
      if a !in byAccount {
        byAccount := byAccount[a := {}];
      }
      if |byAccount[a]| >= maxPerAccount {
        if |byAccount[a]| == 0 {
          byAccount := byAccount - {a};
        }
        assert byAccount == m;
        return false;
      }
      JoinSound(m, total, maxPerAccount, maxTotal, a, s);
      byAccount := byAccount[a := byAccount[a] + {s}];
      total := total + 1;
      assert byAccount == Joined(m, a, s);
      ok := true;
    }

    /** Idempotent; the counter moves only when a connection was really removed. */
    method Unsubscribe(a: Account, s: Subscriber)
      requires Valid()
      modifies this
      ensures Valid() && byAccount == Without(old(byAccount), a, {s})
      ensures total == old(total) - (if s in Subs(old(byAccount), a) then 1 else 0)
    {
      ghost var m := byAccount;
      WithoutSound(m, total, maxPerAccount, maxTotal, a, {s});
      if a !in byAccount {
        return;
      }
      assert {s} * m[a] == if s in m[a] then {s} else {};
      if s in byAccount[a] {
        byAccount := byAccount[a := byAccount[a] - {s}];
        total := total - 1;
      }
      if |byAccount[a]| == 0 {
        byAccount := byAccount - {a};
      }
      assert s !in m[a] ==> m[a] - {s} == m[a];
      assert byAccount == Without(m, a, {s});
    }

    /** A throw evicts only this connection and goes no further. */
    method DeliverOrEvict(a: Account, s: Subscriber, nudge: Nudge)
      requires Valid()
      modifies this, sockets
      ensures Valid() && sockets.streams == Delivered(old(sockets.streams), {s}, Activity(nudge))
      ensures byAccount == if Live(old(sockets.streams), s) then old(byAccount) else Without(old(byAccount), a, {s})
    {
      var threw := sockets.Deliver(s, nudge);
      if threw {
        Unsubscribe(a, s);
      }
    }

    method Publish(a: Account, nudge: Nudge)
      requires Valid()
      modifies this, sockets
      ensures Valid() && Now() == Published(old(Now()), a, Subs(old(byAccount), a), nudge)
    {
      ghost var net, done := Now(), {};
      var rest := Subs(byAccount, a);
      PublishNone(net, a, nudge);
      while rest != {}
        invariant Valid() && rest !! done && rest + done == Subs(net.registry, a)
        invariant Now() == Published(net, a, done, nudge)
        decreases |rest|
      {
        var s :| s in rest;
        PublishOneMore(net, a, done, s, nudge);
        DeliverOrEvict(a, s, nudge);
        rest, done := rest - {s}, done + {s};
      }
    }

    /** All and only the connections of the credential go, from every account, and their number is
        returned, whatever closing their streams does. */
    method DisconnectCredential(c: CredentialId) returns (closed: nat)
      requires Valid()
      modifies this, sockets
      ensures Valid() && Now() == Disconnected(old(Now()), {c})
      ensures closed == old(total) - total
    {
      ghost var net := Now();
      closed := 0;
      var rest := byAccount.Keys;
      EvictNone(net, c);
      while rest != {}
        invariant Valid() && rest <= net.registry.Keys
        invariant Now() == DisconnectedIn(net, net.registry.Keys - rest, {c})
        invariant closed == old(total) - total
        decreases |rest|
      {
        var a :| a in rest;
        var n := DisconnectNext(a, c, net, rest);
        closed, rest := closed + n, rest - {a};
      }
      assert net.registry.Keys - {} == net.registry.Keys;
    }

    method DisconnectNext(a: Account, c: CredentialId, ghost net: Net, ghost rest: set<Account>) returns (closed: nat)
      requires Valid() && a in rest && rest <= net.registry.Keys
      requires Now() == DisconnectedIn(net, net.registry.Keys - rest, {c})
      modifies this, sockets
      ensures Valid() && Now() == DisconnectedIn(net, net.registry.Keys - (rest - {a}), {c})
      ensures closed == old(total) - total
    {
      ghost var done := net.registry.Keys - rest;
      assert net.registry.Keys - (rest - {a}) == done + {a};
      EvictOneMore(net, done, a, c);
      closed := DisconnectIn(a, c);
    }

    /** The walk over one account's snapshot. */
    method DisconnectIn(a: Account, c: CredentialId) returns (closed: nat)
      requires Valid() && a in byAccount
      modifies this, sockets
      ensures Valid() && Now() == SignedOff(old(Now()), a, {c})
      ensures closed == old(total) - total
    {
      ghost var net, done: set<Subscriber> := Now(), {};
      closed := 0;
      var rest := byAccount[a];
      CloseNone(net, a, c);
      while rest != {}
        invariant Valid() && rest !! done && rest + done == net.registry[a]
        invariant Now() == Dropped(net, a, Holders(done, {c}))
        invariant closed == old(total) - total
        decreases |rest|
      {
        var s :| s in rest;
        CloseOneMore(net, a, done, s, c);
        if s.credential == Some(c) {
          CloseOne(a, s);
          closed := closed + 1;
        }
        rest, done := rest - {s}, done + {s};
      }
      assert done == net.registry[a];
    }

    /** Out of the registry first; then its stream is ended, and it does not matter if that throws. */
    method CloseOne(a: Account, s: Subscriber)
      requires Valid()
      modifies this, sockets
      ensures Valid() && Now() == Dropped(old(Now()), a, {s})
      ensures total == old(total) - (if s in Subs(old(byAccount), a) then 1 else 0)
    {
      Unsubscribe(a, s);
      var _ := sockets.Close(s);
    }

    /** Never over the cap, and 0 exactly for an account that has no entry in the registry. */
    method ConnectionCount(a: Account) returns (n: nat)
      requires Valid()
      ensures n == |Subs(byAccount, a)| <= maxPerAccount && (n == 0 <==> a !in byAccount)
    {
      n := if a in byAccount then |byAccount[a]| else 0;
    }
  }

  // ---------- One more step of each walk ----------

  lemma PublishNone(net: Net, a: Account, nudge: Nudge)
    requires forall b :: b in net.registry ==> net.registry[b] != {}
    ensures Published(net, a, {}, nudge) == net
  {
    assert Dead(net.streams, {}) == {};
    assert Delivered(net.streams, {}, Activity(nudge)) == net.streams;
    assert a in net.registry ==> net.registry[a] - {} == net.registry[a];
  }

  lemma PublishOneMore(net: Net, a: Account, done: set<Subscriber>, s: Subscriber, nudge: Nudge)
    requires s !in done
    ensures var before := Published(net, a, done, nudge);
      Published(net, a, done + {s}, nudge) ==
      Net(if Live(before.streams, s) then before.registry
          else Without(before.registry, a, {s}), Delivered(before.streams, {s}, Activity(nudge)))
  {
    var before, after := Published(net, a, done, nudge), Published(net, a, done + {s}, nudge);
    assert after.streams == Delivered(before.streams, {s}, Activity(nudge));
    assert Live(before.streams, s) <==> Live(net.streams, s);
    if Live(net.streams, s) {
      assert Dead(net.streams, done + {s}) == Dead(net.streams, done);
    } else {
      assert Dead(net.streams, done + {s}) == Dead(net.streams, done) + {s};
      WithoutTwice(net.registry, a, Dead(net.streams, done), {s});
    }
  }

  lemma WithoutTwice(m: Registry, a: Account, xs: set<Subscriber>, ys: set<Subscriber>)
    ensures Without(Without(m, a, xs), a, ys) == Without(m, a, xs + ys)
  {
    if a in m {
      assert m[a] - xs - ys == m[a] - (xs + ys);
    }
  }

  lemma CloseNone(net: Net, a: Account, c: CredentialId)
    requires a in net.registry && net.registry[a] != {}
    ensures Dropped(net, a, Holders({}, {c})) == net
  {
    assert Holders({}, {c}) == {};
    assert net.registry[a] - {} == net.registry[a];
    assert Closed(net.streams, {}) == net.streams;
  }

  lemma CloseOneMore(net: Net, a: Account, done: set<Subscriber>, s: Subscriber, c: CredentialId)
    requires a in net.registry && s in net.registry[a] && s !in done
    ensures var was := Dropped(net, a, Holders(done, {c}));
      && Dropped(net, a, Holders(done + {s}, {c})) == (if s.credential == Some(c) then Dropped(was, a, {s}) else was)
      && s in Subs(was.registry, a)
  {
    var xs := Holders(done, {c});
    assert s in net.registry[a] - xs;
    if s.credential == Some(c) {
      assert Holders(done + {s}, {c}) == xs + {s};
      WithoutTwice(net.registry, a, xs, {s});
      assert Closed(Closed(net.streams, xs), {s}) == Closed(net.streams, xs + {s});
    } else {
      assert Holders(done + {s}, {c}) == xs;
    }
  }

  lemma EvictNone(net: Net, c: CredentialId)
    ensures DisconnectedIn(net, net.registry.Keys - net.registry.Keys, {c}) == net
  {
    var none := net.registry.Keys - net.registry.Keys;
    assert HoldersIn(net.registry, none, {c}) == {};
    assert Evicted(net.registry, none, {c}) == net.registry;
    assert Closed(net.streams, {}) == net.streams;
  }

  lemma EvictOneMore(net: Net, done: set<Account>, a: Account, c: CredentialId)
    requires a in net.registry && a !in done
    ensures a in DisconnectedIn(net, done, {c}).registry
    ensures SignedOff(DisconnectedIn(net, done, {c}), a, {c}) == DisconnectedIn(net, done + {a}, {c})
  {
    var m := net.registry;
    var was := DisconnectedIn(net, done, {c});
    assert Subs(was.registry, a) == m[a];
    assert HoldersIn(m, done + {a}, {c}) == HoldersIn(m, done, {c}) + Holders(m[a], {c});
    assert Without(was.registry, a, Holders(m[a], {c})) == Evicted(m, done + {a}, {c});
    assert Closed(was.streams, Holders(m[a], {c})) == Closed(net.streams, HoldersIn(m, done + {a}, {c}));
  }

  // ---------- Who is left ----------

  /** Publishing evicts exactly the connections whose stream throws, disconnecting exactly those of
      the credentials, and neither touches another account's connections. */
  lemma WhoStays(net: Net, a: Account, nudge: Nudge, cs: set<CredentialId>, b: Account, s: Subscriber)
    ensures s in Subs(Published(net, a, Subs(net.registry, a), nudge).registry, b) <==>
            s in Subs(net.registry, b) && (b == a ==> Live(net.streams, s))
    ensures s in Subs(Disconnected(net, cs).registry, b) <==> s in Subs(net.registry, b) && !Holds(s, cs)
  {
    var xs := Subs(net.registry, a);
    assert s in xs - Dead(net.streams, xs) <==> s in xs && Live(net.streams, s);
    var ys := Subs(net.registry, b);
    assert s in ys - Holders(ys, cs) <==> s in ys && !Holds(s, cs);
  }

  lemma DisconnectNone(net: Net)
    requires forall a :: a in net.registry ==> net.registry[a] != {}
    ensures Disconnected(net, {}) == net
  {
    var m := net.registry;
    assert HoldersIn(m, m.Keys, {}) == {};
    assert forall a :: a in m ==> m[a] - Holders(m[a], {}) == m[a];
    assert Evicted(m, m.Keys, {}) == m;
    assert Closed(net.streams, {}) == net.streams;
  }

  lemma HolderIn(m: Registry, a: Account, s: Subscriber, cs: set<CredentialId>)
    requires a in m && s in m[a] && Holds(s, cs)
    ensures s in HoldersIn(m, m.Keys, cs)
  {
    assert a in m.Keys;
  }

  lemma DisconnectMore(net: Net, cs: set<CredentialId>, c: CredentialId)
    ensures Disconnected(Disconnected(net, cs), {c}) == Disconnected(net, cs + {c})
  {
    var m, m' := net.registry, Disconnected(net, cs).registry;
    forall a | a in m
      ensures m[a] - Holders(m[a], cs + {c}) == m[a] - Holders(m[a], cs) - Holders(m[a] - Holders(m[a], cs), {c})
    {
    }
    assert Evicted(m', m'.Keys, {c}) == Evicted(m, m.Keys, cs + {c});
    var one, two, both := HoldersIn(m, m.Keys, cs), HoldersIn(m', m'.Keys, {c}), HoldersIn(m, m.Keys, cs + {c});
    forall s | s in both ensures s in one || s in two {
      var a :| a in m && s in m[a] && Holds(s, cs + {c});
      if Holds(s, cs) {
        HolderIn(m, a, s, cs);
      } else {
        assert s in m[a] - Holders(m[a], cs);
        HolderIn(m', a, s, {c});
      }
    }
    forall s | s in two ensures s in both {
      var a :| a in m' && s in m'[a] && Holds(s, {c});
      HolderIn(m, a, s, cs + {c});
    }
    forall s | s in one ensures s in both {
      var a :| a in m && s in m[a] && Holds(s, cs);
      HolderIn(m, a, s, cs + {c});
    }
    assert both == one + two;
  }
}
