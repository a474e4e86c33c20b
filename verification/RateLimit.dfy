/** The per-client rate limiter: a fixed window per key, and a lazy sweep of expired windows. */
module RateLimit {
  import opened Collections

  /** The client key (an IP address), only ever compared. */
  type Key(==, 0, !new)

  datatype Window = Window(count: nat, resetAt: int)
  datatype Limits = Limits(windowMs: nat, max: nat)
  datatype Request = Request(key: Key, at: int)
  datatype Outcome = Admitted | Throttled(retryAfter: nat)

  /** The sweeping limiter: its windows, and when it next sweeps. */
  datatype Limiter = Limiter(windows: map<Key, Window>, nextSweep: int)

  // ---------- The reference: no sweep ----------

  /** The window a request counts in: the key's current one, or a new one from now on. */
  function WindowOf(l: Limits, windows: map<Key, Window>, r: Request): Window {
    if r.key in windows && r.at < windows[r.key].resetAt then windows[r.key].(count := windows[r.key].count + 1)
    else Window(1, r.at + l.windowMs)
  }

  /** Whole seconds until the window closes, at least one. */
  function RetryAfter(resetAt: int, now: int): nat {
    Max(1, (resetAt - now + 999) / 1000)
  }

  function Decided(l: Limits, w: Window, now: int): Outcome {
    if w.count > l.max then Throttled(RetryAfter(w.resetAt, now)) else Admitted
  }

  /** The windows after the requests, if none was ever swept. */
  function Plain(l: Limits, rs: seq<Request>): map<Key, Window> {
    if rs == [] then map[]
    else
      var r := rs[|rs| - 1];
      var before := Plain(l, rs[..|rs| - 1]);
      before[r.key := WindowOf(l, before, r)]
  }

  /** What the last request is told. */
  function OutcomeOf(l: Limits, rs: seq<Request>): Outcome
    requires rs != []
  {
    var r := rs[|rs| - 1];
    Decided(l, Plain(l, rs)[r.key], r.at)
  }

  // ---------- The limiter that sweeps ----------

  function Unexpired(windows: map<Key, Window>, now: int): map<Key, Window> {
    map k | k in windows && now < windows[k].resetAt :: windows[k]
  }

  function AfterSweep(l: Limits, s: Limiter, now: int): Limiter {
    if now >= s.nextSweep then Limiter(Unexpired(s.windows, now), now + l.windowMs) else s
  }

  function Counted(l: Limits, s: Limiter, r: Request): Limiter {
    var s1 := AfterSweep(l, s, r.at);
    s1.(windows := s1.windows[r.key := WindowOf(l, s1.windows, r)])
  }

  function Lazy(l: Limits, rs: seq<Request>): Limiter {
    if rs == [] then Limiter(map[], 0) else Counted(l, Lazy(l, rs[..|rs| - 1]), rs[|rs| - 1])
  }

  // ---------- In place ----------

  class RateLimiter {
    const limits: Limits
    var windows: map<Key, Window>
    var nextSweep: int

    constructor (limits: Limits)
      ensures this.limits == limits && State() == Limiter(map[], 0)
    {
      this.limits := limits;
      windows, nextSweep := map[], 0;
    }

    function State(): Limiter
      reads this
    {
      Limiter(windows, nextSweep)
    }

    method Sweep(now: int)
      modifies this
      ensures windows == Unexpired(old(windows), now) && nextSweep == now + limits.windowMs
    {
      ghost var was := windows;
      var rest := windows.Keys;
      while rest != {}
        invariant rest <= windows.Keys <= was.Keys
        invariant forall k :: k in windows ==> windows[k] == was[k] && (k !in rest ==> now < windows[k].resetAt)
        invariant forall k :: k in was && k !in windows ==> now >= was[k].resetAt
        decreases |rest|
      {
        var k :| k in rest;
        if now >= windows[k].resetAt {
          windows := windows - {k};
        }
        rest := rest - {k};
      }
      nextSweep := now + limits.windowMs;
    }

    method Handle(r: Request) returns (outcome: Outcome)
      modifies this
      ensures State() == Counted(limits, old(State()), r)
      ensures outcome == Decided(limits, windows[r.key], r.at)
    {
      if r.at >= nextSweep {
        Sweep(r.at);
      }
      var w := if r.key in windows then windows[r.key] else Window(0, r.at);
      if r.key !in windows || r.at >= w.resetAt {
        w := Window(0, r.at + limits.windowMs);
      }
      w := w.(count := w.count + 1);
      windows := windows[r.key := w];
      if w.count > limits.max {
        return Throttled(Max(1, (w.resetAt - r.at + 999) / 1000));
      }
      outcome := Admitted;
    }
  }

  // ---------- Lazy sweeping changes no answer ----------

  ghost predicate ClockForward(rs: seq<Request>) {
    && (forall i :: 0 <= i < |rs| ==> rs[i].at >= 0)
    && forall i, j :: 0 <= i <= j < |rs| ==> rs[i].at <= rs[j].at
  }

  /** The sweeping limiter holds what the unswept one holds, but for windows over by now. */
  ghost predicate Retains(s: Limiter, plain: map<Key, Window>, now: int) {
    && (forall k :: k in s.windows ==> k in plain && s.windows[k] == plain[k])
    && (forall k :: k in plain && k !in s.windows ==> plain[k].resetAt <= now)
  }

  /** Every retained window opened within the last two window lengths. */
  ghost predicate Recent(l: Limits, s: Limiter, now: int) {
    forall k :: k in s.windows ==> s.windows[k].resetAt - l.windowMs >= now - 2 * l.windowMs
  }

  lemma CountedRefines(l: Limits, s: Limiter, plain: map<Key, Window>, before: int, r: Request)
    requires Retains(s, plain, before) && before <= r.at
    ensures Retains(Counted(l, s, r), plain[r.key := WindowOf(l, plain, r)], r.at)
    ensures WindowOf(l, AfterSweep(l, s, r.at).windows, r) == WindowOf(l, plain, r)
  {
  }

  /** On every request sequence the sweeping limiter gives the same verdict and the same Retry-After
      as one that never sweeps, and what it retains is recent. */
  lemma {:induction false} LazyAgrees(l: Limits, rs: seq<Request>)
    requires ClockForward(rs) && rs != []
    ensures var last := rs[|rs| - 1];
      && Retains(Lazy(l, rs), Plain(l, rs), last.at)
      && Decided(l, Lazy(l, rs).windows[last.key], last.at) == OutcomeOf(l, rs)
      && last.at <= Lazy(l, rs).nextSweep <= last.at + l.windowMs
      && (forall k :: k in Lazy(l, rs).windows ==> Lazy(l, rs).windows[k].resetAt >= Lazy(l, rs).nextSweep - l.windowMs)
      && Recent(l, Lazy(l, rs), last.at)
    decreases |rs|
  {
    var n := |rs| - 1;
    if n == 0 {
      CountedRefines(l, Lazy(l, []), Plain(l, []), 0, rs[0]);
      assert rs[..n] == [];
    } else {
      LazyAgrees(l, rs[..n]);
      CountedRefines(l, Lazy(l, rs[..n]), Plain(l, rs[..n]), rs[n - 1].at, rs[n]);
    }
  }

  /** A throttled client whose next request waits the advertised seconds is admitted. */
  lemma {:induction false} WaitingIsEnough(l: Limits, rs: seq<Request>, i: nat, seconds: nat)
    requires ClockForward(rs) && l.max >= 1 && i < |rs| - 1
    requires OutcomeOf(l, rs[..i + 1]) == Throttled(seconds)
    requires rs[|rs| - 1].key == rs[i].key && forall j :: i < j < |rs| - 1 ==> rs[j].key != rs[i].key
    requires rs[|rs| - 1].at >= rs[i].at + 1000 * seconds
    ensures OutcomeOf(l, rs) == Admitted
  {
    var n := |rs| - 1;
    Untouched(l, rs[..n], i);
    assert rs[..n][..i + 1] == rs[..i + 1];
  }

  /** A key's window stays as it is while only other keys make requests. */
  lemma {:induction false} Untouched(l: Limits, rs: seq<Request>, i: nat)
    requires i < |rs| && forall j :: i < j < |rs| ==> rs[j].key != rs[i].key
    ensures rs[i].key in Plain(l, rs) && Plain(l, rs)[rs[i].key] == Plain(l, rs[..i + 1])[rs[i].key]
    decreases |rs|
  {
    var n := |rs| - 1;
    if i == n {
      assert rs[..i + 1] == rs;
    } else {
      Untouched(l, rs[..n], i);
      assert rs[..n][..i + 1] == rs[..i + 1];
    }
  }

  // ---------- The sliding bound ----------

  /** How many of the key's requests in [lo, hi) were admitted. */
  function AdmittedIn(l: Limits, rs: seq<Request>, key: Key, lo: int, hi: int): nat {
    if rs == [] then 0
    else
      var r := rs[|rs| - 1];
      AdmittedIn(l, rs[..|rs| - 1], key, lo, hi) + if r.key == key && lo <= r.at < hi &&
          OutcomeOf(l, rs) == Admitted then 1 else 0
  }

  lemma {:induction false} SplitInterval(l: Limits, rs: seq<Request>, key: Key, lo: int, mid: int, hi: int)
    requires lo <= mid <= hi
    ensures AdmittedIn(l, rs, key, lo, hi) == AdmittedIn(l, rs, key, lo, mid) + AdmittedIn(l, rs, key, mid, hi)
    decreases |rs|
  {
    if rs == [] {
    } else {
      SplitInterval(l, rs[..|rs| - 1], key, lo, mid, hi);
    }
  }

  lemma {:induction false} Widen(l: Limits, rs: seq<Request>, key: Key, lo: int, lo': int, hi: int, hi': int)
    requires lo' <= lo && hi <= hi'
    ensures AdmittedIn(l, rs, key, lo, hi) <= AdmittedIn(l, rs, key, lo', hi')
    decreases |rs|
  {
    if rs == [] {
    } else {
      Widen(l, rs[..|rs| - 1], key, lo, lo', hi, hi');
    }
  }

  /** What the limiter knows of a key in window `w`: what was admitted since the window opened is
      within its count and the limit, what was admitted in the window's length before it opened is
      within the limit, and nothing was admitted once it was over. */
  ghost predicate WithinBounds(l: Limits, rs: seq<Request>, key: Key, w: Window, hi: int) {
    var start := w.resetAt - l.windowMs;
    && AdmittedIn(l, rs, key, start, hi) <= Min(w.count, l.max)
    && AdmittedIn(l, rs, key, start - l.windowMs, start) <= l.max
    && AdmittedIn(l, rs, key, w.resetAt, hi) == 0
  }

  lemma {:induction false} WindowBounds(l: Limits, rs: seq<Request>, key: Key, lo: int, hi: int)
    requires ClockForward(rs) && l.windowMs >= 1
    ensures key !in Plain(l, rs) ==> AdmittedIn(l, rs, key, lo, hi) == 0
    ensures key in Plain(l, rs) ==> WithinBounds(l, rs, key, Plain(l, rs)[key], hi)
    decreases |rs|, 0
  {
    if rs == [] {
    } else {
      var n := |rs| - 1;
      var r, before := rs[n], Plain(l, rs[..n]);
      WindowBounds(l, rs[..n], key, lo, hi);
      if r.key == key {
        if key !in before {
          WindowBounds(l, rs[..n], key, r.at - l.windowMs, r.at);
          WindowBounds(l, rs[..n], key, r.at, hi);
          WindowBounds(l, rs[..n], key, r.at + l.windowMs, hi);
          NewWindow(l, rs, key, hi);
        } else if r.at >= before[key].resetAt {
          OpensLater(l, rs[..n], key, before[key], r.at, hi);
          NewWindow(l, rs, key, hi);
        } else {
          assert rs[n - 1].at <= r.at;
          LastIsLate(l, rs[..n], key);
          SameWindow(l, rs, key, hi);
        }
      }
    }
  }

  /** The last request opens a window for its key. */
  lemma NewWindow(l: Limits, rs: seq<Request>, key: Key, hi: int)
    requires rs != [] && rs[|rs| - 1].key == key && l.windowMs >= 1
    requires var r, before := rs[|rs| - 1], rs[..|rs| - 1];
      && (key in Plain(l, before) ==> r.at >= Plain(l, before)[key].resetAt)
      && AdmittedIn(l, before, key, r.at, hi) == 0 && AdmittedIn(l, before, key, r.at + l.windowMs, hi) == 0
      && AdmittedIn(l, before, key, r.at - l.windowMs, r.at) <= l.max
    ensures WithinBounds(l, rs, key, Plain(l, rs)[key], hi)
  {
    assert Plain(l, rs)[key] == Window(1, rs[|rs| - 1].at + l.windowMs);
  }

  /** The last request counts in the window its key has. */
  lemma SameWindow(l: Limits, rs: seq<Request>, key: Key, hi: int)
    requires rs != [] && rs[|rs| - 1].key == key
    requires var r, before := rs[|rs| - 1], rs[..|rs| - 1];
      && key in Plain(l, before) && Plain(l, before)[key].resetAt - l.windowMs <= r.at < Plain(l, before)[key].resetAt
      && WithinBounds(l, before, key, Plain(l, before)[key], hi)
    ensures WithinBounds(l, rs, key, Plain(l, rs)[key], hi)
  {
    var w := Plain(l, rs[..|rs| - 1])[key];
    assert Plain(l, rs)[key] == Window(w.count + 1, w.resetAt);
  }

  /** Opening the next window: the previous window's bound becomes the bound on what came before. */
  lemma OpensLater(l: Limits, rs: seq<Request>, key: Key, w: Window, now: int, hi: int)
    requires ClockForward(rs) && l.windowMs >= 1 && now >= w.resetAt
    requires key in Plain(l, rs) && Plain(l, rs)[key] == w
    requires WithinBounds(l, rs, key, w, hi)
    ensures AdmittedIn(l, rs, key, now, hi) == 0 && AdmittedIn(l, rs, key, now + l.windowMs, hi) == 0
    ensures AdmittedIn(l, rs, key, now - l.windowMs, now) <= l.max
    decreases |rs|, 1
  {
    WindowBounds(l, rs, key, 0, now);
    Widen(l, rs, key, now, w.resetAt, hi, hi);
    Widen(l, rs, key, now + l.windowMs, w.resetAt, hi, hi);
    Widen(l, rs, key, now - l.windowMs, w.resetAt - l.windowMs, now, now);
  }

  /** Sliding bound: in any half-open interval as long as the window a key is admitted at most twice
      the limit, whatever the requests and however many keys there are. */
  lemma {:induction false} SlidingBound(l: Limits, rs: seq<Request>, key: Key, lo: int)
    requires ClockForward(rs)
    ensures AdmittedIn(l, rs, key, lo, lo + l.windowMs) <= 2 * l.max
    decreases |rs|
  {
    var hi := lo + l.windowMs;
    if l.windowMs == 0 {
      NothingAdmitted(l, rs, key, lo);
    } else if key !in Plain(l, rs) {
      WindowBounds(l, rs, key, lo, hi);
    } else {
      var w := Plain(l, rs)[key];
      var start := w.resetAt - l.windowMs;
      WindowBounds(l, rs, key, lo, hi);
      if start <= lo {
        Widen(l, rs, key, lo, start, hi, hi);
      } else if start < hi {
        SplitInterval(l, rs, key, lo, start, hi);
        Widen(l, rs, key, lo, start - l.windowMs, start, start);
      } else {
        SlidingBound(l, rs[..|rs| - 1], key, lo);
        LastIsLate(l, rs, key);
      }
    }
  }

  lemma {:induction false} NothingAdmitted(l: Limits, rs: seq<Request>, key: Key, lo: int)
    ensures AdmittedIn(l, rs, key, lo, lo) == 0
    decreases |rs|
  {
    if rs == [] {
    } else {
      NothingAdmitted(l, rs[..|rs| - 1], key, lo);
    }
  }

  /** The last request came after the key's current window opened. */
  lemma {:induction false} LastIsLate(l: Limits, rs: seq<Request>, key: Key)
    requires ClockForward(rs) && key in Plain(l, rs)
    ensures rs != [] && rs[|rs| - 1].at >= Plain(l, rs)[key].resetAt - l.windowMs
    decreases |rs|
  {
    var n := |rs| - 1;
    if key in Plain(l, rs[..n]) {
      LastIsLate(l, rs[..n], key);
    }
  }

  // ---------- Nobody is throttled too early, or too long ----------

  /** What was admitted from the opening of the key's window on is exactly its requests there, up to the
      limit. */
  lemma {:induction false} WindowFills(l: Limits, rs: seq<Request>, key: Key, hi: int)
    requires ClockForward(rs) && l.windowMs >= 1 && key in Plain(l, rs) && rs != [] && rs[|rs| - 1].at < hi
    ensures var w := Plain(l, rs)[key];
      w.count >= 1 && AdmittedIn(l, rs, key, w.resetAt - l.windowMs, hi) == Min(w.count, l.max)
    decreases |rs|
  {
    var n := |rs| - 1;
    var r, before := rs[n], Plain(l, rs[..n]);
    if r.key == key && (key !in before || r.at >= before[key].resetAt) {
      NoneBeforeOpening(l, rs[..n], key, r.at, hi);
      assert Plain(l, rs)[key] == Window(1, r.at + l.windowMs);
    } else {
      assert rs[..n] != [];
      assert rs[n - 1].at <= r.at;
      WindowFills(l, rs[..n], key, hi);
      LastIsLate(l, rs[..n], key);
    }
  }

  lemma NoneBeforeOpening(l: Limits, rs: seq<Request>, key: Key, now: int, hi: int)
    requires ClockForward(rs) && l.windowMs >= 1 && (key in Plain(l, rs) ==> now >= Plain(l, rs)[key].resetAt)
    ensures AdmittedIn(l, rs, key, now, hi) == 0
  {
    WindowBounds(l, rs, key, now, hi);
    if key in Plain(l, rs) {
      Widen(l, rs, key, now, Plain(l, rs)[key].resetAt, hi, hi);
    }
  }

  /** A request is throttled only if the limit is used up: `max` requests of its key were admitted in the
      window's length before it, up to this instant. */
  lemma ThrottledOnlyWhenFull(l: Limits, rs: seq<Request>)
    requires ClockForward(rs) && rs != [] && OutcomeOf(l, rs).Throttled?
    ensures var r := rs[|rs| - 1]; AdmittedIn(l, rs[..|rs| - 1], r.key, r.at - l.windowMs + 1, r.at + 1) >= l.max
  {
    var r, before := rs[|rs| - 1], rs[..|rs| - 1];
    if l.windowMs >= 1 && l.max >= 1 {
      WindowFills(l, rs, r.key, r.at + 1);
      var w := Plain(l, rs)[r.key];
      assert w.count > l.max;
      assert AdmittedIn(l, before, r.key, w.resetAt - l.windowMs, r.at + 1) == l.max;
      Widen(l, before, r.key, w.resetAt - l.windowMs, r.at - l.windowMs + 1, r.at + 1, r.at + 1);
    } else if l.windowMs == 0 {
      if r.key in Plain(l, before) {
        InstantWindows(l, before, r.key);
      }
      assert Plain(l, rs)[r.key] == Window(1, r.at);
    }
  }

  /** With windows of no length every request opens one. */
  lemma {:induction false} InstantWindows(l: Limits, rs: seq<Request>, key: Key)
    requires ClockForward(rs) && l.windowMs == 0 && key in Plain(l, rs)
    ensures rs != [] && Plain(l, rs)[key].resetAt <= rs[|rs| - 1].at
    decreases |rs|
  {
    var n := |rs| - 1;
    if key in Plain(l, rs[..n]) {
      InstantWindows(l, rs[..n], key);
    }
  }

  /** The current window of a key was opened by one of its requests. */
  lemma {:induction false} OpenedByRequest(l: Limits, rs: seq<Request>, key: Key)
    requires key in Plain(l, rs)
    ensures exists i :: 0 <= i < |rs| && rs[i].key == key && Plain(l, rs)[key].resetAt == rs[i].at + l.windowMs
    decreases |rs|
  {
    var n := |rs| - 1;
    if rs[n].key == key && Plain(l, rs)[key] == Window(1, rs[n].at + l.windowMs) {
      assert rs[n].key == key;
    } else {
      OpenedByRequest(l, rs[..n], key);
      var i :| 0 <= i < n && rs[..n][i].key == key && Plain(l, rs[..n])[key].resetAt == rs[..n][i].at + l.windowMs;
      assert rs[i] == rs[..n][i];
    }
  }

  /** The advertised seconds reach the end of the window, and less than one second past it; so never more
      than the window takes, rounded up. */
  lemma RetryAfterIsTight(l: Limits, rs: seq<Request>, seconds: nat)
    requires ClockForward(rs) && rs != [] && OutcomeOf(l, rs) == Throttled(seconds)
    ensures var r := rs[|rs| - 1]; var resetAt := Plain(l, rs)[r.key].resetAt;
      && seconds >= 1
      && resetAt <= r.at + 1000 * seconds
      && (l.windowMs >= 1 ==> r.at + 1000 * seconds < resetAt + 1000 && resetAt <= r.at + l.windowMs)
  {
    var r := rs[|rs| - 1];
    var i: nat :| i < |rs| && (l.windowMs >= 1 ==>
        rs[i].key == r.key && Plain(l, rs)[r.key].resetAt == rs[i].at + l.windowMs) by {
      OpenedByRequest(l, rs, r.key);
    }
    assert rs[i].at <= r.at;
  }

  // ---------- The limiter that runs ----------

  /** Sweeping is bounded: a request that comes before the next sweep is due leaves every other window and
      the due time alone; one that is due leaves no other window that is over, and none is due again for
      a window's length. */
  lemma SweepsWhenDue(l: Limits, rs: seq<Request>)
    requires rs != []
    ensures var r, was, s := rs[|rs| - 1], Lazy(l, rs[..|rs| - 1]), Lazy(l, rs);
      if r.at < was.nextSweep then
        && s.nextSweep == was.nextSweep && s.windows.Keys == was.windows.Keys + {r.key}
        && forall k :: k in was.windows && k != r.key ==> s.windows[k] == was.windows[k]
      else
        && s.nextSweep == r.at + l.windowMs
        && forall k :: k != r.key ==>
             (k in s.windows <==> k in was.windows && r.at < was.windows[k].resetAt)
             && (k in s.windows ==> s.windows[k] == was.windows[k])
  {
  }

  /** What the sweeping limiter tells the last request. */
  function LazyOutcome(l: Limits, rs: seq<Request>): Outcome
    requires rs != []
  {
    var r := rs[|rs| - 1];
    Decided(l, Lazy(l, rs).windows[r.key], r.at)
  }

  /** How many of the key's requests in [lo, hi) the sweeping limiter admitted. */
  function LazyAdmittedIn(l: Limits, rs: seq<Request>, key: Key, lo: int, hi: int): nat {
    if rs == [] then 0
    else
      var r := rs[|rs| - 1];
      LazyAdmittedIn(l, rs[..|rs| - 1], key, lo, hi) + if r.key == key && lo <= r.at < hi &&
          LazyOutcome(l, rs) == Admitted then 1 else 0
  }

  lemma {:induction false} LazyAdmitsAlike(l: Limits, rs: seq<Request>, key: Key, lo: int, hi: int)
    requires ClockForward(rs)
    ensures LazyAdmittedIn(l, rs, key, lo, hi) == AdmittedIn(l, rs, key, lo, hi)
    decreases |rs|
  {
    if rs == [] {
    } else {
      LazyAdmitsAlike(l, rs[..|rs| - 1], key, lo, hi);
      LazyAgrees(l, rs);
    }
  }

  /** The sliding bound holds of the limiter that runs. */
  lemma LazySlidingBound(l: Limits, rs: seq<Request>, key: Key, lo: int)
    requires ClockForward(rs)
    ensures LazyAdmittedIn(l, rs, key, lo, lo + l.windowMs) <= 2 * l.max
  {
    LazyAdmitsAlike(l, rs, key, lo, lo + l.windowMs);
    SlidingBound(l, rs, key, lo);
  }

  /** So does the promise of Retry-After. */
  lemma LazyWaitingIsEnough(l: Limits, rs: seq<Request>, i: nat, seconds: nat)
    requires ClockForward(rs) && l.max >= 1 && i < |rs| - 1
    requires LazyOutcome(l, rs[..i + 1]) == Throttled(seconds)
    requires rs[|rs| - 1].key == rs[i].key && forall j :: i < j < |rs| - 1 ==> rs[j].key != rs[i].key
    requires rs[|rs| - 1].at >= rs[i].at + 1000 * seconds
    ensures LazyOutcome(l, rs) == Admitted
  {
    LazyAgrees(l, rs[..i + 1]);
    LazyAgrees(l, rs);
    WaitingIsEnough(l, rs, i, seconds);
  }

  /** Nor does the limiter that runs throttle before the limit is used up. */
  lemma LazyThrottledOnlyWhenFull(l: Limits, rs: seq<Request>)
    requires ClockForward(rs) && rs != [] && LazyOutcome(l, rs).Throttled?
    ensures var r := rs[|rs| - 1]; LazyAdmittedIn(l, rs[..|rs| - 1], r.key, r.at - l.windowMs + 1, r.at + 1) >= l.max
  {
    var r, before := rs[|rs| - 1], rs[..|rs| - 1];
    LazyAgrees(l, rs);
    ThrottledOnlyWhenFull(l, rs);
    LazyAdmitsAlike(l, before, r.key, r.at - l.windowMs + 1, r.at + 1);
  }
}
