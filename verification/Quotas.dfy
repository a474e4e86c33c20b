/** The quota gate: four admission checks over read-only aggregates, and the chunked
    existence probe the two volume caps rely on. */
module Quotas {
  import opened Collections

  datatype QuotaPolicy = QuotaPolicy(storageBytes: Option<nat>, rows: Option<nat>, intents: Option<nat>,
      uploads: Option<nat>)

  datatype QuotaKind = Storage | Rows | Intents | ConcurrentUploads

  datatype Verdict = Verdict(status: int, quota: QuotaKind, limit: nat, used: nat, requested: int)

  /** The aggregates an upload is admitted against. */
  datatype Footprint = Footprint(blobBytes: nat, sessionCount: nat, declaredBytes: nat)

  function AdmitUpload(p: QuotaPolicy, fp: Footprint, declared: nat): Option<Verdict> {
    if p.uploads.Some? && fp.sessionCount >= p.uploads.value then
      Some(Verdict(429, ConcurrentUploads, p.uploads.value, fp.sessionCount, 1))
    else if p.storageBytes.Some? && fp.blobBytes + fp.declaredBytes + declared > p.storageBytes.value then
      Some(Verdict(413, Storage, p.storageBytes.value, fp.blobBytes + fp.declaredBytes, declared))
    else None
  }

  function AdmitFinalize(p: QuotaPolicy, fp: Footprint, assembled: nat): Option<Verdict> {
    if p.storageBytes.Some? && fp.blobBytes + assembled > p.storageBytes.value then
      Some(Verdict(413, Storage, p.storageBytes.value, fp.blobBytes, assembled))
    else None
  }

  /** The net-new check shared by the row cap and the intent cap: `existing` is what the chunked
      probe reported for `ids`. */
  function AdmitNetNew<T(==, !new)>(cap: Option<nat>, current: nat, ids: seq<T>, existing: nat, status: int,
                         kind: QuotaKind): Option<Verdict> {
    if cap.None? || |ids| == 0 then None
    else if current + |ids| <= cap.value then None
    else
      var netNew := |Distinct(ids)| - existing;
      if netNew > 0 && current + netNew > cap.value then Some(Verdict(status, kind, cap.value, current, netNew))
          else None
  }

  function AdmitSyncBatch<T(==, !new)>(p: QuotaPolicy, current: nat, ids: seq<T>, existing: nat): Option<Verdict> {
    AdmitNetNew(p.rows, current, ids, existing, 413, Rows)
  }

  function AdmitIntents<T(==, !new)>(p: QuotaPolicy, current: nat, ids: seq<T>, existing: nat): Option<Verdict> {
    AdmitNetNew(p.intents, current, ids, existing, 429, Intents)
  }

  // ---------- The chunked probe ----------

  const IN_CHUNK := 900

  /** `SELECT COUNT(*) ... WHERE id IN (ids)`. */
  function CountIn<T(==, !new)>(present: set<T>, ids: seq<T>): nat {
    |set x | x in present && x in ids|
  }

  /** The slice the i-th id is asked about in. */
  function SliceNo(i: nat): nat { i / IN_CHUNK }

  /** Where the slice that ends before i begins. */
  function SliceStart(i: nat): (lo: nat)
    requires i > 0
    ensures lo < i
  {
    SliceNo(i - 1) * IN_CHUNK
  }

  /** The probe as issued: one count per slice of IN_CHUNK ids, added up. `i` ids are done. */
  function ChunkedCount<T(==, !new)>(present: set<T>, ids: seq<T>, i: nat): nat
    requires i <= |ids|
  {
    if i == 0 then 0
    else
      var lo := SliceStart(i);
      ChunkedCount(present, ids, lo) + CountIn(present, ids[lo..i])
  }

  function ChunkedExisting<T(==, !new)>(present: set<T>, ids: seq<T>): nat {
    ChunkedCount(present, ids, |ids|)
  }

  /** An id that already exists is asked about at i and again at j, in another slice. */
  predicate AskedTwice<T(==)>(present: set<T>, ids: seq<T>, i: int, j: int) {
    0 <= i < j < |ids| && ids[i] == ids[j] && ids[i] in present && SliceNo(i) != SliceNo(j)
  }

  ghost predicate Straddles<T(!new)>(present: set<T>, ids: seq<T>) {
    exists i, j :: AskedTwice(present, ids, i, j)
  }

  /** Position i is asked about in vain: its id exists and was asked about in an earlier slice, and i
      is where the slice asks about it first. */
  ghost predicate AsksAgain<T(!new)>(present: set<T>, ids: seq<T>, i: int) {
    && 0 <= i < |ids|
    && (exists j :: AskedTwice(present, ids, j, i))
    && (forall j :: 0 <= j < i && SliceNo(j) == SliceNo(i) ==> ids[j] != ids[i])
  }

  /** The positions before n that are counted once too often. */
  ghost function Repeats<T(!new)>(present: set<T>, ids: seq<T>, n: nat): set<int> {
    set i | 0 <= i < n && AsksAgain(present, ids, i)
  }

  /** Over-count: the probe reports the distinct existing ids, plus one for every slice in which an
      existing id is asked about again. */
  lemma ProbeOvercounts<T(!new)>(present: set<T>, ids: seq<T>)
    ensures ChunkedExisting(present, ids) == CountIn(present, ids) + |Repeats(present, ids, |ids|)|
  {
    OvercountTo(present, ids, |ids|);
    assert ids[..|ids|] == ids;
  }

  lemma {:induction false} OvercountTo<T(!new)>(present: set<T>, ids: seq<T>, n: nat)
    requires n <= |ids|
    ensures ChunkedCount(present, ids, n) == CountIn(present, ids[..n]) + |Repeats(present, ids, n)|
    decreases n
  {
    if n == 0 {
      assert Repeats(present, ids, 0) == {};
      assert (set x | x in present && x in ids[..0]) == {};
    } else {
      var lo := SliceStart(n);
      OvercountTo(present, ids, lo);
      JoinCounts(present, ids[..lo], ids[lo..n]);
      SharedRepeats(present, ids, lo, n);
      assert ids[..n] == ids[..lo] + ids[lo..n];
    }
  }

  /** The existing ids two slices have in common. */
  function Shared<T(==, !new)>(present: set<T>, a: seq<T>, b: seq<T>): set<T> {
    set x | x in present && x in a && x in b
  }

  /** Counting two slices separately counts twice exactly what they share. */
  lemma JoinCounts<T(!new)>(present: set<T>, a: seq<T>, b: seq<T>)
    ensures CountIn(present, a) + CountIn(present, b) == CountIn(present, a + b) + |Shared(present, a, b)|
  {
    var sa := set x | x in present && x in a;
    var sb := set x | x in present && x in b;
    assert (set x | x in present && x in a + b) == sa + sb;
    assert Shared(present, a, b) == sa * sb;
    assert |sa + sb| == |sa| + |sb| - |sa * sb|;
  }

  /** The last slice repeats one position for each id it shares with what came before. */
  lemma SharedRepeats<T(!new)>(present: set<T>, ids: seq<T>, lo: nat, n: nat)
    requires 0 < n <= |ids| && lo == SliceStart(n)
    ensures |Repeats(present, ids, n)| == |Repeats(present, ids, lo)| + |Shared(present, ids[..lo], ids[lo..n])|
  {
    var last := set i | lo <= i < n && AsksAgain(present, ids, i);
    var shared := Shared(present, ids[..lo], ids[lo..n]);
    assert Repeats(present, ids, n) == Repeats(present, ids, lo) + last;
    var at := (i: int) => if 0 <= i < |ids| then ids[i] else ids[0];
    forall i | i in last ensures at(i) in shared {
      RepeatIsShared(present, ids, lo, n, i);
    }
    forall x | x in shared ensures exists i :: i in last && at(i) == x {
      var i := SharedIsRepeat(present, ids, lo, n, x);
      assert i in last && at(i) == x;
    }
    forall i, j | i in last && j in last && at(i) == at(j) ensures i == j {
      LastSliceAlike(n, i, j);
    }
    assert shared == set i | i in last :: at(i);
    ImageCard(last, shared, at);
  }

  lemma RepeatIsShared<T(!new)>(present: set<T>, ids: seq<T>, lo: nat, n: nat, i: nat)
    requires 0 < n <= |ids| && lo == SliceStart(n) && lo <= i < n && AsksAgain(present, ids, i)
    ensures ids[i] in Shared(present, ids[..lo], ids[lo..n])
  {
    var j :| AskedTwice(present, ids, j, i);
    LastSlice(n, j, i);
    assert ids[..lo][j] == ids[i] && ids[lo..n][i - lo] == ids[i];
  }

  lemma SharedIsRepeat<T(!new)>(present: set<T>, ids: seq<T>, lo: nat, n: nat, x: T) returns (i: nat)
    requires 0 < n <= |ids| && lo == SliceStart(n) && x in Shared(present, ids[..lo], ids[lo..n])
    ensures lo <= i < n && ids[i] == x && AsksAgain(present, ids, i)
  {
    var j :| 0 <= j < lo && ids[..lo][j] == x;
    var k :| 0 <= k < n - lo && ids[lo..n][k] == x;
    i := FirstFrom(ids, lo, lo + k);
    LastSlice(n, j, i);
    assert AskedTwice(present, ids, j, i);
    forall m | 0 <= m < i && SliceNo(m) == SliceNo(i) ensures ids[m] != ids[i] {
      LastSlice(n, m, i);
    }
  }

  /** Where, from lo on, the id at k is asked about first. */
  lemma {:induction false} FirstFrom<T(!new)>(ids: seq<T>, lo: nat, k: nat) returns (i: nat)
    requires lo <= k < |ids|
    ensures lo <= i <= k && ids[i] == ids[k] && forall m :: lo <= m < i ==> ids[m] != ids[k]
    decreases k
  {
    if m: nat :| lo <= m < k && ids[m] == ids[k] {
      i := FirstFrom(ids, lo, m);
    } else {
      i := k;
    }
  }

  lemma SliceOf(q: nat, i: nat)
    ensures i < q * IN_CHUNK <==> SliceNo(i) < q
  {
  }

  /** Two places before n are in different slices, the later one in the last, exactly when the last
      slice begins between them. */
  lemma LastSlice(n: nat, i: nat, j: nat)
    requires i < j < n && j >= SliceStart(n)
    ensures SliceNo(i) != SliceNo(j) <==> i < SliceStart(n)
  {
    var q := SliceNo(n - 1);
    SliceOf(q, i);
    SliceOf(q, j);
  }

  lemma LastSliceAlike(n: nat, i: nat, j: nat)
    requires n > 0 && SliceStart(n) <= i < n && SliceStart(n) <= j < n
    ensures SliceNo(i) == SliceNo(j)
  {
    SliceOf(SliceNo(n - 1), i);
    SliceOf(SliceNo(n - 1), j);
  }

  /** Some id is asked about again in a later slice exactly when some position repeats it. */
  lemma StraddlesRepeat<T(!new)>(present: set<T>, ids: seq<T>)
    ensures Repeats(present, ids, |ids|) == {} <==> !Straddles(present, ids)
  {
    forall j, k | AskedTwice(present, ids, j, k) ensures Repeats(present, ids, |ids|) != {} {
      var lo := SliceStart(k + 1);
      var i := FirstFrom(ids, lo, k);
      LastSlice(k + 1, j, k);
      LastSlice(k + 1, j, i);
      assert AskedTwice(present, ids, j, i);
      forall m | 0 <= m < i && SliceNo(m) == SliceNo(i) ensures ids[m] != ids[i] {
        LastSlice(k + 1, m, i);
      }
      assert i in Repeats(present, ids, |ids|);
    }
  }

  /** The exactness the gate's comment claims: the probe reports the number of distinct existing
      ids if and only if no existing id straddles two slices; otherwise it reports too many. */
  lemma ProbeExact<T(!new)>(present: set<T>, ids: seq<T>)
    ensures ChunkedExisting(present, ids) >= CountIn(present, ids)
    ensures ChunkedExisting(present, ids) == CountIn(present, ids) <==> !Straddles(present, ids)
  {
    ProbeOvercounts(present, ids);
    StraddlesRepeat(present, ids);
  }

  /** The probe reports more than there are distinct ids if and only if existing ids are asked about
      again more often than there are new ids. */
  lemma ProbeExceedsDistinct<T(!new)>(present: set<T>, ids: seq<T>)
    ensures ChunkedExisting(present, ids) > |Distinct(ids)| <==>
            |Repeats(present, ids, |ids|)| > |Distinct(ids) - present|
  {
    ProbeOvercounts(present, ids);
    NetNew(ids, present);
  }

  /** It does for 901 copies of one existing id: it reports two, and there is one. */
  lemma ExceedsDistinct<T(!new)>(x: T)
    ensures var ids := seq(IN_CHUNK + 1, _ => x); ChunkedExisting({x}, ids) == 2 && |Distinct(ids)| == 1
  {
    var ids := seq(IN_CHUNK + 1, _ => x);
    assert ids[0] == x && ids[IN_CHUNK] == x;
    assert Distinct(ids) == {x};
    assert SliceNo(IN_CHUNK) == 1;
    assert forall j: nat :: j < IN_CHUNK ==> SliceNo(j) == 0;
    assert AskedTwice({x}, ids, 0, IN_CHUNK);
    assert AsksAgain({x}, ids, IN_CHUNK);
    forall i | AsksAgain({x}, ids, i) ensures i == IN_CHUNK {
    }
    assert Repeats({x}, ids, |ids|) == {IN_CHUNK};
    ProbeOvercounts({x}, ids);
    NetNew(ids, {x});
    assert Distinct(ids) - {x} == {};
  }

  /** Duplicate-free batches, and batches of one slice, never straddle. */
  lemma NeverStraddles<T(!new)>(present: set<T>, ids: seq<T>)
    requires |ids| <= IN_CHUNK || forall i, j :: 0 <= i < j < |ids| ==> ids[i] != ids[j]
    ensures !Straddles(present, ids)
  {
  }

  lemma NetNew<T(!new)>(ids: seq<T>, present: set<T>)
    ensures |Distinct(ids)| == CountIn(present, ids) + |Distinct(ids) - present|
  {
    var d := Distinct(ids);
    assert (set x | x in present && x in ids) == d * present;
    assert d == (d * present) + (d - present);
  }

  /** What the gate really decides, for any probe: it takes every repeat off what is new, and admits
      if and only if nothing is left or the rest fits. The fast path never decides otherwise. */
  lemma AdmitsDiscounted<T(!new)>(cap: nat, current: nat, ids: seq<T>, present: set<T>, status: int, kind: QuotaKind)
    ensures var netNew, repeats := |Distinct(ids) - present|, |Repeats(present, ids, |ids|)|;
      AdmitNetNew(Some(cap), current, ids, ChunkedExisting(present, ids), status, kind).None? <==>
        netNew <= repeats || current + netNew - repeats <= cap
  {
    ProbeOvercounts(present, ids);
    NetNew(ids, present);
    DistinctCard(ids);
    if |ids| == 0 {
      assert Distinct(ids) - present == {};
    }
  }

  /** With an exact probe the caps are exact: a batch is admitted if and only if it adds nothing new or
      its distinct new ids fit. */
  lemma AdmitsExactly<T(!new)>(cap: nat, current: nat, ids: seq<T>, present: set<T>, status: int, kind: QuotaKind)
    requires !Straddles(present, ids)
    ensures var netNew := |Distinct(ids) - present|;
      AdmitNetNew(Some(cap), current, ids, ChunkedExisting(present, ids), status, kind).None? <==>
        netNew == 0 || current + netNew <= cap
  {
    StraddlesRepeat(present, ids);
    AdmitsDiscounted(cap, current, ids, present, status, kind);
  }

  /** The probe cannot let this batch past a cap: it is exact, or there is nothing new to hide. */
  ghost predicate Watertight<T(!new)>(present: set<T>, ids: seq<T>) {
    !Straddles(present, ids) || Distinct(ids) <= present
  }

  /** The admitted batch fits the cap, or brings nothing above what is there. */
  ghost predicate FitsIfAdmitted<T(!new)>(cap: nat, current: nat, ids: seq<T>, present: set<T>, status: int,
                                   kind: QuotaKind) {
    AdmitNetNew(Some(cap), current, ids, ChunkedExisting(present, ids), status, kind).None? ==>
      current + |Distinct(ids) - present| <= Max(cap, current)
  }

  lemma AdmittedFits<T(!new)>(cap: nat, current: nat, ids: seq<T>, present: set<T>, status: int, kind: QuotaKind)
    requires Watertight(present, ids)
    ensures FitsIfAdmitted(cap, current, ids, present, status, kind)
  {
    if Distinct(ids) <= present {
      assert Distinct(ids) - present == {};
    } else {
      AdmitsExactly(cap, current, ids, present, status, kind);
    }
  }

  /** The caps hold against a batch, whatever the cap and the count, if and only if no existing id
      straddles two slices or nothing in it is new. */
  lemma CapsHold<T(!new)>(ids: seq<T>, present: set<T>, status: int, kind: QuotaKind)
    ensures (forall cap: nat, current: nat :: FitsIfAdmitted(cap, current, ids, present, status, kind)) <==>
            Watertight(present, ids)
  {
    if Watertight(present, ids) {
      forall cap: nat, current: nat ensures FitsIfAdmitted(cap, current, ids, present, status, kind) {
        AdmittedFits(cap, current, ids, present, status, kind);
      }
    } else {
      var added := Distinct(ids) - present;
      var x :| x in Distinct(ids) && x !in present;
      assert |added| == |added - {x}| + 1;
      StraddlesRepeat(present, ids);
      var i :| i in Repeats(present, ids, |ids|);
      assert |Repeats(present, ids, |ids|)| == |Repeats(present, ids, |ids|) - {i}| + 1;
      AdmitsDiscounted(|added| - 1, 0, ids, present, status, kind);
      assert !FitsIfAdmitted(|added| - 1, 0, ids, present, status, kind);
    }
  }

  /** A rejection is always justified: the distinct new ids really would not fit. It names the limit,
      what is used, and what is new less the repeats. */
  lemma RejectedDoesNotFit<T(!new)>(cap: nat, current: nat, ids: seq<T>, present: set<T>, status: int, kind: QuotaKind)
    requires AdmitNetNew(Some(cap), current, ids, ChunkedExisting(present, ids), status, kind).Some?
    ensures var netNew := |Distinct(ids) - present|; current + netNew > cap && netNew > 0
    ensures var v := AdmitNetNew(Some(cap), current, ids, ChunkedExisting(present, ids), status, kind).value;
      && v.limit == cap && v.used == current && v.requested > 0
      && v.requested == |Distinct(ids) - present| - |Repeats(present, ids, |ids|)|
  {
    ProbeOvercounts(present, ids);
    NetNew(ids, present);
  }

  /** A row that exists, asked about 901 times, hides one new row from a cap that is reached. */
  lemma StraddleSlipsThrough<T(!new)>(x: T, y: T)
    requires x != y
    ensures var ids := seq(IN_CHUNK + 1, _ => x) + [y]; !FitsIfAdmitted(1, 1, ids, {x}, 413, Rows)
  {
    var ids := seq(IN_CHUNK + 1, _ => x) + [y];
    assert ids[0] == x && ids[IN_CHUNK] == x && ids[IN_CHUNK + 1] == y;
    assert AskedTwice({x}, ids, 0, IN_CHUNK);
    ProbeExact({x}, ids);
    assert (set z | z in {x} && z in ids) == {x};
    forall z | z in ids ensures z in {x, y} {
      var i :| 0 <= i < |ids| && ids[i] == z;
    }
    assert Distinct(ids) == {x, y};
    assert Distinct(ids) - {x} == {y};
  }
}
