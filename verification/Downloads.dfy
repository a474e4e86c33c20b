/** Blob downloads: the route that answers a whole or ranged GET, and clients that resume. */
module Downloads {
  import opened Collections
  import opened Model
  import opened Vault
  import opened Handlers
  import opened Ranges
  import opened Integrity

  datatype Download = Missing | OutOfRange(size: nat) | Whole(bytes: Bytes) |
      Partial(start: nat, end: nat, size: nat, bytes: Bytes)

  /** The account can read the blob: it has a row for it, and the bytes are there. */
  predicate Readable(w: World, a: Account, h: Hash) {
    BlobKey(a, h) in w.db.blobs && h in w.disk.files
  }

  method HandleDownload(server: Server, a: Account, h: Hash, header: Option<string>) returns (d: Download)
    ensures d.Missing? <==> !Readable(server.Now(), a, h)
    ensures Readable(server.Now(), a, h) ==> d == Answer(server.disk.files[h], header)
    ensures BlobKey(a, h) !in server.store.blobs ==> d == Missing
    ensures BlobKey(a, h) in server.store.blobs && h in server.disk.files && IsPlain(header) ==>
        d == Whole(server.disk.files[h])
  {
    if BlobKey(a, h) !in server.store.blobs || h !in server.disk.files {
      return Missing;
    }
    var size := |server.disk.files[h]|;
    WholeOrLess(header, size);
    var range := ParseRange(header, size);
    AcceptedIsInside(header, size);
    match range {
      case Unsatisfiable =>
        d := OutOfRange(size);
      case Full =>
        var bytes := server.disk.ReadRange(h, 0, size - 1);
        d := Whole(bytes.value);
      case Part(start, end) =>
        var bytes := server.disk.ReadRange(h, start, end);
        d := Partial(start, end, size, bytes.value);
    }
  }

  lemma WholeOrLess(header: Option<string>, size: nat)
    ensures IsPlain(header) ==> ParseRange(header, size) == Full
  {
    if IsPlain(header) {
      PlainGetsAll(header, size);
    }
  }

  /** Without a header in range form the answer is the whole file. */
  lemma PlainAnswer(file: Bytes, header: Option<string>)
    requires IsPlain(header)
    ensures Answer(file, header) == Whole(file)
  {
    PlainGetsAll(header, |file|);
  }

  /** What a client that may read the blob gets: the whole file, or exactly the bytes start..end. */
  function Answer(file: Bytes, header: Option<string>): Download {
    AcceptedIsInside(header, |file|);
    match ParseRange(header, |file|)
    case Unsatisfiable => OutOfRange(|file|)
    case Full => Whole(file)
    case Part(start, end) => Partial(start, end, |file|, file[start..end + 1])
  }

  /** Byte k of a partial answer is byte start + k of the blob, and its bytes are exactly those the
      header asked for. */
  lemma AnswersWhatIsAsked(file: Bytes, header: string, first: string, last: string)
    requires HasForm(Trim(header), first, last) && (first != "" || last != "")
    ensures var d := Answer(file, Some(header));
      && (d.OutOfRange? || d.Partial?)
      && (d.OutOfRange? <==> forall i :: !AsksFor(first, last, |file|, i))
      && (d.OutOfRange? ==> d.size == |file|)
      && (d.Partial? ==>
            && |d.bytes| == d.end - d.start + 1 && d.size == |file|
            && (forall i :: d.start <= i <= d.end <==> AsksFor(first, last, |file|, i))
            && forall i :: AsksFor(first, last, |file|, i) ==> d.bytes[i - d.start] == file[i])
  {
    ParsesWhatIsAsked(header, |file|, first, last);
    AcceptedIsInside(Some(header), |file|);
  }

  // ---------- Resuming ----------

  /** What the client keeps of an answer that broke off after n bytes. */
  function Kept(d: Download, n: nat): Bytes {
    match d
    case Partial(_, _, _, bytes) => bytes[..Min(n, |bytes|)]
    case Whole(bytes) => bytes[..Min(n, |bytes|)]
    case _ => []
  }

  /** A client that asks for what it still misses, time after time; the i-th answer breaks off after
      cuts[i] bytes. */
  function Collected(file: Bytes, cuts: seq<nat>): Bytes {
    if cuts == [] then []
    else
      var got := Collected(file, cuts[..|cuts| - 1]);
      got + Kept(Answer(file, Some(PrintFrom(|got|))), cuts[|cuts| - 1])
  }

  function TotalCut(cuts: seq<nat>): nat {
    if cuts == [] then 0 else TotalCut(cuts[..|cuts| - 1]) + cuts[|cuts| - 1]
  }

  lemma KeptNext(file: Bytes, got: nat, n: nat)
    requires got <= |file|
    ensures Kept(Answer(file, Some(PrintFrom(got))), n) == file[got..Min(got + n, |file|)]
  {
    RoundTripFrom(got, |file|);
    if got < |file| {
      var rest := file[got..|file|];
      assert rest[..Min(n, |rest|)] == file[got..Min(got + n, |file|)];
    }
  }

  /** Wherever the answers break off, what has been collected is a prefix of the blob, as long as the
      answers were; once they add up to its size, it is the whole blob. */
  lemma {:induction false} ResumedDownload(file: Bytes, cuts: seq<nat>)
    ensures Collected(file, cuts) == file[..Min(TotalCut(cuts), |file|)]
    ensures TotalCut(cuts) >= |file| ==> Collected(file, cuts) == file
    decreases |cuts|
  {
    if cuts == [] {
      assert file[..0] == [];
    } else {
      var before, n := cuts[..|cuts| - 1], cuts[|cuts| - 1];
      ResumedDownload(file, before);
      var got := Min(TotalCut(before), |file|);
      KeptNext(file, got, n);
      JoinPrefix(file, got, Min(got + n, |file|));
    }
    assert file[..|file|] == file;
  }

  lemma JoinPrefix(file: Bytes, lo: nat, hi: nat)
    requires lo <= hi <= |file|
    ensures file[..lo] + file[lo..hi] == file[..hi]
  {
  }

  /** And since addresses are content addresses, the client ends up with the bytes that were
      uploaded under the hash it asked for. */
  lemma DownloadIsGenuine(cfg: Config, w: World, a: Account, h: Hash, cuts: seq<nat>, uploaded: Bytes)
    requires Readable(w, a, h) && FilesHash(cfg, w.disk) && CollisionFree(cfg)
    requires cfg.sha(uploaded) == h && TotalCut(cuts) >= |uploaded|
    ensures Collected(w.disk.files[h], cuts) == uploaded
  {
    assert cfg.sha(w.disk.files[h]) == cfg.sha(uploaded);
    ResumedDownload(uploaded, cuts);
  }

  // ---------- Over a run ----------

  /** The client asks in state ss[at]; the answer breaks off after `cut` bytes. */
  datatype Visit = Visit(at: nat, cut: nat)

  ghost predicate Within(ss: seq<World>, visits: seq<Visit>) {
    forall i :: 0 <= i < |visits| ==> visits[i].at < |ss|
  }

  /** What the client has after its visits: each time it asks for what it still misses, and when the
      blob cannot be read just then it gets nothing. */
  ghost function CollectedOver(ss: seq<World>, a: Account, h: Hash, visits: seq<Visit>): Bytes
    requires Within(ss, visits)
  {
    if visits == [] then []
    else
      var v, got := visits[|visits| - 1], CollectedOver(ss, a, h, visits[..|visits| - 1]);
      if Readable(ss[v.at], a, h)
      then got + Kept(Answer(ss[v.at].disk.files[h], Some(PrintFrom(|got|))), v.cut)
      else got
  }

  /** How far the answers would have reached, added up. */
  ghost function ReachOver(ss: seq<World>, a: Account, h: Hash, visits: seq<Visit>): nat
    requires Within(ss, visits)
  {
    if visits == [] then 0
    else
      var v := visits[|visits| - 1];
      ReachOver(ss, a, h, visits[..|visits| - 1]) + if Readable(ss[v.at], a, h) then v.cut else 0
  }

  /** Whatever is stored under h at any point of a run is the one blob that hashes to h. */
  lemma AlwaysTheBlob(cfg: Config, ss: seq<World>, ops: seq<Op>, ts: seq<int>, n: nat, h: Hash, blob: Bytes)
    requires Trace(cfg, ss, ops, ts) && n <= |ops| && FilesHash(cfg, ss[0].disk) && RowsHash(cfg, ss[0].db)
    requires CollisionFree(cfg) && cfg.sha(blob) == h
    ensures h in ss[n].disk.files ==> ss[n].disk.files[h] == blob
  {
    ContentAddressed(cfg, ss, ops, ts, n);
    if h in ss[n].disk.files {
      assert cfg.sha(ss[n].disk.files[h]) == cfg.sha(blob);
    }
  }

  /** Resumed download over a run: between two answers anything may happen, sweeps, deletion and
      re-upload included. What the client has is always a prefix of the one blob that hashes to h, as
      long as the answers reached; once they add up to its size, it is the whole blob. */
  lemma {:induction false} ResumedOverRun(cfg: Config, ss: seq<World>, ops: seq<Op>, ts: seq<int>, a: Account, h: Hash,
                                          visits: seq<Visit>, blob: Bytes)
    requires Trace(cfg, ss, ops, ts) && FilesHash(cfg, ss[0].disk) && RowsHash(cfg, ss[0].db)
    requires CollisionFree(cfg) && cfg.sha(blob) == h && Within(ss, visits)
    ensures CollectedOver(ss, a, h, visits) == blob[..Min(ReachOver(ss, a, h, visits), |blob|)]
    ensures ReachOver(ss, a, h, visits) >= |blob| ==> CollectedOver(ss, a, h, visits) == blob
    decreases |visits|
  {
    assert blob[..|blob|] == blob;
    if visits == [] {
    } else {
      var before, v := visits[..|visits| - 1], visits[|visits| - 1];
      ResumedOverRun(cfg, ss, ops, ts, a, h, before, blob);
      AlwaysTheBlob(cfg, ss, ops, ts, v.at, h, blob);
      var got := Min(ReachOver(ss, a, h, before), |blob|);
      KeptNext(blob, got, v.cut);
      JoinPrefix(blob, got, Min(got + v.cut, |blob|));
    }
  }
}
