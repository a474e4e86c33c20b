/** The local-disk blob store: files are a map from content address to bytes, staging a map from
    (upload, index) to bytes. */
module DiskStore {
  import opened Collections
  import opened Model
  import opened Vault

  /** A positioned read may return fewer bytes than asked for, but none only at the end of file. */
  method ReadSync(file: Bytes, length: nat, position: nat) returns (chunk: Bytes)
    requires length > 0
    ensures |chunk| <= length
    ensures position + |chunk| <= |file| || chunk == []
    ensures chunk == if position + |chunk| <= |file| then file[position..position + |chunk|] else []
    ensures chunk == [] <==> position >= |file|
  {
    if position >= |file| {
      chunk := [];
    } else {
      var n: nat :| 1 <= n <= length && position + n <= |file|;
      chunk := file[position..position + n];
    }
  }

  /** The bytes from `lo` up to `hi`, as far as the file goes. */
  function Slice(file: Bytes, lo: nat, hi: nat): Bytes {
    if lo < hi && lo < |file| then file[lo..Min(hi, |file|)] else []
  }

  class DiskBlobStore {
    var files: map<Hash, Bytes>
    var staged: map<PartKey, Bytes>

    constructor ()
      ensures State() == EMPTY_DISK
    {
      files, staged := map[], map[];
    }

    function State(): Disk
      reads this
    {
      Disk(files, staged)
    }

    /** The bytes start..end, both inclusive: exactly that slice of the stored file, cut short only
        by the end of the file, however the reads are split. None when there is no such file. */
    method ReadRange(h: Hash, start: nat, end: int) returns (r: Option<Bytes>)
      ensures end < start ==> r == Some([])
      ensures start <= end && h !in files ==> r == None
      ensures start <= end && h in files ==> r == Some(Slice(files[h], start, end + 1))
    {
      var length := end - start + 1;
      if length <= 0 {
        return Some([]);
      }
      if h !in files {
        return None;
      }
      var file := files[h];
      var buf: Bytes := [];
      while |buf| < length
        invariant |buf| <= length
        invariant buf == [] || (start + |buf| <= |file| && buf == file[start..start + |buf|])
      {
        var chunk := ReadSync(file, length - |buf|, start + |buf|);
        if |chunk| == 0 {
          break;
        }
        assert file[start..start + |buf|] + file[start + |buf|..start + |buf| + |chunk|] ==
            file[start..start + |buf| + |chunk|];
        buf := buf + chunk;
      }
      r := Some(buf);
    }

    method Write(h: Hash, bytes: Bytes)
      modifies this`files
      ensures State() == Put(old(State()), h, bytes)
    {
      if h !in files {
        files := files[h := bytes];
      }
    }

    method Delete(h: Hash)
      modifies this`files
      ensures State() == DeleteFiles(old(State()), {h})
    {
      files := files - {h};
    }

    method StagePart(u: UploadId, index: nat, bytes: Bytes)
      modifies this`staged
      ensures State() == WritePart(old(State()), u, index, bytes)
    {
      staged := staged[PartKey(u, index) := bytes];
    }

    method Join(u: UploadId, indexes: seq<nat>) returns (r: Option<Bytes>)
      ensures r == Assemble(State(), u, indexes)
    {
      var chunks: Bytes := [];
      for i := 0 to |indexes|
        invariant Assemble(State(), u, indexes[..i]) == Some(chunks)
      {
        assert indexes[..i + 1][..i] == indexes[..i];
        if PartKey(u, indexes[i]) !in staged {
          NeverRecovers(State(), u, indexes, i + 1);
          return None;
        }
        chunks := chunks + staged[PartKey(u, indexes[i])];
      }
      assert indexes[..|indexes|] == indexes;
      r := Some(chunks);
    }

    method DiscardSession(u: UploadId)
      modifies this`staged
      ensures State() == DiscardStaged(old(State()), {u})
    {
      staged := StagedExcept(staged, {u});
    }
  }

  /** Once a part is missing, the whole assembly fails. */
  lemma {:induction false} NeverRecovers(disk: Disk, u: UploadId, indexes: seq<nat>, n: nat)
    requires n <= |indexes| && Assemble(disk, u, indexes[..n]).None?
    ensures Assemble(disk, u, indexes).None?
    decreases |indexes| - n
  {
    if n == |indexes| {
      assert indexes[..n] == indexes;
    } else {
      assert indexes[..n + 1][..n] == indexes[..n];
      NeverRecovers(disk, u, indexes, n + 1);
    }
  }
}
