/** Stored bytes, the rows that reference them, and the deletion tasks. */
module BlobRetention {
  import opened Wrappers
  import opened Archive
  import opened Transactions

  // ----- References --------------------------------------------------------------------------

  const REF_PREFIX := "threads-archive/raw/sha256/"

  function HexDigit(n: nat): char
    requires n < 16
  {
    if n < 10 then (n + '0' as int) as char else (n - 10 + 'a' as int) as char
  }

  function Hex(b: bytes): string {
    if b == [] then "" else Hex(b[..|b| - 1]) + [HexDigit(b[|b| - 1] / 16), HexDigit(b[|b| - 1] % 16)]
  }

  /** The loop that spells out a digest. */
  method SpellHex(b: bytes) returns (text: string)
    ensures text == Hex(b)
  {
    text := "";
    for n := 0 to |b|
      invariant text == Hex(b[..n])
    {
      assert b[..n + 1][..n] == b[..n];
      text := text + [HexDigit(b[n] / 16), HexDigit(b[n] % 16)];
    }
    assert b[..|b|] == b;
  }

  /** The reference the raw object store gives out for a digest. */
  predicate Canonical(blob: BlobKey) {
    blob.blobRef == REF_PREFIX + Hex(blob.hash)
  }

  predicate ByRaw(content: Content, blob: BlobKey) {
    exists r :: r in content.raws && content.raws[r] == blob
  }

  predicate ByMedia(content: Content, blob: BlobKey, except: Option<Id>) {
    exists m :: m in content.media && Some(m) != except && content.media[m].blob == Some(blob)
  }

  predicate ByExport(content: Content, blob: BlobKey) {
    exists x :: x in content.exportRuns && content.exportRuns[x] == blob
  }

  /** The count of live references is positive. */
  predicate Referenced(content: Content, blob: BlobKey) {
    ByRaw(content, blob) || ByMedia(content, blob, None) || ByExport(content, blob)
  }

  /** An object is referenced exactly when some raw, media or export row names it. */
  lemma ReferencedIffNamed(content: Content, blob: BlobKey)
    ensures Referenced(content, blob) <==>
            || (exists r :: r in content.raws && content.raws[r] == blob)
            || (exists m :: m in content.media && content.media[m].blob == Some(blob))
            || (exists x :: x in content.exportRuns && content.exportRuns[x] == blob)
  {
  }

  lemma DigitIsInjective(m: nat, n: nat)
    requires m < 16 && n < 16
    ensures HexDigit(m) == HexDigit(n) <==> m == n
  {
  }

  lemma ByteIsInjective(x: byte, y: byte)
    requires HexDigit(x / 16) == HexDigit(y / 16) && HexDigit(x % 16) == HexDigit(y % 16)
    ensures x == y
  {
    DigitIsInjective(x / 16, y / 16);
    DigitIsInjective(x % 16, y % 16);
    assert x == x / 16 * 16 + x % 16 && y == y / 16 * 16 + y % 16;
  }

  lemma {:induction false} HexLength(b: bytes)
    ensures |Hex(b)| == 2 * |b|
  {
    if b == [] {
    } else {
      HexLength(b[..|b| - 1]);
    }
  }

  lemma HexEnds(b: bytes)
    requires b != []
    ensures var n := |b| - 1;
            && |Hex(b)| == 2 * n + 2 && Hex(b)[..2 * n] == Hex(b[..n])
            && Hex(b)[2 * n] == HexDigit(b[n] / 16) && Hex(b)[2 * n + 1] == HexDigit(b[n] % 16)
  {
    HexLength(b[..|b| - 1]);
  }

  lemma {:induction false} HexIsInjective(a: bytes, b: bytes)
    requires Hex(a) == Hex(b)
    ensures a == b
    decreases |a|
  {
    HexLength(a);
    HexLength(b);
    if a == [] {
    } else {
      var n := |a| - 1;
      HexEnds(a);
      HexEnds(b);
      HexIsInjective(a[..n], b[..n]);
      ByteIsInjective(a[n], b[n]);
      assert a == a[..n] + [a[n]] && b == b[..n] + [b[n]];
    }
  }

  /** A reference belongs to one object: two canonical keys with the same reference are the same. */
  lemma ReferenceNamesOneObject(a: BlobKey, b: BlobKey)
    requires Canonical(a) && Canonical(b)
    ensures a.blobRef == b.blobRef <==> a == b
  {
    assert a.blobRef[|REF_PREFIX|..] == Hex(a.hash) && b.blobRef[|REF_PREFIX|..] == Hex(b.hash);
    if a.blobRef == b.blobRef {
      HexIsInjective(a.hash, b.hash);
    }
  }

  // ----- The raw object store ----------------------------------------------------------------

  datatype StoreError = DigestMismatch | Missing

  /** `RawObjectStore`: a directory of files named by their digest. */
  class RawObjectStore {
    const sha: bytes -> bytes
    var files: map<bytes, bytes>

    constructor (sha: bytes -> bytes)
      ensures this.sha == sha && files == map[]
    {
      this.sha, files := sha, map[];
    }

    /** New bytes become a file under their digest; an existing file is reused only when it still has that digest. */
    method Store(body: bytes) returns (stored: Result<BlobKey, StoreError>)
      modifies this
      ensures stored.Success? ==>
                && stored.value.hash == sha(body) && Canonical(stored.value)
                && sha(body) in files && sha(files[sha(body)]) == sha(body)
                && files == (if sha(body) in old(files) then old(files) else old(files)[sha(body) := body])
      ensures stored.Failure? <==> sha(body) in old(files) && sha(old(files)[sha(body)]) != sha(body)
      ensures stored.Failure? ==> stored.error == DigestMismatch && files == old(files)
    {
      var hash := sha(body);
      var name := SpellHex(hash);
      if hash in files {
        if sha(files[hash]) != hash {
          return Failure(DigestMismatch);
        }
      } else {
        files := files[hash := body];
      }
      return Success(BlobKey(REF_PREFIX + name, hash));
    }

    /** Bytes are handed out only under their own reference and only while they have their digest. */
    method ReadVerified(blob: BlobKey) returns (body: Result<bytes, StoreError>)
      ensures body.Success? <==> Canonical(blob) && blob.hash in files && sha(files[blob.hash]) == blob.hash
      ensures body.Success? ==> body.value == files[blob.hash] && sha(body.value) == blob.hash
    {
      var name := SpellHex(blob.hash);
      if blob.blobRef != REF_PREFIX + name {
        return Failure(DigestMismatch);
      }
      if blob.hash !in files {
        return Failure(Missing);
      }
      if sha(files[blob.hash]) != blob.hash {
        return Failure(DigestMismatch);
      }
      return Success(files[blob.hash]);
    }

    /** Afterwards the object is absent, unless its reference or its bytes do not match; no other object changes. */
    method DeleteIfMatches(blob: BlobKey) returns (gone: bool)
      modifies this
      ensures gone <==> Canonical(blob) && (blob.hash in old(files) ==> sha(old(files)[blob.hash]) == blob.hash)
      ensures files == if gone then old(files) - {blob.hash} else old(files)
    {
      var name := SpellHex(blob.hash);
      if blob.blobRef != REF_PREFIX + name {
        return false;
      }
      if blob.hash !in files {
        return true;
      }
      if sha(files[blob.hash]) != blob.hash {
        return false;
      }
      files := files - {blob.hash};
      return true;
    }
  }

  /**
   What was stored reads back, byte for byte, exactly when no other file is in its place: a file that
   lost its digest is refused, and one with the same digest is handed out instead.
   */
  method StoreThenRead(store: RawObjectStore, body: bytes) returns (read: Result<bytes, StoreError>)
    modifies store
    ensures var digest, files := store.sha(body), old(store.files);
            && (read == Success(body) <==> (digest in files ==> files[digest] == body))
            && (read == Failure(DigestMismatch) <==> digest in files && store.sha(files[digest]) != digest)
            && (read.Success? && read.value != body ==>
                  digest in files && read.value == files[digest] && store.sha(read.value) == digest)
  {
    var stored := store.Store(body);
    if stored.Failure? {
      return Failure(stored.error);
    }
    read := store.ReadVerified(stored.value);
  }

  // ----- Deletion tasks ----------------------------------------------------------------------

  datatype TaskOutcome = NoSuchTask | TaskPending | TaskComplete

  /** No row references the object, its reference is its own, and the file is absent or has its digest. */
  predicate Free(sha: bytes -> bytes, files: map<bytes, bytes>, content: Content, blob: BlobKey) {
    && !Referenced(content, blob) && Canonical(blob)
    && (blob.hash in files ==> sha(files[blob.hash]) == blob.hash)
  }

  class BlobWorker {
    const database: Database
    const store: RawObjectStore

    constructor (database: Database, store: RawObjectStore)
      ensures this.database == database && this.store == store
    {
      this.database, this.store := database, store;
    }

    /** One attempt at one task: bytes go only when no row references them, and a deletion task completes only then. */
    method ProcessTask(blob: BlobKey) returns (outcome: TaskOutcome)
      modifies database, store
      ensures var tasks := old(database.blobTasks);
              var free := Free(store.sha, old(store.files), old(database.content), blob);
              var idle := blob !in tasks || tasks[blob].complete;
              && outcome == (if blob !in tasks then NoSuchTask else if idle || free then TaskComplete else TaskPending)
              && database.View() == old(database.View()).(blobTasks := BlobTaskSettled(tasks, blob, free))
              && store.files == if !idle && free then old(store.files) - {blob.hash} else old(store.files)
    {
      if blob !in database.blobTasks {
        return NoSuchTask;
      }
      if database.blobTasks[blob].complete {
        return TaskComplete;
      }
      var gone := false;
      if !Referenced(database.content, blob) {
        gone := store.DeleteIfMatches(blob);
      }
      database.blobTasks := BlobTaskSettled(database.blobTasks, blob, gone);
      return if gone then TaskComplete else TaskPending;
    }
  }

  // ----- Planning the expiry of one media row ------------------------------------------------

  datatype CleanupPlan = RetainShared | ScheduleDelete(blob: BlobKey)

  function PlanMediaExpiry(content: Content, m: Id): Option<CleanupPlan> {
    if m !in content.media || content.media[m].blob.None? then None
    else
      var blob := content.media[m].blob.value;
      if ByRaw(content, blob) || ByMedia(content, blob, Some(m)) || ByExport(content, blob) then Some(RetainShared)
      else Some(ScheduleDelete(blob))
  }

  /**
   The plan says delete exactly when the reference check of a deletion task would pass once that
   media row is gone.
   */
  lemma PlanMatchesTask(content: Content, m: Id)
    requires m in content.media && content.media[m].blob.Some?
    ensures var blob := content.media[m].blob.value;
            PlanMediaExpiry(content, m) == Some(ScheduleDelete(blob)) <==>
            !Referenced(content.(media := content.media - {m}), blob)
  {
    var blob, after := content.media[m].blob.value, content.(media := content.media - {m});
    assert ByRaw(after, blob) == ByRaw(content, blob) && ByExport(after, blob) == ByExport(content, blob);
    assert ByMedia(after, blob, None) <==> ByMedia(content, blob, Some(m)) by {
      if ByMedia(content, blob, Some(m)) {
        var k :| k in content.media && Some(k) != Some(m) && content.media[k].blob == Some(blob);
        assert k in after.media;
      }
    }
  }
}
