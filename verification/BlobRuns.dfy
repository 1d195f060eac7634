/** Bytes and references over whole runs: what the transactions and the deletion worker keep together. */
module BlobRuns {
  import opened Wrappers
  import opened Archive
  import opened Transactions
  import opened Invariants
  import opened BlobRetention
  import PrivacyDeletion
  import DeletionProperties
  import Runs

  datatype Vault = Vault(db: Db, files: map<bytes, bytes>)

  /** A transaction that stores the bytes it starts to reference, or one attempt at a deletion task as one step. */
  datatype VaultStep = Commits(tx: Tx) | Sweeps(blob: BlobKey)

  /** The bytes of `blob` are there under its canonical reference. */
  ghost predicate Present(sha: bytes -> bytes, files: map<bytes, bytes>, blob: BlobKey) {
    Canonical(blob) && blob.hash in files && sha(files[blob.hash]) == blob.hash
  }

  ghost predicate VaultTo(sha: bytes -> bytes, vault: Vault, step: VaultStep, next: Vault) {
    match step
    case Commits(tx) =>
      && Committed(vault.db, tx, next.db) && !tx.SettleBlobTask?
      && (forall h :: h in vault.files ==> h in next.files && next.files[h] == vault.files[h])
      && (forall blob :: Referenced(next.db.content, blob) && !Referenced(vault.db.content, blob) ==>
        Present(sha, next.files, blob))
    case Sweeps(blob) =>
      && var idle := blob !in vault.db.blobTasks || vault.db.blobTasks[blob].complete;
         var free := Free(sha, vault.files, vault.db.content, blob);
         && Committed(vault.db, SettleBlobTask(blob, free), next.db)
         && next.files == if !idle && free then vault.files - {blob.hash} else vault.files
  }

  /** The bytes of every object that a raw, media or export row names are there. */
  ghost predicate Backed(sha: bytes -> bytes, vault: Vault) {
    var content := vault.db.content;
    && (forall r :: r in content.raws ==> Present(sha, vault.files, content.raws[r]))
    && (forall m :: m in content.media && content.media[m].blob.Some? ==>
          Present(sha, vault.files, content.media[m].blob.value))
    && (forall x :: x in content.exportRuns ==> Present(sha, vault.files, content.exportRuns[x]))
  }

  lemma StepKeepsBacked(sha: bytes -> bytes, vault: Vault, step: VaultStep, next: Vault)
    requires Backed(sha, vault) && VaultTo(sha, vault, step, next)
    ensures Backed(sha, next)
  {
    forall blob | Referenced(next.db.content, blob) ensures Present(sha, next.files, blob) {
      if step.Sweeps? {
        assert next.db.content == vault.db.content;
        assert Canonical(step.blob) && step.blob.hash == blob.hash ==> step.blob == blob;
      }
    }
  }

  /** Whatever is stored, captured, deleted and swept, no referenced bytes are ever deleted. */
  lemma {:induction false} ReferencedBytesStay(sha: bytes -> bytes, vaults: seq<Vault>, steps: seq<VaultStep>, i: nat)
    requires |vaults| == |steps| + 1 && i < |vaults| && Backed(sha, vaults[0])
    requires forall k :: 0 <= k < |steps| ==> VaultTo(sha, vaults[k], steps[k], vaults[k + 1])
    ensures Backed(sha, vaults[i])
  {
    if i == 0 {
    } else {
      ReferencedBytesStay(sha, vaults, steps, i - 1);
      StepKeepsBacked(sha, vaults[i - 1], steps[i - 1], vaults[i]);
    }
  }

  // ----- Rows that go leave a task -----------------------------------------------------------

  predicate Keeps<V(==)>(before: map<Id, V>, after: map<Id, V>, k: Id)
    requires k in before
  {
    k in after && after[k] == before[k]
  }

  /** A raw or media row of `before` that `after` does not keep left a task for its bytes. */
  ghost predicate TasksLeft(before: Content, after: Content, tasks: map<BlobKey, BlobTask>) {
    && (forall r :: r in before.raws ==> Keeps(before.raws, after.raws, r) || before.raws[r] in tasks)
    && (forall m :: m in before.media && before.media[m].blob.Some? ==>
          Keeps(before.media, after.media, m) || before.media[m].blob.value in tasks)
  }

  lemma DeletionLeavesTasks(db: Db, request: PrivacyDeletion.Request, order: seq<SourceId>, after: Db)
    requires PrivacyDeletion.IsDeletion(db, request, order, after)
    ensures TasksLeft(db.content, after.content, after.blobTasks)
  {
    DeletionProperties.NetEffectHolds(db, request, order, after);
    GoneRowsAreScheduled(db, request.target, order);
  }

  lemma GoneRowsAreScheduled(db: Db, target: Target, order: seq<SourceId>)
    ensures var posts := DeletionProperties.PostsGone(db, target, order);
            var detached := db.content.(posts := DeletionProperties.PostsDetached(db, target));
            TasksLeft(db.content, PrivacyDeletion.ContentAfter(detached, posts),
                      PrivacyDeletion.Scheduled(db.blobTasks, PrivacyDeletion.GoneBlobs(db.content, posts)))
  {
    var posts := DeletionProperties.PostsGone(db, target, order);
    var gone := PrivacyDeletion.GoneRaws(db.content, posts);
    assert forall r :: r in db.content.raws && r in gone ==>
      db.content.raws[r] in PrivacyDeletion.RawBlobs(db.content.raws, gone);
  }

  /**
   An owner deletion leaves a task for the bytes of every raw and media row it deletes; no other
   transaction deletes one.
   */
  lemma GoneRowsLeaveTasks(db: Db, tx: Tx, after: Db)
    requires Sound(db) && Committed(db, tx, after)
    ensures TasksLeft(db.content, after.content, after.blobTasks)
  {
    match tx
    case Delete(request) => DeleteTxLeavesTasks(db, request, after);
    case FactOf(fact) => FactKeepsRows(db, fact, after);
    case StoreOf(store) => StoreKeepsRows(db, store, after);
    case _ => Runs.SameContent(db, tx, after);
  }

  lemma DeleteTxLeavesTasks(db: Db, request: PrivacyDeletion.Request, after: Db)
    requires DeleteCommitted(db, request, after)
    ensures TasksLeft(db.content, after.content, after.blobTasks)
  {
    var result :| PrivacyDeletion.Applied(db, request, result, after);
    if result == Success(true) {
      var noted := db.(deletions := db.deletions[request.operation := (request.owner, request.target)]);
      var order :| PrivacyDeletion.IsDeletion(noted, request, order, after);
      DeletionLeavesTasks(noted, request, order, after);
    }
  }

  /** Every raw and every media row stays as it is. */
  ghost predicate RowsStay(before: Content, after: Content) {
    && (forall r :: r in before.raws ==> Keeps(before.raws, after.raws, r))
    && (forall m :: m in before.media ==> Keeps(before.media, after.media, m))
  }

  lemma StoreKeepsRows(db: Db, tx: StoreTx, after: Db)
    requires FreshContent(db.content, db.minted) && StoreCommitted(db, tx, after)
    ensures RowsStay(db.content, after.content)
  {
  }

  lemma FactKeepsRows(db: Db, tx: FactTx, after: Db)
    requires FreshContent(db.content, db.minted) && FactCommitted(db, tx, after)
    ensures RowsStay(db.content, after.content)
  {
    match tx
    case Resolve(capture, blob, digest, now) =>
      var q, content, mid :| ObservationStored(db, capture, blob, q, content, mid) &&
        Published(mid, Origin(mid.intake.captures[capture].owner, q, Some(capture)), digest, now, after);
      ObservationKeepsRows(db, capture, blob, q, content, mid);
      Runs.PublishedKeepsContent(mid, Origin(mid.intake.captures[capture].owner, q, Some(capture)), digest, now, after);
    case MarkUnavailable(capture, availability, digest, now) =>
      var row := db.intake.captures[capture];
      if row.post.Some? {
        Runs.PublishedKeepsContent(MarkedOnly(db, capture, availability, now),
          Origin(row.owner, row.post.value, Some(capture)),
                                   digest, now, after);
      }
    case Publish(origin, digest, now) => Runs.PublishedKeepsContent(db, origin, digest, now, after);
  }

  lemma ObservationKeepsRows(db: Db, capture: Id, blob: BlobKey, q: Id, content: Content, mid: Db)
    requires FreshContent(db.content, db.minted) && ObservationStored(db, capture, blob, q, content, mid)
    ensures RowsStay(db.content, mid.content)
  {
  }

  // ----- Where the cleanup falls short -------------------------------------------------------

  predicate Finished(tasks: map<BlobKey, BlobTask>, blob: BlobKey) {
    blob in tasks && tasks[blob].complete
  }

  /** A raw or media row with the bytes of `blob` is not kept. */
  ghost predicate LosesRow(before: Content, after: Content, blob: BlobKey) {
    || (exists r :: r in before.raws && before.raws[r] == blob && !Keeps(before.raws, after.raws, r))
    || (exists m :: m in before.media && before.media[m].blob == Some(blob) && !Keeps(before.media, after.media, m))
  }

  /**
   The blob task an owner deletion leaves for the bytes of a row it deletes is pending exactly when the
   object had no completed task.
   */
  lemma RescheduledIffNotCompleted(db: Db, request: PrivacyDeletion.Request, after: Db, blob: BlobKey)
    requires DeleteCommitted(db, request, after) && LosesRow(db.content, after.content, blob)
    ensures blob in after.blobTasks
    ensures !after.blobTasks[blob].complete <==> !Finished(db.blobTasks, blob)
  {
    DeleteTxLeavesTasks(db, request, after);
    DeleteKeepsFinished(db, request, after, blob);
  }

  lemma ScheduledKeepsFinished(tasks: map<BlobKey, BlobTask>, gone: set<BlobKey>, blob: BlobKey)
    ensures Finished(PrivacyDeletion.Scheduled(tasks, gone), blob) <==> Finished(tasks, blob)
  {
  }

  lemma DeletionKeepsFinished(db: Db, request: PrivacyDeletion.Request, order: seq<SourceId>, after: Db, blob: BlobKey)
    requires PrivacyDeletion.IsDeletion(db, request, order, after)
    ensures Finished(after.blobTasks, blob) <==> Finished(db.blobTasks, blob)
  {
    DeletionProperties.TablesAfter(db, request, order, after);
    var posts := DeletionProperties.PostsGone(db, request.target, order);
    ScheduledKeepsFinished(db.blobTasks, PrivacyDeletion.GoneBlobs(db.content, posts), blob);
  }

  lemma DeleteKeepsFinished(db: Db, request: PrivacyDeletion.Request, after: Db, blob: BlobKey)
    requires DeleteCommitted(db, request, after)
    ensures Finished(after.blobTasks, blob) <==> Finished(db.blobTasks, blob)
  {
    var result :| PrivacyDeletion.Applied(db, request, result, after);
    if result == Success(true) {
      var noted := db.(deletions := db.deletions[request.operation := (request.owner, request.target)]);
      var order :| PrivacyDeletion.IsDeletion(noted, request, order, after);
      DeletionKeepsFinished(noted, request, order, after, blob);
    }
  }

  lemma PublishedKeepsTasks(db: Db, origin: Origin, digest: string, now: Time, after: Db)
    requires Published(db, origin, digest, now, after)
    ensures after.blobTasks == db.blobTasks
  {
  }

  lemma FactKeepsTasks(db: Db, tx: FactTx, after: Db)
    requires FactCommitted(db, tx, after)
    ensures after.blobTasks == db.blobTasks
  {
    match tx
    case Resolve(capture, blob, digest, now) =>
      var q, content, mid :| ObservationStored(db, capture, blob, q, content, mid) &&
        Published(mid, Origin(mid.intake.captures[capture].owner, q, Some(capture)), digest, now, after);
      PublishedKeepsTasks(mid, Origin(mid.intake.captures[capture].owner, q, Some(capture)), digest, now, after);
    case MarkUnavailable(capture, availability, digest, now) =>
      var row := db.intake.captures[capture];
      if row.post.Some? {
        PublishedKeepsTasks(MarkedOnly(db, capture, availability, now),
          Origin(row.owner, row.post.value, Some(capture)),
                            digest, now, after);
      }
    case Publish(origin, digest, now) => PublishedKeepsTasks(db, origin, digest, now, after);
  }

  lemma CommitKeepsFinished(db: Db, tx: Tx, after: Db, blob: BlobKey)
    requires Committed(db, tx, after) && Finished(db.blobTasks, blob)
    ensures Finished(after.blobTasks, blob)
  {
    match tx
    case Delete(request) => DeleteKeepsFinished(db, request, after, blob);
    case FactOf(fact) => FactKeepsTasks(db, fact, after);
    case _ =>
  }

  lemma StepKeepsFinished(sha: bytes -> bytes, vault: Vault, step: VaultStep, next: Vault, blob: BlobKey)
    requires VaultTo(sha, vault, step, next) && Canonical(blob) && Finished(vault.db.blobTasks, blob)
    ensures Finished(next.db.blobTasks, blob)
    ensures blob.hash in vault.files ==> blob.hash in next.files && next.files[blob.hash] == vault.files[blob.hash]
  {
    match step
    case Commits(tx) => CommitKeepsFinished(vault.db, tx, next.db, blob);
    case Sweeps(other) => assert Canonical(other) && other.hash == blob.hash ==> other == blob;
  }

  /**
   A completed task is never taken up again: whatever is captured, deleted and swept later, bytes
   that were stored again under its object stay for good, also once no row references them.
   */
  lemma {:induction false} FinishedIsNeverSweptAgain(
      sha: bytes -> bytes, vaults: seq<Vault>, steps: seq<VaultStep>, i: nat, j: nat, blob: BlobKey)
    requires |vaults| == |steps| + 1 && i <= j < |vaults| && Canonical(blob) && Finished(vaults[i].db.blobTasks, blob)
    requires forall k :: 0 <= k < |steps| ==> VaultTo(sha, vaults[k], steps[k], vaults[k + 1])
    ensures Finished(vaults[j].db.blobTasks, blob)
    ensures blob.hash in vaults[i].files ==>
              blob.hash in vaults[j].files && vaults[j].files[blob.hash] == vaults[i].files[blob.hash]
    decreases j
  {
    if i == j {
    } else {
      FinishedIsNeverSweptAgain(sha, vaults, steps, i, j - 1, blob);
      StepKeepsFinished(sha, vaults[j - 1], steps[j - 1], vaults[j], blob);
    }
  }

  /** Deleting the bytes of an object is safe exactly when it is unreferenced at that very moment. */
  lemma DeleteIsSafeIffUnreferenced(sha: bytes -> bytes, vault: Vault, blob: BlobKey)
    requires Backed(sha, vault) && Canonical(blob)
    ensures Backed(sha, vault.(files := vault.files - {blob.hash})) <==> !Referenced(vault.db.content, blob)
  {
    var after := vault.(files := vault.files - {blob.hash});
    if !Referenced(vault.db.content, blob) {
      forall b | Referenced(after.db.content, b) ensures Present(sha, after.files, b) {
        assert Present(sha, vault.files, b);
        assert b.hash == blob.hash ==> b == blob;
      }
    }
  }

  /**
   Checking and deleting in two queries is not enough: after a check that passed, a transaction
   that stores the same bytes again reuses the file, and the delete takes it away from under it.
   */
  lemma CheckedDeleteCanLoseBytes(sha: bytes -> bytes, vault: Vault, blob: BlobKey)
    requires Backed(sha, vault) && !Referenced(vault.db.content, blob) && Present(sha, vault.files, blob)
    ensures var db := vault.db.(content := vault.db.content.(raws := vault.db.content.raws[vault.db.minted := blob]),
                                minted := vault.db.minted + 1);
            var next := vault.(db := db);
            && VaultTo(sha, vault, Commits(StoreOf(StoreRaw(blob))), next)
            && !Backed(sha, next.(files := next.files - {blob.hash}))
  {
    var db := vault.db.(content := vault.db.content.(raws := vault.db.content.raws[vault.db.minted := blob]),
                        minted := vault.db.minted + 1);
    var next := vault.(db := db);
    assert db.content.raws[vault.db.minted] == blob;
    assert Referenced(db.content, blob);
    forall b | Referenced(db.content, b) && !Referenced(vault.db.content, b) ensures b == blob {
      OneMoreReference(vault.db.content, vault.db.minted, blob, b);
    }
  }

  lemma OneMoreReference(content: Content, r: Id, blob: BlobKey, b: BlobKey)
    ensures Referenced(content.(raws := content.raws[r := blob]), b) ==> Referenced(content, b) || b == blob
  {
    var after := content.(raws := content.raws[r := blob]);
    if ByRaw(after, b) && b != blob {
      var k :| k in after.raws && after.raws[k] == b;
      assert content.raws[k] == b;
    }
  }
}
