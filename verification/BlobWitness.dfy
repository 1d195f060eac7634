/** A run after which bytes stay for good although nothing references them. */
module BlobWitness {
  import opened Wrappers
  import opened Archive
  import opened Transactions
  import opened BlobRetention
  import opened BlobRuns
  import opened PrivacyDeletion
  import DeletionProperties
  import ReplyStore
  import Witnesses

  /** Nothing is stored but history: outbox, guards, deletion tasks and deletion requests. */
  ghost predicate Clean(db: Db) {
    && db.intake.captures == map[] && db.intake.resolutions == map[] && db.intake.tombstones == map[]
    && db.content == Content(map[], map[], map[], map[], map[], map[], map[])
    && db.library.sources == map[] && db.library.revisions == map[] && db.library.links == map[]
    && db.accounts == map[]
  }

  // ----- One round: captured, observed, deleted ----------------------------------------------

  function Submission(): Capture {
    NewCapture(1, "k", "p", None, None)
  }

  function AfterSubmit(db: Db): Db {
    db.(intake := db.intake.(captures := map[db.minted := Submission()]), minted := db.minted + 1)
  }

  function AfterObservation(db: Db, blob: BlobKey): Db {
    var c, raw := db.minted, db.minted + 1;
    db.(intake := db.intake.(captures := map[c := Submission().(post := Some(raw + 1), status := Resolved)],
                             resolutions := map[raw + 3 := Resolution(c, ResolvedOutcome, Some(raw))]),
        content := db.content.(raws := map[raw := blob], posts := map[raw + 1 := Post(None, "p", "p")],
                               revisions := map[raw + 2 := PostRevision(raw + 1, raw)]),
        minted := db.minted + 5)
  }

  function AfterFact(db: Db, blob: BlobKey): Db {
    var mid, s := AfterObservation(db, blob), SourceId(1, "p");
    mid.(library := mid.library.(sources := map[s := Source(1, db.minted + 2, Some(db.minted))],
                                 revisions := map[db.minted + 5 := SourceRevision(s, "d", 1)]),
         outbox := mid.outbox.Insert(db.minted + 6, Event(SourceCaptured(s, "d"), db.minted)),
         minted := db.minted + 7)
  }

  lemma SubmitCommits(db: Db)
    requires Clean(db)
    ensures Committed(db, IntakeOf(Submit(1, "k", "p")), AfterSubmit(db))
  {
    assert db.intake.captures[db.minted := Submission()] == map[db.minted := Submission()];
  }

  function WithPost(db: Db): Content {
    db.content.(posts := map[db.minted + 2 := Post(None, "p", "p")])
  }

  lemma ObservationFrom(db: Db, blob: BlobKey)
    requires Clean(db)
    ensures ObservationStored(AfterSubmit(db), db.minted, blob, db.minted + 2, WithPost(db), AfterObservation(db, blob))
  {
    var before, after, c, raw := AfterSubmit(db), AfterObservation(db, blob), db.minted, db.minted + 1;
    ReplyStore.NoRelationsNoCycle(before.content);
    assert LastSegment("p") == "p";
    var content := WithPost(db);
    assert PostUpserted(before.content, raw + 1, None, "p", "p", raw + 1, content);
    assert before.intake.captures[c := after.intake.captures[c]] == after.intake.captures;
    assert before.intake.resolutions[raw + 3 := Resolution(c, ResolvedOutcome, Some(raw))] == after.intake.resolutions;
    assert content.raws[raw := blob] == after.content.raws;
    assert content.revisions[raw + 2 := PostRevision(raw + 1, raw)] == after.content.revisions;
  }

  lemma FactFrom(db: Db, blob: BlobKey)
    requires Clean(db)
    ensures Published(AfterObservation(db, blob), Origin(1, db.minted + 2, Some(db.minted)), "d", 1,
                      AfterFact(db, blob))
  {
    var mid, s, origin := AfterObservation(db, blob), SourceId(1, "p"), Origin(1, db.minted + 2, Some(db.minted));
    var after := AfterFact(db, blob);
    var library := mid.library.(sources := after.library.sources);
    assert mid.library.sources[s := Source(1, db.minted + 2, Some(db.minted))] == library.sources;
    assert SourceEnsured(mid.library, "p", origin, s, library);
    assert IsLatest(library, s, None);
    assert library.revisions[db.minted + 5 := SourceRevision(s, "d", 1)] == after.library.revisions;
    assert FactAppended(mid, origin, "d", 1, s, None, library, after);
  }

  lemma ResolveCommits(db: Db, blob: BlobKey)
    requires Clean(db)
    ensures Committed(AfterSubmit(db), FactOf(Resolve(db.minted, blob, "d", 1)), AfterFact(db, blob))
  {
    ObservationFrom(db, blob);
    FactFrom(db, blob);
    assert ObservationRecorded(AfterSubmit(db), db.minted, blob, "d", 1, AfterFact(db, blob));
  }

  /** The owner deletes the capture of the round. */
  ghost predicate IsRequest(db: Db, blob: BlobKey, request: Request, noted: Db) {
    && Clean(db) && request.owner == 1 && request.target == CaptureTarget(db.minted)
    && noted == AfterFact(db, blob).(deletions := noted.deletions)
  }

  lemma DeletionFrom(db: Db, blob: BlobKey, request: Request, noted: Db)
    requires IsRequest(db, blob, request, noted)
    ensures IsDeletion(noted, request, [SourceId(1, "p")], Deleted(noted, request, [SourceId(1, "p")]))
  {
    var post := db.minted + 2;
    assert AffectedPosts(noted, request.target) == {post};
    assert !KeepsHolding(noted.intake.captures, noted.content.posts, noted.accounts, request, post);
    assert FinalPosts(noted, request, {post}) == {post};
    assert GoneSources(noted, request, {post}) == {SourceId(1, "p")};
  }

  lemma PostGoes(db: Db, blob: BlobKey, request: Request, noted: Db)
    requires IsRequest(db, blob, request, noted)
    ensures DeletionProperties.PostsGone(noted, request.target, [SourceId(1, "p")]) == {db.minted + 2}
    ensures DeletionProperties.SourcesAfterAll(noted, request.target, [SourceId(1, "p")]) == map[]
    ensures DeletionProperties.CapturesAfter(noted, request.target) == map[]
  {
    var order := [SourceId(1, "p")];
    assert AffectedPosts(noted, request.target) == {db.minted + 2};
    assert SourceId(1, "p") in order;
    assert DeletionProperties.SourcesAfterAll(noted, request.target, order) == map[];
    assert DeletionProperties.CapturesAfter(noted, request.target) == map[];
  }

  lemma RawGoes(db: Db, blob: BlobKey, content: Content)
    requires Clean(db) && content == AfterFact(db, blob).content
    ensures ContentAfter(content, {db.minted + 2}) == Content(map[], map[], map[], map[], map[], map[], map[])
    ensures GoneBlobs(content, {db.minted + 2}) == {blob}
  {
    var post, raw := db.minted + 2, db.minted + 1;
    assert content.revisions[raw + 2].post == post;
    assert RawsOf(content.revisions, {post}) == {raw};
    assert KeepRevisions(content.revisions, {post}) == map[];
    assert GoneRaws(content, {post}) == {raw};
    assert RawBlobs(content.raws, {raw}) == {blob};
    assert MediaBlobs(content.media, {post}) == {};
  }

  /** The deletion leaves nothing but history, and a task for the bytes unless there was one. */
  lemma CleanAgain(db: Db, blob: BlobKey, request: Request, noted: Db, after: Db)
    requires IsRequest(db, blob, request, noted) && IsDeletion(noted, request, [SourceId(1, "p")], after)
    ensures Clean(after) && after.blobTasks == Scheduled(db.blobTasks, {blob}) && after.deletions == noted.deletions
  {
    PostGoes(db, blob, request, noted);
    RawGoes(db, blob, noted.content);
    RestGoes(db, blob, noted);
    DeletionProperties.TablesAfter(noted, request, [SourceId(1, "p")], after);
  }

  lemma RestGoes(db: Db, blob: BlobKey, noted: Db)
    requires Clean(db) && noted == AfterFact(db, blob).(deletions := noted.deletions)
    ensures ResolutionsWithout(noted.intake.resolutions, db.minted) == map[]
    ensures KeepTombstones(TombstonesWithout(noted.intake.tombstones, db.minted), {db.minted + 2}) == map[]
    ensures KeepSourceRevisions(noted.library.revisions, [SourceId(1, "p")]) == map[]
    ensures KeepLinks(noted.library.links, [SourceId(1, "p")]) == map[]
  {
    assert SourceId(1, "p") in [SourceId(1, "p")];
  }

  // ----- Two rounds with a sweep between them ------------------------------------------------

  function BlobOf(sha: bytes -> bytes, body: bytes): BlobKey {
    BlobKey(REF_PREFIX + Hex(sha(body)), sha(body))
  }

  ghost predicate VaultRun(sha: bytes -> bytes, vaults: seq<Vault>, steps: seq<VaultStep>) {
    && |vaults| == |steps| + 1
    && forall k :: 0 <= k < |steps| ==> VaultTo(sha, vaults[k], steps[k], vaults[k + 1])
  }

  /** Some run from empty tables and an empty store leads to `vault`. */
  ghost predicate VaultReached(sha: bytes -> bytes, vault: Vault) {
    exists vaults, steps ::
      VaultRun(sha, vaults, steps) && vaults[0] == Vault(Witnesses.Empty(), map[]) && vaults[|steps|] == vault
  }

  lemma EmptyVaultReached(sha: bytes -> bytes)
    ensures VaultReached(sha, Vault(Witnesses.Empty(), map[]))
  {
    var vaults, steps: seq<VaultStep> := [Vault(Witnesses.Empty(), map[])], [];
    assert VaultRun(sha, vaults, steps);
  }

  lemma ThenVaultReached(sha: bytes -> bytes, vault: Vault, step: VaultStep, next: Vault)
    requires VaultReached(sha, vault) && VaultTo(sha, vault, step, next)
    ensures VaultReached(sha, next)
  {
    var vaults, steps :|
      VaultRun(sha, vaults, steps) && vaults[0] == Vault(Witnesses.Empty(), map[]) && vaults[|steps|] == vault;
    OneMoreVault(sha, vaults, steps, step, next);
    assert (vaults + [next])[|steps| + 1] == next;
  }

  lemma OneMoreVault(sha: bytes -> bytes, vaults: seq<Vault>, steps: seq<VaultStep>, step: VaultStep, next: Vault)
    requires VaultRun(sha, vaults, steps) && VaultTo(sha, vaults[|steps|], step, next)
    ensures VaultRun(sha, vaults + [next], steps + [step])
  {
    var vaults', steps' := vaults + [next], steps + [step];
    forall k | 0 <= k < |steps'| ensures VaultTo(sha, vaults'[k], steps'[k], vaults'[k + 1]) {
      if k < |steps| {
        assert vaults'[k] == vaults[k] && vaults'[k + 1] == vaults[k + 1] && steps'[k] == steps[k];
      }
    }
  }

  lemma SubmitReached(sha: bytes -> bytes, vault: Vault)
    requires VaultReached(sha, vault) && Clean(vault.db)
    ensures VaultReached(sha, Vault(AfterSubmit(vault.db), vault.files))
  {
    SubmitCommits(vault.db);
    ThenVaultReached(sha, vault, Commits(IntakeOf(Submit(1, "k", "p"))), Vault(AfterSubmit(vault.db), vault.files));
  }

  lemma OneReference(db: Db, blob: BlobKey, other: BlobKey)
    requires Clean(db)
    ensures Referenced(AfterFact(db, blob).content, other) ==> other == blob
  {
  }

  lemma ResolveStep(sha: bytes -> bytes, db: Db, files: map<bytes, bytes>, body: bytes, tx: Tx, after: Db)
    requires Clean(db) && sha(body) !in files && after == AfterFact(db, BlobOf(sha, body))
    requires Committed(AfterSubmit(db), tx, after) && !tx.SettleBlobTask?
    ensures VaultTo(sha, Vault(AfterSubmit(db), files), Commits(tx), Vault(after, files[sha(body) := body]))
  {
    BytesArePresent(sha, db, files, body);
  }

  lemma BytesArePresent(sha: bytes -> bytes, db: Db, files: map<bytes, bytes>, body: bytes)
    requires Clean(db)
    ensures forall blob :: Referenced(AfterFact(db, BlobOf(sha, body)).content, blob) ==>
              Present(sha, files[sha(body) := body], blob)
  {
    forall blob | Referenced(AfterFact(db, BlobOf(sha, body)).content, blob)
      ensures Present(sha, files[sha(body) := body], blob)
    {
      OneReference(db, BlobOf(sha, body), blob);
    }
  }

  lemma ResolveReached(sha: bytes -> bytes, db: Db, files: map<bytes, bytes>, body: bytes)
    requires VaultReached(sha, Vault(AfterSubmit(db), files)) && Clean(db) && sha(body) !in files
    ensures VaultReached(sha, Vault(AfterFact(db, BlobOf(sha, body)), files[sha(body) := body]))
  {
    var blob := BlobOf(sha, body);
    var tx, after := FactOf(Resolve(db.minted, blob, "d", 1)), AfterFact(db, blob);
    ResolveCommits(db, blob);
    ResolveStep(sha, db, files, body, tx, after);
    ThenVaultReached(sha, Vault(AfterSubmit(db), files), Commits(tx), Vault(after, files[sha(body) := body]));
  }

  lemma DeleteStep(sha: bytes -> bytes, vault: Vault, request: Request, after: Db)
    requires Committed(vault.db, Delete(request), after) && Clean(after)
    ensures VaultTo(sha, vault, Commits(Delete(request)), Vault(after, vault.files))
  {
  }

  lemma DeleteReached(sha: bytes -> bytes, db: Db, files: map<bytes, bytes>, blob: BlobKey, operation: Id)
    returns (after: Db)
    requires VaultReached(sha, Vault(AfterFact(db, blob), files)) && Clean(db) && operation !in db.deletions
    ensures VaultReached(sha, Vault(after, files)) && Clean(after)
    ensures after.blobTasks == Scheduled(db.blobTasks, {blob})
    ensures after.deletions.Keys == db.deletions.Keys + {operation}
  {
    var stored, request := AfterFact(db, blob), Request(operation, 1, CaptureTarget(db.minted));
    var noted := stored.(deletions := stored.deletions[operation := (1, CaptureTarget(db.minted))]);
    after := Deleted(noted, request, [SourceId(1, "p")]);
    DeletionFrom(db, blob, request, noted);
    Witnesses.DeletionCommits(stored, request, [SourceId(1, "p")], after);
    CleanAgain(db, blob, request, noted, after);
    DeleteStep(sha, Vault(stored, files), request, after);
    ThenVaultReached(sha, Vault(stored, files), Commits(Delete(request)), Vault(after, files));
  }

  /** Captured, observed and deleted again: the bytes are there, and no row references them. */
  lemma Round(sha: bytes -> bytes, vault: Vault, body: bytes, operation: Id) returns (after: Db)
    requires VaultReached(sha, vault) && Clean(vault.db)
    requires sha(body) !in vault.files && operation !in vault.db.deletions
    ensures VaultReached(sha, Vault(after, vault.files[sha(body) := body])) && Clean(after)
    ensures after.blobTasks == Scheduled(vault.db.blobTasks, {BlobOf(sha, body)})
    ensures after.deletions.Keys == vault.db.deletions.Keys + {operation}
  {
    SubmitReached(sha, vault);
    ResolveReached(sha, vault.db, vault.files, body);
    after := DeleteReached(sha, vault.db, vault.files[sha(body) := body], BlobOf(sha, body), operation);
  }

  /** The sweep between two rounds deletes the bytes and completes their task. */
  lemma SweepStep(sha: bytes -> bytes, vault: Vault, body: bytes)
    requires Clean(vault.db) && vault.files == map[sha(body) := body]
    requires var blob := BlobOf(sha, body); vault.db.blobTasks == map[blob := BlobTask(false, 0)]
    ensures var blob := BlobOf(sha, body);
            VaultTo(sha, vault, Sweeps(blob), Vault(vault.db.(blobTasks := map[blob := BlobTask(true, 1)]), map[]))
  {
    var blob := BlobOf(sha, body);
    assert Free(sha, vault.files, vault.db.content, blob);
    assert vault.files - {blob.hash} == map[];
    assert BlobTaskSettled(vault.db.blobTasks, blob, true) == map[blob := BlobTask(true, 1)];
  }

  /** Bytes that nothing references, under a task that says they are gone. */
  ghost predicate LeftBehind(vault: Vault, blob: BlobKey) {
    blob.hash in vault.files && !Referenced(vault.db.content, blob) && Finished(vault.db.blobTasks, blob)
  }

  /**
   Bytes that are stored, deleted with their last row and swept, and then stored and deleted once
   more, are left behind, and `BlobRuns.FinishedIsNeverSweptAgain` keeps them for good.
   */
  lemma StoredTwiceIsLeftBehind(sha: bytes -> bytes, body: bytes)
    ensures exists vault :: VaultReached(sha, vault) && LeftBehind(vault, BlobOf(sha, body))
  {
    var blob, files := BlobOf(sha, body), map[sha(body) := body];
    EmptyVaultReached(sha);
    var first := Round(sha, Vault(Witnesses.Empty(), map[]), body, 30);
    assert first.blobTasks == map[blob := BlobTask(false, 0)];
    assert map[][sha(body) := body] == files;
    SweepStep(sha, Vault(first, files), body);
    var swept := Vault(first.(blobTasks := map[blob := BlobTask(true, 1)]), map[]);
    ThenVaultReached(sha, Vault(first, files), Sweeps(blob), swept);
    var second := Round(sha, swept, body, 31);
    assert second.blobTasks[blob] == BlobTask(true, 1);
    assert LeftBehind(Vault(second, files), blob);
  }
}
