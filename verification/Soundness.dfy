/** Every transaction of the service keeps the tables sound. */
module Soundness {
  import opened Wrappers
  import opened Archive
  import opened Transactions
  import opened Integrity
  import opened Invariants
  import opened Preservation
  import PrivacyDeletion
  import DeletionProperties

  lemma CaptureKeepsSound(db: Db, row: Capture, inbox: set<Id>, outbox: Outbox, minted: Id)
    requires Sound(db) && row.post.None? && db.minted < minted
    ensures Sound(db.(intake := db.intake.(inbox := inbox, captures := db.intake.captures[db.minted := row]),
                      outbox := outbox, minted := minted))
  {
    var intake := db.intake.(inbox := inbox);
    CaptureFiled(intake, row, db.content, db.minted);
    CaptureCoded(intake, db.minted, row, db.content.posts);
    ShelfGrows(db.library, db.content.posts, db.intake.captures, db.minted,
               db.content.posts, db.intake.captures[db.minted := row], minted);
  }

  lemma InboxKeepsSound(db: Db, inbox: set<Id>, outbox: Outbox, minted: Id)
    requires Sound(db) && db.minted <= minted
    ensures Sound(db.(intake := db.intake.(inbox := inbox), outbox := outbox, minted := minted))
  {
    ShelfGrows(db.library, db.content.posts, db.intake.captures, db.minted, db.content.posts, db.intake.captures,
      minted);
  }

  lemma CapturesKeepSound(db: Db, captures: map<Id, Capture>, outbox: Outbox, minted: Id)
    requires Sound(db) && SameHoldings(db.intake.captures, captures) && db.minted <= minted
    ensures Sound(db.(intake := db.intake.(captures := captures), outbox := outbox, minted := minted))
  {
    CapturesRefiled(db.intake, captures, db.content, db.minted);
    CapturesRecoded(db.intake, captures, db.content.posts);
    ShelfGrows(db.library, db.content.posts, db.intake.captures, db.minted, db.content.posts, captures, minted);
  }

  lemma FailureKeepsSound(db: Db, capture: Id, after: Db)
    requires Sound(db) && FailureStored(db, capture, after)
    ensures Sound(after)
  {
    ResolutionFiled(db.intake, capture, ResolverFailed, db.content, db.minted);
  }

  lemma MarkKeepsSound(db: Db, capture: Id, availability: Availability, now: Time)
    requires Sound(db) && capture in db.intake.captures
    ensures Sound(MarkedOnly(db, capture, availability, now))
  {
    var captures := db.intake.captures[capture := db.intake.captures[capture].(status := Unavailable)];
    var tombstone := Tombstone(db.intake.captures[capture].post, Some(capture), availability, now);
    CapturesKeepSound(db, captures, db.outbox, db.minted);
    var marked := db.intake.(captures := captures);
    TombstoneFiled(marked, tombstone, db.content, db.minted);
    TombstoneCoded(marked, db.minted, tombstone, db.content.posts);
    ResolutionFiled(marked.(tombstones := marked.tombstones[db.minted := tombstone]), capture, UnavailableOutcome,
                    db.content, db.minted + 1);
    ShelfGrows(db.library, db.content.posts, db.intake.captures, db.minted, db.content.posts, captures, db.minted + 2);
  }

  /** The post of an observation, whatever raw evidence and revision come with it. */
  lemma UpsertKeepsContent(content: Content, id: Id, account: Option<Id>, code: string, permalink: string, p: Id,
                           upserted: Content, accounts: map<Id, Id>, minted: Id)
    requires Held(content, accounts, minted) && OnePostPerCode(content.posts) && minted <= id
    requires account.Some? ==> account.value in accounts
    requires PostUpserted(content, id, account, code, permalink, p, upserted)
    ensures Held(upserted, accounts, id + 1) && Grows(content, upserted)
    ensures OnePostPerCode(upserted.posts) && IsPost(upserted.posts, code, p)
  {
    PostCoded(content, id, account, code, permalink, p, upserted);
    PostHeld(content, p, upserted.posts[p], accounts, minted);
  }

  lemma EvidenceKeepsContent(content: Content, raw: Id, blob: BlobKey, p: Id, accounts: map<Id, Id>, minted: Id)
    requires Held(content, accounts, minted) && p in content.posts && raw < minted
    ensures var after := content.(raws := content.raws[raw := blob],
                                  revisions := content.revisions[minted := PostRevision(p, raw)]);
            Held(after, accounts, minted + 1) && Grows(content, after)
  {
    RawHeld(content, raw, blob, accounts, minted);
    RevisionHeld(content.(raws := content.raws[raw := blob]), p, raw, accounts, minted);
  }

  lemma ObservationKeepsSound(db: Db, capture: Id, blob: BlobKey, p: Id, content: Content, after: Db)
    requires Sound(db) && ObservationStored(db, capture, blob, p, content, after)
    ensures Sound(after)
    ensures p in after.content.posts
  {
    var url := db.intake.captures[capture].url;
    UpsertKeepsContent(db.content, db.minted + 1, None, LastSegment(url), url, p, content, db.accounts, db.minted);
    EvidenceKeepsContent(content, db.minted, blob, p, db.accounts, db.minted + 2);
    assert Grows(db.content, after.content);
    ContentGrowsFiled(db.intake, db.content, after.content, db.minted, db.minted + 4);
    ContentGrowsCoded(db.intake, db.content, after.content);
    CaptureSettledFiled(db.intake, capture, p, db.minted + 2, db.minted, after.content, db.minted + 3, db.minted + 4);
    CaptureSettledCoded(db.intake, capture, p, db.minted, after.content.posts, db.minted + 3);
    ShelfGrows(db.library, db.content.posts, db.intake.captures, db.minted,
               after.content.posts, after.intake.captures, db.minted + 4);
  }

  lemma AppendKeepsSound(
      db: Db, origin: Origin, digest: string, now: Time, s: SourceId, latest: Option<Id>, library: Library,
                       after: Db)
    requires Sound(db) && FactAppended(db, origin, digest, now, s, latest, library, after)
    requires origin.capture.Some? ==> origin.capture.value in db.intake.captures
    ensures Sound(after)
  {
    if library != db.library {
      SourceShelved(db.library, s, Source(origin.owner, origin.post, origin.capture), db.content.posts,
        db.intake.captures, db.minted);
    }
    if after.minted != db.minted {
      SourceRevisionShelved(library, SourceRevision(s, digest, now), db.content.posts, db.intake.captures, db.minted);
      ContentGrowsFiled(db.intake, db.content, db.content, db.minted, after.minted);
      ShelfGrows(after.library, db.content.posts, db.intake.captures, db.minted + 1,
                 db.content.posts, db.intake.captures, after.minted);
    }
  }

  lemma PublishKeepsSound(db: Db, origin: Origin, digest: string, now: Time, after: Db)
    requires Sound(db) && Published(db, origin, digest, now, after)
    requires origin.capture.Some? ==> origin.capture.value in db.intake.captures
    ensures Sound(after)
  {
    var s, latest, library :| FactAppended(db, origin, digest, now, s, latest, library, after);
    AppendKeepsSound(db, origin, digest, now, s, latest, library, after);
  }

  // ----- Content, accounts and Knowledge -----------------------------------------------------

  lemma ContentKeepsSound(db: Db, content: Content, minted: Id)
    requires Sound(db) && Held(content, db.accounts, minted) && db.minted <= minted
    requires Grows(db.content, content) && OnePostPerCode(content.posts)
    ensures Sound(db.(content := content, minted := minted))
  {
    ContentGrowsFiled(db.intake, db.content, content, db.minted, minted);
    ContentGrowsCoded(db.intake, db.content, content);
    ShelfGrows(db.library, db.content.posts, db.intake.captures, db.minted, content.posts, db.intake.captures, minted);
  }

  lemma PostKeepsSound(db: Db, account: Option<Id>, code: string, permalink: string, raw: Id, after: Db)
    requires Sound(db) && PostObserved(db, account, code, permalink, raw, after)
    ensures Sound(after)
  {
    var p, content :| PostUpserted(db.content, db.minted, account, code, permalink, p, content) &&
         after == db.(content := content.(revisions := content.revisions[db.minted + 1 := PostRevision(p, raw)]),
                      minted := db.minted + 2);
    UpsertKeepsContent(db.content, db.minted, account, code, permalink, p, content, db.accounts, db.minted);
    RevisionHeld(content, p, raw, db.accounts, db.minted + 1);
    ContentKeepsSound(db, after.content, db.minted + 2);
  }

  /** Rows that only name posts and raw evidence. */
  lemma RowKeepsSound(db: Db, content: Content, minted: Id)
    requires Sound(db) && db.minted <= minted
    requires content.posts == db.content.posts && content.revisions == db.content.revisions
    requires db.content.raws.Keys <= content.raws.Keys
    requires (forall k :: k in content.raws ==> k < minted) && (forall k :: k in content.media ==> k < minted)
    requires forall k :: k in content.relations ==> k < minted
    requires forall m :: m in content.media ==> content.media[m].post in content.posts
    requires forall r :: r in content.relations ==>
               && content.relations[r].referencing in content.posts
               && (content.relations[r].target.Some? ==> content.relations[r].target.value in content.posts)
    requires forall x :: x in content.exportRecords && content.exportRecords[x].Some? ==>
               content.exportRecords[x].value in content.raws
    ensures Sound(db.(content := content, minted := minted))
  {
    ContentKeepsSound(db, content, minted);
  }

  lemma ConnectKeepsSound(db: Db, owner: Id)
    requires Sound(db)
    ensures Sound(db.(accounts := db.accounts[db.minted := owner], minted := db.minted + 1))
  {
    ContentGrowsFiled(db.intake, db.content, db.content, db.minted, db.minted + 1);
    ShelfGrows(db.library, db.content.posts, db.intake.captures, db.minted, db.content.posts, db.intake.captures,
      db.minted + 1);
  }

  lemma CompleteKeepsSound(db: Db, event: Id, owner: Id, s: SourceId, digest: string)
    requires Sound(db)
    ensures Sound(db.(library := Completed(db, event, owner, s, digest).1))
  {
    if Completed(db, event, owner, s, digest).0.Linked? {
      LinkShelved(db.library, event, owner, s, digest, db.content.posts, db.intake.captures, db.minted);
    }
  }

  // ----- Deletion ----------------------------------------------------------------------------

  lemma DeleteKeepsSound(db: Db, request: PrivacyDeletion.Request, order: seq<SourceId>, after: Db)
    requires Sound(db) && PrivacyDeletion.IsDeletion(db, request, order, after)
    ensures Sound(after)
  {
    DeletionProperties.DeletionKeepsForeignKeys(db, request, order, after);
    DeletionProperties.NetEffectHolds(db, request, order, after);
    DeletionKeepsCodes(db, request.target, order);
    DeletionKeepsFresh(db, request, order, after);
    DeletionKeepsOneHolding(db, request.target, order);
  }

  lemma DeletionKeepsFresh(db: Db, request: PrivacyDeletion.Request, order: seq<SourceId>, after: Db)
    requires FreshIntake(db.intake, db.minted) && FreshContent(db.content, db.minted)
    requires FreshLibrary(db.library, db.minted)
    requires DeletionProperties.NetEffect(db, request, order, after)
    ensures FreshIntake(after.intake, after.minted) && FreshContent(after.content, after.minted)
    ensures FreshLibrary(after.library, after.minted)
  {
  }

  lemma DeletionKeepsOneHolding(db: Db, target: Target, order: seq<SourceId>)
    requires OneHolding(db.library.sources)
    ensures OneHolding(DeletionProperties.SourcesAfterAll(db, target, order))
  {
    var sources := DeletionProperties.SourcesAfterAll(db, target, order);
    forall s | s in sources
      ensures s in db.library.sources
      ensures sources[s].owner == db.library.sources[s].owner && sources[s].post == db.library.sources[s].post
    {
    }
  }

  lemma DeleteTxKeepsSound(db: Db, request: PrivacyDeletion.Request, after: Db)
    requires Sound(db) && DeleteCommitted(db, request, after)
    ensures Sound(after)
  {
    var result :| PrivacyDeletion.Applied(db, request, result, after);
    if result == Success(true) {
      var noted := db.(deletions := db.deletions[request.operation := (request.owner, request.target)]);
      var order :| PrivacyDeletion.IsDeletion(noted, request, order, after);
      DeleteKeepsSound(noted, request, order, after);
    }
  }

  lemma DeletionKeepsCodes(db: Db, target: Target, order: seq<SourceId>)
    requires Codes(db.intake, db.content.posts) && ForeignKeys(db)
    ensures var posts := DeletionProperties.PostsGone(db, target, order);
            var detached := DeletionProperties.IntakeDetached(db, target);
            Codes(detached.(tombstones := PrivacyDeletion.KeepTombstones(detached.tombstones, posts)),
                  DeletionProperties.PostsDetached(db, target) - posts)
  {
    DeletionProperties.CapturePostsStay(db, target, order);
  }

  // ----- All transactions --------------------------------------------------------------------

  lemma DeliverKeepsSound(db: Db, command: Command, now: Time, after: Db)
    requires Sound(db) && Delivered(db, command, now, after)
    ensures Sound(after)
  {
    if command.id in db.intake.inbox {
    } else if KnownKey(db.intake.captures, command.owner, command.key) {
      InboxKeepsSound(db, after.intake.inbox, after.outbox, after.minted);
    } else {
      var ticket := Ticket(command.operation, command.id);
      CaptureKeepsSound(db, NewCapture(command.owner, command.key, command.url, Some(ticket), Some(now)),
                        after.intake.inbox, after.outbox, after.minted);
    }
  }

  lemma IntakeKeepsSound(db: Db, tx: IntakeTx, after: Db)
    requires Sound(db) && IntakeCommitted(db, tx, after)
    ensures Sound(after)
  {
    match tx
    case Deliver(command, now) => DeliverKeepsSound(db, command, now, after);
    case Submit(owner, key, url) =>
      if after != db {
        CaptureKeepsSound(db, NewCapture(owner, key, url, None, None), db.intake.inbox, db.outbox, after.minted);
      }
    case Reject(_) => InboxKeepsSound(db, after.intake.inbox, after.outbox, after.minted);
  }

  lemma ScheduleKeepsSound(db: Db, tx: ScheduleTx, after: Db)
    requires Sound(db) && ScheduleCommitted(db, tx, after)
    ensures Sound(after)
  {
    match tx
    case RecordFailure(capture) => FailureKeepsSound(db, capture, after);
    case Report(capture, owner, ticket, terminal) => ReportKeepsSound(db, capture, owner, ticket, terminal, after);
    case _ => CapturesKeepSound(db, after.intake.captures, db.outbox, db.minted);
  }

  lemma ReportKeepsSound(db: Db, capture: Id, owner: Id, ticket: Ticket, terminal: Terminal, after: Db)
    requires Sound(db) && Reported(db, capture, owner, ticket, terminal, after)
    ensures Sound(after)
  {
    if capture in db.intake.captures && !db.intake.captures[capture].reported {
      var row := db.intake.captures[capture].(reported := true, nextAt := None);
      CapturesKeepSound(db, db.intake.captures[capture := row], after.outbox, after.minted);
    }
  }

  lemma FactKeepsSound(db: Db, tx: FactTx, after: Db)
    requires Sound(db) && FactCommitted(db, tx, after)
    ensures Sound(after)
  {
    match tx
    case Resolve(capture, blob, digest, now) =>
      var p, content, mid :| ObservationStored(db, capture, blob, p, content, mid) &&
        Published(mid, Origin(mid.intake.captures[capture].owner, p, Some(capture)), digest, now, after);
      ObservationKeepsSound(db, capture, blob, p, content, mid);
      PublishKeepsSound(mid, Origin(mid.intake.captures[capture].owner, p, Some(capture)), digest, now, after);
    case MarkUnavailable(capture, availability, digest, now) =>
      MarkKeepsSound(db, capture, availability, now);
      var mid, row := MarkedOnly(db, capture, availability, now), db.intake.captures[capture];
      if row.post.Some? {
        PublishKeepsSound(mid, Origin(row.owner, row.post.value, Some(capture)), digest, now, after);
      }
    case Publish(origin, digest, now) => PublishKeepsSound(db, origin, digest, now, after);
  }

  lemma StoreKeepsSound(db: Db, tx: StoreTx, after: Db)
    requires Sound(db) && StoreCommitted(db, tx, after)
    ensures Sound(after)
  {
    if tx.ObservePost? {
      PostKeepsSound(db, tx.account, tx.code, tx.permalink, tx.raw, after);
    } else {
      RowKeepsSound(db, after.content, after.minted);
    }
  }

  /** Whatever commits, identifiers stay fresh, every reference resolves and the evidence agrees. */
  lemma CommitKeepsSound(db: Db, tx: Tx, after: Db)
    requires Sound(db) && Committed(db, tx, after)
    ensures Sound(after)
  {
    match tx
    case IntakeOf(intake) => IntakeKeepsSound(db, intake, after);
    case ScheduleOf(schedule) => ScheduleKeepsSound(db, schedule, after);
    case FactOf(fact) => FactKeepsSound(db, fact, after);
    case StoreOf(store) => StoreKeepsSound(db, store, after);
    case Connect(owner) => ConnectKeepsSound(db, owner);
    case Complete(event, owner, s, digest) => CompleteKeepsSound(db, event, owner, s, digest);
    case Delete(request) => DeleteTxKeepsSound(db, request, after);
    case SettleBlobTask(_, _) =>
  }
}
