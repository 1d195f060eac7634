/** What is on record about one capture never goes away while the capture is stored. */
module Records {
  import opened Wrappers
  import opened Archive
  import opened Transactions
  import opened Integrity
  import opened Invariants
  import PrivacyDeletion
  import DeletionProperties

  function FailureRows(resolutions: map<Id, Resolution>, c: Id): set<Id> {
    set r | r in resolutions && resolutions[r].capture == c && resolutions[r].outcome.ResolverFailed?
  }

  /** How many failed attempts are on record for the capture `c`. */
  function Failures(intake: Intake, c: Id): nat {
    |FailureRows(intake.resolutions, c)|
  }

  predicate SaysDeleted(tombstone: Tombstone, c: Id) {
    tombstone.capture == Some(c) && tombstone.availability.DeletedUpstream?
  }

  /** A deletion of the post upstream is on record for the capture `c`. */
  predicate DeletionSeen(tombstones: map<Id, Tombstone>, c: Id) {
    exists t :: t in tombstones && SaysDeleted(tombstones[t], c)
  }

  /** The row of `c` keeps its owner, permalink and ticket, its guard never opens again, and its evidence stays. */
  ghost predicate Carried(before: Intake, after: Intake, c: Id)
    requires c in before.captures && c in after.captures
  {
    && after.captures[c].owner == before.captures[c].owner
    && after.captures[c].url == before.captures[c].url
    && after.captures[c].ticket == before.captures[c].ticket
    && (before.captures[c].reported ==> after.captures[c].reported)
    && FailureRows(before.resolutions, c) <= FailureRows(after.resolutions, c)
    && (DeletionSeen(before.tombstones, c) ==> DeletionSeen(after.tombstones, c))
  }

  /** Every capture of `after` was there before and is carried on, or is new. */
  ghost predicate Onward(before: Intake, after: Intake, minted: Id) {
    forall c :: c in after.captures && c < minted ==> c in before.captures && Carried(before, after, c)
  }

  lemma FewerRows(a: set<Id>, b: set<Id>)
    requires a <= b
    ensures |a| <= |b|
  {
    var rest := b - a;
    assert b == a + rest;
  }

  lemma OnwardRecords(before: Intake, after: Intake, minted: Id, c: Id)
    requires Onward(before, after, minted) && c in after.captures && c < minted
    ensures c in before.captures && Failures(before, c) <= Failures(after, c)
  {
    FewerRows(FailureRows(before.resolutions, c), FailureRows(after.resolutions, c));
  }

  lemma OnwardTwice(first: Intake, second: Intake, third: Intake, minted: Id, minted': Id)
    requires Onward(first, second, minted) && Onward(second, third, minted') && minted <= minted'
    ensures Onward(first, third, minted)
  {
    forall c | c in third.captures && c < minted ensures c in first.captures && Carried(first, third, c) {
      assert c in second.captures && Carried(second, third, c) && Carried(first, second, c);
    }
  }

  /** Rows are added, captures keep owner, permalink and ticket, and guards do not open. */
  ghost predicate Extends(before: Intake, after: Intake, minted: Id) {
    && (forall c :: c in after.captures && c < minted ==>
          && c in before.captures
          && after.captures[c].owner == before.captures[c].owner && after.captures[c].url == before.captures[c].url
          && after.captures[c].ticket == before.captures[c].ticket
          && (before.captures[c].reported ==> after.captures[c].reported))
    && (forall r :: r in before.resolutions ==> r in after.resolutions && after.resolutions[r] == before.resolutions[r])
    && (forall t :: t in before.tombstones ==> t in after.tombstones && after.tombstones[t] == before.tombstones[t])
  }

  lemma ExtendsOnward(before: Intake, after: Intake, minted: Id)
    requires Extends(before, after, minted)
    ensures Onward(before, after, minted)
  {
  }

  lemma IntakeExtends(db: Db, tx: IntakeTx, after: Db)
    requires IntakeCommitted(db, tx, after)
    ensures Extends(db.intake, after.intake, db.minted) && db.minted <= after.minted
  {
  }

  lemma ScheduleExtends(db: Db, tx: ScheduleTx, after: Db)
    requires FreshIntake(db.intake, db.minted) && ScheduleCommitted(db, tx, after)
    ensures Extends(db.intake, after.intake, db.minted) && db.minted <= after.minted
  {
  }

  lemma PublishedKeepsIntake(db: Db, origin: Origin, digest: string, now: Time, after: Db)
    requires Published(db, origin, digest, now, after)
    ensures after.intake == db.intake && db.minted <= after.minted
  {
  }

  lemma FactExtends(db: Db, tx: FactTx, after: Db)
    requires FreshIntake(db.intake, db.minted) && FactCommitted(db, tx, after)
    ensures Extends(db.intake, after.intake, db.minted) && db.minted <= after.minted
  {
    match tx
    case Resolve(capture, blob, digest, now) =>
      var p, content, mid :| ObservationStored(db, capture, blob, p, content, mid) &&
        Published(mid, Origin(mid.intake.captures[capture].owner, p, Some(capture)), digest, now, after);
      ObservationExtends(db, capture, blob, p, content, mid);
      PublishedKeepsIntake(mid, Origin(mid.intake.captures[capture].owner, p, Some(capture)), digest, now, after);
    case MarkUnavailable(capture, availability, digest, now) =>
      var row := db.intake.captures[capture];
      MarkExtends(db, capture, availability, now);
      if row.post.Some? {
        PublishedKeepsIntake(MarkedOnly(db, capture, availability, now),
          Origin(row.owner, row.post.value, Some(capture)),
                             digest, now, after);
      }
    case Publish(origin, digest, now) => PublishedKeepsIntake(db, origin, digest, now, after);
  }

  lemma ObservationExtends(db: Db, capture: Id, blob: BlobKey, p: Id, content: Content, after: Db)
    requires FreshIntake(db.intake, db.minted) && ObservationStored(db, capture, blob, p, content, after)
    ensures Extends(db.intake, after.intake, db.minted) && db.minted <= after.minted
  {
  }

  lemma MarkExtends(db: Db, capture: Id, availability: Availability, now: Time)
    requires FreshIntake(db.intake, db.minted) && capture in db.intake.captures
    ensures Extends(db.intake, MarkedOnly(db, capture, availability, now).intake, db.minted)
  {
  }

  lemma StoreExtends(db: Db, tx: StoreTx, after: Db)
    requires StoreCommitted(db, tx, after)
    ensures Extends(db.intake, after.intake, db.minted) && db.minted <= after.minted
  {
  }

  /**
   A deletion takes the evidence of its own target only: a tombstone of a stored capture names the
   post that capture holds.
   */
  lemma DeleteOnward(db: Db, request: PrivacyDeletion.Request, order: seq<SourceId>, after: Db)
    requires ForeignKeys(db) && Codes(db.intake, db.content.posts)
    requires PrivacyDeletion.IsDeletion(db, request, order, after)
    ensures Onward(db.intake, after.intake, db.minted) && db.minted <= after.minted
  {
    DeletionProperties.NetEffectHolds(db, request, order, after);
    DetachedOnward(db, request.target, order);
  }

  lemma DetachedOnward(db: Db, target: Target, order: seq<SourceId>)
    requires ForeignKeys(db) && Codes(db.intake, db.content.posts)
    ensures var detached := DeletionProperties.IntakeDetached(db, target);
            var posts := DeletionProperties.PostsGone(db, target, order);
            Onward(db.intake, detached.(tombstones := PrivacyDeletion.KeepTombstones(detached.tombstones, posts)),
              db.minted)
  {
    var posts := DeletionProperties.PostsGone(db, target, order);
    assert forall c :: c in DeletionProperties.CapturesAfter(db, target) && db.intake.captures[c].post.Some? ==>
             db.intake.captures[c].post.value !in posts by {
      DeletionProperties.CapturePostsStay(db, target, order);
    }
    TombstonesOnward(db.intake, target, posts);
  }

  lemma TombstonesOnward(intake: Intake, target: Target, posts: set<Id>)
    requires forall t :: t in intake.tombstones ==> SubjectAgrees(intake.captures, intake.tombstones[t])
    requires forall c :: c in intake.captures && target != CaptureTarget(c) && intake.captures[c].post.Some? ==>
               intake.captures[c].post.value !in posts
    ensures var kept := PrivacyDeletion.KeepTombstones(
              if target.CaptureTarget? then PrivacyDeletion.TombstonesWithout(intake.tombstones, target.id)
                else intake.tombstones,
              posts);
            forall c :: target != CaptureTarget(c) && DeletionSeen(intake.tombstones, c) ==> DeletionSeen(kept, c)
  {
    var kept := PrivacyDeletion.KeepTombstones(
      if target.CaptureTarget? then PrivacyDeletion.TombstonesWithout(intake.tombstones, target.id)
        else intake.tombstones, posts);
    forall c | target != CaptureTarget(c) && DeletionSeen(intake.tombstones, c) ensures DeletionSeen(kept, c) {
      var t :| t in intake.tombstones && SaysDeleted(intake.tombstones[t], c);
      assert SubjectAgrees(intake.captures, intake.tombstones[t]);
      assert t in kept && SaysDeleted(kept[t], c);
    }
  }

  lemma DeleteTxOnward(db: Db, request: PrivacyDeletion.Request, after: Db)
    requires ForeignKeys(db) && Codes(db.intake, db.content.posts) && DeleteCommitted(db, request, after)
    ensures Onward(db.intake, after.intake, db.minted) && db.minted <= after.minted
  {
    var result :| PrivacyDeletion.Applied(db, request, result, after);
    if result == Success(true) {
      var noted := db.(deletions := db.deletions[request.operation := (request.owner, request.target)]);
      var order :| PrivacyDeletion.IsDeletion(noted, request, order, after);
      DeleteOnward(noted, request, order, after);
    }
  }

  /** Whatever commits, no identifier comes back and every capture that stays keeps its guard and its evidence. */
  lemma CommitOnward(db: Db, tx: Tx, after: Db)
    requires Sound(db) && Committed(db, tx, after)
    ensures Onward(db.intake, after.intake, db.minted) && db.minted <= after.minted
  {
    if tx.Delete? {
      DeleteTxOnward(db, tx.request, after);
    } else {
      CommitExtends(db, tx, after);
      ExtendsOnward(db.intake, after.intake, db.minted);
    }
  }

  lemma CommitExtends(db: Db, tx: Tx, after: Db)
    requires FreshIntake(db.intake, db.minted) && Committed(db, tx, after) && !tx.Delete?
    ensures Extends(db.intake, after.intake, db.minted) && db.minted <= after.minted
  {
    match tx
    case IntakeOf(intake) => IntakeExtends(db, intake, after);
    case ScheduleOf(schedule) => ScheduleExtends(db, schedule, after);
    case FactOf(fact) => FactExtends(db, fact, after);
    case StoreOf(store) => StoreExtends(db, store, after);
    case _ =>
  }
}
