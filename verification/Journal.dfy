/** Which events each transaction may append, and what that means for reports, facts and links. */
module Journal {
  import opened Wrappers
  import opened Archive
  import opened EventLog
  import opened Transactions
  import opened Invariants
  import PrivacyDeletion
  import DeletionProperties
  import opened History

  predicate IsFact(event: Event) {
    event.body.SourceCaptured? || event.body.SourceUpdated?
  }

  /** The one event a transaction other than a deletion may append. */
  predicate MayAppend(tx: Tx, event: Event) {
    match tx
    case IntakeOf(_) => Quiet(event)
    case ScheduleOf(schedule) =>
      schedule.Report? && event.aggregate == schedule.capture && event.body.TerminalReport?
    case FactOf(_) => IsFact(event)
    case _ => false
  }

  ghost predicate Appended(tx: Tx, before: seq<Event>, after: seq<Event>) {
    if tx.Delete? then
      exists order :: PrivacyDeletion.Enumerates(order, set s | s in order) &&
        after == before + DeletionProperties.RemovalFacts(tx.request, order)
    else
      after == before || exists event :: MayAppend(tx, event) && after == before + [event]
  }

  lemma DeletionAppends(db: Db, request: PrivacyDeletion.Request, order: seq<SourceId>, after: Db)
    requires PrivacyDeletion.IsDeletion(db, request, order, after)
    ensures after.outbox.log == db.outbox.log + DeletionProperties.RemovalFacts(request, order)
    ensures PrivacyDeletion.Enumerates(order, set s | s in order)
  {
    DeletionProperties.OutboxAfter(db, request, order);
  }

  lemma DeleteAppends(db: Db, request: PrivacyDeletion.Request, after: Db)
    requires DeleteCommitted(db, request, after)
    ensures Appended(Delete(request), db.outbox.log, after.outbox.log)
  {
    var result :| PrivacyDeletion.Applied(db, request, result, after);
    if result == Success(true) {
      var noted := db.(deletions := db.deletions[request.operation := (request.owner, request.target)]);
      var order :| PrivacyDeletion.IsDeletion(noted, request, order, after);
      DeletionAppends(noted, request, order, after);
    } else {
      var none: seq<SourceId> := [];
      assert PrivacyDeletion.Enumerates(none, set s | s in none);
      assert db.outbox.log == db.outbox.log + DeletionProperties.RemovalFacts(request, none);
    }
  }

  lemma PublishAppends(db: Db, origin: Origin, digest: string, now: Time, after: Db)
    requires Published(db, origin, digest, now, after)
    ensures || after.outbox.log == db.outbox.log
            || exists event :: IsFact(event) && after.outbox.log == db.outbox.log + [event]
  {
    var s, latest, library :| FactAppended(db, origin, digest, now, s, latest, library, after);
    if after.outbox != db.outbox {
      var event := Event(if latest.None? then SourceCaptured(s, digest) else SourceUpdated(s, digest),
                         if origin.capture.Some? then origin.capture.value else origin.post);
      assert IsFact(event) && after.outbox.log == db.outbox.log + [event];
    }
  }

  lemma FactAppends(db: Db, tx: FactTx, after: Db)
    requires FactCommitted(db, tx, after)
    ensures Appended(FactOf(tx), db.outbox.log, after.outbox.log)
  {
    match tx
    case Resolve(capture, blob, digest, now) =>
      var p, content, mid :| ObservationStored(db, capture, blob, p, content, mid) &&
        Published(mid, Origin(mid.intake.captures[capture].owner, p, Some(capture)), digest, now, after);
      PublishAppends(mid, Origin(mid.intake.captures[capture].owner, p, Some(capture)), digest, now, after);
    case MarkUnavailable(capture, availability, digest, now) =>
      var row := db.intake.captures[capture];
      if row.post.Some? {
        PublishAppends(MarkedOnly(db, capture, availability, now), Origin(row.owner, row.post.value, Some(capture)),
                       digest, now, after);
      }
    case Publish(origin, digest, now) => PublishAppends(db, origin, digest, now, after);
  }

  lemma IntakeAppends(db: Db, tx: IntakeTx, after: Db)
    requires IntakeCommitted(db, tx, after)
    ensures Appended(IntakeOf(tx), db.outbox.log, after.outbox.log)
  {
  }

  lemma ScheduleAppends(db: Db, tx: ScheduleTx, after: Db)
    requires ScheduleCommitted(db, tx, after)
    ensures Appended(ScheduleOf(tx), db.outbox.log, after.outbox.log)
  {
  }

  lemma CommitAppends(db: Db, tx: Tx, after: Db)
    requires Committed(db, tx, after)
    ensures Appended(tx, db.outbox.log, after.outbox.log)
  {
    match tx
    case IntakeOf(intake) => IntakeAppends(db, intake, after);
    case ScheduleOf(schedule) => ScheduleAppends(db, schedule, after);
    case FactOf(fact) => FactAppends(db, fact, after);
    case Delete(request) => DeleteAppends(db, request, after);
    case _ =>
  }

  /** Only a report answers a capture. */
  lemma OnlyReportsAnswer(tx: Tx, before: seq<Event>, after: seq<Event>, c: Id)
    requires Appended(tx, before, after)
    ensures Terminals(after, c) == Terminals(before, c) ||
            (tx.ScheduleOf? && tx.schedule.Report? && tx.schedule.capture == c &&
              Terminals(after, c) == Terminals(before, c) + 1)
  {
    if tx.Delete? {
      var order :| PrivacyDeletion.Enumerates(order, set s | s in order) &&
        after == before + DeletionProperties.RemovalFacts(tx.request, order);
      DeletionProperties.FactsAppended(before, tx.request, order);
    } else if after != before {
      var event :| MayAppend(tx, event) && after == before + [event];
      Append(before, event);
    }
  }

  /** The facts of a source only grow, one at a time, and start over only when an owner deletion removes it. */
  lemma StreamOnlyGrows(tx: Tx, before: seq<Event>, after: seq<Event>, s: SourceId)
    requires Appended(tx, before, after)
    ensures || Stream(after, s) == Stream(before, s)
            || (tx.FactOf? && |Stream(after, s)| == |Stream(before, s)| + 1 && Stream(before, s) <= Stream(after, s))
            || (tx.Delete? && Stream(after, s) == [] && Removals(after, s) == Removals(before, s) + 1)
  {
    if tx.Delete? {
      var order :| PrivacyDeletion.Enumerates(order, set s | s in order) &&
        after == before + DeletionProperties.RemovalFacts(tx.request, order);
      DeletionProperties.FactsAppended(before, tx.request, order);
    } else if after != before {
      var event :| MayAppend(tx, event) && after == before + [event];
      Append(before, event);
    }
  }

  // ----- Removal guards and links ------------------------------------------------------------

  /**
   Removal guards and accepted completions are never forgotten, and a completion links at most when
   it is first accepted.
   */
  ghost predicate LinksOnward(before: Library, after: Library) {
    && before.removed <= after.removed
    && before.completions <= after.completions
    && (forall l :: l in after.links && l !in before.links ==> l !in before.completions)
    && (forall l :: l in after.links && l in before.links ==> after.links[l] == before.links[l])
  }

  lemma DeleteLinksOnward(db: Db, request: PrivacyDeletion.Request, after: Db)
    requires DeleteCommitted(db, request, after)
    ensures LinksOnward(db.library, after.library)
  {
    var result :| PrivacyDeletion.Applied(db, request, result, after);
    if result == Success(true) {
      var noted := db.(deletions := db.deletions[request.operation := (request.owner, request.target)]);
      var order :| PrivacyDeletion.IsDeletion(noted, request, order, after);
      DeletionProperties.NetEffectHolds(noted, request, order, after);
    }
  }

  lemma FactLinksOnward(db: Db, tx: FactTx, after: Db)
    requires FactCommitted(db, tx, after)
    ensures LinksOnward(db.library, after.library)
  {
    match tx
    case Resolve(capture, blob, digest, now) =>
      var p, content, mid :| ObservationStored(db, capture, blob, p, content, mid) &&
        Published(mid, Origin(mid.intake.captures[capture].owner, p, Some(capture)), digest, now, after);
      PublishKeepsLinks(mid, Origin(mid.intake.captures[capture].owner, p, Some(capture)), digest, now, after);
    case MarkUnavailable(capture, availability, digest, now) =>
      var row := db.intake.captures[capture];
      if row.post.Some? {
        PublishKeepsLinks(MarkedOnly(db, capture, availability, now), Origin(row.owner, row.post.value, Some(capture)),
                          digest, now, after);
      }
    case Publish(origin, digest, now) => PublishKeepsLinks(db, origin, digest, now, after);
  }

  lemma PublishKeepsLinks(db: Db, origin: Origin, digest: string, now: Time, after: Db)
    requires Published(db, origin, digest, now, after)
    ensures after.library.links == db.library.links && after.library.removed == db.library.removed
    ensures after.library.completions == db.library.completions
  {
  }

  lemma CompleteLinksOnward(db: Db, event: Id, owner: Id, s: SourceId, digest: string)
    requires Links(db.library)
    ensures LinksOnward(db.library, Completed(db, event, owner, s, digest).1)
  {
  }

  lemma CommitLinksOnward(db: Db, tx: Tx, after: Db)
    requires Links(db.library) && Committed(db, tx, after)
    ensures LinksOnward(db.library, after.library)
  {
    match tx
    case FactOf(fact) => FactLinksOnward(db, fact, after);
    case Delete(request) => DeleteLinksOnward(db, request, after);
    case Complete(event, owner, s, digest) => CompleteLinksOnward(db, event, owner, s, digest);
    case _ => SameLibrary(db, tx, after);
  }

  lemma SameLibrary(db: Db, tx: Tx, after: Db)
    requires Committed(db, tx, after) && !tx.FactOf? && !tx.Delete? && !tx.Complete?
    ensures after.library == db.library
  {
  }
}
