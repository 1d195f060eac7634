/** What the history of events says about the tables, and that every transaction keeps it so. */
module History {
  import opened Wrappers
  import opened Archive
  import opened EventLog
  import opened Transactions
  import opened Invariants
  import PrivacyDeletion
  import DeletionProperties
  import Soundness

  /** An event that is no terminal report and no source fact. */
  predicate Quiet(event: Event) {
    event.body.QueuedReport? || event.body.RejectedReport?
  }

  lemma QuietInsert(library: Library, log: seq<Event>, event: Event)
    requires Quiet(event)
    ensures forall c :: Terminals(log + [event], c) == Terminals(log, c)
    ensures Facts(library, log) ==> Facts(library, log + [event])
  {
    Append(log, event);
    if Facts(library, log) {
      forall s ensures FactsOf(library, log + [event], s) {
        assert FactsOf(library, log, s);
      }
    }
  }

  // ----- Terminal reports --------------------------------------------------------------------

  /** A report marks its capture, and no capture that is marked gets a second one. */
  lemma ReportInsert(
      captures: map<Id, Capture>, library: Library, log: seq<Event>, event: Event, capture: Id, row: Capture,
                     minted: Id)
    requires Reports(captures, log, minted)
    requires capture in captures && !captures[capture].reported && row.reported && capture < minted
    requires event.body.TerminalReport? && event.aggregate == capture
    ensures Reports(captures[capture := row], log + [event], minted + 1)
    ensures Facts(library, log) ==> Facts(library, log + [event])
  {
    Append(log, event);
    if Facts(library, log) {
      forall s ensures FactsOf(library, log + [event], s) {
        assert FactsOf(library, log, s);
      }
    }
  }

  /** The captures of `after` that were there before kept their guard; new ones are unreported and new. */
  ghost predicate GuardsKept(before: map<Id, Capture>, after: map<Id, Capture>, minted: Id) {
    forall c :: c in after ==>
      if c in before then after[c].reported == before[c].reported else !after[c].reported && minted <= c
  }

  lemma ReportsKept(
      before: map<Id, Capture>, after: map<Id, Capture>, log: seq<Event>, log': seq<Event>, minted: Id, minted': Id)
    requires Reports(before, log, minted) && GuardsKept(before, after, minted) && minted <= minted'
    requires forall c :: Terminals(log', c) == Terminals(log, c)
    ensures Reports(after, log', minted')
  {
  }

  // ----- Source facts ------------------------------------------------------------------------

  lemma StreamGrows(stream: seq<EventBody>, body: EventBody)
    requires forall i :: 0 <= i < |stream| ==> stream[i].SourceCaptured? || stream[i].SourceUpdated?
    requires WellFormedStream(stream)
    requires if stream == [] then body.SourceCaptured? else body.SourceUpdated?
    requires !Tells(stream, body.digest)
    ensures WellFormedStream(stream + [body])
    ensures forall d :: Tells(stream + [body], d) <==> d == body.digest || Tells(stream, d)
  {
    forall d | Tells(stream, d) ensures Tells(stream + [body], d) {
      var i :| 0 <= i < |stream| && stream[i].digest == d;
      assert (stream + [body])[i].digest == d;
    }
    assert (stream + [body])[|stream|].digest == body.digest;
  }

  lemma RevisionGrows(revisions: map<Id, SourceRevision>, id: Id, s: SourceId, digest: string, now: Time)
    requires id !in revisions && !Stored(revisions, s, digest) && OneRevisionPerDigest(revisions, s)
    ensures var after := revisions[id := SourceRevision(s, digest, now)];
            && OneRevisionPerDigest(after, s)
            && (forall d :: Stored(after, s, d) <==> d == digest || Stored(revisions, s, d))
            && (forall t, d :: t != s ==> (Stored(after, t, d) <==> Stored(revisions, t, d)))
  {
    var after := revisions[id := SourceRevision(s, digest, now)];
    forall t, d | Stored(revisions, t, d) ensures Stored(after, t, d) {
      var v :| v in revisions && RevisionOf(revisions, t, v) && revisions[v].digest == d;
      assert RevisionOf(after, t, v);
    }
    forall t, d | Stored(after, t, d) && (t != s || d != digest) ensures Stored(revisions, t, d) {
      var v :| v in after && RevisionOf(after, t, v) && after[v].digest == d;
      assert RevisionOf(revisions, t, v);
    }
    assert RevisionOf(after, s, id);
    forall v | RevisionOf(after, s, v) && v != id ensures RevisionOf(revisions, s, v) && after[v].digest != digest {
    }
  }

  /** The fact that is appended is the captured one exactly when the source is new. */
  lemma FactInsert(
      library: Library, log: seq<Event>, id: Id, s: SourceId, source: Source, event: Event, digest: string, now: Time)
    requires FactsOf(library, log, s) && id !in library.revisions && !Stored(library.revisions, s, digest)
    requires s !in library.sources ==> forall v :: !RevisionOf(library.revisions, s, v)
    requires event.body == if s in library.sources then SourceUpdated(s, digest) else SourceCaptured(s, digest)
    ensures FactsOf(library.(sources := library.sources[s := source],
                             revisions := library.revisions[id := SourceRevision(s, digest, now)]), log + [event], s)
  {
    Append(log, event);
    var stream := Stream(log, s);
    assert !Tells(stream, digest);
    StreamGrows(stream, event.body);
    RevisionGrows(library.revisions, id, s, digest, now);
  }

  lemma OtherFactInsert(
      library: Library, log: seq<Event>, id: Id, s: SourceId, source: Source, event: Event, digest: string,
                        now: Time, t: SourceId)
    requires FactsOf(library, log, t) && t != s && id !in library.revisions
    requires event.body == SourceUpdated(s, digest) || event.body == SourceCaptured(s, digest)
    ensures FactsOf(library.(sources := library.sources[s := source],
                             revisions := library.revisions[id := SourceRevision(s, digest, now)]), log + [event], t)
  {
    Append(log, event);
    var after := library.revisions[id := SourceRevision(s, digest, now)];
    assert forall v :: RevisionOf(after, t, v) <==> RevisionOf(library.revisions, t, v);
    assert forall d :: Stored(after, t, d) <==> Stored(library.revisions, t, d);
  }

  /** A stored source has a latest revision and a source that is not stored has none. */
  lemma LatestIffStored(
      before: Library, log: seq<Event>, permalink: string, origin: Origin, s: SourceId, latest: Option<Id>,
                        library: Library)
    requires FactsOf(before, log, s)
    requires (forall v :: v in before.revisions ==> before.revisions[v].source in before.sources)
    requires SourceEnsured(before, permalink, origin, s, library) && IsLatest(library, s, latest)
    ensures latest.None? <==> s !in before.sources
    ensures s in library.sources && library == before.(sources := before.sources[s := library.sources[s]])
    ensures s in before.sources ==> library == before
  {
    if s in before.sources {
      var stream := Stream(log, s);
      assert Tells(stream, stream[0].digest);
      assert library == before;
      assert latest.Some?;
    }
  }

  lemma AppendKeepsTold(
      db: Db, origin: Origin, digest: string, now: Time, s: SourceId, latest: Option<Id>, library: Library,
                        after: Db)
    requires Facts(db.library, db.outbox.log) && Shelved(db.library, db.content.posts, db.intake.captures, db.minted)
    requires FactAppended(db, origin, digest, now, s, latest, library, after)
    ensures Facts(after.library, after.outbox.log)
    ensures forall c :: Terminals(after.outbox.log, c) == Terminals(db.outbox.log, c)
    ensures after.intake == db.intake && after.content == db.content && db.minted <= after.minted
    ensures after.library.links == db.library.links && after.library.removed == db.library.removed
    ensures after.library.completions == db.library.completions
    ensures forall t :: t in db.library.sources ==>
            t in after.library.sources && after.library.sources[t] == db.library.sources[t]
  {
    var log := db.outbox.log;
    assert FactsOf(db.library, log, s);
    LatestIffStored(db.library, log, db.content.posts[origin.post].permalink, origin, s, latest, library);
    if latest.Some? && library.revisions[latest.value].digest == digest {
      assert after == db;
    } else {
      var body := if latest.None? then SourceCaptured(s, digest) else SourceUpdated(s, digest);
      var event := Event(body, if origin.capture.Some? then origin.capture.value else origin.post);
      assert after.outbox.log == log + [event];
      Append(log, event);
      FactInsert(db.library, log, db.minted, s, library.sources[s], event, digest, now);
      forall t | t != s ensures FactsOf(after.library, after.outbox.log, t) {
        assert FactsOf(db.library, log, t);
        OtherFactInsert(db.library, log, db.minted, s, library.sources[s], event, digest, now, t);
      }
    }
  }

  lemma PublishKeepsTold(db: Db, origin: Origin, digest: string, now: Time, after: Db)
    requires Told(db) && Shelved(db.library, db.content.posts, db.intake.captures, db.minted)
    requires Published(db, origin, digest, now, after)
    ensures Told(after)
    ensures after.intake == db.intake && after.content == db.content && db.minted <= after.minted
  {
    var s, latest, library :| FactAppended(db, origin, digest, now, s, latest, library, after);
    AppendKeepsTold(db, origin, digest, now, s, latest, library, after);
    ReportsKept(db.intake.captures, after.intake.captures, db.outbox.log, after.outbox.log, db.minted, after.minted);
  }

  // ----- Deletion ----------------------------------------------------------------------------

  lemma DeleteKeepsFacts(library: Library, owner: Id, order: seq<SourceId>, sources: map<SourceId, Source>,
                         log: seq<Event>, log': seq<Event>)
    requires Facts(library, log)
    requires forall s :: s in order ==> s in library.sources
    requires sources.Keys == PrivacyDeletion.KeepSources(library.sources, order).Keys
    requires forall s :: Stream(log', s) == if s in order then [] else Stream(log, s)
    ensures Facts(PrivacyDeletion.LibraryAfter(library, owner, order).(sources := sources), log')
  {
    var after := PrivacyDeletion.LibraryAfter(library, owner, order).(sources := sources);
    forall s ensures FactsOf(after, log', s) {
      assert FactsOf(library, log, s);
      if s !in order {
        assert forall v :: RevisionOf(after.revisions, s, v) <==> RevisionOf(library.revisions, s, v);
        assert forall d :: Stored(after.revisions, s, d) <==> Stored(library.revisions, s, d);
      }
    }
  }

  lemma DeleteKeepsLinks(library: Library, owner: Id, order: seq<SourceId>, sources: map<SourceId, Source>)
    requires Links(library)
    requires forall s :: s in library.sources && s !in order ==>
             s in sources && sources[s].owner == library.sources[s].owner
    ensures Links(PrivacyDeletion.LibraryAfter(library, owner, order).(sources := sources))
  {
  }

  lemma KeptSourcesKeepOwner(db: Db, target: Target, order: seq<SourceId>)
    ensures var sources := DeletionProperties.SourcesAfterAll(db, target, order);
            && sources.Keys == PrivacyDeletion.KeepSources(db.library.sources, order).Keys
            && forall s :: s in db.library.sources && s !in order ==>
                 s in sources && sources[s].owner == db.library.sources[s].owner
  {
  }

  lemma DeleteKeepsTold(db: Db, request: PrivacyDeletion.Request, order: seq<SourceId>, after: Db)
    requires Told(db) && PrivacyDeletion.IsDeletion(db, request, order, after)
    ensures Told(after)
  {
    DeletionProperties.NetEffectHolds(db, request, order, after);
    DeletionProperties.FactsAppended(db.outbox.log, request, order);
    var sources := DeletionProperties.SourcesAfterAll(db, request.target, order);
    KeptSourcesKeepOwner(db, request.target, order);
    DeleteKeepsFacts(db.library, request.owner, order, sources, db.outbox.log, after.outbox.log);
    DeleteKeepsLinks(db.library, request.owner, order, sources);
    ReportsKept(db.intake.captures, after.intake.captures, db.outbox.log, after.outbox.log, db.minted, after.minted);
  }

  lemma DeleteTxKeepsTold(db: Db, request: PrivacyDeletion.Request, after: Db)
    requires Told(db) && DeleteCommitted(db, request, after)
    ensures Told(after)
  {
    var result :| PrivacyDeletion.Applied(db, request, result, after);
    if result == Success(true) {
      var noted := db.(deletions := db.deletions[request.operation := (request.owner, request.target)]);
      var order :| PrivacyDeletion.IsDeletion(noted, request, order, after);
      DeleteKeepsTold(noted, request, order, after);
    }
  }

  // ----- All transactions --------------------------------------------------------------------

  lemma IntakeKeepsTold(db: Db, tx: IntakeTx, after: Db)
    requires Told(db) && FreshIntake(db.intake, db.minted) && IntakeCommitted(db, tx, after)
    ensures Told(after)
  {
    if after != db {
      if !tx.Submit? {
        assert exists event :: Quiet(event) && after.outbox.log == db.outbox.log + [event];
        var event :| Quiet(event) && after.outbox.log == db.outbox.log + [event];
        QuietInsert(db.library, db.outbox.log, event);
      }
      ReportsKept(db.intake.captures, after.intake.captures, db.outbox.log, after.outbox.log, db.minted, after.minted);
    }
  }

  lemma ReportKeepsTold(db: Db, capture: Id, owner: Id, ticket: Ticket, terminal: Terminal, after: Db)
    requires Told(db) && FreshIntake(db.intake, db.minted) && Reported(db, capture, owner, ticket, terminal, after)
    ensures Told(after)
  {
    if capture in db.intake.captures && !db.intake.captures[capture].reported {
      var outcome :| ReportStored(db, capture, owner, ticket, terminal, outcome, after);
      ReportInsert(db.intake.captures, db.library, db.outbox.log, Event(TerminalReport(ticket, outcome), capture),
        capture,
                   db.intake.captures[capture].(reported := true, nextAt := None), db.minted);
    }
  }

  lemma ScheduleKeepsTold(db: Db, tx: ScheduleTx, after: Db)
    requires Told(db) && FreshIntake(db.intake, db.minted) && ScheduleCommitted(db, tx, after)
    ensures Told(after)
  {
    if tx.Report? {
      ReportKeepsTold(db, tx.capture, tx.owner, tx.ticket, tx.terminal, after);
    } else {
      ReportsKept(db.intake.captures, after.intake.captures, db.outbox.log, after.outbox.log, db.minted, after.minted);
    }
  }

  lemma FactKeepsTold(db: Db, tx: FactTx, after: Db)
    requires Told(db) && Sound(db) && FactCommitted(db, tx, after)
    ensures Told(after)
  {
    match tx
    case Resolve(capture, blob, digest, now) => ResolveKeepsTold(db, capture, blob, digest, now, after);
    case MarkUnavailable(capture, availability, digest, now) =>
      MarkKeepsTold(db, capture, availability, digest, now, after);
    case Publish(origin, digest, now) => PublishKeepsTold(db, origin, digest, now, after);
  }

  lemma ObservationKeepsTold(db: Db, capture: Id, blob: BlobKey, p: Id, content: Content, mid: Db)
    requires Told(db) && Sound(db) && ObservationStored(db, capture, blob, p, content, mid)
    ensures Told(mid) && Shelved(mid.library, mid.content.posts, mid.intake.captures, mid.minted)
  {
    Soundness.ObservationKeepsSound(db, capture, blob, p, content, mid);
    ReportsKept(db.intake.captures, mid.intake.captures, db.outbox.log, db.outbox.log, db.minted, mid.minted);
  }

  lemma ResolveKeepsTold(db: Db, capture: Id, blob: BlobKey, digest: string, now: Time, after: Db)
    requires Told(db) && Sound(db) && ObservationRecorded(db, capture, blob, digest, now, after)
    ensures Told(after)
  {
    var p, content, mid :| ObservationStored(db, capture, blob, p, content, mid) &&
      Published(mid, Origin(mid.intake.captures[capture].owner, p, Some(capture)), digest, now, after);
    ObservationKeepsTold(db, capture, blob, p, content, mid);
    PublishKeepsTold(mid, Origin(mid.intake.captures[capture].owner, p, Some(capture)), digest, now, after);
  }

  lemma MarkKeepsTold(db: Db, capture: Id, availability: Availability, digest: string, now: Time, after: Db)
    requires Told(db) && Sound(db) && Marked(db, capture, availability, digest, now, after)
    ensures Told(after)
  {
    var mid, row := MarkedOnly(db, capture, availability, now), db.intake.captures[capture];
    ReportsKept(db.intake.captures, mid.intake.captures, db.outbox.log, db.outbox.log, db.minted, mid.minted);
    if row.post.Some? {
      Soundness.MarkKeepsSound(db, capture, availability, now);
      PublishKeepsTold(mid, Origin(row.owner, row.post.value, Some(capture)), digest, now, after);
    }
  }

  lemma MintKeepsTold(db: Db, after: Db)
    requires Told(db) && after.library == db.library && after.outbox == db.outbox && db.minted <= after.minted
    requires after.intake == db.intake
    ensures Told(after)
  {
    ReportsKept(db.intake.captures, after.intake.captures, db.outbox.log, after.outbox.log, db.minted, after.minted);
  }

  lemma StoreKeepsTold(db: Db, tx: StoreTx, after: Db)
    requires Told(db) && StoreCommitted(db, tx, after)
    ensures Told(after)
  {
    MintKeepsTold(db, after);
  }

  /**
   A rejected or repeated completion leaves the links alone; an accepted one links a source that was
   never removed.
   */
  lemma CompleteKeepsTold(db: Db, event: Id, owner: Id, s: SourceId, digest: string)
    requires Told(db)
    ensures Told(db.(library := Completed(db, event, owner, s, digest).1))
  {
    var after := Completed(db, event, owner, s, digest).1;
    forall t ensures FactsOf(after, db.outbox.log, t) {
      assert FactsOf(db.library, db.outbox.log, t);
    }
  }

  /** Whatever commits, no capture is answered twice, no removed source is linked, and facts tell the revisions. */
  lemma CommitKeepsTold(db: Db, tx: Tx, after: Db)
    requires Sound(db) && Told(db) && Committed(db, tx, after)
    ensures Told(after)
  {
    match tx
    case IntakeOf(intake) => IntakeKeepsTold(db, intake, after);
    case ScheduleOf(schedule) => ScheduleKeepsTold(db, schedule, after);
    case FactOf(fact) => FactKeepsTold(db, fact, after);
    case StoreOf(store) => StoreKeepsTold(db, store, after);
    case Connect(owner) => MintKeepsTold(db, after);
    case Complete(event, owner, s, digest) => CompleteKeepsTold(db, event, owner, s, digest);
    case Delete(request) => DeleteTxKeepsTold(db, request, after);
    case SettleBlobTask(_, _) =>
  }
}
