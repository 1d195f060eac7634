/** States of actual runs, from empty tables on, in which a property fails. */
module Witnesses {
  import opened Wrappers
  import opened Archive
  import opened Transactions
  import opened Invariants
  import opened Workers
  import opened Runs
  import opened Committing
  import opened Stopping
  import opened PrivacyDeletion
  import opened ReplyGraph
  import opened ReplyStore
  import DeletionProperties

  // ----- Reached by transactions alone -------------------------------------------------------

  /** Some run leads from empty tables to `db`, with no pass under way. */
  ghost predicate Reachable(policy: Policy, db: Db) {
    exists worlds, steps :: IsRun(policy, worlds, steps) && worlds[|steps|] == World(db, map[])
  }

  function Empty(): Db {
    Db(Intake(map[], map[], map[], {}), Content(map[], map[], map[], map[], map[], map[], map[]),
       Library(map[], map[], map[], {}, {}), Outbox(map[], []), map[], map[], map[], 1)
  }

  lemma EmptyIsReachable(policy: Policy)
    ensures Reachable(policy, Empty())
  {
    var worlds, steps: seq<Step> := [World(Empty(), map[])], [];
    assert Start(worlds[0]);
    assert IsRun(policy, worlds, steps);
  }

  lemma ThenReachable(policy: Policy, db: Db, tx: Tx, after: Db)
    requires Reachable(policy, db) && Committed(db, tx, after) && !tx.ScheduleOf?
    ensures Reachable(policy, after)
  {
    var worlds, steps :| IsRun(policy, worlds, steps) && worlds[|steps|] == World(db, map[]);
    var next := World(after, map[]);
    assert StepTo(policy, World(db, map[]), Other(tx), next);
    OneMoreFollows(policy, worlds, steps, Other(tx), next);
    assert IsRun(policy, worlds + [next], steps + [Other(tx)]);
  }

  lemma ReachableHolds(policy: Policy, db: Db)
    requires Reachable(policy, db)
    ensures Sound(db) && Told(db)
  {
    var worlds, steps :| IsRun(policy, worlds, steps) && worlds[|steps|] == World(db, map[]);
    RunHolds(policy, worlds, steps, |steps|);
  }

  /** A request that was not made before and names a target of its owner commits its deletion. */
  lemma DeletionCommits(db: Db, request: Request, order: seq<SourceId>, after: Db)
    requires request.operation !in db.deletions && Owned(db.intake.captures, db.accounts, request)
    requires var noted := db.(deletions := db.deletions[request.operation := (request.owner, request.target)]);
             IsDeletion(noted, request, order, after)
    ensures Committed(db, Delete(request), after)
  {
    assert Applied(db, request, Success(true), after);
  }

  // ----- An official post and its first fact -------------------------------------------------

  /** The owner connected an account, and its post under the permalink "p" was observed. */
  function OfficialPost(owner: Id, blob: BlobKey): Db {
    Empty().(accounts := map[1 := owner],
             content := Empty().content.(raws := map[2 := blob], posts := map[3 := Post(Some(1), "p", "p")],
                                         revisions := map[4 := PostRevision(3, 2)]),
             minted := 5)
  }

  function FirstFact(owner: Id, blob: BlobKey, digest: string): Db {
    var s := SourceId(owner, "p");
    OfficialPost(owner, blob).(
      library := Library(map[s := Source(owner, 3, None)], map[5 := SourceRevision(s, digest, 1)], map[], {}, {}),
      outbox := Outbox(map[6 := Event(SourceCaptured(s, digest), 3)], [Event(SourceCaptured(s, digest), 3)]),
      minted := 7)
  }

  lemma OfficialPostIsReachable(policy: Policy, owner: Id, blob: BlobKey)
    ensures Reachable(policy, OfficialPost(owner, blob))
  {
    EmptyIsReachable(policy);
    var connected := Empty().(accounts := map[1 := owner], minted := 2);
    assert Empty().accounts[1 := owner] == map[1 := owner];
    ThenReachable(policy, Empty(), Connect(owner), connected);
    var stored := connected.(content := connected.content.(raws := map[2 := blob]), minted := 3);
    assert connected.content.raws[2 := blob] == map[2 := blob];
    ThenReachable(policy, connected, StoreOf(StoreRaw(blob)), stored);
    var content := stored.content.(posts := map[3 := Post(Some(1), "p", "p")]);
    assert PostUpserted(stored.content, 3, Some(1), "p", "p", 3, content);
    assert content.revisions[4 := PostRevision(3, 2)] == map[4 := PostRevision(3, 2)];
    assert PostObserved(stored, Some(1), "p", "p", 2, OfficialPost(owner, blob));
    ThenReachable(policy, stored, StoreOf(ObservePost(Some(1), "p", "p", 2)), OfficialPost(owner, blob));
  }

  lemma FirstFactIsReachable(policy: Policy, owner: Id, blob: BlobKey, digest: string)
    ensures Reachable(policy, FirstFact(owner, blob, digest))
  {
    OfficialPostIsReachable(policy, owner, blob);
    var db, origin, s := OfficialPost(owner, blob), Origin(owner, 3, None), SourceId(owner, "p");
    var library := db.library.(sources := map[s := Source(owner, 3, None)]);
    assert db.library.sources[s := Source(owner, 3, None)] == map[s := Source(owner, 3, None)];
    assert SourceEnsured(db.library, "p", origin, s, library);
    assert IsLatest(library, s, None);
    assert library.revisions[5 := SourceRevision(s, digest, 1)] == map[5 := SourceRevision(s, digest, 1)];
    assert FactAppended(db, origin, digest, 1, s, None, library, FirstFact(owner, blob, digest));
    ThenReachable(policy, db, FactOf(Publish(origin, digest, 1)), FirstFact(owner, blob, digest));
  }

  // ----- A digest that returns ---------------------------------------------------------------

  /** The digest "d2" followed "d1". */
  function SecondFact(blob: BlobKey): Db {
    var s, db := SourceId(1, "p"), FirstFact(1, blob, "d1");
    db.(library := db.library.(revisions := db.library.revisions[7 := SourceRevision(s, "d2", 2)]),
        outbox := db.outbox.Insert(8, Event(SourceUpdated(s, "d2"), 3)),
        minted := 9)
  }

  /** Then the owner captured the post from the browser. */
  function CapturedAgain(blob: BlobKey): Db {
    var db := SecondFact(blob);
    db.(intake := Intake(map[9 := NewCapture(1, "k", "p", Some(Ticket(21, 20)), Some(0))], map[], map[], {20}),
        outbox := db.outbox.Insert(10, Event(QueuedReport(Ticket(21, 20)), 9)),
        minted := 11)
  }

  lemma CapturedAgainIsReachable(policy: Policy, blob: BlobKey)
    ensures Reachable(policy, CapturedAgain(blob))
  {
    FirstFactIsReachable(policy, 1, blob, "d1");
    var db, origin, s := FirstFact(1, blob, "d1"), Origin(1, 3, None), SourceId(1, "p");
    assert IsSource(db.library.sources, 1, 3, s);
    assert SourceEnsured(db.library, "p", origin, s, db.library);
    assert IsLatest(db.library, s, Some(5));
    assert FactAppended(db, origin, "d2", 2, s, Some(5), db.library, SecondFact(blob));
    ThenReachable(policy, db, FactOf(Publish(origin, "d2", 2)), SecondFact(blob));
    var told, command := SecondFact(blob), Command(20, 1, "k", "p", 21);
    var row := NewCapture(1, "k", "p", Some(Ticket(21, 20)), Some(0));
    assert told.intake.captures[9 := row] == map[9 := row];
    assert Delivered(told, command, 0, CapturedAgain(blob));
    ThenReachable(policy, told, IntakeOf(Deliver(command, 0)), CapturedAgain(blob));
  }

  lemma FirstDigestCannotReturn(blob: BlobKey, page: BlobKey)
    ensures !Committable(CapturedAgain(blob), 9, Found(page, "d1"))
  {
    var db, s := CapturedAgain(blob), SourceId(1, "p");
    assert LastSegment("p") == "p";
    assert IsPost(db.content.posts, "p", 3);
    assert IsPostFor(db.content.posts, "p", db.minted + 1, 3);
    assert IsSource(db.library.sources, 1, 3, s);
    assert RevisionOf(db.library.revisions, s, 5) && RevisionOf(db.library.revisions, s, 7);
    assert Archive.Stored(db.library.revisions, s, "d1");
    forall v ensures !IsLatestWith(db.library, s, v, "d1") {
    }
    assert !Repeats(db.library, s, "d1");
    assert !MayTell(db.library, "p", Origin(1, 3, Some(9)), "d1");
  }

  /**
   A run from empty tables leads to a state where this happens: the provider shows the first page of
   a post again after a second one, and the capture of it is claimed and fetched without end.
   */
  lemma ReturningDigestIsNeverAnswered(policy: Policy, blob: BlobKey, page: BlobKey, n: nat)
    requires 0 < policy.batchSize && 0 < policy.maxAttempts
    ensures Reachable(policy, CapturedAgain(blob))
    ensures exists worlds, steps ::
              StoppedRun(policy, CapturedAgain(blob), 9, 0, Found(page, "d1"), n, worlds, steps)
  {
    CapturedAgainIsReachable(policy, blob);
    ReachableHolds(policy, CapturedAgain(blob));
    FirstDigestCannotReturn(blob, page);
    NoRelationsNoCycle(CapturedAgain(blob).content);
    StoppingPassesClaimForever(policy, CapturedAgain(blob), 9, 0, 0, Found(page, "d1"), n);
  }

  // ----- Two owners of one post --------------------------------------------------------------

  /** The second owner's official post, which the first owner captured too. */
  function SharedCapture(blob: BlobKey): Db {
    var db := FirstFact(2, blob, "d");
    db.(intake := db.intake.(captures := map[7 := NewCapture(1, "k", "p", None, None)]), minted := 8)
  }

  function SharedObserved(blob: BlobKey): Db {
    var db := SharedCapture(blob);
    var row := NewCapture(1, "k", "p", None, None).(post := Some(3), status := Resolved);
    db.(intake := db.intake.(captures := map[7 := row],
                             resolutions := map[11 := Resolution(7, ResolvedOutcome, Some(8))]),
        content := db.content.(raws := db.content.raws[8 := blob],
                               revisions := db.content.revisions[10 := PostRevision(3, 8)]),
        minted := 12)
  }

  function SharedPost(blob: BlobKey): Db {
    var mine, db := SourceId(1, "p"), SharedObserved(blob);
    db.(library := db.library.(sources := db.library.sources[mine := Source(1, 3, Some(7))],
                               revisions := db.library.revisions[12 := SourceRevision(mine, "d", 2)]),
        outbox := db.outbox.Insert(13, Event(SourceCaptured(mine, "d"), 7)),
        minted := 14)
  }

  lemma SharedObservedFrom(blob: BlobKey)
    ensures ObservationStored(SharedCapture(blob), 7, blob, 3, SharedCapture(blob).content, SharedObserved(blob))
  {
    var db := SharedCapture(blob);
    NoRelationsNoCycle(db.content);
    assert LastSegment("p") == "p";
    assert IsPost(db.content.posts, "p", 3);
    assert db.content.posts[3 := Post(Some(1), "p", "p")] == db.content.posts;
    assert PostUpserted(db.content, 9, None, "p", "p", 3, db.content);
    var row := NewCapture(1, "k", "p", None, None).(post := Some(3), status := Resolved);
    assert db.intake.captures[7 := row] == map[7 := row];
    assert db.intake.resolutions[11 := Resolution(7, ResolvedOutcome, Some(8))] ==
           map[11 := Resolution(7, ResolvedOutcome, Some(8))];
  }

  lemma SharedFactFrom(blob: BlobKey)
    ensures Transactions.Published(SharedObserved(blob), Origin(1, 3, Some(7)), "d", 2, SharedPost(blob))
  {
    var db, mine, origin := SharedObserved(blob), SourceId(1, "p"), Origin(1, 3, Some(7));
    var library := db.library.(sources := db.library.sources[mine := Source(1, 3, Some(7))]);
    assert !exists x :: IsSource(db.library.sources, 1, 3, x);
    assert SourceEnsured(db.library, "p", origin, mine, library);
    assert IsLatest(library, mine, None);
    assert FactAppended(db, origin, "d", 2, mine, None, library, SharedPost(blob));
  }

  lemma SharedPostIsReachable(policy: Policy, blob: BlobKey)
    ensures Reachable(policy, SharedPost(blob))
  {
    FirstFactIsReachable(policy, 2, blob, "d");
    var db := FirstFact(2, blob, "d");
    var row := NewCapture(1, "k", "p", None, None);
    assert db.intake.captures[7 := row] == map[7 := row];
    assert SharedCapture(blob) == Submitted(db, 1, "k", "p");
    ThenReachable(policy, db, IntakeOf(Submit(1, "k", "p")), SharedCapture(blob));
    SharedObservedFrom(blob);
    SharedFactFrom(blob);
    assert ObservationRecorded(SharedCapture(blob), 7, blob, "d", 2, SharedPost(blob));
    ThenReachable(policy, SharedCapture(blob), FactOf(Resolve(7, blob, "d", 2)), SharedPost(blob));
  }

  /** The first owner deletes its capture of the post: only its own source goes. */
  lemma SharedDeletion(db: Db, request: Request, blob: BlobKey)
    requires request == Request(9, 1, CaptureTarget(7))
    requires db == SharedPost(blob).(deletions := map[9 := (1, CaptureTarget(7))])
    ensures IsDeletion(db, request, [SourceId(1, "p")], Deleted(db, request, [SourceId(1, "p")]))
  {
    assert AffectedPosts(db, request.target) == {3};
    assert !KeepsHolding(db.intake.captures, db.content.posts, db.accounts, request, 3);
    assert FinalPosts(db, request, {3}) == {3};
    assert GoneSources(db, request, {3}) == {SourceId(1, "p")};
  }

  lemma SharedSourceStays(db: Db, request: Request, after: Db, blob: BlobKey)
    requires request == Request(9, 1, CaptureTarget(7))
    requires db == SharedPost(blob).(deletions := map[9 := (1, CaptureTarget(7))])
    requires IsDeletion(db, request, [SourceId(1, "p")], after)
    ensures SourceId(2, "p") in after.library.sources && 6 !in after.outbox.rows
  {
    var mine, theirs := SourceId(1, "p"), SourceId(2, "p");
    assert mine in [mine] && theirs !in [mine];
    DeletionProperties.SourceStaysUnlessListed(db, request, [mine], after, theirs);
    DeletionProperties.AnotherOwnersRowGoes(db, request, [mine], after, mine, theirs, 6);
  }

  /**
   A run from empty tables leads to a deletion that does it: the outbox row that tells the second
   owner's source goes unsent, while the source and the post stay.
   */
  lemma AnotherOwnersFactIsLost(policy: Policy, blob: BlobKey)
    ensures Reachable(policy, SharedPost(blob))
    ensures 6 in SharedPost(blob).outbox.rows &&
            SharedPost(blob).outbox.rows[6] == Event(SourceCaptured(SourceId(2, "p"), "d"), 3)
    ensures exists after :: Committed(SharedPost(blob), Delete(Request(9, 1, CaptureTarget(7))), after) &&
              6 !in after.outbox.rows && SourceId(2, "p") in after.library.sources
  {
    SharedPostIsReachable(policy, blob);
    var request, order := Request(9, 1, CaptureTarget(7)), [SourceId(1, "p")];
    var noted := SharedPost(blob).(deletions := map[9 := (1, CaptureTarget(7))]);
    assert SharedPost(blob).deletions[9 := (1, CaptureTarget(7))] == noted.deletions;
    var after := Deleted(noted, request, order);
    SharedDeletion(noted, request, blob);
    SharedSourceStays(noted, request, after, blob);
    DeletionCommits(SharedPost(blob), request, order, after);
  }

  // ----- Two posts that reply to each other --------------------------------------------------

  function SecondPost(blob: BlobKey): Db {
    var db := OfficialPost(1, blob);
    db.(content := db.content.(posts := db.content.posts[5 := Post(Some(1), "q", "q")],
                               revisions := db.content.revisions[6 := PostRevision(5, 2)]),
        minted := 7)
  }

  function FirstReply(blob: BlobKey): Db {
    var db := SecondPost(blob);
    db.(content := db.content.(relations := map[7 := Relation(3, Some(5), "q", "reply")]), minted := 8)
  }

  function SecondReply(blob: BlobKey): Db {
    var db := FirstReply(blob);
    db.(content := db.content.(relations := db.content.relations[8 := Relation(5, Some(3), "p", "reply")]), minted := 9)
  }

  lemma SecondPostIsReachable(policy: Policy, blob: BlobKey)
    ensures Reachable(policy, SecondPost(blob))
  {
    OfficialPostIsReachable(policy, 1, blob);
    var db := OfficialPost(1, blob);
    var content := db.content.(posts := db.content.posts[5 := Post(Some(1), "q", "q")]);
    assert PostUpserted(db.content, 5, Some(1), "q", "q", 5, content);
    assert PostObserved(db, Some(1), "q", "q", 2, SecondPost(blob));
    ThenReachable(policy, db, StoreOf(ObservePost(Some(1), "q", "q", 2)), SecondPost(blob));
  }

  lemma FirstReplyIsReachable(policy: Policy, blob: BlobKey)
    ensures Reachable(policy, FirstReply(blob))
  {
    SecondPostIsReachable(policy, blob);
    var db := SecondPost(blob);
    assert IsPost(db.content.posts, "q", 5);
    assert db.content.relations[7 := Relation(3, Some(5), "q", "reply")] == FirstReply(blob).content.relations;
    assert RelationStored(db, 3, "q", "reply", 7, Some(5), FirstReply(blob));
    ThenReachable(policy, db, StoreOf(StoreRelation(3, "q", "reply")), FirstReply(blob));
  }

  lemma SecondReplyIsReachable(policy: Policy, blob: BlobKey)
    ensures Reachable(policy, SecondReply(blob))
  {
    FirstReplyIsReachable(policy, blob);
    var db := FirstReply(blob);
    assert IsPost(db.content.posts, "p", 3);
    assert !IsRelation(db.content.relations, 5, "p", "reply", 7);
    assert RelationStored(db, 5, "p", "reply", 8, Some(3), SecondReply(blob));
    ThenReachable(policy, db, StoreOf(StoreRelation(5, "p", "reply")), SecondReply(blob));
  }

  /**
   Synchronisation leads from empty tables to a stored cycle, with no deletion on the way; from there on
   `ReplyRuns.CycleRefusesEveryPage` applies.
   */
  lemma SynchronisationStoresCycle(policy: Policy, blob: BlobKey)
    ensures Reachable(policy, SecondReply(blob)) && CycleStored(SecondReply(blob).content)
  {
    SecondReplyIsReachable(policy, blob);
    var content := SecondReply(blob).content;
    var relations := ViewOf(content).relations;
    assert RelationKey(content, 7) in relations && RelationKey(content, 8) in relations;
    assert ("p", "q", "reply") in relations && ("q", "p", "reply") in relations;
    var edges := Replies(relations);
    assert ("p", "q") in edges && ("q", "p") in edges;
    assert Walk(edges, ["p", "q", "p"], "p", "p");
    assert Leads(edges, "p", "p");
  }
}
