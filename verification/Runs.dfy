/** What holds in every run of the service: any passes, any answers, any crashes, any other transactions. */
module Runs {
  import opened Wrappers
  import opened Archive
  import opened EventLog
  import opened Transactions
  import opened Integrity
  import opened Invariants
  import opened Records
  import opened Workers
  import opened Journal
  import PrivacyDeletion
  import DeletionProperties

  /** Before the first transaction every table is empty. */
  ghost predicate Start(world: World) {
    && world.workers == map[] && 0 < world.db.minted
    && world.db.intake == Intake(map[], map[], map[], {})
    && world.db.content == Content(map[], map[], map[], map[], map[], map[], map[])
    && world.db.library == Library(map[], map[], map[], {}, {})
    && world.db.outbox == Outbox(map[], [])
    && world.db.accounts == map[] && world.db.blobTasks == map[] && world.db.deletions == map[]
  }

  ghost predicate Follows(policy: Policy, worlds: seq<World>, steps: seq<Step>) {
    && |worlds| == |steps| + 1
    && forall i :: 0 <= i < |steps| ==> StepTo(policy, worlds[i], steps[i], worlds[i + 1])
  }

  ghost predicate IsRun(policy: Policy, worlds: seq<World>, steps: seq<Step>) {
    Follows(policy, worlds, steps) && Start(worlds[0])
  }

  lemma StartHolds(policy: Policy, world: World)
    requires Start(world)
    ensures Inv(policy, world)
  {
    forall s ensures FactsOf(world.db.library, world.db.outbox.log, s) {
    }
  }

  ghost predicate HoldsAt(policy: Policy, worlds: seq<World>, k: nat)
    requires k < |worlds|
  {
    Inv(policy, worlds[k])
  }

  /** The step after the `k`-th world keeps the invariant. */
  ghost predicate KeepsAt(policy: Policy, worlds: seq<World>, k: nat)
    requires k + 1 < |worlds|
  {
    HoldsAt(policy, worlds, k) ==> HoldsAt(policy, worlds, k + 1)
  }

  lemma {:induction false} KeptThroughout(policy: Policy, worlds: seq<World>, i: nat)
    requires i < |worlds| && HoldsAt(policy, worlds, 0)
    requires forall k: nat :: k + 1 < |worlds| ==> KeepsAt(policy, worlds, k)
    ensures HoldsAt(policy, worlds, i)
  {
    if i == 0 {
    } else {
      KeptThroughout(policy, worlds, i - 1);
      assert KeepsAt(policy, worlds, i - 1);
    }
  }

  lemma StepsKeepInv(policy: Policy, worlds: seq<World>, steps: seq<Step>, i: nat)
    requires Follows(policy, worlds, steps) && i < |worlds| && Inv(policy, worlds[0])
    ensures Inv(policy, worlds[i])
  {
    forall k: nat | k + 1 < |worlds| ensures KeepsAt(policy, worlds, k) {
      if HoldsAt(policy, worlds, k) {
        StepKeepsInv(policy, worlds[k], steps[k], worlds[k + 1]);
      }
    }
    KeptThroughout(policy, worlds, i);
    assert HoldsAt(policy, worlds, i);
  }

  /**
   Identifiers are fresh, no reference dangles, evidence agrees, facts tell the revisions, counts are
   backed: always.
   */
  lemma RunHolds(policy: Policy, worlds: seq<World>, steps: seq<Step>, i: nat)
    requires IsRun(policy, worlds, steps) && i < |worlds|
    ensures Inv(policy, worlds[i])
  {
    StartHolds(policy, worlds[0]);
    StepsKeepInv(policy, worlds, steps, i);
  }

  /** What one step of a run may rely on. */
  lemma RunStep(policy: Policy, worlds: seq<World>, steps: seq<Step>, k: nat)
    requires IsRun(policy, worlds, steps) && k < |steps|
    ensures Tally(policy, worlds[k]) && GoesOn(worlds[k], worlds[k + 1])
    ensures StepTo(policy, worlds[k], steps[k], worlds[k + 1])
  {
    RunHolds(policy, worlds, steps, k);
    StepGoesOn(policy, worlds[k], steps[k], worlds[k + 1]);
  }

  ghost predicate AlwaysGoesOn(worlds: seq<World>) {
    forall k :: 0 <= k < |worlds| - 1 ==> GoesOn(worlds[k], worlds[k + 1])
  }

  lemma RunAlwaysGoesOn(policy: Policy, worlds: seq<World>, steps: seq<Step>)
    requires IsRun(policy, worlds, steps)
    ensures AlwaysGoesOn(worlds)
  {
    forall k | 0 <= k < |worlds| - 1 ensures GoesOn(worlds[k], worlds[k + 1]) {
      RunStep(policy, worlds, steps, k);
    }
  }

  lemma {:induction false} RunGoesOn(worlds: seq<World>, i: nat, j: nat)
    requires AlwaysGoesOn(worlds) && i <= j < |worlds|
    ensures Onward(worlds[i].db.intake, worlds[j].db.intake, worlds[i].db.minted)
    ensures worlds[i].db.minted <= worlds[j].db.minted
    decreases j
  {
    var first := worlds[i].db;
    if i == j {
      ExtendsOnward(first.intake, first.intake, first.minted);
    } else {
      RunGoesOn(worlds, i, j - 1);
      assert GoesOn(worlds[j - 1], worlds[j]);
      OnwardTwice(first.intake, worlds[j - 1].db.intake, worlds[j].db.intake, first.minted, worlds[j - 1].db.minted);
    }
  }

  // ----- Exactly once ------------------------------------------------------------------------

  /**
   Every capture gets at most one terminal report, and once it got one no later pass claims it,
   whatever passes overlap, stop half-way or answer late and whatever is delivered or deleted meanwhile.
   */
  lemma ReportedOnceThenNeverClaimed(
      policy: Policy, worlds: seq<World>, steps: seq<Step>, i: nat, j: nat, c: Id, now: Time,
                                     locked: set<Id>, order: seq<Id>)
    requires IsRun(policy, worlds, steps) && i <= j < |worlds|
    ensures Terminals(worlds[i].db.outbox.log, c) <= 1
    ensures Terminals(worlds[i].db.outbox.log, c) == 1 ==>
              (IsClaim(worlds[j].db.intake.captures, now, policy.batchSize, locked, order) ==> c !in order)
  {
    RunHolds(policy, worlds, steps, i);
    var before, after := worlds[i].db, worlds[j].db;
    assert Reports(before.intake.captures, before.outbox.log, before.minted);
    if Terminals(before.outbox.log, c) == 1 && c in after.intake.captures {
      RunAlwaysGoesOn(policy, worlds, steps);
      RunGoesOn(worlds, i, j);
      assert c in before.intake.captures && Carried(before.intake, after.intake, c);
    }
  }

  // ----- What a report says is on record -----------------------------------------------------

  /** The outcome `outcome` is backed by what is stored about `c`. */
  ghost predicate OnRecord(policy: Policy, db: Db, c: Id, outcome: TerminalOutcome)
    requires c in db.intake.captures
  {
    match outcome
    case Preserved(s) =>
      db.intake.captures[c].post.Some? &&
        IsSource(db.library.sources, db.intake.captures[c].owner, db.intake.captures[c].post.value, s)
    case NotPreserved(reason) =>
      && (reason.SourceTransient? ==> policy.maxAttempts <= Failures(db.intake, c))
      && (reason.SourceDeleted? ==> DeletionSeen(db.intake.tombstones, c))
  }

  /** The report of the capture `c` that a step commits, for the operation the capture was accepted for. */
  ghost predicate Answers(policy: Policy, world: World, next: World, c: Id, outcome: TerminalOutcome) {
    && c in world.db.intake.captures && world.db.intake.captures[c].ticket.Some?
    && next.db.outbox.log == world.db.outbox.log +
      [Event(TerminalReport(world.db.intake.captures[c].ticket.value, outcome), c)]
    && OnRecord(policy, world.db, c, outcome)
  }

  ghost predicate IsAnswered(policy: Policy, world: World, next: World, c: Id) {
    exists outcome :: Answers(policy, world, next, c, outcome)
  }

  lemma AnnouncementIsBacked(policy: Policy, world: World, w: Id, next: World, c: Id)
    requires Tally(policy, world) && StepTo(policy, world, Announce(w), next)
    requires Terminals(next.db.outbox.log, c) != Terminals(world.db.outbox.log, c)
    ensures IsAnswered(policy, world, next, c)
  {
    var worker := world.workers[w];
    var due, terminal := worker.queue[0], worker.phase.terminal;
    assert WorkerInv(policy, world.db.intake, world.db.minted, worker);
    assert Remembers(policy, world.db.intake, world.db.minted, due);
    assert due.capture == c by {
      CommitAppends(world.db, ScheduleOf(Report(due.capture, due.owner, due.ticket, terminal)), next.db);
      OnlyReportsAnswer(ScheduleOf(Report(due.capture, due.owner, due.ticket, terminal)), world.db.outbox.log,
        next.db.outbox.log, c);
    }
    var outcome :| ReportStored(world.db, c, due.owner, due.ticket, terminal, outcome, next.db);
    assert Answers(policy, world, next, c, outcome);
  }

  /**
   A step that answers a capture is the announcement of some pass; the answer goes to the operation
   the capture was accepted for, a retryable outcome has `maxAttempts` failures on record, a deleted
   one a deletion, and a preserved one names a source its owner holds at that commit.
   */
  lemma AnswersAreOnRecord(policy: Policy, worlds: seq<World>, steps: seq<Step>, i: nat, c: Id)
    requires IsRun(policy, worlds, steps) && i < |steps|
    requires Terminals(worlds[i + 1].db.outbox.log, c) != Terminals(worlds[i].db.outbox.log, c)
    ensures steps[i].Announce? && IsAnswered(policy, worlds[i], worlds[i + 1], c)
  {
    RunHolds(policy, worlds, steps, i);
    if !steps[i].Announce? {
      OnlyAnnouncementsAnswer(policy, worlds[i], steps[i], worlds[i + 1], c);
    } else {
      AnnouncementIsBacked(policy, worlds[i], steps[i].w, worlds[i + 1], c);
    }
  }

  lemma OnlyAnnouncementsAnswer(policy: Policy, world: World, step: Step, next: World, c: Id)
    requires StepTo(policy, world, step, next) && !step.Announce?
    ensures Terminals(next.db.outbox.log, c) == Terminals(world.db.outbox.log, c)
  {
    match step
    case Claim(w, now, locked) =>
      var order, queue :| Claimed(policy, world, w, now, locked, order, queue, next);
      assert next.db.outbox == world.db.outbox;
    case Answered(w, answer, at) =>
      var tx := AnswerTx(world.workers[w].queue[0].capture, answer, at).0;
      CommitAppends(world.db, tx, next.db);
      OnlyReportsAnswer(tx, world.db.outbox.log, next.db.outbox.log, c);
    case Count(w) => assert next.db.outbox == world.db.outbox;
    case Other(tx) =>
      CommitAppends(world.db, tx, next.db);
      OnlyReportsAnswer(tx, world.db.outbox.log, next.db.outbox.log, c);
    case _ =>
  }

  /** Whatever was read late, no capture counts more attempts than `maxAttempts` or than failures on record. */
  lemma AttemptsStayBacked(policy: Policy, worlds: seq<World>, steps: seq<Step>, i: nat, c: Id)
    requires IsRun(policy, worlds, steps) && i < |worlds| && c in worlds[i].db.intake.captures
    ensures worlds[i].db.intake.captures[c].attempts <= policy.maxAttempts
    ensures worlds[i].db.intake.captures[c].attempts <= Failures(worlds[i].db.intake, c)
  {
    RunHolds(policy, worlds, steps, i);
    assert Counts(policy, worlds[i].db.intake);
  }

  // ----- Posts, sources and links ------------------------------------------------------------

  /**
   No row of any state names a row that is not there, and a post leaves only in an owner deletion
   after which no capture, no source and no account of anybody holds it.
   */
  lemma PostsLeaveUnheld(policy: Policy, worlds: seq<World>, steps: seq<Step>, i: nat, p: Id)
    requires IsRun(policy, worlds, steps) && i < |steps|
    ensures ForeignKeys(worlds[i].db)
    ensures p in worlds[i].db.content.posts && p !in worlds[i + 1].db.content.posts ==>
              && steps[i].Other? && steps[i].tx.Delete?
              && Unheld(worlds[i].db, steps[i].tx.request, worlds[i + 1].db, p)
  {
    RunHolds(policy, worlds, steps, i);
    if p in worlds[i].db.content.posts && p !in worlds[i + 1].db.content.posts {
      StepKeepsPosts(policy, worlds[i], steps[i], worlds[i + 1], p);
    }
  }

  /** After the deletion nothing holds `p`, and the only account it may have had is the deleted connection. */
  ghost predicate Unheld(db: Db, request: PrivacyDeletion.Request, after: Db, p: Id)
    requires p in db.content.posts
  {
    && (forall c :: c in after.intake.captures ==> after.intake.captures[c].post != Some(p))
    && (forall s :: s in after.library.sources ==> after.library.sources[s].post != p)
    && (db.content.posts[p].account.None? || request.target == ConnectionTarget(db.content.posts[p].account.value))
  }

  lemma DeleteKeepsHeldPosts(db: Db, request: PrivacyDeletion.Request, after: Db, p: Id)
    requires DeleteCommitted(db, request, after) && p in db.content.posts
    ensures p in after.content.posts || Unheld(db, request, after, p)
  {
    var result :| PrivacyDeletion.Applied(db, request, result, after);
    if result == Success(true) {
      var noted := db.(deletions := db.deletions[request.operation := (request.owner, request.target)]);
      var order :| PrivacyDeletion.IsDeletion(noted, request, order, after);
      DeletionProperties.PostGoesIffUnheld(noted, request, order, after, p);
    }
  }

  lemma CommitKeepsPosts(db: Db, tx: Tx, after: Db, p: Id)
    requires Committed(db, tx, after) && !tx.Delete? && p in db.content.posts
    ensures p in after.content.posts
  {
    match tx
    case FactOf(fact) => FactKeepsPosts(db, fact, after, p);
    case StoreOf(store) => StoreKeepsPosts(db, store, after, p);
    case _ => SameContent(db, tx, after);
  }

  lemma SameContent(db: Db, tx: Tx, after: Db)
    requires Committed(db, tx, after) && !tx.FactOf? && !tx.StoreOf? && !tx.Delete?
    ensures after.content == db.content
  {
  }

  lemma StoreKeepsPosts(db: Db, tx: StoreTx, after: Db, p: Id)
    requires StoreCommitted(db, tx, after) && p in db.content.posts
    ensures p in after.content.posts
  {
    if tx.ObservePost? {
      PostObservedKeepsPosts(db, tx.account, tx.code, tx.permalink, tx.raw, after, p);
    } else {
      assert after.content.posts == db.content.posts;
    }
  }

  lemma PostObservedKeepsPosts(db: Db, account: Option<Id>, code: string, permalink: string, raw: Id, after: Db, p: Id)
    requires PostObserved(db, account, code, permalink, raw, after) && p in db.content.posts
    ensures p in after.content.posts
  {
  }

  lemma PublishedKeepsContent(db: Db, origin: Origin, digest: string, now: Time, after: Db)
    requires Published(db, origin, digest, now, after)
    ensures after.content == db.content
  {
  }

  lemma ObservationKeepsPosts(db: Db, capture: Id, blob: BlobKey, q: Id, content: Content, mid: Db, p: Id)
    requires ObservationStored(db, capture, blob, q, content, mid) && p in db.content.posts
    ensures p in mid.content.posts
  {
  }

  lemma FactKeepsPosts(db: Db, tx: FactTx, after: Db, p: Id)
    requires FactCommitted(db, tx, after) && p in db.content.posts
    ensures p in after.content.posts
  {
    match tx
    case Resolve(capture, blob, digest, now) =>
      var q, content, mid :| ObservationStored(db, capture, blob, q, content, mid) &&
        Published(mid, Origin(mid.intake.captures[capture].owner, q, Some(capture)), digest, now, after);
      ObservationKeepsPosts(db, capture, blob, q, content, mid, p);
      PublishedKeepsContent(mid, Origin(mid.intake.captures[capture].owner, q, Some(capture)), digest, now, after);
    case MarkUnavailable(capture, availability, digest, now) =>
      var row := db.intake.captures[capture];
      if row.post.Some? {
        PublishedKeepsContent(MarkedOnly(db, capture, availability, now),
          Origin(row.owner, row.post.value, Some(capture)),
                              digest, now, after);
      }
    case Publish(origin, digest, now) => PublishedKeepsContent(db, origin, digest, now, after);
  }

  lemma StepKeepsPosts(policy: Policy, world: World, step: Step, next: World, p: Id)
    requires StepTo(policy, world, step, next) && p in world.db.content.posts && p !in next.db.content.posts
    ensures step.Other? && step.tx.Delete? && Unheld(world.db, step.tx.request, next.db, p)
  {
    if step.Other? && step.tx.Delete? {
      DeleteKeepsHeldPosts(world.db, step.tx.request, next.db, p);
    } else {
      StepCommitsOther(policy, world, step, next);
      if next.db != world.db {
        var tx :| Committed(world.db, tx, next.db) && !tx.Delete?;
        CommitKeepsPosts(world.db, tx, next.db, p);
      }
      assert false;
    }
  }

  lemma StepCommitsOther(policy: Policy, world: World, step: Step, next: World)
    requires StepTo(policy, world, step, next) && !(step.Other? && step.tx.Delete?)
    ensures next.db == world.db || exists tx :: Committed(world.db, tx, next.db) && !tx.Delete?
  {
    match step
    case Claim(w, now, locked) =>
      var order, queue :| Claimed(policy, world, w, now, locked, order, queue, next);
    case _ =>
  }

  ghost predicate AlwaysLinksOnward(worlds: seq<World>) {
    forall k :: 0 <= k < |worlds| - 1 ==> LinksOnward(worlds[k].db.library, worlds[k + 1].db.library)
  }

  lemma RunAlwaysLinksOnward(policy: Policy, worlds: seq<World>, steps: seq<Step>)
    requires IsRun(policy, worlds, steps)
    ensures AlwaysLinksOnward(worlds)
  {
    forall k | 0 <= k < |worlds| - 1 ensures LinksOnward(worlds[k].db.library, worlds[k + 1].db.library) {
      RunHolds(policy, worlds, steps, k);
      StepCommits(policy, worlds[k], steps[k], worlds[k + 1]);
      if worlds[k + 1].db != worlds[k].db {
        var tx :| Committed(worlds[k].db, tx, worlds[k + 1].db);
        CommitLinksOnward(worlds[k].db, tx, worlds[k + 1].db);
      }
    }
  }

  lemma {:induction false} RunLinksOnward(worlds: seq<World>, i: nat, j: nat)
    requires AlwaysLinksOnward(worlds) && i <= j < |worlds| && Links(worlds[i].db.library)
    ensures LinksOnward(worlds[i].db.library, worlds[j].db.library)
    decreases j
  {
    if i == j {
    } else {
      RunLinksOnward(worlds, i, j - 1);
      assert LinksOnward(worlds[j - 1].db.library, worlds[j].db.library);
    }
  }

  /**
   Once an owner's source was removed locally, no later state holds an analysis link of that owner
   and that source; a completion event that was accepted without leaving a link never gets one later;
   and every link belongs to the owner of its source.
   */
  lemma RemovedIsNeverLinked(policy: Policy, worlds: seq<World>, steps: seq<Step>, i: nat, j: nat, event: Id)
    requires IsRun(policy, worlds, steps) && i <= j < |worlds| && event in worlds[j].db.library.links
    ensures (worlds[j].db.library.links[event].owner,
            worlds[j].db.library.links[event].source) !in worlds[i].db.library.removed
    ensures event in worlds[i].db.library.completions ==>
              event in worlds[i].db.library.links &&
                worlds[i].db.library.links[event] == worlds[j].db.library.links[event]
    ensures var library := worlds[j].db.library;
            library.links[event].source in library.sources &&
            library.sources[library.links[event].source].owner == library.links[event].owner
  {
    RunHolds(policy, worlds, steps, j);
    assert Links(worlds[j].db.library);
    RunAlwaysLinksOnward(policy, worlds, steps);
    RunHolds(policy, worlds, steps, i);
    RunLinksOnward(worlds, i, j);
  }

  /**
   Since its last removal a stored source has told one captured fact and then only updates, one per
   stored revision, no two with the same digest; a source that is not stored has told nothing.
   A step changes that only by one more fact, or by the removal fact of an owner deletion.
   */
  lemma FactsTellRevisions(policy: Policy, worlds: seq<World>, steps: seq<Step>, i: nat, s: SourceId)
    requires IsRun(policy, worlds, steps) && i < |steps|
    ensures FactsOf(worlds[i].db.library, worlds[i].db.outbox.log, s)
    ensures var before, after := Stream(worlds[i].db.outbox.log, s), Stream(worlds[i + 1].db.outbox.log, s);
            || after == before
            || (before <= after && |after| == |before| + 1)
            || (after == [] && Removals(worlds[i + 1].db.outbox.log, s) == Removals(worlds[i].db.outbox.log, s) + 1)
  {
    RunHolds(policy, worlds, steps, i);
    assert Facts(worlds[i].db.library, worlds[i].db.outbox.log);
    StepCommits(policy, worlds[i], steps[i], worlds[i + 1]);
    if worlds[i + 1].db != worlds[i].db {
      var tx :| Committed(worlds[i].db, tx, worlds[i + 1].db);
      CommitAppends(worlds[i].db, tx, worlds[i + 1].db);
      StreamOnlyGrows(tx, worlds[i].db.outbox.log, worlds[i + 1].db.outbox.log, s);
    }
  }
}
