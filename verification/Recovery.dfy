/** What a pass that stopped leaves for whichever pass reads the capture next. */
module Recovery {
  import opened Wrappers
  import opened Archive
  import opened Transactions
  import opened Invariants
  import opened Records
  import opened Workers
  import opened Runs
  import opened Schedule
  import PrivacyDeletion
  import DeletionProperties

  /** Earlier evidence about the capture is not stamped later than `now`. */
  ghost predicate NotStampedAfter(tombstones: map<Id, Tombstone>, c: Id, now: Time) {
    forall t :: t in tombstones && tombstones[t].capture == Some(c) ==> tombstones[t].observedAt <= now
  }

  /** The evidence that was written last is the newest, also within one instant. */
  lemma LastIsNewest(tombstones: map<Id, Tombstone>, id: Id, tombstone: Tombstone, c: Id)
    requires tombstone.capture == Some(c) && NotStampedAfter(tombstones, c, tombstone.observedAt)
    requires forall t :: t in tombstones ==> t < id
    ensures NewestSaysDeleted(tombstones[id := tombstone], c) <==> tombstone.availability.DeletedUpstream?
  {
    var after := tombstones[id := tombstone];
    assert IsNewest(after, c, id);
    forall t | t in after && IsNewest(after, c, t) ensures t == id {
      assert after[id].observedAt <= after[t].observedAt;
    }
  }

  lemma ResolveIsRemembered(db: Db, c: Id, blob: BlobKey, digest: string, at: Time, after: Db)
    requires c in db.intake.captures && ObservationRecorded(db, c, blob, digest, at, after)
    ensures c in after.intake.captures && after.intake.captures[c].status.Resolved?
    ensures after.intake.captures[c].ticket == db.intake.captures[c].ticket
  {
    var p, content, mid :| ObservationStored(db, c, blob, p, content, mid) &&
      Published(mid, Origin(mid.intake.captures[c].owner, p, Some(c)), digest, at, after);
    PublishedKeepsIntake(mid, Origin(mid.intake.captures[c].owner, p, Some(c)), digest, at, after);
  }

  lemma MarkIsRemembered(db: Db, c: Id, availability: Availability, digest: string, at: Time, after: Db)
    requires FreshIntake(db.intake, db.minted) && c in db.intake.captures
    requires NotStampedAfter(db.intake.tombstones, c, at)
    requires Marked(db, c, availability, digest, at, after)
    ensures c in after.intake.captures && after.intake.captures[c].status.Unavailable?
    ensures after.intake.captures[c].ticket == db.intake.captures[c].ticket
    ensures NewestSaysDeleted(after.intake.tombstones, c) <==> availability.DeletedUpstream?
  {
    MarkLeaves(db, c, availability, digest, at, after);
    LastIsNewest(db.intake.tombstones, db.minted, Tombstone(db.intake.captures[c].post, Some(c), availability, at), c);
  }

  /** The stored capture reads as `terminal`: a status of its own, and the newest evidence where that decides. */
  ghost predicate ReadsAs(intake: Intake, c: Id, terminal: Terminal) {
    && c in intake.captures && intake.captures[c].ticket.Some?
    && match terminal
       case TerminalPreserved => intake.captures[c].status.Resolved?
       case TerminalUnavailable(reason) =>
         && intake.captures[c].status.Unavailable? && !reason.SourceTransient?
         && (reason.SourceDeleted? <==> NewestSaysDeleted(intake.tombstones, c))
  }

  lemma ReadsAsRecorded(policy: Policy, intake: Intake, c: Id, terminal: Terminal)
    requires ReadsAs(intake, c, terminal)
    ensures RecordedTerminal(policy, intake.tombstones, Read(intake.captures, c)) == Some(terminal)
  {
  }

  lemma AnswerReadsAs(db: Db, c: Id, answer: Answer, at: Time, after: Db)
    requires FreshIntake(db.intake, db.minted) && c in db.intake.captures && db.intake.captures[c].ticket.Some?
    requires NotStampedAfter(db.intake.tombstones, c, at) && !answer.Trouble?
    requires Committed(db, AnswerTx(c, answer, at).0, after)
    ensures ReadsAs(after.intake, c, AnswerTx(c, answer, at).1.terminal)
  {
    match answer
    case Found(blob, digest) => ResolveIsRemembered(db, c, blob, digest, at, after);
    case Gone(digest) => MarkIsRemembered(db, c, DeletedUpstream, digest, at, after);
    case Refused(digest) => MarkIsRemembered(db, c, PrivateOrInaccessible, digest, at, after);
  }

  // ----- Until the next evidence -------------------------------------------------------------

  /** The transaction records an outcome of the capture `c`. */
  predicate Decides(tx: Tx, c: Id) {
    tx.FactOf? && !tx.fact.Publish? && tx.fact.capture == c
  }

  /** The evidence about the capture `c` is the same. */
  ghost predicate SameTombstones(before: map<Id, Tombstone>, after: map<Id, Tombstone>, c: Id) {
    && (forall t :: t in before && before[t].capture == Some(c) ==> t in after && after[t] == before[t])
    && (forall t :: t in after && after[t].capture == Some(c) ==> t in before && before[t] == after[t])
  }

  /** Status, ticket and evidence of the capture `c` are the same. */
  ghost predicate SameRecord(before: Intake, after: Intake, c: Id)
    requires c in before.captures && c in after.captures
  {
    && after.captures[c].status == before.captures[c].status && after.captures[c].ticket == before.captures[c].ticket
    && SameTombstones(before.tombstones, after.tombstones, c)
  }

  lemma SameNewest(before: map<Id, Tombstone>, after: map<Id, Tombstone>, c: Id)
    requires SameTombstones(before, after, c) && NewestSaysDeleted(before, c)
    ensures NewestSaysDeleted(after, c)
  {
    var t :| t in before && IsNewest(before, c, t) && SaysDeleted(before[t], c);
    assert IsNewest(after, c, t) && SaysDeleted(after[t], c);
  }

  lemma ReadsAsBefore(before: Intake, after: Intake, c: Id, terminal: Terminal)
    requires ReadsAs(before, c, terminal) && c in after.captures && SameRecord(before, after, c)
    ensures ReadsAs(after, c, terminal)
  {
    if NewestSaysDeleted(before.tombstones, c) {
      SameNewest(before.tombstones, after.tombstones, c);
    }
    if NewestSaysDeleted(after.tombstones, c) {
      SameNewest(after.tombstones, before.tombstones, c);
    }
  }

  lemma FactSameRecord(db: Db, tx: FactTx, after: Db, c: Id)
    requires FreshIntake(db.intake, db.minted) && FactCommitted(db, tx, after) && !Decides(FactOf(tx), c)
    requires c in db.intake.captures
    ensures c in after.intake.captures && SameRecord(db.intake, after.intake, c)
  {
    match tx
    case Resolve(capture, blob, digest, now) =>
      var p, content, mid :| ObservationStored(db, capture, blob, p, content, mid) &&
        Published(mid, Origin(mid.intake.captures[capture].owner, p, Some(capture)), digest, now, after);
      PublishedKeepsIntake(mid, Origin(mid.intake.captures[capture].owner, p, Some(capture)), digest, now, after);
    case MarkUnavailable(capture, availability, digest, now) =>
      MarkLeaves(db, capture, availability, digest, now, after);
    case Publish(origin, digest, now) => PublishedKeepsIntake(db, origin, digest, now, after);
  }

  lemma DeletionSameTombstones(intake: Intake, target: Target, posts: set<Id>, c: Id)
    requires forall t :: t in intake.tombstones ==> SubjectAgrees(intake.captures, intake.tombstones[t])
    requires c in intake.captures && target != CaptureTarget(c)
    requires intake.captures[c].post.Some? ==> intake.captures[c].post.value !in posts
    ensures var detached := if target.CaptureTarget? then
            PrivacyDeletion.TombstonesWithout(intake.tombstones, target.id)
                            else intake.tombstones;
            SameTombstones(intake.tombstones, PrivacyDeletion.KeepTombstones(detached, posts), c)
  {
    forall t | t in intake.tombstones && intake.tombstones[t].capture == Some(c)
      ensures !(intake.tombstones[t].post.Some? && intake.tombstones[t].post.value in posts)
    {
      assert SubjectAgrees(intake.captures, intake.tombstones[t]);
    }
  }

  lemma DeleteSameRecord(db: Db, request: PrivacyDeletion.Request, order: seq<SourceId>, after: Db, c: Id)
    requires Sound(db) && PrivacyDeletion.IsDeletion(db, request, order, after)
    requires c in db.intake.captures && c in after.intake.captures
    ensures SameRecord(db.intake, after.intake, c)
  {
    DeletionProperties.TablesAfter(db, request, order, after);
    var posts := DeletionProperties.PostsGone(db, request.target, order);
    assert db.intake.captures[c].post.Some? ==> db.intake.captures[c].post.value !in posts by {
      DeletionProperties.CapturePostsStay(db, request.target, order);
    }
    DeletionSameTombstones(db.intake, request.target, posts, c);
  }

  lemma DeleteTxSameRecord(db: Db, request: PrivacyDeletion.Request, after: Db, c: Id)
    requires Sound(db) && DeleteCommitted(db, request, after) && c in db.intake.captures && c in after.intake.captures
    ensures SameRecord(db.intake, after.intake, c)
  {
    var result :| PrivacyDeletion.Applied(db, request, result, after);
    if result == Success(true) {
      var noted := db.(deletions := db.deletions[request.operation := (request.owner, request.target)]);
      var order :| PrivacyDeletion.IsDeletion(noted, request, order, after);
      DeleteSameRecord(noted, request, order, after, c);
    }
  }

  /** Whatever commits, the record of a capture changes only when its own outcome is recorded. */
  lemma CommitSameRecord(db: Db, tx: Tx, after: Db, c: Id)
    requires Sound(db) && Committed(db, tx, after) && !Decides(tx, c) && c in db.intake.captures
    requires c in after.intake.captures
    ensures SameRecord(db.intake, after.intake, c)
  {
    match tx
    case IntakeOf(intake) => IntakeSameRecord(db, intake, after, c);
    case ScheduleOf(schedule) => ScheduleSameRecord(db, schedule, after, c);
    case FactOf(fact) => FactSameRecord(db, fact, after, c);
    case StoreOf(store) => StoreSameIntake(db, store, after);
    case Delete(request) => DeleteTxSameRecord(db, request, after, c);
    case _ =>
  }

  lemma IntakeSameRecord(db: Db, tx: IntakeTx, after: Db, c: Id)
    requires FreshIntake(db.intake, db.minted) && IntakeCommitted(db, tx, after)
    requires c in db.intake.captures && c in after.intake.captures
    ensures SameRecord(db.intake, after.intake, c)
  {
  }

  lemma ScheduleSameRecord(db: Db, tx: ScheduleTx, after: Db, c: Id)
    requires ScheduleCommitted(db, tx, after) && c in db.intake.captures && c in after.intake.captures
    ensures SameRecord(db.intake, after.intake, c)
  {
  }

  // ----- Whole runs --------------------------------------------------------------------------

  /** The step records an outcome of the capture `c`, for a pass or for anybody else. */
  ghost predicate StepDecides(world: World, step: Step, c: Id) {
    match step
    case Answered(w, answer, at) => Busy(world, w) && world.workers[w].queue[0].capture == c && !answer.Trouble?
    case Other(tx) => Decides(tx, c)
    case _ => false
  }

  lemma StepSameRecord(policy: Policy, world: World, step: Step, next: World, c: Id)
    requires Sound(world.db) && StepTo(policy, world, step, next) && !StepDecides(world, step, c)
    requires c in world.db.intake.captures && c in next.db.intake.captures
    ensures SameRecord(world.db.intake, next.db.intake, c)
  {
    match step
    case Answered(w, answer, at) =>
      CommitSameRecord(world.db, AnswerTx(world.workers[w].queue[0].capture, answer, at).0, next.db, c);
    case Other(tx) => CommitSameRecord(world.db, tx, next.db, c);
    case _ => OwnSameRecord(policy, world, step, next, c);
  }

  lemma OwnSameRecord(policy: Policy, world: World, step: Step, next: World, c: Id)
    requires StepTo(policy, world, step, next) && !step.Answered? && !step.Other?
    requires c in world.db.intake.captures && c in next.db.intake.captures
    ensures SameRecord(world.db.intake, next.db.intake, c)
  {
    match step
    case Claim(w, now, locked) =>
      var order, queue :| Claimed(policy, world, w, now, locked, order, queue, next);
      ScheduleSameRecord(world.db, Lease(Batch(order), now + CLAIM_LEASE_SECONDS), next.db, c);
    case Count(w) =>
      var due := world.workers[w].queue[0];
      var attempts := NextAttempts(due.attempts);
      ScheduleSameRecord(world.db, CountAttempt(due.capture, attempts, world.workers[w].now + RetryDelay(attempts)),
        next.db, c);
    case Announce(w) =>
      var due := world.workers[w].queue[0];
      ScheduleSameRecord(world.db, Report(due.capture, due.owner, due.ticket, world.workers[w].phase.terminal), next.db,
        c);
    case _ =>
  }

  /** Step `k` leaves a capture that stays reading as before, unless it records an outcome of it. */
  ghost predicate KeepsReading(worlds: seq<World>, steps: seq<Step>, k: nat, c: Id)
    requires |worlds| == |steps| + 1 && k < |steps|
  {
    forall terminal :: ReadsAs(worlds[k].db.intake, c, terminal) && c in worlds[k + 1].db.intake.captures ==>
      ReadsAs(worlds[k + 1].db.intake, c, terminal)
  }

  lemma RunKeepsReading(policy: Policy, worlds: seq<World>, steps: seq<Step>, k: nat, c: Id)
    requires IsRun(policy, worlds, steps) && k < |steps| && !StepDecides(worlds[k], steps[k], c)
    ensures KeepsReading(worlds, steps, k, c)
  {
    RunHolds(policy, worlds, steps, k);
    var before, next := worlds[k], worlds[k + 1];
    assert StepTo(policy, before, steps[k], next);
    if c in before.db.intake.captures && c in next.db.intake.captures {
      StepSameRecord(policy, before, steps[k], next, c);
      forall terminal | ReadsAs(before.db.intake, c, terminal) ensures ReadsAs(next.db.intake, c, terminal) {
        ReadsAsBefore(before.db.intake, next.db.intake, c, terminal);
      }
    }
  }

  lemma {:induction false} ReadingIsKept(
      worlds: seq<World>, steps: seq<Step>, i: nat, j: nat, c: Id, terminal: Terminal)
    requires |worlds| == |steps| + 1 && i <= j < |worlds| && ReadsAs(worlds[i].db.intake, c, terminal)
    requires forall k: nat :: i <= k < j ==> KeepsReading(worlds, steps, k, c)
    requires forall k :: i <= k <= j ==> c in worlds[k].db.intake.captures
    ensures ReadsAs(worlds[j].db.intake, c, terminal)
    decreases j
  {
    if i == j {
    } else {
      ReadingIsKept(worlds, steps, i, j - 1, c, terminal);
      assert KeepsReading(worlds, steps, j - 1, c);
    }
  }

  /** A capture that is stored now was stored ever since it was. */
  lemma StoredEverSince(worlds: seq<World>, i: nat, j: nat, c: Id)
    requires AlwaysGoesOn(worlds) && i <= j < |worlds|
    requires c in worlds[i].db.intake.captures && c in worlds[j].db.intake.captures && c < worlds[i].db.minted
    ensures forall k :: i <= k <= j ==> c in worlds[k].db.intake.captures
  {
    forall k | i <= k <= j ensures c in worlds[k].db.intake.captures {
      RunGoesOn(worlds, i, k);
      RunGoesOn(worlds, k, j);
    }
  }

  /** What the pass `w` commits with its answer at step `i`. */
  ghost predicate AnswersAt(worlds: seq<World>, steps: seq<Step>, i: nat, c: Id, answer: Answer, at: Time)
    requires |worlds| == |steps| + 1 && i < |steps|
  {
    && steps[i].Answered? && steps[i].answer == answer && steps[i].at == at
    && Busy(worlds[i], steps[i].w) && worlds[i].workers[steps[i].w].queue[0].capture == c
  }

  lemma AnswerReadsAsAt(policy: Policy, worlds: seq<World>, steps: seq<Step>, i: nat, c: Id, answer: Answer, at: Time)
    requires IsRun(policy, worlds, steps) && i < |steps| && AnswersAt(worlds, steps, i, c, answer, at)
    requires !answer.Trouble?
    requires NotStampedAfter(worlds[i].db.intake.tombstones, c, at)
    ensures ReadsAs(worlds[i + 1].db.intake, c, AnswerTx(c, answer, at).1.terminal) && c < worlds[i + 1].db.minted
  {
    RunStep(policy, worlds, steps, i);
    var worker := worlds[i].workers[steps[i].w];
    assert Remembers(policy, worlds[i].db.intake, worlds[i].db.minted, worker.queue[0]);
    assert c in worlds[i].db.intake.captures by { AnsweredIsStored(worlds[i].db, c, answer, at, worlds[i + 1].db); }
    AnswerReadsAs(worlds[i].db, c, answer, at, worlds[i + 1].db);
  }

  lemma AnsweredIsStored(db: Db, c: Id, answer: Answer, at: Time, after: Db)
    requires Committed(db, AnswerTx(c, answer, at).0, after)
    ensures c in db.intake.captures
  {
    match answer
    case Found(_, _) =>
    case Gone(_) =>
    case Refused(_) =>
    case Trouble =>
  }

  /**
   A pass that stops after recording an answer and before reporting it loses nothing: in every later
   state of the run, until another outcome of that capture is recorded, whichever pass reads the
   capture finds exactly the outcome the stopped one was about to announce.
   */
  lemma AnswerIsRemembered(
      policy: Policy, worlds: seq<World>, steps: seq<Step>, i: nat, j: nat, c: Id, answer: Answer, at: Time)
    requires IsRun(policy, worlds, steps) && i < j < |worlds|
    requires AnswersAt(worlds, steps, i, c, answer, at) && !answer.Trouble?
    requires NotStampedAfter(worlds[i].db.intake.tombstones, c, at)
    requires forall k :: i < k < j ==> !StepDecides(worlds[k], steps[k], c)
    requires c in worlds[j].db.intake.captures
    ensures worlds[j].db.intake.captures[c].ticket.Some?
    ensures RecordedTerminal(policy, worlds[j].db.intake.tombstones, Read(worlds[j].db.intake.captures, c)) ==
            Some(AnswerTx(c, answer, at).1.terminal)
  {
    var terminal := AnswerTx(c, answer, at).1.terminal;
    AnswerReadsAsAt(policy, worlds, steps, i, c, answer, at);
    RunAlwaysGoesOn(policy, worlds, steps);
    StoredEverSince(worlds, i + 1, j, c);
    forall k: nat | i + 1 <= k < j ensures KeepsReading(worlds, steps, k, c) {
      RunKeepsReading(policy, worlds, steps, k, c);
    }
    ReadingIsKept(worlds, steps, i + 1, j, c, terminal);
    ReadsAsRecorded(policy, worlds[j].db.intake, c, terminal);
  }

  // ----- The failure that reached the limit --------------------------------------------------

  /** The stored capture has used up its attempts without an outcome. */
  ghost predicate ReadsTired(policy: Policy, intake: Intake, c: Id) {
    && c in intake.captures && intake.captures[c].ticket.Some? && intake.captures[c].status.Accepted?
    && policy.maxAttempts <= intake.captures[c].attempts
  }

  ghost predicate StepCounts(world: World, step: Step, c: Id) {
    step.Count? && Busy(world, step.w) && world.workers[step.w].queue[0].capture == c
  }

  lemma StepSameAttempts(policy: Policy, world: World, step: Step, next: World, c: Id)
    requires FreshIntake(world.db.intake, world.db.minted) && StepTo(policy, world, step, next)
    requires !StepCounts(world, step, c)
    requires c in world.db.intake.captures && c in next.db.intake.captures
    ensures next.db.intake.captures[c].attempts == world.db.intake.captures[c].attempts
  {
    match step
    case Claim(w, now, locked) =>
      var order, queue :| Claimed(policy, world, w, now, locked, order, queue, next);
    case Answered(w, answer, at) =>
      CommitSameAttempts(world.db, AnswerTx(world.workers[w].queue[0].capture, answer, at).0, next.db);
    case Announce(w) => AnnounceSameAttempts(policy, world, w, next);
    case Other(tx) => CommitSameAttempts(world.db, tx, next.db);
    case _ =>
  }

  lemma AnnounceSameAttempts(policy: Policy, world: World, w: Id, next: World)
    requires StepTo(policy, world, Announce(w), next)
    ensures SameAttempts(world.db.intake.captures, next.db.intake.captures)
  {
    var due := world.workers[w].queue[0];
    ScheduleSameAttempts(world.db, Report(due.capture, due.owner, due.ticket, world.workers[w].phase.terminal),
      next.db);
  }

  ghost predicate StaysTired(policy: Policy, worlds: seq<World>, steps: seq<Step>, k: nat, c: Id)
    requires |worlds| == |steps| + 1 && k < |steps|
  {
    ReadsTired(policy, worlds[k].db.intake, c) && c in worlds[k + 1].db.intake.captures ==>
      ReadsTired(policy, worlds[k + 1].db.intake, c)
  }

  lemma RunStaysTired(policy: Policy, worlds: seq<World>, steps: seq<Step>, k: nat, c: Id)
    requires IsRun(policy, worlds, steps) && k < |steps|
    requires !StepDecides(worlds[k], steps[k], c) && !StepCounts(worlds[k], steps[k], c)
    ensures StaysTired(policy, worlds, steps, k, c)
  {
    RunHolds(policy, worlds, steps, k);
    var before, next := worlds[k], worlds[k + 1];
    assert StepTo(policy, before, steps[k], next);
    if c in before.db.intake.captures && c in next.db.intake.captures {
      StepSameRecord(policy, before, steps[k], next, c);
      StepSameAttempts(policy, before, steps[k], next, c);
    }
  }

  lemma {:induction false} TiredIsKept(policy: Policy, worlds: seq<World>, steps: seq<Step>, i: nat, j: nat, c: Id)
    requires |worlds| == |steps| + 1 && i <= j < |worlds| && ReadsTired(policy, worlds[i].db.intake, c)
    requires forall k: nat :: i <= k < j ==> StaysTired(policy, worlds, steps, k, c)
    requires forall k :: i <= k <= j ==> c in worlds[k].db.intake.captures
    ensures ReadsTired(policy, worlds[j].db.intake, c)
    decreases j
  {
    if i == j {
    } else {
      TiredIsKept(policy, worlds, steps, i, j - 1, c);
      assert StaysTired(policy, worlds, steps, j - 1, c);
    }
  }

  lemma CountReadsTired(policy: Policy, worlds: seq<World>, steps: seq<Step>, i: nat, c: Id)
    requires IsRun(policy, worlds, steps) && i < |steps| && StepCounts(worlds[i], steps[i], c)
    requires c in worlds[i].db.intake.captures && worlds[i].db.intake.captures[c].status.Accepted?
    requires policy.maxAttempts <= NextAttempts(worlds[i].workers[steps[i].w].queue[0].attempts)
    ensures ReadsTired(policy, worlds[i + 1].db.intake, c) && c < worlds[i + 1].db.minted
  {
    RunStep(policy, worlds, steps, i);
    assert Remembers(policy, worlds[i].db.intake, worlds[i].db.minted, worlds[i].workers[steps[i].w].queue[0]);
  }

  /**
   So does a pass that stops after the count that reached the limit: until an outcome of the capture
   is recorded or another pass counts it, whoever reads it finds that it is to be given up.
   */
  lemma LimitIsRemembered(policy: Policy, worlds: seq<World>, steps: seq<Step>, i: nat, j: nat, c: Id)
    requires IsRun(policy, worlds, steps) && i < j < |worlds| && StepCounts(worlds[i], steps[i], c)
    requires c in worlds[i].db.intake.captures && worlds[i].db.intake.captures[c].status.Accepted?
    requires policy.maxAttempts <= NextAttempts(worlds[i].workers[steps[i].w].queue[0].attempts)
    requires forall k :: i < k < j ==> !StepDecides(worlds[k], steps[k], c) && !StepCounts(worlds[k], steps[k], c)
    requires c in worlds[j].db.intake.captures
    ensures worlds[j].db.intake.captures[c].ticket.Some?
    ensures RecordedTerminal(policy, worlds[j].db.intake.tombstones, Read(worlds[j].db.intake.captures, c)) ==
            Some(TerminalUnavailable(SourceTransient))
  {
    CountReadsTired(policy, worlds, steps, i, c);
    RunAlwaysGoesOn(policy, worlds, steps);
    StoredEverSince(worlds, i + 1, j, c);
    forall k: nat | i + 1 <= k < j ensures StaysTired(policy, worlds, steps, k, c) {
      RunStaysTired(policy, worlds, steps, k, c);
    }
    TiredIsKept(policy, worlds, steps, i + 1, j, c);
  }
}
