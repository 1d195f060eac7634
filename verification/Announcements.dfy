/** What is announced, and how often: over whole runs, on the tables and the log alone. */
module Announcements {
  import opened Wrappers
  import opened Archive
  import opened Transactions
  import opened Invariants
  import opened Records
  import opened Workers
  import opened Runs
  import opened Journal
  import opened Effects
  import opened Ownership
  import PrivacyDeletion
  import DeletionProperties

  // ----- Terminal reports --------------------------------------------------------------------

  /** The report of `c`, for its own owner and operation, with what the pass found. */
  ghost predicate Announced(db: Db, c: Id, terminal: Terminal, after: Db) {
    && c in db.intake.captures && db.intake.captures[c].ticket.Some?
    && var row := db.intake.captures[c];
       exists outcome :: ReportLeaves(db, c, row.owner, row.ticket.value, terminal, outcome, after)
  }

  /**
   In every run the announcement of a stored, unanswered capture appends one report, which is
   preserved exactly when the pass found it preserved and its owner holds a source of its post.
   */
  lemma AnnouncementSays(policy: Policy, worlds: seq<World>, steps: seq<Step>, i: nat)
    requires IsRun(policy, worlds, steps) && i < |steps| && steps[i].Announce?
    ensures Busy(worlds[i], steps[i].w) && worlds[i].workers[steps[i].w].phase.Reporting?
    ensures var worker := worlds[i].workers[steps[i].w];
            var c := worker.queue[0].capture;
            c in worlds[i].db.intake.captures && !worlds[i].db.intake.captures[c].reported ==>
              Announced(worlds[i].db, c, worker.phase.terminal, worlds[i + 1].db)
  {
    RunStep(policy, worlds, steps, i);
    var db, worker := worlds[i].db, worlds[i].workers[steps[i].w];
    var due := worker.queue[0];
    assert WorkerInv(policy, db.intake, db.minted, worker);
    assert Remembers(policy, db.intake, db.minted, due);
    ReportEffect(db, due.capture, due.owner, due.ticket, worker.phase.terminal, worlds[i + 1].db);
  }

  // ----- A stored page -----------------------------------------------------------------------

  lemma ResolveKeepsPost(db: Db, capture: Id, blob: BlobKey, digest: string, now: Time, after: Db, c: Id)
    requires Sound(db) && ObservationRecorded(db, capture, blob, digest, now, after)
    requires c in db.intake.captures && db.intake.captures[c].post.Some?
    ensures c in after.intake.captures && after.intake.captures[c].post == db.intake.captures[c].post
  {
    var p, content, mid :| ObservationStored(db, capture, blob, p, content, mid) &&
      Published(mid, Origin(mid.intake.captures[capture].owner, p, Some(capture)), digest, now, after);
    PublishedKeepsIntake(mid, Origin(mid.intake.captures[capture].owner, p, Some(capture)), digest, now, after);
    if capture == c {
      var code, post := LastSegment(db.intake.captures[c].url), db.intake.captures[c].post.value;
      assert IsPost(db.content.posts, code, post) && IsPost(db.content.posts, code, p);
    }
  }

  lemma FactKeepsPost(db: Db, tx: FactTx, after: Db, c: Id)
    requires Sound(db) && FactCommitted(db, tx, after) && c in db.intake.captures && db.intake.captures[c].post.Some?
    ensures c in after.intake.captures && after.intake.captures[c].post == db.intake.captures[c].post
  {
    match tx
    case Resolve(capture, blob, digest, now) => ResolveKeepsPost(db, capture, blob, digest, now, after, c);
    case MarkUnavailable(capture, availability, digest, now) =>
      MarkLeaves(db, capture, availability, digest, now, after);
    case Publish(origin, digest, now) => PublishedKeepsIntake(db, origin, digest, now, after);
  }

  lemma DeleteKeepsPost(db: Db, request: PrivacyDeletion.Request, after: Db, c: Id)
    requires DeleteCommitted(db, request, after) && c in db.intake.captures && c in after.intake.captures
    ensures after.intake.captures[c] == db.intake.captures[c]
  {
    var result :| PrivacyDeletion.Applied(db, request, result, after);
    if result == Success(true) {
      var noted := db.(deletions := db.deletions[request.operation := (request.owner, request.target)]);
      var order :| PrivacyDeletion.IsDeletion(noted, request, order, after);
      DeletionTakesItsTarget(noted, request, order, after);
    }
  }

  /** Once a capture has a post it keeps it. */
  lemma CommitKeepsPost(db: Db, tx: Tx, after: Db, c: Id)
    requires Sound(db) && Committed(db, tx, after)
    requires c in db.intake.captures && db.intake.captures[c].post.Some? && c in after.intake.captures
    ensures after.intake.captures[c].post == db.intake.captures[c].post
  {
    match tx
    case IntakeOf(intake) => IntakeKeepsPost(db, intake, after, c);
    case ScheduleOf(schedule) => ScheduleKeepsPost(db, schedule, after, c);
    case FactOf(fact) => FactKeepsPost(db, fact, after, c);
    case StoreOf(store) => StoreSameIntake(db, store, after);
    case Delete(request) => DeleteKeepsPost(db, request, after, c);
    case _ =>
  }

  lemma IntakeKeepsPost(db: Db, tx: IntakeTx, after: Db, c: Id)
    requires FreshIntake(db.intake, db.minted) && IntakeCommitted(db, tx, after) && c in db.intake.captures
    ensures c in after.intake.captures && after.intake.captures[c].post == db.intake.captures[c].post
  {
  }

  lemma ScheduleKeepsPost(db: Db, tx: ScheduleTx, after: Db, c: Id)
    requires ScheduleCommitted(db, tx, after) && c in db.intake.captures
    ensures c in after.intake.captures && after.intake.captures[c].post == db.intake.captures[c].post
  {
  }

  ghost predicate KeepsPost(worlds: seq<World>, c: Id, k: nat)
    requires k + 1 < |worlds|
  {
    var before, after := worlds[k].db.intake.captures, worlds[k + 1].db.intake.captures;
    && (c in before && before[c].post.Some? && c in after ==> after[c].post == before[c].post)
    && (c in after && c < worlds[k].db.minted ==> c in before)
    && worlds[k].db.minted <= worlds[k + 1].db.minted
  }

  lemma StepKeepsPost(policy: Policy, worlds: seq<World>, steps: seq<Step>, c: Id, k: nat)
    requires IsRun(policy, worlds, steps) && k < |steps|
    ensures KeepsPost(worlds, c, k)
  {
    var db, after := worlds[k].db, worlds[k + 1].db;
    RunHolds(policy, worlds, steps, k);
    RunStep(policy, worlds, steps, k);
    StepCommitsOne(policy, worlds[k], steps[k], worlds[k + 1]);
    if after != db && c in db.intake.captures && db.intake.captures[c].post.Some? && c in after.intake.captures {
      var tx :| StepOf(steps[k], tx) && Committed(db, tx, after);
      CommitKeepsPost(db, tx, after, c);
    }
  }

  lemma {:induction false} PostStays(worlds: seq<World>, i: nat, j: nat, c: Id)
    requires i <= j < |worlds| && c in worlds[i].db.intake.captures && c < worlds[i].db.minted
    requires worlds[i].db.intake.captures[c].post.Some? && c in worlds[j].db.intake.captures
    requires forall k: nat :: i <= k < j ==> KeepsPost(worlds, c, k)
    ensures worlds[j].db.intake.captures[c].post == worlds[i].db.intake.captures[c].post
    ensures worlds[i].db.minted <= worlds[j].db.minted
    decreases j
  {
    if i == j {
    } else {
      assert KeepsPost(worlds, c, j - 1);
      MintedGrows(worlds, i, j - 1, c);
      PostStays(worlds, i, j - 1, c);
    }
  }

  lemma {:induction false} MintedGrows(worlds: seq<World>, i: nat, j: nat, c: Id)
    requires i <= j < |worlds| && forall k: nat :: i <= k < j ==> KeepsPost(worlds, c, k)
    ensures worlds[i].db.minted <= worlds[j].db.minted
    decreases j
  {
    if i == j {
    } else {
      MintedGrows(worlds, i, j - 1, c);
      assert KeepsPost(worlds, c, j - 1);
    }
  }

  /** The step is not one of the pass `w`. */
  predicate NotOf(step: Step, w: Id) {
    step.Other? || step.w != w
  }

  lemma OthersLeavePass(policy: Policy, world: World, step: Step, next: World, w: Id)
    requires StepTo(policy, world, step, next) && NotOf(step, w) && w in world.workers
    ensures w in next.workers && next.workers[w] == world.workers[w]
  {
    match step
    case Claim(w', now, locked) =>
      var order, queue :| Claimed(policy, world, w', now, locked, order, queue, next);
    case _ =>
  }

  lemma {:induction false} PassStaysPut(policy: Policy, worlds: seq<World>, steps: seq<Step>, i: nat, j: nat, w: Id)
    requires IsRun(policy, worlds, steps) && i <= j < |worlds| && w in worlds[i].workers
    requires forall k :: i <= k < j ==> NotOf(steps[k], w)
    ensures w in worlds[j].workers && worlds[j].workers[w] == worlds[i].workers[w]
    decreases j
  {
    if i == j {
    } else {
      PassStaysPut(policy, worlds, steps, i, j - 1, w);
      OthersLeavePass(policy, worlds[j - 1], steps[j - 1], worlds[j], w);
    }
  }

  /** What a stored page leaves for its capture: a post, and a source of its owner for that post. */
  ghost predicate PageStored(db: Db, c: Id) {
    && c in db.intake.captures && c < db.minted && db.intake.captures[c].post.Some?
    && HoldsSource(db.library.sources, db.intake.captures[c].owner, db.intake.captures[c].post.value)
  }

  lemma ResolveStoresPage(db: Db, c: Id, blob: BlobKey, digest: string, now: Time, after: Db)
    requires Sound(db) && Committed(db, FactOf(Resolve(c, blob, digest, now)), after)
    ensures PageStored(after, c)
  {
    ResolveEffect(db, c, blob, digest, now, after);
    var p, mid, s :| PageRecorded(db, c, blob, p, mid) &&
      FactTold(mid, Origin(db.intake.captures[c].owner, p, Some(c)), digest, now, s, after);
    assert after.library.sources[s].owner == after.intake.captures[c].owner;
  }

  lemma FoundStoresPage(policy: Policy, worlds: seq<World>, steps: seq<Step>, i: nat, w: Id, c: Id)
    requires IsRun(policy, worlds, steps) && i < |steps| && steps[i].Answered? && steps[i].w == w
    requires steps[i].answer.Found? && Busy(worlds[i], w) && worlds[i].workers[w].queue[0].capture == c
    ensures PageStored(worlds[i + 1].db, c)
    ensures Busy(worlds[i + 1], w) && worlds[i + 1].workers[w].queue[0].capture == c
    ensures worlds[i + 1].workers[w].phase == Reporting(TerminalPreserved)
  {
    RunHolds(policy, worlds, steps, i);
    RunStep(policy, worlds, steps, i);
    var answer := steps[i].answer;
    ResolveStoresPage(worlds[i].db, c, answer.blob, answer.digest, steps[i].at, worlds[i + 1].db);
  }

  /**
   A pass that stored a page announces it as preserved: whatever else happens between the two, the
   capture, if it is still stored and unanswered, has its post, and the report names a source of its
   owner for it exactly as long as there is one, as there was right after the page.
   */
  lemma StoredPageIsAnnounced(policy: Policy, worlds: seq<World>, steps: seq<Step>, i: nat, j: nat, w: Id, c: Id)
    requires IsRun(policy, worlds, steps) && i < j < |steps|
    requires steps[i].Answered? && steps[i].w == w && steps[i].answer.Found?
    requires Busy(worlds[i], w) && worlds[i].workers[w].queue[0].capture == c
    requires steps[j] == Announce(w) && forall k :: i < k < j ==> NotOf(steps[k], w)
    requires c in worlds[j].db.intake.captures && !worlds[j].db.intake.captures[c].reported
    ensures PageStored(worlds[i + 1].db, c)
    ensures worlds[j].db.intake.captures[c].post == worlds[i + 1].db.intake.captures[c].post
    ensures Announced(worlds[j].db, c, TerminalPreserved, worlds[j + 1].db)
  {
    FoundStoresPage(policy, worlds, steps, i, w, c);
    forall k: nat | i + 1 <= k < j ensures KeepsPost(worlds, c, k) {
      StepKeepsPost(policy, worlds, steps, c, k);
    }
    PostStays(worlds, i + 1, j, c);
    PassStaysPut(policy, worlds, steps, i + 1, j, w);
    AnnouncementSays(policy, worlds, steps, j);
  }

  // ----- Intake reports ----------------------------------------------------------------------

  /** The event says of the command `k` that it is queued or rejected. */
  predicate SaysTaken(event: Event, k: Id) {
    || (event.body.QueuedReport? && event.body.ticket.command == k)
    || (event.body.RejectedReport? && event.body.ticket.command == k)
  }

  function IntakeReports(log: seq<Event>, k: Id): nat {
    if log == [] then 0
    else IntakeReports(log[..|log| - 1], k) + if SaysTaken(log[|log| - 1], k) then 1 else 0
  }

  lemma OneMoreReport(log: seq<Event>, event: Event, k: Id)
    ensures IntakeReports(log + [event], k) == IntakeReports(log, k) + if SaysTaken(event, k) then 1 else 0
  {
    assert (log + [event])[..|log|] == log;
  }

  /** Every command of the inbox got exactly one of the two reports, and no other command got any. */
  ghost predicate ReportedOnce(db: Db) {
    forall k: Id :: IntakeReports(db.outbox.log, k) == if k in db.intake.inbox then 1 else 0
  }

  lemma {:induction false} RemovalsReportNothing(
      log: seq<Event>, request: PrivacyDeletion.Request, order: seq<SourceId>, k: Id)
    ensures IntakeReports(log + DeletionProperties.RemovalFacts(request, order), k) == IntakeReports(log, k)
    decreases |order|
  {
    if order == [] {
      assert log + DeletionProperties.RemovalFacts(request, order) == log;
    } else {
      var front := order[..|order| - 1];
      RemovalsReportNothing(log, request, front, k);
      var before := log + DeletionProperties.RemovalFacts(request, front);
      var fact := PrivacyDeletion.RemovalFact(request, order[|order| - 1]);
      assert log + DeletionProperties.RemovalFacts(request, order) == before + [fact];
      OneMoreReport(before, fact, k);
    }
  }

  lemma DeliverReports(db: Db, command: Command, now: Time, after: Db)
    requires ReportedOnce(db) && Committed(db, IntakeOf(Deliver(command, now)), after)
    ensures ReportedOnce(after)
  {
    DeliverEffect(db, command, now, after);
    if command.id !in db.intake.inbox {
      var c :| TakenUp(db, command, now, c, after);
      forall k: Id ensures IntakeReports(after.outbox.log, k) == if k in after.intake.inbox then 1 else 0 {
        OneMoreReport(db.outbox.log, Event(QueuedReport(Ticket(command.operation, command.id)), c), k);
      }
    }
  }

  lemma RejectReports(db: Db, ticket: Ticket, after: Db)
    requires ReportedOnce(db) && Committed(db, IntakeOf(Reject(ticket)), after)
    ensures ReportedOnce(after)
  {
    RejectEffect(db, ticket, after);
    if ticket.command !in db.intake.inbox {
      forall k: Id ensures IntakeReports(after.outbox.log, k) == if k in after.intake.inbox then 1 else 0 {
        OneMoreReport(db.outbox.log, Event(RejectedReport(ticket), ticket.operation), k);
      }
    }
  }

  lemma SameInbox(db: Db, tx: Tx, after: Db)
    requires Committed(db, tx, after) && !tx.IntakeOf?
    ensures after.intake.inbox == db.intake.inbox
  {
    match tx
    case FactOf(fact) => FactSameInbox(db, fact, after);
    case Delete(request) => DeleteSameInbox(db, request, after);
    case StoreOf(store) => StoreSameIntake(db, store, after);
    case _ =>
  }

  lemma FactSameInbox(db: Db, tx: FactTx, after: Db)
    requires FactCommitted(db, tx, after)
    ensures after.intake.inbox == db.intake.inbox
  {
    match tx
    case Resolve(capture, blob, digest, now) =>
      var p, content, mid :| ObservationStored(db, capture, blob, p, content, mid) &&
        Published(mid, Origin(mid.intake.captures[capture].owner, p, Some(capture)), digest, now, after);
      PublishedKeepsIntake(mid, Origin(mid.intake.captures[capture].owner, p, Some(capture)), digest, now, after);
    case MarkUnavailable(capture, availability, digest, now) =>
      MarkLeaves(db, capture, availability, digest, now, after);
    case Publish(origin, digest, now) => PublishedKeepsIntake(db, origin, digest, now, after);
  }

  lemma DeleteSameInbox(db: Db, request: PrivacyDeletion.Request, after: Db)
    requires DeleteCommitted(db, request, after)
    ensures after.intake.inbox == db.intake.inbox
  {
    var result :| PrivacyDeletion.Applied(db, request, result, after);
    if result == Success(true) {
      var noted := db.(deletions := db.deletions[request.operation := (request.owner, request.target)]);
      var order :| PrivacyDeletion.IsDeletion(noted, request, order, after);
      DeletionProperties.TablesAfter(noted, request, order, after);
    }
  }

  lemma QuietReports(db: Db, tx: Tx, after: Db)
    requires ReportedOnce(db) && Committed(db, tx, after) && !tx.IntakeOf?
    ensures ReportedOnce(after)
  {
    SameInbox(db, tx, after);
    CommitAppends(db, tx, after);
    forall k: Id ensures IntakeReports(after.outbox.log, k) == IntakeReports(db.outbox.log, k) {
      if tx.Delete? {
        var order :| PrivacyDeletion.Enumerates(order, set s | s in order) &&
          after.outbox.log == db.outbox.log + DeletionProperties.RemovalFacts(tx.request, order);
        RemovalsReportNothing(db.outbox.log, tx.request, order, k);
      } else if after.outbox.log != db.outbox.log {
        var event :| MayAppend(tx, event) && after.outbox.log == db.outbox.log + [event];
        OneMoreReport(db.outbox.log, event, k);
      }
    }
  }

  lemma CommitReports(db: Db, tx: Tx, after: Db)
    requires ReportedOnce(db) && Committed(db, tx, after)
    ensures ReportedOnce(after)
  {
    if !tx.IntakeOf? {
      QuietReports(db, tx, after);
    } else {
      match tx.intake
      case Deliver(command, now) => DeliverReports(db, command, now, after);
      case Reject(ticket) => RejectReports(db, ticket, after);
      case Submit(owner, key, url) => SubmitEffect(db, owner, key, url, after);
    }
  }

  lemma StepReports(policy: Policy, worlds: seq<World>, steps: seq<Step>, k: nat)
    requires IsRun(policy, worlds, steps) && k < |steps| && ReportedOnce(worlds[k].db)
    ensures ReportedOnce(worlds[k + 1].db)
  {
    RunStep(policy, worlds, steps, k);
    StepCommitsOne(policy, worlds[k], steps[k], worlds[k + 1]);
    if worlds[k + 1].db != worlds[k].db {
      var tx :| StepOf(steps[k], tx) && Committed(worlds[k].db, tx, worlds[k + 1].db);
      CommitReports(worlds[k].db, tx, worlds[k + 1].db);
    }
  }

  /** In every run each command that came in was reported as queued or as rejected, exactly once. */
  lemma {:induction false} CommandsAreReportedOnce(policy: Policy, worlds: seq<World>, steps: seq<Step>, i: nat)
    requires IsRun(policy, worlds, steps) && i < |worlds|
    ensures ReportedOnce(worlds[i].db)
  {
    if i == 0 {
      assert worlds[0].db.outbox.log == [];
    } else {
      CommandsAreReportedOnce(policy, worlds, steps, i - 1);
      StepReports(policy, worlds, steps, i - 1);
    }
  }
}
