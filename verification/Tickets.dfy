/** Which commands are ever answered: where tickets come from, and that no accepted one is forgotten. */
module Tickets {
  import opened Wrappers
  import opened Archive
  import opened Transactions
  import opened Records
  import opened Workers
  import opened Journal
  import opened Runs
  import opened Scheduling
  import PrivacyDeletion
  import DeletionProperties

  // ----- What one transaction does to captures and inbox -------------------------------------

  /** No capture comes, and of a capture that stays only status and post may change. */
  ghost predicate Subrows(before: map<Id, Capture>, after: map<Id, Capture>) {
    forall c :: c in after ==> c in before && after[c] == before[c].(status := after[c].status, post := after[c].post)
  }

  lemma FactLeavesInbox(db: Db, tx: FactTx, after: Db)
    requires FactCommitted(db, tx, after)
    ensures after.intake.inbox == db.intake.inbox
  {
    match tx
    case Resolve(capture, blob, digest, now) =>
      var p, content, mid :| ObservationStored(db, capture, blob, p, content, mid) &&
        Published(mid, Origin(mid.intake.captures[capture].owner, p, Some(capture)), digest, now, after);
      PublishedKeepsIntake(mid, Origin(mid.intake.captures[capture].owner, p, Some(capture)), digest, now, after);
    case MarkUnavailable(capture, availability, digest, now) =>
      MarkLeaves(db, capture, availability, digest, now, after);
    case Publish(origin, digest, now) => PublishedKeepsIntake(db, origin, digest, now, after);
  }

  lemma DeleteSubrows(db: Db, request: PrivacyDeletion.Request, after: Db)
    requires DeleteCommitted(db, request, after)
    ensures Subrows(db.intake.captures, after.intake.captures) && after.intake.inbox == db.intake.inbox
  {
    var result :| PrivacyDeletion.Applied(db, request, result, after);
    if result == Success(true) {
      var noted := db.(deletions := db.deletions[request.operation := (request.owner, request.target)]);
      var order :| PrivacyDeletion.IsDeletion(noted, request, order, after);
      DeletionProperties.TablesAfter(noted, request, order, after);
    }
  }

  /** The transactions other than intake and scheduling. */
  lemma OtherSubrows(db: Db, tx: Tx, after: Db)
    requires Committed(db, tx, after) && !tx.IntakeOf? && !tx.ScheduleOf?
    ensures Subrows(db.intake.captures, after.intake.captures) && after.intake.inbox == db.intake.inbox
  {
    match tx
    case FactOf(fact) =>
      FactOutcomesOnly(db, fact, after);
      FactLeavesInbox(db, fact, after);
    case StoreOf(store) => StoreSameIntake(db, store, after);
    case Delete(request) => DeleteSubrows(db, request, after);
    case _ =>
  }

  /** `tx` takes up a command for the first time and under a key its owner has not used. */
  ghost predicate TakesUp(db: Db, tx: Tx, ticket: Ticket) {
    && tx.IntakeOf? && tx.intake.Deliver?
    && ticket == Ticket(tx.intake.command.operation, tx.intake.command.id)
    && tx.intake.command.id !in db.intake.inbox
    && !KnownKey(db.intake.captures, tx.intake.command.owner, tx.intake.command.key)
  }

  /** The inbox only grows; a capture got its ticket before or gets it now; and an unanswered ticket stays scheduled. */
  ghost predicate TicketsKept(db: Db, tx: Tx, after: Db) {
    && db.intake.inbox <= after.intake.inbox
    && (forall ticket :: TakesUp(db, tx, ticket) ==> ticket.command in after.intake.inbox)
    && (forall c :: c in after.intake.captures && after.intake.captures[c].ticket.Some? ==>
          || (c in db.intake.captures && db.intake.captures[c].ticket == after.intake.captures[c].ticket)
          || TakesUp(db, tx, after.intake.captures[c].ticket.value))
  }

  lemma IntakeTickets(db: Db, tx: IntakeTx, after: Db)
    requires IntakeCommitted(db, tx, after)
    ensures TicketsKept(db, IntakeOf(tx), after)
  {
  }

  lemma ScheduleTickets(db: Db, tx: ScheduleTx, after: Db)
    requires ScheduleCommitted(db, tx, after)
    ensures TicketsKept(db, ScheduleOf(tx), after)
  {
  }

  lemma CommitTickets(db: Db, tx: Tx, after: Db)
    requires Committed(db, tx, after)
    ensures TicketsKept(db, tx, after)
  {
    match tx
    case IntakeOf(intake) => IntakeTickets(db, intake, after);
    case ScheduleOf(schedule) => ScheduleTickets(db, schedule, after);
    case _ => OtherSubrows(db, tx, after);
  }

  /** Every unanswered capture of an operation has a time for its next attempt. */
  ghost predicate AllScheduled(captures: map<Id, Capture>) {
    forall c :: c in captures && captures[c].ticket.Some? && !captures[c].reported ==> captures[c].nextAt.Some?
  }

  lemma CommitKeepsScheduled(db: Db, tx: Tx, after: Db)
    requires Committed(db, tx, after) && AllScheduled(db.intake.captures)
    ensures AllScheduled(after.intake.captures)
  {
    match tx
    case IntakeOf(intake) => IntakeKeepsScheduled(db, intake, after);
    case ScheduleOf(schedule) => ScheduleKeepsScheduled(db, schedule, after);
    case _ => OtherSubrows(db, tx, after);
  }

  lemma IntakeKeepsScheduled(db: Db, tx: IntakeTx, after: Db)
    requires IntakeCommitted(db, tx, after) && AllScheduled(db.intake.captures)
    ensures AllScheduled(after.intake.captures)
  {
  }

  lemma ScheduleKeepsScheduled(db: Db, tx: ScheduleTx, after: Db)
    requires ScheduleCommitted(db, tx, after) && AllScheduled(db.intake.captures)
    ensures AllScheduled(after.intake.captures)
  {
  }

  // ----- What one step does ------------------------------------------------------------------

  lemma OwnStepCommits(policy: Policy, world: World, step: Step, next: World)
    requires StepTo(policy, world, step, next) && !step.Other?
    ensures next.db == world.db || exists tx :: Committed(world.db, tx, next.db) && !tx.IntakeOf?
  {
    match step
    case Claim(w, now, locked) =>
      var order, queue :| Claimed(policy, world, w, now, locked, order, queue, next);
    case _ =>
  }

  ghost predicate StepTakesUp(world: World, step: Step, ticket: Ticket) {
    step.Other? && TakesUp(world.db, step.tx, ticket)
  }

  ghost predicate StepTickets(world: World, step: Step, next: World) {
    && world.db.intake.inbox <= next.db.intake.inbox
    && (forall ticket :: StepTakesUp(world, step, ticket) ==> ticket.command in next.db.intake.inbox)
    && (forall c :: c in next.db.intake.captures && next.db.intake.captures[c].ticket.Some? ==>
          || (c in world.db.intake.captures && world.db.intake.captures[c].ticket == next.db.intake.captures[c].ticket)
          || StepTakesUp(world, step, next.db.intake.captures[c].ticket.value))
  }

  lemma StepKeepsTickets(policy: Policy, world: World, step: Step, next: World)
    requires StepTo(policy, world, step, next)
    ensures StepTickets(world, step, next)
    ensures AllScheduled(world.db.intake.captures) ==> AllScheduled(next.db.intake.captures)
  {
    if step.Other? {
      CommitTickets(world.db, step.tx, next.db);
      if AllScheduled(world.db.intake.captures) {
        CommitKeepsScheduled(world.db, step.tx, next.db);
      }
    } else {
      OwnStepCommits(policy, world, step, next);
      if next.db != world.db {
        var tx :| Committed(world.db, tx, next.db) && !tx.IntakeOf?;
        CommitTickets(world.db, tx, next.db);
        if AllScheduled(world.db.intake.captures) {
          CommitKeepsScheduled(world.db, tx, next.db);
        }
      }
    }
  }

  // ----- Which reports a step appends --------------------------------------------------------

  /** A terminal report that is new in `after` carries the ticket of a stored capture. */
  ghost predicate ReportsTicketed(captures: map<Id, Capture>, before: seq<Event>, after: seq<Event>) {
    && before <= after
    && forall n :: |before| <= n < |after| && after[n].body.TerminalReport? ==>
      Carries(captures, after[n].body.answered)
  }

  ghost predicate Carries(captures: map<Id, Capture>, ticket: Ticket) {
    exists c :: c in captures && captures[c].ticket == Some(ticket)
  }

  lemma {:induction false} RemovalsAreNoReports(request: PrivacyDeletion.Request, order: seq<SourceId>)
    ensures forall n :: 0 <= n < |DeletionProperties.RemovalFacts(request, order)| ==>
              DeletionProperties.RemovalFacts(request, order)[n].body.SourceRemoved?
    decreases |order|
  {
    if order == [] {
    } else {
      RemovalsAreNoReports(request, order[..|order| - 1]);
    }
  }

  lemma UnreportedAppend(tx: Tx, captures: map<Id, Capture>, before: seq<Event>, after: seq<Event>)
    requires Appended(tx, before, after) && !(tx.ScheduleOf? && tx.schedule.Report?)
    ensures ReportsTicketed(captures, before, after)
  {
    if tx.Delete? {
      var order :| PrivacyDeletion.Enumerates(order, set s | s in order) &&
        after == before + DeletionProperties.RemovalFacts(tx.request, order);
      RemovalsAreNoReports(tx.request, order);
      forall n | |before| <= n < |after| ensures after[n].body.SourceRemoved? {
        assert after[n] == DeletionProperties.RemovalFacts(tx.request, order)[n - |before|];
      }
    }
  }

  lemma AnnouncedTicket(policy: Policy, world: World, w: Id, next: World)
    requires Tally(policy, world) && StepTo(policy, world, Announce(w), next)
    ensures ReportsTicketed(world.db.intake.captures, world.db.outbox.log, next.db.outbox.log)
  {
    var due, terminal := world.workers[w].queue[0], world.workers[w].phase.terminal;
    assert Remembers(policy, world.db.intake, world.db.minted, due);
    if next.db != world.db {
      var outcome :| ReportStored(world.db, due.capture, due.owner, due.ticket, terminal, outcome, next.db);
      assert next.db.outbox.log == world.db.outbox.log + [Event(TerminalReport(due.ticket, outcome), due.capture)];
      assert Carries(world.db.intake.captures, due.ticket);
    }
  }

  lemma StepReportsTicketed(policy: Policy, world: World, step: Step, next: World)
    requires Tally(policy, world) && StepTo(policy, world, step, next)
    ensures ReportsTicketed(world.db.intake.captures, world.db.outbox.log, next.db.outbox.log)
  {
    var captures, log := world.db.intake.captures, world.db.outbox.log;
    match step
    case Announce(w) => AnnouncedTicket(policy, world, w, next);
    case Answered(w, answer, at) =>
      var tx := AnswerTx(world.workers[w].queue[0].capture, answer, at).0;
      CommitAppends(world.db, tx, next.db);
      UnreportedAppend(tx, captures, log, next.db.outbox.log);
    case Other(tx) =>
      CommitAppends(world.db, tx, next.db);
      UnreportedAppend(tx, captures, log, next.db.outbox.log);
    case _ => SameLog(policy, world, step, next);
  }

  lemma SameLog(policy: Policy, world: World, step: Step, next: World)
    requires StepTo(policy, world, step, next) && (step.Claim? || step.Examine? || step.Count? || step.Stop?)
    ensures next.db.outbox.log == world.db.outbox.log
  {
    match step
    case Claim(w, now, locked) =>
      var order, queue :| Claimed(policy, world, w, now, locked, order, queue, next);
    case _ =>
  }

  // ----- Whole runs --------------------------------------------------------------------------

  /** What step `k` does to tickets and reports. */
  ghost predicate TicketsAt(worlds: seq<World>, steps: seq<Step>, k: nat)
    requires |worlds| == |steps| + 1 && k < |steps|
  {
    && StepTickets(worlds[k], steps[k], worlds[k + 1])
    && ReportsTicketed(worlds[k].db.intake.captures, worlds[k].db.outbox.log, worlds[k + 1].db.outbox.log)
    && (AllScheduled(worlds[k].db.intake.captures) ==> AllScheduled(worlds[k + 1].db.intake.captures))
  }

  /** The history of tickets of a run, with nothing taken up before it. */
  ghost predicate TicketRun(worlds: seq<World>, steps: seq<Step>) {
    && |worlds| == |steps| + 1
    && worlds[0].db.intake.captures == map[] && worlds[0].db.outbox.log == []
    && forall k: nat :: k < |steps| ==> TicketsAt(worlds, steps, k)
  }

  lemma RunTickets(policy: Policy, worlds: seq<World>, steps: seq<Step>)
    requires IsRun(policy, worlds, steps)
    ensures TicketRun(worlds, steps)
  {
    forall k: nat | k < |steps| ensures TicketsAt(worlds, steps, k) {
      RunStep(policy, worlds, steps, k);
      StepKeepsTickets(policy, worlds[k], steps[k], worlds[k + 1]);
      StepReportsTicketed(policy, worlds[k], steps[k], worlds[k + 1]);
    }
  }

  /** Step `k` takes up the command of `ticket`: for the first time, and under a key that is new to its owner. */
  ghost predicate TakenUpAt(worlds: seq<World>, steps: seq<Step>, k: nat, ticket: Ticket)
    requires |worlds| == |steps| + 1 && k < |steps|
  {
    StepTakesUp(worlds[k], steps[k], ticket)
  }

  ghost predicate TakenUpBefore(worlds: seq<World>, steps: seq<Step>, i: nat, ticket: Ticket)
    requires |worlds| == |steps| + 1 && i < |worlds|
  {
    exists k: nat :: k < i && TakenUpAt(worlds, steps, k, ticket)
  }

  lemma {:induction false} TicketCameFrom(worlds: seq<World>, steps: seq<Step>, i: nat, c: Id)
    requires TicketRun(worlds, steps) && i < |worlds|
    requires c in worlds[i].db.intake.captures && worlds[i].db.intake.captures[c].ticket.Some?
    ensures TakenUpBefore(worlds, steps, i, worlds[i].db.intake.captures[c].ticket.value)
  {
    var ticket := worlds[i].db.intake.captures[c].ticket.value;
    assert i > 0 && TicketsAt(worlds, steps, i - 1);
    if StepTakesUp(worlds[i - 1], steps[i - 1], ticket) {
      assert TakenUpAt(worlds, steps, i - 1, ticket);
    } else {
      TicketCameFrom(worlds, steps, i - 1, c);
      var k: nat :| k < i - 1 && TakenUpAt(worlds, steps, k, ticket);
      assert k < i;
    }
  }

  lemma {:induction false} ReportCameFrom(worlds: seq<World>, steps: seq<Step>, i: nat, n: nat)
    requires TicketRun(worlds, steps) && i < |worlds|
    requires n < |worlds[i].db.outbox.log| && worlds[i].db.outbox.log[n].body.TerminalReport?
    ensures TakenUpBefore(worlds, steps, i, worlds[i].db.outbox.log[n].body.answered)
  {
    assert i > 0 && TicketsAt(worlds, steps, i - 1);
    var before, ticket := worlds[i - 1].db, worlds[i].db.outbox.log[n].body.answered;
    if n < |before.outbox.log| {
      ReportCameFrom(worlds, steps, i - 1, n);
    } else {
      var c :| c in before.intake.captures && before.intake.captures[c].ticket == Some(ticket);
      TicketCameFrom(worlds, steps, i - 1, c);
    }
    var k: nat :| k < i - 1 && TakenUpAt(worlds, steps, k, ticket);
    assert k < i;
  }

  lemma {:induction false} InboxKeeps(worlds: seq<World>, steps: seq<Step>, i: nat, j: nat)
    requires TicketRun(worlds, steps) && i <= j < |worlds|
    ensures worlds[i].db.intake.inbox <= worlds[j].db.intake.inbox
    decreases j
  {
    if i == j {
    } else {
      InboxKeeps(worlds, steps, i, j - 1);
      assert TicketsAt(worlds, steps, j - 1);
    }
  }

  /**
   In every run a terminal report answers a command only if that command was taken up before, under a
   key that was new to its owner at that moment.
   */
  lemma AnsweredWasTakenUp(policy: Policy, worlds: seq<World>, steps: seq<Step>, i: nat, n: nat)
    requires IsRun(policy, worlds, steps) && i < |worlds|
    requires n < |worlds[i].db.outbox.log| && worlds[i].db.outbox.log[n].body.TerminalReport?
    ensures TakenUpBefore(worlds, steps, i, worlds[i].db.outbox.log[n].body.answered)
  {
    RunTickets(policy, worlds, steps);
    ReportCameFrom(worlds, steps, i, n);
  }

  /**
   A command that came under a known key keeps the first operation on the capture, and no terminal
   report of any state of the run answers it.
   */
  lemma KnownKeyIsNeverAnswered(policy: Policy, worlds: seq<World>, steps: seq<Step>, j: nat, i: nat, n: nat)
    requires IsRun(policy, worlds, steps) && i < |worlds| && j < |steps|
    requires n < |worlds[i].db.outbox.log| && worlds[i].db.outbox.log[n].body.TerminalReport?
    requires steps[j].Other? && steps[j].tx.IntakeOf? && steps[j].tx.intake.Deliver?
    requires var command := steps[j].tx.intake.command;
             command.id !in worlds[j].db.intake.inbox &&
               KnownKey(worlds[j].db.intake.captures, command.owner, command.key)
    ensures worlds[i].db.outbox.log[n].body.answered.command != steps[j].tx.intake.command.id
  {
    RunTickets(policy, worlds, steps);
    ReportCameFrom(worlds, steps, i, n);
    var ticket := worlds[i].db.outbox.log[n].body.answered;
    var k: nat :| k < i && TakenUpAt(worlds, steps, k, ticket);
    if ticket.command == steps[j].tx.intake.command.id {
      TakenUpOnce(worlds, steps, j, k, ticket.command);
    }
  }

  /** A command is marked by its first delivery, whatever its key. */
  lemma TakenUpOnce(worlds: seq<World>, steps: seq<Step>, j: nat, k: nat, id: Id)
    requires TicketRun(worlds, steps) && j < |steps| && k < |steps|
    requires id !in worlds[j].db.intake.inbox && id !in worlds[k].db.intake.inbox
    requires id in worlds[j + 1].db.intake.inbox && id in worlds[k + 1].db.intake.inbox
    ensures j == k
  {
    if j < k {
      InboxKeeps(worlds, steps, j + 1, k);
    } else if k < j {
      InboxKeeps(worlds, steps, k + 1, j);
    }
  }

  lemma {:induction false} AlwaysScheduled(worlds: seq<World>, steps: seq<Step>, i: nat)
    requires TicketRun(worlds, steps) && i < |worlds|
    ensures AllScheduled(worlds[i].db.intake.captures)
  {
    if i == 0 {
    } else {
      AlwaysScheduled(worlds, steps, i - 1);
      assert TicketsAt(worlds, steps, i - 1);
    }
  }

  /** The capture a command is taken up with: fresh, with its ticket, and due at once. */
  lemma TakenUpIsDue(db: Db, tx: Tx, ticket: Ticket, after: Db)
    requires TakesUp(db, tx, ticket) && Committed(db, tx, after)
    ensures IsDue(after.intake.captures, tx.intake.now, db.minted)
    ensures after.intake.captures[db.minted].ticket == Some(ticket) && db.minted < after.minted
  {
  }

  /**
   A command that was taken up is never forgotten: in every later state of the run its capture was
   deleted, was answered, or waits for its next attempt under the same ticket.
   */
  lemma TakenUpIsNeverForgotten(policy: Policy, worlds: seq<World>, steps: seq<Step>, k: nat, i: nat, ticket: Ticket)
    requires IsRun(policy, worlds, steps) && k < i < |worlds| && TakenUpAt(worlds, steps, k, ticket)
    ensures var c, captures := worlds[k].db.minted, worlds[i].db.intake.captures;
            c in captures ==> captures[c].ticket == Some(ticket) && (captures[c].reported || Waiting(captures, c))
  {
    RunStep(policy, worlds, steps, k);
    TakenUpIsDue(worlds[k].db, steps[k].tx, ticket, worlds[k + 1].db);
    RunAlwaysGoesOn(policy, worlds, steps);
    RunGoesOn(worlds, k + 1, i);
    RunTickets(policy, worlds, steps);
    AlwaysScheduled(worlds, steps, i);
    var c := worlds[k].db.minted;
    if c in worlds[i].db.intake.captures {
      assert Carried(worlds[k + 1].db.intake, worlds[i].db.intake, c);
    }
  }

  /** A capture that was stored without an operation never gets one, so no pass of any later state claims it. */
  lemma SubmittedIsNeverClaimed(policy: Policy, worlds: seq<World>, steps: seq<Step>, i: nat, j: nat, c: Id, now: Time,
                                locked: set<Id>, order: seq<Id>)
    requires IsRun(policy, worlds, steps) && i <= j < |worlds|
    requires c in worlds[i].db.intake.captures && worlds[i].db.intake.captures[c].ticket.None?
    requires IsClaim(worlds[j].db.intake.captures, now, policy.batchSize, locked, order)
    ensures c !in order
  {
    RunHolds(policy, worlds, steps, i);
    RunAlwaysGoesOn(policy, worlds, steps);
    RunGoesOn(worlds, i, j);
    if c in worlds[j].db.intake.captures {
      assert Carried(worlds[i].db.intake, worlds[j].db.intake, c);
    }
  }
}
