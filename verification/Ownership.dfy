/** Who deletes, what is removed for good and how long a link lasts: over whole runs, on the tables alone. */
module Ownership {
  import opened Wrappers
  import opened Archive
  import opened Transactions
  import opened Invariants
  import opened Workers
  import opened Runs
  import opened Effects
  import opened Journal
  import PrivacyDeletion
  import DeletionProperties
  import Schedule

  /** The transaction of a step: the given one, or one of the resolver, which only schedules and tells facts. */
  predicate StepOf(step: Step, tx: Tx) {
    if step.Other? then tx == step.tx else tx.ScheduleOf? || tx.FactOf?
  }

  ghost predicate CommitsOne(db: Db, step: Step, after: Db) {
    after == db || exists tx :: StepOf(step, tx) && Committed(db, tx, after)
  }

  lemma StepCommitsOne(policy: Policy, world: World, step: Step, next: World)
    requires StepTo(policy, world, step, next)
    ensures CommitsOne(world.db, step, next.db)
    ensures step.Other? ==> Committed(world.db, step.tx, next.db)
  {
    match step
    case Claim(w, now, locked) =>
      var order, queue :| Claimed(policy, world, w, now, locked, order, queue, next);
      assert StepOf(step, ScheduleOf(Lease(Batch(order), now + CLAIM_LEASE_SECONDS)));
    case Answered(w, answer, at) =>
      var tx := AnswerTx(world.workers[w].queue[0].capture, answer, at).0;
      assert StepOf(step, tx);
    case Count(w) =>
      var due := world.workers[w].queue[0];
      var attempts := NextAttempts(due.attempts);
      var tx := ScheduleOf(CountAttempt(due.capture, attempts, world.workers[w].now + Schedule.RetryDelay(attempts)));
      assert StepOf(step, tx);
    case Announce(w) =>
      var due := world.workers[w].queue[0];
      assert StepOf(step, ScheduleOf(Report(due.capture, due.owner, due.ticket, world.workers[w].phase.terminal)));
    case Other(tx) => assert StepOf(step, tx);
    case _ =>
  }

  // ----- Deletions ---------------------------------------------------------------------------

  /** What everything but a deletion keeps. */
  ghost predicate NobodyLeaves(db: Db, after: Db) {
    && db.intake.captures.Keys <= after.intake.captures.Keys && db.accounts.Keys <= after.accounts.Keys
    && after.deletions == db.deletions
  }

  lemma FactKeepsAll(db: Db, tx: FactTx, after: Db)
    requires FactCommitted(db, tx, after)
    ensures NobodyLeaves(db, after)
  {
    match tx
    case Resolve(capture, blob, digest, now) =>
      var p, content, mid :| ObservationStored(db, capture, blob, p, content, mid) &&
        Published(mid, Origin(mid.intake.captures[capture].owner, p, Some(capture)), digest, now, after);
      PublishedSpelled(mid, Origin(mid.intake.captures[capture].owner, p, Some(capture)), digest, now, after);
    case MarkUnavailable(capture, availability, digest, now) =>
      var row := db.intake.captures[capture];
      if row.post.Some? {
        PublishedSpelled(MarkedOnly(db, capture, availability, now), Origin(row.owner, row.post.value, Some(capture)),
                         digest, now, after);
      }
    case Publish(origin, digest, now) => PublishedSpelled(db, origin, digest, now, after);
  }

  lemma ScheduleKeepsAll(db: Db, tx: ScheduleTx, after: Db)
    requires ScheduleCommitted(db, tx, after)
    ensures NobodyLeaves(db, after)
  {
  }

  lemma StoreKeepsAll(db: Db, tx: StoreTx, after: Db)
    requires StoreCommitted(db, tx, after)
    ensures NobodyLeaves(db, after)
  {
  }

  lemma CommitKeepsAll(db: Db, tx: Tx, after: Db)
    requires Committed(db, tx, after) && !tx.Delete?
    ensures NobodyLeaves(db, after)
  {
    match tx
    case FactOf(fact) => FactKeepsAll(db, fact, after);
    case ScheduleOf(schedule) => ScheduleKeepsAll(db, schedule, after);
    case StoreOf(store) => StoreKeepsAll(db, store, after);
    case _ =>
  }

  /** A deletion takes its own target, exactly when it is new and the stored owner asks, and nobody else's row. */
  lemma DeleteTakesItsTarget(db: Db, request: PrivacyDeletion.Request, after: Db)
    requires DeleteCommitted(db, request, after)
    ensures var applies := request.operation !in db.deletions && OwnsTarget(db, request);
            && (forall c :: c in db.intake.captures ==>
                  (c !in after.intake.captures <==> applies && request.target == CaptureTarget(c)))
            && (forall a :: a in db.accounts ==>
                  (a !in after.accounts <==> applies && request.target == ConnectionTarget(a)))
            && after.deletions == if applies then db.deletions[request.operation := (request.owner, request.target)]
                                  else db.deletions
  {
    var result :| PrivacyDeletion.Applied(db, request, result, after);
    DeleteAnswers(db, request, result, after);
    if result == Success(true) {
      var noted := db.(deletions := db.deletions[request.operation := (request.owner, request.target)]);
      var order :| PrivacyDeletion.IsDeletion(noted, request, order, after);
      DeletionTakesItsTarget(noted, request, order, after);
    }
  }

  lemma DeletionTakesItsTarget(db: Db, request: PrivacyDeletion.Request, order: seq<SourceId>, after: Db)
    requires PrivacyDeletion.IsDeletion(db, request, order, after)
    ensures after.intake.captures ==
            if request.target.CaptureTarget? then db.intake.captures - {request.target.id} else db.intake.captures
    ensures after.accounts ==
            if request.target.ConnectionTarget? then db.accounts - {request.target.id} else db.accounts
  {
    DeletionProperties.TablesAfter(db, request, order, after);
  }

  /** The step is a new deletion of `target` that `owner` asked for. */
  ghost predicate DeletedBy(db: Db, step: Step, target: Target, owner: Id) {
    && step.Other? && step.tx.Delete? && step.tx.request.target == target && step.tx.request.owner == owner
    && step.tx.request.operation !in db.deletions
  }

  /** In every run a capture or an account leaves exactly in a new deletion of it that its stored owner asked for. */
  lemma OnlyItsOwnerDeletes(policy: Policy, worlds: seq<World>, steps: seq<Step>, i: nat, id: Id)
    requires IsRun(policy, worlds, steps) && i < |steps|
    ensures var db, after := worlds[i].db, worlds[i + 1].db;
            && (id in db.intake.captures ==>
                  (id !in after.intake.captures <==>
                     DeletedBy(db, steps[i], CaptureTarget(id), db.intake.captures[id].owner)))
            && (id in db.accounts ==>
                  (id !in after.accounts <==> DeletedBy(db, steps[i], ConnectionTarget(id), db.accounts[id])))
  {
    var db, after := worlds[i].db, worlds[i + 1].db;
    RunStep(policy, worlds, steps, i);
    StepCommitsOne(policy, worlds[i], steps[i], worlds[i + 1]);
    if steps[i].Other? && steps[i].tx.Delete? {
      DeleteTakesItsTarget(db, steps[i].tx.request, after);
    } else if after != db {
      var tx :| StepOf(steps[i], tx) && Committed(db, tx, after);
      CommitKeepsAll(db, tx, after);
    }
  }

  // ----- Replays -----------------------------------------------------------------------------

  ghost predicate DeletionsKept(worlds: seq<World>, k: nat)
    requires k + 1 < |worlds|
  {
    forall op :: op in worlds[k].db.deletions ==>
      op in worlds[k + 1].db.deletions && worlds[k + 1].db.deletions[op] == worlds[k].db.deletions[op]
  }

  lemma StepKeepsDeletions(policy: Policy, worlds: seq<World>, steps: seq<Step>, k: nat)
    requires IsRun(policy, worlds, steps) && k < |steps|
    ensures DeletionsKept(worlds, k)
  {
    var db, after := worlds[k].db, worlds[k + 1].db;
    RunStep(policy, worlds, steps, k);
    StepCommitsOne(policy, worlds[k], steps[k], worlds[k + 1]);
    if steps[k].Other? && steps[k].tx.Delete? {
      DeleteTakesItsTarget(db, steps[k].tx.request, after);
    } else if after != db {
      var tx :| StepOf(steps[k], tx) && Committed(db, tx, after);
      CommitKeepsAll(db, tx, after);
    }
  }

  lemma {:induction false} DeletionsStay(worlds: seq<World>, i: nat, j: nat, op: Id)
    requires i <= j < |worlds| && op in worlds[i].db.deletions
    requires forall k: nat :: k + 1 < |worlds| ==> DeletionsKept(worlds, k)
    ensures op in worlds[j].db.deletions && worlds[j].db.deletions[op] == worlds[i].db.deletions[op]
    decreases j
  {
    if i == j {
    } else {
      DeletionsStay(worlds, i, j - 1, op);
      assert DeletionsKept(worlds, j - 1);
    }
  }

  /** An operation is applied once: whatever comes under its identifier later changes nothing. */
  lemma AppliedOnce(policy: Policy, worlds: seq<World>, steps: seq<Step>, i: nat, j: nat)
    requires IsRun(policy, worlds, steps) && i < j < |steps|
    requires steps[i].Other? && steps[i].tx.Delete? && OwnsTarget(worlds[i].db, steps[i].tx.request)
    requires steps[j].Other? && steps[j].tx.Delete?
    requires steps[j].tx.request.operation == steps[i].tx.request.operation
    ensures worlds[j + 1].db == worlds[j].db
  {
    var request := steps[i].tx.request;
    RunStep(policy, worlds, steps, i);
    StepCommitsOne(policy, worlds[i], steps[i], worlds[i + 1]);
    DeleteTakesItsTarget(worlds[i].db, request, worlds[i + 1].db);
    forall k: nat | k + 1 < |worlds| ensures DeletionsKept(worlds, k) {
      StepKeepsDeletions(policy, worlds, steps, k);
    }
    DeletionsStay(worlds, i + 1, j, request.operation);
    RunStep(policy, worlds, steps, j);
    StepCommitsOne(policy, worlds[j], steps[j], worlds[j + 1]);
    var result :| PrivacyDeletion.Applied(worlds[j].db, steps[j].tx.request, result, worlds[j + 1].db);
    DeleteAnswers(worlds[j].db, steps[j].tx.request, result, worlds[j + 1].db);
  }

  // ----- Removal guards ----------------------------------------------------------------------

  predicate RemovesFor(event: Event, owner: Id, s: SourceId) {
    event.body.SourceRemoved? && event.body.owner == owner && event.body.source == s
  }

  /** Some event of the log removed the source `s` for `owner`. */
  ghost predicate RemovalTold(log: seq<Event>, owner: Id, s: SourceId) {
    exists n :: 0 <= n < |log| && RemovesFor(log[n], owner, s)
  }

  /** A source is guarded for an owner exactly when an event told its removal. */
  ghost predicate GuardsTold(db: Db) {
    forall owner: Id, s :: (owner, s) in db.library.removed <==> RemovalTold(db.outbox.log, owner, s)
  }

  lemma OneMoreTold(log: seq<Event>, event: Event, owner: Id, s: SourceId)
    ensures RemovalTold(log + [event], owner, s) <==> RemovalTold(log, owner, s) || RemovesFor(event, owner, s)
  {
    var after := log + [event];
    assert after[|log|] == event;
    if RemovalTold(log, owner, s) {
      var n :| 0 <= n < |log| && RemovesFor(log[n], owner, s);
      assert after[n] == log[n];
    }
    if RemovalTold(after, owner, s) {
      var n :| 0 <= n < |after| && RemovesFor(after[n], owner, s);
      assert n < |log| ==> after[n] == log[n];
    }
  }

  lemma {:induction false} RemovalsTold(
      log: seq<Event>, request: PrivacyDeletion.Request, order: seq<SourceId>, owner: Id, s: SourceId)
    ensures RemovalTold(log + DeletionProperties.RemovalFacts(request, order), owner, s) <==>
            RemovalTold(log, owner, s) || (owner == request.owner && s in order)
    decreases |order|
  {
    if order == [] {
      assert log + DeletionProperties.RemovalFacts(request, order) == log;
    } else {
      var front, last := order[..|order| - 1], order[|order| - 1];
      RemovalsTold(log, request, front, owner, s);
      var before := log + DeletionProperties.RemovalFacts(request, front);
      var fact := PrivacyDeletion.RemovalFact(request, last);
      assert log + DeletionProperties.RemovalFacts(request, order) == before + [fact];
      OneMoreTold(before, fact, owner, s);
      assert s in order <==> s in front || s == last;
    }
  }

  lemma DeletionKeepsGuards(db: Db, request: PrivacyDeletion.Request, order: seq<SourceId>, after: Db)
    requires GuardsTold(db) && PrivacyDeletion.IsDeletion(db, request, order, after)
    ensures GuardsTold(after)
  {
    DeletionAppends(db, request, order, after);
    DeletionProperties.TablesAfter(db, request, order, after);
    forall owner: Id, s ensures (owner, s) in after.library.removed <==> RemovalTold(after.outbox.log, owner, s) {
      RemovalsTold(db.outbox.log, request, order, owner, s);
      assert (owner, s) in db.library.removed <==> RemovalTold(db.outbox.log, owner, s);
    }
  }

  lemma DeleteKeepsGuards(db: Db, request: PrivacyDeletion.Request, after: Db)
    requires GuardsTold(db) && DeleteCommitted(db, request, after)
    ensures GuardsTold(after)
  {
    var result :| PrivacyDeletion.Applied(db, request, result, after);
    if result == Success(true) {
      var noted := db.(deletions := db.deletions[request.operation := (request.owner, request.target)]);
      var order :| PrivacyDeletion.IsDeletion(noted, request, order, after);
      DeletionKeepsGuards(noted, request, order, after);
    }
  }

  lemma FactKeepsLinks(db: Db, tx: FactTx, after: Db)
    requires FactCommitted(db, tx, after)
    ensures after.library.links == db.library.links && after.library.removed == db.library.removed
  {
    match tx
    case Resolve(capture, blob, digest, now) =>
      var p, content, mid :| ObservationStored(db, capture, blob, p, content, mid) &&
        Published(mid, Origin(mid.intake.captures[capture].owner, p, Some(capture)), digest, now, after);
      PublishKeepsLinks(mid, Origin(mid.intake.captures[capture].owner, p, Some(capture)), digest, now, after);
    case MarkUnavailable(capture, availability, digest, now) =>
      var row := db.intake.captures[capture];
      if row.post.Some? {
        PublishKeepsLinks(MarkedOnly(db, capture, availability, now), Origin(row.owner, row.post.value, Some(capture)),
                          digest, now, after);
      }
    case Publish(origin, digest, now) => PublishKeepsLinks(db, origin, digest, now, after);
  }

  lemma CommitKeepsRemoved(db: Db, tx: Tx, after: Db)
    requires Committed(db, tx, after) && !tx.Delete?
    ensures after.library.removed == db.library.removed
  {
    match tx
    case FactOf(fact) => FactKeepsLinks(db, fact, after);
    case Complete(event, owner, s, digest) => CompleteEffect(db, event, owner, s, digest, after);
    case _ => SameLibrary(db, tx, after);
  }

  lemma CommitKeepsGuards(db: Db, tx: Tx, after: Db)
    requires GuardsTold(db) && Committed(db, tx, after)
    ensures GuardsTold(after)
  {
    if tx.Delete? {
      DeleteKeepsGuards(db, tx.request, after);
    } else {
      CommitKeepsRemoved(db, tx, after);
      CommitAppends(db, tx, after);
      if after.outbox.log != db.outbox.log {
        var event :| MayAppend(tx, event) && after.outbox.log == db.outbox.log + [event];
        forall owner: Id, s ensures (owner, s) in after.library.removed <==> RemovalTold(after.outbox.log, owner, s) {
          OneMoreTold(db.outbox.log, event, owner, s);
          assert (owner, s) in db.library.removed <==> RemovalTold(db.outbox.log, owner, s);
        }
      }
    }
  }

  lemma {:induction false} GuardsAlwaysTold(policy: Policy, worlds: seq<World>, steps: seq<Step>, i: nat)
    requires IsRun(policy, worlds, steps) && i < |worlds|
    ensures GuardsTold(worlds[i].db)
  {
    if i == 0 {
      assert worlds[0].db.outbox.log == [];
    } else {
      GuardsAlwaysTold(policy, worlds, steps, i - 1);
      StepKeepsGuards(policy, worlds, steps, i - 1);
    }
  }

  lemma StepKeepsGuards(policy: Policy, worlds: seq<World>, steps: seq<Step>, k: nat)
    requires IsRun(policy, worlds, steps) && k < |steps| && GuardsTold(worlds[k].db)
    ensures GuardsTold(worlds[k + 1].db)
  {
    RunStep(policy, worlds, steps, k);
    StepCommitsOne(policy, worlds[k], steps[k], worlds[k + 1]);
    if worlds[k + 1].db != worlds[k].db {
      var tx :| StepOf(steps[k], tx) && Committed(worlds[k].db, tx, worlds[k + 1].db);
      CommitKeepsGuards(worlds[k].db, tx, worlds[k + 1].db);
    }
  }

  /** In every run an analysis is linked only to a source of whose removal for that owner no event ever told. */
  lemma ToldRemovalIsNeverLinked(policy: Policy, worlds: seq<World>, steps: seq<Step>, i: nat, event: Id)
    requires IsRun(policy, worlds, steps) && i < |worlds| && event in worlds[i].db.library.links
    ensures var link := worlds[i].db.library.links[event];
            !RemovalTold(worlds[i].db.outbox.log, link.owner, link.source)
  {
    RunHolds(policy, worlds, steps, i);
    GuardsAlwaysTold(policy, worlds, steps, i);
    assert Links(worlds[i].db.library);
  }

  // ----- Links -------------------------------------------------------------------------------

  lemma DeleteKeepsLink(db: Db, request: PrivacyDeletion.Request, after: Db, event: Id)
    requires DeleteCommitted(db, request, after) && event in db.library.links
    requires db.library.links[event].source in db.library.sources
    requires db.library.links[event].source in after.library.sources
    ensures event in after.library.links && after.library.links[event] == db.library.links[event]
  {
    var result :| PrivacyDeletion.Applied(db, request, result, after);
    if result == Success(true) {
      var noted := db.(deletions := db.deletions[request.operation := (request.owner, request.target)]);
      var order :| PrivacyDeletion.IsDeletion(noted, request, order, after);
      DeletionProperties.KeptSourceStaysWhole(noted, request, order, after, db.library.links[event].source);
    }
  }

  lemma CommitKeepsLink(db: Db, tx: Tx, after: Db, event: Id)
    requires Links(db.library) && Committed(db, tx, after) && event in db.library.links
    requires db.library.links[event].source in after.library.sources
    ensures event in after.library.links && after.library.links[event] == db.library.links[event]
  {
    match tx
    case FactOf(fact) => FactKeepsLinks(db, fact, after);
    case Delete(request) => DeleteKeepsLink(db, request, after, event);
    case Complete(other, owner, s, digest) => CompleteEffect(db, other, owner, s, digest, after);
    case _ => SameLibrary(db, tx, after);
  }

  /** The link of `event` goes with its source only. */
  ghost predicate KeepsLink(worlds: seq<World>, event: Id, k: nat)
    requires k + 1 < |worlds|
  {
    var before, after := worlds[k].db.library, worlds[k + 1].db.library;
    event in before.links && before.links[event].source in after.sources ==>
      event in after.links && after.links[event] == before.links[event]
  }

  lemma StepKeepsLink(policy: Policy, worlds: seq<World>, steps: seq<Step>, event: Id, k: nat)
    requires IsRun(policy, worlds, steps) && k < |steps|
    ensures KeepsLink(worlds, event, k)
  {
    var db, after := worlds[k].db, worlds[k + 1].db;
    RunHolds(policy, worlds, steps, k);
    RunStep(policy, worlds, steps, k);
    StepCommitsOne(policy, worlds[k], steps[k], worlds[k + 1]);
    if after != db && event in db.library.links && db.library.links[event].source in after.library.sources {
      var tx :| StepOf(steps[k], tx) && Committed(db, tx, after);
      CommitKeepsLink(db, tx, after, event);
    }
  }

  lemma {:induction false} LinkStays(worlds: seq<World>, i: nat, j: nat, event: Id, link: Link)
    requires i <= j < |worlds| && event in worlds[i].db.library.links && worlds[i].db.library.links[event] == link
    requires forall k: nat :: i <= k < j ==> KeepsLink(worlds, event, k)
    requires forall k :: i <= k <= j ==> link.source in worlds[k].db.library.sources
    ensures event in worlds[j].db.library.links && worlds[j].db.library.links[event] == link
    decreases j
  {
    if i == j {
    } else {
      LinkStays(worlds, i, j - 1, event, link);
      assert KeepsLink(worlds, event, j - 1);
    }
  }

  /**
   An analysis that may link when it comes is linked, and stays linked in every later state of the
   run as long as its source is stored.
   */
  lemma LinkedWhileStored(
      policy: Policy, worlds: seq<World>, steps: seq<Step>, i: nat, j: nat, event: Id, owner: Id, s: SourceId,
      digest: string)
    requires IsRun(policy, worlds, steps) && i < j < |worlds| && steps[i] == Other(Complete(event, owner, s, digest))
    requires MayLink(worlds[i].db.library, event, owner, s, digest)
    requires forall k :: i < k <= j ==> s in worlds[k].db.library.sources
    ensures event in worlds[j].db.library.links && worlds[j].db.library.links[event] == Link(owner, s, digest)
  {
    RunStep(policy, worlds, steps, i);
    StepCommitsOne(policy, worlds[i], steps[i], worlds[i + 1]);
    CompleteEffect(worlds[i].db, event, owner, s, digest, worlds[i + 1].db);
    forall k: nat | i + 1 <= k < j ensures KeepsLink(worlds, event, k) {
      StepKeepsLink(policy, worlds, steps, event, k);
    }
    LinkStays(worlds, i + 1, j, event, Link(owner, s, digest));
  }
}
