/** How long a capture waits between two claims: over whole runs of any number of passes. */
module Distances {
  import opened Wrappers
  import opened Archive
  import opened Transactions
  import opened Invariants
  import opened Schedule
  import opened Workers
  import opened Runs
  import opened Scheduling
  import opened Effects

  /** The step moves the next attempt of the capture `c`: a claim that takes it, its count, or its report. */
  ghost predicate Moves(policy: Policy, world: World, step: Step, next: World, c: Id) {
    || TakenBy(policy, world, step, next, c)
    || ((step.Count? || step.Announce?) && Busy(world, step.w) && world.workers[step.w].queue[0].capture == c)
  }

  lemma OtherKeepsNext(db: Db, tx: Tx, after: Db, c: Id)
    requires FreshIntake(db.intake, db.minted) && Committed(db, tx, after) && !Reserved(tx)
    requires c in db.intake.captures && c in after.intake.captures
    ensures after.intake.captures[c].nextAt == db.intake.captures[c].nextAt
  {
    CommitSameTimes(db, tx, after, if tx.IntakeOf? && tx.intake.Deliver? then tx.intake.now else 0);
  }

  lemma AnswerKeepsNext(db: Db, d: Id, answer: Answer, at: Time, after: Db, c: Id)
    requires Committed(db, AnswerTx(d, answer, at).0, after)
    requires c in db.intake.captures && c in after.intake.captures
    ensures after.intake.captures[c].nextAt == db.intake.captures[c].nextAt
  {
    var tx := AnswerTx(d, answer, at).0;
    if tx.FactOf? {
      FactOutcomesOnly(db, tx.fact, after);
    }
  }

  lemma StepKeepsNext(policy: Policy, world: World, step: Step, next: World, c: Id)
    requires FreshIntake(world.db.intake, world.db.minted) && StepTo(policy, world, step, next)
    requires !Moves(policy, world, step, next, c)
    requires c in world.db.intake.captures && c in next.db.intake.captures
    ensures next.db.intake.captures[c].nextAt == world.db.intake.captures[c].nextAt
  {
    match step
    case Claim(w, now, locked) =>
      var order, queue :| Claimed(policy, world, w, now, locked, order, queue, next);
      assert c !in order;
      LeaseEffect(world.db, Batch(order), now + CLAIM_LEASE_SECONDS, next.db);
    case Answered(w, answer, at) =>
      AnswerKeepsNext(world.db, world.workers[w].queue[0].capture, answer, at, next.db, c);
    case Count(w) =>
      var due := world.workers[w].queue[0];
      var attempts := NextAttempts(due.attempts);
      CountEffect(world.db, due.capture, attempts, world.workers[w].now + RetryDelay(attempts), next.db);
    case Announce(w) =>
      var due := world.workers[w].queue[0];
      ReportEffect(world.db, due.capture, due.owner, due.ticket, world.workers[w].phase.terminal, next.db);
    case Other(tx) => OtherKeepsNext(world.db, tx, next.db, c);
    case _ =>
  }

  ghost predicate KeepsNext(worlds: seq<World>, c: Id, k: nat)
    requires k + 1 < |worlds|
  {
    var before, after := worlds[k].db.intake.captures, worlds[k + 1].db.intake.captures;
    && (c in before && c in after ==> after[c].nextAt == before[c].nextAt)
    && (c in after && c < worlds[k].db.minted ==> c in before)
    && worlds[k].db.minted <= worlds[k + 1].db.minted
  }

  lemma RunKeepsNext(policy: Policy, worlds: seq<World>, steps: seq<Step>, c: Id, k: nat)
    requires IsRun(policy, worlds, steps) && k < |steps|
    requires !Moves(policy, worlds[k], steps[k], worlds[k + 1], c)
    ensures KeepsNext(worlds, c, k)
  {
    RunStep(policy, worlds, steps, k);
    if c in worlds[k].db.intake.captures && c in worlds[k + 1].db.intake.captures {
      StepKeepsNext(policy, worlds[k], steps[k], worlds[k + 1], c);
    }
  }

  lemma {:induction false} NextStays(worlds: seq<World>, i: nat, j: nat, c: Id)
    requires i <= j < |worlds| && c < worlds[i].db.minted && c in worlds[j].db.intake.captures
    requires forall k: nat :: i <= k < j ==> KeepsNext(worlds, c, k)
    ensures c in worlds[i].db.intake.captures && worlds[i].db.minted <= worlds[j].db.minted
    ensures worlds[j].db.intake.captures[c].nextAt == worlds[i].db.intake.captures[c].nextAt
    decreases j - i
  {
    if i == j {
    } else {
      assert KeepsNext(worlds, c, i);
      NextStays(worlds, i + 1, j, c);
    }
  }

  /** A claim takes only what is scheduled at its time or before, for an operation, and not answered. */
  lemma TakenIsScheduled(policy: Policy, world: World, step: Step, next: World, c: Id)
    requires TakenBy(policy, world, step, next, c)
    ensures c in world.db.intake.captures
    ensures var row := world.db.intake.captures[c];
            row.ticket.Some? && !row.reported && row.nextAt.Some? && row.nextAt.value <= step.now
    ensures c in next.db.intake.captures && next.db.intake.captures[c].nextAt == Some(step.now + 120)
  {
    var order, queue :| Claimed(policy, world, step.w, step.now, step.locked, order, queue, next) && c in order;
    var i :| 0 <= i < |order| && order[i] == c;
    assert IsDue(world.db.intake.captures, step.now, order[i]);
    LeaseEffect(world.db, Batch(order), step.now + CLAIM_LEASE_SECONDS, next.db);
  }

  /** Step `j` is the next one after `i` that moves the next attempt of `c`, and claims it. */
  ghost predicate ClaimedNext(policy: Policy, worlds: seq<World>, steps: seq<Step>, i: nat, j: nat, c: Id)
    requires |worlds| == |steps| + 1 && i < j < |steps|
  {
    && TakenBy(policy, worlds[j], steps[j], worlds[j + 1], c)
    && forall k :: i < k < j ==> !Moves(policy, worlds[k], steps[k], worlds[k + 1], c)
  }

  lemma NextClaim(policy: Policy, worlds: seq<World>, steps: seq<Step>, i: nat, j: nat, c: Id)
    requires IsRun(policy, worlds, steps) && i < j < |steps| && ClaimedNext(policy, worlds, steps, i, j, c)
    requires c < worlds[i + 1].db.minted
    ensures c in worlds[i + 1].db.intake.captures
    ensures worlds[i + 1].db.intake.captures[c].nextAt.Some?
    ensures worlds[i + 1].db.intake.captures[c].nextAt.value <= steps[j].now
  {
    TakenIsScheduled(policy, worlds[j], steps[j], worlds[j + 1], c);
    forall k: nat | i + 1 <= k < j ensures KeepsNext(worlds, c, k) {
      RunKeepsNext(policy, worlds, steps, c, k);
    }
    NextStays(worlds, i + 1, j, c);
  }

  /** Whatever passes overlap, a claimed capture that is not counted meanwhile is not claimed again for 120 seconds. */
  lemma LeasesKeepDistance(policy: Policy, worlds: seq<World>, steps: seq<Step>, i: nat, j: nat, c: Id)
    requires IsRun(policy, worlds, steps) && i < j < |steps| && ClaimedNext(policy, worlds, steps, i, j, c)
    requires TakenBy(policy, worlds[i], steps[i], worlds[i + 1], c)
    ensures steps[i].now + 120 <= steps[j].now
  {
    RunHolds(policy, worlds, steps, i + 1);
    TakenIsScheduled(policy, worlds[i], steps[i], worlds[i + 1], c);
    NextClaim(policy, worlds, steps, i, j, c);
  }

  /**
   After the count of its n-th failure a capture is not claimed again before `min(30 * 4^(n-1), 1800)`
   seconds have passed since the pass that counted it started.
   */
  lemma RetriesKeepDistance(policy: Policy, worlds: seq<World>, steps: seq<Step>, i: nat, j: nat, w: Id)
    requires IsRun(policy, worlds, steps) && i < j < |steps| && steps[i] == Count(w) && Busy(worlds[i], w)
    requires var due := worlds[i].workers[w].queue[0];
             due.attempts < I32_MAX && ClaimedNext(policy, worlds, steps, i, j, due.capture)
    ensures var worker := worlds[i].workers[w];
            worker.now + Min(30 * Pow(4, worker.queue[0].attempts), 1800) <= steps[j].now
  {
    RunStep(policy, worlds, steps, i);
    CountSchedules(policy, worlds[i], w, worlds[i + 1]);
    NextClaim(policy, worlds, steps, i, j, worlds[i].workers[w].queue[0].capture);
  }

  lemma CountSchedules(policy: Policy, world: World, w: Id, next: World)
    requires Tally(policy, world) && StepTo(policy, world, Count(w), next)
    requires world.workers[w].queue[0].attempts < I32_MAX
    ensures var worker := world.workers[w];
            var c := worker.queue[0].capture;
            && c < next.db.minted
            && (c in next.db.intake.captures ==>
                  next.db.intake.captures[c].nextAt ==
                  Some(worker.now + Min(30 * Pow(4, worker.queue[0].attempts), 1800)))
  {
    var worker, db := world.workers[w], world.db;
    var due := worker.queue[0];
    assert WorkerInv(policy, db.intake, db.minted, worker);
    assert Remembers(policy, db.intake, db.minted, due);
    CountEffect(db, due.capture, due.attempts + 1, worker.now + RetryDelay(due.attempts + 1), next.db);
    RetryDelayIsExact(due.attempts + 1);
  }
}
