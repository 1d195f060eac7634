/**
 One resolver that does not stop: when a due capture is claimed, and when it is answered.

 The other transactions of the service still interleave with every step of a pass.
 */
module Scheduling {
  import opened Wrappers
  import opened Archive
  import opened Transactions
  import opened Invariants
  import opened Records
  import opened Workers
  import opened Schedule
  import opened Runs
  import PrivacyDeletion
  import DeletionProperties

  /** Waiting for a claim: accepted for an operation, not answered, and scheduled. */
  predicate Waiting(captures: map<Id, Capture>, c: Id) {
    c in captures && captures[c].ticket.Some? && !captures[c].reported && captures[c].nextAt.Some?
  }

  /** The waiting captures the claiming query orders before `c`. */
  function Ahead(captures: map<Id, Capture>, c: Id): set<Id>
    requires Waiting(captures, c)
  {
    set d | d in captures && Waiting(captures, d) && Precedes(captures, d, c)
  }

  /** Nothing that precedes `c` got a new time, and `c` itself kept its own. */
  ghost predicate NobodyJumpsAhead(before: map<Id, Capture>, after: map<Id, Capture>, c: Id)
    requires Waiting(before, c)
  {
    && Waiting(after, c) && after[c].nextAt == before[c].nextAt
    && forall d :: d in after && Waiting(after, d) && Precedes(after, d, c) ==>
         Waiting(before, d) && before[d].nextAt == after[d].nextAt
  }

  lemma AheadShrinks(before: map<Id, Capture>, after: map<Id, Capture>, c: Id)
    requires Waiting(before, c) && NobodyJumpsAhead(before, after, c)
    ensures Ahead(after, c) <= Ahead(before, c)
    ensures |Ahead(after, c)| <= |Ahead(before, c)|
  {
    FewerRows(Ahead(after, c), Ahead(before, c));
  }

  /** A claim that leaves `c` out takes a whole batch of the captures ahead of it. */
  lemma ClaimTakesBatch(captures: map<Id, Capture>, now: Time, limit: nat, order: seq<Id>, c: Id)
    requires Waiting(captures, c) && captures[c].nextAt.value <= now
    requires IsClaim(captures, now, limit, {}, order) && c !in order
    ensures var after := Leased(captures, Batch(order), now + CLAIM_LEASE_SECONDS);
            NobodyJumpsAhead(captures, after, c) && |Ahead(after, c)| + limit <= |Ahead(captures, c)|
  {
    var batch := Batch(order);
    var after := Leased(captures, batch, now + CLAIM_LEASE_SECONDS);
    assert IsDue(captures, now, c);
    BatchIsAhead(captures, now, limit, order, c);
    DistinctCount(order);
    LeaseTakesBatch(captures, batch, now, c);
    assert |Ahead(captures, c) - batch| == |Ahead(captures, c)| - |batch|;
  }

  lemma BatchIsAhead(captures: map<Id, Capture>, now: Time, limit: nat, order: seq<Id>, c: Id)
    requires Waiting(captures, c) && captures[c].nextAt.value <= now
    requires IsClaim(captures, now, limit, {}, order) && c !in order
    ensures |order| == limit && Batch(order) <= Ahead(captures, c)
    ensures forall i, j :: 0 <= i < j < |order| ==> order[i] != order[j]
  {
    assert IsDue(captures, now, c);
  }

  lemma LeaseTakesBatch(captures: map<Id, Capture>, batch: set<Id>, now: Time, c: Id)
    requires Waiting(captures, c) && captures[c].nextAt.value <= now && c !in batch
    ensures var after := Leased(captures, batch, now + CLAIM_LEASE_SECONDS);
            NobodyJumpsAhead(captures, after, c) && |Ahead(after, c)| <= |Ahead(captures, c) - batch|
  {
    var after := Leased(captures, batch, now + CLAIM_LEASE_SECONDS);
    FewerRows(Ahead(after, c), Ahead(captures, c) - batch);
  }

  lemma {:induction false} DistinctCount(order: seq<Id>)
    requires forall i, j :: 0 <= i < j < |order| ==> order[i] != order[j]
    ensures |Batch(order)| == |order|
  {
    if order == [] {
      assert Batch(order) == {};
    } else {
      var last := |order| - 1;
      DistinctCount(order[..last]);
      assert Batch(order) == Batch(order[..last]) + {order[last]};
    }
  }

  // ----- The other transactions --------------------------------------------------------------

  /** Stored captures keep schedule and guard; new ones have identifiers from `minted` on and times from `t` on. */
  ghost predicate SameTimes(before: map<Id, Capture>, after: map<Id, Capture>, minted: Id, t: Time) {
    forall d :: d in after ==>
      if d in before then
        after[d].ticket == before[d].ticket && after[d].reported == before[d].reported &&
          after[d].nextAt == before[d].nextAt
      else minted <= d && (after[d].nextAt.None? || t <= after[d].nextAt.value)
  }

  lemma SameTimesNobodyJumps(before: map<Id, Capture>, after: map<Id, Capture>, minted: Id, t: Time, c: Id)
    requires c < minted && SameTimes(before, after, minted, t) && c in after
    requires Waiting(before, c) && before[c].nextAt == Some(t)
    ensures NobodyJumpsAhead(before, after, c)
  {
  }

  /** Deliveries are not stamped before `t`. */
  predicate NotStampedBefore(tx: Tx, t: Time) {
    tx.IntakeOf? && tx.intake.Deliver? ==> t <= tx.intake.now
  }

  lemma IntakeSameTimes(db: Db, tx: IntakeTx, after: Db, t: Time)
    requires FreshIntake(db.intake, db.minted) && IntakeCommitted(db, tx, after) && NotStampedBefore(IntakeOf(tx), t)
    ensures SameTimes(db.intake.captures, after.intake.captures, db.minted, t)
  {
  }

  lemma DeleteSameTimes(db: Db, request: PrivacyDeletion.Request, after: Db, t: Time)
    requires DeleteCommitted(db, request, after)
    ensures SameTimes(db.intake.captures, after.intake.captures, db.minted, t)
  {
    var result :| PrivacyDeletion.Applied(db, request, result, after);
    if result == Success(true) {
      var noted := db.(deletions := db.deletions[request.operation := (request.owner, request.target)]);
      var order :| PrivacyDeletion.IsDeletion(noted, request, order, after);
      DeletionProperties.NetEffectHolds(noted, request, order, after);
    }
  }

  lemma CommitSameTimes(db: Db, tx: Tx, after: Db, t: Time)
    requires FreshIntake(db.intake, db.minted) && Committed(db, tx, after) && !Reserved(tx) && NotStampedBefore(tx, t)
    ensures SameTimes(db.intake.captures, after.intake.captures, db.minted, t)
  {
    match tx
    case IntakeOf(intake) => IntakeSameTimes(db, intake, after, t);
    case FactOf(fact) => FactOutcomesOnly(db, fact, after);
    case StoreOf(store) => StoreSameIntake(db, store, after);
    case Delete(request) => DeleteSameTimes(db, request, after, t);
    case _ =>
  }

  // ----- One step ----------------------------------------------------------------------------

  /** The step belongs to the one resolver `w`, which never stops, or to another transaction; time has reached `t`. */
  predicate Patient(step: Step, w: Id, t: Time) {
    match step
    case Claim(w', now, locked) => w' == w && locked == {} && t <= now
    case Examine(w') => w' == w
    case Answered(w', _, _) => w' == w
    case Count(w') => w' == w
    case Announce(w') => w' == w
    case Stop(_) => false
    case Other(tx) => NotStampedBefore(tx, t)
  }

  /**
   The capture `c` is due at `t`, the resolver is not working on it, and what it works on it claimed
   at `t` or later.
   */
  ghost predicate Queued(world: World, w: Id, c: Id, t: Time) {
    && Waiting(world.db.intake.captures, c) && world.db.intake.captures[c].nextAt == Some(t)
    && (Busy(world, w) ==> t <= world.workers[w].now)
    && (Busy(world, w) ==> forall i :: 0 <= i < |world.workers[w].queue| ==> world.workers[w].queue[i].capture != c)
  }

  ghost predicate TakenBy(policy: Policy, world: World, step: Step, next: World, c: Id) {
    step.Claim? && exists order, queue ::
      Claimed(policy, world, step.w, step.now, step.locked, order, queue, next) && c in order
  }

  lemma ClaimWaits(
      policy: Policy, world: World, w: Id, now: Time, order: seq<Id>, queue: seq<Due>, next: World, c: Id, t: Time)
    requires Claimed(policy, world, w, now, {}, order, queue, next) && t <= now
    requires Queued(world, w, c, t) && c !in order
    ensures Queued(next, w, c, t)
    ensures |Ahead(next.db.intake.captures, c)| + policy.batchSize <= |Ahead(world.db.intake.captures, c)|
  {
    ClaimTakesBatch(world.db.intake.captures, now, policy.batchSize, order, c);
    assert next.db.intake.captures == Leased(world.db.intake.captures, Batch(order), now + CLAIM_LEASE_SECONDS);
  }

  lemma NobodyJumpsInPass(policy: Policy, world: World, step: Step, next: World, w: Id, c: Id, t: Time)
    requires StepTo(policy, world, step, next) && Patient(step, w, t) && !step.Claim? && !step.Other?
    requires Queued(world, w, c, t)
    ensures NobodyJumpsAhead(world.db.intake.captures, next.db.intake.captures, c)
  {
    match step
    case Examine(_) =>
    case Answered(_, answer, at) =>
      AnswerWaits(world.db, world.workers[w].queue[0].capture, answer, at, next.db, c, t);
    case Count(_) => CountWaits(world.db.intake.captures, next.db.intake.captures, world.workers[w], c, t);
    case Announce(_) =>
  }

  lemma PassWaits(policy: Policy, world: World, step: Step, next: World, w: Id, c: Id, t: Time)
    requires StepTo(policy, world, step, next) && Patient(step, w, t) && !step.Claim? && !step.Other?
    requires Queued(world, w, c, t)
    ensures Queued(next, w, c, t) && |Ahead(next.db.intake.captures, c)| <= |Ahead(world.db.intake.captures, c)|
  {
    NobodyJumpsInPass(policy, world, step, next, w, c, t);
    AheadShrinks(world.db.intake.captures, next.db.intake.captures, c);
  }

  lemma AnswerWaits(db: Db, d: Id, answer: Answer, at: Time, after: Db, c: Id, t: Time)
    requires Waiting(db.intake.captures, c) && db.intake.captures[c].nextAt == Some(t)
    requires Committed(db, AnswerTx(d, answer, at).0, after)
    ensures NobodyJumpsAhead(db.intake.captures, after.intake.captures, c)
  {
    var tx := AnswerTx(d, answer, at).0;
    if tx.FactOf? {
      FactOutcomesOnly(db, tx.fact, after);
    }
    SameTimesNobodyJumps(db.intake.captures, after.intake.captures, c + 1, t, c);
  }

  lemma CountWaits(before: map<Id, Capture>, after: map<Id, Capture>, worker: Worker, c: Id, t: Time)
    requires Waiting(before, c) && before[c].nextAt == Some(t) && t <= worker.now
    requires worker.queue != [] && worker.queue[0].capture != c
    requires var attempts := NextAttempts(worker.queue[0].attempts);
             after == Counted(before, worker.queue[0].capture, attempts, worker.now + RetryDelay(attempts))
    ensures NobodyJumpsAhead(before, after, c)
  {
    PowGrows(4, 0, if NextAttempts(worker.queue[0].attempts) == 0 then 0
      else NextAttempts(worker.queue[0].attempts) - 1);
  }

  lemma OtherWaits(policy: Policy, world: World, tx: Tx, next: World, w: Id, c: Id, t: Time)
    requires FreshIntake(world.db.intake, world.db.minted)
    requires StepTo(policy, world, Other(tx), next) && NotStampedBefore(tx, t)
    requires Queued(world, w, c, t) && c in next.db.intake.captures
    ensures Queued(next, w, c, t) && |Ahead(next.db.intake.captures, c)| <= |Ahead(world.db.intake.captures, c)|
  {
    CommitSameTimes(world.db, tx, next.db, t);
    SameTimesNobodyJumps(world.db.intake.captures, next.db.intake.captures, world.db.minted, t, c);
    AheadShrinks(world.db.intake.captures, next.db.intake.captures, c);
  }

  // ----- Runs of one resolver ----------------------------------------------------------------

  /** How many passes started among `steps`. */
  function Passes(steps: seq<Step>): nat {
    if steps == [] then 0 else Passes(steps[..|steps| - 1]) + if steps[|steps| - 1].Claim? then 1 else 0
  }

  lemma StepWaits(policy: Policy, world: World, step: Step, next: World, w: Id, c: Id, t: Time)
    requires FreshIntake(world.db.intake, world.db.minted) && StepTo(policy, world, step, next)
    requires Patient(step, w, t) && c in next.db.intake.captures && !TakenBy(policy, world, step, next, c)
    requires Queued(world, w, c, t)
    ensures Queued(next, w, c, t)
    ensures |Ahead(next.db.intake.captures, c)| +
            (if step.Claim? then policy.batchSize else 0) <= |Ahead(world.db.intake.captures, c)|
  {
    match step
    case Claim(_, now, _) =>
      var order, queue :| Claimed(policy, world, w, now, {}, order, queue, next);
      ClaimWaits(policy, world, w, now, order, queue, next, c, t);
    case Other(tx) => OtherWaits(policy, world, tx, next, w, c, t);
    case _ => PassWaits(policy, world, step, next, w, c, t);
  }

  /** A step that leaves a waiting capture waiting does not grow what is ahead of it, and a pass takes a batch of it. */
  ghost predicate Waits(policy: Policy, world: World, step: Step, next: World, w: Id, c: Id, t: Time) {
    Queued(world, w, c, t) ==>
      && Queued(next, w, c, t)
      && |Ahead(next.db.intake.captures, c)| +
        (if step.Claim? then policy.batchSize else 0) <= |Ahead(world.db.intake.captures, c)|
  }

  ghost predicate WaitsAt(policy: Policy, worlds: seq<World>, steps: seq<Step>, k: nat, w: Id, c: Id, t: Time)
    requires |worlds| == |steps| + 1 && k < |steps|
  {
    Waits(policy, worlds[k], steps[k], worlds[k + 1], w, c, t)
  }

  lemma {:induction false} PassesTakeBatches(
    policy: Policy, worlds: seq<World>, steps: seq<Step>, i: nat, j: nat, w: Id, c: Id, t: Time)
    requires |worlds| == |steps| + 1 && i <= j < |worlds| && Queued(worlds[i], w, c, t)
    requires forall k :: i <= k < j ==> WaitsAt(policy, worlds, steps, k, w, c, t)
    ensures Queued(worlds[j], w, c, t)
    ensures Passes(steps[i..j]) * policy.batchSize + |Ahead(worlds[j].db.intake.captures, c)| <=
            |Ahead(worlds[i].db.intake.captures, c)|
    decreases j
  {
    if i == j {
    } else {
      PassesTakeBatches(policy, worlds, steps, i, j - 1, w, c, t);
      assert WaitsAt(policy, worlds, steps, j - 1, w, c, t);
      assert steps[i..j][..j - 1 - i] == steps[i..j - 1];
    }
  }

  /** Step `k` is a pass that claims the capture `c`. */
  ghost predicate TakenAt(policy: Policy, worlds: seq<World>, steps: seq<Step>, k: nat, c: Id)
    requires |worlds| == |steps| + 1 && k < |steps|
  {
    TakenBy(policy, worlds[k], steps[k], worlds[k + 1], c)
  }

  lemma UntakenWaits(policy: Policy, worlds: seq<World>, steps: seq<Step>, k: nat, w: Id, c: Id, t: Time)
    requires IsRun(policy, worlds, steps) && k < |steps|
    requires Patient(steps[k], w, t) && c in worlds[k + 1].db.intake.captures && !TakenAt(policy, worlds, steps, k, c)
    ensures WaitsAt(policy, worlds, steps, k, w, c, t)
  {
    if Queued(worlds[k], w, c, t) {
      RunStep(policy, worlds, steps, k);
      StepWaits(policy, worlds[k], steps[k], worlds[k + 1], w, c, t);
    }
  }

  /**
   A due capture with `k` captures ahead of it is claimed within `k / batchSize + 1` passes of the
   one resolver, whatever else commits meanwhile, as long as it is not deleted.
   */
  lemma ClaimedInTime(policy: Policy, worlds: seq<World>, steps: seq<Step>, i: nat, j: nat, w: Id, c: Id, t: Time)
    requires IsRun(policy, worlds, steps) && i <= j < |worlds| && Queued(worlds[i], w, c, t) && 0 < policy.batchSize
    requires forall k :: i <= k < j ==> Patient(steps[k], w, t)
    requires forall k :: i <= k <= j ==> c in worlds[k].db.intake.captures
    requires |Ahead(worlds[i].db.intake.captures, c)| / policy.batchSize + 1 <= Passes(steps[i..j])
    ensures exists k :: i <= k < j && TakenAt(policy, worlds, steps, k, c)
  {
    if forall k :: i <= k < j ==> !TakenAt(policy, worlds, steps, k, c) {
      forall k | i <= k < j ensures WaitsAt(policy, worlds, steps, k, w, c, t) {
        UntakenWaits(policy, worlds, steps, k, w, c, t);
      }
      PassesTakeBatches(policy, worlds, steps, i, j, w, c, t);
      TooManyPasses(|Ahead(worlds[i].db.intake.captures, c)|, policy.batchSize, Passes(steps[i..j]));
    }
  }

  lemma TooManyPasses(ahead: nat, batch: nat, passes: nat)
    requires 0 < batch && ahead / batch + 1 <= passes
    ensures ahead < passes * batch
  {
    assert (ahead / batch + 1) * batch <= passes * batch;
  }
}
