/** One resolver that does not stop: how many passes it takes until a capture is answered. */
module Deadlines {
  import opened Wrappers
  import opened Archive
  import opened Transactions
  import opened Invariants
  import opened Records
  import opened Workers
  import opened Runs
  import opened Scheduling
  import opened Answering

  // ----- What one step does to the account of a capture --------------------------------------

  /** A pass starts while the capture `c` is due. */
  predicate DuePass(world: World, step: Step, c: Id) {
    && step.Claim? && Waiting(world.db.intake.captures, c)
    && world.db.intake.captures[c].nextAt.value <= step.now
  }

  /** The capture `c` waits, and the resolver is not working on it. */
  ghost predicate Outside(world: World, w: Id, c: Id) {
    Waiting(world.db.intake.captures, c) && !InQueue(QueueOf(world, w), c)
  }

  /** At most `m` captures are ahead of `c`. */
  ghost predicate Crowd(world: World, c: Id, m: nat) {
    Waiting(world.db.intake.captures, c) ==> |Ahead(world.db.intake.captures, c)| <= m
  }

  /** No pass starts and no delivery is stamped before `clock`, the start of the last pass. */
  predicate Timely(clock: Option<Time>, step: Step) {
    clock.Some? ==>
      && (step.Claim? ==> clock.value <= step.now)
      && (step.Other? ==> NotStampedBefore(step.tx, clock.value))
  }

  /** The capture `c` was due at or before the last pass, and the resolver works on nothing it claimed earlier. */
  ghost predicate Overdue(world: World, w: Id, c: Id, clock: Option<Time>) {
    && Waiting(world.db.intake.captures, c) && Queued(world, w, c, world.db.intake.captures[c].nextAt.value)
    && clock.Some? && world.db.intake.captures[c].nextAt.value <= clock.value
  }

  /**
   The account of an unanswered capture after `dues` passes that found it due and `claims` that took
   it: `passed` of them passed it by since it was last scheduled, each taking a batch from ahead of it.
   */
  ghost predicate Account(
      policy: Policy, world: World, w: Id, c: Id, m: nat, dues: nat, claims: nat, passed: nat, clock: Option<Time>)
    requires 0 < policy.batchSize
  {
    && (c in world.db.intake.captures && !world.db.intake.captures[c].reported ==>
          && dues <= claims * (m / policy.batchSize + 1) + passed
          && (if Outside(world, w, c) then
                && passed * policy.batchSize + |Ahead(world.db.intake.captures, c)| <= m
                && (passed > 0 ==> Overdue(world, w, c, clock))
              else passed == 0))
    && (world.db.minted <= c ==> dues == 0)
  }

  ghost predicate Settles(
      policy: Policy, world: World, w: Id, c: Id, m: nat, dues: nat, claims: nat, clock: Option<Time>)
    requires 0 < policy.batchSize
  {
    exists passed: nat :: Account(policy, world, w, c, m, dues, claims, passed, clock)
  }

  lemma PassedIsBounded(passed: nat, batch: nat, ahead: nat, m: nat)
    requires 0 < batch && passed * batch + ahead <= m
    ensures passed <= m / batch
  {
    if m / batch + 1 <= passed {
      TooManyPasses(m, batch, passed);
    }
  }

  /** A step that is no pass, while no pass has passed `c` by. */
  lemma QuietUnpassed(
      policy: Policy, world: World, next: World, w: Id, c: Id, m: nat, dues: nat, claims: nat, passed: nat,
      clock: Option<Time>)
    requires GoesOn(world, next) && 0 < policy.batchSize && Crowd(next, c, m)
    requires Account(policy, world, w, c, m, dues, claims, passed, clock)
    requires world.db.minted <= c || c !in next.db.intake.captures || next.db.intake.captures[c].reported || passed == 0
    ensures Settles(policy, next, w, c, m, dues, claims, clock)
  {
    if c in next.db.intake.captures && c < world.db.minted {
      assert Carried(world.db.intake, next.db.intake, c);
    }
    assert Account(policy, next, w, c, m, dues, claims, if world.db.minted <= c then 0 else passed, clock);
  }

  lemma OverdueIsPatient(world: World, step: Step, w: Id, c: Id, clock: Option<Time>)
    requires Overdue(world, w, c, clock) && Timely(clock, step) && !step.Claim? && Alone(step, w)
    ensures Patient(step, w, world.db.intake.captures[c].nextAt.value)
  {
  }

  /** A step that is no pass, after `passed` passes have passed `c` by. */
  lemma QuietPassed(
      policy: Policy, world: World, step: Step, next: World, w: Id, c: Id, m: nat, dues: nat, claims: nat, passed: nat,
      clock: Option<Time>)
    requires GoesOn(world, next) && StepTo(policy, world, step, next) && !step.Claim? && Alone(step, w)
    requires 0 < policy.batchSize && Timely(clock, step) && 0 < passed && c < world.db.minted
    requires Account(policy, world, w, c, m, dues, claims, passed, clock)
    requires c in next.db.intake.captures && !next.db.intake.captures[c].reported
    ensures Settles(policy, next, w, c, m, dues, claims, clock)
  {
    assert Carried(world.db.intake, next.db.intake, c);
    var t := world.db.intake.captures[c].nextAt.value;
    OverdueIsPatient(world, step, w, c, clock);
    StepWaits(policy, world, step, next, w, c, t);
    assert Account(policy, next, w, c, m, dues, claims, passed, clock);
  }

  /** A step that is no pass. */
  lemma QuietStep(
      policy: Policy, world: World, step: Step, next: World, w: Id, c: Id, m: nat, dues: nat, claims: nat, passed: nat,
      clock: Option<Time>)
    requires GoesOn(world, next) && StepTo(policy, world, step, next) && !step.Claim? && Alone(step, w)
    requires 0 < policy.batchSize && Timely(clock, step) && Crowd(next, c, m)
    requires Account(policy, world, w, c, m, dues, claims, passed, clock)
    ensures Settles(policy, next, w, c, m, dues, claims, clock)
  {
    var after := next.db.intake.captures;
    if world.db.minted <= c || c !in after || after[c].reported || passed == 0 {
      QuietUnpassed(policy, world, next, w, c, m, dues, claims, passed, clock);
    } else {
      QuietPassed(policy, world, step, next, w, c, m, dues, claims, passed, clock);
    }
  }

  lemma ClaimPays(dues: nat, claims: nat, q: nat, passed: nat)
    requires dues <= claims * (q + 1) + passed && passed <= q
    ensures dues + 1 <= (claims + 1) * (q + 1)
  {
    assert (claims + 1) * (q + 1) == claims * (q + 1) + q + 1;
  }

  lemma TakenIsDue(
      policy: Policy, world: World, now: Time, order: seq<Id>, queue: seq<Due>, next: World, w: Id, c: Id)
    requires Claimed(policy, world, w, now, {}, order, queue, next) && c in order
    ensures DuePass(world, Claim(w, now, {}), c) && !world.db.intake.captures[c].reported
    ensures QueueOf(next, w) == queue && InQueue(queue, c) && next.db.minted == world.db.minted
  {
    var i :| 0 <= i < |order| && order[i] == c;
    assert IsDue(world.db.intake.captures, now, order[i]) && queue[i].capture == c;
  }

  /** Whatever passed `c` by before is paid for by the claim that took it into the queue. */
  lemma ClaimSettles(
      policy: Policy, world: World, next: World, w: Id, c: Id, m: nat, dues: nat, claims: nat, passed: nat,
      clock: Option<Time>, now: Time)
    requires c in world.db.intake.captures && !world.db.intake.captures[c].reported
    requires c < next.db.minted && InQueue(QueueOf(next, w), c)
    requires 0 < policy.batchSize && Account(policy, world, w, c, m, dues, claims, passed, clock)
    ensures Account(policy, next, w, c, m, dues + 1, claims + 1, 0, Some(now))
  {
    if Outside(world, w, c) {
      PassedIsBounded(passed, policy.batchSize, |Ahead(world.db.intake.captures, c)|, m);
    }
    ClaimPays(dues, claims, m / policy.batchSize, passed);
  }

  /** A pass that takes `c`. */
  lemma TakingPass(
      policy: Policy, world: World, now: Time, order: seq<Id>, queue: seq<Due>, next: World, w: Id, c: Id, m: nat,
      dues: nat, claims: nat, passed: nat, clock: Option<Time>)
    requires FreshIntake(world.db.intake, world.db.minted)
    requires Claimed(policy, world, w, now, {}, order, queue, next) && c in order
    requires 0 < policy.batchSize && Account(policy, world, w, c, m, dues, claims, passed, clock)
    ensures DuePass(world, Claim(w, now, {}), c)
    ensures Account(policy, next, w, c, m, dues + 1, claims + 1, 0, Some(now))
  {
    TakenIsDue(policy, world, now, order, queue, next, w, c);
    ClaimSettles(policy, world, next, w, c, m, dues, claims, passed, clock, now);
  }

  lemma LeftIsOutside(
      policy: Policy, world: World, now: Time, order: seq<Id>, queue: seq<Due>, next: World, w: Id, c: Id)
    requires Claimed(policy, world, w, now, {}, order, queue, next) && c !in order
    ensures QueueOf(next, w) == queue && !InQueue(queue, c) && next.db.minted == world.db.minted
  {
  }

  /** A pass that finds `c` due and does not take it: a batch of what was ahead of it goes. */
  lemma PassingPass(
      policy: Policy, world: World, now: Time, order: seq<Id>, queue: seq<Due>, next: World, w: Id, c: Id, m: nat,
      dues: nat, claims: nat, passed: nat, clock: Option<Time>)
    requires FreshIntake(world.db.intake, world.db.minted)
    requires !Busy(world, w) && Claimed(policy, world, w, now, {}, order, queue, next)
    requires c !in order && DuePass(world, Claim(w, now, {}), c)
    requires 0 < policy.batchSize && Account(policy, world, w, c, m, dues, claims, passed, clock)
    ensures Account(policy, next, w, c, m, dues + 1, claims, passed + 1, Some(now))
  {
    var t := world.db.intake.captures[c].nextAt.value;
    assert QueueOf(world, w) == [] && Queued(world, w, c, t);
    ClaimWaits(policy, world, w, now, order, queue, next, c, t);
    LeftIsOutside(policy, world, now, order, queue, next, w, c);
    assert (passed + 1) * policy.batchSize == passed * policy.batchSize + policy.batchSize;
  }

  /** A pass for which `c` is not due yet, or not stored. */
  lemma EarlyPass(
      policy: Policy, world: World, now: Time, order: seq<Id>, queue: seq<Due>, next: World, w: Id, c: Id, m: nat,
      dues: nat, claims: nat, passed: nat, clock: Option<Time>)
    requires GoesOn(world, next) && !Busy(world, w) && Claimed(policy, world, w, now, {}, order, queue, next)
    requires !DuePass(world, Claim(w, now, {}), c) && Timely(clock, Claim(w, now, {})) && Crowd(next, c, m)
    requires 0 < policy.batchSize && Account(policy, world, w, c, m, dues, claims, passed, clock)
    ensures c !in order && Settles(policy, next, w, c, m, dues, claims, Some(now))
  {
    assert forall i :: 0 <= i < |order| ==> IsDue(world.db.intake.captures, now, order[i]);
    assert QueueOf(world, w) == [] && QueueOf(next, w) == queue;
    assert Account(policy, next, w, c, m, dues, claims, 0, Some(now));
  }

  function ClockAfter(clock: Option<Time>, step: Step): Option<Time> {
    if step.Claim? then Some(step.now) else clock
  }

  function Plus(n: nat, more: bool): nat {
    if more then n + 1 else n
  }

  /** The step is one of the only resolver, which never stops, and its claims skip no locked rows. */
  predicate Sole(step: Step, w: Id) {
    Alone(step, w) && (step.Claim? ==> step.locked == {})
  }

  lemma PassSettles(
      policy: Policy, world: World, now: Time, order: seq<Id>, queue: seq<Due>, next: World, w: Id, c: Id, m: nat,
      dues: nat, claims: nat, passed: nat, clock: Option<Time>)
    requires GoesOn(world, next) && !Busy(world, w) && Claimed(policy, world, w, now, {}, order, queue, next)
    requires 0 < policy.batchSize && Timely(clock, Claim(w, now, {})) && Crowd(next, c, m)
    requires Account(policy, world, w, c, m, dues, claims, passed, clock)
    ensures Settles(policy, next, w, c, m, Plus(dues, DuePass(world, Claim(w, now, {}), c)), Plus(claims, c in order),
                    Some(now))
  {
    if c in order {
      TakingPass(policy, world, now, order, queue, next, w, c, m, dues, claims, passed, clock);
    } else if DuePass(world, Claim(w, now, {}), c) {
      PassingPass(policy, world, now, order, queue, next, w, c, m, dues, claims, passed, clock);
    } else {
      EarlyPass(policy, world, now, order, queue, next, w, c, m, dues, claims, passed, clock);
    }
  }

  /** What a pass claimed, with `c` in it exactly when it took `c`. */
  lemma ClaimOf(policy: Policy, world: World, step: Step, next: World, w: Id, c: Id)
    returns (order: seq<Id>, queue: seq<Due>)
    requires StepTo(policy, world, step, next) && step.Claim? && Sole(step, w)
    ensures step == Claim(w, step.now, {}) && !Busy(world, w)
    ensures Claimed(policy, world, w, step.now, {}, order, queue, next)
    ensures c in order <==> TakenBy(policy, world, step, next, c)
  {
    if TakenBy(policy, world, step, next, c) {
      order, queue :| Claimed(policy, world, w, step.now, {}, order, queue, next) && c in order;
    } else {
      order, queue :| Claimed(policy, world, w, step.now, {}, order, queue, next);
    }
  }

  lemma StepSettles(
      policy: Policy, world: World, step: Step, next: World, w: Id, c: Id, m: nat, dues: nat, claims: nat,
      clock: Option<Time>)
    requires GoesOn(world, next) && StepTo(policy, world, step, next) && Sole(step, w)
    requires 0 < policy.batchSize && Timely(clock, step) && Crowd(next, c, m)
    requires Settles(policy, world, w, c, m, dues, claims, clock)
    ensures Settles(policy, next, w, c, m, Plus(dues, DuePass(world, step, c)),
                    Plus(claims, TakenBy(policy, world, step, next, c)), ClockAfter(clock, step))
  {
    var passed: nat :| Account(policy, world, w, c, m, dues, claims, passed, clock);
    if step.Claim? {
      var order, queue := ClaimOf(policy, world, step, next, w, c);
      PassSettles(policy, world, step.now, order, queue, next, w, c, m, dues, claims, passed, clock);
    } else {
      QuietStep(policy, world, step, next, w, c, m, dues, claims, passed, clock);
    }
  }

  // ----- Whole runs --------------------------------------------------------------------------

  /** How many of the first `j` steps are passes that started while `c` was due. */
  function DuePasses(worlds: seq<World>, steps: seq<Step>, c: Id, j: nat): nat
    requires |worlds| == |steps| + 1 && j <= |steps|
  {
    if j == 0 then 0 else Plus(DuePasses(worlds, steps, c, j - 1), DuePass(worlds[j - 1], steps[j - 1], c))
  }

  /** When the last of the first `j` steps that is a pass started. */
  function LastPass(steps: seq<Step>, j: nat): Option<Time>
    requires j <= |steps|
  {
    if j == 0 then None else ClockAfter(LastPass(steps, j - 1), steps[j - 1])
  }

  /** The clock of the service does not go back: no pass and no delivery is stamped before an earlier pass. */
  ghost predicate Clocked(steps: seq<Step>) {
    forall i, k :: 0 <= i < k < |steps| && steps[i].Claim? ==> Timely(Some(steps[i].now), steps[k])
  }

  lemma {:induction false} LastPassIsAStep(steps: seq<Step>, j: nat)
    requires j <= |steps| && LastPass(steps, j).Some?
    ensures exists i :: 0 <= i < j && steps[i].Claim? && steps[i].now == LastPass(steps, j).value
  {
    if j == 0 {
      assert false;
    } else if !steps[j - 1].Claim? {
      LastPassIsAStep(steps, j - 1);
    }
  }

  lemma LastPassIsEarlier(steps: seq<Step>, k: nat)
    requires Clocked(steps) && k < |steps|
    ensures Timely(LastPass(steps, k), steps[k])
  {
    if LastPass(steps, k).Some? {
      LastPassIsAStep(steps, k);
    }
  }

  ghost predicate SettlesAt(policy: Policy, worlds: seq<World>, steps: seq<Step>, w: Id, c: Id, m: nat, k: nat)
    requires |worlds| == |steps| + 1 && k < |worlds| && 0 < policy.batchSize
  {
    Settles(policy, worlds[k], w, c, m, DuePasses(worlds, steps, c, k), ClaimsOf(policy, worlds, steps, c, k),
            LastPass(steps, k))
  }

  ghost predicate GoesOnSettling(policy: Policy, worlds: seq<World>, steps: seq<Step>, w: Id, c: Id, m: nat, k: nat)
    requires |worlds| == |steps| + 1 && k < |steps| && 0 < policy.batchSize
  {
    SettlesAt(policy, worlds, steps, w, c, m, k) ==> SettlesAt(policy, worlds, steps, w, c, m, k + 1)
  }

  lemma RunSettles(policy: Policy, worlds: seq<World>, steps: seq<Step>, w: Id, c: Id, m: nat, k: nat)
    requires IsRun(policy, worlds, steps) && k < |steps| && 0 < policy.batchSize
    requires Sole(steps[k], w) && Clocked(steps) && Crowd(worlds[k + 1], c, m)
    ensures GoesOnSettling(policy, worlds, steps, w, c, m, k)
  {
    if SettlesAt(policy, worlds, steps, w, c, m, k) {
      RunStep(policy, worlds, steps, k);
      LastPassIsEarlier(steps, k);
      var dues, claims := DuePasses(worlds, steps, c, k), ClaimsOf(policy, worlds, steps, c, k);
      StepSettles(policy, worlds[k], steps[k], worlds[k + 1], w, c, m, dues, claims, LastPass(steps, k));
      assert ClaimsOf(policy, worlds, steps, c, k + 1) ==
             Plus(claims, TakenBy(policy, worlds[k], steps[k], worlds[k + 1], c));
    }
  }

  lemma {:induction false} SettledThroughout(
      policy: Policy, worlds: seq<World>, steps: seq<Step>, w: Id, c: Id, m: nat, j: nat)
    requires |worlds| == |steps| + 1 && j < |worlds| && 0 < policy.batchSize
    requires SettlesAt(policy, worlds, steps, w, c, m, 0)
    requires forall k: nat :: k < j ==> GoesOnSettling(policy, worlds, steps, w, c, m, k)
    ensures SettlesAt(policy, worlds, steps, w, c, m, j)
  {
    if j == 0 {
    } else {
      SettledThroughout(policy, worlds, steps, w, c, m, j - 1);
      assert GoesOnSettling(policy, worlds, steps, w, c, m, j - 1);
    }
  }

  lemma StartSettles(policy: Policy, worlds: seq<World>, steps: seq<Step>, w: Id, c: Id, m: nat)
    requires IsRun(policy, worlds, steps) && 0 < policy.batchSize
    ensures SettlesAt(policy, worlds, steps, w, c, m, 0)
  {
    assert Account(policy, worlds[0], w, c, m, 0, 0, 0, None);
  }

  /** Fewer claims than the limit leave room for that many passes only. */
  lemma TooFewPasses(limit: nat, claims: nat, q: nat, passed: nat)
    requires claims < limit && passed <= q
    ensures claims * (q + 1) + passed < limit * (q + 1)
  {
    assert (claims + 1) * (q + 1) <= limit * (q + 1);
  }

  /**
   One resolver that does not stop, a clock that does not go back, and never more than `m` captures
   ahead of `c`: once `maxAttempts * (m / batchSize + 1)` passes found `c` due and the resolver is
   done with it, it is answered or was deleted, whatever answers are stored and whatever else commits
   meanwhile.
   */
  lemma AnsweredWithinPasses(policy: Policy, worlds: seq<World>, steps: seq<Step>, w: Id, c: Id, m: nat, j: nat)
    requires IsRun(policy, worlds, steps) && j < |worlds| && 1 <= policy.maxAttempts <= I32_MAX && 0 < policy.batchSize
    requires (forall k :: 0 <= k < |steps| ==> Sole(steps[k], w)) && Clocked(steps)
    requires forall k :: 0 <= k <= j ==> Crowd(worlds[k], c, m)
    requires policy.maxAttempts * (m / policy.batchSize + 1) <= DuePasses(worlds, steps, c, j)
    requires !InQueue(QueueOf(worlds[j], w), c)
    ensures c !in worlds[j].db.intake.captures || worlds[j].db.intake.captures[c].reported
  {
    forall k: nat | k < j ensures GoesOnSettling(policy, worlds, steps, w, c, m, k) {
      RunSettles(policy, worlds, steps, w, c, m, k);
    }
    StartSettles(policy, worlds, steps, w, c, m);
    SettledThroughout(policy, worlds, steps, w, c, m, j);
    RunPaced(policy, worlds, steps, w, c, j);
    SettledIsAnswered(policy, worlds[j], w, c, m, DuePasses(worlds, steps, c, j),
                      ClaimsOf(policy, worlds, steps, c, j), LastPass(steps, j));
  }

  lemma SettledIsAnswered(
      policy: Policy, world: World, w: Id, c: Id, m: nat, dues: nat, claims: nat, clock: Option<Time>)
    requires 0 < policy.batchSize && Settles(policy, world, w, c, m, dues, claims, clock)
    requires Paced(policy, world, w, c, claims) && !InQueue(QueueOf(world, w), c)
    requires policy.maxAttempts * (m / policy.batchSize + 1) <= dues
    ensures c !in world.db.intake.captures || world.db.intake.captures[c].reported
  {
    var passed: nat :| Account(policy, world, w, c, m, dues, claims, passed, clock);
    if c in world.db.intake.captures && !world.db.intake.captures[c].reported {
      assert !AtReport(world, w, c);
      if Outside(world, w, c) {
        PassedIsBounded(passed, policy.batchSize, |Ahead(world.db.intake.captures, c)|, m);
      }
      TooFewPasses(policy.maxAttempts, claims, m / policy.batchSize, passed);
    }
  }
}
