/** What becomes of a capture whose answer can never commit: every pass that fetches it has to stop. */
module Stopping {
  import opened Wrappers
  import opened Archive
  import opened Transactions
  import opened Invariants
  import opened Workers
  import opened Runs
  import opened Scheduling
  import opened Answering
  import opened Committing
  import ReplyStore
  import Soundness

  /**
   The accepted capture `c` alone waits, since `t` and after `attempts` failures, and `answer` cannot be
   stored, for another reason than a cycle of replies, with which the attempt would go on.
   */
  ghost predicate Hopeless(db: Db, c: Id, t: Time, attempts: nat, answer: Answer) {
    var captures := db.intake.captures;
    && Sound(db) && Waiting(captures, c) && !Committable(db, c, answer)
    && (answer.Found? ==> !ReplyStore.CycleStored(db.content))
    && captures[c].status.Accepted? && captures[c].nextAt == Some(t) && captures[c].attempts == attempts
    && forall d :: Waiting(captures, d) ==> d == c
  }

  /** The pass fetches `c`, and no step stores the `answer` it gets. */
  ghost predicate Stuck(policy: Policy, world: World, c: Id, answer: Answer) {
    && Busy(world, 0) && world.workers[0].phase.Fetching? && world.workers[0].queue[0].capture == c
    && forall at, next :: !StepTo(policy, world, Answered(0, answer, at), next)
  }

  lemma LeaseKeepsCommittable(db: Db, batch: set<Id>, until: Time, c: Id, answer: Answer)
    requires c in db.intake.captures
    ensures Committable(db.(intake := db.intake.(captures := Leased(db.intake.captures, batch, until))), c, answer) <==>
            Committable(db, c, answer)
  {
    var leased := db.(intake := db.intake.(captures := Leased(db.intake.captures, batch, until)));
    var row, row' := db.intake.captures[c], leased.intake.captures[c];
    assert row'.url == row.url && row'.owner == row.owner && row'.post == row.post;
  }

  lemma FetchingIsStuck(policy: Policy, world: World, c: Id, answer: Answer)
    requires Sound(world.db) && !Committable(world.db, c, answer)
    requires Busy(world, 0) && world.workers[0].phase.Fetching? && world.workers[0].queue[0].capture == c
    ensures Stuck(policy, world, c, answer)
  {
    forall at, next ensures !StepTo(policy, world, Answered(0, answer, at), next) {
      UncommittableAnswerOnlyStops(policy, world, 0, answer, at, next);
    }
  }

  /** The only capture that waits is the only one a claim takes. */
  lemma LoneClaim(captures: map<Id, Capture>, c: Id, t: Time, limit: nat)
    requires Waiting(captures, c) && captures[c].nextAt == Some(t) && 0 < limit
    requires forall d :: Waiting(captures, d) ==> d == c
    ensures IsClaim(captures, t, limit, {}, [c]) && IsRead(captures, [c], [Read(captures, c)])
  {
    assert forall d :: IsDue(captures, t, d) ==> Waiting(captures, d);
  }

  lemma LeaseKeepsHopeless(db: Db, c: Id, t: Time, attempts: nat, answer: Answer, until: Time, after: Db)
    requires Hopeless(db, c, t, attempts, answer)
    requires after == db.(intake := db.intake.(captures := Leased(db.intake.captures, {c}, until)))
    ensures Hopeless(after, c, until, attempts, answer)
  {
    assert forall d :: Waiting(after.intake.captures, d) ==> Waiting(db.intake.captures, d);
    assert Committed(db, ScheduleOf(Lease({c}, until)), after);
    Soundness.CommitKeepsSound(db, ScheduleOf(Lease({c}, until)), after);
    LeaseKeepsCommittable(db, {c}, until, c, answer);
  }

  lemma LoneClaimed(policy: Policy, db: Db, c: Id, t: Time, after: Db)
    requires Waiting(db.intake.captures, c) && db.intake.captures[c].nextAt == Some(t) && 0 < policy.batchSize
    requires forall d :: Waiting(db.intake.captures, d) ==> d == c
    requires after == db.(intake := db.intake.(
               captures := Leased(db.intake.captures, {c}, t + CLAIM_LEASE_SECONDS)))
    ensures var queue := [Read(db.intake.captures, c)];
            Claimed(policy, World(db, map[]), 0, t, {}, [c], queue, World(after, map[0 := Worker(t, queue, Ready)]))
  {
    LoneClaim(db.intake.captures, c, t, policy.batchSize);
    assert Batch([c]) == {c};
    assert map[][0 := Worker(t, [Read(db.intake.captures, c)], Ready)] ==
           map[0 := Worker(t, [Read(db.intake.captures, c)], Ready)];
  }

  lemma HopelessClaimTakes(policy: Policy, db: Db, c: Id, t: Time, order: seq<Id>, queue: seq<Due>, claimed: World)
    requires Claimed(policy, World(db, map[]), 0, t, {}, order, queue, claimed) && c in order
    ensures StepTo(policy, World(db, map[]), Claim(0, t, {}), claimed)
    ensures TakenBy(policy, World(db, map[]), Claim(0, t, {}), claimed, c)
  {
  }

  lemma NothingRecorded(policy: Policy, db: Db, t: Time, due: Due)
    requires due.status.Accepted? && due.attempts < policy.maxAttempts
    ensures StepTo(policy, World(db, map[0 := Worker(t, [due], Ready)]), Examine(0),
                   World(db, map[0 := Worker(t, [due], Fetching)]))
  {
    var before, after := map[0 := Worker(t, [due], Ready)], map[0 := Worker(t, [due], Fetching)];
    assert after == before[0 := before[0].(phase := Fetching)];
  }

  lemma StopsAt(policy: Policy, world: World)
    requires world.workers.Keys == {0}
    ensures StepTo(policy, world, Stop(0), World(world.db, map[]))
  {
    assert world.workers - {0} == map[];
  }

  /** The claim of a pass: it takes `c`, and leaves it hopeless under the lease. */
  lemma HopelessClaim(policy: Policy, db: Db, c: Id, t: Time, attempts: nat, answer: Answer)
    returns (due: Due, after: Db)
    requires Hopeless(db, c, t, attempts, answer) && 0 < policy.batchSize
    ensures due.capture == c && due.status.Accepted? && due.attempts == attempts
    ensures var claimed := World(after, map[0 := Worker(t, [due], Ready)]);
            && StepTo(policy, World(db, map[]), Claim(0, t, {}), claimed)
            && TakenBy(policy, World(db, map[]), Claim(0, t, {}), claimed, c)
    ensures Hopeless(after, c, t + CLAIM_LEASE_SECONDS, attempts, answer)
  {
    due := Read(db.intake.captures, c);
    after := db.(intake := db.intake.(captures := Leased(db.intake.captures, {c}, t + CLAIM_LEASE_SECONDS)));
    LoneClaimed(policy, db, c, t, after);
    HopelessClaimTakes(policy, db, c, t, [c], [due], World(after, map[0 := Worker(t, [due], Ready)]));
    LeaseKeepsHopeless(db, c, t, attempts, answer, t + CLAIM_LEASE_SECONDS, after);
  }

  /** One whole pass: it claims `c`, finds nothing recorded, fetches it, and has to stop. */
  lemma HopelessPass(policy: Policy, db: Db, c: Id, t: Time, attempts: nat, answer: Answer)
    returns (claimed: World, fetching: World)
    requires Hopeless(db, c, t, attempts, answer) && 0 < policy.batchSize && attempts < policy.maxAttempts
    ensures StepTo(policy, World(db, map[]), Claim(0, t, {}), claimed)
    ensures TakenBy(policy, World(db, map[]), Claim(0, t, {}), claimed, c)
    ensures StepTo(policy, claimed, Examine(0), fetching) && Stuck(policy, fetching, c, answer)
    ensures StepTo(policy, fetching, Stop(0), World(fetching.db, map[]))
    ensures Hopeless(fetching.db, c, t + CLAIM_LEASE_SECONDS, attempts, answer)
  {
    var due, after := HopelessClaim(policy, db, c, t, attempts, answer);
    claimed := World(after, map[0 := Worker(t, [due], Ready)]);
    fetching := World(after, map[0 := Worker(t, [due], Fetching)]);
    NothingRecorded(policy, after, t, due);
    FetchingIsStuck(policy, fetching, c, answer);
    StopsAt(policy, fetching);
  }

  /** Every stop of the run is one of a pass that is stuck with `c`. */
  ghost predicate OnlyStuckStops(policy: Policy, worlds: seq<World>, steps: seq<Step>, c: Id, answer: Answer)
    requires |worlds| == |steps| + 1
  {
    forall k :: 0 <= k < |steps| && steps[k].Stop? ==> Stuck(policy, worlds[k], c, answer)
  }

  /** A run of `n` passes, each of which claims `c`, fetches it, and stops because `answer` cannot be stored. */
  ghost predicate StoppedRun(
      policy: Policy, db: Db, c: Id, attempts: nat, answer: Answer, n: nat, worlds: seq<World>, steps: seq<Step>)
  {
    && Follows(policy, worlds, steps) && worlds[0] == World(db, map[])
    && ClaimsOf(policy, worlds, steps, c, |steps|) == n
    && OnlyStuckStops(policy, worlds, steps, c, answer)
    && worlds[|steps|].workers == map[]
    && exists t :: Hopeless(worlds[|steps|].db, c, t, attempts, answer)
  }

  lemma {:induction false} ClaimsOfPrefix(
      policy: Policy, worlds: seq<World>, steps: seq<Step>, worlds': seq<World>, steps': seq<Step>, c: Id, j: nat)
    requires |worlds| == |steps| + 1 && |worlds'| == |steps'| + 1 && worlds <= worlds' && steps <= steps'
    requires j <= |steps|
    ensures ClaimsOf(policy, worlds', steps', c, j) == ClaimsOf(policy, worlds, steps, c, j)
    decreases j
  {
    if j == 0 {
    } else {
      ClaimsOfPrefix(policy, worlds, steps, worlds', steps', c, j - 1);
    }
  }

  lemma OneMoreFollows(policy: Policy, worlds: seq<World>, steps: seq<Step>, step: Step, next: World)
    requires Follows(policy, worlds, steps) && StepTo(policy, worlds[|steps|], step, next)
    ensures Follows(policy, worlds + [next], steps + [step])
  {
    var worlds', steps' := worlds + [next], steps + [step];
    forall i | 0 <= i < |steps'| ensures StepTo(policy, worlds'[i], steps'[i], worlds'[i + 1]) {
      if i < |steps| {
        assert worlds'[i] == worlds[i] && worlds'[i + 1] == worlds[i + 1] && steps'[i] == steps[i];
      }
    }
  }

  lemma OneMoreClaim(policy: Policy, worlds: seq<World>, steps: seq<Step>, step: Step, next: World, c: Id)
    requires |worlds| == |steps| + 1
    ensures ClaimsOf(policy, worlds + [next], steps + [step], c, |steps| + 1) ==
            ClaimsOf(policy, worlds, steps, c, |steps|) +
            if TakenBy(policy, worlds[|steps|], step, next, c) then 1 else 0
  {
    var worlds', steps' := worlds + [next], steps + [step];
    assert worlds'[|steps|] == worlds[|steps|] && worlds'[|steps| + 1] == next && steps'[|steps|] == step;
    ClaimsOfPrefix(policy, worlds, steps, worlds', steps', c, |steps|);
  }

  lemma OneMoreStop(
      policy: Policy, worlds: seq<World>, steps: seq<Step>, step: Step, next: World, c: Id, answer: Answer)
    requires |worlds| == |steps| + 1 && OnlyStuckStops(policy, worlds, steps, c, answer)
    requires step.Stop? ==> Stuck(policy, worlds[|steps|], c, answer)
    ensures OnlyStuckStops(policy, worlds + [next], steps + [step], c, answer)
  {
    var worlds', steps' := worlds + [next], steps + [step];
    forall k | 0 <= k < |steps'| && steps'[k].Stop? ensures Stuck(policy, worlds'[k], c, answer) {
      if k < |steps| {
        assert worlds'[k] == worlds[k] && steps'[k] == steps[k];
      }
    }
  }

  /** One more step of a run in which only stuck passes stop. */
  lemma OneMoreStep(
      policy: Policy, worlds: seq<World>, steps: seq<Step>, step: Step, next: World, c: Id, answer: Answer)
    returns (worlds': seq<World>, steps': seq<Step>)
    requires Follows(policy, worlds, steps) && OnlyStuckStops(policy, worlds, steps, c, answer)
    requires StepTo(policy, worlds[|steps|], step, next) && (step.Stop? ==> Stuck(policy, worlds[|steps|], c, answer))
    ensures Follows(policy, worlds', steps') && OnlyStuckStops(policy, worlds', steps', c, answer)
    ensures worlds'[0] == worlds[0] && worlds'[|steps'|] == next
    ensures ClaimsOf(policy, worlds', steps', c, |steps'|) ==
            ClaimsOf(policy, worlds, steps, c, |steps|) +
            if TakenBy(policy, worlds[|steps|], step, next, c) then 1 else 0
  {
    worlds', steps' := worlds + [next], steps + [step];
    OneMoreFollows(policy, worlds, steps, step, next);
    OneMoreStop(policy, worlds, steps, step, next, c, answer);
    OneMoreClaim(policy, worlds, steps, step, next, c);
  }

  lemma StoppedOnce(
      policy: Policy, db: Db, c: Id, attempts: nat, answer: Answer, n: nat, worlds: seq<World>, steps: seq<Step>)
    returns (worlds': seq<World>, steps': seq<Step>)
    requires StoppedRun(policy, db, c, attempts, answer, n, worlds, steps)
    requires 0 < policy.batchSize && attempts < policy.maxAttempts
    ensures StoppedRun(policy, db, c, attempts, answer, n + 1, worlds', steps')
  {
    var last := worlds[|steps|];
    var t :| Hopeless(last.db, c, t, attempts, answer);
    assert last == World(last.db, map[]);
    var claimed, fetching := HopelessPass(policy, last.db, c, t, attempts, answer);
    worlds', steps' := OneMoreStep(policy, worlds, steps, Claim(0, t, {}), claimed, c, answer);
    worlds', steps' := OneMoreStep(policy, worlds', steps', Examine(0), fetching, c, answer);
    worlds', steps' := OneMoreStep(policy, worlds', steps', Stop(0), World(fetching.db, map[]), c, answer);
  }

  lemma NoPassYet(policy: Policy, db: Db, c: Id, t: Time, attempts: nat, answer: Answer)
    requires Hopeless(db, c, t, attempts, answer)
    ensures StoppedRun(policy, db, c, attempts, answer, 0, [World(db, map[])], [])
  {
    assert Follows(policy, [World(db, map[])], []) && OnlyStuckStops(policy, [World(db, map[])], [], c, answer);
  }

  lemma {:induction false} StoppedPasses(policy: Policy, db: Db, c: Id, attempts: nat, answer: Answer, n: nat)
    returns (worlds: seq<World>, steps: seq<Step>)
    requires StoppedRun(policy, db, c, attempts, answer, 0, [World(db, map[])], [])
    requires 0 < policy.batchSize && attempts < policy.maxAttempts
    ensures StoppedRun(policy, db, c, attempts, answer, n, worlds, steps)
  {
    if n == 0 {
      worlds, steps := [World(db, map[])], [];
    } else {
      worlds, steps := StoppedPasses(policy, db, c, attempts, answer, n - 1);
      worlds, steps := StoppedOnce(policy, db, c, attempts, answer, n - 1, worlds, steps);
    }
  }

  /**
   Where an answer cannot be stored the bound on the claims fails: a capture that only gets such an
   answer is claimed and fetched as often as one likes, and after every pass it is as hopeless as
   before, with neither an attempt counted nor a report.
   */
  lemma StoppingPassesClaimForever(
      policy: Policy, db: Db, c: Id, t: Time, attempts: nat, answer: Answer, n: nat)
    requires Hopeless(db, c, t, attempts, answer) && 0 < policy.batchSize && attempts < policy.maxAttempts
    ensures exists worlds, steps :: StoppedRun(policy, db, c, attempts, answer, n, worlds, steps)
  {
    NoPassYet(policy, db, c, t, attempts, answer);
    var worlds, steps := StoppedPasses(policy, db, c, attempts, answer, n);
  }
}
