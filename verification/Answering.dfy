/** One resolver that does not stop answers every capture it claims after at most `maxAttempts` claims. */
module Answering {
  import opened Archive
  import opened EventLog
  import opened Transactions
  import opened Invariants
  import opened Records
  import opened Workers
  import opened Runs
  import opened Scheduling

  /** The resolver `w` is the only one and never stops. */
  predicate Alone(step: Step, w: Id) {
    match step
    case Stop(_) => false
    case Other(_) => true
    case _ => step.w == w
  }

  /** The claimed captures the resolver still has to work on. */
  function QueueOf(world: World, w: Id): seq<Due> {
    if w in world.workers then world.workers[w].queue else []
  }

  ghost predicate NoCaptureTwice(queue: seq<Due>) {
    forall i, j :: 0 <= i < j < |queue| ==> queue[i].capture != queue[j].capture
  }

  ghost predicate InQueue(queue: seq<Due>, c: Id) {
    exists i :: 0 <= i < |queue| && queue[i].capture == c
  }

  /** The resolver is about to answer `c`. */
  ghost predicate AtReport(world: World, w: Id, c: Id) {
    Busy(world, w) && world.workers[w].queue[0].capture == c && world.workers[w].phase.Reporting?
  }

  /** What `n` claims of an unanswered capture leave: as many attempts, or one fewer while it is being worked on. */
  ghost predicate Paced(policy: Policy, world: World, w: Id, c: Id, n: nat) {
    var captures, queue := world.db.intake.captures, QueueOf(world, w);
    && n <= policy.maxAttempts && NoCaptureTwice(queue)
    && (c in captures && !captures[c].reported && !AtReport(world, w, c) ==>
          if InQueue(queue, c) then
            captures[c].attempts + 1 == n &&
            forall i :: 0 <= i < |queue| && queue[i].capture == c ==> queue[i].attempts == captures[c].attempts
          else captures[c].attempts == n && n < policy.maxAttempts)
    && (world.db.minted <= c ==> n == 0)
    && (forall i :: 0 <= i < |queue| ==> queue[i].capture < world.db.minted)
  }

  lemma ClaimPaced(
      policy: Policy, world: World, w: Id, now: Time, locked: set<Id>, order: seq<Id>, queue: seq<Due>, next: World,
                   c: Id, n: nat)
    requires !Busy(world, w) && Claimed(policy, world, w, now, locked, order, queue, next)
    requires Paced(policy, world, w, c, n) && FreshIntake(world.db.intake, world.db.minted)
    ensures Paced(policy, next, w, c, if c in order then n + 1 else n)
  {
    var before, after := world.db.intake.captures, next.db.intake.captures;
    assert QueueOf(next, w) == queue;
    assert forall i :: 0 <= i < |queue| ==>
      queue[i].capture == order[i] && order[i] in before && order[i] < world.db.minted;
    assert InQueue(queue, c) <==> c in order;
    assert NoCaptureTwice(queue);
  }

  /** A step that keeps guards and counts of stored captures and leaves the queue alone. */
  lemma QuietPaced(policy: Policy, world: World, next: World, w: Id, c: Id, n: nat)
    requires Paced(policy, world, w, c, n) && GoesOn(world, next) && 0 < policy.maxAttempts
    requires SameAttempts(world.db.intake.captures, next.db.intake.captures)
    requires QueueOf(next, w) == QueueOf(world, w)
    requires AtReport(world, w, c) ==> AtReport(next, w, c)
    ensures Paced(policy, next, w, c, n)
  {
    var before, after := world.db.intake.captures, next.db.intake.captures;
    if c in after && c in before && c < world.db.minted {
      assert Carried(world.db.intake, next.db.intake, c);
    }
  }

  lemma CountPaced(policy: Policy, world: World, next: World, w: Id, c: Id, n: nat)
    requires Paced(policy, world, w, c, n) && StepTo(policy, world, Count(w), next)
    requires policy.maxAttempts <= I32_MAX && (forall d :: d in world.db.intake.captures ==> d < world.db.minted)
    requires world.workers[w].queue[0].attempts < policy.maxAttempts
    ensures Paced(policy, next, w, c, n)
  {
    var queue, after := QueueOf(world, w), QueueOf(next, w);
    if after != queue {
      assert after == queue[1..];
      assert forall i :: 0 <= i < |after| ==> after[i] == queue[i + 1];
      PoppedQueue(queue, c);
    }
  }

  lemma PoppedQueue(queue: seq<Due>, c: Id)
    requires queue != [] && NoCaptureTwice(queue)
    ensures NoCaptureTwice(queue[1..])
    ensures queue[0].capture == c ==> !InQueue(queue[1..], c)
    ensures queue[0].capture != c ==> (InQueue(queue[1..], c) <==> InQueue(queue, c))
  {
    var rest := queue[1..];
    assert forall i :: 0 <= i < |rest| ==> rest[i] == queue[i + 1];
    if queue[0].capture != c && InQueue(queue, c) {
      var i :| 0 <= i < |queue| && queue[i].capture == c;
      assert rest[i - 1].capture == c;
    }
  }

  lemma AnnouncePaced(policy: Policy, world: World, next: World, w: Id, c: Id, n: nat)
    requires Paced(policy, world, w, c, n) && StepTo(policy, world, Announce(w), next)
    requires forall d :: d in world.db.intake.captures ==> d < world.db.minted
    ensures Paced(policy, next, w, c, n)
  {
    var queue, after := QueueOf(world, w), QueueOf(next, w);
    assert after == queue[1..];
    assert forall i :: 0 <= i < |after| ==> after[i] == queue[i + 1];
    PoppedQueue(queue, c);
  }

  lemma StepPaced(policy: Policy, world: World, step: Step, next: World, w: Id, c: Id, n: nat)
    requires Tally(policy, world) && GoesOn(world, next) && StepTo(policy, world, step, next) && Alone(step, w)
    requires 1 <= policy.maxAttempts <= I32_MAX && Paced(policy, world, w, c, n)
    ensures Paced(policy, next, w, c, if TakenBy(policy, world, step, next, c) then n + 1 else n)
  {
    match step
    case Claim(_, now, locked) =>
      if TakenBy(policy, world, step, next, c) {
        var order, queue :| Claimed(policy, world, w, now, locked, order, queue, next) && c in order;
        ClaimPaced(policy, world, w, now, locked, order, queue, next, c, n);
      } else {
        var order, queue :| Claimed(policy, world, w, now, locked, order, queue, next);
        ClaimPaced(policy, world, w, now, locked, order, queue, next, c, n);
      }
    case Examine(_) => QuietPaced(policy, world, next, w, c, n);
    case Answered(_, answer, at) =>
      CommitSameAttempts(world.db, AnswerTx(world.workers[w].queue[0].capture, answer, at).0, next.db);
      QuietPaced(policy, world, next, w, c, n);
    case Count(_) =>
      assert Backed(policy, world.db.intake, world.workers[w].queue[0], Counting);
      CountPaced(policy, world, next, w, c, n);
    case Announce(_) => AnnouncePaced(policy, world, next, w, c, n);
    case Other(tx) =>
      CommitSameAttempts(world.db, tx, next.db);
      QuietPaced(policy, world, next, w, c, n);
  }

  /** How many of the first `j` steps claimed the capture `c`. */
  ghost function ClaimsOf(policy: Policy, worlds: seq<World>, steps: seq<Step>, c: Id, j: nat): nat
    requires |worlds| == |steps| + 1 && j <= |steps|
  {
    if j == 0 then 0
    else ClaimsOf(policy, worlds, steps, c, j - 1) + if TakenAt(policy, worlds, steps, j - 1, c) then 1 else 0
  }

  ghost predicate KeepsPace(policy: Policy, worlds: seq<World>, steps: seq<Step>, w: Id, c: Id, k: nat)
    requires |worlds| == |steps| + 1 && k < |steps|
  {
    forall n: nat :: Paced(policy, worlds[k], w, c, n) ==>
      Paced(policy, worlds[k + 1], w, c, if TakenAt(policy, worlds, steps, k, c) then n + 1 else n)
  }

  lemma RunKeepsPace(policy: Policy, worlds: seq<World>, steps: seq<Step>, w: Id, c: Id, k: nat)
    requires IsRun(policy, worlds, steps) && k < |steps| && 1 <= policy.maxAttempts <= I32_MAX && Alone(steps[k], w)
    ensures KeepsPace(policy, worlds, steps, w, c, k)
  {
    RunStep(policy, worlds, steps, k);
    var before, next := worlds[k], worlds[k + 1];
    forall n: nat | Paced(policy, before, w, c, n)
      ensures Paced(policy, next, w, c, if TakenBy(policy, before, steps[k], next, c) then n + 1 else n)
    {
      StepPaced(policy, before, steps[k], next, w, c, n);
    }
  }

  lemma {:induction false} PaceKept(policy: Policy, worlds: seq<World>, steps: seq<Step>, w: Id, c: Id, j: nat)
    requires |worlds| == |steps| + 1 && j < |worlds| && Paced(policy, worlds[0], w, c, 0)
    requires forall k: nat :: k < |steps| ==> KeepsPace(policy, worlds, steps, w, c, k)
    ensures Paced(policy, worlds[j], w, c, ClaimsOf(policy, worlds, steps, c, j))
  {
    if j == 0 {
    } else {
      PaceKept(policy, worlds, steps, w, c, j - 1);
      assert KeepsPace(policy, worlds, steps, w, c, j - 1);
    }
  }

  lemma RunPaced(policy: Policy, worlds: seq<World>, steps: seq<Step>, w: Id, c: Id, j: nat)
    requires IsRun(policy, worlds, steps) && j < |worlds| && 1 <= policy.maxAttempts <= I32_MAX
    requires forall k :: 0 <= k < |steps| ==> Alone(steps[k], w)
    ensures Paced(policy, worlds[j], w, c, ClaimsOf(policy, worlds, steps, c, j))
  {
    forall k: nat | k < |steps| ensures KeepsPace(policy, worlds, steps, w, c, k) {
      RunKeepsPace(policy, worlds, steps, w, c, k);
    }
    PaceKept(policy, worlds, steps, w, c, j);
  }

  /**
   As long as every answer can commit, so that the resolver never has to stop, no capture is claimed
   more than `maxAttempts` times, whatever the answers are, and once it was and the resolver is done
   with it, it is answered or was deleted. `Committing.AnswerCommitsIff` says which answers can.
   */
  lemma AnsweredInTime(policy: Policy, worlds: seq<World>, steps: seq<Step>, w: Id, c: Id, j: nat)
    requires IsRun(policy, worlds, steps) && j < |worlds| && 1 <= policy.maxAttempts <= I32_MAX
    requires forall k :: 0 <= k < |steps| ==> Alone(steps[k], w)
    ensures ClaimsOf(policy, worlds, steps, c, j) <= policy.maxAttempts
    ensures ClaimsOf(policy, worlds, steps, c, j) == policy.maxAttempts && !InQueue(QueueOf(worlds[j], w), c) ==>
              c !in worlds[j].db.intake.captures || worlds[j].db.intake.captures[c].reported
  {
    RunPaced(policy, worlds, steps, w, c, j);
  }

  // ----- A limit the counter cannot reach ----------------------------------------------------

  /** Nothing counts beyond the largest `int4`. */
  ghost predicate Capped(world: World) {
    && (forall c :: c in world.db.intake.captures ==> world.db.intake.captures[c].attempts <= I32_MAX)
    && forall w :: w in world.workers ==> CappedQueue(world.workers[w].queue)
  }

  ghost predicate CappedQueue(queue: seq<Due>) {
    forall i :: 0 <= i < |queue| ==> queue[i].attempts <= I32_MAX
  }

  /** No pass is about to give up. */
  ghost predicate NeverTired(workers: map<Id, Worker>) {
    forall w :: w in workers ==> workers[w].phase != Reporting(TerminalUnavailable(SourceTransient))
  }

  lemma StepStaysCapped(policy: Policy, world: World, step: Step, next: World)
    requires FreshIntake(world.db.intake, world.db.minted) && StepTo(policy, world, step, next) && Capped(world)
    ensures Capped(next)
  {
    match step
    case Claim(w, now, locked) =>
      var order, queue :| Claimed(policy, world, w, now, locked, order, queue, next);
    case Answered(w, answer, at) =>
      CommitSameAttempts(world.db, AnswerTx(world.workers[w].queue[0].capture, answer, at).0, next.db);
    case Other(tx) => CommitSameAttempts(world.db, tx, next.db);
    case _ =>
  }

  lemma StepNeverTired(policy: Policy, world: World, step: Step, next: World)
    requires StepTo(policy, world, step, next) && I32_MAX < policy.maxAttempts && Capped(world)
    requires NeverTired(world.workers)
    ensures NeverTired(next.workers)
  {
    match step
    case Claim(w, now, locked) =>
      var order, queue :| Claimed(policy, world, w, now, locked, order, queue, next);
    case Examine(w) => assert world.workers[w].queue[0].attempts <= I32_MAX;
    case Count(w) => assert world.workers[w].queue[0].attempts <= I32_MAX;
    case _ =>
  }

  ghost predicate TirelessAt(worlds: seq<World>, k: nat)
    requires k < |worlds|
  {
    Capped(worlds[k]) && NeverTired(worlds[k].workers)
  }

  ghost predicate StaysTirelessAt(worlds: seq<World>, k: nat)
    requires k + 1 < |worlds|
  {
    TirelessAt(worlds, k) ==> TirelessAt(worlds, k + 1)
  }

  lemma StepStaysTireless(policy: Policy, worlds: seq<World>, steps: seq<Step>, k: nat)
    requires IsRun(policy, worlds, steps) && k < |steps| && I32_MAX < policy.maxAttempts
    ensures StaysTirelessAt(worlds, k)
  {
    if TirelessAt(worlds, k) {
      RunStep(policy, worlds, steps, k);
      StepStaysCapped(policy, worlds[k], steps[k], worlds[k + 1]);
      StepNeverTired(policy, worlds[k], steps[k], worlds[k + 1]);
    }
  }

  lemma {:induction false} TirelessThroughout(worlds: seq<World>, i: nat)
    requires i < |worlds| && TirelessAt(worlds, 0)
    requires forall k: nat :: k + 1 < |worlds| ==> StaysTirelessAt(worlds, k)
    ensures TirelessAt(worlds, i)
  {
    if i == 0 {
    } else {
      TirelessThroughout(worlds, i - 1);
      assert StaysTirelessAt(worlds, i - 1);
    }
  }

  lemma RunNeverTired(policy: Policy, worlds: seq<World>, steps: seq<Step>, i: nat)
    requires IsRun(policy, worlds, steps) && i < |worlds| && I32_MAX < policy.maxAttempts
    ensures Capped(worlds[i]) && NeverTired(worlds[i].workers)
  {
    forall k: nat | k + 1 < |worlds| ensures StaysTirelessAt(worlds, k) {
      StepStaysTireless(policy, worlds, steps, k);
    }
    TirelessThroughout(worlds, i);
    assert TirelessAt(worlds, i);
  }

  /**
   With a limit beyond the largest `int4` the counter never reaches it: no step of any run ever
   reports a retryable failure, so a capture whose every attempt fails is never answered.
   */
  lemma UnreachableLimitNeverAnswers(
      policy: Policy, worlds: seq<World>, steps: seq<Step>, i: nat, c: Id, outcome: TerminalOutcome)
    requires IsRun(policy, worlds, steps) && i < |steps| && I32_MAX < policy.maxAttempts
    requires Terminals(worlds[i + 1].db.outbox.log, c) != Terminals(worlds[i].db.outbox.log, c)
    requires Answers(policy, worlds[i], worlds[i + 1], c, outcome)
    ensures outcome != NotPreserved(SourceTransient)
  {
    AnswersAreOnRecord(policy, worlds, steps, i, c);
    RunNeverTired(policy, worlds, steps, i);
    AnnouncesItsTerminal(policy, worlds[i], steps[i].w, worlds[i + 1], c, outcome);
  }

  lemma AnnouncesItsTerminal(policy: Policy, world: World, w: Id, next: World, c: Id, outcome: TerminalOutcome)
    requires StepTo(policy, world, Announce(w), next) && Answers(policy, world, next, c, outcome)
    ensures outcome == NotPreserved(SourceTransient) ==>
            world.workers[w].phase.terminal == TerminalUnavailable(SourceTransient)
  {
    var due, log := world.workers[w].queue[0], world.db.outbox.log;
    assert next.db.outbox.log[|log|].body.outcome == outcome;
    assert due.capture in world.db.intake.captures && !world.db.intake.captures[due.capture].reported;
    var stored :|
      ReportStored(world.db, due.capture, due.owner, due.ticket, world.workers[w].phase.terminal, stored, next.db);
    assert next.db.outbox.log[|log|].body.outcome == stored;
  }
}
