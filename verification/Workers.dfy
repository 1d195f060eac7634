/**
 Any number of overlapping resolver passes over one database.

 A pass works on rows it read when it claimed them, commits one transaction at a time, and may stop
 for good between any two of them. A claim skips the rows another transaction has locked. What the
 provider answers, when passes start, and every other transaction of the service are arbitrary.
 */
module Workers {
  import opened Wrappers
  import opened Archive
  import opened Transactions
  import opened Invariants
  import opened Records
  import opened Schedule
  import Soundness
  import PrivacyDeletion
  import DeletionProperties
  import History

  datatype Policy = Policy(maxAttempts: nat, batchSize: nat)

  const CLAIM_LEASE_SECONDS := 120
  const I32_MAX := 0x7FFF_FFFF

  /** One claimed capture as the claiming query read it. */
  datatype Due = Due(capture: Id, owner: Id, ticket: Ticket, status: CaptureStatus, attempts: nat)

  /** How far a pass is with the first capture of its queue. */
  datatype Phase = Ready | Fetching | Counting | Reporting(terminal: Terminal)

  datatype Worker = Worker(now: Time, queue: seq<Due>, phase: Phase)

  datatype World = World(db: Db, workers: map<Id, Worker>)

  // ----- The claiming query ------------------------------------------------------------------

  /** The `where` clause of the claim. */
  predicate IsDue(captures: map<Id, Capture>, now: Time, c: Id) {
    && c in captures && captures[c].ticket.Some? && !captures[c].reported
    && captures[c].nextAt.Some? && captures[c].nextAt.value <= now
  }

  /** `order by next_resolution_at, capture_id`. */
  predicate Precedes(captures: map<Id, Capture>, c: Id, d: Id)
    requires c in captures && captures[c].nextAt.Some? && d in captures && captures[d].nextAt.Some?
  {
    var t, u := captures[c].nextAt.value, captures[d].nextAt.value;
    t < u || (t == u && c < d)
  }

  /** `order` is the first `limit` due captures that are not `locked`, in the order of the query. */
  ghost predicate IsClaim(captures: map<Id, Capture>, now: Time, limit: nat, locked: set<Id>, order: seq<Id>) {
    && |order| <= limit
    && (forall i :: 0 <= i < |order| ==> IsDue(captures, now, order[i]) && order[i] !in locked)
    && (forall i, j :: 0 <= i < j < |order| ==> Precedes(captures, order[i], order[j]))
    && (forall c :: IsDue(captures, now, c) && c !in locked && c !in order ==>
          |order| == limit && forall i :: 0 <= i < |order| ==> Precedes(captures, order[i], c))
  }

  function Batch(order: seq<Id>): set<Id> {
    set c | c in order
  }

  function Read(captures: map<Id, Capture>, c: Id): Due
    requires c in captures && captures[c].ticket.Some?
  {
    Due(c, captures[c].owner, captures[c].ticket.value, captures[c].status, captures[c].attempts)
  }

  ghost predicate IsRead(captures: map<Id, Capture>, order: seq<Id>, queue: seq<Due>) {
    && |queue| == |order|
    && forall i :: 0 <= i < |order| ==>
         order[i] in captures && captures[order[i]].ticket.Some? && queue[i] == Read(captures, order[i])
  }

  // ----- What an earlier pass recorded -------------------------------------------------------

  predicate IsNewest(tombstones: map<Id, Tombstone>, c: Id, t: Id) {
    && t in tombstones && tombstones[t].capture == Some(c)
    && forall u :: u in tombstones && tombstones[u].capture == Some(c) ==>
         tombstones[u].observedAt < tombstones[t].observedAt ||
           (tombstones[u].observedAt == tombstones[t].observedAt && u <= t)
  }

  predicate NewestSaysDeleted(tombstones: map<Id, Tombstone>, c: Id) {
    exists t :: t in tombstones && IsNewest(tombstones, c, t) && SaysDeleted(tombstones[t], c)
  }

  /** `recorded_terminal`: the outcome an earlier pass already recorded, if any. */
  function RecordedTerminal(policy: Policy, tombstones: map<Id, Tombstone>, due: Due): Option<Terminal> {
    match due.status
    case Resolved => Some(TerminalPreserved)
    case Unavailable =>
      Some(TerminalUnavailable(
        if NewestSaysDeleted(tombstones, due.capture) then SourceDeleted else SourceInaccessible))
    case Failed =>
      Some(TerminalUnavailable(
        if NewestSaysDeleted(tombstones, due.capture) then SourceDeleted else SourceInaccessible))
    case Accepted => if due.attempts >= policy.maxAttempts then Some(TerminalUnavailable(SourceTransient)) else None
  }

  /** The `int4` column counts no further than its largest value. */
  function NextAttempts(attempts: nat): nat {
    if attempts < I32_MAX then attempts + 1 else attempts
  }

  // ----- Steps -------------------------------------------------------------------------------

  datatype Answer = Found(blob: BlobKey, digest: string) | Gone(digest: string) | Refused(digest: string) | Trouble

  datatype Step =
    | Claim(w: Id, now: Time, locked: set<Id>)
    | Examine(w: Id)
    | Answered(w: Id, answer: Answer, at: Time)
    | Count(w: Id)
    | Announce(w: Id)
    | Stop(w: Id)
    | Other(tx: Tx)

  /** The transactions only the resolver runs. */
  predicate Reserved(tx: Tx) {
    tx.ScheduleOf? && !tx.schedule.RecordFailure?
  }

  predicate Busy(world: World, w: Id) {
    w in world.workers && world.workers[w].queue != []
  }

  function Finish(worker: Worker): Worker
    requires worker.queue != []
  {
    worker.(queue := worker.queue[1..], phase := Ready)
  }

  /** What one answer commits and where it leaves the pass. */
  function AnswerTx(c: Id, answer: Answer, at: Time): (Tx, Phase) {
    match answer
    case Found(blob, digest) => (FactOf(Resolve(c, blob, digest, at)), Reporting(TerminalPreserved))
    case Gone(digest) =>
      (FactOf(MarkUnavailable(c, DeletedUpstream, digest, at)),
       Reporting(TerminalUnavailable(SourceDeleted)))
    case Refused(digest) =>
      (FactOf(MarkUnavailable(c, PrivateOrInaccessible, digest, at)),
       Reporting(TerminalUnavailable(SourceInaccessible)))
    case Trouble => (ScheduleOf(RecordFailure(c)), Counting)
  }

  ghost predicate Claimed(
      policy: Policy, world: World, w: Id, now: Time, locked: set<Id>, order: seq<Id>, queue: seq<Due>, next: World) {
    && IsClaim(world.db.intake.captures, now, policy.batchSize, locked, order)
    && IsRead(world.db.intake.captures, order, queue)
    && Committed(world.db, ScheduleOf(Lease(Batch(order), now + CLAIM_LEASE_SECONDS)), next.db)
    && next.workers == world.workers[w := Worker(now, queue, Ready)]
  }

  /** The answer for the capture that is being fetched is stored, and the pass goes on. */
  ghost predicate AnswerTo(world: World, w: Id, answer: Answer, at: Time, next: World) {
    && Busy(world, w) && world.workers[w].phase.Fetching?
    && var worker := world.workers[w];
       var (tx, phase) := AnswerTx(worker.queue[0].capture, answer, at);
       Committed(world.db, tx, next.db) && next.workers == world.workers[w := worker.(phase := phase)]
  }

  ghost predicate StepTo(policy: Policy, world: World, step: Step, next: World) {
    match step
    case Claim(w, now, locked) =>
      !Busy(world, w) && exists order, queue :: Claimed(policy, world, w, now, locked, order, queue, next)
    case Examine(w) =>
      && Busy(world, w) && world.workers[w].phase.Ready? && next.db == world.db
      && var worker := world.workers[w];
         var recorded := RecordedTerminal(policy, world.db.intake.tombstones, worker.queue[0]);
         next.workers == world.workers[w :=
           worker.(phase := if recorded.Some? then Reporting(recorded.value) else Fetching)]
    case Answered(w, answer, at) => AnswerTo(world, w, answer, at, next)
    case Count(w) =>
      && Busy(world, w) && world.workers[w].phase.Counting?
      && var worker := world.workers[w];
         var attempts := NextAttempts(worker.queue[0].attempts);
         && Committed(world.db, ScheduleOf(CountAttempt(worker.queue[0].capture, attempts,
           worker.now + RetryDelay(attempts))), next.db)
         && next.workers == world.workers[w :=
              if attempts >= policy.maxAttempts then worker.(phase := Reporting(TerminalUnavailable(SourceTransient)))
              else Finish(worker)]
    case Announce(w) =>
      && Busy(world, w) && world.workers[w].phase.Reporting?
      && var worker := world.workers[w];
         var due := worker.queue[0];
         && Committed(world.db, ScheduleOf(Report(due.capture, due.owner, due.ticket, worker.phase.terminal)), next.db)
         && next.workers == world.workers[w := Finish(worker)]
    case Stop(w) => next == world.(workers := world.workers - {w})
    case Other(tx) => !Reserved(tx) && Committed(world.db, tx, next.db) && next.workers == world.workers
  }

  // ----- The invariant -----------------------------------------------------------------------

  /** No capture counts more attempts than `maxAttempts` or than there are failures on record. */
  ghost predicate Counts(policy: Policy, intake: Intake) {
    forall c :: c in intake.captures ==>
      intake.captures[c].attempts <= policy.maxAttempts && intake.captures[c].attempts <= Failures(intake, c)
  }

  /** What a pass remembers of a capture was true of it, and still is as far as evidence goes. */
  ghost predicate Remembers(policy: Policy, intake: Intake, minted: Id, due: Due) {
    && due.capture < minted
    && due.attempts <= policy.maxAttempts
    && (due.capture in intake.captures ==>
          && due.attempts <= Failures(intake, due.capture)
          && due.owner == intake.captures[due.capture].owner
          && Some(due.ticket) == intake.captures[due.capture].ticket)
  }

  /** A pass only fetches below the limit, and only reports what is on record. */
  ghost predicate Backed(policy: Policy, intake: Intake, due: Due, phase: Phase) {
    match phase
    case Ready => true
    case Fetching => due.attempts < policy.maxAttempts
    case Counting =>
      && due.attempts < policy.maxAttempts
      && (due.capture in intake.captures ==> due.attempts + 1 <= Failures(intake, due.capture))
    case Reporting(terminal) =>
      due.capture in intake.captures ==>
        && (terminal == TerminalUnavailable(SourceTransient) ==> policy.maxAttempts <= Failures(intake, due.capture))
        && (terminal == TerminalUnavailable(SourceDeleted) ==> DeletionSeen(intake.tombstones, due.capture))
  }

  ghost predicate WorkerInv(policy: Policy, intake: Intake, minted: Id, worker: Worker) {
    && (forall i :: 0 <= i < |worker.queue| ==> Remembers(policy, intake, minted, worker.queue[i]))
    && (worker.queue != [] ==> Backed(policy, intake, worker.queue[0], worker.phase))
  }

  ghost predicate WorkersInv(policy: Policy, world: World) {
    forall w :: w in world.workers ==> WorkerInv(policy, world.db.intake, world.db.minted, world.workers[w])
  }

  /** What the counts and the passes know. */
  ghost predicate Tally(policy: Policy, world: World) {
    Counts(policy, world.db.intake) && WorkersInv(policy, world)
  }

  ghost predicate Inv(policy: Policy, world: World) {
    Sound(world.db) && Told(world.db) && Tally(policy, world)
  }

  // ----- Every step keeps it -----------------------------------------------------------------

  lemma WorkerOnward(policy: Policy, before: Intake, minted: Id, after: Intake, minted': Id, worker: Worker)
    requires WorkerInv(policy, before, minted, worker)
    requires Onward(before, after, minted) && minted <= minted'
    ensures WorkerInv(policy, after, minted', worker)
  {
    forall i | 0 <= i < |worker.queue|
      ensures worker.queue[i].capture in after.captures ==>
                worker.queue[i].capture in before.captures && Carried(before, after, worker.queue[i].capture) &&
                Failures(before, worker.queue[i].capture) <= Failures(after, worker.queue[i].capture)
    {
      assert Remembers(policy, before, minted, worker.queue[i]);
      if worker.queue[i].capture in after.captures {
        OnwardRecords(before, after, minted, worker.queue[i].capture);
      }
    }
  }

  lemma WorkersOnward(policy: Policy, before: Intake, minted: Id, after: Intake, minted': Id, workers: map<Id, Worker>)
    requires forall w :: w in workers ==> WorkerInv(policy, before, minted, workers[w])
    requires Onward(before, after, minted) && minted <= minted'
    ensures forall w :: w in workers ==> WorkerInv(policy, after, minted', workers[w])
  {
    forall w | w in workers ensures WorkerInv(policy, after, minted', workers[w]) {
      WorkerOnward(policy, before, minted, after, minted', workers[w]);
    }
  }

  /** Every transaction but the resolver's own count leaves the counts of stored captures alone. */
  ghost predicate SameAttempts(before: map<Id, Capture>, after: map<Id, Capture>) {
    forall c :: c in after ==> after[c].attempts == if c in before then before[c].attempts else 0
  }

  lemma CountsOnward(policy: Policy, before: Intake, after: Intake, minted: Id)
    requires Counts(policy, before) && SameAttempts(before.captures, after.captures)
    requires Onward(before, after, minted) && (forall c :: c in before.captures ==> c < minted)
    ensures Counts(policy, after)
  {
    forall c | c in after.captures ensures after.captures[c].attempts <= Failures(after, c) {
      if c in before.captures {
        OnwardRecords(before, after, minted, c);
      }
    }
  }

  /** No capture comes or goes, and of its row only status and post change. */
  ghost predicate OutcomesOnly(before: map<Id, Capture>, after: map<Id, Capture>) {
    && after.Keys == before.Keys
    && forall c :: c in before ==> after[c] == before[c].(status := after[c].status, post := after[c].post)
  }

  lemma FactOutcomesOnly(db: Db, tx: FactTx, after: Db)
    requires FactCommitted(db, tx, after)
    ensures OutcomesOnly(db.intake.captures, after.intake.captures)
  {
    match tx
    case Resolve(capture, blob, digest, now) =>
      var p, content, mid :| ObservationStored(db, capture, blob, p, content, mid) &&
        Published(mid, Origin(mid.intake.captures[capture].owner, p, Some(capture)), digest, now, after);
      ObservationOutcomesOnly(db, capture, blob, p, content, mid);
      PublishedKeepsIntake(mid, Origin(mid.intake.captures[capture].owner, p, Some(capture)), digest, now, after);
    case MarkUnavailable(capture, availability, digest, now) =>
      MarkLeaves(db, capture, availability, digest, now, after);
    case Publish(origin, digest, now) => PublishedKeepsIntake(db, origin, digest, now, after);
  }

  lemma ObservationOutcomesOnly(db: Db, capture: Id, blob: BlobKey, p: Id, content: Content, mid: Db)
    requires ObservationStored(db, capture, blob, p, content, mid)
    ensures OutcomesOnly(db.intake.captures, mid.intake.captures)
  {
  }

  lemma MarkLeaves(db: Db, capture: Id, availability: Availability, digest: string, now: Time, after: Db)
    requires Marked(db, capture, availability, digest, now, after)
    ensures after.intake == MarkedOnly(db, capture, availability, now).intake
  {
    var row := db.intake.captures[capture];
    if row.post.Some? {
      PublishedKeepsIntake(MarkedOnly(db, capture, availability, now), Origin(row.owner, row.post.value, Some(capture)),
                           digest, now, after);
    }
  }

  lemma DeleteSameAttempts(db: Db, request: PrivacyDeletion.Request, after: Db)
    requires DeleteCommitted(db, request, after)
    ensures SameAttempts(db.intake.captures, after.intake.captures)
  {
    var result :| PrivacyDeletion.Applied(db, request, result, after);
    if result == Success(true) {
      var noted := db.(deletions := db.deletions[request.operation := (request.owner, request.target)]);
      var order :| PrivacyDeletion.IsDeletion(noted, request, order, after);
      DeletionProperties.NetEffectHolds(noted, request, order, after);
    }
  }

  lemma IntakeSameAttempts(db: Db, tx: IntakeTx, after: Db)
    requires FreshIntake(db.intake, db.minted) && IntakeCommitted(db, tx, after)
    ensures SameAttempts(db.intake.captures, after.intake.captures)
  {
  }

  lemma ScheduleSameAttempts(db: Db, tx: ScheduleTx, after: Db)
    requires ScheduleCommitted(db, tx, after) && !tx.CountAttempt?
    ensures SameAttempts(db.intake.captures, after.intake.captures)
  {
  }

  lemma StoreSameIntake(db: Db, tx: StoreTx, after: Db)
    requires StoreCommitted(db, tx, after)
    ensures after.intake == db.intake
  {
  }

  lemma CommitSameAttempts(db: Db, tx: Tx, after: Db)
    requires FreshIntake(db.intake, db.minted) && Committed(db, tx, after)
    requires !(tx.ScheduleOf? && tx.schedule.CountAttempt?)
    ensures SameAttempts(db.intake.captures, after.intake.captures)
  {
    match tx
    case IntakeOf(intake) => IntakeSameAttempts(db, intake, after);
    case ScheduleOf(schedule) => ScheduleSameAttempts(db, schedule, after);
    case FactOf(fact) => FactOutcomesOnly(db, fact, after);
    case StoreOf(store) => StoreSameIntake(db, store, after);
    case Delete(request) => DeleteSameAttempts(db, request, after);
    case _ =>
  }

  // ----- The steps of a pass -----------------------------------------------------------------

  lemma ClaimRemembers(policy: Policy, intake: Intake, minted: Id, order: seq<Id>, queue: seq<Due>, now: Time)
    requires Counts(policy, intake) && FreshIntake(intake, minted) && IsRead(intake.captures, order, queue)
    ensures WorkerInv(policy, intake, minted, Worker(now, queue, Ready))
  {
    forall i | 0 <= i < |queue| ensures Remembers(policy, intake, minted, queue[i]) {
      assert order[i] in intake.captures;
    }
  }

  lemma ExamineIsBacked(policy: Policy, intake: Intake, minted: Id, due: Due)
    requires Remembers(policy, intake, minted, due)
    ensures var recorded := RecordedTerminal(policy, intake.tombstones, due);
            Backed(policy, intake, due, if recorded.Some? then Reporting(recorded.value) else Fetching)
  {
  }

  lemma FailureCounts(db: Db, capture: Id, after: Db)
    requires FreshIntake(db.intake, db.minted) && FailureStored(db, capture, after)
    ensures Failures(after.intake, capture) == Failures(db.intake, capture) + 1
  {
    assert FailureRows(after.intake.resolutions, capture) == FailureRows(db.intake.resolutions, capture) + {db.minted};
  }

  lemma AnswerIsBacked(policy: Policy, db: Db, due: Due, answer: Answer, at: Time, after: Db)
    requires FreshIntake(db.intake, db.minted) && Remembers(policy, db.intake, db.minted, due)
    requires due.attempts < policy.maxAttempts
    requires Committed(db, AnswerTx(due.capture, answer, at).0, after)
    ensures Backed(policy, after.intake, due, AnswerTx(due.capture, answer, at).1)
  {
    match answer
    case Found(_, _) =>
    case Gone(digest) =>
      MarkLeaves(db, due.capture, DeletedUpstream, digest, at, after);
      assert SaysDeleted(after.intake.tombstones[db.minted], due.capture);
    case Refused(_) =>
    case Trouble => FailureCounts(db, due.capture, after);
  }

  lemma CountKeepsCounts(policy: Policy, intake: Intake, due: Due, at: Time)
    requires Counts(policy, intake) && Backed(policy, intake, due, Counting)
    ensures Counts(policy, intake.(captures := Counted(intake.captures, due.capture, NextAttempts(due.attempts), at)))
    ensures NextAttempts(due.attempts) >= policy.maxAttempts ==>
              Backed(policy, intake, due, Reporting(TerminalUnavailable(SourceTransient)))
  {
    var after := intake.(captures := Counted(intake.captures, due.capture, NextAttempts(due.attempts), at));
    forall c | c in after.captures ensures after.captures[c].attempts <= Failures(after, c) {
      assert Failures(after, c) == Failures(intake, c);
    }
  }

  predicate IsCount(tx: Tx) {
    tx.ScheduleOf? && tx.schedule.CountAttempt?
  }

  lemma CommitKeepsCounts(policy: Policy, db: Db, tx: Tx, after: Db)
    requires FreshIntake(db.intake, db.minted) && Onward(db.intake, after.intake, db.minted)
    requires Counts(policy, db.intake) && Committed(db, tx, after) && !IsCount(tx)
    ensures Counts(policy, after.intake)
  {
    CommitSameAttempts(db, tx, after);
    CountsOnward(policy, db.intake, after.intake, db.minted);
  }

  lemma WorkerMoves(policy: Policy, intake: Intake, minted: Id, worker: Worker, phase: Phase)
    requires WorkerInv(policy, intake, minted, worker) && worker.queue != []
    ensures WorkerInv(policy, intake, minted, Finish(worker))
    ensures Backed(policy, intake, worker.queue[0], phase) ==>
            WorkerInv(policy, intake, minted, worker.(phase := phase))
  {
  }

  /** The step leaves a database that goes on from the one it found. */
  ghost predicate GoesOn(world: World, next: World) {
    && FreshIntake(world.db.intake, world.db.minted)
    && Onward(world.db.intake, next.db.intake, world.db.minted)
    && world.db.minted <= next.db.minted
  }

  lemma ClaimKeepsTally(
    policy: Policy, world: World, w: Id, now: Time, locked: set<Id>, order: seq<Id>, queue: seq<Due>, next: World)
    requires Tally(policy, world) && GoesOn(world, next) && Claimed(policy, world, w, now, locked, order, queue, next)
    ensures Tally(policy, next)
  {
    CommitKeepsCounts(policy, world.db, ScheduleOf(Lease(Batch(order), now + CLAIM_LEASE_SECONDS)), next.db);
    ClaimRemembers(policy, world.db.intake, world.db.minted, order, queue, now);
    WorkersOnward(policy, world.db.intake, world.db.minted, next.db.intake, next.db.minted, next.workers);
  }

  lemma ExamineKeepsTally(policy: Policy, world: World, w: Id, next: World)
    requires Tally(policy, world) && StepTo(policy, world, Examine(w), next)
    ensures Tally(policy, next)
  {
    var worker := world.workers[w];
    assert Remembers(policy, world.db.intake, world.db.minted, worker.queue[0]);
    ExamineIsBacked(policy, world.db.intake, world.db.minted, worker.queue[0]);
    WorkerMoves(policy, world.db.intake, world.db.minted, worker, next.workers[w].phase);
  }

  lemma AnswerKeepsTally(policy: Policy, world: World, w: Id, answer: Answer, at: Time, next: World)
    requires Tally(policy, world) && GoesOn(world, next) && StepTo(policy, world, Answered(w, answer, at), next)
    ensures Tally(policy, next)
  {
    var worker := world.workers[w];
    var (tx, phase) := AnswerTx(worker.queue[0].capture, answer, at);
    assert WorkerInv(policy, world.db.intake, world.db.minted, worker);
    AnswerIsBacked(policy, world.db, worker.queue[0], answer, at, next.db);
    CommitKeepsCounts(policy, world.db, tx, next.db);
    WorkersOnward(policy, world.db.intake, world.db.minted, next.db.intake, next.db.minted, world.workers);
    WorkerMoves(policy, next.db.intake, next.db.minted, worker, phase);
  }

  lemma CountKeepsTally(policy: Policy, world: World, w: Id, next: World)
    requires Tally(policy, world) && GoesOn(world, next) && StepTo(policy, world, Count(w), next)
    ensures Tally(policy, next)
  {
    var worker := world.workers[w];
    var due := worker.queue[0];
    assert Backed(policy, world.db.intake, due, Counting);
    CountKeepsCounts(policy, world.db.intake, due, worker.now + RetryDelay(NextAttempts(due.attempts)));
    WorkersOnward(policy, world.db.intake, world.db.minted, next.db.intake, next.db.minted, world.workers);
    WorkerMoves(policy, next.db.intake, next.db.minted, worker, Reporting(TerminalUnavailable(SourceTransient)));
  }

  lemma AnnounceKeepsTally(policy: Policy, world: World, w: Id, next: World)
    requires Tally(policy, world) && GoesOn(world, next) && StepTo(policy, world, Announce(w), next)
    ensures Tally(policy, next)
  {
    var worker := world.workers[w];
    var due := worker.queue[0];
    CommitKeepsCounts(policy, world.db, ScheduleOf(Report(due.capture, due.owner, due.ticket, worker.phase.terminal)),
      next.db);
    WorkersOnward(policy, world.db.intake, world.db.minted, next.db.intake, next.db.minted, world.workers);
    WorkerMoves(policy, next.db.intake, next.db.minted, worker, Ready);
  }

  lemma OtherKeepsTally(policy: Policy, world: World, tx: Tx, next: World)
    requires Tally(policy, world) && GoesOn(world, next) && StepTo(policy, world, Other(tx), next)
    ensures Tally(policy, next)
  {
    CommitKeepsCounts(policy, world.db, tx, next.db);
    WorkersOnward(policy, world.db.intake, world.db.minted, next.db.intake, next.db.minted, world.workers);
  }

  lemma StepKeepsTally(policy: Policy, world: World, step: Step, next: World)
    requires Tally(policy, world) && GoesOn(world, next) && StepTo(policy, world, step, next)
    ensures Tally(policy, next)
  {
    match step
    case Claim(w, now, locked) =>
      var order, queue :| Claimed(policy, world, w, now, locked, order, queue, next);
      ClaimKeepsTally(policy, world, w, now, locked, order, queue, next);
    case Examine(w) => ExamineKeepsTally(policy, world, w, next);
    case Answered(w, answer, at) => AnswerKeepsTally(policy, world, w, answer, at, next);
    case Count(w) => CountKeepsTally(policy, world, w, next);
    case Announce(w) => AnnounceKeepsTally(policy, world, w, next);
    case Stop(w) =>
    case Other(tx) => OtherKeepsTally(policy, world, tx, next);
  }

  /** A step commits one transaction of the service, or none. */
  lemma StepCommits(policy: Policy, world: World, step: Step, next: World)
    requires StepTo(policy, world, step, next)
    ensures next.db == world.db || exists tx :: Committed(world.db, tx, next.db)
  {
    match step
    case Claim(w, now, locked) =>
      var order, queue :| Claimed(policy, world, w, now, locked, order, queue, next);
    case _ =>
  }

  lemma StepGoesOn(policy: Policy, world: World, step: Step, next: World)
    requires Sound(world.db) && StepTo(policy, world, step, next)
    ensures GoesOn(world, next)
  {
    StepCommits(policy, world, step, next);
    if next.db == world.db {
      ExtendsOnward(world.db.intake, next.db.intake, world.db.minted);
    } else {
      var tx :| Committed(world.db, tx, next.db);
      CommitOnward(world.db, tx, next.db);
    }
  }

  lemma StepKeepsInv(policy: Policy, world: World, step: Step, next: World)
    requires Inv(policy, world) && StepTo(policy, world, step, next)
    ensures Inv(policy, next)
  {
    StepGoesOn(policy, world, step, next);
    StepKeepsTally(policy, world, step, next);
    StepCommits(policy, world, step, next);
    if next.db != world.db {
      var tx :| Committed(world.db, tx, next.db);
      Soundness.CommitKeepsSound(world.db, tx, next.db);
      History.CommitKeepsTold(world.db, tx, next.db);
    }
  }
}
