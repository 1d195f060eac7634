/**
 The capture resolver itself: classification, the claim, one attempt, the report, and one pass over
 the due captures.
 */
module CaptureResolution {
  import opened Wrappers
  import opened Archive
  import opened Transactions
  import Effects
  import opened Invariants
  import opened Workers
  import opened Records
  import opened Runs
  import opened Schedule
  import opened Stores
  import opened Publishing
  import opened Selection
  import ReplyStore

  // ----- Classification ----------------------------------------------------------------------

  datatype Fault =
    | ProviderStatus(status: nat)
    | Network | ResponseTooLarge
    | InvalidJson | MissingField | WrongProvider | PermalinkMismatch | UnexpectedContentType
    | RelationSourceMismatch | TooManyRelations | RelationGraph
    | UnsupportedEndpoint | RawStorage | RawDigestMismatch | PersistenceFault

  datatype Verdict = VerdictDeleted | VerdictInaccessible | VerdictTransient

  predicate IsClientError(status: nat) {
    400 <= status < 500
  }

  /**
   Not Found and Gone are deletions; Request Timeout, Too Many Requests and everything but a client
   error is retried.
   */
  function ClassifyStatus(status: nat): Verdict {
    if status == 404 || status == 410 then VerdictDeleted
    else if status == 408 || status == 429 || !IsClientError(status) then VerdictTransient
    else VerdictInaccessible
  }

  function Classify(fault: Fault): Verdict {
    match fault
    case ProviderStatus(status) => ClassifyStatus(status)
    case Network => VerdictTransient
    case ResponseTooLarge => VerdictTransient
    case UnsupportedEndpoint => VerdictTransient
    case RawStorage => VerdictTransient
    case RawDigestMismatch => VerdictTransient
    case PersistenceFault => VerdictTransient
    case _ => VerdictInaccessible
  }

  /** A failure of this service's own storage or configuration: no evidence about the post. */
  predicate IsLocalFault(fault: Fault) {
    fault.UnsupportedEndpoint? || fault.RawStorage? || fault.RawDigestMismatch? || fault.PersistenceFault?
  }

  /**
   What one attempt meets: no permalink to fetch, an approved page, or a failure. The digests are
   those of the facts the attempt may tell; a page has a second one for the case that it is refused.
   */
  datatype Fetched =
    | NoPermalink(reason: string)
    | Page(blob: BlobKey, digest: string, refused: string)
    | Faulted(fault: Fault, digest: string)

  /** The post is gone: Not Found or Gone. */
  predicate SaysGone(fault: Fault) {
    fault == ProviderStatus(404) || fault == ProviderStatus(410)
  }

  /** The failure may pass: the network, an oversized response, or a status that is retried. */
  predicate MayPass(fault: Fault) {
    || fault == Network || fault == ResponseTooLarge
    || (fault.ProviderStatus? && (fault.status == 408 || fault.status == 429 || !IsClientError(fault.status)))
  }

  lemma WhatAnAnswerMeans(fault: Fault, digest: string)
    ensures AnswerOf(Faulted(fault, digest)) == Some(Gone(digest)) <==> SaysGone(fault)
    ensures AnswerOf(Faulted(fault, digest)) == Some(Trouble) <==> MayPass(fault)
    ensures AnswerOf(Faulted(fault, digest)).None? <==> IsLocalFault(fault)
  {
  }

  /** The evidence on record about the capture `d` is the same. */
  ghost predicate SameEvidence(before: Intake, after: Intake, d: Id) {
    && Failures(after, d) == Failures(before, d)
    && (DeletionSeen(after.tombstones, d) <==> DeletionSeen(before.tombstones, d))
  }

  /**
   A failed attempt leaves exactly its own evidence: a deletion is on record afterwards only if it
   was before or the provider said Not Found or Gone, one more failure is counted exactly when the
   failure may pass, and nothing is put on record about any other capture.
   */
  lemma FaultLeavesItsEvidence(db: Db, c: Id, fault: Fault, digest: string, at: Time, after: Db, d: Id)
    requires FreshIntake(db.intake, db.minted) && !IsLocalFault(fault)
    requires Committed(db, AnswerTx(c, AnswerOf(Faulted(fault, digest)).value, at).0, after)
    ensures DeletionSeen(after.intake.tombstones, c) <==> DeletionSeen(db.intake.tombstones, c) || SaysGone(fault)
    ensures Failures(after.intake, c) == Failures(db.intake, c) + if MayPass(fault) then 1 else 0
    ensures d != c ==> SameEvidence(db.intake, after.intake, d)
  {
    WhatAnAnswerMeans(fault, digest);
    var answer := AnswerOf(Faulted(fault, digest)).value;
    match answer
    case Gone(_) => MarkLeavesEvidence(db, c, DeletedUpstream, digest, at, after, d);
    case Refused(_) => MarkLeavesEvidence(db, c, PrivateOrInaccessible, digest, at, after, d);
    case Trouble =>
      FailureCounts(db, c, after);
      assert d != c ==> FailureRows(after.intake.resolutions, d) == FailureRows(db.intake.resolutions, d);
  }

  lemma MarkLeavesEvidence(db: Db, c: Id, availability: Availability, digest: string, at: Time, after: Db, d: Id)
    requires FreshIntake(db.intake, db.minted) && Marked(db, c, availability, digest, at, after)
    ensures DeletionSeen(after.intake.tombstones, c) <==>
            DeletionSeen(db.intake.tombstones, c) || availability.DeletedUpstream?
    ensures Failures(after.intake, c) == Failures(db.intake, c)
    ensures d != c ==> SameEvidence(db.intake, after.intake, d)
  {
    MarkLeaves(db, c, availability, digest, at, after);
    var tombstones := after.intake.tombstones;
    assert FailureRows(after.intake.resolutions, c) == FailureRows(db.intake.resolutions, c);
    assert FailureRows(after.intake.resolutions, d) == FailureRows(db.intake.resolutions, d);
    assert SaysDeleted(tombstones[db.minted], c) <==> availability.DeletedUpstream?;
    assert forall t :: t in db.intake.tombstones ==> t in tombstones && tombstones[t] == db.intake.tombstones[t];
  }

  // ----- Public resolution -------------------------------------------------------------------

  /** The upsert of the observed post; a permalink that belongs to another post refuses the transaction. */
  method UpsertPost(content: Content, id: Id, account: Option<Id>, code: string, permalink: string)
    returns (stored: Option<(Id, Content)>)
    ensures stored.Some? ==> PostUpserted(content, id, account, code, permalink, stored.value.0, stored.value.1)
    ensures OnePostPerCode(content.posts) && id !in content.posts ==>
              (stored.None? <==> PermalinkTaken(content.posts, code, permalink))
  {
    var p, post;
    if q :| q in content.posts && IsPost(content.posts, code, q) {
      p, post := q, Post(if account.Some? then account else content.posts[q].account, code, permalink);
    } else {
      p, post := id, Post(account, code, permalink);
    }
    if q :| q in content.posts && content.posts[q].permalink == permalink && q != p {
      return None;
    }
    return Some((p, content.(posts := content.posts[p := post])));
  }

  /** What came of storing a page: all of it, a cycle among the stored replies, or a statement that failed. */
  datatype Recording = Kept | CycleFound | NotKept

  /** `public_resolution.rs` */
  class PublicResolutionStore {
    const database: Database

    constructor (database: Database)
      ensures this.database == database
    {
      this.database := database;
    }

    /**
     Raw evidence, post, revision, capture, resolution and fact of one approved page commit together
     or not at all; a cycle anywhere among the stored replies refuses every page.
     */
    method Record(capture: Id, blob: BlobKey, digest: string, now: Time) returns (recording: Recording)
      modifies database
      ensures recording.Kept? ==>
                ObservationRecorded(old(database.View()), capture, blob, digest, now, database.View())
      ensures !recording.Kept? ==> database.View() == old(database.View())
      ensures recording.CycleFound? ==> ReplyStore.CycleStored(old(database.content))
      ensures recording.Kept? ==> !ReplyStore.CycleStored(old(database.content))
      ensures var posts := old(database.content.posts);
              OnePostPerCode(posts) && old(database.minted) + 1 !in posts ==>
                (recording.CycleFound? <==>
                   && ReplyStore.CycleStored(old(database.content)) && capture in old(database.intake.captures)
                   && var url := old(database.intake.captures)[capture].url;
                      !PermalinkTaken(posts, LastSegment(url), url))
    {
      var before := database.Begin();
      if capture !in before.intake.captures {
        return NotKept;
      }
      var row := before.intake.captures[capture];
      var upserted := UpsertPost(before.content, before.minted + 1, None, LastSegment(row.url), row.url);
      if upserted.None? {
        return NotKept;
      }
      var cyclic := ReplyStore.FindsCycle(before.content, LastSegment(row.url));
      if cyclic {
        return CycleFound;
      }
      var (p, content) := upserted.value;
      var transaction := before.(
        content := content.(raws := content.raws[before.minted := blob],
                            revisions := content.revisions[before.minted + 2 := PostRevision(p, before.minted)]),
        intake := before.intake.(
          captures := before.intake.captures[capture := row.(post := Some(p), status := Resolved)],
          resolutions := before.intake.resolutions[before.minted + 3 :=
            Resolution(capture, ResolvedOutcome, Some(before.minted))]),
        minted := before.minted + 4);
      assert ObservationStored(before, capture, blob, p, content, transaction);
      var told := AppendOriginFact(transaction, Origin(row.owner, p, Some(capture)), digest, now);
      if told.None? {
        return NotKept;
      }
      database.Commit(told.value);
      assert ObservationRecorded(before, capture, blob, digest, now, told.value);
      return Kept;
    }
  }

  // ----- The claim ---------------------------------------------------------------------------

  function DueKeys(captures: map<Id, Capture>, now: Time): map<Id, Time> {
    map c | c in captures && IsDue(captures, now, c) :: captures[c].nextAt.value
  }

  /** The first `limit` due captures in the order of the claiming query. */
  method SelectDue(captures: map<Id, Capture>, now: Time, limit: nat) returns (order: seq<Id>)
    ensures IsClaim(captures, now, limit, {}, order)
  {
    order := SelectFirst(DueKeys(captures, now), limit);
  }

  /** The rows of the claim as the query read them. */
  method ReadDue(captures: map<Id, Capture>, order: seq<Id>) returns (queue: seq<Due>)
    requires forall i :: 0 <= i < |order| ==> order[i] in captures && captures[order[i]].ticket.Some?
    ensures IsRead(captures, order, queue)
  {
    queue := [];
    for n := 0 to |order|
      invariant |queue| == n
      invariant forall i :: 0 <= i < n ==> queue[i] == Read(captures, order[i])
    {
      queue := queue + [Read(captures, order[n])];
    }
  }

  // ----- One pass as steps of the interleaving model -----------------------------------------

  /** Some run of steps leads from one world to the other. */
  ghost predicate Reaches(policy: Policy, before: World, after: World) {
    exists worlds, steps :: Follows(policy, worlds, steps) && worlds[0] == before && worlds[|steps|] == after
  }

  lemma ReachesSelf(policy: Policy, world: World)
    ensures Reaches(policy, world, world)
  {
    var worlds, steps: seq<Step> := [world], [];
    assert Follows(policy, worlds, steps);
  }

  lemma ReachesStep(policy: Policy, before: World, world: World, step: Step, next: World)
    requires Reaches(policy, before, world) && StepTo(policy, world, step, next)
    ensures Reaches(policy, before, next)
  {
    var worlds, steps :| Follows(policy, worlds, steps) && worlds[0] == before && worlds[|steps|] == world;
    var worlds', steps' := worlds + [next], steps + [step];
    forall i | 0 <= i < |steps'| ensures StepTo(policy, worlds'[i], steps'[i], worlds'[i + 1]) {
      if i < |steps| {
        assert worlds'[i] == worlds[i] && worlds'[i + 1] == worlds[i + 1] && steps'[i] == steps[i];
      }
    }
    assert Follows(policy, worlds', steps');
  }

  function AnswerOf(fetched: Fetched): Option<Answer> {
    match fetched
    case NoPermalink(digest) => Some(Refused(digest))
    case Page(blob, digest, _) => Some(Found(blob, digest))
    case Faulted(fault, digest) =>
      if IsLocalFault(fault) then None
      else match Classify(fault)
        case VerdictDeleted => Some(Gone(digest))
        case VerdictInaccessible => Some(Refused(digest))
        case VerdictTransient => Some(Trouble)
  }

  /** A page that meets a cycle among the stored replies counts as a failure of the relation graph. */
  ghost function Met(fetched: Fetched, content: Content): Fetched {
    if fetched.Page? && ReplyStore.CycleStored(content) then Faulted(RelationGraph, fetched.refused) else fetched
  }

  function Working(w: Id, now: Time, queue: seq<Due>, phase: Phase): map<Id, Worker> {
    map[w := Worker(now, queue, phase)]
  }

  lemma ExamineStep(policy: Policy, db: Db, w: Id, now: Time, queue: seq<Due>)
    requires queue != []
    ensures var recorded := RecordedTerminal(policy, db.intake.tombstones, queue[0]);
            StepTo(policy, World(db, Working(w, now, queue, Ready)), Examine(w),
                   World(db, Working(w, now, queue, if recorded.Some? then Reporting(recorded.value) else Fetching)))
  {
  }

  /** A step of the fetching pass, given the transaction of its answer. */
  lemma FetchedStep(world: World, w: Id, answer: Answer, at: Time, tx: Tx, phase: Phase, next: World)
    requires Busy(world, w) && world.workers[w].phase.Fetching? && Committed(world.db, tx, next.db)
    requires AnswerTx(world.workers[w].queue[0].capture, answer, at) == (tx, phase)
    requires next.workers == world.workers[w := world.workers[w].(phase := phase)]
    ensures AnswerTo(world, w, answer, at, next)
  {
  }

  lemma WorkingOn(w: Id, now: Time, queue: seq<Due>, phase: Phase)
    ensures var workers := Working(w, now, queue, Fetching);
            && w in workers && workers[w].queue == queue && workers[w].phase == Fetching
            && Working(w, now, queue, phase) == workers[w := workers[w].(phase := phase)]
  {
  }

  lemma AnswerStep(policy: Policy, db: Db, w: Id, now: Time, queue: seq<Due>, answer: Answer, at: Time, after: Db)
    requires queue != [] && Committed(db, AnswerTx(queue[0].capture, answer, at).0, after)
    ensures StepTo(policy, World(db, Working(w, now, queue, Fetching)), Answered(w, answer, at),
                   World(after, Working(w, now, queue, AnswerTx(queue[0].capture, answer, at).1)))
  {
    var (tx, phase) := AnswerTx(queue[0].capture, answer, at);
    var world, next := World(db, Working(w, now, queue, Fetching)), World(after, Working(w, now, queue, phase));
    WorkingOn(w, now, queue, phase);
    FetchedStep(world, w, answer, at, tx, phase, next);
  }

  lemma CountStep(policy: Policy, db: Db, w: Id, now: Time, queue: seq<Due>, after: Db)
    requires queue != []
    requires var attempts := NextAttempts(queue[0].attempts);
             Committed(db, ScheduleOf(CountAttempt(queue[0].capture, attempts, now + RetryDelay(attempts))), after)
    ensures StepTo(policy, World(db, Working(w, now, queue, Counting)), Count(w),
                   World(after, if NextAttempts(queue[0].attempts) >= policy.maxAttempts
                                then Working(w, now, queue, Reporting(TerminalUnavailable(SourceTransient)))
                                else Working(w, now, queue[1..], Ready)))
  {
  }

  lemma AnnounceStep(policy: Policy, db: Db, w: Id, now: Time, queue: seq<Due>, terminal: Terminal, after: Db)
    requires queue != []
    requires Committed(db, ScheduleOf(Report(queue[0].capture, queue[0].owner, queue[0].ticket, terminal)), after)
    ensures StepTo(policy, World(db, Working(w, now, queue, Reporting(terminal))), Announce(w),
                   World(after, Working(w, now, queue[1..], Ready)))
  {
  }

  lemma ClaimStep(policy: Policy, db: Db, w: Id, now: Time, order: seq<Id>, queue: seq<Due>, after: Db)
    requires IsClaim(db.intake.captures, now, policy.batchSize, {}, order) && IsRead(db.intake.captures, order, queue)
    requires Committed(db, ScheduleOf(Lease(Batch(order), now + CLAIM_LEASE_SECONDS)), after)
    ensures StepTo(policy, World(db, map[]), Claim(w, now, {}), World(after, Working(w, now, queue, Ready)))
  {
    assert Claimed(policy, World(db, map[]), w, now, {}, order, queue, World(after, Working(w, now, queue, Ready)));
  }

  /** What one claimed capture came to: answered or not, or stopped by a fault of this service. */
  datatype Progress = Done(reported: bool) | Broken

  datatype RunSummary = RunSummary(claimed: nat, reported: nat)

  class CaptureResolver {
    const database: Database
    const policy: Policy
    const captures: CaptureStore
    const resolutions: PublicResolutionStore

    constructor (database: Database, policy: Policy)
      ensures this.database == database && this.policy == policy
      ensures captures.database == database && resolutions.database == database
    {
      this.database := database;
      this.policy := policy;
      captures := new CaptureStore(database);
      resolutions := new PublicResolutionStore(database);
    }

    predicate Valid() {
      captures.database == database && resolutions.database == database
    }

    /** Takes the first due captures under a lease. */
    method Claim(now: Time) returns (due: seq<Due>, ghost order: seq<Id>)
      modifies database
      ensures IsClaim(old(database.intake.captures), now, policy.batchSize, {}, order)
      ensures IsRead(old(database.intake.captures), order, due)
      ensures Committed(old(database.View()), ScheduleOf(Lease(Batch(order), now + CLAIM_LEASE_SECONDS)),
              database.View())
    {
      var selected := SelectDue(database.intake.captures, now, policy.batchSize);
      order := selected;
      due := ReadDue(database.intake.captures, selected);
      database.intake := database.intake.(
        captures := Leased(database.intake.captures, Batch(selected), now + CLAIM_LEASE_SECONDS));
    }

    /** The evidence of one attempt, or nothing when this service's own storage failed. */
    method Attempt(due: Due, fetched: Fetched, at: Time) returns (answer: Option<Answer>)
      requires Valid()
      modifies database
      ensures answer.Some? ==> answer == AnswerOf(Met(fetched, old(database.content)))
      ensures answer.Some? ==>
                Committed(old(database.View()), AnswerTx(due.capture, answer.value, at).0, database.View())
      ensures answer.None? ==> database.View() == old(database.View())
    {
      answer := AnswerOf(fetched);
      if answer.None? {
        return;
      }
      var kept;
      match answer.value {
        case Found(blob, digest) =>
          var recording := resolutions.Record(due.capture, blob, digest, at);
          kept := recording.Kept?;
          if recording.CycleFound? {
            var error := captures.RecordObservation(due.capture, Inaccessibility(fetched.refused), at);
            answer, kept := Some(Refused(fetched.refused)), error.None?;
          }
        case Gone(digest) =>
          var error := captures.RecordObservation(due.capture, Deletion(digest), at);
          kept := error.None?;
        case Refused(digest) =>
          var error := captures.RecordObservation(due.capture, Inaccessibility(digest), at);
          kept := error.None?;
        case Trouble =>
          var error := captures.RecordObservation(due.capture, ResolverFailure, at);
          kept := error.None?;
      }
      if !kept {
        answer := None;
      }
    }

    /** The counter and the next attempt, computed from what the claim read. */
    method CountFailure(due: Due, now: Time) returns (attempts: nat)
      modifies database
      ensures attempts == NextAttempts(due.attempts)
      ensures Committed(old(database.View()),
              ScheduleOf(CountAttempt(due.capture, attempts, now + RetryDelay(attempts))), database.View())
    {
      attempts := NextAttempts(due.attempts);
      database.intake := database.intake.(
        captures := Counted(database.intake.captures, due.capture, attempts, now + RetryDelay(attempts)));
    }

    /** The guard and the terminal report, once. */
    method Report(due: Due, terminal: Terminal) returns (queued: bool)
      modifies database
      ensures Committed(old(database.View()),
              ScheduleOf(ScheduleTx.Report(due.capture, due.owner, due.ticket, terminal)), database.View())
      ensures queued <==>
              due.capture in old(database.intake.captures) && !old(database.intake.captures)[due.capture].reported
      ensures !queued ==> database.View() == old(database.View())
      ensures queued ==>
                exists outcome :: Effects.ReportLeaves(old(database.View()), due.capture, due.owner, due.ticket,
                                                       terminal, outcome, database.View())
    {
      if due.capture !in database.intake.captures || database.intake.captures[due.capture].reported {
        return false;
      }
      var row := database.intake.captures[due.capture];
      var outcome;
      match terminal {
        case TerminalUnavailable(reason) => outcome := NotPreserved(reason);
        case TerminalPreserved =>
          if row.post.Some? {
            if s :| s in database.library.sources && IsSource(database.library.sources, due.owner, row.post.value, s) {
              outcome := Preserved(s);
            } else {
              outcome := NotPreserved(SourceInaccessible);
            }
          } else {
            outcome := NotPreserved(SourceInaccessible);
          }
      }
      ghost var before := database.View();
      database.intake := database.intake.(captures :=
        database.intake.captures[due.capture := row.(reported := true, nextAt := None)]);
      database.outbox := database.outbox.Insert(database.minted,
        Event(TerminalReport(due.ticket, outcome), due.capture));
      database.minted := database.minted + 1;
      assert ReportStored(before, due.capture, due.owner, due.ticket, terminal, outcome, database.View());
      Effects.ReportEffect(before, due.capture, due.owner, due.ticket, terminal, database.View());
      return true;
    }

    /** Advances the first capture of the queue; the steps it takes are steps of the interleaving model. */
    method Process(ghost start: World, ghost w: Id, now: Time, queue: seq<Due>, fetched: Fetched, at: Time)
      returns (progress: Progress)
      requires Valid() && queue != []
      requires Reaches(policy, start, World(database.View(), Working(w, now, queue, Ready)))
      modifies database
      ensures progress.Done? ==> Reaches(policy, start, World(database.View(), Working(w, now, queue[1..], Ready)))
      ensures progress.Broken? ==> exists phase ::
              Reaches(policy, start, World(database.View(), Working(w, now, queue, phase)))
    {
      var recorded := RecordedTerminal(policy, database.intake.tombstones, queue[0]);
      ExamineStep(policy, database.View(), w, now, queue);
      ReachesStep(policy, start, World(database.View(), Working(w, now, queue, Ready)), Examine(w),
                  World(database.View(),
                        Working(w, now, queue, if recorded.Some? then Reporting(recorded.value) else Fetching)));
      if recorded.Some? {
        var queued := Conclude(start, w, now, queue, recorded.value);
        return Done(queued);
      }
      var answer := TryOnce(start, w, now, queue, fetched, at);
      if answer.None? {
        return Broken;
      }
      if answer.value.Trouble? {
        progress := GiveUpOrRetry(start, w, now, queue);
      } else {
        var queued := Conclude(start, w, now, queue, AnswerTx(queue[0].capture, answer.value, at).1.terminal);
        return Done(queued);
      }
    }

    method TryOnce(ghost start: World, ghost w: Id, now: Time, queue: seq<Due>, fetched: Fetched, at: Time)
      returns (answer: Option<Answer>)
      requires Valid() && queue != []
      requires Reaches(policy, start, World(database.View(), Working(w, now, queue, Fetching)))
      modifies database
      ensures answer.None? ==> Reaches(policy, start, World(database.View(), Working(w, now, queue, Fetching)))
      ensures answer.Some? ==>
                Reaches(policy, start,
                        World(database.View(), Working(w, now, queue, AnswerTx(queue[0].capture, answer.value, at).1)))
    {
      ghost var before := database.View();
      answer := Attempt(queue[0], fetched, at);
      if answer.Some? {
        AnswerStep(policy, before, w, now, queue, answer.value, at, database.View());
        ReachesStep(policy, start, World(before, Working(w, now, queue, Fetching)), Answered(w, answer.value, at),
                    World(database.View(), Working(w, now, queue, AnswerTx(queue[0].capture, answer.value, at).1)));
      }
    }

    method GiveUpOrRetry(ghost start: World, ghost w: Id, now: Time, queue: seq<Due>) returns (progress: Progress)
      requires queue != [] && Reaches(policy, start, World(database.View(), Working(w, now, queue, Counting)))
      modifies database
      ensures progress.Done? && Reaches(policy, start, World(database.View(), Working(w, now, queue[1..], Ready)))
    {
      ghost var before := database.View();
      var attempts := CountFailure(queue[0], now);
      CountStep(policy, before, w, now, queue, database.View());
      ReachesStep(policy, start, World(before, Working(w, now, queue, Counting)), Count(w),
                  World(database.View(), if attempts >= policy.maxAttempts
                                         then Working(w, now, queue, Reporting(TerminalUnavailable(SourceTransient)))
                                         else Working(w, now, queue[1..], Ready)));
      var queued := false;
      if attempts >= policy.maxAttempts {
        queued := Conclude(start, w, now, queue, TerminalUnavailable(SourceTransient));
      }
      return Done(queued);
    }

    method Conclude(
        ghost start: World, ghost w: Id, now: Time, queue: seq<Due>, terminal: Terminal)
      returns (queued: bool)
      requires queue != []
      requires Reaches(policy, start, World(database.View(), Working(w, now, queue, Reporting(terminal))))
      modifies database
      ensures Reaches(policy, start, World(database.View(), Working(w, now, queue[1..], Ready)))
    {
      ghost var before := database.View();
      queued := Report(queue[0], terminal);
      AnnounceStep(policy, before, w, now, queue, terminal, database.View());
      ReachesStep(policy, start, World(before, Working(w, now, queue, Reporting(terminal))), Announce(w),
                  World(database.View(), Working(w, now, queue[1..], Ready)));
    }

    /**
     One pass over the captures that are due at `now`: a run of the interleaving model, whatever the
     provider answers.
     */
    method RunDueOnce(ghost w: Id, now: Time, provider: Id -> Fetched, at: Time) returns (summary: Option<RunSummary>)
      requires Valid()
      modifies database
      ensures exists workers :: Reaches(policy, World(old(database.View()), map[]), World(database.View(), workers))
      ensures summary.Some? ==>
                Reaches(policy, World(old(database.View()), map[]), World(database.View(), Working(w, now, [], Ready)))
      ensures summary.Some? ==> summary.value.reported <= summary.value.claimed <= policy.batchSize
    {
      ghost var start := World(database.View(), map[]);
      ReachesSelf(policy, start);
      var queue, order := Claim(now);
      ClaimStep(policy, start.db, w, now, order, queue, database.View());
      ReachesStep(policy, start, start, Workers.Claim(w, now, {}),
        World(database.View(), Working(w, now, queue, Ready)));
      var claimed, reported := |queue|, 0;
      while queue != []
        invariant |queue| <= claimed <= policy.batchSize && reported + |queue| <= claimed
        invariant Reaches(policy, start, World(database.View(), Working(w, now, queue, Ready)))
      {
        var progress := Process(start, w, now, queue, provider(queue[0].capture), at);
        if progress.Broken? {
          return None;
        }
        if progress.reported {
          reported := reported + 1;
        }
        queue := queue[1..];
      }
      return Some(RunSummary(claimed, reported));
    }
  }
}
