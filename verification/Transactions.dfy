/**
 Every transaction of the service that writes the tables, as what it may commit.

 A transaction that would break a primary key, a unique key or a foreign key commits nothing; here
 it simply has no successor. The page of a synchronisation or of an export import is split into
 its rows, which only adds intermediate states.
 */
module Transactions {
  import opened Wrappers
  import opened Archive
  import PrivacyDeletion
  import ReplyStore

  datatype Command = Command(id: Id, owner: Id, key: string, url: string, operation: Id)

  /** Where a source fact comes from: one capture, or an official or exported observation of the owner. */
  datatype Origin = Origin(owner: Id, post: Id, capture: Option<Id>)

  datatype Terminal = TerminalPreserved | TerminalUnavailable(reason: Unavailability)

  /** The two inboxes of the browser extension and the owner's own submission. */
  datatype IntakeTx =
    | Deliver(command: Command, now: Time)
    | Submit(owner: Id, key: string, url: string)
    | Reject(ticket: Ticket)

  /** The transactions of the capture resolver that only schedule, count or report. */
  datatype ScheduleTx =
    | Lease(batch: set<Id>, until: Time)
    | RecordFailure(capture: Id)
    | CountAttempt(capture: Id, attempts: nat, at: Time)
    | Report(capture: Id, owner: Id, ticket: Ticket, terminal: Terminal)

  /** The transactions that append a source fact. */
  datatype FactTx =
    | Resolve(capture: Id, blob: BlobKey, digest: string, now: Time)
    | MarkUnavailable(capture: Id, availability: Availability, digest: string, now: Time)
    | Publish(origin: Origin, digest: string, now: Time)

  /** The rows that official synchronisation and export imports write. */
  datatype StoreTx =
    | ObservePost(account: Option<Id>, code: string, permalink: string, raw: Id)
    | StoreRaw(blob: BlobKey)
    | ReceiveExport(blob: BlobKey)
    | StoreExportRecord(evidence: Option<Id>)
    | StoreMedia(post: Id, bytes: Option<BlobKey>)
    | StoreRelation(post: Id, targetCode: string, kind: string)

  datatype Tx =
    | IntakeOf(intake: IntakeTx)
    | ScheduleOf(schedule: ScheduleTx)
    | FactOf(fact: FactTx)
    | StoreOf(store: StoreTx)
    | Connect(owner: Id)
    | Complete(event: Id, subject: Id, source: SourceId, digest: string)
    | Delete(request: PrivacyDeletion.Request)
    | SettleBlobTask(blob: BlobKey, done: bool)

  // ----- Intake ------------------------------------------------------------------------------

  predicate IsCapture(captures: map<Id, Capture>, owner: Id, key: string, c: Id) {
    c in captures && captures[c].owner == owner && captures[c].key == key
  }

  predicate KnownKey(captures: map<Id, Capture>, owner: Id, key: string) {
    exists c :: c in captures && IsCapture(captures, owner, key, c)
  }

  function NewCapture(owner: Id, key: string, url: string, ticket: Option<Ticket>, nextAt: Option<Time>): Capture {
    Capture(owner, key, url, ticket, Accepted, None, 0, nextAt, false)
  }

  /**
   The inbox marker, the capture and a queued report; a known key keeps its capture, a known command
   changes nothing.
   */
  ghost predicate Delivered(db: Db, command: Command, now: Time, after: Db) {
    var ticket := Ticket(command.operation, command.id);
    var intake := db.intake.(inbox := db.intake.inbox + {command.id});
    if command.id in db.intake.inbox then after == db
    else if KnownKey(db.intake.captures, command.owner, command.key) then
      exists c :: IsCapture(db.intake.captures, command.owner, command.key, c) &&
        after == db.(intake := intake,
                     outbox := db.outbox.Insert(db.minted, Event(QueuedReport(ticket), c)),
                     minted := db.minted + 1)
    else
      after == db.(intake := intake.(captures := intake.captures[
                     db.minted := NewCapture(command.owner, command.key, command.url, Some(ticket), Some(now))]),
                   outbox := db.outbox.Insert(db.minted + 1, Event(QueuedReport(ticket), db.minted)),
                   minted := db.minted + 2)
  }

  ghost function Submitted(db: Db, owner: Id, key: string, url: string): Db {
    if KnownKey(db.intake.captures, owner, key) then db
    else db.(intake := db.intake.(captures := db.intake.captures[db.minted := NewCapture(owner, key, url, None, None)]),
             minted := db.minted + 1)
  }

  ghost function Rejected(db: Db, ticket: Ticket): Db {
    if ticket.command in db.intake.inbox then db
    else db.(intake := db.intake.(inbox := db.intake.inbox + {ticket.command}),
             outbox := db.outbox.Insert(db.minted, Event(RejectedReport(ticket), ticket.operation)),
             minted := db.minted + 1)
  }

  // ----- Source facts ------------------------------------------------------------------------

  predicate IsSource(sources: map<SourceId, Source>, owner: Id, post: Id, s: SourceId) {
    s in sources && sources[s].owner == owner && sources[s].post == post
  }

  /** `ensure_source`: the stored identity of the owner and the post, or the derived one when there is none. */
  ghost predicate SourceEnsured(library: Library, permalink: string, origin: Origin, s: SourceId, after: Library) {
    if exists x :: IsSource(library.sources, origin.owner, origin.post, x) then
      IsSource(library.sources, origin.owner, origin.post, s) && after == library
    else
      && s == SourceId(origin.owner, permalink)
      && s !in library.sources
      && after == library.(sources := library.sources[s := Source(origin.owner, origin.post, origin.capture)])
  }

  /** `v` is what `order by observed_at desc limit 1` may return; equal instants leave a choice. */
  ghost predicate IsLatest(library: Library, s: SourceId, latest: Option<Id>) {
    match latest
    case None => forall v :: !RevisionOf(library.revisions, s, v)
    case Some(v) =>
      RevisionOf(library.revisions, s, v) &&
      forall u :: RevisionOf(library.revisions, s, u) ==>
        library.revisions[u].observedAt <= library.revisions[v].observedAt
  }

  /** `append_origin_fact` commits: nothing when the latest digest repeats, else one revision and one fact. */
  ghost predicate FactAppended(
    db: Db, origin: Origin, digest: string, now: Time, s: SourceId, latest: Option<Id>, library: Library, after: Db)
  {
    && origin.post in db.content.posts
    && SourceEnsured(db.library, db.content.posts[origin.post].permalink, origin, s, library)
    && IsLatest(library, s, latest)
    && if latest.Some? && library.revisions[latest.value].digest == digest then
         after == db.(library := library)
       else
         && !Stored(library.revisions, s, digest)
         && after == db.(
              library := library.(revisions := library.revisions[db.minted := SourceRevision(s, digest, now)]),
              outbox := db.outbox.Insert(db.minted + 1, Event(
                if latest.None? then SourceCaptured(s, digest) else SourceUpdated(s, digest),
                if origin.capture.Some? then origin.capture.value else origin.post)),
              minted := db.minted + 2)
  }

  ghost predicate Published(db: Db, origin: Origin, digest: string, now: Time, after: Db) {
    exists s, latest, library :: FactAppended(db, origin, digest, now, s, latest, library, after)
  }

  // ----- Observations ------------------------------------------------------------------------

  /** The provider identity an oEmbed observation carries: the last segment of the permalink. */
  function LastSegment(url: string): string {
    if url == "" || url[|url| - 1] == '/' then "" else LastSegment(url[..|url| - 1]) + [url[|url| - 1]]
  }

  predicate IsPost(posts: map<Id, Post>, code: string, p: Id) {
    p in posts && posts[p].code == code
  }

  /** Another post has the permalink. */
  predicate PermalinkTaken(posts: map<Id, Post>, code: string, permalink: string) {
    exists q :: q in posts && posts[q].permalink == permalink && posts[q].code != code
  }

  /** The upsert on `provider_post_id`; `permalink` must stay unique, and an absent account keeps the stored one. */
  ghost predicate PostUpserted(
    content: Content, id: Id, account: Option<Id>, code: string, permalink: string, p: Id, after: Content)
  {
    && (forall q :: q in content.posts && content.posts[q].permalink == permalink ==> q == p)
    && if exists q :: IsPost(content.posts, code, q) then
         && IsPost(content.posts, code, p)
         && after == content.(posts := content.posts[
              p := Post(if account.Some? then account else content.posts[p].account, code, permalink)])
       else
         p == id && after == content.(posts := content.posts[p := Post(account, code, permalink)])
  }

  /**
   `record`: raw evidence, post, revision, capture and resolution of one accepted observation, before
   its fact. The cycle test runs over all stored replies, also for a post without relations.
   */
  ghost predicate ObservationStored(db: Db, capture: Id, blob: BlobKey, p: Id, content: Content, after: Db) {
    && capture in db.intake.captures && !ReplyStore.CycleStored(db.content)
    && var url := db.intake.captures[capture].url;
       var raw := db.minted;
       && PostUpserted(db.content, db.minted + 1, None, LastSegment(url), url, p, content)
       && after == db.(
            content := content.(raws := content.raws[raw := blob],
                                revisions := content.revisions[db.minted + 2 := PostRevision(p, raw)]),
            intake := db.intake.(
              captures := db.intake.captures[capture :=
                db.intake.captures[capture].(post := Some(p), status := Resolved)],
              resolutions := db.intake.resolutions[db.minted + 3 := Resolution(capture, ResolvedOutcome, Some(raw))]),
            minted := db.minted + 4)
  }

  ghost predicate ObservationRecorded(db: Db, capture: Id, blob: BlobKey, digest: string, now: Time, after: Db) {
    exists p, content, mid ::
      && ObservationStored(db, capture, blob, p, content, mid)
      && Published(mid, Origin(mid.intake.captures[capture].owner, p, Some(capture)), digest, now, after)
  }

  /** `mark_unavailable`, before its fact. */
  ghost function MarkedOnly(db: Db, capture: Id, availability: Availability, now: Time): Db
    requires capture in db.intake.captures
  {
    db.(intake := db.intake.(
          captures := db.intake.captures[capture := db.intake.captures[capture].(status := Unavailable)],
          tombstones := db.intake.tombstones[
            db.minted := Tombstone(db.intake.captures[capture].post, Some(capture), availability, now)],
          resolutions := db.intake.resolutions[db.minted + 1 := Resolution(capture, UnavailableOutcome, None)]),
        minted := db.minted + 2)
  }

  ghost predicate Marked(db: Db, capture: Id, availability: Availability, digest: string, now: Time, after: Db) {
    && capture in db.intake.captures
    && var mid := MarkedOnly(db, capture, availability, now);
       var row := db.intake.captures[capture];
       if row.post.Some? then Published(mid, Origin(row.owner, row.post.value, Some(capture)), digest, now, after)
       else after == mid
  }

  ghost predicate FailureStored(db: Db, capture: Id, after: Db) {
    && capture in db.intake.captures
    && after == db.(intake := db.intake.(resolutions := db.intake.resolutions[
                      db.minted := Resolution(capture, ResolverFailed, None)]),
                    minted := db.minted + 1)
  }

  // ----- Scheduling and reporting ------------------------------------------------------------

  function Leased(captures: map<Id, Capture>, batch: set<Id>, until: Time): map<Id, Capture> {
    map c | c in captures :: if c in batch then captures[c].(nextAt := Some(until)) else captures[c]
  }

  function Counted(captures: map<Id, Capture>, capture: Id, attempts: nat, at: Time): map<Id, Capture> {
    if capture in captures then captures[capture := captures[capture].(attempts := attempts, nextAt := Some(at))]
    else captures
  }

  /** The outcome a terminal report carries: a preserved capture names its stored source, if it still has one. */
  ghost predicate ReportOutcome(db: Db, capture: Id, owner: Id, terminal: Terminal, outcome: TerminalOutcome)
    requires capture in db.intake.captures
  {
    match terminal
    case TerminalUnavailable(reason) => outcome == NotPreserved(reason)
    case TerminalPreserved =>
      var post := db.intake.captures[capture].post;
      if post.Some? && exists s :: IsSource(db.library.sources, owner, post.value, s) then
        outcome.Preserved? && IsSource(db.library.sources, owner, post.value, outcome.source)
      else outcome == NotPreserved(SourceInaccessible)
  }

  /** The guard and the report commit together; a capture that is gone or already reported changes nothing. */
  ghost predicate Reported(db: Db, capture: Id, owner: Id, ticket: Ticket, terminal: Terminal, after: Db) {
    if capture !in db.intake.captures || db.intake.captures[capture].reported then after == db
    else exists outcome :: ReportStored(db, capture, owner, ticket, terminal, outcome, after)
  }

  ghost predicate ReportStored(
    db: Db, capture: Id, owner: Id, ticket: Ticket, terminal: Terminal, outcome: TerminalOutcome, after: Db)
    requires capture in db.intake.captures
  {
    && ReportOutcome(db, capture, owner, terminal, outcome)
    && after == db.(intake := db.intake.(captures := db.intake.captures[
                      capture := db.intake.captures[capture].(reported := true, nextAt := None)]),
                    outbox := db.outbox.Insert(db.minted, Event(TerminalReport(ticket, outcome), capture)),
                    minted := db.minted + 1)
  }

  // ----- Content, accounts and Knowledge -----------------------------------------------------

  ghost predicate PostObserved(db: Db, account: Option<Id>, code: string, permalink: string, raw: Id, after: Db) {
    && raw in db.content.raws
    && (account.Some? ==> account.value in db.accounts)
    && exists p, content :: PostUpserted(db.content, db.minted, account, code, permalink, p, content) &&
         after == db.(content := content.(revisions := content.revisions[db.minted + 1 := PostRevision(p, raw)]),
                      minted := db.minted + 2)
  }

  predicate IsRelation(relations: map<Id, Relation>, post: Id, targetCode: string, kind: string, r: Id) {
    r in relations && relations[r].referencing == post && relations[r].targetCode == targetCode &&
      relations[r].kind == kind
  }

  /** The upsert of one edge; its target is the stored post of that identity, if there is one. */
  ghost predicate RelationStored(
    db: Db, post: Id, targetCode: string, kind: string, r: Id, target: Option<Id>, after: Db)
  {
    && post in db.content.posts
    && (if exists x :: IsRelation(db.content.relations, post, targetCode, kind, x)
        then IsRelation(db.content.relations, post, targetCode, kind, r) else r == db.minted)
    && (if exists q :: IsPost(db.content.posts, targetCode, q)
        then target.Some? && IsPost(db.content.posts, targetCode, target.value) else target == None)
    && after == db.(content := db.content.(relations :=
      db.content.relations[r := Relation(post, target, targetCode, kind)]),
                    minted := db.minted + 1)
  }

  datatype LinkOutcome = Linked | Duplicate | NoSuchRevision | LocallyRemoved

  function Completed(db: Db, event: Id, owner: Id, s: SourceId, digest: string): (LinkOutcome, Library) {
    var seen := db.library.(completions := db.library.completions + {event});
    if event in db.library.completions then (Duplicate, db.library)
    else if (owner, s) in db.library.removed then (LocallyRemoved, seen)
    else if s in db.library.sources && db.library.sources[s].owner == owner &&
            Stored(db.library.revisions, s, digest)
    then (Linked, seen.(links := seen.links[event := Link(owner, s, digest)]))
    else (NoSuchRevision, seen)
  }

  ghost predicate DeleteCommitted(db: Db, request: PrivacyDeletion.Request, after: Db) {
    exists result :: PrivacyDeletion.Applied(db, request, result, after)
  }

  ghost predicate IntakeCommitted(db: Db, tx: IntakeTx, after: Db) {
    match tx
    case Deliver(command, now) => Delivered(db, command, now, after)
    case Submit(owner, key, url) => after == Submitted(db, owner, key, url)
    case Reject(ticket) => after == Rejected(db, ticket)
  }

  ghost predicate ScheduleCommitted(db: Db, tx: ScheduleTx, after: Db) {
    match tx
    case Lease(batch, until) => after == db.(intake := db.intake.(captures := Leased(db.intake.captures, batch, until)))
    case RecordFailure(capture) => FailureStored(db, capture, after)
    case CountAttempt(capture, attempts, at) =>
      after == db.(intake := db.intake.(captures := Counted(db.intake.captures, capture, attempts, at)))
    case Report(capture, owner, ticket, terminal) => Reported(db, capture, owner, ticket, terminal, after)
  }

  ghost predicate FactCommitted(db: Db, tx: FactTx, after: Db) {
    match tx
    case Resolve(capture, blob, digest, now) => ObservationRecorded(db, capture, blob, digest, now, after)
    case MarkUnavailable(capture, availability, digest, now) => Marked(db, capture, availability, digest, now, after)
    case Publish(origin, digest, now) =>
      && (origin.capture.Some? ==> origin.capture.value in db.intake.captures)
      && Published(db, origin, digest, now, after)
  }

  ghost predicate StoreCommitted(db: Db, tx: StoreTx, after: Db) {
    match tx
    case ObservePost(account, code, permalink, raw) => PostObserved(db, account, code, permalink, raw, after)
    case StoreRaw(blob) =>
      after == db.(content := db.content.(raws := db.content.raws[db.minted := blob]), minted := db.minted + 1)
    case ReceiveExport(blob) =>
      after == db.(content := db.content.(exportRuns := db.content.exportRuns[db.minted := blob],
                                          raws := db.content.raws[db.minted + 1 := blob]), minted := db.minted + 2)
    case StoreExportRecord(evidence) =>
      && (evidence.Some? ==> evidence.value in db.content.raws)
      && after == db.(content := db.content.(exportRecords := db.content.exportRecords[db.minted := evidence]),
        minted := db.minted + 1)
    case StoreMedia(post, bytes) =>
      && post in db.content.posts
      && after == db.(content := db.content.(media := db.content.media[db.minted := Media(post, bytes)]),
                      minted := db.minted + 1)
    case StoreRelation(post, targetCode, kind) =>
      exists r, target :: RelationStored(db, post, targetCode, kind, r, target, after)
  }

  function BlobTaskSettled(tasks: map<BlobKey, BlobTask>, blob: BlobKey, done: bool): map<BlobKey, BlobTask> {
    if blob in tasks && !tasks[blob].complete then tasks[blob := BlobTask(done, tasks[blob].attempts + 1)] else tasks
  }

  /** What `tx` may leave of `db` when it commits. */
  ghost predicate Committed(db: Db, tx: Tx, after: Db) {
    match tx
    case IntakeOf(intake) => IntakeCommitted(db, intake, after)
    case ScheduleOf(schedule) => ScheduleCommitted(db, schedule, after)
    case FactOf(fact) => FactCommitted(db, fact, after)
    case StoreOf(store) => StoreCommitted(db, store, after)
    case Connect(owner) => after == db.(accounts := db.accounts[db.minted := owner], minted := db.minted + 1)
    case Complete(event, owner, source, digest) =>
      after == db.(library := Completed(db, event, owner, source, digest).1)
    case Delete(request) => DeleteCommitted(db, request, after)
    case SettleBlobTask(blob, done) => after == db.(blobTasks := BlobTaskSettled(db.blobTasks, blob, done))
  }
}
