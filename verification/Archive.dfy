/**
 The tables of the `threads_archive` schema that the transactions of this service read and write.

 One table is one map from primary key to row. Every UUID the application mints is a number taken
 from the counter `minted`, so a fresh identifier is one that was never used before; the nil UUID
 is zero. A source identity is a version 5 UUID of the owner and the permalink, so it is that pair.
 */
module Archive {
  import opened Wrappers

  type Id = nat
  type Time = int
  type byte = n: int | 0 <= n < 256
  type bytes = seq<byte>

  const NIL: Id := 0

  /** A content-addressed object: the service-owned reference and the digest it is bound to. */
  datatype BlobKey = BlobKey(blobRef: string, hash: seq<byte>)

  /** The Platform operation and command a browser capture answers. */
  datatype Ticket = Ticket(operation: Id, command: Id)

  datatype CaptureStatus = Accepted | Resolved | Unavailable | Failed

  datatype Capture = Capture(
    owner: Id, key: string, url: string, ticket: Option<Ticket>, status: CaptureStatus,
    post: Option<Id>, attempts: nat, nextAt: Option<Time>, reported: bool)

  datatype ResolutionOutcome = ResolvedOutcome | UnavailableOutcome | ResolverFailed

  datatype Resolution = Resolution(capture: Id, outcome: ResolutionOutcome, raw: Option<Id>)

  datatype Availability = DeletedUpstream | PrivateOrInaccessible

  datatype Tombstone = Tombstone(
    post: Option<Id>, capture: Option<Id>, availability: Availability, observedAt: Time)

  datatype Post = Post(account: Option<Id>, code: string, permalink: string)

  datatype PostRevision = PostRevision(post: Id, raw: Id)

  datatype Media = Media(post: Id, blob: Option<BlobKey>)

  datatype Relation = Relation(referencing: Id, target: Option<Id>, targetCode: string, kind: string)

  datatype SourceId = SourceId(owner: Id, permalink: string)

  datatype Source = Source(owner: Id, post: Id, first: Option<Id>)

  datatype SourceRevision = SourceRevision(source: SourceId, digest: string, observedAt: Time)

  datatype Link = Link(owner: Id, source: SourceId, digest: string)

  datatype BlobTask = BlobTask(complete: bool, attempts: nat)

  /** Why a capture could not be preserved, as the terminal report says it. */
  datatype Unavailability = SourceDeleted | SourceInaccessible | SourceTransient

  datatype TerminalOutcome = Preserved(source: SourceId) | NotPreserved(reason: Unavailability)

  datatype EventBody =
    | QueuedReport(ticket: Ticket)
    | RejectedReport(ticket: Ticket)
    | TerminalReport(answered: Ticket, outcome: TerminalOutcome)
    | SourceCaptured(source: SourceId, digest: string)
    | SourceUpdated(source: SourceId, digest: string)
    | SourceRemoved(source: SourceId, owner: Id, operation: Id)

  datatype Event = Event(body: EventBody, aggregate: Id)

  /** `captures`, `capture_resolutions`, `tombstones` and the browser-capture `inbox_events`. */
  datatype Intake = Intake(
    captures: map<Id, Capture>, resolutions: map<Id, Resolution>, tombstones: map<Id, Tombstone>, inbox: set<Id>)

  /** `posts` and everything that hangs off a post or its raw evidence. */
  datatype Content = Content(
    posts: map<Id, Post>, revisions: map<Id, PostRevision>, raws: map<Id, BlobKey>, media: map<Id, Media>,
    relations: map<Id, Relation>, exportRuns: map<Id, BlobKey>, exportRecords: map<Id, Option<Id>>)

  /** `social_sources`, their revisions and links, the removal guards, and the Knowledge `inbox_events`. */
  datatype Library = Library(
    sources: map<SourceId, Source>, revisions: map<Id, SourceRevision>, links: map<Id, Link>,
    removed: set<(Id, SourceId)>, completions: set<Id>)

  predicate RevisionOf(revisions: map<Id, SourceRevision>, s: SourceId, v: Id) {
    v in revisions && revisions[v].source == s
  }

  /** A revision of the source `s` with `digest` is stored. */
  predicate Stored(revisions: map<Id, SourceRevision>, s: SourceId, digest: string) {
    exists v :: v in revisions && RevisionOf(revisions, s, v) && revisions[v].digest == digest
  }

  /**
   `outbox_events`. `log` is every event ever inserted, in commit order; the service has no such
   table, it is kept here because owner deletion erases outbox rows.
   */
  datatype Outbox = Outbox(rows: map<Id, Event>, log: seq<Event>) {
    function Insert(id: Id, event: Event): Outbox {
      Outbox(rows[id := event], log + [event])
    }
  }

  /** One owner-scoped local deletion target. */
  datatype Target = CaptureTarget(id: Id) | ConnectionTarget(id: Id)

  datatype Db = Db(
    intake: Intake, content: Content, library: Library, outbox: Outbox, accounts: map<Id, Id>,
    blobTasks: map<BlobKey, BlobTask>, deletions: map<Id, (Id, Target)>, minted: Id)

  /** The pool handle: every store of the service works on the tables of the one database behind it. */
  class Database {
    var intake: Intake
    var content: Content
    var library: Library
    var outbox: Outbox
    var accounts: map<Id, Id>
    var blobTasks: map<BlobKey, BlobTask>
    var deletions: map<Id, (Id, Target)>
    var minted: Id

    /** The database as one value. */
    ghost function View(): Db
      reads this
    {
      Db(intake, content, library, outbox, accounts, blobTasks, deletions, minted)
    }

    /** The snapshot a transaction works on. */
    method Begin() returns (transaction: Db)
      ensures transaction == View()
    {
      transaction := Db(intake, content, library, outbox, accounts, blobTasks, deletions, minted);
    }

    method Commit(transaction: Db)
      modifies this
      ensures View() == transaction
    {
      intake, content, library, outbox :=
        transaction.intake, transaction.content, transaction.library, transaction.outbox;
      accounts, blobTasks := transaction.accounts, transaction.blobTasks;
      deletions, minted := transaction.deletions, transaction.minted;
    }
  }
}
