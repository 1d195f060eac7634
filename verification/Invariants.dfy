/** What every committed transaction of the service keeps. */
module Invariants {
  import opened Wrappers
  import opened Archive
  import opened EventLog
  import opened Transactions
  import opened Integrity

  /** Identifiers below the supply are the only ones in use; the nil UUID never is. */
  ghost predicate FreshIntake(intake: Intake, minted: Id) {
    && 0 < minted && NIL !in intake.captures
    && (forall k :: k in intake.captures ==> k < minted)
    && (forall k :: k in intake.resolutions ==> k < minted)
    && (forall k :: k in intake.tombstones ==> k < minted)
  }

  ghost predicate FreshContent(content: Content, minted: Id) {
    && (forall k :: k in content.posts ==> k < minted)
    && (forall k :: k in content.revisions ==> k < minted)
    && (forall k :: k in content.raws ==> k < minted)
    && (forall k :: k in content.media ==> k < minted)
    && (forall k :: k in content.relations ==> k < minted)
  }

  ghost predicate FreshLibrary(library: Library, minted: Id) {
    forall k :: k in library.revisions ==> k < minted
  }

  ghost predicate OnePostPerCode(posts: map<Id, Post>) {
    forall p, q :: p in posts && q in posts && posts[p].code == posts[q].code ==> p == q
  }

  /** A provider identity names one post, and a capture only ever resolves to the post of its permalink. */
  ghost predicate Codes(intake: Intake, posts: map<Id, Post>) {
    && OnePostPerCode(posts)
    && (forall c :: c in intake.captures && intake.captures[c].post.Some? ==>
          IsPost(posts, LastSegment(intake.captures[c].url), intake.captures[c].post.value))
    && (forall t :: t in intake.tombstones ==> SubjectAgrees(intake.captures, intake.tombstones[t]))
  }

  /** Evidence about a capture that also names a post names the post that capture resolved to. */
  ghost predicate SubjectAgrees(captures: map<Id, Capture>, tombstone: Tombstone) {
    tombstone.capture.Some? && tombstone.post.Some? ==>
      tombstone.capture.value in captures && captures[tombstone.capture.value].post == tombstone.post
  }

  /** A capture got at most one terminal report ever, and its guard says whether it got it. */
  ghost predicate Reports(captures: map<Id, Capture>, log: seq<Event>, minted: Id) {
    && (forall c :: Terminals(log, c) <= 1)
    && (forall c :: c in captures ==> (captures[c].reported <==> Terminals(log, c) == 1))
    && (forall c :: minted <= c ==> Terminals(log, c) == 0)
  }

  /** A link belongs to the owner of its source, was accepted once, and is never one of a removed source. */
  ghost predicate Links(library: Library) {
    forall l :: l in library.links ==>
      && l in library.completions
      && (library.links[l].owner, library.links[l].source) !in library.removed
      && library.links[l].source in library.sources
      && library.sources[library.links[l].source].owner == library.links[l].owner
  }

  /** One captured fact, then updates, no two with the same digest. */
  ghost predicate WellFormedStream(stream: seq<EventBody>) {
    && (forall i :: 0 <= i < |stream| ==> (if i == 0 then stream[i].SourceCaptured? else stream[i].SourceUpdated?))
    && (forall i, j :: 0 <= i < j < |stream| ==> stream[i].digest != stream[j].digest)
  }

  ghost predicate Tells(stream: seq<EventBody>, digest: string)
    requires forall i :: 0 <= i < |stream| ==> stream[i].SourceCaptured? || stream[i].SourceUpdated?
  {
    exists i :: 0 <= i < |stream| && stream[i].digest == digest
  }

  ghost predicate OneRevisionPerDigest(revisions: map<Id, SourceRevision>, s: SourceId) {
    forall u, v | RevisionOf(revisions, s, u) && RevisionOf(revisions, s, v) &&
      revisions[u].digest == revisions[v].digest :: u == v
  }

  /**
   The facts of a stored source since its last removal tell exactly its stored revisions; a source
   that is not stored has none.
   */
  ghost predicate FactsOf(library: Library, log: seq<Event>, s: SourceId) {
    var stream := Stream(log, s);
    if s in library.sources then
      && stream != []
      && WellFormedStream(stream)
      && (forall d :: Tells(stream, d) <==> Stored(library.revisions, s, d))
      && OneRevisionPerDigest(library.revisions, s)
    else stream == []
  }

  ghost predicate Facts(library: Library, log: seq<Event>) {
    forall s :: FactsOf(library, log, s)
  }

  /** The captures and their evidence name what exists, and show the post the capture resolved to. */
  ghost predicate Filed(intake: Intake, content: Content, minted: Id) {
    && FreshIntake(intake, minted)
    && IntakeKeys(intake, content.posts.Keys, content.raws.Keys)
    && Evidence(intake, content.revisions)
  }

  ghost predicate Held(content: Content, accounts: map<Id, Id>, minted: Id) {
    FreshContent(content, minted) && ContentKeys(content, accounts.Keys)
  }

  ghost predicate Shelved(library: Library, posts: map<Id, Post>, captures: map<Id, Capture>, minted: Id) {
    FreshLibrary(library, minted) && LibraryKeys(library, posts.Keys, captures.Keys) && OneHolding(library.sources)
  }

  /** Identifiers are fresh, keys resolve, and evidence agrees. */
  ghost predicate Sound(db: Db) {
    && Filed(db.intake, db.content, db.minted)
    && Codes(db.intake, db.content.posts)
    && Held(db.content, db.accounts, db.minted)
    && Shelved(db.library, db.content.posts, db.intake.captures, db.minted)
  }

  /** One report per capture, no link of a removed source, and facts that tell the stored revisions. */
  ghost predicate Told(db: Db) {
    && Reports(db.intake.captures, db.outbox.log, db.minted)
    && Links(db.library)
    && Facts(db.library, db.outbox.log)
  }
}
