/** The foreign keys of the schema and the provenance every committed state keeps. */
module Integrity {
  import opened Wrappers
  import opened Archive

  ghost predicate IntakeKeys(intake: Intake, posts: set<Id>, raws: set<Id>) {
    && (forall c :: c in intake.captures && intake.captures[c].post.Some? ==> intake.captures[c].post.value in posts)
    && (forall r :: r in intake.resolutions ==>
          && intake.resolutions[r].capture in intake.captures
          && (intake.resolutions[r].raw.Some? ==> intake.resolutions[r].raw.value in raws))
    && (forall t :: t in intake.tombstones ==> SubjectExists(intake.tombstones[t], posts, intake.captures.Keys))
  }

  ghost predicate SubjectExists(tombstone: Tombstone, posts: set<Id>, captures: set<Id>) {
    && (tombstone.post.Some? ==> tombstone.post.value in posts)
    && (tombstone.capture.Some? ==> tombstone.capture.value in captures)
    && (tombstone.post.Some? || tombstone.capture.Some?)
  }

  ghost predicate ContentKeys(content: Content, accounts: set<Id>) {
    && (forall p :: p in content.posts && content.posts[p].account.Some? ==> content.posts[p].account.value in accounts)
    && (forall v :: v in content.revisions ==>
          content.revisions[v].post in content.posts && content.revisions[v].raw in content.raws)
    && (forall m :: m in content.media ==> content.media[m].post in content.posts)
    && (forall r :: r in content.relations ==>
          && content.relations[r].referencing in content.posts
          && (content.relations[r].target.Some? ==> content.relations[r].target.value in content.posts))
    && (forall x :: x in content.exportRecords && content.exportRecords[x].Some? ==>
          content.exportRecords[x].value in content.raws)
  }

  ghost predicate LibraryKeys(library: Library, posts: set<Id>, captures: set<Id>) {
    && (forall s :: s in library.sources ==>
          && library.sources[s].post in posts
          && (library.sources[s].first.Some? ==> library.sources[s].first.value in captures))
    && (forall v :: v in library.revisions ==> library.revisions[v].source in library.sources)
    && (forall l :: l in library.links ==>
          library.links[l].source in library.sources &&
            Stored(library.revisions, library.links[l].source, library.links[l].digest))
  }

  /** The unique key of the sources: one per owner and post. */
  ghost predicate OneHolding(sources: map<SourceId, Source>) {
    forall s, t | s in sources && t in sources && sources[s].owner == sources[t].owner ::
      sources[s].post == sources[t].post ==> s == t
  }

  /** No row names a row that does not exist. */
  ghost predicate ForeignKeys(db: Db) {
    && IntakeKeys(db.intake, db.content.posts.Keys, db.content.raws.Keys)
    && ContentKeys(db.content, db.accounts.Keys)
    && LibraryKeys(db.library, db.content.posts.Keys, db.intake.captures.Keys)
  }

  /** The raw evidence of a resolution is still a revision of the post its capture resolved to. */
  ghost predicate Evidence(intake: Intake, revisions: map<Id, PostRevision>) {
    forall r :: r in intake.resolutions && intake.resolutions[r].raw.Some? ==>
      ShownBy(intake.captures, revisions, intake.resolutions[r].capture, intake.resolutions[r].raw.value)
  }

  ghost predicate ShownBy(captures: map<Id, Capture>, revisions: map<Id, PostRevision>, capture: Id, raw: Id) {
    && capture in captures
    && exists v :: v in revisions && revisions[v].raw == raw && captures[capture].post == Some(revisions[v].post)
  }
}
