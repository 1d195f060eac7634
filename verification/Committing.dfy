/** Which answers of the provider can commit at all, and what becomes of the others. */
module Committing {
  import opened Wrappers
  import opened Archive
  import opened Integrity
  import opened Transactions
  import opened Invariants
  import opened Publishing
  import opened Workers
  import ReplyStore

  // ----- When a fact can be told -------------------------------------------------------------

  /** `v` is a latest revision of `s` and carries `digest`. */
  ghost predicate IsLatestWith(library: Library, s: SourceId, v: Id, digest: string) {
    IsLatest(library, s, Some(v)) && library.revisions[v].digest == digest
  }

  ghost predicate Repeats(library: Library, s: SourceId, digest: string) {
    exists v :: IsLatestWith(library, s, v, digest)
  }

  /**
   The fact of `origin` with `digest` can be told: the identity of its source is free or its own, and
   the digest is new to that source or repeats a latest revision of it.
   */
  ghost predicate MayTell(library: Library, permalink: string, origin: Origin, digest: string) {
    && !Taken(library, permalink, origin)
    && forall s :: IsSource(library.sources, origin.owner, origin.post, s) ==>
         !Stored(library.revisions, s, digest) || Repeats(library, s, digest)
  }

  /** Revisions belong to stored sources, and an owner has one source per post. */
  ghost predicate Kept(library: Library) {
    OneHolding(library.sources) && forall v :: v in library.revisions ==> library.revisions[v].source in library.sources
  }

  lemma SomeLatest(library: Library, s: SourceId)
    ensures exists latest :: IsLatest(library, s, latest)
  {
    var among := RevisionsOf(library.revisions, s);
    if among == {} {
      assert forall v :: RevisionOf(library.revisions, s, v) ==> v in among;
      assert IsLatest(library, s, None);
    } else {
      LatestExists(library.revisions, among);
      var v :| LatestAmong(library.revisions, among, v);
      assert IsLatest(library, s, Some(v));
    }
  }

  lemma ToldWasTellable(db: Db, origin: Origin, digest: string, now: Time, after: Db)
    requires Kept(db.library) && Published(db, origin, digest, now, after)
    ensures origin.post in db.content.posts
    ensures MayTell(db.library, db.content.posts[origin.post].permalink, origin, digest)
  {
    var s, latest, library :| FactAppended(db, origin, digest, now, s, latest, library, after);
    forall t | IsSource(db.library.sources, origin.owner, origin.post, t)
      ensures !Stored(db.library.revisions, t, digest) || Repeats(db.library, t, digest)
    {
      assert t == s && library == db.library;
      if latest.Some? && library.revisions[latest.value].digest == digest {
        assert IsLatestWith(db.library, s, latest.value, digest);
      }
    }
  }

  /** The library once the source of `origin` is ensured as `s`. */
  function EnsuredAs(library: Library, origin: Origin, s: SourceId): Library {
    if s in library.sources then library
    else library.(sources := library.sources[s := Source(origin.owner, origin.post, origin.capture)])
  }

  lemma TellsAs(db: Db, origin: Origin, digest: string, now: Time, s: SourceId, latest: Option<Id>)
    requires origin.post in db.content.posts
    requires SourceEnsured(db.library, db.content.posts[origin.post].permalink, origin, s,
             EnsuredAs(db.library, origin, s))
    requires IsLatest(EnsuredAs(db.library, origin, s), s, latest)
    requires (latest.Some? && db.library.revisions[latest.value].digest == digest) ||
             !Stored(db.library.revisions, s, digest)
    ensures exists after :: Published(db, origin, digest, now, after)
  {
    var library := EnsuredAs(db.library, origin, s);
    var after :=
      if latest.Some? && library.revisions[latest.value].digest == digest then db.(library := library)
      else db.(
        library := library.(revisions := library.revisions[db.minted := SourceRevision(s, digest, now)]),
        outbox := db.outbox.Insert(db.minted + 1, Event(
          if latest.None? then SourceCaptured(s, digest) else SourceUpdated(s, digest),
          if origin.capture.Some? then origin.capture.value else origin.post)),
        minted := db.minted + 2);
    assert FactAppended(db, origin, digest, now, s, latest, library, after);
    assert Published(db, origin, digest, now, after);
  }

  lemma TellableIsTold(db: Db, origin: Origin, digest: string, now: Time)
    requires Kept(db.library) && origin.post in db.content.posts
    requires MayTell(db.library, db.content.posts[origin.post].permalink, origin, digest)
    ensures exists after :: Published(db, origin, digest, now, after)
  {
    var permalink := db.content.posts[origin.post].permalink;
    if s :| IsSource(db.library.sources, origin.owner, origin.post, s) {
      if Repeats(db.library, s, digest) {
        var v :| IsLatestWith(db.library, s, v, digest);
        TellsAs(db, origin, digest, now, s, Some(v));
      } else {
        SomeLatest(db.library, s);
        var latest :| IsLatest(db.library, s, latest);
        TellsAs(db, origin, digest, now, s, latest);
      }
    } else {
      var s := SourceId(origin.owner, permalink);
      SomeLatest(EnsuredAs(db.library, origin, s), s);
      var latest :| IsLatest(EnsuredAs(db.library, origin, s), s, latest);
      TellsAs(db, origin, digest, now, s, latest);
    }
  }

  /** A fact commits for some state exactly when it may be told. */
  lemma PublishedIff(db: Db, origin: Origin, digest: string, now: Time)
    requires Kept(db.library)
    ensures (exists after :: Published(db, origin, digest, now, after)) <==>
            origin.post in db.content.posts &&
              MayTell(db.library, db.content.posts[origin.post].permalink, origin, digest)
  {
    if after :| Published(db, origin, digest, now, after) {
      ToldWasTellable(db, origin, digest, now, after);
    }
    if origin.post in db.content.posts && MayTell(db.library, db.content.posts[origin.post].permalink, origin, digest) {
      TellableIsTold(db, origin, digest, now);
    }
  }

  // ----- When an answer commits --------------------------------------------------------------

  /** `p` is the post an observation with `code` is stored under: the stored one, or a new one. */
  ghost predicate IsPostFor(posts: map<Id, Post>, code: string, id: Id, p: Id) {
    if exists q :: IsPost(posts, code, q) then IsPost(posts, code, p) else p == id
  }

  /** What must hold before the provider's answer for the capture `c` can be stored. */
  ghost predicate Committable(db: Db, c: Id, answer: Answer) {
    && c in db.intake.captures
    && var row := db.intake.captures[c];
       match answer
       case Found(blob, digest) =>
         && !PermalinkTaken(db.content.posts, LastSegment(row.url), row.url) && !ReplyStore.CycleStored(db.content)
         && forall p :: IsPostFor(db.content.posts, LastSegment(row.url), db.minted + 1, p) ==>
              MayTell(db.library, row.url, Origin(row.owner, p, Some(c)), digest)
       case Gone(digest) => MayMark(db, row, c, digest)
       case Refused(digest) => MayMark(db, row, c, digest)
       case Trouble => true
  }

  ghost predicate MayMark(db: Db, row: Capture, c: Id, digest: string) {
    row.post.Some? ==>
      row.post.value in db.content.posts &&
      MayTell(db.library, db.content.posts[row.post.value].permalink, Origin(row.owner, row.post.value, Some(c)),
        digest)
  }

  lemma MarkCommitsIff(db: Db, c: Id, availability: Availability, digest: string, now: Time)
    requires Kept(db.library)
    ensures (exists after :: Marked(db, c, availability, digest, now, after)) <==>
            c in db.intake.captures && MayMark(db, db.intake.captures[c], c, digest)
  {
    if c in db.intake.captures {
      var row, mid := db.intake.captures[c], MarkedOnly(db, c, availability, now);
      if row.post.Some? {
        var origin := Origin(row.owner, row.post.value, Some(c));
        PublishedIff(mid, origin, digest, now);
        if after :| Published(mid, origin, digest, now, after) {
          assert Marked(db, c, availability, digest, now, after);
        }
      } else {
        assert Marked(db, c, availability, digest, now, mid);
      }
    }
  }

  lemma UpsertShape(content: Content, id: Id, code: string, permalink: string, p: Id, after: Content)
    requires OnePostPerCode(content.posts) && id !in content.posts
    requires PostUpserted(content, id, None, code, permalink, p, after)
    ensures !PermalinkTaken(content.posts, code, permalink)
    ensures IsPostFor(content.posts, code, id, p) && p in after.posts && after.posts[p].permalink == permalink
    ensures forall q :: IsPostFor(content.posts, code, id, q) ==> q == p
  {
    assert forall q :: IsPost(content.posts, code, q) ==> q == p;
  }

  lemma ResolvedWasCommittable(db: Db, c: Id, blob: BlobKey, digest: string, now: Time, after: Db)
    requires Kept(db.library) && OnePostPerCode(db.content.posts) && db.minted + 1 !in db.content.posts
    requires ObservationRecorded(db, c, blob, digest, now, after)
    ensures Committable(db, c, Found(blob, digest))
  {
    var p, content, mid :| ObservationStored(db, c, blob, p, content, mid) &&
      Published(mid, Origin(mid.intake.captures[c].owner, p, Some(c)), digest, now, after);
    var url := db.intake.captures[c].url;
    UpsertShape(db.content, db.minted + 1, LastSegment(url), url, p, content);
    ToldWasTellable(mid, Origin(mid.intake.captures[c].owner, p, Some(c)), digest, now, after);
  }

  lemma UpsertExists(content: Content, id: Id, code: string, permalink: string)
    requires OnePostPerCode(content.posts) && id !in content.posts
    requires !PermalinkTaken(content.posts, code, permalink)
    ensures exists p, after :: PostUpserted(content, id, None, code, permalink, p, after)
  {
    if p :| IsPost(content.posts, code, p) {
      var after := content.(posts := content.posts[p := Post(content.posts[p].account, code, permalink)]);
      assert PostUpserted(content, id, None, code, permalink, p, after);
    } else {
      assert forall q :: q in content.posts ==> !IsPost(content.posts, code, q);
      var after := content.(posts := content.posts[id := Post(None, code, permalink)]);
      assert PostUpserted(content, id, None, code, permalink, id, after);
    }
  }

  lemma CommittableResolves(db: Db, c: Id, blob: BlobKey, digest: string, now: Time)
    requires Kept(db.library) && OnePostPerCode(db.content.posts) && db.minted + 1 !in db.content.posts
    requires Committable(db, c, Found(blob, digest))
    ensures exists after :: ObservationRecorded(db, c, blob, digest, now, after)
  {
    var row, raw := db.intake.captures[c], db.minted;
    UpsertExists(db.content, db.minted + 1, LastSegment(row.url), row.url);
    var p, content :| PostUpserted(db.content, db.minted + 1, None, LastSegment(row.url), row.url, p, content);
    UpsertShape(db.content, db.minted + 1, LastSegment(row.url), row.url, p, content);
    var mid := db.(
      content := content.(raws := content.raws[raw := blob],
                          revisions := content.revisions[db.minted + 2 := PostRevision(p, raw)]),
      intake := db.intake.(
        captures := db.intake.captures[c := row.(post := Some(p), status := Resolved)],
        resolutions := db.intake.resolutions[db.minted + 3 := Resolution(c, ResolvedOutcome, Some(raw))]),
      minted := db.minted + 4);
    assert ObservationStored(db, c, blob, p, content, mid);
    TellableIsTold(mid, Origin(row.owner, p, Some(c)), digest, now);
    var after :| Published(mid, Origin(row.owner, p, Some(c)), digest, now, after);
    assert ObservationRecorded(db, c, blob, digest, now, after);
  }

  ghost predicate CanCommit(db: Db, tx: Tx) {
    exists after :: Committed(db, tx, after)
  }

  lemma MarkAnswerCommitsIff(db: Db, c: Id, availability: Availability, digest: string, at: Time)
    requires Kept(db.library)
    ensures CanCommit(db, FactOf(MarkUnavailable(c, availability, digest, at))) <==>
            c in db.intake.captures && MayMark(db, db.intake.captures[c], c, digest)
  {
    var tx := FactOf(MarkUnavailable(c, availability, digest, at));
    MarkCommitsIff(db, c, availability, digest, at);
    if after :| Marked(db, c, availability, digest, at, after) {
      assert Committed(db, tx, after);
    }
    if CanCommit(db, tx) {
      var after :| Committed(db, tx, after);
      assert Marked(db, c, availability, digest, at, after);
    }
  }

  lemma ResolveAnswerCommitsIff(db: Db, c: Id, blob: BlobKey, digest: string, at: Time)
    requires Kept(db.library) && OnePostPerCode(db.content.posts) && db.minted + 1 !in db.content.posts
    ensures CanCommit(db, FactOf(Resolve(c, blob, digest, at))) <==> Committable(db, c, Found(blob, digest))
  {
    var tx := FactOf(Resolve(c, blob, digest, at));
    if CanCommit(db, tx) {
      var after :| Committed(db, tx, after);
      ResolvedWasCommittable(db, c, blob, digest, at, after);
    }
    if Committable(db, c, Found(blob, digest)) {
      CommittableResolves(db, c, blob, digest, at);
      var after :| ObservationRecorded(db, c, blob, digest, at, after);
      assert Committed(db, tx, after);
    }
  }

  lemma FailureCommitsIff(db: Db, c: Id)
    ensures CanCommit(db, ScheduleOf(RecordFailure(c))) <==> c in db.intake.captures
  {
    if c in db.intake.captures {
      var after := db.(intake := db.intake.(resolutions := db.intake.resolutions[
                         db.minted := Resolution(c, ResolverFailed, None)]), minted := db.minted + 1);
      assert FailureStored(db, c, after);
      assert Committed(db, ScheduleOf(RecordFailure(c)), after);
    }
  }

  /**
   In every sound state an answer can commit exactly when its capture is stored and its fact, if it
   has one, may be told: a permalink or a source identity of another post refuses it, and so do a
   digest that returns after another one and a cycle among the stored replies.
   */
  lemma AnswerCommitsIff(db: Db, c: Id, answer: Answer, at: Time)
    requires Sound(db)
    ensures CanCommit(db, AnswerTx(c, answer, at).0) <==> Committable(db, c, answer)
  {
    match answer
    case Found(blob, digest) => ResolveAnswerCommitsIff(db, c, blob, digest, at);
    case Gone(digest) => MarkAnswerCommitsIff(db, c, DeletedUpstream, digest, at);
    case Refused(digest) => MarkAnswerCommitsIff(db, c, PrivateOrInaccessible, digest, at);
    case Trouble => FailureCommitsIff(db, c);
  }

  /**
   An answer that cannot commit has no step: unless a cycle of replies turns it into a refusal, the
   pass is stuck with the capture until it stops, and stopping changes neither its attempts nor its
   guard nor its place in the schedule.
   */
  lemma UncommittableAnswerOnlyStops(policy: Policy, world: World, w: Id, answer: Answer, at: Time, next: World)
    requires Sound(world.db) && Busy(world, w) && world.workers[w].phase.Fetching?
    requires !Committable(world.db, world.workers[w].queue[0].capture, answer)
    ensures !StepTo(policy, world, Answered(w, answer, at), next)
    ensures StepTo(policy, world, Stop(w), next) ==> next.db == world.db
  {
    var c := world.workers[w].queue[0].capture;
    AnswerCommitsIff(world.db, c, answer, at);
    assert !Committed(world.db, AnswerTx(c, answer, at).0, next.db);
  }
}
