/** Which rows an owner deletion takes, table by table, said on the rows and the posts that go. */
module DeletionRows {
  import opened Wrappers
  import opened Archive
  import opened PrivacyDeletion
  import opened Integrity
  import opened DeletionProperties

  /** The post `p` was stored and is not any more. */
  ghost predicate Went(db: Db, after: Db, p: Id) {
    p in db.content.posts && p !in after.content.posts
  }

  lemma WentIff(db: Db, request: Request, order: seq<SourceId>, after: Db, p: Id)
    requires ForeignKeys(db) && IsDeletion(db, request, order, after)
    ensures p in PostsGone(db, request.target, order) <==> Went(db, after, p)
  {
    TablesAfter(db, request, order, after);
  }

  /** Resolutions go with the deleted capture only, and none changes. */
  lemma ResolutionGoesIff(db: Db, request: Request, order: seq<SourceId>, after: Db, r: Id)
    requires IsDeletion(db, request, order, after)
    ensures r in after.intake.resolutions <==>
            r in db.intake.resolutions && request.target != CaptureTarget(db.intake.resolutions[r].capture)
    ensures r in after.intake.resolutions ==> after.intake.resolutions[r] == db.intake.resolutions[r]
  {
    TablesAfter(db, request, order, after);
  }

  /**
   A tombstone goes with its post, and with the deleted capture when it names nothing else; one that
   also names a post that stays outlives the capture without naming it.
   */
  lemma TombstoneGoesIff(db: Db, request: Request, order: seq<SourceId>, after: Db, t: Id)
    requires ForeignKeys(db) && IsDeletion(db, request, order, after)
    ensures t in after.intake.tombstones ==> t in db.intake.tombstones
    ensures t in db.intake.tombstones ==>
              var row := db.intake.tombstones[t];
              var own := row.capture.Some? && request.target == CaptureTarget(row.capture.value);
              && (t in after.intake.tombstones <==>
                    !(own && row.post.None?) && !(row.post.Some? && Went(db, after, row.post.value)))
              && (t in after.intake.tombstones ==>
                    after.intake.tombstones[t] == row.(capture := if own then None else row.capture))
  {
    TablesAfter(db, request, order, after);
    var gone := PostsGone(db, request.target, order);
    if t in db.intake.tombstones && db.intake.tombstones[t].post.Some? {
      WentIff(db, request, order, after, db.intake.tombstones[t].post.value);
    }
    TombstoneKeptIff(db.intake.tombstones, request.target, gone, t);
  }

  lemma TombstoneKeptIff(tombstones: map<Id, Tombstone>, target: Target, gone: set<Id>, t: Id)
    ensures var detached := if target.CaptureTarget? then TombstonesWithout(tombstones, target.id) else tombstones;
            var kept := KeepTombstones(detached, gone);
            && (t in kept ==> t in tombstones)
            && (t in tombstones ==>
                  var row := tombstones[t];
                  var own := row.capture.Some? && target == CaptureTarget(row.capture.value);
                  && (t in kept <==> !(own && row.post.None?) && !(row.post.Some? && row.post.value in gone))
                  && (t in kept ==> kept[t] == row.(capture := if own then None else row.capture)))
  {
  }

  /** Media and revisions go with their post, relations with either of their posts; none changes. */
  lemma PostRowGoesIff(db: Db, request: Request, order: seq<SourceId>, after: Db, k: Id)
    requires ForeignKeys(db) && IsDeletion(db, request, order, after)
    ensures k in after.content.media <==> k in db.content.media && !Went(db, after, db.content.media[k].post)
    ensures k in after.content.media ==> after.content.media[k] == db.content.media[k]
    ensures k in after.content.revisions <==>
            k in db.content.revisions && !Went(db, after, db.content.revisions[k].post)
    ensures k in after.content.revisions ==> after.content.revisions[k] == db.content.revisions[k]
    ensures k in after.content.relations <==>
            && k in db.content.relations
            && !Went(db, after, db.content.relations[k].referencing)
            && (db.content.relations[k].target.Some? ==> !Went(db, after, db.content.relations[k].target.value))
    ensures k in after.content.relations ==> after.content.relations[k] == db.content.relations[k]
  {
    TablesAfter(db, request, order, after);
    forall p ensures p in PostsGone(db, request.target, order) <==> Went(db, after, p) {
      WentIff(db, request, order, after, p);
    }
  }

  /** Some revision of a post that goes shows the raw object. */
  ghost predicate ShownByGone(db: Db, after: Db, r: Id) {
    exists v :: v in db.content.revisions && db.content.revisions[v].raw == r &&
      Went(db, after, db.content.revisions[v].post)
  }

  /** Some revision of a post that stays, or an export record, names the raw object. */
  ghost predicate StillNamed(db: Db, after: Db, r: Id) {
    || (exists v :: v in db.content.revisions && db.content.revisions[v].raw == r &&
          !Went(db, after, db.content.revisions[v].post))
    || (exists x :: x in db.content.exportRecords && db.content.exportRecords[x] == Some(r))
  }

  /** A raw object goes exactly when a post that goes showed it and nothing that stays names it. */
  lemma RawGoesIff(db: Db, request: Request, order: seq<SourceId>, after: Db, r: Id)
    requires ForeignKeys(db) && IsDeletion(db, request, order, after) && r in db.content.raws
    ensures r !in after.content.raws <==> ShownByGone(db, after, r) && !StillNamed(db, after, r)
    ensures r in after.content.raws ==> after.content.raws[r] == db.content.raws[r]
    ensures after.content.exportRecords == db.content.exportRecords && after.content.exportRuns == db.content.exportRuns
  {
    TablesAfter(db, request, order, after);
    var gone := PostsGone(db, request.target, order);
    forall p ensures p in gone <==> Went(db, after, p) {
      WentIff(db, request, order, after, p);
    }
    RawNamedIff(db, after, gone, r);
  }

  lemma RawNamedIff(db: Db, after: Db, gone: set<Id>, r: Id)
    requires forall p :: p in gone <==> Went(db, after, p)
    ensures r in RawsOf(db.content.revisions, gone) <==> ShownByGone(db, after, r)
    ensures StillNamed(db, after, r) <==>
            NamedByRevision(KeepRevisions(db.content.revisions, gone), r) || NamedByExport(db.content.exportRecords, r)
  {
    var revisions, kept := db.content.revisions, KeepRevisions(db.content.revisions, gone);
    if v :| v in revisions && revisions[v].raw == r && !Went(db, after, revisions[v].post) {
      assert v in kept && kept[v].raw == r;
    }
    if NamedByRevision(kept, r) {
      var v :| v in kept && kept[v].raw == r;
      assert v in db.content.revisions && !Went(db, after, db.content.revisions[v].post);
    }
  }

  /** Revisions and links of sources go with their source, and every source that goes leaves one guard for its owner. */
  lemma LibraryRowGoesIff(db: Db, request: Request, order: seq<SourceId>, after: Db, k: Id, s: SourceId)
    requires ForeignKeys(db) && IsDeletion(db, request, order, after)
    ensures k in after.library.revisions <==>
            k in db.library.revisions && db.library.revisions[k].source in after.library.sources
    ensures k in after.library.revisions ==> after.library.revisions[k] == db.library.revisions[k]
    ensures k in after.library.links <==> k in db.library.links && db.library.links[k].source in after.library.sources
    ensures k in after.library.links ==> after.library.links[k] == db.library.links[k]
    ensures after.library.completions == db.library.completions
    ensures (k, s) in after.library.removed <==>
            || (k, s) in db.library.removed
            || (k == request.owner && s in db.library.sources && s !in after.library.sources)
  {
    TablesAfter(db, request, order, after);
    assert forall x :: x in db.library.sources ==> (x in after.library.sources <==> x !in order);
  }

  /**
   Of the captures and accounts only the target goes and no other changes; a post that stays loses
   its account exactly with it.
   */
  lemma StayingRows(db: Db, request: Request, order: seq<SourceId>, after: Db, k: Id)
    requires IsDeletion(db, request, order, after)
    ensures k in after.intake.captures <==> k in db.intake.captures && request.target != CaptureTarget(k)
    ensures k in after.intake.captures ==> after.intake.captures[k] == db.intake.captures[k]
    ensures k in after.accounts <==> k in db.accounts && request.target != ConnectionTarget(k)
    ensures k in after.accounts ==> after.accounts[k] == db.accounts[k]
    ensures after.intake.inbox == db.intake.inbox
    ensures k in after.content.posts ==>
              && k in db.content.posts
              && var account := db.content.posts[k].account;
                 var lost := account.Some? && request.target == ConnectionTarget(account.value);
                 after.content.posts[k] == db.content.posts[k].(account := if lost then None else account)
  {
    TablesAfter(db, request, order, after);
  }

  /** A raw object or a media row with these bytes went. */
  ghost predicate LostRow(before: Content, after: Content, blob: BlobKey) {
    || (exists r :: r in before.raws && r !in after.raws && before.raws[r] == blob)
    || (exists m :: m in before.media && m !in after.media && before.media[m].blob == Some(blob))
  }

  /** Tasks stay as they are, and a new one comes, pending, exactly for bytes a row that goes named. */
  lemma TaskComesIff(db: Db, request: Request, order: seq<SourceId>, after: Db, blob: BlobKey)
    requires IsDeletion(db, request, order, after)
    ensures blob in db.blobTasks ==> blob in after.blobTasks && after.blobTasks[blob] == db.blobTasks[blob]
    ensures blob !in db.blobTasks ==>
              && (blob in after.blobTasks <==> LostRow(db.content, after.content, blob))
              && (blob in after.blobTasks ==> after.blobTasks[blob] == BlobTask(false, 0))
  {
    TablesAfter(db, request, order, after);
    var gone := PostsGone(db, request.target, order);
    assert after.content.raws == db.content.raws - GoneRaws(db.content, gone);
    assert after.content.media == KeepMedia(db.content.media, gone);
    LostIffGone(db.content, gone, after.content, blob);
  }

  lemma LostIffGone(before: Content, gone: set<Id>, after: Content, blob: BlobKey)
    requires after.raws == before.raws - GoneRaws(before, gone) && after.media == KeepMedia(before.media, gone)
    ensures blob in GoneBlobs(before, gone) <==> LostRow(before, after, blob)
  {
    if blob in RawBlobs(before.raws, GoneRaws(before, gone)) {
      var r :| r in before.raws && r in GoneRaws(before, gone) && before.raws[r] == blob;
      assert r !in after.raws;
    }
    if blob in MediaBlobs(before.media, gone) {
      var m :| m in before.media && before.media[m].post in gone && before.media[m].blob == Some(blob);
      assert m !in after.media;
    }
  }
}
