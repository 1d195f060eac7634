/** What one applied owner deletion means for holdings, facts and references. */
module DeletionProperties {
  import opened Wrappers
  import opened Archive
  import opened PrivacyDeletion
  import opened Integrity
  import opened EventLog

  // ----- The net effect table by table -------------------------------------------------------

  ghost function CapturesAfter(db: Db, target: Target): map<Id, Capture> {
    if target.CaptureTarget? then db.intake.captures - {target.id} else db.intake.captures
  }

  ghost function SourcesAfterAll(db: Db, target: Target, order: seq<SourceId>): map<SourceId, Source> {
    var kept := KeepSources(db.library.sources, order);
    if target.CaptureTarget? then Repointed(kept, db.intake.captures, target.id) else kept
  }

  ghost function PostsDetached(db: Db, target: Target): map<Id, Post> {
    if target.ConnectionTarget? then PostsWithout(db.content.posts, target.id) else db.content.posts
  }

  ghost function AccountsAfter(db: Db, target: Target): map<Id, Id> {
    if target.ConnectionTarget? then db.accounts - {target.id} else db.accounts
  }

  ghost function IntakeDetached(db: Db, target: Target): Intake {
    if target.CaptureTarget?
    then db.intake.(tombstones := TombstonesWithout(db.intake.tombstones, target.id),
                    resolutions := ResolutionsWithout(db.intake.resolutions, target.id),
                    captures := CapturesAfter(db, target))
    else db.intake
  }

  /** The posts of the target that no capture, no source and no account holds afterwards. */
  ghost function PostsGone(db: Db, target: Target, order: seq<SourceId>): set<Id> {
    set p | p in AffectedPosts(db, target) &&
            Unreferenced(CapturesAfter(db, target), SourcesAfterAll(db, target, order), PostsDetached(db, target), p)
  }

  /**
   The row `e` outlives the removal of `s`: it is a removal, or it is filed neither under the target
   nor under the post.
   */
  ghost predicate MayStay(rows: map<Id, Event>, e: Id, target: Id, post: Id)
    requires e in rows
  {
    rows[e].body.SourceRemoved? || (rows[e].aggregate != target && rows[e].aggregate != post)
  }

  /** The row `e` outlives the removal of every source in `order`. */
  ghost predicate Outlives(db: Db, target: Id, order: seq<SourceId>, e: Id)
    requires e in db.outbox.rows
  {
    forall s :: s in order && s in db.library.sources ==> MayStay(db.outbox.rows, e, target, db.library.sources[s].post)
  }

  /** The identifiers of the removal facts: one for each source in `order`. */
  predicate IsMinted(db: Db, order: seq<SourceId>, e: Id) {
    db.minted <= e < db.minted + |order|
  }

  /**
   The outbox rows afterwards: one removal fact per source, and of the rows before exactly those that
   outlive all removals.
   */
  ghost predicate RowsNet(db: Db, request: Request, order: seq<SourceId>, rows: map<Id, Event>) {
    && (forall e :: e in rows <==>
      IsMinted(db, order, e) || (e in db.outbox.rows && Outlives(db, request.target.id, order, e)))
    && (forall e :: e in rows ==>
          rows[e] == if IsMinted(db, order, e) then RemovalFact(request, order[e - db.minted]) else db.outbox.rows[e])
  }

  ghost predicate OutboxNet(db: Db, request: Request, order: seq<SourceId>, outbox: Outbox) {
    RowsNet(db, request, order, outbox.rows) && outbox.log == db.outbox.log + RemovalFacts(request, order)
  }

  /** Every table of `after`, from the tables of `db` alone. */
  ghost predicate NetEffect(db: Db, request: Request, order: seq<SourceId>, after: Db) {
    var target, posts := request.target, PostsGone(db, request.target, order);
    var intake := IntakeDetached(db, target);
    && after.intake == intake.(tombstones := KeepTombstones(intake.tombstones, posts))
    && after.content == ContentAfter(db.content.(posts := PostsDetached(db, target)), posts)
    && after.library == LibraryAfter(db.library, request.owner, order).(sources := SourcesAfterAll(db, target, order))
    && OutboxNet(db, request, order, after.outbox)
    && after.accounts == AccountsAfter(db, target)
    && after.blobTasks == Scheduled(db.blobTasks, GoneBlobs(db.content, posts))
    && after.deletions == db.deletions
    && after.minted == db.minted + |order|
  }

  function RemovalFacts(request: Request, order: seq<SourceId>): seq<Event> {
    if order == [] then [] else RemovalFacts(request, order[..|order| - 1]) + [RemovalFact(request, order[|order| - 1])]
  }

  /** The sources in `order` are stored and each comes once. */
  ghost predicate Listed(db: Db, order: seq<SourceId>) {
    && (forall x :: x in order ==> x in db.library.sources)
    && (forall i, j :: 0 <= i < j < |order| ==> order[i] != order[j])
  }

  lemma ListedFront(db: Db, order: seq<SourceId>)
    requires order != [] && Listed(db, order)
    ensures Listed(db, order[..|order| - 1]) && order[|order| - 1] in db.library.sources
    ensures order[|order| - 1] !in order[..|order| - 1]
  {
    assert order[|order| - 1] in order;
  }

  /** One more source: its removal fact comes, and what is filed under the target or its post goes. */
  lemma RowsNetStep(db: Db, request: Request, order: seq<SourceId>, rows: map<Id, Event>)
    requires order != [] && Listed(db, order) && RowsNet(db, request, order[..|order| - 1], rows)
    ensures var last := order[|order| - 1];
            last in db.library.sources &&
            RowsNet(db, request, order,
                    EraseFiled(rows, request.target.id, db.library.sources[last].post)[
                      db.minted + |order| - 1 := RemovalFact(request, last)])
  {
    ListedFront(db, order);
    var front, last := order[..|order| - 1], order[|order| - 1];
    var post := db.library.sources[last].post;
    assert forall s :: s in order <==> s in front || s == last;
    forall e | e in db.outbox.rows
      ensures Outlives(db, request.target.id, order, e) <==>
              Outlives(db, request.target.id, front, e) && MayStay(db.outbox.rows, e, request.target.id, post)
    {
    }
  }

  /** One more source of stage one, from a state `mid` that has the closed form for the sources before it. */
  lemma OutboxStep(db: Db, request: Request, order: seq<SourceId>, mid: Db)
    requires order != [] && Listed(db, order)
    requires OutboxNet(db, request, order[..|order| - 1], mid.outbox) && mid.minted == db.minted + |order| - 1
    requires var last := order[|order| - 1];
             last in mid.library.sources && last in db.library.sources &&
             mid.library.sources[last].post == db.library.sources[last].post
    ensures var after := WithoutSource(mid, request, order[|order| - 1]);
            OutboxNet(db, request, order, after.outbox) && after.minted == db.minted + |order|
  {
    RowsNetStep(db, request, order, mid.outbox.rows);
    LogNetStep(db.outbox.log, request, order);
  }

  lemma LogNetStep(log: seq<Event>, request: Request, order: seq<SourceId>)
    requires order != []
    ensures log + RemovalFacts(request, order) ==
            log + RemovalFacts(request, order[..|order| - 1]) + [RemovalFact(request, order[|order| - 1])]
  {
  }

  /** Stage one leaves the closed form of the outbox, and takes one identifier per source. */
  lemma {:induction false} OutboxAfter(db: Db, request: Request, order: seq<SourceId>)
    requires Listed(db, order)
    ensures OutboxNet(db, request, order, AfterSources(db, request, order).outbox)
    ensures AfterSources(db, request, order).minted == db.minted + |order|
    decreases |order|
  {
    if order == [] {
      assert db.outbox.log + [] == db.outbox.log;
    } else {
      ListedFront(db, order);
      var front := order[..|order| - 1];
      OutboxAfter(db, request, front);
      SourcesAfter(db, request, front);
      OutboxStep(db, request, order, AfterSources(db, request, front));
    }
  }

  lemma NetEffectHolds(db: Db, request: Request, order: seq<SourceId>, after: Db)
    requires IsDeletion(db, request, order, after)
    ensures NetEffect(db, request, order, after)
  {
    assert OutboxNet(db, request, order, after.outbox) && after.minted == db.minted + |order| by {
      OutboxAfter(db, request, order);
    }
    TablesAfter(db, request, order, after);
  }

  /** The tables other than the outbox. */
  lemma TablesAfter(db: Db, request: Request, order: seq<SourceId>, after: Db)
    requires IsDeletion(db, request, order, after)
    ensures var target, posts := request.target, PostsGone(db, request.target, order);
            var intake := IntakeDetached(db, target);
            && after.intake == intake.(tombstones := KeepTombstones(intake.tombstones, posts))
            && after.content == ContentAfter(db.content.(posts := PostsDetached(db, target)), posts)
            && after.library == LibraryAfter(db.library, request.owner, order).(sources :=
              SourcesAfterAll(db, target, order))
            && after.accounts == AccountsAfter(db, target)
            && after.blobTasks == Scheduled(db.blobTasks, GoneBlobs(db.content, posts))
            && after.deletions == db.deletions
  {
    SourcesAfter(db, request, order);
    LibraryAfterAll(db, request, order);
    var mid := AfterSources(db, request, order);
    var detached := Detached(mid, request.target);
    assert detached.content == db.content.(posts := PostsDetached(db, request.target));
    assert detached.library.sources == SourcesAfterAll(db, request.target, order);
    assert detached.intake == IntakeDetached(db, request.target);
    assert GonePosts(detached, AffectedPosts(db, request.target)) == PostsGone(db, request.target, order);
  }

  // ----- Whose sources go --------------------------------------------------------------------

  /** The owner holds `post` through a capture that is not the target. */
  ghost predicate KeepsCapture(db: Db, request: Request, post: Id) {
    exists c :: c in db.intake.captures && request.target != CaptureTarget(c) &&
                db.intake.captures[c].owner == request.owner && db.intake.captures[c].post == Some(post)
  }

  /** The owner holds `post` through an official account that is not the target. */
  ghost predicate KeepsAccount(db: Db, request: Request, post: Id) {
    exists a :: a in db.accounts && request.target != ConnectionTarget(a) &&
                db.accounts[a] == request.owner && post in db.content.posts && db.content.posts[post].account == Some(a)
  }

  /** The target is a holding of `post`. */
  ghost predicate TargetHolds(db: Db, target: Target, post: Id) {
    match target
    case CaptureTarget(c) => c in db.intake.captures && db.intake.captures[c].post == Some(post)
    case ConnectionTarget(a) => post in db.content.posts && db.content.posts[post].account == Some(a)
  }

  lemma HoldingsAgree(db: Db, request: Request, post: Id)
    requires NIL !in db.intake.captures
    ensures KeepsHolding(db.intake.captures, db.content.posts, db.accounts, request, post) <==>
            KeepsCapture(db, request, post) || KeepsAccount(db, request, post)
    ensures post in AffectedPosts(db, request.target) <==> TargetHolds(db, request.target, post)
  {
    assert request.target.ConnectionTarget? ==> forall c :: c in db.intake.captures ==> c != NIL;
  }

  /** The last holding of the source `s` by the requesting owner is the target. */
  ghost predicate LosesLastHolding(db: Db, request: Request, s: SourceId)
    requires s in db.library.sources
  {
    && db.library.sources[s].owner == request.owner
    && TargetHolds(db, request.target, db.library.sources[s].post)
    && !KeepsCapture(db, request, db.library.sources[s].post)
    && !KeepsAccount(db, request, db.library.sources[s].post)
  }

  /**
   A source goes exactly when it is the requesting owner's, the target holds its post, and the
   owner keeps neither another capture of that post nor another official account on it; each
   source that goes leaves exactly one removal fact, and no other source gets one.
   */
  lemma SourceGoesIffLastHolding(db: Db, request: Request, order: seq<SourceId>, after: Db, s: SourceId)
    requires NIL !in db.intake.captures && s in db.library.sources
    requires IsDeletion(db, request, order, after)
    ensures s !in after.library.sources <==> LosesLastHolding(db, request, s)
    ensures Removals(after.outbox.log, s) ==
            Removals(db.outbox.log, s) + if LosesLastHolding(db, request, s) then 1 else 0
  {
    HoldingsAgree(db, request, db.library.sources[s].post);
    NetEffectHolds(db, request, order, after);
    assert s in order <==> LosesLastHolding(db, request, s);
    assert s in SourcesAfterAll(db, request.target, order) <==> s !in order;
    FactsAppended(db.outbox.log, request, order);
  }

  lemma {:induction false} FactsAppended(log: seq<Event>, request: Request, order: seq<SourceId>)
    requires forall i, j :: 0 <= i < j < |order| ==> order[i] != order[j]
    ensures var after := log + RemovalFacts(request, order);
            && (forall s :: Removals(after, s) == Removals(log, s) + if s in order then 1 else 0)
            && (forall s :: Stream(after, s) == if s in order then [] else Stream(log, s))
            && (forall c :: Terminals(after, c) == Terminals(log, c))
    decreases |order|
  {
    if order == [] {
      assert log + RemovalFacts(request, order) == log;
    } else {
      var last := |order| - 1;
      FactsAppended(log, request, order[..last]);
      var before := log + RemovalFacts(request, order[..last]);
      Append(before, RemovalFact(request, order[last]));
      assert log + RemovalFacts(request, order) == before + [RemovalFact(request, order[last])];
      assert forall s :: s in order <==> s in order[..last] || s == order[last];
    }
  }

  /** The first of the heirs, or nobody when there are none. */
  ghost predicate InheritedBy(first: Option<Id>, heirs: set<Id>) {
    match first
    case None => heirs == {}
    case Some(c) => c in heirs && forall d :: d in heirs ==> c <= d
  }

  /**
   A source that stays keeps its owner, its post, its revisions and its links, its reference to the
   first capture never names the deleted capture but passes to the first other capture its owner has
   of the post, and sources that did not name that capture do not change at all.
   */
  lemma KeptSourceStaysWhole(db: Db, request: Request, order: seq<SourceId>, after: Db, s: SourceId)
    requires IsDeletion(db, request, order, after)
    requires s in db.library.sources && s in after.library.sources
    ensures after.library.sources[s] == db.library.sources[s].(first := after.library.sources[s].first)
    ensures forall v :: v in db.library.revisions && db.library.revisions[v].source == s ==>
              v in after.library.revisions && after.library.revisions[v] == db.library.revisions[v]
    ensures forall l :: l in db.library.links && db.library.links[l].source == s ==>
              l in after.library.links && after.library.links[l] == db.library.links[l]
    ensures request.target.CaptureTarget? ==> after.library.sources[s].first != Some(request.target.id)
    ensures request.target.ConnectionTarget? || db.library.sources[s].first != Some(request.target.id) ==>
              after.library.sources[s] == db.library.sources[s]
    ensures request.target.CaptureTarget? && db.library.sources[s].first == Some(request.target.id) ==>
              InheritedBy(after.library.sources[s].first,
                Successors(db.intake.captures, db.library.sources[s], request.target.id))
  {
    NetEffectHolds(db, request, order, after);
    assert s in KeepSources(db.library.sources, order);
  }

  /**
   Of the outbox rows before a deletion exactly those stay, unchanged, that outlive all its removals:
   removals, and rows filed neither under the target nor under the post of a source that goes.
   */
  lemma RowStaysIffOutlives(db: Db, request: Request, order: seq<SourceId>, after: Db, e: Id)
    requires IsDeletion(db, request, order, after) && e in db.outbox.rows && e < db.minted
    ensures e in after.outbox.rows <==> Outlives(db, request.target.id, order, e)
    ensures e in after.outbox.rows ==> after.outbox.rows[e] == db.outbox.rows[e]
  {
    NetEffectHolds(db, request, order, after);
  }

  lemma SourceStaysUnlessListed(db: Db, request: Request, order: seq<SourceId>, after: Db, s: SourceId)
    requires IsDeletion(db, request, order, after) && s in db.library.sources
    ensures s in after.library.sources <==> s !in order
  {
    TablesAfter(db, request, order, after);
  }

  /**
   The cleanup is not limited to the deleting owner: a fact of another owner's source that stays is
   erased with the rest when it is filed under the post.
   */
  lemma AnotherOwnersRowGoes(db: Db, request: Request, order: seq<SourceId>, after: Db, s: SourceId, t: SourceId, e: Id)
    requires IsDeletion(db, request, order, after) && s in order && t in after.library.sources
    requires t.owner != request.owner
    requires e in db.outbox.rows && e < db.minted && IsFactOf(db.outbox.rows[e], t)
    requires s in db.library.sources && db.outbox.rows[e].aggregate == db.library.sources[s].post
    ensures e !in after.outbox.rows
  {
    RowStaysIffOutlives(db, request, order, after, e);
    assert !MayStay(db.outbox.rows, e, request.target.id, db.library.sources[s].post);
  }

  // ----- Which posts go ----------------------------------------------------------------------

  /** A post goes exactly when the target held it and afterwards no capture, source or account of anybody does. */
  lemma PostGoesIffUnheld(db: Db, request: Request, order: seq<SourceId>, after: Db, p: Id)
    requires IsDeletion(db, request, order, after)
    requires p in db.content.posts
    ensures p !in after.content.posts <==>
            && TargetHolds(db, request.target, p)
            && (forall c :: c in after.intake.captures ==> after.intake.captures[c].post != Some(p))
            && (forall s :: s in after.library.sources ==> after.library.sources[s].post != p)
            && (db.content.posts[p].account.None? ||
              request.target == ConnectionTarget(db.content.posts[p].account.value))
    ensures p in after.content.posts ==>
            after.content.posts[p] == db.content.posts[p].(account := after.content.posts[p].account)
  {
    TablesAfter(db, request, order, after);
    assert after.intake.captures == CapturesAfter(db, request.target);
    assert p in PostsGone(db, request.target, order) <==> p !in after.content.posts;
  }

  // ----- No row is left dangling -------------------------------------------------------------

  /** The transaction of an owner deletion never leaves a row that names a row it deleted. */
  lemma DeletionKeepsForeignKeys(db: Db, request: Request, order: seq<SourceId>, after: Db)
    requires ForeignKeys(db) && Evidence(db.intake, db.content.revisions)
    requires IsDeletion(db, request, order, after)
    ensures ForeignKeys(after) && Evidence(after.intake, after.content.revisions)
  {
    NetEffectHolds(db, request, order, after);
    var target, posts := request.target, PostsGone(db, request.target, order);
    var content := db.content.(posts := PostsDetached(db, target));
    KeysAfter(content, posts);
    assert ContentKeys(after.content, after.accounts.Keys) by {
      AccountKeysStay(db, target);
      ContentKeysStay(content, AccountsAfter(db, target).Keys, posts);
    }
    assert LibraryKeys(after.library, after.content.posts.Keys, after.intake.captures.Keys) by {
      LibraryKeysStay(db, request, order);
    }
    IntakeKeysStay(db, target, order);
  }

  lemma KeysAfter(content: Content, posts: set<Id>)
    ensures ContentAfter(content, posts).posts.Keys == content.posts.Keys - posts
    ensures ContentAfter(content, posts).raws.Keys == content.raws.Keys - GoneRaws(content, posts)
  {
  }

  lemma LibraryKeysStay(db: Db, request: Request, order: seq<SourceId>)
    requires LibraryKeys(db.library, db.content.posts.Keys, db.intake.captures.Keys)
    ensures LibraryKeys(LibraryAfter(db.library, request.owner, order).(sources :=
            SourcesAfterAll(db, request.target, order)),
                        PostsDetached(db, request.target).Keys - PostsGone(db, request.target, order),
                        CapturesAfter(db, request.target).Keys)
  {
    SourceKeysStay(db, request.target, order);
    LinkKeysStay(db.library, request.owner, order);
    assert SourcesAfterAll(db, request.target, order).Keys == KeepSources(db.library.sources, order).Keys;
  }

  lemma AccountKeysStay(db: Db, target: Target)
    requires ContentKeys(db.content, db.accounts.Keys)
    ensures ContentKeys(db.content.(posts := PostsDetached(db, target)), AccountsAfter(db, target).Keys)
  {
  }

  lemma ContentKeysStay(content: Content, accounts: set<Id>, posts: set<Id>)
    requires ContentKeys(content, accounts)
    ensures ContentKeys(ContentAfter(content, posts), accounts)
  {
    var after := ContentAfter(content, posts);
    forall v | v in after.revisions ensures after.revisions[v].raw in after.raws {
      assert NamedByRevision(KeepRevisions(content.revisions, posts), after.revisions[v].raw);
    }
    forall x | x in after.exportRecords && after.exportRecords[x].Some?
      ensures after.exportRecords[x].value in after.raws
    {
      assert NamedByExport(content.exportRecords, after.exportRecords[x].value);
    }
  }

  /** A post a surviving capture or source names survives. */
  lemma HeldPostStays(db: Db, target: Target, order: seq<SourceId>, p: Id)
    requires p in db.content.posts
    requires || (exists c :: c in CapturesAfter(db, target) && CapturesAfter(db, target)[c].post == Some(p))
             || (exists s :: s in SourcesAfterAll(db, target, order) && SourcesAfterAll(db, target, order)[s].post == p)
    ensures p in PostsDetached(db, target) && p !in PostsGone(db, target, order)
  {
  }

  lemma SourceKeysStay(db: Db, target: Target, order: seq<SourceId>)
    requires LibraryKeys(db.library, db.content.posts.Keys, db.intake.captures.Keys)
    ensures var sources := SourcesAfterAll(db, target, order);
            forall s :: s in sources ==>
              && sources[s].post in PostsDetached(db, target).Keys - PostsGone(db, target, order)
              && (sources[s].first.Some? ==> sources[s].first.value in CapturesAfter(db, target))
  {
    var sources := SourcesAfterAll(db, target, order);
    forall s | s in sources
      ensures sources[s].post in PostsDetached(db, target).Keys - PostsGone(db, target, order)
    {
      assert s in KeepSources(db.library.sources, order) && sources[s].post == db.library.sources[s].post;
      HeldPostStays(db, target, order, db.library.sources[s].post);
    }
  }

  lemma IntakeKeysStay(db: Db, target: Target, order: seq<SourceId>)
    requires ForeignKeys(db) && Evidence(db.intake, db.content.revisions)
    ensures var posts := PostsGone(db, target, order);
            var detached := IntakeDetached(db, target);
            var intake := detached.(tombstones := KeepTombstones(detached.tombstones, posts));
            && IntakeKeys(intake, PostsDetached(db, target).Keys - posts,
              db.content.raws.Keys - GoneRaws(db.content, posts))
            && Evidence(intake, KeepRevisions(db.content.revisions, posts))
  {
    var posts := PostsGone(db, target, order);
    var detached := IntakeDetached(db, target);
    var intake := detached.(tombstones := KeepTombstones(detached.tombstones, posts));
    CapturePostsStay(db, target, order);
    EvidenceStays(db, target, order);
    TombstoneKeysStay(db.intake, target, posts, db.content.posts.Keys);
    var kept := KeepRevisions(db.content.revisions, posts);
    forall r | r in intake.resolutions && intake.resolutions[r].raw.Some?
      ensures intake.resolutions[r].raw.value in db.content.raws.Keys - GoneRaws(db.content, posts)
    {
      var raw := intake.resolutions[r].raw.value;
      assert r in ResolutionsWithout(db.intake.resolutions, target.id) || r in db.intake.resolutions;
      assert ShownBy(intake.captures, kept, intake.resolutions[r].capture, raw);
      assert NamedByRevision(kept, raw);
    }
  }

  lemma CapturePostsStay(db: Db, target: Target, order: seq<SourceId>)
    requires ForeignKeys(db)
    ensures var captures := CapturesAfter(db, target);
            forall c :: c in captures && captures[c].post.Some? ==>
              captures[c].post.value in PostsDetached(db, target).Keys - PostsGone(db, target, order)
  {
    var captures := CapturesAfter(db, target);
    forall c | c in captures && captures[c].post.Some?
      ensures captures[c].post.value in PostsDetached(db, target).Keys - PostsGone(db, target, order)
    {
      HeldPostStays(db, target, order, captures[c].post.value);
    }
  }

  lemma EvidenceStays(db: Db, target: Target, order: seq<SourceId>)
    requires ForeignKeys(db) && Evidence(db.intake, db.content.revisions)
    ensures Evidence(IntakeDetached(db, target), KeepRevisions(db.content.revisions, PostsGone(db, target, order)))
  {
    var intake, kept := IntakeDetached(db, target), KeepRevisions(db.content.revisions, PostsGone(db, target, order));
    forall r | r in intake.resolutions && intake.resolutions[r].raw.Some?
      ensures ShownBy(intake.captures, kept, intake.resolutions[r].capture, intake.resolutions[r].raw.value)
    {
      var c, raw := db.intake.resolutions[r].capture, db.intake.resolutions[r].raw.value;
      assert ShownBy(db.intake.captures, db.content.revisions, c, raw);
      var v :| v in db.content.revisions && db.content.revisions[v].raw == raw &&
               db.intake.captures[c].post == Some(db.content.revisions[v].post);
      assert c in CapturesAfter(db, target);
      HeldPostStays(db, target, order, db.content.revisions[v].post);
      assert v in kept;
    }
  }

  lemma TombstoneKeysStay(intake: Intake, target: Target, posts: set<Id>, stored: set<Id>)
    requires forall t :: t in intake.tombstones ==> SubjectExists(intake.tombstones[t], stored, intake.captures.Keys)
    ensures var captures := if target.CaptureTarget? then intake.captures.Keys - {target.id} else intake.captures.Keys;
            var tombstones := KeepTombstones(
              if target.CaptureTarget? then TombstonesWithout(intake.tombstones, target.id)
                else intake.tombstones, posts);
            forall t :: t in tombstones ==> SubjectExists(tombstones[t], stored - posts, captures)
  {
  }

  lemma LinkKeysStay(library: Library, owner: Id, order: seq<SourceId>)
    requires forall v :: v in library.revisions ==> library.revisions[v].source in library.sources
    requires forall l :: l in library.links ==>
               library.links[l].source in library.sources &&
                 Stored(library.revisions, library.links[l].source, library.links[l].digest)
    ensures var after := LibraryAfter(library, owner, order);
            && (forall v :: v in after.revisions ==> after.revisions[v].source in after.sources)
            && (forall l :: l in after.links ==>
                  after.links[l].source in after.sources &&
                    Stored(after.revisions, after.links[l].source, after.links[l].digest))
  {
    var after := LibraryAfter(library, owner, order);
    forall l | l in after.links ensures Stored(after.revisions, after.links[l].source, after.links[l].digest) {
      var link := library.links[l];
      assert Stored(library.revisions, link.source, link.digest);
      var v :| v in library.revisions && RevisionOf(library.revisions, link.source, v) &&
        library.revisions[v].digest == link.digest;
      assert v in after.revisions && RevisionOf(after.revisions, link.source, v);
    }
  }
}
