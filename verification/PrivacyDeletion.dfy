/**
 Owner deletion of one capture or one official connection.

 The specification is a net effect: which sources, posts and raw objects go, decided at once from
 the database the transaction started with. The methods of `DeletionStore` run the statements of
 the service one by one, with its loops, and are proved to reach exactly that net effect.
 */
module PrivacyDeletion {
  import opened Wrappers
  import opened Archive

  /** Stable replay identity and owner authorization for a deletion request. */
  datatype Request = Request(operation: Id, owner: Id, target: Target)

  datatype Refusal = TargetNotFound | OperationConflict

  // ----- Which rows an owner deletion reaches ------------------------------------------------

  /** The posts the target holds for its owner. */
  function AffectedPosts(db: Db, target: Target): set<Id> {
    match target
    case CaptureTarget(c) =>
      if c in db.intake.captures && db.intake.captures[c].post.Some? then {db.intake.captures[c].post.value} else {}
    case ConnectionTarget(a) => PostsOf(db.content.posts, a)
  }

  function PostsOf(posts: map<Id, Post>, account: Id): set<Id> {
    set p | p in posts && posts[p].account == Some(account)
  }

  predicate HoldsByCapture(captures: map<Id, Capture>, owner: Id, post: Id, except: Id) {
    exists c :: c in captures && c != except && captures[c].owner == owner && captures[c].post == Some(post)
  }

  predicate HoldsByAccount(posts: map<Id, Post>, accounts: map<Id, Id>, owner: Id, post: Id, except: Option<Id>) {
    && post in posts
    && posts[post].account.Some?
    && posts[post].account.value in accounts
    && accounts[posts[post].account.value] == owner
    && except != posts[post].account
  }

  /** Whether the owner still holds `post` once the target is gone. */
  predicate KeepsHolding(
    captures: map<Id, Capture>, posts: map<Id, Post>, accounts: map<Id, Id>, request: Request, post: Id)
  {
    match request.target
    case CaptureTarget(c) =>
      HoldsByCapture(captures, request.owner, post, c) || HoldsByAccount(posts, accounts, request.owner, post, None)
    case ConnectionTarget(a) =>
      HoldsByCapture(captures, request.owner, post, NIL) ||
        HoldsByAccount(posts, accounts, request.owner, post, Some(a))
  }

  /** Those of `posts` whose last holding of the owner is the target. */
  ghost function FinalPosts(db: Db, request: Request, posts: set<Id>): set<Id> {
    set p | p in posts && !KeepsHolding(db.intake.captures, db.content.posts, db.accounts, request, p)
  }

  function SourcesOf(sources: map<SourceId, Source>, owner: Id, posts: set<Id>): set<SourceId> {
    set s | s in sources && sources[s].owner == owner && sources[s].post in posts
  }

  /** The owner's sources of `posts` that lose their last holding. */
  ghost function GoneSources(db: Db, request: Request, posts: set<Id>): set<SourceId> {
    SourcesOf(db.library.sources, request.owner, FinalPosts(db, request, posts))
  }

  predicate Unreferenced(captures: map<Id, Capture>, sources: map<SourceId, Source>, posts: map<Id, Post>, post: Id) {
    && !(exists c :: c in captures && captures[c].post == Some(post))
    && !(exists s :: s in sources && sources[s].post == post)
    && !(post in posts && posts[post].account.Some?)
  }

  ghost function GonePosts(db: Db, posts: set<Id>): set<Id> {
    set p | p in posts && Unreferenced(db.intake.captures, db.library.sources, db.content.posts, p)
  }

  function KeepRevisions(revisions: map<Id, PostRevision>, posts: set<Id>): map<Id, PostRevision> {
    map v | v in revisions && revisions[v].post !in posts :: revisions[v]
  }

  predicate NamedByRevision(revisions: map<Id, PostRevision>, raw: Id) {
    exists v :: v in revisions && revisions[v].raw == raw
  }

  predicate NamedByExport(exports: map<Id, Option<Id>>, raw: Id) {
    exists x :: x in exports && exports[x] == Some(raw)
  }

  function RawsOf(revisions: map<Id, PostRevision>, posts: set<Id>): set<Id> {
    set v | v in revisions && revisions[v].post in posts :: revisions[v].raw
  }

  ghost function Unnamed(
    stored: set<Id>, revisions: map<Id, PostRevision>, exports: map<Id, Option<Id>>, raws: set<Id>): set<Id>
  {
    set r | r in raws && r in stored && !NamedByRevision(revisions, r) && !NamedByExport(exports, r)
  }

  /** The raw objects that revisions of `posts` name and nothing else does. */
  ghost function Orphaned(
    stored: set<Id>, revisions: map<Id, PostRevision>, exports: map<Id, Option<Id>>, posts: set<Id>): set<Id>
  {
    Unnamed(stored, KeepRevisions(revisions, posts), exports, RawsOf(revisions, posts))
  }

  ghost function GoneRaws(content: Content, posts: set<Id>): set<Id> {
    Orphaned(content.raws.Keys, content.revisions, content.exportRecords, posts)
  }

  function MediaBlobs(media: map<Id, Media>, posts: set<Id>): set<BlobKey> {
    set m | m in media && media[m].post in posts && media[m].blob.Some? :: media[m].blob.value
  }

  function RawBlobs(raws: map<Id, BlobKey>, gone: set<Id>): set<BlobKey> {
    set r | r in raws && r in gone :: raws[r]
  }

  /** The stored bytes the rows of `posts` stop naming. */
  ghost function GoneBlobs(content: Content, posts: set<Id>): set<BlobKey> {
    MediaBlobs(content.media, posts) + RawBlobs(content.raws, GoneRaws(content, posts))
  }

  function Scheduled(tasks: map<BlobKey, BlobTask>, blobs: set<BlobKey>): map<BlobKey, BlobTask> {
    (map k | k in blobs :: BlobTask(false, 0)) + tasks
  }

  // ----- The net effect, stage by stage ------------------------------------------------------

  function RemovalFact(request: Request, source: SourceId): Event {
    Event(SourceRemoved(source, request.owner, request.operation), request.target.id)
  }

  function KeepSources(sources: map<SourceId, Source>, order: seq<SourceId>): map<SourceId, Source> {
    map s | s in sources && s !in order :: sources[s]
  }

  function KeepSourceRevisions(revisions: map<Id, SourceRevision>, order: seq<SourceId>): map<Id, SourceRevision> {
    map v | v in revisions && revisions[v].source !in order :: revisions[v]
  }

  function KeepLinks(links: map<Id, Link>, order: seq<SourceId>): map<Id, Link> {
    map l | l in links && links[l].source !in order :: links[l]
  }

  function Guards(owner: Id, order: seq<SourceId>): set<(Id, SourceId)> {
    set s | s in order :: (owner, s)
  }

  /** The sources in `order` go with their revisions and links, each leaving one removal guard. */
  ghost function LibraryAfter(library: Library, owner: Id, order: seq<SourceId>): Library {
    library.(sources := KeepSources(library.sources, order),
             revisions := KeepSourceRevisions(library.revisions, order),
             links := KeepLinks(library.links, order),
             removed := library.removed + Guards(owner, order))
  }

  /** The outbox without the rows, removals excepted, that are filed under `target` or `post`. */
  function EraseFiled(rows: map<Id, Event>, target: Id, post: Id): map<Id, Event> {
    map e | e in rows && (rows[e].body.SourceRemoved? || rows[e].aggregate !in {target, post}) :: rows[e]
  }

  /** One source goes: what is filed under the target or its post is erased, and its removal fact is appended. */
  ghost function WithoutSource(db: Db, request: Request, s: SourceId): Db {
    if s !in db.library.sources then db
    else
      db.(library := LibraryAfter(db.library, request.owner, [s]),
          outbox := db.outbox.(rows := EraseFiled(db.outbox.rows, request.target.id, db.library.sources[s].post))
                             .Insert(db.minted, RemovalFact(request, s)),
          minted := db.minted + 1)
  }

  /** Stage one: the sources in `order` go, one after the other. */
  ghost function AfterSources(db: Db, request: Request, order: seq<SourceId>): Db {
    if order == [] then db
    else WithoutSource(AfterSources(db, request, order[..|order| - 1]), request, order[|order| - 1])
  }

  /** The owner's other captures of the same post, which a source may be repointed to. */
  function Successors(captures: map<Id, Capture>, source: Source, capture: Id): set<Id> {
    set c | c in captures && c != capture && captures[c].owner == source.owner && captures[c].post == Some(source.post)
  }

  function FirstOf(candidates: set<Id>): (first: Option<Id>)
    ensures first.None? <==> candidates == {}
    ensures first.Some? ==> first.value in candidates && forall d :: d in candidates ==> first.value <= d
  {
    if candidates == {} then None
    else
      SomeLeast(candidates);
      var c :| c in candidates && forall d :: d in candidates ==> c <= d;
      Some(c)
  }

  lemma {:induction false} HasLeast(candidates: set<Id>) returns (least: Id)
    requires candidates != {}
    ensures least in candidates && forall d :: d in candidates ==> least <= d
  {
    least :| least in candidates;
    var rest := candidates - {least};
    assert forall d :: d in candidates ==> d == least || d in rest;
    if rest == {} {
    } else {
      var other := HasLeast(rest);
      least := if other < least then other else least;
    }
  }

  lemma SomeLeast(candidates: set<Id>)
    requires candidates != {}
    ensures exists c :: c in candidates && forall d :: d in candidates ==> c <= d
  {
    var least := HasLeast(candidates);
  }

  function Repointed(sources: map<SourceId, Source>, captures: map<Id, Capture>, capture: Id): map<SourceId, Source> {
    map s | s in sources ::
      if sources[s].first == Some(capture)
      then sources[s].(first := FirstOf(Successors(captures, sources[s], capture))) else sources[s]
  }

  /** Evidence that also names a post outlives the capture; evidence that only names the capture does not. */
  function TombstonesWithout(tombstones: map<Id, Tombstone>, capture: Id): map<Id, Tombstone> {
    map t | t in tombstones && !(tombstones[t].capture == Some(capture) && tombstones[t].post.None?)
      :: if tombstones[t].capture == Some(capture) then tombstones[t].(capture := None) else tombstones[t]
  }

  function ResolutionsWithout(resolutions: map<Id, Resolution>, capture: Id): map<Id, Resolution> {
    map r | r in resolutions && resolutions[r].capture != capture :: resolutions[r]
  }

  function PostsWithout(posts: map<Id, Post>, account: Id): map<Id, Post> {
    map p | p in posts :: if posts[p].account == Some(account) then posts[p].(account := None) else posts[p]
  }

  /** Stage two: the target itself goes, and what pointed at it is repointed or detached. */
  ghost function Detached(db: Db, target: Target): Db {
    match target
    case CaptureTarget(c) =>
      db.(library := db.library.(sources := Repointed(db.library.sources, db.intake.captures, c)),
          intake := db.intake.(tombstones := TombstonesWithout(db.intake.tombstones, c),
                               resolutions := ResolutionsWithout(db.intake.resolutions, c),
                               captures := db.intake.captures - {c}))
    case ConnectionTarget(a) =>
      db.(content := db.content.(posts := PostsWithout(db.content.posts, a)), accounts := db.accounts - {a})
  }

  /** `require_owned_locked`: the target exists and belongs to the requesting owner. */
  predicate Owned(captures: map<Id, Capture>, accounts: map<Id, Id>, request: Request) {
    match request.target
    case CaptureTarget(c) => c in captures && captures[c].owner == request.owner
    case ConnectionTarget(a) => a in accounts && accounts[a] == request.owner
  }

  /** What `apply` answers and leaves: a replay or a refusal leaves the database alone. */
  ghost predicate Applied(db: Db, request: Request, result: Result<bool, Refusal>, after: Db) {
    if request.operation in db.deletions then
      && after == db
      && result == if db.deletions[request.operation] == (request.owner, request.target)
                   then Success(false) else Failure(OperationConflict)
    else if !Owned(db.intake.captures, db.accounts, request) then
      after == db && result == Failure(TargetNotFound)
    else
      && result == Success(true)
      && DeletionEffect(db.(deletions := db.deletions[request.operation := (request.owner, request.target)]), request,
        after)
  }

  /** The net effect of one request; `order` is the order its removal facts are appended in. */
  ghost function Deleted(db: Db, request: Request, order: seq<SourceId>): Db {
    var detached := Detached(AfterSources(db, request, order), request.target);
    AfterPosts(detached, GonePosts(detached, AffectedPosts(db, request.target)))
  }

  /** `after` is what one applied request leaves of `db`. */
  ghost predicate DeletionEffect(db: Db, request: Request, after: Db) {
    exists order :: IsDeletion(db, request, order, after)
  }

  ghost predicate IsDeletion(db: Db, request: Request, order: seq<SourceId>, after: Db) {
    && Enumerates(order, GoneSources(db, request, AffectedPosts(db, request.target)))
    && after == Deleted(db, request, order)
  }

  function KeepMedia(media: map<Id, Media>, posts: set<Id>): map<Id, Media> {
    map m | m in media && media[m].post !in posts :: media[m]
  }

  function KeepRelations(relations: map<Id, Relation>, posts: set<Id>): map<Id, Relation> {
    map r | r in relations && relations[r].referencing !in posts &&
            !(relations[r].target.Some? && relations[r].target.value in posts) :: relations[r]
  }

  function KeepTombstones(tombstones: map<Id, Tombstone>, posts: set<Id>): map<Id, Tombstone> {
    map t | t in tombstones && !(tombstones[t].post.Some? && tombstones[t].post.value in posts) :: tombstones[t]
  }

  ghost function ContentAfter(content: Content, posts: set<Id>): Content {
    content.(media := KeepMedia(content.media, posts),
             relations := KeepRelations(content.relations, posts),
             revisions := KeepRevisions(content.revisions, posts),
             raws := content.raws - GoneRaws(content, posts),
             posts := content.posts - posts)
  }

  /** Stage three: `posts` go with every row that names them, and their bytes get a task. */
  ghost function AfterPosts(db: Db, posts: set<Id>): Db {
    db.(content := ContentAfter(db.content, posts),
        intake := db.intake.(tombstones := KeepTombstones(db.intake.tombstones, posts)),
        blobTasks := Scheduled(db.blobTasks, GoneBlobs(db.content, posts)))
  }

  // ----- The statements of the service -------------------------------------------------------

  ghost predicate Enumerates<T(!new)>(order: seq<T>, elements: set<T>) {
    && (forall x :: x in order <==> x in elements)
    && (forall i, j :: 0 <= i < j < |order| ==> order[i] != order[j])
  }

  /** The members of a set in some order; the service orders by identifier, which changes no row. */
  method Enumerate<T(==, !new)>(elements: set<T>) returns (order: seq<T>)
    ensures Enumerates(order, elements)
  {
    order := [];
    var rest := elements;
    while rest != {}
      invariant rest <= elements
      invariant Enumerates(order, elements - rest)
      decreases rest
    {
      var x :| x in rest;
      order, rest := order + [x], rest - {x};
    }
  }

  /** `schedule_blob_task` for each of `blobs`; a task row that exists stays as it is. */
  method ScheduleBlobTasks(blobs: seq<BlobKey>, tasks: map<BlobKey, BlobTask>) returns (tasks': map<BlobKey, BlobTask>)
    ensures tasks' == Scheduled(tasks, Members(blobs))
  {
    tasks' := tasks;
    for i := 0 to |blobs|
      invariant tasks' == Scheduled(tasks, Members(blobs[..i]))
    {
      assert Members(blobs[..i + 1]) == Members(blobs[..i]) + {blobs[i]};
      ScheduledTwice(tasks, Members(blobs[..i]), {blobs[i]});
      ScheduledOnce(tasks', blobs[i]);
      if blobs[i] !in tasks' {
        tasks' := tasks'[blobs[i] := BlobTask(false, 0)];
      }
    }
    assert blobs[..|blobs|] == blobs;
  }

  /** Deletes the raw rows among `raws` that no revision and no export record names any more. */
  method RemoveRaws(raws: seq<Id>, content: Content, tasks: map<BlobKey, BlobTask>)
    returns (stored: map<Id, BlobKey>, tasks': map<BlobKey, BlobTask>)
    ensures var gone := Unnamed(content.raws.Keys, content.revisions, content.exportRecords, Members(raws));
            stored == content.raws - gone && tasks' == Scheduled(tasks, RawBlobs(content.raws, gone))
  {
    stored, tasks' := content.raws, tasks;
    ghost var gone: set<Id> := {};
    for i := 0 to |raws|
      invariant gone == Unnamed(content.raws.Keys, content.revisions, content.exportRecords, Members(raws[..i]))
      invariant stored == content.raws - gone
      invariant tasks' == Scheduled(tasks, RawBlobs(content.raws, gone))
    {
      var r := raws[i];
      assert Members(raws[..i + 1]) == Members(raws[..i]) + {r};
      if r in stored && !NamedByRevision(content.revisions, r) && !NamedByExport(content.exportRecords, r) {
        OneMoreRaw(content.raws, tasks, gone, r);
        tasks' := ScheduleBlobTasks([stored[r]], tasks');
        stored := stored - {r};
        gone := gone + {r};
      }
    }
    assert raws[..|raws|] == raws;
  }

  class DeletionStore {
    const database: Database

    constructor (database: Database)
      ensures this.database == database
    {
      this.database := database;
    }

    /** One round of the loop over source ids: erase what is filed, append the fact, guard, delete. */
    method RemoveSource(request: Request, s: SourceId)
      requires s in database.library.sources
      modifies database`library, database`outbox, database`minted
      ensures database.View() == WithoutSource(old(database.View()), request, s)
    {
      database.outbox := database.outbox.(
        rows := EraseFiled(database.outbox.rows, request.target.id, database.library.sources[s].post));
      database.outbox := database.outbox.Insert(database.minted, RemovalFact(request, s));
      database.minted := database.minted + 1;
      assert Guards(request.owner, [s]) == {(request.owner, s)};
      var library := database.library;
      library := library.(removed := library.removed + {(request.owner, s)});
      library := library.(links := KeepLinks(library.links, [s]));
      library := library.(revisions := KeepSourceRevisions(library.revisions, [s]));
      database.library := library.(sources := KeepSources(library.sources, [s]));
    }

    /** Removes the owner's sources of `post` unless another holding keeps them. */
    method RemoveFinalOwnerSource(request: Request, post: Id) returns (order: seq<SourceId>)
      modifies database`library, database`outbox, database`minted
      ensures Enumerates(order, GoneSources(old(database.View()), request, {post}))
      ensures database.View() == AfterSources(old(database.View()), request, order)
    {
      ghost var entry := database.View();
      order := [];
      if KeepsHolding(database.intake.captures, database.content.posts, database.accounts, request, post) {
        return;
      }
      assert FinalPosts(entry, request, {post}) == {post};
      var found := Enumerate(SourcesOf(database.library.sources, request.owner, {post}));
      for i := 0 to |found|
        invariant order == found[..i]
        invariant database.View() == AfterSources(entry, request, order)
      {
        assert found[i] in found && found[..i + 1][..i] == order;
        SourcesAfter(entry, request, order);
        RemoveSource(request, found[i]);
        order := order + [found[i]];
      }
    }

    /** Deletes `post` with every row naming it once nothing holds it. */
    method RemoveUnreferencedPost(post: Id)
      modifies database`content, database`intake, database`blobTasks
      ensures database.View() ==
              if Unreferenced(old(database.intake.captures), old(database.library.sources), old(database.content.posts),
                post)
              then AfterPosts(old(database.View()), {post}) else old(database.View())
    {
      if !Unreferenced(database.intake.captures, database.library.sources, database.content.posts, post) {
        return;
      }
      var content, tasks := database.content, database.blobTasks;
      var blobs := Enumerate(MediaBlobs(content.media, {post}));
      assert Members(blobs) == MediaBlobs(content.media, {post});
      tasks := ScheduleBlobTasks(blobs, tasks);
      content := content.(media := KeepMedia(content.media, {post}));
      content := content.(relations := KeepRelations(content.relations, {post}));
      var raws := Enumerate(RawsOf(content.revisions, {post}));
      assert Members(raws) == RawsOf(content.revisions, {post});
      content := content.(revisions := KeepRevisions(content.revisions, {post}));
      var stored;
      stored, tasks := RemoveRaws(raws, content, tasks);
      content := content.(raws := stored);
      ScheduledTwice(database.blobTasks, Members(blobs),
        RawBlobs(database.content.raws, GoneRaws(database.content, {post})));
      database.blobTasks := tasks;
      database.intake := database.intake.(tombstones := KeepTombstones(database.intake.tombstones, {post}));
      database.content := content.(posts := content.posts - {post});
    }

    /** Applies one stable owner deletion request; a replay of an applied request changes nothing. */
    method Apply(request: Request) returns (result: Result<bool, Refusal>)
      modifies database
      ensures Applied(old(database.View()), request, result, database.View())
      ensures var known := request.operation in old(database.deletions);
              var owned := match request.target
                           case CaptureTarget(c) =>
                             c in old(database.intake.captures) &&
                             old(database.intake.captures)[c].owner == request.owner
                           case ConnectionTarget(a) =>
                             a in old(database.accounts) && old(database.accounts)[a] == request.owner;
              && (result == Success(true) <==> !known && owned)
              && (result == Failure(TargetNotFound) <==> !known && !owned)
              && (result != Success(true) ==> database.View() == old(database.View()))
    {
      if request.operation in database.deletions {
        if database.deletions[request.operation] != (request.owner, request.target) {
          return Failure(OperationConflict);
        }
        return Success(false);
      }
      if !Owned(database.intake.captures, database.accounts, request) {
        return Failure(TargetNotFound);
      }
      database.deletions := database.deletions[request.operation := (request.owner, request.target)];
      ghost var recorded := database.View();
      ghost var order := ApplyTargetRows(request);
      assert IsDeletion(recorded, request, order, database.View());
      return Success(true);
    }

    method ApplyTargetRows(request: Request) returns (order: seq<SourceId>)
      requires Owned(database.intake.captures, database.accounts, request)
      modifies database
      ensures IsDeletion(old(database.View()), request, order, database.View())
    {
      match request.target {
        case CaptureTarget(capture) => order := ApplyCapture(request, capture);
        case ConnectionTarget(account) => order := ApplyConnection(request, account);
      }
    }

    method ApplyCapture(request: Request, capture: Id) returns (order: seq<SourceId>)
      requires request.target == CaptureTarget(capture) && Owned(database.intake.captures, database.accounts, request)
      modifies database
      ensures IsDeletion(old(database.View()), request, order, database.View())
    {
      var post := database.intake.captures[capture].post;
      var posts := if post.Some? then [post.value] else [];
      assert Members(posts) == AffectedPosts(database.View(), request.target);
      order := RemoveFinalOwnerSources(request, posts);
      DetachCapture(capture);
      RemoveUnreferencedPosts(posts);
    }

    method ApplyConnection(request: Request, account: Id) returns (order: seq<SourceId>)
      requires request.target == ConnectionTarget(account)
      requires Owned(database.intake.captures, database.accounts, request)
      modifies database
      ensures IsDeletion(old(database.View()), request, order, database.View())
    {
      var posts := Enumerate(PostsOf(database.content.posts, account));
      assert Members(posts) == AffectedPosts(database.View(), request.target);
      order := RemoveFinalOwnerSources(request, posts);
      DetachConnection(account);
      RemoveUnreferencedPosts(posts);
    }

    method RemoveFinalOwnerSources(request: Request, posts: seq<Id>) returns (order: seq<SourceId>)
      requires forall i, j :: 0 <= i < j < |posts| ==> posts[i] != posts[j]
      modifies database`library, database`outbox, database`minted
      ensures Enumerates(order, GoneSources(old(database.View()), request, Members(posts)))
      ensures database.View() == AfterSources(old(database.View()), request, order)
    {
      ghost var entry := database.View();
      order := [];
      for i := 0 to |posts|
        invariant Enumerates(order, GoneSources(entry, request, Members(posts[..i])))
        invariant database.View() == AfterSources(entry, request, order)
      {
        var more := RemoveFinalOwnerSource(request, posts[i]);
        AfterSourcesConcat(entry, request, order, more);
        NextPost(entry, request, posts[..i], order, posts[i], more);
        assert posts[..i + 1] == posts[..i] + [posts[i]];
        order := order + more;
      }
      assert posts[..|posts|] == posts;
    }

    method RemoveUnreferencedPosts(posts: seq<Id>)
      modifies database`content, database`intake, database`blobTasks
      ensures database.View() == AfterPosts(old(database.View()), GonePosts(old(database.View()), Members(posts)))
    {
      ghost var entry := database.View();
      ghost var gone: set<Id> := {};
      NoPosts(entry);
      for i := 0 to |posts|
        invariant gone == GonePosts(entry, Members(posts[..i]))
        invariant database.View() == AfterPosts(entry, gone)
      {
        assert Members(posts[..i + 1]) == Members(posts[..i]) + {posts[i]};
        AfterPostsAppend(entry, gone, posts[i]);
        ReferencesStay(entry, Members(posts[..i]), posts[i]);
        RemoveUnreferencedPost(posts[i]);
        gone := GonePosts(entry, Members(posts[..i + 1]));
      }
      assert posts[..|posts|] == posts;
    }

    method DetachConnection(account: Id)
      modifies database`content, database`accounts
      ensures database.View() == Detached(old(database.View()), ConnectionTarget(account))
    {
      database.content := database.content.(posts := PostsWithout(database.content.posts, account));
      database.accounts := database.accounts - {account};
    }

    method DetachCapture(capture: Id)
      requires capture in database.intake.captures
      modifies database`library, database`intake
      ensures database.View() == Detached(old(database.View()), CaptureTarget(capture))
    {
      var intake := database.intake;
      database.library := database.library.(sources := Repointed(database.library.sources, intake.captures, capture));
      intake := intake.(tombstones := TombstonesWithout(intake.tombstones, capture));
      intake := intake.(resolutions := ResolutionsWithout(intake.resolutions, capture));
      database.intake := intake.(captures := intake.captures - {capture});
    }
  }

  lemma NextPost(
    db: Db, request: Request, posts: seq<Id>, order: seq<SourceId>, p: Id, more: seq<SourceId>)
    requires p !in posts
    requires Enumerates(order, GoneSources(db, request, Members(posts)))
    requires Enumerates(more, GoneSources(AfterSources(db, request, order), request, {p}))
    ensures Enumerates(order + more, GoneSources(db, request, Members(posts + [p])))
  {
    var mid, owner := AfterSources(db, request, order), request.owner;
    SourcesAfter(db, request, order);
    assert FinalPosts(mid, request, {p}) == FinalPosts(db, request, {p});
    assert FinalPosts(db, request, Members(posts + [p])) == FinalPosts(db, request, Members(posts)) +
      FinalPosts(db, request, {p});
    SourcesSplit(db.library.sources, owner, FinalPosts(db, request, Members(posts)), FinalPosts(db, request, {p}),
      order);
    EnumeratesConcat(order, GoneSources(db, request, Members(posts)), more, GoneSources(mid, request, {p}));
  }

  lemma SourcesSplit(sources: map<SourceId, Source>, owner: Id, posts: set<Id>, others: set<Id>, order: seq<SourceId>)
    requires posts !! others && forall s :: s in order <==> s in SourcesOf(sources, owner, posts)
    ensures SourcesOf(sources, owner, posts + others) ==
            SourcesOf(sources, owner, posts) + SourcesOf(KeepSources(sources, order), owner, others)
    ensures forall s :: s in SourcesOf(KeepSources(sources, order), owner, others) ==> s !in order
  {
  }

  lemma EnumeratesConcat<T(!new)>(order: seq<T>, elements: set<T>, more: seq<T>, others: set<T>)
    requires Enumerates(order, elements) && Enumerates(more, others) && elements !! others
    ensures Enumerates(order + more, elements + others)
  {
    assert forall x :: x in order + more <==> x in order || x in more;
    forall i, j | 0 <= i < j < |order + more| ensures (order + more)[i] != (order + more)[j] {
      if i < |order| <= j {
        assert order[i] in elements && more[j - |order|] in others;
      }
    }
  }

  lemma {:induction false} AfterSourcesConcat(db: Db, request: Request, order: seq<SourceId>, more: seq<SourceId>)
    ensures AfterSources(AfterSources(db, request, order), request, more) == AfterSources(db, request, order + more)
    decreases |more|
  {
    if more == [] {
      assert order + more == order;
    } else {
      var last := |more| - 1;
      AfterSourcesConcat(db, request, order, more[..last]);
      assert (order + more)[..|order + more| - 1] == order + more[..last];
    }
  }

  /** Stage one touches the library, the outbox and the identifier supply, and takes `order` out of the sources. */
  lemma {:induction false} SourcesAfter(db: Db, request: Request, order: seq<SourceId>)
    ensures var after := AfterSources(db, request, order);
            && after == db.(library := after.library, outbox := after.outbox, minted := after.minted)
            && after.library.sources == KeepSources(db.library.sources, order)
    decreases |order|
  {
    if order == [] {
    } else {
      var last := |order| - 1;
      SourcesAfter(db, request, order[..last]);
      assert forall x :: x in order <==> x in order[..last] || x == order[last];
    }
  }

  /** The rest of what stage one does to the library, for distinct stored sources. */
  lemma {:induction false} LibraryAfterAll(db: Db, request: Request, order: seq<SourceId>)
    requires forall s :: s in order ==> s in db.library.sources
    requires forall i, j :: 0 <= i < j < |order| ==> order[i] != order[j]
    ensures AfterSources(db, request, order).library == LibraryAfter(db.library, request.owner, order)
    decreases |order|
  {
    if order == [] {
      NoSources(db.library, request.owner);
    } else {
      var last := |order| - 1;
      LibraryAfterAll(db, request, order[..last]);
      SourcesAfter(db, request, order[..last]);
      assert order[last] in order && order == order[..last] + [order[last]];
      LibraryConcat(db.library, request.owner, order[..last], [order[last]]);
    }
  }

  lemma LibraryConcat(library: Library, owner: Id, order: seq<SourceId>, more: seq<SourceId>)
    ensures LibraryAfter(LibraryAfter(library, owner, order), owner, more) == LibraryAfter(library, owner, order + more)
  {
    assert forall x :: x in order + more <==> x in order || x in more;
    assert KeepSources(KeepSources(library.sources, order), more) == KeepSources(library.sources, order + more);
    assert KeepSourceRevisions(KeepSourceRevisions(library.revisions, order), more) ==
      KeepSourceRevisions(library.revisions, order + more);
    assert KeepLinks(KeepLinks(library.links, order), more) == KeepLinks(library.links, order + more);
    assert Guards(owner, order) + Guards(owner, more) == Guards(owner, order + more);
  }

  lemma NoSources(library: Library, owner: Id)
    ensures LibraryAfter(library, owner, []) == library
  {
    assert KeepSources(library.sources, []) == library.sources;
    assert KeepSourceRevisions(library.revisions, []) == library.revisions;
    assert KeepLinks(library.links, []) == library.links;
    assert library.removed + Guards(owner, []) == library.removed;
  }

  ghost function Members<T>(q: seq<T>): set<T> {
    set x | x in q
  }

  lemma ScheduledTwice(tasks: map<BlobKey, BlobTask>, first: set<BlobKey>, second: set<BlobKey>)
    ensures Scheduled(Scheduled(tasks, first), second) == Scheduled(tasks, first + second)
  {
  }

  lemma ScheduledOnce(tasks: map<BlobKey, BlobTask>, k: BlobKey)
    ensures Scheduled(tasks, {k}) == if k in tasks then tasks else tasks[k := BlobTask(false, 0)]
  {
  }

  lemma OneMoreRaw(stored: map<Id, BlobKey>, tasks: map<BlobKey, BlobTask>, gone: set<Id>, r: Id)
    requires r in stored
    ensures stored - gone - {r} == stored - (gone + {r})
    ensures Scheduled(Scheduled(tasks, RawBlobs(stored, gone)), Members([stored[r]])) ==
            Scheduled(tasks, RawBlobs(stored, gone + {r}))
  {
    assert Members([stored[r]]) == {stored[r]};
    ScheduledTwice(tasks, RawBlobs(stored, gone), {stored[r]});
    assert RawBlobs(stored, gone) + {stored[r]} == RawBlobs(stored, gone + {r});
  }

  /** Removing other posts does not change whether `p` is still held. */
  lemma ReferencesStay(db: Db, posts: set<Id>, p: Id)
    ensures var mid := AfterPosts(db, GonePosts(db, posts));
            var unreferenced := Unreferenced(mid.intake.captures, mid.library.sources, mid.content.posts, p);
            && unreferenced == Unreferenced(db.intake.captures, db.library.sources, db.content.posts, p)
            && GonePosts(db, posts + {p}) == if unreferenced then GonePosts(db, posts) + {p} else GonePosts(db, posts)
  {
    var held := db.content.posts - GonePosts(db, posts);
    assert AfterPosts(db, GonePosts(db, posts)).content.posts == held;
    assert p in held <==> p in db.content.posts && p !in GonePosts(db, posts);
  }

  lemma NoPosts(db: Db)
    ensures AfterPosts(db, {}) == db
  {
    assert KeepMedia(db.content.media, {}) == db.content.media;
    assert KeepRelations(db.content.relations, {}) == db.content.relations;
    assert KeepRevisions(db.content.revisions, {}) == db.content.revisions;
    assert KeepTombstones(db.intake.tombstones, {}) == db.intake.tombstones;
    assert GoneRaws(db.content, {}) == {};
    assert db.content.raws - {} == db.content.raws;
    assert db.content.posts - {} == db.content.posts;
    assert GoneBlobs(db.content, {}) == {};
    assert Scheduled(db.blobTasks, {}) == db.blobTasks;
  }

  lemma AfterPostsAppend(db: Db, posts: set<Id>, p: Id)
    ensures AfterPosts(AfterPosts(db, posts), {p}) == AfterPosts(db, posts + {p})
  {
    assert KeepTombstones(KeepTombstones(db.intake.tombstones, posts), {p}) ==
      KeepTombstones(db.intake.tombstones, posts + {p});
    ContentAppend(db.content, posts, p);
    BlobsAppend(db.content, posts, p);
    ScheduledTwice(db.blobTasks, GoneBlobs(db.content, posts), GoneBlobs(ContentAfter(db.content, posts), {p}));
  }

  lemma ContentAppend(content: Content, posts: set<Id>, p: Id)
    ensures ContentAfter(ContentAfter(content, posts), {p}) == ContentAfter(content, posts + {p})
  {
    assert KeepMedia(KeepMedia(content.media, posts), {p}) == KeepMedia(content.media, posts + {p});
    assert KeepRevisions(KeepRevisions(content.revisions, posts), {p}) == KeepRevisions(content.revisions, posts + {p});
    assert KeepRelations(KeepRelations(content.relations, posts), {p}) == KeepRelations(content.relations, posts + {p});
    assert content.posts - posts - {p} == content.posts - (posts + {p});
    RawsAppend(content.raws, content.revisions, content.exportRecords, posts, p);
  }

  lemma BlobsAppend(content: Content, posts: set<Id>, p: Id)
    ensures GoneBlobs(content, posts + {p}) == GoneBlobs(content, posts) + GoneBlobs(ContentAfter(content, posts), {p})
  {
    RawsAppend(content.raws, content.revisions, content.exportRecords, posts, p);
    MediaBlobsAppend(content.media, posts, p);
  }

  lemma RawsAppend(
    raws: map<Id, BlobKey>, revisions: map<Id, PostRevision>, exports: map<Id, Option<Id>>, posts: set<Id>, p: Id)
    ensures var gone := Orphaned(raws.Keys, revisions, exports, posts);
            var next := Orphaned((raws - gone).Keys, KeepRevisions(revisions, posts), exports, {p});
            var both := Orphaned(raws.Keys, revisions, exports, posts + {p});
            && raws - gone - next == raws - both
            && RawBlobs(raws, both) == RawBlobs(raws, gone) + RawBlobs(raws - gone, next)
  {
    OrphanedAppend(raws.Keys, revisions, exports, posts, p);
    var gone := Orphaned(raws.Keys, revisions, exports, posts);
    assert (raws - gone).Keys == raws.Keys - gone;
    var next := Orphaned((raws - gone).Keys, KeepRevisions(revisions, posts), exports, {p});
    assert forall r :: r in next ==> r in raws - gone && (raws - gone)[r] == raws[r];
  }

  lemma OrphanedAppend(
    raws: set<Id>, revisions: map<Id, PostRevision>, exports: map<Id, Option<Id>>, posts: set<Id>, p: Id)
    ensures Orphaned(raws, revisions, exports, posts + {p}) ==
            Orphaned(raws, revisions, exports, posts) +
            Orphaned(raws - Orphaned(raws, revisions, exports, posts), KeepRevisions(revisions, posts), exports, {p})
  {
    var kept := KeepRevisions(revisions, posts);
    assert KeepRevisions(kept, {p}) == KeepRevisions(revisions, posts + {p});
    assert RawsOf(revisions, posts + {p}) == RawsOf(revisions, posts) + RawsOf(kept, {p}) by {
      forall v | v in revisions && revisions[v].post in posts + {p} && revisions[v].post !in posts
        ensures revisions[v].raw in RawsOf(kept, {p})
      {
        assert v in kept;
      }
    }
    forall r | NamedByRevision(kept, r) && !NamedByRevision(KeepRevisions(kept, {p}), r)
      ensures r in RawsOf(kept, {p})
    {
      var v :| v in kept && kept[v].raw == r;
      assert kept[v].post != p ==> v in KeepRevisions(kept, {p});
    }
  }

  lemma MediaBlobsAppend(media: map<Id, Media>, posts: set<Id>, p: Id)
    ensures MediaBlobs(media, posts + {p}) == MediaBlobs(media, posts) + MediaBlobs(KeepMedia(media, posts), {p})
  {
    var kept := KeepMedia(media, posts);
    forall m | m in media && media[m].post in posts + {p} && media[m].post !in posts && media[m].blob.Some?
      ensures media[m].blob.value in MediaBlobs(kept, {p})
    {
      assert m in kept;
    }
  }
}
