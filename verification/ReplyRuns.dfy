/** The reply graph of the archive itself: what every transaction writes of it, over whole runs. */
module ReplyRuns {
  import opened Wrappers
  import opened Archive
  import opened Invariants
  import opened Transactions
  import opened Workers
  import opened Runs
  import opened ReplyGraph
  import opened ReplyStore
  import PrivacyDeletion
  import DeletionProperties

  // ----- What one transaction writes ---------------------------------------------------------

  ghost predicate RelationsFiled(content: Content) {
    forall r :: r in content.relations ==> content.relations[r].referencing in content.posts
  }

  lemma KeyIsShown(content: Content, r: Id)
    requires r in content.relations && content.relations[r].referencing in content.posts
    ensures RelationKey(content, r) in ViewOf(content).relations
  {
  }

  lemma KeyHasRow(content: Content, key: (string, string, string)) returns (r: Id)
    requires key in ViewOf(content).relations
    ensures r in content.relations && content.relations[r].referencing in content.posts
    ensures RelationKey(content, r) == key
  {
    r :| r in content.relations && content.relations[r].referencing in content.posts &&
      RelationKey(content, r) == key;
  }

  /** Rows that are the same show the same graph. */
  lemma SameRowsSameView(before: Content, after: Content)
    requires before.posts == after.posts && before.relations == after.relations
    ensures ViewOf(after) == ViewOf(before)
  {
    forall key | key in ViewOf(before).relations ensures key in ViewOf(after).relations {
      var r := KeyHasRow(before, key);
      KeyIsShown(after, r);
    }
    forall key | key in ViewOf(after).relations ensures key in ViewOf(before).relations {
      var r := KeyHasRow(after, key);
      KeyIsShown(before, r);
    }
  }

  /** Posts keep their identity, and no relation comes or goes. */
  ghost predicate SameCodes(before: Content, after: Content) {
    && RelationsFiled(before) && after.relations == before.relations
    && forall p :: p in before.posts ==> p in after.posts && after.posts[p].code == before.posts[p].code
  }

  lemma SameCodesSameRelations(before: Content, after: Content)
    requires SameCodes(before, after)
    ensures ViewOf(after).relations == ViewOf(before).relations
  {
    forall key | key in ViewOf(before).relations ensures key in ViewOf(after).relations {
      var r := KeyHasRow(before, key);
      KeyIsShown(after, r);
      assert RelationKey(after, r) == key;
    }
    forall key | key in ViewOf(after).relations ensures key in ViewOf(before).relations {
      var r := KeyHasRow(after, key);
      KeyIsShown(before, r);
      assert RelationKey(before, r) == key;
    }
  }

  lemma UpsertAddsPost(
      content: Content, id: Id, account: Option<Id>, code: string, permalink: string, p: Id, after: Content)
    requires RelationsFiled(content) && id !in content.posts
    requires PostUpserted(content, id, account, code, permalink, p, after)
    ensures SameCodes(content, after) && ViewOf(after).posts == ViewOf(content).posts + {code}
  {
    assert after.posts[p].code == code;
    forall c | c in ViewOf(content).posts ensures c in ViewOf(after).posts {
      var q :| q in content.posts && content.posts[q].code == c;
      assert after.posts[q].code == c;
    }
    forall c | c in ViewOf(after).posts ensures c in ViewOf(content).posts + {code} {
      var q :| q in after.posts && after.posts[q].code == c;
    }
  }

  lemma RelationAddsKey(db: Db, post: Id, targetCode: string, kind: string, r: Id, target: Option<Id>, after: Db)
    requires RelationsFiled(db.content) && db.minted !in db.content.relations
    requires RelationStored(db, post, targetCode, kind, r, target, after)
    ensures ViewOf(after.content) == ViewOf(db.content).(
              relations := ViewOf(db.content).relations + {(db.content.posts[post].code, targetCode, kind)})
  {
    var before, next, added := db.content, after.content, (db.content.posts[post].code, targetCode, kind);
    KeyIsShown(next, r);
    assert RelationKey(next, r) == added;
    forall key | key in ViewOf(before).relations ensures key in ViewOf(next).relations {
      var x := KeyHasRow(before, key);
      KeyIsShown(next, x);
      assert RelationKey(next, x) == key;
    }
    forall key | key in ViewOf(next).relations ensures key in ViewOf(before).relations + {added} {
      var x := KeyHasRow(next, key);
      if x != r {
        KeyIsShown(before, x);
      }
    }
  }

  /** What a deletion leaves: fewer posts and fewer relations, none of a post that went. */
  lemma DeletionForgets(before: Content, posts: map<Id, Post>, gone: set<Id>, after: Content)
    requires RelationsFiled(before) && OnePostPerCode(before.posts) && posts.Keys == before.posts.Keys
    requires forall p :: p in posts ==> posts[p].code == before.posts[p].code
    requires after.posts == posts - gone && after.relations == PrivacyDeletion.KeepRelations(before.relations, gone)
    ensures ViewOf(after).posts <= ViewOf(before).posts && ViewOf(after).relations <= ViewOf(before).relations
    ensures forall key :: key in ViewOf(after).relations ==> key.0 in ViewOf(after).posts
  {
    forall c | c in ViewOf(after).posts ensures c in ViewOf(before).posts {
      var q :| q in after.posts && after.posts[q].code == c;
      assert before.posts[q].code == c;
    }
    forall key | key in ViewOf(after).relations ensures key in ViewOf(before).relations {
      var r := KeyHasRow(after, key);
      KeyIsShown(before, r);
    }
    ViewIsRooted(after);
  }

  /** The write of the graph that a transaction is. */
  ghost function WriteOf(db: Db, tx: Tx, after: Db): Write {
    if tx.FactOf? && tx.fact.Resolve? && tx.fact.capture in db.intake.captures then
      Record(LastSegment(db.intake.captures[tx.fact.capture].url), [])
    else if tx.StoreOf? && tx.store.ObservePost? then AddPost(tx.store.code)
    else if tx.StoreOf? && tx.store.StoreRelation? && tx.store.post in db.content.posts then
      Unchecked(db.content.posts[tx.store.post].code, tx.store.targetCode, tx.store.kind)
    else Forget(ViewOf(db.content).posts - ViewOf(after.content).posts)
  }

  lemma NothingForgotten(before: Content, after: Content)
    requires ViewOf(after) == ViewOf(before)
    ensures Writes(ViewOf(before), Forget(ViewOf(before).posts - ViewOf(after).posts), ViewOf(after))
  {
    assert ViewOf(before).posts - ViewOf(after).posts == {};
  }

  /** The transaction is the write it stands for, and loses no relation unless it is a deletion. */
  ghost predicate IsWrite(db: Db, tx: Tx, after: Db) {
    && Writes(ViewOf(db.content), WriteOf(db, tx, after), ViewOf(after.content))
    && (!tx.Delete? ==> ViewOf(db.content).relations <= ViewOf(after.content).relations)
  }

  lemma QuietIsWrite(db: Db, tx: Tx, after: Db)
    requires after.content.posts == db.content.posts && after.content.relations == db.content.relations
    requires WriteOf(db, tx, after).Forget?
    ensures IsWrite(db, tx, after)
  {
    SameRowsSameView(db.content, after.content);
    NothingForgotten(db.content, after.content);
  }

  lemma ResolveIsWrite(db: Db, capture: Id, blob: BlobKey, digest: string, now: Time, after: Db)
    requires FreshContent(db.content, db.minted) && RelationsFiled(db.content)
    requires ObservationRecorded(db, capture, blob, digest, now, after)
    ensures IsWrite(db, FactOf(Resolve(capture, blob, digest, now)), after)
  {
    var p, content, mid :| ObservationStored(db, capture, blob, p, content, mid) &&
      Published(mid, Origin(mid.intake.captures[capture].owner, p, Some(capture)), digest, now, after);
    PublishedKeepsContent(mid, Origin(mid.intake.captures[capture].owner, p, Some(capture)), digest, now, after);
    var url := db.intake.captures[capture].url;
    UpsertIsRecord(db.content, db.minted + 1, LastSegment(url), url, p, content);
    SameRowsSameView(content, after.content);
  }

  lemma UpsertIsRecord(content: Content, id: Id, code: string, permalink: string, p: Id, after: Content)
    requires RelationsFiled(content) && id !in content.posts && !CycleStored(content)
    requires PostUpserted(content, id, None, code, permalink, p, after)
    ensures ViewOf(after) == Recorded(ViewOf(content), code, []) && ViewOf(after).relations == ViewOf(content).relations
  {
    UpsertAddsPost(content, id, None, code, permalink, p, after);
    SameCodesSameRelations(content, after);
    assert ViewOf(content).relations + Keys([]) == ViewOf(content).relations;
  }

  lemma ObserveIsWrite(db: Db, account: Option<Id>, code: string, permalink: string, raw: Id, after: Db)
    requires FreshContent(db.content, db.minted) && RelationsFiled(db.content)
    requires PostObserved(db, account, code, permalink, raw, after)
    ensures IsWrite(db, StoreOf(ObservePost(account, code, permalink, raw)), after)
  {
    var p, content :| PostUpserted(db.content, db.minted, account, code, permalink, p, content) &&
      after == db.(content := content.(revisions := content.revisions[db.minted + 1 := PostRevision(p, raw)]),
                   minted := db.minted + 2);
    UpsertAddsPost(db.content, db.minted, account, code, permalink, p, content);
    SameCodesSameRelations(db.content, content);
    SameRowsSameView(content, after.content);
  }

  lemma RelationIsWrite(db: Db, post: Id, targetCode: string, kind: string, after: Db)
    requires FreshContent(db.content, db.minted) && RelationsFiled(db.content)
    requires Committed(db, StoreOf(StoreRelation(post, targetCode, kind)), after)
    ensures IsWrite(db, StoreOf(StoreRelation(post, targetCode, kind)), after)
  {
    var r, target :| RelationStored(db, post, targetCode, kind, r, target, after);
    RelationAddsKey(db, post, targetCode, kind, r, target, after);
    assert db.content.posts[post].code in ViewOf(db.content).posts;
  }

  lemma FactIsWrite(db: Db, fact: FactTx, after: Db)
    requires FreshContent(db.content, db.minted) && RelationsFiled(db.content) && FactCommitted(db, fact, after)
    ensures IsWrite(db, FactOf(fact), after)
  {
    match fact
    case Resolve(capture, blob, digest, now) => ResolveIsWrite(db, capture, blob, digest, now, after);
    case MarkUnavailable(capture, availability, digest, now) =>
      var row := db.intake.captures[capture];
      if row.post.Some? {
        PublishedKeepsContent(MarkedOnly(db, capture, availability, now),
                              Origin(row.owner, row.post.value, Some(capture)), digest, now, after);
      }
      QuietIsWrite(db, FactOf(fact), after);
    case Publish(origin, digest, now) =>
      PublishedKeepsContent(db, origin, digest, now, after);
      QuietIsWrite(db, FactOf(fact), after);
  }

  lemma StoreIsWrite(db: Db, store: StoreTx, after: Db)
    requires FreshContent(db.content, db.minted) && RelationsFiled(db.content) && StoreCommitted(db, store, after)
    ensures IsWrite(db, StoreOf(store), after)
  {
    match store
    case ObservePost(account, code, permalink, raw) => ObserveIsWrite(db, account, code, permalink, raw, after);
    case StoreRelation(post, targetCode, kind) => RelationIsWrite(db, post, targetCode, kind, after);
    case _ => QuietIsWrite(db, StoreOf(store), after);
  }

  lemma DeletionIsWrite(db: Db, request: PrivacyDeletion.Request, order: seq<SourceId>, after: Db)
    requires OnePostPerCode(db.content.posts) && RelationsFiled(db.content)
    requires PrivacyDeletion.IsDeletion(db, request, order, after)
    ensures Writes(ViewOf(db.content), Forget(ViewOf(db.content).posts - ViewOf(after.content).posts),
                   ViewOf(after.content))
  {
    DeletionProperties.TablesAfter(db, request, order, after);
    var gone := DeletionProperties.PostsGone(db, request.target, order);
    DeletionForgets(db.content, DeletionProperties.PostsDetached(db, request.target), gone, after.content);
  }

  lemma DeleteIsWrite(db: Db, request: PrivacyDeletion.Request, after: Db)
    requires OnePostPerCode(db.content.posts) && RelationsFiled(db.content) && DeleteCommitted(db, request, after)
    ensures IsWrite(db, Delete(request), after)
  {
    var result :| PrivacyDeletion.Applied(db, request, result, after);
    if result == Success(true) {
      var noted := db.(deletions := db.deletions[request.operation := (request.owner, request.target)]);
      var order :| PrivacyDeletion.IsDeletion(noted, request, order, after);
      DeletionIsWrite(noted, request, order, after);
    } else {
      QuietIsWrite(db, Delete(request), after);
    }
  }

  /** Every transaction of the service is one write of the reply graph; only relations rows are written unchecked. */
  lemma CommitWrites(db: Db, tx: Tx, after: Db)
    requires Sound(db) && Committed(db, tx, after)
    ensures IsWrite(db, tx, after)
  {
    match tx
    case FactOf(fact) => FactIsWrite(db, fact, after);
    case StoreOf(store) => StoreIsWrite(db, store, after);
    case Delete(request) => DeleteIsWrite(db, request, after);
    case _ =>
      SameContent(db, tx, after);
      QuietIsWrite(db, tx, after);
  }

  // ----- Whole runs --------------------------------------------------------------------------

  /** The transaction a step commits, if it may touch the reply graph. */
  ghost function TxOf(world: World, step: Step): Option<Tx> {
    match step
    case Answered(w, answer, at) =>
      if Busy(world, w) then Some(AnswerTx(world.workers[w].queue[0].capture, answer, at).0) else None
    case Other(tx) => Some(tx)
    case _ => None
  }

  ghost function StepWrite(world: World, step: Step, next: World): Write {
    if TxOf(world, step).Some? then WriteOf(world.db, TxOf(world, step).value, next.db) else Forget({})
  }

  lemma StepWrites(policy: Policy, world: World, step: Step, next: World)
    requires Sound(world.db) && StepTo(policy, world, step, next)
    ensures Writes(ViewOf(world.db.content), StepWrite(world, step, next), ViewOf(next.db.content))
    ensures !(step.Other? && step.tx.Delete?) ==>
              ViewOf(world.db.content).relations <= ViewOf(next.db.content).relations
  {
    if TxOf(world, step).Some? {
      StepCommitsTx(policy, world, step, next);
      CommitWrites(world.db, TxOf(world, step).value, next.db);
      assert IsWrite(world.db, TxOf(world, step).value, next.db);
    } else {
      OwnStepSameContent(policy, world, step, next);
    }
  }

  lemma StepCommitsTx(policy: Policy, world: World, step: Step, next: World)
    requires StepTo(policy, world, step, next) && TxOf(world, step).Some?
    ensures Committed(world.db, TxOf(world, step).value, next.db)
    ensures TxOf(world, step).value.Delete? ==> step.Other? && step.tx.Delete?
  {
  }

  lemma OwnStepSameContent(policy: Policy, world: World, step: Step, next: World)
    requires StepTo(policy, world, step, next) && TxOf(world, step).None?
    ensures next.db.content == world.db.content
  {
    match step
    case Claim(w, now, locked) =>
      var order, queue :| Claimed(policy, world, w, now, locked, order, queue, next);
    case Announce(w) =>
      var due := world.workers[w].queue[0];
      SameContent(world.db, ScheduleOf(Report(due.capture, due.owner, due.ticket, world.workers[w].phase.terminal)),
                  next.db);
    case _ =>
  }

  ghost function Views(worlds: seq<World>): (views: seq<StoredGraph>)
    ensures |views| == |worlds| && forall k :: 0 <= k < |worlds| ==> views[k] == ViewOf(worlds[k].db.content)
  {
    if worlds == [] then [] else [ViewOf(worlds[0].db.content)] + Views(worlds[1..])
  }

  ghost function StepWritesOf(worlds: seq<World>, steps: seq<Step>): (writes: seq<Write>)
    requires |worlds| == |steps| + 1
    ensures |writes| == |steps|
    ensures forall k :: 0 <= k < |steps| ==> writes[k] == StepWrite(worlds[k], steps[k], worlds[k + 1])
  {
    if steps == [] then [] else [StepWrite(worlds[0], steps[0], worlds[1])] + StepWritesOf(worlds[1..], steps[1..])
  }

  /** A run of the archive is a run of the writers of the reply graph. */
  lemma RunProjects(policy: Policy, worlds: seq<World>, steps: seq<Step>)
    requires IsRun(policy, worlds, steps)
    ensures IsWriterRun(Views(worlds), StepWritesOf(worlds, steps))
  {
    var views, writes := Views(worlds), StepWritesOf(worlds, steps);
    assert views[0] == StoredGraph({}, {});
    forall k | 0 <= k < |writes| ensures Writes(views[k], writes[k], views[k + 1]) {
      RunHolds(policy, worlds, steps, k);
      RunStep(policy, worlds, steps, k);
      StepWrites(policy, worlds[k], steps[k], worlds[k + 1]);
    }
  }

  /**
   The step writes no reply without the check, or one whose target does not already lead back to its
   own post.
   */
  ghost predicate HarmlessStep(world: World, step: Step) {
    step.Other? && step.tx.StoreOf? && step.tx.store.StoreRelation? && step.tx.store.kind == "reply" &&
    step.tx.store.post in world.db.content.posts ==>
      var code := world.db.content.posts[step.tx.store.post].code;
      && code != step.tx.store.targetCode
      && !Leads(Replies(ViewOf(world.db.content).relations), step.tx.store.targetCode, code)
  }

  lemma HarmlessIff(world: World, step: Step, next: World)
    ensures Harmless(ViewOf(world.db.content), StepWrite(world, step, next)) <==> HarmlessStep(world, step)
  {
    if step.Other? && step.tx.StoreOf? && step.tx.store.StoreRelation? && step.tx.store.post in world.db.content.posts {
      assert world.db.content.posts[step.tx.store.post].code in ViewOf(world.db.content).posts;
    }
  }

  /** No run of the archive ever stores a cycle of replies exactly when every unchecked reply in it is harmless. */
  lemma ArchiveStaysAcyclicIff(policy: Policy, worlds: seq<World>, steps: seq<Step>)
    requires IsRun(policy, worlds, steps)
    ensures (forall i :: 0 <= i < |worlds| ==> !CycleStored(worlds[i].db.content)) <==>
            (forall k :: 0 <= k < |steps| ==> HarmlessStep(worlds[k], steps[k]))
  {
    var views, writes := Views(worlds), StepWritesOf(worlds, steps);
    RunProjects(policy, worlds, steps);
    RunStaysAcyclicIff(views, writes);
    forall i | 0 <= i < |worlds| ensures Acyclic(views[i]) <==> !CycleStored(worlds[i].db.content) {
      ViewIsRooted(worlds[i].db.content);
    }
    forall k | 0 <= k < |steps| ensures Harmless(views[k], writes[k]) <==> HarmlessStep(worlds[k], steps[k]) {
      HarmlessIff(worlds[k], steps[k], worlds[k + 1]);
    }
  }

  // ----- What a stored cycle does ------------------------------------------------------------

  ghost predicate KeepsRelations(world: World, next: World) {
    ViewOf(world.db.content).relations <= ViewOf(next.db.content).relations
  }

  lemma {:induction false} CycleStays(worlds: seq<World>, i: nat, j: nat)
    requires i <= j < |worlds| && CycleStored(worlds[i].db.content)
    requires forall k :: i <= k < j ==> KeepsRelations(worlds[k], worlds[k + 1])
    ensures CycleStored(worlds[j].db.content)
    decreases j
  {
    if i == j {
    } else {
      CycleStays(worlds, i, j - 1);
      MoreReplies(ViewOf(worlds[j - 1].db.content).relations, ViewOf(worlds[j].db.content).relations);
    }
  }

  lemma MoreReplies(some: set<(string, string, string)>, all: set<(string, string, string)>)
    requires some <= all
    ensures HasCycle(Replies(some)) ==> HasCycle(Replies(all))
  {
    forall e | e in Replies(some) ensures e in Replies(all) {
      assert (e.0, e.1, "reply") in all;
    }
    FewerEdges(Replies(some), Replies(all));
  }

  /** The step stores a page that was found. */
  predicate StoresPage(step: Step) {
    (step.Answered? && step.answer.Found?) || (step.Other? && step.tx.FactOf? && step.tx.fact.Resolve?)
  }

  /**
   Once a cycle is stored, no page of any post is stored any more, until an owner deletion: the test
   runs over all stored replies for every observation.
   */
  lemma CycleRefusesEveryPage(policy: Policy, worlds: seq<World>, steps: seq<Step>, i: nat, j: nat)
    requires IsRun(policy, worlds, steps) && i <= j < |steps| && CycleStored(worlds[i].db.content)
    requires forall k :: i <= k < j ==> !(steps[k].Other? && steps[k].tx.Delete?)
    ensures CycleStored(worlds[j].db.content) && !StoresPage(steps[j])
  {
    forall k | i <= k < j ensures KeepsRelations(worlds[k], worlds[k + 1]) {
      RunHolds(policy, worlds, steps, k);
      RunStep(policy, worlds, steps, k);
      StepWrites(policy, worlds[k], steps[k], worlds[k + 1]);
    }
    CycleStays(worlds, i, j);
    RunStep(policy, worlds, steps, j);
    if StoresPage(steps[j]) {
      PageNeedsNoCycle(policy, worlds[j], steps[j], worlds[j + 1]);
    }
  }

  lemma PageNeedsNoCycle(policy: Policy, world: World, step: Step, next: World)
    requires StepTo(policy, world, step, next) && StoresPage(step)
    ensures !CycleStored(world.db.content)
  {
    StepCommitsTx(policy, world, step, next);
  }
}
