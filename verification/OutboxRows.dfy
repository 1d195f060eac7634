/** The outbox table under the transactions of the service: which rows stay, and how they appear to the relay. */
module OutboxRows {
  import opened Wrappers
  import opened Archive
  import opened Transactions
  import opened Workers
  import opened Runs
  import opened OutboxRelay
  import OutboxPump
  import Schedule
  import PrivacyDeletion
  import DeletionProperties

  // ----- What one transaction does to the rows -----------------------------------------------

  /** Identifiers below the supply are the only ones in use. */
  ghost predicate Posted(rows: map<Id, Event>, minted: Id) {
    forall e :: e in rows ==> e < minted
  }

  ghost predicate IsInsert(rows: map<Id, Event>, id: Id, event: Event, rows': map<Id, Event>) {
    rows' == rows[id := event]
  }

  /** The transaction leaves the rows alone, or inserts one under a fresh identifier. */
  ghost predicate InsertsAtMostOne(rows: map<Id, Event>, minted: Id, rows': map<Id, Event>, minted': Id) {
    && minted <= minted'
    && (rows' == rows || exists id, event :: minted <= id < minted' && IsInsert(rows, id, event, rows'))
  }

  lemma PublishInserts(db: Db, origin: Origin, digest: string, now: Time, after: Db)
    requires Published(db, origin, digest, now, after)
    ensures InsertsAtMostOne(db.outbox.rows, db.minted, after.outbox.rows, after.minted)
  {
    var s, latest, library :| FactAppended(db, origin, digest, now, s, latest, library, after);
    if after.outbox != db.outbox {
      assert IsInsert(db.outbox.rows, db.minted + 1, after.outbox.rows[db.minted + 1], after.outbox.rows);
    }
  }

  lemma FactInserts(db: Db, tx: FactTx, after: Db)
    requires FactCommitted(db, tx, after)
    ensures InsertsAtMostOne(db.outbox.rows, db.minted, after.outbox.rows, after.minted)
  {
    match tx
    case Resolve(capture, blob, digest, now) =>
      var p, content, mid :| ObservationStored(db, capture, blob, p, content, mid) &&
        Published(mid, Origin(mid.intake.captures[capture].owner, p, Some(capture)), digest, now, after);
      PublishInserts(mid, Origin(mid.intake.captures[capture].owner, p, Some(capture)), digest, now, after);
    case MarkUnavailable(capture, availability, digest, now) =>
      var row := db.intake.captures[capture];
      if row.post.Some? {
        PublishInserts(MarkedOnly(db, capture, availability, now), Origin(row.owner, row.post.value, Some(capture)),
                       digest, now, after);
      }
    case Publish(origin, digest, now) => PublishInserts(db, origin, digest, now, after);
  }

  lemma IntakeInserts(db: Db, tx: IntakeTx, after: Db)
    requires IntakeCommitted(db, tx, after)
    ensures InsertsAtMostOne(db.outbox.rows, db.minted, after.outbox.rows, after.minted)
  {
    if after.outbox != db.outbox {
      var id := after.minted - 1;
      assert IsInsert(db.outbox.rows, id, after.outbox.rows[id], after.outbox.rows);
    }
  }

  lemma ScheduleInserts(db: Db, tx: ScheduleTx, after: Db)
    requires ScheduleCommitted(db, tx, after)
    ensures InsertsAtMostOne(db.outbox.rows, db.minted, after.outbox.rows, after.minted)
  {
    if after.outbox != db.outbox {
      assert IsInsert(db.outbox.rows, db.minted, after.outbox.rows[db.minted], after.outbox.rows);
    }
  }

  /** No transaction but an owner deletion erases a row. */
  lemma CommitInserts(db: Db, tx: Tx, after: Db)
    requires Committed(db, tx, after) && !tx.Delete?
    ensures InsertsAtMostOne(db.outbox.rows, db.minted, after.outbox.rows, after.minted)
  {
    match tx
    case IntakeOf(intake) => IntakeInserts(db, intake, after);
    case ScheduleOf(schedule) => ScheduleInserts(db, schedule, after);
    case FactOf(fact) => FactInserts(db, fact, after);
    case _ =>
  }

  /** Removal rows stay as they are, and identifiers stay fresh. */
  ghost predicate RemovalsStay(rows: map<Id, Event>, minted: Id, rows': map<Id, Event>, minted': Id) {
    && Posted(rows', minted') && minted <= minted'
    && forall e :: e in rows && rows[e].body.SourceRemoved? ==> e in rows' && rows'[e] == rows[e]
  }

  lemma DeleteKeepsRemovals(db: Db, request: PrivacyDeletion.Request, after: Db)
    requires Posted(db.outbox.rows, db.minted) && DeleteCommitted(db, request, after)
    ensures RemovalsStay(db.outbox.rows, db.minted, after.outbox.rows, after.minted)
  {
    var result :| PrivacyDeletion.Applied(db, request, result, after);
    if result == Success(true) {
      var noted := db.(deletions := db.deletions[request.operation := (request.owner, request.target)]);
      var order :| PrivacyDeletion.IsDeletion(noted, request, order, after);
      DeletionKeepsRemovals(noted, request, order, after);
    }
  }

  lemma DeletionKeepsRemovals(db: Db, request: PrivacyDeletion.Request, order: seq<SourceId>, after: Db)
    requires Posted(db.outbox.rows, db.minted) && PrivacyDeletion.IsDeletion(db, request, order, after)
    ensures RemovalsStay(db.outbox.rows, db.minted, after.outbox.rows, after.minted)
  {
    DeletionProperties.OutboxAfter(db, request, order);
    NetKeepsRemovals(db, request, order, after.outbox.rows);
  }

  lemma NetKeepsRemovals(db: Db, request: PrivacyDeletion.Request, order: seq<SourceId>, rows: map<Id, Event>)
    requires Posted(db.outbox.rows, db.minted) && DeletionProperties.RowsNet(db, request, order, rows)
    ensures RemovalsStay(db.outbox.rows, db.minted, rows, db.minted + |order|)
  {
  }

  lemma CommitKeepsRemovals(db: Db, tx: Tx, after: Db)
    requires Posted(db.outbox.rows, db.minted) && Committed(db, tx, after)
    ensures RemovalsStay(db.outbox.rows, db.minted, after.outbox.rows, after.minted)
  {
    if tx.Delete? {
      DeleteKeepsRemovals(db, tx.request, after);
    } else {
      CommitInserts(db, tx, after);
    }
  }

  // ----- Whole runs --------------------------------------------------------------------------

  ghost predicate RemovalsStayAt(worlds: seq<World>, k: nat)
    requires k + 1 < |worlds|
  {
    Posted(worlds[k].db.outbox.rows, worlds[k].db.minted) ==>
      RemovalsStay(worlds[k].db.outbox.rows, worlds[k].db.minted, worlds[k + 1].db.outbox.rows, worlds[k + 1].db.minted)
  }

  lemma StepKeepsRemovals(policy: Policy, world: World, step: Step, next: World)
    requires StepTo(policy, world, step, next) && Posted(world.db.outbox.rows, world.db.minted)
    ensures RemovalsStay(world.db.outbox.rows, world.db.minted, next.db.outbox.rows, next.db.minted)
  {
    StepCommits(policy, world, step, next);
    if next.db != world.db {
      var tx :| Committed(world.db, tx, next.db);
      CommitKeepsRemovals(world.db, tx, next.db);
    }
  }

  lemma {:induction false} RemovalsAreKept(worlds: seq<World>, i: nat, j: nat, e: Id)
    requires i <= j < |worlds| && (forall k: nat :: k + 1 < |worlds| ==> RemovalsStayAt(worlds, k))
    requires Posted(worlds[i].db.outbox.rows, worlds[i].db.minted)
    ensures Posted(worlds[j].db.outbox.rows, worlds[j].db.minted)
    ensures e in worlds[i].db.outbox.rows && worlds[i].db.outbox.rows[e].body.SourceRemoved? ==>
              e in worlds[j].db.outbox.rows && worlds[j].db.outbox.rows[e] == worlds[i].db.outbox.rows[e]
    decreases j
  {
    if i == j {
    } else {
      RemovalsAreKept(worlds, i, j - 1, e);
      assert RemovalsStayAt(worlds, j - 1);
    }
  }

  /** In every run the row of a removal fact, once inserted, is in every later state, unchanged. */
  lemma RemovalRowIsNeverErased(policy: Policy, worlds: seq<World>, steps: seq<Step>, i: nat, j: nat, e: Id)
    requires IsRun(policy, worlds, steps) && i <= j < |worlds|
    requires e in worlds[i].db.outbox.rows && worlds[i].db.outbox.rows[e].body.SourceRemoved?
    ensures e in worlds[j].db.outbox.rows && worlds[j].db.outbox.rows[e] == worlds[i].db.outbox.rows[e]
  {
    forall k: nat | k + 1 < |worlds| ensures RemovalsStayAt(worlds, k) {
      if Posted(worlds[k].db.outbox.rows, worlds[k].db.minted) {
        assert StepTo(policy, worlds[k], steps[k], worlds[k + 1]);
        StepKeepsRemovals(policy, worlds[k], steps[k], worlds[k + 1]);
      }
    }
    RemovalsAreKept(worlds, 0, i, e);
    RemovalsAreKept(worlds, i, j, e);
  }

  // ----- The relay sees the table ------------------------------------------------------------

  /** The relay works on these rows: the same identifiers, removals as removals of their owner. */
  ghost predicate Mirrors(rows: map<Id, Event>, relay: Relay) {
    && relay.rows.Keys == rows.Keys
    && forall e :: e in rows ==>
         && relay.rows[e].removal == rows[e].body.SourceRemoved?
         && (rows[e].body.SourceRemoved? ==> relay.rows[e].tenant == rows[e].body.owner)
  }

  /** No copy of a row with a fresh identifier was sent or is owed. */
  ghost predicate Unsent(relay: Relay, minted: Id) {
    forall id :: minted <= id ==> Copies(relay.sent, id) == 0 && Fresh(id) !in relay.owed && Again(id) !in relay.owed
  }

  function TenantOf(event: Event): Id {
    if event.body.SourceRemoved? then event.body.owner else NIL
  }

  /** The relay after the insert of one row. */
  function Inserted(relay: Relay, id: Id, event: Event, at: Time): Relay {
    relay.(rows := relay.rows[id := NewRow(event.body.SourceRemoved?, TenantOf(event), at)])
  }

  lemma InsertMoves(
      policy: Schedule.ResendPolicy, relay: Relay, rows: map<Id, Event>, minted: Id, id: Id, event: Event, at: Time)
    requires Mirrors(rows, relay) && Posted(rows, minted) && Unsent(relay, minted) && minted <= id
    ensures MoveTo(policy, relay, Insert(id, event.body.SourceRemoved?, TenantOf(event), at),
            Inserted(relay, id, event, at))
    ensures Mirrors(rows[id := event], Inserted(relay, id, event, at))
    ensures Unsent(Inserted(relay, id, event, at), id + 1) && Posted(rows[id := event], id + 1)
  {
  }

  /** The relay after the cleanup of an owner deletion. */
  function Erased(relay: Relay, gone: set<Id>): Relay {
    relay.(rows := relay.rows - gone)
  }

  lemma EraseMoves(policy: Schedule.ResendPolicy, relay: Relay, rows: map<Id, Event>, target: Id, post: Id)
    requires Mirrors(rows, relay)
    ensures var kept := PrivacyDeletion.EraseFiled(rows, target, post);
            var gone := rows.Keys - kept.Keys;
            MoveTo(policy, relay, Erase(gone), Erased(relay, gone)) && Mirrors(kept, Erased(relay, gone))
  {
  }

  /** What an owner deletion does to the outbox is a run of inserts and erasures of the relay. */
  lemma {:induction false} SourcesProject(
    policy: Schedule.ResendPolicy, start: Relay, db: Db, request: PrivacyDeletion.Request, order: seq<SourceId>,
      at: Time)
    returns (relay: Relay)
    requires DeletionProperties.Listed(db, order)
    requires Mirrors(db.outbox.rows, start) && Posted(db.outbox.rows, db.minted) && Unsent(start, db.minted)
    ensures OutboxPump.RelayReaches(policy, start, relay) && relay == start.(rows := relay.rows)
    ensures var after := PrivacyDeletion.AfterSources(db, request, order);
            Mirrors(after.outbox.rows, relay) && Posted(after.outbox.rows, after.minted) && Unsent(relay, after.minted)
    decreases |order|
  {
    if order == [] {
      OutboxPump.RelayReachesSelf(policy, start);
      relay := start;
    } else {
      DeletionProperties.ListedFront(db, order);
      var front, last := order[..|order| - 1], order[|order| - 1];
      var before := SourcesProject(policy, start, db, request, front, at);
      var mid := PrivacyDeletion.AfterSources(db, request, front);
      PrivacyDeletion.SourcesAfter(db, request, front);
      var post, fact := mid.library.sources[last].post, PrivacyDeletion.RemovalFact(request, last);
      var kept := PrivacyDeletion.EraseFiled(mid.outbox.rows, request.target.id, post);
      var gone := mid.outbox.rows.Keys - kept.Keys;
      EraseMoves(policy, before, mid.outbox.rows, request.target.id, post);
      OutboxPump.RelayReachesMove(policy, start, before, Erase(gone), Erased(before, gone));
      InsertMoves(policy, Erased(before, gone), kept, mid.minted, mid.minted, fact, at);
      relay := Inserted(Erased(before, gone), mid.minted, fact, at);
      OutboxPump.RelayReachesMove(policy, start, Erased(before, gone),
                                  Insert(mid.minted, fact.body.SourceRemoved?, TenantOf(fact), at), relay);
    }
  }

  /** The relay mirrors the rows, and every identifier from `minted` on is unused on both sides. */
  ghost predicate InStep(rows: map<Id, Event>, minted: Id, relay: Relay) {
    Mirrors(rows, relay) && Posted(rows, minted) && Unsent(relay, minted)
  }

  /** Some moves of the relay that change its rows only lead to a state that is in step with the table. */
  ghost predicate StaysInStep(policy: Schedule.ResendPolicy, start: Relay, rows: map<Id, Event>, minted: Id) {
    exists relay :: OutboxPump.RelayReaches(policy, start, relay) && InStep(rows, minted, relay) &&
                    relay == start.(rows := relay.rows)
  }

  lemma InsertFollows(
      policy: Schedule.ResendPolicy, start: Relay, rows: map<Id, Event>, minted: Id, rows': map<Id, Event>,
                      minted': Id, at: Time)
    requires InStep(rows, minted, start) && InsertsAtMostOne(rows, minted, rows', minted')
    ensures StaysInStep(policy, start, rows', minted')
  {
    OutboxPump.RelayReachesSelf(policy, start);
    if rows' == rows {
      assert InStep(rows', minted', start);
    } else {
      var id, event :| minted <= id < minted' && IsInsert(rows, id, event, rows');
      InsertMoves(policy, start, rows, minted, id, event, at);
      var next := Inserted(start, id, event, at);
      OutboxPump.RelayReachesMove(policy, start, start, Insert(id, event.body.SourceRemoved?, TenantOf(event), at),
        next);
      assert InStep(rows', minted', next);
    }
  }

  lemma DeletionFollows(policy: Schedule.ResendPolicy, start: Relay, db: Db, request: PrivacyDeletion.Request,
                        order: seq<SourceId>, after: Db, at: Time)
    requires InStep(db.outbox.rows, db.minted, start) && PrivacyDeletion.IsDeletion(db, request, order, after)
    ensures StaysInStep(policy, start, after.outbox.rows, after.minted)
  {
    var relay := SourcesProject(policy, start, db, request, order, at);
    assert InStep(after.outbox.rows, after.minted, relay);
  }

  /** A relay in step with the table follows every transaction of the service by inserting and erasing rows. */
  lemma CommitFollows(policy: Schedule.ResendPolicy, start: Relay, db: Db, tx: Tx, after: Db, at: Time)
    requires InStep(db.outbox.rows, db.minted, start) && Committed(db, tx, after)
    ensures StaysInStep(policy, start, after.outbox.rows, after.minted)
  {
    if tx.Delete? {
      DeleteFollows(policy, start, db, tx.request, after, at);
    } else {
      CommitInserts(db, tx, after);
      InsertFollows(policy, start, db.outbox.rows, db.minted, after.outbox.rows, after.minted, at);
    }
  }

  lemma DeleteFollows(
      policy: Schedule.ResendPolicy, start: Relay, db: Db, request: PrivacyDeletion.Request, after: Db, at: Time)
    requires InStep(db.outbox.rows, db.minted, start) && DeleteCommitted(db, request, after)
    ensures StaysInStep(policy, start, after.outbox.rows, after.minted)
  {
    var result :| PrivacyDeletion.Applied(db, request, result, after);
    if result == Success(true) {
      var noted := db.(deletions := db.deletions[request.operation := (request.owner, request.target)]);
      var order :| PrivacyDeletion.IsDeletion(noted, request, order, after);
      DeletionFollows(policy, start, noted, request, order, after, at);
    } else {
      OutboxPump.RelayReachesSelf(policy, start);
      assert InStep(after.outbox.rows, after.minted, start);
    }
  }
}
