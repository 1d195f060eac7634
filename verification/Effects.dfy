/** What each transaction of the service does, said on the rows of the tables alone. */
module Effects {
  import opened Wrappers
  import opened Archive
  import opened Transactions
  import PrivacyDeletion

  /** One more event: a row under the last new identifier, and the end of the log. */
  ghost predicate AppendsEvent(before: Db, after: Db, event: Event) {
    && before.minted < after.minted
    && after.outbox == Outbox(before.outbox.rows[after.minted - 1 := event], before.outbox.log + [event])
  }

  // ----- Intake ------------------------------------------------------------------------------

  ghost predicate HasKeyOf(captures: map<Id, Capture>, owner: Id, key: string) {
    exists d :: d in captures && captures[d].owner == owner && captures[d].key == key
  }

  /** What the delivery of a new command under the capture `c` leaves. */
  ghost predicate TakenUp(db: Db, command: Command, now: Time, c: Id, after: Db) {
    var ticket := Ticket(command.operation, command.id);
    && c in after.intake.captures && AppendsEvent(db, after, Event(QueuedReport(ticket), c))
    && after.intake.captures[c].owner == command.owner && after.intake.captures[c].key == command.key
    && (HasKeyOf(db.intake.captures, command.owner, command.key) ==> after.intake.captures == db.intake.captures)
    && (!HasKeyOf(db.intake.captures, command.owner, command.key) ==>
          && c == db.minted
          && after.intake.captures == db.intake.captures[c := after.intake.captures[c]]
          && after.intake.captures[c].url == command.url && after.intake.captures[c].ticket == Some(ticket)
          && after.intake.captures[c].status.Accepted? && after.intake.captures[c].post.None?
          && after.intake.captures[c].attempts == 0 && after.intake.captures[c].nextAt == Some(now)
          && !after.intake.captures[c].reported)
  }

  /**
   A command whose identifier is known changes nothing; a new one is marked and reported as queued
   for the one capture of its owner and key, which is created, due at once, if there was none.
   */
  lemma DeliverEffect(db: Db, command: Command, now: Time, after: Db)
    requires Committed(db, IntakeOf(Deliver(command, now)), after)
    ensures command.id in db.intake.inbox ==> after == db
    ensures command.id !in db.intake.inbox ==>
              && after.intake.inbox == db.intake.inbox + {command.id}
              && after.intake == db.intake.(inbox := after.intake.inbox, captures := after.intake.captures)
              && after == db.(intake := after.intake, outbox := after.outbox, minted := after.minted)
              && exists c :: TakenUp(db, command, now, c, after)
  {
    var captures := db.intake.captures;
    assert HasKeyOf(captures, command.owner, command.key) <==> KnownKey(captures, command.owner, command.key) by {
      if HasKeyOf(captures, command.owner, command.key) {
        var d :| d in captures && captures[d].owner == command.owner && captures[d].key == command.key;
        assert IsCapture(captures, command.owner, command.key, d);
      }
    }
    if command.id !in db.intake.inbox {
      if KnownKey(captures, command.owner, command.key) {
        var event := after.outbox.log[|db.outbox.log|];
        assert TakenUp(db, command, now, event.aggregate, after);
      } else {
        assert TakenUp(db, command, now, db.minted, after);
      }
    }
  }

  /** A submission stores one capture, without an operation and not scheduled, exactly under a new key. */
  lemma SubmitEffect(db: Db, owner: Id, key: string, url: string, after: Db)
    requires Committed(db, IntakeOf(Submit(owner, key, url)), after)
    ensures HasKeyOf(db.intake.captures, owner, key) ==> after == db
    ensures !HasKeyOf(db.intake.captures, owner, key) ==>
              && db.minted in after.intake.captures
              && var row := after.intake.captures[db.minted];
                 && row.owner == owner && row.key == key && row.url == url && row.ticket.None? && row.nextAt.None?
                 && row.status.Accepted? && row.post.None? && row.attempts == 0 && !row.reported
                 && after == db.(intake := db.intake.(captures := db.intake.captures[db.minted := row]),
                                 minted := db.minted + 1)
  {
    if HasKeyOf(db.intake.captures, owner, key) {
      var d :| d in db.intake.captures && db.intake.captures[d].owner == owner && db.intake.captures[d].key == key;
      assert IsCapture(db.intake.captures, owner, key, d);
    }
  }

  /** A refused command is marked and reported as rejected, once, under its operation. */
  lemma RejectEffect(db: Db, ticket: Ticket, after: Db)
    requires Committed(db, IntakeOf(Reject(ticket)), after)
    ensures ticket.command in db.intake.inbox ==> after == db
    ensures ticket.command !in db.intake.inbox ==>
              && AppendsEvent(db, after, Event(RejectedReport(ticket), ticket.operation))
              && after == db.(intake := db.intake.(inbox := db.intake.inbox + {ticket.command}),
                              outbox := after.outbox, minted := after.minted)
  {
  }

  // ----- The resolver ------------------------------------------------------------------------

  /** A lease moves the next attempt of the claimed captures and changes nothing else. */
  lemma LeaseEffect(db: Db, batch: set<Id>, until: Time, after: Db)
    requires Committed(db, ScheduleOf(Lease(batch, until)), after)
    ensures after == db.(intake := db.intake.(captures := after.intake.captures))
    ensures after.intake.captures.Keys == db.intake.captures.Keys
    ensures forall c :: c in db.intake.captures ==>
              after.intake.captures[c] ==
              db.intake.captures[c].(nextAt := if c in batch then Some(until) else db.intake.captures[c].nextAt)
  {
  }

  /** A failed attempt leaves one more failure row of its capture and nothing else. */
  lemma FailureEffect(db: Db, c: Id, after: Db)
    requires Committed(db, ScheduleOf(RecordFailure(c)), after)
    ensures c in db.intake.captures && after.minted == db.minted + 1
    ensures after.intake.resolutions == db.intake.resolutions[db.minted := Resolution(c, ResolverFailed, None)]
    ensures after == db.(intake := db.intake.(resolutions := after.intake.resolutions), minted := after.minted)
  {
  }

  /** A count writes the attempts and the next attempt of its capture and nothing else. */
  lemma CountEffect(db: Db, c: Id, attempts: nat, at: Time, after: Db)
    requires Committed(db, ScheduleOf(CountAttempt(c, attempts, at)), after)
    ensures after == db.(intake := db.intake.(captures := after.intake.captures))
    ensures after.intake.captures.Keys == db.intake.captures.Keys
    ensures forall d :: d in db.intake.captures ==>
              after.intake.captures[d] ==
              if d == c then db.intake.captures[c].(attempts := attempts, nextAt := Some(at)) else db.intake.captures[d]
  {
  }

  /** Some stored source belongs to the owner and the post. */
  ghost predicate HoldsSource(sources: map<SourceId, Source>, owner: Id, post: Id) {
    exists s :: s in sources && sources[s].owner == owner && sources[s].post == post
  }

  /**
   The outcome of a report: preserved exactly when the pass reports it preserved, the capture has a
   post, and the owner holds a source of that post, which it then names; inaccessible in place of
   preserved otherwise; and the reason of the pass when it reports the capture unavailable.
   */
  ghost predicate OutcomeSays(db: Db, c: Id, owner: Id, terminal: Terminal, outcome: TerminalOutcome)
    requires c in db.intake.captures
  {
    var post, sources := db.intake.captures[c].post, db.library.sources;
    && (outcome.Preserved? <==> terminal.TerminalPreserved? && post.Some? && HoldsSource(sources, owner, post.value))
    && (outcome.Preserved? ==>
          outcome.source in sources && sources[outcome.source].owner == owner &&
          sources[outcome.source].post == post.value)
    && (outcome.NotPreserved? ==>
          outcome.reason == if terminal.TerminalUnavailable? then terminal.reason else SourceInaccessible)
  }

  /** What the report of a stored, unanswered capture leaves. */
  ghost predicate ReportLeaves(
      db: Db, c: Id, owner: Id, ticket: Ticket, terminal: Terminal, outcome: TerminalOutcome, after: Db)
    requires c in db.intake.captures
  {
    && OutcomeSays(db, c, owner, terminal, outcome)
    && AppendsEvent(db, after, Event(TerminalReport(ticket, outcome), c)) && after.minted == db.minted + 1
    && after == db.(intake := db.intake.(captures := db.intake.captures[
                      c := db.intake.captures[c].(reported := true, nextAt := None)]),
                    outbox := after.outbox, minted := after.minted)
  }

  /** A report of a capture that is gone or answered changes nothing; another closes its guard and appends the event. */
  lemma ReportEffect(db: Db, c: Id, owner: Id, ticket: Ticket, terminal: Terminal, after: Db)
    requires Committed(db, ScheduleOf(Report(c, owner, ticket, terminal)), after)
    ensures c !in db.intake.captures || db.intake.captures[c].reported ==> after == db
    ensures c in db.intake.captures && !db.intake.captures[c].reported ==>
              exists outcome :: ReportLeaves(db, c, owner, ticket, terminal, outcome, after)
  {
    if c in db.intake.captures && !db.intake.captures[c].reported {
      var outcome :| ReportStored(db, c, owner, ticket, terminal, outcome, after);
      OutcomeSpelled(db, c, owner, terminal, outcome);
      assert ReportLeaves(db, c, owner, ticket, terminal, outcome, after);
    }
  }

  lemma OutcomeSpelled(db: Db, c: Id, owner: Id, terminal: Terminal, outcome: TerminalOutcome)
    requires c in db.intake.captures && ReportOutcome(db, c, owner, terminal, outcome)
    ensures OutcomeSays(db, c, owner, terminal, outcome)
  {
    var post, sources := db.intake.captures[c].post, db.library.sources;
    if post.Some? && HoldsSource(sources, owner, post.value) {
      var s :| s in sources && sources[s].owner == owner && sources[s].post == post.value;
      assert IsSource(sources, owner, post.value, s);
    }
  }

  // ----- Facts -------------------------------------------------------------------------------

  ghost predicate RevisionWith(revisions: map<Id, SourceRevision>, s: SourceId, digest: string, v: Id) {
    v in revisions && revisions[v].source == s && revisions[v].digest == digest
  }

  ghost predicate HasRevision(revisions: map<Id, SourceRevision>, s: SourceId) {
    exists v :: v in revisions && revisions[v].source == s
  }

  /** A latest revision of `s` carries `digest`. */
  ghost predicate LatestCarries(revisions: map<Id, SourceRevision>, s: SourceId, digest: string) {
    exists v :: RevisionWith(revisions, s, digest, v) &&
      forall u :: u in revisions && revisions[u].source == s ==> revisions[u].observedAt <= revisions[v].observedAt
  }

  /**
   The source `s` of the owner and the post told `digest`: the stored source, or a new one under the
   derived identity; nothing more when a latest revision carries the digest, and otherwise one
   revision with a digest that is new to the source and one event, the captured one exactly for the
   first revision.
   */
  ghost predicate FactTold(db: Db, origin: Origin, digest: string, now: Time, s: SourceId, after: Db) {
    var before, library := db.library, after.library;
    && origin.post in db.content.posts
    && after == db.(library := library, outbox := after.outbox, minted := after.minted)
    && library == before.(sources := library.sources, revisions := library.revisions)
    && s in library.sources && library.sources[s].owner == origin.owner && library.sources[s].post == origin.post
    && (if HoldsSource(before.sources, origin.owner, origin.post) then library.sources == before.sources
        else
          && s == SourceId(origin.owner, db.content.posts[origin.post].permalink) && s !in before.sources
          && library.sources == before.sources[s := library.sources[s]]
          && library.sources[s].first == origin.capture)
    && (|| (LatestCarries(before.revisions, s, digest) && library.revisions == before.revisions
            && after.outbox == db.outbox && after.minted == db.minted)
        || (&& (forall v :: !RevisionWith(before.revisions, s, digest, v))
            && library.revisions == before.revisions[db.minted := SourceRevision(s, digest, now)]
            && after.minted == db.minted + 2
            && AppendsEvent(db, after, Event(
                 if HasRevision(before.revisions, s) then SourceUpdated(s, digest) else SourceCaptured(s, digest),
                 if origin.capture.Some? then origin.capture.value else origin.post))))
  }

  lemma PublishedSpelled(db: Db, origin: Origin, digest: string, now: Time, after: Db)
    requires Published(db, origin, digest, now, after)
    ensures exists s :: FactTold(db, origin, digest, now, s, after)
  {
    var s, latest, library :| FactAppended(db, origin, digest, now, s, latest, library, after);
    SourceSpelled(db.library, db.content.posts[origin.post].permalink, origin, s, library);
    RevisionsSpelled(library, s, latest, digest);
    assert FactTold(db, origin, digest, now, s, after);
  }

  lemma SourceSpelled(before: Library, permalink: string, origin: Origin, s: SourceId, after: Library)
    requires SourceEnsured(before, permalink, origin, s, after)
    ensures s in after.sources && after.sources[s].owner == origin.owner && after.sources[s].post == origin.post
    ensures after == before.(sources := after.sources)
    ensures HoldsSource(before.sources, origin.owner, origin.post) ==> after.sources == before.sources
    ensures !HoldsSource(before.sources, origin.owner, origin.post) ==>
              && s == SourceId(origin.owner, permalink) && s !in before.sources
              && after.sources == before.sources[s := after.sources[s]] && after.sources[s].first == origin.capture
  {
    if HoldsSource(before.sources, origin.owner, origin.post) {
      var x :| x in before.sources && before.sources[x].owner == origin.owner && before.sources[x].post == origin.post;
      assert IsSource(before.sources, origin.owner, origin.post, x);
    }
  }

  lemma RevisionsSpelled(library: Library, s: SourceId, latest: Option<Id>, digest: string)
    requires IsLatest(library, s, latest)
    ensures latest.Some? <==> HasRevision(library.revisions, s)
    ensures latest.Some? && library.revisions[latest.value].digest == digest ==>
              LatestCarries(library.revisions, s, digest)
    ensures !Stored(library.revisions, s, digest) ==> forall v :: !RevisionWith(library.revisions, s, digest, v)
  {
    if latest.Some? {
      assert RevisionOf(library.revisions, s, latest.value);
      if library.revisions[latest.value].digest == digest {
        assert RevisionWith(library.revisions, s, digest, latest.value);
        forall u | u in library.revisions && library.revisions[u].source == s
          ensures library.revisions[u].observedAt <= library.revisions[latest.value].observedAt
        {
          assert RevisionOf(library.revisions, s, u);
        }
      }
    }
    if v :| v in library.revisions && library.revisions[v].source == s {
      assert RevisionOf(library.revisions, s, v);
    }
    if v :| RevisionWith(library.revisions, s, digest, v) {
      assert RevisionOf(library.revisions, s, v);
    }
  }

  /** A fact of an official or exported observation commits what `FactTold` says. */
  lemma PublishEffect(db: Db, origin: Origin, digest: string, now: Time, after: Db)
    requires Committed(db, FactOf(Publish(origin, digest, now)), after)
    ensures exists s :: FactTold(db, origin, digest, now, s, after)
  {
    PublishedSpelled(db, origin, digest, now, after);
  }

  /** The state between the evidence of a mark and its fact. */
  ghost predicate MarkRecorded(db: Db, c: Id, availability: Availability, now: Time, mid: Db) {
    && c in db.intake.captures
    && mid == db.(intake := mid.intake, minted := db.minted + 2)
    && mid.intake == db.intake.(captures := mid.intake.captures, tombstones := mid.intake.tombstones,
                                resolutions := mid.intake.resolutions)
    && mid.intake.captures == db.intake.captures[c := db.intake.captures[c].(status := Unavailable)]
    && mid.intake.tombstones ==
       db.intake.tombstones[db.minted := Tombstone(db.intake.captures[c].post, Some(c), availability, now)]
    && mid.intake.resolutions == db.intake.resolutions[db.minted + 1 := Resolution(c, UnavailableOutcome, None)]
  }

  /** A mark leaves status, tombstone and resolution of its capture, and a fact exactly when the capture has a post. */
  lemma MarkEffect(db: Db, c: Id, availability: Availability, digest: string, now: Time, after: Db)
    requires Committed(db, FactOf(MarkUnavailable(c, availability, digest, now)), after)
    ensures exists mid :: MarkRecorded(db, c, availability, now, mid) &&
              var row := db.intake.captures[c];
              if row.post.None? then after == mid
              else exists s :: FactTold(mid, Origin(row.owner, row.post.value, Some(c)), digest, now, s, after)
  {
    var mid, row := MarkedOnly(db, c, availability, now), db.intake.captures[c];
    assert MarkRecorded(db, c, availability, now, mid);
    if row.post.Some? {
      PublishedSpelled(mid, Origin(row.owner, row.post.value, Some(c)), digest, now, after);
    }
  }

  /** The post of `code`, stored or new under `id`, now with `permalink` and with its account unless one is given. */
  ghost predicate PostKept(
      before: map<Id, Post>, id: Id, account: Option<Id>, code: string, permalink: string, p: Id, after: map<Id, Post>)
  {
    && (forall q :: q in before && before[q].permalink == permalink ==> q == p)
    && (p in before ==> before[p].code == code) && (p !in before ==> p == id)
    && (forall q :: q in before && before[q].code == code ==> p in before)
    && p in after && after == before[p := after[p]] && after[p].code == code && after[p].permalink == permalink
    && after[p].account == if account.None? && p in before then before[p].account else account
  }

  lemma UpsertSpelled(
      content: Content, id: Id, account: Option<Id>, code: string, permalink: string, p: Id, after: Content)
    requires PostUpserted(content, id, account, code, permalink, p, after) && id !in content.posts
    ensures PostKept(content.posts, id, account, code, permalink, p, after.posts)
    ensures after == content.(posts := after.posts)
  {
    forall q | q in content.posts && content.posts[q].code == code ensures p in content.posts {
      assert IsPost(content.posts, code, q);
    }
  }

  /** The state between the evidence of a page and its fact. */
  ghost predicate PageRecorded(db: Db, c: Id, blob: BlobKey, p: Id, mid: Db) {
    var raw := db.minted;
    && c in db.intake.captures
    && var row := db.intake.captures[c];
       && mid == db.(content := mid.content, intake := mid.intake, minted := db.minted + 4)
       && mid.content == db.content.(posts := mid.content.posts, raws := mid.content.raws,
                                     revisions := mid.content.revisions)
       && PostKept(db.content.posts, db.minted + 1, None, LastSegment(row.url), row.url, p, mid.content.posts)
       && mid.content.raws == db.content.raws[raw := blob]
       && mid.content.revisions == db.content.revisions[db.minted + 2 := PostRevision(p, raw)]
       && mid.intake == db.intake.(captures := mid.intake.captures, resolutions := mid.intake.resolutions)
       && mid.intake.captures == db.intake.captures[c := row.(post := Some(p), status := Resolved)]
       && mid.intake.resolutions == db.intake.resolutions[db.minted + 3 := Resolution(c, ResolvedOutcome, Some(raw))]
  }

  /**
   A page leaves raw evidence, the post of its permalink, a revision that shows the one by the other,
   the capture resolved to that post, a resolution with the evidence, and the fact.
   */
  lemma ResolveEffect(db: Db, c: Id, blob: BlobKey, digest: string, now: Time, after: Db)
    requires Committed(db, FactOf(Resolve(c, blob, digest, now)), after) && db.minted + 1 !in db.content.posts
    ensures exists p, mid, s :: PageRecorded(db, c, blob, p, mid) &&
              FactTold(mid, Origin(db.intake.captures[c].owner, p, Some(c)), digest, now, s, after)
  {
    var p, content, mid :| ObservationStored(db, c, blob, p, content, mid) &&
      Published(mid, Origin(mid.intake.captures[c].owner, p, Some(c)), digest, now, after);
    PageSpelled(db, c, blob, p, content, mid);
    PublishedSpelled(mid, Origin(mid.intake.captures[c].owner, p, Some(c)), digest, now, after);
  }

  lemma PageSpelled(db: Db, c: Id, blob: BlobKey, p: Id, content: Content, mid: Db)
    requires ObservationStored(db, c, blob, p, content, mid) && db.minted + 1 !in db.content.posts
    ensures PageRecorded(db, c, blob, p, mid) && mid.intake.captures[c].owner == db.intake.captures[c].owner
  {
    var url := db.intake.captures[c].url;
    UpsertSpelled(db.content, db.minted + 1, None, LastSegment(url), url, p, content);
  }

  // ----- Synchronisation and exports ---------------------------------------------------------

  /** An official post: the upsert and one revision that shows it. */
  ghost predicate PostShown(
      db: Db, account: Option<Id>, code: string, permalink: string, raw: Id, p: Id, after: Db)
  {
    && raw in db.content.raws && (account.Some? ==> account.value in db.accounts)
    && PostKept(db.content.posts, db.minted, account, code, permalink, p, after.content.posts)
    && after.content.revisions == db.content.revisions[db.minted + 1 := PostRevision(p, raw)]
    && after.content == db.content.(posts := after.content.posts, revisions := after.content.revisions)
    && after == db.(content := after.content, minted := db.minted + 2)
  }

  lemma ObserveEffect(db: Db, account: Option<Id>, code: string, permalink: string, raw: Id, after: Db)
    requires Committed(db, StoreOf(ObservePost(account, code, permalink, raw)), after) && db.minted !in db.content.posts
    ensures exists p :: PostShown(db, account, code, permalink, raw, p, after)
  {
    var p, content :| PostUpserted(db.content, db.minted, account, code, permalink, p, content) &&
      after == db.(content := content.(revisions := content.revisions[db.minted + 1 := PostRevision(p, raw)]),
                   minted := db.minted + 2);
    UpsertSpelled(db.content, db.minted, account, code, permalink, p, content);
    assert PostShown(db, account, code, permalink, raw, p, after);
  }

  /** The relation row `r` of its key, stored or new, with the stored post of the target identity if there is one. */
  ghost predicate RelationKept(
      posts: map<Id, Post>, before: map<Id, Relation>, id: Id, post: Id, code: string, kind: string, r: Id,
      after: map<Id, Relation>)
  {
    && post in posts && r in after && after == before[r := after[r]]
    && after[r].referencing == post && after[r].targetCode == code && after[r].kind == kind
    && (r in before ==> before[r].referencing == post && before[r].targetCode == code && before[r].kind == kind)
    && (r !in before ==> r == id)
    && (r !in before ==>
          forall x :: x in before ==>
            (before[x].referencing, before[x].targetCode, before[x].kind) != (post, code, kind))
    && (after[r].target.Some? <==> exists q :: q in posts && posts[q].code == code)
    && (after[r].target.Some? ==> after[r].target.value in posts && posts[after[r].target.value].code == code)
  }

  lemma RelationEffect(db: Db, post: Id, code: string, kind: string, after: Db)
    requires Committed(db, StoreOf(StoreRelation(post, code, kind)), after) && db.minted !in db.content.relations
    ensures after == db.(content := db.content.(relations := after.content.relations), minted := db.minted + 1)
    ensures exists r ::
              RelationKept(db.content.posts, db.content.relations, db.minted, post, code, kind, r,
                           after.content.relations)
  {
    var r, target :| RelationStored(db, post, code, kind, r, target, after);
    var posts, relations := db.content.posts, db.content.relations;
    if q :| q in posts && posts[q].code == code {
      assert IsPost(posts, code, q);
    }
    forall x | x in relations && relations[x] == Relation(post, relations[x].target, code, kind)
      ensures IsRelation(relations, post, code, kind, x)
    {
    }
    assert RelationKept(posts, relations, db.minted, post, code, kind, r, after.content.relations);
  }

  // ----- Knowledge ---------------------------------------------------------------------------

  /**
   The completion may link: its event is new, the source was never removed, and a revision of the
   owner's source has the digest.
   */
  ghost predicate MayLink(library: Library, event: Id, owner: Id, s: SourceId, digest: string) {
    && event !in library.completions && (owner, s) !in library.removed
    && s in library.sources && library.sources[s].owner == owner
    && exists v :: v in library.revisions && library.revisions[v].source == s && library.revisions[v].digest == digest
  }

  /** A completion is accepted once, and links exactly when it may. */
  lemma CompleteEffect(db: Db, event: Id, owner: Id, s: SourceId, digest: string, after: Db)
    requires Committed(db, Complete(event, owner, s, digest), after)
    ensures after == db.(library := db.library.(completions := after.library.completions, links := after.library.links))
    ensures after.library.completions == db.library.completions + {event}
    ensures after.library.links ==
            if MayLink(db.library, event, owner, s, digest) then db.library.links[event := Link(owner, s, digest)]
            else db.library.links
  {
    LinkSpelled(db, event, owner, s, digest);
    if event in db.library.completions {
      assert db.library.completions + {event} == db.library.completions;
    }
  }

  lemma LinkSpelled(db: Db, event: Id, owner: Id, s: SourceId, digest: string)
    ensures Completed(db, event, owner, s, digest).0.Linked? <==> MayLink(db.library, event, owner, s, digest)
  {
    var revisions := db.library.revisions;
    if v :| v in revisions && revisions[v].source == s && revisions[v].digest == digest {
      assert RevisionOf(revisions, s, v);
    }
  }

  // ----- Deletion ----------------------------------------------------------------------------

  /** The target of the request is stored, and its stored owner is the one who asks. */
  ghost predicate OwnsTarget(db: Db, request: PrivacyDeletion.Request) {
    match request.target
    case CaptureTarget(c) => c in db.intake.captures && db.intake.captures[c].owner == request.owner
    case ConnectionTarget(a) => a in db.accounts && db.accounts[a] == request.owner
  }

  /**
   A new operation is applied exactly when the stored owner of the target asks, and then its target
   goes and it is on record; it is refused as not found otherwise. A known operation is replayed
   when it is the same request, and a conflict otherwise. Only an applied one changes anything.
   */
  lemma DeleteAnswers(
      db: Db, request: PrivacyDeletion.Request, result: Result<bool, PrivacyDeletion.Refusal>, after: Db)
    requires PrivacyDeletion.Applied(db, request, result, after)
    ensures result == Success(true) <==> request.operation !in db.deletions && OwnsTarget(db, request)
    ensures result == Failure(PrivacyDeletion.TargetNotFound) <==>
            request.operation !in db.deletions && !OwnsTarget(db, request)
    ensures result == Success(false) <==>
            request.operation in db.deletions && db.deletions[request.operation] == (request.owner, request.target)
    ensures result != Success(true) ==> after == db
    ensures result == Success(true) ==>
              after.deletions == db.deletions[request.operation := (request.owner, request.target)]
  {
    if result == Success(true) {
      var noted := db.(deletions := db.deletions[request.operation := (request.owner, request.target)]);
      var order :| PrivacyDeletion.IsDeletion(noted, request, order, after);
      PrivacyDeletion.SourcesAfter(noted, request, order);
    }
  }

  // ----- Blob tasks --------------------------------------------------------------------------

  /** One more attempt at a pending task, which completes exactly when the bytes are gone; nothing for another task. */
  lemma SettleEffect(db: Db, blob: BlobKey, done: bool, after: Db)
    requires Committed(db, SettleBlobTask(blob, done), after)
    ensures after == db.(blobTasks := after.blobTasks) && after.blobTasks.Keys == db.blobTasks.Keys
    ensures forall k :: k in db.blobTasks ==>
              && (k != blob || db.blobTasks[k].complete ==> after.blobTasks[k] == db.blobTasks[k])
              && (k == blob && !db.blobTasks[k].complete ==>
                    after.blobTasks[k].complete == done && after.blobTasks[k].attempts == db.blobTasks[k].attempts + 1)
  {
  }
}
