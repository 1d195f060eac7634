/** Source facts: `ensure_source` and `append_origin_fact` inside the transaction of their caller. */
module Publishing {
  import opened Wrappers
  import opened Archive
  import opened Integrity
  import opened Transactions

  ghost predicate LatestAmong(revisions: map<Id, SourceRevision>, among: set<Id>, v: Id)
    requires among <= revisions.Keys
  {
    v in among && forall u :: u in among ==> revisions[u].observedAt <= revisions[v].observedAt
  }

  /** Some revision is the latest when there is one at all. */
  lemma {:induction false} LatestExists(revisions: map<Id, SourceRevision>, among: set<Id>)
    requires among != {} && among <= revisions.Keys
    ensures exists v :: LatestAmong(revisions, among, v)
  {
    var v :| v in among;
    var rest := among - {v};
    if rest == {} {
      assert among == {v};
      assert LatestAmong(revisions, among, v);
    } else {
      LatestExists(revisions, rest);
      var w :| LatestAmong(revisions, rest, w);
      assert among == rest + {v};
      assert LatestAmong(revisions, among, if revisions[v].observedAt <= revisions[w].observedAt then w else v);
    }
  }

  function RevisionsOf(revisions: map<Id, SourceRevision>, s: SourceId): set<Id> {
    set v | v in revisions && RevisionOf(revisions, s, v)
  }

  /** `order by observed_at desc limit 1`: one of the latest revisions, if there is any. */
  method FindLatest(library: Library, s: SourceId) returns (latest: Option<Id>)
    ensures IsLatest(library, s, latest)
  {
    var among := RevisionsOf(library.revisions, s);
    if among == {} {
      assert forall v :: RevisionOf(library.revisions, s, v) ==> v in among;
      return None;
    }
    LatestExists(library.revisions, among);
    var v :| v in among && forall u :: u in among ==>
      library.revisions[u].observedAt <= library.revisions[v].observedAt;
    return Some(v);
  }

  /** The upsert on the owner and the post; a derived identity that another post took refuses the transaction. */
  method EnsureSource(library: Library, permalink: string, origin: Origin) returns (found: Option<(SourceId, Library)>)
    ensures found.Some? ==> SourceEnsured(library, permalink, origin, found.value.0, found.value.1)
    ensures found.None? <==> Taken(library, permalink, origin)
  {
    if s :| s in library.sources && IsSource(library.sources, origin.owner, origin.post, s) {
      return Some((s, library));
    }
    var derived := SourceId(origin.owner, permalink);
    if derived in library.sources {
      return None;
    }
    return Some((derived, library.(sources :=
      library.sources[derived := Source(origin.owner, origin.post, origin.capture)])));
  }

  /** The owner holds no source of the post, and the identity derived from its permalink is in use. */
  predicate Taken(library: Library, permalink: string, origin: Origin) {
    && !(exists s :: s in library.sources && IsSource(library.sources, origin.owner, origin.post, s))
    && SourceId(origin.owner, permalink) in library.sources
  }

  /**
   The fact of `origin` with `digest` can be told: its source has an identity, and the digest is the
   latest or new.
   */
  ghost predicate Tellable(db: Db, origin: Origin, digest: string) {
    && origin.post in db.content.posts
    && !Taken(db.library, db.content.posts[origin.post].permalink, origin)
    && forall s, latest, library ::
         SourceEnsured(db.library, db.content.posts[origin.post].permalink, origin, s, library) &&
           IsLatest(library, s, latest) ==>
           !Stored(library.revisions, s, digest) || (latest.Some? && library.revisions[latest.value].digest == digest)
  }

  /** No two revisions of one source carry the same instant. */
  ghost predicate DistinctInstants(revisions: map<Id, SourceRevision>) {
    forall u, v | u in revisions && v in revisions && revisions[u].source == revisions[v].source ::
      revisions[u].observedAt == revisions[v].observedAt ==> u == v
  }

  /**
   `append_origin_fact` on the open transaction of its caller: one captured or updated fact, or
   none when the digest repeats. A fact that cannot be told refuses the transaction; so does a
   digest that returns after another one, because it breaks the unique key of the revisions.
   */
  method AppendOriginFact(before: Db, origin: Origin, digest: string, now: Time) returns (after: Option<Db>)
    ensures after.Some? ==> Published(before, origin, digest, now, after.value)
    ensures after.None? ==> !Tellable(before, origin, digest)
    ensures after.Some? && DistinctInstants(before.library.revisions) && OneHolding(before.library.sources) ==>
              Tellable(before, origin, digest)
  {
    if origin.post !in before.content.posts {
      return None;
    }
    var permalink := before.content.posts[origin.post].permalink;
    var found := EnsureSource(before.library, permalink, origin);
    if found.None? {
      return None;
    }
    var (s, library) := found.value;
    var latest := FindLatest(library, s);
    if latest.Some? && library.revisions[latest.value].digest == digest {
      after := Some(before.(library := library));
      assert FactAppended(before, origin, digest, now, s, latest, library, after.value);
      return;
    }
    if Stored(library.revisions, s, digest) {
      return None;
    }
    var body := if latest.None? then SourceCaptured(s, digest) else SourceUpdated(s, digest);
    var aggregate := if origin.capture.Some? then origin.capture.value else origin.post;
    after := Some(before.(
      library := library.(revisions := library.revisions[before.minted := SourceRevision(s, digest, now)]),
      outbox := before.outbox.Insert(before.minted + 1, Event(body, aggregate)),
      minted := before.minted + 2));
    assert FactAppended(before, origin, digest, now, s, latest, library, after.value);
  }
}
