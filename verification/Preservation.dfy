/** One row at a time: the single writes every transaction is made of keep the tables sound. */
module Preservation {
  import opened Wrappers
  import opened Archive
  import opened Transactions
  import opened Integrity
  import opened Invariants

  // ----- Captures and their evidence ---------------------------------------------------------

  lemma CaptureFiled(intake: Intake, row: Capture, content: Content, minted: Id)
    requires Filed(intake, content, minted) && row.post.None?
    ensures Filed(intake.(captures := intake.captures[minted := row]), content, minted + 1)
  {
    EvidenceStays(intake, intake.captures[minted := row], content.revisions);
  }

  lemma CaptureCoded(intake: Intake, id: Id, row: Capture, posts: map<Id, Post>)
    requires Codes(intake, posts) && row.post.None? && id !in intake.captures
    ensures Codes(intake.(captures := intake.captures[id := row]), posts)
  {
  }

  /** `after` keeps every capture of `before`, with the same permalink and the same post. */
  ghost predicate SameHoldings(before: map<Id, Capture>, after: map<Id, Capture>) {
    && after.Keys == before.Keys
    && forall c :: c in before ==> after[c].post == before[c].post && after[c].url == before[c].url
  }

  lemma EvidenceStays(intake: Intake, captures: map<Id, Capture>, revisions: map<Id, PostRevision>)
    requires Evidence(intake, revisions)
    requires forall c :: c in intake.captures ==> c in captures && captures[c].post == intake.captures[c].post
    ensures Evidence(intake.(captures := captures), revisions)
  {
    forall r | r in intake.resolutions && intake.resolutions[r].raw.Some?
      ensures ShownBy(captures, revisions, intake.resolutions[r].capture, intake.resolutions[r].raw.value)
    {
      assert ShownBy(intake.captures, revisions, intake.resolutions[r].capture, intake.resolutions[r].raw.value);
    }
  }

  lemma CapturesRefiled(intake: Intake, captures: map<Id, Capture>, content: Content, minted: Id)
    requires Filed(intake, content, minted) && SameHoldings(intake.captures, captures)
    ensures Filed(intake.(captures := captures), content, minted)
  {
    EvidenceStays(intake, captures, content.revisions);
  }

  lemma CapturesRecoded(intake: Intake, captures: map<Id, Capture>, posts: map<Id, Post>)
    requires Codes(intake, posts) && SameHoldings(intake.captures, captures)
    ensures Codes(intake.(captures := captures), posts)
  {
  }

  lemma ResolutionFiled(intake: Intake, capture: Id, outcome: ResolutionOutcome, content: Content, minted: Id)
    requires Filed(intake, content, minted) && capture in intake.captures
    ensures Filed(intake.(resolutions := intake.resolutions[minted := Resolution(capture, outcome, None)]), content,
            minted + 1)
  {
  }

  lemma TombstoneFiled(intake: Intake, tombstone: Tombstone, content: Content, minted: Id)
    requires Filed(intake, content, minted)
    requires tombstone.capture.Some? && tombstone.capture.value in intake.captures
    requires tombstone.post == intake.captures[tombstone.capture.value].post
    ensures Filed(intake.(tombstones := intake.tombstones[minted := tombstone]), content, minted + 1)
  {
  }

  lemma TombstoneCoded(intake: Intake, id: Id, tombstone: Tombstone, posts: map<Id, Post>)
    requires Codes(intake, posts)
    requires tombstone.capture.Some? && tombstone.capture.value in intake.captures
    requires tombstone.post == intake.captures[tombstone.capture.value].post
    ensures Codes(intake.(tombstones := intake.tombstones[id := tombstone]), posts)
  {
  }

  /** `after` keeps the posts and their codes, the raw evidence and the revisions of `before`. */
  ghost predicate Grows(before: Content, after: Content) {
    && (forall p :: p in before.posts ==> p in after.posts && after.posts[p].code == before.posts[p].code)
    && before.raws.Keys <= after.raws.Keys
    && (forall v :: v in before.revisions ==> v in after.revisions && after.revisions[v] == before.revisions[v])
  }

  lemma ContentGrowsFiled(intake: Intake, before: Content, after: Content, minted: Id, minted': Id)
    requires Filed(intake, before, minted) && Grows(before, after) && minted <= minted'
    ensures Filed(intake, after, minted')
  {
    forall r | r in intake.resolutions && intake.resolutions[r].raw.Some?
      ensures ShownBy(intake.captures, after.revisions, intake.resolutions[r].capture, intake.resolutions[r].raw.value)
    {
      assert ShownBy(intake.captures, before.revisions, intake.resolutions[r].capture, intake.resolutions[r].raw.value);
    }
  }

  lemma ContentGrowsCoded(intake: Intake, before: Content, after: Content)
    requires Codes(intake, before.posts) && Grows(before, after) && OnePostPerCode(after.posts)
    ensures Codes(intake, after.posts)
  {
  }

  /** The capture `c` now has the post `p`, shown by the raw evidence `raw`. */
  function Observed(intake: Intake, c: Id, p: Id, id: Id, raw: Id): Intake
    requires c in intake.captures
  {
    intake.(captures := intake.captures[c := intake.captures[c].(post := Some(p), status := Resolved)],
            resolutions := intake.resolutions[id := Resolution(c, ResolvedOutcome, Some(raw))])
  }

  lemma CaptureSettledFiled(intake: Intake, c: Id, p: Id, v: Id, raw: Id, content: Content, id: Id, minted: Id)
    requires Filed(intake, content, minted) && Codes(intake, content.posts)
    requires c in intake.captures && IsPost(content.posts, LastSegment(intake.captures[c].url), p)
    requires raw in content.raws && v in content.revisions && content.revisions[v] == PostRevision(p, raw)
    requires id < minted
    ensures Filed(Observed(intake, c, p, id, raw), content, minted)
  {
    assert intake.captures[c].post.Some? ==> intake.captures[c].post == Some(p);
    SettledEvidence(intake, c, p, v, raw, content.revisions, id);
    SettledKeys(intake, c, p, raw, content, id, minted);
  }

  lemma SettledKeys(intake: Intake, c: Id, p: Id, raw: Id, content: Content, id: Id, minted: Id)
    requires FreshIntake(intake, minted) && IntakeKeys(intake, content.posts.Keys, content.raws.Keys)
    requires c in intake.captures && p in content.posts && raw in content.raws && id < minted
    ensures FreshIntake(Observed(intake, c, p, id, raw), minted)
    ensures IntakeKeys(Observed(intake, c, p, id, raw), content.posts.Keys, content.raws.Keys)
  {
  }

  lemma SettledEvidence(intake: Intake, c: Id, p: Id, v: Id, raw: Id, revisions: map<Id, PostRevision>, id: Id)
    requires Evidence(intake, revisions) && c in intake.captures
    requires intake.captures[c].post.Some? ==> intake.captures[c].post == Some(p)
    requires v in revisions && revisions[v] == PostRevision(p, raw)
    ensures Evidence(Observed(intake, c, p, id, raw), revisions)
  {
  }

  lemma CaptureSettledCoded(intake: Intake, c: Id, p: Id, raw: Id, posts: map<Id, Post>, id: Id)
    requires Codes(intake, posts)
    requires c in intake.captures && IsPost(posts, LastSegment(intake.captures[c].url), p)
    ensures Codes(Observed(intake, c, p, id, raw), posts)
  {
  }

  // ----- Posts and what hangs off them -------------------------------------------------------

  lemma PostCoded(content: Content, id: Id, account: Option<Id>, code: string, permalink: string, p: Id, after: Content)
    requires OnePostPerCode(content.posts) && id !in content.posts
    requires PostUpserted(content, id, account, code, permalink, p, after)
    ensures p in after.posts && after == content.(posts := content.posts[p := after.posts[p]])
    ensures after.posts[p].code == code
    ensures OnePostPerCode(after.posts) && Grows(content, after)
    ensures p in content.posts || p == id
  {
    CodeFree(content.posts, code, p);
    UpsertCoded(content.posts, p, after.posts[p]);
  }

  lemma CodeFree(posts: map<Id, Post>, code: string, p: Id)
    requires OnePostPerCode(posts) && ((exists q :: IsPost(posts, code, q)) ==> IsPost(posts, code, p))
    ensures forall q :: q in posts && posts[q].code == code ==> q == p
  {
    forall q | q in posts && posts[q].code == code ensures q == p {
      assert IsPost(posts, code, q);
    }
  }

  lemma UpsertCoded(posts: map<Id, Post>, p: Id, post: Post)
    requires OnePostPerCode(posts) && forall q :: q in posts && posts[q].code == post.code ==> q == p
    ensures OnePostPerCode(posts[p := post])
  {
  }

  lemma PostHeld(content: Content, p: Id, post: Post, accounts: map<Id, Id>, minted: Id)
    requires Held(content, accounts, minted)
    requires post.account.Some? ==> post.account.value in accounts
    ensures Held(content.(posts := content.posts[p := post]), accounts, if p < minted then minted else p + 1)
  {
  }

  lemma RevisionHeld(content: Content, p: Id, raw: Id, accounts: map<Id, Id>, minted: Id)
    requires Held(content, accounts, minted) && p in content.posts && raw in content.raws
    ensures var after := content.(revisions := content.revisions[minted := PostRevision(p, raw)]);
            Held(after, accounts, minted + 1) && Grows(content, after)
  {
  }

  lemma RawHeld(content: Content, id: Id, blob: BlobKey, accounts: map<Id, Id>, minted: Id)
    requires Held(content, accounts, minted) && id < minted
    ensures var after := content.(raws := content.raws[id := blob]);
            Held(after, accounts, minted) && Grows(content, after)
  {
  }

  // ----- Sources -----------------------------------------------------------------------------

  lemma ShelfGrows(library: Library, posts: map<Id, Post>, captures: map<Id, Capture>, minted: Id,
                   posts': map<Id, Post>, captures': map<Id, Capture>, minted': Id)
    requires Shelved(library, posts, captures, minted) && minted <= minted'
    requires posts.Keys <= posts'.Keys && captures.Keys <= captures'.Keys
    ensures Shelved(library, posts', captures', minted')
  {
  }

  lemma SourceShelved(
      library: Library, s: SourceId, source: Source, posts: map<Id, Post>, captures: map<Id, Capture>, minted: Id)
    requires Shelved(library, posts, captures, minted) && source.post in posts
    requires source.first.Some? ==> source.first.value in captures
    requires forall t :: !IsSource(library.sources, source.owner, source.post, t)
    ensures Shelved(library.(sources := library.sources[s := source]), posts, captures, minted)
  {
    forall t | t in library.sources
      ensures library.sources[t].owner != source.owner || library.sources[t].post != source.post
    {
      assert !IsSource(library.sources, source.owner, source.post, t);
    }
  }

  lemma SourceRevisionShelved(
      library: Library, revision: SourceRevision, posts: map<Id, Post>, captures: map<Id, Capture>,
                              minted: Id)
    requires Shelved(library, posts, captures, minted) && revision.source in library.sources
    ensures Shelved(library.(revisions := library.revisions[minted := revision]), posts, captures, minted + 1)
  {
    var revisions := library.revisions[minted := revision];
    forall l | l in library.links ensures Stored(revisions, library.links[l].source, library.links[l].digest) {
      StoredStays(library.revisions, revisions, library.links[l].source, library.links[l].digest);
    }
  }

  lemma StoredStays(before: map<Id, SourceRevision>, after: map<Id, SourceRevision>, s: SourceId, digest: string)
    requires Stored(before, s, digest) && forall v :: v in before ==> v in after && after[v] == before[v]
    ensures Stored(after, s, digest)
  {
    var v :| v in before && RevisionOf(before, s, v) && before[v].digest == digest;
    assert RevisionOf(after, s, v);
  }

  lemma LinkShelved(library: Library, event: Id, owner: Id, s: SourceId, digest: string,
                    posts: map<Id, Post>, captures: map<Id, Capture>, minted: Id)
    requires Shelved(library, posts, captures, minted) && s in library.sources && Stored(library.revisions, s, digest)
    ensures Shelved(library.(completions := library.completions + {event},
                             links := library.links[event := Link(owner, s, digest)]), posts, captures, minted)
  {
  }
}
