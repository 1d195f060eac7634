/** The stored reply graph: what `record_relations` lets in, and what every run of its writers keeps. */
module ReplyStore {
  import opened Wrappers
  import opened Archive
  import opened ReplyGraph

  /** The provider identities of the stored posts, and `post_relations` by its unique key. */
  datatype StoredGraph = StoredGraph(posts: set<string>, relations: set<(string, string, string)>)

  function Key(r: RelationInput): (string, string, string) {
    (r.referencing, r.target, r.kind)
  }

  function Keys(relations: seq<RelationInput>): set<(string, string, string)> {
    set r | r in relations :: Key(r)
  }

  /** All stored replies, whether or not their target is stored. */
  function Replies(relations: set<(string, string, string)>): Edges {
    set r | r in relations && r.2 == "reply" :: (r.0, r.1)
  }

  /** The graph of the archive: every relation of a stored post, by the provider identities of its two ends. */
  function ViewOf(content: Content): StoredGraph {
    StoredGraph(set p | p in content.posts :: content.posts[p].code,
                set r | r in content.relations && content.relations[r].referencing in content.posts ::
                  RelationKey(content, r))
  }

  function RelationKey(content: Content, r: Id): (string, string, string)
    requires r in content.relations && content.relations[r].referencing in content.posts
  {
    var row := content.relations[r];
    (content.posts[row.referencing].code, row.targetCode, row.kind)
  }

  /** The stored replies of the archive have a cycle. */
  ghost predicate CycleStored(content: Content) {
    HasCycle(Replies(ViewOf(content).relations))
  }

  /** A relation belongs to a stored post. */
  ghost predicate Rooted(stored: StoredGraph) {
    forall r :: r in stored.relations ==> r.0 in stored.posts
  }

  /** Relations belong to stored posts, and the replies form no cycle. */
  ghost predicate Acyclic(stored: StoredGraph) {
    Rooted(stored) && !HasCycle(Replies(stored.relations))
  }

  /** Edges that lose some of their number close no new cycle. */
  lemma FewerEdges(some: Edges, all: Edges)
    requires some <= all
    ensures HasCycle(some) ==> HasCycle(all)
  {
    if HasCycle(some) {
      var a :| Leads(some, a, a);
      var path :| Walk(some, path, a, a);
      assert Walk(all, path, a, a);
      assert Leads(all, a, a);
    }
  }

  /**
   Looking at known targets only hides no cycle: every post on a cycle refers to another one, so it
   is stored, and each edge of the cycle has a known target.
   */
  lemma KnownTargetsShowEveryCycle(known: set<string>, all: Edges, shown: Edges)
    requires forall e :: e in all ==> e.0 in known
    requires shown == set e | e in all && e.1 in known
    ensures HasCycle(shown) <==> HasCycle(all)
  {
    FewerEdges(shown, all);
    if HasCycle(all) {
      var a :| Leads(all, a, a);
      var path :| Walk(all, path, a, a);
      forall i | 0 <= i < |path| - 1 ensures (path[i], path[i + 1]) in shown {
        assert (path[i], path[i + 1]) in all;
        if i + 1 < |path| - 1 {
          assert (path[i + 1], path[i + 2]) in all;
        } else {
          assert (path[0], path[1]) in all;
        }
      }
      assert Walk(shown, path, a, a);
      assert Leads(shown, a, a);
    }
  }

  const MAX_RELATIONS_PER_OBSERVATION := 128

  datatype RecordError = TooManyRelations | RelationSourceMismatch | Graph(error: RelationError)

  /** What `record` answers for the relations of one observed post. */
  ghost function Refusal(stored: StoredGraph, post: string, incoming: seq<RelationInput>): Option<RecordError> {
    if |incoming| > MAX_RELATIONS_PER_OBSERVATION then Some(TooManyRelations)
    else if exists r :: r in incoming && r.referencing != post then Some(RelationSourceMismatch)
    else if HasCycle(Replies(stored.relations + Keys(incoming))) then Some(Graph(ReplyCycle))
    else if !ValidKinds(incoming) then Some(Graph(InvalidKind))
    else None
  }

  ghost function Recorded(stored: StoredGraph, post: string, incoming: seq<RelationInput>): StoredGraph {
    if Refusal(stored, post, incoming).Some? then stored
    else StoredGraph(stored.posts + {post}, stored.relations + Keys(incoming))
  }

  // ----- Every run of the writers ------------------------------------------------------------

  /**
   The writers of posts and replies: an observed post with relations, a post without, a relation that
   synchronisation or an export import writes without the check, and a deletion.
   */
  /** The page or a stored row says that `a` replies to `b`. */
  ghost predicate SaysReply(stored: StoredGraph, incoming: seq<RelationInput>, a: string, b: string) {
    || (a, b, "reply") in stored.relations
    || exists r :: r in incoming && r.referencing == a && r.target == b && r.kind == "reply"
  }

  ghost predicate ClosedWalk(stored: StoredGraph, incoming: seq<RelationInput>, path: seq<string>) {
    && 2 <= |path| && path[0] == path[|path| - 1]
    && forall i :: 0 <= i < |path| - 1 ==> SaysReply(stored, incoming, path[i], path[i + 1])
  }

  lemma CycleIsClosedWalk(stored: StoredGraph, incoming: seq<RelationInput>)
    ensures HasCycle(Replies(stored.relations + Keys(incoming))) <==>
            exists path :: ClosedWalk(stored, incoming, path)
  {
    var edges := Replies(stored.relations + Keys(incoming));
    forall a, b ensures (a, b) in edges <==> SaysReply(stored, incoming, a, b) {
      ReplyIsEdge(stored, incoming, a, b);
    }
    if HasCycle(edges) {
      var a :| Leads(edges, a, a);
      var path :| Walk(edges, path, a, a);
      forall i | 0 <= i < |path| - 1 ensures SaysReply(stored, incoming, path[i], path[i + 1]) {
        assert (path[i], path[i + 1]) in edges;
      }
      assert ClosedWalk(stored, incoming, path);
    }
    if path :| ClosedWalk(stored, incoming, path) {
      assert Walk(edges, path, path[0], path[0]);
      assert Leads(edges, path[0], path[0]);
    }
  }

  lemma ReplyIsEdge(stored: StoredGraph, incoming: seq<RelationInput>, a: string, b: string)
    ensures (a, b) in Replies(stored.relations + Keys(incoming)) <==> SaysReply(stored, incoming, a, b)
  {
    if r :| r in incoming && r.referencing == a && r.target == b && r.kind == "reply" {
      assert Key(r) == (a, b, "reply") && Key(r) in Keys(incoming);
    }
    if (a, b) in Replies(stored.relations + Keys(incoming)) {
      assert (a, b, "reply") in stored.relations + Keys(incoming);
    }
    if (a, b, "reply") in stored.relations {
      assert (a, b, "reply") in stored.relations + Keys(incoming);
    }
  }

  /**
   What a page is answered: too many relations, then a relation of another post, then a closed walk
   of replies, then a malformed kind; and exactly a page without any of them is stored.
   */
  lemma RecordAnswers(stored: StoredGraph, post: string, incoming: seq<RelationInput>)
    ensures var answer := Refusal(stored, post, incoming);
            var many := 128 < |incoming|;
            var foreign := exists r :: r in incoming && r.referencing != post;
            var cyclic := exists path :: ClosedWalk(stored, incoming, path);
            var malformed := exists r :: r in incoming && !ValidKind(r.kind);
            && (answer == Some(TooManyRelations) <==> many)
            && (answer == Some(RelationSourceMismatch) <==> !many && foreign)
            && (answer == Some(Graph(ReplyCycle)) <==> !many && !foreign && cyclic)
            && (answer == Some(Graph(InvalidKind)) <==> !many && !foreign && !cyclic && malformed)
            && (answer.None? <==> !many && !foreign && !cyclic && !malformed)
            && Recorded(stored, post, incoming) ==
               if many || foreign || cyclic || malformed then stored
               else StoredGraph(stored.posts + {post},
                                stored.relations + set r | r in incoming :: (r.referencing, r.target, r.kind))
  {
    CycleIsClosedWalk(stored, incoming);
    assert ValidKinds(incoming) <==> !exists r :: r in incoming && !ValidKind(r.kind);
    assert Keys(incoming) == set r | r in incoming :: (r.referencing, r.target, r.kind);
  }

  datatype Write =
    | Record(post: string, incoming: seq<RelationInput>)
    | AddPost(post: string)
    | Unchecked(post: string, target: string, kind: string)
    | Forget(posts: set<string>)

  ghost predicate Writes(stored: StoredGraph, write: Write, next: StoredGraph) {
    match write
    case Record(post, incoming) => next == Recorded(stored, post, incoming)
    case AddPost(post) => next == stored.(posts := stored.posts + {post})
    case Unchecked(post, target, kind) =>
      next == if post in stored.posts then stored.(relations := stored.relations + {(post, target, kind)}) else stored
    case Forget(posts) =>
      && next.posts == stored.posts - posts && next.relations <= stored.relations
      && forall r :: r in next.relations ==> r.0 !in posts
  }

  /** A write closes no cycle: it is checked, writes no reply, or its target does not already lead back to the post. */
  ghost predicate Harmless(stored: StoredGraph, write: Write) {
    write.Unchecked? && write.kind == "reply" && write.post in stored.posts ==>
      write.post != write.target && !Leads(Replies(stored.relations), write.target, write.post)
  }

  lemma OneMoreReply(relations: set<(string, string, string)>, post: string, target: string, kind: string)
    ensures Replies(relations + {(post, target, kind)}) ==
            Replies(relations) + if kind == "reply" then {(post, target)} else {}
  {
    var after := relations + {(post, target, kind)};
    assert (post, target, kind) in after;
    forall e | e in Replies(relations) ensures e in Replies(after) {
      assert (e.0, e.1, "reply") in after;
    }
  }

  /** A write keeps the stored replies acyclic exactly when it is harmless. */
  lemma WriteKeepsAcyclicIff(stored: StoredGraph, write: Write, next: StoredGraph)
    requires Acyclic(stored) && Writes(stored, write, next)
    ensures Acyclic(next) <==> Harmless(stored, write)
  {
    match write
    case Record(post, incoming) =>
    case AddPost(post) =>
    case Unchecked(post, target, kind) =>
      OneMoreReply(stored.relations, post, target, kind);
      assert Replies(stored.relations) + {} == Replies(stored.relations);
      NewEdgeClosesCycleIff(Replies(stored.relations), post, target);
    case Forget(posts) => FewerEdges(Replies(next.relations), Replies(stored.relations));
  }

  /** `states` are the stored graphs of one run of the writers from empty tables. */
  ghost predicate IsWriterRun(states: seq<StoredGraph>, writes: seq<Write>) {
    && |states| == |writes| + 1 && states[0] == StoredGraph({}, {})
    && forall k :: 0 <= k < |writes| ==> Writes(states[k], writes[k], states[k + 1])
  }

  /** The checked writers never close a cycle, also when a missing target appears later; nor does a harmless write. */
  lemma {:induction false} RepliesStayAcyclic(states: seq<StoredGraph>, writes: seq<Write>, i: nat)
    requires IsWriterRun(states, writes) && i < |states|
    requires forall k :: 0 <= k < i ==> Harmless(states[k], writes[k])
    ensures Acyclic(states[i])
  {
    if i == 0 {
      EmptyIsAcyclic();
    } else {
      RepliesStayAcyclic(states, writes, i - 1);
      WriteKeepsAcyclicIff(states[i - 1], writes[i - 1], states[i]);
    }
  }

  /** A run stays acyclic throughout if and only if every unchecked reply in it was harmless when it was written. */
  lemma RunStaysAcyclicIff(states: seq<StoredGraph>, writes: seq<Write>)
    requires IsWriterRun(states, writes)
    ensures (forall i :: 0 <= i < |states| ==> Acyclic(states[i])) <==>
            (forall k :: 0 <= k < |writes| ==> Harmless(states[k], writes[k]))
  {
    if forall i :: 0 <= i < |states| ==> Acyclic(states[i]) {
      forall k | 0 <= k < |writes| ensures Harmless(states[k], writes[k]) {
        WriteKeepsAcyclicIff(states[k], writes[k], states[k + 1]);
      }
    } else if forall k :: 0 <= k < |writes| ==> Harmless(states[k], writes[k]) {
      forall i | 0 <= i < |states| ensures Acyclic(states[i]) {
        RepliesStayAcyclic(states, writes, i);
      }
    }
  }

  lemma EmptyIsAcyclic()
    ensures Acyclic(StoredGraph({}, {}))
  {
    assert Replies({}) == EdgesOf(map[]);
    AllFinished(map[], {});
  }

  lemma NoRelationsNoCycle(content: Content)
    requires content.relations == map[]
    ensures !CycleStored(content)
  {
    assert ViewOf(content).relations == {};
    EmptyIsAcyclic();
  }

  /** A witness: two posts that reply to each other, the second reply written without the check. */
  lemma UncheckedReplyCanCloseCycle()
    ensures var stored := StoredGraph({"a", "b"}, {("a", "b", "reply")});
            Acyclic(stored) && !Harmless(stored, Unchecked("b", "a", "reply"))
  {
    var relations := {("a", "b", "reply")};
    assert Replies(relations) == Replies({}) + {("a", "b")} by { OneMoreReply({}, "a", "b", "reply"); }
    assert Acyclic(StoredGraph({"a", "b"}, {})) by { EmptyIsAcyclic(); }
    NewEdgeClosesCycleIff(Replies({}), "a", "b");
    LeadsByAnEdge(Replies({}), "b", "a");
    EdgeLeads(Replies(relations), "a", "b");
  }

  // ----- The statements ----------------------------------------------------------------------

  /** The stored replies as the query lists them. */
  method ListReplies(relations: set<(string, string, string)>) returns (listed: seq<RelationInput>)
    ensures forall r :: r in listed ==> r.kind == "reply" && Key(r) in relations
    ensures forall k :: k in relations && k.2 == "reply" ==> exists r :: r in listed && Key(r) == k
  {
    listed := [];
    var rest := relations;
    while rest != {}
      invariant rest <= relations
      invariant forall r :: r in listed ==> r.kind == "reply" && Key(r) in relations
      invariant forall k :: k in relations - rest && k.2 == "reply" ==> exists r :: r in listed && Key(r) == k
      decreases rest
    {
      var k :| k in rest;
      if k.2 == "reply" {
        var row := RelationInput(k.0, k.2, k.1, None);
        ghost var before := listed;
        listed := listed + [row];
        assert row in listed && Key(row) == k;
        assert forall r :: r in before ==> r in listed;
      }
      rest := rest - {k};
    }
  }

  lemma ListedReplies(
      relations: set<(string, string, string)>, listed: seq<RelationInput>, incoming: seq<RelationInput>,
      known: set<string>)
    requires forall r :: r in listed ==> r.kind == "reply" && Key(r) in relations
    requires forall k :: k in relations && k.2 == "reply" ==> exists r :: r in listed && Key(r) == k
    ensures KnownReplies(known, listed + RepliesIn(incoming)) ==
            set e | e in Replies(relations + Keys(incoming)) && e.1 in known
  {
    var all := listed + RepliesIn(incoming);
    forall e | e in Replies(relations + Keys(incoming)) && e.1 in known ensures e in KnownReplies(known, all) {
      var k := (e.0, e.1, "reply");
      if k in relations {
        var r :| r in listed && Key(r) == k;
        assert r in all;
      } else {
        var r :| r in incoming && Key(r) == k;
        assert r in RepliesIn(incoming);
        assert r in all;
      }
    }
    forall e | e in KnownReplies(known, all) ensures e in Replies(relations + Keys(incoming)) {
      var r :| r in all && r.kind == "reply" && (r.referencing, r.target) == e;
      assert Key(r) in relations + Keys(incoming);
    }
  }

  lemma IncomingReplies(relations: set<(string, string, string)>, incoming: seq<RelationInput>, known: set<string>)
    ensures KnownReplies(known, incoming) <= Replies(relations + Keys(incoming))
  {
    forall e | e in KnownReplies(known, incoming) ensures e in Replies(relations + Keys(incoming)) {
      var r :| r in incoming && r.kind == "reply" && (r.referencing, r.target) == e;
      assert Key(r) in Keys(incoming);
    }
  }

  lemma ReplyIsAKind()
    ensures ValidKind("reply")
  {
    var kind := "reply";
    assert |kind| == 5 && kind[0] == 'r' && kind[1] == 'e' && kind[2] == 'p' && kind[3] == 'l' && kind[4] == 'y';
  }

  /** The reply relations of one observation, in order. */
  function RepliesIn(incoming: seq<RelationInput>): (replies: seq<RelationInput>)
    ensures forall r :: r in replies <==> r in incoming && r.kind == "reply"
  {
    if incoming == [] then []
    else
      var last := incoming[|incoming| - 1];
      RepliesIn(incoming[..|incoming| - 1]) + if last.kind == "reply" then [last] else []
  }

  /** The checks, in the order of the service: the limit, the sources, cycles with everything stored, the kinds. */
  method Decide(stored: StoredGraph, post: string, incoming: seq<RelationInput>) returns (error: Option<RecordError>)
    requires Rooted(stored)
    ensures error == Refusal(stored, post, incoming)
  {
    if |incoming| > MAX_RELATIONS_PER_OBSERVATION {
      return Some(TooManyRelations);
    }
    if r :| r in incoming && r.referencing != post {
      return Some(RelationSourceMismatch);
    }
    var known := stored.posts + {post};
    ghost var edges := Replies(stored.relations + Keys(incoming));
    var listed := ListReplies(stored.relations);
    var all := listed + RepliesIn(incoming);
    var cycle := CheckRelations(known, all);
    assert cycle.Some? <==> HasCycle(edges) by {
      ReplyIsAKind();
      assert forall i :: 0 <= i < |all| ==> all[i] in all && all[i].kind == "reply";
      ListedReplies(stored.relations, listed, incoming, known);
      KnownTargetsShowEveryCycle(known, edges, KnownReplies(known, all));
    }
    if cycle.Some? {
      return Some(Graph(ReplyCycle));
    }
    var malformed := CheckRelations(known, incoming);
    assert malformed != Some(ReplyCycle) by {
      IncomingReplies(stored.relations, incoming, known);
      FewerEdges(KnownReplies(known, incoming), edges);
    }
    return if malformed.Some? then Some(Graph(InvalidKind)) else None;
  }

  lemma ViewIsRooted(content: Content)
    ensures Rooted(ViewOf(content))
  {
    forall k | k in ViewOf(content).relations ensures k.0 in ViewOf(content).posts {
      var r :| r in content.relations && content.relations[r].referencing in content.posts &&
        RelationKey(content, r) == k;
    }
  }

  /** The cycle test of an observed post without relations. */
  method FindsCycle(content: Content, code: string) returns (cyclic: bool)
    ensures cyclic <==> CycleStored(content)
  {
    ViewIsRooted(content);
    var stored := ViewOf(content);
    var error := Decide(stored, code, []);
    assert stored.relations + Keys([]) == stored.relations;
    return error.Some?;
  }

  class RelationStore {
    var posts: set<string>
    var relations: set<(string, string, string)>

    constructor ()
      ensures View() == StoredGraph({}, {})
    {
      posts, relations := {}, {};
    }

    ghost function View(): StoredGraph
      reads this
    {
      StoredGraph(posts, relations)
    }

    /**
     The observed post with its relations, under the relation lock: refused exactly when the limit
     or the source check fails, a kind is malformed, or the replies would close a cycle anywhere.
     */
    method Record(post: string, incoming: seq<RelationInput>) returns (error: Option<RecordError>)
      requires Rooted(View())
      modifies this
      ensures error == Refusal(old(View()), post, incoming)
      ensures View() == Recorded(old(View()), post, incoming)
    {
      error := Decide(StoredGraph(posts, relations), post, incoming);
      if error.None? {
        posts, relations := posts + {post}, relations + Keys(incoming);
      }
    }
  }
}
