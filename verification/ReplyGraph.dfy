/** The reply graph: the cycle test of `public_resolution.rs` and the stored graph it guards. */
module ReplyGraph {
  import opened Wrappers
  import opened Text

  /** The replies of each referencing post, by provider identity. */
  type Graph = map<string, seq<string>>

  type Edges = set<(string, string)>

  function EdgesOf(g: Graph): Edges {
    set a, b | a in g && b in g[a] :: (a, b)
  }

  ghost predicate IsPath(edges: Edges, path: seq<string>) {
    path != [] && forall i :: 0 <= i < |path| - 1 ==> (path[i], path[i + 1]) in edges
  }

  /** A walk of at least one edge from `a` to `b`. */
  ghost predicate Walk(edges: Edges, path: seq<string>, a: string, b: string) {
    IsPath(edges, path) && 2 <= |path| && path[0] == a && path[|path| - 1] == b
  }

  ghost predicate Leads(edges: Edges, a: string, b: string) {
    exists path :: Walk(edges, path, a, b)
  }

  ghost predicate HasCycle(edges: Edges) {
    exists a :: Leads(edges, a, a)
  }

  lemma EdgeLeads(edges: Edges, a: string, b: string)
    requires (a, b) in edges
    ensures Leads(edges, a, b)
  {
    assert Walk(edges, [a, b], a, b);
  }

  lemma LeadsOn(edges: Edges, a: string, b: string, c: string)
    requires Leads(edges, a, b) && (b, c) in edges
    ensures Leads(edges, a, c)
  {
    var path :| Walk(edges, path, a, b);
    assert Walk(edges, path + [c], a, c);
  }

  // ----- One more edge -----------------------------------------------------------------------

  /** A walk that never takes the edge from `a` to `b` is a walk without it. */
  lemma AvoidsEdge(edges: Edges, a: string, b: string, path: seq<string>)
    requires IsPath(edges + {(a, b)}, path)
    requires forall i :: 0 <= i < |path| - 1 ==> (path[i], path[i + 1]) != (a, b)
    ensures IsPath(edges, path)
  {
  }

  /** Cut at its first return to the new edge, a walk from `b` to `a` needs only the old edges. */
  lemma {:induction false} OldEdgesLeadBack(edges: Edges, a: string, b: string, path: seq<string>)
    requires IsPath(edges + {(a, b)}, path) && path[0] == b && path[|path| - 1] == a
    ensures a == b || Leads(edges, b, a)
    decreases |path|
  {
    if i :| 0 <= i < |path| - 1 && (path[i], path[i + 1]) == (a, b) {
      OldEdgesLeadBack(edges, a, b, path[..i + 1]);
    } else {
      AvoidsEdge(edges, a, b, path);
      if |path| >= 2 {
        assert Walk(edges, path, b, a);
      }
    }
  }

  /** A closed walk that takes the new edge at `i`, entered behind it. */
  function Rotated(path: seq<string>, i: nat): seq<string>
    requires i + 1 < |path|
  {
    path[i + 1..] + path[1..i + 1]
  }

  lemma RotatedIsPath(edges: Edges, path: seq<string>, i: nat)
    requires IsPath(edges, path) && i + 1 < |path| && path[0] == path[|path| - 1]
    ensures IsPath(edges, Rotated(path, i))
    ensures Rotated(path, i)[0] == path[i + 1] && Rotated(path, i)[|path| - 2] == path[i]
  {
    var turned, back := Rotated(path, i), |path| - 1 - i;
    forall k | 0 <= k < |turned| - 1 ensures (turned[k], turned[k + 1]) in edges {
      var j := if k < back then i + 1 + k else k - back + 1;
      assert turned[k] == path[j];
      if k != back - 1 {
        assert turned[k + 1] == path[j + 1];
        assert (path[j], path[j + 1]) in edges;
      } else {
        assert turned[k] == path[0] && turned[k + 1] == path[1];
        assert (path[0], path[1]) in edges;
      }
    }
  }

  lemma CycleUsesNewEdge(edges: Edges, a: string, b: string)
    requires !HasCycle(edges) && HasCycle(edges + {(a, b)})
    ensures a == b || Leads(edges, b, a)
  {
    var x :| Leads(edges + {(a, b)}, x, x);
    var path :| Walk(edges + {(a, b)}, path, x, x);
    if i :| 0 <= i < |path| - 1 && (path[i], path[i + 1]) == (a, b) {
      RotatedIsPath(edges + {(a, b)}, path, i);
      OldEdgesLeadBack(edges, a, b, Rotated(path, i));
    } else {
      AvoidsEdge(edges, a, b, path);
      assert Walk(edges, path, x, x);
      assert Leads(edges, x, x);
    }
  }

  /** One more reply closes a cycle exactly when it replies to itself or to a post that already leads back to it. */
  lemma NewEdgeClosesCycleIff(edges: Edges, a: string, b: string)
    requires !HasCycle(edges)
    ensures HasCycle(edges + {(a, b)}) <==> a == b || Leads(edges, b, a)
  {
    var all := edges + {(a, b)};
    if HasCycle(all) {
      CycleUsesNewEdge(edges, a, b);
    }
    if a == b {
      EdgeLeads(all, a, a);
    } else if Leads(edges, b, a) {
      var path :| Walk(edges, path, b, a);
      assert Walk(all, [a] + path, a, a);
      assert Leads(all, a, a);
    }
  }

  // ----- What the depth-first search knows ---------------------------------------------------

  /** No edge leaves the set. */
  ghost predicate Closed(edges: Edges, complete: set<string>) {
    forall a, b :: a in complete && (a, b) in edges ==> b in complete
  }

  /** The set is closed and no cycle lies in it. */
  ghost predicate Finished(edges: Edges, complete: set<string>) {
    Closed(edges, complete) && forall a :: a in complete ==> !Leads(edges, a, a)
  }

  /** A walk whose second node lies in a closed set ends in it. */
  lemma {:induction false} StaysInside(edges: Edges, complete: set<string>, path: seq<string>, i: nat)
    requires Closed(edges, complete) && IsPath(edges, path) && 1 <= i < |path| && path[1] in complete
    ensures path[i] in complete
  {
    if i <= 1 {
    } else {
      StaysInside(edges, complete, path, i - 1);
      assert (path[i - 1], path[i]) in edges;
    }
  }

  /** A node with all replies in a closed set leads back to itself only from inside. */
  lemma ReturnsInside(edges: Edges, complete: set<string>, current: string)
    requires Closed(edges, complete) && forall b :: (current, b) in edges ==> b in complete
    ensures Leads(edges, current, current) ==> current in complete
  {
    if Leads(edges, current, current) {
      var path :| Walk(edges, path, current, current);
      assert (path[0], path[1]) in edges;
      StaysInside(edges, complete, path, |path| - 1);
    }
  }

  /** A node whose replies are all finished is finished too. */
  lemma OneMoreFinished(edges: Edges, complete: set<string>, current: string)
    requires Finished(edges, complete) && current !in complete
    requires forall b :: (current, b) in edges ==> b in complete
    ensures Finished(edges, complete + {current})
  {
    ReturnsInside(edges, complete, current);
  }

  /** What leads anywhere has an edge of its own. */
  lemma LeadsByAnEdge(edges: Edges, a: string, b: string)
    ensures Leads(edges, a, b) ==> exists c :: (a, c) in edges
  {
    if Leads(edges, a, b) {
      var path :| Walk(edges, path, a, b);
      assert (path[0], path[1]) in edges;
    }
  }

  /** With every referencing post finished there is no cycle anywhere. */
  lemma AllFinished(g: Graph, complete: set<string>)
    requires Finished(EdgesOf(g), complete) && g.Keys <= complete
    ensures !HasCycle(EdgesOf(g))
  {
    forall a ensures Leads(EdgesOf(g), a, a) ==> a in g {
      LeadsByAnEdge(EdgesOf(g), a, a);
    }
  }

  function Nodes(g: Graph): set<string> {
    g.Keys + set e | e in EdgesOf(g) :: e.1
  }

  // ----- The search --------------------------------------------------------------------------

  /**
   `visits_cycle`: `visiting` is the chain of open calls above `current`, `complete` what earlier
   calls have finished. A cycle that is found exists; otherwise `current` and everything it leads
   to is finished, and the chain is as before.
   */
  method VisitsCycle(current: string, g: Graph, visiting: set<string>, complete: set<string>)
    returns (found: bool, open: set<string>, finished: set<string>)
    requires current in Nodes(g) && current !in complete && visiting <= Nodes(g) && visiting !! complete
    requires Finished(EdgesOf(g), complete)
    requires forall v :: v in visiting ==> Leads(EdgesOf(g), v, current)
    ensures found ==> HasCycle(EdgesOf(g))
    ensures !found ==> open == visiting && finished !! visiting
    ensures !found ==> complete + {current} <= finished && Finished(EdgesOf(g), finished)
    decreases Nodes(g) - visiting
  {
    if current in visiting {
      return true, visiting, complete;
    }
    open, finished := visiting + {current}, complete;
    if current in g {
      var targets := g[current];
      for n := 0 to |targets|
        invariant open == visiting + {current} && complete <= finished && finished !! open
        invariant Finished(EdgesOf(g), finished)
        invariant forall i :: 0 <= i < n ==> targets[i] in finished
      {
        var target := targets[n];
        assert (current, target) in EdgesOf(g);
        if target !in finished {
          OpenCallsLead(EdgesOf(g), visiting, current, target);
          assert Nodes(g) - open < Nodes(g) - visiting by {
            assert current in Nodes(g) - visiting && current !in Nodes(g) - open;
          }
          found, open, finished := VisitsCycle(target, g, open, finished);
          if found {
            return true, open, finished;
          }
        }
      }
    }
    OneMoreFinished(EdgesOf(g), finished, current);
    return false, open - {current}, finished + {current};
  }

  lemma OpenCallsLead(edges: Edges, visiting: set<string>, current: string, target: string)
    requires (current, target) in edges && forall v :: v in visiting ==> Leads(edges, v, current)
    ensures forall v :: v in visiting + {current} ==> Leads(edges, v, target)
  {
    forall v | v in visiting + {current} ensures Leads(edges, v, target) {
      if v == current {
        EdgeLeads(edges, current, target);
      } else {
        LeadsOn(edges, v, current, target);
      }
    }
  }

  /** `has_reply_cycle`: true exactly when the graph has a cycle, with the finished posts shared by all roots. */
  method HasReplyCycle(g: Graph) returns (cyclic: bool)
    ensures cyclic <==> HasCycle(EdgesOf(g))
  {
    var complete, rest := {}, g.Keys;
    while rest != {}
      invariant rest <= g.Keys && g.Keys - rest <= complete && Finished(EdgesOf(g), complete)
      decreases rest
    {
      var source :| source in rest;
      if source !in complete {
        var found, _, finished := VisitsCycle(source, g, {}, complete);
        if found {
          return true;
        }
        complete := finished;
      }
      rest := rest - {source};
    }
    AllFinished(g, complete);
    return false;
  }

  // ----- Normalising relations ---------------------------------------------------------------

  datatype RelationInput = RelationInput(referencing: string, kind: string, target: string, permalink: Option<string>)

  datatype RelationError = InvalidKind | ReplyCycle

  const MAX_KIND_LENGTH := 32

  predicate IsLower(c: char) {
    'a' <= c <= 'z'
  }

  /** The published token grammar of a relation kind. */
  predicate ValidKind(kind: string) {
    && kind != "" && IsLower(kind[0]) && |kind| <= MAX_KIND_LENGTH
    && forall i :: 1 <= i < |kind| ==> IsLower(kind[i]) || '0' <= kind[i] <= '9' || kind[i] == '_'
  }

  /** A kind is one letter and at most 31 more letters, digits and underscores. */
  lemma KindIsSpelled(kind: string)
    ensures ValidKind(kind) <==>
            && 1 <= |kind| <= 32 && kind[0] in LOWER_LETTERS
            && forall i :: 0 <= i < |kind| ==> kind[i] in LOWER_LETTERS + DECIMAL_DIGITS + "_"
  {
    CharactersAreListed();
  }

  predicate ValidKinds(relations: seq<RelationInput>) {
    forall i :: 0 <= i < |relations| ==> ValidKind(relations[i].kind)
  }

  /** The reply edges among `relations` whose target is known. */
  function KnownReplies(known: set<string>, relations: seq<RelationInput>): Edges {
    set r | r in relations && r.kind == "reply" && r.target in known :: (r.referencing, r.target)
  }

  function AddReply(g: Graph, source: string, target: string): Graph {
    g[source := (if source in g then g[source] else []) + [target]]
  }

  lemma AddedReply(g: Graph, source: string, target: string)
    ensures EdgesOf(AddReply(g, source, target)) == EdgesOf(g) + {(source, target)}
  {
    var after := AddReply(g, source, target);
    assert (source, target) in EdgesOf(after) by { assert target in after[source]; }
    forall a, b | (a, b) in EdgesOf(g) ensures (a, b) in EdgesOf(after) {
      assert b in after[a];
    }
  }

  /**
   The part of `normalize_relations` that decides: refused for a malformed kind, or exactly when
   known replies close a cycle.
   */
  method CheckRelations(known: set<string>, relations: seq<RelationInput>) returns (error: Option<RelationError>)
    ensures error == if !ValidKinds(relations) then Some(InvalidKind)
                     else if HasCycle(KnownReplies(known, relations)) then Some(ReplyCycle) else None
  {
    var replies: Graph := map[];
    for n := 0 to |relations|
      invariant ValidKinds(relations[..n])
      invariant EdgesOf(replies) == KnownReplies(known, relations[..n])
    {
      var relation := relations[n];
      if !ValidKind(relation.kind) {
        return Some(InvalidKind);
      }
      assert relations[..n + 1] == relations[..n] + [relation];
      if relation.kind == "reply" && relation.target in known {
        AddedReply(replies, relation.referencing, relation.target);
        replies := AddReply(replies, relation.referencing, relation.target);
      }
    }
    assert relations[..|relations|] == relations;
    var cyclic := HasReplyCycle(replies);
    return if cyclic then Some(ReplyCycle) else None;
  }
}
