/** `order by key, identifier limit n`: the first rows of a query. */
module Selection {
  import opened Archive

  /** Earlier by key, then by identifier. */
  predicate Before(keys: map<Id, Time>, a: Id, b: Id)
    requires a in keys && b in keys
  {
    keys[a] < keys[b] || (keys[a] == keys[b] && a < b)
  }

  /** `order` is the first `limit` identifiers by key. */
  ghost predicate IsFirst(keys: map<Id, Time>, limit: nat, order: seq<Id>) {
    && |order| <= limit
    && (forall i :: 0 <= i < |order| ==> order[i] in keys)
    && (forall i, j :: 0 <= i < j < |order| ==> Before(keys, order[i], order[j]))
    && (forall a :: a in keys && a !in order ==>
          |order| == limit && forall i :: 0 <= i < |order| ==> Before(keys, order[i], a))
  }

  lemma {:induction false} LeastExists(keys: map<Id, Time>, among: set<Id>)
    requires among != {} && among <= keys.Keys
    ensures exists a :: a in among && forall b :: b in among && b != a ==> Before(keys, a, b)
  {
    var a :| a in among;
    var rest := among - {a};
    if rest == {} {
      assert among == {a};
    } else {
      LeastExists(keys, rest);
      var least :| least in rest && forall b :: b in rest && b != least ==> Before(keys, least, b);
      assert among == rest + {a};
      var first := if Before(keys, a, least) then a else least;
      assert forall b :: b in among && b != first ==> Before(keys, first, b);
    }
  }

  method SelectFirst(keys: map<Id, Time>, limit: nat) returns (order: seq<Id>)
    ensures IsFirst(keys, limit, order)
  {
    order := [];
    var rest := keys.Keys;
    while |order| < limit && rest != {}
      invariant |order| <= limit && rest <= keys.Keys
      invariant forall i :: 0 <= i < |order| ==> order[i] in keys
      invariant forall a :: a in keys ==> a in rest || a in order
      invariant forall i, j :: 0 <= i < j < |order| ==> Before(keys, order[i], order[j])
      invariant forall i, a :: 0 <= i < |order| && a in rest ==> Before(keys, order[i], a)
    {
      LeastExists(keys, rest);
      var first :| first in rest && forall b :: b in rest && b != first ==> Before(keys, first, b);
      order, rest := order + [first], rest - {first};
    }
  }
}
