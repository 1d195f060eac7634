/** Restartable reprocessing of a retained export: the ordered report and its chunked application. */
module Reprocessing {
  import opened Wrappers
  import opened Archive
  import opened PlanEncoding

  // ----- The order of the report -------------------------------------------------------------

  /** `str::cmp` on UTF-8 text. */
  predicate Leq(a: string, b: string) {
    a == "" || (b != "" && (a[0] < b[0] || (a[0] == b[0] && Leq(a[1..], b[1..]))))
  }

  lemma {:induction false} LeqTotal(a: string, b: string)
    ensures Leq(a, b) || Leq(b, a)
    ensures Leq(a, b) && Leq(b, a) ==> a == b
  {
    if a == "" || b == "" || a[0] != b[0] {
    } else {
      LeqTotal(a[1..], b[1..]);
      assert a == [a[0]] + a[1..] && b == [b[0]] + b[1..];
    }
  }

  lemma {:induction false} LeqTransitive(a: string, b: string, c: string)
    requires Leq(a, b) && Leq(b, c)
    ensures Leq(a, c)
  {
    if a == "" || a[0] != b[0] || b[0] != c[0] {
    } else {
      LeqTransitive(a[1..], b[1..], c[1..]);
    }
  }

  /** `a` comes first: it ends before the two differ, or has the smaller byte where they first do. */
  ghost predicate ComesFirst(a: string, b: string, i: nat) {
    && i <= |a| && i <= |b| && a[..i] == b[..i]
    && (i == |a| || (i < |b| && a[i] < b[i]))
  }

  /** The order of the report is the byte order of the keys. */
  lemma {:induction false} LeqIsByteOrder(a: string, b: string)
    ensures Leq(a, b) <==> exists i: nat :: ComesFirst(a, b, i)
  {
    if a == "" {
      assert ComesFirst(a, b, 0);
    } else if b == "" {
    } else if a[0] != b[0] {
      assert a[0] < b[0] ==> ComesFirst(a, b, 0);
      assert forall i: nat :: ComesFirst(a, b, i) && i > 0 ==> a[..i][0] == b[..i][0];
    } else {
      LeqIsByteOrder(a[1..], b[1..]);
      forall i: nat | ComesFirst(a[1..], b[1..], i) ensures ComesFirst(a, b, i + 1) {
        assert a[..i + 1] == [a[0]] + a[1..][..i] && b[..i + 1] == [b[0]] + b[1..][..i];
      }
      forall i: nat | ComesFirst(a, b, i) ensures i > 0 && ComesFirst(a[1..], b[1..], i - 1) {
        assert i > 0;
        assert a[1..][..i - 1] == a[..i][1..] && b[1..][..i - 1] == b[..i][1..];
      }
    }
  }

  ghost predicate Ordered(items: seq<Item>) {
    forall i, j :: 0 <= i < j < |items| ==> Leq(items[i].key, items[j].key)
  }

  /** The item goes behind every item with a key up to its own. */
  function Insert(item: Item, items: seq<Item>): seq<Item> {
    if items == [] || !Leq(items[0].key, item.key) then [item] + items else [items[0]] + Insert(item, items[1..])
  }

  /** The stable sort by key. */
  function Sorted(items: seq<Item>): seq<Item> {
    if items == [] then [] else Insert(items[|items| - 1], Sorted(items[..|items| - 1]))
  }

  lemma {:induction false} InsertHolds(item: Item, items: seq<Item>)
    ensures multiset(Insert(item, items)) == multiset(items) + multiset{item}
    ensures |Insert(item, items)| == |items| + 1
  {
    if items == [] || !Leq(items[0].key, item.key) {
    } else {
      InsertHolds(item, items[1..]);
      assert items == [items[0]] + items[1..];
    }
  }

  /** Every key is at least `key`. */
  ghost predicate AtLeast(items: seq<Item>, key: string) {
    forall i :: 0 <= i < |items| ==> Leq(key, items[i].key)
  }

  lemma {:induction false} InsertStaysAtLeast(item: Item, items: seq<Item>, key: string)
    requires AtLeast(items, key) && Leq(key, item.key)
    ensures AtLeast(Insert(item, items), key)
  {
    if items == [] || !Leq(items[0].key, item.key) {
    } else {
      InsertStaysAtLeast(item, items[1..], key);
    }
  }

  lemma BeforeAll(item: Item, items: seq<Item>)
    requires Ordered(items) && (items == [] || !Leq(items[0].key, item.key))
    ensures AtLeast(items, item.key)
  {
    forall j | 0 <= j < |items| ensures Leq(item.key, items[j].key) {
      LeqTotal(items[0].key, item.key);
      if j > 0 {
        LeqTransitive(item.key, items[0].key, items[j].key);
      }
    }
  }

  lemma {:induction false} InsertOrders(item: Item, items: seq<Item>)
    requires Ordered(items)
    ensures Ordered(Insert(item, items))
  {
    if items == [] || !Leq(items[0].key, item.key) {
      BeforeAll(item, items);
    } else {
      InsertOrders(item, items[1..]);
      InsertStaysAtLeast(item, items[1..], items[0].key);
    }
  }

  /** The report holds exactly the inputs, ordered by key. */
  lemma {:induction false} ReportIsSorted(items: seq<Item>)
    ensures Ordered(Sorted(items)) && multiset(Sorted(items)) == multiset(items) && |Sorted(items)| == |items|
  {
    if items == [] {
    } else {
      var front, last := items[..|items| - 1], items[|items| - 1];
      ReportIsSorted(front);
      InsertOrders(last, Sorted(front));
      InsertHolds(last, Sorted(front));
      assert items == front + [last];
    }
  }

  ghost predicate DistinctKeys(items: seq<Item>) {
    forall i, j :: 0 <= i < j < |items| ==> items[i].key != items[j].key
  }

  lemma FirstIsLeast(items: seq<Item>, item: Item)
    requires Ordered(items) && item in multiset(items)
    ensures items != [] && Leq(items[0].key, item.key)
  {
    var j :| 0 <= j < |items| && items[j] == item;
    LeqTotal(item.key, item.key);
  }

  lemma SameFirst(a: seq<Item>, b: seq<Item>)
    requires Ordered(a) && Ordered(b) && DistinctKeys(a) && multiset(a) == multiset(b) && a != [] && b != []
    ensures a[0] == b[0]
  {
    assert a[0] in multiset(a) && b[0] in multiset(b);
    FirstIsLeast(b, a[0]);
    FirstIsLeast(a, b[0]);
    LeqTotal(a[0].key, b[0].key);
    var j :| 0 <= j < |a| && a[j] == b[0];
  }

  lemma TailOf(a: seq<Item>)
    requires a != [] && Ordered(a) && DistinctKeys(a)
    ensures Ordered(a[1..]) && DistinctKeys(a[1..]) && multiset(a[1..]) == multiset(a) - multiset{a[0]}
  {
    assert a == [a[0]] + a[1..];
  }

  /** Ordered lists of the same items with distinct keys are the same list. */
  lemma {:induction false} OrderIsCanonical(a: seq<Item>, b: seq<Item>)
    requires Ordered(a) && Ordered(b) && DistinctKeys(a) && DistinctKeys(b) && multiset(a) == multiset(b)
    ensures a == b
    decreases |a|
  {
    assert |a| == |multiset(a)| && |b| == |multiset(b)|;
    if a == [] {
    } else {
      SameFirst(a, b);
      TailOf(a);
      TailOf(b);
      OrderIsCanonical(a[1..], b[1..]);
      assert a == [a[0]] + a[1..] && b == [b[0]] + b[1..];
    }
  }

  /** Distinct keys, said of the items alone and not of their order. */
  ghost predicate KeyedOnce(items: multiset<Item>) {
    && (forall x :: x in items ==> items[x] == 1)
    && (forall x, y :: x in items && y in items && x.key == y.key ==> x == y)
  }

  lemma TwiceCounts(a: seq<Item>, i: nat, j: nat)
    requires i < j < |a| && a[i] == a[j]
    ensures multiset(a)[a[i]] >= 2
  {
    assert a == a[..j] + a[j..];
    assert a[..j][i] in multiset(a[..j]) && a[j..][0] in multiset(a[j..]);
  }

  lemma {:induction false} OnceCounts(a: seq<Item>, x: Item)
    requires DistinctKeys(a) && x in multiset(a)
    ensures multiset(a)[x] == 1
    decreases |a|
  {
    var front, last := a[..|a| - 1], a[|a| - 1];
    assert a == front + [last];
    if x !in front {
    } else {
      OnceCounts(front, x);
      var i :| 0 <= i < |front| && front[i] == x;
      assert x.key != last.key;
    }
  }

  lemma DistinctIffKeyedOnce(a: seq<Item>)
    ensures DistinctKeys(a) <==> KeyedOnce(multiset(a))
  {
    if DistinctKeys(a) {
      forall x | x in multiset(a) ensures multiset(a)[x] == 1 {
        OnceCounts(a, x);
      }
    }
    if KeyedOnce(multiset(a)) {
      forall i, j | 0 <= i < j < |a| ensures a[i].key != a[j].key {
        assert a[i] in multiset(a) && a[j] in multiset(a);
        if a[i] == a[j] {
          TwiceCounts(a, i, j);
        }
      }
    }
  }

  /** With distinct keys the report, and so the plan, does not depend on the order of the inputs. */
  lemma ReportIgnoresInputOrder(a: seq<Item>, b: seq<Item>)
    requires DistinctKeys(a) && multiset(a) == multiset(b)
    ensures Sorted(a) == Sorted(b) && Encode(Sorted(a)) == Encode(Sorted(b))
  {
    ReportIsSorted(a);
    ReportIsSorted(b);
    DistinctIffKeyedOnce(a);
    DistinctIffKeyedOnce(Sorted(a));
    DistinctIffKeyedOnce(Sorted(b));
    OrderIsCanonical(Sorted(a), Sorted(b));
  }

  // ----- Items with one key ------------------------------------------------------------------

  /** The items with `key`, in the order they come in. */
  function WithKey(items: seq<Item>, key: string): seq<Item> {
    if items == [] then []
    else if items[0].key == key then [items[0]] + WithKey(items[1..], key) else WithKey(items[1..], key)
  }

  lemma {:induction false} WithKeyThen(items: seq<Item>, item: Item, key: string)
    ensures WithKey(items + [item], key) == WithKey(items, key) + if item.key == key then [item] else []
  {
    if items == [] {
      assert [item][1..] == [];
    } else {
      WithKeyThen(items[1..], item, key);
      var all, rest := items + [item], WithKey(items[1..], key);
      assert all[0] == items[0] && all[1..] == items[1..] + [item];
      if item.key == key {
        assert [items[0]] + (rest + [item]) == [items[0]] + rest + [item];
      } else {
        assert rest + [] == rest && [items[0]] + rest + [] == [items[0]] + rest;
      }
    }
  }

  lemma {:induction false} NoneWithKey(items: seq<Item>, key: string)
    requires forall i :: 0 <= i < |items| ==> items[i].key != key
    ensures WithKey(items, key) == []
  {
    if items == [] {
    } else {
      NoneWithKey(items[1..], key);
    }
  }

  lemma NoneEqualBehind(item: Item, items: seq<Item>)
    requires Ordered(items) && (items == [] || !Leq(items[0].key, item.key))
    ensures WithKey(items, item.key) == []
  {
    forall i | 0 <= i < |items| ensures items[i].key != item.key {
      LeqTotal(item.key, item.key);
      assert i == 0 || Leq(items[0].key, items[i].key);
    }
    NoneWithKey(items, item.key);
  }

  lemma {:induction false} InsertedLast(item: Item, items: seq<Item>, key: string)
    requires Ordered(items)
    ensures WithKey(Insert(item, items), key) == WithKey(items, key) + if item.key == key then [item] else []
  {
    if items == [] || !Leq(items[0].key, item.key) {
      NoneEqualBehind(item, items);
      assert ([item] + items)[1..] == items;
    } else {
      InsertedLast(item, items[1..], key);
      assert ([items[0]] + Insert(item, items[1..]))[1..] == Insert(item, items[1..]);
    }
  }

  /** The sort is stable: the items of every key stay in the order they came in. */
  lemma {:induction false} SortIsStable(items: seq<Item>, key: string)
    ensures WithKey(Sorted(items), key) == WithKey(items, key)
  {
    if items == [] {
    } else {
      var front, last := items[..|items| - 1], items[|items| - 1];
      SortIsStable(front, key);
      ReportIsSorted(front);
      InsertedLast(last, Sorted(front), key);
      WithKeyThen(front, last, key);
      assert items == front + [last];
    }
  }

  /** Both lists have the same items of every key, in the same order. */
  ghost predicate SameByKey(a: seq<Item>, b: seq<Item>) {
    forall key :: WithKey(a, key) == WithKey(b, key)
  }

  lemma {:induction false} WithKeyIsIn(items: seq<Item>, key: string)
    ensures forall x :: x in WithKey(items, key) ==> x in items && x.key == key
  {
    if items == [] {
    } else {
      WithKeyIsIn(items[1..], key);
    }
  }

  lemma FirstKeyIsLeast(a: seq<Item>, b: seq<Item>)
    requires Ordered(b) && SameByKey(a, b) && a != []
    ensures b != [] && Leq(b[0].key, a[0].key)
  {
    var key := a[0].key;
    assert a[0] in WithKey(a, key);
    WithKeyIsIn(b, key);
    assert a[0] in b;
    var i :| 0 <= i < |b| && b[i] == a[0];
    LeqTotal(key, key);
  }

  lemma TailsByKey(a: seq<Item>, b: seq<Item>)
    requires a != [] && b != [] && a[0] == b[0] && SameByKey(a, b)
    ensures SameByKey(a[1..], b[1..])
  {
    forall key ensures WithKey(a[1..], key) == WithKey(b[1..], key) {
      assert WithKey(a, key) == WithKey(b, key);
      if a[0].key == key {
        assert WithKey(a, key)[1..] == WithKey(a[1..], key) && WithKey(b, key)[1..] == WithKey(b[1..], key);
      }
    }
  }

  lemma {:induction false} OrderedByKey(a: seq<Item>, b: seq<Item>)
    requires Ordered(a) && Ordered(b) && SameByKey(a, b)
    ensures a == b
    decreases |a|
  {
    if a == [] {
      if b != [] {
        FirstKeyIsLeast(b, a);
      }
    } else {
      FirstKeyIsLeast(a, b);
      FirstKeyIsLeast(b, a);
      LeqTotal(a[0].key, b[0].key);
      assert WithKey(a, a[0].key)[0] == a[0] && WithKey(b, a[0].key)[0] == b[0];
      TailsByKey(a, b);
      OrderedByKey(a[1..], b[1..]);
      assert a == [a[0]] + a[1..] && b == [b[0]] + b[1..];
    }
  }

  /** Two inputs have the same report exactly when the items of each key come in the same order in both. */
  lemma SameReportIffSameByKey(a: seq<Item>, b: seq<Item>)
    ensures Sorted(a) == Sorted(b) <==> SameByKey(a, b)
  {
    forall key
      ensures WithKey(Sorted(a), key) == WithKey(a, key) && WithKey(Sorted(b), key) == WithKey(b, key)
    {
      SortIsStable(a, key);
      SortIsStable(b, key);
    }
    if SameByKey(a, b) {
      ReportIsSorted(a);
      ReportIsSorted(b);
      OrderedByKey(Sorted(a), Sorted(b));
    }
  }

  /** So with a repeated key the report does depend on the order of the inputs. */
  lemma RepeatedKeyShowsOrder(x: Item, y: Item)
    requires x.key == y.key && x != y
    ensures multiset([x, y]) == multiset([y, x]) && Sorted([x, y]) != Sorted([y, x])
  {
    assert [x, y][1..] == [y] && [y, x][1..] == [x];
    assert WithKey([x, y], x.key)[0] == x && WithKey([y, x], x.key)[0] == y;
    SameReportIffSameByKey([x, y], [y, x]);
  }

  // ----- Applying a chunk --------------------------------------------------------------------

  datatype Phase = Running | Completed | CompletedWithWarnings

  /** One row of `export_reprocessing_runs` with its `export_reprocessing_items`. */
  datatype Run = Run(receipt: Id, plan: string, state: string, phase: Phase, items: map<string, Item>)

  /** The rows of `items`, by their primary key. */
  function Rows(items: seq<Item>): map<string, Item> {
    if items == [] then map[] else Rows(items[..|items| - 1])[items[|items| - 1].key := items[|items| - 1]]
  }

  ghost predicate HasKey(items: seq<Item>, key: string) {
    exists i :: 0 <= i < |items| && items[i].key == key
  }

  lemma {:induction false} RowKeys(items: seq<Item>, key: string)
    ensures key in Rows(items) <==> HasKey(items, key)
  {
    if items == [] {
    } else {
      var front, last := items[..|items| - 1], items[|items| - 1];
      RowKeys(front, key);
      if HasKey(items, key) && key != last.key {
        var i :| 0 <= i < |items| && items[i].key == key;
        assert front[i].key == key;
      }
      if HasKey(front, key) {
        var i :| 0 <= i < |front| && front[i].key == key;
        assert items[i].key == key;
      }
    }
  }

  /**
   The inserts of one chunk: at most `max` of the items whose key was not stored when the chunk
   began, in order; a key that comes twice in it breaks the primary key.
   */
  function Chunk(
      items: seq<Item>, existing: set<string>, rows: map<string, Item>, max: nat): Option<map<string, Item>> {
    if items == [] || max == 0 then Some(rows)
    else if items[0].key in existing then Chunk(items[1..], existing, rows, max)
    else if items[0].key in rows then None
    else Chunk(items[1..], existing, rows[items[0].key := items[0]], max - 1)
  }

  method InsertChunk(items: seq<Item>, stored: map<string, Item>, max: nat) returns (rows: Option<map<string, Item>>)
    ensures rows == Chunk(items, stored.Keys, stored, max)
  {
    var table, taken := stored, 0;
    for n := 0 to |items|
      invariant taken <= max
      invariant Chunk(items, stored.Keys, stored, max) == Chunk(items[n..], stored.Keys, table, max - taken)
    {
      assert items[n..][1..] == items[n + 1..];
      if taken == max {
        return Some(table);
      }
      if items[n].key !in stored {
        if items[n].key in table {
          return None;
        }
        table, taken := table[items[n].key := items[n]], taken + 1;
      }
    }
    return Some(table);
  }

  lemma RowsOfPrefix(items: seq<Item>, n: nat)
    requires n < |items|
    ensures Rows(items[..n + 1]) == Rows(items[..n])[items[n].key := items[n]]
  {
    assert items[..n + 1][..n] == items[..n];
  }

  /** The item at `k` does not repeat the key of an earlier one. */
  ghost predicate NewAt(items: seq<Item>, k: nat)
    requires k < |items|
  {
    items[k].key !in Rows(items[..k])
  }

  lemma DistinctIsNew(items: seq<Item>, k: nat)
    requires DistinctKeys(items) && k < |items|
    ensures NewAt(items, k)
  {
    RowKeys(items[..k], items[k].key);
  }

  /** One item of a chunk. */
  lemma ChunkStep(items: seq<Item>, existing: set<string>, i: nat, max: nat)
    requires i < |items| && NewAt(items, i) && existing <= Rows(items[..i]).Keys && max > 0
    ensures Chunk(items[i..], existing, Rows(items[..i]), max) ==
            Chunk(items[i + 1..], existing, Rows(items[..i + 1]), max - 1)
    ensures Rows(items[..i]).Keys <= Rows(items[..i + 1]).Keys
  {
    var rest := items[i..];
    assert rest[0] == items[i] && rest[1..] == items[i + 1..];
    RowsOfPrefix(items, i);
  }

  /** From a stored prefix a chunk goes on with the next items. */
  lemma {:induction false} ChunkExtends(items: seq<Item>, existing: set<string>, i: nat, max: nat)
    requires (forall k: nat :: k < |items| ==> NewAt(items, k)) && i <= |items| && existing <= Rows(items[..i]).Keys
    ensures Chunk(items[i..], existing, Rows(items[..i]), max) == Some(Rows(items[..Min(i + max, |items|)]))
    decreases |items| - i
  {
    if max == 0 {
    } else if i == |items| {
      assert items[i..] == [];
    } else {
      assert NewAt(items, i);
      ChunkStep(items, existing, i, max);
      ChunkExtends(items, existing, i + 1, max - 1);
      assert Min(i + 1 + (max - 1), |items|) == Min(i + max, |items|);
    }
  }

  /** The stored items are skipped. */
  lemma {:induction false} ChunkSkips(items: seq<Item>, n: nat, i: nat, max: nat)
    requires i <= n <= |items|
    ensures Chunk(items[i..], Rows(items[..n]).Keys, Rows(items[..n]), max) ==
            Chunk(items[n..], Rows(items[..n]).Keys, Rows(items[..n]), max)
    decreases n - i
  {
    if i == n {
    } else {
      assert items[i..][0] == items[i] && items[i..][1..] == items[i + 1..];
      assert items[..n][i].key == items[i].key;
      RowKeys(items[..n], items[i].key);
      ChunkSkips(items, n, i + 1, max);
    }
  }

  /** The committed items of distinct keys are always a prefix of the ordered report. */
  lemma ChunkTakesNext(items: seq<Item>, n: nat, max: nat)
    requires DistinctKeys(items) && n <= |items|
    ensures Chunk(items, Rows(items[..n]).Keys, Rows(items[..n]), max) == Some(Rows(items[..Min(n + max, |items|)]))
  {
    assert items[0..] == items;
    ChunkSkips(items, n, 0, max);
    forall k: nat | k < |items| ensures NewAt(items, k) {
      DistinctIsNew(items, k);
    }
    ChunkExtends(items, Rows(items[..n]).Keys, n, max);
  }

  // ----- Whole runs --------------------------------------------------------------------------

  /** What a sequence of chunks leaves; a refused chunk leaves what was there. */
  function AfterChunks(items: seq<Item>, sizes: seq<nat>): map<string, Item> {
    if sizes == [] then map[]
    else
      var before := AfterChunks(items, sizes[..|sizes| - 1]);
      var rows := Chunk(items, before.Keys, before, sizes[|sizes| - 1]);
      if rows.Some? then rows.value else before
  }

  function Sum(sizes: seq<nat>): nat {
    if sizes == [] then 0 else Sum(sizes[..|sizes| - 1]) + sizes[|sizes| - 1]
  }

  /**
   For distinct keys any sequence of chunk sizes leaves exactly the first items of the report, as
   many as the sizes add up to; once they add up to all of them this is what one chunk leaves.
   */
  lemma {:induction false} ChunksLeavePrefix(items: seq<Item>, sizes: seq<nat>)
    requires DistinctKeys(items)
    ensures AfterChunks(items, sizes) == Rows(items[..Min(Sum(sizes), |items|)])
    ensures Sum(sizes) >= |items| ==> AfterChunks(items, sizes) == Rows(items)
    decreases |sizes|
  {
    if sizes == [] {
      assert items[..0] == [];
    } else {
      var front, last := sizes[..|sizes| - 1], sizes[|sizes| - 1];
      ChunksLeavePrefix(items, front);
      ChunkTakesNext(items, Min(Sum(front), |items|), last);
    }
    assert items[..|items|] == items;
  }

  lemma {:induction false} RowsCount(items: seq<Item>)
    ensures |Rows(items)| <= |items|
    ensures |Rows(items)| == |items| <==> DistinctKeys(items)
  {
    if items == [] {
    } else {
      var front, last := items[..|items| - 1], items[|items| - 1];
      RowsCount(front);
      RowKeys(front, last.key);
      assert Rows(items).Keys == Rows(front).Keys + {last.key};
      if DistinctKeys(items) {
        assert DistinctKeys(front);
        assert !HasKey(front, last.key);
      } else if DistinctKeys(front) {
        RepeatedLast(items);
      }
    }
  }

  lemma RepeatedLast(items: seq<Item>)
    requires items != [] && DistinctKeys(items[..|items| - 1]) && !DistinctKeys(items)
    ensures HasKey(items[..|items| - 1], items[|items| - 1].key)
  {
    var front := items[..|items| - 1];
    var i, j :| 0 <= i < j < |items| && items[i].key == items[j].key;
    assert front[i].key == items[i].key;
  }

  /** A chunk stores keys of the report only. */
  lemma {:induction false} ChunkStoresReport(
      items: seq<Item>, existing: set<string>, rows: map<string, Item>, max: nat, keys: set<string>)
    requires rows.Keys <= keys && forall i :: 0 <= i < |items| ==> items[i].key in keys
    ensures Chunk(items, existing, rows, max).Some? ==> Chunk(items, existing, rows, max).value.Keys <= keys
    decreases |items|
  {
    if items == [] || max == 0 {
    } else {
      if items[0].key in existing {
        ChunkStoresReport(items[1..], existing, rows, max, keys);
      } else if items[0].key !in rows {
        ChunkStoresReport(items[1..], existing, rows[items[0].key := items[0]], max - 1, keys);
      }
    }
  }

  lemma {:induction false} ChunksStoreReport(items: seq<Item>, sizes: seq<nat>)
    ensures |AfterChunks(items, sizes)| <= |Rows(items)|
    ensures AfterChunks(items, sizes).Keys <= Rows(items).Keys
    decreases |sizes|
  {
    forall i | 0 <= i < |items| ensures items[i].key in Rows(items) {
      RowKeys(items, items[i].key);
    }
    if sizes == [] {
    } else {
      var before := AfterChunks(items, sizes[..|sizes| - 1]);
      ChunksStoreReport(items, sizes[..|sizes| - 1]);
      ChunkStoresReport(items, before.Keys, before, sizes[|sizes| - 1], Rows(items).Keys);
    }
    FewerKeys(AfterChunks(items, sizes).Keys, Rows(items).Keys);
  }

  lemma FewerKeys(a: set<string>, b: set<string>)
    requires a <= b
    ensures |a| <= |b|
  {
    assert b == a + (b - a);
  }

  /** The run has stored as many items as the report has. */
  predicate IsComplete(items: seq<Item>, rows: map<string, Item>) {
    |rows| == |items|
  }

  /**
   A run completes exactly when its keys are distinct and its chunks add up to the report; with a
   repeated key no sequence of chunks completes it.
   */
  lemma CompletesIffDistinct(items: seq<Item>, sizes: seq<nat>)
    ensures IsComplete(items, AfterChunks(items, sizes)) <==> DistinctKeys(items) && Sum(sizes) >= |items|
  {
    RowsCount(items);
    ChunksStoreReport(items, sizes);
    if DistinctKeys(items) {
      ChunksLeavePrefix(items, sizes);
      var n := Min(Sum(sizes), |items|);
      assert DistinctKeys(items[..n]);
      RowsCount(items[..n]);
    }
  }

  /** Once every item is stored, further chunks change nothing. */
  lemma CompleteStaysComplete(items: seq<Item>, max: nat)
    requires DistinctKeys(items)
    ensures Chunk(items, Rows(items).Keys, Rows(items), max) == Some(Rows(items))
  {
    assert items[..|items|] == items;
    ChunkTakesNext(items, |items|, max);
  }

  // ----- The store ---------------------------------------------------------------------------

  datatype ApplyError = PlanChanged | DuplicateKey

  predicate HasFindings(items: seq<Item>) {
    exists i :: 0 <= i < |items| && (items[i].classification.Warning? || items[i].classification.Conflict?)
  }

  function PhaseOf(items: seq<Item>, rows: map<string, Item>): Phase {
    if !IsComplete(items, rows) then Running else if HasFindings(items) then CompletedWithWarnings else Completed
  }

  /** A run is over exactly when it stored as many rows as items, with warnings exactly when an item is a finding. */
  lemma PhaseSays(items: seq<Item>, rows: map<string, Item>)
    ensures PhaseOf(items, rows).Running? <==> |rows| != |items|
    ensures PhaseOf(items, rows).CompletedWithWarnings? <==>
            |rows| == |items| &&
            exists x :: x in items && (x.classification.Warning? || x.classification.Conflict?)
  {
    if x :| x in items && (x.classification.Warning? || x.classification.Conflict?) {
      var i :| 0 <= i < |items| && items[i] == x;
    }
    if HasFindings(items) {
      var i :| 0 <= i < |items| && (items[i].classification.Warning? || items[i].classification.Conflict?);
      assert items[i] in items;
    }
  }

  /** The report of the inputs: items in order and the fingerprint of the plan. */
  method RenderReport(inputs: seq<Item>, hash: string -> string) returns (items: seq<Item>, plan: string)
    ensures items == Sorted(inputs) && plan == hash(Encode(Sorted(inputs)))
  {
    items := [];
    for n := 0 to |inputs|
      invariant items == Sorted(inputs[..n])
    {
      assert inputs[..n + 1][..n] == inputs[..n];
      items := Insert(inputs[n], items);
    }
    assert inputs[..|inputs|] == inputs;
    var text := BuildPlan(items);
    plan := hash(text);
  }

  /** One call of `apply_chunk`: at most `max` items under the owner's operation. */
  datatype Call = Call(owner: Id, receipt: Id, operation: Id, inputs: seq<Item>, state: string, max: nat) {
    function Key(): (Id, Id) {
      (owner, operation)
    }

    function Report(): seq<Item> {
      Sorted(inputs)
    }

    function Plan(hash: string -> string): string {
      hash(Encode(Report()))
    }
  }

  type Runs = map<(Id, Id), Run>

  /** The run of the operation, or the one the call begins. */
  function RunFor(runs: Runs, call: Call, hash: string -> string): Run {
    if call.Key() in runs then runs[call.Key()]
    else Run(call.receipt, call.Plan(hash), call.state, Running, map[])
  }

  /**
   What a call leaves and answers: refused when the plan differs from the one the operation began
   with, and a no-op once the run has completed.
   */
  function Effect(runs: Runs, call: Call, hash: string -> string): (Runs, Result<bool, ApplyError>) {
    var run, items := RunFor(runs, call, hash), call.Report();
    var rows := Chunk(items, run.items.Keys, run.items, call.max);
    if (run.receipt, run.plan, run.state) != (call.receipt, call.Plan(hash), call.state) then
      (runs, Failure(PlanChanged))
    else if !run.phase.Running? then (runs, Success(true))
    else if rows.None? then (runs, Failure(DuplicateKey))
    else
      (runs[call.Key() := run.(items := rows.value, phase := PhaseOf(items, rows.value))],
       Success(IsComplete(items, rows.value)))
  }

  /** The run that owner and operation name was begun for another receipt, plan or state. */
  ghost predicate BegunOtherwise(runs: Runs, call: Call, hash: string -> string) {
    var id := (call.owner, call.operation);
    id in runs &&
    !(runs[id].receipt == call.receipt && runs[id].state == call.state &&
      runs[id].plan == hash(Encode(Sorted(call.inputs))))
  }

  /**
   A call is refused as another plan exactly when its run was begun otherwise, changes only its own
   run, leaves a finished one alone, and answers complete exactly when its run is finished.
   */
  lemma ApplyEffect(runs: Runs, call: Call, hash: string -> string)
    ensures var id := (call.owner, call.operation);
            var (after, result) := Effect(runs, call, hash);
            && (result == Failure(PlanChanged) <==> BegunOtherwise(runs, call, hash))
            && (result.Failure? ==> after == runs)
            && (forall k :: k != id ==> (k in after <==> k in runs) && (k in runs ==> after[k] == runs[k]))
            && (id in runs && !runs[id].phase.Running? ==> after == runs)
            && (result.Success? ==>
                  && id in after && !BegunOtherwise(after, call, hash)
                  && (result.value <==> !after[id].phase.Running?))
  {
  }

  class ReprocessingStore {
    var runs: Runs

    constructor ()
      ensures runs == map[]
    {
      runs := map[];
    }

    method ApplyChunk(call: Call, hash: string -> string) returns (result: Result<bool, ApplyError>)
      modifies this
      ensures (runs, result) == Effect(old(runs), call, hash)
    {
      var items, plan := RenderReport(call.inputs, hash);
      var id := call.Key();
      var run := if id in runs then runs[id] else Run(call.receipt, plan, call.state, Running, map[]);
      if (run.receipt, run.plan, run.state) != (call.receipt, plan, call.state) {
        return Failure(PlanChanged);
      }
      if !run.phase.Running? {
        return Success(true);
      }
      var rows := InsertChunk(items, run.items, call.max);
      if rows.None? {
        return Failure(DuplicateKey);
      }
      runs := runs[id := run.(items := rows.value, phase := PhaseOf(items, rows.value))];
      return Success(|rows.value| == |items|);
    }
  }

  /** The two plans do not share a fingerprint unless they are the same text. */
  ghost predicate KeepsApart(hash: string -> string, a: seq<Item>, b: seq<Item>) {
    hash(Encode(Sorted(a))) == hash(Encode(Sorted(b))) ==> Encode(Sorted(a)) == Encode(Sorted(b))
  }

  /** With a fingerprint that keeps the two apart an operation goes on only with the plan it began with. */
  lemma ResumesOnlySamePlan(hash: string -> string, a: seq<Item>, b: seq<Item>)
    requires KeepsApart(hash, a, b)
    requires PlainPlan(a) && PlainPlan(b) && hash(Encode(Sorted(a))) == hash(Encode(Sorted(b)))
    ensures Sorted(a) == Sorted(b) && multiset(a) == multiset(b)
  {
    ReportIsSorted(a);
    ReportIsSorted(b);
    PlainIsKept(a);
    PlainIsKept(b);
    EncodingIsInjective(Sorted(a), Sorted(b));
  }

  lemma PlainIsKept(items: seq<Item>)
    requires PlainPlan(items)
    ensures PlainPlan(Sorted(items))
  {
    ReportIsSorted(items);
    forall i | 0 <= i < |Sorted(items)| ensures PlainDigest(Sorted(items)[i].digest) {
      assert Sorted(items)[i] in multiset(Sorted(items));
      assert Sorted(items)[i] in items;
    }
  }
}
