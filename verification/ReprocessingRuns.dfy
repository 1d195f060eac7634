/**
 Whole reprocessing operations: what any sequence of chunk calls leaves, whichever owners and
 operations they belong to and however they interleave.
 */
module ReprocessingRuns {
  import opened Wrappers
  import opened Archive
  import opened PlanEncoding
  import opened Reprocessing

  /** The runs stored after the calls, from an empty table. */
  function AfterCalls(calls: seq<Call>, hash: string -> string): Runs {
    if calls == [] then map[] else Effect(AfterCalls(calls[..|calls| - 1], hash), calls[|calls| - 1], hash).0
  }

  /** The two calls ask for the same work under the same operation. */
  ghost predicate SameWork(a: Call, b: Call) {
    a.Key() == b.Key() && a.receipt == b.receipt && a.state == b.state && a.Report() == b.Report()
  }

  /** The chunk sizes of the calls that ask for the work of `like`, in order. */
  ghost function SizesOf(calls: seq<Call>, like: Call): seq<nat> {
    if calls == [] then []
    else
      var front, last := SizesOf(calls[..|calls| - 1], like), calls[|calls| - 1];
      if SameWork(last, like) then front + [last.max] else front
  }

  /** What the calls for the work of `like` leave when nothing else is called. */
  ghost function Left(calls: seq<Call>, like: Call): map<string, Item> {
    AfterChunks(like.Report(), SizesOf(calls, like))
  }

  /** The run is the one `like` asks for, and its items are those its own chunks leave. */
  ghost predicate IsRunOf(run: Run, calls: seq<Call>, like: Call, hash: string -> string) {
    && run.receipt == like.receipt && run.plan == like.Plan(hash) && run.state == like.state
    && run.items == Left(calls, like)
    && run.phase == PhaseOf(like.Report(), run.items)
  }

  /** What is stored under `id`: the run of one of the calls, or nothing as long as every chunk was refused. */
  ghost predicate StoredUnder(runs: Runs, id: (Id, Id), calls: seq<Call>, hash: string -> string) {
    if id in runs then exists k :: 0 <= k < |calls| && calls[k].Key() == id && IsRunOf(runs[id], calls, calls[k], hash)
    else forall like: Call :: like.Key() == id ==> Left(calls, like) == map[]
  }

  /** No two of the calls have different plans with one fingerprint. */
  ghost predicate KeptApart(hash: string -> string, calls: seq<Call>) {
    forall i, j :: 0 <= i < |calls| && 0 <= j < |calls| ==> KeepsApart(hash, calls[i].inputs, calls[j].inputs)
  }

  ghost predicate PlainCalls(calls: seq<Call>) {
    forall k :: 0 <= k < |calls| ==> PlainPlan(calls[k].inputs)
  }

  /** The store's comparison of plans tells different work under one operation apart. */
  lemma SameWorkIffAccepted(a: Call, b: Call, hash: string -> string)
    requires KeepsApart(hash, a.inputs, b.inputs) && PlainPlan(a.inputs) && PlainPlan(b.inputs) && a.Key() == b.Key()
    ensures SameWork(a, b) <==> (a.receipt, a.Plan(hash), a.state) == (b.receipt, b.Plan(hash), b.state)
  {
    if a.Plan(hash) == b.Plan(hash) {
      ResumesOnlySamePlan(hash, a.inputs, b.inputs);
    }
  }

  /** The chunk sizes of `like` grow by the last call exactly when it asks for the same work. */
  lemma LeftStep(calls: seq<Call>, call: Call, like: Call)
    ensures !SameWork(call, like) ==> Left(calls + [call], like) == Left(calls, like)
    ensures SameWork(call, like) ==>
              var rows := Chunk(like.Report(), Left(calls, like).Keys, Left(calls, like), call.max);
              Left(calls + [call], like) == if rows.Some? then rows.value else Left(calls, like)
  {
    assert (calls + [call])[..|calls|] == calls;
    if SameWork(call, like) {
      var sizes := SizesOf(calls, like);
      assert SizesOf(calls + [call], like) == sizes + [call.max];
      assert (sizes + [call.max])[..|sizes|] == sizes;
    }
  }

  /** A completed run has nothing left to insert, so passing the call by changes nothing. */
  lemma CompletedHasNothingLeft(items: seq<Item>, sizes: seq<nat>, max: nat)
    requires IsComplete(items, AfterChunks(items, sizes))
    ensures Chunk(items, AfterChunks(items, sizes).Keys, AfterChunks(items, sizes), max) ==
            Some(AfterChunks(items, sizes))
  {
    CompletesIffDistinct(items, sizes);
    ChunksLeavePrefix(items, sizes);
    CompleteStaysComplete(items, max);
  }

  /** A call under an operation that has a run. */
  lemma CallGoesOn(runs: Runs, calls: seq<Call>, like: Call, call: Call, hash: string -> string)
    requires KeepsApart(hash, call.inputs, like.inputs) && PlainPlan(like.inputs) && PlainPlan(call.inputs)
    requires call.Key() == like.Key()
    requires like.Key() in runs && IsRunOf(runs[like.Key()], calls, like, hash)
    ensures var after := Effect(runs, call, hash).0;
            like.Key() in after && IsRunOf(after[like.Key()], calls + [call], like, hash)
  {
    SameWorkIffAccepted(call, like, hash);
    LeftStep(calls, call, like);
    if SameWork(call, like) && !runs[like.Key()].phase.Running? {
      CompletedHasNothingLeft(like.Report(), SizesOf(calls, like), call.max);
    }
  }

  /** A call under an operation that has none: it begins the run, unless its chunk is refused. */
  lemma CallBegins(runs: Runs, calls: seq<Call>, call: Call, hash: string -> string)
    requires call.Key() !in runs && StoredUnder(runs, call.Key(), calls, hash)
    ensures var after := Effect(runs, call, hash).0;
            if call.Key() in after then IsRunOf(after[call.Key()], calls + [call], call, hash)
            else StoredUnder(after, call.Key(), calls + [call], hash)
  {
    LeftStep(calls, call, call);
    var after := Effect(runs, call, hash).0;
    if call.Key() !in after {
      forall like: Call | like.Key() == call.Key() ensures Left(calls + [call], like) == map[] {
        LeftStep(calls, call, like);
      }
    }
  }

  /** A call under another operation. */
  lemma CallPassesBy(runs: Runs, id: (Id, Id), calls: seq<Call>, call: Call, hash: string -> string)
    requires call.Key() != id && StoredUnder(runs, id, calls, hash)
    ensures StoredUnder(Effect(runs, call, hash).0, id, calls + [call], hash)
  {
    if id in runs {
      var k :| 0 <= k < |calls| && calls[k].Key() == id && IsRunOf(runs[id], calls, calls[k], hash);
      LeftStep(calls, call, calls[k]);
      assert (calls + [call])[k] == calls[k];
    } else {
      forall like: Call | like.Key() == id ensures Left(calls + [call], like) == map[] {
        LeftStep(calls, call, like);
      }
    }
  }

  lemma CallKeepsStored(runs: Runs, id: (Id, Id), calls: seq<Call>, call: Call, hash: string -> string)
    requires KeptApart(hash, calls + [call]) && PlainCalls(calls) && PlainPlan(call.inputs)
    requires StoredUnder(runs, id, calls, hash)
    ensures StoredUnder(Effect(runs, call, hash).0, id, calls + [call], hash)
  {
    if call.Key() != id {
      CallPassesBy(runs, id, calls, call, hash);
    } else if id in runs {
      var k :| 0 <= k < |calls| && calls[k].Key() == id && IsRunOf(runs[id], calls, calls[k], hash);
      assert (calls + [call])[k] == calls[k] && (calls + [call])[|calls|] == call;
      CallGoesOn(runs, calls, calls[k], call, hash);
    } else {
      CallBegins(runs, calls, call, hash);
      assert (calls + [call])[|calls|] == call;
    }
  }

  lemma CallsThenCall(calls: seq<Call>, call: Call, hash: string -> string)
    ensures AfterCalls(calls + [call], hash) == Effect(AfterCalls(calls, hash), call, hash).0
  {
    assert (calls + [call])[..|calls|] == calls;
  }

  lemma OneMoreCall(calls: seq<Call>, call: Call, id: (Id, Id), hash: string -> string)
    requires KeptApart(hash, calls + [call]) && PlainCalls(calls) && PlainPlan(call.inputs)
    requires StoredUnder(AfterCalls(calls, hash), id, calls, hash)
    ensures StoredUnder(AfterCalls(calls + [call], hash), id, calls + [call], hash)
  {
    CallKeepsStored(AfterCalls(calls, hash), id, calls, call, hash);
    CallsThenCall(calls, call, hash);
  }

  lemma {:induction false} CallsStore(calls: seq<Call>, id: (Id, Id), hash: string -> string)
    requires KeptApart(hash, calls) && PlainCalls(calls)
    ensures StoredUnder(AfterCalls(calls, hash), id, calls, hash)
    decreases |calls|
  {
    if calls == [] {
    } else {
      var front, last := calls[..|calls| - 1], calls[|calls| - 1];
      assert calls == front + [last];
      CallsStore(front, id, hash);
      OneMoreCall(front, last, id, hash);
    }
  }

  /** The first items of the report of `like`, as many as its chunk sizes add up to; all of them complete the run. */
  ghost predicate IsPrefixRun(run: Run, calls: seq<Call>, like: Call) {
    var total, report := Sum(SizesOf(calls, like)), like.Report();
    && (DistinctKeys(report) ==> run.items == Rows(report[..Min(total, |report|)]))
    && (run.phase.Running? <==> !(DistinctKeys(report) && total >= |report|))
  }

  /**
   After any calls of any owners, a stored operation holds the first items of the report of one of
   its calls, as many as the calls for that report asked for, whatever else was called in between;
   it has completed exactly when they asked for all and the keys are distinct.
   */
  lemma OperationHoldsPrefix(calls: seq<Call>, id: (Id, Id), hash: string -> string)
    requires KeptApart(hash, calls) && PlainCalls(calls)
    ensures id in AfterCalls(calls, hash) ==>
              exists k :: 0 <= k < |calls| && calls[k].Key() == id
                && IsRunOf(AfterCalls(calls, hash)[id], calls, calls[k], hash)
                && IsPrefixRun(AfterCalls(calls, hash)[id], calls, calls[k])
  {
    CallsStore(calls, id, hash);
    var runs := AfterCalls(calls, hash);
    if id in runs {
      var k :| 0 <= k < |calls| && calls[k].Key() == id && IsRunOf(runs[id], calls, calls[k], hash);
      RunIsPrefix(runs[id], calls, calls[k], hash);
    }
  }

  lemma RunIsPrefix(run: Run, calls: seq<Call>, like: Call, hash: string -> string)
    requires IsRunOf(run, calls, like, hash)
    ensures IsPrefixRun(run, calls, like)
  {
    var sizes, report := SizesOf(calls, like), like.Report();
    CompletesIffDistinct(report, sizes);
    if DistinctKeys(report) {
      ChunksLeavePrefix(report, sizes);
    }
  }
}
