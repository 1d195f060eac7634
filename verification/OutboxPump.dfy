/** One pass of the outbox pump, loop by loop. */
module OutboxPump {
  import opened Wrappers
  import opened Archive
  import opened Schedule
  import opened OutboxRelay
  import opened Selection

  const OUTBOX_BATCH_SIZE := 32

  function FreshKeys(rows: map<Id, Row>, now: Time): map<Id, Time> {
    map id | id in rows && IsFresh(rows, id, now) :: rows[id].occurredAt
  }

  function AgainKeys(rows: map<Id, Row>, now: Time): map<Id, Time> {
    map id | id in rows && IsAgain(rows, id, now) :: rows[id].nextResend.value
  }

  // ----- The pass as a function --------------------------------------------------------------

  /** The first publication of every row in `order`; a statement the database refuses ends the pass. */
  function AfterPublishing(
      rows: map<Id, Row>, order: seq<Id>, accepts: Id -> bool, policy: ResendPolicy, now: Time): Option<map<Id, Row>> {
    if order == [] then Some(rows)
    else
      var last := order[|order| - 1];
      var done := AfterPublishing(rows, order[..|order| - 1], accepts, policy, now);
      if done.None? then None
      else if accepts(last) then Some(MarkPublished(done.value, last, policy, now))
      else RecordFailure(done.value, last, now)
  }

  ghost predicate Distinct(order: seq<Id>) {
    forall i, j :: 0 <= i < j < |order| ==> order[i] != order[j]
  }

  /** The refused row `id` is too old for its back-off to be computed. */
  predicate Unrecordable(rows: map<Id, Row>, id: Id, accepts: Id -> bool) {
    id in rows && !accepts(id) && LARGEST_EXPONENT < rows[id].attempts
  }

  /** What a pass makes of a row: published, with its first copy scheduled if it is a removal, or backed off. */
  function Handled(row: Row, accepted: bool, policy: ResendPolicy, now: Time): Row {
    if accepted then
      row.(published := Some(now), nextResend := if row.removal then Some(now + policy.after) else None)
    else row.(attempts := row.attempts + 1, nextAttempt := Some(now + Min(Pow(2, row.attempts), 300)))
  }

  /** The rows in `order` were handled, and no other row changed. */
  ghost predicate AllHandled(
      rows: map<Id, Row>, order: seq<Id>, accepts: Id -> bool, policy: ResendPolicy, now: Time, after: map<Id, Row>)
  {
    && after.Keys == rows.Keys
    && (forall id :: id in rows ==>
          after[id] == if id in order then Handled(rows[id], accepts(id), policy, now) else rows[id])
  }

  lemma OneMoreHandled(
      rows: map<Id, Row>, order: seq<Id>, last: Id, accepts: Id -> bool, policy: ResendPolicy, now: Time,
      done: map<Id, Row>)
    requires AllHandled(rows, order, accepts, policy, now, done) && last !in order && last in rows
    requires rows[last].published.None?
    ensures accepts(last) ==>
              AllHandled(rows, order + [last], accepts, policy, now, MarkPublished(done, last, policy, now))
    ensures !accepts(last) ==> (RecordFailure(done, last, now).Some? <==> !Unrecordable(rows, last, accepts))
    ensures !accepts(last) && RecordFailure(done, last, now).Some? ==>
              AllHandled(rows, order + [last], accepts, policy, now, RecordFailure(done, last, now).value)
  {
    assert done[last] == rows[last];
    assert forall id :: id in order + [last] <==> id in order || id == last;
  }

  /**
   A pass reaches every selected row exactly when no refused row has failed 1024 times before;
   then each accepted row is published, each refused one is backed off, and no other row changes.
   A row that has failed that often blocks every row behind it, in every later pass that refuses it.
   */
  lemma {:induction false} PassReachesAllUnlessUnrecordable(
    rows: map<Id, Row>, order: seq<Id>, accepts: Id -> bool, policy: ResendPolicy, now: Time)
    requires Distinct(order) && forall i :: 0 <= i < |order| ==> order[i] in rows && rows[order[i]].published.None?
    ensures AfterPublishing(rows, order, accepts, policy, now).Some? <==>
            forall i :: 0 <= i < |order| ==> !Unrecordable(rows, order[i], accepts)
    ensures AfterPublishing(rows, order, accepts, policy, now).Some? ==>
              AllHandled(rows, order, accepts, policy, now, AfterPublishing(rows, order, accepts, policy, now).value)
    decreases |order|
  {
    if order == [] {
    } else {
      var front, last := order[..|order| - 1], order[|order| - 1];
      PassReachesAllUnlessUnrecordable(rows, front, accepts, policy, now);
      assert last !in front && order == front + [last];
      assert forall i :: 0 <= i < |order| ==> i == |order| - 1 || order[i] == front[i];
      var done := AfterPublishing(rows, front, accepts, policy, now);
      if done.Some? {
        OneMoreHandled(rows, front, last, accepts, policy, now, done.value);
      }
    }
  }

  /** Another copy of the rows in `order`, up to the first one the broker refuses. */
  function Resent(
      rows: map<Id, Row>, order: seq<Id>, accepts: Id -> bool, policy: ResendPolicy, now: Time
    ): (Option<map<Id, Row>>, bool)
  {
    if order == [] then (Some(rows), false)
    else if accepts(order[0]) then Resent(RecordResend(rows, order[0], policy, now), order[1..], accepts, policy, now)
    else (RecordFailure(rows, order[0], now), true)
  }

  // ----- The pass as a method ----------------------------------------------------------------

  ghost predicate RelayFollows(policy: ResendPolicy, relays: seq<Relay>, moves: seq<Move>) {
    && |relays| == |moves| + 1
    && forall i :: 0 <= i < |moves| ==> MoveTo(policy, relays[i], moves[i], relays[i + 1])
  }

  /** Some run of moves leads from one state of the relay to the other. */
  ghost predicate RelayReaches(policy: ResendPolicy, before: Relay, after: Relay) {
    exists relays, moves :: RelayFollows(policy, relays, moves) && relays[0] == before && relays[|moves|] == after
  }

  lemma RelayReachesSelf(policy: ResendPolicy, relay: Relay)
    ensures RelayReaches(policy, relay, relay)
  {
    var relays, moves: seq<Move> := [relay], [];
    assert RelayFollows(policy, relays, moves);
  }

  lemma RelayReachesMove(policy: ResendPolicy, before: Relay, relay: Relay, move: Move, next: Relay)
    requires RelayReaches(policy, before, relay) && MoveTo(policy, relay, move, next)
    ensures RelayReaches(policy, before, next)
  {
    var relays, moves :| RelayFollows(policy, relays, moves) && relays[0] == before && relays[|moves|] == relay;
    var relays', moves' := relays + [next], moves + [move];
    forall i | 0 <= i < |moves'| ensures MoveTo(policy, relays'[i], moves'[i], relays'[i + 1]) {
      if i < |moves| {
        assert relays'[i] == relays[i] && relays'[i + 1] == relays[i + 1] && moves'[i] == moves[i];
      }
    }
    assert RelayFollows(policy, relays', moves');
  }

  datatype PumpFailure = QueryFailed | PublicationRefused

  class OutboxPump {
    const policy: ResendPolicy
    var rows: map<Id, Row>
    /** How many copies of each row the broker accepted: the outside world, not a table. */
    var sent: map<Id, nat>

    constructor (policy: ResendPolicy)
      ensures this.policy == policy && rows == map[] && sent == map[]
    {
      this.policy := policy;
      rows, sent := map[], map[];
    }

    ghost function View(chosen: set<Choice>): Relay
      reads this
    {
      Relay(rows, chosen, sent, multiset{})
    }

    /** One copy: the broker accepts it and the statement runs, or the failure is recorded. */
    method PublishRow(
        choice: Choice, accepted: bool, now: Time, ghost start: Relay, ghost chosen: set<Choice>)
      returns (recorded: bool)
      requires choice in chosen && RelayReaches(policy, start, View(chosen))
      modifies this
      ensures RelayReaches(policy, start, View(chosen))
      ensures recorded <==> accepted || RecordFailure(old(rows), choice.id, now).Some?
      ensures rows == if accepted then Settled(old(rows), choice, policy, now)
                      else if recorded then RecordFailure(old(rows), choice.id, now).value else old(rows)
    {
      if accepted {
        ghost var before := View(chosen);
        sent := sent[choice.id := Copies(sent, choice.id) + 1];
        ghost var owing := View(chosen).(owed := multiset{choice});
        RelayReachesMove(policy, start, before, Send(choice), owing);
        rows := Settled(rows, choice, policy, now);
        RelayReachesMove(policy, start, owing, Settle(choice, now), View(chosen));
        return true;
      }
      var after := RecordFailure(rows, choice.id, now);
      if after.None? {
        return false;
      }
      ghost var before := View(chosen);
      rows := after.value;
      RelayReachesMove(policy, start, before, Refuse(choice, now), View(chosen));
      return true;
    }

    /** The loop over the selected rows: a refused row does not end it, a statement the database refuses does. */
    method PublishAll(order: seq<Id>, now: Time, accepts: Id -> bool, ghost start: Relay, ghost chosen: set<Choice>)
      returns (failure: Option<PumpFailure>)
      requires RelayReaches(policy, start, View(chosen)) && forall i :: 0 <= i < |order| ==> Fresh(order[i]) in chosen
      modifies this
      ensures RelayReaches(policy, start, View(chosen))
      ensures failure == FirstFailure(AfterPublishing(old(rows), order, accepts, policy, now), order, accepts)
      ensures failure != Some(QueryFailed) ==> AfterPublishing(old(rows), order, accepts, policy, now) == Some(rows)
    {
      ghost var before := rows;
      var refused := false;
      for n := 0 to |order|
        invariant RelayReaches(policy, start, View(chosen))
        invariant AfterPublishing(before, order[..n], accepts, policy, now) == Some(rows)
        invariant refused <==> AnyRefused(order[..n], accepts)
      {
        OneMoreRow(before, order, n, accepts, policy, now);
        var recorded := PublishRow(Fresh(order[n]), accepts(order[n]), now, start, chosen);
        if !recorded {
          StaysRefused(before, order, n + 1, accepts, policy, now);
          return Some(QueryFailed);
        }
        refused := refused || !accepts(order[n]);
      }
      assert order[..|order|] == order;
      return if refused then Some(PublicationRefused) else None;
    }

    /** The rows that are due for their first publication, oldest first. */
    method PublishFresh(now: Time, accepts: Id -> bool, ghost start: Relay)
      returns (failure: Option<PumpFailure>, ghost order: seq<Id>, ghost chosen: set<Choice>)
      requires RelayReaches(policy, start, View({}))
      modifies this
      ensures RelayReaches(policy, start, View(chosen))
      ensures IsFirst(FreshKeys(old(rows), now), OUTBOX_BATCH_SIZE, order)
      ensures failure == FirstFailure(AfterPublishing(old(rows), order, accepts, policy, now), order, accepts)
      ensures failure != Some(QueryFailed) ==> AfterPublishing(old(rows), order, accepts, policy, now) == Some(rows)
    {
      var selected := SelectFirst(FreshKeys(rows, now), OUTBOX_BATCH_SIZE);
      order := selected;
      chosen := set id | id in order :: Fresh(id);
      RelayReachesMove(policy, start, View({}), Choose(chosen, now), View(chosen));
      failure := PublishAll(selected, now, accepts, start, chosen);
    }

    /** Another copy of every unacknowledged removal that is due, up to the first refusal. */
    method ResendAll(order: seq<Id>, now: Time, accepts: Id -> bool, ghost start: Relay, ghost chosen: set<Choice>)
      returns (failure: Option<PumpFailure>)
      requires RelayReaches(policy, start, View(chosen)) && forall i :: 0 <= i < |order| ==> Again(order[i]) in chosen
      modifies this
      ensures RelayReaches(policy, start, View(chosen))
      ensures failure == ResendFailure(Resent(old(rows), order, accepts, policy, now))
      ensures failure != Some(QueryFailed) ==> Resent(old(rows), order, accepts, policy, now).0 == Some(rows)
    {
      ghost var before := rows;
      for n := 0 to |order|
        invariant RelayReaches(policy, start, View(chosen))
        invariant Resent(before, order, accepts, policy, now) == Resent(rows, order[n..], accepts, policy, now)
      {
        assert order[n..][1..] == order[n + 1..];
        var recorded := PublishRow(Again(order[n]), accepts(order[n]), now, start, chosen);
        if !accepts(order[n]) {
          return Some(if recorded then PublicationRefused else QueryFailed);
        }
      }
      return None;
    }

    /** One pass: fresh rows first, and copies of removals only when no fresh row was refused. */
    method FlushOutbox(
        now: Time, accepts: Id -> bool, again: Id -> bool)
      returns (failure: Option<PumpFailure>, ghost order: seq<Id>)
      modifies this
      ensures exists chosen :: RelayReaches(policy, old(View({})), View(chosen))
      ensures IsFirst(FreshKeys(old(rows), now), OUTBOX_BATCH_SIZE, order)
      ensures var done := AfterPublishing(old(rows), order, accepts, policy, now);
              var first := FirstFailure(done, order, accepts);
              if first.Some? then failure == first && (done.Some? ==> rows == done.value)
              else exists copies :: IsFirst(AgainKeys(done.value, now), OUTBOX_BATCH_SIZE, copies) &&
                     var resent := Resent(done.value, copies, again, policy, now);
                     failure == ResendFailure(resent) && (resent.0.Some? ==> rows == resent.0.value)
    {
      ghost var start, chosen := View({}), {};
      RelayReachesSelf(policy, start);
      failure, order, chosen := PublishFresh(now, accepts, start);
      if failure.None? {
        var copies := SelectFirst(AgainKeys(rows, now), OUTBOX_BATCH_SIZE);
        ghost var more := chosen + set id | id in copies :: Again(id);
        RelayReachesMove(policy, start, View(chosen), Choose(set id | id in copies :: Again(id), now), View(more));
        failure := ResendAll(copies, now, again, start, more);
      }
    }
  }

  predicate AnyRefused(order: seq<Id>, accepts: Id -> bool) {
    exists i :: 0 <= i < |order| && !accepts(order[i])
  }

  /** What the first loop of a pass surfaces. */
  function FirstFailure(published: Option<map<Id, Row>>, order: seq<Id>, accepts: Id -> bool): Option<PumpFailure> {
    if published.None? then Some(QueryFailed)
    else if AnyRefused(order, accepts) then Some(PublicationRefused) else None
  }

  function ResendFailure(resent: (Option<map<Id, Row>>, bool)): Option<PumpFailure> {
    if resent.0.None? then Some(QueryFailed) else if resent.1 then Some(PublicationRefused) else None
  }

  /** One round of the first loop of a pass. */
  lemma OneMoreRow(
      rows: map<Id, Row>, order: seq<Id>, n: nat, accepts: Id -> bool, policy: ResendPolicy, now: Time)
    requires n < |order|
    ensures AnyRefused(order[..n + 1], accepts) <==> AnyRefused(order[..n], accepts) || !accepts(order[n])
    ensures AfterPublishing(rows, order[..n], accepts, policy, now).Some? ==>
              var done := AfterPublishing(rows, order[..n], accepts, policy, now).value;
              AfterPublishing(rows, order[..n + 1], accepts, policy, now) ==
              if accepts(order[n]) then Some(MarkPublished(done, order[n], policy, now))
              else RecordFailure(done, order[n], now)
  {
    var longer := order[..n + 1];
    assert longer[..n] == order[..n] && longer[n] == order[n];
    assert forall i :: 0 <= i < n ==> longer[i] == order[..n][i];
  }

  lemma {:induction false} StaysRefused(
    rows: map<Id, Row>, order: seq<Id>, n: nat, accepts: Id -> bool, policy: ResendPolicy, now: Time)
    requires n <= |order| && AfterPublishing(rows, order[..n], accepts, policy, now).None?
    ensures AfterPublishing(rows, order, accepts, policy, now).None?
    decreases |order|
  {
    if n == |order| {
      assert order[..n] == order;
    } else {
      assert order[..|order| - 1][..n] == order[..n];
      StaysRefused(rows, order[..|order| - 1], n, accepts, policy, now);
    }
  }
}
