/** What each statement of the pump and of the acknowledgement does to one row, and what follows over whole runs. */
module RelayRows {
  import opened Wrappers
  import opened Archive
  import opened Schedule
  import opened OutboxRelay
  import opened Selection
  import opened OutboxPump

  /** Nothing changes but the row `id`, which is there. */
  ghost predicate OnlyRow(before: map<Id, Row>, id: Id, row: Row, after: map<Id, Row>) {
    id in before && after == before[id := row]
  }

  /**
   An acknowledgement of the row's own tenant sets the outcome of a removal nobody acknowledged
   before and nothing else; every other one changes nothing.
   */
  lemma AcknowledgeEffect(rows: map<Id, Row>, id: Id, tenant: Id, outcome: AckOutcome)
    ensures var after := Acknowledged(rows, id, tenant, outcome);
            if id in rows && rows[id].removal && rows[id].tenant == tenant && rows[id].ack.None?
            then OnlyRow(rows, id, Row(true, tenant, rows[id].occurredAt, rows[id].published, rows[id].attempts,
                                       rows[id].nextAttempt, rows[id].nextResend, rows[id].resends, Some(outcome)),
                         after)
            else after == rows
  {
  }

  /** A new event is an unpublished row of its tenant and time, with nothing counted or scheduled. */
  lemma InsertionEffect(
      policy: ResendPolicy, relay: Relay, id: Id, removal: bool, tenant: Id, at: Time, next: Relay)
    requires MoveTo(policy, relay, Insert(id, removal, tenant, at), next)
    ensures id !in relay.rows && id in next.rows
    ensures var row := next.rows[id];
            && row.removal == removal && row.tenant == tenant && row.occurredAt == at
            && row.published.None? && row.ack.None? && row.attempts == 0 && row.resends == 0
            && row.nextAttempt.None? && row.nextResend.None?
    ensures next == relay.(rows := relay.rows[id := next.rows[id]])
  {
  }

  /** A recorded publication stamps an unpublished row, and schedules the first copy exactly of a removal. */
  lemma PublicationEffect(rows: map<Id, Row>, id: Id, policy: ResendPolicy, now: Time)
    ensures var after := Settled(rows, Fresh(id), policy, now);
            if id in rows && rows[id].published.None?
            then OnlyRow(rows, id, Row(rows[id].removal, rows[id].tenant, rows[id].occurredAt, Some(now),
                                       rows[id].attempts, rows[id].nextAttempt,
                                       if rows[id].removal then Some(now + policy.after) else None,
                                       rows[id].resends, rows[id].ack), after)
            else after == rows
  {
  }

  /** A recorded copy counts, forgets earlier failures and schedules the next one after the documented delay. */
  lemma CopyEffect(rows: map<Id, Row>, id: Id, policy: ResendPolicy, now: Time)
    requires Loadable(policy)
    ensures var after := Settled(rows, Again(id), policy, now);
            if id in rows && rows[id].removal && rows[id].published.Some? && rows[id].ack.None?
            then OnlyRow(rows, id, Row(true, rows[id].tenant, rows[id].occurredAt, rows[id].published, 0,
                                       rows[id].nextAttempt,
                                       Some(now + Min(policy.after * Pow(2, rows[id].resends), policy.cap)),
                                       rows[id].resends + 1, None), after)
            else after == rows
  {
    if id in rows {
      ResendDelayIsExact(policy, rows[id].resends);
    }
  }

  /** A recorded failure counts and backs the row off, and is refused exactly after more than 1023 failures. */
  lemma RefusalEffect(rows: map<Id, Row>, id: Id, now: Time)
    ensures id !in rows ==> RecordFailure(rows, id, now) == Some(rows)
    ensures id in rows ==>
              && (RecordFailure(rows, id, now).None? <==> 1023 < rows[id].attempts)
              && (rows[id].attempts <= 1023 ==>
                    OnlyRow(rows, id, rows[id].(attempts := rows[id].attempts + 1,
                                                nextAttempt := Some(now + Min(Pow(2, rows[id].attempts), 300))),
                            RecordFailure(rows, id, now).value))
  {
    if id in rows {
      PowGrows(2, 0, rows[id].attempts);
    }
  }

  // ----- Acknowledged rows -------------------------------------------------------------------

  lemma AckStays(policy: ResendPolicy, relays: seq<Relay>, moves: seq<Move>, i: nat, j: nat, id: Id)
    requires IsRelayRun(policy, relays, moves) && i <= j < |relays|
    requires id in relays[i].rows && relays[i].rows[id].removal && relays[i].rows[id].ack.Some?
    ensures id in relays[j].rows && relays[j].rows[id].ack == relays[i].rows[id].ack
  {
    RemovalIsKept(policy, relays, moves, i, j, id);
  }

  /**
   In every run, once the tenant of a removal acknowledged it, it has that outcome for good, or the
   one it already had, and no pass ever selects it for another copy.
   */
  lemma AcknowledgedIsNeverCopied(
      policy: ResendPolicy, relays: seq<Relay>, moves: seq<Move>, i: nat, j: nat, id: Id, outcome: AckOutcome,
      now: Time)
    requires IsRelayRun(policy, relays, moves) && i < |moves| && i < j < |relays|
    requires id in relays[i].rows && relays[i].rows[id].removal
    requires moves[i] == Acknowledge(id, relays[i].rows[id].tenant, outcome)
    ensures id in relays[j].rows
    ensures relays[j].rows[id].ack == if relays[i].rows[id].ack.Some? then relays[i].rows[id].ack else Some(outcome)
    ensures !IsAgain(relays[j].rows, id, now)
  {
    var row := relays[i].rows[id];
    assert MovesAt(policy, relays, moves, i);
    AcknowledgeEffect(relays[i].rows, id, row.tenant, outcome);
    AckStays(policy, relays, moves, i + 1, j, id);
  }

  // ----- Refused rows ------------------------------------------------------------------------

  /** Move `k` leaves the back-off of the row alone. */
  ghost predicate KeepsBackoff(relays: seq<Relay>, id: Id, k: nat)
    requires k + 1 < |relays|
  {
    id in relays[k].rows && id in relays[k + 1].rows ==>
      relays[k + 1].rows[id].nextAttempt == relays[k].rows[id].nextAttempt
  }

  lemma MoveKeepsBackoff(policy: ResendPolicy, relay: Relay, move: Move, next: Relay, id: Id)
    requires MoveTo(policy, relay, move, next) && !(move.Refuse? && move.choice.id == id)
    requires id in relay.rows && id in next.rows
    ensures next.rows[id].nextAttempt == relay.rows[id].nextAttempt
  {
    match move
    case Settle(choice, at) =>
    case Refuse(choice, at) => RefusalEffect(relay.rows, choice.id, at);
    case Acknowledge(other, tenant, outcome) => AcknowledgeEffect(relay.rows, other, tenant, outcome);
    case _ =>
  }

  lemma {:induction false} BackoffStays(relays: seq<Relay>, i: nat, j: nat, id: Id)
    requires i <= j < |relays| && forall k :: i <= k <= j ==> id in relays[k].rows
    requires forall k: nat :: i <= k < j ==> KeepsBackoff(relays, id, k)
    ensures relays[j].rows[id].nextAttempt == relays[i].rows[id].nextAttempt
    decreases j
  {
    if i == j {
    } else {
      BackoffStays(relays, i, j - 1, id);
      assert KeepsBackoff(relays, id, j - 1);
    }
  }

  /** A selection of the row, for its publication or for a copy. */
  ghost predicate Selects(move: Move, id: Id) {
    move.Choose? && (Fresh(id) in move.choices || Again(id) in move.choices)
  }

  lemma SelectedIsReady(policy: ResendPolicy, relay: Relay, move: Move, next: Relay, id: Id)
    requires MoveTo(policy, relay, move, next) && Selects(move, id)
    ensures id in relay.rows
    ensures relay.rows[id].nextAttempt.None? || relay.rows[id].nextAttempt.value <= move.at
  {
    if Fresh(id) in move.choices {
      assert IsFresh(relay.rows, id, move.at);
    } else {
      assert IsAgain(relay.rows, id, move.at);
    }
  }

  lemma RefusalSets(policy: ResendPolicy, relay: Relay, choice: Choice, at: Time, next: Relay)
    requires MoveTo(policy, relay, Refuse(choice, at), next) && choice.id in relay.rows
    ensures choice.id in next.rows
    ensures next.rows[choice.id].nextAttempt == Some(at + Min(Pow(2, relay.rows[choice.id].attempts), 300))
  {
    RefusalEffect(relay.rows, choice.id, at);
  }

  /**
   In every run a row that was refused after `n` earlier failures is not selected again before
   `min(2^n, 300)` seconds have passed, whatever pumps overlap, unless it is refused once more.
   */
  lemma RefusedRowWaits(
      policy: ResendPolicy, relays: seq<Relay>, moves: seq<Move>, i: nat, j: nat, id: Id)
    requires IsRelayRun(policy, relays, moves) && i < j < |moves| && moves[i].Refuse? && moves[i].choice.id == id
    requires Selects(moves[j], id) && forall k :: i <= k <= j ==> id in relays[k].rows
    requires forall k :: i < k < j ==> !(moves[k].Refuse? && moves[k].choice.id == id)
    ensures moves[i].at + Min(Pow(2, relays[i].rows[id].attempts), 300) <= moves[j].at
  {
    assert MovesAt(policy, relays, moves, i) && MovesAt(policy, relays, moves, j);
    RefusalSets(policy, relays[i], moves[i].choice, moves[i].at, relays[i + 1]);
    forall k: nat | i + 1 <= k < j ensures KeepsBackoff(relays, id, k) {
      assert MovesAt(policy, relays, moves, k);
      MoveKeepsBackoff(policy, relays[k], moves[k], relays[k + 1], id);
    }
    BackoffStays(relays, i + 1, j, id);
    SelectedIsReady(policy, relays[j], moves[j], relays[j + 1], id);
  }

  // ----- One pass ----------------------------------------------------------------------------

  /** Unpublished and not held back by a failure. */
  ghost predicate ReadyToPublish(rows: map<Id, Row>, id: Id, now: Time) {
    id in rows && rows[id].published.None? && (rows[id].nextAttempt.Some? ==> rows[id].nextAttempt.value <= now)
  }

  /** A pass takes the oldest rows that are ready: nothing ready that it leaves out is older than anything it takes. */
  lemma OldestFirst(rows: map<Id, Row>, now: Time, limit: nat, order: seq<Id>)
    requires IsFirst(FreshKeys(rows, now), limit, order)
    ensures forall i :: 0 <= i < |order| ==> ReadyToPublish(rows, order[i], now)
    ensures forall i, j :: 0 <= i < j < |order| ==> rows[order[i]].occurredAt <= rows[order[j]].occurredAt
    ensures forall id :: ReadyToPublish(rows, id, now) && id !in order ==>
              |order| == limit && forall i :: 0 <= i < |order| ==> rows[order[i]].occurredAt <= rows[id].occurredAt
  {
    var keys := FreshKeys(rows, now);
    assert forall i :: 0 <= i < |order| ==> order[i] in keys;
    forall id | ReadyToPublish(rows, id, now) && id !in order
      ensures |order| == limit && forall i :: 0 <= i < |order| ==> rows[order[i]].occurredAt <= rows[id].occurredAt
    {
      assert id in keys;
    }
  }

  /** A published removal that nobody acknowledged, due for a copy and not held back by a failure. */
  ghost predicate ReadyToCopy(rows: map<Id, Row>, id: Id, now: Time) {
    && id in rows && rows[id].removal && rows[id].published.Some? && rows[id].ack.None?
    && rows[id].nextResend.Some? && rows[id].nextResend.value <= now
    && (rows[id].nextAttempt.Some? ==> rows[id].nextAttempt.value <= now)
  }

  lemma LongestDueFirst(rows: map<Id, Row>, now: Time, limit: nat, order: seq<Id>)
    requires IsFirst(AgainKeys(rows, now), limit, order)
    ensures forall i :: 0 <= i < |order| ==> ReadyToCopy(rows, order[i], now)
    ensures forall i, j :: 0 <= i < j < |order| ==>
              rows[order[i]].nextResend.value <= rows[order[j]].nextResend.value
    ensures forall id :: ReadyToCopy(rows, id, now) && id !in order ==>
              |order| == limit &&
              forall i :: 0 <= i < |order| ==> rows[order[i]].nextResend.value <= rows[id].nextResend.value
  {
    var keys := AgainKeys(rows, now);
    assert forall i :: 0 <= i < |order| ==> order[i] in keys;
    forall id | ReadyToCopy(rows, id, now) && id !in order
      ensures |order| == limit &&
              forall i :: 0 <= i < |order| ==> rows[order[i]].nextResend.value <= rows[id].nextResend.value
    {
      assert id in keys;
    }
  }

  /** The first `n` rows of `order` were copied, and the rest is as before. */
  ghost predicate CopiedFirst(
      rows: map<Id, Row>, order: seq<Id>, n: nat, policy: ResendPolicy, now: Time, after: map<Id, Row>)
    requires n <= |order|
  {
    && after.Keys == rows.Keys
    && (forall i :: 0 <= i < n ==>
          order[i] in rows &&
          after[order[i]] == rows[order[i]].(resends := rows[order[i]].resends + 1, attempts := 0,
                                             nextResend := Some(now + ResendDelay(policy, rows[order[i]].resends))))
    && (forall id :: id in rows && id !in order[..n] ==> after[id] == rows[id])
  }

  /** The broker accepts the first `n` rows and refuses the next one, if there is one. */
  predicate AcceptsFirst(order: seq<Id>, accepts: Id -> bool, n: nat)
    requires n <= |order|
  {
    (forall i :: 0 <= i < n ==> accepts(order[i])) && (n < |order| ==> !accepts(order[n]))
  }

  ghost predicate Copyable(rows: map<Id, Row>, order: seq<Id>) {
    forall i :: 0 <= i < |order| ==>
      order[i] in rows && rows[order[i]].removal && rows[order[i]].published.Some? && rows[order[i]].ack.None?
  }

  lemma CopyFirst(rows: map<Id, Row>, order: seq<Id>, n: nat, policy: ResendPolicy, now: Time, after: map<Id, Row>)
    requires Distinct(order) && Copyable(rows, order) && 0 < n <= |order|
    requires CopiedFirst(RecordResend(rows, order[0], policy, now), order[1..], n - 1, policy, now, after)
    ensures CopiedFirst(rows, order, n, policy, now, after)
  {
    var rest, copied := order[1..], RecordResend(rows, order[0], policy, now);
    assert order[0] !in rest[..n - 1];
    forall i | 0 <= i < n
      ensures after[order[i]] == rows[order[i]].(resends := rows[order[i]].resends + 1, attempts := 0,
                nextResend := Some(now + ResendDelay(policy, rows[order[i]].resends)))
    {
      if i > 0 {
        assert order[i] == rest[i - 1];
      }
    }
    forall id | id in rows && id !in order[..n] ensures after[id] == rows[id] {
      assert order[..n] == [order[0]] + rest[..n - 1];
    }
  }

  lemma OneMoreCopy(rows: map<Id, Row>, order: seq<Id>, policy: ResendPolicy, now: Time)
    requires Distinct(order) && Copyable(rows, order) && order != []
    ensures Distinct(order[1..]) && Copyable(RecordResend(rows, order[0], policy, now), order[1..])
  {
    var rest := order[1..];
    assert forall i :: 0 <= i < |rest| ==> rest[i] == order[i + 1];
  }

  lemma {:induction false} CopyRound(
      rows: map<Id, Row>, order: seq<Id>, n: nat, accepts: Id -> bool, policy: ResendPolicy, now: Time)
    returns (copied: map<Id, Row>)
    requires Distinct(order) && Copyable(rows, order) && n <= |order| && AcceptsFirst(order, accepts, n)
    ensures CopiedFirst(rows, order, n, policy, now, copied)
    ensures Resent(rows, order, accepts, policy, now) ==
            if n < |order| then (RecordFailure(copied, order[n], now), true) else (Some(copied), false)
    decreases |order|
  {
    if n == 0 {
      copied := rows;
    } else {
      OneMoreCopy(rows, order, policy, now);
      var rest := order[1..];
      assert AcceptsFirst(rest, accepts, n - 1) by {
        assert forall i :: 0 <= i < |rest| ==> rest[i] == order[i + 1];
      }
      copied := CopyRound(RecordResend(rows, order[0], policy, now), rest, n - 1, accepts, policy, now);
      CopyFirst(rows, order, n, policy, now, copied);
    }
  }

  /**
   A round of copies goes up to the first refusal: the rows before it are copied, the failure of the
   refused one is recorded, and no other row changes.
   */
  lemma CopiesUpToRefusal(
      rows: map<Id, Row>, order: seq<Id>, n: nat, accepts: Id -> bool, policy: ResendPolicy, now: Time)
    requires Distinct(order) && Copyable(rows, order) && n <= |order| && AcceptsFirst(order, accepts, n)
    ensures exists copied :: CopiedFirst(rows, order, n, policy, now, copied) &&
              Resent(rows, order, accepts, policy, now) ==
              if n < |order| then (RecordFailure(copied, order[n], now), true) else (Some(copied), false)
  {
    var copied := CopyRound(rows, order, n, accepts, policy, now);
  }
}
