/**
 The outbox pump and the acknowledgement of removals.

 A broker that accepted a copy and the statement that records it are separate: a pump may stop
 between the two, and it may act on rows it selected a while ago. Acknowledgements, deletions and
 other pumps interleave with every step.
 */
module OutboxRelay {
  import opened Wrappers
  import opened Archive
  import opened Schedule

  datatype AckOutcome = AckApplied | AckRefused

  /** One row of `outbox_events`, as far as the pump and the acknowledgement use it. */
  datatype Row = Row(
    removal: bool, tenant: Id, occurredAt: Time, published: Option<Time>, attempts: nat, nextAttempt: Option<Time>,
    nextResend: Option<Time>, resends: nat, ack: Option<AckOutcome>)

  function NewRow(removal: bool, tenant: Id, occurredAt: Time): Row {
    Row(removal, tenant, occurredAt, None, 0, None, None, 0, None)
  }

  // ----- The statements ----------------------------------------------------------------------

  /** `mark_published` */
  function MarkPublished(rows: map<Id, Row>, id: Id, policy: ResendPolicy, now: Time): map<Id, Row> {
    if id in rows && rows[id].published.None?
    then
      var due := if rows[id].removal then Some(now + policy.after) else None;
      rows[id := rows[id].(published := Some(now), nextResend := due)]
    else rows
  }

  /** `record_resend` */
  function RecordResend(rows: map<Id, Row>, id: Id, policy: ResendPolicy, now: Time): map<Id, Row> {
    if id in rows && rows[id].removal && rows[id].published.Some? && rows[id].ack.None?
    then rows[id := rows[id].(resends := rows[id].resends + 1, attempts := 0,
                              nextResend := Some(now + ResendDelay(policy, rows[id].resends)))]
    else rows
  }

  /** `record_failure`: no guard but the identifier, and no success once the power of two leaves its range. */
  function RecordFailure(rows: map<Id, Row>, id: Id, now: Time): Option<map<Id, Row>> {
    if id !in rows then Some(rows)
    else if FailureBackoff(rows[id].attempts).None? then None
    else Some(rows[id := rows[id].(attempts := rows[id].attempts + 1,
                                   nextAttempt := Some(now + FailureBackoff(rows[id].attempts).value))])
  }

  /** `acknowledge` */
  function Acknowledged(rows: map<Id, Row>, id: Id, tenant: Id, outcome: AckOutcome): map<Id, Row> {
    if id in rows && rows[id].removal && rows[id].tenant == tenant && rows[id].ack.None?
    then rows[id := rows[id].(ack := Some(outcome))] else rows
  }

  predicate BackedOff(row: Row, now: Time) {
    row.nextAttempt.Some? && now < row.nextAttempt.value
  }

  /** The `where` clause of `flush_outbox`. */
  predicate IsFresh(rows: map<Id, Row>, id: Id, now: Time) {
    id in rows && rows[id].published.None? && !BackedOff(rows[id], now)
  }

  /** The `where` clause of `due_resends`. */
  predicate IsAgain(rows: map<Id, Row>, id: Id, now: Time) {
    && id in rows && rows[id].removal && rows[id].published.Some? && rows[id].ack.None?
    && rows[id].nextResend.Some? && rows[id].nextResend.value <= now && !BackedOff(rows[id], now)
  }

  // ----- Interleaved pumps -------------------------------------------------------------------

  /** A row a pump selected, for its first publication or for another copy. */
  datatype Choice = Fresh(id: Id) | Again(id: Id)

  /**
   `chosen` are the rows pumps hold in memory, `sent` counts the copies the broker accepted, and
   `owed` are the accepted copies whose statement has not run yet.
   */
  datatype Relay = Relay(rows: map<Id, Row>, chosen: set<Choice>, sent: map<Id, nat>, owed: multiset<Choice>)

  datatype Move =
    | Insert(id: Id, removal: bool, tenant: Id, at: Time)
    | Choose(choices: set<Choice>, at: Time)
    | Send(choice: Choice)
    | Settle(choice: Choice, at: Time)
    | Refuse(choice: Choice, at: Time)
    | Lose(choices: set<Choice>, copies: multiset<Choice>)
    | Acknowledge(id: Id, tenant: Id, outcome: AckOutcome)
    | Erase(ids: set<Id>)

  function Copies(sent: map<Id, nat>, id: Id): nat {
    if id in sent then sent[id] else 0
  }

  function Settled(rows: map<Id, Row>, choice: Choice, policy: ResendPolicy, at: Time): map<Id, Row> {
    match choice
    case Fresh(id) => MarkPublished(rows, id, policy, at)
    case Again(id) => RecordResend(rows, id, policy, at)
  }

  ghost predicate MoveTo(policy: ResendPolicy, relay: Relay, move: Move, next: Relay) {
    match move
    case Insert(id, removal, tenant, at) =>
      id !in relay.rows && Copies(relay.sent, id) == 0 && Fresh(id) !in relay.owed && Again(id) !in relay.owed &&
      next == relay.(rows := relay.rows[id := NewRow(removal, tenant, at)])
    case Choose(choices, at) =>
      && (forall c :: c in choices ==>
        if c.Fresh? then IsFresh(relay.rows, c.id, at) else IsAgain(relay.rows, c.id, at))
      && next == relay.(chosen := relay.chosen + choices)
    case Send(choice) =>
      && choice in relay.chosen
      && next == relay.(sent := relay.sent[choice.id := Copies(relay.sent, choice.id) + 1],
                        owed := relay.owed + multiset{choice})
    case Settle(choice, at) =>
      && choice in relay.owed
      && next == relay.(rows := Settled(relay.rows, choice, policy, at), owed := relay.owed - multiset{choice})
    case Refuse(choice, at) =>
      && choice in relay.chosen
      && RecordFailure(relay.rows, choice.id, at).Some?
      && next == relay.(rows := RecordFailure(relay.rows, choice.id, at).value)
    case Lose(choices, copies) => next == relay.(chosen := relay.chosen - choices, owed := relay.owed - copies)
    case Acknowledge(id, tenant, outcome) => next == relay.(rows := Acknowledged(relay.rows, id, tenant, outcome))
    case Erase(ids) =>
      && (forall id :: id in ids && id in relay.rows ==> !relay.rows[id].removal)
      && next == relay.(rows := relay.rows - ids)
  }

  // ----- What every move keeps ---------------------------------------------------------------

  /** A published removal has a next copy scheduled, and only a published removal has one or was copied. */
  predicate Armed(row: Row) {
    && (row.nextResend.Some? <==> row.removal && row.published.Some?)
    && (row.resends > 0 ==> row.removal && row.published.Some?)
  }

  /** Every publication and every counted copy was accepted by the broker. */
  ghost predicate Accounted(relay: Relay, id: Id) {
    Copies(relay.sent, id) >= relay.owed[Fresh(id)] + relay.owed[Again(id)] +
      if id in relay.rows then (if relay.rows[id].published.Some? then 1 else 0) + relay.rows[id].resends else 0
  }

  ghost predicate RelayInv(relay: Relay) {
    && (forall id :: id in relay.rows ==> Armed(relay.rows[id]))
    && (forall id :: Accounted(relay, id))
  }

  lemma MoveKeepsArmed(policy: ResendPolicy, relay: Relay, move: Move, next: Relay, id: Id)
    requires MoveTo(policy, relay, move, next) && id in next.rows && (id in relay.rows ==> Armed(relay.rows[id]))
    ensures Armed(next.rows[id])
  {
    match move
    case Settle(choice, at) =>
    case Refuse(choice, at) =>
    case Acknowledge(_, _, _) =>
    case _ =>
  }

  lemma MoveKeepsAccount(policy: ResendPolicy, relay: Relay, move: Move, next: Relay, id: Id)
    requires MoveTo(policy, relay, move, next) && Accounted(relay, id)
    ensures Accounted(next, id)
  {
    match move
    case Settle(choice, at) => SettleKeepsAccount(policy, relay, choice, at, next, id);
    case Lose(choices, copies) => LoseKeepsAccount(relay, copies, next, id);
    case _ =>
  }

  lemma SettleKeepsAccount(policy: ResendPolicy, relay: Relay, choice: Choice, at: Time, next: Relay, id: Id)
    requires MoveTo(policy, relay, Settle(choice, at), next) && Accounted(relay, id)
    ensures Accounted(next, id)
  {
    if choice.id != id {
      assert next.owed[Fresh(id)] == relay.owed[Fresh(id)] && next.owed[Again(id)] == relay.owed[Again(id)];
    }
  }

  lemma LoseKeepsAccount(relay: Relay, copies: multiset<Choice>, next: Relay, id: Id)
    requires next.rows == relay.rows && next.sent == relay.sent && next.owed == relay.owed - copies
    requires Accounted(relay, id)
    ensures Accounted(next, id)
  {
    assert next.owed[Fresh(id)] <= relay.owed[Fresh(id)] && next.owed[Again(id)] <= relay.owed[Again(id)];
  }

  lemma MoveKeepsInv(policy: ResendPolicy, relay: Relay, move: Move, next: Relay)
    requires RelayInv(relay) && MoveTo(policy, relay, move, next)
    ensures RelayInv(next)
  {
    forall id | id in next.rows ensures Armed(next.rows[id]) {
      MoveKeepsArmed(policy, relay, move, next, id);
    }
    forall id ensures Accounted(next, id) {
      assert Accounted(relay, id);
      MoveKeepsAccount(policy, relay, move, next, id);
    }
  }

  /**
   A removal row is never deleted; its tenant, its publication and its acknowledgement are written
   once; and once it is both published and acknowledged its copies and its schedule are frozen.
   */
  ghost predicate Kept(before: Row, after: Row) {
    && after.removal && after.tenant == before.tenant
    && (before.published.Some? ==> after.published == before.published)
    && (before.ack.Some? ==> after.ack == before.ack)
    && before.resends <= after.resends
    && (before.published.Some? && before.ack.Some? ==>
      after.resends == before.resends && after.nextResend == before.nextResend)
  }

  lemma KeptTwice(first: Row, second: Row, third: Row)
    requires Kept(first, second) && Kept(second, third)
    ensures Kept(first, third)
  {
  }

  lemma MoveKeepsRemoval(policy: ResendPolicy, relay: Relay, move: Move, next: Relay, id: Id)
    requires MoveTo(policy, relay, move, next) && id in relay.rows && relay.rows[id].removal
    ensures id in next.rows && Kept(relay.rows[id], next.rows[id])
  {
  }

  // ----- Runs --------------------------------------------------------------------------------

  ghost predicate MovesAt(policy: ResendPolicy, relays: seq<Relay>, moves: seq<Move>, k: nat)
    requires |relays| == |moves| + 1 && k < |moves|
  {
    MoveTo(policy, relays[k], moves[k], relays[k + 1])
  }

  ghost predicate IsRelayRun(policy: ResendPolicy, relays: seq<Relay>, moves: seq<Move>) {
    && |relays| == |moves| + 1
    && relays[0] == Relay(map[], {}, map[], multiset{})
    && forall k: nat :: k < |moves| ==> MovesAt(policy, relays, moves, k)
  }

  lemma {:induction false} RelayHolds(policy: ResendPolicy, relays: seq<Relay>, moves: seq<Move>, i: nat)
    requires IsRelayRun(policy, relays, moves) && i < |relays|
    ensures RelayInv(relays[i])
  {
    if i == 0 {
    } else {
      RelayHolds(policy, relays, moves, i - 1);
      assert MovesAt(policy, relays, moves, i - 1);
      MoveKeepsInv(policy, relays[i - 1], moves[i - 1], relays[i]);
    }
  }

  lemma {:induction false} RemovalIsKept(
      policy: ResendPolicy, relays: seq<Relay>, moves: seq<Move>, i: nat, j: nat, id: Id)
    requires IsRelayRun(policy, relays, moves) && i <= j < |relays| && id in relays[i].rows
    requires relays[i].rows[id].removal
    ensures id in relays[j].rows && Kept(relays[i].rows[id], relays[j].rows[id])
    decreases j
  {
    if i == j {
    } else {
      RemovalIsKept(policy, relays, moves, i, j - 1, id);
      MovedRemovalIsKept(policy, relays, moves, j - 1, id);
      KeptTwice(relays[i].rows[id], relays[j - 1].rows[id], relays[j].rows[id]);
    }
  }

  lemma MovedRemovalIsKept(policy: ResendPolicy, relays: seq<Relay>, moves: seq<Move>, k: nat, id: Id)
    requires IsRelayRun(policy, relays, moves) && k < |moves| && id in relays[k].rows && relays[k].rows[id].removal
    ensures id in relays[k + 1].rows && Kept(relays[k].rows[id], relays[k + 1].rows[id])
  {
    assert MovesAt(policy, relays, moves, k);
    MoveKeepsRemoval(policy, relays[k], moves[k], relays[k + 1], id);
  }

  /**
   In every run: a removal row stays for good; a published one always has a next copy scheduled and
   the broker accepted at least one copy more than were counted as copies; once it is published and
   acknowledged, no later pass selects it again and neither its count nor its schedule changes.
   */
  lemma RemovalLifecycle(policy: ResendPolicy, relays: seq<Relay>, moves: seq<Move>, i: nat, j: nat, id: Id, now: Time)
    requires IsRelayRun(policy, relays, moves) && i <= j < |relays| && id in relays[i].rows
    requires relays[i].rows[id].removal
    ensures id in relays[j].rows && Kept(relays[i].rows[id], relays[j].rows[id])
    ensures relays[j].rows[id].published.Some? ==>
              relays[j].rows[id].nextResend.Some? && 1 + relays[j].rows[id].resends <= Copies(relays[j].sent, id)
    ensures relays[i].rows[id].published.Some? && relays[i].rows[id].ack.Some? ==>
              !IsFresh(relays[j].rows, id, now) && !IsAgain(relays[j].rows, id, now)
  {
    RemovalIsKept(policy, relays, moves, i, j, id);
    RelayHolds(policy, relays, moves, j);
    assert Accounted(relays[j], id) && Armed(relays[j].rows[id]);
  }

  /** The acknowledgement `outcome` of the row `id` was moved by an acknowledgement of the row's own tenant. */
  ghost predicate AcknowledgedAt(moves: seq<Move>, k: nat, id: Id, tenant: Id, outcome: AckOutcome)
    requires k < |moves|
  {
    moves[k] == Acknowledge(id, tenant, outcome)
  }

  lemma MoveAcknowledges(policy: ResendPolicy, relay: Relay, move: Move, next: Relay, id: Id)
    requires MoveTo(policy, relay, move, next) && id in next.rows && next.rows[id].ack.Some?
    ensures (id in relay.rows && relay.rows[id].ack == next.rows[id].ack &&
            relay.rows[id].tenant == next.rows[id].tenant) ||
            move == Acknowledge(id, next.rows[id].tenant, next.rows[id].ack.value)
  {
  }

  /** No row is acknowledged but by an acknowledgement that named the tenant of the row. */
  lemma {:induction false} OnlyItsTenantAcknowledges(
      policy: ResendPolicy, relays: seq<Relay>, moves: seq<Move>, i: nat, id: Id)
    requires IsRelayRun(policy, relays, moves) && i < |relays| && id in relays[i].rows && relays[i].rows[id].ack.Some?
    ensures exists k: nat ::
              k < i && AcknowledgedAt(moves, k, id, relays[i].rows[id].tenant, relays[i].rows[id].ack.value)
  {
    assert i > 0;
    assert MovesAt(policy, relays, moves, i - 1);
    MoveAcknowledges(policy, relays[i - 1], moves[i - 1], relays[i], id);
    if moves[i - 1] == Acknowledge(id, relays[i].rows[id].tenant, relays[i].rows[id].ack.value) {
      assert AcknowledgedAt(moves, i - 1, id, relays[i].rows[id].tenant, relays[i].rows[id].ack.value);
    } else {
      OnlyItsTenantAcknowledges(policy, relays, moves, i - 1, id);
    }
  }

  /** How long a removal waits for its next copy, after its publication and `n` counted copies. */
  function DelayAfter(policy: ResendPolicy, n: nat): int {
    if n == 0 then policy.after else ResendDelay(policy, n - 1)
  }

  /** The move records the publication, for `n` zero, or the `n`-th copy of the row, which makes it due at `due`. */
  ghost predicate Schedules(policy: ResendPolicy, move: Move, id: Id, n: nat, due: Time) {
    && move.Settle? && move.choice == (if n == 0 then Fresh(id) else Again(id))
    && due == move.at + DelayAfter(policy, n)
  }

  lemma MoveSchedules(policy: ResendPolicy, relay: Relay, move: Move, next: Relay, id: Id)
    requires (id in relay.rows ==> Armed(relay.rows[id])) && MoveTo(policy, relay, move, next)
    requires id in next.rows && next.rows[id].nextResend.Some?
    ensures || (id in relay.rows && relay.rows[id].nextResend == next.rows[id].nextResend
                && relay.rows[id].resends == next.rows[id].resends)
            || Schedules(policy, move, id, next.rows[id].resends, next.rows[id].nextResend.value)
  {
    match move
    case Settle(choice, at) => SettleSchedules(policy, relay, choice, at, next, id);
    case _ =>
  }

  lemma SettleSchedules(policy: ResendPolicy, relay: Relay, choice: Choice, at: Time, next: Relay, id: Id)
    requires id in relay.rows ==> Armed(relay.rows[id])
    requires next.rows == Settled(relay.rows, choice, policy, at) && id in next.rows && next.rows[id].nextResend.Some?
    ensures || (id in relay.rows && relay.rows[id].nextResend == next.rows[id].nextResend
                && relay.rows[id].resends == next.rows[id].resends)
            || Schedules(policy, Settle(choice, at), id, next.rows[id].resends, next.rows[id].nextResend.value)
  {
  }

  /** From right after move `k` up to the `i`-th state the row has the schedule and the count it has there. */
  ghost predicate UntouchedSince(relays: seq<Relay>, k: nat, i: nat, id: Id)
    requires k < i < |relays| && id in relays[i].rows
  {
    forall m :: k < m <= i ==>
      && id in relays[m].rows && relays[m].rows[id].nextResend == relays[i].rows[id].nextResend
      && relays[m].rows[id].resends == relays[i].rows[id].resends
  }

  /** Move `k` is the last one that recorded a publication or a copy of the row, and made it due at `due`. */
  ghost predicate LastRecord(
      policy: ResendPolicy, relays: seq<Relay>, moves: seq<Move>, k: nat, i: nat, id: Id, due: Time)
    requires |relays| == |moves| + 1 && k < i < |relays| && id in relays[i].rows
  {
    Schedules(policy, moves[k], id, relays[i].rows[id].resends, due) && UntouchedSince(relays, k, i, id)
  }

  lemma StillLastRecord(
      policy: ResendPolicy, relays: seq<Relay>, moves: seq<Move>, k: nat, i: nat, id: Id, due: Time)
    requires |relays| == |moves| + 1 && k < i - 1 && i < |relays| && id in relays[i - 1].rows && id in relays[i].rows
    requires LastRecord(policy, relays, moves, k, i - 1, id, due)
    requires relays[i].rows[id].nextResend == relays[i - 1].rows[id].nextResend
    requires relays[i].rows[id].resends == relays[i - 1].rows[id].resends
    ensures LastRecord(policy, relays, moves, k, i, id, due)
  {
  }

  /** Move `k` leaves the schedule of the row alone, or records its publication or a copy. */
  ghost predicate SchedulesAt(policy: ResendPolicy, relays: seq<Relay>, moves: seq<Move>, id: Id, k: nat)
    requires |relays| == |moves| + 1 && k < |moves|
  {
    id in relays[k + 1].rows && relays[k + 1].rows[id].nextResend.Some? ==>
      var row := relays[k + 1].rows[id];
      || (id in relays[k].rows && relays[k].rows[id].nextResend == row.nextResend
          && relays[k].rows[id].resends == row.resends)
      || Schedules(policy, moves[k], id, row.resends, row.nextResend.value)
  }

  lemma RunSchedules(policy: ResendPolicy, relays: seq<Relay>, moves: seq<Move>, id: Id, k: nat)
    requires IsRelayRun(policy, relays, moves) && k < |moves|
    ensures SchedulesAt(policy, relays, moves, id, k)
  {
    if id in relays[k + 1].rows && relays[k + 1].rows[id].nextResend.Some? {
      RelayHolds(policy, relays, moves, k);
      assert MovesAt(policy, relays, moves, k);
      MoveSchedules(policy, relays[k], moves[k], relays[k + 1], id);
    }
  }

  /** Every scheduled copy was scheduled by the last record of the publication or of a copy. */
  lemma {:induction false} ScheduledByLastRecord(
      policy: ResendPolicy, relays: seq<Relay>, moves: seq<Move>, i: nat, id: Id)
    requires |relays| == |moves| + 1 && i < |relays| && id in relays[i].rows && relays[i].rows[id].nextResend.Some?
    requires id !in relays[0].rows && forall k: nat :: k < |moves| ==> SchedulesAt(policy, relays, moves, id, k)
    ensures exists k: nat ::
              k < i && LastRecord(policy, relays, moves, k, i, id, relays[i].rows[id].nextResend.value)
  {
    var due := relays[i].rows[id].nextResend.value;
    assert i > 0 && SchedulesAt(policy, relays, moves, id, i - 1);
    if Schedules(policy, moves[i - 1], id, relays[i].rows[id].resends, due) {
      assert LastRecord(policy, relays, moves, i - 1, i, id, due);
    } else {
      ScheduledByLastRecord(policy, relays, moves, i - 1, id);
      var k: nat :| k < i - 1 && LastRecord(policy, relays, moves, k, i - 1, id, due);
      StillLastRecord(policy, relays, moves, k, i, id, due);
    }
  }

  /**
   Copies keep their distance: in every run, a published removal nobody acknowledged is selected for
   another copy exactly once the delay for its number of copies has passed since the last of them,
   or since its publication, was recorded.
   */
  lemma CopiesAreSpaced(policy: ResendPolicy, relays: seq<Relay>, moves: seq<Move>, i: nat, id: Id)
    requires IsRelayRun(policy, relays, moves) && i < |relays| && id in relays[i].rows
    requires var row := relays[i].rows[id]; row.removal && row.published.Some? && row.ack.None?
    ensures exists k: nat, due :: k < i && LastRecord(policy, relays, moves, k, i, id, due) &&
              forall now :: !BackedOff(relays[i].rows[id], now) ==> (IsAgain(relays[i].rows, id, now) <==> due <= now)
  {
    var row := relays[i].rows[id];
    RelayHolds(policy, relays, moves, i);
    assert Armed(row);
    forall k: nat | k < |moves| ensures SchedulesAt(policy, relays, moves, id, k) {
      RunSchedules(policy, relays, moves, id, k);
    }
    ScheduledByLastRecord(policy, relays, moves, i, id);
    var k: nat :| k < i && LastRecord(policy, relays, moves, k, i, id, row.nextResend.value);
  }
}
