/** What the history of inserted outbox events says about one capture or one source. */
module EventLog {
  import opened Archive

  predicate AnswersCapture(event: Event, c: Id) {
    event.body.TerminalReport? && event.aggregate == c
  }

  /** How many terminal reports the capture `c` ever got. */
  function Terminals(log: seq<Event>, c: Id): nat {
    if log == [] then 0
    else Terminals(log[..|log| - 1], c) + if AnswersCapture(log[|log| - 1], c) then 1 else 0
  }

  predicate RemovesSource(event: Event, s: SourceId) {
    event.body.SourceRemoved? && event.body.source == s
  }

  /** How many removal facts the source `s` ever got. */
  function Removals(log: seq<Event>, s: SourceId): nat {
    if log == [] then 0
    else Removals(log[..|log| - 1], s) + if RemovesSource(log[|log| - 1], s) then 1 else 0
  }

  predicate IsFactOf(event: Event, s: SourceId) {
    (event.body.SourceCaptured? || event.body.SourceUpdated?) && event.body.source == s
  }

  function StreamThen(stream: seq<EventBody>, event: Event, s: SourceId): seq<EventBody> {
    if RemovesSource(event, s) then [] else if IsFactOf(event, s) then stream + [event.body] else stream
  }

  /** The captured and updated facts of `s` since its last removal. */
  function Stream(log: seq<Event>, s: SourceId): (stream: seq<EventBody>)
    ensures forall i :: 0 <= i < |stream| ==>
            (stream[i].SourceCaptured? || stream[i].SourceUpdated?) && stream[i].source == s
  {
    if log == [] then [] else StreamThen(Stream(log[..|log| - 1], s), log[|log| - 1], s)
  }

  lemma Append(log: seq<Event>, event: Event)
    ensures forall c :: Terminals(log + [event], c) == Terminals(log, c) + if AnswersCapture(event, c) then 1 else 0
    ensures forall s :: Removals(log + [event], s) == Removals(log, s) + if RemovesSource(event, s) then 1 else 0
    ensures forall s :: Stream(log + [event], s) == StreamThen(Stream(log, s), event, s)
  {
    assert (log + [event])[..|log|] == log;
  }
}
