/** The stores of the service, statement by statement; each method is proved to commit exactly its transaction. */
module Stores {
  import opened Wrappers
  import opened Archive
  import opened Transactions
  import opened Publishing
  import opened Effects

  datatype Delivery = DeliveredTo(capture: Id) | DuplicateDelivery | RejectedDelivery

  /** `browser_capture_inbox.rs` */
  class BrowserCaptureInbox {
    const database: Database

    constructor (database: Database)
      ensures this.database == database
    {
      this.database := database;
    }

    /**
     A command is taken up once; a repeated key answers with the capture it already has, which keeps
     its first operation.
     */
    method Deliver(command: Command, now: Time) returns (delivery: Delivery)
      modifies database
      ensures Delivered(old(database.View()), command, now, database.View())
      ensures delivery.DuplicateDelivery? <==> command.id in old(database.intake.inbox)
      ensures delivery.DeliveredTo? ==>
              IsCapture(database.intake.captures, command.owner, command.key, delivery.capture)
      ensures KnownKey(old(database.intake.captures), command.owner, command.key) ==>
                database.intake.captures == old(database.intake.captures)
    {
      var intake, minted := database.intake, database.minted;
      if command.id in intake.inbox {
        return DuplicateDelivery;
      }
      intake := intake.(inbox := intake.inbox + {command.id});
      var ticket := Ticket(command.operation, command.id);
      var capture;
      if c :| c in intake.captures && IsCapture(intake.captures, command.owner, command.key, c) {
        capture := c;
      } else {
        capture := minted;
        var row := NewCapture(command.owner, command.key, command.url, Some(ticket), Some(now));
        intake := intake.(captures := intake.captures[capture := row]);
        minted := minted + 1;
      }
      database.intake := intake;
      database.outbox := database.outbox.Insert(minted, Event(QueuedReport(ticket), capture));
      database.minted := minted + 1;
      return DeliveredTo(capture);
    }

    method Reject(ticket: Ticket) returns (delivery: Delivery)
      modifies database
      ensures database.View() == Rejected(old(database.View()), ticket)
      ensures delivery == if ticket.command in old(database.intake.inbox) then DuplicateDelivery else RejectedDelivery
    {
      if ticket.command in database.intake.inbox {
        return DuplicateDelivery;
      }
      database.intake := database.intake.(inbox := database.intake.inbox + {ticket.command});
      database.outbox := database.outbox.Insert(database.minted, Event(RejectedReport(ticket), ticket.operation));
      database.minted := database.minted + 1;
      return RejectedDelivery;
    }
  }

  datatype Observation = Deletion(digest: string) | Inaccessibility(digest: string) | ResolverFailure

  datatype CaptureError = UnknownCapture | Persistence

  /** `capture.rs` */
  class CaptureStore {
    const database: Database

    constructor (database: Database)
      ensures this.database == database
    {
      this.database := database;
    }

    /** A new key creates one capture; a known key replays the stored one. */
    method Submit(owner: Id, key: string, url: string) returns (capture: Id, created: bool)
      modifies database
      ensures database.View() == Submitted(old(database.View()), owner, key, url)
      ensures created <==> !KnownKey(old(database.intake.captures), owner, key)
      ensures IsCapture(database.intake.captures, owner, key, capture)
    {
      if c :| c in database.intake.captures && IsCapture(database.intake.captures, owner, key, c) {
        return c, false;
      }
      capture, created := database.minted, true;
      database.intake := database.intake.(
        captures := database.intake.captures[capture := NewCapture(owner, key, url, None, None)]);
      database.minted := database.minted + 1;
    }

    /** The evidence an answer leaves, in one transaction; a failed attempt leaves a failure row and nothing else. */
    method RecordObservation(capture: Id, observation: Observation, now: Time) returns (error: Option<CaptureError>)
      modifies database
      ensures error.Some? ==> database.View() == old(database.View())
      ensures error == Some(UnknownCapture) <==> capture !in old(database.intake.captures)
      ensures error.None? ==>
                match observation
                case Deletion(digest) =>
                  Marked(old(database.View()), capture, DeletedUpstream, digest, now, database.View())
                case Inaccessibility(digest) =>
                  Marked(old(database.View()), capture, PrivateOrInaccessible, digest, now, database.View())
                case ResolverFailure => FailureStored(old(database.View()), capture, database.View())
    {
      if capture !in database.intake.captures {
        return Some(UnknownCapture);
      }
      match observation {
        case Deletion(digest) => error := MarkUnavailable(capture, DeletedUpstream, digest, now);
        case Inaccessibility(digest) => error := MarkUnavailable(capture, PrivateOrInaccessible, digest, now);
        case ResolverFailure =>
          var row := Resolution(capture, ResolverFailed, None);
          database.intake := database.intake.(resolutions := database.intake.resolutions[database.minted := row]);
          database.minted := database.minted + 1;
          error := None;
      }
    }

    method MarkUnavailable(
        capture: Id, availability: Availability, digest: string, now: Time)
      returns (error: Option<CaptureError>)
      modifies database
      ensures error.None? || error == Some(Persistence)
      ensures error.Some? ==> database.View() == old(database.View())
      ensures error.None? ==> Marked(old(database.View()), capture, availability, digest, now, database.View())
    {
      var transaction := database.Begin();
      if capture !in transaction.intake.captures {
        return Some(Persistence);
      }
      var row := transaction.intake.captures[capture];
      var tombstone := Tombstone(row.post, Some(capture), availability, now);
      transaction := transaction.(
        intake := transaction.intake.(
          captures := transaction.intake.captures[capture := row.(status := Unavailable)],
          tombstones := transaction.intake.tombstones[transaction.minted := tombstone],
          resolutions := transaction.intake.resolutions[transaction.minted + 1 :=
            Resolution(capture, UnavailableOutcome, None)]),
        minted := transaction.minted + 2);
      if row.post.Some? {
        var told := AppendOriginFact(transaction, Origin(row.owner, row.post.value, Some(capture)), digest, now);
        if told.None? {
          return Some(Persistence);
        }
        transaction := told.value;
      }
      database.Commit(transaction);
      return None;
    }
  }

  /** `knowledge.rs` */
  class KnowledgeCompletionStore {
    const database: Database

    constructor (database: Database)
      ensures this.database == database
    {
      this.database := database;
    }

    /**
     A completion is accepted once and links only a stored revision of a source of that owner that
     was never removed.
     */
    method Record(event: Id, owner: Id, s: SourceId, digest: string) returns (outcome: LinkOutcome)
      modifies database
      ensures (outcome, database.library) == Completed(old(database.View()), event, owner, s, digest)
      ensures database.View() == old(database.View()).(library := database.library)
      ensures outcome.Linked? <==> MayLink(old(database.library), event, owner, s, digest)
      ensures outcome.Duplicate? <==> event in old(database.library.completions)
      ensures outcome.LocallyRemoved? <==>
              event !in old(database.library.completions) && (owner, s) in old(database.library.removed)
      ensures database.library.links ==
              if outcome.Linked? then old(database.library.links)[event := Link(owner, s, digest)]
              else old(database.library.links)
    {
      var library := database.library;
      LinkSpelled(database.View(), event, owner, s, digest);
      if event in library.completions {
        return Duplicate;
      }
      library := library.(completions := library.completions + {event});
      if (owner, s) in library.removed {
        outcome := LocallyRemoved;
      } else if !(s in library.sources && library.sources[s].owner == owner && Stored(library.revisions, s, digest)) {
        outcome := NoSuchRevision;
      } else {
        library := library.(links := library.links[event := Link(owner, s, digest)]);
        outcome := Linked;
      }
      database.library := library;
    }
  }
}
