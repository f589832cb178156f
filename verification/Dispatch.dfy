/** execqueue/runner/dispatch.py */
module Dispatch {
  import opened Prelude
  import opened Tables

  /** What the OpenCode service does with the prompt. */
  datatype Delivery = Sent(sessionId: string, messageId: string) | Refused(errorType: string)

  datatype DispatchError = ExecutionNotFound | NotQueued(status: ExecutionStatus) | DeliveryFailed(errorType: string)

  /** SELECT max(sequence), or zero. */
  function MaxSequence(events: seq<Event>): nat {
    if events == [] then 0 else
      var n := |events| - 1;
      var m := MaxSequence(events[..n]);
      if m < events[n].sequence then events[n].sequence else m
  }

  function AppendNext(row: TaskExecution, kind: EventType): TaskExecution {
    row.(events := row.events + [Event(MaxSequence(row.events) + 1, kind)])
  }

  function DispatchedRow(row: TaskExecution, delivery: Delivery, now: Time): TaskExecution {
    var started := row.(startedAt := Some(now), updatedAt := now);
    match delivery
    case Sent(sessionId, messageId) =>
      AppendNext(
        started.(status := InProgress, dispatchedAt := Some(now),
                 sessionId := Some(sessionId), messageId := Some(messageId)),
        ExecutionDispatched)
    case Refused(errorType) =>
      AppendNext(started.(status := Dispatching, errorType := Some(errorType)), ErrorEvent)
  }

  method StoreExecution(s: Session, e: ExecutionId, row: TaskExecution)
    modifies s`current
    ensures s.current == old(s.current).(executions := old(s.current.executions)[e := row])
  {
    s.current := s.current.(executions := s.current.executions[e := row]);
  }

  /** IN_PROGRESS only after a delivery; a refusal leaves DISPATCHING and an error event. */
  method DispatchPrompt(s: Session, e: ExecutionId, delivery: Delivery, now: Time)
    returns (r: Result<string, DispatchError>)
    modifies s`current
    ensures r.Ok? <==> e in old(s.current.executions) && old(s.current.executions)[e].status == ExecutionStatus.Queued
                       && delivery.Sent?
    ensures r.Ok? ==> e in s.current.executions
                      && s.current.executions[e].status == InProgress
                      && s.current.executions[e].sessionId == Some(delivery.sessionId)
                      && s.current.executions[e].messageId == Some(delivery.messageId)
    ensures e !in old(s.current.executions) ==> r == Err(ExecutionNotFound) && s.current == old(s.current)
    ensures e in old(s.current.executions) && old(s.current.executions)[e].status != ExecutionStatus.Queued ==>
              r == Err(NotQueued(old(s.current.executions)[e].status)) && s.current == old(s.current)
    ensures e in old(s.current.executions) && old(s.current.executions)[e].status == ExecutionStatus.Queued ==>
              && s.current == old(s.current).(
                   executions := old(s.current.executions)[
                                   e := DispatchedRow(old(s.current.executions)[e], delivery, now)])
              && r == if delivery.Sent? then Ok(delivery.messageId) else Err(DeliveryFailed(delivery.errorType))
  {
    if e !in s.current.executions {
      return Err(ExecutionNotFound);
    }
    var row := s.current.executions[e];
    if row.status != ExecutionStatus.Queued {
      return Err(NotQueued(row.status));
    }
    row := row.(status := Dispatching);
    row := row.(startedAt := Some(now), updatedAt := now);
    StoreExecution(s, e, row);
    var next := MaxSequence(row.events) + 1;
    match delivery {
      case Sent(sessionId, messageId) =>
        row := row.(status := InProgress);
        row := row.(dispatchedAt := Some(now));
        row := row.(sessionId := Some(sessionId));
        row := row.(messageId := Some(messageId));
        row := row.(events := row.events + [Event(next, ExecutionDispatched)]);
        StoreExecution(s, e, row);
        return Ok(messageId);
      case Refused(errorType) =>
        row := row.(errorType := Some(errorType));
        row := row.(events := row.events + [Event(next, ErrorEvent)]);
        StoreExecution(s, e, row);
        return Err(DeliveryFailed(errorType));
    }
  }

  // ----- event numbering -----

  /** The log of an execution is numbered 1, 2, .., n. */
  predicate Numbered(events: seq<Event>) {
    forall i :: 0 <= i < |events| ==> events[i].sequence == i + 1
  }

  /** In a numbered log, all ways to pick the next number agree. */
  lemma {:induction false} AllocatorsAgree(events: seq<Event>, kind: EventType)
    requires Numbered(events)
    ensures MaxSequence(events) == |events|
    ensures events != [] ==> events[|events| - 1].sequence == |events|
    ensures Numbered(events + [Event(MaxSequence(events) + 1, kind)])
  {
    if events != [] { AllocatorsAgree(events[..|events| - 1], kind); }
  }

  /** The maximum: no event has a larger number, and some event has it, unless it is zero. */
  lemma {:induction false} MaxSequenceIsLargest(events: seq<Event>)
    ensures forall i :: 0 <= i < |events| ==> events[i].sequence <= MaxSequence(events)
    ensures MaxSequence(events) == 0 || exists i :: 0 <= i < |events| && events[i].sequence == MaxSequence(events)
  {
    if events != [] {
      var n := |events| - 1;
      MaxSequenceIsLargest(events[..n]);
      forall i | 0 <= i < |events| ensures events[i].sequence <= MaxSequence(events) {
        assert i < n ==> events[..n][i] == events[i];
      }
      if MaxSequence(events[..n]) > 0 && MaxSequence(events) != events[n].sequence {
        var i :| 0 <= i < n && events[..n][i].sequence == MaxSequence(events[..n]);
        assert events[i].sequence == MaxSequence(events);
      }
    }
  }
}
