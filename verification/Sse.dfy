/** execqueue/runner/sse_handler.py: the deduplicating event stream. */
module Sse {
  import opened Prelude

  /** A raw event; `data` holds the text entries of its payload. */
  datatype RawEvent = RawEvent(eventType: string, data: map<string, string>)

  datatype NormalizedEvent = NormalizedEvent(raw: RawEvent, sequence: nat, isHeartbeat: bool)

  const WINDOW_LIMIT: nat := 100

  const HEARTBEAT_TYPES: set<string> := {"heartbeat", "stream.heartbeat"}

  const TERMINAL_TYPES: set<string> :=
    {"message.completed", "message.failed", "message.cancelled", "execution.completed", "execution.failed"}

  /** data["id"], else data["message_id"]; an empty text counts as no id, even when the other key is there. */
  function EventId(e: RawEvent): Option<string> {
    var text := if "id" in e.data then e.data["id"] else if "message_id" in e.data then e.data["message_id"] else "";
    if text == "" then None else Some(text)
  }

  // ----- the handler as a value -----

  datatype State = State(sequence: nat, window: set<string>, terminal: bool)

  const FRESH: State := State(0, {}, false)

  predicate IsDuplicate(st: State, e: RawEvent) {
    EventId(e).Some? && EventId(e).value in st.window
  }

  /** The event's id is new and fills the window beyond its limit: the window is emptied. */
  predicate Clears(st: State, e: RawEvent) {
    EventId(e).Some? && !IsDuplicate(st, e) && |st.window| >= WINDOW_LIMIT
  }

  function Next(st: State, e: RawEvent): State {
    var terminal := st.terminal || e.eventType in TERMINAL_TYPES;
    if IsDuplicate(st, e) then st.(terminal := terminal)
    else
      State(st.sequence + 1,
            if EventId(e).None? then st.window
            else if |st.window| >= WINDOW_LIMIT then {}
            else st.window + {EventId(e).value},
            terminal)
  }

  function Run(st: State, es: seq<RawEvent>): State {
    if es == [] then st else Next(Run(st, es[..|es| - 1]), es[|es| - 1])
  }

  function Normalize(st: State, e: RawEvent): NormalizedEvent {
    NormalizedEvent(e, st.sequence, e.eventType in HEARTBEAT_TYPES)
  }

  function Emitted(st: State, es: seq<RawEvent>): seq<NormalizedEvent> {
    if es == [] then [] else
      var n := |es| - 1;
      var before := Run(st, es[..n]);
      Emitted(st, es[..n]) + if IsDuplicate(before, es[n]) then [] else [Normalize(before, es[n])]
  }

  // ----- the handler as the source has it -----

  class SSEEventHandler {
    var sequence: nat
    var lastEventIds: set<string>
    var terminalEventReceived: bool

    constructor ()
      ensures Value() == FRESH
    {
      sequence, lastEventIds, terminalEventReceived := 0, {}, false;
    }

    function Value(): State
      reads this
    {
      State(sequence, lastEventIds, terminalEventReceived)
    }

    predicate Valid()
      reads this
    {
      |lastEventIds| <= WINDOW_LIMIT
    }

    method CheckDuplicate(e: RawEvent) returns (duplicate: bool)
      requires Valid()
      modifies this`lastEventIds
      ensures Valid()
      ensures duplicate <==> IsDuplicate(old(Value()), e)
      ensures lastEventIds == Next(old(Value()), e).window
    {
      var id := EventId(e);
      if id.Some? {
        if id.value in lastEventIds {
          return true;
        }
        lastEventIds := lastEventIds + {id.value};
        if |lastEventIds| > WINDOW_LIMIT {
          lastEventIds := {};
        }
      }
      return false;
    }

    /** The stream loop over the events received until the stream ends or breaks. */
    method StreamEvents(es: seq<RawEvent>) returns (out: seq<NormalizedEvent>)
      requires Valid()
      modifies this
      ensures Valid()
      ensures Value() == Run(old(Value()), es)
      ensures out == Emitted(old(Value()), es)
    {
      out := [];
      for i := 0 to |es|
        invariant Valid()
        invariant Value() == Run(old(Value()), es[..i])
        invariant out == Emitted(old(Value()), es[..i])
      {
        assert es[..i + 1][..i] == es[..i];
        if es[i].eventType in TERMINAL_TYPES {
          terminalEventReceived := true;
        }
        var duplicate := CheckDuplicate(es[i]);
        if !duplicate {
          var normalized := NormalizedEvent(es[i], sequence, es[i].eventType in HEARTBEAT_TYPES);
          sequence := sequence + 1;
          out := out + [normalized];
        }
      }
      assert es[..|es|] == es;
    }

    method ResetSequence()
      modifies this
      ensures Valid() && Value() == FRESH
    {
      sequence := 0;
      lastEventIds := {};
      terminalEventReceived := false;
    }
  }
}
