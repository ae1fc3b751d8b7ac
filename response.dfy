/**
 * response.Write: set the JSON content type, write the status once (0 means 200), then
 * encode the body only when there is one.
 */
module Response {
  import opened Wrappers
  import opened Http
  import opened Middleware

  const ContentType: string := "application/json; charset=utf-8"

  /** The status that is actually written for a requested one. */
  function EffectiveStatus(status: int): (code: int)
    ensures code != 0
    ensures status == 0 ==> code == StatusOK
    ensures status != 0 ==> code == status
  {
    if status == 0 then StatusOK else status
  }

  /** The calls one `Write(w, log, obj, status)` makes on `w`. */
  function WriteEvents(obj: Option<Payload>, status: int): (events: seq<Event>)
  {
    [SetHeader("Content-Type", ContentType), WriteHeader(EffectiveStatus(status))]
      + (if obj.Some? then [Event.Write(obj.value)] else [])
  }

  /**
   * The content type comes first, exactly one WriteHeader follows with a non-zero code,
   * and body bytes come after it, only for a non-nil object.
   */
  lemma WriteEventsShape(obj: Option<Payload>, status: int)
    ensures var events := WriteEvents(obj, status);
      && |events| == (if obj.Some? then 3 else 2)
      && events[0] == SetHeader("Content-Type", ContentType)
      && events[1] == WriteHeader(if status == 0 then StatusOK else status)
      && (forall i :: 0 <= i < |events| && i != 1 ==> !events[i].WriteHeader?)
      && (obj.Some? ==> events[2] == Event.Write(obj.value))
      && (obj.None? ==> !HasWrite(events))
  {
  }

  /**
   * Through the interceptor, one response.Write leaves the recorded status at the
   * requested status, or at 200 for 0, whatever was written before.
   */
  lemma WriteRecordsEffectiveStatus(earlier: seq<Event>, obj: Option<Payload>, status: int)
    ensures RecordedStatus(earlier + WriteEvents(obj, status)) == EffectiveStatus(status)
  {
    var body := if obj.Some? then [Event.Write(obj.value)] else [];
    var header := [SetHeader("Content-Type", ContentType)];
    assert earlier + WriteEvents(obj, status) == (earlier + header) + [WriteHeader(EffectiveStatus(status))] + body;
    LastWriteHeaderWins(earlier + header, EffectiveStatus(status), body);
  }

  method Write(w: InterceptStatusWriter, obj: Option<Payload>, status: int)
    requires w.Valid()
    modifies w, w.inner
    ensures w.Valid() && w.history == old(w.history) + WriteEvents(obj, status)
    ensures w.statusCode == EffectiveStatus(status)
  {
    w.SetHeader("Content-Type", ContentType);
    var code := status;
    if code == 0 {
      code := StatusOK;
    }
    w.WriteHeader(code);
    if obj.Some? {
      w.Write(obj.value);
    }
  }

  /**
   * response.WriteDefaultError. Its source file is not part of this model; it is taken to
   * write the default error object with status 500.
   */
  method WriteDefaultError(w: InterceptStatusWriter)
    requires w.Valid()
    modifies w, w.inner
    ensures w.Valid() && w.history == old(w.history) + WriteEvents(Some(DefaultError), StatusInternalServerError)
    ensures w.statusCode == StatusInternalServerError
  {
    Write(w, Some(DefaultError), StatusInternalServerError);
  }
}
