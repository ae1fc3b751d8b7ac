/**
 * Request metrics: the status-capturing response writer and the per-request counter
 * bookkeeping of `CollectRequestsMetrics`.
 */
module Middleware {
  import opened Http
  import Strconv

  /** The recorded status after the interceptor sees one call. */
  function Step(status: int, e: Event): int
  {
    match e
    case WriteHeader(code) => code
    case Write(_) => if status == 0 then StatusOK else status
    case SetHeader(_, _) => status
  }

  /** The recorded status after a sequence of calls, starting from `status`. */
  function Replay(status: int, events: seq<Event>): int
    decreases |events|
  {
    if events == [] then status else Replay(Step(status, events[0]), events[1..])
  }

  /** WrittenStatus of a fresh interceptor after `events`. */
  function RecordedStatus(events: seq<Event>): int
  {
    Replay(0, events)
  }

  predicate NoWriteHeader(events: seq<Event>)
  {
    forall i :: 0 <= i < |events| ==> !events[i].WriteHeader?
  }

  predicate HasWrite(events: seq<Event>)
  {
    exists i :: 0 <= i < |events| && events[i].Write?
  }

  lemma {:induction false} ReplayAppend(status: int, a: seq<Event>, b: seq<Event>)
    ensures Replay(status, a + b) == Replay(Replay(status, a), b)
    decreases |a|
  {
    if a == [] {
      assert a + b == b;
    } else {
      assert (a + b)[1..] == a[1..] + b;
      ReplayAppend(Step(status, a[0]), a[1..], b);
    }
  }

  /**
   * Without a WriteHeader, a recorded status stays as it is, except that a 0 becomes 200
   * exactly when some Write happens.
   */
  lemma {:induction false} ReplayWithoutHeader(status: int, events: seq<Event>)
    requires NoWriteHeader(events)
    ensures Replay(status, events) == if status != 0 then status else if HasWrite(events) then StatusOK else 0
    decreases |events|
  {
    if events != [] {
      var tail := events[1..];
      assert NoWriteHeader(tail) by {
        forall i | 0 <= i < |tail| ensures !tail[i].WriteHeader? {
          assert tail[i] == events[i + 1];
        }
      }
      ReplayWithoutHeader(Step(status, events[0]), tail);
      if HasWrite(tail) {
        var i :| 0 <= i < |tail| && tail[i].Write?;
        assert events[i + 1].Write?;
      }
      if HasWrite(events) && !events[0].Write? {
        var i :| 0 <= i < |events| && events[i].Write?;
        assert tail[i - 1].Write?;
      }
    }
  }

  /** WrittenStatus is 0 when neither WriteHeader nor Write was called. */
  lemma NothingWrittenIsZero(events: seq<Event>)
    requires forall i :: 0 <= i < |events| ==> events[i].SetHeader?
    ensures RecordedStatus(events) == 0
  {
    ReplayWithoutHeader(0, events);
  }

  /** Without any WriteHeader, a Write makes the recorded status 200. */
  lemma WriteWithoutHeaderIsOk(events: seq<Event>)
    requires NoWriteHeader(events) && HasWrite(events)
    ensures RecordedStatus(events) == StatusOK
  {
    ReplayWithoutHeader(0, events);
  }

  /**
   * The last WriteHeader decides the recorded status: later Writes change it only when
   * that code was 0, and then to 200.
   */
  lemma LastWriteHeaderWins(before: seq<Event>, code: int, after: seq<Event>)
    requires NoWriteHeader(after)
    ensures RecordedStatus(before + [WriteHeader(code)] + after) ==
      if code != 0 then code else if HasWrite(after) then StatusOK else 0
  {
    ReplayAppend(0, before + [WriteHeader(code)], after);
    ReplayAppend(0, before, [WriteHeader(code)]);
    ReplayWithoutHeader(code, after);
  }

  /**
   * interceptStatusResponseWriter: forwards every call to `inner` and keeps the status in
   * `statusCode`. `history` is the sequence of calls it has forwarded.
   */
  class InterceptStatusWriter {
    const inner: ResponseWriter
    var statusCode: int
    ghost var history: seq<Event>
    ghost const before: seq<Event>

    ghost predicate Valid()
      reads this, inner
    {
      statusCode == RecordedStatus(history) && inner.events == before + history
    }

    constructor (w: ResponseWriter)
      ensures Valid() && inner == w && before == w.events && history == [] && statusCode == 0
    {
      inner := w;
      statusCode := 0;
      history := [];
      before := w.events;
    }

    /** w.Header().Set on the embedded writer; the recorded status is untouched. */
    method SetHeader(name: string, value: string)
      requires Valid()
      modifies this, inner
      ensures Valid() && history == old(history) + [Event.SetHeader(name, value)]
      ensures statusCode == old(statusCode)
    {
      ReplayAppend(0, history, [Event.SetHeader(name, value)]);
      history := history + [Event.SetHeader(name, value)];
      inner.SetHeader(name, value);
    }

    /** WriteHeader stores its code unconditionally, then forwards. */
    method WriteHeader(code: int)
      requires Valid()
      modifies this, inner
      ensures Valid() && history == old(history) + [Event.WriteHeader(code)]
      ensures statusCode == code
    {
      ReplayAppend(0, history, [Event.WriteHeader(code)]);
      statusCode := code;
      history := history + [Event.WriteHeader(code)];
      inner.WriteHeader(code);
    }

    /** Write swaps a 0 status for 200 and leaves any other status alone, then forwards. */
    method Write(payload: Payload)
      requires Valid()
      modifies this, inner
      ensures Valid() && history == old(history) + [Event.Write(payload)]
      ensures statusCode == if old(statusCode) == 0 then StatusOK else old(statusCode)
    {
      ReplayAppend(0, history, [Event.Write(payload)]);
      if statusCode == 0 {
        statusCode := StatusOK;
      }
      history := history + [Event.Write(payload)];
      inner.Write(payload);
    }

    method WrittenStatus() returns (status: int)
      requires Valid()
      ensures status == RecordedStatus(history)
    {
      status := statusCode;
    }
  }

  /** Labels of `http_requests_total` and `http_errors_total`: method, path, status text. */
  datatype RequestLabels = RequestLabels(httpMethod: string, path: string, status: string)

  /** Labels of `http_request_duration_seconds`: method and path. */
  datatype RouteLabels = RouteLabels(httpMethod: string, path: string)

  function Count<L>(counter: map<L, nat>, labels: L): nat
  {
    if labels in counter then counter[labels] else 0
  }

  /** One increment of the series `labels`; every other series keeps its count. */
  function Inc<L(!new)>(counter: map<L, nat>, labels: L): (r: map<L, nat>)
    ensures Count(r, labels) == Count(counter, labels) + 1
    ensures forall other :: other != labels ==> Count(r, other) == Count(counter, other)
  {
    counter[labels := Count(counter, labels) + 1]
  }

  /** A status the error counter counts: a client or server error, or no status at all. */
  predicate IsErrorStatus(status: int): (b: bool)
    ensures status == StatusOK || status == StatusCreated || status == StatusNoContent ==> !b
    ensures (|| status == 0 || status == StatusBadRequest || status == StatusNotFound
             || status == StatusUnprocessableEntity || status == StatusInternalServerError) ==> b
  {
    status >= StatusBadRequest || status == 0
  }

  /**
   * The metric families, as counts. Durations are not kept, only how many were observed
   * for each route.
   */
  class Metrics {
    var activeRequests: int
    var totalRequests: map<RequestLabels, nat>
    var durationsObserved: map<RouteLabels, nat>
    var errorsTotal: map<RequestLabels, nat>

    constructor ()
      ensures activeRequests == 0 && totalRequests == map[] && durationsObserved == map[] && errorsTotal == map[]
    {
      activeRequests := 0;
      totalRequests := map[];
      durationsObserved := map[];
      errorsTotal := map[];
    }
  }

  /**
   * CollectRequestsMetrics around a handler that makes the calls `handler` on its writer:
   * one request count under the recorded status, one duration, an error count exactly
   * for an error status, and no net change of the active-request gauge.
   */
  method CollectRequestsMetrics(m: Metrics, w: ResponseWriter, httpMethod: string, path: string, handler: seq<Event>)
    modifies m, w
    ensures w.events == old(w.events) + handler
    ensures var labels := RequestLabels(httpMethod, path, Strconv.Itoa(RecordedStatus(handler)));
      && m.activeRequests == old(m.activeRequests)
      && m.totalRequests == Inc(old(m.totalRequests), labels)
      && m.durationsObserved == Inc(old(m.durationsObserved), RouteLabels(httpMethod, path))
      && m.errorsTotal == if IsErrorStatus(RecordedStatus(handler)) then Inc(old(m.errorsTotal), labels)
                          else old(m.errorsTotal)
  {
    m.activeRequests := m.activeRequests + 1;
    var rw := new InterceptStatusWriter(w);
    var i := 0;
    while i < |handler|
      invariant 0 <= i <= |handler|
      invariant rw.Valid() && rw.inner == w && rw.before == old(w.events)
      invariant rw.history == handler[..i]
      invariant m.activeRequests == old(m.activeRequests) + 1
      invariant unchanged(m`totalRequests, m`durationsObserved, m`errorsTotal)
    {
      match handler[i] {
        case SetHeader(name, value) => rw.SetHeader(name, value);
        case WriteHeader(code) => rw.WriteHeader(code);
        case Write(payload) => rw.Write(payload);
      }
      assert handler[..i + 1] == handler[..i] + [handler[i]];
      i := i + 1;
    }
    assert handler[..i] == handler;
    // the deferred block
    m.activeRequests := m.activeRequests - 1;
    var written := rw.WrittenStatus();
    var statusCode := Strconv.Itoa(written);
    m.totalRequests := Inc(m.totalRequests, RequestLabels(httpMethod, path, statusCode));
    m.durationsObserved := Inc(m.durationsObserved, RouteLabels(httpMethod, path));
    written := rw.WrittenStatus();
    if written >= StatusBadRequest || written == 0 {
      m.errorsTotal := Inc(m.errorsTotal, RequestLabels(httpMethod, path, statusCode));
    }
  }
}
