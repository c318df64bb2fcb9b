/**
 * `LogRoundTripper`: the interceptor that wraps an HTTP transport, logs each
 * request before handing it on and each response before returning it, and
 * replaces every body it reads with a replay of the same bytes.
 *
 * `Call` is the specification of one round trip as a value: the events it
 * causes (log writes and the hand-over to the transport), the bytes the
 * request body replays afterwards, and what the caller gets back. The class
 * method `LogRoundTripper.RoundTrip` is the imperative model of the Go method
 * and is proved to have exactly the effect `Call` describes.
 */
module Interceptor {
  import opened Wrappers
  import opened GoInt
  import opened Http
  import opened LogEntries
  import DryRun

  /** What one round trip does that others can observe, in order. */
  datatype Event =
    | Wrote(entry: LogEntry)               // one Write of a whole entry to Out
    | Delegated(sent: Option<seq<byte>>)   // the transport is called; the request body replays these bytes

  /** The log entries among the events: what Out receives, one Write per entry. */
  function Writes(events: seq<Event>): (w: seq<LogEntry>)
    ensures |w| <= |events|
  {
    if events == [] then []
    else (if events[0].Wrote? then [events[0].entry] else []) + Writes(events[1..])
  }

  lemma {:induction false} WritesAppend(a: seq<Event>, b: seq<Event>)
    ensures Writes(a + b) == Writes(a) + Writes(b)
  {
    if a != [] {
      assert (a + b)[1..] == a[1..] + b;
      WritesAppend(a[1..], b);
    } else {
      assert a + b == b;
    }
  }

  lemma WritesOfCallEvents(request: LogEntry, sent: Option<seq<byte>>, response: LogEntry)
    ensures Writes([Wrote(request)]) == [request]
    ensures Writes([Wrote(request), Delegated(sent)]) == [request]
    ensures Writes([Wrote(request), Delegated(sent), Wrote(response)]) == [request, response]
    ensures Writes([Delegated(sent)]) == [] && Writes([Delegated(sent), Wrote(response)]) == [response]
  {
    assert Writes([Wrote(response)]) == [response] by {
      assert [Wrote(response)][1..] == [];
    }
    assert Writes([Delegated(sent), Wrote(response)]) == [response] by {
      assert [Delegated(sent), Wrote(response)][1..] == [Wrote(response)];
    }
    assert Writes([Delegated(sent)]) == [] by {
      assert [Delegated(sent)][1..] == [];
    }
    assert [Wrote(request), Delegated(sent)][1..] == [Delegated(sent)];
    assert [Wrote(request), Delegated(sent), Wrote(response)][1..] == [Delegated(sent), Wrote(response)];
    assert Writes([Wrote(request)]) == [request] by {
      assert [Wrote(request)][1..] == [];
    }
  }

  /** A response entry may only follow the request entry of the same call. */
  predicate MayLog(before: seq<LogEntry>, e: LogEntry) {
    e.ResponseEntry? ==> before != [] && before[|before| - 1].RequestEntry? && before[|before| - 1].id == e.id
  }

  /**
   * Every response entry in the log directly follows the request entry of
   * the same call and carries the same correlation ID.
   */
  predicate Paired(log: seq<LogEntry>)
    decreases |log|
  {
    log == [] || (Paired(log[..|log| - 1]) && MayLog(log[..|log| - 1], log[|log| - 1]))
  }

  /** The history ends with the write of a request entry that logged these body bytes. */
  predicate AwaitsDelegation(t: seq<Event>, sent: Option<seq<byte>>) {
    |t| >= 1 && t[|t| - 1].Wrote? && t[|t| - 1].entry.RequestEntry? && t[|t| - 1].entry.body == sent
  }

  /** The history ends with a request entry of this ID and the transport call that followed it. */
  predicate AwaitsResponse(t: seq<Event>, id: int16) {
    && |t| >= 2 && t[|t| - 1].Delegated?
    && t[|t| - 2].Wrote? && t[|t| - 2].entry.RequestEntry? && t[|t| - 2].entry.id == id
  }

  /**
   * The transport is only called right after a request entry was written,
   * with the body bytes that entry logged, and a response entry is only
   * written right after a call to the transport, with the ID of the request
   * entry before that call.
   */
  predicate MayHappen(before: seq<Event>, ev: Event) {
    && (ev.Delegated? ==> AwaitsDelegation(before, ev.sent))
    && (ev.Wrote? && ev.entry.ResponseEntry? ==> AwaitsResponse(before, ev.entry.id))
  }

  /** Every event of the history may happen after the events before it. */
  predicate Ordered(t: seq<Event>)
    decreases |t|
  {
    t == [] || (Ordered(t[..|t| - 1]) && MayHappen(t[..|t| - 1], t[|t| - 1]))
  }

  /** What may happen after a history may happen after a longer one that ends the same way. */
  lemma MayHappenAfterMore(a: seq<Event>, before: seq<Event>, ev: Event)
    requires MayHappen(before, ev)
    ensures MayHappen(a + before, ev)
  {
    if |before| >= 1 {
      assert (a + before)[|a + before| - 1] == before[|before| - 1];
    }
    if |before| >= 2 {
      assert (a + before)[|a + before| - 2] == before[|before| - 2];
    }
  }

  /** Two ordered histories, one after the other, make an ordered history. */
  lemma {:induction false} OrderedAppend(a: seq<Event>, b: seq<Event>)
    requires Ordered(a) && Ordered(b)
    ensures Ordered(a + b)
    decreases |b|
  {
    if b == [] {
      assert a + b == a;
    } else {
      var before := b[..|b| - 1];
      OrderedAppend(a, before);
      MayHappenAfterMore(a, before, b[|b| - 1]);
      assert (a + b)[..|a + b| - 1] == a + before;
      assert (a + b)[|a + b| - 1] == b[|b| - 1];
    }
  }

  /** What may be logged after a log may be logged after a longer one that ends the same way. */
  lemma MayLogAfterMore(a: seq<LogEntry>, before: seq<LogEntry>, e: LogEntry)
    requires MayLog(before, e)
    ensures MayLog(a + before, e)
  {
    if before != [] {
      assert (a + before)[|a + before| - 1] == before[|before| - 1];
    }
  }

  /** Two paired logs, one after the other, make a paired log. */
  lemma {:induction false} PairedAppend(a: seq<LogEntry>, b: seq<LogEntry>)
    requires Paired(a) && Paired(b)
    ensures Paired(a + b)
    decreases |b|
  {
    if b == [] {
      assert a + b == a;
    } else {
      var before := b[..|b| - 1];
      PairedAppend(a, before);
      MayLogAfterMore(a, before, b[|b| - 1]);
      assert (a + b)[..|a + b| - 1] == a + before;
      assert (a + b)[|a + b| - 1] == b[|b| - 1];
    }
  }

  /** What the transport does with the request, as seen by the interceptor. */
  datatype TransportOutcome =
    | TransportFailed(err: Error)
    | TransportOk(status: int, body: Option<Source>)

  function TransportObjects(t: TransportOutcome): set<object> {
    if t.TransportOk? && t.body.Some? then {t.body.value} else {}
  }

  /** What reading the transport's response body to the end yields, if it has one. */
  function ResponseRead(t: TransportOutcome): Option<ReadResult> {
    if t.TransportOk? && t.body.Some? then Some(t.body.value.outcome) else None
  }

  predicate ReadFails(b: Option<ReadResult>) {
    b.Some? && b.value.ReadFailed?
  }

  /** The bytes a successfully read body yielded; None when there was no body. */
  function Captured(b: Option<ReadResult>): Option<seq<byte>>
  {
    if b.Some? && b.value.ReadOk? then Some(b.value.data) else None
  }

  /** A response body is logged only when it has at least one byte. */
  function NonEmpty(b: Option<seq<byte>>): Option<seq<byte>>
  {
    if b.Some? && b.value != [] then b else None
  }

  /** A response as its receiver sees it: the status and the bytes its body yields. */
  datatype Reply = Reply(status: int, body: Option<seq<byte>>)

  /** The second half of a round trip: the events after the request entry, and the result. */
  datatype Answer = Answer(events: seq<Event>, result: Result<Reply, Error>)

  /**
   * What happens once the request entry is written: a dry run answers with
   * the zero response and nothing else; otherwise the transport is called
   * with the request as logged; its error, or the error from reading its
   * response body, ends the call; otherwise the response entry is written,
   * with the request's ID, and the caller gets the status and a body
   * replaying the bytes read.
   */
  function Exchange(dryRun: bool, request: LogEntry, transport: TransportOutcome, t0: int, t1: int): Answer
    requires request.RequestEntry?
  {
    if dryRun then Answer([], Success(Reply(0, None)))
    else
      var delegated := Delegated(request.body);
      match transport
      case TransportFailed(e) => Answer([delegated], Failure(e))
      case TransportOk(status, _) =>
        var got := ResponseRead(transport);
        if ReadFails(got) then Answer([delegated], Failure(got.value.err))
        else
          var response := ResponseEntry(t1, t0, request.id, status,
                                        NonEmpty(Captured(got)));
          Answer([delegated, Wrote(response)], Success(Reply(status, Captured(got))))
  }

  /**
   * What happens once the request entry is written, case by case: a dry run
   * answers with the zero response and nothing else; otherwise the transport
   * is called first, with the body bytes the request entry logged; the result
   * succeeds exactly when the transport answers and its body can be read, and
   * only then is the response entry, with the request's ID, written and the
   * status and bytes handed to the caller.
   */
  lemma ExchangeEffects(dryRun: bool, request: LogEntry, transport: TransportOutcome, t0: int, t1: int)
    requires request.RequestEntry?
    ensures var a := Exchange(dryRun, request, transport, t0, t1);
      && (dryRun ==> a.events == [] && a.result == Success(Reply(0, None)))
      && (!dryRun ==>
            && a.events != [] && a.events[0] == Delegated(request.body)
            && |a.events| == (if a.result.Success? then 2 else 1))
      && (a.result.Success? <==> dryRun || (transport.TransportOk? && !ReadFails(ResponseRead(transport))))
      && (a.result.Success? && !dryRun ==>
            && a.result.value == Reply(transport.status, Captured(ResponseRead(transport)))
            && a.events[1] == Wrote(ResponseEntry(t1, t0, request.id,
                                                  transport.status, NonEmpty(Captured(ResponseRead(transport))))))
  {
  }

  /** The effect of one round trip: the events in order, the request's new body bytes, and the result. */
  datatype CallEffect = CallEffect(events: seq<Event>, replayed: Option<seq<byte>>, result: Result<Reply, Error>)

  /**
   * One round trip of the interceptor, given the correlation ID read from the
   * counter, the dry-run flag, the request (its body as what reading it
   * yields), what the transport answers, and the clock readings t0 (before)
   * and t1 (after the transport answered) in nanoseconds since the epoch.
   */
  function Call(id: int16, dryRun: bool, verb: string, url: string, reqBody: Option<ReadResult>,
                transport: TransportOutcome, t0: int, t1: int): CallEffect
  {
    if ReadFails(reqBody) then CallEffect([], None, Failure(reqBody.value.err))
    else
      var sent := Captured(reqBody);
      var request := RequestEntry(t0, id, verb, url, sent);
      var a := Exchange(dryRun, request, transport, t0, t1);
      CallEffect([Wrote(request)] + a.events, sent, a.result)
  }

  /** What one round trip logs, hands to the transport and returns, case by case. */
  lemma CallEffects(id: int16, dryRun: bool, verb: string, url: string, reqBody: Option<ReadResult>,
                    transport: TransportOutcome, t0: int, t1: int)
    ensures var c := Call(id, dryRun, verb, url, reqBody, transport, t0, t1);
      // A request body that cannot be read ends the call with its error: nothing is logged and the transport is not called.
      && (ReadFails(reqBody) ==> c == CallEffect([], None, Failure(reqBody.value.err)))
      // Otherwise the first event is the one write of the request entry, tagged with the ID read from the counter,
      // and the request's body is replaced by a replay of exactly the bytes read.
      && (!ReadFails(reqBody) ==>
            && c.events != []
            && c.events[0] == Wrote(RequestEntry(t0, id, verb, url, Captured(reqBody)))
            && c.replayed == Captured(reqBody))
      // A dry run answers with the zero response after writing only the request entry.
      && (dryRun && !ReadFails(reqBody) ==> |c.events| == 1 && c.result == Success(Reply(0, None)))
      // Out receives a second write, the response entry, only when the whole call succeeds.
      && |Writes(c.events)| == (if ReadFails(reqBody) then 0 else if c.result.Success? && !dryRun then 2 else 1)
      // On full success the caller gets the transport's status and a body replaying exactly the bytes the transport
      // sent, and the response entry carries the same ID, that status, the elapsed time, and the bytes if any.
      && (c.result.Success? && !dryRun ==>
            && transport.TransportOk?
            && c.result.value == Reply(transport.status, Captured(ResponseRead(transport)))
            && c.events[|c.events| - 1] == Wrote(ResponseEntry(t1, t0, id,
                                                 transport.status, NonEmpty(Captured(ResponseRead(transport))))))
      // The call fails on exactly three conditions, each passing its error on unchanged.
      && (c.result.Failure? <==>
            ReadFails(reqBody) || (!dryRun && (transport.TransportFailed? || ReadFails(ResponseRead(transport)))))
      && (c.result.Failure? ==>
            c.result.error == (if ReadFails(reqBody) then reqBody.value.err
                               else if transport.TransportFailed? then transport.err
                               else ResponseRead(transport).value.err))
  {
    if !ReadFails(reqBody) {
      var sent := Captured(reqBody);
      var request := RequestEntry(t0, id, verb, url, sent);
      var a := Exchange(dryRun, request, transport, t0, t1);
      if dryRun {
        WritesOfCallEvents(request, sent, request);
        assert [Wrote(request)] + a.events == [Wrote(request)];
      } else {
        var response := if a.result.Success? then a.events[1].entry else request;
        WritesOfCallEvents(request, sent, response);
        assert [Wrote(request)] + a.events == [Wrote(request), Delegated(sent)] + a.events[1..];
      }
    }
  }

  /**
   * The transport is called exactly when this is not a dry run and reading
   * the request body did not fail, or there is no body; only right after the
   * request entry was written; and it is sent the bytes read (none for a
   * missing body).
   */
  lemma TransportCalledOnce(id: int16, dryRun: bool, verb: string, url: string, reqBody: Option<ReadResult>,
                            transport: TransportOutcome, t0: int, t1: int)
    ensures var c := Call(id, dryRun, verb, url, reqBody, transport, t0, t1);
      && (Delegated(Captured(reqBody)) in c.events <==> !ReadFails(reqBody) && !dryRun)
      && (forall i :: 0 <= i < |c.events| && c.events[i].Delegated? ==> i == 1)
  {
    var c := Call(id, dryRun, verb, url, reqBody, transport, t0, t1);
    CallEffects(id, dryRun, verb, url, reqBody, transport, t0, t1);
    if !ReadFails(reqBody) && !dryRun {
      assert c.events[1] == Delegated(Captured(reqBody));
    }
  }

  lemma AppendAssociates<T>(a: seq<T>, b: seq<T>, c: seq<T>)
    ensures (a + b) + c == a + (b + c)
  {
  }

  /**
   * A call past a readable request body is its request entry followed by the
   * exchange: so a history that has grown by the request entry and then by
   * the exchange has grown by the call's events.
   */
  lemma CallAfterLog(t: seq<Event>, o: seq<LogEntry>, id: int16, dryRun: bool, verb: string, url: string,
                     reqBody: Option<ReadResult>, transport: TransportOutcome, t0: int, t1: int)
    requires !ReadFails(reqBody)
    ensures var request := RequestEntry(t0, id, verb, url, Captured(reqBody));
      var a := Exchange(dryRun, request, transport, t0, t1);
      var c := Call(id, dryRun, verb, url, reqBody, transport, t0, t1);
      && (t + [Wrote(request)]) + a.events == t + c.events
      && (o + [request]) + Writes(a.events) == o + Writes(c.events)
  {
    var request := RequestEntry(t0, id, verb, url, Captured(reqBody));
    var a := Exchange(dryRun, request, transport, t0, t1);
    WritesOfCallEvents(request, request.body, request);
    WritesAppend([Wrote(request)], a.events);
    AppendAssociates(t, [Wrote(request)], a.events);
    AppendAssociates(o, [request], Writes(a.events));
  }

  /** A well-ordered, paired history stays so when one call's events follow it. */
  lemma HistoryAppend(t: seq<Event>, events: seq<Event>)
    requires Ordered(t) && Paired(Writes(t))
    requires Ordered(events) && Paired(Writes(events))
    ensures Writes(t + events) == Writes(t) + Writes(events)
    ensures Ordered(t + events) && Paired(Writes(t + events))
  {
    WritesAppend(t, events);
    OrderedAppend(t, events);
    PairedAppend(Writes(t), Writes(events));
  }

  /** Each call's events are a well-ordered history on their own. */
  lemma CallWellFormed(id: int16, dryRun: bool, verb: string, url: string, reqBody: Option<ReadResult>,
                       transport: TransportOutcome, t0: int, t1: int)
    ensures var c := Call(id, dryRun, verb, url, reqBody, transport, t0, t1);
      Ordered(c.events) && Paired(Writes(c.events))
  {
    var c := Call(id, dryRun, verb, url, reqBody, transport, t0, t1);
    CallEffects(id, dryRun, verb, url, reqBody, transport, t0, t1);
    if c.events != [] {
      var request := c.events[0].entry;
      var sent := Captured(reqBody);
      var last := c.events[|c.events| - 1];
      var response := if last.Wrote? then last.entry else request;
      WritesOfCallEvents(request, sent, response);
      var one, two, three := [Wrote(request)], [Wrote(request), Delegated(sent)], [Wrote(request), Delegated(sent), Wrote(response)];
      assert !ReadFails(reqBody) && request.RequestEntry?;
      assert Ordered(one) by {
        assert one[..0] == [];
        assert MayHappen([], Wrote(request));
      }
      assert Paired([request]) by {
        assert [request][..0] == [];
        assert MayLog([], request);
      }
      assert Ordered(two) by {
        assert two[..1] == one;
      }
      if |c.events| == 3 {
        assert c.events == three;
        assert Ordered(three) by {
          assert three[..2] == two;
        }
        assert Paired([request, response]) by {
          assert [request, response][..1] == [request];
        }
      } else if |c.events| == 2 {
        assert c.events == two;
      } else {
        assert c.events == one;
      }
    }
  }

  /**
   * A well-ordered history whose log pairs every response with its request
   * stays so after any further call: entries of different calls never
   * interleave, whatever each call's outcome.
   */
  lemma CallExtendsHistory(t: seq<Event>, id: int16, dryRun: bool, verb: string, url: string,
                           reqBody: Option<ReadResult>, transport: TransportOutcome, t0: int, t1: int)
    requires Ordered(t) && Paired(Writes(t))
    ensures var c := Call(id, dryRun, verb, url, reqBody, transport, t0, t1);
      Ordered(t + c.events) && Paired(Writes(t + c.events))
  {
    CallWellFormed(id, dryRun, verb, url, reqBody, transport, t0, t1);
    HistoryAppend(t, Call(id, dryRun, verb, url, reqBody, transport, t0, t1).events);
  }

  /** What reading an optional body to the end would yield now. */
  function PendingOf(b: Option<Body>): Option<ReadResult>
    reads BodyObjects(b)
  {
    match b
    case None => None
    case Some(body) => Some(Pending(body))
  }

  /**
   * The request side's body handling: a body is read to the end and closed;
   * when reading succeeded, it is replaced by a fresh replay of the bytes read.
   */
  method CaptureRequestBody(req: Request) returns (got: Option<ReadResult>)
    modifies req, BodyObjects(req.body)
    ensures got == old(PendingOf(req.body))
    ensures got.Some? && got.value.ReadOk? ==>
      && req.body.Some? && req.body.value.Replay? && fresh(req.body.value.reader)
      && req.body.value.reader.data == got.value.data && req.body.value.reader.pos == 0
    ensures !(got.Some? && got.value.ReadOk?) ==> req.body == old(req.body)
    ensures old(req.body).Some? && old(req.body).value.Original? ==> old(req.body).value.src.closed
    ensures old(req.body).Some? && old(req.body).value.Replay? ==> old(req.body).value.reader.Unread() == []
  {
    got := None;
    if req.body.Some? {
      var rr := ReadAllAndClose(req.body.value);
      got := Some(rr);
      if rr.ReadOk? {
        var reader := new ReplayReader(rr.data);
        req.body := Some(Replay(reader));
      }
    }
  }

  /**
   * The response side's body handling: the transport's body, if any, is read
   * to the end and closed, and a fresh replay of the bytes read is made for
   * the caller.
   */
  method CaptureResponseBody(body: Option<Source>) returns (got: Option<ReadResult>, replay: Option<Body>)
    modifies if body.Some? then {body.value} else {}
    ensures got == (if body.Some? then Some(body.value.outcome) else None)
    ensures body.Some? ==> body.value.closed
    ensures replay.Some? <==> got.Some? && got.value.ReadOk?
    ensures replay.Some? ==>
      && replay.value.Replay? && fresh(replay.value.reader)
      && replay.value.reader.data == got.value.data && replay.value.reader.pos == 0
  {
    got, replay := None, None;
    if body.Some? {
      var rr := ReadAllAndClose(Original(body.value));
      got := Some(rr);
      if rr.ReadOk? {
        var reader := new ReplayReader(rr.data);
        replay := Some(Replay(reader));
      }
    }
  }

  function ResultObjects(r: Result<Response, Error>): set<object> {
    if r.Success? then BodyObjects(r.value.body) else {}
  }

  /** A result as its receiver sees it: the error, or the status and what reading the body yields. */
  function Received(r: Result<Response, Error>): Result<Reply, Error>
    reads ResultObjects(r)
  {
    match r
    case Failure(e) => Failure(e)
    case Success(resp) => Success(Reply(resp.status, Captured(PendingOf(resp.body))))
  }

  /**
   * The interceptor. `out` is everything written to the Out writer, one
   * element per Write call; `trace` is the ghost history of writes and
   * calls to the transport.
   */
  class LogRoundTripper {
    const dryRun: bool
    var out: seq<LogEntry>
    var requestID: int16
    ghost var trace: seq<Event>

    ghost predicate Valid()
      reads this`out, this`trace
    {
      out == Writes(trace) && Ordered(trace) && Paired(out)
    }

    /** A new interceptor: its counter starts at zero and nothing has been written. */
    constructor (dryRun: bool)
      ensures Valid()
      ensures this.dryRun == dryRun && requestID == 0 && out == [] && trace == []
    {
      this.dryRun := dryRun;
      out := [];
      requestID := 0;
      trace := [];
    }

    /** `lrt.Out.Write(buf.Bytes())`: one whole entry is appended to the log in a single write. */
    method Write(e: LogEntry)
      requires Valid()
      requires e.ResponseEntry? ==> AwaitsResponse(trace, e.id)
      modifies this`out, this`trace
      ensures Valid()
      ensures out == old(out) + [e] && trace == old(trace) + [Wrote(e)]
    {
      WritesAppend(trace, [Wrote(e)]);
      // Only its first clause, Writes([Wrote(e)]) == [e], is needed; the other arguments are unused.
      WritesOfCallEvents(e, None, e);
      assert (trace + [Wrote(e)])[..|trace|] == trace;
      assert (out + [e])[..|out|] == out;
      if e.ResponseEntry? {
        var n := |trace|;
        var prefix := trace[..n - 2];
        assert trace == prefix + [trace[n - 2], Delegated(trace[n - 1].sent)];
        WritesAppend(prefix, [trace[n - 2], Delegated(trace[n - 1].sent)]);
        WritesOfCallEvents(trace[n - 2].entry, trace[n - 1].sent, e);
      }
      out := out + [e];
      trace := trace + [Wrote(e)];
    }

    /** The hand-over of the request to the transport, recorded in the ghost history. */
    ghost method Delegate(sent: Option<seq<byte>>)
      requires Valid() && AwaitsDelegation(trace, sent)
      modifies this`trace
      ensures Valid()
      ensures trace == old(trace) + [Delegated(sent)]
    {
      WritesAppend(trace, [Delegated(sent)]);
      assert Writes([Delegated(sent)]) == [] by {
        assert [Delegated(sent)][1..] == [];
      }
      assert (trace + [Delegated(sent)])[..|trace|] == trace;
      trace := trace + [Delegated(sent)];
    }

    /**
     * The first block of `RoundTrip`: the request body, if any, is read to the
     * end, closed and replaced by a replay of the bytes read; then the request
     * entry is written to Out in one write. A body that cannot be read stops
     * the block before anything is written.
     */
    method LogRequest(req: Request, id: int16, t0: int) returns (got: Option<ReadResult>)
      requires Valid()
      modifies this`out, this`trace, req, BodyObjects(req.body)
      ensures Valid()
      ensures got == old(PendingOf(req.body))
      ensures ReadFails(got) ==> trace == old(trace) && out == old(out)
      ensures !ReadFails(got) ==>
        var e := RequestEntry(t0, id, req.verb, req.url, Captured(got));
        trace == old(trace) + [Wrote(e)] && out == old(out) + [e]
      ensures got.Some? && got.value.ReadOk? ==>
        && req.body.Some? && req.body.value.Replay? && fresh(req.body.value.reader)
        && req.body.value.reader.data == got.value.data && req.body.value.reader.pos == 0
      ensures !(got.Some? && got.value.ReadOk?) ==> req.body == old(req.body)
      ensures old(req.body).Some? && old(req.body).value.Original? ==> old(req.body).value.src.closed
      ensures old(req.body).Some? && old(req.body).value.Replay? ==>
        old(req.body).value.reader.pos >= |old(req.body).value.reader.data|
    {
      ghost var reader: ReplayReader? := if req.body.Some? && req.body.value.Replay? then req.body.value.reader else null;
      got := CaptureRequestBody(req);
      assert reader != null ==> reader.pos >= |reader.data|;
      if !ReadFails(got) {
        ghost var body := req.body;
        Write(RequestEntry(t0, id, req.verb, req.url, Captured(got)));
        assert req.body == body;
      }
    }

    /**
     * The second block of `RoundTrip`: a dry run answers with the zero
     * response; otherwise the request goes to the transport.
     */
    method Forward(request: LogEntry, transport: TransportOutcome, t0: int, t1: int) returns (r: Result<Response, Error>)
      requires Valid() && request.RequestEntry?
      requires trace != [] && trace[|trace| - 1] == Wrote(request)
      modifies this`out, this`trace, if dryRun then {} else TransportObjects(transport)
      ensures Valid()
      ensures var a := Exchange(dryRun, request, transport, t0, t1);
        && trace == old(trace) + a.events
        && out == old(out) + Writes(a.events)
        && Received(r) == a.result
      ensures r.Success? && r.value.body.Some? ==>
        r.value.body.value.Replay? && fresh(r.value.body.value.reader) && r.value.body.value.reader.pos == 0
      ensures !dryRun && transport.TransportOk? && transport.body.Some? ==> transport.body.value.closed
      ensures dryRun ==> r == Success(ZeroResponse)
    {
      if dryRun {
        assert trace == old(trace) + [] && out == old(out) + Writes([]);
        return Success(ZeroResponse);
      }
      r := Transmit(request, transport, t0, t1);
    }

    /**
     * The transport is called with the request; its error is passed on;
     * otherwise its response is received.
     */
    method Transmit(request: LogEntry, transport: TransportOutcome, t0: int, t1: int) returns (r: Result<Response, Error>)
      requires Valid() && request.RequestEntry?
      requires trace != [] && trace[|trace| - 1] == Wrote(request)
      modifies this`out, this`trace, TransportObjects(transport)
      ensures Valid()
      ensures var a := Exchange(false, request, transport, t0, t1);
        && trace == old(trace) + a.events
        && out == old(out) + Writes(a.events)
        && Received(r) == a.result
      ensures r.Success? && r.value.body.Some? ==>
        r.value.body.value.Replay? && fresh(r.value.body.value.reader) && r.value.body.value.reader.pos == 0
      ensures transport.TransportOk? && transport.body.Some? ==> transport.body.value.closed
    {
      ghost var t := trace;
      ghost var delegated := Delegated(request.body);
      Delegate(request.body);
      WritesOfCallEvents(request, request.body, request);
      match transport
      case TransportFailed(e) =>
        return Failure(e);
      case TransportOk(status, body) =>
        r := Receive(request, status, body, t0, t1);
        AppendAssociates(t, [delegated], trace[|t| + 1..]);
    }

    /**
     * The transport's response: its body, if any, is read to the end and
     * closed; an error from reading it is passed on; otherwise the body is
     * replaced by a replay of the bytes read and the response entry, with
     * the request's ID, is written to Out in one write.
     */
    method Receive(request: LogEntry, status: int, body: Option<Source>, t0: int, t1: int) returns (r: Result<Response, Error>)
      requires Valid() && request.RequestEntry?
      requires |trace| >= 2 && trace[|trace| - 2] == Wrote(request) && trace[|trace| - 1] == Delegated(request.body)
      modifies this`out, this`trace, if body.Some? then {body.value} else {}
      ensures Valid()
      ensures var got := ResponseRead(TransportOk(status, body));
        && (ReadFails(got) ==> trace == old(trace) + [] && out == old(out) + [] && r == Failure(got.value.err))
        && (!ReadFails(got) ==>
              var response := ResponseEntry(t1, t0, request.id, status, NonEmpty(Captured(got)));
              && trace == old(trace) + [Wrote(response)] && out == old(out) + [response]
              && Received(r) == Success(Reply(status, Captured(got))))
      ensures r.Success? && r.value.body.Some? ==>
        r.value.body.value.Replay? && fresh(r.value.body.value.reader) && r.value.body.value.reader.pos == 0
      ensures body.Some? ==> body.value.closed
    {
      var received, replay := CaptureResponseBody(body);
      if ReadFails(received) {
        return Failure(received.value.err);
      }
      var response := ResponseEntry(t1, t0, request.id, status, NonEmpty(Captured(received)));
      Write(response);
      r := Success(Response(status, replay));
    }

    /**
     * Everything `RoundTrip` does after reading and advancing the counter,
     * for the correlation ID `id` it read, where `pending` is what reading
     * the request body would yield: the effect is the one `Call` gives.
     * The ghost parameters `pending` and `body` only name `PendingOf(req.body)`
     * and `req.body` on entry, so the contract can speak of them without `old`,
     * which keeps its proof small.
     */
    method Serve(req: Request, id: int16, transport: TransportOutcome, t0: int, t1: int, ghost pending: Option<ReadResult>,
                 ghost body: Option<Body>)
      returns (r: Result<Response, Error>)
      requires Valid() && pending == PendingOf(req.body) && body == req.body
      requires TransportObjects(transport) !! BodyObjects(req.body)
      modifies this`out, this`trace, req, BodyObjects(req.body)
      modifies if dryRun || ReadFails(pending) then {} else TransportObjects(transport)
      ensures Valid()
      ensures ReadFails(pending) ==> trace == old(trace) && out == old(out) && r == Failure(pending.value.err)
      ensures !ReadFails(pending) ==>
        var request := RequestEntry(t0, id, req.verb, req.url, Captured(pending));
        var a := Exchange(dryRun, request, transport, t0, t1);
        && trace == (old(trace) + [Wrote(request)]) + a.events
        && out == (old(out) + [request]) + Writes(a.events)
        && Received(r) == a.result
      // A body read to the end is replaced by a fresh replay of exactly the bytes read; otherwise the body stays.
      ensures !(pending.Some? && pending.value.ReadOk?) ==> req.body == body
      ensures pending.Some? && pending.value.ReadOk? ==>
        && req.body.Some? && req.body.value.Replay? && fresh(req.body.value.reader)
        && req.body.value.reader.data == pending.value.data && req.body.value.reader.pos == 0
      ensures r.Success? && r.value.body.Some? ==>
        r.value.body.value.Replay? && fresh(r.value.body.value.reader) && r.value.body.value.reader.pos == 0
      ensures body.Some? && body.value.Original? ==> body.value.src.closed
      ensures body.Some? && body.value.Replay? ==> body.value.reader.pos >= |body.value.reader.data|
      ensures !dryRun && !ReadFails(pending) && transport.TransportOk? && transport.body.Some? ==>
                transport.body.value.closed
      ensures dryRun && r.Success? ==> r == Success(ZeroResponse)
    {
      var got := LogRequest(req, id, t0);
      if ReadFails(got) {
        return Failure(got.value.err);
      }
      var request := RequestEntry(t0, id, req.verb, req.url, Captured(got));
      r := Forward(request, transport, t0, t1);
    }

    /**
     * `RoundTrip(req)` with the transport's answer and the two clock readings
     * given as inputs. The counter moves on by one (with int16 wrap-around)
     * before anything else, so on every path; the history grows by exactly the
     * events `Call` gives for the counter's old value, and the caller receives
     * the result `Call` gives; the request body and the response body are
     * replaced by fresh replays of what was read; the original streams are
     * closed.
     */
    method RoundTrip(req: Request, transport: TransportOutcome, t0: int, t1: int) returns (r: Result<Response, Error>)
      requires Valid()
      // The transport only ever sees the request after its body was replaced, so the
      // stream it answers with is never the caller's original request stream.
      requires TransportObjects(transport) !! BodyObjects(req.body)
      modifies this`requestID, this`out, this`trace, req, BodyObjects(req.body)
      // The transport's stream may change only when the transport is called.
      modifies if dryRun || ReadFails(PendingOf(req.body)) then {} else TransportObjects(transport)
      ensures Valid()
      ensures requestID == Inc(old(requestID))
      ensures var c := Call(old(requestID), dryRun, req.verb, req.url, old(PendingOf(req.body)), transport, t0, t1);
        && trace == old(trace) + c.events
        && out == old(out) + Writes(c.events)
        && Received(r) == c.result
      // A body read to the end is replaced by a fresh replay of exactly the bytes read; otherwise the body stays.
      ensures var p := old(PendingOf(req.body)); !(p.Some? && p.value.ReadOk?) ==> req.body == old(req.body)
      ensures var p := old(PendingOf(req.body)); p.Some? && p.value.ReadOk? ==>
        && req.body.Some? && req.body.value.Replay? && fresh(req.body.value.reader)
        && req.body.value.reader.data == p.value.data && req.body.value.reader.pos == 0
      // A response body the caller receives is a fresh replay, positioned at its start.
      ensures r.Success? && r.value.body.Some? ==>
        r.value.body.value.Replay? && fresh(r.value.body.value.reader) && r.value.body.value.reader.pos == 0
      // The caller's original request stream is closed once read, even when reading it failed.
      ensures old(req.body).Some? && old(req.body).value.Original? ==> old(req.body).value.src.closed
      // A replay the caller passed in is read to its end.
      ensures old(req.body).Some? && old(req.body).value.Replay? ==>
        old(req.body).value.reader.pos >= |old(req.body).value.reader.data|
      // The transport's response stream is closed once the transport has answered with it.
      ensures !dryRun && !ReadFails(old(PendingOf(req.body))) && transport.TransportOk? && transport.body.Some? ==>
                transport.body.value.closed
      // In dry-run mode, a call whose request body reads (or that has none) answers as DryRunRoundTripper does.
      ensures dryRun && r.Success? ==> r == DryRun.RoundTrip(req)
    {
      ghost var pending := PendingOf(req.body);
      var thisID := requestID;
      requestID := Inc(requestID);
      assert this !in BodyObjects(req.body) && this !in TransportObjects(transport);
      ghost var t, o, body := trace, out, req.body;
      r := Serve(req, thisID, transport, t0, t1, pending, body);
      assert body == old(req.body);
      if ReadFails(pending) {
        assert trace == t + [] && out == o + [];
      } else {
        CallAfterLog(t, o, thisID, dryRun, req.verb, req.url, pending, transport, t0, t1);
      }
    }
  }
}
