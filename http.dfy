/**
 * The slice of net/http and io that the interceptor touches: a request whose
 * body it may replace, a response value, and the two kinds of body stream it
 * meets. An original stream (one handed in by the caller or produced by the
 * transport) is read by I/O the model does not see, so it is given by the
 * outcome that reading it to the end produces. A replay stream is the
 * interceptor's own `readCloser` around a `bytes.Reader` over captured bytes.
 */
module Http {
  import opened Wrappers

  newtype byte = x: int | 0 <= x < 256

  /** A Go error value; its text is all a caller can inspect. */
  datatype Error = Error(message: string)

  /** What `ioutil.ReadAll` yields: every byte of the stream, or the error that stopped it. */
  datatype ReadResult = ReadOk(data: seq<byte>) | ReadFailed(err: Error)

  /** A body stream that reaches the interceptor from outside: its content and whether it is closed. */
  class Source {
    const outcome: ReadResult
    var closed: bool

    constructor (outcome: ReadResult)
      ensures this.outcome == outcome && !closed
    {
      this.outcome := outcome;
      closed := false;
    }

    /** Releases the stream; any error it returns is ignored by the interceptor. */
    method Close()
      modifies this
      ensures closed
    {
      closed := true;
    }
  }

  /**
   * `readCloser{bytes.NewReader(b)}`: reads b once, front to back, and has a
   * Close that does nothing. `pos` is the reader's offset; an offset past the
   * end is allowed by the type but never reached, since nothing can seek it.
   */
  class ReplayReader {
    const data: seq<byte>
    var pos: nat

    constructor (data: seq<byte>)
      ensures this.data == data && pos == 0
    {
      this.data := data;
      pos := 0;
    }

    /** The bytes a reader still has to deliver. */
    function Unread(): (u: seq<byte>)
      reads this
      ensures pos == 0 ==> u == data
    {
      if pos <= |data| then data[pos..] else []
    }

    /**
     * `Read` into a buffer of n bytes: at the end it reports end-of-stream and
     * moves nothing; otherwise it delivers as many of the unread bytes as fit.
     */
    method Read(n: nat) returns (chunk: seq<byte>, eof: bool)
      modifies this
      ensures eof <==> old(Unread()) == []
      ensures eof ==> chunk == [] && pos == old(pos)
      ensures !eof ==> |chunk| == (if n < |old(Unread())| then n else |old(Unread())|)
      ensures old(Unread()) == chunk + Unread()
    {
      if pos >= |data| {
        return [], true;
      }
      var k := if n < |data| - pos then n else |data| - pos;
      chunk, eof := data[pos..pos + k], false;
      pos := pos + k;
    }

    /** Closing a replay stream always succeeds and changes nothing. */
    method Close() returns (err: Option<Error>)
      ensures err == None
    {
      err := None;
    }

    /** `ioutil.ReadAll` over this reader: it yields exactly the unread bytes and leaves none. */
    method Drain() returns (all: seq<byte>)
      modifies this
      ensures all == old(Unread())
      ensures Unread() == []
    {
      all := [];
      var done := false;
      while !done
        invariant all + Unread() == old(Unread())
        invariant done ==> Unread() == []
        decreases if pos <= |data| then |data| - pos else 0, !done
      {
        var chunk, eof := Read(512);
        if eof {
          done := true;
        } else {
          all := all + chunk;
        }
      }
    }
  }

  /** An `io.ReadCloser` as the interceptor meets it: an outside stream or one of its own replays. */
  datatype Body = Original(src: Source) | Replay(reader: ReplayReader)

  /** The objects that reading and closing an optional body may change. */
  function BodyObjects(b: Option<Body>): set<object> {
    match b
    case None => {}
    case Some(Original(src)) => {src}
    case Some(Replay(reader)) => {reader}
  }

  /** What reading the body to the end would yield now. */
  function Pending(b: Body): ReadResult
    reads if b.Replay? then {b.reader} else {}
  {
    match b
    case Original(src) => src.outcome
    case Replay(reader) => ReadOk(reader.Unread())
  }

  /** `ioutil.ReadAll(body)` followed by `body.Close()`, the pair the interceptor performs on every body. */
  method ReadAllAndClose(b: Body) returns (rr: ReadResult)
    modifies BodyObjects(Some(b))
    ensures rr == old(Pending(b))
    ensures b.Original? ==> b.src.closed
    ensures b.Replay? ==> b.reader.Unread() == []
  {
    match b
    case Original(src) =>
      rr := src.outcome;
      src.Close();
    case Replay(reader) =>
      var all := reader.Drain();
      var _ := reader.Close();
      rr := ReadOk(all);
  }

  /**
   * An outgoing request: its HTTP method (called `verb` here, since `method`
   * is a Dafny keyword) and URL are never changed, its body is replaced in place.
   */
  class Request {
    const verb: string
    const url: string
    var body: Option<Body>

    constructor (verb: string, url: string, body: Option<Body>)
      ensures this.verb == verb && this.url == url && this.body == body
    {
      this.verb := verb;
      this.url := url;
      this.body := body;
    }
  }

  /** The two fields of a response the interceptor reads or writes. */
  datatype Response = Response(status: int, body: Option<Body>)

  /** `http.Response{}`: status 0 and no body. */
  const ZeroResponse := Response(0, None)
}
