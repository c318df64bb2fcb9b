# logroundtripper in Dafny

A model of `logroundtripper`, a Go `http.RoundTripper` that wraps an HTTP transport and logs each exchange to an `io.Writer`. The model covers two round trippers:

- `LogRoundTripper.RoundTrip`. For each request it:
  - takes a 16-bit correlation ID from a counter and advances it;
  - reads the request body, closes it and replaces it with a replay of the same bytes;
  - writes a request entry to `Out`;
  - passes the request to the transport, unless it is in dry-run mode;
  - reads, closes and replaces the response body the same way;
  - writes a response entry carrying the same ID.
- `DryRunRoundTripper.RoundTrip`: a stub that answers every request with an empty response.

## Files

| file | contents |
|---|---|
| `wrappers.dfy` | `Option` and `Result`. |
| `go_int.dfy` | Go's `int16` counter with its wrap-around, and Go's `/` and `%`, which truncate toward zero. |
| `go_fmt.dfy` | fmt's `%d`, `%x`, `%03d` and `%04x` for integers. A parser reads each output back. |
| `http.dfy` | Request, response, body streams and the replay reader, which models `readCloser` around a `bytes.Reader`. |
| `log_entry.dfy` | The two log entries and the exact text of their header lines. A header parser serves as the partner. |
| `dry_run.dfy` | `DryRunRoundTripper`. |
| `interceptor.dfy` | `LogRoundTripper`. |

## How the model is built

**`Call` is the specification of one round trip, as a value.** Given its inputs, it returns three things:

- the observable events in order: each `Write` of a log entry, and the hand-over to the transport;
- the bytes the request body replays afterwards;
- the result the caller gets.

Its inputs are the counter value, the dry-run flag, the request, what reading the request body yields, what the transport answers, and the two clock readings.

**Lemmas state what `Call` does:**

- `CallEffects`: the outcome in each case.
- `TransportCalledOnce`: when the transport is called.
- `CallWellFormed` and `CallExtendsHistory`: entries of different calls never interleave.

**The class `LogRoundTripper` holds the interceptor's mutable state.** Its fields:

- the counter `requestID`;
- `out`, everything written to `Out`;
- a ghost `trace` of events.

Its method `RoundTrip` follows the Go method block by block:

- `LogRequest` is lines 34-51;
- `Forward` is lines 52-55;
- `Transmit` is lines 57-60;
- `Receive` is lines 61-78.

**What `RoundTrip` is proved to do:**

- advance the counter with int16 wrap-around on every path;
- extend `trace` and `out` by exactly what `Call` gives for the old counter value;
- hand the caller what `Call` says;
- replace bodies by fresh replays of the bytes read;
- close the original streams.
- read to its end a replay the caller passed in;
- leave the transport's stream alone when the transport is not called: its `modifies` clause names that stream only for a call that reaches the transport.

**The class invariant `Valid`** states three things. First, `out` holds exactly the entries written. Second, the history is ordered: the transport is only called right after a request entry, with the bytes that entry logged, and a response entry is only written right after a transport call. Third, every response entry directly follows the request entry with the same ID.

**How the Go code differs from a plain reading of its format strings.** The model follows the code in each case:

- **The header's field after the seconds is not milliseconds.** It is `UnixNano() % 1000`, the last three digits of the nanosecond count, printed with `%03d`. Before 1970 it is zero or negative, because Go's `%` takes the sign of the dividend. See `NanoField`.
- **The ID can be negative.** The ID is an `int16` printed with `%04x`. Starting from 0, the first 32768 calls get the IDs 0 to 32767; the counter then wraps, and call 32769 logs -32768. For negative IDs the minus sign counts toward the width of four, so -4095 to -1 print in four characters (`-001` for -1) and -4096 down to -32768 in five (`-8000` for -32768). See `IdTextNegative`, `IdTextMinusOne` and `IdTextMinimum`.
- **The elapsed time is truncated toward zero.** It is `t1.Sub(t0).Nanoseconds()/1000000` in whole milliseconds, with Go's truncating division. See `ElapsedMillis`.

## Model

| member | source | states |
|---|---|---|
| GoInt.Inc | logroundtripper.go:32 | Definition of `requestID++` with no contract of its own: one more, except that 32767 wraps to -32768. Its meaning is proved by `IncIsWrap`, `IncNIsWrap`, `CounterPeriod` and `CounterDistinct`. |
| GoInt.Wrap16 | logroundtripper.go:18 | The int16 result is congruent to its input modulo 2^16, and equals it when the input is in range. |
| GoInt.IncIsWrap | logroundtripper.go:32 | `requestID++` on an int16 is two's-complement addition of one: 32767 becomes -32768. |
| GoInt.IncNIsWrap | logroundtripper.go:31-32 | After n calls the counter holds its start plus n, wrapped to int16. |
| GoInt.CounterPeriod | logroundtripper.go:31-32 | The counter returns to its start after exactly 65536 calls. |
| GoInt.CounterDistinct | logroundtripper.go:31-32 | Calls fewer than 65536 apart get different IDs. |
| GoInt.WrapOnce | logroundtripper.go:32 | Just above the int16 range, wrapping subtracts 2^16 exactly once. |
| GoInt.GoQuo | logroundtripper.go:64 | Go's integer `/` with a positive divisor truncates toward zero. The bounds on quotient times divisor hold on both signs. |
| GoInt.GoRem | logroundtripper.go:37 | Go's `%` takes the sign of the dividend, stays below the divisor in magnitude, and completes the truncated quotient to the dividend. |
| GoFmt.FormatInt | logroundtripper.go:37 | Definition of fmt's `%d`, `%x`, `%03d` and `%04x` with no contract of its own: a minus sign, then the digits zero-padded to the width less the sign. Its meaning is proved by `FormatIntRoundTrip`, `FormatIntWidth` and `FormatIntChars`. |
| GoFmt.DigitValue | logroundtripper.go:37 | A digit character's value is below 16 and maps back to the same character. |
| GoFmt.Digits | logroundtripper.go:37 | The digits of a natural number are all digits of the base. There is at least one, and there is no leading zero unless the number is zero. |
| GoFmt.PadLeft | logroundtripper.go:37 | Zero padding reaches the width, keeps the digits as the suffix, and adds only '0's. |
| GoFmt.ParseDigits | logroundtripper.go:37 | A parsed digit string is non-empty and consists only of digits of the base. |
| GoFmt.FormatIntRoundTrip | logroundtripper.go:37 | Everything `%d`/`%x` (zero-padded or not) prints for an integer reads back as that integer, negative numbers included. |
| GoFmt.ParseDigitsOfDigits | logroundtripper.go:37 | The unpadded digits of a natural number read back as that number. |
| GoFmt.ParseLeadingZeros | logroundtripper.go:37 | Leading zeros do not change a digit string's value. |
| GoFmt.FormatIntWidth | logroundtripper.go:37 | A number whose digits (plus sign) fit the width prints in exactly that many characters. |
| GoFmt.FormatIntChars | logroundtripper.go:37 | The output contains only digits of the base and the minus sign. |
| GoFmt.DigitsLength | logroundtripper.go:37 | A number below base^k has at most k digits. |
| GoFmt.DigitsLengthAtLeast | logroundtripper.go:37 | A number at least base^(k-1) has at least k digits. |
| LogEntries.UnixSeconds | logroundtripper.go:37 | `t.Unix()` is the whole number of seconds, rounded down, so pre-1970 times get floor seconds. |
| LogEntries.NanoField | logroundtripper.go:37 | `t.UnixNano()%1000` lies strictly between -1000 and 1000, is non-negative from the epoch on and zero or negative before it, and leaves the nanosecond count divisible by 1000 when subtracted. |
| LogEntries.ElapsedMillis | logroundtripper.go:64 | The elapsed milliseconds bound the nanosecond difference from below when t0 <= t1 and from above otherwise, truncated toward zero. |
| LogEntries.IdText | logroundtripper.go:37 | Definition of `%04x` of `thisID` with no contract of its own. Its meaning is proved by `IdTextNonNegative`, `IdTextNegative`, `IdTextMinusOne` and `IdTextMinimum`. |
| LogEntries.IdTextNonNegative | logroundtripper.go:37 | `%04x` of an ID in 0..32767 is exactly four hex digits. |
| LogEntries.IdTextNegative | logroundtripper.go:37 | A negative ID prints with a leading '-': four characters above -4096, five from -4096 down. |
| LogEntries.IdTextMinusOne | logroundtripper.go:37 | The ID -1 prints as "-001". |
| LogEntries.IdTextMinimum | logroundtripper.go:37 | The ID -32768 prints as "-8000". |
| LogEntries.SplitAt | logroundtripper.go:37 | The split parts rebuild the text around the separator, and the first part contains no separator. |
| LogEntries.SplitAtJoin | logroundtripper.go:37 | Text joined at a separator that the left part does not contain splits back into the same parts. |
| LogEntries.After | logroundtripper.go:37 | The rest, with the prefix put back, rebuilds the text. |
| LogEntries.ParseRequestText | logroundtripper.go:37 | The numbers of a request header line parse back from their texts. |
| LogEntries.ParseStatusText | logroundtripper.go:64 | The elapsed time, ID and status of a response header line parse back from their texts. |
| LogEntries.ParseResponseText | logroundtripper.go:64 | The numbers of a response header line parse back from their texts. |
| LogEntries.NumberText | logroundtripper.go:37 | A formatted number parses back and contains none of the header's separators. |
| LogEntries.Header | logroundtripper.go:64 | Definition of the two header lines (the request's at line 37, the response's at line 64), with the `--` separator line, with no contract of its own. `HeaderRoundTrip` proves that every number it prints reads back. |
| LogEntries.HeaderRoundTrip | logroundtripper.go:37 | Parsing the rendered header line of any request or response entry recovers its seconds, nanosecond field, elapsed time, ID and status. |
| Http.ReplayReader.constructor | logroundtripper.go:47 | A new replay reader delivers exactly the captured bytes from the start. |
| Http.ReplayReader.Unread | logroundtripper.go:47 | At position 0 the unread bytes are all the data. |
| Http.ReplayReader.Read | logroundtripper.go:47 | A read reports end-of-stream exactly when nothing is left. Otherwise it delivers as many unread bytes as fit the buffer, in order, and consumes them. |
| Http.ReplayReader.Close | logroundtripper.go:25-27 | `readCloser.Close` always returns no error. |
| Http.ReplayReader.Drain | logroundtripper.go:41 | `ioutil.ReadAll` over a replay yields exactly its unread bytes and leaves none. |
| Http.Source.Close | logroundtripper.go:42 | A closed original stream is marked closed. |
| Http.ReadAllAndClose | logroundtripper.go:41-42 | Reading a body to the end and closing it yields what it held. An original stream ends up closed, a replay ends up drained. |
| Interceptor.Writes | logroundtripper.go:50 | The log has at most as many entries as there are events. |
| Interceptor.WritesAppend | logroundtripper.go:50 | The log of two histories in sequence is the two logs in sequence. |
| Interceptor.WritesOfCallEvents | logroundtripper.go:50 | The log of each possible event sequence of a call: one or two entries. |
| Interceptor.OrderedAppend | logroundtripper.go:30-80 | Two well-ordered histories in sequence form a well-ordered history. |
| Interceptor.PairedAppend | logroundtripper.go:37 | Two paired logs in sequence form a paired log. |
| Interceptor.MayHappenAfterMore | logroundtripper.go:30-80 | An event allowed after a history is still allowed after a longer history with the same ending. |
| Interceptor.MayLogAfterMore | logroundtripper.go:64 | An entry allowed after a log is still allowed after a longer log with the same ending. |
| Interceptor.Captured | logroundtripper.go:41-47 | Definition with no contract of its own: the bytes read when a body existed and was read, otherwise none. Its meaning in a call is proved by `CallEffects` and `ExchangeEffects`. |
| Interceptor.NonEmpty | logroundtripper.go:72-74 | Definition with no contract of its own: a response body is logged only when it has at least one byte. Its meaning in a call is proved by `CallEffects` and `ExchangeEffects`. |
| Interceptor.Exchange | logroundtripper.go:52-79 | Definition of the second block as events and a result, with no contract of its own. Its meaning is proved by `ExchangeEffects`. |
| Interceptor.ExchangeEffects | logroundtripper.go:52-79 | Of the specification function `Exchange`: a dry run produces no event and the zero response. Otherwise the transport is called first, with the logged body bytes. The result succeeds exactly when the transport succeeds and its body reads. Only then is the response entry, with the request's ID, status and bytes, written, and the caller gets that status and those bytes. |
| Interceptor.Call | logroundtripper.go:30-80 | Definition of one whole round trip as events and a result, with no contract of its own. Its meaning is proved by `CallEffects`, `TransportCalledOnce`, `CallWellFormed` and `CallExtendsHistory`, and `RoundTrip` is proved to do exactly what it gives. |
| Interceptor.CallEffects | logroundtripper.go:30-80 | The outcome of a round trip in each case. An unreadable request body ends the call with its error and no write. Otherwise the first event is the request entry with the counter's ID and the body is replayed. A dry run writes only that entry. A second write happens exactly on full success. The call fails in exactly three cases, each passing its own error on. |
| Interceptor.TransportCalledOnce | logroundtripper.go:52-57 | The transport is called exactly when this is not a dry run and reading the request body did not fail, or there is no body. It is called only as the second event, right after the request entry, and with the bytes read (none for a missing body). |
| Interceptor.CallAfterLog | logroundtripper.go:34-79 | A readable call is its request entry followed by its exchange, for both the history and the log. |
| Interceptor.HistoryAppend | logroundtripper.go:30-80 | Ordering and pairing survive appending one well-formed history to another. |
| Interceptor.CallWellFormed | logroundtripper.go:30-80 | Each call's own events are ordered, and its log pairs the response with its request. |
| Interceptor.CallExtendsHistory | logroundtripper.go:30-80 | After any number of sequential calls, every response entry directly follows its own request entry, whatever each call's outcome. |
| Interceptor.CaptureRequestBody | logroundtripper.go:39-48 | The request body is read to the end and closed, even when reading fails. When reading succeeds, the body is replaced by a fresh replay of exactly those bytes. Otherwise it is left as it was. A body that was already a replay ends up drained. |
| Interceptor.CaptureResponseBody | logroundtripper.go:65-76 | The response body is read to the end and closed. A fresh replay of the bytes is made exactly when reading succeeded. |
| Interceptor.LogRoundTripper.Valid | logroundtripper.go:30-80 | The class invariant, a definition with no contract of its own. `out` is exactly the entries written, the history is ordered, and each response entry directly follows the request entry with its ID. The constructor establishes it, and `Write`, `LogRequest`, `Serve` and `RoundTrip` keep it. |
| Interceptor.LogRoundTripper.constructor | logroundtripper.go:14-19 | A new interceptor has counter 0 and an empty log. |
| Interceptor.LogRoundTripper.Write | logroundtripper.go:50 | One Write appends one whole entry to Out, and the pairing invariant is kept. |
| Interceptor.LogRoundTripper.Delegate | logroundtripper.go:57 | The transport call is recorded right after its request entry. |
| Interceptor.LogRoundTripper.LogRequest | logroundtripper.go:34-51 | The request body is captured. An error stops the call before anything is written. Otherwise exactly one request entry is written, with t0, the ID, the method, the URL and the bytes read. |
| Interceptor.LogRoundTripper.Forward | logroundtripper.go:52-55 | The events and result are those of `Exchange`. A dry run returns the zero response, and its frame leaves the transport's stream untouched. |
| Interceptor.LogRoundTripper.Transmit | logroundtripper.go:57-60 | The transport is called and its error is passed on. Otherwise the response is received. The effect is that of `Exchange`. |
| Interceptor.LogRoundTripper.Receive | logroundtripper.go:61-78 | The response body is captured and closed, and a read error is passed on with nothing written. Otherwise the response entry with the request's ID is written and the caller gets the status and a replay. |
| Interceptor.LogRoundTripper.Serve | logroundtripper.go:33-79 | The two blocks in sequence, for a given ID: an unreadable body changes nothing in the log, otherwise the request entry and then the exchange. Its frame names the transport's stream only when the transport is called. |
| Interceptor.LogRoundTripper.RoundTrip | logroundtripper.go:30-80 | The counter advances by one with wrap-around. `trace`, `out` and the result are exactly what `Call` gives for the old counter. Bodies are replaced by fresh replays of exactly the bytes read. Original streams are closed, and a caller's body that was already a replay ends up drained. Its frame names the transport's stream only when the transport is called, so otherwise that stream is left untouched. In dry-run mode, a call whose request body reads (or that has none) answers as `DryRunRoundTripper` does; an unreadable body still ends the call with its error first. |
| DryRun.RoundTrip | dryrun.go:9-11 | The stub answers with success, status 0 and no body. |
| DryRun.SameAnswerForEveryRequest | dryrun.go:9-11 | Every request gets the same answer. |

## Left out

- The second log line, `%s %q` of the method and URL, is not rendered. Go's `%q` quoting of a URL is not modelled. Entries keep the method and URL as values.
- The body lines are not rendered as text. Entries keep the logged bytes, or `None` when no body line is printed.
- net/http is not modelled. The transport is an input (`TransportOutcome`) that does not depend on the request. Headers and other response fields are not modelled either; a response is its status and its body.
- Interceptor.LogRoundTripper.RoundTrip: requires the transport's response stream to be a different object from the caller's request stream. The transport only ever sees the replaced request body, so this holds in the Go program.
- Interceptor.LogRoundTripper.RoundTrip: the clock readings `time.Now()` are inputs `t0` and `t1`, in nanoseconds since the epoch. Their order is not constrained.
- Interceptor.LogRoundTripper.RoundTrip: what the transport does with the replayed request body is not modelled. Go's `http.Transport` reads it and closes it, so after a call that reached the transport the replay's position is not 0 as the model states; the bytes handed over are those recorded in the `Delegated` event.
- LogEntries.ElapsedMillis: Go's `time.Now()` also carries a monotonic clock reading, and `t1.Sub(t0)` uses it. So in Go the elapsed time is never negative and need not equal the difference of the two printed wall-clock timestamps. The model derives both from one wall-clock pair `t0`, `t1`, which allows a negative elapsed time and ties it to the timestamps.
- LogEntries.ElapsedMillis: `t1.Sub(t0)` saturates at the int64 limits, and `UnixNano` is undefined outside the years 1678 to 2262. The model's readings are unbounded integers, so neither limit is modelled.
- Http.ReadAllAndClose: on a read error `ioutil.ReadAll` also returns the bytes read so far. The interceptor discards them by returning, so the model keeps only the error.
- Errors returned by `Out.Write` and by closing a body are ignored by the Go code, and so are absent from the model.
- Concurrency: `requestID++` is not atomic in Go. Concurrent calls may share an ID. The model treats calls as sequential.
- `DryRun` and `Transport` are exported fields that could change between calls. The model fixes the dry-run flag at construction and passes the transport's answer per call.
- The response is a value, not a pointer. The model does not capture aliasing of the `*http.Response` the transport returns.
