/**
 * The two log entries the interceptor writes, and the text of their header
 * lines as fmt renders them:
 *
 *   --
 *   REQ Time: <seconds>.<nanos%1000, %03d> ID-<id, %04x>
 *   <method> <quoted URL>
 *   <request body, only when the request has one>
 *
 *   --
 *   RES Time: <seconds>.<nanos%1000, %03d> <elapsed>ms ID-<id, %04x> Status: <status>
 *   <response body, only when it is non-empty>
 *
 * An entry is kept as the values it is made from: the clock reading when it
 * was written (and, for a response, the reading taken before the request was
 * logged), in nanoseconds since the epoch, the correlation ID, and what the
 * body lines show. The header text is rendered exactly, and a parser reads
 * every rendered header back into the numbers it prints.
 */
module LogEntries {
  import opened Wrappers
  import opened GoInt
  import opened GoFmt
  import opened Http

  datatype LogEntry =
    | RequestEntry(time: int, id: int16, verb: string, url: string, body: Option<seq<byte>>)
    | ResponseEntry(time: int, start: int, id: int16, status: int, body: Option<seq<byte>>)

  const NanosPerSecond := 1_000_000_000
  const NanosPerMilli := 1_000_000

  /** `t.Unix()` for a time t nanoseconds after the epoch: whole seconds, rounded down even before 1970. */
  function UnixSeconds(t: int): (s: int)
    ensures s * NanosPerSecond <= t < s * NanosPerSecond + NanosPerSecond
  {
    t / NanosPerSecond
  }

  /**
   * `t.UnixNano() % 1000`: the last three decimal digits of the nanosecond
   * count (not milliseconds); before the epoch it is zero or negative, since
   * Go's % takes the sign of the dividend.
   */
  function NanoField(t: int): (n: int)
    ensures -1000 < n < 1000
    ensures t >= 0 ==> n >= 0
    ensures t < 0 ==> n <= 0
    ensures (t - n) % 1000 == 0
  {
    GoRem(t, 1000)
  }

  /** `t1.Sub(t0).Nanoseconds() / 1000000`: the elapsed time in whole milliseconds, truncated toward zero. */
  function ElapsedMillis(t0: int, t1: int): (ms: int)
    ensures t0 <= t1 ==> 0 <= ms && ms * NanosPerMilli <= t1 - t0 < ms * NanosPerMilli + NanosPerMilli
    ensures t1 < t0 ==> ms <= 0 && ms * NanosPerMilli - NanosPerMilli < t1 - t0 <= ms * NanosPerMilli
  {
    GoQuo(t1 - t0, NanosPerMilli)
  }

  /** `%04x` of the int16 correlation ID. */
  function IdText(id: int16): string {
    FormatInt(id, 16, 4)
  }

  /** From 0 to 32767 the ID prints as exactly four lower-case hex digits. */
  lemma IdTextNonNegative(id: int16)
    requires id >= 0
    ensures |IdText(id)| == 4
    ensures forall i :: 0 <= i < 4 ==> IsDigit(IdText(id)[i], 16)
  {
    assert Pow(16, 4) == 0x1_0000;
    FormatIntWidth(id, 16, 4, 4);
    FormatIntChars(id, 16, 4);
  }

  /**
   * After the counter wraps, the ID prints with a sign that takes one of the
   * four columns: -1 is "-001", and below -4095 the text grows to five characters.
   */
  lemma IdTextNegative(id: int16)
    requires id < 0
    ensures IdText(id)[0] == '-'
    ensures |IdText(id)| == if id > -0x1000 then 4 else 5
  {
    assert Pow(16, 3) == 0x1000;
    assert Pow(16, 4) == 0x1_0000;
    if id > -0x1000 {
      FormatIntWidth(id, 16, 4, 3);
    } else {
      var n: nat := -(id as int);
      DigitsLength(n, 16, 4);
      DigitsLengthAtLeast(n, 16, 4);
    }
  }

  /** The last ID before the counter climbs back to zero: its sign fits inside the width. */
  lemma IdTextMinusOne()
    ensures IdText(-1) == "-001"
  {
    assert Digits(1, 16) == "1";
  }

  /** The ID logged by call number 32769, the first after the counter wraps. */
  lemma IdTextMinimum()
    ensures IdText(-0x8000) == "-8000"
  {
    assert Digits(8, 16) == "8";
    assert Digits(0x80, 16) == Digits(8, 16) + "0";
    assert Digits(0x800, 16) == Digits(0x80, 16) + "0";
    assert Digits(0x8000, 16) == Digits(0x800, 16) + "0";
  }

  /** The header line of an entry, with the "--" separator line before it. */
  function Header(e: LogEntry): string {
    match e
    case RequestEntry(t, id, _, _, _) =>
      RequestPrefix + RequestTail(FormatInt(UnixSeconds(t), 10, 0), FormatInt(NanoField(t), 10, 3), IdText(id))
    case ResponseEntry(t, t0, id, status, _) =>
      ResponsePrefix
        + ResponseTail(FormatInt(UnixSeconds(t), 10, 0), FormatInt(NanoField(t), 10, 3),
                       FormatInt(ElapsedMillis(t0, t), 10, 0), IdText(id), FormatInt(status, 10, 0))
  }

  /** The request header after its prefix, from the texts of its numbers. */
  function RequestTail(s: string, n: string, i: string): string {
    s + "." + n + " ID-" + i + "\n"
  }

  /** The response header after its prefix, from the texts of its numbers. */
  function ResponseTail(s: string, n: string, m: string, i: string, c: string): string {
    s + "." + n + " " + StatusTail(m, i, c)
  }

  /** The response header from the elapsed time on. */
  function StatusTail(m: string, i: string, c: string): string {
    m + "ms ID-" + i + " Status: " + c + "\n"
  }

  /** The numbers a header line carries. */
  datatype HeaderFields =
    | RequestHeader(seconds: int, nanos: int, id: int)
    | ResponseHeader(seconds: int, nanos: int, elapsedMs: int, id: int, status: int)

  function Fields(e: LogEntry): HeaderFields {
    match e
    case RequestEntry(t, id, _, _, _) => RequestHeader(UnixSeconds(t), NanoField(t), id)
    case ResponseEntry(t, t0, id, status, _) => ResponseHeader(UnixSeconds(t), NanoField(t), ElapsedMillis(t0, t), id, status)
  }

  /** The text before the first sep and the text after it. */
  function SplitAt(s: string, sep: char): (r: Option<(string, string)>)
    ensures r.Some? ==> s == r.value.0 + [sep] + r.value.1 && sep !in r.value.0
  {
    if s == [] then None
    else if s[0] == sep then Some(([], s[1..]))
    else
      var (a, b) :- SplitAt(s[1..], sep);
      Some(([s[0]] + a, b))
  }

  lemma {:induction false} SplitAtJoin(a: string, sep: char, b: string)
    requires sep !in a
    ensures SplitAt(a + [sep] + b, sep) == Some((a, b))
  {
    var s := a + [sep] + b;
    if a != [] {
      assert s[0] == a[0] && s[0] != sep;
      assert s[1..] == a[1..] + [sep] + b;
      SplitAtJoin(a[1..], sep, b);
      assert [a[0]] + a[1..] == a;
    }
  }

  /** The rest of s after the given prefix, if s starts with it. */
  function After(s: string, prefix: string): (r: Option<string>)
    ensures r.Some? ==> s == prefix + r.value
  {
    if |prefix| <= |s| && s[..|prefix|] == prefix then Some(s[|prefix|..]) else None
  }

  lemma AfterJoin(prefix: string, rest: string)
    ensures After(prefix + rest, prefix) == Some(rest)
  {
    assert (prefix + rest)[..|prefix|] == prefix;
  }

  const RequestPrefix := "--\nREQ Time: "
  const ResponsePrefix := "--\nRES Time: "

  /** Reads a header line back into its numbers; None for any text that is not a header. */
  function ParseHeader(h: string): Option<HeaderFields> {
    match After(h, RequestPrefix)
    case Some(t) => ParseRequestFields(t)
    case None =>
      var t :- After(h, ResponsePrefix);
      ParseResponseFields(t)
  }

  /** `<seconds>.<nanos> ID-<id>` and the closing newline. */
  function ParseRequestFields(t: string): Option<HeaderFields> {
    var (sec, t) :- SplitAt(t, '.');
    var (nanos, t) :- SplitAt(t, ' ');
    var t :- After(t, "ID-");
    var (id, t) :- SplitAt(t, '\n');
    if t != [] then None
    else
      var s :- ParseInt(sec, 10);
      var n :- ParseInt(nanos, 10);
      var i :- ParseInt(id, 16);
      Some(RequestHeader(s, n, i))
  }

  /** `<seconds>.<nanos> <elapsed>ms ID-<id> Status: <status>` and the closing newline. */
  function ParseResponseFields(t: string): Option<HeaderFields> {
    var (sec, t) :- SplitAt(t, '.');
    var (nanos, t) :- SplitAt(t, ' ');
    var (e, i, c) :- ParseStatusFields(t);
    var s :- ParseInt(sec, 10);
    var n :- ParseInt(nanos, 10);
    Some(ResponseHeader(s, n, e, i, c))
  }

  /** `<elapsed>ms ID-<id> Status: <status>` and the closing newline. */
  function ParseStatusFields(t: string): Option<(int, int, int)> {
    var (ms, t) :- SplitAt(t, 'm');
    var t :- After(t, "s ID-");
    var (id, t) :- SplitAt(t, ' ');
    var t :- After(t, "Status: ");
    var (status, t) :- SplitAt(t, '\n');
    if t != [] then None
    else
      var e :- ParseInt(ms, 10);
      var i :- ParseInt(id, 16);
      var c :- ParseInt(status, 10);
      Some((e, i, c))
  }

  /** The request fields parse when each number's text parses and holds no separator. */
  lemma ParseRequestText(s: string, n: string, i: string, seconds: int, nanos: int, id: int)
    requires ParseInt(s, 10) == Some(seconds) && '.' !in s
    requires ParseInt(n, 10) == Some(nanos) && ' ' !in n
    requires ParseInt(i, 16) == Some(id) && '\n' !in i
    ensures ParseRequestFields(RequestTail(s, n, i)) == Some(RequestHeader(seconds, nanos, id))
  {
    var t2 := "ID-" + (i + ['\n'] + []);
    var t1 := n + [' '] + t2;
    assert RequestTail(s, n, i) == s + ['.'] + t1;
    SplitAtJoin(s, '.', t1);
    SplitAtJoin(n, ' ', t2);
    AfterJoin("ID-", i + ['\n'] + []);
    SplitAtJoin(i, '\n', []);
  }

  /** The response fields parse when each number's text parses and holds no separator. */
  lemma ParseResponseText(s: string, n: string, m: string, i: string, c: string,
                          seconds: int, nanos: int, ms: int, id: int, status: int)
    requires ParseInt(s, 10) == Some(seconds) && '.' !in s
    requires ParseInt(n, 10) == Some(nanos) && ' ' !in n
    requires ParseInt(m, 10) == Some(ms) && 'm' !in m
    requires ParseInt(i, 16) == Some(id) && ' ' !in i
    requires ParseInt(c, 10) == Some(status) && '\n' !in c
    ensures ParseResponseFields(ResponseTail(s, n, m, i, c)) == Some(ResponseHeader(seconds, nanos, ms, id, status))
  {
    var t2 := StatusTail(m, i, c);
    var t1 := n + [' '] + t2;
    assert ResponseTail(s, n, m, i, c) == s + ['.'] + t1;
    SplitAtJoin(s, '.', t1);
    SplitAtJoin(n, ' ', t2);
    ParseStatusText(m, i, c, ms, id, status);
  }

  lemma ParseStatusText(m: string, i: string, c: string, ms: int, id: int, status: int)
    requires ParseInt(m, 10) == Some(ms) && 'm' !in m
    requires ParseInt(i, 16) == Some(id) && ' ' !in i
    requires ParseInt(c, 10) == Some(status) && '\n' !in c
    ensures ParseStatusFields(StatusTail(m, i, c)) == Some((ms, id, status))
  {
    var t4 := "Status: " + (c + ['\n'] + []);
    var t3 := "s ID-" + (i + [' '] + t4);
    assert StatusTail(m, i, c) == m + ['m'] + t3;
    SplitAtJoin(m, 'm', t3);
    AfterJoin("s ID-", i + [' '] + t4);
    SplitAtJoin(i, ' ', t4);
    AfterJoin("Status: ", c + ['\n'] + []);
    SplitAtJoin(c, '\n', []);
  }

  /** A formatted number reads back as itself and holds none of the header's separators. */
  lemma NumberText(x: int, base: Base, width: nat)
    ensures ParseInt(FormatInt(x, base, width), base) == Some(x)
    ensures forall sep :: sep in {'.', ' ', 'm', '\n'} ==> sep !in FormatInt(x, base, width)
  {
    FormatIntRoundTrip(x, base, width);
    FormatIntChars(x, base, width);
  }

  /** Round trip: a log consumer parsing a header line recovers the entry's numbers. */
  lemma HeaderRoundTrip(e: LogEntry)
    ensures ParseHeader(Header(e)) == Some(Fields(e))
  {
    var seconds, nanos := UnixSeconds(e.time), NanoField(e.time);
    var s, n, i := FormatInt(seconds, 10, 0), FormatInt(nanos, 10, 3), IdText(e.id);
    NumberText(seconds, 10, 0);
    NumberText(nanos, 10, 3);
    NumberText(e.id, 16, 4);
    match e
    case RequestEntry(_, _, _, _, _) =>
      AfterJoin(RequestPrefix, RequestTail(s, n, i));
      ParseRequestText(s, n, i, seconds, nanos, e.id);
    case ResponseEntry(_, start, _, status, _) =>
      var ms := ElapsedMillis(start, e.time);
      var m, c := FormatInt(ms, 10, 0), FormatInt(status, 10, 0);
      NumberText(ms, 10, 0);
      NumberText(status, 10, 0);
      var tail := ResponseTail(s, n, m, i, c);
      assert (ResponsePrefix + tail)[..|RequestPrefix|] == ResponsePrefix;
      AfterJoin(ResponsePrefix, tail);
      ParseResponseText(s, n, m, i, c, seconds, nanos, ms, e.id, status);
  }
}
