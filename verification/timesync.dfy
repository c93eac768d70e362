/** `background_update`: the network time sync as a pure transition over
    `(fetched, last_fetched)` and the current notification message. The
    HTTP request, JSON decoding and the clock reads are parameters; the
    write to the real-time clock is an output. */
module TimeSync {
  import opened Wrappers

  /** Seconds that must pass after an attempt before the next one. */
  const RetryInterval: real := 60.0

  /** The only status code treated as success. */
  const StatusOk := 200

  /** The eight fields written to the real-time clock, in the order the
      clock's `datetime` setter expects them. */
  datatype DateTuple = DateTuple(
    year: int, month: int, day: int, dayOfWeek: int,
    hour: int, minute: int, seconds: int, milliSeconds: int)

  /** What `response.json()` produced: the decoded value, as its text
      rendering and as the date fields read from it by key (or the message
      of the error a missing key raised); or the message of a decoding error. */
  datatype Json =
    | Parsed(text: string, fields: Result<DateTuple, string>)
    | Unparsable(message: string)

  /** What `requests.get` produced: a response, or the message of the
      exception it raised. */
  datatype Fetch =
    | Response(status: int, json: Json)
    | Raised(message: string)

  /** `fetched` and `last_fetched` of the application. */
  datatype SyncState = SyncState(fetched: bool, lastFetched: Option<real>)

  /** The state `__init__` sets up: nothing fetched, nothing attempted. */
  const Initial := SyncState(false, None)

  // ---------------------------------------------------------------------------
  // Decimal rendering used by the status message

  function DigitChar(d: nat): (ch: char)
    requires d < 10
    ensures '0' <= ch <= '9'
  {
    ('0' as int + d) as char
  }

  /** The decimal digits of `n`, most significant first, as `str(n)` writes them. */
  function NatToString(n: nat): (s: string)
    ensures |s| >= 1
    ensures forall i | 0 <= i < |s| :: '0' <= s[i] <= '9'
    ensures |s| == 1 || s[0] != '0'
    ensures n > 0 ==> s[0] != '0'
    decreases n
  {
    if n < 10 then [DigitChar(n)] else NatToString(n / 10) + [DigitChar(n % 10)]
  }

  /** `str(n)` for any integer: a minus sign before the digits of `-n`. */
  function IntToString(n: int): (s: string)
    ensures |s| >= 1
    ensures n < 0 <==> s[0] == '-'
    ensures n >= 0 ==> s == NatToString(n)
    ensures n < 0 ==> |s| >= 2 && s[1..] == NatToString(-n)
  {
    if n < 0 then "-" + NatToString(-n) else NatToString(n)
  }

  /** The number a string of decimal digits denotes. */
  function DecimalValue(s: string): nat
    requires forall i | 0 <= i < |s| :: '0' <= s[i] <= '9'
  {
    if |s| == 0 then 0
    else 10 * DecimalValue(s[..|s| - 1]) + (s[|s| - 1] as int - '0' as int)
  }

  /** Reading back the digits `NatToString` writes gives the number. */
  lemma {:induction false} NatToStringRoundTrip(n: nat)
    ensures DecimalValue(NatToString(n)) == n
    decreases n
  {
    var s := NatToString(n);
    if n >= 10 {
      NatToStringRoundTrip(n / 10);
      assert s[..|s| - 1] == NatToString(n / 10);
    }
  }

  /** The digits after any sign read back as the magnitude of the number. */
  lemma IntToStringRoundTrip(n: int)
    ensures var s := IntToString(n);
      var digits := if n < 0 then s[1..] else s;
      (forall i | 0 <= i < |digits| :: '0' <= digits[i] <= '9')
      && DecimalValue(digits) == if n < 0 then -n else n
  {
    if n < 0 {
      NatToStringRoundTrip(-n);
    } else {
      NatToStringRoundTrip(n);
    }
  }

  /** `f"Status: {response.status_code}, Message: {response.json()}"`. */
  function StatusMessage(status: int, text: string): string
  {
    "Status: " + IntToString(status) + ", Message: " + text
  }

  // ---------------------------------------------------------------------------
  // One attempt

  /** The result of one attempt: the clock was set, or a message to show. */
  datatype Outcome = Synced(time: DateTuple) | Failed(message: string)

  /** The body of the `try`: only a 200 response whose JSON holds every date
      field sets the clock. A non-200 status raises the status message, unless
      decoding its body already raised; every exception becomes its message. */
  function Attempt(f: Fetch): (o: Outcome)
    ensures o.Synced? <==> f.Response? && f.status == StatusOk && f.json.Parsed? && f.json.fields.Ok?
    ensures o.Synced? ==> o.time == f.json.fields.value
    ensures f.Raised? ==> o == Failed(f.message)
    ensures f.Response? && f.json.Unparsable? ==> o == Failed(f.json.message)
    ensures f.Response? && f.status == StatusOk && f.json.Parsed? && f.json.fields.Err? ==>
      o == Failed(f.json.fields.error)
    ensures f.Response? && f.status != StatusOk && f.json.Parsed? ==>
      o == Failed(StatusMessage(f.status, f.json.text))
  {
    match f
    case Raised(m) => Failed(m)
    case Response(status, json) =>
      match json
      case Unparsable(m) => Failed(m)
      case Parsed(text, fields) =>
        if status == StatusOk then
          match fields
          case Ok(t) => Synced(t)
          case Err(m) => Failed(m)
        else
          Failed(StatusMessage(status, text))
  }

  // ---------------------------------------------------------------------------
  // The background tick

  /** The guard of `background_update`: nothing fetched yet, and either no
      attempt so far or more than a minute since the last one. */
  predicate Due(s: SyncState, now: real)
  {
    !s.fetched && (s.lastFetched.None? || now - s.lastFetched.value > RetryInterval)
  }

  /** The effect of one tick: the new sync state, the notification message,
      the tuple written to the real-time clock (if any), and whether a
      request was made. */
  datatype Step = Step(state: SyncState, notification: string, rtc: Option<DateTuple>, attempted: bool)

  /** `background_update` at time `now`, `fetch` standing for what the
      request would produce if it were made. */
  function Tick(s: SyncState, notification: string, now: real, fetch: Fetch): (r: Step)
    ensures r.attempted <==> Due(s, now)
    ensures !r.attempted ==> r.state == s && r.notification == notification && r.rtc.None?
    ensures r.attempted ==> r.state.lastFetched == Some(now)
    ensures r.attempted && Attempt(fetch).Synced? ==>
      r.state.fetched && r.rtc == Some(Attempt(fetch).time) && r.notification == notification
    ensures r.attempted && Attempt(fetch).Failed? ==>
      !r.state.fetched && r.rtc.None? && r.notification == Attempt(fetch).message
  {
    if !Due(s, now) then
      Step(s, notification, None, false)
    else
      match Attempt(fetch)
      case Synced(t) => Step(SyncState(true, Some(now)), notification, Some(t), true)
      case Failed(m) => Step(SyncState(false, Some(now)), m, None, true)
  }

  /** The first tick after start-up always makes a request. */
  lemma FirstTickAttempts(notification: string, now: real, fetch: Fetch)
    ensures Tick(Initial, notification, now, fetch).attempted
  {
  }

  /** A failed attempt blocks the next for a minute and no longer: a tick at
      most `RetryInterval` seconds later changes nothing, a later one retries. */
  lemma RetryAfterFailure(s: SyncState, note: string, now: real, fetch: Fetch,
                          later: real, fetch': Fetch)
    requires Tick(s, note, now, fetch).attempted && Attempt(fetch).Failed?
    ensures var r := Tick(s, note, now, fetch);
      var r' := Tick(r.state, r.notification, later, fetch');
      (r'.attempted <==> later - now > RetryInterval)
      && (!r'.attempted ==> r'.state == r.state && r'.notification == r.notification)
  {
  }

  // ---------------------------------------------------------------------------
  // Runs of ticks

  /** One background tick's inputs. */
  datatype TickInput = TickInput(now: real, fetch: Fetch)

  /** The state after a sequence of ticks and the times at which requests were made. */
  datatype Trace = Trace(state: SyncState, notification: string, attempts: seq<real>, writes: seq<DateTuple>)

  function Run(s: SyncState, note: string, ticks: seq<TickInput>): Trace
    decreases |ticks|
  {
    if |ticks| == 0 then Trace(s, note, [], [])
    else
      var r := Tick(s, note, ticks[0].now, ticks[0].fetch);
      var rest := Run(r.state, r.notification, ticks[1..]);
      Trace(rest.state, rest.notification,
            (if r.attempted then [ticks[0].now] else []) + rest.attempts,
            (if r.rtc.Some? then [r.rtc.value] else []) + rest.writes)
  }

  /** Once the clock has been set, no tick ever makes a request again, writes
      the clock, or changes the state or the notification. */
  lemma {:induction false} FetchedIsFinal(s: SyncState, note: string, ticks: seq<TickInput>)
    requires s.fetched
    ensures Run(s, note, ticks) == Trace(s, note, [], [])
    decreases |ticks|
  {
    if |ticks| > 0 {
      FetchedIsFinal(s, note, ticks[1..]);
    }
  }

  /** Requests are rate limited: over any run, consecutive requests are more
      than `RetryInterval` seconds apart, the first is more than that after
      the last attempt before the run, and the clock is written at most once. */
  lemma {:induction false} AttemptsSpaced(s: SyncState, note: string, ticks: seq<TickInput>)
    ensures var a := Run(s, note, ticks).attempts;
      && (forall k | 0 <= k < |a| - 1 :: a[k + 1] - a[k] > RetryInterval)
      && (|a| > 0 && s.lastFetched.Some? ==> a[0] - s.lastFetched.value > RetryInterval)
      && (s.fetched ==> |a| == 0)
    ensures |Run(s, note, ticks).writes| <= (if s.fetched then 0 else 1)
    decreases |ticks|
  {
    if |ticks| > 0 {
      var r := Tick(s, note, ticks[0].now, ticks[0].fetch);
      AttemptsSpaced(r.state, r.notification, ticks[1..]);
      if r.rtc.Some? {
        FetchedIsFinal(r.state, r.notification, ticks[1..]);
      }
    }
  }
}
