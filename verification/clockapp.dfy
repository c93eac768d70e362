/** `ClockApp`: the application's state and its three callbacks, `update`
    (buttons), `background_update` (time sync) and `draw` (hands and LEDs),
    as pure functions over an immutable record. */
module ClockApp {
  import opened Wrappers
  import opened Colour
  import opened Schemes
  import opened Hands
  import opened LedRing
  import opened TimeSync

  /** The fields of a `ClockApp` the callbacks read and write. The current
      `Notification` is represented by its message. */
  datatype App = App(schemeIndex: int, sync: SyncState, notification: string)

  /** The message of the notification `__init__` creates. */
  const StartMessage := "Initialized!"

  /** The state `__init__` leaves. */
  const Start := App(0, Initial, StartMessage)

  /** The scheme index always selects an entry of the table. */
  predicate Inv(a: App)
  {
    0 <= a.schemeIndex < SchemeCount
  }

  // ---------------------------------------------------------------------------
  // update: the buttons

  /** The latched button presses `update` consults. */
  datatype Buttons = Buttons(cancel: bool, confirm: bool)

  /** The latch after `button_states.clear()`: every button released. */
  const Released := Buttons(false, false)

  /** The new state, the latch afterwards, and whether `update` asked the
      host to minimise the app and re-enable the LED pattern. */
  datatype UpdateResult = UpdateResult(app: App, buttons: Buttons, minimised: bool)

  /** `update`: cancel clears the whole latch and minimises; confirm then
      clears the latch and advances the scheme. Because the cancel branch
      clears the confirm press too, pressing both does not change the scheme. */
  function Update(a: App, b: Buttons): (r: UpdateResult)
    ensures r.minimised <==> b.cancel
    ensures r.buttons == (if b.cancel || b.confirm then Released else b)
    ensures r.app.schemeIndex ==
      (if b.confirm && !b.cancel then NextScheme(a.schemeIndex) else a.schemeIndex)
    ensures r.app.sync == a.sync && r.app.notification == a.notification
    ensures Inv(a) ==> Inv(r.app)
  {
    var latch := if b.cancel then Released else b;
    if latch.confirm then
      UpdateResult(a.(schemeIndex := NextScheme(a.schemeIndex)), Released, b.cancel)
    else
      UpdateResult(a, latch, b.cancel)
  }

  /** The state after `n` frames in which only confirm was pressed. */
  function ConfirmPresses(a: App, n: nat): App
  {
    if n == 0 then a else Update(ConfirmPresses(a, n - 1), Buttons(false, true)).app
  }

  /** Each confirm press advances the scheme by one, so `len(SCHEMES)` presses
      bring back the starting scheme and fewer do not. */
  lemma {:induction false} ConfirmCycle(a: App, n: nat)
    requires Inv(a)
    ensures ConfirmPresses(a, n).schemeIndex == Presses(a.schemeIndex, n)
    ensures ConfirmPresses(a, SchemeCount) == a
    ensures 0 < n < SchemeCount ==> ConfirmPresses(a, n).schemeIndex != a.schemeIndex
  {
    PressesOnly(a, n);
    PressesOnly(a, SchemeCount);
    FullCycle(a.schemeIndex, n);
  }

  lemma {:induction false} PressesOnly(a: App, n: nat)
    ensures ConfirmPresses(a, n) == a.(schemeIndex := Presses(a.schemeIndex, n))
  {
    if n > 0 {
      PressesOnly(a, n - 1);
    }
  }

  // ---------------------------------------------------------------------------
  // background_update: the time sync

  /** The new state and the tuple written to the real-time clock, if any. */
  datatype BackgroundResult = BackgroundResult(app: App, rtc: Option<DateTuple>)

  /** `background_update`: a sync tick over the app's sync fields and its
      notification; the scheme is untouched. */
  function Background(a: App, now: real, fetch: Fetch): (r: BackgroundResult)
    ensures r.app.schemeIndex == a.schemeIndex
    ensures !Due(a.sync, now) ==> r.app == a && r.rtc.None?
    ensures Due(a.sync, now) ==> r.app.sync.lastFetched == Some(now)
    ensures Due(a.sync, now) && Attempt(fetch).Failed? ==>
      r.app.notification == Attempt(fetch).message && !r.app.sync.fetched
    ensures Due(a.sync, now) && Attempt(fetch).Synced? ==>
      r.app.sync.fetched && r.rtc == Some(Attempt(fetch).time) && r.app.notification == a.notification
    ensures r.rtc.Some? ==> r.app.sync.fetched && r.app.notification == a.notification
  {
    var step := Tick(a.sync, a.notification, now, fetch);
    BackgroundResult(App(a.schemeIndex, step.state, step.notification), step.rtc)
  }

  // ---------------------------------------------------------------------------
  // draw: the hands and the LEDs

  /** The fields of `time.localtime()` that `draw` uses. */
  datatype LocalTime = LocalTime(hour: int, minute: int, second: int)

  /** What one `draw` produces, leaving out the vector drawing itself: the
      background fill, each hand's fraction of a turn and colour, and the LED
      writes (LED `k` is element `k - 1`). */
  datatype Frame = Frame(
    background: Rgb,
    hourHand: real, minuteHand: real, secondHand: real,
    handColour: Rgb, secondColour: Rgb,
    leds: seq<Led>)

  function Draw(a: App, t: LocalTime): (f: Frame)
    requires Inv(a) && ValidTime(t.hour, t.minute, t.second)
    ensures 0.0 <= f.hourHand < 1.0 && 0.0 <= f.minuteHand < 1.0 && 0.0 <= f.secondHand < 1.0
    ensures Valid(f.background) && Valid(f.handColour) && Valid(f.secondColour)
    ensures |f.leds| == SlotCount
    ensures forall k | 0 <= k < SlotCount ::
      IsByte(f.leds[k].r) && IsByte(f.leds[k].g) && IsByte(f.leds[k].b)
    ensures var s := Table[a.schemeIndex];
      && f.background == s.bg && f.handColour == s.fg && f.secondColour == s.accent
      && f.hourHand == HourFraction(t.hour, t.minute)
      && f.minuteHand == MinuteFraction(t.minute, t.second)
      && f.secondHand == SecondFraction(t.second)
      && f.leds == LedFrame(Colours(t.hour, t.minute, t.second, s))
  {
    var scheme := Table[a.schemeIndex];
    TableShape();
    HandsInRange(t.hour, t.minute, t.second);
    ColoursValid(t.hour, t.minute, t.second, scheme);
    var buf := Colours(t.hour, t.minute, t.second, scheme);
    LedFrameBytes(buf);
    var leds := LedFrame(buf);
    assert forall k | 0 <= k < SlotCount :: leds[k] == LedNumbered(leds, k + 1);
    Frame(scheme.bg,
          HourFraction(t.hour, t.minute), MinuteFraction(t.minute, t.second), SecondFraction(t.second),
          scheme.fg, scheme.accent,
          leds)
  }

  /** The frame at 10:15:30: the hour hand at 41/48 of a turn, the minute
      hand at 31/120, the second hand halfway round; LED 11 shows the
      foreground, LED 4 the dim minute marker, LED 6 the accent (the trailing
      slot of the second hand) and every other LED is off. */
  lemma DrawExample(a: App)
    requires Inv(a)
    ensures var f := Draw(a, LocalTime(10, 15, 30));
      var s := Table[a.schemeIndex];
      && f.hourHand == 41.0 / 48.0
      && f.minuteHand == 31.0 / 120.0
      && f.secondHand == 0.5
      && LedNumbered(f.leds, 11) == ToLed(s.fg)
      && LedNumbered(f.leds, 4) == ToLed(Quarter(s.fg))
      && LedNumbered(f.leds, 6) == ToLed(s.accent)
      && forall k | 1 <= k <= SlotCount && k !in {4, 6, 11} :: LedNumbered(f.leds, k) == Led(0, 0, 0)
  {
    var s := Table[a.schemeIndex];
    ExampleFrames(s);
    HourFractionIsHalfDay(10, 15);
    var f := Draw(a, LocalTime(10, 15, 30));
    var buf := Colours(10, 15, 30, s);
    forall k | 1 <= k <= SlotCount && k !in {4, 6, 11}
      ensures LedNumbered(f.leds, k) == Led(0, 0, 0)
    {
      assert buf[k - 1] == Black;
    }
  }

  // ---------------------------------------------------------------------------
  // Whole runs

  /** One callback delivered by the host. */
  datatype Event =
    | FrameEvent(buttons: Buttons)
    | BackgroundEvent(now: real, fetch: Fetch)

  /** The state after a sequence of callbacks; button presses are taken as
      given for each frame. */
  function Replay(a: App, events: seq<Event>): App
    decreases |events|
  {
    if |events| == 0 then a
    else
      var next := match events[0]
        case FrameEvent(b) => Update(a, b).app
        case BackgroundEvent(now, fetch) => Background(a, now, fetch).app;
      Replay(next, events[1..])
  }

  /** Every state reachable from start-up keeps the scheme index in range,
      so `SCHEMES[self.scheme_i]` in `draw` never fails. */
  lemma {:induction false} ReachableInv(events: seq<Event>)
    ensures Inv(Replay(Start, events))
  {
    InvPreserved(Start, events);
  }

  lemma {:induction false} InvPreserved(a: App, events: seq<Event>)
    requires Inv(a)
    ensures Inv(Replay(a, events))
    decreases |events|
  {
    if |events| > 0 {
      var next := match events[0]
        case FrameEvent(b) => Update(a, b).app
        case BackgroundEvent(now, fetch) => Background(a, now, fetch).app;
      InvPreserved(next, events[1..]);
    }
  }

  /** Once the clock has been set, later callbacks never change the sync state. */
  lemma {:induction false} SyncFinal(a: App, events: seq<Event>)
    requires a.sync.fetched
    ensures Replay(a, events).sync == a.sync
    decreases |events|
  {
    if |events| > 0 {
      var next := match events[0]
        case FrameEvent(b) => Update(a, b).app
        case BackgroundEvent(now, fetch) => Background(a, now, fetch).app;
      assert next.sync == a.sync;
      SyncFinal(next, events[1..]);
    }
  }
}
