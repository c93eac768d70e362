# badgeclock clock app, modelled in Dafny

This project models the pure logic of the badge clock application `ClockApp`
(`app.py`). The application draws an analog clock, mirrors the hands on a
ring of 12 LEDs, lets the confirm button cycle through six colour schemes,
and syncs the device clock from a network time service in the background.
Five parts of it are modelled as pure functions over immutable values:

- **Colours** (`colour.dfy`, module `Colour`). The hex decoder `c` turns six
  hex digits into three channels, each a byte over 255. `ToHex` is its
  inverse. The module also holds the per-channel arithmetic the LED ring uses:
  quartering and the blend `x + (y - x) * t`.
- **Schemes** (`schemes.dfy`, module `Schemes`). This is the `SCHEMES` table
  and the confirm-press step `(scheme_i + 1) % len(SCHEMES)`.
- **Hands and LED ring** (`hands.dfy`, `ledring.dfy`). These are the three
  hand fractions and the 12-slot colour buffer computed in `draw`: the minute
  and hour markers, the sweeping second blend and its trailing slot, and the
  truncation to bytes for LEDs 1..12.
- **Time sync** (`timesync.dfy`, module `TimeSync`). `background_update` is
  a transition over `(fetched, last_fetched)` and the notification message.
  The HTTP request is an abstract `Fetch` outcome: a response with a status
  and a decoded or undecodable body, or a raised exception with its message.
- **The app** (`clockapp.dfy`, module `ClockApp`). This is the state record,
  the three callbacks `update`, `background_update` and `draw`, and replays
  of whole callback sequences.

Reals are exact in Dafny, so the blend factor `second / 5 - second // 5` is
exactly `(second % 5) / 5`. Python's `//` and `%` by a positive number agree
with Dafny's `/` and `%`, so they appear unchanged. Two quirks of the source
are kept as written:

- The trailing slot `colours[i - 1 % 12]` is `colours[i - 1]`, because `%`
  binds tighter than `-`. At `i == 0` Python's negative indexing reaches slot
  11. `LedRing.PyIndex` models that indexing, and `TrailingSlotIsPrevious`
  proves the result is slot `(i + 11) % 12`.
- A leap second would make `second // 5` equal 12, which is out of range.
  `Hands.ValidTime` therefore requires `second < 60`.

The LED slots start as `(0, 0, 0)` (app.py:160). The minute marker is
`fg / 4` channel-wise (app.py:162).

## Model

| member | source | states |
|---|---|---|
| Colour.DigitValue | app.py:26 | a character has a base-16 value exactly when it is a hex digit of either case, and that value is below 16 |
| Colour.LowerMatchesUpper | app.py:26 | a lower-case digit `a`..`f` has the same base-16 value as its upper-case form |
| Colour.UpperDigit | app.py:26 | the upper-case digit written for a value below 16 parses back to that value |
| Colour.ParseField | app.py:26 | `int(field, 16)` on a slice of at most two characters succeeds exactly when the slice is non-empty and all hex digits; a one-digit field has that digit's value, a two-digit field 16 times the first plus the second, always below 256 |
| Colour.Slice2 | app.py:26 | the slice `s[i:i+2]` holds two characters when they exist, one at the end of the string, none past it |
| Colour.Decode | app.py:25-26 | `c(s)` succeeds exactly when the first six characters (at least five) are hex digits; every channel then lies in [0, 1]; with six or more characters channel k is the byte of digits 2k, 2k+1 over 255, and with five the last channel is the single fifth digit over 255 |
| Colour.DecodeReadsSixChars | app.py:26 | characters after the sixth are never read: strings that agree on their first six characters decode alike |
| Colour.ToHex | app.py:25-26 | three bytes written as six upper-case hex digits form a string whose byte k is the k-th input |
| Colour.DecodeToHex | app.py:25-26 | round trip: decoding the hex form of three bytes gives each byte over 255 |
| Colour.ToHexOfDecode | app.py:25-26 | round trip: an upper-case six-digit hex string is the hex form of the bytes it decodes to |
| Colour.DecodeExtremes | app.py:25-30 | `c("000000")` is black (0, 0, 0) and `c("FFFFFF")` is white (1, 1, 1) |
| Colour.Quarter | app.py:162 | the dim minute marker has each channel one quarter of the foreground's, and stays in [0, 1] |
| Colour.Blend | app.py:167-169 | definition of `colour + (accent - colour) * t` per channel; its properties are in `Colour.BlendConvex` |
| Colour.Mix | app.py:167-169 | definition of one channel's `x + (y - x) * t`; its properties are in `Colour.MixMean` and `Colour.MixBetween` |
| Colour.MixMean | app.py:167-169 | the blend `x + (y - x) * t` equals the weighted mean `(1 - t) x + t y` |
| Colour.MixBetween | app.py:167-169 | for t in [0, 1] a blended channel lies between its two end points |
| Colour.BlendConvex | app.py:167-169 | a blend with t in [0, 1] is a convex combination: valid colours stay valid, t = 0 keeps the colour, t = 1 gives the accent, and blending a colour with itself changes nothing |
| Schemes.Table | app.py:29-36 | definition of `SCHEMES` as byte triples; `Schemes.TableIsDecoded` shows each entry is `c` of the source literal, `Schemes.TableShape` gives its size and validity |
| Schemes.TableIsDecoded | app.py:29-36 | each of the six table entries is `c` applied to the source's three hex literals |
| Schemes.TableShape | app.py:29-36 | the table has six entries and all of their colours have channels in [0, 1] |
| Schemes.NextScheme | app.py:111-113 | a confirm press yields an index in 0..5 from any index, steps an in-range index to the next one, and wraps the last to 0 |
| Schemes.PressesAdd | app.py:113 | n presses from an in-range index give `(i + n) % 6` |
| Schemes.FullCycle | app.py:29-36 | six presses return to the starting scheme and 1..5 presses do not |
| Hands.HourFraction | app.py:156 | definition of `(hour + minute / 60) / 12 % 1`; its properties are in `Hands.HourFractionIsHalfDay`, `Hands.HandsInRange` and `Hands.HourFractionPeriodic` |
| Hands.MinuteFraction | app.py:157 | definition of `(minute + second / 60) / 60`; its properties are in `Hands.MinuteFractionIsHour` and `Hands.HandsInRange` |
| Hands.SecondFraction | app.py:158 | definition of `second / 60`; its range is in `Hands.HandsInRange` |
| Hands.Frac | app.py:156 | Python's float `% 1` gives a value in [0, 1) that differs from its input by an integer |
| Hands.HourFractionIsHalfDay | app.py:156 | the hour-hand fraction equals the minutes past the last twelve o'clock over 720 |
| Hands.MinuteFractionIsHour | app.py:157 | the minute-hand fraction equals the seconds past the hour over 3600 |
| Hands.HandsInRange | app.py:156-158 | for hour 0..23, minute 0..59, second 0..59 the three hand fractions lie in [0, 1); on the hour, the hour hand is at `(hour mod 12) / 12` |
| Hands.HourFractionPeriodic | app.py:156 | the hour hand is in the same place twelve hours later |
| LedRing.MinuteSlot | app.py:162 | definition of `minute // 5`; its range is in `LedRing.SlotsInRange` |
| LedRing.HourSlot | app.py:163 | definition of `hour % 12`; its range is in `LedRing.SlotsInRange` |
| LedRing.SecondSlot | app.py:165 | definition of `second // 5`; its range is in `LedRing.SlotsInRange` |
| LedRing.SlotsInRange | app.py:162-167 | `minute // 5`, `hour % 12` and `second // 5` are valid slots 0..11 for a valid time |
| LedRing.PyIndex | app.py:169 | a Python list index in -n..n-1 reaches the slot equal to the index modulo n |
| LedRing.TrailingSlot | app.py:169 | the slot `colours[i - 1 % 12]` reaches is a valid slot; which one is in `LedRing.TrailingSlotIsPrevious` |
| LedRing.TrailingSlotIsPrevious | app.py:169 | the slot of `colours[i - 1 % 12]` is `(i + 11) % 12`, the one before i around the ring, and never i itself |
| LedRing.SweepT | app.py:165-166 | the clamped blend factor is exactly `(second % 5) / 5`, in [0, 0.8] |
| LedRing.Markers | app.py:160-163 | before blending, the hour slot holds fg (even when it is also the minute slot), a distinct minute slot holds fg/4, and every other slot is off |
| LedRing.Sweep | app.py:165-169 | slot `second // 5` is blended towards the accent by t, the trailing slot by 1 - t, and no other slot changes |
| LedRing.SweepConvex | app.py:165-169 | the sweep keeps every slot a valid colour; on a multiple of five seconds slot i is unchanged and the trailing slot is exactly the accent |
| LedRing.Colours | app.py:160-169 | definition: the markers followed by the sweep; its properties are in `LedRing.Markers`, `LedRing.Sweep`, `LedRing.ColoursValid` and `LedRing.ExampleFrames` |
| LedRing.ColoursValid | app.py:160-169 | with a scheme of valid colours every slot of a frame's buffer is a valid colour |
| LedRing.Trunc | app.py:172 | `int()` on a float truncates towards zero |
| LedRing.ToLed | app.py:172 | a colour with channels in [0, 1] becomes a triple of integers in 0..255 |
| LedRing.LedFrame | app.py:171-172 | the writes for LEDs 1..12 form twelve entries; their values are in `LedRing.LedFrameBytes` |
| LedRing.LedFrameBytes | app.py:171-172 | LED k in 1..12 receives `floor(255 * c)` of each channel of slot k - 1, each in 0..255 |
| LedRing.ExampleFrames | app.py:160-169 | at 03:00:00 and at 10:15:30 the buffer holds exactly the marker, accent and off slots worked out by hand |
| TimeSync.NatToString | app.py:138 | `str(n)` of a natural number is a non-empty string of decimal digits with no leading zero unless it is `"0"` |
| TimeSync.IntToString | app.py:138 | `str(n)` of an integer is the digits of `NatToString(n)` for n >= 0, and a minus sign followed by the digits of `-n` otherwise |
| TimeSync.IntToStringRoundTrip | app.py:138 | the digits after any sign read back as the magnitude of the status code |
| TimeSync.StatusMessage | app.py:138 | definition of `f"Status: {status}, Message: {body}"`; it is the failure message in `TimeSync.Attempt` |
| TimeSync.NatToStringRoundTrip | app.py:138 | the decimal digits written for a status code read back as that number |
| TimeSync.Attempt | app.py:121-141 | only a 200 response whose JSON holds every date field sets the clock, to those fields; a raised exception, an undecodable body or a missing field in a 200 response yields that error's message, and any other status yields "Status: <code>, Message: <body>" |
| TimeSync.Initial | app.py:90-91 | definition of the sync fields `__init__` sets; `TimeSync.FirstTickAttempts` shows the first tick from it makes a request |
| TimeSync.Due | app.py:119 | definition of the guard `not fetched and (last_fetched is None or now - last_fetched > 60)`; `TimeSync.Tick` makes a request exactly when it holds |
| TimeSync.Tick | app.py:118-141 | a request is made exactly when nothing is fetched and there was no attempt or more than 60 s has passed; each attempt records `now`; without one nothing changes; success latches `fetched` and writes the clock; failure keeps `fetched` false and replaces the notification with the error message |
| TimeSync.FirstTickAttempts | app.py:90-91 | the first tick after start-up always makes a request |
| TimeSync.RetryAfterFailure | app.py:118-141 | after a failed attempt a tick retries exactly when more than 60 s have passed, and otherwise changes nothing |
| TimeSync.FetchedIsFinal | app.py:119-136 | once `fetched` is set no later tick makes a request, writes the clock or changes state or notification |
| TimeSync.AttemptsSpaced | app.py:118-141 | over any run, consecutive requests are more than 60 s apart and more than 60 s after the previous attempt, and the clock is written at most once |
| ClockApp.Start | app.py:90-93 | definition of the state `__init__` leaves; `ClockApp.ReachableInv` starts from it |
| ClockApp.Update | app.py:102-113 | cancel minimises and clears the latch; confirm clears it and advances the scheme, except when cancel already cleared it; sync state and notification are untouched; the scheme invariant is kept |
| ClockApp.ConfirmCycle | app.py:111-113 | n confirm-only frames advance the scheme n steps; six return the app to its starting state and fewer do not |
| ClockApp.Background | app.py:118-141 | the background tick leaves the scheme alone, changes nothing when not due, records the attempt time when due, shows the error message on failure, and on success sets `fetched` and writes the fetched time to the clock with the notification unchanged |
| ClockApp.Draw | app.py:143-172 | for an in-range scheme index and a valid time, the frame uses scheme `SCHEMES[scheme_i]` for fill and hand colours, the hour, minute and second fractions of that same time (each in [0, 1)), and the LED writes of that same time's buffer, every channel in 0..255 |
| ClockApp.DrawExample | app.py:143-172 | at 10:15:30 the hands are at 41/48, 31/120 and 1/2 of a turn; LED 11 shows the foreground, LED 4 the dim minute marker, LED 6 the accent, and the other LEDs are off |
| ClockApp.ReachableInv | app.py:93-113 | in every state reachable from start-up, the scheme index selects a table entry |
| ClockApp.SyncFinal | app.py:119-136 | after a successful sync, no sequence of callbacks changes the sync state |

## Left out

- Vector drawing (`draw_clockface`, `draw_clockhand` and the background rectangle) is left out. It is trigonometry over a foreign canvas API. `ClockApp.Draw` reports only the fill colour, each hand's fraction and colour, and the LED writes.
- The HTTP request and JSON decoding are abstracted as the `Fetch` value passed to each tick. The real-time clock write is an output of the tick. A failure of that write itself is not modelled: the write is assumed to be accepted.
- `time.time()` and `time.localtime()` become parameters. `background_update` reads the clock twice (for the guard and for `last_fetched`). `TimeSync.Tick`: uses one `now` for both reads, so a clock change between the two reads is not modelled.
- The event bus, `PatternEnable`/`PatternDisable`, `minimise()`, foreground-push handling, Wi-Fi and the LED hardware are host plumbing and are left out. `ClockApp.Update` reports minimising as a flag. The `Buttons` latch is modelled only as the two flags `update` reads and its `clear()`.
- `Notification.update` and `Notification.draw` belong to an external component and are left out. The notification is represented by its message. It is never `None` in the source, so the `is not None` checks are always true.
- The unused fields of `time.localtime()` (year, month, day, weekday, day of year) are left out. They are read only for a label that is commented out.
- IEEE float rounding in `c`, the hand fractions and the blends is left out. All of that arithmetic is exact `real` arithmetic here.
- Colour.ParseField: treats a field as valid only when it is all hex digits. Python's `int(x, 16)` also accepts a sign (`"-F"`) or surrounding whitespace (`" F"`), and such fields are modelled as errors instead.
- Colour.Decode: inherits the restriction of `ParseField`, so strings with signs or spaces inside the first six characters decode to `None` here.
- Schemes.TableShape: the table stores each literal's bytes directly. `Schemes.TableIsDecoded` proves those bytes are what `c` makes of the source's hex strings.
