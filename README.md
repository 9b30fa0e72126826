# Analog clock component: time arithmetic in Dafny

The Angular component `AnalogClockComponent` draws an analog clock on a
canvas once per second and shows a digital readout beneath it. This project
models its time arithmetic:

- the 12-hour readout `HH:MM:SS AM|PM` (`formatTime` and `padZero`), with
  JavaScript's rendering of a whole number as decimal text;
- the three hand angles, in degrees clockwise from 12 o'clock, as exact
  rationals;
- the two readout fields, `digitalTime` and `digitalDate`, that each redraw
  assigns.

Modules:

- `Decimal` renders a non-negative integer as its shortest decimal numeral,
  the way `value.toString()` and `'0' + value` do for whole numbers below
  2^53 (the safe-integer range). It also reads a digit string back to a number.
- `DigitalReadout` holds `PadZero`, `DisplayHour` (`hours % 12 || 12`),
  `FormatTime`, and a reader `ParseReadout`. On clock samples the reader is a
  left inverse of `FormatTime` that yields the 12-hour fields, and `Hour24`
  recovers the 24-hour hour from them.
- `HandAngles` holds `HourAngle`, `MinuteAngle` and `SecondAngle`, plus
  lemmas on their bounds, periodicity, monotonicity and continuity, and on
  how the hands relate to each other.
- `ClockComponent` holds the class `AnalogClock` with the two string fields.
  Its `DrawClock` method does the readout part of one redraw.

The wall-clock sample (`new Date()`, `getHours()`, `getMinutes()`,
`getSeconds()`) is a parameter. So is the date text that `formatDate` would
produce.

## Model

| member | source | states |
|---|---|---|
| Decimal.Render | src/app/analog-clock/analog-clock.component.ts:95 | The decimal text of a whole number is a non-empty string of digits. It has one digit exactly for values below 10, and starts with '0' only for 0. |
| Decimal.RenderValue | src/app/analog-clock/analog-clock.component.ts:95 | Reading the rendered digits back gives the number itself. |
| Decimal.LeadingZeroValue | src/app/analog-clock/analog-clock.component.ts:95 | Putting '0' in front of a digit string (the `'0' + value` branch) leaves its numeric value unchanged. |
| DigitalReadout.PadZero | src/app/analog-clock/analog-clock.component.ts:94-96 | The result is at least two digits. It starts with '0' exactly when the value is below 10. For values up to 99 it is exactly two digits worth 10·d0 + d1 = value. |
| DigitalReadout.PadZeroRoundTrip | src/app/analog-clock/analog-clock.component.ts:94-96 | For every non-negative value, the padded text reads back as that value. |
| DigitalReadout.PadZeroInjective | src/app/analog-clock/analog-clock.component.ts:94-96 | Different values never pad to the same text. |
| DigitalReadout.MeridianOf | src/app/analog-clock/analog-clock.component.ts:71 | PM exactly for hours ≥ 12, AM otherwise. MeridianRule states this through FormatTime's output. |
| DigitalReadout.DisplayHour | src/app/analog-clock/analog-clock.component.ts:72 | The displayed hour lies in 1..12 and is congruent to the hour modulo 12, so 0 and 12 both show as 12. |
| DigitalReadout.FormatTime | src/app/analog-clock/analog-clock.component.ts:70-82 | The readout has at least 11 characters. It ends in " PM" exactly when hours ≥ 12, and in " AM" otherwise. |
| DigitalReadout.FormatTimeLayout | src/app/analog-clock/analog-clock.component.ts:73-81 | For minutes and seconds below 60 the readout has 11 characters. Its fields are the padded display hour, ':' at 2, the padded minutes, ':' at 5, the padded seconds, ' ' at 8, then AM or PM. |
| DigitalReadout.MeridianRule | src/app/analog-clock/analog-clock.component.ts:71 | The meridian is "AM" if and only if hours < 12, and "PM" if and only if hours ≥ 12. |
| DigitalReadout.ReadoutRoundTrip | src/app/analog-clock/analog-clock.component.ts:70-82 | For a clock sample, reading the readout back gives the display hour, the minutes, the seconds and the meridian. Converting back to 24-hour form gives the original hour. |
| DigitalReadout.FormatTimeInjective | src/app/analog-clock/analog-clock.component.ts:70-82 | Two samples of one day with equal readouts are equal samples. |
| DigitalReadout.HalfDayShift | src/app/analog-clock/analog-clock.component.ts:71-72 | Hours h and h+12 give identical readouts up to the meridian, which is AM for h and PM for h+12. |
| DigitalReadout.MidnightAndNoon | src/app/analog-clock/analog-clock.component.ts:72 | Hours 0 and 12 both show "12". |
| DigitalReadout.MidnightExample | src/app/analog-clock/analog-clock.component.ts:70-82 | (0,5,9) gives "12:05:09 AM". |
| DigitalReadout.AfternoonExample | src/app/analog-clock/analog-clock.component.ts:70-82 | (13,0,0) gives "01:00:00 PM". |
| DigitalReadout.NoonExample | src/app/analog-clock/analog-clock.component.ts:70-82 | (12,0,0) gives "12:00:00 PM". |
| HandAngles.HourAngle | src/app/analog-clock/analog-clock.component.ts:132 | The hour angle equals 30·(h mod 12) + m/2 degrees. |
| HandAngles.HourAngleRange | src/app/analog-clock/analog-clock.component.ts:132 | For minutes below 60 the hour angle lies in [0, 360). |
| HandAngles.HourAngleHalfDay | src/app/analog-clock/analog-clock.component.ts:132 | Hours h and h+12 give the same hour angle. |
| HandAngles.HourAngleIncreasing | src/app/analog-clock/analog-clock.component.ts:132 | Within a fixed hour, the hour angle strictly increases with the minutes. |
| HandAngles.HourHandContinuous | src/app/analog-clock/analog-clock.component.ts:132 | Minute 60 of hour h is the angle of minute 0 of hour h+1, plus a full turn when the dial wraps from 11 to 12. |
| HandAngles.HourFollowsMinute | src/app/analog-clock/analog-clock.component.ts:132 | Within an hour the hour hand advances one twelfth of the minute hand's angle. |
| HandAngles.MinuteAngle | src/app/analog-clock/analog-clock.component.ts:137 | The minute angle equals 6·m + s/10 degrees. |
| HandAngles.MinuteAngleRange | src/app/analog-clock/analog-clock.component.ts:137 | For minutes and seconds below 60 the minute angle lies in [0, 360). |
| HandAngles.MinuteAngleIncreasing | src/app/analog-clock/analog-clock.component.ts:137 | Within a fixed minute, the minute angle strictly increases with the seconds. |
| HandAngles.MinuteHandContinuous | src/app/analog-clock/analog-clock.component.ts:137 | Second 60 of minute m gives the same angle as second 0 of minute m+1. |
| HandAngles.MinuteFollowsSecond | src/app/analog-clock/analog-clock.component.ts:137-142 | Within a minute the minute hand advances one sixtieth of the second hand's angle. |
| HandAngles.SecondAngle | src/app/analog-clock/analog-clock.component.ts:142 | The second angle is the whole number 6·s. |
| HandAngles.SecondAngleRange | src/app/analog-clock/analog-clock.component.ts:142 | For seconds below 60 the second angle is a whole multiple of 6 in [0, 354]. |
| HandAngles.HandAngleExamples | src/app/analog-clock/analog-clock.component.ts:131-144 | hourAngle(3,30) = 105, minuteAngle(15,30) = 93, secondAngle(45) = 270. |
| ClockComponent.AnalogClock.constructor | src/app/analog-clock/analog-clock.component.ts:14-15 | Both readout fields start as the empty string. |
| ClockComponent.AnalogClock.DrawClock | src/app/analog-clock/analog-clock.component.ts:34-41 | After a redraw, `digitalTime` is the formatted readout of the sample and `digitalDate` is the date text. The readout has 11 characters and reads back to the sample's fields and 24-hour hour. |

## Left out

- `formatDate` (`toLocaleDateString` with `Intl` options): it depends on locale data outside the source. `DrawClock` takes its output as the `date` parameter.
- Reading the wall clock (`new Date()`, `getHours()` and so on): this is external input. The time sample is a parameter of every member.
- All canvas output: `clearRect`, `drawClockFace` with its numeral-placement loop, `drawHand`, `drawDigitalTime` and `drawDigitalDate`. These are pixel output through a foreign API, with floating-point `Math.cos`/`Math.sin` coordinates. The hand angles themselves are modelled.
- Lifecycle and timer: `ngOnInit`, `ngOnDestroy`, `setInterval`/`clearInterval`, the DOM lookup and the `{}` fallback context. These are framework and event-loop plumbing.
- IEEE double rounding in `m / 60 * 30` and similar: the angles are exact rationals, the arithmetic the formulas intend.
- DigitalReadout.PadZero: does not model negative or fractional inputs (`'0' + (-5)` gives "0-5"). Its argument is a `nat` because every call site passes a whole clock field or a display hour. Values from 100 up to, not including, 2^53 are modelled, and render unpadded as in the source.
- Decimal.Render / DigitalReadout.PadZero: the model does not capture JavaScript's switch to exponential notation from 10^21 upward (`1e21.toString()` is "1e+21"), nor the shortest-round-trip digits it prints above 2^53 (`2**60` prints as "1152921504606847000"). Both give plain, exact digits for every `nat`. The component only passes values up to 59.
