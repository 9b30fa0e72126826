/**
 * The digital readout of the analog clock component: a time sample
 * (hours 0..23, minutes 0..59, seconds 0..59) shown on a 12-hour clock
 * as "HH:MM:SS AM" or "HH:MM:SS PM".
 */
module DigitalReadout {
  import opened Decimal

  datatype Option<T> = None | Some(value: T)

  datatype Meridian = AM | PM

  function MeridianText(m: Meridian): string {
    match m
    case AM => "AM"
    case PM => "PM"
  }

  /** Morning up to, not including, hour 12; afternoon from hour 12 on. */
  function MeridianOf(hours: nat): Meridian {
    if hours >= 12 then PM else AM
  }

  /**
   * The hour on a 12-hour dial: `hours % 12`, except that a remainder of 0
   * (falsy in the source's `hours % 12 || 12`) shows as 12.
   */
  function DisplayHour(hours: nat): (r: nat)
    ensures 1 <= r <= 12
    ensures r % 12 == hours % 12
  {
    if hours % 12 == 0 then 12 else hours % 12
  }

  /** `padZero`: at least two digits, a leading '0' exactly for values below 10. */
  function PadZero(value: nat): (r: string)
    ensures |r| >= 2 && AllDigits(r)
    ensures r[0] == '0' <==> value < 10
    ensures value < 100 ==> |r| == 2 && DigitValue(r[0]) * 10 + DigitValue(r[1]) == value
  {
    if value < 10 then "0" + Render(value)
    else
      assert value < 100 ==> Render(value) == [DigitChar(value / 10), DigitChar(value % 10)];
      Render(value)
  }

  /** `formatTime`: the readout text of one time sample. */
  function FormatTime(hours: nat, minutes: nat, seconds: nat): (r: string)
    ensures |r| >= 11
    ensures r[|r| - 3..] == if hours >= 12 then " PM" else " AM"
  {
    PadZero(DisplayHour(hours)) + ":" + PadZero(minutes) + ":" + PadZero(seconds)
      + " " + MeridianText(MeridianOf(hours))
  }

  /** The fields of a readout, as a reader of the text sees them. */
  datatype Readout = Readout(hour: nat, minute: nat, second: nat, meridian: Meridian)

  /** Reads an "HH:MM:SS AM|PM" text back into its fields; None for any other text. */
  function ParseReadout(s: string): Option<Readout> {
    if |s| == 11 && s[2] == ':' && s[5] == ':' && s[8] == ' '
       && AllDigits(s[..2]) && AllDigits(s[3..5]) && AllDigits(s[6..8])
       && (s[9..] == "AM" || s[9..] == "PM")
    then Some(Readout(Value(s[..2]), Value(s[3..5]), Value(s[6..8]),
                      if s[9..] == "AM" then AM else PM))
    else None
  }

  /** The 24-hour clock hour a readout denotes: 12 AM is midnight, 12 PM is noon. */
  function Hour24(r: Readout): nat {
    r.hour % 12 + if r.meridian == PM then 12 else 0
  }

  /** Every value, padded or not, reads back as itself. */
  lemma PadZeroRoundTrip(value: nat)
    ensures Value(PadZero(value)) == value
  {
    RenderValue(value);
    if value < 10 {
      LeadingZeroValue(Render(value));
    }
  }

  lemma PadZeroInjective(a: nat, b: nat)
    requires PadZero(a) == PadZero(b)
    ensures a == b
  {
    PadZeroRoundTrip(a);
    PadZeroRoundTrip(b);
  }

  /**
   * For minutes and seconds of a clock, the readout has eleven characters:
   * the padded hour, ':' at 2, the padded minutes, ':' at 5, the padded
   * seconds, ' ' at 8 and the meridian in the last two.
   */
  lemma FormatTimeLayout(hours: nat, minutes: nat, seconds: nat)
    requires minutes < 60 && seconds < 60
    ensures var r := FormatTime(hours, minutes, seconds);
      && |r| == 11
      && r[..2] == PadZero(DisplayHour(hours))
      && r[2] == ':'
      && r[3..5] == PadZero(minutes)
      && r[5] == ':'
      && r[6..8] == PadZero(seconds)
      && r[8] == ' '
      && r[9..] == (if hours < 12 then "AM" else "PM")
  {
  }

  /** The meridian is "AM" exactly for hours 0..11 and "PM" exactly for 12..23. */
  lemma MeridianRule(hours: nat, minutes: nat, seconds: nat)
    requires minutes < 60 && seconds < 60
    ensures FormatTime(hours, minutes, seconds)[9..] == "AM" <==> hours < 12
    ensures FormatTime(hours, minutes, seconds)[9..] == "PM" <==> hours >= 12
  {
    FormatTimeLayout(hours, minutes, seconds);
  }

  /** Reading the readout back gives the 12-hour fields, and through Hour24 the sample itself. */
  lemma ReadoutRoundTrip(hours: nat, minutes: nat, seconds: nat)
    requires hours < 24 && minutes < 60 && seconds < 60
    ensures ParseReadout(FormatTime(hours, minutes, seconds))
            == Some(Readout(DisplayHour(hours), minutes, seconds, MeridianOf(hours)))
    ensures Hour24(ParseReadout(FormatTime(hours, minutes, seconds)).value) == hours
  {
    var r := FormatTime(hours, minutes, seconds);
    FormatTimeLayout(hours, minutes, seconds);
    PadZeroRoundTrip(DisplayHour(hours));
    PadZeroRoundTrip(minutes);
    PadZeroRoundTrip(seconds);
    assert Value(r[..2]) == DisplayHour(hours);
    assert Value(r[3..5]) == minutes;
    assert Value(r[6..8]) == seconds;
  }

  /** Two time samples of one day show the same readout only if they are the same sample. */
  lemma FormatTimeInjective(h1: nat, m1: nat, s1: nat, h2: nat, m2: nat, s2: nat)
    requires h1 < 24 && m1 < 60 && s1 < 60
    requires h2 < 24 && m2 < 60 && s2 < 60
    requires FormatTime(h1, m1, s1) == FormatTime(h2, m2, s2)
    ensures h1 == h2 && m1 == m2 && s1 == s2
  {
    ReadoutRoundTrip(h1, m1, s1);
    ReadoutRoundTrip(h2, m2, s2);
  }

  /** Hours h and h + 12 show the same digits and differ only in the meridian. */
  lemma HalfDayShift(hours: nat, minutes: nat, seconds: nat)
    requires hours < 12 && minutes < 60 && seconds < 60
    ensures FormatTime(hours + 12, minutes, seconds)[..9] == FormatTime(hours, minutes, seconds)[..9]
    ensures FormatTime(hours, minutes, seconds)[9..] == "AM"
    ensures FormatTime(hours + 12, minutes, seconds)[9..] == "PM"
  {
    assert DisplayHour(hours + 12) == DisplayHour(hours);
    FormatTimeLayout(hours, minutes, seconds);
    FormatTimeLayout(hours + 12, minutes, seconds);
  }

  /** Midnight and noon both show hour "12". */
  lemma MidnightAndNoon(minutes: nat, seconds: nat)
    requires minutes < 60 && seconds < 60
    ensures FormatTime(0, minutes, seconds)[..2] == "12"
    ensures FormatTime(12, minutes, seconds)[..2] == "12"
  {
    FormatTimeLayout(0, minutes, seconds);
    FormatTimeLayout(12, minutes, seconds);
    assert PadZero(12) == "12";
  }

  lemma MidnightExample()
    ensures FormatTime(0, 5, 9) == "12:05:09 AM"
  {
    assert DisplayHour(0) == 12;
    assert PadZero(12) == "12" && PadZero(5) == "05" && PadZero(9) == "09";
    assert FormatTime(0, 5, 9) == "12" + ":" + "05" + ":" + "09" + " " + "AM";
  }

  lemma AfternoonExample()
    ensures FormatTime(13, 0, 0) == "01:00:00 PM"
  {
    assert DisplayHour(13) == 1;
    assert PadZero(1) == "01" && PadZero(0) == "00";
    assert FormatTime(13, 0, 0) == "01" + ":" + "00" + ":" + "00" + " " + "PM";
  }

  lemma NoonExample()
    ensures FormatTime(12, 0, 0) == "12:00:00 PM"
  {
    assert DisplayHour(12) == 12;
    assert PadZero(12) == "12" && PadZero(0) == "00";
    assert FormatTime(12, 0, 0) == "12" + ":" + "00" + ":" + "00" + " " + "PM";
  }
}
