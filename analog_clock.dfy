/**
 * The component's own state: the two readout strings that every redraw
 * recomputes from one time sample.
 */
module ClockComponent {
  import opened DigitalReadout

  class AnalogClock {
    var digitalTime: string
    var digitalDate: string

    /** Both readouts start empty, before the first draw. */
    constructor ()
      ensures digitalTime == "" && digitalDate == ""
    {
      digitalTime := "";
      digitalDate := "";
    }

    /**
     * The readout part of one redraw. The sample is what the wall clock
     * gives (hours 0..23, minutes and seconds 0..59); `date` is the
     * locale-formatted date text of the same instant.
     */
    method DrawClock(hours: nat, minutes: nat, seconds: nat, date: string)
      requires hours < 24 && minutes < 60 && seconds < 60
      modifies this
      ensures digitalTime == FormatTime(hours, minutes, seconds)
      ensures digitalDate == date
      ensures |digitalTime| == 11
      ensures ParseReadout(digitalTime) == Some(Readout(DisplayHour(hours), minutes, seconds, MeridianOf(hours)))
      ensures Hour24(ParseReadout(digitalTime).value) == hours
    {
      digitalTime := FormatTime(hours, minutes, seconds);
      digitalDate := date;
      FormatTimeLayout(hours, minutes, seconds);
      ReadoutRoundTrip(hours, minutes, seconds);
    }
  }
}
