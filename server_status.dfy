/** The lines of the status message (`get_server_status_string`), with times as
    integer seconds and the formatted timestamps kept as numbers. */
module ServerStatus {
  import opened BotTypes

  datatype StatusLine =
    | StatusRunning
    | StatusStopped
    | HelpHint
    | StartedAt(time: int)
    | AutoShutdownAt(time: int)
    | TimeRemaining(hours: int, minutes: int)
    | StartedUnknown
    | AutoShutdownUnknown
    | TimeRemainingUnknown

  /** `hours, remainder = divmod(seconds, 3600)`, then `minutes, _ = divmod(remainder, 60)`.
      Python's divmod floors; with positive divisors Dafny's `/` and `%` agree with it,
      also when the shutdown time has already passed and `seconds` is negative. */
  function HoursMinutes(seconds: int): (r: (int, int))
    ensures 0 <= r.1 < 60
    ensures r.0 * SecondsPerHour + r.1 * SecondsPerMinute <= seconds
    ensures seconds < r.0 * SecondsPerHour + r.1 * SecondsPerMinute + SecondsPerMinute
  {
    var hours := seconds / 3600;
    var remainder := seconds % 3600;
    (hours, remainder / 60)
  }

  /** Hours and minutes are the only pair with minutes in range that brackets `seconds`
      to the minute, so the display loses only the leftover seconds. */
  lemma HoursMinutesUnique(seconds: int, h: int, m: int)
    requires 0 <= m < 60
    requires h * 3600 + m * 60 <= seconds < h * 3600 + m * 60 + 60
    ensures HoursMinutes(seconds) == (h, m)
  {
    var (h', m') := HoursMinutes(seconds);
    assert (h' * 60 + m') * 60 <= seconds < (h' * 60 + m') * 60 + 60;
    assert (h * 60 + m) * 60 <= seconds < (h * 60 + m) * 60 + 60;
    assert h' * 60 + m' == h * 60 + m;
  }

  /** The status lines for the current liveness, the recorded start time and the time now. */
  function StatusLines(running: bool, startTime: Option<int>, now: int): (r: seq<StatusLine>)
    ensures |r| == if running then 4 else 2
    ensures r[0] == if running then StatusRunning else StatusStopped
    ensures !running ==> r[1] == HelpHint
    // A known start time shows the start, the shutdown due twelve hours later, and the
    // time left until then to the minute.
    ensures running && startTime.Some? ==>
      var due := startTime.value + ShutdownDelayHours * SecondsPerHour;
      r[1] == StartedAt(startTime.value) && r[2] == AutoShutdownAt(due) &&
      r[3].TimeRemaining? && 0 <= r[3].minutes < 60 &&
      r[3].hours * SecondsPerHour + r[3].minutes * SecondsPerMinute <= due - now <
        r[3].hours * SecondsPerHour + r[3].minutes * SecondsPerMinute + SecondsPerMinute
    // An unknown start time (the bot restarted while the server ran) shows three unknowns.
    ensures running && startTime == None ==> r[1..] == [StartedUnknown, AutoShutdownUnknown, TimeRemainingUnknown]
  {
    if running then
      match startTime
      case Some(t) =>
        var due := t + ShutdownDelayHours * SecondsPerHour;
        var (hours, minutes) := HoursMinutes(due - now);
        [StatusRunning, StartedAt(t), AutoShutdownAt(due), TimeRemaining(hours, minutes)]
      case None =>
        [StatusRunning, StartedUnknown, AutoShutdownUnknown, TimeRemainingUnknown]
    else
      [StatusStopped, HelpHint]
  }
}
