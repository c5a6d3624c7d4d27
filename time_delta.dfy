/** The elapsed time the Python scripts compute as `now - created`: a
    `datetime.timedelta`, which Python normalises to whole days plus a number of
    seconds in [0, 86400). The clock itself is an input of the model. */
module TimeDelta {

  type SecondsOfDay = s: int | 0 <= s < 86400

  datatype Elapsed = Elapsed(days: int, seconds: SecondsOfDay)
}
