/** Instants in microseconds and the days they fall on. */
module Times {
  const DAY := 86400_000_000

  function DayAt(t: int): (day: int)
    ensures day * 86_400_000_000 <= t < (day + 1) * 86_400_000_000
  {
    t / DAY
  }
}
