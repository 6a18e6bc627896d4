/**
 * The recency window of `_within_hours` (bot.py:26-28) and of the thread
 * search (bot.py:168-171). Timestamps are whole seconds since the epoch and
 * the current time is a parameter.
 */
module Window {

  const SecondsPerHour: int := 3600

  /** `now - timedelta(hours=hours)`. */
  function Cutoff(now: int, hours: int): int {
    now - hours * SecondsPerHour
  }

  /** `_within_hours`: the timestamp is not older than the cutoff. */
  predicate WithinHours(created: int, hours: int, now: int) {
    created >= Cutoff(now, hours)
  }

  /**
   * A timestamp is within the window exactly when it is at most `hours`
   * hours before now; a longer window keeps everything a shorter one keeps.
   */
  lemma WithinHoursMeaning(created: int, hours: int, now: int)
    ensures WithinHours(created, hours, now) <==> now - created <= hours * 3600
    ensures forall longer: int :: longer >= hours && WithinHours(created, hours, now) ==> WithinHours(created, longer, now)
  {
    forall longer: int | longer >= hours && WithinHours(created, hours, now)
      ensures WithinHours(created, longer, now)
    {
      assert longer * 3600 >= hours * 3600;
    }
  }
}
