/** The transit countdown started by the leap authorization. */
module Countdown {

  const LEAP_COUNTDOWN_SECONDS: nat := 5

  /**
   * The countdown display value, whether its one-second interval is still
   * running, and whether the delayed navigation has been scheduled.
   */
  datatype Transit = Transit(remaining: int, live: bool, navigationScheduled: bool)

  /** Right after authorization: five seconds to go, interval running. */
  const Authorized := Transit(LEAP_COUNTDOWN_SECONDS, true, false)

  /**
   * One firing of the countdown interval: one second less; at 0 or below the
   * interval clears itself and schedules the navigation.
   */
  function Tick(t: Transit): (r: Transit)
    requires t.live
    ensures r.remaining == t.remaining - 1
    ensures r.live <==> r.remaining > 0
    ensures r.navigationScheduled <==> t.navigationScheduled || r.remaining <= 0
  {
    var remaining := t.remaining - 1;
    if remaining <= 0 then Transit(remaining, false, true)
    else Transit(remaining, true, t.navigationScheduled)
  }

  /**
   * The countdown after k ticks from authorization. It shows 5 - k; the
   * interval keeps running for the first four ticks only, and the navigation
   * is scheduled at the fifth tick and not before; no sixth tick can fire.
   */
  function Run(k: nat): (r: Transit)
    requires k <= LEAP_COUNTDOWN_SECONDS
    ensures r.remaining == LEAP_COUNTDOWN_SECONDS - k
    ensures r.live <==> k < LEAP_COUNTDOWN_SECONDS
    ensures r.navigationScheduled <==> k == LEAP_COUNTDOWN_SECONDS
  {
    if k == 0 then Authorized else Tick(Run(k - 1))
  }
}
