/**
 * The charge/stability minigame of the focus stage.
 *
 * Charge is a whole percentage. Stability moves in steps of 2.5 %, 0.5 % and
 * 1 %, so it is kept in half-percent units: every value the game can reach is
 * a multiple of 0.5 %, which makes this exact. The gain is 5 units, the
 * half-rate decay while charging 1 unit, the decay after release 2 units, the
 * target 180 units and the cap 200 units.
 */
module Resonance {

  type HalfPercent = int

  /** A whole percentage expressed in half-percent units. */
  function Pct(p: int): HalfPercent { 2 * p }

  const FULL_CHARGE: int := 100
  const FOCUS_CHARGE_INCREMENT: int := 2
  const FOCUS_CHARGE_DECAY_RATE: int := 3
  const FOCUS_STABILITY_GAIN_RATE: HalfPercent := 5   // 2.5 %
  const FOCUS_STABILITY_DECAY_RATE: HalfPercent := 2  // 1 %
  const FULL_STABILITY: HalfPercent := Pct(100)
  const RESONANCE_TARGET_STABILITY: HalfPercent := Pct(90)
  const RESONANCE_SWEET_SPOT_MIN: int := 70
  const RESONANCE_SWEET_SPOT_MAX: int := 95

  function Min(a: int, b: int): int { if a <= b then a else b }
  function Max(a: int, b: int): int { if a >= b then a else b }

  /** The two readings of the energy matrix. */
  datatype Gauge = Gauge(charge: int, stability: HalfPercent)

  const Rest := Gauge(0, 0)

  /** Both readings at 0: the condition on which a decay interval clears itself. */
  predicate AtRest(g: Gauge)
  {
    g.charge == 0 && g.stability == 0
  }

  predicate InRange(g: Gauge)
  {
    0 <= g.charge <= FULL_CHARGE && 0 <= g.stability <= FULL_STABILITY
  }

  predicate InSweetSpot(charge: int)
  {
    RESONANCE_SWEET_SPOT_MIN <= charge <= RESONANCE_SWEET_SPOT_MAX
  }

  /** The success test that a charge tick applies to its own result. */
  predicate LockReached(g: Gauge)
  {
    g.charge >= FULL_CHARGE && g.stability >= RESONANCE_TARGET_STABILITY
  }

  // ---------------------------------------------------------------------------
  // One tick of each interval, on the readings alone
  // ---------------------------------------------------------------------------

  /**
   * The readings after one firing of the charge interval. Charge climbs by 2
   * up to the cap; stability gains 2.5 % (capped) when the new charge is in
   * the sweet spot and otherwise loses 0.5 % (floored at 0).
   */
  function ChargeStep(g: Gauge): (r: Gauge)
    requires InRange(g)
    ensures InRange(r)
    ensures g.charge <= r.charge <= g.charge + FOCUS_CHARGE_INCREMENT
    ensures r.charge == FULL_CHARGE || r.charge == g.charge + FOCUS_CHARGE_INCREMENT
    ensures InSweetSpot(r.charge) ==>
      g.stability <= r.stability <= g.stability + FOCUS_STABILITY_GAIN_RATE &&
      (r.stability == FULL_STABILITY || r.stability == g.stability + FOCUS_STABILITY_GAIN_RATE)
    ensures !InSweetSpot(r.charge) ==>
      g.stability - FOCUS_STABILITY_DECAY_RATE / 2 <= r.stability <= g.stability &&
      (r.stability == 0 || r.stability == g.stability - FOCUS_STABILITY_DECAY_RATE / 2)
  {
    var charge := Min(FULL_CHARGE, g.charge + FOCUS_CHARGE_INCREMENT);
    var stability :=
      if InSweetSpot(charge) then Min(FULL_STABILITY, g.stability + FOCUS_STABILITY_GAIN_RATE)
      else Max(0, g.stability - FOCUS_STABILITY_DECAY_RATE / 2);
    Gauge(charge, stability)
  }

  /**
   * The readings after one firing of a decay interval: charge loses 3 and
   * stability 1 %, both floored at 0. Anything above rest strictly drops.
   */
  function DecayStep(g: Gauge): (r: Gauge)
    requires InRange(g)
    ensures InRange(r)
    ensures r.charge <= g.charge && r.stability <= g.stability
    ensures g.charge + g.stability > 0 ==> r.charge + r.stability < g.charge + g.stability
    ensures AtRest(r) <==>
      g.charge <= FOCUS_CHARGE_DECAY_RATE && g.stability <= FOCUS_STABILITY_DECAY_RATE
  {
    Gauge(Max(0, g.charge - FOCUS_CHARGE_DECAY_RATE),
          Max(0, g.stability - FOCUS_STABILITY_DECAY_RATE))
  }

  // ---------------------------------------------------------------------------
  // The colour band of the charge bar
  // ---------------------------------------------------------------------------

  datatype Band = SuccessHint | Nominal | Warning

  /**
   * The colour band of the charge bar: success when stability is at the target
   * and charge at the sweet spot's lower edge, otherwise nominal when stability
   * is above 50 % and charge above half that edge (35 %), otherwise warning.
   */
  function DisplayBand(g: Gauge): (b: Band)
    ensures b == SuccessHint <==>
      g.stability >= RESONANCE_TARGET_STABILITY && g.charge >= RESONANCE_SWEET_SPOT_MIN
    ensures b == Nominal <==>
      !(g.stability >= RESONANCE_TARGET_STABILITY && g.charge >= RESONANCE_SWEET_SPOT_MIN) &&
      g.stability > Pct(50) && 2 * g.charge > RESONANCE_SWEET_SPOT_MIN
    ensures b == Warning <==>
      !(g.stability >= RESONANCE_TARGET_STABILITY && g.charge >= RESONANCE_SWEET_SPOT_MIN) &&
      !(g.stability > Pct(50) && 2 * g.charge > RESONANCE_SWEET_SPOT_MIN)
  {
    if g.stability >= RESONANCE_TARGET_STABILITY && g.charge >= RESONANCE_SWEET_SPOT_MIN then SuccessHint
    else if g.stability > Pct(50) && 2 * g.charge > RESONANCE_SWEET_SPOT_MIN then Nominal
    else Warning
  }

  /** A reading that passes the lock test is always shown in the success band. */
  lemma LockShowsSuccessBand(g: Gauge)
    requires LockReached(g)
    ensures DisplayBand(g) == SuccessHint
  {
  }

  // ---------------------------------------------------------------------------
  // The whole minigame: readings plus its timers and button
  // ---------------------------------------------------------------------------

  /**
   * State of the focus minigame. `charging` is "the charge interval handle is
   * set"; `decayTimers` counts the decay intervals still running (their
   * handles are never stored, so nothing but their own tick can stop them);
   * `locked` is the "Lock Achieved" state; `leapScheduled` is the pending
   * timeout that advances to the leap stage.
   */
  datatype Minigame = Minigame(
    gauge: Gauge,
    charging: bool,
    buttonEnabled: bool,
    locked: bool,
    decayTimers: nat,
    leapScheduled: bool)

  /** Before the focus stage: nothing charged, button disabled, no timers. */
  const Dormant := Minigame(Rest, false, false, false, 0, false)

  ghost predicate Inv(m: Minigame)
  {
    InRange(m.gauge) &&
    (m.charging ==> m.buttonEnabled) &&
    (m.locked ==> !m.buttonEnabled)
  }

  /** Entering the focus stage: readings reset to 0, button enabled and relabelled. */
  function EnterFocus(m: Minigame): (r: Minigame)
    ensures Inv(r) && r.gauge == Rest && r.buttonEnabled && !r.locked
    ensures r.charging == m.charging && r.decayTimers == m.decayTimers
    ensures r.leapScheduled == m.leapScheduled
  {
    m.(gauge := Rest, buttonEnabled := true, locked := false)
  }

  /**
   * A press on the focus button. A disabled button delivers no event; the
   * handler itself ignores the press outside the focus stage, at full charge,
   * or while the charge interval is already running.
   */
  function Press(m: Minigame, inFocus: bool): (r: Minigame)
    requires Inv(m)
    ensures Inv(r)
    ensures r.charging <==>
      m.charging || (m.buttonEnabled && inFocus && m.gauge.charge < FULL_CHARGE)
    ensures r.(charging := m.charging) == m
  {
    if !m.buttonEnabled || !inFocus || m.gauge.charge >= FULL_CHARGE || m.charging then m
    else m.(charging := true)
  }

  /**
   * A touch press. It reaches the same handler as a mouse press, but the
   * button's disabled state is not taken to hold it back, so only the
   * handler's own guards apply: focus stage, charge below 100 %, no charge
   * interval running.
   */
  function TouchPress(m: Minigame, inFocus: bool): (r: Minigame)
    ensures r.charging <==> m.charging || (inFocus && m.gauge.charge < FULL_CHARGE)
    ensures r.(charging := m.charging) == m
  {
    if !inFocus || m.gauge.charge >= FULL_CHARGE || m.charging then m
    else m.(charging := true)
  }

  /**
   * A release (mouse up, mouse leave, touch end, touch cancel). It acts only
   * when the charge interval is running: it clears it and starts one more
   * decay interval.
   */
  function Release(m: Minigame): (r: Minigame)
    requires Inv(m)
    ensures Inv(r) && !r.charging
    ensures r.decayTimers == m.decayTimers + (if m.charging then 1 else 0)
    ensures r.(charging := m.charging, decayTimers := m.decayTimers) == m
  {
    if !m.charging then m
    else m.(charging := false, decayTimers := m.decayTimers + 1)
  }

  /**
   * One firing of the charge interval. At full charge with stability at the
   * target it clears its own interval, disables the button, locks and
   * schedules the advance to the leap stage; otherwise only the readings move.
   */
  function ChargeTick(m: Minigame): (r: Minigame)
    requires Inv(m) && m.charging
    ensures Inv(r)
    ensures r.gauge == ChargeStep(m.gauge)
    ensures r.locked <==> LockReached(r.gauge)
    ensures r.charging <==> !r.locked
    ensures r.buttonEnabled <==> !r.locked
    ensures r.leapScheduled <==> m.leapScheduled || r.locked
    ensures r.decayTimers == m.decayTimers
  {
    var g := ChargeStep(m.gauge);
    if LockReached(g) then
      m.(gauge := g, charging := false, buttonEnabled := false, locked := true, leapScheduled := true)
    else
      m.(gauge := g)
  }

  /**
   * One firing of one decay interval. That interval retires at the end of the
   * tick if both readings are then 0.
   */
  function DecayTick(m: Minigame): (r: Minigame)
    requires Inv(m) && m.decayTimers > 0
    ensures Inv(r)
    ensures r.gauge == DecayStep(m.gauge)
    ensures r.decayTimers == m.decayTimers - (if AtRest(r.gauge) then 1 else 0)
    ensures r.(gauge := m.gauge, decayTimers := m.decayTimers) == m
  {
    var g := DecayStep(m.gauge);
    m.(gauge := g, decayTimers := if AtRest(g) then m.decayTimers - 1 else m.decayTimers)
  }

  // ---------------------------------------------------------------------------
  // Properties of the minigame
  // ---------------------------------------------------------------------------

  /** Once locked, presses and releases change nothing. */
  lemma LockIsFinal(m: Minigame, inFocus: bool)
    requires Inv(m) && m.locked
    ensures Press(m, inFocus) == m && Release(m) == m
  {
  }

  /**
   * A touch press does nothing to a locked minigame as long as the charge is
   * still full, which holds until a decay interval fires.
   */
  lemma TouchAtFullChargeChangesNothing(m: Minigame, inFocus: bool)
    requires Inv(m) && m.gauge.charge == FULL_CHARGE
    ensures TouchPress(m, inFocus) == m
  {
  }

  /**
   * After a lock, one firing of a decay interval still running takes the
   * charge to 97 %, and a touch press then restarts the charge interval on
   * the disabled button while the lock stands.
   */
  lemma TouchAfterLockRestartsCharging(m: Minigame)
    requires Inv(m) && m.locked && m.gauge.charge == FULL_CHARGE && m.decayTimers > 0
    ensures DecayTick(m).gauge.charge == FULL_CHARGE - FOCUS_CHARGE_DECAY_RATE
    ensures TouchPress(DecayTick(m), true).charging
    ensures TouchPress(DecayTick(m), true).locked && !TouchPress(DecayTick(m), true).buttonEnabled
  {
  }

  /**
   * Decay timers stack: a press and a release from a chargeable state leave
   * one more decay interval running, with no decay tick in between.
   */
  lemma PressReleaseAddsDecayTimer(m: Minigame)
    requires Inv(m) && m.buttonEnabled && !m.charging && m.gauge.charge < FULL_CHARGE
    ensures Release(Press(m, true)).decayTimers == m.decayTimers + 1
    ensures Release(Release(Press(Release(Press(m, true)), true))).decayTimers == m.decayTimers + 2
  {
  }

  /** The measure that every decay tick lowers: readings plus live decay timers. */
  function Potential(m: Minigame): (p: nat)
    requires Inv(m)
  {
    m.gauge.charge + m.gauge.stability + m.decayTimers
  }

  /**
   * Every decay tick strictly lowers charge + stability + live decay timers.
   * Without charge ticks (no charge interval), decay therefore stops: every
   * decay interval retires after finitely many ticks.
   */
  lemma DecayTickProgress(m: Minigame)
    requires Inv(m) && m.decayTimers > 0
    ensures Potential(DecayTick(m)) < Potential(m)
  {
    var r := DecayTick(m);
    if AtRest(m.gauge) {
      assert AtRest(r.gauge);
    }
  }

  // ---------------------------------------------------------------------------
  // Runs of ticks
  // ---------------------------------------------------------------------------

  /** The readings after n charge ticks and nothing else. */
  function Hold(g: Gauge, n: nat): (r: Gauge)
    requires InRange(g)
    ensures InRange(r)
  {
    if n == 0 then g else ChargeStep(Hold(g, n - 1))
  }

  /** The readings after n decay ticks and nothing else. */
  function Discharge(g: Gauge, n: nat): (r: Gauge)
    requires InRange(g)
    ensures InRange(r)
  {
    if n == 0 then g else DecayStep(Discharge(g, n - 1))
  }

  /** Ticks needed to bring charge and stability down to 0 by decay alone. */
  function DischargeTicks(g: Gauge): nat
    requires InRange(g)
  {
    Max((g.charge + FOCUS_CHARGE_DECAY_RATE - 1) / FOCUS_CHARGE_DECAY_RATE,
        (g.stability + FOCUS_STABILITY_DECAY_RATE - 1) / FOCUS_STABILITY_DECAY_RATE)
  }

  lemma {:induction false} DischargeClosedForm(g: Gauge, n: nat)
    requires InRange(g)
    ensures Discharge(g, n) ==
      Gauge(Max(0, g.charge - FOCUS_CHARGE_DECAY_RATE * n),
            Max(0, g.stability - FOCUS_STABILITY_DECAY_RATE * n))
  {
    if n > 0 {
      DischargeClosedForm(g, n - 1);
    }
  }

  /**
   * Decay alone brings the readings to rest after exactly DischargeTicks(g)
   * ticks, and not before.
   */
  lemma DischargeReachesRest(g: Gauge)
    requires InRange(g)
    ensures AtRest(Discharge(g, DischargeTicks(g)))
    ensures forall k: nat :: k < DischargeTicks(g) ==> !AtRest(Discharge(g, k))
  {
    DischargeClosedForm(g, DischargeTicks(g));
    forall k: nat | k < DischargeTicks(g)
      ensures !AtRest(Discharge(g, k))
    {
      DischargeClosedForm(g, k);
    }
  }

  /** Charge climbs by exactly 2 per held tick until it is capped. */
  lemma {:induction false} HoldCharge(g: Gauge, n: nat)
    requires InRange(g)
    ensures Hold(g, n).charge == Min(FULL_CHARGE, g.charge + FOCUS_CHARGE_INCREMENT * n)
  {
    if n > 0 {
      HoldCharge(g, n - 1);
    }
  }

  /**
   * Held at full charge with stability short of the target, the charge stays
   * at 100, stability never rises, and the lock is never reached: the only
   * way out is a release.
   */
  lemma {:induction false} HoldAtFullNeverLocks(g: Gauge, n: nat)
    requires InRange(g) && g.charge == FULL_CHARGE && g.stability < RESONANCE_TARGET_STABILITY
    ensures Hold(g, n).charge == FULL_CHARGE
    ensures Hold(g, n).stability <= g.stability
    ensures !LockReached(Hold(g, n))
  {
    if n > 0 {
      HoldAtFullNeverLocks(g, n - 1);
    }
  }

  /**
   * A charge tick at full charge with stability short of the target keeps the
   * charge interval running and the button enabled, leaves charge at 100 %,
   * and takes 0.5 % of stability away (100 % is outside the sweet spot).
   */
  lemma UnstableFullChargeKeepsCharging(m: Minigame)
    requires Inv(m) && m.charging
    requires m.gauge.charge == FULL_CHARGE && m.gauge.stability < RESONANCE_TARGET_STABILITY
    ensures ChargeTick(m) ==
      m.(gauge := Gauge(FULL_CHARGE, Max(0, m.gauge.stability - FOCUS_STABILITY_DECAY_RATE / 2)))
  {
  }

  /** A lock is reached only from 98 % charge or more and more than 90 % stability. */
  lemma LockNeedsMargin(g: Gauge)
    requires InRange(g) && LockReached(ChargeStep(g))
    ensures g.charge >= FULL_CHARGE - FOCUS_CHARGE_INCREMENT
    ensures g.stability > RESONANCE_TARGET_STABILITY
  {
  }

  lemma {:induction false} RampToSweetSpot(k: nat)
    requires k <= 34
    ensures Hold(Rest, k) == Gauge(2 * k, 0)
  {
    if k > 0 {
      RampToSweetSpot(k - 1);
    }
  }

  lemma {:induction false} ThroughSweetSpot(k: nat)
    requires k <= 13
    ensures Hold(Rest, 34 + k) == Gauge(68 + 2 * k, 5 * k)
  {
    if k == 0 {
      RampToSweetSpot(34);
    } else {
      ThroughSweetSpot(k - 1);
    }
  }

  /**
   * Holding from rest with no release: the first 49 ticks stay below full
   * charge, and the 50th reaches 100 % with stability exactly 31 % (13 sweet
   * spot ticks at +2.5 %, then three at -0.5 %). That tick fails the lock
   * test and the bar shows the warning band.
   */
  lemma UninterruptedChargeFromRest()
    ensures forall k: nat :: k < 50 ==> Hold(Rest, k).charge < FULL_CHARGE
    ensures Hold(Rest, 50) == Gauge(FULL_CHARGE, Pct(31))
    ensures !LockReached(Hold(Rest, 50))
    ensures DisplayBand(Hold(Rest, 50)) == Warning
  {
    forall k: nat | k < 50
      ensures Hold(Rest, k).charge < FULL_CHARGE
    {
      HoldCharge(Rest, k);
    }
    ThroughSweetSpot(13);
    assert Hold(Rest, 48) == Gauge(96, 64);
    assert Hold(Rest, 49) == Gauge(98, 63);
  }

  // ---------------------------------------------------------------------------
  // Schedules: any interleaving of presses, releases and timer firings
  // ---------------------------------------------------------------------------

  /**
   * What the event loop can deliver during the focus stage: a press, a
   * release, a firing of the charge interval, or a firing of one of the
   * decay intervals. An interval that is not running does not fire.
   */
  datatype Event = PressButton | ReleaseButton | ChargeFires | DecayFires

  function Step(m: Minigame, e: Event): (r: Minigame)
    requires Inv(m)
    ensures Inv(r)
  {
    match e
    case PressButton => Press(m, true)
    case ReleaseButton => Release(m)
    case ChargeFires => if m.charging then ChargeTick(m) else m
    case DecayFires => if m.decayTimers > 0 then DecayTick(m) else m
  }

  /**
   * The minigame after a schedule of events. Whatever the order of inputs and
   * timer firings, both readings stay within [0, 100] %.
   */
  function RunSchedule(m: Minigame, es: seq<Event>): (r: Minigame)
    requires Inv(m)
    ensures Inv(r)
    decreases |es|
  {
    if es == [] then m else RunSchedule(Step(m, es[0]), es[1..])
  }

  function Repeat(e: Event, n: nat): (es: seq<Event>)
    ensures |es| == n && forall i :: 0 <= i < n ==> es[i] == e
  {
    seq(n, _ => e)
  }

  lemma {:induction false} RunScheduleAppend(m: Minigame, a: seq<Event>, b: seq<Event>)
    requires Inv(m)
    ensures RunSchedule(m, a + b) == RunSchedule(RunSchedule(m, a), b)
    decreases |a|
  {
    if a != [] {
      assert (a + b)[0] == a[0] && (a + b)[1..] == a[1..] + b;
      RunScheduleAppend(Step(m, a[0]), a[1..], b);
    } else {
      assert a + b == b;
    }
  }

  /**
   * A lock is final: after it, no schedule restarts the charge interval,
   * re-enables the button or clears the lock.
   */
  lemma {:induction false} LockSurvivesSchedule(m: Minigame, es: seq<Event>)
    requires Inv(m) && m.locked
    ensures RunSchedule(m, es).locked
    ensures !RunSchedule(m, es).charging && !RunSchedule(m, es).buttonEnabled
    decreases |es|
  {
    if es != [] {
      LockSurvivesSchedule(Step(m, es[0]), es[1..]);
    }
  }

  /** Stability gains exactly 2.5 % per held tick while the charge stays in the sweet spot. */
  lemma {:induction false} SweetRun(g: Gauge, k: nat)
    requires InRange(g) && RESONANCE_SWEET_SPOT_MIN - FOCUS_CHARGE_INCREMENT <= g.charge
    requires g.charge + FOCUS_CHARGE_INCREMENT * k <= RESONANCE_SWEET_SPOT_MAX
    requires g.stability + FOCUS_STABILITY_GAIN_RATE * k <= FULL_STABILITY
    ensures Hold(g, k) == Gauge(g.charge + FOCUS_CHARGE_INCREMENT * k,
                                g.stability + FOCUS_STABILITY_GAIN_RATE * k)
  {
    if k > 0 {
      SweetRun(g, k - 1);
    }
  }

  /**
   * Held with every new charge outside the sweet spot (climbing towards 70 %,
   * or above 95 %), stability loses exactly 0.5 % per tick, floored at 0.
   */
  lemma {:induction false} OffSpotRun(g: Gauge, k: nat)
    requires InRange(g)
    requires g.charge + FOCUS_CHARGE_INCREMENT * k < RESONANCE_SWEET_SPOT_MIN ||
             g.charge > RESONANCE_SWEET_SPOT_MAX - FOCUS_CHARGE_INCREMENT
    ensures Hold(g, k).stability == Max(0, g.stability - FOCUS_STABILITY_DECAY_RATE / 2 * k)
  {
    if k > 0 {
      OffSpotRun(g, k - 1);
      HoldCharge(g, k);
    }
  }

  /** Charge firings below full charge only move the readings, as Hold says. */
  lemma {:induction false} RunCharges(m: Minigame, n: nat)
    requires Inv(m) && m.charging && Hold(m.gauge, n).charge < FULL_CHARGE
    ensures RunSchedule(m, Repeat(ChargeFires, n)) == m.(gauge := Hold(m.gauge, n))
  {
    if n > 0 {
      HoldCharge(m.gauge, n - 1);
      HoldCharge(m.gauge, n);
      RunCharges(m, n - 1);
      assert Repeat(ChargeFires, n) == Repeat(ChargeFires, n - 1) + [ChargeFires];
      RunScheduleAppend(m, Repeat(ChargeFires, n - 1), [ChargeFires]);
    }
  }

  /** Decay firings that do not reach rest only move the readings, as Discharge says. */
  lemma {:induction false} RunDecays(m: Minigame, n: nat)
    requires Inv(m) && m.decayTimers > 0 && !AtRest(Discharge(m.gauge, n))
    ensures RunSchedule(m, Repeat(DecayFires, n)) == m.(gauge := Discharge(m.gauge, n))
  {
    if n > 0 {
      RunDecays(m, n - 1);
      assert Repeat(DecayFires, n) == Repeat(DecayFires, n - 1) + [DecayFires];
      RunScheduleAppend(m, Repeat(DecayFires, n - 1), [DecayFires]);
    }
  }

  /** Hold from focus entry to 94 %, release, and decay back to 70 %: stability ends at 24.5 %. */
  function Opening(): seq<Event>
  {
    [PressButton] + Repeat(ChargeFires, 47) + [ReleaseButton] + Repeat(DecayFires, 8)
  }

  lemma OpeningReachesSweetSpot()
    ensures RunSchedule(EnterFocus(Dormant), Opening()) ==
      EnterFocus(Dormant).(gauge := Gauge(RESONANCE_SWEET_SPOT_MIN, 49), decayTimers := 1)
  {
    var m0 := EnterFocus(Dormant);
    var m1 := Step(m0, PressButton);
    ThroughSweetSpot(13);
    RunCharges(m1, 47);
    var m2 := Step(m1.(gauge := Gauge(94, 65)), ReleaseButton);
    DischargeClosedForm(m2.gauge, 8);
    RunDecays(m2, 8);
    RunScheduleAppend(m0, [PressButton], Repeat(ChargeFires, 47));
    RunScheduleAppend(m0, [PressButton] + Repeat(ChargeFires, 47), [ReleaseButton]);
    RunScheduleAppend(m0, [PressButton] + Repeat(ChargeFires, 47) + [ReleaseButton], Repeat(DecayFires, 8));
  }

  /**
   * n periods of 100 ms while holding with one decay interval running: the
   * 50 ms charge interval fires twice, then the 100 ms decay interval once.
   */
  function Paced(n: nat): (es: seq<Event>)
    ensures |es| == 3 * n
  {
    if n == 0 then [] else Paced(n - 1) + [ChargeFires, ChargeFires, DecayFires]
  }

  /** The readings after n such periods. */
  function PacedGauge(g: Gauge, n: nat): (r: Gauge)
    requires InRange(g)
    ensures InRange(r)
  {
    if n == 0 then g else DecayStep(ChargeStep(ChargeStep(PacedGauge(g, n - 1))))
  }

  /**
   * Paced periods that each start at 95 % charge or less neither lock nor
   * reach rest, so they only move the readings, as PacedGauge says.
   */
  lemma {:induction false} RunPaced(m: Minigame, n: nat)
    requires Inv(m) && m.charging && m.decayTimers > 0
    requires forall k :: 0 <= k < n ==> PacedGauge(m.gauge, k).charge <= RESONANCE_SWEET_SPOT_MAX
    ensures RunSchedule(m, Paced(n)) == m.(gauge := PacedGauge(m.gauge, n))
  {
    if n > 0 {
      RunPaced(m, n - 1);
      var m1 := m.(gauge := PacedGauge(m.gauge, n - 1));
      assert m1.gauge.charge <= RESONANCE_SWEET_SPOT_MAX;
      RunScheduleAppend(m, Paced(n - 1), [ChargeFires, ChargeFires, DecayFires]);
      var m2 := Step(m1, ChargeFires);
      assert m2 == m1.(gauge := ChargeStep(m1.gauge));
      var m3 := Step(m2, ChargeFires);
      assert m3 == m1.(gauge := ChargeStep(ChargeStep(m1.gauge)));
      assert RunSchedule(m1, [ChargeFires, ChargeFires, DecayFires]) == Step(m3, DecayFires);
    }
  }

  /**
   * Below the cap and inside the sweet spot, each paced period adds 1 % charge
   * (+4, -3) and 4 % stability (+5 %, -1 %).
   */
  lemma {:induction false} PacedSweetRun(g: Gauge, j: nat)
    requires InRange(g) && RESONANCE_SWEET_SPOT_MIN <= g.charge
    requires g.charge + j + 3 <= RESONANCE_SWEET_SPOT_MAX
    requires g.stability + 8 * j + 2 <= FULL_STABILITY
    ensures PacedGauge(g, j) == Gauge(g.charge + j, g.stability + 8 * j)
  {
    if j > 0 {
      PacedSweetRun(g, j - 1);
    }
  }

  /** One paced period, worked out from the readings it starts with. */
  lemma PacedPeriod(g: Gauge, n: nat, from: Gauge, to: Gauge)
    requires InRange(g) && PacedGauge(g, n) == from
    requires InRange(from) && DecayStep(ChargeStep(ChargeStep(from))) == to
    ensures PacedGauge(g, n + 1) == to
  {
  }

  /**
   * Paced on from (88 %, 96.5 %): stability sits at the cap and falls once
   * the charge passes 95 %. Each of the next eight periods starts at 95 % or
   * less, and they end at (96 %, 94.5 %).
   */
  lemma PacedNearCap(g: Gauge, n: nat)
    requires InRange(g) && PacedGauge(g, n) == Gauge(88, 193)
    ensures forall k :: n <= k < n + 8 ==> PacedGauge(g, k).charge <= RESONANCE_SWEET_SPOT_MAX
    ensures PacedGauge(g, n + 8) == Gauge(96, 189)
  {
    PacedPeriod(g, n, Gauge(88, 193), Gauge(89, 198));
    PacedPeriod(g, n + 1, Gauge(89, 198), Gauge(90, 198));
    PacedPeriod(g, n + 2, Gauge(90, 198), Gauge(91, 198));
    PacedPeriod(g, n + 3, Gauge(91, 198), Gauge(92, 198));
    PacedPeriod(g, n + 4, Gauge(92, 198), Gauge(93, 197));
    PacedPeriod(g, n + 5, Gauge(93, 197), Gauge(94, 197));
    PacedPeriod(g, n + 6, Gauge(94, 197), Gauge(95, 193));
    PacedPeriod(g, n + 7, Gauge(95, 193), Gauge(96, 189));
    forall k | n <= k < n + 8
      ensures PacedGauge(g, k).charge <= RESONANCE_SWEET_SPOT_MAX
    {
      assert k == n || k == n + 1 || k == n + 2 || k == n + 3 ||
             k == n + 4 || k == n + 5 || k == n + 6 || k == n + 7;
    }
  }

  /**
   * Paced from (70 %, 24.5 %): stability climbs 4 % per period for 18
   * periods, then sits near the cap; every one of n + 8 = 26 periods starts
   * at 95 % or less, and they end at (96 %, 94.5 %).
   */
  lemma PacedFromSweetSpot(g: Gauge, n: nat)
    requires g.charge == RESONANCE_SWEET_SPOT_MIN && g.stability == 49 && n == 18
    ensures forall k :: 0 <= k < n + 8 ==> PacedGauge(g, k).charge <= RESONANCE_SWEET_SPOT_MAX
    ensures PacedGauge(g, n + 8) == Gauge(96, 189)
  {
    PacedSweetRun(g, n);
    PacedNearCap(g, n);
    forall k | 0 <= k < n + 8
      ensures PacedGauge(g, k).charge <= RESONANCE_SWEET_SPOT_MAX
    {
      if k <= n {
        PacedSweetRun(g, k);
      }
    }
  }

  /**
   * The lock can be won with the intervals firing at their own rates. From
   * focus entry: hold to 94 %, release and let the decay interval bring the
   * charge back to 70 %, press again while that interval keeps running, and
   * hold. Every 100 ms the charge interval fires twice and the one decay
   * interval once; after 26 such periods the readings are (96 %, 94.5 %), and
   * the second charge firing after that reaches 100 % at 93.5 % and locks.
   */
  lemma LockIsReachable()
    ensures RunSchedule(EnterFocus(Dormant),
      Opening() + [PressButton] + Paced(26) + [ChargeFires, ChargeFires]).locked
  {
    var m0 := EnterFocus(Dormant);
    OpeningReachesSweetSpot();
    var m1 := RunSchedule(m0, Opening());
    var m2 := Step(m1, PressButton);
    var n := 18;
    PacedFromSweetSpot(m2.gauge, n);
    RunPaced(m2, n + 8);
    var m3 := m2.(gauge := Gauge(96, 189));
    var m4 := Step(m3, ChargeFires);
    assert m4.gauge == Gauge(98, 188) && !m4.locked;
    assert Step(m4, ChargeFires).locked;
    assert RunSchedule(m3, [ChargeFires, ChargeFires]) == Step(m4, ChargeFires);
    RunScheduleAppend(m0, Opening(), [PressButton]);
    RunScheduleAppend(m0, Opening() + [PressButton], Paced(26));
    RunScheduleAppend(m0, Opening() + [PressButton] + Paced(26), [ChargeFires, ChargeFires]);
  }
}
