/**
 * The interface's module-level state and its event handlers. Every timer
 * callback is a method that the browser's scheduler may call while that timer
 * is live; each call runs to completion before the next (single-threaded
 * event loop). DOM writes, sounds and log lines are not modelled; the button
 * states that gate events are (a disabled button delivers no click, press or
 * release).
 */
module TesseractInterface {
  import opened StageMachine
  import opened Resonance
  import opened Anchors
  import opened Countdown

  class Session {
    var stage: Stage

    // Initiation: the initiate button and its 2000 ms timeout.
    var initiateEnabled: bool
    var alignmentScheduled: bool

    // Alignment: the anchor nodes' "activated" flags, the counter, whether the
    // click handlers are attached, and the 1500 ms timeout to the focus stage.
    const nodes: array<bool>
    var activatedAnchors: int
    var nodeListeners: bool
    var focusScheduled: bool

    // Focus: the readings, the charge interval, the button, the decay
    // intervals still running and the 1500 ms timeout to the leap stage.
    var focusCharge: int
    var resonanceStability: HalfPercent
    var charging: bool
    var focusButtonEnabled: bool
    var lockAchieved: bool
    var decayTimers: nat
    var leapScheduled: bool

    // Leap: the leap button, the countdown interval and the navigation.
    var leapButtonEnabled: bool
    var countdown: int
    var countdownLive: bool
    var navigationScheduled: bool
    var navigated: bool
    ghost var leapAuthorized: bool
    ghost var countdownTicks: nat

    /** The focus-stage fields as one minigame value. */
    ghost function Game(): Minigame
      reads this
    {
      Minigame(Gauge(focusCharge, resonanceStability), charging, focusButtonEnabled,
               lockAchieved, decayTimers, leapScheduled)
    }

    /** The countdown fields as one value. */
    ghost function TransitState(): Transit
      reads this
    {
      Transit(countdown, countdownLive, navigationScheduled)
    }

    ghost predicate Valid()
      reads this, nodes
    {
      nodes.Length == TOTAL_ANCHORS &&
      activatedAnchors == CountActivated(nodes[..]) &&
      Inv(Game()) &&
      // each pending stage advance belongs to the stage it leaves
      (initiateEnabled ==> stage == Initiation && !alignmentScheduled) &&
      (alignmentScheduled ==> stage == Initiation) &&
      (nodeListeners ==> stage == Alignment && activatedAnchors < TOTAL_ANCHORS) &&
      (focusScheduled ==> stage == Alignment && !nodeListeners && activatedAnchors == TOTAL_ANCHORS) &&
      (Rank(stage) < Rank(Focus) ==> Game() == Dormant) &&
      (focusButtonEnabled ==> stage == Focus) &&
      (leapScheduled ==> stage == Focus && lockAchieved) &&
      (stage == Leap ==> lockAchieved && !leapScheduled) &&
      // the countdown runs once, after authorization
      (leapButtonEnabled ==> stage == Leap && !leapAuthorized) &&
      (leapAuthorized ==> stage == Leap && !leapButtonEnabled &&
                          countdownTicks <= LEAP_COUNTDOWN_SECONDS &&
                          TransitState() == Run(countdownTicks)) &&
      (!leapAuthorized ==> !countdownLive && !navigationScheduled) &&
      (navigated ==> navigationScheduled)
    }

    /** The page as loaded: initiation stage, initiate button enabled, all else idle. */
    constructor ()
      ensures Valid() && fresh(nodes)
      ensures stage == Initiation && initiateEnabled && !alignmentScheduled
      ensures activatedAnchors == 0 && !nodeListeners && !focusScheduled
      ensures Game() == Dormant
      ensures !leapButtonEnabled && !leapAuthorized && !navigated
    {
      var flags := new bool[TOTAL_ANCHORS](_ => false);
      NoneActivated(flags[..]);
      stage := Initiation;
      initiateEnabled, alignmentScheduled := true, false;
      nodes := flags;
      activatedAnchors, nodeListeners, focusScheduled := 0, false, false;
      focusCharge, resonanceStability := 0, 0;
      charging, focusButtonEnabled, lockAchieved := false, false, false;
      decayTimers, leapScheduled := 0, false;
      leapButtonEnabled := false;
      countdown, countdownLive, navigationScheduled, navigated := 0, false, false, false;
      leapAuthorized, countdownTicks := false, 0;
    }

    // -------------------------------------------------------------------------
    // Stage transitions
    // -------------------------------------------------------------------------

    /**
     * Makes `next` the current stage and runs its entry actions: alignment
     * resets the anchors, focus enables the focus button and resets the
     * minigame, leap enables the leap button.
     */
    method AdvanceStage(next: Stage)
      requires nodes.Length == TOTAL_ANCHORS
      modifies nodes, this`stage, this`activatedAnchors, this`nodeListeners,
               this`focusCharge, this`resonanceStability, this`focusButtonEnabled,
               this`lockAchieved, this`leapButtonEnabled
      ensures stage == next
      ensures next == Alignment ==>
        activatedAnchors == 0 && nodeListeners &&
        (forall i :: 0 <= i < nodes.Length ==> !nodes[i]) && CountActivated(nodes[..]) == 0
      ensures next != Alignment ==>
        nodes[..] == old(nodes[..]) && activatedAnchors == old(activatedAnchors) &&
        nodeListeners == old(nodeListeners)
      ensures Game() == if next == Focus then EnterFocus(old(Game())) else old(Game())
      ensures leapButtonEnabled <==> old(leapButtonEnabled) || next == Leap
    {
      stage := next;
      match next {
        case Initiation =>
        case Alignment =>
          SetupAlignmentStage();
        case Focus =>
          focusButtonEnabled := true;
          SetupFocusStage();
        case Leap =>
          leapButtonEnabled := true;
      }
    }

    /** The initiate button: disables itself and schedules the move to alignment. */
    method ClickInitiate()
      requires Valid()
      modifies this`initiateEnabled, this`alignmentScheduled
      ensures Valid()
      ensures old(initiateEnabled) ==> !initiateEnabled && alignmentScheduled
      ensures !old(initiateEnabled) ==>
        !initiateEnabled && alignmentScheduled == old(alignmentScheduled)
    {
      if !initiateEnabled {
        return;  // a disabled button delivers no click
      }
      initiateEnabled := false;
      alignmentScheduled := true;
    }

    /** The 2000 ms timeout after initiation: initiation -> alignment. */
    method FireInitiationTimeout()
      requires Valid() && alignmentScheduled
      modifies nodes, this`stage, this`activatedAnchors, this`nodeListeners,
               this`focusCharge, this`resonanceStability, this`focusButtonEnabled,
               this`lockAchieved, this`leapButtonEnabled, this`alignmentScheduled
      ensures Valid()
      ensures old(stage) == Initiation && stage == Next(old(stage))
      ensures !alignmentScheduled
      ensures activatedAnchors == 0 && nodeListeners
      ensures forall i :: 0 <= i < nodes.Length ==> !nodes[i]
      ensures Game() == old(Game()) && leapButtonEnabled == old(leapButtonEnabled)
    {
      alignmentScheduled := false;
      AdvanceStage(Alignment);
    }

    /** The 1500 ms timeout after the last anchor: alignment -> focus. */
    method FireAlignmentTimeout()
      requires Valid() && focusScheduled
      modifies nodes, this`stage, this`activatedAnchors, this`nodeListeners,
               this`focusCharge, this`resonanceStability, this`focusButtonEnabled,
               this`lockAchieved, this`leapButtonEnabled, this`focusScheduled
      ensures Valid()
      ensures old(stage) == Alignment && stage == Next(old(stage))
      ensures !focusScheduled
      ensures Game() == EnterFocus(old(Game()))
      ensures nodes[..] == old(nodes[..]) && activatedAnchors == old(activatedAnchors)
      ensures leapButtonEnabled == old(leapButtonEnabled)
    {
      focusScheduled := false;
      AdvanceStage(Focus);
    }

    /** The 1500 ms timeout after the resonance lock: focus -> leap. */
    method FireLeapTimeout()
      requires Valid() && leapScheduled
      modifies nodes, this`stage, this`activatedAnchors, this`nodeListeners,
               this`focusCharge, this`resonanceStability, this`focusButtonEnabled,
               this`lockAchieved, this`leapButtonEnabled, this`leapScheduled
      ensures Valid()
      ensures old(stage) == Focus && stage == Next(old(stage))
      ensures leapButtonEnabled
      ensures Game() == old(Game()).(leapScheduled := false)
      ensures nodes[..] == old(nodes[..]) && activatedAnchors == old(activatedAnchors)
    {
      leapScheduled := false;
      AdvanceStage(Leap);
    }

    // -------------------------------------------------------------------------
    // Alignment: the anchor nodes
    // -------------------------------------------------------------------------

    /** Alignment entry: counter to 0, every node deactivated, click handlers attached once. */
    method SetupAlignmentStage()
      requires nodes.Length == TOTAL_ANCHORS
      modifies nodes, this`activatedAnchors, this`nodeListeners
      ensures activatedAnchors == 0 && nodeListeners
      ensures forall i :: 0 <= i < nodes.Length ==> !nodes[i]
      ensures CountActivated(nodes[..]) == activatedAnchors
    {
      activatedAnchors := 0;
      var i := 0;
      while i < nodes.Length
        invariant 0 <= i <= nodes.Length
        invariant forall k :: 0 <= k < i ==> !nodes[k]
        modifies nodes
      {
        nodes[i] := false;
        i := i + 1;
      }
      nodeListeners := true;
      NoneActivated(nodes[..]);
    }

    /**
     * A click at node i (an index outside the nodes stands for a click that
     * is on no node). Only an attached handler on a node not yet activated
     * acts: it activates the node and counts it; the eighth activation
     * detaches the handlers and schedules the move to the focus stage.
     */
    method ClickNode(i: int)
      requires Valid()
      modifies nodes, this`activatedAnchors, this`nodeListeners, this`focusScheduled
      ensures Valid()
      ensures old(nodeListeners) && 0 <= i < nodes.Length && !old(nodes[i]) ==>
        nodes[..] == old(nodes[..])[i := true] &&
        activatedAnchors == old(activatedAnchors) + 1 &&
        (focusScheduled <==> activatedAnchors == TOTAL_ANCHORS) &&
        (nodeListeners <==> activatedAnchors < TOTAL_ANCHORS)
      ensures !(old(nodeListeners) && 0 <= i < nodes.Length && !old(nodes[i])) ==>
        nodes[..] == old(nodes[..]) && activatedAnchors == old(activatedAnchors) &&
        nodeListeners == old(nodeListeners) && focusScheduled == old(focusScheduled)
      ensures focusScheduled ==> forall k :: 0 <= k < nodes.Length ==> nodes[k]
    {
      FullCountMeansAllActivated(nodes[..]);
      if !nodeListeners || i < 0 || nodes.Length <= i {
        return;  // no handler attached, or the click is on no node
      }
      if nodes[i] {
        return;
      }
      ghost var before := nodes[..];
      nodes[i] := true;
      ActivateOne(before, i);
      assert nodes[..] == before[i := true];
      activatedAnchors := activatedAnchors + 1;
      if activatedAnchors >= TOTAL_ANCHORS {
        nodeListeners := false;
        focusScheduled := true;
      }
      FullCountMeansAllActivated(nodes[..]);
    }

    // -------------------------------------------------------------------------
    // Focus: the charge/stability minigame
    // -------------------------------------------------------------------------

    /** Focus entry: readings to 0, button enabled and labelled "Channel Energy". */
    method SetupFocusStage()
      modifies this`focusCharge, this`resonanceStability, this`focusButtonEnabled, this`lockAchieved
      ensures Game() == EnterFocus(old(Game()))
    {
      focusCharge := 0;
      resonanceStability := 0;
      focusButtonEnabled := true;
      lockAchieved := false;
    }

    /** Press on the focus button (mouse down or touch start). */
    method StartCharging()
      requires Valid()
      modifies this`charging
      ensures Valid()
      ensures Game() == Press(old(Game()), stage == Focus)
    {
      if !focusButtonEnabled {
        return;  // a disabled button delivers no press
      }
      if stage != Focus || focusCharge >= FULL_CHARGE || charging {
        return;
      }
      charging := true;
    }

    /** Clears the charge interval if it is running. */
    method StopCharging()
      modifies this`charging
      ensures !charging
    {
      if charging {
        charging := false;
      }
    }

    /**
     * Release (mouse up, mouse leave, touch end, touch cancel): only while
     * charging, clears the charge interval and starts a decay interval whose
     * handle is kept nowhere.
     */
    method StopChargingAndDecay()
      requires Valid()
      modifies this`charging, this`decayTimers
      ensures Valid()
      ensures Game() == Release(old(Game()))
    {
      if !charging {
        return;
      }
      StopCharging();
      decayTimers := decayTimers + 1;
    }

    /** One firing of the 50 ms charge interval. */
    method FireChargeTick()
      requires Valid() && charging
      modifies this`focusCharge, this`resonanceStability, this`charging,
               this`focusButtonEnabled, this`lockAchieved, this`leapScheduled
      ensures Valid()
      ensures Game() == ChargeTick(old(Game()))
    {
      focusCharge := Min(FULL_CHARGE, focusCharge + FOCUS_CHARGE_INCREMENT);
      if InSweetSpot(focusCharge) {
        resonanceStability := Min(FULL_STABILITY, resonanceStability + FOCUS_STABILITY_GAIN_RATE);
      } else {
        resonanceStability := Max(0, resonanceStability - FOCUS_STABILITY_DECAY_RATE / 2);
      }
      if focusCharge >= FULL_CHARGE {
        if resonanceStability >= RESONANCE_TARGET_STABILITY {
          StopCharging();
          focusButtonEnabled := false;
          lockAchieved := true;
          leapScheduled := true;
        }
        // otherwise: unstable at full charge, reported and nothing else
      }
    }

    /** One firing of one of the 100 ms decay intervals. */
    method FireDecayTick()
      requires Valid() && decayTimers > 0
      modifies this`focusCharge, this`resonanceStability, this`decayTimers
      ensures Valid()
      ensures Game() == DecayTick(old(Game()))
    {
      var changed := false;
      if focusCharge > 0 {
        focusCharge := Max(0, focusCharge - FOCUS_CHARGE_DECAY_RATE);
        changed := true;
      }
      if resonanceStability > 0 {
        resonanceStability := Max(0, resonanceStability - FOCUS_STABILITY_DECAY_RATE);
        changed := true;
      }
      var cleared := !changed;
      if focusCharge == 0 && resonanceStability == 0 {
        cleared := true;
      }
      if cleared {
        decayTimers := decayTimers - 1;
      }
    }

    // -------------------------------------------------------------------------
    // Leap: authorization, countdown, navigation
    // -------------------------------------------------------------------------

    /** The leap button: disables itself and starts the five-second countdown. */
    method InitiateHyperLeap()
      requires Valid()
      modifies this`leapButtonEnabled, this`countdown, this`countdownLive,
               this`leapAuthorized, this`countdownTicks
      ensures Valid()
      ensures old(leapButtonEnabled) ==>
        !leapButtonEnabled && leapAuthorized && TransitState() == Authorized && countdownTicks == 0
      ensures !old(leapButtonEnabled) ==>
        !leapButtonEnabled && TransitState() == old(TransitState()) &&
        leapAuthorized == old(leapAuthorized)
    {
      if !leapButtonEnabled {
        return;  // a disabled button delivers no click
      }
      leapButtonEnabled := false;
      countdown := LEAP_COUNTDOWN_SECONDS;
      countdownLive := true;
      leapAuthorized, countdownTicks := true, 0;
    }

    /** One firing of the one-second countdown interval. */
    method FireCountdownTick()
      requires Valid() && countdownLive
      modifies this`countdown, this`countdownLive, this`navigationScheduled, this`countdownTicks
      ensures Valid()
      ensures TransitState() == Tick(old(TransitState()))
      ensures countdownTicks == old(countdownTicks) + 1
    {
      countdown := countdown - 1;
      if countdown <= 0 {
        countdownLive := false;
        navigationScheduled := true;
      }
      countdownTicks := countdownTicks + 1;
    }

    /** The 2000 ms timeout after the countdown: the one navigation away. */
    method FireNavigation()
      requires Valid() && navigationScheduled && !navigated
      modifies this`navigated
      ensures Valid() && navigated
      ensures countdownTicks == LEAP_COUNTDOWN_SECONDS
    {
      navigated := true;
    }
  }
}
