/** The battery-powered flashlight with smooth on/off transitions
    (Assets/Scripts/AAA_Flashlight.cs). The frame time Time.deltaTime is the parameter
    dt. Transforms, headbob, sway, flicker, the lights and the battery UI are not
    modelled; the sounds are reported as a flag where the battery logic decides them. */
module AaaFlashlight {
  import UnityMath

  /** The BatteryPercent property: the charge as a fraction of the capacity, clamped to
      [0, 1], or 1 when the battery system is off. */
  function BatteryPercent(useBattery: bool, currentBattery: real, maxBattery: real): (p: real)
    requires maxBattery > 0.0
    ensures 0.0 <= p <= 1.0
    ensures !useBattery ==> p == 1.0
    ensures useBattery && 0.0 <= currentBattery <= maxBattery ==> p == currentBattery / maxBattery
    ensures useBattery && currentBattery <= 0.0 ==> p == 0.0
    ensures useBattery && currentBattery >= maxBattery ==> p == 1.0
  {
    if useBattery then UnityMath.Clamp01(currentBattery / maxBattery) else 1.0
  }

  /** The IsLowBattery property: the battery system is on and the percent is at or below the low threshold. */
  function IsLowBattery(useBattery: bool, percent: real, lowThreshold: real): bool
  {
    useBattery && percent <= lowThreshold
  }

  /** The IsCriticalBattery property: the same test against the critical threshold. */
  function IsCriticalBattery(useBattery: bool, percent: real, criticalThreshold: real): bool
  {
    useBattery && percent <= criticalThreshold
  }

  /** The editor's threshold correction: a critical threshold above the low one is
      lowered to it. */
  function ValidatedCriticalThreshold(criticalThreshold: real, lowThreshold: real): (c: real)
    ensures c <= lowThreshold
    ensures criticalThreshold <= lowThreshold ==> c == criticalThreshold
    ensures criticalThreshold > lowThreshold ==> c == lowThreshold
  {
    if criticalThreshold > lowThreshold then lowThreshold else criticalThreshold
  }

  /** With the thresholds in order, a critical battery is also a low one, and the
      editor correction always puts them in order. */
  lemma CriticalImpliesLow(useBattery: bool, percent: real, criticalThreshold: real, lowThreshold: real)
    ensures var c := ValidatedCriticalThreshold(criticalThreshold, lowThreshold);
            IsCriticalBattery(useBattery, percent, c) ==> IsLowBattery(useBattery, percent, lowThreshold)
  {
  }

  /** A smaller charge never reads as a larger percent. */
  lemma BatteryPercentMonotone(useBattery: bool, c: real, d: real, maxBattery: real)
    requires maxBattery > 0.0 && c <= d
    ensures BatteryPercent(useBattery, c, maxBattery) <= BatteryPercent(useBattery, d, maxBattery)
  {
    DivideMonotone(c, d, maxBattery);
  }

  /** Draining never lifts a battery out of the low or critical range: once the beeps
      start they keep going while the charge falls. */
  lemma DrainKeepsWarnings(useBattery: bool, before: real, after: real, maxBattery: real, threshold: real)
    requires maxBattery > 0.0 && after <= before
    ensures IsLowBattery(useBattery, BatteryPercent(useBattery, before, maxBattery), threshold) ==>
              IsLowBattery(useBattery, BatteryPercent(useBattery, after, maxBattery), threshold)
    ensures IsCriticalBattery(useBattery, BatteryPercent(useBattery, before, maxBattery), threshold) ==>
              IsCriticalBattery(useBattery, BatteryPercent(useBattery, after, maxBattery), threshold)
  {
    BatteryPercentMonotone(useBattery, after, before, maxBattery);
  }

  /** Dividing by a positive constant keeps the order. */
  lemma DivideMonotone(a: real, b: real, c: real)
    requires c > 0.0 && a <= b
    ensures a / c <= b / c
  {
    assert b / c - a / c == (b - a) / c;
  }

  /** CalculateBatteryIntensityFactor: full brightness (0.95 to 1) above the low
      threshold, 0.6 to 0.95 between the thresholds, 0.2 to 0.6 below the critical one.
      The thresholds are fractions with the low one below 1. */
  function IntensityFactor(percent: real, criticalThreshold: real, lowThreshold: real): (f: real)
    requires 0.0 <= percent <= 1.0
    requires 0.0 <= criticalThreshold <= lowThreshold < 1.0
    ensures 0.2 <= f <= 1.0
    ensures percent >= lowThreshold ==> 0.95 <= f
    ensures criticalThreshold <= percent < lowThreshold ==> 0.6 <= f <= 0.95
    ensures percent < criticalThreshold ==> f <= 0.6
  {
    if percent >= lowThreshold then
      UnityMath.Lerp(0.95, 1.0, (percent - lowThreshold) / (1.0 - lowThreshold))
    else if percent >= criticalThreshold then
      UnityMath.Lerp(0.6, 0.95, (percent - criticalThreshold) / (lowThreshold - criticalThreshold))
    else
      UnityMath.Lerp(0.2, 0.6, percent / criticalThreshold)
  }

  /** A fuller battery never gives a dimmer light. */
  lemma IntensityFactorMonotone(p: real, q: real, criticalThreshold: real, lowThreshold: real)
    requires 0.0 <= p <= q <= 1.0
    requires 0.0 <= criticalThreshold <= lowThreshold < 1.0
    ensures IntensityFactor(p, criticalThreshold, lowThreshold) <= IntensityFactor(q, criticalThreshold, lowThreshold)
  {
    if p >= lowThreshold {
      DivideMonotone(p - lowThreshold, q - lowThreshold, 1.0 - lowThreshold);
      UnityMath.LerpMonotone(0.95, 1.0, (p - lowThreshold) / (1.0 - lowThreshold), (q - lowThreshold) / (1.0 - lowThreshold));
    } else if p >= criticalThreshold && q < lowThreshold {
      var w := lowThreshold - criticalThreshold;
      DivideMonotone(p - criticalThreshold, q - criticalThreshold, w);
      UnityMath.LerpMonotone(0.6, 0.95, (p - criticalThreshold) / w, (q - criticalThreshold) / w);
    } else if q < criticalThreshold {
      DivideMonotone(p, q, criticalThreshold);
      UnityMath.LerpMonotone(0.2, 0.6, p / criticalThreshold, q / criticalThreshold);
    }
  }

  /** Above the low threshold the factor runs from 0.95 at the threshold to 1 on a
      full battery. */
  lemma IntensityFactorAtLowAndFull(criticalThreshold: real, lowThreshold: real)
    requires 0.0 <= criticalThreshold <= lowThreshold < 1.0
    ensures IntensityFactor(lowThreshold, criticalThreshold, lowThreshold) == 0.95
    ensures IntensityFactor(1.0, criticalThreshold, lowThreshold) == 1.0
  {
    var w := 1.0 - lowThreshold;
    assert (lowThreshold - lowThreshold) / w == 0.0;
    assert w / w == 1.0;
  }

  /** Below the low threshold the factor is 0.6 at the critical threshold (when that is
      lower) and 0.2 on an empty battery (when the critical threshold is positive). */
  lemma IntensityFactorAtCriticalAndEmpty(criticalThreshold: real, lowThreshold: real)
    requires 0.0 <= criticalThreshold <= lowThreshold < 1.0
    ensures criticalThreshold < lowThreshold ==> IntensityFactor(criticalThreshold, criticalThreshold, lowThreshold) == 0.6
    ensures criticalThreshold > 0.0 ==> IntensityFactor(0.0, criticalThreshold, lowThreshold) == 0.2
  {
    if criticalThreshold < lowThreshold {
      assert (criticalThreshold - criticalThreshold) / (lowThreshold - criticalThreshold) == 0.0;
    }
    if criticalThreshold > 0.0 {
      assert 0.0 / criticalThreshold == 0.0;
    }
  }

  class AaaFlashlight {
    const useBattery: bool
    const maxBattery: real
    const batteryDrainRate: real
    const rechargeRate: real
    const criticalBatteryThreshold: real
    const lowBatteryThreshold: real
    const turnOnSpeed: real
    const turnOffSpeed: real
    /** Whether the lowBatteryBeep clip is assigned. */
    const hasLowBatteryBeep: bool

    var isOn: bool
    var currentBattery: real
    var transitionProgress: real
    var isTransitioning: bool
    /** true while turning on, false while turning off. */
    var transitionDirection: bool
    var lowBatteryBeepTimer: real
    var lowBatteryBeepInterval: real

    /** The capacity is positive; BatteryPercent divides by it. */
    predicate Valid() {
      maxBattery > 0.0
    }

    /** The charge lies between empty and full. */
    predicate BatteryInRange()
      reads this
    {
      0.0 <= currentBattery <= maxBattery
    }

    /** The BatteryPercent property of this flashlight. */
    function Percent(): real
      requires Valid()
      reads this
    {
      BatteryPercent(useBattery, currentBattery, maxBattery)
    }

    /** Start: a full battery, and the light on (fully transitioned) or off as startsOn says. */
    constructor (useBattery: bool, maxBattery: real, batteryDrainRate: real, rechargeRate: real,
                 criticalBatteryThreshold: real, lowBatteryThreshold: real,
                 turnOnSpeed: real, turnOffSpeed: real, hasLowBatteryBeep: bool, startsOn: bool)
      requires maxBattery > 0.0
      ensures Valid() && BatteryInRange()
      ensures this.useBattery == useBattery && this.maxBattery == maxBattery
      ensures this.batteryDrainRate == batteryDrainRate && this.rechargeRate == rechargeRate
      ensures this.criticalBatteryThreshold == criticalBatteryThreshold
      ensures this.lowBatteryThreshold == lowBatteryThreshold
      ensures this.turnOnSpeed == turnOnSpeed && this.turnOffSpeed == turnOffSpeed
      ensures this.hasLowBatteryBeep == hasLowBatteryBeep
      ensures currentBattery == maxBattery && isOn == startsOn
      ensures transitionProgress == (if startsOn then 1.0 else 0.0)
      ensures !isTransitioning && lowBatteryBeepTimer == 0.0 && lowBatteryBeepInterval == 3.0
    {
      this.useBattery := useBattery;
      this.maxBattery := maxBattery;
      this.batteryDrainRate := batteryDrainRate;
      this.rechargeRate := rechargeRate;
      this.criticalBatteryThreshold := criticalBatteryThreshold;
      this.lowBatteryThreshold := lowBatteryThreshold;
      this.turnOnSpeed := turnOnSpeed;
      this.turnOffSpeed := turnOffSpeed;
      this.hasLowBatteryBeep := hasLowBatteryBeep;
      currentBattery := maxBattery;
      isOn := startsOn;
      transitionProgress := if startsOn then 1.0 else 0.0;
      isTransitioning := false;
      transitionDirection := false;
      lowBatteryBeepTimer := 0.0;
      lowBatteryBeepInterval := 3.0;
    }

    /** Switches on and starts the rising transition with fresh beep timing; it does
        nothing when on already or when the battery system is on and the battery is empty. */
    method TurnOn()
      modifies this
      ensures old(isOn) || (useBattery && old(currentBattery) <= 0.0) ==>
                isOn == old(isOn) && isTransitioning == old(isTransitioning)
                && transitionDirection == old(transitionDirection)
                && lowBatteryBeepTimer == old(lowBatteryBeepTimer)
                && lowBatteryBeepInterval == old(lowBatteryBeepInterval)
      ensures !(old(isOn) || (useBattery && old(currentBattery) <= 0.0)) ==>
                isOn && isTransitioning && transitionDirection
                && lowBatteryBeepTimer == 0.0 && lowBatteryBeepInterval == 3.0
      ensures currentBattery == old(currentBattery) && transitionProgress == old(transitionProgress)
    {
      if isOn {
        return;
      }
      if useBattery && currentBattery <= 0.0 {
        return;
      }
      isOn := true;
      isTransitioning := true;
      transitionDirection := true;
      lowBatteryBeepTimer := 0.0;
      lowBatteryBeepInterval := 3.0;
    }

    /** Switches off and starts the falling transition; it does nothing when off. */
    method TurnOff()
      modifies this
      ensures !old(isOn) ==> isTransitioning == old(isTransitioning)
                             && transitionDirection == old(transitionDirection)
      ensures old(isOn) ==> isTransitioning && !transitionDirection
      ensures !isOn
      ensures currentBattery == old(currentBattery) && transitionProgress == old(transitionProgress)
      ensures lowBatteryBeepTimer == old(lowBatteryBeepTimer)
      ensures lowBatteryBeepInterval == old(lowBatteryBeepInterval)
    {
      if !isOn {
        return;
      }
      isOn := false;
      isTransitioning := true;
      transitionDirection := false;
    }

    /** The switch-off of an emptied battery: unconditional, even when off already. */
    method ForceTurnOff()
      modifies this
      ensures !isOn && isTransitioning && !transitionDirection
      ensures currentBattery == old(currentBattery) && transitionProgress == old(transitionProgress)
      ensures lowBatteryBeepTimer == old(lowBatteryBeepTimer)
      ensures lowBatteryBeepInterval == old(lowBatteryBeepInterval)
    {
      isOn := false;
      isTransitioning := true;
      transitionDirection := false;
    }

    /** Turns off when on, otherwise tries to turn on, which an empty battery refuses. */
    method Toggle()
      modifies this
      ensures old(isOn) ==> !isOn && isTransitioning && !transitionDirection
      ensures !old(isOn) ==> (isOn <==> !(useBattery && old(currentBattery) <= 0.0))
      ensures isOn ==> isTransitioning && transitionDirection
      ensures !old(isOn) && isOn ==> lowBatteryBeepTimer == 0.0 && lowBatteryBeepInterval == 3.0
      ensures !old(isOn) && !isOn ==>
                isTransitioning == old(isTransitioning) && transitionDirection == old(transitionDirection)
      ensures !(!old(isOn) && isOn) ==>
                lowBatteryBeepTimer == old(lowBatteryBeepTimer) && lowBatteryBeepInterval == old(lowBatteryBeepInterval)
      ensures currentBattery == old(currentBattery) && transitionProgress == old(transitionProgress)
    {
      if isOn {
        TurnOff();
      } else {
        TurnOn();
      }
    }

    /** One frame of the battery system. While on: the drain is applied; an emptied
        battery is clamped to 0 and forces the light off; otherwise, at or below the low
        threshold with a beep clip, the beep timer runs and, when it reaches the interval,
        beeps, restarts, and at or below the critical threshold shortens the interval to
        1.5 seconds. While off: a battery below capacity recharges, capped at capacity. */
    method HandleBattery(dt: real) returns (beeped: bool)
      requires Valid()
      modifies this
      ensures var drained := old(currentBattery) - batteryDrainRate * dt;
              var pct := BatteryPercent(useBattery, drained, maxBattery);
              var timer := old(lowBatteryBeepTimer) + dt;
              if old(isOn) then
                if drained <= 0.0 then
                  && currentBattery == 0.0 && !isOn && isTransitioning && !transitionDirection
                  && !beeped && lowBatteryBeepTimer == old(lowBatteryBeepTimer)
                  && lowBatteryBeepInterval == old(lowBatteryBeepInterval)
                else if pct <= lowBatteryThreshold && hasLowBatteryBeep then
                  && currentBattery == drained && isOn
                  && isTransitioning == old(isTransitioning) && transitionDirection == old(transitionDirection)
                  && (beeped <==> timer >= old(lowBatteryBeepInterval))
                  && lowBatteryBeepTimer == (if beeped then 0.0 else timer)
                  && lowBatteryBeepInterval ==
                       (if beeped && pct <= criticalBatteryThreshold then 1.5 else old(lowBatteryBeepInterval))
                else
                  && currentBattery == drained && isOn && !beeped
                  && isTransitioning == old(isTransitioning) && transitionDirection == old(transitionDirection)
                  && lowBatteryBeepTimer == old(lowBatteryBeepTimer)
                  && lowBatteryBeepInterval == old(lowBatteryBeepInterval)
              else
                && !isOn && !beeped
                && currentBattery ==
                     (if old(currentBattery) < maxBattery
                      then UnityMath.Min(maxBattery, old(currentBattery) + rechargeRate * dt)
                      else old(currentBattery))
                && isTransitioning == old(isTransitioning) && transitionDirection == old(transitionDirection)
                && lowBatteryBeepTimer == old(lowBatteryBeepTimer)
                && lowBatteryBeepInterval == old(lowBatteryBeepInterval)
      ensures transitionProgress == old(transitionProgress)
      ensures batteryDrainRate >= 0.0 && rechargeRate >= 0.0 && dt >= 0.0 && old(BatteryInRange()) ==>
                BatteryInRange()
    {
      beeped := false;
      if batteryDrainRate >= 0.0 && dt >= 0.0 {
        assert batteryDrainRate * dt >= 0.0;
      }
      if isOn {
        currentBattery := currentBattery - batteryDrainRate * dt;
        if currentBattery <= 0.0 {
          currentBattery := 0.0;
          ForceTurnOff();
          return;
        }
        if Percent() <= lowBatteryThreshold && hasLowBatteryBeep {
          lowBatteryBeepTimer := lowBatteryBeepTimer + dt;
          if lowBatteryBeepTimer >= lowBatteryBeepInterval {
            beeped := true;
            lowBatteryBeepTimer := 0.0;
            if Percent() <= criticalBatteryThreshold {
              lowBatteryBeepInterval := 1.5;
            }
          }
        }
      } else {
        if currentBattery < maxBattery {
          currentBattery := currentBattery + rechargeRate * dt;
          if currentBattery > maxBattery {
            currentBattery := maxBattery;
          }
        }
      }
    }

    /** One frame of the on/off transition: progress moves toward 1 (turning on) or 0
        (turning off) at that direction's speed, stops at the bound, and the transition
        ends exactly when the bound is reached. */
    method HandleTransition(dt: real)
      modifies this
      ensures var target := if transitionDirection then 1.0 else 0.0;
              var moved := if transitionDirection then old(transitionProgress) + dt * turnOnSpeed
                           else old(transitionProgress) - dt * turnOffSpeed;
              var reached := if transitionDirection then moved >= 1.0 else moved <= 0.0;
              && transitionProgress == (if reached then target else moved)
              && isTransitioning == (if reached then false else old(isTransitioning))
      ensures old(isTransitioning) ==>
                (!isTransitioning <==> transitionProgress == (if transitionDirection then 1.0 else 0.0))
      ensures 0.0 <= old(transitionProgress) <= 1.0 && dt >= 0.0 && turnOnSpeed >= 0.0 && turnOffSpeed >= 0.0 ==>
                0.0 <= transitionProgress <= 1.0
      ensures isOn == old(isOn) && currentBattery == old(currentBattery)
      ensures transitionDirection == old(transitionDirection)
      ensures lowBatteryBeepTimer == old(lowBatteryBeepTimer)
      ensures lowBatteryBeepInterval == old(lowBatteryBeepInterval)
    {
      if transitionDirection {
        transitionProgress := transitionProgress + dt * turnOnSpeed;
        if transitionProgress >= 1.0 {
          transitionProgress := 1.0;
          isTransitioning := false;
        }
      } else {
        transitionProgress := transitionProgress - dt * turnOffSpeed;
        if transitionProgress <= 0.0 {
          transitionProgress := 0.0;
          isTransitioning := false;
        }
      }
    }

    /** Adds charge, never beyond capacity. */
    method RechargeBattery(amount: real)
      modifies this
      ensures currentBattery == UnityMath.Min(maxBattery, old(currentBattery) + amount)
      ensures currentBattery <= maxBattery
      ensures old(currentBattery) + amount <= maxBattery ==> currentBattery == old(currentBattery) + amount
      ensures isOn == old(isOn) && transitionProgress == old(transitionProgress)
      ensures isTransitioning == old(isTransitioning) && transitionDirection == old(transitionDirection)
      ensures lowBatteryBeepTimer == old(lowBatteryBeepTimer) && lowBatteryBeepInterval == old(lowBatteryBeepInterval)
    {
      currentBattery := UnityMath.Min(maxBattery, currentBattery + amount);
    }

    /** Fills the battery. */
    method FullRecharge()
      modifies this
      ensures currentBattery == maxBattery
      ensures isOn == old(isOn) && transitionProgress == old(transitionProgress)
      ensures isTransitioning == old(isTransitioning) && transitionDirection == old(transitionDirection)
      ensures lowBatteryBeepTimer == old(lowBatteryBeepTimer) && lowBatteryBeepInterval == old(lowBatteryBeepInterval)
    {
      currentBattery := maxBattery;
    }
  }
}
