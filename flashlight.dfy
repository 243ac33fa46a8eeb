/** The simple camera-mounted flashlight with an optional battery
    (Assets/Scripts/Flashlight.cs). The frame time Time.deltaTime is the parameter dt.
    SetupLight always leaves a Light, so its `enabled` flag and its intensity are the
    fields lightEnabled and lightIntensity. Headbob compensation and the toggle sounds
    are not modelled. */
module SimpleFlashlight {
  import UnityMath

  /** The BatteryPercent property: charge over capacity, NOT clamped, or 1 when the
      battery system is off. */
  function BatteryPercent(useBattery: bool, currentBattery: real, maxBattery: real): (p: real)
    requires maxBattery > 0.0
    ensures !useBattery ==> p == 1.0
    ensures useBattery ==> p * maxBattery == currentBattery
    ensures useBattery ==> (0.0 <= p <= 1.0 <==> 0.0 <= currentBattery <= maxBattery)
  {
    if useBattery then
      var p := currentBattery / maxBattery;
      assert p * maxBattery == currentBattery;
      p
    else 1.0
  }

  /** The light's intensity on a battery at the given fraction: 30% of the base
      intensity when empty, rising linearly to the full base intensity. */
  function DimmedIntensity(intensity: real, percent: real): (i: real)
    ensures intensity >= 0.0 ==> 0.3 * intensity <= i <= intensity
    ensures percent <= 0.0 ==> i == 0.3 * intensity
    ensures percent >= 1.0 ==> i == intensity
  {
    var f := UnityMath.Lerp(0.3, 1.0, percent);
    var i := intensity * f;
    DimmedBounds(intensity, f, i);
    i
  }

  /** Scaling a non-negative intensity by a factor in [0.3, 1] keeps it between 30%
      and 100% of itself. */
  lemma DimmedBounds(intensity: real, f: real, i: real)
    requires 0.3 <= f <= 1.0 && i == intensity * f
    ensures intensity >= 0.0 ==> 0.3 * intensity <= i <= intensity
    ensures f == 0.3 ==> i == 0.3 * intensity
    ensures f == 1.0 ==> i == intensity
  {
    UnityMath.ScaleBounds(intensity, f, i);
    if intensity >= 0.0 {
      UnityMath.MulNonNegative(intensity, f - 0.3);
      assert intensity * (f - 0.3) == i - 0.3 * intensity;
    }
  }

  class Flashlight {
    const useBattery: bool
    const maxBattery: real
    const batteryDrainRate: real
    const batteryRechargeRate: real
    const intensity: real

    var isOn: bool
    var currentBattery: real
    var lightEnabled: bool
    var lightIntensity: real

    /** The capacity is positive and the Light shows whether the flashlight is on. */
    predicate Valid()
      reads this
    {
      maxBattery > 0.0 && lightEnabled == isOn
    }

    /** Start: a full battery and the light on or off as startsOn says. */
    constructor (useBattery: bool, maxBattery: real, batteryDrainRate: real,
                 batteryRechargeRate: real, intensity: real, startsOn: bool)
      requires maxBattery > 0.0
      ensures Valid()
      ensures this.useBattery == useBattery && this.maxBattery == maxBattery
      ensures this.batteryDrainRate == batteryDrainRate
      ensures this.batteryRechargeRate == batteryRechargeRate && this.intensity == intensity
      ensures currentBattery == maxBattery && isOn == startsOn && lightIntensity == intensity
    {
      this.useBattery := useBattery;
      this.maxBattery := maxBattery;
      this.batteryDrainRate := batteryDrainRate;
      this.batteryRechargeRate := batteryRechargeRate;
      this.intensity := intensity;
      lightIntensity := intensity;
      currentBattery := maxBattery;
      isOn := startsOn;
      lightEnabled := startsOn;
    }

    /** Flips the switch unconditionally, whatever the battery holds. */
    method Toggle()
      requires Valid()
      modifies this
      ensures Valid()
      ensures isOn == !old(isOn)
      ensures currentBattery == old(currentBattery) && lightIntensity == old(lightIntensity)
    {
      isOn := !isOn;
      lightEnabled := isOn;
    }

    /** Switches on; on already, it changes nothing. */
    method TurnOn()
      requires Valid()
      modifies this
      ensures Valid() && isOn
      ensures currentBattery == old(currentBattery) && lightIntensity == old(lightIntensity)
    {
      if !isOn {
        isOn := true;
        lightEnabled := isOn;
      }
    }

    /** Switches off; off already, it changes nothing. */
    method TurnOff()
      requires Valid()
      modifies this
      ensures Valid() && !isOn
      ensures currentBattery == old(currentBattery) && lightIntensity == old(lightIntensity)
    {
      if isOn {
        isOn := false;
        lightEnabled := isOn;
      }
    }

    /** One frame of the battery. While on: the drain is applied, an emptied battery is
        clamped to 0 and turns the light off, and the intensity follows the charge. While
        off: the battery recharges, capped at capacity. */
    method HandleBattery(dt: real)
      requires Valid()
      modifies this
      ensures Valid()
      ensures var drained := old(currentBattery) - batteryDrainRate * dt;
              if old(isOn) then
                && currentBattery == (if drained <= 0.0 then 0.0 else drained)
                && (isOn <==> drained > 0.0)
                && lightIntensity == DimmedIntensity(intensity, currentBattery / maxBattery)
              else
                && !isOn && lightIntensity == old(lightIntensity)
                && currentBattery == UnityMath.Min(maxBattery, old(currentBattery) + batteryRechargeRate * dt)
      ensures batteryDrainRate >= 0.0 && batteryRechargeRate >= 0.0 && dt >= 0.0
              && 0.0 <= old(currentBattery) <= maxBattery ==>
                0.0 <= currentBattery <= maxBattery
    {
      if batteryDrainRate >= 0.0 && dt >= 0.0 {
        assert batteryDrainRate * dt >= 0.0;
      }
      if batteryRechargeRate >= 0.0 && dt >= 0.0 {
        assert batteryRechargeRate * dt >= 0.0;
      }
      if isOn {
        currentBattery := currentBattery - batteryDrainRate * dt;
        if currentBattery <= 0.0 {
          currentBattery := 0.0;
          TurnOff();
        }
        var batteryPercent := currentBattery / maxBattery;
        lightIntensity := DimmedIntensity(intensity, batteryPercent);
      } else {
        currentBattery := UnityMath.Min(maxBattery, currentBattery + batteryRechargeRate * dt);
      }
    }
  }
}
