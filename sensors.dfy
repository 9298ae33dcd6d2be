/**
 * The sensor side of the extension: one reading of the device, the percent
 * of an input, the delta between the last two readings, the binary states of
 * a button or a light barrier and the edge detectors built on the delta.
 */
module Sensors {
  import opened Wrappers

  /**
   * One 'getSensors' payload: the percents of the analogue inputs I1 (ax),
   * I2 (ay) and I3 (a1) and of the outputs M1 and M2.
   */
  datatype Snapshot = Snapshot(axPercent: int, ayPercent: int, a1Percent: int, m1Percent: int, m2Percent: int)

  /** An input name as the host passes it; anything but I1, I2, I3 is OtherSensor. */
  datatype Sensor = I1 | I2 | I3 | OtherSensor

  /** The button-state tokens the host passes; anything but the two is OtherButtonState. */
  datatype ButtonState = Pressed | Released | OtherButtonState

  /** The light-barrier-state tokens the host passes. */
  datatype LightBarrierState = Opens | Closes | OtherLightBarrierState

  /** What the extension throws: the string "error", or a TypeError on a null reading. */
  datatype Error = InvalidArgument | TypeError

  /** Threshold, in percentage points, of the binary states and the edge detectors. */
  const Threshold: int := 15

  /** The device reports every input as a percent in [0, 100]. */
  predicate InputsInRange(s: Snapshot)
  {
    0 <= s.axPercent <= 100 && 0 <= s.ayPercent <= 100 && 0 <= s.a1Percent <= 100
  }

  /** The field of a snapshot that holds an input; `undefined` for an unknown input. */
  function Channel(s: Snapshot, sensor: Sensor): Option<int>
  {
    match sensor
    case I1 => Some(s.axPercent)
    case I2 => Some(s.ayPercent)
    case I3 => Some(s.a1Percent)
    case OtherSensor => None
  }

  /**
   * getInputPercent: 0 while there is no reading, otherwise the input's
   * field of the current reading (None models `undefined`).
   */
  function InputPercent(current: Option<Snapshot>, sensor: Sensor): (r: Option<int>)
    ensures current.None? ==> r == Some(0)
    ensures r.None? <==> current.Some? && sensor == OtherSensor
    ensures current.Some? && sensor == I1 ==> r == Some(current.value.axPercent)
    ensures current.Some? && sensor == I2 ==> r == Some(current.value.ayPercent)
    ensures current.Some? && sensor == I3 ==> r == Some(current.value.a1Percent)
    ensures current.Some? && r.Some? && InputsInRange(current.value) ==> 0 <= r.value <= 100
  {
    match current
    case None => Some(0)
    case Some(s) => Channel(s, sensor)
  }

  /**
   * getInputDelta: current minus previous percent of an input; None models
   * the `false` returned when a reading is missing or the input is unknown.
   */
  function InputDelta(current: Option<Snapshot>, previous: Option<Snapshot>, sensor: Sensor): (r: Option<int>)
    ensures r.Some? <==> current.Some? && previous.Some? && sensor != OtherSensor
    ensures r.Some? ==> r.value == InputPercent(current, sensor).value - InputPercent(previous, sensor).value
  {
    if current.None? || previous.None? then None
    else
      match (Channel(current.value, sensor), Channel(previous.value, sensor))
      case (Some(now), Some(before)) => Some(now - before)
      case _ => None
  }

  /** getButtonBinary: a button pulls its input below the threshold. */
  function ButtonBinary(current: Option<Snapshot>, sensor: Sensor): (r: bool)
    ensures current.None? ==> r
    ensures r <==> InputPercent(current, sensor).Some? && InputPercent(current, sensor).value < Threshold
  {
    // `undefined < 15` is false in JavaScript
    match InputPercent(current, sensor)
    case Some(p) => p < Threshold
    case None => false
  }

  /** getLightBarrierBinary: a lit barrier raises its input above the threshold. */
  function LightBarrierBinary(current: Option<Snapshot>, sensor: Sensor): (r: bool)
    ensures current.None? ==> !r
    ensures r <==> InputPercent(current, sensor).Some? && InputPercent(current, sensor).value > Threshold
  {
    match InputPercent(current, sensor)
    case Some(p) => p > Threshold
    case None => false
  }

  /**
   * onButtonChange: false when no delta is available, whatever the
   * direction; otherwise `pressed` fires on a drop of more than 15 points
   * and `released` on any delta below +15; another token throws.
   */
  function OnButtonChange(current: Option<Snapshot>, previous: Option<Snapshot>, sensor: Sensor,
                          direction: ButtonState): (r: Result<bool, Error>)
    ensures InputDelta(current, previous, sensor).None? ==> r == Ok(false)
    ensures r.Err? <==> InputDelta(current, previous, sensor).Some? && direction == OtherButtonState
    ensures r.Err? ==> r.error == InvalidArgument
  {
    match InputDelta(current, previous, sensor)
    case None => Ok(false)
    case Some(diff) =>
      match direction
      case Pressed => Ok(diff < -Threshold)
      case Released => Ok(diff < Threshold)
      case OtherButtonState => Err(InvalidArgument)
  }

  /**
   * onLightBarrierChange: false when no delta is available; `closes` fires on
   * any delta below +15, `opens` on a drop of more than 15 points; another
   * token throws.
   */
  function OnLightBarrierChange(current: Option<Snapshot>, previous: Option<Snapshot>, sensor: Sensor,
                                direction: LightBarrierState): (r: Result<bool, Error>)
    ensures InputDelta(current, previous, sensor).None? ==> r == Ok(false)
    ensures r.Err? <==> InputDelta(current, previous, sensor).Some? && direction == OtherLightBarrierState
    ensures r.Err? ==> r.error == InvalidArgument
  {
    match InputDelta(current, previous, sensor)
    case None => Ok(false)
    case Some(diff) =>
      match direction
      case Closes => Ok(diff < Threshold)
      case Opens => Ok(diff < -Threshold)
      case OtherLightBarrierState => Err(InvalidArgument)
  }

  /** getInputPercent returns 0 for every input before the first reading. */
  lemma NoReadingDefaults(sensor: Sensor, previous: Option<Snapshot>)
    ensures InputPercent(None, sensor) == Some(0)
    ensures InputDelta(None, previous, sensor).None?
    ensures ButtonBinary(None, sensor) && !LightBarrierBinary(None, sensor)
  {
  }

  /**
   * The button and light-barrier states are never both true; one of them
   * holds exactly when the input has a percent other than 15.
   */
  lemma BinaryStatesSplitAtThreshold(current: Option<Snapshot>, sensor: Sensor)
    ensures !(ButtonBinary(current, sensor) && LightBarrierBinary(current, sensor))
    ensures ButtonBinary(current, sensor) || LightBarrierBinary(current, sensor)
        <==> InputPercent(current, sensor).Some? && InputPercent(current, sensor).value != Threshold
  {
  }

  /** The light-barrier edges are the button edges: opens is pressed, closes is released. */
  lemma BarrierEdgesMatchButtonEdges(current: Option<Snapshot>, previous: Option<Snapshot>, sensor: Sensor)
    ensures OnLightBarrierChange(current, previous, sensor, Opens) == OnButtonChange(current, previous, sensor, Pressed)
    ensures OnLightBarrierChange(current, previous, sensor, Closes) == OnButtonChange(current, previous, sensor, Released)
  {
  }

  /**
   * With both readings present and a known input, `pressed` and `opens` fire
   * exactly on a drop of more than 15 points, `released` and `closes`
   * exactly on any change below +15.
   */
  lemma EdgeThresholds(current: Snapshot, previous: Snapshot, sensor: Sensor)
    requires sensor != OtherSensor
    ensures var now, before := Channel(current, sensor).value, Channel(previous, sensor).value;
            && OnButtonChange(Some(current), Some(previous), sensor, Pressed) == Ok(now < before - Threshold)
            && OnButtonChange(Some(current), Some(previous), sensor, Released) == Ok(now < before + Threshold)
            && OnLightBarrierChange(Some(current), Some(previous), sensor, Opens) == Ok(now < before - Threshold)
            && OnLightBarrierChange(Some(current), Some(previous), sensor, Closes) == Ok(now < before + Threshold)
  {
  }

  /**
   * Both comparisons are "less than": whenever `pressed` fires so does
   * `released`, and `released` fires on every pair of readings that did not
   * rise by 15 points or more, a steady reading included.
   */
  lemma ReleasedFiresWithoutRise(current: Snapshot, previous: Snapshot, sensor: Sensor)
    requires sensor != OtherSensor
    ensures OnButtonChange(Some(current), Some(previous), sensor, Pressed) == Ok(true)
        ==> OnButtonChange(Some(current), Some(previous), sensor, Released) == Ok(true)
    ensures OnButtonChange(Some(current), Some(previous), sensor, Released) == Ok(true)
        <==> Channel(current, sensor).value < Channel(previous, sensor).value + Threshold
    ensures OnButtonChange(Some(current), Some(current), sensor, Released) == Ok(true)
  {
  }

  /**
   * With inputs in [0, 100], a `pressed` (or `opens`) edge means the previous
   * reading was above the threshold: the button was not pressed then.
   */
  lemma PressedEdgeFollowsHighReading(current: Snapshot, previous: Snapshot, sensor: Sensor)
    requires InputsInRange(current) && InputsInRange(previous)
    requires OnButtonChange(Some(current), Some(previous), sensor, Pressed) == Ok(true)
    ensures !ButtonBinary(Some(previous), sensor) && LightBarrierBinary(Some(previous), sensor)
    ensures !LightBarrierBinary(Some(current), sensor) || InputPercent(Some(previous), sensor).value > 2 * Threshold
  {
  }
}
