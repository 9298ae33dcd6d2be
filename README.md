# ROBO-LT Scratch extension, modelled in Dafny

A model of the logic inside the Scratch extension for the fischertechnik
ROBO-LT controller (`src/main.js`). The extension polls the device for sensor
readings and keeps the last two in a two-slot cache (`currentValues`,
`oldValues`). It answers block queries from that cache: an input's percent,
the delta between the last two readings, the button and light-barrier states,
and the edge detectors built on the delta. It turns output commands into
`setOutput` requests, scaling between the block range [-8, +8] and the
device range [-100, +100] with `Math.round`.

Files and modules:

- `wrappers.dfy` (`Wrappers`): `Option` for JavaScript's `null`, `undefined`
  and `false` sentinels; `Result` for a value or a thrown exception.
- `scaling.dfy` (`Scaling`): `Math.round` on exact rationals (`real`), the
  two scalings, and their closed forms, bounds, round trip and asymmetry.
- `sensors.dfy` (`Sensors`): the reading (`Snapshot`, with the payload keys
  `ax_percent`, `ay_percent`, `a1_percent`, `m1_percent` and `m2_percent` as
  camel-case fields), the input queries and the edge detectors, as functions.
- `outputs.dfy` (`Outputs`): reading the outputs back, and the request each
  output command sends, as functions. `Applied` models a device that reports
  a commanded percent back in its next reading.
- `extension.dfy` (`RoboLT`): the class `Extension` with the cache fields, the
  log `sent` of transmitted requests, and a ghost history of poll results.
  `CacheAfter` gives the cache that `doUpdate` makes of a history of poll
  results, and the class invariant ties the fields to it. Its
  methods are `doUpdate`, `reset` and the five output commands. Two client
  methods use only these contracts:
  - `ButtonPressScenario`: readings 40 then 20 on I1, with a failed poll
    between them, give a delta of -20 and a `pressed` edge.
  - `MotorScenario`: speed 4 on M1 sends 50 forward and -50 backwards, and a
    bad direction for `setMotorDir` sends nothing.

Modelling choices:

- A transmitted request is an entry appended to `sent`. A command that throws
  appends nothing and returns `Err`; it never sends a partial request.
- A poll's outcome is a parameter of `DoUpdate` (`Received(data)` or
  `TransportFailure`). The HTTP transport is not modelled.
- Host tokens (input and output names, button, light-barrier and motor
  directions) are enumerations. Each has an `Other…` case for any other
  value. The tokens from `getButtonState`, `getLightBarrierState` and
  `getMotorDirection` are assumed to be distinct.
- `getInputPercent` for an unknown input with a reading present falls out of
  the `switch` and returns `undefined` (`None`). Both `undefined < 15` and
  `undefined > 15` are false in JavaScript, so both binary states are false.
- `getOutputPercent` for M1 or M2 with no reading throws a TypeError (`Err(TypeError)`).
  For an unknown output it returns `false` (`Ok(None)`), and `getOutputVal`
  scales that to 0.
- The edge detectors' `diff === false` test is the absence of a delta. A delta
  of 0 is a number, not `false`, so it reaches the direction test.
- Speeds and block values are `real`, so `Math.round(x)` is modelled exactly
  as `(x + 0.5).Floor`. Percents are integers. For an integer percent,
  `percent / 100 * 8` is never a tie, so floating-point error cannot change
  the rounding.
- `released` and `closes` fire on `diff < +15`, as the code is written (not
  `diff > +15`). The lemma `ReleasedFiresWithoutRise` shows the effect: they
  fire whenever the reading did not rise by 15 points, including on a steady
  reading, and whenever `pressed` fires.
- Three behaviours of the code are easy to miss, and the model keeps them:
  - `reset` only sends a request and leaves the cache alone. The slots are
    empty only at load (the constructor).
  - `getOutputPercent` throws a TypeError for M1 or M2 when there is no
    reading yet.
  - Once a reading exists, an unknown input makes both binary states false.
    With no reading, `getInputPercent` returns 0 before it looks at the
    input, so the button state is true for every input.

## Model

| member | source | states |
|---|---|---|
| Scaling.Round | src/main.js:27-28 | Math.round gives the integer r with r - 1/2 <= x < r + 1/2 (nearest, halves up) |
| Scaling.PercentToVal | src/main.js:110 | the block value v of a percent p satisfies 25v - 12 <= 2p <= 25v + 12 |
| Scaling.SentSpeedClosedForm | src/main.js:115 | an integer block value v is sent as (25v + 1) / 2 under floor division |
| Scaling.PercentToValClosedForm | src/main.js:110 | a percent p reads back as (4p + 25) / 50 under floor division |
| Scaling.SentSpeedExact | src/main.js:115 | an even value is sent exactly as v * 100 / 8, an odd one half a point above it |
| Scaling.SentSpeedBounds | src/main.js:114-116 | v in [-8, 8] is sent as a speed in [-100, 100] with the sign of v, 0 only for 0 |
| Scaling.PercentToValBounds | src/main.js:109-111 | a percent in [-100, 100] reads back as a value in [-8, 8] |
| Scaling.ScaleRoundTrip | src/main.js:109-116 | reading back the speed sent for any integer value gives that value |
| Scaling.RescaleError | src/main.js:109-116 | re-sending the value read from a percent lands within 6 points of it |
| Scaling.SentSpeedAsymmetry | src/main.js:125-126 | sent(-v) = -sent(v) + v mod 2, since halves round toward +infinity: for odd v > 0 the speed of -v is one point smaller in magnitude, for odd v < 0 one point larger |
| Sensors.InputPercent | src/main.js:43-50 | 0 with no reading; with a reading, I1 gives ax_percent, I2 ay_percent, I3 a1_percent, and an unknown input `undefined`; within [0,100] for in-range readings |
| Sensors.InputDelta | src/main.js:53-62 | defined exactly when both readings exist and the input is I1..I3, and then equal to current minus previous percent |
| Sensors.OnButtonChange | src/main.js:91-97 | false whenever no delta exists, for any direction; throws "error" exactly for another token with a delta present |
| Sensors.OnLightBarrierChange | src/main.js:100-106 | the same for the light barrier's `opens` and `closes` |
| Sensors.ButtonBinary | src/main.js:81-83 | true exactly when the input's percent exists and is below 15; true for every input before any reading |
| Sensors.LightBarrierBinary | src/main.js:86-88 | true exactly when the input's percent exists and is above 15; false before any reading |
| Sensors.EdgeThresholds | src/main.js:91-106 | with both readings and a known input, `pressed` and `opens` fire exactly when the change is below -15, `released` and `closes` exactly when it is below +15 |
| Sensors.NoReadingDefaults | src/main.js:43-55 | before any reading: percent 0, no delta, button true, light barrier false |
| Sensors.BinaryStatesSplitAtThreshold | src/main.js:81-88 | button and light barrier never both true; one holds iff the percent exists and is not 15 |
| Sensors.BarrierEdgesMatchButtonEdges | src/main.js:91-106 | `opens` is the `pressed` test and `closes` the `released` test |
| Sensors.ReleasedFiresWithoutRise | src/main.js:94-95 | `pressed` implies `released`; `released` holds iff the reading rose by less than 15, a steady reading included |
| Sensors.PressedEdgeFollowsHighReading | src/main.js:94 | with inputs in [0,100], a `pressed` edge means the previous reading was above 15 |
| Outputs.OutputPercent | src/main.js:34-40 | with a reading, M1 gives m1_percent and M2 m2_percent; unknown output gives `false`; M1/M2 throw a TypeError exactly when there is no reading |
| Outputs.OutputVal | src/main.js:109-111 | unknown output reads 0; throws exactly when getOutputPercent does; otherwise the percent's nearest block value |
| Outputs.OutputRequest | src/main.js:25-31 | M1 is channel 0, M2 channel 1, the speed sent is the nearest integer; any other output throws |
| Outputs.ValRequest | src/main.js:114-116 | setOutputVal throws exactly for an unknown output; otherwise it addresses channel 0 for M1 and 1 for M2 with the integer nearest val * 100 / 8 |
| Outputs.MotorValDirRequest | src/main.js:124-128 | throws "error" exactly for an unknown output or direction |
| Outputs.MotorDirRequest | src/main.js:131-136 | throws exactly for an unknown output, no reading or an unknown direction; TypeError exactly for M1/M2 with no reading |
| Outputs.ValRequestSendsSentSpeed | src/main.js:113-116 | setOutputVal of an integer value sends SentSpeed(v) on the output's channel |
| Outputs.OutputValRoundTrip | src/main.js:109-121 | after setOutputVal(v) and the device reporting the speed back, getOutputVal returns v; v in [-8,8] sends a speed in [-100,100] |
| Outputs.MotorValDirSpeeds | src/main.js:124-128 | on channel 0 for M1 and 1 for M2, forward sends SentSpeed(s), backwards SentSpeed(-s): equal magnitude for even s; for odd s backwards is one point smaller in magnitude if s > 0 and one point larger if s < 0 |
| Outputs.MotorDirSends | src/main.js:131-136 | for a known output and direction, setMotorDir sends on the output's channel the speed SentSpeed(abs(v)) forward or SentSpeed(-abs(v)) backwards, v the output's current block value |
| Outputs.MotorDirKeepsMagnitude | src/main.js:131-136 | the speed setMotorDir sends reads back as abs(v) forward and -abs(v) backwards |
| Outputs.MotorDirIdempotent | src/main.js:131-136 | once the device has applied a setMotorDir, repeating it sends the same request |
| RoboLT.CacheAfter | src/main.js:65-74 | doUpdate over a history of polls: the old slot is filled only once the current one is, and the current slot is empty only if every poll failed |
| RoboLT.CacheHoldsLastTwoReadings | src/main.js:65-74 | after any sequence of poll results from load, the current slot holds the last reading received and the old slot the one before it |
| RoboLT.FailuresKeepCache | src/main.js:71-73 | any number of failed polls leaves the cache as it was |
| RoboLT.DeltaOfLastTwoReadings | src/main.js:53-69 | after readings a then b, with failed polls between them, the delta of a known input is b's percent minus a's |
| RoboLT.Extension.constructor | src/main.js:4-8 | at load both slots are empty and the only request sent is the startup reset |
| RoboLT.Extension.Reset | src/main.js:20-22 | sends one reset request; the cache is unchanged |
| RoboLT.Extension.DoUpdate | src/main.js:65-74 | success: old slot gets the previous current reading, current gets the new one; failure: nothing changes; the cache stays what CacheAfter makes of all poll results so far |
| RoboLT.Extension.SetOutputPercent | src/main.js:25-31 | appends exactly OutputRequest(output, speed) on success, nothing when it throws |
| RoboLT.Extension.SetOutputVal | src/main.js:114-116 | sends the rounded value * 100 / 8, or throws and sends nothing |
| RoboLT.Extension.SetLampVal | src/main.js:119-121 | the same request as SetOutputVal |
| RoboLT.Extension.SetMotorValDir | src/main.js:124-128 | +speed forward, -speed backwards; another direction throws and sends nothing |
| RoboLT.Extension.SetMotorDir | src/main.js:131-136 | sends MotorDirRequest of the current reading, or throws and sends nothing |

## Left out

- The HTTP transport (`IO.doGet`, `IO.doPost`) and its asynchronous `.done` and `.fail` callbacks are not modelled. Only their effect is: a poll result passed to `DoUpdate`, and one request appended per post.
- The `setInterval` poll loop is not modelled. Its out-of-order completions, where the last response to arrive wins, are timing and concurrency.
- `_getStatus`, `_shutdown` and the `console.log` of a failed poll are left out. They are host hooks and logging.
- The block descriptor, `Lang.get` localisation, the menus and `ScratchExtensions.register` are left out. They are static metadata for the host.
- `getButtonState`, `getLightBarrierState` and `getMotorDirection` are defined outside this file. Their results are abstract, distinct tokens.
- JavaScript number semantics are not modelled: no floating point, NaN, `-0`, or strings passed as numbers. Percents are unbounded integers and speeds are exact rationals.
- Payload fields other than the five channel percents are not modelled. A malformed or partial payload is not modelled either: every reading is a complete `Snapshot`.
