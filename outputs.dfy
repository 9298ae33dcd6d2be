/**
 * The output side of the extension: reading the two outputs back from the
 * current reading, and the 'setOutput' request each output command sends.
 */
module Outputs {
  import opened Wrappers
  import opened Scaling
  import opened Sensors

  /** An output name as the host passes it; anything but M1 and M2 is OtherOutput. */
  datatype Output = M1 | M2 | OtherOutput

  /** The motor-direction tokens the host passes. */
  datatype MotorDirection = Forward | Backwards | OtherMotorDirection

  /** A request sent to the device: 'reset', or 'setOutput' with a channel index and a speed. */
  datatype Request = ResetRequest | SetOutput(idx: int, speed: int)

  function Abs(x: int): int
  {
    if x < 0 then -x else x
  }

  /** The requests a command leaves on the wire: its one request, or none when it threw. */
  function Transmitted(outcome: Result<Request, Error>): seq<Request>
  {
    match outcome
    case Ok(request) => [request]
    case Err(_) => []
  }

  /**
   * getOutputPercent: the output's percent in the current reading; an
   * unknown output gives `false` (None) without looking at the reading, and
   * M1 or M2 without a reading throws a TypeError.
   */
  function OutputPercent(current: Option<Snapshot>, output: Output): (r: Result<Option<int>, Error>)
    ensures output == OtherOutput ==> r == Ok(None)
    ensures r.Err? <==> output != OtherOutput && current.None?
    ensures r.Err? ==> r.error == TypeError
    ensures r.Ok? && r.value.Some? ==> output != OtherOutput && current.Some?
    ensures current.Some? && output == M1 ==> r == Ok(Some(current.value.m1Percent))
    ensures current.Some? && output == M2 ==> r == Ok(Some(current.value.m2Percent))
  {
    match output
    case M1 => if current.None? then Err(TypeError) else Ok(Some(current.value.m1Percent))
    case M2 => if current.None? then Err(TypeError) else Ok(Some(current.value.m2Percent))
    case OtherOutput => Ok(None)
  }

  /** getOutputVal: the output's percent on the block scale; `false` scales to 0. */
  function OutputVal(current: Option<Snapshot>, output: Output): (r: Result<int, Error>)
    ensures output == OtherOutput ==> r == Ok(0)
    ensures r.Err? <==> OutputPercent(current, output).Err?
    ensures r.Ok? && OutputPercent(current, output).value.Some? ==>
              var p := OutputPercent(current, output).value.value;
              25 * r.value - 12 <= 2 * p < 25 * r.value + 13
  {
    match OutputPercent(current, output)
    case Err(e) => Err(e)
    case Ok(None) => Ok(0)
    case Ok(Some(p)) => Ok(PercentToVal(p))
  }

  /**
   * setOutputPercent: M1 is channel 0 and M2 channel 1, the speed is sent
   * rounded to the nearest integer; another output throws.
   */
  function OutputRequest(output: Output, speed: real): (r: Result<Request, Error>)
    ensures r.Err? <==> output == OtherOutput
    ensures r.Err? ==> r.error == InvalidArgument
    ensures r.Ok? ==> r.value.SetOutput? && (r.value.idx == 0 <==> output == M1)
                      && (r.value.idx == 1 <==> output == M2)
    ensures r.Ok? ==> r.value.speed as real - 0.5 <= speed < r.value.speed as real + 0.5
  {
    match output
    case M1 => Ok(SetOutput(0, Round(speed)))
    case M2 => Ok(SetOutput(1, Round(speed)))
    case OtherOutput => Err(InvalidArgument)
  }

  /** setOutputVal (and setLampVal): the block value scaled to a percent, then sent. */
  function ValRequest(output: Output, val: real): (r: Result<Request, Error>)
    ensures r.Err? <==> output == OtherOutput
    ensures r.Ok? ==> r.value.SetOutput? && (r.value.idx == 0 <==> output == M1)
                      && (r.value.idx == 1 <==> output == M2)
    ensures r.Ok? ==> (2 * r.value.speed) as real - 1.0 <= val * 25.0 < (2 * r.value.speed) as real + 1.0
  {
    OutputRequest(output, ValToPercent(val))
  }

  /** setMotorValDir: the speed with the sign of the direction; another token throws. */
  function MotorValDirRequest(output: Output, speed: real, dir: MotorDirection): (r: Result<Request, Error>)
    ensures r.Err? <==> output == OtherOutput || dir == OtherMotorDirection
    ensures r.Err? ==> r.error == InvalidArgument
  {
    match dir
    case Forward => ValRequest(output, speed)
    case Backwards => ValRequest(output, -speed)
    case OtherMotorDirection => Err(InvalidArgument)
  }

  /**
   * setMotorDir: the output's current block value, its magnitude kept and
   * its sign set by the direction. Reading the value comes first, so M1 or M2
   * without a reading throws a TypeError whatever the direction.
   */
  function MotorDirRequest(current: Option<Snapshot>, output: Output, dir: MotorDirection): (r: Result<Request, Error>)
    ensures r.Err? <==> output == OtherOutput || current.None? || dir == OtherMotorDirection
    ensures r.Err? ==> (r.error == TypeError <==> output != OtherOutput && current.None?)
  {
    match OutputVal(current, output)
    case Err(e) => Err(e)
    case Ok(speed) =>
      match dir
      case Forward => ValRequest(output, Abs(speed) as real)
      case Backwards => ValRequest(output, -(Abs(speed) as real))
      case OtherMotorDirection => Err(InvalidArgument)
  }

  /** The next reading of a device that applied a request and reports its percent back. */
  function Applied(s: Snapshot, request: Request): Snapshot
  {
    match request
    case SetOutput(idx, speed) =>
      if idx == 0 then s.(m1Percent := speed)
      else if idx == 1 then s.(m2Percent := speed)
      else s
    case ResetRequest => s
  }

  /** For an integer block value, the request carries SentSpeed(val) on the output's channel. */
  lemma ValRequestSendsSentSpeed(output: Output, val: int)
    requires output != OtherOutput
    ensures ValRequest(output, val as real) == Ok(SetOutput(if output == M1 then 0 else 1, SentSpeed(val)))
  {
  }

  /**
   * setOutputVal(output, val) for a block value in [-8, +8] sends a speed in
   * [-100, +100], and once the device reports that speed back getOutputVal
   * returns val again.
   */
  lemma OutputValRoundTrip(s: Snapshot, output: Output, val: int)
    requires output != OtherOutput
    ensures ValRequest(output, val as real).Ok?
    ensures OutputVal(Some(Applied(s, ValRequest(output, val as real).value)), output) == Ok(val)
    ensures -8 <= val <= 8 ==> -100 <= ValRequest(output, val as real).value.speed <= 100
  {
    ValRequestSendsSentSpeed(output, val);
    ScaleRoundTrip(val);
    if -8 <= val <= 8 {
      SentSpeedBounds(val);
    }
  }

  /**
   * setMotorValDir with an integer speed sends SentSpeed(speed) forward and
   * SentSpeed(-speed) backwards: the same magnitude for an even speed; for
   * an odd speed, halves round toward +infinity, so backwards is one point
   * smaller in magnitude for speed > 0 and one point larger for speed < 0.
   */
  lemma MotorValDirSpeeds(output: Output, speed: int)
    requires output != OtherOutput
    ensures MotorValDirRequest(output, speed as real, Forward)
         == Ok(SetOutput(if output == M1 then 0 else 1, SentSpeed(speed)))
    ensures MotorValDirRequest(output, speed as real, Backwards)
         == Ok(SetOutput(if output == M1 then 0 else 1, SentSpeed(-speed)))
    ensures SentSpeed(-speed) == -SentSpeed(speed) + speed % 2
    ensures speed % 2 == 0 ==> SentSpeed(-speed) == -SentSpeed(speed) == -25 * speed / 2
  {
    ValRequestSendsSentSpeed(output, speed);
    ValRequestSendsSentSpeed(output, -speed);
    SentSpeedAsymmetry(speed);
    SentSpeedExact(speed);
  }

  /**
   * setMotorDir keeps the magnitude of the output's block value and sets its
   * sign: the speed it sends reads back as |v| forward and as -|v| backwards.
   */
  lemma MotorDirKeepsMagnitude(s: Snapshot, output: Output, dir: MotorDirection)
    requires MotorDirRequest(Some(s), output, dir).Ok?
    ensures var v := OutputVal(Some(s), output).value;
            var request := MotorDirRequest(Some(s), output, dir).value;
            OutputVal(Some(Applied(s, request)), output) == Ok(if dir == Forward then Abs(v) else -Abs(v))
  {
    var v := OutputVal(Some(s), output).value;
    if dir == Forward {
      OutputValRoundTrip(s, output, Abs(v));
    } else {
      OutputValRoundTrip(s, output, -Abs(v));
    }
  }

  /**
   * The request setMotorDir sends: on the output's channel, the speed that
   * setOutputVal sends for +|v| forward or -|v| backwards, where v is the
   * output's current block value.
   */
  lemma MotorDirSends(s: Snapshot, output: Output, dir: MotorDirection)
    requires output != OtherOutput && dir != OtherMotorDirection
    ensures var v := OutputVal(Some(s), output).value;
            var speed := SentSpeed(if dir == Forward then Abs(v) else -Abs(v));
            MotorDirRequest(Some(s), output, dir) == Ok(SetOutput(if output == M1 then 0 else 1, speed))
  {
    var v := OutputVal(Some(s), output).value;
    if dir == Forward {
      ValRequestSendsSentSpeed(output, Abs(v));
    } else {
      ValRequestSendsSentSpeed(output, -Abs(v));
    }
  }

  /** Once the device has applied a setMotorDir, repeating it sends the very same request. */
  lemma MotorDirIdempotent(s: Snapshot, output: Output, dir: MotorDirection)
    requires MotorDirRequest(Some(s), output, dir).Ok?
    ensures var request := MotorDirRequest(Some(s), output, dir).value;
            MotorDirRequest(Some(Applied(s, request)), output, dir) == Ok(request)
  {
    var v := OutputVal(Some(s), output).value;
    var request := MotorDirRequest(Some(s), output, dir).value;
    MotorDirKeepsMagnitude(s, output, dir);
    var w := if dir == Forward then Abs(v) else -Abs(v);
    assert Abs(w) == Abs(v);
  }
}
