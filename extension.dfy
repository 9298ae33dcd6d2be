/**
 * The extension object: the two-slot sensor cache that each successful poll
 * shifts, and the commands, each of which sends at most one request to the
 * device. Sent requests are recorded, in order, in `sent`.
 */
module RoboLT {
  import opened Wrappers
  import opened Scaling
  import opened Sensors
  import opened Outputs

  /** What one 'getSensors' poll yields: a reading, or a transport failure. */
  datatype PollResult = Received(data: Snapshot) | TransportFailure

  /** The most recent reading of a history of successful polls. */
  function Latest(readings: seq<Snapshot>): (r: Option<Snapshot>)
    ensures r.Some? <==> |readings| >= 1
  {
    if |readings| == 0 then None else Some(readings[|readings| - 1])
  }

  /** The reading before the most recent one. */
  function Previous(readings: seq<Snapshot>): (r: Option<Snapshot>)
    ensures r.Some? <==> |readings| >= 2
  {
    if |readings| < 2 then None else Some(readings[|readings| - 2])
  }

  /** The readings among a sequence of poll results, in order. */
  function Receipts(polls: seq<PollResult>): seq<Snapshot>
    decreases |polls|
  {
    if polls == [] then []
    else
      var earlier := Receipts(polls[..|polls| - 1]);
      match polls[|polls| - 1]
      case Received(data) => earlier + [data]
      case TransportFailure => earlier
  }

  /** The two cache slots: the current reading and the one before it. */
  datatype Cache = Cache(current: Option<Snapshot>, previous: Option<Snapshot>)

  /**
   * The cache after a sequence of poll results handled by doUpdate from
   * load: each reading shifts the current slot into the old one, each
   * failure leaves both alone.
   */
  function CacheAfter(polls: seq<PollResult>): (c: Cache)
    ensures c.previous.Some? ==> c.current.Some?
    ensures c.current.None? ==> forall i :: 0 <= i < |polls| ==> polls[i] == TransportFailure
    decreases |polls|
  {
    if polls == [] then Cache(None, None)
    else
      var c := CacheAfter(polls[..|polls| - 1]);
      match polls[|polls| - 1]
      case Received(data) => Cache(Some(data), c.current)
      case TransportFailure => c
  }

  /**
   * Whatever failures are interleaved, the cache holds the last reading
   * received and the one received just before it.
   */
  lemma {:induction false} CacheHoldsLastTwoReadings(polls: seq<PollResult>)
    ensures CacheAfter(polls) == Cache(Latest(Receipts(polls)), Previous(Receipts(polls)))
  {
    if polls != [] {
      var earlier := polls[..|polls| - 1];
      CacheHoldsLastTwoReadings(earlier);
      match polls[|polls| - 1]
      case Received(data) =>
        var h := Receipts(earlier) + [data];
        assert h[|h| - 1] == data;
        assert |h| >= 2 ==> h[|h| - 2] == Receipts(earlier)[|Receipts(earlier)| - 1];
      case TransportFailure =>
    }
  }

  /** After readings a then b, with any failures around them, the delta is b's percent minus a's. */
  lemma DeltaOfLastTwoReadings(polls: seq<PollResult>, a: Snapshot, b: Snapshot, failures: seq<PollResult>, sensor: Sensor)
    requires sensor != OtherSensor
    requires forall i :: 0 <= i < |failures| ==> failures[i] == TransportFailure
    ensures var c := CacheAfter(polls + [Received(a)] + failures + [Received(b)]);
            InputDelta(c.current, c.previous, sensor) == Some(Channel(b, sensor).value - Channel(a, sensor).value)
  {
    var all := polls + [Received(a)] + failures + [Received(b)];
    assert all[..|all| - 1] == polls + [Received(a)] + failures;
    FailuresKeepCache(polls + [Received(a)], failures);
    assert (polls + [Received(a)])[..|polls| + 1 - 1] == polls;
  }

  /** Appending transport failures leaves the cache as it was. */
  lemma {:induction false} FailuresKeepCache(polls: seq<PollResult>, failures: seq<PollResult>)
    requires forall i :: 0 <= i < |failures| ==> failures[i] == TransportFailure
    ensures CacheAfter(polls + failures) == CacheAfter(polls)
  {
    if failures == [] {
      assert polls + failures == polls;
    } else {
      var all := polls + failures;
      var shorter := failures[..|failures| - 1];
      assert all[..|all| - 1] == polls + shorter;
      assert all[|all| - 1] == failures[|failures| - 1] == TransportFailure;
      FailuresKeepCache(polls, shorter);
    }
  }

  class Extension {
    /** The current sensor values from the device (null before the first reading). */
    var currentValues: Option<Snapshot>
    /** The previous sensor values from the device, for change detection. */
    var oldValues: Option<Snapshot>
    /** Every reset and setOutput request sent to the device so far, oldest first. */
    var sent: seq<Request>
    /** Every poll result handled so far, oldest first. */
    ghost var polls: seq<PollResult>

    /** The cache is what doUpdate made of the poll results so far. */
    ghost predicate Valid()
      reads this
    {
      Cache(currentValues, oldValues) == CacheAfter(polls)
    }

    /** Load: both slots empty, then the startup reset of the device. */
    constructor ()
      ensures Valid() && polls == []
      ensures currentValues == None && oldValues == None
      ensures sent == [ResetRequest]
    {
      currentValues := None;
      oldValues := None;
      polls := [];
      sent := [];
      new;
      Reset();
    }

    /** reset: sends the 'reset' request; the cache is untouched. */
    method Reset()
      modifies this`sent
      ensures sent == old(sent) + [ResetRequest]
    {
      sent := sent + [ResetRequest];
    }

    /**
     * doUpdate: on success the current reading moves to the old slot and the
     * new one becomes current; a transport failure changes nothing.
     */
    method DoUpdate(response: PollResult)
      requires Valid()
      modifies this`currentValues, this`oldValues, this`polls
      ensures Valid() && polls == old(polls) + [response]
      ensures response.Received? ==> oldValues == old(currentValues) && currentValues == Some(response.data)
      ensures response.TransportFailure? ==> currentValues == old(currentValues) && oldValues == old(oldValues)
    {
      match response {
        case Received(data) =>
          oldValues := currentValues;
          currentValues := Some(data);
        case TransportFailure =>
      }
      polls := polls + [response];
      assert polls[..|polls| - 1] == old(polls);
    }

    /** setOutputPercent: sends OutputRequest(output, speed), or throws and sends nothing. */
    method SetOutputPercent(output: Output, speed: real) returns (outcome: Result<Request, Error>)
      modifies this`sent
      ensures outcome == OutputRequest(output, speed)
      ensures sent == old(sent) + Transmitted(outcome)
    {
      outcome := OutputRequest(output, speed);
      sent := sent + Transmitted(outcome);
    }

    /** setOutputVal: the block value scaled to a percent and passed to SetOutputPercent. */
    method SetOutputVal(output: Output, val: real) returns (outcome: Result<Request, Error>)
      modifies this`sent
      ensures outcome == ValRequest(output, val)
      ensures sent == old(sent) + Transmitted(outcome)
    {
      outcome := SetOutputPercent(output, val * 100.0 / 8.0);
    }

    /** setLampVal: a lamp's brightness is the output's block value. */
    method SetLampVal(output: Output, val: real) returns (outcome: Result<Request, Error>)
      modifies this`sent
      ensures outcome == ValRequest(output, val)
      ensures sent == old(sent) + Transmitted(outcome)
    {
      outcome := SetOutputVal(output, val);
    }

    /** setMotorValDir: +speed forward, -speed backwards; another token throws and sends nothing. */
    method SetMotorValDir(output: Output, speed: real, dir: MotorDirection) returns (outcome: Result<Request, Error>)
      modifies this`sent
      ensures outcome == MotorValDirRequest(output, speed, dir)
      ensures sent == old(sent) + Transmitted(outcome)
    {
      match dir
      case Forward => outcome := SetOutputVal(output, speed);
      case Backwards => outcome := SetOutputVal(output, -speed);
      case OtherMotorDirection => outcome := Err(InvalidArgument);
    }

    /** setMotorDir: keeps the magnitude of the output's block value and sets its sign. */
    method SetMotorDir(output: Output, dir: MotorDirection) returns (outcome: Result<Request, Error>)
      modifies this`sent
      ensures outcome == MotorDirRequest(currentValues, output, dir)
      ensures sent == old(sent) + Transmitted(outcome)
    {
      var speed := OutputVal(currentValues, output);
      if speed.Err? {
        return Err(speed.error);
      }
      match dir
      case Forward => outcome := SetOutputVal(output, Abs(speed.value) as real);
      case Backwards => outcome := SetOutputVal(output, -(Abs(speed.value) as real));
      case OtherMotorDirection => outcome := Err(InvalidArgument);
    }
  }

  /** Two readings 40 then 20 on I1: the delta is -20 and the `pressed` edge fires. */
  method ButtonPressScenario()
  {
    var ext := new Extension();
    assert InputDelta(ext.currentValues, ext.oldValues, I1).None?;
    ext.DoUpdate(Received(Snapshot(40, 0, 0, 0, 0)));
    ext.DoUpdate(TransportFailure);
    ext.DoUpdate(Received(Snapshot(20, 0, 0, 0, 0)));
    assert ext.oldValues == Some(Snapshot(40, 0, 0, 0, 0));
    assert InputDelta(ext.currentValues, ext.oldValues, I1) == Some(-20);
    assert OnButtonChange(ext.currentValues, ext.oldValues, I1, Pressed) == Ok(true);
    assert OnButtonChange(ext.currentValues, ext.oldValues, I1, OtherButtonState).Err?;
  }

  /** Motor M1 at speed 4: 50 forward, -50 backwards; a bad direction sends nothing. */
  method MotorScenario()
  {
    var ext := new Extension();
    var r := ext.SetMotorValDir(M1, 4.0, Forward);
    ValRequestSendsSentSpeed(M1, 4);
    SentSpeedClosedForm(4);
    assert r == Ok(SetOutput(0, 50));
    r := ext.SetMotorValDir(M1, 4.0, Backwards);
    ValRequestSendsSentSpeed(M1, -4);
    SentSpeedClosedForm(-4);
    assert r == Ok(SetOutput(0, -50));
    assert ext.sent == [ResetRequest, SetOutput(0, 50), SetOutput(0, -50)];
    ext.DoUpdate(Received(Snapshot(0, 0, 0, -50, 0)));
    r := ext.SetMotorDir(M1, OtherMotorDirection);
    assert r == Err(InvalidArgument);
    assert ext.sent == [ResetRequest, SetOutput(0, 50), SetOutput(0, -50)];
  }
}
