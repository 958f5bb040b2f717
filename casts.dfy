/** The typed decoders: each `TryFrom<CANResponse>` checks that the frame
    carries its own Read command (panicking otherwise), takes the 8-byte
    payload apart, reads little-endian fields and looks enum-valued fields up
    exactly, failing with `ConvertedBadData`. */
module Casts {
  import opened Wrappers
  import opened Bytes
  import opened LittleEndian
  import opened State
  import Errors
  import opened Frame
  import opened Response

  /** The result of a decoder: it returns `Ok`/`Err`, or it panics. */
  type Decoded<T> = Run<Result<T, ODriveError>>

  datatype Heartbeat = Heartbeat(axisError: Errors.AxisError, currentState: AxisState)
  datatype EncoderEstimates = EncoderEstimates(position: F32, velocity: F32)
  datatype EncoderCount = EncoderCount(shadowCount: I32, cprCount: I32)
  datatype IQ = IQ(setpoint: F32, measured: F32)
  datatype Temperature = Temperature(inverter: F32, motor: F32)
  datatype Bus = Bus(voltage: F32, current: F32)

  /** `Heartbeat::try_from`: axis error = u32 of bytes 0..4, state = byte 4;
      bytes 5..8 (controller status) are not read. */
  function ToHeartbeat(response: CANResponse): (r: Decoded<Heartbeat>)
    ensures r.Panics? <==> response.cmd != Read(GetHeartbeat)
    ensures r.Returns? ==>
      (r.value.Ok? <==>
         (exists e: Errors.AxisError :: Errors.AxisErrorValue(e) == LeValue(response.data[..4])) &&
         (exists s: AxisState :: AxisStateValue(s) == response.data[4]))
    ensures r.Returns? && r.value.Ok? ==>
      Errors.AxisErrorValue(r.value.value.axisError) == LeValue(response.data[..4]) &&
      AxisStateValue(r.value.value.currentState) == response.data[4]
    ensures r.Returns? && r.value.Err? ==> r.value.error == ConvertedBadData
  {
    if response.cmd != Read(GetHeartbeat) then Panics
    else
      var axisError := U32FromLe(response.data[0..4]);
      match Errors.TryAxisError(axisError)
      case Err(_) => Returns(Err(ConvertedBadData))
      case Ok(axisError) =>
        var currentState := response.data[4];
        match TryAxisState(currentState)
        case Err(_) => Returns(Err(ConvertedBadData))
        case Ok(currentState) => Returns(Ok(Heartbeat(axisError, currentState)))
  }

  /** `EncoderEstimates::try_from`: two floats, bytes 0..4 and 4..8. */
  function ToEncoderEstimates(response: CANResponse): (r: Decoded<EncoderEstimates>)
    ensures r.Panics? <==> response.cmd != Read(GetEncoderEstimates)
    ensures r.Returns? ==> (r.value.Ok? &&
      F32ToLe(r.value.value.position) == response.data[..4] &&
      F32ToLe(r.value.value.velocity) == response.data[4..])
  {
    if response.cmd != Read(GetEncoderEstimates) then Panics
    else
      var (positionBytes, velocityBytes) := Split32(response.data);
      F32ToFromLe(positionBytes);
      F32ToFromLe(velocityBytes);
      Returns(Ok(EncoderEstimates(F32FromLe(positionBytes), F32FromLe(velocityBytes))))
  }

  /** `EncoderCount::try_from`: two `i32`, bytes 0..4 and 4..8. */
  function ToEncoderCount(response: CANResponse): (r: Decoded<EncoderCount>)
    ensures r.Panics? <==> response.cmd != Read(GetEncoderCount)
    ensures r.Returns? ==> (r.value.Ok? &&
      I32ToLe(r.value.value.shadowCount) == response.data[..4] &&
      I32ToLe(r.value.value.cprCount) == response.data[4..])
  {
    if response.cmd != Read(GetEncoderCount) then Panics
    else
      var (shadowBytes, cprBytes) := Split32(response.data);
      I32ToLeOfFromLe(shadowBytes);
      I32ToLeOfFromLe(cprBytes);
      Returns(Ok(EncoderCount(I32FromLe(shadowBytes), I32FromLe(cprBytes))))
  }

  /** `IQ::try_from`: setpoint and measured current as floats. */
  function ToIQ(response: CANResponse): (r: Decoded<IQ>)
    ensures r.Panics? <==> response.cmd != Read(GetIQ)
    ensures r.Returns? ==> (r.value.Ok? &&
      F32ToLe(r.value.value.setpoint) == response.data[..4] &&
      F32ToLe(r.value.value.measured) == response.data[4..])
  {
    if response.cmd != Read(GetIQ) then Panics
    else
      var (setpointBytes, measuredBytes) := Split32(response.data);
      F32ToFromLe(setpointBytes);
      F32ToFromLe(measuredBytes);
      Returns(Ok(IQ(F32FromLe(setpointBytes), F32FromLe(measuredBytes))))
  }

  /** `Temperature::try_from`: inverter and motor temperature as floats. */
  function ToTemperature(response: CANResponse): (r: Decoded<Temperature>)
    ensures r.Panics? <==> response.cmd != Read(GetTemperature)
    ensures r.Returns? ==> (r.value.Ok? &&
      F32ToLe(r.value.value.inverter) == response.data[..4] &&
      F32ToLe(r.value.value.motor) == response.data[4..])
  {
    if response.cmd != Read(GetTemperature) then Panics
    else
      var (inverterBytes, motorBytes) := Split32(response.data);
      F32ToFromLe(inverterBytes);
      F32ToFromLe(motorBytes);
      Returns(Ok(Temperature(F32FromLe(inverterBytes), F32FromLe(motorBytes))))
  }

  /** `Bus::try_from`: bus voltage and current as floats. */
  function ToBus(response: CANResponse): (r: Decoded<Bus>)
    ensures r.Panics? <==> response.cmd != Read(GetVBusVoltage)
    ensures r.Returns? ==> (r.value.Ok? &&
      F32ToLe(r.value.value.voltage) == response.data[..4] &&
      F32ToLe(r.value.value.current) == response.data[4..])
  {
    if response.cmd != Read(GetVBusVoltage) then Panics
    else
      var (voltageBytes, currentBytes) := Split32(response.data);
      F32ToFromLe(voltageBytes);
      F32ToFromLe(currentBytes);
      Returns(Ok(Bus(F32FromLe(voltageBytes), F32FromLe(currentBytes))))
  }

  /** `MotorError::try_from`: all eight bytes are one `u64` error field. */
  function ToMotorError(response: CANResponse): (r: Decoded<Errors.MotorError>)
    ensures r.Panics? <==> response.cmd != Read(MotorError)
    ensures r.Returns? ==>
      (r.value.Ok? <==> exists e: Errors.MotorError :: Errors.MotorErrorValue(e) == LeValue(response.data))
    ensures r.Returns? && r.value.Ok? ==> Errors.MotorErrorValue(r.value.value) == LeValue(response.data)
    ensures r.Returns? && r.value.Err? ==> r.value.error == ConvertedBadData
  {
    if response.cmd != Read(MotorError) then Panics
    else
      var motorError := U64FromLe(response.data);
      match Errors.TryMotorError(motorError)
      case Ok(e) => Returns(Ok(e))
      case Err(_) => Returns(Err(ConvertedBadData))
  }

  /** `EncoderError::try_from`: the `u32` of bytes 0..4; bytes 4..8 are dropped. */
  function ToEncoderError(response: CANResponse): (r: Decoded<Errors.EncoderError>)
    ensures r.Panics? <==> response.cmd != Read(EncoderError)
    ensures r.Returns? ==>
      (r.value.Ok? <==> exists e: Errors.EncoderError :: Errors.EncoderErrorValue(e) == LeValue(response.data[..4]))
    ensures r.Returns? && r.value.Ok? ==> Errors.EncoderErrorValue(r.value.value) == LeValue(response.data[..4])
    ensures r.Returns? && r.value.Err? ==> r.value.error == ConvertedBadData
  {
    if response.cmd != Read(EncoderError) then Panics
    else
      var (encoderErrorBytes, _) := Split32(response.data);
      var encoderError := U32FromLe(encoderErrorBytes);
      match Errors.TryEncoderError(encoderError)
      case Ok(e) => Returns(Ok(e))
      case Err(_) => Returns(Err(ConvertedBadData))
  }

  /** `SensorlessError::try_from`: the `u32` of bytes 0..4; bytes 4..8 are dropped. */
  function ToSensorlessError(response: CANResponse): (r: Decoded<Errors.SensorlessError>)
    ensures r.Panics? <==> response.cmd != Read(SensorlessError)
    ensures r.Returns? ==>
      (r.value.Ok? <==> LeValue(response.data[..4]) == 1 || LeValue(response.data[..4]) == 2)
    ensures r.Returns? && r.value.Ok? ==> Errors.SensorlessErrorValue(r.value.value) == LeValue(response.data[..4])
    ensures r.Returns? && r.value.Err? ==> r.value.error == ConvertedBadData
  {
    if response.cmd != Read(SensorlessError) then Panics
    else
      var (sensorlessErrorBytes, _) := Split32(response.data);
      var sensorlessError := U32FromLe(sensorlessErrorBytes);
      Errors.SensorlessErrorAccepts(sensorlessError);
      match Errors.TrySensorlessError(sensorlessError)
      case Ok(e) => Returns(Ok(e))
      case Err(_) => Returns(Err(ConvertedBadData))
  }

  /** `() :: try_from`: a Write carries no body and always converts; a Read panics. */
  function ToUnit(response: CANResponse): (r: Decoded<()>)
    ensures r.Panics? <==> response.cmd.Read?
    ensures r.Returns? ==> r.value.Ok?
  {
    if response.cmd.Read? then Panics else Returns(Ok(()))
  }

  // ------------------------------------------------------------- properties

  /** Bytes 5..8 of a heartbeat never change its result. */
  lemma HeartbeatIgnoresTail(f1: CANResponse, f2: CANResponse)
    requires f1.cmd == f2.cmd && f1.data[..5] == f2.data[..5]
    ensures ToHeartbeat(f1) == ToHeartbeat(f2)
  {
    assert f1.data[0..4] == f1.data[..5][..4] && f2.data[0..4] == f2.data[..5][..4];
    assert f1.data[4] == f1.data[..5][4] && f2.data[4] == f2.data[..5][4];
  }

  /** Bytes 4..8 never change the encoder and sensorless error decoders. */
  lemma ErrorDecodersIgnoreUpperHalf(f1: CANResponse, f2: CANResponse)
    requires f1.cmd == f2.cmd && f1.data[..4] == f2.data[..4]
    ensures ToEncoderError(f1) == ToEncoderError(f2)
    ensures ToSensorlessError(f1) == ToSensorlessError(f2)
  {
  }

  /** The payload of the repository's heartbeat test: SystemLevel (0x2) as a
      `u32` followed by ClosedLoop (0x8), also written as a `u32`. */
  lemma HeartbeatExamplePayload()
    ensures U32ToLe(0x2) + U32ToLe(0x8) == [2, 0, 0, 0, 8, 0, 0, 0]
  {
    assert LeBytes(0x2, 4) == [2, 0, 0, 0];
    assert LeBytes(0x8, 4) == [8, 0, 0, 0];
  }

  /** That payload decodes to the heartbeat the test expects. */
  lemma HeartbeatExample()
    ensures ToHeartbeat(CANFrame(1, Read(GetHeartbeat), [2, 0, 0, 0, 8, 0, 0, 0]))
         == Returns(Ok(Heartbeat(Errors.AxisError.SystemLevel, ClosedLoop)))
  {
    var data: Bytes8 := [2, 0, 0, 0, 8, 0, 0, 0];
    HeartbeatExamplePayload();
    assert data[0..4] == U32ToLe(0x2);
    assert data[4] == 8;
    HeartbeatExampleError();
    HeartbeatExampleState();
  }

  lemma HeartbeatExampleState()
    ensures TryAxisState(8) == Ok(ClosedLoop)
  {
    TryAxisStateRoundTrip(ClosedLoop);
  }

  lemma HeartbeatExampleError()
    ensures Errors.TryAxisError(2) == Ok(Errors.AxisError.SystemLevel)
  {
    Errors.TryAxisErrorRoundTrip(Errors.AxisError.SystemLevel);
  }

  /** The frame of the repository's encoder-count test: 69420 and
      69420 / 8192 as little-endian `i32`s decode to those two counts. */
  lemma EncoderCountExample()
    ensures ToEncoderCount(CANFrame(1, Read(GetEncoderCount), I32ToLe(69420) + I32ToLe(69420 / 8192)))
         == Returns(Ok(EncoderCount(69420, 8)))
  {
    var data: Bytes8 := I32ToLe(69420) + I32ToLe(69420 / 8192);
    assert data[..4] == I32ToLe(69420) && data[4..] == I32ToLe(8);
    var r := ToEncoderCount(CANFrame(1, Read(GetEncoderCount), data));
    assert I32FromLe(I32ToLe(r.value.value.shadowCount)) == I32FromLe(I32ToLe(69420));
    assert I32FromLe(I32ToLe(r.value.value.cprCount)) == I32FromLe(I32ToLe(8));
  }

  /** A heartbeat frame handed to another decoder panics, whatever its payload. */
  lemma WrongDecoderPanics(f: CANResponse)
    requires f.cmd == Read(GetHeartbeat)
    ensures ToEncoderCount(f).Panics? && ToEncoderEstimates(f).Panics? && ToUnit(f).Panics?
  {
  }
}
