/** The request builders of `axis.rs`: an `Axis` and its `Motor` and
    `Encoder` each hold the axis id and turn it, plus arguments, into a
    `ticket(axis, cmd, data)`. */
module Axes {
  import opened Wrappers
  import opened Bytes
  import opened LittleEndian
  import opened State
  import opened Frame
  import Casts

  /** `Encoder`: the encoder frames of one axis. */
  datatype Encoder = Encoder(id: AxisID)
  {
    /** `Encoder::get_error` */
    function GetError(): (r: CANRequest)
      ensures r.axis == id && r.cmd == Read(ReadComm.EncoderError) && r.data == Zeros(8)
    {
      Ticket(id, Read(ReadComm.EncoderError), Zeros(8))
    }

    /** `Encoder::get_count` */
    function GetCount(): (r: CANRequest)
      ensures r.axis == id && r.cmd == Read(GetEncoderCount) && r.data == Zeros(8)
    {
      Ticket(id, Read(GetEncoderCount), Zeros(8))
    }

    /** `Encoder::get_estimates` */
    function GetEstimates(): (r: CANRequest)
      ensures r.axis == id && r.cmd == Read(GetEncoderEstimates) && r.data == Zeros(8)
    {
      Ticket(id, Read(GetEncoderEstimates), Zeros(8))
    }
  }

  /** `Motor`: the motor and controller frames of one axis. */
  datatype Motor = Motor(id: AxisID)
  {
    /** `Motor::get_errors` */
    function GetErrors(): (r: CANRequest)
      ensures r.axis == id && r.cmd == Read(ReadComm.MotorError) && r.data == Zeros(8)
    {
      Ticket(id, Read(ReadComm.MotorError), Zeros(8))
    }

    /** `Motor::get_sensorless_error` */
    function GetSensorlessError(): (r: CANRequest)
      ensures r.axis == id && r.cmd == Read(ReadComm.SensorlessError) && r.data == Zeros(8)
    {
      Ticket(id, Read(ReadComm.SensorlessError), Zeros(8))
    }

    /** `Motor::set_control_mode`: byte 0 is the control mode, byte 4 the
        input mode, every other byte is zero. Reading the two bytes back
        gives the two modes. */
    function SetControlMode(control: ControlMode, input: InputMode): (r: CANRequest)
      ensures r.axis == id && r.cmd == Write(SetControllerMode)
      ensures TryControlMode(r.data[0]) == Ok(control)
      ensures TryInputMode(r.data[4]) == Ok(input)
      ensures forall i :: 0 <= i < 8 && i != 0 && i != 4 ==> r.data[i] == 0
    {
      ControlModeAccepts(ControlModeValue(control));
      TryControlModeRoundTrip(control);
      TryInputModeRoundTrip(input);
      Ticket(id, Write(SetControllerMode),
             [ControlModeValue(control), 0, 0, 0, InputModeValue(input), 0, 0, 0])
    }

    /** The frame `set_input_pos` builds: the four little-endian bytes of
        the float, then four zero bytes. Reading bytes 0..4 back gives the
        float. */
    function InputPosRequest(rot: F32): (r: CANRequest)
      ensures r.axis == id && r.cmd == Write(SetInputPosition)
      ensures F32FromLe(r.data[..4]) == rot && r.data[4..] == Zeros(4)
    {
      F32FromToLe(rot);
      Ticket(id, Write(SetInputPosition), F32ToLe(rot) + Zeros(4))
    }

    /** The frame `set_input_vel` builds, as `InputPosRequest` with
        `SetInputVelocity`. */
    function InputVelRequest(speed: F32): (r: CANRequest)
      ensures r.axis == id && r.cmd == Write(SetInputVelocity)
      ensures F32FromLe(r.data[..4]) == speed && r.data[4..] == Zeros(4)
    {
      F32FromToLe(speed);
      Ticket(id, Write(SetInputVelocity), F32ToLe(speed) + Zeros(4))
    }

    /** `Motor::set_input_pos`: the float's bytes and four zero bytes, put
        together by `combine_32`. */
    method SetInputPos(rot: F32) returns (r: CANRequest)
      ensures r == InputPosRequest(rot)
    {
      var data := Combine32(F32ToLe(rot), Zeros(4));
      r := Ticket(id, Write(SetInputPosition), data);
    }

    /** `Motor::set_input_vel`: as `set_input_pos`, with `SetInputVelocity`. */
    method SetInputVel(speed: F32) returns (r: CANRequest)
      ensures r == InputVelRequest(speed)
    {
      var data := Combine32(F32ToLe(speed), Zeros(4));
      r := Ticket(id, Write(SetInputVelocity), data);
    }
  }

  /** `Axis`: the axis-level frames, and the axis's motor and encoder. */
  datatype Axis = Axis(id: AxisID, motor: Motor, encoder: Encoder)
  {
    /** The motor and the encoder address the same axis as the axis itself. */
    predicate Valid()
    {
      motor.id == id && encoder.id == id
    }

    /** `Axis::get_heartbeat` */
    function GetHeartbeat(): (r: CANRequest)
      ensures r.axis == id && r.cmd == Read(ReadComm.GetHeartbeat) && r.data == Zeros(8)
    {
      Ticket(id, Read(ReadComm.GetHeartbeat), Zeros(8))
    }

    /** `Axis::set_state`: byte 0 is the requested state, the rest are zero;
        reading byte 0 back gives the state. */
    function SetState(state: AxisState): (r: CANRequest)
      ensures r.axis == id && r.cmd == Write(SetAxisRequestedState)
      ensures TryAxisState(r.data[0]) == Ok(state)
      ensures r.data[1..] == Zeros(7)
    {
      TryAxisStateRoundTrip(state);
      Ticket(id, Write(SetAxisRequestedState), [AxisStateValue(state), 0, 0, 0, 0, 0, 0, 0])
    }

    /** `Axis::get_temperatures` */
    function GetTemperatures(): (r: CANRequest)
      ensures r.axis == id && r.cmd == Read(GetTemperature) && r.data == Zeros(8)
    {
      Ticket(id, Read(GetTemperature), Zeros(8))
    }
  }

  /** `Axis::new(id)`: the motor and the encoder are built from the same id. */
  function NewAxis(id: AxisID): (r: Axis)
    ensures r.Valid() && r.id == id
  {
    Axis(id, Motor(id), Encoder(id))
  }

  // ------------------------------------------------------------- properties

  /** Every frame built from `Axis::new(id)`, by the axis or by its motor or
      encoder, is addressed to `id`. */
  lemma BuildersAddressTheAxis(id: AxisID, s: AxisState, c: ControlMode, i: InputMode)
    ensures var a := NewAxis(id);
      a.GetHeartbeat().axis == id && a.SetState(s).axis == id &&
      a.GetTemperatures().axis == id &&
      a.encoder.GetError().axis == id && a.encoder.GetCount().axis == id &&
      a.encoder.GetEstimates().axis == id &&
      a.motor.GetErrors().axis == id && a.motor.GetSensorlessError().axis == id &&
      a.motor.SetControlMode(c, i).axis == id
  {
  }

  /** The reply to each Read builder's request carries its command, and the
      decoder for the value that builder asks for accepts it whatever the
      payload (it never panics). */
  lemma RepliesDecode(a: Axis, d: Bytes8)
    ensures Casts.ToHeartbeat(CANFrame(a.id, a.GetHeartbeat().cmd, d)).Returns?
    ensures Casts.ToTemperature(CANFrame(a.id, a.GetTemperatures().cmd, d)).Returns?
    ensures Casts.ToEncoderError(CANFrame(a.id, a.encoder.GetError().cmd, d)).Returns?
    ensures Casts.ToEncoderCount(CANFrame(a.id, a.encoder.GetCount().cmd, d)).Returns?
    ensures Casts.ToEncoderEstimates(CANFrame(a.id, a.encoder.GetEstimates().cmd, d)).Returns?
    ensures Casts.ToMotorError(CANFrame(a.id, a.motor.GetErrors().cmd, d)).Returns?
    ensures Casts.ToSensorlessError(CANFrame(a.id, a.motor.GetSensorlessError().cmd, d)).Returns?
  {
  }

  /** Each Write builder's own frame is what a bodyless reply decodes, and
      the unit decoder accepts it. */
  lemma WriteRequestsDecodeToUnit(a: Axis, s: AxisState, c: ControlMode, i: InputMode)
    ensures Casts.ToUnit(a.SetState(s)) == Returns(Ok(()))
    ensures Casts.ToUnit(a.motor.SetControlMode(c, i)) == Returns(Ok(()))
  {
  }
}
