/** The command registry and the axis/controller value tables, each with the
    `try_from` that `back_to_enum!` generates for it. */
module State {
  import opened Wrappers
  import opened Lookup
  import opened LittleEndian

  // ---------------------------------------------------------------- ReadComm

  /** Commands whose reply carries a body. */
  datatype ReadComm =
    | GetHeartbeat | MotorError | EncoderError | SensorlessError | GetEncoderEstimates
    | GetEncoderCount | GetIQ | GetTemperature | GetVBusVoltage

  /** `c as u32` */
  function ReadCode(c: ReadComm): (r: int)
  {
    match c
    case GetHeartbeat => 0x001
    case MotorError => 0x003
    case EncoderError => 0x004
    case SensorlessError => 0x005
    case GetEncoderEstimates => 0x009
    case GetEncoderCount => 0x00A
    case GetIQ => 0x014
    case GetTemperature => 0x015
    case GetVBusVoltage => 0x017
  }

  /** The variants in declaration order: the order of the generated match arms. */
  const ReadComms: seq<ReadComm> :=
    [GetHeartbeat, MotorError, EncoderError, SensorlessError, GetEncoderEstimates,
     GetEncoderCount, GetIQ, GetTemperature, GetVBusVoltage]

  lemma ReadCommDeclared(c: ReadComm)
    ensures c in ReadComms
  {
  }

  lemma ReadCommTable()
    ensures Complete(ReadComms)
    ensures Ascending(ReadComms, ReadCode)
  {
    forall c: ReadComm ensures c in ReadComms { ReadCommDeclared(c); }
  }

  /** `ReadComm::try_from(v: u32)` */
  function TryReadComm(v: U32): (r: Result<ReadComm, ()>)
    ensures r.Ok? ==> ReadCode(r.value) == v
    ensures r.Err? <==> forall c: ReadComm :: ReadCode(c) != v
  {
    ReadCommTable();
    ExactErrIff(ReadComms, ReadCode, v);
    Exact(ReadComms, ReadCode, v)
  }

  /** Every Read command decodes back from its own code. */
  lemma TryReadCommRoundTrip(c: ReadComm)
    ensures TryReadComm(ReadCode(c)) == Ok(c)
  {
    ReadCommTable();
    ExactIff(ReadComms, ReadCode, ReadCode(c), c);
  }

  // --------------------------------------------------------------- WriteComm

  /** Commands that are only acknowledged. */
  datatype WriteComm =
    | EStop | SetAxisNodeID | SetAxisRequestedState | SetControllerMode | SetInputPosition
    | SetInputVelocity | SetInputTorque | SetLimits | StartAnticogging | SetTrajVelocityLim
    | SetTrajAccelLim | SetTrajInertia | RebootODrive | ClearErrors | SetLinearCount
    | SetPositionGain | SetVelocityGain

  /** `c as u32` */
  function WriteCode(c: WriteComm): (r: int)
  {
    match c
    case EStop => 0x002
    case SetAxisNodeID => 0x006
    case SetAxisRequestedState => 0x007
    case SetControllerMode => 0x00B
    case SetInputPosition => 0x00C
    case SetInputVelocity => 0x00D
    case SetInputTorque => 0x00E
    case SetLimits => 0x00F
    case StartAnticogging => 0x010
    case SetTrajVelocityLim => 0x011
    case SetTrajAccelLim => 0x012
    case SetTrajInertia => 0x013
    case RebootODrive => 0x016
    case ClearErrors => 0x018
    case SetLinearCount => 0x019
    case SetPositionGain => 0x01A
    case SetVelocityGain => 0x01B
  }

  const WriteComms: seq<WriteComm> :=
    [EStop, SetAxisNodeID, SetAxisRequestedState, SetControllerMode, SetInputPosition,
     SetInputVelocity, SetInputTorque, SetLimits, StartAnticogging, SetTrajVelocityLim,
     SetTrajAccelLim, SetTrajInertia, RebootODrive, ClearErrors, SetLinearCount,
     SetPositionGain, SetVelocityGain]

  lemma WriteCommDeclared(c: WriteComm)
    ensures c in WriteComms
  {
  }

  lemma WriteCommTable()
    ensures Complete(WriteComms)
    ensures Ascending(WriteComms, WriteCode)
  {
    forall c: WriteComm ensures c in WriteComms { WriteCommDeclared(c); }
  }

  /** `WriteComm::try_from(v: u32)` */
  function TryWriteComm(v: U32): (r: Result<WriteComm, ()>)
    ensures r.Ok? ==> WriteCode(r.value) == v
    ensures r.Err? <==> forall c: WriteComm :: WriteCode(c) != v
  {
    WriteCommTable();
    ExactErrIff(WriteComms, WriteCode, v);
    Exact(WriteComms, WriteCode, v)
  }

  /** Every Write command decodes back from its own code. */
  lemma TryWriteCommRoundTrip(c: WriteComm)
    ensures TryWriteComm(WriteCode(c)) == Ok(c)
  {
    WriteCommTable();
    ExactIff(WriteComms, WriteCode, WriteCode(c), c);
  }

  // ----------------------------------------------------------- ODriveCommand

  datatype ODriveCommand = Read(read: ReadComm) | Write(write: WriteComm)

  /** The command's code, the value that fills the low 5 bits of the arbitration id. */
  function Code(c: ODriveCommand): (r: int)
  {
    match c
    case Read(r) => ReadCode(r)
    case Write(w) => WriteCode(w)
  }

  /** The two code spaces are disjoint. */
  lemma ReadWriteDisjoint(r: ReadComm, w: WriteComm)
    ensures ReadCode(r) != WriteCode(w)
  {
  }

  /** Every code is a positive 5-bit value; the largest is 0x1B (SetVelocityGain). */
  lemma CodesFitFiveBits(c: ODriveCommand)
    ensures 0 < Code(c) <= 0x1B < 32
  {
  }

  /** A Write code is never a Read command and a Read code never a Write command. */
  lemma CodeSpacesReject(r: ReadComm, w: WriteComm)
    ensures TryReadComm(WriteCode(w)).Err?
    ensures TryWriteComm(ReadCode(r)).Err?
  {
    forall r': ReadComm ensures ReadCode(r') != WriteCode(w) { ReadWriteDisjoint(r', w); }
    forall w': WriteComm ensures ReadCode(r) != WriteCode(w') { ReadWriteDisjoint(r, w'); }
  }

  /** A command's code decodes back to it in its own table and is refused by
      the other one. */
  lemma CommandCodeDecodes(c: ODriveCommand)
    ensures c.Read? ==> TryReadComm(Code(c)) == Ok(c.read) && TryWriteComm(Code(c)).Err?
    ensures c.Write? ==> TryWriteComm(Code(c)) == Ok(c.write) && TryReadComm(Code(c)).Err?
  {
    match c
    case Read(r) =>
      TryReadCommRoundTrip(r);
      CodeSpacesReject(r, EStop);
    case Write(w) =>
      TryWriteCommRoundTrip(w);
      CodeSpacesReject(GetHeartbeat, w);
  }

  /** The code determines the command: codes are distinct within each table and across them. */
  lemma CodeInjective(c1: ODriveCommand, c2: ODriveCommand)
    requires Code(c1) == Code(c2)
    ensures c1 == c2
  {
    match (c1, c2)
    case (Read(r1), Read(r2)) =>
      TryReadCommRoundTrip(r1);
      TryReadCommRoundTrip(r2);
    case (Write(w1), Write(w2)) =>
      TryWriteCommRoundTrip(w1);
      TryWriteCommRoundTrip(w2);
    case (Read(r1), Write(w2)) =>
      ReadWriteDisjoint(r1, w2);
    case (Write(w1), Read(r2)) =>
      ReadWriteDisjoint(r2, w1);
  }

  // --------------------------------------------------------------- AxisState

  datatype AxisState =
    | Undefined | Idle | StartupSequence | FullCalibrationSequence | MotorCalibration
    | EncoderIndexSearch | EncoderOffsetCalib | ClosedLoop | LockinSpin | EncoderDirFind
    | Homing | EncoderHallPolarityCalib | EncoderHallPhaseCalib

  /** `s as u8` */
  function AxisStateValue(s: AxisState): (r: int)
  {
    match s
    case Undefined => 0x0
    case Idle => 0x1
    case StartupSequence => 0x2
    case FullCalibrationSequence => 0x3
    case MotorCalibration => 0x4
    case EncoderIndexSearch => 0x5
    case EncoderOffsetCalib => 0x7
    case ClosedLoop => 0x8
    case LockinSpin => 0x9
    case EncoderDirFind => 0xA
    case Homing => 0xB
    case EncoderHallPolarityCalib => 0xC
    case EncoderHallPhaseCalib => 0xD
  }

  const AxisStates: seq<AxisState> :=
    [Undefined, Idle, StartupSequence, FullCalibrationSequence, MotorCalibration,
     EncoderIndexSearch, EncoderOffsetCalib, ClosedLoop, LockinSpin, EncoderDirFind,
     Homing, EncoderHallPolarityCalib, EncoderHallPhaseCalib]

  lemma AxisStateDeclared(s: AxisState)
    ensures s in AxisStates
  {
  }

  lemma AxisStateTable()
    ensures Complete(AxisStates)
    ensures Ascending(AxisStates, AxisStateValue)
  {
    forall s: AxisState ensures s in AxisStates { AxisStateDeclared(s); }
  }

  /** `AxisState::try_from(v: u8)` */
  function TryAxisState(v: U8): (r: Result<AxisState, ()>)
    ensures r.Ok? ==> AxisStateValue(r.value) == v
    ensures r.Err? <==> forall s: AxisState :: AxisStateValue(s) != v
  {
    AxisStateTable();
    ExactErrIff(AxisStates, AxisStateValue, v);
    Exact(AxisStates, AxisStateValue, v)
  }

  lemma TryAxisStateRoundTrip(s: AxisState)
    ensures 0 <= AxisStateValue(s) < 0x100
    ensures TryAxisState(AxisStateValue(s)) == Ok(s)
  {
    AxisStateTable();
    ExactIff(AxisStates, AxisStateValue, AxisStateValue(s), s);
  }

  /** There is no state 6: exactly the bytes 0..=0xD other than 6 are states. */
  lemma AxisStateAccepts(v: U8)
    ensures TryAxisState(v).Ok? <==> v <= 0xD && v != 6
  {
    if v <= 0xD && v != 6 {
      var s := AxisStates[if v < 6 then v else v - 1];
      assert AxisStateValue(s) == v;
    }
  }

  // ------------------------------------------------------------- ControlMode

  datatype ControlMode = VoltageControl | TorqueControl | VelocityControl | PositionControl

  /** `c as i32` */
  function ControlModeValue(c: ControlMode): (r: int)
  {
    match c
    case VoltageControl => 0x0
    case TorqueControl => 0x1
    case VelocityControl => 0x2
    case PositionControl => 0x3
  }

  const ControlModes: seq<ControlMode> :=
    [VoltageControl, TorqueControl, VelocityControl, PositionControl]

  lemma ControlModeDeclared(c: ControlMode)
    ensures c in ControlModes
  {
  }

  lemma ControlModeTable()
    ensures Complete(ControlModes)
    ensures Ascending(ControlModes, ControlModeValue)
  {
    forall c: ControlMode ensures c in ControlModes { ControlModeDeclared(c); }
  }

  /** `ControlMode::try_from(v: i32)` */
  function TryControlMode(v: I32): (r: Result<ControlMode, ()>)
    ensures r.Ok? ==> ControlModeValue(r.value) == v
    ensures r.Err? <==> forall c: ControlMode :: ControlModeValue(c) != v
  {
    ControlModeTable();
    ExactErrIff(ControlModes, ControlModeValue, v);
    Exact(ControlModes, ControlModeValue, v)
  }

  lemma TryControlModeRoundTrip(c: ControlMode)
    ensures TryControlMode(ControlModeValue(c)) == Ok(c)
  {
    ControlModeTable();
    ExactIff(ControlModes, ControlModeValue, ControlModeValue(c), c);
  }

  /** Exactly 0..=3 are control modes. */
  lemma ControlModeAccepts(v: I32)
    ensures TryControlMode(v).Ok? <==> 0 <= v <= 3
  {
    if 0 <= v <= 3 {
      assert ControlModeValue(ControlModes[v]) == v;
    }
  }

  // --------------------------------------------------------------- InputMode

  datatype InputMode =
    | Inactive | Passthrough | VelRamp | PosFilter | MixChannels | TrapTraj | TorqueRamp
    | Mirror | Tuning

  /** `i as i32` */
  function InputModeValue(i: InputMode): (r: int)
  {
    match i
    case Inactive => 0x0
    case Passthrough => 0x1
    case VelRamp => 0x2
    case PosFilter => 0x3
    case MixChannels => 0x4
    case TrapTraj => 0x5
    case TorqueRamp => 0x6
    case Mirror => 0x7
    case Tuning => 0x8
  }

  const InputModes: seq<InputMode> :=
    [Inactive, Passthrough, VelRamp, PosFilter, MixChannels, TrapTraj, TorqueRamp, Mirror, Tuning]

  lemma InputModeDeclared(i: InputMode)
    ensures i in InputModes
  {
  }

  lemma InputModeTable()
    ensures Complete(InputModes)
    ensures Ascending(InputModes, InputModeValue)
  {
    forall i: InputMode ensures i in InputModes { InputModeDeclared(i); }
  }

  /** `InputMode::try_from(v: i32)` */
  function TryInputMode(v: I32): (r: Result<InputMode, ()>)
    ensures r.Ok? ==> InputModeValue(r.value) == v
    ensures r.Err? <==> forall i: InputMode :: InputModeValue(i) != v
  {
    InputModeTable();
    ExactErrIff(InputModes, InputModeValue, v);
    Exact(InputModes, InputModeValue, v)
  }

  lemma TryInputModeRoundTrip(i: InputMode)
    ensures TryInputMode(InputModeValue(i)) == Ok(i)
  {
    InputModeTable();
    ExactIff(InputModes, InputModeValue, InputModeValue(i), i);
  }

  /** Exactly 0..=8 are input modes. */
  lemma InputModeAccepts(v: I32)
    ensures TryInputMode(v).Ok? <==> 0 <= v <= 8
  {
    if 0 <= v <= 8 {
      assert InputModeValue(InputModes[v]) == v;
    }
  }
}
