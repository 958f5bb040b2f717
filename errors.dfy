/** The power-of-two error tables reported by the axis, motor, encoder and
    sensorless estimator. `back_to_enum!` decodes a raw error field by exact
    value: a field with several bits set matches no variant. */
module Errors {
  import opened Wrappers
  import opened Lookup
  import opened LittleEndian

  /** `n` is a single power of two: in hexadecimal, one digit 1, 2, 4 or 8
      followed only by zeros. */
  predicate IsPowerOfTwo(n: int)
    decreases n
  {
    n == 1 || n == 2 || n == 4 || n == 8 || (n >= 16 && n % 16 == 0 && IsPowerOfTwo(n / 16))
  }

  // --------------------------------------------------------------- AxisError

  datatype AxisError =
    | Initializing | SystemLevel | TimingError | MissingEstimate | BadConfig | DrvFault
    | DCBusOverVoltage | DCBusUnderVoltage | DCBusOverCurrent | DCBusOverRegenCurrent
    | CurrentLimitViolation | MotorOverTemp | InverterOverTemp | VelocityLimitViolation
    | PositionLimitViolation | WatchdogTimerExpired | EStopRequested | SpinoutDetected
    | OtherDeviceFailed

  /** `e as u32` */
  function AxisErrorValue(e: AxisError): (r: int)
  {
    match e
    case Initializing => 0x1
    case SystemLevel => 0x2
    case TimingError => 0x4
    case MissingEstimate => 0x8
    case BadConfig => 0x10
    case DrvFault => 0x20
    case DCBusOverVoltage => 0x100
    case DCBusUnderVoltage => 0x200
    case DCBusOverCurrent => 0x400
    case DCBusOverRegenCurrent => 0x800
    case CurrentLimitViolation => 0x1000
    case MotorOverTemp => 0x2000
    case InverterOverTemp => 0x4000
    case VelocityLimitViolation => 0x8000
    case PositionLimitViolation => 0x10000
    case WatchdogTimerExpired => 0x1000000
    case EStopRequested => 0x2000000
    case SpinoutDetected => 0x4000000
    case OtherDeviceFailed => 0x8000000
  }

  const AxisErrors: seq<AxisError> :=
    [AxisError.Initializing, AxisError.SystemLevel, AxisError.TimingError,
     AxisError.MissingEstimate, AxisError.BadConfig, AxisError.DrvFault,
     AxisError.DCBusOverVoltage, AxisError.DCBusUnderVoltage, AxisError.DCBusOverCurrent,
     AxisError.DCBusOverRegenCurrent, AxisError.CurrentLimitViolation, AxisError.MotorOverTemp,
     AxisError.InverterOverTemp, AxisError.VelocityLimitViolation,
     AxisError.PositionLimitViolation, AxisError.WatchdogTimerExpired,
     AxisError.EStopRequested, AxisError.SpinoutDetected, AxisError.OtherDeviceFailed]

  lemma AxisErrorDeclared(e: AxisError)
    ensures e in AxisErrors
  {
  }

  lemma AxisErrorTable()
    ensures Complete(AxisErrors)
    ensures Ascending(AxisErrors, AxisErrorValue)
  {
    forall e: AxisError ensures e in AxisErrors { AxisErrorDeclared(e); }
  }

  /** `AxisError::try_from(v: u32)` */
  function TryAxisError(v: U32): (r: Result<AxisError, ()>)
    ensures r.Ok? ==> AxisErrorValue(r.value) == v
    ensures r.Err? <==> forall e: AxisError :: AxisErrorValue(e) != v
  {
    AxisErrorTable();
    ExactErrIff(AxisErrors, AxisErrorValue, v);
    Exact(AxisErrors, AxisErrorValue, v)
  }

  lemma TryAxisErrorRoundTrip(e: AxisError)
    ensures 0 <= AxisErrorValue(e) < 0x1_0000_0000
    ensures TryAxisError(AxisErrorValue(e)) == Ok(e)
  {
    AxisErrorTable();
    ExactIff(AxisErrors, AxisErrorValue, AxisErrorValue(e), e);
  }

  /** Every axis error is a single bit. */
  lemma AxisErrorSingleBit(e: AxisError)
    ensures IsPowerOfTwo(AxisErrorValue(e))
  {
    match e
    case Initializing => assert IsPowerOfTwo(0x1);
    case SystemLevel => assert IsPowerOfTwo(0x2);
    case TimingError => assert IsPowerOfTwo(0x4);
    case MissingEstimate => assert IsPowerOfTwo(0x8);
    case BadConfig => assert IsPowerOfTwo(0x10);
    case DrvFault => assert IsPowerOfTwo(0x20);
    case DCBusOverVoltage => assert IsPowerOfTwo(0x100);
    case DCBusUnderVoltage => assert IsPowerOfTwo(0x200);
    case DCBusOverCurrent => assert IsPowerOfTwo(0x400);
    case DCBusOverRegenCurrent => assert IsPowerOfTwo(0x800);
    case CurrentLimitViolation => assert IsPowerOfTwo(0x1000);
    case MotorOverTemp => assert IsPowerOfTwo(0x2000);
    case InverterOverTemp => assert IsPowerOfTwo(0x4000);
    case VelocityLimitViolation => assert IsPowerOfTwo(0x8000);
    case PositionLimitViolation => assert IsPowerOfTwo(0x10000);
    case WatchdogTimerExpired => assert IsPowerOfTwo(0x1000000);
    case EStopRequested => assert IsPowerOfTwo(0x2000000);
    case SpinoutDetected => assert IsPowerOfTwo(0x4000000);
    case OtherDeviceFailed => assert IsPowerOfTwo(0x8000000);
  }

  /** Distinct axis errors have distinct values. */
  lemma AxisErrorDistinct(e1: AxisError, e2: AxisError)
    requires e1 != e2
    ensures AxisErrorValue(e1) != AxisErrorValue(e2)
  {
    TryAxisErrorRoundTrip(e1);
    TryAxisErrorRoundTrip(e2);
  }

  /** Lookup is exact, not a flag set: a value that is not a single bit (0,
      or several flags raised together) is rejected. */
  lemma AxisErrorRejectsNonSingleBit(v: U32)
    requires !IsPowerOfTwo(v)
    ensures TryAxisError(v).Err?
  {
    forall e: AxisError ensures AxisErrorValue(e) != v { AxisErrorSingleBit(e); }
  }

  /** 0x2 is SystemLevel, while 0x3 (Initializing and SystemLevel together) and
      0 ("no error") are rejected. */
  lemma AxisErrorExamples()
    ensures TryAxisError(0x2) == Ok(AxisError.SystemLevel)
    ensures TryAxisError(0x3).Err? && TryAxisError(0x0).Err?
  {
    TryAxisErrorRoundTrip(AxisError.SystemLevel);
    AxisErrorRejectsNonSingleBit(0x3);
    AxisErrorRejectsNonSingleBit(0x0);
  }

  /** Single bits that no variant declares (0x40, 0x80, 0x20000) are rejected too. */
  lemma AxisErrorUndeclaredBits(v: U32)
    requires v == 0x40 || v == 0x80 || v == 0x20000
    ensures TryAxisError(v).Err?
  {
    AxisErrorTable();
    if v == 0x20000 {
      ExactGap(AxisErrors, AxisErrorValue, 15, v);
    } else {
      ExactGap(AxisErrors, AxisErrorValue, 6, v);
    }
  }

  // -------------------------------------------------------------- MotorError

  datatype MotorError =
    | PhaseResistanceOFR | PhaseInductanceOFR | DRVFault | ControlDeadlineMissed
    | ModulationMagnitude | CurrentSenseSaturation | CurrentLimitViolation | ModulationIsNAN
    | MotorThermistorOverTemp | FetThermistorOverTemp | TimerUpdateMissed
    | CurrentMeasurementUnavailable | ControllerFailed | IBusOFR | BrakeResistorDisarmed
    | SystemLevel | BadTiming | UnknownPhaseEstimate | UnknownPhaseVel | UnknownTorque
    | UnknownCurrentCommand | UnknownCurrentMeasurement | UnknownVBusVoltage
    | UnknownVoltageCommand | UnknownGains | ControllerInitializing | UnbalancedPhases

  /** `e as u64` */
  function MotorErrorValue(e: MotorError): (r: int)
  {
    match e
    case PhaseResistanceOFR => 0x1
    case PhaseInductanceOFR => 0x2
    case DRVFault => 0x8
    case ControlDeadlineMissed => 0x10
    case ModulationMagnitude => 0x80
    case CurrentSenseSaturation => 0x400
    case CurrentLimitViolation => 0x1000
    case ModulationIsNAN => 0x10000
    case MotorThermistorOverTemp => 0x20000
    case FetThermistorOverTemp => 0x40000
    case TimerUpdateMissed => 0x80000
    case CurrentMeasurementUnavailable => 0x100000
    case ControllerFailed => 0x200000
    case IBusOFR => 0x400000
    case BrakeResistorDisarmed => 0x800000
    case SystemLevel => 0x1000000
    case BadTiming => 0x2000000
    case UnknownPhaseEstimate => 0x4000000
    case UnknownPhaseVel => 0x8000000
    case UnknownTorque => 0x10000000
    case UnknownCurrentCommand => 0x20000000
    case UnknownCurrentMeasurement => 0x40000000
    case UnknownVBusVoltage => 0x80000000
    case UnknownVoltageCommand => 0x100000000
    case UnknownGains => 0x200000000
    case ControllerInitializing => 0x400000000
    case UnbalancedPhases => 0x800000000
  }

  const MotorErrors: seq<MotorError> :=
    [MotorError.PhaseResistanceOFR, MotorError.PhaseInductanceOFR, MotorError.DRVFault,
     MotorError.ControlDeadlineMissed, MotorError.ModulationMagnitude,
     MotorError.CurrentSenseSaturation, MotorError.CurrentLimitViolation,
     MotorError.ModulationIsNAN, MotorError.MotorThermistorOverTemp,
     MotorError.FetThermistorOverTemp, MotorError.TimerUpdateMissed,
     MotorError.CurrentMeasurementUnavailable, MotorError.ControllerFailed, MotorError.IBusOFR,
     MotorError.BrakeResistorDisarmed, MotorError.SystemLevel, MotorError.BadTiming,
     MotorError.UnknownPhaseEstimate, MotorError.UnknownPhaseVel, MotorError.UnknownTorque,
     MotorError.UnknownCurrentCommand, MotorError.UnknownCurrentMeasurement,
     MotorError.UnknownVBusVoltage, MotorError.UnknownVoltageCommand, MotorError.UnknownGains,
     MotorError.ControllerInitializing, MotorError.UnbalancedPhases]

  lemma MotorErrorDeclared(e: MotorError)
    ensures e in MotorErrors
  {
  }

  lemma MotorErrorAscending()
    ensures Ascending(MotorErrors, MotorErrorValue)
  {
    forall i | 0 < i < |MotorErrors|
      ensures MotorErrorValue(MotorErrors[i - 1]) < MotorErrorValue(MotorErrors[i])
    {
    }
  }

  lemma MotorErrorTable()
    ensures Complete(MotorErrors)
    ensures Ascending(MotorErrors, MotorErrorValue)
  {
    forall e: MotorError ensures e in MotorErrors { MotorErrorDeclared(e); }
    MotorErrorAscending();
  }

  /** `MotorError::try_from(v: u64)` */
  function TryMotorError(v: U64): (r: Result<MotorError, ()>)
    ensures r.Ok? ==> MotorErrorValue(r.value) == v
    ensures r.Err? <==> forall e: MotorError :: MotorErrorValue(e) != v
  {
    MotorErrorTable();
    ExactErrIff(MotorErrors, MotorErrorValue, v);
    Exact(MotorErrors, MotorErrorValue, v)
  }

  lemma TryMotorErrorRoundTrip(e: MotorError)
    ensures 0 <= MotorErrorValue(e) < 0x1_0000_0000_0000_0000
    ensures TryMotorError(MotorErrorValue(e)) == Ok(e)
  {
    MotorErrorTable();
    ExactIff(MotorErrors, MotorErrorValue, MotorErrorValue(e), e);
  }

  /** Every motor error is a single bit. */
  lemma MotorErrorSingleBit(e: MotorError)
    ensures IsPowerOfTwo(MotorErrorValue(e))
  {
    match e
    case PhaseResistanceOFR => assert IsPowerOfTwo(0x1);
    case PhaseInductanceOFR => assert IsPowerOfTwo(0x2);
    case DRVFault => assert IsPowerOfTwo(0x8);
    case ControlDeadlineMissed => assert IsPowerOfTwo(0x10);
    case ModulationMagnitude => assert IsPowerOfTwo(0x80);
    case CurrentSenseSaturation => assert IsPowerOfTwo(0x400);
    case CurrentLimitViolation => assert IsPowerOfTwo(0x1000);
    case ModulationIsNAN => assert IsPowerOfTwo(0x10000);
    case MotorThermistorOverTemp => assert IsPowerOfTwo(0x20000);
    case FetThermistorOverTemp => assert IsPowerOfTwo(0x40000);
    case TimerUpdateMissed => assert IsPowerOfTwo(0x80000);
    case CurrentMeasurementUnavailable => assert IsPowerOfTwo(0x100000);
    case ControllerFailed => assert IsPowerOfTwo(0x200000);
    case IBusOFR => assert IsPowerOfTwo(0x400000);
    case BrakeResistorDisarmed => assert IsPowerOfTwo(0x800000);
    case SystemLevel => assert IsPowerOfTwo(0x1000000);
    case BadTiming => assert IsPowerOfTwo(0x2000000);
    case UnknownPhaseEstimate => assert IsPowerOfTwo(0x4000000);
    case UnknownPhaseVel => assert IsPowerOfTwo(0x8000000);
    case UnknownTorque => assert IsPowerOfTwo(0x10000000);
    case UnknownCurrentCommand => assert IsPowerOfTwo(0x20000000);
    case UnknownCurrentMeasurement => assert IsPowerOfTwo(0x40000000);
    case UnknownVBusVoltage => assert IsPowerOfTwo(0x80000000);
    case UnknownVoltageCommand => assert IsPowerOfTwo(0x100000000);
    case UnknownGains => assert IsPowerOfTwo(0x200000000);
    case ControllerInitializing => assert IsPowerOfTwo(0x400000000);
    case UnbalancedPhases => assert IsPowerOfTwo(0x800000000);
  }

  /** Distinct motor errors have distinct values. */
  lemma MotorErrorDistinct(e1: MotorError, e2: MotorError)
    requires e1 != e2
    ensures MotorErrorValue(e1) != MotorErrorValue(e2)
  {
    TryMotorErrorRoundTrip(e1);
    TryMotorErrorRoundTrip(e2);
  }

  /** The motor error field needs the `u64` range: exactly the last four
      variants lie at or above 2^32. */
  lemma MotorErrorNeedsU64(e: MotorError)
    ensures MotorErrorValue(e) >= 0x1_0000_0000 <==>
      e.UnknownVoltageCommand? || e.UnknownGains? || e.ControllerInitializing? || e.UnbalancedPhases?
  {
  }

  /** Those variants are still decoded: the lookup covers the whole `u64`. */
  lemma MotorErrorDecodesHighBits()
    ensures TryMotorError(0x800000000) == Ok(MotorError.UnbalancedPhases)
  {
    var e := MotorError.UnbalancedPhases;
    TryMotorErrorRoundTrip(e);
    assert MotorErrorValue(e) == 0x800000000;
  }

  // ------------------------------------------------------------ EncoderError

  datatype EncoderError =
    | UnstableGain | CPRPolepairsMismatch | NoResponse | UnsupportedEncoderMode
    | IllegalHallState | IndexNotFoundYet | AbsSpiTimeout | AbsSpiComFail | AbsSpiNotReady
    | HallNotCalibratedYet

  /** `e as u32` */
  function EncoderErrorValue(e: EncoderError): (r: int)
  {
    match e
    case UnstableGain => 0x1
    case CPRPolepairsMismatch => 0x2
    case NoResponse => 0x4
    case UnsupportedEncoderMode => 0x8
    case IllegalHallState => 0x10
    case IndexNotFoundYet => 0x20
    case AbsSpiTimeout => 0x40
    case AbsSpiComFail => 0x80
    case AbsSpiNotReady => 0x100
    case HallNotCalibratedYet => 0x200
  }

  const EncoderErrors: seq<EncoderError> :=
    [EncoderError.UnstableGain, EncoderError.CPRPolepairsMismatch, EncoderError.NoResponse,
     EncoderError.UnsupportedEncoderMode, EncoderError.IllegalHallState,
     EncoderError.IndexNotFoundYet, EncoderError.AbsSpiTimeout, EncoderError.AbsSpiComFail,
     EncoderError.AbsSpiNotReady, EncoderError.HallNotCalibratedYet]

  lemma EncoderErrorDeclared(e: EncoderError)
    ensures e in EncoderErrors
  {
  }

  lemma EncoderErrorTable()
    ensures Complete(EncoderErrors)
    ensures Ascending(EncoderErrors, EncoderErrorValue)
  {
    forall e: EncoderError ensures e in EncoderErrors { EncoderErrorDeclared(e); }
  }

  /** `EncoderError::try_from(v: u32)` */
  function TryEncoderError(v: U32): (r: Result<EncoderError, ()>)
    ensures r.Ok? ==> EncoderErrorValue(r.value) == v
    ensures r.Err? <==> forall e: EncoderError :: EncoderErrorValue(e) != v
  {
    EncoderErrorTable();
    ExactErrIff(EncoderErrors, EncoderErrorValue, v);
    Exact(EncoderErrors, EncoderErrorValue, v)
  }

  lemma TryEncoderErrorRoundTrip(e: EncoderError)
    ensures 0 <= EncoderErrorValue(e) < 0x1_0000_0000
    ensures TryEncoderError(EncoderErrorValue(e)) == Ok(e)
  {
    EncoderErrorTable();
    ExactIff(EncoderErrors, EncoderErrorValue, EncoderErrorValue(e), e);
  }

  /** Every encoder error is a single bit. */
  lemma EncoderErrorSingleBit(e: EncoderError)
    ensures IsPowerOfTwo(EncoderErrorValue(e))
  {
    match e
    case UnstableGain => assert IsPowerOfTwo(0x1);
    case CPRPolepairsMismatch => assert IsPowerOfTwo(0x2);
    case NoResponse => assert IsPowerOfTwo(0x4);
    case UnsupportedEncoderMode => assert IsPowerOfTwo(0x8);
    case IllegalHallState => assert IsPowerOfTwo(0x10);
    case IndexNotFoundYet => assert IsPowerOfTwo(0x20);
    case AbsSpiTimeout => assert IsPowerOfTwo(0x40);
    case AbsSpiComFail => assert IsPowerOfTwo(0x80);
    case AbsSpiNotReady => assert IsPowerOfTwo(0x100);
    case HallNotCalibratedYet => assert IsPowerOfTwo(0x200);
  }

  /** Distinct encoder errors have distinct values. */
  lemma EncoderErrorDistinct(e1: EncoderError, e2: EncoderError)
    requires e1 != e2
    ensures EncoderErrorValue(e1) != EncoderErrorValue(e2)
  {
    TryEncoderErrorRoundTrip(e1);
    TryEncoderErrorRoundTrip(e2);
  }

  // --------------------------------------------------------- SensorlessError

  datatype SensorlessError = UnstableGain | UnknownCurrentMeasurement

  /** `e as u32` */
  function SensorlessErrorValue(e: SensorlessError): (r: int)
  {
    match e
    case UnstableGain => 0x1
    case UnknownCurrentMeasurement => 0x2
  }

  const SensorlessErrors: seq<SensorlessError> :=
    [SensorlessError.UnstableGain, SensorlessError.UnknownCurrentMeasurement]

  lemma SensorlessErrorDeclared(e: SensorlessError)
    ensures e in SensorlessErrors
  {
  }

  lemma SensorlessErrorTable()
    ensures Complete(SensorlessErrors)
    ensures Ascending(SensorlessErrors, SensorlessErrorValue)
  {
    forall e: SensorlessError ensures e in SensorlessErrors { SensorlessErrorDeclared(e); }
  }

  /** `SensorlessError::try_from(v: u32)` */
  function TrySensorlessError(v: U32): (r: Result<SensorlessError, ()>)
    ensures r.Ok? ==> SensorlessErrorValue(r.value) == v
    ensures r.Err? <==> forall e: SensorlessError :: SensorlessErrorValue(e) != v
  {
    SensorlessErrorTable();
    ExactErrIff(SensorlessErrors, SensorlessErrorValue, v);
    Exact(SensorlessErrors, SensorlessErrorValue, v)
  }

  /** Every sensorless error is a single bit. */
  lemma SensorlessErrorSingleBit(e: SensorlessError)
    ensures IsPowerOfTwo(SensorlessErrorValue(e))
  {
    match e
    case UnstableGain => assert IsPowerOfTwo(0x1);
    case UnknownCurrentMeasurement => assert IsPowerOfTwo(0x2);
  }

  /** Exactly the values 1 and 2 are sensorless errors. */
  lemma SensorlessErrorAccepts(v: U32)
    ensures TrySensorlessError(v).Ok? <==> v == 1 || v == 2
  {
    if v == 1 {
      assert SensorlessErrorValue(SensorlessError.UnstableGain) == v;
    } else if v == 2 {
      assert SensorlessErrorValue(SensorlessError.UnknownCurrentMeasurement) == v;
    }
  }
}
