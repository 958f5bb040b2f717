# rustodrive protocol layer in Dafny

This project models the protocol layer of rustodrive. rustodrive is a Rust client that
commands ODrive motor-controller axes over a CAN bus. The layer sits under the CAN
transport, and the model covers these parts of it:

- **Byte codec** (`ResponseManip`). It splits 8-, 4- and 2-byte arrays in half and joins
  them back. `combine` copies into a buffer the caller supplies; the model does this on an
  `array` with loop invariants.
- **Closed-enum decoding.** `back_to_enum!` generates a `try_from` that succeeds only when
  the raw integer equals a declared discriminant exactly. The model has one generic lookup,
  `Lookup.Exact`. It is used for:
  - the command registry (`ReadComm`, `WriteComm`);
  - the axis and controller tables (`AxisState`, `ControlMode`, `InputMode`);
  - the four single-bit error tables.
- **Little-endian fields.** `u32`, `u64`, `i32` (two's complement) and `f32` are read from
  bytes. An `f32` is an opaque 32-bit pattern.
- **Typed decoders** (`TryFrom<CANResponse>`).
  - Each decoder first checks the command and panics when it is the wrong one.
  - It then takes the 8-byte payload apart and reads its fields.
  - An enum-valued field that matches no variant fails with `ConvertedBadData`.
- **Request builders** of `Axis`, `Motor` and `Encoder`. Each one builds the frame
  `{axis, cmd, data}`.
- **Response envelope.** `Body` or `Bodyless`, with its `request()` and `body()` accessors.
- **`ODriveGroup`.**
  - The managed axes are kept in id order.
  - `convert_response` decodes a result and attaches the original request.
  - `all_axes` converts a whole batch in order.
  - `axis`, `get_axis`, `first_axis_id` and `reboot` are modelled as well.
- **CAN manager.** It has the message and response shapes, plus the 16-bit arbitration id
  `(axis_id as u16) << 5 | command`.

Apart from the length check inside `Bytes.Combine` (see "Left out"), a panic in the source is an outcome in the model: `Run<T> = Returns(value) | Panics`. It is
never turned into an error value. A decoder returns `Run<Result<T, ODriveError>>`.

The transport is a function parameter: `request` (one frame in, one result out) and
`request_many` (a batch in, a sequence of results out). The decoder that a generic call
uses is also a function parameter.

One module per source file: `bytes.dfy` (utils.rs), `lookup.dfy` (macros.rs), `state.dfy`,
`errors.dfy` (error.rs), `casts.dfy`, `axes.dfy` (axis.rs), `response.dfy`, `group.dfy`
(odrivegroup.rs) and `can_manager.dfy`. Three support files:
- `wrappers.dfy` holds `Result` and `Run`.
- `little_endian.dfy` models Rust's `from_le_bytes`/`to_le_bytes`.
- `frame.dfy` holds the `{axis, cmd, data}` frame.

The `canframe` module is not part of this model. `ticket(axis, cmd, data)` is taken to
build that record, which is the shape the group tests compare against.

Behaviour kept as the code has it:
- A decoder given the wrong command panics; `ConvertedBadData` is returned only for an
  enum-valued field that matches no variant.
- `get_axis` panics on an unmanaged id. `ODriveError` has exactly three variants:
  `FailedToSend`, `NoResponse` and `ConvertedBadData`.
- Error codes are looked up as one exact value. `0x3` is not an `AxisError`, and neither
  is `0`.
- The arbitration id is a `u16` expression built from the axis and the command; the code
  has no function that takes an id apart again.

## Model

| member | source | states |
|---|---|---|
| Bytes.Combine | src/utils.rs:23-31 | With `dest` exactly as long as `data1` and `data2` together (otherwise `copy_from_slice` panics), the first `data1.len()` bytes become `data1` and the rest `data2`; the same buffer is returned and nothing else is written |
| Bytes.Split | src/utils.rs:55-61 | The first part has `len/2` bytes, the second the remaining `len - len/2`, and together they are the input |
| Bytes.Combine32 | src/utils.rs:34-38 | The 8-byte result is `data1` then `data2`, and `split_32` of it gives back `(data1, data2)` |
| Bytes.Combine16 | src/utils.rs:41-45 | The 4-byte result is `data1` then `data2`, and `split_16` of it gives back the pair |
| Bytes.Combine8 | src/utils.rs:48-52 | The 2-byte result is `data1` then `data2`, and `split_8` of it gives back the pair |
| Bytes.Split32 | src/utils.rs:64-70 | The halves are bytes 0..4 and 4..8 (so the `unwrap`s never panic), and joining them gives the input back |
| Bytes.Split16 | src/utils.rs:72-78 | The halves are bytes 0..2 and 2..4, and joining them gives the input back |
| Bytes.Split8 | src/utils.rs:80-86 | The halves are byte 0 and byte 1, and joining them gives the input back |
| LittleEndian.LeValue | src/casts.rs:63 | The little-endian value of `n` bytes lies below `256^n` |
| LittleEndian.LeValueOfLeBytes | src/casts.rs:63 | Decoding the `width` little-endian bytes of a value below `256^width` gives back the value |
| LittleEndian.LeBytesOfLeValue | src/casts.rs:63 | Re-encoding the value of a byte string gives back the same bytes |
| LittleEndian.LeValueInjective | src/casts.rs:178 | Two byte strings of equal length with the same little-endian value are equal |
| LittleEndian.U32FromLe | src/casts.rs:63 | `u32::from_le_bytes` is the little-endian value of the four bytes, a `u32` |
| LittleEndian.U64FromLe | src/casts.rs:178 | `u64::from_le_bytes` is the little-endian value of the eight bytes, a `u64` |
| LittleEndian.U32ToLe | src/casts.rs:248 | `u32::to_le_bytes` is undone by `u32::from_le_bytes` |
| LittleEndian.I32FromLe | src/casts.rs:110-111 | Below `2^31` the `i32` is the unsigned value; from `2^31` up it is that value minus `2^32` (two's complement) |
| LittleEndian.I32ToLe | src/casts.rs:311-312 | `i32::to_le_bytes` is undone by `i32::from_le_bytes` |
| LittleEndian.I32ToLeOfFromLe | src/casts.rs:110-111 | Re-encoding a decoded `i32` gives back the same four bytes |
| LittleEndian.F32FromLe | src/casts.rs:92-93 | The float read from four bytes has the little-endian value of those bytes as its bit pattern |
| LittleEndian.F32ToLe | src/axis.rs:115 | The four bytes written for a float have its bit pattern as their little-endian value |
| LittleEndian.F32ToFromLe | src/casts.rs:89-94 | Writing out a float read from four bytes gives back those bytes |
| LittleEndian.F32FromToLe | src/axis.rs:115 | A float written as four bytes and read back is the same float, bit for bit |
| Lookup.Exact | src/macros.rs:17-22 | A result `Ok(x)` names a declared variant whose discriminant is `v`; `Err(())` comes exactly when no declared discriminant equals `v`; it never panics |
| Lookup.ExactIff | src/macros.rs:19 | For a table with strictly ascending distinct discriminants, `try_from(v) == Ok(x)` exactly when `x` is declared and `x as T == v` |
| Lookup.ExactRoundTrip | src/macros.rs:14-23 | `try_from(X as T) == Ok(X)` for every declared variant `X` of a table with distinct discriminants |
| Lookup.ExactErrIff | src/macros.rs:20 | When the table lists every variant, `Err` comes exactly when no variant's discriminant is `v` |
| Lookup.ExactGap | src/macros.rs:20 | A value strictly between two neighbouring discriminants of an ascending table is refused |
| Lookup.AscendingStrict | src/macros.rs:19 | In an ascending table every earlier discriminant is below every later one |
| Lookup.AscendingDistinct | src/macros.rs:19 | An ascending table has pairwise distinct discriminants, so the round trip applies to it |
| State.ReadCommTable | src/state.rs:6-16 | `ReadComm` lists every Read command, and its codes ascend strictly in declaration order |
| State.WriteCommTable | src/state.rs:21-41 | `WriteComm` lists every Write command, and its codes ascend strictly |
| State.AxisStateTable | src/state.rs:55-69 | `AxisState` lists every state, and its values ascend strictly |
| State.ControlModeTable | src/state.rs:75-80 | `ControlMode` lists every mode, and its values ascend strictly |
| State.InputModeTable | src/state.rs:85-95 | `InputMode` lists every mode, and its values ascend strictly |
| Errors.AxisErrorTable | src/error.rs:5-25 | `AxisError` lists every error, and its values ascend strictly |
| Errors.MotorErrorTable | src/error.rs:30-58 | `MotorError` lists every error, and its values ascend strictly |
| Errors.EncoderErrorTable | src/error.rs:62-73 | `EncoderError` lists every error, and its values ascend strictly |
| Errors.SensorlessErrorTable | src/error.rs:77-80 | `SensorlessError` lists both errors, and their values ascend strictly |
| State.TryReadComm | src/state.rs:4-17 | `ReadComm::try_from(v)` succeeds only with the command whose code is `v`, and fails exactly when no Read code is `v` |
| State.TryReadCommRoundTrip | src/state.rs:6-16 | Every Read command's code decodes back to it |
| State.TryWriteComm | src/state.rs:19-42 | `WriteComm::try_from(v)` succeeds only with the command whose code is `v`, and fails exactly when no Write code is `v` |
| State.TryWriteCommRoundTrip | src/state.rs:21-41 | Every Write command's code decodes back to it |
| State.ReadWriteDisjoint | src/state.rs:6-41 | No Read code equals a Write code |
| State.CodesFitFiveBits | src/state.rs:6-41 | Every command code is between 1 and 0x1B, below 32, so it fits the five-bit command field |
| State.CodeSpacesReject | src/state.rs:4-42 | `ReadComm::try_from` fails on every Write code and `WriteComm::try_from` on every Read code |
| State.CommandCodeDecodes | src/state.rs:47-50 | A command's code decodes back to it in its own table and is refused by the other table |
| State.CodeInjective | src/state.rs:4-50 | Two commands with the same code are the same command, across both tables |
| State.TryAxisState | src/state.rs:52-70 | `AxisState::try_from(v: u8)` succeeds only with the state whose value is `v`, and fails exactly when no state has value `v` |
| State.TryAxisStateRoundTrip | src/state.rs:55-69 | Every state's value fits a `u8` and decodes back to the state |
| State.AxisStateAccepts | src/state.rs:55-69 | A byte is a state exactly when it is at most 0xD and not 6 |
| State.TryControlMode | src/state.rs:73-81 | `ControlMode::try_from(v: i32)` succeeds only with the mode whose value is `v`, and fails when none is |
| State.TryControlModeRoundTrip | src/state.rs:75-80 | Every control mode's value decodes back to it |
| State.ControlModeAccepts | src/state.rs:75-80 | An `i32` is a control mode exactly when it lies in 0..=3 |
| State.TryInputMode | src/state.rs:83-96 | `InputMode::try_from(v: i32)` succeeds only with the mode whose value is `v`, and fails when none is |
| State.TryInputModeRoundTrip | src/state.rs:85-95 | Every input mode's value decodes back to it |
| State.InputModeAccepts | src/state.rs:85-95 | An `i32` is an input mode exactly when it lies in 0..=8 |
| Errors.TryAxisError | src/error.rs:4-26 | `AxisError::try_from(v: u32)` succeeds only with the error whose value is `v`, and fails when none is |
| Errors.TryAxisErrorRoundTrip | src/error.rs:5-25 | Every axis error's value fits a `u32` and decodes back to it |
| Errors.AxisErrorSingleBit | src/error.rs:5-25 | Every axis error value is a single power of two |
| Errors.AxisErrorDistinct | src/error.rs:5-25 | Distinct axis errors have distinct values |
| Errors.AxisErrorRejectsNonSingleBit | src/error.rs:5-25 | A value that is not a single bit, a combination of errors for instance, is refused |
| Errors.AxisErrorExamples | src/error.rs:6-7 | `try_from(0x2)` is `SystemLevel`; `try_from(0x3)` fails because the lookup is exact; `try_from(0)` fails because no variant means "no error" |
| Errors.AxisErrorUndeclaredBits | src/error.rs:10-21 | The undeclared bits 0x40, 0x80 and 0x20000 are refused |
| Errors.TryMotorError | src/error.rs:29-59 | `MotorError::try_from(v: u64)` succeeds only with the error whose value is `v`, and fails when none is |
| Errors.TryMotorErrorRoundTrip | src/error.rs:30-58 | Every motor error's value fits a `u64` and decodes back to it |
| Errors.MotorErrorSingleBit | src/error.rs:30-58 | Every motor error value is a single power of two |
| Errors.MotorErrorDistinct | src/error.rs:30-58 | Distinct motor errors have distinct values |
| Errors.MotorErrorNeedsU64 | src/error.rs:54-57 | Exactly the last four motor errors lie at or above `2^32` |
| Errors.MotorErrorDecodesHighBits | src/error.rs:57 | 0x800000000 decodes to `UnbalancedPhases` |
| Errors.TryEncoderError | src/error.rs:61-74 | `EncoderError::try_from(v: u32)` succeeds only with the error whose value is `v`, and fails when none is |
| Errors.TryEncoderErrorRoundTrip | src/error.rs:62-73 | Every encoder error's value fits a `u32` and decodes back to it |
| Errors.EncoderErrorSingleBit | src/error.rs:62-73 | Every encoder error value is a single power of two |
| Errors.EncoderErrorDistinct | src/error.rs:62-73 | Distinct encoder errors have distinct values |
| Errors.TrySensorlessError | src/error.rs:76-81 | `SensorlessError::try_from(v: u32)` succeeds only with the error whose value is `v`, and fails when none is |
| Errors.SensorlessErrorSingleBit | src/error.rs:77-80 | Both sensorless error values are single powers of two |
| Errors.SensorlessErrorAccepts | src/error.rs:77-80 | A sensorless error is decoded exactly from 1 and 2 |
| Response.Request | src/response.rs:42-47 | `request()` is the stored request of a `Body` and of a `Bodyless` envelope |
| Response.GetBody | src/response.rs:33-40 | `body()` panics exactly on a `Bodyless` envelope; on a `Body` it gives the request and the response |
| Response.RequestIgnoresResponse | src/response.rs:44 | The request of a `Body` does not depend on the response it carries |
| Casts.ToHeartbeat | src/casts.rs:45-78 | Panics exactly when the command is not `Read(GetHeartbeat)`. Succeeds exactly when bytes 0..4 (little-endian `u32`) are an axis error value and byte 4 a state value, and then holds those two. Any failure is `ConvertedBadData` |
| Casts.ToEncoderEstimates | src/casts.rs:80-96 | Panics exactly on a command other than `Read(GetEncoderEstimates)`; otherwise always succeeds, with position from bytes 0..4 and velocity from bytes 4..8 |
| Casts.ToEncoderCount | src/casts.rs:98-114 | Panics exactly on a command other than `Read(GetEncoderCount)`; otherwise always succeeds, with the shadow count the `i32` of bytes 0..4 and the cpr count that of bytes 4..8 |
| Casts.ToIQ | src/casts.rs:116-132 | Panics exactly on a command other than `Read(GetIQ)`; otherwise succeeds with setpoint from bytes 0..4 and measured from bytes 4..8 |
| Casts.ToTemperature | src/casts.rs:134-149 | Panics exactly on a command other than `Read(GetTemperature)`; otherwise succeeds with inverter from bytes 0..4 and motor from bytes 4..8 |
| Casts.ToBus | src/casts.rs:151-166 | Panics exactly on a command other than `Read(GetVBusVoltage)`; otherwise succeeds with voltage from bytes 0..4 and current from bytes 4..8 |
| Casts.ToMotorError | src/casts.rs:168-184 | Panics exactly on a command other than `Read(MotorError)`. Succeeds exactly when all eight bytes, as a little-endian `u64`, are a motor error value, and yields that error. Otherwise `ConvertedBadData` |
| Casts.ToEncoderError | src/casts.rs:186-204 | Panics exactly on a command other than `Read(EncoderError)`. Succeeds exactly when bytes 0..4, as a `u32`, are an encoder error value. Otherwise `ConvertedBadData` |
| Casts.ToSensorlessError | src/casts.rs:206-223 | Panics exactly on a command other than `Read(SensorlessError)`. Succeeds exactly when bytes 0..4, as a `u32`, are a sensorless error value. Otherwise `ConvertedBadData` |
| Casts.ToUnit | src/casts.rs:225-234 | Panics exactly on a Read command; any Write command gives `Ok(())` |
| Casts.HeartbeatIgnoresTail | src/casts.rs:59-60 | Bytes 5..8 never change the heartbeat result |
| Casts.ErrorDecodersIgnoreUpperHalf | src/casts.rs:195-221 | Bytes 4..8 never change the encoder or sensorless error result |
| Casts.HeartbeatExamplePayload | src/casts.rs:247-250 | `SystemLevel` and `ClosedLoop` written as little-endian `u32`s and joined are `[2,0,0,0,8,0,0,0]` |
| Casts.HeartbeatExample | src/casts.rs:246-262 | That payload on `Read(GetHeartbeat)` decodes to `Heartbeat{SystemLevel, ClosedLoop}` |
| Casts.HeartbeatExampleError | src/casts.rs:63-67 | The axis error field 2 decodes to `SystemLevel` |
| Casts.HeartbeatExampleState | src/casts.rs:70-74 | The state byte 8 decodes to `ClosedLoop` |
| Casts.EncoderCountExample | src/casts.rs:307-325 | 69420 and 69420/8192 as little-endian `i32`s decode to the counts 69420 and 8 |
| Casts.WrongDecoderPanics | src/casts.rs:265-284 | A heartbeat frame given to the encoder-count, encoder-estimate or unit decoder panics |
| Axes.NewAxis | src/axis.rs:27-33 | `Axis::new(id)` builds its motor and its encoder from the same id |
| Axes.Axis.GetHeartbeat | src/axis.rs:35-37 | The request goes to the axis id with `Read(GetHeartbeat)` and eight zero bytes |
| Axes.Axis.SetState | src/axis.rs:40-46 | The request goes to the axis id with `Write(SetAxisRequestedState)`. Byte 0 decodes back to the requested state and bytes 1..8 are zero |
| Axes.Axis.GetTemperatures | src/axis.rs:48-50 | The request goes to the axis id with `Read(GetTemperature)` and eight zero bytes |
| Axes.Encoder.GetError | src/axis.rs:60-62 | The request goes to the encoder's id with `Read(EncoderError)` and eight zero bytes |
| Axes.Encoder.GetCount | src/axis.rs:64-66 | The request goes to the encoder's id with `Read(GetEncoderCount)` and eight zero bytes |
| Axes.Encoder.GetEstimates | src/axis.rs:67-69 | The request goes to the encoder's id with `Read(GetEncoderEstimates)` and eight zero bytes |
| Axes.Motor.GetErrors | src/axis.rs:96-98 | The request goes to the motor's id with `Read(MotorError)` and eight zero bytes |
| Axes.Motor.GetSensorlessError | src/axis.rs:99-101 | The request goes to the motor's id with `Read(SensorlessError)` and eight zero bytes |
| Axes.Motor.SetControlMode | src/axis.rs:106-112 | `Write(SetControllerMode)`. Byte 0 decodes back to the control mode, byte 4 to the input mode, and every other byte is zero |
| Axes.Motor.InputPosRequest | src/axis.rs:114-117 | The `set_input_pos` frame goes to the motor's id with `Write(SetInputPosition)`. Bytes 0..4 read back as the given float and bytes 4..8 are zero |
| Axes.Motor.InputVelRequest | src/axis.rs:118-121 | The `set_input_vel` frame goes to the motor's id with `Write(SetInputVelocity)`. Bytes 0..4 read back as the given float and bytes 4..8 are zero |
| Axes.Motor.SetInputPos | src/axis.rs:114-117 | Building the frame through `combine_32` gives exactly `InputPosRequest(rot)` |
| Axes.Motor.SetInputVel | src/axis.rs:118-121 | Building the frame through `combine_32` gives exactly `InputVelRequest(speed)` |
| Axes.BuildersAddressTheAxis | src/axis.rs:27-121 | Every frame built from `Axis::new(id)`, by the axis, its motor or its encoder, is addressed to `id` |
| Axes.RepliesDecode | src/axis.rs:35-101 | A reply carrying a Read builder's command is accepted by the decoder for that value, whatever the payload |
| Axes.WriteRequestsDecodeToUnit | src/axis.rs:40-46 | The frames of `set_state` and `set_control_mode` decode to `Ok(())` |
| Group.Insert | rustodrive/src/odrivegroup.rs:70 | Inserting a key into an ascending map keeps it ascending, and every entry is an old entry or the new axis |
| Group.InsertIds | rustodrive/src/odrivegroup.rs:70 | After the insertion the keys are the old keys plus `id`; a duplicate adds nothing |
| Group.New | rustodrive/src/odrivegroup.rs:68-73 | `new` keeps the axes strictly ascending by id, each entry `Axis::new` of its id |
| Group.NewIds | rustodrive/src/odrivegroup.rs:68-73 | The managed ids are exactly the given ids; duplicates collapse |
| Group.NewAscending | rustodrive/src/odrivegroup.rs:68-73 | Strictly ascending ids are kept as given, in the same order |
| Group.Requests | rustodrive/src/odrivegroup.rs:111 | One request per managed axis, the i-th built from the i-th axis in id order |
| Group.RequestsAscending | rustodrive/src/odrivegroup.rs:111 | When the builder addresses each managed axis it is given, the requests go to exactly the managed ids, strictly ascending |
| Group.MotorRequestsAscending | rustodrive/src/odrivegroup.rs:111 | On a group built by `new`, `all_axes` with the builder `ax.motor.get_errors()` sends one request per managed id, strictly ascending |
| Group.CalibrationRequestsExample | rustodrive/src/odrivegroup.rs:254-285 | For axes 0..=5 and full calibration, request i is `{i, Write(SetAxisRequestedState), [3,0,0,0,0,0,0,0]}` |
| Group.FrameToConvert | rustodrive/src/odrivegroup.rs:173-179 | A `Body` is decoded from the response that `body()` gives; a `Bodyless` envelope is decoded from its own request |
| Group.ConvertResponse | rustodrive/src/odrivegroup.rs:161-194 | A transport error passes through unchanged. A `Body` decodes the reply and a `Bodyless` decodes the request, and a panic in that decode propagates. Success gives `Success{frame axis, original request, data}`; a failure gives `ErrorResponse{original request, err}` |
| Group.ConvertKeepsRequest | rustodrive/src/odrivegroup.rs:184-191 | Whatever the outcome, the converted envelope carries the request that was sent |
| Group.BodylessWriteSucceeds | rustodrive/src/odrivegroup.rs:178-188 | A Write acknowledged bodyless converts to `Success{its axis, itself, ()}`; a Read answered bodyless panics |
| Group.HeartbeatFailureIsBadData | rustodrive/src/odrivegroup.rs:189-192 | With the heartbeat decoder, a decode failure is `ErrorResponse{request, ConvertedBadData}` |
| Group.AllAxes | rustodrive/src/odrivegroup.rs:104-121 | The call panics exactly when converting some result panics. Otherwise the output has one entry per transport result, and entry i is the conversion of result i. With a transport that answers one result per request, there is one entry per managed axis. If that transport also answers in order, entry i (`Success` or `ErrorResponse`) carries the request built for the i-th axis in id order |
| Group.CalibrationAllAxes | rustodrive/src/odrivegroup.rs:254-285 | For axes 0..=5 sent full calibration over an in-order transport, the result has six entries, and entry i carries `{i, Write(SetAxisRequestedState), [3,0,0,0,0,0,0,0]}` as its sent request |
| Group.GetAxis | rustodrive/src/odrivegroup.rs:196-201 | Returns exactly for a managed id, giving the axis with that id (`Axis::new(id)`); an unknown id panics |
| Group.Find | rustodrive/src/odrivegroup.rs:197-199 | `BTreeMap::get` finds an entry exactly when the key is managed, and the entry has that key; the `None` arm panics |
| Group.AxisCall | rustodrive/src/odrivegroup.rs:152-159 | An unknown id panics before anything is sent. A managed id sends the request built from `Axis::new(id)` and converts its result |
| Group.TemperatureCallExample | rustodrive/src/odrivegroup.rs:227-252 | Asking axis 1 of 0..=5 for its temperatures sends `{1, Read(GetTemperature), zeros}`, and that request comes back attached to the reply from axis 1 |
| Group.InputVelCallAcknowledged | rustodrive/src/odrivegroup.rs:152-159 | `axis(&id, …)` with the builder `ax.motor.set_input_vel(v)` for a managed id, when the transport acknowledges the Write, is `Success{id, the velocity frame, ()}` |
| Group.FirstAxisId | rustodrive/src/odrivegroup.rs:203-205 | Panics exactly on an empty group; otherwise gives the smallest managed id |
| Group.Reboot | rustodrive/src/odrivegroup.rs:207-209 | As written: panics exactly on an empty group, otherwise returns `()` |
| Group.RebootNeverSends | rustodrive/src/odrivegroup.rs:207-209 | As written, `reboot` returns the same whether the transport acknowledges or fails, so the reboot ticket never reaches the bus |
| Group.RebootRequest | rustodrive/src/odrivegroup.rs:208 | The reboot ticket is `Write(RebootODrive)` with eight zero bytes, addressed to the smallest managed id |
| Group.RebootSent | rustodrive/src/odrivegroup.rs:207-209 | As corrected: the reboot ticket is sent and its result converted like any Write |
| Group.RebootSentReports | rustodrive/src/odrivegroup.rs:207-209 | The corrected reboot reports an acknowledgement as `Success` for the reboot ticket, and a send failure as an `ErrorResponse` for it |
| CanManager.ODriveMessage.CanId | rust-client/rustodrive/src/can_manager.rs:91-93 | For a command below 32 the id is `(axis mod 2^11) * 32 + command`: the `as u16` cast and the shift lose the axis bits above bit 10, and the fields do not overlap |
| CanManager.CommandInLowBits | rust-client/rustodrive/src/can_manager.rs:92 | For a command below 32, the low five bits of the id are the command |
| CanManager.AxisInHighBits | rust-client/rustodrive/src/can_manager.rs:92 | For an axis below 2048 and a command below 32, `id >> 5` is the axis |
| CanManager.CanIdInjective | rust-client/rustodrive/src/can_manager.rs:92 | Axes below 2048 and commands below 32 give distinct ids for distinct pairs |
| CanManager.CanIdTruncates | rust-client/rustodrive/src/can_manager.rs:92 | Axis bits above bit 10 are lost: axis `a`, `a mod 2048` and `a + 2048` get the same id |
| CanManager.BitOrBound | rust-client/rustodrive/src/can_manager.rs:92 | The bitwise or of two values below `2^k` is below `2^k`, so the id is a `u16` |
| CanManager.BitOrDisjoint | rust-client/rustodrive/src/can_manager.rs:92 | Or-ing a value below `2^k` into a multiple of `2^k` is adding it |
| CanManager.MessageFor | rust-client/rustodrive/src/can_manager.rs:84-88 | A message carrying a registry command has that command's code, which is below 32 |
| CanManager.RegistryIdsDistinct | rust-client/rustodrive/src/can_manager.rs:91-93 | With registry codes as commands, two messages to axes below 2048 share an id only if axis and command agree |

## Left out

- All of `gui/`: windowing, the event loop and rendering.
- The CAN manager's plumbing. These parts are not modelled:
  - `send_to_manager` and `receive_from_manager`, which are mpsc channels that panic on a lost peer;
  - `CANManager::new`, which opens a socket;
  - the `waiting` list, which no method changes;
  - the `send_to_CAN`, `receive_from_CAN`, `match_messages` and `get_axis_channel` stubs, which have empty bodies.
- `ReadWriteCANThread::request`/`request_many` and `CANProxy` are concurrent, and their code
  is not part of this model. Each is a function parameter, taken as given.
  - `OnePerRequest` names a transport that returns one result per request, and `InOrder` one that returns result i for request i. `Group.AllAxes` promises one entry per axis only under the first, and that entry i carries request i only under both.
  - Timeouts, in-flight matching and the order of completion on the bus are not modelled.
- The `canframe` and `constants` modules are not part of this model.
  - `ticket` is taken to build `{axis, cmd, data}`.
  - The CAN manager's `ODriveCommand` is kept as its `u16` discriminant. `MessageFor` takes
    the registry codes as those discriminants.
- Float semantics. An `f32` is its bit pattern, and no IEEE arithmetic is modelled. A float
  round trip therefore reduces to byte identity.
- `cfg_match!`, which is compile-time configuration selection.
- The unimplemented builders (`set_linear_count`, `set_node_id`, `set_input_torque`, the
  trajectory setters and others) are left out because their bodies are `unimplemented!()`.
- `AxisID = usize` is unbounded here. Overflow of the id has no effect anywhere except
  `can_id`, where the `as u16` truncation and the `u16` shift are modelled explicitly.
- `Group.AllAxes`, `Group.Requests`, `Group.AxisCall`: the builder closure `f` is a pure
  function. A `FnMut` that keeps state between calls is not modelled.
- `Axes.Motor.SetInputPos`, `Axes.Motor.SetInputVel`: these are methods because they call
  `combine_32`, which is modelled imperatively on an array. A method cannot be used inside an
  expression. The group calls therefore take the functions `InputPosRequest` and
  `InputVelRequest`, which the methods are proved to equal.
- Bytes.Combine: the `copy_from_slice` panic on a length mismatch is a precondition, not a
  `Panics` outcome. Every caller in the crate (`combine_32`, `combine_16`, `combine_8`)
  passes a buffer of exactly `|data1| + |data2|` bytes, so the panic cannot occur there.
- The doc-comment examples that use `CANProxy` and `thread::sleep`.

## Findings

| source | as written | input that shows it | evidently intended | confidence | as-written member | corrected member |
|---|---|---|---|---|---|---|
| rustodrive/src/odrivegroup.rs:207-209 | `reboot` builds the `Write(RebootODrive)` ticket for the first axis and discards it (the statement ends in `;`), so nothing is sent and no result comes back | any non-empty group, for example `ODriveGroup::new(can, &[0])`: the result is `()` whatever the transport would answer | send the ticket through the transport and report its result | medium, not executed | Group.Reboot, Group.RebootNeverSends | Group.RebootSent, Group.RebootSentReports |
