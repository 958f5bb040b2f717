/** The CAN frame that requests and responses share. The `canframe` module of
    the repository is not part of this model; `ticket(axis, cmd, data)` is
    taken to build the record `{axis, cmd, data}`. */
module Frame {
  import opened Bytes
  import opened State

  /** `AxisID = usize`, unbounded here. */
  type AxisID = nat

  /** `ODriveCANFrame`: one bus transaction, addressed by axis and command. */
  datatype CANFrame = CANFrame(axis: AxisID, cmd: ODriveCommand, data: Bytes8)

  type CANRequest = CANFrame
  type CANResponse = CANFrame

  /** `ticket(axis, cmd, data)` */
  function Ticket(axis: AxisID, cmd: ODriveCommand, data: Bytes8): (r: CANRequest)
  {
    CANFrame(axis, cmd, data)
  }
}
