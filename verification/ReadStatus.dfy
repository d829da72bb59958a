/** How the outcome of a ReadProperty transaction is graded. */
module ReadStatus {
  import opened BacnetTypes
  import opened ApplicationValue

  /** What polling the client yields; `NoReply` while nothing has arrived. */
  datatype PollStatus = NoReply | AckReply | ErrorReply | RejectReply | AbortReply | Undecodable

  datatype PropertyReadStatus =
    | Ack | UnsupportedProperty | Timeout | Error | Reject | Abort | DecodeError | EmptyValue
    | UnsupportedDatatype | ArrayIndexNotSupported | SendFailed | Busy | Skipped

  datatype DeviceReadStatus = DeviceAck | DeviceError | DeviceTimeout | DeviceSendFailed | DeviceSkipped | DeviceBusy

  const CLASS_PROPERTY: uint32 := 2
  const CODE_UNKNOWN_PROPERTY: uint32 := 32
  const CODE_INVALID_ARRAY_INDEX: uint32 := 42

  function Classify(poll: PollStatus, value: WireValue, errorClass: uint32, errorCode: uint32, arrayIndex: uint32)
    : PropertyReadStatus
  {
    match poll
    case AckReply =>
      if value.Unsupported? then UnsupportedDatatype
      else if value.Empty? || value.Null? then EmptyValue
      else Ack
    case ErrorReply =>
      if errorClass == CLASS_PROPERTY && errorCode == CODE_UNKNOWN_PROPERTY then UnsupportedProperty
      else if arrayIndex != NO_ARRAY_INDEX && errorClass == CLASS_PROPERTY && errorCode == CODE_INVALID_ARRAY_INDEX
      then ArrayIndexNotSupported
      else Error
    case RejectReply => Reject
    case AbortReply => Abort
    case Undecodable => DecodeError
    case NoReply => Timeout
  }

  function DeviceStatus(status: PropertyReadStatus): (d: DeviceReadStatus)
    ensures d != DeviceSkipped
    ensures d.DeviceAck? <==> status in {Ack, EmptyValue, UnsupportedDatatype}
  {
    match status
    case Ack | EmptyValue | UnsupportedDatatype => DeviceAck
    case Timeout => DeviceTimeout
    case SendFailed => DeviceSendFailed
    case Busy => DeviceBusy
    case _ => DeviceError
  }

  /**
   A reply is graded as acknowledged by the device exactly when it is an acknowledgement, and as a
   value exactly when that acknowledgement holds one; an error never turns into a value.
   */
  lemma GradesIff(poll: PollStatus, value: WireValue, errorClass: uint32, errorCode: uint32, arrayIndex: uint32)
    ensures var status := Classify(poll, value, errorClass, errorCode, arrayIndex);
            (DeviceStatus(status).DeviceAck? <==> poll.AckReply?) &&
            (status.Ack? <==> poll.AckReply? && !value.Empty? && !value.Null? && !value.Unsupported?) &&
            !status.Skipped? && !status.Busy? && !status.SendFailed?
  {}

  /** Every other grade has exactly one cause. */
  lemma CausesIff(poll: PollStatus, value: WireValue, errorClass: uint32, errorCode: uint32, arrayIndex: uint32)
    ensures var status := Classify(poll, value, errorClass, errorCode, arrayIndex);
            (status.EmptyValue? <==> poll.AckReply? && (value.Empty? || value.Null?)) &&
            (status.UnsupportedDatatype? <==> poll.AckReply? && value.Unsupported?) &&
            (status.UnsupportedProperty? <==> poll.ErrorReply? && (errorClass, errorCode) == (2, 32)) &&
            (status.ArrayIndexNotSupported? <==>
               poll.ErrorReply? && (errorClass, errorCode) == (2, 42) && arrayIndex != NO_ARRAY_INDEX) &&
            (status.Error? ==> poll.ErrorReply?) && (status.Reject? <==> poll.RejectReply?) &&
            (status.Abort? <==> poll.AbortReply?) && (status.DecodeError? <==> poll.Undecodable?) &&
            (status.Timeout? <==> poll.NoReply?)
  {}
}
