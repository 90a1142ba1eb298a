/** The message values the driver exchanges with the radio, and the protocol
    constants it names. The constants are defined outside the modelled file, so
    they are left uninterpreted here: every property below holds whatever their
    values are. */
module Messages {
  import opened Bytes

  datatype Option<+T> = None | Some(value: T)

  /** A protocol message as `NewMessage(id, payload)` builds it: a one-byte
      message id and the payload bytes. */
  datatype Message = Message(id: uint8, payload: seq<uint8>)

  /** The byte that starts every frame on the wire. */
  const MESG_TX_SYNC: uint8

  const MESG_UNASSIGN_CHANNEL_ID: uint8
  const MESG_ASSIGN_CHANNEL_ID: uint8
  const MESG_CHANNEL_ID_ID: uint8
  const MESG_CHANNEL_MESG_PERIOD_ID: uint8
  const MESG_CHANNEL_SEARCH_TIMEOUT_ID: uint8
  const MESG_CHANNEL_RADIO_FREQ_ID: uint8
  const MESG_NETWORK_KEY_ID: uint8
  const MESG_CHANNEL_RADIO_TX_POWER_ID: uint8
  const MESG_RADIO_TX_POWER_ID: uint8
  const MESG_SYSTEM_RESET_ID: uint8
  const MESG_OPEN_CHANNEL_ID: uint8
  const MESG_CLOSE_CHANNEL_ID: uint8
  const MESG_REQUEST_SIZE: uint8
  const MESG_BROADCAST_DATA_ID: uint8
  const MESG_ACKNOWLEDGED_DATA_ID: uint8
  const MESG_BURST_DATA_ID: uint8
  const MESG_ID_LIST_ADD_ID: uint8
  const MESG_OPEN_RX_SCAN_ID: uint8

  /** The bits of a transmit-power argument the radio keeps. */
  const RADIO_TX_POWER_LVL_MASK: uint8
}
