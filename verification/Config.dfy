/** The compile-time constants of the repository, with the configuration as shipped. */
module Config {
  const NULL_INDEX: int := -1
  const NULL_ADDR: nat := 0
  const NULL_SEQ: nat := 0
  const NULL_TIMESTAMP: nat := 0

  const RANGING_LIST_SIZE: nat := 10
  const RANGING_BUFFER_SIZE: nat := 6
  const LOCAL_SEND_BUFFER_SIZE: nat := RANGING_LIST_SIZE
  const MAX_INITIAL_CALCULATION: nat := 6

  const MESSAGE_BODY_RX_SIZE: nat := 3
  const MESSAGE_HEAD_TX_SIZE: nat := 3
  const MESSAGE_BODY_UNIT_SIZE: nat := 3
  const TABLE_SET_NEIGHBOR_NUM: nat := 10

  const QUEUE_TASK_LENGTH: nat := 3
  const MAX_NODES: nat := 10

  const VELOCITY: real := 0.4691763978616
  const MAX_DISTANCE: real := 1000.0
  const COMPENSATE_RATE: real := 0.618

  // A dwTime_t is a uint64; intervals are taken modulo the 40-bit range of the radio clock.
  const UINT64_RANGE: int := 0x1_0000_0000_0000_0000
  const UWB_MAX_TIMESTAMP: int := 1099511627776

  /** Whether a record is read from the sender's or from the receiver's side. */
  datatype Status = Sender | Receiver

  datatype Option<+T> = None | Some(value: T)
}
