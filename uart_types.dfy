/**
 * Constants and value types shared by the receiver, the transmitter and the
 * host driver: the error-flag bits, the parity selections, the register widths
 * and the configuration part of the UART channel frame.
 */
module UartTypes {

  /** Error flag bits of a received word. */
  const FRAMING_ERROR: nat := 0x01
  const PARITY_ERROR: nat := 0x02

  /** Host parity selections; anything from NONE upwards disables parity. */
  const PARITY_EVEN: nat := 0
  const PARITY_ODD: nat := 1
  const PARITY_NONE: nat := 2

  /** Host service request codes of the two entry tables. */
  const RX_UPDATE_RTS_HSR: nat := 1
  const INIT_TCR1_HSR: nat := 2
  const INIT_TCR2_HSR: nat := 4
  const SHUTDOWN_HSR: nat := 7

  /** A channel number of the host instance that stands for "not used". */
  const NO_CHANNEL: nat := 0xff

  /** Moduli of the 24-bit registers and of the 8-bit parity counters. */
  const REG24: nat := 0x100_0000
  const UINT8: nat := 0x100

  type Word32 = x: nat | x < 0x1_0000_0000
  /** The unsigned 8-bit and 24-bit registers of the channel frame. */
  type Uint8 = x: nat | x < 0x100
  type Uint24 = x: nat | x < 0x100_0000

  datatype Option<T> = None | Some(value: T)

  /** One RX FIFO entry: the error flags and the received data bits. */
  datatype RxWord = RxWord(errorFlags: nat, data: nat)

  /** What a channel's output pin does at its next match. */
  datatype PinAction = NoChange | MatchLow | MatchHigh

  /** The level a pin has after its match fires. */
  function ApplyAction(a: PinAction, current: bool): bool
  {
    match a
    case NoChange => current
    case MatchLow => false
    case MatchHigh => true
  }

  /** The timer that times a direction (selected by the init request). */
  datatype Timebase = Tcr1 | Tcr2

  /** The uint8 channel number of the host instance as the int8 field of the frame. */
  function Int8(x: nat): int
    requires x < 256
  {
    if x < 128 then x else x - 256
  }

  /**
   * The configuration written into the channel frame at init. FIFO sizes are
   * in words; the interrupt and RTS thresholds are the frame's int24 byte
   * thresholds, which the threads compare with the byte occupancy (four bytes
   * per word); times are the frame's int24 tick counts of the selected timer.
   */
  datatype Config = Config(
    timebase: Timebase,
    bitCount: int,
    bitTime: int,
    stopTime: int,
    paritySelect: nat,
    parityEnabled: bool,
    rxSize: nat,
    txSize: nat,
    rxIntThreshold: int,
    txIntThreshold: int,
    rtsHalt: int,
    rtsResume: int,
    ctsChan: int,
    rtsChan: int,
    txeChan: int,
    txePostDelay: int,
    rxPresent: bool,
    txPresent: bool)
  {
    predicate CtsEnabled() { ctsChan >= 0 }
    predicate RtsEnabled() { rtsChan >= 0 }
    predicate TxeEnabled() { txeChan >= 0 }

    /** What the threads take for granted: 1 to 23 data bits, an 8-bit
        parity selection, and FIFOs of at least one word whose byte size
        fits the frame's int24 size field. */
    predicate Valid()
    {
      1 <= bitCount <= 23 && paritySelect < UINT8
      && 1 <= rxSize && 4 * rxSize < 0x80_0000
      && 1 <= txSize && 4 * txSize < 0x80_0000
    }
  }

  function Min(a: int, b: int): int { if a < b then a else b }
  function Max(a: int, b: int): int { if a < b then b else a }
}
