/**
 * The arithmetic and validation part of the host's UART init: which channels
 * are present, the bit, stop and TX-enable times in timer ticks, the parity
 * mode, and the byte-sized FIFO fields written into the channel frame.
 * The timer frequency is a parameter (the host reads it from the engine's
 * configuration); register programming and memory allocation are not modelled.
 */
module HostInit {
  import opened Bits
  import opened UartTypes
  import RxEngine

  const UINT32: nat := 0x1_0000_0000

  /** The channels of one UART instance (uint8 each; NO_CHANNEL when unused). */
  datatype Instance = Instance(rxChan: nat, txChan: nat, ctsChan: nat, rtsChan: nat, txeChan: nat)
  {
    predicate Bounded()
    {
      rxChan < 256 && txChan < 256 && ctsChan < 256 && rtsChan < 256 && txeChan < 256
    }
  }

  /** The host configuration of one UART (uint8 and uint32 fields). */
  datatype HostConfig = HostConfig(
    timer: Timebase,
    bitCount: nat,
    paritySelect: nat,
    baudRateHz: nat,
    stopTimeHalfBitCount: nat,
    rxFifoWordSize: nat,
    txFifoWordSize: nat,
    rxFifoInterruptThreshold: nat,
    txFifoInterruptThreshold: nat,
    rtsHaltThreshold: nat,
    rtsResumeThreshold: nat,
    txEnableHalfBitCount: nat)
  {
    predicate Bounded()
    {
      bitCount < 256 && paritySelect < 256 && baudRateHz < UINT32
      && stopTimeHalfBitCount < UINT32 && rxFifoWordSize < UINT32 && txFifoWordSize < UINT32
      && rxFifoInterruptThreshold < UINT32 && txFifoInterruptThreshold < UINT32
      && rtsHaltThreshold < UINT32 && rtsResumeThreshold < UINT32 && txEnableHalfBitCount < UINT32
    }
  }

  datatype InitError = NoDataChannel

  datatype Result<T, E> = Ok(value: T) | Err(error: E)

  /** A uint32 value stored into a 24-bit frame field keeps its low 24 bits. */
  function Low24(x: nat): (r: nat)
    ensures r < REG24
  {
    x % REG24
  }

  /** The low 24 bits read as the frame's signed int24. */
  function Int24(x: nat): (r: int)
    ensures -0x80_0000 <= r < 0x80_0000
  {
    var v := Low24(x);
    if v < 0x80_0000 then v else v - REG24
  }

  /** `bit_time * half_bit_count / 2` in uint32 arithmetic: half the
      product rounded down when the product fits 32 bits. */
  function HalfBits(bitTime: nat, halfBits: nat): (h: nat)
    ensures h < 0x8000_0000
    ensures bitTime * halfBits < UINT32 ==> 2 * h <= bitTime * halfBits < 2 * h + 2
  {
    ((bitTime * halfBits) % UINT32) / 2
  }

  /** The bit time in ticks, as the host computes it in uint32: the whole
      number of timer ticks in one bit period (InitTiming). */
  function BitTicks(timerFreq: nat, baud: nat): nat
    requires baud > 0
  {
    timerFreq / baud
  }

  /** A uint32 word count times four (uint32 arithmetic), stored into an
      int24 byte field of the frame. */
  function Bytes(words: nat): (r: int)
    ensures 4 * words < 0x80_0000 ==> r == 4 * words
  {
    Int24((4 * words) % UINT32)
  }

  /**
   * The configuration the init writes into the channel frame, or an error
   * when neither an RX nor a TX channel is given. The time fields are int24:
   * they keep the low 24 bits of the uint32 results, read back signed. The
   * thresholds are stored in bytes (four times the word counts) in int24
   * fields. Feature channels are stored as int8, so NO_CHANNEL reads back as
   * -1 (disabled). Parity is enabled for the selections below PARITY_NONE.
   */
  function Init(inst: Instance, hc: HostConfig, timerFreq: nat): (r: Result<Config, InitError>)
    requires inst.Bounded() && hc.Bounded() && timerFreq < UINT32
    requires hc.baudRateHz > 0
    ensures r.Err? <==> inst.rxChan == NO_CHANNEL && inst.txChan == NO_CHANNEL
    ensures r.Ok? ==>
              (r.value.rxPresent <==> inst.rxChan != NO_CHANNEL)
              && (r.value.txPresent <==> inst.txChan != NO_CHANNEL)
              && (r.value.parityEnabled <==> hc.paritySelect == PARITY_EVEN || hc.paritySelect == PARITY_ODD)
              && r.value.paritySelect == hc.paritySelect
  {
    if inst.rxChan == NO_CHANNEL && inst.txChan == NO_CHANNEL then Err(NoDataChannel)
    else
      var bitTime := BitTicks(timerFreq, hc.baudRateHz);
      Ok(Config(
        timebase := hc.timer,
        bitCount := Int8(hc.bitCount),
        bitTime := Int24(bitTime),
        stopTime := Int24(HalfBits(bitTime, hc.stopTimeHalfBitCount)),
        paritySelect := hc.paritySelect,
        parityEnabled := hc.paritySelect < PARITY_NONE,
        rxSize := hc.rxFifoWordSize,
        txSize := hc.txFifoWordSize,
        rxIntThreshold := Bytes(hc.rxFifoInterruptThreshold),
        txIntThreshold := Bytes(hc.txFifoInterruptThreshold),
        rtsHalt := Bytes(hc.rtsHaltThreshold),
        rtsResume := Bytes(hc.rtsResumeThreshold),
        ctsChan := Int8(inst.ctsChan),
        rtsChan := Int8(inst.rtsChan),
        txeChan := Int8(inst.txeChan),
        txePostDelay := Int24(HalfBits(bitTime, hc.txEnableHalfBitCount)),
        rxPresent := inst.rxChan != NO_CHANNEL,
        txPresent := inst.txChan != NO_CHANNEL))
  }

  /** A feature channel (CTS, RTS, TXE) is enabled in the frame exactly when
      the instance gives one, for every channel number an engine has (0-95)
      and for NO_CHANNEL. */
  lemma FeatureChannels(inst: Instance, hc: HostConfig, timerFreq: nat)
    requires inst.Bounded() && hc.Bounded() && timerFreq < UINT32 && hc.baudRateHz > 0
    requires inst.ctsChan < 96 || inst.ctsChan == NO_CHANNEL
    requires inst.rtsChan < 96 || inst.rtsChan == NO_CHANNEL
    requires inst.txeChan < 96 || inst.txeChan == NO_CHANNEL
    requires inst.rxChan != NO_CHANNEL || inst.txChan != NO_CHANNEL
    ensures var c := Init(inst, hc, timerFreq).value;
            (c.CtsEnabled() <==> inst.ctsChan != NO_CHANNEL)
            && (c.RtsEnabled() <==> inst.rtsChan != NO_CHANNEL)
            && (c.TxeEnabled() <==> inst.txeChan != NO_CHANNEL)
            && (c.CtsEnabled() ==> c.ctsChan == inst.ctsChan)
  {
  }

  /** Without truncation (results below 2^23 and no uint32 overflow), the bit
      time is the timer frequency over the baud rate rounded down, and the stop
      time and TX-enable delay are the given number of half bit times rounded
      down. */
  lemma InitTiming(inst: Instance, hc: HostConfig, timerFreq: nat)
    requires inst.Bounded() && hc.Bounded() && timerFreq < UINT32 && hc.baudRateHz > 0
    requires inst.rxChan != NO_CHANNEL || inst.txChan != NO_CHANNEL
    requires timerFreq / hc.baudRateHz < 0x80_0000
    requires (timerFreq / hc.baudRateHz) * hc.stopTimeHalfBitCount < 0x100_0000
    requires (timerFreq / hc.baudRateHz) * hc.txEnableHalfBitCount < 0x100_0000
    ensures var c := Init(inst, hc, timerFreq).value;
            c.bitTime * hc.baudRateHz <= timerFreq < (c.bitTime + 1) * hc.baudRateHz
            && 2 * c.stopTime <= c.bitTime * hc.stopTimeHalfBitCount < 2 * c.stopTime + 2
            && 2 * c.txePostDelay <= c.bitTime * hc.txEnableHalfBitCount < 2 * c.txePostDelay + 2
  {
    var b := BitTicks(timerFreq, hc.baudRateHz);
    var c := Init(inst, hc, timerFreq).value;
    assert c.bitTime == b;
    assert c.stopTime == Int24(HalfBits(b, hc.stopTimeHalfBitCount));
    assert c.txePostDelay == Int24(HalfBits(b, hc.txEnableHalfBitCount));
    DivFloor(timerFreq, hc.baudRateHz);
    HalfBitsExact(b, hc.stopTimeHalfBitCount);
    HalfBitsExact(b, hc.txEnableHalfBitCount);
  }

  /** Without overflow, half of bitTime * halfBits is stored exactly, rounded down. */
  lemma HalfBitsExact(bitTime: nat, halfBits: nat)
    requires bitTime * halfBits < REG24
    ensures var h := Int24(HalfBits(bitTime, halfBits));
            2 * h <= bitTime * halfBits < 2 * h + 2
  {
    var p := bitTime * halfBits;
    assert p % UINT32 == p;
    assert HalfBits(bitTime, halfBits) == p / 2;
  }

  /** a / d rounds down. */
  lemma DivFloor(a: nat, d: nat)
    requires d > 0
    ensures (a / d) * d <= a < (a / d + 1) * d
  {
    var q := a / d;
    DivModUnique(a, d, q, a % d);
    assert a == d * q + a % d;
    assert (q + 1) * d == q * d + d;
  }

  /** With the usual parameters (1-23 data bits, FIFOs of at least one word
      whose byte size fits int24, an 8-bit parity selection) init yields a configuration the threads can run on. */
  lemma InitValid(inst: Instance, hc: HostConfig, timerFreq: nat)
    requires inst.Bounded() && hc.Bounded() && timerFreq < UINT32 && hc.baudRateHz > 0
    requires inst.rxChan != NO_CHANNEL || inst.txChan != NO_CHANNEL
    requires 1 <= hc.bitCount <= 23 && hc.rxFifoWordSize >= 1 && hc.txFifoWordSize >= 1
    requires 4 * hc.rxFifoWordSize < 0x80_0000 && 4 * hc.txFifoWordSize < 0x80_0000
    ensures Init(inst, hc, timerFreq).value.Valid()
    ensures Init(inst, hc, timerFreq).value.bitCount == hc.bitCount
  {
  }

  /** The frame's thresholds are four times the configured word counts
      whenever that is below 2^23, so comparing them with the byte occupancy
      is comparing the word thresholds with the word occupancy. */
  lemma InitThresholds(inst: Instance, hc: HostConfig, timerFreq: nat)
    requires inst.Bounded() && hc.Bounded() && timerFreq < UINT32 && hc.baudRateHz > 0
    requires inst.rxChan != NO_CHANNEL || inst.txChan != NO_CHANNEL
    ensures var c := Init(inst, hc, timerFreq).value;
            (4 * hc.rxFifoInterruptThreshold < 0x80_0000 ==> c.rxIntThreshold == 4 * hc.rxFifoInterruptThreshold)
            && (4 * hc.txFifoInterruptThreshold < 0x80_0000 ==> c.txIntThreshold == 4 * hc.txFifoInterruptThreshold)
            && (4 * hc.rtsHaltThreshold < 0x80_0000 ==> c.rtsHalt == 4 * hc.rtsHaltThreshold)
            && (4 * hc.rtsResumeThreshold < 0x80_0000 ==> c.rtsResume == 4 * hc.rtsResumeThreshold)
  {
  }

  /** A word threshold whose byte value does not fit int24 wraps: with an RX
      channel, a halt threshold of 0xFFFF_FFFF words is stored as -4 bytes, so any occupancy
      reaches it and RTS is raised on every push, whatever the resume level. */
  lemma HugeHaltThresholdWraps(inst: Instance, hc: HostConfig, timerFreq: nat, current: bool, usedBytes: nat, resume: int)
    requires inst.Bounded() && hc.Bounded() && timerFreq < UINT32 && hc.baudRateHz > 0
    requires inst.rxChan != NO_CHANNEL && hc.rtsHaltThreshold == 0xFFFF_FFFF
    ensures Init(inst, hc, timerFreq).value.rtsHalt == -4
    ensures RxEngine.RtsNext(current, usedBytes, Init(inst, hc, timerFreq).value.rtsHalt, resume)
  {
    var r := Init(inst, hc, timerFreq);
    assert r.Ok?;
    assert r.value.rtsHalt == Bytes(hc.rtsHaltThreshold);
    MaxWordBytes();
  }

  /** 0xFFFF_FFFF words are 0x3_FFFF_FFFC bytes; uint32 keeps 0xFFFF_FFFC,
      whose low 24 bits read as int24 are -4. */
  lemma MaxWordBytes()
    ensures Bytes(0xFFFF_FFFF) == -4
  {
    assert (4 * 0xFFFF_FFFF) % UINT32 == 0xFFFF_FFFC;
    assert Low24(0xFFFF_FFFC) == 0xFF_FFFC;
  }
}
