/**
 * The UART channel frame shared by the RX and TX channels, with the eTPU
 * threads as methods that update it in place. The ring FIFOs are arrays
 * indexed by word (slot 0 is the buffer start); the channel hardware the
 * threads program (pins, match times, edge detection, interrupts and host
 * service requests) is kept as abstract fields.
 */
module Channel {
  import opened Bits
  import opened UartTypes
  import opened Ring
  import RxEngine
  import TxEngine

  class ChannelFrame {
    /** The configuration part written by the host at init. */
    const cfg: Config
    /** The RX FIFO of (flags, data) entries and the TX FIFO of 32-bit words. */
    const rxBuf: array<RxWord>
    const txBuf: array<Word32>

    /** _overrun_error and the four FIFO pointers, as word indices. */
    var overrunError: nat
    var rxPop: nat
    var rxPush: nat
    var txPop: nat
    var txPush: nat

    /** Receiver registers. */
    var rxShift: nat
    var rxOneBit: nat
    var rxParity: Uint8
    var rxCount: int
    var rxDataMask: nat

    /** Transmitter registers. */
    var txShift: Uint24
    var txCount: int
    var txParity: Uint8
    var txEnableActive: bool

    /** RX channel: timer, falling-edge detection, the pending sample match,
        match service enabled, interrupt issued by the last thread, the RTS
        pin, and the pending host service request (0 when none). */
    var rxTimer: Timebase
    var rxEdgeArmed: bool
    var rxMatch: Option<int>
    var rxEnabled: bool
    var rxIrq: bool
    var rtsHigh: bool
    var rxHsr: nat

    /** TX channel: timer, the data pin, the action at the next match, the
        mode flag (FLAG0: bit emission), the next match time, match service
        enabled, interrupt issued by the last thread, the TXE pin, and the
        pending TXE de-assert match. */
    var txTimer: Timebase
    var txPin: bool
    var txAction: PinAction
    var txFlag0: bool
    var txMatchTime: int
    var txEnabled: bool
    var txIrq: bool
    var txeHigh: bool
    var txeDeassertAt: Option<int>

    /** What every thread and host call keeps. */
    predicate Valid()
      reads this
    {
      cfg.Valid()
      && rxBuf.Length == cfg.rxSize && txBuf.Length == cfg.txSize
      && rxPop < rxBuf.Length && rxPush < rxBuf.Length
      && txPop < txBuf.Length && txPush < txBuf.Length
      && 0 <= rxCount <= RxEngine.SampleCount(cfg)
      && -2 <= txCount <= cfg.bitCount
      && (txFlag0 ==> txCount >= 0 || (cfg.parityEnabled && txCount == -1))
      && (txEnableActive ==> cfg.TxeEnabled())
    }

    function RxRegs(): RxEngine.RxRegs
      reads this
    {
      RxEngine.RxRegs(rxShift, rxOneBit, rxParity, rxCount)
    }

    function TxRegs(): TxEngine.TxRegs
      reads this
    {
      TxEngine.TxRegs(txShift, txCount, txParity)
    }

    /** The received words not yet read by the host, oldest first. */
    function RxContents(): seq<RxWord>
      requires Valid()
      reads this, rxBuf
    {
      Contents(rxBuf[..], rxPop, rxPush)
    }

    /** The words waiting to be transmitted, oldest first. */
    function TxContents(): seq<Word32>
      requires Valid()
      reads this, txBuf
    {
      Contents(txBuf[..], txPop, txPush)
    }

    function RxUsed(): nat
      requires Valid()
      reads this
    {
      Used(rxPush, rxPop, rxBuf.Length)
    }

    function TxUsed(): nat
      requires Valid()
      reads this
    {
      Used(txPush, txPop, txBuf.Length)
    }

    /** The frame as the host's init leaves it: the configuration written
        over a zeroed frame, both channels not yet initialised. */
    constructor (cfg: Config, rxBuf: array<RxWord>, txBuf: array<Word32>)
      requires cfg.Valid() && rxBuf.Length == cfg.rxSize && txBuf.Length == cfg.txSize
      ensures Valid()
      ensures this.cfg == cfg && this.rxBuf == rxBuf && this.txBuf == txBuf
      ensures overrunError == 0 && rxPop == 0 && rxPush == 0 && txPop == 0 && txPush == 0
      ensures RxRegs() == RxEngine.RxRegs(0, 0, 0, 0) && rxDataMask == 0
      ensures TxRegs() == TxEngine.TxRegs(0, 0, 0) && !txEnableActive
      ensures !rxEdgeArmed && rxMatch.None? && !rxEnabled && !rxIrq && rxHsr == 0
      ensures !txFlag0 && !txEnabled && !txIrq && txeDeassertAt.None?
    {
      this.cfg := cfg;
      this.rxBuf := rxBuf;
      this.txBuf := txBuf;
      overrunError := 0;
      rxPop, rxPush, txPop, txPush := 0, 0, 0, 0;
      rxShift, rxOneBit, rxParity, rxCount, rxDataMask := 0, 0, 0, 0, 0;
      txShift, txCount, txParity, txEnableActive := 0, 0, 0, false;
      rxTimer, rxEdgeArmed, rxMatch, rxEnabled, rxIrq, rtsHigh, rxHsr := cfg.timebase, false, None, false, false, false, 0;
      txTimer, txPin, txAction, txFlag0, txMatchTime := cfg.timebase, false, NoChange, false, 0;
      txEnabled, txIrq, txeHigh, txeDeassertAt := false, false, false, None;
    }

    // ---------------------------------------------------------------- RX

    /** Init_RX_TCR1 / Init_RX_TCR2: select the timer, then run
        Common_RX_Init_fragment. */
    method InitRx(timer: Timebase)
      requires Valid()
      modifies this`rxTimer, this`rxEdgeArmed, this`rxMatch, this`rxEnabled, this`rxIrq
      modifies this`rxPop, this`rxPush, this`rxDataMask, this`rtsHigh, this`rxHsr
      ensures Valid()
      ensures rxTimer == timer && rxEdgeArmed && rxMatch.None? && rxEnabled && !rxIrq && rxHsr == 0
      ensures rxPop == 0 && rxPush == 0 && RxContents() == []
      ensures rxDataMask == RxEngine.DataMask(cfg.bitCount) && rxDataMask + 1 == Pow2(cfg.bitCount)
      ensures rtsHigh == (if cfg.RtsEnabled() then false else old(rtsHigh))
    {
      rxTimer := timer;
      CommonRxInit();
    }

    /** Common_RX_Init_fragment: arm falling-edge detection, clear pending
        matches, enable match service, empty the FIFO, set the data mask and
        drive RTS low. */
    method CommonRxInit()
      requires Valid()
      modifies this`rxEdgeArmed, this`rxMatch, this`rxEnabled, this`rxIrq
      modifies this`rxPop, this`rxPush, this`rxDataMask, this`rtsHigh, this`rxHsr
      ensures Valid()
      ensures rxEdgeArmed && rxMatch.None? && rxEnabled && !rxIrq && rxHsr == 0
      ensures rxPop == 0 && rxPush == 0 && RxContents() == []
      ensures rxDataMask == RxEngine.DataMask(cfg.bitCount) && rxDataMask + 1 == Pow2(cfg.bitCount)
      ensures rtsHigh == (if cfg.RtsEnabled() then false else old(rtsHigh))
    {
      rxEdgeArmed := true;
      rxMatch := None;
      rxEnabled := true;
      rxIrq := false;
      rxHsr := 0;
      ResetRxFifo();
      rxDataMask := Pow2(cfg.bitCount) - 1;
      if cfg.RtsEnabled() {
        rtsHigh := false;
      }
    }

    /** Clear the FIFO: pop and push both back at the buffer start. */
    method ResetRxFifo()
      requires Valid()
      modifies this`rxPop, this`rxPush
      ensures Valid()
      ensures rxPop == 0 && rxPush == 0 && RxContents() == []
    {
      rxPop, rxPush := 0, 0;
      EmptyContents(rxBuf[..], 0);
    }

    /** Shutdown_RX: stop edge detection and match service, clear pending
        matches and drive RTS high. */
    method ShutdownRx()
      requires Valid()
      modifies this`rxEdgeArmed, this`rxMatch, this`rxEnabled, this`rxIrq, this`rtsHigh, this`rxHsr
      ensures Valid()
      ensures !rxEdgeArmed && rxMatch.None? && !rxEnabled && !rxIrq && rxHsr == 0
      ensures rtsHigh == (if cfg.RtsEnabled() then true else old(rtsHigh))
    {
      rxEdgeArmed := false;
      rxMatch := None;
      rxEnabled := false;
      rxIrq := false;
      rxHsr := 0;
      if cfg.RtsEnabled() {
        rtsHigh := true;
      }
    }

    /** DetectWord, on the falling edge of a start bit at edgeTime: reset the
        receiver registers, schedule the first sample in the middle of the
        first data bit, and stop edge detection for the rest of the word. */
    method DetectWord(edgeTime: int)
      requires Valid()
      modifies this`rxShift, this`rxOneBit, this`rxParity, this`rxCount, this`rxMatch, this`rxEdgeArmed, this`rxIrq
      ensures Valid()
      ensures RxRegs() == RxEngine.StartWord(cfg)
      ensures rxShift == 0 && rxOneBit == 1
      ensures rxParity == (if cfg.parityEnabled then cfg.paritySelect else 0)
      ensures rxCount == cfg.bitCount + (if cfg.parityEnabled then 1 else 0)
      ensures rxMatch == Some(edgeTime + cfg.bitTime + cfg.bitTime / 2)
      ensures !rxEdgeArmed && !rxIrq
    {
      rxOneBit := 1;
      rxShift := 0;
      rxParity := 0;
      rxCount := cfg.bitCount;
      if cfg.parityEnabled {
        rxParity := cfg.paritySelect;
        rxCount := rxCount + 1;
      }
      rxMatch := Some(edgeTime + (cfg.bitTime + cfg.bitTime / 2));
      rxEdgeArmed := false;
      rxIrq := false;
    }

    /** DetectBit, at a sample match with the line at the given level. Before
        the stop bit it takes one sample and schedules the next one bit time
        later; at the stop bit it stores the word (flags and masked data) in
        the slot at push, re-arms edge detection, and either advances push or,
        with the FIFO full, sets the overrun flag and drops the word. */
    method DetectBit(level: bool)
      requires Valid() && rxMatch.Some?
      modifies this`rxShift, this`rxOneBit, this`rxParity, this`rxCount, this`rxMatch, this`rxEdgeArmed
      modifies this`rxPush, this`overrunError, this`rxIrq, this`rtsHigh, rxBuf
      ensures Valid()
      ensures old(rxCount) != 0 ==>
                RxRegs() == RxEngine.Sample(old(RxRegs()), level)
                && rxMatch == Some(old(rxMatch.value) + cfg.bitTime)
                && rxEdgeArmed == old(rxEdgeArmed) && !rxIrq
                && rxPush == old(rxPush) && overrunError == old(overrunError) && rtsHigh == old(rtsHigh)
                && rxBuf[..] == old(rxBuf[..])
      ensures old(rxCount) == 0 ==>
                RxRegs() == old(RxRegs()) && rxMatch.None? && rxEdgeArmed
                && rxBuf[..] == old(rxBuf[..])[old(rxPush) := RxEngine.Received(old(RxRegs()), level, cfg.parityEnabled, rxDataMask)]
      ensures old(rxCount) == 0 && Next(old(rxPush), rxBuf.Length) == rxPop ==>
                overrunError == 1 && rxPush == old(rxPush) && !rxIrq && rtsHigh == old(rtsHigh)
                && RxContents() == old(RxContents())
      ensures old(rxCount) == 0 && Next(old(rxPush), rxBuf.Length) != rxPop ==>
                overrunError == old(overrunError)
                && rxPush == Next(old(rxPush), rxBuf.Length)
                && RxContents() == old(RxContents())
                     + [RxEngine.Received(old(RxRegs()), level, cfg.parityEnabled, rxDataMask)]
                && 1 <= RxUsed()
                && (rxIrq <==> 4 * RxUsed() == cfg.rxIntThreshold)
                && rtsHigh == (if cfg.RtsEnabled()
                               then RxEngine.RtsNext(old(rtsHigh), 4 * RxUsed(), cfg.rtsHalt, cfg.rtsResume)
                               else old(rtsHigh))
    {
      if rxCount == 0 {
        StopBit(level);
      } else {
        DataBit(level);
      }
    }

    /** The data or parity sample branch of DetectBit. */
    method DataBit(level: bool)
      requires Valid() && rxMatch.Some? && rxCount != 0
      modifies this`rxShift, this`rxOneBit, this`rxParity, this`rxCount, this`rxMatch, this`rxIrq
      ensures Valid()
      ensures RxRegs() == RxEngine.Sample(old(RxRegs()), level)
      ensures rxMatch == Some(old(rxMatch.value) + cfg.bitTime) && !rxIrq
    {
      rxCount := rxCount - 1;
      if level {
        rxShift := BitOr(rxShift, rxOneBit);
        rxParity := (rxParity + 1) % UINT8;
      }
      rxOneBit := (2 * rxOneBit) % REG24;
      rxMatch := Some(rxMatch.value + cfg.bitTime);
      rxIrq := false;
    }

    /** The stop-bit branch of DetectBit. */
    method StopBit(level: bool)
      requires Valid() && rxCount == 0
      modifies this`rxMatch, this`rxEdgeArmed, this`rxPush, this`overrunError, this`rxIrq, this`rtsHigh, rxBuf
      ensures Valid()
      ensures rxMatch.None? && rxEdgeArmed
      ensures rxBuf[..] == old(rxBuf[..])[old(rxPush) := RxEngine.Received(RxRegs(), level, cfg.parityEnabled, rxDataMask)]
      ensures Next(old(rxPush), rxBuf.Length) == rxPop ==>
                overrunError == 1 && rxPush == old(rxPush) && !rxIrq && rtsHigh == old(rtsHigh)
                && RxContents() == old(RxContents())
      ensures Next(old(rxPush), rxBuf.Length) != rxPop ==>
                overrunError == old(overrunError)
                && rxPush == Next(old(rxPush), rxBuf.Length)
                && RxContents() == old(RxContents())
                     + [RxEngine.Received(RxRegs(), level, cfg.parityEnabled, rxDataMask)]
                && 1 <= RxUsed()
                && (rxIrq <==> 4 * RxUsed() == cfg.rxIntThreshold)
                && rtsHigh == (if cfg.RtsEnabled()
                               then RxEngine.RtsNext(old(rtsHigh), 4 * RxUsed(), cfg.rtsHalt, cfg.rtsResume)
                               else old(rtsHigh))
    {
      var errorFlags := StopErrorFlags(level);
      rxEdgeArmed := true;
      rxMatch := None;
      var w := RxWord(errorFlags, BitAnd(rxShift, rxDataMask));
      assert w == RxEngine.Received(RxRegs(), level, cfg.parityEnabled, rxDataMask);
      StoreWord(w);
      CommitPush();
    }

    /** The error flags of the word completed by a stop sample at the given
        level: FRAMING_ERROR when the stop bit is low, PARITY_ERROR when parity
        is enabled and the accumulator is odd. */
    method StopErrorFlags(level: bool) returns (errorFlags: nat)
      ensures errorFlags == RxEngine.StopFlags(RxRegs(), level, cfg.parityEnabled)
      ensures errorFlags < 4
      ensures errorFlags % 2 == 1 <==> !level
      ensures errorFlags / 2 == 1 <==> cfg.parityEnabled && rxParity % 2 == 1
    {
      errorFlags := 0;
      if !level {
        errorFlags := BitOr(errorFlags, FRAMING_ERROR);
      }
      if cfg.parityEnabled && rxParity % 2 != 0 {
        errorFlags := BitOr(errorFlags, PARITY_ERROR);
      }
    }

    /** Always put the data in: write the word into the slot at push. */
    method StoreWord(w: RxWord)
      requires Valid()
      modifies rxBuf
      ensures rxBuf[..] == old(rxBuf[..])[rxPush := w]
      ensures Next(rxPush, rxBuf.Length) == rxPop ==> RxContents() == old(RxContents())
      ensures Next(rxPush, rxBuf.Length) != rxPop ==>
                Contents(rxBuf[..], rxPop, Next(rxPush, rxBuf.Length)) == old(RxContents()) + [w]
    {
      PushWord(rxBuf[..], rxPop, rxPush, w);
      rxBuf[rxPush] := w;
    }

    /** Advance push past the stored word, or set the overrun flag when the
        next index would meet pop; raise the threshold interrupt and update
        RTS after a push. */
    method CommitPush()
      requires Valid()
      modifies this`rxPush, this`overrunError, this`rxIrq, this`rtsHigh
      ensures Valid()
      ensures Next(old(rxPush), rxBuf.Length) == rxPop ==>
                overrunError == 1 && rxPush == old(rxPush) && !rxIrq && rtsHigh == old(rtsHigh)
      ensures Next(old(rxPush), rxBuf.Length) != rxPop ==>
                overrunError == old(overrunError)
                && rxPush == Next(old(rxPush), rxBuf.Length)
                && RxUsed() == old(RxUsed()) + 1
                && (rxIrq <==> 4 * RxUsed() == cfg.rxIntThreshold)
                && rtsHigh == (if cfg.RtsEnabled()
                               then RxEngine.RtsNext(old(rtsHigh), 4 * RxUsed(), cfg.rtsHalt, cfg.rtsResume)
                               else old(rtsHigh))
    {
      var n := rxBuf.Length;
      var next := Next(rxPush, n);
      var pop := rxPop;
      if next == pop {
        overrunError := 1;
        rxIrq := false;
        return;
      }
      EmptyAndFull(rxPush, pop, n);
      rxPush := next;
      var used: int := 4 * next;
      used := used - 4 * pop;
      if used < 0 {
        used := used + 4 * n;
      }
      rxIrq := used == cfg.rxIntThreshold;
      assert used == 4 * RxUsed();
      ApplyRts(used);
    }

    /** The RTS rule shared by DetectBit and UpdateRTS, on the byte
        occupancy: with RTS enabled, drive it high at or above the halt
        threshold, low at or below the resume threshold, and leave it otherwise. */
    method ApplyRts(usedBytes: int)
      requires Valid()
      modifies this`rtsHigh
      ensures Valid()
      ensures rtsHigh == (if cfg.RtsEnabled()
                          then RxEngine.RtsNext(old(rtsHigh), usedBytes, cfg.rtsHalt, cfg.rtsResume)
                          else old(rtsHigh))
    {
      if cfg.RtsEnabled() {
        if usedBytes >= cfg.rtsHalt {
          rtsHigh := true;
        } else if usedBytes <= cfg.rtsResume {
          rtsHigh := false;
        }
      }
    }

    /** UpdateRTS, on the host's request after it has read the FIFO: with RTS
        enabled, apply the hysteresis rule to the current byte occupancy. */
    method UpdateRts()
      requires Valid()
      modifies this`rtsHigh, this`rxHsr, this`rxIrq
      ensures Valid()
      ensures rtsHigh == (if cfg.RtsEnabled()
                          then RxEngine.RtsNext(old(rtsHigh), 4 * RxUsed(), cfg.rtsHalt, cfg.rtsResume)
                          else old(rtsHigh))
      ensures rxHsr == 0 && !rxIrq
    {
      if cfg.RtsEnabled() {
        var used: int := 4 * rxPush;
        used := used - 4 * rxPop;
        if used < 0 {
          used := used + 4 * rxBuf.Length;
        }
        ApplyRts(used);
      }
      rxHsr := 0;
      rxIrq := false;
    }

    // ---------------------------------------------------------------- TX

    /** Init_TX_TCR1 / Init_TX_TCR2, with the selected timer reading `now`:
        drive TXE low, then run Common_TX_Init_fragment. */
    method InitTx(timer: Timebase, now: int)
      requires Valid()
      modifies this`txTimer, this`txPin, this`txAction, this`txFlag0, this`txMatchTime, this`txEnabled
      modifies this`txIrq, this`txeHigh, this`txPop, this`txPush
      ensures Valid()
      ensures txTimer == timer && txPin && txAction == NoChange && !txFlag0 && !txIrq
      ensures txMatchTime == now + cfg.stopTime && txEnabled
      ensures txPop == 0 && txPush == 0 && TxContents() == []
      ensures txeHigh == (if cfg.TxeEnabled() then false else old(txeHigh))
    {
      txTimer := timer;
      if cfg.TxeEnabled() {
        txeHigh := false;
      }
      CommonTxInit(now);
    }

    /** Common_TX_Init_fragment: drive the data pin high with no action at the
        next match, enter check mode, schedule the first check one stop time
        after `erta` and empty the FIFO. */
    method CommonTxInit(erta: int)
      requires Valid()
      modifies this`txPin, this`txAction, this`txFlag0, this`txMatchTime, this`txEnabled
      modifies this`txIrq, this`txPop, this`txPush
      ensures Valid()
      ensures txPin && txAction == NoChange && !txFlag0 && !txIrq
      ensures txMatchTime == erta + cfg.stopTime && txEnabled
      ensures txPop == 0 && txPush == 0 && TxContents() == []
    {
      txAction := NoChange;
      txPin := true;
      txFlag0 := false;
      txIrq := false;
      txMatchTime := erta + cfg.stopTime;
      txEnabled := true;
      ResetTxFifo();
    }

    /** Clear the FIFO: pop and push both back at the buffer start. */
    method ResetTxFifo()
      requires Valid()
      modifies this`txPop, this`txPush
      ensures Valid()
      ensures txPop == 0 && txPush == 0 && TxContents() == []
    {
      txPop, txPush := 0, 0;
      EmptyContents(txBuf[..], 0);
    }

    /** Shutdown_TX: stop match service, drive the data pin high, and cancel
        any pending TXE match with TXE driven low. */
    method ShutdownTx()
      requires Valid()
      modifies this`txEnabled, this`txPin, this`txIrq, this`txeHigh, this`txeDeassertAt
      ensures Valid()
      ensures !txEnabled && txPin && !txIrq
      ensures cfg.TxeEnabled() ==> !txeHigh && txeDeassertAt.None?
      ensures !cfg.TxeEnabled() ==> txeHigh == old(txeHigh) && txeDeassertAt == old(txeDeassertAt)
    {
      txEnabled := false;
      txPin := true;
      txIrq := false;
      if cfg.TxeEnabled() {
        txeDeassertAt := None;
        txeHigh := false;
      }
    }

    /** FinishTXE_fragment: at the end of an RS-485 transfer, schedule TXE to
        go low the post delay after the check just armed. */
    method FinishTxe()
      requires Valid()
      modifies this`txEnableActive, this`txeDeassertAt
      ensures Valid()
      ensures !txEnableActive
      ensures txeDeassertAt == (if old(txEnableActive) then Some(txMatchTime + cfg.txePostDelay) else old(txeDeassertAt))
    {
      if txEnableActive {
        var tmp := txMatchTime;
        txEnableActive := false;
        txeDeassertAt := Some(tmp + cfg.txePostDelay);
      }
    }

    /** TransmitCheck, at a check match with the CTS input at the given level:
        schedule the next match one stop time later; then, with a word queued
        and clear to send, open the TXE window, load the word and switch to
        bit emission with the start bit at that match; otherwise only close
        the TXE window. */
    method TransmitCheck(ctsHigh: bool)
      requires Valid()
      modifies this`txMatchTime, this`txPop, this`txAction, this`txFlag0, this`txShift, this`txCount
      modifies this`txParity, this`txEnableActive, this`txeHigh, this`txeDeassertAt, this`txIrq
      ensures Valid()
      ensures txMatchTime == old(txMatchTime) + cfg.stopTime
      ensures var starts := old(TxContents()) != [] && !(cfg.CtsEnabled() && ctsHigh);
              (starts ==>
                 TxRegs() == TxEngine.LoadWord(cfg, old(TxContents())[0])
                 && txAction == MatchLow && txFlag0
                 && txPop == Next(old(txPop), txBuf.Length)
                 && TxContents() == old(TxContents())[1..]
                 && (txIrq <==> 4 * TxUsed() == cfg.txIntThreshold)
                 && txEnableActive == (cfg.TxeEnabled() || old(txEnableActive))
                 && (cfg.TxeEnabled() ==> txeHigh && txeDeassertAt.None?)
                 && (!cfg.TxeEnabled() ==> txeHigh == old(txeHigh) && txeDeassertAt == old(txeDeassertAt)))
              && (!starts ==>
                 TxRegs() == old(TxRegs()) && txAction == old(txAction) && txFlag0 == old(txFlag0)
                 && txPop == old(txPop) && !txIrq && !txEnableActive && txeHigh == old(txeHigh)
                 && txeDeassertAt == (if old(txEnableActive) then Some(txMatchTime + cfg.txePostDelay)
                                      else old(txeDeassertAt)))
    {
      txMatchTime := txMatchTime + cfg.stopTime;
      txIrq := false;
      EmptyAndFull(txPush, txPop, txBuf.Length);
      if txPop != txPush {
        if cfg.CtsEnabled() && ctsHigh {
          FinishTxe();
          return;
        }
        OpenTxe();
        LoadNextWord();
      } else {
        FinishTxe();
      }
    }

    /** The RS-485 part of starting a word: cancel a pending TXE de-assert,
        drive TXE high and mark the window open. */
    method OpenTxe()
      requires Valid()
      modifies this`txEnableActive, this`txeHigh, this`txeDeassertAt
      ensures Valid()
      ensures txEnableActive == (cfg.TxeEnabled() || old(txEnableActive))
      ensures cfg.TxeEnabled() ==> txeHigh && txeDeassertAt.None?
      ensures !cfg.TxeEnabled() ==> txeHigh == old(txeHigh) && txeDeassertAt == old(txeDeassertAt)
    {
      if cfg.TxeEnabled() {
        txeDeassertAt := None;
        txeHigh := true;
        txEnableActive := true;
      }
    }

    /** Starting a word: the start bit goes low at the next match, the
        channel enters bit emission, the registers are loaded from the FIFO
        head, pop advances, and the host is interrupted when the byte
        occupancy left equals the TX byte threshold. */
    method LoadNextWord()
      requires Valid() && txPop != txPush
      modifies this`txPop, this`txAction, this`txFlag0, this`txShift, this`txCount, this`txParity, this`txIrq
      ensures Valid()
      ensures old(TxContents()) != []
      ensures TxRegs() == TxEngine.LoadWord(cfg, old(TxContents())[0])
      ensures txAction == MatchLow && txFlag0
      ensures txPop == Next(old(txPop), txBuf.Length)
      ensures TxContents() == old(TxContents())[1..]
      ensures txIrq <==> 4 * TxUsed() == cfg.txIntThreshold
    {
      var n := txBuf.Length;
      EmptyAndFull(txPush, txPop, n);
      txAction := MatchLow;
      txFlag0 := true;
      txParity := cfg.paritySelect;
      txCount := cfg.bitCount;
      txShift := txBuf[txPop] % REG24;
      var pop := txPop;
      NextIsSlot(pop, n);
      ReadFromPop(txBuf[..], txPop, txPush, 1);
      pop := Next(pop, n);
      txPop := pop;
      var used: int := 4 * txPush;
      used := used - 4 * pop;
      if used < 0 {
        used := used + 4 * n;
      }
      txIrq := used == cfg.txIntThreshold;
    }

    /** TransmitBit, at a bit match in emission mode: choose the level of the
        next bit (data, parity or stop), leave emission mode after the stop bit,
        shift the register, and schedule the next match one bit time later. */
    method TransmitBit()
      requires Valid() && txFlag0
      modifies this`txAction, this`txFlag0, this`txShift, this`txCount, this`txParity, this`txMatchTime, this`txIrq
      ensures Valid()
      ensures TxRegs() == TxEngine.BitStep(old(TxRegs()), cfg.parityEnabled)
      ensures txAction == (if TxEngine.BitLevel(old(TxRegs()), cfg.parityEnabled) then MatchHigh else MatchLow)
      ensures txFlag0 == !TxEngine.EndsFrame(old(TxRegs()), cfg.parityEnabled)
      ensures txMatchTime == old(txMatchTime) + cfg.bitTime && !txIrq
    {
      if txCount == 0 {
        if !cfg.parityEnabled {
          txAction := MatchHigh;
          txFlag0 := false;
        } else {
          txAction := MatchHigh;
          if txParity % 2 == 0 {
            txAction := MatchLow;
          }
        }
      } else if txCount < 0 {
        txAction := MatchHigh;
        txFlag0 := false;
      } else {
        txAction := MatchLow;
        if txShift % 2 != 0 {
          txAction := MatchHigh;
          txParity := (txParity + 1) % UINT8;
        }
      }
      txCount := txCount - 1;
      txShift := txShift / 2;
      txMatchTime := txMatchTime + cfg.bitTime;
      txIrq := false;
    }

    /** A match on the TX channel: the pin takes the programmed action, then
        FLAG0 selects TransmitBit (emission mode) or TransmitCheck, with the
        effect each of them promises. */
    method OnTxMatch(ctsHigh: bool)
      requires Valid() && txEnabled
      modifies this`txPin, this`txMatchTime, this`txPop, this`txAction, this`txFlag0, this`txShift, this`txCount
      modifies this`txParity, this`txEnableActive, this`txeHigh, this`txeDeassertAt, this`txIrq
      ensures Valid()
      ensures txPin == ApplyAction(old(txAction), old(txPin))
      ensures old(txFlag0) ==>
                TxRegs() == TxEngine.BitStep(old(TxRegs()), cfg.parityEnabled)
                && txAction == (if TxEngine.BitLevel(old(TxRegs()), cfg.parityEnabled) then MatchHigh else MatchLow)
                && txFlag0 == !TxEngine.EndsFrame(old(TxRegs()), cfg.parityEnabled)
                && txMatchTime == old(txMatchTime) + cfg.bitTime && !txIrq
                && txPop == old(txPop) && TxContents() == old(TxContents())
                && txEnableActive == old(txEnableActive) && txeHigh == old(txeHigh)
                && txeDeassertAt == old(txeDeassertAt)
      ensures !old(txFlag0) ==>
                txMatchTime == old(txMatchTime) + cfg.stopTime
                && var starts := old(TxContents()) != [] && !(cfg.CtsEnabled() && ctsHigh);
                   (starts ==>
                      TxRegs() == TxEngine.LoadWord(cfg, old(TxContents())[0])
                      && txAction == MatchLow && txFlag0
                      && txPop == Next(old(txPop), txBuf.Length)
                      && TxContents() == old(TxContents())[1..]
                      && (txIrq <==> 4 * TxUsed() == cfg.txIntThreshold)
                      && txEnableActive == (cfg.TxeEnabled() || old(txEnableActive))
                      && (cfg.TxeEnabled() ==> txeHigh && txeDeassertAt.None?)
                      && (!cfg.TxeEnabled() ==> txeHigh == old(txeHigh) && txeDeassertAt == old(txeDeassertAt)))
                   && (!starts ==>
                      TxRegs() == old(TxRegs()) && txAction == old(txAction) && txFlag0 == old(txFlag0)
                      && txPop == old(txPop) && !txIrq && !txEnableActive && txeHigh == old(txeHigh)
                      && txeDeassertAt == (if old(txEnableActive) then Some(txMatchTime + cfg.txePostDelay)
                                           else old(txeDeassertAt)))
    {
      txPin := ApplyAction(txAction, txPin);
      if txFlag0 {
        TransmitBit();
      } else {
        TransmitCheck(ctsHigh);
      }
    }

    /** The TXE channel's de-assert match: TXE goes low. */
    method OnTxeMatch()
      requires Valid() && txeDeassertAt.Some?
      modifies this`txeHigh, this`txeDeassertAt
      ensures Valid()
      ensures !txeHigh && txeDeassertAt.None?
    {
      txeHigh := false;
      txeDeassertAt := None;
    }
  }
}
