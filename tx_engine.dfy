/**
 * The transmitter's bit engine as pure functions on its private registers:
 * the load at the start of a word, and for each bit-output match the level
 * chosen for the next transition, whether the frame ends there, and the
 * register update. The ChannelFrame threads are specified by these functions.
 */
module TxEngine {
  import opened Bits
  import opened UartTypes
  import RxEngine

  /** _tx_shift_register, _tx_running_bit_count, _tx_parity_calc */
  datatype TxRegs = TxRegs(shift: nat, count: int, parity: nat)

  /** The registers as the start of a word leaves them: the 24-bit read of
      the FIFO head, the data-bit count and the parity selection as seed. */
  function LoadWord(cfg: Config, w: Word32): (r: TxRegs)
    ensures r.shift < REG24
    ensures 0 <= cfg.bitCount <= 24 ==> r.shift % Pow2(cfg.bitCount) == w % Pow2(cfg.bitCount)
  {
    assert 0 <= cfg.bitCount <= 24 ==> (w % REG24) % Pow2(cfg.bitCount) == w % Pow2(cfg.bitCount) by {
      Pow2Reg24();
      if 0 <= cfg.bitCount <= 24 {
        ModPow2Narrow(w, cfg.bitCount, 24 - cfg.bitCount);
      }
    }
    TxRegs(w % REG24, cfg.bitCount, cfg.paritySelect)
  }

  /** The level driven at the next match. */
  function BitLevel(r: TxRegs, parityEnabled: bool): bool
  {
    if r.count == 0 then
      if !parityEnabled then true else r.parity % 2 != 0
    else if r.count < 0 then true
    else r.shift % 2 != 0
  }

  /** Whether this bit is the stop bit, after which the channel returns to
      the periodic check. The stop bit is driven high, and it comes only after
      the data bits and, with parity, the parity bit. */
  function EndsFrame(r: TxRegs, parityEnabled: bool): (ends: bool)
    ensures ends ==> BitLevel(r, parityEnabled)
    ensures ends ==> r.count <= 0 && !(parityEnabled && r.count == 0)
  {
    (r.count == 0 && !parityEnabled) || r.count < 0
  }

  /** Count one bit down, shift one bit out, count a transmitted data one:
      the accumulator's parity flips exactly when a data bit is driven high. */
  function BitStep(r: TxRegs, parityEnabled: bool): (s: TxRegs)
    ensures s.count == r.count - 1 && s.shift == r.shift / 2
    ensures s.parity % 2 == 1 <==> (r.parity % 2 == 1) != (r.count > 0 && BitLevel(r, parityEnabled))
  {
    RxEngine.ParityOfByte(r.parity + 1);
    TxRegs(
      r.shift / 2,
      r.count - 1,
      if r.count > 0 && r.shift % 2 != 0 then (r.parity + 1) % UINT8 else r.parity)
  }

  /** The registers after n bit-output matches. */
  function Run(r: TxRegs, parityEnabled: bool, n: nat): TxRegs
    decreases n
  {
    if n == 0 then r else Run(BitStep(r, parityEnabled), parityEnabled, n - 1)
  }

  /** The levels driven by n successive bit-output matches. */
  function Emit(r: TxRegs, parityEnabled: bool, n: nat): (levels: seq<bool>)
    ensures |levels| == n
    decreases n
  {
    if n == 0 then [] else [BitLevel(r, parityEnabled)] + Emit(BitStep(r, parityEnabled), parityEnabled, n - 1)
  }

  /** Bit-output matches per word: the data bits, the parity bit if enabled, the stop bit. */
  function FrameLength(cfg: Config): nat
    requires cfg.Valid()
  {
    cfg.bitCount + (if cfg.parityEnabled then 1 else 0) + 1
  }

  /** The parity bit of a word: high exactly when the selection plus the data ones is odd. */
  function ParityLevel(cfg: Config, w: Word32): bool
    requires cfg.Valid()
  {
    (cfg.paritySelect + Ones(BitSeq(w % REG24, cfg.bitCount))) % 2 == 1
  }

  /** The reference frame after the start bit: the data bits LSB first, the
      parity bit if enabled, then the stop level. */
  function FrameLevels(cfg: Config, w: Word32): seq<bool>
    requires cfg.Valid()
  {
    BitSeq(w % REG24, cfg.bitCount) + (if cfg.parityEnabled then [ParityLevel(cfg, w)] else []) + [true]
  }

  lemma {:induction false} RunEmitSplit(r: TxRegs, pe: bool, a: nat, b: nat)
    ensures Emit(r, pe, a + b) == Emit(r, pe, a) + Emit(Run(r, pe, a), pe, b)
    ensures Run(r, pe, a + b) == Run(Run(r, pe, a), pe, b)
    decreases a
  {
    if a > 0 {
      RunEmitSplit(BitStep(r, pe), pe, a - 1, b);
      assert Emit(r, pe, a + b) == [BitLevel(r, pe)] + Emit(BitStep(r, pe), pe, a - 1 + b);
    }
  }

  /** During the data bits the engine shifts out the low c bits LSB first,
      never ends the frame, and adds the ones it sends to the accumulator. */
  lemma {:induction false} DataPhase(r: TxRegs, pe: bool, c: nat)
    requires r.count >= c && r.parity < UINT8
    ensures Emit(r, pe, c) == BitSeq(r.shift, c)
    ensures Run(r, pe, c).count == r.count - c
    ensures Run(r, pe, c).parity == (r.parity + Ones(BitSeq(r.shift, c))) % UINT8
    ensures forall k :: 0 <= k < c ==> !EndsFrame(Run(r, pe, k), pe)
    decreases c
  {
    if c > 0 {
      var r' := BitStep(r, pe);
      assert r'.parity < UINT8;
      DataPhase(r', pe, c - 1);
      var s := BitSeq(r.shift, c);
      assert s == [r.shift % 2 == 1] + BitSeq(r.shift / 2, c - 1);
      assert s[1..] == BitSeq(r.shift / 2, c - 1);
      var bit := if r.shift % 2 != 0 then 1 else 0;
      assert Ones(s) == bit + Ones(BitSeq(r.shift / 2, c - 1));
      assert r'.parity == (r.parity + bit) % UINT8;
      forall k | 0 <= k < c ensures !EndsFrame(Run(r, pe, k), pe) {
        if k > 0 {
          assert Run(r, pe, k) == Run(r', pe, k - 1);
        }
      }
    }
  }

  /** Once the data bits are out (count 0), the engine sends the parity bit
      (high when the accumulator is odd) if parity is enabled, then the stop
      level, and ends the frame at the stop bit and not before. */
  lemma StopPhase(d: TxRegs, pe: bool)
    requires d.count == 0
    ensures var t := if pe then 2 else 1;
            Emit(d, pe, t) == (if pe then [d.parity % 2 != 0] else []) + [true]
            && (forall k :: 0 <= k < t - 1 ==> !EndsFrame(Run(d, pe, k), pe))
            && EndsFrame(Run(d, pe, t - 1), pe)
  {
    if pe {
      var p := BitStep(d, pe);
      assert Run(d, pe, 1) == p;
      assert Emit(d, pe, 2) == [BitLevel(d, pe), BitLevel(p, pe)];
    } else {
      assert Emit(d, pe, 1) == [BitLevel(d, pe)];
    }
  }

  /** From a loaded word, the bit-output matches drive exactly the reference
      frame, the frame ends (FLAG0 cleared) at its last bit and not before,
      and the count has fallen below zero by then. */
  lemma TransmitFrame(cfg: Config, w: Word32)
    requires cfg.Valid()
    ensures Emit(LoadWord(cfg, w), cfg.parityEnabled, FrameLength(cfg)) == FrameLevels(cfg, w)
    ensures forall k :: 0 <= k < FrameLength(cfg) - 1 ==> !EndsFrame(Run(LoadWord(cfg, w), cfg.parityEnabled, k), cfg.parityEnabled)
    ensures EndsFrame(Run(LoadWord(cfg, w), cfg.parityEnabled, FrameLength(cfg) - 1), cfg.parityEnabled)
  {
    var pe := cfg.parityEnabled;
    var r := LoadWord(cfg, w);
    var bc: nat := cfg.bitCount;
    var n := FrameLength(cfg);
    DataPhase(r, pe, bc);
    var d := Run(r, pe, bc);
    StopPhase(d, pe);
    RunEmitSplit(r, pe, bc, n - bc);
    assert d.parity % 2 != 0 <==> ParityLevel(cfg, w) by {
      RxParity(cfg.paritySelect, Ones(BitSeq(w % REG24, bc)));
    }
    forall k | bc <= k < n ensures Run(r, pe, k) == Run(d, pe, k - bc) {
      RunEmitSplit(r, pe, bc, k - bc);
    }
  }

  lemma RxParity(sel: nat, ones: nat)
    requires sel < UINT8
    ensures ((sel + ones) % UINT8) % 2 == (sel + ones) % 2
  {
    var x := sel + ones;
    DivModUnique(x, UINT8, x / UINT8, x % UINT8);
    assert x == 2 * (128 * (x / UINT8)) + x % UINT8;
  }

  /** The parity bit makes the ones of the data and parity bits even for the
      even selection and odd for the odd selection. */
  lemma ParityMeaning(cfg: Config, w: Word32)
    requires cfg.Valid() && cfg.paritySelect < PARITY_NONE
    ensures var ones := Ones(BitSeq(w % REG24, cfg.bitCount)) + (if ParityLevel(cfg, w) then 1 else 0);
            (cfg.paritySelect == PARITY_EVEN ==> ones % 2 == 0)
            && (cfg.paritySelect == PARITY_ODD ==> ones % 2 == 1)
  {
  }
}
