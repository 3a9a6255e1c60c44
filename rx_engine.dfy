/**
 * The receiver's bit engine as pure functions on its private registers:
 * the reset at the start edge, the update at each data or parity sample, the
 * error flags at the stop sample, the masked data, and the RTS hysteresis.
 * The ChannelFrame threads are specified by these functions.
 */
module RxEngine {
  import opened Bits
  import opened UartTypes

  /** _rx_shift_register, _rx_one_bit, _rx_parity_calc, _rx_running_bit_count */
  datatype RxRegs = RxRegs(shift: nat, oneBit: nat, parity: nat, count: int)

  /** Samples taken before the stop bit: the data bits, plus the parity bit. */
  function SampleCount(cfg: Config): nat
    requires cfg.Valid()
  {
    cfg.bitCount + (if cfg.parityEnabled then 1 else 0)
  }

  /** The parity accumulator's seed: the parity selection, or 0 without parity. */
  function ParitySeed(cfg: Config): nat
  {
    if cfg.parityEnabled then cfg.paritySelect else 0
  }

  /** The registers as the start edge leaves them: nothing accumulated yet,
      and between 1 and 24 samples to take before the stop bit. */
  function StartWord(cfg: Config): (r: RxRegs)
    requires cfg.Valid()
    ensures r == Accumulated(cfg, [])
    ensures 1 <= r.count <= 24
  {
    RxRegs(0, 1, ParitySeed(cfg), SampleCount(cfg))
  }

  /** The first sample instant: the bit time plus half of it after the edge.
      The bit time is the frame's signed int24, and Dafny's division by 2
      rounds down as the arithmetic shift `>> 1` does. */
  function FirstSampleTime(edge: int, bitTime: int): (t: int)
    ensures 2 * (t - edge) <= 3 * bitTime < 2 * (t - edge) + 2
    ensures bitTime >= 2 ==> edge + bitTime < t < edge + 2 * bitTime
  {
    edge + bitTime + bitTime / 2
  }

  /** One data or parity sample: OR the weight in and count a one when the
      line is high, double the 24-bit weight, count the sample. The parity of
      the accumulator flips exactly on a high sample; a low sample leaves the
      shift register alone. */
  function Sample(r: RxRegs, level: bool): (s: RxRegs)
    ensures s.count == r.count - 1 && s.oneBit < REG24 && (r.parity < UINT8 ==> s.parity < UINT8)
    ensures s.parity % 2 == 1 <==> (r.parity % 2 == 1) != level
    ensures !level ==> s.shift == r.shift
  {
    ParityOfByte(r.parity + 1);
    RxRegs(
      if level then BitOr(r.shift, r.oneBit) else r.shift,
      (2 * r.oneBit) % REG24,
      if level then (r.parity + 1) % UINT8 else r.parity,
      r.count - 1)
  }

  /** Successive samples of the given levels. */
  function Run(r: RxRegs, levels: seq<bool>): RxRegs
    decreases |levels|
  {
    if levels == [] then r else Run(Sample(r, levels[0]), levels[1..])
  }

  /** The error flags of a word whose stop bit was sampled at the given
      level: bit 0 (FRAMING_ERROR) is set exactly when the stop sample is low,
      bit 1 (PARITY_ERROR) exactly when parity is enabled and the accumulator
      is odd, so never without parity, and no other bit is set. */
  function StopFlags(r: RxRegs, stopLevel: bool, parityEnabled: bool): (f: nat)
    ensures f < 4
    ensures f % 2 == 1 <==> !stopLevel
    ensures f / 2 == 1 <==> parityEnabled && r.parity % 2 == 1
  {
    (if !stopLevel then FRAMING_ERROR else 0)
    + (if parityEnabled && r.parity % 2 != 0 then PARITY_ERROR else 0)
  }

  /** _rx_data_mask: (1 << _bit_count) - 1, the mask that keeps exactly the
      low bitCount bits (see Received). */
  function DataMask(bitCount: nat): nat
  {
    Pow2(bitCount) - 1
  }

  /** The word stored in the FIFO at the stop sample: the stop flags, and
      the shift register masked, which with the data mask of n bits is the
      shift register's low n bits. */
  function Received(r: RxRegs, stopLevel: bool, parityEnabled: bool, mask: nat): (w: RxWord)
    ensures w.errorFlags < 4
    ensures forall n: nat :: mask == DataMask(n) ==> w.data == r.shift % Pow2(n)
  {
    assert forall n: nat :: mask == DataMask(n) ==> BitAnd(r.shift, mask) == r.shift % Pow2(n) by {
      forall n: nat | mask == DataMask(n) ensures BitAnd(r.shift, mask) == r.shift % Pow2(n) {
        BitAndMask(r.shift, n);
      }
    }
    RxWord(StopFlags(r, stopLevel, parityEnabled), BitAnd(r.shift, mask))
  }

  /** The RTS level after a hysteresis check at the given occupancy, both
      occupancy and thresholds in bytes as the frame holds them. */
  function RtsNext(current: bool, used: int, halt: int, resume: int): (high: bool)
    ensures high <==> used >= halt || (current && used > resume)
  {
    if used >= halt then true else if used <= resume then false else current
  }

  lemma {:induction false} RunSnoc(r: RxRegs, levels: seq<bool>, b: bool)
    ensures Run(r, levels + [b]) == Sample(Run(r, levels), b)
    decreases |levels|
  {
    if levels == [] {
      assert [] + [b] == [b];
      assert [b][1..] == [];
    } else {
      assert (levels + [b])[1..] == levels[1..] + [b];
      RunSnoc(Sample(r, levels[0]), levels[1..], b);
    }
  }

  lemma ParityStep(p: nat, ones: nat)
    requires p == (ones) % UINT8
    ensures (p + 1) % UINT8 == (ones + 1) % UINT8
  {
  }

  /** After k samples from the start edge the shift register holds the k
      sampled levels least significant first, the weight is 2^k (in 24 bits),
      the accumulator is the seed plus the ones seen (in 8 bits), and k
      samples have been counted down. */
  lemma {:induction false} RunAccumulates(cfg: Config, levels: seq<bool>)
    requires cfg.Valid() && |levels| <= SampleCount(cfg)
    ensures Run(StartWord(cfg), levels) == Accumulated(cfg, levels)
  {
    if levels != [] {
      var init := levels[..|levels| - 1];
      var b := levels[|levels| - 1];
      assert levels == init + [b];
      RunAccumulates(cfg, init);
      RunSnoc(StartWord(cfg), init, b);
      SampleStep(cfg, init, b);
    }
  }

  /** What the registers hold after the given samples from the start edge. */
  function Accumulated(cfg: Config, levels: seq<bool>): RxRegs
    requires cfg.Valid()
  {
    RxRegs(BitsValue(levels),
           if |levels| < 24 then Pow2(|levels|) else 0,
           (ParitySeed(cfg) + Ones(levels)) % UINT8,
           SampleCount(cfg) - |levels|)
  }

  lemma SampleStep(cfg: Config, init: seq<bool>, b: bool)
    requires cfg.Valid() && |init| < SampleCount(cfg)
    ensures Sample(Accumulated(cfg, init), b) == Accumulated(cfg, init + [b])
  {
    var k := |init|;
    var r := Accumulated(cfg, init);
    var r' := Sample(r, b);
    var a := Accumulated(cfg, init + [b]);
    BitsValueSnoc(init, b);
    OnesSnoc(init, b);
    BitsValueBound(init);
    assert k < 24;
    Pow2Reg24();
    assert r.oneBit == Pow2(k);
    if b {
      BitOrDisjoint(BitsValue(init), k);
    }
    assert r'.shift == a.shift;
    if k + 1 < 24 {
      Pow2Monotone(k + 1, 23);
      assert 2 * Pow2(k) == Pow2(k + 1) < REG24;
    } else {
      assert 2 * Pow2(k) == REG24;
    }
    assert r'.oneBit == a.oneBit;
    var ones := ParitySeed(cfg) + Ones(init);
    if b {
      ParityStep(ones % UINT8, ones);
    }
    assert r'.parity == a.parity;
  }

  /** The word completed after the data (and parity) samples and the stop
      sample carries the data bits, masked to bitCount bits so that a parity
      bit never reaches the data field, a framing error exactly when the stop
      bit is low, and a parity error exactly when parity is enabled and the
      seed plus the ones received (data and parity bit) is odd. */
  lemma ReceivedWord(cfg: Config, levels: seq<bool>, stopLevel: bool)
    requires cfg.Valid() && |levels| == SampleCount(cfg)
    ensures var r := Run(StartWord(cfg), levels);
            var w := Received(r, stopLevel, cfg.parityEnabled, DataMask(cfg.bitCount));
            r.count == 0
            && w.data == BitsValue(levels[..cfg.bitCount])
            && w.data < Pow2(cfg.bitCount)
            && (w.errorFlags % 2 == 1 <==> !stopLevel)
            && (w.errorFlags / 2 == 1 <==>
                  cfg.parityEnabled && (cfg.paritySelect + Ones(levels)) % 2 == 1)
            && (w.errorFlags == 0 <==>
                  stopLevel && !(cfg.parityEnabled && (cfg.paritySelect + Ones(levels)) % 2 == 1))
  {
    var r := Run(StartWord(cfg), levels);
    RunAccumulates(cfg, levels);
    assert r.shift == BitsValue(levels);
    LowBitsOfSamples(levels, cfg.bitCount);
    BitAndMask(r.shift, cfg.bitCount);
    var total := ParitySeed(cfg) + Ones(levels);
    assert r.parity == total % UINT8;
    ParityOfByte(total);
  }

  /** The low flag bit is the framing error, the next one the parity error. */
  /** Keeping the accumulator in 8 bits does not change its parity. */
  lemma ParityOfByte(x: nat)
    ensures (x % UINT8) % 2 == x % 2
  {
    DivModUnique(x, UINT8, x / UINT8, x % UINT8);
    assert x == 2 * (128 * (x / UINT8)) + x % UINT8;
  }

  /** The first n samples are the low n bits of the assembled value, even
      with one more (parity) sample above them. */
  lemma LowBitsOfSamples(levels: seq<bool>, n: nat)
    requires n <= |levels| <= n + 1
    ensures BitsValue(levels) % Pow2(n) == BitsValue(levels[..n]) < Pow2(n)
  {
    var data := levels[..n];
    BitsValueBound(data);
    if |levels| == n + 1 {
      assert levels == data + [levels[n]];
      BitsValueSnoc(data, levels[n]);
      DivModUnique(BitsValue(levels), Pow2(n), if levels[n] then 1 else 0, BitsValue(data));
    } else {
      assert levels == data;
      DivModUnique(BitsValue(levels), Pow2(n), 0, BitsValue(data));
    }
  }

  /** RTS after a series of hysteresis checks. */
  function RtsAfter(current: bool, useds: seq<int>, halt: int, resume: int): bool
    decreases |useds|
  {
    if useds == [] then current
    else RtsAfter(RtsNext(current, useds[0], halt, resume), useds[1..], halt, resume)
  }

  lemma {:induction false} RtsAfterSnoc(current: bool, useds: seq<int>, u: int, halt: int, resume: int)
    ensures RtsAfter(current, useds + [u], halt, resume)
         == RtsNext(RtsAfter(current, useds, halt, resume), u, halt, resume)
    decreases |useds|
  {
    if useds == [] {
      assert [] + [u] == [u];
      assert [u][1..] == [];
    } else {
      assert (useds + [u])[1..] == useds[1..] + [u];
      RtsAfterSnoc(RtsNext(current, useds[0], halt, resume), useds[1..], u, halt, resume);
    }
  }

  /** Some check saw the FIFO at or above halt, and no later check saw it at or below resume. */
  predicate HaltSinceResume(useds: seq<int>, halt: int, resume: int)
  {
    exists i :: 0 <= i < |useds| && useds[i] >= halt
      && forall j :: i < j < |useds| ==> useds[j] > resume
  }

  /** No check saw the FIFO at or below resume. */
  predicate NeverResumed(useds: seq<int>, resume: int)
  {
    forall j :: 0 <= j < |useds| ==> useds[j] > resume
  }

  /** A check strictly inside the hysteresis band changes neither condition. */
  lemma BandStep(useds: seq<int>, u: int, halt: int, resume: int)
    requires resume < u < halt
    ensures HaltSinceResume(useds + [u], halt, resume) <==> HaltSinceResume(useds, halt, resume)
    ensures NeverResumed(useds + [u], resume) <==> NeverResumed(useds, resume)
  {
    var s := useds + [u];
    assert forall j :: 0 <= j < |useds| ==> s[j] == useds[j];
    assert s[|useds|] == u;
    if HaltSinceResume(useds, halt, resume) {
      var i :| 0 <= i < |useds| && useds[i] >= halt
         && forall j :: i < j < |useds| ==> useds[j] > resume;
      assert s[i] >= halt;
    }
    if HaltSinceResume(s, halt, resume) {
      var i :| 0 <= i < |s| && s[i] >= halt
         && forall j :: i < j < |s| ==> s[j] > resume;
      assert i < |useds|;
      assert useds[i] >= halt;
    }
  }

  /** Hysteresis, stated without the step function: with resume below halt,
      RTS is high after a series of checks exactly when some check saw the
      FIFO at or above halt and none after it saw it at or below resume, or
      RTS started high and no check saw the FIFO at or below resume. */
  lemma {:induction false} RtsHysteresis(current: bool, useds: seq<int>, halt: int, resume: int)
    requires resume < halt
    ensures RtsAfter(current, useds, halt, resume)
        <==> HaltSinceResume(useds, halt, resume) || (current && NeverResumed(useds, resume))
  {
    if useds != [] {
      var init := useds[..|useds| - 1];
      var u := useds[|useds| - 1];
      assert useds == init + [u];
      RtsHysteresis(current, init, halt, resume);
      RtsAfterSnoc(current, init, u, halt, resume);
      var n := |useds|;
      if u >= halt {
        assert useds[n - 1] >= halt;
        assert HaltSinceResume(useds, halt, resume);
      } else if u <= resume {
        assert useds[n - 1] <= resume;
        assert !NeverResumed(useds, resume);
        assert !HaltSinceResume(useds, halt, resume);
      } else {
        BandStep(init, u, halt, resume);
      }
    }
  }
}
