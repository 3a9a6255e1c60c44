/**
 * The transmitter and receiver engines connected by a wire: a word the
 * transmitter frames, sampled by the receiver in the middle of each bit,
 * comes back masked to the configured data width with no error flags.
 */
module Loopback {
  import opened Bits
  import opened UartTypes
  import RxEngine
  import TxEngine

  /**
   * The line level at time t while the transmitter sends one frame whose start
   * bit goes low at t0: idle (high) before it, low for one bit period, then the
   * levels the bit-output matches drive, one bit period each, and idle after.
   */
  function LineLevel(t0: int, bitTime: int, levels: seq<bool>, t: int): bool
    requires bitTime >= 1
  {
    if t < t0 then true
    else if t < t0 + bitTime then false
    else
      var k := (t - t0) / bitTime - 1;
      if k < |levels| then levels[k] else true
  }

  /** The instant of the receiver's k-th sample after a start edge at t0. */
  function SampleTime(t0: int, bitTime: int, k: nat): int
  {
    RxEngine.FirstSampleTime(t0, bitTime) + k * bitTime
  }

  /** The receiver's k-th sample falls strictly inside the k-th bit after the
      start bit (the transmitter moves to that bit at t0 + (k+1) bit periods),
      so it reads that bit's level. */
  lemma SampleInstants(t0: int, bitTime: int, levels: seq<bool>, k: nat)
    requires bitTime >= 2 && k < |levels|
    ensures t0 + (k + 1) * bitTime < SampleTime(t0, bitTime, k) < t0 + (k + 2) * bitTime
    ensures LineLevel(t0, bitTime, levels, SampleTime(t0, bitTime, k)) == levels[k]
  {
    var t := SampleTime(t0, bitTime, k);
    var h := bitTime / 2;
    assert 1 <= h < bitTime;
    assert t - t0 == bitTime * (k + 1) + h;
    DivModUnique(t - t0, bitTime, k + 1, h);
  }

  /** The samples the receiver takes of a frame, and its stop sample. */
  function Samples(t0: int, bitTime: int, levels: seq<bool>, n: nat): (s: seq<bool>)
    requires bitTime >= 1
    ensures |s| == n
  {
    seq(n, k requires 0 <= k < n => LineLevel(t0, bitTime, levels, SampleTime(t0, bitTime, k)))
  }

  /** With two or more ticks per bit the receiver reads back exactly the
      levels the transmitter drove. */
  lemma SamplesAreLevels(t0: int, bitTime: int, levels: seq<bool>, n: nat)
    requires bitTime >= 2 && n <= |levels|
    ensures Samples(t0, bitTime, levels, n) == levels[..n]
  {
    forall k | 0 <= k < n
      ensures Samples(t0, bitTime, levels, n)[k] == levels[k]
    {
      SampleInstants(t0, bitTime, levels, k);
    }
  }

  /** The stop sample comes half a bit (rounded down) into the stop bit; it
      is taken before the transmitter's next start bit, which follows the
      stop bit's start by the stop time, exactly when that half bit is
      shorter than the stop time. */
  lemma StopSampleBeforeNextStart(cfg: Config, t0: int)
    requires cfg.Valid()
    ensures var n := RxEngine.SampleCount(cfg);
            var stopStart := t0 + (n + 1) * cfg.bitTime;
            SampleTime(t0, cfg.bitTime, n) == stopStart + cfg.bitTime / 2
            && (SampleTime(t0, cfg.bitTime, n) < stopStart + cfg.stopTime <==> cfg.bitTime / 2 < cfg.stopTime)
  {
    var n := RxEngine.SampleCount(cfg);
    assert (n + 1) * cfg.bitTime == cfg.bitTime + n * cfg.bitTime;
  }

  /** The data bits of a framed word are its low bitCount bits. */
  lemma FrameData(cfg: Config, w: Word32)
    requires cfg.Valid()
    ensures BitsValue(BitSeq(w % REG24, cfg.bitCount)) == w % Pow2(cfg.bitCount)
  {
    var bc: nat := cfg.bitCount;
    BitSeqValue(w % REG24, bc);
    Pow2Reg24();
    ModPow2Narrow(w, bc, 24 - bc);
  }

  /** The receiver, given the levels of a reference frame as its samples and
      the stop level as its stop sample, stores the word's low bitCount bits
      with no error flags. */
  lemma ReceiveFrame(cfg: Config, w: Word32)
    requires cfg.Valid()
    ensures var f := TxEngine.FrameLevels(cfg, w);
            var n := RxEngine.SampleCount(cfg);
            var r := RxEngine.Run(RxEngine.StartWord(cfg), f[..n]);
            r.count == 0
            && RxEngine.Received(r, f[n], cfg.parityEnabled, RxEngine.DataMask(cfg.bitCount)) == RxWord(0, w % Pow2(cfg.bitCount))
  {
    var pe := cfg.parityEnabled;
    var bc: nat := cfg.bitCount;
    var f := TxEngine.FrameLevels(cfg, w);
    var n := RxEngine.SampleCount(cfg);
    var data := BitSeq(w % REG24, bc);
    var samples := f[..n];
    assert samples[..bc] == data;
    assert f[n];
    RxEngine.ReceivedWord(cfg, samples, true);
    FrameData(cfg, w);
    assert pe ==> (cfg.paritySelect + Ones(samples)) % 2 == 0 by {
      if pe {
        var p := TxEngine.ParityLevel(cfg, w);
        assert samples == data + [p];
        OnesSnoc(data, p);
      }
    }
    var r := RxEngine.Run(RxEngine.StartWord(cfg), samples);
    var rw := RxEngine.Received(r, true, pe, RxEngine.DataMask(bc));
    assert rw.errorFlags == 0;
    assert rw.data == w % Pow2(bc);
    assert rw == RxWord(0, w % Pow2(bc));
  }

  /**
   * Loopback round trip: a word taken from the TX FIFO, framed by the
   * transmitter and sampled by the receiver from the start edge on, is stored
   * with no error flags and with the data equal to the word's low bitCount
   * bits, whichever parity selection is configured.
   */
  lemma RoundTrip(cfg: Config, w: Word32, t0: int)
    requires cfg.Valid() && cfg.bitTime >= 2
    ensures var pe := cfg.parityEnabled;
            var levels := TxEngine.Emit(TxEngine.LoadWord(cfg, w), pe, TxEngine.FrameLength(cfg));
            var n := RxEngine.SampleCount(cfg);
            var r := RxEngine.Run(RxEngine.StartWord(cfg), Samples(t0, cfg.bitTime, levels, n));
            var stop := LineLevel(t0, cfg.bitTime, levels, SampleTime(t0, cfg.bitTime, n));
            r.count == 0
            && RxEngine.Received(r, stop, pe, RxEngine.DataMask(cfg.bitCount)) == RxWord(0, w % Pow2(cfg.bitCount))
  {
    var pe := cfg.parityEnabled;
    var levels := TxEngine.Emit(TxEngine.LoadWord(cfg, w), pe, TxEngine.FrameLength(cfg));
    var n := RxEngine.SampleCount(cfg);
    TxEngine.TransmitFrame(cfg, w);
    assert levels == TxEngine.FrameLevels(cfg, w);
    SamplesAreLevels(t0, cfg.bitTime, levels, n);
    SampleInstants(t0, cfg.bitTime, levels, n);
    ReceiveFrame(cfg, w);
  }
}
