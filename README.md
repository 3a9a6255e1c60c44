# eTPU software UART — a Dafny model

This project models the core of a software UART that runs on an eTPU timer
coprocessor. It has three parts:

- **The receiver thread set**, Init_RX, Shutdown_RX, DetectWord, DetectBit
  and UpdateRTS:
  - assembles a word least significant bit first from mid-bit samples;
  - computes the framing and parity error flags at the stop sample;
  - stores `(flags, data masked to bit_count)` in a ring FIFO that always keeps one slot empty;
  - sets a sticky overrun flag when that FIFO is full;
  - drives an optional RTS pin with a halt/resume hysteresis.
- **The transmitter thread set**, Init_TX, Shutdown_TX, TransmitCheck,
  TransmitBit and FinishTXE:
  - polls its FIFO every stop time, gated by an optional CTS input;
  - sends the start bit, the data bits, an optional parity bit and the stop bit;
  - opens an optional RS-485 transmit-enable (TXE) window and closes it a post delay after the last frame.
- **The host API**:
  - the bounded push into the TX FIFO and the pop from the RX FIFO, which reads and clears the overrun flag;
  - the two FIFO occupancy reports;
  - the timing and threshold arithmetic of the init call.

Structure:

- `Channel.ChannelFrame` (channel_frame.dfy) is the channel frame shared by
  the RX and TX channels:
  - its fields are updated in place;
  - the FIFOs are arrays indexed by word;
  - each eTPU thread is a method with a field-granular `modifies` clause;
  - the channel hardware the threads program is kept as abstract fields: pin levels, pending match times, edge detection, interrupt and host service request.
- `RxEngine` and `TxEngine` give the register updates as pure functions. The
  thread methods are specified by them. Lemmas about them state what a
  complete frame does.
- `Ring` defines the ring FIFO (slots, occupancy, contents in order) and the
  push and pop lemmas.
- `HostFifo` holds the host FIFO calls as methods on the frame.
- `HostInit` holds the arithmetic of the init call.
- `Loopback` connects the two engines through a wire and proves the loopback
  round trip.

Conventions:

- FIFO pointers are word indices 0..size-1. The frame stores byte pointers,
  four bytes per word; `Ring.ByteOccupancy` shows that the pointer tests give
  the same answer in words, and that the byte occupancy is 4 × the word
  occupancy.
- The thresholds (RX and TX interrupt, RTS halt and resume) are kept as the
  frame stores them: int24 byte counts, four times the host's word counts
  truncated to 24 bits and read back signed (`HostInit.Bytes`). The threads
  compare them with the byte occupancy `4 × used`.
- The bit time, stop time and TXE post delay are the frame's int24 values,
  so a bit time of 2^23 ticks or more reads back negative. Half a bit time
  is `bit_time / 2` rounded towards minus infinity, as the signed shift
  gives.
- The sampled pin level (DetectBit), the CTS input (TransmitCheck) and the
  timer reading at init (InitTx) are parameters.
- Match times and the timer reading are unbounded integers.
- The interrupt thresholds follow the threads, not the header comments. The
  comments at etpu/uart/etpu_uart.h:90-91 say the RX interrupt fires when
  the FIFO is "this full or fuller" and the TX one when it is "this empty,
  or emptier". The threads test equality (etpu/_etpu_set/etec_uart_rx.c:157,
  etpu/_etpu_set/etec_uart_tx.c:157). So an interrupt is raised only on the
  push or pop that leaves the byte occupancy exactly at the threshold.

## Model

| member | source | states |
|---|---|---|
| Channel.ChannelFrame.constructor | etpu/uart/etpu_uart.c:115-137 | The frame as the host init leaves it: the configuration written over a zeroed frame. All FIFO pointers are at word index 0, the buffer start (see Left out), all registers are 0, and no thread state is pending. |
| Channel.ChannelFrame.InitRx | etpu/_etpu_set/etec_uart_rx.c:31-69 | Selects the timer, then does what CommonRxInit does. |
| Channel.ChannelFrame.CommonRxInit | etpu/_etpu_set/etec_uart_rx.c:37-63 | Arms falling-edge detection with no pending match and match service enabled. Empties the FIFO: pop = push = 0 and the contents are []. Sets the data mask so that mask + 1 == 2^bit_count. Drives RTS low only when RTS is enabled. |
| Channel.ChannelFrame.ResetRxFifo | etpu/_etpu_set/etec_uart_rx.c:49-50 | Pop and push both return to the buffer start, and the RX FIFO is empty. |
| Channel.ChannelFrame.ShutdownRx | etpu/_etpu_set/etec_uart_rx.c:71-85 | Disarms edge detection, clears the pending match and disables match service. Drives RTS high only when RTS is enabled. |
| Channel.ChannelFrame.DetectWord | etpu/_etpu_set/etec_uart_rx.c:87-102 | On a start edge: shift = 0 and weight = 1. The parity accumulator is parity_select with parity enabled and 0 without. The count is bit_count, plus 1 with parity. Edge detection is disarmed. The first sample is at edge + bit_time + floor(bit_time/2), the floor of the signed shift. |
| Channel.ChannelFrame.DetectBit | etpu/_etpu_set/etec_uart_rx.c:104-192 | Count ≠ 0: exactly one RxEngine.Sample, the next sample exactly one bit time later, and the FIFO, overrun flag and RTS untouched. Count = 0: the word RxEngine.Received is written at push and edge detection is re-armed. Then either (full) overrun = 1, push and contents unchanged, no interrupt, no RTS update; or (room) push advances with wrap, contents = old contents + [word], occupancy ≥ 1, interrupt iff the byte occupancy 4 × used == the RX byte threshold, and RTS follows the hysteresis rule on the byte occupancy. |
| Channel.ChannelFrame.DataBit | etpu/_etpu_set/etec_uart_rx.c:176-191 | A data or parity sample is one RxEngine.Sample step, with the next match exactly bit_time after the current one. |
| Channel.ChannelFrame.StopBit | etpu/_etpu_set/etec_uart_rx.c:107-175 | The stop-sample branch of DetectBit, with the same overrun and push cases. |
| Channel.ChannelFrame.StopErrorFlags | etpu/_etpu_set/etec_uart_rx.c:109-125 | The flags are below 4. Bit 0 (FRAMING_ERROR) is set iff the stop sample is low. Bit 1 (PARITY_ERROR) is set iff parity is enabled and the accumulator is odd. |
| Channel.ChannelFrame.StoreWord | etpu/_etpu_set/etec_uart_rx.c:131-133 | Only the slot at push changes. With the FIFO full the queued words are unchanged. Otherwise the contents up to the next push index are the old contents plus the word. |
| Channel.ChannelFrame.CommitPush | etpu/_etpu_set/etec_uart_rx.c:135-174 | Full (next == pop): overrun = 1 and push is unchanged. Otherwise push = Next(push), occupancy grows by exactly one, an interrupt is raised iff the byte occupancy 4 × used equals the RX byte threshold, and RTS is updated by the hysteresis rule on the byte occupancy. |
| Channel.ChannelFrame.ApplyRts | etpu/_etpu_set/etec_uart_rx.c:162-174 | With RTS enabled, RTS becomes RxEngine.RtsNext of the given byte occupancy and the byte halt and resume thresholds. Otherwise it is unchanged. |
| Channel.ChannelFrame.UpdateRts | etpu/_etpu_set/etec_uart_rx.c:194-215 | The same hysteresis rule, applied to the current byte occupancy 4 × (push − pop mod size). |
| Channel.ChannelFrame.InitTx | etpu/_etpu_set/etec_uart_tx.c:24-40 | Selects the timer. TXE is low when enabled. Then does what CommonTxInit does, with the first check at now + stop_time. |
| Channel.ChannelFrame.CommonTxInit | etpu/_etpu_set/etec_uart_tx.c:42-65 | The data pin is high with no action at the next match. Check mode (FLAG0 = 0). The next match is at erta + stop_time. The FIFO is emptied: pop = push = 0 and the contents are []. |
| Channel.ChannelFrame.ResetTxFifo | etpu/_etpu_set/etec_uart_tx.c:57-58 | Pop and push both return to the buffer start, and the TX FIFO is empty. |
| Channel.ChannelFrame.ShutdownTx | etpu/_etpu_set/etec_uart_tx.c:85-100 | Match service is disabled and the data pin is high. With TXE enabled, TXE is low and its pending match is cancelled. |
| Channel.ChannelFrame.TransmitCheck | etpu/_etpu_set/etec_uart_tx.c:102-166 | The next check is always stop_time after the current match. A word starts iff the FIFO is non-empty and not (CTS enabled and CTS high). On start: the registers are TxEngine.LoadWord(head), the next match drives the line low, FLAG0 = 1, pop advances with wrap, contents = old contents[1..], interrupt iff the remaining byte occupancy 4 × used == the TX byte threshold, and the TXE window opens. Otherwise: the registers, mode and pop are unchanged, and FinishTXE runs. |
| Channel.ChannelFrame.OpenTxe | etpu/_etpu_set/etec_uart_tx.c:127-136 | With TXE enabled: the pending de-assert is cancelled, TXE is high, and the window is active. Otherwise nothing changes. |
| Channel.ChannelFrame.LoadNextWord | etpu/_etpu_set/etec_uart_tx.c:138-160 | Requires pop ≠ push, so the FIFO is non-empty. Registers = LoadWord of the head, start bit low, FLAG0 = 1, pop = Next(pop), contents = old contents[1..], interrupt iff the remaining byte occupancy 4 × used equals the TX byte threshold. |
| Channel.ChannelFrame.FinishTxe | etpu/_etpu_set/etec_uart_tx.c:168-180 | Acts only if the window is active: it clears the flag and schedules TXE low at the newly armed check time + tx_enable_post_delay. Otherwise nothing changes. |
| Channel.ChannelFrame.TransmitBit | etpu/_etpu_set/etec_uart_tx.c:182-219 | The level at the next match is TxEngine.BitLevel, and the registers become TxEngine.BitStep. FLAG0 is cleared iff TxEngine.EndsFrame. The next match is exactly bit_time later, and no interrupt is raised. |
| Channel.ChannelFrame.OnTxMatch | etpu/_etpu_set/etec_uart_tx.c:242-245 | The pin takes the programmed action. With FLAG0 = 1, the effect of TransmitBit: BitStep registers, BitLevel action, FLAG0 cleared iff EndsFrame, next match bit_time later, FIFO and TXE untouched, no interrupt. With FLAG0 = 0, the effect of TransmitCheck: next match stop_time later; a word starts iff the FIFO is non-empty and not (CTS enabled and high), with LoadWord of the head, pop advanced, contents = old contents[1..] and the byte-threshold interrupt; otherwise registers and pop unchanged, no interrupt, and the TXE deassert scheduled post_delay after the next check if a window was open. |
| Channel.ChannelFrame.OnTxeMatch | etpu/_etpu_set/etec_uart_tx.c:173-178 | The TXE de-assert match drives TXE low and consumes the match. |
| RxEngine.StartWord | etpu/_etpu_set/etec_uart_rx.c:88-95 | The registers at the start edge are what zero samples accumulate: shift 0, weight 1, parity seed parity_select (with parity) or 0, and a count of bit_count, plus 1 with parity, between 1 and 24. |
| RxEngine.FirstSampleTime | etpu/_etpu_set/etec_uart_rx.c:97 | The first sample is ⌊3 × bit_time / 2⌋ after the edge; with bit_time ≥ 2 it lies strictly inside the first data bit. |
| RxEngine.Sample | etpu/_etpu_set/etec_uart_rx.c:178-190 | One sample counts down by one and keeps the weight in 24 bits and the accumulator in 8 bits. The accumulator's parity flips exactly on a high sample, and a low sample leaves the shift register unchanged. |
| RxEngine.StopFlags | etpu/_etpu_set/etec_uart_rx.c:113-125 | The flags are below 4. Bit 0 (FRAMING_ERROR) is set iff the stop sample is low. Bit 1 (PARITY_ERROR) is set iff parity is enabled and the accumulator is odd, so never without parity. |
| RxEngine.DataMask | etpu/_etpu_set/etec_uart_rx.c:53 | The data mask (1 << bit_count) − 1. Its meaning, that masking keeps the low bit_count bits, is stated by Received. |
| RxEngine.Received | etpu/_etpu_set/etec_uart_rx.c:131-133 | The stored word's flags are below 4, and with the data mask of n bits its data is the shift register's low n bits. |
| RxEngine.RtsNext | etpu/_etpu_set/etec_uart_rx.c:166-173 | RTS ends high iff the occupancy reached halt, or RTS was high and the occupancy stayed above resume. |
| RxEngine.RunAccumulates | etpu/_etpu_set/etec_uart_rx.c:176-191 | After k samples from the start edge: the shift register holds the sampled levels LSB first, the weight is 2^k (in 24 bits), the accumulator is seed + ones seen (in 8 bits), and the count is reduced by k. |
| RxEngine.SampleStep | etpu/_etpu_set/etec_uart_rx.c:185-188 | One sample extends that description by one level. |
| RxEngine.ReceivedWord | etpu/_etpu_set/etec_uart_rx.c:107-133 | After all data and parity samples the count is 0. The stored data is the data levels' value, which is below 2^bit_count, so a parity bit never reaches the data. There is a framing error iff the stop level is low. There is a parity error iff parity is enabled and parity_select + the ones received is odd. |
| RxEngine.ParityOfByte | etpu/_etpu_set/etec_uart_rx.c:186 | Keeping the accumulator in 8 bits preserves its parity. |
| RxEngine.LowBitsOfSamples | etpu/_etpu_set/etec_uart_rx.c:133 | Masking with 2^n − 1 keeps exactly the first n samples, even with a parity sample above them. |
| RxEngine.BandStep | etpu/_etpu_set/etec_uart_rx.c:166-173 | An occupancy strictly between resume and halt changes neither hysteresis condition. |
| RxEngine.RtsHysteresis | etpu/_etpu_set/etec_uart_rx.c:194-215 | With resume < halt, after any series of checks RTS is high iff either (a) some check saw occupancy ≥ halt and no later check saw ≤ resume, or (b) RTS started high and no check saw ≤ resume. |
| TxEngine.LoadWord | etpu/_etpu_set/etec_uart_tx.c:138-142 | The loaded shift register is below 2^24 and keeps the word's low bit_count bits. |
| TxEngine.BitLevel | etpu/_etpu_set/etec_uart_tx.c:184-212 | The level of the next match: the low shift bit during data, the accumulator's parity (high when odd) at the parity bit, high at the stop bit. Its contract is stated by DataPhase and StopPhase. |
| TxEngine.EndsFrame | etpu/_etpu_set/etec_uart_tx.c:184-203 | A bit that ends the frame is driven high, and comes only at count ≤ 0, and not at count 0 when parity is enabled. |
| TxEngine.BitStep | etpu/_etpu_set/etec_uart_tx.c:205-214 | The count drops by one and the shift register shifts right by one. The accumulator's parity flips exactly when a data bit is driven high. |
| TxEngine.DataPhase | etpu/_etpu_set/etec_uart_tx.c:205-215 | While the count is positive, the matches send the low bits of the shift register LSB first, never end the frame, and add the ones sent to the accumulator (in 8 bits). |
| TxEngine.StopPhase | etpu/_etpu_set/etec_uart_tx.c:184-204 | At count 0: the parity bit (high iff the accumulator is odd) if enabled, then the stop level high. The frame ends at the stop bit and not before. |
| TxEngine.TransmitFrame | etpu/_etpu_set/etec_uart_tx.c:138-219 | From a loaded word, the bit matches drive exactly the reference frame: the data bits LSB first, the parity bit if enabled, then stop high. FLAG0 is cleared at its last bit and not before. |
| TxEngine.ParityMeaning | etpu/_etpu_set/etec_uart_tx.c:194-197 | The parity bit makes data ones + parity bit even for PARITY_EVEN and odd for PARITY_ODD. |
| Loopback.SampleInstants | etpu/_etpu_set/etec_uart_rx.c:98 | With bit_time ≥ 2, the k-th sample falls strictly inside the k-th bit after the start bit, so it reads that bit's level. |
| Loopback.SamplesAreLevels | etpu/_etpu_set/etec_uart_rx.c:189 | The receiver's samples are exactly the levels the transmitter drove. |
| Loopback.StopSampleBeforeNextStart | etpu/_etpu_set/etec_uart_tx.c:107-109 | The stop sample is floor(bit_time/2) into the stop bit. It comes before the next start bit iff that half bit is shorter than stop_time. |
| Loopback.FrameData | etpu/_etpu_set/etec_uart_tx.c:142 | The data bits of the 24-bit read of a word are the word's value mod 2^bit_count. |
| Loopback.ReceiveFrame | etpu/_etpu_set/etec_uart_rx.c:122-133 | Receiving a reference frame stores (0, word mod 2^bit_count). |
| Loopback.RoundTrip | main.c:180-184 | A word framed by the transmitter and sampled by the receiver from its start edge comes back with no error flags and data = word mod 2^bit_count, for every parity selection. |
| Ring.Slot | etpu/uart/etpu_uart.c:221-226 | A slot k places after base, wrapping at the end, stays inside the buffer. |
| Ring.Next | etpu/_etpu_set/etec_uart_rx.c:137-142 | The index after i, wrapping end to start, stays inside the buffer. |
| Ring.Used | etpu/_etpu_set/etec_uart_rx.c:152-156 | Occupancy (push − pop, plus size when negative) is below the size. |
| Ring.Contents | etpu/uart/etpu_uart.c:257-262 | The queued words, oldest first. The length is the occupancy, and the k-th word is the slot k after pop. |
| Ring.EmptyContents | etpu/_etpu_set/etec_uart_rx.c:50 | pop == push holds no words. |
| Ring.EmptyAndFull | etpu/uart/etpu_uart.c:213-216 | Occupancy 0 iff push == pop. Full (size − 1 words) iff Next(push) == pop. |
| Ring.WriteFreeSlot | etpu/_etpu_set/etec_uart_rx.c:131-148 | Writing the reserved slot at push leaves every queued word unchanged, so an overrun never corrupts the FIFO. |
| Ring.PushWord | etpu/_etpu_set/etec_uart_rx.c:131-149 | Writing at push, then either keeping push (full: contents unchanged) or advancing it (contents + [word], occupancy + 1). |
| Ring.WriteAfterPush | etpu/uart/etpu_uart.c:219-227 | Writing w words into the free slots after push and advancing push by w appends exactly those words. |
| Ring.ReadFromPop | etpu/uart/etpu_uart.c:257-263 | Advancing pop by c leaves the rest of the queue in order. |
| Ring.ByteOccupancy | etpu/uart/etpu_uart.c:134-137 | The byte occupancy of the engine side is 4 × the word occupancy. The host's `>> 2` occupancy equals the word occupancy. |
| HostFifo.TransmitData | etpu/uart/etpu_uart.c:198-230 | Returns min(request, size − 1 − used). Contents = old contents + the first accepted words. Push = Slot(push, accepted). Pop and every other slot are unchanged. Occupancy stays below the size. |
| HostFifo.WriteWords | etpu/uart/etpu_uart.c:219-226 | The wrapping copy loop: word k lands in the slot k after start. The end index is Slot(start, count). No other slot changes. |
| HostFifo.ReceiveData | etpu/uart/etpu_uart.c:232-276 | Reads min(occupancy, buffer size) words, at least 0, oldest first. Pop advances by that many with wrap and push is unchanged. The remaining contents are the rest. An RTS update request is posted when an RX channel exists. The overrun flag is reported only on request, and cleared only if it was non-zero. |
| HostFifo.TransmitFifoStatus | etpu/uart/etpu_uart.c:278-294 | Reports the TX size and the used words. Used < size, used = number of queued words, 0 iff empty, size − 1 iff full. |
| HostFifo.ReceiveFifoStatus | etpu/uart/etpu_uart.c:296-312 | The same for the RX FIFO. |
| HostInit.Low24 | etpu/uart/etpu_uart.c:123 | A uint32 stored into a 24-bit frame field is below 2^24. |
| HostInit.Int24 | etpu/uart/etpu_uart.c:126 | A value read back as int24 lies in [−2^23, 2^23). |
| HostInit.Bytes | etpu/uart/etpu_uart.c:126-137 | A word count × 4 stored in an int24 byte field equals 4 × the count whenever that is below 2^23. |
| HostInit.Init | etpu/uart/etpu_uart.c:61-153 | Init fails iff neither the RX nor the TX channel is given. Otherwise each direction is present iff its channel is given, parity is enabled iff parity_select is EVEN or ODD (below PARITY_NONE), and parity_select is stored as given. |
| HostInit.FeatureChannels | etpu/uart/etpu_uart.c:119-121 | A CTS, RTS or TXE channel stored as int8 is enabled (≥ 0) iff the instance gives one (≠ 0xff), for channels 0-95. |
| HostInit.BitTicks | etpu/uart/etpu_uart.c:122 | bit_time = timer_freq / baud_rate_hz in integer division; InitTiming states that it is the floor. |
| HostInit.HalfBits | etpu/uart/etpu_uart.c:124-125 | Half of bit_time × half_bit_count in uint32 arithmetic is below 2^31 and, when the product fits 32 bits, is the product halved and rounded down. |
| HostInit.InitTiming | etpu/uart/etpu_uart.c:122-125 | Without truncation: bit_time = floor(timer_freq / baud), stop_time = floor(bit_time × half_bits / 2), post_delay = floor(bit_time × txe_half_bits / 2). |
| HostInit.HalfBitsExact | etpu/uart/etpu_uart.c:124 | Half of bit_time × half_bits, rounded down, is stored exactly in the int24 field when the product is below 2^24. |
| HostInit.InitValid | etpu/uart/etpu_uart.c:117-118 | With 1-23 data bits and non-empty FIFOs whose byte size is below 2^23, init yields a configuration the threads run on, with bit_count as given. |
| HostInit.InitThresholds | etpu/uart/etpu_uart.c:134-137 | Each of the four byte thresholds in the frame is exactly 4 × its word threshold whenever that is below 2^23. |
| HostInit.MaxWordBytes | etpu/uart/etpu_uart.c:136 | 0xFFFF_FFFF words × 4, truncated to uint32 and stored in an int24 field, reads back as −4 bytes. |
| HostInit.HugeHaltThresholdWraps | etpu/uart/etpu_uart.c:136 | With an RX channel, a halt threshold of 0xFFFF_FFFF words is stored as −4 bytes, so every push reaches it and RTS is raised whatever the resume threshold. |

## Left out

- Register programming (TBSA, PDCM, IPAC/OPAC codes, MRL, MTD, TDL, LSR, CR/SCR/HSRR writes, channel disable) is modelled as abstract fields: pin levels, edge detection, pending match, match enable, interrupt, host service request.
- Entry-table dispatch is not modelled. An RX event is a direct call of the thread method. A TX match is `OnTxMatch`, where FLAG0 selects between TransmitBit and TransmitCheck.
- The timer-frequency selection from the engine globals (etpu_uart.c:21-58) is not modelled; `Init` takes timer_freq as a parameter.
- `fs_etpu_malloc_ext`, its error return, the CPBA reuse path, the `& 0x3fff` address masking and the `>> 3` CR encoding are hardware memory management and are not modelled.
- The 24-bit wrap-around of `erta` and the match times is not modelled; times are unbounded integers.
- The host and the two engines run concurrently on the shared frame. Each thread and each host call is one atomic step here, and interleavings inside a call are not modelled.
- main.c is a simulator test harness. It is used only as the statement of the loopback property.
- The bitfield layout of the RX data word is not modelled. An RX FIFO entry is the pair (error flags, data). A TX word is a natural number, and the transmitter reads its low 24 bits.
- The host addresses FIFOs through byte pointers. Here the frame's pointers are word indices, and `Ring.ByteOccupancy` relates the two.
- Channel.ChannelFrame.constructor: the pointers start at word index 0, the buffer start. In the source the zeroed frame's pointers are address 0, outside the FIFO, until Init_RX and Init_TX set them to the buffer start; a host call such as TransmitData made before Init_TX writes outside the FIFO there, and the model does not capture that window.
- A FIFO of 0 words is not modelled. `Config.Valid` asks for at least one word in each FIFO, so the model has no channel frame for an RX-only or TX-only UART that leaves the unused FIFO unallocated (etpu/uart/etpu_uart.c:95, :101). In the source the present direction runs normally, and the host calls on the empty side still return (etpu/uart/etpu_uart.c:215-216, 290-291, 308-309): transmit_data returns min(request, −1), and fifo_status reports size 0 and used 0. The model promises nothing about either.
- HostInit.Init: requires baud_rate_hz > 0. The source divides by it without a check (etpu/uart/etpu_uart.c:122), so a zero baud rate is a division by zero there, which has no defined result to model.
- FIFOs of 2^21 words or more, whose int24 byte size and end pointer would wrap, are not modelled: `Config.Valid` bounds 4 × size below 2^23. Thresholds are not bounded and wrap as the frame stores them.
- HostFifo.ReceiveData: the caller's buffer is the returned sequence, and the status out-pointer is the `wantStatus` flag with an `Option` result. Words past `readCnt` in the caller's buffer are not modelled.
- The TCR1 and TCR2 variants of each init thread share one method (`InitRx`, `InitTx`) with the timer as a parameter.
- Methods whose contracts speak of `old` state (the thread methods and the host FIFO methods) are stated against the specification functions of RxEngine, TxEngine and Ring. The properties of a whole frame are lemmas on those functions rather than on sequences of method calls.
