/**
 * The host side of the two FIFOs: the bounded push into the TX ring, the pop
 * from the RX ring with the read-and-clear of the overrun flag, and the two
 * occupancy reports. Each call is one atomic step on the shared channel frame.
 * The FIFO pointers are word indices; the host's `(p - start) >> 2` and
 * `p >> 2` conversions give the same indices (Ring.ByteOccupancy).
 */
module HostFifo {
  import opened UartTypes
  import opened Ring
  import opened Channel

  /** What a fifo_status call reports: the size in words and the words queued. */
  datatype FifoStatus = FifoStatus(size: nat, used: nat)

  /**
   * etpu_uart_transmit_data: accept as many of the first requestCnt words of
   * data as fit without reaching pop (the ring keeps one slot empty), write
   * them in order from the push index on, wrapping at the end of the buffer,
   * publish the new push index, and return how many were accepted.
   */
  method TransmitData(f: ChannelFrame, data: seq<Word32>, requestCnt: int) returns (written: int)
    requires f.Valid() && requestCnt <= |data|
    modifies f`txPush, f.txBuf
    ensures f.Valid()
    ensures written == Min(requestCnt, f.cfg.txSize - 1 - old(f.TxUsed()))
    ensures f.txPop == old(f.txPop)
    ensures f.txPush == Slot(old(f.txPush), Max(written, 0), f.txBuf.Length)
    ensures f.TxContents() == old(f.TxContents()) + data[..Max(written, 0)]
    ensures f.TxUsed() == old(f.TxUsed()) + Max(written, 0) < f.cfg.txSize
    ensures forall j :: 0 <= j < f.txBuf.Length && Used(j, old(f.txPush), f.txBuf.Length) >= Max(written, 0)
                        ==> f.txBuf[j] == old(f.txBuf[j])
  {
    var n := f.cfg.txSize;
    ghost var buf0 := f.txBuf[..];
    var popIndex := f.txPop;
    var pushIndex := f.txPush;
    var wordsUsed: int := pushIndex as int - popIndex as int;
    if wordsUsed < 0 {
      wordsUsed := n + wordsUsed;
    }
    var wordsAvailable := n - wordsUsed - 1;
    written := if requestCnt < wordsAvailable then requestCnt else wordsAvailable;
    var pushAddr := WriteWords(f.txBuf, pushIndex, data, written);
    f.txPush := pushAddr;
    WriteAfterPush(buf0, f.txBuf[..], popIndex, pushIndex, data, Max(written, 0));
    SlotShift(popIndex, wordsUsed, Max(written, 0), n);
    UsedSlot(popIndex, wordsUsed + Max(written, 0), n);
  }

  /** The copy loop of etpu_uart_transmit_data: write the first count words
      of data into buf from index start on, wrapping from the end back to the
      start, and return the index after the last one written. Slots outside
      the count written are left as they were. */
  method WriteWords(buf: array<Word32>, start: nat, data: seq<Word32>, count: int) returns (pushAddr: nat)
    requires start < buf.Length && count < buf.Length && count <= |data|
    modifies buf
    ensures pushAddr == Slot(start, Max(count, 0), buf.Length)
    ensures forall k :: 0 <= k < count ==> buf[Slot(start, k, buf.Length)] == data[k]
    ensures forall j :: 0 <= j < buf.Length && Used(j, start, buf.Length) >= Max(count, 0) ==> buf[j] == old(buf[j])
  {
    var n := buf.Length;
    pushAddr := start;
    var i := 0;
    while i < count
      invariant 0 <= i <= Max(count, 0)
      invariant pushAddr == Slot(start, i, n)
      invariant forall k :: 0 <= k < i ==> buf[Slot(start, k, n)] == data[k]
      invariant forall j :: 0 <= j < n && Used(j, start, n) >= i ==> buf[j] == old(buf[j])
    {
      UsedSlot(start, i, n);
      forall k | 0 <= k < i
        ensures Slot(start, k, n) != pushAddr
      {
        UsedSlot(start, k, n);
      }
      buf[pushAddr] := data[i];
      pushAddr := pushAddr + 1;
      if pushAddr == n {
        pushAddr := 0;
      }
      i := i + 1;
    }
  }

  /**
   * etpu_uart_receive_data: copy up to bufferSize queued words, oldest first,
   * into the caller's buffer (the returned sequence), publish the new pop
   * index, ask the RX channel to re-evaluate RTS, and, when the caller asks
   * for it, report the overrun flag and clear it if it was set.
   */
  method ReceiveData(f: ChannelFrame, bufferSize: int, wantStatus: bool)
    returns (words: seq<RxWord>, readCnt: int, status: Option<nat>)
    requires f.Valid()
    modifies f`rxPop, f`rxHsr, f`overrunError
    ensures f.Valid()
    ensures readCnt == Max(0, Min(old(f.RxUsed()), bufferSize))
    ensures words == old(f.RxContents())[..readCnt]
    ensures f.rxPush == old(f.rxPush) && f.rxPop == Slot(old(f.rxPop), readCnt, f.rxBuf.Length)
    ensures f.RxContents() == old(f.RxContents())[readCnt..]
    ensures f.RxUsed() == old(f.RxUsed()) - readCnt
    ensures f.rxHsr == (if f.cfg.rxPresent then RX_UPDATE_RTS_HSR else old(f.rxHsr))
    ensures status == (if wantStatus then Some(old(f.overrunError)) else None)
    ensures f.overrunError == (if wantStatus && old(f.overrunError) != 0 then 0 else old(f.overrunError))
  {
    var n := f.cfg.rxSize;
    ghost var queued := f.RxContents();
    var popAddr := f.rxPop;
    var pushAddr := f.rxPush;
    ghost var u := Used(pushAddr, popAddr, n);
    ghost var pop0 := popAddr;
    assert pushAddr == Slot(pop0, u, n);
    readCnt := 0;
    words := [];
    while popAddr != pushAddr && readCnt < bufferSize
      invariant 0 <= readCnt <= u
      invariant readCnt == 0 || readCnt <= bufferSize
      invariant popAddr == Slot(pop0, readCnt, n)
      invariant words == queued[..readCnt]
      decreases u - readCnt
    {
      assert readCnt < u;
      words := words + [f.rxBuf[popAddr]];
      readCnt := readCnt + 1;
      popAddr := popAddr + 1;
      if popAddr == n {
        popAddr := 0;
      }
    }
    if popAddr == pushAddr {
      UsedSlot(pop0, readCnt, n);
    }
    f.rxPop := popAddr;
    ReadFromPop(f.rxBuf[..], pop0, pushAddr, readCnt);
    if f.cfg.rxPresent {
      f.rxHsr := RX_UPDATE_RTS_HSR;
    }
    status := None;
    if wantStatus {
      status := Some(f.overrunError);
      if status.value != 0 {
        f.overrunError := 0;
      }
    }
  }

  /** etpu_uart_transmit_fifo_status: the TX FIFO size and occupancy in words. */
  function TransmitFifoStatus(f: ChannelFrame): (s: FifoStatus)
    requires f.Valid()
    reads f, f.txBuf
    ensures s.size == f.cfg.txSize && s.used < s.size
    ensures s.used == |f.TxContents()|
    ensures s.used == 0 <==> f.txPush == f.txPop
    ensures s.used == s.size - 1 <==> Next(f.txPush, s.size) == f.txPop
  {
    EmptyAndFull(f.txPush, f.txPop, f.cfg.txSize);
    var wordsUsed := f.txPush as int - f.txPop as int;
    FifoStatus(f.cfg.txSize, if wordsUsed < 0 then f.cfg.txSize + wordsUsed else wordsUsed)
  }

  /** etpu_uart_receive_fifo_status: the RX FIFO size and occupancy in words. */
  function ReceiveFifoStatus(f: ChannelFrame): (s: FifoStatus)
    requires f.Valid()
    reads f, f.rxBuf
    ensures s.size == f.cfg.rxSize && s.used < s.size
    ensures s.used == |f.RxContents()|
    ensures s.used == 0 <==> f.rxPush == f.rxPop
    ensures s.used == s.size - 1 <==> Next(f.rxPush, s.size) == f.rxPop
  {
    EmptyAndFull(f.rxPush, f.rxPop, f.cfg.rxSize);
    var wordsUsed := f.rxPush as int - f.rxPop as int;
    FifoStatus(f.cfg.rxSize, if wordsUsed < 0 then f.cfg.rxSize + wordsUsed else wordsUsed)
  }
}
