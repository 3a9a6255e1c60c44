/**
 * The ring FIFOs of the channel frame, viewed as word indices into a buffer of
 * n words. Both the eTPU threads and the host driver keep one slot empty, so
 * push == pop means empty and Next(push) == pop means full. The frame itself
 * stores byte pointers; ByteOccupancy shows that counting in words is the same.
 */
module Ring {

  /** The index k places after base, wrapping from the end back to the start. */
  function Slot(base: nat, k: nat, n: nat): (r: nat)
    requires base < n && k <= n
    ensures r < n
  {
    if base + k < n then base + k else base + k - n
  }

  /** `p + 1`, then back to the start when the end is reached. */
  function Next(i: nat, n: nat): (r: nat)
    requires i < n
    ensures r < n
  {
    if i + 1 == n then 0 else i + 1
  }

  /** Occupancy: push - pop, plus the size when that is negative; that is,
      how far push lies after pop going round the ring. */
  function Used(push: nat, pop: nat, n: nat): (r: nat)
    requires push < n && pop < n
    ensures r < n
  {
    if push >= pop then push - pop else push + n - pop
  }

  /** The queued words, oldest first. */
  function Contents<T>(buf: seq<T>, pop: nat, push: nat): (c: seq<T>)
    requires pop < |buf| && push < |buf|
    ensures |c| == Used(push, pop, |buf|)
    ensures forall k :: 0 <= k < |c| ==> c[k] == buf[Slot(pop, k, |buf|)]
  {
    seq(Used(push, pop, |buf|), k requires 0 <= k < Used(push, pop, |buf|) => buf[Slot(pop, k, |buf|)])
  }

  /** pop == push is the empty queue. */
  lemma EmptyContents<T>(buf: seq<T>, i: nat)
    requires i < |buf|
    ensures Contents(buf, i, i) == []
  {
  }

  lemma NextIsSlot(i: nat, n: nat)
    requires i < n
    ensures Next(i, n) == Slot(i, 1, n)
  {
  }

  lemma UsedSlot(pop: nat, k: nat, n: nat)
    requires pop < n && k < n
    ensures Used(Slot(pop, k, n), pop, n) == k
  {
  }

  lemma SlotShift(base: nat, a: nat, b: nat, n: nat)
    requires base < n && a + b < n
    ensures Slot(Slot(base, a, n), b, n) == Slot(base, a + b, n)
  {
  }

  /** The ring is empty exactly when the two indices agree, and full exactly
      when the next push index would meet pop; then it holds n - 1 words. */
  lemma EmptyAndFull(push: nat, pop: nat, n: nat)
    requires push < n && pop < n
    ensures Used(push, pop, n) == 0 <==> push == pop
    ensures Next(push, n) == pop <==> Used(push, pop, n) == n - 1
  {
  }

  /** Writing the slot at push (the reserved empty one) changes no queued word. */
  lemma WriteFreeSlot<T>(buf: seq<T>, pop: nat, push: nat, x: T)
    requires pop < |buf| && push < |buf|
    ensures Contents(buf[push := x], pop, push) == Contents(buf, pop, push)
  {
    var n := |buf|;
    var c, c' := Contents(buf, pop, push), Contents(buf[push := x], pop, push);
    forall k | 0 <= k < |c| ensures c'[k] == c[k] {
      SlotShift(pop, k, 0, n);
      assert Slot(pop, k, n) != push;
    }
  }

  /** Writing w words from push on into free slots, and advancing push past
      them, appends exactly those words and keeps the queued ones. */
  lemma {:induction false} WriteAfterPush<T>(buf: seq<T>, buf': seq<T>, pop: nat, push: nat, data: seq<T>, w: nat)
    requires pop < |buf| && push < |buf| && |buf'| == |buf|
    requires w <= |data| && Used(push, pop, |buf|) + w < |buf|
    requires forall k :: 0 <= k < w ==> buf'[Slot(push, k, |buf|)] == data[k]
    requires forall j :: 0 <= j < |buf| && Used(j, push, |buf|) >= w ==> buf'[j] == buf[j]
    ensures Contents(buf', pop, Slot(push, w, |buf|)) == Contents(buf, pop, push) + data[..w]
  {
    var n := |buf|;
    var u := Used(push, pop, n);
    assert push == Slot(pop, u, n);
    var c := Contents(buf, pop, push);
    var c' := Contents(buf', pop, Slot(push, w, n));
    SlotShift(pop, u, w, n);
    UsedSlot(pop, u + w, n);
    forall k | 0 <= k < |c'| ensures c'[k] == (c + data[..w])[k] {
      if k < u {
        assert Used(Slot(pop, k, n), push, n) == n - u + k;
      } else {
        SlotShift(pop, u, k - u, n);
      }
    }
  }

  /** The receiver's push: the word is written into the slot at push. When
      the next index would meet pop, the queue is unchanged (the word lands in
      the reserved slot and push stays); otherwise advancing push appends the
      word and the occupancy grows by one. */
  lemma PushWord<T>(buf: seq<T>, pop: nat, push: nat, x: T)
    requires pop < |buf| && push < |buf|
    ensures Next(push, |buf|) == pop ==>
              Contents(buf[push := x], pop, push) == Contents(buf, pop, push)
    ensures Next(push, |buf|) != pop ==>
              Contents(buf[push := x], pop, Next(push, |buf|)) == Contents(buf, pop, push) + [x]
              && Used(Next(push, |buf|), pop, |buf|) == Used(push, pop, |buf|) + 1
  {
    var n := |buf|;
    var buf' := buf[push := x];
    if Next(push, n) == pop {
      WriteFreeSlot(buf, pop, push, x);
    } else {
      EmptyAndFull(push, pop, n);
      NextIsSlot(push, n);
      forall j | 0 <= j < n && Used(j, push, n) >= 1
        ensures buf'[j] == buf[j]
      {
      }
      WriteAfterPush(buf, buf', pop, push, [x], 1);
    }
  }

  /** Popping c words leaves the rest of the queue in order. */
  lemma ReadFromPop<T>(buf: seq<T>, pop: nat, push: nat, c: nat)
    requires pop < |buf| && push < |buf| && c <= Used(push, pop, |buf|)
    ensures Contents(buf, Slot(pop, c, |buf|), push) == Contents(buf, pop, push)[c..]
  {
    var n := |buf|;
    var u := Used(push, pop, n);
    assert push == Slot(pop, u, n);
    SlotShift(pop, c, u - c, n);
    UsedSlot(Slot(pop, c, n), u - c, n);
    var d := Contents(buf, Slot(pop, c, n), push);
    forall k | 0 <= k < |d| ensures d[k] == Contents(buf, pop, push)[c + k] {
      SlotShift(pop, c, k, n);
    }
  }

  /** Occupancy computed from byte pointers start + 4i (the eTPU side) or from
      absolute pointers shifted right by two (the host side) is four times, or
      exactly, the occupancy in words. */
  lemma ByteOccupancy(push: nat, pop: nat, n: nat, start: nat)
    requires push < n && pop < n && start % 4 == 0
    ensures var d := (start + 4 * push) - (start + 4 * pop);
            (if d < 0 then d + 4 * n else d) == 4 * Used(push, pop, n)
    ensures var d := (start + 4 * push) / 4 - (start + 4 * pop) / 4;
            (if d < 0 then d + n else d) == Used(push, pop, n)
  {
    assert (start + 4 * push) / 4 == start / 4 + push;
    assert (start + 4 * pop) / 4 == start / 4 + pop;
  }
}
