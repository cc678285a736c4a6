/** The circular buffer of ring_buffer.c and the queue it stands for. Sums and products that the C code takes on 32 bits
    are taken on 32 bits here, but for the indices into a caller's memory, which stays below 2^32 bytes. */
module RingBuffers {
  import opened Bytes

  datatype Status = Ok | MemoryError | Error | Empty | Full

  // ---- The queue held by a block of memory ----

  function Min(a: nat, b: nat): nat { if a < b then a else b }

  /** A position that ran past the end of the memory block, brought back by one subtraction. */
  function Wrap(max: nat, p: nat): nat { if p >= max then p - max else p }

  /** Where slot `p` starts: Offset(size, p), by repeated addition. */
  function Offset(size: nat, p: nat): nat {
    if p == 0 then 0 else Offset(size, p - 1) + size
  }

  /** The bytes of slot `p` when every slot has `size` bytes. */
  function Slot(mem: seq<byte>, size: nat, p: nat): seq<byte> {
    if Offset(size, p) + size <= |mem| then mem[Offset(size, p)..Offset(size, p) + size] else []
  }

  /** The `n` entries starting at slot `pos`, oldest first. */
  function Queue(mem: seq<byte>, size: nat, max: nat, pos: nat, n: nat): (q: seq<seq<byte>>)
    ensures |q| == n
  {
    if n == 0 then [] else Queue(mem, size, max, pos, n - 1) + [Slot(mem, size, Wrap(max, pos + n - 1))]
  }

  /** The first `n` entries of a caller's buffer, cut every `size` bytes. */
  function Cut(buff: seq<byte>, size: nat, n: nat): (q: seq<seq<byte>>)
    ensures |q| == n
  {
    if n == 0 then [] else Cut(buff, size, n - 1) + [Slot(buff, size, n - 1)]
  }

  lemma {:induction false} QueueAt(mem: seq<byte>, size: nat, max: nat, pos: nat, n: nat, k: nat)
    requires k < n
    ensures Queue(mem, size, max, pos, n)[k] == Slot(mem, size, Wrap(max, pos + k))
  {
    if k < n - 1 { QueueAt(mem, size, max, pos, n - 1, k); }
  }

  lemma {:induction false} OffsetIsProduct(size: nat, p: nat)
    ensures Offset(size, p) == p * size
  {
    if p > 0 { OffsetIsProduct(size, p - 1); }
  }

  /** Slots do not overlap. */
  lemma {:induction false} SlotOrder(size: nat, p: nat, q: nat)
    requires p < q
    ensures Offset(size, p) + size <= Offset(size, q)
  {
    if p + 1 < q { SlotOrder(size, p, q - 1); }
  }

  /** Memory after `s` was copied to offset `at`. */
  function Overwrite(mem: seq<byte>, at: nat, s: seq<byte>): (m: seq<byte>)
    requires at + |s| <= |mem|
    ensures |m| == |mem| && m[at..at + |s|] == s
  {
    mem[..at] + s + mem[at + |s|..]
  }

  /** A byte copy loop. */
  method CopyBytes(dest: array<byte>, at: nat, src: seq<byte>, from: nat, n: nat)
    requires at + n <= dest.Length && from + n <= |src|
    modifies dest
    ensures dest[..] == Overwrite(old(dest[..]), at, src[from..from + n])
  {
    ghost var before := dest[..];
    for i := 0 to n
      invariant dest[..] == Overwrite(before, at, src[from..from + i])
    {
      dest[at + i] := src[from + i];
    }
  }

  lemma OverwriteOnward(mem: seq<byte>, at: nat, s: seq<byte>, t: seq<byte>)
    requires at + |s| + |t| <= |mem|
    ensures Overwrite(Overwrite(mem, at, s), at + |s|, t) == Overwrite(mem, at, s + t)
  {
  }

  /** Copying into slot `p` changes the front of that slot. */
  lemma OverwriteSlot(mem: seq<byte>, size: nat, p: nat, s: seq<byte>)
    requires Offset(size, p) + size <= |mem| && |s| <= size
    ensures |Slot(mem, size, p)| == size
    ensures Slot(Overwrite(mem, Offset(size, p), s), size, p) == s + Slot(mem, size, p)[|s|..]
  {
    var base := Offset(size, p);
    assert Slot(Overwrite(mem, base, s), size, p) == Overwrite(mem, base, s)[base..base + size];
  }

  /** ... and no other. */
  lemma OverwriteOther(mem: seq<byte>, size: nat, p: nat, s: seq<byte>, q: nat)
    requires Offset(size, p) + size <= |mem| && |s| <= size && q != p
    ensures Slot(Overwrite(mem, Offset(size, p), s), size, q) == Slot(mem, size, q)
  {
    if q < p { SlotOrder(size, q, p); } else { SlotOrder(size, p, q); }
    var base, other := Offset(size, p), Offset(size, q);
    assert base + size <= other || other + size <= base;
  }

  /** Copying into a slot that holds no entry leaves the queue as it was. */
  lemma {:induction false} QueueKept(mem: seq<byte>, size: nat, max: nat, pos: nat, n: nat, free: nat, s: seq<byte>)
    requires pos < max && n <= free < max && |s| <= size
    requires Offset(size, Wrap(max, pos + free)) + size <= |mem|
    ensures Queue(Overwrite(mem, Offset(size, Wrap(max, pos + free)), s), size, max, pos, n)
         == Queue(mem, size, max, pos, n)
  {
    if n > 0 {
      QueueKept(mem, size, max, pos, n - 1, free, s);
      OverwriteOther(mem, size, Wrap(max, pos + free), s, Wrap(max, pos + n - 1));
    }
  }

  /** Filling the first free slot appends one entry to the queue. */
  lemma FillAppends(mem: seq<byte>, size: nat, max: nat, pos: nat, n: nat, s: seq<byte>)
    requires pos < max && n < max && |mem| == Offset(size, max) && |s| <= size
    ensures Offset(size, Wrap(max, pos + n)) + size <= |mem|
    ensures
      Queue(Overwrite(mem, Offset(size, Wrap(max, pos + n)), s), size, max, pos, n + 1)
      == Queue(mem, size, max, pos, n) + [s + Slot(mem, size, Wrap(max, pos + n))[|s|..]]
  {
    var at := Wrap(max, pos + n);
    SlotOrder(size, at, max);
    OverwriteSlot(mem, size, at, s);
    QueueKept(mem, size, max, pos, n, n, s);
  }

  /** Moving the read position by one slot drops the oldest entry. */
  lemma {:induction false} StepDrops(mem: seq<byte>, size: nat, max: nat, pos: nat, n: nat)
    requires pos < max && 0 < n <= max
    ensures Queue(mem, size, max, Wrap(max, pos + 1), n - 1) == Queue(mem, size, max, pos, n)[1..]
  {
    if n > 1 {
      StepDrops(mem, size, max, pos, n - 1);
      assert Wrap(max, Wrap(max, pos + 1) + n - 2) == Wrap(max, pos + n - 1);
    }
  }

  /** Moving it by `k` slots drops the `k` oldest. */
  lemma {:induction false} AdvanceDrops(mem: seq<byte>, size: nat, max: nat, pos: nat, n: nat, k: nat)
    requires (pos < max || pos == max == 0) && k <= n <= max
    ensures Queue(mem, size, max, Wrap(max, pos + k), n - k) == Queue(mem, size, max, pos, n)[k..]
  {
    if k > 0 {
      AdvanceDrops(mem, size, max, pos, n, k - 1);
      StepDrops(mem, size, max, Wrap(max, pos + k - 1), n - k + 1);
    }
  }

  /** The slot the C code computes for position + count, in 32-bit arithmetic. */
  function WriteSlot(max: nat, pos: nat, n: nat): nat {
    Wrap(max, Low32(pos + n))
  }

  /** The 32-bit sum picks the slot after the newest entry for every state of the buffer exactly
      when the buffer has at most 2^31 entries. */
  lemma WriteSlotExact(max: nat)
    requires 0 < max < 0x1_0000_0000
    ensures (forall pos, n :: 0 <= pos < max && 0 <= n < max ==> WriteSlot(max, pos, n) == Wrap(max, pos + n))
       <==> max <= 0x8000_0000
  {
    if max > 0x8000_0000 {
      assert WriteSlot(max, max - 1, max - 1) != Wrap(max, max - 1 + max - 1);
    }
  }

  /** The byte index the copy loops compute, on 32 bits, for byte `i` of slot `p`. */
  function ByteIndex(size: nat, p: nat, i: nat): nat { Low32(Offset(size, p) + i) }

  lemma ByteIndexInside(size: nat, max: nat, p: nat, i: nat)
    requires Offset(size, max) <= 0x1_0000_0000 && p < max && i < size
    ensures ByteIndex(size, p, i) == Offset(size, p) + i < Offset(size, max)
  {
    SlotOrder(size, p, max);
  }

  /** It is the index meant, for every byte of every slot, exactly when the buffer has at most 2^32 bytes. */
  lemma ByteIndexExact(size: nat, max: nat)
    requires size > 0 && max > 0
    ensures (forall p, i :: 0 <= p < max && 0 <= i < size ==> ByteIndex(size, p, i) == Offset(size, p) + i)
       <==> Offset(size, max) <= 0x1_0000_0000
  {
    if Offset(size, max) <= 0x1_0000_0000 {
      forall p, i | 0 <= p < max && 0 <= i < size ensures ByteIndex(size, p, i) == Offset(size, p) + i {
        ByteIndexInside(size, max, p, i);
      }
    } else {
      assert Offset(size, max - 1) + (size - 1) == Offset(size, max) - 1;
      assert ByteIndex(size, max - 1, size - 1) != Offset(size, max - 1) + (size - 1);
    }
  }

  /** With 2^31 entries of 4 bytes, slots 0 and 2^30 share their bytes. */
  lemma SlotsShareBytes(i: nat)
    requires i < 4
    ensures ByteIndex(4, 0, i) == ByteIndex(4, 0x4000_0000, i)
  {
    OffsetIsProduct(4, 0x4000_0000);
  }

  /** The lookahead copy tests offset plus count as a 32-bit sum. The test means what it says exactly when the sum
      does not wrap, or wraps to more than the entries there are. */
  lemma LookaheadCheckExact(count: nat, offset: nat, n: nat)
    requires count < 0x1_0000_0000 && offset < 0x1_0000_0000 && n < 0x1_0000_0000
    ensures (Low32(n + offset) > count <==> n + offset > count)
       <==> n + offset < 0x1_0000_0000 || Low32(n + offset) > count
  {
    assert n + offset >= 0x1_0000_0000 ==> n + offset > count;
  }

  /** Likewise for the size test of reading many entries. */
  lemma ReadCheckExact(buffSize: nat, size: nat, n: nat)
    requires buffSize < 0x1_0000_0000
    ensures (buffSize < Low32(Offset(size, n)) <==> buffSize < Offset(size, n))
       <==> Offset(size, n) < 0x1_0000_0000 || buffSize < Low32(Offset(size, n))
  {
    assert Offset(size, n) >= 0x1_0000_0000 ==> buffSize < Offset(size, n);
  }

  /** Every slot the lookahead copy reads lies in the buffer. */
  ghost predicate SlotsInside(max: nat, pos: nat, offset: nat, n: nat) {
    forall k :: offset <= k < offset + n ==> WriteSlot(max, pos, k) < max
  }

  /** What it reads: the slots from `offset` on, by 32-bit sums. */
  function Lookahead(mem: seq<byte>, size: nat, max: nat, pos: nat, offset: nat, n: nat): seq<seq<byte>> {
    if n == 0 then [] else Lookahead(mem, size, max, pos, offset, n - 1) + [Slot(mem, size, WriteSlot(max, pos, offset + n - 1))]
  }

  lemma LookaheadStep(mem: seq<byte>, size: nat, max: nat, pos: nat, offset: nat, n: nat)
    ensures Lookahead(mem, size, max, pos, offset, 0) == []
    ensures Lookahead(mem, size, max, pos, offset, n + 1)
         == Lookahead(mem, size, max, pos, offset, n) + [Slot(mem, size, WriteSlot(max, pos, offset + n))]
  {}

  /** As long as entries are there, these are the entries. */
  lemma {:induction false} LookaheadIsQueue(mem: seq<byte>, size: nat, max: nat, pos: nat, count: nat, offset: nat, n: nat)
    requires max <= 0x8000_0000 && (pos < max || pos == max == 0) && count <= max
    ensures offset + n <= count ==>
              Lookahead(mem, size, max, pos, offset, n) == Queue(mem, size, max, pos, count)[offset..offset + n]
  {
    hide Queue, Slot, Lookahead;
    LookaheadStep(mem, size, max, pos, offset, if n > 0 then n - 1 else 0);
    if n > 0 && offset + n <= count {
      LookaheadIsQueue(mem, size, max, pos, count, offset, n - 1);
      QueueAt(mem, size, max, pos, count, offset + n - 1);
      var q := Queue(mem, size, max, pos, count);
      assert q[offset..offset + n] == q[offset..offset + n - 1] + [q[offset + n - 1]];
    }
  }

  // ---- The buffer ----

  class RingBuffer {
    const entries: array<byte>
    const maxEntries: nat
    const entrySize: nat
    var position: nat
    var count: nat
    var totalWritten: nat
    var totalRead: nat
    var totalOverruns: nat
    /** Entries written, read and flushed since the start, which the 32-bit statistics reduce. */
    ghost var everWritten: nat
    ghost var everRead: nat
    ghost var everFlushed: nat
    ghost var everOverrun: nat

    ghost predicate Valid()
      reads this
    {
      && maxEntries <= 0x8000_0000
      && entries.Length == Offset(entrySize, maxEntries) <= 0x1_0000_0000
      && count <= maxEntries
      && (position < maxEntries || position == maxEntries == 0)
      && totalWritten == Low32(everWritten) && totalRead == Low32(everRead) && totalOverruns == Low32(everOverrun)
      && everWritten == everRead + everFlushed + count
    }

    ghost function Contents(): seq<seq<byte>>
      reads this, entries
    {
      Queue(entries[..], entrySize, maxEntries, position, count)
    }

    /** The bounds are those of `WriteSlotExact` and `ByteIndexExact`. */
    constructor InitStatic(dataBuffer: array<byte>, maxEntries: nat, entrySize: nat)
      requires maxEntries <= 0x8000_0000 && dataBuffer.Length == Offset(entrySize, maxEntries) <= 0x1_0000_0000
      ensures Valid() && entries == dataBuffer
      ensures this.maxEntries == maxEntries && this.entrySize == entrySize
      ensures Contents() == [] && everWritten == everRead == everFlushed == everOverrun == 0
    {
      entries := dataBuffer;
      this.maxEntries := maxEntries;
      this.entrySize := entrySize;
      position, count := 0, 0;
      totalWritten, totalRead, totalOverruns := 0, 0, 0;
      everWritten, everRead, everFlushed, everOverrun := 0, 0, 0, 0;
    }

    method Count() returns (n: nat)
      requires Valid()
      ensures n == |Contents()|
    {
      n := count;
    }

    method RemainingEntries() returns (n: nat)
      requires Valid()
      ensures n + |Contents()| == maxEntries
    {
      n := maxEntries - count;
    }

    method Flush()
      requires Valid()
      modifies this
      ensures Valid() && Contents() == []
      ensures everWritten == old(everWritten) && everRead == old(everRead) && everOverrun == old(everOverrun)
      ensures everFlushed == old(everFlushed) + |old(Contents())|
    {
      everFlushed := everFlushed + count;
      position := 0;
      count := 0;
    }

    /** Copies `n` bytes into slot `p`. */
    method StoreBytes(p: nat, src: seq<byte>, from: nat, n: nat)
      requires Valid() && p < maxEntries && n <= entrySize && from + n <= |src|
      modifies entries
      ensures Offset(entrySize, p) + entrySize <= entries.Length
      ensures entries[..] == Overwrite(old(entries[..]), Offset(entrySize, p), src[from..from + n])
    {
      SlotOrder(entrySize, p, maxEntries);
      ghost var before, base := entries[..], Offset(entrySize, p);
      for i := 0 to n
        invariant entries[..] == Overwrite(before, base, src[from..from + i])
      {
        ByteIndexInside(entrySize, maxEntries, p, i);
        entries[ByteIndex(entrySize, p, i)] := src[from + i];
      }
    }

    /** Copies `n` bytes into the first free slot, then counts it as used. */
    method FillSlot(at: nat, src: seq<byte>, from: nat, n: nat)
      requires Valid() && count < maxEntries && at == Wrap(maxEntries, position + count)
      requires n <= entrySize && from + n <= |src|
      modifies this, entries
      ensures Valid()
      ensures |old(Slot(entries[..], entrySize, at))| == entrySize
      ensures Contents() == old(Contents()) + [src[from..from + n] + old(Slot(entries[..], entrySize, at))[n..]]
      ensures n == entrySize ==> Contents() == old(Contents()) + [src[from..from + n]]
      ensures everWritten == old(everWritten) + 1 && everRead == old(everRead)
      ensures everOverrun == old(everOverrun) && everFlushed == old(everFlushed) && position == old(position)
    {
      hide Slot, Offset, Overwrite, Queue;
      FillAppends(entries[..], entrySize, maxEntries, position, count, src[from..from + n]);
      OverwriteSlot(entries[..], entrySize, at, src[from..from + n]);
      StoreBytes(at, src, from, n);
      assert n == entrySize ==> src[from..from + n] + old(Slot(entries[..], entrySize, at))[n..] == src[from..from + n];
      count := count + 1;
      Low32Add(everWritten, 1);
      totalWritten, everWritten := Low32(totalWritten + 1), everWritten + 1;
    }

    /** Appends one whole entry; every writer below stores its entries this way. */
    method PutEntry(src: seq<byte>, from: nat)
      requires Valid() && count < maxEntries && from + entrySize <= |src|
      modifies this, entries
      ensures Valid()
      ensures Contents() == old(Contents()) + [src[from..from + entrySize]]
      ensures everWritten == old(everWritten) + 1 && everRead == old(everRead)
      ensures everOverrun == old(everOverrun) && everFlushed == old(everFlushed)
    {
      var entryPos := Low32(position + count);
      if entryPos >= maxEntries {
        entryPos := entryPos - maxEntries;
      }
      FillSlot(entryPos, src, from, entrySize);
    }

    method Write(entry: seq<byte>, numBytes: nat) returns (ret: Status)
      requires Valid() && numBytes <= |entry|
      modifies this, entries
      ensures Valid()
      ensures ret == if old(count) == maxEntries then Full
                     else if numBytes > entrySize then MemoryError else Ok
      ensures everRead == old(everRead) && everFlushed == old(everFlushed)
      ensures everOverrun == if ret == Full then old(everOverrun) + 1 else old(everOverrun)
      ensures ret != Ok || numBytes == 0 ==>
                Contents() == old(Contents()) && everWritten == old(everWritten)
      ensures ret == Ok && numBytes > 0 ==>
                everWritten == old(everWritten) + 1 &&
                |Contents()| == |old(Contents())| + 1 && Contents()[..old(count)] == old(Contents()) &&
                |Contents()[old(count)]| == entrySize && Contents()[old(count)][..numBytes] == entry[..numBytes]
      ensures ret == Ok && numBytes == entrySize > 0 ==> Contents() == old(Contents()) + [entry[..numBytes]]
    {
      if count >= maxEntries {
        Low32Add(everOverrun, 1);
        totalOverruns, everOverrun := Low32(totalOverruns + 1), everOverrun + 1;
        return Full;
      }
      if numBytes == 0 {
        return Ok;
      }
      if numBytes > entrySize {
        return MemoryError;
      }
      var entryPos := Low32(position + count);
      if entryPos >= maxEntries {
        entryPos := entryPos - maxEntries;
      }
      FillSlot(entryPos, entry, 0, numBytes);
      assert entry[0..numBytes] == entry[..numBytes];
      return Ok;
    }

    method WriteMulti(entryBuff: seq<byte>, numEntries: nat) returns (ret: Status, numWritten: nat)
      requires Valid() && Offset(entrySize, numEntries) <= |entryBuff|
      modifies this, entries
      ensures Valid()
      ensures numWritten == Min(numEntries, maxEntries - old(count))
      ensures ret == if numWritten == numEntries then Ok else Full
      ensures Contents() == old(Contents()) + Cut(entryBuff, entrySize, numWritten)
      ensures everWritten == old(everWritten) + numWritten
      ensures everOverrun == old(everOverrun) + numEntries - numWritten
      ensures everRead == old(everRead) && everFlushed == old(everFlushed)
    {
      numWritten := 0;
      for i := 0 to numEntries
        invariant Valid() && numWritten == i && count == old(count) + i
        invariant Contents() == old(Contents()) + Cut(entryBuff, entrySize, i)
        invariant everWritten == old(everWritten) + i
        invariant everOverrun == old(everOverrun) && everRead == old(everRead) && everFlushed == old(everFlushed)
      {
        if count >= maxEntries {
          Low32Add(everOverrun, numEntries - i);
          totalOverruns, everOverrun := Low32(totalOverruns + (numEntries - i)), everOverrun + (numEntries - i);
          return Full, numWritten;
        }
        SlotOrder(entrySize, i, numEntries);
        PutEntry(entryBuff, Offset(entrySize, i));
        assert Cut(entryBuff, entrySize, i + 1) == Cut(entryBuff, entrySize, i) + [Slot(entryBuff, entrySize, i)];
        numWritten := numWritten + 1;
      }
      return Ok, numWritten;
    }

    /** Copies slot `p` to `dest[at..]`. */
    method CopyOut(p: nat, dest: array<byte>, at: nat)
      requires Valid() && p < maxEntries && dest != entries && at + entrySize <= dest.Length
      modifies dest
      ensures |Slot(entries[..], entrySize, p)| == entrySize
      ensures dest[..] == Overwrite(old(dest[..]), at, Slot(entries[..], entrySize, p))
    {
      SlotOrder(entrySize, p, maxEntries);
      ghost var before, base := dest[..], Offset(entrySize, p);
      for i := 0 to entrySize
        invariant dest[..] == Overwrite(before, at, entries[base..base + i])
      {
        ByteIndexInside(entrySize, maxEntries, p, i);
        dest[at + i] := entries[ByteIndex(entrySize, p, i)];
      }
    }

    /** Moves the read position over the `n` oldest entries. */
    method Drop(n: nat)
      requires Valid() && n <= count
      modifies this
      ensures Valid() && Contents() == old(Contents())[n..]
      ensures everRead == old(everRead) + n
      ensures everWritten == old(everWritten) && everOverrun == old(everOverrun) && everFlushed == old(everFlushed)
    {
      AdvanceDrops(entries[..], entrySize, maxEntries, position, count, n);
      position := position + n;
      if position >= maxEntries {
        position := position - maxEntries;
      }
      count := count - n;
      Low32Add(everRead, n);
      totalRead, everRead := Low32(totalRead + n), everRead + n;
    }

    /** Copies the oldest entry to `dest[at..]` and drops it. */
    method TakeEntry(dest: array<byte>, at: nat)
      requires Valid() && count > 0 && dest != entries && at + entrySize <= dest.Length
      modifies this, dest
      ensures Valid() && Contents() == old(Contents())[1..]
      ensures |old(Contents())[0]| == entrySize
      ensures dest[..] == Overwrite(old(dest[..]), at, old(Contents())[0])
      ensures everRead == old(everRead) + 1
      ensures everWritten == old(everWritten) && everOverrun == old(everOverrun) && everFlushed == old(everFlushed)
    {
      QueueAt(entries[..], entrySize, maxEntries, position, count, 0);
      SlotOrder(entrySize, position, maxEntries);
      CopyOut(position, dest, at);
      Drop(1);
    }

    method Read(dest: array<byte>, at: nat) returns (ret: Status)
      requires Valid() && dest != entries && at + entrySize <= dest.Length
      modifies this, dest
      ensures Valid()
      ensures ret == if old(count) == 0 then Empty else Ok
      ensures ret == Empty ==> Contents() == old(Contents()) && dest[..] == old(dest[..]) && everRead == old(everRead)
      ensures ret == Ok ==> Contents() == old(Contents())[1..] && |old(Contents())[0]| == entrySize
                            && dest[..] == Overwrite(old(dest[..]), at, old(Contents())[0])
                            && everRead == old(everRead) + 1
      ensures everWritten == old(everWritten) && everOverrun == old(everOverrun) && everFlushed == old(everFlushed)
    {
      if count == 0 {
        return Empty;
      }
      TakeEntry(dest, at);
      return Ok;
    }

    method LookaheadRead(offset: nat, dest: array<byte>, at: nat, maxBytes: nat) returns (ret: Status)
      requires Valid() && dest != entries && at + maxBytes <= dest.Length
      modifies dest
      ensures ret == if old(count) == 0 then Empty else if maxBytes < entrySize then MemoryError
                     else if offset >= old(count) then Error else Ok
      ensures ret != Ok ==> dest[..] == old(dest[..])
      ensures ret == Ok ==> |old(Contents())[offset]| == entrySize
                            && dest[..] == Overwrite(old(dest[..]), at, old(Contents())[offset])
    {
      if count == 0 {
        return Empty;
      }
      if maxBytes < entrySize {
        return MemoryError;
      }
      if count <= offset {
        return Error;
      }
      var localPosition := position + offset;
      if localPosition >= maxEntries {
        localPosition := localPosition - maxEntries;
      }
      QueueAt(entries[..], entrySize, maxEntries, position, count, offset);
      CopyOut(localPosition, dest, at);
      return Ok;
    }

    /** The destination need only hold what is read, which is more than the size test allows for when the size wraps. */
    method ReadMulti(dest: array<byte>, buffSize: nat, numRequested: nat) returns (ret: Status, numRead: nat)
      requires Valid() && dest != entries
      requires buffSize >= Low32(Offset(entrySize, numRequested)) ==>
                 Offset(entrySize, Min(numRequested, count)) <= dest.Length
      modifies this, dest
      ensures Valid()
      ensures ret == if buffSize < Low32(Offset(entrySize, numRequested)) then MemoryError
                     else if numRequested > old(count) then Empty else Ok
      ensures numRead == if ret == MemoryError then 0 else Min(numRequested, old(count))
      ensures Contents() == old(Contents())[numRead..]
      ensures Cut(dest[..], entrySize, numRead) == old(Contents())[..numRead]
      ensures everRead == old(everRead) + numRead
      ensures everWritten == old(everWritten) && everOverrun == old(everOverrun) && everFlushed == old(everFlushed)
    {
      numRead := 0;
      if buffSize < Low32(Offset(entrySize, numRequested)) {
        return MemoryError, 0;
      }
      for i := 0 to numRequested
        invariant Valid() && numRead == i <= old(count) && count == old(count) - i
        invariant Contents() == old(Contents())[i..]
        invariant Cut(dest[..], entrySize, i) == old(Contents())[..i]
        invariant everRead == old(everRead) + i
        invariant everWritten == old(everWritten) && everOverrun == old(everOverrun) && everFlushed == old(everFlushed)
      {
        if count == 0 {
          return Empty, numRead;
        }
        SlotOrder(entrySize, i, Min(numRequested, old(count)));
        ghost var before := dest[..];
        ghost var head := Contents()[0];
        TakeEntry(dest, Offset(entrySize, i));
        CutExtends(before, entrySize, i, head);
        numRead := numRead + 1;
      }
      return Ok, numRead;
    }

    /** Appends what another buffer has in a slot. */
    method AppendSlotOf(from: RingBuffer, p: nat)
      requires Valid() && from.Valid() && from != this && from.entries != entries
      requires count < maxEntries && p < from.maxEntries && from.entrySize == entrySize
      modifies this, entries
      ensures Valid() && Contents() == old(Contents()) + [Slot(from.entries[..], entrySize, p)]
      ensures everWritten == old(everWritten) + 1 && count == old(count) + 1
    {
      SlotOrder(entrySize, p, from.maxEntries);
      PutEntry(from.entries[..], Offset(entrySize, p));
    }

    /** Appends entry `k` of another buffer. */
    method AppendEntryOf(from: RingBuffer, k: nat)
      requires Valid() && from.Valid() && from != this && from.entries != entries
      requires count < maxEntries && k < from.count && from.entrySize == entrySize
      modifies this, entries
      ensures Valid() && Contents() == old(Contents()) + [from.Contents()[k]]
      ensures from.Contents() == old(from.Contents())
      ensures everWritten == old(everWritten) + 1
    {
      var readPos := from.position + k;
      if readPos >= from.maxEntries {
        readPos := readPos - from.maxEntries;
      }
      QueueAt(from.entries[..], entrySize, from.maxEntries, from.position, from.count, k);
      AppendSlotOf(from, readPos);
    }

    /** Moves up to `numEntries` entries from `from` into `this`. */
    method CopyFrom(from: RingBuffer, numEntries: nat) returns (numCopied: nat)
      requires Valid() && from.Valid() && from != this && from.entries != entries
      modifies this, entries, from
      ensures Valid() && from.Valid()
      ensures numCopied == if from.entrySize != entrySize then 0
                           else Min(numEntries, Min(old(from.count), maxEntries - old(count)))
      ensures Contents() == old(Contents()) + old(from.Contents())[..numCopied]
      ensures from.Contents() == old(from.Contents())[numCopied..]
      ensures everWritten == old(everWritten) + numCopied
      ensures from.everRead == old(from.everRead) + numCopied
    {
      numCopied := 0;
      if from.entrySize != entrySize {
        return;
      }
      ghost var source, mine := from.Contents(), Contents();
      for i := 0 to numEntries
        invariant Valid() && from.Valid() && numCopied == i <= |source|
        invariant Contents() == mine + source[..i] && from.Contents() == source[i..]
        invariant everWritten == old(everWritten) + i && from.everRead == old(from.everRead) + i
      {
        if from.count == 0 {
          return;
        }
        if count >= maxEntries {
          return;
        }
        AppendEntryOf(from, 0);
        from.Drop(1);
        assert mine + source[..i] + [source[i]] == mine + source[..i + 1];
        numCopied := numCopied + 1;
      }
    }

    /** Copies entries `offset..` of `from` into `this` and leaves `from` as it was. Where the range test wraps it lets
        slots through that hold no entry; they need only lie in the buffer. */
    method LookaheadCopyFrom(offset: nat, from: RingBuffer, numEntries: nat) returns (i: nat)
      requires Valid() && from.Valid() && from != this && from.entries != entries
      requires offset < 0x1_0000_0000 && numEntries < 0x1_0000_0000
      requires from.entrySize == entrySize && Low32(numEntries + offset) <= from.count && from.count > 0 ==>
                 SlotsInside(from.maxEntries, from.position, offset, Min(numEntries, maxEntries - count))
      modifies this, entries
      ensures Valid()
      ensures i == if from.entrySize != entrySize || Low32(numEntries + offset) > from.count || from.count == 0 then 0
                   else Min(numEntries, maxEntries - old(count))
      ensures Contents() == old(Contents()) + Lookahead(from.entries[..], entrySize, from.maxEntries, from.position, offset, i)
      ensures numEntries + offset <= from.count ==>
                offset + i <= from.count && Contents() == old(Contents()) + from.Contents()[offset..offset + i]
      ensures from.Contents() == old(from.Contents())
      ensures everWritten == old(everWritten) + i
    {
      i := 0;
      hide Queue, Slot, Cut;
      if from.entrySize != entrySize {
        return;
      }
      if Low32(numEntries + offset) > from.count {
        return;
      }
      i := CopyAhead(offset, from, numEntries);
      LookaheadIsQueue(from.entries[..], entrySize, from.maxEntries, from.position, from.count, offset, i);
    }

    method CopyAhead(offset: nat, from: RingBuffer, numEntries: nat) returns (i: nat)
      requires Valid() && from.Valid() && from != this && from.entries != entries && from.entrySize == entrySize
      requires from.count > 0 ==>
                 SlotsInside(from.maxEntries, from.position, offset, Min(numEntries, maxEntries - count))
      modifies this, entries
      ensures Valid() && i == if from.count == 0 then 0 else Min(numEntries, maxEntries - old(count))
      ensures Contents() == old(Contents()) + Lookahead(from.entries[..], entrySize, from.maxEntries, from.position, offset, i)
      ensures everWritten == old(everWritten) + i
    {
      i := 0;
      LookaheadStep(from.entries[..], entrySize, from.maxEntries, from.position, offset, 0);
      hide Queue, Slot, Cut, Lookahead, Offset;
      ghost var mine := Contents();
      while i < numEntries
        invariant Valid() && i <= Min(numEntries, maxEntries - old(count)) && count == old(count) + i
        invariant i > 0 ==> from.count > 0
        invariant Contents() == mine + Lookahead(from.entries[..], entrySize, from.maxEntries, from.position, offset, i)
        invariant everWritten == old(everWritten) + i
      {
        if from.count == 0 {
          return;
        }
        if count >= maxEntries {
          return;
        }
        AppendAhead(from, offset + i);
        LookaheadStep(from.entries[..], entrySize, from.maxEntries, from.position, offset, i);
        i := i + 1;
      }
    }

    method AppendAhead(from: RingBuffer, k: nat)
      requires Valid() && from.Valid() && from != this && from.entries != entries && from.entrySize == entrySize
      requires count < maxEntries && WriteSlot(from.maxEntries, from.position, k) < from.maxEntries
      modifies this, entries
      ensures Valid() && count == old(count) + 1 && everWritten == old(everWritten) + 1
      ensures Contents() == old(Contents()) +
                            [Slot(from.entries[..], entrySize, WriteSlot(from.maxEntries, from.position, k))]
    {
      var readPos := Low32(from.position + k);
      if readPos >= from.maxEntries {
        readPos := readPos - from.maxEntries;
      }
      hide Queue, Slot, Cut, Offset;
      AppendSlotOf(from, readPos);
    }

    /** On 32 bits, entries written are entries read plus those flushed plus those held. */
    lemma StatisticsBalance()
      requires Valid()
      ensures totalWritten == Low32(totalRead + everFlushed + |Contents()|)
    {
      Low32Add(everRead, everFlushed + count);
    }

    /** The C function counts in 32 bits but returns 16. */
    method ConsumeEntries(numEntries: nat) returns (consumed: nat)
      requires Valid()
      modifies this
      ensures Valid()
      ensures Contents() == old(Contents())[Min(numEntries, old(count))..]
      ensures consumed == Low16(Min(numEntries, old(count)))
      ensures everRead == old(everRead) + Min(numEntries, old(count))
      ensures everWritten == old(everWritten) && everOverrun == old(everOverrun) && everFlushed == old(everFlushed)
    {
      var numConsume;
      if numEntries > count {
        numConsume := count;
      } else {
        numConsume := numEntries;
      }
      Drop(numConsume);
      return Low16(numConsume);
    }
  }

  /** Copying into slot `i` keeps the entries cut before it. */
  lemma {:induction false} CutKept(before: seq<byte>, size: nat, n: nat, i: nat, s: seq<byte>)
    requires Offset(size, i) + size <= |before| && |s| <= size && n <= i
    ensures Cut(Overwrite(before, Offset(size, i), s), size, n) == Cut(before, size, n)
  {
    if n > 0 {
      CutKept(before, size, n - 1, i, s);
      OverwriteOther(before, size, i, s, n - 1);
    }
  }

  lemma CutExtends(before: seq<byte>, size: nat, i: nat, s: seq<byte>)
    requires Offset(size, i) + size <= |before| && |s| == size
    ensures Cut(Overwrite(before, Offset(size, i), s), size, i + 1) == Cut(before, size, i) + [s]
  {
    CutKept(before, size, i, i, s);
    OverwriteSlot(before, size, i, s);
  }
}
